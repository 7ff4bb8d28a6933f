/** The economic report endpoint and its optional filters. */
module ReportsApi {
  import opened Wrappers
  import opened Decimal
  import opened ApiCall
  import opened QueryString
  import opened SeqUtil

  datatype ReporteFilters = ReporteFilters(sucursal: Option<int>, fecha_desde: Option<string>, fecha_hasta: Option<string>)

  const NoReporteFilters := ReporteFilters(None, None, None)

  const ReportePath := "/api/sales/reporte-economico/"

  /** The three guarded `params.append` lines, in order. */
  function ReporteCandidates(filters: Option<ReporteFilters>): seq<Candidate> {
    var f := filters.GetOr(NoReporteFilters);
    [ Candidate(IntTruthy(f.sucursal), Param("sucursal", IntToString(f.sucursal.GetOr(0)))),
      Candidate(StrTruthy(f.fecha_desde), Param("fecha_desde", f.fecha_desde.GetOr(""))),
      Candidate(StrTruthy(f.fecha_hasta), Param("fecha_hasta", f.fecha_hasta.GetOr(""))) ]
  }

  /** getReporteEconomico: the filters that are set, appended in order. */
  method GetReporteEconomico(filters: Option<ReporteFilters>) returns (call: Call<()>)
    ensures call == Call(GET, WithQuery(ReportePath, Emitted(ReporteCandidates(filters))), None)
  {
    var f := filters.GetOr(NoReporteFilters);
    ghost var cs := ReporteCandidates(filters);
    var params := new SearchParams();
    assert cs[..0] == [];
    EmittedSnoc(cs[..0], cs[0]);
    assert cs[..0] + [cs[0]] == cs[..1];
    if IntTruthy(f.sucursal) {
      params.Append("sucursal", IntToString(f.sucursal.value));
    }
    EmittedSnoc(cs[..1], cs[1]);
    assert cs[..1] + [cs[1]] == cs[..2];
    if StrTruthy(f.fecha_desde) {
      params.Append("fecha_desde", f.fecha_desde.value);
    }
    EmittedSnoc(cs[..2], cs[2]);
    assert cs[..2] + [cs[2]] == cs;
    if StrTruthy(f.fecha_hasta) {
      params.Append("fecha_hasta", f.fecha_hasta.value);
    }
    var query := params.ToString();
    call := Call(GET, ReportePath + (if query != "" then "?" + query else ""), None);
  }

  /** The report filters: each is sent exactly when it is set, with its own
      value, in the order sucursal, fecha_desde, fecha_hasta; with none set
      the path is the bare report path; dates without '&' are read back as
      sent. */
  lemma ReporteQuerySpec(filters: Option<ReporteFilters>)
    ensures var f := filters.GetOr(NoReporteFilters); var ps := Emitted(ReporteCandidates(filters));
      && (HasName(ps, "sucursal") <==> IntTruthy(f.sucursal))
      && (HasName(ps, "fecha_desde") <==> StrTruthy(f.fecha_desde))
      && (HasName(ps, "fecha_hasta") <==> StrTruthy(f.fecha_hasta))
      && (IntTruthy(f.sucursal) ==> Param("sucursal", IntToString(f.sucursal.value)) in ps)
      && (StrTruthy(f.fecha_desde) ==> Param("fecha_desde", f.fecha_desde.value) in ps)
      && (StrTruthy(f.fecha_hasta) ==> Param("fecha_hasta", f.fecha_hasta.value) in ps)
      && IsSubseq(ps, Params(ReporteCandidates(filters)))
      && (filters.None? ==> WithQuery(ReportePath, ps) == ReportePath)
      && (!IntTruthy(f.sucursal) && !StrTruthy(f.fecha_desde) && !StrTruthy(f.fecha_hasta) ==> WithQuery(ReportePath, ps) == ReportePath)
  {
    var cs := ReporteCandidates(filters);
    EmittedHasUniqueName(cs, 0, "sucursal");
    EmittedHasUniqueName(cs, 1, "fecha_desde");
    EmittedHasUniqueName(cs, 2, "fecha_hasta");
    EmittedMembership(cs, cs[0].param);
    EmittedMembership(cs, cs[1].param);
    EmittedMembership(cs, cs[2].param);
    EmittedInOrder(cs);
    if forall i :: 0 <= i < |cs| ==> !cs[i].present {
      EmittedNone(ReportePath, cs);
    }
  }

  /** When the dates hold no '&', the server reads back exactly the pairs sent. */
  lemma ReporteQueryReadBack(filters: Option<ReporteFilters>)
    requires var f := filters.GetOr(NoReporteFilters); '&' !in f.fecha_desde.GetOr("") && '&' !in f.fecha_hasta.GetOr("")
    ensures ReadQuery(ReportePath, WithQuery(ReportePath, Emitted(ReporteCandidates(filters)))) == Some(Emitted(ReporteCandidates(filters)))
  {
    var f := filters.GetOr(NoReporteFilters);
    var cs := ReporteCandidates(filters);
    var ps := Emitted(cs);
    IntToStringChars(f.sucursal.GetOr(0));
    forall p | p in ps ensures '=' !in p.name && '&' !in p.name && '&' !in p.value {
      EmittedMembership(cs, p);
    }
    ReadWithQuery(ReportePath, ps);
  }
}
