/** The stock listing endpoint: one row per product in a sub-location, and
    the filtered list request. */
module StockApi {
  import opened Wrappers
  import opened Decimal
  import opened ApiCall
  import opened QueryString
  import opened SeqUtil
  import opened ProductsApi

  datatype Stock = Stock(
    id: int,
    producto: int,
    producto_nombre: string,
    producto_tipo_conservacion: Conservacion,
    sub_ubicacion: int,
    sub_ubicacion_nombre: string,
    sub_ubicacion_tipo: Conservacion,
    ubicacion_id: int,
    ubicacion_nombre: string,
    cantidad: int,
    ultima_actualizacion: string)

  datatype StockFilter = StockFilter(
    ubicacion: Option<int>,
    sub_ubicacion: Option<int>,
    producto: Option<int>,
    solo_con_stock: Option<bool>)

  const NoStockFilter := StockFilter(None, None, None, None)

  const StockPath := "/api/inventory/stock/"

  /** The four guarded `query.set` lines of listStock, in order. */
  function StockCandidates(params: Option<StockFilter>): seq<Candidate> {
    var f := params.GetOr(NoStockFilter);
    [ Candidate(IntTruthy(f.ubicacion), Param("ubicacion", IntToString(f.ubicacion.GetOr(0)))),
      Candidate(IntTruthy(f.sub_ubicacion), Param("sub_ubicacion", IntToString(f.sub_ubicacion.GetOr(0)))),
      Candidate(IntTruthy(f.producto), Param("producto", IntToString(f.producto.GetOr(0)))),
      Candidate(f.solo_con_stock == Some(true), Param("solo_con_stock", "true")) ]
  }

  /** listStock: the filters that are set, as a query string. */
  method ListStock(params: Option<StockFilter>) returns (call: Call<()>)
    ensures call == Call(GET, WithQuery(StockPath, Emitted(StockCandidates(params))), None)
  {
    var f := params.GetOr(NoStockFilter);
    ghost var cs := StockCandidates(params);
    var query := new SearchParams();
    assert cs[..0] == [];
    SetFresh(cs[..0], cs[0]);
    assert cs[..0] + [cs[0]] == cs[..1];
    if IntTruthy(f.ubicacion) {
      query.Set("ubicacion", IntToString(f.ubicacion.value));
    }
    SetFresh(cs[..1], cs[1]);
    assert cs[..1] + [cs[1]] == cs[..2];
    if IntTruthy(f.sub_ubicacion) {
      query.Set("sub_ubicacion", IntToString(f.sub_ubicacion.value));
    }
    SetFresh(cs[..2], cs[2]);
    assert cs[..2] + [cs[2]] == cs[..3];
    if IntTruthy(f.producto) {
      query.Set("producto", IntToString(f.producto.value));
    }
    SetFresh(cs[..3], cs[3]);
    assert cs[..3] + [cs[3]] == cs;
    if f.solo_con_stock == Some(true) {
      query.Set("solo_con_stock", "true");
    }
    var queryString := query.ToString();
    call := Call(GET, StockPath + (if queryString != "" then "?" + queryString else ""), None);
  }

  /** A decimal id holds neither '&' nor '='. */
  lemma IdValueWellFormed(i: int)
    ensures '&' !in IntToString(i) && '=' !in IntToString(i)
  {
    IntToStringChars(i);
  }

  /** The stock filters: each is sent exactly when it is set, the flag only
      when it is true, in the order ubicacion, sub_ubicacion, producto,
      solo_con_stock; with none set the path is the bare collection path. */
  lemma StockQuerySpec(params: Option<StockFilter>)
    ensures var f := params.GetOr(NoStockFilter); var ps := Emitted(StockCandidates(params));
      && (HasName(ps, "ubicacion") <==> IntTruthy(f.ubicacion))
      && (HasName(ps, "sub_ubicacion") <==> IntTruthy(f.sub_ubicacion))
      && (HasName(ps, "producto") <==> IntTruthy(f.producto))
      && (Param("solo_con_stock", "true") in ps <==> f.solo_con_stock == Some(true))
      && (IntTruthy(f.ubicacion) ==> Param("ubicacion", IntToString(f.ubicacion.value)) in ps)
      && (IntTruthy(f.sub_ubicacion) ==> Param("sub_ubicacion", IntToString(f.sub_ubicacion.value)) in ps)
      && (IntTruthy(f.producto) ==> Param("producto", IntToString(f.producto.value)) in ps)
      && IsSubseq(ps, Params(StockCandidates(params)))
      && (params.None? ==> WithQuery(StockPath, ps) == StockPath)
      && (!IntTruthy(f.ubicacion) && !IntTruthy(f.sub_ubicacion) && !IntTruthy(f.producto) && f.solo_con_stock != Some(true) ==> WithQuery(StockPath, ps) == StockPath)
  {
    var cs := StockCandidates(params);
    EmittedHasUniqueName(cs, 0, "ubicacion");
    EmittedHasUniqueName(cs, 1, "sub_ubicacion");
    EmittedHasUniqueName(cs, 2, "producto");
    EmittedMembership(cs, cs[3].param);
    EmittedMembership(cs, cs[0].param);
    EmittedMembership(cs, cs[1].param);
    EmittedMembership(cs, cs[2].param);
    EmittedInOrder(cs);
    if forall i :: 0 <= i < |cs| ==> !cs[i].present {
      EmittedNone(StockPath, cs);
    }
  }

  /** No name or value of the stock filters holds a separator. */
  lemma StockCandidatesGood(params: Option<StockFilter>)
    ensures var cs := StockCandidates(params);
      forall i :: 0 <= i < |cs| ==> GoodParam(cs[i].param)
  {
    var f := params.GetOr(NoStockFilter);
    IdParamGood("ubicacion", f.ubicacion.GetOr(0));
    IdParamGood("sub_ubicacion", f.sub_ubicacion.GetOr(0));
    IdParamGood("producto", f.producto.GetOr(0));
    FlagParamGood();
  }

  /** An id filter is a plain name with a decimal value. */
  lemma IdParamGood(name: string, i: int)
    requires name == "ubicacion" || name == "sub_ubicacion" || name == "producto"
    ensures GoodParam(Param(name, IntToString(i)))
  {
    IdValueWellFormed(i);
  }

  lemma FlagParamGood()
    ensures GoodParam(Param("solo_con_stock", "true"))
  {
  }

  /** The server reads back exactly the pairs sent. */
  lemma StockQueryReadBack(params: Option<StockFilter>)
    ensures ReadQuery(StockPath, WithQuery(StockPath, Emitted(StockCandidates(params)))) == Some(Emitted(StockCandidates(params)))
  {
    var cs := StockCandidates(params);
    StockCandidatesGood(params);
    EmittedWellFormed(cs);
    ReadWithQuery(StockPath, Emitted(cs));
  }
}
