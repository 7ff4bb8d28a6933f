/** The request every API function hands to `apiFetch`: a path, the method
    (GET when none is given) and an optional JSON body. Sending it, the auth
    header and the token refresh are not part of this model. */
module ApiCall {
  import opened Wrappers
  import opened Decimal
  import QueryString

  datatype Method = GET | POST | PUT | PATCH | DELETE

  datatype Call<B> = Call(verb: Method, path: string, body: Option<B>)

  /** The error a page's `loadData` leaves behind: cleared when its requests
      resolve, otherwise the failure's message or "Error cargando datos". */
  function LoadDataError(loaded: Result<(), Option<string>>): (err: Option<string>)
    ensures loaded.Ok? <==> err == None
    ensures loaded.Err? && loaded.error.Some? ==> err == loaded.error
    ensures loaded.Err? && loaded.error.None? ==> err == Some("Error cargando datos")
  {
    if loaded.Ok? then None else Some(loaded.error.GetOr("Error cargando datos"))
  }

  /** The path of one record of a collection: `${base}${id}/`. */
  function IdPath(base: string, id: int): string {
    base + IntToString(id) + "/"
  }

  /** Reads a path below base as an id followed by '/' and a tail. */
  function ReadIdPath(base: string, path: string): Option<(int, string)> {
    if !(|base| <= |path| && path[..|base|] == base) then None
    else
      var rest := path[|base|..];
      var i := QueryString.IndexOf(rest, '/');
      var id := ParseInt(rest[..i]);
      if i == |rest| || id.None? then None else Some((id.value, rest[i + 1..]))
  }

  /** The id and the tail of a record path read back as they were written. */
  lemma ReadIdPathOf(base: string, id: int, tail: string)
    ensures ReadIdPath(base, IdPath(base, id) + tail) == Some((id, tail))
  {
    var s := IntToString(id);
    var p := IdPath(base, id) + tail;
    assert p == base + (s + ['/'] + tail);
    assert p[..|base|] == base;
    var rest := p[|base|..];
    assert rest == s + ['/'] + tail;
    IntToStringChars(id);
    QueryString.IndexOfFirst(s, '/', tail);
    assert rest[..|s|] == s;
    assert rest[|s| + 1..] == tail;
    ParseIntToString(id);
  }

  /** A collection path itself has no id. */
  lemma ReadBasePath(base: string)
    ensures ReadIdPath(base, base) == None
  {
    assert base[..|base|] == base;
    assert base[|base|..] == "";
  }
}
