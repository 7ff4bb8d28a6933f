/** The `URLSearchParams` builder the API modules use, and the path-with-query
    strings built from it. Percent-encoding is not modelled: names and values
    are emitted as they are. */
module QueryString {
  import opened SeqUtil
  import opened Wrappers

  datatype Param = Param(name: string, value: string)

  predicate HasName(ps: seq<Param>, name: string) {
    exists i :: 0 <= i < |ps| && ps[i].name == name
  }

  /** Index of the first pair named name. */
  function FirstNamed(ps: seq<Param>, name: string): (i: nat)
    requires HasName(ps, name)
    ensures i < |ps| && ps[i].name == name
    ensures forall j :: 0 <= j < i ==> ps[j].name != name
    decreases |ps|
  {
    if ps[0].name == name then 0
    else
      assert HasName(ps[1..], name) by {
        var i :| 0 <= i < |ps| && ps[i].name == name;
        assert ps[1..][i - 1] == ps[i];
      }
      1 + FirstNamed(ps[1..], name)
  }

  /** Keeps the pairs with a name other than name. */
  function Unnamed(name: string): Param -> bool {
    (p: Param) => p.name != name
  }

  /** `params.set(name, value)`: the first pair with that name takes the new
      value where it stands and the later ones are dropped, or a new pair is
      appended when there is none; pairs with other names are kept. */
  function SetParam(ps: seq<Param>, name: string, value: string): (r: seq<Param>)
    ensures Param(name, value) in r
    ensures forall i :: 0 <= i < |r| && r[i].name == name ==> r[i].value == value
    ensures HasName(ps, name) ==>
      r == ps[..FirstNamed(ps, name)] + [Param(name, value)] + Filter(ps[FirstNamed(ps, name) + 1..], Unnamed(name))
    ensures !HasName(ps, name) ==> r == ps + [Param(name, value)]
    ensures forall q: Param :: q.name != name ==> (q in r <==> q in ps)
  {
    if HasName(ps, name) then
      ReplaceFirstValue(ps, name, value);
      ReplaceFirstKeepsOthers(ps, name, value);
      ReplaceFirst(ps, name, value)
    else ps + [Param(name, value)]
  }

  /** The pairs before the first one named name are kept, that one takes
      the new value, and the later pairs of that name are dropped. */
  function ReplaceFirst(ps: seq<Param>, name: string, value: string): seq<Param>
    requires HasName(ps, name)
  {
    var k := FirstNamed(ps, name);
    ps[..k] + [Param(name, value)] + Filter(ps[k + 1..], Unnamed(name))
  }

  /** After the replacement the new pair is there, and every pair of that
      name carries the new value. */
  lemma ReplaceFirstValue(ps: seq<Param>, name: string, value: string)
    requires HasName(ps, name)
    ensures Param(name, value) in ReplaceFirst(ps, name, value)
    ensures forall i :: 0 <= i < |ReplaceFirst(ps, name, value)| && ReplaceFirst(ps, name, value)[i].name == name ==>
      ReplaceFirst(ps, name, value)[i].value == value
  {
    var k := FirstNamed(ps, name);
    var r := ReplaceFirst(ps, name, value);
    assert r[k] == Param(name, value);
  }

  /** Replacing the first pair of a name touches no pair of another name. */
  lemma ReplaceFirstKeepsOthers(ps: seq<Param>, name: string, value: string)
    requires HasName(ps, name)
    ensures forall q: Param :: q.name != name ==> (q in ReplaceFirst(ps, name, value) <==> q in ps)
  {
    var k := FirstNamed(ps, name);
    var rest := Filter(ps[k + 1..], Unnamed(name));
    assert ps == ps[..k] + [ps[k]] + ps[k + 1..];
    forall q: Param | q.name != name
      ensures q in ReplaceFirst(ps, name, value) <==> q in ps
    {
      FilterMembership(ps[k + 1..], Unnamed(name), q);
      InThree(ps[..k], Param(name, value), rest, q);
      InThree(ps[..k], ps[k], ps[k + 1..], q);
    }
  }

  lemma InThree<T>(a: seq<T>, x: T, b: seq<T>, q: T)
    ensures q in a + [x] + b <==> q in a || q == x || q in b
  {
  }

  function Encode(p: Param): string {
    p.name + "=" + p.value
  }

  /** `params.toString()`: the pairs as name=value, joined by '&'. */
  function Serialize(ps: seq<Param>): (q: string)
    ensures q == "" <==> ps == []
    decreases |ps|
  {
    if ps == [] then ""
    else if |ps| == 1 then Encode(ps[0])
    else Encode(ps[0]) + "&" + Serialize(ps[1..])
  }

  /** Index of the first c in s, or |s| when there is none. */
  function IndexOf(s: string, c: char): (i: nat)
    ensures i <= |s|
    ensures forall j :: 0 <= j < i ==> s[j] != c
    ensures i < |s| ==> s[i] == c
    decreases |s|
  {
    if s == [] then 0 else if s[0] == c then 0 else 1 + IndexOf(s[1..], c)
  }

  lemma IndexOfAbsent(s: string, c: char)
    requires c !in s
    ensures IndexOf(s, c) == |s|
  {
  }

  lemma IndexOfFirst(a: string, c: char, b: string)
    requires c !in a
    ensures IndexOf(a + [c] + b, c) == |a|
  {
    var s := a + [c] + b;
    assert forall j :: 0 <= j < |a| ==> s[j] == a[j];
    assert s[|a|] == c;
  }

  function ParsePair(s: string): Param {
    var i := IndexOf(s, '=');
    if i == |s| then Param(s, "") else Param(s[..i], s[i + 1..])
  }

  function ParseSegments(s: string): seq<Param>
    decreases |s|
  {
    var i := IndexOf(s, '&');
    if i == |s| then [ParsePair(s)] else [ParsePair(s[..i])] + ParseSegments(s[i + 1..])
  }

  /** Reads a query string back into its pairs. */
  function ParseQuery(q: string): seq<Param> {
    if q == "" then [] else ParseSegments(q)
  }

  /** Names without '=' or '&' and values without '&' survive serialisation. */
  predicate WellFormed(ps: seq<Param>) {
    forall i :: 0 <= i < |ps| ==> '=' !in ps[i].name && '&' !in ps[i].name && '&' !in ps[i].value
  }

  lemma ParsePairEncode(p: Param)
    requires '=' !in p.name
    ensures ParsePair(Encode(p)) == p
  {
    IndexOfFirst(p.name, '=', p.value);
    assert Encode(p) == p.name + ['='] + p.value;
  }

  /** Parsing a serialised list of well-formed pairs gives the list back. */
  lemma {:induction false} ParseSerialize(ps: seq<Param>)
    requires WellFormed(ps)
    ensures ParseQuery(Serialize(ps)) == ps
    decreases |ps|
  {
    if ps != [] {
      var e := Encode(ps[0]);
      assert '&' !in e by {
        assert e == ps[0].name + "=" + ps[0].value;
      }
      ParsePairEncode(ps[0]);
      if |ps| == 1 {
        IndexOfAbsent(e, '&');
      } else {
        var rest := Serialize(ps[1..]);
        assert WellFormed(ps[1..]) by {
          forall i | 0 <= i < |ps[1..]| ensures '=' !in ps[1..][i].name && '&' !in ps[1..][i].name && '&' !in ps[1..][i].value {
            assert ps[1..][i] == ps[i + 1];
          }
        }
        ParseSerialize(ps[1..]);
        assert Serialize(ps) == e + ['&'] + rest;
        IndexOfFirst(e, '&', rest);
        assert (e + ['&'] + rest)[..|e|] == e;
        assert (e + ['&'] + rest)[|e| + 1..] == rest;
      }
    }
  }

  /** `${base}${q ? "?" + q : ""}` with q the serialised pairs. */
  function WithQuery(base: string, ps: seq<Param>): (url: string) {
    var q := Serialize(ps);
    base + (if q != "" then "?" + q else "")
  }

  /** path is base followed by '?' and a query. */
  predicate HasQuery(base: string, path: string) {
    |base| < |path| && path[..|base| + 1] == base + "?"
  }

  /** The pairs a path built on base carries, or None when it is not one. */
  function ReadQuery(base: string, path: string): Option<seq<Param>> {
    if path == base then Some([])
    else if HasQuery(base, path) then Some(ParseQuery(path[|base| + 1..]))
    else None
  }

  /** The path omits '?' exactly when there are no pairs, and reading it
      back gives the pairs it was built from. */
  lemma ReadWithQuery(base: string, ps: seq<Param>)
    requires WellFormed(ps)
    ensures WithQuery(base, ps) == base <==> ps == []
    ensures ReadQuery(base, WithQuery(base, ps)) == Some(ps)
  {
    var url := WithQuery(base, ps);
    if ps != [] {
      var q := Serialize(ps);
      assert url == base + "?" + q;
      assert url[..|base| + 1] == base + "?";
      assert url[|base| + 1..] == q;
      ParseSerialize(ps);
    }
  }

  /** One `if (value) query.set(name, value)` line of a builder: the pair
      and whether the guard lets it through. */
  datatype Candidate = Candidate(present: bool, param: Param)

  /** The pairs a run of guarded `set`/`append` calls with distinct names
      leaves in the builder. */
  function Emitted(cs: seq<Candidate>): (ps: seq<Param>)
    ensures |ps| <= |cs|
    decreases |cs|
  {
    if cs == [] then [] else (if cs[0].present then [cs[0].param] else []) + Emitted(cs[1..])
  }

  function Params(cs: seq<Candidate>): (ps: seq<Param>)
    ensures |ps| == |cs|
    ensures forall i :: 0 <= i < |cs| ==> ps[i] == cs[i].param
    decreases |cs|
  {
    if cs == [] then [] else [cs[0].param] + Params(cs[1..])
  }

  /** A pair is emitted exactly when one of the guards that let its line
      through wrote it. */
  lemma {:induction false} EmittedMembership(cs: seq<Candidate>, x: Param)
    ensures x in Emitted(cs) <==> exists i :: 0 <= i < |cs| && cs[i].present && cs[i].param == x
    decreases |cs|
  {
    if cs != [] {
      EmittedMembership(cs[1..], x);
      if exists i :: 0 <= i < |cs| && cs[i].present && cs[i].param == x {
        var i :| 0 <= i < |cs| && cs[i].present && cs[i].param == x;
        if i > 0 {
          assert cs[1..][i - 1] == cs[i];
        }
      }
      if exists i :: 0 <= i < |cs[1..]| && cs[1..][i].present && cs[1..][i].param == x {
        var i :| 0 <= i < |cs[1..]| && cs[1..][i].present && cs[1..][i].param == x;
        assert cs[i + 1] == cs[1..][i];
      }
    }
  }

  /** The emitted pairs keep the order of the builder's lines. */
  lemma {:induction false} EmittedInOrder(cs: seq<Candidate>)
    ensures IsSubseq(Emitted(cs), Params(cs))
    decreases |cs|
  {
    if cs != [] {
      EmittedInOrder(cs[1..]);
      var r := Emitted(cs[1..]);
      assert Params(cs)[1..] == Params(cs[1..]);
      if cs[0].present {
        assert Emitted(cs) == [cs[0].param] + r;
        assert ([cs[0].param] + r)[1..] == r;
      } else {
        assert Emitted(cs) == r;
        if r != [] {
          assert Params(cs) != [];
        }
      }
    }
  }

  /** One more guarded line appends its pair when its guard passes. */
  lemma {:induction false} EmittedSnoc(cs: seq<Candidate>, c: Candidate)
    ensures Emitted(cs + [c]) == Emitted(cs) + (if c.present then [c.param] else [])
    decreases |cs|
  {
    if cs == [] {
      assert ([] + [c])[1..] == [];
    } else {
      assert (cs + [c])[1..] == cs[1..] + [c];
      EmittedSnoc(cs[1..], c);
    }
  }

  /** A guarded `set` whose name no earlier line used extends the builder
      as an `append` would. */
  lemma SetFresh(cs: seq<Candidate>, c: Candidate)
    requires forall i :: 0 <= i < |cs| ==> cs[i].param.name != c.param.name
    ensures c.present ==> SetParam(Emitted(cs), c.param.name, c.param.value) == Emitted(cs + [c])
    ensures !c.present ==> Emitted(cs) == Emitted(cs + [c])
  {
    EmittedSnoc(cs, c);
    EmittedHasName(cs, c.param.name);
  }

  predicate GoodParam(p: Param) {
    '=' !in p.name && '&' !in p.name && '&' !in p.value
  }

  /** Well-formed candidates emit well-formed pairs. */
  lemma {:induction false} EmittedWellFormed(cs: seq<Candidate>)
    requires forall i :: 0 <= i < |cs| ==> GoodParam(cs[i].param)
    ensures WellFormed(Emitted(cs))
    decreases |cs|
  {
    if cs != [] {
      EmittedWellFormed(cs[1..]);
    }
  }

  /** When no guard passes, the builder stays empty and the path has no '?'. */
  lemma {:induction false} EmittedNone(base: string, cs: seq<Candidate>)
    requires forall i :: 0 <= i < |cs| ==> !cs[i].present
    ensures Emitted(cs) == []
    ensures WithQuery(base, Emitted(cs)) == base
    decreases |cs|
  {
    if cs != [] {
      EmittedNone(base, cs[1..]);
    }
  }

  /** A name is present in the emitted pairs exactly when a candidate with
      that name passed its guard. */
  lemma EmittedHasName(cs: seq<Candidate>, name: string)
    ensures HasName(Emitted(cs), name) <==> exists i :: 0 <= i < |cs| && cs[i].present && cs[i].param.name == name
  {
    var ps := Emitted(cs);
    if HasName(ps, name) {
      var j :| 0 <= j < |ps| && ps[j].name == name;
      EmittedMembership(cs, ps[j]);
    }
    if exists i :: 0 <= i < |cs| && cs[i].present && cs[i].param.name == name {
      var i :| 0 <= i < |cs| && cs[i].present && cs[i].param.name == name;
      EmittedMembership(cs, cs[i].param);
      var j :| 0 <= j < |ps| && ps[j] == cs[i].param;
    }
  }

  /** When exactly one candidate carries a name, that name is emitted exactly
      when that candidate passed its guard. */
  lemma EmittedHasUniqueName(cs: seq<Candidate>, k: nat, name: string)
    requires k < |cs| && cs[k].param.name == name
    requires forall j :: 0 <= j < |cs| && j != k ==> cs[j].param.name != name
    ensures HasName(Emitted(cs), name) <==> cs[k].present
  {
    EmittedHasName(cs, name);
  }

  /** A `new URLSearchParams()` object. */
  class SearchParams {
    var params: seq<Param>

    constructor ()
      ensures params == []
    {
      params := [];
    }

    method Set(name: string, value: string)
      modifies this
      ensures params == SetParam(old(params), name, value)
    {
      params := SetParam(params, name, value);
    }

    method Append(name: string, value: string)
      modifies this
      ensures params == old(params) + [Param(name, value)]
    {
      params := params + [Param(name, value)];
    }

    function ToString(): string
      reads this
    {
      Serialize(params)
    }
  }
}
