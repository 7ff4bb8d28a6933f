/** The admin stock view: stock-level colours and badges, the filtered rows,
    the location cards with their counts, and the drill-down into one
    location grouped by sub-location. */
module AdminStock {
  import opened Wrappers
  import opened Decimal
  import opened SeqUtil
  import opened SeqMap
  import opened QueryString
  import opened ProductsApi
  import opened StockApi
  import opened Locations
  import OrderStatus

  // ---------------------------------------------------------------------------
  // Per-row helpers

  datatype StockColor = Red | Orange | Yellow | Emerald

  function ColorClass(c: StockColor): string {
    match c
    case Red => "text-red-600"
    case Orange => "text-orange-500"
    case Yellow => "text-yellow-600"
    case Emerald => "text-emerald-600"
  }

  /** stockColor: the colour band of a quantity. */
  function StockColorOf(cantidad: int): (c: StockColor)
    ensures c == Red <==> cantidad <= 0
    ensures c == Orange <==> 1 <= cantidad <= 9
    ensures c == Yellow <==> 10 <= cantidad <= 19
    ensures c == Emerald <==> cantidad >= 20
  {
    if cantidad <= 0 then Red
    else if cantidad < 10 then Orange
    else if cantidad < 20 then Yellow
    else Emerald
  }

  /** tipoBadgeVariant: heladera and freezer have their own badge, every
      other text the approved one. */
  function TipoBadgeVariant(tipo: string): (v: OrderStatus.Variant)
    ensures v == OrderStatus.Pending <==> tipo == "heladera"
    ensures v == OrderStatus.Draft <==> tipo == "freezer"
    ensures v == OrderStatus.Approved <==> tipo != "heladera" && tipo != "freezer"
  {
    if tipo == "heladera" then OrderStatus.Pending
    else if tipo == "freezer" then OrderStatus.Draft
    else OrderStatus.Approved
  }

  predicate IsLow(r: Stock) {
    0 < r.cantidad < 10
  }

  predicate IsOut(r: Stock) {
    r.cantidad <= 0
  }

  /** The rows the "bajo stock" and "sin stock" counts take are exactly the
      ones painted orange and red. */
  lemma ColorsMatchCounts(r: Stock)
    ensures IsOut(r) <==> StockColorOf(r.cantidad) == Red
    ensures IsLow(r) <==> StockColorOf(r.cantidad) == Orange
    ensures !(IsLow(r) && IsOut(r))
  {
  }

  // ---------------------------------------------------------------------------
  // Counts

  /** `rows.reduce((s, r) => s + r.cantidad, 0)`. */
  function Unidades(rows: seq<Stock>): int
    decreases |rows|
  {
    if rows == [] then 0 else rows[0].cantidad + Unidades(rows[1..])
  }

  /** The total of a concatenation is the sum of the totals. */
  lemma {:induction false} UnidadesConcat(a: seq<Stock>, b: seq<Stock>)
    ensures Unidades(a + b) == Unidades(a) + Unidades(b)
    decreases |a|
  {
    if a == [] {
      assert a + b == b;
    } else {
      assert (a + b)[1..] == a[1..] + b;
      UnidadesConcat(a[1..], b);
    }
  }

  /** The figures a panel or a card shows for its rows. */
  datatype PanelCounts = PanelCounts(productos: nat, unidades: int, bajoStock: nat, sinStock: nat)

  function Counts(rows: seq<Stock>): (c: PanelCounts)
    ensures c.productos == |rows|
    ensures c.unidades == Unidades(rows)
    ensures c.bajoStock + c.sinStock <= c.productos
  {
    CountDisjoint(rows, IsLow, IsOut);
    PanelCounts(|rows|, Unidades(rows), Count(rows, IsLow), Count(rows, IsOut))
  }

  /** The low and out counts take exactly the low and the out rows. */
  lemma CountsSpec(rows: seq<Stock>)
    ensures forall r :: r in Filter(rows, IsLow) <==> r in rows && IsLow(r)
    ensures forall r :: r in Filter(rows, IsOut) <==> r in rows && IsOut(r)
    ensures Counts(rows).bajoStock == |Filter(rows, IsLow)|
    ensures Counts(rows).sinStock == |Filter(rows, IsOut)|
  {
    forall r ensures r in Filter(rows, IsLow) <==> r in rows && IsLow(r) {
      FilterMembership(rows, IsLow, r);
    }
    forall r ensures r in Filter(rows, IsOut) <==> r in rows && IsOut(r) {
      FilterMembership(rows, IsOut, r);
    }
  }

  // ---------------------------------------------------------------------------
  // The tipo filter

  function TipoIs(t: string): Stock -> bool {
    (r: Stock) => ConservacionText(r.producto_tipo_conservacion) == t
  }

  /** The rows both views work on, after the tipo select. */
  function FilterTipo(all: seq<Stock>, filterTipo: string): seq<Stock> {
    if filterTipo == "all" then all else Filter(all, TipoIs(filterTipo))
  }

  /** "all" keeps every row; any other value keeps exactly the rows of that
      storage kind; either way the order is kept. */
  lemma FilterTipoSpec(all: seq<Stock>, filterTipo: string)
    ensures filterTipo == "all" ==> FilterTipo(all, filterTipo) == all
    ensures IsSubseq(FilterTipo(all, filterTipo), all)
    ensures filterTipo != "all" ==> forall r :: r in FilterTipo(all, filterTipo) <==>
      r in all && ConservacionText(r.producto_tipo_conservacion) == filterTipo
  {
    if filterTipo == "all" {
      IsSubseqRefl(all);
    } else {
      FilterIsSubseq(all, TipoIs(filterTipo));
      forall r ensures r in FilterTipo(all, filterTipo) <==> r in all && ConservacionText(r.producto_tipo_conservacion) == filterTipo {
        FilterMembership(all, TipoIs(filterTipo), r);
      }
    }
  }

  /** The request the view loads its rows with: only the solo_con_stock flag. */
  function LoadFilter(soloConStock: bool): Option<StockFilter> {
    Some(StockFilter(None, None, None, Some(soloConStock)))
  }

  lemma LoadPath(soloConStock: bool)
    ensures WithQuery(StockPath, Emitted(StockCandidates(LoadFilter(soloConStock))))
         == if soloConStock then StockPath + "?solo_con_stock=true" else StockPath
  {
    var cs := StockCandidates(LoadFilter(soloConStock));
    assert Emitted(cs) == Emitted(cs[1..]);
    assert cs[1..][1..] == cs[2..];
    assert Emitted(cs[1..]) == Emitted(cs[2..]);
    assert cs[2..][1..] == cs[3..];
    assert Emitted(cs[2..]) == Emitted(cs[3..]);
    assert cs[3..][1..] == [];
    var p := Param("solo_con_stock", "true");
    assert Emitted(cs[3..]) == if soloConStock then [p] else [];
    assert Serialize([p]) == "solo_con_stock=true";
  }

  // ---------------------------------------------------------------------------
  // groupBy

  /** What `groupBy` returns: one entry per key that occurs, holding the
      elements with that key in input order. */
  function Grouped<T>(s: seq<T>, key: T -> string): map<string, seq<T>> {
    map k | k in KeyOrder(s, key) :: Bucket(s, key, k)
  }

  /** groupBy: the reduce that pushes each element into the array of its key. */
  method GroupBy<T>(arr: seq<T>, key: T -> string) returns (acc: map<string, seq<T>>)
    ensures acc == Grouped(arr, key)
  {
    acc := map[];
    var i := 0;
    while i < |arr|
      invariant 0 <= i <= |arr|
      invariant acc == Grouped(arr[..i], key)
    {
      var item := arr[i];
      var k := key(item);
      GroupedSnoc(arr[..i], item, key);
      assert arr[..i + 1] == arr[..i] + [item];
      acc := acc[k := (if k in acc then acc[k] else []) + [item]];
      i := i + 1;
    }
    assert arr[..|arr|] == arr;
  }

  /** The keys of one more element: its key joins at the end when new. */
  lemma KeyOrderSnoc<T>(s: seq<T>, x: T, key: T -> string)
    ensures KeyOrder(s + [x], key) == if key(x) in KeyOrder(s, key) then KeyOrder(s, key) else KeyOrder(s, key) + [key(x)]
  {
    assert (s + [x])[..|s|] == s;
  }

  /** One more element leaves every other bucket as it was. */
  lemma BucketSnoc<T>(s: seq<T>, x: T, key: T -> string, j: string)
    ensures Bucket(s + [x], key, j) == Bucket(s, key, j) + (if key(x) == j then [x] else [])
  {
    BucketConcat(s, [x], key, j);
    assert [x][1..] == [];
  }

  /** One more element goes at the end of its key's bucket, which is created
      when the key is new. */
  lemma GroupedSnoc<T>(s: seq<T>, x: T, key: T -> string)
    ensures var g := Grouped(s, key);
      Grouped(s + [x], key) == g[key(x) := (if key(x) in g then g[key(x)] else []) + [x]]
  {
    var g := Grouped(s, key);
    var g' := Grouped(s + [x], key);
    var k := key(x);
    var m := g[k := (if k in g then g[k] else []) + [x]];
    KeyOrderSnoc(s, x, key);
    assert g'.Keys == m.Keys;
    forall j | j in g' ensures g'[j] == m[j] {
      BucketSnoc(s, x, key, j);
      if j == k && k !in g {
        KeyOrderSpec(s, key);
        BucketAbsent(s, key, k);
      }
    }
  }

  /** Every element is in the bucket of its key and in no other, each bucket
      keeps the input order, no bucket is empty, and the buckets together are
      a permutation of the input. */
  lemma GroupedSpec<T>(s: seq<T>, key: T -> string)
    ensures forall k :: k in Grouped(s, key) <==> KeyOccurs(s, key, k)
    ensures forall k, x :: k in Grouped(s, key) ==> (x in Grouped(s, key)[k] <==> x in s && key(x) == k)
    ensures forall k :: k in Grouped(s, key) ==> IsSubseq(Grouped(s, key)[k], s) && Grouped(s, key)[k] != []
    ensures multiset(ConcatBuckets(s, key, KeyOrder(s, key))) == multiset(s)
  {
    KeyOrderSpec(s, key);
    forall k | k in Grouped(s, key)
      ensures forall x :: x in Grouped(s, key)[k] <==> x in s && key(x) == k
      ensures IsSubseq(Grouped(s, key)[k], s) && Grouped(s, key)[k] != []
    {
      BucketSpec(s, key, k);
      var i :| 0 <= i < |s| && key(s[i]) == k;
      assert s[i] in Bucket(s, key, k);
    }
    forall i | 0 <= i < |s| ensures key(s[i]) in KeyOrder(s, key) {
      assert KeyOccurs(s, key, key(s[i]));
    }
    ConcatBucketsPermutation(s, key, KeyOrder(s, key));
  }

  // ---------------------------------------------------------------------------
  // The drill-down into one location

  function UbicacionOf(r: Stock): int {
    r.ubicacion_id
  }

  function SubUbicacionOf(r: Stock): int {
    r.sub_ubicacion
  }

  /** The grouping key of a row: id, name and kind of its sub-location. */
  function SubKey(r: Stock): string {
    IntToString(r.sub_ubicacion) + "|||" + r.sub_ubicacion_nombre + "|||" + ConservacionText(r.sub_ubicacion_tipo)
  }

  /** A slice of the tail is the slice one further along. */
  lemma TailSlice(s: string, j: nat, n: nat)
    requires 1 + j + n <= |s|
    ensures s[1..][j..j + n] == s[j + 1..j + 1 + n]
  {
  }

  /** Index of the first "|||" in s, or |s| when there is none. */
  function SepIndex(s: string): (i: nat)
    ensures i <= |s|
    ensures i < |s| ==> i + 3 <= |s| && s[i..i + 3] == "|||"
    decreases |s|
  {
    if |s| < 3 then |s|
    else if s[..3] == "|||" then 0
    else
      var j := SepIndex(s[1..]);
      if j < |s[1..]| then
        TailSlice(s, j, 3);
        1 + j
      else 1 + j
  }

  /** `key.split("|||")`. */
  function SplitFields(s: string): (fs: seq<string>)
    ensures |fs| >= 1
    decreases |s|
  {
    var i := SepIndex(s);
    if i == |s| then [s] else [s[..i]] + SplitFields(s[i + 3..])
  }

  /** With no '|' before it, the first separator is the one written. */
  lemma {:induction false} SepIndexAt(a: string, b: string)
    requires '|' !in a
    ensures SepIndex(a + "|||" + b) == |a|
    decreases |a|
  {
    var s := a + "|||" + b;
    if a == [] {
      assert s[..3] == "|||";
    } else {
      assert s[..3] != "|||" by {
        assert s[0] == a[0];
      }
      assert s[1..] == a[1..] + "|||" + b;
      SepIndexAt(a[1..], b);
    }
  }

  /** A text with no '|' has no separator. */
  lemma {:induction false} SepIndexNone(a: string)
    requires '|' !in a
    ensures SepIndex(a) == |a|
    decreases |a|
  {
    if |a| >= 3 {
      assert a[..3] != "|||" by {
        assert a[..3][0] == a[0];
      }
      SepIndexNone(a[1..]);
    }
  }

  /** A first field without '|' is split off at the separator after it. */
  lemma SplitAfter(a: string, rest: string)
    requires '|' !in a
    ensures SplitFields(a + "|||" + rest) == [a] + SplitFields(rest)
  {
    var s := a + "|||" + rest;
    SepIndexAt(a, rest);
    assert s[|a| + 3..] == rest;
    assert s[..|a|] == a;
  }

  lemma SplitThree(a: string, b: string, c: string)
    requires '|' !in a && '|' !in b && '|' !in c
    ensures SplitFields(a + "|||" + b + "|||" + c) == [a, b, c]
  {
    assert a + "|||" + b + "|||" + c == a + "|||" + (b + "|||" + c);
    SplitAfter(a, b + "|||" + c);
    SplitAfter(b, c);
    SepIndexNone(c);
  }

  /** The panel title: the second field of the key. */
  function PanelTitle(key: string): string {
    var fs := SplitFields(key);
    if |fs| > 1 then fs[1] else ""
  }

  /** The panel kind: the third field of the key, "ambiente" when missing. */
  function PanelTipo(key: string): string {
    var fs := SplitFields(key);
    if |fs| > 2 then fs[2] else "ambiente"
  }

  /** A sub-location name without '|' comes back out of its key as the
      panel title, and the kind as the panel kind. */
  lemma PanelTitleOf(r: Stock)
    requires '|' !in r.sub_ubicacion_nombre
    ensures PanelTitle(SubKey(r)) == r.sub_ubicacion_nombre
    ensures PanelTipo(SubKey(r)) == ConservacionText(r.sub_ubicacion_tipo)
  {
    IntToStringChars(r.sub_ubicacion);
    var t := ConservacionText(r.sub_ubicacion_tipo);
    assert '|' !in t;
    SplitThree(IntToString(r.sub_ubicacion), r.sub_ubicacion_nombre, t);
  }

  /** One collapsible sub-location panel. */
  datatype Panel = Panel(key: string, title: string, tipo: string, rows: seq<Stock>, counts: PanelCounts)

  function PanelOf(key: string, rows: seq<Stock>): Panel {
    Panel(key, PanelTitle(key), PanelTipo(key), rows, Counts(rows))
  }

  function MakePanels(keys: seq<string>, items: seq<Stock>): (ps: seq<Panel>)
    ensures |ps| == |keys|
    ensures forall i :: 0 <= i < |keys| ==> ps[i] == PanelOf(keys[i], Bucket(items, SubKey, keys[i]))
    decreases |keys|
  {
    if keys == [] then [] else [PanelOf(keys[0], Bucket(items, SubKey, keys[0]))] + MakePanels(keys[1..], items)
  }

  function PanelRows(ps: seq<Panel>): seq<Stock>
    decreases |ps|
  {
    if ps == [] then [] else ps[0].rows + PanelRows(ps[1..])
  }

  lemma {:induction false} PanelRowsBuckets(keys: seq<string>, items: seq<Stock>)
    ensures PanelRows(MakePanels(keys, items)) == ConcatBuckets(items, SubKey, keys)
    decreases |keys|
  {
    if keys != [] {
      PanelRowsBuckets(keys[1..], items);
      assert MakePanels(keys, items)[1..] == MakePanels(keys[1..], items);
    }
  }

  /** The rows of the selected location. */
  function LocationItems(filtered: seq<Stock>, id: int): seq<Stock> {
    Bucket(filtered, UbicacionOf, id)
  }

  /** The drill-down: the location's rows grouped by sub-location, the
      groups sorted by key. */
  function DetailPanels(filtered: seq<Stock>, id: int, keyCmp: (string, string) -> int): seq<Panel> {
    var items := LocationItems(filtered, id);
    MakePanels(SortBy(KeyOrder(items, SubKey), CollationLe(keyCmp)), items)
  }

  /** The drill-down shows one panel per sub-location key, as many as
      `Object.keys(bySubUb)`. */
  lemma DetailPanelsCount(filtered: seq<Stock>, id: int, keyCmp: (string, string) -> int)
    ensures |DetailPanels(filtered, id, keyCmp)| == |Grouped(LocationItems(filtered, id), SubKey).Keys|
  {
    var items := LocationItems(filtered, id);
    var ko := KeyOrder(items, SubKey);
    var keys := SortBy(ko, CollationLe(keyCmp));
    assert |keys| == |ko| by {
      assert |multiset(keys)| == |multiset(ko)|;
    }
    GroupedKeys(items, SubKey);
  }

  /** The number of groups is the number of distinct keys. */
  lemma GroupedKeys<T>(s: seq<T>, key: T -> string)
    ensures |Grouped(s, key).Keys| == |KeyOrder(s, key)|
  {
    var ko := KeyOrder(s, key);
    KeyOrderSpec(s, key);
    assert Grouped(s, key).Keys == set k | k in ko;
    NoDupCard(ko);
  }

  /** The panels come in key order. */
  lemma DetailPanelsOrder(filtered: seq<Stock>, id: int, keyCmp: (string, string) -> int)
    requires Collation(keyCmp)
    ensures var ps := DetailPanels(filtered, id, keyCmp);
      forall i, j :: 0 <= i < j < |ps| ==> keyCmp(ps[i].key, ps[j].key) <= 0
  {
    var items := LocationItems(filtered, id);
    var keys := SortBy(KeyOrder(items, SubKey), CollationLe(keyCmp));
    var ps := DetailPanels(filtered, id, keyCmp);
    SortBySorted(KeyOrder(items, SubKey), CollationLe(keyCmp));
    forall i, j | 0 <= i < j < |ps| ensures keyCmp(ps[i].key, ps[j].key) <= 0 {
      assert CollationLe(keyCmp)(keys[i], keys[j]);
    }
  }

  /** Each panel is the groupBy bucket of its key: exactly the location's
      rows with that key. */
  lemma DetailPanelsRows(filtered: seq<Stock>, id: int, keyCmp: (string, string) -> int)
    ensures var items := LocationItems(filtered, id); var ps := DetailPanels(filtered, id, keyCmp);
      && (forall i :: 0 <= i < |ps| ==> ps[i].key in Grouped(items, SubKey) && ps[i].rows == Grouped(items, SubKey)[ps[i].key])
      && (forall i, r :: 0 <= i < |ps| ==> (r in ps[i].rows <==> r in filtered && r.ubicacion_id == id && SubKey(r) == ps[i].key))
  {
    var items := LocationItems(filtered, id);
    var ko := KeyOrder(items, SubKey);
    var keys := SortBy(ko, CollationLe(keyCmp));
    var ps := DetailPanels(filtered, id, keyCmp);
    forall i | 0 <= i < |ps| ensures keys[i] in ko {
      assert keys[i] in multiset(keys);
    }
    BucketSpec(filtered, UbicacionOf, id);
    forall i, r | 0 <= i < |ps| ensures r in ps[i].rows <==> r in filtered && r.ubicacion_id == id && SubKey(r) == ps[i].key {
      BucketSpec(items, SubKey, keys[i]);
    }
  }

  /** The panels together hold every row of the location exactly once. */
  lemma DetailPanelsCover(filtered: seq<Stock>, id: int, keyCmp: (string, string) -> int)
    ensures multiset(PanelRows(DetailPanels(filtered, id, keyCmp))) == multiset(LocationItems(filtered, id))
  {
    var items := LocationItems(filtered, id);
    var ko := KeyOrder(items, SubKey);
    var keys := SortBy(ko, CollationLe(keyCmp));
    KeyOrderSpec(items, SubKey);
    NoDupPermutation(ko, keys);
    forall i | 0 <= i < |items| ensures SubKey(items[i]) in keys {
      assert KeyOccurs(items, SubKey, SubKey(items[i]));
      assert SubKey(items[i]) in multiset(ko);
    }
    ConcatBucketsPermutation(items, SubKey, keys);
    PanelRowsBuckets(keys, items);
  }

  // ---------------------------------------------------------------------------
  // The index of location cards

  /** One location card: the location, its rows and their counts. */
  datatype LocationCard = LocationCard(suc: Sucursal, rows: seq<Stock>, counts: PanelCounts, isAlmacen: bool)

  function CardOf(suc: Sucursal, filtered: seq<Stock>): LocationCard {
    var rows := Bucket(filtered, UbicacionOf, suc.id);
    LocationCard(suc, rows, Counts(rows), IsAlmacen(suc))
  }

  /** `.map` of the sorted locations to their cards. */
  function MakeCards(ss: seq<Sucursal>, filtered: seq<Stock>): (cs: seq<LocationCard>)
    ensures |cs| == |ss|
    ensures forall i :: 0 <= i < |ss| ==> cs[i] == CardOf(ss[i], filtered)
  {
    Map(ss, (suc: Sucursal) => CardOf(suc, filtered))
  }

  function LocationCards(sucursales: seq<Sucursal>, filtered: seq<Stock>, nameCmp: (string, string) -> int): seq<LocationCard> {
    MakeCards(SortLocations(sucursales, nameCmp), filtered)
  }

  /** The card grid: the location array is sorted in place, then mapped to
      one card per location. */
  method RenderLocationCards(sucursales: array<Sucursal>, filtered: seq<Stock>, nameCmp: (string, string) -> int)
    returns (cards: seq<LocationCard>)
    modifies sucursales
    ensures sucursales[..] == SortLocations(old(sucursales[..]), nameCmp)
    ensures cards == LocationCards(old(sucursales[..]), filtered, nameCmp)
  {
    SortSucursales(sucursales, nameCmp);
    cards := MakeCards(sucursales[..], filtered);
  }

  function CardSucursales(cs: seq<LocationCard>): (ss: seq<Sucursal>)
    ensures |ss| == |cs|
    ensures forall i :: 0 <= i < |cs| ==> ss[i] == cs[i].suc
    decreases |cs|
  {
    if cs == [] then [] else [cs[0].suc] + CardSucursales(cs[1..])
  }

  /** One card per location, branches before the warehouse and by name
      within a kind; each card counts exactly the rows of its own location. */
  lemma LocationCardsSpec(sucursales: seq<Sucursal>, filtered: seq<Stock>, nameCmp: (string, string) -> int)
    requires Collation(nameCmp)
    ensures var cs := LocationCards(sucursales, filtered, nameCmp);
      && multiset(CardSucursales(cs)) == multiset(sucursales)
      && (forall i, j :: 0 <= i < j < |cs| ==>
            (cs[i].isAlmacen ==> cs[j].isAlmacen) &&
            (cs[i].isAlmacen == cs[j].isAlmacen ==> nameCmp(cs[i].suc.nombre, cs[j].suc.nombre) <= 0))
      && (forall i, r :: 0 <= i < |cs| ==> (r in cs[i].rows <==> r in filtered && r.ubicacion_id == cs[i].suc.id))
      && (forall i :: 0 <= i < |cs| ==> cs[i].counts == Counts(cs[i].rows) && IsSubseq(cs[i].rows, filtered))
  {
    var sorted := SortLocations(sucursales, nameCmp);
    var cs := LocationCards(sucursales, filtered, nameCmp);
    SortLocationsSpec(sucursales, nameCmp);
    assert CardSucursales(cs) == sorted;
    forall i | 0 <= i < |cs|
      ensures forall r :: r in cs[i].rows <==> r in filtered && r.ubicacion_id == cs[i].suc.id
      ensures IsSubseq(cs[i].rows, filtered)
    {
      BucketSpec(filtered, UbicacionOf, sorted[i].id);
    }
  }

  /** The rows of the cards, one card after the other. */
  function CardRows(cs: seq<LocationCard>): seq<Stock>
    decreases |cs|
  {
    if cs == [] then [] else cs[0].rows + CardRows(cs[1..])
  }

  /** The cards' rows are the buckets of the cards' location ids. */
  lemma {:induction false} CardRowsAreBuckets(ss: seq<Sucursal>, filtered: seq<Stock>)
    ensures CardRows(MakeCards(ss, filtered)) == ConcatBuckets(filtered, UbicacionOf, Ids(ss))
    decreases |ss|
  {
    if ss != [] {
      var cs := MakeCards(ss, filtered);
      assert cs[1..] == MakeCards(ss[1..], filtered);
      assert Ids(ss)[1..] == Ids(ss[1..]);
      CardRowsAreBuckets(ss[1..], filtered);
    }
  }

  /** When location ids are distinct and every row belongs to a listed
      location, the rows of the rendered cards together are every filtered
      row exactly once. */
  lemma CardsCoverRows(sucursales: seq<Sucursal>, filtered: seq<Stock>, nameCmp: (string, string) -> int)
    requires NoDup(Ids(sucursales))
    requires forall i :: 0 <= i < |filtered| ==> filtered[i].ubicacion_id in Ids(sucursales)
    ensures multiset(CardRows(LocationCards(sucursales, filtered, nameCmp))) == multiset(filtered)
  {
    var sorted := SortLocations(sucursales, nameCmp);
    MapPermutation(sucursales, sorted, IdOf);
    NoDupPermutation(Ids(sucursales), Ids(sorted));
    forall i | 0 <= i < |filtered| ensures UbicacionOf(filtered[i]) in Ids(sorted) {
      assert filtered[i].ubicacion_id in multiset(Ids(sucursales));
    }
    CardRowsAreBuckets(sorted, filtered);
    ConcatBucketsPermutation(filtered, UbicacionOf, Ids(sorted));
  }

  /** The "Sub-ubicaciones" figure: distinct sub-location ids among the rows. */
  function SubUbicacionCount(filtered: seq<Stock>): nat {
    |set r | r in filtered :: r.sub_ubicacion|
  }

  /** The figure is the number of distinct sub-location ids: never more than
      the rows, and at least one when there is a row. */
  lemma SubUbicacionCountSpec(filtered: seq<Stock>)
    ensures SubUbicacionCount(filtered) == |KeyOrder(filtered, SubUbicacionOf)|
    ensures SubUbicacionCount(filtered) <= |filtered|
    ensures filtered != [] ==> SubUbicacionCount(filtered) >= 1
  {
    var ko := KeyOrder(filtered, SubUbicacionOf);
    KeyOrderSpec(filtered, SubUbicacionOf);
    NoDupCard(ko);
    forall k ensures k in (set r | r in filtered :: r.sub_ubicacion) <==> k in ko {
      if k in (set r | r in filtered :: r.sub_ubicacion) {
        var r :| r in filtered && r.sub_ubicacion == k;
        var i :| 0 <= i < |filtered| && filtered[i] == r;
        assert KeyOccurs(filtered, SubUbicacionOf, k);
      }
      if k in ko {
        assert KeyOccurs(filtered, SubUbicacionOf, k);
        var i :| 0 <= i < |filtered| && filtered[i].sub_ubicacion == k;
        assert filtered[i] in filtered;
      }
    }
    assert (set r | r in filtered :: r.sub_ubicacion) == set k | k in ko;
    if filtered != [] {
      assert KeyOccurs(filtered, SubUbicacionOf, filtered[0].sub_ubicacion);
    }
  }
}
