/** The branches and the warehouse, and the order both admin views list
    them in: branches first, the warehouse last, names in collation order
    within a kind. */
module Locations {
  import opened SeqUtil
  import opened SeqMap

  datatype SubUbicacion = SubUbicacion(id: int, nombre: string, tipo: string)

  datatype Sucursal = Sucursal(id: int, nombre: string, tipo: string, sub_ubicaciones: seq<SubUbicacion>)

  predicate IsAlmacen(s: Sucursal) {
    s.tipo == "almacen"
  }

  /** `String.prototype.localeCompare` is not modelled: the collation is a
      parameter, assumed to be a consistent comparator. */
  ghost predicate Collation(nameCmp: (string, string) -> int) {
    TotalPreorder(CollationLe(nameCmp))
  }

  function CollationLe(nameCmp: (string, string) -> int): (string, string) -> bool {
    (a: string, b: string) => nameCmp(a, b) <= 0
  }

  /** The comparator of the location cards: a warehouse after anything
      that is not one, otherwise by name. */
  function LocationCmp(a: Sucursal, b: Sucursal, nameCmp: (string, string) -> int): (c: int)
    ensures IsAlmacen(a) && !IsAlmacen(b) ==> c > 0
    ensures IsAlmacen(b) && !IsAlmacen(a) ==> c < 0
    ensures IsAlmacen(a) == IsAlmacen(b) ==> c == nameCmp(a.nombre, b.nombre)
  {
    if IsAlmacen(a) && !IsAlmacen(b) then 1
    else if IsAlmacen(b) && !IsAlmacen(a) then -1
    else nameCmp(a.nombre, b.nombre)
  }

  function LocationLe(nameCmp: (string, string) -> int): (Sucursal, Sucursal) -> bool {
    (a: Sucursal, b: Sucursal) => LocationCmp(a, b, nameCmp) <= 0
  }

  /** The order `sucursales.sort(LocationCmp)` leaves the locations in. */
  function SortLocations(ss: seq<Sucursal>, nameCmp: (string, string) -> int): seq<Sucursal> {
    SortBy(ss, LocationLe(nameCmp))
  }

  /** `sucursales.sort(LocationCmp)` on the location array, in place. */
  method SortSucursales(a: array<Sucursal>, nameCmp: (string, string) -> int)
    modifies a
    ensures a[..] == SortLocations(old(a[..]), nameCmp)
  {
    InsertionSort(a, LocationLe(nameCmp));
  }

  /** A consistent collation makes the card comparator consistent too. */
  lemma LocationLePreorder(nameCmp: (string, string) -> int)
    requires Collation(nameCmp)
    ensures TotalPreorder(LocationLe(nameCmp))
  {
    var le := LocationLe(nameCmp);
    var nle := CollationLe(nameCmp);
    forall a, b ensures le(a, b) || le(b, a) {
      assert nle(a.nombre, b.nombre) || nle(b.nombre, a.nombre);
    }
    forall a, b, c | le(a, b) && le(b, c) ensures le(a, c) {
      if IsAlmacen(a) == IsAlmacen(b) && IsAlmacen(b) == IsAlmacen(c) {
        assert nle(a.nombre, b.nombre) && nle(b.nombre, c.nombre);
      }
    }
  }

  /** The sorted cards hold the same locations, every branch comes before
      every warehouse, and locations of one kind are in name order. */
  lemma SortLocationsSpec(ss: seq<Sucursal>, nameCmp: (string, string) -> int)
    requires Collation(nameCmp)
    ensures multiset(SortLocations(ss, nameCmp)) == multiset(ss)
    ensures var r := SortLocations(ss, nameCmp);
      forall i, j :: 0 <= i < j < |r| ==>
        (IsAlmacen(r[i]) ==> IsAlmacen(r[j])) &&
        (IsAlmacen(r[i]) == IsAlmacen(r[j]) ==> nameCmp(r[i].nombre, r[j].nombre) <= 0)
  {
    LocationLePreorder(nameCmp);
    SortBySorted(ss, LocationLe(nameCmp));
    var r := SortLocations(ss, nameCmp);
    forall i, j | 0 <= i < j < |r|
      ensures (IsAlmacen(r[i]) ==> IsAlmacen(r[j])) &&
              (IsAlmacen(r[i]) == IsAlmacen(r[j]) ==> nameCmp(r[i].nombre, r[j].nombre) <= 0)
    {
      assert LocationLe(nameCmp)(r[i], r[j]);
    }
  }

  function IdOf(s: Sucursal): int {
    s.id
  }

  function Ids(ss: seq<Sucursal>): (ids: seq<int>)
    ensures |ids| == |ss|
    ensures forall i :: 0 <= i < |ss| ==> ids[i] == ss[i].id
  {
    Map(ss, IdOf)
  }
}
