/** The admin sales view: the sales of each location, the location cards
    with their last sale, the drill-down list and the item-count label. */
module AdminSales {
  import opened Wrappers
  import opened Decimal
  import opened SeqUtil
  import opened SeqMap
  import opened Locations

  datatype VentaItemDetalle = VentaItemDetalle(producto_nombre: string, cantidad: int, precio_venta_momento: string)

  /** A sale as the view reads it; the total stays the server's decimal string. */
  datatype VentaDetalle = VentaDetalle(
    id: int,
    sucursal: int,
    fecha: string,
    vendedor_nombre: string,
    total: string,
    items: seq<VentaItemDetalle>)

  function SucursalOf(v: VentaDetalle): int {
    v.sucursal
  }

  /** The sales of one location: `allVentas.filter((v) => v.sucursal === id)`. */
  function VentasDe(allVentas: seq<VentaDetalle>, id: int): seq<VentaDetalle> {
    Bucket(allVentas, SucursalOf, id)
  }

  /** A location's list holds exactly the sales made there, in the order
      the server sent them. */
  lemma VentasDeSpec(allVentas: seq<VentaDetalle>, id: int)
    ensures forall v :: v in VentasDe(allVentas, id) <==> v in allVentas && v.sucursal == id
    ensures IsSubseq(VentasDe(allVentas, id), allVentas)
  {
    BucketSpec(allVentas, SucursalOf, id);
  }

  /** ventasPorSuc: the reduce over the locations that stores each one's
      sales under its id. */
  method VentasPorSuc(sucursales: seq<Sucursal>, allVentas: seq<VentaDetalle>) returns (acc: map<int, seq<VentaDetalle>>)
    ensures acc.Keys == set s | s in sucursales :: s.id
    ensures forall id :: id in acc ==> acc[id] == VentasDe(allVentas, id)
  {
    acc := map[];
    var i := 0;
    while i < |sucursales|
      invariant 0 <= i <= |sucursales|
      invariant acc.Keys == set s | s in sucursales[..i] :: s.id
      invariant forall id :: id in acc ==> acc[id] == VentasDe(allVentas, id)
    {
      var suc := sucursales[i];
      acc := acc[suc.id := VentasDe(allVentas, suc.id)];
      assert sucursales[..i + 1] == sucursales[..i] + [suc];
      i := i + 1;
    }
    assert sucursales[..|sucursales|] == sucursales;
  }

  /** `ventas[0]`: the first sale of the list, absent when it is empty. */
  function LastVenta(ventas: seq<VentaDetalle>): (r: Option<VentaDetalle>)
    ensures r.None? <==> ventas == []
    ensures r.Some? ==> r.value == ventas[0] && r.value in ventas
  {
    if ventas == [] then None else Some(ventas[0])
  }

  /** One location card: the location, its sales and the first of them. */
  datatype SalesCard = SalesCard(suc: Sucursal, ventas: seq<VentaDetalle>, lastVenta: Option<VentaDetalle>, isAlmacen: bool)

  /** `ventasPorSuc[suc.id] ?? []`. */
  function CardOf(suc: Sucursal, porSuc: map<int, seq<VentaDetalle>>): SalesCard {
    var ventas := if suc.id in porSuc then porSuc[suc.id] else [];
    SalesCard(suc, ventas, LastVenta(ventas), IsAlmacen(suc))
  }

  /** The card of each location, for `.map`. */
  function SalesCardOf(porSuc: map<int, seq<VentaDetalle>>): Sucursal -> SalesCard {
    suc => CardOf(suc, porSuc)
  }

  /** The cards, in the order the stock view uses too. */
  function SalesCards(sucursales: seq<Sucursal>, porSuc: map<int, seq<VentaDetalle>>, nameCmp: (string, string) -> int): seq<SalesCard> {
    Map(SortLocations(sucursales, nameCmp), SalesCardOf(porSuc))
  }

  /** The card grid: the location array is sorted in place, then mapped to
      one card per location. */
  method RenderSalesCards(sucursales: array<Sucursal>, porSuc: map<int, seq<VentaDetalle>>, nameCmp: (string, string) -> int)
    returns (cards: seq<SalesCard>)
    modifies sucursales
    ensures sucursales[..] == SortLocations(old(sucursales[..]), nameCmp)
    ensures cards == SalesCards(old(sucursales[..]), porSuc, nameCmp)
  {
    SortSucursales(sucursales, nameCmp);
    cards := Map(sucursales[..], SalesCardOf(porSuc));
  }

  /** One card per location, branches first and by name within a kind. */
  lemma SalesCardsOrder(sucursales: seq<Sucursal>, porSuc: map<int, seq<VentaDetalle>>, nameCmp: (string, string) -> int)
    requires Collation(nameCmp)
    ensures var cs := SalesCards(sucursales, porSuc, nameCmp);
      && |cs| == |sucursales|
      && (forall i :: 0 <= i < |cs| ==> cs[i].suc in sucursales)
      && (forall i, j :: 0 <= i < j < |cs| ==>
            (cs[i].isAlmacen ==> cs[j].isAlmacen) &&
            (cs[i].isAlmacen == cs[j].isAlmacen ==> nameCmp(cs[i].suc.nombre, cs[j].suc.nombre) <= 0))
  {
    var sorted := SortLocations(sucursales, nameCmp);
    SortLocationsSpec(sucursales, nameCmp);
    assert |sorted| == |sucursales| by {
      assert |multiset(sorted)| == |multiset(sucursales)|;
    }
    forall i | 0 <= i < |sorted| ensures sorted[i] in sucursales {
      assert sorted[i] in multiset(sucursales);
    }
  }

  /** A card whose location has its own sales in the map lists exactly
      them. */
  lemma CardContents(suc: Sucursal, allVentas: seq<VentaDetalle>, porSuc: map<int, seq<VentaDetalle>>)
    requires suc.id in porSuc && porSuc[suc.id] == VentasDe(allVentas, suc.id)
    ensures var c := CardOf(suc, porSuc);
      && c.ventas == VentasDe(allVentas, suc.id)
      && (forall v :: v in c.ventas <==> v in allVentas && v.sucursal == suc.id)
      && c.lastVenta == LastVenta(c.ventas)
  {
    VentasDeSpec(allVentas, suc.id);
  }

  /** With the map ventasPorSuc builds, every card lists exactly its own
      location's sales in server order, and its last sale is the first of
      them, present exactly when there is one. */
  lemma SalesCardsContents(sucursales: seq<Sucursal>, allVentas: seq<VentaDetalle>, porSuc: map<int, seq<VentaDetalle>>, nameCmp: (string, string) -> int)
    requires porSuc.Keys == set s | s in sucursales :: s.id
    requires forall id :: id in porSuc ==> porSuc[id] == VentasDe(allVentas, id)
    ensures var cs := SalesCards(sucursales, porSuc, nameCmp);
      && (forall i :: 0 <= i < |cs| ==> cs[i].ventas == VentasDe(allVentas, cs[i].suc.id))
      && (forall i, v :: 0 <= i < |cs| ==> (v in cs[i].ventas <==> v in allVentas && v.sucursal == cs[i].suc.id))
      && (forall i :: 0 <= i < |cs| ==> cs[i].lastVenta == LastVenta(cs[i].ventas))
  {
    var sorted := SortLocations(sucursales, nameCmp);
    var cs := Map(sorted, SalesCardOf(porSuc));
    forall i | 0 <= i < |cs|
      ensures cs[i].ventas == VentasDe(allVentas, cs[i].suc.id)
      ensures forall v :: v in cs[i].ventas <==> v in allVentas && v.sucursal == cs[i].suc.id
      ensures cs[i].lastVenta == LastVenta(cs[i].ventas)
    {
      var suc := sorted[i];
      assert suc in multiset(sucursales);
      assert suc.id in porSuc;
      CardContents(suc, allVentas, porSuc);
    }
  }

  /** The badge of a sale row: `${n} ítem` with an "s" unless n is 1. */
  function ItemLabel(n: nat): string {
    NatToString(n) + " ítem" + (if n != 1 then "s" else "")
  }

  /** The label starts with the count, which reads back, followed by
      " ítem", and it ends in "s" exactly when the count is not 1. */
  lemma ItemLabelSpec(n: nat)
    ensures var d := NatToString(n); var l := ItemLabel(n);
      && |l| == |d| + 5 + (if n != 1 then 1 else 0)
      && l[..|d|] == d && ParseNat(l[..|d|]) == n
      && l[|d|..|d| + 5] == " ítem"
      && (l[|l| - 1] == 's' <==> n != 1)
  {
    var d := NatToString(n);
    var l := ItemLabel(n);
    assert l[..|d|] == d;
    assert l[|d|..|d| + 5] == " ítem";
    ParseNatToString(n);
  }
}
