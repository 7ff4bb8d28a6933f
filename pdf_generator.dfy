/** src/utils/pdfGenerator.ts: the texts of a purchase-order PDF and its file
    name. The drawing itself (positions, fonts, colours), dates and money
    cells are not part of this model. */
module PdfGenerator {
  import opened Wrappers
  import opened Decimal
  import opened OrdersApi

  function Repeat(c: char, n: nat): (r: string)
    ensures |r| == n && forall i :: 0 <= i < n ==> r[i] == c
  {
    if n == 0 then [] else [c] + Repeat(c, n - 1)
  }

  /** `s.padStart(n, c)` with a one-character fill: the result ends with s and
      is filled with c on the left up to n characters. */
  function PadStart(s: string, n: nat, c: char): (r: string)
    ensures |r| == if |s| >= n then |s| else n
    ensures r[|r| - |s|..] == s
    ensures forall i :: 0 <= i < |r| - |s| ==> r[i] == c
  {
    if |s| >= n then s else Repeat(c, n - |s|) + s
  }

  /** `pedido.id.toString().padStart(6, '0')`. */
  function OrderNumber(id: int): string {
    PadStart(IntToString(id), 6, '0')
  }

  function FileName(id: int): string {
    "Orden_Compra_" + OrderNumber(id) + ".pdf"
  }

  function Header(id: int): string {
    "Orden N°: " + OrderNumber(id)
  }

  /** The order number of a non-negative id is all digits and reads back as the id. */
  lemma OrderNumberReadsBack(id: nat)
    ensures AllDigits(OrderNumber(id)) && ParseNat(OrderNumber(id)) == id
  {
    var s := NatToString(id);
    var r := OrderNumber(id);
    var z := r[..|r| - |s|];
    assert r == z + s;
    ParseNatLeadingZeros(z, s);
    ParseNatToString(id);
  }

  /** It is at least six characters long; ids below one million take exactly
      six, and ids of six or more digits are printed unchanged. */
  lemma OrderNumberLength(id: nat)
    ensures |OrderNumber(id)| >= 6
    ensures id < 1000000 ==> |OrderNumber(id)| == 6
    ensures id >= 100000 ==> OrderNumber(id) == IntToString(id)
  {
    NatToStringLength(id, 6);
    assert Pow10(6) == 1000000 by { assert Pow10(3) == 1000; }
    NatToStringLength(id, 5);
    assert Pow10(5) == 100000 by { assert Pow10(3) == 1000; }
  }

  /** The file name and the header carry the same number, and distinct
      non-negative ids get distinct file names. */
  lemma FileNameIdentifiesOrder(a: nat, b: nat)
    ensures FileName(a)[13..|FileName(a)| - 4] == Header(a)[10..]
    ensures FileName(a) == FileName(b) ==> a == b
  {
    var n := OrderNumber(a);
    assert FileName(a)[13..|FileName(a)| - 4] == n;
    assert Header(a)[10..] == n;
    if FileName(a) == FileName(b) {
      assert OrderNumber(b) == FileName(b)[13..|FileName(b)| - 4];
      OrderNumberReadsBack(a);
      OrderNumberReadsBack(b);
    }
  }

  /** `toUpperCase` on the ASCII letters; other characters are unchanged. */
  function UpperAscii(c: char): char {
    if 'a' <= c <= 'z' then (c as int - 32) as char else c
  }

  /** `estado.charAt(0).toUpperCase() + estado.slice(1)`. */
  function Capitalize(s: string): (r: string)
    ensures |r| == |s|
    ensures s != [] ==> r[1..] == s[1..]
    ensures s != [] ==> r[0] == UpperAscii(s[0])
  {
    if s == [] then [] else [UpperAscii(s[0])] + s[1..]
  }

  /** The state line of each order state; these are exactly the capitalised
      keys of the status badge map, except that "Rechazado" has no badge. */
  lemma EstadoLines()
    ensures Capitalize(EstadoText(Borrador)) == "Borrador"
    ensures Capitalize(EstadoText(Pendiente)) == "Pendiente"
    ensures Capitalize(EstadoText(Aprobado)) == "Aprobado"
    ensures Capitalize(EstadoText(Rechazado)) == "Rechazado"
    ensures Capitalize(EstadoText(Recibido)) == "Recibido"
  {
    assert UpperAscii('b') == 'B';
    assert UpperAscii('p') == 'P';
    assert UpperAscii('a') == 'A';
    assert UpperAscii('r') == 'R';
  }

  /** `sucursalDestino || pedido.destino_nombre || `Sucursal ${pedido.destino}``. */
  function DestinoTexto(sucursalDestino: Option<string>, p: Pedido): (r: string)
    ensures StrTruthy(sucursalDestino) ==> r == sucursalDestino.value
    ensures !StrTruthy(sucursalDestino) && p.destino_nombre != "" ==> r == p.destino_nombre
    ensures !StrTruthy(sucursalDestino) && p.destino_nombre == "" ==> r == "Sucursal " + IntToString(p.destino)
  {
    if StrTruthy(sucursalDestino) then sucursalDestino.value
    else if p.destino_nombre != "" then p.destino_nombre
    else "Sucursal " + IntToString(p.destino)
  }

  /** The product and quantity cells of a table row. */
  datatype TableRow = TableRow(producto: string, cantidad: string)

  /** `pedido.items.map(...)`: one row per item, in item order. */
  function TableRows(items: seq<PedidoItem>): (rows: seq<TableRow>)
    ensures |rows| == |items|
    ensures forall i :: 0 <= i < |items| ==> rows[i] == TableRow(items[i].producto_nombre, IntToString(items[i].cantidad))
    decreases |items|
  {
    if items == [] then [] else [TableRow(items[0].producto_nombre, IntToString(items[0].cantidad))] + TableRows(items[1..])
  }

  /** Every quantity printed in the table reads back as the item's quantity. */
  lemma TableQuantitiesReadBack(items: seq<PedidoItem>, i: nat)
    requires i < |items|
    ensures ParseInt(TableRows(items)[i].cantidad) == Some(items[i].cantidad)
  {
    ParseIntToString(items[i].cantidad);
  }

  /** The texts `generarOrdenCompraPDF` writes, in page order, and the file name it returns. */
  datatype OrdenCompra = OrdenCompra(numero: string, destino: string, estado: string, rows: seq<TableRow>, fileName: string)

  function GenerarOrdenCompra(p: Pedido, sucursalDestino: Option<string>): (o: OrdenCompra)
    ensures |o.numero| >= 10 && o.fileName == "Orden_Compra_" + o.numero[10..] + ".pdf"
    ensures |o.rows| == |p.items|
  {
    OrdenCompra(Header(p.id), "Destino: " + DestinoTexto(sucursalDestino, p),
      "Estado: " + Capitalize(EstadoText(p.estado)), TableRows(p.items), FileName(p.id))
  }
}
