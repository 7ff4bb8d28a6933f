/** The orders page: the draft item list of the create form, the create
    validation and payload, and the grouping of orders by state. */
module OrdersPage {
  import opened Wrappers
  import opened SeqUtil
  import opened ApiCall
  import opened OrdersApi
  import ProductsApi

  /** One row of the create form. */
  datatype PedidoItemForm = PedidoItemForm(producto: int, cantidad: int, precio_costo_momento: string)

  /** The row addItem appends: no product, one unit, cost "0". */
  const NewItem := PedidoItemForm(0, 1, "0")

  /** The field updateItem writes, with its value. */
  datatype ItemField = SetProducto(producto: int) | SetCantidad(cantidad: int) | SetCosto(costo: string)

  /** `{ ...it, [field]: value }`: the named field takes the value and the
      other two are kept. */
  function UpdateField(it: PedidoItemForm, f: ItemField): (r: PedidoItemForm)
    ensures f.SetProducto? ==> r.producto == f.producto && r.cantidad == it.cantidad && r.precio_costo_momento == it.precio_costo_momento
    ensures f.SetCantidad? ==> r.producto == it.producto && r.cantidad == f.cantidad && r.precio_costo_momento == it.precio_costo_momento
    ensures f.SetCosto? ==> r.producto == it.producto && r.cantidad == it.cantidad && r.precio_costo_momento == f.costo
  {
    match f
    case SetProducto(p) => it.(producto := p)
    case SetCantidad(c) => it.(cantidad := c)
    case SetCosto(c) => it.(precio_costo_momento := c)
  }

  /** `items.filter((_, i) => i !== index)`: the element at index goes and
      the rest keep their order; an index outside the list removes nothing. */
  function WithoutIndex<T>(s: seq<T>, index: int): (r: seq<T>)
    ensures 0 <= index < |s| ==> r == s[..index] + s[index + 1..]
    ensures !(0 <= index < |s|) ==> r == s
    decreases |s|
  {
    if s == [] then []
    else if index == 0 then s[1..]
    else
      var rest := WithoutIndex(s[1..], index - 1);
      assert 0 <= index - 1 < |s[1..]| ==> s[1..][..index - 1] == s[1..index] && s[1..][index..] == s[index + 1..];
      [s[0]] + rest
  }

  /** `productos.find(p => p.id === id)`: the first product with that id. */
  function FindProducto(productos: seq<ProductsApi.Producto>, id: int): (r: Option<ProductsApi.Producto>)
    ensures r.None? <==> forall i :: 0 <= i < |productos| ==> productos[i].id != id
    ensures r.Some? ==> exists i :: 0 <= i < |productos| && productos[i] == r.value && r.value.id == id &&
                                   forall j :: 0 <= j < i ==> productos[j].id != id
    decreases |productos|
  {
    if productos == [] then None
    else if productos[0].id == id then Some(productos[0])
    else
      var r := FindProducto(productos[1..], id);
      if r.Some? then
        var i :| 0 <= i < |productos[1..]| && productos[1..][i] == r.value && r.value.id == id &&
          forall j :: 0 <= j < i ==> productos[1..][j].id != id;
        assert productos[i + 1] == r.value;
        assert forall j :: 0 <= j < i + 1 ==> productos[j].id != id by {
          forall j | 0 <= j < i + 1 ensures productos[j].id != id {
            if j > 0 { assert productos[j] == productos[1..][j - 1]; }
          }
        }
        r
      else
        assert forall i :: 1 <= i < |productos| ==> productos[i] == productos[1..][i - 1];
        r
  }

  /** The cost sent for an item: its own if non-empty, else the product's
      purchase cost if the product is found and that is non-empty, else "0". */
  function CostoSnapshot(item: PedidoItemForm, productos: seq<ProductsApi.Producto>): (c: string)
    ensures c != ""
    ensures item.precio_costo_momento != "" ==> c == item.precio_costo_momento
    ensures item.precio_costo_momento == "" ==>
      var p := FindProducto(productos, item.producto);
      c == if p.Some? && p.value.costo_compra != "" then p.value.costo_compra else "0"
  {
    if item.precio_costo_momento != "" then item.precio_costo_momento
    else
      var p := FindProducto(productos, item.producto);
      if p.Some? && p.value.costo_compra != "" then p.value.costo_compra else "0"
  }

  /** itemsToSend: one create item per form row, in row order, keeping the
      product and the quantity. */
  function ItemsToSend(items: seq<PedidoItemForm>, productos: seq<ProductsApi.Producto>): (r: seq<PedidoItemCreate>)
    ensures |r| == |items|
    ensures forall i :: 0 <= i < |items| ==>
      r[i].producto == items[i].producto && r[i].cantidad == items[i].cantidad &&
      r[i].precio_costo_momento == CostoSnapshot(items[i], productos)
    ensures forall i :: 0 <= i < |items| ==> r[i].precio_costo_momento != ""
    decreases |items|
  {
    if items == [] then []
    else [PedidoItemCreate(items[0].producto, items[0].cantidad, CostoSnapshot(items[0], productos))] + ItemsToSend(items[1..], productos)
  }

  datatype CreateError = NoDestino | NoItems | ProductoSinSeleccionar

  function CreateErrorMessage(e: CreateError): string {
    match e
    case NoDestino => "Seleccioná un destino"
    case NoItems => "Agregá al menos un producto"
    case ProductoSinSeleccionar => "Todos los productos deben estar seleccionados"
  }

  /** `items.some(item => !item.producto)`. */
  predicate SomeUnselected(items: seq<PedidoItemForm>) {
    exists i :: 0 <= i < |items| && items[i].producto == 0
  }

  /** onCreate up to the post: the three refusals in the order the page
      checks them, or the create request it sends. */
  function OnCreate(destino: Option<int>, items: seq<PedidoItemForm>, productos: seq<ProductsApi.Producto>): (r: Result<Call<OrderBody>, CreateError>)
    ensures r == Err(NoDestino) <==> !IntTruthy(destino)
    ensures r == Err(NoItems) <==> IntTruthy(destino) && items == []
    ensures r == Err(ProductoSinSeleccionar) <==> IntTruthy(destino) && items != [] && SomeUnselected(items)
    ensures r.Ok? ==>
      IntTruthy(destino) && items != [] && (forall i :: 0 <= i < |items| ==> items[i].producto != 0) &&
      r.value == CreatePedido(PedidoCreateBody(destino.value, ItemsToSend(items, productos)))
  {
    if !IntTruthy(destino) then Err(NoDestino)
    else if items == [] then Err(NoItems)
    else if SomeUnselected(items) then Err(ProductoSinSeleccionar)
    else Ok(CreatePedido(PedidoCreateBody(destino.value, ItemsToSend(items, productos))))
  }

  /** A request that onCreate sends carries every row, with its product,
      quantity and a non-empty cost. */
  lemma OnCreateSendsEveryRow(destino: Option<int>, items: seq<PedidoItemForm>, productos: seq<ProductsApi.Producto>)
    requires OnCreate(destino, items, productos).Ok?
    ensures var c := OnCreate(destino, items, productos).value;
      c.verb == POST && c.path == PedidosPath && c.body.Some? && c.body.value.CreateBody? &&
      var body := c.body.value.create;
      body.destino == destino.value && |body.items| == |items| &&
      forall i :: 0 <= i < |items| ==>
        body.items[i].producto == items[i].producto && body.items[i].producto != 0 &&
        body.items[i].cantidad == items[i].cantidad && body.items[i].precio_costo_momento != ""
  {
  }

  // ---------------------------------------------------------------------------
  // pedidosPorEstado

  function EstadoOf(p: Pedido): PedidoEstado {
    p.estado
  }

  /** The five groups, in the page's order. */
  const EstadoOrder := [Borrador, Pendiente, Aprobado, Recibido, Rechazado]

  datatype PorEstado = PorEstado(borrador: seq<Pedido>, pendiente: seq<Pedido>, aprobado: seq<Pedido>, recibido: seq<Pedido>, rechazado: seq<Pedido>)

  function Group(g: PorEstado, e: PedidoEstado): seq<Pedido> {
    match e
    case Borrador => g.borrador
    case Pendiente => g.pendiente
    case Aprobado => g.aprobado
    case Recibido => g.recibido
    case Rechazado => g.rechazado
  }

  function PedidosPorEstado(pedidos: seq<Pedido>): PorEstado {
    PorEstado(
      Bucket(pedidos, EstadoOf, Borrador),
      Bucket(pedidos, EstadoOf, Pendiente),
      Bucket(pedidos, EstadoOf, Aprobado),
      Bucket(pedidos, EstadoOf, Recibido),
      Bucket(pedidos, EstadoOf, Rechazado))
  }

  /** Each group holds exactly the orders in its state, in their original
      order, so every order sits in the group of its own state and no other. */
  lemma PedidosPorEstadoGroups(pedidos: seq<Pedido>, e: PedidoEstado)
    ensures forall p :: p in Group(PedidosPorEstado(pedidos), e) <==> p in pedidos && p.estado == e
    ensures IsSubseq(Group(PedidosPorEstado(pedidos), e), pedidos)
  {
    BucketSpec(pedidos, EstadoOf, e);
  }

  /** Every state has a group, and no group is listed twice. */
  lemma EstadoOrderComplete(e: PedidoEstado)
    ensures e in EstadoOrder
    ensures NoDup(EstadoOrder)
  {
    match e {
      case Borrador => assert EstadoOrder[0] == e;
      case Pendiente => assert EstadoOrder[1] == e;
      case Aprobado => assert EstadoOrder[2] == e;
      case Recibido => assert EstadoOrder[3] == e;
      case Rechazado => assert EstadoOrder[4] == e;
    }
  }

  /** The groups laid end to end are the buckets of the five states. */
  lemma GroupsAreBuckets(pedidos: seq<Pedido>)
    ensures var g := PedidosPorEstado(pedidos);
      g.borrador + g.pendiente + g.aprobado + g.recibido + g.rechazado == ConcatBuckets(pedidos, EstadoOf, EstadoOrder)
  {
    var ks := EstadoOrder;
    assert ks[1..][1..][1..][1..][1..] == [];
    var g := PedidosPorEstado(pedidos);
    calc {
      ConcatBuckets(pedidos, EstadoOf, ks);
      g.borrador + ConcatBuckets(pedidos, EstadoOf, ks[1..]);
      g.borrador + (g.pendiente + ConcatBuckets(pedidos, EstadoOf, ks[1..][1..]));
      g.borrador + (g.pendiente + (g.aprobado + ConcatBuckets(pedidos, EstadoOf, ks[1..][1..][1..])));
      g.borrador + (g.pendiente + (g.aprobado + (g.recibido + ConcatBuckets(pedidos, EstadoOf, ks[1..][1..][1..][1..]))));
      g.borrador + (g.pendiente + (g.aprobado + (g.recibido + (g.rechazado + []))));
    }
  }

  /** The five groups, one after the other, are a permutation of the orders. */
  lemma PedidosPorEstadoPartition(pedidos: seq<Pedido>)
    ensures var g := PedidosPorEstado(pedidos);
      multiset(g.borrador + g.pendiente + g.aprobado + g.recibido + g.rechazado) == multiset(pedidos)
  {
    EstadoOrderComplete(Borrador);
    forall i | 0 <= i < |pedidos| ensures EstadoOf(pedidos[i]) in EstadoOrder {
      EstadoOrderComplete(pedidos[i].estado);
    }
    ConcatBucketsPermutation(pedidos, EstadoOf, EstadoOrder);
    GroupsAreBuckets(pedidos);
  }

  /** The send-to-review button is shown only for draft orders. */
  predicate OfreceEnviarARevision(p: Pedido) {
    p.estado == Borrador
  }

  /** Every order that offers the send-to-review action is in the draft
      group, and no order in another group offers it. */
  lemma EnviarARevisionOnlyDrafts(pedidos: seq<Pedido>)
    ensures var g := PedidosPorEstado(pedidos);
      && (forall p :: p in pedidos && OfreceEnviarARevision(p) ==> p in g.borrador)
      && (forall p :: p in g.pendiente + g.aprobado + g.recibido + g.rechazado ==> !OfreceEnviarARevision(p))
  {
    PedidosPorEstadoGroups(pedidos, Borrador);
    PedidosPorEstadoGroups(pedidos, Pendiente);
    PedidosPorEstadoGroups(pedidos, Aprobado);
    PedidosPorEstadoGroups(pedidos, Recibido);
    PedidosPorEstadoGroups(pedidos, Rechazado);
  }

  // ---------------------------------------------------------------------------
  // The create form

  class OrderForm {
    var showCreate: bool
    var destino: Option<int>
    var items: seq<PedidoItemForm>
    var err: Option<string>

    constructor ()
      ensures !showCreate && destino == None && items == [] && err == None
    {
      showCreate := false;
      destino := None;
      items := [];
      err := None;
    }

    /** The create button is disabled without a destination or without
        rows: exactly when onCreate would stop at one of its first two
        refusals, whatever the product list. */
    predicate CreateDisabled()
      reads this
      ensures CreateDisabled() ==> forall productos :: OnCreate(destino, items, productos).Err?
      ensures CreateDisabled() <==> forall productos ::
        OnCreate(destino, items, productos) == Err(NoDestino) || OnCreate(destino, items, productos) == Err(NoItems)
    {
      // the empty product list is a witness for the second ensures
      var refused := OnCreate(destino, items, []);
      !IntTruthy(destino) || items == []
    }

    /** addItem: one new row at the end. */
    method AddItem()
      modifies this`items
      ensures items == old(items) + [NewItem]
    {
      items := items + [NewItem];
    }

    /** removeItem: the row at index goes; the others keep their order. */
    method RemoveItem(index: int)
      modifies this`items
      ensures items == WithoutIndex(old(items), index)
      ensures 0 <= index < |old(items)| ==> |items| == |old(items)| - 1
    {
      items := WithoutIndex(items, index);
    }

    /** updateItem on a row of the list: only that row's named field changes. */
    method UpdateItem(index: int, f: ItemField)
      requires 0 <= index < |items|
      modifies this`items
      ensures items == old(items)[index := UpdateField(old(items)[index], f)]
    {
      items := items[index := UpdateField(items[index], f)];
    }

    /** The product select of a row: the row takes the product id and, when
        the product is found, its purchase cost; otherwise the row's cost
        is kept. */
    method SeleccionarProducto(index: int, prodId: int, productos: seq<ProductsApi.Producto>)
      requires 0 <= index < |items|
      modifies this`items
      ensures |items| == |old(items)|
      ensures forall j :: 0 <= j < |items| && j != index ==> items[j] == old(items)[j]
      ensures items[index].producto == prodId && items[index].cantidad == old(items)[index].cantidad
      ensures var p := FindProducto(productos, prodId);
        items[index].precio_costo_momento == if p.Some? then p.value.costo_compra else old(items)[index].precio_costo_momento
    {
      var prod := FindProducto(productos, prodId);
      var costo := if prod.Some? then prod.value.costo_compra else items[index].precio_costo_momento;
      items := items[index := items[index].(producto := prodId, precio_costo_momento := costo)];
    }

    /** onCreate: a refusal sets its message and sends nothing; after a
        successful create the data is reloaded (`reloaded` is that reload's
        outcome, whose error `loadData` keeps to itself), the form closes, the
        rows are cleared and the destination is reset to `resetDestino`; a
        failed create keeps the form and sets the error's message. */
    method Crear(productos: seq<ProductsApi.Producto>, created: Result<(), Option<string>>,
                 reloaded: Result<(), Option<string>>, resetDestino: Option<int>)
      returns (request: Option<Call<OrderBody>>)
      modifies this
      ensures var r := OnCreate(old(destino), old(items), productos);
        && (r.Err? ==>
              request == None && err == Some(CreateErrorMessage(r.error)) &&
              items == old(items) && destino == old(destino) && showCreate == old(showCreate))
        && (r.Ok? ==> request == Some(r.value))
        && (r.Ok? && created.Ok? ==>
              err == LoadDataError(reloaded) && items == [] && !showCreate && destino == resetDestino)
        && (r.Ok? && created.Err? ==>
              err == Some(created.error.GetOr("Error creando pedido")) &&
              items == old(items) && destino == old(destino) && showCreate == old(showCreate))
    {
      var r := OnCreate(destino, items, productos);
      if r.Err? {
        err := Some(CreateErrorMessage(r.error));
        return None;
      }
      err := None;
      request := Some(r.value);
      match created {
        case Ok(_) =>
          err := LoadDataError(reloaded);
          showCreate := false;
          items := [];
          destino := resetDestino;
        case Err(message) =>
          err := Some(message.GetOr("Error creando pedido"));
      }
    }
  }
}
