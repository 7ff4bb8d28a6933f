/** src/api/orders.ts: the purchase-order (pedido) records and the request
    each order endpoint function builds. */
module OrdersApi {
  import opened Wrappers
  import opened Decimal
  import opened ApiCall
  import QueryString

  /** `PedidoEstado`: an order is in exactly one of these five states. */
  datatype PedidoEstado = Borrador | Pendiente | Aprobado | Rechazado | Recibido

  /** The wire value of each state. */
  function EstadoText(e: PedidoEstado): string {
    match e
    case Borrador => "borrador"
    case Pendiente => "pendiente"
    case Aprobado => "aprobado"
    case Rechazado => "rechazado"
    case Recibido => "recibido"
  }

  /** Reads a wire value; anything but the five literals is not a state. */
  function ParseEstado(s: string): (r: Option<PedidoEstado>)
    ensures forall e :: r == Some(e) <==> s == EstadoText(e)
  {
    if s == "borrador" then Some(Borrador)
    else if s == "pendiente" then Some(Pendiente)
    else if s == "aprobado" then Some(Aprobado)
    else if s == "rechazado" then Some(Rechazado)
    else if s == "recibido" then Some(Recibido)
    else None
  }

  datatype PedidoItem = PedidoItem(
    id: int,
    producto: int,
    producto_nombre: string,
    cantidad: int,
    precio_costo_momento: string,
    sub_ubicacion_destino: Option<int>,
    sub_ubicacion_origen: Option<int>)

  datatype Pedido = Pedido(
    id: int,
    creado_por: int,
    destino: int,
    destino_nombre: string,
    estado: PedidoEstado,
    fecha_creacion: string,
    items: seq<PedidoItem>,
    provisto_desde_almacen: bool)

  /** The cost is `string | number` in the source; the client only ever puts strings in it. */
  datatype PedidoItemCreate = PedidoItemCreate(producto: int, cantidad: int, precio_costo_momento: string)

  datatype PedidoCreateBody = PedidoCreateBody(destino: int, items: seq<PedidoItemCreate>)

  datatype PedidoRecibirItem = PedidoRecibirItem(id: int, sub_ubicacion_destino: int)

  datatype PedidoRecibirBody = PedidoRecibirBody(items: seq<PedidoRecibirItem>)

  datatype PedidoAprobarItem = PedidoAprobarItem(id: int, sub_ubicacion_origen: int)

  datatype PedidoAprobarBody = PedidoAprobarBody(provisto_desde_almacen: bool, items: Option<seq<PedidoAprobarItem>>)

  /** The bodies the order endpoints send. */
  datatype OrderBody =
    | CreateBody(create: PedidoCreateBody)
    | ApproveBody(approve: PedidoAprobarBody)
    | ReceiveBody(receive: PedidoRecibirBody)

  const PedidosPath: string := "/api/inventory/pedidos/"

  function PedidoPath(id: int): string {
    IdPath(PedidosPath, id)
  }

  function ActionPath(id: int, action: string): string {
    PedidoPath(id) + action + "/"
  }

  function ListPedidos(): Call<OrderBody> {
    Call(GET, PedidosPath, None)
  }

  function CreatePedido(body: PedidoCreateBody): Call<OrderBody> {
    Call(POST, PedidosPath, Some(CreateBody(body)))
  }

  function EnviarARevision(id: int): Call<OrderBody> {
    Call(POST, ActionPath(id, "enviar_a_revision"), None)
  }

  /** `body || { provisto_desde_almacen: false }`. */
  function AprobarPedido(id: int, body: Option<PedidoAprobarBody>): Call<OrderBody> {
    Call(POST, ActionPath(id, "aprobar"), Some(ApproveBody(body.GetOr(PedidoAprobarBody(false, None)))))
  }

  function RechazarPedido(id: int): Call<OrderBody> {
    Call(POST, ActionPath(id, "rechazar"), None)
  }

  function RecibirPedido(id: int, body: PedidoRecibirBody): Call<OrderBody> {
    Call(POST, ActionPath(id, "recibir"), Some(ReceiveBody(body)))
  }

  function GetPedido(id: int): Call<OrderBody> {
    Call(GET, PedidoPath(id), None)
  }

  function UpdatePedido(id: int, body: PedidoCreateBody): Call<OrderBody> {
    Call(PUT, PedidoPath(id), Some(CreateBody(body)))
  }

  function DeletePedido(id: int): Call<OrderBody> {
    Call(DELETE, PedidoPath(id), None)
  }

  // ---------------------------------------------------------------------------
  // The reading of a request as the server's router sees it: an independent
  // definition against which the builders above are checked.

  datatype Endpoint =
    | List
    | Create(create: PedidoCreateBody)
    | Submit(id: int)
    | Approve(id: int, approve: PedidoAprobarBody)
    | Reject(id: int)
    | Receive(id: int, receive: PedidoRecibirBody)
    | Retrieve(id: int)
    | Update(id: int, update: PedidoCreateBody)
    | Destroy(id: int)

  function Route(c: Call<OrderBody>): Option<Endpoint> {
    if c.path == PedidosPath then
      if c.verb == GET && c.body.None? then Some(List)
      else if c.verb == POST && c.body.Some? && c.body.value.CreateBody? then Some(Create(c.body.value.create))
      else None
    else
      match ReadIdPath(PedidosPath, c.path)
      case None => None
      case Some((id, tail)) => RouteAt(id, tail, c.verb, c.body)
  }

  /** The routing of what follows /api/inventory/pedidos/{id}/. */
  function RouteAt(id: int, action: string, verb: Method, body: Option<OrderBody>): Option<Endpoint> {
    if action == "" then
      if verb == GET && body.None? then Some(Retrieve(id))
      else if verb == PUT && body.Some? && body.value.CreateBody? then Some(Update(id, body.value.create))
      else if verb == DELETE && body.None? then Some(Destroy(id))
      else None
    else if verb != POST then None
    else if action == "enviar_a_revision/" && body.None? then Some(Submit(id))
    else if action == "aprobar/" && body.Some? && body.value.ApproveBody? then Some(Approve(id, body.value.approve))
    else if action == "rechazar/" && body.None? then Some(Reject(id))
    else if action == "recibir/" && body.Some? && body.value.ReceiveBody? then Some(Receive(id, body.value.receive))
    else None
  }

  /** A path under an order is routed by what follows the id. */
  lemma RouteUnderId(id: int, tail: string, verb: Method, body: Option<OrderBody>)
    ensures Route(Call(verb, PedidoPath(id) + tail, body)) == RouteAt(id, tail, verb, body)
  {
    ReadIdPathOf(PedidosPath, id, tail);
    if PedidoPath(id) + tail == PedidosPath {
      ReadBasePath(PedidosPath);
    }
  }

  /** The collection endpoints: list is a GET and create a POST of its body,
      both on /api/inventory/pedidos/. */
  lemma RouteCollection(create: PedidoCreateBody)
    ensures Route(ListPedidos()) == Some(List)
    ensures Route(CreatePedido(create)) == Some(Create(create))
  {
  }

  /** Get, update and delete target /api/inventory/pedidos/{id}/ with GET, PUT
      and DELETE, and update passes its body through. */
  lemma RouteItem(id: int, update: PedidoCreateBody)
    ensures Route(GetPedido(id)) == Some(Retrieve(id))
    ensures Route(UpdatePedido(id, update)) == Some(Update(id, update))
    ensures Route(DeletePedido(id)) == Some(Destroy(id))
  {
    assert PedidoPath(id) == PedidoPath(id) + "";
    RouteUnderId(id, "", GET, None);
    RouteUnderId(id, "", PUT, Some(CreateBody(update)));
    RouteUnderId(id, "", DELETE, None);
  }

  /** The four actions are POSTs to /api/inventory/pedidos/{id}/{action}/;
      submit and reject carry no body, receive passes its body through, and
      approve sends its body or `{provisto_desde_almacen: false}`. */
  lemma RouteActions(id: int, approve: Option<PedidoAprobarBody>, receive: PedidoRecibirBody)
    ensures Route(EnviarARevision(id)) == Some(Submit(id))
    ensures Route(AprobarPedido(id, approve)) == Some(Approve(id, if approve.Some? then approve.value else PedidoAprobarBody(false, None)))
    ensures Route(RechazarPedido(id)) == Some(Reject(id))
    ensures Route(RecibirPedido(id, receive)) == Some(Receive(id, receive))
  {
    RouteSubmit(id);
    RouteApprove(id, approve);
    RouteReject(id);
    RouteReceive(id, receive);
  }

  lemma RouteSubmit(id: int)
    ensures Route(EnviarARevision(id)) == Some(Submit(id))
  {
    assert ActionPath(id, "enviar_a_revision") == PedidoPath(id) + "enviar_a_revision/";
    RouteUnderId(id, "enviar_a_revision/", POST, None);
  }

  lemma RouteApprove(id: int, approve: Option<PedidoAprobarBody>)
    ensures Route(AprobarPedido(id, approve)) == Some(Approve(id, if approve.Some? then approve.value else PedidoAprobarBody(false, None)))
  {
    assert ActionPath(id, "aprobar") == PedidoPath(id) + "aprobar/";
    RouteUnderId(id, "aprobar/", POST, AprobarPedido(id, approve).body);
  }

  lemma RouteReject(id: int)
    ensures Route(RechazarPedido(id)) == Some(Reject(id))
  {
    assert ActionPath(id, "rechazar") == PedidoPath(id) + "rechazar/";
    RouteUnderId(id, "rechazar/", POST, None);
  }

  lemma RouteReceive(id: int, receive: PedidoRecibirBody)
    ensures Route(RecibirPedido(id, receive)) == Some(Receive(id, receive))
  {
    assert ActionPath(id, "recibir") == PedidoPath(id) + "recibir/";
    RouteUnderId(id, "recibir/", POST, Some(ReceiveBody(receive)));
  }

  /** Requests for different orders or different endpoints never coincide. */
  lemma BuildersInjective(a: int, b: int)
    requires a != b
    ensures EnviarARevision(a) != EnviarARevision(b)
    ensures AprobarPedido(a, None) != AprobarPedido(b, None)
    ensures RechazarPedido(a) != RechazarPedido(b)
    ensures GetPedido(a) != GetPedido(b)
    ensures DeletePedido(a) != DeletePedido(b)
    ensures EnviarARevision(a) != RechazarPedido(b)
  {
    RouteActions(a, None, PedidoRecibirBody([]));
    RouteActions(b, None, PedidoRecibirBody([]));
    RouteItem(a, PedidoCreateBody(0, []));
    RouteItem(b, PedidoCreateBody(0, []));
  }
}
