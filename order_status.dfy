/** src/utils/orderStatus.ts: the badge shown for an order status text. */
module OrderStatus {
  import OrdersApi

  /** The variants the Badge component offers. */
  datatype Variant = Draft | Pending | Approved | Received | Cancelled | Success | Warning | Info | Default

  datatype Badge = Badge(labelText: string, variant: Variant)

  /** `orderStatusMap`: five capitalised keys, each labelled with itself. */
  const OrderStatusMap: map<string, Badge> := map[
    "Borrador" := Badge("Borrador", Draft),
    "Pendiente" := Badge("Pendiente", Pending),
    "Aprobado" := Badge("Aprobado", Approved),
    "Recibido" := Badge("Recibido", Received),
    "Cancelado" := Badge("Cancelado", Cancelled)
  ]

  /** `orderStatusMap[status] || { label: status, variant: 'default' }`: an
      exact-match lookup with a fallback. The label is the status text on both
      paths, and the variant is `default` exactly when the text is not one of
      the five keys. */
  function GetOrderStatusBadge(status: string): (b: Badge)
    ensures b.labelText == status
    ensures b.variant == Default <==> status !in OrderStatusMap
    ensures status in OrderStatusMap ==> b == OrderStatusMap[status]
  {
    if status in OrderStatusMap then OrderStatusMap[status] else Badge(status, Default)
  }

  /** Each key has its own variant. */
  lemma KeysHaveDistinctVariants(s: string, t: string)
    requires s in OrderStatusMap && t in OrderStatusMap && s != t
    ensures GetOrderStatusBadge(s).variant != GetOrderStatusBadge(t).variant
  {
  }

  /** The lookup is case-sensitive: the lowercase wire values of the order
      states, and "Rechazado", have no entry and get the default badge. */
  lemma WireStatesFallToDefault(e: OrdersApi.PedidoEstado)
    ensures GetOrderStatusBadge(OrdersApi.EstadoText(e)).variant == Default
    ensures GetOrderStatusBadge("Rechazado") == Badge("Rechazado", Default)
  {
  }
}
