/** The receive page: look an order up by id, preset each item's
    destination sub-location, let the user choose the others, and build and
    validate the receipt before posting it. */
module ReceivePage {
  import opened Wrappers
  import opened ApiCall
  import opened OrdersApi

  /** `Number(pedidoId)` of the typed id: NaN or an integer. */
  datatype NumberValue = NaN | Num(n: int)

  predicate NumberTruthy(v: NumberValue) {
    v.Num? && v.n != 0
  }

  const InvalidIdMessage := "Ingresá un ID de pedido válido."
  const LookupFailedMessage := "Error buscando pedido."
  const ConfirmFailedMessage := "Error confirmando recepción."
  const ReceivedMessage := "Pedido recibido OK."

  datatype ReceiveError = NoPedido | NoItems | MissingDestinos

  function ErrorMessage(e: ReceiveError): string {
    match e
    case NoPedido => "Primero buscá un pedido."
    case NoItems => "El pedido no tiene items."
    case MissingDestinos => "Asigná sub-ubicación destino a todos los productos."
  }

  // ---------------------------------------------------------------------------
  // The preset destinations

  /** The preset map after the first n items: the loop's running value.
      A later item with the same id overwrites an earlier one. */
  function PresetOf(items: seq<PedidoItem>): map<int, int>
    decreases |items|
  {
    if items == [] then map[]
    else
      var m := PresetOf(items[..|items| - 1]);
      var it := items[|items| - 1];
      if it.sub_ubicacion_destino.Some? then m[it.id := it.sub_ubicacion_destino.value] else m
  }

  /** The for-of loop of buscarPedido that fills `preset`. */
  method BuildPreset(items: seq<PedidoItem>) returns (preset: map<int, int>)
    ensures preset == PresetOf(items)
  {
    preset := map[];
    var i := 0;
    while i < |items|
      invariant 0 <= i <= |items|
      invariant preset == PresetOf(items[..i])
    {
      var it := items[i];
      assert items[..i + 1][..i] == items[..i];
      if it.sub_ubicacion_destino.Some? {
        preset := preset[it.id := it.sub_ubicacion_destino.value];
      }
      i := i + 1;
    }
    assert items[..|items|] == items;
  }

  /** Item i has a destination and no later item with its id has one. */
  ghost predicate LastPreset(items: seq<PedidoItem>, i: int) {
    0 <= i < |items| && items[i].sub_ubicacion_destino.Some? &&
    forall j :: i < j < |items| && items[j].id == items[i].id ==> items[j].sub_ubicacion_destino.None?
  }

  /** The preset holds exactly the ids of items that come with a destination. */
  lemma {:induction false} PresetKeys(items: seq<PedidoItem>)
    ensures forall k :: k in PresetOf(items) <==> exists i :: 0 <= i < |items| && items[i].id == k && items[i].sub_ubicacion_destino.Some?
    decreases |items|
  {
    if items != [] {
      var n := |items| - 1;
      var init := items[..n];
      PresetKeys(init);
      forall k ensures k in PresetOf(items) <==> exists i :: 0 <= i < |items| && items[i].id == k && items[i].sub_ubicacion_destino.Some? {
        if exists i :: 0 <= i < |items| && items[i].id == k && items[i].sub_ubicacion_destino.Some? {
          var i :| 0 <= i < |items| && items[i].id == k && items[i].sub_ubicacion_destino.Some?;
          if i < n {
            assert init[i] == items[i];
          }
        }
        if k in PresetOf(init) {
          var i :| 0 <= i < |init| && init[i].id == k && init[i].sub_ubicacion_destino.Some?;
          assert items[i] == init[i];
        }
      }
    }
  }

  /** Each preset id maps to the destination of the last item with that id
      that comes with one. */
  lemma {:induction false} PresetValues(items: seq<PedidoItem>)
    ensures forall i :: LastPreset(items, i) ==> items[i].id in PresetOf(items) && PresetOf(items)[items[i].id] == items[i].sub_ubicacion_destino.value
    decreases |items|
  {
    if items != [] {
      var n := |items| - 1;
      var init := items[..n];
      PresetValues(init);
      forall i | LastPreset(items, i)
        ensures items[i].id in PresetOf(items) && PresetOf(items)[items[i].id] == items[i].sub_ubicacion_destino.value
      {
        if i < n {
          assert init[i] == items[i];
          assert LastPreset(init, i);
        }
      }
    }
  }

  /** The preset holds exactly the ids of items that come with a destination,
      each mapped to the destination of the last such item. */
  lemma PresetOfSpec(items: seq<PedidoItem>)
    ensures forall k :: k in PresetOf(items) <==> exists i :: 0 <= i < |items| && items[i].id == k && items[i].sub_ubicacion_destino.Some?
    ensures forall i :: LastPreset(items, i) ==> PresetOf(items)[items[i].id] == items[i].sub_ubicacion_destino.value
  {
    PresetKeys(items);
    PresetValues(items);
  }

  /** With distinct item ids every item that comes with a destination is
      preset to it. */
  lemma PresetDistinctIds(items: seq<PedidoItem>)
    requires forall i, j :: 0 <= i < j < |items| ==> items[i].id != items[j].id
    ensures forall i :: 0 <= i < |items| && items[i].sub_ubicacion_destino.Some? ==>
      items[i].id in PresetOf(items) && PresetOf(items)[items[i].id] == items[i].sub_ubicacion_destino.value
  {
    PresetOfSpec(items);
    forall i | 0 <= i < |items| && items[i].sub_ubicacion_destino.Some?
      ensures items[i].id in PresetOf(items) && PresetOf(items)[items[i].id] == items[i].sub_ubicacion_destino.value
    {
      assert LastPreset(items, i);
    }
  }

  // ---------------------------------------------------------------------------
  // The receipt body and its validation

  /** `destinos[it.id] ?? it.sub_ubicacion_destino ?? 0`. */
  function ResolvedDestino(destinos: map<int, int>, it: PedidoItem): int {
    if it.id in destinos then destinos[it.id]
    else if it.sub_ubicacion_destino.Some? then it.sub_ubicacion_destino.value
    else 0
  }

  /** The body of confirmarRecepcion: one entry per item, in item order,
      with the item's id and its resolved destination. */
  function ReceiveBodyOf(items: seq<PedidoItem>, destinos: map<int, int>): (b: PedidoRecibirBody)
    ensures |b.items| == |items|
    ensures forall i :: 0 <= i < |items| ==> b.items[i].id == items[i].id
    ensures forall i :: 0 <= i < |items| ==>
      b.items[i].sub_ubicacion_destino ==
        if items[i].id in destinos then destinos[items[i].id]
        else items[i].sub_ubicacion_destino.GetOr(0)
    decreases |items|
  {
    if items == [] then PedidoRecibirBody([])
    else PedidoRecibirBody([PedidoRecibirItem(items[0].id, ResolvedDestino(destinos, items[0]))] + ReceiveBodyOf(items[1..], destinos).items)
  }

  /** The check before posting: every entry has a positive destination. */
  predicate BodyComplete(b: PedidoRecibirBody) {
    forall i :: 0 <= i < |b.items| ==> b.items[i].sub_ubicacion_destino > 0
  }

  /** confirmarRecepcion up to the post: the refusals in the order the page
      checks them, or the request it sends. */
  function Confirmar(pedido: Option<Pedido>, destinos: map<int, int>): (r: Result<Call<OrderBody>, ReceiveError>)
    ensures r == Err(NoPedido) <==> pedido.None?
    ensures r == Err(NoItems) <==> pedido.Some? && pedido.value.items == []
    ensures r == Err(MissingDestinos) <==>
      pedido.Some? && pedido.value.items != [] &&
      exists i :: 0 <= i < |pedido.value.items| && ResolvedDestino(destinos, pedido.value.items[i]) <= 0
    ensures r.Ok? ==>
      pedido.Some? && r.value == RecibirPedido(pedido.value.id, ReceiveBodyOf(pedido.value.items, destinos)) &&
      BodyComplete(ReceiveBodyOf(pedido.value.items, destinos))
  {
    if pedido.None? then Err(NoPedido)
    else if pedido.value.items == [] then Err(NoItems)
    else
      var body := ReceiveBodyOf(pedido.value.items, destinos);
      if !BodyComplete(body) then
        assert exists i :: 0 <= i < |pedido.value.items| && ResolvedDestino(destinos, pedido.value.items[i]) <= 0 by {
          var i :| 0 <= i < |body.items| && body.items[i].sub_ubicacion_destino <= 0;
          assert ResolvedDestino(destinos, pedido.value.items[i]) <= 0;
        }
        Err(MissingDestinos)
      else Ok(RecibirPedido(pedido.value.id, body))
  }

  // ---------------------------------------------------------------------------
  // faltanDestinos

  /** `!destinos[it.id]`: no choice, or the choice 0. */
  predicate Unchosen(destinos: map<int, int>, id: int) {
    id !in destinos || destinos[id] == 0
  }

  /** faltanDestinos as written: some item has no truthy choice and no
      preset destination. */
  predicate FaltanDestinosAsWritten(items: seq<PedidoItem>, destinos: map<int, int>) {
    items != [] && exists i :: 0 <= i < |items| && Unchosen(destinos, items[i].id) && items[i].sub_ubicacion_destino.None?
  }

  /** faltanDestinos as evidently intended: some item would be sent without
      a positive destination. */
  predicate FaltanDestinos(items: seq<PedidoItem>, destinos: map<int, int>) {
    items != [] && exists i :: 0 <= i < |items| && ResolvedDestino(destinos, items[i]) <= 0
  }

  /** The corrected check disables the button exactly when confirming would
      be refused for a missing destination. */
  lemma FaltanDestinosMatchesValidation(p: Pedido, destinos: map<int, int>)
    ensures FaltanDestinos(p.items, destinos) <==> Confirmar(Some(p), destinos) == Err(MissingDestinos)
  {
  }

  /** The check as written never flags an item that has a destination: when
      it says one is missing, confirming is refused. */
  lemma AsWrittenIsSound(items: seq<PedidoItem>, destinos: map<int, int>)
    requires FaltanDestinosAsWritten(items, destinos)
    ensures FaltanDestinos(items, destinos)
  {
    var i :| 0 <= i < |items| && Unchosen(destinos, items[i].id) && items[i].sub_ubicacion_destino.None?;
    assert ResolvedDestino(destinos, items[i]) <= 0;
  }

  /** But it misses a preset item whose choice was reset to the empty
      option: the button stays enabled, and confirming is refused. */
  lemma AsWrittenMissesClearedChoice()
    ensures var it := PedidoItem(7, 3, "Leche", 2, "0", Some(2), None);
      var p := Pedido(12, 1, 4, "Sucursal Centro", Pendiente, "", [it], false);
      var destinos := map[7 := 0];
      && !FaltanDestinosAsWritten(p.items, destinos)
      && FaltanDestinos(p.items, destinos)
      && Confirmar(Some(p), destinos) == Err(MissingDestinos)
  {
    var it := PedidoItem(7, 3, "Leche", 2, "0", Some(2), None);
    var p := Pedido(12, 1, 4, "Sucursal Centro", Pendiente, "", [it], false);
    var destinos := map[7 := 0];
    assert ResolvedDestino(destinos, p.items[0]) == 0;
  }

  // ---------------------------------------------------------------------------
  // The page

  /** How the post and the reload after it went: the post failed (with the
      error's message, if any), it succeeded and the reload failed, or both
      succeeded with the reloaded order. */
  datatype SendOutcome = PostFailed(message: Option<string>) | ReloadFailed(message: Option<string>) | Reloaded(p: Pedido)

  class ReceiveView {
    var pedido: Option<Pedido>
    var destinos: map<int, int>
    var err: Option<string>
    var ok: Option<string>

    constructor ()
      ensures pedido == None && destinos == map[] && err == None && ok == None
    {
      pedido := None;
      destinos := map[];
      err := None;
      ok := None;
    }

    /** `pedido?.items ?? []`. */
    function Items(): seq<PedidoItem>
      reads this
    {
      if pedido.Some? then pedido.value.items else []
    }

    /** The confirm button as the page renders it: disabled on the
        as-written check. When it is disabled, confirming would indeed be
        refused for a missing destination. */
    predicate ConfirmDisabled()
      reads this
      ensures ConfirmDisabled() ==> Confirmar(pedido, destinos) == Err(MissingDestinos)
    {
      var d := FaltanDestinosAsWritten(Items(), destinos);
      if d then
        AsWrittenIsSound(Items(), destinos);
        FaltanDestinosMatchesValidation(pedido.value, destinos);
        d
      else d
    }

    /** The confirm button with the corrected check: disabled exactly when
        confirming would be refused for a missing destination. */
    predicate ConfirmDisabledIntended()
      reads this
      ensures ConfirmDisabledIntended() <==> Confirmar(pedido, destinos) == Err(MissingDestinos)
    {
      if pedido.Some? then
        FaltanDestinosMatchesValidation(pedido.value, destinos);
        FaltanDestinos(Items(), destinos)
      else FaltanDestinos(Items(), destinos)
    }

    /** buscarPedido: a falsy id is rejected before any request; otherwise
        the order is fetched and the preset destinations replace the old
        choices, or on failure both are cleared. */
    method BuscarPedido(input: NumberValue, outcome: Result<Pedido, Option<string>>) returns (request: Option<Call<OrderBody>>)
      modifies this
      ensures ok == None
      ensures !NumberTruthy(input) ==>
        request == None && err == Some(InvalidIdMessage) && pedido == old(pedido) && destinos == old(destinos)
      ensures NumberTruthy(input) ==> request == Some(GetPedido(input.n))
      ensures NumberTruthy(input) && outcome.Ok? ==>
        pedido == Some(outcome.value) && destinos == PresetOf(outcome.value.items) && err == None
      ensures NumberTruthy(input) && outcome.Err? ==>
        pedido == None && destinos == map[] && err == Some(outcome.error.GetOr(LookupFailedMessage))
    {
      err := None;
      ok := None;
      if !NumberTruthy(input) {
        err := Some(InvalidIdMessage);
        return None;
      }
      request := Some(GetPedido(input.n));
      match outcome {
        case Ok(p) =>
          pedido := Some(p);
          var preset := BuildPreset(p.items);
          destinos := preset;
        case Err(message) =>
          pedido := None;
          destinos := map[];
          err := Some(message.GetOr(LookupFailedMessage));
      }
    }

    /** The destination select of one item: only that item's entry changes. */
    method ElegirDestino(itemId: int, value: int)
      modifies this`destinos
      ensures destinos == old(destinos)[itemId := value]
      ensures forall k :: k != itemId ==> (k in destinos <==> k in old(destinos))
      ensures forall k :: k != itemId && k in destinos ==> destinos[k] == old(destinos)[k]
    {
      destinos := destinos[itemId := value];
    }

    /** confirmarRecepcion: a refusal sets its message and sends nothing;
        otherwise the receipt is posted, and after a successful post the
        order is reloaded. */
    method ConfirmarRecepcion(outcome: SendOutcome) returns (requests: seq<Call<OrderBody>>)
      modifies this`err, this`ok, this`pedido
      ensures var r := Confirmar(old(pedido), old(destinos));
        && (r.Err? ==> requests == [] && err == Some(ErrorMessage(r.error)) && ok == None && pedido == old(pedido))
        && (r.Ok? && outcome.PostFailed? ==>
              requests == [r.value] && err == Some(outcome.message.GetOr(ConfirmFailedMessage)) && ok == None && pedido == old(pedido))
        && (r.Ok? && outcome.ReloadFailed? ==>
              requests == [r.value, GetPedido(old(pedido).value.id)] && ok == Some(ReceivedMessage) &&
              err == Some(outcome.message.GetOr(ConfirmFailedMessage)) && pedido == old(pedido))
        && (r.Ok? && outcome.Reloaded? ==>
              requests == [r.value, GetPedido(old(pedido).value.id)] && ok == Some(ReceivedMessage) &&
              err == None && pedido == Some(outcome.p))
    {
      err := None;
      ok := None;
      var r := Confirmar(pedido, destinos);
      if r.Err? {
        err := Some(ErrorMessage(r.error));
        return [];
      }
      requests := [r.value];
      if outcome.PostFailed? {
        err := Some(outcome.message.GetOr(ConfirmFailedMessage));
        return;
      }
      ok := Some(ReceivedMessage);
      requests := requests + [GetPedido(pedido.value.id)];
      match outcome {
        case ReloadFailed(message) =>
          err := Some(message.GetOr(ConfirmFailedMessage));
        case Reloaded(p) =>
          pedido := Some(p);
      }
    }
  }
}
