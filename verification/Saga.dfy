/** The order saga as a transition system: API calls, message handlers behind their deduplication
    key, stock adjustments and expiring keys. Each call or handler is one atomic step; orders are
    named by their index. */
module Saga {
  import opened Wrappers
  import opened Inventory

  datatype Status = CREATED | RESERVED | CONFIRMED | PAID | SHIPPED | DELIVERED | CANCELLED

  /** `held` is a history variable: the order's quantities are part of `reservedQty`. */
  datatype Order = Order(tenant: Tenant, customer: string, items: seq<Item>, status: Status, total: Option<nat>,
          held: bool)

  datatype Topic = OrderCreated | OrderCancelled | StockReserved | OrderConfirmed | ChargeRequested
                 | OrderShipped | OrderDelivered | PaymentSettled

  datatype Invoice = Invoice(customer: string, items: seq<Item>, total: nat)

  /** An outbox row, as it is published. */
  datatype Event = Event(topic: Topic, tenant: Tenant, orderId: nat, body: Option<Invoice>)

  datatype Operation = CreateOp | ConfirmOp | CancelOp | ShipOp | DeliverOp | AdjustOp

  /** The parts of an `idem:` key; calls that name no order have none. */
  datatype IdemKey = IdemKey(tenant: Tenant, operation: Operation, orderId: Option<nat>, key: string)

  datatype Reply =
    | Created(id: nat, customer: string, items: seq<Item>)
    | StatusOf(id: nat, status: Status)
    | Logged(entry: Adjustment)
    | Rejected(error: Error)
    | Quiet

  datatype State = State(
    orders: seq<Order>,
    stock: Stock,
    log: seq<Adjustment>,
    outbox: seq<Event>,
    processed: set<(Topic, nat)>,
    idem: map<IdemKey, Reply>)

  const EMPTY := State([], map[], [], [], {}, map[])

  datatype Outcome = Outcome(state: State, reply: Reply)

  function Find(s: State, tenant: Tenant, id: nat): (r: Option<Order>)
    ensures r.Some? <==> id < |s.orders| && s.orders[id].tenant == tenant
    ensures r.Some? ==> r.value == s.orders[id]
  {
    if id < |s.orders| && s.orders[id].tenant == tenant then Some(s.orders[id]) else None
  }

  /** One transaction: order, stock and outbox change together. */
  function Write(s: State, id: nat, order: Order, stock: Stock, events: seq<Event>): State
    requires id < |s.orders|
  {
    s.(orders := s.orders[id := order], stock := stock, outbox := s.outbox + events)
  }

  // ---------------------------------------------------------------- the API

  /** A call under an idempotency key: the stored reply if there is one, and otherwise the effect,
      whose reply is stored when the call succeeds. An empty key stores nothing. */
  function Idempotent(s: State, key: IdemKey, effect: Outcome): Outcome {
    if key.key != "" && key in s.idem then Outcome(s, s.idem[key])
    else if key.key == "" || effect.reply.Rejected? then effect
    else Outcome(effect.state.(idem := effect.state.idem[key := effect.reply]), effect.reply)
  }

  /** Calls that insist on a key. */
  function Keyed(s: State, key: IdemKey, effect: Outcome): Outcome {
    if key.key == "" then Outcome(s, Rejected(BadRequest)) else Idempotent(s, key, effect)
  }

  function CreateEffect(s: State, tenant: Tenant, customer: string, items: seq<Item>): Outcome {
    if items == [] then Outcome(s, Rejected(BadRequest))
    else
      var id := |s.orders|;
      Outcome(s.(orders := s.orders + [Order(tenant, customer, items, CREATED, None, false)],
                 outbox := s.outbox + [Event(OrderCreated, tenant, id, None)]),
              Created(id, customer, items))
  }

  function ConfirmEffect(s: State, tenant: Tenant, id: nat): Outcome {
    var found := Find(s, tenant, id);
    if found.None? then Outcome(s, Rejected(NotFound))
    else if found.value.status != RESERVED then Outcome(s, Rejected(Conflict))
    else if !HasRows(s.stock, tenant, found.value.items) then Outcome(s, Rejected(Internal))
    else
      var order := found.value;
      var total := Amount(order.items);
      Outcome(Write(s, id, order.(status := CONFIRMED, total := Some(total), held := false),
                    Shift(s.stock, tenant, order.items, Commit),
                    [Event(OrderConfirmed, tenant, id, Some(Invoice(order.customer, order.items, total)))]),
              StatusOf(id, CONFIRMED))
  }

  predicate Cancellable(status: Status) {
    status == CREATED || status == RESERVED || status == CONFIRMED
  }

  predicate IsPaid(status: Status) {
    status == PAID
  }

  predicate IsShipped(status: Status) {
    status == SHIPPED
  }

  function CancelEffect(s: State, tenant: Tenant, id: nat): Outcome {
    Advance(s, tenant, id, Cancellable, CANCELLED, OrderCancelled)
  }

  function ShipEffect(s: State, tenant: Tenant, id: nat): Outcome {
    Advance(s, tenant, id, IsPaid, SHIPPED, OrderShipped)
  }

  function DeliverEffect(s: State, tenant: Tenant, id: nat): Outcome {
    Advance(s, tenant, id, IsShipped, DELIVERED, OrderDelivered)
  }

  /** A call that only moves the status and announces it. */
  function Advance(s: State, tenant: Tenant, id: nat, from: Status -> bool, to: Status, topic: Topic): Outcome {
    var found := Find(s, tenant, id);
    if found.None? then Outcome(s, Rejected(NotFound))
    else if !from(found.value.status) then Outcome(s, Rejected(Conflict))
    else Outcome(Write(s, id, found.value.(status := to), s.stock, [Event(topic, tenant, id, None)]), StatusOf(id, to))
  }

  function AdjustEffect(s: State, tenant: Tenant, key: string, sku: Sku, kind: Kind, qty: nat,
          reason: string): Outcome {
    match Adjust(s.stock, tenant, sku, kind, qty, reason, key)
    case Refused(error) => Outcome(s, Rejected(error))
    case Done(stock, entry) => Outcome(s.(stock := stock, log := s.log + [entry]), Logged(entry))
  }

  // ---------------------------------------------------------------- the handlers

  function HandleCreated(s: State, tenant: Tenant, id: nat): State {
    var found := Find(s, tenant, id);
    if found.None? then s
    else
      var order := found.value;
      if Covered(s.stock, tenant, order.items)
      then Write(s, id, order.(status := RESERVED, held := true), Shift(s.stock, tenant, order.items, Reserve),
                 [Event(StockReserved, tenant, id, None)])
      else Write(s, id, order.(status := CANCELLED), s.stock, [Event(OrderCancelled, tenant, id, None)])
  }

  function HandleCancelled(s: State, tenant: Tenant, id: nat): State {
    var found := Find(s, tenant, id);
    if found.None? then s
    else
      var order := found.value;
      if order.status == RESERVED then
        if HasRows(s.stock, tenant, order.items)
        then Write(s, id, order.(status := CANCELLED, held := false), Shift(s.stock, tenant, order.items, Release), [])
        else s
      else Write(s, id, order.(status := CANCELLED), s.stock, [])
  }

  /** The charge takes its figures from the message and falls back on the order. */
  function Charge(order: Order, body: Option<Invoice>): Invoice {
    Invoice(if body.Some? && body.value.customer != "" then body.value.customer else order.customer,
            if body.Some? then body.value.items else order.items,
            if body.Some? && body.value.total != 0 then body.value.total else Amount(order.items))
  }

  function HandleConfirmed(s: State, tenant: Tenant, id: nat, body: Option<Invoice>): State {
    var found := Find(s, tenant, id);
    if found.None? || found.value.status != CONFIRMED then s
    else s.(outbox := s.outbox + [Event(ChargeRequested, tenant, id, Some(Charge(found.value, body)))])
  }

  function Handle(s: State, e: Event): State {
    match e.topic
    case OrderCreated => HandleCreated(s, e.tenant, e.orderId)
    case OrderCancelled => HandleCancelled(s, e.tenant, e.orderId)
    case OrderConfirmed => HandleConfirmed(s, e.tenant, e.orderId, e.body)
    case _ => s
  }

  function HandleSettled(s: State, tenant: Tenant, id: nat): State {
    var found := Find(s, tenant, id);
    if found.None? || found.value.status != CONFIRMED then s
    else Write(s, id, found.value.(status := PAID), s.stock, [])
  }

  /** The consumer: the deduplication key is set first, and stays set when the handler dies. */
  function Consume(s: State, e: Event, dies: bool): State {
    var key := (e.topic, e.orderId);
    if key in s.processed then s
    else
      var marked := s.(processed := s.processed + {key});
      if dies then marked else Handle(marked, e)
  }

  function ConsumeSettled(s: State, tenant: Tenant, id: nat, dies: bool): State {
    var key := (PaymentSettled, id);
    if key in s.processed then s
    else
      var marked := s.(processed := s.processed + {key});
      if dies then marked else HandleSettled(marked, tenant, id)
  }

  // ---------------------------------------------------------------- the transition system

  datatype Action =
    | Create(tenant: Tenant, key: string, customer: string, items: seq<Item>)
    | Confirm(tenant: Tenant, key: string, id: nat)
    | Cancel(tenant: Tenant, key: string, id: nat)
    | Ship(tenant: Tenant, key: string, id: nat)
    | Deliver(tenant: Tenant, key: string, id: nat)
    | AdjustStock(tenant: Tenant, key: string, sku: Sku, kind: Kind, qty: nat, reason: string)
    | ImportOrder(tenant: Tenant, customer: string, items: seq<Item>)
    | Receive(event: Event, dies: bool)                  // any outbox row, any number of times
    | Settle(tenant: Tenant, id: nat, dies: bool)        // from the payments ledger, at will
    | ForgetProcessed(topic: Topic, id: nat)             // a deduplication key expires
    | ForgetReply(idemKey: IdemKey)                      // an idempotency key expires

  /** The idempotency key a call runs under. */
  function KeyOf(a: Action): IdemKey {
    match a
    case Create(t, k, _, _) => IdemKey(t, CreateOp, None, k)
    case Confirm(t, k, id) => IdemKey(t, ConfirmOp, Some(id), k)
    case Cancel(t, k, id) => IdemKey(t, CancelOp, Some(id), k)
    case Ship(t, k, id) => IdemKey(t, ShipOp, Some(id), k)
    case Deliver(t, k, id) => IdemKey(t, DeliverOp, Some(id), k)
    case AdjustStock(t, k, _, _, _, _) => IdemKey(t, AdjustOp, None, k)
    case _ => IdemKey("", AdjustOp, None, "")
  }

  predicate IsCall(a: Action) {
    a.Create? || a.Confirm? || a.Cancel? || a.Ship? || a.Deliver? || a.AdjustStock?
  }

  function Call(s: State, a: Action): Outcome
    requires IsCall(a)
  {
    match a
    case Create(t, _, customer, items) => Keyed(s, KeyOf(a), CreateEffect(s, t, customer, items))
    case Confirm(t, _, id) => Keyed(s, KeyOf(a), ConfirmEffect(s, t, id))
    case Cancel(t, _, id) => Idempotent(s, KeyOf(a), CancelEffect(s, t, id))
    case Ship(t, _, id) => Keyed(s, KeyOf(a), ShipEffect(s, t, id))
    case Deliver(t, _, id) => Keyed(s, KeyOf(a), DeliverEffect(s, t, id))
    case AdjustStock(t, k, sku, kind, qty, reason) =>
      Idempotent(s, KeyOf(a), AdjustEffect(s, t, k, sku, kind, qty, reason))
  }

  function Step(s: State, a: Action): State {
    match a
    case ImportOrder(t, customer, items) =>
      s.(orders := s.orders + [Order(t, customer, items, CREATED, Some(Amount(items)), false)])
    case Receive(e, dies) =>
      if e in s.outbox && e.topic != ChargeRequested then Consume(s, e, dies) else s
    case Settle(t, id, dies) => ConsumeSettled(s, t, id, dies)
    case ForgetProcessed(topic, id) => s.(processed := s.processed - {(topic, id)})
    case ForgetReply(k) => s.(idem := s.idem - {k})
    case _ => Call(s, a).state
  }

  function Exec(s: State, run: seq<Action>): State {
    if run == [] then s else Step(Exec(s, run[..|run| - 1]), run[|run| - 1])
  }

  lemma {:induction false} ExecSnoc(s: State, run: seq<Action>, a: Action)
    ensures Exec(s, run + [a]) == Step(Exec(s, run), a)
  {
    assert (run + [a])[..|run|] == run;
  }

  lemma {:induction false} ExecConcat(s: State, run: seq<Action>, more: seq<Action>)
    ensures Exec(s, run + more) == Exec(Exec(s, run), more)
    decreases |more|
  {
    if more == [] {
      assert run + more == run;
    } else {
      var init, last := more[..|more| - 1], more[|more| - 1];
      assert more == init + [last] && run + more == run + init + [last];
      ExecConcat(s, run, init);
      ExecSnoc(s, run + init, last);
      ExecSnoc(Exec(s, run), init, last);
    }
  }

  lemma {:induction false} ExecThrough(run: seq<Action>, start: nat, end: nat)
    requires start <= end <= |run|
    ensures Exec(EMPTY, run[..end]) == Exec(Exec(EMPTY, run[..start]), run[start..end])
  {
    assert run[..end] == run[..start] + run[start..end];
    ExecConcat(EMPTY, run[..start], run[start..end]);
  }

  /** No order.created key expires in the run. */
  predicate DedupLives(run: seq<Action>) {
    forall i :: 0 <= i < |run| ==> !(run[i].ForgetProcessed? && run[i].topic == OrderCreated)
  }
}
