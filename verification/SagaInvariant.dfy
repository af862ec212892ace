/** What `reservedQty` means, over every run: the quantity of the orders reserved and neither confirmed
    nor released, and whatever was reserved again for orders that held stock already. */
module SagaInvariant {
  import opened Wrappers
  import opened Inventory
  import opened Saga
  import opened SagaFigures
  import opened SagaOnce
  import opened Steps

  // ---------------------------------------------------------------- sums over orders

  function Sum(orders: seq<Order>, weigh: Order -> nat): nat {
    if orders == [] then 0 else Sum(orders[..|orders| - 1], weigh) + weigh(orders[|orders| - 1])
  }

  lemma {:induction false} SumUpdate(orders: seq<Order>, i: nat, order: Order, weigh: Order -> nat)
    requires i < |orders|
    ensures Sum(orders[i := order], weigh) == Sum(orders, weigh) - weigh(orders[i]) + weigh(order)
    decreases |orders|
  {
    var last := |orders| - 1;
    if i < last {
      assert orders[i := order][..last] == orders[..last][i := order];
      SumUpdate(orders[..last], i, order, weigh);
    } else {
      assert orders[i := order][..last] == orders[..last];
    }
  }

  lemma {:induction false} SumAppend(orders: seq<Order>, order: Order, weigh: Order -> nat)
    ensures Sum(orders + [order], weigh) == Sum(orders, weigh) + weigh(order)
  {
  }

  /** Quantity of a row that orders reserved and have neither confirmed nor released. */
  function HeldAt(key: Key): Order -> nat {
    (o: Order) => if o.held then DemandAt(o.tenant, o.items, key) else 0
  }

  /** Quantity of a row that RESERVED orders ask for. */
  function ReservedAt(key: Key): Order -> nat {
    (o: Order) => if o.status == RESERVED then DemandAt(o.tenant, o.items, key) else 0
  }

  /** Quantity of a row still held for orders that are no longer RESERVED. */
  function LeakedAt(key: Key): Order -> nat {
    (o: Order) => if o.held && o.status != RESERVED then DemandAt(o.tenant, o.items, key) else 0
  }

  // ---------------------------------------------------------------- steps

  /** What `reservedQty` of a row is above what orders hold of it. */
  function Drift(s: State, key: Key): int {
    LevelOf(s.stock, key).reserved - Sum(s.orders, HeldAt(key))
  }

  ghost predicate Drifts(s: State, t: State, key: Key, n: int) {
    Drift(t, key) == Drift(s, key) + n
  }

  /** A step about one order, which moves the row by `n` more than the order's share of it. */
  lemma {:induction false} OrderDrifts(s: State, t: State, id: nat, key: Key, n: int)
    requires id < |s.orders| && |t.orders| == |s.orders| && t.orders == s.orders[id := t.orders[id]]
    requires LevelOf(t.stock, key).reserved
          == LevelOf(s.stock, key).reserved - HeldAt(key)(s.orders[id]) + HeldAt(key)(t.orders[id]) + n
    ensures Drifts(s, t, key, n)
  {
    SumUpdate(s.orders, id, t.orders[id], HeldAt(key));
  }

  lemma {:induction false} AppendDrifts(s: State, order: Order, events: seq<Event>, key: Key)
    requires !order.held
    ensures Drifts(s, s.(orders := s.orders + [order], outbox := s.outbox + events), key, 0)
  {
    SumAppend(s.orders, order, HeldAt(key));
  }

  lemma {:induction false} ConfirmDrifts(s: State, tenant: Tenant, id: nat, key: Key)
    requires OrdersOk(s)
    ensures Drifts(s, ConfirmEffect(s, tenant, id).state, key, 0)
  {
    var t := ConfirmEffect(s, tenant, id).state;
    if t != s {
      assert OrderOk(s.orders[id]);
      ShiftLevels(s.stock, tenant, s.orders[id].items, Commit);
      OrderDrifts(s, t, id, key, 0);
    }
  }

  lemma {:induction false} AdvanceDrifts(s: State, tenant: Tenant, id: nat, from: Status -> bool, to: Status,
          topic: Topic, key: Key)
    ensures Drifts(s, Advance(s, tenant, id, from, to, topic).state, key, 0)
  {
    var t := Advance(s, tenant, id, from, to, topic).state;
    if t != s {
      OrderDrifts(s, t, id, key, 0);
    }
  }

  lemma {:induction false} AdjustDrifts(s: State, tenant: Tenant, idemKey: string, sku: Sku, kind: Kind, qty: nat,
          reason: string, key: Key)
    ensures Drifts(s, Saga.AdjustEffect(s, tenant, idemKey, sku, kind, qty, reason).state, key, 0)
  {
    Inventory.AdjustEffect(s.stock, tenant, sku, kind, qty, reason, idemKey);
  }

  lemma {:induction false} StoreDrifts(s: State, idemKey: IdemKey, effect: Outcome, key: Key)
    requires Drifts(s, effect.state, key, 0)
    ensures Drifts(s, Idempotent(s, idemKey, effect).state, key, 0)
    ensures Drifts(s, Keyed(s, idemKey, effect).state, key, 0)
  {
  }

  lemma {:induction false} CallDrifts(s: State, a: Action, key: Key)
    requires OrdersOk(s) && IsCall(a)
    ensures Drifts(s, Call(s, a).state, key, 0)
  {
    match a
    case Create(t, _, customer, items) =>
      AppendDrifts(s, Order(t, customer, items, CREATED, None, false), [Event(OrderCreated, t, |s.orders|, None)], key);
      StoreDrifts(s, KeyOf(a), CreateEffect(s, t, customer, items), key);
    case Confirm(t, _, id) =>
      ConfirmDrifts(s, t, id, key);
      StoreDrifts(s, KeyOf(a), ConfirmEffect(s, t, id), key);
    case Cancel(t, _, id) =>
      AdvanceDrifts(s, t, id, Cancellable, CANCELLED, OrderCancelled, key);
      StoreDrifts(s, KeyOf(a), CancelEffect(s, t, id), key);
    case Ship(t, _, id) =>
      AdvanceDrifts(s, t, id, IsPaid, SHIPPED, OrderShipped, key);
      StoreDrifts(s, KeyOf(a), ShipEffect(s, t, id), key);
    case Deliver(t, _, id) =>
      AdvanceDrifts(s, t, id, IsShipped, DELIVERED, OrderDelivered, key);
      StoreDrifts(s, KeyOf(a), DeliverEffect(s, t, id), key);
    case AdjustStock(t, k, sku, kind, qty, reason) =>
      AdjustDrifts(s, t, k, sku, kind, qty, reason, key);
      StoreDrifts(s, KeyOf(a), Saga.AdjustEffect(s, t, k, sku, kind, qty, reason), key);
  }

  /** Reserving moves the row by the order's demand, which its record takes up unless it held stock
      already; refusing moves nothing. */
  lemma {:induction false} CreatedDrifts(s: State, tenant: Tenant, id: nat, key: Key)
    ensures Drifts(s, HandleCreated(s, tenant, id), key,
                   if Find(s, tenant, id).Some? && Covered(s.stock, tenant, s.orders[id].items) && s.orders[id].held
                   then DemandAt(tenant, s.orders[id].items, key) else 0)
  {
    if Find(s, tenant, id).Some? {
      var o, t := s.orders[id], HandleCreated(s, tenant, id);
      if Covered(s.stock, tenant, o.items) {
        ShiftLevels(s.stock, tenant, o.items, Reserve);
        OrderDrifts(s, t, id, key, if o.held then DemandAt(tenant, o.items, key) else 0);
      } else {
        OrderDrifts(s, t, id, key, 0);
      }
    }
  }

  /** Handling order.cancelled, from any status, releases what the order holds, or changes nothing. */
  lemma {:induction false} CancelledDrifts(s: State, tenant: Tenant, id: nat, key: Key)
    requires OrdersOk(s)
    ensures Drifts(s, HandleCancelled(s, tenant, id), key, 0)
  {
    var t := HandleCancelled(s, tenant, id);
    if t != s {
      assert OrderOk(s.orders[id]);
      if s.orders[id].status == RESERVED {
        ShiftLevels(s.stock, tenant, s.orders[id].items, Release);
      }
      OrderDrifts(s, t, id, key, 0);
    }
  }

  lemma {:induction false} SettledDrifts(s: State, tenant: Tenant, id: nat, key: Key)
    ensures Drifts(s, HandleSettled(s, tenant, id), key, 0)
  {
    var t := HandleSettled(s, tenant, id);
    if t != s {
      OrderDrifts(s, t, id, key, 0);
    }
  }

  /** What a step reserves of the row for an order that holds stock already. */
  function Extra(s: State, a: Action, key: Key): nat {
    if a.Receive? && Fires(s, a, OrderCreated, a.event.orderId) && s.orders[a.event.orderId].held
    then DemandAt(s.orders[a.event.orderId].tenant, s.orders[a.event.orderId].items, key) else 0
  }

  lemma {:induction false} ReceiveDrifts(s: State, a: Action, key: Key)
    requires OrdersOk(s) && a.Receive?
    ensures Drifts(s, Step(s, a), key, Extra(s, a, key))
  {
    var e := a.event;
    var marked := s.(processed := s.processed + {(e.topic, e.orderId)});
    match e.topic
    case OrderCreated => CreatedDrifts(marked, e.tenant, e.orderId, key);
    case OrderCancelled => CancelledDrifts(marked, e.tenant, e.orderId, key);
    case _ =>
  }

  lemma {:induction false} StepDrifts(s: State, a: Action, key: Key)
    requires OrdersOk(s)
    ensures Drifts(s, Step(s, a), key, Extra(s, a, key))
  {
    if IsCall(a) {
      CallDrifts(s, a, key);
    } else {
      match a
      case ImportOrder(t, customer, items) =>
        AppendDrifts(s, Order(t, customer, items, CREATED, Some(Amount(items)), false), [], key);
        assert s.outbox + [] == s.outbox;
      case Receive(e, dies) => ReceiveDrifts(s, a, key);
      case Settle(t, id, dies) => SettledDrifts(s.(processed := s.processed + {(PaymentSettled, id)}), t, id, key);
      case _ =>
    }
  }

  // ---------------------------------------------------------------- runs

  function ExtraAt(run: seq<Action>, k: nat, key: Key): nat
    requires k < |run|
  {
    Extra(Exec(EMPTY, run[..k]), run[k], key)
  }

  /** What the first `n` steps reserved of the row for orders that held stock already. */
  function Again(run: seq<Action>, n: nat, key: Key): nat
    requires n <= |run|
  {
    if n == 0 then 0 else Again(run, n - 1, key) + ExtraAt(run, n - 1, key)
  }

  lemma {:induction false} DriftNext(run: seq<Action>, k: nat, key: Key)
    requires k < |run|
    ensures DriftAt(run, k + 1, key) == DriftAt(run, k, key) + ExtraAt(run, k, key)
  {
    ExecNext(run, k);
    OrdersOkInEveryRun(run[..k]);
    StepDrifts(Exec(EMPTY, run[..k]), run[k], key);
  }

  function DriftAt(run: seq<Action>, n: nat, key: Key): int
    requires n <= |run|
  {
    Drift(Exec(EMPTY, run[..n]), key)
  }

  lemma {:induction false} DriftAtStart(run: seq<Action>, key: Key)
    ensures DriftAt(run, 0, key) == 0
  {
    assert run[..0] == [];
  }

  lemma {:induction false} DriftIsAgain(run: seq<Action>, n: nat, key: Key)
    requires n <= |run|
    ensures DriftAt(run, n, key) == Again(run, n, key)
    decreases n
  {
    if n == 0 {
      DriftAtStart(run, key);
    } else {
      DriftIsAgain(run, n - 1, key);
      DriftNext(run, n - 1, key);
    }
  }

  /** In every run, for every row: `reservedQty` is the quantity of the orders reserved and neither
      confirmed nor released, plus what was reserved again for orders that held stock already. So it
      is never negative. */
  lemma {:induction false} ReservedQtyInEveryRun(run: seq<Action>, key: Key)
    ensures var s := Exec(EMPTY, run);
            LevelOf(s.stock, key).reserved == Sum(s.orders, HeldAt(key)) + Again(run, |run|, key)
    ensures LevelOf(Exec(EMPTY, run).stock, key).reserved >= 0
  {
    assert run[..|run|] == run;
    DriftIsAgain(run, |run|, key);
  }

  /** Something was reserved again exactly when some step reserved it. */
  lemma {:induction false} AgainIff(run: seq<Action>, n: nat, key: Key)
    requires n <= |run|
    ensures Again(run, n, key) > 0 <==> exists k :: 0 <= k < n && ExtraAt(run, k, key) > 0
    decreases n
  {
    if n > 0 {
      AgainIff(run, n - 1, key);
      var last := ExtraAt(run, n - 1, key);
      assert Again(run, n, key) == Again(run, n - 1, key) + last;
      if last == 0 && Again(run, n - 1, key) > 0 {
        var k :| 0 <= k < n - 1 && ExtraAt(run, k, key) > 0;
      }
    }
  }

  /** `reservedQty` of every row is what orders hold of it. */
  ghost predicate StockOk(s: State) {
    forall key :: Drift(s, key) == 0
  }

  ghost predicate StockOkAt(run: seq<Action>, n: nat) {
    n <= |run| && StockOk(Exec(EMPTY, run[..n]))
  }

  /** The k-th step reserves something for an order that holds stock already. */
  ghost predicate ReservesHeldAt(run: seq<Action>, k: nat) {
    k < |run| && exists key :: ExtraAt(run, k, key) > 0
  }

  ghost predicate NoneAgain(run: seq<Action>, n: nat) {
    n <= |run| && forall key :: Again(run, n, key) == 0
  }

  lemma {:induction false} StockOkWithoutAgain(run: seq<Action>, n: nat)
    requires NoneAgain(run, n)
    ensures StockOkAt(run, n)
  {
    var s := Exec(EMPTY, run[..n]);
    forall key
      ensures Drift(s, key) == 0
    {
      DriftIsAgain(run, n, key);
      assert Again(run, n, key) == 0;
    }
    assert StockOk(s);
  }

  lemma {:induction false} AgainSpoils(run: seq<Action>, n: nat, key: Key)
    requires n <= |run| && Again(run, n, key) > 0
    ensures !StockOkAt(run, n)
  {
    DriftIsAgain(run, n, key);
    assert Drift(Exec(EMPTY, run[..n]), key) != 0;
  }

  lemma {:induction false} NothingAgain(run: seq<Action>, n: nat)
    requires n <= |run| && forall k :: 0 <= k < n ==> !ReservesHeldAt(run, k)
    ensures NoneAgain(run, n)
  {
    forall key
      ensures Again(run, n, key) == 0
    {
      AgainIff(run, n, key);
      if Again(run, n, key) > 0 {
        var k :| 0 <= k < n && ExtraAt(run, k, key) > 0;
        assert ReservesHeldAt(run, k);
      }
    }
  }

  /** `reservedQty` of every row is the quantity of the orders reserved and neither confirmed nor
      released, in every state of the run, exactly when no step of it reserves something for an order
      that holds stock already. */
  lemma {:induction false} ReservedQtyIsHeldIff(run: seq<Action>)
    ensures (forall n :: 0 <= n <= |run| ==> StockOkAt(run, n)) <==>
            (forall k :: 0 <= k < |run| ==> !ReservesHeldAt(run, k))
  {
    if forall k :: 0 <= k < |run| ==> !ReservesHeldAt(run, k) {
      forall n | 0 <= n <= |run|
        ensures StockOkAt(run, n)
      {
        NothingAgain(run, n);
        StockOkWithoutAgain(run, n);
      }
    } else {
      var k :| 0 <= k < |run| && ReservesHeldAt(run, k);
      var key :| ExtraAt(run, k, key) > 0;
      AgainSpoils(run, k + 1, key);
    }
  }

  // ---------------------------------------------------------------- while order.created keys live

  /** An order that holds stock was reserved, so its order.created key is set while it lives. */
  ghost predicate HeldSeen(s: State) {
    forall id :: 0 <= id < |s.orders| && s.orders[id].held ==> (OrderCreated, id) in s.processed
  }

  lemma {:induction false} CallHeldSeen(s: State, a: Action)
    requires HeldSeen(s) && IsCall(a)
    ensures HeldSeen(Call(s, a).state)
  {
  }

  lemma {:induction false} ConsumeHeldSeen(s: State, e: Event, dies: bool)
    requires HeldSeen(s)
    ensures HeldSeen(Consume(s, e, dies))
  {
  }

  lemma {:induction false} StepHeldSeen(s: State, a: Action)
    requires HeldSeen(s) && !(a.ForgetProcessed? && a.topic == OrderCreated)
    ensures HeldSeen(Step(s, a))
  {
    if IsCall(a) {
      CallHeldSeen(s, a);
    } else if a.Receive? {
      ConsumeHeldSeen(s, a.event, a.dies);
    }
  }

  lemma {:induction false} HeldSeenInRun(run: seq<Action>)
    requires DedupLives(run)
    ensures HeldSeen(Exec(EMPTY, run))
    decreases |run|
  {
    if run != [] {
      HeldSeenInRun(run[..|run| - 1]);
      StepHeldSeen(Exec(EMPTY, run[..|run| - 1]), run[|run| - 1]);
    }
  }

  lemma {:induction false} NothingAgainWhileKeysLive(run: seq<Action>)
    requires DedupLives(run)
    ensures NoneAgain(run, |run|)
  {
    forall k | 0 <= k < |run|
      ensures !ReservesHeldAt(run, k)
    {
      HeldSeenInRun(run[..k]);
    }
    NothingAgain(run, |run|);
  }

  /** While order.created keys live, `reservedQty` of every row is what orders hold of it, and every
      order that holds stock has its key set. */
  lemma {:induction false} ReservedIsHeld(run: seq<Action>)
    requires DedupLives(run)
    ensures StockOk(Exec(EMPTY, run)) && HeldSeen(Exec(EMPTY, run))
  {
    assert run[..|run|] == run;
    NothingAgainWhileKeysLive(run);
    StockOkWithoutAgain(run, |run|);
    HeldSeenInRun(run);
  }
}
