/** Conservation of stock, availability and tenant isolation, over every run whatever expires. */
module SagaStock {
  import opened Wrappers
  import opened Inventory
  import opened Saga
  import opened SagaFigures
  import opened SagaOnce

  // ---------------------------------------------------------------- conservation

  function Adjustments(log: seq<Adjustment>, key: Key): int {
    if log == [] then 0
    else
      var last := log[|log| - 1];
      Adjustments(log[..|log| - 1], key) + if Key(last.tenant, last.sku) == key then last.delta else 0
  }

  /** Quantity of a row that an outbox row takes out for good: each committed confirmation wrote one
      order.confirmed row with the order's items. */
  function Taken(e: Event, key: Key): nat {
    if e.topic == OrderConfirmed && e.body.Some? then DemandAt(e.tenant, e.body.value.items, key) else 0
  }

  function Committed(outbox: seq<Event>, key: Key): nat {
    if outbox == [] then 0 else Committed(outbox[..|outbox| - 1], key) + Taken(outbox[|outbox| - 1], key)
  }

  /** Available plus reserved is what adjustments put in less what confirmations took out. */
  predicate Conserved(stock: Stock, log: seq<Adjustment>, outbox: seq<Event>, key: Key) {
    Pieces(stock, key) == Adjustments(log, key) - Committed(outbox, key)
  }

  predicate Balanced(s: State, key: Key) {
    Conserved(s.stock, s.log, s.outbox, key)
  }

  /** One transaction: a new outbox row, and a stock that changed by what the row takes out. */
  lemma {:induction false} EventBalanced(stock: Stock, after: Stock, log: seq<Adjustment>, outbox: seq<Event>,
          e: Event, key: Key)
    requires Conserved(stock, log, outbox, key)
    requires Pieces(after, key) == Pieces(stock, key) - Taken(e, key)
    ensures Conserved(after, log, outbox + [e], key)
  {
  }

  lemma {:induction false} ConfirmBalanced(s: State, tenant: Tenant, id: nat, key: Key)
    requires Balanced(s, key)
    ensures Balanced(ConfirmEffect(s, tenant, id).state, key)
  {
    var t := ConfirmEffect(s, tenant, id).state;
    if t != s {
      var o := s.orders[id];
      ShiftLevels(s.stock, tenant, o.items, Commit);
      EventBalanced(s.stock, t.stock, s.log, s.outbox,
                    Event(OrderConfirmed, tenant, id, Some(Invoice(o.customer, o.items, Amount(o.items)))), key);
    }
  }

  lemma {:induction false} AdvanceBalanced(s: State, tenant: Tenant, id: nat, from: Status -> bool, to: Status,
          topic: Topic, key: Key)
    requires Balanced(s, key) && topic != OrderConfirmed
    ensures Balanced(Advance(s, tenant, id, from, to, topic).state, key)
  {
  }

  lemma {:induction false} AdjustBalanced(s: State, tenant: Tenant, idemKey: string, sku: Sku, kind: Kind,
          qty: nat, reason: string, key: Key)
    requires Balanced(s, key)
    ensures Balanced(Saga.AdjustEffect(s, tenant, idemKey, sku, kind, qty, reason).state, key)
  {
  }

  lemma {:induction false} StoreBalanced(s: State, idemKey: IdemKey, effect: Outcome, key: Key)
    requires Balanced(s, key) && Balanced(effect.state, key)
    ensures Balanced(Idempotent(s, idemKey, effect).state, key) && Balanced(Keyed(s, idemKey, effect).state, key)
  {
  }

  lemma {:induction false} CallBalanced(s: State, a: Action, key: Key)
    requires Balanced(s, key) && IsCall(a)
    ensures Balanced(Call(s, a).state, key)
  {
    match a
    case Create(t, _, customer, items) =>
      EventBalanced(s.stock, s.stock, s.log, s.outbox, Event(OrderCreated, t, |s.orders|, None), key);
      StoreBalanced(s, KeyOf(a), CreateEffect(s, t, customer, items), key);
    case Confirm(t, _, id) =>
      ConfirmBalanced(s, t, id, key);
      StoreBalanced(s, KeyOf(a), ConfirmEffect(s, t, id), key);
    case Cancel(t, _, id) =>
      AdvanceBalanced(s, t, id, Cancellable, CANCELLED, OrderCancelled, key);
      StoreBalanced(s, KeyOf(a), CancelEffect(s, t, id), key);
    case Ship(t, _, id) =>
      AdvanceBalanced(s, t, id, IsPaid, SHIPPED, OrderShipped, key);
      StoreBalanced(s, KeyOf(a), ShipEffect(s, t, id), key);
    case Deliver(t, _, id) =>
      AdvanceBalanced(s, t, id, IsShipped, DELIVERED, OrderDelivered, key);
      StoreBalanced(s, KeyOf(a), DeliverEffect(s, t, id), key);
    case AdjustStock(t, k, sku, kind, qty, reason) =>
      AdjustBalanced(s, t, k, sku, kind, qty, reason, key);
      StoreBalanced(s, KeyOf(a), Saga.AdjustEffect(s, t, k, sku, kind, qty, reason), key);
  }

  lemma {:induction false} CreatedBalanced(s: State, tenant: Tenant, id: nat, key: Key)
    requires Balanced(s, key)
    ensures Balanced(HandleCreated(s, tenant, id), key)
  {
  }

  lemma {:induction false} CancelledBalanced(s: State, tenant: Tenant, id: nat, key: Key)
    requires Balanced(s, key)
    ensures Balanced(HandleCancelled(s, tenant, id), key)
  {
    assert s.outbox + [] == s.outbox;
    if Find(s, tenant, id).Some? && HasRows(s.stock, tenant, s.orders[id].items) {
      ShiftLevels(s.stock, tenant, s.orders[id].items, Release);
    }
  }

  lemma {:induction false} ConfirmedBalanced(s: State, tenant: Tenant, id: nat, body: Option<Invoice>, key: Key)
    requires Balanced(s, key)
    ensures Balanced(HandleConfirmed(s, tenant, id, body), key)
  {
  }

  lemma {:induction false} ConsumeBalanced(s: State, e: Event, dies: bool, key: Key)
    requires Balanced(s, key)
    ensures Balanced(Consume(s, e, dies), key)
  {
    var marked := s.(processed := s.processed + {(e.topic, e.orderId)});
    match e.topic
    case OrderCreated => CreatedBalanced(marked, e.tenant, e.orderId, key);
    case OrderCancelled => CancelledBalanced(marked, e.tenant, e.orderId, key);
    case OrderConfirmed => ConfirmedBalanced(marked, e.tenant, e.orderId, e.body, key);
    case _ =>
  }

  lemma {:induction false} StepBalanced(s: State, a: Action, key: Key)
    requires Balanced(s, key)
    ensures Balanced(Step(s, a), key)
  {
    if IsCall(a) {
      CallBalanced(s, a, key);
    } else if a.Receive? {
      ConsumeBalanced(s, a.event, a.dies, key);
    } else {
      assert s.outbox + [] == s.outbox;
    }
  }

  /** Conservation in every run, for every row: reserving and releasing move nothing in or out. */
  lemma {:induction false} StockIsConserved(run: seq<Action>, key: Key)
    ensures Balanced(Exec(EMPTY, run), key)
    decreases |run|
  {
    if run != [] {
      StockIsConserved(run[..|run| - 1], key);
      StepBalanced(Exec(EMPTY, run[..|run| - 1]), run[|run| - 1], key);
    }
  }

  // ---------------------------------------------------------------- availability

  lemma {:induction false} AdjustNonNegative(s: State, tenant: Tenant, idemKey: string, sku: Sku, kind: Kind,
          qty: nat, reason: string)
    requires NonNegative(s.stock)
    ensures NonNegative(Saga.AdjustEffect(s, tenant, idemKey, sku, kind, qty, reason).state.stock)
  {
  }

  lemma {:induction false} CallNonNegative(s: State, a: Action)
    requires NonNegative(s.stock) && IsCall(a)
    ensures NonNegative(Call(s, a).state.stock)
  {
    match a
    case AdjustStock(t, k, sku, kind, qty, reason) => AdjustNonNegative(s, t, k, sku, kind, qty, reason);
    case _ =>
  }

  /** Handling order.created keeps `availableQty` non-negative exactly when the order fails the test
      item by item or every row covers its summed demand. */
  lemma {:induction false} CreatedNonNegativeIff(s: State, tenant: Tenant, id: nat)
    requires NonNegative(s.stock) && Find(s, tenant, id).Some?
    ensures NonNegative(HandleCreated(s, tenant, id).stock) <==>
            !Covered(s.stock, tenant, s.orders[id].items) || CoveredInSum(s.stock, tenant, s.orders[id].items)
  {
    var items, after := s.orders[id].items, HandleCreated(s, tenant, id).stock;
    if Covered(s.stock, tenant, items) && NonNegative(after) {
      forall key | key in s.stock
        ensures DemandAt(tenant, items, key) <= s.stock[key].available
      {
        assert after[key].available >= 0;
      }
    }
  }

  /** The step reserves an order whose summed demand some row does not cover. */
  predicate Oversells(s: State, a: Action) {
    && a.Receive? && Fires(s, a, OrderCreated, a.event.orderId)
    && !CoveredInSum(s.stock, a.event.tenant, s.orders[a.event.orderId].items)
  }

  lemma {:induction false} CreatedOversells(s: State, a: Action)
    requires NonNegative(s.stock) && a.Receive? && a.event.topic == OrderCreated
    ensures NonNegative(Step(s, a).stock) <==> !Oversells(s, a)
  {
    var e := a.event;
    if Find(s, e.tenant, e.orderId).Some? {
      CreatedNonNegativeIff(s.(processed := s.processed + {(OrderCreated, e.orderId)}), e.tenant, e.orderId);
    }
  }

  lemma {:induction false} ConsumeNonNegative(s: State, e: Event, dies: bool)
    requires NonNegative(s.stock) && e.topic != OrderCreated
    ensures NonNegative(Consume(s, e, dies).stock)
  {
  }

  lemma {:induction false} StepNonNegativeIff(s: State, a: Action)
    requires NonNegative(s.stock)
    ensures NonNegative(Step(s, a).stock) <==> !Oversells(s, a)
  {
    if IsCall(a) {
      CallNonNegative(s, a);
    } else if a.Receive? {
      if a.event.topic == OrderCreated {
        CreatedOversells(s, a);
      } else {
        ConsumeNonNegative(s, a.event, a.dies);
      }
    }
  }

  predicate NonNegativeAt(run: seq<Action>, n: nat) {
    n <= |run| && NonNegative(Exec(EMPTY, run[..n]).stock)
  }

  predicate OversellsAt(run: seq<Action>, k: nat) {
    k < |run| && Oversells(Exec(EMPTY, run[..k]), run[k])
  }

  lemma {:induction false} NextNonNegative(run: seq<Action>, k: nat)
    requires k < |run| && NonNegativeAt(run, k)
    ensures NonNegativeAt(run, k + 1) <==> !OversellsAt(run, k)
  {
    ExecNext(run, k);
    StepNonNegativeIff(Exec(EMPTY, run[..k]), run[k]);
  }

  lemma {:induction false} NonNegativeUpTo(run: seq<Action>, n: nat)
    requires n <= |run| && forall k :: 0 <= k < n ==> !OversellsAt(run, k)
    ensures NonNegativeAt(run, n)
    decreases n
  {
    if n == 0 {
      assert run[..0] == [];
    } else {
      NonNegativeUpTo(run, n - 1);
      NextNonNegative(run, n - 1);
    }
  }

  /** `availableQty` stays non-negative throughout a run exactly when no step of it reserves an order
      whose summed demand some row does not cover. */
  lemma {:induction false} OversoldIff(run: seq<Action>)
    ensures (forall n :: 0 <= n <= |run| ==> NonNegativeAt(run, n)) <==>
            (forall k :: 0 <= k < |run| ==> !OversellsAt(run, k))
  {
    if forall k :: 0 <= k < |run| ==> !OversellsAt(run, k) {
      forall n | 0 <= n <= |run|
        ensures NonNegativeAt(run, n)
      {
        NonNegativeUpTo(run, n);
      }
    }
    if forall n :: 0 <= n <= |run| ==> NonNegativeAt(run, n) {
      forall k | 0 <= k < |run|
        ensures !OversellsAt(run, k)
      {
        assert NonNegativeAt(run, k) && NonNegativeAt(run, k + 1);
        NextNonNegative(run, k);
      }
    }
  }

  predicate OrdersDistinct(run: seq<Action>) {
    forall i :: 0 <= i < |run| && (run[i].Create? || run[i].ImportOrder?) ==> DistinctSkus(run[i].items)
  }

  predicate AllDistinct(orders: seq<Order>) {
    forall id :: 0 <= id < |orders| ==> DistinctSkus(orders[id].items)
  }

  lemma {:induction false} CallDistinct(s: State, a: Action)
    requires AllDistinct(s.orders) && IsCall(a) && (a.Create? ==> DistinctSkus(a.items))
    ensures AllDistinct(Call(s, a).state.orders)
  {
  }

  lemma {:induction false} ConsumeDistinct(s: State, e: Event, dies: bool)
    requires AllDistinct(s.orders)
    ensures AllDistinct(Consume(s, e, dies).orders)
  {
  }

  lemma {:induction false} StepDistinct(s: State, a: Action)
    requires AllDistinct(s.orders) && (a.Create? || a.ImportOrder? ==> DistinctSkus(a.items))
    ensures AllDistinct(Step(s, a).orders)
  {
    if IsCall(a) {
      CallDistinct(s, a);
    } else if a.Receive? {
      ConsumeDistinct(s, a.event, a.dies);
    }
  }

  /** In every run whose orders list each SKU at most once, no row's `availableQty` goes negative. */
  lemma {:induction false} NeverOversold(run: seq<Action>)
    requires OrdersDistinct(run)
    ensures NonNegative(Exec(EMPTY, run).stock) && AllDistinct(Exec(EMPTY, run).orders)
    decreases |run|
  {
    if run != [] {
      var s, a := Exec(EMPTY, run[..|run| - 1]), run[|run| - 1];
      NeverOversold(run[..|run| - 1]);
      StepDistinct(s, a);
      StepNonNegativeIff(s, a);
      if Oversells(s, a) {
        CoveredSuffices(s.stock, a.event.tenant, s.orders[a.event.orderId].items);
      }
    }
  }

  /** Handling order.created: every item is reserved, and only then, or the stock is as it was and
      the order is cancelled. */
  lemma {:induction false} CreatedIsAllOrNothing(s: State, tenant: Tenant, id: nat)
    requires Find(s, tenant, id).Some?
    ensures var t, items := HandleCreated(s, tenant, id), s.orders[id].items;
            if (forall i :: 0 <= i < |items| ==>
                  Key(tenant, items[i].sku) in s.stock && items[i].qty <= s.stock[Key(tenant, items[i].sku)].available)
            then t.orders[id].status == RESERVED
                 && forall key :: var l, d := LevelOf(s.stock, key), DemandAt(tenant, items, key);
                                  LevelOf(t.stock, key) == Level(l.available - d, l.reserved + d)
            else t.orders[id].status == CANCELLED && t.stock == s.stock
  {
    if Covered(s.stock, tenant, s.orders[id].items) {
      ShiftLevels(s.stock, tenant, s.orders[id].items, Reserve);
    }
  }

  // ---------------------------------------------------------------- tenants

  function TenantOf(a: Action): Option<Tenant> {
    match a
    case Receive(e, _) => Some(e.tenant)
    case ForgetProcessed(_, _) => None
    case ForgetReply(k) => Some(k.tenant)
    case _ => Some(a.tenant)
  }

  /** A tenant's stock rows, orders and stored replies are the same; new orders, outbox rows and log
      entries belong to others. */
  ghost predicate Untouched(s: State, t: State, other: Tenant) {
    && (forall key: Key :: key.tenant == other ==>
          (key in t.stock <==> key in s.stock) && LevelOf(t.stock, key) == LevelOf(s.stock, key))
    && (forall id :: 0 <= id < |s.orders| && s.orders[id].tenant == other ==>
          id < |t.orders| && t.orders[id] == s.orders[id])
    && (forall id :: |s.orders| <= id < |t.orders| ==> t.orders[id].tenant != other)
    && (forall key: IdemKey :: key.tenant == other ==>
          (key in t.idem <==> key in s.idem) && (key in s.idem ==> t.idem[key] == s.idem[key]))
    && |s.outbox| <= |t.outbox| && t.outbox[..|s.outbox|] == s.outbox
    && (forall i :: |s.outbox| <= i < |t.outbox| ==> t.outbox[i].tenant != other)
    && |s.log| <= |t.log| && t.log[..|s.log|] == s.log
    && (forall i :: |s.log| <= i < |t.log| ==> t.log[i].tenant != other)
  }

  lemma {:induction false} AdvanceIsolated(s: State, tenant: Tenant, id: nat, from: Status -> bool, to: Status,
          topic: Topic, other: Tenant)
    requires tenant != other
    ensures Untouched(s, Advance(s, tenant, id, from, to, topic).state, other)
  {
  }

  lemma {:induction false} ConfirmIsolated(s: State, tenant: Tenant, id: nat, other: Tenant)
    requires tenant != other
    ensures Untouched(s, ConfirmEffect(s, tenant, id).state, other)
  {
  }

  lemma {:induction false} StoreIsolated(s: State, idemKey: IdemKey, effect: Outcome, other: Tenant)
    requires Untouched(s, effect.state, other) && idemKey.tenant != other
    ensures Untouched(s, Idempotent(s, idemKey, effect).state, other)
    ensures Untouched(s, Keyed(s, idemKey, effect).state, other)
  {
  }

  lemma {:induction false} CreateIsolated(s: State, tenant: Tenant, customer: string, items: seq<Item>, other: Tenant)
    requires tenant != other
    ensures Untouched(s, CreateEffect(s, tenant, customer, items).state, other)
  {
  }

  lemma {:induction false} AdjustIsolated(s: State, tenant: Tenant, key: string, sku: Sku, kind: Kind, qty: nat,
          reason: string, other: Tenant)
    requires tenant != other
    ensures Untouched(s, Saga.AdjustEffect(s, tenant, key, sku, kind, qty, reason).state, other)
  {
  }

  lemma {:induction false} CallIsolated(s: State, a: Action, other: Tenant)
    requires IsCall(a) && a.tenant != other
    ensures Untouched(s, Call(s, a).state, other)
  {
    match a
    case Create(t, _, customer, items) =>
      CreateIsolated(s, t, customer, items, other);
      StoreIsolated(s, KeyOf(a), CreateEffect(s, t, customer, items), other);
    case Confirm(t, _, id) =>
      ConfirmIsolated(s, t, id, other);
      StoreIsolated(s, KeyOf(a), ConfirmEffect(s, t, id), other);
    case Cancel(t, _, id) =>
      AdvanceIsolated(s, t, id, Cancellable, CANCELLED, OrderCancelled, other);
      StoreIsolated(s, KeyOf(a), CancelEffect(s, t, id), other);
    case Ship(t, _, id) =>
      AdvanceIsolated(s, t, id, IsPaid, SHIPPED, OrderShipped, other);
      StoreIsolated(s, KeyOf(a), ShipEffect(s, t, id), other);
    case Deliver(t, _, id) =>
      AdvanceIsolated(s, t, id, IsShipped, DELIVERED, OrderDelivered, other);
      StoreIsolated(s, KeyOf(a), DeliverEffect(s, t, id), other);
    case AdjustStock(t, k, sku, kind, qty, reason) =>
      AdjustIsolated(s, t, k, sku, kind, qty, reason, other);
      StoreIsolated(s, KeyOf(a), Saga.AdjustEffect(s, t, k, sku, kind, qty, reason), other);
  }

  lemma {:induction false} CreatedIsolated(s: State, tenant: Tenant, id: nat, other: Tenant)
    requires tenant != other
    ensures Untouched(s, HandleCreated(s, tenant, id), other)
  {
  }

  lemma {:induction false} CancelledIsolated(s: State, tenant: Tenant, id: nat, other: Tenant)
    requires tenant != other
    ensures Untouched(s, HandleCancelled(s, tenant, id), other)
  {
  }

  lemma {:induction false} ConsumeIsolated(s: State, e: Event, dies: bool, other: Tenant)
    requires e.tenant != other
    ensures Untouched(s, Consume(s, e, dies), other)
  {
    var marked := s.(processed := s.processed + {(e.topic, e.orderId)});
    match e.topic
    case OrderCreated => CreatedIsolated(marked, e.tenant, e.orderId, other);
    case OrderCancelled => CancelledIsolated(marked, e.tenant, e.orderId, other);
    case _ =>
  }

  /** No step of one tenant touches what another tenant has. */
  lemma {:induction false} TenantsAreIsolated(s: State, a: Action, other: Tenant)
    requires TenantOf(a) != Some(other)
    ensures Untouched(s, Step(s, a), other)
  {
    if IsCall(a) {
      CallIsolated(s, a, other);
    } else if a.Receive? {
      ConsumeIsolated(s, a.event, a.dies, other);
    }
  }

  /** Deduplication keys carry no tenant: those of another tenant's orders stay as they are too, but for
      one case. A payment.settled message that names the order under a wrong tenant sets its key. */
  lemma {:induction false} ForeignKeysIff(s: State, a: Action, other: Tenant, topic: Topic, id: nat)
    requires Billed(s) && TenantOf(a) != Some(other) && !a.ForgetProcessed?
    requires id < |s.orders| && s.orders[id].tenant == other
    ensures ((topic, id) in Step(s, a).processed) != ((topic, id) in s.processed) <==>
            a.Settle? && a.id == id && topic == PaymentSettled && (topic, id) !in s.processed
  {
    if a.Receive? && a.event in s.outbox {
      assert exists i :: 0 <= i < |s.outbox| && s.outbox[i] == a.event && EventOk(s.orders, s.outbox[i]);
    }
  }
}
