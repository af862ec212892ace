/** How often an order's stock is reserved, how often it is confirmed and how often it is charged,
    over every run: the rows its handlers write are counted against the deduplication keys that
    expire. */
module SagaOnce {
  import opened Wrappers
  import opened Inventory
  import opened Saga
  import opened SagaFigures
  import opened Steps

  // ---------------------------------------------------------------- counting outbox rows

  function One(e: Event, topic: Topic, id: nat): nat {
    if e.topic == topic && e.orderId == id then 1 else 0
  }

  /** Outbox rows of an order with a topic. */
  function Count(outbox: seq<Event>, topic: Topic, id: nat): nat {
    if outbox == [] then 0
    else Count(outbox[..|outbox| - 1], topic, id) + One(outbox[|outbox| - 1], topic, id)
  }

  lemma {:induction false} CountOne(outbox: seq<Event>, e: Event, topic: Topic, id: nat)
    ensures Count(outbox + [e], topic, id) == Count(outbox, topic, id) + One(e, topic, id)
  {
  }

  /** No outbox row names an order that does not exist. */
  lemma {:induction false} CountBeyond(orders: seq<Order>, outbox: seq<Event>, topic: Topic, id: nat)
    requires id >= |orders| && forall i :: 0 <= i < |outbox| ==> EventOk(orders, outbox[i])
    ensures Count(outbox, topic, id) == 0
    decreases |outbox|
  {
    if outbox != [] {
      CountBeyond(orders, outbox[..|outbox| - 1], topic, id);
    }
  }

  // ---------------------------------------------------------------- handlers that write a row

  predicate Guarded(topic: Topic) {
    topic == OrderCreated || topic == OrderConfirmed
  }

  /** The row a handler writes when it does its work: a reservation, or a charge. */
  function Wrote(topic: Topic): Topic {
    if topic == OrderCreated then StockReserved else ChargeRequested
  }

  /** The step handles such a message of the order and does its work: the message is there, its key
      is not set, and stock covers the order, or the order is CONFIRMED. */
  predicate Fires(s: State, a: Action, topic: Topic, id: nat) {
    && a.Receive? && !a.dies && a.event in s.outbox && a.event.topic == topic && a.event.orderId == id
    && Find(s, a.event.tenant, id).Some?
    && (topic, id) !in s.processed
    && (if topic == OrderCreated then Covered(s.stock, s.orders[id].tenant, s.orders[id].items)
        else s.orders[id].status == CONFIRMED)
  }

  /** How many rows of a topic a call or a handler adds for the order. */
  ghost predicate Adds(s: State, t: State, topic: Topic, id: nat, n: nat) {
    Count(t.outbox, topic, id) == Count(s.outbox, topic, id) + n
  }

  lemma {:induction false} AdvanceAdds(s: State, tenant: Tenant, id: nat, from: Status -> bool, to: Status,
          topic: Topic, counted: Topic, other: nat)
    requires topic != counted
    ensures Adds(s, Advance(s, tenant, id, from, to, topic).state, counted, other, 0)
  {
    CountOne(s.outbox, Event(topic, tenant, id, None), counted, other);
  }

  /** The confirmation takes effect. */
  predicate Confirms(s: State, tenant: Tenant, id: nat) {
    Find(s, tenant, id).Some? && s.orders[id].status == RESERVED && HasRows(s.stock, tenant, s.orders[id].items)
  }

  lemma {:induction false} ConfirmAdds(s: State, tenant: Tenant, id: nat, counted: Topic, other: nat)
    ensures Adds(s, ConfirmEffect(s, tenant, id).state, counted, other,
                 if Confirms(s, tenant, id) && counted == OrderConfirmed && other == id then 1 else 0)
  {
    var t := ConfirmEffect(s, tenant, id).state;
    if t != s {
      CountOne(s.outbox, t.outbox[|s.outbox|], counted, other);
    }
  }

  lemma {:induction false} StoreAdds(s: State, key: IdemKey, effect: Outcome, topic: Topic, id: nat)
    requires Adds(s, effect.state, topic, id, 0)
    ensures Adds(s, Idempotent(s, key, effect).state, topic, id, 0)
    ensures Adds(s, Keyed(s, key, effect).state, topic, id, 0)
  {
  }

  lemma {:induction false} CallAdds(s: State, a: Action, topic: Topic, id: nat)
    requires IsCall(a) && (topic == StockReserved || topic == ChargeRequested)
    ensures Adds(s, Call(s, a).state, topic, id, 0)
  {
    match a
    case Create(t, _, customer, items) =>
      CountOne(s.outbox, Event(OrderCreated, t, |s.orders|, None), topic, id);
      StoreAdds(s, KeyOf(a), CreateEffect(s, t, customer, items), topic, id);
    case Confirm(t, _, order) =>
      ConfirmAdds(s, t, order, topic, id);
      StoreAdds(s, KeyOf(a), ConfirmEffect(s, t, order), topic, id);
    case Cancel(t, _, order) =>
      AdvanceAdds(s, t, order, Cancellable, CANCELLED, OrderCancelled, topic, id);
      StoreAdds(s, KeyOf(a), CancelEffect(s, t, order), topic, id);
    case Ship(t, _, order) =>
      AdvanceAdds(s, t, order, IsPaid, SHIPPED, OrderShipped, topic, id);
      StoreAdds(s, KeyOf(a), ShipEffect(s, t, order), topic, id);
    case Deliver(t, _, order) =>
      AdvanceAdds(s, t, order, IsShipped, DELIVERED, OrderDelivered, topic, id);
      StoreAdds(s, KeyOf(a), DeliverEffect(s, t, order), topic, id);
    case AdjustStock(t, k, sku, kind, qty, reason) =>
      StoreAdds(s, KeyOf(a), Saga.AdjustEffect(s, t, k, sku, kind, qty, reason), topic, id);
  }

  lemma {:induction false} HandleCreatedAdds(s: State, tenant: Tenant, id: nat, topic: Topic, other: nat)
    requires topic != OrderCancelled
    ensures Adds(s, HandleCreated(s, tenant, id), topic, other,
                 if Find(s, tenant, id).Some? && Covered(s.stock, tenant, s.orders[id].items)
                    && topic == StockReserved && other == id then 1 else 0)
  {
    CountOne(s.outbox, Event(StockReserved, tenant, id, None), topic, other);
    CountOne(s.outbox, Event(OrderCancelled, tenant, id, None), topic, other);
  }

  lemma {:induction false} HandleConfirmedAdds(s: State, tenant: Tenant, id: nat, body: Option<Invoice>,
          topic: Topic, other: nat)
    ensures Adds(s, HandleConfirmed(s, tenant, id, body), topic, other,
                 if Find(s, tenant, id).Some? && s.orders[id].status == CONFIRMED
                    && topic == ChargeRequested && other == id then 1 else 0)
  {
    if Find(s, tenant, id).Some? {
      CountOne(s.outbox, Event(ChargeRequested, tenant, id, Some(Charge(s.orders[id], body))), topic, other);
    }
  }

  lemma {:induction false} HandleCancelledAdds(s: State, tenant: Tenant, id: nat, topic: Topic, other: nat)
    ensures Adds(s, HandleCancelled(s, tenant, id), topic, other, 0)
  {
    assert HandleCancelled(s, tenant, id).outbox == s.outbox;
  }

  lemma {:induction false} ConsumeAdds(s: State, a: Action, topic: Topic, id: nat)
    requires a.Receive? && Guarded(topic)
    ensures Adds(s, Step(s, a), Wrote(topic), id, if Fires(s, a, topic, id) then 1 else 0)
  {
    var e := a.event;
    var marked := s.(processed := s.processed + {(e.topic, e.orderId)});
    match e.topic
    case OrderCreated => HandleCreatedAdds(marked, e.tenant, e.orderId, Wrote(topic), id);
    case OrderCancelled => HandleCancelledAdds(marked, e.tenant, e.orderId, Wrote(topic), id);
    case OrderConfirmed => HandleConfirmedAdds(marked, e.tenant, e.orderId, e.body, Wrote(topic), id);
    case _ =>
  }

  /** Such a row is written exactly when the handler does its work. */
  lemma {:induction false} StepAdds(s: State, a: Action, topic: Topic, id: nat)
    requires Guarded(topic)
    ensures Adds(s, Step(s, a), Wrote(topic), id, if Fires(s, a, topic, id) then 1 else 0)
  {
    if IsCall(a) {
      CallAdds(s, a, Wrote(topic), id);
    } else if a.Receive? {
      ConsumeAdds(s, a, topic, id);
    } else {
      assert s.outbox + [] == s.outbox;
    }
  }

  // ---------------------------------------------------------------- deduplication keys over a run

  lemma {:induction false} ExecNext(run: seq<Action>, k: nat)
    requires k < |run|
    ensures Exec(EMPTY, run[..k + 1]) == Step(Exec(EMPTY, run[..k]), run[k])
  {
    assert run[..k + 1][..k] == run[..k];
  }

  /** Only its expiry takes a key away, and doing the work sets it. */
  lemma {:induction false} KeyStays(s: State, a: Action, topic: Topic, id: nat)
    requires (topic, id) in s.processed && a != ForgetProcessed(topic, id)
    ensures (topic, id) in Step(s, a).processed
  {
  }

  lemma {:induction false} FiringSetsKey(s: State, a: Action, topic: Topic, id: nat)
    requires Fires(s, a, topic, id) && Guarded(topic)
    ensures (topic, id) in Step(s, a).processed
  {
  }

  predicate FiresAt(run: seq<Action>, k: nat, topic: Topic, id: nat)
    requires k < |run|
  {
    Fires(Exec(EMPTY, run[..k]), run[k], topic, id)
  }

  /** The rows written in the first `n` steps. */
  function CountAt(run: seq<Action>, n: nat, topic: Topic, id: nat): nat
    requires n <= |run|
  {
    Count(Exec(EMPTY, run[..n]).outbox, Wrote(topic), id)
  }

  lemma {:induction false} KeyStaysIn(s: State, more: seq<Action>, topic: Topic, id: nat)
    requires (topic, id) in s.processed && forall f :: 0 <= f < |more| ==> more[f] != ForgetProcessed(topic, id)
    ensures (topic, id) in Exec(s, more).processed
    decreases |more|
  {
    if more != [] {
      KeyStaysIn(s, more[..|more| - 1], topic, id);
      KeyStays(Exec(s, more[..|more| - 1]), more[|more| - 1], topic, id);
    }
  }

  lemma {:induction false} KeyStaysThrough(run: seq<Action>, start: nat, end: nat, topic: Topic, id: nat)
    requires start <= end <= |run| && (topic, id) in Exec(EMPTY, run[..start]).processed
    requires forall f :: start <= f < end ==> run[f] != ForgetProcessed(topic, id)
    ensures (topic, id) in Exec(EMPTY, run[..end]).processed
  {
    ExecThrough(run, start, end);
    KeyStaysIn(Exec(EMPTY, run[..start]), run[start..end], topic, id);
  }

  lemma {:induction false} KeySetAfter(run: seq<Action>, k: nat, topic: Topic, id: nat)
    requires k < |run| && FiresAt(run, k, topic, id) && Guarded(topic)
    ensures (topic, id) in Exec(EMPTY, run[..k + 1]).processed
  {
    ExecNext(run, k);
    FiringSetsKey(Exec(EMPTY, run[..k]), run[k], topic, id);
  }

  lemma {:induction false} CountStep(run: seq<Action>, k: nat, topic: Topic, id: nat)
    requires k < |run| && Guarded(topic)
    ensures CountAt(run, k + 1, topic, id) == CountAt(run, k, topic, id) + if FiresAt(run, k, topic, id) then 1 else 0
  {
    ExecNext(run, k);
    StepAdds(Exec(EMPTY, run[..k]), run[k], topic, id);
  }

  /** A row means that the handler did its work at some step; the last such step leaves one row less. */
  lemma {:induction false} LastFiring(run: seq<Action>, n: nat, topic: Topic, id: nat) returns (k: nat)
    requires n <= |run| && Guarded(topic) && CountAt(run, n, topic, id) > 0
    ensures k < n && FiresAt(run, k, topic, id)
    ensures CountAt(run, k, topic, id) + 1 == CountAt(run, n, topic, id)
    decreases n
  {
    assert run[..0] == [];
    CountStep(run, n - 1, topic, id);
    if FiresAt(run, n - 1, topic, id) {
      k := n - 1;
    } else {
      k := LastFiring(run, n - 1, topic, id);
    }
  }

  lemma {:induction false} CountNext(run: seq<Action>, k: nat, topic: Topic, id: nat)
    requires k < |run| && Guarded(topic)
    ensures CountAt(run, k, topic, id) <= CountAt(run, k + 1, topic, id)
  {
    CountStep(run, k, topic, id);
  }

  lemma {:induction false} CountGrows(run: seq<Action>, m: nat, n: nat, topic: Topic, id: nat)
    requires m <= n <= |run| && Guarded(topic)
    ensures CountAt(run, m, topic, id) <= CountAt(run, n, topic, id)
  {
    var counts := seq(|run| + 1, k requires 0 <= k <= |run| => CountAt(run, k, topic, id));
    forall k | 0 < k < |counts|
      ensures counts[k - 1] <= counts[k]
    {
      CountNext(run, k - 1, topic, id);
    }
    Climbs(counts, m, n);
  }

  /** The work is done twice, the key having been forgotten in between. */
  ghost predicate TwiceWithExpiry(run: seq<Action>, topic: Topic, id: nat) {
    exists j, f, k ::
      && 0 <= j < f < k < |run| && run[f] == ForgetProcessed(topic, id)
      && FiresAt(run, j, topic, id) && FiresAt(run, k, topic, id)
  }

  lemma {:induction false} SecondNeedsExpiry(run: seq<Action>, topic: Topic, id: nat)
    requires Guarded(topic) && Count(Exec(EMPTY, run).outbox, Wrote(topic), id) >= 2
    ensures TwiceWithExpiry(run, topic, id)
  {
    assert run[..|run|] == run;
    var k := LastFiring(run, |run|, topic, id);
    var j := LastFiring(run, k, topic, id);
    KeySetAfter(run, j, topic, id);
    if forall f :: j + 1 <= f < k ==> run[f] != ForgetProcessed(topic, id) {
      KeyStaysThrough(run, j + 1, k, topic, id);
    }
  }

  lemma {:induction false} FiringCounts(run: seq<Action>, k: nat, n: nat, topic: Topic, id: nat)
    requires k < n <= |run| && FiresAt(run, k, topic, id) && Guarded(topic)
    ensures CountAt(run, n, topic, id) > CountAt(run, k, topic, id)
  {
    CountStep(run, k, topic, id);
    CountGrows(run, k + 1, n, topic, id);
  }

  lemma {:induction false} TwoFirings(run: seq<Action>, j: nat, k: nat, topic: Topic, id: nat)
    requires j < k < |run| && FiresAt(run, j, topic, id) && FiresAt(run, k, topic, id) && Guarded(topic)
    ensures CountAt(run, |run|, topic, id) >= 2
  {
    FiringCounts(run, j, k, topic, id);
    FiringCounts(run, k, |run|, topic, id);
  }

  lemma {:induction false} SecondAfterExpiry(run: seq<Action>, topic: Topic, id: nat)
    requires Guarded(topic) && TwiceWithExpiry(run, topic, id)
    ensures Count(Exec(EMPTY, run).outbox, Wrote(topic), id) >= 2
  {
    var j, f, k :|
      && 0 <= j < f < k < |run| && run[f] == ForgetProcessed(topic, id)
      && FiresAt(run, j, topic, id) && FiresAt(run, k, topic, id);
    assert run[..|run|] == run;
    TwoFirings(run, j, k, topic, id);
  }

  /** An order's stock is reserved a second time exactly in the runs in which order.created is
      handled with stock that covers the order, its key then expires, and it is so handled again. */
  lemma {:induction false} ReservedTwiceIff(run: seq<Action>, id: nat)
    ensures Count(Exec(EMPTY, run).outbox, StockReserved, id) >= 2 <==> TwiceWithExpiry(run, OrderCreated, id)
  {
    if TwiceWithExpiry(run, OrderCreated, id) {
      SecondAfterExpiry(run, OrderCreated, id);
    }
    if Count(Exec(EMPTY, run).outbox, StockReserved, id) >= 2 {
      SecondNeedsExpiry(run, OrderCreated, id);
    }
  }

  /** An order is charged a second time exactly in the runs in which order.confirmed is handled while
      the order is CONFIRMED, its key then expires, and it is so handled again. */
  lemma {:induction false} ChargedTwiceIff(run: seq<Action>, id: nat)
    ensures Count(Exec(EMPTY, run).outbox, ChargeRequested, id) >= 2 <==> TwiceWithExpiry(run, OrderConfirmed, id)
  {
    if TwiceWithExpiry(run, OrderConfirmed, id) {
      SecondAfterExpiry(run, OrderConfirmed, id);
    }
    if Count(Exec(EMPTY, run).outbox, ChargeRequested, id) >= 2 {
      SecondNeedsExpiry(run, OrderConfirmed, id);
    }
  }

  // ---------------------------------------------------------------- reservations and confirmations

  /** A RESERVED order holds its stock; held stock belongs to a RESERVED or a cancelled order. */
  predicate OrderOk(o: Order) {
    (o.status == RESERVED ==> o.held) && (o.held ==> o.status == RESERVED || o.status == CANCELLED)
  }

  predicate OrdersOk(s: State) {
    forall id :: 0 <= id < |s.orders| ==> OrderOk(s.orders[id])
  }

  lemma {:induction false} AdvanceOrdersOk(s: State, tenant: Tenant, id: nat, from: Status -> bool, to: Status,
          topic: Topic)
    requires OrdersOk(s) && forall st :: from(st) ==> to == CANCELLED || (Sold(st) && Sold(to))
    ensures OrdersOk(Advance(s, tenant, id, from, to, topic).state)
  {
  }

  lemma {:induction false} CallOrdersOk(s: State, a: Action)
    requires OrdersOk(s) && IsCall(a)
    ensures OrdersOk(Call(s, a).state)
  {
    match a
    case Cancel(t, _, id) => AdvanceOrdersOk(s, t, id, Cancellable, CANCELLED, OrderCancelled);
    case Ship(t, _, id) => AdvanceOrdersOk(s, t, id, IsPaid, SHIPPED, OrderShipped);
    case Deliver(t, _, id) => AdvanceOrdersOk(s, t, id, IsShipped, DELIVERED, OrderDelivered);
    case _ =>
  }

  lemma {:induction false} ConsumeOrdersOk(s: State, e: Event, dies: bool)
    requires OrdersOk(s)
    ensures OrdersOk(Consume(s, e, dies))
  {
  }

  lemma {:induction false} StepOrdersOk(s: State, a: Action)
    requires OrdersOk(s)
    ensures OrdersOk(Step(s, a))
  {
    if IsCall(a) {
      CallOrdersOk(s, a);
    } else if a.Receive? {
      ConsumeOrdersOk(s, a.event, a.dies);
    }
  }

  lemma {:induction false} OrdersOkInEveryRun(run: seq<Action>)
    ensures OrdersOk(Exec(EMPTY, run))
    decreases |run|
  {
    if run != [] {
      OrdersOkInEveryRun(run[..|run| - 1]);
      StepOrdersOk(Exec(EMPTY, run[..|run| - 1]), run[|run| - 1]);
    }
  }

  /** Each reservation is good for one confirmation: what is held is reserved and not yet confirmed,
      and a sold order was confirmed. */
  predicate Books(o: Order, reserved: nat, confirmed: nat) {
    && confirmed + (if o.held then 1 else 0) <= reserved
    && (Sold(o.status) ==> confirmed >= 1)
  }

  predicate BooksOk(s: State, id: nat) {
    id < |s.orders| ==> Books(s.orders[id], Count(s.outbox, StockReserved, id), Count(s.outbox, OrderConfirmed, id))
  }

  lemma {:induction false} AdvanceBooks(s: State, tenant: Tenant, order: nat, from: Status -> bool, to: Status,
          topic: Topic, id: nat)
    requires BooksOk(s, id) && topic != StockReserved && topic != OrderConfirmed
    requires forall st :: from(st) ==> to == CANCELLED || (Sold(st) && Sold(to))
    ensures BooksOk(Advance(s, tenant, order, from, to, topic).state, id)
  {
    AdvanceAdds(s, tenant, order, from, to, topic, StockReserved, id);
    AdvanceAdds(s, tenant, order, from, to, topic, OrderConfirmed, id);
  }

  lemma {:induction false} ConfirmBooks(s: State, tenant: Tenant, order: nat, id: nat)
    requires BooksOk(s, id) && OrdersOk(s)
    ensures BooksOk(ConfirmEffect(s, tenant, order).state, id)
  {
    ConfirmAdds(s, tenant, order, StockReserved, id);
    ConfirmAdds(s, tenant, order, OrderConfirmed, id);
  }

  lemma {:induction false} AppendBooks(s: State, order: Order, events: seq<Event>, id: nat)
    requires BooksOk(s, id) && Billed(s) && order.status == CREATED && !order.held && |events| <= 1
    requires forall i :: 0 <= i < |events| ==> events[i] == Event(OrderCreated, order.tenant, |s.orders|, None)
    ensures BooksOk(s.(orders := s.orders + [order], outbox := s.outbox + events), id)
  {
    if events == [] {
      assert s.outbox + events == s.outbox;
    } else {
      assert events == [events[0]];
      CountOne(s.outbox, events[0], StockReserved, id);
      CountOne(s.outbox, events[0], OrderConfirmed, id);
    }
    if id >= |s.orders| {
      CountBeyond(s.orders, s.outbox, StockReserved, id);
      CountBeyond(s.orders, s.outbox, OrderConfirmed, id);
    }
  }

  lemma {:induction false} CallBooks(s: State, a: Action, id: nat)
    requires BooksOk(s, id) && Billed(s) && OrdersOk(s) && IsCall(a)
    ensures BooksOk(Call(s, a).state, id)
  {
    match a
    case Create(t, _, customer, items) =>
      AppendBooks(s, Order(t, customer, items, CREATED, None, false), [Event(OrderCreated, t, |s.orders|, None)], id);
    case Confirm(t, _, order) => ConfirmBooks(s, t, order, id);
    case Cancel(t, _, order) => AdvanceBooks(s, t, order, Cancellable, CANCELLED, OrderCancelled, id);
    case Ship(t, _, order) => AdvanceBooks(s, t, order, IsPaid, SHIPPED, OrderShipped, id);
    case Deliver(t, _, order) => AdvanceBooks(s, t, order, IsShipped, DELIVERED, OrderDelivered, id);
    case AdjustStock(_, _, _, _, _, _) =>
  }

  /** The order's record after its order.created: reserved, refused, or as it was. */
  lemma {:induction false} CreatedRecord(s: State, tenant: Tenant, order: nat, id: nat)
    requires id < |s.orders|
    ensures id < |HandleCreated(s, tenant, order).orders|
    ensures var o, p := s.orders[id], HandleCreated(s, tenant, order).orders[id];
            if id == order && Find(s, tenant, order).Some? && Covered(s.stock, tenant, o.items)
            then p == o.(status := RESERVED, held := true)
            else p == o || p == o.(status := CANCELLED)
  {
  }

  lemma {:induction false} CreatedBooks(s: State, tenant: Tenant, order: nat, id: nat)
    requires BooksOk(s, id)
    ensures BooksOk(HandleCreated(s, tenant, order), id)
  {
    if id < |s.orders| {
      HandleCreatedAdds(s, tenant, order, StockReserved, id);
      HandleCreatedAdds(s, tenant, order, OrderConfirmed, id);
      CreatedRecord(s, tenant, order, id);
    }
  }

  lemma {:induction false} CancelledBooks(s: State, tenant: Tenant, order: nat, id: nat)
    requires BooksOk(s, id)
    ensures BooksOk(HandleCancelled(s, tenant, order), id)
  {
    HandleCancelledAdds(s, tenant, order, StockReserved, id);
    HandleCancelledAdds(s, tenant, order, OrderConfirmed, id);
  }

  lemma {:induction false} ConfirmedBooks(s: State, tenant: Tenant, order: nat, body: Option<Invoice>, id: nat)
    requires BooksOk(s, id)
    ensures BooksOk(HandleConfirmed(s, tenant, order, body), id)
  {
    HandleConfirmedAdds(s, tenant, order, body, StockReserved, id);
    HandleConfirmedAdds(s, tenant, order, body, OrderConfirmed, id);
  }

  lemma {:induction false} ConsumeBooks(s: State, e: Event, dies: bool, id: nat)
    requires BooksOk(s, id) && OrdersOk(s)
    ensures BooksOk(Consume(s, e, dies), id)
  {
    var marked := s.(processed := s.processed + {(e.topic, e.orderId)});
    match e.topic
    case OrderCreated => CreatedBooks(marked, e.tenant, e.orderId, id);
    case OrderCancelled => CancelledBooks(marked, e.tenant, e.orderId, id);
    case OrderConfirmed => ConfirmedBooks(marked, e.tenant, e.orderId, e.body, id);
    case _ =>
  }

  lemma {:induction false} StepBooks(s: State, a: Action, id: nat)
    requires BooksOk(s, id) && Billed(s) && OrdersOk(s)
    ensures BooksOk(Step(s, a), id)
  {
    if IsCall(a) {
      CallBooks(s, a, id);
    } else {
      match a
      case ImportOrder(t, customer, items) =>
        AppendBooks(s, Order(t, customer, items, CREATED, Some(Amount(items)), false), [], id);
        assert s.outbox + [] == s.outbox;
      case Receive(e, dies) => ConsumeBooks(s, e, dies, id);
      case Settle(t, order, dies) => assert s.outbox + [] == s.outbox;
      case _ =>
    }
  }

  /** In every run, whatever expires: confirmations never outnumber reservations, nor do they and the
      stock still held together. */
  lemma {:induction false} BooksInEveryRun(run: seq<Action>, id: nat)
    ensures BooksOk(Exec(EMPTY, run), id)
    decreases |run|
  {
    if run != [] {
      var before := run[..|run| - 1];
      BooksInEveryRun(before, id);
      BilledInEveryRun(before);
      OrdersOkInEveryRun(before);
      StepBooks(Exec(EMPTY, before), run[|run| - 1], id);
    }
  }

  // ---------------------------------------------------------------- at most once

  /** The key of this order's message does not expire in the run. */
  predicate KeyLives(run: seq<Action>, topic: Topic, id: nat) {
    forall i :: 0 <= i < |run| ==> run[i] != ForgetProcessed(topic, id)
  }

  /** Once such a row is there, the message was handled, and its live key is set from then on. */
  lemma {:induction false} CountSeen(run: seq<Action>, m: nat, n: nat, topic: Topic, id: nat)
    requires m <= n <= |run| && Guarded(topic) && KeyLives(run, topic, id) && CountAt(run, m, topic, id) > 0
    ensures (topic, id) in Exec(EMPTY, run[..n]).processed
  {
    var k := LastFiring(run, m, topic, id);
    KeySetAfter(run, k, topic, id);
    KeyStaysThrough(run, k + 1, n, topic, id);
  }

  /** While its order.created key lives, an order is reserved at most once and confirmed at most once,
      its stock is held only in between, and a sold order went through both exactly once. While its
      order.confirmed key lives, it is charged at most once. */
  lemma {:induction false} AtMostOnce(run: seq<Action>, id: nat)
    ensures var s := Exec(EMPTY, run);
            var reserved, confirmed := Count(s.outbox, StockReserved, id), Count(s.outbox, OrderConfirmed, id);
            && (KeyLives(run, OrderCreated, id) ==>
                  && confirmed <= 1 && reserved <= 1
                  && (id < |s.orders| && s.orders[id].held ==> reserved == 1 && confirmed == 0)
                  && (id < |s.orders| && Sold(s.orders[id].status) ==> reserved == 1 && confirmed == 1))
            && (KeyLives(run, OrderConfirmed, id) ==> Count(s.outbox, ChargeRequested, id) <= 1)
  {
    ReservedTwiceIff(run, id);
    ChargedTwiceIff(run, id);
    BooksInEveryRun(run, id);
    BilledInEveryRun(run);
    var s := Exec(EMPTY, run);
    if id >= |s.orders| {
      CountBeyond(s.orders, s.outbox, OrderConfirmed, id);
    }
  }
}
