/** The figures of sold orders, confirmations and charges, over every run whatever expires. */
module SagaFigures {
  import opened Wrappers
  import opened Inventory
  import opened Saga

  predicate Sold(status: Status) {
    status == CONFIRMED || status == PAID || status == SHIPPED || status == DELIVERED
  }

  predicate Billing(topic: Topic) {
    topic == OrderConfirmed || topic == ChargeRequested
  }

  /** An outbox row names an order of its tenant; a confirmation and a charge carry that order's
      items and its amount. */
  predicate EventOk(orders: seq<Order>, e: Event) {
    && e.orderId < |orders| && e.tenant == orders[e.orderId].tenant
    && (Billing(e.topic) ==>
          e.body == Some(Invoice(orders[e.orderId].customer, orders[e.orderId].items, Amount(orders[e.orderId].items))))
  }

  /** Sold orders carry their amount; confirmations and charges carry their order's figures. */
  predicate Billed(s: State) {
    && (forall id :: 0 <= id < |s.orders| && Sold(s.orders[id].status) ==>
          s.orders[id].total == Some(Amount(s.orders[id].items)))
    && (forall i :: 0 <= i < |s.outbox| ==> EventOk(s.orders, s.outbox[i]))
  }

  lemma {:induction false} AdvanceBilled(s: State, tenant: Tenant, id: nat, from: Status -> bool, to: Status,
          topic: Topic)
    requires Billed(s) && !Billing(topic)
    requires forall st :: from(st) ==> to == CANCELLED || (Sold(st) && Sold(to))
    ensures Billed(Advance(s, tenant, id, from, to, topic).state)
  {
  }

  lemma {:induction false} ConfirmBilled(s: State, tenant: Tenant, id: nat)
    requires Billed(s)
    ensures Billed(ConfirmEffect(s, tenant, id).state)
  {
  }

  lemma {:induction false} AppendBilled(s: State, order: Order, events: seq<Event>)
    requires Billed(s) && order.status == CREATED
    requires forall i :: 0 <= i < |events| ==> events[i] == Event(OrderCreated, order.tenant, |s.orders|, None)
    ensures Billed(s.(orders := s.orders + [order], outbox := s.outbox + events))
  {
  }

  lemma {:induction false} CallBilled(s: State, a: Action)
    requires Billed(s) && IsCall(a)
    ensures Billed(Call(s, a).state)
  {
    match a
    case Create(t, _, customer, items) =>
      AppendBilled(s, Order(t, customer, items, CREATED, None, false), [Event(OrderCreated, t, |s.orders|, None)]);
    case Confirm(t, _, id) => ConfirmBilled(s, t, id);
    case Cancel(t, _, id) => AdvanceBilled(s, t, id, Cancellable, CANCELLED, OrderCancelled);
    case Ship(t, _, id) => AdvanceBilled(s, t, id, IsPaid, SHIPPED, OrderShipped);
    case Deliver(t, _, id) => AdvanceBilled(s, t, id, IsShipped, DELIVERED, OrderDelivered);
    case AdjustStock(_, _, _, _, _, _) =>
  }

  lemma {:induction false} CreatedBilled(s: State, tenant: Tenant, id: nat)
    requires Billed(s)
    ensures Billed(HandleCreated(s, tenant, id))
  {
  }

  lemma {:induction false} CancelledBilled(s: State, tenant: Tenant, id: nat)
    requires Billed(s)
    ensures Billed(HandleCancelled(s, tenant, id))
  {
  }

  lemma {:induction false} ConfirmedBilled(s: State, e: Event)
    requires Billed(s) && e in s.outbox && e.topic == OrderConfirmed
    ensures Billed(HandleConfirmed(s, e.tenant, e.orderId, e.body))
  {
  }

  lemma {:induction false} ConsumeBilled(s: State, e: Event, dies: bool)
    requires Billed(s) && e in s.outbox
    ensures Billed(Consume(s, e, dies))
  {
    var marked := s.(processed := s.processed + {(e.topic, e.orderId)});
    match e.topic
    case OrderCreated => CreatedBilled(marked, e.tenant, e.orderId);
    case OrderCancelled => CancelledBilled(marked, e.tenant, e.orderId);
    case OrderConfirmed => ConfirmedBilled(marked, e);
    case _ =>
  }

  lemma {:induction false} SettleBilled(s: State, tenant: Tenant, id: nat, dies: bool)
    requires Billed(s)
    ensures Billed(ConsumeSettled(s, tenant, id, dies))
  {
  }

  lemma {:induction false} StepBilled(s: State, a: Action)
    requires Billed(s)
    ensures Billed(Step(s, a))
  {
    if IsCall(a) {
      CallBilled(s, a);
    } else {
      match a
      case ImportOrder(t, customer, items) =>
        AppendBilled(s, Order(t, customer, items, CREATED, Some(Amount(items)), false), []);
        assert s.outbox + [] == s.outbox;
      case Receive(e, dies) =>
        if e in s.outbox {
          ConsumeBilled(s, e, dies);
        }
      case Settle(t, id, dies) => SettleBilled(s, t, id, dies);
      case _ =>
    }
  }

  /** In every run: from CONFIRMED on an order's total is the sum of price times quantity, and every
      confirmation and every charge names an existing order and carries its customer, its items and
      that sum. */
  lemma {:induction false} FiguresAgree(run: seq<Action>)
    ensures var s := Exec(EMPTY, run);
            && (forall id :: 0 <= id < |s.orders| && Sold(s.orders[id].status) ==>
                  s.orders[id].total == Some(Amount(s.orders[id].items)))
            && (forall i :: 0 <= i < |s.outbox| && Billing(s.outbox[i].topic) ==>
                  && s.outbox[i].orderId < |s.orders|
                  && var o := s.orders[s.outbox[i].orderId];
                     s.outbox[i].body == Some(Invoice(o.customer, o.items, Amount(o.items))))
  {
    BilledInEveryRun(run);
    var s := Exec(EMPTY, run);
    forall i | 0 <= i < |s.outbox| && Billing(s.outbox[i].topic)
      ensures s.outbox[i].orderId < |s.orders|
      ensures var o := s.orders[s.outbox[i].orderId];
              s.outbox[i].body == Some(Invoice(o.customer, o.items, Amount(o.items)))
    {
      assert EventOk(s.orders, s.outbox[i]);
    }
  }

  lemma {:induction false} BilledInEveryRun(run: seq<Action>)
    ensures Billed(Exec(EMPTY, run))
    decreases |run|
  {
    if run != [] {
      BilledInEveryRun(run[..|run| - 1]);
      StepBilled(Exec(EMPTY, run[..|run| - 1]), run[|run| - 1]);
    }
  }
}
