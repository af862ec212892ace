/** What each call and each message makes of the saga: the order's record, every row of stock, the
    outbox row and the reply, and exactly when a call is refused and with which error. */
module SagaOutcomes {
  import opened Wrappers
  import opened Inventory
  import opened Saga

  // ---------------------------------------------------------------- demand and amount

  lemma {:induction false} DemandAppend(items: seq<Item>, more: seq<Item>, sku: Sku)
    ensures Demand(items + more, sku) == Demand(items, sku) + Demand(more, sku)
    decreases |more|
  {
    if more == [] {
      assert items + more == items;
    } else {
      var last := |more| - 1;
      assert (items + more)[..|items| + last] == items + more[..last];
      DemandAppend(items, more[..last], sku);
    }
  }

  lemma {:induction false} AmountAppend(items: seq<Item>, more: seq<Item>)
    ensures Amount(items + more) == Amount(items) + Amount(more)
    decreases |more|
  {
    if more == [] {
      assert items + more == items;
    } else {
      var last := |more| - 1;
      assert (items + more)[..|items| + last] == items + more[..last];
      AmountAppend(items, more[..last]);
    }
  }

  /** With the two sums above: an item asks for its quantity of its own SKU, and costs price times
      quantity. */
  lemma {:induction false} OneItem(item: Item, sku: Sku)
    ensures Demand([item], sku) == if sku == item.sku then item.qty else 0
    ensures Amount([item]) == item.price * item.qty
  {
    assert [item][..0] == [];
  }

  // ---------------------------------------------------------------- what changes

  predicate Known(s: State, tenant: Tenant, id: nat) {
    id < |s.orders| && s.orders[id].tenant == tenant
  }

  /** Of the orders only `id` changes. */
  ghost predicate OnlyOrder(s: State, t: State, id: nat, order: Order) {
    && |t.orders| == |s.orders| && id < |s.orders| && t.orders[id] == order
    && forall other :: 0 <= other < |s.orders| && other != id ==> t.orders[other] == s.orders[other]
  }

  /** Every row of the order moves by its whole demand, and the others by nothing. */
  ghost predicate StockMoves(s: State, t: State, order: Order, available: int, reserved: int) {
    && t.stock.Keys == s.stock.Keys
    && forall key ::
         var demand := DemandAt(order.tenant, order.items, key);
         && LevelOf(t.stock, key).available == LevelOf(s.stock, key).available + available * demand
         && LevelOf(t.stock, key).reserved == LevelOf(s.stock, key).reserved + reserved * demand
  }

  // ---------------------------------------------------------------- messages

  /** Every item's row exists. */
  ghost predicate RowsExist(stock: Stock, order: Order) {
    forall i :: 0 <= i < |order.items| ==> Key(order.tenant, order.items[i].sku) in stock
  }

  /** Every item, taken by itself, is in stock. */
  ghost predicate ItemsInStock(stock: Stock, order: Order) {
    forall i :: 0 <= i < |order.items| ==>
      var key := Key(order.tenant, order.items[i].sku); key in stock && order.items[i].qty <= stock[key].available
  }

  /** What order.cancelled makes of an order. A RESERVED one gives its pieces back and holds none any
      more, unless a row is missing: then the transaction fails as a whole. Any other becomes CANCELLED
      and moves no stock. */
  ghost predicate CancelledBy(s: State, t: State, id: nat)
    requires id < |s.orders|
  {
    var order := s.orders[id];
    && t.outbox == s.outbox && t.log == s.log && t.idem == s.idem
    && (order.status == RESERVED && RowsExist(s.stock, order) ==>
          && OnlyOrder(s, t, id, Order(order.tenant, order.customer, order.items, CANCELLED, order.total, false))
          && StockMoves(s, t, order, 1, -1))
    && (order.status == RESERVED && !RowsExist(s.stock, order) ==> t.orders == s.orders && t.stock == s.stock)
    && (order.status != RESERVED ==>
          && OnlyOrder(s, t, id, Order(order.tenant, order.customer, order.items, CANCELLED, order.total, order.held))
          && t.stock == s.stock)
  }

  lemma {:induction false} CancelledOutcome(s: State, tenant: Tenant, id: nat)
    requires Known(s, tenant, id)
    ensures CancelledBy(s, HandleCancelled(s, tenant, id), id)
    ensures HandleCancelled(s, tenant, id).processed == s.processed
  {
    var order := s.orders[id];
    if order.status == RESERVED && HasRows(s.stock, tenant, order.items) {
      ShiftLevels(s.stock, tenant, order.items, Release);
    }
  }

  /** The first handling of order.cancelled. */
  lemma {:induction false} CancelledMessage(s: State, e: Event)
    requires e in s.outbox && e.topic == OrderCancelled && (OrderCancelled, e.orderId) !in s.processed
    requires Known(s, e.tenant, e.orderId)
    ensures var t := Step(s, Receive(e, false));
            CancelledBy(s, t, e.orderId) && t.processed == s.processed + {(OrderCancelled, e.orderId)}
  {
    CancelledOutcome(s.(processed := s.processed + {(OrderCancelled, e.orderId)}), e.tenant, e.orderId);
  }

  /** What order.created makes of an order, whatever its status: it is RESERVED and takes its pieces, or
      it is CANCELLED and order.cancelled goes out. */
  ghost predicate ReservedBy(s: State, t: State, id: nat)
    requires id < |s.orders|
  {
    var order := s.orders[id];
    && t.log == s.log && t.idem == s.idem
    && (ItemsInStock(s.stock, order) ==>
          && OnlyOrder(s, t, id, Order(order.tenant, order.customer, order.items, RESERVED, order.total, true))
          && StockMoves(s, t, order, -1, 1)
          && t.outbox == s.outbox + [Event(StockReserved, order.tenant, id, None)])
    && (!ItemsInStock(s.stock, order) ==>
          && OnlyOrder(s, t, id, Order(order.tenant, order.customer, order.items, CANCELLED, order.total, order.held))
          && t.stock == s.stock && t.outbox == s.outbox + [Event(OrderCancelled, order.tenant, id, None)])
  }

  lemma {:induction false} CreatedOutcome(s: State, tenant: Tenant, id: nat)
    requires Known(s, tenant, id)
    ensures ReservedBy(s, HandleCreated(s, tenant, id), id)
    ensures HandleCreated(s, tenant, id).processed == s.processed
  {
    var order := s.orders[id];
    if Covered(s.stock, tenant, order.items) {
      ShiftLevels(s.stock, tenant, order.items, Reserve);
    }
  }

  /** The first handling of order.created. */
  lemma {:induction false} CreatedMessage(s: State, e: Event)
    requires e in s.outbox && e.topic == OrderCreated && (OrderCreated, e.orderId) !in s.processed
    requires Known(s, e.tenant, e.orderId)
    ensures var t := Step(s, Receive(e, false));
            ReservedBy(s, t, e.orderId) && t.processed == s.processed + {(OrderCreated, e.orderId)}
  {
    CreatedOutcome(s.(processed := s.processed + {(OrderCreated, e.orderId)}), e.tenant, e.orderId);
  }

  /** The handler of order.confirmed: one charge for a CONFIRMED order. What the message says wins, but
      for an empty customer and a total of zero. */
  lemma {:induction false} ConfirmedMessage(s: State, e: Event)
    requires e in s.outbox && e.topic == OrderConfirmed && (OrderConfirmed, e.orderId) !in s.processed
    requires Known(s, e.tenant, e.orderId)
    ensures var id, order, t := e.orderId, s.orders[e.orderId], Step(s, Receive(e, false));
            && t.orders == s.orders && t.stock == s.stock && t.log == s.log && t.idem == s.idem
            && t.processed == s.processed + {(OrderConfirmed, id)}
            && (order.status != CONFIRMED ==> t.outbox == s.outbox)
            && (order.status == CONFIRMED ==>
                  && |t.outbox| == |s.outbox| + 1 && s.outbox < t.outbox
                  && var charge := t.outbox[|s.outbox|];
                     && charge.topic == ChargeRequested && charge.tenant == e.tenant && charge.orderId == id
                     && charge.body.Some?
                     && var told, bill := e.body, charge.body.value;
                        && (told.None? ==> bill == Invoice(order.customer, order.items, Amount(order.items)))
                        && (told.Some? ==>
                              && bill.items == told.value.items
                              && (told.value.customer != "" ==> bill.customer == told.value.customer)
                              && (told.value.customer == "" ==> bill.customer == order.customer)
                              && (told.value.total > 0 ==> bill.total == told.value.total)
                              && (told.value.total == 0 ==> bill.total == Amount(order.items))))
  {
  }

  /** The consumer of settlements: PAID exactly from CONFIRMED, and nothing but the status. */
  lemma {:induction false} SettledMessage(s: State, tenant: Tenant, id: nat)
    requires (PaymentSettled, id) !in s.processed
    ensures var t := Step(s, Settle(tenant, id, false));
            && t.stock == s.stock && t.log == s.log && t.outbox == s.outbox && t.idem == s.idem
            && t.processed == s.processed + {(PaymentSettled, id)}
            && (Known(s, tenant, id) && s.orders[id].status == CONFIRMED ==>
                  var order := s.orders[id];
                  OnlyOrder(s, t, id, Order(tenant, order.customer, order.items, PAID, order.total, order.held)))
            && (!(Known(s, tenant, id) && s.orders[id].status == CONFIRMED) ==> t.orders == s.orders)
  {
  }

  /** A message leaves everything as it was when its key is set; but for its key when the handler dies,
      when it names no order of its tenant, or when nothing listens to its topic. A row that was never
      written is not received, and the order consumer receives no charge. */
  lemma {:induction false} MessageIgnored(s: State, e: Event, dies: bool)
    ensures var t, key := Step(s, Receive(e, dies)), (e.topic, e.orderId);
            && (key in s.processed || e !in s.outbox || e.topic == ChargeRequested ==> t == s)
            && (key !in s.processed && e in s.outbox && e.topic != ChargeRequested ==>
                  && t.processed == s.processed + {key} && t.log == s.log && t.idem == s.idem
                  && (dies || !Known(s, e.tenant, e.orderId)
                      || e.topic in {StockReserved, OrderShipped, OrderDelivered, PaymentSettled} ==>
                        t.orders == s.orders && t.stock == s.stock && t.outbox == s.outbox))
  {
  }

  lemma {:induction false} SettlementIgnored(s: State, tenant: Tenant, id: nat, dies: bool)
    ensures var t := Step(s, Settle(tenant, id, dies));
            && ((PaymentSettled, id) in s.processed ==> t == s)
            && ((PaymentSettled, id) !in s.processed && dies ==>
                  t == State(s.orders, s.stock, s.log, s.outbox, s.processed + {(PaymentSettled, id)}, s.idem))
  {
  }

  /** An imported order carries its total from the start, and no event announces it. */
  lemma {:induction false} OrderImport(s: State, tenant: Tenant, customer: string, items: seq<Item>)
    ensures var order := Order(tenant, customer, items, CREATED, Some(Amount(items)), false);
            Step(s, ImportOrder(tenant, customer, items))
            == State(s.orders + [order], s.stock, s.log, s.outbox, s.processed, s.idem)
  {
  }

  /** A key that expires is gone, and nothing else is. */
  lemma {:induction false} Expiry(s: State, topic: Topic, id: nat, key: IdemKey)
    ensures var t := Step(s, ForgetProcessed(topic, id));
            && (topic, id) !in t.processed && t == s.(processed := t.processed)
            && forall other :: other != (topic, id) ==> (other in t.processed <==> other in s.processed)
    ensures var t := Step(s, ForgetReply(key));
            && key !in t.idem && t == s.(idem := t.idem)
            && forall other :: other != key ==>
                 (other in t.idem <==> other in s.idem) && (other in s.idem ==> t.idem[other] == s.idem[other])
  {
  }

  // ---------------------------------------------------------------- the API

  /** The call's own key. Orders have one namespace each, creations and adjustments one a tenant. */
  predicate RunsUnder(a: Action, key: IdemKey) {
    match a
    case Create(t, k, _, _) => key == IdemKey(t, CreateOp, None, k)
    case Confirm(t, k, id) => key == IdemKey(t, ConfirmOp, Some(id), k)
    case Cancel(t, k, id) => key == IdemKey(t, CancelOp, Some(id), k)
    case Ship(t, k, id) => key == IdemKey(t, ShipOp, Some(id), k)
    case Deliver(t, k, id) => key == IdemKey(t, DeliverOp, Some(id), k)
    case AdjustStock(t, k, _, _, _, _) => key == IdemKey(t, AdjustOp, None, k)
    case _ => false
  }

  /** Four calls insist on a key and two do without. Under a stored key a call is its stored reply, and
      changes nothing; otherwise its reply is stored, under its own key only, if and only if it has a
      key and is not rejected. */
  lemma {:induction false} CallKeys(s: State, a: Action, key: IdemKey)
    requires RunsUnder(a, key) && IsCall(a)
    ensures var r := Call(s, a);
            && (key.key == "" && (a.Create? || a.Confirm? || a.Ship? || a.Deliver?) ==>
                  r == Outcome(s, Rejected(BadRequest)))
            && (key.key != "" && key in s.idem ==> r == Outcome(s, s.idem[key]))
            && (key.key == "" || key !in s.idem ==>
                  r.state.idem == if key.key == "" || r.reply.Rejected? then s.idem else s.idem[key := r.reply])
  {
  }

  /** The call has a key, if it must, and no reply is stored under it. */
  predicate Fresh(s: State, a: Action, key: IdemKey) {
    && RunsUnder(a, key) && IsCall(a) && key !in s.idem
    && (a.Create? || a.Confirm? || a.Ship? || a.Deliver? ==> key.key != "")
  }

  /** The rest of the store is as it was. */
  predicate Unmoved(s: State, t: State) {
    t.stock == s.stock && t.log == s.log && t.processed == s.processed
  }

  lemma {:induction false} CreateCall(s: State, tenant: Tenant, key: string, customer: string, items: seq<Item>)
    requires Fresh(s, Create(tenant, key, customer, items), IdemKey(tenant, CreateOp, None, key))
    ensures var r, id := Call(s, Create(tenant, key, customer, items)), |s.orders|;
            && (items == [] <==> r.reply.Rejected?)
            && (items == [] ==> r == Outcome(s, Rejected(BadRequest)))
            && (items != [] ==>
                  && r.reply == Created(id, customer, items) && Unmoved(s, r.state)
                  && r.state.orders == s.orders + [Order(tenant, customer, items, CREATED, None, false)]
                  && r.state.outbox == s.outbox + [Event(OrderCreated, tenant, id, None)])
  {
  }

  /** confirmOrder: the three refusals, in their order of precedence, and otherwise the sale: the pieces
      leave `reservedQty`, and the total, the outbox row and the reply carry the order's own figures. */
  lemma {:induction false} ConfirmCall(s: State, tenant: Tenant, key: string, id: nat)
    requires Fresh(s, Confirm(tenant, key, id), IdemKey(tenant, ConfirmOp, Some(id), key))
    ensures var r := Call(s, Confirm(tenant, key, id));
            && (r.reply == Rejected(NotFound) <==> !Known(s, tenant, id))
            && (r.reply == Rejected(Conflict) <==> Known(s, tenant, id) && s.orders[id].status != RESERVED)
            && (r.reply.Rejected? ==> r.state == s)
            && (Known(s, tenant, id) && s.orders[id].status == RESERVED ==>
                  var order := s.orders[id];
                  && (r.reply == Rejected(Internal) <==> !RowsExist(s.stock, order))
                  && (RowsExist(s.stock, order) ==>
                        && r.reply == StatusOf(id, CONFIRMED)
                        && OnlyOrder(s, r.state, id, Order(tenant, order.customer, order.items, CONFIRMED,
                                                           Some(Amount(order.items)), false))
                        && StockMoves(s, r.state, order, 0, -1)
                        && r.state.log == s.log && r.state.processed == s.processed
                        && r.state.outbox == s.outbox + [Event(OrderConfirmed, tenant, id,
                             Some(Invoice(order.customer, order.items, Amount(order.items))))]))
  {
    if Known(s, tenant, id) && HasRows(s.stock, tenant, s.orders[id].items) {
      ShiftLevels(s.stock, tenant, s.orders[id].items, Commit);
    }
  }

  /** A call that moves an order's status: refused with NotFound or Conflict, and otherwise announced
      and answered with the new status. Nothing else of the order changes, and no stock. */
  ghost predicate MovesStatus(s: State, r: Outcome, tenant: Tenant, id: nat, allowed: set<Status>, status: Status,
          topic: Topic) {
    && (r.reply == Rejected(NotFound) <==> !Known(s, tenant, id))
    && (r.reply == Rejected(Conflict) <==> Known(s, tenant, id) && s.orders[id].status !in allowed)
    && (r.reply.Rejected? ==> r.state == s)
    && (Known(s, tenant, id) && s.orders[id].status in allowed ==>
          var order := s.orders[id];
          && r.reply == StatusOf(id, status) && Unmoved(s, r.state)
          && OnlyOrder(s, r.state, id, Order(tenant, order.customer, order.items, status, order.total, order.held))
          && r.state.outbox == s.outbox + [Event(topic, tenant, id, None)])
  }

  lemma {:induction false} CancelCall(s: State, tenant: Tenant, key: string, id: nat)
    requires key == "" || Fresh(s, Cancel(tenant, key, id), IdemKey(tenant, CancelOp, Some(id), key))
    ensures MovesStatus(s, Call(s, Cancel(tenant, key, id)), tenant, id, {CREATED, RESERVED, CONFIRMED}, CANCELLED,
                        OrderCancelled)
  {
  }

  lemma {:induction false} ShipCall(s: State, tenant: Tenant, key: string, id: nat)
    requires Fresh(s, Ship(tenant, key, id), IdemKey(tenant, ShipOp, Some(id), key))
    ensures MovesStatus(s, Call(s, Ship(tenant, key, id)), tenant, id, {PAID}, SHIPPED, OrderShipped)
  {
  }

  lemma {:induction false} DeliverCall(s: State, tenant: Tenant, key: string, id: nat)
    requires Fresh(s, Deliver(tenant, key, id), IdemKey(tenant, DeliverOp, Some(id), key))
    ensures MovesStatus(s, Call(s, Deliver(tenant, key, id)), tenant, id, {SHIPPED}, DELIVERED, OrderDelivered)
  {
  }

  /** createAdjustment: OUT is refused when the row is missing or holds too little; otherwise IN adds,
      OUT takes away and ADJUSTMENT sets. A missing row counts as zero, and `reservedQty` stays. */
  lemma {:induction false} AdjustCall(s: State, tenant: Tenant, key: string, sku: Sku, kind: Kind, qty: nat,
          reason: string)
    requires key == "" ||
             Fresh(s, AdjustStock(tenant, key, sku, kind, qty, reason), IdemKey(tenant, AdjustOp, None, key))
    ensures var r, row := Call(s, AdjustStock(tenant, key, sku, kind, qty, reason)), Key(tenant, sku);
            && (r.reply == Rejected(NotFound) <==> kind == OUT && row !in s.stock)
            && (r.reply == Rejected(Conflict) <==> kind == OUT && row in s.stock && s.stock[row].available < qty)
            && (r.reply.Rejected? ==> r.state == s && r.reply.error in {NotFound, Conflict})
            && (!r.reply.Rejected? ==>
                  && Sets(s.stock, r.state.stock, row, kind, qty)
                  && r.state.orders == s.orders && r.state.outbox == s.outbox && r.state.processed == s.processed
                  && var delta := r.state.stock[row].available - (if row in s.stock then s.stock[row].available else 0);
                     var entry := Adjustment(tenant, sku, kind, qty, reason, key, delta);
                     r.reply == Logged(entry) && r.state.log == s.log + [entry])
  {
  }
}
