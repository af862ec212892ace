/** The services and the worker over one mutable store: each method changes the store in place, as
    the code does, and does exactly the saga's step. A transaction that fails restores what it
    changed. */
module SagaService {
  import opened Wrappers
  import opened Inventory
  import opened Saga
  import opened SagaOutcomes
  import opened Import

  class Store {
    var orders: seq<Order>
    var stock: Stock
    var log: seq<Adjustment>
    var outbox: seq<Event>
    var processed: set<(Topic, nat)>
    var idem: map<IdemKey, Reply>

    function Now(): State
      reads this
    {
      State(orders, stock, log, outbox, processed, idem)
    }

    constructor ()
      ensures Now() == EMPTY
    {
      orders, stock, log, outbox, processed, idem := [], map[], [], [], {}, map[];
    }

    method IdemGet(key: IdemKey) returns (hit: Option<Reply>)
      ensures hit == if key in idem then Some(idem[key]) else None
    {
      hit := if key in idem then Some(idem[key]) else None;
    }

    method IdemSet(key: IdemKey, reply: Reply)
      modifies `idem
      ensures idem == old(idem)[key := reply]
    {
      idem := idem[key := reply];
    }

    method FindOrder(tenant: Tenant, id: nat) returns (found: Option<Order>)
      ensures found == Find(Now(), tenant, id)
    {
      found := Find(Now(), tenant, id);
    }

    // -------------------------------------------------------------- orders

    method CreateOrder(tenant: Tenant, key: string, customer: string, items: seq<Item>) returns (reply: Reply)
      modifies this
      ensures Outcome(Now(), reply) == Call(old(Now()), Create(tenant, key, customer, items))
    {
      if key == "" {
        return Rejected(BadRequest);
      }
      var idemKey := IdemKey(tenant, CreateOp, None, key);
      var hit := IdemGet(idemKey);
      if hit.Some? {
        return hit.value;
      }
      if |items| == 0 {
        return Rejected(BadRequest);
      }
      var id := |orders|;
      orders := orders + [Order(tenant, customer, items, CREATED, None, false)];
      outbox := outbox + [Event(OrderCreated, tenant, id, None)];
      reply := Created(id, customer, items);
      IdemSet(idemKey, reply);
    }

    /** The loop the confirmation, the reservation and the release share: one row update per item. */
    method MoveItems(tenant: Tenant, items: seq<Item>, move: Move) returns (ok: bool)
      modifies `stock
      ensures ok == HasRows(old(stock), tenant, items)
      ensures stock == if ok then Shift(old(stock), tenant, items, move) else old(stock)
    {
      var before := stock;
      ShiftNone(stock, tenant, move);
      var i := 0;
      while i < |items|
        invariant i <= |items|
        invariant HasRows(before, tenant, items[..i])
        invariant items[..0] == [] && stock == Shift(before, tenant, items[..i], move)
      {
        var key := Key(tenant, items[i].sku);
        if key !in stock {
          stock := before;
          return false;
        }
        ShiftSnoc(before, tenant, items[..i], items[i], move);
        assert items[..i + 1] == items[..i] + [items[i]];
        stock := stock[key := Moved(stock[key], move, items[i].qty)];
        i := i + 1;
      }
      assert items[..|items|] == items;
      return true;
    }

    method Total(items: seq<Item>) returns (sum: nat)
      ensures sum == Amount(items)
    {
      sum := 0;
      var i := 0;
      while i < |items|
        invariant i <= |items| && sum == Amount(items[..i])
      {
        assert items[..i + 1][..i] == items[..i];
        sum := sum + items[i].price * items[i].qty;
        i := i + 1;
      }
      assert items[..|items|] == items;
    }

    method ConfirmOrder(tenant: Tenant, key: string, id: nat) returns (reply: Reply)
      modifies this
      ensures Outcome(Now(), reply) == Call(old(Now()), Confirm(tenant, key, id))
    {
      if key == "" {
        return Rejected(BadRequest);
      }
      var idemKey := IdemKey(tenant, ConfirmOp, Some(id), key);
      var hit := IdemGet(idemKey);
      if hit.Some? {
        return hit.value;
      }
      var found := FindOrder(tenant, id);
      if found.None? {
        return Rejected(NotFound);
      }
      var order := found.value;
      if order.status != RESERVED {
        return Rejected(Conflict);
      }
      var total := Total(order.items);
      var ok := MoveItems(tenant, order.items, Commit);
      if !ok {
        return Rejected(Internal);
      }
      orders := orders[id := order.(status := CONFIRMED, total := Some(total), held := false)];
      outbox := outbox + [Event(OrderConfirmed, tenant, id, Some(Invoice(order.customer, order.items, total)))];
      reply := StatusOf(id, CONFIRMED);
      IdemSet(idemKey, reply);
    }

    method CancelOrder(tenant: Tenant, key: string, id: nat) returns (reply: Reply)
      modifies this
      ensures Outcome(Now(), reply) == Call(old(Now()), Cancel(tenant, key, id))
    {
      var idemKey := IdemKey(tenant, CancelOp, Some(id), key);
      if key != "" {
        var hit := IdemGet(idemKey);
        if hit.Some? {
          return hit.value;
        }
      }
      var found := FindOrder(tenant, id);
      if found.None? {
        return Rejected(NotFound);
      }
      if found.value.status !in [CREATED, RESERVED, CONFIRMED] {
        return Rejected(Conflict);
      }
      orders := orders[id := found.value.(status := CANCELLED)];
      outbox := outbox + [Event(OrderCancelled, tenant, id, None)];
      reply := StatusOf(id, CANCELLED);
      if key != "" {
        IdemSet(idemKey, reply);
      }
    }

    method ShipOrder(tenant: Tenant, key: string, id: nat) returns (reply: Reply)
      modifies this
      ensures Outcome(Now(), reply) == Call(old(Now()), Ship(tenant, key, id))
    {
      if key == "" {
        return Rejected(BadRequest);
      }
      var idemKey := IdemKey(tenant, ShipOp, Some(id), key);
      var hit := IdemGet(idemKey);
      if hit.Some? {
        return hit.value;
      }
      var found := FindOrder(tenant, id);
      if found.None? {
        return Rejected(NotFound);
      }
      if found.value.status != PAID {
        return Rejected(Conflict);
      }
      orders := orders[id := found.value.(status := SHIPPED)];
      outbox := outbox + [Event(OrderShipped, tenant, id, None)];
      reply := StatusOf(id, SHIPPED);
      IdemSet(idemKey, reply);
    }

    method DeliverOrder(tenant: Tenant, key: string, id: nat) returns (reply: Reply)
      modifies this
      ensures Outcome(Now(), reply) == Call(old(Now()), Deliver(tenant, key, id))
    {
      if key == "" {
        return Rejected(BadRequest);
      }
      var idemKey := IdemKey(tenant, DeliverOp, Some(id), key);
      var hit := IdemGet(idemKey);
      if hit.Some? {
        return hit.value;
      }
      var found := FindOrder(tenant, id);
      if found.None? {
        return Rejected(NotFound);
      }
      if found.value.status != SHIPPED {
        return Rejected(Conflict);
      }
      orders := orders[id := found.value.(status := DELIVERED)];
      outbox := outbox + [Event(OrderDelivered, tenant, id, None)];
      reply := StatusOf(id, DELIVERED);
      IdemSet(idemKey, reply);
    }

    // -------------------------------------------------------------- inventory

    /** The transaction of one adjustment: the row is created at zero when it is missing, and the
        new level follows from the kind. Nothing changes on an error. */
    method ApplyAdjustment(tenant: Tenant, sku: Sku, kind: Kind, qty: nat, reason: string, idemKey: string)
            returns (r: Adjusted)
      modifies `stock, `log
      ensures r == Adjust(old(stock), tenant, sku, kind, qty, reason, idemKey)
      ensures r.Done? ==> stock == r.stock && log == old(log) + [r.entry]
      ensures r.Done? ==> Sets(old(stock), stock, Key(tenant, sku), kind, qty)
      ensures r == Refused(NotFound) <==> kind == OUT && Key(tenant, sku) !in old(stock)
      ensures r == Refused(Conflict) <==>
              kind == OUT && Key(tenant, sku) in old(stock) && old(stock)[Key(tenant, sku)].available < qty
      ensures r.Refused? ==> stock == old(stock) && log == old(log)
    {
      var key := Key(tenant, sku);
      var before := stock;
      if key !in stock {
        if kind == OUT {
          return Refused(NotFound);
        }
        stock := stock[key := Level(0, 0)];
      }
      var available := stock[key].available;
      match kind {
        case IN =>
          available := available + qty;
        case OUT =>
          if available < qty {
            stock := before;
            return Refused(Conflict);
          }
          available := available - qty;
        case ADJUSTMENT =>
          available := qty;
      }
      var entry := Adjustment(tenant, sku, kind, qty, reason, idemKey, available - stock[key].available);
      stock := stock[key := Level(available, stock[key].reserved)];
      log := log + [entry];
      assert stock == before[key := stock[key]];
      r := Done(stock, entry);
    }

    method CreateAdjustment(tenant: Tenant, key: string, sku: Sku, kind: Kind, qty: nat, reason: string)
            returns (reply: Reply)
      modifies this
      ensures Outcome(Now(), reply) == Call(old(Now()), AdjustStock(tenant, key, sku, kind, qty, reason))
    {
      var idemKey := IdemKey(tenant, AdjustOp, None, key);
      if key != "" {
        var hit := IdemGet(idemKey);
        if hit.Some? {
          return hit.value;
        }
      }
      var r := ApplyAdjustment(tenant, sku, kind, qty, reason, key);
      if r.Refused? {
        return Rejected(r.error);
      }
      reply := Logged(r.entry);
      if key != "" {
        IdemSet(idemKey, reply);
      }
    }

    // -------------------------------------------------------------- the worker

    /** Sets the deduplication key and tells whether it was there. */
    method IsAlreadyProcessed(topic: Topic, id: nat) returns (seen: bool)
      modifies `processed
      ensures seen == ((topic, id) in old(processed)) && processed == old(processed) + {(topic, id)}
    {
      seen := (topic, id) in processed;
      processed := processed + {(topic, id)};
    }

    /** Whether every item, taken by itself, is in stock. */
    method CheckItems(tenant: Tenant, items: seq<Item>) returns (ok: bool)
      ensures ok == Covered(stock, tenant, items)
    {
      var i := 0;
      while i < |items|
        invariant i <= |items| && Covered(stock, tenant, items[..i])
      {
        var key := Key(tenant, items[i].sku);
        if key !in stock || stock[key].available < items[i].qty {
          return false;
        }
        i := i + 1;
      }
      assert items[..|items|] == items;
      return true;
    }

    method OnCreated(tenant: Tenant, id: nat)
      modifies this
      ensures Now() == HandleCreated(old(Now()), tenant, id)
      ensures Known(old(Now()), tenant, id) ==> ReservedBy(old(Now()), Now(), id)
    {
      if Known(Now(), tenant, id) {
        CreatedOutcome(Now(), tenant, id);
      }
      var found := FindOrder(tenant, id);
      if found.None? {
        return;
      }
      var order := found.value;
      var covered := CheckItems(tenant, order.items);
      if !covered {
        orders := orders[id := order.(status := CANCELLED)];
        outbox := outbox + [Event(OrderCancelled, tenant, id, None)];
        return;
      }
      var ok := MoveItems(tenant, order.items, Reserve);
      orders := orders[id := order.(status := RESERVED, held := true)];
      outbox := outbox + [Event(StockReserved, tenant, id, None)];
    }

    method OnCancelled(tenant: Tenant, id: nat)
      modifies this
      ensures Now() == HandleCancelled(old(Now()), tenant, id)
      ensures Known(old(Now()), tenant, id) ==> CancelledBy(old(Now()), Now(), id)
    {
      if Known(Now(), tenant, id) {
        CancelledOutcome(Now(), tenant, id);
      }
      var found := FindOrder(tenant, id);
      if found.None? {
        return;
      }
      var order := found.value;
      assert outbox + [] == outbox;
      if order.status == RESERVED {
        var ok := MoveItems(tenant, order.items, Release);
        if !ok {
          return;
        }
        orders := orders[id := order.(status := CANCELLED, held := false)];
      } else {
        orders := orders[id := order.(status := CANCELLED)];
      }
    }

    method OnConfirmed(tenant: Tenant, id: nat, body: Option<Invoice>)
      modifies this
      ensures Now() == HandleConfirmed(old(Now()), tenant, id, body)
    {
      var found := FindOrder(tenant, id);
      if found.None? || found.value.status != CONFIRMED {
        return;
      }
      var order := found.value;
      var total := if body.Some? then body.value.total else 0;
      if total == 0 {
        total := Total(order.items);
      }
      var customer := if body.Some? then body.value.customer else "";
      if customer == "" {
        customer := order.customer;
      }
      var items := if body.Some? then body.value.items else order.items;
      outbox := outbox + [Event(ChargeRequested, tenant, id, Some(Invoice(customer, items, total)))];
    }

    /** The consumer of the order queue. `dies` is a handler that fails after the key was set. */
    method OnOrderMessage(e: Event, dies: bool)
      modifies this
      ensures Now() == Consume(old(Now()), e, dies)
    {
      var seen := IsAlreadyProcessed(e.topic, e.orderId);
      if seen {
        assert processed == old(processed);
        return;
      }
      if dies {
        return;
      }
      match e.topic {
        case OrderCreated => OnCreated(e.tenant, e.orderId);
        case OrderCancelled => OnCancelled(e.tenant, e.orderId);
        case OrderConfirmed => OnConfirmed(e.tenant, e.orderId, e.body);
        case _ =>
      }
    }

    /** The consumer of the payments queue. */
    method OnPaymentSettled(tenant: Tenant, id: nat, dies: bool)
      modifies this
      ensures Now() == ConsumeSettled(old(Now()), tenant, id, dies)
    {
      var seen := IsAlreadyProcessed(PaymentSettled, id);
      if seen {
        assert processed == old(processed);
        return;
      }
      if dies {
        return;
      }
      var found := FindOrder(tenant, id);
      if found.Some? && found.value.status == CONFIRMED {
        orders := orders[id := found.value.(status := PAID)];
      }
      assert outbox + [] == outbox;
    }

    // -------------------------------------------------------------- import

    /** The first half: every row is checked; the valid ones are kept, the others reported. */
    method CheckRows(rows: seq<Row>) returns (errors: seq<ImportError>, valid: seq<Row>)
      ensures errors == RowErrors(rows) && valid == ValidRows(rows)
    {
      errors, valid := [], [];
      var i := 0;
      while i < |rows|
        invariant i <= |rows| && errors == RowErrors(rows[..i]) && valid == ValidRows(rows[..i])
      {
        assert rows[..i + 1][..i] == rows[..i];
        var problems := Problems(rows[i]);
        if problems != [] {
          errors := errors + [ImportError(i + 1, problems)];
        } else {
          valid := valid + [rows[i]];
        }
        i := i + 1;
      }
      assert rows[..|rows|] == rows;
    }

    /** The second half: one transaction that applies the rows in turn, or none of them. */
    method ApplyRows(tenant: Tenant, rows: seq<Row>) returns (ok: bool)
      requires forall k :: 0 <= k < |rows| ==> Problems(rows[k]) == []
      modifies this
      ensures ok == AllAccepted(old(Now()), Adjusting(tenant, rows))
      ensures Now() == if ok then Exec(old(Now()), Adjusting(tenant, rows)) else old(Now())
    {
      var beforeStock, beforeLog := stock, log;
      ghost var states := [Now()];
      var i := 0;
      while i < |rows|
        invariant i <= |rows| && |states| == i + 1 && states[0] == old(Now()) && states[i] == Now()
        invariant Trace(tenant, rows, states)
        invariant orders == old(orders) && outbox == old(outbox) && processed == old(processed) && idem == old(idem)
      {
        var r := ApplyAdjustment(tenant, rows[i].sku, rows[i].kind.value, Quantity(rows[i]), Reason(rows[i]), "");
        if r.Refused? {
          TraceFails(tenant, rows, states);
          stock, log := beforeStock, beforeLog;
          return false;
        }
        TraceGrows(tenant, rows, states, Now());
        states := states + [Now()];
        i := i + 1;
      }
      TraceSucceeds(tenant, rows, states);
      return true;
    }

    method ImportInventory(tenant: Tenant, rows: seq<Row>) returns (r: ImportReply)
      modifies this
      ensures |rows| > 1000 ==> r == TooMany && Now() == old(Now())
      ensures |rows| <= 1000 && AllAccepted(old(Now()), Adjusting(tenant, ValidRows(rows))) ==>
                && r == Report(|rows|, |ValidRows(rows)|, RowErrors(rows))
                && Now() == Exec(old(Now()), Adjusting(tenant, ValidRows(rows)))
      ensures |rows| <= 1000 && !AllAccepted(old(Now()), Adjusting(tenant, ValidRows(rows))) ==>
                r == Report(|rows|, 0, RowErrors(rows) + [ImportError(0, [TransactionFailed])]) && Now() == old(Now())
    {
      if |rows| > MAX_IMPORT_ROWS {
        return TooMany;
      }
      var errors, valid := CheckRows(rows);
      var ok := ApplyRows(tenant, valid);
      if !ok {
        return Report(|rows|, 0, errors + [ImportError(0, [TransactionFailed])]);
      }
      return Report(|rows|, |valid|, errors);
    }
  }
}
