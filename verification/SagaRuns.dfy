/** Short runs, each an instance of what the saga does not guarantee. */
module SagaRuns {
  import opened Wrappers
  import opened Inventory
  import opened Saga
  import opened SagaOnce
  import opened SagaLeaks

  // ---------------------------------------------------------------- one order for one SKU

  const CREATED_ROW := Event(OrderCreated, "t", 0, None)
  const ROW := Key("t", "a")

  function Opening(n: nat, items: seq<Item>): seq<Action> {
    [AdjustStock("t", "", "a", IN, n, ""), Create("t", "k", "c", items), Receive(CREATED_ROW, false)]
  }

  /** The state once `n` pieces are in stock and one order for them is placed. */
  function Placed(n: nat, items: seq<Item>): State {
    State([Order("t", "c", items, CREATED, None, false)],
          map[ROW := Level(n, 0)],
          [Adjustment("t", "a", IN, n, "", "", n)],
          [CREATED_ROW],
          {},
          map[IdemKey("t", CreateOp, None, "k") := Created(0, "c", items)])
  }

  lemma {:induction false} PlaceOne(n: nat, items: seq<Item>)
    requires items != []
    ensures Step(Step(EMPTY, Opening(n, items)[0]), Opening(n, items)[1]) == Placed(n, items)
  {
  }

  /** Every item is of the one SKU, and not of more than `n` pieces. */
  predicate AllUpTo(items: seq<Item>, n: int) {
    forall i :: 0 <= i < |items| ==> items[i].sku == "a" && items[i].qty <= n
  }

  /** Handling order.created for the one order there is. */
  lemma {:induction false} TakeOne(s: State, level: Level)
    requires |s.orders| == 1 && s.orders[0].tenant == "t" && CREATED_ROW in s.outbox && s.stock == map[ROW := level]
    requires AllUpTo(s.orders[0].items, level.available)
    requires (OrderCreated, 0) !in s.processed
    ensures var t, demand := Step(s, Receive(CREATED_ROW, false)), Demand(s.orders[0].items, "a");
            && t.stock == map[ROW := Level(level.available - demand, level.reserved + demand)]
            && t.orders == [s.orders[0].(status := RESERVED, held := true)]
            && CREATED_ROW in t.outbox
  {
    var marked := s.(processed := s.processed + {(OrderCreated, 0)});
    assert Step(s, Receive(CREATED_ROW, false)) == HandleCreated(marked, "t", 0);
    assert Covered(s.stock, "t", s.orders[0].items);
  }

  lemma {:induction false} ExecTwo(s: State, run: seq<Action>, a: Action, b: Action)
    ensures Exec(s, run + [a, b]) == Step(Step(Exec(s, run), a), b)
  {
    assert run + [a, b] == run + [a] + [b];
    ExecSnoc(s, run, a);
    ExecSnoc(s, run + [a], b);
  }

  lemma {:induction false} OpeningRun(n: nat, items: seq<Item>)
    requires items != []
    ensures Exec(EMPTY, Opening(n, items)) == Step(Placed(n, items), Receive(CREATED_ROW, false))
  {
    var run := Opening(n, items);
    ExecTwo(EMPTY, [], run[0], run[1]);
    ExecSnoc(EMPTY, [] + [run[0], run[1]], run[2]);
    assert run == [] + [run[0], run[1]] + [run[2]];
    PlaceOne(n, items);
  }

  /** The order is reserved, once. */
  lemma {:induction false} OpeningCounts(n: nat, items: seq<Item>)
    requires items != [] && AllUpTo(items, n)
    ensures Count(Exec(EMPTY, Opening(n, items)).outbox, StockReserved, 0) >= 1
  {
    OpeningRun(n, items);
    StepAdds(Placed(n, items), Receive(CREATED_ROW, false), OrderCreated, 0);
  }

  lemma {:induction false} OpeningTaken(n: nat, items: seq<Item>)
    requires items != [] && AllUpTo(items, n)
    ensures var s, demand := Exec(EMPTY, Opening(n, items)), Demand(items, "a");
            && s.stock == map[ROW := Level(n - demand, demand)]
            && s.orders == [Order("t", "c", items, RESERVED, None, true)]
            && CREATED_ROW in s.outbox
  {
    OpeningRun(n, items);
    TakeOne(Placed(n, items), Level(n, 0));
  }

  /** The one order there is, and the level of its row. */
  predicate OneOrder(s: State, level: Level) {
    |s.orders| == 1 && s.orders[0].tenant == "t" && CREATED_ROW in s.outbox && s.stock == map[ROW := level]
  }

  lemma {:induction false} TakenAgain(s: State, level: Level)
    requires OneOrder(s, level) && AllUpTo(s.orders[0].items, level.available) && (OrderCreated, 0) !in s.processed
    ensures var t, demand := Step(s, Receive(CREATED_ROW, false)), Demand(s.orders[0].items, "a");
            && LevelOf(t.stock, ROW) == Level(level.available - demand, level.reserved + demand)
            && Adds(s, t, StockReserved, 0, 1)
  {
    TakeOne(s, level);
    StepAdds(s, Receive(CREATED_ROW, false), OrderCreated, 0);
    assert Covered(s.stock, "t", s.orders[0].items);
  }

  /** What expiry allows after any run: the order is reserved again. */
  lemma {:induction false} ReservedAgain(run: seq<Action>, level: Level)
    requires OneOrder(Exec(EMPTY, run), level) && AllUpTo(Exec(EMPTY, run).orders[0].items, level.available)
    ensures var again := run + [ForgetProcessed(OrderCreated, 0), Receive(CREATED_ROW, false)];
            var s, t := Exec(EMPTY, run), Exec(EMPTY, again);
            var demand := Demand(s.orders[0].items, "a");
            && LevelOf(t.stock, ROW) == Level(level.available - demand, level.reserved + demand)
            && Count(t.outbox, StockReserved, 0) == Count(s.outbox, StockReserved, 0) + 1
  {
    ExecTwo(EMPTY, run, ForgetProcessed(OrderCreated, 0), Receive(CREATED_ROW, false));
    var s := Exec(EMPTY, run);
    TakenAgain(s.(processed := s.processed - {(OrderCreated, 0)}), level);
  }

  lemma {:induction false} OnePiece()
    ensures Demand([Item("a", 1, 5)], "a") == 1 && AllUpTo([Item("a", 1, 5)], 1)
  {
    assert [Item("a", 1, 5)][..0] == [];
  }

  /** A run of the kind `ReservedTwiceIff` describes: an order is reserved twice, and one order for one
      piece takes two. */
  lemma {:induction false} ReservedTwiceAfterExpiry()
    ensures var run := Opening(2, [Item("a", 1, 5)]) + [ForgetProcessed(OrderCreated, 0), Receive(CREATED_ROW, false)];
            Count(Exec(EMPTY, run).outbox, StockReserved, 0) >= 2 && LevelOf(Exec(EMPTY, run).stock, ROW) == Level(0, 2)
  {
    var items := [Item("a", 1, 5)];
    OnePiece();
    OpeningTaken(2, items);
    OpeningCounts(2, items);
    ReservedAgain(Opening(2, items), Level(1, 1));
  }

  lemma {:induction false} TwoPieces()
    ensures Demand([Item("a", 1, 5), Item("a", 1, 5)], "a") == 2
  {
    var items := [Item("a", 1, 5), Item("a", 1, 5)];
    assert items[..|items| - 1] == [Item("a", 1, 5)] && items[|items| - 1] == Item("a", 1, 5);
    OnePiece();
  }

  /** A run of the kind `OversoldIff` describes: an order that lists a SKU twice passes the test item by
      item and oversells it. */
  lemma {:induction false} OversoldByRepeatedSku()
    ensures LevelOf(Exec(EMPTY, Opening(1, [Item("a", 1, 5), Item("a", 1, 5)])).stock, ROW) == Level(-1, 2)
  {
    TwoPieces();
    OpeningTaken(1, [Item("a", 1, 5), Item("a", 1, 5)]);
  }

  // ---------------------------------------------------------------- leaks

  lemma {:induction false} CancelLeaves(run: seq<Action>, level: Level)
    requires OneOrder(Exec(EMPTY, run), level)
    requires Exec(EMPTY, run).orders[0].status == RESERVED && Exec(EMPTY, run).orders[0].held
    ensures var t := Exec(EMPTY, run + [Cancel("t", "", 0)]);
            Leaked(t, 0) && LevelOf(t.stock, ROW) == level
  {
    ExecSnoc(EMPTY, run, Cancel("t", "", 0));
  }

  /** A run of the kind `LeakedIff` describes: the API cancels a RESERVED order. */
  lemma {:induction false} LeakedByCancel()
    ensures var t := Exec(EMPTY, Opening(1, [Item("a", 1, 5)]) + [Cancel("t", "", 0)]);
            Leaked(t, 0) && LevelOf(t.stock, ROW) == Level(0, 1)
  {
    OnePiece();
    OpeningTaken(1, [Item("a", 1, 5)]);
    CancelLeaves(Opening(1, [Item("a", 1, 5)]), Level(0, 1));
  }

  lemma {:induction false} RefusalLeaves(run: seq<Action>, level: Level)
    requires OneOrder(Exec(EMPTY, run), level) && level.available == 0
    requires var o := Exec(EMPTY, run).orders[0]; o.status == RESERVED && o.held && o.items == [Item("a", 1, 5)]
    ensures var t := Exec(EMPTY, run + [ForgetProcessed(OrderCreated, 0), Receive(CREATED_ROW, false)]);
            Leaked(t, 0) && LevelOf(t.stock, ROW) == level
  {
    ExecTwo(EMPTY, run, ForgetProcessed(OrderCreated, 0), Receive(CREATED_ROW, false));
    var s := Exec(EMPTY, run);
    RefusedLeak(s.(processed := s.processed - {(OrderCreated, 0)}), level);
  }

  lemma {:induction false} RefusedLeak(s: State, level: Level)
    requires OneOrder(s, level) && level.available == 0 && (OrderCreated, 0) !in s.processed
    requires s.orders[0].status == RESERVED && s.orders[0].held && s.orders[0].items == [Item("a", 1, 5)]
    ensures var t := Step(s, Receive(CREATED_ROW, false));
            Leaked(t, 0) && t.stock == s.stock
  {
    assert s.orders[0].items[0] == Item("a", 1, 5);
    assert !Covered(s.stock, "t", s.orders[0].items);
  }

  /** Another run of that kind, without any cancelOrder: a redelivered order.created finds the RESERVED
      order without stock. */
  lemma {:induction false} LeakedByRefusal()
    ensures var run := Opening(1, [Item("a", 1, 5)]) + [ForgetProcessed(OrderCreated, 0), Receive(CREATED_ROW, false)];
            Leaked(Exec(EMPTY, run), 0) && LevelOf(Exec(EMPTY, run).stock, ROW) == Level(0, 1)
  {
    OnePiece();
    OpeningTaken(1, [Item("a", 1, 5)]);
    RefusalLeaves(Opening(1, [Item("a", 1, 5)]), Level(0, 1));
  }

  // ---------------------------------------------------------------- a key set by another tenant

  lemma {:induction false} SettleSets(run: seq<Action>)
    ensures (PaymentSettled, 0) in Exec(EMPTY, run + [Settle("u", 0, false)]).processed
  {
    ExecSnoc(EMPTY, run, Settle("u", 0, false));
  }

  lemma {:induction false} PlacedRun(n: nat, items: seq<Item>)
    requires items != []
    ensures Exec(EMPTY, Opening(n, items)[..2]) == Placed(n, items)
  {
    var opening := Opening(n, items);
    PlaceOne(n, items);
    ExecTwo(EMPTY, [], opening[0], opening[1]);
    assert [] + [opening[0], opening[1]] == opening[..2];
  }

  /** A run of the kind `ForeignKeysIff` describes: tenant "u" names the order of tenant "t". */
  lemma {:induction false} ForeignKeySet()
    ensures var run := Opening(1, [Item("a", 1, 5)])[..2];
            var s, t := Exec(EMPTY, run), Exec(EMPTY, run + [Settle("u", 0, false)]);
            && |s.orders| == 1 && s.orders[0].tenant == "t"
            && (PaymentSettled, 0) !in s.processed && (PaymentSettled, 0) in t.processed
  {
    PlacedRun(1, [Item("a", 1, 5)]);
    SettleSets(Opening(1, [Item("a", 1, 5)])[..2]);
  }

  // ---------------------------------------------------------------- a cancellation that arrives late

  const CANCELLED_ROW := Event(OrderCancelled, "t", 0, None)
  const CONFIRMED_ROW := Event(OrderConfirmed, "t", 0, Some(Invoice("c", [Item("a", 1, 5)], 5)))

  /** One order for one piece, the calls made so far and the keys set so far. */
  ghost predicate Late(s: State, status: Status, calls: set<Operation>, seen: set<Topic>) {
    && |s.orders| == 1 && s.orders[0].tenant == "t" && s.orders[0].customer == "c"
    && s.orders[0].items == [Item("a", 1, 5)]
    && s.orders[0].status == status && ROW in s.stock && CREATED_ROW in s.outbox
    && (forall key :: key in s.idem ==> key.operation in calls)
    && (forall topic :: (topic, 0) in s.processed ==> topic in seen)
  }

  lemma {:induction false} LateCancel(s: State)
    requires Late(s, CREATED, {CreateOp}, {})
    ensures var t := Step(s, Cancel("t", "", 0));
            Late(t, CANCELLED, {CreateOp}, {}) && CANCELLED_ROW in t.outbox && t.stock == s.stock
  {
    assert Step(s, Cancel("t", "", 0)).outbox == s.outbox + [CANCELLED_ROW];
  }

  lemma {:induction false} LateReserve(s: State)
    requires Late(s, CANCELLED, {CreateOp}, {}) && s.stock[ROW].available >= 1
    ensures var t := Step(s, Receive(CREATED_ROW, false));
            Late(t, RESERVED, {CreateOp}, {OrderCreated}) && t.outbox == s.outbox + [Event(StockReserved, "t", 0, None)]
  {
    assert Covered(s.stock, "t", s.orders[0].items);
  }

  lemma {:induction false} LateConfirm(s: State)
    requires Late(s, RESERVED, {CreateOp}, {OrderCreated})
    ensures var t := Step(s, Confirm("t", "k", 0));
            && Late(t, CONFIRMED, {CreateOp, ConfirmOp}, {OrderCreated})
            && s.outbox <= t.outbox && CONFIRMED_ROW in t.outbox
  {
    OneAmount();
    assert HasRows(s.stock, "t", s.orders[0].items);
    assert Step(s, Confirm("t", "k", 0)).outbox == s.outbox + [CONFIRMED_ROW];
  }

  lemma {:induction false} OneAmount()
    ensures Amount([Item("a", 1, 5)]) == 5
  {
    assert [Item("a", 1, 5)][..0] == [];
  }

  lemma {:induction false} LatePay(s: State)
    requires Late(s, CONFIRMED, {CreateOp, ConfirmOp}, {OrderCreated})
    ensures var t := Step(s, Settle("t", 0, false));
            Late(t, PAID, {CreateOp, ConfirmOp}, {OrderCreated, PaymentSettled}) && s.outbox <= t.outbox
  {
  }

  lemma {:induction false} LateShip(s: State)
    requires Late(s, PAID, {CreateOp, ConfirmOp}, {OrderCreated, PaymentSettled})
    ensures var t := Step(s, Ship("t", "k", 0));
            Late(t, SHIPPED, {CreateOp, ConfirmOp, ShipOp}, {OrderCreated, PaymentSettled}) && s.outbox <= t.outbox
  {
  }

  lemma {:induction false} LateArrival(s: State)
    requires Late(s, SHIPPED, {CreateOp, ConfirmOp, ShipOp}, {OrderCreated, PaymentSettled})
    requires CANCELLED_ROW in s.outbox
    ensures var t := Step(s, Receive(CANCELLED_ROW, false));
            |t.orders| == 1 && t.orders[0].status == CANCELLED
  {
  }

  predicate NothingExpires(run: seq<Action>) {
    forall i :: 0 <= i < |run| ==> !run[i].ForgetProcessed? && !run[i].ForgetReply?
  }

  lemma {:induction false} UpToPlaced() returns (run: seq<Action>)
    ensures NothingExpires(run) && Late(Exec(EMPTY, run), CREATED, {CreateOp}, {})
    ensures Exec(EMPTY, run).stock[ROW].available >= 1
  {
    run := Opening(1, [Item("a", 1, 5)])[..2];
    PlacedRun(1, [Item("a", 1, 5)]);
  }

  lemma {:induction false} UpToCancelled() returns (run: seq<Action>)
    ensures NothingExpires(run) && CANCELLED_ROW in Exec(EMPTY, run).outbox
    ensures Late(Exec(EMPTY, run), CANCELLED, {CreateOp}, {}) && Exec(EMPTY, run).stock[ROW].available >= 1
  {
    var before := UpToPlaced();
    run := before + [Cancel("t", "", 0)];
    ExecSnoc(EMPTY, before, Cancel("t", "", 0));
    LateCancel(Exec(EMPTY, before));
  }

  lemma {:induction false} UpToReserved() returns (run: seq<Action>)
    ensures NothingExpires(run) && CANCELLED_ROW in Exec(EMPTY, run).outbox
    ensures Late(Exec(EMPTY, run), RESERVED, {CreateOp}, {OrderCreated})
  {
    var before := UpToCancelled();
    run := before + [Receive(CREATED_ROW, false)];
    ExecSnoc(EMPTY, before, Receive(CREATED_ROW, false));
    LateReserve(Exec(EMPTY, before));
  }

  lemma {:induction false} UpToConfirmed() returns (run: seq<Action>)
    ensures NothingExpires(run) && CANCELLED_ROW in Exec(EMPTY, run).outbox && CONFIRMED_ROW in Exec(EMPTY, run).outbox
    ensures Late(Exec(EMPTY, run), CONFIRMED, {CreateOp, ConfirmOp}, {OrderCreated})
  {
    var before := UpToReserved();
    run := before + [Confirm("t", "k", 0)];
    ExecSnoc(EMPTY, before, Confirm("t", "k", 0));
    LateConfirm(Exec(EMPTY, before));
  }

  lemma {:induction false} UpToPaid() returns (run: seq<Action>)
    ensures NothingExpires(run) && CANCELLED_ROW in Exec(EMPTY, run).outbox
    ensures Late(Exec(EMPTY, run), PAID, {CreateOp, ConfirmOp}, {OrderCreated, PaymentSettled})
  {
    var before := UpToConfirmed();
    run := before + [Settle("t", 0, false)];
    ExecSnoc(EMPTY, before, Settle("t", 0, false));
    LatePay(Exec(EMPTY, before));
  }

  lemma {:induction false} UpToShipped() returns (run: seq<Action>)
    ensures NothingExpires(run) && CANCELLED_ROW in Exec(EMPTY, run).outbox
    ensures Late(Exec(EMPTY, run), SHIPPED, {CreateOp, ConfirmOp, ShipOp}, {OrderCreated, PaymentSettled})
  {
    var before := UpToPaid();
    run := before + [Ship("t", "k", 0)];
    ExecSnoc(EMPTY, before, Ship("t", "k", 0));
    LateShip(Exec(EMPTY, before));
  }

  /** No key expires, and yet a shipped order ends CANCELLED: it was cancelled before its order.created
      was handled, which reserved it nevertheless; it was confirmed, paid and shipped; and only then
      its order.cancelled arrives. */
  lemma {:induction false} ShippedThenCancelled() returns (run: seq<Action>, last: Action)
    ensures NothingExpires(run + [last])
    ensures |Exec(EMPTY, run).orders| == 1 && Exec(EMPTY, run).orders[0].status == SHIPPED
    ensures |Step(Exec(EMPTY, run), last).orders| == 1 && Step(Exec(EMPTY, run), last).orders[0].status == CANCELLED
  {
    run := UpToShipped();
    last := Receive(CANCELLED_ROW, false);
    LateArrival(Exec(EMPTY, run));
  }

  lemma {:induction false} LateDeliver(s: State)
    requires Late(s, SHIPPED, {CreateOp, ConfirmOp, ShipOp}, {OrderCreated, PaymentSettled})
    ensures var t := Step(s, Deliver("t", "k", 0));
            && |t.orders| == 1 && t.orders[0].status == DELIVERED && t.stock == s.stock
            && t.outbox == s.outbox + [Event(OrderDelivered, "t", 0, None)]
  {
  }

  /** As long as that order.cancelled stays away the order can be delivered: every status is reached, and
      no key has expired. */
  lemma {:induction false} Delivered() returns (run: seq<Action>)
    ensures NothingExpires(run)
    ensures |Exec(EMPTY, run).orders| == 1 && Exec(EMPTY, run).orders[0].status == DELIVERED
    ensures Event(OrderDelivered, "t", 0, None) in Exec(EMPTY, run).outbox
  {
    var before := UpToShipped();
    run := before + [Deliver("t", "k", 0)];
    ExecSnoc(EMPTY, before, Deliver("t", "k", 0));
    LateDeliver(Exec(EMPTY, before));
  }

  // ---------------------------------------------------------------- a second charge

  lemma {:induction false} ChargesOnce(s: State)
    requires |s.orders| == 1 && s.orders[0].tenant == "t" && s.orders[0].status == CONFIRMED
    requires CONFIRMED_ROW in s.outbox && (OrderConfirmed, 0) !in s.processed
    ensures var t := Step(s, Receive(CONFIRMED_ROW, false));
            && Adds(s, t, ChargeRequested, 0, 1) && t.orders == s.orders && CONFIRMED_ROW in t.outbox
  {
    StepAdds(s, Receive(CONFIRMED_ROW, false), OrderConfirmed, 0);
  }

  lemma {:induction false} ChargesAgain(s: State)
    requires |s.orders| == 1 && s.orders[0].tenant == "t" && s.orders[0].status == CONFIRMED
    requires CONFIRMED_ROW in s.outbox && (OrderConfirmed, 0) !in s.processed
    ensures var again := [Receive(CONFIRMED_ROW, false), ForgetProcessed(OrderConfirmed, 0)];
            Adds(s, Step(Exec(s, again), Receive(CONFIRMED_ROW, false)), ChargeRequested, 0, 2)
  {
    var t := Step(s, Receive(CONFIRMED_ROW, false));
    ChargesOnce(s);
    ChargesOnce(t.(processed := t.processed - {(OrderConfirmed, 0)}));
    ExecTwo(s, [], Receive(CONFIRMED_ROW, false), ForgetProcessed(OrderConfirmed, 0));
    assert [] + [Receive(CONFIRMED_ROW, false), ForgetProcessed(OrderConfirmed, 0)]
        == [Receive(CONFIRMED_ROW, false), ForgetProcessed(OrderConfirmed, 0)];
  }

  /** A run of the kind `ChargedTwiceIff` describes: a single key expires, and an order is charged twice. */
  lemma {:induction false} ChargedTwiceAfterExpiry() returns (before: seq<Action>)
    ensures NothingExpires(before)
    ensures var charge := Receive(CONFIRMED_ROW, false);
            var again := [charge, ForgetProcessed(OrderConfirmed, 0)] + [charge];
            Count(Exec(EMPTY, before + again).outbox, ChargeRequested, 0) >= 2
  {
    before := UpToConfirmed();
    var again := [Receive(CONFIRMED_ROW, false), ForgetProcessed(OrderConfirmed, 0)];
    ChargesAgain(Exec(EMPTY, before));
    ExecConcat(EMPTY, before, again + [Receive(CONFIRMED_ROW, false)]);
    ExecSnoc(Exec(EMPTY, before), again, Receive(CONFIRMED_ROW, false));
  }
}
