/** What an order went through, which figures it carries and what a repeated call does, over every
    run: no assumption about deduplication keys. */
module SagaPaths {
  import opened Wrappers
  import opened Inventory
  import opened Saga
  import opened SagaFigures
  import opened SagaOnce

  // ---------------------------------------------------------------- the path of an order

  /** The moves one step can make: anything may become RESERVED or CANCELLED, the rest is a chain. */
  predicate Follows(x: Status, y: Status) {
    || x == y || y == CANCELLED || y == RESERVED
    || (x == RESERVED && y == CONFIRMED) || (x == CONFIRMED && y == PAID)
    || (x == PAID && y == SHIPPED) || (x == SHIPPED && y == DELIVERED)
  }

  /** Orders stay, move along, and start as CREATED. */
  ghost predicate Progress(s: State, t: State) {
    && |s.orders| <= |t.orders|
    && (forall id :: 0 <= id < |s.orders| ==> Follows(s.orders[id].status, t.orders[id].status))
    && (forall id :: |s.orders| <= id < |t.orders| ==> t.orders[id].status == CREATED)
  }

  lemma {:induction false} AdvanceProgress(s: State, tenant: Tenant, id: nat, from: Status -> bool, to: Status,
          topic: Topic)
    requires forall st :: from(st) ==> Follows(st, to)
    ensures Progress(s, Advance(s, tenant, id, from, to, topic).state)
  {
  }

  lemma {:induction false} CallProgress(s: State, a: Action)
    requires IsCall(a)
    ensures Progress(s, Call(s, a).state)
  {
    match a
    case Cancel(t, _, id) => AdvanceProgress(s, t, id, Cancellable, CANCELLED, OrderCancelled);
    case Ship(t, _, id) => AdvanceProgress(s, t, id, IsPaid, SHIPPED, OrderShipped);
    case Deliver(t, _, id) => AdvanceProgress(s, t, id, IsShipped, DELIVERED, OrderDelivered);
    case _ =>
  }

  lemma {:induction false} StepProgress(s: State, a: Action)
    ensures Progress(s, Step(s, a))
  {
    if IsCall(a) {
      CallProgress(s, a);
    }
  }

  /** After `n` steps of the run the order has the status. */
  ghost predicate At(run: seq<Action>, n: nat, id: nat, status: Status) {
    n <= |run| && id < |Exec(EMPTY, run[..n]).orders| && Exec(EMPTY, run[..n]).orders[id].status == status
  }

  function Before(status: Status): Status {
    match status
    case CONFIRMED => RESERVED
    case PAID => CONFIRMED
    case SHIPPED => PAID
    case DELIVERED => SHIPPED
    case _ => CREATED
  }

  /** What one step makes of an order's status, if there is the order. */
  predicate Moves(x: Option<Status>, y: Option<Status>) {
    if x.Some? then y.Some? && Follows(x.value, y.value) else y.None? || y.value == CREATED
  }

  predicate MovesOn(xs: seq<Option<Status>>) {
    |xs| > 0 && xs[0].None? && forall k :: 0 < k < |xs| ==> Moves(xs[k - 1], xs[k])
  }

  /** Every status but CANCELLED and RESERVED has one way in. */
  lemma {:induction false} Preceded(xs: seq<Option<Status>>, n: nat, status: Status) returns (earlier: nat)
    requires MovesOn(xs) && n < |xs| && xs[n] == Some(status) && Sold(status)
    ensures earlier < n && xs[earlier] == Some(Before(status))
    decreases n
  {
    assert Moves(xs[n - 1], xs[n]);
    if xs[n - 1] == Some(status) {
      earlier := Preceded(xs, n - 1, status);
    } else {
      earlier := n - 1;
    }
  }

  lemma {:induction false} Born(xs: seq<Option<Status>>, n: nat) returns (earlier: nat)
    requires MovesOn(xs) && n < |xs| && xs[n].Some? && xs[n].value != CREATED
    ensures earlier < n && xs[earlier] == Some(CREATED)
    decreases n
  {
    assert Moves(xs[n - 1], xs[n]);
    if xs[n - 1].value == CREATED {
      earlier := n - 1;
    } else {
      earlier := Born(xs, n - 1);
    }
  }

  lemma {:induction false} Confirmed(xs: seq<Option<Status>>, n: nat) returns (earlier: nat)
    requires MovesOn(xs) && n < |xs| && xs[n].Some? && xs[n].value in {PAID, SHIPPED, DELIVERED}
    ensures earlier < n && xs[earlier] == Some(CONFIRMED)
    decreases n
  {
    earlier := Preceded(xs, n, xs[n].value);
    if xs[earlier].value != CONFIRMED {
      earlier := Confirmed(xs, earlier);
    }
  }

  function StatusIn(s: State, id: nat): Option<Status> {
    if id < |s.orders| then Some(s.orders[id].status) else None
  }

  lemma {:induction false} StepMoves(run: seq<Action>, k: nat, id: nat)
    requires k < |run|
    ensures Moves(StatusIn(Exec(EMPTY, run[..k]), id), StatusIn(Exec(EMPTY, run[..k + 1]), id))
  {
    ExecNext(run, k);
    StepProgress(Exec(EMPTY, run[..k]), run[k]);
  }

  function Statuses(run: seq<Action>, id: nat): (xs: seq<Option<Status>>)
    ensures |xs| == |run| + 1 && forall k :: 0 <= k <= |run| ==> xs[k] == StatusIn(Exec(EMPTY, run[..k]), id)
  {
    seq(|run| + 1, k requires 0 <= k <= |run| => StatusIn(Exec(EMPTY, run[..k]), id))
  }

  lemma {:induction false} StatusesMoveOn(run: seq<Action>, id: nat)
    ensures MovesOn(Statuses(run, id))
  {
    var xs := Statuses(run, id);
    assert run[..0] == [];
    forall k | 0 < k < |xs|
      ensures Moves(xs[k - 1], xs[k])
    {
      StepMoves(run, k - 1, id);
    }
  }

  /** An order is PAID, SHIPPED or DELIVERED only after it was CREATED, then RESERVED, then CONFIRMED. */
  lemma {:induction false} PaidOnlyAfterConfirmed(run: seq<Action>, id: nat)
    requires id < |Exec(EMPTY, run).orders|
    requires Exec(EMPTY, run).orders[id].status in {PAID, SHIPPED, DELIVERED}
    ensures exists created, reserved, confirmed ::
              && 0 <= created < reserved < confirmed < |run|
              && At(run, created, id, CREATED) && At(run, reserved, id, RESERVED) && At(run, confirmed, id, CONFIRMED)
  {
    assert run[..|run|] == run;
    var xs := Statuses(run, id);
    StatusesMoveOn(run, id);
    var confirmed := Confirmed(xs, |run|);
    var reserved := Preceded(xs, confirmed, CONFIRMED);
    var created := Born(xs, reserved);
    assert At(run, created, id, CREATED) && At(run, reserved, id, RESERVED) && At(run, confirmed, id, CONFIRMED);
  }

  /** An order is DELIVERED only after every other status of the chain, in its order. */
  lemma {:induction false} DeliveredOnlyAfterShipped(run: seq<Action>, id: nat)
    requires id < |Exec(EMPTY, run).orders| && Exec(EMPTY, run).orders[id].status == DELIVERED
    ensures exists created, reserved, confirmed, paid, shipped ::
              && 0 <= created < reserved < confirmed < paid < shipped < |run|
              && At(run, created, id, CREATED) && At(run, reserved, id, RESERVED) && At(run, confirmed, id, CONFIRMED)
              && At(run, paid, id, PAID) && At(run, shipped, id, SHIPPED)
  {
    assert run[..|run|] == run;
    var xs := Statuses(run, id);
    StatusesMoveOn(run, id);
    var shipped := Preceded(xs, |run|, DELIVERED);
    var paid := Preceded(xs, shipped, SHIPPED);
    var confirmed := Preceded(xs, paid, PAID);
    var reserved := Preceded(xs, confirmed, CONFIRMED);
    var created := Born(xs, reserved);
    assert At(run, created, id, CREATED) && At(run, reserved, id, RESERVED) && At(run, confirmed, id, CONFIRMED);
    assert At(run, paid, id, PAID) && At(run, shipped, id, SHIPPED);
  }

  /** CANCELLED is not final: an order leaves it exactly when its order.created is handled, not yet
      deduplicated, and stock covers it. */
  lemma {:induction false} LeavesCancelledIff(s: State, a: Action, id: nat)
    requires id < |s.orders| && s.orders[id].status == CANCELLED
    ensures Step(s, a).orders[id].status != CANCELLED <==>
            && a.Receive? && !a.dies && a.event in s.outbox && a.event.topic == OrderCreated
            && a.event.orderId == id && a.event.tenant == s.orders[id].tenant
            && (OrderCreated, id) !in s.processed
            && Covered(s.stock, s.orders[id].tenant, s.orders[id].items)
  {
    if IsCall(a) {
      CancelledCall(s, a, id);
    }
  }

  lemma {:induction false} CancelledCall(s: State, a: Action, id: nat)
    requires id < |s.orders| && s.orders[id].status == CANCELLED && IsCall(a)
    ensures id < |Call(s, a).state.orders| && Call(s, a).state.orders[id].status == CANCELLED
  {
  }

  // ---------------------------------------------------------------- sold orders that fall back

  /** The step handles a message of the order, not yet deduplicated. */
  predicate HandlesFirst(s: State, a: Action, topic: Topic, id: nat) {
    && a.Receive? && !a.dies && a.event in s.outbox && a.event.topic == topic && a.event.orderId == id
    && Find(s, a.event.tenant, id).Some? && (topic, id) !in s.processed
  }

  /** A cancelOrder call that takes effect on a CONFIRMED order. */
  predicate CancelsConfirmed(s: State, a: Action, id: nat) {
    && a.Cancel? && a.id == id && Find(s, a.tenant, id).Some? && s.orders[id].status == CONFIRMED
    && !(a.key != "" && KeyOf(a) in s.idem)
  }

  lemma {:induction false} SoldCall(s: State, a: Action, id: nat)
    requires id < |s.orders| && Sold(s.orders[id].status) && IsCall(a)
    ensures id < |Call(s, a).state.orders|
    ensures !Sold(Call(s, a).state.orders[id].status) <==> CancelsConfirmed(s, a, id)
  {
  }

  lemma {:induction false} SoldConsume(s: State, e: Event, dies: bool, id: nat)
    requires id < |s.orders| && Sold(s.orders[id].status)
    ensures id < |Consume(s, e, dies).orders|
    ensures !Sold(Consume(s, e, dies).orders[id].status) <==>
            && !dies && e.orderId == id && (e.topic == OrderCreated || e.topic == OrderCancelled)
            && Find(s, e.tenant, id).Some? && (e.topic, id) !in s.processed
  {
  }

  /** A CONFIRMED, PAID, SHIPPED or DELIVERED order falls back exactly when its order.created or its
      order.cancelled is handled, not yet deduplicated, or it is cancelled while still CONFIRMED. */
  lemma {:induction false} LeavesSoldIff(s: State, a: Action, id: nat)
    requires id < |s.orders| && Sold(s.orders[id].status)
    ensures id < |Step(s, a).orders|
    ensures !Sold(Step(s, a).orders[id].status) <==>
            HandlesFirst(s, a, OrderCreated, id) || HandlesFirst(s, a, OrderCancelled, id) || CancelsConfirmed(s, a, id)
  {
    if IsCall(a) {
      SoldCall(s, a, id);
    } else if a.Receive? {
      SoldConsume(s, a.event, a.dies, id);
    }
  }

  /** A sold order was reserved, so while its order.created key lives that key is set. */
  lemma {:induction false} SoldSeen(run: seq<Action>, id: nat)
    requires KeyLives(run, OrderCreated, id)
    requires id < |Exec(EMPTY, run).orders| && Sold(Exec(EMPTY, run).orders[id].status)
    ensures (OrderCreated, id) in Exec(EMPTY, run).processed
  {
    BooksInEveryRun(run, id);
    assert run[..|run|] == run;
    CountSeen(run, |run|, |run|, OrderCreated, id);
  }

  /** While its order.created key lives, a sold order falls back only to CANCELLED, and exactly when a
      late order.cancelled is handled or it is cancelled while CONFIRMED: PAID, SHIPPED and DELIVERED
      orders only by the late message. */
  lemma {:induction false} SoldFallsBackIff(run: seq<Action>, a: Action, id: nat)
    requires KeyLives(run, OrderCreated, id)
    requires id < |Exec(EMPTY, run).orders| && Sold(Exec(EMPTY, run).orders[id].status)
    ensures var s := Exec(EMPTY, run);
            && id < |Step(s, a).orders|
            && (Step(s, a).orders[id].status == CANCELLED <==>
                  HandlesFirst(s, a, OrderCancelled, id) || CancelsConfirmed(s, a, id))
            && (Sold(Step(s, a).orders[id].status) || Step(s, a).orders[id].status == CANCELLED)
  {
    SoldSeen(run, id);
    LeavesSoldIff(Exec(EMPTY, run), a, id);
    ToCancelled(Exec(EMPTY, run), a, id);
  }

  lemma {:induction false} ToCancelled(s: State, a: Action, id: nat)
    requires id < |s.orders| && Sold(s.orders[id].status) && (OrderCreated, id) in s.processed
    ensures id < |Step(s, a).orders|
    ensures Sold(Step(s, a).orders[id].status) || Step(s, a).orders[id].status == CANCELLED
  {
    StepProgress(s, a);
    LeavesSoldIff(s, a, id);
  }

  // ---------------------------------------------------------------- imported orders

  /** Neither reserved nor sold, and no order.created row that could get it there. */
  predicate Stuck(s: State, id: nat) {
    && id < |s.orders| && (s.orders[id].status == CREATED || s.orders[id].status == CANCELLED)
    && forall i :: 0 <= i < |s.outbox| ==> !(s.outbox[i].topic == OrderCreated && s.outbox[i].orderId == id)
  }

  lemma {:induction false} CallStuck(s: State, a: Action, id: nat)
    requires Stuck(s, id) && IsCall(a)
    ensures Stuck(Call(s, a).state, id)
  {
  }

  lemma {:induction false} ConsumeStuck(s: State, e: Event, dies: bool, id: nat)
    requires Stuck(s, id) && e in s.outbox
    ensures Stuck(Consume(s, e, dies), id)
  {
  }

  lemma {:induction false} StepStuck(s: State, a: Action, id: nat)
    requires Stuck(s, id)
    ensures Stuck(Step(s, a), id)
  {
    if IsCall(a) {
      CallStuck(s, a, id);
    } else if a.Receive? && a.event in s.outbox {
      ConsumeStuck(s, a.event, a.dies, id);
    }
  }

  /** The order import writes no order.created row, so an imported order is never reserved and never
      sold: in every later state it is CREATED or CANCELLED. */
  lemma {:induction false} ImportedOrdersAreNeverReserved(run: seq<Action>, k: nat, n: nat)
    requires k < n <= |run| && run[k].ImportOrder?
    ensures var id := |Exec(EMPTY, run[..k]).orders|;
            id < |Exec(EMPTY, run[..n]).orders| && Exec(EMPTY, run[..n]).orders[id].status in {CREATED, CANCELLED}
  {
    BilledInEveryRun(run[..k]);
    ImportStuck(Exec(EMPTY, run[..k]), run[k]);
    ExecNext(run, k);
    StuckFrom(run, k + 1, n, |Exec(EMPTY, run[..k]).orders|);
  }

  lemma {:induction false} StuckIn(s: State, more: seq<Action>, id: nat)
    requires Stuck(s, id)
    ensures Stuck(Exec(s, more), id)
    decreases |more|
  {
    if more != [] {
      StuckIn(s, more[..|more| - 1], id);
      StepStuck(Exec(s, more[..|more| - 1]), more[|more| - 1], id);
    }
  }

  lemma {:induction false} StuckFrom(run: seq<Action>, k: nat, n: nat, id: nat)
    requires k <= n <= |run| && Stuck(Exec(EMPTY, run[..k]), id)
    ensures Stuck(Exec(EMPTY, run[..n]), id)
  {
    ExecThrough(run, k, n);
    StuckIn(Exec(EMPTY, run[..k]), run[k..n], id);
  }

  lemma {:induction false} ImportStuck(s: State, a: Action)
    requires Billed(s) && a.ImportOrder?
    ensures Stuck(Step(s, a), |s.orders|)
  {
  }

  // ---------------------------------------------------------------- repeated calls

  /** A call under a key: replayed, refused without a trace, or carried out and its reply stored. */
  lemma {:induction false} CallUnderKey(s: State, a: Action)
    requires IsCall(a) && KeyOf(a).key != ""
    ensures var r := Call(s, a);
            if KeyOf(a) in s.idem then r == Outcome(s, s.idem[KeyOf(a)])
            else if r.reply.Rejected? then r.state == s
            else r.state.idem == s.idem[KeyOf(a) := r.reply]
  {
  }

  lemma {:induction false} CallWithoutKey(s: State, a: Action)
    requires IsCall(a) && KeyOf(a).key == ""
    ensures Call(s, a).state.idem == s.idem
    ensures Call(s, a).reply.Rejected? ==> Call(s, a).state == s
  {
  }

  /** A rejected call changes nothing. */
  lemma {:induction false} RejectedChangesNothing(s: State, a: Action)
    requires IsCall(a) && Call(s, a).reply.Rejected?
    ensures Call(s, a).state == s
  {
  }

  lemma {:induction false} StoredStays(s: State, a: Action, key: IdemKey)
    requires key in s.idem && a != ForgetReply(key)
    ensures key in Step(s, a).idem && Step(s, a).idem[key] == s.idem[key]
  {
    if IsCall(a) {
      if KeyOf(a).key == "" {
        CallWithoutKey(s, a);
      } else {
        CallUnderKey(s, a);
      }
    }
  }

  /** The key does not expire between two positions of the run. */
  predicate ReplyLives(run: seq<Action>, start: nat, end: nat, key: IdemKey)
    requires start <= end <= |run|
  {
    forall k :: start <= k < end ==> run[k] != ForgetReply(key)
  }

  predicate Stored(s: State, key: IdemKey, reply: Reply) {
    key in s.idem && s.idem[key] == reply
  }

  lemma {:induction false} StoredStaysIn(s: State, more: seq<Action>, key: IdemKey, reply: Reply)
    requires Stored(s, key, reply) && forall k :: 0 <= k < |more| ==> more[k] != ForgetReply(key)
    ensures Stored(Exec(s, more), key, reply)
    decreases |more|
  {
    if more != [] {
      StoredStaysIn(s, more[..|more| - 1], key, reply);
      StoredStays(Exec(s, more[..|more| - 1]), more[|more| - 1], key);
    }
  }

  lemma {:induction false} StoredStaysThrough(run: seq<Action>, start: nat, end: nat, key: IdemKey, reply: Reply)
    requires start <= end <= |run| && ReplyLives(run, start, end, key) && Stored(Exec(EMPTY, run[..start]), key, reply)
    ensures Stored(Exec(EMPTY, run[..end]), key, reply)
  {
    ExecThrough(run, start, end);
    StoredStaysIn(Exec(EMPTY, run[..start]), run[start..end], key, reply);
  }

  /** Idempotency: once a call succeeded under a key, every later call under that key, while the key
      lives, returns the first reply and changes nothing. */
  lemma {:induction false} Replay(run: seq<Action>, first: nat, later: nat)
    requires first < later < |run| && IsCall(run[first]) && IsCall(run[later])
    requires KeyOf(run[later]) == KeyOf(run[first]) && KeyOf(run[first]).key != ""
    requires ReplyLives(run, first, later, KeyOf(run[first]))
    requires !Call(Exec(EMPTY, run[..first]), run[first]).reply.Rejected?
    ensures Call(Exec(EMPTY, run[..later]), run[later])
         == Outcome(Exec(EMPTY, run[..later]), Call(Exec(EMPTY, run[..first]), run[first]).reply)
  {
    var key := KeyOf(run[first]);
    CallUnderKey(Exec(EMPTY, run[..first]), run[first]);
    ExecNext(run, first);
    StoredStaysThrough(run, first + 1, later, key, Call(Exec(EMPTY, run[..first]), run[first]).reply);
    CallUnderKey(Exec(EMPTY, run[..later]), run[later]);
  }

  /** So of two calls under one live key at most one changes the state. */
  lemma {:induction false} OncePerKey(run: seq<Action>, first: nat, later: nat)
    requires first < later < |run| && IsCall(run[first]) && IsCall(run[later])
    requires KeyOf(run[later]) == KeyOf(run[first]) && KeyOf(run[first]).key != ""
    requires ReplyLives(run, first, later, KeyOf(run[first]))
    requires Step(Exec(EMPTY, run[..first]), run[first]) != Exec(EMPTY, run[..first])
    ensures Step(Exec(EMPTY, run[..later]), run[later]) == Exec(EMPTY, run[..later])
  {
    if Call(Exec(EMPTY, run[..first]), run[first]).reply.Rejected? {
      RejectedChangesNothing(Exec(EMPTY, run[..first]), run[first]);
    } else {
      Replay(run, first, later);
    }
  }
}
