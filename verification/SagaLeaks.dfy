/** Stock that stays in `reservedQty` for orders that are no longer RESERVED, over every run. */
module SagaLeaks {
  import opened Wrappers
  import opened Inventory
  import opened Saga
  import opened SagaOnce
  import opened SagaInvariant
  import opened Steps

  // ---------------------------------------------------------------- steps that leak

  /** An order whose quantities stay in `reservedQty` although it is no longer RESERVED. */
  predicate Leaked(s: State, id: nat) {
    id < |s.orders| && s.orders[id].held && s.orders[id].status != RESERVED
  }

  /** A cancelOrder call that takes effect on a RESERVED order. */
  predicate CancelsReserved(s: State, a: Action, id: nat) {
    && a.Cancel? && a.id == id
    && Find(s, a.tenant, id).Some? && s.orders[id].status == RESERVED
    && !(a.key != "" && KeyOf(a) in s.idem)
  }

  /** Handling order.created again, for a RESERVED order that stock no longer covers. */
  predicate RefusesReserved(s: State, a: Action, id: nat) {
    && a.Receive? && !a.dies && a.event in s.outbox && a.event.topic == OrderCreated && a.event.orderId == id
    && Find(s, a.event.tenant, id).Some? && s.orders[id].status == RESERVED
    && (OrderCreated, id) !in s.processed
    && !Covered(s.stock, s.orders[id].tenant, s.orders[id].items)
  }

  predicate Leaks(s: State, a: Action, id: nat) {
    CancelsReserved(s, a, id) || RefusesReserved(s, a, id)
  }

  lemma {:induction false} CancelLeak(s: State, a: Action, id: nat)
    requires id < |s.orders| && OrderOk(s.orders[id]) && a.Cancel?
    ensures Leaked(Call(s, a).state, id) <==> Leaked(s, id) || CancelsReserved(s, a, id)
  {
  }

  lemma {:induction false} CallLeak(s: State, a: Action, id: nat)
    requires id < |s.orders| && OrderOk(s.orders[id]) && IsCall(a) && !a.Cancel?
    ensures Leaked(Call(s, a).state, id) <==> Leaked(s, id)
  {
  }

  lemma {:induction false} ReceiveLeak(s: State, a: Action, id: nat)
    requires id < |s.orders| && OrderOk(s.orders[id]) && a.Receive?
    ensures Leaked(Step(s, a), id) <==> (Leaked(s, id) && !Fires(s, a, OrderCreated, id)) || RefusesReserved(s, a, id)
  {
  }

  lemma {:induction false} SettleLeak(s: State, tenant: Tenant, settled: nat, dies: bool, id: nat)
    requires id < |s.orders|
    ensures Leaked(ConsumeSettled(s, tenant, settled, dies), id) <==> Leaked(s, id)
  {
  }

  /** A leak begins with such a step, and ends when the order is reserved anew. */
  lemma {:induction false} StepLeak(s: State, a: Action, id: nat)
    requires OrdersOk(s)
    ensures Leaked(Step(s, a), id) <==> (Leaked(s, id) && !Fires(s, a, OrderCreated, id)) || Leaks(s, a, id)
  {
    if id < |s.orders| {
      if a.Cancel? {
        CancelLeak(s, a, id);
      } else if IsCall(a) {
        CallLeak(s, a, id);
      } else if a.Receive? {
        ReceiveLeak(s, a, id);
      } else if a.Settle? {
        SettleLeak(s, a.tenant, a.id, a.dies, id);
      }
    }
  }

  // ---------------------------------------------------------------- leaks over a run

  predicate LeaksAt(run: seq<Action>, k: nat, id: nat)
    requires k < |run|
  {
    Leaks(Exec(EMPTY, run[..k]), run[k], id)
  }

  /** The k-th step leaked the order's stock, and none of the others up to `n` reserved it anew. */
  predicate LeakedSince(run: seq<Action>, k: nat, n: nat, id: nat)
    requires n <= |run|
  {
    k < n && LeaksAt(run, k, id) && forall j :: k < j < n ==> !FiresAt(run, j, OrderCreated, id)
  }

  predicate Outstanding(run: seq<Action>, n: nat, id: nat)
    requires n <= |run|
  {
    exists k :: 0 <= k < n && LeakedSince(run, k, n, id)
  }

  lemma {:induction false} LeakedSinceNext(run: seq<Action>, k: nat, n: nat, id: nat)
    requires k < n < |run|
    ensures LeakedSince(run, k, n + 1, id) <==> LeakedSince(run, k, n, id) && !FiresAt(run, n, OrderCreated, id)
  {
  }

  lemma {:induction false} LeakedJustNow(run: seq<Action>, n: nat, id: nat)
    requires n < |run|
    ensures LeakedSince(run, n, n + 1, id) <==> LeaksAt(run, n, id)
  {
  }

  lemma {:induction false} OutstandingNext(run: seq<Action>, n: nat, id: nat)
    requires n < |run|
    ensures Outstanding(run, n + 1, id) <==>
            (Outstanding(run, n, id) && !FiresAt(run, n, OrderCreated, id)) || LeaksAt(run, n, id)
  {
    LeakedJustNow(run, n, id);
    if LeaksAt(run, n, id) {
      assert LeakedSince(run, n, n + 1, id);
    }
    if Outstanding(run, n, id) && !FiresAt(run, n, OrderCreated, id) {
      var k :| 0 <= k < n && LeakedSince(run, k, n, id);
      LeakedSinceNext(run, k, n, id);
      assert LeakedSince(run, k, n + 1, id);
    }
    if Outstanding(run, n + 1, id) {
      var k :| 0 <= k < n + 1 && LeakedSince(run, k, n + 1, id);
      if k < n {
        LeakedSinceNext(run, k, n, id);
        assert LeakedSince(run, k, n, id);
      }
    }
  }

  lemma {:induction false} LeakedNext(run: seq<Action>, n: nat, id: nat)
    requires n < |run|
    ensures Leaked(Exec(EMPTY, run[..n + 1]), id) <==>
            (Leaked(Exec(EMPTY, run[..n]), id) && !FiresAt(run, n, OrderCreated, id)) || LeaksAt(run, n, id)
  {
    ExecNext(run, n);
    OrdersOkInEveryRun(run[..n]);
    StepLeak(Exec(EMPTY, run[..n]), run[n], id);
  }

  function LeakedStates(run: seq<Action>, id: nat): (xs: seq<bool>)
    ensures |xs| == |run| + 1 && forall k :: 0 <= k <= |run| ==> xs[k] == Leaked(Exec(EMPTY, run[..k]), id)
  {
    seq(|run| + 1, k requires 0 <= k <= |run| => Leaked(Exec(EMPTY, run[..k]), id))
  }

  function OutstandingStates(run: seq<Action>, id: nat): (xs: seq<bool>)
    ensures |xs| == |run| + 1 && forall k :: 0 <= k <= |run| ==> xs[k] == Outstanding(run, k, id)
  {
    seq(|run| + 1, k requires 0 <= k <= |run| => Outstanding(run, k, id))
  }

  lemma {:induction false} LeaksAlike(run: seq<Action>, k: nat, id: nat)
    requires k < |run| && Leaked(Exec(EMPTY, run[..k]), id) == Outstanding(run, k, id)
    ensures Leaked(Exec(EMPTY, run[..k + 1]), id) == Outstanding(run, k + 1, id)
  {
    LeakedNext(run, k, id);
    OutstandingNext(run, k, id);
  }

  lemma {:induction false} LeakedUpTo(run: seq<Action>, n: nat, id: nat)
    requires n <= |run|
    ensures Leaked(Exec(EMPTY, run[..n]), id) <==> Outstanding(run, n, id)
  {
    var leaked, outstanding := LeakedStates(run, id), OutstandingStates(run, id);
    assert run[..0] == [];
    forall k | 0 < k < |leaked| && leaked[k - 1] == outstanding[k - 1]
      ensures leaked[k] == outstanding[k]
    {
      LeaksAlike(run, k - 1, id);
    }
    SameSteps(leaked, outstanding, n);
  }

  /** In every run, whatever expires: an order's stock is leaked exactly when cancelOrder took effect on
      it while it was RESERVED, or a repeated order.created was refused while it was, and it was not
      reserved anew since. The worker then finds the order CANCELLED and releases nothing. */
  lemma {:induction false} LeakedIff(run: seq<Action>, id: nat)
    ensures Leaked(Exec(EMPTY, run), id) <==> Outstanding(run, |run|, id)
  {
    assert run[..|run|] == run;
    LeakedUpTo(run, |run|, id);
  }

  // ---------------------------------------------------------------- when reservedQty is exact

  lemma {:induction false} HeldSplits(orders: seq<Order>, key: Key)
    requires forall i :: 0 <= i < |orders| && orders[i].status == RESERVED ==> orders[i].held
    ensures Sum(orders, HeldAt(key)) == Sum(orders, ReservedAt(key)) + Sum(orders, LeakedAt(key))
    decreases |orders|
  {
    if orders != [] {
      HeldSplits(orders[..|orders| - 1], key);
    }
  }

  lemma {:induction false} LeakedSum(orders: seq<Order>, key: Key)
    ensures Sum(orders, LeakedAt(key)) == 0 <==> forall i :: 0 <= i < |orders| ==> LeakedAt(key)(orders[i]) == 0
    decreases |orders|
  {
    if orders != [] {
      var last := |orders| - 1;
      LeakedSum(orders[..last], key);
      forall i | 0 <= i < last
        ensures orders[..last][i] == orders[i]
      {
      }
    }
  }

  lemma {:induction false} LeakIsDemand(s: State, key: Key)
    ensures forall id :: 0 <= id < |s.orders| ==>
              (LeakedAt(key)(s.orders[id]) == 0 <==>
                (Leaked(s, id) ==> DemandAt(s.orders[id].tenant, s.orders[id].items, key) == 0))
  {
  }

  /** In every run, for every row: `reservedQty` is what RESERVED orders ask for, plus what has leaked,
      plus what was reserved again for orders that held stock already. */
  lemma {:induction false} ReservedQtySplits(run: seq<Action>, key: Key)
    ensures var s := Exec(EMPTY, run);
            LevelOf(s.stock, key).reserved
              == Sum(s.orders, ReservedAt(key)) + Sum(s.orders, LeakedAt(key)) + Again(run, |run|, key)
  {
    ReservedQtyInEveryRun(run, key);
    OrdersOkInEveryRun(run);
    var s := Exec(EMPTY, run);
    forall i | 0 <= i < |s.orders| && s.orders[i].status == RESERVED
      ensures s.orders[i].held
    {
      assert OrderOk(s.orders[i]);
    }
    HeldSplits(s.orders, key);
  }

  lemma {:induction false} NoLeakIff(s: State, key: Key)
    ensures Sum(s.orders, LeakedAt(key)) == 0 <==>
            forall id :: 0 <= id < |s.orders| && Leaked(s, id) ==>
              DemandAt(s.orders[id].tenant, s.orders[id].items, key) == 0
  {
    LeakedSum(s.orders, key);
    LeakIsDemand(s, key);
  }

  /** In every run, for every row: `reservedQty` is what RESERVED orders ask for exactly when no step
      reserved the row for an order that held stock already, and no order whose leak is outstanding
      asks for the row. */
  lemma {:induction false} ReservedQtyIsExactIff(run: seq<Action>, key: Key)
    ensures var s := Exec(EMPTY, run);
            LevelOf(s.stock, key).reserved == Sum(s.orders, ReservedAt(key)) <==>
              && (forall k :: 0 <= k < |run| ==> ExtraAt(run, k, key) == 0)
              && (forall id :: 0 <= id < |s.orders| && Outstanding(run, |run|, id) ==>
                    DemandAt(s.orders[id].tenant, s.orders[id].items, key) == 0)
  {
    var s := Exec(EMPTY, run);
    ReservedQtySplits(run, key);
    AgainIff(run, |run|, key);
    NoLeakIff(s, key);
    forall id | 0 <= id < |s.orders|
      ensures Leaked(s, id) <==> Outstanding(run, |run|, id)
    {
      LeakedIff(run, id);
    }
  }

  // ---------------------------------------------------------------- while order.created keys live

  ghost predicate ReservedWasCancelled(run: seq<Action>, id: nat) {
    exists k :: 0 <= k < |run| && CancelsReserved(Exec(EMPTY, run[..k]), run[k], id)
  }

  /** A RESERVED order was reserved, so its live key is set then and from then on. */
  lemma {:induction false} ReservedSeen(run: seq<Action>, k: nat, n: nat, id: nat)
    requires k <= n <= |run| && KeyLives(run, OrderCreated, id)
    requires id < |Exec(EMPTY, run[..k]).orders| && Exec(EMPTY, run[..k]).orders[id].status == RESERVED
    ensures (OrderCreated, id) in Exec(EMPTY, run[..n]).processed
  {
    BooksInEveryRun(run[..k], id);
    OrdersOkInEveryRun(run[..k]);
    assert OrderOk(Exec(EMPTY, run[..k]).orders[id]);
    CountSeen(run, k, n, OrderCreated, id);
  }

  /** While its order.created key lives, an order's stock is leaked exactly when cancelOrder took effect
      on it while it was RESERVED, and then for good. */
  lemma {:induction false} LeakedIffReservedCancelled(run: seq<Action>, id: nat)
    requires KeyLives(run, OrderCreated, id)
    ensures Leaked(Exec(EMPTY, run), id) <==> ReservedWasCancelled(run, id)
  {
    LeakedIff(run, id);
    if Outstanding(run, |run|, id) {
      var k :| 0 <= k < |run| && LeakedSince(run, k, |run|, id);
      ReservedSeen(run, k, k, id);
      assert CancelsReserved(Exec(EMPTY, run[..k]), run[k], id);
    }
    if ReservedWasCancelled(run, id) {
      var k :| 0 <= k < |run| && CancelsReserved(Exec(EMPTY, run[..k]), run[k], id);
      assert LeaksAt(run, k, id);
      forall j | k < j < |run|
        ensures !FiresAt(run, j, OrderCreated, id)
      {
        ReservedSeen(run, k, j, id);
      }
      assert LeakedSince(run, k, |run|, id);
    }
  }

  /** While order.created keys live, `reservedQty` of a row is what RESERVED orders ask for exactly when
      no order cancelled through the API while RESERVED asks for the row. */
  lemma {:induction false} ReservedQtyWhileKeysLive(run: seq<Action>, key: Key)
    requires DedupLives(run)
    ensures var s := Exec(EMPTY, run);
            LevelOf(s.stock, key).reserved == Sum(s.orders, ReservedAt(key)) <==>
              forall id :: 0 <= id < |s.orders| && ReservedWasCancelled(run, id) ==>
                DemandAt(s.orders[id].tenant, s.orders[id].items, key) == 0
  {
    var s := Exec(EMPTY, run);
    ReservedQtySplits(run, key);
    NothingAgainWhileKeysLive(run);
    assert Again(run, |run|, key) == 0;
    NoLeakIff(s, key);
    forall id | 0 <= id < |s.orders|
      ensures Leaked(s, id) <==> ReservedWasCancelled(run, id)
    {
      LeakedIffReservedCancelled(run, id);
    }
  }
}
