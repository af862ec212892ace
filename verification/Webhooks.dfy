/** The webhook delivery queue: deliveries in creation order, polled fifty at a time, retried
    until the fifth failure. The worker's poll and the API service's `processDeliveries` are two
    copies of one machine; the worker's may be told to stop between two deliveries. */
module Webhooks {

  const MAX_ATTEMPTS := 5
  const BATCH := 50

  datatype Status = PENDING | DELIVERED | FAILED | CANCELLED

  /** The last two fields are history variables: the number of times the delivery was POSTed, and of the
      times the outcome was lost, because the process died or could not write it. */
  datatype Delivery = Delivery(status: Status, attempts: nat, httpStatus: int, posts: nat, lost: nat)

  /** What a delivery meets: no active endpoint, an HTTP answer, or an error (no answer, or a write
      that fails after one). The status of an error is recorded as 0, for null. */
  datatype Answer = Inactive | Http(code: int) | Unreachable

  type Answers = nat -> Answer

  predicate Ok(answer: Answer) {
    answer.Http? && 200 <= answer.code <= 299
  }

  predicate Due(d: Delivery) {
    d.status == PENDING && d.attempts < MAX_ATTEMPTS
  }

  /** One delivery after being processed once. */
  function Attempt(d: Delivery, answer: Answer): Delivery {
    if answer.Inactive? then d.(status := CANCELLED)
    else
      var http := if answer.Http? then answer.code else 0;
      var status := if Ok(answer) then DELIVERED else if d.attempts + 1 >= MAX_ATTEMPTS then FAILED else PENDING;
      Delivery(status, d.attempts + 1, http, d.posts + 1, d.lost)
  }

  /** `after` is the due delivery `d` after one try. A status from 200 to 299 is what counts as delivered; any
      other answer, or none, costs an attempt, and the fifth is the last. An inactive endpoint costs none
      and gets no POST. */
  ghost predicate AttemptedOnce(d: Delivery, after: Delivery, answer: Answer) {
    && after.lost == d.lost
    && (after.status == CANCELLED <==> answer == Inactive)
    && (after.status == DELIVERED <==> answer.Http? && 200 <= answer.code <= 299)
    && (answer == Inactive ==>
          after.attempts == d.attempts && after.posts == d.posts && after.httpStatus == d.httpStatus)
    && (answer != Inactive ==>
          && after.attempts == d.attempts + 1 && after.posts == d.posts + 1
          && after.httpStatus == (if answer.Http? then answer.code else 0)
          && (after.status == FAILED ==> after.attempts == 5) && (after.status == PENDING ==> after.attempts < 5))
  }

  lemma {:induction false} AttemptOutcome(d: Delivery, answer: Answer)
    requires d.status == PENDING && d.attempts < 5
    ensures AttemptedOnce(d, Attempt(d, answer), answer)
  {
  }

  /** A delivery POSTed without a trace: the next poll finds it as it was. */
  function Forgotten(d: Delivery, answer: Answer): Delivery {
    if answer.Inactive? then d else d.(posts := d.posts + 1, lost := d.lost + 1)
  }

  function CountDue(rows: seq<Delivery>): (n: nat)
    ensures n <= |rows|
  {
    if rows == [] then 0
    else CountDue(rows[..|rows| - 1]) + if Due(rows[|rows| - 1]) then 1 else 0
  }

  /** Row i is among the first `take` due rows. */
  predicate InWindow(rows: seq<Delivery>, take: nat, i: nat)
    requires i < |rows|
  {
    Due(rows[i]) && CountDue(rows[..i]) < take
  }

  /** The table after a poll that processes its first `take` rows: those and no others, once each. */
  function Poll(rows: seq<Delivery>, answers: Answers, take: nat): (r: seq<Delivery>)
    ensures |r| == |rows|
    ensures forall i :: 0 <= i < |rows| ==>
              r[i] == if InWindow(rows, take, i) then Attempt(rows[i], answers(i)) else rows[i]
  {
    seq(|rows|, i requires 0 <= i < |rows| => if InWindow(rows, take, i) then Attempt(rows[i], answers(i)) else rows[i])
  }

  /** The table after a poll that dies on its next row, after the POST and before the write. */
  function DyingPoll(rows: seq<Delivery>, answers: Answers, take: nat): (r: seq<Delivery>)
    ensures |r| == |rows|
    ensures forall i :: 0 <= i < |rows| ==>
              r[i] == if InWindow(rows, take, i) then Attempt(rows[i], answers(i))
                      else if InWindow(rows, take + 1, i) then Forgotten(rows[i], answers(i)) else rows[i]
  {
    seq(|rows|, i requires 0 <= i < |rows| =>
      if InWindow(rows, take, i) then Attempt(rows[i], answers(i))
      else if InWindow(rows, take + 1, i) then Forgotten(rows[i], answers(i)) else rows[i])
  }

  /** The query: the indices of the first fifty due rows. */
  function FindPending(rows: seq<Delivery>, from: nat, take: nat): (r: seq<nat>)
    requires from <= |rows|
    ensures |r| <= take
    ensures forall k :: 0 <= k < |r| ==> from <= r[k] < |rows| && Due(rows[r[k]])
    ensures forall k, l :: 0 <= k < l < |r| ==> r[k] < r[l]
    decreases |rows| - from
  {
    if from == |rows| || take == 0 then []
    else if Due(rows[from]) then [from] + FindPending(rows, from + 1, take - 1)
    else FindPending(rows, from + 1, take)
  }

  /** The k-th row found is the one with k due rows before it. */
  lemma {:induction false} RankOfFound(rows: seq<Delivery>, from: nat, take: nat, k: nat)
    requires from <= |rows| && k < |FindPending(rows, from, take)|
    ensures CountDue(rows[..FindPending(rows, from, take)[k]]) == CountDue(rows[..from]) + k
    decreases |rows| - from
  {
    assert rows[..from + 1][..from] == rows[..from];
    if !Due(rows[from]) {
      RankOfFound(rows, from + 1, take, k);
    } else if k > 0 {
      RankOfFound(rows, from + 1, take - 1, k - 1);
    }
  }

  lemma {:induction false} FoundIfDue(rows: seq<Delivery>, from: nat, take: nat, i: nat)
    requires from <= i < |rows| && Due(rows[i]) && CountDue(rows[..i]) < CountDue(rows[..from]) + take
    ensures i in FindPending(rows, from, take)
    decreases |rows| - from
  {
    CountGrows(rows, from, i);
    assert rows[..from + 1][..from] == rows[..from];
    if !Due(rows[from]) {
      FoundIfDue(rows, from + 1, take, i);
    } else if i > from {
      FoundIfDue(rows, from + 1, take - 1, i);
    }
  }

  lemma {:induction false} FoundByRank(rows: seq<Delivery>, take: nat)
    ensures var r := FindPending(rows, 0, take);
            && (forall k :: 0 <= k < |r| ==> CountDue(rows[..r[k]]) == k)
            && (forall i :: 0 <= i < |rows| && InWindow(rows, take, i) ==> i in r)
  {
    var r := FindPending(rows, 0, take);
    forall k | 0 <= k < |r| ensures CountDue(rows[..r[k]]) == k {
      RankOfFound(rows, 0, take, k);
    }
    forall i | 0 <= i < |rows| && InWindow(rows, take, i) ensures i in r {
      FoundIfDue(rows, 0, take, i);
    }
  }

  lemma {:induction false} CountGrows(rows: seq<Delivery>, a: nat, b: nat)
    requires a <= b <= |rows|
    ensures CountDue(rows[..a]) <= CountDue(rows[..b])
    decreases b
  {
    if a < b {
      CountGrows(rows, a, b - 1);
      assert rows[..b][..b - 1] == rows[..b - 1];
    }
  }

  lemma {:induction false} WindowIsFound(rows: seq<Delivery>, take: nat, found: seq<nat>, done: nat)
    requires found == FindPending(rows, 0, take) && done <= |found|
    ensures forall i :: 0 <= i < |rows| ==> (InWindow(rows, done, i) <==> i in found[..done])
  {
    FoundByRank(rows, take);
    forall i | 0 <= i < |rows|
      ensures InWindow(rows, done, i) <==> i in found[..done]
    {
      if InWindow(rows, done, i) {
        assert i in found;
        var k :| 0 <= k < |found| && found[k] == i;
        assert k < done;
        assert found[..done][k] == i;
      }
      if i in found[..done] {
        var k :| 0 <= k < done && found[k] == i;
      }
    }
  }

  /** Processing the next row found extends the poll by one row of the window. */
  lemma {:induction false} PollStep(rows: seq<Delivery>, answers: Answers, found: seq<nat>, k: nat)
    requires found == FindPending(rows, 0, BATCH) && k < |found|
    ensures var i, now := found[k], Poll(rows, answers, k);
            && now[i] == rows[i] && Due(rows[i])
            && Poll(rows, answers, k + 1) == now[i := Attempt(rows[i], answers(i))]
  {
    WindowIsFound(rows, BATCH, found, k);
    WindowIsFound(rows, BATCH, found, k + 1);
    assert found[..k + 1] == found[..k] + [found[k]];
    assert found[k] !in found[..k];
  }

  /** Once every row found is processed a larger window changes nothing. */
  lemma {:induction false} PollExhausted(rows: seq<Delivery>, answers: Answers, found: seq<nat>, take: nat)
    requires found == FindPending(rows, 0, BATCH) && |found| <= take <= BATCH
    ensures Poll(rows, answers, take) == Poll(rows, answers, |found|)
  {
    FoundByRank(rows, BATCH);
    WindowIsFound(rows, BATCH, found, |found|);
    assert found[..|found|] == found;
  }

  lemma {:induction false} DyingStep(rows: seq<Delivery>, answers: Answers, found: seq<nat>, k: nat)
    requires found == FindPending(rows, 0, BATCH) && k < |found|
    ensures var i, now := found[k], Poll(rows, answers, k);
            now[i] == rows[i] && Due(rows[i]) && DyingPoll(rows, answers, k) == now[i := Forgotten(rows[i], answers(i))]
  {
    WindowIsFound(rows, BATCH, found, k);
    WindowIsFound(rows, BATCH, found, k + 1);
    assert found[..k + 1] == found[..k] + [found[k]];
    assert found[k] !in found[..k];
  }

  /** With no row left to die on it is a poll like any other. */
  lemma {:induction false} DyingExhausted(rows: seq<Delivery>, answers: Answers, found: seq<nat>, take: nat)
    requires found == FindPending(rows, 0, BATCH) && |found| <= take < BATCH
    ensures DyingPoll(rows, answers, take) == Poll(rows, answers, |found|)
  {
    PollExhausted(rows, answers, found, take);
    PollExhausted(rows, answers, found, take + 1);
    WindowIsFound(rows, BATCH, found, |found|);
    FoundByRank(rows, BATCH);
    assert found[..|found|] == found;
  }

  /** Where the loop over the batch ends. */
  lemma {:induction false} PollEnds(rows: seq<Delivery>, answers: Answers, found: seq<nat>, k: nat, budget: nat,
          dies: bool)
    requires found == FindPending(rows, 0, BATCH) && k <= |found| && k <= budget && (k == |found| || k == budget)
    ensures k < |found| ==>
              found[k] < |rows| && Poll(rows, answers, k)[found[k]] == rows[found[k]] && Due(rows[found[k]])
    ensures Act(rows, PollWith(answers, budget, dies))
         == if dies && k < |found| then Poll(rows, answers, k)[found[k] := Forgotten(rows[found[k]], answers(found[k]))]
            else Poll(rows, answers, k)
  {
    if k < |found| {
      DyingStep(rows, answers, found, k);
    } else {
      PollExhausted(rows, answers, found, if budget < BATCH then budget else BATCH);
      if budget < BATCH {
        DyingExhausted(rows, answers, found, budget);
      }
    }
  }

  class Queue {
    var rows: seq<Delivery>

    /** The POST and the writes that follow it, for one delivery of the batch. */
    method ProcessOne(i: nat, answer: Answer) returns (delivered: bool)
      requires i < |rows|
      modifies this
      ensures rows == old(rows)[i := Attempt(old(rows[i]), answer)]
      ensures delivered <==> answer.Http? && 200 <= answer.code <= 299
      ensures old(rows[i]).status == PENDING && old(rows[i]).attempts < 5 ==>
                AttemptedOnce(old(rows[i]), rows[i], answer)
    {
      var delivery := rows[i];
      delivered := false;
      if answer.Inactive? {
        rows := rows[i := delivery.(status := CANCELLED)];
        return;
      }
      delivery := delivery.(posts := delivery.posts + 1);
      if Ok(answer) {
        rows := rows[i := delivery.(status := DELIVERED, httpStatus := answer.code, attempts := delivery.attempts + 1)];
        delivered := true;
      } else {
        MarkFailed(i, delivery, if answer.Http? then answer.code else 0);
      }
    }

    method MarkFailed(i: nat, delivery: Delivery, httpStatus: int)
      requires i < |rows|
      modifies this
      ensures var attempts := delivery.attempts + 1;
              rows == old(rows)[i := delivery.(attempts := attempts, httpStatus := httpStatus,
                                               status := if attempts >= MAX_ATTEMPTS then FAILED else PENDING)]
      ensures delivery.posts == delivery.attempts + 1 + delivery.lost && delivery.attempts < MAX_ATTEMPTS ==>
                Sound(rows[i])
    {
      var attempts := delivery.attempts + 1;
      rows := rows[i := delivery.(attempts := attempts, httpStatus := httpStatus,
                                  status := if attempts >= MAX_ATTEMPTS then FAILED else PENDING)];
    }

    /** One poll. After `budget` deliveries the worker is told to stop, or, with `dies`, the next one is
        POSTed and the process dies or the write of the outcome fails, which ends the poll. The API
        service's copy is never told to stop. A budget from fifty up means that the poll is complete. */
    method ProcessDeliveries(answers: Answers, budget: nat, dies: bool) returns (delivered: nat)
      modifies this
      ensures rows == Act(old(rows), PollWith(answers, budget, dies))
      ensures Polled(old(rows), rows, answers, budget, dies)
      ensures delivered == CountDelivered(rows) - CountDelivered(old(rows))
    {
      ghost var before := rows;
      var pending := FindPending(rows, 0, BATCH);
      delivered := 0;
      var k := 0;
      WindowIsFound(before, BATCH, pending, 0);
      while k < |pending| && k < budget
        invariant k <= |pending| && k <= budget
        invariant rows == Poll(before, answers, k)
        invariant delivered == CountDelivered(rows) - CountDelivered(before)
      {
        var i := pending[k];
        PollStep(before, answers, pending, k);
        CountUpdate(rows, i, Attempt(rows[i], answers(i)));
        var ok := ProcessOne(i, answers(i));
        if ok {
          delivered := delivered + 1;
        }
        k := k + 1;
      }
      PollEnds(before, answers, pending, k, budget, dies);
      ActPolls(before, answers, budget, dies);
      if dies && k < |pending| {
        var i := pending[k];
        CountUpdate(rows, i, Forgotten(rows[i], answers(i)));
        rows := rows[i := Forgotten(rows[i], answers(i))];
      }
    }
  }

  function CountDelivered(rows: seq<Delivery>): nat {
    if rows == [] then 0
    else CountDelivered(rows[..|rows| - 1]) + if rows[|rows| - 1].status == DELIVERED then 1 else 0
  }

  lemma {:induction false} CountUpdate(rows: seq<Delivery>, i: nat, d: Delivery)
    requires i < |rows| && rows[i].status != DELIVERED
    ensures CountDelivered(rows[i := d]) == CountDelivered(rows) + if d.status == DELIVERED then 1 else 0
    decreases |rows|
  {
    var last := |rows| - 1;
    if i < last {
      assert rows[i := d][..last] == rows[..last][i := d];
      CountUpdate(rows[..last], i, d);
    } else {
      assert rows[i := d][..last] == rows[..last];
    }
  }

  // ---------------------------------------------------------------- what every poll keeps

  /** A row as the queue leaves it: no pending row is out of attempts (so none is stranded by the
      query), those that used them up without being delivered are the failed ones, and POSTs are
      counted by `attempts` but for those whose outcome was lost. */
  predicate Sound(d: Delivery) {
    && d.posts == d.attempts + d.lost && d.attempts <= MAX_ATTEMPTS
    && (d.status == PENDING ==> d.attempts < MAX_ATTEMPTS)
    && (d.status == FAILED <==> d.attempts == MAX_ATTEMPTS && d.status != DELIVERED)
    && (d.status == DELIVERED ==> d.attempts >= 1 && 200 <= d.httpStatus <= 299)
  }

  /** An answer outside 200 to 299, or none, costs a due delivery one attempt and one POST and leaves it
      sound: FAILED if that was its fifth, and otherwise due again, so the next query finds it. */
  lemma {:induction false} FailureCosts(d: Delivery, answer: Answer)
    requires Sound(d) && d.status == PENDING && answer != Inactive
    requires answer.Http? ==> answer.code < 200 || answer.code > 299
    ensures var r := Attempt(d, answer);
            && Sound(r) && r.attempts == d.attempts + 1 && r.posts == d.posts + 1
            && (r.status == FAILED <==> d.attempts == 4) && (Due(r) <==> d.attempts < 4)
  {
  }

  predicate AllSound(rows: seq<Delivery>) {
    forall i :: 0 <= i < |rows| ==> Sound(rows[i])
  }

  const NEW := Delivery(PENDING, 0, 0, 0, 0)

  /** What may happen to the queue: deliveries are enqueued, and it is polled. */
  datatype Action = Enqueue | PollWith(answers: Answers, budget: nat, dies: bool)

  function Act(rows: seq<Delivery>, a: Action): seq<Delivery> {
    match a
    case Enqueue => rows + [NEW]
    case PollWith(answers, budget, dies) =>
      if budget >= BATCH then Poll(rows, answers, BATCH)
      else if dies then DyingPoll(rows, answers, budget)
      else Poll(rows, answers, budget)
  }

  /** One row after a poll: tried if it is due and fewer than fifty, and fewer than `budget`, due rows are
      before it; POSTed without a trace if the poll died on it; and otherwise as it was. */
  ghost predicate RowPolled(before: seq<Delivery>, after: seq<Delivery>, answers: Answers, budget: nat, dies: bool,
          i: nat)
    requires i < |before| == |after|
  {
    var d, ahead := before[i], CountDue(before[..i]);
    if d.status == PENDING && d.attempts < 5 && ahead < 50 && ahead < budget
    then AttemptedOnce(d, after[i], answers(i))
    else if d.status == PENDING && d.attempts < 5 && dies && ahead == budget < 50 && answers(i) != Inactive
    then after[i] == Delivery(PENDING, d.attempts, d.httpStatus, d.posts + 1, d.lost + 1)
    else after[i] == d
  }

  ghost predicate Polled(before: seq<Delivery>, after: seq<Delivery>, answers: Answers, budget: nat, dies: bool) {
    |after| == |before| && forall i :: 0 <= i < |before| ==> RowPolled(before, after, answers, budget, dies, i)
  }

  lemma {:induction false} ActPolls(rows: seq<Delivery>, answers: Answers, budget: nat, dies: bool)
    ensures Polled(rows, Act(rows, PollWith(answers, budget, dies)), answers, budget, dies)
  {
    forall i | 0 <= i < |rows|
      ensures RowPolled(rows, Act(rows, PollWith(answers, budget, dies)), answers, budget, dies, i)
    {
      if rows[i].status == PENDING && rows[i].attempts < 5 {
        AttemptOutcome(rows[i], answers(i));
      }
    }
  }

  function Run(rows: seq<Delivery>, actions: seq<Action>): seq<Delivery>
    decreases |actions|
  {
    if actions == [] then rows else Run(Act(rows, actions[0]), actions[1..])
  }

  /** In every run from an empty queue every row is sound; so each is POSTed at most five times, not
      counting the POSTs whose outcome was lost. */
  lemma {:induction false} AlwaysSound(rows: seq<Delivery>, actions: seq<Action>)
    requires AllSound(rows)
    ensures AllSound(Run(rows, actions))
    decreases |actions|
  {
    if actions != [] {
      AlwaysSound(Act(rows, actions[0]), actions[1..]);
    }
  }

  /** A row that is not pending never changes again. */
  lemma {:induction false} SettledForever(rows: seq<Delivery>, actions: seq<Action>, i: nat)
    requires i < |rows| && rows[i].status != PENDING
    ensures i < |Run(rows, actions)| && Run(rows, actions)[i] == rows[i]
    decreases |actions|
  {
    if actions != [] {
      SettledForever(Act(rows, actions[0]), actions[1..], i);
    }
  }

  // ---------------------------------------------------------------- draining

  predicate OnlyPolls(actions: seq<Action>) {
    forall k :: 0 <= k < |actions| ==> actions[k].PollWith?
  }

  /** The complete polls among the actions. */
  function Complete(actions: seq<Action>): nat {
    if actions == [] then 0
    else (if actions[0].PollWith? && actions[0].budget >= BATCH then 1 else 0) + Complete(actions[1..])
  }

  lemma {:induction false} RunAppend(rows: seq<Delivery>, actions: seq<Action>, more: seq<Action>)
    ensures Run(rows, actions + more) == Run(Run(rows, actions), more)
    decreases |actions|
  {
    if actions == [] {
      assert actions + more == more;
    } else {
      assert (actions + more)[1..] == actions[1..] + more;
      RunAppend(Act(rows, actions[0]), actions[1..], more);
    }
  }

  /** Where the first n complete polls end. */
  lemma {:induction false} CutComplete(actions: seq<Action>, n: nat) returns (cut: nat)
    requires n <= Complete(actions)
    ensures cut <= |actions| && Complete(actions[..cut]) == n && Complete(actions[cut..]) == Complete(actions) - n
    decreases |actions|
  {
    if n == 0 {
      cut := 0;
      assert actions[0..] == actions && actions[..0] == [];
    } else {
      var first := if actions[0].PollWith? && actions[0].budget >= BATCH then 1 else 0;
      var rest := CutComplete(actions[1..], n - first);
      cut := rest + 1;
      assert actions[..cut][1..] == actions[1..][..rest] && actions[cut..] == actions[1..][rest..];
    }
  }

  /** Rows that are due afterwards were due before, so no prefix gains due rows. */
  predicate Settles(before: seq<Delivery>, after: seq<Delivery>) {
    |before| == |after| && forall i :: 0 <= i < |before| && Due(after[i]) ==> Due(before[i])
  }

  lemma {:induction false} CountShrinks(before: seq<Delivery>, after: seq<Delivery>)
    requires Settles(before, after)
    ensures CountDue(after) <= CountDue(before)
    decreases |before|
  {
    if before != [] {
      var last := |before| - 1;
      assert forall i :: 0 <= i < last ==> before[..last][i] == before[i] && after[..last][i] == after[i];
      CountShrinks(before[..last], after[..last]);
    }
  }

  lemma {:induction false} CountSplit(rows: seq<Delivery>, cut: nat)
    requires cut <= |rows|
    ensures CountDue(rows) == CountDue(rows[..cut]) + CountDue(rows[cut..])
    decreases |rows|
  {
    if cut < |rows| {
      var last := |rows| - 1;
      assert rows[..last][..cut] == rows[..cut] && rows[..last][cut..] == rows[cut..][..last - cut];
      assert rows[cut..][last - cut] == rows[last];
      CountSplit(rows[..last], cut);
    } else {
      assert rows[..cut] == rows && rows[cut..] == [];
    }
  }

  /** Where the first fifty due rows end. */
  lemma {:induction false} FindCut(rows: seq<Delivery>) returns (cut: nat)
    ensures cut <= |rows|
    ensures CountDue(rows[..cut]) == if CountDue(rows) < BATCH then CountDue(rows) else BATCH
    ensures CountDue(rows) < BATCH ==> cut == |rows|
    decreases |rows|
  {
    if CountDue(rows) <= BATCH {
      cut := |rows|;
      assert rows[..cut] == rows;
    } else {
      var last := |rows| - 1;
      cut := FindCut(rows[..last]);
      assert rows[..last][..cut] == rows[..cut];
    }
  }

  lemma {:induction false} ActSettles(rows: seq<Delivery>, a: Action)
    requires a.PollWith?
    ensures Settles(rows, Act(rows, a))
    ensures forall i :: 0 <= i < |rows| && Due(Act(rows, a)[i]) ==> Act(rows, a)[i].attempts >= rows[i].attempts
  {
  }

  lemma {:induction false} FrontIsTried(rows: seq<Delivery>, answers: Answers, cut: nat)
    requires cut <= |rows| && CountDue(rows[..cut]) <= BATCH
    ensures forall i :: 0 <= i < cut && Due(Poll(rows, answers, BATCH)[i]) ==>
              Poll(rows, answers, BATCH)[i].attempts == rows[i].attempts + 1
  {
    forall i | 0 <= i < cut && Due(rows[i])
      ensures InWindow(rows, BATCH, i)
    {
      CountGrows(rows, i + 1, cut);
      assert rows[..i + 1][..i] == rows[..i];
    }
  }

  lemma {:induction false} SettlesPrefix(before: seq<Delivery>, after: seq<Delivery>, cut: nat)
    requires Settles(before, after) && cut <= |before|
    ensures CountDue(after[..cut]) <= CountDue(before[..cut])
  {
    assert forall i :: 0 <= i < cut ==> before[..cut][i] == before[i] && after[..cut][i] == after[i];
    CountShrinks(before[..cut], after[..cut]);
  }

  /** With at most fifty due rows in front of the cut, every complete poll tries each of them. */
  lemma {:induction false} FrontAges(rows: seq<Delivery>, actions: seq<Action>, cut: nat, age: nat)
    requires cut <= |rows| && CountDue(rows[..cut]) <= BATCH && OnlyPolls(actions)
    requires forall i :: 0 <= i < cut && Due(rows[i]) ==> rows[i].attempts >= age
    ensures Settles(rows, Run(rows, actions))
    ensures forall i :: 0 <= i < cut && Due(Run(rows, actions)[i]) ==>
              Run(rows, actions)[i].attempts >= age + Complete(actions)
    decreases |actions|
  {
    if actions != [] {
      var a, next := actions[0], Act(rows, actions[0]);
      ActSettles(rows, a);
      FrontIsTried(rows, a.answers, cut);
      SettlesPrefix(rows, next, cut);
      FrontAges(next, actions[1..], cut, age + if a.budget >= BATCH then 1 else 0);
    }
  }

  /** Five complete polls settle the first fifty due rows, whatever they answer and however many
      incomplete ones come in between. */
  lemma {:induction false} FivePolls(rows: seq<Delivery>, actions: seq<Action>)
    requires OnlyPolls(actions) && Complete(actions) >= MAX_ATTEMPTS
    ensures |Run(rows, actions)| == |rows|
    ensures CountDue(Run(rows, actions)) <= if CountDue(rows) < BATCH then 0 else CountDue(rows) - BATCH
  {
    var cut := FindCut(rows);
    var after := Run(rows, actions);
    FrontAges(rows, actions, cut, 0);
    assert forall i :: 0 <= i < cut ==> !Due(after[i]);
    NoneDue(after[..cut]);
    CountSplit(rows, cut);
    CountSplit(after, cut);
    assert Settles(rows[cut..], after[cut..]) by {
      assert forall i :: 0 <= i < |rows| - cut ==> rows[cut..][i] == rows[cut + i] && after[cut..][i] == after[cut + i];
    }
    CountShrinks(rows[cut..], after[cut..]);
    if CountDue(rows) < BATCH {
      assert after[..cut] == after;
    }
  }

  lemma {:induction false} NoneDue(rows: seq<Delivery>)
    requires forall i :: 0 <= i < |rows| ==> !Due(rows[i])
    ensures CountDue(rows) == 0
    decreases |rows|
  {
    if rows != [] {
      NoneDue(rows[..|rows| - 1]);
    }
  }

  lemma {:induction false} ZeroDue(rows: seq<Delivery>)
    requires CountDue(rows) == 0
    ensures forall i :: 0 <= i < |rows| ==> !Due(rows[i])
    decreases |rows|
  {
    if rows != [] {
      var last := |rows| - 1;
      ZeroDue(rows[..last]);
      assert forall i :: 0 <= i < last ==> rows[..last][i] == rows[i];
    }
  }

  /** Rounds of fifty that n deliveries need. */
  function Rounds(n: nat): nat {
    (n + BATCH - 1) / BATCH
  }

  lemma {:induction false} FewerRounds(n: nat, left: nat)
    requires n > 0 && left <= if n < BATCH then 0 else n - BATCH
    ensures Rounds(left) < Rounds(n)
  {
  }

  lemma {:induction false} DrainCount(rows: seq<Delivery>, actions: seq<Action>)
    requires OnlyPolls(actions) && Complete(actions) >= MAX_ATTEMPTS * Rounds(CountDue(rows))
    ensures |Run(rows, actions)| == |rows| && CountDue(Run(rows, actions)) == 0
    decreases CountDue(rows)
  {
    if CountDue(rows) > 0 {
      FewerRounds(CountDue(rows), 0);
      var cut := CutComplete(actions, MAX_ATTEMPTS);
      var first, rest := actions[..cut], actions[cut..];
      assert actions == first + rest;
      RunAppend(rows, first, rest);
      FivePolls(rows, first);
      FewerRounds(CountDue(rows), CountDue(Run(rows, first)));
      DrainCount(Run(rows, first), rest);
    } else {
      StaysDrained(rows, actions);
    }
  }

  lemma {:induction false} StaysDrained(rows: seq<Delivery>, actions: seq<Action>)
    requires CountDue(rows) == 0 && OnlyPolls(actions)
    ensures |Run(rows, actions)| == |rows| && CountDue(Run(rows, actions)) == 0
  {
    assert rows[..|rows|] == rows;
    FrontAges(rows, actions, |rows|, 0);
    CountShrinks(rows, Run(rows, actions));
  }

  /** With n pending deliveries and none added, no delivery is pending once 5 * ceil(n / 50) polls were
      complete, whatever the endpoints answer and however many polls were cut short in between. */
  lemma {:induction false} Drained(rows: seq<Delivery>, actions: seq<Action>)
    requires AllSound(rows) && OnlyPolls(actions) && Complete(actions) >= MAX_ATTEMPTS * Rounds(CountDue(rows))
    ensures |Run(rows, actions)| == |rows|
    ensures forall i :: 0 <= i < |rows| ==> Run(rows, actions)[i].status != PENDING
  {
    DrainCount(rows, actions);
    AlwaysSound(rows, actions);
    ZeroDue(Run(rows, actions));
  }

  function PendingRows(rows: seq<Delivery>): set<nat> {
    set i | 0 <= i < |rows| && rows[i].status == PENDING
  }

  lemma {:induction false} PendingOfPrefix(rows: seq<Delivery>)
    requires rows != [] && Sound(rows[|rows| - 1])
    ensures var last := |rows| - 1;
            && last !in PendingRows(rows[..last])
            && PendingRows(rows) == PendingRows(rows[..last]) + if Due(rows[last]) then {last} else {}
  {
    var last := |rows| - 1;
    forall i: nat
      ensures i in PendingRows(rows) <==> i in PendingRows(rows[..last]) || (Due(rows[last]) && i == last)
    {
      if i < last {
        assert rows[..last][i] == rows[i];
      }
    }
  }

  /** Under AllSound the pending rows are the due rows: the count in `Drained` is the number pending. */
  lemma {:induction false} DueIsPending(rows: seq<Delivery>)
    requires AllSound(rows)
    ensures CountDue(rows) == |PendingRows(rows)|
    decreases |rows|
  {
    if rows != [] {
      DueIsPending(rows[..|rows| - 1]);
      PendingOfPrefix(rows);
    }
  }
}
