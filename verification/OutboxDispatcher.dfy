/** The dispatcher's own code: one poll loop that updates the outbox rows in place. Each write is
    shown to be a step of the protocol, so every guarantee about its runs holds of these rows. */
module OutboxDispatcher {
  import opened Wrappers
  import opened Outbox
  import OutboxSafety
  import OutboxSolo

  /** What the surroundings decide about one publish: how long it takes, whether the channel takes
      the message, whether the call returns, and whether the two writes after it go through. */
  datatype Trial = Trial(ms: nat, handed: bool, ok: bool, marked: bool, recorded: bool)

  /** An error in the error branch: it escapes and ends the loop. */
  predicate Escapes(trial: Trial) {
    !(trial.ok && trial.marked) && !trial.recorded
  }

  class Dispatcher {
    var clock: int
    var rows: seq<Row>
    var alive: bool
    ghost var loop: Loop            // the program counter, in the protocol's terms
    ghost var history: seq<Action>  // the steps taken so far

    ghost predicate Valid()
      reads this
    {
      && System(clock, rows, [loop]) == Exec(EMPTY, history)
      && OutboxSolo.SoloRun(history)
      && (alive <==> !loop.Stopped?)
    }

    constructor ()
      ensures Valid() && alive && loop == Idle && rows == [] && clock == 0
    {
      clock, rows, alive, loop, history := 0, [], true, Idle, [Spawn];
      ExecSnoc(EMPTY, [], Spawn);
      assert [] + [Spawn] == [Spawn];
      forall k | 0 <= k <= 1
        ensures OutboxSolo.Alone(Exec(EMPTY, [Spawn][..k]))
      {
        assert [Spawn][..k] == if k == 0 then [] else [Spawn];
      }
    }

    /** Time passes. */
    method Advance(ms: nat)
      requires Valid()
      modifies this`clock, this`history
      ensures Valid() && clock == old(clock) + ms && history == old(history) + [Tick(ms)]
    {
      clock := clock + ms;
      Extended(history, Tick(ms));
      history := history + [Tick(ms)];
    }

    /** Another transaction adds a row. */
    method Add()
      requires Valid()
      modifies this`rows, this`history
      ensures Valid() && history == old(history) + [Enqueue]
      ensures rows == old(rows) + [Row(PENDING, 0, clock, None, 0, 0, 0, 0, None, None)]
    {
      rows := rows + [NewRow(clock)];
      Extended(history, Enqueue);
      history := history + [Enqueue];
    }

    /** `updateMany` on the lock that was read. */
    method ClaimRow(now: int, ev: Snap, ghost rest: seq<Snap>) returns (claimed: bool)
      requires Valid() && loop == Working(now, [ev] + rest) && ev.id < |rows|
      modifies this`rows, this`loop, this`history
      ensures Valid() && history == old(history) + [Claim(0)]
      ensures claimed <==> old(rows)[ev.id].lockedAt == ev.lockedAt
      ensures loop == if claimed then Publishing(now, ev, rest) else Working(now, rest)
      ensures rows == if claimed then old(rows)[ev.id := old(rows)[ev.id].(lockedAt := Some(now))] else old(rows)
    {
      claimed := rows[ev.id].lockedAt == ev.lockedAt;
      if claimed {
        rows := rows[ev.id := rows[ev.id].(lockedAt := Some(now))];
      }
      assert ([ev] + rest)[1..] == rest;
      loop := if claimed then Publishing(now, ev, rest) else Working(now, rest);
      Extended(history, Claim(0));
      history := history + [Claim(0)];
    }

    method PublishRow(now: int, ev: Snap, ghost rest: seq<Snap>, handed: bool, ok: bool)
      requires Valid() && loop == Publishing(now, ev, rest) && ev.id < |rows|
      modifies this`rows, this`loop, this`history
      ensures Valid() && history == old(history) + [Publish(0, handed, ok)]
      ensures loop == if ok then Marking(now, ev, rest) else Failing(now, ev, rest)
      ensures rows == old(rows)[ev.id := Tried(old(rows)[ev.id], handed || ok)]
    {
      rows := rows[ev.id := rows[ev.id].(tries := rows[ev.id].tries + 1,
                                         handed := rows[ev.id].handed + if handed || ok then 1 else 0)];
      loop := if ok then Marking(now, ev, rest) else Failing(now, ev, rest);
      Extended(history, Publish(0, handed, ok));
      history := history + [Publish(0, handed, ok)];
    }

    method MarkSent(now: int, ev: Snap, ghost rest: seq<Snap>, ok: bool)
      requires Valid() && loop == Marking(now, ev, rest) && ev.id < |rows|
      modifies this`rows, this`loop, this`history
      ensures Valid() && history == old(history) + [Mark(0, ok)]
      ensures loop == if ok then Working(now, rest) else Failing(now, ev, rest)
      ensures rows == if ok then old(rows)[ev.id := Sent(old(rows)[ev.id])] else old(rows)
    {
      if ok {
        rows := rows[ev.id := rows[ev.id].(status := SENT, lockedAt := None)];
      }
      loop := if ok then Working(now, rest) else Failing(now, ev, rest);
      Extended(history, Mark(0, ok));
      history := history + [Mark(0, ok)];
    }

    /** The error branch; an error in its own write escapes and ends the loop. */
    method CatchFailure(now: int, ev: Snap, ghost rest: seq<Snap>, ok: bool)
      requires Valid() && loop == Failing(now, ev, rest) && ev.id < |rows|
      modifies this`rows, this`alive, this`loop, this`history
      ensures Valid() && history == old(history) + [Record(0, ok)]
      ensures alive == ok && loop == if ok then Working(now, rest) else Stopped
      ensures var row := old(rows)[ev.id];
              rows == old(rows)[ev.id := if ok then Failed(row, ev, clock) else Forgotten(row)]
    {
      if ok {
        RecordFailure(ev);
      } else {
        rows := rows[ev.id := rows[ev.id].(lost := rows[ev.id].lost + 1)];
      }
      alive := ok;
      loop := if ok then Working(now, rest) else Stopped;
      Extended(history, Record(0, ok));
      history := history + [Record(0, ok)];
    }

    /** Publishing and writing the outcome, as the body of the batch loop does. */
    method Deliver(now: int, ev: Snap, ghost rest: seq<Snap>, trial: Trial)
      requires Valid() && alive && loop == Publishing(now, ev, rest) && ev.id < |rows|
      modifies this
      ensures Valid() && old(history) <= history
      ensures alive ==> loop == Working(now, rest)
      ensures clock == old(clock) + trial.ms
      ensures rows == old(rows)[ev.id := Delivered(old(rows)[ev.id], ev, trial, clock)]
      ensures alive <==> (trial.ok && trial.marked) || trial.recorded
    {
      Advance(trial.ms);
      PublishRow(now, ev, rest, trial.handed, trial.ok);
      if trial.ok {
        MarkSent(now, ev, rest, trial.marked);
      }
      if !(trial.ok && trial.marked) {
        CatchFailure(now, ev, rest, trial.recorded);
      }
    }

    /** Attempts from the snapshot, exponential backoff, death at the seventh. */
    method RecordFailure(ev: Snap)
      requires ev.id < |rows|
      modifies this`rows
      ensures rows == old(rows)[ev.id := Failed(old(rows)[ev.id], ev, clock)]
      ensures FailedFrom(old(rows)[ev.id], rows[ev.id], ev.attempts, clock)
    {
      FailedOutcome(rows[ev.id], ev, clock);
      var attempts := ev.attempts + 1;
      var backoffSeconds := Min(60, Pow2(Min(6, attempts)));
      var availableAt := clock + backoffSeconds * 1000;
      var row := rows[ev.id];
      rows := rows[ev.id := row.(attempts := attempts, lockedAt := None, availableAt := availableAt,
                                 status := if attempts >= 7 then DEAD else PENDING,
                                 failures := row.failures + 1,
                                 firstFailure := if row.firstFailure.None? then Some(clock) else row.firstFailure,
                                 deadAt := if attempts >= 7 then Some(clock) else row.deadAt)];
    }

    method BeginPoll(now: int) returns (batch: seq<Snap>)
      requires Valid() && loop == Idle && now == clock
      modifies this`loop, this`history
      ensures Valid() && batch == ReadBatch(rows, now, 0, BATCH) && loop == Working(now, batch)
      ensures history == old(history) + [Begin(0)] + [Read(0)]
    {
      loop := Polling(now);
      Extended(history, Begin(0));
      history := history + [Begin(0)];
      batch := ReadBatch(rows, now, 0, BATCH);
      loop := Working(now, batch);
      Extended(history, Read(0));
      history := history + [Read(0)];
    }

    method EndPoll(now: int)
      requires Valid() && loop == Working(now, [])
      modifies this`loop, this`history
      ensures Valid() && loop == Idle && history == old(history) + [Claim(0)]
    {
      loop := Idle;
      Extended(history, Claim(0));
      history := history + [Claim(0)];
    }

    /** One turn of the poll loop. The rows that are PENDING, due and unlocked, or locked more than a minute
        ago, are tried once each, in order, at the right instants, the first fifty of them, or fewer when
        an error in the error branch of the last row tried ends the loop. No other row changes. */
    method PollOnce(trials: nat -> Trial) returns (ghost tried: nat)
      requires Valid() && alive && loop == Idle
      modifies this
      ensures Valid() && (alive ==> loop == Idle) && old(history) <= history
      ensures var batch := ReadBatch(old(rows), old(clock), 0, BATCH);
              && OnlyBatchChanged(old(rows), rows, batch) && tried <= |batch|
              && Progress(old(rows), rows, old(clock), batch, trials, tried)
              && clock == ClockAfter(old(clock), trials, tried)
              && (alive ==> tried == |batch|)
              && (!alive ==> tried > 0 && Escapes(trials(tried - 1)))
      ensures Polled(old(rows), rows, old(clock), trials, if alive then 50 else tried)
    {
      var now := clock;
      var batch := BeginPoll(now);
      ProgressStart(rows, now, trials);
      tried := RunBatch(now, batch, trials);
      BatchPolled(old(rows), rows, now, batch, trials, tried, if alive then 50 else tried);
      if alive {
        EndPoll(now);
      }
    }

    /** The loop over a batch. */
    method RunBatch(now: int, batch: seq<Snap>, trials: nat -> Trial) returns (ghost tried: nat)
      requires Valid() && alive && loop == Working(now, batch) && clock == now
      requires Progress(rows, rows, now, batch, trials, 0)
      modifies this
      ensures Valid() && old(history) <= history && OnlyBatchChanged(old(rows), rows, batch)
      ensures tried <= |batch| && Progress(old(rows), rows, now, batch, trials, tried)
      ensures clock == ClockAfter(now, trials, tried)
      ensures alive ==> loop == Working(now, []) && tried == |batch|
      ensures !alive ==> tried > 0 && Escapes(trials(tried - 1))
    {
      ghost var before := rows;
      var k := 0;
      assert batch[0..] == batch;
      while k < |batch| && alive
        invariant k <= |batch| && Valid() && old(history) <= history && OnlyBatchChanged(before, rows, batch)
        invariant Progress(before, rows, now, batch, trials, k) && clock == ClockAfter(now, trials, k)
        invariant alive ==> loop == Working(now, batch[k..])
        invariant !alive ==> k > 0 && Escapes(trials(k - 1))
      {
        assert batch[k..] == [batch[k]] + batch[k + 1..];
        NextRow(now, batch, k, trials, before);
        k := k + 1;
      }
      assert batch[|batch|..] == [];
      tried := k;
    }

    method NextRow(now: int, batch: seq<Snap>, k: nat, trials: nat -> Trial, ghost before: seq<Row>)
      requires k < |batch| && Valid() && alive && loop == Working(now, [batch[k]] + batch[k + 1..])
      requires OnlyBatchChanged(before, rows, batch) && Progress(before, rows, now, batch, trials, k)
      requires clock == ClockAfter(now, trials, k)
      modifies this
      ensures Valid() && old(history) <= history && OnlyBatchChanged(before, rows, batch)
      ensures Progress(before, rows, now, batch, trials, k + 1) && clock == ClockAfter(now, trials, k + 1)
      ensures alive ==> loop == Working(now, batch[k + 1..])
      ensures alive <==> !Escapes(trials(k))
    {
      Claimable(before, rows, now, batch, trials, k);
      TryRow(now, batch[k], batch[k + 1..], trials(k));
      ProgressStep(before, old(rows), rows, now, batch, trials, k);
    }

    /** The body of the batch loop. */
    method TryRow(now: int, ev: Snap, ghost rest: seq<Snap>, trial: Trial)
      requires Valid() && alive && loop == Working(now, [ev] + rest) && ev.id < |rows|
      modifies this
      ensures Valid() && old(history) <= history
      ensures var row := old(rows)[ev.id];
              if row.lockedAt == ev.lockedAt then
                && rows == old(rows)[ev.id := Delivered(row.(lockedAt := Some(now)), ev, trial, clock)]
                && clock == old(clock) + trial.ms && (alive <==> !Escapes(trial))
              else rows == old(rows) && clock == old(clock) && alive
      ensures alive ==> loop == Working(now, rest)
    {
      var claimed := ClaimRow(now, ev, rest);
      if !claimed {
        return;
      }
      Deliver(now, ev, rest, trial);
    }
  }

  /** The first k rows of the batch are done and the others are as they were read. */
  ghost predicate Progress(before: seq<Row>, rows: seq<Row>, now: int, batch: seq<Snap>, trials: nat -> Trial, k: nat)
    requires k <= |batch|
  {
    && |rows| == |before|
    && (forall j, l :: 0 <= j < l < |batch| ==> batch[j].id != batch[l].id)
    && (forall j :: 0 <= j < |batch| ==> batch[j].id < |before| && before[batch[j].id].lockedAt == batch[j].lockedAt)
    && (forall j :: 0 <= j < k ==> TriedOnce(before, rows, now, batch, trials, j))
    && (forall j :: k <= j < |batch| ==> rows[batch[j].id] == before[batch[j].id])
  }

  lemma {:induction false} ProgressStart(rows: seq<Row>, now: int, trials: nat -> Trial)
    ensures Progress(rows, rows, now, ReadBatch(rows, now, 0, BATCH), trials, 0)
  {
  }

  lemma {:induction false} Claimable(before: seq<Row>, rows: seq<Row>, now: int, batch: seq<Snap>,
          trials: nat -> Trial, k: nat)
    requires k < |batch| && |rows| == |before| && Progress(before, rows, now, batch, trials, k)
    ensures batch[k].id < |rows| && rows[batch[k].id].lockedAt == batch[k].lockedAt
  {
  }

  lemma {:induction false} ProgressStep(before: seq<Row>, rows: seq<Row>, after: seq<Row>, now: int, batch: seq<Snap>,
          trials: nat -> Trial, k: nat)
    requires k < |batch| && Progress(before, rows, now, batch, trials, k) && OnlyBatchChanged(before, rows, batch)
    requires after == rows[batch[k].id := Delivered(rows[batch[k].id].(lockedAt := Some(now)), batch[k], trials(k),
                                                   ClockAfter(now, trials, k + 1))]
    ensures Progress(before, after, now, batch, trials, k + 1) && OnlyBatchChanged(before, after, batch)
  {
    forall j | 0 <= j < k
      ensures TriedOnce(before, after, now, batch, trials, j)
    {
      assert TriedOnce(before, rows, now, batch, trials, j);
    }
    assert InBatch(batch, batch[k].id);
  }

  /** Rows outside the batch are as they were. */
  ghost predicate OnlyBatchChanged(before: seq<Row>, after: seq<Row>, batch: seq<Snap>) {
    |before| == |after| && forall i :: 0 <= i < |before| && !InBatch(batch, i) ==> after[i] == before[i]
  }

  ghost predicate InBatch(batch: seq<Snap>, i: nat) {
    exists k :: 0 <= k < |batch| && batch[k].id == i
  }

  function ClockAfter(start: int, trials: nat -> Trial, k: nat): int {
    if k == 0 then start else ClockAfter(start, trials, k - 1) + trials(k - 1).ms
  }

  /** The k-th row of a batch, claimed under the stamp of the poll and then delivered. */
  ghost predicate TriedOnce(before: seq<Row>, after: seq<Row>, now: int, batch: seq<Snap>, trials: nat -> Trial, k: nat)
    requires k < |batch| && |before| == |after|
  {
    && batch[k].id < |before|
    && after[batch[k].id]
       == Delivered(before[batch[k].id].(lockedAt := Some(now)), batch[k], trials(k), ClockAfter(now, trials, k + 1))
  }

  /** One row after a poll that began at `now` and tried the first `limit` rows it could. */
  ghost predicate RowPolled(before: seq<Row>, after: seq<Row>, now: int, trials: nat -> Trial, limit: nat, i: nat)
    requires i < |before| == |after|
  {
    var row, ahead := before[i], CountEligible(before[..i], now);
    if row.status == PENDING && row.availableAt <= now
       && (row.lockedAt.None? || row.lockedAt.value < now - 60_000) && ahead < limit
    then after[i] == Delivered(row.(lockedAt := Some(now)), Snap(i, row.attempts, row.lockedAt), trials(ahead),
                               ClockAfter(now, trials, ahead + 1))
    else after[i] == row
  }

  ghost predicate Polled(before: seq<Row>, after: seq<Row>, now: int, trials: nat -> Trial, limit: nat) {
    |after| == |before| && forall i :: 0 <= i < |before| ==> RowPolled(before, after, now, trials, limit, i)
  }

  lemma {:induction false} ReadRowPolled(before: seq<Row>, after: seq<Row>, now: int, batch: seq<Snap>,
          trials: nat -> Trial, tried: nat, limit: nat, k: nat)
    requires batch == ReadBatch(before, now, 0, BATCH) && k < |batch| && tried <= |batch|
    requires Progress(before, after, now, batch, trials, tried)
    requires limit == tried || (limit == 50 && tried == |batch|)
    ensures RowPolled(before, after, now, trials, limit, batch[k].id)
  {
    RankOfRead(before, now, 0, BATCH, k);
    if k < tried {
      assert TriedOnce(before, after, now, batch, trials, k);
    }
  }

  lemma {:induction false} OtherRowPolled(before: seq<Row>, after: seq<Row>, now: int, batch: seq<Snap>,
          trials: nat -> Trial, limit: nat, i: nat)
    requires batch == ReadBatch(before, now, 0, BATCH) && i < |before| && limit <= 50
    requires OnlyBatchChanged(before, after, batch) && !InBatch(batch, i)
    ensures RowPolled(before, after, now, trials, limit, i)
  {
    BatchIsFirstFifty(before, now, i);
    assert !exists k :: 0 <= k < |batch| && batch[k].id == i;
  }

  lemma {:induction false} BatchPolled(before: seq<Row>, after: seq<Row>, now: int, batch: seq<Snap>,
          trials: nat -> Trial, tried: nat, limit: nat)
    requires batch == ReadBatch(before, now, 0, BATCH) && tried <= |batch| && OnlyBatchChanged(before, after, batch)
    requires Progress(before, after, now, batch, trials, tried)
    requires limit == tried || (limit == 50 && tried == |batch|)
    ensures Polled(before, after, now, trials, limit)
  {
    forall i | 0 <= i < |before|
      ensures RowPolled(before, after, now, trials, limit, i)
    {
      if InBatch(batch, i) {
        var k :| 0 <= k < |batch| && batch[k].id == i;
        ReadRowPolled(before, after, now, batch, trials, tried, limit, k);
      } else {
        OtherRowPolled(before, after, now, batch, trials, limit, i);
      }
    }
  }

  function Tried(row: Row, handed: bool): Row {
    row.(tries := row.tries + 1, handed := row.handed + if handed then 1 else 0)
  }

  function Forgotten(row: Row): Row {
    row.(lost := row.lost + 1)
  }

  /** A claimed row after its publish and the write of the outcome. */
  function Delivered(row: Row, ev: Snap, trial: Trial, clock: int): Row {
    var tried := Tried(row, trial.handed || trial.ok);
    if trial.ok && trial.marked then Sent(tried)
    else if trial.recorded then Failed(tried, ev, clock)
    else Forgotten(tried)
  }

  /** `after` is `row` with one more failed attempt recorded at `clock`: unlocked, due again after 2, 4, 8,
      16, 32 or from then on 60 seconds, and DEAD from the seventh attempt on. */
  ghost predicate FailedFrom(row: Row, after: Row, attempts: nat, clock: int) {
    && after.attempts == attempts + 1 && after.lockedAt == None
    && (after.status == DEAD <==> attempts >= 6) && (after.status == PENDING <==> attempts < 6)
    && after.handed == row.handed && after.tries == row.tries && after.lost == row.lost
    && after.failures == row.failures + 1
    && after.firstFailure == (if row.firstFailure.None? then Some(clock) else row.firstFailure)
    && after.deadAt == (if attempts >= 6 then Some(clock) else row.deadAt)
    && var wait := after.availableAt - clock;
       && (attempts == 0 ==> wait == 2_000) && (attempts == 1 ==> wait == 4_000) && (attempts == 2 ==> wait == 8_000)
       && (attempts == 3 ==> wait == 16_000) && (attempts == 4 ==> wait == 32_000) && (attempts >= 5 ==> wait == 60_000)
  }

  lemma {:induction false} FailedOutcome(row: Row, ev: Snap, clock: int)
    ensures FailedFrom(row, Failed(row, ev, clock), ev.attempts, clock)
  {
    Backoffs(ev.attempts + 1);
  }

  /** What one trial of a claimed row leaves: SENT and unlocked; or a failure recorded, even when the
      message was taken and only the write of SENT failed; or, when that cannot be recorded either, the
      row as it was claimed, locked until the lease is over. */
  lemma {:induction false} TrialOutcome(row: Row, ev: Snap, trial: Trial, clock: int)
    ensures var after := Delivered(row, ev, trial, clock);
            && after.tries == row.tries + 1
            && after.handed == row.handed + (if trial.handed || trial.ok then 1 else 0)
            && (trial.ok && trial.marked ==>
                  && after.status == SENT && after.lockedAt == None && after.attempts == row.attempts
                  && after.availableAt == row.availableAt && after.failures == row.failures && after.lost == row.lost
                  && after.firstFailure == row.firstFailure && after.deadAt == row.deadAt)
            && (!(trial.ok && trial.marked) && trial.recorded ==>
                  FailedFrom(row.(tries := after.tries, handed := after.handed), after, ev.attempts, clock))
            && (!(trial.ok && trial.marked) && !trial.recorded ==>
                  after == row.(tries := after.tries, handed := after.handed, lost := row.lost + 1))
  {
    FailedOutcome(Tried(row, trial.handed || trial.ok), ev, clock);
  }

  lemma {:induction false} PrefixesOf(history: seq<Action>, a: Action, k: nat)
    requires k <= |history| + 1
    ensures (history + [a])[..k] == if k <= |history| then history[..k] else history + [a]
  {
  }

  /** A step of a run with a single loop extends it by that step. */
  lemma {:induction false} Extended(history: seq<Action>, a: Action)
    requires OutboxSolo.SoloRun(history) && |Exec(EMPTY, history).loops| == 1 && !a.Spawn?
    ensures Exec(EMPTY, history + [a]) == Apply(Exec(EMPTY, history), a)
    ensures OutboxSolo.SoloRun(history + [a])
  {
    ExecSnoc(EMPTY, history, a);
    StillAlone(Exec(EMPTY, history), a);
    forall k | 0 <= k <= |history| + 1
      ensures OutboxSolo.Alone(Exec(EMPTY, (history + [a])[..k]))
    {
      PrefixesOf(history, a, k);
    }
  }

  lemma {:induction false} StillAlone(s: System, a: Action)
    requires |s.loops| == 1 && !a.Spawn?
    ensures OutboxSolo.Alone(Apply(s, a))
  {
  }

  /** What the protocol promises of the rows of a dispatcher, at any time between its polls. */
  lemma {:induction false} RowGuarantees(d: Dispatcher, i: nat)
    requires d.Valid() && i < |d.rows|
    ensures var row := d.rows[i];
            && row.attempts == row.failures <= 7
            && row.tries <= 7 + row.lost
            && (row.status == SENT ==> row.handed >= 1)
            && (row.status == DEAD ==> row.deadAt.Some? && row.firstFailure.Some?
                                       && row.deadAt.value - row.firstFailure.value >= 122_000)
  {
    OutboxSolo.AttemptsAreExact(d.history, i);
    OutboxSolo.SoloInvariant(d.history);
    OutboxSafety.CountersInEveryRun(d.history);
    assert OutboxSolo.RowExact(d.rows[i]) && OutboxSafety.RowOk(d.rows[i]);
    if d.rows[i].status == DEAD {
      OutboxSolo.DeathTakes122Seconds(d.history, i);
    }
  }
}
