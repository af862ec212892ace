/** What holds when at most one poll loop is alive at a time: a single worker, with restarts after
    crashes. */
module OutboxSolo {
  import opened Wrappers
  import opened Outbox

  predicate Alone(s: System) {
    forall l, m :: 0 <= l < m < |s.loops| ==> s.loops[l].Stopped? || s.loops[m].Stopped?
  }

  /** The waits before the first k retries, in milliseconds. */
  function Waited(k: nat): int {
    if k == 0 then 0 else Waited(k - 1) + Backoff(k)
  }

  lemma {:induction false} WaitedSix()
    ensures Waited(6) == 122_000
  {
  }

  /** Tries of a row whose outcome is on record or lost. */
  function Settled(row: Row): nat {
    row.failures + row.lost + if row.status == SENT then 1 else 0
  }

  predicate RowExact(row: Row) {
    && row.attempts == row.failures <= MAX_TRIES
    && (row.status == DEAD <==> row.attempts == MAX_TRIES)
    && (row.firstFailure.Some? <==> row.failures > 0)
    && (row.status == PENDING && row.firstFailure.Some? ==>
          row.availableAt >= row.firstFailure.value + Waited(row.attempts))
    && (row.status == DEAD ==> row.deadAt.Some? && row.deadAt.value >= row.firstFailure.value + Waited(6))
  }

  /** The snapshot still describes the row, and the row was due when the poll began. */
  predicate Fresh(rows: seq<Row>, now: int, ev: Snap) {
    && ev.id < |rows|
    && rows[ev.id].status == PENDING && rows[ev.id].attempts == ev.attempts && rows[ev.id].availableAt <= now
  }

  predicate FreshBatch(rows: seq<Row>, now: int, batch: seq<Snap>) {
    && (forall k :: 0 <= k < |batch| ==> Fresh(rows, now, batch[k]) && rows[batch[k].id].lockedAt == batch[k].lockedAt)
    && (forall k, j :: 0 <= k < j < |batch| ==> batch[k].id < batch[j].id)
  }

  predicate FreshLoop(rows: seq<Row>, clock: int, loop: Loop) {
    && (loop.Idle? || loop.Stopped? || loop.now <= clock)
    && (loop.Working? || loop.Owner() ==> FreshBatch(rows, loop.now, loop.batch))
    && (loop.Owner() ==>
          && Fresh(rows, loop.now, loop.ev)
          && (forall k :: 0 <= k < |loop.batch| ==> loop.ev.id < loop.batch[k].id))
  }

  /** A try of row i is under way. */
  predicate InFlight(loop: Loop, i: nat) {
    (loop.Marking? || loop.Failing?) && loop.ev.id == i
  }

  predicate SomeInFlight(s: System, i: nat) {
    exists l :: 0 <= l < |s.loops| && InFlight(s.loops[l], i)
  }

  predicate SoloOk(s: System) {
    && (forall i :: 0 <= i < |s.rows| ==> RowExact(s.rows[i]))
    && (forall l :: 0 <= l < |s.loops| ==> FreshLoop(s.rows, s.clock, s.loops[l]))
    && (forall i :: 0 <= i < |s.rows| ==> s.rows[i].tries == Settled(s.rows[i]) + if SomeInFlight(s, i) then 1 else 0)
  }

  /** When the live loop moves, the flight of every row is decided by it alone. */
  lemma {:induction false} FlightOf(s: System, l: nat, i: nat)
    requires Alone(s) && l < |s.loops| && !s.loops[l].Stopped?
    ensures SomeInFlight(s, i) <==> InFlight(s.loops[l], i)
  {
  }

  /** Moving loop l between phases that are not in flight keeps everything. */
  lemma {:induction false} PutSolo(s: System, l: nat, next: Loop)
    requires SoloOk(s) && Alone(s) && l < |s.loops| && !s.loops[l].Stopped?
    requires FreshLoop(s.rows, s.clock, next)
    requires forall i :: InFlight(next, i) == InFlight(s.loops[l], i)
    ensures SoloOk(Put(s, l, next))
  {
    var t := Put(s, l, next);
    forall i | 0 <= i < |t.rows|
      ensures SomeInFlight(t, i) == SomeInFlight(s, i)
    {
      FlightOf(s, l, i);
      if next.Stopped? {
        assert forall m :: 0 <= m < |t.loops| ==> t.loops[m].Stopped?;
      } else {
        FlightOf(t, l, i);
      }
    }
  }

  /** Loop l moves and writes the row it owns. */
  lemma {:induction false} PutRowSolo(s: System, l: nat, next: Loop, id: nat, row: Row)
    requires SoloOk(s) && Alone(s) && l < |s.loops| && !s.loops[l].Stopped? && id < |s.rows|
    requires RowExact(row) && FreshLoop(s.rows[id := row], s.clock, next)
    requires row.tries == Settled(row) + if InFlight(next, id) then 1 else 0
    requires forall i :: i != id ==> !InFlight(s.loops[l], i) && !InFlight(next, i)
    ensures SoloOk(PutRow(s, l, next, id, row))
  {
    var t := PutRow(s, l, next, id, row);
    forall m | 0 <= m < |t.loops|
      ensures FreshLoop(t.rows, t.clock, t.loops[m])
    {
      if m != l {
        assert s.loops[m].Stopped?;
      }
    }
    forall i | 0 <= i < |t.rows|
      ensures t.rows[i].tries == Settled(t.rows[i]) + if SomeInFlight(t, i) then 1 else 0
    {
      FlightOf(s, l, i);
      if next.Stopped? {
        assert forall m :: 0 <= m < |t.loops| ==> t.loops[m].Stopped?;
      } else {
        FlightOf(t, l, i);
      }
    }
  }

  /** Writing a row in front of the rest of the batch leaves the batch fresh. */
  lemma {:induction false} BatchStaysFresh(rows: seq<Row>, now: int, batch: seq<Snap>, id: nat, row: Row)
    requires FreshBatch(rows, now, batch) && id < |rows|
    requires forall k :: 0 <= k < |batch| ==> id < batch[k].id
    ensures FreshBatch(rows[id := row], now, batch)
  {
  }

  lemma {:induction false} RecordExact(row: Row, ev: Snap, now: int, clock: int)
    requires RowExact(row) && row.status == PENDING && row.attempts == ev.attempts && row.availableAt <= now <= clock
    ensures RowExact(Failed(row, ev, clock))
  {
  }

  lemma {:induction false} StepRead(s: System, l: nat)
    requires SoloOk(s) && Alone(s) && l < |s.loops| && s.loops[l].Polling?
    ensures SoloOk(Apply(s, Read(l)))
  {
    var now := s.loops[l].now;
    PutSolo(s, l, Working(now, ReadBatch(s.rows, now, 0, BATCH)));
  }

  lemma {:induction false} StepClaim(s: System, l: nat)
    requires SoloOk(s) && Alone(s) && l < |s.loops| && s.loops[l].Working?
    ensures SoloOk(Apply(s, Claim(l)))
  {
    var loop := s.loops[l];
    assert FreshLoop(s.rows, s.clock, loop);
    if loop.batch == [] {
      PutSolo(s, l, Idle);
    } else {
      var ev, rest := loop.batch[0], loop.batch[1..];
      var row := s.rows[ev.id].(lockedAt := Some(loop.now));
      FlightOf(s, l, ev.id);
      BatchStaysFresh(s.rows, loop.now, rest, ev.id, row);
      PutRowSolo(s, l, Publishing(loop.now, ev, rest), ev.id, row);
    }
  }

  /** The owner moves on, and its row keeps the books. */
  lemma {:induction false} OwnerMoves(s: System, l: nat, next: Loop, row: Row)
    requires SoloOk(s) && Alone(s) && l < |s.loops| && s.loops[l].Owner()
    requires var id := s.loops[l].ev.id;
             && id < |s.rows| && RowExact(row)
             && row.tries == Settled(row) + if InFlight(next, id) then 1 else 0
    requires || next.Stopped?
             || next == Working(s.loops[l].now, s.loops[l].batch)
             || (next.Owner()
                 && next.now == s.loops[l].now && next.ev == s.loops[l].ev && next.batch == s.loops[l].batch
                 && row.status == PENDING && row.attempts == next.ev.attempts && row.availableAt <= next.now)
    ensures SoloOk(PutRow(s, l, next, s.loops[l].ev.id, row))
  {
    var loop := s.loops[l];
    assert FreshLoop(s.rows, s.clock, loop);
    BatchStaysFresh(s.rows, loop.now, loop.batch, loop.ev.id, row);
    PutRowSolo(s, l, next, loop.ev.id, row);
  }

  lemma {:induction false} StepPublishMark(s: System, a: Action)
    requires SoloOk(s) && Alone(s) && (a.Publish? || a.Mark?)
    requires a.l < |s.loops| && s.loops[a.l].Owner()
    ensures SoloOk(Apply(s, a))
  {
    var l, loop := a.l, s.loops[a.l];
    assert FreshLoop(s.rows, s.clock, loop);
    var id, t := loop.ev.id, LoopStep(s, a, l, loop);
    FlightOf(s, l, id);
    if t != s {
      assert t == PutRow(s, l, t.loops[l], id, t.rows[id]);
      OwnerMoves(s, l, t.loops[l], t.rows[id]);
    }
  }

  lemma {:induction false} StepRecord(s: System, a: Action)
    requires SoloOk(s) && Alone(s) && a.Record? && a.l < |s.loops| && s.loops[a.l].Failing?
    ensures SoloOk(Apply(s, a))
  {
    var l, loop := a.l, s.loops[a.l];
    assert FreshLoop(s.rows, s.clock, loop);
    var id := loop.ev.id;
    var row := s.rows[id];
    FlightOf(s, l, id);
    if a.ok {
      RecordExact(row, loop.ev, loop.now, s.clock);
      OwnerMoves(s, l, Working(loop.now, loop.batch), Failed(row, loop.ev, s.clock));
    } else {
      OwnerMoves(s, l, Stopped, row.(lost := row.lost + 1));
    }
  }

  lemma {:induction false} StepCrash(s: System, l: nat)
    requires SoloOk(s) && Alone(s) && l < |s.loops| && s.loops[l].Owner()
    ensures SoloOk(Apply(s, Crash(l)))
  {
    var loop := s.loops[l];
    assert FreshLoop(s.rows, s.clock, loop);
    var row := s.rows[loop.ev.id];
    FlightOf(s, l, loop.ev.id);
    if loop.Publishing? {
      PutSolo(s, l, Stopped);
    } else {
      OwnerMoves(s, l, Stopped, row.(lost := row.lost + 1));
    }
  }

  lemma {:induction false} StepElse(s: System, a: Action)
    requires SoloOk(s) && (a.Tick? || a.Enqueue? || a.Spawn?)
    ensures SoloOk(Apply(s, a))
  {
    var t := Apply(s, a);
    forall l | 0 <= l < |s.loops|
      ensures FreshLoop(t.rows, t.clock, s.loops[l])
    {
    }
    forall i | 0 <= i < |s.rows|
      ensures SomeInFlight(t, i) == SomeInFlight(s, i)
    {
      if SomeInFlight(s, i) {
        var l :| 0 <= l < |s.loops| && InFlight(s.loops[l], i);
        assert InFlight(t.loops[l], i);
      }
    }
    if a.Enqueue? {
      var last := |s.rows|;
      forall l | 0 <= l < |t.loops|
        ensures !InFlight(t.loops[l], last)
      {
        assert FreshLoop(s.rows, s.clock, s.loops[l]);
      }
    }
  }

  lemma {:induction false} StepSolo(s: System, a: Action)
    requires SoloOk(s) && Alone(s)
    ensures SoloOk(Apply(s, a))
  {
    if a.Tick? || a.Enqueue? || a.Spawn? {
      StepElse(s, a);
    } else if a.l < |s.loops| && Apply(s, a) != s {
      var loop := s.loops[a.l];
      match a
      case Begin(l) => if loop.Idle? { PutSolo(s, l, Polling(s.clock)); }
      case Read(l) => if loop.Polling? { StepRead(s, l); }
      case Claim(l) => if loop.Working? { StepClaim(s, l); }
      case Record(l, _) => if loop.Failing? { StepRecord(s, a); }
      case Crash(l) => if loop.Owner() { StepCrash(s, l); } else if !loop.Stopped? { PutSolo(s, l, Stopped); }
      case _ => if loop.Owner() { StepPublishMark(s, a); }
    }
  }

  ghost predicate SoloRun(run: seq<Action>) {
    forall k :: 0 <= k <= |run| ==> Alone(Exec(EMPTY, run[..k]))
  }

  lemma {:induction false} SoloPrefix(run: seq<Action>, k: nat)
    requires SoloRun(run) && k <= |run|
    ensures SoloRun(run[..k])
  {
    forall j | 0 <= j <= k
      ensures Alone(Exec(EMPTY, run[..k][..j]))
    {
      assert run[..k][..j] == run[..j];
    }
  }

  lemma {:induction false} SoloInvariant(run: seq<Action>)
    requires SoloRun(run)
    ensures SoloOk(Exec(EMPTY, run))
    decreases |run|
  {
    if run != [] {
      var k := |run| - 1;
      SoloPrefix(run, k);
      SoloInvariant(run[..k]);
      assert Alone(Exec(EMPTY, run[..k]));
      StepSolo(Exec(EMPTY, run[..k]), run[k]);
    }
  }

  // ---------------------------------------------------------------- the guarantees

  /** `attempts` is the number of failed tries on record, and a row is tried at most seven times,
      not counting the tries whose outcome a crash lost. */
  lemma {:induction false} AttemptsAreExact(run: seq<Action>, i: nat)
    requires SoloRun(run) && i < |Exec(EMPTY, run).rows|
    ensures var row := Exec(EMPTY, run).rows[i];
            && row.attempts == row.failures
            && row.tries <= MAX_TRIES + row.lost
            && (row.status == DEAD ==> row.tries == MAX_TRIES + row.lost)
            && (row.status == SENT ==> row.tries == row.attempts + row.lost + 1)
  {
    SoloInvariant(run);
    var s := Exec(EMPTY, run);
    if SomeInFlight(s, i) {
      var l :| 0 <= l < |s.loops| && InFlight(s.loops[l], i);
      assert FreshLoop(s.rows, s.clock, s.loops[l]);
    }
  }

  /** A row dies no earlier than 2+4+8+16+32+60 = 122 seconds after its first failure. */
  lemma {:induction false} DeathTakes122Seconds(run: seq<Action>, i: nat)
    requires SoloRun(run) && i < |Exec(EMPTY, run).rows| && Exec(EMPTY, run).rows[i].status == DEAD
    ensures var row := Exec(EMPTY, run).rows[i];
            row.firstFailure.Some? && row.deadAt.Some? && row.deadAt.value - row.firstFailure.value >= 122_000
  {
    SoloInvariant(run);
    assert RowExact(Exec(EMPTY, run).rows[i]);
    WaitedSix();
  }

  /** A loop that owns another row, or whose next claim is of another row, leaves this one. */
  lemma {:induction false} LeavesRow(s: System, a: Action, i: nat)
    requires i < |s.rows| && !a.Tick? && !a.Enqueue? && !a.Spawn? && a.l < |s.loops|
    requires s.loops[a.l].Owner() ==> s.loops[a.l].ev.id != i
    requires s.loops[a.l].Working? && s.loops[a.l].batch != [] ==> s.loops[a.l].batch[0].id != i
    ensures i < |LoopStep(s, a, a.l, s.loops[a.l]).rows| && LoopStep(s, a, a.l, s.loops[a.l]).rows[i] == s.rows[i]
  {
  }

  /** Rows at hand are pending. */
  lemma {:induction false} AtHandIsPending(s: System, l: nat, i: nat)
    requires l < |s.loops| && FreshLoop(s.rows, s.clock, s.loops[l]) && i < |s.rows| && s.rows[i].status != PENDING
    ensures s.loops[l].Owner() ==> s.loops[l].ev.id != i
    ensures s.loops[l].Working? && s.loops[l].batch != [] ==> s.loops[l].batch[0].id != i
  {
    if s.loops[l].Working? && s.loops[l].batch != [] {
      assert Fresh(s.rows, s.loops[l].now, s.loops[l].batch[0]);
    }
  }

  /** No step touches a row that is no longer pending. */
  lemma {:induction false} StepTerminal(s: System, a: Action, i: nat)
    requires SoloOk(s) && i < |s.rows| && s.rows[i].status != PENDING
    ensures i < |Apply(s, a).rows| && Apply(s, a).rows[i] == s.rows[i]
  {
    if !a.Tick? && !a.Enqueue? && !a.Spawn? && a.l < |s.loops| {
      AtHandIsPending(s, a.l, i);
      LeavesRow(s, a, i);
    }
  }

  /** SENT and DEAD are final: from the k-th state on the row never changes again. */
  lemma {:induction false} SentAndDeadAreFinal(run: seq<Action>, k: nat, i: nat)
    requires SoloRun(run) && k <= |run|
    requires i < |Exec(EMPTY, run[..k]).rows| && Exec(EMPTY, run[..k]).rows[i].status != PENDING
    ensures i < |Exec(EMPTY, run).rows| && Exec(EMPTY, run).rows[i] == Exec(EMPTY, run[..k]).rows[i]
    decreases |run| - k, |run|
  {
    if k == |run| {
      assert run[..k] == run;
    } else {
      var n := |run| - 1;
      SoloPrefix(run, n);
      assert run[..n][..k] == run[..k];
      SoloInvariant(run[..n]);
      SentAndDeadAreFinal(run[..n], k, i);
      StepTerminal(Exec(EMPTY, run[..n]), run[n], i);
    }
  }
}
