/** What holds of the outbox table and its claims however many loops there are. */
module OutboxSafety {
  import opened Wrappers
  import opened Outbox

  // ---------------------------------------------------------------- counters

  predicate RowOk(row: Row) {
    && row.attempts <= row.failures
    && (row.status == PENDING ==> row.attempts <= 6)
    && (row.status == DEAD ==> row.attempts == MAX_TRIES)
    && (row.status == SENT ==> row.handed >= 1)
  }

  /** A snapshot may be stale, but it was of a pending row and failures are never forgotten. */
  predicate SnapOk(rows: seq<Row>, ev: Snap) {
    ev.id < |rows| && ev.attempts <= 6 && ev.attempts <= rows[ev.id].failures
  }

  predicate SnapsOk(rows: seq<Row>, batch: seq<Snap>) {
    forall k :: 0 <= k < |batch| ==> SnapOk(rows, batch[k])
  }

  predicate LoopOk(rows: seq<Row>, loop: Loop) {
    match loop
    case Working(_, batch) => SnapsOk(rows, batch)
    case Publishing(_, ev, batch) => SnapOk(rows, ev) && SnapsOk(rows, batch)
    case Marking(_, ev, batch) => SnapOk(rows, ev) && SnapsOk(rows, batch) && rows[ev.id].handed >= 1
    case Failing(_, ev, batch) => SnapOk(rows, ev) && SnapsOk(rows, batch)
    case _ => true
  }

  predicate CountersOk(s: System) {
    && (forall i :: 0 <= i < |s.rows| ==> RowOk(s.rows[i]))
    && (forall l :: 0 <= l < |s.loops| ==> LoopOk(s.rows, s.loops[l]))
  }

  /** No step forgets a row, a failure or a hand-over. */
  predicate Grows(before: seq<Row>, after: seq<Row>) {
    && |before| <= |after|
    && forall i :: 0 <= i < |before| ==> before[i].failures <= after[i].failures && before[i].handed <= after[i].handed
  }

  lemma {:induction false} LoopOkMonotone(before: seq<Row>, after: seq<Row>, loop: Loop)
    requires Grows(before, after) && LoopOk(before, loop)
    ensures LoopOk(after, loop)
  {
  }

  lemma {:induction false} StepGrows(s: System, a: Action)
    ensures Grows(s.rows, Apply(s, a).rows)
  {
  }

  lemma {:induction false} OtherLoopsOk(s: System, t: System, l: nat)
    requires CountersOk(s) && Grows(s.rows, t.rows) && |t.loops| == |s.loops|
    requires forall m :: 0 <= m < |s.loops| && m != l ==> t.loops[m] == s.loops[m]
    requires l < |t.loops| && LoopOk(t.rows, t.loops[l])
    ensures forall m :: 0 <= m < |t.loops| ==> LoopOk(t.rows, t.loops[m])
  {
  }

  lemma {:induction false} StepRowsOk(s: System, a: Action)
    requires CountersOk(s)
    ensures forall i :: 0 <= i < |Apply(s, a).rows| ==> RowOk(Apply(s, a).rows[i])
  {
  }

  lemma {:induction false} StepLoopOk(s: System, a: Action)
    requires CountersOk(s) && !a.Tick? && !a.Enqueue? && !a.Spawn? && a.l < |s.loops|
    ensures LoopOk(Apply(s, a).rows, Apply(s, a).loops[a.l])
  {
    StepGrows(s, a);
    LoopOkMonotone(s.rows, Apply(s, a).rows, s.loops[a.l]);
  }

  lemma {:induction false} StepCounters(s: System, a: Action)
    requires CountersOk(s)
    ensures CountersOk(Apply(s, a))
  {
    var t := Apply(s, a);
    StepRowsOk(s, a);
    StepGrows(s, a);
    if a.Tick? || a.Enqueue? || a.Spawn? {
      forall m | 0 <= m < |s.loops|
        ensures LoopOk(t.rows, t.loops[m])
      {
        LoopOkMonotone(s.rows, t.rows, s.loops[m]);
      }
    } else if a.l < |s.loops| {
      StepLoopOk(s, a);
      OtherLoopsOk(s, t, a.l);
    }
  }

  /** In every run, whatever the interleaving, the crashes and the staleness of the batches:
      a pending row has at most 6 attempts; a dead one has exactly 7 and at least seven recorded
      failures; a sent one was handed to the channel. */
  lemma {:induction false} CountersInEveryRun(run: seq<Action>)
    ensures CountersOk(Exec(EMPTY, run))
    decreases |run|
  {
    if run != [] {
      CountersInEveryRun(run[..|run| - 1]);
      StepCounters(Exec(EMPTY, run[..|run| - 1]), run[|run| - 1]);
    }
  }

  // ---------------------------------------------------------------- one holder of an event

  /** A batch read at `now` saw only locks that had expired by then. */
  predicate SawExpired(batch: seq<Snap>, now: int) {
    forall k :: 0 <= k < |batch| && batch[k].lockedAt.Some? ==> batch[k].lockedAt.value < now - LEASE
  }

  predicate LoopSane(clock: int, loop: Loop) {
    && (loop.Idle? || loop.Stopped? || loop.now <= clock)
    && (loop.Working? || loop.Owner() ==> SawExpired(loop.batch, loop.now))
  }

  /** The row carries its holder's stamp. */
  predicate Stamped(rows: seq<Row>, loop: Loop, id: nat) {
    loop.Holds(id) ==> id < |rows| && rows[id].lockedAt == Some(loop.now)
  }

  /** At most one loop holds the event, and under its own stamp. */
  predicate SoleHolder(s: System, id: nat) {
    && (forall l :: 0 <= l < |s.loops| ==> LoopSane(s.clock, s.loops[l]) && Stamped(s.rows, s.loops[l], id))
    && (forall l, m :: 0 <= l < m < |s.loops| ==> !(s.loops[l].Holds(id) && s.loops[m].Holds(id)))
  }

  ghost predicate TwoHold(s: System, id: nat) {
    exists l, m :: 0 <= l < m < |s.loops| && s.loops[l].Holds(id) && s.loops[m].Holds(id)
  }

  /** A loop holds this event more than the lease after its stamp. */
  ghost predicate Overstays(s: System, id: nat) {
    exists l :: 0 <= l < |s.loops| && s.loops[l].Holds(id) && s.clock > s.loops[l].now + LEASE
  }

  predicate NobodyElse(s: System, l: nat, id: nat) {
    forall m :: 0 <= m < |s.loops| && m != l ==> !s.loops[m].Holds(id)
  }

  /** The next row of loop `l` is this event. */
  predicate AboutToClaim(s: System, l: nat, id: nat) {
    l < |s.loops| && s.loops[l].Working? && s.loops[l].batch != [] && s.loops[l].batch[0].id == id && id < |s.rows|
  }

  /** The step claims an event that another loop holds, from a snapshot with that holder's stamp. */
  predicate Steals(s: System, a: Action, id: nat) {
    && a.Claim? && AboutToClaim(s, a.l, id)
    && exists m :: 0 <= m < |s.loops| && m != a.l && s.loops[m].Holds(id)
                   && s.loops[a.l].batch[0].lockedAt == Some(s.loops[m].now)
  }

  /** A held event is claimed exactly from a snapshot that carries its holder's stamp, and the
      claimer's poll found that stamp more than the lease old. */
  lemma {:induction false} HeldIsClaimedIff(s: System, l: nat, m: nat, id: nat)
    requires SoleHolder(s, id) && AboutToClaim(s, l, id) && m < |s.loops| && s.loops[m].Holds(id)
    ensures var ev := s.loops[l].batch[0];
            && (ClaimSucceeds(s.rows[id], ev) <==> ev.lockedAt == Some(s.loops[m].now))
            && (ClaimSucceeds(s.rows[id], ev) ==> s.loops[m].now < s.loops[l].now - LEASE)
  {
    assert Stamped(s.rows, s.loops[m], id) && LoopSane(s.clock, s.loops[l]);
  }

  /** So while no holder of the event overstays, nobody else can claim it. */
  lemma {:induction false} HeldIsNotClaimed(s: System, l: nat, m: nat, id: nat)
    requires SoleHolder(s, id) && AboutToClaim(s, l, id) && m < |s.loops| && s.loops[m].Holds(id) && !Overstays(s, id)
    ensures !ClaimSucceeds(s.rows[id], s.loops[l].batch[0])
  {
    HeldIsClaimedIff(s, l, m, id);
    assert LoopSane(s.clock, s.loops[l]);
  }

  lemma {:induction false} PutSole(s: System, l: nat, next: Loop, id: nat)
    requires SoleHolder(s, id) && l < |s.loops| && LoopSane(s.clock, next)
    requires next.Holds(id) ==> s.loops[l].Holds(id) && next.now == s.loops[l].now
    ensures SoleHolder(Put(s, l, next), id)
  {
    assert Stamped(s.rows, s.loops[l], id);
  }

  /** Loop l writes a row: another one, or this one while nobody else holds it. */
  lemma {:induction false} PutRowSole(s: System, l: nat, next: Loop, i: nat, row: Row, id: nat)
    requires SoleHolder(s, id) && l < |s.loops| && i < |s.rows| && LoopSane(s.clock, next)
    requires i == id ==> NobodyElse(s, l, id) && (next.Holds(id) ==> row.lockedAt == Some(next.now))
    requires i != id ==> !next.Holds(id)
    ensures SoleHolder(PutRow(s, l, next, i, row), id)
  {
    var t := PutRow(s, l, next, i, row);
    forall m | 0 <= m < |t.loops|
      ensures LoopSane(t.clock, t.loops[m]) && Stamped(t.rows, t.loops[m], id)
    {
      assert LoopSane(s.clock, s.loops[m]) && Stamped(s.rows, s.loops[m], id);
    }
  }

  lemma {:induction false} ReadSole(s: System, l: nat, id: nat)
    requires SoleHolder(s, id) && l < |s.loops| && s.loops[l].Polling?
    ensures SoleHolder(Apply(s, Read(l)), id)
  {
    assert LoopSane(s.clock, s.loops[l]);
    var now := s.loops[l].now;
    PutSole(s, l, Working(now, ReadBatch(s.rows, now, 0, BATCH)), id);
  }

  lemma {:induction false} ClaimSole(s: System, l: nat, id: nat)
    requires SoleHolder(s, id) && l < |s.loops| && s.loops[l].Working? && !Steals(s, Claim(l), id)
    ensures SoleHolder(Apply(s, Claim(l)), id)
  {
    var loop := s.loops[l];
    assert LoopSane(s.clock, loop);
    if loop.batch == [] {
      PutSole(s, l, Idle, id);
    } else {
      var ev, rest := loop.batch[0], loop.batch[1..];
      if ev.id < |s.rows| && ClaimSucceeds(s.rows[ev.id], ev) {
        forall m | 0 <= m < |s.loops| && m != l && ev.id == id
          ensures !s.loops[m].Holds(id)
        {
          assert Stamped(s.rows, s.loops[m], id);
        }
        PutRowSole(s, l, Publishing(loop.now, ev, rest), ev.id, s.rows[ev.id].(lockedAt := Some(loop.now)), id);
      } else {
        PutSole(s, l, Working(loop.now, rest), id);
      }
    }
  }

  /** What an owner does with its own row. */
  lemma {:induction false} OwnerSole(s: System, a: Action, id: nat)
    requires SoleHolder(s, id) && (a.Publish? || a.Mark? || a.Record? || a.Crash?)
    requires a.l < |s.loops| && s.loops[a.l].Owner()
    ensures SoleHolder(Apply(s, a), id)
  {
    var l, loop := a.l, s.loops[a.l];
    assert LoopSane(s.clock, loop) && Stamped(s.rows, loop, id);
    var t := LoopStep(s, a, l, loop);
    if loop.ev.id < |s.rows| {
      if t.rows == s.rows {
        PutSole(s, l, t.loops[l], id);
      } else {
        PutRowSole(s, l, t.loops[l], loop.ev.id, t.rows[loop.ev.id], id);
      }
    } else if a.Crash? {
      PutSole(s, l, Stopped, id);
    }
  }

  lemma {:induction false} TableSole(s: System, a: Action, id: nat)
    requires SoleHolder(s, id) && (a.Tick? || a.Enqueue? || a.Spawn?)
    ensures SoleHolder(Apply(s, a), id)
  {
    var t := Apply(s, a);
    forall l | 0 <= l < |s.loops|
      ensures LoopSane(t.clock, s.loops[l]) && Stamped(t.rows, s.loops[l], id)
    {
      assert LoopSane(s.clock, s.loops[l]) && Stamped(s.rows, s.loops[l], id);
    }
  }

  lemma {:induction false} StepSole(s: System, a: Action, id: nat)
    requires SoleHolder(s, id) && !Steals(s, a, id)
    ensures SoleHolder(Apply(s, a), id)
  {
    if a.Tick? || a.Enqueue? || a.Spawn? {
      TableSole(s, a, id);
    } else if a.l < |s.loops| && Apply(s, a) != s {
      var loop := s.loops[a.l];
      match a
      case Begin(l) => PutSole(s, l, Polling(s.clock), id);
      case Read(l) => ReadSole(s, l, id);
      case Claim(l) => ClaimSole(s, l, id);
      case Crash(l) => if loop.Owner() { OwnerSole(s, a, id); } else { PutSole(s, l, Stopped, id); }
      case _ => OwnerSole(s, a, id);
    }
  }

  /** Stealing makes two holders. */
  lemma {:induction false} StealDoubles(s: System, a: Action, id: nat)
    requires SoleHolder(s, id) && Steals(s, a, id)
    ensures TwoHold(Apply(s, a), id)
  {
    var m :| 0 <= m < |s.loops| && m != a.l && s.loops[m].Holds(id)
             && s.loops[a.l].batch[0].lockedAt == Some(s.loops[m].now);
    HeldIsClaimedIff(s, a.l, m, id);
    var t := Apply(s, a);
    assert t.loops[m].Holds(id) && t.loops[a.l].Holds(id);
    assert m < a.l || a.l < m;
  }

  ghost predicate StealsAt(run: seq<Action>, k: nat, id: nat) {
    k < |run| && Steals(Exec(EMPTY, run[..k]), run[k], id)
  }

  ghost predicate TwoHoldAt(run: seq<Action>, n: nat, id: nat) {
    n <= |run| && TwoHold(Exec(EMPTY, run[..n]), id)
  }

  lemma {:induction false} ExecNext(run: seq<Action>, k: nat)
    requires k < |run|
    ensures Exec(EMPTY, run[..k + 1]) == Apply(Exec(EMPTY, run[..k]), run[k])
  {
    assert run[..k + 1][..k] == run[..k];
  }

  /** Before its first theft an event has at most one holder. */
  lemma {:induction false} FirstTheft(run: seq<Action>, n: nat, id: nat) returns (k: nat)
    requires n <= |run| && !SoleHolder(Exec(EMPTY, run[..n]), id)
    ensures k < n && SoleHolder(Exec(EMPTY, run[..k]), id) && StealsAt(run, k, id)
    decreases n
  {
    assert run[..0] == [];
    if SoleHolder(Exec(EMPTY, run[..n - 1]), id) {
      ExecNext(run, n - 1);
      if !Steals(Exec(EMPTY, run[..n - 1]), run[n - 1], id) {
        StepSole(Exec(EMPTY, run[..n - 1]), run[n - 1], id);
      }
      k := n - 1;
    } else {
      k := FirstTheft(run, n - 1, id);
    }
  }

  lemma {:induction false} TheftDoubles(run: seq<Action>, k: nat, id: nat) returns (n: nat)
    requires StealsAt(run, k, id)
    ensures TwoHoldAt(run, n, id)
  {
    if SoleHolder(Exec(EMPTY, run[..k]), id) {
      n := k + 1;
      TheftAt(run, k, id);
    } else {
      var first := FirstTheft(run, k, id);
      n := first + 1;
      TheftAt(run, first, id);
    }
  }

  lemma {:induction false} TheftAt(run: seq<Action>, k: nat, id: nat)
    requires StealsAt(run, k, id) && SoleHolder(Exec(EMPTY, run[..k]), id)
    ensures TwoHoldAt(run, k + 1, id)
  {
    ExecNext(run, k);
    StealDoubles(Exec(EMPTY, run[..k]), run[k], id);
  }

  /** Two loops come to hold the same event in a run exactly when some step of it claims the event,
      while another loop holds it, from a snapshot with that holder's stamp. */
  lemma {:induction false} DoubleHoldIff(run: seq<Action>, id: nat)
    ensures (exists n :: TwoHoldAt(run, n, id)) <==> (exists k :: StealsAt(run, k, id))
  {
    if n :| TwoHoldAt(run, n, id) {
      var k := FirstTheft(run, n, id);
    }
    if k :| StealsAt(run, k, id) {
      var n := TheftDoubles(run, k, id);
    }
  }

  lemma {:induction false} TheftNeedsOverstay(s: System, a: Action, id: nat)
    requires SoleHolder(s, id) && Steals(s, a, id)
    ensures Overstays(s, id)
  {
    var m :| 0 <= m < |s.loops| && m != a.l && s.loops[m].Holds(id)
             && s.loops[a.l].batch[0].lockedAt == Some(s.loops[m].now);
    HeldIsClaimedIff(s, a.l, m, id);
    assert LoopSane(s.clock, s.loops[a.l]);
  }

  /** Two loops hold the same event only in a run in which, strictly before, a holder of that same
      event overstayed. */
  lemma {:induction false} DoubleHoldNeedsOverstay(run: seq<Action>, id: nat)
    requires TwoHold(Exec(EMPTY, run), id)
    ensures exists k :: 0 <= k < |run| && Overstays(Exec(EMPTY, run[..k]), id)
  {
    assert run[..|run|] == run;
    var k := FirstTheft(run, |run|, id);
    TheftNeedsOverstay(Exec(EMPTY, run[..k]), run[k], id);
  }

  /** While no holder of the event overstays, it has at most one, under that holder's stamp, whatever
      happens to other rows. */
  lemma {:induction false} SoleWhileNobodyOverstays(run: seq<Action>, id: nat)
    requires forall k :: 0 <= k < |run| ==> !Overstays(Exec(EMPTY, run[..k]), id)
    ensures SoleHolder(Exec(EMPTY, run), id)
  {
    assert run[..|run|] == run;
    if !SoleHolder(Exec(EMPTY, run), id) {
      var k := FirstTheft(run, |run|, id);
      TheftNeedsOverstay(Exec(EMPTY, run[..k]), run[k], id);
    }
  }

  // ---------------------------------------------------------------- one row and two loops

  lemma {:induction false} OneRow(row: Row, now: int)
    requires Eligible(row, now)
    ensures ReadBatch([row], now, 0, BATCH) == [Snap(0, row.attempts, row.lockedAt)]
  {
  }

  lemma {:induction false} ReadsOne(s: System, l: nat, row: Row)
    requires s.rows == [row] && l < |s.loops| && s.loops[l].Polling? && Eligible(row, s.loops[l].now)
    ensures Apply(s, Read(l)) == Put(s, l, Working(s.loops[l].now, [Snap(0, row.attempts, row.lockedAt)]))
  {
    OneRow(row, s.loops[l].now);
  }

  lemma {:induction false} ThreeSteps(s: System, a: Action, b: Action, c: Action)
    ensures Exec(s, [a, b, c]) == Apply(Apply(Apply(s, a), b), c)
  {
    ExecSnoc(s, [], a);
    ExecSnoc(s, [a], b);
    ExecSnoc(s, [a, b], c);
    assert [] + [a] == [a] && [a] + [b] == [a, b] && [a, b] + [c] == [a, b, c];
  }

  /** One row and two loops. */
  lemma {:induction false} Opening()
    ensures Exec(EMPTY, [Enqueue, Spawn, Spawn]) == System(0, [NewRow(0)], [Idle, Idle])
  {
    ThreeSteps(EMPTY, Enqueue, Spawn, Spawn);
  }

  /** A loop reads its batch and is then held up for longer than the lease. */
  lemma {:induction false} SlowBatch(slow: seq<Action>)
    requires slow == [Begin(0), Read(0), Tick(LEASE + 1)]
    ensures Exec(EMPTY, [Enqueue, Spawn, Spawn] + slow)
         == System(LEASE + 1, [NewRow(0)], [Working(0, [Snap(0, 0, None)]), Idle])
  {
    Opening();
    var row := NewRow(0);
    var s := System(0, [row], [Idle, Idle]);
    ExecConcat(EMPTY, [Enqueue, Spawn, Spawn], slow);
    ThreeSteps(s, Begin(0), Read(0), Tick(LEASE + 1));
    var polling := System(0, [row], [Polling(0), Idle]);
    assert Apply(s, Begin(0)) == polling;
    ReadsOne(polling, 0, row);
  }

  /** It claims its row under the old stamp, which a second loop at once reads as expired. */
  lemma {:induction false} ExpiredAtBirth(s: System, claims: seq<Action>)
    requires s == System(LEASE + 1, [NewRow(0)], [Working(0, [Snap(0, 0, None)]), Idle])
    requires claims == [Claim(0), Begin(1), Read(1)]
    ensures Exec(s, claims) == System(LEASE + 1, [NewRow(0).(lockedAt := Some(0))],
                                      [Publishing(0, Snap(0, 0, None), []), Working(LEASE + 1, [Snap(0, 0, Some(0))])])
  {
    var locked, ev := NewRow(0).(lockedAt := Some(0)), Snap(0, 0, None);
    ThreeSteps(s, Claim(0), Begin(1), Read(1));
    assert [ev][1..] == [];
    var claimed := System(LEASE + 1, [locked], [Publishing(0, ev, []), Idle]);
    assert Apply(s, Claim(0)) == claimed;
    var polling := System(LEASE + 1, [locked], [Publishing(0, ev, []), Polling(LEASE + 1)]);
    assert Apply(claimed, Begin(1)) == polling;
    ReadsOne(polling, 1, locked);
    assert Apply(polling, Read(1)).loops == [Publishing(0, ev, []), Working(LEASE + 1, [Snap(0, 0, Some(0))])];
  }

  /** The lease must be measured from the stamp, which is the start of the poll, and not from the
      claim: here a slow batch claims its row at the very instant at which the second loop, finding
      the stamp expired, claims it too. */
  lemma {:induction false} LeaseRunsFromThePoll(run: seq<Action>, slow: seq<Action>, claims: seq<Action>)
    requires slow == [Begin(0), Read(0), Tick(LEASE + 1)]
    requires claims == [Claim(0), Begin(1), Read(1)]
    requires run == [Enqueue, Spawn, Spawn] + slow + claims + [Claim(1)]
    ensures Exec(EMPTY, [Enqueue, Spawn, Spawn] + slow)
         == System(LEASE + 1, [NewRow(0)], [Working(0, [Snap(0, 0, None)]), Idle])
    ensures TwoHold(Exec(EMPTY, run), 0) && Exec(EMPTY, run).clock == LEASE + 1
  {
    var before := [Enqueue, Spawn, Spawn] + slow;
    SlowBatch(slow);
    ExecConcat(EMPTY, before, claims);
    ExpiredAtBirth(Exec(EMPTY, before), claims);
    ExecSnoc(EMPTY, before + claims, Claim(1));
    var loops := Exec(EMPTY, run).loops;
    assert loops[0].Holds(0) && loops[1].Holds(0);
  }
}
