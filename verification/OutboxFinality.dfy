/** When SENT and DEAD are final, for any number of loops. */
module OutboxFinality {
  import opened Wrappers
  import opened Outbox
  import opened OutboxSafety

  // ---------------------------------------------------------------- when SENT is final

  /** The batch has a snapshot of row i with the lock the row has now. */
  predicate Matches(rows: seq<Row>, batch: seq<Snap>, i: nat)
    requires i < |rows|
  {
    exists k :: 0 <= k < |batch| && batch[k].id == i && ClaimSucceeds(rows[i], batch[k])
  }

  /** The loop holds row i, or can still claim it from its batch. */
  predicate CanTouch(rows: seq<Row>, loop: Loop, i: nat)
    requires i < |rows|
  {
    loop.Holds(i) || ((loop.Working? || loop.Owner()) && Matches(rows, loop.batch, i))
  }

  predicate Untouchable(s: System, i: nat)
    requires i < |s.rows|
  {
    forall l :: 0 <= l < |s.loops| ==> !CanTouch(s.rows, s.loops[l], i)
  }

  lemma {:induction false} StepUntouchable(s: System, a: Action, i: nat)
    requires i < |s.rows| && s.rows[i].status != PENDING && Untouchable(s, i)
    ensures i < |Apply(s, a).rows| && Apply(s, a).rows[i] == s.rows[i] && Untouchable(Apply(s, a), i)
  {
    var t := Apply(s, a);
    if !a.Tick? && !a.Enqueue? && !a.Spawn? && a.l < |s.loops| {
      assert !CanTouch(s.rows, s.loops[a.l], i);
      LoopUntouchable(s, a, i);
    }
    forall l | 0 <= l < |s.loops| && t.loops[l] == s.loops[l]
      ensures !CanTouch(t.rows, t.loops[l], i)
    {
      assert !CanTouch(s.rows, s.loops[l], i);
    }
  }

  lemma {:induction false} LoopUntouchable(s: System, a: Action, i: nat)
    requires i < |s.rows| && s.rows[i].status != PENDING
    requires !a.Tick? && !a.Enqueue? && !a.Spawn? && a.l < |s.loops| && !CanTouch(s.rows, s.loops[a.l], i)
    ensures i < |Apply(s, a).rows| && Apply(s, a).rows[i] == s.rows[i]
    ensures !CanTouch(Apply(s, a).rows, Apply(s, a).loops[a.l], i)
  {
    var loop := s.loops[a.l];
    if a.Claim? && loop.Working? && loop.batch != [] {
      assert loop.batch[0].id == i ==> !ClaimSucceeds(s.rows[i], loop.batch[0]);
      forall k | 0 <= k < |loop.batch| - 1
        ensures loop.batch[1..][k] == loop.batch[k + 1]
      {
      }
    }
  }

  /** With any number of loops: a settled row that nobody can touch never changes again. */
  lemma {:induction false} UntouchableForever(s: System, more: seq<Action>, i: nat)
    requires i < |s.rows| && s.rows[i].status != PENDING && Untouchable(s, i)
    ensures i < |Exec(s, more).rows| && Exec(s, more).rows[i] == s.rows[i] && Untouchable(Exec(s, more), i)
    decreases |more|
  {
    if more != [] {
      UntouchableForever(s, more[..|more| - 1], i);
      StepUntouchable(Exec(s, more[..|more| - 1]), more[|more| - 1], i);
    }
  }

  predicate SentAfter(s: System, more: seq<Action>, i: nat) {
    i < |Exec(s, more).rows| && Exec(s, more).rows[i].status == SENT
  }

  lemma {:induction false} OneStep(s: System, a: Action)
    ensures Exec(s, [a]) == Apply(s, a)
  {
    assert [a][..0] == [];
  }

  lemma {:induction false} TwoSteps(s: System, a: Action, b: Action)
    ensures Exec(s, [a, b]) == Apply(Apply(s, a), b)
  {
    OneStep(s, a);
    ExecSnoc(s, [a], b);
    assert [a] + [b] == [a, b];
  }

  /** An owner whose publish or write fails leaves its row PENDING or DEAD, and goes on. */
  lemma {:induction false} OwnerFails(s: System, l: nat) returns (more: seq<Action>)
    requires l < |s.loops| && s.loops[l].Owner() && s.loops[l].ev.id < |s.rows|
    ensures var t, i := Exec(s, more), s.loops[l].ev.id;
            && |t.rows| == |s.rows| && |t.loops| == |s.loops|
            && t.rows[i].status != SENT
            && (forall j :: 0 <= j < |s.rows| && j != i ==> t.rows[j] == s.rows[j])
            && t.loops[l] == Working(s.loops[l].now, s.loops[l].batch)
  {
    if s.loops[l].Failing? {
      more := [Record(l, true)];
      OneStep(s, Record(l, true));
    } else if s.loops[l].Marking? {
      more := [Mark(l, false), Record(l, true)];
      TwoSteps(s, Mark(l, false), Record(l, true));
    } else {
      more := [Publish(l, false, false), Record(l, true)];
      TwoSteps(s, Publish(l, false, false), Record(l, true));
    }
  }

  /** A loop that can still claim row i from its batch gets to it. */
  lemma {:induction false} BatchClaims(s: System, l: nat, i: nat) returns (more: seq<Action>)
    requires l < |s.loops| && i < |s.rows| && s.loops[l].Working? && Matches(s.rows, s.loops[l].batch, i)
    ensures var t := Exec(s, more);
            l < |t.loops| && i < |t.rows| && t.loops[l].Publishing? && t.loops[l].ev.id == i
    decreases |s.loops[l].batch|
  {
    var ev, rest := s.loops[l].batch[0], s.loops[l].batch[1..];
    var t := Apply(s, Claim(l));
    OneStep(s, Claim(l));
    if ev.id == i && ClaimSucceeds(s.rows[i], ev) {
      more := [Claim(l)];
    } else {
      var batch := s.loops[l].batch;
      var k :| 0 <= k < |batch| && batch[k].id == i && ClaimSucceeds(s.rows[i], batch[k]);
      assert rest[k - 1] == batch[k];
      var pass := [];
      if t.loops[l].Owner() {
        pass := OwnerFails(t, l);
      }
      var u := Exec(t, pass);
      assert u.rows[i] == s.rows[i] && u.loops[l] == Working(s.loops[l].now, rest);
      var later := BatchClaims(u, l, i);
      more := [Claim(l)] + (pass + later);
      ExecConcat(t, pass, later);
      ExecConcat(s, [Claim(l)], pass + later);
    }
  }

  lemma {:induction false} OtherClaims(s: System, l: nat, i: nat) returns (more: seq<Action>)
    requires l < |s.loops| && i < |s.rows| && LoopOk(s.rows, s.loops[l]) && !s.loops[l].Holds(i)
    requires CanTouch(s.rows, s.loops[l], i)
    ensures var t := Exec(s, more);
            l < |t.loops| && i < |t.rows| && t.loops[l].Publishing? && t.loops[l].ev.id == i
  {
    if s.loops[l].Working? {
      more := BatchClaims(s, l, i);
    } else {
      var fail := OwnerFails(s, l);
      var later := BatchClaims(Exec(s, fail), l, i);
      more := fail + later;
      ExecConcat(s, fail, later);
    }
  }

  lemma {:induction false} TouchRevives(s: System, l: nat, i: nat) returns (more: seq<Action>)
    requires l < |s.loops| && i < |s.rows| && CanTouch(s.rows, s.loops[l], i) && LoopOk(s.rows, s.loops[l])
    ensures !SentAfter(s, more, i)
  {
    if s.loops[l].Holds(i) {
      more := OwnerFails(s, l);
    } else {
      var claim := OtherClaims(s, l, i);
      var fail := OwnerFails(Exec(s, claim), l);
      more := claim + fail;
      ExecConcat(s, claim, fail);
    }
  }

  /** For any number of loops, in every reachable state: a SENT row stays SENT in every continuation
      exactly when no loop holds it and no batch has a snapshot of it with the lock it has now. */
  lemma {:induction false} SentIsFinalIff(run: seq<Action>, i: nat)
    requires i < |Exec(EMPTY, run).rows| && Exec(EMPTY, run).rows[i].status == SENT
    ensures (forall more :: SentAfter(Exec(EMPTY, run), more, i)) <==> Untouchable(Exec(EMPTY, run), i)
  {
    var s := Exec(EMPTY, run);
    CountersInEveryRun(run);
    if Untouchable(s, i) {
      forall more
        ensures SentAfter(s, more, i)
      {
        UntouchableForever(s, more, i);
      }
    } else {
      var l :| 0 <= l < |s.loops| && CanTouch(s.rows, s.loops[l], i);
      assert LoopOk(s.rows, s.loops[l]);
      var more := TouchRevives(s, l, i);
    }
  }

  // ---------------------------------------------------------------- when DEAD is final

  /** A batch lists its rows in order, after the one at hand. */
  predicate LoopOrdered(loop: Loop) {
    && (loop.Working? || loop.Owner() ==>
          forall k, j :: 0 <= k < j < |loop.batch| ==> loop.batch[k].id < loop.batch[j].id)
    && (loop.Owner() ==> forall k :: 0 <= k < |loop.batch| ==> loop.ev.id < loop.batch[k].id)
  }

  predicate AllOrdered(s: System) {
    forall l :: 0 <= l < |s.loops| ==> LoopOrdered(s.loops[l])
  }

  lemma {:induction false} ClaimOrdered(loop: Loop)
    requires loop.Working? && loop.batch != [] && LoopOrdered(loop)
    ensures LoopOrdered(Working(loop.now, loop.batch[1..]))
    ensures LoopOrdered(Publishing(loop.now, loop.batch[0], loop.batch[1..]))
  {
  }

  lemma {:induction false} LoopStepOrdered(s: System, a: Action, l: nat)
    requires l < |s.loops| && LoopOrdered(s.loops[l])
    ensures l < |LoopStep(s, a, l, s.loops[l]).loops| && LoopOrdered(LoopStep(s, a, l, s.loops[l]).loops[l])
  {
    var loop := s.loops[l];
    if a.Claim? && loop.Working? && loop.batch != [] {
      ClaimOrdered(loop);
    }
  }

  lemma {:induction false} StepOrdered(s: System, a: Action)
    requires AllOrdered(s)
    ensures AllOrdered(Apply(s, a))
  {
    var t := Apply(s, a);
    forall l | 0 <= l < |t.loops|
      ensures LoopOrdered(t.loops[l])
    {
      if !a.Tick? && !a.Enqueue? && !a.Spawn? && l == a.l {
        LoopStepOrdered(s, a, l);
      } else if l < |s.loops| {
        assert LoopOrdered(s.loops[l]);
      }
    }
  }

  lemma {:induction false} OrderedInEveryRun(run: seq<Action>)
    ensures AllOrdered(Exec(EMPTY, run))
    decreases |run|
  {
    if run != [] {
      OrderedInEveryRun(run[..|run| - 1]);
      StepOrdered(Exec(EMPTY, run[..|run| - 1]), run[|run| - 1]);
    }
  }

  /** The loop is about to record a seventh failure of row i. */
  predicate RecordsSeventh(loop: Loop, i: nat) {
    loop.Failing? && loop.ev.id == i && loop.ev.attempts >= 6
  }

  predicate SomeRecordsSeventh(s: System, i: nat) {
    exists m :: 0 <= m < |s.loops| && RecordsSeventh(s.loops[m], i)
  }

  /** The batch has a snapshot of row i that found it unlocked. */
  predicate SawFree(loop: Loop, i: nat) {
    && (loop.Working? || loop.Owner())
    && exists k :: 0 <= k < |loop.batch| && loop.batch[k].id == i && loop.batch[k].lockedAt == None
  }

  /** The loop can take a DEAD row up again: it holds it and is not about to record a seventh failure,
      or it has a snapshot of it with the lock the row has now, or with the free lock that a seventh
      failure about to be recorded will leave. */
  predicate CanRaise(s: System, l: nat, i: nat)
    requires l < |s.loops| && i < |s.rows|
  {
    var loop := s.loops[l];
    || (loop.Holds(i) && !RecordsSeventh(loop, i))
    || ((loop.Working? || loop.Owner()) && Matches(s.rows, loop.batch, i))
    || (SomeRecordsSeventh(s, i) && SawFree(loop, i))
  }

  predicate Buried(s: System, i: nat)
    requires i < |s.rows|
  {
    forall l :: 0 <= l < |s.loops| ==> !CanRaise(s, l, i)
  }

  /** What a step leaves to a loop: the batch it had, or less of it, or one without row i. */
  predicate BatchShrinks(before: Loop, after: Loop, i: nat) {
    after.Working? || after.Owner() ==>
      forall k :: 0 <= k < |after.batch| && after.batch[k].id == i ==>
        && (before.Working? || before.Owner())
        && exists j :: 0 <= j < |before.batch| && before.batch[j] == after.batch[k]
  }

  lemma {:induction false} LoopShrinks(s: System, a: Action, i: nat)
    requires i < |s.rows| && s.rows[i].status == DEAD
    requires !a.Tick? && !a.Enqueue? && !a.Spawn? && a.l < |s.loops|
    ensures BatchShrinks(s.loops[a.l], Apply(s, a).loops[a.l], i)
  {
    var loop := s.loops[a.l];
    if a.Claim? && loop.Working? && loop.batch != [] {
      forall k | 0 <= k < |loop.batch| - 1
        ensures loop.batch[1..][k] == loop.batch[k + 1]
      {
      }
    }
  }

  /** A step of a loop that cannot raise the row: the row stays DEAD, and if its lock changes, a seventh
      failure was recorded and left it free. */
  lemma {:induction false} BuriedRow(s: System, a: Action, i: nat)
    requires i < |s.rows| && s.rows[i].status == DEAD
    requires !a.Tick? && !a.Enqueue? && !a.Spawn? && a.l < |s.loops| && !CanRaise(s, a.l, i)
    ensures var t := Apply(s, a);
            && i < |t.rows| && t.rows[i].status == DEAD && |t.loops| == |s.loops|
            && (forall m :: 0 <= m < |s.loops| && m != a.l ==> t.loops[m] == s.loops[m])
            && (t.rows[i].lockedAt == s.rows[i].lockedAt
                || (t.rows[i].lockedAt == None && RecordsSeventh(s.loops[a.l], i)))
            && (t.loops[a.l].Holds(i) ==> RecordsSeventh(t.loops[a.l], i) && RecordsSeventh(s.loops[a.l], i))
  {
    var loop := s.loops[a.l];
    if a.Claim? && loop.Working? && loop.batch != [] {
      assert loop.batch[0].id == i ==> !ClaimSucceeds(s.rows[i], loop.batch[0]);
    }
  }

  lemma {:induction false} StillBuried(s: System, a: Action, i: nat, l: nat)
    requires i < |s.rows| && s.rows[i].status == DEAD && Buried(s, i)
    requires !a.Tick? && !a.Enqueue? && !a.Spawn? && a.l < |s.loops| && l < |s.loops|
    ensures var t := Apply(s, a); i < |t.rows| && l < |t.loops| && !CanRaise(t, l, i)
  {
    var t := Apply(s, a);
    assert !CanRaise(s, a.l, i) && !CanRaise(s, l, i);
    BuriedRow(s, a, i);
    LoopShrinks(s, a, i);
    assert BatchShrinks(s.loops[l], t.loops[l], i);
    if SomeRecordsSeventh(t, i) {
      var m :| 0 <= m < |t.loops| && RecordsSeventh(t.loops[m], i);
      assert RecordsSeventh(s.loops[m], i);
    }
    if t.rows[i].lockedAt != s.rows[i].lockedAt {
      assert SomeRecordsSeventh(s, i) && !SawFree(s.loops[l], i);
    }
  }

  lemma {:induction false} StepBuried(s: System, a: Action, i: nat)
    requires i < |s.rows| && s.rows[i].status == DEAD && Buried(s, i)
    ensures var t := Apply(s, a); i < |t.rows| && t.rows[i].status == DEAD && Buried(t, i)
  {
    var t := Apply(s, a);
    if a.Tick? || a.Enqueue? || a.Spawn? || a.l >= |s.loops| {
      TableBuried(s, a, i);
    } else {
      assert !CanRaise(s, a.l, i);
      BuriedRow(s, a, i);
      forall l | 0 <= l < |t.loops|
        ensures !CanRaise(t, l, i)
      {
        StillBuried(s, a, i, l);
      }
    }
  }

  lemma {:induction false} TableBuried(s: System, a: Action, i: nat)
    requires i < |s.rows| && s.rows[i].status == DEAD && Buried(s, i)
    requires a.Tick? || a.Enqueue? || a.Spawn? || a.l >= |s.loops|
    ensures var t := Apply(s, a); i < |t.rows| && t.rows[i].status == DEAD && Buried(t, i)
  {
    var t := Apply(s, a);
    forall l | 0 <= l < |t.loops|
      ensures !CanRaise(t, l, i)
    {
      if l < |s.loops| {
        assert !CanRaise(s, l, i);
        if SomeRecordsSeventh(t, i) {
          var m :| 0 <= m < |t.loops| && RecordsSeventh(t.loops[m], i);
          assert RecordsSeventh(s.loops[m], i);
        }
      }
    }
  }

  predicate DeadAfter(s: System, more: seq<Action>, i: nat) {
    i < |Exec(s, more).rows| && Exec(s, more).rows[i].status == DEAD
  }

  lemma {:induction false} BuriedForever(s: System, more: seq<Action>, i: nat)
    requires i < |s.rows| && s.rows[i].status == DEAD && Buried(s, i)
    ensures DeadAfter(s, more, i) && Buried(Exec(s, more), i)
    decreases |more|
  {
    if more != [] {
      BuriedForever(s, more[..|more| - 1], i);
      StepBuried(Exec(s, more[..|more| - 1]), more[|more| - 1], i);
    }
  }

  /** An owner that is not about to record a seventh failure can end SENT or PENDING. */
  lemma {:induction false} OwnerRaises(s: System, l: nat) returns (more: seq<Action>)
    requires l < |s.loops| && s.loops[l].Owner() && s.loops[l].ev.id < |s.rows|
    requires !RecordsSeventh(s.loops[l], s.loops[l].ev.id)
    ensures !DeadAfter(s, more, s.loops[l].ev.id)
  {
    if s.loops[l].Failing? {
      more := [Record(l, true)];
      OneStep(s, Record(l, true));
    } else if s.loops[l].Marking? {
      more := [Mark(l, true)];
      OneStep(s, Mark(l, true));
    } else {
      more := [Publish(l, true, true), Mark(l, true)];
      TwoSteps(s, Publish(l, true, true), Mark(l, true));
    }
  }

  lemma {:induction false} ClaimRaises(s: System, l: nat, i: nat) returns (more: seq<Action>)
    requires l < |s.loops| && i < |s.rows| && LoopOk(s.rows, s.loops[l]) && !s.loops[l].Holds(i)
    requires (s.loops[l].Working? || s.loops[l].Owner()) && Matches(s.rows, s.loops[l].batch, i)
    ensures !DeadAfter(s, more, i)
  {
    var claim := OtherClaims(s, l, i);
    var raise := OwnerRaises(Exec(s, claim), l);
    more := claim + raise;
    ExecConcat(s, claim, raise);
  }

  lemma {:induction false} FreedRaises(s: System, l: nat, m: nat, i: nat) returns (more: seq<Action>)
    requires CountersOk(s) && AllOrdered(s) && l < |s.loops| && m < |s.loops| && i < |s.rows|
    requires RecordsSeventh(s.loops[m], i) && SawFree(s.loops[l], i) && !s.loops[l].Holds(i)
    ensures !DeadAfter(s, more, i)
  {
    var t := Apply(s, Record(m, true));
    OneStep(s, Record(m, true));
    StepCounters(s, Record(m, true));
    assert t.loops[l] == s.loops[l] && t.rows[i].lockedAt == None;
    assert LoopOk(t.rows, t.loops[l]);
    var raise := ClaimRaises(t, l, i);
    more := [Record(m, true)] + raise;
    ExecConcat(s, [Record(m, true)], raise);
  }

  lemma {:induction false} CanRaiseRaises(s: System, l: nat, i: nat) returns (more: seq<Action>)
    requires CountersOk(s) && AllOrdered(s) && l < |s.loops| && i < |s.rows| && CanRaise(s, l, i)
    ensures !DeadAfter(s, more, i)
  {
    assert LoopOk(s.rows, s.loops[l]) && LoopOrdered(s.loops[l]);
    if s.loops[l].Holds(i) {
      more := OwnerRaises(s, l);
    } else if Matches(s.rows, s.loops[l].batch, i) {
      more := ClaimRaises(s, l, i);
    } else {
      var m :| 0 <= m < |s.loops| && RecordsSeventh(s.loops[m], i);
      more := FreedRaises(s, l, m, i);
    }
  }

  /** For any number of loops, in every reachable state: a DEAD row stays DEAD in every continuation
      exactly when no loop can take it up again. A loop about to record a seventh failure cannot, but
      the free lock it leaves may let another one in. */
  lemma {:induction false} DeadIsFinalIff(run: seq<Action>, i: nat)
    requires i < |Exec(EMPTY, run).rows| && Exec(EMPTY, run).rows[i].status == DEAD
    ensures (forall more :: DeadAfter(Exec(EMPTY, run), more, i)) <==> Buried(Exec(EMPTY, run), i)
  {
    var s := Exec(EMPTY, run);
    CountersInEveryRun(run);
    OrderedInEveryRun(run);
    if Buried(s, i) {
      forall more
        ensures DeadAfter(s, more, i)
      {
        BuriedForever(s, more, i);
      }
    } else {
      var l :| 0 <= l < |s.loops| && CanRaise(s, l, i);
      var more := CanRaiseRaises(s, l, i);
    }
  }

  // ---------------------------------------------------------------- a SENT row that comes back

  /** Both loops read the row while it is pending. */
  lemma {:induction false} BothRead(polls: seq<Action>)
    requires polls == [Begin(0), Read(0), Begin(1)] + [Read(1)]
    ensures var ev := Snap(0, 0, None);
            Exec(EMPTY, [Enqueue, Spawn, Spawn] + polls) == System(0, [NewRow(0)], [Working(0, [ev]), Working(0, [ev])])
  {
    Opening();
    var row, ev := NewRow(0), Snap(0, 0, None);
    var start := System(0, [row], [Idle, Idle]);
    ExecConcat(EMPTY, [Enqueue, Spawn, Spawn], polls);
    ExecSnoc(start, [Begin(0), Read(0), Begin(1)], Read(1));
    ThreeSteps(start, Begin(0), Read(0), Begin(1));
    var s := System(0, [row], [Polling(0), Idle]);
    assert Apply(start, Begin(0)) == s;
    ReadsOne(s, 0, row);
    assert Apply(s, Read(0)).loops == [Working(0, [ev]), Idle];
    assert Apply(Apply(s, Read(0)), Begin(1)).loops == [Working(0, [ev]), Polling(0)];
    s := System(0, [row], [Working(0, [ev]), Polling(0)]);
    ReadsOne(s, 1, row);
    assert Apply(s, Read(1)).loops == [Working(0, [ev]), Working(0, [ev])];
  }

  const SENT_ONCE := NewRow(0).(status := SENT, handed := 1, tries := 1)

  /** Loop 0 sends the row while loop 1 still has it in its batch. */
  lemma {:induction false} FirstSends(s: System, sends: seq<Action>)
    requires s == System(0, [NewRow(0)], [Working(0, [Snap(0, 0, None)]), Working(0, [Snap(0, 0, None)])])
    requires sends == [Claim(0), Publish(0, true, true), Mark(0, true)]
    ensures Exec(s, sends) == System(0, [SENT_ONCE], [Working(0, []), Working(0, [Snap(0, 0, None)])])
  {
    var row, ev := NewRow(0), Snap(0, 0, None);
    ThreeSteps(s, Claim(0), Publish(0, true, true), Mark(0, true));
    assert [ev][1..] == [];
    var s1 := System(0, [row.(lockedAt := Some(0))], [Publishing(0, ev, []), Working(0, [ev])]);
    assert Apply(s, Claim(0)) == s1;
    var s2 := System(0, [row.(lockedAt := Some(0), tries := 1, handed := 1)], [Marking(0, ev, []), Working(0, [ev])]);
    assert Apply(s1, Publish(0, true, true)) == s2;
  }

  /** Loop 1 claims the sent row and fails to publish it. */
  lemma {:induction false} SecondRevives(s: System, revives: seq<Action>)
    requires s == System(0, [SENT_ONCE], [Working(0, []), Working(0, [Snap(0, 0, None)])])
    requires revives == [Claim(1), Publish(1, false, false), Record(1, true)]
    ensures |Exec(s, revives).rows| == 1 && Exec(s, revives).rows[0].status == PENDING && Exec(s, revives).clock == 0
  {
    var ev := Snap(0, 0, None);
    ThreeSteps(s, Claim(1), Publish(1, false, false), Record(1, true));
    assert [ev][1..] == [];
    var s1 := System(0, [SENT_ONCE.(lockedAt := Some(0))], [Working(0, []), Publishing(0, ev, [])]);
    assert Apply(s, Claim(1)) == s1;
    var s2 := System(0, [SENT_ONCE.(lockedAt := Some(0), tries := 2)], [Working(0, []), Failing(0, ev, [])]);
    assert Apply(s1, Publish(1, false, false)) == s2;
  }

  /** With two loops SENT is not final: a batch read before the row was sent still claims it, since
      its lock is free again, and a failed publish puts the row back to PENDING. No time passes. */
  lemma {:induction false} SentIsNotFinal(polls: seq<Action>, sends: seq<Action>, revives: seq<Action>)
    requires polls == [Begin(0), Read(0), Begin(1)] + [Read(1)]
    requires sends == [Claim(0), Publish(0, true, true), Mark(0, true)]
    requires revives == [Claim(1), Publish(1, false, false), Record(1, true)]
    ensures var run := [Enqueue, Spawn, Spawn] + polls + sends;
            && Exec(EMPTY, run).rows == [SENT_ONCE]
            && |Exec(EMPTY, run + revives).rows| == 1
            && Exec(EMPTY, run + revives).rows[0].status == PENDING
            && Exec(EMPTY, run + revives).clock == 0
  {
    var opening := [Enqueue, Spawn, Spawn] + polls;
    BothRead(polls);
    ExecConcat(EMPTY, opening, sends);
    FirstSends(Exec(EMPTY, opening), sends);
    ExecConcat(EMPTY, opening + sends, revives);
    SecondRevives(Exec(EMPTY, opening + sends), revives);
  }

  // ---------------------------------------------------------------- a DEAD row that comes back

  const STALE := Working(0, [Snap(0, 0, None)])

  /** One row after `k` failures, due within a minute; a loop that read it before the first of them still
      has that snapshot. */
  ghost predicate AfterFailures(s: System, k: nat) {
    && |s.rows| == 1 && s.loops == [Idle, STALE] && s.clock >= 0
    && s.rows[0].attempts == k && s.rows[0].lockedAt == None && s.rows[0].availableAt <= s.clock + 60_000
    && s.rows[0].status == if k < 7 then PENDING else DEAD
  }

  lemma {:induction false} BackoffIsShort(attempts: nat)
    ensures Backoff(attempts) <= 60_000
  {
  }

  /** The other loop waits a minute and reads the row. */
  lemma {:induction false} WaitAndRead(s: System, k: nat)
    requires k < 7 && AfterFailures(s, k)
    ensures Exec(s, [Tick(60_000), Begin(0), Read(0)])
         == System(s.clock + 60_000, s.rows, [Working(s.clock + 60_000, [Snap(0, k, None)]), STALE])
  {
    ThreeSteps(s, Tick(60_000), Begin(0), Read(0));
    var now := s.clock + 60_000;
    var polling := System(now, s.rows, [Polling(now), STALE]);
    assert Apply(Apply(s, Tick(60_000)), Begin(0)) == polling;
    assert s.rows == [s.rows[0]];
    ReadsOne(polling, 0, s.rows[0]);
  }

  lemma {:induction false} ClaimAndFail(s: System, k: nat)
    requires k < 7 && |s.rows| == 1 && s.rows[0].attempts == k && s.rows[0].lockedAt == None && s.clock >= 0
    requires s.loops == [Working(s.clock, [Snap(0, k, None)]), STALE]
    ensures var t := Exec(s, [Claim(0), Publish(0, false, false), Record(0, true)]);
            AfterFailures(t.(loops := [Idle, STALE]), k + 1) && t.loops == [Working(s.clock, []), STALE]
  {
    ThreeSteps(s, Claim(0), Publish(0, false, false), Record(0, true));
    var ev := Snap(0, k, None);
    assert [ev][1..] == [];
    BackoffIsShort(k + 1);
    var t := Apply(s, Claim(0));
    assert t.loops == [Publishing(s.clock, ev, []), STALE];
    var u := Apply(t, Publish(0, false, false));
    assert u.loops == [Failing(s.clock, ev, []), STALE];
    assert Apply(u, Record(0, true)).loops == [Working(s.clock, []), STALE];
  }

  /** One more failure. */
  lemma {:induction false} FailOnce(s: System, k: nat) returns (more: seq<Action>)
    requires k < 7 && AfterFailures(s, k)
    ensures AfterFailures(Exec(s, more), k + 1)
  {
    var wait, fail := [Tick(60_000), Begin(0), Read(0)], [Claim(0), Publish(0, false, false), Record(0, true)];
    WaitAndRead(s, k);
    ClaimAndFail(Exec(s, wait), k);
    ExecConcat(s, wait, fail);
    ExecSnoc(s, wait + fail, Claim(0));
    more := wait + fail + [Claim(0)];
    var t := Exec(s, wait + fail);
    assert Apply(t, Claim(0)) == t.(loops := [Idle, STALE]);
  }

  lemma {:induction false} FailUpTo(k: nat) returns (run: seq<Action>)
    requires k <= 7
    ensures AfterFailures(Exec(EMPTY, run), k)
  {
    if k == 0 {
      run := StaleOpening();
    } else {
      var before := FailUpTo(k - 1);
      var more := FailOnce(Exec(EMPTY, before), k - 1);
      run := before + more;
      ExecConcat(EMPTY, before, more);
    }
  }

  lemma {:induction false} StaleOpening() returns (run: seq<Action>)
    ensures AfterFailures(Exec(EMPTY, run), 0)
  {
    Opening();
    run := [Enqueue, Spawn, Spawn] + [Begin(1), Read(1)];
    var s := System(0, [NewRow(0)], [Idle, Idle]);
    ExecConcat(EMPTY, [Enqueue, Spawn, Spawn], [Begin(1), Read(1)]);
    TwoSteps(s, Begin(1), Read(1));
    var polling := System(0, [NewRow(0)], [Idle, Polling(0)]);
    assert Apply(s, Begin(1)) == polling;
    ReadsOne(polling, 1, NewRow(0));
    assert Apply(polling, Read(1)).loops == [Idle, STALE];
  }

  lemma {:induction false} StaleSends(s: System)
    requires AfterFailures(s, 7)
    ensures var t := Exec(s, [Claim(1), Publish(1, true, true), Mark(1, true)]);
            |t.rows| == 1 && t.rows[0].status == SENT
  {
    ThreeSteps(s, Claim(1), Publish(1, true, true), Mark(1, true));
    assert s.loops[1] == STALE;
  }

  /** With two loops DEAD is not final either: after seven failures a batch read before the first of
      them still claims the row and sends it. */
  lemma {:induction false} DeadIsNotFinal() returns (run: seq<Action>, more: seq<Action>)
    ensures |Exec(EMPTY, run).rows| == 1 && Exec(EMPTY, run).rows[0].status == DEAD
    ensures |Exec(EMPTY, run + more).rows| == 1 && Exec(EMPTY, run + more).rows[0].status == SENT
  {
    run := FailUpTo(7);
    more := [Claim(1), Publish(1, true, true), Mark(1, true)];
    StaleSends(Exec(EMPTY, run));
    ExecConcat(EMPTY, run, more);
  }
}
