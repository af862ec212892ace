/** The outbox dispatcher as a protocol: any number of poll loops over one table, interleaved
    between reading a batch, claiming a row, publishing it and writing the outcome, with crashes.
    Times are milliseconds. Rows are in creation order and are named by their index. */
module Outbox {
  import opened Wrappers

  const LEASE := 60_000
  const BATCH := 50
  const MAX_TRIES := 7

  datatype Status = PENDING | SENT | DEAD

  /** The last five fields are history variables that no step reads: times handed to the channel,
      tries begun, failures recorded, tries whose outcome was lost in a crash, and the instants of
      the first recorded failure and of death. */
  datatype Row = Row(status: Status, attempts: nat, availableAt: int, lockedAt: Option<int>,
                     handed: nat, tries: nat, failures: nat, lost: nat,
                     firstFailure: Option<int>, deadAt: Option<int>)

  function NewRow(now: int): Row {
    Row(PENDING, 0, now, None, 0, 0, 0, 0, None, None)
  }

  /** What a loop remembers of a row it read. */
  datatype Snap = Snap(id: nat, attempts: nat, lockedAt: Option<int>)

  /** Where a loop is. `now` is the instant it began its poll; it stamps every claim of the batch.
      Publishing: claimed, about to publish. Marking: published, about to write SENT.
      Failing: in the error branch, about to record the failure. */
  datatype Loop =
    | Idle
    | Polling(now: int)
    | Working(now: int, batch: seq<Snap>)
    | Publishing(now: int, ev: Snap, batch: seq<Snap>)
    | Marking(now: int, ev: Snap, batch: seq<Snap>)
    | Failing(now: int, ev: Snap, batch: seq<Snap>)
    | Stopped
  {
    /** The loop acts as the owner of its current row, `ev`. */
    predicate Owner() {
      Publishing? || Marking? || Failing?
    }

    predicate Holds(id: nat) {
      Owner() && ev.id == id
    }
  }

  datatype System = System(clock: int, rows: seq<Row>, loops: seq<Loop>)

  // ---------------------------------------------------------------- the table operations

  /** The filter of the batch query. */
  predicate Eligible(row: Row, now: int) {
    && row.status == PENDING
    && row.availableAt <= now
    && (row.lockedAt.Some? ==> row.lockedAt.value < now - LEASE)
  }

  /** The first `take` eligible rows from index `from` on, in creation order. */
  function ReadBatch(rows: seq<Row>, now: int, from: nat, take: nat): (r: seq<Snap>)
    requires from <= |rows|
    ensures |r| <= take
    ensures forall k :: 0 <= k < |r| ==>
              && from <= r[k].id < |rows| && Eligible(rows[r[k].id], now)
              && r[k] == Snap(r[k].id, rows[r[k].id].attempts, rows[r[k].id].lockedAt)
    ensures forall k, l :: 0 <= k < l < |r| ==> r[k].id < r[l].id
    decreases |rows| - from
  {
    if from == |rows| || take == 0 then []
    else if Eligible(rows[from], now) then
      [Snap(from, rows[from].attempts, rows[from].lockedAt)] + ReadBatch(rows, now, from + 1, take - 1)
    else ReadBatch(rows, now, from + 1, take)
  }

  function CountEligible(rows: seq<Row>, now: int): nat {
    if rows == [] then 0
    else CountEligible(rows[..|rows| - 1], now) + if Eligible(rows[|rows| - 1], now) then 1 else 0
  }

  lemma {:induction false} CountEligibleGrows(rows: seq<Row>, now: int, a: nat, b: nat)
    requires a <= b <= |rows|
    ensures CountEligible(rows[..a], now) <= CountEligible(rows[..b], now)
    decreases b
  {
    if a < b {
      CountEligibleGrows(rows, now, a, b - 1);
      assert rows[..b][..b - 1] == rows[..b - 1];
    }
  }

  lemma {:induction false} CountEligibleStep(rows: seq<Row>, now: int, i: nat)
    requires i < |rows|
    ensures CountEligible(rows[..i + 1], now) == CountEligible(rows[..i], now) + if Eligible(rows[i], now) then 1 else 0
  {
    assert rows[..i + 1][..i] == rows[..i];
  }

  /** The k-th row read is the one with k eligible rows before it. */
  lemma {:induction false} RankOfRead(rows: seq<Row>, now: int, from: nat, take: nat, k: nat)
    requires from <= |rows| && k < |ReadBatch(rows, now, from, take)|
    ensures CountEligible(rows[..ReadBatch(rows, now, from, take)[k].id], now)
            == CountEligible(rows[..from], now) + k
    decreases |rows| - from
  {
    CountEligibleStep(rows, now, from);
    if !Eligible(rows[from], now) {
      RankOfRead(rows, now, from + 1, take, k);
    } else if k > 0 {
      RankOfRead(rows, now, from + 1, take - 1, k - 1);
    }
  }

  /** Row i is the k-th one read. */
  predicate ReadAt(r: seq<Snap>, k: nat, i: nat) {
    k < |r| && r[k].id == i
  }

  /** An eligible row is read if fewer than `take` eligible rows lie between `from` and it: the k-th read
      is the one with k of them before it. */
  lemma {:induction false} ReadIfEligible(rows: seq<Row>, now: int, from: nat, take: nat, i: nat, k: nat)
    requires from <= i < |rows| && Eligible(rows[i], now) && k < take
    requires CountEligible(rows[..i], now) == CountEligible(rows[..from], now) + k
    ensures ReadAt(ReadBatch(rows, now, from, take), k, i)
    decreases |rows| - from
  {
    if i > from {
      CountEligibleStep(rows, now, from);
      CountEligibleGrows(rows, now, from + 1, i);
      if Eligible(rows[from], now) {
        ReadIfEligible(rows, now, from + 1, take - 1, i, k - 1);
      } else {
        ReadIfEligible(rows, now, from + 1, take, i, k);
      }
    }
  }

  /** The batch is exactly the first fifty rows that are PENDING, due, and unlocked or locked more than a
      minute ago; the k-th of them, as it stands, at place k. */
  lemma {:induction false} BatchIsFirstFifty(rows: seq<Row>, now: int, i: nat)
    requires i < |rows|
    ensures var row, r, k := rows[i], ReadBatch(rows, now, 0, BATCH), CountEligible(rows[..i], now);
            if row.status == PENDING && row.availableAt <= now
               && (row.lockedAt.None? || row.lockedAt.value < now - 60_000) && k < 50
            then k < |r| && r[k] == Snap(i, row.attempts, row.lockedAt)
            else forall j :: 0 <= j < |r| ==> r[j].id != i
  {
    var r := ReadBatch(rows, now, 0, BATCH);
    if Eligible(rows[i], now) && CountEligible(rows[..i], now) < BATCH {
      ReadIfEligible(rows, now, 0, BATCH, i, CountEligible(rows[..i], now));
    } else {
      forall j | 0 <= j < |r|
        ensures r[j].id != i
      {
        RankOfRead(rows, now, 0, BATCH, j);
      }
    }
  }

  /** The claim tests the lock it read, and nothing else. */
  predicate ClaimSucceeds(row: Row, ev: Snap) {
    row.lockedAt == ev.lockedAt
  }

  function Backoff(attempts: nat): int {
    Min(60, Pow2(Min(6, attempts))) * 1000
  }

  function Min(a: int, b: int): int {
    if a <= b then a else b
  }

  function Pow2(n: int): int {
    if n <= 0 then 1 else 2 * Pow2(n - 1)
  }

  function Sent(row: Row): Row {
    row.(status := SENT, lockedAt := None)
  }

  function Failed(row: Row, ev: Snap, clock: int): Row {
    var attempts := ev.attempts + 1;
    row.(attempts := attempts, lockedAt := None, availableAt := clock + Backoff(attempts),
         status := if attempts >= MAX_TRIES then DEAD else PENDING,
         failures := row.failures + 1,
         firstFailure := if row.firstFailure.None? then Some(clock) else row.firstFailure,
         deadAt := if attempts >= MAX_TRIES then Some(clock) else row.deadAt)
  }

  /** The waits after the first, second, ... failure: 2, 4, 8, 16, 32 seconds, and a minute from then on. */
  lemma {:induction false} Backoffs(attempts: nat)
    ensures attempts == 1 ==> Backoff(attempts) == 2_000
    ensures attempts == 2 ==> Backoff(attempts) == 4_000
    ensures attempts == 3 ==> Backoff(attempts) == 8_000
    ensures attempts == 4 ==> Backoff(attempts) == 16_000
    ensures attempts == 5 ==> Backoff(attempts) == 32_000
    ensures attempts >= 6 ==> Backoff(attempts) == 60_000
  {
    assert Pow2(3) == 8 && Pow2(6) == 64;
  }

  // ---------------------------------------------------------------- the steps

  datatype Action =
    | Tick(ms: nat)
    | Enqueue                                      // another transaction adds a row
    | Spawn                                        // a loop starts
    | Begin(l: nat)                                // it takes the time of its poll
    | Read(l: nat)                                 // and reads its batch
    | Claim(l: nat)                                // the compare-and-set on the next row
    | Publish(l: nat, handed: bool, ok: bool)      // the channel may take a message and still time out
    | Mark(l: nat, ok: bool)                       // write SENT; an error goes to the error branch
    | Record(l: nat, ok: bool)                     // write the failure; an error ends the loop
    | Crash(l: nat)

  function Put(s: System, l: nat, loop: Loop): System
    requires l < |s.loops|
  {
    s.(loops := s.loops[l := loop])
  }

  function PutRow(s: System, l: nat, loop: Loop, id: nat, row: Row): System
    requires l < |s.loops| && id < |s.rows|
  {
    s.(loops := s.loops[l := loop], rows := s.rows[id := row])
  }

  function Lost(s: System, l: nat, id: nat): System
    requires l < |s.loops| && id < |s.rows|
  {
    PutRow(s, l, Stopped, id, s.rows[id].(lost := s.rows[id].lost + 1))
  }

  /** One step of loop l. A step the loop is not ready for changes nothing. */
  function LoopStep(s: System, a: Action, l: nat, loop: Loop): System
    requires l < |s.loops| && loop == s.loops[l]
  {
    match a
    case Begin(_) => if loop.Idle? then Put(s, l, Polling(s.clock)) else s
    case Read(_) =>
      if loop.Polling? then Put(s, l, Working(loop.now, ReadBatch(s.rows, loop.now, 0, BATCH))) else s
    case Claim(_) =>
      if !loop.Working? then s
      else if loop.batch == [] then Put(s, l, Idle)
      else
        var ev, rest := loop.batch[0], loop.batch[1..];
        if ev.id < |s.rows| && ClaimSucceeds(s.rows[ev.id], ev)
        then PutRow(s, l, Publishing(loop.now, ev, rest), ev.id, s.rows[ev.id].(lockedAt := Some(loop.now)))
        else Put(s, l, Working(loop.now, rest))
    case Publish(_, handed, ok) =>
      if !loop.Publishing? || loop.ev.id >= |s.rows| then s
      else
        var row := s.rows[loop.ev.id];
        var after := row.(tries := row.tries + 1, handed := row.handed + if handed || ok then 1 else 0);
        var next := if ok then Marking(loop.now, loop.ev, loop.batch) else Failing(loop.now, loop.ev, loop.batch);
        PutRow(s, l, next, loop.ev.id, after)
    case Mark(_, ok) =>
      if !loop.Marking? || loop.ev.id >= |s.rows| then s
      else if ok then PutRow(s, l, Working(loop.now, loop.batch), loop.ev.id, Sent(s.rows[loop.ev.id]))
      else Put(s, l, Failing(loop.now, loop.ev, loop.batch))
    case Record(_, ok) =>
      if !loop.Failing? || loop.ev.id >= |s.rows| then s
      else if ok
      then PutRow(s, l, Working(loop.now, loop.batch), loop.ev.id, Failed(s.rows[loop.ev.id], loop.ev, s.clock))
      else Lost(s, l, loop.ev.id)
    case Crash(_) =>
      if (loop.Marking? || loop.Failing?) && loop.ev.id < |s.rows| then Lost(s, l, loop.ev.id) else Put(s, l, Stopped)
    case _ => s
  }

  function Apply(s: System, a: Action): System {
    match a
    case Tick(ms) => s.(clock := s.clock + ms)
    case Enqueue => s.(rows := s.rows + [NewRow(s.clock)])
    case Spawn => s.(loops := s.loops + [Idle])
    case _ => if a.l < |s.loops| then LoopStep(s, a, a.l, s.loops[a.l]) else s
  }

  /** The state after a run. A run is the sequence of its steps. */
  function Exec(s: System, run: seq<Action>): System {
    if run == [] then s else Apply(Exec(s, run[..|run| - 1]), run[|run| - 1])
  }

  const EMPTY := System(0, [], [])

  lemma {:induction false} ExecSnoc(s: System, run: seq<Action>, a: Action)
    ensures Exec(s, run + [a]) == Apply(Exec(s, run), a)
  {
  }

  lemma {:induction false} ExecConcat(s: System, run: seq<Action>, more: seq<Action>)
    ensures Exec(s, run + more) == Exec(Exec(s, run), more)
    decreases |more|
  {
    if more == [] {
      assert run + more == run;
    } else {
      var k := |more| - 1;
      assert (run + more)[..|run| + k] == run + more[..k];
      ExecConcat(s, run, more[..k]);
    }
  }
}
