/** The rate limiter: a token bucket kept by a Redis script under a key that expires.
    Arithmetic is over reals; times are seconds. */
module TokenBucket {
  import opened Wrappers

  /** The hash stored under a key: `tokens` and `ts`, always written together. */
  datatype Bucket = Bucket(tokens: real, ts: real)

  datatype Config = Config(capacity: real, rate: real) {
    predicate Valid() {
      capacity > 0.0 && rate > 0.0
    }

    /** What the service can send: a limit and its sixtieth, of whatever sign. */
    predicate Proper() {
      Valid() || (capacity < 0.0 && rate < 0.0) || (capacity == 0.0 && rate == 0.0)
    }

    /** The EXPIRE argument: capacity / rate, rounded up. */
    function Ttl(): int
      requires rate != 0.0
    {
      -(-(capacity / rate)).Floor
    }

    function Refill(elapsed: real): real {
      if elapsed > 0.0 then rate * elapsed else 0.0
    }

    /** Tokens seen by a call at `now`, before anything is taken. */
    function Level(data: Option<Bucket>, now: real): real {
      match data
      case None => capacity
      case Some(b) => Min(capacity, b.tokens + Refill(now - b.ts))
    }

    function After(data: Option<Bucket>, now: real, requested: real): Bucket {
      var level := Level(data, now);
      Bucket(if level >= requested then level - requested else level, now)
    }
  }

  function Min(a: real, b: real): real {
    if a <= b then a else b
  }

  // ---------------------------------------------------------------- the service

  /** A hash with the instant at which Redis drops it, if it ever does. */
  datatype Entry = Entry(bucket: Bucket, expiresAt: Option<real>)

  /** The script's answer, or its failure. */
  datatype Reply = Answer(allowed: bool, left: real, ttl: int) | ScriptError

  datatype Group = Read | Write

  datatype Decision = Decision(allowed: bool, remaining: int, retryAfterSeconds: int, limit: real)

  predicate Expired(entry: Entry, server: real) {
    entry.expiresAt.Some? && entry.expiresAt.value <= server
  }

  /** What HMGET finds when Redis' own clock is at `server`: an expired entry is as good as absent. */
  function Live(entry: Option<Entry>, server: real): Option<Bucket> {
    if entry.Some? && !Expired(entry.value, server) then Some(entry.value.bucket) else None
  }

  /** HMSET leaves the time to live of an entry that is there as it is. */
  function Kept(entry: Option<Entry>, server: real): Option<real> {
    if entry.Some? && !Expired(entry.value, server) then entry.value.expiresAt else None
  }

  function PerMinute(limit: real): (c: Config)
    ensures c.Proper() && c.capacity == limit == 60.0 * c.rate
    ensures limit > 0.0 ==> c.Valid()
  {
    Config(limit, limit / 60.0)
  }

  /** The time to live is the ceiling of capacity / rate. */
  lemma {:induction false} TtlIsCeiling(cfg: Config)
    requires cfg.rate != 0.0
    ensures cfg.Ttl() as real - 1.0 < cfg.capacity / cfg.rate <= cfg.Ttl() as real
  {
  }

  /** Every limit but zero makes a time to live of one minute. */
  lemma {:induction false} OneMinute(limit: real)
    requires limit != 0.0
    ensures PerMinute(limit).rate != 0.0 && PerMinute(limit).Ttl() == 60
  {
    var rate := PerMinute(limit).rate;
    assert limit / rate == 60.0;
  }

  function Key(tenantId: string, sub: string, group: Group): string {
    "ratelimit:" + tenantId + ":" + sub + ":" + (if group.Read? then "read" else "write")
  }

  lemma {:induction false} SameTail(a: string, b: string, tail: string)
    requires a + tail == b + tail
    ensures a == b
  {
    assert |a| == |b|;
    assert a == (a + tail)[..|a|] && b == (b + tail)[..|b|];
  }

  lemma {:induction false} SameHead(head: string, a: string, b: string)
    requires head + a == head + b
    ensures a == b
  {
    assert a == (head + a)[|head|..] && b == (head + b)[|head|..];
  }

  /** The last letter tells a key of reads from one of writes. */
  lemma {:induction false} KeyEnds(tenantId: string, sub: string, group: Group)
    ensures var key := Key(tenantId, sub, group); |key| > 0 && (key[|key| - 1] == 'd' <==> group.Read?)
  {
  }

  lemma {:induction false} JoinedKey(t: string, u: string, g: Group)
    ensures Key(t, u, g) == "ratelimit:" + (t + ":" + u) + if g.Read? then ":read" else ":write"
  {
    var tail := if g.Read? then ":read" else ":write";
    assert Key(t, u, g) == "ratelimit:" + (t + ":" + u) + tail;
  }

  /** Two callers share a bucket exactly when their groups agree and their tenants and subjects, joined by
      a colon, do. */
  lemma {:induction false} SharedIff(t: string, u: string, g: Group, tenantId: string, sub: string, group: Group)
    ensures Key(t, u, g) == Key(tenantId, sub, group) <==> g == group && t + ":" + u == tenantId + ":" + sub
  {
    if Key(t, u, g) == Key(tenantId, sub, group) {
      KeyEnds(t, u, g);
      KeyEnds(tenantId, sub, group);
      var tail, a, b := if group.Read? then ":read" else ":write", t + ":" + u, tenantId + ":" + sub;
      JoinedKey(t, u, g);
      JoinedKey(tenantId, sub, group);
      SameTail("ratelimit:" + a, "ratelimit:" + b, tail);
      SameHead("ratelimit:", a, b);
    }
    if g == group && t + ":" + u == tenantId + ":" + sub {
      JoinedKey(t, u, g);
      JoinedKey(tenantId, sub, group);
    }
  }

  lemma {:induction false} FirstColon(t: string, u: string, tenantId: string, sub: string)
    requires ':' !in t && ':' !in tenantId && t + ":" + u == tenantId + ":" + sub
    ensures t == tenantId && u == sub
  {
    var joined := t + ":" + u;
    assert joined[|t|] == ':' && joined[|tenantId|] == ':';
    assert forall i :: 0 <= i < |t| ==> joined[i] == t[i];
    assert forall i :: 0 <= i < |tenantId| ==> joined[i] == tenantId[i];
    assert |t| == |tenantId|;
    assert t == joined[..|t|] && tenantId == joined[..|tenantId|];
    SameHead(t + ":", u, sub);
  }

  /** As long as no tenant id holds a colon every tenant, subject and group has a bucket of its own. */
  lemma {:induction false} OwnBucket(t: string, u: string, g: Group, tenantId: string, sub: string, group: Group)
    requires ':' !in t && ':' !in tenantId
    ensures Key(t, u, g) == Key(tenantId, sub, group) <==> t == tenantId && u == sub && g == group
  {
    SharedIff(t, u, g, tenantId, sub, group);
    if t + ":" + u == tenantId + ":" + sub {
      FirstColon(t, u, tenantId, sub);
    }
  }

  /** With a colon in one of them two tenants can share. */
  lemma {:induction false} ColonCollides(group: Group)
    ensures Key("a:b", "c", group) == Key("a", "b:c", group)
  {
    assert "a:b" + ":" + "c" == "a" + ":" + "b:c";
    SharedIff("a:b", "c", group, "a", "b:c", group);
  }

  class RedisService {
    var keys: map<string, Entry>

    function Find(key: string): Option<Entry>
      reads this
    {
      if key in keys then Some(keys[key]) else None
    }

    /** The Lua script, in its own order of reads and writes. `now` comes with the call; the key expires
        by Redis' own clock, `server`. With a rate of zero the time to live is
        no number, EXPIRE fails, and what was written before stays. */
    method EvalTokenBucket(key: string, cfg: Config, now: real, requested: real, server: real) returns (reply: Reply)
      requires cfg.Proper()
      modifies this
      ensures var before := old(Live(Find(key), server));
              var after := cfg.After(before, now, requested);
              if cfg.rate == 0.0 then
                reply == ScriptError && keys == old(keys)[key := Entry(after, old(Kept(Find(key), server)))]
              else
                && reply == Answer(cfg.Level(before, now) >= requested, after.tokens, cfg.Ttl())
                && keys == old(keys)[key := Entry(after, Some(server + cfg.Ttl() as real))]
      ensures key in keys && (cfg.rate == 0.0 ==>
                keys[key].expiresAt == if key in old(keys) && !(old(keys)[key].expiresAt.Some?
                                                                && old(keys)[key].expiresAt.value <= server)
                                       then old(keys)[key].expiresAt else None)
    {
      var data := Live(Find(key), server);
      var kept := Kept(Find(key), server);
      var tokens := if data.Some? then data.value.tokens else cfg.capacity;
      var ts := if data.Some? then data.value.ts else now;
      var delta := if now - ts > 0.0 then now - ts else 0.0;
      var refill := delta * cfg.rate;
      assert refill == cfg.Refill(now - ts);
      tokens := Min(cfg.capacity, tokens + refill);
      var allowed := false;
      if tokens >= requested {
        allowed := true;
        tokens := tokens - requested;
      }
      keys := keys[key := Entry(Bucket(tokens, now), kept)];
      if cfg.rate == 0.0 {
        return ScriptError;
      }
      var ttl := cfg.Ttl();
      keys := keys[key := Entry(Bucket(tokens, now), Some(server + ttl as real))];
      return Answer(allowed, tokens, ttl);
    }

    /** None when the script fails, which is for a limit of zero. A limit below one admits nothing. What any
        other caller finds stays as it was, as long as no tenant id holds a colon. */
    method ConsumeRateLimit(tenantId: string, sub: string, group: Group, writeLimit: real, readLimit: real, now: real,
            server: real)
      returns (decision: Option<Decision>)
      modifies this
      ensures var limit := if group.Write? then writeLimit else readLimit;
              var key, cfg := Key(tenantId, sub, group), PerMinute(limit);
              var before := old(Live(Find(key), server));
              var after := cfg.After(before, now, 1.0);
              && (decision.None? <==> limit == 0.0)
              && (decision.Some? ==>
                    && (decision.value.allowed <==> cfg.Level(before, now) >= 1.0)
                    && decision.value.limit == limit
                    && decision.value.retryAfterSeconds == (if decision.value.allowed then 0 else 1)
                    && decision.value.remaining >= 0
                    && after.tokens < decision.value.remaining as real + 1.0
                    && (decision.value.remaining > 0 ==> decision.value.remaining as real <= after.tokens)
                    && (limit < 1.0 ==> !decision.value.allowed))
              && var expiry := if limit == 0.0 then old(Kept(Find(key), server)) else Some(server + 60.0);
                 keys == old(keys)[key := Entry(after, expiry)]
      ensures forall t, u, g :: ':' !in t && ':' !in tenantId && (t != tenantId || u != sub || g != group) ==>
                Find(Key(t, u, g)) == old(Find(Key(t, u, g)))
    {
      forall t, u, g | ':' !in t && ':' !in tenantId && (t != tenantId || u != sub || g != group)
        ensures Key(t, u, g) != Key(tenantId, sub, group)
      {
        OwnBucket(t, u, g, tenantId, sub, group);
      }
      var limit := if group.Write? then writeLimit else readLimit;
      var reply := EvalTokenBucket(Key(tenantId, sub, group), PerMinute(limit), now, 1.0, server);
      if reply.ScriptError? {
        return None;
      }
      OneMinute(limit);
      var whole := reply.left.Floor;
      decision := Some(Decision(reply.allowed, if whole > 0 then whole else 0, if reply.allowed then 0 else 1, limit));
    }
  }

  // ---------------------------------------------------------------- runs on one key

  ghost predicate Nondecreasing(times: seq<real>) {
    forall i, j :: 0 <= i <= j < |times| ==> times[i] <= times[j]
  }

  /** The bucket after the first `k` calls, each for one token, were the key never dropped. */
  function StateAt(cfg: Config, times: seq<real>, k: nat): Option<Bucket>
    requires k <= |times|
  {
    if k == 0 then None else Some(cfg.After(StateAt(cfg, times, k - 1), times[k - 1], 1.0))
  }

  function LevelAt(cfg: Config, times: seq<real>, k: nat): real
    requires k < |times|
  {
    cfg.Level(StateAt(cfg, times, k), times[k])
  }

  predicate AllowedAt(cfg: Config, times: seq<real>, k: nat)
    requires k < |times|
  {
    LevelAt(cfg, times, k) >= 1.0
  }

  /** The same run on the key as Redis keeps it: call k comes when Redis' clock is at server[k], and
      the key is dropped once its time to live is over by that clock. */
  function EntryAt(cfg: Config, times: seq<real>, server: seq<real>, k: nat): Option<Entry>
    requires cfg.Valid() && k <= |times| == |server|
  {
    if k == 0 then None
    else
      var found := Live(EntryAt(cfg, times, server, k - 1), server[k - 1]);
      Some(Entry(cfg.After(found, times[k - 1], 1.0), Some(server[k - 1] + cfg.Ttl() as real)))
  }

  /** What call k finds under the key. */
  function FoundAt(cfg: Config, times: seq<real>, server: seq<real>, k: nat): real
    requires cfg.Valid() && k < |times| == |server|
  {
    cfg.Level(Live(EntryAt(cfg, times, server, k), server[k]), times[k])
  }

  predicate ServedAt(cfg: Config, times: seq<real>, server: seq<real>, k: nat)
    requires cfg.Valid() && k < |times| == |server|
  {
    FoundAt(cfg, times, server, k) >= 1.0
  }

  /** Redis dropped the key between calls k - 1 and k. */
  predicate Dropped(cfg: Config, server: seq<real>, k: nat)
    requires cfg.Valid() && k < |server|
  {
    k > 0 && server[k] >= server[k - 1] + cfg.Ttl() as real
  }

  lemma {:induction false} StateInRange(cfg: Config, times: seq<real>, k: nat)
    requires cfg.Valid() && k <= |times|
    ensures StateAt(cfg, times, k).Some? ==> 0.0 <= StateAt(cfg, times, k).value.tokens <= cfg.capacity
  {
    if k > 0 {
      StateInRange(cfg, times, k - 1);
      RefillNonNegative(cfg, StateAt(cfg, times, k - 1), times[k - 1]);
    }
  }

  lemma {:induction false} RefillNonNegative(cfg: Config, data: Option<Bucket>, now: real)
    requires cfg.Valid()
    ensures data.Some? ==> cfg.Refill(now - data.value.ts) >= 0.0
  {
  }

  lemma {:induction false} ScaleUp(rate: real, a: real, b: real)
    requires rate > 0.0 && a <= b
    ensures rate * a <= rate * b
  {
  }

  lemma {:induction false} Distribute(rate: real, a: real, b: real)
    ensures rate * a + rate * b == rate * (a + b)
  {
  }

  /** While nothing was dropped from a bucket that was not full, the key is the bucket that never
      expires. */
  lemma {:induction false} SameBucket(cfg: Config, times: seq<real>, server: seq<real>, k: nat)
    requires cfg.Valid() && k < |times| == |server|
    requires forall j :: 0 <= j <= k && Dropped(cfg, server, j) ==> LevelAt(cfg, times, j) == cfg.capacity
    ensures FoundAt(cfg, times, server, k) == LevelAt(cfg, times, k)
    ensures EntryAt(cfg, times, server, k + 1).value.bucket == StateAt(cfg, times, k + 1).value
  {
    if k > 0 {
      SameBucket(cfg, times, server, k - 1);
    }
  }

  lemma {:induction false} DropShows(cfg: Config, times: seq<real>, server: seq<real>, k: nat)
    requires cfg.Valid() && k < |times| == |server| && Dropped(cfg, server, k)
    ensures FoundAt(cfg, times, server, k) == cfg.capacity
  {
  }

  /** For any two clocks: expiry is not observable, every call finds what it would find in the bucket
      that never expires, exactly when every drop comes at a call that would find that bucket full. */
  lemma {:induction false} ExpiryUnobservableIff(cfg: Config, times: seq<real>, server: seq<real>)
    requires cfg.Valid() && |times| == |server|
    ensures (forall k :: 0 <= k < |times| ==> FoundAt(cfg, times, server, k) == LevelAt(cfg, times, k)) <==>
            (forall k :: 0 <= k < |times| && Dropped(cfg, server, k) ==> LevelAt(cfg, times, k) == cfg.capacity)
  {
    if forall k :: 0 <= k < |times| && Dropped(cfg, server, k) ==> LevelAt(cfg, times, k) == cfg.capacity {
      forall k | 0 <= k < |times|
        ensures FoundAt(cfg, times, server, k) == LevelAt(cfg, times, k)
      {
        SameBucket(cfg, times, server, k);
      }
    }
    if forall k :: 0 <= k < |times| ==> FoundAt(cfg, times, server, k) == LevelAt(cfg, times, k) {
      forall k | 0 <= k < |times| && Dropped(cfg, server, k)
        ensures LevelAt(cfg, times, k) == cfg.capacity
      {
        DropShows(cfg, times, server, k);
        assert FoundAt(cfg, times, server, k) == LevelAt(cfg, times, k);
      }
    }
  }

  lemma {:induction false} FullAfter(cfg: Config, elapsed: real)
    requires cfg.Valid()
    ensures cfg.Refill(elapsed) >= cfg.capacity <==> elapsed >= cfg.capacity / cfg.rate
  {
    var q := cfg.capacity / cfg.rate;
    assert cfg.rate * q == cfg.capacity;
    if elapsed >= q {
      ScaleUp(cfg.rate, q, elapsed);
    } else if elapsed > 0.0 {
      ScaleUpStrictly(cfg.rate, elapsed, q);
    }
  }

  lemma {:induction false} ScaleUpStrictly(rate: real, a: real, b: real)
    requires rate > 0.0 && a < b
    ensures rate * a < rate * b
  {
  }

  /** Seen from the clocks alone: whatever the bucket held, it is full after an interval exactly when the
      callers' clock moved by at least capacity / rate. */
  lemma {:induction false} FullWhateverItHeldIff(cfg: Config, elapsed: real)
    requires cfg.Valid()
    ensures elapsed >= cfg.capacity / cfg.rate <==>
            forall b: Bucket :: 0.0 <= b.tokens <= cfg.capacity ==> cfg.Level(Some(b), b.ts + elapsed) == cfg.capacity
  {
    FullAfter(cfg, elapsed);
    if elapsed >= cfg.capacity / cfg.rate {
      forall b: Bucket | 0.0 <= b.tokens <= cfg.capacity
        ensures cfg.Level(Some(b), b.ts + elapsed) == cfg.capacity
      {
        assert b.ts + elapsed - b.ts == elapsed;
      }
    } else {
      var empty := Bucket(0.0, 0.0);
      assert empty.ts + elapsed - empty.ts == elapsed;
      assert cfg.Level(Some(empty), empty.ts + elapsed) != cfg.capacity;
    }
  }

  /** Redis drops the key only when the callers' clock moved by at least capacity / rate as well. */
  predicate DropsLate(cfg: Config, times: seq<real>, server: seq<real>)
    requires cfg.Valid() && |times| == |server|
  {
    forall k :: 0 <= k < |times| && Dropped(cfg, server, k) ==> times[k] - times[k - 1] >= cfg.capacity / cfg.rate
  }

  /** So it is on one clock, however it moves: the time to live is that long. */
  lemma {:induction false} OneClock(cfg: Config, times: seq<real>)
    requires cfg.Valid()
    ensures DropsLate(cfg, times, times)
  {
  }

  lemma {:induction false} LateDropsAreFull(cfg: Config, times: seq<real>, server: seq<real>, k: nat)
    requires cfg.Valid() && k < |times| == |server| && DropsLate(cfg, times, server) && Dropped(cfg, server, k)
    ensures LevelAt(cfg, times, k) == cfg.capacity
  {
    StateInRange(cfg, times, k);
    assert StateAt(cfg, times, k).value.ts == times[k - 1];
    FullAfter(cfg, times[k] - times[k - 1]);
  }

  /** When the key is dropped only that late, no call can tell that it ever is. */
  lemma {:induction false} ExpiryUnobservable(cfg: Config, times: seq<real>, server: seq<real>, k: nat)
    requires cfg.Valid() && k < |times| == |server| && DropsLate(cfg, times, server)
    ensures FoundAt(cfg, times, server, k) == LevelAt(cfg, times, k)
    ensures ServedAt(cfg, times, server, k) == AllowedAt(cfg, times, k)
    ensures EntryAt(cfg, times, server, k + 1).value.bucket == StateAt(cfg, times, k + 1).value
  {
    forall j | 0 <= j <= k && Dropped(cfg, server, j)
      ensures LevelAt(cfg, times, j) == cfg.capacity
    {
      LateDropsAreFull(cfg, times, server, j);
    }
    SameBucket(cfg, times, server, k);
  }

  /** When Redis' clock runs ahead a drop shows: the callers' clock stands still, and the second call
      finds the bucket full again. */
  lemma {:induction false} SkewShows(cfg: Config, server: seq<real>)
    requires cfg.Valid() && cfg.capacity >= 1.0 && server == [0.0, cfg.Ttl() as real]
    ensures LevelAt(cfg, [0.0, 0.0], 1) == cfg.capacity - 1.0
    ensures FoundAt(cfg, [0.0, 0.0], server, 1) == cfg.capacity
  {
    var times := [0.0, 0.0];
    assert StateAt(cfg, times, 1) == Some(cfg.After(StateAt(cfg, times, 0), 0.0, 1.0));
    assert Dropped(cfg, server, 1);
    DropShows(cfg, times, server, 1);
  }

  // ---------------------------------------------------------------- what is admitted

  /** Requests admitted among calls j, ..., k - 1. */
  function Admitted(cfg: Config, times: seq<real>, j: nat, k: nat): nat
    requires j <= k <= |times|
  {
    if j == k then 0 else Admitted(cfg, times, j, k - 1) + if AllowedAt(cfg, times, k - 1) then 1 else 0
  }

  /** Tokens earned by the clock between calls j and k: only its forward moves count. */
  function Earned(cfg: Config, times: seq<real>, j: nat, k: nat): real
    requires j <= k < |times|
  {
    if j == k then 0.0 else Earned(cfg, times, j, k - 1) + cfg.Refill(times[k] - times[k - 1])
  }

  /** What the window of calls j, ..., k - 1 still leaves for call k. */
  function Slack(cfg: Config, times: seq<real>, j: nat, k: nat): real
    requires j <= k < |times|
  {
    cfg.capacity + Earned(cfg, times, j, k) - Admitted(cfg, times, j, k) as real
  }

  /** The level is the least slack over all windows that end at call k. */
  lemma {:induction false} LevelIsLeastSlack(cfg: Config, times: seq<real>, k: nat) returns (tight: nat)
    requires cfg.Valid() && k < |times|
    ensures forall j :: 0 <= j <= k ==> LevelAt(cfg, times, k) <= Slack(cfg, times, j, k)
    ensures tight <= k && LevelAt(cfg, times, k) == Slack(cfg, times, tight, k)
  {
    if k == 0 {
      tight := 0;
    } else {
      var before := LevelIsLeastSlack(cfg, times, k - 1);
      var gain := cfg.Refill(times[k] - times[k - 1]);
      var b := StateAt(cfg, times, k).value;
      assert b.ts == times[k - 1];
      assert LevelAt(cfg, times, k) == Min(cfg.capacity, b.tokens + gain);
      forall j | 0 <= j <= k
        ensures LevelAt(cfg, times, k) <= Slack(cfg, times, j, k)
      {
        if j < k {
          SlackStep(cfg, times, j, k);
        }
      }
      SlackStep(cfg, times, before, k);
      tight := if b.tokens + gain >= cfg.capacity then k else before;
    }
  }

  lemma {:induction false} SlackStep(cfg: Config, times: seq<real>, j: nat, k: nat)
    requires cfg.Valid() && j < k < |times|
    ensures Slack(cfg, times, j, k) == Slack(cfg, times, j, k - 1)
              + cfg.Refill(times[k] - times[k - 1]) - (if AllowedAt(cfg, times, k - 1) then 1.0 else 0.0)
  {
  }

  /** Requests served among calls j, ..., k - 1 on the expiring key. */
  function Served(cfg: Config, times: seq<real>, server: seq<real>, j: nat, k: nat): nat
    requires cfg.Valid() && j <= k <= |times| == |server|
  {
    if j == k then 0 else Served(cfg, times, server, j, k - 1) + if ServedAt(cfg, times, server, k - 1) then 1 else 0
  }

  lemma {:induction false} ServedIsAdmitted(cfg: Config, times: seq<real>, server: seq<real>, j: nat, k: nat)
    requires cfg.Valid() && j <= k <= |times| == |server| && DropsLate(cfg, times, server)
    ensures Served(cfg, times, server, j, k) == Admitted(cfg, times, j, k)
  {
    if j < k {
      ServedIsAdmitted(cfg, times, server, j, k - 1);
      ExpiryUnobservable(cfg, times, server, k - 1);
    }
  }

  /** What the window of calls j, ..., k - 1 leaves for call k: the capacity and what the window earned,
      less the requests served in it. */
  function Left(cfg: Config, times: seq<real>, server: seq<real>, j: nat, k: nat): real
    requires cfg.Valid() && j <= k < |times| == |server|
  {
    cfg.capacity + Earned(cfg, times, j, k) - Served(cfg, times, server, j, k) as real
  }

  lemma {:induction false} LeftIsSlack(cfg: Config, times: seq<real>, server: seq<real>, j: nat, k: nat)
    requires cfg.Valid() && j <= k < |times| == |server| && DropsLate(cfg, times, server)
    ensures Left(cfg, times, server, j, k) == Slack(cfg, times, j, k)
  {
    ServedIsAdmitted(cfg, times, server, j, k);
  }

  /** What a call finds under the key is the least of what the windows that end with it leave. */
  lemma {:induction false} FoundIsLeastLeft(cfg: Config, times: seq<real>, server: seq<real>, k: nat)
    returns (tight: nat)
    requires cfg.Valid() && k < |times| == |server| && DropsLate(cfg, times, server)
    ensures forall j :: 0 <= j <= k ==> FoundAt(cfg, times, server, k) <= Left(cfg, times, server, j, k)
    ensures tight <= k && FoundAt(cfg, times, server, k) == Left(cfg, times, server, tight, k)
  {
    tight := LevelIsLeastSlack(cfg, times, k);
    ExpiryUnobservable(cfg, times, server, k);
    forall j | 0 <= j <= k
      ensures FoundAt(cfg, times, server, k) <= Left(cfg, times, server, j, k)
    {
      LeftIsSlack(cfg, times, server, j, k);
    }
    LeftIsSlack(cfg, times, server, tight, k);
  }

  /** The limiter, on the key as Redis keeps it, against its declarative meaning: while
      drops are late, a request is served exactly when every window of calls that ends with it leaves a whole token. */
  lemma {:induction false} ServedIffEveryWindowFits(cfg: Config, times: seq<real>, server: seq<real>, k: nat)
    requires cfg.Valid() && k < |times| == |server| && DropsLate(cfg, times, server)
    ensures ServedAt(cfg, times, server, k) <==> forall j :: 0 <= j <= k ==> Left(cfg, times, server, j, k) >= 1.0
  {
    var tight := FoundIsLeastLeft(cfg, times, server, k);
    assert Left(cfg, times, server, tight, k) == FoundAt(cfg, times, server, k);
  }

  /** The tokens stored under the key stay between zero and the capacity, whatever the clocks do. */
  lemma {:induction false} TokensInRange(cfg: Config, times: seq<real>, server: seq<real>, k: nat)
    requires cfg.Valid() && k <= |times| == |server|
    ensures var entry := EntryAt(cfg, times, server, k);
            entry.Some? ==> 0.0 <= entry.value.bucket.tokens <= cfg.capacity
  {
    if k > 0 {
      TokensInRange(cfg, times, server, k - 1);
      RefillNonNegative(cfg, Live(EntryAt(cfg, times, server, k - 1), server[k - 1]), times[k - 1]);
    }
  }

  /** While drops are late, no stretch of calls is served more than the capacity plus what the stretch earned. */
  lemma {:induction false} StretchBound(cfg: Config, times: seq<real>, server: seq<real>, j: nat, k: nat)
    requires cfg.Valid() && j <= k < |times| == |server| && DropsLate(cfg, times, server)
    ensures Served(cfg, times, server, j, k + 1) as real <= cfg.capacity + Earned(cfg, times, j, k)
  {
    ServedIsAdmitted(cfg, times, server, j, k + 1);
    var _ := LevelIsLeastSlack(cfg, times, k);
    StateInRange(cfg, times, k + 1);
    assert LevelAt(cfg, times, k) <= Slack(cfg, times, j, k);
    assert StateAt(cfg, times, k + 1).value.tokens >= 0.0;
  }

  /** limit * (1 + elapsed / 60), the most the service's own bucket may let through. */
  function PerMinuteBound(limit: real, elapsed: real): real {
    limit * (1.0 + elapsed / 60.0)
  }

  lemma {:induction false} BoundGrows(limit: real, cfg: Config, elapsed: real, more: real)
    requires limit > 0.0 && cfg == PerMinute(limit) && more >= 0.0
    ensures PerMinuteBound(limit, elapsed + more) == PerMinuteBound(limit, elapsed) + cfg.Refill(more)
  {
  }

  /** Under a nondecreasing clock what a stretch earns depends only on its first and last instant. */
  lemma {:induction false} EarnedPerMinute(limit: real, cfg: Config, times: seq<real>, j: nat, k: nat, elapsed: real)
    requires limit > 0.0 && cfg == PerMinute(limit) && Nondecreasing(times)
    requires j <= k < |times| && elapsed == times[k] - times[j]
    ensures cfg.capacity + Earned(cfg, times, j, k) == PerMinuteBound(limit, elapsed)
  {
    if j < k {
      var before, more := times[k - 1] - times[j], times[k] - times[k - 1];
      EarnedPerMinute(limit, cfg, times, j, k - 1, before);
      BoundGrows(limit, cfg, before, more);
      assert elapsed == before + more;
    }
  }

  /** The service's own bound: from call j to call k, both included, at most
      limit * (1 + (t_k - t_j) / 60) requests pass on a key that Redis expires. */
  lemma {:induction false} AtMostLimitPerMinute(limit: real, cfg: Config, times: seq<real>, server: seq<real>,
          j: nat, k: nat)
    requires limit > 0.0 && cfg == PerMinute(limit) && Nondecreasing(times)
    requires j <= k < |times| == |server| && DropsLate(cfg, times, server)
    ensures Served(cfg, times, server, j, k + 1) as real <= PerMinuteBound(limit, times[k] - times[j])
  {
    StretchBound(cfg, times, server, j, k);
    EarnedPerMinute(limit, cfg, times, j, k, times[k] - times[j]);
  }

  // ---------------------------------------------------------------- denied requests

  function Without(times: seq<real>, d: nat): (r: seq<real>)
    requires d < |times|
    ensures |r| == |times| - 1
  {
    times[..d] + times[d + 1..]
  }

  lemma {:induction false} SamePrefix(cfg: Config, a: seq<real>, b: seq<real>, k: nat)
    requires k <= |a| && k <= |b| && a[..k] == b[..k]
    ensures StateAt(cfg, a, k) == StateAt(cfg, b, k)
  {
    if k > 0 {
      assert a[k - 1] == a[..k][k - 1] == b[k - 1];
      assert a[..k - 1] == a[..k][..k - 1] == b[..k - 1];
      SamePrefix(cfg, a, b, k - 1);
    }
  }

  /** A denied call only moves tokens it would find later anyway. */
  lemma {:induction false} DeniedIsLazy(cfg: Config, data: Option<Bucket>, denied: real, now: real)
    requires cfg.Valid() && denied <= now
    requires data.Some? ==> data.value.ts <= denied && data.value.tokens >= 0.0
    requires cfg.Level(data, denied) < 1.0
    ensures cfg.Level(Some(cfg.After(data, denied, 1.0)), now) == cfg.Level(data, now)
  {
    if data.Some? {
      var b := data.value;
      Distribute(cfg.rate, denied - b.ts, now - denied);
      ScaleUp(cfg.rate, 0.0, denied - b.ts);
      ScaleUp(cfg.rate, 0.0, now - denied);
    }
  }

  lemma {:induction false} DeniedLeavesState(cfg: Config, times: seq<real>, d: nat, k: nat)
    requires cfg.Valid() && d < k < |times| && !AllowedAt(cfg, times, d)
    requires (d > 0 ==> times[d - 1] <= times[d]) && times[d] <= times[d + 1]
    ensures AllowedAt(cfg, Without(times, d), k - 1) == AllowedAt(cfg, times, k)
    ensures StateAt(cfg, Without(times, d), k) == StateAt(cfg, times, k + 1)
  {
    var rest := Without(times, d);
    assert rest[k - 1] == times[k];
    if k == d + 1 {
      assert times[..d] == rest[..d];
      SamePrefix(cfg, times, rest, d);
      StateInRange(cfg, times, d);
      assert StateAt(cfg, times, d).Some? ==> StateAt(cfg, times, d).value.ts == times[d - 1];
      DeniedIsLazy(cfg, StateAt(cfg, times, d), times[d], times[k]);
      assert StateAt(cfg, times, k) == Some(cfg.After(StateAt(cfg, times, d), times[d], 1.0));
      assert StateAt(cfg, rest, k - 1) == StateAt(cfg, times, d);
    } else {
      DeniedLeavesState(cfg, times, d, k - 1);
    }
  }

  /** A denied request around which the callers' clock does not step back changes no later decision:
      leaving it out leaves every later answer on the key as it was, while drops are late. */
  lemma {:induction false} DeniedChangesNothing(cfg: Config, times: seq<real>, server: seq<real>, d: nat, k: nat)
    requires cfg.Valid() && d < k < |times| == |server| && !ServedAt(cfg, times, server, d)
    requires DropsLate(cfg, times, server) && DropsLate(cfg, Without(times, d), Without(server, d))
    requires (d > 0 ==> times[d - 1] <= times[d]) && times[d] <= times[d + 1]
    ensures ServedAt(cfg, Without(times, d), Without(server, d), k - 1) == ServedAt(cfg, times, server, k)
  {
    ExpiryUnobservable(cfg, times, server, d);
    ExpiryUnobservable(cfg, times, server, k);
    ExpiryUnobservable(cfg, Without(times, d), Without(server, d), k - 1);
    DeniedLeavesState(cfg, times, d, k);
  }

  // ---------------------------------------------------------------- the Retry-After header

  /** The header always says one second. That is honest for every denied bucket exactly when
      the limit is at least sixty a minute. */
  lemma {:induction false} RetryAfterHonest(limit: real)
    requires limit > 0.0
    ensures limit >= 60.0 <==>
            forall b: Bucket :: 0.0 <= b.tokens < 1.0 ==>
              PerMinute(limit).Level(Some(b), b.ts + 1.0) >= 1.0
  {
    var cfg := PerMinute(limit);
    assert cfg.Refill(1.0) == limit / 60.0;
    if limit < 60.0 {
      assert cfg.Level(Some(Bucket(0.0, 0.0)), 0.0 + 1.0) < 1.0;
    } else {
      forall b: Bucket | 0.0 <= b.tokens < 1.0
        ensures cfg.Level(Some(b), b.ts + 1.0) >= 1.0
      {
        assert b.ts + 1.0 - b.ts == 1.0;
      }
    }
  }
}
