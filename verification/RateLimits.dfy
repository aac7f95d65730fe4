/**
  Token buckets over real numbers with a clock that never goes back. A table of
  buckets and miss streaks is bounded: entries that were not used for a while,
  and any entries when the table is full, are evicted before each request.
*/
module RateLimits {

  datatype Rate = Rate(count: int, window: real) {
    predicate Proper() {
      count >= 1 && window > 0.0
    }
  }

  datatype Key = Key(category: string, identity: string)

  datatype Bucket = Bucket(tokens: real, seen: real)

  datatype Miss = Miss(consecutive: nat, seen: real)

  datatype Table = Table(buckets: map<Key, Bucket>, misses: map<string, Miss>) {
    function Size(): nat {
      |buckets| + |misses|
    }
  }

  datatype Config = Config(rates: map<string, Rate>, maxEntries: nat, staleAfter: real) {
    predicate Proper() {
      maxEntries >= 1 && staleAfter > 0.0 && forall c :: c in rates ==> rates[c].Proper()
    }
  }

  const MISS_THRESHOLD := 5

  function Min(a: real, b: real): real {
    if a < b then a else b
  }

  /** Tokens per unit of time. */
  function Speed(rate: Rate): real
    requires rate.Proper()
  {
    rate.count as real / rate.window
  }

  /** The tokens that some time brings. */
  function Gain(elapsed: real, rate: Rate): real
    requires rate.Proper()
  {
    elapsed * Speed(rate)
  }

  function Refilled(b: Bucket, rate: Rate, now: real): real
    requires rate.Proper()
  {
    Min(rate.count as real, b.tokens + Gain(now - b.seen, rate))
  }

  /** What a request at `now` finds in its bucket; a bucket that does not exist is full. */
  function Available(buckets: map<Key, Bucket>, key: Key, rate: Rate, now: real): real
    requires rate.Proper()
  {
    if key in buckets then Refilled(buckets[key], rate, now) else rate.count as real
  }

  function Charge(cost: int): int {
    if cost < 1 then 1 else cost
  }

  // ----- Eviction -----

  ghost function FreshBuckets(t: Table, now: real, staleAfter: real): map<Key, Bucket> {
    map k | k in t.buckets && now - t.buckets[k].seen < staleAfter :: t.buckets[k]
  }

  ghost function FreshMisses(t: Table, now: real, staleAfter: real): map<string, Miss> {
    map k | k in t.misses && now - t.misses[k].seen < staleAfter :: t.misses[k]
  }

  ghost function Fresh(t: Table, now: real, staleAfter: real): Table {
    Table(FreshBuckets(t, now, staleAfter), FreshMisses(t, now, staleAfter))
  }

  /** `a` is a part of `b`. */
  ghost predicate Within(a: Table, b: Table) {
    && (forall k :: k in a.buckets ==> k in b.buckets && a.buckets[k] == b.buckets[k])
    && (forall k :: k in a.misses ==> k in b.misses && a.misses[k] == b.misses[k])
  }

  /** Stale entries go; a table that is still full loses arbitrary entries, buckets first, until one more fits. */
  ghost predicate Evicted(t: Table, now: real, after: Table, c: Config) {
    var recent := Fresh(t, now, c.staleAfter);
    && Within(after, recent)
    && after.Size() < c.maxEntries
    && (recent.Size() < c.maxEntries ==> after == recent)
    && (recent.Size() >= c.maxEntries ==> after.Size() == c.maxEntries - 1)
    && (after.buckets != map[] ==> after.misses == recent.misses)
  }

  // ----- Requests -----

  datatype Call =
    | Ask(key: Key, cost: int, now: real)
    | RecordMiss(identity: string, now: real)
    | RecordSuccess(identity: string, now: real)

  /** What a request answers and leaves once the table has been evicted. */
  ghost function Asked(t: Table, key: Key, cost: int, now: real, c: Config): (Table, bool)
    requires c.Proper()
  {
    if key.category !in c.rates then (t, true)
    else
      var rate := c.rates[key.category];
      var tokens := Available(t.buckets, key, rate, now);
      var allowed := tokens >= Charge(cost) as real;
      (t.(buckets := t.buckets[key := Bucket(if allowed then tokens - Charge(cost) as real else tokens, now)]), allowed)
  }

  ghost function Streak(t: Table, identity: string): nat {
    if identity in t.misses then t.misses[identity].consecutive else 0
  }

  /** One call; `answer` is the admission of an `Ask`, or whether a miss is charged double. */
  ghost predicate CallStep(t: Table, call: Call, evicted: Table, after: Table, answer: bool, c: Config)
    requires c.Proper()
  {
    match call
    case Ask(key, cost, now) => Evicted(t, now, evicted, c) && (after, answer) == Asked(evicted, key, cost, now, c)
    case RecordMiss(identity, now) =>
      && Evicted(t, now, evicted, c)
      && after == evicted.(misses := evicted.misses[identity := Miss(Streak(evicted, identity) + 1, now)])
      && answer == (Streak(evicted, identity) + 1 >= MISS_THRESHOLD)
    case RecordSuccess(identity, _) =>
      evicted == t && after == t.(misses := t.misses - {identity}) && !answer
  }

  class Registry {
    const config: Config
    var buckets: map<Key, Bucket>
    var misses: map<string, Miss>

    ghost function Current(): Table
      reads this
    {
      Table(buckets, misses)
    }

    constructor (config: Config)
      ensures this.config == config && Current() == Table(map[], map[])
    {
      this.config := config;
      buckets, misses := map[], map[];
    }

    method EvictStaleBuckets(now: real)
      modifies this`buckets
      ensures buckets == FreshBuckets(old(Current()), now, config.staleAfter)
    {
      ghost var before := buckets;
      var keys := buckets.Keys;
      while keys != {}
        invariant keys <= buckets.Keys
        invariant forall k :: k in buckets ==> k in before && buckets[k] == before[k]
        invariant forall k :: k in before ==> (k in buckets <==> k in keys || now - before[k].seen < config.staleAfter)
        decreases |keys|
      {
        var k :| k in keys;
        if now - buckets[k].seen >= config.staleAfter {
          buckets := buckets - {k};
        }
        keys := keys - {k};
      }
    }

    method EvictStaleMisses(now: real)
      modifies this`misses
      ensures misses == FreshMisses(old(Current()), now, config.staleAfter)
    {
      ghost var before := misses;
      var identities := misses.Keys;
      while identities != {}
        invariant identities <= misses.Keys
        invariant forall k :: k in misses ==> k in before && misses[k] == before[k]
        invariant forall k :: k in before ==>
          (k in misses <==> k in identities || now - before[k].seen < config.staleAfter)
        decreases |identities|
      {
        var k :| k in identities;
        if now - misses[k].seen >= config.staleAfter {
          misses := misses - {k};
        }
        identities := identities - {k};
      }
    }

    /** Drops buckets until one more entry fits or none is left. */
    method DropBuckets()
      requires |buckets| + |misses| >= config.maxEntries
      modifies this`buckets
      ensures Within(Current(), old(Current()))
      ensures (buckets == map[] && |misses| >= config.maxEntries) || |buckets| + |misses| == config.maxEntries - 1
    {
      while buckets != map[]
        invariant Within(Current(), old(Current())) && |buckets| + |misses| >= config.maxEntries
        decreases |buckets|
      {
        var k :| k in buckets;
        DropOne(buckets, k);
        buckets := buckets - {k};
        if |buckets| + |misses| < config.maxEntries {
          return;
        }
      }
    }

    method DropMisses()
      requires buckets == map[] && |misses| >= config.maxEntries >= 1
      modifies this`misses
      ensures Within(Current(), old(Current())) && |misses| == config.maxEntries - 1
    {
      while misses != map[]
        invariant Within(Current(), old(Current())) && |misses| >= config.maxEntries
        decreases |misses|
      {
        var k :| k in misses;
        DropOne(misses, k);
        misses := misses - {k};
        if |buckets| + |misses| < config.maxEntries {
          return;
        }
      }
    }

    method Evict(now: real)
      requires config.Proper()
      modifies this
      ensures Evicted(old(Current()), now, Current(), config)
    {
      hide FreshBuckets, FreshMisses;
      EvictStaleBuckets(now);
      FreshMissesAlone(old(Current()), Current(), now, config.staleAfter);
      EvictStaleMisses(now);
      ghost var recent := Current();
      assert recent == Fresh(old(Current()), now, config.staleAfter);
      if |buckets| + |misses| < config.maxEntries {
        return;
      }
      DropBuckets();
      if |buckets| + |misses| < config.maxEntries {
        return;
      }
      DropMisses();
    }

    method Allow(category: string, identity: string, cost: int, now: real)
        returns (allowed: bool, ghost evicted: Table)
      requires config.Proper()
      modifies this
      ensures CallStep(old(Current()), Ask(Key(category, identity), cost, now), evicted, Current(), allowed, config)
    {
      var charge := Charge(cost);
      Evict(now);
      evicted := Current();
      if category !in config.rates {
        return true, evicted;
      }
      var rate, key := config.rates[category], Key(category, identity);
      var state := Bucket(rate.count as real, now);
      if key in buckets {
        state := Bucket(Refilled(buckets[key], rate, now), now);
      }
      allowed := state.tokens >= charge as real;
      if allowed {
        state := state.(tokens := state.tokens - charge as real);
      }
      buckets := buckets[key := state];
    }

    /** The cost of the miss: two once the streak is long enough. */
    method CountMiss(identity: string, now: real) returns (cost: int, ghost evicted: Table)
      requires config.Proper()
      modifies this
      ensures CallStep(old(Current()), RecordMiss(identity, now), evicted, Current(), cost == 2, config)
      ensures cost == 1 || cost == 2
    {
      Evict(now);
      evicted := Current();
      var state := if identity in misses then misses[identity] else Miss(0, now);
      state := Miss(state.consecutive + 1, now);
      misses := misses[identity := state];
      cost := if state.consecutive >= MISS_THRESHOLD then 2 else 1;
    }

    method CountSuccess(identity: string, now: real)
      requires config.Proper()
      modifies this
      ensures CallStep(old(Current()), RecordSuccess(identity, now), old(Current()), Current(), false, config)
    {
      misses := misses - {identity};
    }
  }

  lemma FreshMissesAlone(t: Table, u: Table, now: real, staleAfter: real)
    requires t.misses == u.misses
    ensures FreshMisses(t, now, staleAfter) == FreshMisses(u, now, staleAfter)
  {
  }

  lemma DropOne<K, V>(m: map<K, V>, k: K)
    requires k in m
    ensures |m - {k}| == |m| - 1
  {
    assert (m - {k}).Keys == m.Keys - {k};
  }

  // ----- Runs -----

  /** Buckets hold between nothing and the rate's count, and were last used in the past. */
  ghost predicate Sane(t: Table, now: real, c: Config)
    requires c.Proper()
  {
    && t.Size() <= c.maxEntries
    && forall k :: k in t.buckets ==> BucketFits(t.buckets[k], k, now, c)
  }

  ghost predicate BucketFits(b: Bucket, k: Key, now: real, c: Config) {
    k.category in c.rates && 0.0 <= b.tokens <= c.rates[k.category].count as real && b.seen <= now
  }

  datatype Run = Run(tables: seq<Table>, evicted: seq<Table>, calls: seq<Call>, answers: seq<bool>)

  /** Calls in the order of a clock that never goes back, from an empty table. */
  ghost predicate IsRun(r: Run, c: Config)
    requires c.Proper()
  {
    && |r.tables| == |r.calls| + 1 && |r.evicted| == |r.answers| == |r.calls|
    && r.tables[0] == Table(map[], map[])
    && (forall i :: 0 <= i < |r.calls| ==>
              CallStep(r.tables[i], r.calls[i], r.evicted[i], r.tables[i + 1], r.answers[i], c))
    && (forall i :: 0 < i < |r.calls| ==> r.calls[i - 1].now <= r.calls[i].now)
  }

  lemma SpeedFacts(rate: Rate)
    requires rate.Proper()
    ensures Speed(rate) > 0.0 && rate.window * Speed(rate) == rate.count as real
  {
  }

  lemma Product(a: real, speed: real)
    requires speed > 0.0
    ensures a >= 0.0 ==> a * speed >= 0.0
    ensures a > 0.0 ==> a * speed > 0.0
  {
  }

  lemma GainSum(a: real, b: real, rate: Rate)
    requires rate.Proper()
    ensures Gain(a + b, rate) == Gain(a, rate) + Gain(b, rate)
  {
    hide Speed;
    var speed := Speed(rate);
    assert (a + b) * speed == a * speed + b * speed;
  }

  /** More time brings more tokens, no time none, and the window exactly the count. */
  lemma GainFacts(a: real, b: real, rate: Rate)
    requires rate.Proper()
    ensures a <= b ==> Gain(a, rate) <= Gain(b, rate)
    ensures a < b ==> Gain(a, rate) < Gain(b, rate)
    ensures Gain(0.0, rate) == 0.0 && Gain(rate.window, rate) == rate.count as real
  {
    hide Speed;
    SpeedFacts(rate);
    Product(b - a, Speed(rate));
    GainSum(a, b - a, rate);
  }

  lemma RefilledFits(b: Bucket, k: Key, now: real, later: real, c: Config)
    requires c.Proper() && BucketFits(b, k, now, c) && now <= later
    ensures 0.0 <= b.tokens <= Refilled(b, c.rates[k.category], later) <= c.rates[k.category].count as real
  {
    hide Gain;
    GainFacts(0.0, later - b.seen, c.rates[k.category]);
  }

  lemma Smaller<K, V>(a: map<K, V>, b: map<K, V>)
    requires a.Keys <= b.Keys
    ensures |a| <= |b|
  {
    assert b.Keys == a.Keys + (b.Keys - a.Keys);
  }

  lemma Inserted<K, V>(m: map<K, V>, k: K, v: V)
    ensures |m[k := v]| <= |m| + 1
  {
    assert m[k := v].Keys == m.Keys + {k};
  }

  lemma EvictedWithin(t: Table, call: Call, evicted: Table, after: Table, answer: bool, c: Config)
    requires c.Proper() && CallStep(t, call, evicted, after, answer, c)
    ensures forall k :: k in evicted.buckets ==> k in t.buckets && evicted.buckets[k] == t.buckets[k]
    ensures call.RecordSuccess? || evicted.Size() < c.maxEntries
  {
    hide Asked;
  }

  /** No call makes the table larger than its bound, nor a bucket fuller than its rate. */
  lemma CallKeeps(t: Table, call: Call, evicted: Table, after: Table, answer: bool, now: real, c: Config)
    requires c.Proper() && Sane(t, now, c) && now <= call.now && CallStep(t, call, evicted, after, answer, c)
    ensures Sane(after, call.now, c)
  {
    hide Evicted, Asked;
    EvictedWithin(t, call, evicted, after, answer, c);
    match call
    case Ask(key, cost, at) => AskKeeps(t, key, cost, at, evicted, now, c);
    case RecordMiss(identity, _) => Inserted(evicted.misses, identity, after.misses[identity]);
    case RecordSuccess(identity, _) => Smaller(after.misses, t.misses);
  }

  lemma AskKeeps(t: Table, key: Key, cost: int, at: real, evicted: Table, now: real, c: Config)
    requires c.Proper() && Sane(t, now, c) && now <= at && evicted.Size() < c.maxEntries
    requires forall k :: k in evicted.buckets ==> k in t.buckets && evicted.buckets[k] == t.buckets[k]
    ensures Sane(Asked(evicted, key, cost, at, c).0, at, c)
  {
    hide Gain, Refilled;
    var after := Asked(evicted, key, cost, at, c).0;
    if key.category in c.rates {
      if key in evicted.buckets {
        assert BucketFits(t.buckets[key], key, now, c);
        RefilledFits(evicted.buckets[key], key, now, at, c);
      }
      Inserted(evicted.buckets, key, after.buckets[key]);
      assert BucketFits(after.buckets[key], key, at, c);
    }
  }

  lemma EmptySane(now: real, c: Config)
    requires c.Proper()
    ensures Sane(Table(map[], map[]), now, c)
  {
  }

  ghost function TimeBefore(r: Run, k: nat): real
    requires k <= |r.calls|
  {
    if |r.calls| == 0 then 0.0 else if k == 0 then r.calls[0].now else r.calls[k - 1].now
  }

  /** The table never has more than `maxEntries` entries. */
  lemma {:induction false} RunKeeps(r: Run, c: Config, k: nat)
    requires c.Proper() && IsRun(r, c) && k <= |r.calls|
    ensures Sane(r.tables[k], TimeBefore(r, k), c)
    decreases k
  {
    hide CallStep, Sane;
    if k == 0 {
      EmptySane(TimeBefore(r, 0), c);
    } else {
      RunKeeps(r, c, k - 1);
      assert CallStep(r.tables[k - 1], r.calls[k - 1], r.evicted[k - 1], r.tables[k - 1 + 1], r.answers[k - 1], c);
      var before := TimeBefore(r, k - 1);
      CallKeeps(r.tables[k - 1], r.calls[k - 1], r.evicted[k - 1], r.tables[k], r.answers[k - 1], before, c);
    }
  }

  // ----- Miss streaks -----

  /** Misses of an identity since its last success, among the first `k` calls. */
  ghost function MissesSince(r: Run, identity: string, k: nat): nat
    requires k <= |r.calls|
  {
    if k == 0 then 0
    else
      match r.calls[k - 1]
      case RecordSuccess(other, _) => if other == identity then 0 else MissesSince(r, identity, k - 1)
      case RecordMiss(other, _) => MissesSince(r, identity, k - 1) + (if other == identity then 1 else 0)
      case Ask(_, _, _) => MissesSince(r, identity, k - 1)
  }

  /** The identity's streak was never evicted. */
  ghost predicate StreakKept(r: Run, identity: string)
    requires |r.evicted| <= |r.tables|
  {
    forall k :: 0 <= k < |r.evicted| && identity in r.tables[k].misses ==> identity in r.evicted[k].misses
  }

  /**
    While it is not evicted, an identity's streak counts its misses since its
    last success, and a miss is charged double exactly from the fifth on.
  */
  lemma {:induction false} StreakCounts(r: Run, c: Config, identity: string, k: nat)
    requires c.Proper() && IsRun(r, c) && StreakKept(r, identity) && k <= |r.calls|
    ensures Streak(r.tables[k], identity) == MissesSince(r, identity, k)
    ensures k < |r.calls| && r.calls[k].RecordMiss? && r.calls[k].identity == identity ==>
      (r.answers[k] <==> MissesSince(r, identity, k) + 1 >= MISS_THRESHOLD)
    decreases k
  {
    hide CallStep, StreakKept;
    if k > 0 {
      StreakCounts(r, c, identity, k - 1);
      StreakStep(r, c, identity, k - 1);
    }
    if k < |r.calls| {
      StreakStep(r, c, identity, k);
    }
  }

  /** What one call does to the streak of an identity, and which misses it charges double. */
  lemma StreakStep(r: Run, c: Config, identity: string, k: nat)
    requires c.Proper() && IsRun(r, c) && StreakKept(r, identity) && k < |r.calls|
    ensures Streak(r.tables[k + 1], identity) ==
      match r.calls[k]
      case RecordSuccess(other, _) => if other == identity then 0 else Streak(r.tables[k], identity)
      case RecordMiss(other, _) => Streak(r.tables[k], identity) + (if other == identity then 1 else 0)
      case Ask(_, _, _) => Streak(r.tables[k], identity)
    ensures r.calls[k].RecordMiss? && r.calls[k].identity == identity ==>
      (r.answers[k] <==> Streak(r.tables[k], identity) + 1 >= MISS_THRESHOLD)
  {
    hide Asked, FreshBuckets, FreshMisses;
    assert CallStep(r.tables[k], r.calls[k], r.evicted[k], r.tables[k + 1], r.answers[k], c);
    SameStreak(r, c, identity, k);
    AskKeepsMisses(r, c, k);
  }

  lemma SameStreak(r: Run, c: Config, identity: string, k: nat)
    requires c.Proper() && IsRun(r, c) && StreakKept(r, identity) && k < |r.calls|
    ensures Streak(r.evicted[k], identity) == Streak(r.tables[k], identity)
  {
    hide Asked;
    assert CallStep(r.tables[k], r.calls[k], r.evicted[k], r.tables[k + 1], r.answers[k], c);
  }

  lemma AskKeepsMisses(r: Run, c: Config, k: nat)
    requires c.Proper() && IsRun(r, c) && k < |r.calls|
    ensures r.calls[k].Ask? ==> r.tables[k + 1].misses == r.evicted[k].misses
  {
    assert CallStep(r.tables[k], r.calls[k], r.evicted[k], r.tables[k + 1], r.answers[k], c);
  }

  // ----- How much a key is admitted -----

  /** The cost admitted to a key by the calls from `i` up to `j`. */
  ghost function Admitted(r: Run, key: Key, i: nat, j: nat): int
    requires i <= j <= |r.calls| == |r.answers|
    decreases j
  {
    if i == j then 0
    else
      var call := r.calls[j - 1];
      Admitted(r, key, i, j - 1) + (if call.Ask? && call.key == key && r.answers[j - 1] then Charge(call.cost) else 0)
  }

  /** The full table never pushed this key out. */
  ghost predicate NotCrowdedOut(r: Run, key: Key, c: Config, i: nat, j: nat)
    requires i <= j <= |r.calls| && |r.calls| < |r.tables| && |r.evicted| == |r.calls|
  {
    forall k :: i <= k < j && !r.calls[k].RecordSuccess? ==>
      key in FreshBuckets(r.tables[k], r.calls[k].now, c.staleAfter) ==> key in r.evicted[k].buckets
  }

  /** Waiting adds at most the tokens of the time waited. */
  lemma AvailableGrows(buckets: map<Key, Bucket>, key: Key, rate: Rate, now: real, later: real)
    requires rate.Proper() && now <= later
    ensures Available(buckets, key, rate, later) <= Available(buckets, key, rate, now) + Gain(later - now, rate)
  {
    hide Gain;
    GainFacts(0.0, later - now, rate);
    if key in buckets {
      GainSum(now - buckets[key].seen, later - now, rate);
    }
  }

  /** A bucket that goes stale is full by then, if entries are kept for at least the rate's window. */
  lemma StaleIsFull(b: Bucket, rate: Rate, now: real, staleAfter: real)
    requires rate.Proper() && b.tokens >= 0.0 && now - b.seen >= staleAfter >= rate.window
    ensures Refilled(b, rate, now) == rate.count as real
  {
    hide Gain;
    GainFacts(rate.window, now - b.seen, rate);
  }

  lemma EvictionKeepsAvailable(r: Run, key: Key, c: Config, i: nat, j: nat, k: nat)
    requires c.Proper() && IsRun(r, c) && i <= k < j <= |r.calls| && NotCrowdedOut(r, key, c, i, j)
    requires key.category in c.rates && c.staleAfter >= c.rates[key.category].window && !r.calls[k].RecordSuccess?
    ensures Available(r.evicted[k].buckets, key, c.rates[key.category], r.calls[k].now)
         == Available(r.tables[k].buckets, key, c.rates[key.category], r.calls[k].now)
  {
    var t, e, now, rate := r.tables[k], r.evicted[k], r.calls[k].now, c.rates[key.category];
    assert CallStep(t, r.calls[k], e, r.tables[k + 1], r.answers[k], c);
    RunKeeps(r, c, k);
    if key in t.buckets && key !in e.buckets {
      assert key !in FreshBuckets(t, now, c.staleAfter);
      assert BucketFits(t.buckets[key], key, TimeBefore(r, k), c);
      StaleIsFull(t.buckets[key], rate, now, c.staleAfter);
    }
  }

  lemma AskSpends(t: Table, asked: Key, cost: int, now: real, key: Key, c: Config)
    requires c.Proper() && key.category in c.rates
    ensures
      var (after, allowed) := Asked(t, asked, cost, now, c);
      var rate := c.rates[key.category];
      (if asked == key && allowed then Charge(cost) as real else 0.0) + Available(after.buckets, key, rate, now) <=
        Available(t.buckets, key, rate, now)
  {
    var (after, allowed) := Asked(t, asked, cost, now, c);
    if asked == key {
      JustUsed(after.buckets[key].tokens, c.rates[key.category], now);
    }
  }

  lemma JustUsed(tokens: real, rate: Rate, now: real)
    requires rate.Proper()
    ensures Refilled(Bucket(tokens, now), rate, now) <= tokens
  {
    hide Gain;
    GainFacts(0.0, 0.0, rate);
  }

  /** One call lowers what is available by what it admits. */
  lemma CallSpends(r: Run, key: Key, c: Config, i: nat, j: nat, k: nat)
    requires c.Proper() && IsRun(r, c) && i <= k < j <= |r.calls| && NotCrowdedOut(r, key, c, i, j)
    requires key.category in c.rates && c.staleAfter >= c.rates[key.category].window
    ensures
      var rate, now := c.rates[key.category], r.calls[k].now;
      Admitted(r, key, k, k + 1) as real + Available(r.tables[k + 1].buckets, key, rate, now) <=
        Available(r.tables[k].buckets, key, rate, now)
  {
    hide Evicted, NotCrowdedOut, Available, Charge;
    var call, rate := r.calls[k], c.rates[key.category];
    assert CallStep(r.tables[k], call, r.evicted[k], r.tables[k + 1], r.answers[k], c);
    assert Admitted(r, key, k, k) == 0;
    if !call.RecordSuccess? {
      EvictionKeepsAvailable(r, key, c, i, j, k);
    }
    if call.Ask? {
      AskSpends(r.evicted[k], call.key, call.cost, call.now, key, c);
    }
  }

  lemma AvailableAtMost(buckets: map<Key, Bucket>, key: Key, rate: Rate, now: real)
    requires rate.Proper()
    ensures Available(buckets, key, rate, now) <= rate.count as real
  {
  }

  /** What was admitted and what is left never exceed a full bucket and the tokens of the time since. */
  lemma {:induction false} AdmittedAndLeft(r: Run, key: Key, c: Config, i: nat, j: nat)
    requires c.Proper() && IsRun(r, c) && i < j <= |r.calls| && NotCrowdedOut(r, key, c, i, j)
    requires key.category in c.rates && c.staleAfter >= c.rates[key.category].window
    ensures
      var rate := c.rates[key.category];
      Admitted(r, key, i, j) as real + Available(r.tables[j].buckets, key, rate, r.calls[j - 1].now)
      <= rate.count as real + Gain(r.calls[j - 1].now - r.calls[i].now, rate)
    decreases j
  {
    hide CallStep, Available, Gain, Charge;
    var rate, k := c.rates[key.category], j - 1;
    CallSpends(r, key, c, i, j, k);
    assert Admitted(r, key, k, k) == 0;
    if k == i {
      AvailableAtMost(r.tables[k].buckets, key, rate, r.calls[k].now);
      GainFacts(0.0, 0.0, rate);
    } else {
      AdmittedAndLeft(r, key, c, i, k);
      AvailableGrows(r.tables[k].buckets, key, rate, r.calls[k - 1].now, r.calls[k].now);
      GainSum(r.calls[k - 1].now - r.calls[i].now, r.calls[k].now - r.calls[k - 1].now, rate);
    }
  }

  /**
    In any stretch of any run, the cost admitted to a key is at most its rate's
    count plus the count's share of the time that passed, if entries are kept
    for at least the rate's window and the key is not crowded out.
  */
  lemma AdmissionBound(r: Run, key: Key, c: Config, i: nat, j: nat)
    requires c.Proper() && IsRun(r, c) && i < j <= |r.calls| && NotCrowdedOut(r, key, c, i, j)
    requires key.category in c.rates && c.staleAfter >= c.rates[key.category].window
    ensures
      var rate := c.rates[key.category];
      Admitted(r, key, i, j) as real <= rate.count as real + Gain(r.calls[j - 1].now - r.calls[i].now, rate)
  {
    AdmittedAndLeft(r, key, c, i, j);
    RunKeeps(r, c, j);
    if key in r.tables[j].buckets {
      RefilledFits(r.tables[j].buckets[key], key, TimeBefore(r, j), r.calls[j - 1].now, c);
    }
  }

  // ----- Exactly which requests are admitted -----

  /** What one request leaves of its bucket, exactly. */
  lemma AskLeaves(t: Table, asked: Key, cost: int, now: real, key: Key, c: Config)
    requires c.Proper() && key.category in c.rates
    ensures
      var (after, allowed) := Asked(t, asked, cost, now, c);
      var rate := c.rates[key.category];
      && Available(after.buckets, key, rate, now) ==
         Available(t.buckets, key, rate, now) - (if asked == key && allowed then Charge(cost) as real else 0.0)
      && (asked == key ==> (allowed <==> Available(t.buckets, key, rate, now) >= Charge(cost) as real))
  {
    var (after, allowed) := Asked(t, asked, cost, now, c);
    hide Gain;
    GainFacts(0.0, 0.0, c.rates[key.category]);
  }

  lemma CallLeaves(r: Run, key: Key, c: Config, k: nat)
    requires c.Proper() && IsRun(r, c) && k < |r.calls| && NotCrowdedOut(r, key, c, 0, k + 1)
    requires key.category in c.rates && c.staleAfter >= c.rates[key.category].window
    ensures
      var rate, now := c.rates[key.category], r.calls[k].now;
      var available := Available(r.tables[k].buckets, key, rate, now);
      && Available(r.tables[k + 1].buckets, key, rate, now) == available - Admitted(r, key, k, k + 1) as real
      && (r.calls[k].Ask? && r.calls[k].key == key ==>
            (r.answers[k] <==> available >= Charge(r.calls[k].cost) as real))
  {
    hide Evicted, NotCrowdedOut, Available, Charge, Asked;
    var call, rate := r.calls[k], c.rates[key.category];
    assert CallStep(r.tables[k], call, r.evicted[k], r.tables[k + 1], r.answers[k], c);
    assert Admitted(r, key, k, k) == 0;
    if !call.RecordSuccess? {
      EvictionKeepsAvailable(r, key, c, 0, k + 1, k);
    }
    if call.Ask? {
      AskLeaves(r.evicted[k], call.key, call.cost, call.now, key, c);
    } else {
      SameAvailable(r.evicted[k].buckets, r.tables[k + 1].buckets, key, rate, call.now);
    }
  }

  lemma SameAvailable(buckets: map<Key, Bucket>, others: map<Key, Bucket>, key: Key, rate: Rate, now: real)
    requires rate.Proper() && buckets == others
    ensures Available(buckets, key, rate, now) == Available(others, key, rate, now)
  {
  }

  /** Waiting fills a bucket by the time's tokens, and never beyond the count. */
  lemma Waited(buckets: map<Key, Bucket>, key: Key, rate: Rate, now: real, later: real)
    requires rate.Proper() && now <= later
    ensures Available(buckets, key, rate, later) ==
      Min(rate.count as real, Available(buckets, key, rate, now) + Gain(later - now, rate))
  {
    hide Gain;
    GainFacts(0.0, later - now, rate);
    if key in buckets {
      GainSum(now - buckets[key].seen, later - now, rate);
    }
  }

  /** What the calls from `i` on left of a full bucket and the tokens of the time since, at call `k`. */
  ghost function Left(r: Run, key: Key, rate: Rate, i: nat, k: nat): real
    requires rate.Proper() && i <= k < |r.calls| == |r.answers|
  {
    rate.count as real + Gain(r.calls[k].now - r.calls[i].now, rate) - Admitted(r, key, i, k) as real
  }

  ghost predicate LeastLeft(r: Run, key: Key, rate: Rate, k: nat, x: real)
    requires rate.Proper() && k < |r.calls| == |r.answers|
  {
    && (forall i :: 0 <= i <= k ==> x <= Left(r, key, rate, i, k))
    && exists i :: 0 <= i <= k && x == Left(r, key, rate, i, k)
  }

  lemma LeftNow(r: Run, key: Key, rate: Rate, k: nat)
    requires rate.Proper() && k < |r.calls| == |r.answers|
    ensures Left(r, key, rate, k, k) == rate.count as real
  {
    hide Gain;
    GainFacts(0.0, 0.0, rate);
  }

  lemma LeftNext(r: Run, key: Key, rate: Rate, i: nat, k: nat)
    requires rate.Proper() && i <= k && k + 1 < |r.calls| == |r.answers|
    ensures Left(r, key, rate, i, k + 1) ==
      Left(r, key, rate, i, k) + Gain(r.calls[k + 1].now - r.calls[k].now, rate) - Admitted(r, key, k, k + 1) as real
  {
    hide Gain;
    GainSum(r.calls[k].now - r.calls[i].now, r.calls[k + 1].now - r.calls[k].now, rate);
    assert Admitted(r, key, k, k) == 0;
  }

  lemma LeastNext(r: Run, key: Key, rate: Rate, k: nat, x: real, y: real)
    requires rate.Proper() && k + 1 < |r.calls| == |r.answers| && LeastLeft(r, key, rate, k, x)
    requires
      var gained := Gain(r.calls[k + 1].now - r.calls[k].now, rate);
      y == Min(rate.count as real, x - Admitted(r, key, k, k + 1) as real + gained)
    ensures LeastLeft(r, key, rate, k + 1, y)
  {
    hide Gain, Left, Admitted;
    var next := k + 1;
    LeftNow(r, key, rate, next);
    forall i | 0 <= i <= next
      ensures y <= Left(r, key, rate, i, next)
    {
      if i <= k {
        LeftNext(r, key, rate, i, k);
        assert x <= Left(r, key, rate, i, k);
      }
    }
    var i :| 0 <= i <= k && x == Left(r, key, rate, i, k);
    LeftNext(r, key, rate, i, k);
    assert y == Left(r, key, rate, if y == rate.count as real then k + 1 else i, k + 1);
  }

  /** What a request finds in its bucket is the least that any stretch of the run before it leaves. */
  lemma {:induction false} AvailableIsLeast(r: Run, key: Key, c: Config, k: nat)
    requires c.Proper() && IsRun(r, c) && k < |r.calls| && NotCrowdedOut(r, key, c, 0, k)
    requires key.category in c.rates && c.staleAfter >= c.rates[key.category].window
    ensures
      var rate := c.rates[key.category];
      LeastLeft(r, key, rate, k, Available(r.tables[k].buckets, key, rate, r.calls[k].now))
    decreases k
  {
    hide CallStep, Available, Gain, Charge, Left, Admitted;
    var rate := c.rates[key.category];
    if k == 0 {
      LeftNow(r, key, rate, 0);
      NothingUsed(key, rate, r.calls[0].now);
    } else {
      AvailableIsLeast(r, key, c, k - 1);
      CallLeaves(r, key, c, k - 1);
      Waited(r.tables[k].buckets, key, rate, r.calls[k - 1].now, r.calls[k].now);
      LeastNext(r, key, rate, k - 1, Available(r.tables[k - 1].buckets, key, rate, r.calls[k - 1].now),
        Available(r.tables[k].buckets, key, rate, r.calls[k].now));
    }
  }

  lemma NothingUsed(key: Key, rate: Rate, now: real)
    requires rate.Proper()
    ensures Available(map[], key, rate, now) == rate.count as real
  {
  }

  /** The stretch from `i` on, with another request at `k`, stays within the count and its share of the time. */
  ghost predicate Affords(r: Run, key: Key, rate: Rate, i: nat, k: nat, cost: int)
    requires rate.Proper() && i <= k < |r.calls| == |r.answers|
  {
    Admitted(r, key, i, k) as real + Charge(cost) as real <=
    rate.count as real + Gain(r.calls[k].now - r.calls[i].now, rate)
  }

  /**
    Along every run, if entries are kept for at least the rate's window and the
    key is not crowded out: a request is admitted if and only if with its cost no
    stretch of the run that ends with it exceeds the count and the count's share
    of the time the stretch took. Requests of other categories are always admitted.
  */
  lemma AdmittedExactly(r: Run, key: Key, c: Config, k: nat)
    requires c.Proper() && IsRun(r, c) && k < |r.calls| && NotCrowdedOut(r, key, c, 0, k + 1)
    requires r.calls[k].Ask? && r.calls[k].key == key
    ensures key.category !in c.rates ==> r.answers[k]
    ensures key.category in c.rates && c.staleAfter >= c.rates[key.category].window ==>
      (r.answers[k] <==> forall i :: 0 <= i <= k ==> Affords(r, key, c.rates[key.category], i, k, r.calls[k].cost))
  {
    hide Evicted, Available, Charge, Left, Affords;
    assert CallStep(r.tables[k], r.calls[k], r.evicted[k], r.tables[k + 1], r.answers[k], c);
    if key.category in c.rates && c.staleAfter >= c.rates[key.category].window {
      AvailableIsLeast(r, key, c, k);
      CallLeaves(r, key, c, k);
      var rate := c.rates[key.category];
      LeastAffords(r, key, rate, k, r.calls[k].cost, Available(r.tables[k].buckets, key, rate, r.calls[k].now));
    }
  }

  lemma LeastAffords(r: Run, key: Key, rate: Rate, k: nat, cost: int, x: real)
    requires rate.Proper() && k < |r.calls| == |r.answers| && LeastLeft(r, key, rate, k, x)
    ensures x >= Charge(cost) as real <==> forall i :: 0 <= i <= k ==> Affords(r, key, rate, i, k, cost)
  {
    hide Gain, Charge, Admitted;
    assert forall i :: 0 <= i <= k ==>
      (Affords(r, key, rate, i, k, cost) <==> Left(r, key, rate, i, k) >= Charge(cost) as real);
    hide Affords, Left;
    var i :| 0 <= i <= k && x == Left(r, key, rate, i, k);
    assert Affords(r, key, rate, i, k, cost) <==> x >= Charge(cost) as real;
  }

  // ----- When entries are kept for less than the window -----

  /** Two requests of a full bucket each, the second when the first has just gone stale. */
  ghost function Overspending(key: Key, rate: Rate, c: Config): Run {
    var empty := Table(map[], map[]);
    var drained := Table(map[key := Bucket(0.0, 0.0)], map[]);
    var drainedAgain := Table(map[key := Bucket(0.0, c.staleAfter)], map[]);
    var calls := [Ask(key, rate.count, 0.0), Ask(key, rate.count, c.staleAfter)];
    Run([empty, drained, drainedAgain], [empty, empty], calls, [true, true])
  }

  /** The bound fails for every rate whose window is longer than entries are kept, even without any crowding out. */
  lemma EarlyEvictionOverspends(key: Key, c: Config)
    requires c.Proper() && key.category in c.rates && c.staleAfter < c.rates[key.category].window
    ensures
      var rate := c.rates[key.category];
      var r := Overspending(key, rate, c);
      && IsRun(r, c) && NotCrowdedOut(r, key, c, 0, 2)
      && Admitted(r, key, 0, 2) as real > rate.count as real + Gain(r.calls[1].now - r.calls[0].now, rate)
  {
    hide Gain;
    var rate := c.rates[key.category];
    var r := Overspending(key, rate, c);
    var empty := Table(map[], map[]);
    assert Fresh(empty, 0.0, c.staleAfter) == empty;
    assert Fresh(r.tables[1], c.staleAfter, c.staleAfter) == empty;
    OverspendingStep(r, key, c, 0, 0.0);
    OverspendingStep(r, key, c, 1, c.staleAfter);
    OverspendingAdmits(r, key, rate);
    GainFacts(c.staleAfter, rate.window, rate);
  }

  lemma OverspendingStep(r: Run, key: Key, c: Config, i: nat, now: real)
    requires c.Proper() && key.category in c.rates && i < 2 && r == Overspending(key, c.rates[key.category], c)
    requires now == (if i == 0 then 0.0 else c.staleAfter)
    requires Fresh(r.tables[i], now, c.staleAfter) == Table(map[], map[])
    ensures CallStep(r.tables[i], r.calls[i], r.evicted[i], r.tables[i + 1], true, c)
  {
  }

  lemma OverspendingAdmits(r: Run, key: Key, rate: Rate)
    requires rate.Proper() && |r.calls| == |r.answers| == 2 && r.answers == [true, true]
    requires forall i :: 0 <= i < 2 ==> r.calls[i].Ask? && r.calls[i].key == key && r.calls[i].cost == rate.count
    ensures Admitted(r, key, 0, 2) == 2 * rate.count
  {
    assert Admitted(r, key, 0, 1) == Admitted(r, key, 0, 0) + rate.count;
  }

  // ----- Stale eviction is not observable -----

  /** The same calls answered by a table that never evicts. */
  ghost function Kept(calls: seq<Call>, c: Config): map<Key, Bucket>
    requires c.Proper()
  {
    if calls == [] then map[]
    else
      var before, last := Kept(calls[..|calls| - 1], c), calls[|calls| - 1];
      if last.Ask? then Asked(Table(before, map[]), last.key, last.cost, last.now, c).0.buckets else before
  }

  /** Every bucket is the same, or missing here and full there. */
  ghost predicate SameBut(buckets: map<Key, Bucket>, kept: map<Key, Bucket>, now: real, c: Config)
    requires c.Proper()
  {
    && (forall k :: k in buckets ==> k in kept && buckets[k] == kept[k])
    && (forall k :: k in kept && k !in buckets ==>
              k.category in c.rates && Refilled(kept[k], c.rates[k.category], now) == c.rates[k.category].count as real)
  }

  lemma FullStays(b: Bucket, rate: Rate, now: real, later: real)
    requires rate.Proper() && now <= later && Refilled(b, rate, now) == rate.count as real
    ensures Refilled(b, rate, later) == rate.count as real
  {
    hide Gain;
    GainFacts(now - b.seen, later - b.seen, rate);
  }

  /** Dropping stale buckets leaves the two tables the same but for full buckets. */
  lemma EvictionSame(t: Table, kept: map<Key, Bucket>, before: real, now: real, evicted: Table, c: Config)
    requires c.Proper() && before <= now && Sane(t, before, c) && SameBut(t.buckets, kept, before, c)
    requires Evicted(t, now, evicted, c) && evicted.buckets == FreshBuckets(t, now, c.staleAfter)
    requires forall k :: k in c.rates ==> c.staleAfter >= c.rates[k].window
    ensures SameBut(evicted.buckets, kept, now, c)
  {
    forall k | k in kept && k !in evicted.buckets
      ensures k.category in c.rates && Refilled(kept[k], c.rates[k.category], now) == c.rates[k.category].count as real
    {
      if k in t.buckets {
        assert BucketFits(t.buckets[k], k, before, c);
        StaleIsFull(t.buckets[k], c.rates[k.category], now, c.staleAfter);
      } else {
        FullStays(kept[k], c.rates[k.category], before, now);
      }
    }
  }

  lemma AskSame(t: Table, kept: map<Key, Bucket>, key: Key, cost: int, now: real, c: Config)
    requires c.Proper() && SameBut(t.buckets, kept, now, c)
    ensures
      var (after, allowed) := Asked(t, key, cost, now, c);
      var (keptAfter, keptAllowed) := Asked(Table(kept, map[]), key, cost, now, c);
      allowed == keptAllowed && SameBut(after.buckets, keptAfter.buckets, now, c)
  {
  }

  ghost predicate NothingCrowdedOut(r: Run, c: Config)
    requires |r.calls| < |r.tables| && |r.evicted| == |r.calls|
  {
    forall k :: 0 <= k < |r.calls| && !r.calls[k].RecordSuccess? ==>
      r.evicted[k].buckets == FreshBuckets(r.tables[k], r.calls[k].now, c.staleAfter)
  }

  /**
    If entries are kept for at least every rate's window and nothing is crowded
    out, every request is answered as by a table that never evicts anything.
  */
  lemma {:induction false} EvictionUnobservable(r: Run, c: Config, k: nat)
    requires c.Proper() && IsRun(r, c) && NothingCrowdedOut(r, c) && k <= |r.calls|
    requires forall x :: x in c.rates ==> c.staleAfter >= c.rates[x].window
    ensures SameBut(r.tables[k].buckets, Kept(r.calls[..k], c), TimeBefore(r, k), c)
    ensures k < |r.calls| && r.calls[k].Ask? ==>
      r.answers[k] == Asked(Table(Kept(r.calls[..k], c), map[]), r.calls[k].key, r.calls[k].cost, r.calls[k].now, c).1
    decreases k
  {
    hide CallStep, SameBut, Asked, NothingCrowdedOut;
    NothingSame(TimeBefore(r, k), c);
    if k > 0 {
      EvictionUnobservable(r, c, k - 1);
      CallSame(r, c, k - 1);
      assert r.calls[..k][..k - 1] == r.calls[..k - 1];
    }
    if k < |r.calls| {
      CallSame(r, c, k);
    }
  }

  lemma NothingSame(now: real, c: Config)
    requires c.Proper()
    ensures SameBut(map[], map[], now, c)
  {
  }

  lemma CallSame(r: Run, c: Config, k: nat)
    requires c.Proper() && IsRun(r, c) && NothingCrowdedOut(r, c) && k < |r.calls|
    requires forall x :: x in c.rates ==> c.staleAfter >= c.rates[x].window
    requires SameBut(r.tables[k].buckets, Kept(r.calls[..k], c), TimeBefore(r, k), c)
    ensures
      var call, kept := r.calls[k], Kept(r.calls[..k], c);
      && (call.Ask? ==>
            && r.answers[k] == Asked(Table(kept, map[]), call.key, call.cost, call.now, c).1
            && SameBut(r.tables[k + 1].buckets, Asked(Table(kept, map[]), call.key, call.cost, call.now, c).0.buckets,
              call.now, c))
      && (!call.Ask? ==> SameBut(r.tables[k + 1].buckets, kept, call.now, c))
  {
    var call, kept, t := r.calls[k], Kept(r.calls[..k], c), r.tables[k];
    hide Kept, Evicted, Asked, Sane;
    assert CallStep(t, call, r.evicted[k], r.tables[k + 1], r.answers[k], c);
    RunKeeps(r, c, k);
    if call.RecordSuccess? {
      LaterSame(t.buckets, kept, TimeBefore(r, k), call.now, c);
    } else {
      EvictionSame(t, kept, TimeBefore(r, k), call.now, r.evicted[k], c);
      if call.Ask? {
        AskSame(r.evicted[k], kept, call.key, call.cost, call.now, c);
      }
    }
  }

  lemma LaterSame(buckets: map<Key, Bucket>, kept: map<Key, Bucket>, now: real, later: real, c: Config)
    requires c.Proper() && now <= later && SameBut(buckets, kept, now, c)
    ensures SameBut(buckets, kept, later, c)
  {
    forall k | k in kept && k !in buckets
      ensures Refilled(kept[k], c.rates[k.category], later) == c.rates[k.category].count as real
    {
      FullStays(kept[k], c.rates[k.category], now, later);
    }
  }
}
