/**
 The in-memory rate limiter: 64 shards of client entries, evicted by a request that
 finds its shard full and by a background sweep.  Eviction must not be observable.

 Assumed: the clock does not run backwards.  A sweep reads the clock once, before it
 locks any shard, so a shard may be swept with an older reading.
 */
module RateLimit {
  import opened Options

  type Key = seq<bv8>

  datatype Entry = Entry(count: nat, resetAt: int)

  type Shard = map<Key, Entry>

  datatype Verdict = Admitted | TooFrequent | TooManyClients

  datatype Config = Config(max: nat, window: nat, maxClients: int)

  const SHARDS: nat := 64

  // ------------------------------------------------------------------- sharding

  const U32: nat := 0x1_0000_0000

  /** The hash with its low byte replaced, multiplied by the FNV prime, in 32 bits. */
  function Mixed(hash: nat, low: nat): nat {
    ((hash - hash % 256 + low) * 16777619) % U32
  }

  function XorLow(hash: nat, b: bv8): nat {
    ((hash % 256) as bv8 ^ b) as nat
  }

  /** One round of 32-bit FNV-1a: xor the byte into the low bits, multiply, keep 32 bits. */
  function FnvRound(hash: nat, b: bv8): nat {
    Mixed(hash, XorLow(hash, b))
  }

  /** 32-bit FNV-1a. */
  function Fnv(key: Key): nat {
    if key == [] then 2166136261 else FnvRound(Fnv(key[..|key| - 1]), key[|key| - 1])
  }

  function ShardOf(key: Key): (i: nat)
    ensures i < SHARDS
  {
    Fnv(key) % SHARDS
  }

  /** The hash loop; masking with 63 is the remainder modulo 64. */
  method ShardIndex(key: Key) returns (i: nat)
    ensures i == ShardOf(key)
  {
    var hash := 2166136261;
    for k := 0 to |key|
      invariant hash == Fnv(key[..k])
    {
      assert key[..k + 1][..k] == key[..k];
      hash := FnvRound(hash, key[k]);
    }
    assert key[..|key|] == key;
    i := hash % SHARDS;
  }

  // ------------------------------------------------------------------ one shard

  function Evicted(m: Shard, now: int): Shard {
    map k | k in m && now <= m[k].resetAt :: m[k]
  }

  function Capacity(cfg: Config): int {
    cfg.maxClients / SHARDS + 1
  }

  predicate Full(m: Shard, cfg: Config) {
    cfg.maxClients > 0 && |m| >= Capacity(cfg)
  }

  function Serve(m: Shard, key: Key, now: int, cfg: Config): (Shard, Verdict) {
    if key in m && now <= m[key].resetAt then
      var e := Entry(m[key].count + 1, m[key].resetAt);
      (m[key := e], if e.count > cfg.max then TooFrequent else Admitted)
    else
      var m1 := if key !in m && Full(m, cfg) then Evicted(m, now) else m;
      if key !in m && Full(m, cfg) && Full(m1, cfg) then (m1, TooManyClients)
      else (m1[key := Entry(1, now + cfg.window)], if 1 > cfg.max then TooFrequent else Admitted)
  }

  class RateLimiter {
    const cfg: Config
    const shards: array<Shard>

    ghost predicate Valid()
      reads this
    {
      shards.Length == SHARDS
    }

    constructor (max: int, window: int)
      ensures Valid() && fresh(shards)
      ensures cfg == Config(if max <= 0 then 1 else max, if window <= 0 then 1_000_000_000 else window, 100_000)
      ensures forall i :: 0 <= i < SHARDS ==> shards[i] == map[]
    {
      cfg := Config(if max <= 0 then 1 else max, if window <= 0 then 1_000_000_000 else window, 100_000);
      shards := new Shard[SHARDS](_ => map[]);
    }

    /** The range-and-delete loop both evictions use. */
    method EvictExpired(i: nat, now: int)
      requires Valid() && i < SHARDS
      modifies shards
      ensures shards[..] == old(shards[..])[i := Evicted(old(shards[i]), now)]
      ensures forall k :: k in shards[i] <==> k in old(shards[i]) && now <= old(shards[i])[k].resetAt
      ensures forall k :: k in shards[i] ==> shards[i][k] == old(shards[i])[k]
    {
      var m := shards[i];
      assert shards[..] == old(shards[..])[i := m];
      var todo := m.Keys;
      while todo != {}
        invariant todo <= m.Keys
        invariant shards[..] == old(shards[..])[i := shards[i]]
        invariant shards[i] == map k | k in m && (k in todo || now <= m[k].resetAt) :: m[k]
      {
        var k :| k in todo;
        if now > m[k].resetAt {
          shards[i] := shards[i] - {k};
        }
        todo := todo - {k};
      }
      assert shards[i] == Evicted(m, now);
    }

    /** The middleware's decision for one request. */
    method Decide(ip: Key, now: int) returns (verdict: Verdict)
      requires Valid()
      modifies shards
      ensures shards[..] == old(shards[..])[ShardOf(ip) := Serve(old(shards[ShardOf(ip)]), ip, now, cfg).0]
      ensures verdict == Serve(old(shards[ShardOf(ip)]), ip, now, cfg).1
    {
      var i := ShardIndex(ip);
      ghost var m := shards[i];
      if ip !in shards[i] || now > shards[i][ip].resetAt {
        if ip !in shards[i] && cfg.maxClients > 0 && |shards[i]| >= cfg.maxClients / SHARDS + 1 {
          EvictExpired(i, now);
          assert shards[i] == shards[..][i] == Evicted(m, now);
          if |shards[i]| >= cfg.maxClients / SHARDS + 1 {
            return TooManyClients;
          }
        }
        shards[i] := shards[i][ip := Entry(0, now + cfg.window)];
      }
      shards[i] := shards[i][ip := shards[i][ip].(count := shards[i][ip].count + 1)];
      assert shards[i] == Serve(m, ip, now, cfg).0;
      verdict := if shards[i][ip].count > cfg.max then TooFrequent else Admitted;
    }

    method CleanupExpired(now: int)
      requires Valid()
      modifies shards
      ensures forall i :: 0 <= i < SHARDS ==> shards[i] == Evicted(old(shards[i]), now)
      ensures forall i, k :: 0 <= i < SHARDS ==>
                (k in shards[i] <==> k in old(shards[i]) && now <= old(shards[i])[k].resetAt)
                && (k in shards[i] ==> shards[i][k] == old(shards[i])[k])
    {
      for i := 0 to SHARDS
        invariant forall k :: 0 <= k < i ==> shards[k] == Evicted(old(shards[k]), now)
        invariant forall k :: i <= k < SHARDS ==> shards[k] == old(shards[k])
      {
        ghost var before := shards[..];
        EvictExpired(i, now);
        assert forall k :: 0 <= k < SHARDS ==> shards[k] == shards[..][k];
      }
    }
  }

  // ------------------------------------------------------------------ whole runs

  datatype Step = Request(ip: Key, now: int) | Sweep(shard: nat, now: int)

  /** All shards as a function of the shard index. */
  type Shards = map<nat, Shard>

  function ShardAt(shards: Shards, i: nat): Shard {
    if i in shards then shards[i] else map[]
  }

  function Next(shards: Shards, step: Step, cfg: Config): Shards {
    match step
    case Request(ip, now) => shards[ShardOf(ip) := Serve(ShardAt(shards, ShardOf(ip)), ip, now, cfg).0]
    case Sweep(i, now) => shards[i := Evicted(ShardAt(shards, i), now)]
  }

  function Exec(run: seq<Step>, cfg: Config): Shards {
    if run == [] then map[] else Next(Exec(run[..|run| - 1], cfg), run[|run| - 1], cfg)
  }

  /** The latest clock reading any step has used. */
  function Clock(run: seq<Step>): Option<int> {
    if run == [] then None
    else
      var c := Clock(run[..|run| - 1]);
      var t := run[|run| - 1].now;
      if c.Some? && c.value > t then c else Some(t)
  }

  /** Requests read the clock in order; a sweep may use a reading that is already old. */
  ghost predicate Monotone(run: seq<Step>) {
    run != [] ==>
      var c := Clock(run[..|run| - 1]);
      && Monotone(run[..|run| - 1])
      && (run[|run| - 1].Request? && c.Some? ==> c.value <= run[|run| - 1].now)
  }

  /** The verdict on the last step of a run that ends with a request. */
  function LastVerdict(run: seq<Step>, cfg: Config): Verdict
    requires run != [] && run[|run| - 1].Request?
  {
    var last := run[|run| - 1];
    Serve(ShardAt(Exec(run[..|run| - 1], cfg), ShardOf(last.ip)), last.ip, last.now, cfg).1
  }

  /** A plain fixed-window counter for one client. */
  function Count(window: Option<Entry>, now: int, cfg: Config): Entry {
    if window.None? || now > window.value.resetAt then Entry(1, now + cfg.window)
    else Entry(window.value.count + 1, window.value.resetAt)
  }

  /** That counter fed with a client's own requests, except those rejected for capacity. */
  function Own(run: seq<Step>, ip: Key, cfg: Config): Option<Entry> {
    if run == [] then None
    else
      var before := Own(run[..|run| - 1], ip, cfg);
      var last := run[|run| - 1];
      if last.Request? && last.ip == ip && LastVerdict(run, cfg) != TooManyClients
      then Some(Count(before, last.now, cfg)) else before
  }

  /** A missing entry stands for a window that is over. */
  ghost predicate Agrees(run: seq<Step>, ip: Key, cfg: Config) {
    var m := ShardAt(Exec(run, cfg), ShardOf(ip));
    var own := Own(run, ip, cfg);
    if ip in m then own == Some(m[ip])
    else own.None? || (Clock(run).Some? && own.value.resetAt < Clock(run).value)
  }

  lemma {:induction false} AlwaysAgrees(run: seq<Step>, ip: Key, cfg: Config)
    requires Monotone(run)
    ensures Agrees(run, ip, cfg)
  {
    if run != [] {
      AlwaysAgrees(run[..|run| - 1], ip, cfg);
    }
  }

  /**
   Eviction is invisible: whatever the other clients do and whenever entries are
   evicted, a request not rejected for capacity gets the verdict of a plain
   fixed-window counter fed with that client's own requests only.
   */
  lemma EvictionInvisible(run: seq<Step>, ip: Key, now: int, cfg: Config)
    requires Monotone(run + [Request(ip, now)])
    requires LastVerdict(run + [Request(ip, now)], cfg) != TooManyClients
    ensures LastVerdict(run + [Request(ip, now)], cfg) == Admitted
       <==> Count(Own(run, ip, cfg), now, cfg).count <= cfg.max
  {
    assert (run + [Request(ip, now)])[..|run|] == run;
    AlwaysAgrees(run, ip, cfg);
  }

  /** Requests of `ip` admitted in the closed interval of length `window` that starts at `from`. */
  function AdmittedIn(run: seq<Step>, ip: Key, from: int, cfg: Config): nat {
    if run == [] then 0
    else
      var before := AdmittedIn(run[..|run| - 1], ip, from, cfg);
      var last := run[|run| - 1];
      if last.Request? && last.ip == ip && LastVerdict(run, cfg) == Admitted && from <= last.now <= from + cfg.window
      then before + 1 else before
  }

  /** The i-th step is such a request, and was admitted. */
  predicate IsAdmitted(run: seq<Step>, i: nat, ip: Key, from: int, cfg: Config)
    requires i < |run|
  {
    run[i].Request? && run[i].ip == ip && from <= run[i].now <= from + cfg.window
    && (assert run[..i + 1][i] == run[i]; LastVerdict(run[..i + 1], cfg) == Admitted)
  }

  ghost function AdmittedAt(run: seq<Step>, ip: Key, from: int, cfg: Config): set<nat> {
    set i: nat | i < |run| && IsAdmitted(run, i, ip, from, cfg)
  }

  lemma AdmittedBefore(run: seq<Step>, n: nat, i: nat, ip: Key, from: int, cfg: Config)
    requires i < n <= |run|
    ensures IsAdmitted(run[..n], i, ip, from, cfg) <==> IsAdmitted(run, i, ip, from, cfg)
  {
    assert run[..n][..i + 1] == run[..i + 1];
  }

  lemma LastIsAdmitted(run: seq<Step>, ip: Key, from: int, cfg: Config)
    requires run != []
    ensures AdmittedIn(run, ip, from, cfg)
         == AdmittedIn(run[..|run| - 1], ip, from, cfg) + (if IsAdmitted(run, |run| - 1, ip, from, cfg) then 1 else 0)
  {
    assert run[..|run|] == run;
  }

  lemma AdmittedAtNext(run: seq<Step>, ip: Key, from: int, cfg: Config)
    requires run != []
    ensures var n: nat := |run| - 1;
            var before := AdmittedAt(run[..n], ip, from, cfg);
            && n !in before
            && AdmittedAt(run, ip, from, cfg) == if IsAdmitted(run, n, ip, from, cfg) then before + {n} else before
  {
    var n: nat := |run| - 1;
    forall i: nat | i < n ensures IsAdmitted(run[..n], i, ip, from, cfg) <==> IsAdmitted(run, i, ip, from, cfg) {
      AdmittedBefore(run, n, i, ip, from, cfg);
    }
  }

  /** AdmittedIn is the number of such steps. */
  lemma {:induction false} AdmittedInCounts(run: seq<Step>, ip: Key, from: int, cfg: Config)
    ensures AdmittedIn(run, ip, from, cfg) == |AdmittedAt(run, ip, from, cfg)|
  {
    if run != [] {
      AdmittedInCounts(run[..|run| - 1], ip, from, cfg);
      LastIsAdmitted(run, ip, from, cfg);
      AdmittedAtNext(run, ip, from, cfg);
    }
  }

  /** How many requests the interval can hold, by where the client's current window started. */
  predicate HoldsAtMost(n: nat, own: Entry, from: int, cfg: Config) {
    var start := own.resetAt - cfg.window;
    var used := if own.count < cfg.max then own.count else cfg.max;
    var carried := if cfg.max > 0 then cfg.max - 1 else 0;
    if start < from then n <= (if used > 0 then used - 1 else 0)
    else if start <= from + cfg.window then n <= carried + used
    else n <= carried + cfg.max
  }

  ghost predicate Bounded(run: seq<Step>, ip: Key, from: int, cfg: Config) {
    var n, own := AdmittedIn(run, ip, from, cfg), Own(run, ip, cfg);
    && (n > 0 ==> Clock(run).Some? && Clock(run).value >= from)
    && (own.None? ==> n == 0)
    && (own.Some? ==> Clock(run).Some? && own.value.resetAt - cfg.window <= Clock(run).value)
    && (own.Some? ==> own.value.count > 0)
    && (own.Some? ==> HoldsAtMost(n, own.value, from, cfg))
  }

  lemma {:induction false} AlwaysBounded(run: seq<Step>, ip: Key, from: int, cfg: Config)
    requires Monotone(run)
    ensures Bounded(run, ip, from, cfg)
  {
    if run != [] {
      var before := run[..|run| - 1];
      AlwaysBounded(before, ip, from, cfg);
      AlwaysAgrees(before, ip, cfg);
    }
  }

  /**
   Any interval of one window's length admits fewer than 2*max requests of a client: the
   request that opened the window reaching into it from before lies outside.
   */
  lemma AtMostTwiceMax(run: seq<Step>, ip: Key, from: int, cfg: Config)
    requires Monotone(run)
    ensures AdmittedIn(run, ip, from, cfg) <= 2 * cfg.max
    ensures cfg.max > 0 ==> AdmittedIn(run, ip, from, cfg) < 2 * cfg.max
  {
    AlwaysBounded(run, ip, from, cfg);
  }

  // -------------------------------------------------------------------- capacity

  lemma {:induction false} SubsetSize<T>(a: set<T>, b: set<T>)
    requires a <= b
    ensures |a| <= |b|
  {
    if a != {} {
      var x :| x in a;
      SubsetSize(a - {x}, b - {x});
    }
  }

  lemma EvictedSize(m: Shard, now: int)
    ensures |Evicted(m, now)| <= |m|
  {
    SubsetSize(Evicted(m, now).Keys, m.Keys);
    assert |Evicted(m, now)| == |Evicted(m, now).Keys| && |m| == |m.Keys|;
  }

  /** A new client is turned away exactly when unexpired entries alone fill its shard. */
  lemma TurnedAwayWhenFull(m: Shard, key: Key, now: int, cfg: Config)
    ensures Serve(m, key, now, cfg).1 == TooManyClients <==> key !in m && Full(Evicted(m, now), cfg)
  {
    EvictedSize(m, now);
  }

  /**
   A client is turned away if and only if it has no entry and the entries whose window is
   not over number at least maxClients/64 + 1; otherwise it gets an entry.
   */
  lemma RejectedExactly(m: Shard, key: Key, now: int, cfg: Config)
    ensures Serve(m, key, now, cfg).1 == TooManyClients <==>
              key !in m && cfg.maxClients > 0 && |set k | k in m && now <= m[k].resetAt| >= cfg.maxClients / 64 + 1
    ensures Serve(m, key, now, cfg).1 != TooManyClients ==> key in Serve(m, key, now, cfg).0
  {
    TurnedAwayWhenFull(m, key, now, cfg);
    assert Evicted(m, now).Keys == set k | k in m && now <= m[k].resetAt;
    assert |Evicted(m, now)| == |Evicted(m, now).Keys|;
  }

  lemma FnvNext(key: Key, b: bv8)
    ensures Fnv(key + [b]) == FnvRound(Fnv(key), b)
  {
    assert (key + [b])[..|key|] == key;
  }

  lemma XorOfA()
    ensures XorLow(0x811C_9DC5, 0x61) == 0xA4
  {
    assert ((0xC5 as bv8) ^ 0x61) == 0xA4;
  }

  lemma MixedOfA()
    ensures Mixed(0x811C_9DC5, 0xA4) == 0xE40C_292C
  {
  }

  /** The published test values of 32-bit FNV-1a for the empty string and "a". */
  lemma FnvVectors()
    ensures Fnv([]) == 0x811C_9DC5 && Fnv([0x61]) == 0xE40C_292C
  {
    FnvNext([], 0x61);
    XorOfA();
    MixedOfA();
    assert [] + [0x61 as bv8] == [0x61];
  }

  /** No shard ever holds more than maxClients/64 + 1 entries. */
  lemma {:induction false} ShardsBounded(run: seq<Step>, i: nat, cfg: Config)
    requires cfg.maxClients > 0
    ensures |ShardAt(Exec(run, cfg), i)| <= Capacity(cfg)
  {
    if run != [] {
      ShardsBounded(run[..|run| - 1], i, cfg);
      var m := ShardAt(Exec(run[..|run| - 1], cfg), i);
      EvictedSize(m, run[|run| - 1].now);
    }
  }
}
