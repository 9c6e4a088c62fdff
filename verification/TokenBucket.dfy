/** The in-process token bucket and limiter of `ratelimit.py`. Tokens and seconds are reals. */
module TokenBucket {
  import opened Prelude

  datatype BucketSpec = BucketSpec(rate: real, burst: nat)

  function FromPerMinute(perMinute: nat, burst: nat): BucketSpec {
    BucketSpec(perMinute as real / 60.0, burst)
  }

  function SpecFor(scope: string): BucketSpec {
    if scope == "llm:call" then FromPerMinute(60, 10)
    else if scope == "imessage:send" then FromPerMinute(30, 5)
    else if scope == "vault:write" then FromPerMinute(120, 20)
    else FromPerMinute(300, 50)
  }

  /** Bucket contents and the clock reading of the last refill. */
  datatype Level = Level(tokens: real, last: Option<real>)

  /** Seconds to wait: none, some, or forever. */
  datatype Wait = Admit | After(seconds: real) | Never

  function Full(s: BucketSpec): Level {
    Level(s.burst as real, None)
  }

  function Min(x: real, y: real): real {
    if x <= y then x else y
  }

  /** Tokens gained over a span of seconds. */
  function Gain(rate: real, seconds: real): real {
    seconds * rate
  }

  function Refilled(s: BucketSpec, b: Level, now: real): Level {
    if b.last.None? then Level(b.tokens, Some(now))
    else if now - b.last.value > 0.0 then
      Level(Min(s.burst as real, b.tokens + Gain(s.rate, now - b.last.value)), Some(now))
    else b
  }

  function Take(s: BucketSpec, b: Level, now: real): (Level, Wait) {
    var r := Refilled(s, b, now);
    if r.tokens >= 1.0 then (r.(tokens := r.tokens - 1.0), Admit)
    else if s.rate <= 0.0 then (r, Never)
    else (r, After((1.0 - r.tokens) / s.rate))
  }

  /** One bucket, refilled and drained in place. */
  class Bucket {
    const spec: BucketSpec
    var tokens: real
    var lastRefill: Option<real>

    ghost function Contents(): Level
      reads this
    {
      Level(tokens, lastRefill)
    }

    constructor (spec: BucketSpec)
      ensures this.spec == spec && Contents() == Full(spec)
    {
      this.spec := spec;
      tokens := spec.burst as real;
      lastRefill := None;
    }

    method TakeOne(now: real) returns (wait: Wait)
      modifies this
      ensures (Contents(), wait) == Take(spec, old(Contents()), now)
    {
      if lastRefill.None? {
        lastRefill := Some(now);
      }
      var elapsed := now - lastRefill.value;
      if elapsed > 0.0 {
        tokens := Min(spec.burst as real, tokens + elapsed * spec.rate);
        lastRefill := Some(now);
      }
      assert Contents() == Refilled(spec, old(Contents()), now);
      if tokens >= 1.0 {
        tokens := tokens - 1.0;
        return Admit;
      }
      var deficit := 1.0 - tokens;
      if spec.rate <= 0.0 {
        return Never;
      }
      wait := After(deficit / spec.rate);
    }
  }

  // ---- one bucket over any sequence of clock readings

  /** The bucket before the `i`-th take at readings `ts`. */
  function LevelAt(s: BucketSpec, ts: seq<real>, i: nat): Level
    requires i <= |ts|
  {
    if i == 0 then Full(s) else Take(s, LevelAt(s, ts, i - 1), ts[i - 1]).0
  }

  function WaitAt(s: BucketSpec, ts: seq<real>, i: nat): Wait
    requires i < |ts|
  {
    Take(s, LevelAt(s, ts, i), ts[i]).1
  }

  /** The largest of the readings up to and including the `i`-th. */
  function RunMax(ts: seq<real>, i: nat): real
    requires i < |ts|
  {
    if i == 0 || ts[i] > RunMax(ts, i - 1) then ts[i] else RunMax(ts, i - 1)
  }

  /** How many of the first `n` takes were admitted while the running maximum was within `[t1, t2]`. */
  function AdmittedWithin(s: BucketSpec, ts: seq<real>, n: nat, t1: real, t2: real): nat
    requires n <= |ts|
  {
    if n == 0 then 0
    else AdmittedWithin(s, ts, n - 1, t1, t2)
         + (if WaitAt(s, ts, n - 1).Admit? && t1 <= RunMax(ts, n - 1) <= t2 then 1 else 0)
  }

  /** A sane bucket: between empty and full. */
  predicate Sane(s: BucketSpec, b: Level) {
    s.rate >= 0.0 && 0.0 <= b.tokens <= s.burst as real
  }

  /** One take: the bucket stays sane, the clock it remembers never steps back, and tokens left plus tokens granted
      grow by no more than the refill. */
  lemma TakeBudget(s: BucketSpec, b: Level, now: real)
    requires Sane(s, b)
    ensures var (b', w) := Take(s, b, now);
            var granted := if w.Admit? then 1.0 else 0.0;
            && Sane(s, b') && b'.last.Some?
            && b'.last.value == (if b.last.Some? && b.last.value >= now then b.last.value else now)
            && b'.tokens + granted <= s.burst as real
            && (b.last.Some? ==> b'.tokens + granted <= b.tokens + Gain(s.rate, b'.last.value - b.last.value))
            && (b.last.None? ==> b'.tokens + granted == b.tokens)
  {
    if b.last.Some? {
      var d := now - b.last.value;
      if d > 0.0 {
        GainNonNegative(s.rate, d);
      }
    }
  }

  lemma {:induction false} LastIsRunMax(s: BucketSpec, ts: seq<real>, i: nat)
    requires i < |ts| && s.rate >= 0.0
    ensures LevelAt(s, ts, i + 1).last == Some(RunMax(ts, i))
    ensures Sane(s, LevelAt(s, ts, i + 1))
  {
    if i > 0 {
      LastIsRunMax(s, ts, i - 1);
    }
    TakeBudget(s, LevelAt(s, ts, i), ts[i]);
  }

  lemma GainMono(rate: real, x: real, y: real)
    requires rate >= 0.0 && x <= y
    ensures Gain(rate, x) <= Gain(rate, y)
  {
  }

  lemma GainAdds(rate: real, x: real, y: real)
    ensures Gain(rate, x + y) == Gain(rate, x) + Gain(rate, y)
  {
  }

  lemma GainNonNegative(rate: real, d: real)
    requires rate >= 0.0 && d >= 0.0
    ensures Gain(rate, d) >= 0.0
  {
  }

  /** The window budget at one point of a run: `count` granted so far, `tokens` left, `m` the running maximum. */
  ghost predicate WithinBudget(s: BucketSpec, count: nat, tokens: real, m: real, t1: real, t2: real) {
    && (m < t1 ==> count == 0)
    && (t1 <= m <= t2 ==> count as real + tokens <= s.burst as real + Gain(s.rate, m - t1))
    && count as real <= s.burst as real + Gain(s.rate, t2 - t1)
  }

  lemma BudgetStep(s: BucketSpec, count: nat, b: Level, now: real, t1: real, t2: real)
    requires Sane(s, b) && b.last.Some? && t1 <= t2
    requires WithinBudget(s, count, b.tokens, b.last.value, t1, t2)
    ensures var (b', w) := Take(s, b, now);
            && b'.last.Some?
            && var m := b'.last.value;
               WithinBudget(s, if w.Admit? && t1 <= m <= t2 then count + 1 else count, b'.tokens, m, t1, t2)
  {
    TakeBudget(s, b, now);
    var m0, m := b.last.value, Take(s, b, now).0.last.value;
    if t1 <= m <= t2 {
      GainMono(s.rate, m - t1, t2 - t1);
      GainNonNegative(s.rate, m - t1);
      if t1 <= m0 {
        GainAdds(s.rate, m0 - t1, m - m0);
      }
    }
  }

  lemma {:induction false} WindowBudget(s: BucketSpec, ts: seq<real>, n: nat, t1: real, t2: real)
    requires s.rate >= 0.0 && 0 < n <= |ts| && t1 <= t2
    ensures WithinBudget(s, AdmittedWithin(s, ts, n, t1, t2), LevelAt(s, ts, n).tokens, RunMax(ts, n - 1), t1, t2)
  {
    LastIsRunMax(s, ts, n - 1);
    if n == 1 {
      TakeBudget(s, Full(s), ts[0]);
      GainNonNegative(s.rate, t2 - t1);
      if t1 <= ts[0] { GainNonNegative(s.rate, ts[0] - t1); }
      assert AdmittedWithin(s, ts, 0, t1, t2) == 0;
    } else {
      WindowBudget(s, ts, n - 1, t1, t2);
      LastIsRunMax(s, ts, n - 2);
      BudgetStep(s, AdmittedWithin(s, ts, n - 1, t1, t2), LevelAt(s, ts, n - 1), ts[n - 1], t1, t2);
    }
  }

  /** The rate limit is real: whatever the clock reads, at most `burst + rate * (t2 - t1)` takes are admitted while the
      running maximum of the readings is between `t1` and `t2`. */
  lemma WindowBound(s: BucketSpec, ts: seq<real>, t1: real, t2: real)
    requires s.rate >= 0.0 && t1 <= t2
    ensures AdmittedWithin(s, ts, |ts|, t1, t2) as real <= s.burst as real + Gain(s.rate, t2 - t1)
  {
    if ts == [] {
      GainNonNegative(s.rate, t2 - t1);
    } else {
      WindowBudget(s, ts, |ts|, t1, t2);
    }
  }

  ghost predicate Nondecreasing(ts: seq<real>) {
    forall i, j :: 0 <= i < j < |ts| ==> ts[i] <= ts[j]
  }

  /** On a clock that does not step back the running maximum is the reading itself. */
  lemma {:induction false} RunMaxOfNondecreasing(ts: seq<real>, i: nat)
    requires Nondecreasing(ts) && i < |ts|
    ensures RunMax(ts, i) == ts[i]
  {
    if i > 0 {
      RunMaxOfNondecreasing(ts, i - 1);
    }
  }

  // ---- the retry hint

  /** When the bucket next holds a whole token, if nothing is taken meanwhile. */
  function Deadline(s: BucketSpec, b: Level): real
    requires s.rate > 0.0 && b.last.Some?
  {
    b.last.value + (1.0 - b.tokens) / s.rate
  }

  /** A take from a bucket below one token is denied exactly before the deadline, and a denial leaves the deadline. */
  lemma DeniedBeforeDeadline(s: BucketSpec, b: Level, now: real)
    requires s.rate > 0.0 && s.burst >= 1 && b.last.Some? && 0.0 <= b.tokens < 1.0 && b.last.value <= now
    ensures Take(s, b, now).1.Admit? <==> now >= Deadline(s, b)
    ensures var b' := Take(s, b, now).0;
            now < Deadline(s, b) ==>
              b'.last.Some? && b'.last.value == now && 0.0 <= b'.tokens < 1.0 && Deadline(s, b') == Deadline(s, b)
  {
    var d := now - b.last.value;
    DivideThrough(s.rate, 1.0 - b.tokens, d);
    GainNonNegative(s.rate, d);
  }

  /** Comparing a span with `x / rate` is comparing the refill over that span with `x`. */
  lemma DivideThrough(rate: real, x: real, d: real)
    requires rate > 0.0
    ensures d < x / rate <==> Gain(rate, d) < x
    ensures (x - Gain(rate, d)) / rate == x / rate - d
  {
    assert Gain(rate, x / rate) == x;
    if d < x / rate {
      GainStrict(rate, d, x / rate);
    } else {
      GainMono(rate, x / rate, d);
    }
  }

  lemma GainStrict(rate: real, x: real, y: real)
    requires rate > 0.0 && x < y
    ensures Gain(rate, x) < Gain(rate, y)
  {
  }

  /** The hint is sound and tight: after a denial at `t` with wait `r`, every take before `t + r` is denied, and the
      first take at or after `t + r` is admitted, however many denials happened in between. */
  lemma {:induction false} RetryHintIsExact(s: BucketSpec, b: Level, t: real, r: real, later: seq<real>, k: nat)
    requires s.rate > 0.0 && s.burst >= 1
    requires 0.0 <= b.tokens <= s.burst as real && (b.last.Some? ==> b.last.value <= t)
    requires Take(s, b, t).1 == After(r)
    requires k < |later| && t <= later[0] && Nondecreasing(later)
    requires forall i :: 0 <= i < k ==> later[i] < t + r
    ensures Take(s, AfterTakes(s, Take(s, b, t).0, later[..k]), later[k]).1.Admit? <==> later[k] >= t + r
  {
    var b' := Take(s, b, t).0;
    assert b'.last == Some(t) && 0.0 <= b'.tokens < 1.0 by {
      if b.last.Some? && t - b.last.value > 0.0 {
        GainNonNegative(s.rate, t - b.last.value);
      }
    }
    assert Deadline(s, b') == t + r;
    StaysDenied(s, b', t, later, k);
    DeniedBeforeDeadline(s, AfterTakes(s, b', later[..k]), later[k]);
  }

  function AfterTakes(s: BucketSpec, b: Level, ts: seq<real>): Level {
    if ts == [] then b else Take(s, AfterTakes(s, b, ts[..|ts| - 1]), ts[|ts| - 1]).0
  }

  lemma {:induction false} StaysDenied(s: BucketSpec, b: Level, t: real, later: seq<real>, k: nat)
    requires s.rate > 0.0 && s.burst >= 1 && b.last == Some(t) && 0.0 <= b.tokens < 1.0
    requires k < |later| && t <= later[0] && Nondecreasing(later)
    requires forall i :: 0 <= i < k ==> later[i] < Deadline(s, b)
    ensures var c := AfterTakes(s, b, later[..k]);
            && c.last.Some? && c.last.value <= later[k] && 0.0 <= c.tokens < 1.0
            && Deadline(s, c) == Deadline(s, b)
  {
    if k > 0 {
      StaysDenied(s, b, t, later, k - 1);
      assert later[..k][..k - 1] == later[..k - 1];
      DeniedBeforeDeadline(s, AfterTakes(s, b, later[..k - 1]), later[k - 1]);
    }
  }

  // ---- the Retry-After header

  function CeilOf(x: real): int {
    if x.Floor as real == x then x.Floor else x.Floor + 1
  }

  /** `max(1, int(r) + (1 if r % 1 else 0))` for a finite wait. */
  function HeaderSeconds(r: real): int
    requires r >= 0.0
  {
    var whole := r.Floor + (if r - r.Floor as real != 0.0 then 1 else 0);
    if whole < 1 then 1 else whole
  }

  /** The header is the least positive whole number of seconds that covers the wait, and never more than it takes to
      refill one token. */
  lemma HeaderCoversWait(s: BucketSpec, b: Level, now: real)
    requires s.rate > 0.0 && b.tokens >= 0.0
    requires Take(s, b, now).1.After?
    ensures var r := Take(s, b, now).1.seconds;
            && 0.0 < r <= 1.0 / s.rate
            && HeaderSeconds(r) as real >= r && HeaderSeconds(r) as real - 1.0 < r
            && 1 <= HeaderSeconds(r) <= CeilOf(1.0 / s.rate)
  {
    if b.last.Some? && now - b.last.value > 0.0 {
      GainNonNegative(s.rate, now - b.last.value);
    }
    WaitOfDeficit(s.rate, 1.0 - Refilled(s, b, now).tokens);
    HeaderIsCeil(Take(s, b, now).1.seconds);
    CeilMono(Take(s, b, now).1.seconds, 1.0 / s.rate);
  }

  lemma WaitOfDeficit(rate: real, deficit: real)
    requires rate > 0.0 && 0.0 < deficit <= 1.0
    ensures 0.0 < deficit / rate <= 1.0 / rate
  {
    DivideThrough(rate, deficit, 0.0);
    DivideThrough(rate, deficit, 1.0 / rate);
    assert Gain(rate, 1.0 / rate) == 1.0;
  }

  lemma HeaderIsCeil(r: real)
    requires r > 0.0
    ensures HeaderSeconds(r) == CeilOf(r) >= 1
    ensures HeaderSeconds(r) as real >= r && HeaderSeconds(r) as real - 1.0 < r
  {
  }

  lemma CeilMono(x: real, y: real)
    requires x <= y
    ensures CeilOf(x) <= CeilOf(y)
  {
  }

  // ---- the limits, in numbers

  /** The burst of a scope. */
  function Burst(scope: string): nat {
    if scope == "llm:call" then 10 else if scope == "imessage:send" then 5 else if scope == "vault:write" then 20 else 50
  }

  /** The seconds in which a scope earns one call. */
  function Period(scope: string): real {
    if scope == "llm:call" then 1.0 else if scope == "imessage:send" then 2.0 else if scope == "vault:write" then 0.5
    else 0.2
  }

  lemma SpecInNumbers(scope: string)
    ensures var s := SpecFor(scope); s.burst == Burst(scope) && s.rate > 0.0 && Gain(s.rate, Period(scope)) == 1.0
    ensures 1.0 / SpecFor(scope).rate == Period(scope)
  {
    var s := SpecFor(scope);
    assert s.rate == 1.0 || s.rate == 0.5 || s.rate == 2.0 || s.rate == 5.0;
  }

  /** Calls all at one instant, on a fresh key. */
  function AtOnce(t: real, n: nat): seq<real> {
    seq(n, i => t)
  }

  lemma {:induction false} BurstLevel(scope: string, t: real, n: nat, i: nat)
    requires i <= n && 0 < i <= Burst(scope)
    ensures LevelAt(SpecFor(scope), AtOnce(t, n), i) == Level((Burst(scope) - i) as real, Some(t))
    decreases i
  {
    SpecInNumbers(scope);
    if i > 1 {
      BurstLevel(scope, t, n, i - 1);
    }
  }

  /** A fresh key admits exactly its burst at once (10, 5, 20 or 50 calls), and then asks to wait for exactly one period
      (1, 2, 0.5 or 0.2 seconds). */
  lemma FreshKeyAdmitsItsBurst(scope: string, t: real, n: nat, i: nat)
    requires i < n && i <= Burst(scope)
    ensures WaitAt(SpecFor(scope), AtOnce(t, n), i).Admit? <==> i < Burst(scope)
    ensures i == Burst(scope) ==> WaitAt(SpecFor(scope), AtOnce(t, n), i) == After(Period(scope))
  {
    SpecInNumbers(scope);
    if i > 0 {
      BurstLevel(scope, t, n, i);
    }
  }

  // ---- the limiter: one bucket per (actor, scope)

  datatype Key = Key(actor: string, scope: string)

  /** The in-memory limiter: a dict of buckets, filled on first use. */
  class RateLimiter {
    var buckets: map<Key, Bucket>

    ghost predicate Valid()
      reads this, buckets.Values
    {
      && (forall k :: k in buckets ==> buckets[k].spec == SpecFor(k.scope))
      && (forall j, k :: j in buckets && k in buckets && j != k ==> buckets[j] != buckets[k])
    }

    /** What a key's bucket holds; a key never checked stands for a full bucket. */
    ghost function LevelUnder(k: Key): Level
      reads this, buckets.Values
    {
      if k in buckets then buckets[k].Contents() else Full(SpecFor(k.scope))
    }

    constructor ()
      ensures Valid() && buckets == map[]
    {
      buckets := map[];
    }

    /** `_check_memory` at clock reading `now`. */
    method CheckMemory(actor: string, scope: string, now: real) returns (wait: Wait)
      requires Valid()
      modifies this, buckets.Values
      ensures Valid()
      ensures forall k :: k in old(buckets) ==> k in buckets && buckets[k] == old(buckets)[k]
      ensures var key := Key(actor, scope);
              && (LevelUnder(key), wait) == Take(SpecFor(scope), old(LevelUnder(key)), now)
              && forall k :: k != key ==> LevelUnder(k) == old(LevelUnder(k))
    {
      var key := Key(actor, scope);
      if key !in buckets {
        var b := new Bucket(SpecFor(scope));
        buckets := buckets[key := b];
      }
      wait := buckets[key].TakeOne(now);
    }
  }

  function LevelOf(levels: map<Key, Level>, k: Key): Level {
    if k in levels then levels[k] else Full(SpecFor(k.scope))
  }

  datatype Check = Check(key: Key, now: real)

  /** The limiter before the `i`-th of the interleaved checks. */
  function LevelsAt(checks: seq<Check>, i: nat): map<Key, Level>
    requires i <= |checks|
  {
    if i == 0 then map[]
    else
      var levels, c := LevelsAt(checks, i - 1), checks[i - 1];
      levels[c.key := Take(SpecFor(c.key.scope), LevelOf(levels, c.key), c.now).0]
  }

  /** The readings of the checks made under one key. */
  function Readings(checks: seq<Check>, k: Key): seq<real> {
    if checks == [] then []
    else
      var before := Readings(checks[..|checks| - 1], k);
      var last := checks[|checks| - 1];
      if last.key == k then before + [last.now] else before
  }

  lemma {:induction false} LevelAtOfPrefix(s: BucketSpec, ts: seq<real>, more: seq<real>, i: nat)
    requires i <= |ts|
    ensures LevelAt(s, ts + more, i) == LevelAt(s, ts, i)
  {
    if i > 0 {
      LevelAtOfPrefix(s, ts, more, i - 1);
    }
  }

  /** Keys do not interfere: under any interleaving the bucket of a key is the bucket that only that key's checks
      would have left, so the window bound holds for each key separately. */
  lemma {:induction false} KeysAreIndependent(checks: seq<Check>, k: Key)
    ensures LevelOf(LevelsAt(checks, |checks|), k)
            == LevelAt(SpecFor(k.scope), Readings(checks, k), |Readings(checks, k)|)
  {
    if checks != [] {
      var init, last := checks[..|checks| - 1], checks[|checks| - 1];
      KeysAreIndependent(init, k);
      LevelsAtOfPrefix(checks, |init|);
      if last.key == k {
        LevelAtOfPrefix(SpecFor(k.scope), Readings(init, k), [last.now], |Readings(init, k)|);
      }
    }
  }

  lemma {:induction false} LevelsAtOfPrefix(checks: seq<Check>, i: nat)
    requires i < |checks|
    ensures LevelsAt(checks[..|checks| - 1], i) == LevelsAt(checks, i)
  {
    if i > 0 {
      LevelsAtOfPrefix(checks, i - 1);
    }
  }

  /** How many of the interleaved checks of one key were admitted in `[t1, t2]`. */
  function AdmittedFor(checks: seq<Check>, k: Key, t1: real, t2: real): nat {
    if checks == [] then 0
    else
      var init, last := checks[..|checks| - 1], checks[|checks| - 1];
      AdmittedFor(init, k, t1, t2)
      + (if last.key == k && t1 <= last.now <= t2
            && Take(SpecFor(k.scope), LevelOf(LevelsAt(init, |init|), k), last.now).1.Admit?
         then 1 else 0)
  }

  ghost predicate ClockRuns(checks: seq<Check>) {
    forall i, j :: 0 <= i < j < |checks| ==> checks[i].now <= checks[j].now
  }

  lemma {:induction false} ReadingsComeFromChecks(checks: seq<Check>, k: Key)
    requires ClockRuns(checks)
    ensures Nondecreasing(Readings(checks, k))
    ensures forall i :: 0 <= i < |Readings(checks, k)| ==>
              checks != [] && Readings(checks, k)[i] <= checks[|checks| - 1].now
  {
    if checks != [] {
      ReadingsComeFromChecks(checks[..|checks| - 1], k);
    }
  }

  lemma {:induction false} AdmittedOfPrefix(s: BucketSpec, ts: seq<real>, more: seq<real>, n: nat, t1: real, t2: real)
    requires n <= |ts|
    ensures AdmittedWithin(s, ts + more, n, t1, t2) == AdmittedWithin(s, ts, n, t1, t2)
  {
    if n > 0 {
      AdmittedOfPrefix(s, ts, more, n - 1, t1, t2);
      LevelAtOfPrefix(s, ts, more, n - 1);
      RunMaxOfPrefix(ts, more, n - 1);
    }
  }

  lemma {:induction false} RunMaxOfPrefix(ts: seq<real>, more: seq<real>, i: nat)
    requires i < |ts|
    ensures RunMax(ts + more, i) == RunMax(ts, i)
  {
    if i > 0 {
      RunMaxOfPrefix(ts, more, i - 1);
    }
  }

  lemma {:induction false} AdmittedForIsAdmittedWithin(checks: seq<Check>, k: Key, t1: real, t2: real)
    requires ClockRuns(checks)
    ensures AdmittedFor(checks, k, t1, t2)
            == AdmittedWithin(SpecFor(k.scope), Readings(checks, k), |Readings(checks, k)|, t1, t2)
  {
    if checks != [] {
      var init, last := checks[..|checks| - 1], checks[|checks| - 1];
      AdmittedForIsAdmittedWithin(init, k, t1, t2);
      KeysAreIndependent(init, k);
      ReadingsComeFromChecks(checks, k);
      var ts := Readings(init, k);
      if last.key == k {
        RunMaxOfNondecreasing(Readings(checks, k), |ts|);
        AdmittedOfPrefix(SpecFor(k.scope), ts, [last.now], |ts|, t1, t2);
        LevelAtOfPrefix(SpecFor(k.scope), ts, [last.now], |ts|);
      }
    }
  }

  /** The limit the documentation states, for every actor and scope and under any interleaving with other keys: on a
      clock that does not step back, at most `burst + rate * (t2 - t1)` checks are admitted in `[t1, t2]`. */
  lemma LimitHoldsPerKey(checks: seq<Check>, k: Key, t1: real, t2: real)
    requires ClockRuns(checks) && t1 <= t2
    ensures AdmittedFor(checks, k, t1, t2) as real
            <= SpecFor(k.scope).burst as real + Gain(SpecFor(k.scope).rate, t2 - t1)
  {
    AdmittedForIsAdmittedWithin(checks, k, t1, t2);
    WindowBound(SpecFor(k.scope), Readings(checks, k), t1, t2);
  }

  /** The limits in numbers: in any minute a key admits at most 70 model calls, 35 messages, 140 vault writes, or 350
      calls of any other scope. */
  lemma LimitPerMinute(checks: seq<Check>, k: Key, t: real)
    requires ClockRuns(checks)
    ensures AdmittedFor(checks, k, t, t + 60.0)
            <= if k.scope == "llm:call" then 70 else if k.scope == "imessage:send" then 35
               else if k.scope == "vault:write" then 140 else 350
  {
    LimitHoldsPerKey(checks, k, t, t + 60.0);
    var s := SpecFor(k.scope);
    assert Gain(s.rate, 60.0) == 60.0 * s.rate;
  }
}
