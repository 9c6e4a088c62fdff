/** The Redis script `_LUA_TAKE` of `ratelimit.py`, and its agreement with the in-process bucket. */
module LuaBucket {
  import opened Prelude
  import opened TokenBucket

  /** The bucket hash. An absent key is `None`. */
  datatype Hash = Hash(tokens: real, lastRefillMs: int)

  /** The script's answer in milliseconds: 0 admits, -1 is never. */
  function LuaTake(s: BucketSpec, h: Option<Hash>, nowMs: int): (Hash, int) {
    var tokens0 := if h.None? then s.burst as real else h.value.tokens;
    var last := if h.None? then nowMs else h.value.lastRefillMs;
    var elapsed := (nowMs - last) as real / 1000.0;
    var tokens := if elapsed > 0.0 then Min(s.burst as real, tokens0 + Gain(s.rate, elapsed)) else tokens0;
    if tokens >= 1.0 then (Hash(tokens - 1.0, nowMs), 0)
    else if s.rate <= 0.0 then (Hash(tokens, nowMs), -1)
    else (Hash(tokens, nowMs), CeilOf((1.0 - tokens) / s.rate * 1000.0))
  }

  /** Seconds after its last use at which the script lets a key expire. */
  function Ttl(s: BucketSpec): int
    requires s.rate > 0.0
  {
    var ttl := CeilOf(s.burst as real / s.rate) + 60;
    if ttl < 1 then 1 else ttl
  }

  /** The time to live is the least whole number of seconds that refills the bucket and leaves a minute to spare. */
  lemma TtlInNumbers(s: BucketSpec)
    requires s.rate > 0.0
    ensures s.burst as real / s.rate + 60.0 <= Ttl(s) as real < s.burst as real / s.rate + 61.0
  {
    DivideThrough(s.rate, s.burst as real, 0.0);
  }

  /** The script run in place on the stored hash. */
  class StoredBucket {
    const spec: BucketSpec
    var stored: Option<Hash>

    constructor (spec: BucketSpec)
      ensures this.spec == spec && stored == None
    {
      this.spec := spec;
      stored := None;
    }

    method Eval(nowMs: int) returns (retryMs: int)
      modifies this
      ensures stored.Some? && (stored.value, retryMs) == LuaTake(spec, old(stored), nowMs)
    {
      var tokens := spec.burst as real;
      var last := nowMs;
      if stored.Some? {
        tokens := stored.value.tokens;
        last := stored.value.lastRefillMs;
      }
      var elapsed := (nowMs - last) as real / 1000.0;
      if elapsed > 0.0 {
        tokens := Min(spec.burst as real, tokens + Gain(spec.rate, elapsed));
      }
      retryMs := 0;
      if tokens >= 1.0 {
        tokens := tokens - 1.0;
      } else {
        var deficit := 1.0 - tokens;
        if spec.rate <= 0.0 {
          retryMs := -1;
        } else {
          retryMs := CeilOf(deficit / spec.rate * 1000.0);
        }
      }
      stored := Some(Hash(tokens, nowMs));
    }
  }

  function Seconds(ms: int): real {
    ms as real / 1000.0
  }

  /** The hash and the in-process bucket stand for the same contents. */
  ghost predicate Same(h: Option<Hash>, b: Level) {
    match h
    case None => b.last.None?
    case Some(hash) => b == Level(hash.tokens, Some(Seconds(hash.lastRefillMs)))
  }

  /** The script's answer for a wait in seconds: the same decision, rounded up to the next millisecond. */
  ghost predicate SameAnswer(retryMs: int, w: Wait) {
    match w
    case Admit => retryMs == 0
    case Never => retryMs == -1
    case After(r) => retryMs > 0 && retryMs == CeilOf(r * 1000.0)
  }

  /** From the same contents the decisions always agree, even when the clock steps back; the contents stay the same
      exactly when the clock has not stepped back. */
  lemma TakesAgree(s: BucketSpec, h: Option<Hash>, b: Level, nowMs: int)
    requires Same(h, b) && (h.None? ==> b == Full(s))
    ensures SameAnswer(LuaTake(s, h, nowMs).1, Take(s, b, Seconds(nowMs)).1)
    ensures LuaTake(s, h, nowMs).0.tokens == Take(s, b, Seconds(nowMs)).0.tokens
    ensures Same(Some(LuaTake(s, h, nowMs).0), Take(s, b, Seconds(nowMs)).0)
            <==> h.None? || h.value.lastRefillMs <= nowMs
  {
    if h.Some? {
      assert Seconds(nowMs) - Seconds(h.value.lastRefillMs) == Seconds(nowMs - h.value.lastRefillMs);
    }
    var tokens := LuaTake(s, h, nowMs).0.tokens;
    if tokens < 1.0 && s.rate > 0.0 && Take(s, b, Seconds(nowMs)).1.After? {
      DivideThrough(s.rate, 1.0 - tokens, 0.0);
    }
  }

  /** One evaluation of the script at `ms`; `expired` says that Redis dropped the key before it. */
  datatype Tick = Tick(ms: int, expired: bool)

  /** The hash found by the `i`-th evaluation. */
  function HashAt(s: BucketSpec, ticks: seq<Tick>, i: nat): Option<Hash>
    requires i < |ticks|
  {
    if i == 0 || ticks[i].expired then None
    else Some(LuaTake(s, HashAt(s, ticks, i - 1), ticks[i - 1].ms).0)
  }

  /** Server time does not step back, and a key is dropped only after its full time to live without use. */
  ghost predicate RedisTime(s: BucketSpec, ticks: seq<Tick>)
    requires s.rate > 0.0
  {
    && (forall i, j :: 0 <= i < j < |ticks| ==> ticks[i].ms <= ticks[j].ms)
    && (forall i :: 0 < i < |ticks| && ticks[i].expired ==> ticks[i].ms - ticks[i - 1].ms >= 1000 * Ttl(s))
  }

  function Times(ticks: seq<Tick>): seq<real> {
    seq(|ticks|, i requires 0 <= i < |ticks| => Seconds(ticks[i].ms))
  }

  /** A bucket left alone for the time to live refills completely. */
  lemma IdleBucketIsFull(s: BucketSpec, b: Level, now: real)
    requires s.rate > 0.0 && Sane(s, b) && b.last.Some? && now - b.last.value >= Ttl(s) as real
    ensures Refilled(s, b, now) == Level(s.burst as real, Some(now))
  {
    var full := s.burst as real / s.rate;
    assert Gain(s.rate, full) == s.burst as real;
    assert full <= now - b.last.value;
    GainMono(s.rate, full, now - b.last.value);
  }

  /** A tick after the key expired: the script starts from a full bucket, and so, having refilled, does the other. */
  lemma ExpiredTickAgrees(s: BucketSpec, b: Level, lastMs: int, nowMs: int)
    requires s.rate > 0.0 && Sane(s, b) && b.last == Some(Seconds(lastMs)) && nowMs - lastMs >= 1000 * Ttl(s)
    ensures TickAgrees(s, None, b, nowMs)
  {
    assert Seconds(nowMs) - Seconds(lastMs) == Seconds(nowMs - lastMs);
    IdleBucketIsFull(s, b, Seconds(nowMs));
    assert Take(s, b, Seconds(nowMs)) == Take(s, Full(s), Seconds(nowMs));
    FirstTickAgrees(s, nowMs);
  }

  /** One evaluation, from the contents `h` and `b`: the same answer, and the same contents after it. */
  ghost predicate TickAgrees(s: BucketSpec, h: Option<Hash>, b: Level, nowMs: int) {
    var lua, py := LuaTake(s, h, nowMs), Take(s, b, Seconds(nowMs));
    SameAnswer(lua.1, py.1) && Same(Some(lua.0), py.0)
  }

  lemma FirstTickAgrees(s: BucketSpec, nowMs: int)
    ensures TickAgrees(s, None, Full(s), nowMs)
  {
    TakesAgree(s, None, Full(s), nowMs);
  }

  lemma KeptTickAgrees(s: BucketSpec, h: Hash, b: Level, nowMs: int)
    requires Same(Some(h), b) && h.lastRefillMs <= nowMs
    ensures TickAgrees(s, Some(h), b, nowMs)
  {
    TakesAgree(s, Some(h), b, nowMs);
  }

  /** At times that do not step back the script decides as the in-process bucket does, its waits rounded up, and leaves
      the same contents, wherever keys expired in between. */
  lemma {:induction false} ScriptRefinesBucket(s: BucketSpec, ticks: seq<Tick>, i: nat)
    requires s.rate > 0.0 && RedisTime(s, ticks) && i < |ticks|
    ensures TickAgrees(s, HashAt(s, ticks, i), LevelAt(s, Times(ticks), i), ticks[i].ms)
  {
    if i == 0 {
      FirstTickAgrees(s, ticks[0].ms);
    } else {
      ScriptRefinesBucket(s, ticks, i - 1);
      ClockOfLevel(s, ticks, i);
      if ticks[i].expired {
        ExpiredTickAgrees(s, LevelAt(s, Times(ticks), i), ticks[i - 1].ms, ticks[i].ms);
      } else {
        KeptTickAgrees(s, HashAt(s, ticks, i).value, LevelAt(s, Times(ticks), i), ticks[i].ms);
      }
    }
  }

  lemma ClockOfLevel(s: BucketSpec, ticks: seq<Tick>, i: nat)
    requires s.rate > 0.0 && RedisTime(s, ticks) && 0 < i < |ticks|
    ensures Sane(s, LevelAt(s, Times(ticks), i)) && LevelAt(s, Times(ticks), i).last == Some(Seconds(ticks[i - 1].ms))
  {
    LastIsRunMax(s, Times(ticks), i - 1);
    RunMaxOfNondecreasing(Times(ticks), i - 1);
  }

  /** Expiry is invisible: dropping idle keys at any allowed points changes no answer of the script. */
  lemma {:induction false} ExpiryIsInvisible(s: BucketSpec, ticks: seq<Tick>, kept: seq<Tick>, i: nat)
    requires s.rate > 0.0 && RedisTime(s, ticks) && i < |ticks|
    requires |kept| == |ticks| && forall j :: 0 <= j < |ticks| ==> kept[j] == Tick(ticks[j].ms, false)
    ensures LuaTake(s, HashAt(s, ticks, i), ticks[i].ms) == LuaTake(s, HashAt(s, kept, i), kept[i].ms)
  {
    ScriptRefinesBucket(s, ticks, i);
    ScriptRefinesBucket(s, kept, i);
    assert Times(ticks) == Times(kept);
  }

  // ---- the window bound of the script

  /** The `i`-th evaluation admits. */
  predicate Admits(s: BucketSpec, ticks: seq<Tick>, i: nat)
    requires i < |ticks|
  {
    LuaTake(s, HashAt(s, ticks, i), ticks[i].ms).1 == 0
  }

  /** How many of the first `n` evaluations admit at a time, as given by `clock`, in `[t1, t2]`. */
  function ScriptAdmitted(s: BucketSpec, ticks: seq<Tick>, clock: seq<real>, n: nat, t1: real, t2: real): nat
    requires n <= |ticks| == |clock|
  {
    if n == 0 then 0
    else ScriptAdmitted(s, ticks, clock, n - 1, t1, t2)
         + (if Admits(s, ticks, n - 1) && t1 <= clock[n - 1] <= t2 then 1 else 0)
  }

  function RunMaxes(ts: seq<real>): seq<real> {
    seq(|ts|, i requires 0 <= i < |ts| => RunMax(ts, i))
  }

  /** Where the decisions are those of the in-process bucket, so are the counts. */
  lemma {:induction false} CountsAgree(s: BucketSpec, ticks: seq<Tick>, n: nat, t1: real, t2: real)
    requires n <= |ticks|
    requires forall i :: 0 <= i < n ==> (Admits(s, ticks, i) <==> WaitAt(s, Times(ticks), i).Admit?)
    ensures ScriptAdmitted(s, ticks, RunMaxes(Times(ticks)), n, t1, t2) == AdmittedWithin(s, Times(ticks), n, t1, t2)
  {
    if n > 0 {
      CountsAgree(s, ticks, n - 1, t1, t2);
    }
  }

  /** The rate limit holds for the script: on server time that does not step back, with keys expiring wherever Redis may
      drop them, at most `burst + rate * (t2 - t1)` evaluations at times in `[t1, t2]` admit. */
  lemma ScriptWindowBound(s: BucketSpec, ticks: seq<Tick>, t1: real, t2: real)
    requires s.rate > 0.0 && RedisTime(s, ticks) && t1 <= t2
    ensures ScriptAdmitted(s, ticks, Times(ticks), |ticks|, t1, t2) as real <= s.burst as real + Gain(s.rate, t2 - t1)
  {
    ScriptCountsAlike(s, ticks, t1, t2);
    WindowBound(s, Times(ticks), t1, t2);
  }

  lemma ScriptCountsAlike(s: BucketSpec, ticks: seq<Tick>, t1: real, t2: real)
    requires s.rate > 0.0 && RedisTime(s, ticks)
    ensures ScriptAdmitted(s, ticks, Times(ticks), |ticks|, t1, t2)
            == AdmittedWithin(s, Times(ticks), |Times(ticks)|, t1, t2)
  {
    forall i | 0 <= i < |ticks| ensures Admits(s, ticks, i) <==> WaitAt(s, Times(ticks), i).Admit? {
      DecidesAlike(s, ticks, i);
    }
    RunMaxesOfNondecreasing(Times(ticks));
    CountsAgree(s, ticks, |ticks|, t1, t2);
  }

  lemma DecidesAlike(s: BucketSpec, ticks: seq<Tick>, i: nat)
    requires s.rate > 0.0 && RedisTime(s, ticks) && i < |ticks|
    ensures Admits(s, ticks, i) <==> WaitAt(s, Times(ticks), i).Admit?
  {
    ScriptRefinesBucket(s, ticks, i);
  }

  lemma RunMaxesOfNondecreasing(ts: seq<real>)
    requires Nondecreasing(ts)
    ensures RunMaxes(ts) == ts
  {
    forall i | 0 <= i < |ts| ensures RunMaxes(ts)[i] == ts[i] {
      RunMaxOfNondecreasing(ts, i);
    }
  }

  // ---- clocks that step back

  /** Every tick follows one at the running maximum, or does not advance. */
  predicate Steady(ticks: seq<Tick>) {
    forall i :: 0 < i < |ticks| ==>
      ticks[i].ms <= ticks[i - 1].ms || Seconds(ticks[i - 1].ms) == RunMax(Times(ticks), i - 1)
  }

  predicate NoExpiry(ticks: seq<Tick>) {
    forall i :: 0 <= i < |ticks| ==> !ticks[i].expired
  }

  /** The window bound that the in-process bucket keeps on any clock, stated for the script. */
  predicate KeepsWindow(s: BucketSpec, ticks: seq<Tick>, t1: real, t2: real) {
    ScriptAdmitted(s, ticks, RunMaxes(Times(ticks)), |ticks|, t1, t2) as real <= s.burst as real + Gain(s.rate, t2 - t1)
  }

  /** The script admits exactly when it finds a whole token after its refill. */
  lemma AdmitsIff(s: BucketSpec, h: Hash, nowMs: int)
    ensures var elapsed := (nowMs - h.lastRefillMs) as real / 1000.0;
            var tokens := if elapsed > 0.0 then Min(s.burst as real, h.tokens + Gain(s.rate, elapsed)) else h.tokens;
            LuaTake(s, Some(h), nowMs).1 == 0 <==> tokens >= 1.0
  {
    TakesAgree(s, Some(h), Level(h.tokens, Some(Seconds(h.lastRefillMs))), nowMs);
  }

  /** One tick at which the script refills as the bucket does. */
  lemma SteadyTick(s: BucketSpec, h: Hash, b: Level, nowMs: int)
    requires b.last.Some? && h.tokens == b.tokens && Seconds(h.lastRefillMs) <= b.last.value
    requires nowMs <= h.lastRefillMs || Seconds(h.lastRefillMs) == b.last.value
    ensures LuaTake(s, Some(h), nowMs).0.tokens == Take(s, b, Seconds(nowMs)).0.tokens
    ensures LuaTake(s, Some(h), nowMs).1 == 0 <==> Take(s, b, Seconds(nowMs)).1.Admit?
  {
    if nowMs <= h.lastRefillMs {
      assert Seconds(nowMs) <= Seconds(h.lastRefillMs);
      AdmitsIff(s, h, nowMs);
    } else {
      TakesAgree(s, Some(h), b, nowMs);
    }
  }

  lemma {:induction false} RunMaxIsReached(ts: seq<real>, i: nat)
    requires i < |ts|
    ensures ts[i] <= RunMax(ts, i) && (i > 0 ==> RunMax(ts, i - 1) <= RunMax(ts, i))
  {
  }

  lemma {:induction false} SteadyScriptAgrees(s: BucketSpec, ticks: seq<Tick>, i: nat)
    requires s.rate > 0.0 && NoExpiry(ticks) && Steady(ticks) && i < |ticks|
    ensures LuaTake(s, HashAt(s, ticks, i), ticks[i].ms).0.tokens
            == Take(s, LevelAt(s, Times(ticks), i), Times(ticks)[i]).0.tokens
    ensures Admits(s, ticks, i) <==> WaitAt(s, Times(ticks), i).Admit?
  {
    var ts := Times(ticks);
    if i == 0 {
      TakesAgree(s, None, Full(s), ticks[0].ms);
    } else {
      SteadyScriptAgrees(s, ticks, i - 1);
      LastIsRunMax(s, ts, i - 1);
      RunMaxIsReached(ts, i - 1);
      SteadyTick(s, HashAt(s, ticks, i).value, LevelAt(s, ts, i), ticks[i].ms);
    }
  }

  /** The sum of the advances of the clock up to tick `i`, which is what the script refills for. */
  function Ascent(ticks: seq<Tick>, i: nat): int
    requires i < |ticks|
  {
    if i == 0 then 0
    else Ascent(ticks, i - 1) + (if ticks[i].ms > ticks[i - 1].ms then ticks[i].ms - ticks[i - 1].ms else 0)
  }

  /** The advances sum up to at least the rise of the running maximum, which is what the bucket refills for, and to more
      at a tick that advances from below it. */
  lemma {:induction false} AscentCoversRise(ticks: seq<Tick>, i: nat)
    requires i < |ticks|
    ensures RunMax(Times(ticks), i) - Seconds(ticks[0].ms) <= Seconds(Ascent(ticks, i))
    ensures 0 < i && ticks[i].ms > ticks[i - 1].ms && Seconds(ticks[i - 1].ms) != RunMax(Times(ticks), i - 1)
            ==> RunMax(Times(ticks), i) - Seconds(ticks[0].ms) < Seconds(Ascent(ticks, i))
  {
    if i > 0 {
      AscentCoversRise(ticks, i - 1);
      RunMaxIsReached(Times(ticks), i - 1);
    }
  }

  lemma {:induction false} AscentGrows(ticks: seq<Tick>, j: nat, i: nat)
    requires j <= i < |ticks|
    ensures 0 <= Ascent(ticks, j) <= Ascent(ticks, i)
    decreases i
  {
    if j < i {
      AscentGrows(ticks, j, i - 1);
    } else if i > 0 {
      AscentGrows(ticks, i - 1, i - 1);
    }
  }

  /** A burst of one token, and a rate that refills it over `span` milliseconds. */
  function OnePer(span: int): BucketSpec
    requires span > 0
  {
    BucketSpec(1000.0 / span as real, 1)
  }

  lemma RefillShare(span: int, d: int)
    requires span > 0
    ensures Gain(OnePer(span).rate, d as real / 1000.0) == Share(d, span)
    ensures Share(span, span) == 1.0
  {
  }

  /** `d / span`. */
  function Share(d: int, span: int): real
    requires span > 0
  {
    d as real / span as real
  }

  lemma SharesAdd(a: int, b: int, span: int)
    requires span > 0
    ensures Share(a, span) + Share(b, span) == Share(a + b, span)
    ensures a < b ==> Share(a, span) < Share(b, span)
  {
    if a < b {
      GainStrict(1.0 / span as real, a as real, b as real);
    }
  }

  /** With a burst of one that refills over `span` milliseconds, and while the ascent is below that, the script denies
      every tick but the first, and its tokens are the ascent's share of the span. */
  lemma {:induction false} TokensAreAscent(ticks: seq<Tick>, span: int, j: nat)
    requires NoExpiry(ticks) && 0 < j < |ticks| && span > 0 && Ascent(ticks, j - 1) < span
    ensures HashAt(OnePer(span), ticks, j) == Some(Hash(Share(Ascent(ticks, j - 1), span), ticks[j - 1].ms))
  {
    if j == 1 {
      assert Share(0, span) == 0.0;
    } else {
      AscentGrows(ticks, j - 2, j - 1);
      TokensAreAscent(ticks, span, j - 1);
      TickOfAscent(span, Ascent(ticks, j - 2), ticks[j - 2].ms, ticks[j - 1].ms);
    }
  }

  lemma TickOfAscent(span: int, ascent: int, lastMs: int, nowMs: int)
    requires span > 0 && 0 <= ascent
    requires var next := ascent + (if nowMs > lastMs then nowMs - lastMs else 0); next <= span
    ensures var next := ascent + (if nowMs > lastMs then nowMs - lastMs else 0);
            var r := LuaTake(OnePer(span), Some(Hash(Share(ascent, span), lastMs)), nowMs);
            && (r.1 == 0 <==> next == span)
            && (next < span ==> r.0 == Hash(Share(next, span), nowMs))
  {
    var next := ascent + (if nowMs > lastMs then nowMs - lastMs else 0);
    RefillShare(span, nowMs - lastMs);
    SharesAdd(ascent, nowMs - lastMs, span);
    SharesAdd(next, span, span);
    AdmitsIff(OnePer(span), Hash(Share(ascent, span), lastMs), nowMs);
  }

  lemma {:induction false} CountGrows(s: BucketSpec, ticks: seq<Tick>, clock: seq<real>, m: nat, n: nat, t1: real,
        t2: real)
    requires m <= n <= |ticks| == |clock|
    ensures ScriptAdmitted(s, ticks, clock, m, t1, t2) <= ScriptAdmitted(s, ticks, clock, n, t1, t2)
    decreases n
  {
    if m < n {
      CountGrows(s, ticks, clock, m, n - 1, t1, t2);
    }
  }

  /** A tick that advances from below the running maximum breaks the bound for some bucket: both it and the first tick
      are admitted, while the running maximum rises by less than one refill. */
  lemma UnsteadyBreaksWindow(ticks: seq<Tick>, i: nat) returns (s: BucketSpec, t1: real, t2: real)
    requires NoExpiry(ticks) && 0 < i < |ticks|
    requires ticks[i].ms > ticks[i - 1].ms && Seconds(ticks[i - 1].ms) != RunMax(Times(ticks), i - 1)
    ensures s.rate > 0.0 && t1 <= t2 && !KeepsWindow(s, ticks, t1, t2)
  {
    var span, clock := Ascent(ticks, i), RunMaxes(Times(ticks));
    AscentGrows(ticks, i - 1, i - 1);
    AscentCoversRise(ticks, i);
    FirstIsLeast(Times(ticks), i);
    s, t1, t2 := OnePer(span), clock[0], clock[i];
    AdmitsFirstAndLast(ticks, i);
    TwoAdmitted(s, ticks, clock, i, t1, t2);
    GainOfLess(span, t2 - t1);
  }

  lemma AdmitsFirstAndLast(ticks: seq<Tick>, i: nat)
    requires NoExpiry(ticks) && 0 < i < |ticks| && ticks[i].ms > ticks[i - 1].ms && 0 <= Ascent(ticks, i - 1)
    ensures Admits(OnePer(Ascent(ticks, i)), ticks, 0) && Admits(OnePer(Ascent(ticks, i)), ticks, i)
  {
    var span := Ascent(ticks, i);
    TokensAreAscent(ticks, span, i);
    TickOfAscent(span, Ascent(ticks, i - 1), ticks[i - 1].ms, ticks[i].ms);
  }

  lemma TwoAdmitted(s: BucketSpec, ticks: seq<Tick>, clock: seq<real>, i: nat, t1: real, t2: real)
    requires |clock| == |ticks| && 0 < i < |ticks| && Admits(s, ticks, 0) && Admits(s, ticks, i)
    requires t1 <= clock[0] <= t2 && t1 <= clock[i] <= t2
    ensures ScriptAdmitted(s, ticks, clock, |ticks|, t1, t2) >= 2
  {
    CountGrows(s, ticks, clock, 1, i, t1, t2);
    CountGrows(s, ticks, clock, i + 1, |ticks|, t1, t2);
    assert ScriptAdmitted(s, ticks, clock, 0, t1, t2) == 0;
  }

  lemma GainOfLess(span: int, seconds: real)
    requires span > 0 && seconds < Seconds(span)
    ensures OnePer(span).rate > 0.0 && Gain(OnePer(span).rate, seconds) < 1.0
  {
    RefillShare(span, span);
    GainStrict(OnePer(span).rate, seconds, Seconds(span));
  }

  lemma {:induction false} FirstIsLeast(ts: seq<real>, i: nat)
    requires i < |ts|
    ensures RunMax(ts, 0) == ts[0] <= RunMax(ts, i)
  {
    if i > 0 {
      FirstIsLeast(ts, i - 1);
    }
  }

  /** Exactly when the script meets the bound of the in-process bucket: for a clock and keys that do not expire, the
      bound holds for every bucket and window if and only if each tick follows one at the running maximum or does not
      advance. A clock that never steps back is such a clock. */
  lemma ScriptWindowBoundIff(ticks: seq<Tick>)
    requires NoExpiry(ticks)
    ensures (forall s: BucketSpec, t1, t2 :: s.rate > 0.0 && t1 <= t2 ==> KeepsWindow(s, ticks, t1, t2))
       <==> Steady(ticks)
  {
    if Steady(ticks) {
      forall s: BucketSpec, t1, t2 | s.rate > 0.0 && t1 <= t2 ensures KeepsWindow(s, ticks, t1, t2) {
        forall i | 0 <= i < |ticks| ensures Admits(s, ticks, i) <==> WaitAt(s, Times(ticks), i).Admit? {
          SteadyScriptAgrees(s, ticks, i);
        }
        CountsAgree(s, ticks, |ticks|, t1, t2);
        WindowBound(s, Times(ticks), t1, t2);
      }
    } else {
      var i :| 0 < i < |ticks| && ticks[i].ms > ticks[i - 1].ms
               && Seconds(ticks[i - 1].ms) != RunMax(Times(ticks), i - 1);
      var s, t1, t2 := UnsteadyBreaksWindow(ticks, i);
    }
  }

  /** One second back and forth, at any server time: with one token per second and a burst of one, the script admits two
      evaluations at the same millisecond, where the in-process bucket admits one. */
  lemma ClockStepBackBreaksWindow(t: int)
    requires t >= 1000
    ensures var s := BucketSpec(1.0, 1);
            var ticks := [Tick(t, false), Tick(t - 1000, false), Tick(t, false)];
            && !Steady(ticks) && !KeepsWindow(s, ticks, Seconds(t), Seconds(t))
            && Admits(s, ticks, 0) && Admits(s, ticks, 2) && !WaitAt(s, Times(ticks), 2).Admit?
  {
    var s := BucketSpec(1.0, 1);
    var ticks := [Tick(t, false), Tick(t - 1000, false), Tick(t, false)];
    var ts := Times(ticks);
    assert ts == [Seconds(t), Seconds(t - 1000), Seconds(t)];
    assert Seconds(t) - Seconds(t - 1000) == 1.0 && Gain(1.0, 1.0) == 1.0;
    assert HashAt(s, ticks, 1) == Some(Hash(0.0, t));
    assert HashAt(s, ticks, 2) == Some(Hash(0.0, t - 1000));
    assert LevelAt(s, ts, 1) == Level(0.0, Some(Seconds(t)));
    assert LevelAt(s, ts, 2) == Level(0.0, Some(Seconds(t)));
    StepBackCounts(s, ticks, Seconds(t));
  }

  lemma StepBackCounts(s: BucketSpec, ticks: seq<Tick>, at: real)
    requires s == BucketSpec(1.0, 1) && |ticks| == 3 && Times(ticks)[0] == Times(ticks)[2] == at
    requires Times(ticks)[1] == at - 1.0 && Admits(s, ticks, 0) && Admits(s, ticks, 2)
    ensures !KeepsWindow(s, ticks, at, at) && !Steady(ticks)
  {
    var clock := RunMaxes(Times(ticks));
    assert clock[0] == at && clock[1] == at && clock[2] == at;
    assert ScriptAdmitted(s, ticks, clock, 0, at, at) == 0;
    assert ScriptAdmitted(s, ticks, clock, 1, at, at) == 1;
    CountGrows(s, ticks, clock, 1, 2, at, at);
    assert Gain(1.0, 0.0) == 0.0;
    assert ticks[2].ms > ticks[1].ms && Seconds(ticks[1].ms) != RunMax(Times(ticks), 1);
  }

  /** The header computed from the script's whole milliseconds still covers the exact wait and keeps its bound. */
  lemma MillisecondsKeepHeader(s: BucketSpec, r: real)
    requires s.rate > 0.0 && 0.0 < r <= 1.0 / s.rate
    ensures HeaderSeconds(CeilOf(r * 1000.0) as real / 1000.0) == HeaderSeconds(r)
  {
    var ms := CeilOf(r * 1000.0);
    var n := CeilOf(r);
    assert ms as real >= r * 1000.0 && ms as real - 1.0 < r * 1000.0;
    assert n as real >= r && n as real - 1.0 < r;
    assert ms <= 1000 * n;
    assert ms as real / 1000.0 > n as real - 1.0;
  }
}
