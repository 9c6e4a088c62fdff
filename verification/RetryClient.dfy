/** The retrying transport of `brains_shared/client.py`, alone and against the token bucket. */
module RetryClient {
  import opened Prelude
  import opened TokenBucket
  import LuaBucket

  /** A response: its status, and its `Retry-After` header where that reads as a number. */
  datatype Reply = Reply(status: int, retryAfter: Option<real>)

  datatype Request = Request(verb: string, key: Option<string>)

  datatype Outcome =
    | Answered(reply: Reply)
    | OutOfRetries(retryAfter: Option<real>)
    | CapExceeded(sleep: real)

  const MAX_RETRIES: nat := 3
  const CAP_SECONDS: real := 30.0

  function Pow2(n: nat): real {
    if n == 0 then 1.0 else 2.0 * Pow2(n - 1)
  }

  function Max(x: real, y: real): real {
    if x >= y then x else y
  }

  /** Sleep before the retry that follows attempt `attempt`. */
  function SleepFor(attempt: nat, retryAfter: Option<real>): real {
    if retryAfter.Some? && retryAfter.value > 0.0 then Max(retryAfter.value, 0.1)
    else Max(0.5 * Pow2(attempt), 0.1)
  }

  /** What the client sleeps: as the hint says if there is one, else half a second, doubled with each attempt; but never
      less than a tenth of a second. */
  lemma SleepInNumbers(attempt: nat, retryAfter: Option<real>)
    ensures var sleep := SleepFor(attempt, retryAfter);
            && sleep >= 0.1
            && (retryAfter.Some? && retryAfter.value >= 0.1 ==> sleep == retryAfter.value)
            && (retryAfter.Some? && 0.0 < retryAfter.value < 0.1 ==> sleep == 0.1)
            && (retryAfter.None? || retryAfter.value <= 0.0 ==> sleep == 0.5 * Pow2(attempt))
    ensures SleepFor(0, None) == 0.5 && SleepFor(attempt + 1, None) == 2.0 * SleepFor(attempt, None)
  {
    PowIsLarge(attempt);
  }

  lemma {:induction false} PowIsLarge(n: nat)
    ensures Pow2(n) >= 1.0
  {
    if n > 0 {
      PowIsLarge(n - 1);
    }
  }

  /** `handle_async_request` against a server that would answer its attempts with `answers`. */
  method HandleRequest(request: Request, override: Option<string>, uuid: string, answers: seq<Reply>,
                       maxRetries: nat, cap: real)
    returns (outcome: Outcome, sent: seq<Request>, sleeps: seq<real>)
    requires |answers| == maxRetries + 1
    // Every attempt but the last was refused, and was followed by the sleep its answer asks for, within the cap.
    ensures 1 <= |sent| <= maxRetries + 1 && |sleeps| == |sent| - 1
    ensures forall i :: 0 <= i < |sleeps| ==>
              answers[i].status == 429 && sleeps[i] == SleepFor(i, answers[i].retryAfter) <= cap
    // All attempts carry one and the same key: on a POST the override, else the caller's own, else a new uuid.
    ensures forall i :: 0 <= i < |sent| ==> sent[i] == sent[0] && sent[i].verb == request.verb
    ensures request.verb == "POST" && override.Some? ==> sent[0].key == override
    ensures request.verb == "POST" && override.None? && request.key.Some? ==> sent[0].key == request.key
    ensures request.verb == "POST" && override.None? && request.key.None? ==> sent[0].key == Some(uuid)
    ensures request.verb != "POST" ==> sent[0].key == request.key
    // The last answer decides.
    ensures var last := answers[|sent| - 1];
            outcome == if last.status != 429 then Answered(last)
                       else if |sent| == maxRetries + 1 then OutOfRetries(last.retryAfter)
                       else CapExceeded(SleepFor(|sent| - 1, last.retryAfter))
    ensures outcome.CapExceeded? ==> outcome.sleep > cap
  {
    var key := request.key;
    if request.verb == "POST" {
      if override.Some? {
        key := override;
      } else if key.None? {
        key := Some(uuid);
      }
    }
    sent, sleeps := [], [];
    var attempt := 0;
    while true
      invariant 0 <= attempt <= maxRetries && |sent| == |sleeps| == attempt
      invariant forall i :: 0 <= i < attempt ==>
                  answers[i].status == 429 && sleeps[i] == SleepFor(i, answers[i].retryAfter) <= cap
      invariant forall i :: 0 <= i < attempt ==> sent[i] == Request(request.verb, key)
      decreases maxRetries - attempt
    {
      sent := sent + [Request(request.verb, key)];
      var reply := answers[attempt];
      if reply.status != 429 {
        return Answered(reply), sent, sleeps;
      }
      if attempt == maxRetries {
        return OutOfRetries(reply.retryAfter), sent, sleeps;
      }
      var sleep := SleepFor(attempt, reply.retryAfter);
      if sleep > cap {
        return CapExceeded(sleep), sent, sleeps;
      }
      sleeps := sleeps + [sleep];
      attempt := attempt + 1;
    }
  }

  /** `require_rate` in front of a handler that answers `inner`. */
  function RateLimitedReply(w: Wait, inner: Reply): Reply
    requires !w.Never? && (w.After? ==> w.seconds >= 0.0)
  {
    if w.Admit? then inner else Reply(429, Some(HeaderSeconds(w.seconds) as real))
  }

  /** Every scope admits, refills, and asks for at most two seconds of patience. */
  lemma SpecsAreServable(scope: string)
    ensures var s := SpecFor(scope);
            s.rate > 0.0 && s.burst >= 1 && CeilOf(1.0 / s.rate) <= 2
  {
    var s := SpecFor(scope);
    assert s.rate == 1.0 || s.rate == 0.5 || s.rate == 2.0 || s.rate == 5.0;
    assert 1.0 / s.rate <= 2.0 by {
      DivideThrough(s.rate, 1.0, 2.0);
    }
  }

  /** A client that is alone on its key gets through on its second attempt at the latest: if the first attempt at `t`
      is refused, the sleep it takes is under the cap and an attempt any time after that sleep is admitted. */
  lemma LoneClientIsServed(scope: string, b: Level, t: real, t2: real, inner: Reply)
    requires Sane(SpecFor(scope), b) && (b.last.Some? ==> b.last.value <= t)
    requires var (b', w) := Take(SpecFor(scope), b, t);
             w.After? && t2 >= t + SleepFor(0, RateLimitedReply(w, inner).retryAfter)
    ensures var (b', w) := Take(SpecFor(scope), b, t);
            && SleepFor(0, RateLimitedReply(w, inner).retryAfter) <= 2.0 < CAP_SECONDS == 30.0
            && Take(SpecFor(scope), b', t2).1 == Admit
            && RateLimitedReply(Take(SpecFor(scope), b', t2).1, inner) == inner
  {
    var s := SpecFor(scope);
    SpecsAreServable(scope);
    HeaderCoversWait(s, b, t);
    var (b', w) := Take(s, b, t);
    RetryHintIsExact(s, b, t, w.seconds, [t2], 0);
    assert [t2][..0] == [];
  }

  /** The composition: a lone POST is answered by the handler after at most two attempts and one sleep, whatever delay
      `lag >= 0` the network adds, and both attempts carry the same key. */
  method CallAlone(scope: string, bucket: Bucket, t: real, lag: real, request: Request, uuid: string, inner: Reply)
    returns (outcome: Outcome, sent: seq<Request>)
    requires bucket.spec == SpecFor(scope) && Sane(bucket.spec, bucket.Contents()) && lag >= 0.0
    requires bucket.lastRefill.Some? ==> bucket.lastRefill.value <= t
    requires inner.status != 429 && request.verb == "POST"
    modifies bucket
    ensures outcome == Answered(inner)
    ensures 1 <= |sent| <= 2 && sent[0].key.Some? && sent[|sent| - 1] == sent[0]
    ensures |sent| == 1 <==> Take(bucket.spec, old(bucket.Contents()), t).1.Admit?
  {
    SpecsAreServable(scope);
    ghost var before := bucket.Contents();
    var w := bucket.TakeOne(t);
    TakeBudget(bucket.spec, before, t);
    var first := inner;
    var second := inner;
    if w.After? {
      HeaderCoversWait(bucket.spec, before, t);
      first := RateLimitedReply(w, inner);
      var wake := t + SleepFor(0, first.retryAfter) + lag;
      LoneClientIsServed(scope, before, t, wake, inner);
      var w2 := bucket.TakeOne(wake);
      second := RateLimitedReply(w2, inner);
    }
    var sleeps;
    var answers := [first, second, inner, inner];
    outcome, sent, sleeps := HandleRequest(request, None, uuid, answers, MAX_RETRIES, CAP_SECONDS);
    assert answers[1].status != 429;
    assert answers[0].status != 429 ==> |sleeps| == 0;
  }

  /** The same header, hence the same sleep, when the script's whole milliseconds answer instead of the bucket. */
  lemma ScriptAsksTheSameSleep(s: BucketSpec, r: real)
    requires s.rate > 0.0 && 0.0 < r <= 1.0 / s.rate
    ensures SleepFor(0, Some(HeaderSeconds(CeilOf(r * 1000.0) as real / 1000.0) as real))
            == SleepFor(0, Some(HeaderSeconds(r) as real)) == HeaderSeconds(r) as real
  {
    LuaBucket.MillisecondsKeepHeader(s, r);
  }
}
