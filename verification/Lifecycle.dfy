/** `Supervisor.run` as a step system: ordered start behind readiness gates, watchers, shutdown and ordered stop. */
module Lifecycle {
  import opened Prelude
  import RestartPolicy

  datatype Proc = NotStarted | Running | Exited

  /** The state of one `_watch` task. */
  datatype Watcher = Waiting | Backoff | Returned

  datatype ExitCode = ExitOk | HealthTimeout | PoisonPill

  /** Where `run` stands. `Stopping(left)` has stopped every child from `left` on. */
  datatype Phase =
    | Starting(next: nat)
    | Gating(child: nat, probing: bool)
    | Watching
    | Aborting(code: ExitCode)
    | Stopping(left: nat, code: ExitCode)
    | Terminating(child: nat, code: ExitCode)
    | Killing(child: nat, code: ExitCode)
    | Done(code: ExitCode)

  datatype Sup = Sup(phase: Phase, shutdown: bool, procs: seq<Proc>, watchers: seq<Watcher>,
                     policies: seq<RestartPolicy.Policy>)

  datatype Event =
    | Spawn(child: nat)
    | Started
    | GateCheck(child: nat)
    | ProbeReady(child: nat)
    | ProbeFails(child: nat, expired: bool)
    | Signal
    | Dies(child: nat)
    | SeesExit(child: nat, now: real)
    | SeesShutdown(child: nat)
    | Wakes(child: nat)
    | Cancelled(child: nat)
    | AllReturned
    | StopSkips(child: nat)
    | Terminate(child: nat)
    | Kill(child: nat)
    | Reaped(child: nat)
    | Finish

  /** `gates[k]` says that child `k` has a readiness check. */
  function Init(gates: seq<bool>): Sup {
    var n := |gates|;
    Sup(if n == 0 then Done(ExitOk) else Starting(0), false, seq(n, i => NotStarted), seq(n, i => Waiting),
        seq(n, i => RestartPolicy.Fresh))
  }

  /** Watchers run while watching, and may still take a step before their cancellation reaches them. */
  predicate WatchersRun(s: Sup) {
    s.phase.Watching? || s.phase.Aborting?
  }

  predicate Enabled(gates: seq<bool>, s: Sup, e: Event)
    requires |s.procs| == |s.watchers| == |s.policies| == |gates|
  {
    var n := |gates|;
    match e
    case Spawn(k) => k < n && s.phase == Starting(k)
    case Started => s.phase == Starting(n)
    case GateCheck(k) => s.phase == Gating(k, false)
    case ProbeReady(k) => s.phase == Gating(k, true)
    case ProbeFails(k, expired) => s.phase == Gating(k, true)
    case Signal => !s.phase.Done?
    case Dies(k) => k < n && s.procs[k] == Running
    case SeesExit(k, now) => k < n && WatchersRun(s) && s.watchers[k] == Waiting && s.procs[k] == Exited
    case SeesShutdown(k) => k < n && WatchersRun(s) && s.watchers[k] == Waiting && s.shutdown
    case Wakes(k) => k < n && WatchersRun(s) && s.watchers[k] == Backoff
    case Cancelled(k) => k < n && s.phase.Aborting?
    case AllReturned => WatchersRun(s) && forall k :: 0 <= k < n ==> s.watchers[k] == Returned
    case StopSkips(k) => k < n && s.phase.Stopping? && s.phase.left == k + 1 && s.procs[k] != Running
    case Terminate(k) => k < n && s.phase.Stopping? && s.phase.left == k + 1 && s.procs[k] == Running
    case Kill(k) => s.phase.Terminating? && s.phase.child == k
    case Reaped(k) => k < n && (s.phase.Terminating? || s.phase.Killing?) && s.phase.child == k && s.procs[k] == Exited
    case Finish => s.phase.Stopping? && s.phase.left == 0
  }

  function Step(gates: seq<bool>, s: Sup, e: Event): Sup
    requires |s.procs| == |s.watchers| == |s.policies| == |gates| && Enabled(gates, s, e)
  {
    var n := |gates|;
    match e
    case Spawn(k) =>
      s.(procs := s.procs[k := Running], phase := if gates[k] then Gating(k, false) else Starting(k + 1))
    case Started => s.(phase := Watching)
    case GateCheck(k) =>
      s.(phase := if s.shutdown then Stopping(n, ExitOk) else Gating(k, true))
    case ProbeReady(k) => s.(phase := Starting(k + 1))
    case ProbeFails(k, expired) =>
      s.(phase := if expired then Stopping(n, HealthTimeout) else Gating(k, false))
    case Signal => s.(shutdown := true)
    case Dies(k) => s.(procs := s.procs[k := Exited])
    case SeesExit(k, now) =>
      var (p, verdict) := RestartPolicy.OnExit(s.policies[k], now);
      var s' := s.(policies := s.policies[k := p]);
      if verdict.GiveUp? then s'.(watchers := s.watchers[k := Returned], phase := Aborting(PoisonPill))
      else s'.(watchers := s.watchers[k := Backoff])
    case SeesShutdown(k) => s.(watchers := s.watchers[k := Returned])
    case Wakes(k) =>
      if s.shutdown then s.(watchers := s.watchers[k := Returned])
      else s.(procs := s.procs[k := Running], watchers := s.watchers[k := Waiting])
    case Cancelled(k) => s.(watchers := s.watchers[k := Returned])
    case AllReturned => s.(phase := Stopping(n, if s.phase.Aborting? then s.phase.code else ExitOk))
    case StopSkips(k) => s.(phase := Stopping(k, s.phase.code))
    case Terminate(k) => s.(phase := Terminating(k, s.phase.code))
    case Kill(k) => s.(phase := Killing(k, s.phase.code))
    case Reaped(k) => s.(phase := Stopping(k, s.phase.code))
    case Finish => s.(phase := Done(s.phase.code))
  }

  ghost predicate Shaped(gates: seq<bool>, s: Sup) {
    |s.procs| == |s.watchers| == |s.policies| == |gates|
  }

  ghost predicate IsRun(gates: seq<bool>, ss: seq<Sup>, es: seq<Event>) {
    && |ss| == |es| + 1 && ss[0] == Init(gates)
    && (forall i :: 0 <= i < |ss| ==> Shaped(gates, ss[i]))
    && (forall i :: 0 <= i < |es| ==> Enabled(gates, ss[i], es[i]) && ss[i + 1] == Step(gates, ss[i], es[i]))
  }

  // ---- starting

  /** The children already spawned while starting, and the one whose gate is open. */
  function Upto(p: Phase): nat
    requires p.Starting? || p.Gating?
  {
    if p.Starting? then p.next else p.child
  }

  /** Child `g` was spawned in the past, and answered its readiness check if it has one. */
  ghost predicate Up(gates: seq<bool>, past: seq<Event>, g: nat)
    requires g < |gates|
  {
    Spawn(g) in past && (gates[g] ==> ProbeReady(g) in past)
  }

  ghost predicate StartedInOrder(gates: seq<bool>, s: Sup, past: seq<Event>)
    requires Shaped(gates, s)
  {
    s.phase.Starting? || s.phase.Gating? ==>
      && Upto(s.phase) <= |gates|
      && (forall g :: 0 <= g < Upto(s.phase) ==> Up(gates, past, g))
      && (s.phase.Gating? ==> s.phase.child < |gates| && gates[s.phase.child] && Spawn(s.phase.child) in past)
      && (forall k :: Upto(s.phase) < k < |gates| ==> s.procs[k] == NotStarted)
      && (s.phase.Starting? && s.phase.next < |gates| ==> s.procs[s.phase.next] == NotStarted)
  }

  lemma StartStep(gates: seq<bool>, s: Sup, e: Event, past: seq<Event>)
    requires Shaped(gates, s) && Enabled(gates, s, e) && StartedInOrder(gates, s, past)
    ensures StartedInOrder(gates, Step(gates, s, e), past + [e])
  {
    forall g | 0 <= g < |gates| && Up(gates, past, g) ensures Up(gates, past + [e], g) {
    }
    assert e in past + [e];
  }

  lemma {:induction false} StartsInOrder(gates: seq<bool>, ss: seq<Sup>, es: seq<Event>, i: nat)
    requires IsRun(gates, ss, es) && i < |ss|
    ensures StartedInOrder(gates, ss[i], es[..i])
  {
    if i > 0 {
      StartsInOrder(gates, ss, es, i - 1);
      StartStep(gates, ss[i - 1], es[i - 1], es[..i - 1]);
      assert es[..i] == es[..i - 1] + [es[i - 1]];
    }
  }

  /** A child is first spawned only after every earlier child was spawned and every earlier gated child answered its
      readiness check. */
  lemma SpawnFollowsReadiness(gates: seq<bool>, ss: seq<Sup>, es: seq<Event>, i: nat, k: nat, g: nat)
    requires IsRun(gates, ss, es) && i < |es| && es[i] == Spawn(k) && g < k
    ensures ss[i].procs[k] == NotStarted
    ensures Spawn(g) in es[..i] && (gates[g] ==> ProbeReady(g) in es[..i])
  {
    StartsInOrder(gates, ss, es, i);
    assert Up(gates, es[..i], g);
  }

  /** A first spawn starts that child and touches no other; a gated one is waited for before the next. */
  lemma SpawnStartsChild(gates: seq<bool>, ss: seq<Sup>, es: seq<Event>, i: nat, k: nat)
    requires IsRun(gates, ss, es) && i < |es| && es[i] == Spawn(k)
    ensures k < |gates| && ss[i + 1].procs == ss[i].procs[k := Running]
    ensures ss[i + 1].phase == if gates[k] then Gating(k, false) else Starting(k + 1)
  {
  }

  /** Watching begins only when every child has been spawned and every gated one has answered. */
  lemma StartedMeansAllUp(gates: seq<bool>, ss: seq<Sup>, es: seq<Event>, i: nat, g: nat)
    requires IsRun(gates, ss, es) && i < |es| && es[i] == Started && g < |gates|
    ensures Spawn(g) in es[..i] && (gates[g] ==> ProbeReady(g) in es[..i])
  {
    StartsInOrder(gates, ss, es, i);
    assert Up(gates, es[..i], g);
  }

  // ---- shutdown

  lemma OnlySignalShutsDown(gates: seq<bool>, s: Sup, e: Event)
    requires Shaped(gates, s) && Enabled(gates, s, e)
    ensures Step(gates, s, e).shutdown <==> s.shutdown || e == Signal
  {
  }

  lemma PrefixHas(es: seq<Event>, n: nat, e: Event)
    requires n < |es|
    ensures e in es[..n + 1] <==> e in es[..n] || e == es[n]
  {
    assert es[..n + 1] == es[..n] + [es[n]];
  }

  lemma {:induction false} ShutdownIsSignal(gates: seq<bool>, ss: seq<Sup>, es: seq<Event>, i: nat)
    requires IsRun(gates, ss, es) && i < |ss|
    ensures ss[i].shutdown <==> Signal in es[..i]
  {
    if i > 0 {
      ShutdownIsSignal(gates, ss, es, i - 1);
      OnlySignalShutsDown(gates, ss[i - 1], es[i - 1]);
      PrefixHas(es, i - 1, Signal);
    }
  }

  /** No restart begins once shutdown is set: a process that had exited is started again only before any signal. */
  lemma NoRestartAfterShutdown(gates: seq<bool>, ss: seq<Sup>, es: seq<Event>, i: nat, k: nat)
    requires IsRun(gates, ss, es) && i < |es| && k < |gates|
    requires ss[i].procs[k] == Exited && ss[i + 1].procs[k] == Running
    ensures es[i] == Wakes(k) && Signal !in es[..i]
  {
    ShutdownIsSignal(gates, ss, es, i);
    StartsInOrder(gates, ss, es, i);
  }

  /** After a signal the gate of a child spawned since can only close: no readiness answer is awaited behind it. */
  ghost predicate GateClosed(s: Sup, k: nat) {
    s.shutdown && !s.phase.Starting? && (s.phase.Gating? ==> s.phase == Gating(k, false))
  }

  lemma {:induction false} GateStaysClosed(gates: seq<bool>, ss: seq<Sup>, es: seq<Event>, j: nat, m: nat, k: nat)
    requires IsRun(gates, ss, es) && j <= m < |ss| && GateClosed(ss[j], k)
    ensures GateClosed(ss[m], k)
    decreases m
  {
    if j < m {
      GateStaysClosed(gates, ss, es, j, m - 1, k);
    }
  }

  /** Initial spawns, unlike restarts, may follow a signal; but the first gated child spawned after it is the last
      child spawned. */
  lemma GateStopsStartup(gates: seq<bool>, ss: seq<Sup>, es: seq<Event>, i: nat, j: nat, m: nat, k: nat, later: nat)
    requires IsRun(gates, ss, es) && i < j < m < |es|
    requires es[i] == Signal && es[j] == Spawn(k) && gates[k]
    ensures es[m] != Spawn(later)
  {
    ShutdownIsSignal(gates, ss, es, j);
    assert es[..j][i] == Signal;
    GateStaysClosed(gates, ss, es, j + 1, m, k);
  }

  lemma SpawnAfterSignalHappens() returns (ss: seq<Sup>, es: seq<Event>)
    ensures IsRun([false, false], ss, es) && |es| == 3
    ensures es[1] == Signal && es[2] == Spawn(1)
  {
    var gates := [false, false];
    es := [Spawn(0), Signal, Spawn(1)];
    var s0 := Init(gates);
    var s1 := Step(gates, s0, es[0]);
    var s2 := Step(gates, s1, es[1]);
    ss := [s0, s1, s2, Step(gates, s2, es[2])];
  }

  /** The event makes a process run that did not: a first spawn or a restart. */
  ghost predicate StartsOne(gates: seq<bool>, s: Sup, e: Event)
    requires Shaped(gates, s)
  {
    Enabled(gates, s, e) && exists k :: 0 <= k < |gates| && s.procs[k] != Running && Step(gates, s, e).procs[k] == Running
  }

  /** From this state, some continuation starts a process. */
  ghost predicate MayStart(gates: seq<bool>, s: Sup)
    requires Shaped(gates, s)
  {
    exists es, mid, e :: Shaped(gates, mid) && Runs(gates, s, es, mid) && StartsOne(gates, mid, e)
  }

  /** Startup has a child left to spawn and is not held back by a gate: it is about to spawn, or a readiness check that
      looked at the shutdown flag before the signal is still being answered. */
  predicate StartupGoesOn(gates: seq<bool>, p: Phase) {
    (p.Starting? && p.next < |gates|) || (p.Gating? && p.probing && p.child + 1 < |gates|)
  }

  lemma StartingNeedsStartup(gates: seq<bool>, s: Sup, e: Event)
    requires Shaped(gates, s) && Enabled(gates, s, e) && s.shutdown && !StartupGoesOn(gates, s.phase)
    ensures Step(gates, s, e).shutdown && !StartupGoesOn(gates, Step(gates, s, e).phase)
    ensures !StartsOne(gates, s, e)
  {
  }

  lemma {:induction false} NothingStarts(gates: seq<bool>, s: Sup, es: seq<Event>, mid: Sup, e: Event)
    requires Shaped(gates, s) && s.shutdown && !StartupGoesOn(gates, s.phase)
    requires Shaped(gates, mid) && Runs(gates, s, es, mid)
    ensures !StartsOne(gates, mid, e)
    decreases |es|
  {
    if es == [] {
      if Enabled(gates, s, e) {
        StartingNeedsStartup(gates, s, e);
      }
    } else {
      StartingNeedsStartup(gates, s, es[0]);
      NothingStarts(gates, Step(gates, s, es[0]), es[1..], mid, e);
    }
  }

  lemma StartupSpawns(gates: seq<bool>, s: Sup, past: seq<Event>)
    requires Shaped(gates, s) && StartedInOrder(gates, s, past) && StartupGoesOn(gates, s.phase)
    ensures MayStart(gates, s)
  {
    if s.phase.Starting? {
      var k := s.phase.next;
      assert Step(gates, s, Spawn(k)).procs[k] == Running;
      assert Runs(gates, s, [], s) && StartsOne(gates, s, Spawn(k));
    } else {
      var k := s.phase.child + 1;
      var mid := Step(gates, s, ProbeReady(s.phase.child));
      assert Step(gates, mid, Spawn(k)).procs[k] == Running;
      assert [ProbeReady(s.phase.child)][1..] == [];
      assert Runs(gates, mid, [], mid);
      assert Runs(gates, s, [ProbeReady(s.phase.child)], mid) && StartsOne(gates, mid, Spawn(k));
    }
  }

  /** In any reachable state with the shutdown flag set, a process may still be started, by a first spawn or a restart,
      exactly when startup still has a child to spawn and no gate that will look at the flag stands before it. */
  lemma StartsAfterSignalIff(gates: seq<bool>, ss: seq<Sup>, es: seq<Event>, i: nat)
    requires IsRun(gates, ss, es) && i < |ss| && ss[i].shutdown
    ensures MayStart(gates, ss[i]) <==> StartupGoesOn(gates, ss[i].phase)
  {
    if StartupGoesOn(gates, ss[i].phase) {
      StartsInOrder(gates, ss, es, i);
      StartupSpawns(gates, ss[i], es[..i]);
    } else {
      forall more, mid, e | Shaped(gates, mid) && Runs(gates, ss[i], more, mid) ensures !StartsOne(gates, mid, e) {
        NothingStarts(gates, ss[i], more, mid, e);
      }
    }
  }

  // ---- stopping

  /** Children from this index on have been stopped. */
  function StoppedFrom(s: Sup): nat {
    match s.phase
    case Stopping(left, _) => left
    case Terminating(k, _) => k + 1
    case Killing(k, _) => k + 1
    case Done(_) => 0
    case _ => |s.procs|
  }

  ghost predicate StoppedInOrder(gates: seq<bool>, s: Sup)
    requires Shaped(gates, s)
  {
    && ((s.phase.Terminating? || s.phase.Killing?) ==> s.phase.child < |gates|)
    && forall k :: StoppedFrom(s) <= k < |gates| ==> s.procs[k] != Running
  }

  lemma StopStep(gates: seq<bool>, s: Sup, e: Event)
    requires Shaped(gates, s) && Enabled(gates, s, e) && StoppedInOrder(gates, s)
    ensures StoppedInOrder(gates, Step(gates, s, e))
  {
  }

  lemma {:induction false} StopsInOrder(gates: seq<bool>, ss: seq<Sup>, es: seq<Event>, i: nat)
    requires IsRun(gates, ss, es) && i < |ss|
    ensures StoppedInOrder(gates, ss[i])
  {
    if i > 0 {
      StopsInOrder(gates, ss, es, i - 1);
      StopStep(gates, ss[i - 1], es[i - 1]);
    }
  }

  predicate Ending(p: Phase) {
    p.Stopping? || p.Terminating? || p.Killing? || p.Done?
  }

  /** Once stopping has begun nothing is spawned any more. */
  lemma {:induction false} StoppedStaysStopped(gates: seq<bool>, ss: seq<Sup>, es: seq<Event>, i: nat, j: nat, k: nat)
    requires IsRun(gates, ss, es) && i <= j < |ss| && k < |gates|
    requires Ending(ss[i].phase) && ss[i].procs[k] != Running
    ensures Ending(ss[j].phase) && ss[j].procs[k] == ss[i].procs[k]
    decreases j
  {
    if i < j {
      StoppedStaysStopped(gates, ss, es, i, j - 1, k);
    }
  }

  /** Reverse order: when a child is terminated or killed, every later child has exited, or was never started, and
      stays so. */
  lemma TerminateFollowsLaterExits(gates: seq<bool>, ss: seq<Sup>, es: seq<Event>, i: nat, k: nat, later: nat, j: nat)
    requires IsRun(gates, ss, es) && i < |es| && (es[i] == Terminate(k) || es[i] == Kill(k))
    requires k < later < |gates| && i <= j < |ss|
    ensures ss[j].procs[later] != Running
  {
    StopsInOrder(gates, ss, es, i);
    StoppedStaysStopped(gates, ss, es, i, j, later);
  }

  /** When `run` returns, on whatever path, no child is running, and none ever will be. */
  lemma DoneMeansAllExited(gates: seq<bool>, ss: seq<Sup>, es: seq<Event>, i: nat, j: nat, k: nat)
    requires IsRun(gates, ss, es) && i <= j < |ss| && ss[i].phase.Done? && k < |gates|
    ensures ss[j].procs[k] != Running
  {
    StopsInOrder(gates, ss, es, i);
    StoppedStaysStopped(gates, ss, es, i, j, k);
  }

  // ---- giving up

  /** The times of the exits of child `k` handled in the first `n` events. */
  function Exits(es: seq<Event>, n: nat, k: nat): seq<real>
    requires n <= |es|
  {
    if n == 0 then []
    else if es[n - 1].SeesExit? && es[n - 1].child == k then Exits(es, n - 1, k) + [es[n - 1].now]
    else Exits(es, n - 1, k)
  }

  lemma {:induction false} PolicyOfPrefix(exits: seq<real>, now: real, n: nat)
    requires n <= |exits|
    ensures RestartPolicy.PolicyAt(exits + [now], n) == RestartPolicy.PolicyAt(exits, n)
  {
    if n > 0 {
      PolicyOfPrefix(exits, now, n - 1);
    }
  }

  lemma OnlyHandledExitsChangePolicy(gates: seq<bool>, s: Sup, e: Event, k: nat)
    requires Shaped(gates, s) && Enabled(gates, s, e) && k < |gates|
    ensures Step(gates, s, e).policies[k]
         == if e.SeesExit? && e.child == k then RestartPolicy.OnExit(s.policies[k], e.now).0 else s.policies[k]
  {
  }

  lemma PolicyNext(gates: seq<bool>, s: Sup, e: Event, k: nat, before: seq<real>)
    requires Shaped(gates, s) && Enabled(gates, s, e) && k < |gates|
    requires s.policies[k] == RestartPolicy.PolicyAt(before, |before|)
    ensures var exits := if e.SeesExit? && e.child == k then before + [e.now] else before;
            Step(gates, s, e).policies[k] == RestartPolicy.PolicyAt(exits, |exits|)
  {
    OnlyHandledExitsChangePolicy(gates, s, e, k);
    if e.SeesExit? {
      PolicyOfPrefix(before, e.now, |before|);
    }
  }

  lemma {:induction false} PolicyFollowsExits(gates: seq<bool>, ss: seq<Sup>, es: seq<Event>, i: nat, k: nat)
    requires IsRun(gates, ss, es) && i < |ss| && k < |gates|
    ensures ss[i].policies[k] == RestartPolicy.PolicyAt(Exits(es, i, k), |Exits(es, i, k)|)
  {
    if i > 0 {
      PolicyFollowsExits(gates, ss, es, i - 1, k);
      PolicyNext(gates, ss[i - 1], es[i - 1], k, Exits(es, i - 1, k));
    }
  }

  lemma GivesUpAfter(before: seq<real>, now: real, exits: seq<real>, n: nat)
    requires exits == before + [now] && n == |before| && RestartPolicy.Nondecreasing(exits)
    ensures RestartPolicy.VerdictAt(exits, n).GiveUp? <==> n >= 2 && now - before[n - 2] < 30.0
  {
    RestartPolicy.GivesUpIff(exits, n);
  }

  lemma VerdictOfLast(before: seq<real>, now: real)
    ensures RestartPolicy.VerdictAt(before + [now], |before|)
            == RestartPolicy.OnExit(RestartPolicy.PolicyAt(before, |before|), now).1
  {
    PolicyOfPrefix(before, now, |before|);
  }

  /** Whatever the other children do, handling an exit of child `k` aborts the supervisor exactly when it is the third
      exit of that child within one window; otherwise the child is to be restarted. */
  lemma PoisonPillIff(gates: seq<bool>, ss: seq<Sup>, es: seq<Event>, i: nat, k: nat, now: real)
    requires IsRun(gates, ss, es) && i < |es| && es[i] == SeesExit(k, now)
    requires RestartPolicy.Nondecreasing(Exits(es, i, k) + [now])
    ensures var before := Exits(es, i, k);
            && (ss[i + 1].watchers[k] == Returned <==>
                |before| >= 2 && now - before[|before| - 2] < 30.0)
            && (ss[i + 1].watchers[k] == Returned ==> ss[i + 1].phase == Aborting(PoisonPill))
            && (ss[i + 1].watchers[k] != Returned ==> ss[i + 1].watchers[k] == Backoff && ss[i + 1].phase == ss[i].phase)
  {
    var before := Exits(es, i, k);
    PolicyFollowsExits(gates, ss, es, i, k);
    VerdictOfLast(before, now);
    GivesUpAfter(before, now, before + [now], |before|);
  }

  // ---- crashed children are restarted

  /** Watchers have not begun while starting, and one that backs off has seen its process exit. */
  ghost predicate BacksOffAfterExit(s: Sup) {
    && |s.watchers| == |s.procs|
    && ((s.phase.Starting? || s.phase.Gating?) ==> forall k :: 0 <= k < |s.watchers| ==> s.watchers[k] == Waiting)
    && forall k :: 0 <= k < |s.watchers| && s.watchers[k] == Backoff ==> s.procs[k] == Exited
  }

  lemma BackoffStep(gates: seq<bool>, s: Sup, e: Event)
    requires Shaped(gates, s) && Enabled(gates, s, e) && BacksOffAfterExit(s)
    ensures BacksOffAfterExit(Step(gates, s, e))
  {
  }

  lemma {:induction false} BackoffMeansExited(gates: seq<bool>, ss: seq<Sup>, es: seq<Event>, i: nat)
    requires IsRun(gates, ss, es) && i < |ss|
    ensures BacksOffAfterExit(ss[i])
  {
    if i > 0 {
      BackoffMeansExited(gates, ss, es, i - 1);
      BackoffStep(gates, ss[i - 1], es[i - 1]);
    }
  }

  /** When the backoff of a child ends, its exited process is started again if and only if there has been no signal, and
      no other process is touched. */
  lemma WakesRestartsIff(gates: seq<bool>, ss: seq<Sup>, es: seq<Event>, i: nat, k: nat)
    requires IsRun(gates, ss, es) && i < |es| && es[i] == Wakes(k)
    ensures k < |gates| && ss[i].procs[k] == Exited
    ensures ss[i + 1].procs[k] == Running <==> Signal !in es[..i]
    ensures ss[i + 1].procs == if Signal in es[..i] then ss[i].procs else ss[i].procs[k := Running]
    ensures ss[i + 1].watchers[k] == if Signal in es[..i] then Returned else Waiting
  {
    BackoffMeansExited(gates, ss, es, i);
    ShutdownIsSignal(gates, ss, es, i);
  }

  lemma BackoffLasts(gates: seq<bool>, s: Sup, e: Event, k: nat)
    requires Shaped(gates, s) && Enabled(gates, s, e) && k < |gates|
    requires s.watchers[k] == Backoff && WatchersRun(s) && e != Wakes(k) && e != Cancelled(k)
    ensures var s' := Step(gates, s, e); s'.watchers[k] == Backoff && WatchersRun(s')
  {
  }

  /** A backoff has begun before event `i`, and neither ended nor was cancelled since. */
  ghost predicate BackingOff(es: seq<Event>, i: nat, m: nat, k: nat) {
    forall l :: i < l < m && l < |es| ==> es[l] != Wakes(k) && es[l] != Cancelled(k)
  }

  lemma {:induction false} BackoffUntil(gates: seq<bool>, ss: seq<Sup>, es: seq<Event>, i: nat, m: nat, k: nat)
    requires IsRun(gates, ss, es) && i < m < |ss| && k < |gates| && BackingOff(es, i, m, k)
    requires ss[i + 1].watchers[k] == Backoff && WatchersRun(ss[i + 1])
    ensures ss[m].watchers[k] == Backoff && WatchersRun(ss[m])
    decreases m
  {
    if i + 1 < m {
      BackoffUntil(gates, ss, es, i, m - 1, k);
      BackoffLasts(gates, ss[m - 1], es[m - 1], k);
    }
  }

  /** A crash that is not the third of its child within one window leads to a restart: unless the backoff is cancelled by
      an abort, the child stays exited until its backoff ends, its backoff can always end, and without a signal until
      then its process is running when it has ended. */
  lemma CrashedChildIsRestarted(gates: seq<bool>, ss: seq<Sup>, es: seq<Event>, i: nat, m: nat, k: nat, now: real)
    requires IsRun(gates, ss, es) && i < m < |ss| && es[i] == SeesExit(k, now)
    requires RestartPolicy.Nondecreasing(Exits(es, i, k) + [now])
    requires var before := Exits(es, i, k); |before| < 2 || now - before[|before| - 2] >= 30.0
    requires BackingOff(es, i, m, k)
    ensures k < |gates| && ss[m].procs[k] == Exited && Enabled(gates, ss[m], Wakes(k))
    ensures Step(gates, ss[m], Wakes(k)).procs[k] == Running <==> Signal !in es[..m]
  {
    PoisonPillIff(gates, ss, es, i, k, now);
    BackoffUntil(gates, ss, es, i, m, k);
    BackoffMeansExited(gates, ss, es, m);
    ShutdownIsSignal(gates, ss, es, m);
  }

  /** The event at `i` is an exit of one child that is its third within one window. */
  ghost predicate ThirdExit(es: seq<Event>, i: nat) {
    && i < |es| && es[i].SeesExit?
    && var before := Exits(es, i, es[i].child);
       |before| >= 2 && es[i].now - before[|before| - 2] < 30.0
  }

  /** `run` returns 0 only after a signal, or with no children; the other codes name their cause among the first `n`
      events. */
  ghost predicate CodeExplained(s: Sup, es: seq<Event>, n: nat) {
    s.phase.Starting? || s.phase.Gating? || s.phase.Watching? ||
    match s.phase.code
    case ExitOk => |s.procs| == 0 || s.shutdown
    case HealthTimeout => exists i, k :: 0 <= i < n && i < |es| && es[i] == ProbeFails(k, true)
    case PoisonPill => exists i :: 0 <= i < n && ThirdExit(es, i)
  }

  /** A watcher that has returned while nothing was aborted returned because of the shutdown. */
  ghost predicate ReturnedBecauseShutdown(s: Sup) {
    (s.phase.Starting? || s.phase.Gating? || s.phase.Watching?) && !s.shutdown ==>
      forall k :: 0 <= k < |s.watchers| ==> s.watchers[k] != Returned
  }

  lemma WatcherStep(gates: seq<bool>, s: Sup, e: Event)
    requires Shaped(gates, s) && Enabled(gates, s, e) && ReturnedBecauseShutdown(s)
    ensures ReturnedBecauseShutdown(Step(gates, s, e))
  {
  }

  /** Exits are handled at nondecreasing readings of the monotonic clock. */
  ghost predicate ClockRuns(es: seq<Event>) {
    forall i, j :: 0 <= i < j < |es| && es[i].SeesExit? && es[j].SeesExit? ==> es[i].now <= es[j].now
  }

  /** Some exit among the first `n` events was handled at this reading. */
  ghost predicate HandledAt(es: seq<Event>, n: nat, t: real) {
    exists i :: 0 <= i < n && i < |es| && es[i].SeesExit? && es[i].now == t
  }

  lemma {:induction false} ExitTimesAscend(es: seq<Event>, n: nat, k: nat)
    requires ClockRuns(es) && n <= |es|
    ensures RestartPolicy.Nondecreasing(Exits(es, n, k))
    ensures forall t :: t in Exits(es, n, k) ==> HandledAt(es, n, t)
  {
    if n > 0 {
      ExitTimesAscend(es, n - 1, k);
      assert forall t :: HandledAt(es, n - 1, t) ==> HandledAt(es, n, t);
      var before := Exits(es, n - 1, k);
      forall i | 0 <= i < |before| && es[n - 1].SeesExit? ensures before[i] <= es[n - 1].now {
        assert before[i] in before;
      }
    }
  }

  lemma PillIsThirdExit(gates: seq<bool>, ss: seq<Sup>, es: seq<Event>, i: nat)
    requires IsRun(gates, ss, es) && ClockRuns(es) && i < |es| && es[i].SeesExit?
    requires ss[i + 1].watchers[es[i].child] == Returned
    ensures ThirdExit(es, i)
  {
    var k := es[i].child;
    ExitTimesAscend(es, i + 1, k);
    assert Exits(es, i + 1, k) == Exits(es, i, k) + [es[i].now];
    PoisonPillIff(gates, ss, es, i, k, es[i].now);
  }

  lemma CodeStep(gates: seq<bool>, ss: seq<Sup>, es: seq<Event>, n: nat)
    requires IsRun(gates, ss, es) && ClockRuns(es) && n < |es|
    requires CodeExplained(ss[n], es, n) && ReturnedBecauseShutdown(ss[n])
    ensures CodeExplained(ss[n + 1], es, n + 1)
  {
    var s, e := ss[n], es[n];
    if e.AllReturned? && s.phase.Watching? && |gates| > 0 {
      assert s.watchers[0] == Returned;
    } else if e.SeesExit? && ss[n + 1].watchers[e.child] == Returned {
      PillIsThirdExit(gates, ss, es, n);
    } else if e.ProbeFails? && e.expired {
      assert es[n] == ProbeFails(e.child, true);
    }
  }

  lemma {:induction false} WatchersWaitForShutdown(gates: seq<bool>, ss: seq<Sup>, es: seq<Event>, i: nat)
    requires IsRun(gates, ss, es) && i < |ss|
    ensures ReturnedBecauseShutdown(ss[i])
  {
    if i > 0 {
      WatchersWaitForShutdown(gates, ss, es, i - 1);
      WatcherStep(gates, ss[i - 1], es[i - 1]);
    }
  }

  /** The exit code tells why `run` returned: 0 only for a shutdown, or with no children; the timeout code only after a
      readiness check that failed past its deadline; and the poison pill's code only after the third exit of one child
      within one window. */
  lemma {:induction false} ExitCodesAreExplained(gates: seq<bool>, ss: seq<Sup>, es: seq<Event>, i: nat)
    requires IsRun(gates, ss, es) && ClockRuns(es) && i < |ss|
    ensures CodeExplained(ss[i], es, i)
  {
    if i > 0 {
      ExitCodesAreExplained(gates, ss, es, i - 1);
      WatchersWaitForShutdown(gates, ss, es, i - 1);
      CodeStep(gates, ss, es, i - 1);
    }
  }

  /** The phase has settled with which code `run` will return. */
  predicate Settled(p: Phase, code: ExitCode) {
    !p.Starting? && !p.Gating? && !p.Watching? && p.code == code
  }

  /** Once settled the exit code stays: what aborts the supervisor is what it returns. */
  lemma {:induction false} SettledCodeStays(gates: seq<bool>, ss: seq<Sup>, es: seq<Event>, i: nat, j: nat,
                                            code: ExitCode)
    requires IsRun(gates, ss, es) && i <= j < |ss| && Settled(ss[i].phase, code)
    requires ss[i].phase.Aborting? ==> code == PoisonPill
    ensures Settled(ss[j].phase, code) && (ss[j].phase.Aborting? ==> code == PoisonPill)
    decreases j
  {
    if i < j {
      SettledCodeStays(gates, ss, es, i, j - 1, code);
      SettledStep(gates, ss[j - 1], es[j - 1], code);
    }
  }

  lemma SettledStep(gates: seq<bool>, s: Sup, e: Event, code: ExitCode)
    requires Shaped(gates, s) && Enabled(gates, s, e) && Settled(s.phase, code)
    requires s.phase.Aborting? ==> code == PoisonPill
    ensures var p := Step(gates, s, e).phase; Settled(p, code) && (p.Aborting? ==> code == PoisonPill)
  {
  }

  /** The converse of the explanations: an exit that is the third of its child within one window makes `run` return the
      poison pill's code, and a readiness check that fails past its deadline makes it return the timeout's. */
  lemma CausesDecideCode(gates: seq<bool>, ss: seq<Sup>, es: seq<Event>, i: nat, j: nat)
    requires IsRun(gates, ss, es) && ClockRuns(es) && i < j < |ss| && ss[j].phase.Done?
    ensures es[i].ProbeFails? && es[i].expired ==> ss[j].phase.code == HealthTimeout
    ensures ThirdExit(es, i) ==> ss[j].phase.code == PoisonPill
  {
    if es[i].ProbeFails? && es[i].expired {
      SettledCodeStays(gates, ss, es, i + 1, j, HealthTimeout);
    } else if ThirdExit(es, i) {
      var k := es[i].child;
      ExitTimesAscend(es, i + 1, k);
      assert Exits(es, i + 1, k) == Exits(es, i, k) + [es[i].now];
      PoisonPillIff(gates, ss, es, i, k, es[i].now);
      SettledCodeStays(gates, ss, es, i + 1, j, PoisonPill);
    }
  }

  // ---- the loops of the supervisor

  /** One turn of `_wait_ready`: whether shutdown is set on entry, what the probe answers, whether time is then up. */
  datatype Poll = Poll(shutdown: bool, ready: bool, expired: bool)

  datatype GateResult = Ready | ShutDown | TimedOut | StillPolling

  function ResultOf(p: Poll): GateResult {
    if p.shutdown then ShutDown else if p.ready then Ready else if p.expired then TimedOut else StillPolling
  }

  /** The gate opens, or fails, at the first poll that decides. */
  method WaitReady(polls: seq<Poll>) returns (result: GateResult, attempts: nat)
    ensures attempts <= |polls|
    ensures forall i :: 0 <= i < attempts ==> ResultOf(polls[i]) == StillPolling
    ensures result == if attempts < |polls| then ResultOf(polls[attempts]) else StillPolling
    ensures attempts < |polls| ==> result != StillPolling
  {
    attempts := 0;
    while attempts < |polls|
      invariant attempts <= |polls|
      invariant forall i :: 0 <= i < attempts ==> ResultOf(polls[i]) == StillPolling
    {
      if polls[attempts].shutdown {
        return ShutDown, attempts;
      }
      if polls[attempts].ready {
        return Ready, attempts;
      }
      if polls[attempts].expired {
        return TimedOut, attempts;
      }
      attempts := attempts + 1;
    }
    result := StillPolling;
  }

  /** `_graceful_stop_all`: `obeys[k]` says whether child `k` exits on SIGTERM within the grace period. The log lists
      the events of the step system that the loop goes through. */
  method GracefulStopAll(procs: array<Proc>, obeys: seq<bool>) returns (log: seq<Event>)
    requires |obeys| == procs.Length
    modifies procs
    ensures forall k :: 0 <= k < procs.Length ==>
              procs[k] == if old(procs[k]) == Running then Exited else old(procs[k])
    ensures log == StopLog(old(procs[..]), obeys, procs.Length)
  {
    ghost var was := procs[..];
    log := [];
    var left := procs.Length;
    assert StoppedDownTo(was, left) == was;
    while left > 0
      invariant 0 <= left <= procs.Length && |was| == procs.Length
      invariant procs[..] == StoppedDownTo(was, left)
      invariant log + StopLog(was, obeys, left) == StopLog(was, obeys, procs.Length)
    {
      left := left - 1;
      StopLogStep(was, obeys, left, log);
      assert procs[left] == procs[..][left];
      var events := StopOne(procs, left, obeys[left]);
      log := log + events;
    }
    assert log + [] == log;
    forall k | 0 <= k < procs.Length
      ensures procs[k] == if was[k] == Running then Exited else was[k]
    {
      assert procs[k] == procs[..][k];
    }
  }

  /** The processes when the children from `left` on have been stopped. */
  function StoppedDownTo(was: seq<Proc>, left: nat): (r: seq<Proc>)
    ensures |r| == |was|
    ensures forall k :: 0 <= k < |was| ==> r[k] == if k >= left && was[k] == Running then Exited else was[k]
  {
    seq(|was|, k requires 0 <= k < |was| => if k >= left && was[k] == Running then Exited else was[k])
  }

  lemma StopLogStep(was: seq<Proc>, obeys: seq<bool>, left: nat, log: seq<Event>)
    requires left < |was| && |obeys| == |was|
    ensures log + StopLog(was, obeys, left + 1)
            == (log + StopOneLog(was[left], obeys[left], left)) + StopLog(was, obeys, left)
    ensures StoppedDownTo(was, left)
            == StoppedDownTo(was, left + 1)[left := if was[left] == Running then Exited else was[left]]
  {
    assert forall k :: 0 <= k < |was| && k != left ==> StoppedDownTo(was, left)[k] == StoppedDownTo(was, left + 1)[k];
  }

  /** `_stop`. */
  method StopOne(procs: array<Proc>, k: nat, obeys: bool) returns (events: seq<Event>)
    requires k < procs.Length
    modifies procs
    ensures procs[..] == old(procs[..])[k := if old(procs[k]) == Running then Exited else old(procs[k])]
    ensures events == StopOneLog(old(procs[k]), obeys, k)
  {
    if procs[k] != Running {
      return [StopSkips(k)];
    }
    events := [Terminate(k)];
    if !obeys {
      events := events + [Kill(k)];
    }
    procs[k] := Exited;
    events := events + [Dies(k), Reaped(k)];
  }

  function StopOneLog(proc: Proc, obeys: bool, k: nat): seq<Event> {
    if proc != Running then [StopSkips(k)]
    else if obeys then [Terminate(k), Dies(k), Reaped(k)]
    else [Terminate(k), Kill(k), Dies(k), Reaped(k)]
  }

  /** The events that stop the children below `left`. */
  function StopLog(procs: seq<Proc>, obeys: seq<bool>, left: nat): seq<Event>
    requires |obeys| == |procs| && left <= |procs|
  {
    if left == 0 then []
    else StopOneLog(procs[left - 1], obeys[left - 1], left - 1) + StopLog(procs, obeys, left - 1)
  }

  /** The states passed through when every event of a list is enabled in turn. */
  ghost predicate Runs(gates: seq<bool>, s: Sup, es: seq<Event>, last: Sup)
    requires Shaped(gates, s)
    decreases |es|
  {
    if es == [] then s == last
    else Enabled(gates, s, es[0]) && Runs(gates, Step(gates, s, es[0]), es[1..], last)
  }

  lemma {:induction false} RunsJoin(gates: seq<bool>, s: Sup, es: seq<Event>, mid: Sup, more: seq<Event>, last: Sup)
    requires Shaped(gates, s) && Shaped(gates, mid) && Runs(gates, s, es, mid) && Runs(gates, mid, more, last)
    ensures Runs(gates, s, es + more, last)
    decreases |es|
  {
    if es == [] {
      assert es + more == more;
    } else {
      assert (es + more)[1..] == es[1..] + more;
      RunsJoin(gates, Step(gates, s, es[0]), es[1..], mid, more, last);
    }
  }

  lemma StopOneFollowsSteps(gates: seq<bool>, s: Sup, obeys: bool, k: nat) returns (mid: Sup)
    requires Shaped(gates, s) && k < |gates| && s.phase.Stopping? && s.phase.left == k + 1
    ensures Shaped(gates, mid) && Runs(gates, s, StopOneLog(s.procs[k], obeys, k), mid)
    ensures mid.phase == Stopping(k, s.phase.code)
    ensures mid.procs == if s.procs[k] == Running then s.procs[k := Exited] else s.procs
  {
    if s.procs[k] != Running {
      mid := Step(gates, s, StopSkips(k));
      RunsCons(gates, s, StopSkips(k), [], mid);
    } else {
      var s1 := Step(gates, s, Terminate(k));
      var s2 := if obeys then s1 else Step(gates, s1, Kill(k));
      mid := ChildExits(gates, s2, k);
      var rest := [Dies(k), Reaped(k)];
      if !obeys {
        RunsCons(gates, s1, Kill(k), rest, mid);
        rest := [Kill(k)] + rest;
      }
      RunsCons(gates, s, Terminate(k), rest, mid);
    }
  }

  lemma RunsCons(gates: seq<bool>, s: Sup, e: Event, es: seq<Event>, last: Sup)
    requires Shaped(gates, s) && Enabled(gates, s, e) && Runs(gates, Step(gates, s, e), es, last)
    ensures Runs(gates, s, [e] + es, last)
  {
    assert ([e] + es)[1..] == es;
  }

  lemma ChildExits(gates: seq<bool>, s: Sup, k: nat) returns (mid: Sup)
    requires Shaped(gates, s) && k < |gates| && s.procs[k] == Running
    requires (s.phase.Terminating? || s.phase.Killing?) && s.phase.child == k
    ensures Shaped(gates, mid) && Runs(gates, s, [Dies(k), Reaped(k)], mid)
    ensures mid.phase == Stopping(k, s.phase.code) && mid.procs == s.procs[k := Exited]
  {
    var dead := Step(gates, s, Dies(k));
    mid := Step(gates, dead, Reaped(k));
    RunsCons(gates, dead, Reaped(k), [], mid);
    RunsCons(gates, s, Dies(k), [Reaped(k)], mid);
  }

  /** The stop loop follows the step system: from the state in which `left` children remain to be stopped, its log is a
      sequence of steps that leads to `Stopping(0)`. */
  lemma {:induction false} StopLoopFollowsSteps(gates: seq<bool>, s: Sup, obeys: seq<bool>, left: nat)
    returns (last: Sup)
    requires Shaped(gates, s) && |obeys| == |gates| && left <= |gates|
    requires s.phase.Stopping? && s.phase.left == left
    ensures Runs(gates, s, StopLog(s.procs, obeys, left), last)
    ensures Shaped(gates, last) && last.phase == Stopping(0, s.phase.code)
    decreases left
  {
    if left == 0 {
      last := s;
    } else {
      var k := left - 1;
      var mid := StopOneFollowsSteps(gates, s, obeys[k], k);
      last := StopLoopFollowsSteps(gates, mid, obeys, k);
      RunsJoin(gates, s, StopOneLog(s.procs[k], obeys[k], k), mid, StopLog(mid.procs, obeys, k), last);
      StopLogSplits(s.procs, mid.procs, obeys, k);
    }
  }

  lemma StopLogSplits(a: seq<Proc>, b: seq<Proc>, obeys: seq<bool>, k: nat)
    requires |obeys| == |a| == |b| && k < |a| && forall j :: 0 <= j < k ==> a[j] == b[j]
    ensures StopLog(a, obeys, k + 1) == StopOneLog(a[k], obeys[k], k) + StopLog(b, obeys, k)
  {
    StopLogOfEqual(a, b, obeys, k);
  }

  lemma {:induction false} StopLogOfEqual(a: seq<Proc>, b: seq<Proc>, obeys: seq<bool>, left: nat)
    requires |obeys| == |a| == |b| && left <= |a|
    requires forall k :: 0 <= k < left ==> a[k] == b[k]
    ensures StopLog(a, obeys, left) == StopLog(b, obeys, left)
  {
    if left > 0 {
      StopLogOfEqual(a, b, obeys, left - 1);
    }
  }

  // ---- what can always happen next

  /** The phase names a child there is, and a child being stopped has been started. */
  ghost predicate PhaseOk(gates: seq<bool>, s: Sup)
    requires Shaped(gates, s)
  {
    match s.phase
    case Starting(next) => next <= |gates|
    case Gating(k, _) => k < |gates|
    case Stopping(left, _) => left <= |gates|
    case Terminating(k, _) => k < |gates| && s.procs[k] != NotStarted
    case Killing(k, _) => k < |gates| && s.procs[k] != NotStarted
    case _ => true
  }

  lemma PhaseStep(gates: seq<bool>, s: Sup, e: Event)
    requires Shaped(gates, s) && Enabled(gates, s, e) && PhaseOk(gates, s)
    ensures PhaseOk(gates, Step(gates, s, e))
  {
  }

  lemma {:induction false} PhaseIsOk(gates: seq<bool>, ss: seq<Sup>, es: seq<Event>, i: nat)
    requires IsRun(gates, ss, es) && i < |ss|
    ensures PhaseOk(gates, ss[i])
  {
    if i > 0 {
      PhaseIsOk(gates, ss, es, i - 1);
      PhaseStep(gates, ss[i - 1], es[i - 1]);
    }
  }

  /** From this state some events lead to the goal. */
  ghost predicate Leads(gates: seq<bool>, s: Sup, goal: Sup -> bool)
    requires Shaped(gates, s)
  {
    exists es, last :: Runs(gates, s, es, last) && goal(last)
  }

  predicate IsDone(s: Sup) {
    s.phase.Done?
  }

  lemma LeadsNow(gates: seq<bool>, s: Sup, goal: Sup -> bool)
    requires Shaped(gates, s) && goal(s)
    ensures Leads(gates, s, goal)
  {
    assert Runs(gates, s, [], s);
  }

  lemma LeadsNext(gates: seq<bool>, s: Sup, e: Event, goal: Sup -> bool)
    requires Shaped(gates, s) && Enabled(gates, s, e) && Leads(gates, Step(gates, s, e), goal)
    ensures Leads(gates, s, goal)
  {
    var es, last :| Runs(gates, Step(gates, s, e), es, last) && goal(last);
    RunsCons(gates, s, e, es, last);
  }

  lemma LeadsJoin(gates: seq<bool>, s: Sup, es: seq<Event>, mid: Sup, goal: Sup -> bool)
    requires Shaped(gates, s) && Shaped(gates, mid) && Runs(gates, s, es, mid) && Leads(gates, mid, goal)
    ensures Leads(gates, s, goal)
  {
    var more, last :| Runs(gates, mid, more, last) && goal(last);
    RunsJoin(gates, s, es, mid, more, last);
  }

  lemma StoppingFinishes(gates: seq<bool>, s: Sup)
    requires Shaped(gates, s) && s.phase.Stopping? && s.phase.left <= |gates|
    ensures Leads(gates, s, IsDone)
  {
    var obeys := seq(|gates|, k => true);
    var last := StopLoopFollowsSteps(gates, s, obeys, s.phase.left);
    LeadsNow(gates, Step(gates, last, Finish), IsDone);
    LeadsNext(gates, last, Finish, IsDone);
    LeadsJoin(gates, s, StopLog(s.procs, obeys, s.phase.left), last, IsDone);
  }

  lemma TerminatingFinishes(gates: seq<bool>, s: Sup)
    requires Shaped(gates, s) && (s.phase.Terminating? || s.phase.Killing?) && PhaseOk(gates, s)
    ensures Leads(gates, s, IsDone)
  {
    var k := s.phase.child;
    var dead := if s.procs[k] == Running then Step(gates, s, Dies(k)) else s;
    StoppingFinishes(gates, Step(gates, dead, Reaped(k)));
    LeadsNext(gates, dead, Reaped(k), IsDone);
    if s.procs[k] == Running {
      LeadsNext(gates, s, Dies(k), IsDone);
    }
  }

  /** The event that makes a watcher return. */
  function Returns(s: Sup, k: nat): Event
    requires k < |s.watchers|
  {
    if s.phase.Aborting? then Cancelled(k) else if s.watchers[k] == Backoff then Wakes(k) else SeesShutdown(k)
  }

  lemma {:induction false} WatchersFinish(gates: seq<bool>, s: Sup, k: nat)
    requires Shaped(gates, s) && k <= |gates| && (s.phase.Aborting? || (s.phase.Watching? && s.shutdown))
    requires forall j :: 0 <= j < k ==> s.watchers[j] == Returned
    ensures Leads(gates, s, IsDone)
    decreases |gates| - k
  {
    if k == |gates| {
      StoppingFinishes(gates, Step(gates, s, AllReturned));
      LeadsNext(gates, s, AllReturned, IsDone);
    } else if s.watchers[k] == Returned {
      WatchersFinish(gates, s, k + 1);
    } else {
      WatchersFinish(gates, Step(gates, s, Returns(s, k)), k + 1);
      LeadsNext(gates, s, Returns(s, k), IsDone);
    }
  }

  lemma GateFinishes(gates: seq<bool>, s: Sup)
    requires Shaped(gates, s) && s.phase.Gating? && s.shutdown
    ensures Leads(gates, s, IsDone)
  {
    var k := s.phase.child;
    var asked := if s.phase.probing then Step(gates, s, ProbeFails(k, false)) else s;
    StoppingFinishes(gates, Step(gates, asked, GateCheck(k)));
    LeadsNext(gates, asked, GateCheck(k), IsDone);
    if s.phase.probing {
      LeadsNext(gates, s, ProbeFails(k, false), IsDone);
    }
  }

  lemma {:induction false} StartingFinishes(gates: seq<bool>, s: Sup)
    requires Shaped(gates, s) && s.phase.Starting? && s.phase.next <= |gates| && s.shutdown
    ensures Leads(gates, s, IsDone)
    decreases |gates| - s.phase.next
  {
    var k := s.phase.next;
    if k == |gates| {
      WatchersFinish(gates, Step(gates, s, Started), 0);
      LeadsNext(gates, s, Started, IsDone);
    } else {
      var spawned := Step(gates, s, Spawn(k));
      if gates[k] {
        GateFinishes(gates, spawned);
      } else {
        StartingFinishes(gates, spawned);
      }
      LeadsNext(gates, s, Spawn(k), IsDone);
    }
  }

  /** A shutdown can always be completed: from every reachable state after a signal, or after an abort, or once stopping
      has begun, some continuation lets `run` return. */
  lemma ShutdownCanComplete(gates: seq<bool>, ss: seq<Sup>, es: seq<Event>, i: nat)
    requires IsRun(gates, ss, es) && i < |ss|
    requires ss[i].shutdown || ss[i].phase.Aborting? || Ending(ss[i].phase)
    ensures Leads(gates, ss[i], IsDone)
  {
    PhaseIsOk(gates, ss, es, i);
    match ss[i].phase
    case Starting(_) => StartingFinishes(gates, ss[i]);
    case Gating(_, _) => GateFinishes(gates, ss[i]);
    case Watching => WatchersFinish(gates, ss[i], 0);
    case Aborting(_) => WatchersFinish(gates, ss[i], 0);
    case Stopping(_, _) => StoppingFinishes(gates, ss[i]);
    case Terminating(_, _) => TerminatingFinishes(gates, ss[i]);
    case Killing(_, _) => TerminatingFinishes(gates, ss[i]);
    case Done(_) => LeadsNow(gates, ss[i], IsDone);
  }

  /** Watching, with every child running and no signal yet. */
  predicate AllRunning(s: Sup) {
    s.phase.Watching? && !s.shutdown && forall k :: 0 <= k < |s.procs| ==> s.procs[k] == Running
  }

  lemma {:induction false} StartingSucceeds(gates: seq<bool>, s: Sup)
    requires Shaped(gates, s) && s.phase.Starting? && s.phase.next <= |gates| && !s.shutdown
    requires forall j :: 0 <= j < s.phase.next ==> s.procs[j] == Running
    ensures Leads(gates, s, AllRunning)
    decreases |gates| - s.phase.next
  {
    var k := s.phase.next;
    if k == |gates| {
      LeadsNow(gates, Step(gates, s, Started), AllRunning);
      LeadsNext(gates, s, Started, AllRunning);
    } else {
      var spawned := Step(gates, s, Spawn(k));
      if gates[k] {
        GateOpens(gates, spawned, k);
        StartingSucceeds(gates, Opened(spawned, k));
        LeadsJoin(gates, spawned, [GateCheck(k), ProbeReady(k)], Opened(spawned, k), AllRunning);
      } else {
        StartingSucceeds(gates, spawned);
      }
      LeadsNext(gates, s, Spawn(k), AllRunning);
    }
  }

  /** The state after a readiness check that answers at once. */
  function Opened(s: Sup, k: nat): Sup {
    s.(phase := Starting(k + 1))
  }

  lemma GateOpens(gates: seq<bool>, s: Sup, k: nat)
    requires Shaped(gates, s) && s.phase == Gating(k, false) && !s.shutdown
    ensures Runs(gates, s, [GateCheck(k), ProbeReady(k)], Opened(s, k))
  {
    var asked := Step(gates, s, GateCheck(k));
    assert Runs(gates, Opened(s, k), [], Opened(s, k));
    RunsCons(gates, asked, ProbeReady(k), [], Opened(s, k));
    RunsCons(gates, s, GateCheck(k), [ProbeReady(k)], Opened(s, k));
  }

  /** A healthy start goes all the way: for any children and gates, some run has all of them running. */
  lemma HealthyStart(gates: seq<bool>)
    requires gates != []
    ensures Leads(gates, Init(gates), AllRunning)
  {
    StartingSucceeds(gates, Init(gates));
  }

  /** No crash is forgotten: while the supervisor watches and no signal came, an exited child's exit can be handled, or
      its backoff can end, or its exit was the third within one window and the supervisor is aborting. */
  lemma CrashIsNeverForgotten(gates: seq<bool>, ss: seq<Sup>, es: seq<Event>, i: nat, k: nat, now: real)
    requires IsRun(gates, ss, es) && i < |ss| && k < |gates| && ss[i].procs[k] == Exited
    requires ss[i].phase.Watching? && Signal !in es[..i]
    ensures Enabled(gates, ss[i], SeesExit(k, now)) || Enabled(gates, ss[i], Wakes(k))
  {
    ShutdownIsSignal(gates, ss, es, i);
    WatchersWaitForShutdown(gates, ss, es, i);
  }
}
