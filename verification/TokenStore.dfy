/** The bearer-token cache over the keychain, and what rotation with a grace period means to its callers. */
module TokenStore {
  import opened Prelude
  import opened Keychain

  const REFRESH_TTL_SECONDS: real := 60.0

  datatype Record = Record(actor: string, scopes: set<string>)

  function RecordOf(c: Credential): Record {
    Record(c.actor, set s | s in c.scopes)
  }

  predicate IsProvider(actor: string) {
    "provider." <= actor
  }

  /** One credential's contribution: its token, then its grace token while that is active. Later entries overwrite. */
  function IndexOne(records: map<string, Record>, c: Credential, now: real): map<string, Record> {
    if IsProvider(c.actor) then records
    else if c.PreviousIsActive(now) then records[c.token := RecordOf(c)][c.previousToken.value := RecordOf(c)]
    else records[c.token := RecordOf(c)]
  }

  function FullIndex(credentials: seq<Credential>, now: real): map<string, Record> {
    if credentials == [] then map[]
    else IndexOne(FullIndex(credentials[..|credentials| - 1], now), credentials[|credentials| - 1], now)
  }

  /** The credential grants access to the bearer of `token` at time `now`. */
  predicate Honours(c: Credential, token: string, now: real) {
    !IsProvider(c.actor) && (token == c.token || (c.PreviousIsActive(now) && token == c.previousToken.value))
  }

  /** An indexed token is honoured by some credential, under whose actor and scopes it is indexed. */
  lemma {:induction false} IndexIsSound(credentials: seq<Credential>, now: real, token: string) returns (c: Credential)
    requires token in FullIndex(credentials, now)
    ensures c in credentials && Honours(c, token, now) && FullIndex(credentials, now)[token] == RecordOf(c)
    decreases |credentials|
  {
    c := credentials[|credentials| - 1];
    if !Honours(c, token, now) {
      c := IndexIsSound(credentials[..|credentials| - 1], now, token);
    }
  }

  /** Every token that some credential honours is indexed. */
  lemma {:induction false} IndexIsComplete(credentials: seq<Credential>, now: real, token: string, c: Credential)
    requires c in credentials && Honours(c, token, now)
    ensures token in FullIndex(credentials, now)
    decreases |credentials|
  {
    if c != credentials[|credentials| - 1] {
      IndexIsComplete(credentials[..|credentials| - 1], now, token, c);
    }
  }

  // ---- the cache

  datatype Cache = Cache(records: map<string, Record>, loadedAt: Option<real>)

  const EMPTY: Cache := Cache(map[], None)

  /** What a reload computes from the keychain. */
  function IndexOf(items: Items, now: real): map<string, Record> {
    FullIndex(ListCredentials(items), now)
  }

  function Loaded(items: Items, now: real): Cache {
    Cache(IndexOf(items, now), Some(now))
  }

  predicate Stale(cache: Cache, now: real) {
    cache.loadedAt.None? || now - cache.loadedAt.value > REFRESH_TTL_SECONDS
  }

  function Get(records: map<string, Record>, token: string): Option<Record> {
    if token in records then Some(records[token]) else None
  }

  class TokenStore {
    var records: map<string, Record>
    var loadedAt: Option<real>

    function State(): Cache
      reads this
    {
      Cache(records, loadedAt)
    }

    constructor ()
      ensures State() == EMPTY
    {
      records, loadedAt := map[], None;
    }

    method Refresh(items: Items, now: real)
      modifies this
      ensures State() == Loaded(items, now)
    {
      var rebuilt: map<string, Record> := map[];
      var credentials := ListCredentials(items);
      for i := 0 to |credentials|
        invariant rebuilt == FullIndex(credentials[..i], now)
      {
        var c := credentials[i];
        assert credentials[..i + 1][..i] == credentials[..i];
        if IsProvider(c.actor) {
          continue;
        }
        rebuilt := rebuilt[c.token := RecordOf(c)];
        if c.PreviousIsActive(now) {
          rebuilt := rebuilt[c.previousToken.value := RecordOf(c)];
        }
      }
      assert credentials[..|credentials|] == credentials;
      records, loadedAt := rebuilt, Some(now);
    }

    method Lookup(items: Items, now: real, token: string) returns (r: Option<Record>)
      modifies this
      ensures State() == if Stale(old(State()), now) then Loaded(items, now) else old(State())
      ensures r == Get(records, token)
    {
      if loadedAt.None? || now - loadedAt.value > REFRESH_TTL_SECONDS {
        Refresh(items, now);
      }
      r := if token in records then Some(records[token]) else None;
    }
  }

  // ---- runs: keychain writes by other processes, refreshes and lookups, each at an instant

  datatype Event =
    | Put(c: Credential)
    | Remove(actor: string)
    | Rotate(actor: string, newToken: string, newScopes: Option<seq<string>>, grace: real)
    | Refreshing
    | Asking(token: string)

  datatype Timed = Timed(at: real, event: Event)

  datatype System = System(items: Items, cache: Cache)

  /** The credential that `rotate-token.py` writes. */
  function Rotated(existing: Credential, e: Event, at: real): Credential
    requires e.Rotate?
  {
    var scopes := if e.newScopes.Some? then e.newScopes.value else existing.scopes;
    Credential(e.actor, e.newToken, scopes, Some(existing.token), Some(at + e.grace))
  }

  /** The keychain operation of an event, if it writes at all. */
  function Write(items: Items, t: Timed): Option<Op> {
    match t.event
    case Put(c) => Some(Set(c))
    case Remove(actor) => Some(Delete(actor))
    case Rotate(actor, _, newScopes, _) =>
      var existing := GetCredential(items, actor);
      if existing.None? || newScopes == Some([]) then None else Some(Set(Rotated(existing.value, t.event, t.at)))
    case _ => None
  }

  function StepItems(items: Items, t: Timed): Items {
    var op := Write(items, t);
    if op.Some? then Step(items, op.value) else items
  }

  /** The keychain before event `k`. */
  function ItemsAt(items: Items, run: seq<Timed>, k: nat): Items
    requires k <= |run|
  {
    if k == 0 then items else StepItems(ItemsAt(items, run, k - 1), run[k - 1])
  }

  /** The cache before event `k` of a run that starts with an empty one; `index` is what a reload computes. */
  function CacheAt(index: (Items, real) -> map<string, Record>, items: Items, run: seq<Timed>, k: nat): Cache
    requires k <= |run|
  {
    if k == 0 then EMPTY
    else
      var cache, t := CacheAt(index, items, run, k - 1), run[k - 1];
      if t.event.Refreshing? || (t.event.Asking? && Stale(cache, t.at)) then
        Cache(index(ItemsAt(items, run, k - 1), t.at), Some(t.at))
      else cache
  }

  /** What the lookup at event `i` answers. */
  function AnswerAt(items: Items, run: seq<Timed>, i: nat): Option<Record>
    requires i < |run| && run[i].event.Asking?
  {
    Get(CacheAt(IndexOf, items, run, i + 1).records, run[i].event.token)
  }

  predicate Ordered(run: seq<Timed>) {
    forall i, j :: 0 <= i < j < |run| ==> run[i].at <= run[j].at
  }

  /** The last event before `k` that reloaded the cache, told from the times alone. */
  function LastReload(run: seq<Timed>, k: nat): (j: Option<nat>)
    requires k <= |run|
    ensures j.Some? ==> j.value < k
    decreases k, 0
  {
    if k == 0 then None else if ReloadsAt(run, k - 1) then Some(k - 1) else LastReload(run, k - 1)
  }

  predicate ReloadsAt(run: seq<Timed>, k: nat)
    requires k < |run|
    decreases k, 1
  {
    || run[k].event.Refreshing?
    || (run[k].event.Asking? && (LastReload(run, k).None?
                                 || run[k].at - run[LastReload(run, k).value].at > REFRESH_TTL_SECONDS))
  }

  lemma {:induction false} LastReloadIsLast(run: seq<Timed>, k: nat)
    requires k <= |run|
    ensures var j := LastReload(run, k);
            && (j.Some? ==> ReloadsAt(run, j.value))
            && forall l :: 0 <= l < k && (j.None? || j.value < l) ==> !ReloadsAt(run, l)
  {
    if k > 0 {
      LastReloadIsLast(run, k - 1);
    }
  }

  /** The cache is always the full index of the keychain at the last event that reloaded it. */
  lemma {:induction false} CacheIsSnapshot(index: (Items, real) -> map<string, Record>, items: Items,
        run: seq<Timed>, k: nat)
    requires k <= |run|
    ensures CacheAt(index, items, run, k)
            == match LastReload(run, k)
               case None => EMPTY
               case Some(j) => Cache(index(ItemsAt(items, run, j), run[j].at), Some(run[j].at))
  {
    if k > 0 {
      CacheIsSnapshot(index, items, run, k - 1);
    }
  }

  /** At a lookup the cache is at most 60 seconds old. */
  lemma RecentReload(run: seq<Timed>, i: nat) returns (j: nat)
    requires i < |run| && run[i].event.Asking?
    ensures LastReload(run, i + 1) == Some(j)
    ensures j <= i && ReloadsAt(run, j) && run[i].at - run[j].at <= REFRESH_TTL_SECONDS
    ensures forall l :: j < l <= i ==> !ReloadsAt(run, l)
  {
    assert ReloadsAt(run, i) || (LastReload(run, i).Some? && LastReload(run, i + 1) == LastReload(run, i));
    j := LastReload(run, i + 1).value;
    LastReloadIsLast(run, i + 1);
  }

  /**
   * Every lookup answers from the full index of the keychain as it was at most 60 seconds before, taken at the last
   * reload.
   */
  lemma AnswersFromRecentSnapshot(items: Items, run: seq<Timed>, i: nat) returns (j: nat)
    requires i < |run| && run[i].event.Asking?
    ensures LastReload(run, i + 1) == Some(j)
    ensures j <= i && ReloadsAt(run, j) && run[i].at - run[j].at <= 60.0
    ensures forall l :: j < l <= i ==> !ReloadsAt(run, l)
    ensures AnswerAt(items, run, i) == Get(IndexOf(ItemsAt(items, run, j), run[j].at), run[i].event.token)
  {
    j := RecentReload(run, i);
    CacheIsSnapshot(IndexOf, items, run, i + 1);
  }

  /** The cache is kept for its whole minute: no lookup reloads it within 60 seconds of a reload. */
  lemma {:induction false} CachedForAMinute(run: seq<Timed>, j: nat, i: nat)
    requires j < i < |run| && Ordered(run) && ReloadsAt(run, j) && run[i].at - run[j].at <= 60.0
    requires forall l :: j < l <= i ==> !run[l].event.Refreshing?
    ensures !ReloadsAt(run, i) && LastReload(run, i) == Some(j)
    decreases i
  {
    if j + 1 < i {
      CachedForAMinute(run, j, i - 1);
    }
  }

  // ---- rotation

  predicate Carries(c: Credential, token: string) {
    token == c.token || c.previousToken == Some(token)
  }

  /** No other actor's credential carries the token. */
  ghost predicate OnlyOwner(items: Items, actor: string, token: string) {
    forall other :: other != actor ==> var c := GetCredential(items, other); c.Some? ==> !Carries(c.value, token)
  }

  /** Tokens are distinct: the event does not give another actor this one. */
  predicate LeavesTokenAlone(t: Timed, actor: string, token: string) {
    match t.event
    case Put(c) => c.actor != actor ==> !Carries(c, token)
    case Rotate(a, newToken, _, _) => a != actor ==> newToken != token
    case _ => true
  }

  /** The event does not write this actor's credential. */
  predicate LeavesActorAlone(t: Timed, actor: string) {
    match t.event
    case Put(c) => c.actor != actor
    case Remove(a) => a != actor
    case Rotate(a, _, _, _) => a != actor
    case _ => true
  }

  /** The credential as it reads back after being written. */
  function Stored(c: Credential): Credential {
    Deserialise(c.actor, Serialise(c)).value
  }

  lemma OwnerStep(items: Items, t: Timed, actor: string, token: string)
    requires OnlyOwner(items, actor, token) && LeavesTokenAlone(t, actor, token)
    ensures OnlyOwner(StepItems(items, t), actor, token)
  {
    var op := Write(items, t);
    if op.Some? && ActorOf(op.value) != MANIFEST {
      forall other | other != actor
        ensures var c := GetCredential(StepItems(items, t), other); c.Some? ==> !Carries(c.value, token)
      {
        if other == ActorOf(op.value) {
          StepIsRead(items, op.value);
          OwnWriteCarriesNothing(items, t, actor, token);
        } else {
          StepsAreLocal(items, op.value, other);
        }
      }
    }
  }

  lemma OwnWriteCarriesNothing(items: Items, t: Timed, actor: string, token: string)
    requires OnlyOwner(items, actor, token) && LeavesTokenAlone(t, actor, token)
    requires Write(items, t).Some? && ActorOf(Write(items, t).value) != actor
    ensures var op := Write(items, t).value; (op.Set? && !Carries(op.c, token)) || op.Delete?
  {
  }

  lemma {:induction false} OwnerKept(items: Items, run: seq<Timed>, m: nat, k: nat, actor: string, token: string)
    requires m <= k <= |run| && OnlyOwner(ItemsAt(items, run, m), actor, token)
    requires forall l :: m <= l < k ==> LeavesTokenAlone(run[l], actor, token)
    ensures OnlyOwner(ItemsAt(items, run, k), actor, token)
  {
    if k > m {
      OwnerKept(items, run, m, k - 1, actor, token);
      OwnerStep(ItemsAt(items, run, k - 1), run[k - 1], actor, token);
    }
  }

  /** A credential stays as it is, and listed, while nobody writes it. */
  lemma {:induction false} CredentialKept(items: Items, run: seq<Timed>, m: nat, k: nat, actor: string)
    requires m <= k <= |run| && actor != MANIFEST && AgreesOn(ItemsAt(items, run, m), actor)
    requires forall l :: m <= l < k ==> LeavesActorAlone(run[l], actor)
    ensures AgreesOn(ItemsAt(items, run, k), actor)
    ensures GetCredential(ItemsAt(items, run, k), actor) == GetCredential(ItemsAt(items, run, m), actor)
  {
    if k > m {
      CredentialKept(items, run, m, k - 1, actor);
      var before, op := ItemsAt(items, run, k - 1), Write(ItemsAt(items, run, k - 1), run[k - 1]);
      if op.Some? {
        assert ActorOf(op.value) != actor;
        StepsAreLocal(before, op.value, actor);
        AgreementStep(before, op.value, actor);
      }
    }
  }

  lemma AgreementStep(items: Items, op: Op, actor: string)
    requires actor != MANIFEST && AgreesOn(items, actor) && Complete(op)
    ensures AgreesOn(Step(items, op), actor)
  {
    if ActorOf(op) != MANIFEST {
      if op.Set? {
        SetAgrees(items, op.c, actor);
      } else {
        DeleteAgrees(items, op.actor, actor);
      }
    }
  }

  /** A written credential can be listed at once. */
  lemma WrittenIsListed(items: Items, t: Timed, c: Credential)
    requires Write(items, t) == Some(Set(c)) && c.actor != MANIFEST
    ensures GetCredential(StepItems(items, t), c.actor) == Some(Stored(c))
    ensures AgreesOn(StepItems(items, t), c.actor)
  {
    StepIsRead(items, Set(c));
    SetAgrees(items, c, c.actor);
  }

  /** What one lookup finds in a snapshot, when only one actor can carry the token. */
  lemma SnapshotAnswer(items: Items, now: real, actor: string, token: string)
    requires actor != MANIFEST && OnlyOwner(items, actor, token) && AgreesOn(items, actor)
    requires GetCredential(items, actor).Some?
    ensures var c := GetCredential(items, actor).value;
            Get(IndexOf(items, now), token)
            == if Honours(c, token, now) then Some(RecordOf(c)) else None
  {
    var c := GetCredential(items, actor).value;
    var all := ListCredentials(items);
    ListingIsComplete(items, c);
    if Honours(c, token, now) {
      IndexIsComplete(all, now, token, c);
    }
    if token in FullIndex(all, now) {
      var d := IndexIsSound(all, now, token);
      ParsedFacts(items, ListActors(items), d);
      assert Carries(d, token);
      assert d.actor == actor;
    }
  }

  /** One actor's token is written at `m` and rotated once, at `r`; nothing else writes that actor up to event `end`. */
  predicate Schedule(run: seq<Timed>, m: nat, r: nat, end: nat, actor: string, token: string) {
    && m < r < end <= |run| && Ordered(run)
    && actor != MANIFEST && !IsProvider(actor)
    && run[m].event.Put? && run[m].event.c.actor == actor && run[m].event.c.token == token
    && run[r].event.Rotate? && run[r].event.actor == actor && run[r].event.newToken != token
    && run[r].event.newScopes != Some([])
    && (forall l :: m < l < end && l != r ==> LeavesActorAlone(run[l], actor))
  }

  /** The schedule, and no other actor ever carries the token. */
  ghost predicate RotatedOnce(items: Items, run: seq<Timed>, m: nat, r: nat, end: nat, actor: string, token: string) {
    && Schedule(run, m, r, end, actor, token)
    && OnlyOwner(ItemsAt(items, run, m), actor, token)
    && (forall l :: m <= l < end ==> LeavesTokenAlone(run[l], actor, token))
  }

  /** The credential that the write of event `t` leaves behind. */
  predicate HasMinted(items: Items, t: Timed) {
    t.event.Put? && GetCredential(items, t.event.c.actor) == Some(Stored(t.event.c))
  }

  lemma MintStep(items: Items, run: seq<Timed>, m: nat)
    requires m < |run| && run[m].event.Put? && run[m].event.c.actor != MANIFEST
    ensures HasMinted(ItemsAt(items, run, m + 1), run[m])
    ensures AgreesOn(ItemsAt(items, run, m + 1), run[m].event.c.actor)
  {
    WrittenIsListed(ItemsAt(items, run, m), run[m], run[m].event.c);
  }

  lemma MintKept(items: Items, run: seq<Timed>, m: nat, k: nat)
    requires m < k <= |run| && run[m].event.Put? && run[m].event.c.actor != MANIFEST
    requires HasMinted(ItemsAt(items, run, m + 1), run[m])
    requires AgreesOn(ItemsAt(items, run, m + 1), run[m].event.c.actor)
    requires forall l :: m < l < k ==> LeavesActorAlone(run[l], run[m].event.c.actor)
    ensures HasMinted(ItemsAt(items, run, k), run[m])
    ensures AgreesOn(ItemsAt(items, run, k), run[m].event.c.actor)
  {
    CredentialKept(items, run, m + 1, k, run[m].event.c.actor);
  }

  lemma MintedAt(items: Items, run: seq<Timed>, m: nat, r: nat, end: nat, actor: string, token: string, k: nat)
    requires Schedule(run, m, r, end, actor, token) && m < k <= r
    ensures AgreesOn(ItemsAt(items, run, k), actor)
    ensures HasMinted(ItemsAt(items, run, k), run[m])
  {
    MintStep(items, run, m);
    MintKept(items, run, m, k);
  }

  /** The credential that a rotation of `token` at event `t` leaves behind. */
  predicate HasGrace(items: Items, t: Timed, token: string) {
    t.event.Rotate? &&
    var c := GetCredential(items, t.event.actor);
    && c.Some? && c.value.token == t.event.newToken && c.value.previousToken == Some(token)
    && c.value.previousExpiresAt == Some(t.at + t.event.grace)
  }

  lemma RotationIsListed(items: Items, t: Timed)
    requires t.event.Rotate? && t.event.newScopes != Some([]) && t.event.actor != MANIFEST
    requires GetCredential(items, t.event.actor).Some?
    ensures HasGrace(StepItems(items, t), t, GetCredential(items, t.event.actor).value.token)
    ensures AgreesOn(StepItems(items, t), t.event.actor)
  {
    WrittenIsListed(items, t, Rotated(GetCredential(items, t.event.actor).value, t.event, t.at));
  }

  lemma RotationStep(items: Items, run: seq<Timed>, r: nat, token: string)
    requires r < |run| && run[r].event.Rotate? && run[r].event.newScopes != Some([]) && run[r].event.actor != MANIFEST
    requires var c := GetCredential(ItemsAt(items, run, r), run[r].event.actor); c.Some? && c.value.token == token
    ensures HasGrace(ItemsAt(items, run, r + 1), run[r], token)
    ensures AgreesOn(ItemsAt(items, run, r + 1), run[r].event.actor)
  {
    RotationIsListed(ItemsAt(items, run, r), run[r]);
  }

  lemma GraceKept(items: Items, run: seq<Timed>, r: nat, k: nat, token: string)
    requires r < k <= |run| && run[r].event.Rotate? && run[r].event.actor != MANIFEST
    requires HasGrace(ItemsAt(items, run, r + 1), run[r], token)
    requires AgreesOn(ItemsAt(items, run, r + 1), run[r].event.actor)
    requires forall l :: r < l < k ==> LeavesActorAlone(run[l], run[r].event.actor)
    ensures HasGrace(ItemsAt(items, run, k), run[r], token)
    ensures AgreesOn(ItemsAt(items, run, k), run[r].event.actor)
  {
    CredentialKept(items, run, r + 1, k, run[r].event.actor);
  }

  lemma RotatedAt(items: Items, run: seq<Timed>, m: nat, r: nat, end: nat, actor: string, token: string, k: nat)
    requires Schedule(run, m, r, end, actor, token) && r < k <= end
    ensures AgreesOn(ItemsAt(items, run, k), actor)
    ensures HasGrace(ItemsAt(items, run, k), run[r], token)
  {
    MintedAt(items, run, m, r, end, actor, token, r);
    RotationStep(items, run, r, token);
    GraceKept(items, run, r, k, token);
  }

  lemma OwnerAt(items: Items, run: seq<Timed>, m: nat, r: nat, end: nat, actor: string, token: string, k: nat)
    requires RotatedOnce(items, run, m, r, end, actor, token) && m < k <= end
    ensures OnlyOwner(ItemsAt(items, run, k), actor, token)
  {
    OwnerKept(items, run, m, k, actor, token);
  }

  /**
   * No gap: from the first reload after minting, every lookup of the old token succeeds, before the rotation and for
   * the whole grace period after it.
   */
  lemma AcceptedThroughGrace(items: Items, run: seq<Timed>, m: nat, r: nat, i: nat, actor: string, token: string,
        first: nat)
    requires i < |run| && run[i].event == Asking(token)
    requires RotatedOnce(items, run, m, r, if r < i then i + 1 else r + 1, actor, token)
    requires m < first <= i && ReloadsAt(run, first)
    requires run[i].at < run[r].at + run[r].event.grace || i < r
    ensures AnswerAt(items, run, i).Some? && AnswerAt(items, run, i).value.actor == actor
  {
    var j := AnswersFromRecentSnapshot(items, run, i);
    assert first <= j;
    var end := if r < i then i + 1 else r + 1;
    OwnerAt(items, run, m, r, end, actor, token, j);
    if j <= r {
      MintedAt(items, run, m, r, end, actor, token, j);
    } else {
      RotatedAt(items, run, m, r, end, actor, token, j);
    }
    SnapshotAnswer(ItemsAt(items, run, j), run[j].at, actor, token);
  }

  /** More than a minute after minting there has been such a reload, so no lookup needs to name one. */
  lemma ReloadedAfterAMinute(run: seq<Timed>, m: nat, i: nat) returns (first: nat)
    requires m < i < |run| && Ordered(run) && run[i].event.Asking?
    requires run[i].at > run[m].at + 60.0
    ensures m < first <= i && ReloadsAt(run, first)
  {
    first := RecentReload(run, i);
    assert forall l :: 0 <= l <= m ==> run[l].at <= run[m].at;
  }

  /** No overrun: one cache lifetime after the grace period ends, every lookup of the old token fails. */
  lemma RejectedAfterGrace(items: Items, run: seq<Timed>, m: nat, r: nat, i: nat, actor: string, token: string)
    requires r < i < |run| && run[i].event == Asking(token)
    requires RotatedOnce(items, run, m, r, i + 1, actor, token)
    requires run[i].at >= run[r].at + run[r].event.grace + 60.0
    requires run[i].at > run[r].at + 60.0
    ensures AnswerAt(items, run, i) == None
  {
    var j := AnswersFromRecentSnapshot(items, run, i);
    assert forall l :: 0 <= l <= r ==> run[l].at <= run[r].at;
    OwnerAt(items, run, m, r, i + 1, actor, token, j);
    RotatedAt(items, run, m, r, i + 1, actor, token, j);
    SnapshotAnswer(ItemsAt(items, run, j), run[j].at, actor, token);
  }

  // ---- a second rotation

  /** No credential carries the token. */
  ghost predicate Nobody(items: Items, token: string) {
    forall actor :: var c := GetCredential(items, actor); c.Some? ==> !Carries(c.value, token)
  }

  /** Tokens are distinct: the event gives nobody this one. */
  predicate NeverGives(t: Timed, token: string) {
    match t.event
    case Put(c) => !Carries(c, token)
    case Rotate(_, newToken, _, _) => newToken != token
    case _ => true
  }

  /**
   * One actor's token is minted at `m` and rotated away at `r1`, and its successor is rotated away at `r2`; nothing else
   * writes that actor from `m` up to event `end`, and the token is random: no other event ever gives it to anybody.
   */
  ghost predicate RotatedTwice(items: Items, run: seq<Timed>, m: nat, r1: nat, r2: nat, end: nat, actor: string,
        token: string) {
    && m < r1 < r2 < end <= |run| && Ordered(run)
    && actor != MANIFEST && !IsProvider(actor)
    && run[m].event.Put? && run[m].event.c.actor == actor && run[m].event.c.token == token
    && run[r1].event.Rotate? && run[r1].event.actor == actor && run[r1].event.newScopes != Some([])
    && run[r2].event.Rotate? && run[r2].event.actor == actor && run[r2].event.newScopes != Some([])
    && (forall l :: m < l < end && l != r1 && l != r2 ==> LeavesActorAlone(run[l], actor))
    && Nobody(items, token) && (forall l :: 0 <= l < end && l != m ==> NeverGives(run[l], token))
  }

  lemma NobodyStep(items: Items, t: Timed, token: string)
    requires Nobody(items, token) && NeverGives(t, token)
    ensures Nobody(StepItems(items, t), token)
  {
    forall actor ensures var c := GetCredential(StepItems(items, t), actor); c.Some? ==> !Carries(c.value, token) {
      var op := Write(items, t);
      if op.Some? && ActorOf(op.value) != MANIFEST {
        if actor == ActorOf(op.value) {
          StepIsRead(items, op.value);
        } else {
          StepsAreLocal(items, op.value, actor);
        }
      }
    }
  }

  lemma {:induction false} NobodyKept(items: Items, run: seq<Timed>, k: nat, token: string)
    requires k <= |run| && Nobody(items, token)
    requires forall l :: 0 <= l < k ==> NeverGives(run[l], token)
    ensures Nobody(ItemsAt(items, run, k), token)
  {
    if k > 0 {
      NobodyKept(items, run, k - 1, token);
      NobodyStep(ItemsAt(items, run, k - 1), run[k - 1], token);
    }
  }

  lemma NobodyIsAnswered(items: Items, now: real, token: string)
    requires Nobody(items, token)
    ensures Get(IndexOf(items, now), token) == None
  {
    var all := ListCredentials(items);
    if token in FullIndex(all, now) {
      var c := IndexIsSound(all, now, token);
      ParsedFacts(items, ListActors(items), c);
      assert Carries(c, token);
      assert false;
    }
  }

  lemma BeforeMinting(items: Items, run: seq<Timed>, m: nat, r1: nat, r2: nat, end: nat, actor: string,
        token: string, k: nat)
    requires RotatedTwice(items, run, m, r1, r2, end, actor, token) && k <= m
    ensures Nobody(ItemsAt(items, run, k), token)
  {
    NobodyKept(items, run, k, token);
  }

  /** Up to the second rotation the run is one with a single rotation. */
  lemma RotatedTwiceIsOnce(items: Items, run: seq<Timed>, m: nat, r1: nat, r2: nat, end: nat, actor: string,
        token: string)
    requires RotatedTwice(items, run, m, r1, r2, end, actor, token)
    ensures RotatedOnce(items, run, m, r1, r2, actor, token)
  {
    BeforeMinting(items, run, m, r1, r2, end, actor, token, m);
    assert NeverGives(run[r1], token);
    forall l | m <= l < r2 ensures LeavesTokenAlone(run[l], actor, token) {
      assert l != m ==> NeverGives(run[l], token);
    }
  }

  lemma OwnerTwice(items: Items, run: seq<Timed>, m: nat, r1: nat, r2: nat, end: nat, actor: string, token: string,
        k: nat)
    requires RotatedTwice(items, run, m, r1, r2, end, actor, token) && m < k <= end
    ensures OnlyOwner(ItemsAt(items, run, k), actor, token)
  {
    BeforeMinting(items, run, m, r1, r2, end, actor, token, m);
    forall l | m <= l < k ensures LeavesTokenAlone(run[l], actor, token) {
      assert l != m ==> NeverGives(run[l], token);
    }
    OwnerKept(items, run, m, k, actor, token);
  }

  /** After the second rotation the credential carries the two newer tokens. */
  lemma AfterSecond(items: Items, run: seq<Timed>, m: nat, r1: nat, r2: nat, end: nat, actor: string,
        token: string, k: nat)
    requires RotatedTwice(items, run, m, r1, r2, end, actor, token) && r2 < k <= end
    ensures AgreesOn(ItemsAt(items, run, k), actor)
    ensures HasGrace(ItemsAt(items, run, k), run[r2], run[r1].event.newToken)
  {
    RotatedTwiceIsOnce(items, run, m, r1, r2, end, actor, token);
    RotatedAt(items, run, m, r1, r2, actor, token, r2);
    RotationStep(items, run, r2, run[r1].event.newToken);
    GraceKept(items, run, r2, k, run[r1].event.newToken);
  }

  /** What a reload at event `j` makes of the older token. */
  lemma SnapshotOfOlder(items: Items, run: seq<Timed>, m: nat, r1: nat, r2: nat, end: nat, actor: string,
        token: string, j: nat)
    requires RotatedTwice(items, run, m, r1, r2, end, actor, token) && j < end && j != m && j != r1 && j != r2
    ensures var r := Get(IndexOf(ItemsAt(items, run, j), run[j].at), token);
            && (r.Some? <==> m < j < r2 && (j < r1 || run[j].at < run[r1].at + run[r1].event.grace))
            && (r.Some? ==> r.value.actor == actor)
  {
    if j < m {
      BeforeMinting(items, run, m, r1, r2, end, actor, token, j);
      NobodyIsAnswered(ItemsAt(items, run, j), run[j].at, token);
    } else {
      OwnerTwice(items, run, m, r1, r2, end, actor, token, j);
      if j < r2 {
        RotatedTwiceIsOnce(items, run, m, r1, r2, end, actor, token);
        SnapshotBeforeSecond(items, run, m, r1, r2, actor, token, j);
      } else {
        assert NeverGives(run[r1], token) && NeverGives(run[r2], token);
        AfterSecond(items, run, m, r1, r2, end, actor, token, j);
        SnapshotAnswer(ItemsAt(items, run, j), run[j].at, actor, token);
      }
    }
  }

  lemma SnapshotBeforeSecond(items: Items, run: seq<Timed>, m: nat, r: nat, end: nat, actor: string, token: string,
        j: nat)
    requires RotatedOnce(items, run, m, r, end, actor, token) && m < j < end && j != r
    ensures var a := Get(IndexOf(ItemsAt(items, run, j), run[j].at), token);
            && (a.Some? <==> j < r || run[j].at < run[r].at + run[r].event.grace)
            && (a.Some? ==> a.value.actor == actor)
  {
    OwnerAt(items, run, m, r, end, actor, token, j);
    if j < r {
      MintedAt(items, run, m, r, end, actor, token, j);
    } else {
      RotatedAt(items, run, m, r, end, actor, token, j);
    }
    SnapshotAnswer(ItemsAt(items, run, j), run[j].at, actor, token);
  }

  /**
   * A second rotation ends the first grace period early, exactly when the cache learns of it: a lookup of the older
   * token succeeds if and only if the last reload lies after minting and before the second rotation, and before the
   * first rotation or within its grace period. So 60 seconds after the second rotation it fails, however long a grace
   * period the first one promised.
   */
  lemma OlderTokenIff(items: Items, run: seq<Timed>, m: nat, r1: nat, r2: nat, i: nat, actor: string, token: string)
    requires i < |run| && run[i].event == Asking(token)
    requires RotatedTwice(items, run, m, r1, r2, i + 1, actor, token)
    ensures LastReload(run, i + 1).Some?
    ensures var j := LastReload(run, i + 1).value;
            AnswerAt(items, run, i).Some?
            <==> m < j < r2 && (j < r1 || run[j].at < run[r1].at + run[r1].event.grace)
    ensures run[i].at > run[r2].at + 60.0 ==> AnswerAt(items, run, i) == None
  {
    var j := AnswersFromRecentSnapshot(items, run, i);
    assert forall l :: 0 <= l <= r2 ==> run[l].at <= run[r2].at;
    SnapshotOfOlder(items, run, m, r1, r2, i + 1, actor, token, j);
  }

  // ---- which scopes a lookup grants

  /** The scopes last written for the actor before event `k`, if it has a credential then. */
  function ScopesWritten(items: Items, run: seq<Timed>, k: nat, actor: string): Option<seq<string>>
    requires k <= |run|
  {
    if k == 0 then
      var c := GetCredential(items, actor);
      if c.Some? then Some(c.value.scopes) else None
    else
      var before := ScopesWritten(items, run, k - 1, actor);
      match run[k - 1].event
      case Put(c) => if c.actor == actor then Some(c.scopes) else before
      case Remove(a) => if a == actor then None else before
      case Rotate(a, _, newScopes, _) =>
        if a != actor || before.None? || newScopes.None? || newScopes.value == [] then before else newScopes
      case _ => before
  }

  /** What a read of the keychain finds for the actor. */
  ghost predicate ReadsScopes(items: Items, actor: string, scopes: Option<seq<string>>) {
    var c := GetCredential(items, actor);
    (c.Some? <==> scopes.Some?) && (c.Some? ==> c.value.scopes == scopes.value)
  }

  lemma PutIsRead(items: Items, c: Credential)
    requires c.actor != MANIFEST
    ensures ReadsScopes(Step(items, Set(c)), c.actor, Some(c.scopes))
  {
    StepIsRead(items, Set(c));
    CredentialReadsBackIff(c, 0.0);
  }

  lemma ScopesStep(items: Items, t: Timed, actor: string, before: Option<seq<string>>)
    requires actor != MANIFEST && ReadsScopes(items, actor, before)
    ensures t.event.Put? ==>
              ReadsScopes(StepItems(items, t), actor, if t.event.c.actor == actor then Some(t.event.c.scopes) else before)
    ensures t.event.Remove? ==>
              ReadsScopes(StepItems(items, t), actor, if t.event.actor == actor then None else before)
    ensures t.event.Rotate? ==>
              ReadsScopes(StepItems(items, t), actor,
                          if t.event.actor != actor || before.None? || t.event.newScopes.None?
                             || t.event.newScopes.value == [] then before else t.event.newScopes)
    ensures t.event.Refreshing? || t.event.Asking? ==> ReadsScopes(StepItems(items, t), actor, before)
  {
    var op := Write(items, t);
    if op.Some? {
      if ActorOf(op.value) != actor {
        StepsAreLocal(items, op.value, actor);
      } else if op.value.Set? {
        PutIsRead(items, op.value.c);
      } else {
        StepIsRead(items, op.value);
      }
    }
  }

  lemma {:induction false} ScopesFollowWrites(items: Items, run: seq<Timed>, k: nat, actor: string)
    requires k <= |run| && actor != MANIFEST
    ensures ReadsScopes(ItemsAt(items, run, k), actor, ScopesWritten(items, run, k, actor))
  {
    if k > 0 {
      ScopesFollowWrites(items, run, k - 1, actor);
      ScopesStep(ItemsAt(items, run, k - 1), run[k - 1], actor, ScopesWritten(items, run, k - 1, actor));
    }
  }

  /** What a snapshot answers is backed by a credential of an actor that is no provider, with exactly its scopes. */
  lemma SnapshotGrants(items: Items, now: real, token: string)
    requires Get(IndexOf(items, now), token).Some?
    ensures var r := Get(IndexOf(items, now), token).value;
            var c := GetCredential(items, r.actor);
            && !("provider." <= r.actor) && r.actor != MANIFEST && c.Some? && Carries(c.value, token)
            && forall s :: s in r.scopes <==> s in c.value.scopes
  {
    var c := IndexIsSound(ListCredentials(items), now, token);
    ParsedFacts(items, ListActors(items), c);
  }

  /**
   * Over any run, whatever is written meanwhile: a lookup that succeeds grants the actor exactly the scopes that were
   * last written for it before the last reload, and never succeeds for a provider's key.
   */
  lemma LookupGrantsWrittenScopes(items: Items, run: seq<Timed>, i: nat)
    requires i < |run| && run[i].event.Asking? && AnswerAt(items, run, i).Some?
    ensures LastReload(run, i + 1).Some?
    ensures var r, j := AnswerAt(items, run, i).value, LastReload(run, i + 1).value;
            var written := ScopesWritten(items, run, j, r.actor);
            && !("provider." <= r.actor) && written.Some?
            && forall s :: s in r.scopes <==> s in written.value
  {
    var j := AnswersFromRecentSnapshot(items, run, i);
    SnapshotGrants(ItemsAt(items, run, j), run[j].at, run[i].event.token);
    ScopesFollowWrites(items, run, j, AnswerAt(items, run, i).value.actor);
  }

  /** Between two writes of an actor its scopes stay; a rotation replaces them only by scopes it was given. */
  lemma {:induction false} ScopesStay(items: Items, run: seq<Timed>, m: nat, k: nat, actor: string)
    requires m <= k <= |run| && forall l :: m <= l < k ==> LeavesActorAlone(run[l], actor)
    ensures ScopesWritten(items, run, k, actor) == ScopesWritten(items, run, m, actor)
  {
    if k > m {
      ScopesStay(items, run, m, k - 1, actor);
    }
  }

  /**
   * The token that a rotation hands out: from the first reload after it, and until the actor is written again, every
   * lookup of it succeeds, with the new scopes if the rotation was given any and with the old ones otherwise.
   */
  lemma NewTokenIsGranted(items: Items, run: seq<Timed>, r: nat, i: nat, actor: string, token: string)
    requires r < i < |run| && run[i].event == Asking(token)
    requires run[r].event.Rotate? && run[r].event.actor == actor && run[r].event.newToken == token
    requires actor != MANIFEST && !("provider." <= actor) && run[r].event.newScopes != Some([])
    requires ScopesWritten(items, run, r, actor).Some?
    requires forall l :: r < l <= i ==> LeavesActorAlone(run[l], actor)
    requires OnlyOwner(ItemsAt(items, run, r), actor, token)
    requires forall l :: r <= l <= i ==> LeavesTokenAlone(run[l], actor, token)
    requires LastReload(run, i + 1).Some? && LastReload(run, i + 1).value > r
    ensures var a := AnswerAt(items, run, i);
            var scopes := if run[r].event.newScopes.Some? then run[r].event.newScopes.value
                          else ScopesWritten(items, run, r, actor).value;
            && a.Some? && a.value.actor == actor && forall s :: s in a.value.scopes <==> s in scopes
  {
    var j := AnswersFromRecentSnapshot(items, run, i);
    NewTokenInSnapshot(items, run, r, j, actor, token);
    ScopesAfterRotation(items, run, r, j, actor);
    LookupGrantsWrittenScopes(items, run, i);
  }

  lemma NewTokenInSnapshot(items: Items, run: seq<Timed>, r: nat, j: nat, actor: string, token: string)
    requires r < j < |run| && run[r].event.Rotate? && run[r].event.actor == actor && run[r].event.newToken == token
    requires actor != MANIFEST && !IsProvider(actor) && run[r].event.newScopes != Some([])
    requires ScopesWritten(items, run, r, actor).Some? && forall l :: r < l < j ==> LeavesActorAlone(run[l], actor)
    requires OnlyOwner(ItemsAt(items, run, r), actor, token)
    requires forall l :: r <= l < j ==> LeavesTokenAlone(run[l], actor, token)
    ensures var a := Get(IndexOf(ItemsAt(items, run, j), run[j].at), token); a.Some? && a.value.actor == actor
  {
    ScopesFollowWrites(items, run, r, actor);
    var before := GetCredential(ItemsAt(items, run, r), actor).value.token;
    RotationStep(items, run, r, before);
    GraceKept(items, run, r, j, before);
    OwnerKept(items, run, r, j, actor, token);
    SnapshotAnswer(ItemsAt(items, run, j), run[j].at, actor, token);
  }

  /** The scopes that a rotation leaves, until the actor is written again. */
  lemma ScopesAfterRotation(items: Items, run: seq<Timed>, r: nat, k: nat, actor: string)
    requires r < k <= |run| && run[r].event.Rotate? && run[r].event.actor == actor
    requires run[r].event.newScopes != Some([]) && ScopesWritten(items, run, r, actor).Some?
    requires forall l :: r < l < k ==> LeavesActorAlone(run[l], actor)
    ensures ScopesWritten(items, run, k, actor)
            == if run[r].event.newScopes.Some? then run[r].event.newScopes else ScopesWritten(items, run, r, actor)
  {
    ScopesStay(items, run, r + 1, k, actor);
  }

  /** A token rotated once is granted the minted scopes by reloads before the rotation, and the scopes that the rotation
      left by reloads after it, through its whole grace period. */
  lemma RotatedTokenKeepsScopes(items: Items, run: seq<Timed>, m: nat, r: nat, i: nat, actor: string, token: string,
                                first: nat)
    requires i < |run| && run[i].event == Asking(token)
    requires RotatedOnce(items, run, m, r, if r < i then i + 1 else r + 1, actor, token)
    requires m < first <= i && ReloadsAt(run, first)
    requires run[i].at < run[r].at + run[r].event.grace || i < r
    ensures AnswerAt(items, run, i).Some? && LastReload(run, i + 1).Some?
    ensures var scopes := if LastReload(run, i + 1).value < r || run[r].event.newScopes.None? then run[m].event.c.scopes
                          else run[r].event.newScopes.value;
            forall s :: s in AnswerAt(items, run, i).value.scopes <==> s in scopes
  {
    AcceptedThroughGrace(items, run, m, r, i, actor, token, first);
    LookupGrantsWrittenScopes(items, run, i);
    var j := RecentReload(run, i);
    ScopesOfRotated(items, run, m, r, if r < i then i + 1 else r + 1, actor, token, j);
  }

  lemma ScopesOfRotated(items: Items, run: seq<Timed>, m: nat, r: nat, end: nat, actor: string, token: string, j: nat)
    requires Schedule(run, m, r, end, actor, token) && m < j < end && j != r
    ensures ScopesWritten(items, run, j, actor)
            == Some(if j < r || run[r].event.newScopes.None? then run[m].event.c.scopes
                    else run[r].event.newScopes.value)
  {
    if j < r {
      ScopesStay(items, run, m + 1, j, actor);
    } else {
      ScopesStay(items, run, m + 1, r, actor);
      ScopesAfterRotation(items, run, r, j, actor);
    }
  }
}
