/** Credentials in a password store that cannot enumerate, and the manifest item that lists them. */
module Keychain {
  import opened Prelude

  const MANIFEST: string := "_actors_"

  datatype Credential = Credential(actor: string, token: string, scopes: seq<string>,
                                   previousToken: Option<string>, previousExpiresAt: Option<real>) {
    predicate PreviousIsActive(now: real) {
      previousToken.Some? && previousExpiresAt.Some? && now < previousExpiresAt.value
    }
  }

  /**
   * What a password can hold: a JSON object with the fields the code reads (`None` where one is missing or has the
   * wrong type), a JSON list (`None` for an entry that is not a string), or anything else.
   */
  datatype Blob =
    | Fields(token: Option<string>, scopes: Option<seq<Option<string>>>,
             previousToken: Option<string>, previousExpiresAt: Option<real>)
    | Names(entries: seq<Option<string>>)
    | Junk

  /** The password store: account to password, under the one service name. */
  type Items = map<string, Blob>

  datatype KeychainError = ReservedActor

  function Wrap(names: seq<string>): seq<Option<string>> {
    seq(|names|, i requires 0 <= i < |names| => Some(names[i]))
  }

  /** The entries that are strings. */
  function Strings(entries: seq<Option<string>>): seq<string> {
    if entries == [] then []
    else (if entries[0].Some? then [entries[0].value] else []) + Strings(entries[1..])
  }

  lemma {:induction false} StringsOfWrap(names: seq<string>)
    ensures Strings(Wrap(names)) == names
  {
    if names != [] {
      assert Wrap(names)[1..] == Wrap(names[1..]);
      StringsOfWrap(names[1..]);
    }
  }

  /** Of a list only the strings are read. */
  lemma {:induction false} StringsAreRead(entries: seq<Option<string>>, name: string)
    ensures name in Strings(entries) <==> Some(name) in entries
  {
    if entries != [] {
      StringsAreRead(entries[1..], name);
      assert entries == [entries[0]] + entries[1..];
    }
  }

  /** The previous token is written only together with its expiry. */
  function Serialise(c: Credential): Blob {
    if c.previousToken.Some? && c.previousExpiresAt.Some? then
      Fields(Some(c.token), Some(Wrap(c.scopes)), c.previousToken, c.previousExpiresAt)
    else Fields(Some(c.token), Some(Wrap(c.scopes)), None, None)
  }

  function Deserialise(actor: string, blob: Blob): Option<Credential> {
    if !blob.Fields? || blob.token.None? || blob.scopes.None? then None
    else Some(Credential(actor, blob.token.value, Strings(blob.scopes.value), blob.previousToken, blob.previousExpiresAt))
  }

  /** A credential reads back unchanged unless it has half of a grace token; what is active never changes. */
  lemma CredentialReadsBackIff(c: Credential, now: real)
    ensures Deserialise(c.actor, Serialise(c)).Some?
    ensures Deserialise(c.actor, Serialise(c)) == Some(c) <==> (c.previousToken.Some? <==> c.previousExpiresAt.Some?)
    ensures var d := Deserialise(c.actor, Serialise(c)).value;
            d.token == c.token && d.scopes == c.scopes && d.PreviousIsActive(now) == c.PreviousIsActive(now)
  {
    StringsOfWrap(c.scopes);
  }

  // ---- sorted lists of names

  /** Python's order on strings: code point by code point, a prefix first. */
  predicate NotAfter(a: string, b: string) {
    a == "" || (b != "" && (a[0] < b[0] || (a[0] == b[0] && NotAfter(a[1..], b[1..]))))
  }

  lemma {:induction false} OrderIsTotal(a: string, b: string)
    ensures NotAfter(a, b) || NotAfter(b, a)
    ensures NotAfter(a, b) && NotAfter(b, a) ==> a == b
    ensures NotAfter(a, a)
    decreases |a|
  {
    if a != "" {
      OrderIsTotal(a[1..], a[1..]);
      if b != "" && a[0] == b[0] {
        OrderIsTotal(a[1..], b[1..]);
        assert a == [a[0]] + a[1..] && b == [b[0]] + b[1..];
      }
    }
  }

  lemma {:induction false} OrderIsTransitive(a: string, b: string, c: string)
    requires NotAfter(a, b) && NotAfter(b, c)
    ensures NotAfter(a, c)
    decreases |a|
  {
    if a != "" && a[0] == b[0] == c[0] {
      OrderIsTransitive(a[1..], b[1..], c[1..]);
    }
  }

  predicate Ascending(names: seq<string>) {
    forall i, j :: 0 <= i < j < |names| ==> NotAfter(names[i], names[j])
  }

  predicate NoRepeats(names: seq<string>) {
    forall i, j :: 0 <= i < j < |names| ==> names[i] != names[j]
  }

  function Insert(name: string, names: seq<string>): seq<string> {
    if names == [] || NotAfter(name, names[0]) then [name] + names else [names[0]] + Insert(name, names[1..])
  }

  /** `sorted(names)`. */
  function Sorted(names: seq<string>): seq<string> {
    if names == [] then [] else Insert(names[0], Sorted(names[1..]))
  }

  /** `sorted(set(names))`. */
  function SortedSet(names: seq<string>): seq<string> {
    if names == [] then []
    else if names[0] in names[1..] then SortedSet(names[1..])
    else Insert(names[0], SortedSet(names[1..]))
  }

  lemma {:induction false} InsertCounts(name: string, names: seq<string>)
    ensures multiset(Insert(name, names)) == multiset(names) + multiset{name}
    ensures forall n :: n in Insert(name, names) <==> n == name || n in names
  {
    if names != [] && !NotAfter(name, names[0]) {
      InsertCounts(name, names[1..]);
      assert names == [names[0]] + names[1..];
    }
  }

  lemma {:induction false} InsertKeeps(name: string, names: seq<string>)
    requires Ascending(names)
    ensures Ascending(Insert(name, names))
  {
    if names == [] {
    } else if NotAfter(name, names[0]) {
      forall j | 0 <= j < |names| ensures NotAfter(name, names[j]) {
        if j > 0 {
          OrderIsTransitive(name, names[0], names[j]);
        }
      }
    } else {
      var rest := Insert(name, names[1..]);
      InsertKeeps(name, names[1..]);
      InsertCounts(name, names[1..]);
      OrderIsTotal(name, names[0]);
      forall j | 0 <= j < |rest| ensures NotAfter(names[0], rest[j]) {
        assert rest[j] in rest;
      }
    }
  }

  lemma {:induction false} SortedFacts(names: seq<string>)
    ensures Ascending(Sorted(names)) && multiset(Sorted(names)) == multiset(names)
    ensures forall n :: n in Sorted(names) <==> n in names
  {
    if names != [] {
      SortedFacts(names[1..]);
      InsertKeeps(names[0], Sorted(names[1..]));
      InsertCounts(names[0], Sorted(names[1..]));
      assert names == [names[0]] + names[1..];
    }
  }

  lemma {:induction false} InsertAddsNoRepeat(name: string, names: seq<string>)
    requires Ascending(names) && NoRepeats(names) && name !in names
    ensures NoRepeats(Insert(name, names))
  {
    if names != [] && !NotAfter(name, names[0]) {
      InsertCounts(name, names[1..]);
      InsertAddsNoRepeat(name, names[1..]);
      var rest := Insert(name, names[1..]);
      forall j | 0 <= j < |rest| ensures rest[j] != names[0] {
        assert rest[j] in rest;
      }
    }
  }

  lemma {:induction false} SortedSetFacts(names: seq<string>)
    ensures Ascending(SortedSet(names)) && NoRepeats(SortedSet(names))
    ensures forall n :: n in SortedSet(names) <==> n in names
  {
    if names != [] {
      SortedSetFacts(names[1..]);
      assert names == [names[0]] + names[1..];
      if names[0] !in names[1..] {
        InsertKeeps(names[0], SortedSet(names[1..]));
        InsertCounts(names[0], SortedSet(names[1..]));
        InsertAddsNoRepeat(names[0], SortedSet(names[1..]));
      }
    }
  }

  /** Sorted lists without repeats are determined by their members, so the manifest does not depend on set order. */
  lemma {:induction false} AscendingIsUnique(a: seq<string>, b: seq<string>)
    requires Ascending(a) && NoRepeats(a) && Ascending(b) && NoRepeats(b)
    requires forall n :: n in a <==> n in b
    ensures a == b
  {
    if a == [] {
      assert forall i :: 0 <= i < |b| ==> b[i] in b;
    } else {
      assert a[0] in b;
      assert b[0] in a;
      OrderIsTotal(a[0], b[0]);
      assert a == [a[0]] + a[1..] && b == [b[0]] + b[1..];
      TailsShareMembers(a, b);
      AscendingIsUnique(a[1..], b[1..]);
    }
  }

  lemma TailsShareMembers(a: seq<string>, b: seq<string>)
    requires a != [] && b != [] && NoRepeats(a) && NoRepeats(b) && a[0] == b[0]
    requires forall n :: n in a <==> n in b
    ensures forall n :: n in a[1..] <==> n in b[1..]
  {
    forall n ensures n in a[1..] <==> n in b[1..] {
      assert n in a[1..] <==> n in a && n != a[0];
      assert n in b[1..] <==> n in b && n != b[0];
    }
  }

  lemma SortedSetIsCanonical(a: seq<string>, b: seq<string>)
    requires forall n :: n in a <==> n in b
    ensures SortedSet(a) == SortedSet(b)
  {
    SortedSetFacts(a);
    SortedSetFacts(b);
    AscendingIsUnique(SortedSet(a), SortedSet(b));
  }

  // ---- the store operations

  function ReadManifest(items: Items): seq<string> {
    if MANIFEST in items && items[MANIFEST].Names? then Strings(items[MANIFEST].entries) else []
  }

  function WriteManifest(items: Items, actors: seq<string>): Items {
    items[MANIFEST := Names(Wrap(SortedSet(actors)))]
  }

  /** Writing a credential, for an actor that is not reserved. */
  function WithCredential(items: Items, c: Credential): Items {
    var stored := items[c.actor := Serialise(c)];
    var actors := ReadManifest(stored);
    if c.actor in actors then stored else WriteManifest(stored, actors + [c.actor])
  }

  function Without(names: seq<string>, name: string): seq<string> {
    if names == [] then []
    else (if names[0] == name then [] else [names[0]]) + Without(names[1..], name)
  }

  lemma {:induction false} WithoutFacts(names: seq<string>, name: string)
    ensures forall n :: n in Without(names, name) <==> n in names && n != name
  {
    if names != [] {
      WithoutFacts(names[1..], name);
    }
  }

  function WithoutCredential(items: Items, actor: string): Items {
    var stored := items - {actor};
    WriteManifest(stored, Without(ReadManifest(stored), actor))
  }

  function GetCredential(items: Items, actor: string): Option<Credential> {
    if actor == MANIFEST || actor !in items then None else Deserialise(actor, items[actor])
  }

  function ListActors(items: Items): seq<string> {
    Sorted(ReadManifest(items))
  }

  function Parsed(items: Items, actors: seq<string>): seq<Credential> {
    if actors == [] then []
    else
      var c := GetCredential(items, actors[|actors| - 1]);
      Parsed(items, actors[..|actors| - 1]) + (if c.Some? then [c.value] else [])
  }

  function ListCredentials(items: Items): seq<Credential> {
    Parsed(items, ListActors(items))
  }

  class Keychain {
    var items: Items

    constructor ()
      ensures items == map[]
    {
      items := map[];
    }

    method SetCredential(c: Credential) returns (r: Result<(), KeychainError>)
      modifies this
      ensures r == if c.actor == "_actors_" then Err(ReservedActor) else Ok(())
      ensures items == if c.actor == "_actors_" then old(items) else WithCredential(old(items), c)
    {
      if c.actor == MANIFEST {
        return Err(ReservedActor);
      }
      items := items[c.actor := Serialise(c)];
      var actors := ReadManifest(items);
      if c.actor !in actors {
        actors := actors + [c.actor];
        items := WriteManifest(items, actors);
      }
      r := Ok(());
    }

    method DeleteCredential(actor: string) returns (r: Result<(), KeychainError>)
      modifies this
      ensures r == if actor == "_actors_" then Err(ReservedActor) else Ok(())
      ensures items == if actor == "_actors_" then old(items) else WithoutCredential(old(items), actor)
    {
      if actor == MANIFEST {
        return Err(ReservedActor);
      }
      items := items - {actor};
      var actors := Without(ReadManifest(items), actor);
      items := WriteManifest(items, actors);
      r := Ok(());
    }

    method ListAll() returns (out: seq<Credential>)
      ensures out == ListCredentials(items)
    {
      out := [];
      var actors := ListActors(items);
      for i := 0 to |actors|
        invariant out == Parsed(items, actors[..i])
      {
        assert actors[..i + 1][..i] == actors[..i];
        var c := GetCredential(items, actors[i]);
        if c.Some? {
          out := out + [c.value];
        }
      }
      assert actors[..|actors|] == actors;
    }
  }

  // ---- the manifest lists exactly the stored actors

  /** Actor by actor: listed if and only if stored. */
  predicate AgreesOn(items: Items, actor: string) {
    actor in ReadManifest(items) <==> actor in items
  }

  lemma ManifestReadsBack(items: Items, actors: seq<string>, actor: string)
    ensures actor in ReadManifest(WriteManifest(items, actors)) <==> actor in actors
  {
    StringsOfWrap(SortedSet(actors));
    SortedSetFacts(actors);
  }

  /** A completed write makes its own actor agree whatever the store held before, and disturbs no other actor. */
  lemma SetAgrees(items: Items, c: Credential, actor: string)
    requires c.actor != MANIFEST && actor != MANIFEST
    requires actor == c.actor || AgreesOn(items, actor)
    ensures AgreesOn(WithCredential(items, c), actor)
  {
    var stored := items[c.actor := Serialise(c)];
    var actors := ReadManifest(stored);
    ManifestReadsBack(stored, actors + [c.actor], actor);
  }

  lemma DeleteAgrees(items: Items, deleted: string, actor: string)
    requires deleted != MANIFEST && actor != MANIFEST
    requires actor == deleted || AgreesOn(items, actor)
    ensures AgreesOn(WithoutCredential(items, deleted), actor)
  {
    var stored := items - {deleted};
    ManifestReadsBack(stored, Without(ReadManifest(stored), deleted), actor);
    WithoutFacts(ReadManifest(stored), deleted);
  }

  /** A store operation, complete or cut off between its two writes. */
  datatype Op = Set(c: Credential) | Delete(actor: string) | SetCut(c: Credential) | DeleteCut(actor: string)

  function ActorOf(op: Op): string {
    if op.Set? || op.SetCut? then op.c.actor else op.actor
  }

  predicate Complete(op: Op) {
    op.Set? || op.Delete?
  }

  function Step(items: Items, op: Op): Items {
    if ActorOf(op) == MANIFEST then items
    else
      match op
      case Set(c) => WithCredential(items, c)
      case Delete(actor) => WithoutCredential(items, actor)
      case SetCut(c) => items[c.actor := Serialise(c)]
      case DeleteCut(actor) => items - {actor}
  }

  function Run(items: Items, ops: seq<Op>): Items {
    if ops == [] then items else Step(Run(items, ops[..|ops| - 1]), ops[|ops| - 1])
  }

  /** The last operation on an actor decides: if there is none, the start does. */
  predicate LastWasComplete(ops: seq<Op>, actor: string, atStart: bool) {
    if ops == [] then atStart
    else if ActorOf(ops[|ops| - 1]) == actor then Complete(ops[|ops| - 1])
    else LastWasComplete(ops[..|ops| - 1], actor, atStart)
  }

  /**
   * Over any run, interrupted operations included, the manifest lists an actor exactly when it is stored, provided the
   * last operation on that actor was not itself interrupted; so repeating an interrupted operation repairs it.
   */
  lemma {:induction false} ManifestListsStoredActors(items: Items, ops: seq<Op>, actor: string)
    requires actor != MANIFEST && LastWasComplete(ops, actor, AgreesOn(items, actor))
    ensures AgreesOn(Run(items, ops), actor)
    decreases |ops|
  {
    if ops != [] {
      var op, before := ops[|ops| - 1], ops[..|ops| - 1];
      if ActorOf(op) != actor {
        ManifestListsStoredActors(items, before, actor);
      }
      if ActorOf(op) != MANIFEST && op.Set? {
        SetAgrees(Run(items, before), op.c, actor);
      } else if ActorOf(op) != MANIFEST && op.Delete? {
        DeleteAgrees(Run(items, before), op.actor, actor);
      }
    }
  }

  lemma {:induction false} ParsedFacts(items: Items, actors: seq<string>, c: Credential)
    ensures c in Parsed(items, actors) <==> c.actor in actors && GetCredential(items, c.actor) == Some(c)
    decreases |actors|
  {
    if actors != [] {
      ParsedFacts(items, actors[..|actors| - 1], c);
      assert actors == actors[..|actors| - 1] + [actors[|actors| - 1]];
    }
  }

  /** Where manifest and store agree on an actor, enumeration finds its credential if and only if a direct read does. */
  lemma ListingIsComplete(items: Items, c: Credential)
    requires c.actor != MANIFEST && AgreesOn(items, c.actor)
    ensures c in ListCredentials(items) <==> GetCredential(items, c.actor) == Some(c)
  {
    ParsedFacts(items, ListActors(items), c);
    SortedFacts(ReadManifest(items));
  }

  /** An operation changes what is read for its own actor only. */
  lemma StepsAreLocal(items: Items, op: Op, actor: string)
    requires actor != ActorOf(op)
    ensures GetCredential(Step(items, op), actor) == GetCredential(items, actor)
  {
  }

  lemma StepIsRead(items: Items, op: Op)
    requires ActorOf(op) != MANIFEST
    ensures GetCredential(Step(items, op), ActorOf(op))
            == (if op.Set? || op.SetCut? then Deserialise(op.c.actor, Serialise(op.c)) else None)
  {
  }
}
