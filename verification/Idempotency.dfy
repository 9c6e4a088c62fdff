/** The idempotency middleware: request buffering, the lazily pruned response table, and runs of requests over it. */
module Idempotency {
  import opened Prelude
  import opened Text

  const TTL: int := 24 * 60 * 60

  /** SHA-256 taken as injective: a digest is its preimage. */
  datatype Digest = Sha256(preimage: seq<Byte>)

  datatype Header = Header(name: string, value: string)

  datatype Response = Response(status: int, headers: seq<Header>, body: seq<Byte>)

  datatype Row = Row(digest: Digest, response: Response, createdAt: int)

  // ---- buffering and replaying the request body

  datatype Message = BodyChunk(data: seq<Byte>, more: bool) | Disconnect

  /** The message ends the draining of a request. */
  predicate Final(m: Message) {
    m.Disconnect? || !m.more
  }

  /** The buffered body, and the message other than a body chunk that ended it, if one did. */
  function Drained(ms: seq<Message>): (seq<Byte>, seq<Message>) {
    if ms == [] then ([], [])
    else match ms[0]
      case Disconnect => ([], [Disconnect])
      case BodyChunk(data, more) =>
        if !more then (data, [])
        else (data + Drained(ms[1..]).0, Drained(ms[1..]).1)
  }

  lemma DrainFrom(ms: seq<Message>, i: nat)
    requires i < |ms|
    ensures Drained(ms[i..]) == match ms[i]
                                case Disconnect => ([], [ms[i]])
                                case BodyChunk(data, more) =>
                                  if more then (data + Drained(ms[i + 1..]).0, Drained(ms[i + 1..]).1) else (data, [])
  {
    assert ms[i..][1..] == ms[i + 1..];
  }

  /** `_drain_body`; without a final message it would wait forever. */
  method DrainBody(ms: seq<Message>) returns (body: seq<Byte>, extras: seq<Message>)
    requires exists i :: 0 <= i < |ms| && Final(ms[i])
    ensures (body, extras) == Drained(ms)
  {
    body, extras := [], [];
    var i := 0;
    assert ms[0..] == ms && body + Drained(ms).0 == Drained(ms).0;
    while true
      invariant 0 <= i <= |ms|
      invariant exists j :: i <= j < |ms| && Final(ms[j])
      invariant Drained(ms) == (body + Drained(ms[i..]).0, Drained(ms[i..]).1)
      decreases |ms| - i
    {
      var m := ms[i];
      DrainFrom(ms, i);
      match m {
        case BodyChunk(data, more) =>
          Joins(body, data, Drained(ms[i + 1..]).0);
          body := body + data;
          if !more {
            return body, [];
          }
        case Disconnect =>
          Joins(body, [], []);
          return body, [m];
      }
      i := i + 1;
    }
  }

  lemma Joins(a: seq<Byte>, b: seq<Byte>, c: seq<Byte>)
    ensures a + (b + c) == (a + b) + c && a + [] == a
  {
  }

  /** The `n`-th message that the inner application receives. */
  function Replayed(body: seq<Byte>, extras: seq<Message>, n: nat): Message {
    if n == 0 then BodyChunk(body, false)
    else if n - 1 < |extras| then extras[n - 1]
    else Disconnect
  }

  class Replayer {
    const body: seq<Byte>
    const extras: seq<Message>
    var sentBody: bool
    var next: nat

    constructor (body: seq<Byte>, extras: seq<Message>)
      ensures this.body == body && this.extras == extras && Count() == 0 && Valid()
    {
      this.body, this.extras := body, extras;
      sentBody, next := false, 0;
    }

    predicate Valid()
      reads this
    {
      next <= |extras| && (!sentBody ==> next == 0)
    }

    /** How many messages were served, up to the endless tail of disconnects. */
    function Count(): nat
      reads this
    {
      if sentBody then next + 1 else 0
    }

    method Replay() returns (m: Message)
      requires Valid()
      modifies this
      ensures Valid() && m == Replayed(body, extras, old(Count()))
      ensures Count() == if old(Count()) <= |extras| then old(Count()) + 1 else old(Count())
    {
      if !sentBody {
        sentBody := true;
        return BodyChunk(body, false);
      }
      if next < |extras| {
        m := extras[next];
        next := next + 1;
      } else {
        m := Disconnect;
      }
    }
  }

  /** The data of the body chunks, end to end. */
  function Data(ms: seq<Message>): seq<Byte> {
    if ms == [] then []
    else (if ms[0].BodyChunk? then ms[0].data else []) + Data(ms[1..])
  }

  /** The first message that ends the draining is the one at `i`. */
  predicate FinalAt(ms: seq<Message>, i: nat) {
    i < |ms| && Final(ms[i]) && forall j :: 0 <= j < i ==> !Final(ms[j])
  }

  /** The messages that the inner application receives, as far as they are listed. */
  predicate IsReplay(ms: seq<Message>, replayed: seq<Message>) {
    replayed != []
    && forall n :: 0 <= n < |replayed| ==> replayed[n] == Replayed(Drained(ms).0, Drained(ms).1, n)
  }

  /** Draining buffers the data up to the first final message, and keeps that message only if it is a disconnect. */
  lemma {:induction false} DrainedUpToFinal(ms: seq<Message>, i: nat)
    requires FinalAt(ms, i)
    ensures Drained(ms) == (Data(ms[..i + 1]), if ms[i].BodyChunk? then [] else [ms[i]])
  {
    assert ms[..i + 1][0] == ms[0];
    if i == 0 {
      assert ms[..i + 1][1..] == [];
      match ms[0] {
        case BodyChunk(data, _) =>
          assert data + [] == data;
        case Disconnect =>
          assert Data(ms[..i + 1]) == [] + Data([]) == [];
      }
    } else {
      assert !Final(ms[0]);
      assert FinalAt(ms[1..], i - 1) by {
        assert forall j :: 0 <= j < i - 1 ==> ms[1..][j] == ms[j + 1];
      }
      DrainedUpToFinal(ms[1..], i - 1);
      assert ms[..i + 1][1..] == ms[1..][..i];
    }
  }

  /** The inner application drains exactly the data that came before the first final message, always as a complete body.
      So it sees what the client sent exactly when that message is the last chunk of the body; a disconnect in its
      place makes a cut body look whole. */
  lemma ReplayIsFaithfulIff(ms: seq<Message>, i: nat, replayed: seq<Message>)
    requires FinalAt(ms, i) && IsReplay(ms, replayed)
    ensures Drained(replayed) == (Data(ms[..i + 1]), [])
    ensures Drained(replayed) == Drained(ms) <==> ms[i].BodyChunk?
  {
    DrainedUpToFinal(ms, i);
    assert replayed[0] == BodyChunk(Drained(ms).0, false);
  }

  /** A body cut after its first chunk, and the replay that passes it off as whole. */
  lemma CutBodyLooksWhole() returns (ms: seq<Message>, replayed: seq<Message>)
    ensures ms == [BodyChunk([1], true), Disconnect] && FinalAt(ms, 1) && IsReplay(ms, replayed)
    ensures Drained(ms) == ([1], [Disconnect]) && Drained(replayed) == ([1], [])
  {
    ms, replayed := [BodyChunk([1], true), Disconnect], [BodyChunk([1], false)];
    assert ms[..2] == [BodyChunk([1], true), Disconnect];
    assert Data([Disconnect]) == [] by {
      assert [Disconnect][1..] == [];
    }
    assert ms[..2][1..] == [Disconnect];
    assert Data(ms[..2]) == [1];
    DrainedUpToFinal(ms, 1);
    ReplayIsFaithfulIff(ms, 1, replayed);
  }

  // ---- stored responses

  function LowerChar(c: char): char {
    if 'A' <= c <= 'Z' then (c as int + 32) as char else c
  }

  function Lower(s: string): string {
    seq(|s|, i requires 0 <= i < |s| => LowerChar(s[i]))
  }

  predicate Stripped(h: Header) {
    var n := Lower(h.name);
    n == "content-length" || n == "x-request-id" || n == "x-bridge-version"
  }

  /** The headers that are not dropped, in order. */
  function Filtered(hs: seq<Header>, drop: Header -> bool): (kept: seq<Header>)
    ensures forall h :: h in kept <==> h in hs && !drop(h)
  {
    if hs == [] then []
    else if drop(hs[0]) then Filtered(hs[1..], drop)
    else [hs[0]] + Filtered(hs[1..], drop)
  }

  function KeptHeaders(hs: seq<Header>): seq<Header> {
    Filtered(hs, Stripped)
  }

  /** `_send_cached`. */
  function ReplayOf(stored: Response): Response {
    stored.(headers := stored.headers
                       + [Header("x-idempotency-replay", "true"), Header("content-length", Decimal(|stored.body|))])
  }

  /** A replayed response has one `content-length`, and it is the length of the replayed body. */
  lemma ReplayHasOneLength(original: Response, i: nat)
    requires i < |ReplayOf(original.(headers := KeptHeaders(original.headers))).headers|
    requires Lower(ReplayOf(original.(headers := KeptHeaders(original.headers))).headers[i].name) == "content-length"
    ensures var r := ReplayOf(original.(headers := KeptHeaders(original.headers)));
            i == |r.headers| - 1 && PyInt(r.headers[i].value) == Some(|r.body|) && r.body == original.body
  {
    var kept := KeptHeaders(original.headers);
    PyIntOfDecimal(|original.body|);
    forall k | 0 <= k < |kept| ensures Lower(kept[k].name) != "content-length" {
      assert kept[k] in kept;
    }
    assert Lower("x-idempotency-replay")[0] == 'x';
  }

  /** The name is this one in lower case or with any ASCII letters capitalised. */
  predicate Named(name: string, lower: string) {
    && |name| == |lower|
    && forall i :: 0 <= i < |name| ==>
         name[i] == lower[i] || ('a' <= lower[i] <= 'z' && name[i] as int == lower[i] as int - 32)
  }

  /** One of the three headers that are not replayed. */
  predicate Dropped(h: Header) {
    Named(h.name, "content-length") || Named(h.name, "x-request-id") || Named(h.name, "x-bridge-version")
  }

  lemma LowerIs(name: string, lower: string)
    requires forall i :: 0 <= i < |lower| ==> lower[i] == '-' || 'a' <= lower[i] <= 'z'
    ensures Lower(name) == lower <==> Named(name, lower)
  {
    if Named(name, lower) {
      assert forall i :: 0 <= i < |name| ==> Lower(name)[i] == lower[i];
    } else if Lower(name) == lower {
      forall i | 0 <= i < |name|
        ensures name[i] == lower[i] || ('a' <= lower[i] <= 'z' && name[i] as int == lower[i] as int - 32)
      {
        assert Lower(name)[i] == LowerChar(name[i]) == lower[i];
      }
    }
  }

  lemma DroppedIffStripped(h: Header)
    ensures Dropped(h) <==> Stripped(h)
  {
    LowerIs(h.name, "content-length");
    LowerIs(h.name, "x-request-id");
    LowerIs(h.name, "x-bridge-version");
  }

  /** `at` lists the positions of the headers that are kept, in order and each once. */
  ghost predicate KeptAt(hs: seq<Header>, drop: Header -> bool, at: seq<nat>) {
    && (forall k :: 0 <= k < |at| ==> at[k] < |hs|)
    && (forall j, k :: 0 <= j < k < |at| ==> at[j] < at[k])
    && (forall n :: 0 <= n < |hs| ==> (n in at <==> !drop(hs[n])))
  }

  /** `kept` holds the headers at these positions. */
  ghost predicate Picks(hs: seq<Header>, at: seq<nat>, kept: seq<Header>) {
    |kept| == |at| && forall k :: 0 <= k < |at| ==> at[k] < |hs| && kept[k] == hs[at[k]]
  }

  lemma KeptSnoc(hs: seq<Header>, last: Header, drop: Header -> bool, at: seq<nat>)
    requires KeptAt(hs, drop, at)
    ensures KeptAt(hs + [last], drop, if drop(last) then at else at + [|hs|])
  {
    assert forall n :: 0 <= n < |hs| ==> (hs + [last])[n] == hs[n];
    assert |hs| !in at;
  }

  lemma PicksSnoc(hs: seq<Header>, last: Header, at: seq<nat>, kept: seq<Header>)
    requires Picks(hs, at, kept)
    ensures Picks(hs + [last], at, kept) && Picks(hs + [last], at + [|hs|], kept + [last])
  {
  }

  lemma {:induction false} KeptPositions(hs: seq<Header>, drop: Header -> bool) returns (at: seq<nat>)
    ensures KeptAt(hs, drop, at) && Picks(hs, at, Filtered(hs, drop))
  {
    if hs == [] {
      at := [];
    } else {
      var init, last := hs[..|hs| - 1], hs[|hs| - 1];
      assert hs == init + [last];
      var before := KeptPositions(init, drop);
      FilteredSnoc(init, last, drop);
      KeptSnoc(init, last, drop, before);
      PicksSnoc(init, last, before, Filtered(init, drop));
      at := if drop(last) then before else before + [|init|];
    }
  }

  lemma {:induction false} FilteredSnoc(hs: seq<Header>, last: Header, drop: Header -> bool)
    ensures Filtered(hs + [last], drop) == Filtered(hs, drop) + (if drop(last) then [] else [last])
  {
    if hs == [] {
      assert ([] + [last])[1..] == [];
    } else {
      assert (hs + [last])[1..] == hs[1..] + [last];
      FilteredSnoc(hs[1..], last, drop);
    }
  }

  /** The positions of all headers but the three, and the stored headers at them. */
  lemma KeptHeadersAt(hs: seq<Header>) returns (at: seq<nat>)
    ensures KeptAt(hs, Dropped, at) && Picks(hs, at, KeptHeaders(hs))
  {
    at := KeptPositions(hs, Stripped);
    forall n | 0 <= n < |hs| ensures n in at <==> !Dropped(hs[n]) {
      DroppedIffStripped(hs[n]);
    }
  }

  // ---- the table

  type Table = map<string, Row>

  datatype Answer = Miss | Replay(response: Response) | Conflict

  function Pruned(t: Table, now: int): Table {
    map k | k in t && t[k].createdAt >= now - TTL :: t[k]
  }

  function Decide(row: Option<Row>, digest: Digest): Answer {
    if row.None? then Miss
    else if row.value.digest != digest then Conflict
    else Replay(ReplayOf(row.value.response))
  }

  function Find(t: Table, key: string): Option<Row> {
    if key in t then Some(t[key]) else None
  }

  predicate Cacheable(status: Option<int>) {
    status.Some? && 200 <= status.value < 300
  }

  class Middleware {
    var table: Table

    constructor ()
      ensures table == map[]
    {
      table := map[];
    }

    /** The part of `__call__` before the inner application runs. */
    method Begin(key: string, body: seq<Byte>, now: int) returns (answer: Answer)
      modifies this
      ensures table == Pruned(old(table), now)
      ensures answer == Decide(Find(table, key), Sha256(body))
    {
      var cutoff := now - TTL;
      table := table - (set k | k in table && table[k].createdAt < cutoff);
      assert table == Pruned(old(table), now);
      if key in table {
        var row := table[key];
        if row.digest != Sha256(body) {
          return Conflict;
        }
        return Replay(ReplayOf(row.response));
      }
      answer := Miss;
    }

    /** The part after it: only 2xx responses are stored, under the header value alone. */
    method Finish(key: string, body: seq<Byte>, status: Option<int>, headers: seq<Header>, reply: seq<Byte>, now: int)
      modifies this
      ensures table == if Cacheable(status) then old(table)[key := StoredRow(body, status.value, headers, reply, now)]
                       else old(table)
    {
      if status.Some? && 200 <= status.value < 300 {
        var filtered := KeptHeaders(headers);
        table := table[key := Row(Sha256(body), Response(status.value, filtered, reply), now)];
      }
    }
  }

  function StoredRow(body: seq<Byte>, status: int, headers: seq<Header>, reply: seq<Byte>, now: int): Row {
    Row(Sha256(body), Response(status, KeptHeaders(headers), reply), now)
  }

  // ---- runs of requests

  /** A request begins, or the inner application of the request begun at step `request` ends. `stored` is false when
      the insert failed; a status of `None` is an application that raised. */
  datatype Event =
    | Begins(key: string, body: seq<Byte>, now: int)
    | Ends(request: nat, status: Option<int>, headers: seq<Header>, reply: seq<Byte>, stored: bool, now: int)

  datatype Request = Request(key: string, body: seq<Byte>)

  datatype Entry = Entry(key: string, row: Row)

  /** The table, the requests whose application runs, and the full log of stores, which no step reads. */
  datatype State = State(table: Table, running: map<nat, Request>, log: seq<Entry>)

  function Logged(s: State, e: Event): seq<Entry>
    requires e.Ends? ==> e.request in s.running
  {
    if e.Ends? && Cacheable(e.status) && e.stored then
      var r := s.running[e.request];
      s.log + [Entry(r.key, StoredRow(r.body, e.status.value, e.headers, e.reply, e.now))]
    else s.log
  }

  function Step(s: State, n: nat, e: Event): State
    requires e.Ends? ==> e.request in s.running
  {
    match e
    case Begins(key, body, now) =>
      var t := Pruned(s.table, now);
      State(t, if Decide(Find(t, key), Sha256(body)).Miss? then s.running[n := Request(key, body)] else s.running, s.log)
    case Ends(request, status, headers, reply, stored, now) =>
      var r := s.running[request];
      State(if Cacheable(status) && stored then s.table[r.key := StoredRow(r.body, status.value, headers, reply, now)]
            else s.table,
            s.running - {request}, Logged(s, e))
  }

  /** Event `i` takes the table from `ss[i]` to `ss[i + 1]`. */
  ghost predicate StepAt(ss: seq<State>, es: seq<Event>, i: nat) {
    && i < |es| && i + 1 < |ss| && (es[i].Ends? ==> es[i].request in ss[i].running)
    && ss[i + 1] == Step(ss[i], i, es[i])
  }

  /** Events at a nondecreasing clock, from an empty table; what ends has begun. */
  ghost predicate IsRun(ss: seq<State>, es: seq<Event>) {
    && |ss| == |es| + 1 && ss[0] == State(map[], map[], [])
    && (forall i :: 0 <= i < |es| && es[i].Ends? ==> es[i].request in ss[i].running)
    && (forall i :: 0 <= i < |es| ==> StepAt(ss, es, i))
    && (forall i, j :: 0 <= i < j < |es| ==> es[i].now <= es[j].now)
  }

  /** What the middleware answers to the request that begins at step `i`. */
  function AnswerAt(ss: seq<State>, es: seq<Event>, i: nat): Answer
    requires i < |es| && i < |ss| && es[i].Begins?
  {
    Decide(Find(Pruned(ss[i].table, es[i].now), es[i].key), Sha256(es[i].body))
  }

  /** The latest store under a key in the full log. */
  function Latest(log: seq<Entry>, key: string): Option<Row> {
    if log == [] then None
    else if log[|log| - 1].key == key then Some(log[|log| - 1].row)
    else Latest(log[..|log| - 1], key)
  }

  /** The latest store under a key, if it is no older than the time to live. */
  function Live(log: seq<Entry>, key: string, now: int): Option<Row> {
    var row := Latest(log, key);
    if row.Some? && row.value.createdAt >= now - TTL then row else None
  }

  /** The table lags the log only by rows that have expired. */
  ghost predicate Agrees(s: State, clock: int) {
    forall key :: Find(s.table, key) == Latest(s.log, key)
                  || (Find(s.table, key).None? && Latest(s.log, key).Some?
                      && Latest(s.log, key).value.createdAt < clock - TTL)
  }

  lemma {:induction false} TableAgreesWithLog(ss: seq<State>, es: seq<Event>, i: nat, clock: int)
    requires IsRun(ss, es) && i < |ss|
    requires i > 0 ==> es[i - 1].now <= clock
    ensures Agrees(ss[i], clock)
  {
    if i > 0 {
      TableAgreesWithLog(ss, es, i - 1, es[i - 1].now);
      assert StepAt(ss, es, i - 1);
      StepAgrees(ss[i - 1], i - 1, es[i - 1], clock);
    }
  }

  lemma StepAgrees(s: State, n: nat, e: Event, clock: int)
    requires e.Ends? ==> e.request in s.running
    requires Agrees(s, e.now) && e.now <= clock
    ensures Agrees(Step(s, n, e), clock)
  {
    var s' := Step(s, n, e);
    forall key ensures Find(s'.table, key) == Latest(s'.log, key)
                       || (Find(s'.table, key).None? && Latest(s'.log, key).Some?
                           && Latest(s'.log, key).value.createdAt < clock - TTL)
    {
      assert Find(s.table, key) == Latest(s.log, key) || Find(s.table, key).None?;
      if s'.log != s.log {
        assert s'.log[..|s'.log| - 1] == s.log;
      }
    }
  }

  /** The pruned table answers every request as the full log of stores would: with the latest stored response under
      the key that is not older than the time to live. */
  lemma AnswersLikeFullLog(ss: seq<State>, es: seq<Event>, i: nat)
    requires IsRun(ss, es) && i < |es| && es[i].Begins?
    ensures AnswerAt(ss, es, i) == Decide(Live(ss[i].log, es[i].key, es[i].now), Sha256(es[i].body))
  {
    TableAgreesWithLog(ss, es, i, es[i].now);
    assert Find(ss[i].table, es[i].key) == Latest(ss[i].log, es[i].key) || Find(ss[i].table, es[i].key).None?;
  }

  // ---- the log over a run

  lemma {:induction false} LogGrows(ss: seq<State>, es: seq<Event>, i: nat, k: nat)
    requires IsRun(ss, es) && i <= k < |ss|
    ensures |ss[i].log| <= |ss[k].log| && ss[k].log[..|ss[i].log|] == ss[i].log
    ensures forall n :: |ss[i].log| <= n < |ss[k].log| && i < |es| ==> es[i].now <= ss[k].log[n].row.createdAt
    decreases k
  {
    if i < k {
      assert StepAt(ss, es, k - 1);
      LogGrows(ss, es, i, k - 1);
    }
  }

  lemma {:induction false} LatestIsLast(log: seq<Entry>, key: string, n: nat)
    requires n < |log| && log[n].key == key
    ensures Latest(log, key).Some?
    ensures exists m :: n <= m < |log| && log[m].key == key && Latest(log, key) == Some(log[m].row)
  {
    if log[|log| - 1].key == key {
      assert log[|log| - 1].key == key;
    } else {
      LatestIsLast(log[..|log| - 1], key, n);
      var m :| n <= m < |log| - 1 && log[..|log| - 1][m].key == key
               && Latest(log[..|log| - 1], key) == Some(log[..|log| - 1][m].row);
      assert log[m].key == key;
    }
  }

  /** The store made at step `i` keeps its key answered until the time to live has passed. */
  lemma StoreIsRemembered(ss: seq<State>, es: seq<Event>, i: nat, b: nat)
    requires IsRun(ss, es) && i < b < |es| && es[i].Ends? && Cacheable(es[i].status) && es[i].stored
    requires es[b].Begins? && es[b].key == ss[i].running[es[i].request].key
    requires es[b].now - es[i].now <= TTL
    ensures Live(ss[b].log, es[b].key, es[b].now).Some?
  {
    var n := |ss[i].log|;
    assert StepAt(ss, es, i);
    LogGrows(ss, es, i + 1, b);
    LogGrows(ss, es, i, b);
    assert ss[i + 1].log == Logged(ss[i], es[i]);
    assert ss[b].log[n] == ss[i + 1].log[n];
    LatestIsLast(ss[b].log, es[b].key, n);
  }

  // ---- at most one execution per key and day

  /** No request begins while another one with its key is running. */
  ghost predicate NoOverlap(ss: seq<State>, es: seq<Event>) {
    forall i, r :: 0 <= i < |es| && i < |ss| && es[i].Begins? && r in ss[i].running ==> ss[i].running[r].key != es[i].key
  }

  /** A running request began at the step that names it, as a miss, and has run ever since. */
  lemma {:induction false} RunningSince(ss: seq<State>, es: seq<Event>, i: nat, r: nat)
    requires IsRun(ss, es) && i < |ss| && r in ss[i].running
    ensures r < i && es[r].Begins? && ss[i].running[r] == Request(es[r].key, es[r].body) && AnswerAt(ss, es, r).Miss?
    ensures forall k :: r < k <= i ==> r in ss[k].running && ss[k].running[r] == ss[i].running[r]
  {
    assert StepAt(ss, es, i - 1);
    if r in ss[i - 1].running && r != i - 1 {
      RunningSince(ss, es, i - 1, r);
    } else if r in ss[i - 1].running {
      RunningSince(ss, es, i - 1, r);
      assert false;
    }
  }

  /** A running request keeps later ones off its key. */
  lemma EarlierBlocks(ss: seq<State>, es: seq<Event>, k: nat, a: nat, b: nat)
    requires IsRun(ss, es) && NoOverlap(ss, es) && k < |ss| && a < b
    requires a in ss[k].running && b in ss[k].running
    ensures ss[k].running[a].key != ss[k].running[b].key
  {
    RunningSince(ss, es, k, a);
    RunningSince(ss, es, k, b);
    assert a in ss[b].running;
  }

  /** With successful stores and no overlap on a key, the inner application answers 2xx at most once per key in any 24
      hours: a request that is run after another 2xx answer under its key began more than 24 hours later. */
  lemma AtMostOnceADay(ss: seq<State>, es: seq<Event>, i: nat, j: nat)
    requires IsRun(ss, es) && NoOverlap(ss, es) && i < j < |es| && es[i].Ends? && es[j].Ends?
    requires Cacheable(es[i].status) && es[i].stored
    requires ss[i].running[es[i].request].key == ss[j].running[es[j].request].key
    ensures es[j].request < |es| && es[es[j].request].now - es[i].now > 24 * 60 * 60
  {
    var a, b := es[i].request, es[j].request;
    assert StepAt(ss, es, i);
    assert a !in ss[i + 1].running;
    RunningSince(ss, es, i, a);
    RunningSince(ss, es, j, b);
    if b < i {
      if a < b {
        EarlierBlocks(ss, es, i, a, b);
      } else if b < a {
        EarlierBlocks(ss, es, i, b, a);
      }
      assert false;
    }
    if es[b].now - es[i].now <= TTL {
      StoreIsRemembered(ss, es, i, b);
      AnswersLikeFullLog(ss, es, b);
      assert false;
    }
  }

  /** While a stored response lives, the key is answered without running the application: 409 for any other body, and
      the stored response for the same body. */
  lemma LiveKeyNeverRuns(ss: seq<State>, es: seq<Event>, i: nat, b: nat)
    requires IsRun(ss, es) && i < b < |es| && es[i].Ends? && Cacheable(es[i].status) && es[i].stored
    requires es[b].Begins? && es[b].key == ss[i].running[es[i].request].key && es[b].now - es[i].now <= TTL
    ensures var row := Live(ss[b].log, es[b].key, es[b].now);
            && row.Some?
            && (AnswerAt(ss, es, b).Conflict? <==> row.value.digest.preimage != es[b].body)
            && (AnswerAt(ss, es, b).Replay? <==> row.value.digest.preimage == es[b].body)
    ensures ss[b + 1].running == ss[b].running
  {
    assert StepAt(ss, es, b);
    StoreIsRemembered(ss, es, i, b);
    AnswersLikeFullLog(ss, es, b);
  }

  lemma {:induction false} LogOrigin(ss: seq<State>, es: seq<Event>, k: nat, n: nat) returns (i: nat)
    requires IsRun(ss, es) && k < |ss| && n < |ss[k].log|
    ensures i < k && es[i].Ends? && Cacheable(es[i].status) && es[i].stored && n == |ss[i].log|
    ensures var r := ss[i].running[es[i].request];
            ss[k].log[n] == Entry(r.key, StoredRow(r.body, es[i].status.value, es[i].headers, es[i].reply, es[i].now))
  {
    assert StepAt(ss, es, k - 1);
    if n < |ss[k - 1].log| {
      i := LogOrigin(ss, es, k - 1, n);
    } else {
      i := k - 1;
    }
  }

  lemma {:induction false} LatestIsLogged(log: seq<Entry>, key: string) returns (n: nat)
    requires Latest(log, key).Some?
    ensures n < |log| && log[n] == Entry(key, Latest(log, key).value)
  {
    if log[|log| - 1].key == key {
      n := |log| - 1;
    } else {
      n := LatestIsLogged(log[..|log| - 1], key);
    }
  }

  /** A replay repeats a real answer: some earlier request with the same key and the same body was run and answered
      2xx within the time to live, with the status and body now replayed. Its headers come back in order and each as
      often as it was sent, but for the three that are not kept, and after them the replay marker and the length. */
  lemma ReplayRepeatsAnAnswer(ss: seq<State>, es: seq<Event>, b: nat) returns (i: nat, at: seq<nat>)
    requires IsRun(ss, es) && b < |es| && es[b].Begins? && AnswerAt(ss, es, b).Replay?
    ensures i < b && es[i].Ends? && es[i].status.Some? && 200 <= es[i].status.value < 300
    ensures es[b].now - es[i].now <= 24 * 60 * 60
    ensures ss[i].running[es[i].request] == Request(es[b].key, es[b].body)
    ensures var r := AnswerAt(ss, es, b).response;
            r.status == es[i].status.value && r.body == es[i].reply
    ensures KeptAt(es[i].headers, Dropped, at)
    ensures var r := AnswerAt(ss, es, b).response;
            && |r.headers| == |at| + 2 && Picks(es[i].headers, at, r.headers[..|at|])
            && r.headers[|at|] == Header("x-idempotency-replay", "true")
            && r.headers[|at| + 1] == Header("content-length", Decimal(|es[i].reply|))
  {
    AnswersLikeFullLog(ss, es, b);
    var n := LatestIsLogged(ss[b].log, es[b].key);
    i := LogOrigin(ss, es, b, n);
    at := KeptHeadersAt(es[i].headers);
    var kept := KeptHeaders(es[i].headers);
    assert AnswerAt(ss, es, b).response.headers[..|at|] == kept;
  }

  lemma {:induction false} LatestUnchanged(ss: seq<State>, es: seq<Event>, b: nat, c: nat, key: string)
    requires IsRun(ss, es) && b <= c < |ss|
    requires forall i :: b <= i < c && es[i].Ends? && Cacheable(es[i].status) ==>
               ss[i].running[es[i].request].key != key
    ensures Latest(ss[c].log, key) == Latest(ss[b].log, key)
    decreases c
  {
    if b < c {
      assert StepAt(ss, es, c - 1);
      LatestUnchanged(ss, es, b, c - 1, key);
      if ss[c].log != ss[c - 1].log {
        assert ss[c].log[..|ss[c].log| - 1] == ss[c - 1].log;
      }
    }
  }

  /** Failures leave the key free: after a miss, and as long as no request under the key is answered 2xx, the next
      request under the key is a miss again. */
  lemma FailureLeavesKeyFree(ss: seq<State>, es: seq<Event>, b: nat, c: nat)
    requires IsRun(ss, es) && b < c < |es| && es[b].Begins? && es[c].Begins? && es[b].key == es[c].key
    requires AnswerAt(ss, es, b).Miss?
    requires forall i :: b <= i < c && es[i].Ends? && Cacheable(es[i].status) ==>
               ss[i].running[es[i].request].key != es[b].key
    ensures AnswerAt(ss, es, c).Miss?
  {
    LatestUnchanged(ss, es, b, c, es[b].key);
    AnswersLikeFullLog(ss, es, b);
    AnswersLikeFullLog(ss, es, c);
  }

  /** Within the time to live of a store, no later request under its key is answered 2xx, since none is run. */
  lemma OnlyAnswerOfItsDay(ss: seq<State>, es: seq<Event>, i: nat, b: nat, j: nat)
    requires IsRun(ss, es) && NoOverlap(ss, es) && i < j < b < |es|
    requires es[i].Ends? && Cacheable(es[i].status) && es[i].stored && es[b].now - es[i].now <= TTL
    requires es[j].Ends?
    ensures ss[j].running[es[j].request].key != ss[i].running[es[i].request].key
  {
    if ss[j].running[es[j].request].key == ss[i].running[es[i].request].key {
      AtMostOnceADay(ss, es, i, j);
      RunningSince(ss, es, j, es[j].request);
      assert false;
    }
  }

  /** What became of the store at step `i` by step `b`: for a day it is still the latest under its key. */
  lemma StoreIsLatest(ss: seq<State>, es: seq<Event>, i: nat, b: nat)
    requires IsRun(ss, es) && NoOverlap(ss, es) && i < b < |es|
    requires es[i].Ends? && Cacheable(es[i].status) && es[i].stored && es[b].now - es[i].now <= TTL
    ensures var r := ss[i].running[es[i].request];
            Latest(ss[b].log, r.key)
            == Some(StoredRow(r.body, es[i].status.value, es[i].headers, es[i].reply, es[i].now))
  {
    var r := ss[i].running[es[i].request];
    assert StepAt(ss, es, i);
    forall j | i + 1 <= j < b && es[j].Ends? && Cacheable(es[j].status)
      ensures ss[j].running[es[j].request].key != r.key
    {
      OnlyAnswerOfItsDay(ss, es, i, b, j);
    }
    LatestUnchanged(ss, es, i + 1, b, r.key);
    var row := StoredRow(r.body, es[i].status.value, es[i].headers, es[i].reply, es[i].now);
    assert ss[i + 1].log[|ss[i + 1].log| - 1] == Entry(r.key, row);
  }

  /** The cut body's price: when the body of a request was cut by a disconnect to `part` and the request was answered
      2xx, then for 24 hours a retry of it under the same key with the whole body, `part` and `rest`, is a conflict
      exactly when anything was cut off, and a replay of the answer to the part otherwise. */
  lemma CutBodyBlocksRetry(ss: seq<State>, es: seq<Event>, i: nat, b: nat, ms: seq<Message>, part: seq<Byte>,
                           rest: seq<Byte>)
    requires IsRun(ss, es) && NoOverlap(ss, es) && i < b < |es|
    requires es[i].Ends? && Cacheable(es[i].status) && es[i].stored && es[b].now - es[i].now <= TTL
    requires WasCut(ms, part) && ss[i].running[es[i].request].body == part
    requires es[b].Begins? && es[b].key == ss[i].running[es[i].request].key && es[b].body == part + rest
    ensures Drained(ms).0 == part
    ensures AnswerAt(ss, es, b).Conflict? <==> rest != []
    ensures AnswerAt(ss, es, b).Replay? <==> rest == []
  {
    var cut: nat :| FinalAt(ms, cut) && ms[cut].Disconnect? && part == Data(ms[..cut + 1]);
    DrainedUpToFinal(ms, cut);
    StoreIsLatest(ss, es, i, b);
    AnswersLikeFullLog(ss, es, b);
    assert rest != [] ==> |part + rest| > |part|;
    assert part + [] == part;
  }

  /** A disconnect ended the body after `part`. */
  ghost predicate WasCut(ms: seq<Message>, part: seq<Byte>) {
    exists cut: nat :: FinalAt(ms, cut) && ms[cut].Disconnect? && part == Data(ms[..cut + 1])
  }

  /** Such a retry: the client sends two bytes, the connection breaks after the first, and the application answers 200
      to that one; a second later the client sends both again and is refused. */
  lemma CutBodyConflicts() returns (ss: seq<State>, es: seq<Event>, ms: seq<Message>)
    ensures IsRun(ss, es) && NoOverlap(ss, es) && |es| == 3 && WasCut(ms, [1])
    ensures es[0] == Begins("key", [1], 0) && es[1] == Ends(0, Some(200), [], [], true, 1)
    ensures es[2] == Begins("key", [1] + [2], 2) && AnswerAt(ss, es, 2) == Conflict
  {
    ms := [BodyChunk([1], true), Disconnect];
    es := [Begins("key", [1], 0), Ends(0, Some(200), [], [], true, 1), Begins("key", [1] + [2], 2)];
    var s0 := State(map[], map[], []);
    var s1 := Step(s0, 0, es[0]);
    var s2 := Step(s1, 1, es[1]);
    ss := [s0, s1, s2, Step(s2, 2, es[2])];
    assert StepAt(ss, es, 0) && StepAt(ss, es, 1) && StepAt(ss, es, 2);
    assert forall r :: r !in s2.running;
    assert WasCut(ms, [1]) by {
      var part, replayed := CutBodyLooksWhole();
      DrainedUpToFinal(ms, 1);
      assert FinalAt(ms, 1) && ms[1].Disconnect? && [1] == Data(ms[..1 + 1]);
    }
  }
}
