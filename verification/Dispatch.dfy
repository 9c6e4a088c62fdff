/** The outbound draft protocol as a step system: bridge handlers, queue, relay and reports, interleaved freely. */
module Dispatch {
  import opened Prelude
  import opened Drafts
  import opened Outbox

  /** A commit waiting for its push, which is a separate awaited step. */
  datatype Owed = Owed(job: Job, channel: Channel)

  /** What an approving PATCH committed for one dispatch id. */
  datatype Commit = Commit(draftId: Id, agent: string, toHandle: string, body: string)

  /** How a popped message ended: sent, refused by the send, or never reported on. */
  datatype Fate = Delivered | Failed | Dropped

  /** History of ids: every uuid handed out, and what each approving PATCH committed. */
  datatype Registry = Registry(minted: set<Id>, commits: map<Id, Commit>)

  /** The outbound lists, with the history of what was pushed and popped under each agent. */
  datatype Lists = Lists(queues: Queues, routed: map<Id, string>, pushed: map<string, seq<Id>>,
                         popped: map<string, seq<Id>>)

  /** What the relays hold, with the history of how each popped message ended. */
  datatype Relay = Relay(held: map<Id, Job>, fate: map<Id, Fate>)

  datatype World = World(
    rows: map<Id, Draft>,
    owed: map<Id, Owed>,
    lists: Lists,
    relay: Relay,
    posted: set<Report>,
    reg: Registry)

  datatype Action =
    | Create(draftId: Id, request: CreateRequest, actor: string, now: int)
    | Patch(draftId: Id, p: PatchRequest, actor: string, uuid: Id, readings: Readings)
    | Push(messageId: Id)
    | Abandon(messageId: Id)
    | DirectSend(messageId: Id, sender: string, to: string, body: string, service: string)
    | Corrupt(agent: string, index: nat)
    | Pop(agent: string, lost: bool)
    | Handle(messageId: Id, result: SendResult, now: int)
    | Correlate(report: Report, hit: Option<Id>, now: int)

  function Init(): World {
    World(map[], map[], Lists(map[], map[], map[], map[]), Relay(map[], map[]), {}, Registry({}, map[]))
  }

  function Ids(q: seq<Entry>): seq<Id> {
    seq(|q|, i requires 0 <= i < |q| => q[i].id)
  }

  function Log(m: map<string, seq<Id>>, agent: string): seq<Id> {
    if agent in m then m[agent] else []
  }

  function Fated(j: Job, r: SendResult): Fate {
    if !WellFormed(j) || r.Died? then Dropped else if r.Returned? then Delivered else Failed
  }

  ghost predicate Enabled(w: World, a: Action) {
    match a
    case Create(d, request, actor, now) =>
      d !in w.reg.minted && request.toHandle != "" && request.body != ""
    case Patch(d, p, actor, uuid, now) =>
      d in w.rows && PatchedRow(w.rows[d], p, actor, uuid, now).Ok? && uuid !in w.reg.minted && uuid != ""
    case Push(m) =>
      m in w.owed && w.owed[m].channel == IMessage
    case Abandon(m) =>
      m in w.owed
    case DirectSend(m, sender, to, body, service) =>
      m !in w.reg.minted && m != "" && to != "" && body != ""
    case Corrupt(agent, index) =>
      index < |Queue(w.lists.queues, agent)|
    case Pop(agent, lost) =>
      Queue(w.lists.queues, agent) != []
    case Handle(m, result, now) =>
      m in w.relay.held
    case Correlate(r, hit, now) =>
      && r in w.posted
      && (hit.Some? ==> hit.value in w.rows && Awaits(w.rows[hit.value], r.messageId))
      && (hit.None? ==> forall d :: d in w.rows ==> !Awaits(w.rows[d], r.messageId))
  }

  function PushJob(l: Lists, job: Job): Lists {
    Lists(Pushed(l.queues, job.sender, Entry(job.messageId, Some(job))),
          l.routed[job.messageId := job.sender],
          l.pushed[job.sender := Log(l.pushed, job.sender) + [job.messageId]],
          l.popped)
  }

  function CorruptEntry(l: Lists, agent: string, index: nat): Lists
    requires index < |Queue(l.queues, agent)|
  {
    var q := Queue(l.queues, agent);
    l.(queues := l.queues[agent := q[index := q[index].(job := None)]])
  }

  function PopEntry(l: Lists, agent: string): Lists
    requires Queue(l.queues, agent) != []
  {
    l.(queues := Popped(l.queues, agent),
       popped := l.popped[agent := Log(l.popped, agent) + [Queue(l.queues, agent)[0].id]])
  }

  /** The reply to a pop reaches the relay, unless the reply is lost or the entry was corrupt. */
  function Receive(r: Relay, e: Entry, lost: bool): Relay {
    if lost || e.job.None? then r.(fate := r.fate[e.id := Dropped])
    else r.(held := r.held[e.id := e.job.value])
  }

  function Finish(r: Relay, m: Id, result: SendResult): Relay
    requires m in r.held
  {
    Relay(r.held - {m}, r.fate[m := Fated(r.held[m], result)])
  }

  ghost function Apply(w: World, a: Action): World
    requires Enabled(w, a)
  {
    match a
    case Create(d, request, actor, now) =>
      w.(rows := w.rows[d := NewDraft(request, actor, now)],
         reg := w.reg.(minted := w.reg.minted + {d}))
    case Patch(d, p, actor, uuid, now) =>
      var row := PatchedRow(w.rows[d], p, actor, uuid, now).value;
      if row.status == Approved then
        w.(rows := w.rows[d := row],
           owed := w.owed[uuid := Owed(DispatchJob(d, row), row.channel)],
           reg := Registry(w.reg.minted + {uuid},
                           w.reg.commits[uuid := Commit(d, row.agent, row.toHandle, row.body)]))
      else w.(rows := w.rows[d := row])
    case Push(m) =>
      w.(owed := w.owed - {m}, lists := PushJob(w.lists, w.owed[m].job))
    case Abandon(m) =>
      w.(owed := w.owed - {m})
    case DirectSend(m, sender, to, body, service) =>
      w.(lists := PushJob(w.lists, Job(m, sender, to, body, service, None)),
         reg := w.reg.(minted := w.reg.minted + {m}))
    case Corrupt(agent, index) =>
      w.(lists := CorruptEntry(w.lists, agent, index))
    case Pop(agent, lost) =>
      w.(lists := PopEntry(w.lists, agent), relay := Receive(w.relay, Queue(w.lists.queues, agent)[0], lost))
    case Handle(m, result, now) =>
      var report := ReportOf(w.relay.held[m], result, now);
      w.(relay := Finish(w.relay, m, result),
         posted := if report.Some? then w.posted + {report.value} else w.posted)
    case Correlate(r, hit, now) =>
      if hit.Some? then w.(rows := w.rows[hit.value := CorrelatedRow(w.rows[hit.value], r, now)]) else w
  }

  // ---- the inductive invariant

  ghost predicate RowOk(d: Id, row: Draft, reg: Registry, fate: map<Id, Fate>) {
    && d in reg.minted && row.toHandle != ""
    && (row.status == Pending ==> row.dispatchId.None?)
    && (row.status == Approved || row.status == Sent || row.status == SendFailed ==> row.dispatchId.Some?)
    && (row.dispatchId.Some? ==>
          var m := row.dispatchId.value;
          && m in reg.commits && reg.commits[m].draftId == d
          && (row.status == Approved ==> row.body == reg.commits[m].body)
          && (row.status == Sent ==> m in fate && fate[m] == Delivered)
          && (row.status == SendFailed ==> m in fate && fate[m] == Failed))
  }

  ghost predicate CommitOk(m: Id, c: Commit, rows: map<Id, Draft>, minted: set<Id>) {
    && m in minted && m != "" && c.draftId in rows
    && rows[c.draftId].agent == c.agent && rows[c.draftId].toHandle == c.toHandle
  }

  ghost predicate JobOk(m: Id, job: Job, reg: Registry) {
    && job.messageId == m && m in reg.minted
    && match job.draftId
       case None => m !in reg.commits
       case Some(d) => m in reg.commits && reg.commits[m] == Commit(d, job.sender, job.to, job.body)
  }

  ghost predicate EntryOk(e: Entry, agent: string, routed: map<Id, string>, relay: Relay, reg: Registry) {
    && e.id in routed && routed[e.id] == agent && e.id !in relay.held && e.id !in relay.fate
    && (e.job.Some? ==> JobOk(e.id, e.job.value, reg) && e.job.value.sender == agent)
  }

  ghost predicate QueueOk(agent: string, l: Lists, relay: Relay, reg: Registry) {
    var q := Queue(l.queues, agent);
    && (forall i, j :: 0 <= i < j < |q| ==> q[i].id != q[j].id)
    && (forall i :: 0 <= i < |q| ==> EntryOk(q[i], agent, l.routed, relay, reg))
  }

  /** What was pushed under an agent is what was popped followed by what is still queued. */
  ghost predicate InOrder(agent: string, l: Lists) {
    Log(l.pushed, agent) == Log(l.popped, agent) + Ids(Queue(l.queues, agent))
  }

  ghost predicate RoutedOk(m: Id, l: Lists, relay: Relay, minted: set<Id>) {
    m in l.routed ==>
      && m in minted && m in Log(l.pushed, l.routed[m])
      && (m in Log(l.popped, l.routed[m]) <==> m in relay.held || m in relay.fate)
  }

  ghost predicate HeldOk(m: Id, relay: Relay, routed: map<Id, string>, reg: Registry)
    requires m in relay.held
  {
    m in routed && m !in relay.fate && JobOk(m, relay.held[m], reg) && relay.held[m].sender == routed[m]
  }

  ghost predicate OwedOk(m: Id, o: Owed, routed: map<Id, string>, reg: Registry) {
    JobOk(m, o.job, reg) && o.job.draftId.Some? && m !in routed
  }

  ghost predicate ReportOk(r: Report, fate: map<Id, Fate>) {
    r.messageId in fate && fate[r.messageId] == if r.outcome.Success? then Delivered else Failed
  }

  ghost predicate RowsOk(rows: map<Id, Draft>, reg: Registry, fate: map<Id, Fate>) {
    forall d :: d in rows ==> RowOk(d, rows[d], reg, fate)
  }

  ghost predicate CommitsOk(rows: map<Id, Draft>, reg: Registry) {
    forall m :: m in reg.commits ==> CommitOk(m, reg.commits[m], rows, reg.minted)
  }

  ghost predicate QueuesOk(l: Lists, relay: Relay, reg: Registry) {
    forall agent :: QueueOk(agent, l, relay, reg)
  }

  ghost predicate LogsOk(l: Lists, relay: Relay, minted: set<Id>) {
    && (forall agent :: InOrder(agent, l))
    && (forall agent, m :: m in Log(l.pushed, agent) ==> m in l.routed && l.routed[m] == agent)
    && (forall m :: RoutedOk(m, l, relay, minted))
    && relay.fate.Keys <= l.routed.Keys
  }

  ghost predicate RelayOk(relay: Relay, routed: map<Id, string>, reg: Registry) {
    forall m :: m in relay.held ==> HeldOk(m, relay, routed, reg)
  }

  ghost predicate AllOwedOk(owed: map<Id, Owed>, routed: map<Id, string>, reg: Registry) {
    forall m :: m in owed ==> OwedOk(m, owed[m], routed, reg)
  }

  ghost predicate ReportsOk(posted: set<Report>, fate: map<Id, Fate>) {
    forall r :: r in posted ==> ReportOk(r, fate)
  }

  ghost predicate Inv(w: World) {
    && RowsOk(w.rows, w.reg, w.relay.fate)
    && CommitsOk(w.rows, w.reg)
    && QueuesOk(w.lists, w.relay, w.reg)
    && LogsOk(w.lists, w.relay, w.reg.minted)
    && RelayOk(w.relay, w.lists.routed, w.reg)
    && AllOwedOk(w.owed, w.lists.routed, w.reg)
    && ReportsOk(w.posted, w.relay.fate)
  }

  /** `reg'` adds only ids that `reg` never handed out. */
  ghost predicate Grows(reg: Registry, reg': Registry) {
    && reg.minted <= reg'.minted
    && (forall m :: m in reg.commits ==> m in reg'.commits && reg'.commits[m] == reg.commits[m])
    && (forall m :: m in reg'.commits ==> m in reg.commits || m !in reg.minted)
  }

  lemma JobsSurvive(w: World, reg': Registry)
    requires QueuesOk(w.lists, w.relay, w.reg) && RelayOk(w.relay, w.lists.routed, w.reg)
    requires AllOwedOk(w.owed, w.lists.routed, w.reg) && LogsOk(w.lists, w.relay, w.reg.minted)
    requires Grows(w.reg, reg')
    ensures QueuesOk(w.lists, w.relay, reg')
    ensures RelayOk(w.relay, w.lists.routed, reg')
    ensures AllOwedOk(w.owed, w.lists.routed, reg')
    ensures LogsOk(w.lists, w.relay, reg'.minted)
  {
    forall agent ensures QueueOk(agent, w.lists, w.relay, reg') {
      assert QueueOk(agent, w.lists, w.relay, w.reg);
    }
    forall m | m in w.relay.held ensures HeldOk(m, w.relay, w.lists.routed, reg') {
      assert HeldOk(m, w.relay, w.lists.routed, w.reg);
    }
    forall m | m in w.owed ensures OwedOk(m, w.owed[m], w.lists.routed, reg') {
      assert OwedOk(m, w.owed[m], w.lists.routed, w.reg);
    }
    forall m ensures RoutedOk(m, w.lists, w.relay, reg'.minted) {
      assert RoutedOk(m, w.lists, w.relay, w.reg.minted);
    }
  }

  lemma CreateKeepsInv(w: World, a: Action)
    requires Inv(w) && a.Create? && Enabled(w, a)
    ensures Inv(Apply(w, a))
  {
    var w' := Apply(w, a);
    JobsSurvive(w, w'.reg);
    forall m | m in w'.reg.commits ensures CommitOk(m, w'.reg.commits[m], w'.rows, w'.reg.minted) {
      assert CommitOk(m, w.reg.commits[m], w.rows, w.reg.minted);
      assert RowOk(w.reg.commits[m].draftId, w.rows[w.reg.commits[m].draftId], w.reg, w.relay.fate);
    }
    forall d | d in w'.rows ensures RowOk(d, w'.rows[d], w'.reg, w'.relay.fate) {
      assert d in w.rows ==> RowOk(d, w.rows[d], w.reg, w.relay.fate);
    }
  }

  lemma PatchGrows(w: World, a: Action)
    requires CommitsOk(w.rows, w.reg) && a.Patch? && Enabled(w, a)
    ensures Grows(w.reg, Apply(w, a).reg)
  {
    forall m | m in w.reg.commits ensures m != a.uuid {
      assert CommitOk(m, w.reg.commits[m], w.rows, w.reg.minted);
    }
  }

  /** Replacing one row of the table by a row that satisfies its own clause, with the registry grown to match. */
  lemma ReplaceRow(w: World, d: Id, row: Draft, reg: Registry)
    requires RowsOk(w.rows, w.reg, w.relay.fate) && CommitsOk(w.rows, w.reg) && Grows(w.reg, reg)
    requires d in w.rows && row.agent == w.rows[d].agent && row.toHandle == w.rows[d].toHandle
    requires RowOk(d, row, reg, w.relay.fate)
    requires forall m :: m in reg.commits && m !in w.reg.commits ==>
               m in reg.minted && m != "" && reg.commits[m] == Commit(d, row.agent, row.toHandle, row.body)
    ensures RowsOk(w.rows[d := row], reg, w.relay.fate) && CommitsOk(w.rows[d := row], reg)
  {
    forall e | e in w.rows ensures RowOk(e, w.rows[d := row][e], reg, w.relay.fate) {
      assert RowOk(e, w.rows[e], w.reg, w.relay.fate);
    }
    forall m | m in reg.commits ensures CommitOk(m, reg.commits[m], w.rows[d := row], reg.minted) {
      assert m in w.reg.commits ==> CommitOk(m, w.reg.commits[m], w.rows, w.reg.minted);
    }
  }

  lemma PatchKeepsRows(w: World, a: Action)
    requires RowsOk(w.rows, w.reg, w.relay.fate) && CommitsOk(w.rows, w.reg) && a.Patch? && Enabled(w, a)
    ensures RowsOk(Apply(w, a).rows, Apply(w, a).reg, w.relay.fate)
    ensures CommitsOk(Apply(w, a).rows, Apply(w, a).reg)
  {
    var w' := Apply(w, a);
    PatchGrows(w, a);
    var row, row' := w.rows[a.draftId], w'.rows[a.draftId];
    assert RowOk(a.draftId, row, w.reg, w.relay.fate);
    PatchEffect(row, a.p, a.actor, a.uuid, a.readings);
    assert RowOk(a.draftId, row', w'.reg, w.relay.fate);
    ReplaceRow(w, a.draftId, row', w'.reg);
  }

  lemma PatchKeepsOwed(w: World, a: Action)
    requires a.Patch? && Enabled(w, a)
    requires AllOwedOk(w.owed, w.lists.routed, Apply(w, a).reg) && LogsOk(w.lists, w.relay, w.reg.minted)
    ensures AllOwedOk(Apply(w, a).owed, w.lists.routed, Apply(w, a).reg)
  {
    var w' := Apply(w, a);
    assert RoutedOk(a.uuid, w.lists, w.relay, w.reg.minted);
    forall m | m in w'.owed ensures OwedOk(m, w'.owed[m], w'.lists.routed, w'.reg) {
      if m in w.owed && m != a.uuid {
        assert OwedOk(m, w.owed[m], w.lists.routed, w'.reg);
      }
    }
  }

  lemma PatchKeepsInv(w: World, a: Action)
    requires Inv(w) && a.Patch? && Enabled(w, a)
    ensures Inv(Apply(w, a))
  {
    PatchGrows(w, a);
    PatchKeepsRows(w, a);
    JobsSurvive(w, Apply(w, a).reg);
    PatchKeepsOwed(w, a);
  }

  lemma PushKeepsOrder(l: Lists, job: Job)
    requires forall agent :: InOrder(agent, l)
    ensures forall agent :: InOrder(agent, PushJob(l, job))
  {
    var l', m := PushJob(l, job), job.messageId;
    forall agent ensures InOrder(agent, l') {
      assert InOrder(agent, l);
      assert agent == job.sender ==> Ids(Queue(l'.queues, agent)) == Ids(Queue(l.queues, agent)) + [m];
    }
  }

  lemma PushKeepsRouted(l: Lists, relay: Relay, minted: set<Id>, job: Job)
    requires forall m :: RoutedOk(m, l, relay, minted)
    requires job.messageId in minted && job.messageId !in l.routed && job.messageId !in Log(l.popped, job.sender)
    requires job.messageId !in relay.held && job.messageId !in relay.fate
    ensures forall m :: RoutedOk(m, PushJob(l, job), relay, minted)
  {
    var l' := PushJob(l, job);
    forall r ensures RoutedOk(r, l', relay, minted) {
      assert RoutedOk(r, l, relay, minted);
      assert job.messageId in Log(l'.pushed, job.sender);
    }
  }

  lemma PushKeepsLogs(l: Lists, relay: Relay, minted: set<Id>, job: Job)
    requires LogsOk(l, relay, minted) && job.messageId in minted
    requires job.messageId !in l.routed && job.messageId !in relay.held
    ensures LogsOk(PushJob(l, job), relay, minted)
  {
    var l', m := PushJob(l, job), job.messageId;
    assert m !in Log(l.popped, job.sender) by {
      assert InOrder(job.sender, l);
      assert m !in Log(l.pushed, job.sender);
    }
    PushKeepsOrder(l, job);
    PushKeepsRouted(l, relay, minted, job);
    forall agent, r | r in Log(l'.pushed, agent) ensures r in l'.routed && l'.routed[r] == agent {
      assert r in Log(l.pushed, agent) || (r == m && agent == job.sender);
    }
  }

  /** A push of an id that is new to the lists keeps everything the lists take part in. */
  lemma PushKeepsLists(w: World, job: Job)
    requires QueuesOk(w.lists, w.relay, w.reg) && LogsOk(w.lists, w.relay, w.reg.minted)
    requires RelayOk(w.relay, w.lists.routed, w.reg)
    requires JobOk(job.messageId, job, w.reg) && job.messageId !in w.lists.routed
    ensures QueuesOk(PushJob(w.lists, job), w.relay, w.reg)
    ensures LogsOk(PushJob(w.lists, job), w.relay, w.reg.minted)
    ensures RelayOk(w.relay, PushJob(w.lists, job).routed, w.reg)
  {
    forall h | h in w.relay.held ensures h != job.messageId && HeldOk(h, w.relay, PushJob(w.lists, job).routed, w.reg) {
      assert HeldOk(h, w.relay, w.lists.routed, w.reg);
    }
    PushKeepsLogs(w.lists, w.relay, w.reg.minted, job);
    PushKeepsQueues(w, job);
  }

  lemma PushKeepsQueues(w: World, job: Job)
    requires QueuesOk(w.lists, w.relay, w.reg)
    requires JobOk(job.messageId, job, w.reg)
    requires job.messageId !in w.lists.routed && job.messageId !in w.relay.held && job.messageId !in w.relay.fate
    ensures QueuesOk(PushJob(w.lists, job), w.relay, w.reg)
  {
    var l, l', m := w.lists, PushJob(w.lists, job), job.messageId;
    forall agent ensures QueueOk(agent, l', w.relay, w.reg) {
      assert QueueOk(agent, l, w.relay, w.reg);
      var q, q' := Queue(l.queues, agent), Queue(l'.queues, agent);
      forall i | 0 <= i < |q'| ensures EntryOk(q'[i], agent, l'.routed, w.relay, w.reg) {
        assert i < |q| ==> EntryOk(q[i], agent, l.routed, w.relay, w.reg);
      }
    }
  }

  lemma SendStepsKeepInv(w: World, a: Action)
    requires Inv(w) && (a.Push? || a.Abandon? || a.DirectSend?) && Enabled(w, a)
    ensures Inv(Apply(w, a))
  {
    var w' := Apply(w, a);
    if a.DirectSend? {
      var v := w.(reg := w'.reg);
      JobsSurvive(w, w'.reg);
      assert RoutedOk(a.messageId, w.lists, w.relay, w.reg.minted);
      forall m | m in w.reg.commits ensures m != a.messageId {
        assert CommitOk(m, w.reg.commits[m], w.rows, w.reg.minted);
      }
      PushKeepsLists(v, Job(a.messageId, a.sender, a.to, a.body, a.service, None));
      forall d | d in w'.rows ensures RowOk(d, w'.rows[d], w'.reg, w'.relay.fate) {
        assert RowOk(d, w.rows[d], w.reg, w.relay.fate);
      }
      forall m | m in w'.reg.commits ensures CommitOk(m, w'.reg.commits[m], w'.rows, w'.reg.minted) {
        assert CommitOk(m, w.reg.commits[m], w.rows, w.reg.minted);
      }
      forall m | m in w'.owed ensures OwedOk(m, w'.owed[m], w'.lists.routed, w'.reg) {
        assert OwedOk(m, w.owed[m], w.lists.routed, w.reg);
      }
    } else {
      assert OwedOk(a.messageId, w.owed[a.messageId], w.lists.routed, w.reg);
      if a.Push? {
        PushKeepsLists(w, w.owed[a.messageId].job);
      }
      forall m | m in w'.owed ensures OwedOk(m, w'.owed[m], w'.lists.routed, w'.reg) {
        assert OwedOk(m, w.owed[m], w.lists.routed, w.reg);
      }
    }
  }

  lemma CorruptKeepsInv(w: World, a: Action)
    requires Inv(w) && a.Corrupt? && Enabled(w, a)
    ensures Inv(Apply(w, a))
  {
    var l, l' := w.lists, Apply(w, a).lists;
    forall agent ensures QueueOk(agent, l', w.relay, w.reg) {
      assert QueueOk(agent, l, w.relay, w.reg);
      var q, q' := Queue(l.queues, agent), Queue(l'.queues, agent);
      forall i | 0 <= i < |q'| ensures EntryOk(q'[i], agent, l'.routed, w.relay, w.reg) {
        assert EntryOk(q[i], agent, l.routed, w.relay, w.reg);
      }
    }
    forall agent ensures InOrder(agent, l') {
      assert InOrder(agent, l);
      assert Ids(Queue(l'.queues, agent)) == Ids(Queue(l.queues, agent));
    }
    forall m ensures RoutedOk(m, l', w.relay, w.reg.minted) {
      assert RoutedOk(m, l, w.relay, w.reg.minted);
    }
  }

  lemma PopKeepsOrder(l: Lists, agent: string)
    requires Queue(l.queues, agent) != [] && forall x :: InOrder(x, l)
    ensures forall x :: InOrder(x, PopEntry(l, agent))
  {
    var q := Queue(l.queues, agent);
    assert Ids(q) == [q[0].id] + Ids(q[1..]);
    forall x ensures InOrder(x, PopEntry(l, agent)) {
      assert InOrder(x, l);
    }
  }

  lemma PopKeepsQueues(l: Lists, relay: Relay, reg: Registry, agent: string, lost: bool)
    requires Queue(l.queues, agent) != [] && QueuesOk(l, relay, reg)
    ensures QueuesOk(PopEntry(l, agent), Receive(relay, Queue(l.queues, agent)[0], lost), reg)
  {
    var l', q0 := PopEntry(l, agent), Queue(l.queues, agent);
    var relay' := Receive(relay, q0[0], lost);
    assert QueueOk(agent, l, relay, reg);
    assert EntryOk(q0[0], agent, l.routed, relay, reg);
    forall x ensures QueueOk(x, l', relay', reg) {
      assert QueueOk(x, l, relay, reg);
      var q, q' := Queue(l.queues, x), Queue(l'.queues, x);
      var shift := if x == agent then 1 else 0;
      assert q' == q[shift..];
      forall i | 0 <= i < |q'| ensures EntryOk(q'[i], x, l'.routed, relay', reg) {
        assert EntryOk(q[i + shift], x, l.routed, relay, reg);
      }
    }
  }

  lemma PopKeepsRouted(l: Lists, relay: Relay, reg: Registry, agent: string, lost: bool)
    requires Queue(l.queues, agent) != [] && QueuesOk(l, relay, reg) && LogsOk(l, relay, reg.minted)
    ensures var relay' := Receive(relay, Queue(l.queues, agent)[0], lost);
            LogsOk(PopEntry(l, agent), relay', reg.minted)
  {
    var l', e := PopEntry(l, agent), Queue(l.queues, agent)[0];
    var relay' := Receive(relay, e, lost);
    PopKeepsOrder(l, agent);
    assert QueueOk(agent, l, relay, reg);
    assert EntryOk(e, agent, l.routed, relay, reg);
    forall m ensures RoutedOk(m, l', relay', reg.minted) {
      assert RoutedOk(m, l, relay, reg.minted);
      assert m in l.routed ==>
          (m in Log(l'.popped, l.routed[m]) <==> m in Log(l.popped, l.routed[m]) || m == e.id);
    }
  }

  lemma PopKeepsInv(w: World, a: Action)
    requires Inv(w) && a.Pop? && Enabled(w, a)
    ensures Inv(Apply(w, a))
  {
    var w' := Apply(w, a);
    var l, l', e := w.lists, w'.lists, Queue(w.lists.queues, a.agent)[0];
    PopKeepsQueues(l, w.relay, w.reg, a.agent, a.lost);
    PopKeepsRouted(l, w.relay, w.reg, a.agent, a.lost);
    assert QueueOk(a.agent, l, w.relay, w.reg);
    assert EntryOk(e, a.agent, l.routed, w.relay, w.reg);
    FateGrows(w, w'.relay.fate);
    forall h | h in w'.relay.held ensures HeldOk(h, w'.relay, l'.routed, w.reg) {
      assert h in w.relay.held ==> HeldOk(h, w.relay, l.routed, w.reg);
    }
  }

  /** Recording how one more message ended keeps what rows and reports rely on. */
  lemma FateGrows(w: World, fate: map<Id, Fate>)
    requires RowsOk(w.rows, w.reg, w.relay.fate) && ReportsOk(w.posted, w.relay.fate)
    requires forall m :: m in w.relay.fate ==> m in fate && fate[m] == w.relay.fate[m]
    ensures RowsOk(w.rows, w.reg, fate) && ReportsOk(w.posted, fate)
  {
    forall d | d in w.rows ensures RowOk(d, w.rows[d], w.reg, fate) {
      assert RowOk(d, w.rows[d], w.reg, w.relay.fate);
    }
    forall r | r in w.posted ensures ReportOk(r, fate) {
      assert ReportOk(r, w.relay.fate);
    }
  }

  lemma HandleKeepsLists(l: Lists, relay: Relay, reg: Registry, m: Id, result: SendResult)
    requires m in relay.held && HeldOk(m, relay, l.routed, reg) && QueuesOk(l, relay, reg) && LogsOk(l, relay, reg.minted)
    ensures QueuesOk(l, Finish(relay, m, result), reg) && LogsOk(l, Finish(relay, m, result), reg.minted)
  {
    var relay' := Finish(relay, m, result);
    forall agent ensures QueueOk(agent, l, relay', reg) {
      assert QueueOk(agent, l, relay, reg);
      var q := Queue(l.queues, agent);
      forall i | 0 <= i < |q| ensures EntryOk(q[i], agent, l.routed, relay', reg) {
        assert EntryOk(q[i], agent, l.routed, relay, reg);
      }
    }
    forall r ensures RoutedOk(r, l, relay', reg.minted) {
      assert RoutedOk(r, l, relay, reg.minted);
    }
  }

  lemma HandleKeepsInv(w: World, a: Action)
    requires Inv(w) && a.Handle? && Enabled(w, a)
    ensures Inv(Apply(w, a))
  {
    var w' := Apply(w, a);
    var l := w.lists;
    assert HeldOk(a.messageId, w.relay, l.routed, w.reg);
    HandleKeepsLists(l, w.relay, w.reg, a.messageId, a.result);
    FateGrows(w, w'.relay.fate);
    forall h | h in w'.relay.held ensures HeldOk(h, w'.relay, l.routed, w.reg) {
      assert HeldOk(h, w.relay, l.routed, w.reg);
    }
    forall r | r in w'.posted ensures ReportOk(r, w'.relay.fate) {
      assert r in w.posted ==> ReportOk(r, w'.relay.fate);
    }
  }

  lemma CorrelateKeepsInv(w: World, a: Action)
    requires Inv(w) && a.Correlate? && Enabled(w, a)
    ensures Inv(Apply(w, a))
  {
    var w' := Apply(w, a);
    assert ReportOk(a.report, w.relay.fate);
    forall d | d in w'.rows ensures RowOk(d, w'.rows[d], w.reg, w.relay.fate) {
      assert RowOk(d, w.rows[d], w.reg, w.relay.fate);
    }
    forall m | m in w.reg.commits ensures CommitOk(m, w.reg.commits[m], w'.rows, w.reg.minted) {
      assert CommitOk(m, w.reg.commits[m], w.rows, w.reg.minted);
    }
  }

  /** Every step of the protocol keeps the invariant. */
  lemma StepKeepsInv(w: World, a: Action)
    requires Inv(w) && Enabled(w, a)
    ensures Inv(Apply(w, a))
  {
    match a
    case Create(_, _, _, _) => CreateKeepsInv(w, a);
    case Patch(_, _, _, _, _) => PatchKeepsInv(w, a);
    case Push(_) => SendStepsKeepInv(w, a);
    case Abandon(_) => SendStepsKeepInv(w, a);
    case DirectSend(_, _, _, _, _) => SendStepsKeepInv(w, a);
    case Corrupt(_, _) => CorruptKeepsInv(w, a);
    case Pop(_, _) => PopKeepsInv(w, a);
    case Handle(_, _, _) => HandleKeepsInv(w, a);
    case Correlate(_, _, _) => CorrelateKeepsInv(w, a);
  }
}
