/** The per-agent outbound lists of `routes/imessage.py`, and the relay loop of `relay/main.py` that drains one. */
module Outbox {
  import opened Prelude
  import opened Drafts

  /** One list element. `job` is absent when the stored bytes no longer decode as a job. */
  datatype Entry = Entry(id: Id, job: Option<Job>)

  type Queues = map<string, seq<Entry>>

  function Queue(q: Queues, agent: string): seq<Entry> {
    if agent in q then q[agent] else []
  }

  function Pushed(q: Queues, agent: string, e: Entry): Queues {
    q[agent := Queue(q, agent) + [e]]
  }

  function Popped(q: Queues, agent: string): Queues
    requires Queue(q, agent) != []
  {
    q[agent := Queue(q, agent)[1..]]
  }

  /** What one dispatch does: the call it makes, if any, and the report it posts, if any. */
  datatype SendResult = Returned | Raised(code: string, message: string) | Died

  predicate WellFormed(j: Job) {
    j.messageId != "" && j.to != "" && j.body != ""
  }

  function ReportOf(j: Job, r: SendResult, at: int): Option<Report> {
    if !WellFormed(j) || r.Died? then None
    else if r.Returned? then Some(Report(j.messageId, Success, Some(at)))
    else Some(Report(j.messageId, Failure(Some(r.code), Some(r.message)), Some(at)))
  }

  /** The Redis lists `imessage:outbound:{agent}`. */
  class OutboundLists {
    var lists: Queues

    constructor ()
      ensures lists == map[]
    {
      lists := map[];
    }

    /** `_enqueue_dispatch` / the push of `imessage_send`; `up` says whether Redis accepts the command. */
    method Enqueue(job: Job, channel: Channel, up: bool) returns (ok: bool)
      modifies this
      ensures ok <==> channel == IMessage && up
      ensures ok ==> lists == Pushed(old(lists), job.sender, Entry(job.messageId, Some(job)))
      ensures !ok ==> lists == old(lists)
    {
      if channel != IMessage || !up {
        return false;
      }
      var items: seq<Entry> := [];
      if job.sender in lists {
        items := lists[job.sender];
      }
      lists := lists[job.sender := items + [Entry(job.messageId, Some(job))]];
      ok := true;
    }

    /** `imessage_outbox`: a corrupt entry is dropped and answered like an empty list. */
    method PopOutbox(agent: string) returns (job: Option<Job>)
      modifies this
      ensures Queue(old(lists), agent) == [] ==> lists == old(lists) && job == None
      ensures Queue(old(lists), agent) != [] ==>
                && lists == Popped(old(lists), agent)
                && job == Queue(old(lists), agent)[0].job
    {
      if agent !in lists || lists[agent] == [] {
        return None;
      }
      job := lists[agent][0].job;
      lists := lists[agent := lists[agent][1..]];
    }
  }

  /** One turn of the relay loop: the poll fails, finds nothing, or hands over a job whose send ends in `result`. */
  datatype Turn = PollFailed | NothingQueued | Got(job: Job, result: SendResult, at: int)

  /** The calls to `send_imessage` made over some turns, in order. The loop ends where the process dies. */
  function Calls(turns: seq<Turn>): seq<Job> {
    if turns == [] then []
    else if turns[0].Got? && WellFormed(turns[0].job) then
      [turns[0].job] + (if turns[0].result.Died? then [] else Calls(turns[1..]))
    else Calls(turns[1..])
  }

  /** The reports posted over some turns, in order. */
  function Reports(turns: seq<Turn>): seq<Report> {
    if turns == [] then []
    else if turns[0].Got? && WellFormed(turns[0].job) then
      if turns[0].result.Died? then []
      else [ReportOf(turns[0].job, turns[0].result, turns[0].at).value] + Reports(turns[1..])
    else Reports(turns[1..])
  }

  /** `_dispatch_job`: at most one call and one report. */
  method DispatchOne(job: Job, result: SendResult, at: int) returns (called: bool, report: Option<Report>)
    ensures called <==> WellFormed(job)
    ensures report == ReportOf(job, result, at)
  {
    called, report := false, None;
    if !(job.messageId != "" && job.to != "" && job.body != "") {
      return;
    }
    called := true;
    match result {
      case Died =>
      case Raised(code, message) =>
        report := Some(Report(job.messageId, Failure(Some(code), Some(message)), Some(at)));
      case Returned =>
        report := Some(Report(job.messageId, Success, Some(at)));
    }
  }

  /** `run_outbound_loop`, over the turns the environment grants before `stop`. */
  method RunOutboundLoop(turns: seq<Turn>) returns (calls: seq<Job>, reports: seq<Report>)
    ensures calls == Calls(turns)
    ensures reports == Reports(turns)
  {
    calls, reports := [], [];
    var i := 0;
    while i < |turns|
      invariant 0 <= i <= |turns|
      invariant calls + Calls(turns[i..]) == Calls(turns)
      invariant reports + Reports(turns[i..]) == Reports(turns)
    {
      var turn := turns[i];
      ghost var rest := turns[i..];
      assert rest[1..] == turns[i + 1..];
      i := i + 1;
      if turn.Got? {
        var called, report := DispatchOne(turn.job, turn.result, turn.at);
        if called {
          calls := calls + [turn.job];
          if report.None? {
            return;
          }
          reports := reports + [report.value];
        }
      }
    }
  }

  lemma {:induction false} ReportsMatchCalls(turns: seq<Turn>)
    ensures |Reports(turns)| == |Calls(turns)| || |Reports(turns)| + 1 == |Calls(turns)|
    ensures forall k :: 0 <= k < |Reports(turns)| ==> Reports(turns)[k].messageId == Calls(turns)[k].messageId
    ensures (forall i :: 0 <= i < |turns| && turns[i].Got? ==> !turns[i].result.Died?)
            ==> |Reports(turns)| == |Calls(turns)|
  {
    if turns != [] {
      ReportsMatchCalls(turns[1..]);
    }
  }

  /** Turn `i` made call `job`, and the report it posted says `outcome`. */
  ghost predicate Explains(turns: seq<Turn>, i: nat, job: Job, outcome: SendOutcome) {
    && i < |turns| && turns[i].Got? && turns[i].job == job && WellFormed(job)
    && (outcome == Success <==> turns[i].result == Returned)
  }

  /** No report without a call for the same message, each call is reported at most once, in call order, and the
      report says success exactly when the send returned. Only a call that kills the relay goes unreported. */
  lemma {:induction false} ReportsFollowCalls(turns: seq<Turn>, k: nat) returns (i: nat)
    requires k < |Reports(turns)|
    ensures k < |Calls(turns)| && Reports(turns)[k].messageId == Calls(turns)[k].messageId
    ensures Explains(turns, i, Calls(turns)[k], Reports(turns)[k].outcome)
  {
    ReportsMatchCalls(turns);
    if turns[0].Got? && WellFormed(turns[0].job) {
      if k == 0 {
        return 0;
      }
      i := ReportsFollowCalls(turns[1..], k - 1);
    } else {
      i := ReportsFollowCalls(turns[1..], k);
    }
    i := i + 1;
  }
}
