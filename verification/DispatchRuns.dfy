/** What holds over every run of the outbound draft protocol. */
module DispatchRuns {
  import opened Prelude
  import opened Drafts
  import opened Outbox
  import opened Dispatch

  /** `acts[i]` takes the system from `ws[i]` to `ws[i + 1]`. */
  ghost predicate StepAt(ws: seq<World>, acts: seq<Action>, i: nat) {
    i < |acts| && i + 1 < |ws| && Enabled(ws[i], acts[i]) && ws[i + 1] == Apply(ws[i], acts[i])
  }

  ghost predicate IsRun(ws: seq<World>, acts: seq<Action>) {
    && |ws| == |acts| + 1
    && ws[0] == Init()
    && forall i :: 0 <= i < |acts| ==> StepAt(ws, acts, i)
  }

  lemma {:induction false} Reachable(ws: seq<World>, acts: seq<Action>, i: nat)
    requires IsRun(ws, acts) && i < |ws|
    ensures Inv(ws[i])
  {
    if i > 0 {
      Reachable(ws, acts, i - 1);
      assert StepAt(ws, acts, i - 1);
      StepKeepsInv(ws[i - 1], acts[i - 1]);
    }
  }

  // ---- what never changes once written

  lemma StepKeepsHistory(w: World, a: Action)
    requires Inv(w) && Enabled(w, a)
    ensures Grows(w.reg, Apply(w, a).reg)
    ensures forall m :: m in w.relay.fate ==> m in Apply(w, a).relay.fate && Apply(w, a).relay.fate[m] == w.relay.fate[m]
  {
    if a.Patch? {
      PatchGrows(w, a);
    } else if a.Pop? {
      assert QueueOk(a.agent, w.lists, w.relay, w.reg);
      assert EntryOk(Queue(w.lists.queues, a.agent)[0], a.agent, w.lists.routed, w.relay, w.reg);
    } else if a.Handle? {
      assert HeldOk(a.messageId, w.relay, w.lists.routed, w.reg);
    }
  }

  lemma {:induction false} HistoryStays(ws: seq<World>, acts: seq<Action>, i: nat, k: nat)
    requires IsRun(ws, acts) && i <= k < |ws|
    ensures forall m :: m in ws[i].reg.commits ==> m in ws[k].reg.commits && ws[k].reg.commits[m] == ws[i].reg.commits[m]
    ensures forall m :: m in ws[i].relay.fate ==> m in ws[k].relay.fate && ws[k].relay.fate[m] == ws[i].relay.fate[m]
    ensures ws[i].reg.minted <= ws[k].reg.minted
    decreases k
  {
    if i < k {
      HistoryStays(ws, acts, i, k - 1);
      Reachable(ws, acts, k - 1);
      assert StepAt(ws, acts, k - 1);
      StepKeepsHistory(ws[k - 1], acts[k - 1]);
    }
  }

  // ---- the approval gate

  /** Step `i` is the PATCH that put draft `c.draftId` in `Approved` under dispatch id `m`, with the agent, handle
      and body of `c` in its row. */
  ghost predicate ApprovedAt(ws: seq<World>, acts: seq<Action>, i: nat, m: Id, c: Commit) {
    && i < |acts| && i + 1 < |ws|
    && acts[i].Patch? && acts[i].draftId == c.draftId && acts[i].uuid == m
    && c.draftId in ws[i + 1].rows
    && var row := ws[i + 1].rows[c.draftId];
       row.status == Approved && row.dispatchId == Some(m)
       && row.agent == c.agent && row.toHandle == c.toHandle && row.body == c.body
  }

  lemma OnlyApprovalCommits(w: World, a: Action, m: Id)
    requires Enabled(w, a) && m !in w.reg.commits && m in Apply(w, a).reg.commits
    ensures var w', c := Apply(w, a), Apply(w, a).reg.commits[m];
            && a.Patch? && a.draftId == c.draftId && a.uuid == m && c.draftId in w'.rows
            && w'.rows[c.draftId].status == Approved && w'.rows[c.draftId].dispatchId == Some(m)
            && c == Commit(a.draftId, w'.rows[a.draftId].agent, w'.rows[a.draftId].toHandle, w'.rows[a.draftId].body)
  {
  }

  lemma {:induction false} CommitOrigin(ws: seq<World>, acts: seq<Action>, j: nat, m: Id) returns (i: nat)
    requires IsRun(ws, acts) && j < |ws| && m in ws[j].reg.commits
    ensures i < j && ApprovedAt(ws, acts, i, m, ws[j].reg.commits[m])
  {
    if m in ws[j - 1].reg.commits {
      HistoryStays(ws, acts, j - 1, j);
      i := CommitOrigin(ws, acts, j - 1, m);
    } else {
      assert StepAt(ws, acts, j - 1);
      i := j - 1;
      OnlyApprovalCommits(ws[i], acts[i], m);
    }
  }

  /** Step `j` passes `job` to `send_imessage`. */
  ghost predicate Sends(ws: seq<World>, acts: seq<Action>, j: nat, job: Job) {
    && j < |acts| && j < |ws|
    && acts[j].Handle? && acts[j].messageId in ws[j].relay.held
    && ws[j].relay.held[acts[j].messageId] == job && WellFormed(job)
  }

  /** The approval gate: whatever is interleaved, a job with a draft id that reaches `send_imessage` was put on the
      queue by a PATCH that approved that draft, and carries that row's agent and handle and its body of that moment. */
  lemma ApprovalGate(ws: seq<World>, acts: seq<Action>, j: nat, job: Job)
    requires IsRun(ws, acts) && Sends(ws, acts, j, job) && job.draftId.Some?
    ensures exists i | 0 <= i < j ::
              ApprovedAt(ws, acts, i, job.messageId, Commit(job.draftId.value, job.sender, job.to, job.body))
  {
    Reachable(ws, acts, j);
    assert HeldOk(acts[j].messageId, ws[j].relay, ws[j].lists.routed, ws[j].reg);
    var i := CommitOrigin(ws, acts, j, job.messageId);
  }

  lemma HandledIsNeverHeldAgain(ws: seq<World>, acts: seq<Action>, j: nat, k: nat)
    requires IsRun(ws, acts) && j < k < |ws| && acts[j].Handle?
    ensures acts[j].messageId !in ws[k].relay.held
  {
    assert StepAt(ws, acts, j);
    HistoryStays(ws, acts, j + 1, k);
    Reachable(ws, acts, k);
    forall h | h in ws[k].relay.held ensures h != acts[j].messageId {
      assert HeldOk(h, ws[k].relay, ws[k].lists.routed, ws[k].reg);
    }
  }

  /** No message id is passed to `send_imessage` twice, and a second outcome for it never exists. */
  lemma AtMostOnce(ws: seq<World>, acts: seq<Action>, j: nat, k: nat)
    requires IsRun(ws, acts) && j < |acts| && k < |acts|
    requires acts[j].Handle? && acts[k].Handle? && acts[j].messageId == acts[k].messageId
    ensures j == k
  {
    assert StepAt(ws, acts, j) && StepAt(ws, acts, k);
    if j < k {
      HandledIsNeverHeldAgain(ws, acts, j, k);
      assert false;
    } else if k < j {
      HandledIsNeverHeldAgain(ws, acts, k, j);
      assert false;
    }
  }

  /** Only the relay's handling step ends a message otherwise than by dropping it. */
  lemma OnlyHandleEnds(w: World, a: Action, m: Id)
    requires Inv(w) && Enabled(w, a) && m !in w.relay.fate
    requires m in Apply(w, a).relay.fate && Apply(w, a).relay.fate[m] != Dropped
    ensures a.Handle? && a.messageId == m
    ensures WellFormed(w.relay.held[m]) && w.relay.held[m].messageId == m
    ensures Apply(w, a).relay.fate[m] == Delivered <==> a.result == Returned
  {
    if a.Handle? {
      assert HeldOk(a.messageId, w.relay, w.lists.routed, w.reg);
    }
  }

  lemma {:induction false} SendOrigin(ws: seq<World>, acts: seq<Action>, i: nat, m: Id) returns (j: nat)
    requires IsRun(ws, acts) && i < |ws| && m in ws[i].relay.fate && ws[i].relay.fate[m] != Dropped
    ensures j < i && acts[j].Handle? && acts[j].messageId == m
    ensures acts[j].result == Returned <==> ws[i].relay.fate[m] == Delivered
    ensures m in ws[j].relay.held && Sends(ws, acts, j, ws[j].relay.held[m]) && ws[j].relay.held[m].messageId == m
  {
    if m in ws[i - 1].relay.fate {
      HistoryStays(ws, acts, i - 1, i);
      j := SendOrigin(ws, acts, i - 1, m);
    } else {
      j := i - 1;
      SendHere(ws, acts, j, m);
    }
  }

  lemma SendHere(ws: seq<World>, acts: seq<Action>, j: nat, m: Id)
    requires IsRun(ws, acts) && j < |acts| && m !in ws[j].relay.fate
    requires m in ws[j + 1].relay.fate && ws[j + 1].relay.fate[m] != Dropped
    ensures acts[j].Handle? && acts[j].messageId == m
    ensures acts[j].result == Returned <==> ws[j + 1].relay.fate[m] == Delivered
    ensures m in ws[j].relay.held && Sends(ws, acts, j, ws[j].relay.held[m]) && ws[j].relay.held[m].messageId == m
  {
    assert StepAt(ws, acts, j);
    Reachable(ws, acts, j);
    OnlyHandleEnds(ws[j], acts[j], m);
  }

  /** The job that carried an approved dispatch id to the relay carries exactly what was committed for that id. */
  lemma HeldJobMatchesCommit(ws: seq<World>, acts: seq<Action>, j: nat, i: nat, m: Id)
    requires IsRun(ws, acts) && j <= i < |ws| && m in ws[j].relay.held && m in ws[i].reg.commits
    ensures var c, job := ws[i].reg.commits[m], ws[j].relay.held[m];
            job.messageId == m && c == Commit(c.draftId, job.sender, job.to, job.body) && job.draftId == Some(c.draftId)
  {
    Reachable(ws, acts, j);
    assert HeldOk(m, ws[j].relay, ws[j].lists.routed, ws[j].reg);
    HistoryStays(ws, acts, j, i);
    var p := CommitOrigin(ws, acts, i, m);
    assert StepAt(ws, acts, p);
    if p < j {
      HistoryStays(ws, acts, p + 1, j);
    } else {
      // The id was handed out before step `p` minted it.
      HistoryStays(ws, acts, j, p);
      assert false;
    }
  }

  /** Status `Sent` means that `send_imessage` returned normally for exactly the row's current dispatch id, with the
      row's agent and handle. */
  lemma SentMeansReturned(ws: seq<World>, acts: seq<Action>, i: nat, d: Id)
    requires IsRun(ws, acts) && i < |ws| && d in ws[i].rows && ws[i].rows[d].status == Sent
    ensures ws[i].rows[d].dispatchId.Some?
    ensures var row := ws[i].rows[d];
            exists j, job | 0 <= j < i ::
              && Sends(ws, acts, j, job) && acts[j].result == Returned
              && job.messageId == row.dispatchId.value && job.draftId == Some(d)
              && job.sender == row.agent && job.to == row.toHandle
  {
    Reachable(ws, acts, i);
    var row := ws[i].rows[d];
    assert RowOk(d, row, ws[i].reg, ws[i].relay.fate);
    var m := row.dispatchId.value;
    assert CommitOk(m, ws[i].reg.commits[m], ws[i].rows, ws[i].reg.minted);
    var j := SendOrigin(ws, acts, i, m);
    HeldJobMatchesCommit(ws, acts, j, i, m);
    var job := ws[j].relay.held[m];
    assert Sends(ws, acts, j, job);
  }

  // ---- `Sent` is terminal for the composed system

  /** A row changes only by a PATCH of it and by a report correlated with it. */
  lemma OtherStepsLeaveRow(w: World, a: Action, d: Id)
    requires Enabled(w, a) && d in w.rows && d in w.reg.minted
    requires !(a.Patch? && a.draftId == d) && !(a.Correlate? && a.hit == Some(d))
    ensures d in Apply(w, a).rows && Apply(w, a).rows[d] == w.rows[d]
  {
  }

  lemma SentStaysOneStep(w: World, a: Action, d: Id)
    requires Inv(w) && Enabled(w, a) && d in w.rows && w.rows[d].status == Sent
    ensures d in Apply(w, a).rows
    ensures var row' := Apply(w, a).rows[d];
            row' == w.rows[d].(modifiedAt := row'.modifiedAt, sentAt := row'.sentAt,
                               errorCode := row'.errorCode, errorMessage := row'.errorMessage)
  {
    assert RowOk(d, w.rows[d], w.reg, w.relay.fate);
    if a.Correlate? && a.hit == Some(d) {
      assert ReportOk(a.report, w.relay.fate);
    } else if !(a.Patch? && a.draftId == d) {
      OtherStepsLeaveRow(w, a, d);
    }
  }

  /** Once a draft is `Sent` no step of any component leaves `Sent`, and its agent, handle, body and dispatch id are
      frozen, although the correlation hook consults no status. */
  lemma {:induction false} SentIsForever(ws: seq<World>, acts: seq<Action>, i: nat, k: nat, d: Id)
    requires IsRun(ws, acts) && i <= k < |ws| && d in ws[i].rows && ws[i].rows[d].status == Sent
    ensures d in ws[k].rows
    ensures var row' := ws[k].rows[d];
            row' == ws[i].rows[d].(modifiedAt := row'.modifiedAt, sentAt := row'.sentAt,
                                   errorCode := row'.errorCode, errorMessage := row'.errorMessage)
    decreases k
  {
    if i < k {
      SentIsForever(ws, acts, i, k - 1, d);
      Reachable(ws, acts, k - 1);
      assert StepAt(ws, acts, k - 1);
      SentStaysOneStep(ws[k - 1], acts[k - 1], d);
    }
  }

  // ---- `Rejected` is terminal for PATCH only

  /** A report that some row waits for is correlated with that row. */
  lemma AwaitedRowIsHit(w: World, a: Action, d: Id)
    requires Inv(w) && Enabled(w, a) && a.Correlate? && d in w.rows
    ensures a.hit == Some(d) <==> Awaits(w.rows[d], a.report.messageId)
  {
    if Awaits(w.rows[d], a.report.messageId) {
      assert RowOk(d, w.rows[d], w.reg, w.relay.fate);
      assert RowOk(a.hit.value, w.rows[a.hit.value], w.reg, w.relay.fate);
    }
  }

  /** A step takes a draft out of `Rejected` exactly when it correlates a report for the dispatch id in its row. */
  lemma RejectedLeftOnlyByReport(w: World, a: Action, d: Id)
    requires Inv(w) && Enabled(w, a) && d in w.rows && w.rows[d].status == Rejected
    ensures d in Apply(w, a).rows
    ensures Apply(w, a).rows[d].status != Rejected <==> a.Correlate? && Awaits(w.rows[d], a.report.messageId)
    ensures Apply(w, a).rows[d].body == w.rows[d].body && Apply(w, a).rows[d].dispatchId == w.rows[d].dispatchId
  {
    assert RowOk(d, w.rows[d], w.reg, w.relay.fate);
    if a.Patch? && a.draftId == d {
      PatchEffect(w.rows[d], a.p, a.actor, a.uuid, a.readings);
    } else if a.Correlate? {
      AwaitedRowIsHit(w, a, d);
    } else {
      OtherStepsLeaveRow(w, a, d);
    }
  }

  /** No step from `i` up to `k` correlates a report for this dispatch id. */
  ghost predicate NoReport(acts: seq<Action>, i: nat, k: nat, dispatchId: Option<Id>) {
    forall q :: i <= q < k && q < |acts| && acts[q].Correlate? ==> dispatchId != Some(acts[q].report.messageId)
  }

  ghost predicate RejectedThroughout(ws: seq<World>, i: nat, k: nat, d: Id) {
    forall j :: i <= j <= k && j < |ws| ==> d in ws[j].rows && ws[j].rows[d].status == Rejected
  }

  ghost predicate SameText(row: Draft, other: Draft) {
    row.dispatchId == other.dispatchId && row.body == other.body
  }

  lemma RejectedNext(ws: seq<World>, acts: seq<Action>, k: nat, d: Id)
    requires IsRun(ws, acts) && k < |acts| && d in ws[k].rows && ws[k].rows[d].status == Rejected
    ensures d in ws[k + 1].rows && SameText(ws[k + 1].rows[d], ws[k].rows[d])
    ensures ws[k + 1].rows[d].status == Rejected <==> NoReport(acts, k, k + 1, ws[k].rows[d].dispatchId)
  {
    Reachable(ws, acts, k);
    assert StepAt(ws, acts, k);
    RejectedLeftOnlyByReport(ws[k], acts[k], d);
  }

  lemma NoReportStep(acts: seq<Action>, i: nat, k: nat, dispatchId: Option<Id>)
    requires i <= k < |acts|
    ensures NoReport(acts, i, k + 1, dispatchId)
            <==> NoReport(acts, i, k, dispatchId) && NoReport(acts, k, k + 1, dispatchId)
  {
  }

  lemma ThroughoutStep(ws: seq<World>, i: nat, k: nat, d: Id)
    requires i <= k && k + 1 < |ws| && d in ws[k + 1].rows
    ensures RejectedThroughout(ws, i, k + 1, d)
            <==> RejectedThroughout(ws, i, k, d) && ws[k + 1].rows[d].status == Rejected
  {
  }

  /** The state of the induction below: `row` is the rejected row at state `i`. */
  ghost predicate RejectedSoFar(ws: seq<World>, acts: seq<Action>, i: nat, k: nat, d: Id, row: Draft)
    requires k < |ws|
  {
    && (RejectedThroughout(ws, i, k, d) <==> NoReport(acts, i, k, row.dispatchId))
    && d in ws[k].rows && (RejectedThroughout(ws, i, k, d) ==> SameText(ws[k].rows[d], row))
  }

  lemma RejectedSoFarNext(ws: seq<World>, acts: seq<Action>, i: nat, k: nat, d: Id, row: Draft)
    requires IsRun(ws, acts) && i <= k < |acts| && RejectedSoFar(ws, acts, i, k, d, row)
    ensures RejectedSoFar(ws, acts, i, k + 1, d, row)
  {
    NoReportStep(acts, i, k, row.dispatchId);
    assert d in ws[k + 1].rows by {
      RowsStay(ws, acts, k, k + 1);
    }
    ThroughoutStep(ws, i, k, d);
    if RejectedThroughout(ws, i, k, d) {
      RejectedNext(ws, acts, k, d);
    }
  }

  lemma {:induction false} RejectedSoFarHolds(ws: seq<World>, acts: seq<Action>, i: nat, k: nat, d: Id)
    requires IsRun(ws, acts) && i <= k < |ws| && d in ws[i].rows && ws[i].rows[d].status == Rejected
    ensures RejectedSoFar(ws, acts, i, k, d, ws[i].rows[d])
    decreases k
  {
    if i < k {
      RejectedSoFarHolds(ws, acts, i, k - 1, d);
      RejectedSoFarNext(ws, acts, i, k - 1, d, ws[i].rows[d]);
    }
  }

  /** Over a whole run: a draft rejected at state `i` is still rejected at every state up to `k` exactly when no report
      for the dispatch id it had when it was rejected is correlated in between. */
  lemma StaysRejectedIff(ws: seq<World>, acts: seq<Action>, i: nat, k: nat, d: Id)
    requires IsRun(ws, acts) && i <= k < |ws| && d in ws[i].rows && ws[i].rows[d].status == Rejected
    ensures RejectedThroughout(ws, i, k, d) <==> NoReport(acts, i, k, ws[i].rows[d].dispatchId)
    ensures d in ws[k].rows && (RejectedThroughout(ws, i, k, d) ==> SameText(ws[k].rows[d], ws[i].rows[d]))
  {
    RejectedSoFarHolds(ws, acts, i, k, d);
  }

  /** A draft rejected before any approval stays rejected in every later state, whatever is reported. */
  lemma RejectedUnapprovedIsForever(ws: seq<World>, acts: seq<Action>, i: nat, k: nat, d: Id)
    requires IsRun(ws, acts) && i <= k < |ws| && d in ws[i].rows
    requires ws[i].rows[d].status == Rejected && ws[i].rows[d].dispatchId.None?
    ensures d in ws[k].rows && ws[k].rows[d].status == Rejected && ws[k].rows[d].body == ws[i].rows[d].body
  {
    StaysRejectedIff(ws, acts, i, k, d);
  }

  // ---- dispatch ids

  /** No dispatch id is shared by two drafts, so a report matches at most one row. */
  lemma DispatchIdsAreUnique(ws: seq<World>, acts: seq<Action>, i: nat, d: Id, e: Id, m: Id)
    requires IsRun(ws, acts) && i < |ws| && d in ws[i].rows && e in ws[i].rows
    requires Awaits(ws[i].rows[d], m) && Awaits(ws[i].rows[e], m)
    ensures d == e
  {
    Reachable(ws, acts, i);
    assert RowOk(d, ws[i].rows[d], ws[i].reg, ws[i].relay.fate);
    assert RowOk(e, ws[i].rows[e], ws[i].reg, ws[i].relay.fate);
  }

  ghost predicate Forgotten(w: World, m: Id) {
    m in w.reg.minted && forall e :: e in w.rows ==> !Awaits(w.rows[e], m)
  }

  lemma ForgottenStep(w: World, a: Action, m: Id)
    requires Enabled(w, a) && Forgotten(w, m)
    ensures Forgotten(Apply(w, a), m)
  {
    var w' := Apply(w, a);
    forall e | e in w'.rows ensures !Awaits(w'.rows[e], m) {
      assert e in w.rows ==> !Awaits(w.rows[e], m);
    }
  }

  lemma {:induction false} ForgottenStaysForgotten(ws: seq<World>, acts: seq<Action>, j: nat, k: nat, m: Id)
    requires IsRun(ws, acts) && j <= k < |ws| && Forgotten(ws[j], m)
    ensures Forgotten(ws[k], m)
    decreases k
  {
    if j < k {
      ForgottenStaysForgotten(ws, acts, j, k - 1, m);
      assert StepAt(ws, acts, k - 1);
      ForgottenStep(ws[k - 1], acts[k - 1], m);
    }
  }

  lemma AwaitedIsCommitted(ws: seq<World>, acts: seq<Action>, i: nat, d: Id, m: Id)
    requires IsRun(ws, acts) && i < |ws| && d in ws[i].rows && Awaits(ws[i].rows[d], m)
    ensures m in ws[i].reg.minted && m in ws[i].reg.commits && ws[i].reg.commits[m].draftId == d
  {
    Reachable(ws, acts, i);
    assert RowOk(d, ws[i].rows[d], ws[i].reg, ws[i].relay.fate);
    assert CommitOk(m, ws[i].reg.commits[m], ws[i].rows, ws[i].reg.minted);
  }

  lemma DroppedForGood(ws: seq<World>, acts: seq<Action>, i: nat, j: nat, k: nat, d: Id, m: Id)
    requires IsRun(ws, acts) && i <= j <= k < |ws|
    requires d in ws[i].rows && Awaits(ws[i].rows[d], m)
    requires d in ws[j].rows && !Awaits(ws[j].rows[d], m)
    ensures forall e :: e in ws[k].rows ==> !Awaits(ws[k].rows[e], m)
  {
    AwaitedIsCommitted(ws, acts, i, d, m);
    HistoryStays(ws, acts, i, j);
    forall e | e in ws[j].rows && Awaits(ws[j].rows[e], m) ensures e == d {
      AwaitedIsCommitted(ws, acts, j, e, m);
    }
    ForgottenStaysForgotten(ws, acts, j, k, m);
  }

  /** A dispatch id replaced by a later approval is inert: no row ever waits for it again, so correlating a report for
      it changes nothing. */
  lemma SupersededIsInert(ws: seq<World>, acts: seq<Action>, i: nat, j: nat, k: nat, d: Id, m: Id)
    requires IsRun(ws, acts) && i <= j <= k < |acts|
    requires d in ws[i].rows && Awaits(ws[i].rows[d], m)
    requires d in ws[j].rows && !Awaits(ws[j].rows[d], m)
    ensures forall e :: e in ws[k].rows ==> !Awaits(ws[k].rows[e], m)
    ensures acts[k].Correlate? && acts[k].report.messageId == m ==> ws[k + 1] == ws[k]
  {
    assert StepAt(ws, acts, k);
    DroppedForGood(ws, acts, i, j, k, d, m);
  }

  // ---- content

  /** `j` is somewhere on its way to the relay under the id `m`: owed, queued or held. */
  ghost predicate Carried(w: World, m: Id, j: Job) {
    || (m in w.owed && w.owed[m].job == j)
    || (exists agent, i :: 0 <= i < |Queue(w.lists.queues, agent)| && Queue(w.lists.queues, agent)[i] == Entry(m, Some(j)))
    || (m in w.relay.held && w.relay.held[m] == j)
  }

  /** While a draft is `Approved`, every job carrying its current dispatch id has the row's current content. */
  lemma ApprovedContentAgrees(ws: seq<World>, acts: seq<Action>, i: nat, d: Id, m: Id, job: Job)
    requires IsRun(ws, acts) && i < |ws| && d in ws[i].rows
    requires ws[i].rows[d].status == Approved && Awaits(ws[i].rows[d], m) && Carried(ws[i], m, job)
    ensures var row := ws[i].rows[d];
            job == Job(m, row.agent, row.toHandle, row.body, job.service, Some(d))
  {
    var w := ws[i];
    Reachable(ws, acts, i);
    assert RowOk(d, w.rows[d], w.reg, w.relay.fate);
    assert CommitOk(m, w.reg.commits[m], w.rows, w.reg.minted);
    if m in w.owed && w.owed[m].job == job {
      assert OwedOk(m, w.owed[m], w.lists.routed, w.reg);
    } else if m in w.relay.held && w.relay.held[m] == job {
      assert HeldOk(m, w.relay, w.lists.routed, w.reg);
    } else {
      var agent, k :| 0 <= k < |Queue(w.lists.queues, agent)| && Queue(w.lists.queues, agent)[k] == Entry(m, Some(job));
      assert QueueOk(agent, w.lists, w.relay, w.reg);
      assert EntryOk(Queue(w.lists.queues, agent)[k], agent, w.lists.routed, w.relay, w.reg);
    }
  }

  /** No accepted PATCH of `d` strictly between steps `p` and `k` writes a body other than `body`. */
  ghost predicate NoForeignEdit(acts: seq<Action>, p: nat, k: nat, d: Id, body: string) {
    forall q :: p < q < k && q < |acts| && acts[q].Patch? && acts[q].draftId == d && acts[q].p.body.Some?
                ==> acts[q].p.body.value == body
  }

  lemma KeepsDispatchId(ws: seq<World>, acts: seq<Action>, j: nat, k: nat, i: nat, d: Id, m: Id)
    requires IsRun(ws, acts) && j <= k <= i < |ws|
    requires d in ws[j].rows && Awaits(ws[j].rows[d], m) && d in ws[i].rows && Awaits(ws[i].rows[d], m)
    ensures d in ws[k].rows && Awaits(ws[k].rows[d], m)
  {
    RowsStay(ws, acts, j, k);
    if !Awaits(ws[k].rows[d], m) {
      DroppedForGood(ws, acts, j, k, i, d, m);
      assert false;
    }
  }

  lemma {:induction false} RowsStay(ws: seq<World>, acts: seq<Action>, i: nat, k: nat)
    requires IsRun(ws, acts) && i <= k < |ws|
    ensures ws[i].rows.Keys <= ws[k].rows.Keys
    decreases k
  {
    if i < k {
      assert StepAt(ws, acts, k - 1);
      RowsStay(ws, acts, i, k - 1);
    }
  }

  /** One step on a draft whose dispatch id stays `m` and whose send did not fail. */
  lemma ContentStep(w: World, a: Action, d: Id, m: Id)
    requires Inv(w) && Enabled(w, a) && d in w.rows && Awaits(w.rows[d], m) && d in Apply(w, a).rows
    requires Awaits(Apply(w, a).rows[d], m)
    requires m in w.relay.fate ==> w.relay.fate[m] == Delivered
    ensures Apply(w, a).rows[d].status != SendFailed
    ensures var edit := a.Patch? && a.draftId == d && a.p.body.Some?;
            && Apply(w, a).rows[d].body == (if edit then a.p.body.value else w.rows[d].body)
            && (edit ==> w.rows[d].status == Approved && Apply(w, a).rows[d].status == Rejected)
            && (Apply(w, a).rows[d].status == Approved ==> w.rows[d].status == Approved && !edit)
  {
    assert RowOk(d, w.rows[d], w.reg, w.relay.fate);
    if a.Patch? && a.draftId == d {
      assert CommitOk(m, w.reg.commits[m], w.rows, w.reg.minted);
      PatchEffect(w.rows[d], a.p, a.actor, a.uuid, a.readings);
    } else if a.Correlate? && a.hit == Some(d) {
      assert ReportOk(a.report, w.relay.fate);
    } else {
      OtherStepsLeaveRow(w, a, d);
    }
  }

  /** Step `p` approved `d` under dispatch id `m` with this body. */
  ghost predicate Commits(ws: seq<World>, acts: seq<Action>, p: nat, d: Id, m: Id, body: string) {
    && p < |acts| && p + 1 < |ws|
    && acts[p].Patch? && acts[p].draftId == d && acts[p].uuid == m
    && d in ws[p + 1].rows && Awaits(ws[p + 1].rows[d], m)
    && ws[p + 1].rows[d].status == Approved && ws[p + 1].rows[d].body == body
  }

  /** The state of the induction below, at step `k`. */
  ghost predicate Content(w: World, acts: seq<Action>, p: nat, k: nat, d: Id, m: Id, body: string) {
    && d in w.rows && Awaits(w.rows[d], m)
    && (w.rows[d].status == Approved || w.rows[d].status == Rejected || w.rows[d].status == Sent)
    && (w.rows[d].body == body <==> NoForeignEdit(acts, p, k, d, body))
    && (w.rows[d].status == Approved ==> NoForeignEdit(acts, p, k, d, body))
  }

  lemma NoForeignEditStep(acts: seq<Action>, p: nat, k: nat, d: Id, body: string)
    requires p < k < |acts|
    ensures NoForeignEdit(acts, p, k + 1, d, body) <==>
            && NoForeignEdit(acts, p, k, d, body)
            && (acts[k].Patch? && acts[k].draftId == d && acts[k].p.body.Some? ==> acts[k].p.body.value == body)
  {
  }

  lemma ContentReachableStep(ws: seq<World>, acts: seq<Action>, k: nat, d: Id, m: Id)
    requires IsRun(ws, acts) && k < |acts| && d in ws[k].rows && d in ws[k + 1].rows
    requires Awaits(ws[k].rows[d], m) && Awaits(ws[k + 1].rows[d], m)
    requires m in ws[k].relay.fate ==> ws[k].relay.fate[m] == Delivered
    ensures var a, row, row' := acts[k], ws[k].rows[d], ws[k + 1].rows[d];
            var edit := a.Patch? && a.draftId == d && a.p.body.Some?;
            && (row'.status == Approved || row'.status == Rejected || row'.status == Sent)
            && row'.body == (if edit then a.p.body.value else row.body)
            && (edit ==> row.status == Approved && row'.status == Rejected)
            && (row'.status == Approved ==> row.status == Approved && !edit)
  {
    Reachable(ws, acts, k);
    Reachable(ws, acts, k + 1);
    assert StepAt(ws, acts, k);
    ContentStep(ws[k], acts[k], d, m);
    assert RowOk(d, ws[k + 1].rows[d], ws[k + 1].reg, ws[k + 1].relay.fate);
  }

  lemma ContentNext(ws: seq<World>, acts: seq<Action>, p: nat, k: nat, d: Id, m: Id, body: string)
    requires IsRun(ws, acts) && p < k < |acts| && Content(ws[k], acts, p, k, d, m, body)
    requires d in ws[k + 1].rows && Awaits(ws[k + 1].rows[d], m)
    requires EndsOnly(ws[k], m, Delivered)
    ensures Content(ws[k + 1], acts, p, k + 1, d, m, body)
  {
    ContentReachableStep(ws, acts, k, d, m);
    NoForeignEditStep(acts, p, k, d, body);
  }

  lemma ContentStart(ws: seq<World>, acts: seq<Action>, p: nat, d: Id, m: Id, body: string)
    requires Commits(ws, acts, p, d, m, body)
    ensures Content(ws[p + 1], acts, p, p + 1, d, m, body)
  {
    assert NoForeignEdit(acts, p, p + 1, d, body);
  }

  /** If the message has ended, it has ended this way. */
  ghost predicate EndsOnly(w: World, m: Id, fate: Fate) {
    m in w.relay.fate ==> w.relay.fate[m] == fate
  }

  lemma EndsOnlyBefore(ws: seq<World>, acts: seq<Action>, k: nat, i: nat, m: Id, fate: Fate)
    requires IsRun(ws, acts) && k <= i < |ws| && EndsOnly(ws[i], m, fate)
    ensures EndsOnly(ws[k], m, fate)
  {
    HistoryStays(ws, acts, k, i);
  }

  lemma {:induction false} BodyUntilSent(ws: seq<World>, acts: seq<Action>, p: nat, k: nat, i: nat, d: Id, m: Id,
        body: string)
    requires IsRun(ws, acts) && p < k <= i < |ws| && Commits(ws, acts, p, d, m, body)
    requires d in ws[i].rows && Awaits(ws[i].rows[d], m) && EndsOnly(ws[i], m, Delivered)
    ensures Content(ws[k], acts, p, k, d, m, body)
    decreases k
  {
    if k == p + 1 {
      ContentStart(ws, acts, p, d, m, body);
    } else {
      BodyUntilSent(ws, acts, p, k - 1, i, d, m, body);
      KeepsDispatchId(ws, acts, p + 1, k, i, d, m);
      EndsOnlyBefore(ws, acts, k - 1, i, m, Delivered);
      ContentNext(ws, acts, p, k - 1, d, m, body);
    }
  }

  lemma PatchThatMints(ws: seq<World>, acts: seq<Action>, p: nat)
    requires IsRun(ws, acts) && p < |acts| && acts[p].Patch?
    requires acts[p].draftId in ws[p + 1].rows && Awaits(ws[p + 1].rows[acts[p].draftId], acts[p].uuid)
    ensures var row := ws[p + 1].rows[acts[p].draftId];
            ApprovedAt(ws, acts, p, acts[p].uuid, Commit(acts[p].draftId, row.agent, row.toHandle, row.body))
  {
    assert StepAt(ws, acts, p);
    Reachable(ws, acts, p);
    var d := acts[p].draftId;
    var row := ws[p].rows[d];
    assert RowOk(d, row, ws[p].reg, ws[p].relay.fate);
    if row.dispatchId.Some? {
      assert CommitOk(row.dispatchId.value, ws[p].reg.commits[row.dispatchId.value], ws[p].rows, ws[p].reg.minted);
    }
  }

  /** What was sent is what the row says, unless a late rejection edited it: a `Sent` draft whose current dispatch id
      was committed by step `p` has the committed body exactly when no later accepted PATCH of it wrote another. */
  lemma SentBodyIffNoLateEdit(ws: seq<World>, acts: seq<Action>, p: nat, i: nat, d: Id)
    requires IsRun(ws, acts) && p < i < |ws| && d in ws[i].rows && ws[i].rows[d].status == Sent
    requires acts[p].Patch? && acts[p].draftId == d && ws[i].rows[d].dispatchId == Some(acts[p].uuid)
    requires d in ws[p + 1].rows && ws[p + 1].rows[d].dispatchId == Some(acts[p].uuid)
    ensures ws[i].rows[d].body == ws[p + 1].rows[d].body <==> NoForeignEdit(acts, p, i, d, ws[p + 1].rows[d].body)
    ensures exists j, job | p < j < i ::
              Sends(ws, acts, j, job) && acts[j].result == Returned
              && job.messageId == acts[p].uuid && job.body == ws[p + 1].rows[d].body
  {
    var m := acts[p].uuid;
    Reachable(ws, acts, i);
    assert RowOk(d, ws[i].rows[d], ws[i].reg, ws[i].relay.fate);
    PatchThatMints(ws, acts, p);
    assert StepAt(ws, acts, p);
    BodyUntilSent(ws, acts, p, i, i, d, m, ws[p + 1].rows[d].body);
    var j := SendOrigin(ws, acts, i, m);
    HeldJobMatchesCommit(ws, acts, j, i, m);
    HistoryStays(ws, acts, p + 1, i);
    if j <= p {
      Reachable(ws, acts, j);
      assert HeldOk(m, ws[j].relay, ws[j].lists.routed, ws[j].reg);
      HistoryStays(ws, acts, j, p);
      assert false;
    }
    assert ws[i].reg.commits[m].body == ws[p + 1].rows[d].body by {
      Reachable(ws, acts, p + 1);
      assert RowOk(d, ws[p + 1].rows[d], ws[p + 1].reg, ws[p + 1].relay.fate);
    }
    assert Sends(ws, acts, j, ws[j].relay.held[m]);
  }

  // ---- empty bodies

  /** Handling the job of a draft is reported exactly when the approval committed a non-empty body, as long as the
      relay survives the send. */
  lemma HandlingIsReportedIff(ws: seq<World>, acts: seq<Action>, j: nat)
    requires IsRun(ws, acts) && StepAt(ws, acts, j) && acts[j].Handle? && !acts[j].result.Died?
    requires ws[j].relay.held[acts[j].messageId].draftId.Some?
    ensures acts[j].messageId in ws[j].reg.commits
    ensures (exists r :: r in ws[j + 1].posted && r.messageId == acts[j].messageId)
            <==> ws[j].reg.commits[acts[j].messageId].body != ""
  {
    var m := acts[j].messageId;
    Reachable(ws, acts, j);
    assert HeldOk(m, ws[j].relay, ws[j].lists.routed, ws[j].reg);
    CommittedHandle(ws[j], m);
    forall r | r in ws[j].posted ensures r.messageId != m {
      assert ReportOk(r, ws[j].relay.fate);
    }
    var report := ReportOf(ws[j].relay.held[m], acts[j].result, acts[j].now);
    assert report.Some? ==> report.value in ws[j + 1].posted && report.value.messageId == m;
  }

  lemma CommittedHandle(w: World, m: Id)
    requires Inv(w) && m in w.reg.commits
    ensures m != "" && w.reg.commits[m].toHandle != ""
  {
    var c := w.reg.commits[m];
    assert CommitOk(m, c, w.rows, w.reg.minted);
    assert RowOk(c.draftId, w.rows[c.draftId], w.reg, w.relay.fate);
  }

  /** What the relay sent, well or badly, was committed with a non-empty body. */
  lemma SentBodyIsNotEmpty(ws: seq<World>, acts: seq<Action>, i: nat, m: Id)
    requires IsRun(ws, acts) && i < |ws| && m in ws[i].reg.commits
    requires m in ws[i].relay.fate && ws[i].relay.fate[m] != Dropped
    ensures ws[i].reg.commits[m].body != ""
  {
    var j := SendOrigin(ws, acts, i, m);
    HeldJobMatchesCommit(ws, acts, j, i, m);
  }

  /** Some accepted PATCH of `d` lies strictly between steps `p` and `k`. */
  ghost predicate PatchedAgain(acts: seq<Action>, p: nat, k: nat, d: Id) {
    exists q :: p < q < k && q < |acts| && acts[q].Patch? && acts[q].draftId == d
  }

  /** One step on an approved or rejected draft that no report reaches and that keeps its dispatch id. */
  lemma UnreportedStep(w: World, a: Action, d: Id, m: Id)
    requires Inv(w) && Enabled(w, a) && d in w.rows && Awaits(w.rows[d], m)
    requires d in Apply(w, a).rows && Awaits(Apply(w, a).rows[d], m)
    requires w.rows[d].status == Approved || w.rows[d].status == Rejected
    requires m in w.relay.fate ==> w.relay.fate[m] == Dropped
    ensures Apply(w, a).rows[d].status == if a.Patch? && a.draftId == d then Rejected else w.rows[d].status
  {
    assert RowOk(d, w.rows[d], w.reg, w.relay.fate);
    if a.Patch? && a.draftId == d {
      assert CommitOk(m, w.reg.commits[m], w.rows, w.reg.minted);
      PatchEffect(w.rows[d], a.p, a.actor, a.uuid, a.readings);
    } else {
      if a.Correlate? {
        assert ReportOk(a.report, w.relay.fate);
      }
      OtherStepsLeaveRow(w, a, d);
    }
  }

  /** The state of the induction below: approved until patched again, then rejected. */
  ghost predicate Unreported(w: World, d: Id, m: Id, patched: bool) {
    d in w.rows && Awaits(w.rows[d], m) && w.rows[d].status == if patched then Rejected else Approved
  }

  lemma UnreportedNext(ws: seq<World>, acts: seq<Action>, p: nat, k: nat, d: Id, m: Id)
    requires IsRun(ws, acts) && p < k < |acts| && Unreported(ws[k], d, m, PatchedAgain(acts, p, k, d))
    requires d in ws[k + 1].rows && Awaits(ws[k + 1].rows[d], m)
    requires EndsOnly(ws[k], m, Dropped)
    ensures Unreported(ws[k + 1], d, m, PatchedAgain(acts, p, k + 1, d))
  {
    Reachable(ws, acts, k);
    assert StepAt(ws, acts, k);
    UnreportedStep(ws[k], acts[k], d, m);
    PatchedAgainStep(acts, p, k, d);
  }

  lemma UnreportedStart(ws: seq<World>, acts: seq<Action>, p: nat, d: Id, m: Id, body: string)
    requires Commits(ws, acts, p, d, m, body)
    ensures Unreported(ws[p + 1], d, m, PatchedAgain(acts, p, p + 1, d))
  {
  }

  lemma {:induction false} UnreportedUntil(ws: seq<World>, acts: seq<Action>, p: nat, k: nat, i: nat, d: Id, m: Id,
        body: string)
    requires IsRun(ws, acts) && p < k <= i < |ws| && Commits(ws, acts, p, d, m, body)
    requires d in ws[i].rows && Awaits(ws[i].rows[d], m)
    requires EndsOnly(ws[i], m, Dropped)
    ensures Unreported(ws[k], d, m, PatchedAgain(acts, p, k, d))
    decreases k
  {
    if k == p + 1 {
      UnreportedStart(ws, acts, p, d, m, body);
    } else {
      UnreportedUntil(ws, acts, p, k - 1, i, d, m, body);
      KeepsDispatchId(ws, acts, p + 1, k, i, d, m);
      EndsOnlyBefore(ws, acts, k - 1, i, m, Dropped);
      UnreportedNext(ws, acts, p, k - 1, d, m);
    }
  }

  lemma PatchedAgainStep(acts: seq<Action>, p: nat, k: nat, d: Id)
    requires p < k < |acts|
    ensures PatchedAgain(acts, p, k + 1, d) <==> PatchedAgain(acts, p, k, d) || (acts[k].Patch? && acts[k].draftId == d)
  {
  }

  /** A PATCH may empty a body, and the relay drops jobs with empty bodies without a report. So a draft approved with an
      empty body, as long as it waits for that dispatch, is approved until a later PATCH rejects it and rejected from
      then on, and no report for it ever exists. */
  lemma EmptyBodyStaysApproved(ws: seq<World>, acts: seq<Action>, p: nat, i: nat, d: Id, m: Id)
    requires IsRun(ws, acts) && p < i < |ws| && Commits(ws, acts, p, d, m, "")
    requires d in ws[i].rows && Awaits(ws[i].rows[d], m)
    ensures ws[i].rows[d].status == if PatchedAgain(acts, p, i, d) then Rejected else Approved
    ensures forall r :: r in ws[i].posted ==> r.messageId != m
  {
    CommittedBody(ws, acts, p, i, d, m, "");
    if m in ws[i].relay.fate && ws[i].relay.fate[m] != Dropped {
      SentBodyIsNotEmpty(ws, acts, i, m);
    }
    UnreportedUntil(ws, acts, p, i, i, d, m, "");
    Reachable(ws, acts, i);
    forall r | r in ws[i].posted ensures r.messageId != m {
      assert ReportOk(r, ws[i].relay.fate);
    }
  }

  lemma CommittedBody(ws: seq<World>, acts: seq<Action>, p: nat, i: nat, d: Id, m: Id, body: string)
    requires IsRun(ws, acts) && p < i < |ws| && Commits(ws, acts, p, d, m, body)
    ensures m in ws[i].reg.commits && ws[i].reg.commits[m].body == body
  {
    Reachable(ws, acts, p + 1);
    assert RowOk(d, ws[p + 1].rows[d], ws[p + 1].reg, ws[p + 1].relay.fate);
    HistoryStays(ws, acts, p + 1, i);
  }

  lemma Extend(ws: seq<World>, acts: seq<Action>, a: Action)
    requires IsRun(ws, acts) && Enabled(ws[|acts|], a)
    ensures IsRun(ws + [Apply(ws[|acts|], a)], acts + [a])
  {
    var w := Apply(ws[|acts|], a);
    forall i | 0 <= i < |acts + [a]| ensures StepAt(ws + [w], acts + [a], i) {
      assert i < |acts| ==> StepAt(ws, acts, i);
    }
  }

  /** Such a draft exists: its PATCH empties the body and approves, and after the relay has taken the job everything has
      come to rest with the draft approved and nothing reported. */
  lemma EmptyBodyIsDroppedSilently() returns (ws: seq<World>, acts: seq<Action>)
    ensures IsRun(ws, acts) && |acts| == 5 && Commits(ws, acts, 1, "d", "m", "") && acts[4] == Handle("m", Returned, 2)
    ensures "d" in ws[5].rows && ws[5].rows["d"].status == Approved && Awaits(ws[5].rows["d"], "m")
    ensures ws[5].posted == {} && ws[5].owed == map[] && ws[5].relay.held == map[]
    ensures Queue(ws[5].lists.queues, "a") == []
  {
    var ws0, acts0 := HeldRun(Some(""));
    var handle := Handle("m", Returned, 2);
    Extend(ws0, acts0, handle);
    ws, acts := ws0 + [Apply(ws0[4], handle)], acts0 + [handle];
  }

  /** Draft "d" is created and approved, with its body edited or not. */
  lemma ApprovedRun(edit: Option<string>) returns (ws: seq<World>, acts: seq<Action>)
    ensures IsRun(ws, acts) && |acts| == 2
    ensures Commits(ws, acts, 1, "d", "m", if edit.Some? then edit.value else "hello")
    ensures var w, body := ws[2], if edit.Some? then edit.value else "hello";
            && w.rows.Keys == {"d"} && w.rows["d"].status == Approved && w.rows["d"].dispatchId == Some("m")
            && w.owed == map["m" := Owed(Job("m", "a", "to", body, "iMessage", Some("d")), IMessage)]
            && w.lists == Lists(map[], map[], map[], map[]) && w.relay == Relay(map[], map[]) && w.posted == {}
            && w.reg.minted == {"d", "m"}
  {
    acts := [Create("d", CreateRequest("a", IMessage, "to", "hello", None, None), "brain", 0),
             Patch("d", PatchRequest(Some(Approved), edit, None, None), "op", "m", Readings(1, 1))];
    var w1 := Apply(Init(), acts[0]);
    ws := [Init(), w1, Apply(w1, acts[1])];
  }

  /** Its job is pushed and popped. */
  lemma HeldRun(edit: Option<string>) returns (ws: seq<World>, acts: seq<Action>)
    ensures IsRun(ws, acts) && |acts| == 4
    ensures Commits(ws, acts, 1, "d", "m", if edit.Some? then edit.value else "hello")
    ensures var w, body := ws[4], if edit.Some? then edit.value else "hello";
            && w.rows.Keys == {"d"} && w.rows["d"].status == Approved && w.rows["d"].dispatchId == Some("m")
            && w.owed == map[] && Queue(w.lists.queues, "a") == [] && w.posted == {} && w.reg.minted == {"d", "m"}
            && w.relay == Relay(map["m" := Job("m", "a", "to", body, "iMessage", Some("d"))], map[])
  {
    ws, acts := ApprovedRun(edit);
    var w3 := Apply(ws[2], Push("m"));
    Extend(ws, acts, Push("m"));
    ws, acts := ws + [w3], acts + [Push("m")];
    Extend(ws, acts, Pop("a", false));
    ws, acts := ws + [Apply(w3, Pop("a", false))], acts + [Pop("a", false)];
  }

  /** `Rejected` is not terminal for the system: a draft rejected, and edited, while its job is on its way is marked
      `Sent` by the relay's report, and the row then shows a body that was never sent. */
  lemma LateRejectIsOverruled() returns (ws: seq<World>, acts: seq<Action>)
    ensures IsRun(ws, acts) && |acts| == 7
    ensures "d" in ws[5].rows && ws[5].rows["d"].status == Rejected
    ensures "d" in ws[7].rows && ws[7].rows["d"].status == Sent && ws[7].rows["d"].body == "edited"
    ensures "m" in ws[5].relay.held && Sends(ws, acts, 5, ws[5].relay.held["m"]) && ws[5].relay.held["m"].body == "hello"
  {
    var ws0, acts0 := LateReject();
    var handle := Handle("m", Returned, 3);
    var report := Report("m", Success, Some(3));
    var correlate := Correlate(report, Some("d"), 4);
    var w6 := Apply(ws0[5], handle);
    Extend(ws0, acts0, handle);
    assert report in w6.posted;
    ws, acts := ws0 + [w6], acts0 + [handle];
    Extend(ws, acts, correlate);
    ws, acts := ws + [Apply(w6, correlate)], acts + [correlate];
  }

  /** A draft rejected and edited while its job is on its way. */
  lemma LateReject() returns (ws: seq<World>, acts: seq<Action>)
    ensures IsRun(ws, acts) && |acts| == 5 && ws[5].rows.Keys == {"d"}
    ensures ws[5].rows["d"].status == Rejected && ws[5].rows["d"].body == "edited" && Awaits(ws[5].rows["d"], "m")
    ensures ws[5].relay.held == map["m" := Job("m", "a", "to", "hello", "iMessage", Some("d"))]
  {
    var ws0, acts0 := HeldRun(None);
    var reject := Patch("d", PatchRequest(Some(Rejected), Some("edited"), None, None), "op", "n", Readings(2, 2));
    Extend(ws0, acts0, reject);
    ws, acts := ws0 + [Apply(ws0[4], reject)], acts0 + [reject];
  }

  /** Two approvals of one draft put two jobs with the same content on the queue. */
  lemma ApproveTwice() returns (ws: seq<World>, acts: seq<Action>)
    ensures IsRun(ws, acts) && |acts| == 5
    ensures var job := Job("m", "a", "to", "hello", "iMessage", Some("d"));
            Queue(ws[5].lists.queues, "a") == [Entry("m", Some(job)), Entry("n", Some(job.(messageId := "n")))]
  {
    var approve := PatchRequest(Some(Approved), None, None, None);
    acts := [Create("d", CreateRequest("a", IMessage, "to", "hello", None, None), "brain", 0),
             Patch("d", approve, "op", "m", Readings(1, 1)), Push("m"),
             Patch("d", approve, "op", "n", Readings(2, 2)), Push("n")];
    var w1 := Apply(Init(), acts[0]);
    var w2 := Apply(w1, acts[1]);
    var w3 := Apply(w2, acts[2]);
    var w4 := Apply(w3, acts[3]);
    ws := [Init(), w1, w2, w3, w4, Apply(w4, acts[4])];
  }

  /** Re-approving is not idempotent: approving an approved draft again sends its message a second time. */
  lemma ReapprovalSendsTwice() returns (ws: seq<World>, acts: seq<Action>)
    ensures IsRun(ws, acts)
    ensures exists j, k, first, second | 0 <= j < k < |acts| ::
              && Sends(ws, acts, j, first) && Sends(ws, acts, k, second)
              && acts[j].result == Returned && acts[k].result == Returned
              && first.draftId == second.draftId == Some("d") && first.body == second.body
  {
    var ws0, acts0 := ApproveTwice();
    var pop := Pop("a", false);
    var w6 := Apply(ws0[5], pop);
    Extend(ws0, acts0, pop);
    var w7 := Apply(w6, Handle("m", Returned, 3));
    Extend(ws0 + [w6], acts0 + [pop], Handle("m", Returned, 3));
    var w8 := Apply(w7, pop);
    Extend(ws0 + [w6] + [w7], acts0 + [pop] + [Handle("m", Returned, 3)], pop);
    var w9 := Apply(w8, Handle("n", Returned, 4));
    ws := ws0 + [w6] + [w7] + [w8];
    acts := acts0 + [pop] + [Handle("m", Returned, 3)] + [pop];
    Extend(ws, acts, Handle("n", Returned, 4));
    ws, acts := ws + [w9], acts + [Handle("n", Returned, 4)];
    assert ws[6] == w6 && ws[8] == w8;
    assert Sends(ws, acts, 6, w6.relay.held["m"]);
    assert Sends(ws, acts, 8, w8.relay.held["n"]);
  }

  // ---- what can always be done next

  /** New work is always accepted, under an unused uuid: a draft is inserted as asked for, and a direct send goes to the
      end of its sender's queue, bound to no draft. */
  lemma NewWorkIsAccepted(ws: seq<World>, acts: seq<Action>, i: nat, uuid: Id, r: CreateRequest, actor: string, now: int,
                          service: string)
    requires IsRun(ws, acts) && i < |ws| && uuid !in ws[i].reg.minted && uuid != "" && r.toHandle != "" && r.body != ""
    ensures Enabled(ws[i], Create(uuid, r, actor, now))
    ensures var w' := Apply(ws[i], Create(uuid, r, actor, now));
            && uuid in w'.rows && w'.rows[uuid].status == Pending && w'.rows[uuid].body == r.body
            && w'.rows[uuid].toHandle == r.toHandle && w'.rows[uuid].agent == r.agent && w'.rows[uuid].channel == r.channel
    ensures Enabled(ws[i], DirectSend(uuid, r.agent, r.toHandle, r.body, service))
    ensures var w' := Apply(ws[i], DirectSend(uuid, r.agent, r.toHandle, r.body, service));
            Queue(w'.lists.queues, r.agent)
            == Queue(ws[i].lists.queues, r.agent)
               + [Entry(uuid, Some(Job(uuid, r.agent, r.toHandle, r.body, service, None)))]
  {
    NewDraftIsPending(r, actor, now);
  }

  /** Any pending, approved or failed draft can be approved under an unused uuid, which for a failed one is its retry:
      the row becomes approved with its content unchanged, and the job for it is owed. */
  lemma DraftCanBeApproved(ws: seq<World>, acts: seq<Action>, i: nat, d: Id, actor: string, uuid: Id, readings: Readings)
    requires IsRun(ws, acts) && i < |ws| && d in ws[i].rows && uuid !in ws[i].reg.minted && uuid != ""
    requires var status := ws[i].rows[d].status; status == Pending || status == Approved || status == SendFailed
    ensures Enabled(ws[i], Approval(d, actor, uuid, readings))
    ensures var row, w' := ws[i].rows[d], Apply(ws[i], Approval(d, actor, uuid, readings));
            && w'.rows[d].status == Approved && w'.rows[d].dispatchId == Some(uuid)
            && w'.rows[d].body == row.body && w'.rows[d].toHandle == row.toHandle && w'.rows[d].agent == row.agent
            && uuid in w'.owed && w'.owed[uuid].channel == row.channel
            && w'.owed[uuid].job == Job(uuid, row.agent, row.toHandle, row.body, "iMessage", Some(d))
  {
    PatchIsAcceptedIff(ws[i].rows[d], PatchRequest(Some(Approved), None, None, None), actor, uuid, readings);
  }

  function Approval(d: Id, actor: string, uuid: Id, readings: Readings): Action {
    Patch(d, PatchRequest(Some(Approved), None, None, None), actor, uuid, readings)
  }

  /** An owed iMessage job can be pushed, which puts it at the end of its agent's queue and nowhere else. */
  lemma OwedJobCanBePushed(ws: seq<World>, acts: seq<Action>, i: nat, m: Id)
    requires IsRun(ws, acts) && i < |ws| && m in ws[i].owed && ws[i].owed[m].channel == IMessage
    ensures Enabled(ws[i], Push(m))
    ensures var job, w' := ws[i].owed[m].job, Apply(ws[i], Push(m));
            && Queue(w'.lists.queues, job.sender) == Queue(ws[i].lists.queues, job.sender) + [Entry(m, Some(job))]
            && (forall agent :: agent != job.sender ==>
                  Queue(w'.lists.queues, agent) == Queue(ws[i].lists.queues, agent))
  {
    Reachable(ws, acts, i);
    assert OwedOk(m, ws[i].owed[m], ws[i].lists.routed, ws[i].reg);
  }

  /** A push may also fail, on any channel: then the commit stands, nothing is queued, and the job is lost. */
  lemma OwedJobCanBeLost(ws: seq<World>, acts: seq<Action>, i: nat, m: Id)
    requires IsRun(ws, acts) && i < |ws| && m in ws[i].owed
    ensures Enabled(ws[i], Abandon(m))
    ensures Apply(ws[i], Abandon(m)) == ws[i].(owed := ws[i].owed - {m})
  {
  }

  /** The head of a queue can be popped: a readable job whose reply arrives is held under its id, and otherwise the id is
      dropped; the rest of the queue stays in order. */
  lemma HeadCanBePopped(ws: seq<World>, acts: seq<Action>, i: nat, agent: string, lost: bool)
    requires IsRun(ws, acts) && i < |ws| && Queue(ws[i].lists.queues, agent) != []
    ensures Enabled(ws[i], Pop(agent, lost))
    ensures var q, w' := Queue(ws[i].lists.queues, agent), Apply(ws[i], Pop(agent, lost));
            && Queue(w'.lists.queues, agent) == q[1..]
            && (!lost && q[0].job.Some? ==> w'.relay == ws[i].relay.(held := ws[i].relay.held[q[0].id := q[0].job.value]))
            && (lost || q[0].job.None? ==> w'.relay == ws[i].relay.(fate := ws[i].relay.fate[q[0].id := Dropped]))
  {
  }

  /** A held job can be handled: it is held no more, and a complete one is reported as its send ended, unless the send
      ended the relay; an incomplete one is not reported. */
  lemma HeldJobCanBeHandled(ws: seq<World>, acts: seq<Action>, i: nat, m: Id, result: SendResult, now: int)
    requires IsRun(ws, acts) && i < |ws| && m in ws[i].relay.held
    ensures Enabled(ws[i], Handle(m, result, now))
    ensures var job, w' := ws[i].relay.held[m], Apply(ws[i], Handle(m, result, now));
            var complete := job.to != "" && job.body != "";
            && m !in w'.relay.held
            && (complete && result.Returned? ==> w'.posted == ws[i].posted + {Report(m, Success, Some(now))})
            && (complete && result.Raised? ==>
                  w'.posted == ws[i].posted + {Report(m, Failure(Some(result.code), Some(result.message)), Some(now))})
            && (!complete || result.Died? ==> w'.posted == ws[i].posted)
  {
    Reachable(ws, acts, i);
    assert HeldOk(m, ws[i].relay, ws[i].lists.routed, ws[i].reg);
    MintedIsNotEmpty(ws, acts, i, m);
  }

  /** Ids of jobs on their way are never empty. */
  lemma {:induction false} MintedIsNotEmpty(ws: seq<World>, acts: seq<Action>, i: nat, m: Id)
    requires IsRun(ws, acts) && i < |ws| && m in ws[i].lists.routed
    ensures m != ""
  {
    if m !in ws[i - 1].lists.routed {
      assert StepAt(ws, acts, i - 1);
      Reachable(ws, acts, i - 1);
      RoutedIsNotEmpty(ws[i - 1], acts[i - 1], m);
    } else {
      MintedIsNotEmpty(ws, acts, i - 1, m);
    }
  }

  lemma RoutedIsNotEmpty(w: World, a: Action, m: Id)
    requires Inv(w) && Enabled(w, a) && m !in w.lists.routed && m in Apply(w, a).lists.routed
    ensures m != ""
  {
    if a.Push? {
      assert OwedOk(a.messageId, w.owed[a.messageId], w.lists.routed, w.reg);
      CommittedHandle(w, a.messageId);
    }
  }

  /** A posted report for which a row waits can be correlated with it: the row becomes sent or failed as the report says,
      with its time or its error, and no other row changes. */
  lemma ReportSettlesDraft(ws: seq<World>, acts: seq<Action>, i: nat, r: Report, d: Id, now: int)
    requires IsRun(ws, acts) && i < |ws| && r in ws[i].posted && d in ws[i].rows && Awaits(ws[i].rows[d], r.messageId)
    ensures Enabled(ws[i], Correlate(r, Some(d), now))
    ensures var row, w' := ws[i].rows[d], Apply(ws[i], Correlate(r, Some(d), now));
            && w'.rows.Keys == ws[i].rows.Keys && (forall e :: e in w'.rows && e != d ==> w'.rows[e] == ws[i].rows[e])
            && w'.rows[d].body == row.body && w'.rows[d].dispatchId == row.dispatchId
            && (r.outcome.Success? ==> w'.rows[d].status == Sent && w'.rows[d].errorCode.None?
                                       && w'.rows[d].sentAt == Some(if r.sentAt.Some? then r.sentAt.value else now))
            && (r.outcome.Failure? ==> w'.rows[d].status == SendFailed
                                       && w'.rows[d].errorCode.Some? && w'.rows[d].errorCode.value != "")
  {
    OutcomeIsWritten(ws[i].rows[d], r, now);
  }

  // ---- the queue: order and conservation

  ghost function PushesUnder(w: World, a: Action, agent: string): seq<Id>
    requires Enabled(w, a)
  {
    if (a.DirectSend? && a.sender == agent) || (a.Push? && w.owed[a.messageId].job.sender == agent)
    then [a.messageId] else []
  }

  ghost function PopsUnder(w: World, a: Action, agent: string): seq<Id>
    requires Enabled(w, a)
  {
    if a.Pop? && a.agent == agent then [Queue(w.lists.queues, agent)[0].id] else []
  }

  /** The ids pushed under `agent` by the first `n` steps, in order. */
  ghost function PushedIds(ws: seq<World>, acts: seq<Action>, n: nat, agent: string): seq<Id>
    requires IsRun(ws, acts) && n < |ws|
  {
    if n == 0 then []
    else
      assert StepAt(ws, acts, n - 1);
      PushedIds(ws, acts, n - 1, agent) + PushesUnder(ws[n - 1], acts[n - 1], agent)
  }

  /** The ids popped under `agent` by the first `n` steps, in order. */
  ghost function PoppedIds(ws: seq<World>, acts: seq<Action>, n: nat, agent: string): seq<Id>
    requires IsRun(ws, acts) && n < |ws|
  {
    if n == 0 then []
    else
      assert StepAt(ws, acts, n - 1);
      PoppedIds(ws, acts, n - 1, agent) + PopsUnder(ws[n - 1], acts[n - 1], agent)
  }

  lemma PushLogStep(w: World, a: Action, agent: string)
    requires Enabled(w, a) && AllOwedOk(w.owed, w.lists.routed, w.reg)
    ensures Log(Apply(w, a).lists.pushed, agent) == Log(w.lists.pushed, agent) + PushesUnder(w, a, agent)
  {
    if a.Push? {
      assert OwedOk(a.messageId, w.owed[a.messageId], w.lists.routed, w.reg);
    }
  }

  lemma PopLogStep(w: World, a: Action, agent: string)
    requires Enabled(w, a)
    ensures Log(Apply(w, a).lists.popped, agent) == Log(w.lists.popped, agent) + PopsUnder(w, a, agent)
  {
  }

  lemma {:induction false} LogsAreTraces(ws: seq<World>, acts: seq<Action>, n: nat, agent: string)
    requires IsRun(ws, acts) && n < |ws|
    ensures Log(ws[n].lists.pushed, agent) == PushedIds(ws, acts, n, agent)
    ensures Log(ws[n].lists.popped, agent) == PoppedIds(ws, acts, n, agent)
  {
    if n > 0 {
      LogsAreTraces(ws, acts, n - 1, agent);
      Reachable(ws, acts, n - 1);
      assert StepAt(ws, acts, n - 1);
      PushLogStep(ws[n - 1], acts[n - 1], agent);
      PopLogStep(ws[n - 1], acts[n - 1], agent);
    }
  }

  ghost predicate Distinct(s: seq<Id>) {
    forall i, j :: 0 <= i < j < |s| ==> s[i] != s[j]
  }

  lemma PushIsNew(w: World, a: Action, agent: string)
    requires Inv(w) && Enabled(w, a)
    ensures forall m :: m in PushesUnder(w, a, agent) ==> m !in Log(w.lists.pushed, agent)
  {
    if a.Push? {
      assert OwedOk(a.messageId, w.owed[a.messageId], w.lists.routed, w.reg);
    } else if a.DirectSend? {
      assert RoutedOk(a.messageId, w.lists, w.relay, w.reg.minted);
    }
  }

  lemma DistinctJoins(before: seq<Id>, added: seq<Id>)
    requires Distinct(before) && |added| <= 1 && forall m :: m in added ==> m !in before
    ensures Distinct(before + added)
  {
    if added != [] {
      assert added[0] in added;
    }
  }

  lemma PushNext(w: World, a: Action, agent: string)
    requires Inv(w) && Enabled(w, a) && Distinct(Log(w.lists.pushed, agent))
    ensures Distinct(Log(Apply(w, a).lists.pushed, agent))
  {
    PushIsNew(w, a, agent);
    PushLogStep(w, a, agent);
    DistinctJoins(Log(w.lists.pushed, agent), PushesUnder(w, a, agent));
  }

  lemma {:induction false} PushedOnce(ws: seq<World>, acts: seq<Action>, n: nat, agent: string)
    requires IsRun(ws, acts) && n < |ws|
    ensures Distinct(Log(ws[n].lists.pushed, agent))
  {
    if n > 0 {
      PushedOnce(ws, acts, n - 1, agent);
      Reachable(ws, acts, n - 1);
      assert StepAt(ws, acts, n - 1);
      PushNext(ws[n - 1], acts[n - 1], agent);
    }
  }

  /** Each agent's jobs, direct sends and draft dispatches mixed, are popped in push order, each once. */
  lemma OutboxIsFifo(ws: seq<World>, acts: seq<Action>, n: nat, agent: string)
    requires IsRun(ws, acts) && n < |ws|
    ensures PushedIds(ws, acts, n, agent) == PoppedIds(ws, acts, n, agent) + Ids(Queue(ws[n].lists.queues, agent))
    ensures Distinct(PushedIds(ws, acts, n, agent))
  {
    LogsAreTraces(ws, acts, n, agent);
    PushedOnce(ws, acts, n, agent);
    Reachable(ws, acts, n);
    assert InOrder(agent, ws[n].lists);
  }

  /** A queued id is queued under the agent it was pushed for, and nowhere else. */
  lemma QueuedIsNotElsewhere(w: World, other: string, m: Id)
    requires QueuesOk(w.lists, w.relay, w.reg) && m in Ids(Queue(w.lists.queues, other))
    ensures m in w.lists.routed && w.lists.routed[m] == other && m !in w.relay.held && m !in w.relay.fate
  {
    var q := Queue(w.lists.queues, other);
    assert QueueOk(other, w.lists, w.relay, w.reg);
    var i :| 0 <= i < |q| && Ids(q)[i] == m;
    assert EntryOk(q[i], other, w.lists.routed, w.relay, w.reg);
  }

  lemma PushedIsSomewhere(w: World, agent: string, m: Id)
    requires LogsOk(w.lists, w.relay, w.reg.minted) && m in Log(w.lists.pushed, agent)
    ensures m in w.lists.routed && w.lists.routed[m] == agent
    ensures m in Ids(Queue(w.lists.queues, agent)) || m in w.relay.held || m in w.relay.fate
  {
    assert InOrder(agent, w.lists) && RoutedOk(m, w.lists, w.relay, w.reg.minted);
  }

  /** Conservation: a pushed id is in exactly one place: queued (under its own agent only), held by a relay, or ended
      as delivered, failed or dropped, and then exactly one of the three. */
  lemma PushedIdIsInOnePlace(ws: seq<World>, acts: seq<Action>, n: nat, agent: string, m: Id)
    requires IsRun(ws, acts) && n < |ws| && m in PushedIds(ws, acts, n, agent)
    ensures var queued, held, ended :=
              m in Ids(Queue(ws[n].lists.queues, agent)), m in ws[n].relay.held, m in ws[n].relay.fate;
            && (queued || held || ended)
            && !(queued && held) && !(queued && ended) && !(held && ended)
    ensures forall other :: other != agent ==> m !in Ids(Queue(ws[n].lists.queues, other))
  {
    LogsAreTraces(ws, acts, n, agent);
    Reachable(ws, acts, n);
    InOnePlace(ws[n], agent, m);
  }

  lemma InOnePlace(w: World, agent: string, m: Id)
    requires QueuesOk(w.lists, w.relay, w.reg) && LogsOk(w.lists, w.relay, w.reg.minted)
    requires RelayOk(w.relay, w.lists.routed, w.reg) && m in Log(w.lists.pushed, agent)
    ensures var queued, held, ended := m in Ids(Queue(w.lists.queues, agent)), m in w.relay.held, m in w.relay.fate;
            && (queued || held || ended)
            && !(queued && held) && !(queued && ended) && !(held && ended)
    ensures forall other :: other != agent ==> m !in Ids(Queue(w.lists.queues, other))
  {
    PushedIsSomewhere(w, agent, m);
    forall other | m in Ids(Queue(w.lists.queues, other))
      ensures other == agent && m !in w.relay.held && m !in w.relay.fate
    {
      QueuedIsNotElsewhere(w, other, m);
    }
    if m in w.relay.held {
      assert HeldOk(m, w.relay, w.lists.routed, w.reg);
    }
  }
}
