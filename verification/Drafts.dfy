/** Draft rows, and the handlers of `routes/agent.py` that insert and update them. */
module Drafts {
  import opened Prelude

  /** A uuid in its text form. */
  type Id = string

  datatype Status = Pending | Approved | Rejected | Sent | SendFailed

  datatype Channel = IMessage | Email

  datatype Draft = Draft(
    agent: string,
    channel: Channel,
    toHandle: string,
    body: string,
    status: Status,
    modifiedAt: int,
    dispatchId: Option<Id>,
    approvedAt: Option<int>,
    approvedBy: Option<string>,
    rejectReason: Option<string>,
    sentAt: Option<int>,
    errorCode: Option<string>,
    errorMessage: Option<string>,
    createdAt: int,
    inReplyTo: Option<Id>,
    preview: string,
    publisher: string)

  datatype CreateRequest = CreateRequest(
    agent: string,
    channel: Channel,
    toHandle: string,
    body: string,
    inReplyTo: Option<Id>,
    preview: Option<string>)

  /** The two clock readings of a PATCH: for the row, and, later, for its approval. */
  datatype Readings = Readings(modified: int, approved: int)

  datatype PatchRequest = PatchRequest(
    status: Option<Status>,
    body: Option<string>,
    rejectReason: Option<string>,
    approvedBy: Option<string>)

  datatype PatchError =
    | EmptyPatch
    | NotFound
    | IllegalTransition(current: Status, requested: Status, allowed: set<Status>)
    | BodyFrozen(current: Status)

  /** The outbound job blob. `draftId` is absent on direct sends. */
  datatype Job = Job(messageId: Id, sender: string, to: string, body: string, service: string, draftId: Option<Id>)

  /** What the relay posts after one dispatch. */
  datatype Report = Report(messageId: Id, outcome: SendOutcome, sentAt: Option<int>)

  datatype SendOutcome = Success | Failure(code: Option<string>, message: Option<string>)

  function AllowedTargets(s: Status): set<Status> {
    match s
    case Pending => {Approved, Rejected}
    case Approved => {Approved, Rejected}
    case SendFailed => {Approved, Rejected}
    case Sent => {}
    case Rejected => {}
  }

  const PREVIEW_LENGTH: nat := 80

  /** The preview asked for, or the beginning of the body. */
  function PreviewOf(r: CreateRequest): string {
    if r.preview.Some? && r.preview.value != "" then r.preview.value
    else if |r.body| <= PREVIEW_LENGTH then r.body
    else r.body[..PREVIEW_LENGTH]
  }

  function NewDraft(r: CreateRequest, actor: string, now: int): Draft {
    Draft(r.agent, r.channel, r.toHandle, r.body, Pending, now, None, None, None, None, None, None, None,
          now, r.inReplyTo, PreviewOf(r), actor)
  }

  function Target(row: Draft, p: PatchRequest): Status {
    if p.status.Some? then p.status.value else row.status
  }

  /** The row a PATCH leaves behind, or the reason it is refused. */
  function PatchedRow(row: Draft, p: PatchRequest, actor: string, uuid: Id, now: Readings): Result<Draft, PatchError> {
    var target := Target(row, p);
    if p.status.None? && p.body.None? then
      Err(EmptyPatch)
    else if target != row.status && target !in AllowedTargets(row.status) then
      Err(IllegalTransition(row.status, target, AllowedTargets(row.status)))
    else if p.body.Some? && (row.status == Sent || row.status == Rejected) then
      Err(BodyFrozen(row.status))
    else
      var edited := row.(modifiedAt := now.modified, status := target,
                         body := if p.body.Some? then p.body.value else row.body);
      if target == Approved then
        Ok(edited.(dispatchId := Some(uuid), approvedAt := Some(now.approved),
                   approvedBy := if p.approvedBy.Some? then p.approvedBy
                                 else if row.approvedBy.None? then Some(actor)
                                 else row.approvedBy,
                   errorCode := None, errorMessage := None))
      else if target == Rejected && p.rejectReason.Some? then
        Ok(edited.(rejectReason := p.rejectReason))
      else
        Ok(edited)
  }

  /** The job that approving `row` owes to the outbound queue. */
  function DispatchJob(draftId: Id, row: Draft): Job
    requires row.dispatchId.Some?
  {
    Job(row.dispatchId.value, row.agent, row.toHandle, row.body, "iMessage", Some(draftId))
  }

  /** The row that a correlated outcome leaves behind; no current status is consulted. */
  function CorrelatedRow(row: Draft, r: Report, now: int): Draft {
    match r.outcome
    case Success =>
      row.(status := Sent, sentAt := Some(if r.sentAt.Some? then r.sentAt.value else now), modifiedAt := now,
           errorCode := None, errorMessage := None)
    case Failure(code, message) =>
      row.(status := SendFailed,
           errorCode := Some(if code.Some? && code.value != "" then code.value else "unknown"),
           errorMessage := Some(if message.Some? then message.value else ""), modifiedAt := now)
  }

  /** `row` is the one the correlation query looks for. */
  predicate Awaits(row: Draft, messageId: Id) {
    row.dispatchId == Some(messageId)
  }

  /** A new draft has the content, the agent and the channel asked for and the caller as its publisher; it is pending and
      nothing has happened to it; and its preview is never empty and shows nothing but the preview asked for or the
      first 80 characters of the body. */
  lemma NewDraftIsPending(r: CreateRequest, actor: string, now: int)
    requires r.body != ""
    ensures var row := NewDraft(r, actor, now);
            && row.status == Pending && row.createdAt == row.modifiedAt == now
            && row.agent == r.agent && row.channel == r.channel && row.toHandle == r.toHandle && row.body == r.body
            && row.inReplyTo == r.inReplyTo && row.publisher == actor
            && row.dispatchId.None? && row.approvedAt.None? && row.approvedBy.None? && row.rejectReason.None?
            && row.sentAt.None? && row.errorCode.None? && row.errorMessage.None?
            && row.preview != ""
            && (r.preview.Some? && r.preview.value != "" ==> row.preview == r.preview.value)
            && (r.preview.None? || r.preview.value == "" ==>
                  row.preview <= r.body && (|row.preview| == 80 || row.preview == r.body))
  {
  }

  /** Which PATCHes are accepted: those that change something, and ask for the status the row has or for an approval or
      rejection of a row that is pending, approved or failed, and leave the body of sent and rejected rows alone. The
      first of the three that fails is the error. */
  lemma PatchIsAcceptedIff(row: Draft, p: PatchRequest, actor: string, uuid: Id, now: Readings)
    ensures var changes := p.status.Some? || p.body.Some?;
            var open := row.status == Pending || row.status == Approved || row.status == SendFailed;
            var reaches := || p.status.None? || p.status.value == row.status
                           || (open && (p.status.value == Approved || p.status.value == Rejected));
            var mayEdit := p.body.None? || (row.status != Sent && row.status != Rejected);
            var r := PatchedRow(row, p, actor, uuid, now);
            && (r.Ok? <==> changes && reaches && mayEdit)
            && (r == Err(EmptyPatch) <==> !changes)
            && (changes && !reaches ==>
                  r == Err(IllegalTransition(row.status, p.status.value, if open then {Approved, Rejected} else {})))
            && (changes && reaches && !mayEdit ==> r == Err(BodyFrozen(row.status)))
  {
    assert Approved in AllowedTargets(Pending) && Rejected in AllowedTargets(Pending);
    assert Sent !in AllowedTargets(Pending) && SendFailed !in AllowedTargets(Pending);
    assert Pending !in AllowedTargets(Pending);
  }

  /** What an accepted PATCH may change: `Sent` and `Rejected` rows keep their status and body, agent and handle never
      change, and the dispatch id changes only to the new one, on landing in `Approved`. */
  lemma PatchEffect(row: Draft, p: PatchRequest, actor: string, uuid: Id, now: Readings)
    requires PatchedRow(row, p, actor, uuid, now).Ok?
    ensures var row' := PatchedRow(row, p, actor, uuid, now).value;
            && row'.agent == row.agent && row'.toHandle == row.toHandle && row'.channel == row.channel
            && row'.createdAt == row.createdAt && row'.inReplyTo == row.inReplyTo && row'.preview == row.preview
            && row'.publisher == row.publisher && row'.sentAt == row.sentAt && row'.modifiedAt == now.modified
            && row'.status == (if p.status.Some? then p.status.value else row.status)
            && row'.approvedBy == (if row'.status != Approved then row.approvedBy
                                   else if p.approvedBy.Some? then p.approvedBy
                                   else if row.approvedBy.Some? then row.approvedBy
                                   else Some(actor))
            && row'.rejectReason == (if row'.status == Rejected && p.rejectReason.Some? then p.rejectReason
                                     else row.rejectReason)
            && row'.errorCode == (if row'.status == Approved then None else row.errorCode)
            && row'.errorMessage == (if row'.status == Approved then None else row.errorMessage)
            && row'.approvedAt == (if row'.status == Approved then Some(now.approved) else row.approvedAt)
            && row'.body == (if p.body.Some? then p.body.value else row.body)
            && row'.dispatchId == (if row'.status == Approved then Some(uuid) else row.dispatchId)
            && (row.status == Sent || row.status == Rejected ==> row'.status == row.status && p.body.None?)
            && (row'.status == Pending ==> row.status == Pending)
            && (row'.status == SendFailed ==> row.status == SendFailed)
            && (row'.status == Sent ==> row.status == Sent)
  {
  }

  /** What an outcome writes: the status it means and when and why; nothing else of the row changes. */
  lemma OutcomeIsWritten(row: Draft, r: Report, now: int)
    ensures var row' := CorrelatedRow(row, r, now);
            && row' == row.(status := row'.status, sentAt := row'.sentAt, modifiedAt := now,
                            errorCode := row'.errorCode, errorMessage := row'.errorMessage)
            && (r.outcome.Success? ==>
                  && row'.status == Sent && row'.errorCode.None? && row'.errorMessage.None?
                  && row'.sentAt == Some(if r.sentAt.Some? then r.sentAt.value else now))
            && (r.outcome.Failure? ==>
                  && row'.status == SendFailed && row'.sentAt == row.sentAt
                  && row'.errorCode == (if r.outcome.code == None || r.outcome.code == Some("") then Some("unknown")
                                        else r.outcome.code)
                  && row'.errorMessage == (if r.outcome.message.None? then Some("") else r.outcome.message))
  {
  }

  /** The job that a committed PATCH still has to push. */
  function OwedJob(draftId: Id, committed: Draft): Option<Job> {
    if committed.status == Approved && committed.dispatchId.Some? then Some(DispatchJob(draftId, committed)) else None
  }

  /** An accepted PATCH owes a job to the queue exactly when it asks for `Approved`, or asks for no status while the row
      is approved: re-approvals and body-only edits of an approved draft mint a new dispatch id as a first approval
      does. The job carries the new id and the edited body. */
  lemma OwesJobIffTargetIsApproved(draftId: Id, row: Draft, p: PatchRequest, actor: string, uuid: Id, now: Readings)
    requires PatchedRow(row, p, actor, uuid, now).Ok?
    ensures var owed := OwedJob(draftId, PatchedRow(row, p, actor, uuid, now).value);
            && (owed.Some? <==> p.status == Some(Approved) || (p.status.None? && row.status == Approved))
            && (owed.Some? ==>
                  owed.value == Job(uuid, row.agent, row.toHandle, if p.body.Some? then p.body.value else row.body,
                                    "iMessage", Some(draftId)))
            && PatchedRow(row, p, actor, uuid, now).value.dispatchId
               == (if owed.Some? then Some(uuid) else row.dispatchId)
  {
    PatchEffect(row, p, actor, uuid, now);
  }

  /** The `drafts` table. */
  class DraftStore {
    var rows: map<Id, Draft>

    constructor ()
      ensures rows == map[]
    {
      rows := map[];
    }

    method CreateDraft(uuid: Id, r: CreateRequest, actor: string, now: int)
      requires uuid !in rows
      modifies this
      ensures rows == old(rows)[uuid := NewDraft(r, actor, now)]
    {
      var preview := if r.preview.Some? then r.preview.value else "";
      if preview == "" {
        preview := if |r.body| <= PREVIEW_LENGTH then r.body else r.body[..PREVIEW_LENGTH];
      }
      rows := rows[uuid := Draft(r.agent, r.channel, r.toHandle, r.body, Pending, now, None, None, None, None, None, None,
                                 None, now, r.inReplyTo, preview, actor)];
    }

    /** The commit part of `patch_draft`. On success it also returns the job still to be pushed, if any. */
    method PatchDraft(draftId: Id, p: PatchRequest, actor: string, uuid: Id, now: Readings)
      returns (r: Result<(Draft, Option<Job>), PatchError>)
      modifies this
      ensures r.Ok? <==>
              draftId in old(rows) && PatchedRow(old(rows)[draftId], p, actor, uuid, now).Ok?
      ensures r.Ok? ==>
                && r.value.0 == PatchedRow(old(rows)[draftId], p, actor, uuid, now).value
                && rows == old(rows)[draftId := r.value.0]
                && r.value.1 == OwedJob(draftId, r.value.0)
                && (r.value.1.Some? <==> Target(old(rows)[draftId], p) == Approved)
      ensures r.Err? ==> rows == old(rows)
      ensures r.Err? ==> r.error == if p.status.None? && p.body.None? then EmptyPatch
                                    else if draftId !in rows then NotFound
                                    else PatchedRow(rows[draftId], p, actor, uuid, now).error
    {
      if p.status.None? && p.body.None? {
        return Err(EmptyPatch);
      }
      if draftId !in rows {
        return Err(NotFound);
      }
      var row := rows[draftId];
      var current := row.status;
      var target := if p.status.Some? then p.status.value else current;
      if target != current {
        var allowed := AllowedTargets(current);
        if target !in allowed {
          return Err(IllegalTransition(current, target, allowed));
        }
      }
      if p.body.Some? && (current == Sent || current == Rejected) {
        return Err(BodyFrozen(current));
      }
      // The UPDATE is built column by column.
      var updated := row.(modifiedAt := now.modified);
      var newBody := row.body;
      if p.body.Some? {
        newBody := p.body.value;
        updated := updated.(body := p.body.value);
      }
      updated := updated.(status := target);
      var newDispatchId := row.dispatchId;
      if target == Approved && (current == Pending || current == SendFailed || current == Approved) {
        newDispatchId := Some(uuid);
        updated := updated.(dispatchId := newDispatchId, approvedAt := Some(now.approved));
        if p.approvedBy.Some? {
          updated := updated.(approvedBy := p.approvedBy);
        } else if row.approvedBy.None? {
          updated := updated.(approvedBy := Some(actor));
        }
        updated := updated.(errorCode := None, errorMessage := None);
      }
      if target == Rejected && p.rejectReason.Some? {
        updated := updated.(rejectReason := p.rejectReason);
      }
      rows := rows[draftId := updated];
      var owed: Option<Job> := None;
      if target == Approved
         && (current == Pending || current == SendFailed || (current == Approved && target == Approved)) {
        owed := Some(Job(newDispatchId.value, updated.agent, updated.toHandle, newBody, "iMessage", Some(draftId)));
      }
      r := Ok((updated, owed));
    }

    /** `correlate_send_outcome`: updates one row that waits for this message id, whatever its status. */
    method CorrelateSendOutcome(rep: Report, now: int) returns (hit: Option<Id>)
      modifies this
      ensures hit.Some? ==>
                && hit.value in old(rows) && Awaits(old(rows)[hit.value], rep.messageId)
                && rows == old(rows)[hit.value := CorrelatedRow(old(rows)[hit.value], rep, now)]
      ensures hit.None? ==>
                && rows == old(rows)
                && forall d :: d in rows ==> !Awaits(rows[d], rep.messageId)
    {
      var matches := set d | d in rows && Awaits(rows[d], rep.messageId);
      if matches == {} {
        hit := None;
        forall d | d in rows ensures !Awaits(rows[d], rep.messageId) {
          assert d !in matches;
        }
      } else {
        var d :| d in matches;
        var row := rows[d];
        match rep.outcome {
          case Success =>
            row := row.(status := Sent, sentAt := if rep.sentAt.Some? then rep.sentAt else Some(now), modifiedAt := now,
                        errorCode := None, errorMessage := None);
          case Failure(code, message) =>
            row := row.(status := SendFailed, errorCode := Some("unknown"), errorMessage := Some(""), modifiedAt := now);
            if code.Some? && code.value != "" {
              row := row.(errorCode := code);
            }
            if message.Some? {
              row := row.(errorMessage := message);
            }
        }
        rows := rows[d := row];
        hit := Some(d);
      }
    }
  }
}
