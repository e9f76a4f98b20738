/**
  What holds over every joint run of inbox and path for an action whose direct
  proposals all need approval: it is requested for execution at most once, only
  after somebody approved it, and the stored result says what the journal says.
 */
module ApprovedResults {
  import opened Prelude
  import Proposals
  import Store = ApprovalStore
  import Inbox = ApprovalInbox
  import Runs = ApprovalRuns
  import Path = ActionPath
  import Races = ActionRaces
  import opened ActionEndings
  import opened ApprovedExecution

  /** It is requested for execution at most once. */
  lemma {:induction false} RequestedOnce(w: World, ls: seq<Label>, a: string)
    requires Guarded(w, ls, a)
    ensures Races.Single(Run(w, ls).path.log, a)
  {
    ApprovedExecution.Reachable(w, ls, a);
    PathRuns(w, ls);
    JournalMatchesEndings(PathPart(w, ls), a);
    var p := Run(w, ls).path;
    forall i, k | Races.RequestAt(p.log, i, a) && Races.RequestAt(p.log, k, a)
      ensures i == k
    {
      var t :| TaskOf(p.tasks, t, a) && p.tasks[t].request == i;
      var u :| TaskOf(p.tasks, u, a) && p.tasks[u].request == k;
    }
  }

  /** So nothing but a refusal between its CANCELED and a later outcome gives it two outcomes. */
  lemma {:induction false} OneOutcomeUnlessOverruled(w: World, ls: seq<Label>, a: string)
    requires Guarded(w, ls, a)
    ensures Races.TwoOutcomes(Run(w, ls).path.log, a) <==> Races.Overruled(Run(w, ls).path.log, a)
  {
    RequestedOnce(w, ls, a);
    PathRuns(w, ls);
    Races.AtMostOneOutcome(PathPart(w, ls), a);
  }

  /**
    The call's row has one record, an APPROVED one over the hash of the called
    proposal, and it says what somebody asked for.
   */
  ghost predicate ApprovedBySomeone(w: World, ls: seq<Label>, k: nat)
    requires k < |Run(w, ls).inbox.calls|
  {
    var (db, call) := (Run(w, ls).inbox.db, Run(w, ls).inbox.calls[k]);
    exists r, req ::
      && Store.RecordsOf(db.records, call.approvalId) == [r]
      && r.decision == Store.Approved && r.actionHash == Proposals.Hash(call.proposal)
      && Runs.Asked(InboxPart(w, ls), req) && Runs.Words(r, req) && req.approved
  }

  /**
    The execution requested at place `i` carries the hash of a proposal that
    the inbox called for and somebody approved.
   */
  ghost predicate ApprovedRequest(w: World, ls: seq<Label>, a: string, i: int, t: nat, k: nat) {
    var j := Run(w, ls);
    && t < |j.path.tasks| && k < |j.inbox.calls| && j.path.tasks[t].request == i
    && j.inbox.calls[k].proposal.actionId == a && Reads(w, j.path.tasks[t].sub, j.inbox.calls[k].proposal)
    && ApprovedBySomeone(w, ls, k)
  }

  /** No such action is requested for execution unless somebody approved that very proposal. */
  lemma {:induction false} ExecutedMeansApproved(w: World, ls: seq<Label>, a: string, i: int)
    requires Guarded(w, ls, a) && Races.RequestAt(Run(w, ls).path.log, i, a)
    ensures exists t, k :: ApprovedRequest(w, ls, a, i, t, k)
  {
    ApprovedExecution.Reachable(w, ls, a);
    PathRuns(w, ls);
    JournalMatchesEndings(PathPart(w, ls), a);
    var j := Run(w, ls);
    var t :| TaskOf(j.path.tasks, t, a) && j.path.tasks[t].request == i;
    var k :| CallFor(j.inbox.calls, k, a) && Reads(w, j.path.tasks[t].sub, j.inbox.calls[k].proposal);
    CallWasApproved(w, ls, k);
    assert ApprovedRequest(w, ls, a, i, t, k);
  }

  /** The stored result of a consumed approval, set against the journal of its action. */
  ghost predicate Agrees(stored: Store.ActionResult, log: seq<Path.Event>, a: string) {
    && (stored.ok <==> Path.Logged(log, a, Path.Completed))
    && (stored.status == "failed" <==> Path.Logged(log, a, Path.Failed))
    && (stored.status == "canceled" ==> Path.Logged(log, a, Path.Canceled))
    && (Path.Logged(log, a, Path.Canceled) && !Races.Overruled(log, a) ==> stored.status == "canceled")
  }

  /** Over every joint run, the result stored in a consumed row agrees with the journal. */
  lemma {:induction false} StoredResultAgrees(w: World, ls: seq<Label>, id: string)
    requires Inbox.In(Run(w, ls).inbox.db, id, Store.Consumed)
    requires Guarded(w, ls, Run(w, ls).inbox.db.rows[id].ticket.actionId)
    ensures var row := Run(w, ls).inbox.db.rows[id];
            row.result.Some? && Agrees(row.result.value, Run(w, ls).path.log, row.ticket.actionId)
  {
    var (j, a) := (Run(w, ls), Run(w, ls).inbox.db.rows[id].ticket.actionId);
    ApprovedExecution.Reachable(w, ls, a);
    InboxRuns(w, ls);
    Inbox.Reachable(InboxPart(w, ls));
    var k :| 0 <= k < |j.inbox.calls| && j.inbox.calls[k].approvalId == id;
    assert Inbox.CallInv(j.inbox.db, j.inbox.calls[k]);
    Inbox.CallBelongsToAction(j.inbox, k);
    assert CallFor(j.inbox.calls, k, a);
    BackedAgrees(w, ls, a, j.inbox.calls[k].result.value);
  }

  lemma {:induction false} BackedAgrees(w: World, ls: seq<Label>, a: string, done: Store.ActionResult)
    requires Guarded(w, ls, a) && ApprovedExecution.Inv(w, Run(w, ls), a) && Backed(Run(w, ls).path.tasks, a, done)
    ensures Agrees(Store.Recorded(done), Run(w, ls).path.log, a)
  {
    var (tasks, log) := (Run(w, ls).path.tasks, Run(w, ls).path.log);
    PathRuns(w, ls);
    JournalMatchesEndings(PathPart(w, ls), a);
    OneOutcomeUnlessOverruled(w, ls, a);
    if HasTask(tasks, a) {
      var t :| TaskOf(tasks, t, a) && tasks[t].phase.Done? && Tells(done, tasks[t].phase.ending);
      var ending := tasks[t].phase.ending;
      assert Ended(tasks, a, ending);
      assert forall e :: Ended(tasks, a, e) ==> e == ending;
      if Path.Logged(log, a, Path.Canceled)
        && ending in {Path.EndCompleted, Path.EndFailed} { TwoLogged(log, a, ending); }
    }
  }

  lemma TwoLogged(log: seq<Path.Event>, a: string, ending: Path.Ending)
    requires Path.Logged(log, a, Path.Canceled) && ending in {Path.EndCompleted, Path.EndFailed}
    requires Path.Logged(log, a, if ending == Path.EndCompleted then Path.Completed else Path.Failed)
    ensures Races.TwoOutcomes(log, a)
  {
    var i :| 0 <= i < |log| && log[i].action == a && log[i].kind == Path.Canceled;
    var k :| 0 <= k < |log| && log[k].action == a && log[k].kind == if ending == Path.EndCompleted
      then Path.Completed else Path.Failed;
    assert Races.OutcomeAt(log, i, a) && Races.OutcomeAt(log, k, a);
  }

  lemma {:induction false} CallWasApproved(w: World, ls: seq<Label>, k: nat)
    requires k < |Run(w, ls).inbox.calls|
    ensures ApprovedBySomeone(w, ls, k)
  {
    var part := InboxPart(w, ls);
    InboxRuns(w, ls);
    Runs.CallCarriesDecision(part, k);
    var (db, call) := (Run(w, ls).inbox.db, Run(w, ls).inbox.calls[k]);
    var rs := Store.RecordsOf(db.records, call.approvalId);
    RecordsAreLogged(db.records, call.approvalId);
    Runs.Provenance(part);
    assert rs[0] in rs && Runs.Traced(part, rs[0]);
    var req :| Runs.Asked(part, req) && Runs.Words(rs[0], req);
    assert rs == [rs[0]];
  }

  lemma {:induction false} RecordsAreLogged(records: seq<Store.Record>, id: string)
    ensures forall r :: r in Store.RecordsOf(records, id) ==> r in records
    decreases |records|
  {
    if records != [] { RecordsAreLogged(records[..|records| - 1], id); }
  }
}
