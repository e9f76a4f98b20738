/**
  One whole life of an approval: asked for, approved, resumed, executed, stored.
  The run shows that what `ApprovedExecution` says of requests and of consumed
  approvals is said of something.
 */
module ApprovedRun {
  import opened Prelude
  import opened Timestamps
  import opened Proposals
  import opened ApprovalStore
  import opened ApprovedExecution
  import Inbox = ApprovalInbox
  import Path = ActionPath
  import Races = ActionRaces

  /** Who asks for what, when, and how the path reads it. */
  datatype Scene = Scene(p: Proposal, req: Request, at: Instant, deadline: Instant, sub: Path.Submission,
    done: ActionResult)

  predicate Plausible(w: World, x: Scene) {
    && x.req.approved && !Blank(x.req.principal) && !Blank(x.req.reason) && !Blank(x.req.channel)
    && !TextLe(Iso(x.deadline), Iso(x.at))
    && Reads(w, x.sub, Rebuilt(x.p)) && Tells(x.done, Path.EndCompleted)
  }

  function Rebuilt(p: Proposal): Proposal {
    FromPayload(Stored(ToPayload(p)))
  }

  /** The row of the scene with a given status. */
  function RowAt(x: Scene, status: Status): Row {
    var row := NewRow(x.p, x.req.approvalId, x.at, x.deadline, None, None);
    if status == Pending then row
    else row.(status := status, verdict := Some(Verdict(Iso(x.at), x.req.principal, x.req.reason, x.req.channel)))
  }

  function DbAt(x: Scene, status: Status): Db {
    Db(map[x.req.approvalId := RowAt(x, status)],
       if status == Pending then []
       else [Record(x.req.approvalId, Hash(x.p), Approved,
         Verdict(Iso(x.at), x.req.principal, x.req.reason, x.req.channel))])
  }

  function SysAt(x: Scene, status: Status, st: Inbox.Stage): Inbox.Sys {
    Inbox.Sys(DbAt(x, status), map[0 := st], [])
  }

  lemma Asked(x: Scene)
    ensures var l := Inbox.Create(x.p, x.req.approvalId, x.at, x.deadline, None, None);
            Inbox.Step(Inbox.Step(Inbox.EMPTY, l), Inbox.Arrive(0, x.req)) == SysAt(x, Pending, Inbox.Deciding(x.req))
  {
    assert !Known(Inbox.EMPTY.db, x.p.actionId, Hash(x.p));
  }

  lemma Decided(w: World, x: Scene)
    requires Plausible(w, x)
    ensures Inbox.Step(SysAt(x, Pending, Inbox.Deciding(x.req)), Inbox.Act(0, Inbox.Decide(x.at))) ==
            SysAt(x, Approved, Inbox.Rereading(x.req))
  {
    ParseIso(x.deadline);
    ExpiryAgreement(x.deadline);
    assert Readable(Iso(x.deadline));
    var db := DecideTx(DbAt(x, Pending), x.req, x.at).0;
    assert db.rows == DbAt(x, Approved).rows && db.records == DbAt(x, Approved).records;
  }

  lemma Fetched(x: Scene, status: Status)
    ensures Fetch(DbAt(x, status), x.req.approvalId) == Ok(RowAt(x, status))
  {
    RoundTrip(x.p);
  }

  lemma ReadApproved(w: World, x: Scene)
    requires Plausible(w, x)
    ensures Inbox.Step(SysAt(x, Approved, Inbox.Rereading(x.req)), Inbox.Act(0, Inbox.Read)) ==
            SysAt(x, Approved, Inbox.Claiming(x.req))
  {
    Fetched(x, Approved);
  }

  lemma Claimed(x: Scene)
    ensures Inbox.Step(SysAt(x, Approved, Inbox.Claiming(x.req)), Inbox.Act(0, Inbox.Claim)) ==
            SysAt(x, Executing, Inbox.RereadingClaim(x.req))
  {
    assert ClaimTx(DbAt(x, Approved), x.req.approvalId).0.rows == DbAt(x, Executing).rows;
  }

  lemma ReadExecuting(x: Scene)
    ensures Inbox.Step(SysAt(x, Executing, Inbox.RereadingClaim(x.req)), Inbox.Act(0, Inbox.Read))
            == SysAt(x, Executing, Inbox.Calling(x.req, RowAt(x, Executing)))
  {
    Fetched(x, Executing);
  }

  // ---- the joint run -------------------------------------------------------------

  /** A joint run without direct proposals ends in this state. */
  ghost predicate Reached(w: World, ls: seq<Label>, j: Joint) {
    Run(w, ls) == j && forall i :: 0 <= i < |ls| ==> !(ls[i].OnPath? && ls[i].pathLabel.Propose?)
  }

  lemma Move(w: World, ls: seq<Label>, j: Joint, l: Label) returns (ls': seq<Label>)
    requires Reached(w, ls, j) && !(l.OnPath? && l.pathLabel.Propose?)
    ensures Reached(w, ls', Step(w, j, l))
  {
    ls' := ls + [l];
    assert ls'[..|ls|] == ls;
  }

  /** A step of the inbox alone, from and to the given states. */
  lemma InboxMove(w: World, ls: seq<Label>, s: Inbox.Sys, l: Inbox.Label, s': Inbox.Sys) returns (ls': seq<Label>)
    requires Reached(w, ls, Joint(s, Path.EMPTY, map[])) && !IsShared(l) && Inbox.Step(s, l) == s'
    ensures Reached(w, ls', Joint(s', Path.EMPTY, map[]))
  {
    ls' := Move(w, ls, Joint(s, Path.EMPTY, map[]), OnInbox(l));
  }

  /** The approval is given and claimed, and its caller is about to call. */
  lemma Approved0(w: World, x: Scene) returns (ls: seq<Label>)
    requires Plausible(w, x)
    ensures Reached(w, ls, Joint(SysAt(x, Executing, Inbox.Calling(x.req, RowAt(x, Executing))), Path.EMPTY, map[]))
  {
    var create := Inbox.Create(x.p, x.req.approvalId, x.at, x.deadline, None, None);
    ls := [];
    Asked(x); Decided(w, x); ReadApproved(w, x); Claimed(x); ReadExecuting(x);
    ls := InboxMove(w, ls, Inbox.EMPTY, create, Inbox.Step(Inbox.EMPTY, create));
    ls := InboxMove(w, ls, Inbox.Step(Inbox.EMPTY, create), Inbox.Arrive(0, x.req),
      SysAt(x, Pending, Inbox.Deciding(x.req)));
    ls := InboxMove(w, ls, SysAt(x, Pending, Inbox.Deciding(x.req)), Inbox.Act(0, Inbox.Decide(x.at)),
      SysAt(x, Approved, Inbox.Rereading(x.req)));
    ls := InboxMove(w, ls, SysAt(x, Approved, Inbox.Rereading(x.req)), Inbox.Act(0, Inbox.Read),
      SysAt(x, Approved, Inbox.Claiming(x.req)));
    ls := InboxMove(w, ls, SysAt(x, Approved, Inbox.Claiming(x.req)), Inbox.Act(0, Inbox.Claim),
      SysAt(x, Executing, Inbox.RereadingClaim(x.req)));
    ls := InboxMove(w, ls, SysAt(x, Executing, Inbox.RereadingClaim(x.req)), Inbox.Act(0, Inbox.Read),
                    SysAt(x, Executing, Inbox.Calling(x.req, RowAt(x, Executing))));
  }

  /** The call is made: the inbox awaits, the path is at its preflight. */
  ghost predicate Calling(x: Scene, j: Joint) {
    && j.links == map[0 := 0] && j.inbox.db == DbAt(x, Executing)
    && j.inbox.callers == map[0 := Inbox.Awaiting(x.req, 0)] && |j.inbox.calls| == 1
    && j.path.tasks == [] && j.path.callers == map[0 := Path.Preflighting(x.sub)]
    && |j.path.log| == 1 && j.path.log[0].kind == Path.Proposed && j.path.failures == []
  }

  lemma InboxCalls(x: Scene)
    ensures var s := Inbox.Step(SysAt(x, Executing, Inbox.Calling(x.req, RowAt(x, Executing))), CallBy(0));
            s.db == DbAt(x, Executing) && s.callers == map[0 := Inbox.Awaiting(x.req, 0)] && |s.calls| == 1
  {
  }

  lemma PathHears(sub: Path.Submission)
    ensures var p := Path.Step(Path.EMPTY, Path.Propose(0, sub));
            && p.tasks == [] && p.failures == [] && p.callers == map[0 := Path.Preflighting(sub)]
            && |p.log| == 1 && p.log[0].kind == Path.Proposed
  {
  }

  lemma Called0(w: World, x: Scene) returns (ls: seq<Label>, j: Joint)
    requires Plausible(w, x)
    ensures Reached(w, ls, j) && Calling(x, j)
  {
    var s := SysAt(x, Executing, Inbox.Calling(x.req, RowAt(x, Executing)));
    ls := Approved0(w, x);
    InboxCalls(x);
    PathHears(x.sub);
    assert CanResume(w, Joint(s, Path.EMPTY, map[]), 0, 0, x.sub);
    j := Joint(Inbox.Step(s, CallBy(0)), Path.Step(Path.EMPTY, Path.Propose(0, x.sub)), map[0 := 0]);
    ls := Move(w, ls, Joint(s, Path.EMPTY, map[]), Resume(0, 0, x.sub));
  }

  /** The path has let it through, and the execution is where `phase` says. */
  ghost predicate Executing0(x: Scene, j: Joint, phase: Path.Phase) {
    && j.links == map[0 := 0] && j.inbox.db == DbAt(x, Executing)
    && j.inbox.callers == map[0 := Inbox.Awaiting(x.req, 0)] && |j.inbox.calls| == 1
    && j.path.tasks == [Path.Task(x.sub, 2, phase, false)] && j.path.callers == map[0 := Path.Waiting(0)]
    && |j.path.log| >= 3 && j.path.log[2] == Path.ByPath(Path.ExecutionRequested, x.sub)
  }

  lemma PathOpens(p: Path.Path, sub: Path.Submission)
    requires p.callers == map[0 := Path.Preflighting(sub)] && p.tasks == [] && p.failures == []
    ensures var p' := Path.Step(p, Path.Gate(0, true, Path.Approve));
            && p'.tasks == [Path.Task(sub, |p.log| + 1, Path.Scheduled, false)]
              && p'.callers == map[0 := Path.Waiting(0)]
            && p'.log == p.log + [Path.ByPath(Path.GovernanceApproved, sub), Path.ByPath(Path.ExecutionRequested, sub)]
  {
  }

  lemma GateOpens(w: World, x: Scene, j: Joint) returns (j': Joint)
    requires Calling(x, j)
    ensures j' == Step(w, j, OnPath(Path.Gate(0, true, Path.Approve))) && Executing0(x, j', Path.Scheduled)
    ensures |j'.path.log| == 3 && forall i :: 0 <= i < 3 ==> !Path.IsTerminal(j'.path.log[i].kind)
  {
    PathOpens(j.path, x.sub);
    j' := Joint(j.inbox, Path.Step(j.path, Path.Gate(0, true, Path.Approve)), j.links);
  }

  /** There is a joint run in which an action is requested for execution on its approval. */
  lemma RequestIsReached(w: World, x: Scene) returns (ls: seq<Label>)
    requires Plausible(w, x)
    ensures Guarded(w, ls, x.p.actionId) && Races.RequestAt(Run(w, ls).path.log, 2, x.p.actionId)
  {
    var j: Joint;
    ls, j := Called0(w, x);
    ls := Move(w, ls, j, OnPath(Path.Gate(0, true, Path.Approve)));
    j := GateOpens(w, x, j);
  }

  /** The execution has completed. */
  lemma Completed0(w: World, x: Scene) returns (ls: seq<Label>, j: Joint)
    requires Plausible(w, x)
    ensures Reached(w, ls, j) && Executing0(x, j, Path.Done(Path.EndCompleted))
    ensures Path.Logged(j.path.log, x.sub.action, Path.Completed)
  {
    ls, j := Called0(w, x);
    ls := Move(w, ls, j, OnPath(Path.Gate(0, true, Path.Approve)));
    j := GateOpens(w, x, j);
    ls := Move(w, ls, j, OnPath(Path.Start(0)));
    j := Started(w, x, j);
    ls := Move(w, ls, j, OnPath(Path.Deliver(0, Path.Good)));
    j := Delivered(w, x, j);
  }

  lemma InboxStores(s: Inbox.Sys, x: Scene)
    requires s.db == DbAt(x, Executing) && s.callers == map[0 := Inbox.Awaiting(x.req, 0)] && |s.calls| == 1
    ensures var s1 := Inbox.Step(s, Inbox.Act(0, Inbox.Reply(x.done)));
            Inbox.In(Inbox.Step(s1, Inbox.Act(0, Inbox.Finalize(x.at))).db, x.req.approvalId, Consumed)
  {
    var s1 := Inbox.Step(s, Inbox.Act(0, Inbox.Reply(x.done)));
    assert s1.callers[0] == Inbox.Finalizing(x.req, 0, x.done) && s1.db == s.db;
  }

  lemma Stored0(w: World, x: Scene, j: Joint) returns (j': Joint)
    requires Plausible(w, x) && Executing0(x, j, Path.Done(Path.EndCompleted))
    ensures j' == Step(w, Step(w, j, Return(0, 0, x.done)), OnInbox(Inbox.Act(0, Inbox.Finalize(x.at))))
    ensures Inbox.In(j'.inbox.db, x.req.approvalId, Consumed) && j'.path == j.path
  {
    assert CanReturn(j, 0, 0, x.done);
    InboxStores(j.inbox, x);
    var s1 := Inbox.Step(j.inbox, Inbox.Act(0, Inbox.Reply(x.done)));
    j' := j.(inbox := Inbox.Step(s1, Inbox.Act(0, Inbox.Finalize(x.at))));
  }

  /** There is a joint run in which it also completes, and its result is stored. */
  lemma WholeLife(w: World, x: Scene) returns (ls: seq<Label>)
    requires Plausible(w, x)
    ensures Guarded(w, ls, x.p.actionId) && Inbox.In(Run(w, ls).inbox.db, x.req.approvalId, Consumed)
    ensures Path.Logged(Run(w, ls).path.log, x.p.actionId, Path.Completed)
  {
    var j: Joint;
    ls, j := Completed0(w, x);
    ls := Move(w, ls, j, Return(0, 0, x.done));
    ls := Move(w, ls, Step(w, j, Return(0, 0, x.done)), OnInbox(Inbox.Act(0, Inbox.Finalize(x.at))));
    j := Stored0(w, x, j);
  }

  lemma Started(w: World, x: Scene, j: Joint) returns (j': Joint)
    requires Executing0(x, j, Path.Scheduled)
    ensures j' == Step(w, j, OnPath(Path.Start(0))) && Executing0(x, j', Path.Running) && j'.path.log == j.path.log
  {
    j' := Step(w, j, OnPath(Path.Start(0)));
  }

  /** The backend's good answer. */
  lemma Delivered(w: World, x: Scene, j: Joint) returns (j': Joint)
    requires Executing0(x, j, Path.Running) && |j.path.log| == 3 && forall i :: 0 <= i < 3 ==>
             !Path.IsTerminal(j.path.log[i].kind)
    ensures j' == Step(w, j, OnPath(Path.Deliver(0, Path.Good))) && Executing0(x, j', Path.Done(Path.EndCompleted))
    ensures Path.Logged(j'.path.log, x.sub.action, Path.Completed)
  {
    NothingEnded(j.path.log, x.sub.action);
    j' := Step(w, j, OnPath(Path.Deliver(0, Path.Good)));
    assert j'.path.log == j.path.log + [Path.ByPath(Path.Completed, x.sub)];
    assert j'.path.log[3] == Path.ByPath(Path.Completed, x.sub);
  }

  lemma {:induction false} NothingEnded(log: seq<Path.Event>, a: string)
    requires forall i :: 0 <= i < |log| ==> !Path.IsTerminal(log[i].kind)
    ensures Path.TerminalOf(log, a) == None
    decreases |log|
  {
    if log != [] { NothingEnded(log[..|log| - 1], a); }
  }
}
