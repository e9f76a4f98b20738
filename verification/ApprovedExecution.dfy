/**
  The approval inbox and the action path together. Approvals are made in one
  place only, where the inbox resumes an approved action; the governor lets a
  proposal that needs approval through only with one; and what the inbox stores
  is what the path returned. The invariant: one call, one caller, at most one
  execution per action, and results that tell how it ended.
 */
module ApprovedExecution {
  import opened Prelude
  import Proposals
  import Store = ApprovalStore
  import Inbox = ApprovalInbox
  import Path = ActionPath
  import Races = ActionRaces
  import opened ActionEndings

  /**
    `links` gives, for each caller of the path that came from the inbox with
    an approval, the inbox's call behind it.
   */
  datatype Joint = Joint(inbox: Inbox.Sys, path: Path.Path, links: map<nat, nat>)

  /** `Resume` is the inbox's call of `execute`, which is also the path's proposal; `Return` is its return. */
  datatype Label =
    | OnInbox(inboxLabel: Inbox.Label)
    | OnPath(pathLabel: Path.Label)
    | Resume(c: nat, pc: nat, sub: Path.Submission)
    | Return(c: nat, pc: nat, done: Store.ActionResult)

  /** What the policy makes of a proposal (no approval, no execution), and how a digest is written out. */
  datatype World = World(needs: Path.Submission -> bool, hex: Proposals.Digest -> string)

  const EMPTY: Joint := Joint(Inbox.EMPTY, Path.EMPTY, map[])

  /** The steps that the two machines take together. */
  predicate IsShared(l: Inbox.Label) {
    l.Act? && (l.move.Call? || l.move.Reply?)
  }

  /** The submission is the path's reading of this proposal. */
  predicate Reads(w: World, sub: Path.Submission, p: Proposals.Proposal) {
    sub.action == p.actionId && sub.hash == w.hex(Proposals.Hash(p))
  }

  predicate CanResume(w: World, j: Joint, c: nat, pc: nat, sub: Path.Submission) {
    && c in j.inbox.callers && j.inbox.callers[c].Calling? && pc !in j.path.callers
    && Reads(w, sub, Proposals.FromPayload(j.inbox.callers[c].row.ticket.proposal))
  }

  /** The result of an execution that ended so; the other endings raise or never return. */
  predicate Tells(done: Store.ActionResult, ending: Path.Ending) {
    match ending
    case EndCompleted => done.ok && done.status == "completed"
    case EndFailed => !done.ok && done.status == "failed"
    case EndCanceled => !done.ok && done.status == "canceled"
    case EndLate => !done.ok && done.status == "canceled"
    case _ => false
  }

  /** The result of a refusal: preflight-failed, retry-blocked, pending-approval or a mode of the governor. */
  predicate Refuses(done: Store.ActionResult) {
    !done.ok && done.status !in {"completed", "failed", "canceled"}
  }

  /** What `execute` returns to a caller of the path. */
  predicate Answers(path: Path.Path, pc: nat, done: Store.ActionResult) {
    pc in path.callers &&
    match path.callers[pc]
    case Refused(_) => Refuses(done)
    case Waiting(t) => t < |path.tasks| && path.tasks[t].phase.Done? && Tells(done, path.tasks[t].phase.ending)
    case _ => false
  }

  predicate CanReturn(j: Joint, c: nat, pc: nat, done: Store.ActionResult) {
    && c in j.inbox.callers && j.inbox.callers[c].Awaiting?
    && pc in j.links && j.links[pc] == j.inbox.callers[c].k && Answers(j.path, pc, done)
  }

  /** A verdict that the governor never gives: approval of what needs one, to a caller without one. */
  predicate Unapproved(w: World, j: Joint, l: Path.Label) {
    && l.Gate? && l.verdict == Path.Approve && l.c !in j.links
    && l.c in j.path.callers && j.path.callers[l.c].Preflighting? && w.needs(j.path.callers[l.c].sub)
  }

  function Step(w: World, j: Joint, l: Label): Joint {
    match l
    case OnInbox(i) => if IsShared(i) then j else j.(inbox := Inbox.Step(j.inbox, i))
    case OnPath(x) =>
      if Unapproved(w, j, x) then j
      else Joint(j.inbox, Path.Step(j.path, x), if x.Restart? then map[] else j.links)
    case Resume(c, pc, sub) =>
      if !CanResume(w, j, c, pc, sub) then j
      else Joint(Inbox.Step(j.inbox, CallBy(c)), Path.Step(j.path, Path.Propose(pc, sub)),
        j.links[pc := |j.inbox.calls|])
    case Return(c, pc, done) =>
      if !CanReturn(j, c, pc, done) then j else j.(inbox := Inbox.Step(j.inbox, Inbox.Act(c, Inbox.Reply(done))))
  }

  function CallBy(c: nat): Inbox.Label {
    Inbox.Act(c, Inbox.Move.Call)
  }

  function Run(w: World, ls: seq<Label>): Joint {
    if ls == [] then EMPTY else Step(w, Run(w, ls[..|ls| - 1]), ls[|ls| - 1])
  }

  /** Every proposal made under this id, other than by the inbox, needs approval. */
  predicate Guarded(w: World, ls: seq<Label>, a: string) {
    forall i :: 0 <= i < |ls| && ls[i].OnPath? && ls[i].pathLabel.Propose? && ls[i].pathLabel.sub.action == a ==>
      w.needs(ls[i].pathLabel.sub)
  }

  // ---- what each half of a run is ----------------------------------------------

  function InboxPart(w: World, ls: seq<Label>): seq<Inbox.Label> {
    if ls == [] then []
    else
      var (front, l) := (ls[..|ls| - 1], ls[|ls| - 1]);
      var (part, j) := (InboxPart(w, front), Run(w, front));
      match l
      case OnInbox(i) => if IsShared(i) then part else part + [i]
      case OnPath(_) => part
      case Resume(c, pc, sub) => if CanResume(w, j, c, pc, sub) then part + [CallBy(c)] else part
      case Return(c, pc, done) => if CanReturn(j, c, pc, done) then part + [Inbox.Act(c, Inbox.Reply(done))] else part
  }

  function PathPart(w: World, ls: seq<Label>): seq<Path.Label> {
    if ls == [] then []
    else
      var (front, l) := (ls[..|ls| - 1], ls[|ls| - 1]);
      var (part, j) := (PathPart(w, front), Run(w, front));
      match l
      case OnPath(x) => if Unapproved(w, j, x) then part else part + [x]
      case Resume(c, pc, sub) => if CanResume(w, j, c, pc, sub) then part + [Path.Propose(pc, sub)] else part
      case _ => part
  }

  // ---- each half is a run of its own machine -----------------------------------

  lemma {:induction false} InboxRuns(w: World, ls: seq<Label>)
    ensures Inbox.Run(InboxPart(w, ls)) == Run(w, ls).inbox
    decreases |ls|
  {
    if ls != [] {
      var (front, l) := (ls[..|ls| - 1], ls[|ls| - 1]);
      var part := InboxPart(w, front);
      InboxRuns(w, front);
      match l
      case OnInbox(i) => assert (part + [i])[..|part|] == part;
      case OnPath(_) =>
      case Resume(c, _, _) => assert (part + [CallBy(c)])[..|part|] == part;
      case Return(c, _, done) => assert (part + [Inbox.Act(c, Inbox.Reply(done))])[..|part|] == part;
    }
  }

  lemma {:induction false} PathRuns(w: World, ls: seq<Label>)
    ensures Path.Run(PathPart(w, ls)) == Run(w, ls).path
    decreases |ls|
  {
    if ls != [] {
      var (front, l) := (ls[..|ls| - 1], ls[|ls| - 1]);
      var part := PathPart(w, front);
      PathRuns(w, front);
      match l
      case OnPath(x) => assert (part + [x])[..|part|] == part;
      case Resume(_, pc, sub) => assert (part + [Path.Propose(pc, sub)])[..|part|] == part;
      case _ =>
    }
  }

  // ---- the invariant -------------------------------------------------------------

  predicate CallFor(calls: seq<Inbox.Call>, k: int, a: string) {
    0 <= k < |calls| && calls[k].proposal.actionId == a
  }

  /** A linked caller is where its call has brought it. */
  predicate Tied(w: World, path: Path.Path, pc: nat, call: Inbox.Call) {
    pc in path.callers &&
    match path.callers[pc]
    case Preflighting(sub) => Reads(w, sub, call.proposal) && call.result.None?
    case Refused(_) => true
    case Waiting(t) => t < |path.tasks| && Reads(w, path.tasks[t].sub, call.proposal)
    case _ => false
  }

  ghost predicate LinksInv(w: World, j: Joint) {
    && (forall pc {:trigger j.links[pc]} :: pc in j.links ==>
      j.links[pc] < |j.inbox.calls| && Tied(w, j.path, pc, j.inbox.calls[j.links[pc]]))
    && (forall pc, qc :: pc in j.links && qc in j.links && j.links[pc] == j.links[qc] ==> pc == qc)
  }

  /** The result tells how the action's execution ended, or is a refusal and there is no execution. */
  ghost predicate Backed(tasks: seq<Path.Task>, a: string, done: Store.ActionResult) {
    if HasTask(tasks, a) then exists t ::
      TaskOf(tasks, t, a) && tasks[t].phase.Done? && Tells(done, tasks[t].phase.ending)
    else Refuses(done)
  }

  /** A linked caller of this action that has not come, or will never come, to an execution. */
  predicate Idle(j: Joint, pc: nat, a: string) {
    && pc in j.links && CallFor(j.inbox.calls, j.links[pc], a)
    && pc in j.path.callers && (j.path.callers[pc].Preflighting? || j.path.callers[pc].Refused?)
  }

  /** A direct caller of this action that awaits its preflight. */
  predicate Direct(j: Joint, pc: nat, a: string) {
    && pc !in j.links && pc in j.path.callers && j.path.callers[pc].Preflighting? && j.path.callers[pc].sub.action == a
  }

  ghost predicate TasksInv(w: World, tasks: seq<Path.Task>, calls: seq<Inbox.Call>, a: string) {
    && (forall t, u :: TaskOf(tasks, t, a) && TaskOf(tasks, u, a) ==> t == u)
    && (forall t {:trigger TaskOf(tasks, t, a)} :: TaskOf(tasks, t, a) ==> Called(w, tasks[t].sub, calls, a))
    && (forall k {:trigger CallFor(calls, k, a)} :: CallFor(calls, k, a) && calls[k].result.Some? ==>
      Backed(tasks, a, calls[k].result.value))
  }

  ghost predicate Called(w: World, sub: Path.Submission, calls: seq<Inbox.Call>, a: string) {
    exists k :: CallFor(calls, k, a) && Reads(w, sub, calls[k].proposal)
  }

  /** One call, one caller, at most one execution, and results that tell of it. */
  ghost predicate Inv(w: World, j: Joint, a: string) {
    && LinksInv(w, j)
    && TasksInv(w, j.path.tasks, j.inbox.calls, a)
    && (forall pc :: Idle(j, pc, a) ==> !HasTask(j.path.tasks, a))
    && (forall pc :: Direct(j, pc, a) ==> w.needs(j.path.callers[pc].sub))
  }

  /** The inbox calls for no action twice. */
  lemma CallsDiffer(s: Inbox.Sys)
    requires Inbox.Inv(s)
    ensures forall i, k, a :: CallFor(s.calls, i, a) && CallFor(s.calls, k, a) ==> i == k
  {
    forall i, k, a | CallFor(s.calls, i, a) && CallFor(s.calls, k, a)
      ensures i == k
    {
      Inbox.CallBelongsToAction(s, i);
      Inbox.CallBelongsToAction(s, k);
    }
  }

  // ---- steps of the inbox ----------------------------------------------------------

  lemma UnsharedCalls(s: Inbox.Sys, l: Inbox.Label)
    requires !IsShared(l)
    ensures Inbox.Step(s, l).calls == s.calls
  {
  }

  lemma InboxKeeps(w: World, j: Joint, l: Inbox.Label, a: string)
    requires Inv(w, j, a) && !IsShared(l)
    ensures Inv(w, Step(w, j, OnInbox(l)), a)
  {
    var j' := Step(w, j, OnInbox(l));
    UnsharedCalls(j.inbox, l);
    assert forall pc :: Idle(j', pc, a) <==> Idle(j, pc, a);
    assert forall pc :: Direct(j', pc, a) <==> Direct(j, pc, a);
  }

  /** What one result changes: that call's, and nothing else. */
  lemma ReplyCalls(s: Inbox.Sys, c: nat, done: Store.ActionResult)
    requires c in s.callers && s.callers[c].Awaiting? && s.callers[c].k < |s.calls|
    ensures var k := s.callers[c].k;
            Inbox.Step(s, Inbox.Act(c, Inbox.Reply(done))).calls == s.calls[k := s.calls[k].(result := Some(done))]
  {
  }

  lemma AnswerIsBacked(w: World, j: Joint, pc: nat, a: string, done: Store.ActionResult)
    requires Inv(w, j, a) && pc in j.links && Answers(j.path, pc, done) && CallFor(j.inbox.calls, j.links[pc], a)
    ensures Backed(j.path.tasks, a, done)
  {
    assert Tied(w, j.path, pc, j.inbox.calls[j.links[pc]]);
    if j.path.callers[pc].Refused? {
      assert Idle(j, pc, a);
    } else {
      assert TaskOf(j.path.tasks, j.path.callers[pc].t, a);
    }
  }

  /** A backed result of one call leaves all results backed and all executions called for. */
  lemma ReplyTasks(w: World, tasks: seq<Path.Task>, calls: seq<Inbox.Call>, k: nat, done: Store.ActionResult, a: string)
    requires TasksInv(w, tasks, calls, a) && k < |calls| && (CallFor(calls, k, a) ==> Backed(tasks, a, done))
    ensures TasksInv(w, tasks, calls[k := calls[k].(result := Some(done))], a)
  {
    var calls' := calls[k := calls[k].(result := Some(done))];
    assert forall i :: CallFor(calls', i, a) <==> CallFor(calls, i, a);
    forall t | TaskOf(tasks, t, a)
      ensures Called(w, tasks[t].sub, calls', a)
    {
      var i :| CallFor(calls, i, a) && Reads(w, tasks[t].sub, calls[i].proposal);
      assert CallFor(calls', i, a) && calls'[i].proposal == calls[i].proposal;
    }
  }

  lemma ReturnKeeps(w: World, j: Joint, l: Label, a: string)
    requires Inv(w, j, a) && Inbox.Inv(j.inbox) && l.Return? && CanReturn(j, l.c, l.pc, l.done)
    ensures Inv(w, Step(w, j, l), a)
  {
    var (k, calls) := (j.links[l.pc], j.inbox.calls);
    assert Inbox.StageInv(j.inbox.db, j.inbox.calls, j.inbox.callers[l.c]);
    ReplyCalls(j.inbox, l.c, l.done);
    if CallFor(calls, k, a) { AnswerIsBacked(w, j, l.pc, a, l.done); }
    ReplyTasks(w, j.path.tasks, calls, k, l.done, a);
    ReplyLinks(w, j, Step(w, j, l), l.pc, l.done, a);
  }

  lemma ReplyLinks(w: World, j: Joint, j': Joint, pc: nat, done: Store.ActionResult, a: string)
    requires LinksInv(w, j) && pc in j.links && Answers(j.path, pc, done) && j'.path == j.path && j'.links == j.links
    requires var (k, calls) := (j.links[pc], j.inbox.calls);
             j'.inbox.calls == calls[k := calls[k].(result := Some(done))]
    ensures LinksInv(w, j')
    ensures forall qc :: (Idle(j', qc, a) <==> Idle(j, qc, a)) && (Direct(j', qc, a) <==> Direct(j, qc, a))
  {
    forall qc | qc in j'.links
      ensures j'.links[qc] < |j'.inbox.calls| && Tied(w, j'.path, qc, j'.inbox.calls[j'.links[qc]])
    {
      assert Tied(w, j.path, qc, j.inbox.calls[j.links[qc]]);
    }
  }

  // ---- steps of the path -----------------------------------------------------------

  predicate Settled(st: Path.Caller) {
    st.Preflighting? || st.Refused? || st.Waiting?
  }

  /** No execution comes into being, and nobody who executes moves. */
  ghost predicate Quiet(p: Path.Path, p': Path.Path) {
    && |p'.tasks| == |p.tasks| && TasksGrow(p.tasks, p'.tasks)
    && (forall c :: c in p.callers && Settled(p.callers[c]) ==> c in p'.callers && p'.callers[c] == p.callers[c])
    && (forall c :: c in p'.callers && p'.callers[c].Preflighting? ==> c in p.callers && p.callers[c].Preflighting?)
  }

  lemma TaskIsQuiet(p: Path.Path, l: Path.Label)
    requires l.Start? || l.Deliver? || l.Interrupt? || l.Forget?
    ensures Quiet(p, Path.Step(p, l))
  {
    assert Path.Step(p, l).callers == p.callers;
    if l.Deliver? { DeliveryMovesOne(p, l.t, l.backend); }
  }

  lemma DeliveryMovesOne(p: Path.Path, t: nat, backend: Path.Backend)
    ensures var tasks := Path.Step(p, Path.Deliver(t, backend)).tasks; |tasks| == |p.tasks| && TasksGrow(p.tasks, tasks)
  {
  }

  lemma ControlIsQuiet(p: Path.Path, l: Path.Label)
    requires l.Support? || l.Acknowledge?
    ensures Quiet(p, Path.Step(p, l))
  {
  }

  lemma ArrivalIsQuiet(p: Path.Path, l: Path.Label)
    requires l.Cancel? || l.Reconcile? || l.Foreign?
    ensures Quiet(p, Path.Step(p, l))
  {
    assert Path.Step(p, l).tasks == p.tasks;
  }

  /** Executions that only move on leave every result as well backed as it was. */
  lemma BackedStays(tasks: seq<Path.Task>, tasks': seq<Path.Task>, a: string, done: Store.ActionResult)
    requires TasksGrow(tasks, tasks') && |tasks'| == |tasks| && Backed(tasks, a, done)
    ensures Backed(tasks', a, done) && (HasTask(tasks', a) <==> HasTask(tasks, a))
  {
    assert forall t :: TaskOf(tasks', t, a) <==> TaskOf(tasks, t, a);
    if HasTask(tasks, a) {
      var t :| TaskOf(tasks, t, a) && tasks[t].phase.Done? && Tells(done, tasks[t].phase.ending);
      assert tasks'[t].phase == tasks[t].phase;
    }
  }

  lemma TasksStay(w: World, tasks: seq<Path.Task>, tasks': seq<Path.Task>, calls: seq<Inbox.Call>, a: string)
    requires TasksInv(w, tasks, calls, a) && TasksGrow(tasks, tasks') && |tasks'| == |tasks|
    ensures TasksInv(w, tasks', calls, a) && (HasTask(tasks', a) <==> HasTask(tasks, a))
  {
    assert forall t :: TaskOf(tasks', t, a) <==> TaskOf(tasks, t, a);
    forall k | CallFor(calls, k, a) && calls[k].result.Some?
      ensures Backed(tasks', a, calls[k].result.value)
    {
      BackedStays(tasks, tasks', a, calls[k].result.value);
    }
  }

  lemma QuietKeeps(w: World, j: Joint, path: Path.Path, a: string)
    requires Inv(w, j, a) && Quiet(j.path, path)
    ensures Inv(w, j.(path := path), a)
  {
    var j' := j.(path := path);
    TasksStay(w, j.path.tasks, path.tasks, j.inbox.calls, a);
    forall pc | pc in j.links
      ensures Tied(w, path, pc, j.inbox.calls[j.links[pc]]) && (Idle(j', pc, a) <==> Idle(j, pc, a))
    {
      assert Tied(w, j.path, pc, j.inbox.calls[j.links[pc]]);
    }
    assert forall pc :: Direct(j', pc, a) ==> Direct(j, pc, a);
  }

  /** A direct proposal. */
  lemma ProposeKeeps(w: World, j: Joint, c: nat, sub: Path.Submission, a: string)
    requires Inv(w, j, a) && (sub.action == a ==> w.needs(sub))
    ensures Inv(w, Step(w, j, OnPath(Path.Propose(c, sub))), a)
  {
    if c !in j.path.callers { ProposedKeeps(w, j, Step(w, j, OnPath(Path.Propose(c, sub))), c, sub, a); }
  }

  lemma ProposedKeeps(w: World, j: Joint, j': Joint, c: nat, sub: Path.Submission, a: string)
    requires Inv(w, j, a) && (sub.action == a ==> w.needs(sub)) && c !in j.path.callers
    requires j'.inbox == j.inbox && j'.links == j.links && j'.path.tasks == j.path.tasks
    requires j'.path.callers == j.path.callers[c := Path.Preflighting(sub)]
    ensures Inv(w, j', a)
  {
    forall pc | pc in j.links
      ensures Tied(w, j'.path, pc, j.inbox.calls[j.links[pc]]) && (Idle(j', pc, a) <==> Idle(j, pc, a))
    {
      assert Tied(w, j.path, pc, j.inbox.calls[j.links[pc]]);
    }
    assert forall pc :: Direct(j', pc, a) && pc != c ==> Direct(j, pc, a);
  }

  lemma RestartKeeps(w: World, j: Joint, a: string)
    requires Inv(w, j, a)
    ensures Inv(w, Step(w, j, OnPath(Path.Restart)), a)
  {
    TasksStay(w, j.path.tasks, Path.RestartStep(j.path).tasks, j.inbox.calls, a);
  }

  /** What a review does to the callers and the executions. */
  lemma GateEffect(p: Path.Path, l: Path.Label)
    requires l.Gate? && l.c in p.callers && p.callers[l.c].Preflighting?
    ensures var (p', sub) := (Path.Step(p, l), p.callers[l.c].sub);
            && p'.callers == p.callers[l.c := p'.callers[l.c]]
            && (|p'.tasks| == |p.tasks| ==> p'.tasks == p.tasks && p'.callers[l.c].Refused?)
            && (|p'.tasks| != |p.tasks| ==>
                  && l.verdict == Path.Approve
                  && p'.tasks == p.tasks + [Path.Task(sub, |p.log| + 1, Path.Scheduled, false)]
                  && p'.callers[l.c] == Path.Waiting(|p.tasks|))
  {
  }

  /** A review that lets nothing through. */
  lemma RefusalKeeps(w: World, j: Joint, l: Path.Label, a: string)
    requires Inv(w, j, a) && l.Gate? && l.c in j.path.callers && j.path.callers[l.c].Preflighting?
    requires |Path.Step(j.path, l).tasks| == |j.path.tasks| && !Unapproved(w, j, l)
    ensures Inv(w, Step(w, j, OnPath(l)), a)
  {
    var j' := Step(w, j, OnPath(l));
    GateEffect(j.path, l);
    forall pc | pc in j.links
      ensures Tied(w, j'.path, pc, j.inbox.calls[j.links[pc]]) && (Idle(j', pc, a) <==> Idle(j, pc, a))
    {
      assert Tied(w, j.path, pc, j.inbox.calls[j.links[pc]]);
    }
    assert forall pc :: Direct(j', pc, a) ==> Direct(j, pc, a);
  }

  /** A review that lets an execution through: of another action, or of this one with the approval of its one call. */
  lemma ApprovalKeeps(w: World, j: Joint, l: Path.Label, a: string)
    requires Inv(w, j, a) && Inbox.Inv(j.inbox) && l.Gate? && l.c in j.path.callers && j.path.callers[l.c].Preflighting?
    requires |Path.Step(j.path, l).tasks| != |j.path.tasks| && !Unapproved(w, j, l)
    ensures Inv(w, Step(w, j, OnPath(l)), a)
  {
    GateEffect(j.path, l);
    assert Direct(j, l.c, a) <==> l.c !in j.links && j.path.callers[l.c].sub.action == a;
    LetThroughKeeps(w, j, Step(w, j, OnPath(l)), l.c, a);
  }

  /** What it is for a caller to be let through. */
  ghost predicate LetThrough(j: Joint, j': Joint, c: nat) {
    && c in j.path.callers && j.path.callers[c].Preflighting? && j'.links == j.links && j'.inbox == j.inbox
    && |j'.path.tasks| == |j.path.tasks| + 1 && j'.path.tasks[..|j.path.tasks|] == j.path.tasks
    && j'.path.tasks[|j.path.tasks|].sub == j.path.callers[c].sub
    && j'.path.callers == j.path.callers[c := Path.Waiting(|j.path.tasks|)]
  }

  lemma LetThroughKeeps(w: World, j: Joint, j': Joint, c: nat, a: string)
    requires Inv(w, j, a) && Inbox.Inv(j.inbox) && LetThrough(j, j', c)
             && (j.path.callers[c].sub.action == a ==> c in j.links)
    ensures Inv(w, j', a)
  {
    ApprovalLinks(w, j, j', c);
    assert forall pc :: Direct(j', pc, a) ==> Direct(j, pc, a);
    if j.path.callers[c].sub.action == a {
      NewExecution(w, j, j', c, a);
    } else {
      OtherThrough(w, j, j', c, a);
    }
  }

  lemma OtherThrough(w: World, j: Joint, j': Joint, c: nat, a: string)
    requires TasksInv(w, j.path.tasks, j.inbox.calls, a) && LetThrough(j, j', c) && j.path.callers[c].sub.action != a
    ensures TasksInv(w, j'.path.tasks, j'.inbox.calls, a)
    ensures HasTask(j'.path.tasks, a) <==> HasTask(j.path.tasks, a)
    ensures forall pc :: Idle(j', pc, a) ==> Idle(j, pc, a)
  {
    OtherExecution(w, j.path.tasks, j'.path.tasks[|j.path.tasks|], j.inbox.calls, a);
    assert j'.path.tasks == j.path.tasks + [j'.path.tasks[|j.path.tasks|]];
  }

  /** Whoever is let through waits for the execution of what it came with. */
  lemma ApprovalLinks(w: World, j: Joint, j': Joint, c: nat)
    requires LinksInv(w, j) && LetThrough(j, j', c)
    ensures LinksInv(w, j')
  {
    forall pc | pc in j.links
      ensures Tied(w, j'.path, pc, j.inbox.calls[j.links[pc]])
    {
      assert Tied(w, j.path, pc, j.inbox.calls[j.links[pc]]);
      assert forall t :: 0 <= t < |j.path.tasks| ==> j'.path.tasks[t] == j.path.tasks[t];
    }
  }

  lemma OtherExecution(w: World, tasks: seq<Path.Task>, task: Path.Task, calls: seq<Inbox.Call>, a: string)
    requires TasksInv(w, tasks, calls, a) && task.sub.action != a
    ensures TasksInv(w, tasks + [task], calls, a) && (HasTask(tasks + [task], a) <==> HasTask(tasks, a))
  {
    var tasks' := tasks + [task];
    assert forall t :: TaskOf(tasks', t, a) <==> TaskOf(tasks, t, a);
    forall k | CallFor(calls, k, a) && calls[k].result.Some?
      ensures Backed(tasks', a, calls[k].result.value)
    {
      var done := calls[k].result.value;
      if HasTask(tasks, a) {
        var t :| TaskOf(tasks, t, a) && tasks[t].phase.Done? && Tells(done, tasks[t].phase.ending);
        assert TaskOf(tasks', t, a) && tasks'[t] == tasks[t];
      }
    }
  }

  /** The one execution of this action. */
  lemma NewExecution(w: World, j: Joint, j': Joint, c: nat, a: string)
    requires Inv(w, j, a) && Inbox.Inv(j.inbox) && LetThrough(j, j', c) && c in j.links
             && j.path.callers[c].sub.action == a
    ensures TasksInv(w, j'.path.tasks, j.inbox.calls, a) && forall pc :: !Idle(j', pc, a)
  {
    var (calls, k) := (j.inbox.calls, j.links[c]);
    CallsDiffer(j.inbox);
    assert Tied(w, j.path, c, calls[k]) && CallFor(calls, k, a) && Idle(j, c, a);
    forall t | 0 <= t < |j.path.tasks|
      ensures !TaskOf(j.path.tasks, t, a) && !TaskOf(j'.path.tasks, t, a)
    {
      assert j'.path.tasks[t] == j.path.tasks[t];
    }
    forall pc | pc in j.links && CallFor(calls, j.links[pc], a)
      ensures pc == c
    {
    }
  }

  lemma GateKeeps(w: World, j: Joint, l: Path.Label, a: string)
    requires Inv(w, j, a) && Inbox.Inv(j.inbox) && l.Gate? && !Unapproved(w, j, l)
    ensures Inv(w, Step(w, j, OnPath(l)), a)
  {
    if l.c in j.path.callers && j.path.callers[l.c].Preflighting? {
      if |Path.Step(j.path, l).tasks| == |j.path.tasks| {
        RefusalKeeps(w, j, l, a);
      } else {
        ApprovalKeeps(w, j, l, a);
      }
    } else {
      assert Path.Step(j.path, l) == j.path;
    }
  }

  lemma PathKeeps(w: World, j: Joint, l: Path.Label, a: string)
    requires Inv(w, j, a) && Inbox.Inv(j.inbox) && (l.Propose? && l.sub.action == a ==> w.needs(l.sub))
    ensures Inv(w, Step(w, j, OnPath(l)), a)
  {
    if Unapproved(w, j, l) {
    } else if l.Gate? {
      GateKeeps(w, j, l, a);
    } else if l.Restart? {
      RestartKeeps(w, j, a);
    } else if l.Propose? {
      ProposeKeeps(w, j, l.c, l.sub, a);
    } else {
      if l.Start? || l.Deliver? || l.Interrupt? || l.Forget? { TaskIsQuiet(j.path, l); }
      else if l.Support? || l.Acknowledge? { ControlIsQuiet(j.path, l); }
      else { ArrivalIsQuiet(j.path, l); }
      QuietKeeps(w, j, Path.Step(j.path, l), a);
    }
  }

  // ---- the shared call ---------------------------------------------------------------

  /** A call adds one to the calls, for an action that none was made for before. */
  lemma CallIsNew(s: Inbox.Sys, c: nat)
    requires Inbox.Inv(s) && c in s.callers && s.callers[c].Calling?
    ensures var (s', p) := (Inbox.Step(s, CallBy(c)), Proposals.FromPayload(s.callers[c].row.ticket.proposal));
            && |s'.calls| == |s.calls| + 1 && s'.calls[..|s.calls|] == s.calls
            && s'.calls[|s.calls|].proposal == p && s'.calls[|s.calls|].result == None
            && forall k :: !CallFor(s.calls, k, p.actionId)
  {
    var (s', n) := (Inbox.Step(s, CallBy(c)), |s.calls|);
    Inbox.StepKeeps(s, CallBy(c));
    CallsDiffer(s');
    forall k | 0 <= k < n
      ensures s.calls[k].proposal.actionId != s'.calls[n].proposal.actionId
    {
      assert s'.calls[k] == s.calls[k];
      assert CallFor(s'.calls, k, s.calls[k].proposal.actionId) && CallFor(s'.calls, n, s'.calls[n].proposal.actionId);
    }
  }

  lemma CallsGrow(w: World, tasks: seq<Path.Task>, calls: seq<Inbox.Call>, call: Inbox.Call, a: string)
    requires TasksInv(w, tasks, calls, a) && call.result == None
    ensures TasksInv(w, tasks, calls + [call], a)
  {
    var calls' := calls + [call];
    forall t | TaskOf(tasks, t, a)
      ensures Called(w, tasks[t].sub, calls', a)
    {
      var k :| CallFor(calls, k, a) && Reads(w, tasks[t].sub, calls[k].proposal);
      assert CallFor(calls', k, a) && calls'[k] == calls[k];
    }
    forall k | CallFor(calls', k, a) && calls'[k].result.Some?
      ensures Backed(tasks, a, calls'[k].result.value)
    {
      assert CallFor(calls, k, a) && calls'[k] == calls[k];
    }
  }

  lemma Uncalled(w: World, tasks: seq<Path.Task>, calls: seq<Inbox.Call>, a: string)
    requires TasksInv(w, tasks, calls, a) && forall k :: !CallFor(calls, k, a)
    ensures !HasTask(tasks, a)
  {
    assert forall t :: TaskOf(tasks, t, a) ==> Called(w, tasks[t].sub, calls, a);
  }

  /** What it is for a call to be made. */
  ghost predicate Resumed(w: World, j: Joint, j': Joint, pc: nat, sub: Path.Submission, call: Inbox.Call) {
    && pc !in j.path.callers && call.result == None && Reads(w, sub, call.proposal)
    && j'.inbox.calls == j.inbox.calls + [call] && j'.links == j.links[pc := |j.inbox.calls|]
    && j'.path.tasks == j.path.tasks && j'.path.callers == j.path.callers[pc := Path.Preflighting(sub)]
  }

  lemma ResumedLinks(w: World, j: Joint, j': Joint, pc: nat, sub: Path.Submission, call: Inbox.Call)
    requires LinksInv(w, j) && Resumed(w, j, j', pc, sub, call)
    ensures LinksInv(w, j') && pc !in j.links
  {
    forall qc | qc in j'.links
      ensures j'.links[qc] < |j'.inbox.calls| && Tied(w, j'.path, qc, j'.inbox.calls[j'.links[qc]])
    {
      if qc != pc { assert Tied(w, j.path, qc, j.inbox.calls[j.links[qc]]); }
    }
    assert forall qc :: qc in j.links ==> Tied(w, j.path, qc, j.inbox.calls[j.links[qc]]);
  }

  lemma ResumedKeeps(w: World, j: Joint, j': Joint, pc: nat, sub: Path.Submission, call: Inbox.Call, a: string)
    requires Inv(w, j, a) && Resumed(w, j, j', pc, sub, call)
             && forall k :: !CallFor(j.inbox.calls, k, call.proposal.actionId)
    ensures Inv(w, j', a)
  {
    ResumedLinks(w, j, j', pc, sub, call);
    CallsGrow(w, j.path.tasks, j.inbox.calls, call, a);
    if call.proposal.actionId == a { Uncalled(w, j.path.tasks, j.inbox.calls, a); }
    forall qc | Idle(j', qc, a) && qc != pc
      ensures Idle(j, qc, a)
    {
      assert Tied(w, j.path, qc, j.inbox.calls[j.links[qc]]);
    }
    assert forall qc :: Direct(j', qc, a) ==> Direct(j, qc, a);
  }

  lemma ResumeKeeps(w: World, j: Joint, l: Label, a: string)
    requires Inv(w, j, a) && Inbox.Inv(j.inbox) && l.Resume? && CanResume(w, j, l.c, l.pc, l.sub)
    ensures Inv(w, Step(w, j, l), a)
  {
    var (j', n) := (Step(w, j, l), |j.inbox.calls|);
    CallIsNew(j.inbox, l.c);
    assert j'.inbox.calls == j.inbox.calls + [j'.inbox.calls[n]];
    ResumedKeeps(w, j, j', l.pc, l.sub, j'.inbox.calls[n], a);
  }

  lemma {:induction false} Reachable(w: World, ls: seq<Label>, a: string)
    requires Guarded(w, ls, a)
    ensures Inv(w, Run(w, ls), a)
    decreases |ls|
  {
    if ls != [] {
      var (front, l) := (ls[..|ls| - 1], ls[|ls| - 1]);
      var j := Run(w, front);
      Reachable(w, front, a);
      InboxRuns(w, front);
      Inbox.Reachable(InboxPart(w, front));
      match l
      case OnInbox(i) => if !IsShared(i) { InboxKeeps(w, j, i, a); }
      case OnPath(x) => PathKeeps(w, j, x, a);
      case Resume(c, pc, sub) => if CanResume(w, j, c, pc, sub) { ResumeKeeps(w, j, l, a); }
      case Return(c, pc, done) => if CanReturn(j, c, pc, done) { ReturnKeeps(w, j, l, a); }
    }
  }
}
