/**
  `GovernedActionPath` as a machine over its event journal. A step is the code
  between two awaits; executions, cancels and reconciles of any number of
  actions overlap freely. The governor, the backends and the tool validator
  answer through the labels; a label that does not apply leaves the state alone.
 */
module ActionPath {
  import opened Prelude
  import Failures

  datatype Kind =
    | Proposed | PreflightFailed | RetryBlocked | GovernanceApproved | ApprovalRequired | GovernanceRejected
    | ApprovalRequested | ExecutionRequested | Completed | Failed | FailureDetected | LateDiscarded
    | CancelIntent | CancelUnsupported | CancelNotConfirmed | CancelRequested | Canceled
    | ReconciliationRequested | ApprovalRejected | ApprovalExpired | Unrelated

  /** A journal entry. `signature` and `retry` repeat what the proposal behind the entry says. */
  datatype Event = Event(kind: Kind, action: string, control: string, hash: string, session: string, signature: string,
    retry: string)

  /** What the path reads off a proposal; `retry` is its `retry_reason or ""`. */
  datatype Submission = Submission(action: string, hash: string, session: string, signature: string, retry: string)

  datatype Ending = EndCompleted | EndFailed | EndCanceled | EndLate | EndInterrupted | EndLost

  datatype Phase = Scheduled | Running | Done(ending: Ending)

  /** An execution task. `request` is the place of its ACTION_EXECUTION_REQUESTED in the journal. */
  datatype Task = Task(sub: Submission, request: nat, phase: Phase, cancelRequested: bool)

  datatype Request = Request(action: string, control: string, hash: string, session: string, principal: string,
    explicitIntent: bool)

  datatype ControlStatus =
    StRequested | StCanceling | StUnsupported | StNotConfirmed | StTerminal(kind: Kind) | StCanceled

  datatype Caller =
    | Preflighting(sub: Submission)
    | Refused(kind: Kind)
    | Waiting(t: nat)
    | CheckingSupport(req: Request, t: nat)
    | AwaitingCancel(req: Request, t: nat)
    | Answered(status: ControlStatus)
    | Conflict
    | BadBinding

  datatype Path = Path(log: seq<Event>, tasks: seq<Task>, active: map<string, nat>, callers: map<nat, Caller>,
    failures: seq<Failures.Row>)

  const EMPTY: Path := Path([], [], map[], map[], [])

  datatype Verdict = Approve | NeedApproval(created: bool) | Deny

  datatype Backend = Good | Bad(detail: string)

  datatype Label =
    | Propose(c: nat, sub: Submission)
    | Gate(c: nat, preflightOk: bool, verdict: Verdict)
    | Start(t: nat)
    | Deliver(t: nat, backend: Backend)
    | Interrupt(t: nat)
    | Forget(t: nat)
    | Cancel(c: nat, req: Request)
    | Support(c: nat, supported: bool)
    | Acknowledge(c: nat, ok: bool)
    | Reconcile(c: nat, req: Request, observed: nat)
    | Foreign(kind: Kind, action: string)
    | Restart

  // ---- reading the journal ------------------------------------------------

  predicate IsTerminal(k: Kind) {
    k in {Completed, Failed, Canceled, PreflightFailed, GovernanceRejected, ApprovalRejected, ApprovalExpired,
      RetryBlocked}
  }

  /** `_terminal_event`: the kind of the latest terminal entry of an action. */
  function TerminalOf(log: seq<Event>, a: string): Option<Kind> {
    if log == [] then None
    else
      var e := log[|log| - 1];
      if e.action == a && IsTerminal(e.kind) then Some(e.kind) else TerminalOf(log[..|log| - 1], a)
  }

  predicate Logged(log: seq<Event>, a: string, k: Kind) {
    exists i :: 0 <= i < |log| && log[i].action == a && log[i].kind == k
  }

  /** The action's entries that carry a control request id, latest last. */
  function ControlKind(log: seq<Event>, a: string, control: string): Option<Kind> {
    if log == [] then None
    else
      var e := log[|log| - 1];
      if e.action == a && e.control == control then Some(e.kind) else ControlKind(log[..|log| - 1], a, control)
  }

  function FirstProposal(log: seq<Event>, a: string): Option<Event> {
    if log == [] then None
    else if log[0].action == a && log[0].kind == Proposed then Some(log[0])
    else FirstProposal(log[1..], a)
  }

  /** `_control_proposal`: the exception it raises, if any. */
  function BindingError(log: seq<Event>, req: Request): (error: Option<Caller>)
    ensures error in {None, Some(Conflict), Some(BadBinding)}
  {
    if Blank(req.control) then Some(BadBinding)
    else match FirstProposal(log, req.action)
         case None => Some(Conflict)
         case Some(e) =>
           if e.hash != req.hash || e.session != "browser:" + req.session then Some(BadBinding)
           else if exists i :: 0 <= i < |log| && log[i].control == req.control
                               && (log[i].action != req.action || log[i].hash != req.hash
                                 || log[i].session != req.session) then Some(BadBinding)
           else None
  }

  function ReplayStatus(k: Kind): ControlStatus {
    match k
    case CancelIntent => StRequested
    case CancelRequested => StCanceling
    case CancelUnsupported => StUnsupported
    case _ => StNotConfirmed
  }

  // ---- steps --------------------------------------------------------------

  function Emit(p: Path, e: Event): Path {
    p.(log := p.log + [e])
  }

  function At(p: Path, c: nat, st: Caller): Path {
    p.(callers := p.callers[c := st])
  }

  function SetPhase(p: Path, t: nat, phase: Phase): Path
    requires t < |p.tasks|
  {
    p.(tasks := p.tasks[t := p.tasks[t].(phase := phase)])
  }

  function ByPath(k: Kind, sub: Submission): Event {
    Event(k, sub.action, "", "", "", sub.signature, sub.retry)
  }

  function ByControl(k: Kind, req: Request): Event {
    Event(k, req.action, req.control, req.hash, req.session, "", "")
  }

  /** ACTION_EXECUTION_REQUESTED, the new task and its place among the active ones. */
  function Submit(p: Path, sub: Submission): Path {
    Emit(p, ByPath(ExecutionRequested, sub)).(
      tasks := p.tasks + [Task(sub, |p.log|, Scheduled, false)],
      active := p.active[sub.action := |p.tasks|])
  }

  /** `execute` from the preflight's answer to its return or its await on the execution. */
  function GateStep(p: Path, c: nat, sub: Submission, preflightOk: bool, verdict: Verdict): Path {
    if !preflightOk then At(Emit(p, ByPath(PreflightFailed, sub)), c, Refused(PreflightFailed))
    else if Failures.OpenFailures(p.failures, sub.signature) != [] && Blank(sub.retry) then
      At(Emit(p, ByPath(RetryBlocked, sub)), c, Refused(RetryBlocked))
    else match verdict
         case Deny => At(Emit(p, ByPath(GovernanceRejected, sub)), c, Refused(GovernanceRejected))
         case NeedApproval(created) =>
           var asked := Emit(p, ByPath(ApprovalRequired, sub));
           At(if created then Emit(asked, ByPath(ApprovalRequested, sub)) else asked, c, Refused(ApprovalRequired))
         case Approve => At(Submit(Emit(p, ByPath(GovernanceApproved, sub)), sub), c, Waiting(|p.tasks|))
  }

  /** A task that was cancelled before its first step never enters its body. */
  function StartStep(p: Path, t: nat): Path
    requires t < |p.tasks|
  {
    if !p.tasks[t].phase.Scheduled? then p
    else SetPhase(p, t, if p.tasks[t].cancelRequested then Done(EndInterrupted) else Running)
  }

  /** `_complete_execution` once the backend has answered or raised. */
  function DeliverStep(p: Path, t: nat, backend: Backend): Path
    requires t < |p.tasks|
  {
    var sub := p.tasks[t].sub;
    if !p.tasks[t].phase.Running? then p
    else if TerminalOf(p.log, sub.action) == Some(Canceled)
      then SetPhase(Emit(p, ByPath(LateDiscarded, sub)), t, Done(EndLate))
    else match backend
         case Good =>
           SetPhase(Emit(p.(failures := Failures.Resolved(p.failures, sub.signature, if sub.retry != ""
             then sub.retry else "execution succeeded")),
                         ByPath(Completed, sub)), t, Done(EndCompleted))
         case Bad(detail) =>
           SetPhase(Emit(Emit(p.(failures := Failures.Recorded(p.failures, sub.signature, detail, sub.action)),
                              ByPath(Failed, sub)), ByPath(FailureDetected, sub)), t, Done(EndFailed))
  }

  /** A CancelledError inside an execution: at its await, or before its body. */
  function InterruptStep(p: Path, t: nat): Path
    requires t < |p.tasks|
  {
    match p.tasks[t].phase
    case Scheduled => SetPhase(p, t, Done(EndInterrupted))
    case Running => SetPhase(p, t,
      Done(if TerminalOf(p.log, p.tasks[t].sub.action) == Some(Canceled) then EndCanceled else EndInterrupted))
    case Done(_) => p
  }

  function ForgetStep(p: Path, t: nat): Path
    requires t < |p.tasks|
  {
    var a := p.tasks[t].sub.action;
    if p.tasks[t].phase.Done? && a in p.active && p.active[a] == t then p.(active := p.active - {a}) else p
  }

  /** `cancel_action` up to its first await: where it leaves its caller. */
  function CancelAnswer(p: Path, req: Request): Caller {
    if !req.explicitIntent || Blank(req.principal) then BadBinding
    else match (BindingError(p.log, req), ControlKind(p.log, req.action, req.control), TerminalOf(p.log, req.action))
         case (Some(error), _, _) => error
         case (None, Some(_), Some(end)) => Answered(StTerminal(end))
         case (None, Some(k), None) => Answered(ReplayStatus(k))
         case (None, None, Some(_)) => Conflict
         case (None, None, None) =>
           if Logged(p.log, req.action, CancelIntent) || req.action !in p.active then Conflict
           else CheckingSupport(req, p.active[req.action])
  }

  function CancelStep(p: Path, c: nat, req: Request): Path {
    At(p, c, CancelAnswer(p, req))
  }

  /** From the answer about cancel support to the next await. */
  function SupportStep(p: Path, c: nat, req: Request, t: nat, supported: bool): Path {
    if TerminalOf(p.log, req.action).Some? || req.action !in p.active || p.active[req.action] != t
      then At(p, c, Conflict)
    else
      var intended := Emit(p, ByControl(CancelIntent, req));
      if supported then At(intended, c, AwaitingCancel(req, t))
      else At(Emit(intended, ByControl(CancelUnsupported, req)), c, Answered(StUnsupported))
  }

  /** From the backend's answer to the cancel. */
  function AcknowledgeStep(p: Path, c: nat, req: Request, t: nat, ok: bool): Path
    requires t < |p.tasks|
  {
    match TerminalOf(p.log, req.action)
    case Some(k) => At(p, c, Answered(StTerminal(k)))
    case None =>
      if !ok then At(Emit(p, ByControl(CancelNotConfirmed, req)), c, Answered(StNotConfirmed))
      else
        var canceled := Emit(Emit(p, ByControl(CancelRequested, req)), ByControl(Canceled, req));
        At(canceled.(tasks := p.tasks[t := p.tasks[t].(cancelRequested := true)]), c, Answered(StCanceled))
  }

  /** `reconcile_action`, which never awaits: its answer, or None where it journals the request. */
  function ReconcileAnswer(p: Path, req: Request, observed: nat): Option<Caller> {
    if Blank(req.principal) then Some(BadBinding)
    else match (BindingError(p.log, req), ControlKind(p.log, req.action, req.control), TerminalOf(p.log, req.action))
         case (Some(error), _, _) => Some(error)
         case (None, Some(_), Some(end)) => Some(Answered(StTerminal(end)))
         case (None, Some(k), None) => Some(Answered(ReplayStatus(k)))
         case (None, None, end) =>
           if Logged(p.log, req.action, ReconciliationRequested) then Some(Conflict)
           else if observed >= |p.log| || p.log[observed].action != req.action then Some(BadBinding)
           else if end.Some? then Some(Answered(StTerminal(end.value)))
           else if !Logged(p.log, req.action, ExecutionRequested) then Some(Conflict)
           else None
  }

  function ReconcileStep(p: Path, c: nat, req: Request, observed: nat): Path {
    match ReconcileAnswer(p, req, observed)
    case Some(answer) => At(p, c, answer)
    case None => At(Emit(p, ByControl(ReconciliationRequested, req)), c, Answered(StNotConfirmed))
  }

  /** A new process: the journal and the failure file survive, tasks and callers do not. */
  function RestartStep(p: Path): Path {
    p.(tasks := seq(|p.tasks|, i requires 0 <= i < |p.tasks| => if p.tasks[i].phase.Done?
      then p.tasks[i] else p.tasks[i].(phase := Done(EndLost))),
       active := map[], callers := map[])
  }

  function TaskStep(p: Path, l: Label, t: nat): Path
    requires t < |p.tasks|
  {
    match l
    case Start(_) => StartStep(p, t)
    case Deliver(_, backend) => DeliverStep(p, t, backend)
    case Interrupt(_) => InterruptStep(p, t)
    case Forget(_) => ForgetStep(p, t)
    case _ => p
  }

  function CallerStep(p: Path, l: Label, c: nat): Path
    requires c in p.callers
  {
    var st := p.callers[c];
    match l
    case Gate(_, preflightOk, verdict) => if st.Preflighting? then GateStep(p, c, st.sub, preflightOk, verdict) else p
    case Support(_, supported) => if st.CheckingSupport? then SupportStep(p, c, st.req, st.t, supported) else p
    case Acknowledge(_, ok) =>
      if st.AwaitingCancel? && st.t < |p.tasks| then AcknowledgeStep(p, c, st.req, st.t, ok) else p
    case _ => p
  }

  function Step(p: Path, l: Label): Path {
    match l
    case Propose(c, sub) =>
      if c in p.callers then p
      else At(Emit(p, Event(Proposed, sub.action, "", sub.hash, sub.session, sub.signature, sub.retry)), c,
        Preflighting(sub))
    case Cancel(c, req) => if c in p.callers then p else CancelStep(p, c, req)
    case Reconcile(c, req, observed) => if c in p.callers then p else ReconcileStep(p, c, req, observed)
    case Foreign(kind, action) =>
      if kind in {ApprovalRejected, ApprovalExpired, Unrelated}
        then Emit(p, Event(kind, action, "", "", "", "", "")) else p
    case Restart => RestartStep(p)
    case Gate(c, _, _) => if c in p.callers then CallerStep(p, l, c) else p
    case Support(c, _) => if c in p.callers then CallerStep(p, l, c) else p
    case Acknowledge(c, _) => if c in p.callers then CallerStep(p, l, c) else p
    case _ => if l.t < |p.tasks| then TaskStep(p, l, l.t) else p
  }

  function Run(ls: seq<Label>): Path {
    if ls == [] then EMPTY else Step(Run(ls[..|ls| - 1]), ls[|ls| - 1])
  }
}
