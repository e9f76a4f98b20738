/**
  The journal and the executions tell the same story: every request has its
  execution, and COMPLETED and FAILED stand in the journal exactly for the
  executions that ended so.
 */
module ActionEndings {
  import opened Prelude
  import opened ActionPath
  import Races = ActionRaces

  predicate TaskOf(tasks: seq<Task>, t: int, a: string) {
    0 <= t < |tasks| && tasks[t].sub.action == a
  }

  ghost predicate HasTask(tasks: seq<Task>, a: string) {
    exists t :: TaskOf(tasks, t, a)
  }

  ghost predicate Ended(tasks: seq<Task>, a: string, ending: Ending) {
    exists t :: TaskOf(tasks, t, a) && tasks[t].phase == Done(ending)
  }

  ghost predicate HasRequest(tasks: seq<Task>, a: string, i: int) {
    exists t :: TaskOf(tasks, t, a) && tasks[t].request == i
  }

  /** What stands behind an entry of the journal. */
  ghost predicate Behind(tasks: seq<Task>, e: Event, i: int) {
    match e.kind
    case ExecutionRequested => HasRequest(tasks, e.action, i)
    case Completed => Ended(tasks, e.action, EndCompleted)
    case Failed => Ended(tasks, e.action, EndFailed)
    case Canceled => HasTask(tasks, e.action)
    case _ => true
  }

  /** What the journal says of an execution that has ended. */
  predicate Told(log: seq<Event>, t: Task) {
    match t.phase
    case Done(EndCompleted) => Logged(log, t.sub.action, Completed)
    case Done(EndFailed) => Logged(log, t.sub.action, Failed)
    case Done(EndCanceled) => Logged(log, t.sub.action, Canceled)
    case Done(EndLate) => Logged(log, t.sub.action, Canceled)
    case _ => true
  }

  ghost predicate Inv(p: Path) {
    && (forall i {:trigger Behind(p.tasks, p.log[i], i)} :: 0 <= i < |p.log| ==> Behind(p.tasks, p.log[i], i))
    && (forall t {:trigger Told(p.log, p.tasks[t])} :: 0 <= t < |p.tasks| ==> Told(p.log, p.tasks[t]))
  }

  // ---- growth ----------------------------------------------------------------

  /** Executions are only added, keep what they are for, and stay ended once they have ended. */
  ghost predicate TasksGrow(tasks: seq<Task>, tasks': seq<Task>) {
    && |tasks| <= |tasks'|
    && forall t :: 0 <= t < |tasks| ==>
         && tasks'[t].sub == tasks[t].sub && tasks'[t].request == tasks[t].request
         && (tasks[t].phase.Done? ==> tasks'[t].phase == tasks[t].phase)
  }

  lemma BehindStays(tasks: seq<Task>, tasks': seq<Task>, e: Event, i: int)
    requires TasksGrow(tasks, tasks') && Behind(tasks, e, i)
    ensures Behind(tasks', e, i)
  {
    assert forall t :: TaskOf(tasks, t, e.action) ==> TaskOf(tasks', t, e.action);
    match e.kind
    case ExecutionRequested =>
      var t :| TaskOf(tasks, t, e.action) && tasks[t].request == i;
      assert tasks'[t].request == i;
    case Completed =>
      var t :| TaskOf(tasks, t, e.action) && tasks[t].phase == Done(EndCompleted);
      assert tasks'[t].phase == Done(EndCompleted);
    case Failed =>
      var t :| TaskOf(tasks, t, e.action) && tasks[t].phase == Done(EndFailed);
      assert tasks'[t].phase == Done(EndFailed);
    case _ =>
  }

  lemma LoggedStays(log: seq<Event>, log': seq<Event>, a: string, k: Kind)
    requires log <= log' && Logged(log, a, k)
    ensures Logged(log', a, k)
  {
    var i :| 0 <= i < |log| && log[i].action == a && log[i].kind == k;
    assert log'[i] == log[i];
  }

  lemma ToldStays(log: seq<Event>, log': seq<Event>, t: Task)
    requires log <= log' && Told(log, t)
    ensures Told(log', t)
  {
    forall k | Logged(log, t.sub.action, k)
      ensures Logged(log', t.sub.action, k)
    {
      LoggedStays(log, log', t.sub.action, k);
    }
  }

  /** A step is right if its new entries have something behind them and the executions it moves are told of. */
  lemma GrowthKeeps(p: Path, p': Path)
    requires Inv(p) && p.log <= p'.log && TasksGrow(p.tasks, p'.tasks)
    requires forall i :: |p.log| <= i < |p'.log| ==> Behind(p'.tasks, p'.log[i], i)
    requires forall t :: 0 <= t < |p'.tasks| && (t >= |p.tasks| || p'.tasks[t].phase != p.tasks[t].phase) ==>
             Told(p'.log, p'.tasks[t])
    ensures Inv(p')
  {
    forall i | 0 <= i < |p'.log|
      ensures Behind(p'.tasks, p'.log[i], i)
    {
      if i < |p.log| {
        assert Behind(p.tasks, p.log[i], i);
        BehindStays(p.tasks, p'.tasks, p.log[i], i);
      }
    }
    forall t | 0 <= t < |p'.tasks|
      ensures Told(p'.log, p'.tasks[t])
    {
      if t < |p.tasks| && p'.tasks[t].phase == p.tasks[t].phase {
        assert Told(p.log, p.tasks[t]);
        ToldStays(p.log, p'.log, p.tasks[t]);
        assert Told(p'.log, p.tasks[t]);
      }
    }
  }

  lemma {:induction false} TerminalIsLogged(log: seq<Event>, a: string)
    requires TerminalOf(log, a).Some?
    ensures Logged(log, a, TerminalOf(log, a).value)
    decreases |log|
  {
    var n := |log| - 1;
    if !(log[n].action == a && IsTerminal(log[n].kind)) {
      TerminalIsLogged(log[..n], a);
      LoggedStays(log[..n], log, a, TerminalOf(log, a).value);
    }
  }

  // ---- the steps ---------------------------------------------------------------

  predicate Plain(k: Kind) {
    k !in {ExecutionRequested, Completed, Failed, Canceled}
  }

  /** A step that only journals plain entries. */
  lemma PlainKeeps(p: Path, p': Path)
    requires Inv(p) && p.log <= p'.log && p'.tasks == p.tasks && forall i :: |p.log| <= i < |p'.log| ==>
             Plain(p'.log[i].kind)
    ensures Inv(p')
  {
    GrowthKeeps(p, p');
  }

  lemma GateKeeps(p: Path, c: nat, sub: Submission, preflightOk: bool, verdict: Verdict)
    requires Inv(p)
    ensures Inv(GateStep(p, c, sub, preflightOk, verdict))
  {
    var p' := GateStep(p, c, sub, preflightOk, verdict);
    if |p'.tasks| == |p.tasks| {
      PlainKeeps(p, p');
    } else {
      assert TaskOf(p'.tasks, |p.tasks|, sub.action) && p'.tasks[|p.tasks|].request == |p.log| + 1;
      GrowthKeeps(p, p');
    }
  }

  /** The backend's answer that counts. */
  lemma OutcomeKeeps(p: Path, p': Path, t: nat, ending: Ending)
    requires Inv(p) && t < |p.tasks| && !p.tasks[t].phase.Done? && ending in {EndCompleted, EndFailed}
    requires p.log < p'.log && p'.tasks == p.tasks[t := p.tasks[t].(phase := Done(ending))]
    requires var e := p'.log[|p.log|];
             e.action == p.tasks[t].sub.action && e.kind == if ending == EndCompleted then Completed else Failed
    requires forall i :: |p.log| < i < |p'.log| ==> Plain(p'.log[i].kind)
    ensures Inv(p')
  {
    assert TaskOf(p'.tasks, t, p.tasks[t].sub.action);
    GrowthKeeps(p, p');
  }

  lemma LateKeeps(p: Path, t: nat)
    requires Inv(p) && t < |p.tasks| && !p.tasks[t].phase.Done?
    requires TerminalOf(p.log, p.tasks[t].sub.action) == Some(Canceled)
    ensures Inv(SetPhase(Emit(p, ByPath(LateDiscarded, p.tasks[t].sub)), t, Done(EndLate)))
  {
    var p' := SetPhase(Emit(p, ByPath(LateDiscarded, p.tasks[t].sub)), t, Done(EndLate));
    TerminalIsLogged(p.log, p.tasks[t].sub.action);
    LoggedStays(p.log, p'.log, p.tasks[t].sub.action, Canceled);
    GrowthKeeps(p, p');
  }

  lemma DeliverKeeps(p: Path, t: nat, backend: Backend)
    requires Inv(p) && t < |p.tasks| && p.tasks[t].phase.Running?
    ensures Inv(DeliverStep(p, t, backend))
  {
    if TerminalOf(p.log, p.tasks[t].sub.action) == Some(Canceled) {
      LateKeeps(p, t);
    } else {
      OutcomeKeeps(p, DeliverStep(p, t, backend), t, if backend.Good? then EndCompleted else EndFailed);
    }
  }

  lemma InterruptKeeps(p: Path, t: nat)
    requires Inv(p) && t < |p.tasks|
    ensures Inv(InterruptStep(p, t))
  {
    var a := p.tasks[t].sub.action;
    if TerminalOf(p.log, a) == Some(Canceled) { TerminalIsLogged(p.log, a); }
    GrowthKeeps(p, InterruptStep(p, t));
  }

  lemma AcknowledgeKeeps(p: Path, c: nat, req: Request, t: nat, ok: bool)
    requires Inv(p) && t < |p.tasks| && p.tasks[t].sub.action == req.action
    ensures Inv(AcknowledgeStep(p, c, req, t, ok))
  {
    var p' := AcknowledgeStep(p, c, req, t, ok);
    assert TaskOf(p'.tasks, t, req.action);
    GrowthKeeps(p, p');
  }

  lemma TaskStepKeeps(p: Path, l: Label, t: nat)
    requires Inv(p) && t < |p.tasks|
    ensures Inv(TaskStep(p, l, t))
  {
    match l
    case Start(_) => GrowthKeeps(p, StartStep(p, t));
    case Deliver(_, backend) => if p.tasks[t].phase.Running? { DeliverKeeps(p, t, backend); }
    case Interrupt(_) => InterruptKeeps(p, t);
    case Forget(_) => PlainKeeps(p, ForgetStep(p, t));
    case _ =>
  }

  lemma CallerStepKeeps(p: Path, l: Label, c: nat)
    requires Inv(p) && Races.Inv(p) && c in p.callers
    ensures Inv(CallerStep(p, l, c))
  {
    var st := p.callers[c];
    assert Races.CallerInv(p.tasks, st);
    match l
    case Gate(_, preflightOk, verdict) => if st.Preflighting? { GateKeeps(p, c, st.sub, preflightOk, verdict); }
    case Support(_, supported) => if st.CheckingSupport? { PlainKeeps(p, SupportStep(p, c, st.req, st.t, supported)); }
    case Acknowledge(_, ok) => if st.AwaitingCancel? { AcknowledgeKeeps(p, c, st.req, st.t, ok); }
    case _ =>
  }

  lemma StepKeeps(p: Path, l: Label)
    requires Inv(p) && Races.Inv(p)
    ensures Inv(Step(p, l))
  {
    match l
    case Propose(_, _) => PlainKeeps(p, Step(p, l));
    case Cancel(_, _) => PlainKeeps(p, Step(p, l));
    case Reconcile(_, _, _) => PlainKeeps(p, Step(p, l));
    case Foreign(_, _) => PlainKeeps(p, Step(p, l));
    case Restart => GrowthKeeps(p, RestartStep(p));
    case Gate(c, _, _) => if c in p.callers { CallerStepKeeps(p, l, c); }
    case Support(c, _) => if c in p.callers { CallerStepKeeps(p, l, c); }
    case Acknowledge(c, _) => if c in p.callers { CallerStepKeeps(p, l, c); }
    case _ => if l.t < |p.tasks| { TaskStepKeeps(p, l, l.t); }
  }

  lemma {:induction false} AlwaysTold(ls: seq<Label>)
    ensures Inv(Run(ls))
    decreases |ls|
  {
    if ls != [] {
      AlwaysTold(ls[..|ls| - 1]);
      Races.Reachable(ls[..|ls| - 1]);
      StepKeeps(Run(ls[..|ls| - 1]), ls[|ls| - 1]);
    }
  }

  // ---- results -----------------------------------------------------------------

  /**
    Over every run, an action has a COMPLETED exactly when an execution of it
    ended so, and likewise FAILED; an execution that ended as canceled or late has
    a CANCELED; and every request and every CANCELED belongs to an execution.
   */
  lemma {:induction false} JournalMatchesEndings(ls: seq<Label>, a: string)
    ensures var p := Run(ls);
            && (Logged(p.log, a, Completed) <==> Ended(p.tasks, a, EndCompleted))
            && (Logged(p.log, a, Failed) <==> Ended(p.tasks, a, EndFailed))
            && (Ended(p.tasks, a, EndCanceled) || Ended(p.tasks, a, EndLate) ==> Logged(p.log, a, Canceled))
            && (Logged(p.log, a, Canceled) ==> HasTask(p.tasks, a))
            && (forall i :: Races.RequestAt(p.log, i, a) ==> HasRequest(p.tasks, a, i))
  {
    AlwaysTold(ls);
    EntriesMatch(Run(ls), a);
    TasksMatch(Run(ls), a);
  }

  lemma EntriesMatch(p: Path, a: string)
    requires Inv(p)
    ensures Logged(p.log, a, Completed) ==> Ended(p.tasks, a, EndCompleted)
    ensures Logged(p.log, a, Failed) ==> Ended(p.tasks, a, EndFailed)
    ensures Logged(p.log, a, Canceled) ==> HasTask(p.tasks, a)
    ensures forall i :: Races.RequestAt(p.log, i, a) ==> HasRequest(p.tasks, a, i)
  {
    forall i | 0 <= i < |p.log| && p.log[i].action == a
      ensures Behind(p.tasks, p.log[i], i)
    {
    }
  }

  lemma TasksMatch(p: Path, a: string)
    requires Inv(p)
    ensures Ended(p.tasks, a, EndCompleted) ==> Logged(p.log, a, Completed)
    ensures Ended(p.tasks, a, EndFailed) ==> Logged(p.log, a, Failed)
    ensures Ended(p.tasks, a, EndCanceled) || Ended(p.tasks, a, EndLate) ==> Logged(p.log, a, Canceled)
  {
    forall t | TaskOf(p.tasks, t, a)
      ensures Told(p.log, p.tasks[t])
    {
    }
  }
}
