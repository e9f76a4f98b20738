/**
  The race between an execution and any number of cancels: exactly when more than
  one of COMPLETED, FAILED and CANCELED is journaled, and what a cancelled waiter
  is told.
 */
module ActionRaces {
  import opened Prelude
  import opened ActionPath

  predicate IsOutcome(k: Kind) {
    k in {Completed, Failed, Canceled}
  }

  predicate OutcomeAt(log: seq<Event>, i: int, a: string) {
    0 <= i < |log| && log[i].action == a && IsOutcome(log[i].kind)
  }

  predicate RequestAt(log: seq<Event>, i: int, a: string) {
    0 <= i < |log| && log[i].action == a && log[i].kind == ExecutionRequested
  }

  /** Terminal entries that are not outcomes of an execution. */
  predicate Disturbs(k: Kind) {
    IsTerminal(k) && !IsOutcome(k)
  }

  predicate CanceledAt(log: seq<Event>, i: int, a: string) {
    0 <= i < |log| && log[i].action == a && log[i].kind == Canceled
  }

  predicate DisturbedAt(log: seq<Event>, d: int, a: string) {
    0 <= d < |log| && log[d].action == a && Disturbs(log[d].kind)
  }

  /** The action is submitted for execution at most once. */
  ghost predicate Single(log: seq<Event>, a: string) {
    forall i, j :: RequestAt(log, i, a) && RequestAt(log, j, a) ==> i == j
  }

  ghost predicate TwoOutcomes(log: seq<Event>, a: string) {
    exists i, j :: OutcomeAt(log, i, a) && OutcomeAt(log, j, a) && i < j
  }

  ghost predicate Between(log: seq<Event>, a: string, i: int, j: int) {
    exists d :: i < d < j && DisturbedAt(log, d, a)
  }

  /** A CANCELED, then a refusal of the action under the same id, then an outcome. */
  ghost predicate Overruled(log: seq<Event>, a: string) {
    exists i, j :: CanceledAt(log, i, a) && OutcomeAt(log, j, a) && Between(log, a, i, j)
  }

  lemma SinglePrefix(log: seq<Event>, e: Event, a: string)
    requires Single(log + [e], a)
    ensures Single(log, a)
    ensures e.action == a && (exists i :: RequestAt(log, i, a)) ==> e.kind != ExecutionRequested
  {
    var log' := log + [e];
    assert forall i :: RequestAt(log, i, a) ==> RequestAt(log', i, a);
    if e.action == a && e.kind == ExecutionRequested { assert RequestAt(log', |log|, a); }
  }

  lemma BetweenStays(log: seq<Event>, e: Event, a: string, i: int, j: int)
    requires Between(log, a, i, j)
    ensures Between(log + [e], a, i, j)
  {
    var d :| i < d < j && DisturbedAt(log, d, a);
    assert DisturbedAt(log + [e], d, a);
  }

  /** A lone CANCELED that is not the latest terminal entry is hidden by a refusal behind it. */
  lemma {:induction false} HiddenBy(log: seq<Event>, a: string, i: int)
    requires CanceledAt(log, i, a) && (forall k :: OutcomeAt(log, k, a) ==> k == i)
             && TerminalOf(log, a) != Some(Canceled)
    ensures Between(log, a, i, |log|)
    decreases |log|
  {
    var (front, n) := (log[..|log| - 1], |log| - 1);
    if log[n].action == a && IsTerminal(log[n].kind) {
      assert OutcomeAt(log, n, a) ==> n == i;
      assert DisturbedAt(log, n, a);
    } else {
      assert i < n && CanceledAt(front, i, a);
      forall k | OutcomeAt(front, k, a)
        ensures k == i
      {
        assert OutcomeAt(log, k, a);
      }
      HiddenBy(front, a, i);
      var d :| i < d < n && DisturbedAt(front, d, a);
      assert DisturbedAt(log, d, a);
    }
  }

  lemma TerminalSnoc(log: seq<Event>, e: Event, a: string)
    ensures TerminalOf(log + [e], a) == if e.action == a && IsTerminal(e.kind) then Some(e.kind) else TerminalOf(log, a)
  {
    assert (log + [e])[..|log|] == log;
  }

  lemma {:induction false} NoTerminalNoOutcome(log: seq<Event>, a: string, i: int)
    requires TerminalOf(log, a) == None
    ensures !OutcomeAt(log, i, a)
    decreases |log|
  {
    if OutcomeAt(log, i, a) && i < |log| - 1 {
      assert log[..|log| - 1][i] == log[i];
      NoTerminalNoOutcome(log[..|log| - 1], a, i);
    }
  }

  // ---- the invariant ------------------------------------------------------

  ghost predicate TaskInv(log: seq<Event>, t: Task) {
    RequestAt(log, t.request, t.sub.action)
  }

  ghost predicate CallerInv(tasks: seq<Task>, st: Caller) {
    (st.CheckingSupport? || st.AwaitingCancel?) ==> st.t < |tasks| && tasks[st.t].sub.action == st.req.action
  }

  predicate Unfinished(tasks: seq<Task>, t: int, a: string) {
    0 <= t < |tasks| && tasks[t].sub.action == a && !tasks[t].phase.Done?
  }

  /**
    Of two outcomes the first is a CANCELED that was hidden in between; while
    a task is unfinished there is at most one outcome, a CANCELED.
   */
  ghost predicate ActionInv(log: seq<Event>, tasks: seq<Task>, a: string) {
    Single(log, a) ==>
      && (forall i, j :: OutcomeAt(log, i, a) && OutcomeAt(log, j, a) && i < j ==>
        log[i].kind == Canceled && Between(log, a, i, j))
      && (forall t, i :: Unfinished(tasks, t, a) && OutcomeAt(log, i, a) ==> log[i].kind == Canceled)
      && (forall t, i, j :: Unfinished(tasks, t, a) && OutcomeAt(log, i, a) && OutcomeAt(log, j, a) ==> i == j)
  }

  ghost predicate Requested(log: seq<Event>, a: string) {
    exists i :: RequestAt(log, i, a)
  }

  ghost predicate Inv(p: Path) {
    && (forall t :: 0 <= t < |p.tasks| ==> TaskInv(p.log, p.tasks[t]))
    && (forall t, u :: 0 <= t < u < |p.tasks| ==> p.tasks[t].request != p.tasks[u].request)
    && (forall a {:trigger p.active[a]} :: a in p.active ==>
      p.active[a] < |p.tasks| && p.tasks[p.active[a]].sub.action == a)
    && (forall c {:trigger p.callers[c]} :: c in p.callers ==> CallerInv(p.tasks, p.callers[c]))
    && (forall a, i :: OutcomeAt(p.log, i, a) ==> Requested(p.log, a))
    && (forall a {:trigger ActionInv(p.log, p.tasks, a)} :: ActionInv(p.log, p.tasks, a))
  }

  /** An action that is submitted once has one task. */
  lemma OneTask(p: Path, t: int, u: int, a: string)
    requires Inv(p) && Single(p.log, a)
    requires 0 <= t < |p.tasks| && 0 <= u < |p.tasks| && p.tasks[t].sub.action == a && p.tasks[u].sub.action == a
    ensures t == u
  {
    assert TaskInv(p.log, p.tasks[t]) && TaskInv(p.log, p.tasks[u]);
    var (x, y) := (p.tasks[t].request, p.tasks[u].request);
    assert RequestAt(p.log, x, a) && RequestAt(p.log, y, a);
  }

  /** Journaling anything but a request or an outcome. */
  lemma HarmlessKeeps(p: Path, e: Event)
    requires Inv(p) && e.kind != ExecutionRequested && !IsOutcome(e.kind)
    ensures Inv(Emit(p, e))
  {
    var log' := p.log + [e];
    EmitKeepsRest(p, e);
    forall a
      ensures ActionInv(log', p.tasks, a)
    {
      assert ActionInv(p.log, p.tasks, a);
      if Single(log', a) {
        SinglePrefix(p.log, e, a);
        assert forall i :: OutcomeAt(log', i, a) ==> OutcomeAt(p.log, i, a);
        OldPairs(p, e, a);
      }
    }
  }

  /** Two outcomes from before an appended entry are as they were. */
  lemma OldPairs(p: Path, e: Event, a: string)
    requires Inv(p) && Single(p.log, a)
    ensures var log' := p.log + [e];
            forall i, j :: OutcomeAt(p.log, i, a) && OutcomeAt(p.log, j, a) && i < j ==>
              log'[i].kind == Canceled && Between(log', a, i, j)
  {
    assert ActionInv(p.log, p.tasks, a);
    forall i, j | OutcomeAt(p.log, i, a) && OutcomeAt(p.log, j, a) && i < j
      ensures (p.log + [e])[i].kind == Canceled && Between(p.log + [e], a, i, j)
    {
      BetweenStays(p.log, e, a, i, j);
    }
  }

  /** What an appended entry cannot break. */
  lemma EmitKeepsRest(p: Path, e: Event)
    requires Inv(p)
    ensures forall t :: 0 <= t < |p.tasks| ==> TaskInv(p.log + [e], p.tasks[t])
    ensures forall a {:trigger Requested(p.log + [e], a)} :: Requested(p.log, a) ==> Requested(p.log + [e], a)
    ensures forall a, i :: OutcomeAt(p.log + [e], i, a) && i < |p.log| ==> Requested(p.log + [e], a)
  {
    var log' := p.log + [e];
    forall t | 0 <= t < |p.tasks|
      ensures TaskInv(log', p.tasks[t])
    {
      assert TaskInv(p.log, p.tasks[t]);
    }
    forall a | Requested(p.log, a)
      ensures Requested(log', a)
    {
      var i :| RequestAt(p.log, i, a);
      assert RequestAt(log', i, a);
    }
    forall a, i | OutcomeAt(log', i, a) && i < |p.log|
      ensures Requested(log', a)
    {
      assert OutcomeAt(p.log, i, a);
    }
  }

  /** A CANCELED with no terminal entry before it. */
  lemma CanceledKeeps(p: Path, e: Event, t: nat)
    requires Inv(p) && e.kind == Canceled && TerminalOf(p.log, e.action) == None
    requires t < |p.tasks| && p.tasks[t].sub.action == e.action
    ensures Inv(Emit(p, e))
  {
    var log' := p.log + [e];
    EmitKeepsRest(p, e);
    assert TaskInv(p.log, p.tasks[t]);
    assert Requested(p.log, e.action);
    forall a
      ensures ActionInv(log', p.tasks, a)
    {
      assert ActionInv(p.log, p.tasks, a);
      if Single(log', a) {
        SinglePrefix(p.log, e, a);
        OldPairs(p, e, a);
        forall i | OutcomeAt(log', i, a)
          ensures if a == e.action then i == |p.log| else OutcomeAt(p.log, i, a)
        {
          if i < |p.log| && a == e.action {
            NoTerminalNoOutcome(p.log, a, i);
          }
        }
      }
    }
  }

  /** A COMPLETED or FAILED by an execution itself, which then is finished. */
  lemma OutcomeKeeps(p: Path, t: nat, e: Event, ending: Ending)
    requires Inv(p) && t < |p.tasks| && !p.tasks[t].phase.Done?
    requires e.action == p.tasks[t].sub.action && e.kind in {Completed, Failed}
             && TerminalOf(p.log, e.action) != Some(Canceled)
    ensures Inv(SetPhase(Emit(p, e), t, Done(ending)))
  {
    var p' := SetPhase(Emit(p, e), t, Done(ending));
    EmitKeepsRest(p, e);
    assert TaskInv(p.log, p.tasks[t]);
    assert Requested(p.log, e.action);
    SetPhaseKeepsRest(p, t, Done(ending));
    forall a
      ensures ActionInv(p'.log, p'.tasks, a)
    {
      assert ActionInv(p.log, p.tasks, a);
      if Single(p'.log, a) {
        SinglePrefix(p.log, e, a);
        OldPairs(p, e, a);
        assert Unfinished(p.tasks, t, e.action);
        forall i, j | OutcomeAt(p'.log, i, a) && OutcomeAt(p'.log, j, a) && i < j
          ensures p'.log[i].kind == Canceled && Between(p'.log, a, i, j)
        {
          assert OutcomeAt(p.log, i, a);
          if j < |p.log| { assert OutcomeAt(p.log, j, a); } else { LateOutcome(p, t, e, i); }
        }
        forall i | OutcomeAt(p'.log, i, a) && a != e.action
          ensures OutcomeAt(p.log, i, a)
        {
        }
        forall u | Unfinished(p'.tasks, u, a)
          ensures u != t && a != e.action && Unfinished(p.tasks, u, a)
        {
          if a == e.action { OneTask(p, t, u, a); }
        }
      }
    }
  }

  /** An outcome before the execution's own is a CANCELED, hidden by now. */
  lemma LateOutcome(p: Path, t: nat, e: Event, i: int)
    requires Inv(p) && t < |p.tasks| && !p.tasks[t].phase.Done? && e.action == p.tasks[t].sub.action
             && Single(p.log, e.action)
    requires TerminalOf(p.log, e.action) != Some(Canceled) && OutcomeAt(p.log, i, e.action)
    ensures p.log[i].kind == Canceled && Between(p.log + [e], e.action, i, |p.log|)
  {
    assert ActionInv(p.log, p.tasks, e.action) && Unfinished(p.tasks, t, e.action);
    HiddenBy(p.log, e.action, i);
    BetweenStays(p.log, e, e.action, i, |p.log|);
  }

  lemma SetPhaseKeepsRest(p: Path, t: nat, phase: Phase)
    requires Inv(p) && t < |p.tasks|
    ensures var tasks := SetPhase(p, t, phase).tasks;
            && (forall u, v :: 0 <= u < v < |tasks| ==> tasks[u].request != tasks[v].request)
            && (forall u :: 0 <= u < |tasks| ==>
              tasks[u].sub == p.tasks[u].sub && tasks[u].request == p.tasks[u].request)
            && (forall c {:trigger p.callers[c]} :: c in p.callers ==> CallerInv(tasks, p.callers[c]))
  {
    forall c | c in p.callers
      ensures CallerInv(SetPhase(p, t, phase).tasks, p.callers[c])
    {
      assert CallerInv(p.tasks, p.callers[c]);
    }
  }

  /** A task moving on without an outcome; it never goes back from finished. */
  lemma PhaseKeeps(p: Path, t: nat, phase: Phase)
    requires Inv(p) && t < |p.tasks| && (p.tasks[t].phase.Done? ==> phase.Done?)
    ensures Inv(SetPhase(p, t, phase))
  {
    var p' := SetPhase(p, t, phase);
    SetPhaseKeepsRest(p, t, phase);
    forall u | 0 <= u < |p'.tasks|
      ensures TaskInv(p'.log, p'.tasks[u])
    {
      assert TaskInv(p.log, p.tasks[u]);
    }
    forall a
      ensures ActionInv(p'.log, p'.tasks, a)
    {
      assert ActionInv(p.log, p.tasks, a);
      forall u | Unfinished(p'.tasks, u, a)
        ensures Unfinished(p.tasks, u, a)
      {
      }
    }
  }

  lemma SubmitKeeps(p: Path, sub: Submission)
    requires Inv(p)
    ensures Inv(Submit(p, sub))
  {
    var (e, p') := (ByPath(ExecutionRequested, sub), Submit(p, sub));
    EmitKeepsRest(p, e);
    assert RequestAt(p'.log, |p.log|, sub.action);
    forall t | 0 <= t < |p'.tasks|
      ensures TaskInv(p'.log, p'.tasks[t])
    {
      if t < |p.tasks| { assert TaskInv(p.log + [e], p.tasks[t]); }
    }
    forall t | 0 <= t < |p.tasks|
      ensures p.tasks[t].request < |p.log|
    {
      assert TaskInv(p.log, p.tasks[t]);
    }
    forall c | c in p'.callers
      ensures CallerInv(p'.tasks, p'.callers[c])
    {
      assert CallerInv(p.tasks, p.callers[c]);
    }
    forall a
      ensures ActionInv(p'.log, p'.tasks, a)
    {
      assert ActionInv(p.log, p.tasks, a);
      if Single(p'.log, a) {
        SinglePrefix(p.log, e, a);
        OldPairs(p, e, a);
        forall i | OutcomeAt(p'.log, i, a)
          ensures OutcomeAt(p.log, i, a) && a != sub.action
        {
          assert OutcomeAt(p.log, i, a);
          assert Requested(p.log, a);
        }
        forall t | Unfinished(p'.tasks, t, a)
          ensures Unfinished(p.tasks, t, a) || a == sub.action
        {
        }
      }
    }
  }

  lemma CallerMoves(p: Path, c: nat, st: Caller)
    requires Inv(p) && CallerInv(p.tasks, st)
    ensures Inv(At(p, c, st))
  {
    var p' := At(p, c, st);
    forall d | d in p'.callers
      ensures CallerInv(p'.tasks, p'.callers[d])
    {
      if d != c { assert CallerInv(p.tasks, p.callers[d]); }
    }
    forall a
      ensures ActionInv(p'.log, p'.tasks, a)
    {
      assert ActionInv(p.log, p.tasks, a);
    }
  }

  lemma GateKeeps(p: Path, c: nat, sub: Submission, preflightOk: bool, verdict: Verdict)
    requires Inv(p)
    ensures Inv(GateStep(p, c, sub, preflightOk, verdict))
  {
    HarmlessKeeps(p, ByPath(PreflightFailed, sub));
    CallerMoves(Emit(p, ByPath(PreflightFailed, sub)), c, Refused(PreflightFailed));
    HarmlessKeeps(p, ByPath(RetryBlocked, sub));
    CallerMoves(Emit(p, ByPath(RetryBlocked, sub)), c, Refused(RetryBlocked));
    match verdict
    case Deny =>
      HarmlessKeeps(p, ByPath(GovernanceRejected, sub));
      CallerMoves(Emit(p, ByPath(GovernanceRejected, sub)), c, Refused(GovernanceRejected));
    case NeedApproval(created) =>
      var asked := Emit(p, ByPath(ApprovalRequired, sub));
      HarmlessKeeps(p, ByPath(ApprovalRequired, sub));
      HarmlessKeeps(asked, ByPath(ApprovalRequested, sub));
      CallerMoves(if created then Emit(asked, ByPath(ApprovalRequested, sub)) else asked, c, Refused(ApprovalRequired));
    case Approve =>
      var approved := Emit(p, ByPath(GovernanceApproved, sub));
      HarmlessKeeps(p, ByPath(GovernanceApproved, sub));
      SubmitKeeps(approved, sub);
      CallerMoves(Submit(approved, sub), c, Waiting(|p.tasks|));
  }

  lemma FailureFileIsApart(p: Path, failures: seq<ActionPath.Failures.Row>)
    requires Inv(p)
    ensures Inv(p.(failures := failures))
  {
    forall a
      ensures ActionInv(p.log, p.tasks, a)
    {
    }
  }

  lemma DeliverKeeps(p: Path, t: nat, backend: Backend)
    requires Inv(p) && t < |p.tasks|
    ensures Inv(DeliverStep(p, t, backend))
  {
    var sub := p.tasks[t].sub;
    if p.tasks[t].phase.Running? {
      var p' := DeliverStep(p, t, backend);
      var q := p.(failures := p'.failures);
      FailureFileIsApart(p, p'.failures);
      if TerminalOf(p.log, sub.action) == Some(Canceled) {
        HarmlessKeeps(p, ByPath(LateDiscarded, sub));
        PhaseKeeps(Emit(p, ByPath(LateDiscarded, sub)), t, Done(EndLate));
      } else if backend.Good? {
        OutcomeKeeps(q, t, ByPath(Completed, sub), EndCompleted);
      } else {
        OutcomeKeeps(q, t, ByPath(Failed, sub), EndFailed);
        HarmlessKeeps(SetPhase(Emit(q, ByPath(Failed, sub)), t, Done(EndFailed)), ByPath(FailureDetected, sub));
      }
    }
  }

  lemma SupportKeeps(p: Path, c: nat, req: Request, t: nat, supported: bool)
    requires Inv(p) && CallerInv(p.tasks, CheckingSupport(req, t))
    ensures Inv(SupportStep(p, c, req, t, supported))
  {
    CallerMoves(p, c, Conflict);
    var intended := Emit(p, ByControl(CancelIntent, req));
    HarmlessKeeps(p, ByControl(CancelIntent, req));
    CallerMoves(intended, c, AwaitingCancel(req, t));
    HarmlessKeeps(intended, ByControl(CancelUnsupported, req));
    CallerMoves(Emit(intended, ByControl(CancelUnsupported, req)), c, Answered(StUnsupported));
  }

  lemma AcknowledgeKeeps(p: Path, c: nat, req: Request, t: nat, ok: bool)
    requires Inv(p) && t < |p.tasks| && p.tasks[t].sub.action == req.action
    ensures Inv(AcknowledgeStep(p, c, req, t, ok))
  {
    match TerminalOf(p.log, req.action)
    case Some(k) => CallerMoves(p, c, Answered(StTerminal(k)));
    case None =>
      if !ok {
        HarmlessKeeps(p, ByControl(CancelNotConfirmed, req));
        CallerMoves(Emit(p, ByControl(CancelNotConfirmed, req)), c, Answered(StNotConfirmed));
      } else {
        var asked := Emit(p, ByControl(CancelRequested, req));
        HarmlessKeeps(p, ByControl(CancelRequested, req));
        TerminalSnoc(p.log, ByControl(CancelRequested, req), req.action);
        CanceledKeeps(asked, ByControl(Canceled, req), t);
        var canceled := Emit(asked, ByControl(Canceled, req));
        FlagKeeps(canceled, t);
        CallerMoves(canceled.(tasks := p.tasks[t := p.tasks[t].(cancelRequested := true)]), c, Answered(StCanceled));
      }
  }

  lemma FlagKeeps(p: Path, t: nat)
    requires Inv(p) && t < |p.tasks|
    ensures Inv(p.(tasks := p.tasks[t := p.tasks[t].(cancelRequested := true)]))
  {
    var p' := p.(tasks := p.tasks[t := p.tasks[t].(cancelRequested := true)]);
    forall u | 0 <= u < |p'.tasks|
      ensures TaskInv(p'.log, p'.tasks[u])
    {
      assert TaskInv(p.log, p.tasks[u]);
    }
    forall c | c in p.callers
      ensures CallerInv(p'.tasks, p.callers[c])
    {
      assert CallerInv(p.tasks, p.callers[c]);
    }
    forall a
      ensures ActionInv(p'.log, p'.tasks, a)
    {
      assert ActionInv(p.log, p.tasks, a);
      forall u | Unfinished(p'.tasks, u, a)
        ensures Unfinished(p.tasks, u, a)
      {
      }
    }
  }

  lemma ControlKeeps(p: Path, c: nat, req: Request, observed: nat)
    requires Inv(p)
    ensures Inv(CancelStep(p, c, req)) && Inv(ReconcileStep(p, c, req, observed))
  {
    var st := CancelAnswer(p, req);
    assert CallerInv(p.tasks, st);
    CallerMoves(p, c, st);
    match ReconcileAnswer(p, req, observed)
    case Some(answer) => CallerMoves(p, c, answer);
    case None =>
      HarmlessKeeps(p, ByControl(ReconciliationRequested, req));
      CallerMoves(Emit(p, ByControl(ReconciliationRequested, req)), c, Answered(StNotConfirmed));
  }

  lemma RestartKeeps(p: Path)
    requires Inv(p)
    ensures Inv(RestartStep(p))
  {
    var p' := RestartStep(p);
    forall u | 0 <= u < |p'.tasks|
      ensures TaskInv(p'.log, p'.tasks[u])
    {
      assert TaskInv(p.log, p.tasks[u]);
    }
    forall a
      ensures ActionInv(p'.log, p'.tasks, a)
    {
      assert ActionInv(p.log, p.tasks, a);
    }
  }

  lemma TaskStepKeeps(p: Path, l: Label, t: nat)
    requires Inv(p) && t < |p.tasks|
    ensures Inv(TaskStep(p, l, t))
  {
    match l
    case Start(_) => if p.tasks[t].phase.Scheduled? { PhaseKeeps(p, t, StartStep(p, t).tasks[t].phase); }
    case Deliver(_, backend) => DeliverKeeps(p, t, backend);
    case Interrupt(_) => if !p.tasks[t].phase.Done? { PhaseKeeps(p, t, InterruptStep(p, t).tasks[t].phase); }
    case Forget(_) =>
      forall a
        ensures ActionInv(p.log, p.tasks, a)
      {
      }
    case _ =>
  }

  lemma CallerStepKeeps(p: Path, l: Label, c: nat)
    requires Inv(p) && c in p.callers
    ensures Inv(CallerStep(p, l, c))
  {
    var st := p.callers[c];
    assert CallerInv(p.tasks, st);
    match l
    case Gate(_, preflightOk, verdict) => if st.Preflighting? { GateKeeps(p, c, st.sub, preflightOk, verdict); }
    case Support(_, supported) => if st.CheckingSupport? { SupportKeeps(p, c, st.req, st.t, supported); }
    case Acknowledge(_, ok) => if st.AwaitingCancel? { AcknowledgeKeeps(p, c, st.req, st.t, ok); }
    case _ =>
  }

  lemma {:induction false} StepKeeps(p: Path, l: Label)
    requires Inv(p)
    ensures Inv(Step(p, l))
  {
    match l
    case Propose(c, sub) =>
      var e := Event(Proposed, sub.action, "", sub.hash, sub.session, sub.signature, sub.retry);
      HarmlessKeeps(p, e);
      CallerMoves(Emit(p, e), c, Preflighting(sub));
    case Cancel(c, req) => ControlKeeps(p, c, req, 0);
    case Reconcile(c, req, observed) => ControlKeeps(p, c, req, observed);
    case Foreign(kind, action) =>
      if kind in {ApprovalRejected, ApprovalExpired, Unrelated} {
        HarmlessKeeps(p, Event(kind, action, "", "", "", "", ""));
      }
    case Restart => RestartKeeps(p);
    case Gate(c, _, _) => if c in p.callers { CallerStepKeeps(p, l, c); }
    case Support(c, _) => if c in p.callers { CallerStepKeeps(p, l, c); }
    case Acknowledge(c, _) => if c in p.callers { CallerStepKeeps(p, l, c); }
    case _ => if l.t < |p.tasks| { TaskStepKeeps(p, l, l.t); }
  }

  lemma {:induction false} Reachable(ls: seq<Label>)
    ensures Inv(Run(ls))
    decreases |ls|
  {
    if ls != [] {
      Reachable(ls[..|ls| - 1]);
      StepKeeps(Run(ls[..|ls| - 1]), ls[|ls| - 1]);
    } else {
      assert forall a {:trigger ActionInv(EMPTY.log, EMPTY.tasks, a)} :: ActionInv(EMPTY.log, EMPTY.tasks, a);
    }
  }

  // ---- the race -----------------------------------------------------------

  /**
    However executions and cancels overlap, an action that is submitted once gets
    at most one outcome, exactly unless it is refused under its old id between
    its CANCELED and a later outcome.
   */
  lemma {:induction false} AtMostOneOutcome(ls: seq<Label>, a: string)
    requires Single(Run(ls).log, a)
    ensures (forall i, j :: OutcomeAt(Run(ls).log, i, a) && OutcomeAt(Run(ls).log, j, a) ==> i == j) <==>
            !Overruled(Run(ls).log, a)
  {
    Reachable(ls);
    OneUnlessOverruled(Run(ls), a);
  }

  lemma OneUnlessOverruled(p: Path, a: string)
    requires Inv(p) && Single(p.log, a)
    ensures (forall i, j :: OutcomeAt(p.log, i, a) && OutcomeAt(p.log, j, a) ==> i == j) <==> !Overruled(p.log, a)
  {
    assert ActionInv(p.log, p.tasks, a);
    forall i, j | OutcomeAt(p.log, i, a) && OutcomeAt(p.log, j, a) && i < j
      ensures Overruled(p.log, a)
    {
      assert CanceledAt(p.log, i, a);
    }
    if i, j :| CanceledAt(p.log, i, a) && OutcomeAt(p.log, j, a) && Between(p.log, a, i, j) {
      assert OutcomeAt(p.log, i, a);
    }
  }

  /**
    While its execution runs, an action submitted once gets a second outcome from
    the backend's answer exactly when it is CANCELED and the CANCELED is hidden.
   */
  lemma {:induction false} SecondOutcomeIff(p: Path, t: nat, backend: Backend)
    requires Reach(p) && t < |p.tasks| && p.tasks[t].phase.Running? && Single(p.log, p.tasks[t].sub.action)
    ensures var a := p.tasks[t].sub.action;
            TwoOutcomes(Step(p, Deliver(t, backend)).log, a) <==>
              Logged(p.log, a, Canceled) && TerminalOf(p.log, a) != Some(Canceled)
  {
    var ls :| Run(ls) == p;
    Reachable(ls);
    var (a, p') := (p.tasks[t].sub.action, Step(p, Deliver(t, backend)));
    assert ActionInv(p.log, p.tasks, a) && Unfinished(p.tasks, t, a);
    DeliveredOutcomes(p, t, backend);
    assert Logged(p.log, a, Canceled) <==> exists i :: OutcomeAt(p.log, i, a) by {
      if i :| 0 <= i < |p.log| && p.log[i].action == a && p.log[i].kind == Canceled { assert OutcomeAt(p.log, i, a); }
    }
    if TerminalOf(p.log, a) != Some(Canceled) { assert OutcomeAt(p'.log, |p.log|, a); }
  }

  lemma DeliveredOutcomes(p: Path, t: nat, backend: Backend)
    requires t < |p.tasks| && p.tasks[t].phase.Running?
    ensures var a := p.tasks[t].sub.action;
            forall i :: OutcomeAt(Step(p, Deliver(t, backend)).log, i, a) <==>
              OutcomeAt(p.log, i, a) || (i == |p.log| && TerminalOf(p.log, a) != Some(Canceled))
  {
  }

  /** Submitted once, and not refused again under the same id once it is CANCELED. */
  ghost predicate Undisturbed(log: seq<Event>, a: string) {
    Single(log, a) && forall i, d :: CanceledAt(log, i, a) && i < d ==> !DisturbedAt(log, d, a)
  }

  /** The latest terminal entry is somewhere, and no terminal entry of the action follows it. */
  lemma {:induction false} LatestTerminal(log: seq<Event>, a: string, d: int)
    requires 0 <= d < |log| && log[d].action == a && IsTerminal(log[d].kind)
    ensures exists n :: d <= n < |log| && log[n].action == a && TerminalOf(log, a) == Some(log[n].kind)
    decreases |log|
  {
    var (front, n) := (log[..|log| - 1], |log| - 1);
    if !(log[n].action == a && IsTerminal(log[n].kind)) {
      LatestTerminal(front, a, d);
      var k :| d <= k < n && front[k].action == a && TerminalOf(front, a) == Some(front[k].kind);
      assert log[k] == front[k];
    }
  }

  /** The action of this task, submitted once, is CANCELED, and the task has not ended yet. */
  ghost predicate CanceledInFlight(p: Path, t: nat) {
    && Reach(p) && t < |p.tasks| && !p.tasks[t].phase.Done?
    && Single(p.log, p.tasks[t].sub.action) && Logged(p.log, p.tasks[t].sub.action, Canceled)
  }

  /** The CANCELED of such an action shows exactly as long as the action is not refused again under its id. */
  lemma {:induction false} CanceledShowsIff(p: Path, t: nat)
    requires CanceledInFlight(p, t)
    ensures var a := p.tasks[t].sub.action; TerminalOf(p.log, a) == Some(Canceled) <==> Undisturbed(p.log, a)
  {
    var ls :| Run(ls) == p;
    Reachable(ls);
    var a := p.tasks[t].sub.action;
    assert ActionInv(p.log, p.tasks, a) && Unfinished(p.tasks, t, a);
    var i :| 0 <= i < |p.log| && p.log[i].action == a && p.log[i].kind == Canceled;
    assert OutcomeAt(p.log, i, a) && CanceledAt(p.log, i, a);
    if TerminalOf(p.log, a) != Some(Canceled) { HiddenBy(p.log, a, i); }
    forall k, d | CanceledAt(p.log, k, a) && k < d && DisturbedAt(p.log, d, a)
      ensures TerminalOf(p.log, a) != Some(Canceled)
    {
      assert OutcomeAt(p.log, k, a);
      LatestTerminal(p.log, a, d);
      var n :| d <= n < |p.log| && p.log[n].action == a && TerminalOf(p.log, a) == Some(p.log[n].kind);
      assert OutcomeAt(p.log, n, a) ==> n == k;
    }
  }

  /**
    After CANCELED, what the backend still delivers is discarded, with the
    failure file untouched and no outcome added, exactly as long as the action is
    not refused again under its id.
   */
  lemma {:induction false} LateResultIsDiscardedIff(p: Path, t: nat, backend: Backend)
    requires CanceledInFlight(p, t) && p.tasks[t].phase.Running?
    ensures var p' := Step(p, Deliver(t, backend));
            (p'.failures == p.failures && p'.log == p.log + [ByPath(LateDiscarded, p.tasks[t].sub)]
              && p'.tasks[t].phase == Done(EndLate))
            <==> Undisturbed(p.log, p.tasks[t].sub.action)
  {
    CanceledShowsIff(p, t);
  }

  /**
    The waiter of a cancelled execution is told "canceled" exactly when its body
    had been entered and the action was not refused again; otherwise it gets the
    bare CancelledError or the late outcome.
   */
  lemma {:induction false} WaiterSeesCanceledIff(p: Path, l: Label, t: nat)
    requires CanceledInFlight(p, t) && (l in {Start(t), Interrupt(t)} || (l.Deliver? && l.t == t))
    requires Step(p, l).tasks[t].phase.Done?
    ensures Step(p, l).tasks[t].phase.ending in {EndCanceled, EndLate} <==>
            p.tasks[t].phase.Running? && Undisturbed(p.log, p.tasks[t].sub.action)
  {
    CanceledShowsIff(p, t);
  }

  // ---- runs that show why the conditions are there ---------------------

  predicate Addresses(req: Request, sub: Submission) {
    && req.action == sub.action && req.hash == sub.hash && sub.session == "browser:" + req.session
    && !Blank(req.control) && !Blank(req.principal) && req.explicitIntent
  }

  ghost predicate Reach(p: Path) {
    exists ls :: Run(ls) == p
  }

  lemma ReachStep(p: Path, l: Label)
    requires Reach(p)
    ensures Reach(Step(p, l))
  {
    var ls :| Run(ls) == p;
    assert (ls + [l])[..|ls|] == ls;
    assert Run(ls + [l]) == Step(p, l);
  }

  function Submitted(sub: Submission, phase: Phase): Path {
    Path([Event(Proposed, sub.action, "", sub.hash, sub.session, sub.signature, sub.retry),
      ByPath(GovernanceApproved, sub), ByPath(ExecutionRequested, sub)],
         [Task(sub, 2, phase, false)], map[sub.action := 0], map[1 := Waiting(0)], [])
  }

  lemma SubmittedIsReached(sub: Submission)
    ensures Reach(Submitted(sub, Scheduled)) && Reach(Submitted(sub, Running))
  {
    assert Run([]) == EMPTY;
    ReachStep(EMPTY, Propose(1, sub));
    var p1 := Step(EMPTY, Propose(1, sub));
    ReachStep(p1, Gate(1, true, Approve));
    assert p1.log == [Event(Proposed, sub.action, "", sub.hash, sub.session, sub.signature, sub.retry)];
    assert Step(p1, Gate(1, true, Approve)) == Submitted(sub, Scheduled);
    ReachStep(Submitted(sub, Scheduled), Start(0));
    assert Step(Submitted(sub, Scheduled), Start(0)) == Submitted(sub, Running);
  }

  lemma SubmittedIsUnended(sub: Submission)
    ensures TerminalOf(Submitted(sub, Scheduled).log, sub.action) == None
  {
    var log := Submitted(sub, Scheduled).log;
    TerminalSnoc([], log[0], sub.action);
    TerminalSnoc([log[0]], log[1], sub.action);
    TerminalSnoc([log[0], log[1]], log[2], sub.action);
    assert [] + [log[0]] == [log[0]] && [log[0]] + [log[1]] == [log[0], log[1]] && [log[0], log[1]] + [log[2]] == log;
  }

  lemma {:induction false} NoControl(log: seq<Event>, a: string, control: string)
    requires forall i :: 0 <= i < |log| ==> log[i].control != control
    ensures ControlKind(log, a, control) == None
    decreases |log|
  {
    if log != [] { NoControl(log[..|log| - 1], a, control); }
  }

  lemma CancelBegins(sub: Submission, req: Request, phase: Phase)
    requires Addresses(req, sub)
    ensures Step(Submitted(sub, phase), Cancel(2, req)) == At(Submitted(sub, phase), 2, CheckingSupport(req, 0))
  {
    var p0 := Submitted(sub, phase);
    SubmittedIsUnended(sub);
    NoControl(p0.log, sub.action, req.control);
    assert FirstProposal(p0.log, sub.action) == Some(p0.log[0]);
  }

  /** A cancel of a fresh submission gets as far as the acknowledgement of the backend. */
  lemma CancelGoesThrough(sub: Submission, req: Request, phase: Phase) returns (p: Path)
    requires Addresses(req, sub) && Reach(Submitted(sub, phase))
    ensures Reach(p) && p.tasks == [Task(sub, 2, phase, true)] && p.failures == [] && p.callers.Keys == {1, 2}
    ensures p.log == Submitted(sub, phase).log + [ByControl(CancelIntent, req), ByControl(CancelRequested, req),
            ByControl(Canceled, req)]
  {
    var p0 := Submitted(sub, phase);
    SubmittedIsUnended(sub);
    CancelBegins(sub, req, phase);
    ReachStep(p0, Cancel(2, req));
    var p1 := At(p0, 2, CheckingSupport(req, 0));
    ReachStep(p1, Support(2, true));
    ReachStep(Step(p1, Support(2, true)), Acknowledge(2, true));
    p := Acknowledged(p0, sub, req, 0);
  }

  /** Support and acknowledgement of a cancel that meets no terminal entry. */
  ghost function Acknowledged(p: Path, sub: Submission, req: Request, t: nat): (p': Path)
    requires req.action == sub.action && sub.action in p.active && p.active[sub.action] == t && t < |p.tasks|
    requires TerminalOf(p.log, sub.action) == None
    ensures p' == Step(Step(At(p, 2, CheckingSupport(req, t)), Support(2, true)), Acknowledge(2, true))
    ensures p'.log == p.log + [ByControl(CancelIntent, req), ByControl(CancelRequested, req), ByControl(Canceled, req)]
    ensures p'.tasks == p.tasks[t := p.tasks[t].(cancelRequested := true)] && p'.failures == p.failures
    ensures p'.callers == p.callers[2 := Answered(StCanceled)]
  {
    TerminalSnoc(p.log, ByControl(CancelIntent, req), sub.action);
    Step(Step(At(p, 2, CheckingSupport(req, t)), Support(2, true)), Acknowledge(2, true))
  }

  /**
    There is a run in which a task, cancelled before its first step, ends
    without ever telling its waiter "canceled".
   */
  lemma CanceledBeforeStart(sub: Submission, req: Request) returns (p: Path)
    requires Addresses(req, sub)
    ensures Reach(p) && Logged(p.log, sub.action, Canceled)
    ensures |p.tasks| == 1 && p.tasks[0].phase == Done(EndInterrupted)
  {
    SubmittedIsReached(sub);
    var q := CancelGoesThrough(sub, req, Scheduled);
    ReachStep(q, Start(0));
    p := Step(q, Start(0));
    assert p.log[5] == ByControl(Canceled, req);
  }

  /**
    There is a run in which proposing a cancelled action once more, only to be
    refused, hides its CANCELED: the late result then counts.
   */
  lemma ResubmissionHidesCanceled(sub: Submission, req: Request) returns (p: Path)
    requires Addresses(req, sub)
    ensures Reach(p) && Logged(p.log, sub.action, Canceled) && Logged(p.log, sub.action, Completed)
  {
    SubmittedIsReached(sub);
    var q := CancelGoesThrough(sub, req, Running);
    var q2 := RefusedAgain(q, sub);
    ReachStep(q2, Deliver(0, Good));
    p := Step(q2, Deliver(0, Good));
    assert p.log[5] == ByControl(Canceled, req) && p.log[|p.log| - 1] == ByPath(Completed, sub);
  }

  /**
    There is a run in which a cancelled, running execution whose action was
    refused once more ends without telling its waiter "canceled".
   */
  lemma RefusalHidesCanceled(sub: Submission, req: Request) returns (p: Path)
    requires Addresses(req, sub)
    ensures CanceledInFlight(p, 0) && p.tasks[0].phase.Running?
    ensures Step(p, Interrupt(0)).tasks[0].phase == Done(EndInterrupted)
  {
    SubmittedIsReached(sub);
    var q := CancelGoesThrough(sub, req, Running);
    p := RefusedAgain(q, sub);
    assert p.log[5] == ByControl(Canceled, req);
    RefusedAgainIsSingle(q, p, sub);
  }

  lemma RefusedAgainIsSingle(q: Path, p: Path, sub: Submission)
    requires |q.log| == 6 && q.log <= p.log && |p.log| == 8 && p.log[7].kind == PreflightFailed
             && p.log[6].kind == Proposed
    requires forall i :: 0 <= i < 6 && i != 2 ==> q.log[i].kind != ExecutionRequested
    ensures Single(p.log, sub.action)
  {
    forall i | RequestAt(p.log, i, sub.action)
      ensures i == 2
    {
      assert i < 6 ==> p.log[i] == q.log[i];
    }
  }

  /** Proposing the action again, to be stopped by the preflight, makes the preflight failure its latest event. */
  lemma RefusedAgain(q: Path, sub: Submission) returns (r: Path)
    requires Reach(q) && 3 !in q.callers
    ensures Reach(r) && q.log <= r.log && r.tasks == q.tasks
    ensures |r.log| == |q.log| + 2 && r.log[|q.log|].kind == Proposed && r.log[|q.log| + 1].kind == PreflightFailed
    ensures TerminalOf(r.log, sub.action) == Some(PreflightFailed)
  {
    var q1 := Step(q, Propose(3, sub));
    ReachStep(q, Propose(3, sub));
    ReachStep(q1, Gate(3, false, Deny));
    r := Step(q1, Gate(3, false, Deny));
    assert r.log == q1.log + [ByPath(PreflightFailed, sub)];
    TerminalSnoc(q1.log, ByPath(PreflightFailed, sub), sub.action);
  }
}
