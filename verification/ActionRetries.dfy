/**
  The retry gate over whole runs: the failure file always says of a signature
  whether its last counted execution failed, and the gate acts on exactly that.
 */
module ActionRetries {
  import opened Prelude
  import opened ActionPath
  import Failures

  /** The latest COMPLETED or FAILED of a signature is a FAILED. */
  predicate LastRunFailed(log: seq<Event>, signature: string) {
    log != [] &&
    var e := log[|log| - 1];
    if e.kind in {Completed, Failed} && e.signature == signature
      then e.kind == Failed else LastRunFailed(log[..|log| - 1], signature)
  }

  /** What the gate owes the journal at one entry. */
  predicate GateHolds(log: seq<Event>, i: nat)
    requires i < |log|
  {
    && (log[i].kind == ExecutionRequested && LastRunFailed(log[..i], log[i].signature) ==> !Blank(log[i].retry))
    && (log[i].kind == RetryBlocked ==> LastRunFailed(log[..i], log[i].signature) && Blank(log[i].retry))
  }

  ghost predicate Inv(p: Path) {
    && Failures.Consistent(p.failures)
    && (forall s :: Failures.HasOpen(p.failures, s) <==> LastRunFailed(p.log, s))
    && (forall i {:trigger GateHolds(p.log, i)} :: 0 <= i < |p.log| ==> GateHolds(p.log, i))
  }

  lemma LastRunSnoc(log: seq<Event>, e: Event, s: string)
    ensures LastRunFailed(log + [e], s) <==>
            if e.kind in {Completed, Failed} && e.signature == s then e.kind == Failed else LastRunFailed(log, s)
  {
    assert (log + [e])[..|log|] == log;
  }

  lemma GateSnoc(log: seq<Event>, e: Event)
    requires forall i {:trigger GateHolds(log, i)} :: 0 <= i < |log| ==> GateHolds(log, i)
    requires e.kind == ExecutionRequested && LastRunFailed(log, e.signature) ==> !Blank(e.retry)
    requires e.kind == RetryBlocked ==> LastRunFailed(log, e.signature) && Blank(e.retry)
    ensures forall i {:trigger GateHolds(log + [e], i)} :: 0 <= i < |log + [e]| ==> GateHolds(log + [e], i)
  {
    var log' := log + [e];
    forall i | 0 <= i < |log'|
      ensures GateHolds(log', i)
    {
      if i < |log| {
        assert GateHolds(log, i) && log'[..i] == log[..i];
      } else {
        assert log'[..i] == log;
      }
    }
  }

  /** Journaling anything that is no COMPLETED or FAILED and that the gate allows. */
  lemma EmitKeeps(p: Path, e: Event)
    requires Inv(p) && e.kind !in {Completed, Failed}
    requires e.kind == ExecutionRequested && LastRunFailed(p.log, e.signature) ==> !Blank(e.retry)
    requires e.kind == RetryBlocked ==> LastRunFailed(p.log, e.signature) && Blank(e.retry)
    ensures Inv(Emit(p, e))
    ensures forall s :: LastRunFailed(Emit(p, e).log, s) <==> LastRunFailed(p.log, s)
  {
    GateSnoc(p.log, e);
    forall s
      ensures LastRunFailed(p.log + [e], s) <==> LastRunFailed(p.log, s)
    {
      LastRunSnoc(p.log, e, s);
    }
  }

  lemma GateKeeps(p: Path, c: nat, sub: Submission, preflightOk: bool, verdict: Verdict)
    requires Inv(p)
    ensures Inv(GateStep(p, c, sub, preflightOk, verdict))
  {
    Failures.NoneOpen(p.failures, sub.signature);
    EmitKeeps(p, ByPath(PreflightFailed, sub));
    if preflightOk {
      if LastRunFailed(p.log, sub.signature) && Blank(sub.retry) {
        EmitKeeps(p, ByPath(RetryBlocked, sub));
      } else {
        match verdict
        case Deny => EmitKeeps(p, ByPath(GovernanceRejected, sub));
        case NeedApproval(_) =>
          EmitKeeps(p, ByPath(ApprovalRequired, sub));
          EmitKeeps(Emit(p, ByPath(ApprovalRequired, sub)), ByPath(ApprovalRequested, sub));
        case Approve =>
          EmitKeeps(p, ByPath(GovernanceApproved, sub));
          EmitKeeps(Emit(p, ByPath(GovernanceApproved, sub)), ByPath(ExecutionRequested, sub));
      }
    }
  }

  lemma OutcomeKeeps(p: Path, e: Event, failures: seq<Failures.Row>)
    requires Inv(p) && e.kind in {Completed, Failed} && Failures.Consistent(failures)
    requires forall s :: Failures.HasOpen(failures, s) <==>
             if s == e.signature then e.kind == Failed else Failures.HasOpen(p.failures, s)
    ensures Inv(Emit(p.(failures := failures), e))
  {
    GateSnoc(p.log, e);
    forall s
      ensures Failures.HasOpen(failures, s) <==> LastRunFailed(p.log + [e], s)
    {
      LastRunSnoc(p.log, e, s);
    }
  }

  /** A success that counts closes its signature. */
  lemma SuccessKeeps(p: Path, sub: Submission, resolution: string)
    requires Inv(p)
    ensures Inv(Emit(p.(failures := Failures.Resolved(p.failures, sub.signature, resolution)), ByPath(Completed, sub)))
  {
    Failures.StaysConsistent(p.failures, sub.signature, "", sub.action, resolution);
    forall s
      ensures Failures.HasOpen(Failures.Resolved(p.failures, sub.signature, resolution), s) <==>
              s != sub.signature && Failures.HasOpen(p.failures, s)
    {
      Failures.ResolveCloses(p.failures, sub.signature, resolution, s);
    }
    OutcomeKeeps(p, ByPath(Completed, sub), Failures.Resolved(p.failures, sub.signature, resolution));
  }

  /** A failure that counts opens its signature. */
  lemma FailureKeeps(p: Path, sub: Submission, detail: string)
    requires Inv(p)
    ensures Inv(Emit(p.(failures := Failures.Recorded(p.failures, sub.signature, detail, sub.action)),
            ByPath(Failed, sub)))
  {
    Failures.StaysConsistent(p.failures, sub.signature, detail, sub.action, "");
    forall s
      ensures Failures.HasOpen(Failures.Recorded(p.failures, sub.signature, detail, sub.action), s) <==>
              s == sub.signature || Failures.HasOpen(p.failures, s)
    {
      Failures.RecordOpens(p.failures, sub.signature, detail, sub.action, s);
    }
    OutcomeKeeps(p, ByPath(Failed, sub), Failures.Recorded(p.failures, sub.signature, detail, sub.action));
  }

  lemma DeliverKeeps(p: Path, t: nat, backend: Backend)
    requires Inv(p) && t < |p.tasks|
    ensures Inv(DeliverStep(p, t, backend))
  {
    var sub := p.tasks[t].sub;
    EmitKeeps(p, ByPath(LateDiscarded, sub));
    match backend
    case Good => SuccessKeeps(p, sub, if sub.retry != "" then sub.retry else "execution succeeded");
    case Bad(detail) =>
      FailureKeeps(p, sub, detail);
      EmitKeeps(Emit(p.(failures := Failures.Recorded(p.failures, sub.signature, detail, sub.action)),
        ByPath(Failed, sub)), ByPath(FailureDetected, sub));
  }

  lemma CallerStepKeeps(p: Path, l: Label, c: nat)
    requires Inv(p) && c in p.callers
    ensures Inv(CallerStep(p, l, c))
  {
    var st := p.callers[c];
    match l
    case Gate(_, preflightOk, verdict) => if st.Preflighting? { GateKeeps(p, c, st.sub, preflightOk, verdict); }
    case Support(_, _) =>
      if st.CheckingSupport? {
        EmitTwiceKeeps(p, ByControl(CancelIntent, st.req), ByControl(CancelUnsupported, st.req));
      }
    case Acknowledge(_, _) =>
      if st.AwaitingCancel? {
        EmitKeeps(p, ByControl(CancelNotConfirmed, st.req));
        EmitTwiceKeeps(p, ByControl(CancelRequested, st.req), ByControl(Canceled, st.req));
      }
    case _ =>
  }

  lemma EmitTwiceKeeps(p: Path, first: Event, second: Event)
    requires Inv(p) && first.kind !in {Completed, Failed, ExecutionRequested, RetryBlocked}
             && second.kind !in {Completed, Failed, ExecutionRequested, RetryBlocked}
    ensures Inv(Emit(p, first)) && Inv(Emit(Emit(p, first), second))
  {
    EmitKeeps(p, first);
    EmitKeeps(Emit(p, first), second);
  }

  lemma StepKeeps(p: Path, l: Label)
    requires Inv(p)
    ensures Inv(Step(p, l))
  {
    match l
    case Propose(c, sub) =>
      EmitKeeps(p, Event(Proposed, sub.action, "", sub.hash, sub.session, sub.signature, sub.retry));
    case Cancel(_, _) =>
    case Reconcile(_, req, _) => EmitKeeps(p, ByControl(ReconciliationRequested, req));
    case Foreign(kind, action) =>
      if kind in {ApprovalRejected, ApprovalExpired, Unrelated} {
        EmitKeeps(p, Event(kind, action, "", "", "", "", ""));
      }
    case Restart =>
    case Gate(c, _, _) => if c in p.callers { CallerStepKeeps(p, l, c); }
    case Support(c, _) => if c in p.callers { CallerStepKeeps(p, l, c); }
    case Acknowledge(c, _) => if c in p.callers { CallerStepKeeps(p, l, c); }
    case Deliver(t, backend) => if t < |p.tasks| { DeliverKeeps(p, t, backend); }
    case _ =>
  }

  /**
    Over every run, the failure file has an open failure of a signature
    exactly when that signature's last counted execution failed.
   */
  lemma {:induction false} FileTellsLastRun(ls: seq<Label>, signature: string)
    ensures Failures.OpenFailures(Run(ls).failures, signature) != [] <==> LastRunFailed(Run(ls).log, signature)
  {
    Reachable(ls);
    Failures.NoneOpen(Run(ls).failures, signature);
  }

  lemma {:induction false} Reachable(ls: seq<Label>)
    ensures Inv(Run(ls))
    decreases |ls|
  {
    if ls != [] {
      Reachable(ls[..|ls| - 1]);
      StepKeeps(Run(ls[..|ls| - 1]), ls[|ls| - 1]);
    }
  }

  /**
    Every execution requested while the last run of its signature failed carries
    a retry reason; an execution is blocked only in that case and without one;
    and the gate decides this per signature.
   */
  lemma {:induction false} RetryGate(ls: seq<Label>, i: nat)
    requires i < |Run(ls).log|
    ensures var log := Run(ls).log;
            && (log[i].kind == ExecutionRequested && LastRunFailed(log[..i], log[i].signature) ==> !Blank(log[i].retry))
            && (log[i].kind == RetryBlocked ==> LastRunFailed(log[..i], log[i].signature) && Blank(log[i].retry))
  {
    Reachable(ls);
    assert GateHolds(Run(ls).log, i);
  }
}
