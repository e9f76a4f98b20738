/**
  Who may cancel: every control entry in the journal is bound to the action as it
  was first proposed, and every CANCELED follows the intent of the same request.
 */
module ActionControls {
  import opened Prelude
  import opened ActionPath

  predicate IsControl(k: Kind) {
    k in {CancelIntent, CancelUnsupported, CancelNotConfirmed, CancelRequested, Canceled, ReconciliationRequested}
  }

  /** The entry names a control request, and the hash and the session of the action's first proposal. */
  predicate Bound(log: seq<Event>, e: Event) {
    !Blank(e.control) &&
    match FirstProposal(log, e.action)
    case None => false
    case Some(first) => first.hash == e.hash && first.session == "browser:" + e.session
  }

  ghost predicate Intended(log: seq<Event>, e: Event) {
    exists i :: 0 <= i < |log| && log[i] == e.(kind := CancelIntent)
  }

  ghost predicate EntryInv(log: seq<Event>, i: nat)
    requires i < |log|
  {
    && (IsControl(log[i].kind) ==> Bound(log[..i], log[i]))
    && (log[i].kind in {CancelUnsupported, CancelNotConfirmed, CancelRequested, Canceled} ==>
      Intended(log[..i], log[i]))
  }

  ghost predicate CallerInv(log: seq<Event>, st: Caller) {
    match st
    case CheckingSupport(req, _) =>
      Bound(log, ByControl(CancelIntent, req)) && req.explicitIntent && !Blank(req.principal)
    case AwaitingCancel(req, _) =>
      Bound(log, ByControl(CancelIntent, req)) && Intended(log, ByControl(CancelIntent, req))
    case _ => true
  }

  ghost predicate Inv(p: Path) {
    && (forall i {:trigger EntryInv(p.log, i)} :: 0 <= i < |p.log| ==> EntryInv(p.log, i))
    && (forall c {:trigger CallerInv(p.log, p.callers[c])} :: c in p.callers ==> CallerInv(p.log, p.callers[c]))
  }

  lemma {:induction false} FirstProposalStays(log: seq<Event>, e: Event, a: string)
    requires FirstProposal(log, a).Some?
    ensures FirstProposal(log + [e], a) == FirstProposal(log, a)
    decreases |log|
  {
    if !(log[0].action == a && log[0].kind == Proposed) {
      assert (log + [e])[1..] == log[1..] + [e];
      FirstProposalStays(log[1..], e, a);
    }
  }

  /** Appending an entry that is bound, and intended where it must be. */
  lemma EmitKeeps(p: Path, e: Event)
    requires Inv(p) && (IsControl(e.kind) ==> Bound(p.log, e))
    requires e.kind in {CancelUnsupported, CancelNotConfirmed, CancelRequested, Canceled} ==> Intended(p.log, e)
    ensures Inv(Emit(p, e))
    ensures forall x {:trigger Bound(p.log, x)} :: Bound(p.log, x) ==> Bound(p.log + [e], x)
    ensures forall x {:trigger Intended(p.log, x)} :: Intended(p.log, x) ==> Intended(p.log + [e], x)
  {
    var log' := p.log + [e];
    forall x | Bound(p.log, x)
      ensures Bound(log', x)
    {
      FirstProposalStays(p.log, e, x.action);
    }
    forall x | Intended(p.log, x)
      ensures Intended(log', x)
    {
      var i :| 0 <= i < |p.log| && p.log[i] == x.(kind := CancelIntent);
      assert log'[i] == p.log[i];
    }
    forall i | 0 <= i < |log'|
      ensures EntryInv(log', i)
    {
      if i < |p.log| {
        assert EntryInv(p.log, i) && log'[..i] == p.log[..i];
      } else {
        assert log'[..i] == p.log;
      }
    }
    forall c | c in p.callers
      ensures CallerInv(log', p.callers[c])
    {
      assert CallerInv(p.log, p.callers[c]);
    }
  }

  lemma MoveKeeps(p: Path, c: nat, st: Caller)
    requires Inv(p) && CallerInv(p.log, st)
    ensures Inv(At(p, c, st))
  {
    forall d | d in At(p, c, st).callers
      ensures CallerInv(p.log, At(p, c, st).callers[d])
    {
      if d != c { assert CallerInv(p.log, p.callers[d]); }
    }
  }

  lemma PathEmitKeeps(p: Path, k: Kind, sub: Submission, c: nat, st: Caller)
    requires Inv(p) && !IsControl(k) && !st.CheckingSupport? && !st.AwaitingCancel?
    ensures Inv(Emit(p, ByPath(k, sub))) && Inv(At(Emit(p, ByPath(k, sub)), c, st))
  {
    EmitKeeps(p, ByPath(k, sub));
    MoveKeeps(Emit(p, ByPath(k, sub)), c, st);
  }

  lemma GateKeeps(p: Path, c: nat, sub: Submission, preflightOk: bool, verdict: Verdict)
    requires Inv(p)
    ensures Inv(GateStep(p, c, sub, preflightOk, verdict))
  {
    PathEmitKeeps(p, PreflightFailed, sub, c, Refused(PreflightFailed));
    PathEmitKeeps(p, RetryBlocked, sub, c, Refused(RetryBlocked));
    PathEmitKeeps(p, GovernanceRejected, sub, c, Refused(GovernanceRejected));
    PathEmitKeeps(p, ApprovalRequired, sub, c, Refused(ApprovalRequired));
    PathEmitKeeps(Emit(p, ByPath(ApprovalRequired, sub)), ApprovalRequested, sub, c, Refused(ApprovalRequired));
    PathEmitKeeps(p, GovernanceApproved, sub, c, Refused(GovernanceApproved));
    PathEmitKeeps(Emit(p, ByPath(GovernanceApproved, sub)), ExecutionRequested, sub, c, Waiting(|p.tasks|));
  }

  lemma DeliverKeeps(p: Path, t: nat, backend: Backend)
    requires Inv(p) && t < |p.tasks|
    ensures Inv(DeliverStep(p, t, backend))
  {
    var sub := p.tasks[t].sub;
    EmitKeeps(p, ByPath(LateDiscarded, sub));
    EmitKeeps(p, ByPath(Completed, sub));
    EmitKeeps(p, ByPath(Failed, sub));
    EmitKeeps(Emit(p, ByPath(Failed, sub)), ByPath(FailureDetected, sub));
  }

  lemma CancelKeeps(p: Path, c: nat, req: Request)
    requires Inv(p)
    ensures Inv(CancelStep(p, c, req))
  {
    assert BindingError(p.log, req) == None ==> Bound(p.log, ByControl(CancelIntent, req));
    MoveKeeps(p, c, CancelAnswer(p, req));
  }

  lemma ReconcileKeeps(p: Path, c: nat, req: Request, observed: nat)
    requires Inv(p)
    ensures Inv(ReconcileStep(p, c, req, observed))
  {
    match ReconcileAnswer(p, req, observed)
    case Some(answer) => MoveKeeps(p, c, answer);
    case None =>
      assert Bound(p.log, ByControl(ReconciliationRequested, req));
      EmitKeeps(p, ByControl(ReconciliationRequested, req));
      MoveKeeps(Emit(p, ByControl(ReconciliationRequested, req)), c, Answered(StNotConfirmed));
  }

  lemma SupportKeeps(p: Path, c: nat, req: Request, t: nat, supported: bool)
    requires Inv(p) && CallerInv(p.log, CheckingSupport(req, t))
    ensures Inv(SupportStep(p, c, req, t, supported))
  {
    var intent := ByControl(CancelIntent, req);
    var q := Emit(p, intent);
    MoveKeeps(p, c, Conflict);
    EmitKeeps(p, intent);
    assert q.log[|p.log|] == intent;
    assert Intended(q.log, intent) && Intended(q.log, ByControl(CancelUnsupported, req));
    MoveKeeps(q, c, AwaitingCancel(req, t));
    assert Bound(q.log, intent);
    assert Bound(q.log, ByControl(CancelUnsupported, req));
    EmitKeeps(q, ByControl(CancelUnsupported, req));
    MoveKeeps(Emit(q, ByControl(CancelUnsupported, req)), c, Answered(StUnsupported));
  }

  /** A further entry of a cancel whose intent is recorded. */
  lemma FollowUp(p: Path, k: Kind, req: Request)
    requires Inv(p) && k in {CancelNotConfirmed, CancelRequested, Canceled} && CallerInv(p.log, AwaitingCancel(req, 0))
    ensures Inv(Emit(p, ByControl(k, req))) && CallerInv(Emit(p, ByControl(k, req)).log, AwaitingCancel(req, 0))
  {
    var intent := ByControl(CancelIntent, req);
    assert Bound(p.log, intent) && Intended(p.log, intent);
    var i :| 0 <= i < |p.log| && p.log[i] == intent;
    assert p.log[i] == ByControl(k, req).(kind := CancelIntent);
    EmitKeeps(p, ByControl(k, req));
  }

  lemma AcknowledgeKeeps(p: Path, c: nat, req: Request, t: nat, ok: bool)
    requires Inv(p) && t < |p.tasks| && CallerInv(p.log, AwaitingCancel(req, t))
    ensures Inv(AcknowledgeStep(p, c, req, t, ok))
  {
    match TerminalOf(p.log, req.action)
    case Some(k) => MoveKeeps(p, c, Answered(StTerminal(k)));
    case None =>
      if !ok {
        FollowUp(p, CancelNotConfirmed, req);
        MoveKeeps(Emit(p, ByControl(CancelNotConfirmed, req)), c, Answered(StNotConfirmed));
      } else {
        var q := Emit(p, ByControl(CancelRequested, req));
        FollowUp(p, CancelRequested, req);
        FollowUp(q, Canceled, req);
        MoveKeeps(Emit(q, ByControl(Canceled, req)), c, Answered(StCanceled));
      }
  }

  lemma CallerStepKeeps(p: Path, l: Label, c: nat)
    requires Inv(p) && c in p.callers
    ensures Inv(CallerStep(p, l, c))
  {
    var st := p.callers[c];
    assert CallerInv(p.log, st);
    match l
    case Gate(_, preflightOk, verdict) => if st.Preflighting? { GateKeeps(p, c, st.sub, preflightOk, verdict); }
    case Support(_, supported) => if st.CheckingSupport? { SupportKeeps(p, c, st.req, st.t, supported); }
    case Acknowledge(_, ok) => if st.AwaitingCancel? && st.t < |p.tasks| { AcknowledgeKeeps(p, c, st.req, st.t, ok); }
    case _ =>
  }

  lemma StepKeeps(p: Path, l: Label)
    requires Inv(p)
    ensures Inv(Step(p, l))
  {
    match l
    case Propose(c, sub) =>
      var e := Event(Proposed, sub.action, "", sub.hash, sub.session, sub.signature, sub.retry);
      EmitKeeps(p, e);
      MoveKeeps(Emit(p, e), c, Preflighting(sub));
    case Cancel(c, req) => CancelKeeps(p, c, req);
    case Reconcile(c, req, observed) => ReconcileKeeps(p, c, req, observed);
    case Foreign(kind, action) =>
      if kind in {ApprovalRejected, ApprovalExpired, Unrelated} {
        EmitKeeps(p, Event(kind, action, "", "", "", "", ""));
      }
    case Gate(c, _, _) => if c in p.callers { CallerStepKeeps(p, l, c); }
    case Support(c, _) => if c in p.callers { CallerStepKeeps(p, l, c); }
    case Acknowledge(c, _) => if c in p.callers { CallerStepKeeps(p, l, c); }
    case Deliver(t, backend) => if t < |p.tasks| { DeliverKeeps(p, t, backend); }
    case _ =>
  }

  lemma {:induction false} Reachable(ls: seq<Label>)
    ensures Inv(Run(ls))
    decreases |ls|
  {
    if ls != [] {
      Reachable(ls[..|ls| - 1]);
      StepKeeps(Run(ls[..|ls| - 1]), ls[|ls| - 1]);
    }
  }

  /**
    Over every run, whoever cancels or reconciles names the hash and the session
    of the action's first proposal, which was journaled before; and a cancel is
    answered, refused or carried out only behind its own recorded intent.
   */
  lemma {:induction false} ControlsAreBound(ls: seq<Label>, i: nat)
    requires i < |Run(ls).log| && IsControl(Run(ls).log[i].kind)
    ensures var log := Run(ls).log; Bound(log[..i], log[i])
    ensures var log := Run(ls).log;
            log[i].kind !in {CancelIntent, ReconciliationRequested} ==> Intended(log[..i], log[i])
  {
    Reachable(ls);
    assert EntryInv(Run(ls).log, i);
  }
}
