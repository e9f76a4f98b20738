/**
  What the path tells its callers: whoever asks for an execution, a cancel or a
  reconciliation is told what the journal says, kind by kind, and let through
  exactly under the conditions spelled out here.
 */
module ActionAnswers {
  import opened Prelude
  import opened ActionPath
  import opened ActionControls
  import Races = ActionRaces
  import Retries = ActionRetries

  // ---- reading the journal -------------------------------------------------------

  predicate OfControl(e: Event, req: Request) {
    e.action == req.action && e.control == req.control
  }

  /** The latest entry that carries the request's control id is of this kind. */
  ghost predicate LatestOf(log: seq<Event>, req: Request, k: Kind) {
    exists i :: LatestAt(log, i, req, k)
  }

  ghost predicate LatestAt(log: seq<Event>, i: int, req: Request, k: Kind) {
    && 0 <= i < |log| && OfControl(log[i], req) && log[i].kind == k
    && forall j :: i < j < |log| ==> !OfControl(log[j], req)
  }

  ghost predicate Unused(log: seq<Event>, req: Request) {
    forall i :: 0 <= i < |log| ==> !OfControl(log[i], req)
  }

  /** The kinds that end an action: all but those of its way through the gate and of its controls. */
  predicate Ends(k: Kind) {
    match k
    case Proposed | GovernanceApproved | ApprovalRequired | ApprovalRequested | ExecutionRequested => false
    case CancelIntent | CancelUnsupported | CancelNotConfirmed | CancelRequested | ReconciliationRequested => false
    case FailureDetected | LateDiscarded | Unrelated => false
    case _ => true
  }

  /** The action's latest terminal entry is of this kind. */
  ghost predicate EndsIn(log: seq<Event>, a: string, k: Kind) {
    exists i :: EndsAt(log, i, a, k)
  }

  ghost predicate EndsAt(log: seq<Event>, i: int, a: string, k: Kind) {
    && 0 <= i < |log| && log[i].action == a && log[i].kind == k && Ends(k)
    && forall j :: i < j < |log| ==> !(log[j].action == a && Ends(log[j].kind))
  }

  ghost predicate Endless(log: seq<Event>, a: string) {
    forall i :: 0 <= i < |log| ==> !(log[i].action == a && Ends(log[i].kind))
  }

  lemma {:induction false} TerminalMeans(log: seq<Event>, a: string)
    ensures match TerminalOf(log, a) case None => Endless(log, a) case Some(k) => EndsIn(log, a, k)
    decreases |log|
  {
    if log != [] {
      var (front, n) := (log[..|log| - 1], |log| - 1);
      if log[n].action == a && IsTerminal(log[n].kind) {
        assert EndsAt(log, n, a, log[n].kind);
      } else {
        TerminalMeans(front, a);
        if TerminalOf(front, a).Some? {
          var i :| EndsAt(front, i, a, TerminalOf(front, a).value);
          assert EndsAt(log, i, a, TerminalOf(front, a).value);
        }
      }
    }
  }

  lemma TerminalIff(log: seq<Event>, a: string, k: Kind)
    ensures TerminalOf(log, a) == Some(k) <==> EndsIn(log, a, k)
    ensures TerminalOf(log, a) == None <==> Endless(log, a)
  {
    TerminalMeans(log, a);
    if i :| EndsAt(log, i, a, k) {
      if TerminalOf(log, a).Some? {
        var j :| EndsAt(log, j, a, TerminalOf(log, a).value);
        assert i == j;
      }
    }
  }

  lemma {:induction false} ControlMeans(log: seq<Event>, req: Request)
    ensures match ControlKind(log, req.action, req.control)
            case None => Unused(log, req)
            case Some(k) => LatestOf(log, req, k)
    decreases |log|
  {
    if log != [] {
      var (front, n) := (log[..|log| - 1], |log| - 1);
      if OfControl(log[n], req) {
        assert LatestAt(log, n, req, log[n].kind);
      } else {
        ControlMeans(front, req);
        if k :| ControlKind(front, req.action, req.control) == Some(k) {
          var i :| LatestAt(front, i, req, k);
          assert LatestAt(log, i, req, k);
        }
      }
    }
  }

  // ---- what the journal never holds --------------------------------------------

  /** Only control entries carry a control id, and what is asked to stop is canceled with it. */
  ghost predicate Fine(log: seq<Event>, i: nat)
    requires i < |log|
  {
    && (log[i].control != "" ==> IsControl(log[i].kind))
    && (log[i].kind == CancelRequested ==> Logged(log, log[i].action, Canceled))
  }

  ghost predicate AllFine(log: seq<Event>) {
    forall i {:trigger Fine(log, i)} :: 0 <= i < |log| ==> Fine(log, i)
  }

  lemma FineStays(log: seq<Event>, log': seq<Event>)
    requires AllFine(log) && log <= log' && forall i :: |log| <= i < |log'| ==> Fine(log', i)
    ensures AllFine(log')
  {
    forall i | 0 <= i < |log'|
      ensures Fine(log', i)
    {
      if i < |log| {
        assert Fine(log, i) && log'[i] == log[i];
        if log[i].kind == CancelRequested {
          var k :| 0 <= k < |log| && log[k].action == log[i].action && log[k].kind == Canceled;
          assert log'[k] == log[k];
        }
      }
    }
  }

  predicate Harmless(e: Event) {
    (e.control != "" ==> IsControl(e.kind)) && e.kind != CancelRequested
  }

  /** Entries of these kinds may always be appended. */
  lemma HarmlessKeeps(p: Path, p': Path)
    requires AllFine(p.log) && p.log <= p'.log && forall i :: |p.log| <= i < |p'.log| ==> Harmless(p'.log[i])
    ensures AllFine(p'.log)
  {
    FineStays(p.log, p'.log);
  }

  lemma AcknowledgeFine(p: Path, c: nat, req: Request, t: nat, ok: bool)
    requires AllFine(p.log) && t < |p.tasks|
    ensures AllFine(AcknowledgeStep(p, c, req, t, ok).log)
  {
    var p' := AcknowledgeStep(p, c, req, t, ok);
    if TerminalOf(p.log, req.action) == None && ok {
      assert p'.log[|p.log| + 1] == ByControl(Canceled, req);
    }
    FineStays(p.log, p'.log);
  }

  lemma StepFine(p: Path, l: Label)
    requires AllFine(p.log)
    ensures AllFine(Step(p, l).log)
  {
    match l
    case Acknowledge(c, ok) =>
      if c in p.callers && p.callers[c].AwaitingCancel? && p.callers[c].t < |p.tasks| {
        AcknowledgeFine(p, c, p.callers[c].req, p.callers[c].t, ok);
      }
    case Gate(c, _, _) => GateFine(p, l);
    case Deliver(t, backend) => if t < |p.tasks| { HarmlessKeeps(p, DeliverStep(p, t, backend)); }
    case _ => OtherFine(p, l);
  }

  lemma OtherFine(p: Path, l: Label)
    requires AllFine(p.log) && !l.Acknowledge? && !l.Gate? && !l.Deliver?
    ensures AllFine(Step(p, l).log)
  {
    HarmlessKeeps(p, Step(p, l));
  }

  lemma GateFine(p: Path, l: Label)
    requires AllFine(p.log) && l.Gate?
    ensures AllFine(Step(p, l).log)
  {
    HarmlessKeeps(p, Step(p, l));
  }

  lemma {:induction false} AlwaysFine(ls: seq<Label>)
    ensures AllFine(Run(ls).log)
    decreases |ls|
  {
    if ls != [] {
      AlwaysFine(ls[..|ls| - 1]);
      StepFine(Run(ls[..|ls| - 1]), ls[|ls| - 1]);
    }
  }

  // ---- what a control request is told --------------------------------------------

  /** The answer agrees with the journal as it then stands. */
  ghost predicate Truthful(log: seq<Event>, req: Request, status: ControlStatus) {
    match status
    case StCanceled => exists i :: 0 <= i < |log| && log[i] == ByControl(Canceled, req)
    case StNotConfirmed => LatestOf(log, req, CancelNotConfirmed) || LatestOf(log, req, ReconciliationRequested)
    case StUnsupported => LatestOf(log, req, CancelUnsupported)
    case StRequested => LatestOf(log, req, CancelIntent)
    case StCanceling => false
    case StTerminal(k) => EndsIn(log, req.action, k)
  }

  /** A control request that has been seen before. */
  lemma ReplayIsTruthful(p: Path, req: Request)
    requires AllFine(p.log) && !Blank(req.control) && ControlKind(p.log, req.action, req.control).Some?
    ensures TerminalOf(p.log, req.action) == None ==>
              Truthful(p.log, req, ReplayStatus(ControlKind(p.log, req.action, req.control).value))
  {
    ControlMeans(p.log, req);
    TerminalMeans(p.log, req.action);
    var k := ControlKind(p.log, req.action, req.control).value;
    var i :| LatestAt(p.log, i, req, k);
    assert Fine(p.log, i) && req.control != "";
  }

  lemma LatestNow(log: seq<Event>, k: Kind, req: Request)
    ensures LatestOf(log + [ByControl(k, req)], req, k)
  {
    assert LatestAt(log + [ByControl(k, req)], |log|, req, k);
  }

  /** The request that a label brings to an answer for caller `c`. */
  function Asking(p: Path, l: Label, c: nat): Option<Request> {
    match l
    case Cancel(n, req) => if n == c && c !in p.callers then Some(req) else None
    case Reconcile(n, req, _) => if n == c && c !in p.callers then Some(req) else None
    case Support(n, _) =>
      if n == c && c in p.callers && p.callers[c].CheckingSupport? then Some(p.callers[c].req) else None
    case Acknowledge(n, _) =>
      if n == c && c in p.callers && p.callers[c].AwaitingCancel? then Some(p.callers[c].req) else None
    case _ => None
  }

  /**
    Over every run, whoever comes with a control request and is answered, now
    or behind an await, is answered truthfully.
   */
  lemma {:induction false} AnswersAreTruthful(ls: seq<Label>, l: Label, c: nat)
    requires Asking(Run(ls), l, c).Some? && c in Step(Run(ls), l).callers && Step(Run(ls), l).callers[c].Answered?
    ensures Truthful(Step(Run(ls), l).log, Asking(Run(ls), l, c).value, Step(Run(ls), l).callers[c].status)
  {
    AlwaysFine(ls);
    var p := Run(ls);
    match l
    case Cancel(_, req) => CancelIsTruthful(p, c, req);
    case Reconcile(_, req, observed) => ReconcileIsTruthful(p, c, req, observed);
    case Support(_, supported) =>
      LatestNow(p.log + [ByControl(CancelIntent, p.callers[c].req)], CancelUnsupported, p.callers[c].req);
    case Acknowledge(_, ok) =>
      Races.Reachable(ls);
      assert Races.CallerInv(p.tasks, p.callers[c]);
      AcknowledgeIsTruthful(p, c, p.callers[c].req, p.callers[c].t, ok);
  }

  lemma CancelIsTruthful(p: Path, c: nat, req: Request)
    requires AllFine(p.log) && CancelStep(p, c, req).callers[c].Answered?
    ensures Truthful(p.log, req, CancelStep(p, c, req).callers[c].status)
  {
    ReplayIsTruthful(p, req);
    TerminalMeans(p.log, req.action);
  }

  lemma ReconcileIsTruthful(p: Path, c: nat, req: Request, observed: nat)
    requires AllFine(p.log) && ReconcileStep(p, c, req, observed).callers[c].Answered?
    ensures Truthful(ReconcileStep(p, c, req, observed).log, req, ReconcileStep(p, c, req, observed).callers[c].status)
  {
    if ReconcileAnswer(p, req, observed) == None {
      LatestNow(p.log, ReconciliationRequested, req);
    } else {
      if ControlKind(p.log, req.action, req.control).Some? { ReplayIsTruthful(p, req); }
      TerminalMeans(p.log, req.action);
    }
  }

  lemma AcknowledgeIsTruthful(p: Path, c: nat, req: Request, t: nat, ok: bool)
    requires t < |p.tasks|
    ensures var p' := AcknowledgeStep(p, c, req, t, ok);
            p'.callers[c].Answered? && Truthful(p'.log, req, p'.callers[c].status)
  {
    TerminalMeans(p.log, req.action);
    LatestNow(p.log, CancelNotConfirmed, req);
    var p' := AcknowledgeStep(p, c, req, t, ok);
    if TerminalOf(p.log, req.action) == None && ok { assert p'.log[|p.log| + 1] == ByControl(Canceled, req); }
  }

  // ---- when it is told what -------------------------------------------------------

  /**
    Behind the backend's cancel: "canceled" exactly if the backend confirmed and
    the action had not ended, and then the execution is asked to stop; "not
    confirmed" exactly if it did not and the action had not ended; and otherwise
    how the action had ended.
   */
  lemma {:induction false} CancelEndsIff(ls: seq<Label>, c: nat, ok: bool)
    requires c in Run(ls).callers && Run(ls).callers[c].AwaitingCancel?
    ensures var (p, p') := (Run(ls), Step(Run(ls), Acknowledge(c, ok)));
            var (req, t) := (p.callers[c].req, p.callers[c].t);
            && t < |p.tasks|
            && (p'.callers[c] == Answered(StCanceled) <==> ok && Endless(p.log, req.action))
            && (p'.callers[c] == Answered(StNotConfirmed) <==> !ok && Endless(p.log, req.action))
            && (forall k :: p'.callers[c] == Answered(StTerminal(k)) <==> EndsIn(p.log, req.action, k))
            && (p'.log == p.log + if !Endless(p.log, req.action) then []
                                  else if ok then [ByControl(CancelRequested, req), ByControl(Canceled, req)]
                                  else [ByControl(CancelNotConfirmed, req)])
            && (ok && Endless(p.log, req.action) ==> p'.tasks[t] == p.tasks[t].(cancelRequested := true))
            && (!(ok && Endless(p.log, req.action)) ==> p'.tasks == p.tasks)
  {
    Races.Reachable(ls);
    var p := Run(ls);
    var (req, t) := (p.callers[c].req, p.callers[c].t);
    assert Races.CallerInv(p.tasks, p.callers[c]);
    forall k
      ensures TerminalOf(p.log, req.action) == Some(k) <==> EndsIn(p.log, req.action, k)
    {
      TerminalIff(p.log, req.action, k);
    }
    TerminalIff(p.log, req.action, Canceled);
  }

  /**
    Behind the support check: the cancel goes on exactly if it is supported,
    and its action still active and not ended.
   */
  lemma SupportIff(p: Path, c: nat, supported: bool)
    requires c in p.callers && p.callers[c].CheckingSupport?
    ensures var p' := Step(p, Support(c, supported)); var (req, t) := (p.callers[c].req, p.callers[c].t);
            var still := Endless(p.log, req.action) && req.action in p.active && p.active[req.action] == t;
            && (p'.callers[c] == AwaitingCancel(req, t) <==> still && supported)
            && (p'.callers[c] == Answered(StUnsupported) <==> still && !supported)
            && (p'.callers[c] == Conflict <==> !still)
  {
    TerminalIff(p.log, p.callers[c].req.action, Canceled);
  }

  /** The action's first proposal in the journal. */
  ghost predicate FirstAt(log: seq<Event>, i: int, a: string) {
    && 0 <= i < |log| && log[i].action == a && log[i].kind == Proposed
    && forall j :: 0 <= j < i ==> !(log[j].action == a && log[j].kind == Proposed)
  }

  lemma {:induction false} FirstMeans(log: seq<Event>, a: string)
    ensures match FirstProposal(log, a)
            case None => forall i :: 0 <= i < |log| ==> !(log[i].action == a && log[i].kind == Proposed)
            case Some(e) => exists i :: FirstAt(log, i, a) && log[i] == e
    decreases |log|
  {
    if log != [] && !(log[0].action == a && log[0].kind == Proposed) {
      FirstMeans(log[1..], a);
      if e :| FirstProposal(log[1..], a) == Some(e) {
        var i :| FirstAt(log[1..], i, a) && log[1..][i] == e;
        assert FirstAt(log, i + 1, a) && log[i + 1] == e;
      }
    } else if log != [] {
      assert FirstAt(log, 0, a);
    }
  }

  /** The request names a control id that is no other's, and the hash and session of the action's first proposal. */
  ghost predicate WellBound(log: seq<Event>, req: Request) {
    && !Blank(req.control)
    && (exists i ::
      FirstAt(log, i, req.action) && log[i].hash == req.hash && log[i].session == "browser:" + req.session)
    && forall i :: 0 <= i < |log| && log[i].control == req.control ==>
         log[i].action == req.action && log[i].hash == req.hash && log[i].session == req.session
  }

  lemma BindingIff(log: seq<Event>, req: Request)
    ensures BindingError(log, req) == None <==> WellBound(log, req)
    ensures BindingError(log, req) == Some(Conflict) <==> !Blank(req.control) && Unproposed(log, req.action)
  {
    FirstMeans(log, req.action);
    if i :| FirstAt(log, i, req.action) {
      var j :| FirstAt(log, j, req.action) && log[j] == FirstProposal(log, req.action).value;
      assert i == j;
      assert forall n :: FirstAt(log, n, req.action) ==> n == i;
    }
  }

  ghost predicate Unproposed(log: seq<Event>, a: string) {
    forall i :: !FirstAt(log, i, a)
  }

  /** What a new cancel request is told, or that it gets as far as the support check, exactly by these conditions. */
  lemma CancelAdmittedIff(p: Path, c: nat, req: Request)
    requires c !in p.callers
    ensures var st := Step(p, Cancel(c, req)).callers[c]; var meant := req.explicitIntent && !Blank(req.principal);
            && (st.CheckingSupport? <==>
                  && meant && WellBound(p.log, req) && Unused(p.log, req) && Endless(p.log, req.action)
                  && !Logged(p.log, req.action, CancelIntent) && req.action in p.active)
            && (st.Answered? <==> meant && WellBound(p.log, req) && !Unused(p.log, req))
            && (st == BadBinding <==>
                  !meant || Blank(req.control) || (!Unproposed(p.log, req.action) && !WellBound(p.log, req)))
            && (st.CheckingSupport? || st.Answered? || st == BadBinding || st == Conflict)
            && Step(p, Cancel(c, req)).log == p.log
  {
    BindingIff(p.log, req);
    ControlMeans(p.log, req);
    TerminalIff(p.log, req.action, Canceled);
  }

  /** A reconciliation is journaled exactly under these conditions. */
  lemma ReconcileAdmittedIff(p: Path, c: nat, req: Request, observed: nat)
    requires c !in p.callers
    ensures Step(p, Reconcile(c, req, observed)).log != p.log <==>
            && !Blank(req.principal) && WellBound(p.log, req) && Unused(p.log, req) && Endless(p.log, req.action)
            && !Logged(p.log, req.action, ReconciliationRequested) && Logged(p.log, req.action, ExecutionRequested)
            && observed < |p.log| && p.log[observed].action == req.action
  {
    BindingIff(p.log, req);
    ControlMeans(p.log, req);
    TerminalIff(p.log, req.action, Canceled);
  }

  /** A new process has no execution at hand: until a new one is requested, nothing can be cancelled. */
  lemma NothingToCancel(p: Path, c: nat, req: Request)
    ensures !Step(Step(p, Restart), Cancel(c, req)).callers[c].CheckingSupport?
  {
    CancelAdmittedIff(Step(p, Restart), c, req);
  }

  /**
    Over every run: once an execution has ended and is forgotten, no cancel gets at
    it; a cancel that is after another execution is answered as before.
   */
  lemma {:induction false} ForgottenIsOutOfReach(ls: seq<Label>, t: nat, c: nat, req: Request)
    requires t < |Run(ls).tasks| && c !in Run(ls).callers
    ensures var before := Step(Run(ls), Cancel(c, req)).callers[c];
            var after := Step(Step(Run(ls), Forget(t)), Cancel(c, req)).callers[c];
            after == if Run(ls).tasks[t].phase.Done? && before == CheckingSupport(req, t) then Conflict else before
  {
    ActiveIsOwn(ls, req.action);
    ForgottenAnswer(Run(ls), t, req);
  }

  lemma {:induction false} ActiveIsOwn(ls: seq<Label>, a: string)
    ensures var p := Run(ls); a in p.active ==> p.active[a] < |p.tasks| && p.tasks[p.active[a]].sub.action == a
  {
    Races.Reachable(ls);
  }

  lemma ForgottenAnswer(p: Path, t: nat, req: Request)
    requires t < |p.tasks|
    requires req.action in p.active && p.active[req.action] == t ==> p.tasks[t].sub.action == req.action
    ensures CancelAnswer(ForgetStep(p, t), req) ==
            if p.tasks[t].phase.Done? && CancelAnswer(p, req) == CheckingSupport(req, t) then Conflict
            else CancelAnswer(p, req)
  {
  }

  // ---- what an execution writes -----------------------------------------------------

  predicate SaysOf(e: Event, k: Kind, sub: Submission) {
    e.kind == k && e.action == sub.action && e.signature == sub.signature && e.retry == sub.retry
  }

  /**
    What a backend's result leaves in the journal and the failure file: nothing but
    a note behind a cancel; else a completion that closes the signature's failures,
    or a failure that is open from then on.
   */
  lemma DeliveryMeans(p: Path, t: nat, backend: Backend)
    requires t < |p.tasks| && p.tasks[t].phase.Running?
    ensures var p' := Step(p, Deliver(t, backend)); var sub := p.tasks[t].sub;
            && p'.callers == p.callers && p'.active == p.active && |p'.tasks| == |p.tasks|
            && (forall u :: 0 <= u < |p.tasks| && u != t ==> p'.tasks[u] == p.tasks[u])
            && if EndsIn(p.log, sub.action, Canceled) then LeavesNote(p, p', sub)
               else if backend.Good? then LeavesCompletion(p, p', sub) else LeavesFailure(p, p', sub)
  {
    var sub := p.tasks[t].sub;
    TerminalIff(p.log, sub.action, Canceled);
    if TerminalOf(p.log, sub.action) == Some(Canceled) {
    } else if backend.Good? {
      GoodMeans(p, t);
    } else {
      BadMeans(p, t, backend.detail);
    }
  }

  ghost predicate LeavesNote(p: Path, p': Path, sub: Submission) {
    && |p'.log| == |p.log| + 1 && p.log == p'.log[..|p.log|] && p'.failures == p.failures
    && SaysOf(p'.log[|p.log|], LateDiscarded, sub)
  }

  ghost predicate LeavesCompletion(p: Path, p': Path, sub: Submission) {
    && |p'.log| == |p.log| + 1 && p.log == p'.log[..|p.log|] && SaysOf(p'.log[|p.log|], Completed, sub)
    && forall other :: Failures.HasOpen(p'.failures, other) <==>
         other != sub.signature && Failures.HasOpen(p.failures, other)
  }

  ghost predicate LeavesFailure(p: Path, p': Path, sub: Submission) {
    && |p'.log| == |p.log| + 2 && p.log == p'.log[..|p.log|]
    && SaysOf(p'.log[|p.log|], Failed, sub) && SaysOf(p'.log[|p.log| + 1], FailureDetected, sub)
    && Failures.HasOpen(p'.failures, sub.signature)
  }

  lemma GoodMeans(p: Path, t: nat)
    requires t < |p.tasks| && p.tasks[t].phase.Running?
    requires TerminalOf(p.log, p.tasks[t].sub.action) != Some(Canceled)
    ensures LeavesCompletion(p, DeliverStep(p, t, Good), p.tasks[t].sub)
  {
    var sub := p.tasks[t].sub;
    var why := if sub.retry != "" then sub.retry else "execution succeeded";
    forall other
      ensures Failures.HasOpen(Failures.Resolved(p.failures, sub.signature, why), other) <==>
              other != sub.signature && Failures.HasOpen(p.failures, other)
    {
      Failures.ResolveCloses(p.failures, sub.signature, why, other);
    }
    assert DeliverStep(p, t, Good).failures == Failures.Resolved(p.failures, sub.signature, why);
  }

  lemma BadMeans(p: Path, t: nat, detail: string)
    requires t < |p.tasks| && p.tasks[t].phase.Running?
    requires TerminalOf(p.log, p.tasks[t].sub.action) != Some(Canceled)
    ensures LeavesFailure(p, DeliverStep(p, t, Bad(detail)), p.tasks[t].sub)
  {
    var sub := p.tasks[t].sub;
    Failures.RecordNames(p.failures, sub.signature, detail, sub.action);
    Failures.NoneOpen(Failures.Recorded(p.failures, sub.signature, detail, sub.action), sub.signature);
  }

  // ---- what a proposal is told ------------------------------------------------------

  /**
    Over every run: a proposal is executed exactly if its preflight holds, it has a
    reason to retry where its last run failed, and the governor approves; and its
    refusal names the first of these that failed, and is in the journal.
   */
  lemma {:induction false} ExecutedIff(ls: seq<Label>, c: nat, preflightOk: bool, verdict: Verdict)
    requires c in Run(ls).callers && Run(ls).callers[c].Preflighting?
    ensures var (p, p') := (Run(ls), Step(Run(ls), Gate(c, preflightOk, verdict))); var sub := p.callers[c].sub;
            var again := Retries.LastRunFailed(p.log, sub.signature) && Blank(sub.retry);
            && (p'.callers[c].Waiting? <==> preflightOk && !again && verdict == Approve)
            && (p'.callers[c] == Refused(PreflightFailed) <==> !preflightOk)
            && (p'.callers[c] == Refused(RetryBlocked) <==> preflightOk && again)
            && (p'.callers[c] == Refused(GovernanceRejected) <==> preflightOk && !again && verdict == Deny)
            && (p'.callers[c] == Refused(ApprovalRequired) <==> preflightOk && !again && verdict.NeedApproval?)
            && (p'.callers[c].Refused? ==>
              && p'.tasks == p.tasks
              && p'.log == p.log + [ByPath(p'.callers[c].kind, sub)]
                           + if p'.callers[c].kind == ApprovalRequired && verdict.created
                             then [ByPath(ApprovalRequested, sub)] else [])
            && (p'.callers[c].Waiting? ==>
                  && p'.callers[c].t == |p.tasks| && |p'.tasks| == |p.tasks| + 1 && p'.tasks[|p.tasks|].sub == sub
                  && p'.log == p.log + [ByPath(GovernanceApproved, sub), ByPath(ExecutionRequested, sub)])
  {
    Retries.FileTellsLastRun(ls, Run(ls).callers[c].sub.signature);
  }
}
