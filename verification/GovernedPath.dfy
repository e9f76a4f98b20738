/**
  The action path as the object it is. Each method is the code between two
  awaits and is proved to be the machine's step of that name.
 */
module GovernedPath {
  import opened Prelude
  import opened ActionPath
  import Failures

  lemma TerminalCut(log: seq<Event>, n: nat, a: string)
    requires n < |log|
    ensures TerminalOf(log[..n + 1], a) == if log[n].action == a && IsTerminal(log[n].kind)
            then Some(log[n].kind) else TerminalOf(log[..n], a)
  {
    assert log[..n + 1][..n] == log[..n];
  }

  class GovernedActionPath {
    var log: seq<Event>
    var tasks: seq<Task>
    var active: map<string, nat>
    var callers: map<nat, Caller>
    const failures: Failures.FailureFingerprintStore

    ghost function View(): Path reads this, failures {
      Path(log, tasks, active, callers, failures.rows)
    }

    /** A process starting on an existing journal and failure file. */
    constructor (journal: seq<Event>, store: Failures.FailureFingerprintStore)
      ensures View() == Path(journal, [], map[], map[], store.rows) && failures == store
    {
      log, tasks, active, callers, failures := journal, [], map[], map[], store;
    }

    /** `_terminal_event`: the latest terminal entry, searched from the end. */
    method TerminalEvent(a: string) returns (kind: Option<Kind>)
      ensures kind == TerminalOf(log, a)
    {
      var n := |log|;
      assert log[..n] == log;
      while n > 0
        invariant 0 <= n <= |log| && TerminalOf(log, a) == TerminalOf(log[..n], a)
      {
        TerminalCut(log, n - 1, a);
        n := n - 1;
        if log[n].action == a && IsTerminal(log[n].kind) { return Some(log[n].kind); }
      }
      kind := None;
    }

    method AnyEntry(a: string, k: Kind) returns (found: bool)
      ensures found == Logged(log, a, k)
    {
      for i := 0 to |log|
        invariant forall j :: 0 <= j < i ==> !(log[j].action == a && log[j].kind == k)
      {
        if log[i].action == a && log[i].kind == k { return true; }
      }
      found := false;
    }

    method ProposedEntry(a: string) returns (first: Option<Event>)
      ensures first == FirstProposal(log, a)
    {
      assert log[0..] == log;
      for i := 0 to |log|
        invariant FirstProposal(log, a) == FirstProposal(log[i..], a)
      {
        assert log[i..][1..] == log[i + 1..];
        if log[i].action == a && log[i].kind == Proposed { return Some(log[i]); }
      }
      first := None;
    }

    /** `_control_proposal` */
    method ControlProposal(req: Request) returns (error: Option<Caller>)
      ensures error == BindingError(log, req)
    {
      if Blank(req.control) { return Some(BadBinding); }
      var first := ProposedEntry(req.action);
      if first.None? { return Some(Conflict); }
      if first.value.hash != req.hash { return Some(BadBinding); }
      if first.value.session != "browser:" + req.session { return Some(BadBinding); }
      for i := 0 to |log|
        invariant forall j :: 0 <= j < i && log[j].control == req.control ==>
                    log[j].action == req.action && log[j].hash == req.hash && log[j].session == req.session
      {
        if log[i].control == req.control
          && (log[i].action != req.action || log[i].hash != req.hash || log[i].session != req.session) {
          return Some(BadBinding);
        }
      }
      error := None;
    }

    /** The search of `_control_replay` for the latest entry of a control request. */
    method LatestControl(a: string, control: string) returns (kind: Option<Kind>)
      ensures kind == ControlKind(log, a, control)
    {
      kind := None;
      for i := 0 to |log|
        invariant kind == ControlKind(log[..i], a, control)
      {
        assert log[..i + 1][..i] == log[..i];
        if log[i].action == a && log[i].control == control { kind := Some(log[i].kind); }
      }
      assert log[..|log|] == log;
    }

    /** `execute` behind its preflight await. */
    method ExecuteGate(c: nat, preflightOk: bool, verdict: Verdict)
      requires c in callers && callers[c].Preflighting?
      modifies this
      ensures View() == Step(old(View()), Gate(c, preflightOk, verdict))
    {
      var sub := callers[c].sub;
      if !preflightOk {
        log := log + [ByPath(PreflightFailed, sub)];
        callers := callers[c := Refused(PreflightFailed)];
        return;
      }
      var prior := failures.Open(sub.signature);
      if prior != [] && Blank(sub.retry) {
        log := log + [ByPath(RetryBlocked, sub)];
        callers := callers[c := Refused(RetryBlocked)];
        return;
      }
      match verdict
      case Deny =>
        log := log + [ByPath(GovernanceRejected, sub)];
        callers := callers[c := Refused(GovernanceRejected)];
      case NeedApproval(created) =>
        log := log + [ByPath(ApprovalRequired, sub)];
        if created { log := log + [ByPath(ApprovalRequested, sub)]; }
        callers := callers[c := Refused(ApprovalRequired)];
      case Approve =>
        log := log + [ByPath(GovernanceApproved, sub)];
        var request := |log|;
        log := log + [ByPath(ExecutionRequested, sub)];
        callers := callers[c := Waiting(|tasks|)];
        active := active[sub.action := |tasks|];
        tasks := tasks + [Task(sub, request, Scheduled, false)];
    }

    /** `_complete_execution` once the backend has answered. */
    method CompleteExecution(t: nat, backend: Backend)
      requires t < |tasks| && tasks[t].phase.Running?
      modifies this, failures
      ensures View() == Step(old(View()), Deliver(t, backend))
    {
      var sub := tasks[t].sub;
      var terminal := TerminalEvent(sub.action);
      if terminal == Some(Canceled) {
        log := log + [ByPath(LateDiscarded, sub)];
        tasks := tasks[t := tasks[t].(phase := Done(EndLate))];
        return;
      }
      match backend
      case Good =>
        failures.ResolveSignature(sub.signature, if sub.retry != "" then sub.retry else "execution succeeded");
        log := log + [ByPath(Completed, sub)];
        tasks := tasks[t := tasks[t].(phase := Done(EndCompleted))];
      case Bad(detail) =>
        var fingerprint := failures.Record(sub.signature, detail, sub.action);
        log := log + [ByPath(Failed, sub)];
        log := log + [ByPath(FailureDetected, sub)];
        tasks := tasks[t := tasks[t].(phase := Done(EndFailed))];
    }

    /** `cancel_action` up to its first await. */
    method BeginCancel(c: nat, req: Request)
      requires c !in callers
      modifies this
      ensures View() == Step(old(View()), Cancel(c, req))
    {
      if !req.explicitIntent || Blank(req.principal) {
        callers := callers[c := BadBinding];
        return;
      }
      var error := ControlProposal(req);
      if error.Some? {
        callers := callers[c := error.value];
        return;
      }
      var replay := LatestControl(req.action, req.control);
      var terminal := TerminalEvent(req.action);
      if replay.Some? {
        callers := callers[c := Answered(if terminal.Some?
          then StTerminal(terminal.value) else ReplayStatus(replay.value))];
        return;
      }
      var intended := AnyEntry(req.action, CancelIntent);
      if intended || terminal.Some? || req.action !in active {
        callers := callers[c := Conflict];
        return;
      }
      callers := callers[c := CheckingSupport(req, active[req.action])];
    }

    /** `cancel_action` between the support check and the backend's cancel. */
    method RecordIntent(c: nat, supported: bool)
      requires c in callers && callers[c].CheckingSupport?
      modifies this
      ensures View() == Step(old(View()), Support(c, supported))
    {
      var (req, t) := (callers[c].req, callers[c].t);
      var terminal := TerminalEvent(req.action);
      if terminal.Some? || req.action !in active || active[req.action] != t {
        callers := callers[c := Conflict];
        return;
      }
      log := log + [ByControl(CancelIntent, req)];
      if !supported {
        log := log + [ByControl(CancelUnsupported, req)];
        callers := callers[c := Answered(StUnsupported)];
        return;
      }
      callers := callers[c := AwaitingCancel(req, t)];
    }

    /** `cancel_action` behind the backend's cancel. */
    method FinishCancel(c: nat, ok: bool)
      requires c in callers && callers[c].AwaitingCancel? && callers[c].t < |tasks|
      modifies this
      ensures View() == Step(old(View()), Acknowledge(c, ok))
    {
      var (req, t) := (callers[c].req, callers[c].t);
      var terminal := TerminalEvent(req.action);
      if terminal.Some? {
        callers := callers[c := Answered(StTerminal(terminal.value))];
      } else if !ok {
        log := log + [ByControl(CancelNotConfirmed, req)];
        callers := callers[c := Answered(StNotConfirmed)];
      } else {
        log := log + [ByControl(CancelRequested, req)];
        log := log + [ByControl(Canceled, req)];
        tasks := tasks[t := tasks[t].(cancelRequested := true)];
        callers := callers[c := Answered(StCanceled)];
      }
    }

    /** The checks of `reconcile_action`, in source order; `observed` is the place of the receipt it refers to. */
    method ReconcileReply(req: Request, observed: nat) returns (answer: Option<Caller>)
      ensures answer == ReconcileAnswer(View(), req, observed)
    {
      if Blank(req.principal) { return Some(BadBinding); }
      var error := ControlProposal(req);
      if error.Some? { return error; }
      var replay := LatestControl(req.action, req.control);
      var terminal := TerminalEvent(req.action);
      if replay.Some? {
        return Some(Answered(if terminal.Some? then StTerminal(terminal.value) else ReplayStatus(replay.value)));
      }
      var reconciled := AnyEntry(req.action, ReconciliationRequested);
      if reconciled { return Some(Conflict); }
      if observed >= |log| || log[observed].action != req.action { return Some(BadBinding); }
      if terminal.Some? { return Some(Answered(StTerminal(terminal.value))); }
      var requested := AnyEntry(req.action, ExecutionRequested);
      answer := if requested then None else Some(Conflict);
    }

    method ReconcileAction(c: nat, req: Request, observed: nat)
      requires c !in callers
      modifies this
      ensures View() == Step(old(View()), Reconcile(c, req, observed))
    {
      var answer := ReconcileReply(req, observed);
      if answer.Some? {
        callers := callers[c := answer.value];
      } else {
        log := log + [ByControl(ReconciliationRequested, req)];
        callers := callers[c := Answered(StNotConfirmed)];
      }
    }
  }
}
