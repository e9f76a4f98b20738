/**
  Who gets through the gate of `dispatch`: the exact conditions under which a
  receipt comes into being, and that whatever is prompted had met them.
 */
module DispatcherGate {
  import opened Prelude
  import opened OrderedDict
  import opened Receipts
  import opened Dispatcher
  import opened DispatcherRuns
  import Attempts = DispatcherAttempts

  /** What the work item itself must be. */
  predicate Ready(w: Work) {
    && w.authorized && w.executionReady && !w.awaitingApproval
    && w.key.principal != "" && w.workspace != "" && w.profile != ""
  }

  /** What the principal must offer. */
  predicate Capable(w: Work, principal: Option<Principal>) {
    && principal.Some? && w.profile in principal.value.profiles
    && forall i :: 0 <= i < |w.capabilities| ==> w.capabilities[i] in principal.value.capabilities
  }

  /** No receipt of that work, principal and mission is open. */
  predicate NoneOpen(index: Index, k: Key) {
    forall i :: 0 <= i < |index| && SameAgent(index[i].key, k) ==> index[i].value.state == Terminal
  }

  predicate SameAgent(a: Key, b: Key) {
    a.work == b.work && a.mission == b.mission && a.principal == b.principal
  }

  /** A closed latest attempt must be a lower one, and the work item must ask for another. */
  ghost predicate MayRedispatch(index: Index, w: Work) {
    forall i :: FirstMax(index, w.key.work, Some(w.key.mission), i, LastAt(index, i)) ==>
      index[i].value.state == Terminal ==>
        index[i].key.attempt < w.key.attempt && (w.needsReconcile || w.approvalRef != "")
  }

  function LastAt(index: Index, i: int): Receipt {
    if 0 <= i < |index| then index[i].value else Receipt(Key("", "", 0, ""), Discovered, None, None, None, None)
  }

  ghost predicate MayStart(index: Index, w: Work, g: Gate) {
    && Ready(w) && Capable(w, g.principal) && NoneOpen(index, w.key) && MayRedispatch(index, w)
    && (g.nonconformance.Some? || g.workspaceOk)
  }

  lemma FirstMaxIsUnique(index: Index, work: string, mission: Option<string>, i: int, j: int)
    requires FirstMax(index, work, mission, i, LastAt(index, i)) && FirstMax(index, work, mission, j, LastAt(index, j))
    requires forall n :: 0 <= n < |index| ==> index[n].value.key == index[n].key
    ensures i == j
  {
  }

  lemma RedispatchIff(index: Index, w: Work)
    requires WellKeyed(index)
    ensures RedispatchRefused(index, w) <==> !MayRedispatch(index, w)
  {
    var (work, m) := (w.key.work, Some(w.key.mission));
    var prior := Latest(index, work, m);
    LatestIsFirstMax(index, work, m);
    if prior.Some? {
      var n :| FirstMax(index, work, m, n, prior.value);
      assert LastAt(index, n) == prior.value;
      forall i | FirstMax(index, work, m, i, LastAt(index, i))
        ensures i == n
      {
        FirstMaxIsUnique(index, work, m, i, n);
      }
    }
  }

  lemma OpenIff(index: Index, k: Key)
    ensures HasActive(index, k.work, k.principal, Some(k.mission)) <==> !NoneOpen(index, k)
  {
    if !NoneOpen(index, k) {
      var i :| 0 <= i < |index| && SameAgent(index[i].key, k) && index[i].value.state != Terminal;
      assert ActiveAt(index, k.work, k.principal, Some(k.mission), i);
    }
  }

  lemma CapableIff(w: Work, principal: Option<Principal>)
    ensures (principal.Some? && forall c :: c in w.capabilities ==> c in principal.value.capabilities) <==>
            principal.Some? && forall i :: 0 <= i < |w.capabilities| ==>
              w.capabilities[i] in principal.value.capabilities
  {
  }

  lemma RefusalIff(index: Index, w: Work, g: Gate)
    requires WellKeyed(index)
    ensures Refusal(index, w, g) == None <==> MayStart(index, w, g)
  {
    RedispatchIff(index, w);
    OpenIff(index, w.key);
    CapableIff(w, g.principal);
  }

  /** A dispatch of a key without a receipt brings one into being exactly when it may start. */
  lemma StartsIff(ls: seq<Label>, w: Work, g: Gate, a: Recon)
    requires Run(ls).pc.Idle? && Get(Run(ls).index, w.key).None?
    ensures var (s, s') := (Run(ls), Step(Run(ls), Dispatch(w, g, a)));
            && (s'.log != s.log <==> MayStart(s.index, w, g))
            && (Get(s'.index, w.key).Some? <==> MayStart(s.index, w, g))
            && (MayStart(s.index, w, g) ==> |s'.log| == |s.log| + 1 && s'.log[|s.log|].key == w.key)
            && (MayStart(s.index, w, g) ==>
                  s'.log[|s.log|] == if g.nonconformance.None?
                                     then Receipt(w.key, Claimed, None, Some(w.workspace), None, None)
                                     else Receipt(w.key, Terminal, None, None, Some(Rejected), g.nonconformance))
  {
    var (s, s') := (Run(ls), Step(Run(ls), Dispatch(w, g, a)));
    RestartChangesNothing(ls);
    IndexIsLastWrite(s.log, w.key);
    RefusalIff(s.index, w, g);
    if Refusal(s.index, w, g) == None { Attempts.BeginAdds(s, w, g); }
  }

  /** What a refused dispatch is shown of its eligibility, flag by flag. */
  ghost predicate Shows(e: Eligibility, index: Index, w: Work, principal: Option<Principal>) {
    && (e.authorized <==> w.authorized) && (e.executionReady <==> w.executionReady)
    && (e.notAwaitingApproval <==> !w.awaitingApproval)
    && (e.principalAssigned <==> w.key.principal != "") && (e.workspaceBound <==> w.workspace != "")
    && (e.profileEnabled <==> w.profile != "" && principal.Some? && w.profile in principal.value.profiles)
    && (e.capabilityMatch <==>
          && principal.Some?
          && forall i :: 0 <= i < |w.capabilities| ==> w.capabilities[i] in principal.value.capabilities)
    && (e.noActiveAttempt <==> NoneOpen(index, w.key))
  }

  /** A dispatch that may not start is refused, shown its eligibility if it got that far, and changes nothing. */
  lemma RefusalTells(ls: seq<Label>, w: Work, g: Gate, a: Recon)
    requires Run(ls).pc.Idle? && Get(Run(ls).index, w.key).None? && !MayStart(Run(ls).index, w, g)
    ensures var (s, s') := (Run(ls), Step(Run(ls), Dispatch(w, g, a)));
            && s'.(decisions := s.decisions) == s && |s'.decisions| == |s.decisions| + 1
            && var d := s'.decisions[|s.decisions|];
            && s'.decisions == s.decisions + [d] && d.key == w.key && d.verdict == Refused
            && d.receipt == None && d.outcome == None
            && (d.eligibility.Some? <==> MayRedispatch(s.index, w) && w.profile != "")
            && (d.eligibility.Some? ==> Shows(d.eligibility.value, s.index, w, g.principal))
  {
    var s := Run(ls);
    RestartChangesNothing(ls);
    IndexIsLastWrite(s.log, w.key);
    RefusalIff(s.index, w, g);
    RedispatchIff(s.index, w);
    OpenIff(s.index, w.key);
    CapableIff(w, g.principal);
    assert Step(s, Dispatch(w, g, a)) == Say(s, Refusal(s.index, w, g).value);
  }

  // ---- over runs --------------------------------------------------------------

  /** At place `n` of the run this very work item was dispatched, without a receipt, and met the conditions. */
  ghost predicate StartedAt(ls: seq<Label>, n: int, w: Work) {
    && 0 <= n < |ls| && ls[n].Dispatch? && ls[n].work == w && ls[n].gate.nonconformance.None?
    && Get(Run(ls[..n]).index, w.key).None? && MayStart(Run(ls[..n]).index, w, ls[n].gate)
  }

  lemma StartedStays(ls: seq<Label>, n: int, w: Work)
    requires ls != [] && StartedAt(ls[..|ls| - 1], n, w)
    ensures StartedAt(ls, n, w)
  {
    assert ls[..|ls| - 1][..n] == ls[..n];
  }

  /** Only a dispatch that starts takes the dispatcher out of its idle state, and no step changes the work at hand. */
  lemma WorkAtHand(s: Sys, l: Label)
    ensures var s' := Step(s, l);
            !s'.pc.Idle? ==>
              if s.pc.Idle?
              then l.Dispatch? && s'.pc.w == l.work && l.gate.nonconformance.None?
                   && Get(s.index, l.work.key).None? && Refusal(s.index, l.work, l.gate) == None
              else s'.pc.w == s.pc.w
  {
    if s.pc.Idle? {
      match l
      case Dispatch(w, g, a) => assert Get(s.index, w.key).Some? ==> ReconcileStep(s, w, None, a).pc.Idle?;
      case Reconcile(w, existing, a) => assert ReconcileStep(s, w, existing, a).pc.Idle?;
      case _ =>
    }
  }

  lemma {:induction false} WorkAtHandStarted(ls: seq<Label>)
    requires !Run(ls).pc.Idle?
    ensures exists n :: StartedAt(ls, n, Run(ls).pc.w)
    decreases |ls|
  {
    var (front, l) := (ls[..|ls| - 1], ls[|ls| - 1]);
    var s := Run(front);
    WorkAtHand(s, l);
    if s.pc.Idle? {
      RestartChangesNothing(front);
      IndexIsLastWrite(s.log, l.work.key);
      RefusalIff(s.index, l.work, l.gate);
      assert StartedAt(ls, |ls| - 1, l.work);
    } else {
      WorkAtHandStarted(front);
      var n :| StartedAt(front, n, s.pc.w);
      StartedStays(ls, n, s.pc.w);
    }
  }

  /** Over every run, each prompted key stems from a dispatch that met every condition of the gate. */
  lemma {:induction false} PromptedMetTheGate(ls: seq<Label>, i: nat)
    requires i < |Run(ls).prompts|
    ensures exists n, w: Work :: w.key == Run(ls).prompts[i] && StartedAt(ls, n, w)
    decreases |ls|
  {
    var (front, l) := (ls[..|ls| - 1], ls[|ls| - 1]);
    PromptsStep(Run(front), l);
    if i < |Run(front).prompts| {
      PromptedMetTheGate(front, i);
      var n, w: Work :| w.key == Run(front).prompts[i] && StartedAt(front, n, w);
      StartedStays(ls, n, w);
    } else {
      WorkAtHandStarted(front);
      var n :| StartedAt(front, n, Run(front).pc.w);
      StartedStays(ls, n, Run(front).pc.w);
    }
  }
}
