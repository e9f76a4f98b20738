/**
  The dispatcher as the object it is: it walks one receipt through successive
  store updates and adapter calls. An undisturbed call is proved to be exactly
  the machine's steps in a row, so what holds of every run holds of it.
 */
module Bridge {
  import opened Prelude
  import opened OrderedDict
  import opened Receipts
  import opened Dispatcher
  import Conditions = DispatcherGate

  /** A dispatch that no crash interrupts. */
  function Undisturbed(s: Sys, attach: Reply, sending: Sending, waiting: Waiting): Sys {
    FromPrompt(Step(s, Attach(attach)), sending, waiting)
  }

  function FromPrompt(s: Sys, sending: Sending, waiting: Waiting): Sys {
    FromRecord(Step(s, Prompt(sending)), waiting)
  }

  function FromRecord(s: Sys, waiting: Waiting): Sys {
    Step(Step(s, RecordPrompt), Finish(waiting))
  }

  /** An operation that has answered takes no further steps. */
  lemma AnsweredIsDone(s: Sys, attach: Reply, sending: Sending, waiting: Waiting)
    requires s.pc.Idle?
    ensures Undisturbed(s, attach, sending, waiting) == s && FromPrompt(s, sending, waiting) == s
            && FromRecord(s, waiting) == s
  {
  }

  lemma FailureAnswers(s: Sys, w: Work, r: Receipt, error: string)
    ensures Abandon(s, w, r, error) == Abandon(s.(pc := Idle), w, r, error) && Abandon(s, w, r, error).pc.Idle?
  {
  }

  lemma FromRecordIs(s: Sys, w: Work, r: Receipt, ref: string, waiting: Waiting)
    requires s.pc == AtRecord(w, r, ref)
    ensures FromRecord(s, waiting) == Step(RecordStep(s, w, r, ref), Finish(waiting))
  {
  }

  class APCBDispatcher {
    const receipts: ReceiptStore
    var prompts: seq<Key>
    var decisions: seq<Decision>
    var notes: seq<Decision>
    var created: seq<Creation>
    var duplicates: seq<Key>

    ghost predicate Valid() reads this, receipts { receipts.Valid() }

    ghost function View(pc: Pc): Sys reads this, receipts {
      Sys(receipts.log, receipts.index, pc, prompts, decisions, notes, created, duplicates)
    }

    constructor (store: ReceiptStore)
      requires store.Valid()
      ensures receipts == store && Valid()
      ensures View(Idle) == EMPTY.(log := store.log, index := store.index)
    {
      receipts, prompts, decisions, notes, created, duplicates := store, [], [], [], [], [];
    }

    method Answer(d: Decision)
      requires Valid()
      modifies this
      ensures Valid()
      ensures View(Idle) == Say(old(View(Idle)), d)
    {
      decisions := decisions + [d];
    }

    /** Persist and answer; a DuplicateTerminalError leaves without an answer. */
    method WriteAndAnswer(r: Receipt, d: Decision)
      requires Valid()
      modifies this, receipts
      ensures Valid()
      ensures View(Idle) == SaveAndSay(old(View(Idle)), r, d)
    {
      ReplaySnoc(receipts.log, r);
      var w := receipts.Persist(r);
      if w.DuplicateTerminal? { duplicates := duplicates + [d.key]; } else { decisions := decisions + [d]; }
    }

    method Reconcile(w: Work, existing: Option<Receipt>, a: Recon)
      requires Valid()
      modifies this, receipts
      ensures Valid() && View(Idle) == Step(old(View(Idle)), Label.Reconcile(w, existing, a))
    {
      var found := existing;
      if found.None? { found := Get(receipts.index, w.key); }
      if found.None? {
        Answer(Decision(w.key, Refused, None, None, None, false));
        return;
      }
      var r := found.value;
      if Settled(r) {
        if !(a.artifact.Some? && r.outcome in {Some(Failed), Some(CompletedWithoutArtifact)}) {
          Answer(Decision(w.key, Closed, None, Some(r), r.outcome, false));
          return;
        }
      }
      if a.mission.Over? {
        if !Settled(r) {
          var stopped := r.(state := Terminal, outcome := Some(Stopped),
            error := Some("aether mission terminal (" + a.mission.name + ")"));
          WriteAndAnswer(stopped, Decision(w.key, Closed, None, Some(stopped), Some(Stopped), false));
        } else {
          Answer(Decision(w.key, Closed, None, Some(r), r.outcome, false));
        }
        return;
      }
      if a.artifact.Some? && r.state == Terminal
        && r.outcome in {Some(Failed), Some(Unknown), Some(CompletedWithoutArtifact)} {
        if a.artifact.value {
          var d := Decision(w.key, Promoted, None, Some(r), Some(Completed), true);
          notes := notes + [d];
          Answer(d);
          return;
        }
      }
      if Settled(r) {
        Answer(Decision(w.key, Closed, None, Some(r), r.outcome, false));
      } else if r.execRef in {None, Some("")} {
        Answer(Decision(w.key, Refused, None, Some(r), None, false));
      } else {
        Observe(w, r, a);
      }
    }

    /** The part of `reconcile` that queries Herdr. */
    method Observe(w: Work, r: Receipt, a: Recon)
      requires Valid() && !Settled(r) && r.execRef !in {None, Some("")} && a.mission.Live?
      requires !(a.artifact == Some(true) && r.state == Terminal
               && r.outcome in {Some(Failed), Some(Unknown), Some(CompletedWithoutArtifact)})
      modifies this, receipts
      ensures Valid() && View(Idle) == Apply(old(View(Idle)), ReconcilePlan(w.key, r, a))
    {
      if a.observation.status == Missing {
        var failed := r.(state := Terminal, outcome := Some(Failed),
          error := Some("herdr agent gone during reconcile"));
        WriteAndAnswer(failed, Decision(w.key, DispatchFailed, None, Some(failed), Some(Failed), false));
      } else if !a.observation.isTerminal {
        var resumed := r.(state := Reconciling);
        WriteAndAnswer(resumed, Decision(w.key, Resumed, None, Some(resumed), None, false));
      } else {
        var outcome := OutcomeOf(a.observation);
        var promoted := r.(state := Terminal, outcome := Some(outcome));
        WriteAndAnswer(promoted, Decision(w.key, Promoted, None, Some(promoted), Some(outcome), false));
      }
    }

    method Dispatch(w: Work, g: Gate, a: Recon, attach: Reply, sending: Sending, waiting: Waiting)
      requires Valid()
      modifies this, receipts
      ensures Valid()
      ensures View(Idle) == Undisturbed(Step(old(View(Idle)), Label.Dispatch(w, g, a)), attach, sending, waiting)
    {
      ghost var begun := DispatchStep(View(Idle), w, g, a);
      if begun.pc.Idle? { AnsweredIsDone(begun, attach, sending, waiting); }
      var existing := Get(receipts.index, w.key);
      if existing.Some? {
        Reconcile(w, existing, a);
        assert begun == View(Idle);
        return;
      }
      var refusal := Gates(w, g);
      if refusal.Some? {
        Answer(refusal.value);
        assert begun == View(Idle);
        return;
      }
      assert begun == Begin(View(Idle), w, g);
      created := created + [Creation(w.key, Override(w))];
      if g.nonconformance.Some? {
        var rejected := Receipt(w.key, Terminal, None, None, Some(Rejected), g.nonconformance);
        WriteAndAnswer(rejected, Decision(w.key, Refused, Some(ALL_CLEAR), Some(rejected), Some(Rejected), false));
        assert begun == View(Idle);
        return;
      }
      var claim := Claim(w);
      ReplaySnoc(receipts.log, claim);
      var written := receipts.Persist(claim);
      assert View(AtAttach(w, claim)) == begun;
      Carry(w, claim, attach, sending, waiting);
    }

    /** `EligibilityEvaluator.evaluate` */
    method Evaluation(w: Work, principal: Option<Principal>) returns (e: Eligibility)
      ensures e == Evaluate(w, principal, receipts.index)
      ensures (e.authorized <==> w.authorized) && (e.executionReady <==> w.executionReady)
      ensures (e.notAwaitingApproval <==> !w.awaitingApproval) && (e.principalAssigned <==> w.key.principal != "")
      ensures e.workspaceBound <==> w.workspace != ""
      ensures e.profileEnabled <==> principal.Some? && w.profile != "" && w.profile in principal.value.profiles
      ensures e.capabilityMatch <==>
              principal.Some? && forall c :: c in w.capabilities ==> c in principal.value.capabilities
      ensures e.noActiveAttempt <==> Conditions.NoneOpen(receipts.index, w.key)
    {
      Conditions.OpenIff(receipts.index, w.key);
      var active := receipts.HasActiveAttempt(w.key.work, w.key.principal, Some(w.key.mission));
      var enabled, match_ := false, false;
      if principal.Some? {
        enabled := w.profile in principal.value.profiles;
        match_ := forall c :: c in w.capabilities ==> c in principal.value.capabilities;
      }
      e := Eligibility(w.authorized, w.executionReady, w.key.principal != "", w.profile != "" && enabled, match_,
                       w.workspace != "", !active, !w.awaitingApproval);
    }

    /** Re-dispatch, profile, eligibility and workspace gates, in source order. */
    method Gates(w: Work, g: Gate) returns (refusal: Option<Decision>)
      ensures refusal == Refusal(receipts.index, w, g)
    {
      var prior := receipts.LatestForWork(w.key.work, Some(w.key.mission));
      if prior.Some? && prior.value.state == Terminal {
        if prior.value.key.attempt >= w.key.attempt || !(w.needsReconcile || w.approvalRef != "") {
          return Some(Decision(w.key, Refused, None, None, None, false));
        }
      }
      if w.profile == "" { return Some(Decision(w.key, Refused, None, None, None, false)); }
      var e := Evaluation(w, g.principal);
      if !e.Eligible() || (g.nonconformance.None? && !g.workspaceOk) {
        return Some(Decision(w.key, Refused, Some(e), None, None, false));
      }
      refusal := None;
    }

    /** The `try` block and its `except`, from the claimed receipt on. */
    method Carry(w: Work, claim: Receipt, attach: Reply, sending: Sending, waiting: Waiting)
      requires Valid()
      modifies this, receipts
      ensures Valid()
      ensures View(Idle) == Undisturbed(old(View(AtAttach(w, claim))), attach, sending, waiting)
    {
      ghost var s := View(AtAttach(w, claim));
      if attach.Raises? {
        FailureAnswers(s, w, claim, attach.error);
        AnsweredIsDone(Step(s, Attach(attach)), attach, sending, waiting);
        Fail(w, claim, attach.error);
        return;
      }
      var attached := Updated(claim, HerdrAttached, Some(attach.text), None, None);
      ReplaySnoc(receipts.log, attached);
      var written := receipts.Update(claim, HerdrAttached, Some(attach.text), None, None);
      assert View(AtPrompt(w, attached, attach.text)) == Step(s, Attach(attach));
      CarryPrompt(w, attached, attach.text, sending, waiting);
    }

    method CarryPrompt(w: Work, attached: Receipt, ref: string, sending: Sending, waiting: Waiting)
      requires Valid()
      modifies this, receipts
      ensures Valid()
      ensures View(Idle) == FromPrompt(old(View(AtPrompt(w, attached, ref))), sending, waiting)
    {
      ghost var s := View(AtPrompt(w, attached, ref));
      ghost var s1 := PromptStep(s, w, attached, ref, sending);
      if s1.pc.Idle? { AnsweredIsDone(s1, Raises(""), sending, waiting); }
      if sending.BuildRaises? {
        FailureAnswers(s, w, attached, sending.error);
        Fail(w, attached, sending.error);
        return;
      }
      prompts := prompts + [w.key];
      if sending.SendRaises? {
        FailureAnswers(View(AtPrompt(w, attached, ref)), w, attached, sending.error);
        Fail(w, attached, sending.error);
        return;
      }
      assert View(AtRecord(w, attached, ref)) == s1;
      CarryRecord(w, attached, ref, waiting);
    }

    method CarryRecord(w: Work, attached: Receipt, ref: string, waiting: Waiting)
      requires Valid()
      modifies this, receipts
      ensures Valid()
      ensures View(Idle) == FromRecord(old(View(AtRecord(w, attached, ref))), waiting)
    {
      FromRecordIs(View(AtRecord(w, attached, ref)), w, attached, ref, waiting);
      var prompted := RecordPrompted(w, attached, ref);
      CarryWait(w, prompted, ref, waiting);
    }

    /** The PROMPTED snapshot. */
    method RecordPrompted(w: Work, attached: Receipt, ref: string) returns (prompted: Receipt)
      requires Valid()
      modifies receipts
      ensures Valid() && prompted == Updated(attached, Prompted, None, None, None)
      ensures View(AtWait(w, prompted, ref)) == RecordStep(old(View(AtRecord(w, attached, ref))), w, attached, ref)
    {
      prompted := Updated(attached, Prompted, None, None, None);
      ReplaySnoc(receipts.log, prompted);
      var written := receipts.Update(attached, Prompted, None, None, None);
    }

    /** The artifact check's say in the outcome. */
    method Overrule(o: Observation, artifact: Option<bool>) returns (outcome: Outcome, found: bool)
      ensures outcome == FinalOutcome(o, artifact)
      ensures found <==> artifact == Some(true) && OutcomeOf(o) in {Failed, Unknown}
    {
      outcome, found := OutcomeOf(o), false;
      if artifact.Some? {
        if outcome == Completed && !artifact.value {
          outcome := CompletedWithoutArtifact;
        } else if outcome in {Failed, Unknown} && artifact.value {
          outcome, found := Completed, true;
        }
      }
    }

    method CarryWait(w: Work, prompted: Receipt, ref: string, waiting: Waiting)
      requires Valid()
      modifies this, receipts
      ensures Valid()
      ensures View(Idle) == Step(old(View(AtWait(w, prompted, ref))), Finish(waiting))
    {
      if waiting.WaitRaises? {
        FailureAnswers(View(AtWait(w, prompted, ref)), w, prompted, waiting.error);
        Fail(w, prompted, waiting.error);
        return;
      }
      var outcome, found := Overrule(waiting.observation, waiting.artifact);
      var finished := prompted.(state := Terminal, outcome := Some(outcome));
      assert finished == Updated(prompted, Terminal, None, Some(outcome), None);
      WriteAndAnswer(finished, Decision(w.key, Dispatched, None, Some(finished), Some(outcome), found));
    }

    method Fail(w: Work, r: Receipt, error: string)
      requires Valid()
      modifies this, receipts
      ensures Valid()
      ensures View(Idle) == Abandon(old(View(Idle)), w, r, error)
    {
      var failed := r.(state := Terminal, outcome := Some(Failed), error := Some(error));
      WriteAndAnswer(failed, Decision(w.key, DispatchFailed, None, Some(failed), Some(Failed), false));
    }
  }
}
