/**
  What a dispatch or a reconcile answers, and what it writes, in terms of what it
  saw: verdict by verdict and outcome by outcome.
 */
module DispatcherAnswers {
  import opened Prelude
  import opened OrderedDict
  import opened Receipts
  import opened Dispatcher

  // ---- reconcile ----------------------------------------------------------------

  /** The artifact stands, and the receipt is closed without success. */
  predicate Rescued(r: Receipt, a: Recon) {
    && a.mission.Live? && a.artifact == Some(true) && r.state == Terminal
    && r.outcome in {Some(Failed), Some(Unknown), Some(CompletedWithoutArtifact)}
  }

  /** Nothing but the agent itself can tell. */
  predicate LeftToAgent(r: Receipt, a: Recon) {
    a.mission.Live? && !Settled(r) && !Rescued(r, a) && r.execRef !in {None, Some("")}
  }

  /** Each verdict of a reconcile, and exactly when it is given. */
  predicate Verdicts(v: Verdict, r: Receipt, a: Recon) {
    && (v == Promoted <==>
      Rescued(r, a) || (LeftToAgent(r, a) && a.observation.status != Missing && a.observation.isTerminal))
    && (v == Resumed <==> LeftToAgent(r, a) && a.observation.status != Missing && !a.observation.isTerminal)
    && (v == DispatchFailed <==> LeftToAgent(r, a) && a.observation.status == Missing)
    && (v == Refused <==> a.mission.Live? && !Settled(r) && !Rescued(r, a) && r.execRef in {None, Some("")})
    && (v == Closed <==> a.mission.Over? || (Settled(r) && !Rescued(r, a)))
  }

  /** How an agent that has come to an end is judged. */
  predicate Judged(outcome: Option<Outcome>, o: Observation) {
    && (outcome == Some(Completed) <==> o.status == Done)
    && (outcome == Some(Blocked) <==> o.status in {AgentBlocked, Terminated})
    && (outcome == Some(Failed) <==> o.status !in {Done, AgentBlocked, Terminated, StatusUnknown} && o.error != "")
    && outcome in {Some(Completed), Some(Blocked), Some(Failed), Some(Unknown)}
  }

  /** A new snapshot of the same receipt: key, workspace and execution ref stay. */
  predicate Continued(r: Receipt, r': Receipt, state: State) {
    r'.key == r.key && r'.workspaceRef == r.workspaceRef && r'.execRef == r.execRef && r'.state == state
  }

  /** What a reconcile answers and writes, given the receipt that it goes by. */
  ghost predicate Reconciled(s: Sys, s': Sys, k: Key, r: Receipt, a: Recon, d: Decision) {
    && s'.decisions == s.decisions + [d] && d.key == k && d.receipt.Some? && Verdicts(d.verdict, r, a)
    && (d.artifactFound <==> Rescued(r, a))
    && (d.verdict in {Promoted, Closed} && Written(s, s') ==> d.outcome == d.receipt.value.outcome)
    && (if Written(s, s') then s'.log == s.log + [d.receipt.value] else s'.log == s.log && d.receipt == Some(r))
    && (Written(s, s') <==> !Settled(r) && (a.mission.Over? || LeftToAgent(r, a)))
    && (s'.notes == if Rescued(r, a) then s.notes + [d] else s.notes)
    && (Rescued(r, a) ==> d.outcome == Some(Completed))
    && (d.verdict == Closed && !Written(s, s') ==> d.outcome == r.outcome)
    && (d.verdict in {Refused, Resumed} ==> d.outcome == None)
    && (d.verdict == DispatchFailed ==> d.outcome == d.receipt.value.outcome == Some(Failed))
    && (Written(s, s') && a.mission.Over? ==> Continued(r, d.receipt.value, Terminal) && d.outcome == Some(Stopped))
    && (d.verdict == DispatchFailed ==> Continued(r, d.receipt.value, Terminal))
    && d.receipt.value.error == (
      if !Written(s, s') || d.verdict in {Promoted, Resumed} then r.error
      else if a.mission.Over? then Some("aether mission terminal (" + a.mission.name + ")")
      else Some("herdr agent gone during reconcile"))
    && (d.verdict == Resumed ==> Continued(r, d.receipt.value, Reconciling) && d.receipt.value.outcome == r.outcome)
    && (d.verdict == Promoted && !Rescued(r, a) ==>
          Continued(r, d.receipt.value, Terminal) && Judged(d.receipt.value.outcome, a.observation))
  }

  predicate Written(s: Sys, s': Sys) { |s'.log| == |s.log| + 1 }

  lemma PlanReconciles(s: Sys, k: Key, r: Receipt, a: Recon)
    requires s.pc.Idle? && var plan := ReconcilePlan(k, r, a); plan.Write? ==> !Duplicate(s.index, plan.r)
    ensures Reconciled(s, Apply(s, ReconcilePlan(k, r, a)), k, r, a, ReconcilePlan(k, r, a).d)
  {
    var (plan, s') := (ReconcilePlan(k, r, a), Apply(s, ReconcilePlan(k, r, a)));
    match plan
    case JustSay(d) => assert s'.log == s.log;
    case Write(w, d) => assert s'.log == s.log + [w];
    case Remark(d) => assert s'.log == s.log && s'.notes == s.notes + [d];
  }

  /** In every good state, a reconcile from no snapshot or a harmless one answers and writes exactly that. */
  lemma ReconcileAnswers(s: Sys, w: Work, existing: Option<Receipt>, a: Recon)
    requires Inv(s) && s.pc.Idle? && (existing.Some? ==> Harmless(s.index, existing.value))
    requires existing.Some? || Get(s.index, w.key).Some?
    ensures var r := if existing.Some? then existing.value else Get(s.index, w.key).value;
            exists d :: Reconciled(s, Step(s, Reconcile(w, existing, a)), w.key, r, a, d)
  {
    var r := if existing.Some? then existing.value else Get(s.index, w.key).value;
    ReconcileKeeps(s, w, existing, a);
    var plan := ReconcilePlan(w.key, r, a);
    assert Step(s, Reconcile(w, existing, a)) == Apply(s, plan);
    PlanReconciles(s, w.key, r, a);
  }

  // ---- the end of a dispatch ------------------------------------------------------

  /** The outcome of a dispatch, exactly, from what the agent showed and what the artifact check said. */
  predicate Concluded(outcome: Outcome, o: Observation, artifact: Option<bool>) {
    && (outcome == Completed <==>
          (o.status == Done && artifact != Some(false))
            || (artifact == Some(true) && o.status !in {AgentBlocked, Terminated}))
    && (outcome == CompletedWithoutArtifact <==> o.status == Done && artifact == Some(false))
    && (outcome == Blocked <==> o.status in {AgentBlocked, Terminated})
    && (outcome == Failed <==>
          artifact != Some(true) && o.status !in {Done, AgentBlocked, Terminated, StatusUnknown} && o.error != "")
    && outcome in {Completed, CompletedWithoutArtifact, Blocked, Failed, Unknown}
  }

  /** The answer of a dispatch, and the last snapshot of its receipt. */
  ghost predicate Answered(s: Sys, s': Sys, v: Verdict, outcome: Outcome, found: bool) {
    && !s.pc.Idle? && s'.pc.Idle? && |s'.log| == |s.log| + 1 && s'.log[..|s.log|] == s.log
    && var r := s'.log[|s.log|];
    && Continued(s.pc.r, r, Terminal) && r.outcome == Some(outcome)
    && s'.decisions == s.decisions + [Decision(s.pc.w.key, v, None, Some(r), Some(outcome), found)]
  }

  /**
    A dispatch whose agent was waited for answers with its outcome, and marks
    one that only the artifact made a success.
   */
  lemma FinishAnswers(s: Sys, o: Observation, artifact: Option<bool>)
    requires Inv(s) && s.pc.AtWait?
    ensures exists outcome, found ::
              && Answered(s, Step(s, Finish(Observed(o, artifact))), Dispatched, outcome, found)
              && Concluded(outcome, o, artifact) && (found <==> outcome == Completed && o.status != Done)
  {
    FinishKeeps(s, Observed(o, artifact));
    var outcome := FinalOutcome(o, artifact);
    var finished := Updated(s.pc.r, Terminal, None, Some(outcome), None);
    var s' := Step(s, Finish(Observed(o, artifact)));
    assert s'.log == s.log + [finished];
    assert Answered(s, s', Dispatched, outcome, outcome == Completed && o.status != Done);
  }

  predicate Raising(l: Label) {
    || (l.Attach? && l.reply.Raises?) || (l.Prompt? && l.sending != Sent) || (l.Finish? && l.waiting.WaitRaises?)
  }

  function ErrorOf(l: Label): string
    requires Raising(l)
  {
    if l.Attach? then l.reply.error else if l.Prompt? then l.sending.error else l.waiting.error
  }

  /** Whatever the adapter raises, the dispatch answers as failed, closes its receipt and keeps the error's text. */
  lemma RaisedAnswers(s: Sys, l: Label)
    requires Inv(s) && Raising(l)
    requires if l.Attach? then s.pc.AtAttach? else if l.Prompt? then s.pc.AtPrompt? else s.pc.AtWait?
    ensures var s' := Step(s, l);
            Answered(s, s', DispatchFailed, Failed, false) && s'.log[|s.log|].error == Some(ErrorOf(l))
  {
    StepKeeps(s, l);
    var s' := Step(s, l);
    assert s'.log == s.log + [Updated(s.pc.r, Terminal, None, Some(Failed), Some(ErrorOf(l)))];
  }

  /** The way there: the agent's reference is written down before the prompt, and the prompt behind it. */
  lemma ProgressWrites(s: Sys, ref: string)
    requires Inv(s)
    ensures s.pc.AtAttach? ==>
              var s' := Step(s, Attach(Answer(ref)));
              && s'.pc.AtPrompt? && s'.pc.ref == ref && s'.prompts == s.prompts && |s'.log| == |s.log| + 1
              && var r := s'.log[|s.log|];
              && r.key == s.pc.w.key && r.state == HerdrAttached && r.execRef == Some(ref)
                && r.workspaceRef == s.pc.r.workspaceRef
    ensures s.pc.AtPrompt? ==>
              var s' := Step(s, Prompt(Sent));
              s'.pc.AtRecord? && s'.prompts == s.prompts + [s.pc.w.key] && s'.log == s.log
    ensures s.pc.AtRecord? ==>
              var s' := Step(s, RecordPrompt);
              s'.pc.AtWait? && |s'.log| == |s.log| + 1 && Continued(s.pc.r, s'.log[|s.log|], Prompted)
  {
  }
}
