/**
  What holds over every run of dispatches, reconciles and restarts, with a crash
  allowed between any two steps.
 */
module DispatcherRuns {
  import opened Prelude
  import opened OrderedDict
  import opened Receipts
  import opened Dispatcher

  /** The log and the index grow together, by at most one snapshot. */
  predicate Extends(s: Sys, s': Sys) {
    || (s'.log == s.log && s'.index == s.index)
    || (&& |s'.log| == |s.log| + 1
        && var r := s'.log[|s.log|];
        && s'.log == s.log + [r]
        && s'.index == Put(s.index, r.key, r))
  }

  lemma ReconcileExtends(s: Sys, w: Work, existing: Option<Receipt>, a: Recon)
    ensures Extends(s, ReconcileStep(s, w, existing, a))
  {
    var r := if existing.Some? then existing else Get(s.index, w.key);
    if r.Some? {
      var plan := ReconcilePlan(w.key, r.value, a);
      assert Extends(s, Apply(s, plan));
    }
  }

  lemma DispatchExtends(s: Sys, w: Work, g: Gate, a: Recon)
    ensures Extends(s, DispatchStep(s, w, g, a))
  {
    ReconcileExtends(s, w, None, a);
    assert Extends(s, Begin(s, w, g));
  }

  lemma StepExtends(s: Sys, l: Label)
    requires !l.Crash?
    ensures Extends(s, Step(s, l))
  {
    match l
    case Dispatch(w, g, a) => DispatchExtends(s, w, g, a);
    case Reconcile(w, existing, a) => ReconcileExtends(s, w, existing, a);
    case _ =>
  }

  /** A step appends at most one snapshot, and keeps the index a replay of the log. */
  lemma StepAppends(s: Sys, l: Label)
    ensures var s' := Step(s, l); s'.log == s.log || (|s'.log| == |s.log| + 1 && s'.log == s.log + [s'.log[|s.log|]])
    ensures s.index == Replay(s.log) ==> Step(s, l).index == Replay(Step(s, l).log)
  {
    if !l.Crash? {
      StepExtends(s, l);
      var s' := Step(s, l);
      if |s'.log| == |s.log| + 1 { ReplaySnoc(s.log, s'.log[|s.log|]); }
    }
  }

  lemma OrderlyFront(ls: seq<Label>)
    requires Orderly(ls) && ls != []
    ensures Orderly(ls[..|ls| - 1])
  {
    var front := ls[..|ls| - 1];
    assert forall i :: 0 <= i < |front| ==> front[..i] == ls[..i];
  }

  /**
    In every run the index is the replay of the log, so a restart changes no
    answer; only the dispatch in progress is lost.
   */
  lemma {:induction false} RestartChangesNothing(ls: seq<Label>)
    ensures var s := Run(ls); s.index == Replay(s.log) && Step(s, Crash) == s.(pc := Idle)
    decreases |ls|
  {
    if ls != [] {
      RestartChangesNothing(ls[..|ls| - 1]);
      StepAppends(Run(ls[..|ls| - 1]), ls[|ls| - 1]);
    }
  }

  // ---- what holds of every run, whatever snapshot a reconcile is handed ------

  /** The dispatch in progress has its own receipt in hand, and up to its prompt its key is claimed and unprompted. */
  ghost predicate PcSane(s: Sys) {
    s.pc.Idle? ||
    (s.pc.r.key == s.pc.w.key
     && (s.pc.AtAttach? || s.pc.AtPrompt? ==> s.pc.w.key !in s.prompts && Claimed0(s.log, s.pc.w.key)))
  }

  ghost predicate Sane(s: Sys) {
    && s.index == Replay(s.log)
    && Distinct(s.prompts)
    && (forall k {:trigger Claimed0(s.log, k)} :: k in s.prompts ==> Claimed0(s.log, k))
    && PcSane(s)
  }

  lemma ClaimedStays(s: Sys, l: Label, k: Key)
    requires Claimed0(s.log, k)
    ensures Claimed0(Step(s, l).log, k)
  {
    StepAppends(s, l);
    var s' := Step(s, l);
    if s'.log != s.log { ReplaySnoc(s.log, s'.log[|s.log|]); }
  }

  /** A key that the index does not know has no snapshot, and so was never prompted. */
  lemma UnknownIsUnprompted(s: Sys, k: Key)
    requires Sane(s) && Get(s.index, k).None?
    ensures Trace(s.log, k) == [] && k !in s.prompts
  {
    IndexIsLastWrite(s.log, k);
    assert !Claimed0(s.log, k);
  }

  lemma BeginIsSane(s: Sys, w: Work, g: Gate)
    requires Sane(s) && s.pc.Idle? && Get(s.index, w.key).None?
    ensures PcSane(Begin(s, w, g))
  {
    UnknownIsUnprompted(s, w.key);
    ReplaySnoc(s.log, Claim(w));
  }

  lemma PcStep(s: Sys, l: Label)
    requires Sane(s)
    ensures PcSane(Step(s, l))
  {
    match l
    case Dispatch(w, g, a) => if s.pc.Idle? && Get(s.index, w.key).None? { BeginIsSane(s, w, g); }
    case Attach(reply) => if s.pc.AtAttach? { ClaimedStays(s, l, s.pc.w.key); }
    case _ => if s.pc.AtAttach? || s.pc.AtPrompt? { ClaimedStays(s, l, s.pc.w.key); }
  }

  lemma SaneStep(s: Sys, l: Label)
    requires Sane(s)
    ensures Sane(Step(s, l))
  {
    StepAppends(s, l);
    PromptsStep(s, l);
    PcStep(s, l);
    forall k | k in Step(s, l).prompts
      ensures Claimed0(Step(s, l).log, k)
    {
      assert Claimed0(s.log, k);
      ClaimedStays(s, l, k);
    }
  }

  lemma {:induction false} AlwaysSane(ls: seq<Label>)
    ensures Sane(Run(ls))
    decreases |ls|
  {
    if ls != [] {
      AlwaysSane(ls[..|ls| - 1]);
      SaneStep(Run(ls[..|ls| - 1]), ls[|ls| - 1]);
    }
  }

  // ---- at-most-once prompting ---------------------------------------------

  /** No execution identity is ever prompted twice. */
  lemma {:induction false} PromptedAtMostOnce(ls: seq<Label>)
    ensures Distinct(Run(ls).prompts)
  {
    AlwaysSane(ls);
  }

  /** A prompt is only sent when the log already holds the key's CLAIMED snapshot. */
  lemma {:induction false} PromptFollowsClaim(ls: seq<Label>)
    requires ls != []
    ensures var (s, s') := (Run(ls[..|ls| - 1]), Run(ls));
            s'.prompts == s.prompts ||
            (|s'.prompts| == |s.prompts| + 1 && s'.prompts[..|s.prompts|] == s.prompts
              && Claimed0(s.log, s'.prompts[|s.prompts|]))
  {
    AlwaysSane(ls[..|ls| - 1]);
    PromptsStep(Run(ls[..|ls| - 1]), ls[|ls| - 1]);
  }

  lemma PromptsStep(s: Sys, l: Label)
    ensures Step(s, l).prompts == s.prompts || (s.pc.AtPrompt? && Step(s, l).prompts == s.prompts + [s.pc.w.key])
  {
  }

  // ---- terminal finality --------------------------------------------------

  predicate IsSettled(s: Sys, k: Key) {
    Get(s.index, k).Some? && Settled(Get(s.index, k).value)
  }

  lemma SettledIsFinal(s: Sys, k: Key)
    requires Inv(s)
    ensures IsSettled(s, k) <==> Life(s.log, k) == Final
  {
    IndexFits(s.log, k);
  }

  lemma FinalStays(s: Sys, l: Label, k: Key)
    requires Inv(s) && Inv(Step(s, l)) && Life(s.log, k) == Final
    ensures Trace(Step(s, l).log, k) == Trace(s.log, k)
  {
    StepAppends(s, l);
    var s' := Step(s, l);
    if s'.log != s.log {
      var r := s'.log[|s.log|];
      LifeSnoc(s.log, r, k);
      ReplaySnoc(s.log, r);
      assert Life(s'.log, k) != Broken;
    }
  }

  /**
    Once a key is terminal with an outcome other than none, empty or unknown, no
    later step appends a snapshot for it; and DuplicateTerminalError never rises.
   */
  lemma {:induction false} TerminalFinality(ls: seq<Label>, i: nat, k: Key)
    requires Orderly(ls) && i <= |ls| && IsSettled(Run(ls[..i]), k)
    ensures Trace(Run(ls).log, k) == Trace(Run(ls[..i]).log, k) && IsSettled(Run(ls), k)
    ensures Run(ls).duplicates == []
    decreases |ls|
  {
    Reachable(ls);
    if i == |ls| {
      assert ls[..i] == ls;
    } else {
      var front := ls[..|ls| - 1];
      assert front[..i] == ls[..i];
      OrderlyFront(ls);
      TerminalFinality(front, i, k);
      Reachable(front);
      SettledIsFinal(Run(front), k);
      FinalStays(Run(front), ls[|ls| - 1], k);
      SettledIsFinal(Run(ls), k);
    }
  }

  // ---- trace shape --------------------------------------------------------

  /** Nothing follows a settled snapshot, and an execution ref, once set, stays. */
  ghost predicate SettlesOnce(t: seq<Receipt>) {
    && (forall i :: 0 <= i < |t| - 1 ==> !Settled(t[i]))
    && (forall i, j :: 0 <= i < j < |t| && t[i].execRef.Some? ==> t[j].execRef == t[i].execRef)
  }

  /**
    The order of states: claim, attachment, prompt, then only reconciling or
    unknown until the end; or one rejection.
   */
  predicate Staged(t: seq<Receipt>, i: nat)
    requires i < |t|
  {
    match t[i].state
    case Claimed => i == 0
    case HerdrAttached => i == 1 && t[0].state == Claimed
    case Prompted => i == 2 && t[1].state == HerdrAttached
    case Reconciling => i >= 2
    case Terminal => t[i].outcome !in {None, Some(Blank)} && (i == 0 ==> t[i].outcome == Some(Rejected))
      && (t[i].outcome == Some(Unknown) ==> i >= 2)
    case _ => false
  }

  ghost predicate WellShaped(t: seq<Receipt>) {
    SettlesOnce(t) && forall i :: 0 <= i < |t| ==> Staged(t, i)
  }

  lemma {:induction false} UnbrokenSettlesOnce(t: seq<Receipt>)
    requires PhaseOf(t) != Broken
    ensures SettlesOnce(t)
    ensures t != [] ==> Fits(PhaseOf(t), t[|t| - 1])
    decreases |t|
  {
    if t != [] {
      var (front, r) := (t[..|t| - 1], t[|t| - 1]);
      UnbrokenSettlesOnce(front);
      assert Fits(Next(PhaseOf(front), r), r);
      if front != [] {
        BegunIsNotFresh(front);
        assert front[|front| - 1].execRef.Some? ==> r.execRef == front[|front| - 1].execRef;
        forall i, j | 0 <= i < j < |t| && t[i].execRef.Some?
          ensures t[j].execRef == t[i].execRef
        {
          assert t[i] == front[i] && (j < |front| ==> t[j] == front[j]);
        }
      }
    }
  }

  /** Where each phase sits in the trace. */
  predicate Placed(t: seq<Receipt>, p: Phase) {
    match p
    case Fresh => t == []
    case OnClaim => |t| == 1 && t[0].state == Claimed
    case OnAttached(_) => |t| == 2 && t[1].state == HerdrAttached
    case OnPrompted(_) => |t| == 3
    case Open(_) => |t| >= 3
    case _ => t != []
  }

  lemma {:induction false} UnbrokenIsStaged(t: seq<Receipt>)
    requires PhaseOf(t) != Broken
    ensures Placed(t, PhaseOf(t))
    ensures forall i :: 0 <= i < |t| ==> Staged(t, i)
    decreases |t|
  {
    if t != [] {
      var (front, r) := (t[..|t| - 1], t[|t| - 1]);
      UnbrokenIsStaged(front);
      assert PhaseOf(t) == Next(PhaseOf(front), r);
      forall i | 0 <= i < |t|
        ensures Staged(t, i)
      {
        if i < |front| {
          assert Staged(front, i);
        }
      }
    }
  }

  /** In every run each key's snapshots have that shape. */
  lemma TraceShape(ls: seq<Label>, k: Key)
    requires Orderly(ls)
    ensures WellShaped(Trace(Run(ls).log, k))
  {
    Reachable(ls);
    assert Life(Run(ls).log, k) != Broken;
    UnbrokenSettlesOnce(Trace(Run(ls).log, k));
    UnbrokenIsStaged(Trace(Run(ls).log, k));
  }

  // ---- what an outcome attests ----------------------------------------------

  /** What a step saw of the agent. */
  function Seen(l: Label): Option<Observation> {
    match l
    case Finish(Observed(o, _)) => Some(o)
    case Dispatch(_, _, a) => Some(a.observation)
    case Reconcile(_, _, a) => Some(a.observation)
    case _ => None
  }

  predicate AdapterRaised(l: Label) {
    || (l.Attach? && l.reply.Raises?)
    || (l.Prompt? && l.sending != Sent)
    || (l.Finish? && l.waiting.WaitRaises?)
  }

  /** The artifact check at the end of a dispatch. */
  function ArtifactSeen(l: Label): Option<bool> {
    if l.Finish? && l.waiting.Observed? then l.waiting.artifact else None
  }

  /** What must have been seen by the step that closes a key with this outcome. */
  predicate Attested(l: Label, outcome: Outcome) {
    var o := Seen(l);
    match outcome
    case Completed =>
      o.Some? && o.value.status !in {AgentBlocked, Terminated} && ArtifactSeen(l) != Some(false)
        && (ArtifactSeen(l).None? ==> o.value.status == Done)
    case CompletedWithoutArtifact => o.Some? && o.value.status == Done && ArtifactSeen(l) == Some(false)
    case Blocked => o.Some? && o.value.status in {AgentBlocked, Terminated}
    case Stopped => (l.Dispatch? || l.Reconcile?) && l.recon.mission.Over?
    case Rejected => l.Dispatch? && l.gate.nonconformance.Some?
    case Failed => AdapterRaised(l)
      || (o.Some? && ArtifactSeen(l) != Some(true) && (o.value.status == Missing || o.value.error != ""))
    case _ => false
  }

  lemma PlanAttested(k: Key, r: Receipt, l: Label)
    requires l.Dispatch? || l.Reconcile?
    ensures var plan := ReconcilePlan(k, r, l.recon);
            plan.Write? && Settled(plan.r) ==>
              Attested(l, plan.r.outcome.value) && (plan.r.outcome == Some(Stopped) <==> l.recon.mission.Over?)
  {
  }

  lemma StepAttested(s: Sys, l: Label, r: Receipt)
    requires Step(s, l).log == s.log + [r] && Settled(r)
    ensures Attested(l, r.outcome.value)
    ensures (l.Dispatch? || l.Reconcile?) && r.outcome != Some(Rejected) ==>
            (r.outcome == Some(Stopped) <==> l.recon.mission.Over?)
  {
    var s' := Step(s, l);
    assert r == s'.log[|s.log|] && r.outcome.Some?;
    if l.Dispatch? || l.Reconcile? {
      var at := if l.Reconcile? && l.existing.Some? then l.existing else Get(s.index, l.work.key);
      if at.Some? {
        PlanAttested(l.work.key, at.value, l);
        assert s' == Apply(s, ReconcilePlan(l.work.key, at.value, l.recon));
      }
    }
  }

  /**
    In every run, a snapshot that closes a key is attested by what its step saw:
    a dispatch never completes against a wired artifact check, blocked and
    terminated agents never count as completed, and a reconcile under a mission
    that is over does nothing but stop.
   */
  lemma {:induction false} OutcomesAreAttested(ls: seq<Label>, r: Receipt)
    requires ls != [] && Run(ls).log == Run(ls[..|ls| - 1]).log + [r] && Settled(r)
    ensures var l := ls[|ls| - 1];
            && Attested(l, r.outcome.value)
            && ((l.Dispatch? || l.Reconcile?) && r.outcome != Some(Rejected) ==>
              (r.outcome == Some(Stopped) <==> l.recon.mission.Over?))
  {
    StepAttested(Run(ls[..|ls| - 1]), ls[|ls| - 1], r);
  }

  // ---- reconciling from a snapshot in hand --------------------------------

  /** An answer under which every snapshot that is not harmless does damage. */
  function WorstAnswer(index: Index, e: Receipt): Recon {
    if Get(index, e.key).Some? && !Settled(Get(index, e.key).value) && e.execRef == Get(index, e.key).value.execRef
    then Recon(Live("running"), None, Observation(OtherStatus("working"), false, ""))
    else Recon(Over("completed"), None, Observation(Missing, true, ""))
  }

  lemma HarmfulWrites(s: Sys, k: Key, e: Receipt)
    requires Inv(s) && s.pc.Idle? && !Harmless(s.index, e)
    ensures var plan := ReconcilePlan(k, e, WorstAnswer(s.index, e));
            plan.Write? && plan.r.key == e.key
              && (Duplicate(s.index, plan.r) || Next(Life(s.log, e.key), plan.r) == Broken)
  {
    IndexFits(s.log, e.key);
  }

  /**
    `reconcile` trusts a snapshot handed in by its caller. Whatever the world
    then answers, the protocol survives exactly when the snapshot is settled, or
    has the execution ref of a current, unsettled one and no outcome of its own.
   */
  lemma SnapshotSafeIff(s: Sys, w: Work, e: Receipt)
    requires Inv(s) && s.pc.Idle?
    ensures (forall a: Recon :: Inv(Step(s, Reconcile(w, Some(e), a)))) <==> Harmless(s.index, e)
  {
    if Harmless(s.index, e) {
      forall a: Recon
        ensures Inv(Step(s, Reconcile(w, Some(e), a)))
      {
        ReconcileKeeps(s, w, Some(e), a);
      }
    } else {
      var a := WorstAnswer(s.index, e);
      var plan := ReconcilePlan(w.key, e, a);
      HarmfulWrites(s, w.key, e);
      var s' := Step(s, Reconcile(w, Some(e), a));
      assert s' == SaveAndSay(s, plan.r, plan.d);
      LifeSnoc(s.log, plan.r, e.key);
      assert s'.duplicates != [] || Life(s'.log, e.key) == Broken;
    }
  }

  lemma RunSnoc(ls: seq<Label>, l: Label)
    ensures Run(ls + [l]) == Step(Run(ls), l)
  {
    assert (ls + [l])[..|ls|] == ls;
  }

  /** A first dispatch that has attached its agent. */
  lemma AttachedRun(w: Work, g: Gate, a: Recon)
    requires Refusal([], w, g) == None && g.nonconformance.None?
    ensures var s := Run([Dispatch(w, g, a), Attach(Answer("agent"))]);
            s.log == [Claim(w), Updated(Claim(w), HerdrAttached, Some("agent"), None, None)]
  {
    RunSnoc([], Dispatch(w, g, a));
    assert [] + [Dispatch(w, g, a)] == [Dispatch(w, g, a)];
    assert Run([Dispatch(w, g, a)]).log == [Claim(w)];
    RunSnoc([Dispatch(w, g, a)], Attach(Answer("agent")));
    assert [Dispatch(w, g, a)] + [Attach(Answer("agent"))] == [Dispatch(w, g, a), Attach(Answer("agent"))];
  }

  lemma TraceOfThree(a: Receipt, b: Receipt, c: Receipt)
    requires a.key == b.key == c.key
    ensures Trace([a, b], a.key) == [a, b] && Trace([a, b, c], a.key) == [a, b, c]
  {
    ReplaySnoc([], a); ReplaySnoc([a], b); ReplaySnoc([a, b], c);
    assert [] + [a] == [a] && [a] + [b] == [a, b] && [a, b] + [c] == [a, b, c];
  }

  /** What the stale claim makes of an attached receipt under a mission that is over. */
  lemma StaleStep(s: Sys, w: Work, a: Recon)
    requires s.pc.Idle? && s.index == Replay(s.log) && a.mission.Over?
    requires s.log == [Claim(w), Updated(Claim(w), HerdrAttached, Some("agent"), None, None)]
    ensures var log := Step(s, Reconcile(w, Some(Claim(w)), a)).log;
            |log| == 3 && log[..2] == s.log && log[2].key == w.key && Settled(log[2]) && log[2].execRef == None
  {
    TraceOfThree(s.log[0], s.log[1], s.log[1]);
    IndexIsLastWrite(s.log, w.key);
    assert s.log == [s.log[0], s.log[1]];
  }

  /**
    A run in which it does not: the claim snapshot, kept from before the agent was
    attached, is reconciled under a mission that is over. The key ends settled,
    its execution ref is gone, and the shape of its trace is broken.
   */
  lemma StaleSnapshotBreaks(w: Work, g: Gate, a: Recon)
    requires Refusal([], w, g) == None && g.nonconformance.None? && a.mission.Over?
    ensures var ls := [Dispatch(w, g, a), Attach(Answer("agent")), Crash, Reconcile(w, Some(Claim(w)), a)];
            var t := Trace(Run(ls).log, w.key);
            |t| == 3 && t[1].execRef == Some("agent") && t[2].execRef == None && Settled(t[2]) && !WellShaped(t)
  {
    var two := [Dispatch(w, g, a), Attach(Answer("agent"))];
    var stale := Reconcile(w, Some(Claim(w)), a);
    AttachedRun(w, g, a);
    RunSnoc(two, Crash); RunSnoc(two + [Crash], stale);
    assert two + [Crash] + [stale] == [Dispatch(w, g, a), Attach(Answer("agent")), Crash, stale];
    StaleStep(Run(two + [Crash]), w, a);
    var log := Run(two + [Crash] + [stale]).log;
    TraceOfThree(log[0], log[1], log[2]);
    assert log == [log[0], log[1], log[2]];
    assert log[1].execRef == Some("agent") && log[2].execRef == None;
  }
}
