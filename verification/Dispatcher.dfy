/**
  `APCBDispatcher` as a crash-restart machine. Each step ends where the process
  may die: after a log append or an adapter call. The adapter, the conformance
  gate, the mission observer and the artifact check answer arbitrarily, through
  the labels; a label that does not apply leaves the state alone.
 */
module Dispatcher {
  import opened Prelude
  import opened OrderedDict
  import opened Receipts

  // ---- inputs -------------------------------------------------------------

  datatype Work = Work(
    key: Key, capabilities: seq<string>, workspace: string, authorized: bool, executionReady: bool,
    awaitingApproval: bool, profile: string, needsReconcile: bool, approvalRef: string)

  datatype Principal = Principal(profiles: set<string>, capabilities: set<string>)

  /** What the registry, the conformance gate (None: conformant) and the workspace check say about a dispatch. */
  datatype Gate = Gate(principal: Option<Principal>, nonconformance: Option<string>, workspaceOk: bool)

  datatype AgentStatus = Done | AgentBlocked | Terminated | StatusUnknown | Missing | OtherStatus(name: string)

  datatype Observation = Observation(status: AgentStatus, isTerminal: bool, error: string)

  /** The observer's answer: one of the five names of a mission that is over, or any other name. */
  datatype Mission = Over(name: string) | Live(name: string)

  /** What a reconcile learns. `artifact` is None when no artifact check is wired. */
  datatype Recon = Recon(mission: Mission, artifact: Option<bool>, observation: Observation)

  datatype Eligibility = Eligibility(
    authorized: bool, executionReady: bool, principalAssigned: bool, profileEnabled: bool,
    capabilityMatch: bool, workspaceBound: bool, noActiveAttempt: bool, notAwaitingApproval: bool)
  {
    predicate Eligible() {
      authorized && executionReady && principalAssigned && profileEnabled && capabilityMatch && workspaceBound
        && noActiveAttempt && notAwaitingApproval
    }
  }

  function Evaluate(w: Work, principal: Option<Principal>, index: Index): Eligibility {
    Eligibility(
      w.authorized, w.executionReady, w.key.principal != "",
      principal.Some? && w.profile != "" && w.profile in principal.value.profiles,
      principal.Some? && forall c :: c in w.capabilities ==> c in principal.value.capabilities,
      w.workspace != "",
      !HasActive(index, w.key.work, w.key.principal, Some(w.key.mission)),
      !w.awaitingApproval)
  }

  const ALL_CLEAR := Eligibility(true, true, true, true, true, true, true, true)

  predicate Override(w: Work) {
    w.needsReconcile || w.approvalRef != ""
  }

  // ---- state --------------------------------------------------------------

  datatype Verdict = Refused | Dispatched | Resumed | Promoted | DispatchFailed | Closed

  datatype Decision = Decision(
    key: Key, verdict: Verdict, eligibility: Option<Eligibility>, receipt: Option<Receipt>, outcome: Option<Outcome>,
      artifactFound: bool)

  /** Where a dispatch in progress stands; `r` is the receipt it holds. */
  datatype Pc =
    | Idle
    | AtAttach(w: Work, r: Receipt)
    | AtPrompt(w: Work, r: Receipt, ref: string)
    | AtRecord(w: Work, r: Receipt, ref: string)
    | AtWait(w: Work, r: Receipt, ref: string)

  /** A receipt coming into being, and whether the work item carried an override. */
  datatype Creation = Creation(key: Key, override: bool)

  /**
    `prompts`, `decisions` and `created` are the history; `duplicates` holds
    the keys whose operation raised DuplicateTerminalError.
   */
  datatype Sys = Sys(
    log: seq<Receipt>, index: Index, pc: Pc, prompts: seq<Key>, decisions: seq<Decision>,
    notes: seq<Decision>, created: seq<Creation>, duplicates: seq<Key>)

  const EMPTY: Sys := Sys([], [], Idle, [], [], [], [], [])

  datatype Reply = Answer(text: string) | Raises(error: string)

  /** How building and sending the prompt ends. */
  datatype Sending = Sent | SendRaises(error: string) | BuildRaises(error: string)

  datatype Waiting = Observed(observation: Observation, artifact: Option<bool>) | WaitRaises(error: string)

  datatype Label =
    | Dispatch(work: Work, gate: Gate, recon: Recon)
    | Reconcile(work: Work, existing: Option<Receipt>, recon: Recon)
    | Attach(reply: Reply)
    | Prompt(sending: Sending)
    | RecordPrompt
    | Finish(waiting: Waiting)
    | Crash

  // ---- steps --------------------------------------------------------------

  function Save(s: Sys, r: Receipt): Sys {
    s.(log := s.log + [r], index := Put(s.index, r.key, r))
  }

  function Say(s: Sys, d: Decision): Sys {
    s.(pc := Idle, decisions := s.decisions + [d])
  }

  /** Persist the last snapshot of an operation and answer, or raise DuplicateTerminalError. */
  function SaveAndSay(s: Sys, r: Receipt, d: Decision): Sys {
    if Duplicate(s.index, r) then s.(pc := Idle, duplicates := s.duplicates + [d.key]) else Say(Save(s, r), d)
  }

  function OutcomeOf(o: Observation): Outcome {
    match o.status
    case Done => Completed
    case AgentBlocked => Blocked
    case Terminated => Blocked
    case StatusUnknown => Unknown
    case _ => if o.error != "" then Failed else Unknown
  }

  datatype Plan = JustSay(d: Decision) | Write(r: Receipt, d: Decision) | Remark(d: Decision)

  /** The branches of `reconcile` once a receipt is at hand, in source order. */
  function ReconcilePlan(k: Key, r: Receipt, a: Recon): Plan {
    var closed := JustSay(Decision(k, Closed, None, Some(r), r.outcome, false));
    if Settled(r) && !(a.artifact.Some? && r.outcome in {Some(Failed), Some(CompletedWithoutArtifact)}) then closed
    else if a.mission.Over? then
      if Settled(r) then closed
      else
        var stopped := Updated(r, Terminal, None, Some(Stopped),
          Some("aether mission terminal (" + a.mission.name + ")"));
        Write(stopped, Decision(k, Closed, None, Some(stopped), Some(Stopped), false))
    else if a.artifact == Some(true) && r.state == Terminal
      && r.outcome in {Some(Failed), Some(Unknown), Some(CompletedWithoutArtifact)} then
      Remark(Decision(k, Promoted, None, Some(r), Some(Completed), true))
    else if Settled(r) then closed
    else if r.execRef in {None, Some("")} then JustSay(Decision(k, Refused, None, Some(r), None, false))
    else if a.observation.status == Missing then
      var failed := Updated(r, Terminal, None, Some(Failed), Some("herdr agent gone during reconcile"));
      Write(failed, Decision(k, DispatchFailed, None, Some(failed), Some(Failed), false))
    else if !a.observation.isTerminal then
      var resumed := Updated(r, Reconciling, None, None, None);
      Write(resumed, Decision(k, Resumed, None, Some(resumed), None, false))
    else
      var outcome := OutcomeOf(a.observation);
      var promoted := Updated(r, Terminal, r.execRef, Some(outcome), None);
      Write(promoted, Decision(k, Promoted, None, Some(promoted), Some(outcome), false))
  }

  function Apply(s: Sys, plan: Plan): Sys {
    match plan
    case JustSay(d) => Say(s, d)
    case Write(r, d) => SaveAndSay(s, r, d)
    case Remark(d) => Say(s.(notes := s.notes + [d]), d)
  }

  function ReconcileStep(s: Sys, w: Work, existing: Option<Receipt>, a: Recon): Sys {
    match if existing.Some? then existing else Get(s.index, w.key)
    case None => Say(s, Decision(w.key, Refused, None, None, None, false))
    case Some(r) => Apply(s, ReconcilePlan(w.key, r, a))
  }

  /** K3: a prior attempt that is terminal must be older, and the work item must carry an override. */
  predicate RedispatchRefused(index: Index, w: Work) {
    var prior := Latest(index, w.key.work, Some(w.key.mission));
    prior.Some? && prior.value.state == Terminal && (prior.value.key.attempt >= w.key.attempt || !Override(w))
  }

  function Claim(w: Work): Receipt {
    Receipt(w.key, Claimed, None, if w.workspace != "" then Some(w.workspace) else None, None, None)
  }

  /** The gates before a receipt comes into being; None lets the dispatch through. */
  function Refusal(index: Index, w: Work, g: Gate): Option<Decision> {
    if RedispatchRefused(index, w) || w.profile == "" then Some(Decision(w.key, Refused, None, None, None, false))
    else
      var e := Evaluate(w, g.principal, index);
      if e.Eligible() && (g.nonconformance.Some? || g.workspaceOk) then None
      else Some(Decision(w.key, Refused, Some(e), None, None, false))
  }

  /** The first snapshot of a key: a durable rejection, or the claim that precedes all adapter calls. */
  function Begin(s: Sys, w: Work, g: Gate): Sys {
    var s1 := s.(created := s.created + [Creation(w.key, Override(w))]);
    if g.nonconformance.Some? then
      var rejected := Receipt(w.key, Terminal, None, None, Some(Rejected), g.nonconformance);
      SaveAndSay(s1, rejected, Decision(w.key, Refused, Some(ALL_CLEAR), Some(rejected), Some(Rejected), false))
    else Save(s1, Claim(w)).(pc := AtAttach(w, Claim(w)))
  }

  function DispatchStep(s: Sys, w: Work, g: Gate, a: Recon): Sys {
    if Get(s.index, w.key).Some? then ReconcileStep(s, w, None, a)
    else match Refusal(s.index, w, g)
         case Some(d) => Say(s, d)
         case None => Begin(s, w, g)
  }

  /** The `except` clause around a dispatch in progress. */
  function Abandon(s: Sys, w: Work, r: Receipt, error: string): Sys {
    var failed := Updated(r, Terminal, None, Some(Failed), Some(error));
    SaveAndSay(s, failed, Decision(w.key, DispatchFailed, None, Some(failed), Some(Failed), false))
  }

  function AttachStep(s: Sys, w: Work, r: Receipt, reply: Reply): Sys {
    match reply
    case Raises(error) => Abandon(s, w, r, error)
    case Answer(ref) =>
      var attached := Updated(r, HerdrAttached, Some(ref), None, None);
      Save(s, attached).(pc := AtPrompt(w, attached, ref))
  }

  function PromptStep(s: Sys, w: Work, r: Receipt, ref: string, sending: Sending): Sys {
    match sending
    case BuildRaises(error) => Abandon(s, w, r, error)
    case SendRaises(error) => Abandon(s.(prompts := s.prompts + [w.key]), w, r, error)
    case Sent => s.(prompts := s.prompts + [w.key], pc := AtRecord(w, r, ref))
  }

  function RecordStep(s: Sys, w: Work, r: Receipt, ref: string): Sys {
    var prompted := Updated(r, Prompted, None, None, None);
    Save(s, prompted).(pc := AtWait(w, prompted, ref))
  }

  /** The artifact check overrules the observation, where it is wired. */
  function FinalOutcome(o: Observation, artifact: Option<bool>): Outcome {
    var seen := OutcomeOf(o);
    if artifact == Some(false) && seen == Completed then CompletedWithoutArtifact
    else if artifact == Some(true) && seen in {Failed, Unknown} then Completed
    else seen
  }

  function FinishStep(s: Sys, w: Work, r: Receipt, waiting: Waiting): Sys {
    match waiting
    case WaitRaises(error) => Abandon(s, w, r, error)
    case Observed(o, artifact) =>
      var outcome := FinalOutcome(o, artifact);
      var finished := Updated(r, Terminal, None, Some(outcome), None);
      SaveAndSay(s, finished, FinishDecision(w, finished, waiting))
  }

  function FinishDecision(w: Work, finished: Receipt, waiting: Waiting): Decision
    requires waiting.Observed?
  {
    Decision(w.key, Dispatched, None, Some(finished), finished.outcome,
             waiting.artifact == Some(true) && OutcomeOf(waiting.observation) in {Failed, Unknown})
  }

  function Step(s: Sys, l: Label): Sys {
    match l
    case Dispatch(w, g, a) => if s.pc.Idle? then DispatchStep(s, w, g, a) else s
    case Reconcile(w, existing, a) => if s.pc.Idle? then ReconcileStep(s, w, existing, a) else s
    case Attach(reply) => if s.pc.AtAttach? then AttachStep(s, s.pc.w, s.pc.r, reply) else s
    case Prompt(sending) => if s.pc.AtPrompt? then PromptStep(s, s.pc.w, s.pc.r, s.pc.ref, sending) else s
    case RecordPrompt => if s.pc.AtRecord? then RecordStep(s, s.pc.w, s.pc.r, s.pc.ref) else s
    case Finish(waiting) => if s.pc.AtWait? then FinishStep(s, s.pc.w, s.pc.r, waiting) else s
    case Crash => s.(pc := Idle, index := Replay(s.log))
  }

  function RunFrom(s: Sys, ls: seq<Label>): Sys {
    if ls == [] then s else Step(RunFrom(s, ls[..|ls| - 1]), ls[|ls| - 1])
  }

  function Run(ls: seq<Label>): Sys {
    RunFrom(EMPTY, ls)
  }

  // ---- the life of one key ------------------------------------------------

  /** An automaton over one key's snapshots; `Broken` is every shape that must not occur. */
  datatype Phase =
    Fresh | OnClaim | OnAttached(ref: string) | OnPrompted(ref: string) | Open(ref: string) | Final | Broken

  function Tail(ref: string, r: Receipt): Phase {
    if r.execRef != Some(ref) then Broken
    else if r.state == Reconciling && r.outcome in {None, Some(Unknown)} then Open(ref)
    else if r.state == Terminal && r.outcome == Some(Unknown) then Open(ref)
    else if Settled(r) then Final
    else Broken
  }

  function Next(p: Phase, r: Receipt): Phase {
    match p
    case Fresh =>
      if r.execRef.Some? then Broken
      else if r.state == Claimed && r.outcome == None then OnClaim
      else if r.state == Terminal && r.outcome == Some(Rejected) then Final
      else Broken
    case OnClaim =>
      if r.state == HerdrAttached && r.execRef.Some? && r.outcome == None then OnAttached(r.execRef.value)
      else if r.execRef.None? && Settled(r) then Final
      else Broken
    case OnAttached(ref) =>
      if r.state == Prompted && r.execRef == Some(ref) && r.outcome == None then OnPrompted(ref) else Tail(ref, r)
    case OnPrompted(ref) => Tail(ref, r)
    case Open(ref) => Tail(ref, r)
    case Final => Broken
    case Broken => Broken
  }

  function PhaseOf(trace: seq<Receipt>): Phase {
    if trace == [] then Fresh else Next(PhaseOf(trace[..|trace| - 1]), trace[|trace| - 1])
  }

  function Life(log: seq<Receipt>, k: Key): Phase {
    PhaseOf(Trace(log, k))
  }

  /** What a phase says about the key's last snapshot. */
  predicate Fits(p: Phase, r: Receipt) {
    match p
    case OnClaim => r.state == Claimed && r.execRef == None && r.outcome == None
    case OnAttached(ref) => r.state == HerdrAttached && r.execRef == Some(ref) && r.outcome == None
    case OnPrompted(ref) => r.state == Prompted && r.execRef == Some(ref) && r.outcome == None
    case Open(ref) => r.state in {Reconciling, Terminal} && r.execRef == Some(ref) && r.outcome in {None, Some(Unknown)}
    case Final => Settled(r)
    case _ => false
  }

  lemma LifeSnoc(log: seq<Receipt>, r: Receipt, k: Key)
    ensures Life(log + [r], k) == if r.key == k then Next(Life(log, k), r) else Life(log, k)
  {
    ReplaySnoc(log, r);
    if r.key == k {
      assert (Trace(log, k) + [r])[..|Trace(log, k)|] == Trace(log, k);
    } else {
      assert Trace(log, k) + [] == Trace(log, k);
    }
  }

  /** Reading a key off the index tells its phase. */
  lemma IndexFits(log: seq<Receipt>, k: Key)
    requires Life(log, k) != Broken
    ensures match Get(Replay(log), k)
            case None => Life(log, k) == Fresh
            case Some(r) => r.key == k && Fits(Life(log, k), r)
  {
    IndexIsLastWrite(log, k);
    GetIffKey(Replay(log), k);
    var t := Trace(log, k);
    if t != [] {
      var p := PhaseOf(t[..|t| - 1]);
      assert Fits(Next(p, t[|t| - 1]), t[|t| - 1]);
    }
  }

  // ---- the invariant ------------------------------------------------------

  ghost predicate PcInv(s: Sys) {
    match s.pc
    case Idle => true
    case AtAttach(w, r) => r.key == w.key && Life(s.log, w.key) == OnClaim && Fits(OnClaim, r) && w.key !in s.prompts
    case AtPrompt(w, r, ref) =>
      r.key == w.key && Life(s.log, w.key) == OnAttached(ref) && Fits(OnAttached(ref), r) && w.key !in s.prompts
    case AtRecord(w, r, ref) => r.key == w.key && Life(s.log, w.key) == OnAttached(ref) && Fits(OnAttached(ref), r)
    case AtWait(w, r, ref) => r.key == w.key && Life(s.log, w.key) == OnPrompted(ref) && Fits(OnPrompted(ref), r)
  }

  ghost predicate Inv(s: Sys) {
    && s.index == Replay(s.log)
    && (forall k {:trigger Life(s.log, k)} :: Life(s.log, k) != Broken)
    && PcInv(s)
    && Distinct(s.prompts)
    && (forall k {:trigger Claimed0(s.log, k)} :: k in s.prompts ==> Claimed0(s.log, k))
    && s.duplicates == []
  }

  /** The key's first snapshot is its CLAIMED one. */
  ghost predicate Claimed0(log: seq<Receipt>, k: Key) {
    var t := Trace(log, k); t != [] && t[0].state == Claimed
  }

  lemma {:induction false} StartsClaimed(t: seq<Receipt>)
    requires PhaseOf(t).OnClaim? || PhaseOf(t).OnAttached? || PhaseOf(t).OnPrompted? || PhaseOf(t).Open?
    ensures t != [] && t[0].state == Claimed
    decreases |t|
  {
    if |t| > 1 {
      assert t[..|t| - 1][0] == t[0];
      StartsClaimed(t[..|t| - 1]);
    }
  }

  /** Appending a snapshot that the key's automaton accepts. */
  lemma SaveKeeps(s: Sys, r: Receipt)
    requires Inv(s) && Next(Life(s.log, r.key), r) != Broken
    ensures Inv(Save(s, r).(pc := Idle))
    ensures !Duplicate(s.index, r)
    ensures Life(Save(s, r).log, r.key) == Next(Life(s.log, r.key), r)
  {
    ReplaySnoc(s.log, r);
    IndexFits(s.log, r.key);
    forall k
      ensures Life(s.log + [r], k) == if r.key == k then Next(Life(s.log, k), r) else Life(s.log, k)
    {
      LifeSnoc(s.log, r, k);
    }
    forall k | k in s.prompts
      ensures Claimed0(s.log + [r], k)
    {
      assert Claimed0(s.log, k);
    }
  }

  lemma SaveAndSayKeeps(s: Sys, r: Receipt, d: Decision)
    requires Inv(s) && Next(Life(s.log, r.key), r) != Broken
    ensures Inv(SaveAndSay(s, r, d))
  {
    SaveKeeps(s, r);
    var s' := Save(s, r).(pc := Idle);
    assert SaveAndSay(s, r, d) == s'.(decisions := s.decisions + [d]);
  }

  /**
    A snapshot that a reconcile may trust in place of the current, unsettled
    one: same key, same execution ref, nothing decided yet.
   */
  predicate Continues(e: Receipt, cur: Receipt) {
    && e.key == cur.key && !Settled(cur) && e.execRef == cur.execRef
    && (e.execRef in {None, Some("")} || e.outcome in {None, Some(Unknown)})
  }

  /** What a caller can check before it hands a snapshot to `reconcile`. */
  predicate Harmless(index: Index, e: Receipt) {
    Settled(e) || (Get(index, e.key).Some? && Continues(e, Get(index, e.key).value))
  }

  /** Whatever the world answers, a reconcile from such a snapshot writes only what continues the key's life. */
  lemma PlanFits(k: Key, e: Receipt, cur: Receipt, a: Recon, p: Phase)
    requires Fits(p, cur) && Continues(e, cur)
    ensures var plan := ReconcilePlan(k, e, a); plan.Write? ==> plan.r.key == e.key && Next(p, plan.r) != Broken
  {
  }

  lemma PlanKeeps(s: Sys, k: Key, e: Receipt, a: Recon)
    requires Inv(s) && s.pc.Idle? && Harmless(s.index, e)
    ensures Inv(Apply(s, ReconcilePlan(k, e, a)))
  {
    var plan := ReconcilePlan(k, e, a);
    if Settled(e) {
      assert !plan.Write?;
    } else {
      IndexFits(s.log, e.key);
      PlanFits(k, e, Get(s.index, e.key).value, a, Life(s.log, e.key));
      if plan.Write? { SaveAndSayKeeps(s, plan.r, plan.d); }
    }
  }

  lemma ReconcileKeeps(s: Sys, w: Work, existing: Option<Receipt>, a: Recon)
    requires Inv(s) && s.pc.Idle? && (existing.Some? ==> Harmless(s.index, existing.value))
    ensures Inv(ReconcileStep(s, w, existing, a))
  {
    if existing.Some? {
      PlanKeeps(s, w.key, existing.value, a);
    } else if Get(s.index, w.key).Some? {
      IndexFits(s.log, w.key);
      PlanKeeps(s, w.key, Get(s.index, w.key).value, a);
    }
  }

  lemma DispatchKeeps(s: Sys, w: Work, g: Gate, a: Recon)
    requires Inv(s) && s.pc.Idle?
    ensures Inv(DispatchStep(s, w, g, a))
  {
    IndexFits(s.log, w.key);
    if Get(s.index, w.key).Some? {
      ReconcileKeeps(s, w, None, a);
    } else {
      BeginKeeps(s, w, g);
    }
  }

  lemma BeginKeeps(s: Sys, w: Work, g: Gate)
    requires Inv(s) && s.pc.Idle? && Life(s.log, w.key) == Fresh
    ensures Inv(Begin(s, w, g))
  {
    var s1 := s.(created := s.created + [Creation(w.key, Override(w))]);
    assert Inv(s1);
    var rejected := Receipt(w.key, Terminal, None, None, Some(Rejected), g.nonconformance);
    SaveAndSayKeeps(s1, rejected, Decision(w.key, Refused, Some(ALL_CLEAR), Some(rejected), Some(Rejected), false));
    SaveKeeps(s1, Claim(w));
    FreshIsUnprompted(s, w.key);
  }

  lemma BegunIsNotFresh(t: seq<Receipt>)
    requires t != []
    ensures PhaseOf(t) != Fresh
  {
    assert Next(PhaseOf(t[..|t| - 1]), t[|t| - 1]) != Fresh;
  }

  lemma FreshIsUnprompted(s: Sys, k: Key)
    requires Inv(s) && Life(s.log, k) == Fresh
    ensures k !in s.prompts
  {
    if k in s.prompts {
      assert Claimed0(s.log, k);
      BegunIsNotFresh(Trace(s.log, k));
    }
  }

  lemma AbandonKeeps(s: Sys, w: Work, r: Receipt, error: string)
    requires Inv(s.(pc := Idle)) && r.key == w.key && Fits(Life(s.log, w.key), r)
    requires Life(s.log, w.key) != Final
    ensures Inv(Abandon(s, w, r, error))
  {
    var failed := Updated(r, Terminal, None, Some(Failed), Some(error));
    SaveAndSayKeeps(s.(pc := Idle), failed, Decision(w.key, DispatchFailed, None, Some(failed), Some(Failed), false));
  }

  lemma PromptKeeps(s: Sys, w: Work, r: Receipt, ref: string, sending: Sending)
    requires Inv(s) && s.pc == AtPrompt(w, r, ref)
    ensures Inv(PromptStep(s, w, r, ref, sending))
  {
    var s1 := s.(prompts := s.prompts + [w.key], pc := Idle);
    StartsClaimed(Trace(s.log, w.key));
    assert Claimed0(s.log, w.key);
    assert Inv(s1);
    match sending
    case BuildRaises(error) => AbandonKeeps(s, w, r, error);
    case SendRaises(error) => AbandonKeeps(s.(prompts := s.prompts + [w.key]), w, r, error);
    case Sent =>
  }

  lemma AttachKeeps(s: Sys, reply: Reply)
    requires Inv(s) && s.pc.AtAttach?
    ensures Inv(Step(s, Attach(reply)))
  {
    if reply.Raises? { AbandonKeeps(s, s.pc.w, s.pc.r, reply.error); }
    else {
      var (w, attached) := (s.pc.w, Updated(s.pc.r, HerdrAttached, Some(reply.text), None, None));
      SaveKeeps(s, attached);
      ProceedKeeps(Save(s, attached), AtPrompt(w, attached, reply.text));
    }
  }

  lemma RecordKeeps(s: Sys)
    requires Inv(s) && s.pc.AtRecord?
    ensures Inv(Step(s, RecordPrompt))
  {
    var (w, r, ref) := (s.pc.w, s.pc.r, s.pc.ref);
    var prompted := Updated(r, Prompted, None, None, None);
    assert Next(OnAttached(ref), prompted) == OnPrompted(ref) && Fits(OnPrompted(ref), prompted);
    SaveKeeps(s, prompted);
    ProceedKeeps(Save(s, prompted), AtWait(w, prompted, ref));
  }

  /** A state fit to be idle, taken up at a point that suits it. */
  lemma ProceedKeeps(s: Sys, pc: Pc)
    requires Inv(s.(pc := Idle)) && PcInv(s.(pc := pc))
    ensures Inv(s.(pc := pc))
  {
  }

  lemma FinishKeeps(s: Sys, waiting: Waiting)
    requires Inv(s) && s.pc.AtWait?
    ensures Inv(Step(s, Finish(waiting)))
  {
    if waiting.WaitRaises? {
      AbandonKeeps(s, s.pc.w, s.pc.r, waiting.error);
    } else {
      ObservedKeeps(s, s.pc.w, s.pc.r, waiting);
    }
  }

  lemma ObservedKeeps(s: Sys, w: Work, r: Receipt, waiting: Waiting)
    requires Inv(s) && s.pc.AtWait? && s.pc.w == w && s.pc.r == r && waiting.Observed?
    ensures Inv(FinishStep(s, w, r, waiting))
  {
    var outcome := FinalOutcome(waiting.observation, waiting.artifact);
    var finished := Updated(r, Terminal, None, Some(outcome), None);
    assert Next(OnPrompted(s.pc.ref), finished) != Broken;
    var idle := s.(pc := Idle);
    assert Inv(idle) && Next(Life(idle.log, finished.key), finished) != Broken;
    SaveAndSayKeeps(idle, finished, FinishDecision(w, finished, waiting));
    assert FinishStep(s, w, r, waiting) == SaveAndSay(idle, finished, FinishDecision(w, finished, waiting));
  }

  /** A reconcile is given no snapshot, as from `dispatch`, or a harmless one. */
  predicate Careful(s: Sys, l: Label) {
    l.Reconcile? && s.pc.Idle? && l.existing.Some? ==> Harmless(s.index, l.existing.value)
  }

  predicate Orderly(ls: seq<Label>) {
    forall i :: 0 <= i < |ls| ==> Careful(Run(ls[..i]), ls[i])
  }

  lemma StepKeeps(s: Sys, l: Label)
    requires Inv(s) && Careful(s, l)
    ensures Inv(Step(s, l))
  {
    match l
    case Dispatch(w, g, a) => if s.pc.Idle? { DispatchKeeps(s, w, g, a); }
    case Reconcile(w, existing, a) => if s.pc.Idle? { ReconcileKeeps(s, w, existing, a); }
    case Prompt(sending) => if s.pc.AtPrompt? { PromptKeeps(s, s.pc.w, s.pc.r, s.pc.ref, sending); }
    case Crash =>
    case Attach(reply) => if s.pc.AtAttach? { AttachKeeps(s, reply); }
    case RecordPrompt => if s.pc.AtRecord? { RecordKeeps(s); }
    case Finish(waiting) => if s.pc.AtWait? { FinishKeeps(s, waiting); }
  }

  lemma {:induction false} Reachable(ls: seq<Label>)
    requires Orderly(ls)
    ensures Inv(Run(ls))
    decreases |ls|
  {
    if ls != [] {
      var front := ls[..|ls| - 1];
      assert forall i :: 0 <= i < |front| ==> front[..i] == ls[..i];
      Reachable(front);
      StepKeeps(Run(front), ls[|ls| - 1]);
    } else {
      assert Inv(EMPTY);
    }
  }
}
