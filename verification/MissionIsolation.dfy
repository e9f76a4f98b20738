/**
  Missions do not interfere: erase every step of the other missions from a run,
  keep all adapter answers, and the remaining mission sees the same decisions,
  prompts, notes and log snapshots.
 */
module MissionIsolation {
  import opened Prelude
  import opened OrderedDict
  import opened Receipts
  import opened Dispatcher
  import opened DispatcherRuns

  function ReceiptKey(r: Receipt): Key { r.key }
  function EntryKey(e: Item<Key, Receipt>): Key { e.key }
  function DecisionKey(d: Decision): Key { d.key }
  function CreationKey(c: Creation): Key { c.key }
  function SelfKey(k: Key): Key { k }

  /** The elements that belong to one mission. */
  function Only<T>(xs: seq<T>, key: T -> Key, m: string): seq<T> {
    if xs == [] then []
    else
      var own := Only(xs[..|xs| - 1], key, m);
      if key(xs[|xs| - 1]).mission == m then own + [xs[|xs| - 1]] else own
  }

  lemma OnlySnoc<T>(xs: seq<T>, x: T, key: T -> Key, m: string)
    ensures Only(xs + [x], key, m) == if key(x).mission == m then Only(xs, key, m) + [x] else Only(xs, key, m)
  {
    assert (xs + [x])[..|xs|] == xs;
  }

  lemma {:induction false} OnlyCons<T>(x: T, xs: seq<T>, key: T -> Key, m: string)
    ensures Only([x] + xs, key, m) == if key(x).mission == m then [x] + Only(xs, key, m) else Only(xs, key, m)
    decreases |xs|
  {
    if xs == [] {
      assert [x] + xs == [] + [x];
      OnlySnoc([], x, key, m);
    } else {
      var (front, last) := (xs[..|xs| - 1], xs[|xs| - 1]);
      assert [x] + xs == ([x] + front) + [last];
      OnlySnoc([x] + front, last, key, m);
      OnlyCons(x, front, key, m);
    }
  }

  /** What mission `m` can see of the whole. */
  function View(s: Sys, m: string): Sys {
    Sys(Only(s.log, ReceiptKey, m), Only(s.index, EntryKey, m),
        if !s.pc.Idle? && s.pc.w.key.mission == m then s.pc else Idle,
        Only(s.prompts, SelfKey, m), Only(s.decisions, DecisionKey, m), Only(s.notes, DecisionKey, m),
        Only(s.created, CreationKey, m), Only(s.duplicates, SelfKey, m))
  }

  // ---- every read depends on the mission's own part ------------------------

  lemma {:induction false} GetOnly(index: Index, k: Key)
    ensures Get(Only(index, EntryKey, k.mission), k) == Get(index, k)
    decreases |index|
  {
    if index != [] {
      var rest := index[1..];
      assert index == [index[0]] + rest;
      OnlyCons(index[0], rest, EntryKey, k.mission);
      GetOnly(rest, k);
      if index[0].key.mission == k.mission {
        assert Only(index, EntryKey, k.mission)[1..] == Only(rest, EntryKey, k.mission);
      }
    }
  }

  lemma {:induction false} PutOnly(index: Index, r: Receipt, m: string)
    ensures Only(Put(index, r.key, r), EntryKey, m) ==
            if r.key.mission == m then Put(Only(index, EntryKey, m), r.key, r) else Only(index, EntryKey, m)
    decreases |index|
  {
    var e := Item(r.key, r);
    if index == [] {
      assert [e] == [e] + [];
      OnlyCons(e, [], EntryKey, m);
    } else {
      var (head, rest) := (index[0], index[1..]);
      assert index == [head] + rest;
      OnlyCons(head, rest, EntryKey, m);
      OnlyCons(e, rest, EntryKey, m);
      OnlyCons(head, Put(rest, r.key, r), EntryKey, m);
      PutOnly(rest, r, m);
      if head.key.mission == m {
        assert Only(index, EntryKey, m)[1..] == Only(rest, EntryKey, m);
      }
    }
  }

  lemma {:induction false} ReplayOnly(log: seq<Receipt>, m: string)
    ensures Replay(Only(log, ReceiptKey, m)) == Only(Replay(log), EntryKey, m)
    decreases |log|
  {
    if log != [] {
      var (front, r) := (log[..|log| - 1], log[|log| - 1]);
      ReplayOnly(front, m);
      PutOnly(Replay(front), r, m);
      if r.key.mission == m { ReplaySnoc(Only(front, ReceiptKey, m), r); }
    }
  }

  lemma {:induction false} LatestOnly(index: Index, work: string, m: string)
    ensures Latest(Only(index, EntryKey, m), work, Some(m)) == Latest(index, work, Some(m))
    decreases |index|
  {
    if index != [] {
      var (front, last) := (index[..|index| - 1], index[|index| - 1]);
      LatestOnly(front, work, m);
      var own := Only(front, EntryKey, m);
      assert (own + [last])[..|own|] == own;
    }
  }

  lemma {:induction false} OnlyMember(index: Index, e: Item<Key, Receipt>, m: string)
    ensures e in Only(index, EntryKey, m) <==> e in index && e.key.mission == m
    decreases |index|
  {
    if index != [] {
      OnlyMember(index[..|index| - 1], e, m);
      assert index == index[..|index| - 1] + [index[|index| - 1]];
    }
  }

  lemma HasActiveOnly(index: Index, work: string, principal: string, m: string)
    ensures HasActive(Only(index, EntryKey, m), work, principal, Some(m)) <==>
            HasActive(index, work, principal, Some(m))
  {
    var own := Only(index, EntryKey, m);
    if i :| ActiveAt(index, work, principal, Some(m), i) {
      OnlyMember(index, index[i], m);
      var j :| 0 <= j < |own| && own[j] == index[i];
      assert ActiveAt(own, work, principal, Some(m), j);
    }
    if j :| ActiveAt(own, work, principal, Some(m), j) {
      OnlyMember(index, own[j], m);
      var i :| 0 <= i < |index| && index[i] == own[j];
      assert ActiveAt(index, work, principal, Some(m), i);
    }
  }

  lemma RefusalOnly(index: Index, w: Work, g: Gate)
    ensures Refusal(Only(index, EntryKey, w.key.mission), w, g) == Refusal(index, w, g)
  {
    LatestOnly(index, w.key.work, w.key.mission);
    HasActiveOnly(index, w.key.work, w.key.principal, w.key.mission);
  }

  // ---- every write shows only to its own mission ---------------------------

  lemma SaveView(s: Sys, r: Receipt, m: string)
    ensures View(Save(s, r), m) == if r.key.mission == m then Save(View(s, m), r) else View(s, m)
  {
    OnlySnoc(s.log, r, ReceiptKey, m);
    PutOnly(s.index, r, m);
  }

  lemma SayView(s: Sys, d: Decision, m: string)
    requires s.pc.Idle? || s.pc.w.key.mission == d.key.mission
    ensures View(Say(s, d), m) == if d.key.mission == m then Say(View(s, m), d) else View(s, m)
  {
    OnlySnoc(s.decisions, d, DecisionKey, m);
  }

  lemma SaveAndSayView(s: Sys, r: Receipt, d: Decision, m: string)
    requires r.key.mission == d.key.mission
    requires s.pc.Idle? || s.pc.w.key.mission == d.key.mission
    ensures View(SaveAndSay(s, r, d), m) == if d.key.mission == m then SaveAndSay(View(s, m), r, d) else View(s, m)
  {
    GetOnly(s.index, r.key);
    if Duplicate(s.index, r) {
      OnlySnoc(s.duplicates, d.key, SelfKey, m);
    } else {
      SaveView(s, r, m);
      SayView(Save(s, r), d, m);
    }
  }

  lemma ApplyView(s: Sys, plan: Plan, m: string)
    requires s.pc.Idle? && (plan.Write? ==> plan.r.key.mission == plan.d.key.mission)
    ensures View(Apply(s, plan), m) == if plan.d.key.mission == m then Apply(View(s, m), plan) else View(s, m)
  {
    match plan
    case JustSay(d) => SayView(s, d, m);
    case Write(r, d) => SaveAndSayView(s, r, d, m);
    case Remark(d) =>
      OnlySnoc(s.notes, d, DecisionKey, m);
      SayView(s.(notes := s.notes + [d]), d, m);
  }

  lemma PlanKeys(k: Key, e: Receipt, a: Recon)
    ensures var plan := ReconcilePlan(k, e, a); plan.d.key == k && (plan.Write? ==> plan.r.key == e.key && !Settled(e))
  {
  }

  /** A reconcile from a snapshot of its own mission, or from a settled one. */
  lemma PlanView(s: Sys, k: Key, e: Receipt, a: Recon, m: string)
    requires s.pc.Idle? && (e.key.mission == k.mission || Settled(e))
    ensures var plan := ReconcilePlan(k, e, a);
            View(Apply(s, plan), m) == if k.mission == m then Apply(View(s, m), plan) else View(s, m)
  {
    PlanKeys(k, e, a);
    ApplyView(s, ReconcilePlan(k, e, a), m);
  }

  lemma ReconcileView(s: Sys, w: Work, existing: Option<Receipt>, a: Recon, m: string)
    requires s.index == Replay(s.log) && s.pc.Idle? && OwnSnapshot(w, existing)
    ensures View(ReconcileStep(s, w, existing, a), m) == if w.key.mission == m
            then ReconcileStep(View(s, m), w, existing, a) else View(s, m)
  {
    GetOnly(s.index, w.key);
    if existing.Some? {
      PlanView(s, w.key, existing.value, a, m);
    } else if Get(s.index, w.key).Some? {
      AnswersOwnKey(s.log, w.key);
      PlanView(s, w.key, Get(s.index, w.key).value, a, m);
    } else {
      SayView(s, Decision(w.key, Refused, None, None, None, false), m);
    }
  }

  lemma AnswersOwnKey(log: seq<Receipt>, k: Key)
    requires Get(Replay(log), k).Some?
    ensures Get(Replay(log), k).value.key == k
  {
    IndexIsLastWrite(log, k);
    GetIffKey(Replay(log), k);
    var n :| 0 <= n < |Replay(log)| && Replay(log)[n].key == k;
    GetOfItem(Replay(log), n);
  }

  lemma DispatchView(s: Sys, w: Work, g: Gate, a: Recon, m: string)
    requires s.index == Replay(s.log) && s.pc.Idle?
    ensures View(DispatchStep(s, w, g, a), m) == if w.key.mission == m
            then DispatchStep(View(s, m), w, g, a) else View(s, m)
  {
    GetOnly(s.index, w.key);
    RefusalOnly(s.index, w, g);
    if Get(s.index, w.key).Some? {
      ReconcileView(s, w, None, a, m);
    } else {
      match Refusal(s.index, w, g)
      case Some(d) => SayView(s, d, m);
      case None => BeginView(s, w, g, m);
    }
  }

  lemma BeginView(s: Sys, w: Work, g: Gate, m: string)
    requires s.pc.Idle?
    ensures View(Begin(s, w, g), m) == if w.key.mission == m then Begin(View(s, m), w, g) else View(s, m)
  {
    var c := Creation(w.key, Override(w));
    var s1 := s.(created := s.created + [c]);
    OnlySnoc(s.created, c, CreationKey, m);
    var rejected := Receipt(w.key, Terminal, None, None, Some(Rejected), g.nonconformance);
    SaveAndSayView(s1, rejected, Decision(w.key, Refused, Some(ALL_CLEAR), Some(rejected), Some(Rejected), false), m);
    SaveView(s1, Claim(w), m);
  }

  lemma AbandonView(s: Sys, w: Work, r: Receipt, error: string, m: string)
    requires r.key == w.key && !s.pc.Idle? && s.pc.w == w
    ensures View(Abandon(s, w, r, error), m) == if w.key.mission == m
            then Abandon(View(s, m), w, r, error) else View(s, m)
  {
    var failed := Updated(r, Terminal, None, Some(Failed), Some(error));
    SaveAndSayView(s, failed, Decision(w.key, DispatchFailed, None, Some(failed), Some(Failed), false), m);
  }

  lemma PromptView(s: Sys, sending: Sending, m: string)
    requires PcSane(s) && s.pc.AtPrompt?
    ensures View(Step(s, Prompt(sending)), m) == if s.pc.w.key.mission == m
            then Step(View(s, m), Prompt(sending)) else View(s, m)
  {
    match sending
    case BuildRaises(error) => BuildRaisesView(s, error, m);
    case SendRaises(error) => SendRaisesView(s, error, m);
    case Sent => OnlySnoc(s.prompts, s.pc.w.key, SelfKey, m);
  }

  lemma BuildRaisesView(s: Sys, error: string, m: string)
    requires PcSane(s) && s.pc.AtPrompt?
    ensures var sending := BuildRaises(error);
            View(Step(s, Prompt(sending)), m) == if s.pc.w.key.mission == m
              then Step(View(s, m), Prompt(sending)) else View(s, m)
  {
    var v := View(s, m);
    assert Step(s, Prompt(BuildRaises(error))) == Abandon(s, s.pc.w, s.pc.r, error);
    assert s.pc.w.key.mission == m ==> Step(v, Prompt(BuildRaises(error))) == Abandon(v, s.pc.w, s.pc.r, error);
    AbandonView(s, s.pc.w, s.pc.r, error, m);
  }

  lemma SendRaisesView(s: Sys, error: string, m: string)
    requires PcSane(s) && s.pc.AtPrompt?
    ensures var sending := SendRaises(error);
            View(Step(s, Prompt(sending)), m) == if s.pc.w.key.mission == m
              then Step(View(s, m), Prompt(sending)) else View(s, m)
  {
    var (w, r) := (s.pc.w, s.pc.r);
    OnlySnoc(s.prompts, w.key, SelfKey, m);
    AbandonView(s.(prompts := s.prompts + [w.key]), w, r, error, m);
  }

  lemma AttachView(s: Sys, reply: Reply, m: string)
    requires PcSane(s) && s.pc.AtAttach?
    ensures View(Step(s, Attach(reply)), m) == if s.pc.w.key.mission == m
            then Step(View(s, m), Attach(reply)) else View(s, m)
  {
    var (w, r) := (s.pc.w, s.pc.r);
    if reply.Raises? {
      AbandonView(s, w, r, reply.error, m);
    } else {
      SaveView(s, Updated(r, HerdrAttached, Some(reply.text), None, None), m);
    }
  }

  lemma RecordView(s: Sys, m: string)
    requires PcSane(s) && s.pc.AtRecord?
    ensures View(Step(s, RecordPrompt), m) == if s.pc.w.key.mission == m
            then Step(View(s, m), RecordPrompt) else View(s, m)
  {
    SaveView(s, Updated(s.pc.r, Prompted, None, None, None), m);
  }

  lemma FinishView(s: Sys, waiting: Waiting, m: string)
    requires PcSane(s) && s.pc.AtWait?
    ensures View(Step(s, Finish(waiting)), m) == if s.pc.w.key.mission == m
            then Step(View(s, m), Finish(waiting)) else View(s, m)
  {
    var (w, r) := (s.pc.w, s.pc.r);
    if waiting.WaitRaises? {
      AbandonView(s, w, r, waiting.error, m);
    } else {
      var finished := Updated(r, Terminal, None, Some(FinalOutcome(waiting.observation, waiting.artifact)), None);
      SaveAndSayView(s, finished, FinishDecision(w, finished, waiting), m);
    }
  }

  // ---- non-interference ----------------------------------------------------

  /** The mission on whose behalf a label acts in a state, if it acts at all. */
  function ActsFor(s: Sys, l: Label): Option<string> {
    match l
    case Dispatch(w, _, _) => if s.pc.Idle? then Some(w.key.mission) else None
    case Reconcile(w, _, _) => if s.pc.Idle? then Some(w.key.mission) else None
    case Crash => None
    case _ => if s.pc.Idle? then None else Some(s.pc.w.key.mission)
  }

  /** The run with every step of other missions deleted; crashes hit everyone. */
  function Without(ls: seq<Label>, m: string): seq<Label> {
    if ls == [] then []
    else
      var (front, l) := (ls[..|ls| - 1], ls[|ls| - 1]);
      var kept := Without(front, m);
      if l.Crash? || ActsFor(Run(front), l) == Some(m) then kept + [l] else kept
  }

  /** A reconcile is handed no snapshot, one of its own mission, or a settled one. */
  predicate OwnSnapshot(w: Work, existing: Option<Receipt>) {
    existing.Some? ==> existing.value.key.mission == w.key.mission || Settled(existing.value)
  }

  predicate Isolated(l: Label) {
    l.Reconcile? ==> OwnSnapshot(l.work, l.existing)
  }

  /**
    The step shows to mission `m` exactly if it is the mission's own, and then
    does the same on what the mission can see.
   */
  ghost predicate Separate(s: Sys, l: Label, m: string) {
    View(Step(s, l), m) == if l.Crash? || ActsFor(s, l) == Some(m) then Step(View(s, m), l) else View(s, m)
  }

  lemma {:induction false} StepView(s: Sys, l: Label, m: string)
    requires s.index == Replay(s.log) && PcSane(s) && Isolated(l)
    ensures Separate(s, l, m)
  {
    match l
    case Dispatch(w, g, a) => if s.pc.Idle? { DispatchView(s, w, g, a, m); }
    case Reconcile(w, existing, a) => if s.pc.Idle? { ReconcileView(s, w, existing, a, m); }
    case Prompt(sending) => if s.pc.AtPrompt? { PromptView(s, sending, m); }
    case Attach(reply) => if s.pc.AtAttach? { AttachView(s, reply, m); }
    case RecordPrompt => if s.pc.AtRecord? { RecordView(s, m); }
    case Finish(waiting) => if s.pc.AtWait? { FinishView(s, waiting, m); }
    case Crash => ReplayOnly(s.log, m);
  }

  /** Deleting the other missions' steps leaves the mission's view of the run unchanged. */
  lemma {:induction false} NonInterference(ls: seq<Label>, m: string)
    requires forall i :: 0 <= i < |ls| ==> Isolated(ls[i])
    ensures View(Run(ls), m) == Run(Without(ls, m))
    decreases |ls|
  {
    if ls != [] {
      var (front, l) := (ls[..|ls| - 1], ls[|ls| - 1]);
      NonInterference(front, m);
      AlwaysSane(front);
      StepView(Run(front), l, m);
      var kept := Without(front, m);
      assert (kept + [l])[..|kept|] == kept;
    }
  }

  // ---- exactly when a snapshot crosses missions ------------------------------

  /**
    A foreign, unsettled snapshot writes into the other mission's log, or
    raises where the caller's own mission would have written.
   */
  lemma ForeignWrites(s: Sys, w: Work, e: Receipt, a: Recon)
    requires s.pc.Idle? && e.key.mission != w.key.mission && !Settled(e) && a.mission.Over?
    ensures var l := Reconcile(w, Some(e), a); !Separate(s, l, e.key.mission) || !Separate(s, l, w.key.mission)
  {
    var plan := ReconcilePlan(w.key, e, a);
    var (s', m) := (Step(s, Reconcile(w, Some(e), a)), e.key.mission);
    assert s' == SaveAndSay(s, plan.r, plan.d);
    if Duplicate(s.index, plan.r) {
      NoForeignKey(s.index, e.key, w.key.mission);
      var v := View(s, w.key.mission);
      assert Step(v, Reconcile(w, Some(e), a)) == Say(Save(v, plan.r), plan.d);
      assert |Step(v, Reconcile(w, Some(e), a)).log| == |v.log| + 1;
    } else {
      OnlySnoc(s.log, plan.r, ReceiptKey, m);
      assert |View(s', m).log| == |View(s, m).log| + 1;
    }
  }

  lemma {:induction false} NoForeignKey(index: Index, k: Key, m: string)
    requires k.mission != m
    ensures Get(Only(index, EntryKey, m), k).None?
    decreases |index|
  {
    if index != [] {
      var rest := index[1..];
      assert index == [index[0]] + rest;
      OnlyCons(index[0], rest, EntryKey, m);
      NoForeignKey(rest, k, m);
      if index[0].key.mission == m { assert Only(index, EntryKey, m)[1..] == Only(rest, EntryKey, m); }
    }
  }

  /** Handing this snapshot to a reconcile keeps missions apart, under every answer and for every mission. */
  ghost predicate KeepsApart(s: Sys, w: Work, e: Receipt) {
    forall a: Recon, m: string :: Separate(s, Reconcile(w, Some(e), a), m)
  }

  lemma OwnKeepsApart(s: Sys, w: Work, e: Receipt)
    requires s.index == Replay(s.log) && s.pc.Idle? && OwnSnapshot(w, Some(e))
    ensures KeepsApart(s, w, e)
  {
    forall a: Recon, m: string
      ensures Separate(s, Reconcile(w, Some(e), a), m)
    {
      StepView(s, Reconcile(w, Some(e), a), m);
    }
  }

  lemma ForeignMixes(s: Sys, w: Work, e: Receipt)
    requires s.pc.Idle? && !OwnSnapshot(w, Some(e))
    ensures !KeepsApart(s, w, e)
  {
    ForeignWrites(s, w, e, Recon(Over("completed"), None, Observation(Missing, true, "")));
  }

  /** Missions stay apart exactly when the snapshot is an own or a settled one. */
  lemma KeepsApartIff(s: Sys, w: Work, e: Receipt)
    requires s.index == Replay(s.log) && s.pc.Idle?
    ensures KeepsApart(s, w, e) <==> OwnSnapshot(w, Some(e))
  {
    if OwnSnapshot(w, Some(e)) { OwnKeepsApart(s, w, e); } else { ForeignMixes(s, w, e); }
  }

  lemma ClaimedRun(n: Work, g: Gate, a: Recon)
    requires Refusal([], n, g) == None && g.nonconformance.None?
    ensures var s := Run([Dispatch(n, g, a), Crash]); s.pc.Idle? && s.log == [Claim(n)] && s.index == Replay([Claim(n)])
  {
    RunSnoc([], Dispatch(n, g, a));
    assert [] + [Dispatch(n, g, a)] == [Dispatch(n, g, a)];
    assert Run([Dispatch(n, g, a)]).log == [Claim(n)];
    RunSnoc([Dispatch(n, g, a)], Crash);
    assert [Dispatch(n, g, a)] + [Crash] == [Dispatch(n, g, a), Crash];
  }

  /**
    A run in which one mission's reconcile, handed the claim that the other
    has just written, closes the other's work.
   */
  lemma ForeignSnapshotLeaks(n: Work, g: Gate, w: Work, a: Recon)
    requires n.key.mission != w.key.mission && Refusal([], n, g) == None && g.nonconformance.None? && a.mission.Over?
    ensures var ls := [Dispatch(n, g, a), Crash, Reconcile(w, Some(Claim(n)), a)];
            var s := Run(ls);
            && |s.log| == 2 && s.log[0] == Claim(n) && s.log[1].key == n.key && Settled(s.log[1])
            && View(s, n.key.mission).log != Run(Without(ls, n.key.mission)).log
  {
    var two := [Dispatch(n, g, a), Crash];
    var (l, m) := (Reconcile(w, Some(Claim(n)), a), n.key.mission);
    var ls := two + [l];
    assert ls == [Dispatch(n, g, a), Crash, l];
    ClaimedRun(n, g, a);
    RunSnoc(two, l);
    var stopped := ReconcilePlan(w.key, Claim(n), a).r;
    LoneClaim(n);
    assert Run(ls).log == [Claim(n)] + [stopped];
    OnlySnoc([], Claim(n), ReceiptKey, m);
    OnlySnoc([Claim(n)], stopped, ReceiptKey, m);
    assert [] + [Claim(n)] == [Claim(n)];
    assert ls[..2] == two && two[..1] == [Dispatch(n, g, a)] && [Dispatch(n, g, a)][..0] == [];
    assert Without([Dispatch(n, g, a)], m) == [] + [Dispatch(n, g, a)];
    assert Without(two, m) == [Dispatch(n, g, a)] + [Crash];
    assert Without(ls, m) == two;
  }

  /** A claim alone in the log does not stand in the way of any other snapshot. */
  lemma LoneClaim(n: Work)
    ensures Get(Replay([Claim(n)]), n.key) == Some(Claim(n)) && !Definitive(Claim(n))
  {
    IndexIsLastWrite([Claim(n)], n.key);
    ReplaySnoc([], Claim(n));
    assert [] + [Claim(n)] == [Claim(n)];
  }
}
