/**
  The capability lifecycle: a gated stage machine per surface and principal,
  recorded in an append-only log from which its records are rebuilt.
 */
module Lifecycle {
  import opened Prelude

  datatype Stage = Implemented | Wired | Conformed | Active | FounderProven

  function Rank(s: Stage): nat {
    match s case Implemented => 0 case Wired => 1 case Conformed => 2 case Active => 3 case FounderProven => 4
  }

  datatype Slot = Slot(surface: string, principal: string)

  /** A log line: one transition and the evidence keys stored with it. */
  datatype Entry = Entry(slot: Slot, source: Stage, target: Stage, evidence: set<string>, ts: string,
    note: Option<string>)

  datatype Record = Record(stage: Stage, updatedAt: string, evidence: set<string>, transitions: seq<Entry>)

  datatype Tracker = Tracker(records: map<Slot, Record>, log: seq<Entry>)

  /** A call of `advance` with its ids stripped and case-folded; None is an unknown stage name. */
  datatype Request = Request(slot: Slot, target: Option<Stage>, evidence: map<string, bool>, ts: string,
    note: Option<string>)

  const KNOWN_SURFACES: set<string> := {"living-mcp.mutation"}

  function Required(s: Stage): set<string> {
    match s
    case Implemented => {"source_present"}
    case Wired => {"runtime_constructed", "path_reachable"}
    case Conformed => {"canary_receipt"}
    case Active => {"config_enabled", "policy_eligible"}
    case FounderProven => {"founder_acceptance", "end_to_end_receipt"}
  }

  predicate SafeChar(c: char) {
    'a' <= c <= 'z' || 'A' <= c <= 'Z' || '0' <= c <= '9' || c in {'_', '.', '-'}
  }

  predicate ValidIds(k: Slot) {
    k.surface in KNOWN_SURFACES && 0 < |k.principal| <= 64 && forall i :: 0 <= i < |k.principal| ==>
      SafeChar(k.principal[i])
  }

  predicate Evidenced(s: Stage, evidence: map<string, bool>) {
    forall key :: key in Required(s) ==> key in evidence && evidence[key]
  }

  function StageOf(records: map<Slot, Record>, k: Slot): Stage {
    if k in records then records[k].stage else Implemented
  }

  predicate Sibling(records: map<Slot, Record>, k: Slot, other: Slot) {
    other in records && other.surface == k.surface && other.principal != k.principal
  }

  predicate HasSibling(records: map<Slot, Record>, k: Slot) {
    exists other :: other in records && Sibling(records, k, other)
  }

  predicate HasProvenSibling(records: map<Slot, Record>, k: Slot) {
    exists other :: other in records && Sibling(records, k, other) && records[other].stage == FounderProven
  }

  /** `_single_principal_gate` lets the transition through. */
  predicate GateOpen(records: map<Slot, Record>, k: Slot, target: Stage) {
    && !(target == FounderProven && HasProvenSibling(records, k))
    && !(target == Active && HasSibling(records, k) && !HasProvenSibling(records, k))
  }

  /** Every check of `advance` passes. */
  predicate Allowed(records: map<Slot, Record>, req: Request) {
    && ValidIds(req.slot) && req.target.Some?
    && Rank(req.target.value) == Rank(StageOf(records, req.slot)) + 1
    && Evidenced(req.target.value, req.evidence)
    && GateOpen(records, req.slot, req.target.value)
  }

  function Apply(records: map<Slot, Record>, e: Entry): map<Slot, Record> {
    records[e.slot := Record(e.target, e.ts, e.evidence,
      (if e.slot in records then records[e.slot].transitions else []) + [e])]
  }

  function NewEntry(records: map<Slot, Record>, req: Request): Entry
    requires req.target.Some?
  {
    Entry(req.slot, StageOf(records, req.slot), req.target.value, req.evidence.Keys, req.ts, req.note)
  }

  function Advanced(t: Tracker, req: Request): Tracker {
    if !Allowed(t.records, req) then t
    else
      var e := NewEntry(t.records, req);
      Tracker(Apply(t.records, e), t.log + [e])
  }

  function Run(reqs: seq<Request>): Tracker {
    if reqs == [] then Tracker(map[], []) else Advanced(Run(reqs[..|reqs| - 1]), reqs[|reqs| - 1])
  }

  /** `_load`: the records that a new process finds. */
  function Reload(log: seq<Entry>): map<Slot, Record> {
    if log == [] then map[] else Apply(Reload(log[..|log| - 1]), log[|log| - 1])
  }

  // ---- invariants ---------------------------------------------------------

  /** A record's transitions are the consecutive stages up to its own, each with the evidence its stage asks for. */
  ghost predicate Chained(log: seq<Entry>, k: Slot, r: Record) {
    && ValidIds(k) && |r.transitions| == Rank(r.stage) >= 1
    && r.updatedAt == r.transitions[|r.transitions| - 1].ts && r.evidence == r.transitions[|r.transitions| - 1].evidence
    && forall i :: 0 <= i < |r.transitions| ==>
         && r.transitions[i] in log && r.transitions[i].slot == k
         && Rank(r.transitions[i].source) == i && Rank(r.transitions[i].target) == i + 1
         && Required(r.transitions[i].target) <= r.transitions[i].evidence
  }

  predicate Reached(records: map<Slot, Record>, k: Slot, s: Stage) {
    k in records && Rank(records[k].stage) >= Rank(s)
  }

  ghost predicate OneProven(records: map<Slot, Record>) {
    forall a, b ::
      Reached(records, a, FounderProven) && Reached(records, b, FounderProven) && a.surface == b.surface ==> a == b
  }

  /** A second active principal presupposes a proven one. */
  ghost predicate SecondNeedsProven(records: map<Slot, Record>) {
    forall a, b :: Reached(records, a, Active) && Reached(records, b, Active) && a.surface == b.surface && a != b ==>
      exists c :: Reached(records, c, FounderProven) && c.surface == a.surface
  }

  /** Whoever first became active on a surface was alone there. */
  ghost predicate FirstActiveAlone(log: seq<Entry>, i: nat)
    requires i < |log|
  {
    (log[i].target == Active && forall j :: 0 <= j < i ==>
      !(log[j].target == Active && log[j].slot.surface == log[i].slot.surface)) ==>
      !HasSibling(Reload(log[..i]), log[i].slot)
  }

  ghost predicate Inv(t: Tracker) {
    && t.records == Reload(t.log)
    && (forall k {:trigger Chained(t.log, k, t.records[k])} :: k in t.records ==> Chained(t.log, k, t.records[k]))
    && OneProven(t.records)
    && SecondNeedsProven(t.records)
    && (forall i {:trigger FirstActiveAlone(t.log, i)} :: 0 <= i < |t.log| ==> FirstActiveAlone(t.log, i))
  }

  /** A longer log keeps the chains of the records that it does not touch. */
  lemma ChainStays(log: seq<Entry>, e: Entry, k: Slot, r: Record)
    requires Chained(log, k, r)
    ensures Chained(log + [e], k, r)
  {
    forall i | 0 <= i < |r.transitions|
      ensures r.transitions[i] in log + [e]
    {
      assert r.transitions[i] in log;
    }
  }

  /** The advanced record is chained. */
  lemma ChainGrows(t: Tracker, req: Request)
    requires Inv(t) && Allowed(t.records, req)
    ensures var t' := Advanced(t, req); Chained(t'.log, req.slot, t'.records[req.slot])
  {
    var (t', e) := (Advanced(t, req), NewEntry(t.records, req));
    assert t'.log[|t.log|] == e;
    if req.slot in t.records {
      assert Chained(t.log, req.slot, t.records[req.slot]);
      ChainStays(t.log, e, req.slot, t.records[req.slot]);
    }
  }

  lemma AdvanceChains(t: Tracker, req: Request)
    requires Inv(t) && Allowed(t.records, req)
    ensures var t' := Advanced(t, req);
            forall k {:trigger Chained(t'.log, k, t'.records[k])} :: k in t'.records ==>
            Chained(t'.log, k, t'.records[k])
    ensures Advanced(t, req).records == Reload(Advanced(t, req).log)
  {
    var (t', e) := (Advanced(t, req), NewEntry(t.records, req));
    assert t'.log[..|t.log|] == t.log;
    forall k | k in t'.records
      ensures Chained(t'.log, k, t'.records[k])
    {
      if k == req.slot {
        ChainGrows(t, req);
      } else {
        assert Chained(t.log, k, t.records[k]);
        ChainStays(t.log, e, k, t.records[k]);
      }
    }
  }

  lemma AdvanceGates(t: Tracker, req: Request)
    requires OneProven(t.records) && SecondNeedsProven(t.records) && Allowed(t.records, req)
    ensures OneProven(Advanced(t, req).records) && SecondNeedsProven(Advanced(t, req).records)
  {
    var (rs, rs', k) := (t.records, Advanced(t, req).records, req.slot);
    assert forall a, s :: a != k ==> (Reached(rs', a, s) <==> Reached(rs, a, s));
    assert forall s :: Reached(rs, k, s) ==> Reached(rs', k, s);
    forall a | Reached(rs, a, FounderProven) && a.surface == k.surface && a != k
      ensures HasProvenSibling(rs, k)
    {
      assert Sibling(rs, k, a);
    }
    forall a, b | Reached(rs', a, Active) && Reached(rs', b, Active) && a.surface == b.surface && a != b
      ensures exists c :: Reached(rs', c, FounderProven) && c.surface == a.surface
    {
      if Reached(rs, a, Active) && Reached(rs, b, Active) {
        var c :| Reached(rs, c, FounderProven) && c.surface == a.surface;
        assert Reached(rs', c, FounderProven);
      } else {
        var other := if a == k then b else a;
        assert Sibling(rs, k, other);
        var c :| c in rs && Sibling(rs, k, c) && rs[c].stage == FounderProven;
        assert Reached(rs', c, FounderProven);
      }
    }
  }

  /** A principal that becomes active beside another had a proven one, whose own activation is in the log. */
  lemma ActiveBefore(t: Tracker, k: Slot)
    requires Inv(t) && HasProvenSibling(t.records, k)
    ensures exists j :: 0 <= j < |t.log| && t.log[j].target == Active && t.log[j].slot.surface == k.surface
  {
    var c :| c in t.records && Sibling(t.records, k, c) && t.records[c].stage == FounderProven;
    assert Chained(t.log, c, t.records[c]);
    var e := t.records[c].transitions[2];
    assert e in t.log && e.target == Active && e.slot == c;
  }

  lemma AdvanceFirst(t: Tracker, req: Request)
    requires Inv(t) && Allowed(t.records, req)
    ensures var t' := Advanced(t, req);
            forall i {:trigger FirstActiveAlone(t'.log, i)} :: 0 <= i < |t'.log| ==> FirstActiveAlone(t'.log, i)
  {
    var (t', n) := (Advanced(t, req), |t.log|);
    assert t'.log[..n] == t.log;
    forall i | 0 <= i < |t'.log|
      ensures FirstActiveAlone(t'.log, i)
    {
      if i < n {
        assert FirstActiveAlone(t.log, i) && t'.log[..i] == t.log[..i];
      } else if t'.log[n].target == Active && HasSibling(t.records, req.slot) {
        ActiveBefore(t, req.slot);
        var j :| 0 <= j < n && t.log[j].target == Active && t.log[j].slot.surface == req.slot.surface;
        assert t'.log[j] == t.log[j];
      }
    }
  }

  lemma {:induction false} Reachable(reqs: seq<Request>)
    ensures Inv(Run(reqs))
    decreases |reqs|
  {
    if reqs != [] {
      var (t, req) := (Run(reqs[..|reqs| - 1]), reqs[|reqs| - 1]);
      Reachable(reqs[..|reqs| - 1]);
      if Allowed(t.records, req) {
        AdvanceChains(t, req);
        AdvanceGates(t, req);
        AdvanceFirst(t, req);
      }
    }
  }

  // ---- results ------------------------------------------------------------

  /**
    In every reachable state a surface has at most one founder-proven principal,
    and where two principals are active or beyond it has exactly one.
   */
  lemma {:induction false} SinglePrincipalGate(reqs: seq<Request>, a: Slot, b: Slot)
    requires a.surface == b.surface && a != b
    ensures var rs := Run(reqs).records; !(Reached(rs, a, FounderProven) && Reached(rs, b, FounderProven))
    ensures var rs := Run(reqs).records;
            Reached(rs, a, Active) && Reached(rs, b, Active) ==>
              exists c :: (Reached(rs, c, FounderProven) && c.surface == a.surface)
                          && forall d :: Reached(rs, d, FounderProven) && d.surface == a.surface ==> d == c
  {
    Reachable(reqs);
    var rs := Run(reqs).records;
    if Reached(rs, a, Active) && Reached(rs, b, Active) {
      var c :| Reached(rs, c, FounderProven) && c.surface == a.surface;
    }
  }

  /** The first principal to become active on a surface was then the only one with a record there. */
  lemma FirstActiveWasAlone(reqs: seq<Request>, i: nat)
    requires var log := Run(reqs).log; i < |log| && log[i].target == Active
    requires var log := Run(reqs).log;
             forall j :: 0 <= j < i ==> !(log[j].target == Active && log[j].slot.surface == log[i].slot.surface)
    ensures var log := Run(reqs).log; !HasSibling(Reload(log[..i]), log[i].slot)
  {
    Reachable(reqs);
    assert FirstActiveAlone(Run(reqs).log, i);
  }

  /**
    Each record holds the consecutive, evidenced stage chain up to its stage,
    and reloading the log rebuilds all records.
   */
  lemma RecordsAreChains(reqs: seq<Request>, k: Slot)
    requires k in Run(reqs).records
    ensures Chained(Run(reqs).log, k, Run(reqs).records[k]) && Reload(Run(reqs).log) == Run(reqs).records
  {
    Reachable(reqs);
    assert Chained(Run(reqs).log, k, Run(reqs).records[k]);
  }

  /** Evidence `key` was stored with the transition of this record into stage `s`. */
  ghost predicate Brought(r: Record, s: Stage, key: string) {
    exists i :: 0 <= i < |r.transitions| && r.transitions[i].target == s && key in r.transitions[i].evidence
  }

  /** What any record took to come about, by name: whose it may be, and what each stage behind it was shown. */
  lemma TakesByName(reqs: seq<Request>, k: Slot)
    requires k in Run(reqs).records
    ensures var r := Run(reqs).records[k];
            && k.surface == "living-mcp.mutation" && 1 <= |k.principal| <= 64
            && (forall i :: 0 <= i < |k.principal| ==> PlainChar(k.principal[i]))
            && Brought(r, Wired, "runtime_constructed") && Brought(r, Wired, "path_reachable")
            && (r.stage !in {Implemented, Wired} ==> Brought(r, Conformed, "canary_receipt"))
            && (r.stage in {Active, FounderProven} ==>
              Brought(r, Active, "config_enabled") && Brought(r, Active, "policy_eligible"))
            && (r.stage == FounderProven ==>
              Brought(r, FounderProven, "founder_acceptance") && Brought(r, FounderProven, "end_to_end_receipt"))
  {
    RecordsAreChains(reqs, k);
    NamesOfChain(Run(reqs).log, k, Run(reqs).records[k]);
  }

  lemma NamesOfChain(log: seq<Entry>, k: Slot, r: Record)
    requires Chained(log, k, r)
    ensures k.surface == "living-mcp.mutation" && 1 <= |k.principal| <= 64
    ensures forall i :: 0 <= i < |k.principal| ==> PlainChar(k.principal[i])
    ensures Brought(r, Wired, "runtime_constructed") && Brought(r, Wired, "path_reachable")
    ensures r.stage !in {Implemented, Wired} ==> Brought(r, Conformed, "canary_receipt")
    ensures r.stage in {Active, FounderProven} ==>
              Brought(r, Active, "config_enabled") && Brought(r, Active, "policy_eligible")
    ensures r.stage == FounderProven ==>
              Brought(r, FounderProven, "founder_acceptance") && Brought(r, FounderProven, "end_to_end_receipt")
  {
    StageShown(log, k, r, Wired);
    if r.stage !in {Implemented, Wired} { StageShown(log, k, r, Conformed); }
    if r.stage in {Active, FounderProven} { StageShown(log, k, r, Active); }
    if r.stage == FounderProven { StageShown(log, k, r, FounderProven); }
  }

  lemma StageShown(log: seq<Entry>, k: Slot, r: Record, s: Stage)
    requires Chained(log, k, r) && 1 <= Rank(s) <= Rank(r.stage)
    ensures forall key :: key in Required(s) ==> Brought(r, s, key)
  {
    var i := Rank(s) - 1;
    assert Rank(r.transitions[i].target) == Rank(s);
    assert r.transitions[i].target == s;
  }

  predicate PlainChar(c: char) {
    (c in "_.-") || ('0' <= c <= '9') || ('A' <= c <= 'Z') || ('a' <= c <= 'z')
  }

  /** The target is the next stage, and every piece of evidence that it asks for is brought and true. */
  ghost predicate NextStage(rs: map<Slot, Record>, req: Request) {
    && req.target.Some? && Rank(req.target.value) == 1 + (if req.slot in rs then Rank(rs[req.slot].stage) else 0)
    && forall key :: key in Required(req.target.value) ==> key in req.evidence && req.evidence[key]
  }

  /** Another principal on the same surface. */
  predicate Beside(k: Slot, other: Slot) {
    other.surface == k.surface && other.principal != k.principal
  }

  /**
    A request adds a transition exactly if its ids are valid, its stage is the next
    and evidenced, and no other principal is in the way: to be proven, none may be
    proven already; to be active, none may have a record unless one is proven.
   */
  lemma AdvancesIff(reqs: seq<Request>, req: Request)
    ensures var (t, t') := (Run(reqs), Advanced(Run(reqs), req)); var (rs, k) := (Run(reqs).records, req.slot);
            (t'.log != t.log <==>
               && ValidIds(k) && NextStage(rs, req)
               && (req.target == Some(FounderProven) ==>
                     forall other :: other in rs && Beside(k, other) ==> rs[other].stage != FounderProven)
               && (req.target == Some(Active) ==>
                     || (forall other :: other in rs ==> !Beside(k, other))
                     || exists other :: other in rs && Beside(k, other) && rs[other].stage == FounderProven))
    ensures Advanced(Run(reqs), req).log == Run(reqs).log ==> Advanced(Run(reqs), req) == Run(reqs)
  {
    var rs := Run(reqs).records;
    assert forall other :: other in rs ==> (Sibling(rs, req.slot, other) <==> Beside(req.slot, other));
  }

  /** The transition is what this request asked for, with the evidence it brought. */
  ghost predicate AskedFor(req: Request, e: Entry) {
    && e.slot == req.slot && req.target == Some(e.target) && Rank(e.target) == Rank(e.source) + 1
    && e.evidence == req.evidence.Keys && e.ts == req.ts && e.note == req.note
    && forall key :: key in Required(e.target) ==> key in req.evidence && req.evidence[key]
  }

  /** Over every run each transition in the log was asked for, in the order of the requests. */
  lemma {:induction false} TransitionsWereAskedFor(reqs: seq<Request>, i: nat)
    requires i < |Run(reqs).log|
    ensures exists n :: i <= n < |reqs| && AskedFor(reqs[n], Run(reqs).log[i])
    decreases |reqs|
  {
    var (front, req) := (reqs[..|reqs| - 1], reqs[|reqs| - 1]);
    if i < |Run(front).log| {
      TransitionsWereAskedFor(front, i);
      var n :| i <= n < |front| && AskedFor(front[n], Run(front).log[i]);
      assert reqs[n] == front[n];
    } else {
      LogIsShort(front);
      assert AskedFor(reqs[|reqs| - 1], Run(reqs).log[i]);
    }
  }

  lemma {:induction false} LogIsShort(reqs: seq<Request>)
    ensures |Run(reqs).log| <= |reqs|
    decreases |reqs|
  {
    if reqs != [] { LogIsShort(reqs[..|reqs| - 1]); }
  }

  /** Two principals on a surface, neither of them active yet. */
  ghost predicate Stalled(rs: map<Slot, Record>, surface: string) {
    && (exists a, b :: a in rs && b in rs && a.surface == b.surface == surface && a != b)
    && forall k: Slot :: k.surface == surface ==> !Reached(rs, k, Active)
  }

  /** From there the gate never lets anyone on that surface become active, whatever evidence is brought. */
  lemma {:induction false} StalledForever(reqs: seq<Request>, more: seq<Request>, surface: string)
    requires Stalled(Run(reqs).records, surface)
    ensures Stalled(Run(reqs + more).records, surface)
    decreases |more|
  {
    if more == [] {
      assert reqs + more == reqs;
    } else {
      var (front, req) := (more[..|more| - 1], more[|more| - 1]);
      assert (reqs + more)[..|reqs + more| - 1] == reqs + front && (reqs + more)[|reqs + more| - 1] == req;
      StalledForever(reqs, front, surface);
      StalledStep(Run(reqs + front), req, surface);
    }
  }

  lemma StalledStep(t: Tracker, req: Request, surface: string)
    requires Stalled(t.records, surface)
    ensures Stalled(Advanced(t, req).records, surface)
  {
    var (rs, rs') := (t.records, Advanced(t, req).records);
    var a, b :| a in rs && b in rs && a.surface == b.surface == surface && a != b;
    assert a in rs' && b in rs';
    StalledBlocks(rs, req, surface);
    forall k: Slot | k.surface == surface
      ensures !Reached(rs', k, Active)
    {
      assert !Reached(rs, k, Active);
    }
  }

  lemma StalledBlocks(rs: map<Slot, Record>, req: Request, surface: string)
    requires Stalled(rs, surface)
    ensures req.slot.surface == surface && req.target == Some(Active) ==> !Allowed(rs, req)
  {
    var a, b :| a in rs && b in rs && a.surface == b.surface == surface && a != b;
    var other := if a != req.slot then a else b;
    assert req.slot.surface == surface ==> Sibling(rs, req.slot, other);
    forall c | c in rs && c.surface == surface
      ensures rs[c].stage != FounderProven
    {
      assert !Reached(rs, c, Active);
    }
  }

  /** A request with all the evidence that its stage asks for. */
  function Ask(k: Slot, target: Stage): Request {
    Request(k, Some(target), map key | key in Required(target) :: true, "", None)
  }

  /** Two principals that begin on a surface one after the other are stalled already. */
  lemma TwoBeginnersStall(a: Slot, b: Slot)
    requires ValidIds(a) && ValidIds(b) && a.surface == b.surface && a != b
    ensures Stalled(Run([Ask(a, Wired), Ask(b, Wired)]).records, a.surface)
  {
    var (x, y) := (Ask(a, Wired), Ask(b, Wired));
    RunSnoc([], x); RunSnoc([x], y);
    assert [] + [x] == [x] && [x] + [y] == [x, y];
    var rs := Run([x]).records;
    assert Allowed(map[], x) && rs.Keys == {a} && rs[a].stage == Wired;
    assert Allowed(rs, y);
    var rs' := Run([x, y]).records;
    assert rs'.Keys == {a, b} && rs'[a].stage == Wired && rs'[b].stage == Wired;
  }

  lemma RunSnoc(reqs: seq<Request>, req: Request)
    ensures Run(reqs + [req]) == Advanced(Run(reqs), req)
  {
    assert (reqs + [req])[..|reqs|] == reqs;
  }

  function Next(s: Stage): Stage
    requires Rank(s) < 3
  {
    match s case Implemented => Wired case Wired => Conformed case Conformed => Active
  }

  /** A principal alone on its surface can take the next step, and stays alone. */
  lemma AloneAdvances(t: Tracker, k: Slot)
    requires ValidIds(k) && !HasSibling(t.records, k) && Rank(StageOf(t.records, k)) < 3
    ensures var t' := Advanced(t, Ask(k, Next(StageOf(t.records, k))));
            k in t'.records && t'.records[k].stage == Next(StageOf(t.records, k)) && !HasSibling(t'.records, k)
  {
    var req := Ask(k, Next(StageOf(t.records, k)));
    assert !HasProvenSibling(t.records, k);
    assert Allowed(t.records, req);
    forall other | other in Advanced(t, req).records
      ensures !Sibling(Advanced(t, req).records, k, other)
    {
      assert other in t.records ==> !Sibling(t.records, k, other);
    }
  }

  lemma AloneBecomesActive(reqs: seq<Request>, k: Slot) returns (more: seq<Request>)
    requires ValidIds(k) && !HasSibling(Run(reqs).records, k) && Rank(StageOf(Run(reqs).records, k)) < 3
    ensures Reached(Run(reqs + more).records, k, Active)
    decreases 3 - Rank(StageOf(Run(reqs).records, k))
  {
    var stage := Next(StageOf(Run(reqs).records, k));
    var req := Ask(k, stage);
    RunSnoc(reqs, req);
    AloneAdvances(Run(reqs), k);
    if stage == Active {
      more := [req];
    } else {
      var rest := AloneBecomesActive(reqs + [req], k);
      more := [req] + rest;
      assert reqs + more == reqs + [req] + rest;
    }
  }

  /** Without a stall, and with nobody active yet, some principal of the surface has it for itself. */
  lemma SomeoneIsAlone(reqs: seq<Request>, surface: string) returns (k: Slot)
    requires surface in KNOWN_SURFACES && !Stalled(Run(reqs).records, surface)
    requires forall k: Slot :: k.surface == surface ==> !Reached(Run(reqs).records, k, Active)
    ensures k.surface == surface && ValidIds(k) && !HasSibling(Run(reqs).records, k)
            && Rank(StageOf(Run(reqs).records, k)) < 3
  {
    var rs := Run(reqs).records;
    if a :| a in rs && a.surface == surface {
      k := a;
      Reachable(reqs);
      assert Chained(Run(reqs).log, a, rs[a]);
      assert !Reached(rs, a, Active);
    } else {
      k := Slot(surface, "p");
    }
  }

  /**
    As long as nobody on a surface is active, someone there can still become
    so exactly when the surface is not stalled.
   */
  lemma {:induction false} ActivationPossibleIff(reqs: seq<Request>, surface: string)
    requires surface in KNOWN_SURFACES
    requires forall k: Slot :: k.surface == surface ==> !Reached(Run(reqs).records, k, Active)
    ensures (exists more, k: Slot :: k.surface == surface && Reached(Run(reqs + more).records, k, Active)) <==>
            !Stalled(Run(reqs).records, surface)
  {
    if Stalled(Run(reqs).records, surface) {
      forall more, k: Slot | k.surface == surface
        ensures !Reached(Run(reqs + more).records, k, Active)
      {
        StalledForever(reqs, more, surface);
      }
    } else {
      var k := SomeoneIsAlone(reqs, surface);
      var more := AloneBecomesActive(reqs, k);
      assert k.surface == surface && Reached(Run(reqs + more).records, k, Active);
    }
  }

  // ---- the tracker object -------------------------------------------------

  class CapabilityLifecycle {
    var records: map<Slot, Record>
    var log: seq<Entry>

    ghost function View(): Tracker reads this { Tracker(records, log) }

    /** A new process on an existing log file. */
    constructor (file: seq<Entry>)
      ensures records == Reload(file) && log == file
    {
      records, log := map[], file;
      new;
      for i := 0 to |file|
        invariant log == file && records == Reload(file[..i])
      {
        assert file[..i + 1][..i] == file[..i];
        records := Apply(records, file[i]);
      }
      assert file[..|file|] == file;
    }

    /** `advance`; false stands for the ValueError or CapabilityLifecycleBlocked it raises. */
    method Advance(req: Request) returns (ok: bool)
      modifies this
      ensures View() == Advanced(old(View()), req)
      ensures ok <==> Allowed(old(records), req)
    {
      if !ValidIds(req.slot) || req.target.None? { return false; }
      var target := req.target.value;
      var current := if req.slot in records then records[req.slot].stage else Implemented;
      if target == current || target == Implemented { return false; }
      if Rank(current) != Rank(target) - 1 { return false; }
      if !Evidenced(target, req.evidence) { return false; }
      var siblings := set k | k in records && k.surface == req.slot.surface && k.principal != req.slot.principal;
      var proven := set k | k in siblings && records[k].stage == FounderProven;
      assert forall k :: k in siblings <==> k in records && Sibling(records, req.slot, k);
      assert forall k :: k in proven <==>
          k in records && Sibling(records, req.slot, k) && records[k].stage == FounderProven;
      if target == FounderProven && proven != {} { return false; }
      if siblings != {} && target == Active && proven == {} { return false; }
      var e := Entry(req.slot, current, target, req.evidence.Keys, req.ts, req.note);
      var history := if req.slot in records then records[req.slot].transitions else [];
      records := records[req.slot := Record(target, req.ts, req.evidence.Keys, history + [e])];
      log := log + [e];
      ok := true;
    }
  }
}
