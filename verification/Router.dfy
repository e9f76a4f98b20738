/**
  The capability router: candidates are built from active skills and runtime
  profiles, ranked by a stable sort, and executed in that order until a result,
  a pending approval or the attempt budget ends the fallback.
 */
module Router {
  import opened Prelude
  import opened Proposals
  import opened Schemas

  datatype Policy = Policy(
    maximumAttempts: int, successWeight: real, healthyRuntime: bool, allFeatures: bool, allSideEffects: bool,
    checkInput: bool, fallback: bool, stopOnPending: bool, operation: string)

  /** `usages` tells of each recorded use whether it succeeded. */
  datatype Skill = Skill(
    id: string, name: string, active: bool, capabilities: set<string>, schema: Schema,
    requirements: set<string>, sideEffects: set<string>, usages: seq<bool>)

  datatype Profile = Profile(adapter: string, healthy: bool, operations: set<string>, features: set<string>,
    sideEffects: set<string>, priority: int)

  datatype Requirement = Requirement(capability: string, arguments: Value, features: set<string>, allowed: set<string>,
    allowFallback: bool)

  datatype Blocker =
    | Unhealthy
    | NoOperation
    | MissingFeatures(features: set<string>)
    | UnsupportedEffects(effects: set<string>)
    | DisallowedEffects(effects: set<string>)

  datatype Candidate = Candidate(skill: string, name: string, adapter: string, score: real, blockers: seq<Blocker>)

  datatype Status = Selected | PendingApproval | Completed | FallbackCompleted | Blocked | NotFound | Failed

  datatype Decision = Decision(status: Status, candidates: seq<Candidate>, selected: Option<Candidate>)

  // ---- candidates ---------------------------------------------------------

  function Blockers(p: Policy, s: Skill, q: Requirement, r: Profile): seq<Blocker> {
    var missing := (q.features + s.requirements) - r.features;
    var unsupported := s.sideEffects - r.sideEffects;
    var disallowed := s.sideEffects - q.allowed;
    var b1 := if p.healthyRuntime && !r.healthy then [Unhealthy] else [];
    var b2 := if p.operation !in r.operations then b1 + [NoOperation] else b1;
    var b3 := if missing != {} && p.allFeatures then b2 + [MissingFeatures(missing)] else b2;
    var b4 := if unsupported != {} && p.allSideEffects then b3 + [UnsupportedEffects(unsupported)] else b3;
    if q.allowed != {} && disallowed != {} then b4 + [DisallowedEffects(disallowed)] else b4
  }

  function Successes(usages: seq<bool>): nat {
    if usages == [] then 0 else Successes(usages[1..]) + if usages[0] then 1 else 0
  }

  function Score(p: Policy, s: Skill, r: Profile): real {
    var rate := if s.usages == [] then 0.5 else Successes(s.usages) as real / |s.usages| as real;
    1.0 + rate * p.successWeight - r.priority as real / 100000.0
  }

  function Offer(p: Policy, s: Skill, q: Requirement, r: Profile): Candidate {
    Candidate(s.id, s.name, r.adapter, Score(p, s, r), Blockers(p, s, q, r))
  }

  predicate Provides(s: Skill, q: Requirement) {
    s.active && Stripped(q.capability) in s.capabilities
  }

  predicate Accepts(p: Policy, s: Skill, q: Requirement) {
    Provides(s, q) && (p.checkInput ==> Validate(q.arguments, s.schema, []) == [])
  }

  function Stripped(s: string): string {
    if s != [] && IsSpace(s[0]) then Stripped(s[1..])
    else if s != [] && IsSpace(s[|s| - 1]) then Stripped(s[..|s| - 1])
    else s
  }

  function SkillOffers(p: Policy, s: Skill, q: Requirement, profiles: seq<Profile>): seq<Candidate> {
    seq(|profiles|, i requires 0 <= i < |profiles| => Offer(p, s, q, profiles[i]))
  }

  function Offers(p: Policy, skills: seq<Skill>, q: Requirement, profiles: seq<Profile>): seq<Candidate> {
    if skills == [] then []
    else
      var (front, s) := (skills[..|skills| - 1], skills[|skills| - 1]);
      if Accepts(p, s, q) then Offers(p, front, q, profiles) + SkillOffers(p, s, q, profiles)
        else Offers(p, front, q, profiles)
  }

  // ---- the ranking ----------------------------------------------------------

  predicate Open(c: Candidate) { c.blockers == [] }

  /** `a` comes strictly before `b`: compatible first, then the higher score, then name, then id. */
  predicate Ahead(a: Candidate, b: Candidate) {
    if Open(a) != Open(b) then Open(a)
    else if a.score != b.score then a.score > b.score
    else if a.name != b.name then TextLe(a.name, b.name)
    else a.skill != b.skill && TextLe(a.skill, b.skill)
  }

  predicate Tied(a: Candidate, b: Candidate) {
    !Ahead(a, b) && !Ahead(b, a)
  }

  function Insert(c: Candidate, ranked: seq<Candidate>): seq<Candidate> {
    if ranked == [] || !Ahead(ranked[0], c) then [c] + ranked else [ranked[0]] + Insert(c, ranked[1..])
  }

  /** Python's stable sort. */
  function Rank(cs: seq<Candidate>): seq<Candidate> {
    if cs == [] then [] else Insert(cs[0], Rank(cs[1..]))
  }

  ghost predicate Ranked(cs: seq<Candidate>) {
    forall i, j :: 0 <= i < j < |cs| ==> !Ahead(cs[j], cs[i])
  }

  lemma RankTransitive(a: Candidate, b: Candidate, c: Candidate)
    requires !Ahead(b, a) && !Ahead(c, b)
    ensures !Ahead(c, a)
  {
    TextLeTotal(a.name, b.name); TextLeTotal(b.name, c.name); TextLeTotal(a.name, c.name);
    TextLeTotal(a.skill, b.skill); TextLeTotal(b.skill, c.skill); TextLeTotal(a.skill, c.skill);
    if TextLe(a.name, b.name) && TextLe(b.name, c.name) { TextLeTransitive(a.name, b.name, c.name); }
    if TextLe(a.skill, b.skill) && TextLe(b.skill, c.skill) { TextLeTransitive(a.skill, b.skill, c.skill); }
  }

  lemma AheadAsymmetric(a: Candidate, b: Candidate)
    ensures !(Ahead(a, b) && Ahead(b, a))
  {
    TextLeTotal(a.name, b.name); TextLeTotal(a.skill, b.skill);
  }

  lemma {:induction false} InsertKeeps(c: Candidate, cs: seq<Candidate>)
    ensures multiset(Insert(c, cs)) == multiset(cs) + multiset{c}
  {
    if cs != [] && Ahead(cs[0], c) {
      InsertKeeps(c, cs[1..]);
      assert cs == [cs[0]] + cs[1..];
    }
  }

  lemma {:induction false} InsertRanked(c: Candidate, cs: seq<Candidate>)
    requires Ranked(cs)
    ensures Ranked(Insert(c, cs))
  {
    if cs == [] {
    } else if !Ahead(cs[0], c) {
      forall j | 0 <= j < |cs| ensures !Ahead(cs[j], c) { RankTransitive(c, cs[0], cs[j]); }
    } else {
      var rest := Insert(c, cs[1..]);
      InsertRanked(c, cs[1..]);
      InsertKeeps(c, cs[1..]);
      AheadAsymmetric(cs[0], c);
      forall j | 0 <= j < |rest| ensures !Ahead(rest[j], cs[0]) {
        assert rest[j] in multiset(cs[1..]) + multiset{c};
      }
    }
  }

  /** The candidates tied with `like`, in their order. */
  function Ties(cs: seq<Candidate>, like: Candidate): seq<Candidate> {
    if cs == [] then []
    else if Tied(cs[0], like) then [cs[0]] + Ties(cs[1..], like) else Ties(cs[1..], like)
  }

  lemma {:induction false} InsertStable(c: Candidate, cs: seq<Candidate>, like: Candidate)
    ensures Ties(Insert(c, cs), like) == Ties([c] + cs, like)
  {
    assert ([c] + cs)[1..] == cs;
    if cs != [] && Ahead(cs[0], c) {
      InsertStable(c, cs[1..], like);
      assert ([c] + cs[1..])[1..] == cs[1..] && Insert(c, cs)[1..] == Insert(c, cs[1..]);
      if Tied(cs[0], like) && Tied(c, like) {
        RankTransitive(c, like, cs[0]);
      }
    }
  }

  /** The ranking is sorted, loses and invents nothing, and keeps the order of tied candidates. */
  lemma {:induction false} RankSorts(cs: seq<Candidate>, like: Candidate)
    ensures Ranked(Rank(cs)) && multiset(Rank(cs)) == multiset(cs) && Ties(Rank(cs), like) == Ties(cs, like)
  {
    if cs != [] {
      RankSorts(cs[1..], like);
      InsertRanked(cs[0], Rank(cs[1..]));
      InsertKeeps(cs[0], Rank(cs[1..]));
      InsertStable(cs[0], Rank(cs[1..]), like);
      assert cs == [cs[0]] + cs[1..] && ([cs[0]] + Rank(cs[1..]))[1..] == Rank(cs[1..]);
    }
  }

  lemma {:induction false} TiesAreMembers(cs: seq<Candidate>, like: Candidate)
    ensures forall c :: c in Ties(cs, like) ==> c in cs
  {
    if cs != [] { TiesAreMembers(cs[1..], like); }
  }

  /** The first of one ranking is not ahead of the first of another with the same ties. */
  lemma FirstNotBeaten(a: seq<Candidate>, b: seq<Candidate>)
    requires Ranked(b) && a != [] && Ties(a, a[0]) == Ties(b, a[0])
    ensures b != [] && !Ahead(a[0], b[0])
  {
    assert Ties(a, a[0])[0] == a[0];
    TiesAreMembers(b, a[0]);
    assert a[0] in b;
  }

  /** No other list is sorted and keeps the ties of the given one: the ranking is determined. */
  lemma {:induction false} RankUnique(a: seq<Candidate>, b: seq<Candidate>)
    requires Ranked(a) && Ranked(b) && forall like :: Ties(a, like) == Ties(b, like)
    ensures a == b
  {
    if a != [] { FirstNotBeaten(a, b); }
    if b != [] { FirstNotBeaten(b, a); }
    if a != [] {
      assert Ties(a, a[0])[0] == a[0] && Ties(b, a[0])[0] == b[0];
      forall like
        ensures Ties(a[1..], like) == Ties(b[1..], like)
      {
        assert Ties(a, like) == Ties(b, like);
        if Tied(a[0], like) {
          assert Ties(a, like)[1..] == Ties(a[1..], like) && Ties(b, like)[1..] == Ties(b[1..], like);
        }
      }
      RankUnique(a[1..], b[1..]);
      assert a == [a[0]] + a[1..] && b == [b[0]] + b[1..];
    }
  }

  // ---- route ----------------------------------------------------------------

  /**
    The runtime has everything the skill and the requirement ask for, and the
    skill asks for nothing that is not allowed.
   */
  ghost predicate Fits(p: Policy, s: Skill, q: Requirement, r: Profile) {
    && (p.healthyRuntime ==> r.healthy)
    && p.operation in r.operations
    && (p.allFeatures ==> q.features <= r.features && s.requirements <= r.features)
    && (p.allSideEffects ==> s.sideEffects <= r.sideEffects)
    && (q.allowed != {} ==> s.sideEffects <= q.allowed)
  }

  lemma NoBlockersIffFits(p: Policy, s: Skill, q: Requirement, r: Profile)
    ensures Blockers(p, s, q, r) == [] <==> Fits(p, s, q, r)
  {
    EmptyDifference(q.features + s.requirements, r.features);
    EmptyDifference(s.sideEffects, r.sideEffects);
    EmptyDifference(s.sideEffects, q.allowed);
  }

  lemma EmptyDifference(a: set<string>, b: set<string>)
    ensures a - b == {} <==> a <= b
  {
    if a - b == {} {
      forall x | x in a ensures x in b { assert x !in a - b; }
    }
  }

  /**
    Skill `i` can serve the requirement on profile `j`: it is active, provides
    the capability, its schema takes the input, and it fits.
   */
  ghost predicate Serves(p: Policy, skills: seq<Skill>, q: Requirement, profiles: seq<Profile>, i: int, j: int) {
    && 0 <= i < |skills| && 0 <= j < |profiles|
    && skills[i].active && Stripped(q.capability) in skills[i].capabilities
    && (p.checkInput ==> Conforms(q.arguments, skills[i].schema))
    && Fits(p, skills[i], q, profiles[j])
  }

  ghost predicate OfferedAt(p: Policy, skills: seq<Skill>, q: Requirement, profiles: seq<Profile>, c: Candidate, i: int,
    j: int) {
    0 <= i < |skills| && 0 <= j < |profiles| && Accepts(p, skills[i], q) && c == Offer(p, skills[i], q, profiles[j])
  }

  lemma {:induction false} OffersExact(p: Policy, skills: seq<Skill>, q: Requirement, profiles: seq<Profile>,
    c: Candidate)
    ensures c in Offers(p, skills, q, profiles) <==> exists i, j :: OfferedAt(p, skills, q, profiles, c, i, j)
  {
    if skills != [] {
      var (front, s) := (skills[..|skills| - 1], skills[|skills| - 1]);
      OffersExact(p, front, q, profiles, c);
      if i, j :| OfferedAt(p, front, q, profiles, c, i, j) { assert OfferedAt(p, skills, q, profiles, c, i, j); }
      if i, j :| OfferedAt(p, skills, q, profiles, c, i, j) {
        if i < |front| {
          assert OfferedAt(p, front, q, profiles, c, i, j);
        } else {
          assert SkillOffers(p, s, q, profiles)[j] == c;
        }
      }
      if Accepts(p, s, q) && c in SkillOffers(p, s, q, profiles) {
        var j :| 0 <= j < |profiles| && SkillOffers(p, s, q, profiles)[j] == c;
        assert OfferedAt(p, skills, q, profiles, c, |front|, j);
      }
    }
  }

  function Compatible(cs: seq<Candidate>): seq<Candidate> {
    if cs == [] then [] else if Open(cs[0]) then [cs[0]] + Compatible(cs[1..]) else Compatible(cs[1..])
  }

  /** Compatible candidates come first, so filtering a ranking cuts it. */
  lemma {:induction false} CompatibleIsPrefix(cs: seq<Candidate>)
    requires Ranked(cs)
    ensures Compatible(cs) <= cs && (forall c :: c in cs && Open(c) ==> c in Compatible(cs))
            && forall c :: c in Compatible(cs) ==> Open(c)
    ensures forall i :: |Compatible(cs)| <= i < |cs| ==> !Open(cs[i])
  {
    if cs != [] {
      CompatibleIsPrefix(cs[1..]);
      assert forall i :: 1 <= i < |cs| ==> cs[i] == cs[1..][i - 1];
      if !Open(cs[0]) {
        forall i | 0 < i < |cs|
          ensures !Open(cs[i])
        {
          assert !Ahead(cs[i], cs[0]);
        }
        assert forall c :: c in Compatible(cs[1..]) ==> c in cs;
        assert Compatible(cs[1..]) == [];
      }
    }
  }

  /** The share of recorded uses that succeeded; one half without any. */
  ghost function Rate(s: Skill): real {
    if s.usages == [] then 0.5 else |Good(s.usages)| as real / |s.usages| as real
  }

  ghost function Good(usages: seq<bool>): set<int> {
    set i | 0 <= i < |usages| && usages[i]
  }

  ghost function Worth(p: Policy, s: Skill, r: Profile): real {
    1.0 + Rate(s) * p.successWeight - r.priority as real / 100000.0
  }

  lemma {:induction false} SuccessesSnoc(usages: seq<bool>, last: bool)
    ensures Successes(usages + [last]) == Successes(usages) + if last then 1 else 0
    decreases |usages|
  {
    if usages != [] {
      assert (usages + [last])[1..] == usages[1..] + [last];
      SuccessesSnoc(usages[1..], last);
    }
  }

  lemma {:induction false} SuccessesAreGood(usages: seq<bool>)
    ensures Successes(usages) == |Good(usages)|
    decreases |usages|
  {
    if usages == [] {
      assert Good(usages) == {};
    } else {
      var n := |usages| - 1;
      SuccessesAreGood(usages[..n]);
      SuccessesSnoc(usages[..n], usages[n]);
      assert usages == usages[..n] + [usages[n]];
      assert Good(usages) == if usages[n] then Good(usages[..n]) + {n} else Good(usages[..n]);
    }
  }

  /** What an offer is worth, and whose it is. */
  lemma ScoreMeans(p: Policy, s: Skill, q: Requirement, r: Profile)
    ensures var c := Offer(p, s, q, r);
            c.score == Worth(p, s, r) && c.skill == s.id && c.name == s.name && c.adapter == r.adapter
  {
    SuccessesAreGood(s.usages);
  }

  /** The first of two offers is worth no less, and in a draw has the name, or else the id, that comes no later. */
  ghost predicate NotBehind(p: Policy, s: Skill, r: Profile, t: Skill, u: Profile) {
    && Worth(p, s, r) >= Worth(p, t, u)
    && (Worth(p, s, r) == Worth(p, t, u) ==> TextLe(s.name, t.name) && (s.name == t.name ==> TextLe(s.id, t.id)))
  }

  /**
    The selected candidate is the offer of skill `i` on profile `j`, which serves;
    no serving offer is before it; on its profile no serving skill has a higher
    success rate, if rates weigh at all; and no profile that serves with the same
    skill has a lower priority number.
   */
  ghost predicate Chosen(
    p: Policy, skills: seq<Skill>, q: Requirement, profiles: seq<Profile>, c: Candidate, i: int, j: int)
  {
    && Serves(p, skills, q, profiles, i, j) && c.skill == skills[i].id && c.name == skills[i].name
    && c.adapter == profiles[j].adapter && c.score == Worth(p, skills[i], profiles[j])
    && (forall n, m :: Serves(p, skills, q, profiles, n, m) ==>
          NotBehind(p, skills[i], profiles[j], skills[n], profiles[m]))
    && (forall n :: Serves(p, skills, q, profiles, n, j) && p.successWeight > 0.0 ==>
      Rate(skills[n]) <= Rate(skills[i]))
    && (forall m :: Serves(p, skills, q, profiles, i, m) ==> profiles[j].priority <= profiles[m].priority)
  }

  /** Stripping takes the surrounding white space away, and nothing else. */
  lemma {:induction false} StrippedMeans(s: string) returns (before: string, after: string)
    ensures Surrounds(s, Stripped(s), before, after)
    decreases |s|
  {
    before, after := "", "";
    if s != [] && IsSpace(s[0]) {
      before, after := StrippedMeans(s[1..]);
      SpaceBefore(s[0], s[1..], Stripped(s), before, after);
      before := [s[0]] + before;
    } else if s != [] && IsSpace(s[|s| - 1]) {
      before, after := StrippedMeans(s[..|s| - 1]);
      SpaceBehind(s[|s| - 1], s[..|s| - 1], Stripped(s), before, after);
      after := after + [s[|s| - 1]];
    }
  }

  /** The text is its core with white space before and behind, and the core has none at its ends. */
  ghost predicate Surrounds(s: string, core: string, before: string, after: string) {
    && s == before + core + after && Blank(before) && Blank(after)
    && (core != "" ==> !IsSpace(core[0]) && !IsSpace(core[|core| - 1]))
  }

  lemma SpaceBefore(c: char, s: string, core: string, before: string, after: string)
    requires Surrounds(s, core, before, after) && IsSpace(c)
    ensures Surrounds([c] + s, core, [c] + before, after)
  {
  }

  lemma SpaceBehind(c: char, s: string, core: string, before: string, after: string)
    requires Surrounds(s, core, before, after) && IsSpace(c)
    ensures Surrounds(s + [c], core, before, after + [c])
  {
  }

  /**
    A decision selects exactly when some skill serves, and then the best offer
    there is, the first compatible one of the ranking.
   */
  ghost predicate Sound(d: Decision, p: Policy, skills: seq<Skill>, q: Requirement, profiles: seq<Profile>) {
    && (d.status == Selected <==> Stripped(q.capability) != "" && exists i, j :: Serves(p, skills, q, profiles, i, j))
    && (d.status == Selected <==> d.selected.Some?)
    && (d.selected.Some? ==>
      Open(d.selected.value) && exists i, j :: OfferedAt(p, skills, q, profiles, d.selected.value, i, j))
    && (d.selected.Some? ==>
          forall i, j :: Serves(p, skills, q, profiles, i, j) ==>
            !Ahead(Offer(p, skills[i], q, profiles[j]), d.selected.value))
    && Ranked(d.candidates)
    && d.selected == (if Compatible(d.candidates) == [] then None else Some(Compatible(d.candidates)[0]))
    && (d.selected.Some? ==> exists i, j :: Chosen(p, skills, q, profiles, d.selected.value, i, j))
  }

  lemma SelectionIsChosen(d: Decision, p: Policy, skills: seq<Skill>, q: Requirement, profiles: seq<Profile>, i: int,
    j: int)
    requires d.selected.Some? && Serves(p, skills, q, profiles, i, j)
    requires OfferedAt(p, skills, q, profiles, d.selected.value, i, j)
    requires forall n, m :: Serves(p, skills, q, profiles, n, m) ==>
               !Ahead(Offer(p, skills[n], q, profiles[m]), d.selected.value)
    ensures Chosen(p, skills, q, profiles, d.selected.value, i, j)
  {
    ScoreMeans(p, skills[i], q, profiles[j]);
    forall n, m | Serves(p, skills, q, profiles, n, m)
      ensures NotBehind(p, skills[i], profiles[j], skills[n], profiles[m])
      ensures n == i ==> profiles[j].priority <= profiles[m].priority
      ensures m == j && p.successWeight > 0.0 ==> Rate(skills[n]) <= Rate(skills[i])
    {
      NotAheadMeans(p, q, skills[i], profiles[j], skills[n], profiles[m]);
    }
  }

  lemma NotAheadMeans(p: Policy, q: Requirement, s: Skill, r: Profile, t: Skill, u: Profile)
    requires Fits(p, s, q, r) && Fits(p, t, q, u) && !Ahead(Offer(p, t, q, u), Offer(p, s, q, r))
    ensures NotBehind(p, s, r, t, u)
    ensures s == t ==> r.priority <= u.priority
    ensures r == u && p.successWeight > 0.0 ==> Rate(t) <= Rate(s)
  {
    NoBlockersIffFits(p, s, q, r); NoBlockersIffFits(p, t, q, u);
    ScoreMeans(p, s, q, r); ScoreMeans(p, t, q, u);
    TextLeTotal(s.name, t.name); TextLeTotal(s.id, t.id);
    TextLeReflexive(s.id);
    if r == u && p.successWeight > 0.0 && Rate(t) > Rate(s) { Stretch(Rate(s), Rate(t), p.successWeight); }
  }

  lemma Stretch(a: real, b: real, w: real)
    requires a < b && w > 0.0
    ensures a * w < b * w
  {
  }

  lemma SelectionIsSound(d: Decision, p: Policy, skills: seq<Skill>, q: Requirement, profiles: seq<Profile>)
    requires d.candidates == Rank(Offers(p, skills, q, profiles)) && Stripped(q.capability) != ""
    requires var open := Compatible(d.candidates);
             if open == [] then d.status != Selected && d.selected == None
               else d.status == Selected && d.selected == Some(open[0])
    ensures Sound(d, p, skills, q, profiles)
  {
    var offers := Offers(p, skills, q, profiles);
    RankOf(offers);
    var open := Compatible(d.candidates);
    CompatibleIsPrefix(d.candidates);
    forall i, j | Serves(p, skills, q, profiles, i, j)
      ensures open != [] && !Ahead(Offer(p, skills[i], q, profiles[j]), open[0])
    {
      var c := Offer(p, skills[i], q, profiles[j]);
      NoErrorsIffConforms(q.arguments, skills[i].schema, []);
      NoBlockersIffFits(p, skills[i], q, profiles[j]);
      assert OfferedAt(p, skills, q, profiles, c, i, j);
      OffersExact(p, skills, q, profiles, c);
      assert c in d.candidates && Open(c);
    }
    if open != [] {
      assert open[0] == d.candidates[0];
      OffersExact(p, skills, q, profiles, open[0]);
      var i, j :| OfferedAt(p, skills, q, profiles, open[0], i, j);
      NoErrorsIffConforms(q.arguments, skills[i].schema, []);
      NoBlockersIffFits(p, skills[i], q, profiles[j]);
      assert Serves(p, skills, q, profiles, i, j);
      SelectionIsChosen(d, p, skills, q, profiles, i, j);
    }
  }

  lemma RankOf(cs: seq<Candidate>)
    ensures Ranked(Rank(cs)) && forall c :: c in Rank(cs) <==> c in cs
  {
    RankSorts(cs, Candidate("", "", "", 0.0, []));
    forall c
      ensures c in Rank(cs) <==> c in cs
    {
      assert c in Rank(cs) <==> c in multiset(Rank(cs));
    }
  }

  /** The inner loop: one candidate per runtime profile. */
  method OfferAll(p: Policy, s: Skill, profiles: seq<Profile>, q: Requirement) returns (offers: seq<Candidate>)
    ensures offers == SkillOffers(p, s, q, profiles)
  {
    offers := [];
    for j := 0 to |profiles|
      invariant offers == SkillOffers(p, s, q, profiles)[..j]
    {
      offers := offers + [Offer(p, s, q, profiles[j])];
    }
  }

  /** The loop over the records. */
  method Collect(p: Policy, skills: seq<Skill>, profiles: seq<Profile>,
    q: Requirement) returns (candidates: seq<Candidate>, rejected: bool)
    ensures candidates == Offers(p, skills, q, profiles)
    ensures rejected <==> exists k :: 0 <= k < |skills| && Provides(skills[k], q) && !Accepts(p, skills[k], q)
  {
    candidates, rejected := [], false;
    for i := 0 to |skills|
      invariant candidates == Offers(p, skills[..i], q, profiles)
      invariant rejected <==> exists k :: 0 <= k < i && Provides(skills[k], q) && !Accepts(p, skills[k], q)
    {
      assert skills[..i + 1][..i] == skills[..i];
      if !Provides(skills[i], q) { continue; }
      var errors := Validate(q.arguments, skills[i].schema, []);
      if errors != [] && p.checkInput {
        rejected := true;
        continue;
      }
      var offers := OfferAll(p, skills[i], profiles, q);
      candidates := candidates + offers;
    }
    assert skills[..|skills|] == skills;
  }

  lemma {:induction false} NoOffersIff(p: Policy, skills: seq<Skill>, q: Requirement, profiles: seq<Profile>)
    ensures Offers(p, skills, q, profiles) == [] <==>
            forall k :: 0 <= k < |skills| && Accepts(p, skills[k], q) ==> profiles == []
  {
    if skills != [] { NoOffersIff(p, skills[..|skills| - 1], q, profiles); }
  }

  method Route(p: Policy, skills: seq<Skill>, profiles: seq<Profile>, q: Requirement) returns (d: Decision)
    ensures Sound(d, p, skills, q, profiles)
    ensures d.candidates == if Stripped(q.capability) == "" then [] else Rank(Offers(p, skills, q, profiles))
    ensures d.status in {Selected, Blocked, NotFound}
    // Without runtime profiles a skill that provides the capability and accepts the input leaves no trace.
    ensures d.status == NotFound <==>
            Stripped(q.capability) != "" && forall i :: 0 <= i < |skills| && Provides(skills[i], q) ==>
              profiles == [] && Accepts(p, skills[i], q)
  {
    if Stripped(q.capability) == "" { return Decision(Blocked, [], None); }
    var candidates, rejected := Collect(p, skills, profiles, q);
    var ranked := Rank(candidates);
    RankSorts(candidates, Candidate("", "", "", 0.0, []));
    assert |ranked| == |multiset(ranked)| && |candidates| == |multiset(candidates)|;
    NoOffersIff(p, skills, q, profiles);
    var open := Compatible(ranked);
    if open == [] {
      d := Decision(if ranked != [] || rejected then Blocked else NotFound, ranked, None);
    } else {
      d := Decision(Selected, ranked, Some(open[0]));
    }
    SelectionIsSound(d, p, skills, q, profiles);
  }

  // ---- the fallback loop ------------------------------------------------------

  datatype Answer = Answer(ok: bool, status: string, note: string)

  datatype Attempt = Attempt(candidate: Candidate, answer: Answer)

  datatype Execution = Execution(status: Status, ok: bool, attempts: seq<Attempt>, selected: Option<string>,
    result: Option<Answer>)

  /** Python's `s[:n]`, where a negative `n` counts from the end. */
  function Cut<T>(s: seq<T>, n: int): seq<T> {
    if n >= |s| then s else if n >= 0 then s[..n] else if -n <= |s| then s[..|s| + n] else []
  }

  function Budget(p: Policy, q: Requirement): int {
    if q.allowFallback && p.fallback then p.maximumAttempts else 1
  }

  predicate Pauses(p: Policy, a: Answer) {
    a.status == "pending-approval" && p.stopOnPending
  }

  predicate Stops(p: Policy, a: Answer) {
    Pauses(p, a) || a.ok
  }

  /** The status that the last attempt, at place `index`, alone determines. */
  function Verdict(p: Policy, index: nat, a: Answer): Status {
    if Pauses(p, a) then PendingApproval else if !a.ok then Failed else if index == 0
      then Completed else FallbackCompleted
  }

  /** `n` attempts down the line, each answered by the executor's n-th answer, and only the last may have stopped. */
  ghost predicate IsFallback(p: Policy, line: seq<Candidate>, answers: nat -> Answer, attempts: seq<Attempt>) {
    && |attempts| <= |line|
    && (forall i :: 0 <= i < |attempts| ==> attempts[i] == Attempt(line[i], answers(i)))
    && (forall i :: 0 <= i < |attempts| - 1 ==> !Stops(p, attempts[i].answer))
    && (|attempts| == |line| || (attempts != [] && Stops(p, attempts[|attempts| - 1].answer)))
  }

  /** The attempts are determined by the line and the answers. */
  lemma FallbackUnique(p: Policy, line: seq<Candidate>, answers: nat -> Answer, a: seq<Attempt>, b: seq<Attempt>)
    requires IsFallback(p, line, answers, a) && IsFallback(p, line, answers, b)
    ensures a == b
  {
    forall i | 0 <= i < |a| && i < |b|
      ensures a[i] == b[i]
    {
    }
  }

  /** How the attempts decide everything else that an execution reports. */
  predicate Concluded(p: Policy, x: Execution) {
    if x.attempts == [] then x == Execution(Failed, false, [], None, None)
    else
      var last := x.attempts[|x.attempts| - 1];
      && x.status == Verdict(p, |x.attempts| - 1, last.answer)
      && x.ok == (x.status == Completed || x.status == FallbackCompleted)
      && x.selected == Some(last.candidate.skill) && x.result == Some(last.answer)
  }

  method Fallback(p: Policy, line: seq<Candidate>, answers: nat -> Answer) returns (x: Execution)
    ensures IsFallback(p, line, answers, x.attempts)
    ensures Concluded(p, x)
  {
    var attempts: seq<Attempt> := [];
    var last, chosen := None, None;
    for index := 0 to |line|
      invariant |attempts| == index
      invariant forall i :: 0 <= i < index ==>
          attempts[i] == Attempt(line[i], answers(i)) && !Stops(p, attempts[i].answer)
      invariant if index == 0 then last == None && chosen == None
                else last == Some(attempts[index - 1].answer) && chosen == Some(attempts[index - 1].candidate.skill)
    {
      var answer := answers(index);
      last, chosen := Some(answer), Some(line[index].skill);
      attempts := attempts + [Attempt(line[index], answer)];
      if answer.status == "pending-approval" && p.stopOnPending {
        return Execution(PendingApproval, false, attempts, chosen, last);
      }
      if answer.ok {
        return Execution(if index == 0 then Completed else FallbackCompleted, true, attempts, chosen, last);
      }
    }
    x := Execution(Failed, false, attempts, chosen, last);
  }

  method Execute(p: Policy, skills: seq<Skill>, profiles: seq<Profile>, q: Requirement, answers: nat -> Answer)
    returns (d: Decision, x: Execution)
    ensures Sound(d, p, skills, q, profiles)
    ensures d.candidates == if Stripped(q.capability) == "" then [] else Rank(Offers(p, skills, q, profiles))
    ensures d.selected.None? ==> x == Execution(d.status, false, [], None, None)
    ensures d.selected.Some? ==>
            IsFallback(p, Cut(Compatible(d.candidates), Budget(p, q)), answers, x.attempts) && Concluded(p, x)
    ensures d.selected.Some? && p.maximumAttempts >= 1 ==> Tried(p, q, d, answers, x)
  {
    d := Route(p, skills, profiles, q);
    if d.selected.None? {
      x := Execution(d.status, false, [], None, None);
    } else {
      x := Fallback(p, Cut(Compatible(d.candidates), Budget(p, q)), answers);
      if p.maximumAttempts >= 1 { ExecutionMeans(p, skills, profiles, q, d, answers, x); }
    }
  }

  /**
    With a budget of at least one, which `CapabilityRouterPolicy.load`
    ensures, the attempts are a head of the ranking that starts with the
    selected candidate.
   */
  lemma SelectedIsTriedFirst(p: Policy, skills: seq<Skill>, profiles: seq<Profile>, q: Requirement, d: Decision,
    answers: nat -> Answer, attempts: seq<Attempt>)
    requires Sound(d, p, skills, q, profiles) && d.selected.Some? && Budget(p, q) >= 1
    requires IsFallback(p, Cut(Compatible(d.candidates), Budget(p, q)), answers, attempts)
    ensures 1 <= |attempts| <= Budget(p, q) && |attempts| <= |d.candidates| && attempts[0].candidate == d.selected.value
    ensures forall i :: 0 <= i < |attempts| ==> Open(attempts[i].candidate) && attempts[i].candidate == d.candidates[i]
  {
    CompatibleIsPrefix(d.candidates);
    var open := Compatible(d.candidates);
    var line := Cut(open, Budget(p, q));
    assert line <= open;
    assert forall i :: 0 <= i < |line| ==> line[i] == open[i] == d.candidates[i] && line[i] in open;
  }

  /** An answer behind which nothing more is tried: a success, or an approval to wait for. */
  ghost predicate Settles(p: Policy, a: Answer) {
    a.ok || (p.stopOnPending && a.status == "pending-approval")
  }

  ghost predicate MayTry(p: Policy, q: Requirement, d: Decision, n: nat) {
    && n < |d.candidates| && d.candidates[n].blockers == []
    && (n > 0 ==> q.allowFallback && p.fallback && n < p.maximumAttempts)
  }

  /**
    What an execution comes to: from the selected candidate down the ranking, one
    answer each, until an answer settles or no further attempt may be made; and the
    last answer alone says how it ended.
   */
  ghost predicate Tried(p: Policy, q: Requirement, d: Decision, answers: nat -> Answer, x: Execution) {
    var n := |x.attempts|;
    && n >= 1 && Some(x.attempts[0].candidate) == d.selected
    && (forall i :: 0 <= i < n ==>
      MayTry(p, q, d, i) && x.attempts[i].candidate == d.candidates[i] && x.attempts[i].answer == answers(i))
    && (forall i :: 0 <= i < n - 1 ==> !Settles(p, answers(i)))
    && (!Settles(p, answers(n - 1)) ==> !MayTry(p, q, d, n))
    && x.result == Some(answers(n - 1)) && x.selected == Some(d.candidates[n - 1].skill)
    && EndsAs(p, answers(n - 1), n, x)
  }

  ghost predicate EndsAs(p: Policy, last: Answer, n: nat, x: Execution) {
    var waits := p.stopOnPending && last.status == "pending-approval";
    && (x.status == PendingApproval <==> waits)
    && (x.status == Completed <==> !waits && last.ok && n == 1)
    && (x.status == FallbackCompleted <==> !waits && last.ok && n > 1)
    && (x.status == Failed <==> !waits && !last.ok)
    && (x.ok <==> !waits && last.ok)
  }

  lemma EndingMeans(p: Policy, x: Execution)
    requires Concluded(p, x) && x.attempts != []
    ensures EndsAs(p, x.attempts[|x.attempts| - 1].answer, |x.attempts|, x)
  {
  }

  /** Behind the whole slice no further attempt may be made. */
  lemma NoneLeft(p: Policy, q: Requirement, d: Decision)
    requires Ranked(d.candidates) && p.maximumAttempts >= 1 && Compatible(d.candidates) != []
    ensures !MayTry(p, q, d, |Cut(Compatible(d.candidates), Budget(p, q))|)
  {
    CompatibleIsPrefix(d.candidates);
  }

  lemma ExecutionMeans(p: Policy, skills: seq<Skill>, profiles: seq<Profile>, q: Requirement, d: Decision,
    answers: nat -> Answer, x: Execution)
    requires Sound(d, p, skills, q, profiles) && d.selected.Some? && p.maximumAttempts >= 1
    requires IsFallback(p, Cut(Compatible(d.candidates), Budget(p, q)), answers, x.attempts) && Concluded(p, x)
    ensures Tried(p, q, d, answers, x)
  {
    SelectedIsTriedFirst(p, skills, profiles, q, d, answers, x.attempts);
    AttemptsMean(p, q, d, answers, x);
  }

  lemma AttemptsMean(p: Policy, q: Requirement, d: Decision, answers: nat -> Answer, x: Execution)
    requires Ranked(d.candidates) && p.maximumAttempts >= 1 && Compatible(d.candidates) != []
    requires IsFallback(p, Cut(Compatible(d.candidates), Budget(p, q)), answers, x.attempts) && Concluded(p, x)
    requires 1 <= |x.attempts| <= Budget(p, q) && |x.attempts| <= |d.candidates|
    requires Some(x.attempts[0].candidate) == d.selected
    requires forall i :: 0 <= i < |x.attempts| ==>
               Open(x.attempts[i].candidate) && x.attempts[i].candidate == d.candidates[i]
    ensures Tried(p, q, d, answers, x)
  {
    EndingMeans(p, x);
    NoneLeft(p, q, d);
  }

  /** A slice is a head of the list: `n` long, or short of `-n` at its end. */
  lemma CutMeans<T>(s: seq<T>, n: int)
    ensures Cut(s, n) <= s
    ensures |Cut(s, n)| == if n >= 0 then (if n < |s| then n else |s|) else (if -n < |s| then |s| + n else 0)
  {
  }
}
