/**
  Attempt discipline: in what order the receipts of one work item come into
  being, what each one needs, and where a second principal escapes the gate.
 */
module DispatcherAttempts {
  import opened Prelude
  import opened OrderedDict
  import opened Receipts
  import opened Dispatcher
  import opened DispatcherRuns

  predicate OnItem(k: Key, mission: string, work: string) {
    InScope(k, work, Some(mission))
  }

  /**
    The receipt about to be created for `w` comes after all others of its work
    item, which are closed, and carries an override unless it is the first.
   */
  ghost predicate Disciplined(index: Index, w: Work) {
    forall i :: 0 <= i < |index| && OnItem(index[i].key, w.key.mission, w.key.work) ==>
      index[i].value.state == Terminal && index[i].key.attempt < w.key.attempt && Override(w)
  }

  /** A receipt of another principal on the work item. */
  predicate Rival(index: Index, w: Work, i: int) {
    && 0 <= i < |index| && OnItem(index[i].key, w.key.mission, w.key.work)
    && index[i].key.principal != w.key.principal
  }

  /**
    A dispatch that passes the gates creates a disciplined receipt exactly when
    no receipt of another principal is open on the work item.
   */
  lemma DisciplinedIffNoRival(index: Index, w: Work, g: Gate)
    requires WellKeyed(index) && Refusal(index, w, g) == None
    ensures Disciplined(index, w) <==> forall i :: Rival(index, w, i) ==> index[i].value.state == Terminal
  {
    var m := Some(w.key.mission);
    assert !HasActive(index, w.key.work, w.key.principal, m);
    LatestIsFirstMax(index, w.key.work, m);
    if (forall i :: Rival(index, w, i) ==> index[i].value.state == Terminal) {
      forall i | 0 <= i < |index| && OnItem(index[i].key, w.key.mission, w.key.work)
        ensures index[i].value.state == Terminal
      {
        assert !ActiveAt(index, w.key.work, w.key.principal, m, i);
        assert index[i].key.principal != w.key.principal ==> Rival(index, w, i);
      }
      var prior := Latest(index, w.key.work, m);
      if prior.Some? {
        var i :| FirstMax(index, w.key.work, m, i, prior.value);
        assert index[i].value.state == Terminal;
      }
    }
  }

  // ---- over runs ----------------------------------------------------------

  /** A dispatch brings a receipt into being. */
  predicate Creates(s: Sys, l: Label) {
    l.Dispatch? && s.pc.Idle? && Get(s.index, l.work.key).None? && Refusal(s.index, l.work, l.gate) == None
  }

  lemma CreatedStep(s: Sys, l: Label)
    ensures Step(s, l).created == if Creates(s, l)
            then s.created + [Creation(l.work.key, Override(l.work))] else s.created
  {
    match l
    case Dispatch(w, g, a) =>
      if s.pc.Idle? && Get(s.index, w.key).Some? {
        assert ReconcileStep(s, w, None, a).created == s.created;
      }
    case Reconcile(w, existing, a) => assert ReconcileStep(s, w, existing, a).created == s.created;
    case _ =>
  }

  /** A key that has a receipt keeps one. */
  lemma KeyStays(s: Sys, l: Label, k: Key)
    requires s.index == Replay(s.log) && Get(s.index, k).Some?
    ensures Get(Step(s, l).index, k).Some?
  {
    if !l.Crash? {
      StepExtends(s, l);
      var s' := Step(s, l);
      if s'.log != s.log { GetPut(s.index, s'.log[|s.log|].key, s'.log[|s.log|], k); }
    }
  }

  lemma BeginAdds(s: Sys, w: Work, g: Gate)
    requires Get(s.index, w.key).None?
    ensures Get(Begin(s, w, g).index, w.key).Some?
  {
    var rejected := Receipt(w.key, Terminal, None, None, Some(Rejected), g.nonconformance);
    GetPut(s.index, w.key, rejected, w.key);
    GetPut(s.index, w.key, Claim(w), w.key);
  }

  /** In every run each created receipt is in the index. */
  lemma {:induction false} CreatedIsKept(ls: seq<Label>, i: nat)
    requires i < |Run(ls).created|
    ensures Get(Run(ls).index, Run(ls).created[i].key).Some?
    decreases |ls|
  {
    var front := ls[..|ls| - 1];
    var (s, l) := (Run(front), ls[|ls| - 1]);
    CreatedStep(s, l);
    RestartChangesNothing(front);
    if i < |s.created| {
      CreatedIsKept(front, i);
      KeyStays(s, l, s.created[i].key);
    } else {
      BeginAdds(s, l.work, l.gate);
    }
  }

  /** Every snapshot of the work item, in this mission, is one principal's. */
  ghost predicate OnePrincipal(log: seq<Receipt>, mission: string, work: string, principal: string) {
    forall i :: 0 <= i < |log| && OnItem(log[i].key, mission, work) ==> log[i].key.principal == principal
  }

  lemma {:induction false} TraceIsLogged(log: seq<Receipt>, k: Key)
    ensures forall r :: r in Trace(log, k) ==> r in log && r.key == k
    decreases |log|
  {
    if log != [] { TraceIsLogged(log[..|log| - 1], k); }
  }

  /** Every entry of the index stems from the log. */
  lemma IndexIsLogged(log: seq<Receipt>, n: nat)
    requires n < |Replay(log)|
    ensures exists i :: 0 <= i < |log| && log[i].key == Replay(log)[n].key
  {
    var e := Replay(log)[n];
    IndexIsLastWrite(log, e.key);
    GetOfItem(Replay(log), n);
    TraceIsLogged(log, e.key);
    assert e.value in log;
  }

  /**
    With one principal, none is created while an earlier receipt of the work
    item is open, or without being the next attempt and overridden.
   */
  lemma CreatedClosed(front: seq<Label>, l: Label)
    requires Creates(Run(front), l)
             && OnePrincipal(Run(front).log, l.work.key.mission, l.work.key.work, l.work.key.principal)
    ensures Disciplined(Run(front).index, l.work)
  {
    var (s, w) := (Run(front), l.work);
    RestartChangesNothing(front);
    IndexIsLastWrite(s.log, w.key);
    forall n | 0 <= n < |s.index| && OnItem(s.index[n].key, w.key.mission, w.key.work)
      ensures s.index[n].key.principal == w.key.principal
    {
      IndexIsLogged(s.log, n);
    }
    DisciplinedIffNoRival(s.index, w, l.gate);
  }

  /**
    A work item whose snapshots are all one principal's: attempts strictly
    increase in order of creation, and every one behind the first carries an
    override.
   */
  lemma {:induction false} AttemptDiscipline(ls: seq<Label>, mission: string, work: string, principal: string, i: nat,
    j: nat)
    requires OnePrincipal(Run(ls).log, mission, work, principal)
    requires var created := Run(ls).created;
             i < j < |created| && OnItem(created[i].key, mission, work) && OnItem(created[j].key, mission, work)
    ensures Run(ls).created[i].key.attempt < Run(ls).created[j].key.attempt && Run(ls).created[j].override
    decreases |ls|
  {
    var front := ls[..|ls| - 1];
    var (s, l) := (Run(front), ls[|ls| - 1]);
    var created := Run(ls).created;
    CreatedStep(s, l);
    LogGrows(s, l, mission, work, principal);
    if j < |s.created| {
      AttemptDiscipline(front, mission, work, principal, i, j);
    } else {
      CreatedOnItem(ls, j, mission, work, principal);
      CreatedClosed(front, l);
      CreatedIsKept(front, i);
      GetIffKey(s.index, s.created[i].key);
      var n :| 0 <= n < |s.index| && s.index[n].key == s.created[i].key;
    }
  }

  lemma LogGrows(s: Sys, l: Label, mission: string, work: string, principal: string)
    requires OnePrincipal(Step(s, l).log, mission, work, principal)
    ensures OnePrincipal(s.log, mission, work, principal)
  {
    StepAppends(s, l);
    assert forall i :: 0 <= i < |s.log| ==> Step(s, l).log[i] == s.log[i];
  }

  lemma CreatedOnItem(ls: seq<Label>, j: nat, mission: string, work: string, principal: string)
    requires OnePrincipal(Run(ls).log, mission, work, principal) && j < |Run(ls).created|
             && OnItem(Run(ls).created[j].key, mission, work)
    ensures Run(ls).created[j].key.principal == principal
  {
    var (s, k) := (Run(ls), Run(ls).created[j].key);
    CreatedIsKept(ls, j);
    RestartChangesNothing(ls);
    GetIffKey(s.index, k);
    var n :| 0 <= n < |s.index| && s.index[n].key == k;
    IndexIsLogged(s.log, n);
  }

  /** So without overrides at most one attempt ever gets a receipt. */
  lemma OneAttemptWithoutOverride(ls: seq<Label>, mission: string, work: string, principal: string, i: nat, j: nat)
    requires OnePrincipal(Run(ls).log, mission, work, principal)
    requires var created := Run(ls).created;
             i < |created| && j < |created| && OnItem(created[i].key, mission, work)
               && OnItem(created[j].key, mission, work)
             && forall n :: 0 <= n < |created| && OnItem(created[n].key, mission, work) ==> !created[n].override
    ensures i == j
  {
    if i < j { AttemptDiscipline(ls, mission, work, principal, i, j); }
    if j < i { AttemptDiscipline(ls, mission, work, principal, j, i); }
  }

  /**
    With two principals the order and the override are both lost: attempt 1 of
    one starts, unasked, beside the open attempt 2 of the other.
   */
  lemma RivalsEscapeTheGate(first: Work, second: Work, g: Gate, a: Recon)
    requires first.key == Key("M", "W", 2, "p") && second.key == Key("M", "W", 1, "q")
    requires !Override(second) && g.nonconformance.None? && g.workspaceOk && first.profile != "" && second.profile != ""
    requires Evaluate(first, g.principal, []).Eligible() && Evaluate(second, g.principal, []).Eligible()
    ensures var ls := [Dispatch(first, g, a), Crash, Dispatch(second, g, a)];
            Run(ls).created == [Creation(first.key, Override(first)), Creation(second.key, false)]
  {
    var ls := [Dispatch(first, g, a), Crash, Dispatch(second, g, a)];
    var s1 := Step(EMPTY, ls[0]);
    assert ls[..1] == [ls[0]] && ls[..2] == [ls[0], Crash] && ls[..2][..1] == ls[..1] && ls[..1][..0] == []
        && ls == ls[..3];
    assert Latest([], "W", Some("M")) == None;
    var r := Claim(first);
    var index := [Item(first.key, r)];
    assert s1.log == [r] && s1.index == index;
    assert Replay([r]) == index by { ReplaySnoc([], r); assert [] + [r] == [r]; }
    var s2 := Step(s1, Crash);
    assert s2.index == index && s2.pc == Idle;
    assert Latest(index, "W", Some("M")) == Some(r);
    assert Get(index, second.key) == None;
    assert Evaluate(second, g.principal, index) == Evaluate(second, g.principal, []);
    assert Refusal(index, second, g) == None;
    assert RunFrom(EMPTY, []) == EMPTY && RunFrom(EMPTY, ls[..1]) == s1 && RunFrom(EMPTY, ls[..2]) == s2;
    assert Run(ls) == Step(s2, ls[2]);
  }
}
