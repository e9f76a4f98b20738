/**
  The bridge's receipt store: an append-only log of receipt snapshots and an
  index keyed by execution identity, which a restart rebuilds from the log.
 */
module Receipts {
  import opened Prelude
  import opened OrderedDict

  datatype Key = Key(mission: string, work: string, attempt: int, principal: string)

  datatype State = Discovered | ClaimRequested | Claimed | HerdrAttached | Prompted | Observing | Reconciling | Terminal

  /** Terminal outcome texts; `Blank` is the empty text. */
  datatype Outcome =
    Completed | Failed | Blocked | Stopped | Rejected | Cancelled | CompletedWithoutArtifact | Unknown | Blank

  datatype Receipt = Receipt(
    key: Key, state: State, execRef: Option<string>, workspaceRef: Option<string>, outcome: Option<Outcome>,
      error: Option<string>)

  type Index = seq<Item<Key, Receipt>>

  /** The outcomes that the store itself refuses to write twice. */
  predicate Definitive(r: Receipt) {
    r.state == Terminal && r.outcome in {Some(Completed), Some(Failed), Some(Blocked), Some(Stopped), Some(Rejected),
      Some(Cancelled)}
  }

  /** What the dispatcher regards as closed. */
  predicate Settled(r: Receipt) {
    r.state == Terminal && r.outcome !in {None, Some(Blank), Some(Unknown)}
  }

  predicate Duplicate(index: Index, r: Receipt) {
    Definitive(r) && Get(index, r.key).Some? && Definitive(Get(index, r.key).value)
  }

  /** `dataclasses.replace` in `update`: None keeps the field. */
  function Updated(r: Receipt, state: State, execRef: Option<string>, outcome: Option<Outcome>,
    error: Option<string>): Receipt {
    Receipt(r.key, state, if execRef.Some? then execRef else r.execRef, r.workspaceRef,
            if outcome.Some? then outcome else r.outcome, if error.Some? then error else r.error)
  }

  /** What a restart computes from the log. */
  function Replay(log: seq<Receipt>): Index {
    if log == [] then [] else Put(Replay(log[..|log| - 1]), log[|log| - 1].key, log[|log| - 1])
  }

  predicate InScope(k: Key, work: string, mission: Option<string>) {
    k.work == work && (mission.None? || k.mission == mission.value)
  }

  /** The first receipt with the highest attempt number, as Python's `max` picks it. */
  function Latest(index: Index, work: string, mission: Option<string>): Option<Receipt> {
    if index == [] then None
    else
      var (best, last) := (Latest(index[..|index| - 1], work, mission), index[|index| - 1]);
      if InScope(last.key, work, mission) && (best.None? || best.value.key.attempt < last.value.key.attempt)
        then Some(last.value) else best
  }

  predicate ActiveAt(index: Index, work: string, principal: string, mission: Option<string>, i: int) {
    && 0 <= i < |index| && InScope(index[i].key, work, mission) && index[i].key.principal == principal
    && index[i].value.state != Terminal
  }

  predicate HasActive(index: Index, work: string, principal: string, mission: Option<string>) {
    exists i :: 0 <= i < |index| && ActiveAt(index, work, principal, mission, i)
  }

  /** One key's snapshots, in the order they were written. */
  function Trace(log: seq<Receipt>, k: Key): seq<Receipt> {
    if log == [] then []
    else Trace(log[..|log| - 1], k) + if log[|log| - 1].key == k then [log[|log| - 1]] else []
  }

  /** Keys in the order of their first snapshot. */
  function FirstKeys(log: seq<Receipt>): seq<Key> {
    if log == [] then []
    else
      var ks := FirstKeys(log[..|log| - 1]);
      if log[|log| - 1].key in ks then ks else ks + [log[|log| - 1].key]
  }

  ghost predicate WellKeyed(index: Index) {
    Distinct(Keys(index)) && forall i :: 0 <= i < |index| ==> index[i].value.key == index[i].key
  }

  lemma ReplaySnoc(log: seq<Receipt>, r: Receipt)
    ensures Replay(log + [r]) == Put(Replay(log), r.key, r)
    ensures forall k :: Trace(log + [r], k) == Trace(log, k) + if r.key == k then [r] else []
    ensures FirstKeys(log + [r]) == if r.key in FirstKeys(log) then FirstKeys(log) else FirstKeys(log) + [r.key]
  {
    assert (log + [r])[..|log|] == log;
  }

  lemma {:induction false} IndexKeys(log: seq<Receipt>)
    ensures Keys(Replay(log)) == FirstKeys(log) && WellKeyed(Replay(log))
    decreases |log|
  {
    if log != [] {
      var (front, r) := (log[..|log| - 1], log[|log| - 1]);
      IndexKeys(front);
      KeysPut(Replay(front), r.key, r);
      PutKeepsDistinct(Replay(front), r.key, r);
      PutKeepsKeyed(Replay(front), r);
    }
  }

  lemma {:induction false} IndexAnswers(log: seq<Receipt>, k: Key)
    ensures Get(Replay(log), k) == (var t := Trace(log, k); if t == [] then None else Some(t[|t| - 1]))
    decreases |log|
  {
    if log != [] {
      IndexAnswers(log[..|log| - 1], k);
      GetPut(Replay(log[..|log| - 1]), log[|log| - 1].key, log[|log| - 1], k);
    }
  }

  /**
    The index is the last-write-wins view of the log: each key answers with its
    last snapshot, and keys stand in the order of their first one.
   */
  lemma IndexIsLastWrite(log: seq<Receipt>, k: Key)
    ensures Keys(Replay(log)) == FirstKeys(log) && WellKeyed(Replay(log))
    ensures Get(Replay(log), k) == (var t := Trace(log, k); if t == [] then None else Some(t[|t| - 1]))
  {
    IndexKeys(log);
    IndexAnswers(log, k);
  }

  lemma {:induction false} PutKeepsKeyed(index: Index, r: Receipt)
    requires forall i :: 0 <= i < |index| ==> index[i].value.key == index[i].key
    ensures forall i :: 0 <= i < |Put(index, r.key, r)| ==>
            Put(index, r.key, r)[i].value.key == Put(index, r.key, r)[i].key
    decreases |index|
  {
    if index != [] {
      PutKeepsKeyed(index[1..], r);
    }
  }

  /**
    `latest_for_work` answers with a highest attempt in scope, the earliest
    inserted among ties, or None when nothing is in scope.
   */
  lemma {:induction false} LatestIsFirstMax(index: Index, work: string, mission: Option<string>)
    requires forall i :: 0 <= i < |index| ==> index[i].value.key == index[i].key
    ensures Latest(index, work, mission) == None ==> forall i :: 0 <= i < |index| ==>
            !InScope(index[i].key, work, mission)
    ensures Latest(index, work, mission) != None ==>
            exists i :: FirstMax(index, work, mission, i, Latest(index, work, mission).value)
    decreases |index|
  {
    if index != [] {
      var (front, n) := (index[..|index| - 1], |index| - 1);
      LatestIsFirstMax(front, work, mission);
      var (best, result) := (Latest(front, work, mission), Latest(index, work, mission));
      if InScope(index[n].key, work, mission) && (best.None? || best.value.key.attempt < index[n].key.attempt) {
        assert FirstMax(index, work, mission, n, result.value);
      } else if best.Some? {
        var i :| FirstMax(front, work, mission, i, best.value);
        assert FirstMax(index, work, mission, i, result.value);
      }
    }
  }

  ghost predicate FirstMax(index: Index, work: string, mission: Option<string>, i: int, r: Receipt) {
    && 0 <= i < |index| && index[i].value == r && InScope(index[i].key, work, mission)
    && (forall j :: 0 <= j < |index| && InScope(index[j].key, work, mission) ==> index[j].key.attempt <= r.key.attempt)
    && (forall j :: 0 <= j < i && InScope(index[j].key, work, mission) ==> index[j].key.attempt < r.key.attempt)
  }

  /** Closed with an outcome that must not be written twice in a row. */
  predicate Closed(r: Receipt) {
    r.state == Terminal && r.outcome.Some? && r.outcome.value !in {CompletedWithoutArtifact, Unknown, Blank}
  }

  ghost predicate Alternates(t: seq<Receipt>) {
    forall i :: 0 < i < |t| ==> !(Closed(t[i - 1]) && Closed(t[i]))
  }

  ghost predicate Accepted(log: seq<Receipt>) {
    forall i :: 0 <= i < |log| ==> !Duplicate(Replay(log[..i]), log[i])
  }

  lemma AcceptedSnoc(log: seq<Receipt>, r: Receipt)
    ensures Accepted(log + [r]) <==> Accepted(log) && !Duplicate(Replay(log), r)
  {
    var log' := log + [r];
    assert log'[..|log|] == log;
    forall i | 0 <= i < |log|
      ensures log'[..i] == log[..i] && log'[i] == log[i]
    {
    }
    if Accepted(log') {
      forall i | 0 <= i < |log|
        ensures !Duplicate(Replay(log[..i]), log[i])
      {
        assert !Duplicate(Replay(log'[..i]), log'[i]);
      }
      assert !Duplicate(Replay(log'[..|log|]), log'[|log|]);
    }
  }

  ghost predicate AllAlternate(log: seq<Receipt>) {
    forall k :: Alternates(Trace(log, k))
  }

  lemma ClosedIsDefinitive(r: Receipt)
    ensures Closed(r) <==> Definitive(r)
  {
    if r.outcome.Some? {
      match r.outcome.value
      case Completed =>
      case _ =>
    }
  }

  lemma KeyAlternates(log: seq<Receipt>, r: Receipt, k: Key)
    ensures Alternates(Trace(log + [r], k)) <==>
            Alternates(Trace(log, k)) && (k == r.key ==> !Duplicate(Replay(log), r))
  {
    ReplaySnoc(log, r);
    ClosedIsDefinitive(r);
    if Trace(log, k) != [] { ClosedIsDefinitive(Trace(log, k)[|Trace(log, k)| - 1]); }
    if k == r.key {
      assert Trace(log + [r], k) == Trace(log, k) + [r];
      IndexAnswers(log, k);
      AlternatesSnoc(Trace(log, k), r);
    } else {
      assert Trace(log + [r], k) == Trace(log, k);
    }
  }

  lemma AllAlternateSnoc(log: seq<Receipt>, r: Receipt)
    ensures AllAlternate(log + [r]) <==> AllAlternate(log) && !Duplicate(Replay(log), r)
  {
    forall k
      ensures Alternates(Trace(log + [r], k)) <==>
              Alternates(Trace(log, k)) && (k == r.key ==> !Duplicate(Replay(log), r))
    {
      KeyAlternates(log, r, k);
    }
    assert AllAlternate(log + [r]) ==> Alternates(Trace(log + [r], r.key));
  }

  /** A log is one that the store accepts, snapshot by snapshot, exactly if no key has two closed snapshots in a row. */
  lemma {:induction false} AcceptedIff(log: seq<Receipt>)
    ensures Accepted(log) <==> AllAlternate(log)
    decreases |log|
  {
    if log != [] {
      var (front, r) := (log[..|log| - 1], log[|log| - 1]);
      assert log == front + [r];
      AcceptedIff(front);
      AcceptedSnoc(front, r);
      AllAlternateSnoc(front, r);
    } else {
      assert forall k :: Trace(log, k) == [];
    }
  }

  lemma AlternatesSnoc(t: seq<Receipt>, r: Receipt)
    ensures Alternates(t + [r]) <==> Alternates(t) && (t == [] || !(Closed(t[|t| - 1]) && Closed(r)))
  {
    var t' := t + [r];
    if Alternates(t') {
      forall i | 0 < i < |t|
        ensures !(Closed(t[i - 1]) && Closed(t[i]))
      {
        assert t'[i - 1] == t[i - 1] && t'[i] == t[i];
      }
      if t != [] { assert t'[|t| - 1] == t[|t| - 1] && t'[|t|] == r; }
    }
  }

  datatype Written = Stored(receipt: Receipt) | DuplicateTerminal

  class ReceiptStore {
    var log: seq<Receipt>
    var index: Index

    /** The index is always what a restart would compute. */
    ghost predicate Valid() reads this { index == Replay(log) }

    /** `__init__` on an existing log file. */
    constructor (file: seq<Receipt>)
      ensures Valid() && log == file
    {
      log, index := file, [];
      new;
      for i := 0 to |file|
        invariant log == file && index == Replay(file[..i])
      {
        assert file[..i + 1] == file[..i] + [file[i]];
        ReplaySnoc(file[..i], file[i]);
        index := Put(index, file[i].key, file[i]);
      }
      assert file[..|file|] == file;
    }

    method Persist(r: Receipt) returns (w: Written)
      requires Valid()
      modifies this
      ensures Valid()
      ensures w == if Duplicate(old(index), r) then DuplicateTerminal else Stored(r)
      ensures log == if w.Stored? then old(log) + [r] else old(log)
    {
      if Definitive(r) {
        var existing := Get(index, r.key);
        if existing.Some? && Definitive(existing.value) {
          return DuplicateTerminal;
        }
      }
      ReplaySnoc(log, r);
      log := log + [r];
      index := Put(index, r.key, r);
      w := Stored(r);
    }

    method Update(r: Receipt, state: State, execRef: Option<string>, outcome: Option<Outcome>,
      error: Option<string>) returns (w: Written)
      requires Valid()
      modifies this
      ensures Valid()
      ensures var u := Updated(r, state, execRef, outcome, error);
              w == (if Duplicate(old(index), u) then DuplicateTerminal else Stored(u))
              && log == if w.Stored? then old(log) + [u] else old(log)
    {
      var u := r.(state := state);
      if execRef.Some? { u := u.(execRef := execRef); }
      if outcome.Some? { u := u.(outcome := outcome); }
      if error.Some? { u := u.(error := error); }
      w := Persist(u);
    }

    method LatestForWork(work: string, mission: Option<string>) returns (best: Option<Receipt>)
      ensures best == Latest(index, work, mission)
    {
      best := None;
      for i := 0 to |index|
        invariant best == Latest(index[..i], work, mission)
      {
        assert index[..i + 1][..i] == index[..i];
        if InScope(index[i].key, work, mission) && (best.None? || index[i].value.key.attempt > best.value.key.attempt) {
          best := Some(index[i].value);
        }
      }
      assert index[..|index|] == index;
    }

    method HasActiveAttempt(work: string, principal: string, mission: Option<string>) returns (found: bool)
      ensures found == HasActive(index, work, principal, mission)
    {
      for i := 0 to |index|
        invariant forall k :: 0 <= k < i ==> !ActiveAt(index, work, principal, mission, k)
      {
        if index[i].key.work == work && index[i].key.principal == principal {
          if (mission.None? || index[i].key.mission == mission.value) && index[i].value.state != Terminal {
            assert ActiveAt(index, work, principal, mission, i);
            return true;
          }
        }
      }
      found := false;
    }
  }
}
