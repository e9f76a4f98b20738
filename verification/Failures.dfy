/**
  The durable failure fingerprints behind the retry gate: an append-only file of
  rows in which the last row of a fingerprint counts.
 */
module Failures {
  import opened Prelude
  import opened OrderedDict

  /**
    SHA-256 over the signature, the error type and the error text; the
    signature's fixed width keeps it readable off the front.
   */
  datatype Fingerprint = Fingerprint(signature: string, detail: string)

  datatype Row = Row(fingerprint: Fingerprint, signature: string, open: bool, actionId: string,
    resolution: Option<string>)

  /** The dictionary that `open_failures` folds the file into. */
  function Folded(rows: seq<Row>): seq<Item<Fingerprint, Row>> {
    if rows == [] then [] else Put(Folded(rows[..|rows| - 1]), rows[|rows| - 1].fingerprint, rows[|rows| - 1])
  }

  predicate Blocks(row: Row, signature: string) {
    row.signature == signature && row.open
  }

  function Select(d: seq<Item<Fingerprint, Row>>, signature: string): seq<Row> {
    if d == [] then []
    else
      var rest := Select(d[..|d| - 1], signature);
      if Blocks(d[|d| - 1].value, signature) then rest + [d[|d| - 1].value] else rest
  }

  function OpenFailures(rows: seq<Row>, signature: string): seq<Row> {
    Select(Folded(rows), signature)
  }

  function Recorded(rows: seq<Row>, signature: string, detail: string, actionId: string): seq<Row> {
    rows + [Row(Fingerprint(signature, detail), signature, true, actionId, None)]
  }

  function Close(open: seq<Row>, resolution: string): seq<Row> {
    seq(|open|, i requires 0 <= i < |open| => open[i].(open := false, resolution := Some(resolution)))
  }

  function Resolved(rows: seq<Row>, signature: string, resolution: string): seq<Row> {
    rows + Close(OpenFailures(rows, signature), resolution)
  }

  // ---- what the file means ------------------------------------------------

  /** Some failure of this signature is unresolved: the last row of one of its fingerprints is open. */
  ghost predicate HasOpen(rows: seq<Row>, signature: string) {
    exists f :: OpenAt(rows, signature, f)
  }

  ghost predicate OpenAt(rows: seq<Row>, signature: string, f: Fingerprint) {
    var last := Get(Folded(rows), f);
    last.Some? && Blocks(last.value, signature)
  }

  lemma FoldedSnoc(rows: seq<Row>, row: Row, f: Fingerprint)
    ensures Get(Folded(rows + [row]), f) == if f == row.fingerprint then Some(row) else Get(Folded(rows), f)
  {
    assert (rows + [row])[..|rows|] == rows;
    GetPut(Folded(rows), row.fingerprint, row, f);
  }

  lemma {:induction false} FoldedWellKeyed(rows: seq<Row>)
    ensures Distinct(Keys(Folded(rows)))
    ensures forall e :: e in Folded(rows) ==> e.value.fingerprint == e.key
    decreases |rows|
  {
    if rows != [] {
      var (front, last) := (rows[..|rows| - 1], rows[|rows| - 1]);
      FoldedWellKeyed(front);
      PutKeepsDistinct(Folded(front), last.fingerprint, last);
      PutMembers(Folded(front), last);
    }
  }

  lemma {:induction false} PutMembers(d: seq<Item<Fingerprint, Row>>, row: Row)
    requires forall e :: e in d ==> e.value.fingerprint == e.key
    ensures forall e :: e in Put(d, row.fingerprint, row) ==> e.value.fingerprint == e.key
    decreases |d|
  {
    if d != [] { PutMembers(d[1..], row); }
  }

  lemma {:induction false} SelectMembers(d: seq<Item<Fingerprint, Row>>, signature: string, row: Row)
    ensures row in Select(d, signature) <==> Blocks(row, signature) && exists e :: e in d && e.value == row
    decreases |d|
  {
    if d != [] {
      var (front, last) := (d[..|d| - 1], d[|d| - 1]);
      SelectMembers(front, signature, row);
      assert d == front + [last];
      assert forall e :: e in d <==> e in front || e == last;
    }
  }

  /** The rows that `open_failures` returns are the unresolved ones. */
  lemma OpenFailuresMeans(rows: seq<Row>, signature: string, row: Row)
    ensures row in OpenFailures(rows, signature) <==>
            OpenAt(rows, signature, row.fingerprint) && Get(Folded(rows), row.fingerprint) == Some(row)
  {
    var d := Folded(rows);
    SelectMembers(d, signature, row);
    FoldedWellKeyed(rows);
    GetIffKey(d, row.fingerprint);
    if e :| e in d && e.value == row {
      var i :| 0 <= i < |d| && d[i] == e;
      GetOfItem(d, i);
    }
  }

  lemma NoneOpen(rows: seq<Row>, signature: string)
    ensures OpenFailures(rows, signature) == [] <==> !HasOpen(rows, signature)
  {
    if f :| OpenAt(rows, signature, f) {
      var row := Get(Folded(rows), f).value;
      FoldedWellKeyed(rows);
      GetIffKey(Folded(rows), f);
      assert row.fingerprint == f;
      OpenFailuresMeans(rows, signature, row);
    }
    if OpenFailures(rows, signature) != [] {
      OpenFailuresMeans(rows, signature, OpenFailures(rows, signature)[0]);
    }
  }

  /** Recording a failure opens its signature and no other. */
  lemma RecordOpens(rows: seq<Row>, signature: string, detail: string, actionId: string, other: string)
    requires Consistent(rows)
    ensures HasOpen(Recorded(rows, signature, detail, actionId), other) <==> other == signature || HasOpen(rows, other)
  {
    var row := Row(Fingerprint(signature, detail), signature, true, actionId, None);
    var rows' := Recorded(rows, signature, detail, actionId);
    FoldedSnoc(rows, row, row.fingerprint);
    assert OpenAt(rows', signature, row.fingerprint);
    if f :| OpenAt(rows', other, f) {
      FoldedSnoc(rows, row, f);
      assert f != row.fingerprint ==> OpenAt(rows, other, f);
    }
    if f :| OpenAt(rows, other, f) {
      FoldedSnoc(rows, row, f);
      LastIsARow(rows, f);
      assert other != signature ==> OpenAt(rows', other, f);
    }
  }

  lemma {:induction false} LastIsARow(rows: seq<Row>, f: Fingerprint)
    requires Get(Folded(rows), f).Some?
    ensures Get(Folded(rows), f).value in rows && Get(Folded(rows), f).value.fingerprint == f
    decreases |rows|
  {
    if rows != [] {
      var (front, last) := (rows[..|rows| - 1], rows[|rows| - 1]);
      GetPut(Folded(front), last.fingerprint, last, f);
      if f != last.fingerprint { LastIsARow(front, f); }
    }
  }

  /** Appending closed rows: a fingerprint keeps its last row unless one of them carries it. */
  lemma {:induction false} ClosedRowsAppended(rows: seq<Row>, xs: seq<Row>, f: Fingerprint)
    requires forall x :: x in xs ==> !x.open
    ensures var last := Get(Folded(rows + xs), f);
            if exists x :: x in xs && x.fingerprint == f
              then last.Some? && !last.value.open else last == Get(Folded(rows), f)
    decreases |xs|
  {
    if xs == [] {
      assert rows + xs == rows;
    } else {
      var (front, x) := (xs[..|xs| - 1], xs[|xs| - 1]);
      assert rows + xs == (rows + front) + [x] && xs == front + [x];
      ClosedRowsAppended(rows, front, f);
      FoldedSnoc(rows + front, x, f);
      assert forall y :: y in xs <==> y in front || y == x;
    }
  }

  /** Resolving closes every failure of the signature and leaves the others alone. */
  lemma ResolveCloses(rows: seq<Row>, signature: string, resolution: string, other: string)
    ensures HasOpen(Resolved(rows, signature, resolution), other) <==> other != signature && HasOpen(rows, other)
  {
    var open := OpenFailures(rows, signature);
    var xs := Close(open, resolution);
    var rows' := Resolved(rows, signature, resolution);
    forall f
      ensures OpenAt(rows', other, f) <==> other != signature && OpenAt(rows, other, f)
    {
      ClosedRowsAppended(rows, xs, f);
      if OpenAt(rows, signature, f) {
        var row := Get(Folded(rows), f).value;
        LastIsARow(rows, f);
        OpenFailuresMeans(rows, signature, row);
        var i :| 0 <= i < |open| && open[i] == row;
        assert xs[i] in xs && xs[i].fingerprint == f;
      }
      if x :| x in xs && x.fingerprint == f {
        var i :| 0 <= i < |xs| && xs[i] == x;
        OpenFailuresMeans(rows, signature, open[i]);
      }
    }
  }

  /**
    Every row carries the signature inside its fingerprint, as `record` writes
    it and `resolve_signature` copies it.
   */
  ghost predicate Consistent(rows: seq<Row>) {
    forall row :: row in rows ==> row.signature == row.fingerprint.signature
  }

  lemma StaysConsistent(rows: seq<Row>, signature: string, detail: string, actionId: string, resolution: string)
    requires Consistent(rows)
    ensures Consistent(Recorded(rows, signature, detail, actionId)) && Consistent(Resolved(rows, signature, resolution))
  {
    var open := OpenFailures(rows, signature);
    forall x | x in Close(open, resolution)
      ensures x.signature == x.fingerprint.signature
    {
      var i :| 0 <= i < |open| && Close(open, resolution)[i] == x;
      OpenFailuresMeans(rows, signature, open[i]);
      LastIsARow(rows, open[i].fingerprint);
    }
  }

  /** A recorded failure is open with its action named, whatever was recorded before. */
  lemma RecordNames(rows: seq<Row>, signature: string, detail: string, actionId: string)
    ensures exists row ::
              && row in OpenFailures(Recorded(rows, signature, detail, actionId), signature)
              && row.fingerprint == Fingerprint(signature, detail) && row.actionId == actionId && row.resolution == None
  {
    var row := Row(Fingerprint(signature, detail), signature, true, actionId, None);
    FoldedSnoc(rows, row, row.fingerprint);
    assert OpenAt(rows + [row], signature, row.fingerprint);
    OpenFailuresMeans(rows + [row], signature, row);
  }

  /** Row `n` of the file closes the failure `row`: the same but for its end. */
  ghost predicate CloserOf(closer: Row, row: Row, resolution: string) {
    && !closer.open && closer.resolution == Some(resolution)
    && closer.fingerprint == row.fingerprint && closer.signature == row.signature && closer.actionId == row.actionId
  }

  /** Resolving appends one closing row for each open failure, and no other row. */
  lemma ResolveAppends(rows: seq<Row>, signature: string, resolution: string)
    ensures var (open, rows') := (OpenFailures(rows, signature), Resolved(rows, signature, resolution));
            && rows <= rows' && |rows'| == |rows| + |open|
            && forall i :: 0 <= i < |open| ==> CloserOf(rows'[|rows| + i], open[i], resolution)
  {
  }

  class FailureFingerprintStore {
    var rows: seq<Row>

    method Open(signature: string) returns (open: seq<Row>)
      ensures open == OpenFailures(rows, signature)
    {
      var state: seq<Item<Fingerprint, Row>> := [];
      for i := 0 to |rows|
        invariant state == Folded(rows[..i])
      {
        assert rows[..i + 1][..i] == rows[..i];
        state := Put(state, rows[i].fingerprint, rows[i]);
      }
      assert rows[..|rows|] == rows;
      open := [];
      for i := 0 to |state|
        invariant open == Select(state[..i], signature)
      {
        assert state[..i + 1][..i] == state[..i];
        if state[i].value.signature == signature && state[i].value.open {
          open := open + [state[i].value];
        }
      }
      assert state[..|state|] == state;
    }

    method Record(signature: string, detail: string, actionId: string) returns (f: Fingerprint)
      modifies this
      ensures rows == Recorded(old(rows), signature, detail, actionId) && f == rows[|rows| - 1].fingerprint
    {
      f := Fingerprint(signature, detail);
      rows := rows + [Row(f, signature, true, actionId, None)];
    }

    method ResolveSignature(signature: string, resolution: string)
      modifies this
      ensures rows == Resolved(old(rows), signature, resolution)
    {
      var open := Open(signature);
      for i := 0 to |open|
        invariant rows == old(rows) + Close(open, resolution)[..i]
      {
        rows := rows + [open[i].(open := false, resolution := Some(resolution))];
      }
    }
  }
}
