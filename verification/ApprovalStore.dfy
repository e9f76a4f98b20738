/**
  The durable table of pending actions and its immutable approval records.
  Every SQLite transaction is one function on the database value; the class
  carries the source's methods and is proved against those functions.
 */
module ApprovalStore {
  import opened Prelude
  import opened Timestamps
  import opened Proposals

  datatype Status = Pending | Approved | Rejected | Expired | Executing | Consumed

  datatype ActionResult = ActionResult(
    actionId: string, ok: bool, status: string, output: Value, error: Option<string>, metadata: Value,
      fingerprint: Option<string>)

  /** `decided_at`, `decided_by`, `decision_reason` and `decision_channel`, always written together. */
  datatype Verdict = Verdict(at: string, principal: string, reason: string, channel: string)

  /** The columns that the insert writes and no transaction changes. */
  datatype Ticket = Ticket(
    approvalId: string, actionId: string, actionHash: Digest, proposal: Payload,
    requestedAt: string, expiresAt: string, requestChannel: Option<string>, requestedBy: Option<string>)

  datatype Row = Row(
    ticket: Ticket, status: Status, verdict: Option<Verdict>, consumedAt: Option<string>, result: Option<ActionResult>)

  datatype Record = Record(approvalId: string, actionHash: Digest, decision: Status, verdict: Verdict)

  datatype Db = Db(rows: map<string, Row>, records: seq<Record>)

  datatype Error = BadRequest | NotFound | HasExpired | WrongState | FinalizeLost | Tampered | BadTimestamp

  datatype Reply<+T> = Ok(value: T) | Err(error: Error)

  datatype Request = Request(approvalId: string, approved: bool, principal: string, reason: string, channel: string)

  /** What a result looks like after `result_payload` and a trip through the database. */
  function Recorded(r: ActionResult): ActionResult {
    r.(output := Canonical(JsonSafe(r.output)), metadata := Canonical(JsonSafe(r.metadata)))
  }

  /** The results agree field by field, output and metadata as JSON. */
  ghost predicate SameResult(r: ActionResult, q: ActionResult) {
    && r.actionId == q.actionId && r.ok == q.ok && r.status == q.status
    && r.error == q.error && r.fingerprint == q.fingerprint
    && Same(r.output, q.output) && Same(r.metadata, q.metadata)
  }

  /** The database gives back the result it was given, and gives it back the same ever after. */
  lemma RecordedTwice(r: ActionResult)
    ensures Recorded(Recorded(r)) == Recorded(r) && SameResult(Recorded(r), r)
  {
    DenotedTwice(r.output);
    DenotedTwice(r.metadata);
  }

  predicate Genuine(t: Ticket) {
    Hash(FromPayload(t.proposal)) == t.actionHash
  }

  /** `_row_to_pending`: rebuild the proposal and refuse a row whose hash no longer matches. */
  function Load(row: Row): Reply<Row> {
    if Genuine(row.ticket) then Ok(row) else Err(Tampered)
  }

  function Fetch(db: Db, id: string): Reply<Row> {
    if id !in db.rows then Err(NotFound) else Load(db.rows[id])
  }

  predicate Known(db: Db, actionId: string, hash: Digest) {
    exists id :: id in db.rows && (db.rows[id].ticket.actionId == actionId || db.rows[id].ticket.actionHash == hash)
  }

  function NewRow(p: Proposal, id: string, now: Instant, deadline: Instant, channel: Option<string>,
    requester: Option<string>): Row {
    Row(Ticket(id, p.actionId, Hash(p), Stored(ToPayload(p)), Iso(now), Iso(deadline), channel, requester), Pending,
      None, None, None)
  }

  function CreateTx(db: Db, row: Row): Db {
    if Known(db, row.ticket.actionId, row.ticket.actionHash)
      then db else db.(rows := db.rows[row.ticket.approvalId := row])
  }

  predicate Due(row: Row, now: Instant) {
    row.status == Pending && TextLe(row.ticket.expiresAt, Iso(now))
  }

  function SweepTx(db: Db, now: Instant): Db {
    db.(rows := map id | id in db.rows :: if Due(db.rows[id], now)
      then db.rows[id].(status := Expired) else db.rows[id])
  }

  /** The new database and the exception, if any, that ends `decide` before its final read. */
  function DecideTx(db: Db, req: Request, now: Instant): (Db, Option<Error>) {
    if Blank(req.principal) || Blank(req.reason) || Blank(req.channel) then (db, Some(BadRequest))
    else if req.approvalId !in db.rows then (db, Some(NotFound))
    else
      var row := db.rows[req.approvalId];
      if row.status != Pending then (db, None)
      else match ParseTime(row.ticket.expiresAt)
           case None => (db, Some(BadTimestamp))
           case Some(deadline) =>
             if NotAfter(deadline, now)
               then (db.(rows := db.rows[req.approvalId := row.(status := Expired)]), Some(HasExpired))
             else
               var decision := if req.approved then Approved else Rejected;
               var verdict := Verdict(Iso(now), req.principal, req.reason, req.channel);
               (Db(db.rows[req.approvalId := row.(status := decision, verdict := Some(verdict))],
                   db.records + [Record(req.approvalId, row.ticket.actionHash, decision, verdict)]), None)
  }

  /** How the claim transaction ends: with the row taken, with a cached row, or refused. */
  datatype ClaimEnd = Taken | Replayed(row: Row) | Refused(error: Error)

  function ClaimTx(db: Db, id: string): (Db, ClaimEnd) {
    if id !in db.rows then (db, Refused(NotFound))
    else
      var row := db.rows[id];
      match row.status
      case Consumed => (db, match Load(row) case Ok(r) => Replayed(r) case Err(e) => Refused(e))
      case Executing => (db, Refused(WrongState))
      case Expired => (db, Refused(HasExpired))
      case Pending => (db, Refused(WrongState))
      case Rejected => (db, Refused(WrongState))
      case Approved => (db.(rows := db.rows[id := row.(status := Executing)]), Taken)
  }

  function FinalizeTx(db: Db, id: string, result: ActionResult, now: Instant): (Db, Option<Error>) {
    if id !in db.rows || db.rows[id].status != Executing then (db, Some(FinalizeLost))
    else (db.(rows := db.rows[id := db.rows[id].(status := Consumed, consumedAt := Some(Iso(now)),
      result := Some(Recorded(result)))]), None)
  }

  function RecordsOf(records: seq<Record>, id: string): seq<Record> {
    if records == [] then []
    else
      var (front, last) := (records[..|records| - 1], records[|records| - 1]);
      RecordsOf(front, id) + if last.approvalId == id then [last] else []
  }

  lemma RecordsOfSnoc(records: seq<Record>, r: Record, id: string)
    ensures RecordsOf(records + [r], id) == RecordsOf(records, id) + if r.approvalId == id then [r] else []
  {
    assert (records + [r])[..|records|] == records;
  }

  // ---- what every transaction keeps ---------------------------------------

  predicate Decided(s: Status) {
    s in {Approved, Rejected, Executing, Consumed}
  }

  /** The record that a decided row must have, and no other. */
  predicate Matches(row: Row, r: Record) {
    && r.approvalId == row.ticket.approvalId && r.actionHash == row.ticket.actionHash && row.verdict == Some(r.verdict)
    && r.decision == (if row.status == Rejected then Rejected else Approved)
    && !TextLe(row.ticket.expiresAt, r.verdict.at)
  }

  ghost predicate TicketInv(t: Ticket) {
    Genuine(t) && Readable(t.expiresAt)
  }

  ghost predicate RowInv(rows: map<string, Row>, records: seq<Record>, id: string)
    requires id in rows
  {
    var (row, rs) := (rows[id], RecordsOf(records, id));
    && row.ticket.approvalId == id
    && row.ticket.actionHash.preimage.actionId == row.ticket.actionId
    && (if Decided(row.status) then |rs| == 1 && Matches(row, rs[0]) else rs == [] && row.verdict == None)
    && (row.status == Consumed <==> row.result.Some?) && (row.status == Consumed <==> row.consumedAt.Some?)
  }

  ghost predicate DbInv(db: Db) {
    && (forall id {:trigger RowInv(db.rows, db.records, id)} :: id in db.rows ==> RowInv(db.rows, db.records, id))
    && (forall id {:trigger TicketInv(db.rows[id].ticket)} :: id in db.rows ==> TicketInv(db.rows[id].ticket))
    && (forall r :: r in db.records ==> r.approvalId in db.rows)
    && (forall i, j :: i in db.rows && j in db.rows && db.rows[i].ticket.actionId == db.rows[j].ticket.actionId ==>
      i == j)
  }

  lemma NoRecords(records: seq<Record>, id: string)
    requires forall r :: r in records ==> r.approvalId != id
    ensures RecordsOf(records, id) == []
  {
    if records != [] {
      NoRecords(records[..|records| - 1], id);
    }
  }

  /** Changing what is mutable in one row, and recording a decision for it, concerns that row alone. */
  lemma OneRowChanged(db: Db, id: string, row: Row, added: seq<Record>)
    requires DbInv(db) && id in db.rows && row.ticket == db.rows[id].ticket
    requires |added| <= 1 && (added != [] ==> added[0].approvalId == id)
    requires RowInv(db.rows[id := row], db.records + added, id)
    ensures DbInv(Db(db.rows[id := row], db.records + added))
  {
    var db' := Db(db.rows[id := row], db.records + added);
    forall k | k in db'.rows
      ensures RowInv(db'.rows, db'.records, k) && TicketInv(db'.rows[k].ticket)
    {
      assert RowInv(db.rows, db.records, k) && TicketInv(db.rows[k].ticket);
      if k != id {
        if added != [] { RecordsOfSnoc(db.records, added[0], k); }
        assert added == [] ==> db'.records == db.records;
        assert RecordsOf(db'.records, k) == RecordsOf(db.records, k);
      }
    }
  }

  lemma CreateKeeps(db: Db, p: Proposal, id: string, now: Instant, deadline: Instant, channel: Option<string>,
    requester: Option<string>)
    requires DbInv(db) && id !in db.rows
    ensures DbInv(CreateTx(db, NewRow(p, id, now, deadline, channel, requester)))
  {
    var row := NewRow(p, id, now, deadline, channel, requester);
    RoundTrip(p);
    ExpiryAgreement(deadline);
    InsertKeeps(db, row);
  }

  lemma InsertKeeps(db: Db, row: Row)
    requires DbInv(db) && row.ticket.approvalId !in db.rows && TicketInv(row.ticket)
    requires row.ticket.actionHash.preimage.actionId == row.ticket.actionId
    requires row.status == Pending && row.verdict == None && row.result == None && row.consumedAt == None
    ensures DbInv(CreateTx(db, row))
  {
    var (id, db') := (row.ticket.approvalId, CreateTx(db, row));
    NoRecords(db.records, id);
    forall k | k in db'.rows
      ensures RowInv(db'.rows, db'.records, k) && TicketInv(db'.rows[k].ticket)
    {
      if k in db.rows { assert RowInv(db.rows, db.records, k) && TicketInv(db.rows[k].ticket); }
    }
  }

  lemma SweepKeeps(db: Db, now: Instant)
    requires DbInv(db)
    ensures DbInv(SweepTx(db, now))
  {
    var db' := SweepTx(db, now);
    forall k | k in db'.rows
      ensures RowInv(db'.rows, db'.records, k) && TicketInv(db'.rows[k].ticket)
    {
      assert RowInv(db.rows, db.records, k) && TicketInv(db.rows[k].ticket);
    }
  }

  lemma DecideKeeps(db: Db, req: Request, now: Instant)
    requires DbInv(db)
    ensures DbInv(DecideTx(db, req, now).0)
    ensures DecideTx(db, req, now).1 != Some(BadTimestamp)
  {
    var id := req.approvalId;
    if id in db.rows && db.rows[id].status == Pending {
      var row := db.rows[id];
      assert RowInv(db.rows, db.records, id) && TicketInv(row.ticket);
      if NotAfter(ParseTime(row.ticket.expiresAt).value, now) {
        assert db.records + [] == db.records;
        OneRowChanged(db, id, row.(status := Expired), []);
      } else {
        var decision := if req.approved then Approved else Rejected;
        var verdict := Verdict(Iso(now), req.principal, req.reason, req.channel);
        var record := Record(id, row.ticket.actionHash, decision, verdict);
        RecordsOfSnoc(db.records, record, id);
        OneRowChanged(db, id, row.(status := decision, verdict := Some(verdict)), [record]);
      }
    }
  }

  lemma ClaimKeeps(db: Db, id: string)
    requires DbInv(db)
    ensures DbInv(ClaimTx(db, id).0)
  {
    var db' := ClaimTx(db, id).0;
    if db' != db {
      assert RowInv(db.rows, db.records, id);
      assert db.records + [] == db.records;
      OneRowChanged(db, id, db'.rows[id], []);
    }
  }

  lemma FinalizeKeeps(db: Db, id: string, result: ActionResult, now: Instant)
    requires DbInv(db)
    ensures DbInv(FinalizeTx(db, id, result, now).0)
  {
    var db' := FinalizeTx(db, id, result, now).0;
    if db' != db {
      assert RowInv(db.rows, db.records, id);
      assert db.records + [] == db.records;
      OneRowChanged(db, id, db'.rows[id], []);
    }
  }

  /** A sweep expires exactly the pending rows that a decision at the same instant would expire. */
  lemma SweepAgreesWithDecide(db: Db, req: Request, now: Instant)
    requires DbInv(db) && req.approvalId in db.rows
    requires !Blank(req.principal) && !Blank(req.reason) && !Blank(req.channel)
    ensures Due(db.rows[req.approvalId], now) <==> DecideTx(db, req, now).1 == Some(HasExpired)
    ensures Due(db.rows[req.approvalId], now) ==>
              SweepTx(db, now).rows[req.approvalId] == DecideTx(db, req, now).0.rows[req.approvalId]
  {
    assert TicketInv(db.rows[req.approvalId].ticket);
  }

  // ---- the store object ---------------------------------------------------

  class PendingActionStore {
    var rows: map<string, Row>
    var records: seq<Record>

    ghost function View(): Db reads this { Db(rows, records) }

    constructor ()
      ensures View() == Db(map[], [])
    {
      rows, records := map[], [];
    }

    method CreateOrGet(p: Proposal, freshId: string, now: Instant, deadline: Instant, channel: Option<string>,
      requester: Option<string>)
      returns (reply: Reply<Row>, created: bool)
      requires DbInv(View()) && freshId !in rows
      modifies this
      ensures DbInv(View())
      ensures View() == CreateTx(old(View()), NewRow(p, freshId, now, deadline, channel, requester))
      ensures created <==> !old(Known(View(), p.actionId, Hash(p)))
      ensures reply.Ok? && reply.value.ticket.actionId == p.actionId
              && Fetch(View(), reply.value.ticket.approvalId) == reply
    {
      CreateKeeps(View(), p, freshId, now, deadline, channel, requester);
      var hash := Hash(p);
      if id :| id in rows && (rows[id].ticket.actionId == p.actionId || rows[id].ticket.actionHash == hash) {
        assert RowInv(rows, records, id) && TicketInv(rows[id].ticket);
        return Load(rows[id]), false;
      }
      rows := rows[freshId := NewRow(p, freshId, now, deadline, channel, requester)];
      assert TicketInv(rows[freshId].ticket);
      reply, created := Load(rows[freshId]), true;
    }

    method ExpireDue(now: Instant) returns (expired: set<string>)
      requires DbInv(View())
      modifies this
      ensures DbInv(View()) && View() == SweepTx(old(View()), now)
      ensures forall id :: id in expired <==> id in old(rows) && Due(old(rows)[id], now)
    {
      SweepKeeps(View(), now);
      expired := set id | id in rows && Due(rows[id], now);
      rows := map id | id in rows :: if id in expired then rows[id].(status := Expired) else rows[id];
      assert rows == SweepTx(old(View()), now).rows;
    }

    method Decide(req: Request, now: Instant) returns (reply: Reply<Row>)
      requires DbInv(View())
      modifies this
      ensures DbInv(View()) && View() == DecideTx(old(View()), req, now).0
      ensures reply == match DecideTx(old(View()), req, now).1
              case Some(e) => Err(e)
              case None => Fetch(View(), req.approvalId)
    {
      DecideKeeps(View(), req, now);
      if Blank(req.principal) || Blank(req.reason) || Blank(req.channel) { return Err(BadRequest); }
      if req.approvalId !in rows { return Err(NotFound); }
      var row := rows[req.approvalId];
      if row.status == Pending {
        var deadline := ParseTime(row.ticket.expiresAt);
        if deadline.None? { return Err(BadTimestamp); }
        if NotAfter(deadline.value, now) {
          rows := rows[req.approvalId := row.(status := Expired)];
          return Err(HasExpired);
        }
        var verdict := Verdict(Iso(now), req.principal, req.reason, req.channel);
        row := row.(status := if req.approved then Approved else Rejected, verdict := Some(verdict));
        records := records + [Record(req.approvalId, row.ticket.actionHash, row.status, verdict)];
        rows := rows[req.approvalId := row];
      }
      reply := Load(rows[req.approvalId]);
    }

    method Claim(id: string) returns (reply: Reply<Row>, replayed: bool)
      requires DbInv(View())
      modifies this
      ensures DbInv(View()) && View() == ClaimTx(old(View()), id).0
      ensures match ClaimTx(old(View()), id).1
              case Taken => reply == Fetch(View(), id) && !replayed
              case Replayed(row) => reply == Ok(row) && replayed
              case Refused(e) => reply == Err(e)
    {
      ClaimKeeps(View(), id);
      replayed := false;
      if id !in rows { return Err(NotFound), false; }
      var row := rows[id];
      if row.status == Consumed { return Load(row), true; }
      if row.status == Executing { return Err(WrongState), false; }
      if row.status == Expired { return Err(HasExpired), false; }
      if row.status != Approved { return Err(WrongState), false; }
      rows := rows[id := row.(status := Executing)];
      reply := Load(rows[id]);
    }

    method Finalize(id: string, result: ActionResult, now: Instant) returns (reply: Reply<Row>)
      requires DbInv(View())
      modifies this
      ensures DbInv(View()) && View() == FinalizeTx(old(View()), id, result, now).0
      ensures reply == match FinalizeTx(old(View()), id, result, now).1
              case Some(e) => Err(e)
              case None => Fetch(View(), id)
    {
      FinalizeKeeps(View(), id, result, now);
      if id !in rows || rows[id].status != Executing { return Err(FinalizeLost); }
      rows := rows[id := rows[id].(status := Consumed, consumedAt := Some(Iso(now)), result := Some(Recorded(result)))];
      reply := Load(rows[id]);
    }
  }
}
