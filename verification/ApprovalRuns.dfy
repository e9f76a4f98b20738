/**
  What holds over every run of the trusted approval inbox: exact-once execution,
  what callers are told, where decisions come from, how rows age, and what becomes
  of a row whose caller died.
 */
module ApprovalRuns {
  import opened Prelude
  import opened Timestamps
  import opened Proposals
  import opened ApprovalStore
  import opened ApprovalInbox

  // ---- exact-once execution -----------------------------------------------

  /** The row is consumed and has this result, field by field. */
  ghost predicate Kept(db: Db, id: string, done: ActionResult) {
    In(db, id, Consumed) && db.rows[id].result.Some? && SameResult(db.rows[id].result.value, done)
  }

  /**
    Over every run: no approval and no action is executed twice, and a consumed
    row stores the result of the one call that was made for it.
   */
  lemma {:induction false} ExactOnce(ls: seq<Label>)
    ensures var s := Run(ls);
            forall i, j :: 0 <= i < j < |s.calls| ==>
              s.calls[i].approvalId != s.calls[j].approvalId
                && s.calls[i].proposal.actionId != s.calls[j].proposal.actionId
    ensures var s := Run(ls);
            forall id :: In(s.db, id, Consumed) ==>
              exists i :: 0 <= i < |s.calls| && s.calls[i].approvalId == id && s.calls[i].result.Some?
                && Kept(s.db, id, s.calls[i].result.value)
  {
    Reachable(ls);
    var s := Run(ls);
    forall i, j | 0 <= i < j < |s.calls|
      ensures s.calls[i].approvalId != s.calls[j].approvalId
              && s.calls[i].proposal.actionId != s.calls[j].proposal.actionId
    {
      CallBelongsToAction(s, i);
      CallBelongsToAction(s, j);
    }
    forall id | In(s.db, id, Consumed)
      ensures exists i ::
              0 <= i < |s.calls| && s.calls[i].approvalId == id && s.calls[i].result.Some?
              && Kept(s.db, id, s.calls[i].result.value)
    {
      var i :| 0 <= i < |s.calls| && s.calls[i].approvalId == id;
      assert CallInv(s.db, s.calls[i]);
      RecordedTwice(s.calls[i].result.value);
    }
  }

  /**
    Every call carries the stored proposal's hash and scopes, its row's id and
    expiry, and the words of the one APPROVED record of its row.
   */
  lemma {:induction false} CallCarriesDecision(ls: seq<Label>, i: nat)
    requires i < |Run(ls).calls|
    ensures var s := Run(ls); var call := s.calls[i]; var id := call.approvalId;
            && id in s.db.rows
            && Hash(call.proposal) == s.db.rows[id].ticket.actionHash == call.approval.actionHash
            && call.approval.approvalId == id && call.approval.scopes == call.proposal.scopes
            && call.approval.expiresAt == s.db.rows[id].ticket.expiresAt
            && OneApproval(s.db, call)
  {
    Reachable(ls);
    var s := Run(ls);
    assert CallInv(s.db, s.calls[i]);
    var id := s.calls[i].approvalId;
    assert RowInv(s.db.rows, s.db.records, id) && TicketInv(s.db.rows[id].ticket);
  }

  /** The row has one record, an APPROVED one, in the words of the approval. */
  predicate OneApproval(db: Db, call: Call) {
    var rs := RecordsOf(db.records, call.approvalId);
    && |rs| == 1 && rs[0].decision == Approved && rs[0].actionHash == call.approval.actionHash
    && rs[0].verdict.at == call.approval.issuedAt && rs[0].verdict.principal == call.approval.principal
    && rs[0].verdict.reason == call.approval.reason && rs[0].verdict.channel == call.approval.channel
  }

  // ---- where rows and calls come from ---------------------------------------

  /** The ticket says what was put into the store. */
  ghost predicate Born(l: Label, t: Ticket)
    requires l.Create?
  {
    && t.approvalId == l.freshId && t.actionId == l.proposal.actionId && t.actionHash == Hash(l.proposal)
    && Alike(FromPayload(t.proposal), l.proposal)
    && FromPayload(t.proposal).correlationId == l.proposal.correlationId
    && t.requestedAt == Iso(l.at) && t.expiresAt == Iso(l.deadline)
    && t.requestChannel == l.channel && t.requestedBy == l.requester
  }

  ghost predicate Stems(ls: seq<Label>, n: int, id: string, t: Ticket) {
    0 <= n < |ls| && ls[n].Create? && ls[n].freshId == id && Born(ls[n], t)
  }

  /** A row is new only by its own creation, and starts out pending. */
  lemma NewRowsAreCreated(s: Sys, l: Label, id: string)
    requires id in Step(s, l).db.rows && id !in s.db.rows
    ensures l.Create? && l.freshId == id
    ensures Step(s, l).db.rows[id] == NewRow(l.proposal, id, l.at, l.deadline, l.channel, l.requester)
  {
    if l.Act? && l.c in s.callers { ActAddsNoRow(s, l.c, l.move); }
  }

  lemma ActAddsNoRow(s: Sys, c: nat, move: Move)
    requires c in s.callers
    ensures ActStep(s, c, move).db.rows.Keys == s.db.rows.Keys
  {
  }

  /** Over every run each row is what one creation put into the store. */
  lemma {:induction false} RowsStemFromCreations(ls: seq<Label>, id: string)
    requires id in Run(ls).db.rows
    ensures exists n :: Stems(ls, n, id, Run(ls).db.rows[id].ticket)
    decreases |ls|
  {
    var (front, l) := (ls[..|ls| - 1], ls[|ls| - 1]);
    if id in Run(front).db.rows {
      RowsStemFromCreations(front, id);
      StepGrows(Run(front), l);
      var n :| Stems(front, n, id, Run(front).db.rows[id].ticket);
      assert ls[n] == front[n];
      assert Stems(ls, n, id, Run(ls).db.rows[id].ticket);
    } else {
      NewRowsAreCreated(Run(front), l, id);
      RoundTrip(l.proposal);
      assert Stems(ls, |ls| - 1, id, Run(ls).db.rows[id].ticket);
    }
  }

  /** The call executes what was put into the store, under an approval of that and of nothing more. */
  ghost predicate CallsFor(call: Call, l: Label)
    requires l.Create?
  {
    && call.approvalId == l.freshId && Alike(call.proposal, l.proposal)
    && call.proposal.correlationId == l.proposal.correlationId
    && call.approval.actionHash == Hash(l.proposal) && call.approval.scopes == l.proposal.scopes
    && call.approval.expiresAt == Iso(l.deadline)
  }

  /** Over every run the proposal of each call agrees, field by field, with the proposal of a creation in that run. */
  lemma {:induction false} CallsStemFromCreations(ls: seq<Label>, i: nat)
    requires i < |Run(ls).calls|
    ensures exists n :: 0 <= n < |ls| && ls[n].Create? && CallsFor(Run(ls).calls[i], ls[n])
  {
    var (s, call) := (Run(ls), Run(ls).calls[i]);
    CallCarriesDecision(ls, i);
    Reachable(ls);
    assert CallInv(s.db, call);
    RowsStemFromCreations(ls, call.approvalId);
    var n :| Stems(ls, n, call.approvalId, s.db.rows[call.approvalId].ticket);
    assert CallsFor(call, ls[n]);
  }

  // ---- what callers are told --------------------------------------------------

  /**
    Every result handed to any caller is the stored one, so any two callers of an
    approval are told the same; and no caller meets an integrity failure, an
    unreadable expiry or a finalization that lost its row.
   */
  lemma {:induction false} CallersAgree(ls: seq<Label>, c: nat)
    requires c in Run(ls).callers
    ensures var s := Run(ls); var st := s.callers[c];
            st.Returned? && st.outcome.result.Some? ==> Kept(s.db, st.req.approvalId, st.outcome.result.value)
    ensures var st := Run(ls).callers[c]; st.Raised? ==> st.error !in {Tampered, FinalizeLost, BadTimestamp}
  {
    Reachable(ls);
    var (s, st) := (Run(ls), Run(ls).callers[c]);
    assert StageInv(s.db, s.calls, st);
    if st.Returned? && st.outcome.result.Some? { RecordedTwice(st.outcome.result.value); }
  }

  /** Every row can be loaded and its expiry read, and has a result exactly when it is consumed. */
  lemma {:induction false} RowIsGood(ls: seq<Label>, id: string)
    requires id in Run(ls).db.rows
    ensures GoodRow(Run(ls).db, id)
  {
    Reachable(ls);
    InvGivesGood(Run(ls).db, id);
  }

  ghost predicate GoodRow(db: Db, id: string) {
    && id in db.rows && Readable(db.rows[id].ticket.expiresAt)
    && Fetch(db, id) == Ok(db.rows[id]) == Load(db.rows[id])
    && (db.rows[id].result.Some? <==> db.rows[id].status == Consumed)
  }

  lemma InvGivesGood(db: Db, id: string)
    requires DbInv(db) && id in db.rows
    ensures GoodRow(db, id)
  {
    assert TicketInv(db.rows[id].ticket) && RowInv(db.rows, db.records, id);
  }

  /** How far a decision at this instant gets: refused as it is, of no row, too late, or made. */
  ghost predicate DecisionLeadsTo(db: Db, req: Request, at: Instant, st: Stage) {
    var blank := Blank(req.principal) || Blank(req.reason) || Blank(req.channel);
    && (st == Raised(req, BadRequest) <==> blank)
    && (st == Raised(req, NotFound) <==> !blank && req.approvalId !in db.rows)
    && (st == ReadingExpired(req) <==> !blank && req.approvalId in db.rows && Due(db.rows[req.approvalId], at))
    && (st == Rereading(req) <==> !blank && req.approvalId in db.rows && !Due(db.rows[req.approvalId], at))
  }

  lemma DecideStepLeads(s: Sys, c: nat, at: Instant)
    requires c in s.callers && s.callers[c].Deciding?
    requires s.callers[c].req.approvalId in s.db.rows ==> GoodRow(s.db, s.callers[c].req.approvalId)
    ensures DecisionLeadsTo(s.db, s.callers[c].req, at, Step(s, Act(c, Move.Decide(at))).callers[c])
  {
  }

  /** Where a decision leaves its caller, exactly. */
  lemma {:induction false} DecideLeads(ls: seq<Label>, c: nat, at: Instant)
    requires c in Run(ls).callers && Run(ls).callers[c].Deciding?
    ensures DecisionLeadsTo(Run(ls).db, Run(ls).callers[c].req, at, Run(ls + [Act(c, Move.Decide(at))]).callers[c])
  {
    var s := Run(ls);
    if s.callers[c].req.approvalId in s.db.rows { RowIsGood(ls, s.callers[c].req.approvalId); }
    DecideStepLeads(s, c, at);
    RunSnoc(ls, Act(c, Move.Decide(at)));
  }

  lemma RunSnoc(ls: seq<Label>, l: Label)
    ensures Run(ls + [l]) == Step(Run(ls), l)
  {
    assert (ls + [l])[..|ls|] == ls;
  }

  /** How far a claim of this row gets; what is replayed is the stored result. */
  ghost predicate ClaimLeadsTo(row: Row, req: Request, st: Stage) {
    && (st == RereadingClaim(req) <==> row.status == Approved)
    && (st == Returned(req, Outcome(row, row.result, true)) <==> row.status == Consumed)
    && (st == Raised(req, HasExpired) <==> row.status == Expired)
    && (st == Raised(req, WrongState) <==> row.status in {Pending, Rejected, Executing})
  }

  lemma ClaimStepLeads(s: Sys, c: nat)
    requires c in s.callers && s.callers[c].Claiming? && GoodRow(s.db, s.callers[c].req.approvalId)
    ensures ClaimLeadsTo(s.db.rows[s.callers[c].req.approvalId], s.callers[c].req,
      Step(s, Act(c, Move.Claim)).callers[c])
  {
  }

  /** Where a claim leaves its caller, exactly. */
  lemma {:induction false} ClaimLeads(ls: seq<Label>, c: nat)
    requires c in Run(ls).callers && Run(ls).callers[c].Claiming?
    requires Run(ls).callers[c].req.approvalId in Run(ls).db.rows
    ensures ClaimLeadsTo(Run(ls).db.rows[Run(ls).callers[c].req.approvalId], Run(ls).callers[c].req,
      Run(ls + [Act(c, Move.Claim)]).callers[c])
  {
    RowIsGood(ls, Run(ls).callers[c].req.approvalId);
    ClaimStepLeads(Run(ls), c);
    RunSnoc(ls, Act(c, Move.Claim));
  }

  /**
    What a caller is told on re-reading its decided row: it goes on to claim
    exactly if it approved and the row is approved; it is refused exactly if it
    approved and the row is executing; and otherwise it is shown the row, with the
    stored result exactly of a consumed one, and as replayed unless the row was
    rejected or has expired.
   */
  lemma {:induction false} DecisionAnswers(ls: seq<Label>, c: nat)
    requires c in Run(ls).callers && Run(ls).callers[c].Rereading?
    ensures Run(ls).callers[c].req.approvalId in Run(ls).db.rows
    ensures RereadLeadsTo(Run(ls).db.rows[Run(ls).callers[c].req.approvalId], Run(ls).callers[c].req,
      Run(ls + [Act(c, Move.Read)]).callers[c])
  {
    RereadsDecided(ls, c);
    RowIsGood(ls, Run(ls).callers[c].req.approvalId);
    RereadStepLeads(Run(ls), c);
    RunSnoc(ls, Act(c, Move.Read));
  }

  ghost predicate RereadLeadsTo(row: Row, req: Request, st: Stage) {
    && (st == Claiming(req) <==> req.approved && row.status == Approved)
    && (st == Raised(req, WrongState) <==> req.approved && row.status == Executing)
    && (st.Returned? <==> !(req.approved && row.status in {Approved, Executing}))
    && (st.Returned? ==> st.req == req && st.outcome.pending == row && st.outcome.result == row.result)
    && (st.Returned? ==> (st.outcome.replayed <==> row.status in {Approved, Executing, Consumed}))
  }

  lemma RereadStepLeads(s: Sys, c: nat)
    requires c in s.callers && s.callers[c].Rereading? && GoodRow(s.db, s.callers[c].req.approvalId)
    requires s.db.rows[s.callers[c].req.approvalId].status != Pending
    ensures RereadLeadsTo(s.db.rows[s.callers[c].req.approvalId], s.callers[c].req,
      Step(s, Act(c, Move.Read)).callers[c])
  {
  }

  lemma {:induction false} RereadsDecided(ls: seq<Label>, c: nat)
    requires c in Run(ls).callers && Run(ls).callers[c].Rereading?
    ensures var (s, id) := (Run(ls), Run(ls).callers[c].req.approvalId);
            id in s.db.rows && s.db.rows[id].status != Pending
  {
    Reachable(ls);
    assert StageInv(Run(ls).db, Run(ls).calls, Run(ls).callers[c]);
  }

  /**
    What a caller sees on its other reads: an expired row without a result, the
    row it has claimed, or the row that now keeps its own result, as executed by
    itself.
   */
  lemma {:induction false} ReadAnswers(ls: seq<Label>, c: nat)
    requires c in Run(ls).callers && Run(ls).callers[c].req.approvalId in Run(ls).db.rows
    ensures var (s, req) := (Run(ls), Run(ls).callers[c].req); var st := Step(s, Act(c, Move.Read)).callers[c];
            var row := s.db.rows[req.approvalId];
            && (s.callers[c].ReadingExpired? ==>
              st == Returned(req, Outcome(row, None, false)) && row.status == Expired)
            && (s.callers[c].RereadingClaim? ==> st == Calling(req, row) && row.status == Executing)
            && (s.callers[c].RereadingFinal? ==>
              && st == Returned(req, Outcome(row, Some(s.callers[c].done), false)) && row.status == Consumed
              && Kept(s.db, req.approvalId, s.callers[c].done))
  {
    Reachable(ls);
    var (s, st) := (Run(ls), Run(ls).callers[c]);
    assert StageInv(s.db, s.calls, st);
    FetchSucceeds(s.db, st.req.approvalId);
    if st.RereadingFinal? { RecordedTwice(st.done); }
  }

  /**
    A caller comes back with a result exactly when the row it is shown is
    consumed; and one that approved never comes back with the action undecided or
    still to be executed.
   */
  lemma {:induction false} ReturnsMean(ls: seq<Label>, c: nat)
    requires c in Run(ls).callers && Run(ls).callers[c].Returned?
    ensures var st := Run(ls).callers[c];
            && (st.outcome.result.Some? <==> st.outcome.pending.status == Consumed)
            && (st.req.approved ==> st.outcome.pending.status in {Rejected, Expired, Consumed})
            && st.outcome.pending.status != Pending
  {
    Reachable(ls);
    assert StageInv(Run(ls).db, Run(ls).calls, Run(ls).callers[c]);
  }

  /**
    Of all callers of an approval at most one is told that it executed the
    action; every other result is marked as replayed.
   */
  lemma {:induction false} OneExecutor(ls: seq<Label>, c: nat, d: nat)
    requires c in Run(ls).callers && d in Run(ls).callers
             && Run(ls).callers[c].req.approvalId == Run(ls).callers[d].req.approvalId
    requires ToldExecuted(Run(ls).callers[c]) && ToldExecuted(Run(ls).callers[d])
    ensures c == d
  {
    Reachable(ls);
    assert Held(Run(ls).callers[c]) == Held(Run(ls).callers[d]);
  }

  // ---- provenance ---------------------------------------------------------

  /** Somebody came with this request. */
  ghost predicate Asked(ls: seq<Label>, req: Request) {
    exists i :: 0 <= i < |ls| && ls[i].Arrive? && ls[i].req == req
  }

  /** The record says what a request asked for, in the request's own words. */
  predicate Words(r: Record, req: Request) {
    && r.approvalId == req.approvalId && r.decision == (if req.approved then Approved else Rejected)
    && r.verdict.principal == req.principal && r.verdict.reason == req.reason && r.verdict.channel == req.channel
    && !Blank(req.principal) && !Blank(req.reason) && !Blank(req.channel)
  }

  ghost predicate Traced(ls: seq<Label>, r: Record) {
    exists req :: Asked(ls, req) && Words(r, req)
  }

  lemma AskedGrows(ls: seq<Label>, l: Label, req: Request)
    requires Asked(ls, req)
    ensures Asked(ls + [l], req)
  {
    var i :| 0 <= i < |ls| && ls[i].Arrive? && ls[i].req == req;
    assert (ls + [l])[i] == ls[i];
  }

  /** The records grow, at most, by one in the words of the request. */
  ghost predicate Adds(db: Db, db': Db, req: Request) {
    db'.records == db.records || exists r :: db'.records == db.records + [r] && Words(r, req)
  }

  lemma RecordsStep(s: Sys, l: Label)
    ensures Step(s, l).db.records == s.db.records
            || (l.Act? && l.c in s.callers && Adds(s.db, Step(s, l).db, s.callers[l.c].req))
  {
    var (db, db') := (s.db, Step(s, l).db);
    if db'.records != db.records {
      assert db'.records == db.records + [db'.records[|db.records|]];
      assert Words(db'.records[|db.records|], s.callers[l.c].req);
    }
  }

  /** Nobody's request ever changes. */
  lemma RequestsStay(s: Sys, l: Label)
    ensures var s' := Step(s, l);
            forall c :: c in s'.callers ==>
              if c in s.callers then s'.callers[c].req == s.callers[c].req else l.Arrive? && s'.callers[c].req == l.req
  {
    if l.Act? && l.c in s.callers {
      OthersStay(s, l.c, l.move);
    }
  }

  /**
    Over every run, each approval record was asked for by a caller in exactly its
    words; in particular nothing is approved unless someone approved it.
   */
  lemma {:induction false} Provenance(ls: seq<Label>)
    ensures forall r :: r in Run(ls).db.records ==> Traced(ls, r)
    ensures forall c :: c in Run(ls).callers ==> Asked(ls, Run(ls).callers[c].req)
    decreases |ls|
  {
    if ls != [] {
      var (front, l) := (ls[..|ls| - 1], ls[|ls| - 1]);
      var (s, s') := (Run(front), Run(ls));
      assert ls == front + [l];
      Provenance(front);
      RecordsStep(s, l);
      RequestsStay(s, l);
      forall req | Asked(front, req)
        ensures Asked(ls, req)
      {
        AskedGrows(front, l, req);
      }
      forall c | c in s'.callers
        ensures Asked(ls, s'.callers[c].req)
      {
        if c !in s.callers { assert ls[|front|] == l; }
      }
      forall r | r in s'.db.records
        ensures Traced(ls, r)
      {
        if r in s.db.records {
          var req :| Asked(front, req) && Words(r, req);
        } else {
          assert Words(r, s.callers[l.c].req);
        }
      }
    }
  }

  // ---- dates --------------------------------------------------------------

  /** Some caller made this move in the run. */
  ghost predicate Made(ls: seq<Label>, move: Move) {
    exists i :: 0 <= i < |ls| && ls[i].Act? && ls[i].move == move
  }

  ghost predicate DecidedOn(ls: seq<Label>, r: Record) {
    exists at :: Made(ls, Decide(at)) && r.verdict.at == Iso(at)
  }

  ghost predicate ConsumedOn(ls: seq<Label>, row: Row) {
    exists at :: Made(ls, Finalize(at)) && row.consumedAt == Some(Iso(at))
  }

  lemma MadeGrows(ls: seq<Label>, l: Label)
    ensures forall move :: Made(ls, move) || (l.Act? && l.move == move) ==> Made(ls + [l], move)
  {
    assert (ls + [l])[|ls|] == l;
    forall move | Made(ls, move)
      ensures Made(ls + [l], move)
    {
      var i :| 0 <= i < |ls| && ls[i].Act? && ls[i].move == move;
      assert (ls + [l])[i] == ls[i];
    }
  }

  /** A date enters the database with the move that makes it: the clock a decision or a finalization reads. */
  ghost predicate DatedBy(db: Db, db': Db, l: Label) {
    && (forall r :: r in db'.records && r !in db.records ==>
      l.Act? && l.move.Decide? && r.verdict.at == Iso(l.move.at))
    && (forall id :: id in db'.rows && db'.rows[id].consumedAt.Some? ==>
      || (id in db.rows && db.rows[id].consumedAt == db'.rows[id].consumedAt)
      || (l.Act? && l.move.Finalize? && db'.rows[id].consumedAt == Some(Iso(l.move.at))))
  }

  lemma DatesStep(s: Sys, l: Label)
    ensures DatedBy(s.db, Step(s, l).db, l)
  {
    if l.Act? && l.c in s.callers { DatesAct(s, l.c, l.move); }
  }

  lemma DatesAct(s: Sys, c: nat, move: Move)
    requires c in s.callers
    ensures DatedBy(s.db, ActStep(s, c, move).db, Act(c, move))
  {
  }

  ghost predicate AllDated(ls: seq<Label>, db: Db) {
    && (forall r :: r in db.records ==> DecidedOn(ls, r))
    && (forall id :: id in db.rows && db.rows[id].consumedAt.Some? ==> ConsumedOn(ls, db.rows[id]))
  }

  lemma DatesGrow(ls: seq<Label>, l: Label, db: Db, db': Db)
    requires AllDated(ls, db) && DatedBy(db, db', l)
    ensures AllDated(ls + [l], db')
  {
    MadeGrows(ls, l);
    forall id | id in db'.rows && db'.rows[id].consumedAt.Some?
      ensures ConsumedOn(ls + [l], db'.rows[id])
    {
      if id in db.rows && db.rows[id].consumedAt == db'.rows[id].consumedAt {
        assert ConsumedOn(ls, db.rows[id]);
      } else {
        assert Made(ls + [l], Finalize(l.move.at));
      }
    }
    forall r | r in db'.records
      ensures DecidedOn(ls + [l], r)
    {
      if r in db.records { assert DecidedOn(ls, r); } else { assert Made(ls + [l], Decide(l.move.at)); }
    }
  }

  /** Over every run: each record is dated when its decision was made, each consumed row when it was finalized. */
  lemma {:induction false} Dated(ls: seq<Label>)
    ensures AllDated(ls, Run(ls).db)
    decreases |ls|
  {
    if ls != [] {
      var (front, l) := (ls[..|ls| - 1], ls[|ls| - 1]);
      assert ls == front + [l];
      Dated(front);
      DatesStep(Run(front), l);
      DatesGrow(front, l, Run(front).db, Run(ls).db);
    }
  }

  // ---- history ------------------------------------------------------------

  predicate Edge(a: Status, b: Status) {
    match a
    case Pending => b in {Approved, Rejected, Expired}
    case Approved => b == Executing
    case Executing => b == Consumed
    case _ => false
  }

  /** What one step may do to one row and to the records. */
  ghost predicate Grows(db: Db, db': Db) {
    && db.records <= db'.records
    && forall id :: id in db.rows ==> id in db'.rows && RowGrows(db.rows[id], db'.rows[id])
  }

  predicate RowGrows(row: Row, row': Row) {
    row' == row || (row'.ticket == row.ticket && Edge(row.status, row'.status))
  }

  lemma DecideGrows(db: Db, req: Request, at: Instant)
    ensures Grows(db, DecideTx(db, req, at).0)
  {
  }

  lemma ClaimGrows(db: Db, id: string)
    ensures Grows(db, ClaimTx(db, id).0)
  {
  }

  lemma FinalizeGrows(db: Db, id: string, done: ActionResult, at: Instant)
    ensures Grows(db, FinalizeTx(db, id, done, at).0)
  {
  }

  lemma ActGrows(s: Sys, c: nat, move: Move)
    requires c in s.callers
    ensures Grows(s.db, ActStep(s, c, move).db)
  {
    var st := s.callers[c];
    match move
    case Decide(at) => DecideGrows(s.db, st.req, at);
    case Claim => ClaimGrows(s.db, st.req.approvalId);
    case Finalize(at) => if st.Finalizing? { FinalizeGrows(s.db, st.req.approvalId, st.done, at); }
    case _ => assert ActStep(s, c, move).db == s.db;
  }

  lemma StepGrows(s: Sys, l: Label)
    ensures Grows(s.db, Step(s, l).db)
  {
    if l.Act? && l.c in s.callers { ActGrows(s, l.c, l.move); }
  }

  /** What any number of steps may do to a row and to the records. */
  ghost predicate Keeps(db: Db, db': Db, id: string) {
    db.records <= db'.records && (id in db.rows ==> id in db'.rows && db'.rows[id].ticket == db.rows[id].ticket)
  }

  lemma RunCut(ls: seq<Label>, i: nat)
    requires i < |ls|
    ensures Run(ls[..i + 1]) == Step(Run(ls[..i]), ls[i])
  {
    assert ls[..i + 1][..i] == ls[..i];
  }

  lemma {:induction false} RunsKeep(ls: seq<Label>, i: nat, id: string)
    requires i <= |ls|
    ensures Keeps(Run(ls[..i]).db, Run(ls).db, id)
    decreases |ls| - i
  {
    if i == |ls| {
      assert ls[..i] == ls;
    } else {
      RunCut(ls, i);
      StepGrows(Run(ls[..i]), ls[i]);
      RunsKeep(ls, i + 1, id);
    }
  }

  /** Statuses walk along the edges, records are only appended, and no ticket is ever rewritten. */
  lemma {:induction false} HistoryGrows(ls: seq<Label>, i: nat, id: string)
    requires i < |ls| && id in Run(ls[..i]).db.rows
    ensures Run(ls[..i]).db.records <= Run(ls[..i + 1]).db.records <= Run(ls).db.records
    ensures id in Run(ls[..i + 1]).db.rows && RowGrows(Run(ls[..i]).db.rows[id], Run(ls[..i + 1]).db.rows[id])
    ensures id in Run(ls).db.rows && Run(ls).db.rows[id].ticket == Run(ls[..i]).db.rows[id].ticket
  {
    RunCut(ls, i);
    StepGrows(Run(ls[..i]), ls[i]);
    RunsKeep(ls, i, id);
    RunsKeep(ls, i + 1, id);
  }

  /** One record exactly for the decided rows; it matches the row and is dated before the row's expiry. */
  lemma {:induction false} ApprovalHistory(ls: seq<Label>, id: string)
    requires id in Run(ls).db.rows
    ensures var db := Run(ls).db; var (row, rs) := (db.rows[id], RecordsOf(db.records, id));
            && |rs| == (if row.status in {Approved, Rejected, Executing, Consumed} then 1 else 0)
            && (rs != [] ==> row.verdict == Some(rs[0].verdict) && rs[0].actionHash == row.ticket.actionHash
                             && rs[0].decision == (if row.status == Rejected then Rejected else Approved)
                             && !TextLe(row.ticket.expiresAt, rs[0].verdict.at))
            && (row.status == Consumed <==> row.consumedAt.Some?)
  {
    Reachable(ls);
    var db := Run(ls).db;
    assert RowInv(db.rows, db.records, id);
  }

  /** A row left under execution by a caller that died is never executed, finalized or released again. */
  lemma {:induction false} OrphanStays(ls: seq<Label>, more: seq<Label>, id: string)
    requires Orphan(Run(ls), id)
    ensures Orphan(Run(ls + more), id) && NoNewCall(Run(ls).calls, Run(ls + more).calls, id)
    decreases |more|
  {
    if more == [] {
      assert ls + more == ls;
    } else {
      var (front, l) := (more[..|more| - 1], more[|more| - 1]);
      assert (ls + more)[..|ls + more| - 1] == ls + front && (ls + more)[|ls + more| - 1] == l;
      OrphanStays(ls, front, id);
      Reachable(ls + front);
      OrphanStep(Run(ls + front), l, id);
    }
  }

  ghost predicate Orphan(s: Sys, id: string) {
    In(s.db, id, Executing) && forall c :: c in s.callers ==> Held(s.callers[c]) != Some(id)
  }

  /** A call history that gains nothing for `id`. */
  ghost predicate NoNewCall(calls: seq<Call>, calls': seq<Call>, id: string) {
    forall i :: 0 <= i < |calls'| && calls'[i].approvalId == id ==> i < |calls| && calls[i].approvalId == id
  }

  lemma OrphanRow(s: Sys, c: nat, move: Move, id: string)
    requires Inv(s) && Orphan(s, id) && c in s.callers
    ensures In(ActStep(s, c, move).db, id, Executing)
  {
    assert Held(s.callers[c]) != Some(id);
    if move.Decide? { DecideIsQuiet(s.db, s.callers[c].req, move.at); }
  }

  /** A move changes nobody's stage but the mover's, and nobody's request. */
  lemma OthersStay(s: Sys, c: nat, move: Move)
    requires c in s.callers
    ensures var s' := ActStep(s, c, move);
            forall d :: d in s'.callers && d != c ==> d in s.callers && s'.callers[d] == s.callers[d]
    ensures var s' := ActStep(s, c, move); c in s'.callers && s'.callers[c].req == s.callers[c].req
  {
  }

  lemma OrphanMover(s: Sys, c: nat, move: Move, id: string)
    requires c in s.callers && In(s.db, id, Executing) && Held(s.callers[c]) != Some(id)
    ensures c in ActStep(s, c, move).callers && Held(ActStep(s, c, move).callers[c]) != Some(id)
  {
  }

  lemma OrphanCalls(s: Sys, c: nat, move: Move, id: string)
    requires c in s.callers && Held(s.callers[c]) != Some(id)
    ensures NoNewCall(s.calls, ActStep(s, c, move).calls, id)
  {
  }

  lemma OrphanStep(s: Sys, l: Label, id: string)
    requires Inv(s) && Orphan(s, id)
    ensures Orphan(Step(s, l), id) && NoNewCall(s.calls, Step(s, l).calls, id)
  {
    if l.Act? && l.c in s.callers {
      OrphanRow(s, l.c, l.move, id);
      OthersStay(s, l.c, l.move);
      OrphanMover(s, l.c, l.move, id);
      OrphanCalls(s, l.c, l.move, id);
    }
  }
}
