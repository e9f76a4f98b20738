/**
  `TrustedApprovalInbox.decide_and_resume` as a machine: any number of callers,
  each at a point between two transactions or awaits, with sweeps, new pending
  actions and crashes interleaved. A run is any sequence of labels; a label that
  does not apply leaves the state alone.
 */
module ApprovalInbox {
  import opened Prelude
  import opened Timestamps
  import opened Proposals
  import opened ApprovalStore

  /** The `ActionApproval` handed to the action path. */
  datatype Approval = Approval(
    principal: string, scopes: seq<Scope>, reason: string, approvalId: string,
    actionHash: Digest, issuedAt: string, expiresAt: string, channel: string)

  datatype Call = Call(approvalId: string, proposal: Proposal, approval: Approval, result: Option<ActionResult>)

  datatype Outcome = Outcome(pending: Row, result: Option<ActionResult>, replayed: bool)

  /** Where a caller is. `k` is the position of its call in the history. */
  datatype Stage =
    | Deciding(req: Request)
    | Rereading(req: Request)
    | ReadingExpired(req: Request)
    | Claiming(req: Request)
    | RereadingClaim(req: Request)
    | Calling(req: Request, row: Row)
    | Awaiting(req: Request, k: nat)
    | Finalizing(req: Request, k: nat, done: ActionResult)
    | RereadingFinal(req: Request, done: ActionResult)
    | Returned(req: Request, outcome: Outcome)
    | Raised(req: Request, error: Error)
    | Aborted(req: Request)  // the action path raised, or the process died

  datatype Sys = Sys(db: Db, callers: map<nat, Stage>, calls: seq<Call>)

  datatype Label =
    | Create(proposal: Proposal, freshId: string, at: Instant, deadline: Instant, channel: Option<string>,
      requester: Option<string>)
    | Sweep(at: Instant)
    | Arrive(c: nat, req: Request)
    | Act(c: nat, move: Move)

  /** What one caller does next. `Die` is an exception out of the action path or a crash anywhere. */
  datatype Move = Decide(at: Instant) | Read | Claim | Call | Reply(done: ActionResult) | Finalize(at: Instant) | Die

  const EMPTY: Sys := Sys(Db(map[], []), map[], [])

  // ---- the steps ----------------------------------------------------------

  function At(s: Sys, c: nat, st: Stage): Sys {
    s.(callers := s.callers[c := st])
  }

  /** The branches of `decide_and_resume` behind the decision, in source order. */
  function AfterDecide(req: Request, row: Row): Stage {
    if !req.approved && row.status in {Approved, Executing, Consumed} then Returned(req, Outcome(row, row.result, true))
    else if row.status == Rejected then Returned(req, Outcome(row, None, false))
    else if row.status == Expired then Returned(req, Outcome(row, None, false))
    else if row.status == Consumed then Returned(req, Outcome(row, row.result, true))
    else if row.status != Approved then Raised(req, WrongState)
    else Claiming(req)
  }

  function Trusted(row: Row): Approval {
    var v := if row.verdict.Some? then row.verdict.value else Verdict("None", "None", "None", "None");
    Approval(v.principal, row.ticket.proposal.scopes, v.reason, row.ticket.approvalId,
             row.ticket.actionHash, v.at, row.ticket.expiresAt, v.channel)
  }

  function ReadStep(s: Sys, c: nat): Sys
    requires c in s.callers
  {
    var st := s.callers[c];
    if !(st.Rereading? || st.ReadingExpired? || st.RereadingClaim? || st.RereadingFinal?) then s
    else match Fetch(s.db, st.req.approvalId)
         case Err(e) => At(s, c, Raised(st.req, e))
         case Ok(row) =>
           match st
           case Rereading(req) => At(s, c, AfterDecide(req, row))
           case ReadingExpired(req) => At(s, c, Returned(req, Outcome(row, None, false)))
           case RereadingClaim(req) => At(s, c, Calling(req, row))
           case RereadingFinal(req, done) => At(s, c, Returned(req, Outcome(row, Some(done), false)))
           case _ => s
  }

  function DecideStep(s: Sys, c: nat, req: Request, at: Instant): Sys {
    match DecideTx(s.db, req, at)
    case (db, None) => At(s.(db := db), c, Rereading(req))
    case (db, Some(HasExpired)) => At(s.(db := db), c, ReadingExpired(req))
    case (db, Some(e)) => At(s.(db := db), c, Raised(req, e))
  }

  function ClaimStep(s: Sys, c: nat, req: Request): Sys {
    match ClaimTx(s.db, req.approvalId)
    case (db, Taken) => At(s.(db := db), c, RereadingClaim(req))
    case (db, Replayed(row)) => At(s.(db := db), c, Returned(req, Outcome(row, row.result, true)))
    case (db, Refused(e)) => At(s.(db := db), c, Raised(req, e))
  }

  function CallStep(s: Sys, c: nat, req: Request, row: Row): Sys {
    At(s.(calls := s.calls + [Call.Call(req.approvalId, FromPayload(row.ticket.proposal), Trusted(row), None)]), c,
      Awaiting(req, |s.calls|))
  }

  function ReplyStep(s: Sys, c: nat, req: Request, k: nat, done: ActionResult): Sys {
    if k >= |s.calls| then s
    else At(s.(calls := s.calls[k := s.calls[k].(result := Some(done))]), c, Finalizing(req, k, done))
  }

  function FinalizeStep(s: Sys, c: nat, req: Request, done: ActionResult, at: Instant): Sys {
    match FinalizeTx(s.db, req.approvalId, done, at)
    case (db, None) => At(s.(db := db), c, RereadingFinal(req, done))
    case (db, Some(e)) => At(s.(db := db), c, Raised(req, e))
  }

  function ActStep(s: Sys, c: nat, move: Move): Sys
    requires c in s.callers
  {
    var st := s.callers[c];
    match move
    case Decide(at) => if st.Deciding? then DecideStep(s, c, st.req, at) else s
    case Read => ReadStep(s, c)
    case Claim => if st.Claiming? then ClaimStep(s, c, st.req) else s
    case Call => if st.Calling? then CallStep(s, c, st.req, st.row) else s
    case Reply(done) => if st.Awaiting? then ReplyStep(s, c, st.req, st.k, done) else s
    case Finalize(at) => if st.Finalizing? then FinalizeStep(s, c, st.req, st.done, at) else s
    case Die => if st.Returned? || st.Raised? then s else At(s, c, Aborted(st.req))
  }

  function Step(s: Sys, l: Label): Sys {
    match l
    case Create(p, id, at, deadline, channel, requester) =>
      if id in s.db.rows then s else s.(db := CreateTx(s.db, NewRow(p, id, at, deadline, channel, requester)))
    case Sweep(at) => s.(db := SweepTx(s.db, at))
    case Arrive(c, req) => if c in s.callers then s else At(s, c, Deciding(req))
    case Act(c, move) => if c in s.callers then ActStep(s, c, move) else s
  }

  function Run(ls: seq<Label>): Sys {
    if ls == [] then EMPTY else Step(Run(ls[..|ls| - 1]), ls[|ls| - 1])
  }

  // ---- the invariant ------------------------------------------------------

  /** The caller was told that it executed the action itself, not that it saw a cached result. */
  predicate ToldExecuted(st: Stage) {
    st.Returned? && st.outcome.result.Some? && !st.outcome.replayed
  }

  /** The approval whose one execution this caller owns or has brought to its end. */
  function Held(st: Stage): Option<string> {
    if st.RereadingClaim? || st.Calling? || st.Awaiting? || st.Finalizing? || st.RereadingFinal? || ToldExecuted(st)
      then Some(st.req.approvalId)
    else None
  }

  predicate In(db: Db, id: string, status: Status) {
    id in db.rows && db.rows[id].status == status
  }

  ghost predicate NoCall(calls: seq<Call>, id: string) {
    forall i :: 0 <= i < |calls| ==> calls[i].approvalId != id
  }

  predicate StoredResult(db: Db, id: string, done: ActionResult) {
    In(db, id, Consumed) && db.rows[id].result == Some(Recorded(done))
  }

  ghost predicate StageInv(db: Db, calls: seq<Call>, st: Stage) {
    var id := st.req.approvalId;
    match st
    case Rereading(_) => id in db.rows && db.rows[id].status != Pending
    case ReadingExpired(_) => In(db, id, Expired)
    case RereadingClaim(_) => In(db, id, Executing) && NoCall(calls, id)
    case Calling(_, row) => In(db, id, Executing) && row == db.rows[id] && NoCall(calls, id)
    case Awaiting(_, k) => In(db, id, Executing) && k < |calls| && calls[k].approvalId == id && calls[k].result == None
    case Finalizing(_, k, done) =>
      In(db, id, Executing) && k < |calls| && calls[k].approvalId == id && calls[k].result == Some(done)
    case RereadingFinal(_, done) => StoredResult(db, id, done)
    case Returned(req, outcome) =>
      && (outcome.result.Some? ==> StoredResult(db, id, outcome.result.value))
      && (outcome.result.Some? <==> outcome.pending.status == Consumed)
      && (req.approved ==> outcome.pending.status in {Rejected, Expired, Consumed})
      && outcome.pending.status != Pending
    case Raised(_, e) => e !in {Tampered, FinalizeLost, BadTimestamp}
    case _ => true
  }

  /** A call belongs to a row under execution and carries exactly what was decided about it. */
  ghost predicate CallInv(db: Db, call: Call) {
    && call.approvalId in db.rows
    && var row := db.rows[call.approvalId];
    && (row.status == Executing
      || (row.status == Consumed && call.result.Some? && row.result == Some(Recorded(call.result.value))))
    && call.proposal == FromPayload(row.ticket.proposal)
    && call.approval == Trusted(row)
  }

  ghost predicate Called(calls: seq<Call>, id: string) {
    exists i :: 0 <= i < |calls| && calls[i].approvalId == id
  }

  ghost predicate Inv(s: Sys) {
    && DbInv(s.db)
    && (forall c {:trigger StageInv(s.db, s.calls, s.callers[c])} :: c in s.callers ==>
      StageInv(s.db, s.calls, s.callers[c]))
    && (forall c, d ::
      c in s.callers && d in s.callers && Held(s.callers[c]).Some? && Held(s.callers[c]) == Held(s.callers[d]) ==>
      c == d)
    && (forall i {:trigger CallInv(s.db, s.calls[i])} :: 0 <= i < |s.calls| ==> CallInv(s.db, s.calls[i]))
    && (forall i, j :: 0 <= i < j < |s.calls| ==> s.calls[i].approvalId != s.calls[j].approvalId)
    && (forall id :: In(s.db, id, Consumed) ==> Called(s.calls, id))
  }

  predicate QuietRow(row: Row, row': Row) {
    row' == row || (row.status in {Pending, Approved} && row'.status !in {Pending, Consumed})
  }

  /** A change of the database that leaves every row under or behind execution alone. */
  ghost predicate Quiet(db: Db, db': Db) {
    && (forall id :: id in db.rows ==> id in db'.rows && QuietRow(db.rows[id], db'.rows[id]))
    && (forall id :: id in db'.rows && id !in db.rows ==> db'.rows[id].status == Pending)
  }

  lemma QuietKeepsStage(db: Db, db': Db, calls: seq<Call>, st: Stage)
    requires Quiet(db, db') && StageInv(db, calls, st)
    ensures StageInv(db', calls, st)
  {
    var id := st.req.approvalId;
    assert id in db.rows ==> id in db'.rows;
  }

  lemma QuietKeepsCall(db: Db, db': Db, call: Call)
    requires Quiet(db, db') && CallInv(db, call)
    ensures CallInv(db', call)
  {
    assert db'.rows[call.approvalId] == db.rows[call.approvalId];
  }

  /** A quiet change, after which one caller may move to a stage that suits it. */
  lemma QuietMove(s: Sys, db': Db, c: nat, st: Stage)
    requires Inv(s) && DbInv(db') && Quiet(s.db, db') && StageInv(db', s.calls, st)
    requires forall d :: d in s.callers && d != c && Held(st).Some? ==> Held(s.callers[d]) != Held(st)
    ensures Inv(At(s.(db := db'), c, st))
  {
    var s' := At(s.(db := db'), c, st);
    forall d | d in s'.callers
      ensures StageInv(s'.db, s'.calls, s'.callers[d])
    {
      if d != c {
        assert StageInv(s.db, s.calls, s.callers[d]);
        QuietKeepsStage(s.db, db', s.calls, s.callers[d]);
      }
    }
    QuietKeepsCalls(s, db');
  }

  lemma QuietKeepsCalls(s: Sys, db': Db)
    requires Inv(s) && Quiet(s.db, db')
    ensures forall i {:trigger CallInv(db', s.calls[i])} :: 0 <= i < |s.calls| ==> CallInv(db', s.calls[i])
    ensures forall id :: In(db', id, Consumed) ==> Called(s.calls, id)
  {
    forall i | 0 <= i < |s.calls|
      ensures CallInv(db', s.calls[i])
    {
      assert CallInv(s.db, s.calls[i]);
      QuietKeepsCall(s.db, db', s.calls[i]);
    }
    forall id | In(db', id, Consumed)
      ensures Called(s.calls, id)
    {
      assert In(s.db, id, Consumed);
    }
  }

  lemma QuietKeeps(s: Sys, db': Db)
    requires Inv(s) && DbInv(db') && Quiet(s.db, db')
    ensures Inv(s.(db := db'))
  {
    forall d | d in s.callers
      ensures StageInv(db', s.calls, s.callers[d])
    {
      assert StageInv(s.db, s.calls, s.callers[d]);
      QuietKeepsStage(s.db, db', s.calls, s.callers[d]);
    }
    QuietKeepsCalls(s, db');
  }

  lemma DecideIsQuiet(db: Db, req: Request, at: Instant)
    ensures Quiet(db, DecideTx(db, req, at).0)
    ensures DecideTx(db, req, at).1 == None ==>
            req.approvalId in db.rows && DecideTx(db, req, at).0.rows[req.approvalId].status != Pending
    ensures DecideTx(db, req, at).1 == Some(HasExpired) ==> In(DecideTx(db, req, at).0, req.approvalId, Expired)
    ensures DecideTx(db, req, at).1 !in {Some(Tampered), Some(FinalizeLost)}
  {
  }

  lemma DecideStepKeeps(s: Sys, c: nat, req: Request, at: Instant)
    requires Inv(s)
    ensures Inv(DecideStep(s, c, req, at))
  {
    DecideKeeps(s.db, req, at);
    var (db', e) := DecideTx(s.db, req, at);
    var st :=
      match e
      case None => Rereading(req)
      case Some(HasExpired) => ReadingExpired(req)
      case Some(e) => Raised(req, e);
    DecideIsQuiet(s.db, req, at);
    DecideStage(s.db, s.calls, req, at);
    QuietMove(s, db', c, st);
  }

  lemma DecideStage(db: Db, calls: seq<Call>, req: Request, at: Instant)
    requires DecideTx(db, req, at).1 != Some(BadTimestamp)
    ensures match DecideTx(db, req, at)
            case (db', None) => StageInv(db', calls, Rereading(req))
            case (db', Some(HasExpired)) => StageInv(db', calls, ReadingExpired(req))
            case (db', Some(e)) => StageInv(db', calls, Raised(req, e))
  {
    DecideIsQuiet(db, req, at);
  }

  lemma FetchSucceeds(db: Db, id: string)
    requires DbInv(db) && id in db.rows
    ensures Fetch(db, id) == Ok(db.rows[id])
  {
    assert TicketInv(db.rows[id].ticket);
  }

  /** A result read off a consumed row is the recorded one, and recording it again changes nothing. */
  lemma CachedResult(s: Sys, id: string)
    requires Inv(s) && id in s.db.rows && s.db.rows[id].result.Some?
    ensures StoredResult(s.db, id, s.db.rows[id].result.value)
  {
    assert RowInv(s.db.rows, s.db.records, id);
    assert In(s.db, id, Consumed);
    var i :| 0 <= i < |s.calls| && s.calls[i].approvalId == id;
    assert CallInv(s.db, s.calls[i]);
    RecordedTwice(s.calls[i].result.value);
  }

  lemma ReadStepKeeps(s: Sys, c: nat)
    requires Inv(s) && c in s.callers
    ensures Inv(ReadStep(s, c))
  {
    var st := s.callers[c];
    if st.Rereading? || st.ReadingExpired? || st.RereadingClaim? || st.RereadingFinal? {
      ReadStage(s, c);
      assert s.(db := s.db) == s;
      QuietMove(s, s.db, c, ReadStep(s, c).callers[c]);
    }
  }

  /** Where a read leaves the reader: at a stage that suits it, owning nothing it did not own before. */
  lemma ReadStage(s: Sys, c: nat)
    requires Inv(s) && c in s.callers
    requires var st := s.callers[c]; st.Rereading? || st.ReadingExpired? || st.RereadingClaim? || st.RereadingFinal?
    ensures var st' := ReadStep(s, c).callers[c];
            StageInv(s.db, s.calls, st') && (Held(st').Some? ==> Held(st') == Held(s.callers[c]))
    ensures ReadStep(s, c) == At(s, c, ReadStep(s, c).callers[c])
  {
    var st := s.callers[c];
    var id := st.req.approvalId;
    assert StageInv(s.db, s.calls, st);
    FetchSucceeds(s.db, id);
    if st.Rereading? { AfterDecideStage(s, st.req); }
  }

  /** Where the branches behind the decision lead. */
  lemma AfterDecideStage(s: Sys, req: Request)
    requires Inv(s) && req.approvalId in s.db.rows && s.db.rows[req.approvalId].status != Pending
    ensures var st := AfterDecide(req, s.db.rows[req.approvalId]); StageInv(s.db, s.calls, st) && Held(st) == None
  {
    var id := req.approvalId;
    assert RowInv(s.db.rows, s.db.records, id);
    if s.db.rows[id].result.Some? { CachedResult(s, id); }
  }

  lemma ClaimStepKeeps(s: Sys, c: nat, req: Request)
    requires Inv(s)
    ensures Inv(ClaimStep(s, c, req))
  {
    var id := req.approvalId;
    if In(s.db, id, Approved) {
      ClaimKeeps(s.db, id);
      ApprovedIsFree(s, id);
      QuietMove(s, ClaimTx(s.db, id).0, c, RereadingClaim(req));
    } else {
      LostClaimKeeps(s, c, req);
    }
  }

  lemma LostClaimKeeps(s: Sys, c: nat, req: Request)
    requires Inv(s) && !In(s.db, req.approvalId, Approved)
    ensures Inv(ClaimStep(s, c, req))
  {
    LostClaimStage(s, c, req);
    assert s.(db := s.db) == s;
    QuietMove(s, s.db, c, ClaimStep(s, c, req).callers[c]);
  }

  /** A claim that does not take the row leaves the database alone and its caller with nothing to execute. */
  lemma LostClaimStage(s: Sys, c: nat, req: Request)
    requires Inv(s) && !In(s.db, req.approvalId, Approved)
    ensures var st := ClaimStep(s, c, req).callers[c];
            ClaimStep(s, c, req) == At(s, c, st) && StageInv(s.db, s.calls, st) && Held(st) == None
  {
    var id := req.approvalId;
    if id in s.db.rows {
      FetchSucceeds(s.db, id);
      assert RowInv(s.db.rows, s.db.records, id);
      if s.db.rows[id].result.Some? { CachedResult(s, id); }
    }
  }

  /** Nobody holds, and nobody has called, what is merely approved. */
  lemma ApprovedIsFree(s: Sys, id: string)
    requires Inv(s) && In(s.db, id, Approved)
    ensures NoCall(s.calls, id)
    ensures forall d :: d in s.callers ==> Held(s.callers[d]) != Some(id)
  {
    forall i | 0 <= i < |s.calls|
      ensures s.calls[i].approvalId != id
    {
      assert CallInv(s.db, s.calls[i]);
    }
    forall d | d in s.callers
      ensures Held(s.callers[d]) != Some(id)
    {
      assert StageInv(s.db, s.calls, s.callers[d]);
    }
  }

  lemma CallStepKeeps(s: Sys, c: nat, req: Request, row: Row)
    requires Inv(s) && c in s.callers && s.callers[c] == Calling(req, row)
    ensures Inv(CallStep(s, c, req, row))
  {
    var s' := CallStep(s, c, req, row);
    assert StageInv(s.db, s.calls, s.callers[c]);
    forall d | d in s'.callers
      ensures StageInv(s'.db, s'.calls, s'.callers[d])
    {
      if d != c {
        assert StageInv(s.db, s.calls, s.callers[d]);
        assert Held(s.callers[d]) != Held(s.callers[c]);
      }
    }
    forall i | 0 <= i < |s'.calls|
      ensures CallInv(s'.db, s'.calls[i])
    {
      if i < |s.calls| { assert CallInv(s.db, s.calls[i]); }
    }
    forall id | In(s'.db, id, Consumed)
      ensures Called(s'.calls, id)
    {
      var i :| 0 <= i < |s.calls| && s.calls[i].approvalId == id;
      assert s'.calls[i].approvalId == id;
    }
  }

  lemma ReplyStepKeeps(s: Sys, c: nat, req: Request, k: nat, done: ActionResult)
    requires Inv(s) && c in s.callers && s.callers[c] == Awaiting(req, k)
    ensures Inv(ReplyStep(s, c, req, k, done))
  {
    var s' := ReplyStep(s, c, req, k, done);
    assert StageInv(s.db, s.calls, s.callers[c]);
    forall d | d in s'.callers
      ensures StageInv(s'.db, s'.calls, s'.callers[d])
    {
      if d != c {
        assert StageInv(s.db, s.calls, s.callers[d]);
        assert Held(s.callers[d]) != Held(s.callers[c]);
      }
    }
    ReplyCalls(s, k, done);
  }

  /** An answered call is still the same call. */
  lemma ReplyCalls(s: Sys, k: nat, done: ActionResult)
    requires Inv(s) && k < |s.calls| && In(s.db, s.calls[k].approvalId, Executing)
    ensures var calls := s.calls[k := s.calls[k].(result := Some(done))];
            && (forall i {:trigger CallInv(s.db, calls[i])} :: 0 <= i < |calls| ==> CallInv(s.db, calls[i]))
            && (forall id :: In(s.db, id, Consumed) ==> Called(calls, id))
  {
    var calls := s.calls[k := s.calls[k].(result := Some(done))];
    forall i | 0 <= i < |calls|
      ensures CallInv(s.db, calls[i])
    {
      assert CallInv(s.db, s.calls[i]);
    }
    forall id | In(s.db, id, Consumed)
      ensures Called(calls, id)
    {
      var i :| 0 <= i < |s.calls| && s.calls[i].approvalId == id;
      assert calls[i].approvalId == id;
    }
  }

  /** Consuming a row disturbs no one who does not hold it. */
  lemma ConsumedElsewhere(db: Db, calls: seq<Call>, st: Stage, id: string, row: Row)
    requires StageInv(db, calls, st) && In(db, id, Executing) && Held(st) != Some(id) && row.status == Consumed
    ensures StageInv(db.(rows := db.rows[id := row]), calls, st)
  {
  }

  lemma FinalizeStepKeeps(s: Sys, c: nat, req: Request, k: nat, done: ActionResult, at: Instant)
    requires Inv(s) && c in s.callers && s.callers[c] == Finalizing(req, k, done)
    ensures Inv(FinalizeStep(s, c, req, done, at))
  {
    var s' := FinalizeStep(s, c, req, done, at);
    var id := req.approvalId;
    FinalizeKeeps(s.db, id, done, at);
    assert StageInv(s.db, s.calls, s.callers[c]);
    forall d | d in s'.callers
      ensures StageInv(s'.db, s'.calls, s'.callers[d])
    {
      if d != c {
        assert StageInv(s.db, s.calls, s.callers[d]);
        assert Held(s.callers[d]) != Held(s.callers[c]);
        ConsumedElsewhere(s.db, s.calls, s.callers[d], id, s'.db.rows[id]);
      }
    }
    ConsumedCalls(s, k, s'.db);
  }

  lemma ConsumedCalls(s: Sys, k: nat, db': Db)
    requires Inv(s) && k < |s.calls| && In(s.db, s.calls[k].approvalId, Executing) && s.calls[k].result.Some?
    requires var id := s.calls[k].approvalId; var row := s.db.rows[id];
             id in db'.rows && db'.rows == s.db.rows[id := db'.rows[id]] && db'.rows[id].ticket == row.ticket
               && db'.rows[id].verdict == row.verdict
             && StoredResult(db', id, s.calls[k].result.value)
    ensures forall i {:trigger CallInv(db', s.calls[i])} :: 0 <= i < |s.calls| ==> CallInv(db', s.calls[i])
    ensures forall x :: In(db', x, Consumed) ==> Called(s.calls, x)
  {
    forall i | 0 <= i < |s.calls|
      ensures CallInv(db', s.calls[i])
    {
      assert CallInv(s.db, s.calls[i]);
      assert i != k ==> s.calls[i].approvalId != s.calls[k].approvalId;
    }
    forall x | In(db', x, Consumed)
      ensures Called(s.calls, x)
    {
      if x != s.calls[k].approvalId { assert In(s.db, x, Consumed); }
    }
  }

  lemma ActStepKeeps(s: Sys, c: nat, move: Move)
    requires Inv(s) && c in s.callers
    ensures Inv(ActStep(s, c, move))
  {
    var st := s.callers[c];
    match move
    case Decide(at) => if st.Deciding? { DecideStepKeeps(s, c, st.req, at); }
    case Read => ReadStepKeeps(s, c);
    case Claim => if st.Claiming? { ClaimStepKeeps(s, c, st.req); }
    case Call => if st.Calling? { CallStepKeeps(s, c, st.req, st.row); }
    case Reply(done) => if st.Awaiting? { ReplyStepKeeps(s, c, st.req, st.k, done); }
    case Finalize(at) => if st.Finalizing? { FinalizeStepKeeps(s, c, st.req, st.k, st.done, at); }
    case Die =>
      assert s.(db := s.db) == s;
      QuietMove(s, s.db, c, Aborted(st.req));
  }

  lemma CreateStepKeeps(s: Sys, l: Label)
    requires Inv(s) && l.Create? && l.freshId !in s.db.rows
    ensures Inv(Step(s, l))
  {
    CreateKeeps(s.db, l.proposal, l.freshId, l.at, l.deadline, l.channel, l.requester);
    QuietKeeps(s, CreateTx(s.db, NewRow(l.proposal, l.freshId, l.at, l.deadline, l.channel, l.requester)));
  }

  lemma SweepStepKeeps(s: Sys, at: Instant)
    requires Inv(s)
    ensures Inv(Step(s, Sweep(at)))
  {
    SweepKeeps(s.db, at);
    QuietKeeps(s, SweepTx(s.db, at));
  }

  lemma StepKeeps(s: Sys, l: Label)
    requires Inv(s)
    ensures Inv(Step(s, l))
  {
    match l
    case Create(p, id, _, _, _, _) => if id !in s.db.rows { CreateStepKeeps(s, l); }
    case Sweep(at) => SweepStepKeeps(s, at);
    case Arrive(c, req) =>
      assert s.(db := s.db) == s;
      if c !in s.callers { QuietMove(s, s.db, c, Deciding(req)); }
    case Act(c, move) =>
      if c in s.callers { ActStepKeeps(s, c, move); }
  }

  lemma {:induction false} Reachable(ls: seq<Label>)
    ensures Inv(Run(ls))
    decreases |ls|
  {
    if ls != [] {
      Reachable(ls[..|ls| - 1]);
      StepKeeps(Run(ls[..|ls| - 1]), ls[|ls| - 1]);
    }
  }

  lemma CallBelongsToAction(s: Sys, i: nat)
    requires Inv(s) && i < |s.calls|
    ensures s.calls[i].approvalId in s.db.rows
    ensures s.calls[i].proposal.actionId == s.db.rows[s.calls[i].approvalId].ticket.actionId
  {
    assert CallInv(s.db, s.calls[i]);
    var id := s.calls[i].approvalId;
    assert RowInv(s.db.rows, s.db.records, id) && TicketInv(s.db.rows[id].ticket);
    var q := FromPayload(s.db.rows[id].ticket.proposal);
    assert Hash(q).preimage.actionId == q.actionId;
  }
}
