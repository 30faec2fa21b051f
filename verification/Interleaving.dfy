/**
 Transactions over the club's tables, interleaved statement by statement. A transaction takes row
 locks and keeps them, stages its writes where only it sees them, and at the end either commits all
 of them at once or rolls back. Statements read the latest committed rows. Managers edit computers,
 rooms and customers in between.
 */
module Interleaving {
  import opened Wrappers
  import opened Pricing
  import opened Club
  import opened ClubLaws

  /** What can be locked: rows, and a key of the unique index on ACTIVE sessions while an insert is pending. */
  datatype Row = ComputerRow(c: Id) | SessionRow(sid: Id) | CustomerRow(u: Id) | ActiveKey(c: Id)

  datatype Stage = Waiting | Ready | Done

  /** The program of a transaction and how far it has come. */
  datatype Job =
    | Starting(req: StartRequest, groupId: Option<Id>, startedAt: int, next: nat, admitted: Option<Session>)
    | Changing(sid: Id, op: Op, stage: Stage)
    | Paying(u: Id, amount: int, progress: Stage)

  datatype Txn = Txn(job: Job, holds: set<Row>, st: Staging)

  /** `indexFired` records that the unique index has rejected an insert. */
  datatype Sys = Sys(db: Db, txns: map<Id, Txn>, indexFired: bool)

  datatype Event =
    | BeginStart(t: Id, req: StartRequest, groupId: Id, startedAt: int)
    | BeginChange(t: Id, sid: Id, op: Op)
    | BeginPay(t: Id, u: Id, amount: int)
    | Advance(t: Id, newSid: Id)
    | Commit(t: Id)
    | Rollback(t: Id)
    | Correction(u: Id, amount: int)
    | EditComputer(c: Id, computer: Computer)
    | AddComputer(c: Id, roomId: Id)
    | EditRoom(r: Id, room: Room)
    | EditCustomer(u: Id, customer: Customer)

  // ----- Steps -----

  predicate TakenByOther(sys: Sys, t: Id, row: Row) {
    exists other | other in sys.txns :: other != t && row in sys.txns[other].holds
  }

  predicate Taken(sys: Sys, row: Row) {
    exists other | other in sys.txns :: row in sys.txns[other].holds
  }

  /** An id no committed or staged session carries. */
  predicate Unused(sys: Sys, sid: Id) {
    sid !in sys.db.sessions && forall other | other in sys.txns :: sid !in sys.txns[other].st.sessions
  }

  function Put(sys: Sys, t: Id, x: Txn): Sys {
    sys.(txns := sys.txns[t := x])
  }

  function Open(sys: Sys, t: Id, job: Job): Sys {
    Put(sys, t, Txn(job, {}, NOTHING))
  }

  /** Rollback: the locks go and nothing was written. */
  function Drop(sys: Sys, t: Id): Sys {
    sys.(txns := sys.txns - {t})
  }

  predicate Finished(job: Job) {
    match job
    case Starting(req, _, _, next, admitted) => next == |req.computerIds| && admitted.None?
    case Changing(_, _, stage) => stage.Done?
    case Paying(_, _, stage) => stage.Done?
  }

  /** SELECT ... FOR UPDATE on the next computer, and the checks of the loop. */
  function AdmitNext(sys: Sys, t: Id, x: Txn): Sys
    requires x.job.Starting?
  {
    var job := x.job;
    if job.next >= |job.req.computerIds| then sys
    else
      var c := job.req.computerIds[job.next];
      if TakenByOther(sys, t, ComputerRow(c)) then sys
      else
        match Admit(Merge(sys.db, x.st), job.req, job.groupId, job.startedAt, c)
        case Err(_) => Drop(sys, t)
        case Ok(s) => Put(sys, t, x.(job := job.(admitted := Some(s)), holds := x.holds + {ComputerRow(c)}))
  }

  /** Another transaction has written, and not committed, the row of an ACTIVE session on computer c. */
  predicate RowInDoubt(sys: Sys, t: Id, c: Id) {
    exists other | other in sys.txns :: other != t && Rewrites(sys.db, sys.txns[other].st, c)
  }

  predicate Rewrites(db: Db, st: Staging, c: Id) {
    exists sid | sid in st.sessions ::
      sid in db.sessions && db.sessions[sid].status.Active? && db.sessions[sid].computerId == c
  }

  /**
   Inserting the admitted session and marking its computer IN_USE. The unique index may reject it, or make
   it wait for a transaction that is changing the row it conflicts with.
   */
  function InsertAdmitted(sys: Sys, t: Id, x: Txn, newSid: Id): Sys
    requires x.job.Starting? && x.job.admitted.Some?
  {
    var s := x.job.admitted.value;
    if TakenByOther(sys, t, ActiveKey(s.computerId)) || RowInDoubt(sys, t, s.computerId) || !Unused(sys, newSid)
       || s.computerId !in Merge(sys.db, x.st).computers then sys
    else if ActiveOn(Merge(sys.db, x.st), s.computerId) then Drop(sys, t).(indexFired := true)
    else Put(sys, t, Inserted(x, StageSession(sys.db, x.st, newSid, s)))
  }

  /** lockActive and the change of the session row, with its debt entry. */
  function ChangeRow(sys: Sys, t: Id, x: Txn): Sys
    requires x.job.Changing?
  {
    var sid := x.job.sid;
    if TakenByOther(sys, t, SessionRow(sid)) then sys
    else if sid !in sys.db.sessions || !sys.db.sessions[sid].status.Active? then Drop(sys, t)
    else
      match Changed(x.job.op, sid, sys.db.sessions[sid])
      case Err(_) => Drop(sys, t)
      case Ok(change) =>
        Put(sys, t, Txn(x.job.(stage := Ready), x.holds + {SessionRow(sid)},
                        Staging(map[sid := change.session], map[], change.entries)))
  }

  /** releaseComputer, for the operations that close the session. */
  function ReleaseRow(sys: Sys, t: Id, x: Txn): Sys
    requires x.job.Changing?
  {
    if x.job.sid !in x.st.sessions then sys
    else
      var s := x.st.sessions[x.job.sid];
      var done := x.(job := x.job.(stage := Done));
      if s.status.Active? then Put(sys, t, done)
      else if TakenByOther(sys, t, ComputerRow(s.computerId)) then sys
      else Put(sys, t, done.(holds := x.holds + {ComputerRow(s.computerId)},
                             st := x.st.(computers := Release(sys.db.computers, s.computerId))))
  }

  /** Locking the customer row of a payment. */
  function LockCustomer(sys: Sys, t: Id, x: Txn): Sys
    requires x.job.Paying?
  {
    var u := x.job.u;
    if TakenByOther(sys, t, CustomerRow(u)) then sys
    else if u !in sys.db.customers || sys.db.customers[u].deleted then Drop(sys, t)
    else Put(sys, t, x.(job := x.job.(progress := Ready), holds := x.holds + {CustomerRow(u)}))
  }

  /** Reading the committed balance and inserting the payment. */
  function CheckBalance(sys: Sys, t: Id, x: Txn): Sys
    requires x.job.Paying?
  {
    match PaymentEntry(sys.db.ledger, x.job.u, x.job.amount)
    case Err(_) => Drop(sys, t)
    case Ok(e) => Put(sys, t, x.(job := x.job.(progress := Done), st := x.st.(entries := [e])))
  }

  function AdvanceTxn(sys: Sys, t: Id, x: Txn, newSid: Id): Sys {
    match x.job
    case Starting(_, _, _, _, admitted) =>
      if admitted.None? then AdmitNext(sys, t, x) else InsertAdmitted(sys, t, x, newSid)
    case Changing(_, _, stage) =>
      if stage.Waiting? then ChangeRow(sys, t, x) else if stage.Ready? then ReleaseRow(sys, t, x) else sys
    case Paying(_, _, stage) =>
      if stage.Waiting? then LockCustomer(sys, t, x) else if stage.Ready? then CheckBalance(sys, t, x) else sys
  }

  /** One event; an event that is not enabled, such as a statement waiting for a lock, changes nothing. */
  function Step(sys: Sys, ev: Event): Sys {
    match ev
    case BeginStart(t, req, groupId, startedAt) =>
      if t in sys.txns || !ResolveCustomer(sys.db, req.customerId).Ok? then sys
      else Open(sys, t, Starting(req, GroupId(req, groupId), startedAt, 0, None))
    case BeginChange(t, sid, op) =>
      if t in sys.txns || !ValidOp(op) then sys else Open(sys, t, Changing(sid, op, Waiting))
    case BeginPay(t, u, amount) =>
      if t in sys.txns || !PaymentAmount(amount).Ok? then sys else Open(sys, t, Paying(u, amount, Waiting))
    case Advance(t, newSid) =>
      if t !in sys.txns then sys else AdvanceTxn(sys, t, sys.txns[t], newSid)
    case Commit(t) =>
      if t !in sys.txns || !Finished(sys.txns[t].job) then sys
      else Drop(sys, t).(db := Merge(sys.db, sys.txns[t].st))
    case Rollback(t) => Drop(sys, t)
    case Correction(u, amount) =>
      (match Correct(sys.db, u, amount)
       case Err(_) => sys
       case Ok(db) => sys.(db := db))
    case EditComputer(c, computer) =>
      if c !in sys.db.computers || Taken(sys, ComputerRow(c)) then sys
      else sys.(db := sys.db.(computers := sys.db.computers[c := computer]))
    case AddComputer(c, roomId) =>
      if c in sys.db.computers || Taken(sys, ComputerRow(c)) then sys
      else sys.(db := sys.db.(computers := sys.db.computers[c := Computer(roomId, Available, true, false)]))
    case EditRoom(r, room) => sys.(db := sys.db.(rooms := sys.db.rooms[r := room]))
    case EditCustomer(u, customer) =>
      if Taken(sys, CustomerRow(u)) then sys
      else sys.(db := sys.db.(customers := sys.db.customers[u := customer]))
  }

  function Run(sys: Sys, events: seq<Event>): Sys
    decreases |events|
  {
    if events == [] then sys else Run(Step(sys, events[0]), events[1..])
  }

  // ----- What holds of every open transaction -----

  ghost predicate StartingOk(db: Db, x: Txn)
    requires x.job.Starting?
  {
    && Staged(db, x.st) && Progress(x.job.req.computerIds, x.job.next, x.st.computers.Keys, x.holds)
    && (forall sid :: sid in x.st.sessions ==> MadeFor(x.job, x.st.sessions[sid]))
    && (x.job.admitted.Some? ==>
          && x.job.next < |x.job.req.computerIds|
          && AdmittedOk(db, x, x.job.admitted.value, x.job.req.computerIds[x.job.next]))
  }

  /** The computers staged so far are the first `next` requested ones, all different and all locked. */
  ghost predicate Progress(ids: seq<Id>, next: nat, taken: set<Id>, holds: set<Row>) {
    && next <= |ids| && Distinct(ids[..next]) && taken == Elements(ids[..next])
    && (forall c :: c in taken ==> ComputerRow(c) in holds && ActiveKey(c) in holds)
  }

  /** The session carries what its start request asked for. */
  ghost predicate MadeFor(job: Job, s: Session)
    requires job.Starting?
  {
    s.groupId == job.groupId && s.startedAt == job.startedAt && s.kind == job.req.kind
    && s.customerId == job.req.customerId
  }

  ghost predicate AdmittedOk(db: Db, x: Txn, s: Session, c: Id)
    requires x.job.Starting?
  {
    && MadeFor(x.job, s)
    && s.computerId == c && s.status.Active? && Priced(s) && c !in x.st.computers && ComputerRow(c) in x.holds
    && c in db.computers && db.computers[c].status == Available && !db.computers[c].deleted
  }

  ghost predicate ChangingOk(db: Db, x: Txn)
    requires x.job.Changing?
  {
    var sid := x.job.sid;
    && ValidOp(x.job.op)
    && (x.job.stage.Waiting? ==> x.st == NOTHING)
    && (!x.job.stage.Waiting? ==>
          && SessionRow(sid) in x.holds && sid in db.sessions && db.sessions[sid].status.Active?
          && Changed(x.job.op, sid, db.sessions[sid]).Ok?
          && ChangeStaged(db, x, Changed(x.job.op, sid, db.sessions[sid]).value))
  }

  ghost predicate ChangeStaged(db: Db, x: Txn, change: Change)
    requires x.job.Changing? && x.job.sid in db.sessions
  {
    var c := db.sessions[x.job.sid].computerId;
    && x.st.sessions == map[x.job.sid := change.session] && x.st.entries == change.entries
    && (x.job.stage.Done? && change.frees ==> ComputerRow(c) in x.holds)
    && x.st.computers == if x.job.stage.Done? && change.frees then Release(db.computers, c) else map[]
  }

  ghost predicate PayingOk(db: Db, x: Txn)
    requires x.job.Paying?
  {
    && x.job.amount > 0 && x.st.sessions == map[] && x.st.computers == map[]
    && (!x.job.progress.Waiting? ==> CustomerRow(x.job.u) in x.holds)
    && x.st.entries == (if x.job.progress.Done? then [Entry(x.job.u, DebtPayment, -x.job.amount, None)] else [])
    && (x.job.progress.Done? ==> Headroom(db.ledger, x.job.u) >= x.job.amount)
  }

  ghost predicate TxnOk(db: Db, x: Txn) {
    && (forall sid :: SessionRow(sid) in x.holds ==> sid in x.st.sessions)
    && match x.job
       case Starting(_, _, _, _, _) => StartingOk(db, x)
       case Changing(_, _, _) => ChangingOk(db, x)
       case Paying(_, _, _) => PayingOk(db, x)
  }

  /** No two transactions hold the same lock or stage the same session. */
  ghost predicate Apart(x: Txn, y: Txn) {
    x.holds !! y.holds && x.st.sessions.Keys !! y.st.sessions.Keys
  }

  ghost predicate TxnsOk(sys: Sys) {
    && (forall t :: t in sys.txns ==> TxnOk(sys.db, sys.txns[t]))
    && (forall t, u :: t in sys.txns && u in sys.txns && t != u ==> Apart(sys.txns[t], sys.txns[u]))
  }

  ghost predicate Inv(sys: Sys) {
    Laws(sys.db) && TxnsOk(sys)
  }

  // ----- A transaction is not disturbed by commits outside its locks -----

  ghost predicate SameAt<V>(m: map<Id, V>, n: map<Id, V>, k: Id) {
    (k in m <==> k in n) && (k in m ==> m[k] == n[k])
  }

  /** From db to after nothing changed under the locks of x. */
  ghost predicate Respects(db: Db, after: Db, x: Txn) {
    && (forall c :: ComputerRow(c) in x.holds ==> SameAt(db.computers, after.computers, c))
    && (forall sid :: SessionRow(sid) in x.holds ==> SameAt(db.sessions, after.sessions, sid))
    && (forall sid :: sid in x.st.sessions && sid !in db.sessions ==> sid !in after.sessions)
    && (forall c :: ActiveKey(c) in x.holds && !ActiveOn(db, c) ==> !ActiveOn(after, c))
    && (forall u :: CustomerRow(u) in x.holds ==> Headroom(db.ledger, u) <= Headroom(after.ledger, u))
  }

  lemma StagedFrame(db: Db, after: Db, x: Txn)
    requires x.job.Starting? && StartingOk(db, x) && Respects(db, after, x)
    ensures Staged(after, x.st)
  {
    forall c | c in x.st.computers ensures StagedComputer(after, x.st, c) {
      assert StagedComputer(db, x.st, c);
      assert ComputerRow(c) in x.holds && ActiveKey(c) in x.holds;
      assert SameAt(db.computers, after.computers, c);
    }
    forall sid | sid in x.st.sessions ensures StagedSession(after, x.st, sid) {
      assert StagedSession(db, x.st, sid);
    }
  }

  lemma TxnFrame(db: Db, after: Db, x: Txn)
    requires TxnOk(db, x) && Respects(db, after, x)
    ensures TxnOk(after, x)
  {
    match x.job
    case Starting(_, _, _, _, admitted) =>
      StagedFrame(db, after, x);
      if admitted.Some? {
        assert SameAt(db.computers, after.computers, admitted.value.computerId);
      }
    case Changing(sid, _, stage) =>
      if !stage.Waiting? {
        assert SameAt(db.sessions, after.sessions, sid);
        var c := db.sessions[sid].computerId;
        if ComputerRow(c) in x.holds {
          assert SameAt(db.computers, after.computers, c);
        }
      }
    case Paying(_, _, _) =>
  }

  // ----- What a transaction writes is locked -----

  lemma ComputerWritesLocked(db: Db, x: Txn, c: Id)
    requires TxnOk(db, x) && c in x.st.computers
    ensures ComputerRow(c) in x.holds
  {}

  /** A staged ACTIVE session is either a locked insert or was ACTIVE on the same computer before. */
  lemma ActiveWritesLocked(db: Db, x: Txn, sid: Id)
    requires TxnOk(db, x) && AllPriced(db) && sid in x.st.sessions && x.st.sessions[sid].status.Active?
    ensures var c := x.st.sessions[sid].computerId; ActiveKey(c) in x.holds || ActiveOn(db, c)
  {
    if x.job.Starting? {
      StagedFresh(db, x.st);
    } else {
      assert x.job.Changing?;
      ChangedIs(x.job.op, sid, db.sessions[sid]);
    }
  }

  lemma CommitKeepsIdle(db: Db, x: Txn, c: Id)
    requires TxnOk(db, x) && AllPriced(db) && ActiveKey(c) !in x.holds && !ActiveOn(db, c)
    ensures !ActiveOn(Merge(db, x.st), c)
  {
    var after := Merge(db, x.st);
    forall sid | sid in after.sessions && after.sessions[sid].status.Active? ensures after.sessions[sid].computerId != c {
      if sid in x.st.sessions {
        ActiveWritesLocked(db, x, sid);
      } else {
        assert sid in db.sessions && db.sessions[sid].status.Active? && after.sessions[sid] == db.sessions[sid];
      }
    }
  }

  lemma CommitRaisesHeadroom(db: Db, x: Txn, u: Id)
    requires TxnOk(db, x) && AllPriced(db) && CustomerRow(u) !in x.holds
    ensures Headroom(db.ledger, u) <= Headroom(Merge(db, x.st).ledger, u)
  {
    if x.st.entries == [] {
      assert Merge(db, x.st).ledger == db.ledger;
    } else if x.job.Changing? {
      ChangedIs(x.job.op, x.job.sid, db.sessions[x.job.sid]);
      AppendSum(db.ledger, x.st.entries[0], Of(u));
      AppendSum(db.ledger, x.st.entries[0], NegativeCorrections(u));
    } else {
      assert x.job.Paying?;
      AppendHeadroom(db.ledger, x.st.entries[0], u);
    }
  }

  /** Committing x does not disturb y. */
  lemma CommitRespects(db: Db, x: Txn, y: Txn)
    requires TxnOk(db, x) && TxnOk(db, y) && Apart(x, y) && AllPriced(db)
    ensures Respects(db, Merge(db, x.st), y)
  {
    var after := Merge(db, x.st);
    forall c | ComputerRow(c) in y.holds ensures SameAt(db.computers, after.computers, c) {
      if c in x.st.computers {
        ComputerWritesLocked(db, x, c);
      }
    }
    forall c | ActiveKey(c) in y.holds && !ActiveOn(db, c) ensures !ActiveOn(after, c) {
      CommitKeepsIdle(db, x, c);
    }
    forall u | CustomerRow(u) in y.holds ensures Headroom(db.ledger, u) <= Headroom(after.ledger, u) {
      CommitRaisesHeadroom(db, x, u);
    }
  }

  // ----- Commits -----

  /** Committing an extend, end or cancel does to the tables, as they are then, what the call does alone. */
  lemma CommitIsAtomic(db: Db, x: Txn)
    requires TxnOk(db, x) && AllPriced(db) && x.job.Changing? && Finished(x.job)
    ensures ApplyOp(db, x.job.sid, x.job.op) == Ok(Merge(db, x.st))
  {
    var sid := x.job.sid;
    var change := Changed(x.job.op, sid, db.sessions[sid]).value;
    assert x.st == StageChange(db, sid, db.sessions[sid], change);
  }

  lemma PayCommits(db: Db, x: Txn)
    requires TxnOk(db, x) && x.job.Paying? && Finished(x.job)
    ensures Merge(db, x.st) == db.(ledger := db.ledger + [Entry(x.job.u, DebtPayment, -x.job.amount, None)])
  {
    assert db.sessions + map[] == db.sessions;
    assert db.computers + map[] == db.computers;
  }

  lemma CommitKeepsLaws(db: Db, x: Txn)
    requires Laws(db) && TxnOk(db, x) && Finished(x.job)
    ensures Laws(Merge(db, x.st)) && Advances(db, Merge(db, x.st))
  {
    match x.job
    case Starting(_, _, _, _, _) => StartKeepsLaws(db, x.st);
    case Changing(sid, op, _) =>
      CommitIsAtomic(db, x);
      ApplyOpKeepsLaws(db, sid, op);
    case Paying(u, amount, _) =>
      PayCommits(db, x);
      AppendKeepsLaws(db, Entry(u, DebtPayment, -amount, None));
  }

  lemma CommitKeepsStatus(db: Db, x: Txn)
    requires Laws(db) && StatusMatches(db) && TxnOk(db, x) && Finished(x.job)
    ensures StatusMatches(Merge(db, x.st))
  {
    match x.job
    case Starting(_, _, _, _, _) => StartKeepsStatus(db, x.st);
    case Changing(sid, op, _) =>
      CommitIsAtomic(db, x);
      ApplyOpKeepsStatus(db, sid, op);
    case Paying(_, _, _) => PayCommits(db, x);
  }

  // ----- Steps keep the invariant -----

  lemma DropKeeps(sys: Sys, t: Id)
    requires TxnsOk(sys)
    ensures TxnsOk(Drop(sys, t))
  {}

  lemma PutKeeps(sys: Sys, t: Id, x: Txn)
    requires TxnsOk(sys) && TxnOk(sys.db, x)
    requires forall u :: u in sys.txns && u != t ==> Apart(x, sys.txns[u])
    ensures TxnsOk(Put(sys, t, x))
  {
    var after := Put(sys, t, x);
    forall a, b | a in after.txns && b in after.txns && a != b ensures Apart(after.txns[a], after.txns[b]) {
      if a != t && b != t {
        assert Apart(sys.txns[a], sys.txns[b]);
      } else if a == t {
        assert Apart(x, sys.txns[b]);
      } else {
        assert Apart(x, sys.txns[a]);
      }
    }
  }

  /** Taking one free lock leaves a transaction apart from the others. */
  lemma StaysApart(sys: Sys, t: Id, x: Txn, y: Txn, row: Row)
    requires TxnsOk(sys) && t in sys.txns && x == sys.txns[t] && !TakenByOther(sys, t, row)
    requires y.holds <= x.holds + {row} && forall sid :: sid in y.st.sessions ==> sid in x.st.sessions || Unstaged(sys, sid)
    ensures forall u :: u in sys.txns && u != t ==> Apart(y, sys.txns[u])
  {
    forall u | u in sys.txns && u != t ensures Apart(y, sys.txns[u]) {
      assert Apart(x, sys.txns[u]);
      assert row !in sys.txns[u].holds;
    }
  }

  ghost predicate Unstaged(sys: Sys, sid: Id) {
    forall other :: other in sys.txns ==> sid !in sys.txns[other].st.sessions
  }

  lemma AdmitNextKeeps(sys: Sys, t: Id, x: Txn)
    requires TxnsOk(sys) && t in sys.txns && x == sys.txns[t] && x.job.Starting? && x.job.admitted.None?
    ensures TxnsOk(AdmitNext(sys, t, x))
  {
    var ids, next := x.job.req.computerIds, x.job.next;
    if next < |ids| && !TakenByOther(sys, t, ComputerRow(ids[next])) {
      var c := ids[next];
      if c in x.st.computers {
        OwnWriteRefused(sys.db, x.job.req, x.job.groupId, x.job.startedAt, x.st, c);
      } else {
        OthersUnaffected(sys.db, x.job.req, x.job.groupId, x.job.startedAt, x.st, c);
      }
      var r := Admit(Merge(sys.db, x.st), x.job.req, x.job.groupId, x.job.startedAt, c);
      if r.Ok? {
        AdmittedSession(sys.db, x.job.req, x.job.groupId, x.job.startedAt, c);
        var y := x.(job := x.job.(admitted := Some(r.value)), holds := x.holds + {ComputerRow(c)});
        StaysApart(sys, t, x, y, ComputerRow(c));
        assert AdmittedOk(sys.db, y, r.value, c);
        PutKeeps(sys, t, y);
      } else {
        DropKeeps(sys, t);
      }
    }
  }

  lemma ProgressNext(ids: seq<Id>, next: nat, taken: set<Id>, holds: set<Row>)
    requires Progress(ids, next, taken, holds) && next < |ids| && ids[next] !in taken && ComputerRow(ids[next]) in holds
    ensures Progress(ids, next + 1, taken + {ids[next]}, holds + {ActiveKey(ids[next])})
  {
    assert ids[..next + 1] == ids[..next] + [ids[next]];
  }

  lemma AdmittedStageable(db: Db, x: Txn, newSid: Id)
    requires x.job.Starting? && StartingOk(db, x) && x.job.admitted.Some?
    requires newSid !in db.sessions && newSid !in x.st.sessions && !ActiveOn(db, x.job.admitted.value.computerId)
    ensures Stageable(db, x.st, newSid, x.job.admitted.value)
  {}

  lemma InsertIsOk(db: Db, x: Txn, newSid: Id, st: Staging)
    requires x.job.Starting? && TxnOk(db, x) && x.job.admitted.Some? && Staged(db, st)
    requires st.sessions == x.st.sessions[newSid := x.job.admitted.value]
    requires st.computers.Keys == x.st.computers.Keys + {x.job.admitted.value.computerId}
    ensures TxnOk(db, Inserted(x, st))
  {
    ProgressNext(x.job.req.computerIds, x.job.next, x.st.computers.Keys, x.holds);
  }

  /** The transaction after the insert that leads to staging st. */
  function Inserted(x: Txn, st: Staging): Txn
    requires x.job.Starting? && x.job.admitted.Some?
  {
    Txn(x.job.(next := x.job.next + 1, admitted := None), x.holds + {ActiveKey(x.job.admitted.value.computerId)}, st)
  }

  lemma InsertPuts(sys: Sys, t: Id, x: Txn, newSid: Id)
    requires TxnsOk(sys) && t in sys.txns && x == sys.txns[t] && x.job.Starting? && x.job.admitted.Some?
    requires !TakenByOther(sys, t, ActiveKey(x.job.admitted.value.computerId)) && Unused(sys, newSid)
    requires !ActiveOn(sys.db, x.job.admitted.value.computerId)
    ensures x.job.admitted.value.computerId in Merge(sys.db, x.st).computers
    ensures TxnsOk(Put(sys, t, Inserted(x, StageSession(sys.db, x.st, newSid, x.job.admitted.value))))
  {
    var s := x.job.admitted.value;
    AdmittedStageable(sys.db, x, newSid);
    StagedRow(sys.db, x.st, newSid, s);
    StageKeeps(sys.db, x.st, newSid, s);
    var st := StageSession(sys.db, x.st, newSid, s);
    InsertIsOk(sys.db, x, newSid, st);
    assert Unstaged(sys, newSid);
    StaysApart(sys, t, x, Inserted(x, st), ActiveKey(s.computerId));
    PutKeeps(sys, t, Inserted(x, st));
  }

  lemma InsertKeeps(sys: Sys, t: Id, x: Txn, newSid: Id)
    requires TxnsOk(sys) && t in sys.txns && x == sys.txns[t] && x.job.Starting? && x.job.admitted.Some?
    ensures TxnsOk(InsertAdmitted(sys, t, x, newSid))
  {
    var c := x.job.admitted.value.computerId;
    ActiveMerged(sys.db, x.st, c);
    DropKeeps(sys, t);
    if !TakenByOther(sys, t, ActiveKey(c)) && Unused(sys, newSid) && !ActiveOn(sys.db, c) {
      InsertPuts(sys, t, x, newSid);
    }
  }

  /** A session row that nobody else has locked is staged by nobody else. */
  lemma LockedRowUnstaged(sys: Sys, t: Id, sid: Id)
    requires TxnsOk(sys) && t in sys.txns && sys.txns[t].st.sessions == map[] && sid in sys.db.sessions
    requires !TakenByOther(sys, t, SessionRow(sid))
    ensures Unstaged(sys, sid)
  {
    forall other | other in sys.txns ensures sid !in sys.txns[other].st.sessions {
      var y := sys.txns[other];
      assert TxnOk(sys.db, y);
      if y.job.Starting? {
        StagedFresh(sys.db, y.st);
      }
    }
  }

  lemma ChangeRowKeeps(sys: Sys, t: Id, x: Txn)
    requires TxnsOk(sys) && t in sys.txns && x == sys.txns[t] && x.job.Changing? && x.job.stage.Waiting?
    ensures TxnsOk(ChangeRow(sys, t, x))
  {
    var sid := x.job.sid;
    if !TakenByOther(sys, t, SessionRow(sid)) {
      DropKeeps(sys, t);
      if sid in sys.db.sessions && sys.db.sessions[sid].status.Active?
         && Changed(x.job.op, sid, sys.db.sessions[sid]).Ok? {
        var change := Changed(x.job.op, sid, sys.db.sessions[sid]).value;
        var y := Txn(x.job.(stage := Ready), x.holds + {SessionRow(sid)},
                     Staging(map[sid := change.session], map[], change.entries));
        LockedRowUnstaged(sys, t, sid);
        StaysApart(sys, t, x, y, SessionRow(sid));
        assert ChangeStaged(sys.db, y, change);
        PutKeeps(sys, t, y);
      }
    }
  }

  lemma ReleaseRowKeeps(sys: Sys, t: Id, x: Txn)
    requires TxnsOk(sys) && AllPriced(sys.db)
    requires t in sys.txns && x == sys.txns[t] && x.job.Changing? && x.job.stage.Ready?
    ensures TxnsOk(ReleaseRow(sys, t, x))
  {
    var s := x.st.sessions[x.job.sid];
    ChangedIs(x.job.op, x.job.sid, sys.db.sessions[x.job.sid]);
    var done := x.(job := x.job.(stage := Done));
    var row := ComputerRow(s.computerId);
    if s.status.Active? {
      assert forall u :: u in sys.txns && u != t ==> Apart(done, sys.txns[u]) by {
        forall u | u in sys.txns && u != t ensures Apart(done, sys.txns[u]) {
          assert Apart(x, sys.txns[u]);
        }
      }
      assert TxnOk(sys.db, done);
      PutKeeps(sys, t, done);
    } else if !TakenByOther(sys, t, row) {
      var y := done.(holds := x.holds + {row}, st := x.st.(computers := Release(sys.db.computers, s.computerId)));
      StaysApart(sys, t, x, y, row);
      PutKeeps(sys, t, y);
    }
  }

  lemma LockCustomerKeeps(sys: Sys, t: Id, x: Txn)
    requires TxnsOk(sys) && t in sys.txns && x == sys.txns[t] && x.job.Paying? && x.job.progress.Waiting?
    ensures TxnsOk(LockCustomer(sys, t, x))
  {
    var row := CustomerRow(x.job.u);
    if !TakenByOther(sys, t, row) {
      DropKeeps(sys, t);
      var y := x.(job := x.job.(progress := Ready), holds := x.holds + {row});
      StaysApart(sys, t, x, y, row);
      PutKeeps(sys, t, y);
    }
  }

  lemma CheckBalanceKeeps(sys: Sys, t: Id, x: Txn)
    requires TxnsOk(sys) && t in sys.txns && x == sys.txns[t] && x.job.Paying? && x.job.progress.Ready?
    ensures TxnsOk(CheckBalance(sys, t, x))
  {
    DropKeeps(sys, t);
    var r := PaymentEntry(sys.db.ledger, x.job.u, x.job.amount);
    if r.Ok? {
      BalanceWithinHeadroom(sys.db.ledger, x.job.u);
      var y := x.(job := x.job.(progress := Done), st := x.st.(entries := [r.value]));
      forall u | u in sys.txns && u != t ensures Apart(y, sys.txns[u]) {
        assert Apart(x, sys.txns[u]);
      }
      PutKeeps(sys, t, y);
    }
  }

  lemma AdvanceKeeps(sys: Sys, t: Id, newSid: Id)
    requires TxnsOk(sys) && AllPriced(sys.db) && t in sys.txns
    ensures TxnsOk(AdvanceTxn(sys, t, sys.txns[t], newSid)) && AdvanceTxn(sys, t, sys.txns[t], newSid).db == sys.db
  {
    var x := sys.txns[t];
    match x.job
    case Starting(_, _, _, _, admitted) =>
      if admitted.None? {
        AdmitNextKeeps(sys, t, x);
      } else {
        InsertKeeps(sys, t, x, newSid);
      }
    case Changing(_, _, stage) =>
      if stage.Waiting? {
        ChangeRowKeeps(sys, t, x);
      } else if stage.Ready? {
        ReleaseRowKeeps(sys, t, x);
      }
    case Paying(_, _, stage) =>
      if stage.Waiting? {
        LockCustomerKeeps(sys, t, x);
      } else if stage.Ready? {
        CheckBalanceKeeps(sys, t, x);
      }
  }

  lemma CommitKeeps(sys: Sys, t: Id)
    requires Inv(sys) && t in sys.txns && Finished(sys.txns[t].job)
    ensures Inv(Step(sys, Commit(t))) && Advances(sys.db, Step(sys, Commit(t)).db)
  {
    var x := sys.txns[t];
    var after := Step(sys, Commit(t));
    CommitKeepsLaws(sys.db, x);
    forall u | u in after.txns ensures TxnOk(after.db, after.txns[u]) {
      assert Apart(x, sys.txns[u]);
      CommitRespects(sys.db, x, sys.txns[u]);
      TxnFrame(sys.db, after.db, sys.txns[u]);
    }
  }

  /** Replacing the tables under transactions they all tolerate. */
  lemma TablesChange(sys: Sys, after: Db)
    requires TxnsOk(sys) && forall t :: t in sys.txns ==> Respects(sys.db, after, sys.txns[t])
    ensures TxnsOk(sys.(db := after))
  {
    forall t | t in sys.txns ensures TxnOk(after, sys.txns[t]) {
      TxnFrame(sys.db, after, sys.txns[t]);
    }
  }

  lemma CorrectionKeeps(sys: Sys, u: Id, amount: int)
    requires Inv(sys) && Correct(sys.db, u, amount).Ok?
    ensures Inv(sys.(db := Correct(sys.db, u, amount).value))
    ensures Advances(sys.db, Correct(sys.db, u, amount).value)
  {
    CorrectKeepsLaws(sys.db, u, amount);
    var after := Correct(sys.db, u, amount).value;
    forall t | t in sys.txns ensures Respects(sys.db, after, sys.txns[t]) {
      forall v | CustomerRow(v) in sys.txns[t].holds ensures Headroom(sys.db.ledger, v) <= Headroom(after.ledger, v) {
        AppendHeadroom(sys.db.ledger, Entry(u, DebtCorrection, amount, None), v);
      }
    }
    TablesChange(sys, after);
  }

  predicate IsBegin(ev: Event) {
    ev.BeginStart? || ev.BeginChange? || ev.BeginPay?
  }

  predicate IsEdit(ev: Event) {
    ev.EditComputer? || ev.AddComputer? || ev.EditRoom? || ev.EditCustomer?
  }

  lemma BeginKeeps(sys: Sys, ev: Event)
    requires TxnsOk(sys) && IsBegin(ev)
    ensures TxnsOk(Step(sys, ev)) && Step(sys, ev).db == sys.db
  {
    NothingStaged(sys.db);
    match ev
    case BeginStart(t, req, groupId, startedAt) =>
      if t !in sys.txns {
        PutKeeps(sys, t, Txn(Starting(req, GroupId(req, groupId), startedAt, 0, None), {}, NOTHING));
      }
    case BeginChange(t, sid, op) =>
      if t !in sys.txns && ValidOp(op) {
        PutKeeps(sys, t, Txn(Changing(sid, op, Waiting), {}, NOTHING));
      }
    case BeginPay(t, u, amount) =>
      if t !in sys.txns && PaymentAmount(amount).Ok? {
        PutKeeps(sys, t, Txn(Paying(u, amount, Waiting), {}, NOTHING));
      }
  }

  lemma ComputerWriteRespected(sys: Sys, c: Id, computer: Computer)
    requires TxnsOk(sys) && !Taken(sys, ComputerRow(c))
    ensures TxnsOk(sys.(db := sys.db.(computers := sys.db.computers[c := computer])))
  {
    var after := sys.db.(computers := sys.db.computers[c := computer]);
    forall t | t in sys.txns ensures Respects(sys.db, after, sys.txns[t]) {
      assert ComputerRow(c) !in sys.txns[t].holds;
    }
    TablesChange(sys, after);
  }

  /** No transaction relies on rooms or customers staying as they are. */
  lemma OtherTablesRespected(sys: Sys, after: Db)
    requires TxnsOk(sys)
    requires after.computers == sys.db.computers && after.sessions == sys.db.sessions && after.ledger == sys.db.ledger
    ensures TxnsOk(sys.(db := after))
  {
    forall t | t in sys.txns ensures Respects(sys.db, after, sys.txns[t]) {
      assert forall c :: ActiveOn(sys.db, c) <==> ActiveOn(after, c);
    }
    TablesChange(sys, after);
  }

  lemma EditComputerRespected(sys: Sys, c: Id, computer: Computer)
    requires TxnsOk(sys)
    ensures TxnsOk(Step(sys, EditComputer(c, computer)))
  {
    if !Taken(sys, ComputerRow(c)) {
      ComputerWriteRespected(sys, c, computer);
    }
  }

  lemma AddComputerRespected(sys: Sys, c: Id, roomId: Id)
    requires TxnsOk(sys)
    ensures TxnsOk(Step(sys, AddComputer(c, roomId)))
  {
    if !Taken(sys, ComputerRow(c)) {
      ComputerWriteRespected(sys, c, Computer(roomId, Available, true, false));
    }
  }

  /** Edits of computers and customers that nobody has locked, and of rooms, disturb no transaction's invariant. */
  lemma EditRespected(sys: Sys, ev: Event)
    requires TxnsOk(sys) && IsEdit(ev)
    ensures TxnsOk(Step(sys, ev))
  {
    match ev
    case EditComputer(c, computer) => EditComputerRespected(sys, c, computer);
    case AddComputer(c, roomId) => AddComputerRespected(sys, c, roomId);
    case EditRoom(_, _) => OtherTablesRespected(sys, Step(sys, ev).db);
    case EditCustomer(u, _) => OtherTablesRespected(sys, Step(sys, ev).db);
  }

  lemma EditKeeps(sys: Sys, ev: Event)
    requires Inv(sys) && IsEdit(ev)
    ensures Inv(Step(sys, ev)) && Advances(sys.db, Step(sys, ev).db)
  {
    var after := Step(sys, ev).db;
    EditRespected(sys, ev);
    EditKeepsLaws(sys.db, after.computers, after.rooms, after.customers);
  }

  /** Every event keeps the invariant. */
  lemma StepKeeps(sys: Sys, ev: Event)
    requires Inv(sys)
    ensures Inv(Step(sys, ev)) && Advances(sys.db, Step(sys, ev).db)
  {
    if IsBegin(ev) {
      BeginKeeps(sys, ev);
    } else if IsEdit(ev) {
      EditKeeps(sys, ev);
    } else if ev.Advance? {
      if ev.t in sys.txns {
        AdvanceKeeps(sys, ev.t, ev.newSid);
      }
    } else if ev.Commit? {
      if ev.t in sys.txns && Finished(sys.txns[ev.t].job) {
        CommitKeeps(sys, ev.t);
      }
    } else if ev.Rollback? {
      DropKeeps(sys, ev.t);
    } else if Correct(sys.db, ev.u, ev.amount).Ok? {
      CorrectionKeeps(sys, ev.u, ev.amount);
    }
  }
}
