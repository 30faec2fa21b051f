/** The laws of the club's tables, and that every service call keeps them. */
module ClubLaws {
  import opened Wrappers
  import opened Money
  import opened Pricing
  import opened Club
  import opened Tables

  // ----- The laws -----

  /** At most one ACTIVE session per computer. */
  ghost predicate ActiveUnique(db: Db) {
    forall a, b :: a in db.sessions && b in db.sessions && OnSameComputer(db.sessions[a], db.sessions[b]) ==> a == b
  }

  ghost predicate OnSameComputer(s: Session, t: Session) {
    s.status.Active? && t.status.Active? && s.computerId == t.computerId
  }

  /** Every session satisfies its pricing invariant. */
  ghost predicate AllPriced(db: Db) {
    forall sid :: sid in db.sessions ==> Priced(db.sessions[sid])
  }

  function DebtsOf(sid: Id): Selector {
    Selector(None, Some(DebtAdd), Some(sid), false)
  }

  ghost predicate IsEnded(db: Db, sid: Id) {
    sid in db.sessions && db.sessions[sid].status.Ended?
  }

  /**
   An ended session's charge is what was paid plus its debt entries, of which there is at most one;
   no other session, existing or not, has a debt entry.
   */
  ghost predicate DebtMatches(db: Db) {
    forall sid: Id :: DebtMatchesAt(db, sid)
  }

  ghost predicate DebtMatchesAt(db: Db, sid: Id) {
    var total, count := LedgerSum(db.ledger, DebtsOf(sid)), LedgerCount(db.ledger, DebtsOf(sid));
    if IsEnded(db, sid) then db.sessions[sid].amountDue == db.sessions[sid].amountPaid + total && count <= 1
    else total == 0 && count == 0
  }

  /** Of one customer, or of everybody. */
  function AllOf(who: Option<Id>): Selector {
    EVERYTHING.(customer := who)
  }

  function KindOf(who: Option<Id>, kind: EntryKind): Selector {
    Selector(who, Some(kind), None, false)
  }

  ghost predicate Concerns(who: Option<Id>, s: Session) {
    s.status.Ended? && (who.Some? ==> s.customerId == who)
  }

  /** The ended sessions of one customer, or of everybody: the others are left out. */
  ghost function Closed(db: Db, who: Option<Id>): map<Id, Session> {
    db.sessions - set sid | sid in db.sessions && !Concerns(who, db.sessions[sid])
  }

  function Due(s: Session): int {
    s.amountDue
  }

  function Paid(s: Session): int {
    s.amountPaid
  }

  ghost function Dues(db: Db, who: Option<Id>): map<Id, int> {
    Column(Closed(db, who), Due)
  }

  ghost function Paids(db: Db, who: Option<Id>): map<Id, int> {
    Column(Closed(db, who), Paid)
  }

  /**
   Money is conserved: what ended sessions charged, plus corrections, is what was collected at the
   desk and in payments plus what is still owed. Payments are stored with a negative sign.
   */
  ghost predicate Conserved(db: Db) {
    forall who: Option<Id> :: ConservedFor(db, who)
  }

  ghost predicate ConservedFor(db: Db, who: Option<Id>) {
    SumOver(Dues(db, who)) + LedgerSum(db.ledger, KindOf(who, DebtCorrection)) ==
    SumOver(Paids(db, who)) - LedgerSum(db.ledger, KindOf(who, DebtPayment)) + LedgerSum(db.ledger, AllOf(who))
  }

  function NegativeCorrections(u: Id): Selector {
    Selector(Some(u), Some(DebtCorrection), None, true)
  }

  /** How far a customer's balance is above the sum of the owner's negative corrections. */
  function Headroom(ledger: seq<Entry>, u: Id): int {
    Balance(ledger, u) - LedgerSum(ledger, NegativeCorrections(u))
  }

  /** Payments never overdraw: only a negative correction can take a balance below zero, and by no more than itself. */
  ghost predicate NeverOverdrawn(db: Db) {
    forall u: Id :: Headroom(db.ledger, u) >= 0
  }

  ghost predicate Laws(db: Db) {
    ActiveUnique(db) && AllPriced(db) && DebtMatches(db) && Conserved(db) && NeverOverdrawn(db)
  }

  /** A computer is IN_USE exactly when it has an ACTIVE session, and such a computer exists undeleted. */
  ghost predicate StatusMatches(db: Db) {
    && (forall c :: c in db.computers ==> (db.computers[c].status == InUse <==> ActiveOn(db, c)))
    && (forall sid :: sid in db.sessions && db.sessions[sid].status.Active? ==>
          var c := db.sessions[sid].computerId; c in db.computers && !db.computers[c].deleted)
  }

  /** Closed sessions stay as they are, no session disappears, and the ledger only grows at its end. */
  ghost predicate Advances(before: Db, after: Db) {
    && (forall sid :: sid in before.sessions ==> sid in after.sessions)
    && (forall sid :: sid in before.sessions && !before.sessions[sid].status.Active? ==>
          after.sessions[sid] == before.sessions[sid])
    && before.ledger <= after.ledger
  }

  // ----- Ledger sums -----

  lemma AppendSum(ledger: seq<Entry>, e: Entry, sel: Selector)
    ensures LedgerSum(ledger + [e], sel) == LedgerSum(ledger, sel) + Share(sel, e)
    ensures LedgerCount(ledger + [e], sel) == LedgerCount(ledger, sel) + if Picks(sel, e) then 1 else 0
  {
    assert (ledger + [e])[..|ledger|] == ledger;
  }

  lemma {:induction false} NegativeSum(ledger: seq<Entry>, sel: Selector)
    requires sel.negative
    ensures LedgerSum(ledger, sel) <= 0
  {
    if ledger != [] {
      NegativeSum(ledger[..|ledger| - 1], sel);
    }
  }

  /** With no negative correction on record every balance is non-negative. */
  lemma {:induction false} NoNegativeCorrections(ledger: seq<Entry>, u: Id)
    requires forall i :: 0 <= i < |ledger| && ledger[i].kind.DebtCorrection? ==> ledger[i].signedAmount >= 0
    ensures LedgerSum(ledger, NegativeCorrections(u)) == 0
  {
    if ledger != [] {
      NoNegativeCorrections(ledger[..|ledger| - 1], u);
    }
  }

  /** Without negative corrections the floor is zero. */
  lemma BalancesNonNegative(db: Db, u: Id)
    requires NeverOverdrawn(db)
    requires forall i :: 0 <= i < |db.ledger| && db.ledger[i].kind.DebtCorrection? ==> db.ledger[i].signedAmount >= 0
    ensures Balance(db.ledger, u) >= 0
  {
    NoNegativeCorrections(db.ledger, u);
    assert Headroom(db.ledger, u) >= 0;
  }

  /** A customer's balance is their unpaid session charges plus corrections less payments. */
  lemma BalanceExplained(db: Db, u: Id)
    requires Conserved(db)
    ensures Balance(db.ledger, u) ==
            SumOver(Differences(Dues(db, Some(u)), Paids(db, Some(u))))
            + LedgerSum(db.ledger, KindOf(Some(u), DebtCorrection)) + LedgerSum(db.ledger, KindOf(Some(u), DebtPayment))
  {
    assert ConservedFor(db, Some(u));
    SumOfDifferences(Dues(db, Some(u)), Paids(db, Some(u)));
  }

  ghost predicate SameEnded(db: Db, m: Db) {
    && (forall sid :: IsEnded(db, sid) <==> IsEnded(m, sid))
    && (forall sid :: IsEnded(db, sid) ==> m.sessions[sid] == db.sessions[sid])
  }

  /** The sums over sessions read ended rows only. */
  lemma SameSums(db: Db, m: Db, who: Option<Id>)
    requires SameEnded(db, m)
    ensures Closed(m, who) == Closed(db, who)
    ensures Dues(m, who) == Dues(db, who) && Paids(m, who) == Paids(db, who)
  {
    forall sid: Id ensures sid in Closed(db, who) <==> sid in Closed(m, who) {
      assert IsEnded(db, sid) <==> IsEnded(m, sid);
    }
    forall sid | sid in Closed(db, who) ensures Closed(m, who)[sid] == Closed(db, who)[sid] {
      assert IsEnded(db, sid);
    }
  }

  // ----- Starting -----

  function Elements(ids: seq<Id>): set<Id> {
    set c | c in ids
  }

  ghost predicate Distinct(ids: seq<Id>) {
    forall i, j :: 0 <= i < j < |ids| ==> ids[i] != ids[j]
  }

  /**
   What a start request has staged over committed tables: fresh, priced, ACTIVE sessions, one on each
   staged computer, and each staged computer AVAILABLE and idle underneath and IN_USE on top.
   */
  ghost predicate Staged(db: Db, st: Staging) {
    && st.entries == []
    && (forall c :: c in st.computers ==> StagedComputer(db, st, c))
    && (forall sid :: sid in st.sessions ==> StagedSession(db, st, sid))
    && (forall a, b :: a in st.sessions && b in st.sessions && st.sessions[a].computerId == st.sessions[b].computerId
          ==> a == b)
  }

  ghost predicate StagedComputer(db: Db, st: Staging, c: Id)
    requires c in st.computers
  {
    && c in db.computers && db.computers[c].status == Available && !db.computers[c].deleted
    && st.computers[c] == db.computers[c].(status := InUse)
    && !ActiveOn(db, c)
    && exists sid :: sid in st.sessions && st.sessions[sid].computerId == c
  }

  ghost predicate StagedSession(db: Db, st: Staging, sid: Id)
    requires sid in st.sessions
  {
    && sid !in db.sessions && st.sessions[sid].status.Active? && Priced(st.sessions[sid])
    && st.sessions[sid].computerId in st.computers
  }

  lemma NothingStaged(db: Db)
    ensures Staged(db, NOTHING) && Merge(db, NOTHING) == db
  {
    assert db.sessions + map[] == db.sessions;
    assert db.computers + map[] == db.computers;
    assert db.ledger + [] == db.ledger;
  }

  /** A computer already staged is refused, because the transaction reads its own write. */
  lemma OwnWriteRefused(db: Db, req: StartRequest, groupId: Option<Id>, startedAt: int, st: Staging, c: Id)
    requires Staged(db, st) && c in st.computers
    ensures !Admit(Merge(db, st), req, groupId, startedAt, c).Ok?
  {
    assert StagedComputer(db, st, c);
  }

  lemma StagedFresh(db: Db, st: Staging)
    requires Staged(db, st)
    ensures forall sid :: sid in st.sessions ==> sid !in db.sessions
    ensures forall sid :: sid in st.sessions ==> st.sessions[sid].status.Active? && Priced(st.sessions[sid])
    ensures forall sid :: sid in st.sessions ==> st.sessions[sid].computerId in st.computers
  {
    forall sid | sid in st.sessions ensures StagedSession(db, st, sid) {}
  }

  /** After the commit exactly the staged computers have gained an ACTIVE session. */
  lemma ActiveMerged(db: Db, st: Staging, c: Id)
    requires Staged(db, st)
    ensures ActiveOn(Merge(db, st), c) <==> c in st.computers || ActiveOn(db, c)
  {
    var m := Merge(db, st);
    StagedFresh(db, st);
    if c in st.computers {
      assert StagedComputer(db, st, c);
      var sid :| sid in st.sessions && st.sessions[sid].computerId == c;
      assert sid in m.sessions && m.sessions[sid] == st.sessions[sid];
    } else if ActiveOn(db, c) {
      var sid :| sid in db.sessions && db.sessions[sid].status.Active? && db.sessions[sid].computerId == c;
      assert sid in m.sessions && m.sessions[sid] == db.sessions[sid];
    }
  }

  /** Any other computer is judged as if nothing had been staged. */
  lemma OthersUnaffected(db: Db, req: StartRequest, groupId: Option<Id>, startedAt: int, st: Staging, c: Id)
    requires Staged(db, st) && c !in st.computers
    ensures Admit(Merge(db, st), req, groupId, startedAt, c) == Admit(db, req, groupId, startedAt, c)
    ensures ActiveOn(Merge(db, st), c) <==> ActiveOn(db, c)
  {
    ActiveMerged(db, st, c);
  }

  lemma AdmittedSession(db: Db, req: StartRequest, groupId: Option<Id>, startedAt: int, c: Id)
    requires Admit(db, req, groupId, startedAt, c).Ok?
    ensures var s := Admit(db, req, groupId, startedAt, c).value;
            && c in db.computers && db.computers[c].status == Available && !db.computers[c].deleted
            && s.computerId == c && s.status.Active? && Priced(s) && s.groupId == groupId && s.startedAt == startedAt
            && s.kind == req.kind && s.customerId == req.customerId
  {
    var s := Admit(db, req, groupId, startedAt, c).value;
    PlanPriced(s, req.minutes, req.end);
  }

  /** The session can be staged: its row is new, its computer free underneath and not staged yet. */
  ghost predicate Stageable(db: Db, st: Staging, sid: Id, s: Session) {
    && sid !in db.sessions && sid !in st.sessions && s.status.Active? && Priced(s)
    && s.computerId !in st.computers && s.computerId in db.computers
    && db.computers[s.computerId].status == Available && !db.computers[s.computerId].deleted
    && !ActiveOn(db, s.computerId)
  }

  lemma StagedRow(db: Db, st: Staging, sid: Id, s: Session)
    requires Stageable(db, st, sid, s)
    ensures StageSession(db, st, sid, s) ==
            Staging(st.sessions[sid := s],
                    st.computers[s.computerId := db.computers[s.computerId].(status := InUse)], st.entries)
  {}

  lemma StageKeepsComputers(db: Db, st: Staging, sid: Id, s: Session)
    requires Staged(db, st) && Stageable(db, st, sid, s)
    ensures var st1 := StageSession(db, st, sid, s); forall c :: c in st1.computers ==> StagedComputer(db, st1, c)
  {
    StagedRow(db, st, sid, s);
    var st1 := StageSession(db, st, sid, s);
    forall c | c in st1.computers ensures StagedComputer(db, st1, c) {
      if c in st.computers {
        assert StagedComputer(db, st, c);
        var w :| w in st.sessions && st.sessions[w].computerId == c;
        assert w in st1.sessions && st1.sessions[w].computerId == c;
      } else {
        assert st1.sessions[sid].computerId == c;
      }
    }
  }

  /** Staging one more session keeps the staging in order. */
  lemma StageKeeps(db: Db, st: Staging, sid: Id, s: Session)
    requires Staged(db, st) && Stageable(db, st, sid, s)
    ensures Staged(db, StageSession(db, st, sid, s))
  {
    StageKeepsComputers(db, st, sid, s);
    StagedRow(db, st, sid, s);
    StagedFresh(db, st);
  }

  lemma StagedNotActive(db: Db, st: Staging, c: Id)
    requires Staged(db, st) && c in st.computers
    ensures !ActiveOn(db, c)
  {
    assert StagedComputer(db, st, c);
  }

  lemma StagedIdle(db: Db, st: Staging, sid: Id)
    requires Staged(db, st) && sid in db.sessions && db.sessions[sid].status.Active?
    ensures db.sessions[sid].computerId !in st.computers
  {
    if db.sessions[sid].computerId in st.computers {
      StagedNotActive(db, st, db.sessions[sid].computerId);
    }
  }

  lemma StartKeepsUnique(db: Db, st: Staging)
    requires ActiveUnique(db) && Staged(db, st)
    ensures ActiveUnique(Merge(db, st))
  {
    var m := Merge(db, st);
    StagedFresh(db, st);
    forall a, b | a in m.sessions && b in m.sessions && OnSameComputer(m.sessions[a], m.sessions[b]) ensures a == b {
      if a in db.sessions {
        StagedIdle(db, st, a);
      }
      if b in db.sessions {
        StagedIdle(db, st, b);
      }
    }
  }

  lemma StartKeepsDebt(db: Db, st: Staging)
    requires DebtMatches(db) && Staged(db, st)
    ensures DebtMatches(Merge(db, st))
  {
    StagedFresh(db, st);
    assert Merge(db, st).ledger == db.ledger;
    forall sid: Id ensures DebtMatchesAt(Merge(db, st), sid) {
      assert DebtMatchesAt(db, sid);
    }
  }

  lemma StartKeepsConserved(db: Db, st: Staging)
    requires Conserved(db) && Staged(db, st)
    ensures Conserved(Merge(db, st))
  {
    var m := Merge(db, st);
    StagedFresh(db, st);
    assert m.ledger == db.ledger;
    assert SameEnded(db, m);
    forall who: Option<Id> ensures ConservedFor(m, who) {
      assert ConservedFor(db, who);
      SameSums(db, m, who);
    }
  }

  /** Committing a staged start keeps every law. */
  lemma StartKeepsLaws(db: Db, st: Staging)
    requires Laws(db) && Staged(db, st)
    ensures Laws(Merge(db, st)) && Advances(db, Merge(db, st))
  {
    StartKeepsUnique(db, st);
    StartKeepsDebt(db, st);
    StartKeepsConserved(db, st);
    StartKeepsPriced(db, st);
    StartAdvances(db, st);
    assert Merge(db, st).ledger == db.ledger;
  }

  lemma StartKeepsPriced(db: Db, st: Staging)
    requires AllPriced(db) && Staged(db, st)
    ensures AllPriced(Merge(db, st))
  {
    StagedFresh(db, st);
  }

  lemma StartAdvances(db: Db, st: Staging)
    requires Staged(db, st)
    ensures Advances(db, Merge(db, st))
  {
    StagedFresh(db, st);
  }

  lemma StagedInUse(db: Db, st: Staging, c: Id)
    requires Staged(db, st) && c in st.computers
    ensures c in db.computers && !db.computers[c].deleted && st.computers[c] == db.computers[c].(status := InUse)
  {
    assert StagedComputer(db, st, c);
  }

  lemma StartKeepsUse(db: Db, st: Staging, c: Id)
    requires StatusMatches(db) && Staged(db, st) && c in Merge(db, st).computers
    ensures Merge(db, st).computers[c].status == InUse <==> ActiveOn(Merge(db, st), c)
  {
    ActiveMerged(db, st, c);
    if c in st.computers {
      StagedInUse(db, st, c);
    }
  }

  lemma StartKeepsBacked(db: Db, st: Staging, sid: Id)
    requires StatusMatches(db) && Staged(db, st)
    requires sid in Merge(db, st).sessions && Merge(db, st).sessions[sid].status.Active?
    ensures var m := Merge(db, st); var c := m.sessions[sid].computerId; c in m.computers && !m.computers[c].deleted
  {
    StagedFresh(db, st);
    var c := Merge(db, st).sessions[sid].computerId;
    if c in st.computers {
      StagedInUse(db, st, c);
    }
  }

  lemma StartKeepsStatus(db: Db, st: Staging)
    requires StatusMatches(db) && Staged(db, st)
    ensures StatusMatches(Merge(db, st))
  {
    var m := Merge(db, st);
    forall c | c in m.computers ensures m.computers[c].status == InUse <==> ActiveOn(m, c) {
      StartKeepsUse(db, st, c);
    }
    forall sid | sid in m.sessions && m.sessions[sid].status.Active?
      ensures var c := m.sessions[sid].computerId; c in m.computers && !m.computers[c].deleted
    {
      StartKeepsBacked(db, st, sid);
    }
  }

  // ----- Changing one session -----

  /** What an operation does to the row, read off its result. */
  ghost predicate ChangeOf(sid: Id, s: Session, change: Change) {
    var t := change.session;
    && Priced(t) && t.computerId == s.computerId && t.customerId == s.customerId
    && (change.frees <==> !t.status.Active?)
    && (t.status.Ended? ==>
          && (t.customerId.None? ==> t.amountDue == t.amountPaid)
          && change.entries == if t.amountDue == t.amountPaid then []
                               else [Entry(t.customerId.value, DebtAdd, t.amountDue - t.amountPaid, Some(sid))])
    && (!t.status.Ended? ==> change.entries == [])
  }

  lemma ChangedIs(op: Op, sid: Id, s: Session)
    requires s.status.Active? && Priced(s) && ValidOp(op) && Changed(op, sid, s).Ok?
    ensures ChangeOf(sid, s, Changed(op, sid, s).value)
  {
    if op.Extend? {
      ExtendedPriced(s, op.extension);
    }
  }

  /** What is collected at the desk: the whole charge unless the request names an amount. */
  function Collected(amountPaid: Option<int>, due: int): int {
    if amountPaid.Some? then amountPaid.value else due
  }

  /** The row after the session ended with this charge and payment. */
  function EndedRow(s: Session, at: int, due: int, paid: int): Session {
    s.(status := Ended, endedAt := Some(at), amountDue := due, amountPaid := paid)
  }

  /** Nothing above the charge is taken, and nothing below it without a customer to owe the rest. */
  ghost predicate Payable(s: Session, due: int, paid: int) {
    paid <= due && (paid < due ==> s.customerId.Some?)
  }

  /** The debt of an ended session: the unpaid part, if any, on its customer. */
  function DebtEntries(s: Session, sid: Id, due: int, paid: int): seq<Entry>
    requires paid != due ==> s.customerId.Some?
  {
    if paid == due then [] else [Entry(s.customerId.value, DebtAdd, due - paid, Some(sid))]
  }

  lemma SettledIs(s: Session, sid: Id, at: int, due: nat, paid: nat)
    requires Safe(due)
    ensures Settled(s, sid, at, due, paid).Ok? <==> Payable(s, due, paid)
    ensures Payable(s, due, paid) ==>
              Settled(s, sid, at, due, paid).value ==
              Change(EndedRow(s, at, due, paid), DebtEntries(s, sid, due, paid), true)
  {}

  lemma FinalizeSafe(s: Session, at: int)
    requires s.status.Active? && Priced(s) && Finalize(s, at).Ok?
    ensures Finalize(s, at).value >= 0 && Safe(Finalize(s, at).value)
  {}

  /**
   Ending an active session fails only when the charge cannot be computed, the amount collected is above
   the charge, or it is below and no customer is attached. The session then carries the charge and the
   amount collected, in full unless the request says otherwise, and the difference is its debt.
   */
  lemma EndSettles(s: Session, sid: Id, at: int, amountPaid: Option<int>)
    requires s.status.Active? && Priced(s) && ValidOp(End(at, amountPaid))
    ensures var r, due := Changed(End(at, amountPaid), sid, s), Finalize(s, at);
            && (r.Ok? <==> due.Ok? && Payable(s, due.value, Collected(amountPaid, due.value)))
            && (due.Ok? ==> EndCharge(s, at, due.value))
            && (r.Ok? ==>
                  var paid := Collected(amountPaid, due.value);
                  r.value == Change(EndedRow(s, at, due.value, paid), DebtEntries(s, sid, due.value, paid), true))
  {
    var due := Finalize(s, at);
    if due.Ok? {
      FinalizeSafe(s, at);
      FinalizeCharges(s, at);
      SettledIs(s, sid, at, due.value, Collected(amountPaid, due.value));
    }
  }

  /** The tables after one active session row is replaced and at most one debt entry is added. */
  ghost predicate Replaced(db: Db, m: Db, sid: Id, change: Change) {
    && sid in db.sessions && db.sessions[sid].status.Active? && ChangeOf(sid, db.sessions[sid], change)
    && m.sessions == db.sessions[sid := change.session]
    && m.ledger == db.ledger + change.entries
  }

  lemma ChangeKeepsUnique(db: Db, m: Db, sid: Id, change: Change)
    requires Replaced(db, m, sid, change) && ActiveUnique(db)
    ensures ActiveUnique(m)
  {
    forall a, b | a in m.sessions && b in m.sessions && OnSameComputer(m.sessions[a], m.sessions[b]) ensures a == b {
      assert OnSameComputer(db.sessions[a], db.sessions[b]);
    }
  }

  lemma ChangeKeepsDebtAt(db: Db, m: Db, sid: Id, change: Change, k: Id)
    requires Replaced(db, m, sid, change) && DebtMatchesAt(db, k) && DebtMatchesAt(db, sid)
    ensures DebtMatchesAt(m, k)
  {
    if change.entries != [] {
      AppendSum(db.ledger, change.entries[0], DebtsOf(k));
    } else {
      assert m.ledger == db.ledger;
    }
  }

  lemma ChangeKeepsDebt(db: Db, m: Db, sid: Id, change: Change)
    requires Replaced(db, m, sid, change) && DebtMatches(db)
    ensures DebtMatches(m)
  {
    forall k: Id ensures DebtMatchesAt(m, k) {
      assert DebtMatchesAt(db, k) && DebtMatchesAt(db, sid);
      ChangeKeepsDebtAt(db, m, sid, change, k);
    }
  }

  /** The tables after row `sid`, so far not ended, becomes t. */
  ghost predicate RowBecomes(db: Db, m: Db, sid: Id, t: Session) {
    !IsEnded(db, sid) && m.sessions == db.sessions[sid := t]
  }

  lemma RowCounted(db: Db, m: Db, sid: Id, t: Session, who: Option<Id>)
    requires RowBecomes(db, m, sid, t) && Concerns(who, t)
    ensures SumOver(Dues(m, who)) == SumOver(Dues(db, who)) + t.amountDue
    ensures SumOver(Paids(m, who)) == SumOver(Paids(db, who)) + t.amountPaid
  {
    assert Closed(m, who) == Closed(db, who)[sid := t];
    ColumnGrows(Closed(db, who), sid, t, Due);
    ColumnGrows(Closed(db, who), sid, t, Paid);
  }

  lemma RowNotCounted(db: Db, m: Db, sid: Id, t: Session, who: Option<Id>)
    requires RowBecomes(db, m, sid, t) && !Concerns(who, t)
    ensures Dues(m, who) == Dues(db, who) && Paids(m, who) == Paids(db, who)
  {
    assert Closed(m, who) == Closed(db, who);
  }

  lemma ChangeKeepsEntries(db: Db, m: Db, sid: Id, change: Change, who: Option<Id>)
    requires Replaced(db, m, sid, change)
    ensures var gained := if Concerns(who, change.session) then 1 else 0;
            LedgerSum(m.ledger, AllOf(who)) ==
            LedgerSum(db.ledger, AllOf(who)) + gained * (change.session.amountDue - change.session.amountPaid)
    ensures LedgerSum(m.ledger, KindOf(who, DebtCorrection)) == LedgerSum(db.ledger, KindOf(who, DebtCorrection))
    ensures LedgerSum(m.ledger, KindOf(who, DebtPayment)) == LedgerSum(db.ledger, KindOf(who, DebtPayment))
  {
    if change.entries != [] {
      var e := change.entries[0];
      AppendSum(db.ledger, e, AllOf(who));
      AppendSum(db.ledger, e, KindOf(who, DebtCorrection));
      AppendSum(db.ledger, e, KindOf(who, DebtPayment));
    } else {
      assert m.ledger == db.ledger;
    }
  }

  lemma ChangeKeepsConserved(db: Db, m: Db, sid: Id, change: Change)
    requires Replaced(db, m, sid, change) && Conserved(db)
    ensures Conserved(m)
  {
    forall who: Option<Id> ensures ConservedFor(m, who) {
      assert ConservedFor(db, who);
      if Concerns(who, change.session) {
        RowCounted(db, m, sid, change.session, who);
      } else {
        RowNotCounted(db, m, sid, change.session, who);
      }
      ChangeKeepsEntries(db, m, sid, change, who);
    }
  }

  lemma ChangeRaisesHeadroom(db: Db, m: Db, sid: Id, change: Change, u: Id)
    requires Replaced(db, m, sid, change)
    ensures Headroom(m.ledger, u) >= Headroom(db.ledger, u)
  {
    if change.entries != [] {
      AppendSum(db.ledger, change.entries[0], Of(u));
      AppendSum(db.ledger, change.entries[0], NegativeCorrections(u));
    } else {
      assert m.ledger == db.ledger;
    }
  }

  lemma ReplacedKeepsLaws(db: Db, m: Db, sid: Id, change: Change)
    requires Replaced(db, m, sid, change) && Laws(db)
    ensures Laws(m) && Advances(db, m)
  {
    ChangeKeepsUnique(db, m, sid, change);
    ChangeKeepsDebt(db, m, sid, change);
    ChangeKeepsConserved(db, m, sid, change);
    forall u: Id ensures Headroom(m.ledger, u) >= 0 {
      ChangeRaisesHeadroom(db, m, sid, change, u);
    }
  }

  /** extend, end and cancel keep every law. */
  lemma ApplyOpKeepsLaws(db: Db, sid: Id, op: Op)
    requires Laws(db) && ValidOp(op) && ApplyOp(db, sid, op).Ok?
    ensures Laws(ApplyOp(db, sid, op).value) && Advances(db, ApplyOp(db, sid, op).value)
  {
    OpReplaces(db, sid, op);
    var change := Changed(op, sid, db.sessions[sid]).value;
    ReplacedKeepsLaws(db, ApplyOp(db, sid, op).value, sid, change);
  }

  lemma ActiveReplaced(db: Db, m: Db, sid: Id, change: Change, c: Id)
    requires Replaced(db, m, sid, change) && ActiveUnique(db)
    ensures ActiveOn(m, c) <==> ActiveOn(db, c) && !(change.frees && c == db.sessions[sid].computerId)
  {
    if ActiveOn(m, c) {
      var k :| k in m.sessions && m.sessions[k].status.Active? && m.sessions[k].computerId == c;
      assert k in db.sessions && db.sessions[k].status.Active? && db.sessions[k].computerId == c;
      if k != sid {
        assert !OnSameComputer(db.sessions[k], db.sessions[sid]);
      }
    }
    if ActiveOn(db, c) && !(change.frees && c == db.sessions[sid].computerId) {
      var k :| k in db.sessions && db.sessions[k].status.Active? && db.sessions[k].computerId == c;
      assert k in m.sessions && m.sessions[k].status.Active? && m.sessions[k].computerId == c;
    }
  }

  /** Replacing a row and releasing its computer when the session closes keeps status and sessions in step. */
  lemma ReplacedKeepsStatus(db: Db, m: Db, sid: Id, change: Change)
    requires Replaced(db, m, sid, change) && StatusMatches(db) && ActiveUnique(db)
    requires m.computers ==
             db.computers + (if change.frees then Release(db.computers, db.sessions[sid].computerId) else map[])
    ensures StatusMatches(m)
  {
    assert ActiveOn(db, db.sessions[sid].computerId);
    forall c | c in m.computers ensures m.computers[c].status == InUse <==> ActiveOn(m, c) {
      ActiveReplaced(db, m, sid, change, c);
    }
  }

  lemma OpReplaces(db: Db, sid: Id, op: Op)
    requires AllPriced(db) && ValidOp(op) && ApplyOp(db, sid, op).Ok?
    ensures var change := Changed(op, sid, db.sessions[sid]);
            && change.Ok? && Replaced(db, ApplyOp(db, sid, op).value, sid, change.value)
            && ApplyOp(db, sid, op).value.computers == db.computers +
                 (if change.value.frees then Release(db.computers, db.sessions[sid].computerId) else map[])
  {
    var s := db.sessions[sid];
    assert s.status.Active? && Priced(s);
    ChangedIs(op, sid, s);
    assert Changed(op, sid, s).Ok?;
  }

  lemma ApplyOpKeepsStatus(db: Db, sid: Id, op: Op)
    requires AllPriced(db) && ActiveUnique(db) && StatusMatches(db) && ValidOp(op) && ApplyOp(db, sid, op).Ok?
    ensures StatusMatches(ApplyOp(db, sid, op).value)
  {
    OpReplaces(db, sid, op);
    var change := Changed(op, sid, db.sessions[sid]).value;
    ReplacedKeepsStatus(db, ApplyOp(db, sid, op).value, sid, change);
  }

  // ----- Payments and corrections -----

  /** Appending a payment or correction keeps every law as long as the headroom covers a payment. */
  lemma AppendKeepsLaws(db: Db, e: Entry)
    requires Laws(db) && !e.kind.DebtAdd?
    requires e.kind.DebtPayment? ==> Headroom(db.ledger, e.customerId) >= -e.signedAmount
    ensures Laws(db.(ledger := db.ledger + [e])) && Advances(db, db.(ledger := db.ledger + [e]))
  {
    var m := db.(ledger := db.ledger + [e]);
    forall k: Id ensures DebtMatchesAt(m, k) {
      assert DebtMatchesAt(db, k);
      AppendSum(db.ledger, e, DebtsOf(k));
    }
    forall who: Option<Id> ensures ConservedFor(m, who) {
      assert ConservedFor(db, who);
      AppendSum(db.ledger, e, AllOf(who));
      AppendSum(db.ledger, e, KindOf(who, DebtCorrection));
      AppendSum(db.ledger, e, KindOf(who, DebtPayment));
      SameSums(db, m, who);
    }
    forall u: Id ensures Headroom(m.ledger, u) >= 0 {
      assert Headroom(db.ledger, u) >= 0;
      AppendHeadroom(db.ledger, e, u);
    }
  }

  lemma AppendHeadroom(ledger: seq<Entry>, e: Entry, u: Id)
    requires !e.kind.DebtAdd?
    ensures Headroom(ledger + [e], u) ==
            Headroom(ledger, u)
            + if e.customerId == u && (e.kind.DebtPayment? || e.signedAmount > 0) then e.signedAmount else 0
  {
    AppendSum(ledger, e, Of(u));
    AppendSum(ledger, e, NegativeCorrections(u));
  }

  /** A payment within the balance is within the headroom. */
  lemma BalanceWithinHeadroom(ledger: seq<Entry>, u: Id)
    ensures Balance(ledger, u) <= Headroom(ledger, u)
  {
    NegativeSum(ledger, NegativeCorrections(u));
  }

  lemma PayKeepsLaws(db: Db, u: Id, amount: int)
    requires Laws(db) && Pay(db, u, amount).Ok?
    ensures Laws(Pay(db, u, amount).value) && Advances(db, Pay(db, u, amount).value)
    ensures Balance(Pay(db, u, amount).value.ledger, u) == Balance(db.ledger, u) - amount >= 0
  {
    BalanceWithinHeadroom(db.ledger, u);
    AppendKeepsLaws(db, Entry(u, DebtPayment, -amount, None));
    AppendSum(db.ledger, Entry(u, DebtPayment, -amount, None), Of(u));
  }

  /** A payment is taken exactly when it is positive, its customer exists, and a readable balance covers it. */
  lemma PaySucceedsIff(db: Db, u: Id, amount: int)
    ensures Pay(db, u, amount).Ok? <==>
            && u in db.customers && !db.customers[u].deleted
            && 0 < amount <= Balance(db.ledger, u) && Safe(Balance(db.ledger, u))
  {}

  lemma CorrectKeepsLaws(db: Db, u: Id, amount: int)
    requires Laws(db) && Correct(db, u, amount).Ok?
    ensures Laws(Correct(db, u, amount).value) && Advances(db, Correct(db, u, amount).value)
  {
    AppendKeepsLaws(db, Entry(u, DebtCorrection, amount, None));
  }

  // ----- Computers, rooms and customers -----

  /** Whatever is written to the other tables, the laws of sessions and debts hold. */
  lemma EditKeepsLaws(db: Db, computers: map<Id, Computer>, rooms: map<Id, Room>, customers: map<Id, Customer>)
    requires Laws(db)
    ensures var after := db.(computers := computers, rooms := rooms, customers := customers);
            Laws(after) && Advances(db, after)
  {
    var after := db.(computers := computers, rooms := rooms, customers := customers);
    assert forall sid: Id :: DebtMatchesAt(db, sid) ==> DebtMatchesAt(after, sid);
    forall who: Option<Id> ensures ConservedFor(after, who) {
      assert ConservedFor(db, who);
      SameSums(db, after, who);
    }
  }

  // ----- Empty tables -----

  lemma EmptyKeepsLaws(db: Db)
    requires db.sessions == map[] && db.ledger == []
    requires forall c :: c in db.computers ==> db.computers[c].status != InUse
    ensures Laws(db) && StatusMatches(db)
  {
    forall who: Option<Id> ensures ConservedFor(db, who) {
      assert Dues(db, who) == map[] && Paids(db, who) == map[];
    }
  }
}
