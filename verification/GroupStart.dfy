/** Group start: when it succeeds, what it leaves, and that the order of the computers does not matter. */
module GroupStart {
  import opened Wrappers
  import opened Pricing
  import opened Club
  import opened ClubLaws

  /** The parts of a start that stay the same for every computer of the request. */
  datatype Start = Start(req: StartRequest, groupId: Option<Id>, startedAt: int, newId: map<Id, Id>)

  function Judged(db: Db, x: Start, c: Id): Result<Session, ServiceError> {
    Admit(db, x.req, x.groupId, x.startedAt, c)
  }

  function StagedFrom(db: Db, x: Start, st: Staging, ids: seq<Id>): Result<Staging, ServiceError>
    requires forall c :: c in ids ==> c in x.newId
  {
    StageAll(db, x.req, x.groupId, x.startedAt, st, ids, x.newId)
  }

  /** A computer on which the request would succeed by itself. */
  ghost predicate Startable(db: Db, x: Start, c: Id) {
    Judged(db, x, c).Ok? && !ActiveOn(db, c)
  }

  ghost predicate AllStartable(db: Db, x: Start, st: Staging, ids: seq<Id>) {
    && Distinct(ids)
    && forall c :: c in ids ==> c !in st.computers && Startable(db, x, c)
  }

  ghost predicate Underway(db: Db, x: Start, st: Staging) {
    && FreshIds(db, x.newId) && Staged(db, st)
    && forall sid :: sid in st.sessions ==> Drawn(x, st, sid)
  }

  /** A staged row carries the id drawn for its computer. */
  ghost predicate Drawn(x: Start, st: Staging, sid: Id)
    requires sid in st.sessions
  {
    st.sessions[sid].computerId in x.newId && x.newId[st.sessions[sid].computerId] == sid
  }

  lemma DrawnIsNew(db: Db, x: Start, st: Staging, c: Id)
    requires Underway(db, x, st) && c in x.newId && c !in st.computers
    ensures x.newId[c] !in st.sessions
  {
    StagedFresh(db, st);
    forall sid | sid in st.sessions ensures sid != x.newId[c] {
      assert Drawn(x, st, sid);
    }
  }

  /** One pass of the loop succeeds exactly on a startable computer not staged before, and stages it. */
  lemma StageOneIff(db: Db, x: Start, st: Staging, c: Id)
    requires Underway(db, x, st) && c in x.newId
    ensures var r := StageOne(db, x.req, x.groupId, x.startedAt, st, c, x.newId);
            && (r.Ok? <==> c !in st.computers && Startable(db, x, c))
            && (r.Ok? ==> r.value == StagedWith(db, x, st, c) && Underway(db, x, r.value))
  {
    if c in st.computers {
      OwnWriteRefused(db, x.req, x.groupId, x.startedAt, st, c);
    } else {
      OthersUnaffected(db, x.req, x.groupId, x.startedAt, st, c);
      if Startable(db, x, c) {
        StageStartable(db, x, st, c);
      }
    }
  }

  /** The staging with computer c's session added. */
  function StagedWith(db: Db, x: Start, st: Staging, c: Id): Staging
    requires c in x.newId && Judged(db, x, c).Ok? && c in db.computers
  {
    st.(sessions := st.sessions[x.newId[c] := Judged(db, x, c).value],
        computers := st.computers[c := db.computers[c].(status := InUse)])
  }

  lemma StageStartable(db: Db, x: Start, st: Staging, c: Id)
    requires Underway(db, x, st) && c in x.newId && c !in st.computers && Startable(db, x, c)
    ensures c in db.computers
    ensures Judged(db, x, c).value.computerId in Merge(db, st).computers
    ensures StageSession(db, st, x.newId[c], Judged(db, x, c).value) == StagedWith(db, x, st, c)
    ensures Underway(db, x, StagedWith(db, x, st, c))
  {
    var s := Judged(db, x, c).value;
    AdmittedSession(db, x.req, x.groupId, x.startedAt, c);
    DrawnIsNew(db, x, st, c);
    StagedRow(db, st, x.newId[c], s);
    StageKeeps(db, st, x.newId[c], s);
    var st1 := StagedWith(db, x, st, c);
    forall sid | sid in st1.sessions ensures Drawn(x, st1, sid) {
      if sid != x.newId[c] {
        assert Drawn(x, st, sid);
      }
    }
  }

  /** From st to st1 the sessions of J, one for each of `ids`, have been added under their drawn ids. */
  ghost predicate Added(J: map<Id, Session>, newId: map<Id, Id>, st: Staging, ids: seq<Id>, st1: Staging) {
    && st1.entries == st.entries
    && (forall c :: c in ids ==> c in J && c in newId)
    && st1.computers.Keys == st.computers.Keys + Elements(ids)
    && st1.sessions.Keys == st.sessions.Keys + (set c | c in ids :: newId[c])
    && (forall sid :: sid in st.sessions ==> st1.sessions[sid] == st.sessions[sid])
    && (forall c :: c in ids ==> st1.sessions[newId[c]] == J[c])
  }

  /** Every computer the request would be admitted on, with the session it would get. */
  ghost function Admitted(db: Db, x: Start): map<Id, Session> {
    map c | c in db.computers && Judged(db, x, c).Ok? :: Judged(db, x, c).value
  }

  ghost predicate Complete(db: Db, x: Start, st: Staging, ids: seq<Id>, st1: Staging) {
    Underway(db, x, st1) && Added(Admitted(db, x), x.newId, st, ids, st1)
  }

  /** The loop succeeds exactly when the ids are distinct, new, and each startable by itself. */
  lemma {:induction false} StageAllIff(db: Db, x: Start, st: Staging, ids: seq<Id>)
    requires Underway(db, x, st) && forall c :: c in ids ==> c in x.newId
    ensures StagedFrom(db, x, st, ids).Ok? <==> AllStartable(db, x, st, ids)
    ensures StagedFrom(db, x, st, ids).Ok? ==> Complete(db, x, st, ids, StagedFrom(db, x, st, ids).value)
    decreases |ids|
  {
    if ids != [] {
      var c, rest := ids[0], ids[1..];
      assert ids == [c] + rest;
      StageOneIff(db, x, st, c);
      if c !in st.computers && Startable(db, x, c) {
        StageAllIff(db, x, StagedWith(db, x, st, c), rest);
        StagedFromCons(db, x, st, c, rest);
        StartableSplit(db, x, st, c, rest);
        if StagedFrom(db, x, st, ids).Ok? {
          DrawnIsNew(db, x, st, c);
          AddedStep(db, x, st, c, rest, StagedFrom(db, x, st, ids).value);
        }
      } else {
        assert c in ids;
      }
    }
  }

  lemma StagedFromCons(db: Db, x: Start, st: Staging, c: Id, rest: seq<Id>)
    requires Underway(db, x, st) && c in x.newId && (forall d :: d in rest ==> d in x.newId)
    requires c !in st.computers && Startable(db, x, c) && c in db.computers
    ensures forall d :: d in [c] + rest ==> d in x.newId
    ensures StagedFrom(db, x, st, [c] + rest) == StagedFrom(db, x, StagedWith(db, x, st, c), rest)
  {
    StageOneIff(db, x, st, c);
    assert ([c] + rest)[1..] == rest;
  }

  lemma AddedStep(db: Db, x: Start, st: Staging, c: Id, rest: seq<Id>, st2: Staging)
    requires c in x.newId && c in db.computers && Judged(db, x, c).Ok? && x.newId[c] !in st.sessions
    requires Added(Admitted(db, x), x.newId, StagedWith(db, x, st, c), rest, st2)
    ensures Added(Admitted(db, x), x.newId, st, [c] + rest, st2)
  {
    var J := Admitted(db, x);
    assert c in J && J[c] == Judged(db, x, c).value;
    AddedSplit(J, x.newId, st, c, StagedWith(db, x, st, c), rest, st2);
  }

  lemma StartableSplit(db: Db, x: Start, st: Staging, c: Id, rest: seq<Id>)
    requires c in x.newId && c !in st.computers && Startable(db, x, c) && c in db.computers
    ensures AllStartable(db, x, st, [c] + rest) <==> AllStartable(db, x, StagedWith(db, x, st, c), rest)
  {
    var ids, st1 := [c] + rest, StagedWith(db, x, st, c);
    if AllStartable(db, x, st, ids) {
      forall i, j | 0 <= i < j < |rest| ensures rest[i] != rest[j] {
        assert ids[i + 1] != ids[j + 1];
      }
      forall d | d in rest ensures d !in st1.computers && Startable(db, x, d) {
        var i :| 0 <= i < |rest| && rest[i] == d;
        assert ids[0] != ids[i + 1];
      }
    }
    if AllStartable(db, x, st1, rest) {
      forall i, j | 0 <= i < j < |ids| ensures ids[i] != ids[j] {
        assert ids[j] == rest[j - 1];
        if i > 0 {
          assert ids[i] == rest[i - 1];
        }
      }
    }
  }

  lemma ConsImage(newId: map<Id, Id>, c: Id, rest: seq<Id>)
    requires c in newId && forall d :: d in rest ==> d in newId
    ensures Elements([c] + rest) == {c} + Elements(rest)
    ensures forall d :: d in [c] + rest ==> d in newId
    ensures (set d | d in [c] + rest :: newId[d]) == {newId[c]} + (set d | d in rest :: newId[d])
  {
    var ids := [c] + rest;
    assert forall d :: d in ids <==> d == c || d in rest;
  }

  lemma AddedSplit(J: map<Id, Session>, newId: map<Id, Id>, st: Staging, c: Id, st1: Staging, rest: seq<Id>, st2: Staging)
    requires c in J && c in newId && newId[c] !in st.sessions && st1.entries == st.entries
    requires st1.sessions == st.sessions[newId[c] := J[c]] && st1.computers.Keys == st.computers.Keys + {c}
    requires Added(J, newId, st1, rest, st2)
    ensures Added(J, newId, st, [c] + rest, st2)
  {
    ConsImage(newId, c, rest);
    assert st2.sessions[newId[c]] == J[c];
  }

  // ----- The whole call -----

  /** The computer says it is free, its room is open, and the plan can be made at the room's price. */
  ghost predicate Fits(db: Db, req: StartRequest, startedAt: int, c: Id) {
    && c in db.computers && !db.computers[c].deleted && db.computers[c].isActive
    && db.computers[c].status == Available && RoomOpen(db, db.computers[c].roomId)
    && PlanFor(req.kind, db.rooms[db.computers[c].roomId].pricePerHour, startedAt, req.minutes, req.end).Ok?
  }

  /** And no session is ACTIVE on it. */
  ghost predicate Passes(db: Db, req: StartRequest, startedAt: int, c: Id) {
    && Fits(db, req, startedAt, c)
    && forall sid :: sid in db.sessions && db.sessions[sid].computerId == c ==> !db.sessions[sid].status.Active?
  }

  ghost predicate RoomOpen(db: Db, room: Id) {
    room in db.rooms && !db.rooms[room].deleted && db.rooms[room].isActive
  }

  ghost predicate CustomerPasses(db: Db, customerId: Option<Id>) {
    customerId.Some? ==>
      var u := customerId.value; u in db.customers && !db.customers[u].deleted && !db.customers[u].isBlocked
  }

  /** A start succeeds exactly when the customer passes, the ids are distinct and every computer passes. */
  lemma StartSucceedsIff(db: Db, req: StartRequest, groupId: Id, startedAt: int, newId: map<Id, Id>)
    requires FreshIds(db, newId) && forall c :: c in req.computerIds ==> c in newId
    ensures StartAll(db, req, groupId, startedAt, newId).Ok? <==>
            && CustomerPasses(db, req.customerId) && Distinct(req.computerIds)
            && forall c :: c in req.computerIds ==> Passes(db, req, startedAt, c)
  {
    var x := Start(req, GroupId(req, groupId), startedAt, newId);
    NothingStaged(db);
    StageAllIff(db, x, NOTHING, req.computerIds);
    forall c: Id ensures Startable(db, x, c) <==> Passes(db, req, startedAt, c) {
      StartablePasses(db, x, c);
    }
  }

  lemma StartablePasses(db: Db, x: Start, c: Id)
    ensures Startable(db, x, c) <==> Passes(db, x.req, x.startedAt, c)
  {}

  /** What a successful start leaves: one new session per computer, those computers in use, the rest as it was. */
  ghost predicate Started(db: Db, x: Start, after: Db)
    requires forall c :: c in x.req.computerIds ==> c in x.newId
  {
    && after.ledger == db.ledger && after.rooms == db.rooms && after.customers == db.customers
    && SessionsStarted(db, x, after) && ComputersTaken(db, x, after)
  }

  ghost predicate SessionsStarted(db: Db, x: Start, after: Db)
    requires forall c :: c in x.req.computerIds ==> c in x.newId
  {
    && after.sessions.Keys == db.sessions.Keys + (set c | c in x.req.computerIds :: x.newId[c])
    && (forall sid :: sid in db.sessions ==> after.sessions[sid] == db.sessions[sid])
    && (forall c :: c in x.req.computerIds ==> Judged(db, x, c) == Ok(after.sessions[x.newId[c]]))
  }

  ghost predicate ComputersTaken(db: Db, x: Start, after: Db) {
    && after.computers.Keys == db.computers.Keys
    && (forall c :: c in db.computers ==>
          after.computers[c] == if c in x.req.computerIds then db.computers[c].(status := InUse) else db.computers[c])
  }

  lemma StagedFlips(db: Db, st: Staging)
    requires Staged(db, st)
    ensures forall c :: c in st.computers ==> c in db.computers && st.computers[c] == db.computers[c].(status := InUse)
  {
    forall c | c in st.computers ensures c in db.computers && st.computers[c] == db.computers[c].(status := InUse) {
      assert StagedComputer(db, st, c);
    }
  }

  lemma OverlayTakes(base: map<Id, Computer>, top: map<Id, Computer>, ids: seq<Id>)
    requires top.Keys == Elements(ids)
    requires forall c :: c in top ==> c in base && top[c] == base[c].(status := InUse)
    ensures (base + top).Keys == base.Keys
    ensures forall c :: c in base ==> (base + top)[c] == if c in ids then base[c].(status := InUse) else base[c]
  {
    assert forall c :: c in top <==> c in ids;
  }

  lemma CompleteTakes(db: Db, x: Start, st: Staging)
    requires Complete(db, x, NOTHING, x.req.computerIds, st)
    ensures ComputersTaken(db, x, Merge(db, st))
  {
    StagedFlips(db, st);
    assert st.computers.Keys == Elements(x.req.computerIds);
    OverlayTakes(db.computers, st.computers, x.req.computerIds);
  }

  lemma OverlayStarts(base: map<Id, Session>, top: map<Id, Session>, J: map<Id, Session>, newId: map<Id, Id>, ids: seq<Id>)
    requires forall c :: c in ids ==> c in newId && c in J
    requires top.Keys == (set c | c in ids :: newId[c]) && forall sid :: sid in top ==> sid !in base
    requires forall c :: c in ids ==> top[newId[c]] == J[c]
    ensures (base + top).Keys == base.Keys + set c | c in ids :: newId[c]
    ensures forall sid :: sid in base ==> (base + top)[sid] == base[sid]
    ensures forall c :: c in ids ==> (base + top)[newId[c]] == J[c]
  {}

  lemma CompleteStarts(db: Db, x: Start, st: Staging)
    requires Added(Admitted(db, x), x.newId, NOTHING, x.req.computerIds, st)
    requires forall sid :: sid in st.sessions ==> sid !in db.sessions
    ensures (forall c :: c in x.req.computerIds ==> c in x.newId) && SessionsStarted(db, x, Merge(db, st))
  {
    var ids, J := x.req.computerIds, Admitted(db, x);
    assert st.sessions.Keys == set c | c in ids :: x.newId[c];
    OverlayStarts(db.sessions, st.sessions, J, x.newId, ids);
    forall c | c in ids ensures Judged(db, x, c) == Ok(J[c]) {}
  }

  lemma CompleteIsStarted(db: Db, x: Start, st: Staging)
    requires Complete(db, x, NOTHING, x.req.computerIds, st)
    ensures (forall c :: c in x.req.computerIds ==> c in x.newId) && Started(db, x, Merge(db, st))
  {
    CompleteTakes(db, x, st);
    StagedFresh(db, st);
    CompleteStarts(db, x, st);
    assert Merge(db, st).ledger == db.ledger;
  }

  /** All or nothing: a successful start does exactly this, keeps every law, and a failed one changes nothing. */
  lemma StartLeaves(db: Db, req: StartRequest, groupId: Id, startedAt: int, newId: map<Id, Id>)
    requires FreshIds(db, newId) && forall c :: c in req.computerIds ==> c in newId
    requires StartAll(db, req, groupId, startedAt, newId).Ok?
    ensures var after := StartAll(db, req, groupId, startedAt, newId).value;
            && Started(db, Start(req, GroupId(req, groupId), startedAt, newId), after)
            && (Laws(db) ==> Laws(after) && Advances(db, after))
            && (StatusMatches(db) ==> StatusMatches(after))
  {
    var x := Start(req, GroupId(req, groupId), startedAt, newId);
    NothingStaged(db);
    StageAllIff(db, x, NOTHING, req.computerIds);
    var st := StagedFrom(db, x, NOTHING, req.computerIds).value;
    CompleteIsStarted(db, x, st);
    if Laws(db) {
      StartKeepsLaws(db, st);
    }
    if StatusMatches(db) {
      StartKeepsStatus(db, st);
    }
  }

  /** The members of a group share its id and its start; each is priced at what its room charges at that moment. */
  lemma GroupShares(db: Db, x: Start, after: Db, c: Id)
    requires (forall d :: d in x.req.computerIds ==> d in x.newId) && Started(db, x, after) && c in x.req.computerIds
    ensures var s := after.sessions[x.newId[c]];
            && s.groupId == x.groupId && s.startedAt == x.startedAt && s.computerId == c && s.status.Active?
            && s.kind == x.req.kind && s.customerId == x.req.customerId && Priced(s)
            && c in db.computers && s.roomId == db.computers[c].roomId && RoomOpen(db, s.roomId)
            && s.ratePerHour == db.rooms[s.roomId].pricePerHour
            && PlanFor(s.kind, s.ratePerHour, s.startedAt, x.req.minutes, x.req.end) == Ok(Plan(s.plannedEndAt, s.amountDue))
  {
    AdmittedSession(db, x.req, x.groupId, x.startedAt, c);
  }

  // ----- Order independence -----

  lemma DistinctCons(c: Id, rest: seq<Id>)
    ensures Distinct([c] + rest) <==> c !in rest && Distinct(rest)
  {
    var ids := [c] + rest;
    if Distinct(ids) {
      forall i | 0 <= i < |rest| ensures rest[i] != c {
        assert ids[0] != ids[i + 1];
      }
      forall i, j | 0 <= i < j < |rest| ensures rest[i] != rest[j] {
        assert ids[i + 1] != ids[j + 1];
      }
    }
  }

  lemma {:induction false} DistinctByCount(ids: seq<Id>)
    ensures Distinct(ids) <==> forall c :: multiset(ids)[c] <= 1
  {
    if ids != [] {
      var c, rest := ids[0], ids[1..];
      assert ids == [c] + rest;
      DistinctCons(c, rest);
      DistinctByCount(rest);
      assert multiset(ids) == multiset{c} + multiset(rest);
      assert c in rest <==> multiset(rest)[c] > 0;
      if Distinct(rest) && c !in rest {
      } else if c in rest {
        assert multiset(ids)[c] > 1;
      } else {
        var d :| multiset(rest)[d] > 1;
        assert multiset(ids)[d] > 1;
      }
    }
  }

  lemma SameElements(a: seq<Id>, b: seq<Id>)
    requires multiset(a) == multiset(b)
    ensures forall c :: c in a <==> c in b
    ensures Distinct(a) <==> Distinct(b)
    ensures |a| == |b|
  {
    forall c: Id ensures c in a <==> c in b {
      assert c in a <==> c in multiset(a);
      assert c in b <==> c in multiset(b);
    }
    DistinctByCount(a);
    DistinctByCount(b);
    assert |multiset(a)| == |a| && |multiset(b)| == |b|;
  }

  /** Two starts that differ in the order of their computers at most. */
  ghost predicate SameStart(x: Start, y: Start) {
    && (forall c :: c in x.req.computerIds ==> c in x.newId)
    && y == x.(req := x.req.(computerIds := y.req.computerIds))
    && (forall c :: c in x.req.computerIds <==> c in y.req.computerIds)
  }

  lemma SessionsUnique(db: Db, x: Start, y: Start, one: Db, two: Db)
    requires SameStart(x, y) && SessionsStarted(db, x, one) && SessionsStarted(db, y, two)
    ensures one.sessions == two.sessions
  {
    forall c: Id ensures Judged(db, x, c) == Judged(db, y, c) {}
    assert one.sessions.Keys == two.sessions.Keys;
    forall sid | sid in one.sessions ensures one.sessions[sid] == two.sessions[sid] {
      if sid !in db.sessions {
        var c :| c in x.req.computerIds && x.newId[c] == sid;
      }
    }
  }

  lemma ComputersUnique(db: Db, x: Start, y: Start, one: Db, two: Db)
    requires SameStart(x, y) && ComputersTaken(db, x, one) && ComputersTaken(db, y, two)
    ensures one.computers == two.computers
  {}

  lemma StartedUnique(db: Db, x: Start, y: Start, one: Db, two: Db)
    requires SameStart(x, y) && Started(db, x, one) && Started(db, y, two)
    ensures one == two
  {
    SessionsUnique(db, x, y, one, two);
    ComputersUnique(db, x, y, one, two);
  }

  /** Whatever meets the conditions of success and the description of the result is the result. */
  lemma StartedIsStartAll(db: Db, req: StartRequest, groupId: Id, startedAt: int, newId: map<Id, Id>, after: Db)
    requires FreshIds(db, newId) && (forall c :: c in req.computerIds ==> c in newId)
    requires ResolveCustomer(db, req.customerId).Ok? && Distinct(req.computerIds)
    requires var x := Start(req, GroupId(req, groupId), startedAt, newId);
             (forall c :: c in req.computerIds ==> Startable(db, x, c)) && Started(db, x, after)
    ensures StartAll(db, req, groupId, startedAt, newId) == Ok(after)
  {
    var x := Start(req, GroupId(req, groupId), startedAt, newId);
    forall c | c in req.computerIds ensures Passes(db, req, startedAt, c) {
      StartablePasses(db, x, c);
    }
    StartSucceedsIff(db, req, groupId, startedAt, newId);
    StartLeaves(db, req, groupId, startedAt, newId);
    StartedUnique(db, x, x, StartAll(db, req, groupId, startedAt, newId).value, after);
  }

  /** Listing the same computers in another order fails or succeeds alike and leaves the same tables. */
  lemma StartOrderIrrelevant(db: Db, req: StartRequest, ids: seq<Id>, groupId: Id, startedAt: int, newId: map<Id, Id>)
    requires FreshIds(db, newId) && forall c :: c in req.computerIds ==> c in newId
    requires multiset(ids) == multiset(req.computerIds)
    ensures forall c :: c in ids ==> c in newId
    ensures var one, two := StartAll(db, req, groupId, startedAt, newId),
                            StartAll(db, req.(computerIds := ids), groupId, startedAt, newId);
            (one.Ok? <==> two.Ok?) && (one.Ok? ==> one == two)
  {
    var other := req.(computerIds := ids);
    SameElements(ids, req.computerIds);
    var x := Start(req, GroupId(req, groupId), startedAt, newId);
    var y := Start(other, GroupId(other, groupId), startedAt, newId);
    StartSucceedsIff(db, req, groupId, startedAt, newId);
    StartSucceedsIff(db, other, groupId, startedAt, newId);
    forall c: Id ensures Passes(db, req, startedAt, c) <==> Passes(db, other, startedAt, c) {}
    if StartAll(db, req, groupId, startedAt, newId).Ok? {
      StartLeaves(db, req, groupId, startedAt, newId);
      StartLeaves(db, other, groupId, startedAt, newId);
      StartedUnique(db, x, y, StartAll(db, req, groupId, startedAt, newId).value,
                    StartAll(db, other, groupId, startedAt, newId).value);
    }
  }
}
