/** What goes wrong when a manager writes a computer's row out of step with its sessions. */
module ManagerEdits {
  import opened Wrappers
  import opened Pricing
  import opened Club
  import opened ClubLaws
  import opened Interleaving
  import opened Runs

  const ROOM := Room(0, true, false)
  const FREE := Computer(1, Available, true, false)
  const OPEN := StartRequest([1], None, OpenSession, None, None)
  const JOB := Starting(OPEN, None, 0, 0, None)
  const SESSION := Session(None, 1, 1, None, OpenSession, Active, 0, 0, None, None, 0, 0)
  const STAGED := Staging(map[10 := SESSION], map[1 := FREE.(status := InUse)], [])

  /** One free computer with the given sessions on record. */
  function OneComputer(sessions: map<Id, Session>): Db {
    Db(map[1 := FREE], map[1 := ROOM], map[], sessions, [])
  }

  function Running(db: Db, t: Id, x: Txn): Sys {
    Sys(db, map[t := x], false)
  }

  const LOCKED := Txn(JOB.(admitted := Some(SESSION)), {ComputerRow(1)}, NOTHING)

  /** On a computer that looks free, two events bring a start to its insert. */
  lemma StartReachesInsert(sessions: map<Id, Session>, t: Id, newSid: Id)
    ensures Step(Step(Sys(OneComputer(sessions), map[], false), BeginStart(t, OPEN, 0, 0)), Advance(t, newSid)) ==
            Running(OneComputer(sessions), t, LOCKED)
  {
    var db := OneComputer(sessions);
    var begun := Step(Sys(db, map[], false), BeginStart(t, OPEN, 0, 0));
    assert begun == Running(db, t, Txn(JOB, {}, NOTHING));
    NothingStaged(db);
    assert Admit(db, OPEN, None, 0, 1) == Ok(SESSION);
    assert OPEN.computerIds[0] == 1;
    assert {} + {ComputerRow(1)} == {ComputerRow(1)};
    assert map[t := Txn(JOB, {}, NOTHING)][t := LOCKED] == map[t := LOCKED];
  }

  lemma FirstStartCommits()
    ensures var sys := Running(OneComputer(map[]), 1, LOCKED);
            Step(Step(sys, Advance(1, 10)), Commit(1)) == Sys(Merge(OneComputer(map[]), STAGED), map[], false)
  {
    var db := OneComputer(map[]);
    var sys := Running(db, 1, LOCKED);
    NothingStaged(db);
    assert !ActiveOn(db, 1) && Unused(sys, 10) && !TakenByOther(sys, 1, ActiveKey(1));
    assert StageSession(db, NOTHING, 10, SESSION) == STAGED;
    assert sys.txns[1 := Inserted(LOCKED, STAGED)] - {1} == map[];
  }

  lemma SecondStartFires()
    ensures Step(Running(OneComputer(map[10 := SESSION]), 2, LOCKED), Advance(2, 11)).indexFired
  {
    var db := OneComputer(map[10 := SESSION]);
    var sys := Running(db, 2, LOCKED);
    NothingStaged(db);
    assert db.sessions[10] == SESSION;
    assert ActiveOn(db, 1) && Unused(sys, 11) && !TakenByOther(sys, 2, ActiveKey(1));
  }

  const TAKEN := Db(map[1 := FREE.(status := InUse)], map[1 := ROOM], map[], map[10 := SESSION], [])

  /** Four events give the free computer its session. */
  lemma FirstSession()
    ensures Initial(Sys(OneComputer(map[]), map[], false))
    ensures Run(Sys(OneComputer(map[]), map[], false),
                [BeginStart(1, OPEN, 0, 0), Advance(1, 10), Advance(1, 10), Commit(1)]) == Sys(TAKEN, map[], false)
  {
    StartReachesInsert(map[], 1, 10);
    FirstStartCommits();
    FourSteps(Sys(OneComputer(map[]), map[], false), BeginStart(1, OPEN, 0, 0), Advance(1, 10), Advance(1, 10), Commit(1));
    assert map[] + map[10 := SESSION] == map[10 := SESSION];
    assert map[1 := FREE] + map[1 := FREE.(status := InUse)] == map[1 := FREE.(status := InUse)];
  }

  lemma SecondStart()
    ensures Run(Sys(TAKEN, map[], false),
                [EditComputer(1, FREE), BeginStart(2, OPEN, 0, 0), Advance(2, 11), Advance(2, 11)]).indexFired
  {
    assert Step(Sys(TAKEN, map[], false), EditComputer(1, FREE)) == Sys(OneComputer(map[10 := SESSION]), map[], false);
    StartReachesInsert(map[10 := SESSION], 2, 11);
    SecondStartFires();
    FourSteps(Sys(TAKEN, map[], false), EditComputer(1, FREE), BeginStart(2, OPEN, 0, 0), Advance(2, 11), Advance(2, 11));
  }

  /** A manager resetting an occupied computer to AVAILABLE lets a second start reach the index, which rejects it. */
  lemma ManagerTripsIndex()
    ensures Initial(Sys(OneComputer(map[]), map[], false))
    ensures Run(Sys(OneComputer(map[]), map[], false),
                [BeginStart(1, OPEN, 0, 0), Advance(1, 10), Advance(1, 10), Commit(1)]
                + [EditComputer(1, FREE), BeginStart(2, OPEN, 0, 0), Advance(2, 11), Advance(2, 11)]).indexFired
  {
    FirstSession();
    SecondStart();
    RunSplit(Sys(OneComputer(map[]), map[], false),
             [BeginStart(1, OPEN, 0, 0), Advance(1, 10), Advance(1, 10), Commit(1)],
             [EditComputer(1, FREE), BeginStart(2, OPEN, 0, 0), Advance(2, 11), Advance(2, 11)]);
  }

  const REMOVED := FREE.(status := InUse, deleted := true)

  /** The tables with computer 1 removed while session 10 is ACTIVE on it. */
  const STRANDED := Db(map[1 := REMOVED], map[1 := ROOM], map[], map[10 := SESSION], [])

  const CLOSED := SESSION.(status := Cancelled, endedAt := Some(0))

  const CANCELLING := Changing(10, Cancel(0), Waiting)
  const CANCELLED := Txn(CANCELLING.(stage := Ready), {SessionRow(10)}, Staging(map[10 := CLOSED], map[], []))
  const RELEASED := Txn(CANCELLING.(stage := Done), {SessionRow(10), ComputerRow(1)}, CANCELLED.st)

  lemma CancelLocks()
    ensures Step(Sys(STRANDED, map[], false), BeginChange(2, 10, Cancel(0))) ==
            Running(STRANDED, 2, Txn(CANCELLING, {}, NOTHING))
    ensures Step(Running(STRANDED, 2, Txn(CANCELLING, {}, NOTHING)), Advance(2, 0)) == Running(STRANDED, 2, CANCELLED)
  {
    assert {} + {SessionRow(10)} == {SessionRow(10)};
    assert map[2 := Txn(CANCELLING, {}, NOTHING)][2 := CANCELLED] == map[2 := CANCELLED];
  }

  /** The removed computer is not found, so nothing is released. */
  lemma CancelReleasesNothing()
    ensures Step(Running(STRANDED, 2, CANCELLED), Advance(2, 0)) == Running(STRANDED, 2, RELEASED)
  {
    assert {SessionRow(10)} + {ComputerRow(1)} == {SessionRow(10), ComputerRow(1)};
    assert map[2 := CANCELLED][2 := RELEASED] == map[2 := RELEASED];
  }

  lemma CancelCommits()
    ensures Run(Sys(STRANDED, map[], false),
                [BeginChange(2, 10, Cancel(0)), Advance(2, 0), Advance(2, 0), Commit(2)]) ==
            Sys(STRANDED.(sessions := map[10 := CLOSED]), map[], false)
  {
    CancelLocks();
    CancelReleasesNothing();
    assert Merge(STRANDED, RELEASED.st) == STRANDED.(sessions := map[10 := CLOSED]);
    assert map[2 := RELEASED] - {2} == map[];
    FourSteps(Sys(STRANDED, map[], false), BeginChange(2, 10, Cancel(0)), Advance(2, 0), Advance(2, 0), Commit(2));
  }

  lemma RemovalTakesRow()
    ensures Step(Sys(TAKEN, map[], false), EditComputer(1, REMOVED)) == Sys(STRANDED, map[], false)
  {
    assert map[1 := FREE.(status := InUse)][1 := REMOVED] == map[1 := REMOVED];
  }

  const REMOVAL := [EditComputer(1, REMOVED)] + [BeginChange(2, 10, Cancel(0)), Advance(2, 0), Advance(2, 0), Commit(2)]

  lemma AfterRemoval()
    ensures Run(Sys(TAKEN, map[], false), REMOVAL) == Sys(STRANDED.(sessions := map[10 := CLOSED]), map[], false)
  {
    RemovalTakesRow();
    OneStep(Sys(TAKEN, map[], false), EditComputer(1, REMOVED),
            [BeginChange(2, 10, Cancel(0)), Advance(2, 0), Advance(2, 0), Commit(2)]);
    CancelCommits();
  }

  /** A manager removing an occupied computer leaves it IN_USE for good: closing its session does not find it. */
  lemma RemovalStrandsComputer()
    ensures Initial(Sys(OneComputer(map[]), map[], false))
    ensures var db := Run(Sys(OneComputer(map[]), map[], false),
                          [BeginStart(1, OPEN, 0, 0), Advance(1, 10), Advance(1, 10), Commit(1)] + REMOVAL).db;
            db.computers == map[1 := REMOVED] && !ActiveOn(db, 1)
  {
    FirstSession();
    AfterRemoval();
    RunSplit(Sys(OneComputer(map[]), map[], false),
             [BeginStart(1, OPEN, 0, 0), Advance(1, 10), Advance(1, 10), Commit(1)], REMOVAL);
  }
}
