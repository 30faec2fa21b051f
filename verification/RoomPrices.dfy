/**
 Rooms are read without a lock: a manager changing a price while a group start is under way can split the
 group over two prices, which no start run alone does.
 */
module RoomPrices {
  import opened Wrappers
  import opened Pricing
  import opened Club
  import opened ClubLaws
  import opened GroupStart
  import opened Interleaving
  import opened ManagerEdits
  import opened Runs
  import opened Serializability
  import opened SerialRuns

  const PAIR := StartRequest([1, 2], None, OpenSession, None, None)
  const BEGUN := Txn(Starting(PAIR, Some(7), 0, 0, None), {}, NOTHING)

  /** Two free computers in one room. */
  function TwoComputers(price: int): Db {
    Db(map[1 := FREE, 2 := FREE], map[1 := Room(price, true, false)], map[], map[], [])
  }

  function Opened(c: Id, rate: int): Session {
    Session(Some(7), c, 1, None, OpenSession, Active, rate, 0, None, None, 0, 0)
  }

  function Alone(db: Db, x: Txn): Sys {
    Sys(db, map[1 := x], false)
  }

  /** The transaction with the next computer locked and admitted. */
  function AdmittedTo(x: Txn, s: Session): Txn
    requires x.job.Starting?
  {
    x.(job := x.job.(admitted := Some(s)), holds := x.holds + {ComputerRow(s.computerId)})
  }

  /** One pass of the loop, in its two steps, when nobody else is at work. */
  function Passed(db: Db, x: Txn, sid: Id, s: Session): Txn
    requires x.job.Starting? && s.computerId in Merge(db, x.st).computers
  {
    Inserted(AdmittedTo(x, s), StageSession(db, x.st, sid, s))
  }

  lemma AdmitStep(db: Db, x: Txn, sid: Id, s: Session)
    requires x.job.Starting? && x.job.admitted.None? && x.job.next < |x.job.req.computerIds|
    requires s.computerId == x.job.req.computerIds[x.job.next]
    requires Admit(Merge(db, x.st), x.job.req, x.job.groupId, x.job.startedAt, s.computerId) == Ok(s)
    ensures Step(Alone(db, x), Advance(1, sid)) == Alone(db, AdmittedTo(x, s))
  {
    assert map[1 := x][1 := AdmittedTo(x, s)] == map[1 := AdmittedTo(x, s)];
  }

  lemma InsertStep(db: Db, x: Txn, sid: Id, s: Session)
    requires x.job.Starting? && x.job.admitted == Some(s) && s.computerId in Merge(db, x.st).computers
    requires !ActiveOn(Merge(db, x.st), s.computerId) && sid !in db.sessions && sid !in x.st.sessions
    ensures Step(Alone(db, x), Advance(1, sid)) == Alone(db, Inserted(x, StageSession(db, x.st, sid, s)))
  {
    var y := Inserted(x, StageSession(db, x.st, sid, s));
    assert map[1 := x][1 := y] == map[1 := y];
  }

  lemma OnePass(db: Db, x: Txn, sid: Id, s: Session)
    requires x.job.Starting? && x.job.admitted.None? && x.job.next < |x.job.req.computerIds|
    requires s.computerId == x.job.req.computerIds[x.job.next] && s.computerId in Merge(db, x.st).computers
    requires Admit(Merge(db, x.st), x.job.req, x.job.groupId, x.job.startedAt, s.computerId) == Ok(s)
    requires !ActiveOn(Merge(db, x.st), s.computerId) && sid !in db.sessions && sid !in x.st.sessions
    ensures Step(Step(Alone(db, x), Advance(1, sid)), Advance(1, sid)) == Alone(db, Passed(db, x, sid, s))
  {
    AdmitStep(db, x, sid, s);
    InsertStep(db, AdmittedTo(x, s), sid, s);
  }

  const FIRST := Staging(map[10 := Opened(1, 0)], map[1 := FREE.(status := InUse)], [])

  lemma FirstPass()
    ensures StageSession(TwoComputers(0), NOTHING, 10, Opened(1, 0)) == FIRST
    ensures Step(Step(Alone(TwoComputers(0), BEGUN), Advance(1, 10)), Advance(1, 10)) ==
            Alone(TwoComputers(0), Passed(TwoComputers(0), BEGUN, 10, Opened(1, 0)))
  {
    NothingStaged(TwoComputers(0));
    assert PAIR.computerIds[0] == 1;
    OnePass(TwoComputers(0), BEGUN, 10, Opened(1, 0));
  }

  /** The second pass, after the price has gone up to ten. */
  lemma SecondPass(x: Txn)
    requires x.job == Starting(PAIR, Some(7), 0, 1, None) && x.st == FIRST
    ensures var db := TwoComputers(10);
            2 in Merge(db, x.st).computers &&
            Step(Step(Alone(db, x), Advance(1, 11)), Advance(1, 11)) == Alone(db, Passed(db, x, 11, Opened(2, 10)))
  {
    var db := TwoComputers(10);
    assert PAIR.computerIds[1] == 2;
    assert Merge(db, FIRST).computers[2] == FREE && Merge(db, FIRST).sessions == map[10 := Opened(1, 0)];
    OnePass(db, x, 11, Opened(2, 10));
  }

  lemma LastCommit(x: Txn)
    requires x.job == Starting(PAIR, Some(7), 0, 2, None)
    requires x.st.sessions == map[10 := Opened(1, 0), 11 := Opened(2, 10)]
    ensures Step(Alone(TwoComputers(10), x), Commit(1)).db.sessions == x.st.sessions
  {
    assert map[] + x.st.sessions == x.st.sessions;
  }

  const AFTER_FIRST := Passed(TwoComputers(0), BEGUN, 10, Opened(1, 0))

  lemma PriceGoesUp()
    ensures Run(Sys(TwoComputers(0), map[], false),
                [BeginStart(1, PAIR, 7, 0), Advance(1, 10), Advance(1, 10), EditRoom(1, Room(10, true, false))]) ==
            Alone(TwoComputers(10), AFTER_FIRST)
  {
    var start := Sys(TwoComputers(0), map[], false);
    assert Step(start, BeginStart(1, PAIR, 7, 0)) == Alone(TwoComputers(0), BEGUN);
    FirstPass();
    FourSteps(start, BeginStart(1, PAIR, 7, 0), Advance(1, 10), Advance(1, 10), EditRoom(1, Room(10, true, false)));
    assert TwoComputers(0).rooms[1 := Room(10, true, false)] == TwoComputers(10).rooms;
  }

  const AFTER_SECOND := Passed(TwoComputers(10), AFTER_FIRST, 11, Opened(2, 10))

  lemma GroupCommits()
    ensures Run(Alone(TwoComputers(10), AFTER_FIRST), [Advance(1, 11), Advance(1, 11)]) ==
            Alone(TwoComputers(10), AFTER_SECOND)
    ensures Run(Alone(TwoComputers(10), AFTER_SECOND), [Commit(1)]).db.sessions ==
            map[10 := Opened(1, 0), 11 := Opened(2, 10)]
  {
    FirstPass();
    SecondPass(AFTER_FIRST);
    TwoSteps(Alone(TwoComputers(10), AFTER_FIRST), Advance(1, 11), Advance(1, 11));
    LastCommit(AFTER_SECOND);
    assert [Commit(1)][1..] == [];
    var last := Step(Alone(TwoComputers(10), AFTER_SECOND), Commit(1));
    assert Run(last, []) == last;
  }

  /** The commit finds the room at another price than the first session carries. */
  lemma ReadIsOld()
    ensures !AllCommitCurrent(Alone(TwoComputers(10), AFTER_SECOND), [Commit(1)])
  {
    FirstPass();
    SecondPass(AFTER_FIRST);
    assert AFTER_SECOND.st.sessions[10] == Opened(1, 0);
    assert !RoomGives(TwoComputers(10), Opened(1, 0));
  }

  const TWO_PRICES :=
    [BeginStart(1, PAIR, 7, 0), Advance(1, 10), Advance(1, 10), EditRoom(1, Room(10, true, false))]
    + ([Advance(1, 11), Advance(1, 11)] + [Commit(1)])

  /**
   A price change between two passes leaves a group in one room at two rates, which the same calls run one
   after another do not.
   */
  lemma GroupAtTwoPrices()
    ensures var start := Sys(TwoComputers(0), map[], false);
            && Initial(start)
            && Run(start, TWO_PRICES).db.sessions == map[10 := Opened(1, 0), 11 := Opened(2, 10)]
            && !DoesAll(start.db, History(start, TWO_PRICES), Run(start, TWO_PRICES).db)
  {
    var start := Sys(TwoComputers(0), map[], false);
    var one := [BeginStart(1, PAIR, 7, 0), Advance(1, 10), Advance(1, 10), EditRoom(1, Room(10, true, false))];
    PriceGoesUp();
    GroupCommits();
    ReadIsOld();
    RunSplit(start, one, [Advance(1, 11), Advance(1, 11)] + [Commit(1)]);
    RunSplit(Alone(TwoComputers(10), AFTER_FIRST), [Advance(1, 11), Advance(1, 11)], [Commit(1)]);
    CurrentSplit(start, one, [Advance(1, 11), Advance(1, 11)] + [Commit(1)]);
    CurrentSplit(Alone(TwoComputers(10), AFTER_FIRST), [Advance(1, 11), Advance(1, 11)], [Commit(1)]);
    EveryRunIsSerialIff(start, TWO_PRICES);
  }

  lemma TwoSteps(sys: Sys, e1: Event, e2: Event)
    ensures Run(sys, [e1, e2]) == Step(Step(sys, e1), e2)
  {
    assert [e1, e2][1..] == [e2];
    assert [e2][1..] == [];
    var last := Step(sys, e1);
    assert Run(Step(last, e2), []) == Step(last, e2);
    assert Run(last, [e2]) == Step(last, e2);
  }

  /** No start run alone does that: two members of a group in one room have one rate. */
  lemma GroupAtOnePrice(db: Db, x: Start, after: Db, c: Id, d: Id)
    requires (forall e :: e in x.req.computerIds ==> e in x.newId) && Started(db, x, after)
    requires c in x.req.computerIds && d in x.req.computerIds
    ensures var s, t := after.sessions[x.newId[c]], after.sessions[x.newId[d]];
            s.roomId == t.roomId ==> s.ratePerHour == t.ratePerHour
  {
    GroupShares(db, x, after, c);
    GroupShares(db, x, after, d);
  }
}
