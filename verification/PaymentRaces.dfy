/**
 Payments lock their customer, corrections do not: as far as the code's own locks go, an owner's correction
 can land between a payment's balance check and its commit. The payment then goes through where, run alone,
 it would be refused. Only the foreign key of the ledger makes the correction wait.
 */
module PaymentRaces {
  import opened Wrappers
  import opened Money
  import opened Club
  import opened ClubLaws
  import opened Interleaving
  import opened Runs
  import opened SerialRuns
  import opened ForeignKeys

  /** One customer and nothing else but the ledger. */
  function Owing(ledger: seq<Entry>): Db {
    Db(map[], map[], map[1 := Club.Customer(false, false)], map[], ledger)
  }

  function Corrected(amount: int): Entry {
    Entry(1, DebtCorrection, amount, None)
  }

  function Paid(amount: int): Entry {
    Entry(1, DebtPayment, -amount, None)
  }

  /** A payment past its balance check. */
  function Checked(amount: int): Txn {
    Txn(Paying(1, amount, Done), {CustomerRow(1)}, Staging(map[], map[], [Paid(amount)]))
  }

  function Open(ledger: seq<Entry>, amount: int): Sys {
    Sys(Owing(ledger), map[1 := Checked(amount)], false)
  }

  lemma OneEntry(amount: int)
    ensures Balance([Corrected(amount)], 1) == amount
  {
    AppendSum([], Corrected(amount), Of(1));
    assert [] + [Corrected(amount)] == [Corrected(amount)];
  }

  /** A debt of d on record. */
  lemma DebtOnRecord(d: int)
    requires d != 0 && Safe(d)
    ensures Step(Sys(Owing([]), map[], false), Correction(1, d)) == Sys(Owing([Corrected(d)]), map[], false)
  {
    assert [] + [Corrected(d)] == [Corrected(d)];
  }

  lemma PaymentPassesCheck(d: int, amount: int)
    requires 0 < amount <= d && Safe(d)
    ensures var sys := Sys(Owing([Corrected(d)]), map[], false);
            Step(Step(Step(sys, BeginPay(1, 1, amount)), Advance(1, 0)), Advance(1, 0)) == Open([Corrected(d)], amount)
  {
    OneEntry(d);
    var db := Owing([Corrected(d)]);
    var begun := Txn(Paying(1, amount, Waiting), {}, NOTHING);
    var locked := Txn(Paying(1, amount, Ready), {CustomerRow(1)}, NOTHING);
    assert Step(Sys(db, map[], false), BeginPay(1, 1, amount)) == Sys(db, map[1 := begun], false);
    assert map[1 := begun][1 := locked] == map[1 := locked] && {} + {CustomerRow(1)} == {CustomerRow(1)};
    assert Step(Sys(db, map[1 := begun], false), Advance(1, 0)) == Sys(db, map[1 := locked], false);
    assert map[1 := locked][1 := Checked(amount)] == map[1 := Checked(amount)];
  }

  lemma CorrectionLands(d: int, amount: int, c: int)
    requires c != 0 && Safe(c)
    ensures Step(Open([Corrected(d)], amount), Correction(1, c)) == Open([Corrected(d), Corrected(c)], amount)
    ensures Balance([Corrected(d), Corrected(c)], 1) == d + c
  {
    OneEntry(d);
    AppendSum([Corrected(d)], Corrected(c), Of(1));
    assert [Corrected(d)] + [Corrected(c)] == [Corrected(d), Corrected(c)];
  }

  lemma PaymentLands(d: int, amount: int, c: int)
    ensures Step(Open([Corrected(d), Corrected(c)], amount), Commit(1)) ==
            Sys(Owing([Corrected(d), Corrected(c), Paid(amount)]), map[], false)
  {
    assert map[1 := Checked(amount)] - {1} == map[];
    assert [Corrected(d), Corrected(c)] + [Paid(amount)] == [Corrected(d), Corrected(c), Paid(amount)];
  }

  /** A debt of d, a payment that passes its check, a correction by c, and only then the payment's commit. */
  function Race(d: int, amount: int, c: int): seq<Event> {
    [Correction(1, d)]
    + ([BeginPay(1, 1, amount), Advance(1, 0), Advance(1, 0), Correction(1, c)] + [Commit(1)])
  }

  lemma RaceRuns(d: int, amount: int, c: int)
    requires 0 < amount <= d && Safe(d) && c != 0 && Safe(c)
    ensures var start := Sys(Owing([]), map[], false);
            && Run(start, Race(d, amount, c)).db == Owing([Corrected(d), Corrected(c), Paid(amount)])
            && (AllCommitCurrent(start, Race(d, amount, c)) <==> amount <= d + c && Safe(d + c))
  {
    var start, debt := Sys(Owing([]), map[], false), Sys(Owing([Corrected(d)]), map[], false);
    var middle := [BeginPay(1, 1, amount), Advance(1, 0), Advance(1, 0), Correction(1, c)];
    DebtOnRecord(d);
    OneStep(start, Correction(1, d), middle + [Commit(1)]);
    CurrentOneStep(start, Correction(1, d), middle + [Commit(1)]);
    PaymentPassesCheck(d, amount);
    CorrectionLands(d, amount, c);
    FourSteps(debt, middle[0], middle[1], middle[2], middle[3]);
    RunSplit(debt, middle, [Commit(1)]);
    CurrentSplit(debt, middle, [Commit(1)]);
    FourNoCommits(debt, middle[0], middle[1], middle[2], middle[3]);
    LastCommit(d, amount, c);
  }

  lemma LastCommit(d: int, amount: int, c: int)
    requires Balance([Corrected(d), Corrected(c)], 1) == d + c
    ensures var checked := Open([Corrected(d), Corrected(c)], amount);
            && Run(checked, [Commit(1)]).db == Owing([Corrected(d), Corrected(c), Paid(amount)])
            && (AllCommitCurrent(checked, [Commit(1)]) <==> amount <= d + c && Safe(d + c))
  {
    var checked := Open([Corrected(d), Corrected(c)], amount);
    PaymentLands(d, amount, c);
    assert [Commit(1)][1..] == [];
    assert Run(Step(checked, Commit(1)), []) == Step(checked, Commit(1));
  }

  /** The race is serial exactly when the balance still covers the payment and can be read. */
  lemma RaceIsSerialIff(d: int, amount: int, c: int)
    requires 0 < amount <= d && Safe(d) && c != 0 && Safe(c)
    ensures var start := Sys(Owing([]), map[], false);
            && Initial(start)
            && (DoesAll(start.db, History(start, Race(d, amount, c)), Run(start, Race(d, amount, c)).db)
                <==> amount <= d + c && Safe(d + c))
  {
    RaceRuns(d, amount, c);
    EveryRunIsSerialIff(Sys(Owing([]), map[], false), Race(d, amount, c));
  }

  /** A race that is not serial passes a lock of the foreign key: in PostgreSQL its correction waits. */
  lemma HarmfulRaceWaits(d: int, amount: int, c: int)
    requires 0 < amount <= d && Safe(d) && c != 0 && Safe(c) && !(amount <= d + c && Safe(d + c))
    ensures !AlwaysHonours(Sys(Owing([]), map[], false), Race(d, amount, c))
  {
    var start := Sys(Owing([]), map[], false);
    RaceIsSerialIff(d, amount, c);
    NoEditsWait(start, Race(d, amount, c));
    if AlwaysHonours(start, Race(d, amount, c)) {
      HonouredRunIsSerial(start, Race(d, amount, c));
      assert false;
    }
  }

  /** A correction of minus five under a payment of ten that has seen a debt of ten: the balance ends at minus five. */
  lemma CorrectionOvertakesPayment()
    ensures var start := Sys(Owing([]), map[], false);
            var after := Run(start, Race(10, 10, -5)).db;
            Balance(after.ledger, 1) == -5 && !DoesAll(start.db, History(start, Race(10, 10, -5)), after)
  {
    RaceRuns(10, 10, -5);
    RaceIsSerialIff(10, 10, -5);
    CorrectionLands(10, 10, -5);
    AppendSum([Corrected(10), Corrected(-5)], Paid(10), Of(1));
    assert [Corrected(10), Corrected(-5)] + [Paid(10)] == [Corrected(10), Corrected(-5), Paid(10)];
  }

  /** A correction that makes the balance unreadable: the payment commits, though alone it could not read the balance. */
  lemma UnreadableBalanceOvertakesPayment()
    ensures var start := Sys(Owing([]), map[], false);
            var race := Race(MAX_SAFE_INTEGER, 1, MAX_SAFE_INTEGER);
            !DoesAll(start.db, History(start, race), Run(start, race).db)
  {
    RaceIsSerialIff(MAX_SAFE_INTEGER, 1, MAX_SAFE_INTEGER);
  }
}
