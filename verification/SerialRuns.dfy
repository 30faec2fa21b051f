/**
 Whole interleaved runs as calls executed one after another: the tables after a run are those the
 committed calls lead to, in the order of their commits, exactly when every transaction commits with its
 unlocked reads current; and a run without conflicts is of this kind.
 */
module SerialRuns {
  import opened Wrappers
  import opened Pricing
  import opened Club
  import opened ClubLaws
  import opened GroupStart
  import opened Interleaving
  import opened Runs
  import opened Evolution
  import opened Serializability

  /** The call, run alone, succeeds and takes db to after. */
  ghost predicate Does(db: Db, call: Call, after: Db) {
    Drawable(db, call) && Perform(db, call) == Ok(after)
  }

  ghost predicate DoesAll(db: Db, calls: seq<Call>, after: Db)
    decreases |calls|
  {
    if calls == [] then after == db
    else exists mid: Db :: Does(db, calls[0], mid) && DoesAll(mid, calls[1..], after)
  }

  /** The call a finished transaction stands for. */
  ghost function CallOf(x: Txn): Call {
    match x.job
    case Starting(req, groupId, startedAt, _, _) =>
      StartCall(req, if groupId.Some? then groupId.value else 0, startedAt,
                if forall c :: c in x.st.computers ==> HasSession(x.st, c) then DrawnIds(x.st) else map[])
    case Changing(sid, op, _) => ChangeCall(sid, op)
    case Paying(u, amount, _) => PayCall(u, amount)
  }

  /** The call that takes effect at an event: at a commit, a correction or a manager's write, else none. */
  ghost function Effective(sys: Sys, ev: Event): seq<Call> {
    match ev
    case Commit(t) => if t in sys.txns && Finished(sys.txns[t].job) then [CallOf(sys.txns[t])] else []
    case Correction(u, amount) => if Correct(sys.db, u, amount).Ok? then [CorrectCall(u, amount)] else []
    case EditComputer(c, computer) =>
      if c in sys.db.computers && !Taken(sys, ComputerRow(c)) then [WriteComputer(c, computer)] else []
    case AddComputer(c, roomId) =>
      if c !in sys.db.computers && !Taken(sys, ComputerRow(c))
      then [WriteComputer(c, Computer(roomId, Available, true, false))] else []
    case EditRoom(r, room) => [WriteRoom(r, room)]
    case EditCustomer(u, customer) => if Taken(sys, CustomerRow(u)) then [] else [WriteCustomer(u, customer)]
    case _ => []
  }

  /** The calls that take effect over a run, in that order. */
  ghost function History(sys: Sys, events: seq<Event>): seq<Call>
    decreases |events|
  {
    if events == [] then [] else Effective(sys, events[0]) + History(Step(sys, events[0]), events[1..])
  }

  // ----- One event -----

  ghost predicate CommitsCurrent(sys: Sys, ev: Event) {
    ev.Commit? && ev.t in sys.txns && Finished(sys.txns[ev.t].job) ==> Current(sys.db, sys.txns[ev.t])
  }

  /** The event leaves the tables its call, run alone, leaves; without a call it leaves them as they are. */
  ghost predicate Follows(sys: Sys, ev: Event) {
    var calls := Effective(sys, ev);
    if calls == [] then Step(sys, ev).db == sys.db else Does(sys.db, calls[0], Step(sys, ev).db)
  }

  lemma StartDoes(db: Db, x: Txn)
    requires TxnOk(db, x) && Planned(db, x) && Current(db, x) && x.job.Starting? && Finished(x.job)
    ensures Does(db, CallOf(x), Merge(db, x.st))
  {
    StagedHasSession(db, x.st);
    StartCommitIsStartAll(db, x, CallOf(x).groupId, DrawnIds(x.st));
  }

  lemma StartDoesIff(db: Db, x: Txn)
    requires TxnOk(db, x) && Planned(db, x) && x.job.Starting? && Finished(x.job)
    ensures Does(db, CallOf(x), Merge(db, x.st)) <==> Current(db, x)
  {
    if Current(db, x) {
      StartDoes(db, x);
    }
    if Does(db, CallOf(x), Merge(db, x.st)) {
      assert StartedAlone(db, x.job, CallOf(x).groupId, CallOf(x).newId, Merge(db, x.st));
      SerialIsCurrent(db, x);
    }
  }

  lemma CommitDoesIff(sys: Sys, t: Id)
    requires Inv(sys) && AllPlanned(sys) && t in sys.txns && Finished(sys.txns[t].job)
    ensures Does(sys.db, CallOf(sys.txns[t]), Merge(sys.db, sys.txns[t].st)) <==> Current(sys.db, sys.txns[t])
  {
    var x := sys.txns[t];
    assert TxnOk(sys.db, x) && Planned(sys.db, x);
    CommitMerges(sys, t);
    match x.job
    case Starting(_, _, _, _, _) => StartDoesIff(sys.db, x);
    case Changing(_, _, _) => ChangesAreSerializable(sys, t);
    case Paying(_, _, _) => PaymentsAreSerializable(sys, t);
  }

  /** An event does what its call does alone, or nothing, exactly when a transaction it commits has current reads. */
  lemma EventDoesIff(sys: Sys, ev: Event)
    requires Inv(sys) && AllPlanned(sys)
    ensures |Effective(sys, ev)| <= 1
    ensures Follows(sys, ev) <==> CommitsCurrent(sys, ev)
  {
    if ev.Commit? && ev.t in sys.txns && Finished(sys.txns[ev.t].job) {
      CommitMerges(sys, ev.t);
      CommitDoesIff(sys, ev.t);
    } else if ev.Advance? && ev.t in sys.txns {
      AdvanceOwn(sys, ev.t, ev.newSid);
    }
  }

  // ----- A replay that has gone astray does not come back -----

  /** Every session there was is there, at the same rate and in the same room. */
  ghost predicate KeepsRates(before: map<Id, Session>, after: map<Id, Session>) {
    forall sid :: sid in before ==> sid in after && SameRate(before[sid], after[sid])
  }

  ghost predicate SameRate(s: Session, t: Session) {
    t.ratePerHour == s.ratePerHour && t.roomId == s.roomId
  }

  lemma DoesKeepsRates(db: Db, call: Call, after: Db)
    requires Does(db, call, after)
    ensures KeepsRates(db.sessions, after.sessions)
  {
    if call.StartCall? {
      StartLeaves(db, call.req, call.groupId, call.startedAt, call.newId);
      assert SessionsStarted(db, Start(call.req, GroupId(call.req, call.groupId), call.startedAt, call.newId), after);
    }
  }

  lemma {:induction false} ReplayKeepsRates(db: Db, calls: seq<Call>, after: Db)
    requires DoesAll(db, calls, after)
    ensures KeepsRates(db.sessions, after.sessions)
    decreases |calls|
  {
    if calls != [] {
      var mid: Db :| Does(db, calls[0], mid) && DoesAll(mid, calls[1..], after);
      DoesKeepsRates(db, calls[0], mid);
      ReplayKeepsRates(mid, calls[1..], after);
    }
  }

  lemma RunKeepsRates(sys: Sys, events: seq<Event>)
    requires Inv(sys)
    ensures KeepsRates(sys.db.sessions, Run(sys, events).db.sessions)
  {
    forall sid | sid in sys.db.sessions
      ensures sid in Run(sys, events).db.sessions && SameRate(sys.db.sessions[sid], Run(sys, events).db.sessions[sid])
    {
      RunMatures(sys, events, sid);
    }
  }

  lemma StagedInReplay(db: Db, x: Txn, mid: Db, sid: Id)
    requires TxnOk(db, x) && x.job.Starting? && Finished(x.job) && Does(db, CallOf(x), mid) && sid in x.st.sessions
    ensures sid in mid.sessions && sid !in db.sessions
  {
    DrawnFresh(db, x.st);
    StagedFresh(db, x.st);
    FinishedShape(db, x);
    var call := CallOf(x);
    StartLeaves(db, call.req, call.groupId, call.startedAt, call.newId);
    var y := Start(call.req, GroupId(call.req, call.groupId), call.startedAt, call.newId);
    assert SessionsStarted(db, y, mid);
    var c := x.st.sessions[sid].computerId;
    assert c in call.req.computerIds && call.newId[c] == sid;
  }

  /** A start whose replay ends with the rates of the run had current reads. */
  lemma SameRatesCurrent(db: Db, x: Txn, mid: Db, after: map<Id, Session>)
    requires TxnOk(db, x) && x.job.Starting? && Finished(x.job) && Does(db, CallOf(x), mid)
    requires KeepsRates(mid.sessions, after) && KeepsRates(x.st.sessions, after)
    ensures Current(db, x)
  {
    var call := CallOf(x);
    assert StartedAlone(db, x.job, call.groupId, call.newId, mid);
    StartSucceedsIff(db, call.req, call.groupId, call.startedAt, call.newId);
    forall sid | sid in x.st.sessions ensures RoomGives(db, x.st.sessions[sid]) {
      StagedInReplay(db, x, mid, sid);
      AloneGives(db, x, call.groupId, call.newId, mid, sid);
      assert SameRate(mid.sessions[sid], after[sid]) && SameRate(x.st.sessions[sid], after[sid]);
    }
  }

  lemma StartReplayCurrent(sys: Sys, t: Id, rest: seq<Event>, calls: seq<Call>, mid: Db)
    requires Inv(sys) && t in sys.txns && sys.txns[t].job.Starting? && Finished(sys.txns[t].job)
    requires Does(sys.db, CallOf(sys.txns[t]), mid) && DoesAll(mid, calls, Run(Step(sys, Commit(t)), rest).db)
    ensures Current(sys.db, sys.txns[t])
  {
    var x, next := sys.txns[t], Step(sys, Commit(t));
    var after := Run(next, rest).db.sessions;
    StepKeeps(sys, Commit(t));
    RunKeepsRates(next, rest);
    ReplayKeepsRates(mid, calls, Run(next, rest).db);
    CommitMerges(sys, t);
    MergedRates(sys.db, x.st, after);
    assert TxnOk(sys.db, x);
    SameRatesCurrent(sys.db, x, mid, after);
  }

  lemma MergedRates(db: Db, st: Staging, after: map<Id, Session>)
    requires KeepsRates(Merge(db, st).sessions, after)
    ensures KeepsRates(st.sessions, after)
  {
    forall sid | sid in st.sessions ensures sid in after && SameRate(st.sessions[sid], after[sid]) {
      assert sid in Merge(db, st).sessions;
    }
  }

  lemma PaymentReplayCurrent(sys: Sys, t: Id, mid: Db)
    requires Inv(sys) && AllPlanned(sys) && t in sys.txns && sys.txns[t].job.Paying? && Finished(sys.txns[t].job)
    requires Does(sys.db, CallOf(sys.txns[t]), mid)
    ensures Current(sys.db, sys.txns[t])
  {
    assert TxnOk(sys.db, sys.txns[t]);
    PaySucceedsIff(sys.db, sys.txns[t].job.u, sys.txns[t].job.amount);
  }

  /** If the replay of a run ends in the run's tables, its first event already followed its call. */
  lemma ReplayFollows(sys: Sys, ev: Event, rest: seq<Event>, mid: Db, calls: seq<Call>)
    requires Inv(sys) && AllPlanned(sys) && Effective(sys, ev) != []
    requires Does(sys.db, Effective(sys, ev)[0], mid) && DoesAll(mid, calls, Run(Step(sys, ev), rest).db)
    ensures CommitsCurrent(sys, ev) && mid == Step(sys, ev).db
  {
    if ev.Commit? {
      match sys.txns[ev.t].job
      case Starting(_, _, _, _, _) => StartReplayCurrent(sys, ev.t, rest, calls, mid);
      case Changing(_, _, _) =>
      case Paying(_, _, _) => PaymentReplayCurrent(sys, ev.t, mid);
    }
    EventDoesIff(sys, ev);
    SameOutcome(sys.db, Effective(sys, ev)[0], mid, Step(sys, ev).db);
  }

  lemma SameOutcome(db: Db, call: Call, one: Db, two: Db)
    requires Does(db, call, one) && Does(db, call, two)
    ensures one == two
  {}

  // ----- Whole runs -----

  /** Every transaction the run commits does so with current reads. */
  ghost predicate AllCommitCurrent(sys: Sys, events: seq<Event>)
    decreases |events|
  {
    events == [] || (CommitsCurrent(sys, events[0]) && AllCommitCurrent(Step(sys, events[0]), events[1..]))
  }

  lemma CurrentOneStep(sys: Sys, ev: Event, rest: seq<Event>)
    ensures AllCommitCurrent(sys, [ev] + rest) <==> CommitsCurrent(sys, ev) && AllCommitCurrent(Step(sys, ev), rest)
  {
    assert ([ev] + rest)[1..] == rest;
  }

  lemma {:induction false} CurrentSplit(sys: Sys, a: seq<Event>, b: seq<Event>)
    ensures AllCommitCurrent(sys, a + b) <==> AllCommitCurrent(sys, a) && AllCommitCurrent(Run(sys, a), b)
    decreases |a|
  {
    if a == [] {
      assert a + b == b;
    } else {
      assert (a + b)[1..] == a[1..] + b;
      CurrentSplit(Step(sys, a[0]), a[1..], b);
    }
  }

  lemma FourNoCommits(sys: Sys, e1: Event, e2: Event, e3: Event, e4: Event)
    requires !e1.Commit? && !e2.Commit? && !e3.Commit? && !e4.Commit?
    ensures AllCommitCurrent(sys, [e1, e2, e3, e4])
  {
    assert [e1, e2, e3, e4][1..] == [e2, e3, e4];
    assert [e2, e3, e4][1..] == [e3, e4];
    assert [e3, e4][1..] == [e4];
    assert [e4][1..] == [];
    assert AllCommitCurrent(Step(Step(sys, e1), e2), [e3, e4]) by {
      assert AllCommitCurrent(Step(Step(Step(sys, e1), e2), e3), [e4]);
    }
  }

  lemma HistorySplits(sys: Sys, events: seq<Event>)
    requires Inv(sys) && AllPlanned(sys) && events != []
    ensures var calls, rest := Effective(sys, events[0]), History(Step(sys, events[0]), events[1..]);
            if calls == [] then History(sys, events) == rest
            else History(sys, events) != [] && History(sys, events)[0] == calls[0] && History(sys, events)[1..] == rest
  {
    EventDoesIff(sys, events[0]);
  }

  /**
   Serializability of runs: the tables after an interleaved run are those its calls lead to when each is run
   alone, one after another in the order of their commits, each of them succeeding there too, if and only if
   every transaction of the run commits while what it has read without a lock is current.
   */
  lemma {:induction false} RunIsSerialIff(sys: Sys, events: seq<Event>)
    requires Inv(sys) && AllPlanned(sys)
    ensures DoesAll(sys.db, History(sys, events), Run(sys, events).db) <==> AllCommitCurrent(sys, events)
    decreases |events|
  {
    if events != [] {
      var ev, rest := events[0], events[1..];
      var next, calls := Step(sys, ev), Effective(sys, ev);
      EventDoesIff(sys, ev);
      StepKeeps(sys, ev);
      StepPlanned(sys, ev);
      HistorySplits(sys, events);
      RunIsSerialIff(next, rest);
      if calls != [] && DoesAll(sys.db, History(sys, events), Run(sys, events).db) {
        var mid: Db :| Does(sys.db, calls[0], mid) && DoesAll(mid, History(next, rest), Run(sys, events).db);
        ReplayFollows(sys, ev, rest, mid, History(next, rest));
      }
    }
  }

  lemma {:induction false} UndisturbedCommitsCurrent(sys: Sys, events: seq<Event>)
    requires Inv(sys) && AllCurrent(sys) && Undisturbed(sys, events)
    ensures AllCommitCurrent(sys, events)
    decreases |events|
  {
    if events != [] {
      StepKeeps(sys, events[0]);
      StepCurrentIff(sys, events[0]);
      UndisturbedCommitsCurrent(Step(sys, events[0]), events[1..]);
    }
  }

  /** From an empty club: a run without conflicts is its calls run one after another in commit order. */
  lemma EveryRunIsSerial(sys: Sys, events: seq<Event>)
    requires Initial(sys) && Undisturbed(sys, events)
    ensures DoesAll(sys.db, History(sys, events), Run(sys, events).db)
  {
    InitialInv(sys);
    UndisturbedCommitsCurrent(sys, events);
    RunIsSerialIff(sys, events);
  }

  /** And any run is, if and only if its commits find their reads current. */
  lemma EveryRunIsSerialIff(sys: Sys, events: seq<Event>)
    requires Initial(sys)
    ensures DoesAll(sys.db, History(sys, events), Run(sys, events).db) <==> AllCommitCurrent(sys, events)
  {
    InitialInv(sys);
    RunIsSerialIff(sys, events);
  }
}
