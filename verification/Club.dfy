/**
 The tables of the club and what each service call does to them when it runs alone: starting,
 extending, ending and cancelling sessions, payments and corrections.
 */
module Club {
  import opened Wrappers
  import opened Money
  import opened Pricing

  datatype ComputerStatus = Available | InUse | Maintenance | Offline

  datatype Computer = Computer(roomId: Id, status: ComputerStatus, isActive: bool, deleted: bool)

  datatype Room = Room(pricePerHour: int, isActive: bool, deleted: bool)

  datatype Customer = Customer(isBlocked: bool, deleted: bool)

  datatype EntryKind = DebtAdd | DebtPayment | DebtCorrection

  /** A row of the append-only debt ledger; the amount carries the sign of its effect. */
  datatype Entry = Entry(customerId: Id, kind: EntryKind, signedAmount: int, sessionId: Option<Id>)

  datatype Db = Db(
    computers: map<Id, Computer>,
    rooms: map<Id, Room>,
    customers: map<Id, Customer>,
    sessions: map<Id, Session>,
    ledger: seq<Entry>)

  datatype ServiceError =
    | NotFound
    | ComputerNotAvailable
    | RoomInactive
    | CustomerBlocked
    | SessionNotActive
    | Overpayment
    | DebtRequiresCustomer
    | CustomerNotFound
    | InvalidAmount
    | ActiveIndexViolation
    | Price(price: PriceError)
    | Amount(amount: MoneyError)

  // ----- Sums over the ledger -----

  /** Which ledger rows a sum takes: of one customer, one kind, one session, or only the negative ones. */
  datatype Selector = Selector(customer: Option<Id>, kind: Option<EntryKind>, session: Option<Id>, negative: bool)

  predicate Picks(sel: Selector, e: Entry) {
    && (sel.customer.Some? ==> e.customerId == sel.customer.value)
    && (sel.kind.Some? ==> e.kind == sel.kind.value)
    && (sel.session.Some? ==> e.sessionId == sel.session)
    && (sel.negative ==> e.signedAmount < 0)
  }

  function LedgerSum(ledger: seq<Entry>, sel: Selector): int {
    if ledger == [] then 0
    else LedgerSum(ledger[..|ledger| - 1], sel) + Share(sel, ledger[|ledger| - 1])
  }

  function Share(sel: Selector, e: Entry): int {
    if Picks(sel, e) then e.signedAmount else 0
  }

  function LedgerCount(ledger: seq<Entry>, sel: Selector): nat {
    if ledger == [] then 0
    else LedgerCount(ledger[..|ledger| - 1], sel) + (if Picks(sel, ledger[|ledger| - 1]) then 1 else 0)
  }

  const EVERYTHING := Selector(None, None, None, false)

  function Of(u: Id): Selector { EVERYTHING.(customer := Some(u)) }

  /** DebtService.getBalance before the safe-integer check: the signed sum of a customer's rows. */
  function Balance(ledger: seq<Entry>, u: Id): int {
    LedgerSum(ledger, Of(u))
  }

  /** DebtService.getTotalOutstanding before the safe-integer check. */
  function Outstanding(ledger: seq<Entry>): int {
    LedgerSum(ledger, EVERYTHING)
  }

  // ----- Starting sessions -----

  datatype StartRequest = StartRequest(
    computerIds: seq<Id>,
    customerId: Option<Id>,
    kind: SessionType,
    minutes: Option<int>,
    end: Option<int>)

  /** Rows a transaction has written and not yet committed. */
  datatype Staging = Staging(sessions: map<Id, Session>, computers: map<Id, Computer>, entries: seq<Entry>)

  const NOTHING := Staging(map[], map[], [])

  /** The tables as a transaction sees them with its own writes, and as everybody does once it commits. */
  function Merge(db: Db, st: Staging): Db {
    db.(sessions := db.sessions + st.sessions, computers := db.computers + st.computers,
        ledger := db.ledger + st.entries)
  }

  /** resolveCustomer. */
  function ResolveCustomer(db: Db, customerId: Option<Id>): Result<Option<Id>, ServiceError> {
    match customerId
    case None => Ok(None)
    case Some(u) =>
      if u !in db.customers || db.customers[u].deleted then Err(NotFound)
      else if db.customers[u].isBlocked then Err(CustomerBlocked)
      else Ok(customerId)
  }

  /** The checks on one computer of a start request, in order, and the session they lead to. */
  function Admit(db: Db, req: StartRequest, groupId: Option<Id>, startedAt: int, c: Id): Result<Session, ServiceError> {
    if c !in db.computers || db.computers[c].deleted then Err(NotFound)
    else
      var computer := db.computers[c];
      if !computer.isActive || computer.status != Available then Err(ComputerNotAvailable)
      else if computer.roomId !in db.rooms || db.rooms[computer.roomId].deleted || !db.rooms[computer.roomId].isActive
      then Err(RoomInactive)
      else
        var rate := db.rooms[computer.roomId].pricePerHour;
        match PlanFor(req.kind, rate, startedAt, req.minutes, req.end)
        case Err(e) => Err(Price(e))
        case Ok(plan) => Ok(NewSession(req, groupId, startedAt, c, computer.roomId, rate, plan))
  }

  function NewSession(req: StartRequest, groupId: Option<Id>, startedAt: int, c: Id, roomId: Id, rate: int, plan: Plan)
    : Session
  {
    Session(groupId, c, roomId, req.customerId, req.kind, Active, rate, startedAt,
            plan.plannedEndAt, None, plan.plannedAmount, 0)
  }

  /** Some ACTIVE session is on computer c: what the partial unique index looks up. */
  predicate ActiveOn(db: Db, c: Id) {
    exists sid | sid in db.sessions :: db.sessions[sid].status.Active? && db.sessions[sid].computerId == c
  }

  /** Insert the session under id `sid` and mark its computer in use. */
  function StageSession(db: Db, st: Staging, sid: Id, s: Session): Staging
    requires s.computerId in Merge(db, st).computers
  {
    var computer := Merge(db, st).computers[s.computerId];
    st.(sessions := st.sessions[sid := s], computers := st.computers[s.computerId := computer.(status := InUse)])
  }

  /** One pass of the loop in start. The new row's id is drawn from `newId`. */
  function StageOne(db: Db, req: StartRequest, groupId: Option<Id>, startedAt: int, st: Staging, c: Id, newId: map<Id, Id>)
    : Result<Staging, ServiceError>
    requires c in newId
  {
    match Admit(Merge(db, st), req, groupId, startedAt, c)
    case Err(e) => Err(e)
    case Ok(s) =>
      if ActiveOn(Merge(db, st), c) then Err(ActiveIndexViolation)
      else Ok(StageSession(db, st, newId[c], s))
  }

  function StageAll(db: Db, req: StartRequest, groupId: Option<Id>, startedAt: int, st: Staging, ids: seq<Id>,
                    newId: map<Id, Id>): Result<Staging, ServiceError>
    requires forall c :: c in ids ==> c in newId
    decreases |ids|
  {
    if ids == [] then Ok(st)
    else
      match StageOne(db, req, groupId, startedAt, st, ids[0], newId)
      case Err(e) => Err(e)
      case Ok(st1) => StageAll(db, req, groupId, startedAt, st1, ids[1..], newId)
  }

  /** Group sessions share an id; a single session has none. */
  function GroupId(req: StartRequest, groupId: Id): Option<Id> {
    if |req.computerIds| > 1 then Some(groupId) else None
  }

  /** SessionsService.start: every requested session is created, or the tables stay as they were. */
  function StartAll(db: Db, req: StartRequest, groupId: Id, startedAt: int, newId: map<Id, Id>): Result<Db, ServiceError>
    requires forall c :: c in req.computerIds ==> c in newId
  {
    match ResolveCustomer(db, req.customerId)
    case Err(e) => Err(e)
    case Ok(_) =>
      match StageAll(db, req, GroupId(req, groupId), startedAt, NOTHING, req.computerIds, newId)
      case Err(e) => Err(e)
      case Ok(st) => Ok(Merge(db, st))
  }

  // ----- Changing one active session -----

  datatype Op = End(at: int, amountPaid: Option<int>) | Cancel(at: int) | Extend(extension: Extension)

  /** The request validation of the end endpoint: a collected amount is not negative. */
  predicate ValidOp(op: Op) {
    op.End? && op.amountPaid.Some? ==> op.amountPaid.value >= 0
  }

  datatype Change = Change(session: Session, entries: seq<Entry>, frees: bool)

  /** What an operation makes of an active session row. */
  function Changed(op: Op, sid: Id, s: Session): Result<Change, ServiceError> {
    match op
    case Extend(x) =>
      (match Extended(s, x)
       case Err(e) => Err(Price(e))
       case Ok(s1) => Ok(Change(s1, [], false)))
    case Cancel(at) =>
      Ok(Change(s.(status := Cancelled, endedAt := Some(at), amountDue := 0, amountPaid := 0), [], true))
    case End(at, amountPaid) =>
      (match Finalize(s, at)
       case Err(e) => Err(Price(e))
       case Ok(due) =>
         match (if amountPaid.Some? then Minor(amountPaid.value) else Ok(due))
         case Err(e) => Err(Amount(e))
         case Ok(paid) => Settled(s, sid, at, due, paid))
  }

  /** The part of end after the charge and the payment are known. */
  function Settled(s: Session, sid: Id, at: int, due: int, paid: int): Result<Change, ServiceError> {
    if paid > due then Err(Overpayment)
    else
      match Minor(due - paid)
      case Err(e) => Err(Amount(e))
      case Ok(shortfall) =>
        if shortfall > 0 && s.customerId.None? then Err(DebtRequiresCustomer)
        else
          var entries := if shortfall > 0 then [Entry(s.customerId.value, DebtAdd, shortfall, Some(sid))] else [];
          Ok(Change(s.(status := Ended, endedAt := Some(at), amountDue := due, amountPaid := paid), entries, true))
  }

  /** releaseComputer, as the row it writes, if any. */
  function Release(computers: map<Id, Computer>, c: Id): map<Id, Computer> {
    if c in computers && !computers[c].deleted && computers[c].status == InUse
    then map[c := computers[c].(status := Available)]
    else map[]
  }

  function StageChange(db: Db, sid: Id, s: Session, change: Change): Staging {
    Staging(map[sid := change.session], if change.frees then Release(db.computers, s.computerId) else map[],
            change.entries)
  }

  /** lockActive followed by the operation: extend, end and cancel. */
  function ApplyOp(db: Db, sid: Id, op: Op): Result<Db, ServiceError> {
    if sid !in db.sessions then Err(NotFound)
    else if !db.sessions[sid].status.Active? then Err(SessionNotActive)
    else
      match Changed(op, sid, db.sessions[sid])
      case Err(e) => Err(e)
      case Ok(change) => Ok(Merge(db, StageChange(db, sid, db.sessions[sid], change)))
  }

  /** SessionsService.quote: the running cost, or the final charge of a closed session. */
  function QuoteOf(db: Db, sid: Id, now: int): Result<int, ServiceError> {
    if sid !in db.sessions then Err(NotFound)
    else if !db.sessions[sid].status.Active? then Ok(db.sessions[sid].amountDue)
    else
      match Quote(db.sessions[sid], now)
      case Err(e) => Err(Price(e))
      case Ok(amount) => Ok(amount)
  }

  // ----- Payments and corrections -----

  /** The amount checks of recordPayment before its transaction. */
  function PaymentAmount(amount: int): Result<int, ServiceError> {
    match Minor(amount)
    case Err(e) => Err(Amount(e))
    case Ok(magnitude) => if magnitude > 0 then Ok(magnitude) else Err(InvalidAmount)
  }

  /** The balance check of recordPayment and the entry it leads to. */
  function PaymentEntry(ledger: seq<Entry>, u: Id, amount: int): Result<Entry, ServiceError> {
    match Minor(Balance(ledger, u))
    case Err(e) => Err(Amount(e))
    case Ok(balance) => if amount > balance then Err(Overpayment) else Ok(Entry(u, DebtPayment, -amount, None))
  }

  /** DebtService.recordPayment. */
  function Pay(db: Db, u: Id, amount: int): Result<Db, ServiceError> {
    match PaymentAmount(amount)
    case Err(e) => Err(e)
    case Ok(magnitude) =>
      if u !in db.customers || db.customers[u].deleted then Err(CustomerNotFound)
      else
        match PaymentEntry(db.ledger, u, magnitude)
        case Err(e) => Err(e)
        case Ok(entry) => Ok(db.(ledger := db.ledger + [entry]))
  }

  /** DebtService.correct; the foreign key rejects an unknown customer. */
  function Correct(db: Db, u: Id, amount: int): Result<Db, ServiceError> {
    match Minor(amount)
    case Err(e) => Err(Amount(e))
    case Ok(value) =>
      if value == 0 then Err(InvalidAmount)
      else if u !in db.customers then Err(CustomerNotFound)
      else Ok(db.(ledger := db.ledger + [Entry(u, DebtCorrection, value, None)]))
  }

  // ----- Calls -----

  /** A call of a service, or a manager's write of one row. */
  datatype Call =
    | StartCall(req: StartRequest, groupId: Id, startedAt: int, newId: map<Id, Id>)
    | ChangeCall(sid: Id, op: Op)
    | PayCall(u: Id, amount: int)
    | CorrectCall(u: Id, amount: int)
    | WriteComputer(c: Id, computer: Computer)
    | WriteRoom(r: Id, room: Room)
    | WriteCustomer(u: Id, customer: Customer)

  /** The id source hands out a new id per computer, different from each other and from every session's. */
  ghost predicate FreshIds(db: Db, newId: map<Id, Id>) {
    && (forall c :: c in newId ==> newId[c] !in db.sessions)
    && (forall c, d :: c in newId && d in newId && newId[c] == newId[d] ==> c == d)
  }

  /** The ids a start draws are new, and there is one for every computer it names. */
  ghost predicate Drawable(db: Db, call: Call) {
    call.StartCall? ==> FreshIds(db, call.newId) && forall c :: c in call.req.computerIds ==> c in call.newId
  }

  /** The call run alone. */
  function Perform(db: Db, call: Call): Result<Db, ServiceError>
    requires call.StartCall? ==> forall c :: c in call.req.computerIds ==> c in call.newId
  {
    match call
    case StartCall(req, groupId, startedAt, newId) => StartAll(db, req, groupId, startedAt, newId)
    case ChangeCall(sid, op) => ApplyOp(db, sid, op)
    case PayCall(u, amount) => Pay(db, u, amount)
    case CorrectCall(u, amount) => Correct(db, u, amount)
    case WriteComputer(c, computer) => Ok(db.(computers := db.computers[c := computer]))
    case WriteRoom(r, room) => Ok(db.(rooms := db.rooms[r := room]))
    case WriteCustomer(u, customer) => Ok(db.(customers := db.customers[u := customer]))
  }
}
