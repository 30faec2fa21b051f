# A verified model of the club backend

The backend runs a computer club: staff start sessions on computers, extend, end and cancel them, collect
money, and keep a ledger of what customers owe. This project models its stateful core and proves what that
core is for:

- **Money and pricing.** `Binary64`, `Money`, `MoneyText`, `Pricing`: amounts held in IEEE 754 doubles, charges
  by time, decimal text and the `bigint` column, plans, quotes and extensions.
- **Sessions, computers and the debt ledger.** `Club` holds the tables and what each service call does to them
  when it runs alone. `ClubLaws` states the laws of the tables. `GroupStart` characterises group starts, and
  `Outcomes` says of every call what it charges, owes and frees, what it leaves alone, and when it fails.
  `Services` is the imperative form: a class whose methods change the tables, roll back, publish events, and
  keep the laws as their class invariant.
- **Interleaved transactions.** `Interleaving` splits every call into its statements, with row locks kept to
  the commit and writes seen by nobody else before it. `Runs`, `Evolution`, `Serializability` and `SerialRuns`
  prove what holds after any number of such statements in any order, with managers editing rows in between.
  `ForeignKeys` adds the locks of the ledger's foreign key. `ManagerEdits`, `RoomPrices` and `PaymentRaces` hold
  the runs that show where a property ends.
- **Refresh tokens.** `Tokens` and `TokenService`: rotation, reuse detection, revocation and purge over families.
- **Cache and analytics.** `Cache`, `Analytics`, `Freshness` and `Figures`: a lazily expiring map against an operation
  log, cached summaries against a fresh computation, and how calls move the figures of a summary.
- **Customer search and lockout.** `Like`, `Lockout`.

`Wrappers` and `Tables` are helpers. `dafny verify dfyconfig.toml` checks everything.

## What is modelled how

- Instants are integers in milliseconds and amounts integers in minor units. Where the program computes in
  doubles, `Binary64.Fl` rounds each operation, and a lemma says when the integer reading agrees.
- A thrown exception is an `Err` of a `Result`; a rolled-back transaction leaves the tables as they were.
- Ids, token secrets and the current time are parameters. Ids of new rows come from a map of unused ids, one
  per computer, so that two orders of the same group start can be compared row by row.
- `SELECT ... FOR UPDATE` takes a row lock and reads the latest committed row; the partial unique index on
  ACTIVE sessions is a check at the insert, plus a lock on its key while an insert is pending; an insert that
  conflicts with a row another open transaction is changing waits for that transaction.
- A step of an interleaved run that is not enabled, such as a statement waiting for a lock, changes nothing.
  Managers may overwrite a computer or customer whose row is free, and any room at any time.
- A refresh-token call, a login and a cached summary are one step each, as the program takes no lock there.

## Where the code and its comments disagree

- src/common/money/money.ts:45-47 promises integer rounding, but the code divides doubles. The charge equals
  exact half-up rounding for every product of rate and seconds except 2^53 - 393, where it is one too high
  (`Money.HalfUpUnless`, `Money.OneTooHigh`).
- src/common/money/money.ts:12-14 and the transformer call the `bigint` column lossless. It is, exactly for the
  integers that are doubles, every safe one included; 2^53 + 1 is read back as 2^53 (`MoneyText.ColumnLossless`,
  `MoneyText.ColumnLossy`). Only another writer can put such a value there: every number the transformer itself
  writes comes back (`MoneyText.ColumnRoundTrip`).
- src/modules/analytics/analytics.service.ts:56 says money-affecting events drop cached summaries. A correction
  that makes a customer's balance leave the safe range is stored, but reading the balance back fails before the
  event is published, so summaries cached before it keep the old debt and are served until they expire
  (`Freshness.RunFreshIff`, with a run from a club without sessions and debts in `Freshness.StaleUntilExpiry`);
  nothing staler than thirty seconds is ever served (`Freshness.StalenessIsBounded`). Ending a session can fail in
  the same way after its commit (`Services.ClubStore.EndSession`).
- src/modules/sessions/entities/session.entity.ts:40-41 presents the unique index as what enforces one ACTIVE
  session per computer. As long as every row a manager writes is in step with the computer's sessions the locks
  alone do, and the index never rejects anything (`Runs.StatusFollowsSessions`); otherwise the index is needed
  (`ManagerEdits.ManagerTripsIndex`), and a removed computer can stay IN_USE without a session
  (`ManagerEdits.RemovalStrandsComputer`).
- src/modules/debt/debt.service.ts:76-80 and 91 credit the customer lock with keeping payments free of races. It
  keeps payments apart from each other, but corrections and debts take no lock in the code: one of them can land
  between a payment's balance check and its commit (`PaymentRaces.CorrectionOvertakesPayment`). What rules this out
  is the ledger's foreign key (src/database/migrations/1782115965112-Schema.ts:44), whose key-share lock waits for
  the payment (`ForeignKeys.PaymentsAreNotOvertaken`, `PaymentRaces.HarmfulRaceWaits`).

## What interleaving can show

The tables after a run are those its calls lead to one after another, in commit order, if and only if every
transaction commits while what it has read without a lock is current (`SerialRuns.RunIsSerialIff`). Such a read goes
out of date in exactly four ways (`Serializability.StepCurrentIff`): a room that an open start has read is closed or
gets another price; the customer of an open start is blocked or removed; a correction takes a balance below a
payment past its check; or a ledger entry makes that balance unreadable. `RoomPrices.GroupAtTwoPrices` is a group in
one room at two rates, and `PaymentRaces` has both payment cases, which the code's own locks let through and the
foreign key of the ledger does not. With that key honoured a run is serial if and only if the starts it commits find
their customers and rooms as they read them (`ForeignKeys.HonouredSerialIff`).

## Model

| member | source | states |
|---|---|---|
| Binary64.FlIsNearest | src/common/money/money.ts:11-12 | the modelled double arithmetic is correctly rounded: no double lies nearer to the exact result |
| Binary64.TiesToEven | src/common/money/money.ts:11-12 | of two equally near doubles the one with the even significand is taken (roundTiesToEven, section 4.3.1 of IEEE 754-2019) |
| Binary64.IntegersExact | src/common/money/money.ts:9-12 | every integer of magnitude at most 2^53 is held exactly, which is why amounts are limited to safe integers |
| Binary64.HalfUlp | src/common/money/money.ts:62-64 | the rounding error below 2^53/2^k is at most 1/2^(k+1), the bound that the charge's gap of 1/3600 has to beat |
| Binary64.DoesNotCross | src/common/money/money.ts:62-64 | rounding never carries a quotient across an integer |
| Money.HalfUpIsNearest | src/common/money/money.ts:41-43 | the documented rounding is the integer nearest to rate * seconds / 3600, the upper one on a tie |
| Money.ForDurationIs | src/common/money/money.ts:49-66 | the double computation on every pair of numbers: which arguments are rejected and what every other pair is charged |
| Money.FromMinorIff | src/common/money/money.ts:22-30 | an amount is made exactly of an integer in the safe range, and is that integer |
| Money.ForDurationSucceedsIff | src/common/money/money.ts:49-59 | a charge is made exactly for whole, non-negative arguments whose product is safe |
| Money.ChargeIsNearest | src/common/money/money.ts:60-65 | the charge lies within half a unit of the hourly rate, except at the misrounded product |
| Money.HalfUpUnless | src/common/money/money.ts:40-66 | the charge is the documented half-up rounding, or an overflow error outside the safe range, if and only if the product is not 2^53 - 393 |
| Money.OneTooHigh | src/common/money/money.ts:56-65 | the exception is reachable: rate 2^53 - 393 for one second is charged one unit too much |
| Money.ChargeMonotone | src/common/money/money.ts:49-66 | at one rate a longer stay never costs less, and can be charged only if the shorter one can |
| Money.AddExact | src/common/money/money.ts:72-74 | addition is exact or fails; a rounded sum is never returned |
| Money.SubtractExact | src/common/money/money.ts:76-78 | subtraction is exact or fails |
| Money.AddSubtract | src/common/money/money.ts:72-78 | subtracting what was added gives the first amount back |
| Money.RoundedSecondsExact | src/modules/sessions/session-pricing.service.ts:167-169 | Math.round over doubles is exact half-up rounding for spans up to 2^53 ms, negative ones included |
| MoneyText.FromStringExact | src/common/money/money.ts:33-38 | a string is accepted if and only if it is decimal and denotes a safe integer, leading zeros included, and the amount is that integer |
| MoneyText.TextRoundTrip | src/common/money/money.ts:33-38 | fromString undoes toString on every amount |
| MoneyText.TextInjective | src/common/money/money.ts:123-125 | different amounts have different texts |
| MoneyText.ColumnReadsRounded | src/common/money/money.transformer.ts:16-21 | a stored integer comes back rounded to a double |
| MoneyText.PrintsExists | src/common/money/money.transformer.ts:14-14 | every double below 10^21 has a text to be written as |
| MoneyText.ColumnRoundTrip | src/common/money/money.transformer.ts:10-21 | every double below 10^21 that is written comes back truncated, a whole one unchanged, whatever digits JavaScript prints beyond the safe range |
| MoneyText.ColumnLossless | src/common/money/money.transformer.ts:3-8 | the column is lossless exactly on the integers that are doubles, every safe integer among them |
| MoneyText.ColumnLossy | src/common/money/money.transformer.ts:16-21 | 2^53 + 1 is read back as 2^53 |
| MoneyText.TruncateTowardsZero | src/common/money/money.transformer.ts:14 | what is written is the number without its fraction, towards zero on both sides |
| MoneyText.ColumnKeepsNull | src/common/money/money.transformer.ts:10-21 | null is written and read back as null, and nothing else is |
| Pricing.DiffSecondsInDoubles | src/modules/sessions/session-pricing.service.ts:167-169 | the integer reading of diffSeconds agrees with the doubles for instants at most 2^53 ms apart |
| Pricing.DiffSecondsNearest | src/modules/sessions/session-pricing.service.ts:167-169 | whole seconds between two instants are nearest to the span, the later ones on a tie |
| Pricing.DurationPlanIs | src/modules/sessions/session-pricing.service.ts:35-48 | a plan by minutes needs a positive number of them, ends those minutes after the start and charges exactly them |
| Pricing.EndTimePlanIs | src/modules/sessions/session-pricing.service.ts:50-69 | a plan by end time needs an end at least half a second ahead, ends then and charges the seconds up to it |
| Pricing.OpenPlanIs | src/modules/sessions/session-pricing.service.ts:71-72 | an open session has no planned end and no charge up front |
| Pricing.ExtensionIs | src/modules/sessions/session-pricing.service.ts:110-165 | exactly when an extension succeeds; the session then ends at the instant asked for, or the minutes after its planned end, and is charged for all of its time |
| Pricing.OpenChargeIs | src/modules/sessions/session-pricing.service.ts:98-104 | ending an open session charges what a plan up to that instant at its rate charges, the seconds at the hourly rate to the nearest unit, and nothing below half a second |
| Pricing.FixedChargeIs | src/modules/sessions/session-pricing.service.ts:98-104 | a fixed session is charged what was locked in, whenever it ends |
| Pricing.QuoteIsCharge | src/modules/sessions/session-pricing.service.ts:84-104 | a quote at an instant is the charge of ending at that instant, errors included |
| Pricing.PlanPriced | src/modules/sessions/session-pricing.service.ts:28-77 | a planned session satisfies the pricing invariant: end after start, charge of exactly that span, nothing for an open session |
| Pricing.ExtendedPriced | src/modules/sessions/session-pricing.service.ts:110-165 | an extension keeps the pricing invariant, moves the end strictly later and never lowers the charge |
| Pricing.ExtendedAllPriced | src/modules/sessions/session-pricing.service.ts:110-165 | the same over any list of extensions |
| Pricing.QuoteNeverExceeds | src/modules/sessions/session-pricing.service.ts:84-104 | a quote is never above the final charge of ending later, whatever extensions come in between |
| Pricing.DurationPathIndependent | src/modules/sessions/session-pricing.service.ts:35-48 | a fixed-duration plan extended by any list of minutes equals one plan of the total, end, charge and error alike |
| Pricing.ExtensionOrderIrrelevant | src/modules/sessions/session-pricing.service.ts:115-131 | the order of the extensions does not matter |
| Pricing.EndTimePathIndependent | src/modules/sessions/session-pricing.service.ts:133-157 | an increasing chain of end times equals planning the last end directly |
| Pricing.PiecewiseBound | src/common/money/money.ts:60-65 | charging k pieces separately differs from one charge by at most k/2 units, the misrounded product included |
| Pricing.SplittingBound | src/modules/sessions/session-pricing.service.ts:126-130 | splitting a stay into k pieces at one rate changes the total by at most k/2 units |
| Tables.SumSplitsAt | src/modules/debt/debt.service.ts:174-178 | a SUM does not depend on the order in which rows are taken |
| ClubLaws.BalanceExplained | src/modules/debt/debt.service.ts:168-180 | a customer's balance is the unpaid part of their ended sessions plus corrections less payments |
| ClubLaws.BalancesNonNegative | src/modules/debt/debt.service.ts:102-109 | with no negative correction on record no balance is below zero |
| ClubLaws.EndSettles | src/modules/sessions/sessions.service.ts:171-217 | exactly when ending an active session fails, what it charges otherwise (for an open one the seconds at its rate, as a plan would), and the whole row and debt entry it leaves: settled in full unless the request names an amount |
| ClubLaws.ChangedIs | src/modules/sessions/sessions.service.ts:171-217 | a changed row is correctly priced, keeps its computer and customer, frees the computer exactly when it closes, and owes exactly its unpaid part |
| ClubLaws.ApplyOpKeepsLaws | src/modules/sessions/sessions.service.ts:135-255 | extend, end and cancel keep one session per computer, correct charges, matching debts, conservation of money and no overdraft, and change no closed row |
| ClubLaws.ApplyOpKeepsStatus | src/modules/sessions/sessions.service.ts:345-357 | they keep a computer IN_USE exactly while it has an ACTIVE session |
| ClubLaws.PaySucceedsIff | src/modules/debt/debt.service.ts:81-121 | exactly which payments are taken |
| ClubLaws.PayKeepsLaws | src/modules/debt/debt.service.ts:90-121 | a payment lowers the balance by its amount, not below zero, and keeps every law |
| ClubLaws.CorrectKeepsLaws | src/modules/debt/debt.service.ts:144-163 | a correction of either sign keeps every law, conservation included |
| ClubLaws.EditKeepsLaws | src/modules/computers/computers.service.ts:64-81 | so does anything written to computers, rooms and customers |
| ClubLaws.StartKeepsLaws | src/modules/sessions/sessions.service.ts:57-119 | committing what a start has staged keeps every law |
| ClubLaws.StartKeepsStatus | src/modules/sessions/sessions.service.ts:110-113 | and keeps computer status in step with sessions |
| ClubLaws.OwnWriteRefused | src/modules/sessions/sessions.service.ts:61-79 | a repeated computer id is refused because the transaction reads its own write |
| ClubLaws.OthersUnaffected | src/modules/sessions/sessions.service.ts:61-93 | every other computer is judged as if nothing had been staged |
| GroupStart.StageAllIff | src/modules/sessions/sessions.service.ts:61-116 | the loop succeeds exactly on distinct, new ids each startable by itself, and then has staged one session for each |
| GroupStart.StartSucceedsIff | src/modules/sessions/sessions.service.ts:52-119 | a group start succeeds exactly when the customer passes, the ids are distinct, and for each computer the computer, its room and the plan pass |
| GroupStart.StartLeaves | src/modules/sessions/sessions.service.ts:46-51 | a successful start adds one session per computer, flips exactly those computers, changes nothing else and keeps every law |
| GroupStart.GroupShares | src/modules/sessions/sessions.service.ts:95-109 | members share group id and start; each carries its room's price of that moment and the plan made at it |
| GroupStart.StartedIsStartAll | src/modules/sessions/sessions.service.ts:46-51 | the description of a started group determines the resulting tables |
| GroupStart.StartOrderIrrelevant | src/modules/sessions/sessions.service.ts:61-116 | any order of the same computers succeeds or fails alike and leaves the same tables |
| Outcomes.OpFails | src/modules/sessions/sessions.service.ts:325-343 | extend, end and cancel of an unknown session and of a closed one fail each in its way |
| Outcomes.OpTouches | src/modules/sessions/sessions.service.ts:135-255 | extend, end and cancel touch one session, its computer and the end of the ledger, and nothing else |
| Outcomes.ExtendLeaves | src/modules/sessions/sessions.service.ts:135-152 | an extension moves the planned end to the instant asked for, charges all of the time, and touches neither computers nor ledger |
| Outcomes.EndLeaves | src/modules/sessions/sessions.service.ts:167-222 | an ended session carries its charge, what was collected, in full unless the request says otherwise, and one debt of exactly the rest on its customer |
| Outcomes.EndFails | src/modules/sessions/sessions.service.ts:171-192 | an end that names an amount fails for too much, or too little and no customer, and for nothing else once the charge is made |
| Outcomes.CancelLeaves | src/modules/sessions/sessions.service.ts:237-255 | any active session, prepaid or not, can be cancelled, and is then charged, paid and owed nothing |
| Outcomes.QuoteIsEndCharge | src/modules/sessions/sessions.service.ts:258-265 | what is quoted at an instant is what ending at that instant charges |
| Outcomes.QuoteFails | src/modules/sessions/sessions.service.ts:258-265 | a quote fails for an unknown session only, or when the charge cannot be made; a closed session is quoted its charge |
| Outcomes.CloseFrees | src/modules/sessions/sessions.service.ts:345-357 | an end or a cancel makes the session's undeleted IN_USE computer AVAILABLE and changes nothing else on its row |
| Outcomes.FreedCanStart | src/modules/sessions/sessions.service.ts:66-93 | after it, an active computer in an open room passes for every request whose plan can be made |
| Outcomes.RestartSucceeds | src/modules/sessions/sessions.service.ts:52-119 | so that the next start on it succeeds |
| Outcomes.AdmitFails | src/modules/sessions/sessions.service.ts:61-93 | why a computer is refused, in the order of the checks, and that nothing else refuses it |
| Outcomes.CustomerFails | src/modules/sessions/sessions.service.ts:303-323 | an unknown customer is not found and a blocked one is refused |
| Outcomes.GroupIdentity | src/modules/sessions/sessions.service.ts:52-56 | several computers share the new group id and a single one has none |
| Outcomes.PayLeaves | src/modules/debt/debt.service.ts:90-121 | a payment is one ledger entry of its kind and amount, lowering that customer's balance and no other |
| Outcomes.PayFails | src/modules/debt/debt.service.ts:81-109 | which payments are refused as not positive, of an unknown customer, or above the balance |
| Outcomes.CorrectLeaves | src/modules/debt/debt.service.ts:144-163 | a correction of any safe amount but zero is taken and booked with its sign |
| Interleaving.StepKeeps | src/modules/sessions/sessions.service.ts:57-255 | every statement, commit, rollback, correction or edit keeps the laws and what every open transaction relies on |
| Interleaving.TxnFrame | src/modules/sessions/sessions.service.ts:62-65 | a transaction is not disturbed by anything that respects its locks |
| Interleaving.CommitRespects | src/modules/sessions/sessions.service.ts:325-357 | a commit respects the locks of every other open transaction |
| Interleaving.CommitIsAtomic | src/modules/sessions/sessions.service.ts:154-159 | a committing extend, end or cancel does to the tables, as they then are, what the call does alone |
| Interleaving.CommitKeepsLaws | src/modules/debt/debt.service.ts:76-80 | every commit keeps the laws, a payment whose balance was read before other commits included |
| Runs.RunKeepsLaws | src/modules/sessions/sessions.service.ts:154-159 | every interleaved run keeps every law, and closed sessions and ledger entries never change again |
| Runs.OneActivePerComputer | src/database/migrations/1782115965112-Schema.ts:33 | after any run, manager edits included, at most one session is ACTIVE on a computer |
| Runs.PaymentsNeverOverdraw | src/modules/debt/debt.service.ts:76-121 | after any run without negative corrections every balance is non-negative, though ending sessions lock no customer |
| Runs.WriteKeepsStatusIff | src/modules/computers/computers.service.ts:64-81 | writing or deleting a computer keeps IN_USE in step with ACTIVE sessions exactly when the row written is in step: IN_USE exactly with an ACTIVE session, and then not deleted |
| Runs.StepStatusIff | src/modules/sessions/sessions.service.ts:345-357 | every other step keeps them in step, and no step makes the index reject anything while they are |
| Runs.StatusFollowsSessions | src/modules/sessions/sessions.service.ts:345-357 | throughout a run IN_USE means exactly an ACTIVE session if and only if every manager's write is in step when it is made; the unique index then never rejects anything |
| Runs.StatusWithoutStatusEdits | src/modules/computers/computers.service.ts:64-81 | in particular when managers write neither status nor deletion, wherever they move computers |
| ManagerEdits.ManagerTripsIndex | src/modules/computers/computers.service.ts:64-76 | a manager's status write brings a second start to the index, which rejects it |
| ManagerEdits.RemovalStrandsComputer | src/modules/computers/computers.service.ts:78-81 | a manager's removal of an occupied computer leaves it IN_USE after its session has closed |
| Runs.StartCommits | src/modules/sessions/sessions.service.ts:46-51 | committing a group start gives each requested computer, all different and idle until then, its one ACTIVE session, and touches nothing else |
| Runs.OnlyCommitsWrite | src/modules/sessions/sessions.service.ts:57-119 | a transaction that does not commit leaves no trace |
| Evolution.RunMatures | src/modules/sessions/entities/session.entity.ts:26-31 | over any run a session keeps its terms, the rate snapshot among them, its charge and planned end never fall until it is closed, and it is frozen from then on |
| Evolution.QuoteWithinCharge | src/modules/sessions/sessions.service.ts:257-265 | what is quoted is never more than what is charged when the session ends, then or later, over any run |
| Serializability.StepPlanned | src/modules/sessions/sessions.service.ts:57-119 | what a transaction has read under its locks holds until it ends, whatever happens |
| Serializability.StepCurrentIff | src/modules/sessions/sessions.service.ts:80-93 | what open transactions have read without a lock stays current over a step exactly when the step is none of four named conflicts |
| Serializability.RunCurrentIff | src/modules/sessions/sessions.service.ts:57-93 | the same over every run, registrations of customers and openings of rooms included |
| Serializability.StartsAreSerializable | src/modules/sessions/sessions.service.ts:46-51 | a start that commits leaves what the same call, run alone at that moment, leaves exactly when its customer still passes and its rooms are open at the rates its sessions carry |
| Serializability.ChangesAreSerializable | src/modules/sessions/sessions.service.ts:135-255 | extend, end and cancel always do, whatever is edited |
| Serializability.PaymentsAreSerializable | src/modules/debt/debt.service.ts:81-121 | a payment does exactly when the balance still covers it and can be read |
| SerialRuns.EventDoesIff | src/modules/sessions/sessions.service.ts:57-255 | a step does what one call, run alone, does, or nothing, exactly when a transaction it commits has current reads |
| SerialRuns.RunIsSerialIff | src/modules/debt/debt.service.ts:76-80 | the tables after any interleaved run are those its calls lead to, one after another in commit order, if and only if every commit finds its unlocked reads current |
| SerialRuns.EveryRunIsSerial | src/modules/sessions/sessions.service.ts:46-51 | from an empty club every run without one of the four conflicts is serial |
| SerialRuns.EveryRunIsSerialIff | src/modules/sessions/sessions.service.ts:46-51 | and any run is, if and only if its commits find their reads current |
| ForeignKeys.OnlyEditsDisturb | src/database/migrations/1782115965112-Schema.ts:44 | with the foreign key's locks honoured, nothing but an edit of a room or a customer puts an unlocked read out of date |
| ForeignKeys.PaymentsAreNotOvertaken | src/modules/debt/debt.service.ts:76-121 | after any run that honours the foreign key, whatever is edited and corrected in it, a payment ready to commit is still covered, does what the payment alone would do at that moment, and leaves no negative balance |
| ForeignKeys.HonouredSerialIff | src/modules/debt/debt.service.ts:76-121 | such a run is its calls one after another, in commit order, if and only if every start it commits has current reads; of payments and of starts that roll back nothing is asked |
| ForeignKeys.HonouredRunIsSerial | src/modules/sessions/sessions.service.ts:57-119 | in particular when room and customer edits spare the open starts they concern |
| PaymentRaces.HarmfulRaceWaits | src/database/migrations/1782115965112-Schema.ts:44 | every race that is not serial passes a lock of the foreign key |
| PaymentRaces.RaceIsSerialIff | src/modules/debt/debt.service.ts:90-121 | a correction landing between the check and the commit of a payment is harmless exactly when the balance still covers the payment and can be read |
| PaymentRaces.CorrectionOvertakesPayment | src/modules/debt/debt.service.ts:102-121 | a run in which such a correction lets a payment take the balance below zero |
| PaymentRaces.UnreadableBalanceOvertakesPayment | src/modules/debt/debt.service.ts:102-121 | a run in which it makes the balance unreadable and the payment commits all the same |
| RoomPrices.GroupAtTwoPrices | src/modules/sessions/sessions.service.ts:80-103 | a run in which a price change between two passes of the loop leaves a group in one room at two rates, which the same calls one after another do not |
| RoomPrices.GroupAtOnePrice | src/modules/sessions/sessions.service.ts:80-103 | a start run alone never does that |
| Services.ClubStore.constructor | src/modules/sessions/sessions.service.ts:37-44 | tables without sessions and debts, which satisfy the laws |
| Services.StartEventsAre | src/modules/sessions/sessions.service.ts:121-126 | a start announces each of its new sessions once, in request order, and nothing else |
| Services.EndEventsAre | src/modules/sessions/sessions.service.ts:224-232 | an end announces itself, then a new debt with the customer's new balance, if there is one and the balance can be read |
| Services.CorrectionEventsAre | src/modules/debt/debt.service.ts:164 | a correction announces the customer's new balance, if it can be read |
| Services.ClubStore.Start | src/modules/sessions/sessions.service.ts:52-128 | all sessions or none, the laws kept, the new rows returned in request order, and one event per session only after success |
| Services.ClubStore.StartEach | src/modules/sessions/sessions.service.ts:61-118 | the loop stages what each computer gets by itself, or stops at the first error |
| Services.ClubStore.StartOne | src/modules/sessions/sessions.service.ts:61-116 | one pass: the checks, the insert under the unique index, and the computer's new status |
| Services.ClubStore.PrepareSession | src/modules/sessions/sessions.service.ts:66-109 | it succeeds exactly when computer, room and plan pass, and the session is correctly priced at what its room charges |
| Services.ClubStore.FindCustomer | src/modules/sessions/sessions.service.ts:303-323 | it succeeds exactly when the customer exists and is not blocked; otherwise every start for them fails with the same error |
| Services.ClubStore.LockActive | src/modules/sessions/sessions.service.ts:325-343 | an open and correctly priced session, or the error every operation on that id fails with |
| Services.ClubStore.ReleaseComputer | src/modules/sessions/sessions.service.ts:345-357 | an undeleted IN_USE computer becomes AVAILABLE, the rest of its row and every other computer are left alone |
| Services.ClubStore.Close | src/modules/sessions/sessions.service.ts:195-219 | saving the closed row, its debt and the released computer is the whole operation and keeps the laws |
| Services.ClubStore.ExtendSession | src/modules/sessions/sessions.service.ts:135-152 | the whole new state, the result and the event, or an error and no change; the laws are kept |
| Services.ClubStore.EndSession | src/modules/sessions/sessions.service.ts:160-234 | the same for ending, the debt announced after the end; an unsafe balance fails the call after the commit |
| Services.ClubStore.Settle | src/modules/sessions/sessions.service.ts:171-217 | charge, payment, shortfall and the checks between them; an open session is charged its seconds at its rate, as a plan would charge them |
| Services.ClubStore.AnnounceEnd | src/modules/sessions/sessions.service.ts:224-232 | the end is announced first, then the debt with the balance read back, or not at all when it cannot be read |
| Services.ClubStore.EndTransaction | src/modules/sessions/sessions.service.ts:167-222 | the transaction of end: row, debt and computer together, or an error and no change |
| Services.ClubStore.CancelSession | src/modules/sessions/sessions.service.ts:237-255 | the whole new state, the result and the event, or an error and no change; the laws are kept |
| Services.ClubStore.QuoteSession | src/modules/sessions/sessions.service.ts:258-265 | the charge of ending the session at this instant, never above that of ending it later; the final charge of a closed one |
| Services.ClubStore.RecordPayment | src/modules/debt/debt.service.ts:81-129 | the balance falls by the amount, not below zero, with entry and event, or an error and no change; the laws are kept |
| Services.ClubStore.CorrectDebt | src/modules/debt/debt.service.ts:144-166 | the correction is stored even when reading the balance back then fails the call; the laws are kept |
| Services.ClubStore.UpdateComputer | src/modules/computers/computers.service.ts:64-76 | the given fields are assigned over the row, whatever its sessions, the event follows, and the laws are kept |
| Services.ClubStore.RemoveComputer | src/modules/computers/computers.service.ts:78-81 | a soft delete, whatever its sessions; the laws are kept |
| Tokens.TextSplits | src/modules/auth/services/token.service.ts:81-85 | the token text splits back into the id and the secret |
| Tokens.StepKeeps | src/modules/auth/services/token.service.ts:42-146 | every call keeps families simple chains: rotated tokens revoked and linked to the next one, one owner, expiry never decreasing |
| Tokens.RunKeeps | src/modules/auth/services/token.service.ts:42-146 | so does every run |
| Tokens.OneLivePerFamily | src/modules/auth/services/token.service.ts:113-117 | at most one token of a family is unrevoked |
| Tokens.NoDanglingLink | src/modules/auth/services/token.service.ts:113-117 | a stored replacedBy names a stored token of the same family and user that expires no earlier |
| Tokens.OneLiveOverRuns | src/modules/auth/services/token.service.ts:113-117 | after any run from an empty table at most one token of a family is unrevoked |
| Tokens.NoDanglingOverRuns | src/modules/auth/services/token.service.ts:138-146 | after any run from an empty table, purges included, no replacedBy dangles |
| Tokens.PurgeTakesPrefix | src/modules/auth/services/token.service.ts:138-146 | a purge removes the oldest tokens of a family first |
| Tokens.PurgeKeeps | src/modules/auth/services/token.service.ts:138-146 | a purge keeps the chains, so no surviving link is left dangling |
| Tokens.DeadForever | src/modules/auth/services/token.service.ts:92-136 | no continuation ever accepts a token of a family without unrevoked members |
| Tokens.RunKeepsDead | src/modules/auth/services/token.service.ts:113-119 | a dead family stays dead and gets no new members |
| Tokens.ReuseKills | src/modules/auth/services/token.service.ts:103-107 | presenting a revoked token with its right secret is reuse and kills its family, whatever replaced it |
| Tokens.ReplayKills | src/modules/auth/auth.service.ts:89-110 | so does presenting it to a refresh, for an active owner |
| Tokens.ReplayIsFatal | src/modules/auth/services/token.service.ts:103-107 | over runs: once a rotated or revoked token that is still stored is presented again with its secret, no token of its family is ever accepted |
| Tokens.RefreshDecides | src/modules/auth/auth.service.ts:89-110 | which outcome a refresh has, read off the table: unauthorized, unknown, reused or expired |
| Tokens.RefreshLeaves | src/modules/auth/services/token.service.ts:92-120 | a refused refresh changes no token, reuse revokes one family and touches no other, a success replaces the presented token by one of the same user and family |
| Tokens.RevokeLeaves | src/modules/auth/services/token.service.ts:122-128 | a logout revokes the token it proves, even an expired one, and changes no other |
| Tokens.PurgeLeaves | src/modules/auth/services/token.service.ts:138-146 | a purge removes exactly the tokens past their expiry and changes no other |
| Tokens.LogoutKills | src/modules/auth/services/token.service.ts:122-128 | logging out with the live token kills its family |
| Tokens.RevokeFamilyKills | src/modules/auth/services/token.service.ts:130-132 | revoking a family kills it |
| Tokens.PasswordChangeKills | src/modules/auth/auth.service.ts:137-138 | changing the password kills every family of the user |
| Tokens.PasswordChangeLocksOut | src/modules/auth/auth.service.ts:118-138 | afterwards no token issued to the user before, nor a descendant, is ever accepted |
| Tokens.RefreshSucceedsIff | src/modules/auth/auth.service.ts:89-110 | a refresh succeeds exactly with the unexpired, unrevoked last token of a family of an active user |
| Tokens.IssuedIsAccepted | src/modules/auth/services/token.service.ts:49-86 | the token handed out by a login or refresh is accepted until it expires |
| TokenService.TokenStore.constructor | src/modules/auth/services/token.service.ts:35-40 | the table starts empty |
| TokenService.TokenStore.IssueForLogin | src/modules/auth/services/token.service.ts:42-47 | a login starts a family with one live token; chains are kept |
| TokenService.TokenStore.IssueRow | src/modules/auth/services/token.service.ts:49-86 | the new row, its expiry and the text handed out |
| TokenService.TokenStore.RotateToken | src/modules/auth/services/token.service.ts:92-120 | the whole new table and the outcome; it is reuse exactly when the text proves a revoked token, whose family is then dead; chains are kept |
| TokenService.TokenStore.RevokeToken | src/modules/auth/services/token.service.ts:122-128 | the presented token alone is revoked, every other stays as it is; if it was live its family is dead |
| TokenService.TokenStore.RevokeWholeFamily | src/modules/auth/services/token.service.ts:130-132 | the family is dead and no other family is touched |
| TokenService.TokenStore.RevokeAllForUser | src/modules/auth/services/token.service.ts:134-136 | every family of the user is dead and no other user's token is touched |
| TokenService.TokenStore.PurgeExpired | src/modules/auth/services/token.service.ts:139-146 | exactly the expired tokens are removed and counted; chains are kept |
| TokenService.TokenStore.RefreshSession | src/modules/auth/auth.service.ts:89-110 | it succeeds exactly with the accepted last token of a family of an active user, whose claims come from the record |
| Lockout.CounterStays | src/modules/auth/auth.service.ts:155-162 | the stored failure counter never leaves 0..4 |
| Lockout.LoginDecides | src/modules/auth/auth.service.ts:36-73 | a login succeeds exactly with the right password on an active, unlocked account, and which failure any other attempt is |
| Lockout.LoginLeaves | src/modules/auth/auth.service.ts:44-73 | a disabled or locked attempt changes nothing, a success clears counter and lock, the fifth failure locks |
| Lockout.LockHolds | src/modules/auth/auth.service.ts:155-162 | over every run, successes included, after the failure that starts a lock no attempt fails or succeeds for fifteen minutes, whatever the password |
| Lockout.FailuresThrottled | src/modules/auth/auth.service.ts:44-63 | over every run without a success the n-th checked failure comes at least fifteen minutes per five failures after the first, those already counted included |
| Lockout.BoundAttained | src/modules/auth/auth.service.ts:155-162 | the bound is exact: some run meets it at every failure |
| Lockout.AccountRow.TryLogin | src/modules/auth/auth.service.ts:36-73 | lock check, failure and reset on the stored row, its counter kept in 0..4; it succeeds exactly with the right password on an active, unlocked account |
| Lockout.AccountRow.RegisterFailure | src/modules/auth/auth.service.ts:155-162 | the fifth failure starts a lock and resets the count |
| Like.EscapedSearch | src/modules/customers/customers.service.ts:45-61 | the escaped pattern matches exactly the texts in which the input occurs literally, under any character equality |
| Like.EscapedPrefix | src/modules/customers/customers.service.ts:59-61 | the escaped input stands for itself at the start of a text |
| Like.SearchFinds | src/modules/customers/customers.service.ts:41-57 | a customer is found exactly when the search text occurs in the name or the phone; an absent search finds everybody |
| Like.UnescapedFindsAll | src/modules/customers/customers.service.ts:45-45 | without the escape a percent sign would find everybody |
| Like.WildcardsMatch | src/modules/customers/customers.service.ts:45-61 | what the escape guards against: a bare percent sign matches any text, a bare underscore any one character |
| Cache.LastPutIs | src/common/cache/cache.service.ts:18-48 | the log's answer is the one put that nothing later replaced or removed |
| Cache.AnswerFromStore | src/common/cache/cache.service.ts:18-28 | a store that agrees with the log answers as the log does |
| Cache.CacheService.Get | src/common/cache/cache.service.ts:18-28 | get answers from the log alone; the lazy deletion cannot be observed |
| Cache.CacheService.Set | src/common/cache/cache.service.ts:30-35 | set is one put in the log |
| Cache.CacheService.Del | src/common/cache/cache.service.ts:37-39 | del removes that key's put |
| Cache.CacheService.DelByPrefix | src/common/cache/cache.service.ts:42-48 | deleting while iterating removes exactly the matching keys |
| Cache.CacheService.GetOrSet | src/common/cache/cache.service.ts:50-62 | a live value is returned, else the factory is called and its value stored; when it fails nothing is stored |
| Cache.CacheService.Find | src/common/cache/cache.service.ts:19-22 | the position of a key in the Map |
| Analytics.KeyInjective | src/modules/analytics/analytics.service.ts:71-71 | distinct ranges never share a cache key |
| Analytics.SweptLog | src/modules/analytics/analytics.service.ts:59-68 | the handlers drop every cached summary after a financial event and none otherwise |
| Figures.EndRaises | src/modules/analytics/analytics.service.ts:85-112 | an end within the range raises revenue by exactly what was collected (safe sums), the count by one, play time by the stay to within its rounding, and the customers by its own if new |
| Figures.CloseOutsideLeaves | src/modules/analytics/analytics.service.ts:85-92 | an end outside the range and every cancel leave these four figures alone |
| Figures.OthersLeave | src/modules/analytics/analytics.service.ts:85-112 | so do starts, extensions, payments, corrections and edits |
| Figures.NothingYet | src/modules/analytics/analytics.service.ts:93-112 | without sessions every figure is zero |
| Figures.EndOwes | src/modules/debt/debt.service.ts:196-202 | outstanding debt grows by what an end leaves unpaid |
| Figures.LedgerOwes | src/modules/debt/debt.service.ts:196-202 | it falls by a payment and moves by a correction |
| Figures.SummaryBalances | src/modules/analytics/analytics.service.ts:85-143 | over a range that holds every ended session, charges plus corrections are revenue plus payments plus outstanding debt |
| Figures.StartRaisesActive | src/modules/analytics/analytics.service.ts:132-134 | a start raises the number of active sessions by the computers it asks for |
| Figures.CloseLowersActive | src/modules/analytics/analytics.service.ts:132-134 | an end or a cancel lowers it by one |
| Freshness.CoherentIffFresh | src/modules/analytics/analytics.service.ts:70-75 | the cache is coherent exactly when every request for a summary would be answered as a fresh computation answers it, failures included |
| Freshness.StepCoherentIff | src/modules/analytics/analytics.service.ts:55-80 | a call with its events, a request or the passing of time keeps the cache coherent exactly when it is not a correction that leaves an unsafe balance while a summary could be served |
| Freshness.CorrectionCoherentIff | src/modules/debt/debt.service.ts:157-165 | a correction keeps the cache coherent exactly when it leaves a safe balance or no summary can be served, expired ones not counting |
| Freshness.RunFreshIff | src/modules/analytics/analytics.service.ts:55-80 | throughout a run every answer is fresh if and only if every correction in it leaves a safe balance or finds no summary to serve |
| Freshness.SummariesFreshIff | src/modules/analytics/analytics.service.ts:70-112 | the same from an empty cache over any tables |
| Freshness.StalenessIsBounded | src/modules/analytics/analytics.service.ts:32-75 | over every run, harmful corrections, starts and computer edits included, every answer is in full the one of the tables at some point of the run less than thirty seconds earlier |
| Freshness.StaleUntilExpiry | src/modules/debt/debt.service.ts:157-165 | after two corrections with a summary between them, the wrong summary is served for exactly the thirty seconds of its life |
| Analytics.PaymentAnnounced | src/modules/debt/debt.service.ts:123-127 | a payment leaves a safe balance, so its event is always published |
| Analytics.AnalyticsService.OnFinancialChange | src/modules/analytics/analytics.service.ts:62-80 | a financial event leaves no summary of any range in the cache, and one update event is emitted |
| Analytics.AnalyticsService.SummaryOf | src/modules/analytics/analytics.service.ts:70-112 | the cached summary while it lives, else one computed from the tables and stored; a failing computation stores nothing |

## Left out

- Controllers, guards, request validation, filters, the WebSocket gateway, audit records, settings, notifications and pagination: plumbing. The request bound `amountPaid >= 0` is `Club.ValidOp`.
- Argon2, JWT signing, random bytes and UUIDs: a secret is compared directly, and new ids and secrets are parameters required to be unused and free of dots.
- Underflow and infinities of doubles: no value here comes near underflow, and a result too large to be finite fails the same safe-integer check. `Number.isInteger` of an infinity gives another message of the same rejection.
- Invalid dates, and spans of more than 2^53 ms: a JavaScript Date reaches 8.64e15 ms from 1970, so only spans over most of that range. Leading blanks before a `bigint` text, which PostgreSQL never sends; whole numbers of 10^21 and more, which JavaScript prints with an exponent and no `bigint` holds.
- Session notes, acting users, labels, timestamps of rows, `lastLoginAt` and rehashing of passwords: no rule reads them.
- Averages, `topComputers`, `topRooms`, `occupancyRate` of a summary: derived from the modelled figures or from tables whose changes do not invalidate. `activeSessions` stands for the latter: its freshness is bounded by `Freshness.StalenessIsBounded` only.
- Deadlocks: computers are locked in request order, so two starts can wait for each other, and PostgreSQL then rolls one back. `Rollback` may happen to any transaction at any time.
- Interleaving inside `rotate`, inside `login`, and between a cache miss and its `set`: the program takes no lock there, and each is one step.
- The key-share locks that foreign keys take on a customer row are not part of `Interleaving.Step`, which therefore allows more runs than PostgreSQL does; `ForeignKeys.Honours` says which runs respect them.
- `Services.ClubStore.UpdateComputer` and `Services.ClubStore.RemoveComputer` run alone; in interleaved runs a manager's write is any row written while its lock is free, which covers a stale read saved later.
- `Cache.CacheService.GetOrSet`: the factory is a function without effects of its own; a stored `undefined`, which the program never stores, is not modelled.
- `Analytics.KeyInjective`: `toISOString` is any function that gives different instants different texts ending in their only `Z`; `Analytics.IsoLikeExists` shows such functions exist.
- A LIKE pattern that ends in a lone backslash is an error in PostgreSQL and matches nothing here; `escapeLike` never produces one.
- `Tokens.PurgeKeeps`: the database's `now()` and the application's clock are one nondecreasing clock, and the token lifetime is fixed.
- `multiply`, the comparisons of Money and `clampToZero`, room and customer CRUD, and listing queries: easy members.
