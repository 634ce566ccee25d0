# Verified model of the trade engine's core

A Dafny 4.11 model of the parts of a trading engine that hold its promises: decimal money, the durable job
runtime, the event stream, the risk latch, option symbols, daily snapshots, the follower loop and the
reversible ledger migration. Each part is modelled with the branches, constants and refusals of its code
and proved against an independent statement of what it is for. Nothing here is executed.

- **Money** (`PowersOfTen`, `Rounding`, `MoneyValue`, `MoneyFinish`, `MoneyArithmetic`, `MoneyLaws`,
  `MoneyQuantize`, `DigitText`, `MoneyText`). A value is a sign, a coefficient below 2^96 and a scale up to 28,
  held canonically. One relation, `Rounded`, says what any operation may return for an exact real value:
  half-even (roundTiesToEven, section 4.3.1 of IEEE 754-2019) to 28 digits, half-even to scale 28, then the
  bound, refusing what would vanish. Every operation, on its fast and its wide path, is proved to meet it, and
  the algebraic laws follow from it alone. The parser is proved against `Literal` and `Spell`, which say what a
  literal is.
- **Job runtime** (`Journal`, `Actor` and the `Actor...` modules). The journal's transactions are functions on
  the store and methods of a class proved against them. The actor is a state machine over atomic steps: any
  number of owners with worker threads, submissions in flight, stops that time out, inline runs, crashes and
  recoveries, in any interleaving. The theorems are about every run.
- **Event stream and line reader** (`EventStream`, `LineReader`). Commits, broadcasts and each connection's
  steps interleave freely (server-sent events, section 9.2 of the WHATWG HTML standard). One writer commits
  rising sequence numbers and broadcasts each event once, in order, after its commit.
- **Risk** (`RiskRules`, `RiskLatch`). The 21-rule decision over exact reals, with whole-share division an
  arbitrary function, and the drawdown latch over whole histories of calls for any accounts.
- **Option symbols** (`StrikeDigits`, `Strikes`, `OccSymbol`), **snapshots** (`Snapshot`), the **follower**
  (`Follower`) over a host and a clock that answer as they like, and the **migration** (`Migration`).
- `Wrappers` holds the `Option` and `Result` the modules share.

Results where the code does less than its promise, each with the exact condition:

- Negating or taking the absolute value of a 29-digit value re-rounds it, and refuses the largest one
  (`MoneyLaws.NegExactIff`, `MoneyLaws.NegRefusedIff`, `MoneyLaws.AbsExactIff`, `MoneyLaws.AbsRefusedIff`,
  `MoneyLaws.LargestRefused`).
- A stop that follows a timed-out one closes the store while the worker may still be running
  (`ActorStop.ClosedMeansExited`, `ActorStop.SecondStopCloses`, `ActorStop.ClosedUnderThread`).
- A suspension whose control event the ledger refuses is lost once the reading falls
  (`RiskLatch.ReachingLeavesOnIff`, `RiskLatch.LostSuspension`).
- A recovery does not hold back a worker that has started a job and not yet called the host: the job, now
  uncertain, is executed all the same (`ActorLate.RecoveredRunsIff`, `ActorLate.RunsAfterRecovery`).
- A recovery interrupted between its two control events leaves an account suspended without a brake
  (`RiskLatch.OrderedKeptIff`, `RiskLatch.InterruptedRecovery`).
- A strike of more than 28 digits that is no multiple of 0.001 can pass the three-decimals check
  (`Strikes.StrikeAcceptedIff`, `Strikes.LongStrikeSlips`); every multiple passes (`Strikes.ThousandthsAccepted`).
- A session whose close stamp precedes an earlier session's sees events past its own close
  (`Snapshot.OwnEventsIff`, `Snapshot.SessionSeesPastClose`).

## Model

| member | source | states |
|---|---|---|
| `Rounding.ShiftRoundCorrect` | crates/te_core/src/money.rs:110-130 | dropping digits gives the half-even nearest, or in floor mode the greatest not above, quotient of the signed coefficient, for every drop count |
| `Rounding.ShiftRoundsAgree` | crates/te_core/src/money.rs:89-130 | the `u128` and the big-integer shift agree wherever the fast one applies, beyond its power table too |
| `MoneyValue.CanonicalUnique` | crates/te_core/src/money.rs:214-235 | two canonical values that are numerically equal are the same representation |
| `MoneyValue.BuildCorrect` | crates/te_core/src/money.rs:214-235 | `build` holds exactly the value asked for when a canonical representation exists, and otherwise refuses |
| `MoneyValue.BuildLoop` | crates/te_core/src/money.rs:214-235 | the zero-stripping and scaling loops compute that same result |
| `MoneyFinish.RoundedUnique` | crates/te_core/src/money.rs:158-207 | the rounding specification (28 digits half-even, then scale 28 half-even, then the bound) admits one result for a value |
| `MoneyFinish.FinishBigCorrect` | crates/te_core/src/money.rs:158-174 | the big-integer finish meets that specification for every coefficient and exponent |
| `MoneyFinish.FastPathAgrees` | crates/te_core/src/money.rs:176-207 | the `u128` finish gives the same result as the big-integer one |
| `MoneyFinish.NeverVanishes` | crates/te_core/src/money.rs:196-202 | under the specification a non-zero exact value is never returned as zero |
| `MoneyArithmetic.AddCorrect` | crates/te_core/src/money.rs:483-525 | addition and subtraction are the exact sum put through the one specification |
| `MoneyArithmetic.AddPathsAgree` | crates/te_core/src/money.rs:483-525 | the checked `u128` path and the big-integer path of addition always agree |
| `MoneyArithmetic.MulCorrect` | crates/te_core/src/money.rs:527-535 | multiplication is the exact product put through the specification, on either path |
| `MoneyArithmetic.ShiftPositive` | crates/te_core/src/money.rs:539-573 | for non-zero operands the division's shift is positive |
| `MoneyArithmetic.DivCorrect` | crates/te_core/src/money.rs:539-573 | division is the exact rational quotient put through the specification; the truncated quotient with its sticky digit rounds as the true one does; a zero divisor is refused |
| `MoneyArithmetic.NegCorrect` | crates/te_core/src/money.rs:464-473 | negation and absolute value are the exact ones put through the specification |
| `MoneyLaws.AddMonotone` | crates/te_core/src/money.rs:475-525 | addition is weakly monotone in both arguments and subtraction in its first, wherever both sides succeed |
| `MoneyLaws.SubMonoRight` | crates/te_core/src/money.rs:475-525 | subtraction is weakly antitone in its right argument |
| `MoneyLaws.MulMonotone` | crates/te_core/src/money.rs:527-535 | multiplication keeps the order for a factor that is not negative and reverses it for one that is not positive, wherever both sides succeed |
| `MoneyLaws.DivMonotone` | crates/te_core/src/money.rs:539-573 | division keeps the order for a positive divisor and reverses it for a negative one, wherever both sides succeed |
| `MoneyLaws.AddCommutes` | crates/te_core/src/money.rs:475-525 | addition commutes, refusals included |
| `MoneyLaws.MulCommutes` | crates/te_core/src/money.rs:527-535 | multiplication commutes, refusals included |
| `MoneyLaws.SubAntisymmetric` | crates/te_core/src/money.rs:479-525 | `b - a` is the exact negation of `a - b`, refusals included |
| `MoneyLaws.ZeroOnlyForZero` | crates/te_core/src/money.rs:464-573 | a sum, difference, product or quotient is zero exactly when the exact one is |
| `MoneyLaws.ResultsAreFixed` | crates/te_core/src/money.rs:475-573 | every sum, difference, product and quotient is unchanged by adding zero |
| `MoneyLaws.DivIsFixed` | crates/te_core/src/money.rs:539-573 | every quotient is unchanged by adding zero |
| `MoneyLaws.NegExactIff` | crates/te_core/src/money.rs:464-467 | negation is exact if and only if the value has at most 28 significant digits |
| `MoneyLaws.NegRefusedIff` | crates/te_core/src/money.rs:464-467 | negation is refused if and only if the value is the largest magnitude there is |
| `MoneyLaws.AbsExactIff` | crates/te_core/src/money.rs:469-473 | the absolute value is exact if and only if the value has at most 28 significant digits |
| `MoneyLaws.AbsRefusedIff` | crates/te_core/src/money.rs:469-473 | the absolute value is refused if and only if the value is the largest magnitude there is |
| `MoneyLaws.LargestRefused` | crates/te_core/src/money.rs:464-473 | a value that can be held and whose negation and absolute value are refused |
| `MoneyQuantize.BuildBigAgrees` | crates/te_core/src/money.rs:237-251 | the big-integer build equals the `u128` one |
| `MoneyQuantize.QuantizeCorrect` | crates/te_core/src/money.rs:652-675 | for every exponent: the multiple of the target power nearest by half-even, or greatest below in floor mode, for both signs, refused outside the exponent range, past 28 digits or past the bound |
| `MoneyQuantize.ToIntegralCorrect` | crates/te_core/src/money.rs:616-623 | rounding to an integer never refuses and is the nearest, or in floor mode the greatest integer below |
| `MoneyText.ReadSound` | crates/te_core/src/money.rs:371-459 | what the reader accepts is the spelling of the literal it reads |
| `MoneyText.ReadComplete` | crates/te_core/src/money.rs:371-459 | every spelling of every well-formed literal reads back as that literal |
| `MoneyText.LiteralOutcome` | crates/te_core/src/money.rs:371-459 | a literal is held exactly or refused, never rounded; an exponent past the limit is a syntax error |
| `MoneyText.AcceptedIff` | crates/te_core/src/money.rs:371-459 | a text is accepted if and only if, cleaned, it spells a literal in exponent range whose exact value fits |
| `MoneyText.ParseCanon` | crates/te_core/src/money.rs:326-348 | parsing the canonical spelling of a value gives the value back |
| `MoneyText.CanonInjective` | crates/te_core/src/money.rs:326-348 | two values with one canonical spelling are equal |
| `MoneyText.TryParseLoop` | crates/te_core/src/money.rs:371-459 | the index-walking parser computes the same outcome |
| `Journal.StartIff` | crates/te_host/src/jobs.rs:286-303 | a start succeeds exactly for this instance's queued record, moves it to running, and touches no other row |
| `Journal.FinishIff` | crates/te_host/src/jobs.rs:305-339 | a finish succeeds exactly for this instance's running record with a whole completion, records it, and touches no other row |
| `Journal.AdmitMoves` | crates/te_host/src/jobs.rs:201-266 | admission only adds a queued record, and any refusal leaves the store unchanged |
| `Journal.AdmitIff` | crates/te_host/src/jobs.rs:201-266 | an admission goes through exactly when the request is sound and is stored with this payload or fits under the limit |
| `Journal.AdmitRespectsLimit` | crates/te_host/src/jobs.rs:230-266 | an admission keeps the record count within the limit |
| `Journal.ResubmissionReports` | crates/te_host/src/jobs.rs:230-239 | at any later state of the store an admitted request submitted again reports its record as it then stands and admits nothing; another payload under its id conflicts |
| `Journal.RecoverMoves` | crates/te_host/src/jobs.rs:341-365 | recovery makes only legal moves; one undecodable row refuses it and leaves the store unchanged |
| `Journal.RecoverLeavesNone` | crates/te_host/src/jobs.rs:341-365 | after a recovery every record is terminal |
| `Journal.EvolvesTransitive` | crates/te_host/src/jobs.rs:286-365 | the relation "nothing removed, identity kept, terminal rows frozen" composes over any number of transactions |
| `Journal.LateFinishRefused` | crates/te_host/src/jobs.rs:305-365 | a finish or start that comes after a recovery, at any later state of the store, is refused |
| `Journal.Sweep` | crates/te_host/src/jobs.rs:341-365 | the recovery loop stops at the first undecodable row and otherwise resolves every unfinished one |
| `Journal.JobJournal.AdmitJob` | crates/te_host/src/jobs.rs:201-266 | the caller is told the stored record of its own payload, and whether it is new; a refusal changes nothing and a success no other row |
| `Journal.JobJournal.StartJob` | crates/te_host/src/jobs.rs:286-303 | the caller is told its instance's queued record is now running; a refusal changes nothing and a success no other row |
| `Journal.JobJournal.FinishJob` | crates/te_host/src/jobs.rs:305-339 | the caller is told its instance's running record now has this completion, with identity and payload kept; a refusal changes nothing and a success no other row |
| `Journal.JobJournal.RecoverJobs` | crates/te_host/src/jobs.rs:341-365 | recovering over the connection resolves every unfinished row or, on any refusal, changes none |
| `ActorOnce.AtMostOnce` | crates/te_host/src/actor.rs:67-139 | in every run of any owners, with crashes, restarts and late workers, the host is called at most once per request, with the queued record the store holds |
| `ActorOutcomes.NoFabrication` | crates/te_host/src/actor.rs:84-102 | a verdict the store did not start with is what the one host call for that request returned |
| `ActorOrder.ServedInOrder` | crates/te_host/src/actor.rs:173-204 | an owner's host calls follow its queue's order, and each of them has returned before the next one begins |
| `ActorQueue.QueuedByOwner` | crates/te_host/src/actor.rs:216-234 | queued ids are distinct across all owners, and each was inserted by its owner |
| `ActorStop.AtMostOneMore` | crates/te_host/src/actor.rs:173-204 | after the stop flag is up at most one more job begins, none unless the thread is between its look at the flag and its host call, and only submissions already past the check are tried |
| `ActorStop.ClosedMeansExited` | crates/te_host/src/actor.rs:270-290 | a closed store means the worker has exited, unless an earlier stop timed out |
| `ActorStop.SecondStopCloses` | crates/te_host/src/actor.rs:270-299 | after a timed-out stop the next one closes the store at once, wherever the worker is |
| `ActorStop.ClosedUnderThread` | crates/te_host/src/actor.rs:270-299 | a concrete run that closes the store under a worker that has not exited |
| `ActorDurable.RunEvolves` | crates/te_host/src/jobs.rs:176-365 | between any two moments of any run no record is removed, renamed, given another payload or reopened |
| `ActorDurable.RecoveredStaysTerminal` | crates/te_host/src/actor.rs:108-139 | what a recovery, the journal's or a one-shot run's, made terminal is never touched again in the run |
| `ActorLate.NoLateCalls` | crates/te_host/src/actor.rs:67-102 | a terminal record that no live worker has just started is never executed again in any run, whatever anyone does |
| `ActorLate.RecoveredRunsIff` | crates/te_host/src/actor.rs:79-139 | after a recovery a request can still be executed if and only if some live worker had started it and not yet called the host |
| `ActorLate.RunsAfterRecovery` | crates/te_host/src/actor.rs:79-84 | for any admissible request, a run from the beginning in which another owner makes it uncertain and the host is then called for it |
| `ActorDurable.RunWithinLimit` | crates/te_host/src/jobs.rs:230-266 | over any run of owners whose limits are at most a bound, a store that starts within it never exceeds it |
| `ActorDurable.RunStamps` | crates/te_host/src/jobs.rs:251-359 | with append-only events every terminal record was observed before it was committed, and committed no later than now |
| `ActorDurable.AckedIsDurable` | crates/te_host/src/actor.rs:216-234 | an acknowledged submission is in the store from then on |
| `EventStream.Delivery` | crates/te_host/src/http.rs:986-1031 | at every moment a client has been sent exactly the committed events in `(after, max_sent]`, in order; every broadcast event beyond is in its backlog or queue |
| `EventStream.DrainedIsComplete` | crates/te_host/src/http.rs:986-1031 | a client that has drained both sources has every committed event above its cursor |
| `EventStream.Reconnection` | crates/te_host/src/http.rs:986-1031 | reconnecting with the last id seen loses and repeats nothing |
| `EventStream.FlushDelivers` | crates/te_host/src/http.rs:1004-1031 | left to itself a connection delivers everything committed at its backlog read or broadcast since |
| `EventStream.StreamFrames` | crates/te_host/src/http.rs:1004-1031 | the two streaming loops compute exactly that delivery |
| `EventStream.Hub.SubscribeNew` | crates/te_host/src/http.rs:254-271 | a new connection starts at the end of the broadcast log, under a number never used, and nobody else's place moves |
| `EventStream.Hub.BroadcastFrame` | crates/te_host/src/http.rs:382-388 | the log grows by the frame and every live connection still holds an unbroken stretch of it up to its end; only the gone ones are forgotten |
| `EventStream.Hub.TakeFrame` | crates/te_host/src/http.rs:1020-1024 | a connection is given the next frame of the log that it has not had |
| `LineReader.Stream.ReadLine` | crates/te_host/src/http.rs:750-769 | the line read is the stream's own whatever the chunks, and the stream is left just after it |
| `LineReader.LineEnds` | crates/te_host/src/http.rs:750-769 | a line ends at its first newline, at 65537 bytes, or where the stream ends, and nowhere else |
| `LineReader.LinesJoin` | crates/te_host/src/http.rs:750-769 | reading line after line loses and repeats nothing |
| `RiskRules.ApprovedIff` | crates/te_core/src/risk.rs:1320-1322 | an order is approved if and only if it can be sized and no rule there is refuses it |
| `RiskRules.EveryRuleRecorded` | crates/te_core/src/risk.rs:1094-1322 | every evaluation records all 21 rules, each with its own answer |
| `RiskRules.ApprovedRisk` | crates/te_core/src/risk.rs:1010-1091 | an approved order risks at most equity times the side's fraction times the regime scale, half of it under the brake, whatever its sizing rule |
| `RiskRules.ApprovedStaysWithin` | crates/te_core/src/risk.rs:1094-1300 | with an approved order filled, the account is within its caps on exposure, heat, positions, positions per industry, venue position and orders per day, and the order within its caps on equity and volume |
| `RiskRules.SizedIsLargest` | crates/te_core/src/risk.rs:1051-1070 | when the division floors, the sized quantity is the largest whole number the sizing rule and the clamp can pay for; a fixed one is taken as it is |
| `RiskLatch.LatchIff` | crates/te_core/src/risk.rs:861-889 | over any history, whatever the ledger refused, a control is on if and only if some call raised it, or it was on at the start, and no call since lowered it |
| `RiskLatch.ReachingLeavesOnIff` | src/trade_engine/risk.py:346-361 | a call whose reading reaches a threshold leaves that control on if and only if it was on or the ledger took its event |
| `RiskLatch.OnUntilRecovery` | src/trade_engine/risk.py:326-415 | a control that is on stays on until a reading recovers, whatever the ledger refuses meanwhile |
| `RiskLatch.NothingWhileSuspended` | src/trade_engine/risk.py:326-415 | a reading at or above the suspension threshold refuses its own call and, if that call left the suspension on, every later one until a recovery |
| `RiskLatch.HalfRiskWhileBraked` | src/trade_engine/risk.py:326-415 | after a reading at or above half risk whose call left the brake on, every approval risks at most half until a recovery; its own call's does in any case |
| `RiskLatch.LostSuspension` | src/trade_engine/risk.py:346-361 | a history in which the ledger takes the brake's event and refuses the suspension's, and the next call is approved |
| `RiskLatch.NoReadingRefuses` | src/trade_engine/risk.py:326-415 | a call without a reading is refused and leaves the latch alone |
| `RiskLatch.OrderedKeptIff` | src/trade_engine/risk.py:346-361 | a call keeps "suspended implies braked" if and only if it is not a recovery cut off between its two control events |
| `RiskLatch.SuspendedIsBraked` | src/trade_engine/risk.py:326-415 | over any history in which no recovery was cut off, a suspended account is always braked |
| `RiskLatch.InterruptedRecovery` | src/trade_engine/risk.py:346-361 | such a recovery leaves the account suspended without a brake |
| `RiskLatch.RiskEngine.EvaluateOrder` | src/trade_engine/risk.py:326-415 | the engine's evaluation updates exactly the account's controls and returns the specified verdict |
| `StrikeDigits.RoundDigitsCorrect` | crates/te_core/src/options.rs:137-175 | rounding a digit string is rounding its number half-even, for every string and drop count |
| `StrikeDigits.Carry` | crates/te_core/src/options.rs:156-171 | the carry loop adds one to the kept digits |
| `StrikeDigits.RoundHalfEven` | crates/te_core/src/options.rs:137-175 | the imperative rounding computes the specified digits |
| `Strikes.ProductRounds` | crates/te_core/src/options.rs:181-207 | the product with 1000 is the exact one rounded half-even at its place in a 28-digit context |
| `Strikes.ValidateIff` | crates/te_core/src/options.rs:247-260 | a strike is accepted if and only if it is a number, not negative, and a thousand times its value, rounded half-even at its place in the 28-digit context, is a whole number from 1 to 99999999 |
| `Strikes.StrikeAcceptedIff` | crates/te_core/src/options.rs:233-260 | a strike is accepted if and only if it is a positive multiple of 0.001 up to 99999.999, whose thousandths are carried, or has more than 28 digits and rounds to one; so the check is exact just for strikes that do not |
| `Strikes.ThousandthsAccepted` | crates/te_core/src/options.rs:233-260 | every multiple of 0.001 in range is accepted with its own thousandths, however many digits spell it |
| `Strikes.LongStrikeSlips` | crates/te_core/src/options.rs:177-207 | a 29-digit strike that is no multiple of 0.001 and is accepted |
| `OccSymbol.MatchIsLongest` | crates/te_core/src/options.rs:418-434 | the backtracking search finds the reading with the longest root, and one whenever there is one |
| `OccSymbol.MatchOccLoop` | crates/te_core/src/options.rs:418-434 | the nested loops compute that search |
| `OccSymbol.StrptimeIs` | crates/te_core/src/options.rs:456-499 | for all its alternatives the date pattern reads three two-digit fields and accepts exactly the real dates |
| `OccSymbol.ParseSymbol` | crates/te_core/src/options.rs:503-534 | parsing a printed symbol gives back root, date, right and strike text |
| `OccSymbol.OccRoundTrip` | crates/te_core/src/options.rs:387-400 | for every accepted strike the parser undoes the printer: same root, date and right, and the printed thousandths, which are the strike itself whenever it is a multiple of 0.001 |
| `OccSymbol.OccInjective` | crates/te_core/src/options.rs:387-400 | two contracts whose strikes are multiples of 0.001 share a symbol only when they are the same contract |
| `OccSymbol.StrikeTextReads` | crates/te_core/src/options.rs:526-532 | reading the printed strike gives its thousandths back |
| `OccSymbol.ParseNormalizes` | crates/te_core/src/options.rs:503-534 | whatever parses has printable pieces whose symbol parses to them again |
| `Snapshot.OwnEventsIff` | crates/te_core/src/snapshot.rs:372-398 | a session is measured on exactly the account's events up to its close if and only if none lies between its close and a later stamp of an earlier session |
| `Snapshot.SessionSeesPastClose` | crates/te_core/src/snapshot.rs:372-398 | events of an account whose second session folds one stamped past its close |
| `Snapshot.RisingStampsOwn` | crates/te_core/src/snapshot.rs:372-398 | when close stamps rise with the dates, every session is measured on exactly the account's events up to its close |
| `Snapshot.SnapshotIs` | crates/te_core/src/snapshot.rs:372-456 | every snapshot is one session's measure, under that session's date |
| `Snapshot.SessionHasSnapshot` | crates/te_core/src/snapshot.rs:372-456 | every session that measures to an account has its snapshot |
| `Snapshot.RefusedIff` | crates/te_core/src/snapshot.rs:372-456 | the list is refused if and only if some session's events cannot be folded or measured |
| `Snapshot.SnapshotsOfOwnEvents` | crates/te_core/src/snapshot.rs:340-456 | with rising close stamps each snapshot in the list measures exactly the account's events stamped at or before its own session's close |
| `Snapshot.OrderedIsPermutation` | crates/te_core/src/snapshot.rs:364-370 | ordering the account's events neither loses nor invents one |
| `Snapshot.OrderedByKey` | crates/te_core/src/snapshot.rs:364-370 | the events are in order of instant, and at one instant of sequence number |
| `Snapshot.OrderedIsStable` | crates/te_core/src/snapshot.rs:364-370 | events of equal instant and sequence number keep the order they came in |
| `Snapshot.MarginPeakIsPrefixMax` | crates/te_core/src/snapshot.rs:409-411 | each margin peak is the greatest margin used so far |
| `Snapshot.DrawdownIsLargestDrop` | crates/te_core/src/snapshot.rs:412-427 | each drawdown is the largest drop from a positive equity so far, or zero |
| `Snapshot.MaxDrawdownIs` | crates/te_core/src/snapshot.rs:479-492 | the maximum drawdown of an account's daily list is the largest drop from a snapshot of positive equity to a later one, or zero; an empty list is refused |
| `Snapshot.PeakMarginIsLast` | crates/te_core/src/snapshot.rs:461-474 | the peak margin of an account's daily list is the last snapshot's margin peak; an empty list is refused |
| `Snapshot.DurationIs` | crates/te_core/src/snapshot.rs:429-436 | duration counts sessions from the first underwater one after the last strict peak |
| `Snapshot.DailySnapshots` | crates/te_core/src/snapshot.rs:340-456 | the single forward scan computes the specified list, or refuses where the fold or the margin does |
| `Follower.FollowLoop` | crates/te_core/src/mirror.rs:140-252 | every run's calls form a session that is never fatal or ends at its first fatal call, then at most one collect; when each sleep moves the clock on by a positive interval the run ends, after no more sleeps than reach the last cut-off |
| `Follower.TurnPaced` | crates/te_core/src/mirror.rs:146-241 | a turn of the loop that reads the clock before the last cut-off and sleeps leaves strictly less time before it |
| `Follower.CyclesInWindow` | crates/te_core/src/mirror.rs:146-163 | a cycle happens only right after a readable probe, with that turn's clock inside the send window |
| `Follower.NothingAfterStop` | crates/te_core/src/mirror.rs:153-205 | only the final collect follows a refusal, a halt or a give-up, and the run is a failure |
| `Follower.StreakNeverExceeds` | crates/te_core/src/mirror.rs:153-205 | the unreadable streak never exceeds the budget by more than one |
| `Follower.CollectsOnceLast` | crates/te_core/src/mirror.rs:228-252 | a once-run never collects; any other collects exactly once, last |
| `Follower.VerdictIs` | crates/te_core/src/mirror.rs:239-252 | the verdict is good if and only if no call was fatal and the collect went well |
| `Migration.RespellSame` | tools/p7_migrate.py:103-114 | respelling keeps every decimal's value, spells it canonically and changes nothing else |
| `Migration.RespellIdempotent` | tools/p7_migrate.py:103-114 | respelling twice is respelling once |
| `Migration.ReverseUndoes` | tools/p7_migrate.py:266-300 | a completed migration reversed restores every row exactly, and the digests agree |
| `Migration.RefusalLeavesNothing` | tools/p7_migrate.py:175-250 | there is a destination if and only if every row transforms; one whose folds disagree stays incomplete |
| `Migration.MigrateTable` | tools/p7_migrate.py:176-203 | the row loop builds the specified new rows and saved texts |
| `Migration.RestoreTable` | tools/p7_migrate.py:286-292 | the restoring loop puts each saved text back in its row |

## Left out

- SQLite, files, locks, threads, sockets and clocks: a transaction is one atomic step that the environment may refuse, and answers of the outside are parameters or arbitrary choices.
- Wake-up liveness of `Actor::stop`: a missed notification can leave a stop waiting until its timeout; only safety is stated.
- Message texts and JSON boundaries: refusals are named by kind, a payload is its text with its parsed fields, and a job's stored failure is named by who wrote it.
- Unicode digits and letters in the parsers: texts are read with ASCII digits and letters.
- The journal's configuration check, the actor's `running` slot, status and error list, and the kill switch's own commands: they would only add easy members.
- Money comparisons, conversions and formatting other than the canonical spelling: they would only add easy members.
- Frames without a sequence number, keep-alive pings, the cursor's own parsing and the rest of the HTTP grammar.
- RiskRules.Evaluate: amounts are exact reals, so the decimal library's rounding and its overflow refusals in products and sums are not modelled; the text of a sizing rule arrives already parsed; rails and context validation is not modelled.
- RiskLatch.Step: the command ids that make repeated control events idempotent in the ledger are not modelled, nor are control events written by anyone but the engine.
- RiskRules.Sized: the sizing's reassigned local quantity is one expression.
- Snapshot.DailySpec: folding events and computing margin are one arbitrary function, so heat, exposures and margin availability are not modelled.
- Follower.FollowLoop: the clock counts whole ticks; one that sleeps do not move on is followed for as many readings before the cut-offs as one likes, but finitely many; and the log lines and the waiting list that only shapes them are not modelled.
- Migration.Migrate: reading and writing payload texts, rehashing fingerprints and digests are arbitrary functions, and the key-map table the forward pass also writes is not modelled.
- Option contract validation other than the strike, expiry calendars, settlement and the option-roots table.
- Ledger fold and codec, order flow, simulated venues, margin matching, greeks, calendars and market-data checks.
