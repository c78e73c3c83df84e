# Order safety, streams and throttling of the tinvest CLI

A Dafny model of the parts of the tinvest command-line client that must not go wrong, with proofs
of what they promise:

- **The write-ahead journal.** A placement journals intent-created and send-started before it
  sends, and a closing stage when the outcome is definite. The recovery scan reports what is not
  closed; `orders reconcile` and `stop-orders reconcile` ask the broker and close it. Modelled as
  records in monthly files (`Journal`, `Ledgers`, `Lifecycles`), as bytes with crashes at any byte
  (`JournalFiles`), as the placement and reconcile procedures themselves (`Placement`,
  `Reconciling`, `StopReconciling`) and as any number of processes interleaved step by step with a
  crash possible between any two steps (`Protocol`); `Verdicts` says what reconcile's closes are worth
  among them. What the wire observed and how a failure is classified is `Transport` and `Errors`; the
  open-order cap taken under the account lock is `OpenOrders`; the shell command printed as a hint is
  `Shell`.
- **The stream runner.** Reconnecting, replaying subscriptions under a rolling cap, buffering
  while snapshots are taken, lifecycle events: `Streams` is the runner, `StreamTraces` a monitor of
  what a consumer may observe and what follows from it, `OrderBooks` the frame filter,
  `ReplayLimiting` the cap, `Registries` the subscription registry, `Environments` the clock and
  the caller's context.
- **The rate limiter.** `TokenBuckets` is one bucket, `Routing` the limiter, and `Quotas` says what limits a call.
- **Exact money.** `Numerals`, `Decimal` and `Balance`.

Code that updates objects step by step is a class with methods proved against functions of its old
and new state; the long-range statements are lemmas about those functions and about runs.

## How to read the main results

*Every interleaving.* `Protocol.NothingSentIsForgotten` quantifies over every finite run of the step
relation, `Verdicts.NotPlacedIsSoundIff` over every run in which reconcile may also close an id at any
time. Processes may stop anywhere, the broker may accept a transmitted request at any later time, and
a write may fail before or after the line is durable. A reconcile run scans once, asks the broker and
writes at different moments of such a run, with any other process appending in between;
`StopReconciling.HistoryTiesOnce` speaks about every history of stop reconcile runs in that sense.

*Every run of the runner.* The runner's selects, the sessions it opens, the broker's errors and the
clock are nondeterministic, and fuel only limits how many choices are observed, so
`Streams.Runner.Run` speaks about every finite prefix of every run. Its trace holds what it hears
beside what it does and is always accepted by the monitor; the lemmas of `StreamTraces` say what
acceptance means.

*Where a promise fails, and exactly when it holds.* A reconcile run does not read the journal again
after its scan. An entry that was not sent at the scan is closed as not placed without asking the
broker, although its placement may have sent meanwhile: `Verdicts.OvertakenRun` is a run in which the
broker then holds an order that nothing reports. What such a close promises holds exactly when nothing
of the id was under way at the scan, and for an entry that was sent, when the day list was read
(`Verdicts.NotPlacedIsSoundIff`). Two lifecycles under one intent id can hide a send as well
(`Verdicts.SharedIdRun`), so that theorem assumes one lifecycle of the id. A stop reconcile run may
tie a stop order that its own placement confirms meanwhile, or that an overlapping run ties, exactly
when that record lands during the run (`StopReconciling.RunNotAfterIff`,
`StopReconciling.TiesAgainIff`). Requests decided after their senders let go of the lock can exceed
the cap, by as many as were let go and by no more (`OpenOrders.LateBoundIff`). A static limit named
like a tariff group can lose its bucket (`Routing.AlwaysLimitedIff`). A sum of money is exact exactly
when its carried units fit (`Balance.AddMoney`). Nothing is claimed about the broker from a
broker-rejected record: an earlier attempt of the same call may have been accepted.

*Where the code and its comments differ.* The sequence scan reads the seq field of a line whose
checksum fails, although its comment says corrupt lines are ignored
(`internal/ledger/ledger.go:894-926`); the model follows the code. A line written short without a
reopen swallows the next append (`JournalFiles.AppendAfterShortWrite`). Printing and parsing are
inverse except at the least int64, whose text the parser refuses (`Decimal.PrintThenParse`).

## Model

| member | source | states |
|---|---|---|
| `Journal.AggReported` | internal/ledger/ledger.go:672-745 | The running per-id aggregate reports an id exactly when its last stage is unresolved or it was opened more often than closed, and represents it by its last unresolved-stage record, or else its last record. |
| `Journal.AggMeaning` | internal/ledger/ledger.go:695-726 | The aggregate's counters, last record and last unresolved-stage record are those of the whole log. |
| `Journal.ReportedExactly` | internal/ledger/ledger.go:672-745 | An id is reported exactly when its last record is intent-created or send-started, or there are more of its intent-created records than of its broker-confirmed, broker-rejected and reconciled ones. |
| `Journal.RepresentedExactly` | internal/ledger/ledger.go:705-738 | It is represented by its last intent-created or send-started record, or by its very last record when there is none. |
| `Ledgers.Ledger.OpenMonth` | internal/ledger/ledger.go:282-321 | Opening a month creates its file if absent, leaves every line alone, and raises the counter to the largest seq that any line of the file carries, corrupt lines with a readable seq included, but never lowers it. |
| `Ledgers.Ledger.Append` | internal/ledger/ledger.go:491-526 | An append writes exactly one line, under a seq above every seq of the file, or no line when it is refused or the write fails; a refusal gives the seq back, a failed write keeps it, and an unsynced append has still written. |
| `Ledgers.Ledger.Others` | internal/ledger/ledger.go:491-526 | What other processes append to the same file is part of the log this handle reads. |
| `Ledgers.Ledger.Unresolved` | internal/ledger/ledger.go:672-745 | The scan returns exactly one representative for every reported id of the whole log over all months, in seq order, and says whether any line was corrupt. |
| `Ledgers.Ledger.AssignedStopOrderIDs` | internal/ledger/ledger.go:752-784 | A clean journal yields, per account, exactly the non-empty stop-order ids of broker-confirmed and reconciled records of the kind; a corrupt one yields nothing. |
| `Ledgers.Entry.FromRecord` | internal/ledger/ledger.go:786-807 | The entry rebuilt from a record carries its intent, its ids and its stage. |
| `Ledgers.Entry.Write` | internal/ledger/ledger.go:577-641 | A stage write appends one record about that very request, with the stage, error and exit code given and every id that is given or else already known; the stage advances only if the write succeeded. |
| `Ledgers.Begin` | internal/ledger/ledger.go:549-571 | An empty intent id is refused before any write; otherwise intent-created is durable before a usable entry exists. |
| `Lifecycles.ReportedIffUnclosed` | internal/ledger/ledger.go:672-745 | Over any interleaving of lifecycles that share ids and close at most once each, the scan reports an id exactly when some lifecycle of it is unclosed. |
| `Lifecycles.OpenCount` | internal/ledger/ledger.go:695-726 | Opens minus closes of an id is the number of its unclosed lifecycles. |
| `Lifecycles.ClosesAreBounded` | internal/ledger/ledger.go:593-599 | Until a new placement opens the id, every closing record lowers the number of unclosed lifecycles by one, so repeated reconciliation ends. |
| `Lifecycles.SharedIdHidesSend` | internal/ledger/ledger.go:709-738 | Two lifecycles under one id: the representative can be the second one's intent-created record although the first was sent. |
| `Lifecycles.SharedIdLosesSend` | internal/ledger/ledger.go:672-745 | Closing that representative twice leaves the sent lifecycle unreported; `Verdicts.SharedIdRun` is the run in which it happens. |
| `Transport.CallInfo.HandleRPC` | internal/transport/phase.go:106-184 | One wire event moves the flags, the tracking id, the message and the reset so that they still summarise the whole event history. |
| `Transport.CallInfo.CurrentPhase` | internal/transport/phase.go:63-74 | The phase is a function of the whole history: confirmed by the last attempt, else unconfirmed if any payload ever went out, else not sent. |
| `Transport.FinalAttemptDecides` | internal/transport/phase.go:63-184 | For any earlier attempts and a last one: confirmed exactly when the last one was answered, unconfirmed exactly when it was not and any attempt sent a payload. |
| `Transport.PhaseExactly` | internal/transport/phase.go:63-184 | Confirmed exactly when a trailer or an error-free end came after the last begin; otherwise not sent exactly when no payload ever went out. |
| `Transport.KeptExactly` | internal/transport/phase.go:77-142 | The tracking id is the last one captured since the last begin, the message the last one captured at all, the reset interval the last non-negative one. |
| `Errors.UnconfirmedExactly` | internal/render/errors.go:152-218 | A failure is unknown-state, and exits with 7, exactly for a mutation whose phase is sent-unconfirmed or whose broker code is duplicate-without-report; it is never retryable. |
| `Errors.ClassifiedExactly` | internal/render/errors.go:69-218 | The class and exit code of every failed call: refused credentials, rate limit, broker rejection, network and the rest, each by its gRPC codes and the two singled-out broker codes. |
| `Errors.ReportedAlongside` | internal/render/errors.go:152-261 | Which message, gRPC code, broker code, retry interval, phase and tracking id go with it. |
| `Errors.RejectionNeedsAnswerOrSilence` | internal/render/errors.go:152-218 | A mutation failure that may be journaled as rejected was answered in its final attempt or never sent. |
| `Placement.Broker.Place` | cmd/tinvest/orders.go:357-364 | A send needs a durable send-started record; over any number of attempts the broker holds at most this one more key. |
| `Placement.PlaceExec` | cmd/tinvest/orders.go:348-400 | The records a placement writes, stage by stage, each in its own month, for every failure and reply, and what the last one carries: the broker's order id, or the key where the reply has none, with the tracking id of the call's last attempt; or the broker's or the call's message. The outcome shown relays the same; unknown outcomes write no closing record, and a placement that stops short stays reported. |
| `Placement.Prepare` | cmd/tinvest/orders.go:348-355 | The send is reached only with both records durable; whatever failed, what was written is known. |
| `Placement.Settle` | cmd/tinvest/orders.go:366-399 | A closing record is written exactly when the outcome is definite: confirmed for an accepting answer with the ids of that answer, rejected for a refusal or a definite failure with its message. |
| `Placement.UnansweredExactly` | cmd/tinvest/orders.go:366-380 | The outcome is unknown exactly for a failure after a payload went out and no answer came to the last attempt, or one by which the broker knows the key and cannot show its order. |
| `Placement.PlaceStopExec` | cmd/tinvest/stoporders.go:362-394 | The same for a stop order; its broker id and the tracking id of the call enter the journal with the confirmed record and only there. |
| `Placement.TailReported` | internal/ledger/ledger.go:728-739 | A log that ends in an unresolved stage of an id reports the id. |
| `Placement.ClosedIsNotReported` | internal/ledger/ledger.go:728-739 | A new id whose placement was closed is not reported. |
| `Protocol.StepKeeps` | cmd/tinvest/orders.go:348-400 | Every step of every process, the broker, reconcile and the calendar keeps the journal's invariant. |
| `Protocol.NothingSentIsForgotten` | cmd/tinvest/orders.go:348-400 | In every run with crashes anywhere and reconcile closing finished lifecycles, each key the broker holds has a durable send-started record, and each lifecycle that was sent is closed or its id is reported. |
| `Protocol.NothingSentIsForgottenAnyTime` | cmd/tinvest/orders.go:348-400 | The same in every run in which reconcile may also close an id while a placement of it is under way, or close it again; a sent lifecycle whose id is its own has a close written after its send-started record, or its id is reported. |
| `Protocol.PlacementIsARun` | cmd/tinvest/orders.go:348-400 | Whatever records the placement procedure leaves, with or without a transmission, are written by a path of the protocol's steps. |
| `Reconciling.FindOrderByRequestID` | cmd/tinvest/orders.go:1553-1560 | The first listed order with the request id, or none exactly when the list does not mention it. |
| `Reconciling.ReconcileEntry` | cmd/tinvest/orders.go:1381-1457 | What one entry is shown as and which record it adds, for every stage, target and reply: a traceable entry for which the broker returned an order shows and journals that order's id and the tracking id of the answer. |
| `Reconciling.ResolveSyncNotFound` | cmd/tinvest/orders.go:1497-1517 | A synchronous intent the broker does not know is placed, not placed or left open by the day's list and the creation date. |
| `Reconciling.ReconcileAsyncNotFound` | cmd/tinvest/orders.go:1528-1548 | An asynchronous intent is closed only by a listed order. |
| `Reconciling.RecordReconciled` | cmd/tinvest/orders.go:1598-1608 | One reconciled record, or a warning when it could not be written. |
| `Reconciling.ReconcileFlow` | cmd/tinvest/orders.go:1369-1459 | While other processes append between its one scan and each of its writes, one run visits exactly the entries reported at the scan once each, shows as placed, and ties, exactly the traceable ones for which the broker returned an order, adds what each decision allows, and stops before anything on a corrupt journal. |
| `Reconciling.RunAddsOnly` | cmd/tinvest/orders.go:1399-1457 | The journal a run leaves is what it scanned, what others appended, and per entry at most one record of its own, written exactly when the entry is decided and the write is not lost; it closes a regular-order entry of this profile and endpoint, and does not say not-placed where the scanned entry shows an asynchronous send. |
| `Reconciling.ReportedAfterIff` | internal/ledger/ledger.go:672-745 | After a run, an id whose close it wrote is reported exactly when another process left it unresolved after that close, or more of its lifecycles were opened than closed in all; an id whose close it did not write is reported exactly when it is without the run. |
| `Reconciling.TodayIsResolved` | cmd/tinvest/orders.go:1497-1517 | A synchronous intent created on the day of the check, whose lookups answered and whose write was not lost, stays on the list exactly in the first of those two cases. |
| `Reconciling.ClosedExactlyWhenResolved` | cmd/tinvest/orders.go:1399-1457 | An entry is closed exactly when it is found placed or not placed. |
| `Reconciling.PlacedHasEvidence` | cmd/tinvest/orders.go:1419-1456 | A placed verdict names an order the broker returned for the key. |
| `Reconciling.PlacedExactly` | cmd/tinvest/orders.go:1405-1548 | A sent entry of this profile and endpoint with account, key and readable payload is placed exactly when the broker returned an order for it: by the first lookup, by the second for a synchronous one the first does not know, or in the day list; shown and journaled are that order's id and lifecycle and the tracking id of the talk. |
| `Reconciling.NotPlacedExactly` | cmd/tinvest/orders.go:1399-1517 | It is closed as not placed exactly when it was not sent as far as the journal shows, or is synchronous, of the UTC day of the check, and unknown to the lookups and to the day list. |
| `Reconciling.LeftOpenExactly` | cmd/tinvest/orders.go:1381-1548 | Everything else stays open, and exactly when it is shown as foreign, of another profile, failed to look up, or unresolved. |
| `Verdicts.RepresentativeOfOne` | internal/ledger/ledger.go:672-745 | The record that represents a reported id belongs to a lifecycle of it; if that is the only one, the record shows exactly whether it was sent, with its key and payload. |
| `Verdicts.NotHeldWhenDecided` | cmd/tinvest/orders.go:1369-1548 | In every run with reconcile at any time, an entry that is closed as not placed has no order at the broker in the state that decides it, if its id has one lifecycle there: the scan's state for an entry not sent at the scan, the one in which the day list was read for the others; midnight may pass before the date check. |
| `Verdicts.NotPlacedIsSoundIff` | cmd/tinvest/orders.go:1369-1548 | Whenever the close is written, no order of the id ever appears, until the id is placed again, exactly when in that deciding state none of its requests is on the wire and none of its placements is running. |
| `Verdicts.UnsettledMayLand` | cmd/tinvest/orders.go:348-400 | Otherwise the close can be written and the broker still come to hold the order. |
| `Verdicts.OvertakenRun` | cmd/tinvest/orders.go:1399-1404 | Nothing being under way at the close is not enough: an intent, asynchronous or not, scanned before its send and sent, accepted and finished with before its close is closed as not placed whatever the broker would answer, while the broker holds its order and nothing reports it any more. |
| `Verdicts.SharedIdRun` | internal/ledger/ledger.go:672-745 | A run of two lifecycles under one id: the broker holds the order, reconcile says not-placed whatever it is answered, twice, and nothing of the id is reported any more. |
| `Verdicts.FlowIsAPath` | cmd/tinvest/orders.go:1369-1459 | Whatever steps placements take between its writes, a whole reconcile run is made of the protocol's steps, which write exactly the records the run writes. |
| `Verdicts.WriterExists` | cmd/tinvest/orders.go:1369-1459 | There always is a lifecycle of the entry's id for such a step to close. |
| `OpenOrders.StepKeeps` | cmd/tinvest/orders.go:240-306 | Locking, counting, checking, sending, deciding, releasing and late decisions keep the bound: with u undecided requests let go, a book holds and awaits at most u more than the cap, or what it started with. |
| `OpenOrders.CapHolds` | cmd/tinvest/orders.go:240-306 | In every run in which requests are decided before their sender releases the account lock, no order book exceeds the cap or what it started with. |
| `OpenOrders.LateBound` | internal/policy/policy.go:368-378 | In every run, undecided releases included, each book holds and awaits at most its start, or the cap plus one for each of its requests let go undecided. |
| `OpenOrders.LateBoundIff` | internal/policy/policy.go:368-378 | That bound is the least one for every cap, start and number of undecided releases; so the cap is kept in all runs exactly when none is undecided. |
| `StopReconciling.PriceMatchesByValue` | cmd/tinvest/stoporders.go:1183-1192 | A journaled price matches exactly when it denotes the broker's value, however it is spelled. |
| `StopReconciling.MatchStopOrders` | cmd/tinvest/stoporders.go:1078-1108 | The matches are exactly the listed orders that echo the payload field by field, in list order. |
| `StopReconciling.MatchesEchoes` | cmd/tinvest/stoporders.go:1078-1200 | An order is a match exactly when instrument, direction, type, lots, price values, expiration, exchange and take-profit types and trailing fields are those of the payload, and it was created from 5 seconds before to 120 seconds after the intent. |
| `StopReconciling.PlacedStopExactly` | cmd/tinvest/stoporders.go:1022-1058 | A sent entry of this target is placed with id x exactly when the list holds exactly one order that echoes the payload, created in time, its id is x and x is not taken. |
| `StopReconciling.OtherStopsExactly` | cmd/tinvest/stoporders.go:966-1058 | Exactly when any other entry is shown as foreign, of another profile, not placed, ambiguous or indeterminate. |
| `StopReconciling.ResolveByMatches` | cmd/tinvest/stoporders.go:1022-1058 | No match, one match or several decide the entry; an id is tied only inside the creation window and only if it is not taken. |
| `StopReconciling.ReconcileStopEntry` | cmd/tinvest/stoporders.go:966-1060 | One entry's view, record and effect on what the run remembers: an entry placed with an id shows and journals that id and remembers it as taken. |
| `StopReconciling.ReconcileStopFlow` | cmd/tinvest/stoporders.go:940-1062 | While other processes append between its scans and before each entry, one run decides each reported entry once with the ids already assigned and the lists already fetched, stops on a corrupt journal, and leaves a journal in which no stop order is tied twice if there was none before; every view and record is the one that the lists echo (`RunTells`). |
| `StopReconciling.RunTells` | cmd/tinvest/stoporders.go:940-1062 | Over a whole run: an entry is shown as placed with x exactly when the list first fetched for its account holds exactly one order that echoes it, created in time, with that id, and no successful record scanned and no earlier entry of the run has it; the record then written carries it. |
| `StopReconciling.EntryKeeps` | cmd/tinvest/stoporders.go:1022-1058 | Deciding an entry never writes a stop-order id the account has already tied. |
| `StopReconciling.RunIsSafe` | cmd/tinvest/stoporders.go:940-1062 | A run keeps that no stop-order id of an account is written by two reconciled records, whatever else is appended meanwhile. |
| `StopReconciling.HistoryTiesOnce` | cmd/tinvest/stoporders.go:940-1062 | So do all histories of runs and of other processes' appends, said there record by record. |
| `StopReconciling.RunNotAfterIff` | cmd/tinvest/stoporders.go:940-1062 | A run ties no stop order after its own confirmed record exactly when no such confirmation landed between its reading of the history and its write. |
| `StopReconciling.HistoryNotAfterIff` | cmd/tinvest/stoporders.go:940-1062 | The same over every history of runs and appends. |
| `StopReconciling.NotAfterMeans` | cmd/tinvest/stoporders.go:1022-1058 | Tied after its confirmation: two records of one account's stop placements, the earlier broker-confirmed and the later reconciled, with the same stop-order id. |
| `StopReconciling.QuietHistoriesAreSafe` | cmd/tinvest/stoporders.go:940-1062 | In particular no order is tied after its confirmation in any history in which no stop placement is confirmed during a run. |
| `StopReconciling.TiesAgainIff` | cmd/tinvest/stoporders.go:940-1062 | Whatever is appended meanwhile, overlapping reconcile runs included, a run ties a stop order that a successful record already names exactly when another process wrote such a record during the run. |
| `StopReconciling.ConfirmationMayLandDuringRun` | cmd/tinvest/stoporders.go:940-1062 | For every sent intent and every reply that ties it there is such an interleaving, so the condition cannot be dropped. |
| `StopReconciling.StopPlacementIsRival` | cmd/tinvest/stoporders.go:362-394 | Every record a stop placement leaves is one that other processes may append during a run. |
| `StopReconciling.EntryPermuted` | cmd/tinvest/stoporders.go:1078-1108 | One entry's decision does not depend on the order of the broker's list. |
| `StopReconciling.RunPermuted` | cmd/tinvest/stoporders.go:940-1062 | No outcome of a run changes when any of the broker's lists is permuted. |
| `JournalFiles.ReadRecords` | internal/ledger/ledger.go:852-892 | Reading a file yields the records of its intact lines in order and counts the corrupt ones; a last line may lack its newline. |
| `JournalFiles.File.Append` | internal/ledger/ledger.go:502-526 | An append that dies or stops short leaves a prefix of the line. |
| `JournalFiles.File.RepairTornTail` | internal/ledger/ledger.go:387-449 | Repair cuts exactly the bytes after the last newline when they can be bounded within the window; kept bytes plus quarantined bytes are the old file. |
| `JournalFiles.RepairIsIdempotent` | internal/ledger/ledger.go:387-449 | Repairing again changes nothing, and the file ends clean exactly when its tail could be bounded. |
| `JournalFiles.RepairedExactly` | internal/ledger/ledger.go:387-449 | A file whose last 65536 bytes hold a newline, or that is no longer than that, is cut back to its last newline; any other is left alone. |
| `JournalFiles.PassedOver` | internal/ledger/ledger.go:866-892 | A line is passed over exactly when it is blank; any other is one record or counts as corrupt. |
| `JournalFiles.EncodedReadsBack` | internal/ledger/ledger.go:852-892 | A file of whole lines reads back as exactly the records written. |
| `JournalFiles.HistoryReadsBack` | internal/ledger/ledger.go:387-449 | After any number of crashes at any byte, each followed by a reopen, what is read is exactly the appends that returned plus interrupted ones that were complete. |
| `JournalFiles.AppendAfterShortWrite` | internal/ledger/ledger.go:519-526 | Without a reopen, the append after a short write is lost, as exactly one corrupt line, unless nothing had been written; everything before it and everything appended later reads back. |
| `Shell.ScopedBrokerCommand` | cmd/tinvest/orders.go:1726-1738 | The hint is the quoted program, profile, account and arguments; empty scopes are left out. |
| `Shell.FeedsArg` | cmd/tinvest/orders.go:1740-1749 | A printed argument is exactly one shell word, whatever it holds. |
| `Shell.UnquotedExactly` | cmd/tinvest/orders.go:1740-1749 | An argument goes unquoted exactly when it is not empty and holds only letters, digits and the seven safe signs. |
| `Shell.CommandReadsBack` | cmd/tinvest/orders.go:1726-1749 | A POSIX shell's token recognition reads the printed line back as exactly the arguments. |
| `Shell.HintReadsBack` | cmd/tinvest/orders.go:1726-1749 | The same for the hint with its profile and account. |
| `TokenBuckets.Bucket.Refill` | internal/ratelimit/ratelimit.go:251-257 | A refill adds what flowed in since the last one, up to the capacity, and ignores a clock behind it. |
| `TokenBuckets.Bucket.Wait` | internal/ratelimit/ratelimit.go:202-218 | A call takes a token, possibly into debt, and is released as soon as the inflow has made up for it, or is rejected with the bucket only refilled when that is too late. |
| `TokenBuckets.Bucket.Cancel` | internal/ratelimit/ratelimit.go:224-230 | A cancelled waiter's token comes back, up to the capacity. |
| `TokenBuckets.ReservedExactly` | internal/ratelimit/ratelimit.go:188-218 | A call is released at the first instant at which the inflow completes a token for it, at once if there is one, and is rejected exactly when that instant lies beyond the longest wait or the deadline. |
| `TokenBuckets.ServedSpaced` | internal/ratelimit/ratelimit.go:202-231 | Any two granted releases are at least as far apart as the tokens between them take to refill, less one burst. |
| `TokenBuckets.ReleasesBounded` | internal/ratelimit/ratelimit.go:191-257 | Without cancellation, the releases scheduled in any interval number at most the capacity plus the rate times its length. |
| `TokenBuckets.ReleasesByTimeBounded` | internal/ratelimit/ratelimit.go:191-257 | With any mix of rejections, cancellations and refunds, the releases from the start to any time are bounded the same way. |
| `Routing.Itoa` | internal/ratelimit/ratelimit.go:324-336 | The digits of any non-negative 64-bit index. |
| `Numerals.DigitsInjective` | internal/ratelimit/ratelimit.go:324-336 | Different indices never share a tariff group name. |
| `Routing.LimitsFromTariff` | internal/ratelimit/ratelimit.go:64-84 | Priced groups become limits under their own index, with the burst capped; the others are skipped. |
| `Routing.Limiter.constructor` | internal/ratelimit/ratelimit.go:118-129 | A new limiter holds exactly its static limits. |
| `Routing.Limiter.Update` | internal/ratelimit/ratelimit.go:132-139 | Static limits are installed in order. |
| `Routing.Limiter.RefreshTariff` | internal/ratelimit/ratelimit.go:144-159 | The old overlay goes with its buckets and the new one is installed. |
| `Routing.Limiter.Install` | internal/ratelimit/ratelimit.go:161-186 | A limit without a name or a rate is refused; any other gets a fresh full bucket and its methods and services; `Quotas.StaticRates` says with which rate. |
| `Routing.Limiter.Wait` | internal/ratelimit/ratelimit.go:191-214 | A call uses the bucket its method routes to and no other, and passes when there is none. |
| `Routing.Limiter.Route` | internal/ratelimit/ratelimit.go:259-280 | Routing order: tariff method, tariff service, static method, static service, default. |
| `Routing.LastRefreshRoutes` | internal/ratelimit/ratelimit.go:144-159 | After any refreshes every method routes as on a fresh limiter with the same static limits and the last refresh alone. |
| `Routing.LastRefreshDecides` | internal/ratelimit/ratelimit.go:144-159 | The whole state, buckets' rates and capacities included, is that limiter's, unless a static limit bears a tariff group's name. |
| `Routing.AlwaysLimitedIff` | internal/ratelimit/ratelimit.go:144-273 | Every group routing can return has a bucket, whatever tariffs arrive, exactly when no method falls back to a static group named like a tariff group. |
| `Routing.BucketIsLost` | internal/ratelimit/ratelimit.go:144-159 | Two tariffs that remove such a group's bucket. |
| `Routing.TariffBuckets` | internal/ratelimit/ratelimit.go:64-84 | Every priced tariff group has its own bucket with its own rate and burst; `Quotas.TariffRates` says which. |
| `Routing.RefreshedRoute` | internal/ratelimit/ratelimit.go:259-287 | A call goes to the last tariff group listing its full path, else its bare name, else to its static group. |
| `Quotas.TariffRates` | internal/ratelimit/ratelimit.go:64-84 | After any refreshes every group of the last tariff that limits at all has a bucket whose rate is the tightest of its calls per minute and per second, and whose capacity is the least of ten and the applicable limit. |
| `Quotas.StaticRates` | internal/ratelimit/ratelimit.go:161-298 | A static group has a bucket exactly when some limit with a rate names it, with the tightest rate and the burst of the last such limit. |
| `Quotas.StaticRatesKept` | internal/ratelimit/ratelimit.go:144-159 | Refreshes leave those buckets alone unless a tariff group has the name. |
| `Quotas.PathParts` | internal/ratelimit/ratelimit.go:305-323 | The bare name and the service of a full method path. |
| `Quotas.BareName` | internal/ratelimit/ratelimit.go:305-323 | A name without a slash is its own bare name and names no service. |
| `Quotas.StaticRouteIs` | internal/ratelimit/ratelimit.go:259-280 | Without a tariff group a call goes to the last static limit that lists its full path, else its bare name, else its service, else to the default group. |
| `Quotas.TariffRouteIs` | internal/ratelimit/ratelimit.go:259-287 | A call goes to the last group of the last tariff that lists its full path, else its bare name, else where the static limits lead. |
| `Registries.Registry.Insert` | internal/stream/registry.go:34-44 | Nothing is added without a key and a request; a key that is there keeps its place. |
| `Registries.Registry.Add` | internal/stream/registry.go:24-26 | A subscription is put into the ordered list. |
| `Registries.Registry.AddControl` | internal/stream/registry.go:30-32 | A setup request is put into the same list, uncounted. |
| `Registries.Registry.Remove` | internal/stream/registry.go:47-63 | Exactly that key leaves the list; the rest keeps its order. |
| `Registries.Registry.ReplaySnapshot` | internal/stream/registry.go:74-93 | One request for every item, in order, with the number of subscriptions among them. |
| `Registries.Registry.SubscriptionCount` | internal/stream/registry.go:97-110 | Counting over the map, in any order, gives the snapshot's count. |
| `Registries.HistoryDescribed` | internal/stream/registry.go:34-63 | After any calls the registry holds, once each and in the order they were put in, the keys added since they were last removed, with their latest requests. |
| `ReplayLimiting.ReplayLimiter.WaitN` | internal/stream/replay_limiter.go:34-61 | All the grants or none; an impossible count is an error at once, any other error means cancellation; never more than two passes, and a second only after waiting exactly until so many more fit. |
| `ReplayLimiting.FitsAt` | internal/stream/replay_limiter.go:49-60 | The moment waited for is the first at which the window, as it moves on, has room for the count. |
| `ReplayLimiting.ReplayLimiter.Prune` | internal/stream/replay_limiter.go:42-48 | Only timestamps that have left the window are dropped. |
| `ReplayLimiting.WindowHolds` | internal/stream/replay_limiter.go:34-61 | No half-open window holds more grants than the limit. |
| `OrderBooks.BookFilter.Reconcile` | cmd/tinvest/stream.go:119-139 | The cutoffs change only when every snapshot was taken and written; otherwise the first failure, of the call or of the writing, is returned. |
| `OrderBooks.BookFilter.Keep` | cmd/tinvest/stream.go:151-176 | Which frames are kept, and that only an untimed live frame changes the cutoffs. |
| `OrderBooks.TimedExactly` | cmd/tinvest/stream.go:151-176 | With a timed cutoff and timed live frames, exactly the frames strictly newer than the cutoff are kept, in arrival order. |
| `OrderBooks.UntimedSnapshotPasses` | cmd/tinvest/stream.go:157-168 | Without a cutoff an instrument is not filtered. |
| `OrderBooks.UntimedFrameOpens` | cmd/tinvest/stream.go:165-174 | The first untimed live frame is dropped and everything of its instrument after it is kept. |
| `OrderBooks.CutoffMeaning` | cmd/tinvest/stream.go:119-139 | The cutoffs that a round of snapshots leaves are, per instrument, the time of its last snapshot, if that has one. |
| `Streams.Runner.Run` | internal/stream/runner.go:79-206 | Every run's trace of inputs and reactions is accepted, with the defaults of 30 seconds and 10000 frames; every replayed request had its own grant and no window of a minute exceeds the cap of 100, or what is configured; without a failed callback it returns nil exactly when its trace ends with the Final event, which needs a cancelled context or an error that says so, and, with usable sessions, an error exactly when its trace ends with a loss for one of the six incurable codes; it is still running only when the observation ends. |
| `Streams.Runner.Select` | internal/stream/runner.go:253-356 | What a select may pick, each pick recorded as an input: a cancelled context, snapshots that came back, a message, an error, or the expired watchdog. |
| `Streams.Runner.Receive` | internal/stream/runner.go:208-359 | However a connection ends, the monitor is left where the reconnect loop expects it. |
| `Streams.Runner.Flush` | internal/stream/runner.go:277-291 | The buffered frames are filtered and delivered in order before anything else, until the context is cancelled. |
| `Streams.Runner.Buffer` | internal/stream/runner.go:316-336 | A frame is buffered while there is room; one too many ends the connection with a reported gap. |
| `Streams.Runner.DeliverLive` | internal/stream/runner.go:368-373 | A live frame is filtered once the snapshots are complete, and only then. |
| `Streams.Runner.Replay` | internal/stream/runner.go:132-167 | The registered requests are sent in order, each under a grant, up to the first failure. |
| `StreamTraces.ConnectedNumbered` | internal/stream/runner.go:168-176 | Connected attempts are 1, 2, 3, ... |
| `StreamTraces.ConnectedReplays` | internal/stream/runner.go:103-171 | Every connection starts with the registry's whole replay list, in order, on a fresh session. |
| `StreamTraces.ResubscribedFollows` | internal/stream/runner.go:177-186 | Resubscribed follows Connected k immediately exactly when k > 1. |
| `StreamTraces.ResubscribedOnlyThere` | internal/stream/runner.go:177-186 | It comes nowhere else. |
| `StreamTraces.LaggingDisconnects` | internal/stream/runner.go:317-357 | Lagging is immediately followed by Disconnected with the same reason and attempt. |
| `StreamTraces.ConnectionsSeparated` | internal/stream/runner.go:192-205 | A non-final Disconnected separates any two Connected events. |
| `StreamTraces.MessagesInsideConnections` | internal/stream/runner.go:252-359 | No message is taken or delivered outside a connection. |
| `StreamTraces.FatalIsLast` | internal/stream/runner.go:433-441 | Nothing follows a Disconnected whose error code is Unauthenticated, PermissionDenied, InvalidArgument, FailedPrecondition, NotFound or Unimplemented; after any other that is not final the run goes on, with a wait. |
| `StreamTraces.FatalIff` | internal/stream/runner.go:433-441 | The run has failed for good exactly when its trace ends with such a loss, and no such loss comes before. |
| `StreamTraces.AttemptLost` | internal/stream/runner.go:105-165 | An attempt is lost right after the session was refused or a request could not be sent, with that error; the replay had requests left. |
| `StreamTraces.ConnectionLost` | internal/stream/runner.go:256-357 | A connection is lost under its own number, right after the error that came from its stream, the first snapshot that failed, or the gap reported for it, with that error and reason. |
| `StreamTraces.InputsAnswered` | internal/stream/runner.go:79-357 | Every refused session, unsent request, stream error, failed snapshot, expired watchdog and cancelled context gets its reaction at once. |
| `StreamTraces.FailuresCounted` | internal/stream/runner.go:105-357 | A failed attempt is numbered by the losses in a row, and every wait is for the losses so far; a connection that was listened to for a whole watchdog interval before its stream failed clears those before it. |
| `StreamTraces.FinalIsLast` | internal/stream/runner.go:382-387 | The Final event ends the trace. |
| `StreamTraces.FinalCarries` | internal/stream/runner.go:382-387 | It counts the connections there were and names a shutdown without an error. |
| `StreamTraces.FinalNeedsCancel` | internal/stream/runner.go:98-286 | The Final event comes only right after the context was cancelled or an error said that it was. |
| `StreamTraces.EndedIffFinal` | internal/stream/runner.go:382-387 | The run is over exactly when the trace ends with its one Final event. |
| `StreamTraces.PassedStraightOn` | internal/stream/runner.go:337-340 | A message that is not filtered is delivered at once, and only then. |
| `StreamTraces.ConnectionDelivers` | internal/stream/runner.go:236-373 | No order-book frame before the snapshots are complete; after that the buffered and the later frames, filtered by the cutoffs of the snapshots taken on this very connection, in arrival order; nothing left out while the connection carries on; the buffer within its maximum. |
| `StreamTraces.NewerThanSnapshot` | internal/stream/runner.go:236-373 | An instrument whose snapshot on this connection is timed gets exactly its frames strictly newer than that, in arrival order, as long as the live ones are timed. |
| `StreamTraces.UntimedLiveFrameOpens` | internal/stream/runner.go:236-373 | Its first untimed live frame is dropped and all of its frames after that are delivered. |
| `StreamTraces.WithoutCutoffPasses` | internal/stream/runner.go:236-373 | An instrument without a timed snapshot on this connection gets every frame. |
| `StreamTraces.WatchdogNeedsSilence` | internal/stream/runner.go:313-357 | A watchdog gap is reported only after a full interval without activity. |
| `StreamTraces.OverflowExactly` | internal/stream/runner.go:316-336 | A buffer gap is reported right after the first frame that finds the buffer full while snapshots are taken, and only then. |
| `Decimal.DecimalString` | internal/render/decimal.go:41-73 | The canonical text of the pair's value. |
| `Decimal.ParseQuotation` | internal/render/decimal.go:80-138 | The parse of any text, accepted or not. |
| `Decimal.CanonicalIsNumeral` | internal/render/decimal.go:41-73 | The printed text is a decimal of exactly the value: no needless sign, leading zero or trailing zero. |
| `Decimal.WellFormedParses` | internal/render/decimal.go:80-138 | Every well-formed decimal in range is accepted with exactly its value. |
| `Decimal.SpellsIff` | internal/render/decimal.go:80-138 | A text is accepted as a proper pair exactly when, up to white space around it, it is a decimal in range of exactly that pair's value. |
| `Decimal.AcceptedIsWellFormed` | internal/render/decimal.go:80-138 | Nothing else is accepted. |
| `Decimal.PrintThenParse` | internal/render/decimal.go:41-138 | Parsing a printed proper pair gives the pair back exactly when its units are above the least int64. |
| `Decimal.ParseThenPrint` | internal/render/decimal.go:41-138 | An accepted text is a proper pair, and printing it reads back the same. |
| `Decimal.SamePairIffSameValue` | internal/render/decimal.go:80-138 | Two accepted texts give the same pair exactly when they denote the same value. |
| `Decimal.ProperIsUnique` | cmd/tinvest/stoporders.go:1183-1200 | Comparing proper pairs componentwise is comparing values. |
| `Balance.AddMoney` | internal/render/portfolio.go:314-330 | The sum is in proper form, and it is the exact value exactly when the carried units fit int64. |
| `Balance.Add` | internal/render/portfolio.go:281-291 | The summaries kept are the running sums of the entries so far, wraps included. |
| `Balance.ExactAllAlongIff` | internal/render/portfolio.go:314-330 | All running sums of a currency are exact exactly when every entry fits on top of the exact total before it. |
| `Balance.FittingTotalIsExact` | internal/render/portfolio.go:314-330 | The final sum is exact whenever the exact total fits, whatever wrapped on the way. |
| `Balance.Balance` | internal/render/portfolio.go:279-312 | Every currency once, sorted, with its running sums; when the exact totals fit int64 units, with the exact sums in proper form. |
| `Balance.ModestFits` | internal/render/portfolio.go:279-312 | They fit when the absolute amounts of each currency add up to no more than int64 units. |
| `Balance.OrderDoesNotMatter` | internal/render/portfolio.go:279-312 | The same entries in any order give the same balance, wrapped or not, unless a total has two proper forms, one at either end of int64. |
| `Balance.TwoFormsDependOnOrder` | internal/render/portfolio.go:314-330 | For every total that has two, up to whole turns of the units, there are entries whose order decides which is shown. |
| `Balance.ExactBalanceIsUnique` | internal/render/portfolio.go:279-312 | Balances that show the exact sums agree in any order. |
| `Balance.SortedUnique` | internal/render/portfolio.go:296-302 | A strictly sorted list is determined by its members. |

## Left out

- The gRPC stubs, TLS, credentials, dialing and metadata interceptors; the broker is an abstract state with arbitrary replies.
- Cobra commands, flags, tables, JSON envelopes and message texts; a decision carries its verdict and ids only.
- JSON, CRC and SHA: a record line is a codec that reads back what it wrote; enum names are numbers, and a payload is what its three decoders read.
- fsync, flock and directory syncs: an append is durable, refused, failed without a line or unsynced, the account lock is a mutex, and only the byte model cuts a write short.
- Bytes outside ASCII in the blank-line test of the journal reader, and stages other than the five.
- `Ledgers.Ledger.Append`: opening the file of a new month never fails, and a write that fails leaves no line here; the bytes it may leave are in `JournalFiles`. The statement about the whole log assumes that the month written is the latest one; a clock that runs back a month still appends correctly to its own file.
- A record's time stamp and payload hash are not among its modelled fields.
- `JournalFiles.AppendAfterShortWrite`: assumes that a non-empty part of one line with another whole line behind it never decodes, as JSON objects without their closing brace do not.
- `Placement.Broker.Place`: one account's broker stands for all, and the retry policy is any number of attempts; a stop order's single attempt is a special case.
- `Verdicts.NotPlacedIsSoundIff`: assumes one lifecycle of the intent id in the deciding state, and a day list that shows the order if it was accepted by then on that day; the two single-order lookups may miss it.
- `StopReconciling.HistoryTiesOnce`: assumes that stop reconcile runs do not overlap each other; when they do, `StopReconciling.TiesAgainIff` says what each of them may tie twice.
- `OpenOrders.CapHolds`: assumes a positive cap, an exact broker list and one policy for all processes, and that no request is let go undecided; `OpenOrders.LateBoundIff` drops the last.
- The kill switch, allowlist, lot cap and notional checks, dry runs, cancel, replace and wait flows; replace journals the same three stages.
- `TokenBuckets.Bucket.Wait`: times and rates are reals; the truncation of a wait to nanoseconds and the rounding of float64 are not modelled.
- `Routing.Limiter.Wait`: the blocking half after the lock is released is the bucket's cancel operation; the up-front context check is not modelled.
- `Streams.Runner.Run`: the generic callbacks are either the order-book ones or absent; the registry does not change during a run; the order of snapshot output relative to messages that pass while snapshots are taken is not modelled.
- `ReplayLimiting.ReplayLimiter.WaitN`: timers never fire early, so the loop always ends.
- Backoff durations and jitter: any waiting time; the number of failures it is chosen by is modelled.
- `Decimal.DecimalString`: a nano part of a whole unit or more is outside its input; the printer would fail on it.
- `Balance.Balance`: a total that does not fit int64 units comes out wrapped, off by a whole number of turns of the units.
