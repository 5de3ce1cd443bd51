# Verification model of the seat watcher

A Dafny model of the parts of the system that carry its guarantees, with proofs for all inputs and
all runs. `dafny verify dfyconfig.toml` checks it.

Times are integer milliseconds. Random identifiers, clock readings, write outcomes and
ORDER BY ties are parameters, so every proof holds for all of them.

## Components

**Origin permits** (`OriginRecords`, `OriginProtocol`, `OriginControl`, `OriginExact`, `OriginReset`).
Worker processes share a fence file, an origin state file and a safety-stop marker. `OriginProtocol`
is a transition system over a disk, any number of workers and the Operator: a worker may crash between
any two steps, a write may fail before its rename or be renamed without being synced, files may be
corrupted, clocks may jump either way. Workers come and go while a reset looks at the marker or
removes it; only the rewriting of the state and the clearing of the fence exclude them. That, and a
reset's record that covers the last start, are the assumptions, one predicate
`OriginProtocol.Assumed`, and `OriginExact` shows that spacing needs each of them. A stop holds as long
as its record is kept (`KeptAlong`, `Unhindered`), or, in terms of the clock alone, as long as resets
wait (`WaitsAlong`, `Survives`); these conditions are exact as well. `OriginReset` has runs from the
initial files that break them. `OriginControl` has the objects in the program's own form,
shows each call to be a run of the system, and says what it answers and leaves on disk.

**Repository** (`RepoTables`, `RepoMail`, `RepoWatches`, `RepoState` and the modules beside them,
`Repository`). The tables are values, each transaction a function on them; `Repository.Tables` is the
object whose methods compute those functions. The visibility sequence is modelled by its history:
entry n says what value n + 1 was drawn for, so that "activated before the observation" is a fact
about positions. `RepoRuns` interleaves all transactions with any number of observers. An opening
commit is two steps, selecting targets and comparing the version, both under a SHARE lock, so two
observers can be between them at once; the transactions that change watches exclude every holder of
that lock. Runs carry no assumption; the ceiling on Sections is one configured value. `RepoTheorems`,
`RepoRecipients`, `RepoFiling`, `RepoWindows` and `RepoAccounts` hold what follows for every run.
`RepoAdmission`, `RepoDecisions`, `RepoOutbox`, `RepoBlindness` and `RepoRetention` say of single
transactions, field by field, what they take, write, end and leave, and when; the methods of
`Repository.Tables` promise the same. The pace of
retries (`RepoPace`) assumes `RepoRuns.Timed`: one non-decreasing clock, claim leases of a second or
more, a worker that never reads its clock behind the claim it settles. Alternation
(`RepoAlternation`) asks that no winning opening is disturbed by an earlier one. `RepoFreshness` says
when none can be: readings stay fresh, and are held, for less than the retention together; `RepoPurge`
has a run for every longer freshness and hold in which one is. `MailDrain` is the dispatcher's loop over claims and settlements.

**robots.txt** (`RobotsGlob`, `RobotsOctets`, `RobotsMeaning`, `RobotsPolicy`, `RobotsLines`): the
iterative glob matcher, the octet normaliser and the specificity count, the group parser and the
longest-match choice of sections 2.2.1 to 2.2.3 of RFC 9309. `RobotsMeaning` reads octets, and
`RobotsLines` directives, off the characters of the file.

**Class keys** (`ClassKey`, `ClassCodes`, `Text`): the normaliser of the canonical identity and its
round trips, and what each part of a written code is read as.
Lower-casing is a parameter known only on ASCII.

**Rate limit** (`RateLimit`) and **scheduling** (`Scheduling`): the fixed-window limiter and its Redis
script; the task queue and the permit limiter as objects whose methods are the turns of the event loop.

## Worth knowing

- The component alias table is an object literal, so it also answers `constructor` and `__proto__`.
  `ClassKey.FinalCheckCatchesInheritedNames` says exactly when the assembled key fails its final
  check; with the listed entries alone it never would.
- The fixed-window limiter can admit 2·max − 1 requests within one window length, and no more, since a
  window begins with an arbitrary request.
- `normalizeRobotsOctets` is not idempotent on every text with a stray `%`;
  `RobotsOctets.IdempotentWhenSettled` says on which it is.
- The compare-and-set of an opening reads the state version only, which starts again at zero after a
  purge. A row that is as old as the retention can be purged while a worker holds it and grow back to
  the version that was read, and the stale opening then wins. It takes a reading that stays fresh
  almost as long as the retention or longer, which a source's `max-age` can ask for (the cap is a
  year), or a worker that holds a reading for that long (`RepoPurge.AlternationIsExact`); comparing
  the visibility order as well would exclude it.
- A reset removes whatever stop it finds at its end, also one engaged after it cleared the fence.
- Retiring a class cancels its pending mail also for watches activated after the cutoff, which stay
  (`RepoAdmission.RetireIsExact`).
- A reset reads the clock twice. Its admission is checked against the first reading, and what it
  writes carries the second.
- Human codes with a long component alias such as `lecture` read back as the short one.

## Model

| member | source | states |
|---|---|---|
| `OriginProtocol.StartsAreSpaced` | src/worker/source-origin-control.ts:303-400 | In every run of every number of workers, with crashes, failed writes, state corruption, clock jumps and resets, any two physical starts have readings at least the spacing apart, in order; a reset may read any clock whose record covers the last start |
| `OriginProtocol.FenceIsExclusive` | src/worker/source-origin-control.ts:256-301 | No two workers are inside the fence, and nobody is while a reset rewrites the state and clears the fence |
| `OriginProtocol.StepKeepsInv` | src/worker/source-origin-control.ts:256-523 | Every assumed step keeps: one owner; outside the fence the state file keeps the next start the spacing away from the last; inside, an owner either knows its own last start or the file does |
| `OriginExact.AssumptionsAreExact` | src/worker/source-origin-control.ts:256-523 | From every sound world and for every step, what follows stays spaced exactly when the step was assumed, changed nothing, or let a worker in to a state file nobody can use: a reset over a worker inside, a worker entering while the fence is cleared, and a record that does not cover the last start each have a continuation with two starts too close |
| `OriginProtocol.CooldownHolds` | src/worker/source-origin-control.ts:402-453 | A deferral that reached the state file, synced or not, forbids every earlier start on every continuation that does not corrupt that file |
| `OriginExact.CooldownIsExact` | src/worker/source-origin-control.ts:402-453 | It forbids starts before n on all those continuations exactly when its record, or the spacing after the last start, does |
| `OriginProtocol.OwesForGood` | src/worker/source-origin-control.ts:332-347 | Once the state file and the work in progress allow no start before n, no continuation that leaves the file uncorrupted adds one |
| `OriginProtocol.StopHolds` | src/worker/source-safety-stop.ts:179-252 | A stop of any reason that reached the marker forbids every start before n on every continuation that keeps its record up to n, whatever resets are tried, one already admitted included, and whatever becomes of the marker and, while it stands, of the state file |
| `OriginExact.StopIsExact` | src/worker/source-safety-stop.ts:179-252 | It does so on all continuations that keep its record exactly when no reset has already cleared the fence, or the state file that one left, or the spacing, forbids those starts |
| `OriginExact.KeptStepsAreExact` | src/worker/source-safety-stop.ts:215-252 | While a stop is kept, what follows a step stays clear of starts before n exactly when the step keeps the record: a reset writes a record that forbids them, and the state file is not corrupted once it alone carries the stop |
| `OriginProtocol.WaitedStopHolds` | src/worker/source-safety-stop.ts:215-236 | A rate-limit stop that only waiting resets remove, whose second reading is not behind their first, forbids every start up to the spacing after the moment it names |
| `OriginExact.WaitedStopIsExact` | src/worker/source-safety-stop.ts:215-252 | It forbids starts before n on all those continuations exactly when the spacing after the moment it names reaches n, and the reset already on its way was admitted that late or left such a record, or the spacing after the last start reaches n |
| `OriginProtocol.DeferralReachesDelay` | src/worker/v04.ts:846-880 | After a 429 at t with worker delay d, a deferral that reached the state file forbids every start before t + d, unless its own reading is so far behind t that a day after it is earlier |
| `OriginProtocol.StopReachesDelay` | src/worker/v04.ts:881-891 | So does a stop that reached the marker and that only waiting resets remove, if its reading is behind t by no more than the spacing and what it adds itself |
| `OriginProtocol.MarkerForbidsStarts` | src/worker/v04.ts:775-790 | While any marker, readable or not, is on disk, nothing starts |
| `OriginReset.BackwardResetBreaksSpacing` | src/worker/source-origin-control.ts:489-523 | One run from the initial files, assumed but for one reading: a reset over a corrupt state reads a clock behind the last start, and two starts are too close |
| `OriginReset.UnfencedResetLosesStop` | src/worker/source-safety-stop.ts:232-243 | One run from the initial files: a reset has cleared the fence, a worker enters and engages a stop, and the same reset removes it; the record is kept, and a start comes before the moment the stop names |
| `OriginReset.AdmittedResetLosesStop` | src/worker/source-safety-stop.ts:217-243 | One run from the initial files: the stop is engaged when a reset has taken its first reading; every reset waits, and a start comes too early |
| `OriginReset.SlippedReadingLosesStop` | src/worker/source-safety-stop.ts:222-236 | One run from the initial files: no reset is on its way, the state is corrupted while the stop stands, a reset reads its second clock behind its first, and a start comes too early |
| `OriginReset.CorruptedRewriteLosesStop` | src/worker/source-safety-stop.ts:232-243 | One run from the initial files: the state is corrupted after a waiting reset rewrote it, a second reset reads an earlier clock, and a start comes too early |
| `OriginProtocol.ResetPutsOff` | src/worker/source-origin-control.ts:489-523 | What a reset writes forbids starts before n exactly when the spacing after its reading does or a usable state already did |
| `OriginProtocol.ReadingCoversExactly` | src/worker/source-origin-control.ts:489-523 | What a reset writes covers the last start exactly when its reading does, or a usable state, by its last permit or its cooldown, already did |
| `OriginRecords.SpacingRespectsRate` | src/worker/source-origin-control.ts:738-748 | The spacing is the least whole number of milliseconds that respects the rate, and never under a second |
| `OriginRecords.WritersStayReadable` | src/worker/source-origin-control.ts:803-812 | Every record a writer builds from what the reader returned is accepted by the reader |
| `OriginRecords.WritersOnlyPutOff` | src/worker/source-origin-control.ts:402-453 | No writer brings the first possible start forward; a deferral puts it off to exactly its bounded cooldown, a reset to exactly its reading and the spacing |
| `OriginRecords.EngagedMarkerIsAccepted` | src/worker/source-safety-stop.ts:179-213 | Every marker `engage` builds is accepted by the marker reader |
| `OriginRecords.OriginCooldownCovers` | src/worker/v04.ts:851-865 | The origin cooldown of a 429 at t with delay d reaches t + d exactly when its own reading is not a day less d behind t |
| `OriginRecords.StopMarkerCovers` | src/worker/source-safety-stop.ts:406-411 | The stop marker reaches t + d exactly when its reading is behind t by no more than it adds itself |
| `OriginRecords.ReservationIsFirst` | src/worker/source-origin-control.ts:321-362 | The moment reserved is the first that is not before the reading or the cooldown and is the spacing after the last permit on file and the last start the worker knows |
| `OriginRecords.ReadableIsWritable` | src/worker/source-origin-control.ts:803-812 | The reader accepts exactly the records without a cooldown and those some deferral writes |
| `OriginRecords.RequestsAreBounded` | src/worker/source-origin-control.ts:413-421 | A request between the reading and a day later is stored as asked, an earlier one as the reading, a later one as a day after it |
| `OriginRecords.AcceptedIsEngaged` | src/worker/source-safety-stop.ts:179-213 | The marker reader accepts exactly what `engage` can have written, and a rate limit that is over at once |
| `OriginRecords.StopsNameMoments` | src/worker/source-safety-stop.ts:179-213 | Only a rate limit names a moment: its delay, up to a day, after the reading, or a day for want of one |
| `OriginRecords.DelayReachesEligible` | src/worker/v04.ts:846-880 | The delay of a 429 ends at the moment the source allows, but for one in the past or more than a day away |
| `OriginControl.CallsStaySound` | src/worker/source-origin-control.ts:303-523 | Any call sequence that is a run of the protocol keeps its invariant and the spacing |
| `OriginControl.PermitCallReaches` | src/worker/source-origin-control.ts:303-400 | `runWithPermit`, on every outcome, is a run of the protocol |
| `OriginControl.PermitAnswers` | src/worker/source-origin-control.ts:303-400 | A start comes exactly when the reservation is durable, no abort, stop or kill switch is seen, and the second reading is not before the moment reserved; then, and if the reconciling write succeeds, the answer is that of the start and the file holds its reading. A stop after a durable reservation answers `interrupted` exactly if there was no abort before, and each other answer has its exact condition |
| `OriginControl.DeferCallReaches` | src/worker/source-origin-control.ts:402-453 | `deferUntil`, on every outcome, is a run of the protocol |
| `OriginControl.ReleaseCallReaches` | src/worker/source-origin-control.ts:457-484 | `release`, on every outcome, is a run of the protocol |
| `OriginControl.ResetCallReaches` | src/worker/source-safety-stop.ts:215-252 | An Operator reset with nobody inside, stopped anywhere, whose record covers the last start, is a run of the protocol, whatever its two readings are to each other |
| `OriginControl.FenceHandle.RunWithPermit` | src/worker/source-origin-control.ts:303-400 | In terms of the files and the surroundings of the call: whether it starts, each answer with its exact condition, what the state file then holds and when the fence is retained |
| `OriginControl.FenceHandle.DeferUntil` | src/worker/source-origin-control.ts:402-453 | Succeeds exactly when both moments are known, the state is usable and the write is durable; the file then holds a cooldown of at most a day with its reading, and keeps the last permit; a write that fails early leaves the file, and every failure retains the fence |
| `OriginControl.FenceHandle.Release` | src/worker/source-origin-control.ts:457-484 | Removes the fence exactly when it is not retained, is still its own, and the state covers the last start |
| `OriginControl.Files.AcquireFence` | src/worker/source-origin-control.ts:256-301 | Exclusive creation of the fence under a token of its own: refused while one exists, left partial when its write fails |
| `OriginControl.Files.ClearFence` | src/worker/source-origin-control.ts:489-523 | The last-permit time is carried forward durably before the fence goes |
| `OriginControl.SafetyStopStore.Engage` | src/worker/source-safety-stop.ts:179-213 | An existing stop is left alone; otherwise the marker is written, and a failed write keeps the process stopped |
| `OriginControl.SafetyStopStore.Reset` | src/worker/source-safety-stop.ts:215-252 | Succeeds exactly when the resume time, of the marker or of a stop this process could not persist, has come, and each of its four steps succeeds; a step that fails leaves what the later ones would have changed |
| `RepoInvariant.StepKeepsInv` | src/db/repo.ts:450-3016 | Every transaction, interleaved with any number of observers, at any clock readings, keeps the whole invariant: the CHECK constraints, the logical unique indexes, capacity, activation orders, open alerts, one incident per dead letter |
| `RepoTheorems.RunKeepsInv` | src/db/repo.ts:450-3016 | So does every run from empty tables |
| `RepoTheorems.OpeningsAreExact` | src/db/repo.ts:2054-2134 | In every run, an opening that loses its compare-and-set changes nothing. One that wins, when its select found the version it was decided on, replaces that very row, and the only new rows are one alert for each Confirmed subscriber whose live watch was last activated before that row was observed and who has no alert of this opening; otherwise it alerts nobody |
| `RepoRecipients.LaterActivationsAreLeftOut` | src/db/repo.ts:2056-2076 | A watch is among the recipients exactly when no step after the one that read the class activated it |
| `RepoStateProofs.TargetsAreExact` | src/db/repo.ts:2056-2076 | Comparing stored orders selects exactly the watches activated before the observation |
| `RepoDecisions.ReadingsOpenExactly` | src/worker/v04.ts:1112-1260 | A reading opens the class exactly when the held row was fresh when it was fetched and seats or a waitlist have come since; it is opened for the seats first; any other reading is kept as it was seen |
| `RepoDecisions.OthersKeepOrReport` | src/worker/v04.ts:1112-1135 | Without a body the held row is kept with its new freshness, or the answer reported as broken |
| `RepoDecisions.NotModifiedStep` | src/worker/v04.ts:1117-1206 | An accepted 304 whose row is current leaves seats, waitlist and every alert as they were, and changes freshness, version, order and time of this class only; any other 304 changes nothing |
| `RepoDecisions.ReadingStep` | src/worker/v04.ts:1112-1260 | A reading that opens nothing is written as it was seen, and one that opens waits, with what it saw, for its commit |
| `RepoDecisions.StatesWereSeen` | src/worker/v04.ts:1112-1260 | In every run each committed class state shows the seats and the waitlist that some reading of the class saw |
| `RepoAlternation.OpeningsReplaceTheirBase` | src/db/repo.ts:2078-2103 | In every run that purges no row while it is held, an opening that wins replaces the row it was decided on, and its select found it |
| `RepoAlternation.OpeningsAlternate` | src/worker/v04.ts:1233-1250 | Between two openings of one class for one reason a committed class state has that reason closed, if each opening that wins comes after no other of the class since the row it was decided on |
| `RepoAlternation.PromptOpeningsAlternate` | src/worker/v04.ts:1207-1250 | The same, whatever is purged, with no reading held through the retention and no sweep ahead of the clock, if the openings that win past the first version find the visibility order they read |
| `RepoAlternation.HistoryAlternates` | src/db/repo.ts:2078-2103 | The same in every reachable world, on the history of committed observations |
| `RepoAlternation.OrderedOpeningsAlternate` | src/db/repo.ts:2078-2103 | Whatever is purged, openings alternate if those that win find the visibility order they read, not only the version |
| `RepoFreshness.BoundedOpeningsReplaceTheirBase` | src/worker/v04.ts:1189-1199 | With readings fresh and held for less than the retention together, an opening that wins replaces the very row it was decided on, whatever is purged |
| `RepoFreshness.BoundedOpeningsAlternate` | src/worker/v04.ts:1189-1250 | So openings alternate in every such run |
| `RepoPurge.AlternationIsExact` | src/db/repo.ts:2997-3016 | For every freshness and hold, openings alternate in all runs within them that read only watched classes exactly when the two together stay within the retention |
| `RepoPurge.PromptPurgeBreaksAlternation` | src/db/repo.ts:2997-3016 | A run from empty tables that reads only a watched class and holds no reading for any time, in which a row as fresh as the retention is long is purged, and two openings do not alternate |
| `RepoPurge.LongReadingBreaksAlternation` | src/db/repo.ts:2997-3016 | A run from empty tables that reads only a watched class, in which only first versions are opened, one is held through the retention, and two openings do not alternate |
| `RepoPurge.OrderTellsStaleness` | src/db/repo.ts:2078-2103 | Whatever was purged, a winning compare-and-set replaces the row it was decided on exactly when that row's visibility order is still current |
| `RepoTheorems.QueuedAlertsAreOpen` | src/db/repo.ts:333-376 | In every reachable world a queued or processing alert is about a class whose current state shows its reason open |
| `RepoStateProofs.WriteKeepsState` | src/db/repo.ts:1230-1273 | An upsert or winning opening keeps rows, alerts and history in step |
| `RepoSteps.SwapOneEach` | src/db/schema.ts:525-527 | An opening keeps one alert per subscriber, class and opening |
| `RepoSteps.DiscloseOneEach` | src/db/schema.ts:539-541 | A disclosure sweep keeps one disclosure per subscriber, class and window |
| `RepoTheorems.DemandIsBounded` | src/db/repo.ts:219-259 | In every reachable world: Sections within the ceiling, four live watches at most, and a live watch is activated exactly when its subscriber is Confirmed |
| `RepoWatchProofs.CapacityIsUnion` | src/db/repo.ts:219-259 | The count of new Sections admits a set exactly when the union stays within the ceiling |
| `RepoWatchProofs.ConfirmSections` | src/db/repo.ts:592-651 | Confirmation adds exactly the staged keys to the counted Sections |
| `RepoWatchProofs.ActivateAllAt` | src/db/repo.ts:637-648 | The activation loop numbers exactly the staged watches, in order, and touches no other |
| `RepoWatchProofs.AddKeepsWatches` | src/db/repo.ts:676-761 | Adding or reviving keeps the per-subscriber limit, the ceiling and the activation orders |
| `RepoWatchProofs.ShrinkingKeepsWatches` | src/db/repo.ts:786-861 | Removal, retirement and deletion keep all of them |
| `RepoTheorems.CutoffSparesLaterActivations` | src/db/repo.ts:1058-1101 | A class-gone result retires a live watch exactly when no step since its cutoff was drawn activated that watch |
| `RepoTheorems.SettlesOnce` | src/db/repo.ts:2602-2772 | Each claim of a job settles at most once, over all interleavings of dispatchers and lease expiries |
| `RepoTheorems.LostFenceStaysLost` | src/db/repo.ts:2478-2590 | A token that no longer owns its row never owns it again |
| `RepoTheorems.RowsStepOverRuns` | src/db/schema.ts:612-644 | Terminal rows are absorbing over every run, but for the detachment of a dead letter; a row keeps what it was filed as |
| `RepoTheorems.NoRebirth` | src/db/repo.ts:2942-2985 | A deleted row never comes back |
| `RepoPace.AttemptsAreBounded` | src/db/repo.ts:2370-2407 | With the clocks in agreement, a job is claimed at most its horizon divided by a second, rounded up: 23 hours, or the time to the alert's expiry |
| `RepoTheorems.ClaimsAreDue` | src/db/repo.ts:2478-2549 | A claim takes only jobs before their horizon, and alerts and disclosures with a live watch of a Confirmed subscriber |
| `RepoMail.RetryDelay` | src/worker/v04.ts:1443-1449 | Every retry waits a second at least, and an ordinary one at most the configured back-off |
| `RepoOutbox.DelaysDouble` | src/worker/v04.ts:1443-1449 | The first retry waits half a minute and each later one twice as long, up to the configured back-off; a rate limit waits its own delay, a second at least |
| `RepoOutbox.ClaimIsExact` | src/db/repo.ts:2465-2590 | What is taken is processing under the new token with one attempt more; expired alerts are cancelled, other mail past its horizon is dead-lettered with an incident, mail nobody asks for is cancelled, and every other row and table is as it was |
| `RepoOutbox.DueIsClaimable` | src/db/repo.ts:2518-2532 | A claim can take exactly the rows that are queued or whose lease is over, whose time has come, and that are neither expired, past their horizon nor without a live watch |
| `RepoOutbox.CompletionIsExact` | src/db/repo.ts:2602-2632 | The holder of the claim, and nobody else, has the row recorded as sent, and no other row changes |
| `RepoOutbox.CancellationIsExact` | src/db/repo.ts:2638-2662 | A suppressed address ends the holder's row as cancelled, and no other row changes |
| `RepoOutbox.DeadLetteringIsExact` | src/db/repo.ts:2741-2772 | A permanent failure ends the holder's row as dead-lettered with an incident, and no other row changes |
| `RepoOutbox.DeferralIsExact` | src/db/repo.ts:2668-2738 | The row is requeued exactly if the new moment and the reading are both before its horizon; else an alert expires and other mail is dead-lettered, and the answer says which |
| `RepoOutbox.NewRowsAreFresh` | src/db/repo.ts:2105-2126 | A new row is queued, due at once and never tried; an alert expires an hour after its opening, other mail does not |
| `RepoMailProofs.DeferKeepsMail` | src/db/repo.ts:2668-2738 | A deferral keeps row constraints, pace and incidents, whichever way it ends |
| `RepoMailProofs.ClaimKeepsMail` | src/db/repo.ts:2465-2590 | So does a claim with its housekeeping, for any set of due rows |
| `RepoTheorems.DeadLettersHaveIncidents` | src/db/repo.ts:2346-2407 | In every reachable world a row is dead-lettered exactly when it has its incident, and satisfies the claim and shape constraints |
| `RepoTheorems.ProtectedOverRuns` | src/db/repo.ts:822-861 | Until it is resolved, an incident keeps its dead letter through every deletion and sweep |
| `RepoMailProofs.ProtectedSurvives` | src/db/repo.ts:2942-2985 | Deletion detaches, and the sweep spares, the rows of unresolved and acknowledged incidents |
| `RepoWindows.WindowsAreSeparated` | src/db/repo.ts:2194-2320 | Between any two disclosures to a subscriber for a class a step read the class or activated the watch, or the retention sweep purged the first one, settled ninety days before |
| `RepoFiling.RowsGoBySweep` | src/db/repo.ts:2932-3027 | In every run, a mail row that is no longer on file for a subscriber who was there before and after went in a retention sweep, ninety days after it was settled and with no open incident |
| `RepoWindows.DisclosuresAreDue` | src/db/repo.ts:2230-2282 | A disclosure is filed only for an active watch of a Confirmed subscriber, a full horizon after the later of read and activation, with the source deadline past |
| `RepoBlindness.DisclosureIsExact` | src/db/repo.ts:2194-2320 | Whoever relied on the class unread for the horizon, and was not told of that window, gets one disclosure; nobody else does, nothing else changes, and nobody is owed one afterwards |
| `RepoAccounts.EachIsFiledOnce` | src/db/schema.ts:525-541 | In every reachable world a subscriber has at most one alert of an opening and one disclosure of a window |
| `RepoAccounts.AddressesAreUnique` | src/db/repo.ts:480-500 | In every reachable world no two subscribers have one address |
| `RepoAccounts.CreateStages` | src/db/repo.ts:502-515 | A registration is Pending, and its watches are its keys, all live and staged |
| `RepoAdmission.CreateIsExact` | src/db/repo.ts:450-538 | The checks in order: more than four classes, the subscriber limit, an address in use; a registration adds one Pending subscriber, its staged watches and, unless suppressed, one confirmation |
| `RepoAdmission.ConfirmIsExact` | src/db/repo.ts:592-651 | A Pending subscriber is confirmed exactly if its live watches fit, and they get the next values of the visibility sequence in creation order |
| `RepoAdmission.AddIsExact` | src/db/repo.ts:676-761 | The checks in order: the subscriber, the watch itself, the personal limit, the ceiling for a Confirmed subscriber; a retired watch is revived, and a Confirmed subscriber's is active at once |
| `RepoAdmission.RetireIsExact` | src/db/repo.ts:1075-1142 | Exactly the live watches of the class not activated after the cutoff are retired, exactly the pending alerts and disclosures about the class are cancelled, and nothing else changes |
| `RepoAdmission.CapacityIsFit` | src/db/repo.ts:219-259 | Keys are admitted exactly when the Sections of active watches, with them, stay within the ceiling |
| `RepoAdmission.SectionsAreActive` | src/db/repo.ts:219-240 | The Sections counted are the classes with a live, activated watch of a Confirmed subscriber |
| `RepoRetention.SweepIsExact` | src/db/repo.ts:2932-3027 | Which subscribers, watches, mail rows, incidents and class rows stay, each by its own fields, and that what stays is as it was but for expired alerts and detached dead letters |
| `RepoAccounts.RemovalsSilence` | src/db/repo.ts:786-820 | No active alert of a removed watch is left, and no active alert or disclosure about a retired class |
| `RepoAccounts.SweepSparesLiveData` | src/db/repo.ts:2932-3027 | Retention keeps the live watches of Confirmed subscribers and the class rows they refer to |
| `RepoAccounts.SweepSparesActiveMail` | src/db/repo.ts:2932-3027 | Retention keeps active mail that is neither an expired alert nor a purged subscriber's |
| `MailDrain.AnsweredOnce` | src/worker/v04.ts:1384-1482 | In every run the first answer to a claim is settled as that call settles it, and whatever is answered to the same claim later leaves the tables as they are |
| `MailDrain.SettleMailJob` | src/worker/v04.ts:1384-1482 | Each answer of the provider is settled in its own way for the holder of the claim and in no way for anybody else; the job is counted exactly when its claim was still held, and sent and dead-lettered counts grow as the table does |
| `MailDrain.DrainMailOutbox` | src/worker/v04.ts:1321-1382 | At most four batches, the last of them short unless aborted; every job claimed is settled before it returns, none is left claimed by it, and the summary agrees with the table and counts each claimed or horizon-expired job once |
| `MailDrain.ClaimCounts` | src/db/repo.ts:2465-2590 | A claim sends nothing and dead-letters exactly the jobs past their horizon |
| `Repository.Tables.CreateSubscriber` | src/db/repo.ts:450-538 | Each refusal with its exact condition, in order; a registration leaves the tables as `RepoAdmission.Registers` says field by field, a refusal as they were |
| `Repository.Tables.ConfirmSubscriber` | src/db/repo.ts:592-651 | Each answer with its exact condition; the staged watches are activated in creation order, and a refusal changes nothing |
| `Repository.Tables.ActivateInOrder` | src/db/repo.ts:640-648 | The loop draws one value per staged watch, in order |
| `Repository.StagedInOrder` | src/db/repo.ts:615-619 | The live watches of a subscriber, each once, in creation order |
| `Repository.Tables.AddWatch` | src/db/repo.ts:676-761 | Each answer with its exact condition, personal limit before service ceiling; the one watch that is added or revived, or no change |
| `Repository.Tables.HasRoom` | src/db/repo.ts:219-259 | Answers the capacity question of the specification |
| `Repository.Tables.RemoveWatch` | src/db/repo.ts:786-820 | The watch goes and exactly its pending alerts are cancelled, nothing else changes, and the caller gets the watches that are left, in creation order |
| `Repository.Tables.DeleteSubscriber` | src/db/repo.ts:852-861 | The subscriber goes with its watches and mail, except dead letters with an open incident, which stay detached; everybody else's rows stay as they are |
| `Repository.Tables.GetPollCycleCutoff` | src/db/repo.ts:1058-1073 | Draws the next value of the visibility sequence and returns it |
| `Repository.Tables.RetireWatchesForClass` | src/db/repo.ts:1075-1142 | Which watches stop being live, which mail is cancelled, and the number of the watches |
| `Repository.Tables.UpsertClassState` | src/db/repo.ts:1207-1275 | The class shows what was seen at the next version and newest order, other classes stay, and exactly the alerts the row closes are cancelled |
| `Repository.Tables.SelectTargets` | src/db/repo.ts:2056-2076 | Under the invariants: the Confirmed subscribers whose live watch was last activated before the current row was observed, if the version is current, and otherwise nobody |
| `Repository.Tables.CommitOpening` | src/db/repo.ts:2078-2134 | Lost, nothing changes; won, the class shows what was seen at the next version, each target without an alert of this opening gets one, closed alerts are cancelled, every other row stays, and the count is that of the new rows |
| `Repository.Tables.EnqueueBlindWindowDisclosures` | src/db/repo.ts:2194-2320 | Exactly the windows that are owed are disclosed, nothing else is new or changed, the result names the Sections of the new rows, and nothing is left for the same sweep to disclose |
| `Repository.TakeFirst` | src/db/repo.ts:2518-2532 | The first rows in claim order: all, or `limit` of them, none after one left out |
| `Repository.Tables.ClaimMailBatch` | src/db/repo.ts:2465-2590 | The batch is the first rows, in claim order, of those due by their status, times and watches; with room in it every due row is taken, a row whose lease is over included, under a token never used before; every other row is left or ended as its own times say |
| `Repository.Tables.CompleteMailJob` | src/db/repo.ts:2602-2632 | Succeeds exactly for the owner of the claim, whose row alone is recorded as sent |
| `Repository.Tables.CancelClaimedMailJob` | src/db/repo.ts:2638-2662 | Succeeds exactly for the owner of the claim, whose row alone is cancelled |
| `Repository.Tables.DeferMailJob` | src/db/repo.ts:2668-2738 | For the owner of the claim alone: requeued if in time, else expired or dead-lettered, with the answer that says so |
| `Repository.Tables.DeadLetterMailJob` | src/db/repo.ts:2741-2772 | Succeeds exactly for the owner of the claim, whose row alone is dead-lettered, with its incident |
| `Repository.Tables.AcknowledgeDeadLetterIncident` | src/db/repo.ts:2858-2868 | True for an unresolved incident only, which then is acknowledged, so a second call answers false; no other incident changes |
| `Repository.Tables.ResolveDeadLetterIncident` | src/db/repo.ts:2875-2885 | True for an incident not yet resolved; afterwards it is, so a second call answers false; no other incident changes |
| `Repository.Tables.SweepRetention` | src/db/repo.ts:2932-3027 | Exactly the rows that `RepoRetention.Retains` names stay, with the number of rows each statement removed |
| `RobotsGlob.MatchBody` | src/scraper/fetch.ts:935-978 | The greedy loop with one remembered star terminates and answers exactly the recursive glob |
| `RobotsGlob.StarTakesOneMore` | src/scraper/fetch.ts:964-969 | When the literal run after the star fails, only a longer star can match |
| `RobotsGlob.NewStar` | src/scraper/fetch.ts:957-962 | Forgetting the earlier star at a new one loses no match |
| `RobotsGlob.PathExhausted` | src/scraper/fetch.ts:941-978 | When the path runs out inside a literal run no further backtracking can match |
| `RobotsGlob.BodyMeansRule` | src/scraper/fetch.ts:936-939 | The added star is prefix matching and the dropped `$` an end anchor, as in section 2.2.3 of RFC 9309 |
| `RobotsOctets.RobotsPatternMatches` | src/scraper/fetch.ts:935-978 | Matches exactly when the normalised rule matches the normalised path |
| `RobotsOctets.RobotsPatternSpecificity` | src/scraper/fetch.ts:980-994 | The loop computes the specified octet count |
| `RobotsOctets.SpecificityCountsOctets` | src/scraper/fetch.ts:980-994 | Specificity is the number of octets of the normalised pattern other than stars and a final anchor |
| `RobotsOctets.NormalizeIsIdempotent` | src/scraper/fetch.ts:996-1013 | Normalising twice is normalising once when every `%` begins an escape |
| `RobotsOctets.IdempotentWhenSettled` | src/scraper/fetch.ts:996-1013 | For any text, normalising twice is normalising once exactly when every escape of the result is upper case and of a reserved octet |
| `RobotsOctets.StrayPercentIsNotIdempotent` | src/scraper/fetch.ts:996-1013 | A concrete text with a stray `%` for which it is not |
| `RobotsOctets.NormalizeComparesOctets` | src/scraper/fetch.ts:996-1013 | Two well-escaped texts normalise alike exactly when they hold the same units |
| `RobotsMeaning.NormalFormIsOctets` | src/scraper/fetch.ts:996-1013 | Two well-escaped texts normalise alike exactly when they stand for the same octets, read off their characters by the RFCs |
| `RobotsMeaning.NormalFormKeepsOctets` | src/scraper/fetch.ts:996-1013 | The normal form stands for the same octets, in ASCII, with every escape in upper case and none of an unreserved character |
| `RobotsMeaning.Utf8IsExact` | src/scraper/fetch.ts:999-1007 | The octets of a character are its shortest form by section 3 of RFC 3629 |
| `RobotsMeaning.HexIsExact` | src/scraper/fetch.ts:999-1013 | The hexadecimal digits by their values, read in either letter case and written in upper case |
| `RobotsMeaning.UnreservedIsExact` | src/scraper/fetch.ts:1009-1013 | The unreserved characters of section 2.3 of RFC 3986 by their codes |
| `RobotsMeaning.PatternWeight` | src/scraper/fetch.ts:980-994 | For any pattern the weight is the number of characters of the normal form that are no star, no final anchor and not inside an escape |
| `RobotsPolicy.FirstSortedDecides` | src/scraper/fetch.ts:674-690 | However the matching rules are sorted by the comparator, the first is an allow exactly when the rule set permits the path |
| `RobotsPolicy.CheckRobots` | src/scraper/fetch.ts:657-695 | Allowed exactly when nothing matches or a matching allow is at least as specific as every matching disallow; a refusal names a heaviest matching disallow |
| `RobotsPolicy.ParsedPolicy` | src/scraper/fetch.ts:870-923 | The parser returns exactly the rules of the groups naming the agent, else of those naming `*`, and flags exactly a dropped non-empty rule (sections 2.2.1 and 2.2.2 of RFC 9309) |
| `RobotsPolicy.ReadGroups` | src/scraper/fetch.ts:881-914 | The loop over the lines computes the specified groups, count and flag |
| `RobotsPolicy.ParseRobotsTxt` | src/scraper/fetch.ts:870-923 | The rules are those of the groups that name the agent, else of those that name `*`, in the order of their lines; the flag tells a rule that was dropped |
| `RobotsLines.LineIsExact` | src/scraper/fetch.ts:883-930 | A line with white space around it and a comment behind is read as the directive its key spells in any letter case, with exactly its value; a line without a colon or with another key is ignored |
| `RobotsLines.LostIsBeyond` | src/scraper/fetch.ts:897-914 | A rule is dropped exactly if it is in a group, not empty, and longer than 2048 code units or behind 1024 others |
| `RobotsLines.PolicyIsLines` | src/scraper/fetch.ts:870-923 | The rules are those of the governing lines, nothing else, and nothing is missing unless a rule was dropped |
| `RobotsLines.RefusalIsForbidden` | src/scraper/fetch.ts:657-695 | A path is refused exactly if a disallow line of a governing group matches it and outweighs every allow line of such a group that does |
| `RobotsLines.DecideFor` | src/scraper/fetch.ts:657-923 | Parsing and deciding together: from the lines of the file to the decision on a path |
| `ClassKey.NormalizeIsSound` | src/shared/class-key.ts:133-165 | Every accepted input gives a canonical key of at most 104 characters that normalises to itself |
| `ClassKey.CanonicalIsJoinedFields` | src/shared/class-key.ts:69-70 | A key is canonical exactly when it is seven good fields joined by hyphens |
| `ClassKey.CanonicalLength` | src/shared/class-key.ts:60-60 | A canonical key has 20 to 104 characters |
| `ClassKey.CanonicalReadsBack` | src/shared/class-key.ts:133-165 | A canonical key normalises to itself |
| `ClassKey.UrlRoundTrip` | src/shared/class-key.ts:98-100 | Normalising the page URL of a key gives the key back |
| `ClassKey.FinalCheckCatchesInheritedNames` | src/shared/class-key.ts:218-287 | An assembled human code fails the final pattern check exactly when the component names a property the alias table inherits |
| `ClassKey.HumanRoundTrip` | src/shared/class-key.ts:218-287 | A key written as a human code in ASCII, its fields separated by white space and commas, reads back exactly when its component is its own alias |
| `ClassCodes.IdentifiersArePadded` | src/shared/class-key.ts:283-287 | An identifier of digits keeps its number and ends in what was written, with only zeros in front up to three digits; any other is unchanged, and what is too long or not alphanumeric is refused |
| `ClassCodes.TokensAreCut` | src/shared/class-key.ts:218-222 | The tokens are what white space, hyphens, slashes and commas cut the text into, and nothing else is |
| `ClassCodes.ComponentsAreListed` | src/shared/class-key.ts:218-281 | The sixteen component names and their short forms |
| `ClassCodes.OthersStandForThemselves` | src/shared/class-key.ts:255-264 | Any other component of two to eight letters stands for itself, and anything else for none, but for the two inherited names |
| `ClassCodes.CodesAreExact` | src/shared/class-key.ts:218-281 | A code is accepted exactly when its six or seven tokens name a term, a section and a component; the key has their fields, the first component for want of a number; the reason of a refusal is exact |
| `ClassCodes.CodeReadsBack` | src/shared/class-key.ts:133-165 | Fields written as a code in any letter case, with or without leading zeros and component number, between any separators, are read as the key of those fields |
| `ClassCodes.AddressReadsBack` | src/shared/class-key.ts:167-216 | What follows the first `content/` of an address, up to a slash, a query, a fragment or white space, is read as a key in any letter case, or the address is not recognised |
| `ClassCodes.LimitsAreChecked` | src/shared/class-key.ts:133-145 | What is longer than 512 code units is invalid, and what is blank is empty |
| `RateLimit.MemoryRateLimiter.Consume` | src/server/rate-limit.ts:86-105 | After every call at a fixed policy, no interval of one window has admitted 2·max requests of the key; the window is opened or counted up, the answer is whether the count is within the limit, the wait is the least number of seconds that outlasts the window, and other keys are not touched |
| `RateLimit.ScriptAgrees` | src/server/rate-limit.ts:132-139 | The Redis increment-with-expiry script, on the same windows, decides the same |
| `RateLimit.ScriptFollows` | src/server/rate-limit.ts:132-139 | So over every trace of requests from an empty store, with the same windows throughout |
| `RateLimit.AtMostTwiceMax` | src/server/rate-limit.ts:86-105 | In any half-open interval of one window, over every trace, an identifier is admitted at most 2·max − 1 times |
| `RateLimit.BoundIsMet` | src/server/rate-limit.ts:86-105 | Some trace admits that many, so the bound is exact |
| `Scheduling.PermitLimiter.Acquire` | src/worker/poller.ts:256-262 | Grants a free permit or queues the waiter, in arrival order |
| `Scheduling.PermitLimiter.Release` | src/worker/poller.ts:264-272 | Hands the permit to the first waiter or frees it; none is lost or made |
| `Scheduling.PermitLimiter.WaitersHoldNothing` | src/worker/poller.ts:252-282 | A waiter holds no permit, and waiters exist only when every permit is in use |
| `Scheduling.TaskQueue.Add` | src/worker/poller.ts:320-323 | The items join the end, and idle capacity takes them at once |
| `Scheduling.TaskQueue.Settle` | src/worker/poller.ts:298-311 | A settled task records only the first failure, and its worker goes on with the next item |
| `Scheduling.TaskQueue.CleanUp` | src/worker/poller.ts:312-316 | The worker leaves, and freed capacity is used again |
| `Scheduling.TaskQueue.Drain` | src/worker/poller.ts:324-330 | Returns only when every item was started once, in order, and settled once, and reports the first failure |
| `Scheduling.TaskQueue.NeverMoreThanLimit` | src/worker/poller.ts:296-297 | The tasks in flight never outnumber the limit |
| `Scheduling.Settles` | src/worker/poller.ts:298-311 | Settling keeps the books: each taken item is settled once or running on one worker |

## Left out

- Real files, PostgreSQL, Redis, timers and fetch: steps that happen, fail, or fail half-way.
- JSON, ISO dates, HMAC, SHA-256, base64 and HTML parsing: records are decoded and times are integers; date range errors and sub-millisecond parts, including the truncation of a window start, are not modelled.
- Lone surrogates: strings are sequences of Unicode scalar values.
- Isolation inside a transaction: each transaction is one step, but for the opening commit, and its statements share one clock reading. Rows that SKIP LOCKED passes over are covered because a claim may take any set of due rows.
- `parser_health` episodes, suppressions, push subscriptions, the `surfacedAt` stamp and the publishing of incidents: operator mail and manage links are enqueued by steps without their callers' conditions.
- Legacy `alert_deliveries` and `runPollCycle`: superseded by the outbox. `forEachConcurrent` is a one-shot form of the task queue.
- MailDrain.DrainMailOutbox: has no other dispatcher between a claim and its settlements; the runs of `RepoRuns` have them, and `MailDrain.AnsweredOnce` is about those. Concurrent state writes of one batch come one after the other; logging, push completion and message ids are not modelled.
- `SourceScheduleState` and `sourceTiming`: what they tell `handleObservation` is a parameter of `RepoState.Decide`.
- The in-memory origin control and stop store: they leave out the durability.
- The serial executor of one fence: its calls come one after the other. `inspect` of the origin control only reads.
- Display counts, names and status text of a class row: carried along by the program, read by none of the decisions here.
- HTTP handlers, configuration parsing, logging, readiness, the service worker and the web client.
- One reset at a time: two Operators resetting at once are not modelled.
- ClassKey.HumanRoundTrip: is about white space and commas; `ClassCodes.CodeReadsBack` has every separator.
- ClassCodes.CodeReadsBack: is about text in ASCII, and leaves out a token `content` where slashes separate, since the text may then be an address.
- RepoAlternation.OpeningsAlternate: is about the steps of a run; an alert row is tied to its opening by its serial and `RepoTheorems.OpeningsAreExact`.
