# Keelhaul: a verified model

Keelhaul launches bastions into customers' clouds, keeps track of which of them are alive, and tells people about it.
This project models its protocols and algorithms in Dafny and proves what they promise. `dafny verify dfyconfig.toml`
checks everything.

| module | models |
|---|---|
| `Lease` | any number of trackers competing for one etcd key: offers, renewals, expiry, lost requests and lost replies |
| `Tracking`, `Passes` | the tracking table, its batched upsert, and what a tracking pass and runs of passes do to it |
| `Tracker` | the tracker object, the store and the notifier, updated in place; each method is proved against the two above |
| `Fleet` | all trackers together: protocol steps and the calls of their passes interleaved on one table |
| `Launch` | the launch object, and the goroutines that share it as a state machine |
| `Bus` | the subscription registry, its event loop and the websocket clients that use it |
| `DeepCopy` | the reflective deep copy, over an explicit heap |
| `Routing` | subnet classification from route tables and CIDR blocks |
| `CloudFormation` | the key='value' message format and the consumer that follows a stack through a queue |
| `Connect` | waiting for a bastion to connect, with decaying delays |
| `RdsAlarms` | generating an RDS check from the instance class and the customer's alarms |

## How services are modelled

* etcd's tracker key is a register with an owner and an expiry time. A Set is three steps (sent, processed, answered),
  so a Set can be stored although the client saw an error. The client may resend a Set to another endpoint, and a Set
  whose sender gave up can be stored later. The expired key disappears in a step of its own, at any time after its TTL
  has run out.
* The tracking table is a map of rows. Every database call can fail at any time, and a call can take effect and be
  reported as failed; it takes effect at the call or not at all. Time passes between calls.
* AWS, NSQ and Slack calls are inputs or nondeterministic results. A panic in a goroutine ends the process.

## Where the code does not do what one might expect

* **Two trackers can have `isServing` set at once.** Let one tracker serve alone and then do nothing for a time d.
  Another comes to serve beside it in that time if and only if the key is vacant, or its expiry comes within d, or a
  rival has yet to read the reply to an earlier Set that was stored (`Lease.OvertakenExactly`). When the key is not a
  rival's and no such reply is in flight, that says: if and only if its own last stored Set runs out within d
  (`Lease.StallExactly`). Concrete runs: `Lease.StalledTrackerKeepsItsFlag`, and `Lease.LateReplyJoinsFreshLeader`,
  where the first tracker's grant is brand new. Exclusivity holds without any assumption for Sets that have not run out
  (`Lease.LeaseExclusion`), and for the flags in runs where no tracker serves on a Set that has
  (`Lease.LeaderIsNotDisplaced`).
* **A pass whose cutoff equals a row's last sighting flips it either way**, because the row satisfies both halves of the
  query (`Passes.BoundaryPass`). The next pass with a later cutoff settles it (`Passes.NextPassSettles`); only a second
  pass at the very same cutoff would flip it again (`Passes.RepeatedPassOnlyFlipsBoundary`).
* **A batch that lists an id without a row twice is refused**, since the primary key rejects the second insertion,
  although two batches may list it (`Tracking.NewIdTwiceIsRefused`). `Tracking.Insertable` is the exact condition
  (`Tracker.Postgres.BatchUpsert`); distinct ids are enough but not necessary.
* **Cleanup is not always entered once.** When one concurrent stage fails while the other is executing, the survivor's
  next event, be it a message or its completion, re-enters cleanup and closes a nil channel, which kills the process
  (`Launch.DyingRun`). A stopped run that failed cleaned up exactly once if and only if its first failure left no
  survivor (`Launch.FirstFailure`). The process dies at the first re-entry, so there is never a third cleanup.
* **When CreateBastion fails, the final notification dereferences a nil bastion** and the process dies
  (`Launch.FinalNotification`, concretely `Launch.NilBastionRun`).
* **Unsubscribing twice can end the bus loop** (`Bus.UnsubscribingTwiceEndsLoop`). It does so exactly when the customer
  has no live subscription left; the websocket clients never do it (`Bus.Bus.Unsubscribe`, `Bus.ClientsKeepLoopAlive`).
* **Parsing inverts printing exactly for printable entries**: no '=' or newline in a key, no newline in a value, no
  quote at either end of a value (`CloudFormation.RoundTrip`).

## Model

| member | source | states |
|---|---|---|
| Lease.LeaseExclusion | tracker/tracker.go:98-126 | For any number of trackers and any interleaving of offers, renewals, expiries, clock steps and ambiguous errors, two different trackers never both hold a Set less than one TTL old, counting Sets they know succeeded and Sets etcd stored while they saw an error |
| Lease.StepKeepsLease | tracker/tracker.go:98-126 | Every protocol step keeps the invariant: the key is exactly the youngest stored Set within its TTL, a grant that a tracker believes in was stored, and every request in flight or astray is its sender's own |
| Lease.RunKeepsLease | tracker/tracker.go:98-126 | Hence every run keeps that invariant |
| Lease.SetKeepsLease | tracker/tracker.go:48-57 | When etcd stores an offer (create if absent, or swap on the sender's own id), no other tracker is within its TTL |
| Lease.PassesFollowGrants | tracker/tracker.go:71-76 | In every run a pass starts only when its tracker's last event was a successful offer, and at least 180 s after each of that tracker's earlier passes ended |
| Lease.PassIsDueExactly | tracker/tracker.go:72-75 | In every reachable state, a tracker whose offer has just succeeded starts a pass if and only if at least 180 s have gone by since each of its earlier passes ended, and otherwise rests |
| Lease.LeaderIsNotDisplaced | tracker/tracker.go:61-126 | In runs where no tracker serves when its last stored Set is a TTL old (each renewal is stored in time, whenever its reply is read), at most one tracker serves in any reachable state, and a leader keeps serving, with nobody beside it, unless one of its own offers fails for a reason other than etcd's refusal |
| Lease.StepRenews | tracker/tracker.go:98-109 | Under that assumption no step makes a serving tracker stop, other than its own failed call: etcd never refuses its renewal |
| Lease.ServingHoldsKey | tracker/tracker.go:98-109 | In such a run a serving tracker owns the key, and its next renewal would be stored |
| Lease.PassesDoNotOverlap | tracker/tracker.go:71-76 | Under the same assumption two tracking passes never overlap, so the table has one writer at a time |
| Lease.StalledTrackerKeepsItsFlag | tracker/tracker.go:98-126 | A concrete run, without the assumption, in which two trackers have the serving flag set |
| Lease.OvertakenExactly | tracker/tracker.go:98-126 | For every reachable state in which one tracker serves alone, and every duration d: some continuation without a step of that tracker and lasting d ends with another tracker serving beside it if and only if the key is vacant, or expires within d, or a rival has yet to read that an earlier Set was stored |
| Lease.StallExactly | tracker/tracker.go:98-126 | When no rival holds the key and no such reply is in flight, that is: if and only if the tracker's own last stored Set runs out within d |
| Lease.StepKeepsBlocked | tracker/tracker.go:98-126 | While the key stays held, no rival serves and none has a stored reply to read, no step but the leader's own changes any of that |
| Lease.LateReplyJoinsFreshLeader | tracker/tracker.go:106-108 | A concrete run in which a tracker granted the key at this very moment is joined by one that reads an old reply |
| Lease.OfferServiceIsARun | tracker/tracker.go:98-126 | One call of offerService, under each fault, is a run of the protocol's steps with the same effect on the key and on the flag and none on other trackers |
| Lease.OfferExactly | tracker/tracker.go:98-126 | An offer succeeds exactly when a serving tracker still owns the key, or another finds it vacant, and nothing fails; a leader whose key has lapsed steps down. The key is then held for 60 s, also when only the reply is lost, and is otherwise unchanged |
| Tracking.BatchesRefineOneUpsert | migrations/0006_tracking_upsert.up.sql:4-22 | Folding the upsert over the batches of any division of a list leaves the same rows, customers and statuses as one upsert of the whole list; and whenever that one upsert is admitted, so is every batch in turn |
| Tracking.BatchesTouchOnlyListed | migrations/0006_tracking_upsert.up.sql:12-21 | Whatever the batches, unlisted rows are untouched, existing rows keep customer and status, and a listed bastion's row is last seen at the time of the last batch listing it |
| Tracking.UpsertConcat | migrations/0006_tracking_upsert.up.sql:12-21 | Two upserts in a row are one upsert of the concatenation, up to timestamps |
| Tracking.UpsertExactly | migrations/0006_tracking_upsert.up.sql:12-21 | For each id: an existing row is seen now if listed and otherwise unchanged, keeping customer and status; a listed id without a row gets an active row seen now, of the customer of its first pair; nothing else gets a row |
| Tracking.InsertableConcat | migrations/0006_tracking_upsert.up.sql:17-21 | If the primary key admits a list, it admits every front part, and then the rest on the table that leaves |
| Tracking.DistinctIdsAreInsertable | migrations/0006_tracking_upsert.up.sql:17-21 | Distinct bastion ids are enough for a batch to be admitted |
| Tracking.NewIdTwiceIsRefused | migrations/0006_tracking_upsert.up.sql:17-21 | A new id listed twice makes one batch inadmissible, and two batches not |
| Tracking.ListedExactly | tracker/tracker.go:144-167 | A pair is in the filtered tree list exactly when some customer node with a well-formed id holds that bastion, with a well-formed id and services that can be read and include "checker" |
| Tracking.UUIDGroups | tracker/tracker.go:25 | Five groups of 8, 4, 4, 4 and 12 characters joined by dashes are a well-formed id exactly when all are lower-case letters or digits and the third starts with 1 to 5 |
| Tracking.UUIDHasGroups | tracker/tracker.go:25 | Every well-formed id consists of such groups |
| Passes.PassUpsertsList | tracker/tracker.go:142-188 | When a pass reaches its query, its batches concatenate to the filtered tree list, each has 1 to 128 pairs and all but the last have 128, and the table is what one upsert of the whole list leaves, up to timestamps |
| Passes.PassReconciles | tracker/tracker.go:190-225 | After a pass in which everything succeeds, with cutoff c: active or inactive rows seen after c are active, those seen before c inactive, those seen at c flipped, other statuses and other columns untouched, no row added or lost |
| Passes.RepeatedPassOnlyFlipsBoundary | store/postgres.go:230-234 | If a second successful pass had the same cutoff and no new sightings, it would change no row, except that rows seen exactly at the cutoff would flip again |
| Passes.BoundaryPass | store/postgres.go:230-234 | A concrete successful pass whose cutoff is a row's last sighting: it reports the row down if it was active and up if it was inactive |
| Passes.NextPassSettles | store/postgres.go:230-234 | A second successful pass with nothing newly seen, at any cutoff, reconciles what the first one left; at a later cutoff every row seen at the first cutoff or before is not active afterwards, and rows seen before it do not change again |
| Passes.NoFalseDown | tracker/tracker.go:165-207 | A bastion listed with a checker is neither reported down nor written inactive by that pass when the last batch listing it is later than the query's cutoff, and it stays active (or becomes active, when new), whatever else fails |
| Passes.NoFalseDownInTime | store/postgres.go:230-234 | The same in the code's terms: for a bastion that the tree lists with a checker, when the query runs less than 3 minutes after the last batch listing it |
| Passes.FailedBatchStopsPass | tracker/tracker.go:172-187 | A failed batch is the pass's last call: no query, no notification, no write, and no status changes |
| Passes.TransitionsEffect | tracker/tracker.go:195-225 | The status changes of a pass touch pending rows only, and only their status; a pending row flips exactly when its own write was stored, whatever fails for the others |
| Passes.PassFlipsWritten | tracker/tracker.go:190-225 | After any pass that made its query, whatever fails: a row is flipped exactly when its own write was stored, only rows pending at the cutoff are written, every other row and column is as the query found it, and without failures every pending row is written |
| Passes.TransitionsShape | tracker/tracker.go:195-225 | After the query there are only notifications and writes, for pending bastions, of the polarity opposite to their status, and each write directly follows its own successful notification |
| Passes.RunNotifiesFirst | tracker/tracker.go:195-221 | Over every run of passes by one writer, each status write directly follows a successful notification of the same bastion and polarity, and each write that takes effect changes the status it finds |
| Passes.ChangesAlternate | tracker/tracker.go:195-221 | Over every such run, successive status changes of one bastion alternate between up and down |
| Passes.ChangesNeverOutnumberNotices | tracker/tracker.go:195-221 | Over every such run, status changes never outnumber successful notifications |
| Fleet.PassIsARun | tracker/tracker.go:128-226 | The calls of any pass trace, hence those of the tracker object, are a run of the fleet after which the pass can end |
| Fleet.FleetIsOneWriter | tracker/tracker.go:61-226 | In every timely run of any number of trackers, with the calls of their passes interleaved in any way and each pass deciding by what its own query found, the finished passes of all trackers form a run of passes by one writer, and the table is the replay of all calls |
| Fleet.FleetNotifiesFirst | tracker/tracker.go:195-221 | In every run of any number of trackers, timely or not: among the calls of each pass, finished or in progress, each status write directly follows its own successful notification, and over all trackers status changes never outnumber successful notifications |
| Fleet.StepKeepsNotifyInv | tracker/tracker.go:195-221 | Every step keeps this, with a successful notification in hand for each pass that is about to write |
| Fleet.FleetWritesFlip | tracker/tracker.go:195-221 | In timely runs, over the calls of all trackers in order, each write directly follows its own successful notification, and each write that takes effect changes the status |
| Fleet.FleetChangesAlternate | tracker/tracker.go:195-221 | And in timely runs successive status changes of one bastion alternate, whichever trackers make them |
| Fleet.StepKeepsInv | tracker/tracker.go:61-226 | Every protocol step and every call keeps this: at most one pass is in progress, and it has met exactly the table that the finished passes and its own calls leave |
| Tracker.Postgres.BatchUpsert | migrations/0006_tracking_upsert.up.sql:4-22 | The update and the insertion loop leave exactly the specified upsert, and fail, leaving the table alone, exactly when an id without a row is listed twice |
| Tracker.Postgres.UpdateTrackingSeen | store/postgres.go:138-150 | Both slices are rewritten in place into casts and nothing beyond them is; the table becomes the upsert of the pairs as they were before the rewriting, or stays as it was; success is never reported for an upsert that was not stored |
| Tracker.CastReadsBack | store/postgres.go:139-142 | The database reads back from a rewritten entry the id that was there |
| Tracker.Postgres.GetPendingTrackingStates | store/postgres.go:230-245 | The result lists, each once, exactly the active rows seen at or before now less 3 minutes and the inactive rows seen at or after it, with their current columns |
| Tracker.Postgres.UpdateTrackingState | store/postgres.go:247-262 | Sets the status of the one row with that id and nothing else; updating no row is reported as an error |
| Tracker.Tracker.OfferService | tracker/tracker.go:98-126 | The key and the serving flag become what the protocol says for each fault: renewal by compare-and-swap when serving, creation when not, and the flag true exactly when the Set is seen to succeed |
| Tracker.Tracker.Tick | tracker/tracker.go:71-76 | One tick: a pass runs exactly when the offer succeeded and there was no earlier pass or 180 s have gone by since it ended; it starts with the key freshly granted to this tracker; otherwise the table and the log are untouched |
| Tracker.Tracker.UpdateSeen | tracker/tracker.go:128-226 | The calls updateSeen makes form a pass trace for its tree and table, and the table it leaves is the replay of that trace |
| Tracker.Tracker.SendSightings | tracker/tracker.go:142-188 | The nested loops send batches that concatenate to the filtered tree list when all succeed, and to a front part of it ending in the failed batch otherwise; the batches hold what was appended, although the store rewrites each batch's slices in place |
| Tracker.Tracker.AddSighting | tracker/tracker.go:169-179 | Appending a pair loses and repeats nothing; a full batch is sent and the next one uses new slices |
| Tracker.Tracker.Reconcile | tracker/tracker.go:190-226 | After the batches, the query and what follows it complete a pass trace |
| Tracker.Tracker.UpdateStates | tracker/tracker.go:195-225 | The final loop performs, for each pending state in turn, a notification of the change and then, only if that succeeded, the write |
| Launch.StepKeepsInv | launcher/launch.go:316-340 | Every step of the driver, of both concurrent stages and of the watcher keeps the launch invariant: counter plus completions is three, cleanups and close agree with the counter and the failures, and each cleanup attempts to delete exactly the resources recorded |
| Launch.RunKeepsInv | launcher/launch.go:248-340 | Hence every run keeps the launch invariant |
| Launch.ErrorFreeLaunch | launcher/launch.go:248-264 | In every failure-free run, for every interleaving of discovery and connect: counter plus completions is three and never negative, cleanup has happened exactly when the counter is zero, once, the channel is closed exactly then, and the one drained pool holds every discovered target |
| Launch.SuccessIsFinal | launcher/launch.go:316-340 | The completion that cleans up is the last event: nothing afterwards sends, adds a target, cleans up again or changes the launch |
| Launch.CompleteMeansAllDone | launcher/launch.go:266-279 | State reports complete exactly when activation, discovery and connection have all succeeded without an error, and failed exactly when an error is on record |
| Launch.FailureIsPermanent | launcher/launch.go:308-335 | After a failure the launch stays failed in every continuation, and no later pipeline stage is entered |
| Launch.LoneFailureCleansUpOnce | launcher/launch.go:337-413 | After a failure with no other stage executing, in every continuation: one cleanup, channel closed and never closed again, no drain, one attempt to delete the topic and the queue exactly when recorded, and one to mark the bastion failed exactly when it exists |
| Launch.CleanupUndoesWhatWasMade | launcher/launch.go:366-413 | In every run: each cleanup has tried to delete the topic exactly when the third stage succeeded and the queue exactly when the fourth did, and to mark the bastion failed exactly when CreateBastion succeeded and something failed; a failed launch leaves the bastion failed, and without a failure it is active exactly when the eleventh stage succeeded |
| Launch.SettledRunCleansUpOnce | launcher/launch.go:366-413 | So a launch that completed, or failed with no other stage executing, has cleaned up once, tried once to delete the topic and the queue if and only if they were created, and a completed one has created both |
| Launch.StagesInTurn | launcher/launch.go:248-264 | The eleven stages are entered in their order, each at most once, and all have succeeded when the concurrent stages start or the launch completes without a failure |
| Launch.ProgressInTenthStage | launcher/launch.go:259 | Stack messages are reported exactly while the tenth stage runs, after nine successes |
| Launch.EventsAreSent | launcher/launch.go:325-327 | In every run the watcher receives every event announced up to the one that closes the channel, once and in order, and none after it |
| Launch.PipelineFailuresAreLone | launcher/launch.go:217-264 | Every failure in CreateBastion or in a sequential stage is of that kind |
| Launch.FirstFailure | launcher/launch.go:316-340 | For the first failure of any run: cleanups are one plus the events handled afterwards, of which there is at most one, and that one kills the process; a run that has stopped cleaned up exactly once if and only if the failure left no concurrent stage executing |
| Launch.DyingRun | launcher/launch.go:366-370 | Complete runs, from the start, in which discovery fails after connect has polled, and connect's next event, a waiting message in one run and its completion in the other, re-enters cleanup and closes the nil channel |
| Launch.FinalNotification | launcher/launcher.go:67-77 | The watcher publishes in order and is at most one event behind; the final notification comes after the close and after every event was published, says error exactly when the launch failed, and panics exactly when CreateBastion failed |
| Launch.NilBastionRun | launcher/launch.go:199 | The concrete run: CreateBastion fails, the error is published, and the final notification dereferences the missing bastion |
| Launch.Launch.HandleEvent | launcher/launch.go:316-340 | One locked call, on the object: the event is sent if the channel is there, the error sticks, the counter goes down on completion, and cleanup runs when the counter is zero or an error is on record; the new state is the state machine's |
| Launch.Launch.Cleanup | launcher/launch.go:366-420 | Drain, deletions, failure mark and the deferred close, which panics when the channel is already nil |
| Bus.Bus.Subscribe | bus/bus.go:80-86 | The registry afterwards refines the flat set of live subscriptions, the new subscription among them, with the histories of all subscribers kept |
| Bus.Bus.Unsubscribe | bus/bus.go:88-102 | A live subscription is removed and its channel closed, never a second time; the registry refines the remaining set, without empty entries; the loop ends if and only if the customer had no live subscription |
| Bus.Bus.Handle | bus/bus.go:104-110 | Every subscriber's received messages are again what the history says: exactly the customer's live subscribers got the message, once, and no closed channel was sent to |
| Bus.Bus.HandleMessage | bus/bus.go:145-162 | A message that does not decode or lacks its customer or command is dropped; any other is handled |
| Bus.FanOut | bus/bus.go:107-109 | Each subscriber of the entry is sent the message exactly once, in whatever order |
| Bus.EntryAdded | bus/bus.go:81-86 | Inserting under the customer's id, making the inner map if needed, refines adding to the flat set |
| Bus.EntryRemoved | bus/bus.go:89-102 | Deleting from the inner map, and dropping it when empty, refines removing from the flat set; a customer has an entry exactly when it has a live subscription |
| Bus.DeliveredBetween | bus/bus.go:80-110 | A subscriber is delivered exactly the messages for its customer handled between its subscribe and its unsubscribe, once each and in order, none before, none after and none for other customers |
| Bus.WhileSubscribed | bus/bus.go:104-110 | While live, a subscriber's history grows by exactly the messages handled for its customer |
| Bus.ClientsKeepLoopAlive | service/websocket.go:106-182 | Any number of clients that subscribe once and unsubscribe once, interleaved with any messages, never end the loop and only ever unsubscribe live subscriptions |
| Bus.UnsubscribingTwiceEndsLoop | bus/bus.go:89-92 | Subscribe, unsubscribe, unsubscribe: the first unsubscribe leaves the loop running and the second ends it |
| DeepCopy.Memory.RCopy | util/copy.go:39-103 | The recursive copy terminates on acyclic values, changes no earlier cell, and leaves the destination looking like the merge of destination and source; it reaches only what the destination reached and new cells |
| DeepCopy.Memory.CopyPointer | util/copy.go:45-61 | A non-nil pointer gets a new cell with a copy of the target |
| DeepCopy.Memory.CopyStruct | util/copy.go:62-71 | Field by field in the destination's order; fields the source lacks keep their value |
| DeepCopy.Memory.CopySlice | util/copy.go:72-81 | A new backing array filled with copies, element by element |
| DeepCopy.Memory.CopyMap | util/copy.go:82-94 | A new table with a copy of each value, key by key in any order |
| DeepCopy.Memory.CopyOf | util/copy.go:28-33 | The result looks like the source, the source and every earlier cell are unchanged, and every cell reachable from the result is new; a nil source gives the zero value |
| DeepCopy.Memory.Copy | util/copy.go:17-24 | Copying over an existing destination changes that cell only, to the merge of what was there and the source; the source looks the same afterwards and still does not reach the destination |
| DeepCopy.Memory.CopyTwice | util/copy.go:17-24 | Whenever one copy is allowed so is a second one, and the destination then looks as it did after the first |
| DeepCopy.CopyOverZero | util/copy.go:28-33 | Merging any source over the zero value of its type gives exactly the source |
| DeepCopy.CopyIsIdempotent | util/copy.go:39-103 | Merging the same source a second time changes nothing, for every destination and source |
| DeepCopy.CopyAtEveryPath | util/copy.go:39-103 | At every path of field names the destination afterwards has what the source has there, if that is not nil and can be assigned, and otherwise what it had |
| DeepCopy.MergeStillFits | util/copy.go:45-88 | What could be copied over without a panic can be copied over again |
| DeepCopy.CopyKeepsAbsentFields | util/copy.go:62-85 | Fields that the source lacks or holds nil in keep the destination's value |
| DeepCopy.Frame | util/copy.go:39-103 | A value looks the same in any heap that keeps the cells it reaches |
| DeepCopy.SelfFree | util/copy.go:39-103 | The content of a cell that can be followed to an end does not lead back to the cell |
| Routing.DetermineRouting | scanner/scanner.go:153-248 | The class is that of the last table associated with the subnet, else of the last main table, else private |
| Routing.ClassifyTable | scanner/scanner.go:183-247 | The loops over routes, blocks, addresses and gateways compute the declarative class of a table |
| Routing.Reach | scanner/scanner.go:209-220 | The coverage map ends up as the set of addresses that lie in the range of some block, unless a block does not parse |
| Routing.ContainsExactly | scanner/scanner.go:216 | A block of prefix length n contains exactly the 2^(32-n) addresses (sizes given as numbers) from its address rounded down to a multiple of that size |
| Routing.PrefixesNest | scanner/scanner.go:216 | Length 0 contains every address, length 32 only its own, and a shorter prefix everything a longer one does |
| Routing.OcclusionTest | scanner/scanner.go:222-247 | With an active default route (the last if several) and parseable blocks, the occlusion test passes if and only if the addresses are distinct and each lies in the range of an active block; the class then depends only on the default route |
| Routing.PublicSubnet | scanner/scanner.go:209-242 | An instance at 10.1.2.3 behind a local route to 10.0.0.0/8 and a default route to an internet gateway is public |
| Routing.CoveredCount | scanner/scanner.go:208-226 | Counting covered addresses reaches the number of addresses if and only if they are distinct and all covered |
| Routing.PrivateExactly | scanner/scanner.go:183-213 | A table makes the subnet private exactly when it has no active default route, even with unparseable blocks, and the scan fails exactly when there is one and another active block does not parse |
| Routing.AddingRouteNeverOccludes | scanner/scanner.go:183-226 | Adding an active well-formed non-default route anywhere never occludes a subnet, nor changes the class of one that was not occluded |
| Routing.ChosenExactly | scanner/scanner.go:162-181 | With at most one main table and one for the subnet, the subnet's own table is used, and the main one exactly when the subnet has none |
| Routing.ChosenIsLast | scanner/scanner.go:162-181 | In general the last table associated with the subnet is used, without one the last main table, and without either none |
| Routing.TableOrderDoesNotMatter | scanner/scanner.go:162-176 | With at most one main table and one for the subnet, the chosen table does not depend on the order of tables |
| Routing.RouteOrderDoesNotMatter | scanner/scanner.go:183-247 | With at most one active default route, the class does not depend on the order of routes, addresses or gateways |
| Routing.OrderDoesNotMatter | scanner/scanner.go:153-248 | Both together, for the whole classification |
| CloudFormation.ParseCloudFormation | launcher/stage_cloudformation.go:680-696 | The loop over lines computes the specified map, or an error when it stays empty |
| CloudFormation.RoundTrip | launcher/stage_cloudformation.go:680-696 | Printing a non-empty map and parsing it gives the map back if and only if every entry is printable |
| CloudFormation.PrintedLines | launcher/stage_cloudformation.go:681-689 | Parsing printed entries on top of any fields overrides exactly those keys, the last entry for a key winning |
| CloudFormation.ParsedIsPrintable | launcher/stage_cloudformation.go:681-689 | Every field that parsing produces is printable, whatever the message |
| CloudFormation.DuplicatesAndNoise | launcher/stage_cloudformation.go:682-688 | The last of several lines for one key counts, and a line without '=' changes nothing |
| CloudFormation.OneLine | launcher/stage_cloudformation.go:683-688 | The line key='value' parses to that one field |
| CloudFormation.ConsumeSQS | launcher/stage_cloudformation.go:546-642 | The two receive loops amount to reading one stream, the concatenation of the batches, message by message until the first outcome |
| CloudFormation.FirstDecisiveMessageDecides | launcher/stage_cloudformation.go:607-632 | The first message whose fields name this customer's stack with CREATE_COMPLETE or ROLLBACK_COMPLETE decides, whatever follows; a rollback gives the reason of the latest earlier CREATE_FAILED message (empty if none); every message up to it is deleted exactly once and none after it, and every earlier text was reported |
| CloudFormation.PrintedStackDecides | launcher/stage_cloudformation.go:592-632 | The same from the text of the message to the outcome: printed entries saying that the stack was created complete the stage with those entries, and entries saying that it was rolled back fail it |
| CloudFormation.OthersDecideNothing | launcher/stage_cloudformation.go:668-677 | The same statuses for another resource type or another stack decide nothing |
| CloudFormation.ReasonOfLastFailure | launcher/stage_cloudformation.go:608-610 | The reason is the one given by the last printed failure, and empty without a failure |
| CloudFormation.BadMessageFails | launcher/stage_cloudformation.go:571-605 | A message that cannot be decoded, deleted or parsed fails the stage; only in the last case has it been deleted |
| CloudFormation.Undecided | launcher/stage_cloudformation.go:567-639 | Until then every message is deleted once, in order, every text is reported, and the latest failure reason is remembered |
| CloudFormation.NothingDecisiveWaits | launcher/stage_cloudformation.go:557-641 | A stream without a decision leaves the stage polling, or failed exactly when a receive fails, with every message deleted once |
| CloudFormation.BoundariesDoNotMatter | launcher/stage_cloudformation.go:557-567 | Merging or splitting batches anywhere changes nothing |
| Connect.WaitConnect | launcher/stage_connect.go:19-55 | At most 50 polls; it connects at the first positive poll, times out only after 50 negative ones, and has slept after each negative poll |
| Connect.DelaysNeverGrow | launcher/stage_connect.go:57-65 | Delays are non-increasing, at least 5 s and at most 60 s |
| Connect.TotalSleepBound | launcher/stage_connect.go:52-65 | For every n the first n delays sum to at most 540(1 - 0.9^n) + 5n seconds |
| Connect.SleepBeforeFloor | launcher/stage_connect.go:57-65 | Up to the 23rd attempt the sum is exactly the geometric series |
| Connect.SleepAfterFloor | launcher/stage_connect.go:57-65 | From the 24th attempt on each delay is exactly 5 s |
| Connect.TimeoutIsUnderElevenMinutes | launcher/stage_connect.go:11-65 | A launch that times out has slept less than 11 minutes |
| RdsAlarms.Generate | autocheck/rds_cloudwatch.go:28-129 | The assertions are those specified by the class and the alarms, first of all CPU below the last matching threshold or 95, and metrics and assertions have the same length and the same name at each index |
| RdsAlarms.DefaultsByPosition | autocheck/rds_cloudwatch.go:42-110 | CPU below its limit; then connections below theirs and free memory above its own, each exactly when its limit is positive; then the imported ones. The limits are those of the last matching alarm, or 95, or 0.85 and 0.1 of what the class memory gives |
| RdsAlarms.ImportsByPosition | autocheck/rds_cloudwatch.go:112-128 | One assertion per imported average, in order, with its threshold; greaterThan for GreaterThanThreshold and GreaterThanOrEqualToThreshold, lessThan otherwise |
| RdsAlarms.ChecksWithoutAlarms | autocheck/rds_cloudwatch.go:42-110 | The whole check of a db.t2.micro without alarms, and of an unknown class, which has the CPU assertion only |
| RdsAlarms.SomeClasses | autocheck/rds_cloudwatch.go:153-208 | The memory of four classes in bytes, and none for a class that is not listed |
| RdsAlarms.ReadAlarms | autocheck/rds_cloudwatch.go:51-73 | The alarm loops leave, for each default metric, the threshold of the last matching alarm, and import the other matching alarms in order |
| RdsAlarms.ReadAlarm | autocheck/rds_cloudwatch.go:52-71 | One alarm overrides at most its own metric's threshold, or is imported once per dimension naming the instance |
| RdsAlarms.AddImported | autocheck/rds_cloudwatch.go:112-129 | One assertion per imported alarm on an average, in order, keeping metrics and assertions paired |
| RdsAlarms.FilterAlarms | launcher/stage_discovery.go:186-196 | Keeps exactly the alarms of the namespace, in order |
| RdsAlarms.FilteredExactly | launcher/stage_discovery.go:186-196 | Wherever an alarm stands, it is kept there exactly when it is of the namespace |
| RdsAlarms.FilteringChangesNothing | launcher/stage_discovery.go:81-86 | Generating from the alarms filtered to AWS/RDS gives the same assertions as generating from all of them |
| RdsAlarms.LastMatchingAlarmWins | autocheck/rds_cloudwatch.go:52-71 | A matching alarm with no later match for its metric sets the threshold, wherever it stands |
| RdsAlarms.NoMatchFallsBack | autocheck/rds_cloudwatch.go:42-73 | Without a matching alarm the default threshold stands |
| RdsAlarms.HitsCount | autocheck/rds_cloudwatch.go:56-70 | An alarm is imported once for each of its dimensions that names the instance |
| RdsAlarms.ImportsKeepOrder | autocheck/rds_cloudwatch.go:112-129 | Imported averages of an earlier part of the list come before those of a later part |
| RdsAlarms.ImportsExactly | autocheck/rds_cloudwatch.go:52-129 | An alarm is imported exactly when it is on this instance, on no default metric, and on an average |

## Left out

- Passes.RunNotifiesFirst: one writer at a time is assumed; `Fleet.FleetNotifiesFirst` and `Fleet.FleetWritesFlip` do
  without.
- Fleet.FleetIsOneWriter: a database call takes effect when it is made or not at all. A statement whose connection broke
  could commit later, during another tracker's pass; that is not modelled.
- Tracker.Postgres.UpdateTrackingSeen: the SQL text around the casts is not modelled. An id that passes the tracker's
  pattern but is not hexadecimal would fail the UUID cast; that is one of the failures the call may always report.
- Tracker.Tracker.UpdateSeen: the tree is given in decoded form (services are None when they do not decode), and a
  notification is its bastion, its polarity and whether it succeeded.
- Lease.LeaderIsNotDisplaced: assumes timely renewals as stated; nothing bounds how long a call or a pass takes.
- Launch.Launch.Cleanup: deleting the topic and the queue and marking the bastion failed are attempts; their failures
  are only logged, and are left out.
- Launch.Launch.HandleEvent: the receiver of the unbuffered channel is not in the object; the state machine has it.
- Launch.DyingRun: stage bodies other than the queue consumer, discovery and connect are one success or one failure;
  bastionActiveState dereferencing a missing group id is not modelled.
- Launch.FinalNotification: the contents of NotifyVars and of messages are left out.
- Bus.Bus.Handle: a send never blocks here. A subscriber that has left its loop can block the real loop; safety and
  histories are proved, progress is not.
- DeepCopy.Memory.RCopy: covers exported fields, pointers, structs, slices, maps and scalars. Interfaces, arrays,
  readers, unexported fields, destinations of another pointer or map type (where reflection panics), slices that share
  part of a backing array and spare capacity are excluded.
- Routing.DetermineRouting: blocks and addresses arrive parsed; text that does not parse is kept as such. IPv6 is left
  out, and so is the distinction between texts of the same address.
- CloudFormation.ConsumeSQS: consumes the batches that have arrived and reports that it is still waiting after them;
  the rollback reason is a plain string rather than a format.
- Connect.WaitConnect: durations are exact reals; rounding to floating point and to nanoseconds is left out.
- RdsAlarms.FilterAlarms: an alarm always has a namespace here; filterAlarms dereferences it where Generate tolerates
  its absence.
- RdsAlarms.Generate: thresholds are reals and operands numbers; rounding and decimal formatting are left out, and so
  are the missing-instance error and the check's name, interval and target.
- The counting loop of ScanRegion, the error budget and counters of discovery, fetching alarms, and the autocheck pool's
  targets and sink: they add only easy members.
- EC2 and load balancer autochecks, image selection, the bastion's configuration, SNS and SQS setup: each is one success
  or one failure of its stage.
- Listing queries of the store, configuration, templates, user data, authentication, Slack and email rendering.
