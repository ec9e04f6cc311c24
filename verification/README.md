# Kaspar: order book, slippage probe and actor runtime, verified

Kaspar replays a CME MDP 3.0 Market-by-Order feed into an order book, rests our own
simulated ("sim") orders in the same queues, and measures what executing a parent order
costs. This project models its four hardest parts in Dafny and proves what they promise.

**The order book** (`Levels`, `Book`, `OB`). `Book` gives the book as a function of its
events: feed records (New, Change, Delete, with the snapshot flag), released executions,
channel resets, status changes and messages of our own order manager. `OB` is the same book
as an object with the program's loops: sweeping crossed levels, walking the inside prices,
scanning the latency queue. Each of its methods is proved against the function of `Book`.
`repair` is the live mode (`do_cross_check=false`), otherwise the book simulates. A failed
assertion of the program sets `dead`. On top of `Book`:

- `NonInterference`: erasing everything of ours from any run leaves the same real market.
- `BookPrices`: on any feed real orders stay within the walked inside prices, queues keep
  their order and, live, the book is never crossed.
- `BookIndex`: `ordermap`, the queues and the walked inside prices stay in step.
- `QueuePosition`: our place in a queue never gets worse, and exactly what an execution fills.
- `Effects`: what each operation does to every queue and to our reports, in terms of the
  orders that rest before and after it: where an order of ours fills or rests, how far an
  arriving order sweeps, which of our orders an execution fills and in which order.
- `Records`: which feed records keep, lose or give an order its place, and exactly which end
  the process.
- `Limits`: no order of ours is ever filled at a price worse than its limit.
- `Conservation`: every lot we order is filled, cancelled, resting, queued or refused.
- `LatencyQueue`: our messages take effect in arrival order, never early and never late.
- `StraySims`: none of our orders rests across the inside.
- `FeedGate`: the time gate in front of the book, and what passes it.

**The reference market** (`RefBook`, `Refinement`, `Obcmp`). `RefBook` is the much simpler
book of obcmp, as functions and as an object that erases while it iterates. `Refinement`
proves that the live order book and the reference market agree on every proper feed;
`Obcmp.Compare` runs the two objects side by side.

**The slippage probe** (`Probe`, `ProbeTheorems`, `ProbeClock`, `ProbeHistory`, `SlippageProbe`):
windows, legs, work handed out and filled, two clocks, and the time-integrated inventory. Rows
written, window starts and the time integrated are kept as traces. `ProbeClock` says which session
an alarm measures and which windows it ends and opens; `ProbeHistory` tells every total, open window
and row of a run from its events alone.

**The actor runtime** (`LockProtocol`, `LockCycles`, `Mailbox`, `DispatchTable`, `PoolSizing`,
`Pool`, `PoolTheorems`, `PoolCalls`, `Owner`): the per-actor lock as interleaved steps of threads
with call stacks, the mailbox and its two drains, handler caches, and the three-tier message pool
as interleaved steps of threads that allocate, free and exit, driven by owning message boxes.

Results that contradict what one might expect of the code, each with its exact condition and most
with a run that reaches it (`Witnesses`, `PoolWitness`):

- A snapshot that re-sends a held order with another price, size or side breaks the index,
  and nothing else a feed sends does (`BookIndex.GoodStep`; `Witnesses.ResendBreaksIndex`).
- A size-reducing Change of an order the live book has already crossed out makes the book
  and the reference market disagree (`Refinement.StaleChangeDisagrees`;
  `Witnesses.StaleChangeReached`).
- A snapshot or channel reset in mid-session empties the order book and not the reference
  market, and a New of a known order is ignored by one and replaced by the other
  (`Refinement.SnapshotAgreesIff`, `Refinement.ResetAgreesIff`, `Refinement.DuplicateAgreesIff`;
  `Witnesses.SnapshotReached`, `Witnesses.ResetReached`, `Witnesses.DuplicateReached`).
- One of our orders that arrives on a locked or crossed book can rest across the inside
  (`StraySims.AppliedKeepsIff`; `Witnesses.StrayReached`).
- The probe aborts when, at an alarm that opens a window, it counts so many more fills of a side
  than the side's position book that the parents handed out leave nothing to do
  (`ProbeTheorems.EveryRun`, `ProbeTheorems.OpenAbortsIff`); a book that hears of an overfill only
  after the next alarm can bring that about (`ProbeTheorems.LateBookAborts`).
- A record the time gate drops still reaches the reference market (`Obcmp.DroppedAgreesIff`).
- A thread's pool list can hold one block more than twice the cache size, inside a free
  (`PoolWitness.FullListReached`); the growth bound is stated for calls one at a time, where it
  does not matter, and interleaved, where it does.
- Handler caches pick the wrong handler exactly when two types that share an id differ in
  their handlers (`Mailbox.CachesTransparentIff`, `Mailbox.SecondGetsFirst`), and a late
  registration is missed exactly when its id was already cached (`Mailbox.LateRegistrationIff`).

The comment of `actors/cpp/include/actors/BQueueBatched.hpp` says the actor lock is held
across a whole batch. `actors/cpp/Actor.cpp` takes it once for each message; the model
follows the code.

`dafny verify dfyconfig.toml` checks the project.

## Model

| member | source | states |
|---|---|---|
| `NonInterference.EraseStep` | frame_kaspr/src/OB.cpp:1508-2743 | one event, in both modes: erasing our orders commutes with the step, and our own message changes nothing real |
| `NonInterference.SameRealBook` | frame_kaspr/src/OB.cpp:886-912 | every run with our messages, erased, equals the run of the market events alone |
| `NonInterference.SameMarket` | frame_kaspr/src/OB.cpp:2661-2743 | same real queues, `ordermap`, best bid, best ask and transaction boundary after every run |
| `BookIndex.BookInvariant` | frame_kaspr/src/OB.cpp:3087-3122 | after every run: real orders on the ladder and within the walked insides, each inside holds a real order or is at its stop, book ids rise along every queue; and if no snapshot contradicted a resting order, every resting order is described by its entry (in simulation exactly) |
| `BookPrices.NeverCrossed` | frame_kaspr/src/OB.cpp:570-748 | live, on any feed: no reachable real bid at or above a real ask, with the walked insides strictly between |
| `BookPrices.PricesInvariant` | frame_kaspr/src/OB.cpp:3087-3122 | the price and queue clauses of that invariant, for every feed |
| `BookPrices.StepSane` | frame_kaspr/src/OB.cpp:1508-2408 | one event keeps prices, queue order and fresh book ids, whatever `ordermap` says |
| `BookIndex.GoodStep` | frame_kaspr/src/OB.cpp:2046-2408 | an event keeps the whole invariant if and only if it is not a snapshot contradicting a resting order |
| `BookIndex.GoodResend` | frame_kaspr/src/OB.cpp:2068-2082 | a re-sent held order keeps the index exactly when price, size and side agree or the order no longer rests |
| `BookIndex.GoodRun` | frame_kaspr/src/OB.cpp:1508-2408 | the invariant over every run with such snapshots absent |
| `BookPrices.AddBuyPrices` | frame_kaspr/src/OB.cpp:753-825 | an arriving bid keeps the insides bounding the real orders and, live, leaves the book uncrossed |
| `BookPrices.AddSellPrices` | frame_kaspr/src/OB.cpp:826-884 | the same for an arriving offer |
| `BookIndex.AddIndex` | frame_kaspr/src/OB.cpp:2105-2136 | a New adds exactly its own entry to the index |
| `BookIndex.CancelIndex` | frame_kaspr/src/OB.cpp:2356-2408 | a Delete removes exactly its own order |
| `BookIndex.ResizeIndex` | frame_kaspr/src/OB.cpp:3382-3420 | a size decrease changes its order in place and nothing else |
| `BookPrices.EditPrices` | frame_kaspr/src/OB.cpp:1272-1294 | the inside walk of `mod` restores the bounds after a level loses its orders |
| `BookPrices.InsideUncrossed` | frame_kaspr/src/OB.cpp:811-864 | on an uncrossed book the walked insides lie strictly between every real bid and every real ask |
| `Conservation.LotsConserved` | frame_kaspr/src/OB.cpp:395-521 | ordered = filled + cancelled + resting + queued + refused, for every order id and run |
| `Conservation.EndsOnce` | frame_kaspr/src/OB.cpp:3382-3420 | an order ends at most once, and once ended it neither rests nor waits |
| `Conservation.LateCancelRejected` | frame_kaspr/src/OB.cpp:2506-2592 | whichever message of a scan it is, after any run, a timed cancel of an order ended by then yields one reject and changes nothing else |
| `Conservation.EndedCancelRejected` | frame_kaspr/src/OB.cpp:1021-1052 | the same on any book that accounts for the order once, timed or not |
| `Conservation.StepTotal` | frame_kaspr/src/OB.cpp:1314-1361 | one event changes an order's total only by what we newly order |
| `Conservation.RunTotal` | frame_kaspr/src/OB.cpp:1871-1923 | the total over a run is what was ordered |
| `QueuePosition.AheadNeverRises` | frame_kaspr/src/OB.cpp:2266-2355 | over any later events the number of real orders ahead of a resting sim order does not rise |
| `QueuePosition.ExecOutcome` | frame_kaspr/src/OB.cpp:1237-1254 | an execution record of size n after any run: on the book left by the messages it first releases it fills exactly min(n, sim size ahead of the head real order), and only sim orders with no real order ahead |
| `QueuePosition.ExecFillsExactly` | frame_kaspr/src/OB.cpp:1314-1361 | the same for one level, with the case where the executed order is not the head |
| `QueuePosition.ExecFillsFront` | frame_kaspr/src/OB.cpp:1337-1361 | every fill of an execution goes to a held sim order at the front, at the level's price |
| `QueuePosition.EvolvesStep` | frame_kaspr/src/OB.cpp:1508-2408 | one event keeps the relative order and positions of everything resting |
| `QueuePosition.PositiveRun` | frame_kaspr/src/OB.cpp:1337-1361 | no sim order ever rests with no size |
| `Effects.SimArrives` | frame_kaspr/src/OB.cpp:446-509 | an order of ours on the ladder fills in full at the other inside, changing no queue, exactly when it reaches it on an open book; otherwise it is last at its own level and nothing is reported |
| `Effects.SimCancelled` | frame_kaspr/src/OB.cpp:1021-1052 | a cancel of ours takes its order off the level it names and acknowledges what was left, or is rejected; nothing else moves |
| `Effects.RealArrives` | frame_kaspr/src/OB.cpp:543-917 | an arriving real order joins the back of its level; every level of the other side beyond its price and its own side stay, in simulation real orders too, and each report is a full fill of an order of ours within its price at that order's own price |
| `Effects.SweepReach` | frame_kaspr/src/OB.cpp:571-599 | an order of ours on the other side leaves exactly when the arrival improves its own side, or live meets the other, and passes the order's level |
| `Effects.SweepsNearestFirst` | frame_kaspr/src/OB.cpp:571-748 | the sweep fills the nearest level first and, within a level, the order that stands first |
| `Effects.Executes` | frame_kaspr/src/OB.cpp:1153-1361 | an execution of the head real order fills our orders ahead of it from the back, each in full before the next; of any other order it does nothing |
| `Effects.BackIsFilled` | frame_kaspr/src/OB.cpp:1314-1361 | the walk over our orders splits the queue: all behind some order filled in full, last first, the rest of the size out of that order |
| `Limits.FillsWithinLimit` | frame_kaspr/src/OB.cpp:446-509 | over every run each reported fill is of an order of ours that took effect, no worse than its limit, and every order of ours rests at its limit |
| `Records.NewJoins` | frame_kaspr/src/OB.cpp:2098-2136 | a New of an unknown order joins the back of its level under the next book id, on the book our due messages leave |
| `Records.ChangeLosesPlace` | frame_kaspr/src/OB.cpp:2260-2355 | a Change that asks for more or for another price takes the order out of its queue and puts it last at its target level under the next book id |
| `Records.ChangeGivesWay` | frame_kaspr/src/OB.cpp:2260-2355 | after such a Change an order of ours that stood behind it has one real order less ahead, and one that stood in front as many as before |
| `Records.ChangeKeepsPlace` | frame_kaspr/src/OB.cpp:2266-2355 | any other Change sets the size in place: same id, same position, nothing else moves |
| `Records.DeleteTakesOut` | frame_kaspr/src/OB.cpp:1578-1612 | a Delete, and a Change to a price off the ladder, take exactly their order out of its queue and out of `ordermap` |
| `Records.RunDescribes` | frame_kaspr/src/OB.cpp:2046-2408 | along every run without a contradicting snapshot these apply: an entry whose order rests describes it, alone with its book id, and in simulation every entry's order rests |
| `Records.ProcessDiesIff` | frame_kaspr/src/OB.cpp:2640-2743 | what reaches the queues ends the process exactly when, in simulation with matching on, it begins a new transaction on a crossed book, or has no size; otherwise the boundary is the latest time |
| `Records.NewDiesIff` | frame_kaspr/src/OB.cpp:2056-2136 | a New ends the process exactly when it has no side or size or meets a crossed book at a boundary, and a re-sent one when it has a size and no side |
| `Records.ChangeDiesIff` | frame_kaspr/src/OB.cpp:2237-2355 | a Change exactly when it meets a crossed book at a boundary, has no size, grows without a side, or grows or moves on the other side |
| `Records.DeleteDiesIff` | frame_kaspr/src/OB.cpp:2356-2408 | a Delete exactly in a snapshot or when it meets a crossed book at a boundary |
| `Records.ResetWipes` | frame_kaspr/src/OB.cpp:243-293 | a channel reset, and the first record of a snapshot before it is handled, empty every queue and `ordermap`, put the insides at their stops and acknowledge orders of ours that rested |
| `Records.UntimedActsNow` | frame_kaspr/src/OB.cpp:1893-1917 | a message of ours without a decision time acts at once, and aborts when timed ones wait |
| `LatencyQueue.FirstInFirstOut` | frame_kaspr/src/OB.cpp:1871-1923 | our messages take effect in arrival order, timed ones only at a record later than ts0 + feed delay + max(40, delay) |
| `LatencyQueue.DrainReleases` | frame_kaspr/src/OB.cpp:2506-2592 | a scan releases exactly the longest due prefix and moves no inside price |
| `LatencyQueue.DrainScans` | frame_kaspr/src/OB.cpp:2506-2592 | the books a scan passes through, none of them dead |
| `LatencyQueue.ProcessReleases` | frame_kaspr/src/OB.cpp:2477-2592 | after each scan the queue is empty or its head is not yet due |
| `LatencyQueue.CancelAfterOrder` | frame_kaspr/src/OB.cpp:1893-1920 | of two of our messages the later never takes effect first, so a cancel never precedes its order |
| `LatencyQueue.NeverEarly` | frame_kaspr/src/OB.cpp:2530-2546 | over every run a timed message takes effect only at a record later than its decision time plus the feed delay plus 40 us, and plus the delay of its kind, which is the cancel delay for a cancel when that is not negative |
| `LatencyQueue.NeverLate` | frame_kaspr/src/OB.cpp:2506-2592 | after any record that reaches the queues the first message still queued has one of those delays to go |
| `StraySims.NoStrayRun` | frame_kaspr/src/OB.cpp:446-509 | unless one of our orders takes effect across the locked inside it meets (after any clear by the same record), no resting sim order ever stands at or across the other side's inside; cancels never matter |
| `StraySims.AppliedKeepsIff` | frame_kaspr/src/OB.cpp:446-509 | the exact condition under which one of our messages leaves a stray order |
| `StraySims.AddKeeps` | frame_kaspr/src/OB.cpp:571-599 | an arriving real order sweeps every sim order it would strand |
| `RefBook.RefInvariant` | unit_test/obcmp/obcmp.cpp:81-137 | after any records each level is the sum of its orders, never zero, and the market is strictly uncrossed |
| `RefBook.UncrossAnyOrder` | unit_test/obcmp/obcmp.cpp:101-115 | the result of uncrossing does not depend on the iteration order of the hash map |
| `RefBook.ArriveUncrosses` | unit_test/obcmp/obcmp.cpp:95-116 | an arrival keeps the levels valid and the market strictly uncrossed |
| `RefBook.TopSucceeds` | unit_test/obcmp/obcmp.cpp:117-124 | the best bid is below the best offer whenever both sides are non-empty |
| `RefBook.Market.ApplyRecord` | unit_test/obcmp/obcmp.cpp:81-116 | one record moves the object to the state the reference function gives |
| `RefBook.Market.EraseCrossed` | unit_test/obcmp/obcmp.cpp:103-115 | the erase-while-iterating loop drops exactly the crossed contra orders |
| `RefBook.Market.Top` | unit_test/obcmp/obcmp.cpp:117-124 | reports the inside with its sizes, and fails only if a side is empty |
| `RefBook.MaxKey` | unit_test/obcmp/obcmp.cpp:121 | the highest price of a side |
| `RefBook.MinKey` | unit_test/obcmp/obcmp.cpp:122 | the lowest price of a side |
| `Refinement.LiveBookIsReferenceMarket` | frame_kaspr/src/OB.cpp:543-917 | on every proper live feed, with any of our traffic between, the book never aborts, holds the same orders as the reference market, the same size at every side and price, and the same inside |
| `Refinement.SameBook` | frame_kaspr/src/OB.cpp:2046-2408 | same orders and sizes on every well-formed run |
| `Refinement.SameInside` | frame_kaspr/src/OB.cpp:811-864 | the walked insides equal the reference inside whenever both sides are non-empty |
| `Refinement.RunAgrees` | unit_test/obcmp/obcmp.cpp:81-124 | the agreement relation over every run |
| `Refinement.StepAgrees` | unit_test/obcmp/obcmp.cpp:81-124 | one event keeps the agreement |
| `Refinement.StaleChangeDisagrees` | frame_kaspr/src/OB.cpp:614-635 | a Change of a known order keeps the agreement if and only if the order still rests or the Change re-enters it |
| `Refinement.SnapshotAgreesIff` | frame_kaspr/src/OB.cpp:1856-1868 | after the first record of a snapshot the books agree if and only if it crosses every other order the reference market holds |
| `Refinement.DuplicateAgreesIff` | frame_kaspr/src/OB.cpp:2056-2096 | after a New of a known order they agree if and only if the reference market holds that very order |
| `Refinement.ResetAgreesIff` | frame_kaspr/src/OB.cpp:243-293 | after a channel reset they agree if and only if the reference market was empty |
| `Witnesses.ResendBreaksIndex` | frame_kaspr/src/OB.cpp:2068-2082 | two snapshot records of one order at two prices leave it resting at the first with its entry at the second |
| `Witnesses.StaleChangeReached` | frame_kaspr/src/OB.cpp:614-635 | live: bid, crossing ask, smaller bid: the books disagree |
| `Witnesses.SnapshotReached` | frame_kaspr/src/OB.cpp:1856-1868 | live: one order, then a snapshot beginning with another: the books disagree |
| `Witnesses.ResetReached` | frame_kaspr/src/OB.cpp:243-293 | live: one order, then a channel reset: the books disagree |
| `Witnesses.DuplicateReached` | frame_kaspr/src/OB.cpp:2056-2096 | live: one order announced twice, the second time smaller: the books disagree |
| `Witnesses.StrayReached` | frame_kaspr/src/OB.cpp:446-509 | simulation: bid 5, ask 5 and a sell of ours at 5 leave a stray order |
| `Refinement.LiveNeverDies` | frame_kaspr/src/OB.cpp:2596-2743 | no assertion fails on a well-formed live run |
| `Refinement.ProperFeedWellFormed` | unit_test/obcmp/obcmp.cpp:223-300 | a condition on the feed and the reference market alone, which allows an id again after its Delete and exact repeats, makes every record well formed where it arrives |
| `Obcmp.Compare` | unit_test/obcmp/obcmp.cpp:223-300 | the two objects end where the gated run and the reference run end, and on a proper live feed that passes the gate with the same orders, sizes and inside |
| `Obcmp.GatedBookIsReferenceMarket` | frame_kaspr/src/OB.cpp:1819-1853 | behind its time gate the live book matches the reference market fed with the records that pass, and with the whole feed when all pass |
| `Obcmp.DroppedAgreesIff` | frame_kaspr/src/OB.cpp:1831-1853 | a record the gate drops keeps the agreement if and only if it is no news to the reference market |
| `OB.HeadNoSim` | frame_kaspr/include/frame/ob/OrderQ.hpp:54-66 | the first real order of a queue |
| `Levels.AcksById` | frame_kaspr/include/frame/ob/OrderQ.hpp:291-302 | clearing a level acknowledges sim orders that rested there, by rising id |
| `OB.AckLevel` | frame_kaspr/include/frame/ob/OrderQ.hpp:291-302 | the cancel-from-the-lowest-id loop |
| `OB.SweepLevel` | frame_kaspr/src/OB.cpp:588-655 | one swept level: sim orders filled, real ones kept in simulation and cancelled live |
| `OB.SweepUp` | frame_kaspr/src/OB.cpp:571-660 | the upward sweep of the offers, level by level |
| `OB.SweepDown` | frame_kaspr/src/OB.cpp:665-748 | the downward sweep of the bids |
| `OB.ExecQueue` | frame_kaspr/src/OB.cpp:1153-1174 | an execution on one queue |
| `OB.FillFrom` | frame_kaspr/src/OB.cpp:1314-1361 | the back-to-front walk over our orders |
| `OB.OB.constructor` | frame_kaspr/src/OB.cpp:123-132 | the empty book |
| `OB.OB.FillStraySimOrders` | frame_kaspr/src/OB.cpp:543-748 | the sweep and whether it uncrossed anything |
| `OB.OB.WalkAsk` | frame_kaspr/src/OB.cpp:811-825 | the best offer after its walk |
| `OB.OB.WalkBid` | frame_kaspr/src/OB.cpp:840-864 | the best bid after its walk |
| `OB.OB.CheckForBoChange` | frame_kaspr/src/OB.cpp:753-884 | the inside prices after an arrival |
| `OB.OB.AddRealOrder` | frame_kaspr/src/OB.cpp:303-917 | a real order's arrival: sweep, inside, append |
| `OB.OB.AddSimOrder` | frame_kaspr/src/OB.cpp:395-521 | one of our orders: filled on arrival, or appended |
| `OB.OB.CancelRealOrder` | frame_kaspr/src/OB.cpp:1263-1294 | removal from the queue and the inside walk |
| `OB.OB.ResizeRealOrder` | frame_kaspr/src/OB.cpp:3382-3420 | a size decrease in place |
| `OB.OB.ExecRealOrder` | frame_kaspr/src/OB.cpp:1146-1256 | an execution: only our orders change |
| `OB.OB.CancelSimOrder` | frame_kaspr/src/OB.cpp:1021-1052 | acknowledged, or rejected when not resting |
| `OB.OB.ScanDelayQueue` | frame_kaspr/src/OB.cpp:2506-2592 | the scan loop of the latency queue |
| `OB.OB.ProcessQ` | frame_kaspr/src/OB.cpp:2477-2592 | release of our due messages, then the record |
| `OB.OB.ProcessMarketData` | frame_kaspr/src/OB.cpp:2596-2743 | the boundary check and the record's effect |
| `OB.OB.ClearBook` | frame_kaspr/src/OB.cpp:243-293 | an empty book, every sim order acknowledged |
| `OB.OB.HandleNew` | frame_kaspr/src/OB.cpp:2046-2136 | a New, including a snapshot re-send and a duplicate |
| `OB.OB.HandleChange` | frame_kaspr/src/OB.cpp:2266-2355 | a Change: in place, or cancelled and re-entered |
| `OB.OB.HandleDelete` | frame_kaspr/src/OB.cpp:2356-2408 | a Delete |
| `OB.OB.HandleRecord` | frame_kaspr/src/OB.cpp:1508-2408 | one record, with the ladder check and the snapshot flag |
| `OB.OB.Handle` | frame_kaspr/src/OB.cpp:1424-2408 | one event of any kind |
| `FeedGate.Feed.DataHandler` | frame_kaspr/src/OB.cpp:1819-1853 | the time gate before the book: its times afterwards, and the record handled or dropped |
| `FeedGate.GatedIsRun` | frame_kaspr/src/OB.cpp:1819-1853 | a gated run is a run on the records that pass, so every theorem of runs holds of it |
| `FeedGate.PassesIff` | frame_kaspr/src/OB.cpp:1819-1853 | a timed record passes if and only if a live one is later than the last snapshot record and a snapshot one no earlier than the last live one |
| `ProbeTheorems.EveryRun` | sim/src/SlippageProbe.cpp:188-655 | every run, on any interleaving of alarms, bursts and fills however late: the invariant holds, and the probe aborts if and only if an alarm opens a window for an overrun side or a fill has no size or price; no assertion of the close fires |
| `ProbeTheorems.OpensWithWork` | sim/src/SlippageProbe.cpp:235-241 | every window of every run opens with at least one lot on each leg, the book's distance from flat corrected by what only one count has heard of; where the counts agree at that alarm, the distance itself, within a parent |
| `ProbeTheorems.SyncedWithinParent` | sim/src/SlippageProbe.cpp:553-586 | if every fill reaches probe and book before the next alarm, every leg and row is within a parent |
| `ProbeTheorems.SyncedAbortsIff` | sim/src/SlippageProbe.cpp:156-177 | such a run aborts if and only if a side is 1000 or more parents ahead, or a fill has no size or price |
| `ProbeTheorems.FlatCompletesLeg` | sim/src/SlippageProbe.cpp:553-631 | in every run, whenever the counts agree, a leg is done exactly when its book is at or past flat, and otherwise lacks exactly the distance |
| `ProbeTheorems.FillsAccounted` | sim/src/SlippageProbe.cpp:553-586 | in every run session fills = measured leg fills + the open leg + excluded overfills |
| `ProbeTheorems.RowsTell` | sim/src/SlippageProbe.cpp:247-341 | every row of every run: work on each leg, done inside the window, minimum span, market volume that bounds its aggressor share, and the inventory law |
| `ProbeTheorems.AccrueOk` | sim/src/SlippageProbe.cpp:494-512 | accruing to any time, also out of order, keeps accrued time = last - fire, min*T <= integral <= max*T, abs(integral) <= abs integral, and integral = position*T - moment |
| `ProbeTheorems.MoveOk` | sim/src/SlippageProbe.cpp:528-532 | a fill keeps the same law |
| `ProbeTheorems.StartsApart` | sim/src/SlippageProbe.cpp:371-451 | under alarms that never go back, window starts are at least the minimum apart |
| `ProbeTheorems.OpenWindowGood` | sim/src/SlippageProbe.cpp:188-241 | opening keeps the invariant and fails exactly for an overrun side, whether or not the counts agree |
| `ProbeTheorems.CloseWindowGood` | sim/src/SlippageProbe.cpp:247-341 | no assertion of the close can fail when the clock calls it |
| `ProbeTheorems.GiveLeavesWork` | sim/src/SlippageProbe.cpp:156-167 | the parents handed out leave the book one lot to one parent from flat |
| `ProbeTheorems.GiveWholeParents` | sim/src/SlippageProbe.cpp:156-177 | a side is handed whole parents: one when it still has work, else the fewest that give it work |
| `ProbeTheorems.OpenAbortsIff` | sim/src/SlippageProbe.cpp:235-241 | the exact condition under which opening aborts: a book 1000 parents ahead, or more fills counted by the probe than the parents handed out leave room for |
| `ProbeTheorems.LateBookAborts` | sim/src/SlippageProbe.cpp:538-556 | for every parent size and minimum, a run whose position book hears of an overfill late aborts |
| `ProbeClock.AlarmSession` | sim/src/SlippageProbe.cpp:371-385 | after an alarm the session is the current one while a window is open or it has not ended, and otherwise the first from it on that has not ended, or the last |
| `ProbeClock.AlarmOutcome` | sim/src/SlippageProbe.cpp:387-459 | an alarm ends the open window exactly when its minimum is over and both legs are done, opens one exactly when there is room, with fresh legs and inventory, and aborts exactly for an overrun side; otherwise nothing changes |
| `ProbeHistory.TotalsTell` | sim/src/SlippageProbe.cpp:461-487 | while the probe runs its streams are the sums of the trades, split by whether they hit bids or took offers, its totals and position the sums of the fills, its touch the last valid one, its clock the last alarm |
| `ProbeHistory.WindowOfRun` | sim/src/SlippageProbe.cpp:514-655 | the open window of every run, from the events since it opened: each leg's lots and money are those of its side's fills up to the one that completes it, stamped with that fill's time and mid, over the market volume seen then; the inventory is the position of the fills over time, with its extremes |
| `ProbeHistory.RowsOfRun` | sim/src/SlippageProbe.cpp:247-341 | every row of a run was written by the alarm that ended its window or the shutdown that cut it off, with the legs and inventory the window had then |
| `ProbeHistory.ShutdownOutcome` | sim/src/SlippageProbe.cpp:843-888 | the shutdown writes one more row exactly when a window is open, unfinished legs and the row ending with the last alarm |
| `SlippageProbe.GiveWork` | sim/src/SlippageProbe.cpp:156-177 | the loop hands out the rounds in closed form, and gives up exactly at 1000 parents ahead |
| `SlippageProbe.OpenSide` | sim/src/SlippageProbe.cpp:219-241 | one side of a window's opening |
| `SlippageProbe.FillSide` | sim/src/SlippageProbe.cpp:534-645 | one side of a fill: totals, leg, completion and its stamp |
| `SlippageProbe.SlippageProbe.OpenWindow` | sim/src/SlippageProbe.cpp:188-245 | the new window, or an abort |
| `SlippageProbe.SlippageProbe.CloseWindow` | sim/src/SlippageProbe.cpp:247-341 | the row and the closed window, or an abort |
| `SlippageProbe.SlippageProbe.FinishWindow` | sim/src/SlippageProbe.cpp:320-340 | the last inventory segment, the row and the end of the window |
| `SlippageProbe.SlippageProbe.AccrueInventory` | sim/src/SlippageProbe.cpp:494-512 | the integrals, never rewound |
| `SlippageProbe.SlippageProbe.OnClock` | sim/src/SlippageProbe.cpp:371-459 | the session walk, then open, wait, or close and reopen |
| `SlippageProbe.SlippageProbe.AlarmHandler` | sim/src/SlippageProbe.cpp:359-369 | an alarm |
| `SlippageProbe.SlippageProbe.EobHandler` | sim/src/SlippageProbe.cpp:343-356 | a burst: an empty or locked touch is ignored |
| `SlippageProbe.SlippageProbe.TradeHandler` | sim/src/SlippageProbe.cpp:461-487 | market volume and notional, in total and split by aggressor |
| `SlippageProbe.SlippageProbe.FillHandler` | sim/src/SlippageProbe.cpp:514-655 | a fill |
| `SlippageProbe.SlippageProbe.AddPosition` | light/include/light/qcoord.hpp:65-82 | a light's fill reaching its position book |
| `SlippageProbe.SlippageProbe.ShutdownHandler` | sim/src/SlippageProbe.cpp:843-888 | the cut-off row |
| `SlippageProbe.SlippageProbe.Handle` | sim/src/SlippageProbe.cpp:60-64 | the dispatch of every event to its handler |
| `LockProtocol.HandlersNeverOverlap` | actors/cpp/Actor.cpp:99-141 | in every reachable state at most one handler of an actor runs |
| `LockProtocol.RepliesRouted` | actors/cpp/Actor.cpp:225-234 | a reply goes to the sender of the very message being handled, or is kept for the fast_send caller, under every interleaving |
| `LockProtocol.FastSendReturnsItsReply` | actors/cpp/Actor.cpp:117-141 | a fast_send returns the last reply its own handler made, or nothing |
| `LockProtocol.DeadlockIff` | actors/rust/src/actor.rs:19-22 | pending work and no thread able to step, if and only if the busy threads wait for each other's locks |
| `LockProtocol.StuckForever` | actors/rust/src/actor.rs:172-219 | threads that wait for each other never step again |
| `LockProtocol.CycleNeverSteps` | actors/rust/src/actor.rs:19-22 | a call chain that returns to an actor on it never steps again |
| `LockProtocol.RankedNeverDeadlocks` | actors/rust/src/actor.rs:19-22 | with calls that follow a ranking, every reachable state with pending work has a thread that can step |
| `LockProtocol.CrossedCallsDeadlock` | actors/rust/src/actor.rs:19-22 | without one, two run loops that call each other reach a deadlock |
| `LockCycles.DeadlockIffCycle` | actors/rust/src/actor.rs:19-22 | with each actor on its own thread, some run whose calls follow a relation deadlocks if and only if the relation has a cycle |
| `LockCycles.CycleDeadlocks` | actors/cpp/Actor.cpp:99-141 | for any cycle, a run that leaves its actors stuck |
| `LockCycles.DeadlockHasCycle` | actors/cpp/Actor.cpp:99-141 | from any stuck threads, a cycle of calls |
| `LockProtocol.StepKeeps` | actors/cpp/Actor.cpp:99-141 | every step keeps lock ownership and the reply fields in step with the running handlers |
| `Mailbox.CachesTransparentIff` | actors/cpp/Actor.cpp:76-97 | the caches never change which handler runs, for any messages, if and only if types sharing an id share their handler |
| `Mailbox.LateRegistrationIff` | actors/cpp/Actor.cpp:83-91 | a late registration is honoured if and only if its id was not cached otherwise |
| `Mailbox.SecondGetsFirst` | actors/cpp/Actor.cpp:78-82 | of two types with one id the second gets the first one's handler |
| `Mailbox.BQueue.Push` | actors/cpp/include/actors/BQueue.hpp:70-81 | the message joins the end, whichever tier it goes to |
| `Mailbox.BQueue.Pop` | actors/cpp/include/actors/BQueue.hpp:40-57 | the oldest message, and whether it was the last |
| `Mailbox.BQueue.PopBatch` | actors/cpp/include/actors/BQueueBatched.hpp:40-50 | the whole mailbox in order |
| `Mailbox.Actor.CallHandler` | actors/cpp/Actor.cpp:76-97 | the handler that runs and the caches afterwards |
| `Mailbox.Actor.ProcessMessageInternal` | actors/cpp/Actor.cpp:99-115 | one message handled and freed |
| `Mailbox.RunSingle` | actors/cpp/Actor.cpp:184-199 | for every schedule: the arrivals through the first Shutdown or termination are handled in order, and each popped message is freed once |
| `Mailbox.RunBatched` | actors/cpp/Actor.cpp:153-183 | the same messages and handlers for every schedule, the unhandled tail freed too |
| `Mailbox.RunBatch` | actors/cpp/Actor.cpp:161-181 | one batch, with its tail freed on a stop |
| `Mailbox.ThroughFirstStop` | actors/cpp/Actor.cpp:161-199 | what is handled is a prefix of the arrivals in which no message but the last is a Shutdown or terminates, and which ends with one unless it is all of them |
| `DispatchTable.BuildTable` | actors/rust/src/actor.rs:246-279 | each slot holds the last entry listed with its id |
| `DispatchTable.ProcessMessage` | actors/rust/src/actor.rs:283-292 | the slot's handler if the type matches, otherwise the message is dropped |
| `DispatchTable.NeverWrongHandler` | actors/rust/src/actor.rs:256-273 | a message never reaches a handler registered for another type |
| `DispatchTable.AllRoutedIff` | actors/rust/src/actor.rs:255-275 | every listed type reaches its handler if and only if the listed ids are distinct |
| `PoolSizing.AlignUpIsLeastMultiple` | actors/rust/src/pool.rs:37-39 | the bit mask gives the least multiple of a power of two that is at least n |
| `PoolSizing.AndMask` | actors/rust/src/pool.rs:37-39 | the complement mask clears exactly the low bits |
| `PoolSizing.SharedNew` | actors/rust/src/pool.rs:54-64 | a block holds the message, is a whole number of alignment units, and wastes less than one |
| `PoolTheorems.EveryBlockOwnedOnce` | actors/rust/src/pool.rs:66-101 | under every interleaving each carved block is in exactly one list, message or leak, and a refill always yields a block |
| `PoolTheorems.NeverHandedOutTwice` | actors/rust/src/pool.rs:165-173 | a block handed out was not live and is nowhere else afterwards |
| `PoolTheorems.BlocksLaidOut` | actors/rust/src/pool.rs:78-93 | blocks are aligned, disjoint and whole inside their slab |
| `PoolTheorems.BlocksFitMessages` | actors/rust/src/pool.rs:54-93 | for any message layout the blocks hold the message, aligned for it and for a cache line, without overlap |
| `PoolTheorems.GrowthBound` | actors/rust/src/pool.rs:66-101 | carved <= peak live + leaked + (T-1) full lists + cap, with full lists of 2*cap for calls one at a time and 2*cap+1 interleaved |
| `PoolTheorems.ListBound` | actors/rust/src/pool.rs:175-183 | between calls a thread's list never exceeds 2*cap |
| `PoolWitness.FullListReached` | actors/rust/src/pool.rs:175-183 | for every cache size a list of 2*cap+1 blocks is reached inside a free |
| `PoolTheorems.NoExitNoLeak` | actors/rust/src/pool.rs:145-155 | blocks leak only with exiting threads |
| `PoolTheorems.StepKeeps` | actors/rust/src/pool.rs:66-101 | every step keeps ownership, layout and the mutex discipline |
| `PoolCalls.Shared.Refill` | actors/rust/src/pool.rs:66-94 | the lists after refill, with a new slab only if the shared list gave nothing |
| `PoolCalls.Shared.Flush` | actors/rust/src/pool.rs:96-103 | the lists after flush |
| `PoolCalls.Cache.Alloc` | actors/rust/src/pool.rs:165-173 | the block handed out and both lists afterwards |
| `PoolCalls.Cache.Free` | actors/rust/src/pool.rs:175-183 | both lists after a free |
| `PoolCalls.FillTakesNewest` | actors/rust/src/pool.rs:68-76 | refill takes the newest shared blocks, newest first, up to the cache size |
| `PoolCalls.DrainKeepsOldest` | actors/rust/src/pool.rs:96-103 | flush keeps the oldest blocks and gives the others up newest first |
| `PoolCalls.AllocIsARun` | actors/rust/src/pool.rs:165-173 | an uninterrupted allocation is a run of the interleaved steps with the same outcome |
| `PoolCalls.FreeIsARun` | actors/rust/src/pool.rs:175-183 | an uninterrupted free is a run of the interleaved steps with the same outcome |
| `PoolCalls.LastFreedFirst` | actors/rust/src/pool.rs:165-183 | the block a thread has just freed is the next it hands out, and the two calls change nothing another thread sees |
| `Owner.EveryReclaimPaired` | actors/rust/src/owner.rs:54-63 | over every interleaving of boxes made and dropped, each pool runs by its own steps, every free is of a live block, and the heap and each pool have handed out exactly what the boxes own |
| `Owner.DropReturns` | actors/rust/src/owner.rs:80-105 | dropping a box returns exactly its storage to the place it came from, and the free is enabled |
| `Owner.BoxesDisjoint` | actors/rust/src/owner.rs:54-63 | no two pooled boxes share a byte |
| `Owner.NothingLost` | actors/rust/src/owner.rs:80-105 | when the last box is gone everything is reclaimed, zero-sized messages included |

## Left out

- `FillSlate` (frame_kaspr/include/frame/ob/FillSlate.hpp): which trade fills are resting fills and when they are released is an input; a released execution is an `Exec` event.
- `BookIndex.BookInvariant`: speaks of runs in which no assertion fails; its entry clauses need that no snapshot contradicted a resting order, a condition `BookIndex.GoodStep` shows to be exact.
- `Conservation.LotsConserved`: counts orders priced beyond the ladder as refused, because the program logs and drops them without a report.
- `OB.OB.AddSimOrder`: does not model the assertion that market time has been set before our first message; the manager only reacts to market data.
- `OB.OB.HandleRecord`: stands behind the time gate, which `FeedGate.Feed.DataHandler` models.
- `Records.ChangeLosesPlace`: is for an order that rests as its entry says, as every one does in simulation without a contradicting snapshot (`Records.RunDescribes`); live, an order already crossed out is what `Refinement.StaleChangeDisagrees` is about.
- `Records.ProcessDiesIff`: takes our queued orders as having a size.
- `ProbeHistory.RowsOfRun`: is for runs in which no assertion has failed.
- `Conservation.LateCancelRejected`: is for a cancel priced on the ladder; one beyond it is dropped silently.
- `Refinement.LiveBookIsReferenceMarket`: is for feeds whose snapshots and channel resets begin on a market without orders, as the opening snapshot does (`Refinement.SnapshotAgreesIff` and `Refinement.ResetAgreesIff` show why), and for messages of ours that are timed and of positive size.
- OrderQ's linked list and its per-level id map are one sequence; two sim orders with one id at one level are therefore not told apart as the map would.
- The 32-bit wrap of book ids, the maximum order size and the overflow of 64-bit times are not modelled; integers are unbounded.
- Prices are integer ticks, and the price bound of the constructor and of the reference data is one constant.
- Sim cancels are full cancels, the only kind the order manager sends.
- Publishing, subscriber notification and its throttle, counters, logging, check handlers and console output of the order book.
- In the probe: VWAP and slippage ratios, stall warnings, fill counts and the anchor prices that only feed the output columns.
- `ProbeTheorems.StartsApart`: does not say that a window fits its session, because the first window of a session opens without a room check.
- `ProbeTheorems.EveryRun`: takes the minimum window as positive and trade sizes as not negative.
- `LockProtocol.FastSendReturnsItsReply`: a fast_send to a terminated actor, which runs no handler, is the run of one that makes no reply.
- `LockProtocol.RankedNeverDeadlocks`: is about locks; a handler that never returns is taken as able to step.
- In the actors: groups, the registry, remote references, thread affinity, init and end, the `last` and `qlen` hints, and poisoned locks.
- `PoolTheorems.EveryBlockOwnedOnce`: takes the system allocator's promise (aligned slabs apart from each other) as the guard of carving; a size overflow or a failed slab allocation, which panic, are not steps.
- `Owner.EveryReclaimPaired`: takes from Rust's ownership that a box is dropped at most once, by a thread that is not inside the same pool's allocate or free.
- Manager, SOM, timers, `point.cpp`, configuration, Python scripts and reports: wiring or output that would add only easy members.
