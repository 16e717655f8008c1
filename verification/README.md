# Verification model of shortfall

Shortfall measures money that is late or lost. It records business outcomes as
they happen, publishes how much money waits in which queue, asks a backend for
sums over time, and turns the answers into the legs of a report. This project
models the parts of it whose correctness is argued in comments and sampled by
tests, and proves what those comments claim, for every input, run and
interleaving. `dafny verify dfyconfig.toml` checks all of it.

## The parts

**Tracking and emitting.** `Tracker` is the in-flight tracker as an object: a
sharded set with a bound, a first-writer exponent pin per currency, and a
publish that zeroes a combination before retiring it. After every publish of
every run, each gauge series reads exactly the sum and count of the items in it.
`TrackerSteps`, `TrackerSnapshots` and `TrackerProgress` take the same code apart
at its locks and atomics, for any number of goroutines: the bound holds at every
step, a publish emits the totals of one state that really occurred during the
call, and the locks cannot deadlock. Over every run, a tracked key keeps the
earliest time and the latest money of its Track calls. `DedupSet` and `Emitter` are
the emitter as an object, `EmitterSteps` the emitter under overlapping flushes that
may fail: every call has exactly one fate and every drop is counted exactly once.
`EmitterMeters` and `EmitterScrape` follow the amounts: what a scrape finally shows
under any labels is the number of calls admitted under them and the sum of their
amounts, estimates left out.

**The deferred leg, two ways.** `MemqEvents`, `Deferred`, `DeferredGauge` and
`DeferredEvents` are the two routes to the leg; `Telemetry` and `Replay` are the
harness that turns a ledger into events and into a published gauge.
`DeferredAgreement` shows what each leg is made of, and `LegAgreement` when the two
are equal, exactly: for every ledger with unique ids, ordered stage times and
amounts that are not negative, and a publish and a window with nothing happening
between the one and the other's end. `RunAgreement` takes a checkout run from its
random source to both legs, and has ledgers on which the legs differ.

**The checkout scheduler.** `Faults`, `Stages`, `Checkout` and `Expected` are the
simulation behind the golden numbers: merged stalls, freeze and resume,
two chained stages whose ordering panic cannot be reached and whose work is a
schedule of the configured delays, capacities and stalls, and the demand that
blackouts suppress, return or lose, which is a function of the random source
alone. `Guard` says on which windows some run fires the guard on the golden net
loss.

**Queries.** `Memq` is the in-memory reference for metric queries. `PromQL` is
the compiler to PromQL with a denotation for what it emits; `PromQLExact` gives
the exact error of a compiled query over any scraped store, and with it the
condition under which the answer is the reference's; `PromQLStepped` does the
same for stepped queries and their merge. `PromExporter` shows that what a
scrape exposes is what that denotation reads.

**OTLP export.** `OtlpSink` is the chunked emit over the log SDK's queue;
`OtlpSteps` is its protocol with concurrent shutdowns.

**Codecs.** `Money`, `Baggage` and `DecimalText` are minor-unit amounts and the
`biz.vc` wire format, with their round trips in both directions. The byte set is
that of section 3.3.1 of the W3C Baggage specification.

`Wrappers` and `FiniteSums` are shared vocabulary. Where a member hides a
definition with `hide`, that only spares the solver facts it does not need.

Where the code and its comments differ, the code is modelled:
- A Track can be refused although the set is not full, when a removal races a
  refusal that has not given its slot back
  (`TrackerProgress.CanRefuseWhileEmpty`); `TrackerProgress.RefusedExactlyWhenFull`
  says when calls are refused.
- The guard on the golden net loss can fire on a window that a blackout which
  starts in it outlasts: `Guard.CuttingABlackoutCanFireTheGuard` is such a run. Some
  run fires it exactly if a suppressed arrival can come back to an open minute from
  a minute past the window's end (`Guard.FiresOnlyIf`, `Guard.FiresIf`), so a window
  that only begins inside a blackout is safe (`Guard.NoOverhangIsSafe`).
- A compiled counter query counts again the series that have no sample in the
  lookback of the window's start, and misses those that have none in the end's
  (`PromQLExact.UndersampledCounterOvercounts`,
  `PromQLExact.UndersampledCounterUndercounts`); `PromQLExact.CounterErrorIsStale` says
  exactly when an answer is right.
- At equal times the in-memory reference keeps a gauge series' first sample and
  the Prometheus exporter its last (`PromExporter.TiesDiffer`). They show one level
  exactly if the two agree (`PromExporter.ShowsTheReference`), and arrival order is
  of no matter exactly if all samples at the latest time do
  (`PromExporter.FreshIgnoresOrder`).
- The retry of a call whose batch was lost to a failed export is suppressed while
  the call is in the remembered window (`EmitterSteps.RetryOfALostEventIsSuppressed`);
  `EmitterSteps.ALostCallCanStayLost` is a run on which the backend never gets it.
- A flush that fails can leave records in the log SDK's queue; a later batch whose
  first chunk does not fit beside them overwrites them (`OtlpSink.OverwritesExactly`),
  and `OtlpSteps.ALeftoverIsOverwritten` is a run in which that happens.
- The two deferred routes can differ: on a publish before the end, which a live
  report reads (`RunAgreement.AnEarlierPublishDiffers`), on a row worth nothing
  (`RunAgreement.AZeroAmountDiffers`), and on a capture that failed without a time
  (`RunAgreement.AFailedCaptureDiffers`). `LegAgreement.LegsAgreeExactly` is the
  condition, and `RunAgreement.RunBothRoutes` what is left of it on a run.
- The leg counts a capture as breached that is exactly as old as its deadline if a
  bucket begins there, the golden snapshot only one that is older
  (`RunAgreement.BreachesDiffer`).

## Model

| member | source | states |
|---|---|---|
| Money.Digits | biz/money.go:85-100 | A digit string is accepted exactly if it is all digits and its value fits int64, with that value; every intermediate step is proved free of overflow. |
| Money.ParseMinor | biz/money.go:67-128 | Succeeds exactly for decimals with at most `exponent` fraction digits (none at exponent 0) whose minor-unit value fits int64, and returns that value; each failure is tied to its error. |
| Money.String | biz/money.go:46-62 | Prints currency and amount with the point at the exponent, or the invalid form. |
| Money.NumericParsesBack | biz/money.go:46-128 | For every valid money, the numeric part of its text is a decimal whose minor value is the amount: ParseMinor inverts String. |
| Money.StringIsInjective | biz/money.go:46-62 | Two valid amounts print the same exactly if they are the same amount, currency and exponent. |
| Money.OnlyValidReads | biz/money.go:22-62 | What is printed reads as money, three capitals and an amount with at most four decimals, if and only if it is valid. |
| Baggage.EscapeInto | biz/baggage.go:238-250 | Appends the percent-escaped form of the field to the builder, byte by byte. |
| Baggage.EscapesOnlyTheOthers | biz/baggage.go:227-250 | A baggage octet other than the separator and the percent sign is written as itself, any other byte as a percent sign and its two uppercase hexadecimal digits. |
| Baggage.OrdinaryStaysRaw | biz/baggage.go:229-250 | A text is escaped as itself if and only if all its bytes are such octets. |
| Baggage.UnescapeField | biz/baggage.go:259-301 | Returns what the escaped text stands for, or refuses it; the fast path for clean text agrees with the general one. |
| Baggage.UnescapesSpellings | biz/baggage.go:252-313 | Exactly the spellings of a text unescape to it: an ordinary byte may stand raw, any other must be escaped, and an escape is two uppercase hexadecimal digits. |
| Baggage.UnescapeEscape | biz/baggage.go:229-301 | Escaping can always be undone and uses only octets the baggage grammar allows, never the field separator. |
| Baggage.EscapeUnescapeShrinks | biz/baggage.go:238-301 | Escaped text that decodes re-encodes no longer, and equally long only to itself. |
| Baggage.SplitJoin | biz/baggage.go:110-125 | Splitting joined fields that hold no separator gives the fields back. |
| Baggage.EncodeVC | biz/baggage.go:62-105 | Refuses a deadline outside the domain, then an encoding over 512 bytes with its size, and otherwise returns the encoding. |
| Baggage.EncodingSays | biz/baggage.go:53-105 | The wire text says version, flow, entity, customer, segment, amount, currency, exponent, kind, flags and deadline in that order, the deadline cut down to its second; no other text says them in as few bytes. |
| Baggage.DecodeVC | biz/baggage.go:110-180 | Accepts exactly the texts that decode, and reports over-long input, a wrong field count and an unknown version as such. |
| Baggage.DecodesWhatIsSaid | biz/baggage.go:107-180 | Exactly the texts of at most 512 bytes whose eleven fields spell a context, numbers with or without a sign included, decode to it. |
| DecimalText.ParsesSpellings | biz/baggage.go:142-176 | Exactly the spellings of the integers in range parse, each to its integer. |
| Baggage.DecodeEncode | biz/baggage.go:62-180 | Decoding an encoding gives the context with its deadline cut to whole seconds; the encoding has eleven fields and only baggage octets. |
| Baggage.EncodingIsInjective | biz/baggage.go:62-180 | Two contexts encode alike exactly if they agree up to the fraction of a second of their deadlines. |
| Baggage.EncodeDecode | biz/baggage.go:110-180 | Every text that decodes (plus signs, minus zero, padding and stray escapes included) re-encodes successfully, no longer than it was, to a fixed point. |
| Baggage.DecodedIsWhole | biz/baggage.go:110-180 | A decoded context fits the field types and has a whole-second deadline. |
| Baggage.ReencodedFieldsShrink | biz/baggage.go:110-180 | Field by field, re-encoding never lengthens the text. |
| Tracker.BucketIsLastFloorReached | emit/inflight.go:20-34 | An age is in a bucket exactly if that is the last bucket whose floor it has reached; negative ages go to the first. |
| Tracker.InFlightTracker.constructor | emit/inflight.go:145-170 | Starts empty; a bound below one becomes the default. |
| Tracker.InFlightTracker.Track | emit/inflight.go:177-228 | Refuses invalid money and a moved exponent, refreshes a known key keeping its oldest enqueue time, refuses a new one at the bound, and otherwise stores it; keeps the invariant. |
| Tracker.InFlightTracker.Pin | emit/inflight.go:177-203 | The first valid money of a currency fixes its exponent; accepted exactly if the money is valid and its exponent is the pinned one. |
| Tracker.InFlightTracker.TrackInShard | emit/inflight.go:205-228 | In the shard of the id: refreshes a known key, or reserves a slot for a new one. |
| Tracker.InFlightTracker.Refresh | emit/inflight.go:209-216 | A known key keeps its oldest enqueue time and takes the new money. |
| Tracker.InFlightTracker.Reserve | emit/inflight.go:218-227 | Reserve, then insert; at the bound the reservation is rolled back and the call counted. |
| Tracker.InFlightTracker.Done | emit/inflight.go:232-243 | Removes the key if it is there, and its slot with it. |
| Tracker.InFlightTracker.Aggregate | emit/inflight.go:280-308 | The pass over all shards yields, for every combination and bucket, the sum and count of exactly the items in it. |
| Tracker.InFlightTracker.AggregateShard | emit/inflight.go:285-304 | One shard more is counted, in whatever order its map is iterated. |
| Tracker.InFlightTracker.Publish | emit/inflight.go:262-353 | Emits every bucket of every live or just drained combination once, retires the drained ones, and leaves every series exact. |
| Tracker.InFlightTracker.Emit | emit/inflight.go:339-352 | Five samples for each combination to publish, each at its exact level. |
| Tracker.TrackKeepsInv | emit/inflight.go:177-228 | Track keeps the bound, the pins and the link from outstanding levels to live combinations. |
| Tracker.DoneKeepsInv | emit/inflight.go:232-243 | Done keeps them. |
| Tracker.PublishKeepsInv | emit/inflight.go:262-353 | Publish keeps them: a series with a non-zero last level belongs to a live combination. |
| Tracker.SeriesNamesOneCombo | emit/inflight.go:184-203 | Thanks to the pin, no two combinations share a series. |
| Tracker.SampleIsExact | emit/inflight.go:339-352 | Every sample of a publish carries its series' exact level. |
| Tracker.PublishIsExact | emit/inflight.go:262-353 | After a publish the last level of every series is the sum and count of its items, zero if it has none. |
| Tracker.RunKeepsInv | emit/inflight.go:177-353 | The invariant holds in every state of every run of Track, Done and Publish. |
| Tracker.EveryPublishIsExact | emit/inflight.go:177-353 | In every run, after each publish every series reads exactly what is tracked. |
| Tracker.RetracksNeverRejuvenate | emit/inflight.go:205-216 | In every run a tracked key holds the earliest enqueue time, and the latest money, of its Track calls since it was last absent. |
| Tracker.BucketsOnlyAge | emit/inflight.go:209-213 | So while it stays tracked its bucket never gets younger. |
| Tracker.FirstMoneyPins | emit/inflight.go:184-203 | In every run the exponent of a currency is that of the first valid money tracked in it. |
| Tracker.RefusalsAreCounted | emit/inflight.go:177-228 | The rejected counter is the number of Track calls with invalid money or another exponent, the overflow counter that of the others whose key is not tracked after them. |
| Tracker.TurnedAwayWhenFull | emit/inflight.go:218-227 | A call with good money is turned away exactly if its key is new and the set is full. |
| Tracker.TrackedUntilDone | emit/inflight.go:177-243 | A key is tracked exactly if a Track call of it was taken and no Done came since. |
| Tracker.DrainedIsShownOnce | emit/inflight.go:262-353 | A publish mentions exactly the series of the combinations with items now or at the publish before it: a drained one is zeroed once and then silent. |
| TrackerSteps.LockedKept | emit/inflight.go:205-353 | In every step of every goroutine a lock is held by exactly the goroutine whose program counter says so. |
| TrackerSteps.ShardIsExclusive | emit/inflight.go:205-243 | Two goroutines never hold one shard. |
| TrackerSteps.KeysAbsentKept | emit/inflight.go:205-228 | A goroutine between its reservation and its insert still has an unstored key. |
| TrackerSteps.BoundedKept | emit/inflight.go:214-243 | Every step keeps: itemCount is stored items plus reservations and releases in transit, and stored plus promised items stay within the bound. |
| TrackerSnapshots.BoundHolds | emit/inflight.go:177-243 | At every moment of every interleaving, itemCount is stored items plus what is in transit, and the set never exceeds its bound. |
| TrackerSnapshots.StepsChangeLikeCalls | emit/inflight.go:177-243 | Taken apart into atomic steps, Track and Done change the set as they do in one piece, and a call carries its key and item through. |
| TrackerSnapshots.NeverRejuvenated | emit/inflight.go:209-213 | In every interleaving the enqueue time of a key that stays tracked only moves back. |
| TrackerSnapshots.StepsCountRefusals | emit/inflight.go:177-228 | A rejection is counted exactly when money is invalid or meets another pin, an overflow exactly after an over-reservation. |
| TrackerSnapshots.FirstMaxItemsAreKept | emit/inflight.go:214-228 | Once all calls have returned and if nothing was removed, as many attempts to add a new key as the bound admits are stored, and the overflow count is the number of all others. |
| TrackerSnapshots.SnapshotIsConsistent | emit/inflight.go:262-308 | What a publish has read while it holds all locks satisfies the sequential invariant. |
| TrackerSnapshots.PublishedStatesAreRealAndOrdered | emit/inflight.go:262-308 | Every publish emitted one state that occurred between its start and its end, and later publishes never emit earlier states. |
| TrackerSnapshots.GaugeReadsTheLastSnapshot | emit/inflight.go:262-353 | Between publishes every series reads exactly the items of the latest snapshot, although Track and Done ran meanwhile. |
| TrackerProgress.NoDeadlock | emit/inflight.go:262-308 | In every reachable state with a call in progress some call can move. |
| TrackerProgress.RefusedExactlyWhenFull | emit/inflight.go:214-226 | A new key is refused exactly if stored items and slots in transit fill the bound. |
| TrackerProgress.CanRefuseWhileEmpty | emit/inflight.go:214-226 | A reachable state with nothing stored in which a call is refused. |
| DedupSet.TwoGenSet.constructor | emit/emitter.go:542-544 | An empty set of the given capacity. |
| DedupSet.TwoGenSet.Seen | emit/emitter.go:548-570 | Answers whether the key is remembered, and remembers it from now on. |
| DedupSet.TwoGenSet.Rotate | emit/emitter.go:557-566 | The newer map becomes the older; the older is cleared and reused without disturbing what is remembered. |
| DedupSet.SeenKeepsRemembered | emit/emitter.go:548-570 | What is remembered stays the last n insertions, all different, with n between min(insertions, capacity) and twice the capacity. |
| DedupSet.AlwaysTheLastKeys | emit/emitter.go:537-570 | The same after any sequence of calls on a new set. |
| DedupSet.RememberedExactly | emit/emitter.go:548-570 | A key is suppressed exactly if it is one of the last n inserted, for the n that are remembered. |
| DedupSet.RecentIsRemembered | emit/emitter.go:548-570 | A key among the last `cap` insertions is suppressed. |
| DedupSet.RememberedIsRecent | emit/emitter.go:548-570 | A suppressed key is among the last 2 * `cap` insertions. |
| Emitter.KeyNamesOneTransition | emit/emitter.go:195-197 | Two valid calls share a de-dup key exactly if flow, entity, stage and result agree. |
| Emitter.Std.New | emit/emitter.go:99-137 | Refuses a buffer or a pair cap below one. |
| Emitter.Std.Record | emit/emitter.go:160-244 | An unusable call is counted invalid, a full buffer counted overflow before de-dup is asked, a repeat ignored, and otherwise the event and its points are kept. |
| EmitterMeters.PointsShowWhatIsOwed | emit/emitter.go:216-243 | The points of an admitted call show one transaction, and its amount unless it is an estimate, under its result, currency, kind and fenced labels, and nothing under any others. A label is the name if the registry knows it. |
| Emitter.Std.Admit | emit/emitter.go:199-214 | The admission step: its verdict, and the state each verdict leaves. |
| Emitter.Std.AppendPoints | emit/emitter.go:477-488 | Appends the points that fit and counts the rest. |
| Emitter.Std.SetInFlight | emit/emitter.go:251-282 | An unknown bucket, invalid money or a negative count is counted invalid; otherwise one value and one count point, under fenced labels. |
| Emitter.Std.RecordProviderCall | emit/emitter.go:304-329 | A call whose labels fail their fences is counted invalid. Otherwise a known pair, or a new one below the cap, keeps its labels; past the cap the call is counted under one shared series. At most cap + 1 provider series ever exist. |
| Emitter.Std.TakeAll | emit/emitter.go:395-417 | A flush takes all events and points and one drop point for every counted reason. |
| Emitter.Std.Flush | emit/emitter.go:394-454 | Delivers what the exporter accepts, counts a lost event batch, puts back the drop points of a lost metric batch, and returns the first error. |
| Emitter.FlushConservesDrops | emit/emitter.go:394-454 | What a flush leaves counted is what was counted, plus the batch it lost, less what it delivered. |
| Emitter.Std.Close | emit/emitter.go:463-475 | Flushes twice, once only: if the last metric export succeeds, no drop is left uncounted by the backend; the answer is the error of each flush and of the exporter's shutdown, and later calls repeat it. |
| EmitterSteps.EventKeptByMove | emit/emitter.go:199-214 | Every step keeps each admitted call exported, waiting, with an exporter, or counted lost. |
| EmitterSteps.DropsKeptByMove | emit/emitter.go:394-454 | Every step keeps, under each reason, delivered plus waiting plus held drop points equal to the real drops. |
| EmitterSteps.EveryCallHasOneFate | emit/emitter.go:160-244 | At every moment of every interleaving the valid calls split into exported, pending, with an exporter, suppressed, overflowed and lost. |
| EmitterSteps.EveryDropIsCounted | emit/emitter.go:394-454 | ... and under each reason delivered, pending and in-flight drop counts add up to the drops that happened. |
| EmitterSteps.BackendSeesEverything | emit/emitter.go:394-475 | Once all is flushed, calls are exported events, suppressed repeats and delivered drop counts, with nothing missing. |
| EmitterMeters.EveryAmountIsMetered | emit/emitter.go:216-244 | At every moment of every interleaving, under any labels, what was delivered, waits, is held or was given up adds up to what the admitted calls owe. |
| EmitterMeters.BackendTotals | emit/emitter.go:216-244 | Once all is flushed and if no point was given up, the backend's counters are the number of the admitted calls and the sum of their amounts. |
| EmitterScrape.EmittedIsExportable | adapters/export/prometheus/prometheus.go:46-52 | The Prometheus exporter knows every family the emitter has under exactly the labels it sets, and refuses nothing but a negative amount. |
| EmitterScrape.PointsInSeries | adapters/export/prometheus/prometheus.go:46-52 | No two counter series of the emitter become one on the page. |
| EmitterScrape.ScrapeTellsWhatWasAdmitted | adapters/export/prometheus/prometheus.go:166-197 | Then a scrape shows, under any labels, the number of calls admitted under them and the sum of their amounts, estimates left out. |
| EmitterSteps.OnlyRepeatsAreSuppressed | emit/emitter.go:199-210 | A call is suppressed only if one with its key was admitted: an overflow drop leaves its retry free. |
| EmitterSteps.SuppressedExactly | emit/emitter.go:199-210 | A call is suppressed exactly if there is room and its key is among those of the last n admitted, for an n between the capacity (or all, if fewer) and twice the capacity. |
| EmitterSteps.RetryOfALostEventIsSuppressed | emit/emitter.go:199-214 | A call whose batch was lost was admitted, so its retry is suppressed exactly if there is room and the call is among the last n admitted; only the export drop count tells. |
| EmitterSteps.ALostCallCanStayLost | emit/emitter.go:199-214 | For every call, a run that loses it and suppresses its retry, so that it is never exported. |
| Faults.MergeIntervals | examples/checkout/checkout.go:280-297 | Merging stalls gives disjoint ordered intervals covering exactly the same minutes. |
| Faults.BlackoutsDisjoint | examples/checkout/checkout.go:202-218 | Comparing neighbours in start order finds an overlap of blackouts exactly if there is one. |
| Stages.CompletionsKeepOrder | examples/checkout/checkout.go:316-344 | Services that start in order complete in order, whatever the stalls. |
| Stages.CompletionNeverInsideStall | examples/checkout/checkout.go:334-344 | Nothing completes strictly inside a stall. |
| Stages.Stage.constructor | examples/checkout/checkout.go:264-298 | The stage stalls at exactly the minutes its queue's faults cover. |
| Stages.Stage.Stalled | examples/checkout/checkout.go:300-308 | Whether a minute is stalled. |
| Stages.Stage.FindSlot | examples/checkout/checkout.go:321-330 | Stops at the first minute neither stalled nor full; everything before it from the eligibility on is taken. |
| Stages.Stage.CompletionFrom | examples/checkout/checkout.go:332-343 | A service started at s ends when exactly `delay` un-stalled minutes have passed. |
| Stages.Stage.Schedule | examples/checkout/checkout.go:316-344 | Fails exactly on eligibility going backwards; otherwise starts are work-conserving, within capacity, outside stalls, and completions stay ordered. |
| Stages.Stage.Serve | examples/checkout/checkout.go:332-343 | Starts one service in the free slot found and keeps all that is known of the others. |
| Stages.Stage.IsOnSchedule | examples/checkout/checkout.go:264-344 | By the faults of its queue: starts are in order, within capacity, outside stalls, never later than a free minute, and each service takes exactly its delay in un-stalled minutes. |
| Checkout.Simulation.constructor | examples/checkout/checkout.go:352-369 | A run starts with the capture and the settle stage of its configuration, and empty otherwise. |
| Checkout.Simulation.NewTxn | examples/checkout/checkout.go:480-500 | A new transaction carries its minute and blackout, draws its amount, segment and customer in the original order, and has an amount in its segment's range. |
| Checkout.Simulation.ApiOutcome | examples/checkout/checkout.go:378-395 | The api faults decide in their listed order; an abandoned request never rolls for a 5xx. |
| Checkout.FateIsRolled | examples/checkout/checkout.go:378-395 | A request is abandoned if some active latency fault strikes, else refused if some active 5xx fault does, else goes on; a fault strikes if what it rolls is below its rate. |
| Checkout.Simulation.ThroughStages | examples/checkout/checkout.go:402-414 | Captures complete in order, so neither stage's ordering panic can be reached; what ends past the run is not recorded, and nothing is settled that was not captured. |
| Checkout.Simulation.Process | examples/checkout/checkout.go:370-417 | One arrival becomes one row, decided by the api faults and then by the two stages, and settles one unit of the demand in hand. |
| Checkout.Simulation.Reroll | examples/checkout/checkout.go:445-453 | Suppressed demand returns strictly later than now, or is lost. |
| Checkout.ReturnsSpread | examples/checkout/checkout.go:445-453 | The return may fall on any minute of the recovery window. |
| Checkout.Simulation.BlackedOut | examples/checkout/checkout.go:444-466 | A blacked-out minute admits nothing; it records its fresh arrivals and re-rolls them under the blackout's start, then the due returns under theirs, each to the minute it draws or to nowhere. |
| Checkout.Simulation.OpenMinute | examples/checkout/checkout.go:468-474 | An open minute turns every arrival and then every due return, in order, into a row of that minute. |
| Checkout.Simulation.Minute | examples/checkout/checkout.go:425-475 | One tick: under a blackout fresh arrivals are recorded and re-rolled with the due returns; otherwise every arrival and then every due return becomes a row of that minute. The demand after it is that of the minute's specification, whatever the stages do. |
| Checkout.RerollSettlesOne | examples/checkout/checkout.go:445-453 | A re-rolled arrival is lost or scheduled strictly later within the run: one unit less is in hand. |
| Checkout.MinuteIsBalanced | examples/checkout/checkout.go:425-475 | Every minute keeps, for every set of blackouts, suppressed demand equal to what returned, is scheduled, or is lost. |
| Checkout.NothingLeftWaiting | examples/checkout/checkout.go:431-475 | At the end no re-arrival is left, so suppressed demand is recovered or lost. |
| Checkout.RecoveredIsReturned | examples/checkout/checkout.go:480-500 | The recovered rows of some blackouts are exactly the returns of their demand. |
| Checkout.Run | examples/checkout/checkout.go:351-478 | For every random outcome: rows are well-formed, in order of creation, capture and settlement, none in a blacked-out minute, each with the fate it rolled. Every authorised row, in order, is captured by a schedule of the configured capture stage if that is done before the end, every captured one settled by one of the settle stage. Origins, suppressed minutes and lost demand are those the random source decides; and for every set of blackouts the suppressed fresh demand equals the recovered rows plus the lost demand. |
| Expected.ComputeExpected | testkit/expected.go:94-183 | Every golden number is what its own definition gives over the ledger; the guard fires exactly if more was recovered than suppressed. |
| Guard.NetLoss | testkit/expected.go:153-175 | For every run and window, suppressed less recovered is the demand that never came back, plus what blackouts begun earlier suppressed in the window, less what its own blackouts suppressed after it. |
| Guard.FiresOnlyIf | testkit/expected.go:165-175 | If any run fires the guard, a blackout that starts in the window is active after it, and an arrival it suppresses there can come back to an open minute of the run. |
| Guard.FiresIf | testkit/expected.go:165-175 | Whenever that is so, some random source makes a run fire it. |
| Guard.ExpectedOfRun | testkit/expected.go:94-183 | From random source to golden numbers: the guard fires exactly if the run's returns outnumber its suppressed demand, never if none can come back from past the window, and the net loss is the identity above. |
| Guard.CuttingABlackoutCanFireTheGuard | testkit/expected.go:165-175 | A run that fires the guard, on a window that sees the first half of a blackout. |
| Guard.NoOverhangIsSafe | testkit/expected.go:165-175 | No run fires it on a window that no blackout which starts in it outlasts within the run, even if the window begins inside one. |
| Memq.Aggregate | query/memq/memq.go:214-272 | One bucket: a counter's increase or point count inside it, a gauge's summed last levels or series count before its end, or nothing. |
| Memq.AggregateGauge | query/memq/memq.go:214-255 | The gauge half of it. |
| Memq.LevelMeansSet | query/memq/memq.go:224-233 | A series has a level exactly if it was set before the instant. |
| Memq.LastLevelIsTheLatest | query/memq/memq.go:224-233 | It is that of its latest sample, the earliest recorded of a tie. |
| Memq.Bucket | query/memq/memq.go:179-203 | All buckets of a query in order, stamped at their starts, those without a value left out. |
| Memq.QueryMetric | query/memq/memq.go:121-176 | One slice for exactly the groups with a point that matters, holding that group's buckets. |
| Memq.Collect | query/memq/memq.go:131-161 | Filtering and grouping in one pass keeps each group's points in order. |
| Memq.BucketsTileTheWindow | query/memq/memq.go:179-203 | A counter's buckets add up to the whole window, whatever the step. |
| MemqEvents.QueryEvents | query/memq/memq.go:275-352 | Refuses money grouped across currencies; otherwise exactly the keys with a matching event, with their count, sum and maximum; a distinct count counts the keys. |
| MemqEvents.GroupAddsUp | query/memq/memq.go:301-322 | A group's count and sum are those of the events that belong to it. |
| MemqEvents.CustomersAreCounted | query/memq/memq.go:275-300 | A distinct count by customer counts customers, of one segment and kind if these are filtered. |
| MemqEvents.GroupMaxIsLargest | query/memq/memq.go:301-322 | A group exists exactly if an event belongs to it; its maximum is attained and no event exceeds it. |
| PromQL.ReadSample | adapters/query/promql/translate.go:85-102 | A lookback reads a sample inside it with nothing newer before the instant. |
| PromQL.DenseIsSeen | adapters/query/promql/translate.go:78-102 | A series sampled at each change and once in the lookback is seen with its true value. |
| PromQL.SeenIsBorn | adapters/query/promql/translate.go:92-108 | Nothing is seen of a series before its first point. |
| PromQL.SelectorsAgree | adapters/query/promql/translate.go:175-203 | The backend's matchers and grouping, an absent label reading as empty, select and group as the reference does. |
| PromQLExact.BoundaryIsSum | adapters/query/promql/translate.go:85-102 | A boundary expression denotes, for each group, the sum of what its series show, and is present exactly if one is visible. |
| PromQLExact.DifferenceDenotes | adapters/query/promql/translate.go:100-108 | For any store, end less start (or zero for a missing start) is present with the end and worth the difference of what the two boundaries show. |
| PromQLExact.TrueIncrease | query/memq/memq.go:255-272 | The growth of a group's series between two instants is the sum of its points between them. |
| PromQLExact.CounterError | adapters/query/promql/translate.go:58-108 | For any store, a compiled counter query is off by exactly what its start hides less what its end hides. |
| PromQLExact.HiddenIsStale | adapters/query/promql/translate.go:85-102 | In a store sampled at each change a boundary hides exactly the series with no sample in its lookback. |
| PromQLExact.CounterErrorIsStale | adapters/query/promql/translate.go:58-108 | In such a store the query answers for a group exactly if one of its series has a sample in the end's lookback. It counts again the value of each series stale at the start and misses that of each stale at the end, and is right exactly if these sums agree. |
| PromQLExact.NothingHidden | adapters/query/promql/translate.go:85-102 | Sampled at each change and once per lookback, a boundary hides nothing and is present exactly if the group was born. |
| PromQLExact.CounterIsExact | adapters/query/promql/translate.go:58-108 | Under that sampling, the compiled counter query denotes the reference's exact sum for every group, absence counting as zero. |
| PromQLExact.GaugeIsExact | adapters/query/promql/translate.go:77-83 | Under that sampling, the compiled gauge query denotes exactly the reference's groups and levels. |
| PromQLExact.UndersampledCounterOvercounts | adapters/query/promql/translate.go:85-108 | A store without a sample in the start's lookback for which the answer is 5 where the reference counts 0. |
| PromQLExact.UndersampledCounterUndercounts | adapters/query/promql/translate.go:85-108 | A store with a series stale at the end for which the answer is -3 where the reference counts 2. |
| PromQLExact.ReferenceIsIncrease | query/memq/memq.go:179-272 | What the reference answers for a window is the sum of the group's points in it. |
| PromQLStepped.TranslateStepped | adapters/query/promql/translate.go:130-173 | Refuses counts and a missing step; otherwise one expression per forward bucket, with every lookback anchored at one instant. |
| PromQLStepped.Merge | adapters/query/promql/promql.go:174-201 | Each group's points in bucket order; zero counter differences dropped, gauge zeros kept. |
| PromQLStepped.MergeIsAnswer | adapters/query/promql/promql.go:121-201 | Merging the buckets' vectors gives the stepped answer. |
| PromQLStepped.PresenceIsMonotone | adapters/query/promql/translate.go:141-150 | What one boundary shows of a group every later one shows too. |
| PromQLStepped.BucketAdds | adapters/query/promql/translate.go:152-170 | Kept, dropped or absent, a bucket adds exactly the difference of its boundaries. |
| PromQLStepped.StepsTelescope | adapters/query/promql/translate.go:130-173 | For any store, a stepped counter answer adds up to the difference between the window's two anchored boundaries: dropping zero buckets loses nothing. |
| PromQLStepped.StepsAddUpToOne | adapters/query/promql/translate.go:58-173 | In a store sampled for both, its points add up to what the query compiled without a step denotes. |
| PromQLStepped.OneLookbackSuffices | adapters/query/promql/translate.go:130-150 | Sampled at each change and once in the window start's lookback is enough for every bucket. |
| PromQLStepped.SteppedCounterIsExact | adapters/query/promql/translate.go:130-173 | A sampled store answers with the reference's own points, less those that are zero. |
| PromQLStepped.SteppedGaugeIsExact | adapters/query/promql/translate.go:130-173 | ... and a gauge query with exactly the reference's points. |
| PromQLStepped.SteppedAgrees | adapters/query/promql/promql.go:121-201 | For increments that are not zero, the merged answer is the reference's, point by point. |
| PromExporter.OrderedValues | adapters/export/prometheus/prometheus.go:237-244 | Label values in the family's order, a missing label as the empty string. |
| PromExporter.Exporter.ExportMetrics | adapters/export/prometheus/prometheus.go:166-197 | Applies a batch up to its first unknown family or negative delta, reports which, and leaves the registry showing exactly what its whole history adds up to. |
| PromExporter.Exporter.AddCounter | adapters/export/prometheus/prometheus.go:223-230 | Adds a delta, or refuses a negative one and changes nothing. |
| PromExporter.Exporter.SetInflight | adapters/export/prometheus/prometheus.go:207-221 | Ignores a level older than the one shown; an equal time replaces it. |
| PromExporter.TotalsIgnoreOrder | adapters/export/prometheus/prometheus.go:70-75 | Counters do not depend on the order points arrive in. |
| PromExporter.FreshIsLatest | adapters/export/prometheus/prometheus.go:199-221 | A gauge shows a sample no other is fresher than. |
| PromExporter.FreshIgnoresOrder | adapters/export/prometheus/prometheus.go:199-221 | Every order of arrival shows the same level if and only if all samples of the series at its latest time agree. |
| PromExporter.TiesDiffer | adapters/export/prometheus/prometheus.go:205-219 | Two differing samples at one time: the exporter keeps the last and the in-memory reference the first. |
| PromExporter.ShowsTheReference | adapters/export/prometheus/prometheus.go:199-221 | Exporter and reference show one level if and only if the first and the last sample at the latest time agree. |
| PromExporter.ScrapeIsTruthful | adapters/export/prometheus/prometheus.go:166-230 | A scrape shows each series as the query semantics reads it: always the totals of counters, and the level of a gauge exactly if its ties agree. |
| OtlpSink.ProviderSink.Emit | adapters/export/otlp/otlp.go:152-170 | Without the slot, or after a stop, nothing is touched and the error says which. Otherwise it answers nil exactly if every flush drains, the provider is as the chunks up to the first failed flush leave it, and a success has handed the whole batch over in order and in one piece. |
| OtlpSink.EmitDelivers | adapters/export/otlp/otlp.go:144-170 | If every flush drains, the batch is handed over in order and in one piece; whatever they answer, the queue keeps its size and from an empty one nothing is overwritten. |
| OtlpSink.ProviderSink.EmitChunk | adapters/export/otlp/otlp.go:172-193 | Record by record, a chunk leaves the newest records that fit the queue. |
| OtlpSink.ProviderSink.Shutdown | adapters/export/otlp/otlp.go:224-232 | Marks the sink. A caller that got the slot stops the provider, handing over what its last flush gets out, and returns the provider's own answer; one that did not stops nothing. |
| OtlpSink.OverwritesExactly | adapters/export/otlp/otlp.go:144-170 | A batch overwrites records exactly if its first chunk and what a failed flush left do not fit the queue together, whatever its own flushes answer. |
| OtlpSteps.EmitKeepsOrder | adapters/export/otlp/otlp.go:152-193 | In any interleaving a record pushed out of the queue is never of the batch being emitted. |
| OtlpSteps.MoveIsSound | adapters/export/otlp/otlp.go:110-232 | Every step keeps the slot exclusive, the provider running while someone emits, and all reports honest. |
| OtlpSteps.NothingReachesAStoppedProvider | adapters/export/otlp/otlp.go:195-232 | No interleaving lets a record reach a stopped provider. |
| OtlpSteps.ReportsAreHonest | adapters/export/otlp/otlp.go:152-232 | A nil answer means the whole batch was handed over before the provider stopped, and that the call did not begin after the sink was; ErrShutdown and an expired context mean nothing was enqueued. |
| OtlpSteps.ShutdownCloses | adapters/export/otlp/otlp.go:406-415 | Once some Shutdown of the exporter is past its first step the exporter is closed, in any interleaving ... |
| OtlpSteps.ClosedRefuses | adapters/export/otlp/otlp.go:384-393 | ... and no call that is not past its check by then ever gets to the sink. |
| OtlpSteps.EmitOutlastsShutdowns | adapters/export/otlp/otlp.go:195-232 | From its check of the stopped flag to its release of the slot, whatever Shutdowns mark, wait or give up meanwhile, a call has a running provider and nothing it emits is discarded. |
| OtlpSteps.DeliveredIsNotRefused | adapters/export/otlp/otlp.go:195-232 | ... and it answers nil or the flush's error, never that the sink is stopped. |
| OtlpSteps.QueueNeverGrowsPastItsSize | adapters/export/otlp/otlp.go:40-46 | The queue never holds more than eventQueueSize records. |
| OtlpSteps.NothingIsOverwritten | adapters/export/otlp/otlp.go:144-193 | If even a failing flush empties the queue, no record is ever overwritten, whatever calls overlap. |
| OtlpSteps.ALeftoverIsOverwritten | adapters/export/otlp/otlp.go:144-193 | A run from the start in which a record left by a failed flush is overwritten by the next batch. |
| Deferred.IndexIn | engine/deferred.go:360-376 | The first position of a stage in the flow's order, or -1 exactly if it is not there. |
| Deferred.FloorsAgree | engine/deferred.go:15-26 | The engine knows exactly the tracker's buckets by name, each at the floor the tracker gives it. |
| Deferred.EmitterKnowsBuckets | emit/emitter.go:251-262 | The emitter accepts exactly the tracker's bucket names. |
| Deferred.BreachesArePast | engine/deferred.go:476-525 | A bucket is breached exactly if its floor, as the tracker has it, meets the stage's deadline, and projected lost exactly if moreover the registry says such a breach is lost. |
| Deferred.AddValueMatches | engine/deferred.go:121-140 | Adding one series or entity keeps every total of the leg the sum over its entries. |
| Deferred.LegIsDetermined | engine/deferred.go:79-90 | Two sets of entries that add up alike make the same leg. |
| DeferredGauge.LastLevel | engine/deferred.go:456-463 | The sum of a series' points. |
| DeferredGauge.DeferredFromGauge | engine/deferred.go:94-148 | Value by bucket and currency is the sum over exactly the series with a non-zero level there; projected lost is the sum over those whose bucket floor meets a deadline that is lost when breached; the oldest age is the highest floor seen; count and breaches are the companion gauge's sums, all and past their deadline. sawGauge says whether any series came back. |
| DeferredGauge.FillDeferredCounts | engine/deferred.go:415-452 | Count and breaches from the count gauge, and a caveat exactly if value exists without counts. |
| DeferredGauge.ZeroLevelsAreNotListed | engine/deferred.go:113-116 | A cell is listed exactly if some series in it has a non-zero level. |
| DeferredGauge.ZeroEntriesAreListed | engine/deferred.go:276-281 | An entry lists its cell whatever its amount. |
| DeferredEvents.EventsLookback | engine/deferred.go:385-410 | Two hours, or the longest deadline of the flows asked for. |
| DeferredEvents.LookbackReaches | engine/deferred.go:380-410 | It reaches back to the floor of every bucket and to every deadline asked for. |
| DeferredEvents.EndsAreTerminal | engine/deferred.go:154-156 | What ends a deferral is any outcome but a deferral or an unknown one. |
| DeferredEvents.CutGroupMeans | engine/deferred.go:206-232 | A cut's range sees an entity exactly if it was deferred before the cut's end, at its largest amount so far. |
| DeferredEvents.BucketAfter | engine/deferred.go:167-178 | An item appears with the first nested range its first deferral falls in, which is its age's bucket, left-closed as on the gauge. |
| DeferredEvents.ItemMeans | engine/deferred.go:199-233 | After all ranges an entity is in flight exactly if it was deferred in the window or its lookback, aged from the first deferral, at the largest amount. |
| DeferredEvents.CollectInflight | engine/deferred.go:204-234 | The nested loops compute that for every entity, whatever order groups come in. |
| DeferredEvents.CollectTerminals | engine/deferred.go:251-268 | The terminal stages of every entity, exactly. |
| DeferredEvents.OpenMeans | engine/deferred.go:321-357 | Open means deferred, with no terminal outcome at the same or a later stage and no deferral at a later one. |
| DeferredEvents.DeferredFromEvents | engine/deferred.go:186-305 | The same figures over exactly the open deferrals, each once, aged from its first and at its largest amount: value, value projected lost, oldest age, their number and the number past their deadline. |
| Telemetry.EventsFromResult | testkit/querier.go:50-68 | The events of a ledger: one deferral for each queue entry and one terminal event for each row telemetry saw end. |
| Telemetry.EventsCarryTheirRow | testkit/querier.go:50-82 | Each event carries its row's entity, customer, segment and exact money. |
| Telemetry.BuildTimeline | testkit/querier.go:262-286 | Exactly one call for each stage time set, row by row in lifecycle order. |
| Telemetry.SortStable | testkit/querier.go:231-288 | Sorted by time, with a row's simultaneous calls in lifecycle order. |
| Telemetry.CallKeepsItems | testkit/querier.go:263-298 | After each further call the tracker holds exactly the rows tracked and not yet done. |
| Telemetry.AfterIsAt | testkit/querier.go:293-298 | With every call up to an instant made and none later, it holds exactly the rows in a queue at that instant. |
| Replay.PublishShows | testkit/querier.go:300-305 | A publish makes every series readable at the tracker's last level. |
| Telemetry.RoomForOneMore | testkit/querier.go:246-316 | When a row is tracked it is in neither queue and every other row in at most one, so the tracked set is smaller than the ledger. |
| Replay.CallNotRefused | testkit/querier.go:308-311 | No call of an orderly ledger that fits the tracker is rejected or overflows. |
| Replay.InFlightPoints | testkit/querier.go:246-316 | Does not panic on an orderly ledger of valid amounts and at most 2^20 rows. When it does not, a reader before any instant sees of every series exactly the items an orderly ledger has in its queues at the last publish before it. |
| DeferredAgreement.GroupingAgrees | engine/deferred.go:121-140 | Adding entries up group by group changes no total of the leg. |
| DeferredAgreement.ItemIsOpen | engine/deferred.go:321-357 | A row in a queue at the publish is open by the events, if it entered in the lookback and its capture did not fail without a time. |
| DeferredAgreement.OpenIsItem | engine/deferred.go:321-357 | What is open by the events is such a row. |
| DeferredAgreement.ItemIsRows | engine/deferred.go:218-232 | Its bucket is that of its age at the window's end and its amount the row's. |
| DeferredAgreement.EntitiesAreItems | engine/deferred.go:186-305 | The events' entries are the seen items, one each, aged to the window's end. |
| DeferredAgreement.SeriesAreItems | engine/deferred.go:94-148 | The gauge's entries are the tracked items, aged to the publish and added up by series; those worth nothing only by count. |
| DeferredAgreement.ZerosAddNothing | engine/deferred.go:113-116 | Items worth nothing move no value series. |
| DeferredAgreement.GaugeLegIs | engine/deferred.go:94-148 | The gauge's leg is what the tracked items add up to at the publish. |
| DeferredAgreement.EventsLegIs | engine/deferred.go:186-305 | The events' leg is what the seen items add up to at the window's end. |
| LegAgreement.MovesOn | engine/deferred.go:157-178 | As time passes an item's bucket only moves on, and a deadline passed stays passed. |
| LegAgreement.EqualLegsTell | engine/deferred.go:30-57 | From two equal legs: every item is seen, no positive one changed bucket, none passed its deadline, and one worth nothing has a positive one in its cell. |
| LegAgreement.ConditionMakesEqual | engine/deferred.go:30-57 | And from these, equal legs: buckets, currencies, projected loss, oldest age, count and breaches. |
| LegAgreement.LegsAgreeExactly | engine/deferred.go:30-57 | For every ledger, publish and window that see one state of it, the two legs are equal exactly under that condition; their counts differ by the number of unseen items. |
| LegAgreement.BothRoutes | engine/deferred_test.go:589-655 | End to end, replay to both legs: both are produced for every ledger that fits the tracker, and they are equal but for the events caveat exactly under that condition. |
| RunAgreement.RunsAreRelated | engine/deferred_test.go:589-655 | For every checkout run, a publish less than a minute before its end and a window that closes less than a minute after it see one state of the ledger. |
| RunAgreement.RunCondition | engine/deferred.go:157-178 | On a run the condition is that no waiting row crosses a bucket floor, which a publish from the end on ensures and an earlier one exactly if no row's age is on a floor. |
| RunAgreement.RunBothRoutes | testkit/querier.go:107-125 | From random source to both legs, for any run published one cadence before its end and at it: read past the end the legs agree; read up to the end they agree exactly if nothing that waits is on a bucket floor. |
| RunAgreement.RunsFit | testkit/querier.go:308-311 | No checkout run of up to 2^20 transactions makes the replay panic. |
| RunAgreement.AnEarlierPublishDiffers | testkit/querier.go:107-125 | A ledger whose legs differ, read up to the end from the publish 15 seconds before it. |
| RunAgreement.AZeroAmountDiffers | engine/deferred.go:113-116 | A ledger with a row worth nothing whose legs differ. |
| RunAgreement.AFailedCaptureDiffers | testkit/querier.go:50-68 | A ledger with a failed capture without a time, whose legs count one item apart. |
| RunAgreement.SnapshotIsTracked | testkit/expected.go:122-150 | The golden snapshot counts exactly what the tracker holds, at the same ages. |
| RunAgreement.FailuresAreTold | testkit/expected.go:100-112 | The golden realized loss of any window is what the failed authorisations among the run's events say, by number and by amount. |
| RunAgreement.SettlementsAreTold | testkit/querier.go:359-377 | What a run settles in a window is what its successful settlements say. |
| RunAgreement.BreachesDiffer | testkit/expected.go:134-141 | When the golden snapshot and the leg differ on a breach, both ways. |

## Left out

- HTTP clients, response parsing, report rendering, CLI, configuration documents: input and output only.
- Loggers, tickers, contexts, goroutine scheduling and liveness: only the atomic steps they trigger are modelled, and safety is proved.
- Registry documents: a registry is taken as stages in order, deadlines and segments; its validation would add only one-branch checks.
- Baseline, unrealized leg, severity and coverage: statistical floating-point code.
- The concurrent fan-out of a stepped query and which of its errors wins: the merge is modelled on the vectors that came back.
- `float64` metric values: sums are integers, so nothing is said about sums past 2^53.
- The tracker's running money sums: mathematical integers, so wrap-around of an int64 sum is not modelled.
- Registry flow names, canonical label strings and label rendering: label sets and group keys are compared as maps; answers are not put in display order.
- MemqEvents.QueryEvents: without OrderBy and Limit; the answer is the set of groups.
- Requests that name several flows or a scope for the deferred leg: one flow, or all flows at once. Which of the two routes Deferred prefers is one branch on sawGauge.
- Query errors on the deferred routes: the in-memory reference never refuses these queries.
- LegAgreement.LegsAgreeExactly: for one flow, amounts that are not negative, and no stage time between the publish and the window's end.
- The arrival curve and the Poisson sampler of the simulation: how many arrive in a minute may be anything.
- Sub-minute times in the checkout simulation, whose grid is one minute; the knob panics of applyDefaults; a blackout or deadline at the zero time.
- Emitter.Std.Flush: the object's flush is not overtaken by other calls; overlapping flushes are in EmitterSteps.
- Emitter.Std.RecordProviderCall: whether the three labels pass their character fences is a parameter.
- Expected.ComputeExpected: the mean amount and the net-lost value estimated from it.
- TrackerSnapshots.FirstMaxItemsAreKept: says how many attempts are stored, not which.
- In TrackerSteps a refused reservation gives its slot back and counts the overflow in one step.
- Exports in EmitterSteps are all or nothing. With an exporter that applies part of a batch and then fails, re-credited drop points would count twice, and events delivered before the failure would also count as lost.
- Whether a background export of the log SDK succeeded: handed over means given to the SDK's exporter.
- Unaligned query times: PromQL times are whole milliseconds, and stepped windows whole seconds.
- Counter resets in PromQL: cumulative totals only grow.
- Replay.InFlightPoints: the emitter between tracker and gauge is left out; every sample becomes its two points, so a metric buffer overflow is not modelled there.
- PII patterns, Unicode validity and bounded label lengths.
