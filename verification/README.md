# Verified models of the OIS backend

Dafny models of the parts of the OIS backend and its tools whose correctness is not plain from reading one
function: parsers that fold over unordered maps, state machines that interleave many flights or many
processes, a geometric loop, and document formats. Each module says which source file it follows. Where the
source loops, mutates or rewrites in place, so does the model: classes and methods with loops are proved
against specification functions, and the theorems are about those functions or about whole runs.

`dafny verify dfyconfig.toml` checks everything.

## What is modelled

**Published navigation data** (`Selections`, `Records`, `CifpRecords`, `CifpColumns`, `CifpSequence`,
`CifpAirways`, `CifpAirwayTheorems`, `CifpProcedures`, `CifpProcedureTheorems`, `CifpProcedureOrigins`).
Fixed-width records of ARINC Specification 424 are read from their columns, filed into groups, sorted, resolved
through fix tables and folded. Every kept path is traced back to the lines of its legs and of the positions they
stand at. Rust leaves the iteration order of a hash map open: here a method picks each next key arbitrarily and
promises only that it took some order, so every claim is for all of them. The theorems say what no order can
change, and for airways and procedures exactly when an order shows.

**Delay legs** (`Delays`, `DelayRuns`, `DelayWitness`, `DelayTheorems`, `DelayComplete`, `Openings`,
`DelayDepartures`, `DelayArrivals`). `process` advances every flight of a snapshot through shared maps,
seen-sets and done-lists. The run is proved to decompose by callsign, every leg and session to have a witness in
the snapshots, and the flights that meet a stated timeline to have their leg recorded. The witnesses spell out
every threshold, and the runway by its distance over any number of turns. A flight can depart twice by the
collector's rules; for one sighted once in every snapshot the departures and the arrivals are counted exactly.

**Jobs** (`JobRegistry`, `SectorReload`, `NavRefresh`, `Retention`). The sector seed and refresh loops, with
admin triggers and writes by other replicas, are one state machine over the registry; a job's notifier is one
stored permit, and the sector table is a version number. The retention ladder is modelled down to which rows of
a session each pass deletes, with captures that protect rows and passes that fail.

**Realtime** (`Realtime`, `RealtimeFanOut`). One hub and one client connection as classes and a loop, with a law
that pairs every message sent with the input it answers; all hubs over one database as a state machine that may
lose notifications with a connection but duplicates none.

**Airspace** (`Walks`, `Airspace`). Ray casting over exact reals. The crossing loop is tied to parity of marked
edges on walks, from which chords, rotations, reversals and bounding boxes follow.

**Rate limiting** (`RateLimit`, `Usage`). The limiter is taken to be GCRA with a burst and an interval, and time
to be one clock read per request and two more per denied charge. Usage counters are conserved over any run of
requests and flushes.

**Documents** (`Text`, `Decimals`, `Tmi`, `TmiTheorems`, `TmiGrammar`, `TmiReadings`, `TmiAmbiguity`,
`TmiSpacing`, `Advisory`, `AdvisoryDocuments`, `AdvisoryLabels`, `AdvisoryTheorems`). The renderers as they
build their lines, their shape whatever the fields hold, what a reader finds under each label, and a reference
parser for the half of the NTML grammar that can be read back, with the exact condition for a second reading
when its hypotheses are dropped. The parser and the reader exist only in the model.

**Smaller tools** (`MarkerManifest`, `SurfaceImporter`, `GateImporter`, `Events`). The marker protocol under
every interleaving, the offline importers, and early-stopping paging against the full scan.

## Where the code and its comments part

The model follows the code. Each of these has a lemma.

- `jobs.rs` says that nothing is ever fully deleted by the retention ladder. A pass keeps rows whose number in
  the slice is a multiple of four, so under hourly runs an hour with fewer than 64 rows of a session ends empty when
  no capture protects it and no pass fails (`Retention.LadderLosesIffFewerThan64`, and a literal run in
  `Retention.SoleRowIsLost`).
- The compaction bucket is said to prevent double thinning. Two runs minutes apart across the hour are both due
  (`Retention.BucketIsNotEnough`); it is prevented exactly when due runs are an hour apart.
- `rate_limit.rs` rounds the wait up so that a client is not refused again. A wait of a whole number of seconds
  still is, because the refusal holds through its last instant (`RateLimit.RetryAfterSufficesIff`, and a literal
  run in `RateLimit.ReturnIsRefused`).
- `delays.rs` says that it records one departure per completed flight, and opens a session only for a flight sitting
  at its field. A climb-out sighted at or below 500 ft opens another, and a second leg is recorded
  (`DelayDepartures.ClimbOutDepartsTwice`); `DelayDepartures.SecondLegIff` says exactly when one is.
- `disambiguate` says it makes every name unique; it can collide with a name already there
  (`GateImporter.CanCollide`), and `normalise_heading` can give 360 (`GateImporter.HeadingInRangeIff`, and 359.97 in
  `GateImporter.HeadingRoundsTo360`).
- `filter_page` says that a page kept empty has only older pages before it. The listing is ordered by start and
  filtered by end (`Events.SortedByStartIsNotEnough`).
- `stamp` says an audit never sees the marker without its line. The audit reads the manifest before it lists the
  directory (`MarkerManifest.StaleManifestDeletes`), and a marker can be moved in between its check and its unlink
  (`MarkerManifest.StrikeDeletes`). It deletes a stamped marker in exactly these two cases, whatever other
  checkouts stamp meanwhile (`MarkerManifest.DeletesStampedIffOvertaken`).
- `tmi.rs` calls the prefixed half of its grammar unambiguous. It is when every field is one token, there is no
  qualifier and no free text, a kind does not start with a sign or digit, every condition has a detail and is not
  named like a prefix, its name holds no colon, an excluded facility no comma and an operator no sign or digit. The
  hypotheses on kinds, names, colons, commas and operators are each needed, and with any of them dropped a line has a
  second reading exactly under the guard of `TmiAmbiguity.AnotherReadingIff`: a kind that counts, or is spelled like
  one that does (`20MIT`), a name that reads as a free field (or a last field that reads as a condition), a colon or
  comma within, or a numeral that can start elsewhere. With several words in the fix or the kind a line has a second
  reading exactly when its words can part elsewhere as well, or a token reads twice (`TmiSpacing.SpacedReadingIff`).

## Model

| member | source | states |
|---|---|---|
| Records.GroupBy | backend/src/feed/cifp.rs:207-228 | Grouping files every line under its key, in file order, and nothing else; no group is empty |
| Records.GroupDistinct | backend/src/feed/cifp.rs:153-188 | A fix table holds, for every key, the positions filed under it, each once, first occurrence first |
| Records.FiledMembers | backend/src/feed/cifp.rs:282-317 | A value is filed under a key exactly when some line files it there |
| Records.FiledInOrder | backend/src/feed/cifp.rs:207-228 | The values filed under a key come one from each line that files there, in file order |
| Records.FirstOfFiled | backend/src/feed/cifp.rs:241-244 | What stands first under a key is what the first line to file there files |
| Records.DistinctInOrder | backend/src/feed/cifp.rs:181-185 | Without repeats, values come in the order of their first occurrences |
| CifpRecords.LatRoundTrip | backend/src/feed/cifp.rs:99-109 | Every published latitude decodes to exactly the signed angle it states, to the hundredth of a second |
| CifpRecords.LonRoundTrip | backend/src/feed/cifp.rs:112-122 | Every published longitude decodes to exactly the signed angle it states |
| CifpRecords.DmsRoundTrip | backend/src/feed/cifp.rs:126-135 | Degrees, minutes, seconds and hundredths read back whatever the width of the degrees |
| Decimals.NumeralReads | backend/src/feed/cifp.rs:130-133 | A decimal numeral with a point, an exponent, both or neither reads as the number it shows |
| Decimals.SignedNumeralReads | backend/src/feed/cifp.rs:130-133 | And with the sign it bears |
| Decimals.FractionDigits | backend/src/feed/cifp.rs:130-133 | A digit after the point counts tenths, and one after that tenths of the place before it |
| Decimals.JunkReadsNothing | backend/src/feed/cifp.rs:130-133 | Anything but a point, an exponent or the end after the digits makes a field no numeral |
| Decimals.DigitsAreU32 | backend/src/feed/cifp.rs:218-220 | Digits read as the number they show while it fits thirty-two bits, with a plus sign or without one |
| Decimals.OnlyDigitsAreU32 | backend/src/feed/cifp.rs:218-220 | And nothing else reads as an unsigned number |
| Decimals.RoundedIs | backend/src/feed/nav_source.rs:623-625 | Rounding gives the nearest integer, and of two the one farther from zero |
| CifpRecords.Round5Close | backend/src/feed/nav_source.rs:623-625 | The rounded coordinate has five decimals, and is within half of the last of the coordinate |
| CifpRecords.SortedIsStable | backend/src/feed/cifp.rs:232 | Sorting by sequence number keeps the legs of equal number in filing order |
| CifpRecords.SortedUnique | backend/src/feed/cifp.rs:232 | The stable sort is the only ordered arrangement of the legs that does so |
| CifpColumns.FixReadsBack | backend/src/feed/cifp.rs:153-188 | A fix record written in the published columns is read back to its identifier and rounded position; a continuation, or a position off the globe, files nothing |
| CifpColumns.AirwayFixReadsBack | backend/src/feed/cifp.rs:159-205 | A fix record of one of the three area-scoped tables is filed in that table, and no other, under its own area and identifier |
| CifpColumns.ProcedureFixReadsBack | backend/src/feed/cifp.rs:288-336 | A fix record of one of the four tables without areas is filed in that table, and no other, under its identifier |
| CifpColumns.AirwayLegReadsBack | backend/src/feed/cifp.rs:210-228 | An airway leg written in its columns is read back to its area, route, number, fix and pointer; any other record files nothing |
| CifpColumns.ProcedureLegReadsBack | backend/src/feed/cifp.rs:343-374 | A SID or STAR leg written in its columns is read back to its procedure, airport, transition, number, fix and pointer, `ALL` as the common route; any other record files nothing |
| CifpColumns.UnusableFilesNothing | backend/src/feed/cifp.rs:212-213 | A line that is too short or not plain text files nothing in any table |
| CifpSequence.SortedLines | backend/src/feed/cifp.rs:207-232 | The sorted legs of a group are exactly the lines that file it, by sequence number and then by place in the file |
| CifpAirways.Resolved | backend/src/feed/cifp.rs:233-246 | The loop over the tables resolves the path whose points `CifpAirwayTheorems.PathFollows` traces to the file |
| CifpAirways.ParseAirways | backend/src/feed/cifp.rs:202-264 | For whatever order the map is iterated in, each airway is the fold over that order, which visits every group once |
| CifpAirwayTheorems.RichestArea | backend/src/feed/cifp.rs:247-263 | An airway is there exactly when some area resolves two points; its path is one area's own and no area has a longer one |
| CifpAirwayTheorems.LengthIsOrderFree | backend/src/feed/cifp.rs:231-263 | No iteration order changes which airways there are, their type or their length |
| CifpAirwayTheorems.NeverSpliced | backend/src/feed/cifp.rs:190-246 | Every airway runs through one area: one point for each of that area's own legs that stands there, in sequence, each with its leg's fix at the position filed first, in that area, in the one table its section and subsection name |
| CifpAirwayTheorems.PathFollows | backend/src/feed/cifp.rs:231-246 | The same for the path of any route in any area, with the lines of its points |
| CifpAirwayTheorems.OrderShowsIffDisputed | backend/src/feed/cifp.rs:256-261 | The output is the same for every order if and only if areas that tie for the longest path agree on it |
| CifpProcedures.Resolved | backend/src/feed/cifp.rs:379-395 | The loop over the tables resolves the path whose points `CifpProcedureOrigins.PathFollows` traces to the file, legs without a fix contributing nothing |
| CifpProcedures.Fold | backend/src/feed/cifp.rs:376-418 | The fold over the groups, in whatever order, leaves for every procedure what the recursive definition says; `CifpProcedureOrigins` says where its routes and its type come from |
| CifpProcedures.FillAirports | backend/src/feed/cifp.rs:420-426 | Every kept procedure gets its filing airports in order, and nothing else changes |
| CifpProcedures.ParseProcedures | backend/src/feed/cifp.rs:332-428 | The same for the whole parser, airports included |
| CifpProcedures.KeptIsFiled | backend/src/feed/cifp.rs:366-373 | A procedure that resolves a point was filed for some airport |
| CifpProcedureTheorems.EveryProcedureAccounted | backend/src/feed/cifp.rs:376-427 | A procedure is there exactly when some filing resolves a point; the common route and each transition are some airport's own paths, longest over all airports; `apt` is the ascending list of exactly the filing airports |
| CifpProcedureTheorems.TransitionKeys | backend/src/feed/cifp.rs:410-417 | The transitions are exactly those that resolve a point somewhere |
| CifpProcedureOrigins.PathFollows | backend/src/feed/cifp.rs:377-395 | The path of a group has one point for each of its legs that stands somewhere, in sequence, each with its leg's fix at the position filed first in the one table its section and subsection name |
| CifpProcedureOrigins.RoutesFollow | backend/src/feed/cifp.rs:376-418 | The common route and each transition run so through one airport's filing |
| CifpProcedureOrigins.TypeIsFiled | backend/src/feed/cifp.rs:398-405 | A kept procedure is a STAR exactly when the record of some leg of it that stands has an `E` in its thirteenth column, and a SID exactly when it has a `D` |
| CifpProcedureOrigins.KeptIffStanding | backend/src/feed/cifp.rs:396-401 | A procedure is kept exactly when some line files a leg of it that stands |
| CifpProcedureTheorems.LengthsAreOrderFree | backend/src/feed/cifp.rs:376-427 | No order changes presence, airports, transitions or any path's length |
| CifpProcedureTheorems.RefilingKeepsLengths | backend/src/feed/cifp.rs:327-331 | Filing the same legs verbatim at one more airport changes no transition and no kept length, for any order before and after |
| CifpProcedureTheorems.OrderShowsIffDisputed | backend/src/feed/cifp.rs:400-417 | The whole procedure is the same for every order if and only if its filings are all of one type and its longest filings of a transition agree |
| Delays.FindNearestRunway | backend/src/feed/delays.rs:80-89 | None exactly when every end is more than 30 degrees away by any number of turns; otherwise the first of the ends nearest by the least such difference |
| Decimals.TruncatedIs | backend/src/feed/delays.rs:151 | A duration is a whole number of seconds, the rest cut off toward zero |
| Delays.AngleDiffIsLeast | backend/src/feed/delays.rs:74-77 | The difference of two headings is at most 180, and the least difference over any number of turns |
| Delays.RunwayFits | backend/src/feed/delays.rs:80-89 | The runway a leg is tagged with is that one |
| Delays.DelayState.SightDep | backend/src/feed/delays.rs:132-203 | The departure half of one pilot's turn: session, marks and legs, and no other flight touched |
| Delays.DelayState.SightArr | backend/src/feed/delays.rs:205-255 | The arrival half of one pilot's turn, likewise |
| Delays.DelayState.SightAll | backend/src/feed/delays.rs:125-256 | The interleaved loop leaves, for every callsign, what that callsign's own sightings alone define |
| Delays.DelayState.DropCompleted | backend/src/feed/delays.rs:258-263 | Exactly the completed sessions are removed |
| Delays.DelayState.Process | backend/src/feed/delays.rs:110-273 | One snapshot takes the shared state on flight by flight, and emits the legs in the order pilots complete them |
| DelayRuns.Collect | backend/src/feed/delays.rs:110-273 | A run of snapshots refines the recursive definition of a run |
| DelayRuns.Independence | backend/src/feed/delays.rs:110-273 | The legs and sessions of a callsign are exactly those of the run that never saw another flight, with no assumption of distinct callsigns |
| DelayTheorems.EveryLegWitnessed | backend/src/feed/delays.rs:133-256 | Every leg of every run has a witness in the snapshots: an opening, a first crossing or roll, a first touchdown or lift-off, followed in every snapshot, with the duration bounds, runway and procedure that the leg carries |
| DelayTheorems.EverySessionExplained | backend/src/feed/delays.rs:264-270 | Every surviving session was seen in the latest snapshot, is under three hours old and is explained by the snapshots |
| DelayTheorems.PassStep | backend/src/feed/delays.rs:125-256 | One more sighting keeps every session of the flight explained and every leg witnessed |
| DelayComplete.ArrivalRecorded | backend/src/feed/delays.rs:213-254 | The other direction: a flight seen opening outside the ring, crossing it and touching down in time has its leg recorded, whatever else the snapshots hold |
| DelayComplete.DepartureRecorded | backend/src/feed/delays.rs:134-201 | The same for a flight seen at its field, rolling and airborne in time |
| DelayComplete.LowClimbOutDepartsTwice | backend/src/feed/delays.rs:186-200 | Any climb-out sighted at or below 500 ft within reach of the field, after a departure leg, records a second one at the next fast sighting |
| DelayDepartures.HeldIff | backend/src/feed/delays.rs:134-201 | For a flight sighted once in each snapshot since it last held none, a departure session is held exactly when it was at its field in some sighting and no session has ended since by lift-off or age |
| DelayDepartures.DeparturesCounted | backend/src/feed/delays.rs:134-201 | Its departure legs are exactly as many as the sightings at which a timeline ends: at the field with none going on, rolling, then airborne, in a taxi time within bounds |
| DelayDepartures.SecondLegIff | backend/src/feed/delays.rs:134-201 | After a leg at one snapshot, a further one is recorded by another exactly when a further timeline lies between them |
| DelayDepartures.TimelinesDisjoint | backend/src/feed/delays.rs:134-201 | The intervals from opening to lift-off of its recorded departures never overlap |
| DelayDepartures.ClimbOutDepartsTwice | backend/src/feed/delays.rs:134-201 | Five literal snapshots of one take-off that record two legs |
| DelayArrivals.HeldIff | backend/src/feed/delays.rs:209-254 | Likewise an arrival session is held exactly when the flight was outside the ring in some sighting and no session has ended since by touchdown or age |
| DelayArrivals.ArrivalsCounted | backend/src/feed/delays.rs:209-254 | Its arrival legs are exactly as many as the sightings at which a timeline ends: outside the ring with none going on, inside it, then down, in a transit within bounds |
| DelayArrivals.TimelinesDisjoint | backend/src/feed/delays.rs:209-254 | The intervals from opening to touchdown of its recorded arrivals never overlap |
| JobRegistry.Registry.Register | backend/src/job_registry.rs:52-78 | Registering is idempotent: a known name keeps its entry whatever it is registered with, a new one has never run, and no other job changes |
| JobRegistry.Registry.Begin | backend/src/job_registry.rs:81-86 | A begun run is marked running since now, its last outcome, count and stored permit kept; no other job changes, and an unknown name does nothing |
| JobRegistry.Registry.Finish | backend/src/job_registry.rs:89-97 | A finished run counts exactly once more, shows its outcome and is no longer running; a permit stored meanwhile is kept, and no other job changes |
| JobRegistry.RunCountsOnce | backend/src/job_registry.rs:81-119 | A run that begins and finishes is counted once and keeps its start, whatever is triggered in between |
| JobRegistry.Registry.Trigger | backend/src/job_registry.rs:110-119 | A trigger is accepted exactly for a registered, triggerable job, and leaves one stored permit; a refused one changes nothing |
| JobRegistry.Registry.Take | backend/src/job_registry.rs:142-145 | A waiting loop wakes exactly on a stored permit, and uses it up; nothing else changes |
| SectorReload.RefusedTriggerIsEarly | backend/src/jobs.rs:576-584 | A refused trigger loses nothing: it means the refresh loop has not started, so a first read is still to come |
| SectorReload.StepKeepsInvariant | backend/src/job_registry.rs:126-151 | Every step of either job, of an admin or of another replica keeps: unless a read is pending, what the refresh holds or has stored is the whole table |
| SectorReload.NoLostReload | backend/src/jobs.rs:516-589 | In every interleaving, whenever nothing is pending the cache is the table, unless the last refresh failed or another replica wrote since |
| SectorReload.CacheOnlyAdvances | backend/src/jobs.rs:511-515 | Over any stretch of a run the cache never goes back to an older table |
| SectorReload.WithoutTriggerLastWordIsStale | backend/src/jobs.rs:555-558 | Without the trigger it fails: a run in which the reload in flight is the last word and stores the old table |
| NavRefresh.NavCache.ApplyNavRefresh | backend/src/jobs.rs:210-255 | Swaps only newer or equal cycles, and records the refresh time exactly for a healthy, non-empty fetch |
| NavRefresh.NewestStays | backend/src/jobs.rs:260-262 | After any sequence of fetches the loaded data is as the last fetch of the newest cycle ever offered, and never becomes empty |
| Retention.OncePerBucket | backend/src/jobs.rs:862-869 | With non-decreasing times, an hour bucket runs the tiers in its first invocation and in no other |
| Retention.NeverTwiceIffApart | backend/src/jobs.rs:112-125 | No row is thinned twice by one tier if and only if runs that are due are an hour apart |
| Retention.BucketIsNotEnough | backend/src/jobs.rs:862-869 | Runs at 0:59 and 1:01 are both due, and thin what their slices share twice |
| Retention.TiersInOrder | backend/src/jobs.rs:126 | A row meets an older tier only in a later run |
| Retention.AtMostThreeThinnings | backend/src/jobs.rs:112-126 | With due runs an hour apart a row is thinned at most once a tier, in the tiers' order, so at most three times ever |
| Retention.PassThinsItsWindow | backend/src/repos/stats.rs:1005-1037 | One pass keeps every `keep`-th row of each session in its own window among those no capture protects, and touches no disjoint window |
| Retention.PassKeepsCaptured | backend/src/repos/stats.rs:1007-1011 | A pass deletes no row inside an open or saved capture, and adds none |
| Retention.CapturedStays | backend/src/repos/stats.rs:1007-1011 | Over any run, a row that a capture protects whenever a pass looks is never deleted |
| Retention.ThinCompounds | backend/src/jobs.rs:118-123 | Thinning by one factor and then another is thinning by their product |
| Retention.Compaction.StatsCompactionOnce | backend/src/jobs.rs:849-907 | One invocation claims its bucket and runs the three passes exactly when the bucket is new; a pass that fails is skipped and the others still run |
| Retention.EveryInstantOnce | backend/src/jobs.rs:112-125 | Run hourly, each instant between a tier's first and last slice falls in exactly one of its slices |
| Retention.LadderThinsExactly | backend/src/jobs.rs:112-126 | Run hourly, the ladder keeps of each unprotected hour and session exactly every row, then every 4th, 16th and 64th original row: a factor of four for each tier whose pass does not fail |
| Retention.LadderLosesIffFewerThan64 | backend/src/jobs.rs:122-123 | Such an hour of a session ends with no rows at all if and only if it began with fewer than the ladder keeps one of, 64 when no pass fails |
| Retention.SoleRowIsLost | backend/src/jobs.rs:122-123 | A literal run: one row and 338 hourly invocations, and the row is gone |
| Realtime.PayloadRoundTrip | backend/src/realtime.rs:98-102 | Whatever characters the topic holds, other replicas recover it and its own sender drops it |
| Realtime.Subscription.Apply | backend/src/realtime.rs:220-243 | An accepted frame replaces the set with exactly what it names; any other frame changes nothing; the reply says which |
| Realtime.Pump | backend/src/realtime.rs:289-328 | A client is sent one message for each input that is answered, in order, until it or the hub goes away: every event until a frame is accepted and then those the latest accepted one names, a reply to every frame, a pong with its data to every ping, a keepalive for every tick |
| Realtime.ScriptServes | backend/src/realtime.rs:289-328 | The specification the loop is proved against says just that, without naming its parts |
| Realtime.AskedIsLatest | backend/src/realtime.rs:201-242 | The topics asked for are those of the latest accepted frame; a frame that is not accepted changes nothing |
| Realtime.UnknownInOrder | backend/src/realtime.rs:224-230 | A refused frame is told its unknown names, in its own order, repeats and all |
| Realtime.Events.Publish | backend/src/realtime.rs:65-82 | Publishing delivers locally once, and spawns a notification exactly with a database |
| Realtime.Events.OnNotification | backend/src/realtime.rs:115-118 | A notification is delivered exactly when it is another replica's |
| RealtimeFanOut.StepKeepsInvariant | backend/src/realtime.rs:63-134 | Every step of any replica keeps every publication counted right at every hub |
| RealtimeFanOut.FanOut | backend/src/realtime.rs:63-134 | In every run a publication is delivered once by its own hub and at most once by any other, exactly when notified to it, not lost and received; a local one never crosses |
| RealtimeFanOut.FanOutTopic | backend/src/realtime.rs:91-102 | Every delivery carries the topic it was published with |
| RealtimeFanOut.ListeningThroughout | backend/src/realtime.rs:104-134 | A replica that listens from before the notification and never loses its connection delivers it exactly once |
| RealtimeFanOut.Follow | backend/src/realtime.rs:65-118 | The hub's own methods move what it has delivered as each step of the machine moves its log, and spawn a notification exactly when the machine holds one |
| RealtimeFanOut.Replay | backend/src/realtime.rs:63-134 | So in every run: a replica's hub ends with exactly the log the machine gives it |
| Airspace.PointInRing | backend/src/feed/airspace.rs:132-149 | The loop returns the parity of the edges a ray crosses, and false for fewer than three points |
| Airspace.CrossesIsSide | backend/src/feed/airspace.rs:141-142 | The interpolated crossing test is the sign of a cross product, with no division |
| Airspace.InsideIsOddRing | backend/src/feed/airspace.rs:136-148 | The verdict is a walk around the ring crossing an odd number of edges |
| Airspace.RotationInvariant | backend/src/feed/airspace.rs:132-149 | The verdict does not depend on the first vertex |
| Airspace.ReversalInvariant | backend/src/feed/airspace.rs:132-149 | Nor on the direction |
| Airspace.RepeatedVertexInvariant | backend/src/feed/airspace.rs:132-149 | Nor on a vertex given twice |
| Airspace.ClosingPointInvariant | backend/src/feed/airspace.rs:132-149 | Nor on repeating the first vertex at the end |
| Airspace.ChordAdditive | backend/src/feed/airspace.rs:132-149 | Cutting a ring along any chord makes the verdict the exclusive-or of the two pieces |
| Airspace.FanTriangulation | backend/src/feed/airspace.rs:132-149 | The verdict is the parity of the fan triangles that hold the point |
| Airspace.TriangleExact | backend/src/feed/airspace.rs:132-149 | A triangle, in either direction, is decided exactly on its interior and exterior |
| Airspace.EvenSpans | backend/src/feed/airspace.rs:141 | Every ring has an even number of edges straddling a latitude |
| Airspace.OutsideBox | backend/src/feed/airspace.rs:132-149 | A point beyond the ring's bounding box is outside |
| Airspace.RectangleExact | backend/src/feed/airspace.rs:132-149 | A rectangle is decided exactly on its interior |
| RateLimit.Webhooks.WebhookBlock | backend/src/rate_limit.rs:207-211 | A sender is blocked through the very instant of its refusal's end, with the time left |
| RateLimit.Webhooks.ChargeWebhookFailure | backend/src/rate_limit.rs:215-222 | A conforming charge fills the bucket by one interval; a denied one refuses the sender for the wait found by one clock reading, from a later one; no other sender changes |
| RateLimit.Webhooks.Enforce | backend/src/rate_limit.rs:274-288 | A refused delivery is neither handled nor charged; a handled one is charged exactly when it fails |
| RateLimit.Webhooks.RetainRecent | backend/src/rate_limit.rs:192-204 | Pruning forgets exactly the full buckets and the spent refusals |
| RateLimit.OthersDoNotMatter | backend/src/rate_limit.rs:207-222 | What is held of a sender is exactly what it would be had no other ever called |
| RateLimit.DeniedUntil | backend/src/rate_limit.rs:215-222 | A denied charge refuses its sender until a cell fits, or at once when one already does, as far after as the clock has moved on when it is stored |
| RateLimit.NeverFailingNeverRefused | backend/src/rate_limit.rs:265-273 | A sender none of whose deliveries gets a 4xx is never refused |
| RateLimit.NoTwoDenialsInARow | backend/src/rate_limit.rs:213-222 | After a denied charge the sender's next charge is granted |
| RateLimit.FailureBound | backend/src/rate_limit.rs:269-288 | In any stretch of time at most 2(burst + span / interval) + 1 failing deliveries of a sender reach the handler |
| RateLimit.PruningShowsIffAtUntil | backend/src/rate_limit.rs:239-248 | Pruning changes an outcome if and only if it falls on the last instant of a refusal |
| RateLimit.PruningIsInvisible | backend/src/rate_limit.rs:239-248 | Nothing that happens after a pruning can tell that it happened |
| RateLimit.WholeSeconds | backend/src/rate_limit.rs:321-324 | The least whole number of seconds that covers a duration |
| RateLimit.RetryAfterSufficesIff | backend/src/rate_limit.rs:277-280 | Coming back after exactly `Retry-After` lets a sender in, unless the wait was a positive whole number of seconds |
| RateLimit.ReturnIsRefused | backend/src/rate_limit.rs:277-280 | A literal run in which it was, under one failure a minute: three deliveries at once, and one a minute later that is refused again |
| RateLimit.FullBucketTakesOneBurst | backend/src/rate_limit.rs:57-60 | A full bucket takes exactly one burst at once |
| RateLimit.DeniedResetIsExact | backend/src/rate_limit.rs:301-305 | The reset time of a refused request is exactly when a whole burst fits again |
| Usage.Meter.Record | backend/src/rate_limit.rs:157-166 | Counts a credential's request and refusal, and nobody else's |
| Usage.Meter.TakeUsage | backend/src/rate_limit.rs:169-189 | Takes every credential's counts in one row each and leaves none |
| Usage.NothingLostOrCountedTwice | backend/src/rate_limit.rs:156-189 | Over any run, what the flushes took and what is still held add up to exactly what was requested and refused |
| Usage.MadeCounts | backend/src/rate_limit.rs:157-166 | What was made is the number of a credential's requests, and of those refused |
| Usage.HeldAreCredentials | backend/src/rate_limit.rs:157-160 | Over any run, only callers with a credential are ever counted |
| Text.CollapseIdempotent | backend/src/text.rs:33-35 | Collapsing twice changes nothing more |
| Text.WordsStand | backend/src/text.rs:8-12 | The words of a text stand in it in order and apart, and leave out nothing but whitespace |
| Text.SpacesAre | backend/src/text.rs:8-12 | Whitespace is the twenty-five code points of the Unicode property |
| Text.CollapsedIsOneLine | backend/src/text.rs:8-12 | A collapsed value holds no line break |
| Text.TrimOf | backend/src/feed/cifp.rs:169 | Trimming takes the whitespace off both ends and nothing else |
| Text.CasesAgree | backend/src/feed/cifp.rs:179 | Each letter has one capital and one small form, and nothing else changes |
| Text.WordsOfJoin | backend/src/text.rs:33-35 | Splitting on whitespace undoes joining words with single spaces |
| Text.CleanIsCollapsed | backend/src/tmi.rs:44-46 | Capitals and collapsing commute, are idempotent and keep blankness |
| Text.LinesOfJoin | backend/src/advisory.rs:217 | Splitting a document on newlines recovers exactly the lines it was joined from |
| Tmi.Encode | backend/src/tmi.rs:62-117 | The line is the fields' parts in order, absent ones left out, joined by spaces |
| Tmi.ExcludedInOrder | backend/src/tmi.rs:106-114 | The facilities excluded are those that are not blank, in capitals and in order |
| TmiTheorems.DecodeUndoesEncode | backend/src/tmi.rs:21-36 | On the prefixed half a reference parser recovers every field of the restriction, up to capitals and whitespace |
| TmiTheorems.PrefixedHalfIsUnambiguous | backend/src/tmi.rs:32-36 | There, with none of its hypotheses dropped (among them a kind that does not start like a number), equal lines mean equal restrictions |
| TmiGrammar.StrictIsPlain | backend/src/tmi.rs:32-36 | The grammar with no hypothesis dropped is that half, with values an `i32` holds |
| TmiAmbiguity.AnotherReadingIff | backend/src/tmi.rs:32-36 | Whichever of its five hypotheses are dropped (kinds like numbers, reserved names, colons, commas, signs and digits), a line has another reading under the others if and only if an explicit guard on the fields holds |
| TmiReadings.SpeedReadsAgainIff | backend/src/tmi.rs:95-97 | A speed reads again exactly with a value outside 0 to 9, an operator whose last digits run on into one that fits, or one ending in a minus before a value not zero |
| TmiReadings.AltitudeReadsAgainIff | backend/src/tmi.rs:98-100 | An altitude, three wide, reads again exactly outside -99 to 999, or unsigned after such an operator |
| TmiAmbiguity.StrictIsUnambiguous | backend/src/tmi.rs:32-36 | With none of them dropped the guard is false |
| TmiAmbiguity.KindCollides | backend/src/tmi.rs:78-87 | A literal pair: kind 20MIT, and kind MIT with 20, both print `JFK 20MIT` |
| TmiAmbiguity.TypeNameCollides | backend/src/tmi.rs:92-106 | A literal pair: condition TYPE with detail B738, and aircraft B738, both print `JFK STOP TYPE:B738` |
| TmiAmbiguity.SpeedNameCollides | backend/src/tmi.rs:92-106 | A literal pair: condition SPD with detail <210, and that speed |
| TmiAmbiguity.AltitudeNameCollides | backend/src/tmi.rs:92-106 | A literal pair: condition ALT with detail >180, and that altitude |
| TmiAmbiguity.ListNameCollides | backend/src/tmi.rs:101-115 | A literal pair: condition EXCL with detail ZNY, and that exclusion |
| TmiAmbiguity.ColonCollides | backend/src/tmi.rs:101-104 | A literal pair: A:B with detail C, and A with detail B:C |
| TmiAmbiguity.CommaCollides | backend/src/tmi.rs:107-115 | A literal pair: one facility A,B excluded, and two, A and B |
| TmiAmbiguity.DigitCollides | backend/src/tmi.rs:95-97 | A literal pair: operator <2 with 10, and < with 210 |
| TmiAmbiguity.SignCollides | backend/src/tmi.rs:98-100 | A literal pair: operator - with 100, and no operator with -100 |
| TmiSpacing.SpacedReadingIff | backend/src/tmi.rs:60-117 | With the fix and the kind of any number of words, and whatever other hypotheses are dropped, a line has another reading if and only if its words part elsewhere into a fix, a kind and fields that read, or a token reads twice |
| TmiSpacing.FixWordsMove | backend/src/tmi.rs:74-87 | A fix of several words never tells where it ends, unless its second starts like a number |
| TmiSpacing.FixCollides | backend/src/tmi.rs:74-87 | A literal pair: via CAMRN DEER with kind STOP, and via CAMRN with kind DEER STOP |
| TmiSpacing.KindEndCollides | backend/src/tmi.rs:78-106 | A literal pair: STOP with condition A detailed B, and kind STOP A:B |
| TmiTheorems.QualifierSwallowsCondition | backend/src/tmi.rs:17-19 | With a qualifier and a bare condition, folding one into the other always prints the same line |
| TmiTheorems.KindSwallowsCondition | backend/src/tmi.rs:78-106 | So does folding a bare condition into a kind that does not count |
| TmiTheorems.TextSpellsKind | backend/src/tmi.rs:22-24 | Free text prints the same line as any other kind with its qualifier |
| TmiTheorems.ReservedConditionCollides | backend/src/tmi.rs:92-106 | Outside that half too: whatever the head, the qualifier and however many words the detail has, a condition named TYPE with nothing prefixed before it prints as the aircraft type |
| TmiTheorems.EncodedIsOneLine | backend/src/tmi.rs:42-58 | Whatever the author typed, a restriction encodes to one line |
| TmiTheorems.RowIsOneLine | backend/src/tmi.rs:257-269 | The log row is one line, and the same for the collapsed restriction |
| TmiTheorems.FacilitiesAre | backend/src/tmi.rs:223-233 | The requesting facility comes first, then the providing one, in capitals; or whichever is known |
| TmiTheorems.RowReads | backend/src/tmi.rs:257-269 | The row is its stamp, the restriction, the window and the facilities, in this order, with a space between |
| TmiTheorems.CancelRowReads | backend/src/tmi.rs:280-293 | The row of a cancellation is its stamp, the restriction, `CANCEL TMI` and the facilities |
| TmiTheorems.CancelRowIsOneLine | backend/src/tmi.rs:280-293 | So is the row of a cancellation |
| Advisory.PrintLine | backend/src/advisory.rs:96-110 | A table line is its cells, collapsed, all but the last padded to their columns |
| Advisory.PrintTable | backend/src/advisory.rs:95-117 | Heading, rule and rows, a line each |
| Advisory.CellIsAtStart | backend/src/advisory.rs:98-109 | Each cell stands on its line where its column starts |
| Advisory.AlignedIffFits | backend/src/advisory.rs:98-109 | A column starts at its offset if and only if every cell before it fits its own column |
| AdvisoryDocuments.PrintRouteSection | backend/src/advisory.rs:120-154 | The route section is its heading and one table, or two parted by a blank line |
| AdvisoryDocuments.PrintFltIncl | backend/src/advisory.rs:228-240 | One line an entry that is not blank, or one bare |
| AdvisoryDocuments.RenderReroute | backend/src/advisory.rs:160-218 | The loop builds exactly the lines that `AdvisoryLabels` reads back by label |
| AdvisoryDocuments.RenderGdp | backend/src/advisory.rs:252-316 | The loop builds exactly the lines that `AdvisoryLabels` reads back by label |
| AdvisoryDocuments.RenderGroundStop | backend/src/advisory.rs:324-378 | The loop builds exactly the lines that `AdvisoryLabels` reads back by label |
| AdvisoryDocuments.RerouteShape | backend/src/advisory.rs:160-218 | Whatever line breaks its fields hold, a reroute splits into exactly its lines: 18 and its rows, or 21 and its segments, the signature last |
| AdvisoryDocuments.GdpShape | backend/src/advisory.rs:252-316 | Likewise 22 and one for each flight entry that is not blank, or one bare |
| AdvisoryDocuments.GroundStopShape | backend/src/advisory.rs:324-378 | Likewise 16 |
| AdvisoryLabels.RerouteReads | backend/src/advisory.rs:177-205 | Read by its labels, a reroute's document says each field of it: collapsed, in capitals for the name and the area, absent when blank |
| AdvisoryLabels.RerouteValidReads | backend/src/advisory.rs:162-175 | Under `VALID` stands the period, by departure time or by entry |
| AdvisoryLabels.RerouteEndsRead | backend/src/advisory.rs:177-217 | Its header comes first, and a blank, its identifier, its period and the signature last |
| AdvisoryLabels.RerouteRowsRead | backend/src/advisory.rs:123-129 | Its rows stand in a table of origin, destination and route under `ROUTE:` |
| AdvisoryLabels.RerouteSegmentsRead | backend/src/advisory.rs:130-151 | Its segments stand in two tables, origins first, a blank line between |
| AdvisoryLabels.GdpOpeningReads | backend/src/advisory.rs:261-277 | Read by its labels, a delay program's document says each field before its flights |
| AdvisoryLabels.GdpScopeReads | backend/src/advisory.rs:282-308 | And each field after them |
| AdvisoryLabels.GdpFlightsRead | backend/src/advisory.rs:228-240 | Its flight entries that are not blank stand each on a line of its own, collapsed and in order; one bare label when there are none |
| AdvisoryLabels.GdpEndsRead | backend/src/advisory.rs:253-312 | Its header comes first, and a blank, its period and the signature last |
| AdvisoryLabels.GroundStopOpeningReads | backend/src/advisory.rs:333-340 | Read by its labels, a ground stop's document says each field before its flights |
| AdvisoryLabels.GroundStopDelaysReads | backend/src/advisory.rs:344-371 | And each field after them |
| AdvisoryLabels.GroundStopFlightsRead | backend/src/advisory.rs:228-240 | Its flight entries, likewise |
| AdvisoryLabels.GroundStopEndsRead | backend/src/advisory.rs:325-375 | Its header and its last three lines, likewise |
| AdvisoryTheorems.RerouteTransparent | backend/src/advisory.rs:45-59 | A reroute and its fully collapsed copy print the same document |
| AdvisoryTheorems.GdpTransparent | backend/src/advisory.rs:45-59 | So do a delay program and its copy |
| AdvisoryTheorems.GroundStopTransparent | backend/src/advisory.rs:45-59 | So do a ground stop and its copy |
| AdvisoryTheorems.RerouteDetermined | backend/src/advisory.rs:160-218 | A reroute's document determines every labelled field as printed, the tables and the signature |
| AdvisoryTheorems.GdpDetermined | backend/src/advisory.rs:252-316 | A delay program's determines every field, the flight entries that are not blank and the footer |
| AdvisoryTheorems.GroundStopDetermined | backend/src/advisory.rs:324-378 | And so does a ground stop's |
| AdvisoryTheorems.TableAlignedIffFits | backend/src/advisory.rs:88-94 | Every column of every line of a table starts at its offset if and only if every cell but the last fits |
| AdvisoryTheorems.RouteTableIsPrinted | backend/src/advisory.rs:120-128 | The route section of a single table is its heading and the table of its rows |
| AdvisoryTheorems.RouteTableAlignedIff | backend/src/advisory.rs:123-128 | The route table has its columns at 0, 9 and 19 on every line if and only if no origin exceeds 9 characters and no destination 10 |
| MarkerManifest.Markers.Stamp | bin/lib/marker_manifest.py:81-100 | Accepts exactly a known kind and a full SHA over a manifest that is absent or a regular file; the marker ends in place with its line |
| MarkerManifest.StampableIs | bin/lib/marker_manifest.py:84 | What is accepted is one of three kinds and forty small hexadecimal digits |
| MarkerManifest.Markers.Audit | bin/lib/marker_manifest.py:114-142 | Unlinks a linked markers directory, or else the linked directories of kinds and exactly the entries neither vouched for nor held, and reports each once |
| MarkerManifest.StepKeepsLinesFirst | bin/lib/marker_manifest.py:81-100 | Every step keeps every stamped marker's exact line in the manifest |
| MarkerManifest.MarkerNeverBeforeLine | bin/lib/marker_manifest.py:81-84 | In every interleaving a stamped marker has its exact line |
| MarkerManifest.DeletesStampedIffOvertaken | bin/lib/marker_manifest.py:114-142 | In every interleaving, the unlink of a condemned entry deletes a stamped marker if and only if, since the audit read the manifest, a stamp moved it into place to stay, before its check with a line outside those read, or after its check |
| MarkerManifest.SomeCheck | bin/lib/marker_manifest.py:134-136 | Whatever is condemned was condemned by one check since |
| MarkerManifest.AuditDeletesNoStampedMarker | bin/lib/marker_manifest.py:114-142 | In particular, with no append since that read and no marker moved in between check and unlink, an audit deletes no stamped marker |
| MarkerManifest.StaleManifestDeletes | bin/lib/marker_manifest.py:125-140 | A line appended after that read does not save its marker |
| MarkerManifest.StrikeDeletes | bin/lib/marker_manifest.py:134-139 | Nor is a marker safe that is moved over a forged one between check and unlink |
| SurfaceImporter.FetchAllFeatures | backend/src/bin/faa_surface_importer.rs:429-450 | The paging loop, its page limit and its errors |
| SurfaceImporter.WholeLayerOrError | backend/src/bin/faa_surface_importer.rs:426-450 | From any server of a fixed list in chunks: the whole layer in order or an error, and success exactly when no request fails and at most 50 are needed |
| SurfaceImporter.CanonicalIcaos | backend/src/bin/faa_surface_importer.rs:207-237 | Two loops over maps in any order compute each FAA id's canonical code |
| SurfaceImporter.CanonicalIsOrderFree | backend/src/bin/faa_surface_importer.rs:202-206 | The order and repetition of features do not matter |
| SurfaceImporter.CanonicalIsKnownOrSole | backend/src/bin/faa_surface_importer.rs:202-206 | A canonical code is a known airport, or the only valid code seen |
| SurfaceImporter.PickIs | backend/src/bin/faa_surface_importer.rs:202-235 | A code is picked exactly when it is the first known candidate; or, with none known, the sole candidate; or, with none known and not one alone, `K` and a three-letter id that is known |
| SurfaceImporter.OwnIcaoIs | backend/src/bin/faa_surface_importer.rs:181-190 | A feature's own code is four capital letters or digits, trimmed |
| SurfaceImporter.OneKeyEach | backend/src/bin/faa_surface_importer.rs:240-244 | All features of an FAA id with an entry share one key |
| SurfaceImporter.OwnKeyOtherwise | backend/src/bin/faa_surface_importer.rs:240-244 | A feature whose FAA id is blank or has no entry is filed under its own code |
| SurfaceImporter.RowsInOrder | backend/src/bin/faa_surface_importer.rs:302-318 | The rows of an airport are its features with a ring, in feature order |
| SurfaceImporter.TallyCounts | backend/src/bin/faa_surface_importer.rs:302-313 | The tallies number the features without a key, and of the others those of several rings and those of none |
| SurfaceImporter.MapPolygons | backend/src/bin/faa_surface_importer.rs:295-321 | Rows are filed under their key in feature order, the tallies are exact, and rows and skips add up to the features |
| SurfaceImporter.MergeRunways | backend/src/bin/faa_surface_importer.rs:546-573 | Refuses an empty set; otherwise replaces exactly the runways, and keeps everything else |
| GateImporter.Disambiguate | backend/src/bin/xplane_gate_importer.rs:222-231 | In place, the k-th occurrence of a name becomes itself or gets ` #k` |
| GateImporter.OccurrencesCount | backend/src/bin/xplane_gate_importer.rs:222-231 | An entry's number is how many entries up to it have its name |
| GateImporter.DifferentIffNoneTaken | backend/src/bin/xplane_gate_importer.rs:214-217 | The names come out all different if and only if no suffixed name was already an entry's name |
| GateImporter.CanCollide | backend/src/bin/xplane_gate_importer.rs:222-231 | Three stands for which they do not |
| GateImporter.SuffixedInjective | backend/src/bin/xplane_gate_importer.rs:228 | Two suffixed names are equal only if name and number are |
| GateImporter.HeadingInRangeIff | backend/src/bin/xplane_gate_importer.rs:233-236 | A folded heading stays below 360 if and only if it is below 359.95 before rounding |
| GateImporter.HeadingIsNearestTenth | backend/src/bin/xplane_gate_importer.rs:233-236 | The result is a whole number of tenths within 0.05 of the heading less some number of turns |
| GateImporter.HeadingRoundsTo360 | backend/src/bin/xplane_gate_importer.rs:233-236 | 359.97 folds to 360 |
| GateImporter.FullTurnsDoNotShow | backend/src/bin/xplane_gate_importer.rs:233-236 | Adding full turns changes nothing |
| Decimals.ShowInjective | backend/src/bin/xplane_gate_importer.rs:228 | Different counts print differently |
| Events.FilterPage | backend/src/feed/events.rs:68-75 | Keeps, in order, the events not over by the cutoff, and goes on exactly if there are any |
| Events.KeptInOrder | backend/src/feed/events.rs:68-73 | What is kept of a page is exactly its events that are not over, in order, as often as it lists them |
| Events.SyncOnce | backend/src/feed/events.rs:124-144 | Pages backward collecting until a page keeps nothing or cannot be read |
| Events.EarlyStopIffTogether | backend/src/feed/events.rs:65-75 | The early stop collects what the full scan would if and only if no page with something to keep lies behind one without |
| Events.EarlyStopIsComplete | backend/src/feed/events.rs:65-75 | So it does when no page is empty and ends are in order from page to page |
| Events.SortedByStartIsNotEnough | backend/src/feed/events.rs:65-67 | But order by start does not suffice: a long event behind a page of short ones is lost |

## Left out

- Floating point: coordinates, distances and angles are exact reals, so rounding and overflow are not modelled; a field that reads as an infinity or not-a-number is kept apart from the finite ones.
- Navigation data: the file is given as its lines; fetching and unzipping a cycle are not part of this model.
- Delays.World: great-circle distance, the runway table, `sid_of`, `star_base` and `arrival_gate` are arbitrary functions and data; the collector's database writes and its check of the feed's own timestamp are not part of this model.
- Airspace: `contains`, `any_contains` and the GeoJSON parser only map over `point_in_ring` or a library, and would add easy members.
- RateLimit.Webhooks.ChargeWebhookFailure: requests are handled one at a time, each checked and charged at one instant; a failing delivery already in the handler when another is denied can add to the bound.
- RateLimit: the limiter library is taken to be textbook GCRA; choice of bucket by caller, overrides and the headers of an allowed response are not modelled.
- Usage.Meter.TakeUsage: a poisoned lock, which makes the flush return nothing, is not modelled.
- SectorReload: time is not measured, so a tick may come at any moment a loop waits; the reload's query is one atomic read of the table.
- JobRegistry: `snapshot`, and what a job does besides the two sector jobs, would only add easy members.
- Retention.Compaction.StatsCompactionOnce: the pruning of winds, histories and legs is not modelled, and rows are there from the start, since a row is first looked at a week after its timestamp.
- Realtime.Pump: inputs come in one sequence, so the order in which the socket, the hub and the timer win is whatever the sequence says; the 256-event buffer appears only as a lag notice.
- RealtimeFanOut: delivery from a hub to its own clients is `Realtime.Pump`; here a delivery is an entry in the hub's log.
- Advisory: the cancellation notice, the payloads for the chat bot and the builders that fill an advisory from a program are short and not modelled.
- TmiSpacing.SpacedReadingIff: the element and the fields after the kind are one token each, and the readings compared are of the same grammar; a qualifier, a bare condition or free text gives other readings still (`TmiTheorems.QualifierSwallowsCondition`, `TmiTheorems.KindSwallowsCondition`, `TmiTheorems.TextSpellsKind`).
- DelayDepartures.TimelinesDisjoint: for a flight sighted once in each snapshot, like its twin for arrivals; a callsign listed twice in one snapshot can complete two legs of one session.
- Tmi: `render_english` is not modelled; nor is the formatting of times.
- MarkerManifest.Markers.Audit: one checkout; the order entries are listed in and the ledger that rewrites the manifest are not modelled, and in the state machine the directories are real.
- SurfaceImporter.FetchAllFeatures: retries and back-off within one request are part of the server; `map_ramps` repeats `map_polygons` for another layer.
- GateImporter: `parse_stands` and the fields it reads are not modelled, only the naming and the headings.
- Events: writing the collected events to the database, and reading the page count, are not modelled; an event with an unrepresentable time is taken to be gone from its page already.
- Decimals.ParseU32: the identifiers of a record are plain text by the parser's own guard, so no Unicode is folded anywhere.
- Everything behind SQL, HTTP handlers, sign-in, metrics, the web, desktop and chat front ends.
