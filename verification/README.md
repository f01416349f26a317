# ZeepCentraal core, verified

Proofs about the parts of ZeepCentraal whose mistakes would be hardest to notice: the ghost validator, two
delivery protocols that survive crashes, two codecs, the rank notifications, the level contribution jobs, and
the player score and connection pool arithmetic.  Each module models one component and states what it is for.

| component | modules |
|---|---|
| ghost validator | `CheckpointGraph`, `LevelGeometry`, `SweptQuery`, `PathGeometry`, `GhostVerdict`, `LongRun` |
| crash-proof delivery | `PlaylistDelivery`, `ActivityFeed` |
| codecs | `BitStream`, `Tar`, `Archive` |
| rank notifications | `RankWatches`, `RankMessage` |
| job queue and paged jobs | `SweepSteps`, `SweepInvariant`, `SweepDrops`, `StaleSweep`, `JobQueue`, `Bisection`, `Catalog`, `GhostAudit` |
| scoring and pool | `Score`, `Pool` |
| shared mathematics | `Wrappers`, `Sorting` (with `Lexicographic`), `Decimals`, `Text`, `Utf8`, `FiniteSets`, `Reachability`, `Calls` |

Objects whose methods update fields are classes (`Report`, `World`, `Feed`, `BitWriter`, `BitReader`, `Output`,
`Queue`, `DatabasePool`); loops are loops with invariants; pure code is functions.  Coordinates, times and
points are reals.  The network, the clock, storage, SQL execution and foreign libraries are parameters: a fault
script for every call of a delivery, an arbitrary pager, an arbitrary completion order, an arbitrary narrow
phase, an arbitrary lower-casing.

`dafny verify dfyconfig.toml` checks everything.

Four promises turned out to need a condition, and each has it:

- A playlist pass that ends with success shows the desired playlist of every row that is not waiting for a retry,
  if and only if the row did not claim it after the sync while its recorded message was gone.  A deletion that
  takes effect without being recorded, followed by the desired playlist reverting, reaches that state, and the
  pass then selects nothing (`PlaylistDelivery.Pass`, `UnselectedTruth`, `StaleRecord`).  Every row a pass does
  select and delivers is shown (`Deliver`).
- A request of a contribution sweep reaches every user it concerns, or keeps them waiting in a row, unless a row
  is archived after three failed attempts or superseded while it alone covers them (`SweepInvariant.NobodyIsForgotten`,
  `LosesExactly`).  A superseded deferral or failure does so exactly for the users the pending row has passed and no
  third row covers.  The continuation of a page is not fenced by its lease, so a worker that lost it can put a row
  ahead, and users are then lost; under the three rules of `SweepDrops.Disciplined` no acknowledgement ever loses
  anybody (`SupersededExactly`, `DropsAhead`, `DisciplinedRun`, `NobodyIsDropped`,
  `StaleSweep.StaleContinuationDrops`).
- A task with a permit finds a free slot because the connection is dropped before the permit
  (`Pool.CapacityHolds`, `PermitFirstStarves`).
- A clean run passes if and only if its exact query work fits the budget (`GhostVerdict.ValidatePrepared`);
  `LongRun.CleanRunOverBudget` is a clean run, on a level prepared from two blocks, that does not.

A rank message is within 4000 units if and only if its time fits the room the batch leaves, which is at least 148
units; every time the event log renders fits (`RankMessage.ExactBudget`, `RoomIsEnough`, `RenderedTimeFits`).

## Model

| member | source | states |
|---|---|---|
| `CheckpointGraph.CheckpointGraph` | crates/core/src/ghost_validation.rs:210-315 | A non-array and an oversized array give their one reason and no groups; otherwise the groups are exactly the connected components of the links read, restricted to active nodes (non-empty, sorted, disjoint, covering, two uids together exactly when a path joins them, inactive gates allowed on it), and the sorted reasons are reported exactly when their causes hold |
| `CheckpointGraph.CollectNodes` | crates/core/src/ghost_validation.rs:231-249 | The node of a uid is the last relevant block carrying it (blocks without one get a name of their own), active when it is a checkpoint or a gate that is on, and each identity reason appears exactly when a uid is missing or repeated |
| `CheckpointGraph.ReadLinks` | crates/core/src/ghost_validation.rs:250-289 | The adjacency map is exactly the symmetric closure of the accepted links of the nodes read, the budget reason appears exactly when a node was left unread, and the link reasons exactly when a link was malformed or led nowhere |
| `CheckpointGraph.BudgetKept` | crates/core/src/ghost_validation.rs:251-267 | The links read never exceed the budget, and the first unread node would have exceeded it |
| `CheckpointGraph.Component` | crates/core/src/ghost_validation.rs:295-308 | The worklist from a root ends with the sorted active nodes connected to it, and has visited exactly what was visited before plus everything connected to the root |
| `CheckpointGraph.FindGroups` | crates/core/src/ghost_validation.rs:290-311 | The groups of all roots are the connected components restricted to active nodes |
| `CheckpointGraph.NoReasonsMeansAllUsed` | crates/core/src/ghost_validation.rs:231-313 | No reason can be reported exactly when every uid is present and unique and every declared link of every node was read and leads to a node |
| `SweptQuery.PartitionPoint` | crates/core/src/ghost_validation.rs:988-988 | Everything before the bound is within the limit and the trigger at the bound is beyond it |
| `SweptQuery.ContactMeans` | crates/core/src/ghost_validation.rs:481-515 | The narrow phase is asked about the whole segment with the radius, exactly when on every axis the box and the segment come within the radius of each other; otherwise the answer is a miss |
| `SweptQuery.ClipMeans` | crates/core/src/ghost_validation.rs:995-1003 | A segment running past the finish ends where an evenly moving body is at the finish time, and any other at its own end |
| `SweptQuery.ClipStaysLeft` | crates/core/src/ghost_validation.rs:995-1003 | Cutting a segment at the finish time never moves its end beyond the larger of the two x positions |
| `SweptQuery.BeyondReachMisses` | crates/core/src/ghost_validation.rs:481-488 | A trigger whose box starts beyond the reach of a segment is a clean miss for any narrow phase |
| `SweptQuery.PrefixSuffices` | crates/core/src/ghost_validation.rs:986-1016 | With triggers sorted by low x, the prefix up to the bound has the same hits as all triggers, and nothing beyond it hits or errs |
| `SweptQuery.Sweep` | crates/core/src/ghost_validation.rs:979-1017 | The pruned sweep returns what testing every trigger on every segment returns, hits and errors alike, and spends exactly the pruned work; it is cut short exactly when that exceeds the budget (for a sweep without an error) |
| `SweptQuery.SweepSegment` | crates/core/src/ghost_validation.rs:986-1016 | One segment: the hits of the prefix, an error only if a trigger of the prefix errs, a stop only if the prefix exceeds the budget |
| `LevelGeometry.BoxOf` | crates/core/src/ghost_validation.rs:645-652 | The box is the tightest one around the points |
| `LevelGeometry.AddCollider` | crates/core/src/ghost_validation.rs:604-661 | A collider counts exactly when it is convex and enabled, stops the preparation exactly when it exceeds the remaining vertices, adds at most one trigger with its tight box, and gives a reason exactly when it is not convex, too large, or enabled without a transform or a hull, under the name of that cause; without a reason a counted one always adds its trigger |
| `LevelGeometry.AddBlock` | crates/core/src/ghost_validation.rs:563-666 | A start block adds exactly its transformable spawns and no trigger; without a reason a checkpoint, active gate or finish adds exactly one trigger for each of its convex enabled colliders, in order; the reasons added are exactly the names of what is wrong with the block and its colliders, and the preparation stops exactly when its vertices exceed what is left |
| `LevelGeometry.GoodMeans` | crates/core/src/ghost_validation.rs:563-666 | A block has nothing wrong with it exactly when it is not logic-controlled and, if concerned, has a supported definition whose colliders are all convex and usable, one of them live |
| `LevelGeometry.PrepareLevel` | crates/core/src/ghost_validation.rs:539-689 | Unless preparation stops, the geometry reasons are exactly the names of what is wrong with some block or collider and the spawns exactly those of the start blocks; it stops exactly for a level that is no array, has too many blocks or more live vertices than the budget, and says so; there is no geometry reason if and only if every block is good and the live vertices fit, and then there is exactly one trigger for each live collider, up to the sorting by low x; every trigger comes from the level; groups and graph reasons are those of the checkpoint graph of the same blocks; and the geometry is complete exactly when graph, identities and geometry gave no reason |
| `GhostVerdict.Report.Failed` | crates/core/src/ghost_validation.rs:125-128 | The status becomes fail for good and the reason is recorded |
| `GhostVerdict.Report.Uncertainty` | crates/core/src/ghost_validation.rs:129-136 | Only a run that has not failed becomes uncertain, and a reason is recorded once |
| `GhostVerdict.Report.Missed` | crates/core/src/ghost_validation.rs:925-931 | The reason is recorded, and makes the run fail exactly when the evidence is proven |
| `GhostVerdict.CheckTelemetry` | crates/core/src/ghost_validation.rs:151-202 | No reason is added exactly when the splits and speeds are clean for the ghost's version and the group count, and the run fails exactly when a present-day ghost's are unsound or an old one's prove missed checkpoints |
| `GhostVerdict.CheckRun` | crates/core/src/ghost_validation.rs:705-767 | No reason is added exactly when player, telemetry, frame order and run evidence are sound; it fails exactly for another player, unordered frames, refused telemetry or refused evidence, and stops exactly for unsound evidence |
| `GhostVerdict.CheckSnapshot` | crates/core/src/ghost_validation.rs:768-791 | No reason is added exactly when a prepared level within budget has a clean graph and clean counts; it fails exactly when the telemetry of an old ghost is short of the groups of a readable graph |
| `GhostVerdict.CheckManifest` | crates/core/src/ghost_validation.rs:792-819 | Goes on only with a sound profile, and adds no reason exactly when there is a calibrated one of the supported version |
| `GhostVerdict.CheckSamples` | crates/core/src/ghost_validation.rs:843-886 | Goes on only with two samples or more, within the limits and with geometry; adds no reason exactly when the samples are complete and the geometry gave no reason |
| `GhostVerdict.PathDistance` | crates/core/src/ghost_validation.rs:1060-1110 | For ordered samples and within budget, the distance is that to a point the path passes within one interval of the event, and no such point is nearer, although only a window of the pairs is visited; the work spent is exactly the pairs of the window, and the test is cut short only when they exceed the budget |
| `PathGeometry.SegmentDistanceIsLeast` | crates/core/src/ghost_validation.rs:1103-1109 | The clamped projection gives the distance to a point of the segment, and no point of the segment is nearer |
| `PathGeometry.WindowMeans` | crates/core/src/ghost_validation.rs:1094-1102 | The two clamped bounds cut out exactly the points a pair of samples passes within one interval of the event |
| `PathGeometry.WindowDistanceIsLeast` | crates/core/src/ghost_validation.rs:1074-1109 | So the distance to a pair is the least distance to any point it passes within one interval of the event, and is reached |
| `GhostVerdict.WindowCovers` | crates/core/src/ghost_validation.rs:1060-1067 | Every pair of samples whose times are near the event lies in the window |
| `GhostVerdict.CheckEvent` | crates/core/src/ghost_validation.rs:1025-1128 | Adds no reason only if the event is before the finish, touches its own trigger and has, within one interval, a point of the path within the tolerance, and then adds none; every reason it adds is true of the event; it spends exactly the event's work and is cut short exactly when that exceeds the budget; it fails exactly a proven run whose event is late, off its trigger or, while the budget lasts, off the path |
| `GhostVerdict.TouchesOwnMeans` | crates/core/src/ghost_validation.rs:1049-1056 | The index finds the last trigger the event can claim, and the event touches it exactly when the contact test says so |
| `GhostVerdict.CheckEvents` | crates/core/src/ghost_validation.rs:1025-1128 | The events spend exactly the sum of their work unless it exceeds the budget, and fail exactly a proven run one of whose events fails among those reached within it |
| `GhostVerdict.CheckStartAndFinish` | crates/core/src/ghost_validation.rs:932-970 | A run with evidence goes on only with exactly one finish event, and gets no reason exactly when it starts at a spawn and finishes at the claimed time with a sample there; it fails exactly for a wrong claimed time or a proven wrong start or missing finish |
| `GhostVerdict.CheckSplits` | crates/core/src/ghost_validation.rs:1130-1146 | The run fails, with a reason, exactly when the non-finish events do not match the splits in number and in value |
| `GhostVerdict.CheckGroups` | crates/core/src/ghost_validation.rs:1154-1174 | No reason is added exactly when the non-finish events have known, distinct groups and as many as there are; otherwise a proven run fails |
| `GhostVerdict.EveryGroupHasAnEvent` | crates/core/src/ghost_validation.rs:1162-1173 | Known distinct groups in full number mean that every group has an event: events and groups correspond one to one |
| `GhostVerdict.SortGroups` | crates/core/src/ghost_validation.rs:1175-1181 | Each group is matched when a swept hit lies in it and missing otherwise, and with none missing the matched ones are all groups in order |
| `GhostVerdict.CheckMissing` | crates/core/src/ghost_validation.rs:1182-1209 | A missing group always leaves a reason, and it is fatal exactly when absence is proven (for old ghosts: a continuous run to a known finish, complete geometry, no ragdoll) |
| `GhostVerdict.ValidatePrepared` | crates/core/src/ghost_validation.rs:690-1216 | A run passes if and only if it has evidence, a clean identity, snapshot, manifest and samples, starts at a spawn, has one finish event at the claimed time, every event on its trigger and on the path, events and groups in one-to-one correspondence, every group hit, and its exact query work fits the budget; it fails if and only if its player, frames, telemetry or evidence are refused, or it reaches the geometry and has a wrong claimed time, mismatched splits or an absence that the evidence proves, found before the budget ends; and every recorded reason is true of the run |
| `GhostVerdict.CsvTouch` | crates/core/src/ghost_validation.rs:1031-1048 | Without identities an event touches exactly when some trigger of its kind is in contact, although only a prefix of the triggers is tried, and costs exactly the tests up to the first one |
| `GhostVerdict.GroupLeftOut` | crates/core/src/ghost_validation.rs:1171-1173 | Fewer accepted groups than groups leave a group of which no event is |
| `GhostVerdict.AmpleBudget` | crates/core/src/ghost_validation.rs:979-1073 | The work is at most events plus samples times triggers plus events times samples (plus triggers for a level without identities), so a run within that bound is never over budget |
| `LongRun.CleanRunOverBudget` | crates/core/src/ghost_validation.rs:989-994 | On a level of a start block and a finish block with two hundred colliders, a run of a hundred seconds with nothing wrong exceeds the query budget, for any narrow phase in which a ball at the centre of the box touches it |
| `LongRun.PrepareBlocks` | crates/core/src/ghost_validation.rs:539-689 | Preparing those two blocks gives that level |
| `LongRun.Judge` | crates/core/src/ghost_validation.rs:690-1216 | From the two blocks to the verdict: the clean run is not passed |
| `PlaylistDelivery.MarkerInjective` | crates/inspector-zeep/src/playlist_publication.rs:19-21 | Two contests or playlists never share a marker |
| `PlaylistDelivery.TextsCarryOneMarker` | crates/inspector-zeep/src/playlist_publication.rs:32-36 | A posted payload carries the footer of its own contest and playlist and of no other, whatever the contest is called |
| `PlaylistDelivery.FooterExample` | crates/inspector-zeep/src/playlist_publication.rs:185-213 | The footer of a contest and playlist reads as in the program's test |
| `PlaylistDelivery.RecoverMessage` | crates/inspector-zeep/src/discord.rs:114-153 | Nothing found means the whole channel history was scanned without a match, a result is a match in it, and the bound error means the history fills ten pages without one |
| `PlaylistDelivery.ResolveAttempt` | crates/inspector-zeep/src/playlist_publication.rs:103-115 | After success the row has no attempt and its record agrees with the channel; without faults it fails exactly when ten full pages of messages hide whatever the attempt left |
| `PlaylistDelivery.RemoveOld` | crates/inspector-zeep/src/playlist_publication.rs:122-142 | After success the contest has no live message and none is recorded; a deletion whose answer is lost leaves the row and removes the message |
| `PlaylistDelivery.PostNew` | crates/inspector-zeep/src/playlist_publication.rs:148-157 | After success the desired playlist stands alone in the channel and is recorded; whichever call is cut, at most one message lives and the row leads to it |
| `PlaylistDelivery.Deliver` | crates/inspector-zeep/src/playlist_publication.rs:49-158 | Under any faults the invariant of every contest is kept and no other contest is touched; success on a pending row shows exactly the desired playlist (or nothing for a count of 0), and on any row if and only if its record was not stale; without faults it fails if and only if the artifact mismatches or the attempt is buried |
| `PlaylistDelivery.Synchronize` | crates/database/src/services/playlist_notifications.rs:17-22 | Each contest with a current playlist gets a row or a new wish in its old one, and a changed wish makes it due at once; the invariant is kept |
| `PlaylistDelivery.DeliverOrDefer` | crates/inspector-zeep/src/playlist_publication.rs:172-181 | A row the pass turns to is shown or put off, and without faults put off if and only if the artifact mismatches or the attempt is buried |
| `PlaylistDelivery.DeliverAll` | crates/inspector-zeep/src/playlist_publication.rs:168-183 | Whatever the order, every selected row is shown or put off at the end and every other contest is left alone, live messages included |
| `PlaylistDelivery.Pass` | crates/inspector-zeep/src/playlist_publication.rs:160-184 | One pass selects exactly the due rows, and at its end every row of its contests that is not waiting shows its playlist if and only if it was not stale after the sync; without faults it ends with success and puts off only rows with a bad artifact or an attempt in a channel of about a thousand messages; the invariant holds wherever it is cut |
| `PlaylistDelivery.UnselectedTruth` | crates/database/src/services/playlist_notifications.rs:23-42 | A row the selection leaves out shows what it claims if and only if it is not stale |
| `PlaylistDelivery.EveryRun` | crates/inspector-zeep/src/playlist_publication.rs:160-184 | In every reachable state, over passes cut after any call, retry delays, other authors posting and moderators deleting, each contest has at most one live message, recorded in its row or recoverable from the recorded attempt |
| `PlaylistDelivery.StaleRecord` | crates/inspector-zeep/src/playlist_publication.rs:122-141 | A concrete history (a pass cut after its deletion, then the desired playlist reverts) after which a whole pass selects nothing, succeeds, and nothing is shown |
| `PlaylistDelivery.World.Recover` | crates/database/src/services/playlist_notifications.rs:55-65 | Records the recovered message, or forgets it, and clears the attempt |
| `PlaylistDelivery.World.Begin` | crates/database/src/services/playlist_notifications.rs:43-54 | Records the attempt when none is open, and changes nothing otherwise |
| `PlaylistDelivery.World.Finish` | crates/database/src/services/playlist_notifications.rs:72-83 | Records the outcome and clears the attempt |
| `ActivityFeed.CheckPage` | crates/discord/src/feeds.rs:106-122 | Accepts a page exactly when its identifiers ascend from above the cursor |
| `ActivityFeed.Feed.Advance` | crates/database/src/services/discord_runtime.rs:514-535 | The durable cursor only grows, and a lost write leaves it |
| `ActivityFeed.Feed.Post` | crates/discord/src/feeds.rs:495-528 | Each acceptance by Discord is matched by a sent mark or by one recorded cut |
| `ActivityFeed.Feed.Deliver` | crates/discord/src/feeds.rs:459-528 | A delivery that succeeds leaves the event sent or without a message, a sent event is not posted again, at most one message is accepted, and without faults it succeeds |
| `ActivityFeed.DeliverAt` | crates/discord/src/feeds.rs:195-207 | One matching event: success leaves the cursor on it and the page handled through it; a failed delivery leaves the cursor on the event before; a failed cursor write leaves it on one of the two or where it was |
| `ActivityFeed.Poll` | crates/discord/src/feeds.rs:179-217 | The cursor never decreases and ends at the identifier of a prefix whose matching events were all handled; a failure at an event leaves it at the one before; without faults the whole page is covered |
| `ActivityFeed.PrefixCovers` | crates/discord/src/feeds.rs:187-215 | A handled prefix of a page extends the part of the log of which every matching event was sent or had no message |
| `ActivityFeed.EveryRun` | crates/discord/src/feeds.rs:125-217 | Over any run of new events and interrupted polls, the durable cursor has passed no matching event that was neither sent nor without a message |
| `ActivityFeed.RepostNeedsCut` | crates/discord/src/feeds.rs:470-512 | An event accepted twice was cut at least once between the acceptance and the sent write |
| `BitStream.BitWriter.Bits` | crates/core/src/binary.rs:135-143 | Appends exactly the low bits of the value, keeps the length at the bytes needed and every bit past the position zero |
| `BitStream.BitReader.Bits` | crates/core/src/binary.rs:16-28 | Reads the next bits as a number, or fails without moving; the position never passes the end |
| `BitStream.OrDisjoint` | crates/core/src/binary.rs:22-25 | Or-ing in bits above all those of the gathered value adds them |
| `BitStream.OrSeptet` | crates/core/src/binary.rs:87-89 | The septets of a variable-length value do not overlap, so gathering them by or adds them |
| `BitStream.OrMeans` | crates/core/src/binary.rs:22-25 | A bit of the gathered value is set exactly when it was set before or in what is or-ed in |
| `BitStream.BitReader.Byte` | crates/core/src/binary.rs:35-40 | Reads the next eight bits, or fails without moving |
| `BitStream.BitWriter.VariableUInt32` | crates/core/src/binary.rs:195-207 | Appends the base-128 encoding of the value |
| `BitStream.BitReader.VariableUInt32` | crates/core/src/binary.rs:80-94 | Reads what the specification decodes, never loses a bit of the value, and never reports more than five bytes |
| `BitStream.DecodeVarMeans` | crates/core/src/binary.rs:80-94 | Every accepted byte string decodes to its base-128 sum, and every rejection is a missing bit or a value beyond 32 bits |
| `BitStream.EncodeVarLength` | crates/core/src/binary.rs:195-207 | The encoding has at most k bytes exactly when the value is below 128 to the k |
| `BitStream.EncodeVarShortest` | crates/core/src/binary.rs:80-94 | Whatever bytes are accepted for a value, its own encoding is no longer, and both have one to five bytes |
| `BitStream.VarRoundTrip` | crates/core/src/binary.rs:195-207 | Decoding an encoding gives the value back and consumes exactly its bytes, whatever follows |
| `BitStream.BitReader.Bytes` | crates/core/src/binary.rs:95-106 | Aligned or not, reads the next bytes of the stream, or fails without moving |
| `BitStream.AlignedBytes` | crates/core/src/binary.rs:100-104 | At a byte boundary the slice of the buffer is what reading bit by bit gives |
| `BitStream.BitReader.UnalignedBytes` | crates/core/src/binary.rs:105-105 | The bit-by-bit path reads the same bytes of the stream |
| `BitStream.BitReader.Text` | crates/core/src/binary.rs:110-114 | Reads a length and that many bytes, refusing one above the maximum and bytes that are not UTF-8 |
| `BitStream.TextMeans` | crates/core/src/binary.rs:110-114 | An accepted text is within the maximum, valid and stands behind its own length; each refusal has its cause |
| `BitStream.BitWriter.Text` | crates/core/src/binary.rs:216-220 | Appends the length and the bytes, or nothing when the length does not fit |
| `BitStream.SignedRoundTrip` | crates/core/src/binary.rs:53-70 | Two's complement of every width gives the integer back |
| `BitStream.WordsAreLittleEndian` | crates/core/src/binary.rs:150-182 | Words of one, two, four and eight bytes are written least significant byte first |
| `BitStream.ValueRoundTrip` | crates/core/src/binary.rs:29-118 | One value of any kind, written and read as that kind, comes back and consumes exactly its bits |
| `BitStream.RoundTrip` | crates/core/src/binary.rs:13-118 | Any sequence of values read back as their kinds is the same sequence, whatever follows |
| `BitStream.WriteThenRead` | crates/core/src/binary.rs:129-227 | From any bit offset, writing fitting values and reading the same kinds succeeds with the same values |
| `Archive.StemIsSafe` | crates/inspector-zeep/src/archive.rs:13-39 | A folder name has the prefix, a non-empty title, only printable characters other than the nine reserved ones, and no blank around the title |
| `Text.WhitespaceIs` | crates/inspector-zeep/src/archive.rs:14-14 | Trimming takes off the twenty-five white-space characters and no other |
| `Archive.StemOf` | crates/inspector-zeep/src/archive.rs:13-39 | However the prefix of a name is spelled, or if it has none, the folder name is the one spelling of the prefix and the rest of the name without its final dots, exactly the characters that are not allowed replaced by a dash |
| `Archive.StemOfPrefix` | crates/inspector-zeep/src/archive.rs:33-38 | A name that is only a prefix, or nothing, becomes Untitled |
| `Archive.NormalizedAgain` | crates/inspector-zeep/src/archive.rs:13-39 | A folder name is normalised again to itself if and only if it does not end in a dot |
| `Archive.DottedStem` | crates/inspector-zeep/src/archive.rs:33-33 | A name with a blank between its final dots gives such a folder name |
| `Archive.StemsDistinct` | crates/inspector-zeep/src/archive.rs:42-52 | No two folders coincide even ignoring case, each is a level's name or that name with its id, and none holds a reserved character |
| `Archive.SuffixOnCollision` | crates/inspector-zeep/src/archive.rs:45-52 | The id is appended exactly where an earlier folder has the plain name, ignoring case |
| `Archive.Prepare` | crates/inspector-zeep/src/archive.rs:42-60 | Fails exactly when a suffixed folder is taken too, and otherwise lists the files of the chosen folders in order |
| `Archive.FilesMean` | crates/inspector-zeep/src/archive.rs:53-60 | A file is listed exactly when some level has these bytes as its level, index or thumbnail and this is the path of that kind in its folder |
| `Archive.PreparedFacts` | crates/inspector-zeep/src/archive.rs:53-60 | No path is written twice, and none ends in a NUL |
| `Utf8.CharRoundTrip` | crates/inspector-zeep/src/archive.rs:90-90 | Each character of a path is written in the shortest UTF-8 form, and its bytes denote it |
| `Archive.BuildArchive` | crates/inspector-zeep/src/archive.rs:41-79 | Fails exactly on a duplicate folder; otherwise the blocks, read back with pax overrides and verified checksums, are exactly the files of the levels: in the folder of each, the level under its name, the index if there is one and the thumbnail if there is one, and nothing else, with distinct paths, in order and in whole 512-byte blocks |
| `Tar.PaxPath` | crates/inspector-zeep/src/archive.rs:81-91 | The loop ends with the shortest record whose byte length is the number it starts with |
| `Tar.Octal` | crates/inspector-zeep/src/archive.rs:118-120 | Fills the field with zero-padded digits and a terminator, and nothing else changes |
| `Tar.Header` | crates/inspector-zeep/src/archive.rs:98-110 | Every byte of the header is as the ustar format lays it out, the checksum field signing the rest |
| `Tar.HeaderVerifies` | crates/inspector-zeep/src/archive.rs:109-110 | The stored checksum is six octal digits that verify, and size, type and name read back |
| `Tar.Output.WriteEntry` | crates/inspector-zeep/src/archive.rs:93-116 | Refuses a name over 100 bytes or beyond ASCII and writes nothing, or appends one record of whole blocks |
| `Tar.PaxRoundTrip` | crates/inspector-zeep/src/archive.rs:81-91 | A record of any path bytes, including newlines and equal signs, reads back as that path |
| `Tar.RecordsRoundTrip` | crates/inspector-zeep/src/archive.rs:158-175 | The reader recovers every record of a stream and stops at the trailer |
| `Tar.ResolveStored` | crates/inspector-zeep/src/archive.rs:64-76 | Files stored plainly or behind a pax header resolve to their own paths |
| `Tar.ArchiveRoundTrip` | crates/inspector-zeep/src/archive.rs:64-78 | Any list of writable files reads back as itself, in order |
| `Tar.TarIsWholeBlocks` | crates/inspector-zeep/src/archive.rs:113-114 | Every stream of records is a multiple of 512 bytes |
| `RankWatches.Select` | crates/discord/src/rank.rs:106-141 | A user is selected exactly when watched, or when a chain of changes, each sharing a rank with the next, links one of theirs to a watched player who moved between two ranks |
| `RankWatches.IntervalMeans` | crates/discord/src/rank.rs:111-114 | A rank lies in the interval of a change exactly when the change enters or leaves there, or it lies between the two ranks, either way |
| `RankWatches.OverlapMeans` | crates/discord/src/rank.rs:111-114 | Two intervals overlap exactly when the changes share a rank |
| `RankWatches.Changes` | crates/discord/src/rank.rs:78-104 | The changes of a batch are exactly the valid ones that parsed, as often as they occur, ordered by the rank reached with the exits last, then by user |
| `RankWatches.ForWatches` | crates/discord/src/rank.rs:106-148 | Returns the first change of each such user in the original order |
| `RankWatches.FirstKeptUsers` | crates/discord/src/rank.rs:142-147 | Every kept user appears exactly once and nobody else does |
| `RankWatches.WatchingMoreKeepsMore` | crates/discord/src/rank.rs:106-148 | Watching more players never hides one |
| `RankWatches.WatchingTheShownAddsNobody` | crates/discord/src/rank.rs:106-148 | With one change per user, watching everybody shown shows nobody new |
| `RankMessage.BoundedName` | crates/discord/src/rank.rs:14-29 | The longest prefix of the flattened name within the limit of UTF-16 units |
| `RankMessage.CharUnitsMeans` | crates/discord/src/rank.rs:20-20 | A character counts as many units as its UTF-16 encoding has |
| `RankMessage.PointsLabel` | crates/discord/src/rank.rs:162-176 | The left-to-right loop writes the digits in groups of three counted from the right, behind the sign |
| `RankMessage.SeparatedIsGrouped` | crates/discord/src/rank.rs:169-174 | The commas of the pass over the digits are the ones of grouping by thousands |
| `RankMessage.RowIsOneLine` | crates/discord/src/rank.rs:31-68 | A row never contains a line break, whatever the player is called |
| `RankMessage.RowUnits` | crates/discord/src/rank.rs:44-51 | A compact row has at most 73 units |
| `RankMessage.HeaderUnits` | crates/discord/src/rank.rs:190-217 | The compact header has at most 102 units |
| `RankMessage.ExactBudget` | crates/discord/src/rank.rs:206-226 | For every batch and every time the text is within 4000 units if and only if the time fits the room the two forms leave for it |
| `RankMessage.RoomIsEnough` | crates/discord/src/rank.rs:206-217 | Whoever moved, the room is at least 148 units |
| `RankMessage.RenderedTimeFits` | crates/database/src/services/discord_runtime.rs:316-316 | Every time as the event log renders it fits, whether it parses or not |
| `RankMessage.RenderedExample` | crates/database/src/services/discord_runtime.rs:316-316 | A time in the fixed format of the event log, digit by digit |
| `RankMessage.Chunked` | crates/discord/src/rank.rs:228-238 | Chunks of ten rows read as the header, every row and the footer, one a line |
| `RankMessage.Message` | crates/discord/src/rank.rs:178-247 | No message exactly for an empty batch; otherwise the text is the header, at most fifty lines each with the ranks of its change and the name, mention and points of the first user with its id, the remainder line and the footer; the compact form is chosen exactly when the full one would have 4000 units or more, and the text is within 4000 units if and only if the time fits the room the batch leaves, so whenever it parses |
| `RankMessage.FindUser` | crates/discord/src/rank.rs:32-32 | The first user of the list with the id, and nobody exactly when none has it |
| `RankMessage.MentionMeans` | crates/discord/src/rank.rs:38-42 | A player is mentioned exactly when the stored id reads as a positive 64-bit number, and by its shortest numeral |
| `RankMessage.UpMeans` | crates/discord/src/rank.rs:54-60 | The arrow points up exactly for a better place, unranked being behind every rank |
| `RankMessage.RowExamples` | crates/discord/src/rank.rs:331-333 | Both forms of a row read as in the program's tests: entries, exits, known and unknown players |
| `RankMessage.LongRawTimeOverflows` | crates/discord/src/rank.rs:186-189 | A corollary of the exact budget: no batch has room for a time of 4000 units |
| `SweepSteps.PageOrBeyond` | crates/database/src/services/jobs.rs:754-785 | A user above the cursor is on the page or above the next cursor |
| `SweepSteps.NextIsAhead` | crates/database/src/services/jobs.rs:778-784 | The next cursor is a user above this one, and the whole page is up to it |
| `JobQueue.Queue.EnqueueLevelProjection` | crates/jobs/src/queue.rs:285-307 | The pending row of the key keeps the smaller of the two cursors, or a new one is added |
| `JobQueue.Queue.ClaimRow` | crates/database/migrations/20261018000000_optimize_job_claims/up.sql:1-48 | Nothing while another lease of the key is live, the archive after three attempts, otherwise a new generation under a lease |
| `JobQueue.Queue.DeferJob` | crates/jobs/src/queue.rs:380-409 | Only the lease holder is acknowledged; a pending row supersedes it, otherwise it waits again with its attempt back and its count raised up to four |
| `JobQueue.Queue.FinishJob` | packages/database/drizzle/0083_pgmq_queue.sql:122-152 | Only the lease holder is acknowledged: success deletes, exhaustion archives, a pending row supersedes a failure, otherwise it retries |
| `JobQueue.Queue.HandlePage` | crates/jobs/src/handlers.rs:863-909 | The busy users, and only they, get repairs and stop being owed; every user of the page is then settled or handed; the page is marked continued, and when it was full a pending row stands at or before the next cursor |
| `JobQueue.Queue.Acknowledge` | crates/jobs/src/runtime.rs:236-245 | A postponed execution and a database outage defer, any other error counts as a failed attempt, and a lost lease acknowledges nothing |
| `JobQueue.DeferralsCostNothing` | crates/jobs/src/queue.rs:398-399 | Any number of claims and deferrals of a row, with nothing waiting beside it, costs neither an attempt nor the cursor, archives nothing, and leaves everybody waiting who waited |
| `JobQueue.FailuresAreBounded` | packages/database/drizzle/0083_pgmq_queue.sql:133-151 | A failed claim leaves one attempt more behind, and the third failure archives the row with its cursor |
| `SweepInvariant.StepKeeps` | crates/jobs/src/queue.rs:285-409 | Every step keeps at most one pending row and one live lease, a waiting continuation beside a live row that continued, and, unless it archives or supersedes a row, everybody waiting who waits and is still owed |
| `SweepInvariant.LosesExactly` | crates/jobs/src/queue.rs:390-397 | A step leaves a waiting owed user without any row if and only if it archives or supersedes the row that alone covers the user |
| `SweepInvariant.ServesExactly` | crates/jobs/src/handlers.rs:863-904 | A user stops being owed exactly at a committed batch or a repair job of an execution whose page has the user |
| `SweepInvariant.RequestIsKept` | crates/jobs/src/handlers.rs:863-909 | From every state that keeps the invariant: after a request, whatever happens, each user it concerns is served by a later step, or waits in a row, or lost the only row at a later step and was not requested since |
| `SweepInvariant.NobodyIsForgotten` | crates/jobs/src/handlers.rs:863-909 | For every request in every interleaving of requests, claims, expiries, executions (also those without a lease), deferrals and failures: each user it concerns is reconciled or handed to a repair by a later step, or waits behind the cursor of a row, or a later step archived or superseded the only row covering the user and nobody has asked since |
| `SweepDrops.DropsAhead` | crates/jobs/src/queue.rs:390-397 | Apart from archived rows, only a failed or deferred row that a pending row supersedes takes a last row away, and only from users above its own cursor and not above the pending one |
| `SweepDrops.SupersededExactly` | crates/jobs/src/queue.rs:390-397 | A superseded deferral or failed attempt takes the last row of a waiting owed user if and only if the pending cursor is not below the user and no third row covers the user |
| `SweepInvariant.SuccessDropsNobody` | crates/jobs/src/runtime.rs:237-245 | Deleting a finished row under its lease leaves every owed user who waited waiting in another row |
| `SweepDrops.DisciplinedRun` | crates/jobs/src/queue.rs:285-409 | From any state with at most one running row: if requests start at 0, a row is claimed only while no other of its key is marked running, and continuations are enqueued under a live lease, then after a request every user is served, or waits, or lost the only row to an archive after that request and was not requested since; no acknowledgement ever takes a last row |
| `SweepDrops.NobodyIsDropped` | crates/jobs/src/queue.rs:285-409 | The same for every request of every disciplined run from an empty queue and the users of the level |
| `StaleSweep.StaleContinuationDrops` | crates/jobs/src/handlers.rs:905-909 | For every level with a full page, a concrete run in which a worker continues its page after losing its lease and a deferral is superseded by that row leaves the first user owed with no row at all and nothing archived |
| `Bisection.Collect` | crates/jobs/src/handlers.rs:1467-1486 | An applied batch leaves the queue, a refused single user is busy, a refused larger batch is queued again as its two halves; users are conserved and the cost falls |
| `Bisection.Spawn` | crates/jobs/src/handlers.rs:979-993 | At most four batches run, and no batch or user is lost |
| `Bisection.Reconcile` | crates/jobs/src/handlers.rs:968-1003 | Under any completion order and outcomes, at most 2n - 1 calls complete, each user is in an applied batch or busy, busy users were refused alone, and both results are sorted |
| `Bisection.BusyIsLocked` | crates/jobs/src/handlers.rs:1476-1484 | If a batch is refused exactly when it holds a locked user, the busy users are exactly the locked ones |
| `Bisection.EachUserOnce` | crates/jobs/src/handlers.rs:968-1003 | With distinct users, each ends in exactly one of the two |
| `Catalog.Note` | crates/jobs/src/catalog.rs:57-74 | Succeeds exactly when every identifier and timestamp of the page is valid, and adds exactly its identifiers and those of its items that are not stored with an active item and unchanged since (or all, when forced) |
| `Catalog.DiscoverAll` | crates/jobs/src/catalog.rs:43-109 | Against any pager it ends; the pages are those the pager served for the cursors asked, no cursor asked twice; it succeeds exactly when they are a complete catalog (one total, every page adding items, as many distinct items as reported), within total + 1 pages, and then names the stale items and the stored positive ones never listed, both sorted; each failure has its cause on the pages fetched |
| `Catalog.ExplainedIsIncomplete` | crates/jobs/src/catalog.rs:47-90 | No reported cause is compatible with a complete catalog |
| `Catalog.MissingItems` | crates/jobs/src/catalog.rs:94-103 | The sorted stored identifiers that are positive and were never seen |
| `Catalog.RepairAuthors` | crates/jobs/src/catalog.rs:21-41 | The walk succeeds if and only if the pages served lead on by increasing numbers to a last one and all identifiers are valid, and then queues exactly the listed ones and reports none missing; a failure is a refused call, an invalid identifier or a page number that does not increase |
| `Catalog.StoppedIsNotWhole` | crates/jobs/src/catalog.rs:24-35 | No reported cause is compatible with a whole walk |
| `Catalog.Discover` | crates/jobs/src/catalog.rs:13-109 | Succeeds exactly on a complete catalog, or for a repair on a whole walk, with the contents of either; a failure has its cause on the pages served; no item is both queued and missing |
| `GhostAudit.AheadOfRead` | crates/database/src/services/ghost_validation.rs:41-66 | Above a row that was read lies exactly what followed it in (level, record) order, and its key is above the cursor |
| `GhostAudit.Scan` | crates/jobs/src/ghost_audit.rs:208-219 | One window: reads rows in order up to the first exhausted budget and collects exactly those that need a check |
| `GhostAudit.SelectBatch` | crates/jobs/src/ghost_audit.rs:187-224 | A batch is the next rows ahead of the cursor within both budgets; it continues exactly from its last row when a budget stopped it, and ends only at the last row |
| `GhostAudit.AuditChain` | crates/jobs/src/ghost_audit.rs:170-224 | Following the continuations ends, and checks exactly the rows that needed it, in order and once, with strictly increasing cursors and batches of at most 1000, even if the table changes behind the cursor or above the frozen bound |
| `GhostAudit.CheckedMeans` | crates/database/src/services/ghost_validation.rs:41-66 | A record is checked exactly when it matches, is within the bound and needs it |
| `GhostAudit.CheckedOnce` | crates/jobs/src/ghost_audit.rs:212-214 | Distinct record identifiers are checked once each |
| `GhostAudit.LevelGroups` | crates/jobs/src/ghost_audit.rs:245-252 | The groups are the rows in order, and each level forms exactly one of them |
| `Score.DecayBounds` | crates/core/src/score.rs:38-55 | Decay is never negative, never gains, and a later position never earns more |
| `Score.KeptDownToSmallest` | crates/core/src/score.rs:45-55 | A positive contribution in a place keeps its decayed value down to the smallest that can be stored; nothing else earns anything |
| `Score.RankingIsBest` | crates/core/src/score.rs:87-99 | No order of the retained contributions has a larger weighted sum than the ranking |
| `Score.RankedInOrder` | crates/core/src/score.rs:93-99 | The ranking goes from more to less; equal contributions by level, then by record |
| `Score.InputOrderIsIrrelevant` | crates/core/src/score.rs:87-99 | The weighted sum does not depend on the order of the input |
| `Score.RankingIsUnique` | crates/core/src/score.rs:93-99 | With distinct level and record pairs the ranking itself does not depend on it |
| `Score.AddingNeverLowers` | crates/core/src/score.rs:87-119 | One more non-negative contribution never lowers the weighted sum |
| `Score.SumBelowTwentyTimesBest` | crates/core/src/score.rs:112-124 | When the best contribution is positive, the weighted sum is below twenty times it |
| `Score.TermsAreWeighted` | crates/core/src/score.rs:112-116 | The weighted sum is the sum of the values times 0.95 to the power of the rank less one |
| `Score.GainsOfNonNegative` | crates/core/src/score.rs:87-133 | Without negative contributions the non-negative parts are the contributions themselves, so the bounds on the points are those of the weighted sum |
| `Score.CalculatePlayerPoints` | crates/core/src/score.rs:87-133 | For any contributions, negative ones included: ranks are consecutive in the best order with the flushed term of each rank; the points are the whole number nearest to the sum of the terms, and the total that nearest to the sum of the contributions, both away from zero where two are equally near; and the points are within one half of the weighted sum of the non-negative parts, but for one smallest value a contribution |
| `Score.RoundMeans` | crates/core/src/score.rs:121-130 | Rounding gives the nearest whole number, at exactly one half the one farther from zero, and no other number is that |
| `Pool.Total` | crates/database/src/pool.rs:39-48 | The sum of the budgets, exactly when the application has one and the sum fits 32 bits |
| `Pool.StepBalanced` | crates/database/src/pool.rs:462-498 | Every step of every task keeps permits, slots and waiting counts equal to the tasks that own them, in either drop order |
| `Pool.CapacityHolds` | crates/database/src/pool.rs:462-508 | In every interleaving checkouts do not exceed held permits, held permits do not exceed the budgets, and a task holding a permit without a connection finds a free slot |
| `Pool.CheckOutSucceeds` | crates/database/src/pool.rs:475-481 | A task with a permit is never refused for want of a slot |
| `Pool.PermitFirstStarves` | crates/database/src/pool.rs:606-609 | With the fields dropped in the other order, a task can hold a permit while the pool is full |
| `Pool.DatabasePool.GetOwned` | crates/database/src/pool.rs:475-481 | With a permit in hand the checkout is granted within the physical limit |
| `Pool.DatabasePool.DropConnection` | crates/database/src/pool.rs:606-609 | Returns the slot and then the permit, each step being one the pool allows |
| `Pool.DatabasePool.Warm` | crates/database/src/pool.rs:500-508 | An idle partition opens any number of connections up to its limit, whatever the others hold, and leaves the pool as it was |

## Left out

- Ghost validator: JSON and CSV decoding with `normalize_blocks`, `transform`, checkpoint overlays, event diagnostics and the manifest cache; a collider arrives with its transformed vertices and hull, or without.
- Ghost validator: floating-point rounding, infinities and NaN; over the reals the finiteness tests always hold. `parry3d`'s narrow phase is an arbitrary function that may fail.
- GhostVerdict.PathDistance: does not model the square root or the order of floating-point comparisons; distances are compared squared.
- PlaylistDelivery.EveryRun: runs do not overlap, as one inspector works at a time; a post that Discord performs only after the recovery scan of a later run is not modelled.
- PlaylistDelivery.Deliver: the attachment, its digest, the nonce and embeds are not modelled; the artifact enters as the number of levels it declares.
- PlaylistDelivery.Pass: the rows of the given rounds enter as a set of contests and are delivered in an arbitrary order; a retry delay is a set of waiting contests that time removes, not its length.
- ActivityFeed.EveryRun: tournament feeds, watches and their direct messages, events that become visible out of order, and two pollers of one feed are not modelled; a page holds at most 500 events.
- ActivityFeed.Poll: the feed is enabled, as its caller polls no other.
- BitStream.RoundTrip: a float is its bit pattern, a string its UTF-8 bytes with the validity test as a parameter, and memory limits on positions are not modelled.
- Archive.BuildArchive: gzip is not modelled, contents and pax records are below the eleven octal digits beyond which the source panics, and `to_lowercase` is an arbitrary function.
- RankMessage.Message: JSON decoding, the container and its accent colour.
- SweepInvariant.NobodyIsForgotten: the users of the level stay the same during a run, other keys of the same lock group only delay claims; delays, backoff and which candidate a claim picks are choices of the run; the legacy payload with a projection token is not modelled.
- JobQueue.Queue.HandlePage: which users get a player-score job, and the retry flag that widens that list, are not modelled; neither are the per-user repair jobs after they are enqueued.
- Queue: `enqueue_fenced_page`, `checkpoint`, `queue_identity`, payload validators, the fast lane, `run_lane`'s polling and `while_lease_valid`.
- Bisection.Reconcile: a failed call ends the batch and the calls still running are abandoned; panics of spawned tasks are such failures.
- Catalog.DiscoverAll: item details beyond identifier and timestamp; timestamps arrive parsed or not.
- GhostAudit.AuditChain: the filters of the query other than the cursor and the bound are part of the table; the ghosts themselves, storage and the checkpointing of a claimed audit are not modelled.
- Score.CalculatePlayerPoints: floating-point rounding of the sum and infinite values; the flush of tiny values is kept out of the rearrangement results, which it would break.
- Score: votes, level scores and the second scoring version.
- Pool.CapacityHolds: timeouts are choices of a task, connections that break while pooled and the failure diagnostics are not modelled, and a failing checkout returns its permit and its waiting count in one step.
- `crates/inspector-zeep/src/publication.rs`, configuration, catalog overlays, command tables, web and desktop user interfaces and `crates/lobby-host`.
