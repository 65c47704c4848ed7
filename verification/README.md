# Chronotail, modelled and proved

This project models the parts of Chronotail whose correctness is hardest to see by reading: what a crash
leaves on disk and whether the simulator's oracle knows it, what a batching client delivers, who owns a native
cursor, what a documentation mask may hide, and whether a benchmark ledger counts anything twice. Each part
follows its source file: code that changes state step by step is a class or a method with a loop, proved
against a specification; code made of expressions is functions and lemmas.

`dafny verify dfyconfig.toml` checks everything.

## What is modelled

**Crash simulation and engine recovery** (`encodings`, `objects`, `storage`, `engine`, `images`, `appender`,
`checkpoint`, `oracle`, `generations`, `simulation`, `agreement`, `scripts`, `publishing`, `runs`, `bounds`,
`fresh_runs`, `retained`, `told`, `failing_runs`, `revived_run`, `simulator`, `verify_range`). The storage has a
volatile and a durable image of bytes; every write and sync draws a fault from a script. The engine's part is its
order of writes and syncs, its four root slots and its choice of a root when a file is opened. The oracle counts generations. The question is
whether, at every operation boundary, opening the volatile image gives exactly the points of the oracle's
current generation, and opening the durable image those of its durable generation.

Whatever happens to that agreement, every state of every run keeps the oracle's history and extents in bounds
(`Bounds.ReachableInBounds`), and recovery stops at the generation it should (`Bounds.ReachableStops`).

After every operation both images carry the roots the oracle names. A run goes through, and they open to those roots
at every boundary, if and only if none of four things is foretold of an operation, from the slots, the bytes and
the script before it starts (`Told.RunForetold`):

- A truncation leaves neither the root nor its predecessor (`Told.TruncationExact`).
- A root write is cut short, and the bytes it left out already stood in the slot (`sim/main.zig:125-131`). The
  call fails, the oracle keeps its generation, and the file opens to the new root
  (`FailingRuns.ShortRunDisagrees`: one zero byte at the end of the root is enough).
- A root that a truncation left in a slot comes back to life, because the operation's calls spell its manifest or
  its predecessor again byte for byte (`Told.RevivedTold`). `RevivedRun.RerunDisagrees` does it in five operations from
  any committed state of the right length, and `RevivedRun.NamedRunDisagrees` gets there from a new file with the
  sizes the engine writes.
- As written, a process crash in the sync after the root: `sim/main.zig:392-396` takes the snapshot before it
  moves the durable mark, so the new generation is marked durable although only the prior one was synced, which
  is what the flag's name says (`FailingRuns.CrashRunDisagrees`).

Moving the mark ahead of the snapshot repairs the fourth only. In runs without truncations the first and the third
cannot happen (`FreshRuns.StepTold`). Without short writes either, nothing is left to suppose:
`FreshRuns.WholeWrites` says that every run then agrees throughout with the mark moved ahead, and as written
exactly those in which no process crash follows the root.

**Lookup** (`lookup`). Three reference selectors (C, Go, Python), the engine's two-probe lookup and its descent
through an index tree of any height all make one declarative, unique selection. The unsigned rank distance is
computed bit by bit and proved to be the mathematical distance.

**Python client** (`batches`, `py_writer`, `ranges`, `py_reader`). The batching writer conserves every series'
stream over any sequence of calls, and fails exactly when the library does; generators over native cursors are
followed through sessions of any number of generators, refreshes, closes and early stops, every event with the
outcome it deserves. The chunks a cursor gives are not assumed but proved from the engine's resume position.

**Markdown masks and anchors** (`markup`, `markdown`, `swallowed`, `anchors`). The masks terminate, keep every
offset, and blank exactly the stretches they should; a text has only one such reading. Lines, quote prefixes, fences,
headings and link destinations are characterised by their characters, each way. The slug loop is proved to
terminate by counting. The code comment at `scripts/check-docs.py:73-74` says that tracking both states keeps
fences and comments from swallowing later links. `Swallowed.BothExactly` says which lines defeat it, and
`Swallowed.SampleSwallowed` is a text whose link after a closed fence is lost; without such lines the promise is
kept (`Swallowed.NeverBoth`).

**C interface** (`c_api`). Handles at recycled addresses, tokens from a wrapping 64-bit counter, poisoned
writers and cursor states. The logs of what reached each appender and reader are checked by an automaton that
is proved equal to a property of the whole log.

**Go client** (`go_client`). Readers, prepared series, lookups and cursors over a native library whose
preconditions say what it cannot check itself.

**Benchmark ledger** (`ledger`). Sessions with interruptions between any two rows, resumed any number of times.

## How faults and the outside world enter

Random draws, clocks and native answers are scripts or parameters, and the theorems hold for all of them.

Bytes are values, and how objects are encoded is a parameter: any coding under which objects of one size with
the same encoding are the same object, and a slot decodes to a root only if it holds that root's whole encoding.
That stands for the BLAKE3 identity over every byte of a root (`src/internal/format.zig:78-86`) and of the objects
it names. `Encodings.Plain` is such a coding. A byte may be any number, so that a coding exists for objects of
arbitrary content; nothing else depends on its range. Runs are judged under the hypothesis `FreshRuns.NeverMixed`: no
root write cut short leaves in its slot bytes that decode to a third root, neither the old one nor the new. The
hypothesis names the one event that only the hash rules out; without short writes it is not needed
(`Told.ForetoldWholeWrites`).

## Model

| member | source | states |
|---|---|---|
| Encodings.IntactIsUnique | src/internal/format.zig:78-96 | Under any coding that tells objects of one size apart, at most one object of a size stands whole at a place. |
| Encodings.FieldsInjective | src/internal/format.zig:69-80 | No two objects have the same fields, pages, manifests and root chains included: the suppositions about codings can be met. |
| Storage.Put | sim/main.zig:135-144 | Bytes land exactly in the target range; every other old byte stays and a gap past the old end reads as zero. |
| Storage.ShortAmount | sim/main.zig:125-126 | A short write stores at least one byte and never all of them. |
| Storage.DurableAfterCall | sim/main.zig:146-163 | A single call moves the durable image only by a completed sync or by a truncation. |
| Storage.WriteEffect | sim/main.zig:178-184 | A write stores all its bytes, none, or (short write) a nonempty proper prefix after a zero-filled gap; failure is reported exactly when a fault was drawn; the durable image never moves. |
| Storage.WriteFlags | sim/main.zig:109-133 | What a write records: exactly which fault the draw made it meet, how much of the script is left, where the last completed write was, and that a completed write above the first block ends the durable mark. |
| Storage.SyncFlags | sim/main.zig:146-163 | What a sync records: it fails only by a crash, power loss or not as drawn, tells then whether a root was the last thing written, and completed tells whether objects were. |
| Storage.DurableIsLastSync | sim/main.zig:109-172 | For every sequence of writes, syncs, truncations and crashes and every fault script, the durable image is the volatile image at the last completed sync cut to the smallest truncation since. |
| Storage.PowerLossRestoresDurable | sim/main.zig:165-172 | Power loss brings back exactly that image; a process crash loses no byte. |
| Engine.DecodeSlot | src/internal/engine.zig:322-346 | A slot decodes only to a root whose whole encoding stands in that slot and whose fields pass the decoder's range checks. |
| Engine.SlotsTurn | src/internal/engine.zig:946-948 | The first generation's root stands at byte 4096, each next one 4096 further, and after 16384 comes 4096 again. |
| Engine.BytePlaces | src/internal/format.zig:105-108 | The four slots are the bytes from 4096 to 20480, and the rest of the first 65536 is the header. |
| Engine.HeaderMeans | src/internal/format.zig:123-142 | The header is accepted if and only if the control block's bytes stand whole before and behind the slots. |
| Engine.CandidateMeans | src/internal/engine.zig:322-346 | A slot yields a root as candidate if and only if its bytes decode to it, its generation is at least 1, its manifest starts past the control block and ends with its extent, and the extent fits the file. |
| Engine.BestSlot | src/internal/engine.zig:358-364 | The chosen candidate has the highest generation, and none is chosen only when there is no candidate. |
| Engine.BestFirst | src/internal/engine.zig:358-364 | Of equally new candidates the first slot's is chosen. |
| Engine.FindGeneration | src/internal/engine.zig:366-383 | The predecessor search finds a candidate of the named generation whenever one is there, and no other. |
| Engine.Load | src/internal/engine.zig:422-457 | Loading returns one of the candidates, with a decodable root and a loadable manifest, and terminates because every failed candidate is dropped. |
| Engine.ManifestMeans | src/internal/engine.zig:385-409 | A manifest loads if and only if its bytes are all in the file and it is of the root's own generation. |
| Engine.ValidIsFollows | src/internal/engine.zig:366-383 | For the newest candidate left, the engine's predecessor search and the retention of the predecessor say the same. |
| Engine.LoadNewest | src/internal/engine.zig:422-457 | Whatever candidates were dropped before, loading returns the newest standing root among those left, and none only if none stands. |
| Engine.OpenNewest | src/internal/engine.zig:411-457 | Opening any image with its header whole adopts the newest standing root, whatever fails in newer slots, and fails only when no root stands. |
| Engine.RetainedByGeneration | src/internal/engine.zig:366-383 | A retained root at or below the carried generation is the ancestor its generation number names. |
| Engine.OlderNeedsPredecessor | src/internal/engine.zig:366-383 | If any older root is retained in the four slots, the direct predecessor is retained too. |
| Engine.CarriedFollows | src/internal/engine.zig:366-383 | The carried root passes the engine's predecessor check. |
| Engine.OpenSelects | src/internal/engine.zig:411-457 | An image that carries a root always opens, and opens to that root if and only if no newer root stands in it; otherwise to a newer one. |
| Images.CarriesAfterExtension | docs/durability.md:26-40 | Appended bytes, complete, torn or garbage, never stop an image from carrying its root. |
| Images.CarriesAfterCut | sim/main.zig:362-373 | Truncating beyond the committed extent keeps the carried root. |
| Images.CarriesPredecessorAfterCut | sim/main.zig:362-373 | Truncating into the newest extent leaves the image carrying the predecessor, provided its root slot is retained. |
| Images.StoodBeforeCut | src/internal/engine.zig:422-457 | A root that stands in a cut image above an older candidate stood before the cut: cutting brings no root to life. |
| Images.OpenAfterCut | src/internal/engine.zig:422-457 | With the extent cut and the predecessor gone, the file opens, if at all, to a root newer than the one cut. |
| Images.CarriesAfterPublish | src/internal/engine.zig:842-965 | A complete root write in the next slot makes the image carry the new root, with the three slots behind it explained. |
| Images.TornSlotDecodes | src/internal/format.zig:82-86 | After a root write cut short, the slot shows the new root if and only if the bytes not written already stood there; it shows the old one only if nothing changed. |
| Images.CarriesAfterTornPublish | docs/durability.md:29-40 | A root write cut short touches one slot, and the image still carries the older root. |
| Images.CompletedOvertakes | sim/main.zig:125-131 | A root completed by old bytes stands, newer than the carried one, although its write is reported as failed. |
| Images.CarriesWhatStands | src/internal/engine.zig:842-965 | Where the slot already shows the root to be written, writing it changes no byte. |
| Appender.ExecObjects | src/internal/engine.zig:989-1066 | Whatever faults strike a run of object writes, the image is only extended, and on success every object stands whole at its planned offset. |
| Appender.FillContent | src/internal/engine.zig:769-836 | Appending a batch loses, repeats and reorders no point, however many full pages it writes on the way. |
| Appender.FillWrites | src/internal/engine.zig:785-818 | Appending writes full pages of its own series only, one write each. |
| Appender.FillRest | src/internal/engine.zig:785-832 | What stays in the buffer is all of it while a page has room for it, otherwise what whole pages of 4088 points leave over. |
| Appender.FillOthers | src/internal/engine.zig:769-836 | Appending to one series leaves every other series' pages alone. |
| Appender.FlushContent | src/internal/engine.zig:979-987 | Flushing moves exactly the pending points of each series into pages. |
| Appender.AcceptsMeans | src/internal/engine.zig:775-783 | A batch is accepted if and only if the series' points stay strictly increasing with it. |
| Appender.WriteExtends | sim/main.zig:178-184 | One object write beyond the end of file, faulty or not, extends the image by bytes of that object and a zero gap only. |
| Checkpoints.PublishedContent | src/internal/engine.zig:842-965 | The root a checkpoint publishes names, for every series, all points the writer was given, in order. |
| Checkpoints.ManifestPagesPlaced | src/internal/engine.zig:842-965 | Every page the new manifest names stands whole in the image before the manifest. |
| Checkpoints.NextRootSucceeds | src/internal/engine.zig:842-965 | Once all objects are in place the next root is a proper successor committed at the end of file. |
| Checkpoints.RootWriteEffect | sim/main.zig:178-184 | The root write moves the volatile image one generation on or leaves it carrying the old root; when old bytes complete a write cut short, the call fails and the new root stands; the durable image does not move. |
| Checkpoints.ObjectsThenSync | docs/durability.md:14-27 | Before the root is written, either every object it names stands, durable when asked for, or nothing was published and the old root is carried. |
| Checkpoints.RootPhase | docs/durability.md:14-27 | Through the root write: the next root is carried over objects already durable, or nothing was published; a completed short write fails and yet leaves the new root standing. |
| Checkpoints.FinalSync | docs/durability.md:14-27 | The last sync makes both images alike, or its crash leaves the new root published but not durable. |
| Checkpoints.CheckpointOutcome | src/internal/engine.zig:842-965 | All outcomes of a checkpoint under every fault script: published and durable as asked, not published, published with only the last sync missing, or failed with the root standing all the same. |
| Oracle.TakeSnapshot | sim/main.zig:256-262 | A snapshot keeps one history entry per generation and the durable generation at or below the current one. |
| Oracle.SnapshotOk | sim/main.zig:256-262 | A snapshot with a non-shrinking extent keeps the oracle well formed: extents and per-series counts never shrink from generation to generation. |
| Oracle.Restore | sim/main.zig:264-271 | Restoring keeps the shape and the number of series. |
| Oracle.RestoreOk | sim/main.zig:264-271 | Restoring any generation keeps the oracle well formed. |
| Oracle.Fit | sim/main.zig:544-547 | The recovery loop ends at the greatest generation at or below its start whose extent fits the file, or at zero. |
| Generations.HistoryAfterRestore | sim/main.zig:264-271 | Restoring a generation and adopting its root keeps every recorded generation true of the bytes. |
| Generations.SameRootBelowNext | sim/main.zig:544-551 | Between the extent of a generation and a size too small for the next one there is no other root. |
| Generations.AfterPowerLoss | sim/main.zig:533-552 | After power loss the one image left carries what the oracle restores from its durable generation. |
| Generations.AfterProcessCrash | sim/main.zig:533-552 | After a process crash both images still carry what the oracle restores from its current generation. |
| Generations.AfterTruncation | sim/main.zig:362-379 | After a truncation that leaves the carried root or its retained predecessor, both cut images hold exactly what the recovery loop restores. |
| Generations.DirtyBeyondRecovery | sim/main.zig:362-379 | A truncation that leaves neither opens, if at all, to a root newer than any the oracle still knows. |
| Generations.HistoryAfterPublish | sim/main.zig:414-414 | A published root extends the history by one snapshot and leaves every older generation's root as it was. |
| Generations.ImagesAfterPublish | sim/main.zig:386-414 | After a snapshot the volatile image carries the new generation; the durable image follows only with a sync. |
| Generations.HistoryAfterRepeat | sim/main.zig:414-414 | A checkpoint without new points adds a snapshot that stands for the same root. |
| Simulation.TruncatedSize | sim/main.zig:362-369 | A truncation keeps the previous generation's extent and never grows the file. |
| Simulation.Batch | sim/main.zig:468-487 | Generated timestamps are strictly increasing and above the last recorded one. |
| Simulation.BatchGaps | sim/main.zig:468-487 | Every point of a batch has its drawn bits and stands a drawn gap after the one before it; the first follows the series' last point, or zero. |
| Simulation.RefreshMeans | src/internal/engine.zig:1272-1296 | A refresh case by case: a file that is exactly what was adopted is left alone, a short or damaged one fails, one with no newer candidate changes nothing, and otherwise the newest root that loads is adopted if and only if it is newer, with the file size noted either way. |
| Agreement.InvAgrees | sim/main.zig:533-552 | In every state satisfying the invariant, opening the volatile image gives exactly the current generation's points and opening the durable image exactly the durable generation's. |
| Agreement.AgreesExactly | sim/main.zig:533-552 | Where both images carry the roots the oracle names, they open to them if and only if nothing newer stands in either. |
| Agreement.RecoverEither | sim/main.zig:533-552 | Recovery from a process crash or a power loss succeeds and leaves both images carrying what the oracle restored. |
| Agreement.RecoverAfterTruncation | sim/main.zig:362-379 | If the truncation leaves a root the oracle knows, recovery succeeds and restores the invariant. |
| Agreement.BeyondRecovery | sim/main.zig:362-379 | If it leaves none and the simulator goes on all the same, the oracle no longer agrees. |
| Agreement.TruncateKeeps | sim/main.zig:362-379 | A truncation that leaves a root the oracle knows keeps the invariant. |
| Scripts.ExecFollowsScript | sim/main.zig:109-163 | A series of calls finishes if and only if the script lets each of them finish, and then has used one choice each. |
| Scripts.RootIsScripted | sim/main.zig:109-133 | Whether a root is published, and what a root write cut short leaves, is told from the script and the slot's old bytes before the operation starts. |
| Publishing.CheckpointLands | sim/main.zig:386-414 | A checkpoint ends with both images carrying the roots the oracle names, under every fault, except, as written, after a process crash in the sync after the root. |
| Publishing.ReopenLands | sim/main.zig:415-444 | Reopening does so under every fault. |
| Publishing.UnsyncedAsWritten | sim/main.zig:392-396 | After that crash the durable image does not open to the root the oracle marks durable, unless the slot showed it before. |
| Publishing.UnsyncedOverSame | sim/main.zig:392-396 | If it did, the mark is right after all. |
| Publishing.CompletedRootStands | sim/main.zig:125-131 | A root completed by old bytes stands in the image the simulator goes on with, while the oracle keeps the older generation. |
| Runs.RefreshExact | src/internal/engine.zig:1272-1325 | A refresh reports a change exactly when a newer generation is held, and then adopts that one. |
| Runs.AppendLands | sim/main.zig:461-518 | The engine accepts every generated batch, and both images carry their roots whether the batch is stored or lost to a fault. |
| Runs.StartInv | sim/main.zig:327-331 | Creation and the first durable checkpoint establish the invariant. |
| Runs.CrashAfterRootDisagrees | sim/main.zig:392-396 | As written, a process crash in the post-root sync leaves the oracle marking durable a root the durable image does not show. |
| Runs.StopsOnlyAtTruncation | sim/main.zig:362-379 | An undisturbed run stops early only at a truncation. |
| Runs.ReaderIsolated | sim/main.zig:445-449 | The reader's root, counts and counted points do not change under appends, checkpoints and queries that draw no fault. |
| Runs.RecoveryMovesReader | sim/main.zig:548-551 | Every other operation but a refresh leaves the reader at the oracle's current generation and at the root the image opens to. |
| Bounds.PlanApart | src/internal/engine.zig:842-965 | A checkpoint writes every object past the control block and its root inside it, whatever its layout. |
| Bounds.ExecGrows | sim/main.zig:109-163 | Under every fault, a series of calls kept apart so never shrinks the volatile image, moves the durable one only up to it, and leaves the flag telling a synced image. |
| Bounds.StepBounded | sim/main.zig:362-518 | Every operation keeps the oracle well formed and the extents of its current and durable generations within the two images, whether or not the agreement holds. |
| Bounds.ReachableInBounds | sim/main.zig:218-272 | In every state of every run from a new file, for every coding, number of series, script, operation sequence and order of marking: one history entry per generation, extents and counts nondecreasing, timestamps increasing, the reader's counts within the points, the current extent within the volatile image and the durable one within the durable image. Nothing is supposed of the run. |
| Bounds.RecoveryStops | sim/main.zig:533-552 | Recovery stops at the generation asked for, the durable one after power loss and the current one after a process crash: with its extent in the image nothing is scanned away. |
| Bounds.ReachableStops | sim/main.zig:533-552 | So it does in every state of every run from a new file, whichever operation is broken off: the history is cut to that generation and the durable mark stays. |
| FreshRuns.StepTold | sim/main.zig:386-518 | While no slot shows a root the oracle does not know, an operation other than a truncation loses the agreement if and only if old bytes complete its failed root write or, as written, a process crash follows its root: both told before it starts. |
| FreshRuns.OnlyStale | sim/main.zig:362-379 | What else disturbs such an operation is a root retained in a slot, newer than any the oracle knows. |
| FreshRuns.UntruncatedRun | sim/main.zig:333-519 | So a run without truncations agrees throughout if and only if none of its operations is so struck. |
| FreshRuns.UntruncatedFromCreation | sim/main.zig:327-519 | The same from a new file, for every coding, number of series, fault script and operation sequence. |
| FreshRuns.WholeWrites | sim/main.zig:386-396 | Without truncations and short writes nothing is supposed of the bytes: marked before the snapshot every run agrees throughout; as written, exactly those without a process crash after the root. |
| Retained.StepFrom | sim/main.zig:362-518 | No operation brings a root into a slot of either image but the one it publishes, which the oracle then counts; every other root there was shown by the same slot before. |
| Retained.RevivedMeans | sim/main.zig:362-518 | So a root is revived by an operation if and only if a slot showed it before and it stands whole afterwards, newer than the oracle's. |
| Told.ExecLays | sim/main.zig:109-163 | The bytes a script lets a series of calls lay over an image, with the torn prefix of a short write, are what storage holds after them, and power is lost exactly when the first call that fails draws it. |
| Told.RevivedTold | sim/main.zig:386-518 | An operation revives a root if and only if a slot shows one newer than the root it leaves, and the bytes its calls will lay, as far as the script lets them, spell that root's manifest and the root before it: in the image left unless power is lost, or in the one synced ahead of a root whose own sync fails. Told from slots, bytes and script, with nothing of the result. |
| Told.TwinRespelled | sim/main.zig:362-379 | The twin of the root to be published, shown by its slot under a root write that stores nothing, is such a root. |
| Told.TruncationExact | sim/main.zig:362-379 | A truncation is recovered from with the oracle in agreement if and only if nothing was cut, or the root or its retained predecessor is left. |
| Told.StepForetold | sim/main.zig:362-518 | An operation goes on and ends with the oracle agreeing with both images if and only if four things told beforehand are absent: a cut too deep, a completed root, a newer root spelled anew and, as written, the process crash after the root; then the invariant holds again, and only a truncation can stop the simulator. |
| Told.RunForetold | sim/main.zig:333-519 | So a run with truncations goes through and agrees at every boundary if and only if none of them is foretold of any of its operations, in both orders of marking. |
| Told.ForetoldFromCreation | sim/main.zig:327-519 | The same from a new file, for every coding, number of series, fault script and operation sequence. |
| Told.ForetoldWholeWrites | sim/main.zig:327-519 | For scripts without short writes nothing is supposed of the bytes. |
| Told.ReachedReader | sim/main.zig:545-583 | At the end of a run of which nothing is foretold, the reader's snapshot is the counted prefix of every series. |
| FailingRuns.CrashRunDisagrees | sim/main.zig:392-396 | A run of two operations, under every coding and for objects of any size, whose oracle and durable image disagree as written. |
| FailingRuns.TwinDisturbs | sim/main.zig:362-379 | Whenever a slot shows, byte for byte, the root to be published and its write fails whole, the file opens to that root and the oracle keeps the older one, in both orders of marking. |
| FailingRuns.ShortRunDisagrees | sim/main.zig:125-131 | A run of two operations whose short root write stores all but trailing zeros, one being enough, over a slot never used: under every coding whose root ends so and in both orders of marking the file opens to a root whose write had failed. |
| RevivedRun.SamePublication | src/internal/engine.zig:842-965 | The root to be published depends on the end of file only through its eight-byte alignment. |
| RevivedRun.RerunDisagrees | sim/main.zig:362-379 | From every state of the invariant with all committed, nothing newer retained and a file ending one byte past a multiple of eight, for every coding, batch, sizes and order of marking: the batch, a memory checkpoint, a truncation, the same batch and the same checkpoint with a failing root write leave the file opening to the stale root. |
| RevivedRun.RevivedRunDisagrees | sim/main.zig:362-379 | Such a state is reached from a new file, with an empty manifest of any size: points for each of two series, and a checkpoint whose manifest takes one byte more than a multiple of eight; so this run of eight operations ends in disagreement. |
| RevivedRun.NamedRunDisagrees | src/internal/manifest.zig:6-61 | It is reached with the engine's own manifest sizes: 64 bytes for none, 329 for two series with names of 12 and 13 characters, as `sim/main.zig:237-241` makes them. |
| Simulator.MemoryStorage.BeforeWrite | sim/main.zig:109-133 | The in-place method reaches the specified state and verdict for every fault choice. |
| Simulator.MemoryStorage.PwriteAll | sim/main.zig:178-184 | The write path refines the specified storage call. |
| Simulator.MemoryStorage.PreadAll | sim/main.zig:186-192 | A read gives the bytes of the volatile image from the offset, fewer near the end and none past it. |
| Simulator.MemoryStorage.SyncFile | sim/main.zig:146-163 | The sync path refines the specified storage call. |
| Simulator.MemoryStorage.CrashNow | sim/main.zig:165-172 | A crash refines the specified one. |
| Simulator.OracleModel.TakeSnapshot | sim/main.zig:256-262 | The in-place snapshot refines the specified oracle step. |
| Simulator.OracleModel.Restore | sim/main.zig:264-271 | The loop over series refines the specified restore. |
| Simulator.Simulator.RecoverFrom | sim/main.zig:533-552 | The recovery loop refines the specified recovery, for power loss and process crash. |
| Simulator.Simulator.RecordFailure | sim/main.zig:392-396 | The written order: snapshot first, then the durable mark. |
| Simulator.Simulator.CheckpointOperation | sim/main.zig:386-414 | The checkpoint branch refines the specified step. |
| Simulator.Simulator.ReopenOperation | sim/main.zig:415-444 | The reopen branch refines the specified step. |
| Simulator.Simulator.RefreshOperation | sim/main.zig:445-449 | The refresh branch refines the specified step. |
| Simulator.Simulator.AppendOperation | sim/main.zig:461-518 | The append branch refines the specified step. |
| Simulator.Simulator.TruncateOperation | sim/main.zig:362-379 | The truncation branch refines the specified step. |
| Simulator.Simulator.RunSeed | sim/main.zig:333-519 | The operation loop finishes if and only if the run does, in the run's last state, and otherwise stops in front of the operation the run stops at; with nothing foretold of its operations it finishes, with the oracle agreeing with both images. |
| VerifyRange.Width | sim/main.zig:561-563 | The drawn window has at least one point and fits both limits. |
| VerifyRange.Compare | sim/main.zig:575-582 | The comparison passes if and only if count, every timestamp and every value bit match; the timestamp-order error is never the first one reported. |
| VerifyRange.Check | sim/main.zig:554-583 | The check passes if and only if the reader's answer for the drawn window is exact; draws below their limits are taken as they are, so `widthDraw + 1` points from `beginDraw` are what is judged. The timestamp-order error is never reported. |
| VerifyRange.EveryWindow | sim/main.zig:561-564 | For every width up to the limit and every begin that leaves room there are draws under which the check judges exactly that window. |
| VerifyRange.NoneEscapes | sim/main.zig:554-583 | A reader passes under every draw if and only if it is right on every window within the limit: one wrong anywhere fails under some draw. |
| VerifyRange.WindowByTimestamp | sim/main.zig:565-574 | On strictly increasing points the window by index is the window by its first and last timestamps. |
| VerifyRange.ReaderSees | sim/main.zig:445-449 | In every state of the invariant the reader's snapshot of a series is its counted prefix. |
| VerifyRange.FaithfulReaderPasses | sim/main.zig:554-583 | In every state of the invariant a reader that returns its own snapshot never triggers a mismatch. |
| Lookup.RankIsShift | clients/c/lookup_test.c:30-35 | Flipping the sign bit of a signed 64-bit timestamp gives its distance from the smallest one. |
| Lookup.DistanceIsExact | clients/c/lookup_test.c:30-36 | For all signed 64-bit pairs the wrapped unsigned subtraction is the mathematical distance. |
| Lookup.SelectionUnique | clients/python/tests/test_client.py:590-598 | On a strictly increasing series at most one answer meets the declarative selection. |
| Lookup.ScanStep | clients/go/chronotail_test.go:133-143 | One more point replaces the scan's best only if it is eligible and strictly closer, which keeps the earlier point on ties. |
| Lookup.ReferenceC | clients/c/lookup_test.c:38-51 | The C loop meets the declarative selection in all modes under any limit. |
| Lookup.ReferenceGo | clients/go/chronotail_test.go:120-148 | The Go loop meets the declarative selection and returns the zero point when it finds none. |
| Lookup.Filtered | clients/python/tests/test_client.py:591-594 | The comprehension keeps exactly the points eligible in the mode. |
| Lookup.MinByKey | clients/python/tests/test_client.py:597-597 | The keyed minimum is a candidate that no other candidate is below in distance, then timestamp. |
| Lookup.ReferencePython | clients/python/tests/test_client.py:590-598 | The filter and keyed minimum meet the declarative selection. |
| Lookup.ReferencesAgree | clients/python/tests/test_client.py:590-598 | All three selectors return the same point, or all none, on every strictly increasing series. |
| Lookup.LowerBound | src/internal/index.zig:51-63 | The binary search splits the keys at the first one not below the target. |
| Lookup.ChooseEntry | src/internal/engine.zig:241-254 | The entry chosen in a node is the only one that can hold the probe's answer; none means there is no point that way. |
| Lookup.LookupPage | src/internal/engine.zig:256-270 | The page probe gives the greatest point at or before the target, or the least at or after it. |
| Lookup.ProbeWiden | src/internal/engine.zig:241-254 | Probing the part that can hold the answer gives the answer for the whole series. |
| Lookup.LookupDirectional | src/internal/engine.zig:1382-1436 | Descending an index tree of any height to a single page gives the directional answer for the whole series. |
| Lookup.OneProbe | src/internal/engine.zig:1359-1368 | One probe is the exact, predecessor or successor selection, and an exact hit wins nearest too. |
| Lookup.TwoProbes | src/internal/engine.zig:1366-1374 | The closer of predecessor and successor, ties to the predecessor, is the nearest selection. |
| Lookup.LookupTree | src/internal/engine.zig:1351-1380 | The engine's two-probe lookup with its limit applied last makes the same declarative selection as the three scans. |
| Batches.FullConserves | clients/python/src/chronotail/__init__.py:233-238 | Cutting a stream into full batches and a rest loses, repeats and reorders nothing. |
| Batches.AllConserves | clients/python/src/chronotail/__init__.py:310-324 | Cutting a buffer into batches with a shorter last one conserves it. |
| Batches.FullSplit | clients/python/src/chronotail/__init__.py:226-238 | Handing a stream over in two parts gives the same batches and rest as handing it over at once. |
| Batches.FullIs | clients/python/src/chronotail/__init__.py:233-238 | There is only one way to cut a stream into batches of exactly the batch size and a shorter rest, and it is the one taken. |
| Batches.AllIs | clients/python/src/chronotail/__init__.py:313-324 | There is only one way to cut a buffer into full batches and a last one that may be short but not empty. |
| PythonWriter.Writer.FlushSeries | clients/python/src/chronotail/__init__.py:277-280 | A flush sends the whole pending list as one batch and clears it, or leaves it when the library fails. |
| PythonWriter.Writer.Append | clients/python/src/chronotail/__init__.py:207-215 | One point joins its series' pending list and is sent with it exactly when it completes a batch; other series are untouched, and a new series comes last. |
| PythonWriter.Writer.AppendBufferBatches | clients/python/src/chronotail/__init__.py:288-325 | Writable matching buffers go out in order as batches of at most the batch size; on failure a prefix of those batches was sent. |
| PythonWriter.Writer.TopUp | clients/python/src/chronotail/__init__.py:226-232 | Topping up sends a full batch, keeps a shorter one waiting, or does nothing, and accounts for every point. |
| PythonWriter.Writer.SendWhole | clients/python/src/chronotail/__init__.py:233-236 | The offset loop sends the next whole batches in order and stops before a short one. |
| PythonWriter.Writer.AppendLists | clients/python/src/chronotail/__init__.py:222-238 | Pending and new points together go out as full batches in order and the rest stays pending. |
| PythonWriter.Writer.AppendMany | clients/python/src/chronotail/__init__.py:217-238 | A length mismatch sends and buffers nothing; otherwise the batches sent and the rest kept are those of the combined stream, on either input path. Buffers handed over with nothing pending leave nothing pending; anything else that stays below a batch is not sent. |
| PythonWriter.ManyMeans | clients/python/src/chronotail/__init__.py:217-238 | Buffers with nothing pending before them go out whole, all batches full but perhaps the last; everything else goes out in full batches and leaves less than one. In both cases the cut is determined by that. |
| PythonWriter.Writer.Flush | clients/python/src/chronotail/__init__.py:272-275 | Series are flushed in first-use order, each once, up to the first failure; success leaves nothing pending. |
| PythonWriter.WaitingMeans | clients/python/src/chronotail/__init__.py:272-280 | A flush makes one append for each series with something pending, in first-use order, with exactly its pending points, and none for the others. |
| PythonWriter.Writer.Checkpoint | clients/python/src/chronotail/__init__.py:240-242 | A successful checkpoint follows all flushed batches and leaves nothing pending. |
| PythonWriter.Writer.Close | clients/python/src/chronotail/__init__.py:257-264 | Closing flushes, then gives up the handle and closes it even when the flush failed; a second close does nothing. |
| PythonWriter.CallConserves | clients/python/src/chronotail/__init__.py:207-238 | Per series, delivered points plus pending ones grow by exactly the points handed over; after a failure the delivered ones are a prefix. |
| PythonWriter.FlushConserves | clients/python/src/chronotail/__init__.py:272-280 | A flush moves pending points to delivered ones series by series and adds nothing. |
| PythonWriter.AnswersDecide | clients/python/src/chronotail/__init__.py:207-242 | A call fails only if the answer to the native call after those recorded was a failure, so many answers were used, and never when the library has no failure to give. |
| PythonWriter.Perform | clients/python/src/chronotail/__init__.py:207-242 | Every call keeps the batch bounds and conserves every series' stream until a native append fails; it fails exactly when the library answered one of its calls with a failure. |
| PythonWriter.Run | clients/python/src/chronotail/__init__.py:207-242 | For every sequence of calls: served in full unless the library answers a call with a failure, and then each series' delivered and pending points are all accepted points in order; at the first failure the calls before it were served and delivered points are a prefix of the accepted ones. As many answers are used as native calls were recorded, and one more for the call that failed. |
| PythonWriter.DeliveredAll | clients/python/src/chronotail/__init__.py:240-242 | After a run that ends with nothing pending, everything accepted was delivered. |
| PythonWriter.SplitIndependence | clients/python/src/chronotail/__init__.py:207-242 | Two call sequences with the same flattened points deliver the same stream per series by the next checkpoint, however they were split or on which path they came, and they get there whenever the library answers no call with a failure. |
| Ranges.RangeMembers | src/internal/engine.zig:2088-2102 | A range holds exactly the stored points inside its inclusive bounds. |
| Ranges.RangeResumes | src/internal/engine.zig:1698-1703 | Asking again from just after the last copied timestamp gives exactly the points not copied. |
| PythonReader.AdvancedResumes | src/internal/engine.zig:1673-1705 | Cursor chunks neither repeat nor skip a point, even at the largest timestamp. Completion means nothing is left; a short chunk completes, a longer remainder does not, and a chunk just filled completes unless the reader is mapped and a larger timestamp could follow. |
| PythonReader.NativeReader.CursorNext | src/c_api.zig:646-677 | The chunk contract follows from the cursor's stored position: the next points up to the capacity, and completion only at the end. |
| PythonReader.Reader.Refresh | clients/python/src/chronotail/__init__.py:377-382 | True exactly on an open reader with a newer snapshot, a failure exactly on a closed reader or an unreadable file; the epoch and the snapshot move only with the former. |
| PythonReader.Reader.Range | clients/python/src/chronotail/__init__.py:448-470 | The capacity loop returns the whole range exactly when the reader is open, knows the series and no request fails, and asks the library at most twice. |
| PythonReader.Reader.Close | clients/python/src/chronotail/__init__.py:574-577 | Closing gives up the handle once. |
| PythonReader.Reader.CheckIteration | clients/python/src/chronotail/__init__.py:546-550 | Iteration goes on exactly while the reader is open and its epoch unchanged. |
| PythonReader.Reader.IterRange | clients/python/src/chronotail/__init__.py:472-503 | A generator is made if and only if the batch size is at least 1 and eight bytes a point fit the signed 64-bit address space, both bounds are signed 64-bit, the library has cursors and the reader is open; each of the three refusals if and only if its condition is the first to fail. The generator has done nothing yet and keeps its arguments. |
| PythonReader.RangeIterator.Begin | clients/python/src/chronotail/__init__.py:504-520 | The first resumption makes one cursor on an open, unchanged reader, or ends the generator with the fault that stood in the way. |
| PythonReader.RangeIterator.Fetch | clients/python/src/chronotail/__init__.py:521-535 | Each refill happens only on an open, unchanged reader, continues where the last chunk ended, and on an error destroys the cursor. |
| PythonReader.RangeIterator.Next | clients/python/src/chronotail/__init__.py:504-544 | A resumption gives the next point of the range, stops after the last, or raises exactly the fault in the way: closed, refreshed, or a failed native call; only its own cursor is touched. |
| PythonReader.RangeIterator.Stop | clients/python/src/chronotail/__init__.py:541-543 | Stopping early destroys the generator's cursor. |
| PythonReader.RangeIterator.Finish | clients/python/src/chronotail/__init__.py:541-543 | The clean-up destroys the cursor once, if one was made. |
| PythonReader.HerdMoved | clients/python/src/chronotail/__init__.py:504-544 | One generator's move leaves every other generator's cursor and bookkeeping intact, and every native cursor keeps exactly one owner. |
| PythonReader.MakeNoted | clients/python/src/chronotail/__init__.py:472-503 | In a session a generator is begun if and only if its arguments are usable, the library has cursors and no close came before; a refusal names the first condition that fails. |
| PythonReader.RefreshNoted | clients/python/src/chronotail/__init__.py:377-382 | In a session a refresh cuts if and only if no close came before and a newer snapshot arrives, and fails if and only if one did or the file is unreadable. |
| PythonReader.NotesCut | clients/python/src/chronotail/__init__.py:476-478 | If every event got the note it deserves, no generator gives a point after a cut that came after its beginning. |
| PythonReader.NotesCount | clients/python/src/chronotail/__init__.py:504-544 | The points noted for a generator are the first of its range, as many as it is said to have given. |
| PythonReader.StoppedGaveAll | clients/python/src/chronotail/__init__.py:536-544 | A generator that nothing had ended and that stops has given its whole range. |
| PythonReader.AllDestroyed | clients/python/src/chronotail/__init__.py:541-543 | When every generator is done, every native cursor ever made is destroyed. |
| PythonReader.Session | clients/python/src/chronotail/__init__.py:448-550 | For any interleaving of any number of generators with refreshes, closes and early stops: every event gets the note it deserves on values, points given are a prefix of the snapshot's range, none is given after a changed refresh or close, and every created cursor is destroyed, none twice. |
| Markup.Destination | scripts/check-docs.py:175-211 | A bare destination has balanced unescaped parentheses and no blank; an angle-bracketed one ends at its closing bracket; where reading stops is the scanned stop, at most one past the end after a trailing backslash. |
| Markup.DestinationMeans | scripts/check-docs.py:175-211 | The scan stops at a place if and only if, after blanks, an angle destination ends there, after the first unescaped closing bracket with neither an opening one nor a line feed unescaped before, or a bare one does: at the first unescaped blank or unmatched closing parenthesis, or with the text, its parentheses closed. |
| Markup.ClosingMeans | scripts/check-docs.py:236-240 | The rest of a link ends at a place if and only if blanks, an optional title in quotes or parentheses, blanks and a closing parenthesis lead there. |
| Markup.LinkClosing | scripts/check-docs.py:236-240 | The scan of blanks, title and closing parenthesis finds that end. |
| Markup.LinkMeans | scripts/check-docs.py:231-240 | A link ends at a place if and only if its destination ends within the text and the rest of the link leads from there to that place. |
| Markup.InlineDestination | scripts/check-docs.py:231-240 | A destination and then the rest of its link, or nothing. |
| Markup.TagMeans | scripts/check-docs.py:136-139 | A tag ends with the first closing angle bracket outside quoted values, and only there. |
| Markup.TagEnd | scripts/check-docs.py:136-139 | The scan finds that bracket. |
| Markup.LiteralMeans | scripts/check-docs.py:130-140 | Skipped markup ends at a place if and only if it is a closing bracket with an opening parenthesis and the rest of a link, or a tag that ends there. |
| Markup.LiteralMarkupEnd | scripts/check-docs.py:130-140 | Skipped markup is the rest of an inline link or a tag, and its end is the one those scans give. |
| Markdown.Blank | scripts/check-docs.py:44-46 | Blanking keeps the length and every line feed and turns all else into spaces. |
| Markdown.SplitJoins | scripts/check-docs.py:55-57 | Splitting a text into lines with their endings loses nothing, so offsets can be added up line by line. |
| Markdown.SplitIs | scripts/check-docs.py:55-57 | There is only one way to cut a text into lines: each line is ended by its first break, a carriage return and line feed together, and only the last may lack one. It is the one taken. |
| Markdown.WithoutBreakMeans | scripts/check-docs.py:97-97 | What is left of a line without its ending goes up to its first break. |
| Markdown.JoinNext | scripts/check-docs.py:55-57 | Each line stands in the text at the sum of the lengths before it. |
| Markdown.QuoteMeans | scripts/check-docs.py:58-58 | Quote prefixes are made of blanks and angle brackets only. |
| Markdown.QuoteLast | scripts/check-docs.py:58-58 | The quote prefix can be read as markers, each after at most three spaces and with the one blank that may follow, and no further marker follows it. |
| Markdown.QuoteIs | scripts/check-docs.py:58-58 | Wherever the line can be read so, the prefix ends there and nowhere else. |
| Markdown.MarkerMeans | scripts/check-docs.py:59-59 | There is a fence marker if and only if three equal backticks or tildes stand after the quote prefix and up to three spaces; it is their whole run, and the rest of the line follows. |
| Markdown.OpeningMeans | scripts/check-docs.py:68-72 | A line opens a fence if and only if its whole run of backticks or tildes after the quote prefix is at least three long, and after backticks no further one follows on the line; mark and length are the run's. |
| Markdown.ClosingLine | scripts/check-docs.py:61-66 | A line closes a fence if and only if its run there is of the same mark, at least three and at least as long as the opening one, and only white space follows. |
| Markdown.FindRun | scripts/check-docs.py:120-127 | The search finds the first run of exactly the given length, or there is none. |
| Markdown.ExactRunMeans | scripts/check-docs.py:120-127 | A run of exactly `n` backticks starts at a place if and only if the backticks counted from there are `n` and none stands before them. |
| Markdown.CodeSpanEnd | scripts/check-docs.py:120-127 | The opening run is maximal and the closing end is that of the next run of exactly its length, or no such run follows. |
| Markdown.WithoutInlineCode | scripts/check-docs.py:143-164 | Terminates; same length, line feeds in place, other characters kept or blanked; every backtick outside escapes and skipped markup is in a blanked code span or in a run nothing closes, and nothing else is blanked. |
| Markdown.SpanUnique | scripts/check-docs.py:120-127 | A backtick run opens at most one code span. |
| Markdown.FenceWithinNext | scripts/check-docs.py:96-102 | A fence opens within a would-be span if and only if one of its lines after the first opens one. |
| Markdown.InlineUnique | scripts/check-docs.py:143-164 | A text has only one such reading, so what is blanked is determined by it. |
| Markdown.RunEnd | scripts/check-docs.py:93-103 | A backtick run is read as a span exactly when a run of its length closes it with no fence opening in between, and then up to that run's end. |
| Markdown.StartsAtMeans | scripts/check-docs.py:80-89 | A comment mark is found wherever it stands, at the end of the line too, and nowhere else. |
| Markdown.MaskLine | scripts/check-docs.py:75-106 | Terminates by a lexicographic measure although two branches do not advance; exactly the comments of the line are blanked, each to its first closing mark, and the carried state says whether one is open and how far inline markup reaches. |
| Markdown.LineUnique | scripts/check-docs.py:75-106 | A line has only one such reading from the state before it, and leaves only one state. |
| Markdown.MaskBlockLine | scripts/check-docs.py:57-116 | One line is blanked inside and at the edges of a fence, otherwise only loses its comments; fences open and close exactly by the marker rules and the carried state. |
| Markdown.WithoutBlocks | scripts/check-docs.py:49-117 | Terminates on every text; same length, line feeds in place, other characters kept or blanked; every line was read from the state the line before left. |
| Markdown.StepMasks | scripts/check-docs.py:49-117 | Whatever the carried state, a line's result keeps its length and line feeds and only blanks characters. |
| Markdown.BlocksUnique | scripts/check-docs.py:49-117 | A text has only one reading by blocks: every line's result and every carried state are determined by it. |
| Swallowed.BothExactly | scripts/check-docs.py:73-113 | Outside fences a line leaves a fence and a comment open together if and only if it is read inside a comment, begins with its end, has a fence run next, no inline markup and another comment left open. |
| Swallowed.BothOpen | scripts/check-docs.py:73-113 | In a whole text both are open after a line if and only if they were and the fence did not close, or the line is of that kind. |
| Swallowed.NeverBoth | scripts/check-docs.py:73-74 | A text without such lines keeps the promise: a fence and a comment are never open together. |
| Swallowed.FenceCloses | scripts/check-docs.py:61-66 | When the fence of such a line closes, the comment stays open. |
| Swallowed.CommentSwallows | scripts/check-docs.py:79-83 | A line inside a comment that does not close on it is blanked whole and leaves the comment open. |
| Swallowed.Lost | scripts/check-docs.py:79-83 | From there every line up to the next closing mark is blanked whole. |
| Swallowed.SampleSwallowed | scripts/check-docs.py:73-74 | In a four-line text the link after a closed fence is blanked with everything else, in the only reading the text has. |
| Swallowed.ReadSample | scripts/check-docs.py:49-117 | The scanner turns that text into blanks. |
| Anchors.DecimalInjective | scripts/check-docs.py:406-410 | Different counters render as different digits. |
| Anchors.CandidateInjective | scripts/check-docs.py:406-410 | The candidates base, base-1, base-2, ... are pairwise different. |
| Anchors.Pigeonhole | scripts/check-docs.py:408-410 | Taken candidates of one base never outnumber the slugs given out. |
| Anchors.UniqueSlug | scripts/check-docs.py:405-410 | The loop terminates within as many steps as slugs were given out, at the first free candidate. |
| Anchors.ClosingIs | scripts/check-docs.py:400-400 | A title is cut at the first place from which only blanks, number signs and perhaps blanks follow, or kept whole when there is none. |
| Anchors.AtxMeans | scripts/check-docs.py:397-400 | A line is an ATX heading with a given title if and only if up to three spaces and one to six number signs come first, then the end of the line or blanks and that title. |
| Anchors.SetextMeans | scripts/check-docs.py:401-401 | A line underlines the one before if and only if it is up to three spaces, a row of equals signs or one of hyphens, and perhaps blanks. |
| Anchors.TextMeans | scripts/check-docs.py:401-402 | What it makes a heading of is that line without the white space at its ends, and not an empty one. |
| Anchors.HeadingLines | scripts/check-docs.py:395-414 | The headings are exactly the heading lines in order with their titles: ATX lines, and lines that underline a text line which is no heading itself. |
| Anchors.GenerateAnchors | scripts/check-docs.py:393-415 | Every heading of the text gets the first free candidate of its own slug, and the generated set has exactly one slug per heading. |
| Anchors.SlugsDistinct | scripts/check-docs.py:405-412 | All slugs of a document are pairwise different. |
| Anchors.SlugsUnique | scripts/check-docs.py:405-412 | The headings alone determine every slug. |
| Anchors.RepeatedHeading | scripts/check-docs.py:405-412 | Headings with one slug are numbered in order of appearance. |
| CApi.TokensDistinct | src/c_api.zig:21-25 | Issued tokens are pairwise different if and only if no more than 2^64 handles were ever made. |
| CApi.TokenNumbers | src/c_api.zig:20-25 | The first token is 1, each next one is one more, and after 2^64 - 1 comes 0. |
| CApi.StatusMeans | src/c_api.zig:770-793 | For every status number, exactly the errors that give it. |
| CApi.PoisonsExactly | src/c_api.zig:190-196 | An append poisons if and only if it failed with an error other than the six of a caller's mistake; a checkpoint if and only if it failed; nothing else does. |
| CApi.ReplayMeans | src/c_api.zig:173-252 | A log of calls is accepted exactly when after poison only an abort follows, nothing follows the end, and no healthy used object is aborted. |
| CApi.SameIncarnation | src/c_api.zig:616-677 | A cursor's token matches a handle's only if that handle is the incarnation that made the cursor. |
| CApi.Library.OpenWriter | src/c_api.zig:145-171 | Argument checks in order; a new handle carries the next token; an appender no handle could be made for is aborted at once. |
| CApi.Library.OpenReader | src/c_api.zig:254-274 | The same for readers, which are closed instead. |
| CApi.Library.Append | src/c_api.zig:173-197 | Status by the order of checks; the appender is reached only through a healthy writer with proper arguments, and is poisoned afterwards if and only if it answered an error other than the six of a caller's mistake. |
| CApi.Library.PrepareAppend | src/c_api.zig:199-217 | Preparation reaches only a healthy appender and never poisons. |
| CApi.Library.CheckpointWithDurability | src/c_api.zig:237-252 | A checkpoint reaches only a healthy appender, and any failure poisons. |
| CApi.Library.Refresh | src/c_api.zig:276-285 | A refresh reaches only a reader. |
| CApi.Library.CursorStateCreate | src/c_api.zig:619-644 | A cursor state records the address and token of the reader it was made on; the reader's log tells the call, whether the engine refused it or not. |
| CApi.Library.CursorStateNext | src/c_api.zig:646-677 | A cursor reaches the engine only through the handle with its address and token, which up to 2^64 handles is the incarnation that made it. |
| CApi.Library.CursorStateDestroy | src/c_api.zig:679-682 | Destroying removes that cursor only. |
| CApi.Library.Close | src/c_api.zig:711-729 | A poisoned writer is aborted and reported, a healthy one is closed, and the handle goes either way. |
| CApi.LogsOrderly | src/c_api.zig:173-252 | Every appender and reader was asked in an orderly way, and with no handle left each was ended exactly once. |
| CApi.NoneSkipped | src/c_api.zig:145-729 | In a run a call has a status if and only if that holds of it at its turn: no other call is skipped. |
| CApi.Serve | src/c_api.zig:145-729 | Every call permitted by the caller's obligations leaves the handles, cursors and logs, and gives the status, told for it on values. |
| CApi.ClosingNext | src/c_api.zig:711-729 | Closing one more handle gives its object its one last event and changes no other log. |
| CApi.Run | src/c_api.zig:145-729 | For every sequence of calls with recycled addresses, then closing what is left: every status and the state before closing are those told on values, closing adds one last event to each object still held, every log is orderly and ended exactly once, and no cursor is presented to another reader than its own. |
| GoClient.Reader.Refresh | clients/go/chronotail.go:161-170 | The epoch moves exactly with the native generation. |
| GoClient.Reader.RangeInto | clients/go/chronotail.go:193-204 | The closed, empty-name and mismatch errors come in that order; otherwise the required count and the prefix that fits. |
| GoClient.Reader.Range | clients/go/chronotail.go:174-188 | The result is the whole range, and the growth error cannot occur. |
| GoClient.RangedMeans | clients/go/chronotail.go:174-188 | The allocating form succeeds unless the check or a native call it makes fails, with the second call made only when the range is not empty, and then gives the whole range. |
| GoClient.RangedIntoMeans | clients/go/chronotail.go:193-204 | The caller-buffer form makes one call and succeeds exactly when it does, with the required count and the points that fit. |
| GoClient.Reader.PrepareSeries | clients/go/chronotail.go:220-232 | A prepared series belongs to this reader's present snapshot. |
| GoClient.Reader.Cursor | clients/go/chronotail.go:270-286 | A cursor owns the one native state made for it; for an empty range that state is destroyed at once. |
| GoClient.Reader.Close | clients/go/chronotail.go:290-298 | The native reader is closed once; a second close does nothing. |
| GoClient.Series.Ready | clients/go/chronotail.go:367-378 | A series is usable exactly while its reader is open and its epoch is the reader's. |
| GoClient.Series.RangeInto | clients/go/chronotail.go:340-348 | A closed or stale series never reaches the library. |
| GoClient.Series.Range | clients/go/chronotail.go:323-337 | The prepared form returns the whole range of the snapshot it was prepared on. |
| GoClient.Series.LookupReady | clients/go/chronotail.go:253-262 | A lookup may use a prepared series exactly on its own open, unchanged reader. |
| GoClient.Reader.Lookup | clients/go/chronotail.go:238-249 | The closed, empty-name and mode errors each if and only if their condition is the first to fail, the mode error for numbers above 3; otherwise the one native lookup decides, and its answer is the point for that number: 0 at the target, 1 last before, 2 first after, 3 closest, the earlier of two, within the limit. |
| GoClient.Reader.LookupPrepared | clients/go/chronotail.go:253-267 | The library is asked only through a series of this open, unchanged reader, which its precondition demands; each error if and only if its condition is the first to fail, and the answer is the point for the mode's number. |
| GoClient.Series.Lookup | clients/go/chronotail.go:315-320 | A series asks the reader it was prepared on, with the same errors and the same answer by number. |
| GoClient.ModesMean | clients/go/chronotail.go:34-39 | The four mode numbers: what the declarative selection gives for each is the point at the target, the last before, the first after or the closest. |
| GoClient.LookupNoted | clients/go/chronotail.go:238-267 | The same of the note a lookup gets in a run, error by error and number by number. |
| GoClient.Cursor.Ready | clients/go/chronotail.go:439-453 | A cursor that passes is on an open, unchanged reader and has a native state unless it is complete. |
| GoClient.Cursor.Release | clients/go/chronotail.go:431-437 | Releasing destroys the native state if it is still held, and forgets it. |
| GoClient.Cursor.NextInto | clients/go/chronotail.go:390-414 | Exhaustion, staleness and a closed reader each destroy the native state once; any other error keeps it; a completed cursor answers without the library. |
| GoClient.NextMeans | clients/go/chronotail.go:390-414 | An advance told on values: which fault, whether the native state is destroyed, kept or forgotten, how many points are counted and how many native answers are used, each by its condition. |
| GoClient.Cursor.Close | clients/go/chronotail.go:423-429 | Closing destroys the native state at most once and completes the cursor. |
| GoClient.ReadersCut | clients/go/chronotail.go:161-170 | Refreshing or closing one reader leaves every open native reader held by exactly one client reader. |
| GoClient.SeriesCut | clients/go/chronotail.go:367-378 | Refreshing or closing one reader cannot make another reader's series unsafe, and makes its own stale. |
| GoClient.CursorsCut | clients/go/chronotail.go:439-453 | The same for cursors. |
| GoClient.CursorMoved | clients/go/chronotail.go:390-437 | One cursor's move leaves every other cursor's native state alone. |
| GoClient.Serve | clients/go/chronotail.go:139-453 | Every call on any reader, series or cursor leaves the client and the library, and gives the result, told for it on values. |
| GoClient.Run | clients/go/chronotail.go:139-453 | For every sequence of calls on any readers, series and cursors: every result is the one told on values, every native call meets its precondition, and after closing all, the library is in the state told, every native reader closed and every cursor state destroyed, none twice. |
| Ledger.DistinctBySize | bench/competitive/bench.py:374-375 | A list has no duplicates exactly when its set is as large. |
| Ledger.CallsClash | bench/competitive/bench.py:205-212 | Two calls share an identity if and only if engine and run agree and their labels clash, counting the two suffixes of concurrent calls. |
| Ledger.Validate | bench/competitive/bench.py:365-387 | Validation passes if and only if there is no duplicate, the identities are the expected ones and every record has schema 2 and is sound; otherwise the first of these that fails decides, and between schema and fields the first record that is not fine. |
| Ledger.ExactlyOnce | bench/competitive/bench.py:374-379 | The two set checks mean that every expected identity occurs exactly once and no other occurs. |
| Ledger.ResultsFile.WriteAll | bench/competitive/bench.py:456-459 | Rows are appended in order up to the interruption, as many as there was time for, and the set of complete identities follows the file row by row. |
| Ledger.Perform | bench/competitive/bench.py:424-459 | A complete call is skipped, a half-written one refused, a failed runner or a wrong identity set writes nothing, each if and only if; otherwise all its rows are appended, or as many as the interruption left time for. |
| Ledger.Session | bench/competitive/bench.py:413-468 | The file and the end are those told on values, a rejection with the verdict of the validation; the ledger only grows and stays free of duplicates whatever the calls; finishing means exactly once and sound; with disjoint calls a half-written one prevents finishing and is the one reported, and an unhindered session finishes. |
| Ledger.WholeCall | bench/competitive/bench.py:448-459 | The runner check compares sets only: a call's rows keep the ledger free of duplicates if and only if they repeat no identity. |
| Ledger.Resume | bench/competitive/bench.py:390-468 | For any sequence of interrupted sessions the file is the one told session by session and never gains a duplicate; one attempt that nothing hinders when it is reached is enough to finish, and finishing means every expected identity has exactly one row. |

## Left out

- Told.RunForetold: under the hypothesis FreshRuns.NeverMixed; that a torn root never decodes to a third root is the hash's doing and is not proved, so operations with FreshRuns.RootMixed are not judged.
- The corruption operation of the simulator (`sim/main.zig:337-360`), which restores the flipped bit before going on; its query is the same check as elsewhere.
- Random numbers, probabilities, seeds, statistics and digests of the simulator; choices are scripts.
- Index nodes are opaque objects of arbitrary size and number, and encoded sizes of pages and manifests are arbitrary; page codecs, statistics and the order in which dirty series are flushed are not modelled.
- Several pages written by one call are modelled as separate writes, which allows more faults than the code can meet.
- The simulator's timestamps and sizes are unbounded integers; its fixed arrays of 16 and 128 entries appear only as bounds on the window.
- When a truncation leaves no root that can be opened, the simulator reports a failure; the model stops the run there, as it does.
- VerifyRange.Compare: the answer is taken as two sequences, not as buffers filled in place.
- Reader aggregation, chart reductions, page borrowing and verification caches of the engine.
- Lookup.LookupTree: timestamps are mathematical integers there; that the 64-bit distance never wraps is Lookup.DistanceIsExact.
- PythonWriter.Run: stops at the first failed native append; what the writer does after one is not modelled.
- PythonWriter.Writer.AppendMany: whether an argument is a writable one-dimensional 8-byte buffer is a flag of the input, and iterables are already lists.
- Writer preparation, context managers and dispatch on the type of a timestamp in the Python client.
- Generators that are dropped without being closed: Python's collector closes them at a time of its own.
- PythonReader.Reader.IterRange: rejecting booleans and non-integers is not modelled; bounds and batch sizes are integers.
- Prepared series and lookups of the Python reader, whose guards are those of the Go client's.
- Markdown.WithoutBlocks: Python's Unicode line breaks and blanks are the code points listed in the module; other matching is by character.
- Markup.Destination: the unescaped target text is not computed, only where it begins and ends.
- Link collection, reference labels, HTML parsing, entity decoding, heading text and Unicode slugging of the documentation checker; the slug of a heading is a function given to the anchor loop.
- File and URL checks of the documentation checker.
- CApi.Run: calls with pointers that are neither null nor live are the caller's error and are skipped; output pointers are present in runs, and their null cases are stated per call.
- CApi.Library.CursorStateNext: the points a cursor gives are followed in the Python reader's model, not here.
- Ranges, aggregates, lookups, prepared handles and borrowed pages of the C interface, whose handle checks are those of the calls modelled.
- GoClient.Run: caller buffers are lengths, the results are returned values, and nil receivers are not modelled.
- GoClient.Cursor.NextInto: says which native state lives on, not which points were copied; a failed call of a mapped reader may have moved the cursor.
- The Go epoch counter is unbounded; the source's wraps at 2^64.
- The Go writer, which forwards each call, and finalizers.
- Ledger.Session: an interruption in the middle of one row, which the next session's JSON parser refuses, is not modelled; soundness of a row is one flag.
- The fixed matrix of benchmark calls, the fingerprint and manifest comparison on resume, and reports.
- Processes, files, memory mapping, locks, allocators and the network.
