# Bobby fake chunk manager

A model of the control-thread logic of Bobby's `FakeChunkManager`. This is
the component of the Minecraft client mod that shows cached "fake" chunks
beyond the server's render distance. The manager keeps three tables keyed by
chunk coordinate:

- `fakeChunks`: the cached chunks currently shown;
- `loadingJobs`: the loads in progress on the loading thread pool;
- `toBeUnloaded`: the coordinates waiting to be unloaded.

It also keeps the square view window it last saw (`centerX`, `centerZ`,
`viewDistance`) and a flush counter.

Each client tick `update` does four things:

1. It advances the flush counter. At most once every 1201 ticks it hands
   `storage.completeAll` to the I/O executor.
2. It compares the stored window with the player's. Every chunk that left the
   square loses its loading job and is queued for unload. Every chunk that
   entered leaves the queue and gets one new job, unless the client world
   already holds a real chunk there.
3. It drains the unload queue.
4. It completes the jobs that have finished.

Both drains ask `shouldKeepTicking` after each entry they handle and stop at
the first "no".

Modules:

- `Wrappers`: the `Option` type.
- `ViewWindow`: coordinates, windows, their squares, and the two set
  differences `Leaving` and `Entering`. It also holds the invariant
  `Separated`: jobs inside the window, queued chunks outside it.
- `ChunkStorage`: the primary and fallback storages as opaque lookups,
  `loadTag`, and the outcome a loading job computes.
- `Session`: the world or server name used for the cache directory.
- `Effects`: the external calls as events, and the events each primitive
  produces.
- `FlushTimer`: the flush counter.
- `Drains`: the two drains as step functions, their closed forms, the tables
  as a value (`Tables`), and the specifications `Moved` (the window step) and
  `Drained` (the two drains).
- `FakeChunks`: the `LoadingJob` and `FakeChunkManager` classes. Their
  methods update the fields in place, as the Java code does. `Update` is
  proved against `Moved` and `Drained`, and keeps the invariant `Valid`.

Inputs the manager reads from its environment are parameters:

| Input | Parameter |
|---|---|
| The player's chunk and the view distance, or none when there is no player | `view: Option<Window>` |
| The chunks the client world really holds (`clientChunkManager.getChunk(...) != null`) | `realChunks: set<Pos>` |
| The answers of `shouldKeepTicking`, by consultation number within the tick | `keep: nat -> bool` |

`keep` is one sequence for the whole tick: the job drain goes on from the
answer the unload drain stopped at.

Calls into the world, the lighting engine, the renderer, the Sodium chunk
listener and the I/O executor are appended to a ghost event `log`. The Sodium
subclass is the `backend` constant: `Vanilla`, or `Sodium(listenerPresent)`.
A job's `run` on the thread pool is the method `LoadingJob.Run`, which the
environment may call between two ticks (`FakeChunkManager.Execute`).

## Model

| member | source | states |
|---|---|---|
| FakeChunks.FakeChunkManager.Update | src/main/java/de/johni0702/minecraft/bobby/FakeChunkManager.java:121-214 | `update` keeps the invariant: counter in [0, 1200], every job inside the stored window, live and filed under its own coordinate, the unload queue outside the window. The counter takes one flush step whether or not there is a player. With no player nothing else changes and the log gains only the flush event. With a player, exactly the jobs of chunks leaving the window are cancelled, and the tables end as `Drained(Moved(...))` of the tables after the flush. Every job still in the table is the same object as before, so the pool's job and the table's agree. Every new job is fresh |
| FakeChunks.FakeChunkManager.Tick | src/main/java/de/johni0702/minecraft/bobby/FakeChunkManager.java:122-128 | The counter becomes `FlushStep` of the old one and stays in [0, 1200]. The log gains `FlushDispatched` exactly on a flushing step |
| FakeChunks.FakeChunkManager.Reconcile | src/main/java/de/johni0702/minecraft/bobby/FakeChunkManager.java:135-213 | With a player: the window diff runs only when the window changed, then both drains run. The result is `Drained(Moved(old tables))`, the invariant holds, and a job is cancelled exactly when its chunk left the window. Jobs that stay are the same objects, and new ones are fresh |
| FakeChunks.FakeChunkManager.MoveWindow | src/main/java/de/johni0702/minecraft/bobby/FakeChunkManager.java:141-181 | The two loop pairs, then the new window is stored. The tables become `Moved(old tables, newW, realChunks)`, separation is kept for the new window, and exactly the leaving chunks' jobs are cancelled. Every job not leaving stays in the table as the same object, so the `put` never replaces a live job, and every added job is fresh |
| FakeChunks.FakeChunkManager.CancelLeaving | src/main/java/de/johni0702/minecraft/bobby/FakeChunkManager.java:143-152 | The job table loses exactly `Leaving(old, new)`, the queue gains exactly `Leaving`, a job is cancelled iff its chunk is leaving, and the finished outcomes lose the leaving coordinates |
| FakeChunks.FakeChunkManager.ScheduleEntering | src/main/java/de/johni0702/minecraft/bobby/FakeChunkManager.java:155-176 | The queue loses exactly `Entering(old, new)`. Every entering chunk without a real chunk gets exactly one fresh, uncancelled, unfinished job filed under it. Every old job stays as it was; no `put` replaces a live job, because none is in `Entering` |
| FakeChunks.FakeChunkManager.Drain | src/main/java/de/johni0702/minecraft/bobby/FakeChunkManager.java:183-213 | The two drains take the tables to `Drained(old tables)`: distinct queued coordinates unloaded, then distinct finished jobs completed, with `keep` consulted once per handled entry. The invariant is kept |
| FakeChunks.FakeChunkManager.DrainUnloads | src/main/java/de/johni0702/minecraft/bobby/FakeChunkManager.java:184-192 | Each handled coordinate leaves the queue and the chunk table and is unloaded exactly once (the handled order is duplicate-free). The tables become `UnloadsDone` of the handled order. Each handled entry consumes one consultation, every consultation but the last said "go on", and the queue is empty unless the last one said "stop" |
| FakeChunks.FakeChunkManager.DrainJobs | src/main/java/de/johni0702/minecraft/bobby/FakeChunkManager.java:194-213 | Jobs still loading are skipped and stay. Each completed job leaves the job table and is completed exactly once (the order is duplicate-free), and the tables become `JobsDone` of the handled order. The completed coordinates are distinct and drawn from the finished ones, and, unless stopped, they are all of them |
| FakeChunks.FakeChunkManager.CancelLoad | src/main/java/de/johni0702/minecraft/bobby/FakeChunkManager.java:284-289 | The job at `p`, if any, leaves the table and is marked cancelled. At no other coordinate and in no other job does anything change |
| FakeChunks.FakeChunkManager.Unload | src/main/java/de/johni0702/minecraft/bobby/FakeChunkManager.java:266-282 | The table invariant is kept. `p` leaves both tables, so `GetChunk(p)` is None, and its job, if any, is cancelled. The log gains `UnloadEvents` of the removed chunk, with the Sodium `onChunkRemoved` last |
| FakeChunks.FakeChunkManager.Load | src/main/java/de/johni0702/minecraft/bobby/FakeChunkManager.java:244-264 | The table invariant is kept. The chunk is put at `p`, so `GetChunk(p)` returns it. `GetChunk` at every other coordinate is unchanged. The log gains the lighting, colour and render events, then the Sodium `onChunkAdded` |
| FakeChunks.FakeChunkManager.LoadRecord | src/main/java/de/johni0702/minecraft/bobby/FakeChunkManager.java:236-242 | The table invariant is kept. When `deserialize` refuses the tag, nothing changes. Otherwise it is `Load` of the built chunk |
| FakeChunks.FakeChunkManager.CompleteJob | src/main/java/de/johni0702/minecraft/bobby/FakeChunkManager.java:376-378 | An empty result leaves the chunk table and the log as they were. A found chunk is loaded at the job's coordinate |
| FakeChunks.FakeChunkManager.GetChunk | src/main/java/de/johni0702/minecraft/bobby/FakeChunkManager.java:113-115 | Some exactly when `p` holds a fake chunk, and then that chunk |
| FakeChunks.FakeChunkManager.Execute | src/main/java/de/johni0702/minecraft/bobby/FakeChunkManager.java:173 | The executor running a job keeps the manager's invariant. A cancelled job's result is untouched; otherwise the result is the job's outcome |
| FakeChunks.FakeChunkManager.constructor | src/main/java/de/johni0702/minecraft/bobby/FakeChunkManager.java:69-80 | All tables are empty, the counter is 0, the window is (0, 0, 0), and the invariant holds |
| FakeChunks.LoadingJob.Run | src/main/java/de/johni0702/minecraft/bobby/FakeChunkManager.java:367-374 | A cancelled job leaves `result` unset. Otherwise `result` is the chunk built by the first storage that had a tag, or empty |
| FakeChunks.LoadingJob.constructor | src/main/java/de/johni0702/minecraft/bobby/FakeChunkManager.java:362-365 | A new job is filed for its coordinate, not cancelled, and still loading |
| Drains.DrainedTables | src/main/java/de/johni0702/minecraft/bobby/FakeChunkManager.java:183-213 | After the drains: the queue has lost the unloaded coordinates and the job table the completed ones; the chunk table is the old table minus the unloaded coordinates, with the completed jobs' chunks put over it; the log has the unload events, then the completion events, in order |
| Drains.DrainsCompose | src/main/java/de/johni0702/minecraft/bobby/FakeChunkManager.java:183-213 | The unload drain then the job drain, each handling distinct entries and stopping at its own first "stop", the job drain consulting `shouldKeepTicking` from where the unload drain left off, together amount to `Drained` |
| Drains.DrainsProgress | src/main/java/de/johni0702/minecraft/bobby/FakeChunkManager.java:184-213 | Each drain that had work handles at least one entry, and unhandled queue entries remain. Unfinished jobs stay in the table, and only jobs in the table are completed |
| Drains.DrainedChunks | src/main/java/de/johni0702/minecraft/bobby/FakeChunkManager.java:184-213 | A coordinate holds a chunk afterwards iff it held one and was not unloaded, or a completed job found one; then it holds that job's chunk. A coordinate that kept its chunk and whose completed job, if any, found nothing still holds its old chunk, so an empty result leaves the table as it was |
| Drains.MovedSeparated | src/main/java/de/johni0702/minecraft/bobby/FakeChunkManager.java:143-180 | The window step keeps jobs inside the new window and the queue outside it. It leaves the queue and job entries of every coordinate in both squares, or in neither, unchanged |
| Drains.MovedInPlace | src/main/java/de/johni0702/minecraft/bobby/FakeChunkManager.java:141 | With an unchanged window the diff changes nothing: no job is created or cancelled, the queue and the stored window are unchanged |
| Drains.AfterUnloadsClosedForm | src/main/java/de/johni0702/minecraft/bobby/FakeChunkManager.java:184-192 | Unloading distinct coordinates one at a time removes exactly them from the queue and the chunk table. It logs each one's unload with the chunk the table held at the start |
| Drains.AfterCompletionsClosedForm | src/main/java/de/johni0702/minecraft/bobby/FakeChunkManager.java:194-213 | Completing jobs one at a time removes exactly them from the job table. Their found chunks go over the chunk table, a later one winning, and their events are logged in order |
| Drains.ConsultedMeans | src/main/java/de/johni0702/minecraft/bobby/FakeChunkManager.java:189-191 | Of the consultations of `shouldKeepTicking` made, all but the last said "go on", and the drain stopped iff the last said "stop" |
| Drains.KeptMeans | src/main/java/de/johni0702/minecraft/bobby/FakeChunkManager.java:210-212 | The recursive "kept ticking" predicate holds iff every consultation in the range said "go on" |
| Effects.InstalledMeans | src/main/java/de/johni0702/minecraft/bobby/FakeChunkManager.java:376-378 | Completing jobs installs a chunk exactly at the completed coordinates whose outcome found one, and that chunk |
| Effects.UnloadOfAbsentIsQuiet | src/main/java/de/johni0702/minecraft/bobby/FakeChunkManager.java:268-281 | Unloading a coordinate with no fake chunk fires no lighting, render or block-entity event. Only the Sodium listener still hears of it |
| Effects.ReplacedUnloadKeepsBlockEntities | src/main/java/de/johni0702/minecraft/bobby/FakeChunkManager.java:269-281 | `willBeReplaced` skips the render and lighting teardown, but block entities are still unloaded |
| Effects.ListenerComesLast | src/main/java/de/johni0702/minecraft/bobby/FakeChunkManager.java:390-408 | With a Sodium listener, `onChunkRemoved` is the last event of every unload, even one with nothing loaded. `onChunkAdded` follows the three base load events |
| FlushTimer.FlushStepBounded | src/main/java/de/johni0702/minecraft/bobby/FakeChunkManager.java:123-128 | From [0, 1200] the counter stays in [0, 1200]. It flushes exactly when it stood at 1200, and then resets to 0; otherwise it goes up by one |
| FlushTimer.FlushCadence | src/main/java/de/johni0702/minecraft/bobby/FakeChunkManager.java:123-128 | After `n` updates of a fresh manager the counter is `n mod 1201` and `n div 1201` flushes have been dispatched |
| ViewWindow.Square | src/main/java/de/johni0702/minecraft/bobby/FakeChunkManager.java:143-146 | The nested loops visit exactly the chunks within the view distance of the center on both axes |
| ViewWindow.DiffIsSymmetricDifference | src/main/java/de/johni0702/minecraft/bobby/FakeChunkManager.java:143-176 | Leaving and entering chunks are disjoint and together form the symmetric difference of the squares. A chunk in both squares is in neither |
| ViewWindow.SameWindowNoDiff | src/main/java/de/johni0702/minecraft/bobby/FakeChunkManager.java:141 | An unchanged window has nothing leaving and nothing entering |
| ViewWindow.ShiftByFive | src/main/java/de/johni0702/minecraft/bobby/FakeChunkManager.java:143-176 | Moving a radius-2 window five chunks sideways unloads the whole old square and loads the whole new one |
| ViewWindow.FirstUpdateSkipsOrigin | src/main/java/de/johni0702/minecraft/bobby/FakeChunkManager.java:72 | The window fields start at 0, so the stored window is the single chunk (0, 0). A first window containing (0, 0) does not count it as entering, so it gets no job |
| ViewWindow.DiffKeepsSeparation | src/main/java/de/johni0702/minecraft/bobby/FakeChunkManager.java:143-176 | Dropping the leaving jobs, adding jobs only for entering chunks, queueing the leaving chunks and unqueueing the entering ones keeps jobs inside the new window and the queue outside it |
| ChunkStorage.LoadTag | src/main/java/de/johni0702/minecraft/bobby/FakeChunkManager.java:216-234 | The primary's tag, whenever the primary has one. The fallback's tag exactly when the primary has none, a fallback exists and it has one. Nothing on an I/O failure of the primary |
| ChunkStorage.FallbackOnlyAfterAbsent | src/main/java/de/johni0702/minecraft/bobby/FakeChunkManager.java:219-229 | Unless the primary answered "no tag", the fallback makes no difference to the lookup or to the job's outcome |
| ChunkStorage.OutcomeSource | src/main/java/de/johni0702/minecraft/bobby/FakeChunkManager.java:372-373 | A job's chunk was deserialized by the first storage holding a tag for it. A primary I/O failure yields no chunk |
| ChunkStorage.FallbackServesMissingChunk | src/main/java/de/johni0702/minecraft/bobby/FakeChunkManager.java:224-228 | Example: a chunk missing from the primary but readable in the fallback is served from the fallback |
| Session.SessionName | src/main/java/de/johni0702/minecraft/bobby/FakeChunkManager.java:291-307 | The session name, in order of priority: the integrated server's level name; else the server address with every `:` turned into `_` (same length, no colon left, other characters kept); else `realms` when connected to Realms; else `unknown` |
| Session.ServerNameHasNoColon | src/main/java/de/johni0702/minecraft/bobby/FakeChunkManager.java:297-300 | A name taken from the server address has its length, contains no `:`, and keeps every other character of it |
| Session.ReplaceColons | src/main/java/de/johni0702/minecraft/bobby/FakeChunkManager.java:299 | Every `:` becomes `_`; nothing else changes, and the length is kept |
| Session.ReplaceColonsIdempotent | src/main/java/de/johni0702/minecraft/bobby/FakeChunkManager.java:299 | Replacing colons twice is replacing them once |
| Session.ReplaceColonsNoColon | src/main/java/de/johni0702/minecraft/bobby/FakeChunkManager.java:299 | A string without colons is its own replacement |

## Left out

- Thread pool and `volatile` fields. The loading pool and the visibility of
  `cancelled` and `result` across threads are concurrency machinery. A job
  runs as the explicit step `Execute`/`LoadingJob.Run` between two ticks,
  never during one. A job that finishes while a drain is running is not
  modelled.
- Job submission. `loadExecutor.execute(loadingJob)` is represented by the
  job's entry in `loadingJobs`; it is not logged.
- Storage internals. `FakeChunkStorage.loadTag`, `deserialize` and
  `completeAll` are opaque functions of a `Storage` value. The flush is the
  event `FlushDispatched`.
- `deserialize` and the chunk supplier. The supplier it returns is collapsed
  into the chunk it would build.
- Constructor set-up. The storage path, `levelExists`, `createSession` and
  the fallback storage's set-up
  (src/main/java/de/johni0702/minecraft/bobby/FakeChunkManager.java:82-111)
  are file I/O. The storages are constructor parameters.
- `getBiomeSource`. It reloads data packs asynchronously and is foreign code
  (src/main/java/de/johni0702/minecraft/bobby/FakeChunkManager.java:309-349).
- `getDebugString` and `getStorage`. They are diagnostics and accessors only.
- Minecraft calls. Lighting, renders, chunk colours, block entities and the
  profiler `push`/`pop` are foreign calls. All but the profiler are recorded
  as ghost events; each set of per-section calls is recorded as one event.
- Sodium listener. Whether it is present is fixed per manager
  (`Sodium(listenerPresent)`). The source re-reads the listener on each
  call.
- Drain order. The order in which the drains visit `toBeUnloaded` and
  `loadingJobs` is a hash-table iteration order. The model picks an
  arbitrary element at each step and proves its properties for every order.
- Storage contents over time. The primary and fallback storages are fixed
  values for the manager's lifetime (`storage`, `fallbackStorage`), so every
  job at a coordinate computes the same outcome. In the program the primary
  storage is written to and flushed while the manager runs.
- Per-column lighting calls. `LightingEnabled` folds the per-column
  `setColumnEnabled(true)` and `setRetainData(false)` into one event with
  the per-section `setSectionStatus` calls. `RenderAndLightingTornDown`
  folds the per-column `setColumnEnabled(false)` into one event with the
  per-section render and status calls.
- Coordinate packing. `ChunkPos.toLong`, `getPackedX` and `getPackedZ` are
  replaced by the pair `Pos(x, z)`, which assumes the packing is injective.
- FakeChunks.FakeChunkManager.Update: does not model 32-bit `int` overflow.
  The counter and `center ± viewDistance` are mathematical integers, and
  the source does not guard either.
- A real chunk arriving while a job loads is not re-checked on completion, as
  in the source: a completed job's chunk is installed regardless.
