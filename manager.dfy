/**
  The fake chunk manager: the tables it keeps and the per-tick update that
  reconciles them with the player's view window.

  Loading jobs run on a thread pool in the original; here `LoadingJob.Run`
  is a step the environment may take between two calls of the control
  thread. Calls into the world, the lighting engine, the renderer and the
  Sodium listener are appended to the ghost `log`.
 */
module FakeChunks {
  import opened Wrappers
  import opened ViewWindow
  import opened ChunkStorage
  import opened Effects
  import opened FlushTimer
  import opened Drains

  /** One load of one chunk from storage, cancellable by the control thread. */
  class LoadingJob {
    const pos: Pos
    var cancelled: bool
    /** None while loading; Some(None) when no chunk was found; Some(Some(c)) when c was built. */
    var result: Option<Option<Chunk>>

    constructor (pos: Pos)
      ensures this.pos == pos && !cancelled && result == None
    {
      this.pos := pos;
      cancelled := false;
      result := None;
    }

    /** `run`: a cancelled job returns at once; otherwise it stores what the storages yield. */
    method Run(primary: Storage, fallback: Option<Storage>)
      modifies this`result
      ensures cancelled ==> result == old(result)
      ensures !cancelled ==> result == Some(JobOutcome(pos, primary, fallback))
    {
      if cancelled {
        return;
      }
      result := Some(JobOutcome(pos, primary, fallback));
    }
  }

  class FakeChunkManager {
    const storage: Storage
    const fallbackStorage: Option<Storage>
    const backend: Backend

    var ticksSinceLastSave: int
    var fakeChunks: map<Pos, Chunk>
    var centerX: int
    var centerZ: int
    var viewDistance: int
    var toBeUnloaded: set<Pos>
    var loadingJobs: map<Pos, LoadingJob>

    /** The external calls made so far, in order. */
    ghost var log: seq<Event>

    function CurrentWindow(): Window
      reads this`centerX, this`centerZ, this`viewDistance
    {
      Window(centerX, centerZ, viewDistance)
    }

    /** Every job of `jobs` is filed under its own coordinate and is still live. */
    static ghost predicate WellFormedJobs(jobs: map<Pos, LoadingJob>)
      reads jobs.Values`cancelled
    {
      forall p :: p in jobs ==> jobs[p].pos == p && !jobs[p].cancelled
    }

    /** Every job in the table is filed under its own coordinate and is still live. */
    ghost predicate JobsWellFormed()
      reads this`loadingJobs, loadingJobs.Values`cancelled
    {
      WellFormedJobs(loadingJobs)
    }

    /**
      The manager's invariant: the flush counter is in range, jobs exist only
      inside the stored window, and the unload queue lies wholly outside it.
     */
    ghost predicate Valid()
      reads this`ticksSinceLastSave, this`centerX, this`centerZ, this`viewDistance
      reads this`toBeUnloaded, this`loadingJobs, loadingJobs.Values`cancelled
    {
      && 0 <= ticksSinceLastSave <= FlushThreshold
      && JobsWellFormed()
      && Separated(CurrentWindow(), loadingJobs.Keys, toBeUnloaded)
    }

    /** The outcomes of the jobs in `jobs` that have finished. */
    static ghost function FinishedOf(jobs: map<Pos, LoadingJob>): map<Pos, Option<Chunk>>
      reads jobs.Values`result
    {
      map p | p in jobs && jobs[p].result.Some? :: jobs[p].result.value
    }

    /** The outcomes of the jobs in the table that have finished. */
    ghost function Finished(): map<Pos, Option<Chunk>>
      reads this`loadingJobs, loadingJobs.Values`result
    {
      FinishedOf(loadingJobs)
    }

    /** Dropping jobs keeps the rest well formed. */
    static lemma WellFormedMinus(jobs: map<Pos, LoadingJob>, s: set<Pos>)
      requires WellFormedJobs(jobs)
      ensures WellFormedJobs(jobs - s)
    {
    }

    /** Dropping jobs drops their outcomes. */
    static lemma FinishedOfMinus(jobs: map<Pos, LoadingJob>, s: set<Pos>)
      ensures FinishedOf(jobs - s) == FinishedOf(jobs) - s
    {
    }

    /** Adding jobs that have not finished adds no outcome. */
    static lemma FinishedOfExtend(small: map<Pos, LoadingJob>, big: map<Pos, LoadingJob>)
      requires forall p :: p in small ==> p in big && big[p] == small[p]
      requires forall p :: p in big && p !in small ==> big[p].result.None?
      ensures FinishedOf(big) == FinishedOf(small)
    {
    }

    /** The storage set-up of the constructor is left out; the fields start at Java's defaults. */
    constructor (storage: Storage, fallbackStorage: Option<Storage>, backend: Backend)
      ensures Valid()
      ensures this.storage == storage && this.fallbackStorage == fallbackStorage && this.backend == backend
      ensures ticksSinceLastSave == 0 && CurrentWindow() == InitialWindow
      ensures fakeChunks == map[] && loadingJobs == map[] && toBeUnloaded == {} && log == []
    {
      this.storage := storage;
      this.fallbackStorage := fallbackStorage;
      this.backend := backend;
      ticksSinceLastSave := 0;
      fakeChunks := map[];
      centerX, centerZ, viewDistance := 0, 0, 0;
      toBeUnloaded := {};
      loadingJobs := map[];
      log := [];
    }

    /** `getChunk`: the fake chunk at `p`, if one is loaded. */
    function GetChunk(p: Pos): (r: Option<Chunk>)
      reads this
      ensures r.Some? <==> p in fakeChunks
      ensures r.Some? ==> r.value == fakeChunks[p]
    {
      Get(fakeChunks, p)
    }

    /** `load(x, z, chunk)`, with the Sodium hook after the base bookkeeping. */
    method Load(p: Pos, chunk: Chunk)
      modifies this`fakeChunks, this`log
      ensures old(Valid()) ==> Valid()
      ensures fakeChunks == old(fakeChunks)[p := chunk]
      ensures GetChunk(p) == Some(chunk)
      ensures forall q :: q != p ==> GetChunk(q) == old(GetChunk(q))
      ensures log == old(log) + LoadEvents(p, chunk, backend)
    {
      fakeChunks := fakeChunks[p := chunk];
      log := log + [LightingEnabled(p, chunk.emptySections)];
      log := log + [ChunkColorReset(p)];
      log := log + [BlockRendersScheduled(p)];
      if backend.Sodium? && backend.listenerPresent {
        log := log + [ListenerChunkAdded(p)];
      }
    }

    /** `load(x, z, tag, storage)`: nothing happens when `deserialize` refuses the tag. */
    method LoadRecord(p: Pos, tag: Tag, from: Storage)
      modifies this`fakeChunks, this`log
      ensures old(Valid()) ==> Valid()
      ensures from.deserialize(p, tag).None? ==> fakeChunks == old(fakeChunks) && log == old(log)
      ensures from.deserialize(p, tag).Some? ==>
        && fakeChunks == old(fakeChunks)[p := from.deserialize(p, tag).value]
        && log == old(log) + LoadEvents(p, from.deserialize(p, tag).value, backend)
    {
      var built := from.deserialize(p, tag);
      if built.None? {
        return;
      }
      Load(p, built.value);
    }

    /** `cancelLoad`: the job at `p`, if any, leaves the table and is marked cancelled. */
    method CancelLoad(p: Pos)
      modifies (if p in loadingJobs then {this} else {})`loadingJobs
      modifies (if p in loadingJobs then {loadingJobs[p]} else {})`cancelled
      ensures old(Valid()) ==> Valid()
      ensures loadingJobs == old(loadingJobs) - {p}
      ensures p in old(loadingJobs) ==> old(loadingJobs)[p].cancelled
    {
      if p in loadingJobs {
        var job := loadingJobs[p];
        loadingJobs := loadingJobs - {p};
        job.cancelled := true;
      }
    }

    /**
      `unload(x, z, willBeReplaced)` with the Sodium hook: the coordinate
      leaves both tables; the teardown calls happen only for a chunk that was
      there, and a chunk about to be replaced keeps its renders and lighting.
     */
    method Unload(p: Pos, willBeReplaced: bool)
      modifies this`fakeChunks, this`log, (if p in loadingJobs then {this} else {})`loadingJobs
      modifies (if p in loadingJobs then {loadingJobs[p]} else {})`cancelled
      ensures old(Valid()) ==> Valid()
      ensures loadingJobs == old(loadingJobs) - {p}
      ensures p in old(loadingJobs) ==> old(loadingJobs)[p].cancelled
      ensures fakeChunks == old(fakeChunks) - {p}
      ensures GetChunk(p) == None
      ensures log == old(log) + UnloadEvents(p, Get(old(fakeChunks), p), willBeReplaced, backend)
    {
      CancelLoad(p);
      RemoveChunk(p, willBeReplaced);
    }

    /** The part of `unload` after `cancelLoad`: the chunk leaves the table and its teardown is logged. */
    method RemoveChunk(p: Pos, willBeReplaced: bool)
      modifies this`fakeChunks, this`log
      ensures fakeChunks == old(fakeChunks) - {p}
      ensures log == old(log) + UnloadEvents(p, Get(old(fakeChunks), p), willBeReplaced, backend)
    {
      var chunk := Get(fakeChunks, p);
      fakeChunks := fakeChunks - {p};
      if chunk.Some? && !willBeReplaced {
        log := log + [RenderAndLightingTornDown(p)];
      }
      if chunk.Some? {
        log := log + [BlockEntitiesUnloaded(chunk.value)];
      }
      if backend.Sodium? && backend.listenerPresent {
        log := log + [ListenerChunkRemoved(p)];
      }
    }

    /** `LoadingJob.complete`: a found chunk is loaded; an empty result changes nothing. */
    method CompleteJob(job: LoadingJob)
      requires job.result.Some?
      modifies this`fakeChunks, this`log
      ensures job.result.value.None? ==> fakeChunks == old(fakeChunks)
      ensures job.result.value.Some? ==> fakeChunks == old(fakeChunks)[job.pos := job.result.value.value]
      ensures log == old(log) + CompletionEvents(job.pos, job.result.value, backend)
    {
      if job.result.value.Some? {
        Load(job.pos, job.result.value.value);
      }
    }

    /** The load executor running a job: it touches only the job's result, so the invariant survives. */
    method Execute(job: LoadingJob)
      requires Valid()
      modifies job`result
      ensures Valid()
      ensures job.cancelled ==> job.result == old(job.result)
      ensures !job.cancelled ==> job.result == Some(JobOutcome(job.pos, storage, fallbackStorage))
    {
      job.Run(storage, fallbackStorage);
    }

    /** The jobs of `jobs` that are cancelled are exactly those at `s`. */
    static ghost predicate CancelledExactly(jobs: map<Pos, LoadingJob>, s: set<Pos>)
      reads jobs.Values`cancelled
    {
      forall p :: p in jobs ==> (jobs[p].cancelled <==> p in s)
    }

    /**
      One cell of the first loop pair that lies outside the new window, with
      the table at the start of the loops and the cells `done` before it.
     */
    method CancelCell(p: Pos, ghost jobs: map<Pos, LoadingJob>, ghost done: set<Pos>)
      requires p !in done && forall q :: q in jobs ==> jobs[q].pos == q
      requires loadingJobs == jobs - done && CancelledExactly(jobs, done)
      modifies this`loadingJobs, this`toBeUnloaded, (if p in jobs then {jobs[p]} else {})`cancelled
      ensures loadingJobs == jobs - (done + {p}) && CancelledExactly(jobs, done + {p})
      ensures toBeUnloaded == old(toBeUnloaded) + {p}
    {
      CancelLoad(p);
      toBeUnloaded := toBeUnloaded + {p};
    }

    /**
      The first loop pair of `update`: every chunk of the old square outside
      the new one loses its job and is queued for unload.
     */
    method CancelLeaving(oldW: Window, newW: Window)
      requires JobsWellFormed()
      modifies this`loadingJobs, this`toBeUnloaded, loadingJobs.Values`cancelled
      ensures loadingJobs == old(loadingJobs) - Leaving(oldW, newW)
      ensures toBeUnloaded == old(toBeUnloaded) + Leaving(oldW, newW)
      ensures forall p :: p in old(loadingJobs) ==> (old(loadingJobs)[p].cancelled <==> p in Leaving(oldW, newW))
      ensures Finished() == old(Finished()) - Leaving(oldW, newW)
      ensures JobsWellFormed()
    {
      ghost var leaving := Leaving(oldW, newW);
      ghost var jobs, queued := loadingJobs, toBeUnloaded;
      var x := oldW.centerX - oldW.viewDistance;
      SweptStart(leaving, x, oldW.centerZ - oldW.viewDistance);
      while x <= oldW.centerX + oldW.viewDistance
        invariant oldW.centerX - oldW.viewDistance <= x
        invariant loadingJobs == jobs - Swept(leaving, x, oldW.centerZ - oldW.viewDistance)
        invariant toBeUnloaded == queued + Swept(leaving, x, oldW.centerZ - oldW.viewDistance)
        invariant CancelledExactly(jobs, Swept(leaving, x, oldW.centerZ - oldW.viewDistance))
      {
        CancelRow(oldW, newW, x, jobs, queued);
        x := x + 1;
      }
      SweptAll(leaving, x, oldW.centerZ - oldW.viewDistance);
      FinishedOfMinus(jobs, leaving);
    }

    /** Row `x` of the first loop pair, with the table and the queue as they were before the loops. */
    method CancelRow(oldW: Window, newW: Window, x: int, ghost jobs: map<Pos, LoadingJob>, ghost queued: set<Pos>)
      requires oldW.centerX - oldW.viewDistance <= x <= oldW.centerX + oldW.viewDistance
      requires forall q :: q in jobs ==> jobs[q].pos == q
      requires loadingJobs == jobs - Swept(Leaving(oldW, newW), x, oldW.centerZ - oldW.viewDistance)
      requires toBeUnloaded == queued + Swept(Leaving(oldW, newW), x, oldW.centerZ - oldW.viewDistance)
      requires CancelledExactly(jobs, Swept(Leaving(oldW, newW), x, oldW.centerZ - oldW.viewDistance))
      modifies this`loadingJobs, this`toBeUnloaded, jobs.Values`cancelled
      ensures loadingJobs == jobs - Swept(Leaving(oldW, newW), x + 1, oldW.centerZ - oldW.viewDistance)
      ensures toBeUnloaded == queued + Swept(Leaving(oldW, newW), x + 1, oldW.centerZ - oldW.viewDistance)
      ensures CancelledExactly(jobs, Swept(Leaving(oldW, newW), x + 1, oldW.centerZ - oldW.viewDistance))
    {
      ghost var leaving := Leaving(oldW, newW);
      var xOutsideNew := x < newW.centerX - newW.viewDistance || x > newW.centerX + newW.viewDistance;
      var z := oldW.centerZ - oldW.viewDistance;
      while z <= oldW.centerZ + oldW.viewDistance
        invariant oldW.centerZ - oldW.viewDistance <= z <= oldW.centerZ + oldW.viewDistance + 1
        invariant loadingJobs == jobs - Swept(leaving, x, z)
        invariant toBeUnloaded == queued + Swept(leaving, x, z)
        invariant CancelledExactly(jobs, Swept(leaving, x, z))
      {
        var zOutsideNew := z < newW.centerZ - newW.viewDistance || z > newW.centerZ + newW.viewDistance;
        SweptStep(leaving, x, z);
        SweptMinusStep(jobs, leaving, x, z);
        SweptPlusStep(queued, leaving, x, z);
        if xOutsideNew || zOutsideNew {
          var p := Pos(x, z);
          assert p in leaving;
          CancelCell(p, jobs, Swept(leaving, x, z));
        } else {
          assert Pos(x, z) !in leaving;
        }
        z := z + 1;
      }
      SweptRowEnd(leaving, x, oldW.centerZ - oldW.viewDistance, z);
    }

    /**
      The second loop pair of `update`: every chunk of the new square outside
      the old one leaves the unload queue and, unless a real chunk is there,
      gets one new job.
     */
    method ScheduleEntering(oldW: Window, newW: Window, realChunks: set<Pos>)
      requires forall p :: p in loadingJobs ==> p !in Entering(oldW, newW)
      modifies this`loadingJobs, this`toBeUnloaded
      ensures toBeUnloaded == old(toBeUnloaded) - Entering(oldW, newW)
      ensures loadingJobs.Keys == old(loadingJobs).Keys + (Entering(oldW, newW) - realChunks)
      ensures forall p :: p in old(loadingJobs) ==> loadingJobs[p] == old(loadingJobs)[p]
      ensures forall p :: p in Entering(oldW, newW) - realChunks ==>
        fresh(loadingJobs[p]) && loadingJobs[p].pos == p && !loadingJobs[p].cancelled && loadingJobs[p].result.None?
      ensures Finished() == old(Finished())
      ensures old(JobsWellFormed()) ==> JobsWellFormed()
    {
      ghost var entering := Entering(oldW, newW);
      ghost var jobs, queued := loadingJobs, toBeUnloaded;
      var x := newW.centerX - newW.viewDistance;
      SweptStart(entering, x, newW.centerZ - newW.viewDistance);
      while x <= newW.centerX + newW.viewDistance
        invariant newW.centerX - newW.viewDistance <= x
        invariant toBeUnloaded == queued - Swept(entering, x, newW.centerZ - newW.viewDistance)
        invariant loadingJobs.Keys == jobs.Keys + (Swept(entering, x, newW.centerZ - newW.viewDistance) - realChunks)
        invariant forall p :: p in jobs ==> loadingJobs[p] == jobs[p]
        invariant forall p :: p in loadingJobs && p !in jobs ==>
          fresh(loadingJobs[p]) && loadingJobs[p].pos == p && !loadingJobs[p].cancelled && loadingJobs[p].result.None?
      {
        ScheduleRow(oldW, newW, realChunks, x, jobs, queued);
        x := x + 1;
      }
      SweptAll(entering, x, newW.centerZ - newW.viewDistance);
      FinishedOfExtend(jobs, loadingJobs);
    }

    /** Row `x` of the second loop pair, with the table and the queue as they were before the loops. */
    method ScheduleRow(oldW: Window, newW: Window, realChunks: set<Pos>, x: int,
                       ghost jobs: map<Pos, LoadingJob>, ghost queued: set<Pos>)
      requires newW.centerX - newW.viewDistance <= x <= newW.centerX + newW.viewDistance
      requires forall p :: p in jobs ==> p !in Entering(oldW, newW)
      requires toBeUnloaded == queued - Swept(Entering(oldW, newW), x, newW.centerZ - newW.viewDistance)
      requires loadingJobs.Keys == jobs.Keys + (Swept(Entering(oldW, newW), x, newW.centerZ - newW.viewDistance) - realChunks)
      requires forall p :: p in jobs ==> loadingJobs[p] == jobs[p]
      modifies this`loadingJobs, this`toBeUnloaded
      ensures toBeUnloaded == queued - Swept(Entering(oldW, newW), x + 1, newW.centerZ - newW.viewDistance)
      ensures loadingJobs.Keys == jobs.Keys + (Swept(Entering(oldW, newW), x + 1, newW.centerZ - newW.viewDistance) - realChunks)
      ensures forall p :: p in old(loadingJobs) ==> loadingJobs[p] == old(loadingJobs)[p]
      ensures forall p :: p in loadingJobs && p !in old(loadingJobs) ==>
        fresh(loadingJobs[p]) && loadingJobs[p].pos == p && !loadingJobs[p].cancelled && loadingJobs[p].result.None?
    {
      ghost var entering := Entering(oldW, newW);
      var xOutsideOld := x < oldW.centerX - oldW.viewDistance || x > oldW.centerX + oldW.viewDistance;
      var z := newW.centerZ - newW.viewDistance;
      while z <= newW.centerZ + newW.viewDistance
        invariant newW.centerZ - newW.viewDistance <= z <= newW.centerZ + newW.viewDistance + 1
        invariant toBeUnloaded == queued - Swept(entering, x, z)
        invariant loadingJobs.Keys == jobs.Keys + (Swept(entering, x, z) - realChunks)
        invariant forall p :: p in old(loadingJobs) ==> loadingJobs[p] == old(loadingJobs)[p]
        invariant forall p :: p in loadingJobs && p !in old(loadingJobs) ==>
          fresh(loadingJobs[p]) && loadingJobs[p].pos == p && !loadingJobs[p].cancelled && loadingJobs[p].result.None?
      {
        var zOutsideOld := z < oldW.centerZ - oldW.viewDistance || z > oldW.centerZ + oldW.viewDistance;
        SweptStep(entering, x, z);
        if xOutsideOld || zOutsideOld {
          var p := Pos(x, z);
          assert p in entering;
          ScheduleCell(p, realChunks);
        } else {
          assert Pos(x, z) !in entering;
        }
        z := z + 1;
      }
      SweptRowEnd(entering, x, newW.centerZ - newW.viewDistance, z);
    }

    /**
      One cell of the second loop pair that lies outside the old window: it
      leaves the unload queue and, unless a real chunk is there, gets a new job.
     */
    method ScheduleCell(p: Pos, realChunks: set<Pos>)
      modifies this`loadingJobs, this`toBeUnloaded
      ensures toBeUnloaded == old(toBeUnloaded) - {p}
      ensures p in realChunks ==> loadingJobs == old(loadingJobs)
      ensures p !in realChunks ==>
        && p in loadingJobs && loadingJobs == old(loadingJobs)[p := loadingJobs[p]]
        && fresh(loadingJobs[p]) && loadingJobs[p].pos == p && !loadingJobs[p].cancelled && loadingJobs[p].result.None?
    {
      toBeUnloaded := toBeUnloaded - {p};
      if p !in realChunks {
        var job := new LoadingJob(p);
        loadingJobs := loadingJobs[p := job];
      }
    }

    /** `shouldKeepTicking.getAsBoolean()` once more, after a "go on". */
    static method Consult(keep: nat -> bool, asked: nat, used: nat) returns (next: nat, stop: bool)
      requires asked <= used && Consulted(keep, asked, used, false)
      ensures next == used + 1 && stop == !KeepTicking(keep, used)
      ensures Consulted(keep, asked, next, stop)
    {
      next, stop := used + 1, !KeepTicking(keep, used);
    }

    /** The part of the state the unload drain changes. */
    ghost function UnloadView(): UnloadState
      reads this`toBeUnloaded, this`fakeChunks, this`log
    {
      UnloadState(toBeUnloaded, fakeChunks, log)
    }

    /** The part of the state the job drain changes. */
    ghost function JobView(): JobState<LoadingJob>
      reads this`loadingJobs, this`fakeChunks, this`log
    {
      JobState(loadingJobs, fakeChunks, log)
    }

    /**
      The unload drain of `update`: queued coordinates are taken out of the
      queue and unloaded one at a time; after each, `keep` is asked whether
      to go on. `order` is the coordinates handled, `used` how many answers
      of `keep` have been consumed in this tick.
     */
    method DrainUnloads(keep: nat -> bool, asked: nat) returns (used: nat, stopped: bool, ghost order: seq<Pos>)
      requires Valid()
      modifies this`toBeUnloaded, this`fakeChunks, this`log
      ensures Valid()
      ensures Snapshot() == UnloadsDone(old(Snapshot()), order, backend)
      ensures Distinct(order) && Elems(order) <= old(toBeUnloaded)
      ensures used == asked + |order|
      ensures Consulted(keep, asked, used, stopped)
      ensures !stopped ==> toBeUnloaded == {}
    {
      SeparatedDisjoint(CurrentWindow(), loadingJobs.Keys, toBeUnloaded);
      ghost var start := UnloadView();
      used, stopped, order := UnloadQueued(keep, asked, start);
      AfterUnloadsClosedForm(start, order, backend);
      SeparatedSubsets(CurrentWindow(), loadingJobs.Keys, start.queue, loadingJobs.Keys, toBeUnloaded);
    }

    /** The loop of the unload drain, from the queue, chunk table and log of `start`. */
    method UnloadQueued(keep: nat -> bool, asked: nat, ghost start: UnloadState)
        returns (used: nat, stopped: bool, ghost order: seq<Pos>)
      requires start == UnloadView() && toBeUnloaded !! loadingJobs.Keys
      modifies this`toBeUnloaded, this`fakeChunks, this`log
      ensures UnloadView() == AfterUnloads(start, order, backend)
      ensures Distinct(order) && Elems(order) <= start.queue
      ensures used == asked + |order|
      ensures Consulted(keep, asked, used, stopped)
      ensures !stopped ==> toBeUnloaded == {}
    {
      used, order := asked, [];
      stopped := false;
      while toBeUnloaded != {} && !stopped
        invariant loadingJobs == old(loadingJobs) && toBeUnloaded !! loadingJobs.Keys
        invariant UnloadView() == AfterUnloads(start, order, backend)
        invariant Distinct(order) && Elems(order) <= start.queue
        invariant used == asked + |order|
        invariant Consulted(keep, asked, used, stopped)
        decreases toBeUnloaded
      {
        var p :| p in toBeUnloaded;
        UnloadNext(p, start, order);
        order := order + [p];
        used, stopped := Consult(keep, asked, used);
      }
    }

    /** One round of the unload drain: `p` leaves the queue and is unloaded. */
    method UnloadNext(p: Pos, ghost start: UnloadState, ghost order: seq<Pos>)
      requires p in toBeUnloaded && toBeUnloaded !! loadingJobs.Keys
      requires Distinct(order) && Elems(order) <= start.queue
      requires UnloadView() == AfterUnloads(start, order, backend)
      modifies this`toBeUnloaded, this`fakeChunks, this`log
      ensures loadingJobs == old(loadingJobs) && toBeUnloaded == old(toBeUnloaded) - {p}
      ensures Distinct(order + [p]) && Elems(order + [p]) <= start.queue
      ensures UnloadView() == AfterUnloads(start, order + [p], backend)
    {
      UnloadRound(start, order, p, backend);
      toBeUnloaded := toBeUnloaded - {p};
      Unload(p, false);
    }

    /**
      The job drain of `update`: unfinished jobs stay; each finished job is
      taken out of the table and completed, and after each completion `keep`
      is asked whether to go on. `order` is the coordinates completed.
     */
    method DrainJobs(keep: nat -> bool, asked: nat) returns (used: nat, stopped: bool, ghost order: seq<Pos>)
      requires Valid()
      modifies this`loadingJobs, this`fakeChunks, this`log
      ensures Valid()
      ensures loadingJobs == old(loadingJobs) - Elems(order)
      ensures Snapshot() == JobsDone(old(Snapshot()), order, backend)
      ensures Distinct(order) && Elems(order) <= old(Finished()).Keys
      ensures used == asked + |order|
      ensures Consulted(keep, asked, used, stopped)
      ensures !stopped ==> Elems(order) == old(Finished()).Keys
    {
      ghost var start, finished := JobView(), Finished();
      OutcomesOfFinished(loadingJobs);
      used, stopped, order := CompleteFinished(keep, asked, start, finished);
      AfterCompletionsClosedForm(start, order, finished, backend);
      FinishedOfMinus(start.jobs, Elems(order));
      WellFormedMinus(start.jobs, Elems(order));
      SeparatedSubsets(CurrentWindow(), start.jobs.Keys, toBeUnloaded, loadingJobs.Keys, toBeUnloaded);
    }

    /** `finished` holds exactly the outcomes of the jobs of `jobs` that have finished. */
    static ghost predicate HasOutcomes(jobs: map<Pos, LoadingJob>, finished: map<Pos, Option<Chunk>>)
      reads jobs.Values`result
    {
      && finished.Keys <= jobs.Keys
      && forall q :: q in jobs ==> if q in finished then jobs[q].result == Some(finished[q]) else jobs[q].result.None?
    }

    static lemma OutcomesOfFinished(jobs: map<Pos, LoadingJob>)
      ensures HasOutcomes(jobs, FinishedOf(jobs))
    {
    }

    /** The loop of the job drain, over the jobs of `start` with the outcomes `finished`. */
    method CompleteFinished(keep: nat -> bool, asked: nat, ghost start: JobState<LoadingJob>,
                            ghost finished: map<Pos, Option<Chunk>>)
        returns (used: nat, stopped: bool, ghost order: seq<Pos>)
      requires start == JobView() && HasOutcomes(loadingJobs, finished)
      requires forall q :: q in loadingJobs ==> loadingJobs[q].pos == q
      modifies this`loadingJobs, this`fakeChunks, this`log
      ensures JobView() == AfterCompletions(start, order, finished, backend)
      ensures Distinct(order) && Elems(order) <= finished.Keys
      ensures used == asked + |order|
      ensures Consulted(keep, asked, used, stopped)
      ensures !stopped ==> Elems(order) == finished.Keys
    {
      var pending := loadingJobs.Keys;
      used, order := asked, [];
      stopped := false;
      while pending != {} && !stopped
        invariant forall q :: q in pending ==> q in loadingJobs && loadingJobs[q] == start.jobs[q]
        invariant Elems(order) !! pending && finished.Keys - pending <= Elems(order)
        invariant JobView() == AfterCompletions(start, order, finished, backend)
        invariant Distinct(order) && Elems(order) <= finished.Keys
        invariant used == asked + |order|
        invariant Consulted(keep, asked, used, stopped)
        decreases pending
      {
        var p :| p in pending;
        pending := pending - {p};
        var job := loadingJobs[p];
        assert job.result == old(job.result) && job.pos == p;
        if job.result.None? {
          continue;
        }
        ElemsSnoc(order, p);
        TakeFinished(job, start, finished, order);
        order := order + [p];
        used, stopped := Consult(keep, asked, used);
      }
    }

    /** One finished job of the job drain: it leaves the table and is completed. */
    method TakeFinished(job: LoadingJob, ghost start: JobState<LoadingJob>, ghost finished: map<Pos, Option<Chunk>>,
                        ghost order: seq<Pos>)
      requires job.pos in finished && job.result == Some(finished[job.pos])
      requires JobView() == AfterCompletions(start, order, finished, backend)
      modifies this`loadingJobs, this`fakeChunks, this`log
      ensures JobView() == AfterCompletions(start, order + [job.pos], finished, backend)
    {
      AfterCompletionsSnoc(start, order, finished, job.pos, backend);
      loadingJobs := loadingJobs - {job.pos};
      CompleteJob(job);
    }

    /**
      The window part of `update`: the two loop pairs against the stored
      window, then the new window is stored. Jobs of chunks leaving the
      window are cancelled and dropped, so what stays finished is what had
      finished inside the new window.
     */
    method MoveWindow(newW: Window, realChunks: set<Pos>)
      requires Valid()
      modifies this`loadingJobs, this`toBeUnloaded, this`centerX, this`centerZ, this`viewDistance
      modifies loadingJobs.Values`cancelled
      ensures Valid()
      ensures Snapshot() == Moved(old(Snapshot()), newW, realChunks)
      ensures forall p :: p in old(loadingJobs) ==> (old(loadingJobs)[p].cancelled <==> p in Leaving(old(CurrentWindow()), newW))
      ensures forall p :: p in old(loadingJobs) && p !in Leaving(old(CurrentWindow()), newW) ==>
        p in loadingJobs && loadingJobs[p] == old(loadingJobs)[p]
      ensures forall p :: p in loadingJobs && p !in old(loadingJobs) ==> fresh(loadingJobs[p])
    {
      var oldW := CurrentWindow();
      CancelLeaving(oldW, newW);
      ScheduleEntering(oldW, newW, realChunks);
      DiffKeepsSeparation(oldW, newW, old(loadingJobs).Keys, old(toBeUnloaded), Entering(oldW, newW) - realChunks);
      assert Finished() == old(Finished()) - Leaving(oldW, newW);
      assert Snapshot() == Moved(old(Snapshot()), newW, realChunks).(window := oldW);
      StoreWindow(newW);
    }

    /** The new window is stored once both loop pairs are done. */
    method StoreWindow(w: Window)
      modifies this`centerX, this`centerZ, this`viewDistance
      ensures Snapshot() == old(Snapshot()).(window := w)
    {
      centerX, centerZ, viewDistance := w.centerX, w.centerZ, w.viewDistance;
    }

    /**
      The two drains at the end of `update`, one after the other; the job
      drain goes on consulting `keep` where the unload drain left off.
     */
    method Drain(keep: nat -> bool) returns (ghost unloaded: seq<Pos>, ghost completed: seq<Pos>)
      requires Valid()
      modifies this`toBeUnloaded, this`fakeChunks, this`log, this`loadingJobs
      ensures Valid()
      ensures loadingJobs == old(loadingJobs) - Elems(completed)
      ensures Drained(old(Snapshot()), Snapshot(), keep, backend, unloaded, completed)
    {
      ghost var before := Snapshot();
      var asked, unloadStopped, order := DrainUnloads(keep, 0);
      unloaded := order;
      ghost var mid := Snapshot();
      var used, jobStopped;
      used, jobStopped, order := DrainJobs(keep, asked);
      completed := order;
      DrainsCompose(before, mid, Snapshot(), keep, backend, unloaded, completed, unloadStopped, used, jobStopped);
    }

    /** The tables one tick reads and changes, and the outcomes of the finished jobs. */
    ghost function Snapshot(): Tables
      reads this`centerX, this`centerZ, this`viewDistance, this`toBeUnloaded, this`fakeChunks, this`log
      reads this`loadingJobs, loadingJobs.Values`result
    {
      Tables(CurrentWindow(), toBeUnloaded, loadingJobs.Keys, fakeChunks, log, Finished())
    }

    /**
      The part of `update` after the flush counter, when there is a player:
      the window moves to `newW`, then the two drains run. `unloaded` and
      `completed` are the coordinates the two drains handled, in order.
     */
    method Reconcile(newW: Window, realChunks: set<Pos>, keep: nat -> bool)
        returns (ghost unloaded: seq<Pos>, ghost completed: seq<Pos>)
      requires Valid()
      modifies this`loadingJobs, this`toBeUnloaded, this`centerX, this`centerZ, this`viewDistance
      modifies this`fakeChunks, this`log, loadingJobs.Values`cancelled
      ensures Valid()
      ensures forall p :: p in old(loadingJobs) ==> (old(loadingJobs)[p].cancelled <==> p in Leaving(old(CurrentWindow()), newW))
      ensures Drained(Moved(old(Snapshot()), newW, realChunks), Snapshot(), keep, backend, unloaded, completed)
      ensures forall p :: p in old(loadingJobs) && p in loadingJobs ==> loadingJobs[p] == old(loadingJobs)[p]
      ensures forall p :: p in loadingJobs && p !in old(loadingJobs) ==> fresh(loadingJobs[p])
    {
      if CurrentWindow() != newW {
        MoveWindow(newW, realChunks);
      } else {
        MovedInPlace(Snapshot(), realChunks);
      }
      unloaded, completed := Drain(keep);
    }

    /** The flush counter step at the start of `update`. */
    method Tick()
      requires 0 <= ticksSinceLastSave <= FlushThreshold
      modifies this`ticksSinceLastSave, this`log
      ensures ticksSinceLastSave == FlushStep(old(ticksSinceLastSave)).counter
      ensures 0 <= ticksSinceLastSave <= FlushThreshold
      ensures log == old(log) + FlushEvents(FlushStep(old(ticksSinceLastSave)).flush)
    {
      FlushStepBounded(ticksSinceLastSave);
      ticksSinceLastSave := ticksSinceLastSave + 1;
      if ticksSinceLastSave > FlushThreshold {
        log := log + [FlushDispatched];
        ticksSinceLastSave := 0;
      }
    }

    /**
      `update(shouldKeepTicking)`. `view` is the player's chunk and the view
      distance from the client options, None when there is no player;
      `realChunks` the chunks the client world really holds; `keep` the
      answers `shouldKeepTicking` gives, in order. `unloaded` and `completed`
      are the coordinates the two drains handled, in order.
     */
    method Update(view: Option<Window>, realChunks: set<Pos>, keep: nat -> bool)
        returns (ghost unloaded: seq<Pos>, ghost completed: seq<Pos>)
      requires Valid()
      modifies this, loadingJobs.Values`cancelled
      ensures Valid()
      ensures ticksSinceLastSave == FlushStep(old(ticksSinceLastSave)).counter
      ensures view.None? ==>
        && CurrentWindow() == old(CurrentWindow()) && fakeChunks == old(fakeChunks)
        && toBeUnloaded == old(toBeUnloaded) && loadingJobs == old(loadingJobs)
        && log == old(log) + FlushEvents(FlushStep(old(ticksSinceLastSave)).flush)
        && unloaded == [] && completed == []
      ensures view.Some? ==>
        && (forall p :: p in old(loadingJobs) ==> (old(loadingJobs)[p].cancelled <==> p in Leaving(old(CurrentWindow()), view.value)))
        && Drained(Moved(old(Snapshot()).(log := old(log) + FlushEvents(FlushStep(old(ticksSinceLastSave)).flush)),
                         view.value, realChunks),
                   Snapshot(), keep, backend, unloaded, completed)
      ensures forall p :: p in old(loadingJobs) && p in loadingJobs ==> loadingJobs[p] == old(loadingJobs)[p]
      ensures forall p :: p in loadingJobs && p !in old(loadingJobs) ==> fresh(loadingJobs[p])
    {
      Tick();
      if view.None? {
        return [], [];
      }
      unloaded, completed := Reconcile(view.value, realChunks, keep);
    }
  }
}

