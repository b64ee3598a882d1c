/**
  The calls the manager makes into code outside it (lighting, block renders,
  chunk colours, block entities, the Sodium chunk listener, the I/O executor),
  recorded as events, and the event lists each manager operation produces.
 */
module Effects {
  import opened Wrappers
  import opened ViewWindow
  import opened ChunkStorage

  /**
    The rendering backend. With Sodium the manager additionally tells Sodium's
    chunk status listener, when it has one, about every load and unload.
   */
  datatype Backend = Vanilla | Sodium(listenerPresent: bool)

  datatype Event =
      /** `storage.completeAll` handed to the I/O worker executor. */
    | FlushDispatched
      /** The per-column `setColumnEnabled(true)` and `setRetainData(false)`, and one `setSectionStatus` per section. */
    | LightingEnabled(pos: Pos, emptySections: seq<bool>)
      /** `world.resetChunkColor`. */
    | ChunkColorReset(pos: Pos)
      /** `world.scheduleBlockRenders` for each of the column's 16 sections. */
    | BlockRendersScheduled(pos: Pos)
      /** On unload: for each of the 16 sections a block render and `setSectionStatus(empty)`, then the per-column `setColumnEnabled(false)`. */
    | RenderAndLightingTornDown(pos: Pos)
      /** `world.unloadBlockEntities` for the removed chunk. */
    | BlockEntitiesUnloaded(chunk: Chunk)
      /** Sodium's `onChunkAdded`. */
    | ListenerChunkAdded(pos: Pos)
      /** Sodium's `onChunkRemoved`. */
    | ListenerChunkRemoved(pos: Pos)

  /** Events that touch the world, its lighting or its renders (everything but the listener and flushes). */
  predicate TouchesWorld(e: Event)
  {
    e.LightingEnabled? || e.ChunkColorReset? || e.BlockRendersScheduled?
    || e.RenderAndLightingTornDown? || e.BlockEntitiesUnloaded?
  }

  /** The listener notification the Sodium variant sends after the base bookkeeping. */
  function ListenerEvent(backend: Backend, e: Event): seq<Event>
  {
    if backend.Sodium? && backend.listenerPresent then [e] else []
  }

  /** What `load(x, z, chunk)` tells the world about the chunk it has just put. */
  function LoadEvents(p: Pos, c: Chunk, backend: Backend): seq<Event>
  {
    [LightingEnabled(p, c.emptySections), ChunkColorReset(p), BlockRendersScheduled(p)]
    + ListenerEvent(backend, ListenerChunkAdded(p))
  }

  /** What `unload(x, z, willBeReplaced)` fires, given the fake chunk it removed, if any. */
  function UnloadEvents(p: Pos, removed: Option<Chunk>, willBeReplaced: bool, backend: Backend): seq<Event>
  {
    (if removed.Some? && !willBeReplaced then [RenderAndLightingTornDown(p)] else [])
    + (if removed.Some? then [BlockEntitiesUnloaded(removed.value)] else [])
    + ListenerEvent(backend, ListenerChunkRemoved(p))
  }

  /** What completing a finished job fires: the load events when it found a chunk, nothing otherwise. */
  function CompletionEvents(p: Pos, outcome: Option<Chunk>, backend: Backend): seq<Event>
  {
    if outcome.Some? then LoadEvents(p, outcome.value, backend) else []
  }

  /** The flush event, when this tick's counter step dispatches one. */
  function FlushEvents(flush: bool): seq<Event>
  {
    if flush then [FlushDispatched] else []
  }

  /** The chunk the table holds at `p`, if any (`Long2ObjectMap.get`, null as None). */
  function Get(m: map<Pos, Chunk>, p: Pos): Option<Chunk>
  {
    if p in m then Some(m[p]) else None
  }

  /** The coordinates occurring in `s`. */
  function Elems(s: seq<Pos>): (r: set<Pos>)
    ensures forall p :: p in r <==> p in s
  {
    if s == [] then {} else Elems(s[..|s| - 1]) + {s[|s| - 1]}
  }

  /** No coordinate occurs twice in `s`. */
  predicate Distinct(s: seq<Pos>)
  {
    s == [] || (Distinct(s[..|s| - 1]) && s[|s| - 1] !in s[..|s| - 1])
  }

  /** The events of unloading `order`, one after the other, from the chunk table `chunks`. */
  function UnloadsLog(order: seq<Pos>, chunks: map<Pos, Chunk>, backend: Backend): seq<Event>
  {
    if order == [] then []
    else UnloadsLog(order[..|order| - 1], chunks, backend)
         + UnloadEvents(order[|order| - 1], Get(chunks, order[|order| - 1]), false, backend)
  }

  /** The events of completing the finished jobs at `order`, one after the other. */
  function CompletionsLog(order: seq<Pos>, outcomes: map<Pos, Option<Chunk>>, backend: Backend): seq<Event>
  {
    if order == [] then []
    else
      var p := order[|order| - 1];
      CompletionsLog(order[..|order| - 1], outcomes, backend)
      + (if p in outcomes then CompletionEvents(p, outcomes[p], backend) else [])
  }

  /** The chunks that completing the jobs at `order`, one after the other, puts into the chunk table. */
  function Installed(order: seq<Pos>, outcomes: map<Pos, Option<Chunk>>): map<Pos, Chunk>
  {
    if order == [] then map[]
    else
      var p := order[|order| - 1];
      var earlier := Installed(order[..|order| - 1], outcomes);
      if p in outcomes && outcomes[p].Some? then earlier[p := outcomes[p].value] else earlier
  }

  /**
    Unloading a coordinate that holds no fake chunk touches neither the world
    nor its lighting; only the Sodium listener still hears of it.
   */
  lemma UnloadOfAbsentIsQuiet(p: Pos, willBeReplaced: bool, backend: Backend)
    ensures UnloadEvents(p, None, willBeReplaced, backend) == ListenerEvent(backend, ListenerChunkRemoved(p))
    ensures forall e :: e in UnloadEvents(p, None, willBeReplaced, backend) ==> !TouchesWorld(e)
    ensures backend == Sodium(true) ==> UnloadEvents(p, None, willBeReplaced, backend) == [ListenerChunkRemoved(p)]
  {
  }

  /** An unload that will be replaced skips the render and lighting teardown but still unloads block entities. */
  lemma ReplacedUnloadKeepsBlockEntities(p: Pos, c: Chunk, backend: Backend)
    ensures UnloadEvents(p, Some(c), true, backend)
         == [BlockEntitiesUnloaded(c)] + ListenerEvent(backend, ListenerChunkRemoved(p))
    ensures RenderAndLightingTornDown(p) !in UnloadEvents(p, Some(c), true, backend)
    ensures RenderAndLightingTornDown(p) in UnloadEvents(p, Some(c), false, backend)
  {
  }

  /** The listener is told last, after every event of the base bookkeeping. */
  lemma ListenerComesLast(p: Pos, c: Option<Chunk>, willBeReplaced: bool, chunk: Chunk)
    ensures var es := UnloadEvents(p, c, willBeReplaced, Sodium(true));
      |es| > 0 && es[|es| - 1] == ListenerChunkRemoved(p)
    ensures var es := LoadEvents(p, chunk, Sodium(true));
      |es| == 4 && es[3] == ListenerChunkAdded(p) && forall i :: 0 <= i < 3 ==> TouchesWorld(es[i])
  {
  }

  /** Appending one completion adds its chunk, if it found one, to what is installed. */
  lemma InstalledSnoc(order: seq<Pos>, p: Pos, outcomes: map<Pos, Option<Chunk>>)
    requires p in outcomes
    ensures Installed(order + [p], outcomes)
         == if outcomes[p].Some? then Installed(order, outcomes)[p := outcomes[p].value]
            else Installed(order, outcomes)
  {
    assert (order + [p])[..|order|] == order;
  }

  /** Updating a union at one key updates its right operand there. */
  lemma UnionUpdate(m: map<Pos, Chunk>, n: map<Pos, Chunk>, k: Pos, v: Chunk)
    ensures (m + n)[k := v] == m + n[k := v]
  {
  }

  /** Appending one completion appends its events. */
  lemma CompletionsLogSnoc(order: seq<Pos>, p: Pos, outcomes: map<Pos, Option<Chunk>>, backend: Backend)
    requires p in outcomes
    ensures CompletionsLog(order + [p], outcomes, backend)
         == CompletionsLog(order, outcomes, backend) + CompletionEvents(p, outcomes[p], backend)
  {
    assert (order + [p])[..|order|] == order;
  }

  /** Appending one unload appends its events. */
  lemma UnloadsLogSnoc(order: seq<Pos>, p: Pos, chunks: map<Pos, Chunk>, backend: Backend)
    ensures UnloadsLog(order + [p], chunks, backend)
         == UnloadsLog(order, chunks, backend) + UnloadEvents(p, Get(chunks, p), false, backend)
  {
    assert (order + [p])[..|order|] == order;
  }

  /** The chunk table after completing a job at `p` with `outcome`. */
  function Complete(chunks: map<Pos, Chunk>, p: Pos, outcome: Option<Chunk>): map<Pos, Chunk>
  {
    if outcome.Some? then chunks[p := outcome.value] else chunks
  }

  /** Completing one more job installs its chunk on top of what is installed. */
  lemma InstalledStep(order: seq<Pos>, finished: map<Pos, Option<Chunk>>, chunks0: map<Pos, Chunk>, p: Pos)
    requires p in finished
    ensures Complete(chunks0 + Installed(order, finished), p, finished[p]) == chunks0 + Installed(order + [p], finished)
  {
    InstalledSnoc(order, p, finished);
    if finished[p].Some? {
      UnionUpdate(chunks0, Installed(order, finished), p, finished[p].value);
    }
  }

  /**
    What completing the jobs at `order` installs: a chunk exactly at the
    coordinates of `order` whose outcome found one, and that chunk; a
    completion with an empty outcome installs nothing.
   */
  lemma {:induction false} InstalledMeans(order: seq<Pos>, outcomes: map<Pos, Option<Chunk>>)
    ensures forall p :: p in Installed(order, outcomes) <==> p in Elems(order) && p in outcomes && outcomes[p].Some?
    ensures forall p :: p in Installed(order, outcomes) ==> Installed(order, outcomes)[p] == outcomes[p].value
  {
    if order != [] {
      var prefix, p := order[..|order| - 1], order[|order| - 1];
      assert order == prefix + [p];
      InstalledMeans(prefix, outcomes);
      ElemsSnoc(prefix, p);
    }
  }

  /** Appending a coordinate adds it to the elements, and keeps `s` duplicate-free when it is new. */
  lemma ElemsSnoc(s: seq<Pos>, p: Pos)
    ensures Elems(s + [p]) == Elems(s) + {p}
    ensures Distinct(s + [p]) <==> Distinct(s) && p !in s
  {
    assert (s + [p])[..|s|] == s;
  }
}
