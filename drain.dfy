/**
  The two drains at the end of `update`, as step functions on the part of
  the manager's state each one changes: the unload drain takes queued
  coordinates out of the queue and unloads them, the job drain takes
  finished jobs out of the job table and completes them. Each drain is the
  fold of its step over the coordinates it handled, in order; the closed
  forms say what that fold amounts to.
 */
module Drains {
  import opened Wrappers
  import opened ViewWindow
  import opened ChunkStorage
  import opened Effects

  /** What the unload drain changes: the unload queue, the fake chunk table and the log. */
  datatype UnloadState = UnloadState(queue: set<Pos>, chunks: map<Pos, Chunk>, log: seq<Event>)

  /** One round of the unload drain at `p`: `p` leaves the queue, then `unload(x, z, false)`. */
  function UnloadStep(s: UnloadState, p: Pos, backend: Backend): UnloadState
  {
    UnloadState(s.queue - {p}, s.chunks - {p}, s.log + UnloadEvents(p, Get(s.chunks, p), false, backend))
  }

  /** The unload drain's rounds at `order`, one after the other. */
  function AfterUnloads(s: UnloadState, order: seq<Pos>, backend: Backend): UnloadState
  {
    if order == [] then s
    else UnloadStep(AfterUnloads(s, order[..|order| - 1], backend), order[|order| - 1], backend)
  }

  lemma AfterUnloadsSnoc(s: UnloadState, order: seq<Pos>, p: Pos, backend: Backend)
    ensures AfterUnloads(s, order + [p], backend) == UnloadStep(AfterUnloads(s, order, backend), p, backend)
  {
    assert (order + [p])[..|order|] == order;
  }

  /** Each round takes its coordinate out of the queue. */
  lemma {:induction false} AfterUnloadsQueue(s: UnloadState, order: seq<Pos>, backend: Backend)
    ensures AfterUnloads(s, order, backend).queue == s.queue - Elems(order)
  {
    if order != [] {
      var prefix, p := order[..|order| - 1], order[|order| - 1];
      assert order == prefix + [p];
      AfterUnloadsQueue(s, prefix, backend);
      ElemsSnoc(prefix, p);
    }
  }

  /** Each round takes its coordinate out of the chunk table. */
  lemma {:induction false} AfterUnloadsChunks(s: UnloadState, order: seq<Pos>, backend: Backend)
    ensures AfterUnloads(s, order, backend).chunks == s.chunks - Elems(order)
  {
    if order != [] {
      var prefix, p := order[..|order| - 1], order[|order| - 1];
      assert order == prefix + [p];
      AfterUnloadsChunks(s, prefix, backend);
      ElemsSnoc(prefix, p);
    }
  }

  /** Rounds at distinct coordinates log each unload with the chunk the table held at the start. */
  lemma {:induction false} AfterUnloadsLog(s: UnloadState, order: seq<Pos>, backend: Backend)
    requires Distinct(order)
    ensures AfterUnloads(s, order, backend).log == s.log + UnloadsLog(order, s.chunks, backend)
  {
    if order != [] {
      var prefix, p := order[..|order| - 1], order[|order| - 1];
      assert order == prefix + [p];
      AfterUnloadsLog(s, prefix, backend);
      AfterUnloadsChunks(s, prefix, backend);
      ElemsSnoc(prefix, p);
      assert Get(s.chunks - Elems(prefix), p) == Get(s.chunks, p);
      UnloadsLogSnoc(prefix, p, s.chunks, backend);
    }
  }

  /**
    Unloading distinct coordinates removes exactly them from the queue and
    the chunk table, and logs each unload with the chunk the table held at
    the start.
   */
  lemma AfterUnloadsClosedForm(s: UnloadState, order: seq<Pos>, backend: Backend)
    requires Distinct(order)
    ensures AfterUnloads(s, order, backend).queue == s.queue - Elems(order)
    ensures AfterUnloads(s, order, backend).chunks == s.chunks - Elems(order)
    ensures AfterUnloads(s, order, backend).log == s.log + UnloadsLog(order, s.chunks, backend)
  {
    AfterUnloadsQueue(s, order, backend);
    AfterUnloadsChunks(s, order, backend);
    AfterUnloadsLog(s, order, backend);
  }

  /** A round at a coordinate still queued keeps the handled coordinates distinct and drawn from the start queue. */
  lemma UnloadRound(s: UnloadState, order: seq<Pos>, p: Pos, backend: Backend)
    requires Distinct(order) && Elems(order) <= s.queue
    requires p in AfterUnloads(s, order, backend).queue
    ensures Distinct(order + [p]) && Elems(order + [p]) <= s.queue
    ensures AfterUnloads(s, order + [p], backend) == UnloadStep(AfterUnloads(s, order, backend), p, backend)
  {
    AfterUnloadsClosedForm(s, order, backend);
    ElemsSnoc(order, p);
    AfterUnloadsSnoc(s, order, p, backend);
  }

  /** What the job drain changes: the job table, the fake chunk table and the log. */
  datatype JobState<J> = JobState(jobs: map<Pos, J>, chunks: map<Pos, Chunk>, log: seq<Event>)

  /** The outcome recorded for `p`, or None when `p` had not finished. */
  function OutcomeAt(finished: map<Pos, Option<Chunk>>, p: Pos): Option<Chunk>
  {
    if p in finished then finished[p] else None
  }

  /** Completing the finished job at `p`: it leaves the table, then `complete()` with its outcome. */
  function CompletionStep<J>(s: JobState<J>, p: Pos, outcome: Option<Chunk>, backend: Backend): JobState<J>
  {
    JobState(s.jobs - {p}, Complete(s.chunks, p, outcome), s.log + CompletionEvents(p, outcome, backend))
  }

  /** The job drain's completions at `order`, one after the other, with the outcomes in `finished`. */
  function AfterCompletions<J>(s: JobState<J>, order: seq<Pos>, finished: map<Pos, Option<Chunk>>,
                               backend: Backend): JobState<J>
  {
    if order == [] then s
    else
      var p := order[|order| - 1];
      CompletionStep(AfterCompletions(s, order[..|order| - 1], finished, backend), p, OutcomeAt(finished, p), backend)
  }

  lemma AfterCompletionsSnoc<J>(s: JobState<J>, order: seq<Pos>, finished: map<Pos, Option<Chunk>>,
                                p: Pos, backend: Backend)
    ensures AfterCompletions(s, order + [p], finished, backend)
         == CompletionStep(AfterCompletions(s, order, finished, backend), p, OutcomeAt(finished, p), backend)
  {
    assert (order + [p])[..|order|] == order;
  }

  /** Each completion takes its coordinate out of the job table. */
  lemma {:induction false} AfterCompletionsJobs<J>(s: JobState<J>, order: seq<Pos>,
                                                   finished: map<Pos, Option<Chunk>>, backend: Backend)
    ensures AfterCompletions(s, order, finished, backend).jobs == s.jobs - Elems(order)
  {
    if order != [] {
      var prefix, p := order[..|order| - 1], order[|order| - 1];
      assert order == prefix + [p];
      AfterCompletionsJobs(s, prefix, finished, backend);
      ElemsSnoc(prefix, p);
      MinusSnoc(s.jobs, Elems(prefix), p);
    }
  }

  /** Each completion that found a chunk puts it over the table; a later one at the same coordinate wins. */
  lemma {:induction false} AfterCompletionsChunks<J>(s: JobState<J>, order: seq<Pos>,
                                                     finished: map<Pos, Option<Chunk>>, backend: Backend)
    ensures AfterCompletions(s, order, finished, backend).chunks == s.chunks + Installed(order, finished)
  {
    if order != [] {
      var prefix, p := order[..|order| - 1], order[|order| - 1];
      assert order == prefix + [p];
      AfterCompletionsChunks(s, prefix, finished, backend);
      if p in finished {
        InstalledStep(prefix, finished, s.chunks, p);
      } else {
        assert Installed(order, finished) == Installed(prefix, finished);
      }
    }
  }

  /** Each completion logs its events after those of the earlier ones. */
  lemma {:induction false} AfterCompletionsLog<J>(s: JobState<J>, order: seq<Pos>,
                                                  finished: map<Pos, Option<Chunk>>, backend: Backend)
    ensures AfterCompletions(s, order, finished, backend).log == s.log + CompletionsLog(order, finished, backend)
  {
    if order != [] {
      var prefix, p := order[..|order| - 1], order[|order| - 1];
      assert order == prefix + [p];
      AfterCompletionsLog(s, prefix, finished, backend);
      if p in finished {
        CompletionsLogSnoc(prefix, p, finished, backend);
      }
    }
  }

  /**
    Completing the jobs at `order` removes exactly them from the job table,
    puts their chunks over the chunk table (a later completion at the same
    coordinate wins), and logs each completion in order.
   */
  lemma AfterCompletionsClosedForm<J>(s: JobState<J>, order: seq<Pos>,
                                      finished: map<Pos, Option<Chunk>>, backend: Backend)
    ensures AfterCompletions(s, order, finished, backend).jobs == s.jobs - Elems(order)
    ensures AfterCompletions(s, order, finished, backend).chunks == s.chunks + Installed(order, finished)
    ensures AfterCompletions(s, order, finished, backend).log == s.log + CompletionsLog(order, finished, backend)
  {
    AfterCompletionsJobs(s, order, finished, backend);
    AfterCompletionsChunks(s, order, finished, backend);
    AfterCompletionsLog(s, order, finished, backend);
  }

  /** Taking out one more key. */
  lemma MinusSnoc<V>(m: map<Pos, V>, a: set<Pos>, p: Pos)
    ensures m - (a + {p}) == (m - a) - {p}
  {
  }

  /**
    Whether `shouldKeepTicking` answered "go on" at each of its
    consultations `a` up to `b - 1` of this tick.
   */
  predicate Kept(keep: nat -> bool, a: nat, b: int)
    decreases b
  {
    b <= a || (Kept(keep, a, b - 1) && KeepTicking(keep, b - 1))
  }

  /**
    The consultations `a` up to `b - 1` of this tick have been made, all
    but the last answered "go on", and `stopped` says whether the last one
    answered "stop" (nothing is stopped before the first consultation).
   */
  predicate Consulted(keep: nat -> bool, a: nat, b: nat, stopped: bool)
  {
    if b <= a then !stopped
    else Kept(keep, a, b - 1) && (stopped <==> !KeepTicking(keep, b - 1))
  }

  /**
    What the consultations `a` up to `b - 1` amount to: all but the last
    answered "go on", and `stopped` says whether the last answered "stop".
   */
  lemma ConsultedMeans(keep: nat -> bool, a: nat, b: nat, stopped: bool)
    requires a <= b && Consulted(keep, a, b, stopped)
    ensures forall i :: a <= i < b - 1 ==> KeepTicking(keep, i)
    ensures stopped <==> b > a && !KeepTicking(keep, b - 1)
  {
    if b > a {
      KeptMeans(keep, a, b - 1);
    }
  }

  /** `Kept` says that every consultation from the `a`-th up to the `b - 1`-th answered "go on". */
  lemma {:induction false} KeptMeans(keep: nat -> bool, a: nat, b: int)
    decreases b
    ensures Kept(keep, a, b) <==> forall i :: a <= i < b ==> KeepTicking(keep, i)
  {
    if b > a {
      KeptMeans(keep, a, b - 1);
    }
  }

  /** `shouldKeepTicking.getAsBoolean()` at its `i`-th consultation of this tick. */
  predicate KeepTicking(keep: nat -> bool, i: nat)
  {
    keep(i)
  }

  /**
    The manager's tables as values: the stored window, the unload queue, the
    coordinates with a loading job, the fake chunk table, the log, and the
    outcomes of the jobs that have finished.
   */
  datatype Tables = Tables(window: Window, queue: set<Pos>, jobs: set<Pos>, chunks: map<Pos, Chunk>,
                           log: seq<Event>, finished: map<Pos, Option<Chunk>>)

  /** The tables after the unload drain has unloaded the coordinates at `order`, one after the other. */
  function UnloadsDone(s: Tables, order: seq<Pos>, backend: Backend): Tables
  {
    s.(queue := s.queue - Elems(order), chunks := s.chunks - Elems(order),
       log := s.log + UnloadsLog(order, s.chunks, backend))
  }

  /** The tables after the job drain has completed the finished jobs at `order`, one after the other. */
  function JobsDone(s: Tables, order: seq<Pos>, backend: Backend): Tables
  {
    s.(jobs := s.jobs - Elems(order), chunks := s.chunks + Installed(order, s.finished),
       log := s.log + CompletionsLog(order, s.finished, backend), finished := s.finished - Elems(order))
  }

  /**
    The tables once the two loop pairs have run against the stored window
    and `newW` has been stored: the queue gains the chunks that left the
    window and loses those that came back; the table loses the jobs of the
    chunks that left, and with them their outcomes, and gains one job for
    every entering chunk the world does not really hold.
   */
  function Moved(before: Tables, newW: Window, realChunks: set<Pos>): Tables
  {
    var leaving, entering := Leaving(before.window, newW), Entering(before.window, newW);
    before.(window := newW,
            queue := (before.queue + leaving) - entering,
            jobs := (before.jobs - leaving) + (entering - realChunks),
            finished := before.finished - leaving)
  }

  /**
    What the two drains do, with `unloaded` and `completed` the coordinates
    they handled, in order: the unload drain unloads distinct queued
    coordinates, then the job drain completes distinct finished jobs; every
    consultation of `keep` but the last of each drain said "go on", and a
    drain that left work undone was stopped by its last consultation.
   */
  predicate Drained(before: Tables, after: Tables, keep: nat -> bool, backend: Backend,
                    unloaded: seq<Pos>, completed: seq<Pos>)
  {
    && Distinct(unloaded) && Elems(unloaded) <= before.queue
    && Distinct(completed) && Elems(completed) <= before.finished.Keys
    && after == JobsDone(UnloadsDone(before, unloaded, backend), completed, backend)
    && (forall i :: 0 <= i < |unloaded| - 1 ==> KeepTicking(keep, i))
    && (after.queue != {} ==> |unloaded| > 0 && !KeepTicking(keep, |unloaded| - 1))
    && (forall i :: |unloaded| <= i < |unloaded| + |completed| - 1 ==> KeepTicking(keep, i))
    && (Elems(completed) != before.finished.Keys ==>
          |completed| > 0 && !KeepTicking(keep, |unloaded| + |completed| - 1))
  }

  /**
    The unload drain followed by the job drain, each stopping at its own
    first "stop", with the job drain consulting from where the unload drain
    left off, is what `Drained` describes.
   */
  lemma DrainsCompose(before: Tables, mid: Tables, after: Tables, keep: nat -> bool, backend: Backend,
                      unloaded: seq<Pos>, completed: seq<Pos>, unloadStopped: bool, used: nat, jobStopped: bool)
    requires mid == UnloadsDone(before, unloaded, backend) && after == JobsDone(mid, completed, backend)
    requires Distinct(unloaded) && Elems(unloaded) <= before.queue
    requires Consulted(keep, 0, |unloaded|, unloadStopped) && (!unloadStopped ==> mid.queue == {})
    requires Distinct(completed) && Elems(completed) <= mid.finished.Keys
    requires used == |unloaded| + |completed| && Consulted(keep, |unloaded|, used, jobStopped)
    requires !jobStopped ==> Elems(completed) == mid.finished.Keys
    ensures Drained(before, after, keep, backend, unloaded, completed)
  {
    ConsultedMeans(keep, 0, |unloaded|, unloadStopped);
    ConsultedMeans(keep, |unloaded|, used, jobStopped);
  }

  /**
    The drains in terms of the tables they started from: the unloaded
    coordinates leave the queue and the chunk table, the completed ones the
    job table; every chunk a completion found is put over what is left, and
    the log records the unloads, then the completions.
   */
  lemma DrainedTables(before: Tables, after: Tables, keep: nat -> bool, backend: Backend,
                      unloaded: seq<Pos>, completed: seq<Pos>)
    requires Drained(before, after, keep, backend, unloaded, completed)
    ensures after.window == before.window
    ensures after.queue == before.queue - Elems(unloaded)
    ensures after.jobs == before.jobs - Elems(completed)
    ensures after.chunks == (before.chunks - Elems(unloaded)) + Installed(completed, before.finished)
    ensures after.log == before.log + UnloadsLog(unloaded, before.chunks, backend)
                         + CompletionsLog(completed, before.finished, backend)
    ensures after.finished == before.finished - Elems(completed)
  {
  }

  /**
    The drains make progress and keep what they did not handle: each drain
    that had work handled at least one entry; queued coordinates not unloaded
    stay queued; jobs still loading stay in the table; only jobs in the table
    are completed.
   */
  lemma DrainsProgress(before: Tables, after: Tables, keep: nat -> bool, backend: Backend,
                       unloaded: seq<Pos>, completed: seq<Pos>)
    requires Drained(before, after, keep, backend, unloaded, completed)
    ensures before.queue != {} ==> |unloaded| > 0
    ensures before.finished.Keys != {} ==> |completed| > 0
    ensures before.queue - Elems(unloaded) == after.queue
    ensures before.jobs - before.finished.Keys <= after.jobs
    ensures before.finished.Keys <= before.jobs ==> Elems(completed) <= before.jobs
  {
  }

  /**
    A coordinate holds a fake chunk after the drains exactly when it held one
    and was not unloaded, or a completed job found one for it, and then it
    holds that job's chunk; a completed job that found nothing changes nothing.
   */
  lemma DrainedChunks(before: Tables, after: Tables, keep: nat -> bool, backend: Backend,
                      unloaded: seq<Pos>, completed: seq<Pos>)
    requires Drained(before, after, keep, backend, unloaded, completed)
    ensures forall p :: p in after.chunks <==>
      (p in before.chunks && p !in Elems(unloaded)) || (p in Elems(completed) && before.finished[p].Some?)
    ensures forall p :: p in Elems(completed) && before.finished[p].Some? ==> after.chunks[p] == before.finished[p].value
    ensures forall p :: p in before.chunks && p !in Elems(unloaded) && !(p in Elems(completed) && before.finished[p].Some?) ==>
      p in after.chunks && after.chunks[p] == before.chunks[p]
  {
    InstalledMeans(completed, before.finished);
  }

  /**
    The loop pairs keep jobs inside the window and the queue outside it, and
    leave every coordinate that lies in both squares, or in neither, as it was.
   */
  lemma MovedSeparated(before: Tables, newW: Window, realChunks: set<Pos>)
    requires Separated(before.window, before.jobs, before.queue)
    ensures Separated(newW, Moved(before, newW, realChunks).jobs, Moved(before, newW, realChunks).queue)
    ensures forall p :: (InSquare(before.window, p) <==> InSquare(newW, p)) ==>
      && (p in Moved(before, newW, realChunks).queue <==> p in before.queue)
      && (p in Moved(before, newW, realChunks).jobs <==> p in before.jobs)
  {
    DiffKeepsSeparation(before.window, newW, before.jobs, before.queue, Entering(before.window, newW) - realChunks);
  }

  /** When the window stays where it is, the loop pairs change nothing. */
  lemma MovedInPlace(s: Tables, realChunks: set<Pos>)
    ensures Moved(s, s.window, realChunks) == s
  {
    SameWindowNoDiff(s.window);
  }
}
