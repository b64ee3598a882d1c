/**
  Chunk coordinates and the square view window the manager tracks.

  A window is a center chunk and a view distance; a chunk is inside it when
  both of its coordinates are within the view distance of the center
  (a square, not a circle). `update` compares the stored window with the
  player's current one and works on the two set differences defined here.
 */
module ViewWindow {

  /** A chunk coordinate. The Java code packs it into a long; the pair is the same key. */
  datatype Pos = Pos(x: int, z: int)

  datatype Window = Window(centerX: int, centerZ: int, viewDistance: int)

  /** The window the manager stores before its first update: Java's default field values. */
  const InitialWindow := Window(0, 0, 0)

  predicate InSquare(w: Window, p: Pos)
  {
    && w.centerX - w.viewDistance <= p.x <= w.centerX + w.viewDistance
    && w.centerZ - w.viewDistance <= p.z <= w.centerZ + w.viewDistance
  }

  /** The chunks the nested loops over a window visit. */
  function Square(w: Window): (s: set<Pos>)
    ensures forall p :: p in s <==> InSquare(w, p)
  {
    var s := set x, z | w.centerX - w.viewDistance <= x <= w.centerX + w.viewDistance
                        && w.centerZ - w.viewDistance <= z <= w.centerZ + w.viewDistance :: Pos(x, z);
    assert forall p :: InSquare(w, p) ==> Pos(p.x, p.z) in s;
    s
  }

  /** Chunks in the old window but not the new one: their jobs are cancelled and they are queued for unload. */
  function Leaving(oldW: Window, newW: Window): set<Pos>
  {
    Square(oldW) - Square(newW)
  }

  /** Chunks in the new window but not the old one: they leave the unload queue and may get a job. */
  function Entering(oldW: Window, newW: Window): set<Pos>
  {
    Square(newW) - Square(oldW)
  }

  /**
    The part of `s` a row-major sweep has passed when it stands at (x, z):
    every earlier row, and the cells of row x before column z.
   */
  ghost function Swept(s: set<Pos>, x: int, z: int): set<Pos>
  {
    set p | p in s && (p.x < x || (p.x == x && p.z < z))
  }

  /** The two differences partition the symmetric difference of the squares. */
  lemma DiffIsSymmetricDifference(oldW: Window, newW: Window)
    ensures Leaving(oldW, newW) + Entering(oldW, newW)
         == (Square(oldW) + Square(newW)) - (Square(oldW) * Square(newW))
    ensures Leaving(oldW, newW) * Entering(oldW, newW) == {}
    ensures forall p :: p in Square(oldW) && p in Square(newW) ==> p !in Leaving(oldW, newW) + Entering(oldW, newW)
  {
  }

  /** Comparing a window with itself yields nothing to load or unload. */
  lemma SameWindowNoDiff(w: Window)
    ensures Leaving(w, w) == {} && Entering(w, w) == {}
  {
  }

  /**
    Moving a radius-2 window from (0,0) to (5,0): the squares are disjoint,
    so the whole old square is unloaded and the whole new square loaded.
   */
  lemma ShiftByFive()
    ensures Leaving(Window(0, 0, 2), Window(5, 0, 2)) == Square(Window(0, 0, 2))
    ensures Entering(Window(0, 0, 2), Window(5, 0, 2)) == Square(Window(5, 0, 2))
    ensures forall p :: p in Leaving(Window(0, 0, 2), Window(5, 0, 2)) ==> p.x < 3
    ensures forall p :: p in Entering(Window(0, 0, 2), Window(5, 0, 2)) ==> p.x > 2
  {
    assert Square(Window(0, 0, 2)) * Square(Window(5, 0, 2)) == {} by {
      forall p | p in Square(Window(0, 0, 2)) ensures p !in Square(Window(5, 0, 2)) {
        assert p.x <= 2;
      }
    }
  }

  /**
    The stored window starts as the single chunk (0,0). So when the first
    window the player brings also contains (0,0), that chunk is not among
    the entering ones: it gets no loading job on the first update.
   */
  lemma FirstUpdateSkipsOrigin(w: Window)
    requires InSquare(w, Pos(0, 0))
    ensures Pos(0, 0) in Square(w) && Pos(0, 0) !in Entering(InitialWindow, w)
    ensures Entering(InitialWindow, w) == Square(w) - {Pos(0, 0)}
  {
    assert Square(InitialWindow) == {Pos(0, 0)} by {
      forall p | p in Square(InitialWindow) ensures p == Pos(0, 0) {
      }
    }
  }

  /** Nothing is swept before the first cell of the first row. */
  lemma SweptStart(s: set<Pos>, x0: int, z0: int)
    requires forall p :: p in s ==> x0 <= p.x && z0 <= p.z
    ensures Swept(s, x0, z0) == {}
  {
    forall p | p in Swept(s, x0, z0) ensures false {
    }
  }

  /** Advancing one column adds exactly the current cell, when it is in `s`. */
  lemma SweptStep(s: set<Pos>, x: int, z: int)
    ensures Swept(s, x, z + 1) == Swept(s, x, z) + (if Pos(x, z) in s then {Pos(x, z)} else {})
  {
    var a := Swept(s, x, z + 1);
    var b := Swept(s, x, z) + (if Pos(x, z) in s then {Pos(x, z)} else {});
    forall p | p in a ensures p in b {
      if p.x == x && p.z == z {
        assert p == Pos(x, z);
      }
    }
  }

  /** Past the last column of row x, the sweep equals the start of row x + 1. */
  lemma SweptRowEnd(s: set<Pos>, x: int, z0: int, z: int)
    requires forall p :: p in s ==> z0 <= p.z < z
    ensures Swept(s, x, z) == Swept(s, x + 1, z0)
  {
  }

  /** Past the last row, everything has been swept. */
  lemma SweptAll(s: set<Pos>, x: int, z: int)
    requires forall p :: p in s ==> p.x < x
    ensures Swept(s, x, z) == s
  {
  }

  /** One column further, a table without the swept part loses the current cell, when it is in `s`. */
  lemma SweptMinusStep<V>(m: map<Pos, V>, s: set<Pos>, x: int, z: int)
    ensures m - Swept(s, x, z + 1) == if Pos(x, z) in s then (m - Swept(s, x, z)) - {Pos(x, z)} else m - Swept(s, x, z)
  {
    SweptStep(s, x, z);
  }

  /** One column further, a set with the swept part added gains the current cell, when it is in `s`. */
  lemma SweptPlusStep(b: set<Pos>, s: set<Pos>, x: int, z: int)
    ensures b + Swept(s, x, z + 1) == if Pos(x, z) in s then (b + Swept(s, x, z)) + {Pos(x, z)} else b + Swept(s, x, z)
  {
    SweptStep(s, x, z);
  }

  /** Jobs lie inside the window and queued chunks outside it. */
  predicate Separated(w: Window, jobs: set<Pos>, queue: set<Pos>)
  {
    && (forall p :: p in jobs ==> InSquare(w, p))
    && (forall p :: p in queue ==> !InSquare(w, p))
  }

  /**
    The loop pairs keep the separation: after dropping the leaving jobs,
    adding entering ones, queueing the leaving chunks and unqueueing the
    entering ones, what was separated by the old window is separated by the
    new one.
   */
  lemma DiffKeepsSeparation(oldW: Window, newW: Window, jobs: set<Pos>, queue: set<Pos>, added: set<Pos>)
    requires Separated(oldW, jobs, queue) && added <= Entering(oldW, newW)
    ensures Separated(newW, (jobs - Leaving(oldW, newW)) + added, (queue + Leaving(oldW, newW)) - Entering(oldW, newW))
  {
  }

  /** Separated jobs and queued chunks never share a coordinate. */
  lemma SeparatedDisjoint(w: Window, jobs: set<Pos>, queue: set<Pos>)
    requires Separated(w, jobs, queue)
    ensures jobs !! queue
  {
    forall p | p in jobs && p in queue ensures false {
    }
  }

  /** Fewer jobs and fewer queued chunks stay separated. */
  lemma SeparatedSubsets(w: Window, jobs: set<Pos>, queue: set<Pos>, jobs': set<Pos>, queue': set<Pos>)
    requires Separated(w, jobs, queue) && jobs' <= jobs && queue' <= queue
    ensures Separated(w, jobs', queue')
  {
  }
}
