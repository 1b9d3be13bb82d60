/** The distance transform of the wordmark renderer (internal/ui/banner.go): a
    multi-source breadth-first search from every background cell into the lit ones,
    writing each lit cell's ring index into a grid in place. */
module Bevel {

  datatype Cell = Cell(y: int, x: int)

  // The sentinel "not reached yet".
  const INF := 0x4000_0000

  type Grid = seq<seq<bool>>

  predicate Rectangular(lit: Grid, w: nat) {
    forall y :: 0 <= y < |lit| ==> |lit[y]| == w
  }

  predicate InGrid(lit: Grid, w: nat, c: Cell) {
    0 <= c.y < |lit| && 0 <= c.x < w
  }

  predicate Background(lit: Grid, w: nat, c: Cell)
    requires Rectangular(lit, w)
  {
    InGrid(lit, w, c) && !lit[c.y][c.x]
  }

  function Abs(n: int): nat {
    if n < 0 then -n else n
  }

  function Manhattan(a: Cell, b: Cell): nat {
    Abs(a.y - b.y) + Abs(a.x - b.x)
  }

  /** `d` is the least Manhattan distance from `c` to a background cell. */
  ghost predicate IsDistance(lit: Grid, w: nat, c: Cell, d: int)
    requires Rectangular(lit, w)
  {
    && (exists b {:trigger Manhattan(b, c)} :: Background(lit, w, b) && Manhattan(b, c) == d)
    && (forall b {:trigger Manhattan(b, c)} :: Background(lit, w, b) ==> d <= Manhattan(b, c))
  }

  /** Some background cell lies within `d` of `c`. */
  ghost predicate Near(lit: Grid, w: nat, c: Cell, d: int)
    requires Rectangular(lit, w)
  {
    exists b {:trigger Manhattan(b, c)} :: Background(lit, w, b) && Manhattan(b, c) <= d
  }

  /** The four neighbours in the order the search tries them. */
  function Neighbour(c: Cell, k: nat): Cell
    requires k < 4
  {
    if k == 0 then Cell(c.y + 1, c.x)
    else if k == 1 then Cell(c.y - 1, c.x)
    else if k == 2 then Cell(c.y, c.x + 1)
    else Cell(c.y, c.x - 1)
  }

  /** A cell at positive distance from `b` has a neighbour in the grid one step nearer,
      and it is a neighbour of that neighbour. */
  lemma StepToward(lit: Grid, w: nat, c: Cell, b: Cell) returns (m: Cell, k: nat)
    requires InGrid(lit, w, c) && InGrid(lit, w, b) && c != b
    ensures InGrid(lit, w, m) && Manhattan(b, m) == Manhattan(b, c) - 1
    ensures k < 4 && Neighbour(m, k) == c
  {
    if b.y > c.y { m, k := Cell(c.y + 1, c.x), 1; }
    else if b.y < c.y { m, k := Cell(c.y - 1, c.x), 0; }
    else if b.x > c.x { m, k := Cell(c.y, c.x + 1), 3; }
    else { m, k := Cell(c.y, c.x - 1), 2; }
  }

  /** The queue lists exactly the reached cells, each once, in order of distance. */
  ghost predicate Queued(reached: map<Cell, int>, q: seq<Cell>) {
    && (forall i :: 0 <= i < |q| ==> q[i] in reached)
    && (forall c :: c in reached ==> c in q)
    && (forall i, j :: 0 <= i < j < |q| ==> q[i] != q[j])
    && (forall i, j :: 0 <= i < j < |q| ==> reached[q[i]] <= reached[q[j]])
  }

  /** Every reached cell carries its true distance. */
  ghost predicate Exact(lit: Grid, w: nat, reached: map<Cell, int>)
    requires Rectangular(lit, w)
  {
    forall c {:trigger c in reached} {:trigger reached[c]} ::
      c in reached ==> InGrid(lit, w, c) && IsDistance(lit, w, c, reached[c])
  }

  /** Every neighbour of a dequeued cell has been reached. */
  ghost predicate Closed(lit: Grid, w: nat, reached: map<Cell, int>, q: seq<Cell>, head: nat)
    requires head <= |q|
  {
    forall i, k :: 0 <= i < head && 0 <= k < 4 && InGrid(lit, w, Neighbour(q[i], k)) ==> Neighbour(q[i], k) in reached
  }

  /** Every cell no further than `d` from the background has been reached. */
  ghost predicate ReachedWithin(lit: Grid, w: nat, reached: map<Cell, int>, d: int)
    requires Rectangular(lit, w)
  {
    forall c {:trigger Near(lit, w, c, d)} ::
      InGrid(lit, w, c) && Near(lit, w, c, d) ==> c in reached
  }

  /** The grid in memory: reached cells hold their distance, all others the sentinel. */
  ghost predicate Holds(lit: Grid, w: nat, dist: array2<int>, reached: map<Cell, int>)
    requires dist.Length0 == |lit| && dist.Length1 == w
    reads dist
  {
    forall c {:trigger dist[c.y, c.x]} ::
      InGrid(lit, w, c) ==> dist[c.y, c.x] == (if c in reached then reached[c] else INF)
  }

  /** What the search knows between two dequeues, `head` being the next one. */
  ghost predicate Searching(lit: Grid, w: nat, reached: map<Cell, int>, q: seq<Cell>, head: nat)
    requires Rectangular(lit, w)
  {
    && head <= |q| && Queued(reached, q) && Exact(lit, w, reached) && Closed(lit, w, reached, q, head)
    && ReachedWithin(lit, w, reached, 0)
    && (head < |q| ==> Frontier(lit, w, reached, q, head, reached[q[head]]))
  }

  /** While distance `d` is being dequeued, everything within `d` has been reached and
      nothing queued is further than `d + 1`. */
  ghost predicate Frontier(lit: Grid, w: nat, reached: map<Cell, int>, q: seq<Cell>, head: nat, d: int)
    requires Rectangular(lit, w) && Queued(reached, q)
  {
    && ReachedWithin(lit, w, reached, d)
    && forall j :: head <= j < |q| ==> reached[q[j]] <= d + 1
  }

  /** The cells not yet dequeued. */
  ghost function Pending(lit: Grid, w: nat, q: seq<Cell>, head: nat): set<Cell>
    requires head <= |q|
  {
    (set y, x | 0 <= y < |lit| && 0 <= x < w :: Cell(y, x)) - (set i | 0 <= i < head :: q[i])
  }

  /** True distances stay below the sentinel. */
  lemma BelowSentinel(lit: Grid, w: nat, c: Cell, d: int)
    requires Rectangular(lit, w) && InGrid(lit, w, c) && IsDistance(lit, w, c, d)
    ensures 0 <= d < |lit| + w - 1
  {
  }

  lemma NoSentinel(lit: Grid, w: nat, reached: map<Cell, int>)
    requires Rectangular(lit, w) && |lit| + w <= INF && Exact(lit, w, reached)
    ensures forall c :: c in reached ==> reached[c] != INF
  {
    forall c | c in reached ensures reached[c] != INF {
      BelowSentinel(lit, w, c, reached[c]);
    }
  }

  /** Dequeuing makes progress. */
  lemma Shrinks(lit: Grid, w: nat, was: seq<Cell>, q: seq<Cell>, head: nat)
    requires head < |was| && was <= q && InGrid(lit, w, q[head])
    requires forall i, j :: 0 <= i < j < |q| ==> q[i] != q[j]
    ensures Pending(lit, w, q, head + 1) < Pending(lit, w, was, head)
  {
    var c := q[head];
    assert forall i :: 0 <= i < head ==> was[i] == q[i] && q[i] != c;
    assert c == Cell(c.y, c.x);
    assert c in Pending(lit, w, was, head) && c !in Pending(lit, w, q, head + 1);
  }

  /** An unreached neighbour of a cell at distance `d` lies at distance `d + 1`, when all
      cells within `d` have been reached. */
  lemma OneFurther(lit: Grid, w: nat, c: Cell, k: nat, d: int)
    requires Rectangular(lit, w) && InGrid(lit, w, c) && IsDistance(lit, w, c, d) && k < 4
    requires InGrid(lit, w, Neighbour(c, k)) && !Near(lit, w, Neighbour(c, k), d)
    ensures IsDistance(lit, w, Neighbour(c, k), d + 1)
  {
    var b :| Background(lit, w, b) && Manhattan(b, c) == d;
    assert Manhattan(b, Neighbour(c, k)) <= d + 1;
  }

  /** If all cells within `d` are reached and each of them has been dequeued, all cells
      within `d + 1` are reached. */
  lemma NextRing(lit: Grid, w: nat, reached: map<Cell, int>, q: seq<Cell>, head: nat, d: int)
    requires Rectangular(lit, w) && 0 <= d && head <= |q|
    requires Queued(reached, q) && Exact(lit, w, reached) && Closed(lit, w, reached, q, head)
    requires ReachedWithin(lit, w, reached, d)
    requires forall i :: head <= i < |q| ==> d < reached[q[i]]
    ensures ReachedWithin(lit, w, reached, d + 1)
  {
    forall c | InGrid(lit, w, c) && Near(lit, w, c, d + 1) ensures c in reached {
      var b :| Background(lit, w, b) && Manhattan(b, c) <= d + 1;
      if Manhattan(b, c) <= d {
        assert Near(lit, w, c, d);
      } else {
        var m, k := StepToward(lit, w, c, b);
        assert Near(lit, w, m, d);
        var i :| 0 <= i < |q| && q[i] == m;
        assert reached[m] <= Manhattan(b, m);
        assert Neighbour(q[i], k) == c;
      }
    }
  }

  /** Once the queue is exhausted every cell has been reached, if there is any background. */
  lemma {:induction false} Exhausted(lit: Grid, w: nat, reached: map<Cell, int>, q: seq<Cell>, d: nat)
    requires Rectangular(lit, w) && Searching(lit, w, reached, q, |q|)
    ensures ReachedWithin(lit, w, reached, d)
  {
    if d > 0 {
      Exhausted(lit, w, reached, q, d - 1);
      NextRing(lit, w, reached, q, |q|, d - 1);
    }
  }

  /** At the end of the queue everything is reached, if there was anything to start from. */
  lemma Complete(lit: Grid, w: nat, reached: map<Cell, int>, q: seq<Cell>)
    requires Rectangular(lit, w) && Searching(lit, w, reached, q, |q|)
    requires q != [] && Background(lit, w, q[0])
    ensures forall c {:trigger reached[c]} {:trigger c in reached} ::
      InGrid(lit, w, c) ==> c in reached && c in q && IsDistance(lit, w, c, reached[c])
  {
    forall c | InGrid(lit, w, c) ensures c in reached {
      assert Manhattan(q[0], c) <= Manhattan(q[0], c);
      assert Near(lit, w, c, Manhattan(q[0], c));
      Exhausted(lit, w, reached, q, Manhattan(q[0], c));
    }
  }

  /** Appending a cell no nearer than anything queued. */
  lemma QueueGrows(reached: map<Cell, int>, q: seq<Cell>, n: Cell, d: int)
    requires Queued(reached, q) && n !in reached
    requires forall i :: 0 <= i < |q| ==> reached[q[i]] <= d
    ensures Queued(reached[n := d], q + [n])
  {
    var q' := q + [n];
    assert forall i :: 0 <= i < |q| ==> q'[i] == q[i] && q[i] != n;
    assert q'[|q|] == n;
    assert forall c :: c in reached ==> c in q';
  }

  /** Nothing queued is further than one step from the cell being visited. */
  lemma WithinOne(lit: Grid, w: nat, reached: map<Cell, int>, q: seq<Cell>, head: nat)
    requires Rectangular(lit, w) && head < |q| && Queued(reached, q)
    requires Frontier(lit, w, reached, q, head, reached[q[head]])
    ensures forall i :: 0 <= i < |q| ==> reached[q[i]] <= reached[q[head]] + 1
  {
    forall i | 0 <= i < |q| ensures reached[q[i]] <= reached[q[head]] + 1 {
      if i < head {
        assert reached[q[i]] <= reached[q[head]];
      }
    }
  }

  lemma Widen(lit: Grid, w: nat, reached: map<Cell, int>, n: Cell, v: int, d: int)
    requires Rectangular(lit, w) && ReachedWithin(lit, w, reached, d)
    ensures ReachedWithin(lit, w, reached[n := v], d)
  {
  }

  /** The first `k` neighbours of `c` have been reached. */
  ghost predicate Tried(lit: Grid, w: nat, reached: map<Cell, int>, c: Cell, k: nat) {
    forall j :: 0 <= j < k && j < 4 && InGrid(lit, w, Neighbour(c, j)) ==> Neighbour(c, j) in reached
  }

  /** Reaching one more neighbour of the cell being visited keeps everything but `Closed`
      at that cell. */
  lemma Discover(lit: Grid, w: nat, reached: map<Cell, int>, q: seq<Cell>, head: nat, k: nat,
                 reached': map<Cell, int>, q': seq<Cell>, n: Cell, d: int)
    requires Rectangular(lit, w) && head < |q| && k < 4 && Searching(lit, w, reached, q, head)
    requires n == Neighbour(q[head], k) && InGrid(lit, w, n) && n !in reached && Tried(lit, w, reached, q[head], k)
    requires d == reached[q[head]] && reached' == reached[n := d + 1] && q' == q + [n]
    ensures Searching(lit, w, reached', q', head) && Tried(lit, w, reached', q'[head], k + 1)
  {
    hide Pending;
    WithinOne(lit, w, reached, q, head);
    QueueGrows(reached, q, n, d + 1);
    assert Exact(lit, w, reached') by {
      assert IsDistance(lit, w, q[head], d);
      OneFurther(lit, w, q[head], k, d);
    }
    Widen(lit, w, reached, n, d + 1, 0);
    Widen(lit, w, reached, n, d + 1, d);
    assert forall i :: 0 <= i < |q| ==> q'[i] == q[i];
    assert Closed(lit, w, reached', q', head);
    assert reached'[q'[head]] == d;
    assert Frontier(lit, w, reached', q', head, d);
  }

  /** Moving on to the next queue entry once all four neighbours are reached. */
  lemma Advance(lit: Grid, w: nat, reached: map<Cell, int>, q: seq<Cell>, head: nat)
    requires Rectangular(lit, w) && head < |q| && Searching(lit, w, reached, q, head)
    requires Tried(lit, w, reached, q[head], 4)
    ensures Searching(lit, w, reached, q, head + 1)
  {
    var d := reached[q[head]];
    if head + 1 < |q| && reached[q[head + 1]] == d + 1 {
      assert q[head] in reached;
      NextRing(lit, w, reached, q, head + 1, d);
    }
  }

  /** A background cell is at distance 0, and nothing else is within 0. */
  lemma ZeroDistance(lit: Grid, w: nat, c: Cell)
    requires Rectangular(lit, w)
    ensures Background(lit, w, c) ==> IsDistance(lit, w, c, 0)
    ensures Near(lit, w, c, 0) ==> Background(lit, w, c)
  {
    assert Manhattan(c, c) == 0;
    if Near(lit, w, c, 0) {
      var b :| Background(lit, w, b) && Manhattan(b, c) <= 0;
      assert b == c;
    }
  }

  /** The seeded state is a search about to start. */
  lemma Seeded(lit: Grid, w: nat, reached: map<Cell, int>, q: seq<Cell>)
    requires Rectangular(lit, w) && Queued(reached, q)
    requires forall c {:trigger c in reached} :: c in reached <==> Background(lit, w, c)
    requires forall c :: c in reached ==> reached[c] == 0
    ensures Searching(lit, w, reached, q, 0)
  {
    forall c: Cell
      ensures c in reached ==> InGrid(lit, w, c) && IsDistance(lit, w, c, reached[c])
      ensures Near(lit, w, c, 0) ==> c in reached
    {
      ZeroDistance(lit, w, c);
    }
  }

  /** Seeding: background cells at distance 0, queued; lit cells at the sentinel. */
  method Seed(lit: Grid, w: nat) returns (dist: array2<int>, q: seq<Cell>, ghost reached: map<Cell, int>)
    requires Rectangular(lit, w)
    ensures dist.Length0 == |lit| && dist.Length1 == w && fresh(dist)
    ensures Holds(lit, w, dist, reached) && Queued(reached, q)
    ensures forall c {:trigger c in reached} :: c in reached <==> Background(lit, w, c)
    ensures q == [] ==> forall c :: !Background(lit, w, c)
    ensures forall c :: c in reached ==> reached[c] == 0
  {
    dist := new int[|lit|, w];
    q, reached := [], map[];
    for y := 0 to |lit|
      invariant forall c :: InGrid(lit, w, c) && c.y < y ==> dist[c.y, c.x] == (if c in reached then 0 else INF)
      invariant forall c :: c in reached <==> Background(lit, w, c) && c.y < y
      invariant Queued(reached, q) && forall c :: c in reached ==> reached[c] == 0
    {
      for x := 0 to w
        invariant forall c :: InGrid(lit, w, c) && (c.y < y || (c.y == y && c.x < x)) ==>
          dist[c.y, c.x] == (if c in reached then 0 else INF)
        invariant forall c :: c in reached <==> Background(lit, w, c) && (c.y < y || (c.y == y && c.x < x))
        invariant Queued(reached, q) && forall c :: c in reached ==> reached[c] == 0
      {
        if lit[y][x] {
          dist[y, x] := INF;
        } else {
          dist[y, x] := 0;
          QueueGrows(reached, q, Cell(y, x), 0);
          q, reached := q + [Cell(y, x)], reached[Cell(y, x) := 0];
        }
      }
    }
    assert forall c :: Background(lit, w, c) ==> c in reached && c in q;
  }

  /** Reaches the entry's neighbour in direction `k`, unless it was reached before. */
  method Reach(lit: Grid, w: nat, dist: array2<int>, q0: seq<Cell>, head: nat, k: nat, ghost reached0: map<Cell, int>)
    returns (q: seq<Cell>, ghost reached: map<Cell, int>)
    requires Rectangular(lit, w) && |lit| + w <= INF
    requires dist.Length0 == |lit| && dist.Length1 == w
    requires head < |q0| && Holds(lit, w, dist, reached0) && Searching(lit, w, reached0, q0, head)
    requires k < 4 && Tried(lit, w, reached0, q0[head], k)
    modifies dist
    ensures q0 <= q && Holds(lit, w, dist, reached) && Searching(lit, w, reached, q, head)
    ensures Tried(lit, w, reached, q[head], k + 1)
  {
    hide Frontier, Closed, ReachedWithin;
    q, reached := q0, reached0;
    var c := q[head];
    var n := Neighbour(c, k);
    NoSentinel(lit, w, reached);
    assert InGrid(lit, w, n) && dist[n.y, n.x] != INF ==> n in reached;
    if InGrid(lit, w, n) && dist[n.y, n.x] == INF {
      var d := dist[c.y, c.x];
      dist[n.y, n.x] := d + 1;
      q, reached := q + [n], reached[n := d + 1];
      Discover(lit, w, reached0, q0, head, k, reached, q, n, d);
    }
  }

  /** One queue entry's turn: reach those of its neighbours not reached before. */
  method Visit(lit: Grid, w: nat, dist: array2<int>, q0: seq<Cell>, head: nat, ghost reached0: map<Cell, int>)
    returns (q: seq<Cell>, ghost reached: map<Cell, int>)
    requires Rectangular(lit, w) && |lit| + w <= INF
    requires dist.Length0 == |lit| && dist.Length1 == w
    requires head < |q0| && Holds(lit, w, dist, reached0) && Searching(lit, w, reached0, q0, head)
    modifies dist
    ensures q0 <= q && Holds(lit, w, dist, reached) && Searching(lit, w, reached, q, head + 1)
    ensures Pending(lit, w, q, head + 1) < Pending(lit, w, q0, head)
  {
    hide Pending, Frontier, Closed, ReachedWithin;
    q, reached := q0, reached0;
    for k := 0 to 4
      invariant Holds(lit, w, dist, reached) && Searching(lit, w, reached, q, head)
      invariant q0 <= q && Tried(lit, w, reached, q[head], k)
    {
      q, reached := Reach(lit, w, dist, q, head, k, reached);
    }
    Advance(lit, w, reached, q, head);
    Shrinks(lit, w, q0, q, head);
  }

  /** The search: `dist` ends with every cell's exact distance to the background, and the
      queue it ran through holds every cell of the grid exactly once. A grid without
      background is left untouched at the sentinel. The sentinel must exceed every
      distance the grid can hold. */
  method DistanceTransform(lit: Grid, w: nat) returns (dist: array2<int>, q: seq<Cell>)
    requires Rectangular(lit, w)
    requires |lit| + w <= INF
    ensures dist.Length0 == |lit| && dist.Length1 == w
    ensures q == [] <==> forall b :: !Background(lit, w, b)
    ensures q != [] ==> forall c {:trigger dist[c.y, c.x]} ::
      InGrid(lit, w, c) ==> c in q && IsDistance(lit, w, c, dist[c.y, c.x])
    ensures q == [] ==> forall c :: InGrid(lit, w, c) ==> dist[c.y, c.x] == INF
    ensures forall i, j :: 0 <= i < j < |q| ==> q[i] != q[j]
    ensures forall i :: 0 <= i < |q| ==> InGrid(lit, w, q[i])
  {
    ghost var reached;
    dist, q, reached := Seed(lit, w);
    Seeded(lit, w, reached, q);
    var head := 0;
    while head < |q|
      invariant Holds(lit, w, dist, reached) && Searching(lit, w, reached, q, head)
      invariant q != [] ==> Background(lit, w, q[0])
      invariant q == [] ==> forall b :: !Background(lit, w, b)
      invariant fresh(dist)
      decreases Pending(lit, w, q, head)
    {
      q, reached := Visit(lit, w, dist, q, head, reached);
      head := head + 1;
    }
    if q != [] {
      Complete(lit, w, reached, q);
    }
  }
}
