/**
  Block diagrams as values: the topology that the scheduler orders, the memory that
  the stepper updates, and the plain synchronous meaning both are measured against.

  A block is the pair (out, next): `out` computes the output ports from the block's own
  state and its inputs, `next` computes its new state from its state, its inputs and
  the event word it received.
 */
module Dataflow {
  import opened Events

  /** The content of one port. */
  type Val = seq<real>

  /** The private memory of one block. */
  type State = seq<real>

  /** What one input port is wired to. */
  datatype Source = Unconnected | External(chan: nat) | Direct(src: nat, port: nat)

  datatype CompFunc = CompFunc(
    out: (State, seq<Val>) -> seq<Val>,
    next: (State, seq<Val>, Word) -> State)

  datatype Node = Node(
    dynamic: bool,
    feed: bool,
    ins: seq<Source>,
    comp: CompFunc,
    mask: Word,
    emap: seq<EventNr>)
  {
    /** Blocks at which the scheduler cuts the graph. */
    predicate PureDynamic() { dynamic && !feed }

    /** A block declared without direct feedthrough must compute its outputs from its state alone. */
    ghost predicate HonorsFeed() {
      !feed ==> forall s: State, x: seq<Val> :: comp.out(s, x) == comp.out(s, [])
    }
  }

  type Graph = seq<Node>

  ghost predicate Contract(g: Graph) {
    forall b | 0 <= b < |g| :: g[b].HonorsFeed()
  }

  // ------------------------------------------------------------------ schedules

  /** a is among the first k entries of `order`. */
  ghost predicate Among(order: seq<nat>, k: nat, a: nat)
    requires k <= |order|
  {
    exists m :: 0 <= m < k && order[m] == a
  }

  /** Input i of b is external or driven by one of the first k blocks of `order`. */
  ghost predicate InputReady(g: Graph, b: nat, i: nat, order: seq<nat>, k: nat)
    requires b < |g| && i < |g[b].ins| && k <= |order|
  {
    var s := g[b].ins[i]; s.External? || (s.Direct? && Among(order, k, s.src))
  }

  ghost predicate Ready(g: Graph, b: nat, order: seq<nat>, k: nat)
    requires b < |g| && k <= |order|
  {
    forall i | 0 <= i < |g[b].ins| :: InputReady(g, b, i, order, k)
  }

  ghost predicate InRange(g: Graph, order: seq<nat>) {
    forall k | 0 <= k < |order| :: order[k] < |g|
  }

  ghost predicate Distinct(order: seq<nat>) {
    forall i, j | 0 <= i < j < |order| :: order[i] != order[j]
  }

  /** Position k holds a pure-dynamic block or a block whose direct sources all stand before it. */
  ghost predicate Placed(g: Graph, order: seq<nat>, k: nat)
    requires InRange(g, order) && k < |order|
  {
    g[order[k]].PureDynamic() || Ready(g, order[k], order, k)
  }

  /** No duplicates, and every direct source stands before each block that is not pure-dynamic. */
  ghost predicate ValidSchedule(g: Graph, order: seq<nat>) {
    && InRange(g, order)
    && Distinct(order)
    && forall k | 0 <= k < |order| :: Placed(g, order, k)
  }

  /** Readiness at k depends on the first k entries only. */
  lemma ReadyMonotone(g: Graph, b: nat, o1: seq<nat>, o2: seq<nat>, k: nat)
    requires b < |g| && k <= |o1| && k <= |o2| && forall m | 0 <= m < k :: o1[m] == o2[m]
    ensures Ready(g, b, o1, k) ==> Ready(g, b, o2, k)
  {
    if Ready(g, b, o1, k) {
      forall i | 0 <= i < |g[b].ins| ensures InputReady(g, b, i, o2, k) {
        assert InputReady(g, b, i, o1, k);
      }
    }
  }

  /** Nothing that could be scheduled is missing. */
  ghost predicate CompleteSchedule(g: Graph, order: seq<nat>) {
    forall b | 0 <= b < |g| :: g[b].PureDynamic() || Ready(g, b, order, |order|) ==> b in order
  }

  ghost predicate Feeds(g: Graph, a: nat, b: nat)
    requires b < |g|
  {
    exists i :: 0 <= i < |g[b].ins| && g[b].ins[i].Direct? && g[b].ins[i].src == a
  }

  /** A chain of instantaneous dependences: no block on it is pure-dynamic. */
  ghost predicate InstantPath(g: Graph, p: seq<nat>) {
    && InRange(g, p)
    && (forall k | 0 <= k < |p| :: !g[p[k]].PureDynamic())
    && (forall k | 0 < k < |p| :: Feeds(g, p[k-1], p[k]))
  }

  ghost predicate HasUnconnected(g: Graph, b: nat)
    requires b < |g|
  {
    exists i :: 0 <= i < |g[b].ins| &&
      (g[b].ins[i].Unconnected? || (g[b].ins[i].Direct? && g[b].ins[i].src >= |g|))
  }

  /** p ends in b and starts either on an instantaneous cycle or at a block with an open input. */
  ghost predicate BlockingPath(g: Graph, p: seq<nat>, b: nat) {
    && InstantPath(g, p)
    && |p| > 0 && p[|p|-1] == b
    && (HasUnconnected(g, p[0]) || exists j :: 0 < j < |p| && p[j] == p[0])
  }

  ghost predicate Blocked(g: Graph, b: nat) {
    exists p: seq<nat> :: BlockingPath(g, p, b)
  }

  ghost function IndexIn(order: seq<nat>, b: nat): (k: nat)
    requires b in order
    ensures k < |order| && order[k] == b
  {
    if order[0] == b then 0 else 1 + IndexIn(order[1..], b)
  }

  /** On a scheduled instantaneous path the whole path is scheduled, in path order. */
  lemma {:induction false} PathScheduled(g: Graph, order: seq<nat>, p: seq<nat>, k: nat)
    requires ValidSchedule(g, order) && InstantPath(g, p)
    requires k < |p| && p[|p|-1] in order
    ensures p[k] in order
    ensures k + 1 < |p| ==> p[k+1] in order && IndexIn(order, p[k]) < IndexIn(order, p[k+1])
    decreases |p| - k
  {
    if k + 1 < |p| {
      PathScheduled(g, order, p, k + 1);
      var n := IndexIn(order, p[k+1]);
      assert Feeds(g, p[k], p[k+1]);
      assert Placed(g, order, n);
      var i :| 0 <= i < |g[p[k+1]].ins| && g[p[k+1]].ins[i].Direct? && g[p[k+1]].ins[i].src == p[k];
      assert InputReady(g, p[k+1], i, order, n);
      var m :| 0 <= m < n && order[m] == p[k];
      var m' := IndexIn(order, p[k]);
      assert m' == m;
    }
  }

  lemma {:induction false} PathIncreases(g: Graph, order: seq<nat>, p: seq<nat>, j: nat)
    requires ValidSchedule(g, order) && InstantPath(g, p)
    requires 0 < j < |p| && p[|p|-1] in order
    ensures p[0] in order && p[j] in order && IndexIn(order, p[0]) < IndexIn(order, p[j])
  {
    PathScheduled(g, order, p, j - 1);
    if j > 1 { PathIncreases(g, order, p, j - 1); }
  }

  lemma NoOpenInput(g: Graph, order: seq<nat>, k: nat)
    requires ValidSchedule(g, order) && k < |order| && !g[order[k]].PureDynamic()
    ensures !HasUnconnected(g, order[k])
  {
    var n := g[order[k]];
    assert Placed(g, order, k);
    forall i | 0 <= i < |n.ins| ensures !(n.ins[i].Unconnected? || (n.ins[i].Direct? && n.ins[i].src >= |g|)) {
      assert InputReady(g, order[k], i, order, k);
    }
  }

  lemma ScheduledNotBlocked(g: Graph, order: seq<nat>, b: nat)
    requires ValidSchedule(g, order) && b in order
    ensures !Blocked(g, b)
  {
    if Blocked(g, b) {
      var p: seq<nat> :| BlockingPath(g, p, b);
      PathScheduled(g, order, p, 0);
      if HasUnconnected(g, p[0]) {
        var k := IndexIn(order, p[0]);
        NoOpenInput(g, order, k);
      } else {
        var j :| 0 < j < |p| && p[j] == p[0];
        PathIncreases(g, order, p, j);
      }
    }
  }

  /** Walks backwards from an unscheduled block for as long as it meets no open input. */
  lemma {:induction false} WalkBack(g: Graph, order: seq<nat>, b: nat, n: nat) returns (p: seq<nat>)
    requires CompleteSchedule(g, order) && b < |g| && b !in order
    ensures InstantPath(g, p) && |p| > 0 && p[|p|-1] == b
    ensures forall k | 0 <= k < |p| :: p[k] !in order
    ensures HasUnconnected(g, p[0]) || |p| == n + 1
  {
    if n == 0 {
      p := [b];
    } else {
      p := WalkBack(g, order, b, n - 1);
      if !HasUnconnected(g, p[0]) {
        assert !Ready(g, p[0], order, |order|);
        var i :| 0 <= i < |g[p[0]].ins| && !InputReady(g, p[0], i, order, |order|);
        var q := [g[p[0]].ins[i].src] + p;
        assert Feeds(g, q[0], q[1]);
        p := q;
      }
    }
  }

  /** More than n naturals below n contain a repetition. */
  lemma {:induction false} Pigeonhole(p: seq<nat>, n: nat) returns (i: nat, j: nat)
    requires |p| > n && forall k | 0 <= k < |p| :: p[k] < n
    ensures i < j < |p| && p[i] == p[j]
    decreases n
  {
    if exists k :: 0 <= k < |p| - 1 && p[k] == p[|p|-1] {
      i :| 0 <= i < |p| - 1 && p[i] == p[|p|-1];
      j := |p| - 1;
    } else {
      // Rename the value n-1 to the last element's value, which no other position holds.
      var q := seq(|p| - 1, k requires 0 <= k < |p| - 1 => if p[k] == n - 1 then p[|p|-1] else p[k]);
      i, j := Pigeonhole(q, n - 1);
    }
  }

  lemma UnscheduledBlocked(g: Graph, order: seq<nat>, b: nat)
    requires CompleteSchedule(g, order) && b < |g| && b !in order
    ensures Blocked(g, b)
  {
    var p := WalkBack(g, order, b, |g|);
    if !HasUnconnected(g, p[0]) {
      var i, j := Pigeonhole(p, |g|);
      var q := p[i..];
      assert forall k | 0 < k < |q| :: Feeds(g, q[k-1], q[k]) by {
        forall k | 0 < k < |q| ensures Feeds(g, q[k-1], q[k]) {
          assert q[k-1] == p[i+k-1] && q[k] == p[i+k];
        }
      }
      assert q[j-i] == q[0];
      assert BlockingPath(g, q, b);
    } else {
      assert BlockingPath(g, p, b);
    }
  }

  /**
    A complete valid schedule contains exactly the blocks that no instantaneous cycle and
    no open input reaches.
   */
  lemma ScheduleExact(g: Graph, order: seq<nat>, b: nat)
    requires ValidSchedule(g, order) && CompleteSchedule(g, order) && b < |g|
    ensures b in order <==> !Blocked(g, b)
  {
    if b in order {
      ScheduledNotBlocked(g, order, b);
    } else {
      UnscheduledBlocked(g, order, b);
    }
  }

  // ------------------------------------------------------------------ memory and steps

  /** What the simulation stores between two calls. */
  datatype Mem = Mem(work: seq<State>, cache: seq<seq<Val>>, need: seq<bool>, ext: seq<Val>)

  ghost predicate Shape(g: Graph, m: Mem) {
    |m.work| == |m.cache| == |m.need| == |g|
  }

  function Fetch(s: Source, cache: seq<seq<Val>>, ext: seq<Val>): Val {
    match s
    case Unconnected => []
    case External(c) => if c < |ext| then ext[c] else []
    case Direct(b, o) => if b < |cache| && o < |cache[b]| then cache[b][o] else []
  }

  function Inputs(n: Node, cache: seq<seq<Val>>, ext: seq<Val>): (x: seq<Val>)
    ensures |x| == |n.ins|
  {
    seq(|n.ins|, i requires 0 <= i < |n.ins| => Fetch(n.ins[i], cache, ext))
  }

  /** One visit of the output traversal. */
  function OutputVisit(g: Graph, m: Mem, b: nat): (m': Mem)
    requires Shape(g, m) && b < |g|
    ensures Shape(g, m') && m'.work == m.work && m'.ext == m.ext
  {
    var y := g[b].comp.out(m.work[b], Inputs(g[b], m.cache, m.ext));
    if g[b].feed then m.(cache := m.cache[b := y])
    else if m.need[b] then m.(cache := m.cache[b := y], need := m.need[b := false])
    else m
  }

  /** The first k visits of the output traversal. */
  function OutputPhase(g: Graph, m: Mem, order: seq<nat>, k: nat): (m': Mem)
    requires Shape(g, m) && InRange(g, order) && k <= |order|
    ensures Shape(g, m') && m'.work == m.work && m'.ext == m.ext
  {
    if k == 0 then m else OutputVisit(g, OutputPhase(g, m, order, k - 1), order[k-1])
  }

  /** One visit of the state-update traversal. */
  function UpdateVisit(g: Graph, m: Mem, active: Word, b: nat): (m': Mem)
    requires Shape(g, m) && b < |g|
    ensures Shape(g, m') && m'.cache == m.cache && m'.ext == m.ext
  {
    if Triggered(active, g[b].mask) then
      var x := Inputs(g[b], m.cache, m.ext);
      m.(work := m.work[b := g[b].comp.next(m.work[b], x, Mapped(active, g[b].emap))],
         need := m.need[b := true])
    else m
  }

  /** The first k visits of the state-update traversal. */
  function UpdatePhase(g: Graph, m: Mem, active: Word, sup: seq<nat>, k: nat): (m': Mem)
    requires Shape(g, m) && InRange(g, sup) && k <= |sup|
    ensures Shape(g, m') && m'.cache == m.cache && m'.ext == m.ext
  {
    if k == 0 then m else UpdateVisit(g, UpdatePhase(g, m, active, sup, k - 1), active, sup[k-1])
  }

  // ------------------------------------------------------------------ meaning of one output phase

  /** `cache` satisfies the equation of the block at position k. */
  ghost predicate SolvesAt(g: Graph, live: seq<nat>, k: nat, work: seq<State>, ext: seq<Val>, cache: seq<seq<Val>>)
    requires |work| == |g| && |cache| == |g| && InRange(g, live) && k < |live|
  {
    var b := live[k]; cache[b] == g[b].comp.out(work[b], Inputs(g[b], cache, ext))
  }

  /** `cache` satisfies the block equation of every block in `live`. */
  ghost predicate Solves(g: Graph, live: seq<nat>, work: seq<State>, ext: seq<Val>, cache: seq<seq<Val>>)
    requires |work| == |g| && |cache| == |g| && InRange(g, live)
  {
    forall k | 0 <= k < |live| :: SolvesAt(g, live, k, work, ext, cache)
  }

  /** Skipping a block whose flag is down is harmless: its cache already shows its state. */
  ghost predicate Fresh(g: Graph, m: Mem)
    requires Shape(g, m)
  {
    forall b | 0 <= b < |g| :: !g[b].feed && !m.need[b] ==> m.cache[b] == g[b].comp.out(m.work[b], [])
  }

  /** A block equation survives a change of the caches that its instantaneous sources do not see. */
  lemma OutAgrees(g: Graph, order: seq<nat>, k: nat, s: State, c1: seq<seq<Val>>, c2: seq<seq<Val>>, ext: seq<Val>)
    requires Contract(g) && ValidSchedule(g, order) && k < |order| && |c1| == |c2| == |g|
    requires forall m | 0 <= m < k :: c1[order[m]] == c2[order[m]]
    ensures var n := g[order[k]]; n.comp.out(s, Inputs(n, c1, ext)) == n.comp.out(s, Inputs(n, c2, ext))
  {
    var n := g[order[k]];
    assert n.HonorsFeed();
    assert Placed(g, order, k);
    if !n.PureDynamic() {
      forall i | 0 <= i < |n.ins| ensures Fetch(n.ins[i], c1, ext) == Fetch(n.ins[i], c2, ext) {
        assert InputReady(g, order[k], i, order, k);
      }
      assert Inputs(n, c1, ext) == Inputs(n, c2, ext);
    }
  }

  lemma {:induction false} OutputPhaseFrame(g: Graph, m: Mem, order: seq<nat>, k: nat, b: nat)
    requires Shape(g, m) && InRange(g, order) && k <= |order| && b < |g|
    requires forall i | 0 <= i < k :: order[i] != b
    ensures OutputPhase(g, m, order, k).cache[b] == m.cache[b]
    ensures OutputPhase(g, m, order, k).need[b] == m.need[b]
  {
    if k > 0 {
      OutputPhaseFrame(g, m, order, k - 1, b);
    }
  }

  /** The first k visits solve the equations of the first k blocks and leave no wrong flag. */
  lemma {:induction false} OutputPhasePrefix(g: Graph, m: Mem, order: seq<nat>, k: nat)
    requires Shape(g, m) && Contract(g) && ValidSchedule(g, order) && Fresh(g, m) && k <= |order|
    ensures Fresh(g, OutputPhase(g, m, order, k))
    ensures forall i | 0 <= i < k :: SolvesAt(g, order, i, m.work, m.ext, OutputPhase(g, m, order, k).cache)
  {
    if k > 0 {
      OutputPhasePrefix(g, m, order, k - 1);
      var mid, fin := OutputPhase(g, m, order, k - 1), OutputPhase(g, m, order, k);
      assert g[order[k-1]].HonorsFeed();
      forall i | 0 <= i < k ensures SolvesAt(g, order, i, m.work, m.ext, fin.cache) {
        OutAgrees(g, order, i, m.work[order[i]], mid.cache, fin.cache, m.ext);
        assert i < k - 1 ==> SolvesAt(g, order, i, m.work, m.ext, mid.cache);
      }
    }
  }

  /**
    One output phase over a valid schedule leaves the caches at a solution of all block
    equations at once, although pure-dynamic blocks are visited while their inputs are old
    and blocks with a lowered flag are not visited at all.
   */
  lemma OutputPhaseSolves(g: Graph, m: Mem, order: seq<nat>)
    requires Shape(g, m) && Contract(g) && ValidSchedule(g, order) && Fresh(g, m)
    ensures Solves(g, order, m.work, m.ext, OutputPhase(g, m, order, |order|).cache)
    ensures Fresh(g, OutputPhase(g, m, order, |order|))
  {
    OutputPhasePrefix(g, m, order, |order|);
  }

  /** A block whose flag is down is not visited, so its cache stays as it was. */
  lemma {:induction false} LoweredUnvisited(g: Graph, m: Mem, order: seq<nat>, k: nat, b: nat)
    requires Shape(g, m) && InRange(g, order) && k <= |order| && b < |g| && !g[b].feed && !m.need[b]
    ensures OutputPhase(g, m, order, k).cache[b] == m.cache[b] && !OutputPhase(g, m, order, k).need[b]
  {
    if k > 0 { LoweredUnvisited(g, m, order, k - 1, b); }
  }

  /** Skipping blocks is right exactly when no lowered flag stands before an old output. */
  lemma LazyExact(g: Graph, m: Mem, order: seq<nat>)
    requires Shape(g, m) && Contract(g) && ValidSchedule(g, order) && forall b: nat | b < |g| :: b in order
    ensures Solves(g, order, m.work, m.ext, OutputPhase(g, m, order, |order|).cache) <==> Fresh(g, m)
  {
    var fin := OutputPhase(g, m, order, |order|).cache;
    if Fresh(g, m) {
      OutputPhaseSolves(g, m, order);
    } else {
      var b :| 0 <= b < |g| && !g[b].feed && !m.need[b] && m.cache[b] != g[b].comp.out(m.work[b], []);
      var k := IndexIn(order, b);
      LoweredUnvisited(g, m, order, |order|, b);
      assert g[b].HonorsFeed();
      assert !SolvesAt(g, order, k, m.work, m.ext, fin);
    }
  }

  /** libdyn_simulation_resetblocks: the states are reset, the flags are not raised. */
  function Reset(m: Mem, initial: seq<State>): Mem { m.(work := initial) }

  /** After a reset the next outputs are right exactly when every lowered block shows its initial outputs already. */
  lemma ResetExact(g: Graph, m: Mem, order: seq<nat>, initial: seq<State>)
    requires Shape(g, m) && Contract(g) && ValidSchedule(g, order) && forall b: nat | b < |g| :: b in order
    requires |initial| == |g|
    ensures Solves(g, order, initial, m.ext, OutputPhase(g, Reset(m, initial), order, |order|).cache) <==>
            forall b | 0 <= b < |g| :: !g[b].feed && !m.need[b] ==> m.cache[b] == g[b].comp.out(initial[b], [])
  {
    LazyExact(g, Reset(m, initial), order);
  }

  /** A block that shows its state, stepped and reset without an update in between, keeps its old output. */
  lemma ResetExample()
    ensures var n := Node(true, false, [], CompFunc((s, x) => [s], (s, x, e) => s), {0}, [0]);
            var m := Mem([[1.0]], [[[1.0]]], [false], []);
            && Fresh([n], m)
            && OutputPhase([n], Reset(m, [[0.0]]), [0], 1).cache == [[[1.0]]]
  {
    var n := Node(true, false, [], CompFunc((s, x) => [s], (s, x, e) => s), {0}, [0]);
    var m := Reset(Mem([[1.0]], [[[1.0]]], [false], []), [[0.0]]);
    assert OutputPhase([n], m, [0], 0) == m;
  }

  /** The block equations of a valid schedule have at most one solution. */
  lemma {:induction false} SolutionUnique(g: Graph, order: seq<nat>, work: seq<State>, ext: seq<Val>,
                       c1: seq<seq<Val>>, c2: seq<seq<Val>>, k: nat)
    requires Contract(g) && ValidSchedule(g, order)
    requires |work| == |c1| == |c2| == |g|
    requires Solves(g, order, work, ext, c1) && Solves(g, order, work, ext, c2)
    requires k <= |order|
    ensures forall i | 0 <= i < k :: c1[order[i]] == c2[order[i]]
  {
    if k > 0 {
      SolutionUnique(g, order, work, ext, c1, c2, k - 1);
      assert SolvesAt(g, order, k - 1, work, ext, c1) && SolvesAt(g, order, k - 1, work, ext, c2);
      OutAgrees(g, order, k - 1, work[order[k-1]], c1, c2, ext);
    }
  }

  // ------------------------------------------------------------------ meaning of one update phase

  /** The state-update list holds every dynamic block once, in any order. */
  ghost predicate ValidSup(g: Graph, sup: seq<nat>) {
    && InRange(g, sup)
    && Distinct(sup)
    && forall b | 0 <= b < |g| :: b in sup <==> g[b].dynamic
  }

  /** The simultaneous update: every state is computed from the caches of the same instant. */
  function NextState(n: Node, s: State, cache: seq<seq<Val>>, ext: seq<Val>, active: Word): State {
    if n.dynamic && Triggered(active, n.mask)
    then n.comp.next(s, Inputs(n, cache, ext), Mapped(active, n.emap))
    else s
  }

  lemma {:induction false} UpdatePhasePrefix(g: Graph, m: Mem, active: Word, sup: seq<nat>, k: nat, b: nat)
    requires Shape(g, m) && ValidSup(g, sup) && k <= |sup| && b < |g|
    ensures var m' := UpdatePhase(g, m, active, sup, k);
            && m'.work[b] ==
                 (if Among(sup, k, b) then NextState(g[b], m.work[b], m.cache, m.ext, active) else m.work[b])
            && m'.need[b] == (m.need[b] || (Among(sup, k, b) && Triggered(active, g[b].mask)))
  {
    if k > 0 {
      UpdatePhasePrefix(g, m, active, sup, k - 1, b);
      assert Among(sup, k, b) <==> Among(sup, k - 1, b) || b == sup[k-1];
      assert b == sup[k-1] ==> b in sup;
    }
  }

  /** Traversing the update list in any order is the simultaneous update of all states. */
  lemma UpdatePhaseSimultaneous(g: Graph, m: Mem, active: Word, sup: seq<nat>)
    requires Shape(g, m) && ValidSup(g, sup)
    ensures var m' := UpdatePhase(g, m, active, sup, |sup|);
            forall b | 0 <= b < |g| ::
              m'.work[b] == NextState(g[b], m.work[b], m.cache, m.ext, active) &&
              m'.need[b] == (m.need[b] || (g[b].dynamic && Triggered(active, g[b].mask)))
  {
    forall b | 0 <= b < |g|
      ensures var m' := UpdatePhase(g, m, active, sup, |sup|);
              m'.work[b] == NextState(g[b], m.work[b], m.cache, m.ext, active) &&
              m'.need[b] == (m.need[b] || (g[b].dynamic && Triggered(active, g[b].mask)))
    {
      UpdatePhasePrefix(g, m, active, sup, |sup|, b);
      assert Among(sup, |sup|, b) <==> b in sup;
    }
  }

  lemma UpdateOrderIrrelevant(g: Graph, m: Mem, active: Word, sup1: seq<nat>, sup2: seq<nat>)
    requires Shape(g, m) && ValidSup(g, sup1) && ValidSup(g, sup2)
    ensures UpdatePhase(g, m, active, sup1, |sup1|) == UpdatePhase(g, m, active, sup2, |sup2|)
  {
    UpdatePhaseSimultaneous(g, m, active, sup1);
    UpdatePhaseSimultaneous(g, m, active, sup2);
    assert UpdatePhase(g, m, active, sup1, |sup1|).work == UpdatePhase(g, m, active, sup2, |sup2|).work;
    assert UpdatePhase(g, m, active, sup1, |sup1|).need == UpdatePhase(g, m, active, sup2, |sup2|).need;
  }

  // ------------------------------------------------------------------ whole runs

  /** One call of the stepper: an output phase on given external inputs, or a state update. */
  datatype Action = Output(ext: seq<Val>) | Update(active: Word)

  /** Every state update directly follows an output phase. */
  ghost predicate Paired(acts: seq<Action>) {
    forall k | 0 <= k < |acts| :: acts[k].Update? ==> k > 0 && acts[k-1].Output?
  }

  function Step(g: Graph, order: seq<nat>, sup: seq<nat>, m: Mem, a: Action): (m': Mem)
    requires Shape(g, m) && InRange(g, order) && InRange(g, sup)
    ensures Shape(g, m')
  {
    match a
    case Output(ext) => OutputPhase(g, m.(ext := ext), order, |order|)
    case Update(active) => UpdatePhase(g, m, active, sup, |sup|)
  }

  /** The memory after the first k actions. */
  function Run(g: Graph, order: seq<nat>, sup: seq<nat>, m: Mem, acts: seq<Action>, k: nat): (m': Mem)
    requires Shape(g, m) && InRange(g, order) && InRange(g, sup) && k <= |acts|
    ensures Shape(g, m')
  {
    if k == 0 then m else Step(g, order, sup, Run(g, order, sup, m, acts, k - 1), acts[k-1])
  }

  /** A state of the eager synchronous reference: no flags, no stale outputs. */
  datatype Ref = Ref(work: seq<State>, cache: seq<seq<Val>>, ext: seq<Val>)

  ghost predicate RefStep(g: Graph, live: seq<nat>, r: Ref, a: Action, r': Ref)
    requires InRange(g, live)
  {
    && |r.work| == |r.cache| == |r'.work| == |r'.cache| == |g|
    && match a
       case Output(ext) =>
         && r'.work == r.work
         && r'.ext == ext
         && Solves(g, live, r'.work, ext, r'.cache)
         && (forall b | 0 <= b < |g| && b !in live :: r'.cache[b] == r.cache[b])
       case Update(active) =>
         && Solves(g, live, r.work, r.ext, r.cache)
         && r'.cache == r.cache && r'.ext == r.ext
         && (forall b | 0 <= b < |g| ::
               r'.work[b] == NextState(g[b], r.work[b], r.cache, r.ext, active))
  }

  function Observe(m: Mem): Ref { Ref(m.work, m.cache, m.ext) }

  /** What arrives at an input: the named output of the named block, or the named user memory. */
  predicate Arrives(s: Source, cache: seq<seq<Val>>, ext: seq<Val>, v: Val) {
    if s.Direct? && s.src < |cache| && s.port < |cache[s.src]| then v == cache[s.src][s.port]
    else if s.External? && s.chan < |ext| then v == ext[s.chan]
    else v == []
  }

  predicate AllArrive(n: Node, cache: seq<seq<Val>>, ext: seq<Val>, x: seq<Val>) {
    |x| == |n.ins| && forall i | 0 <= i < |x| :: Arrives(n.ins[i], cache, ext, x[i])
  }

  /** The inputs of a block are exactly what arrives. */
  lemma InputsArrive(n: Node, cache: seq<seq<Val>>, ext: seq<Val>, x: seq<Val>)
    ensures x == Inputs(n, cache, ext) <==> AllArrive(n, cache, ext, x)
  {
    forall i | 0 <= i < |n.ins| ensures Arrives(n.ins[i], cache, ext, Inputs(n, cache, ext)[i]) {
    }
  }

  ghost predicate RefShape(g: Graph, r: Ref) { |r.work| == |r.cache| == |g| }

  /** Block b, if it is live, shows what it computes from its state and x, if x is what arrives. */
  ghost predicate ShowsOut(g: Graph, live: seq<nat>, r: Ref, b: nat, x: seq<Val>)
    requires RefShape(g, r) && b < |g|
  {
    b in live && AllArrive(g[b], r.cache, r.ext, x) ==> r.cache[b] == g[b].comp.out(r.work[b], x)
  }

  lemma SolvesExactly(g: Graph, live: seq<nat>, r: Ref)
    requires RefShape(g, r) && InRange(g, live)
    ensures Solves(g, live, r.work, r.ext, r.cache) <==>
            forall b: nat, x: seq<Val> | b < |g| :: ShowsOut(g, live, r, b, x)
  {
    if Solves(g, live, r.work, r.ext, r.cache) {
      forall b: nat, x: seq<Val> | b < |g| ensures ShowsOut(g, live, r, b, x) {
        InputsArrive(g[b], r.cache, r.ext, x);
        if b in live { assert SolvesAt(g, live, IndexIn(live, b), r.work, r.ext, r.cache); }
      }
    }
    if forall b: nat, x: seq<Val> | b < |g| :: ShowsOut(g, live, r, b, x) {
      forall k | 0 <= k < |live| ensures SolvesAt(g, live, k, r.work, r.ext, r.cache) {
        var x := Inputs(g[live[k]], r.cache, r.ext);
        InputsArrive(g[live[k]], r.cache, r.ext, x);
        assert live[k] in live && ShowsOut(g, live, r, live[k], x);
      }
    }
  }

  /** An output step takes the inputs, keeps the states, and makes every live block show what it computes. */
  lemma OutputStepExactly(g: Graph, live: seq<nat>, r: Ref, ext: seq<Val>, r': Ref)
    requires RefShape(g, r) && RefShape(g, r') && InRange(g, live)
    ensures RefStep(g, live, r, Output(ext), r') <==>
            && r'.work == r.work && r'.ext == ext
            && (forall b | 0 <= b < |g| && b !in live :: r'.cache[b] == r.cache[b])
            && (forall b: nat, x: seq<Val> | b < |g| :: ShowsOut(g, live, r', b, x))
  {
    SolvesExactly(g, live, r');
  }

  /** Bit i of the word is the activity of the event that was registered as the i-th one. */
  ghost predicate EventWord(active: Word, emap: seq<EventNr>, w: Word) {
    forall i: nat :: i in w <==> i < |emap| && i < 32 && emap[i] in active
  }

  /** An event of the mask is active, and event 31 is not active in it. */
  ghost predicate Fires(active: Word, mask: Word) {
    (exists e: nat :: e in active && e in mask) && !(31 in active && 31 in mask)
  }

  /** Block b takes the next state that it computes from its state, the arriving x and its event word w, if it fires. */
  ghost predicate TakesNext(g: Graph, r: Ref, active: Word, r': Ref, b: nat, x: seq<Val>, w: Word)
    requires RefShape(g, r) && RefShape(g, r') && b < |g|
  {
    AllArrive(g[b], r.cache, r.ext, x) && EventWord(active, g[b].emap, w) ==>
      r'.work[b] == if g[b].dynamic && Fires(active, g[b].mask) then g[b].comp.next(r.work[b], x, w) else r.work[b]
  }

  /** A state update follows outputs that are up to date, and keeps them; dynamic blocks that fire take a next state. */
  lemma UpdateStepExactly(g: Graph, live: seq<nat>, r: Ref, active: Word, r': Ref)
    requires RefShape(g, r) && RefShape(g, r') && InRange(g, live)
    ensures RefStep(g, live, r, Update(active), r') <==>
            && r'.cache == r.cache && r'.ext == r.ext
            && (forall b: nat, x: seq<Val> | b < |g| :: ShowsOut(g, live, r, b, x))
            && (forall b: nat, x: seq<Val>, w: Word | b < |g| :: TakesNext(g, r, active, r', b, x, w))
  {
    SolvesExactly(g, live, r);
    if forall b: nat, x: seq<Val>, w: Word | b < |g| :: TakesNext(g, r, active, r', b, x, w) {
      forall b | 0 <= b < |g| ensures r'.work[b] == NextState(g[b], r.work[b], r.cache, r.ext, active) {
        var x, w := Inputs(g[b], r.cache, r.ext), Mapped(active, g[b].emap);
        InputsArrive(g[b], r.cache, r.ext, x);
        FiresExactly(active, g[b].mask);
        assert TakesNext(g, r, active, r', b, x, w);
      }
    }
    if forall b | 0 <= b < |g| :: r'.work[b] == NextState(g[b], r.work[b], r.cache, r.ext, active) {
      forall b: nat, x: seq<Val>, w: Word | b < |g| ensures TakesNext(g, r, active, r', b, x, w) {
        InputsArrive(g[b], r.cache, r.ext, x);
        FiresExactly(active, g[b].mask);
        if EventWord(active, g[b].emap, w) { assert w == Mapped(active, g[b].emap); }
      }
    }
  }

  lemma FiresExactly(active: Word, mask: Word)
    ensures Triggered(active, mask) <==> Fires(active, mask)
  {
    if e: nat :| e in active && e in mask { assert e in active * mask; }
  }

  /** After every prefix the flags are right, and after an output phase nothing is stale. */
  lemma {:induction false} RunInvariant(g: Graph, order: seq<nat>, sup: seq<nat>, m: Mem, acts: seq<Action>, k: nat)
    requires Shape(g, m) && Contract(g) && ValidSchedule(g, order) && ValidSup(g, sup) && Fresh(g, m)
    requires k <= |acts|
    ensures Fresh(g, Run(g, order, sup, m, acts, k))
    ensures k > 0 && acts[k-1].Output? ==>
              var m' := Run(g, order, sup, m, acts, k);
              Solves(g, order, m'.work, m'.ext, m'.cache)
  {
    if k > 0 {
      RunInvariant(g, order, sup, m, acts, k - 1);
      var before := Run(g, order, sup, m, acts, k - 1);
      match acts[k-1]
      case Output(ext) => OutputPhaseSolves(g, before.(ext := ext), order);
      case Update(active) => UpdatePhaseSimultaneous(g, before, active, sup);
    }
  }

  /**
    Lazy stepping refines the synchronous reference: on every graph, from every memory whose
    flags are right, and for every run whose updates directly follow an output phase, each
    call of the stepper is a step of the reference.
   */
  lemma LazyRefinesReference(g: Graph, order: seq<nat>, sup: seq<nat>, m: Mem, acts: seq<Action>, k: nat)
    requires Shape(g, m) && Contract(g) && ValidSchedule(g, order) && ValidSup(g, sup) && Fresh(g, m)
    requires Paired(acts) && k < |acts|
    ensures RefStep(g, order, Observe(Run(g, order, sup, m, acts, k)), acts[k],
                    Observe(Run(g, order, sup, m, acts, k + 1)))
  {
    RunInvariant(g, order, sup, m, acts, k);
    RunInvariant(g, order, sup, m, acts, k + 1);
    var before := Run(g, order, sup, m, acts, k);
    match acts[k]
    case Output(ext) =>
      forall b | 0 <= b < |g| && b !in order
        ensures OutputPhase(g, before.(ext := ext), order, |order|).cache[b] == before.cache[b]
      {
        OutputPhaseFrame(g, before.(ext := ext), order, |order|, b);
      }
    case Update(active) => UpdatePhaseSimultaneous(g, before, active, sup);
  }

  /** The reference is a function: equal starts and equal actions give equal states and outputs. */
  lemma ReferenceDeterministic(g: Graph, order: seq<nat>, r1: Ref, r2: Ref, a: Action, r1': Ref, r2': Ref)
    requires Contract(g) && ValidSchedule(g, order)
    requires r1 == r2 && RefStep(g, order, r1, a, r1') && RefStep(g, order, r2, a, r2')
    ensures r1' == r2'
  {
    match a
    case Output(ext) =>
      SolutionUnique(g, order, r1'.work, ext, r1'.cache, r2'.cache, |order|);
      forall b | 0 <= b < |g| ensures r1'.cache[b] == r2'.cache[b] {
        if b in order { var k := IndexIn(order, b); }
      }
      assert r1'.cache == r2'.cache;
    case Update(active) =>
      assert r1'.work == r2'.work;
  }

  ghost predicate TraceStep(g: Graph, live: seq<nat>, trace: seq<Ref>, acts: seq<Action>, k: nat)
    requires InRange(g, live)
  {
    k < |acts| && k + 1 < |trace| && RefStep(g, live, trace[k], acts[k], trace[k+1])
  }

  /** A whole run of the reference. */
  ghost predicate RefTrace(g: Graph, live: seq<nat>, trace: seq<Ref>, acts: seq<Action>)
    requires InRange(g, live)
  {
    |trace| == |acts| + 1 && forall k: nat | k < |acts| :: TraceStep(g, live, trace, acts, k)
  }

  /** The lazy machine computes the one run that the reference has from the same start. */
  lemma {:induction false} RunIsTheTrace(
    g: Graph, order: seq<nat>, sup: seq<nat>, m: Mem, acts: seq<Action>, trace: seq<Ref>, k: nat)
    requires Shape(g, m) && Contract(g) && ValidSchedule(g, order) && ValidSup(g, sup) && Fresh(g, m)
    requires Paired(acts) && k <= |acts|
    requires RefTrace(g, order, trace, acts) && trace[0] == Observe(m)
    ensures Observe(Run(g, order, sup, m, acts, k)) == trace[k]
  {
    if k > 0 {
      RunIsTheTrace(g, order, sup, m, acts, trace, k - 1);
      LazyRefinesReference(g, order, sup, m, acts, k - 1);
      assert TraceStep(g, order, trace, acts, k - 1);
      ReferenceDeterministic(g, order, trace[k-1], trace[k-1], acts[k-1],
                             Observe(Run(g, order, sup, m, acts, k)), trace[k]);
    }
  }

  function Observed(g: Graph, order: seq<nat>, sup: seq<nat>, m: Mem, acts: seq<Action>): (trace: seq<Ref>)
    requires Shape(g, m) && InRange(g, order) && InRange(g, sup)
    ensures |trace| == |acts| + 1 && trace[0] == Observe(m)
    ensures forall k: nat | k <= |acts| :: trace[k] == Observe(Run(g, order, sup, m, acts, k))
  {
    seq(|acts| + 1, k requires 0 <= k <= |acts| => Observe(Run(g, order, sup, m, acts, k)))
  }

  /** Such a run exists: the machine's own. */
  lemma TraceExists(g: Graph, order: seq<nat>, sup: seq<nat>, m: Mem, acts: seq<Action>)
    requires Shape(g, m) && Contract(g) && ValidSchedule(g, order) && ValidSup(g, sup) && Fresh(g, m) && Paired(acts)
    ensures RefTrace(g, order, Observed(g, order, sup, m, acts), acts)
  {
    forall k: nat | k < |acts| ensures TraceStep(g, order, Observed(g, order, sup, m, acts), acts, k) {
      LazyRefinesReference(g, order, sup, m, acts, k);
    }
  }

  /** The reference means the same under every complete valid schedule. */
  lemma AnySchedule(g: Graph, o1: seq<nat>, o2: seq<nat>, trace: seq<Ref>, acts: seq<Action>)
    requires ValidSchedule(g, o1) && CompleteSchedule(g, o1) && ValidSchedule(g, o2) && CompleteSchedule(g, o2)
    requires RefTrace(g, o1, trace, acts)
    ensures RefTrace(g, o2, trace, acts)
  {
    forall b | 0 <= b < |g| ensures b in o1 <==> b in o2 {
      ScheduleExact(g, o1, b);
      ScheduleExact(g, o2, b);
    }
    forall k: nat | k < |acts| ensures TraceStep(g, o2, trace, acts, k) {
      assert TraceStep(g, o1, trace, acts, k);
      SameSolutions(g, o1, o2, trace[k]);
      SameSolutions(g, o1, o2, trace[k+1]);
    }
  }

  lemma SameSolutions(g: Graph, o1: seq<nat>, o2: seq<nat>, r: Ref)
    requires InRange(g, o1) && InRange(g, o2) && (forall b | 0 <= b < |g| :: b in o1 <==> b in o2)
    requires |r.work| == |r.cache| == |g|
    ensures Solves(g, o1, r.work, r.ext, r.cache) ==> Solves(g, o2, r.work, r.ext, r.cache)
  {
    forall k | 0 <= k < |o2| && Solves(g, o1, r.work, r.ext, r.cache)
      ensures SolvesAt(g, o2, k, r.work, r.ext, r.cache)
    {
      assert SolvesAt(g, o1, IndexIn(o1, o2[k]), r.work, r.ext, r.cache);
    }
  }
}
