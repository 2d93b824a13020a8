/**
  The execution list as the source computes it, on counters of missing inputs: on the junction lists of
  a wired network this is a complete valid schedule, and with an overwritten connection it need not be.
 */
module Countdown {
  import opened Dataflow
  import opened Wiring
  import opened Scheduling

  /** The list and, for each block, the number of inputs that are missing; failed: a loop was reported. */
  datatype Counting = Counting(order: seq<nat>, remaining: seq<int>, failed: bool)
  {
    /** libdyn_setup_executionlist_setandcheck_avail, and listing the block when its counter reaches zero. */
    function CountDown(g: Graph, p: Plug): Counting {
      if failed || p.block >= |remaining| || p.block >= |g| then this
      else
        var n := remaining[p.block] - 1;
        var c := this.(remaining := remaining[p.block := n]);
        if n != 0 then c
        else if p.block !in order then c.(order := order + [p.block])
        else c.(failed := g[p.block].feed)
    }

    /** The first j inputs of a junction list. */
    function CountList(g: Graph, l: seq<Plug>, j: nat): Counting
      requires j <= |l|
    {
      if j == 0 then this else CountList(g, l, j - 1).CountDown(g, l[j-1])
    }

    /** The first o outputs of a block. */
    function CountOutputs(g: Graph, lists: seq<seq<Plug>>, o: nat): Counting
      requires o <= |lists|
    {
      if o == 0 then this
      else CountOutputs(g, lists, o - 1).CountList(g, lists[o-1], |lists[o-1]|)
    }

    /** The first k blocks of the list, which grows meanwhile. */
    function CountBlocks(g: Graph, junctions: seq<seq<seq<Plug>>>, k: nat): Counting {
      if k == 0 then this
      else
        var c := CountBlocks(g, junctions, k - 1);
        if k <= |c.order| && c.order[k-1] < |junctions| then
          c.CountOutputs(g, junctions[c.order[k-1]], |junctions[c.order[k-1]]|)
        else c
    }
  }

  /** The inputs that are available at first. */
  function ExternalInputs(n: Node): (a: seq<bool>)
    ensures |a| == |n.ins|
  {
    seq(|n.ins|, i requires 0 <= i < |n.ins| => n.ins[i].External?)
  }

  function AllExternal(g: Graph): (avail: seq<seq<bool>>)
    ensures |avail| == |g|
  {
    seq(|g|, b requires 0 <= b < |g| => ExternalInputs(g[b]))
  }

  /** The first pass over the first k blocks: those without a missing input. */
  function FirstPass(g: Graph, k: nat): (order: seq<nat>)
    requires k <= |g|
    ensures Distinct(order) && forall b: nat :: b in order <==> b < k && CountFalse(ExternalInputs(g[b])) == 0
  {
    if k == 0 then []
    else if CountFalse(ExternalInputs(g[k-1])) == 0 then FirstPass(g, k - 1) + [k - 1]
    else FirstPass(g, k - 1)
  }

  /** The second pass: pure-dynamic blocks. */
  function SecondPass(g: Graph, k: nat): (order: seq<nat>)
    requires k <= |g|
    ensures Distinct(order)
    ensures forall b: nat :: b in order <==>
      b < |g| && (CountFalse(ExternalInputs(g[b])) == 0 || (b < k && g[b].PureDynamic()))
  {
    if k == 0 then FirstPass(g, |g|)
    else if g[k-1].PureDynamic() && k - 1 !in SecondPass(g, k - 1) then SecondPass(g, k - 1) + [k - 1]
    else SecondPass(g, k - 1)
  }

  function Start(g: Graph): Counting {
    Counting(SecondPass(g, |g|), seq(|g|, b requires 0 <= b < |g| => CountFalse(ExternalInputs(g[b]))), false)
  }

  /** libdyn_setup_executionlist; the list has at most |g| blocks. */
  function ListOf(g: Graph, junctions: seq<seq<seq<Plug>>>): Counting {
    Start(g).CountBlocks(g, junctions, |g|)
  }

  // ------------------------------------------------------------------ wired networks

  ghost predicate CountsBlock(c: Counting, w: Worklist, b: nat)
    requires b < |c.remaining| == |w.avail|
  {
    c.remaining[b] == CountFalse(w.avail[b])
  }

  /** The counters count what the worklist has not marked. */
  ghost predicate Counts(c: Counting, w: Worklist) {
    && c.order == w.order && !c.failed && |c.remaining| == |w.avail|
    && forall b: nat | b < |w.avail| :: CountsBlock(c, w, b)
  }

  lemma CountsAsMarked(g: Graph, c: Counting, w: Worklist, p: Plug)
    requires Counts(c, w) && w.Has(p) && !w.IsMarked(p) && p.block < |g|
    requires w.Completes(p) && p.block in w.order ==> !g[p.block].feed
    ensures Counts(c.CountDown(g, p), w.Mark(p))
  {
    CountSet(w.avail[p.block], p.input);
    assert CountsBlock(c, w, p.block);
    forall b: nat | b < |w.avail| ensures CountsBlock(c.CountDown(g, p), w.Mark(p), b) {
      assert CountsBlock(c, w, b);
    }
  }

  lemma {:induction false} CountsListAsMarked(bs: seq<Block>, g: Graph, c: Counting, w: Worklist, l: seq<Plug>, j: nat)
    requires Counts(c, w) && |w.avail| == |g| == |bs| && j <= |l|
    requires forall b | 0 <= b < |g| :: g[b].feed == bs[b].feed
    requires forall i | 0 <= i < |l| :: w.CanMark(l, i) && !LoopAt(bs, w, l, i)
    ensures Counts(c.CountList(g, l, j), w.MarkAll(l, j)) && |w.MarkAll(l, j).avail| == |g|
  {
    if j > 0 {
      CountsListAsMarked(bs, g, c, w, l, j - 1);
      assert w.CanMark(l, j - 1);
      CountsAsMarked(g, c.CountList(g, l, j - 1), w.MarkAll(l, j - 1), l[j-1]);
    }
  }

  /** A right worklist that the counters count and that has handled k blocks and o outputs of the next. */
  ghost predicate At(g: Graph, c: Counting, w: Worklist, k: nat, o: nat) {
    Counts(c, w) && Right(g, w) && k <= |w.order| && Handled(g, w, k, o)
  }

  lemma {:induction false} CountsOutputs(
    bs: seq<Block>, wires: Wires, g: Graph, c: Counting, w: Worklist, k: nat, o: nat) returns (w': Worklist)
    requires Depicts(bs, wires, g) && At(g, c, w, k, 0) && k < |w.order|
    requires o <= |wires.junctions[w.order[k]]|
    ensures At(g, c.CountOutputs(g, wires.junctions[w.order[k]], o), w', k, o) && w.order <= w'.order
  {
    w' := w;
    if o > 0 {
      var lists := wires.junctions[w.order[k]];
      w' := CountsOutputs(bs, wires, g, c, w, k, o - 1);
      var d := c.CountOutputs(g, lists, o - 1);
      HandleOutput(bs, wires, g, w', k, o - 1);
      CountsListAsMarked(bs, g, d, w', lists[o-1], |lists[o-1]|);
      w' := w'.MarkAll(lists[o-1], |lists[o-1]|);
    }
  }

  lemma {:induction false} CountsBlocks(bs: seq<Block>, wires: Wires, g: Graph, k: nat) returns (w: Worklist)
    requires Depicts(bs, wires, g)
    ensures var c := Start(g).CountBlocks(g, wires.junctions, k);
            At(g, c, w, if k <= |w.order| then k else |w.order|, 0)
  {
    if k == 0 {
      w := Worklist(SecondPass(g, |g|), AllExternal(g));
      StartRight(g);
    } else {
      w := CountsBlocks(bs, wires, g, k - 1);
      var c := Start(g).CountBlocks(g, wires.junctions, k - 1);
      if k <= |w.order| {
        var o := |wires.junctions[w.order[k-1]]|;
        var w' := CountsOutputs(bs, wires, g, c, w, k - 1, o);
        HandleNext(bs, wires, g, w', k - 1, o);
        w := w';
      }
    }
  }

  lemma StartRight(g: Graph)
    ensures At(g, Start(g), Worklist(SecondPass(g, |g|), AllExternal(g)), 0, 0)
  {
    var w := Worklist(SecondPass(g, |g|), AllExternal(g));
    StartMarks(g, w);
    StartPlaced(g, w.order);
    StartListed(g, w);
  }

  lemma StartListed(g: Graph, w: Worklist)
    requires w == Worklist(SecondPass(g, |g|), AllExternal(g))
    ensures forall b | 0 <= b < |g| :: Listed(g, w, b) && |w.avail[b]| == |g[b].ins|
    ensures Counts(Start(g), w)
  {
    forall b: nat | b < |g| ensures Listed(g, w, b) && |w.avail[b]| == |g[b].ins| && CountsBlock(Start(g), w, b) {
      assert b in w.order <==> CountFalse(ExternalInputs(g[b])) == 0 || g[b].PureDynamic();
    }
  }

  lemma StartMarks(g: Graph, w: Worklist)
    requires w.avail == AllExternal(g)
    ensures forall p | w.IsMarked(p) :: Sourced(g, w.order, p)
    ensures Handled(g, w, 0, 0)
  {
    forall p | w.Has(p) ensures HandledAt(g, w, 0, 0, p) && (w.IsMarked(p) ==> Sourced(g, w.order, p)) {
      assert w.IsMarked(p) <==> g[p.block].ins[p.input].External?;
    }
  }

  lemma StartPlaced(g: Graph, order: seq<nat>)
    requires order == SecondPass(g, |g|)
    ensures ValidSchedule(g, order)
  {
    forall k | 0 <= k < |order| ensures order[k] < |g| {
      assert order[k] in order;
    }
    forall k | 0 <= k < |order| ensures Placed(g, order, k) {
      var b := order[k];
      assert b in order;
      if !g[b].PureDynamic() {
        CountZero(ExternalInputs(g[b]));
        forall i | 0 <= i < |g[b].ins| ensures InputReady(g, b, i, order, k) {
          assert ExternalInputs(g[b])[i];
        }
      }
    }
  }

  /** On the junction lists of a wired network the list is a complete valid schedule, and no loop is reported. */
  lemma WiredSchedules(bs: seq<Block>, wires: Wires, g: Graph)
    requires Depicts(bs, wires, g)
    ensures var c := ListOf(g, wires.junctions);
            !c.failed && ValidSchedule(g, c.order) && CompleteSchedule(g, c.order)
  {
    var w := CountsBlocks(bs, wires, g, |g|);
    DistinctBound(w.order, |g|);
    HandledComplete(g, w);
  }

  // ------------------------------------------------------------------ an overwritten connection

  /** A node of a static block with direct feedthrough. */
  function Passing(ins: seq<Source>): Node {
    Node(false, true, ins, CompFunc((s: State, x: seq<Val>) => [[]], (s: State, x: seq<Val>, e) => s), {}, [])
  }

  /** Block 0 feeds the first input of block 1 and block 2, which feeds the second input of block 1. */
  function Wanted(): Graph { [Passing([]), Passing([Direct(0, 0), Direct(2, 0)]), Passing([Direct(0, 0)])] }

  /** The same when an external entry has overwritten the first input of block 1. */
  function Overwritten(): Graph { [Passing([]), Passing([External(0), Direct(2, 0)]), Passing([Direct(0, 0)])] }

  /** The junction lists of the first network, which the external entry does not touch. */
  const LISTS: seq<seq<seq<Plug>>> := [[[Plug(1, 0), Plug(2, 0)]], [[]], [[Plug(1, 1)]]]

  /** The outputs of one block with one output. */
  lemma OneOutput(g: Graph, c: Counting, k: nat, l: seq<Plug>)
    requires k < |c.order| && c.order[k] < |LISTS| && LISTS[c.order[k]] == [l]
    requires Start(g).CountBlocks(g, LISTS, k) == c
    ensures Start(g).CountBlocks(g, LISTS, k + 1) == c.CountList(g, l, |l|)
  {
    assert c.CountOutputs(g, [l], 0) == c;
    assert c.CountOutputs(g, [l], 1) == c.CountList(g, l, |l|);
  }

  lemma StartsWith(g: Graph, counts: seq<int>)
    requires |g| == |counts| == 3 && counts[0] == 0 && counts[1] != 0 && counts[2] != 0
    requires forall b | 0 <= b < 3 :: !g[b].dynamic && counts[b] == CountFalse(ExternalInputs(g[b]))
    ensures Start(g) == Counting([0], counts, false)
  {
    assert FirstPass(g, 0) == [] && FirstPass(g, 1) == [0] && FirstPass(g, 2) == [0] && FirstPass(g, 3) == [0];
    assert SecondPass(g, 0) == [0] && SecondPass(g, 1) == [0] && SecondPass(g, 2) == [0] && SecondPass(g, 3) == [0];
  }

  /** From the start on, block 0's junction list is counted down first. */
  lemma {:induction false} AfterFirst(g: Graph, counts: seq<int>, c: Counting)
    requires Start(g) == Counting([0], counts, false) && |counts| == |g| == 3 && counts[1] > 0 && counts[2] == 1
    requires c == Counting(if counts[1] == 1 then [0, 1, 2] else [0, 2], [counts[0], counts[1] - 1, 0], false)
    ensures Start(g).CountBlocks(g, LISTS, 1) == c
  {
    var l, c0 := [Plug(1, 0), Plug(2, 0)], Start(g);
    assert c0.CountList(g, l, 0) == c0;
    assert c0.CountList(g, l, 1) == c0.CountDown(g, Plug(1, 0));
    assert c0.CountList(g, l, 2) == c0.CountDown(g, Plug(1, 0)).CountDown(g, Plug(2, 0));
    OneOutput(g, c0, 0, l);
  }

  /** The intended order of the first network. */
  lemma WantedOrder()
    ensures ListOf(Wanted(), LISTS).order == [0, 2, 1] && ValidSchedule(Wanted(), [0, 2, 1])
  {
    var g := Wanted();
    assert ExternalInputs(g[0]) == [] && ExternalInputs(g[1]) == [false, false] && ExternalInputs(g[2]) == [false];
    CountAllFalse([false, false]);
    CountAllFalse([false]);
    StartsWith(g, [0, 2, 1]);
    var c := Counting([0, 2], [0, 1, 0], false);
    AfterFirst(g, [0, 2, 1], c);
    OneInput(g, c);
    OneOutput(g, c, 1, [Plug(1, 1)]);
    c := Counting([0, 2, 1], [0, 0, 0], false);
    OneOutput(g, c, 2, []);
    InOrder(g);
  }

  lemma OneInput(g: Graph, c: Counting)
    ensures c.CountList(g, [Plug(1, 1)], 1) == c.CountDown(g, Plug(1, 1))
    ensures c.CountList(g, [], 0) == c
  {
    assert c.CountList(g, [Plug(1, 1)], 0) == c;
  }

  lemma InOrder(g: Graph)
    requires g == Wanted() || g == Overwritten()
    ensures ValidSchedule(g, [0, 2, 1])
  {
    var order := [0, 2, 1];
    assert Among(order, 1, 0) by { assert order[0] == 0; }
    assert Among(order, 2, 0) by { assert order[0] == 0; }
    assert Among(order, 2, 2) by { assert order[1] == 2; }
    forall k | 0 <= k < 3 ensures Placed(g, order, k) {
      forall i | 0 <= i < |g[order[k]].ins| ensures InputReady(g, order[k], i, order, k) {
      }
    }
  }

  /**
    With the overwritten connection the input is counted down in the first pass and again from the list
    it is still on, and so block 1 comes before block 2, which it needs.
   */
  lemma OverwrittenOrder()
    ensures ListOf(Overwritten(), LISTS).order == [0, 1, 2] && !ValidSchedule(Overwritten(), [0, 1, 2])
    ensures ValidSchedule(Overwritten(), [0, 2, 1])
  {
    var g := Overwritten();
    assert ExternalInputs(g[0]) == [] && ExternalInputs(g[1]) == [true, false] && ExternalInputs(g[2]) == [false];
    CountAllFalse([false, false]);
    CountAllFalse([false]);
    CountSet([false, false], 0);
    assert [false, false][0 := true] == [true, false];
    StartsWith(g, [0, 1, 1]);
    var c := Counting([0, 1, 2], [0, 0, 0], false);
    AfterFirst(g, [0, 1, 1], c);
    OneInput(g, c);
    OneOutput(g, c, 1, []);
    OneOutput(g, c, 2, [Plug(1, 1)]);
    InOrder(g);
    TooEarly(g);
  }

  lemma TooEarly(g: Graph)
    requires g == Overwritten()
    ensures !ValidSchedule(g, [0, 1, 2])
  {
    assert !InputReady(g, 1, 1, [0, 1, 2], 1);
    assert InRange(g, [0, 1, 2]) ==> !Placed(g, [0, 1, 2], 1);
  }
}
