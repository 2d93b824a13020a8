/**
  The worklist with which libdyn orders the blocks, as a value: what marking an input as
  available does, and why the list it builds is a complete valid schedule.
 */
module Scheduling {
  import opened Dataflow
  import opened Wiring

  /** The input p is external or driven by a listed block. */
  ghost predicate Sourced(g: Graph, order: seq<nat>, p: Plug) {
    && p.block < |g| && p.input < |g[p.block].ins|
    && var s := g[p.block].ins[p.input]; s.External? || (s.Direct? && s.src in order)
  }

  /** What the worklist algorithm has computed so far: the list and the available inputs of each block. */
  datatype Worklist = Worklist(order: seq<nat>, avail: seq<seq<bool>>)
  {
    ghost predicate Has(p: Plug) { p.block < |avail| && p.input < |avail[p.block]| }

    ghost predicate IsMarked(p: Plug) { Has(p) && avail[p.block][p.input] }

    /** Marking p makes every input of its block available. */
    ghost predicate Completes(p: Plug) { Has(p) && CountFalse(avail[p.block][p.input := true]) == 0 }

    /** Marks p and lists its block if that was the last missing input. */
    ghost function Mark(p: Plug): Worklist {
      if !Has(p) then this
      else Worklist(if Completes(p) && p.block !in order then order + [p.block] else order,
                    avail[p.block := avail[p.block][p.input := true]])
    }

    /** Marks the first j inputs of l. */
    ghost function MarkAll(l: seq<Plug>, j: nat): Worklist
      requires j <= |l|
    {
      if j == 0 then this else MarkAll(l, j - 1).Mark(l[j-1])
    }

    /** After the first k inputs of l are marked, input k is there and not marked. */
    ghost predicate CanMark(l: seq<Plug>, k: nat)
      requires k < |l|
    {
      MarkAll(l, k).Has(l[k]) && !MarkAll(l, k).IsMarked(l[k])
    }

    lemma {:induction false} MarkAllMarks(l: seq<Plug>, j: nat, q: Plug)
      requires j <= |l|
      ensures MarkAll(l, j).Has(q) <==> Has(q)
      ensures MarkAll(l, j).IsMarked(q) <==> IsMarked(q) || (Has(q) && exists k :: 0 <= k < j && l[k] == q)
    {
      if j > 0 { MarkAllMarks(l, j - 1, q); }
    }
  }

  /** A block is listed exactly when it is pure-dynamic or has no missing input. */
  ghost predicate Listed(g: Graph, w: Worklist, b: nat)
    requires b < |g| == |w.avail|
  {
    b in w.order <==> g[b].PureDynamic() || CountFalse(w.avail[b]) == 0
  }

  /**
    The worklist is right for the marked inputs: they are driven from outside or by listed
    blocks, and the blocks that can be listed are.
   */
  ghost predicate Right(g: Graph, w: Worklist) {
    && ValidSchedule(g, w.order)
    && |w.avail| == |g|
    && (forall b | 0 <= b < |g| :: |w.avail[b]| == |g[b].ins|)
    && (forall p | w.IsMarked(p) :: Sourced(g, w.order, p))
    && (forall b | 0 <= b < |g| :: Listed(g, w, b))
  }

  /** The flags and the counter of block b show the worklist. */
  ghost predicate BlockShows(bs: seq<Block>, w: Worklist, b: nat)
    requires b < |bs| == |w.avail|
    reads bs`inputAvailable, bs`remaining, bs`executed
  {
    && bs[b].inputAvailable == w.avail[b]
    && bs[b].remaining == CountFalse(w.avail[b])
    && (bs[b].executed <==> b in w.order)
  }

  /**
    Block b when the first pass is over and the second pass has visited the blocks below upTo:
    only its external inputs are available.
   */
  ghost predicate Primed(bs: seq<Block>, order: seq<nat>, b: nat, upTo: nat)
    requires b < |bs|
    reads bs`inlist, bs`inputAvailable, bs`remaining, bs`executed
  {
    && |bs[b].inputAvailable| == |bs[b].inlist|
    && (forall i | 0 <= i < |bs[b].inlist| :: bs[b].inputAvailable[i] <==> bs[b].inlist[i].intype == ExternIn)
    && bs[b].remaining == CountFalse(bs[b].inputAvailable)
    && (bs[b].executed <==> b in order)
    && (b in order <==>
          CountFalse(bs[b].inputAvailable) == 0 || (b < upTo && bs[b].dynamic && !bs[b].feed))
  }

  /** Marking input k of l after the inputs before it is what the algorithm reports as an algebraic loop. */
  ghost predicate LoopAt(bs: seq<Block>, w: Worklist, l: seq<Plug>, k: nat)
    requires k < |l|
  {
    && l[k].block < |bs|
    && w.MarkAll(l, k).Completes(l[k]) && l[k].block in w.MarkAll(l, k).order && bs[l[k].block].feed
  }

  lemma AppendSchedule(g: Graph, order: seq<nat>, b: nat)
    requires ValidSchedule(g, order) && b < |g| && b !in order
    requires g[b].PureDynamic() || Ready(g, b, order, |order|)
    ensures ValidSchedule(g, order + [b])
  {
    var o := order + [b];
    forall k | 0 <= k < |o| ensures Placed(g, o, k) {
      ReadyMonotone(g, o[k], order, o, k);
      if k < |order| { assert Placed(g, order, k); }
    }
  }

  /**
    Marking an input whose source is listed keeps the worklist right. A block completed by
    it that is listed already is pure-dynamic, so this is never an algebraic loop.
   */
  lemma MarkKeepsRight(g: Graph, w: Worklist, p: Plug)
    requires Right(g, w) && MarkableAt(g, w, p)
    ensures Right(g, w.Mark(p)) && w.order <= w.Mark(p).order
    ensures p.block in w.order ==> !g[p.block].feed
  {
    var b, w' := p.block, w.Mark(p);
    CountZero(w.avail[b]);
    CountZero(w'.avail[b]);
    assert Listed(g, w, b);
    if w'.order != w.order {
      assert Ready(g, b, w.order, |w.order|) by {
        forall i | 0 <= i < |g[b].ins| ensures InputReady(g, b, i, w.order, |w.order|) {
          assert w'.IsMarked(Plug(b, i));
          assert Sourced(g, w.order, Plug(b, i));
        }
      }
      AppendSchedule(g, w.order, b);
    }
    forall q | w'.IsMarked(q) ensures Sourced(g, w'.order, q) {
      assert Sourced(g, w.order, q);
    }
    forall c | 0 <= c < |g| ensures Listed(g, w', c) {
      assert Listed(g, w, c);
    }
  }

  /** The inputs of l exist, are not marked yet, and are driven by listed blocks. */
  ghost predicate Markable(g: Graph, w: Worklist, l: seq<Plug>) {
    && (forall k | 0 <= k < |l| :: MarkableAt(g, w, l[k]))
    && (forall i, k | 0 <= i < k < |l| :: l[i] != l[k])
  }

  ghost predicate MarkableAt(g: Graph, w: Worklist, p: Plug) {
    && w.Has(p) && !w.IsMarked(p)
    && Sourced(g, w.order, p) && g[p.block].ins[p.input].Direct?
  }

  /** Marking the inputs connected to listed blocks keeps the worklist right. */
  lemma {:induction false} MarkAllKeepsRight(g: Graph, w: Worklist, l: seq<Plug>, j: nat)
    requires Right(g, w) && j <= |l| && Markable(g, w, l)
    ensures Right(g, w.MarkAll(l, j)) && w.order <= w.MarkAll(l, j).order
  {
    if j > 0 {
      MarkAllKeepsRight(g, w, l, j - 1);
      StillMarkable(g, w, l, j - 1);
      MarkKeepsRight(g, w.MarkAll(l, j - 1), l[j-1]);
    }
  }

  lemma StillMarkable(g: Graph, w: Worklist, l: seq<Plug>, j: nat)
    requires j < |l| && Markable(g, w, l) && w.order <= w.MarkAll(l, j).order
    ensures MarkableAt(g, w.MarkAll(l, j), l[j])
  {
    assert MarkableAt(g, w, l[j]);
    w.MarkAllMarks(l, j, l[j]);
  }

  /** No input of l is reported as an algebraic loop. */
  lemma NeverLoop(bs: seq<Block>, g: Graph, w: Worklist, l: seq<Plug>, j: nat)
    requires Right(g, w) && Markable(g, w, l) && j < |l|
    requires |bs| == |g| && forall b | 0 <= b < |g| :: g[b].feed == bs[b].feed
    ensures !LoopAt(bs, w, l, j)
  {
    MarkAllKeepsRight(g, w, l, j);
    StillMarkable(g, w, l, j);
    MarkKeepsRight(g, w.MarkAll(l, j), l[j]);
  }

  /** The graph g describes the blocks bs wired as in wires. */
  ghost predicate Depicts(bs: seq<Block>, wires: Wires, g: Graph) {
    && Wired(bs, wires) && |g| == |bs|
    && forall b | 0 <= b < |g| ::
         g[b].dynamic == bs[b].dynamic && g[b].feed == bs[b].feed && g[b].ins == SourcesOf(wires.ins[b])
  }

  /**
    The worklist has handled its first k blocks and the first o outputs of the next one:
    exactly their inputs and the external inputs are marked.
   */
  ghost predicate Handled(g: Graph, w: Worklist, k: nat, o: nat)
    requires k <= |w.order|
  {
    forall p | w.Has(p) :: HandledAt(g, w, k, o, p)
  }

  ghost predicate HandledAt(g: Graph, w: Worklist, k: nat, o: nat, p: Plug)
    requires k <= |w.order|
  {
    && p.block < |g| && p.input < |g[p.block].ins|
    && var s := g[p.block].ins[p.input];
       w.IsMarked(p) <==>
         || s.External?
         || (s.Direct? && (Among(w.order, k, s.src) || (k < |w.order| && s.src == w.order[k] && s.port < o)))
  }

  lemma JunctionMarkable(bs: seq<Block>, wires: Wires, g: Graph, w: Worklist, k: nat, o: nat)
    requires Depicts(bs, wires, g) && Right(g, w) && k < |w.order| && Handled(g, w, k, o)
    requires o < |wires.outs[w.order[k]]|
    ensures Markable(g, w, wires.junctions[w.order[k]][o])
  {
    var b := w.order[k];
    var l := wires.junctions[b][o];
    assert JunctionList(bs, wires, b, o);
    forall i | 0 <= i < |l| ensures MarkableAt(g, w, l[i]) {
      assert l[i] in l;
      JunctionExact(bs, wires, b, o, l[i]);
      assert HandledAt(g, w, k, o, l[i]);
    }
  }

  lemma HandleOutput(bs: seq<Block>, wires: Wires, g: Graph, w: Worklist, k: nat, o: nat)
    requires Depicts(bs, wires, g) && Right(g, w) && k < |w.order| && Handled(g, w, k, o)
    requires o < |wires.outs[w.order[k]]|
    ensures var l := wires.junctions[w.order[k]][o];
            && (forall i | 0 <= i < |l| :: w.CanMark(l, i) && !LoopAt(bs, w, l, i))
            && var w' := w.MarkAll(l, |l|);
               w.order <= w'.order && Right(g, w') && Handled(g, w', k, o + 1)
  {
    var b := w.order[k];
    var l := wires.junctions[b][o];
    JunctionMarkable(bs, wires, g, w, k, o);
    forall i | 0 <= i < |l| ensures w.CanMark(l, i) && !LoopAt(bs, w, l, i) {
      MarkAllKeepsRight(g, w, l, i);
      StillMarkable(g, w, l, i);
      NeverLoop(bs, g, w, l, i);
    }
    MarkAllKeepsRight(g, w, l, |l|);
    var w' := w.MarkAll(l, |l|);
    forall p | w'.Has(p) ensures HandledAt(g, w', k, o + 1, p) {
      w.MarkAllMarks(l, |l|, p);
      assert HandledAt(g, w, k, o, p);
      JunctionExact(bs, wires, b, o, p);
      assert forall a :: Among(w.order, k, a) <==> Among(w'.order, k, a);
    }
  }

  /** All outputs of the current block are handled: the worklist moves on. */
  lemma HandleNext(bs: seq<Block>, wires: Wires, g: Graph, w: Worklist, k: nat, o: nat)
    requires Depicts(bs, wires, g) && Right(g, w) && k < |w.order| && Handled(g, w, k, o)
    requires o == |wires.outs[w.order[k]]|
    ensures Handled(g, w, k + 1, 0)
  {
    forall p | w.Has(p) ensures HandledAt(g, w, k + 1, 0, p) {
      assert HandledAt(g, w, k, o, p);
      assert OnItsList(bs, wires, Plug(p.block, p.input));
    }
  }

  /** When the whole list is handled, nothing that could be scheduled is missing. */
  lemma HandledComplete(g: Graph, w: Worklist)
    requires Right(g, w) && Handled(g, w, |w.order|, 0)
    ensures CompleteSchedule(g, w.order)
  {
    forall b | 0 <= b < |g| && (g[b].PureDynamic() || Ready(g, b, w.order, |w.order|)) ensures b in w.order {
      assert Listed(g, w, b);
      if !g[b].PureDynamic() {
        forall i | 0 <= i < |g[b].ins| ensures w.avail[b][i] {
          assert InputReady(g, b, i, w.order, |w.order|);
          assert HandledAt(g, w, |w.order|, 0, Plug(b, i));
        }
        CountZero(w.avail[b]);
      }
    }
  }

  /** The graph g also has the computational functions and event subscriptions of the blocks. */
  ghost predicate Behaves(bs: seq<Block>, g: Graph)
    reads bs`eventMask, bs`eventMap
  {
    && |g| == |bs|
    && forall b | 0 <= b < |bs| ::
         g[b].comp == bs[b].comp && g[b].mask == bs[b].eventMask && g[b].emap == bs[b].eventMap
  }

  ghost predicate HoldsAt(bs: seq<Block>, m: Mem, b: nat)
    requires b < |bs| == |m.work| == |m.cache| == |m.need|
    reads bs`work, bs`outdata, bs`needsOutputUpdate
  {
    bs[b].work == m.work[b] && bs[b].outdata == m.cache[b] && bs[b].needsOutputUpdate == m.need[b]
  }

  /** The blocks hold the states, the output caches and the flags of m. */
  ghost predicate Holds(bs: seq<Block>, m: Mem)
    reads bs`work, bs`outdata, bs`needsOutputUpdate
  {
    && |m.work| == |m.cache| == |m.need| == |bs|
    && forall b | 0 <= b < |bs| :: HoldsAt(bs, m, b)
  }
}
