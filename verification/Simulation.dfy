/**
  The simulation object of libdyn: its block lists, the method that sets up the execution
  list and the two-phase stepper.
 */
module SimulationObject {
  import opened Events
  import opened Dataflow
  import opened Wiring
  import opened Scheduling

  class Simulation {
    var allHead: Block?
    var allTail: Block?
    var execHead: Block?
    var execTail: Block?
    var supHead: Block?
    var supTail: Block?
    var inptr: seq<Val>
    var eventActive: Word
    var stepcounter: nat

    ghost var blocks: seq<Block>
    ghost var order: seq<nat>
    ghost var sup: seq<nat>

    ghost predicate OnLists()
      reads this, blocks`allNext, blocks`supNext
    {
      && AllList(blocks, allHead, allTail)
      && SupList(blocks, sup, supHead, supTail)
    }

    /** Blocks and connections may still be added: no schedule was computed yet. */
    ghost predicate Building()
      reads this, blocks`allNext, blocks`supNext
    {
      OnLists() && order == [] && execHead == null
    }

    /** libdyn_new_simulation. */
    constructor (inptr: seq<Val>)
      ensures Building() && blocks == [] && this.inptr == inptr && eventActive == {}
    {
      allHead, allTail, execHead, execTail, supHead, supTail := null, null, null, null, null, null;
      this.inptr, eventActive, stepcounter := inptr, {}, 0;
      blocks, order, sup := [], [], [];
    }

    method AddToAllBlocksList(block: Block)
      requires AllList(blocks, allHead, allTail) && block !in blocks && block.pos == |blocks|
      modifies this`allHead, this`allTail, this`blocks, blocks`allNext, block`allNext
      ensures blocks == old(blocks) + [block] && AllList(blocks, allHead, allTail)
    {
      if allHead != null {
        allTail.allNext := block;
        allTail := block;
        block.allNext := null;
      } else {
        allHead, allTail := block, block;
        block.allNext := null;
      }
      blocks := blocks + [block];
      forall b | 0 <= b < |blocks| ensures AllLink(blocks, b) {
        if b + 1 < |blocks| { assert old(AllLink(blocks, b)); }
      }
    }

    method AddToSupExecutionList(block: Block, ghost bs: seq<Block>)
      requires Positions(bs) && SupList(bs, sup, supHead, supTail) && block !in bs && block.dynamic
      modifies this`supHead, this`supTail, this`sup, bs`supNext, block`supNext
      ensures SupList(bs + [block], sup, supHead, supTail)
    {
      if supHead != null {
        supTail.supNext := block;
        supTail := block;
        block.supNext := null;
      } else {
        supHead, supTail := block, block;
        block.supNext := null;
      }
      ghost var s := sup;
      sup := sup + [|bs|];
      forall k | 0 <= k < |sup| ensures SupLink(bs + [block], sup, k) {
        if k + 1 < |sup| { assert old(SupLink(bs, sup, k)); }
      }
    }

    /** Puts a new block on the all-blocks list and, if it is dynamic, on the state-update list. */
    method LinkBlock(block: Block)
      requires OnLists() && block !in blocks && block.pos == |blocks|
      modifies this`allHead, this`allTail, this`supHead, this`supTail, this`blocks, this`sup
      modifies blocks`allNext, blocks`supNext, block`allNext, block`supNext
      ensures OnLists() && blocks == old(blocks) + [block]
    {
      ghost var bs := blocks;
      AddToAllBlocksList(block);
      if block.dynamic {
        AddToSupExecutionList(block, bs);
      } else {
        forall k | 0 <= k < |sup| ensures SupLink(blocks, sup, k) {
          assert SupLink(bs, sup, k);
        }
      }
    }

    method CreateBlock(dynamic: bool, comp: CompFunc, ins: seq<PortConfig>, outs: seq<OutConfig>, work: State)
      returns (block: Block)
      requires Building()
      modifies this`allHead, this`allTail, this`supHead, this`supTail, this`blocks, this`sup
      modifies blocks`allNext, blocks`supNext
      ensures fresh(block) && blocks == old(blocks) + [block] && Building()
      ensures block.Unwired() && PortsFit(block.inlist, block.outlist, ins, outs)
      ensures block.dynamic == dynamic && block.comp == comp && block.work == work && block.outdata == Zeroed(outs)
      ensures block.feed <==> exists o :: 0 <= o < |outs| && outs[o].dinput
      ensures block.AsNode() == Node(dynamic, block.feed, seq(|ins|, _ => Unconnected), comp, {}, [])
      ensures block.needsOutputUpdate
    {
      block := new Block(|blocks|, dynamic, comp, ins, outs, work);
      LinkBlock(block);
    }

    /** libdyn_new_block. */
    method NewBlock(dynamic: bool, comp: CompFunc, ins: seq<PortConfig>, outs: seq<OutConfig>, work: State,
                    ghost wires: Wires)
      returns (block: Block)
      requires Building() && Carries(blocks, wires) && Plugged(blocks, wires)
      modifies this`allHead, this`allTail, this`supHead, this`supTail, this`blocks, this`sup
      modifies blocks`allNext, blocks`supNext
      ensures fresh(block) && blocks == old(blocks) + [block] && Building()
      ensures var w := AppendWires(wires, block.inlist, block.outlist, block.junction);
              Carries(blocks, w) && Plugged(blocks, w) && (Wired(old(blocks), wires) ==> Wired(blocks, w))
      ensures PortsFit(block.inlist, block.outlist, ins, outs)
      ensures block.dynamic == dynamic && block.comp == comp && block.work == work && block.outdata == Zeroed(outs)
      ensures block.feed <==> exists o :: 0 <= o < |outs| && outs[o].dinput
      ensures block.AsNode() == Node(dynamic, block.feed, seq(|ins|, _ => Unconnected), comp, {}, [])
      ensures block.needsOutputUpdate
    {
      ghost var bs := blocks;
      block := CreateBlock(dynamic, comp, ins, outs, work);
      AppendKeepsPlugged(bs, wires, block, block.inlist, block.outlist, block.junction);
      if Wired(bs, wires) { AppendKeepsWired(bs, wires, block, block.inlist, block.outlist, block.junction); }
    }

    method AddToExecutionList(block: Block) returns (added: bool)
      requires Positions(blocks) && block in blocks
      requires ExecList(blocks, order, execHead, execTail)
      requires block.executed <==> block.pos in order
      modifies this`execHead, this`execTail, this`order, blocks`execNext, block`executed
      ensures ExecList(blocks, order, execHead, execTail)
      ensures added <==> !old(block.executed)
      ensures order == if added then old(order) + [block.pos] else old(order)
      ensures forall c :: c in order <==> c in old(order) || c == block.pos
      ensures block.executed
    {
      if block.executed { return false; }
      if execHead != null {
        execTail.execNext := block;
        execTail := block;
      } else {
        execHead := block;
        execTail := block;
      }
      block.execNext := null;
      block.executed := true;
      order := order + [block.pos];
      forall k | 0 <= k < |order| ensures ExecLink(blocks, order, k) {
        if k + 1 < |order| { assert old(ExecLink(blocks, order, k)); }
      }
      return true;
    }

    /** The pointers, flags and counters of all blocks show the worklist w. */
    ghost predicate Shows(w: Worklist)
      reads this`blocks, this`order, this`execHead, this`execTail, blocks`execNext, blocks`executed,
            blocks`inputAvailable, blocks`remaining
    {
      && Positions(blocks)
      && order == w.order
      && ExecList(blocks, order, execHead, execTail)
      && |w.avail| == |blocks|
      && forall b | 0 <= b < |blocks| :: BlockShows(blocks, w, b)
    }

    /** Marks one input and lists its block if that was the last missing one. */
    method MarkInput(block: Block, input: nat, ghost w: Worklist) returns (loopFound: bool)
      requires Shows(w) && block in blocks
      requires w.Has(Plug(block.pos, input)) && !w.IsMarked(Plug(block.pos, input))
      modifies this`execHead, this`execTail, this`order, blocks`execNext, block`executed
      modifies block`inputAvailable, block`remaining
      ensures Shows(w.Mark(Plug(block.pos, input)))
      ensures loopFound <==> w.Completes(Plug(block.pos, input)) && block.pos in w.order && block.feed
    {
      ghost var b, w' := block.pos, w.Mark(Plug(block.pos, input));
      assert BlockShows(blocks, w, b);
      var complete := block.SetAndCheckAvail(input);
      loopFound := false;
      if complete {
        var added := AddToExecutionList(block);
        loopFound := !added && block.feed;
      }
      forall c | 0 <= c < |blocks| ensures BlockShows(blocks, w', c) {
        assert old(BlockShows(blocks, w, c));
      }
    }

    /** Marks element k of a junction list and follows its pointer to the next element. */
    method MarkElement(cbl: Block, cbli: nat, ghost wires: Wires, ghost b: nat, ghost o: nat,
                       ghost l: seq<Plug>, ghost k: nat, ghost w: Worklist)
      returns (loopFound: bool, next: Block?, nexti: nat)
      requires Shows(w) && Carries(blocks, wires)
      requires b < |blocks| && k < |l| && Link(blocks, wires, b, o, l, k)
      requires cbl == blocks[l[k].block] && cbli == l[k].input
      requires w.Has(l[k]) && !w.IsMarked(l[k])
      modifies this`execHead, this`execTail, this`order, blocks`execNext, cbl`executed
      modifies cbl`inputAvailable, cbl`remaining
      ensures Shows(w.Mark(l[k]))
      ensures loopFound <==> w.Completes(l[k]) && l[k].block in w.order && cbl.feed
      ensures if k + 1 < |l| then next == blocks[l[k+1].block] && nexti == l[k+1].input else next == null
    {
      assert cbl.inlist[cbli] == wires.Port(l[k]);
      loopFound := MarkInput(cbl, cbli, w);
      next, nexti := cbl.inlist[cbli].nextBlock, cbl.inlist[cbli].nextInput;
    }

    /** Walks the junction list of one output port and marks every input on it. */
    method MarkOutput(cur: Block, o: nat, ghost l: seq<Plug>, ghost wires: Wires, ghost w: Worklist)
      returns (loopFound: bool, ghost done: nat)
      requires Shows(w) && cur in blocks && o < |cur.outlist| == |cur.junction| && l == cur.junction[o]
      requires Carries(blocks, wires) && JunctionList(blocks, wires, cur.pos, o)
      requires forall k | 0 <= k < |l| :: w.CanMark(l, k)
      modifies this`execHead, this`execTail, this`order, blocks`execNext, blocks`executed
      modifies blocks`inputAvailable, blocks`remaining
      ensures done <= |l| && Shows(w.MarkAll(l, done))
      ensures !loopFound ==> done == |l|
      ensures loopFound ==> done > 0 && LoopAt(blocks, w, l, done - 1)
    {
      ghost var v := w;
      loopFound, done := false, 0;
      var cbl, cbli := cur.outlist[o].post, cur.outlist[o].postInput;
      while cbl != null && !loopFound
        invariant done <= |l| && v == w.MarkAll(l, done) && Shows(v)
        invariant !loopFound ==>
          if done < |l| then wires.Has(l[done]) && cbl == blocks[l[done].block] && cbli == l[done].input
          else cbl == null
        invariant loopFound ==> done > 0 && LoopAt(blocks, w, l, done - 1)
        decreases |l| - done, !loopFound
        modifies this`execHead, this`execTail, this`order, blocks`execNext, blocks`executed
        modifies blocks`inputAvailable, blocks`remaining
      {
        assert w.CanMark(l, done);
        loopFound, cbl, cbli := MarkElement(cbl, cbli, wires, cur.pos, o, l, done, v);
        v := v.Mark(l[done]);
        done := done + 1;
      }
    }

    /** The heap shows a worklist that has handled its first k blocks and o outputs of the next one. */
    ghost predicate Working(g: Graph, w: Worklist, k: nat, o: nat)
      reads this`blocks, this`order, this`execHead, this`execTail, blocks`execNext, blocks`executed,
            blocks`inputAvailable, blocks`remaining
    {
      Shows(w) && Right(g, w) && k <= |w.order| && Handled(g, w, k, o)
    }

    method MarkPort(cur: Block, o: nat, ghost wires: Wires, ghost g: Graph, ghost w0: Worklist, ghost k: nat)
      returns (loopFound: bool, ghost w: Worklist)
      requires Carries(blocks, wires) && Depicts(blocks, wires, g)
      requires Working(g, w0, k, o) && k < |w0.order| && cur == blocks[w0.order[k]] && o < |cur.outlist|
      modifies this`execHead, this`execTail, this`order, blocks`execNext, blocks`executed
      modifies blocks`inputAvailable, blocks`remaining
      ensures w0.order <= w.order && Working(g, w, k, o + 1)
      ensures !loopFound
    {
      ghost var l, done := cur.junction[o], 0;
      HandleOutput(blocks, wires, g, w0, k, o);
      assert JunctionList(blocks, wires, cur.pos, o);
      loopFound, done := MarkOutput(cur, o, l, wires, w0);
      w := w0.MarkAll(l, |l|);
    }

    /** Marks all inputs connected to one listed block. */
    method MarkBlock(cur: Block, ghost wires: Wires, ghost g: Graph, ghost w0: Worklist, ghost k: nat)
      returns (loopFound: bool, ghost w: Worklist)
      requires Carries(blocks, wires) && Depicts(blocks, wires, g)
      requires Working(g, w0, k, 0) && k < |w0.order| && cur == blocks[w0.order[k]]
      modifies this`execHead, this`execTail, this`order, blocks`execNext, blocks`executed
      modifies blocks`inputAvailable, blocks`remaining
      ensures w0.order <= w.order && Working(g, w, k + 1, 0)
      ensures !loopFound
    {
      w, loopFound := w0, false;
      var i := 0;
      while i < |cur.outlist| && !loopFound
        invariant !loopFound && i <= |cur.outlist|
        invariant w0.order <= w.order && Working(g, w, k, i)
        decreases |cur.outlist| - i
      {
        loopFound, w := MarkPort(cur, i, wires, g, w, k);
        i := i + 1;
      }
      HandleNext(blocks, wires, g, w, k, i);
    }

    /** The loop over the execution list has handled k blocks and is at the next one. */
    ghost predicate AtElement(wires: Wires, g: Graph, w0: Worklist, w: Worklist, k: nat, current: Block?)
      reads this`blocks, this`order, this`execHead, this`execTail, blocks`execNext, blocks`executed,
            blocks`inputAvailable, blocks`remaining, blocks`inlist, blocks`outlist, blocks`junction
    {
      && Carries(blocks, wires) && Depicts(blocks, wires, g)
      && w0.order <= w.order && Working(g, w, k, 0) && k <= |blocks| && InRange2(blocks, w.order)
      && current == At(blocks, w.order, k)
    }

    /** Handles element k of the execution list and goes on to the next one, which may be new. */
    method HandleElement(
      cur: Block, ghost wires: Wires, ghost g: Graph, ghost w0: Worklist, ghost w1: Worklist, ghost k: nat)
      returns (loopFound: bool, next: Block?, ghost w: Worklist)
      requires AtElement(wires, g, w0, w1, k, cur)
      modifies this`execHead, this`execTail, this`order, blocks`execNext, blocks`executed
      modifies blocks`inputAvailable, blocks`remaining
      ensures !loopFound && k < |blocks| && AtElement(wires, g, w0, w, k + 1, next)
    {
      loopFound, w := MarkBlock(cur, wires, g, w1, k);
      DistinctBound(w.order, |blocks|);
      assert ExecLink(blocks, w.order, k);
      next := cur.execNext;
    }

    /** Handles the execution list from its head while it grows. */
    method Propagate(ghost wires: Wires, ghost g: Graph, ghost w0: Worklist)
      returns (loopFound: bool, ghost w: Worklist)
      requires Carries(blocks, wires) && Depicts(blocks, wires, g) && Working(g, w0, 0, 0)
      modifies this`execHead, this`execTail, this`order, blocks`execNext, blocks`executed
      modifies blocks`inputAvailable, blocks`remaining
      ensures w0.order <= w.order && Working(g, w, |w.order|, 0)
      ensures !loopFound
    {
      ghost var k := 0;
      w, loopFound := w0, false;
      var current := execHead;
      while current != null && !loopFound
        invariant !loopFound && AtElement(wires, g, w0, w, k, current)
        decreases |blocks| - k
        modifies this`execHead, this`execTail, this`order, blocks`execNext, blocks`executed
        modifies blocks`inputAvailable, blocks`remaining
      {
        loopFound, current, w := HandleElement(current, wires, g, w0, w, k);
        k := k + 1;
      }
    }

    /** First pass: lists the blocks whose inputs are all external. */
    method InitialPass()
      requires blocks != [] && AllList(blocks, allHead, allTail)
      requires order == [] && execHead == null
      modifies this`execHead, this`execTail, this`order, blocks`execNext, blocks`executed
      modifies blocks`inputAvailable, blocks`remaining
      ensures ExecList(blocks, order, execHead, execTail)
      ensures forall b | 0 <= b < |blocks| :: Primed(blocks, order, b, 0)
    {
      ghost var c := 0;
      var current := allHead;
      while current != null
        invariant c <= |blocks| && current == (if c < |blocks| then blocks[c] else null)
        invariant ExecList(blocks, order, execHead, execTail)
        invariant forall k | 0 <= k < |order| :: order[k] < c
        invariant forall b | 0 <= b < c :: Primed(blocks, order, b, 0)
        decreases |blocks| - c
      {
        InitialVisit(current, c);
        assert AllLink(blocks, c);
        current := current.allNext;
        c := c + 1;
      }
    }

    method InitialVisit(current: Block, ghost c: nat)
      requires Positions(blocks) && c < |blocks| && current == blocks[c]
      requires ExecList(blocks, order, execHead, execTail)
      requires forall k | 0 <= k < |order| :: order[k] < c
      requires forall b | 0 <= b < c :: Primed(blocks, order, b, 0)
      modifies this`execHead, this`execTail, this`order, blocks`execNext, current`executed
      modifies current`inputAvailable, current`remaining
      ensures ExecList(blocks, order, execHead, execTail)
      ensures forall k | 0 <= k < |order| :: order[k] < c + 1
      ensures forall b | 0 <= b < c + 1 :: Primed(blocks, order, b, 0)
    {
      var allInputsAvailable := current.InitAvailability();
      if allInputsAvailable {
        var added := AddToExecutionList(current);
      }
      forall b | 0 <= b < c + 1 ensures Primed(blocks, order, b, 0) {
        if b < c { assert old(Primed(blocks, order, b, 0)); }
      }
    }

    /** Second pass: lists the pure-dynamic blocks. */
    method PureDynamicPass()
      requires blocks != [] && AllList(blocks, allHead, allTail)
      requires ExecList(blocks, order, execHead, execTail)
      requires forall b | 0 <= b < |blocks| :: Primed(blocks, order, b, 0)
      modifies this`execHead, this`execTail, this`order, blocks`execNext, blocks`executed
      ensures ExecList(blocks, order, execHead, execTail)
      ensures forall b | 0 <= b < |blocks| :: Primed(blocks, order, b, |blocks|)
    {
      ghost var c := 0;
      var current := allHead;
      while current != null
        invariant c <= |blocks| && current == (if c < |blocks| then blocks[c] else null)
        invariant ExecList(blocks, order, execHead, execTail)
        invariant forall b | 0 <= b < |blocks| :: Primed(blocks, order, b, c)
        decreases |blocks| - c
      {
        DynamicVisit(current, c, c + 1);
        assert AllLink(blocks, c);
        current := current.allNext;
        c := c + 1;
      }
    }

    method DynamicVisit(current: Block, ghost c: nat, ghost next: nat)
      requires Positions(blocks) && c < |blocks| && current == blocks[c] && next == c + 1
      requires ExecList(blocks, order, execHead, execTail)
      requires forall b | 0 <= b < |blocks| :: Primed(blocks, order, b, c)
      modifies this`execHead, this`execTail, this`order, blocks`execNext, current`executed
      ensures ExecList(blocks, order, execHead, execTail)
      ensures forall b | 0 <= b < |blocks| :: Primed(blocks, order, b, next)
    {
      assert Primed(blocks, order, c, c);
      if !current.feed && current.dynamic {
        var added := AddToExecutionList(current);
      }
      forall b | 0 <= b < |blocks| ensures Primed(blocks, order, b, next) {
        assert old(Primed(blocks, order, b, c));
      }
    }

    /** The lists of the initial passes are a right worklist in which nothing is handled yet. */
    lemma PrimedWorks(wires: Wires, g: Graph)
      requires Carries(blocks, wires) && Depicts(blocks, wires, g)
      requires ExecList(blocks, order, execHead, execTail)
      requires forall b | 0 <= b < |blocks| :: Primed(blocks, order, b, |blocks|)
      ensures Working(g, Worklist(order, AvailOf(blocks, |blocks|)), 0, 0)
    {
      var w := Worklist(order, AvailOf(blocks, |blocks|));
      forall b | 0 <= b < |blocks| ensures BlockShows(blocks, w, b) && Listed(g, w, b) && |w.avail[b]| == |g[b].ins| {
        assert Primed(blocks, order, b, |blocks|);
      }
      forall p | w.Has(p) ensures HandledAt(g, w, 0, 0, p) {
        assert Primed(blocks, order, p.block, |blocks|);
      }
      forall k | 0 <= k < |order| ensures Placed(g, order, k) {
        assert Primed(blocks, order, order[k], |blocks|);
        CountZero(w.avail[order[k]]);
        assert forall i | 0 <= i < |g[order[k]].ins| && !g[order[k]].PureDynamic() ::
          InputReady(g, order[k], i, order, k);
      }
      forall p | w.IsMarked(p) ensures Sourced(g, order, p) {
        assert HandledAt(g, w, 0, 0, p);
      }
    }

    /** Both initial passes over the all-blocks list. */
    method PrimeWorklist(ghost wires: Wires, ghost g: Graph) returns (ghost w: Worklist)
      requires blocks != [] && AllList(blocks, allHead, allTail)
      requires Carries(blocks, wires) && Depicts(blocks, wires, g)
      requires order == [] && execHead == null
      modifies this`execHead, this`execTail, this`order, blocks`execNext, blocks`executed
      modifies blocks`inputAvailable, blocks`remaining
      ensures Working(g, w, 0, 0)
    {
      InitialPass();
      PureDynamicPass();
      PrimedWorks(wires, g);
      w := Worklist(order, AvailOf(blocks, |blocks|));
    }

    /**
      libdyn_setup_executionlist: builds the complete valid schedule of the wired graph. It
      reports an error only when no block at all can be scheduled.
     */
    method SetupExecutionList(ghost wires: Wires, ghost g: Graph) returns (code: int)
      requires blocks != [] && AllList(blocks, allHead, allTail)
      requires Carries(blocks, wires) && Depicts(blocks, wires, g)
      requires order == [] && execHead == null
      modifies this`execHead, this`execTail, this`order, blocks`execNext, blocks`executed
      modifies blocks`inputAvailable, blocks`remaining
      ensures code == (if order == [] then -1 else 0)
      ensures ExecList(blocks, order, execHead, execTail)
      ensures ValidSchedule(g, order) && CompleteSchedule(g, order)
    {
      ghost var w := PrimeWorklist(wires, g);
      if execHead == null {
        code := -1;
      } else {
        var loopFound;
        loopFound, w := Propagate(wires, g, w);
        code := if loopFound then -1 else 0;
      }
      HandledComplete(g, w);
    }

    // ---------------------------------------------------------------- stepping

    /** Everything the stepper relies on and never changes. */
    ghost predicate CanStep(wires: Wires, g: Graph)
      reads this`blocks, this`order, this`execHead, this`execTail, this`sup, this`supHead, this`supTail,
            blocks`execNext, blocks`supNext, blocks`inlist, blocks`outlist, blocks`junction,
            blocks`eventMask, blocks`eventMap
    {
      && Carries(blocks, wires) && Depicts(blocks, wires, g) && Behaves(blocks, g)
      && ExecList(blocks, order, execHead, execTail)
      && SupList(blocks, sup, supHead, supTail)
      && forall b | 0 <= b < |blocks| :: |g[b].emap| <= WIDTH
    }

    /** v is the connected output of the connected block, or the connected user memory. */
    ghost predicate ReadFrom(port: InPort, inptr: seq<Val>, v: Val)
      reads if port.pre == null then {} else {port.pre}
    {
      && (port.intype == DirectIn && port.pre != null && port.outNr < |port.pre.outdata| ==>
            v == port.pre.outdata[port.outNr])
      && (port.intype == ExternIn && port.data.User? && port.data.chan < |inptr| ==> v == inptr[port.data.chan])
    }

    /** Follows the data pointers of one block's inputs. */
    method ReadInputs(block: Block, ghost wires: Wires, ghost g: Graph, ghost m: Mem) returns (x: seq<Val>)
      requires Carries(blocks, wires) && Depicts(blocks, wires, g) && Holds(blocks, m) && m.ext == inptr
      requires block in blocks
      ensures x == Inputs(g[block.pos], m.cache, m.ext)
      ensures forall i | 0 <= i < |block.inlist| :: ReadFrom(block.inlist[i], inptr, x[i])
    {
      x := [];
      for i := 0 to |block.inlist|
        invariant |x| == i
        invariant forall j | 0 <= j < i :: x[j] == Fetch(g[block.pos].ins[j], m.cache, m.ext)
        invariant forall j | 0 <= j < i :: ReadFrom(block.inlist[j], inptr, x[j])
      {
        assert OnItsList(blocks, wires, Plug(block.pos, i));
        ghost var port := wires.Port(Plug(block.pos, i));
        assert port.intype == DirectIn ==> HoldsAt(blocks, m, port.pre.pos);
        var v: Val := [];
        match block.inlist[i].data {
          case Null =>
          case Cache(src, port) => if port < |src.outdata| { v := src.outdata[port]; }
          case User(chan) => if chan < |inptr| { v := inptr[chan]; }
        }
        x := x + [v];
      }
    }

    /** One visit of the output traversal. */
    method VisitOutput(current: Block, ghost wires: Wires, ghost g: Graph, ghost m: Mem)
      requires Carries(blocks, wires) && Depicts(blocks, wires, g) && Behaves(blocks, g)
      requires Holds(blocks, m) && m.ext == inptr && current in blocks
      modifies current`outdata, current`needsOutputUpdate
      ensures Holds(blocks, OutputVisit(g, m, current.pos))
    {
      ghost var m' := OutputVisit(g, m, current.pos);
      assert HoldsAt(blocks, m, current.pos);
      var ins := ReadInputs(current, wires, g, m);
      if current.feed {
        current.CalcOutputs(ins);
      } else if current.needsOutputUpdate {
        current.CalcOutputs(ins);
        current.needsOutputUpdate := false;
      }
      forall b | 0 <= b < |blocks| ensures HoldsAt(blocks, m', b) {
        assert old(HoldsAt(blocks, m, b));
      }
    }

    /** One visit of the state-update traversal. */
    method VisitUpdate(current: Block, ghost wires: Wires, ghost g: Graph, ghost m: Mem)
      requires Carries(blocks, wires) && Depicts(blocks, wires, g) && Behaves(blocks, g)
      requires Holds(blocks, m) && m.ext == inptr && current in blocks && |current.eventMap| <= WIDTH
      modifies current`work, current`needsOutputUpdate, current`blockEvents
      ensures Holds(blocks, UpdateVisit(g, m, eventActive, current.pos))
    {
      ghost var m' := UpdateVisit(g, m, eventActive, current.pos);
      assert HoldsAt(blocks, m, current.pos);
      if Triggered(eventActive, current.eventMask) {
        current.blockEvents := current.EventMapper(eventActive);
        var ins := ReadInputs(current, wires, g, m);
        current.needsOutputUpdate := true;
        current.UpdateStates(ins);
      }
      forall b | 0 <= b < |blocks| ensures HoldsAt(blocks, m', b) {
        assert old(HoldsAt(blocks, m, b));
      }
    }

    /** The output traversal has visited k blocks and is at the next one. */
    ghost predicate AtOutput(wires: Wires, g: Graph, m: Mem, k: nat, current: Block?)
      reads this, blocks
    {
      && CanStep(wires, g) && Shape(g, m) && m.ext == inptr && InRange(g, order)
      && k <= |order| && current == At(blocks, order, k)
      && Holds(blocks, OutputPhase(g, m, order, k))
    }

    method OutputElement(current: Block, ghost wires: Wires, ghost g: Graph, ghost m: Mem, ghost k: nat)
      returns (next: Block?)
      requires AtOutput(wires, g, m, k, current)
      modifies blocks`outdata, blocks`needsOutputUpdate
      ensures k < |order| && AtOutput(wires, g, m, k + 1, next)
    {
      assert ExecLink(blocks, order, k);
      VisitOutput(current, wires, g, OutputPhase(g, m, order, k));
      next := current.execNext;
    }

    /** libdyn_simulation_step(sim, 0): traverses the execution list. */
    method StepOutputs(ghost wires: Wires, ghost g: Graph, ghost m: Mem)
      requires CanStep(wires, g) && Holds(blocks, m) && m.ext == inptr && execHead != null
      modifies blocks`outdata, blocks`needsOutputUpdate
      ensures Holds(blocks, OutputPhase(g, m, order, |order|))
    {
      ghost var k := 0;
      var current := execHead;
      while current != null
        invariant AtOutput(wires, g, m, k, current)
        decreases |order| - k
        modifies blocks`outdata, blocks`needsOutputUpdate
      {
        current := OutputElement(current, wires, g, m, k);
        k := k + 1;
      }
    }

    /** The state-update traversal has visited k blocks and is at the next one. */
    ghost predicate AtUpdate(wires: Wires, g: Graph, m: Mem, k: nat, current: Block?)
      reads this, blocks
    {
      && CanStep(wires, g) && Shape(g, m) && m.ext == inptr && InRange(g, sup)
      && k <= |sup| && current == At(blocks, sup, k)
      && Holds(blocks, UpdatePhase(g, m, eventActive, sup, k))
    }

    method UpdateElement(current: Block, ghost wires: Wires, ghost g: Graph, ghost m: Mem, ghost k: nat)
      returns (next: Block?)
      requires AtUpdate(wires, g, m, k, current)
      modifies blocks`work, blocks`needsOutputUpdate, blocks`blockEvents
      ensures k < |sup| && AtUpdate(wires, g, m, k + 1, next)
    {
      assert SupLink(blocks, sup, k);
      VisitUpdate(current, wires, g, UpdatePhase(g, m, eventActive, sup, k));
      next := current.supNext;
    }

    /** The state-update traversal of libdyn_simulation_step(sim, 1). */
    method TraverseSupList(ghost wires: Wires, ghost g: Graph, ghost m: Mem)
      requires CanStep(wires, g) && Holds(blocks, m) && m.ext == inptr
      modifies blocks`work, blocks`needsOutputUpdate, blocks`blockEvents
      ensures Holds(blocks, UpdatePhase(g, m, eventActive, sup, |sup|))
    {
      ghost var k := 0;
      var current := supHead;
      while current != null
        invariant AtUpdate(wires, g, m, k, current)
        decreases |sup| - k
        modifies blocks`work, blocks`needsOutputUpdate, blocks`blockEvents
      {
        current := UpdateElement(current, wires, g, m, k);
        k := k + 1;
      }
    }

    /** libdyn_simulation_step(sim, 1): updates the states and clears the events. */
    method StepUpdate(ghost wires: Wires, ghost g: Graph, ghost m: Mem)
      requires CanStep(wires, g) && Holds(blocks, m) && m.ext == inptr
      modifies this`stepcounter, this`eventActive
      modifies blocks`work, blocks`needsOutputUpdate, blocks`blockEvents
      ensures Holds(blocks, UpdatePhase(g, m, old(eventActive), sup, |sup|))
      ensures eventActive == {} && stepcounter == old(stepcounter) + 1
    {
      stepcounter := stepcounter + 1;
      TraverseSupList(wires, g, m);
      eventActive := {};
    }

    /** What a caller does for one action: it provides inputs or triggers events, then steps. */
    method Perform(a: Action, ghost wires: Wires, ghost g: Graph, ghost m: Mem)
      requires CanStep(wires, g) && Holds(blocks, m) && m.ext == inptr && execHead != null
      modifies this`inptr, this`stepcounter, this`eventActive
      modifies blocks`work, blocks`outdata, blocks`needsOutputUpdate, blocks`blockEvents
      ensures Holds(blocks, Step(g, order, sup, m, a)) && Step(g, order, sup, m, a).ext == inptr
    {
      match a {
        case Output(ext) =>
          inptr := ext;
          assert forall b | 0 <= b < |blocks| :: HoldsAt(blocks, m, b) ==> HoldsAt(blocks, m.(ext := ext), b);
          StepOutputs(wires, g, m.(ext := ext));
        case Update(active) =>
          eventActive := active;
          StepUpdate(wires, g, m);
      }
    }

    /**
      Any run of the simulation computes what Dataflow.Run computes; by
      Dataflow.LazyRefinesReference each of its steps is a step of the synchronous reference.
     */
    method PerformAll(acts: seq<Action>, ghost wires: Wires, ghost g: Graph, ghost m: Mem)
      requires CanStep(wires, g) && Holds(blocks, m) && m.ext == inptr && execHead != null
      modifies this`inptr, this`stepcounter, this`eventActive
      modifies blocks`work, blocks`outdata, blocks`needsOutputUpdate, blocks`blockEvents
      ensures Holds(blocks, Run(g, order, sup, m, acts, |acts|))
      ensures Run(g, order, sup, m, acts, |acts|).ext == inptr
    {
      for k := 0 to |acts|
        invariant Holds(blocks, Run(g, order, sup, m, acts, k)) && Run(g, order, sup, m, acts, k).ext == inptr
      {
        Perform(acts[k], wires, g, Run(g, order, sup, m, acts, k));
      }
    }
  }
}
