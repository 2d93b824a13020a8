/**
  Blocks of libdyn on the heap: their ports, the intrusive lists they are threaded on, and the
  junction lists that connecting two blocks extends.
 */
module Wiring {
  import opened Events
  import opened Dataflow

  datatype InType = Undef | DirectIn | ExternIn

  /** Where an input port finds its data: nowhere yet, in an output cache, or in user memory. */
  datatype DataRef = Null | Cache(block: Block, port: nat) | User(chan: nat)

  datatype InPort = InPort(
    len: nat,
    datatyp: int,
    intype: InType,
    pre: Block?,
    outNr: nat,
    data: DataRef,
    nextBlock: Block?,
    nextInput: nat)

  datatype OutPort = OutPort(len: nat, datatyp: int, connected: bool, post: Block?, postInput: nat)

  /** One input port of one block; blocks are named by their position in the all-blocks list. */
  datatype Plug = Plug(block: nat, input: nat)

  /** The port sizes and types a computational function declares when it is configured. */
  datatype PortConfig = PortConfig(len: nat, datatyp: int)
  datatype OutConfig = OutConfig(len: nat, datatyp: int, dinput: bool)

  class Block {
    ghost const pos: nat
    const dynamic: bool
    const feed: bool
    const comp: CompFunc

    var inlist: seq<InPort>
    var outlist: seq<OutPort>
    var outdata: seq<Val>
    var work: State
    var needsOutputUpdate: bool

    var eventMask: Word
    var eventMap: seq<EventNr>
    var blockEvents: Word

    var allNext: Block?
    var execNext: Block?
    var supNext: Block?

    var inputAvailable: seq<bool>
    var remaining: int
    var executed: bool

    // For each output port, the inputs its junction list visits, in list order.
    ghost var junction: seq<seq<Plug>>

    constructor (ghost pos: nat, dynamic: bool, comp: CompFunc, ins: seq<PortConfig>, outs: seq<OutConfig>, work: State)
      ensures this.pos == pos && this.dynamic == dynamic && this.comp == comp && this.work == work
      ensures feed <==> exists o :: 0 <= o < |outs| && outs[o].dinput
      ensures Unwired()
      ensures PortsFit(inlist, outlist, ins, outs)
      ensures AsNode() == Node(dynamic, feed, seq(|ins|, _ => Unconnected), comp, {}, [])
      ensures needsOutputUpdate && outdata == Zeroed(outs)
    {
      this.pos := pos;
      this.dynamic := dynamic;
      this.feed := exists o :: 0 <= o < |outs| && outs[o].dinput;
      this.comp := comp;
      this.inlist := seq(|ins|, i requires 0 <= i < |ins| =>
        InPort(ins[i].len, ins[i].datatyp, Undef, null, 0, Null, null, 0));
      this.outlist := seq(|outs|, o requires 0 <= o < |outs| =>
        OutPort(outs[o].len, outs[o].datatyp, false, null, 0));
      this.outdata := Zeroed(outs);
      this.junction := seq(|outs|, _ => []);
      this.work := work;
      this.needsOutputUpdate := true;
      this.eventMask, this.eventMap, this.blockEvents := {}, [], {};
      this.allNext, this.execNext, this.supNext := null, null, null;
      this.inputAvailable, this.remaining, this.executed := [], 0, false;
      new;
      assert SourcesOf(inlist) == seq(|ins|, _ => Unconnected);
    }

    /** No port is connected. */
    ghost predicate Unwired()
      reads this`inlist, this`outlist, this`junction
    {
      && (forall i | 0 <= i < |inlist| :: inlist[i].intype == Undef && inlist[i].data == Null)
      && |junction| == |outlist|
      && (forall o | 0 <= o < |outlist| :: outlist[o].post == null && junction[o] == [])
    }

    ghost function AsNode(): Node
      reads this`inlist, this`eventMask, this`eventMap
    {
      Node(dynamic, feed, SourcesOf(inlist), comp, eventMask, eventMap)
    }

    /** Registers this block for a simulation event; 1 << 32 is not defined, so 32 itself is excluded. */
    method NewEventNotifier(event: nat) returns (code: int)
      requires event != WIDTH && |eventMap| < WIDTH
      modifies this`eventMask, this`eventMap
      ensures code == if event > WIDTH then 1 else 0
      ensures code == 1 ==> eventMask == old(eventMask) && eventMap == old(eventMap)
      ensures code == 0 ==> event < WIDTH
      ensures code == 0 ==>
        Subscription(eventMask, eventMap) == Register(Subscription(old(eventMask), old(eventMap)), event)
    {
      if event > WIDTH { return 1; }
      eventMap := eventMap + [event];
      eventMask := eventMask + {event};
      return 0;
    }

    /** Maps the active simulation events to the numbers under which this block registered them. */
    method EventMapper(active: Word) returns (word: Word)
      requires |eventMap| <= WIDTH
      ensures word == Mapped(active, eventMap)
    {
      word := {};
      for i := 0 to |eventMap|
        invariant word == set j | 0 <= j < i && j < WIDTH && eventMap[j] in active
      {
        if eventMap[i] in active { word := word + {i}; }
      }
    }

    /** Marks one input as available and says whether that completed the block's inputs. */
    method SetAndCheckAvail(input: nat) returns (complete: bool)
      requires input < |inputAvailable| && !inputAvailable[input]
      requires remaining == CountFalse(inputAvailable)
      modifies this`inputAvailable, this`remaining
      ensures inputAvailable == old(inputAvailable)[input := true]
      ensures remaining == CountFalse(inputAvailable)
      ensures complete <==> CountFalse(inputAvailable) == 0
    {
      CountSet(inputAvailable, input);
      inputAvailable := inputAvailable[input := true];
      remaining := remaining - 1;
      complete := remaining == 0;
    }

    /** Makes exactly the external inputs available and says whether these are all inputs. */
    method InitAvailability() returns (allAvailable: bool)
      modifies this`inputAvailable, this`remaining, this`executed
      ensures !executed
      ensures |inputAvailable| == |inlist| && remaining == CountFalse(inputAvailable)
      ensures forall i | 0 <= i < |inlist| :: inputAvailable[i] <==> inlist[i].intype == ExternIn
      ensures allAvailable <==> CountFalse(inputAvailable) == 0
    {
      remaining := |inlist|;
      executed := false;
      inputAvailable := seq(|inlist|, _ => false);
      CountAllFalse(inputAvailable);
      allAvailable := true;
      for i := 0 to |inlist|
        invariant !executed
        invariant |inputAvailable| == |inlist| && remaining == CountFalse(inputAvailable)
        invariant forall j | 0 <= j < |inlist| :: inputAvailable[j] <==> j < i && inlist[j].intype == ExternIn
        invariant allAvailable <==> forall j | 0 <= j < i :: inputAvailable[j]
      {
        if inlist[i].intype == ExternIn {
          var complete := SetAndCheckAvail(i);
        }
        if !inputAvailable[i] { allAvailable := false; }
      }
      CountZero(inputAvailable);
    }

    /** COMPF_FLAG_CALCOUTPUTS: writes the block's own output cache only. */
    method CalcOutputs(ins: seq<Val>)
      modifies this`outdata
      ensures outdata == comp.out(work, ins)
    {
      outdata := comp.out(work, ins);
    }

    /** COMPF_FLAG_UPDATESTATES: writes the block's own state only. */
    method UpdateStates(ins: seq<Val>)
      modifies this`work
      ensures work == comp.next(old(work), ins, blockEvents)
    {
      work := comp.next(work, ins, blockEvents);
    }
  }

  /** An output cache before anything was computed. */
  function Zeroed(outs: seq<OutConfig>): (cache: seq<Val>)
    ensures |cache| == |outs| && forall o | 0 <= o < |outs| :: |cache[o]| == outs[o].len
    ensures forall o, i | 0 <= o < |outs| && 0 <= i < outs[o].len :: cache[o][i] == 0.0
  {
    seq(|outs|, o requires 0 <= o < |outs| => seq(outs[o].len, _ => 0.0))
  }

  /** Ports of the declared sizes and types. */
  ghost predicate PortsFit(inlist: seq<InPort>, outlist: seq<OutPort>, ins: seq<PortConfig>, outs: seq<OutConfig>) {
    && |inlist| == |ins| && |outlist| == |outs|
    && (forall i | 0 <= i < |ins| :: inlist[i].len == ins[i].len && inlist[i].datatyp == ins[i].datatyp)
    && (forall o | 0 <= o < |outs| :: outlist[o].len == outs[o].len && outlist[o].datatyp == outs[o].datatyp)
  }

  ghost function SourceOf(p: InPort): Source {
    match p.intype
    case Undef => Unconnected
    case ExternIn => External(if p.data.User? then p.data.chan else 0)
    case DirectIn => if p.pre == null then Unconnected else Direct(p.pre.pos, p.outNr)
  }

  ghost function SourcesOf(ports: seq<InPort>): (r: seq<Source>)
    ensures |r| == |ports|
  {
    seq(|ports|, i requires 0 <= i < |ports| => SourceOf(ports[i]))
  }

  function CountFalse(a: seq<bool>): nat {
    if a == [] then 0 else CountFalse(a[..|a|-1]) + if a[|a|-1] then 0 else 1
  }

  lemma {:induction false} CountZero(a: seq<bool>)
    ensures CountFalse(a) == 0 <==> forall i | 0 <= i < |a| :: a[i]
  {
    if a != [] { CountZero(a[..|a|-1]); }
  }

  lemma {:induction false} CountSet(a: seq<bool>, i: nat)
    requires i < |a| && !a[i]
    ensures CountFalse(a[i := true]) == CountFalse(a) - 1
  {
    var init := a[..|a|-1];
    if i == |a| - 1 {
      assert a[i := true][..|a|-1] == init;
    } else {
      CountSet(init, i);
      assert a[i := true][..|a|-1] == init[i := true];
    }
  }

  lemma {:induction false} CountAllFalse(a: seq<bool>)
    requires forall i | 0 <= i < |a| :: !a[i]
    ensures CountFalse(a) == |a|
  {
    if a != [] { CountAllFalse(a[..|a|-1]); }
  }

  // ------------------------------------------------------------------ abstraction of the block heap

  /** The blocks carry exactly these ports and junction lists. */
  ghost predicate Carries(bs: seq<Block>, w: Wires)
    reads bs`inlist, bs`outlist, bs`junction
  {
    && |bs| == |w.ins| == |w.outs| == |w.junctions|
    && forall b | 0 <= b < |bs| ::
         bs[b].inlist == w.ins[b] && bs[b].outlist == w.outs[b] && bs[b].junction == w.junctions[b]
  }

  ghost predicate Positions(bs: seq<Block>) {
    forall b | 0 <= b < |bs| :: bs[b].pos == b
  }

  ghost function AvailOf(bs: seq<Block>, k: nat): (r: seq<seq<bool>>)
    requires k <= |bs|
    reads bs`inputAvailable
    ensures |r| == k && forall b | 0 <= b < k :: r[b] == bs[b].inputAvailable
  {
    if k == 0 then [] else AvailOf(bs, k - 1) + [bs[k-1].inputAvailable]
  }

  lemma DistinctBound(order: seq<nat>, n: nat)
    requires Distinct(order) && forall k | 0 <= k < |order| :: order[k] < n
    ensures |order| <= n
  {
    if |order| > n { var i, j := Pigeonhole(order, n); }
  }

  // ------------------------------------------------------------------ intrusive lists

  ghost function At(bs: seq<Block>, l: seq<nat>, k: nat): Block?
    requires InRange2(bs, l)
  {
    if k < |l| then bs[l[k]] else null
  }

  ghost predicate InRange2(bs: seq<Block>, l: seq<nat>) {
    forall k | 0 <= k < |l| :: l[k] < |bs|
  }

  ghost predicate ExecLink(bs: seq<Block>, order: seq<nat>, k: nat)
    requires InRange2(bs, order) && k < |order|
    reads bs`execNext
  {
    bs[order[k]].execNext == At(bs, order, k + 1)
  }

  ghost predicate SupLink(bs: seq<Block>, sup: seq<nat>, k: nat)
    requires InRange2(bs, sup) && k < |sup|
    reads bs`supNext
  {
    bs[sup[k]].supNext == At(bs, sup, k + 1)
  }

  ghost predicate AllLink(bs: seq<Block>, b: nat)
    requires b < |bs|
    reads bs`allNext
  {
    bs[b].allNext == if b + 1 < |bs| then bs[b+1] else null
  }

  /** The execution list visits exactly `order`. */
  ghost predicate ExecList(bs: seq<Block>, order: seq<nat>, head: Block?, tail: Block?)
    reads bs`execNext
  {
    && InRange2(bs, order) && Distinct(order)
    && head == At(bs, order, 0)
    && (order != [] ==> tail == bs[order[|order|-1]])
    && forall k | 0 <= k < |order| :: ExecLink(bs, order, k)
  }

  /** The state-update list visits exactly `sup`. */
  ghost predicate SupList(bs: seq<Block>, sup: seq<nat>, head: Block?, tail: Block?)
    reads bs`supNext
  {
    && InRange2(bs, sup) && Distinct(sup)
    && head == At(bs, sup, 0)
    && (sup != [] ==> tail == bs[sup[|sup|-1]])
    && (forall k | 0 <= k < |sup| :: SupLink(bs, sup, k))
    && forall b | 0 <= b < |bs| :: b in sup <==> bs[b].dynamic
  }

  ghost predicate AllList(bs: seq<Block>, head: Block?, tail: Block?)
    reads bs`allNext
  {
    && Positions(bs)
    && head == (if bs == [] then null else bs[0])
    && (bs != [] ==> tail == bs[|bs|-1])
    && forall b | 0 <= b < |bs| :: AllLink(bs, b)
  }

  // ------------------------------------------------------------------ junction lists

  /** The ports of all blocks, and for each output the inputs its junction list visits. */
  datatype Wires = Wires(ins: seq<seq<InPort>>, outs: seq<seq<OutPort>>, junctions: seq<seq<seq<Plug>>>)
  {
    ghost predicate Has(p: Plug) { p.block < |ins| && p.input < |ins[p.block]| }

    ghost function Port(p: Plug): InPort
      requires Has(p)
    {
      ins[p.block][p.input]
    }
  }

  /** Element k of the junction list l of output o of block b, and its pointer to the next element. */
  ghost predicate Link(bs: seq<Block>, w: Wires, b: nat, o: nat, l: seq<Plug>, k: nat)
    requires b < |bs| == |w.ins| && k < |l|
  {
    && w.Has(l[k])
    && (k + 1 < |l| ==> w.Has(l[k+1]))
    && var p := w.Port(l[k]);
       && p.intype == DirectIn && p.pre == bs[b] && p.outNr == o && p.data == Cache(bs[b], o)
       && (k + 1 == |l| ==> p.nextBlock == null)
       && (k + 1 < |l| ==> p.nextBlock == bs[l[k+1].block] && p.nextInput == l[k+1].input)
  }

  /** The pointers of one output port and of its inputs spell out a list without repetitions. */
  ghost predicate JunctionList(bs: seq<Block>, w: Wires, b: nat, o: nat)
    requires |bs| == |w.ins| == |w.outs| == |w.junctions|
    requires b < |bs| && o < |w.outs[b]| == |w.junctions[b]|
  {
    var l := w.junctions[b][o];
    && (forall k | 0 <= k < |l| :: Link(bs, w, b, o, l, k))
    && (l == [] ==> w.outs[b][o].post == null)
    && (l != [] ==> w.Has(l[0]) && w.outs[b][o].post == bs[l[0].block] && w.outs[b][o].postInput == l[0].input)
    && (forall i, j | 0 <= i < j < |l| :: l[i] != l[j])
  }

  /** Where an input says its data are is where they are. */
  ghost predicate PortOk(bs: seq<Block>, w: Wires, p: Plug)
    requires |bs| == |w.ins| == |w.outs| && w.Has(p)
  {
    var port := w.Port(p);
    && (port.intype == Undef ==> port.data == Null)
    && (port.intype == ExternIn ==> port.data.User?)
    && (port.intype == DirectIn ==>
          && port.pre != null && port.pre.pos < |bs| && bs[port.pre.pos] == port.pre
          && port.data == Cache(port.pre, port.outNr) && port.outNr < |w.outs[port.pre.pos]|)
  }

  /** All inputs are right about their sources; junction lists need not be. */
  ghost predicate Plugged(bs: seq<Block>, w: Wires) {
    && Positions(bs)
    && |bs| == |w.ins| == |w.outs| == |w.junctions|
    && (forall b | 0 <= b < |bs| :: |w.junctions[b]| == |w.outs[b]|)
    && (forall x, i {:trigger PortOk(bs, w, Plug(x, i))} |
          0 <= x < |bs| && 0 <= i < |w.ins[x]| :: PortOk(bs, w, Plug(x, i)))
  }

  /** A direct input is on the junction list of the output it is connected to. */
  ghost predicate OnItsList(bs: seq<Block>, w: Wires, p: Plug)
    requires |bs| == |w.ins| == |w.outs| == |w.junctions| && w.Has(p)
  {
    var port := w.Port(p);
    && (port.intype == Undef ==> port.data == Null)
    && (port.intype == ExternIn ==> port.data.User?)
    && (port.intype == DirectIn ==>
          && port.pre != null && port.pre.pos < |bs| && bs[port.pre.pos] == port.pre
          && port.data == Cache(port.pre, port.outNr)
          && port.outNr < |w.junctions[port.pre.pos]|
          && p in w.junctions[port.pre.pos][port.outNr])
  }

  /**
    The wiring invariant: walking the junction list of an output ends, and visits exactly the
    inputs connected to that output, once each.
   */
  ghost predicate Wired(bs: seq<Block>, w: Wires) {
    && Positions(bs)
    && |bs| == |w.ins| == |w.outs| == |w.junctions|
    && (forall b | 0 <= b < |bs| :: |w.junctions[b]| == |w.outs[b]|)
    && (forall b, o | 0 <= b < |bs| && 0 <= o < |w.outs[b]| :: JunctionList(bs, w, b, o))
    && (forall x, i {:trigger OnItsList(bs, w, Plug(x, i))} |
          0 <= x < |bs| && 0 <= i < |w.ins[x]| :: OnItsList(bs, w, Plug(x, i)))
  }

  /** An input is on the junction list of an output exactly when it is connected to it. */
  lemma JunctionExact(bs: seq<Block>, w: Wires, b: nat, o: nat, p: Plug)
    requires Wired(bs, w) && b < |bs| && o < |w.outs[b]|
    ensures p in w.junctions[b][o] <==> w.Has(p) && SourceOf(w.Port(p)) == Direct(b, o)
  {
    var l := w.junctions[b][o];
    assert JunctionList(bs, w, b, o);
    if p in l {
      var k :| 0 <= k < |l| && l[k] == p;
      assert Link(bs, w, b, o, l, k);
    }
    if w.Has(p) { assert OnItsList(bs, w, Plug(p.block, p.input)); }
  }

  /** Lists of different outputs are disjoint. */
  lemma JunctionsDisjoint(bs: seq<Block>, w: Wires, b: nat, o: nat, b': nat, o': nat, p: Plug)
    requires Wired(bs, w) && b < |bs| && o < |w.outs[b]| && b' < |bs| && o' < |w.outs[b']|
    requires p in w.junctions[b][o] && p in w.junctions[b'][o']
    ensures b == b' && o == o'
  {
    JunctionExact(bs, w, b, o, p);
    JunctionExact(bs, w, b', o', p);
  }

  /** The wires after output (a, o) was connected to input p. */
  ghost function ConnectWires(bs: seq<Block>, w: Wires, a: nat, o: nat, p: Plug): Wires
    requires |bs| == |w.ins| == |w.outs| == |w.junctions| && w.Has(p)
    requires a < |bs| && o < |w.outs[a]| == |w.junctions[a]|
  {
    var src := w.outs[a][o];
    var dst := w.Port(p).(pre := bs[a], outNr := o, intype := DirectIn, data := Cache(bs[a], o),
                          nextBlock := src.post, nextInput := src.postInput);
    Wires(
      w.ins[p.block := w.ins[p.block][p.input := dst]],
      w.outs[a := w.outs[a][o := src.(connected := true, post := bs[p.block], postInput := p.input)]],
      w.junctions[a := w.junctions[a][o := [p] + w.junctions[a][o]]])
  }

  lemma ConnectedList(bs: seq<Block>, w: Wires, a: nat, o: nat, p: Plug, b: nat, q: nat)
    requires Wired(bs, w) && w.Has(p) && w.Port(p).intype == Undef
    requires a < |bs| && o < |w.outs[a]| && b < |bs| && q < |w.outs[b]|
    ensures JunctionList(bs, ConnectWires(bs, w, a, o, p), b, q)
  {
    var w' := ConnectWires(bs, w, a, o, p);
    var l, l' := w.junctions[b][q], w'.junctions[b][q];
    assert JunctionList(bs, w, b, q);
    assert p !in l by { JunctionExact(bs, w, b, q, p); }
    var shift := if b == a && q == o then 1 else 0;
    forall k | 0 <= k < |l'| ensures Link(bs, w', b, q, l', k) {
      if k >= shift {
        assert Link(bs, w, b, q, l, k - shift);
        assert l[k-shift] in l;
      } else if l != [] {
        assert Link(bs, w, b, q, l, 0);
      }
    }
  }

  lemma ConnectKeepsWired(bs: seq<Block>, w: Wires, a: nat, o: nat, p: Plug)
    requires Wired(bs, w) && w.Has(p) && w.Port(p).intype == Undef
    requires a < |bs| && o < |w.outs[a]|
    ensures Wired(bs, ConnectWires(bs, w, a, o, p))
  {
    var w' := ConnectWires(bs, w, a, o, p);
    forall b, q | 0 <= b < |bs| && 0 <= q < |w'.outs[b]| ensures JunctionList(bs, w', b, q) {
      ConnectedList(bs, w, a, o, p, b, q);
    }
    forall x, i | 0 <= x < |bs| && 0 <= i < |w'.ins[x]| ensures OnItsList(bs, w', Plug(x, i)) {
      assert OnItsList(bs, w, Plug(x, i));
    }
  }

  lemma ConnectKeepsPlugged(bs: seq<Block>, w: Wires, a: nat, o: nat, p: Plug)
    requires Plugged(bs, w) && w.Has(p) && a < |bs| && o < |w.outs[a]|
    ensures Plugged(bs, ConnectWires(bs, w, a, o, p))
  {
    var w' := ConnectWires(bs, w, a, o, p);
    forall x, i | 0 <= x < |bs| && 0 <= i < |w'.ins[x]| ensures PortOk(bs, w', Plug(x, i)) {
      assert PortOk(bs, w, Plug(x, i));
    }
  }

  /** libdyn_block_connect. */
  method Connect(ghost bs: seq<Block>, ghost w: Wires, from: Block, outNr: int, to: Block, inNr: int)
    returns (code: int)
    requires Carries(bs, w) && Plugged(bs, w) && from in bs && to in bs
    modifies to`inlist, from`outlist, from`junction
    ensures code == (
      if inNr < 0 || inNr >= |old(to.inlist)| then -1
      else if outNr < 0 || outNr >= |old(from.outlist)| then -2
      else if old(to.inlist)[inNr].len != old(from.outlist)[outNr].len then -3
      else if old(to.inlist)[inNr].datatyp != old(from.outlist)[outNr].datatyp then -4
      else if old(to.inlist)[inNr].intype != Undef then -5
      else 1)
    ensures code != 1 ==> Carries(bs, w)
    ensures code == 1 ==>
      var w' := ConnectWires(bs, w, from.pos, outNr, Plug(to.pos, inNr));
      Carries(bs, w') && Plugged(bs, w') && (Wired(bs, w) ==> Wired(bs, w'))
    ensures code == 1 ==>
      SourcesOf(to.inlist) == SourcesOf(old(to.inlist))[inNr := Direct(from.pos, outNr)]
  {
    if inNr < 0 || inNr >= |to.inlist| { return -1; }
    if outNr < 0 || outNr >= |from.outlist| { return -2; }
    var dst, src := to.inlist[inNr], from.outlist[outNr];
    if dst.len != src.len { return -3; }
    if dst.datatyp != src.datatyp { return -4; }
    if dst.intype != Undef { return -5; }
    ConnectKeepsPlugged(bs, w, from.pos, outNr, Plug(to.pos, inNr));
    if Wired(bs, w) { ConnectKeepsWired(bs, w, from.pos, outNr, Plug(to.pos, inNr)); }

    to.inlist := to.inlist[inNr := dst.(pre := from, outNr := outNr, intype := DirectIn,
      data := Cache(from, outNr), nextBlock := src.post, nextInput := src.postInput)];
    from.outlist := from.outlist[outNr := src.(connected := true, post := to, postInput := inNr)];
    from.junction := from.junction[outNr := [Plug(to.pos, inNr)] + from.junction[outNr]];
    return 1;
  }

  /** The wires after input p was pointed at user memory. */
  ghost function ExternalWires(w: Wires, p: Plug, chan: nat): Wires
    requires w.Has(p)
  {
    w.(ins := w.ins[p.block := w.ins[p.block][p.input :=
         w.Port(p).(pre := null, intype := ExternIn, data := User(chan))]])
  }

  /**
    Pointing an input at user memory keeps the wiring right exactly when the input was not
    directly connected: the source does not look, and would leave the input on a junction list.
   */
  lemma ExternalKeepsWired(bs: seq<Block>, w: Wires, p: Plug, chan: nat)
    requires Wired(bs, w) && w.Has(p)
    ensures Wired(bs, ExternalWires(w, p, chan)) <==> w.Port(p).intype != DirectIn
  {
    var w' := ExternalWires(w, p, chan);
    var port := w.Port(p);
    assert OnItsList(bs, w, Plug(p.block, p.input));
    if port.intype == DirectIn {
      JunctionExact(bs, w, port.pre.pos, port.outNr, p);
      assert p in w'.junctions[port.pre.pos][port.outNr] && w'.Port(p).intype == ExternIn;
      if Wired(bs, w') { JunctionExact(bs, w', port.pre.pos, port.outNr, p); }
    } else {
      forall b, o | 0 <= b < |bs| && 0 <= o < |w'.outs[b]| ensures JunctionList(bs, w', b, o) {
        ExternalList(bs, w, p, chan, b, o);
      }
      forall x, i | 0 <= x < |bs| && 0 <= i < |w'.ins[x]| ensures OnItsList(bs, w', Plug(x, i)) {
        assert OnItsList(bs, w, Plug(x, i));
      }
    }
  }

  lemma ExternalList(bs: seq<Block>, w: Wires, p: Plug, chan: nat, b: nat, o: nat)
    requires Wired(bs, w) && w.Has(p) && w.Port(p).intype != DirectIn
    requires b < |bs| && o < |w.outs[b]|
    ensures JunctionList(bs, ExternalWires(w, p, chan), b, o)
  {
    var l := w.junctions[b][o];
    assert JunctionList(bs, w, b, o);
    assert p !in l by { JunctionExact(bs, w, b, o, p); }
    forall k | 0 <= k < |l| ensures Link(bs, ExternalWires(w, p, chan), b, o, l, k) {
      assert Link(bs, w, b, o, l, k);
      assert l[k] in l;
    }
  }

  lemma ExternalKeepsPlugged(bs: seq<Block>, w: Wires, p: Plug, chan: nat)
    requires Plugged(bs, w) && w.Has(p)
    ensures Plugged(bs, ExternalWires(w, p, chan))
  {
    var w' := ExternalWires(w, p, chan);
    forall x, i | 0 <= x < |bs| && 0 <= i < |w'.ins[x]| ensures PortOk(bs, w', Plug(x, i)) {
      assert PortOk(bs, w, Plug(x, i));
    }
  }

  /** libdyn_block_connect_external. The user memory is channel `chan` of the simulation's input pointers. */
  method ConnectExternal(ghost bs: seq<Block>, ghost w: Wires, to: Block, inNr: int, chan: nat, portsize: int)
    returns (code: int)
    requires Carries(bs, w) && Plugged(bs, w) && to in bs
    modifies to`inlist
    ensures code == (
      if inNr < 0 || inNr >= |old(to.inlist)| then -1
      else if portsize != old(to.inlist)[inNr].len then -2
      else 0)
    ensures code != 0 ==> Carries(bs, w)
    ensures code == 0 ==>
      var w' := ExternalWires(w, Plug(to.pos, inNr), chan);
      && Carries(bs, w') && Plugged(bs, w')
      && (Wired(bs, w) ==> (Wired(bs, w') <==> old(to.inlist)[inNr].intype != DirectIn))
    ensures code == 0 ==>
      SourcesOf(to.inlist) == SourcesOf(old(to.inlist))[inNr := External(chan)]
  {
    if inNr < 0 || inNr >= |to.inlist| { return -1; }
    if portsize != to.inlist[inNr].len { return -2; }
    ExternalKeepsPlugged(bs, w, Plug(to.pos, inNr), chan);
    if Wired(bs, w) { ExternalKeepsWired(bs, w, Plug(to.pos, inNr), chan); }
    to.inlist := to.inlist[inNr := to.inlist[inNr].(intype := ExternIn, pre := null, data := User(chan))];
    return 0;
  }

  /** Wires of one more, unconnected block. */
  ghost function AppendWires(w: Wires, ins: seq<InPort>, outs: seq<OutPort>, junction: seq<seq<Plug>>): Wires {
    Wires(w.ins + [ins], w.outs + [outs], w.junctions + [junction])
  }

  lemma AppendKeepsWired(
    bs: seq<Block>, w: Wires, block: Block, ins: seq<InPort>, outs: seq<OutPort>, junction: seq<seq<Plug>>)
    requires Wired(bs, w) && block.pos == |bs| && |junction| == |outs|
    requires forall i | 0 <= i < |ins| :: ins[i].intype == Undef && ins[i].data == Null
    requires forall o | 0 <= o < |outs| :: outs[o].post == null && junction[o] == []
    ensures Wired(bs + [block], AppendWires(w, ins, outs, junction))
  {
    var bs', w' := bs + [block], AppendWires(w, ins, outs, junction);
    forall b, o | 0 <= b < |bs'| && 0 <= o < |w'.outs[b]| ensures JunctionList(bs', w', b, o) {
      if b < |bs| {
        assert JunctionList(bs, w, b, o);
        var l := w.junctions[b][o];
        forall k | 0 <= k < |l| ensures Link(bs', w', b, o, l, k) {
          assert Link(bs, w, b, o, l, k);
        }
      }
    }
    forall x, i | 0 <= x < |bs'| && 0 <= i < |w'.ins[x]| ensures OnItsList(bs', w', Plug(x, i)) {
      if x < |bs| { assert OnItsList(bs, w, Plug(x, i)); }
    }
  }

  lemma AppendKeepsPlugged(
    bs: seq<Block>, w: Wires, block: Block, ins: seq<InPort>, outs: seq<OutPort>, junction: seq<seq<Plug>>)
    requires Plugged(bs, w) && block.pos == |bs| && |junction| == |outs|
    requires forall i | 0 <= i < |ins| :: ins[i].intype == Undef && ins[i].data == Null
    ensures Plugged(bs + [block], AppendWires(w, ins, outs, junction))
  {
    var bs', w' := bs + [block], AppendWires(w, ins, outs, junction);
    forall x, i | 0 <= x < |bs'| && 0 <= i < |w'.ins[x]| ensures PortOk(bs', w', Plug(x, i)) {
      if x < |bs| { assert PortOk(bs, w, Plug(x, i)); }
    }
  }
}
