/**
  Building a simulation from its parameters: blocks are created as the connection list names them,
  connected, checked and scheduled.
 */
module Builder {
  import opened Events
  import opened Dataflow
  import opened Wiring
  import opened SimulationObject
  import opened Irpar
  import opened Plan

  /** Where an output of the simulation finds its data. */
  datatype OutRef = NaN | OutputOf(block: Block, port: nat) | InputPtr(chan: nat)

  ghost function BindingOf(r: OutRef): Binding {
    match r
    case NaN => Unbound
    case OutputOf(block, port) => FromBlock(block.pos, port)
    case InputPtr(chan) => PassThrough(chan)
  }

  ghost predicate Ports(block: Block, t: Template)
    reads block`inlist, block`outlist
  {
    PortsFit(block.inlist, block.outlist, t.ins, t.outs)
  }

  /** The block list holds the block created from description s, if there is one. */
  ghost predicate SlotRight(blocklist: seq<Block?>, sids: seq<nat>, bs: seq<Block>, s: nat)
    requires s < |blocklist| && |sids| == |bs|
  {
    blocklist[s] == if s in sids then bs[IndexIn(sids, s)] else null
  }

  /** Block b has the ports of its template. */
  ghost predicate Fits(env: Env, sids: seq<nat>, w: Wires, b: nat)
    requires b < |sids| == |w.ins| == |w.outs|
  {
    && env.CanCreate(sids[b])
    && var t := env.catalog[sids[b]].value;
       PortsFit(w.ins[b], w.outs[b], t.ins, t.outs)
  }

  ghost predicate AllFit(env: Env, sids: seq<nat>, w: Wires) {
    |sids| == |w.ins| == |w.outs| && forall b: nat | b < |sids| :: Fits(env, sids, w, b)
  }

  /** No block has computed its outputs yet. */
  ghost predicate Untouched(bs: seq<Block>)
    reads bs`needsOutputUpdate
  {
    forall b | 0 <= b < |bs| :: bs[b].needsOutputUpdate
  }

  ghost function BindingsOf(refs: seq<OutRef>): (r: seq<Binding>)
    ensures |r| == |refs|
  {
    seq(|refs|, i requires 0 <= i < |refs| => BindingOf(refs[i]))
  }

  /** The outputs of the simulation point where the plan says. */
  ghost predicate OutsRight(refs: seq<OutRef>, outs: seq<Binding>, bs: seq<Block>) {
    && BindingsOf(refs) == outs
    && forall o | 0 <= o < |refs| && refs[o].OutputOf? :: refs[o].block in bs
  }

  /** The block has the state and the outputs it was created with. */
  ghost predicate StartsAs(block: Block, t: Template)
    reads block`work, block`outdata
  {
    block.work == t.work && block.outdata == Zeroed(t.outs)
  }

  /** Block b starts as its template says. */
  ghost predicate StartAt(env: Env, sids: seq<nat>, bs: seq<Block>, b: nat)
    requires b < |sids| == |bs|
    reads bs`work, bs`outdata
  {
    env.CanCreate(sids[b]) && StartsAs(bs[b], env.catalog[sids[b]].value)
  }

  ghost predicate Starting(env: Env, sids: seq<nat>, bs: seq<Block>)
    reads bs`work, bs`outdata
  {
    |sids| == |bs| && forall b: nat | b < |bs| :: StartAt(env, sids, bs, b)
  }

  lemma EnteredStarting(env: Env, sids: seq<nat>, bs: seq<Block>, s: nat, block: Block)
    requires Starting(env, sids, bs) && env.CanCreate(s) && StartsAs(block, env.catalog[s].value)
    ensures Starting(env, sids + [s], bs + [block])
  {
    forall b: nat | b < |bs| + 1 ensures StartAt(env, sids + [s], bs + [block], b) {
      if b < |bs| { assert StartAt(env, sids, bs, b); }
    }
  }

  ghost predicate CanConnect(src: Block, outNr: int, dst: Block, inNr: int)
    reads src`outlist, dst`inlist
  {
    && 0 <= inNr < |dst.inlist| && 0 <= outNr < |src.outlist|
    && dst.inlist[inNr].len == src.outlist[outNr].len && dst.inlist[inNr].datatyp == src.outlist[outNr].datatyp
    && dst.inlist[inNr].intype == Undef
  }

  /** The ports differ in their connections at most. */
  ghost predicate SamePorts(v: Wires, w: Wires) {
    && |v.ins| == |w.ins| && |v.outs| == |w.outs|
    && (forall b | 0 <= b < |v.ins| :: |v.ins[b]| == |w.ins[b]|)
    && (forall b | 0 <= b < |v.outs| :: |v.outs[b]| == |w.outs[b]|)
    && (forall b, i | 0 <= b < |v.ins| && 0 <= i < |v.ins[b]| ::
          v.ins[b][i].len == w.ins[b][i].len && v.ins[b][i].datatyp == w.ins[b][i].datatyp)
    && (forall b, o | 0 <= b < |v.outs| && 0 <= o < |v.outs[b]| ::
          v.outs[b][o].len == w.outs[b][o].len && v.outs[b][o].datatyp == w.outs[b][o].datatyp)
  }

  lemma SamePortsFit(v: Wires, w: Wires, b: nat, t: Template)
    requires SamePorts(v, w) && b < |v.ins| == |v.outs|
    ensures PortsFit(v.ins[b], v.outs[b], t.ins, t.outs) ==> PortsFit(w.ins[b], w.outs[b], t.ins, t.outs)
  {
  }

  lemma SamePortsAllFit(env: Env, sids: seq<nat>, v: Wires, w: Wires)
    requires SamePorts(v, w) && AllFit(env, sids, v)
    ensures AllFit(env, sids, w)
  {
    forall b: nat | b < |sids| ensures Fits(env, sids, w, b) {
      assert Fits(env, sids, v, b);
      SamePortsFit(v, w, b, env.catalog[sids[b]].value);
    }
  }

  lemma EnteredAllFit(
    env: Env, sids: seq<nat>, w: Wires, s: nat, ins: seq<InPort>, outs: seq<OutPort>, junction: seq<seq<Plug>>)
    requires AllFit(env, sids, w) && env.CanCreate(s)
    requires PortsFit(ins, outs, env.catalog[s].value.ins, env.catalog[s].value.outs)
    ensures AllFit(env, sids + [s], AppendWires(w, ins, outs, junction))
  {
    forall b: nat | b < |sids| + 1 ensures Fits(env, sids + [s], AppendWires(w, ins, outs, junction), b) {
      if b < |sids| { assert Fits(env, sids, w, b); }
    }
  }

  /** The block list holds the blocks created so far at the places of their descriptions. */
  ghost predicate ListRight(blocklist: seq<Block?>, sids: seq<nat>, bs: seq<Block>) {
    |sids| == |bs| && forall s: nat | s < |blocklist| :: SlotRight(blocklist, sids, bs, s)
  }

  lemma EnteredListRight(blocklist: seq<Block?>, sids: seq<nat>, bs: seq<Block>, s: nat, block: Block)
    requires ListRight(blocklist, sids, bs) && s < |blocklist| && s !in sids && Distinct(sids)
    ensures ListRight(blocklist[s := block], sids + [s], bs + [block])
  {
    var list, more, all := blocklist[s := block], sids + [s], bs + [block];
    forall r: nat | r < |list| ensures SlotRight(list, more, all, r) {
      assert SlotRight(blocklist, sids, bs, r);
      if r in sids { IndexStays(sids, more, r); }
      if r == s { IndexUnique(more, |bs|); }
    }
  }

  /** The graph g shows the blocks' nodes. */
  ghost predicate ShownAt(bs: seq<Block>, g: Graph, b: nat)
    requires b < |bs| == |g|
    reads bs`inlist, bs`eventMask, bs`eventMap
  {
    bs[b].AsNode() == g[b]
  }

  ghost predicate Shown(bs: seq<Block>, g: Graph)
    reads bs`inlist, bs`eventMask, bs`eventMap
  {
    |bs| == |g| && forall b: nat | b < |g| :: ShownAt(bs, g, b)
  }

  /** Connecting two blocks changes one input of one node. */
  method ConnectNode(
    ghost sim: Simulation, ghost bs: seq<Block>, ghost w: Wires, ghost g: Graph,
    src: Block, outNr: int, dst: Block, inNr: int)
    returns (ok: bool)
    requires sim.Building() && bs == sim.blocks && Untouched(bs)
    requires Carries(bs, w) && Plugged(bs, w) && Shown(bs, g) && src in bs && dst in bs
    modifies dst`inlist, src`outlist, src`junction
    ensures sim.Building() && Untouched(bs)
    ensures ok <==> old(CanConnect(src, outNr, dst, inNr))
    ensures ok ==>
      var w' := ConnectWires(bs, w, src.pos, outNr, Plug(dst.pos, inNr));
      Carries(bs, w') && Plugged(bs, w') && SamePorts(w, w') && (Wired(bs, w) ==> Wired(bs, w'))
    ensures ok ==> dst.pos < |g| && inNr < |g[dst.pos].ins|
    ensures ok ==> Shown(bs, WithSource(g, dst.pos, inNr, Direct(src.pos, outNr)))
  {
    assert ShownAt(bs, g, dst.pos);
    var code := Connect(bs, w, src, outNr, dst, inNr);
    ok := code == 1;
    if ok {
      ghost var h := WithSource(g, dst.pos, inNr, Direct(src.pos, outNr));
      forall b: nat | b < |h| ensures ShownAt(bs, h, b) {
        assert old(ShownAt(bs, g, b));
      }
    }
  }

  /** Pointing an input at user memory changes one input of one node. */
  method UserNode(
    ghost sim: Simulation, ghost bs: seq<Block>, ghost w: Wires, ghost g: Graph,
    dst: Block, inNr: int, chan: nat, portsize: int)
    returns (ok: bool)
    requires sim.Building() && bs == sim.blocks && Untouched(bs)
    requires Carries(bs, w) && Plugged(bs, w) && Shown(bs, g) && dst in bs
    modifies dst`inlist
    ensures sim.Building() && Untouched(bs)
    ensures ok <==> 0 <= inNr < |old(dst.inlist)| && portsize == old(dst.inlist)[inNr].len
    ensures ok ==>
      var w' := ExternalWires(w, Plug(dst.pos, inNr), chan);
      && Carries(bs, w') && Plugged(bs, w') && SamePorts(w, w')
      && (Wired(bs, w) ==> (Wired(bs, w') <==> old(dst.inlist)[inNr].intype != DirectIn))
    ensures ok ==> dst.pos < |g| && inNr < |g[dst.pos].ins|
    ensures ok ==> Shown(bs, WithSource(g, dst.pos, inNr, External(chan)))
  {
    assert ShownAt(bs, g, dst.pos);
    var code := ConnectExternal(bs, w, dst, inNr, chan, portsize);
    ok := code == 0;
    if ok {
      ghost var h := WithSource(g, dst.pos, inNr, External(chan));
      forall b: nat | b < |h| ensures ShownAt(bs, h, b) {
        assert old(ShownAt(bs, g, b));
      }
    }
  }

  /** Registers a new block for the events of its parameters. */
  method RegisterEvents(block: Block, events: seq<nat>) returns (ok: bool)
    requires block.eventMask == {} && block.eventMap == [] && |events| <= WIDTH
    requires forall i | 0 <= i < |events| :: events[i] != WIDTH
    modifies block`eventMask, block`eventMap
    ensures ok <==> forall i | 0 <= i < |events| :: events[i] < WIDTH
    ensures ok ==> Subscription(block.eventMask, block.eventMap) == RegisterAll(EventNumbers(events), |events|)
  {
    for i := 0 to |events|
      invariant |block.eventMap| == i
      invariant forall j | 0 <= j < i :: events[j] < WIDTH
      invariant Subscription(block.eventMask, block.eventMap) == RegisterAll(EventNumbers(events[..i]), i)
    {
      var code := block.NewEventNotifier(events[i]);
      if code == 1 { return false; }
      assert EventNumbers(events[..i+1]) == EventNumbers(events[..i]) + [events[i]];
      PrefixRegisters(EventNumbers(events[..i]), events[i], i);
    }
    assert events[..|events|] == events;
    return true;
  }

  lemma PrefixRegisters(events: seq<EventNr>, e: EventNr, k: nat)
    requires k <= |events|
    ensures RegisterAll(events + [e], k) == RegisterAll(events, k)
  {
    if k > 0 { PrefixRegisters(events, e, k - 1); }
  }

  /** A template's node before its events are registered. */
  ghost function DeafNode(t: Template): Node {
    Node(t.dynamic, exists o :: 0 <= o < |t.outs| && t.outs[o].dinput, seq(|t.ins|, _ => Unconnected), t.comp, {}, [])
  }

  /** A new block without events. */
  method NewDeaf(sim: Simulation, t: Template, ghost wires: Wires, ghost g: Graph) returns (block: Block)
    requires sim.Building() && Untouched(sim.blocks)
    requires Carries(sim.blocks, wires) && Plugged(sim.blocks, wires) && Shown(sim.blocks, g)
    modifies sim, sim.blocks`allNext, sim.blocks`supNext
    ensures sim.Building() && sim.blocks == old(sim.blocks) + [block] && fresh(block) && sim.inptr == old(sim.inptr)
    ensures Untouched(sim.blocks) && Ports(block, t) && StartsAs(block, t) && Shown(sim.blocks, g + [DeafNode(t)])
    ensures var w := AppendWires(wires, block.inlist, block.outlist, block.junction);
            Carries(sim.blocks, w) && Plugged(sim.blocks, w) && (Wired(old(sim.blocks), wires) ==> Wired(sim.blocks, w))
  {
    ghost var bs := sim.blocks;
    block := sim.NewBlock(t.dynamic, t.comp, t.ins, t.outs, t.work, wires);
    ghost var h := g + [DeafNode(t)];
    forall b: nat | b < |h| ensures ShownAt(sim.blocks, h, b) {
      assert b < |g| ==> old(ShownAt(bs, g, b));
    }
  }

  /** Registers the events of the newest block. */
  method RegisterNewest(ghost bs: seq<Block>, block: Block, t: Template, ghost g: Graph) returns (ok: bool)
    requires t.Safe() && block !in bs && |g| == |bs| && Shown(bs + [block], g + [DeafNode(t)])
    modifies block`eventMask, block`eventMap
    ensures ok <==> t.EventsOk()
    ensures ok ==> Shown(bs + [block], g + [FreshNode(t)])
  {
    ghost var all, before := bs + [block], g + [DeafNode(t)];
    assert ShownAt(all, before, |g|);
    ok := RegisterEvents(block, t.events);
    if ok {
      ghost var h := g + [FreshNode(t)];
      forall b: nat | b < |h| ensures ShownAt(all, h, b) {
        assert old(ShownAt(all, before, b));
      }
    }
  }

  /** A new block with its events registered. */
  method NewRegistered(sim: Simulation, t: Template, ghost wires: Wires, ghost g: Graph)
    returns (block: Block, ok: bool)
    requires sim.Building() && Untouched(sim.blocks) && t.Safe()
    requires Carries(sim.blocks, wires) && Plugged(sim.blocks, wires) && Shown(sim.blocks, g)
    modifies sim, sim.blocks`allNext, sim.blocks`supNext
    ensures ok <==> t.EventsOk()
    ensures sim.Building() && sim.blocks == old(sim.blocks) + [block] && fresh(block) && sim.inptr == old(sim.inptr)
    ensures Untouched(sim.blocks) && Ports(block, t) && StartsAs(block, t)
    ensures ok ==> Shown(sim.blocks, g + [FreshNode(t)])
    ensures var w := AppendWires(wires, block.inlist, block.outlist, block.junction);
            Carries(sim.blocks, w) && Plugged(sim.blocks, w) && (Wired(old(sim.blocks), wires) ==> Wired(sim.blocks, w))
  {
    ghost var bs := sim.blocks;
    block := NewDeaf(sim, t, wires, g);
    ok := RegisterNewest(bs, block, t, g);
  }

  class Builder {
    const sim: Simulation
    const env: Env
    var blocklist: seq<Block?>
    var outptr: seq<OutRef>
    ghost var plan: Plan
    ghost var wires: Wires

    /** The heap carries a wired simulation whose blocks are those on the block list. */
    ghost predicate Sound()
      reads this, sim, sim.blocks
    {
      && env.Valid() && sim.Building() && Untouched(sim.blocks)
      && Carries(sim.blocks, wires) && Plugged(sim.blocks, wires)
      && |plan.sids| == |sim.blocks| && |blocklist| == |env.catalog|
      && OutsRight(outptr, plan.outs, sim.blocks) && Shown(sim.blocks, plan.graph)
      && ListRight(blocklist, plan.sids, sim.blocks)
      && AllFit(env, plan.sids, wires) && Starting(env, plan.sids, sim.blocks)
    }

    ghost predicate Valid()
      reads this, sim, sim.blocks
    {
      Sound() && Ok(plan, env)
    }

    constructor (sim: Simulation, env: Env)
      requires sim.Building() && sim.blocks == [] && env.Valid()
      ensures Valid() && this.sim == sim && this.env == env && plan == Empty(env) && Wired(sim.blocks, wires)
    {
      this.sim, this.env := sim, env;
      blocklist := seq(|env.catalog|, _ => null);
      outptr := seq(|env.outsizes|, _ => NaN);
      plan := Empty(env);
      wires := Wires([], [], []);
    }

    /** Creates a block from description s and registers its events. */
    method CreateFrom(s: nat) returns (block: Block?)
      requires Valid() && s < |blocklist| && s !in plan.sids && env.catalog[s].Some?
      modifies this`blocklist, this`plan, this`wires, sim, sim.blocks`allNext, sim.blocks`supNext
      ensures block != null <==> env.CanCreate(s)
      ensures block != null ==>
        Valid() && plan == Ensured(old(plan), env, s) && IsBlock(block, s) && Grew()
    {
      ghost var bs := sim.blocks;
      var b, ok := NewRegistered(sim, env.catalog[s].value, wires, plan.graph);
      if !ok { return null; }
      block := b;
      Enter(b, s, bs);
    }

    /** Enters the newest block of the simulation into the block list. */
    method Enter(block: Block, s: nat, ghost bs: seq<Block>)
      requires env.Valid() && sim.Building() && Untouched(sim.blocks)
      requires sim.blocks == bs + [block] && s !in plan.sids && env.CanCreate(s) && |blocklist| == |env.catalog|
      requires ListRight(blocklist, plan.sids, bs) && AllFit(env, plan.sids, wires)
      requires Ports(block, env.catalog[s].value)
      requires Starting(env, plan.sids, bs) && StartsAs(block, env.catalog[s].value)
      requires Ok(plan, env) && OutsRight(outptr, plan.outs, bs)
      requires Shown(sim.blocks, plan.graph + [FreshNode(env.catalog[s].value)])
      requires var w := AppendWires(wires, block.inlist, block.outlist, block.junction);
               Carries(sim.blocks, w) && Plugged(sim.blocks, w)
      modifies this`blocklist, this`plan, this`wires
      ensures Valid() && plan == Ensured(old(plan), env, s) && IsBlock(block, s)
      ensures old(plan).sids <= plan.sids
      ensures wires == AppendWires(old(wires), block.inlist, block.outlist, block.junction)
    {
      EnsuredOk(plan, env, s);
      EnteredListRight(blocklist, plan.sids, bs, s, block);
      EnteredStarting(env, plan.sids, bs, s, block);
      EnteredAllFit(env, plan.sids, wires, s, block.inlist, block.outlist, block.junction);
      blocklist := blocklist[s := block];
      plan := Ensured(plan, env, s);
      wires := AppendWires(wires, block.inlist, block.outlist, block.junction);
      IndexUnique(plan.sids, |bs|);
    }

    /** New blocks were added at most, and the user memory is the same. */
    twostate predicate OnlyNew()
      reads sim
    {
      && sim.inptr == old(sim.inptr) && |old(sim.blocks)| <= |sim.blocks|
      && forall i | 0 <= i < |sim.blocks| ::
           if i < |old(sim.blocks)| then sim.blocks[i] == old(sim.blocks)[i] else fresh(sim.blocks[i])
    }

    /** Blocks were added at most, and the junction lists are still right if they were. */
    twostate predicate Grew()
      reads this, sim
    {
      && old(plan).sids <= plan.sids && OnlyNew()
      && (old(Wired(sim.blocks, wires)) ==> Wired(sim.blocks, wires))
    }

    /** The block created from description s. */
    ghost predicate IsBlock(block: Block?, s: nat)
      requires |plan.sids| == |sim.blocks|
      reads this`plan, sim`blocks
    {
      s in plan.sids && block == sim.blocks[IndexIn(plan.sids, s)]
    }

    /** irpar_get_libdynblock: the block with this id, created if it is not there yet. */
    method GetBlock(id: int) returns (block: Block?)
      requires Valid()
      modifies this`blocklist, this`plan, this`wires, sim, sim.blocks`allNext, sim.blocks`supNext
      ensures block != null <==> env.CanGet(id)
      ensures block != null ==>
        && Valid() && plan == Ensured(old(plan), env, env.Sid(id))
        && IsBlock(block, env.Sid(id)) && Grew()
    {
      var found, ret, setindex := GetElementById(env.ipar, id);
      if ret.typ != LIBDYN_BLOCK { return null; }
      assert SlotRight(blocklist, plan.sids, sim.blocks, setindex);
      if blocklist[setindex] != null {
        block := blocklist[setindex];
        assert Fits(env, plan.sids, wires, IndexIn(plan.sids, setindex));
        return;
      }
      if env.catalog[setindex].None? { return null; }
      block := CreateFrom(setindex);
    }

    /** The source block of an entry is src, if it names one. */
    ghost predicate SourceThere(e: Entry, src: Block?)
      requires env.Valid() && |plan.sids| == |sim.blocks|
      reads this`plan, sim`blocks
    {
      NamesSource(e) ==> env.CanGet(e.srcId) && IsBlock(src, env.Sid(e.srcId))
    }

    /** The source block of an entry, if it names one. */
    method SourceBlock(e: Entry) returns (ok: bool, src: Block?)
      requires Valid()
      modifies this, sim, sim.blocks
      ensures ok <==> (NamesSource(e) ==> env.CanGet(e.srcId))
      ensures ok ==> Valid() && SourceThere(e, src)
      ensures ok ==> plan == WithSourceBlock(old(plan), env, e)
      ensures ok ==> (old(Wired(sim.blocks, wires)) ==> Wired(sim.blocks, wires)) && OnlyNew()
    {
      ok, src := true, null;
      if e.dstType != 2 && e.srcType == 0 {
        src := GetBlock(e.srcId);
        ok := src != null;
      }
    }

    /** The destination block of an entry, if it names one. */
    method TargetBlock(e: Entry, src: Block?) returns (ok: bool, dst: Block?)
      requires Valid() && SourceThere(e, src)
      modifies this, sim, sim.blocks
      ensures ok <==> (NamesTarget(e) ==> env.CanGet(e.dstId))
      ensures ok ==> Prepared(e, src, dst)
      ensures ok ==> plan == WithTargetBlock(old(plan), env, e)
      ensures ok ==> (old(Wired(sim.blocks, wires)) ==> Wired(sim.blocks, wires)) && OnlyNew()
    {
      ok, dst := true, null;
      ghost var before := plan.sids;
      if e.dstType == 2 || e.dstType == 0 {
        dst := GetBlock(e.dstId);
        ok := dst != null;
        if ok && NamesSource(e) { IndexStays(before, plan.sids, env.Sid(e.srcId)); }
      }
    }

    /** The blocks an entry names. */
    method EntryBlocks(e: Entry) returns (ok: bool, src: Block?, dst: Block?)
      requires Valid()
      modifies this, sim, sim.blocks
      ensures ok <==> BlocksOk(e, env)
      ensures ok ==> OnlyNew() && (old(Wired(sim.blocks, wires)) ==> Wired(sim.blocks, wires))
      ensures ok ==> Prepared(e, src, dst) && plan == WithBlocks(old(plan), env, e)
    {
      dst := null;
      ok, src := SourceBlock(e);
      if !ok { return; }
      ghost var mid := sim.blocks;
      ok, dst := TargetBlock(e, src);
      if !ok { return; }
      forall i | 0 <= i < |sim.blocks|
        ensures if i < |old(sim.blocks)| then sim.blocks[i] == old(sim.blocks)[i] else fresh(sim.blocks[i])
      {
        if i < |mid| { assert sim.blocks[i] == mid[i]; }
      }
      assert OnlyNew();
    }

    /** The connection the entry asks for can be considered. */
    ghost predicate Prepared(e: Entry, src: Block?, dst: Block?)
      reads this, sim, sim.blocks
    {
      && Valid() && BlocksOk(e, env)
      && (NamesSource(e) ==> IsBlock(src, env.Sid(e.srcId)))
      && (NamesTarget(e) ==> IsBlock(dst, env.Sid(e.dstId)))
    }

    /** A block's ports are those of its template and of its node. */
    lemma AtBlock(block: Block, s: nat)
      requires Sound() && IsBlock(block, s) && env.CanCreate(s)
      ensures block in sim.blocks && block.pos == IndexIn(plan.sids, s) && Ports(block, env.catalog[s].value)
      ensures block.pos < |plan.graph| && |plan.graph[block.pos].ins| == |block.inlist|
      ensures forall i | 0 <= i < |block.inlist| ::
        (plan.graph[block.pos].ins[i] == Unconnected <==> block.inlist[i].intype == Undef)
        && (plan.graph[block.pos].ins[i].Direct? <==> block.inlist[i].intype == DirectIn)
    {
      assert Fits(env, plan.sids, wires, block.pos) && ShownAt(sim.blocks, plan.graph, block.pos);
      forall i | 0 <= i < |block.inlist|
        ensures plan.graph[block.pos].ins[i] == Unconnected <==> block.inlist[i].intype == Undef
        ensures plan.graph[block.pos].ins[i].Direct? <==> block.inlist[i].intype == DirectIn
      {
        assert PortOk(sim.blocks, wires, Plug(block.pos, i));
      }
    }

    /** Takes over the wires and the plan that the heap already shows. */
    ghost method Adopt(w: Wires, p: Plan)
      requires env.Valid() && sim.Building() && Untouched(sim.blocks)
      requires Carries(sim.blocks, w) && Plugged(sim.blocks, w) && Shown(sim.blocks, p.graph)
      requires |p.sids| == |sim.blocks| && |blocklist| == |env.catalog| && OutsRight(outptr, p.outs, sim.blocks)
      requires ListRight(blocklist, p.sids, sim.blocks) && AllFit(env, p.sids, w) && Starting(env, p.sids, sim.blocks)
      modifies this`wires, this`plan
      ensures Sound() && wires == w && plan == p
    {
      wires, plan := w, p;
    }

    /** Connects two ports; only one input of one node changes. */
    method ConnectPorts(src: Block, outNr: int, dst: Block, inNr: int) returns (ok: bool)
      requires Sound() && src in sim.blocks && dst in sim.blocks
      modifies this`wires, this`plan, sim.blocks`inlist, sim.blocks`outlist, sim.blocks`junction
      ensures ok <==> old(CanConnect(src, outNr, dst, inNr))
      ensures ok ==> Sound() && dst.pos < |old(plan).graph| && inNr < |old(plan).graph[dst.pos].ins|
      ensures ok ==> plan == old(plan).(graph := WithSource(old(plan).graph, dst.pos, inNr, Direct(src.pos, outNr)))
      ensures ok ==> old(Wired(sim.blocks, wires)) ==> Wired(sim.blocks, wires)
    {
      ok := ConnectNode(sim, sim.blocks, wires, plan.graph, src, outNr, dst, inNr);
      if ok {
        ghost var w := ConnectWires(sim.blocks, wires, src.pos, outNr, Plug(dst.pos, inNr));
        SamePortsAllFit(env, plan.sids, wires, w);
        Adopt(w, plan.(graph := WithSource(plan.graph, dst.pos, inNr, Direct(src.pos, outNr))));
      }
    }

    /** Source type 0, destination type 0. */
    method ConnectBlocks(e: Entry, src: Block, dst: Block) returns (ok: bool)
      requires Prepared(e, src, dst) && e.srcType == 0 && e.dstType == 0
      modifies this`wires, this`plan, sim.blocks`inlist, sim.blocks`outlist, sim.blocks`junction
      ensures ok <==> ConnectOk(old(plan), env, e)
      ensures ok ==> Valid() && plan == Connected(old(plan), env, e)
      ensures ok ==> old(Wired(sim.blocks, wires)) ==> Wired(sim.blocks, wires)
    {
      AtBlock(src, env.Sid(e.srcId));
      AtBlock(dst, env.Sid(e.dstId));
      ok := ConnectPorts(src, e.srcPort, dst, e.dstPort);
      if ok { ConnectedOk(old(plan), env, e); }
    }

    /** Points an input at user memory; only that input changes. */
    method ConnectUser(dst: Block, inNr: int, chan: nat, portsize: int) returns (ok: bool)
      requires Sound() && dst in sim.blocks
      modifies this`wires, this`plan, sim.blocks`inlist
      ensures ok <==> 0 <= inNr < |old(dst.inlist)| && portsize == old(dst.inlist)[inNr].len
      ensures ok ==> Sound() && dst.pos < |old(plan).graph| && inNr < |old(plan).graph[dst.pos].ins|
      ensures ok ==> plan == old(plan).(graph := WithSource(old(plan).graph, dst.pos, inNr, External(chan)))
      ensures ok && old(Wired(sim.blocks, wires)) ==>
        (Wired(sim.blocks, wires) <==> old(dst.inlist)[inNr].intype != DirectIn)
    {
      ok := UserNode(sim, sim.blocks, wires, plan.graph, dst, inNr, chan, portsize);
      if ok {
        ghost var w := ExternalWires(wires, Plug(dst.pos, inNr), chan);
        SamePortsAllFit(env, plan.sids, wires, w);
        Adopt(w, plan.(graph := WithSource(plan.graph, dst.pos, inNr, External(chan))));
      }
    }

    /** Source type 1, destination type 0. A block connection is overwritten, but its junction list keeps the input. */
    method ConnectInput(e: Entry, dst: Block) returns (ok: bool)
      requires Prepared(e, null, dst) && e.srcType == 1 && e.dstType == 0 && SafePorts(env, e)
      modifies this`wires, this`plan, sim.blocks`inlist
      ensures ok <==> ConnectOk(old(plan), env, e)
      ensures ok ==> Valid() && plan == Connected(old(plan), env, e)
      ensures ok && old(Wired(sim.blocks, wires)) ==> (Wired(sim.blocks, wires) <==> !Overrides(old(plan), env, e))
    {
      AtBlock(dst, env.Sid(e.dstId));
      if e.srcPort >= |env.insizes| { return false; }
      ok := ConnectUser(dst, e.dstPort, e.srcPort, env.insizes[e.srcPort]);
      if ok { ConnectedOk(old(plan), env, e); }
    }

    /** Source type 0, destination type 1. */
    method BindOutput(e: Entry, src: Block) returns (ok: bool)
      requires Prepared(e, src, null) && e.srcType == 0 && e.dstType == 1 && SafePorts(env, e)
      modifies this`outptr, this`plan
      ensures ok <==> ConnectOk(old(plan), env, e)
      ensures ok ==> Valid() && plan == Connected(old(plan), env, e)
    {
      AtBlock(src, env.Sid(e.srcId));
      if e.dstPort >= |outptr| { return false; }
      if outptr[e.dstPort] != NaN { return false; }
      if e.srcPort >= |src.outlist| { return false; }
      if env.outsizes[e.dstPort] != src.outlist[e.srcPort].len { return false; }
      outptr := outptr[e.dstPort := OutputOf(src, e.srcPort)];
      plan := plan.(outs := plan.outs[e.dstPort := FromBlock(src.pos, e.srcPort)]);
      ConnectedOk(old(plan), env, e);
      assert BindingsOf(outptr) == BindingsOf(old(outptr))[e.dstPort := FromBlock(src.pos, e.srcPort)];
      return true;
    }

    /** Source type 1, destination type 1: an earlier binding of the output is replaced. */
    method PassInput(e: Entry) returns (ok: bool)
      requires Prepared(e, null, null) && e.srcType == 1 && e.dstType == 1 && SafePorts(env, e)
      modifies this`outptr, this`plan
      ensures ok <==> ConnectOk(old(plan), env, e)
      ensures ok ==> Valid() && plan == Connected(old(plan), env, e)
    {
      if env.insizes[e.srcPort] != env.outsizes[e.dstPort] { return false; }
      outptr := outptr[e.dstPort := InputPtr(e.srcPort)];
      plan := plan.(outs := plan.outs[e.dstPort := PassThrough(e.srcPort)]);
      ConnectedOk(old(plan), env, e);
      assert BindingsOf(outptr) == BindingsOf(old(outptr))[e.dstPort := PassThrough(e.srcPort)];
      return true;
    }

    method ConnectEntry(e: Entry, src: Block?, dst: Block?) returns (ok: bool)
      requires Prepared(e, src, dst) && SafePorts(env, e)
      modifies this`wires, this`plan, this`outptr, sim.blocks`inlist, sim.blocks`outlist, sim.blocks`junction
      ensures ok <==> ConnectOk(old(plan), env, e)
      ensures ok ==> Valid() && plan == Connected(old(plan), env, e)
      ensures ok && old(Wired(sim.blocks, wires)) && !Overrides(old(plan), env, e) ==> Wired(sim.blocks, wires)
    {
      if e.srcType == 0 && e.dstType == 0 { ok := ConnectBlocks(e, src, dst); }
      else if e.srcType == 1 && e.dstType == 0 { ok := ConnectInput(e, dst); }
      else if e.srcType == 0 && e.dstType == 1 { ok := BindOutput(e, src); }
      else if e.srcType == 1 && e.dstType == 1 { ok := PassInput(e); }
      else { ok := true; }
    }

    /** One entry of the connection list. */
    method ProcessEntry(e: Entry) returns (ok: bool)
      requires Valid() && SafePorts(env, e)
      modifies this, sim, sim.blocks
      ensures ok <==> Accepted(old(plan), env, e)
      ensures ok ==> Valid() && plan == Applied(old(plan), env, e)
      ensures ok && old(Wired(sim.blocks, wires)) && HarmlessEntry(old(plan), env, e) ==> Wired(sim.blocks, wires)
      ensures ok ==> OnlyNew()
    {
      NamedBlocksOk(e);
      var src, dst;
      ok, src, dst := EntryBlocks(e);
      if !ok { return; }
      ok := ConnectEntry(e, src, dst);
    }

    lemma NamedBlocksOk(e: Entry)
      requires Valid()
      ensures BlocksOk(e, env) ==> Ok(WithBlocks(plan, env, e), env)
    {
      if BlocksOk(e, env) { WithBlocksOk(plan, env, e); }
    }

    /** The first k entries are processed; the junction lists are right if no entry overwrites a connection. */
    ghost predicate Processed(entries: seq<Entry>, k: nat)
      reads this, sim, sim.blocks
    {
      && Valid() && k <= |entries| && Succeeds(env, entries, k) && plan == Built(env, entries, k)
      && (NoneOverrides(env, entries) ==> Wired(sim.blocks, wires))
    }

    /** Entry k, after all entries before it. */
    method ProcessAt(entries: seq<Entry>, k: nat) returns (ok: bool)
      requires Processed(entries, k) && k < |entries| && AllSafe(env, entries)
      modifies this, sim, sim.blocks
      ensures if ok then Processed(entries, k + 1) else !Succeeds(env, entries, |entries|)
      ensures ok ==> OnlyNew()
    {
      if NoneOverrides(env, entries) { EntryHarmless(env, entries, k); }
      ok := ProcessEntry(entries[k]);
      assert ok <==> AcceptedAt(env, entries, k);
    }

    /** The loop of irpar_get_libdynconnlist over the connection list. */
    method ProcessAll(entries: seq<Entry>) returns (ok: bool)
      requires env.Valid() && Processed(entries, 0)
      requires AllSafe(env, entries)
      modifies this, sim, sim.blocks
      ensures if ok then Processed(entries, |entries|) else !Succeeds(env, entries, |entries|)
      ensures ok ==> OnlyNew()
    {
      for k := 0 to |entries|
        invariant OnlyNew() && Processed(entries, k)
        modifies this, sim, sim.blocks
      {
        ok := ProcessAt(entries, k);
        if !ok { return; }
      }
      ok := true;
    }

    /** The check of irpar_get_libdynconnlist for unconnected outputs. */
    method CheckOutputs() returns (ok: bool)
      requires |outptr| == |env.outsizes| && BindingsOf(outptr) == plan.outs
      ensures ok <==> OutputsCovered(plan, env)
    {
      for o := 0 to |outptr|
        invariant forall i | 0 <= i < o :: outptr[i] == NaN ==> env.outsizes[i] <= 1
      {
        if outptr[o] == NaN && env.outsizes[o] > 1 {
          assert plan.outs[o] == Unbound;
          return false;
        }
      }
      return true;
    }

    /** irpar_get_libdynconnlist */
    method BuildAll(entries: seq<Entry>) returns (code: int)
      requires Valid() && plan == Empty(env) && Wired(sim.blocks, wires)
      requires AllSafe(env, entries)
      modifies this, sim, sim.blocks
      ensures code == if BuiltRight(env, entries) then 0 else -1
      ensures code == 0 ==> Valid() && plan == Built(env, entries, |entries|)
      ensures code == 0 && NoneOverrides(env, entries) ==> Wired(sim.blocks, wires)
      ensures code == 0 ==> OnlyNew()
    {
      var ok := ProcessAll(entries);
      if ok { ok := CheckOutputs(); }
      code := if ok then 0 else -1;
    }

    /** Building and the check for unconnected inputs. */
    method BuildAndCheck(entries: seq<Entry>) returns (code: int)
      requires Valid() && plan == Empty(env) && Wired(sim.blocks, wires)
      requires AllSafe(env, entries)
      modifies this, sim, sim.blocks
      ensures code == if BuiltRight(env, entries) && AllConnected(Built(env, entries, |entries|).graph) then 0 else -1
      ensures code == 0 ==> Valid() && plan == Built(env, entries, |entries|)
      ensures code == 0 && NoneOverrides(env, entries) ==> Wired(sim.blocks, wires)
      ensures code == 0 ==> OnlyNew()
    {
      code := BuildAll(entries);
      if code == 0 { code := CheckInputs(); }
    }

    /** libdyn_simulation_checkinputs: walks the all-blocks list. */
    method CheckInputs() returns (fault: int)
      requires Valid()
      ensures fault == if AllConnected(plan.graph) then 0 else -1
    {
      fault := 0;
      ghost var c := 0;
      var current := sim.allHead;
      while current != null
        invariant c <= |sim.blocks| && current == (if c < |sim.blocks| then sim.blocks[c] else null)
        invariant fault == if forall b | 0 <= b < c :: BlockConnected(sim.blocks, b) then 0 else -1
        decreases |sim.blocks| - c
      {
        var connected := true;
        for i := 0 to |current.inlist|
          invariant connected <==> forall j | 0 <= j < i :: current.inlist[j].data != Null
        {
          if current.inlist[i].data == Null { connected := false; }
        }
        if !connected { fault := -1; }
        assert AllLink(sim.blocks, c);
        assert BlockConnected(sim.blocks, c) <==> connected;
        current := current.allNext;
        c := c + 1;
      }
      NetConnected();
    }

    lemma NetConnected()
      requires Valid()
      ensures AllConnected(plan.graph) <==> forall b | 0 <= b < |sim.blocks| :: BlockConnected(sim.blocks, b)
    {
      forall b, i | 0 <= b < |sim.blocks| && 0 <= i < |sim.blocks[b].inlist|
        ensures |plan.graph[b].ins| == |sim.blocks[b].inlist|
        ensures plan.graph[b].ins[i] != Unconnected <==> sim.blocks[b].inlist[i].data != Null
      {
        assert PortOk(sim.blocks, wires, Plug(b, i)) && ShownAt(sim.blocks, plan.graph, b);
      }
      if AllConnected(plan.graph) {
        forall b | 0 <= b < |sim.blocks| ensures BlockConnected(sim.blocks, b) {
          assert ShownAt(sim.blocks, plan.graph, b);
          forall i | 0 <= i < |sim.blocks[b].inlist| ensures sim.blocks[b].inlist[i].data != Null {
            assert plan.graph[b].ins[i] != Unconnected;
          }
        }
      }
      if forall b | 0 <= b < |sim.blocks| :: BlockConnected(sim.blocks, b) {
        forall b, i | 0 <= b < |plan.graph| && 0 <= i < |plan.graph[b].ins|
          ensures plan.graph[b].ins[i] != Unconnected
        {
          assert BlockConnected(sim.blocks, b) && ShownAt(sim.blocks, plan.graph, b);
        }
      }
    }
  }

  ghost predicate BlockConnected(bs: seq<Block>, b: nat)
    requires b < |bs|
    reads bs`inlist
  {
    forall i | 0 <= i < |bs[b].inlist| :: bs[b].inlist[i].data != Null
  }
}
