/**
  From parameters to a running simulation: libdyn_irpar_setup, and a run of what it set up.
 */
module Setup {
  import opened Events
  import opened Dataflow
  import opened Wiring
  import opened Scheduling
  import opened SimulationObject
  import opened Irpar
  import opened Plan
  import B = Builder

  /** The position of the connection list among the parameters. */
  predicate HasConnList(ipar: seq<int>)
    requires HeaderOk(ipar)
  {
    var r := Find(ipar, CONNLIST_ID);
    r.Some? && ElementAt(ipar, r.value).typ == LIBDYN_CONNLIST
  }

  const CONNLIST_ID := 100

  /** The connection list's data lie inside the vector. */
  predicate ConnListInside(ipar: seq<int>)
    requires HeaderOk(ipar) && HasConnList(ipar)
  {
    var pos := ElementAt(ipar, Find(ipar, CONNLIST_ID).value).iparPos;
    0 <= pos <= |ipar| && ConnListOk(ipar[pos..])
  }

  function EntriesOf(ipar: seq<int>): seq<Entry>
    requires HeaderOk(ipar) && HasConnList(ipar) && ConnListInside(ipar)
  {
    Entries(ipar[ElementAt(ipar, Find(ipar, CONNLIST_ID).value).iparPos..])
  }

  /** The plan that a whole connection list describes. */
  ghost function PlanOf(env: Env, entries: seq<Entry>): (p: Plan)
    requires env.Valid()
    ensures Ok(p, env)
  {
    Built(env, entries, |entries|)
  }

  /** What processing the entries relies on without checking it. */
  ghost predicate SafeList(env: Env, entries: seq<Entry>)
    requires env.Valid()
  {
    && AllSafe(env, entries)
    && NoneOverrides(env, entries)
    && (BuiltRight(env, entries) ==> PlanOf(env, entries).graph != [])
  }

  /** What the setup relies on without checking it. */
  ghost predicate Buildable(env: Env) {
    env.Valid() && (HasConnList(env.ipar) ==> ConnListInside(env.ipar) && SafeList(env, EntriesOf(env.ipar)))
  }

  /** The simulation that the parameters describe. */
  ghost function Described(env: Env): (p: Plan)
    requires Buildable(env) && HasConnList(env.ipar)
    ensures Ok(p, env)
  {
    PlanOf(env, EntriesOf(env.ipar))
  }

  /** Some block is not behind an instantaneous cycle or an open input. */
  ghost predicate Runnable(g: Graph) { exists b :: 0 <= b < |g| && !Blocked(g, b) }

  /** All entries are accepted, all inputs are connected, and some block can run. */
  ghost predicate Startable(env: Env, entries: seq<Entry>)
    requires env.Valid()
  {
    var g := PlanOf(env, entries).graph;
    BuiltRight(env, entries) && AllConnected(g) && Runnable(g)
  }

  /** The parameters describe a simulation that can be started. */
  ghost predicate WellDescribed(env: Env)
    requires Buildable(env)
  {
    HasConnList(env.ipar) && Startable(env, EntriesOf(env.ipar))
  }

  // ------------------------------------------------------------------ the start of a run

  ghost function TemplateOf(env: Env, p: Plan, b: nat): Template
    requires Ok(p, env) && b < |p.sids|
  {
    assert NodeOk(p, env, b);
    env.catalog[p.sids[b]].value
  }

  /** The memory of a simulation that was built as planned and not stepped yet. */
  ghost function StartMem(env: Env, p: Plan, ext: seq<Val>): (m: Mem)
    requires Ok(p, env)
    ensures Shape(p.graph, m) && Fresh(p.graph, m) && m.ext == ext
  {
    var n := |p.sids|;
    Mem(seq(n, b requires 0 <= b < n => TemplateOf(env, p, b).work),
        seq(n, b requires 0 <= b < n => Zeroed(TemplateOf(env, p, b).outs)),
        seq(n, _ => true), ext)
  }

  lemma StartHeld(env: Env, p: Plan, ext: seq<Val>, bs: seq<Block>)
    requires Ok(p, env) && B.Starting(env, p.sids, bs) && B.Untouched(bs)
    ensures Holds(bs, StartMem(env, p, ext))
  {
    var m := StartMem(env, p, ext);
    forall b | 0 <= b < |bs| ensures HoldsAt(bs, m, b) {
      assert B.StartAt(env, p.sids, bs, b);
    }
  }

  ghost predicate SmallEvents(g: Graph) { forall b | 0 <= b < |g| :: |g[b].emap| <= WIDTH }

  lemma EventsSmall(p: Plan, env: Env)
    requires env.Valid() && Ok(p, env)
    ensures SmallEvents(p.graph)
  {
    forall b | 0 <= b < |p.graph| ensures |p.graph[b].emap| <= WIDTH {
      EventsFit(p, env, b);
    }
  }

  lemma ShownDepicts(bs: seq<Block>, wires: Wires, g: Graph)
    requires Carries(bs, wires) && Wired(bs, wires) && B.Shown(bs, g)
    ensures Depicts(bs, wires, g) && Behaves(bs, g)
  {
    forall b | 0 <= b < |g|
      ensures g[b].dynamic == bs[b].dynamic && g[b].feed == bs[b].feed && g[b].ins == SourcesOf(wires.ins[b])
      ensures g[b].comp == bs[b].comp && g[b].mask == bs[b].eventMask && g[b].emap == bs[b].eventMap
    {
      assert B.ShownAt(bs, g, b);
    }
  }

  lemma SupValid(bs: seq<Block>, sup: seq<nat>, head: Block?, tail: Block?, g: Graph)
    requires SupList(bs, sup, head, tail) && |g| == |bs| && forall b | 0 <= b < |g| :: g[b].dynamic == bs[b].dynamic
    ensures ValidSup(g, sup)
  {
  }

  /** Everything a step relies on but the execution list. */
  ghost predicate Assembled(sim: Simulation, wires: Wires, g: Graph, m: Mem)
    reads sim`blocks, sim`sup, sim`supHead, sim`supTail, sim`inptr
    reads sim.blocks`supNext, sim.blocks`inlist, sim.blocks`outlist, sim.blocks`junction
    reads sim.blocks`eventMask, sim.blocks`eventMap
    reads sim.blocks`work, sim.blocks`outdata, sim.blocks`needsOutputUpdate
  {
    && Carries(sim.blocks, wires) && Depicts(sim.blocks, wires, g) && Behaves(sim.blocks, g)
    && SupList(sim.blocks, sim.sup, sim.supHead, sim.supTail) && ValidSup(g, sim.sup) && SmallEvents(g)
    && Holds(sim.blocks, m) && m.ext == sim.inptr && Shape(g, m) && Fresh(g, m)
  }

  /** A simulation that is set up and holds the memory m. */
  ghost predicate IsSetUp(sim: Simulation, wires: Wires, g: Graph, m: Mem)
    reads sim, sim.blocks
  {
    && Assembled(sim, wires, g, m) && sim.execHead != null
    && ExecList(sim.blocks, sim.order, sim.execHead, sim.execTail)
    && ValidSchedule(g, sim.order) && CompleteSchedule(g, sim.order)
  }

  lemma SetUpSteps(sim: Simulation, wires: Wires, g: Graph, m: Mem)
    requires IsSetUp(sim, wires, g, m)
    ensures sim.CanStep(wires, g)
  {
  }

  /** A list of blocks can be scheduled in part if and only if some block is not blocked. */
  lemma ScheduledRunnable(g: Graph, order: seq<nat>)
    requires ValidSchedule(g, order) && CompleteSchedule(g, order)
    ensures order != [] <==> Runnable(g)
  {
    if order != [] { ScheduleExact(g, order, order[0]); }
    if b :| 0 <= b < |g| && !Blocked(g, b) { ScheduleExact(g, order, b); }
  }

  /** Computes the schedule of an assembled simulation. */
  method Schedule(sim: Simulation, ghost wires: Wires, ghost g: Graph, ghost m: Mem) returns (code: int)
    requires sim.Building() && sim.blocks != [] && Assembled(sim, wires, g, m)
    modifies sim`execHead, sim`execTail, sim`order
    modifies sim.blocks`execNext, sim.blocks`executed, sim.blocks`inputAvailable, sim.blocks`remaining
    ensures code == if Runnable(g) then 0 else -1
    ensures code == 0 ==> IsSetUp(sim, wires, g, m)
  {
    code := sim.SetupExecutionList(wires, g);
    ScheduledRunnable(g, sim.order);
  }

  /** The simulation runs as planned, from memory m, and its outputs point where the plan says. */
  ghost predicate Running(b: B.Builder, p: Plan, m: Mem)
    reads b, b.sim, b.sim.blocks
  {
    IsSetUp(b.sim, b.wires, p.graph, m) && B.OutsRight(b.outptr, p.outs, b.sim.blocks)
  }

  lemma BuiltAssembled(b: B.Builder)
    requires b.Valid() && Wired(b.sim.blocks, b.wires)
    ensures Assembled(b.sim, b.wires, b.plan.graph, StartMem(b.env, b.plan, b.sim.inptr))
  {
    EventsSmall(b.plan, b.env);
    ShownDepicts(b.sim.blocks, b.wires, b.plan.graph);
    SupValid(b.sim.blocks, b.sim.sup, b.sim.supHead, b.sim.supTail, b.plan.graph);
    StartHeld(b.env, b.plan, b.sim.inptr, b.sim.blocks);
  }

  /** Builds, checks and schedules. */
  method BuildAndSchedule(b: B.Builder, entries: seq<Entry>) returns (code: int)
    requires b.Valid() && b.plan == Empty(b.env) && Wired(b.sim.blocks, b.wires) && SafeList(b.env, entries)
    modifies b, b.sim, b.sim.blocks
    ensures code == if Startable(b.env, entries) then 0 else -1
    ensures code == 0 ==>
      var p := PlanOf(b.env, entries);
      Running(b, p, StartMem(b.env, p, b.sim.inptr)) && b.OnlyNew()
  {
    code := b.BuildAndCheck(entries);
    if code == 0 {
      BuiltAssembled(b);
      code := Schedule(b.sim, b.wires, b.plan.graph, StartMem(b.env, b.plan, b.sim.inptr));
    }
  }

  /** A builder with a new simulation. */
  method NewBuilder(env: Env, inptr: seq<Val>) returns (b: B.Builder)
    requires env.Valid()
    ensures fresh(b) && fresh(b.sim) && b.env == env && b.sim.inptr == inptr && b.sim.blocks == []
    ensures b.Valid() && b.plan == Empty(env) && Wired([], b.wires)
  {
    var sim := new Simulation(inptr);
    b := new B.Builder(sim, env);
  }

  /**
    libdyn_irpar_setup, from the contents of a simulation's parameter box on: it succeeds exactly
    for parameters that describe a simulation with all inputs connected, of which some block can
    run, and then it has set up what they describe.
   */
  method IrparSetup(env: Env, inptr: seq<Val>) returns (code: int, b: B.Builder)
    requires Buildable(env)
    ensures fresh(b) && fresh(b.sim)
    ensures code == if WellDescribed(env) then 0 else -1
    ensures code == 0 ==> Running(b, Described(env), StartMem(env, Described(env), inptr))
    ensures code == 0 ==> forall i | 0 <= i < |b.sim.blocks| :: fresh(b.sim.blocks[i])
  {
    b := NewBuilder(env, inptr);
    var found, ret, setindex := GetElementById(env.ipar, CONNLIST_ID);
    if ret.typ != LIBDYN_CONNLIST { return -1, b; }
    assert |b.sim.blocks| == 0;
    code := BuildAndSchedule(b, Entries(env.ipar[ret.iparPos..]));
    if code != 0 { return; }
    forall i | 0 <= i < |b.sim.blocks| ensures fresh(b.sim.blocks[i]) {
    }
  }

  // ------------------------------------------------------------------ runs

  /** The blocks hold the states and outputs of the reference. */
  ghost predicate Agrees(bs: seq<Block>, r: Ref)
    reads bs`work, bs`outdata
  {
    && |r.work| == |r.cache| == |bs|
    && forall b | 0 <= b < |bs| :: bs[b].work == r.work[b] && bs[b].outdata == r.cache[b]
  }

  lemma HeldAgrees(bs: seq<Block>, m: Mem)
    requires Holds(bs, m)
    ensures Agrees(bs, Observe(m))
  {
    forall b | 0 <= b < |bs| ensures bs[b].work == m.work[b] && bs[b].outdata == m.cache[b] {
      assert HoldsAt(bs, m, b);
    }
  }

  /** trace is a run of the synchronous reference from m. */
  ghost predicate MeantRun(g: Graph, order: seq<nat>, m: Mem, acts: seq<Action>, trace: seq<Ref>) {
    ValidSchedule(g, order) && CompleteSchedule(g, order) && RefTrace(g, order, trace, acts) && trace[0] == Observe(m)
  }

  /** The run of the machine is the only run of the reference from the same start, under any schedule. */
  lemma OneRunMeant(g: Graph, order: seq<nat>, sup: seq<nat>, m: Mem, acts: seq<Action>)
    requires Shape(g, m) && Contract(g) && ValidSup(g, sup) && Fresh(g, m) && Paired(acts)
    requires ValidSchedule(g, order) && CompleteSchedule(g, order)
    ensures MeantRun(g, order, m, acts, Observed(g, order, sup, m, acts))
    ensures forall live, trace: seq<Ref> | MeantRun(g, live, m, acts, trace) ::
      trace[|acts|] == Observe(Run(g, order, sup, m, acts, |acts|))
  {
    TraceExists(g, order, sup, m, acts);
    forall live, trace: seq<Ref> | MeantRun(g, live, m, acts, trace)
      ensures trace[|acts|] == Observe(Run(g, order, sup, m, acts, |acts|))
    {
      AnySchedule(g, live, order, trace, acts);
      RunIsTheTrace(g, order, sup, m, acts, trace, |acts|);
    }
  }

  /**
    What a meant run is, step by step: after an output action every live block shows what it computes from
    what arrives at its inputs, after a state update every block that fires has taken its next state, and
    nothing else changes.
   */
  lemma {:induction false} MeantStepExactly(
    g: Graph, live: seq<nat>, m: Mem, acts: seq<Action>, trace: seq<Ref>, k: nat)
    requires Shape(g, m) && MeantRun(g, live, m, acts, trace) && k < |acts|
    ensures RefShape(g, trace[k]) && RefShape(g, trace[k+1])
    ensures var r, r' := trace[k], trace[k+1];
            match acts[k]
            case Output(ext) =>
              && r'.work == r.work && r'.ext == ext
              && (forall b | 0 <= b < |g| && b !in live :: r'.cache[b] == r.cache[b])
              && (forall b: nat, x: seq<Val> | b < |g| :: ShowsOut(g, live, r', b, x))
            case Update(active) =>
              && r'.cache == r.cache && r'.ext == r.ext
              && (forall b: nat, x: seq<Val>, w: Word | b < |g| :: TakesNext(g, r, active, r', b, x, w))
  {
    assert TraceStep(g, live, trace, acts, k);
    match acts[k]
    case Output(ext) => OutputStepExactly(g, live, trace[k], ext, trace[k+1]);
    case Update(active) => UpdateStepExactly(g, live, trace[k], active, trace[k+1]);
  }

  /**
    A run of a simulation that was set up ends in the states and outputs of the synchronous
    reference, which has exactly one run from the same start.
   */
  method RunSimulation(sim: Simulation, acts: seq<Action>, ghost wires: Wires, ghost g: Graph, ghost m: Mem)
    requires IsSetUp(sim, wires, g, m) && Contract(g) && Paired(acts)
    modifies sim`inptr, sim`stepcounter, sim`eventActive
    modifies sim.blocks`work, sim.blocks`outdata, sim.blocks`needsOutputUpdate, sim.blocks`blockEvents
    ensures MeantRun(g, sim.order, m, acts, Observed(g, sim.order, sim.sup, m, acts))
    ensures forall live, trace: seq<Ref> | MeantRun(g, live, m, acts, trace) ::
      Agrees(sim.blocks, trace[|acts|]) && trace[|acts|].ext == sim.inptr
  {
    SetUpSteps(sim, wires, g, m);
    OneRunMeant(g, sim.order, sim.sup, m, acts);
    sim.PerformAll(acts, wires, g, m);
    HeldAgrees(sim.blocks, Run(g, sim.order, sim.sup, m, acts, |acts|));
  }

  /** What a caller finds at an output of the simulation. */
  datatype Seen = NotANumber | Values(v: Val)

  ghost function SeenAt(o: Binding, r: Ref): Seen {
    match o
    case Unbound => NotANumber
    case FromBlock(b, port) => Values(Fetch(Direct(b, port), r.cache, r.ext))
    case PassThrough(chan) => Values(Fetch(External(chan), r.cache, r.ext))
  }

  ghost function AllSeen(outs: seq<Binding>, r: Ref): seq<Seen> {
    seq(|outs|, o requires 0 <= o < |outs| => SeenAt(outs[o], r))
  }

  /**
    libdyn::get_vec_out: follows the pointer of an output. The range check lets the number of outputs
    itself through, with which the source reads past its pointers.
   */
  method GetVecOut(b: B.Builder, out: nat, ghost outs: seq<Binding>, ghost r: Ref) returns (seen: Option<Seen>)
    requires B.OutsRight(b.outptr, outs, b.sim.blocks) && Positions(b.sim.blocks) && out != |b.outptr|
    requires Agrees(b.sim.blocks, r) && r.ext == b.sim.inptr
    ensures seen == if out < |outs| then Some(SeenAt(outs[out], r)) else None
    ensures out < |outs| && outs[out].FromBlock? ==>
      var a, port := outs[out].block, outs[out].port;
      a < |r.cache| && (port < |r.cache[a]| ==> seen == Some(Values(r.cache[a][port])))
    ensures out < |outs| && outs[out].PassThrough? && outs[out].chan < |r.ext| ==>
      seen == Some(Values(r.ext[outs[out].chan]))
    ensures out < |outs| && outs[out].Unbound? ==> seen == Some(NotANumber)
  {
    if out > |b.outptr| { return None; }
    assert outs[out] == B.BindingOf(b.outptr[out]);
    match b.outptr[out] {
      case NaN => seen := Some(NotANumber);
      case OutputOf(block, port) => seen := Some(Values(if port < |block.outdata| then block.outdata[port] else []));
      case InputPtr(chan) => seen := Some(Values(if chan < |b.sim.inptr| then b.sim.inptr[chan] else []));
    }
  }

  /** All outputs of the simulation. */
  method Outputs(b: B.Builder, ghost outs: seq<Binding>, ghost r: Ref) returns (seen: seq<Seen>)
    requires B.OutsRight(b.outptr, outs, b.sim.blocks) && Positions(b.sim.blocks)
    requires Agrees(b.sim.blocks, r) && r.ext == b.sim.inptr
    ensures seen == AllSeen(outs, r)
  {
    seen := [];
    for o := 0 to |b.outptr|
      invariant seen == AllSeen(outs, r)[..o]
    {
      var s := GetVecOut(b, o, outs, r);
      seen := seen + [s.value];
    }
  }

  /** Runs a simulation that was built and looks at its outputs. */
  method RunBuilt(b: B.Builder, acts: seq<Action>, ghost p: Plan, ghost m: Mem) returns (seen: seq<Seen>)
    requires Running(b, p, m) && Contract(p.graph) && Paired(acts)
    modifies b.sim, b.sim.blocks
    ensures exists live, trace: seq<Ref> :: MeantRun(p.graph, live, m, acts, trace)
    ensures forall live, trace: seq<Ref> | MeantRun(p.graph, live, m, acts, trace) ::
      seen == AllSeen(p.outs, trace[|acts|])
  {
    ghost var trace := Observed(p.graph, b.sim.order, b.sim.sup, m, acts);
    OneRunMeant(p.graph, b.sim.order, b.sim.sup, m, acts);
    RunSimulation(b.sim, acts, b.wires, p.graph, m);
    seen := Outputs(b, p.outs, trace[|acts|]);
  }

  // ------------------------------------------------------------------ from parameters to outputs

  /** A block type whose outputs depend on its inputs declares direct feedthrough for some output. */
  ghost predicate Honest(t: Template) {
    (forall o | 0 <= o < |t.outs| :: !t.outs[o].dinput) ==>
      forall s: State, x: seq<Val> :: t.comp.out(s, x) == t.comp.out(s, [])
  }

  ghost predicate AllHonest(env: Env) {
    forall s | 0 <= s < |env.catalog| && env.catalog[s].Some? :: Honest(env.catalog[s].value)
  }

  /** Whatever is built of honest blocks keeps the contract of the stepper. */
  lemma HonestContract(env: Env, p: Plan)
    requires Ok(p, env) && AllHonest(env)
    ensures Contract(p.graph)
  {
    forall b | 0 <= b < |p.graph| ensures p.graph[b].HonorsFeed() {
      assert NodeOk(p, env, b) && Honest(TemplateOf(env, p, b));
    }
  }

  /**
    From parameters to outputs: after any run the outputs show what the synchronous reference of
    the described block diagram computes from the initial states of its blocks.
   */
  method SetupAndRun(env: Env, inptr: seq<Val>, acts: seq<Action>) returns (code: int, seen: seq<Seen>)
    requires Buildable(env) && AllHonest(env) && Paired(acts)
    ensures code == if WellDescribed(env) then 0 else -1
    ensures code == 0 ==>
      var p := Described(env);
      var m := StartMem(env, p, inptr);
      && (exists live, trace: seq<Ref> :: MeantRun(p.graph, live, m, acts, trace))
      && (forall live, trace: seq<Ref> | MeantRun(p.graph, live, m, acts, trace) ::
            seen == AllSeen(p.outs, trace[|acts|]))
  {
    seen := [];
    var b;
    code, b := IrparSetup(env, inptr);
    if code == 0 {
      HonestContract(env, Described(env));
      seen := RunBuilt(b, acts, Described(env), StartMem(env, Described(env), inptr));
    }
  }
}
