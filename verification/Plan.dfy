/**
  What a connection list describes: the blocks it refers to, their connections and the bindings of
  the simulation's outputs. `Built` follows the builder entry by entry; the lemmas say what the
  result is in terms of the whole list.
 */
module Plan {
  import opened Events
  import opened Dataflow
  import opened Wiring
  import opened Irpar

  /** What the constructor of a block type declares, and the events its parameters register. */
  datatype Template = Template(
    dynamic: bool,
    comp: CompFunc,
    ins: seq<PortConfig>,
    outs: seq<OutConfig>,
    work: State,
    events: seq<nat>)
  {
    /** Event numbers up to 31 can be registered; larger than 32 is an error. */
    predicate EventsOk() { forall i | 0 <= i < |events| :: events[i] < WIDTH }
    predicate Safe() { |events| <= WIDTH && forall i | 0 <= i < |events| :: events[i] != WIDTH }
  }

  /** The parameters of a simulation: its block descriptions by position, and the sizes of its inputs and outputs. */
  datatype Env = Env(ipar: seq<int>, catalog: seq<Option<Template>>, insizes: seq<int>, outsizes: seq<int>) {
    ghost predicate Valid() {
      && HeaderOk(ipar) && |catalog| == Sets(ipar)
      && forall s | 0 <= s < |catalog| :: catalog[s].Some? ==> catalog[s].value.Safe()
    }

    /** The position of the description with this id. */
    function Sid(id: int): nat
      requires Valid()
    {
      var r := Find(ipar, id);
      if r.Some? then r.value else 0
    }

    predicate CanCreate(s: nat) { s < |catalog| && catalog[s].Some? && catalog[s].value.EventsOk() }

    /** A block with this id exists or can be created. */
    ghost predicate CanGet(id: int)
      requires Valid()
    {
      var r := Find(ipar, id);
      r.Some? && ElementAt(ipar, r.value).typ == LIBDYN_BLOCK && CanCreate(r.value)
    }
  }

  datatype Binding = Unbound | FromBlock(block: nat, port: nat) | PassThrough(chan: nat)

  /** Block b was created from description sids[b]. */
  datatype Plan = Plan(sids: seq<nat>, graph: Graph, outs: seq<Binding>)

  function EventNumbers(events: seq<nat>): seq<EventNr>
    requires forall i | 0 <= i < |events| :: events[i] < WIDTH
  {
    seq(|events|, i requires 0 <= i < |events| => events[i] as EventNr)
  }

  /** A block as it is created, with no input connected. */
  ghost function FreshNode(t: Template): Node
    requires t.EventsOk()
  {
    var s := RegisterAll(EventNumbers(t.events), |t.events|);
    Node(t.dynamic, exists o :: 0 <= o < |t.outs| && t.outs[o].dinput, seq(|t.ins|, _ => Unconnected),
         t.comp, s.mask, s.emap)
  }

  lemma IndexUnique(sids: seq<nat>, b: nat)
    requires Distinct(sids) && b < |sids|
    ensures IndexIn(sids, sids[b]) == b
  {
  }

  ghost predicate NodeOk(p: Plan, env: Env, b: nat) {
    && b < |p.sids| && b < |p.graph| && env.CanCreate(p.sids[b])
    && var t := env.catalog[p.sids[b]].value;
       |p.graph[b].ins| == |t.ins| && p.graph[b] == FreshNode(t).(ins := p.graph[b].ins)
  }

  ghost predicate Ok(p: Plan, env: Env) {
    && |p.sids| == |p.graph| && |p.outs| == |env.outsizes| && Distinct(p.sids)
    && forall b: nat | b < |p.graph| :: NodeOk(p, env, b)
  }

  ghost function Ensured(p: Plan, env: Env, s: nat): Plan
    requires env.CanCreate(s)
  {
    if s in p.sids then p
    else p.(sids := p.sids + [s], graph := p.graph + [FreshNode(env.catalog[s].value)])
  }

  lemma EnsuredOk(p: Plan, env: Env, s: nat)
    requires Ok(p, env) && env.CanCreate(s)
    ensures Ok(Ensured(p, env, s), env) && s in Ensured(p, env, s).sids
    ensures forall r :: r in Ensured(p, env, s).sids <==> r in p.sids || r == s
  {
    var q := Ensured(p, env, s);
    forall b: nat | b < |q.graph| ensures NodeOk(q, env, b) {
      assert b < |p.graph| ==> NodeOk(p, env, b);
    }
  }

  /** Which blocks an entry names: a destination of type 2 alone, or the ends of type 0. */
  predicate NamesSource(e: Entry) { e.dstType != 2 && e.srcType == 0 }
  predicate NamesTarget(e: Entry) { e.dstType == 2 || e.dstType == 0 }

  ghost predicate Names(e: Entry, env: Env, s: nat)
    requires env.Valid()
  {
    (NamesSource(e) && env.Sid(e.srcId) == s) || (NamesTarget(e) && env.Sid(e.dstId) == s)
  }

  ghost predicate BlocksOk(e: Entry, env: Env)
    requires env.Valid()
  {
    (NamesSource(e) ==> env.CanGet(e.srcId)) && (NamesTarget(e) ==> env.CanGet(e.dstId))
  }

  /** The plan with the blocks of an entry. */
  ghost function WithBlocks(p: Plan, env: Env, e: Entry): Plan
    requires env.Valid() && BlocksOk(e, env)
  {
    WithTargetBlock(WithSourceBlock(p, env, e), env, e)
  }

  ghost function WithSourceBlock(p: Plan, env: Env, e: Entry): Plan
    requires env.Valid() && (NamesSource(e) ==> env.CanGet(e.srcId))
  {
    if NamesSource(e) then Ensured(p, env, env.Sid(e.srcId)) else p
  }

  ghost function WithTargetBlock(p: Plan, env: Env, e: Entry): Plan
    requires env.Valid() && (NamesTarget(e) ==> env.CanGet(e.dstId))
  {
    if NamesTarget(e) then Ensured(p, env, env.Sid(e.dstId)) else p
  }

  lemma WithBlocksOk(p: Plan, env: Env, e: Entry)
    requires env.Valid() && BlocksOk(e, env) && Ok(p, env)
    ensures var q := WithBlocks(p, env, e);
            && Ok(q, env) && q.outs == p.outs
            && (NamesSource(e) ==> env.Sid(e.srcId) in q.sids) && (NamesTarget(e) ==> env.Sid(e.dstId) in q.sids)
            && forall s :: s in q.sids <==> s in p.sids || Names(e, env, s)
  {
    if NamesSource(e) { EnsuredOk(p, env, env.Sid(e.srcId)); }
    var q := if NamesSource(e) then Ensured(p, env, env.Sid(e.srcId)) else p;
    if NamesTarget(e) { EnsuredOk(q, env, env.Sid(e.dstId)); }
  }

  ghost function SourceTemplate(env: Env, e: Entry): Template
    requires env.Valid() && BlocksOk(e, env) && NamesSource(e)
  {
    env.catalog[env.Sid(e.srcId)].value
  }

  ghost function TargetTemplate(env: Env, e: Entry): Template
    requires env.Valid() && BlocksOk(e, env) && NamesTarget(e)
  {
    env.catalog[env.Sid(e.dstId)].value
  }

  /** Whether the connection an entry asks for is accepted. */
  ghost predicate ConnectOk(q: Plan, env: Env, e: Entry)
    requires env.Valid() && BlocksOk(e, env) && Ok(q, env)
    requires NamesSource(e) ==> env.Sid(e.srcId) in q.sids
    requires NamesTarget(e) ==> env.Sid(e.dstId) in q.sids
  {
    if e.dstType == 0 && e.srcType == 0 then
      var ins, outs := TargetTemplate(env, e).ins, SourceTemplate(env, e).outs;
      var b := IndexIn(q.sids, env.Sid(e.dstId));
      assert NodeOk(q, env, b);
      && 0 <= e.dstPort < |ins| && 0 <= e.srcPort < |outs|
      && ins[e.dstPort].len == outs[e.srcPort].len && ins[e.dstPort].datatyp == outs[e.srcPort].datatyp
      && q.graph[b].ins[e.dstPort] == Unconnected
    else if e.dstType == 0 && e.srcType == 1 then
      var ins := TargetTemplate(env, e).ins;
      && 0 <= e.dstPort < |ins| && 0 <= e.srcPort < |env.insizes|
      && env.insizes[e.srcPort] == ins[e.dstPort].len
    else if e.dstType == 1 && e.srcType == 0 then
      var outs := SourceTemplate(env, e).outs;
      && 0 <= e.dstPort < |q.outs| && q.outs[e.dstPort] == Unbound
      && 0 <= e.srcPort < |outs| && env.outsizes[e.dstPort] == outs[e.srcPort].len
    else if e.dstType == 1 && e.srcType == 1 then
      && 0 <= e.dstPort < |q.outs| && 0 <= e.srcPort < |env.insizes|
      && env.insizes[e.srcPort] == env.outsizes[e.dstPort]
    else true
  }

  /** The source an entry gives to its target input. */
  ghost function SourceFor(sids: seq<nat>, env: Env, e: Entry): Source
    requires env.Valid()
  {
    if e.srcType == 0 && e.srcPort >= 0 && env.Sid(e.srcId) in sids then
      Direct(IndexIn(sids, env.Sid(e.srcId)), e.srcPort)
    else if e.srcType == 1 && e.srcPort >= 0 then External(e.srcPort)
    else Unconnected
  }

  ghost function BindingFor(sids: seq<nat>, env: Env, e: Entry): Binding
    requires env.Valid()
  {
    if e.srcType == 0 && e.srcPort >= 0 && env.Sid(e.srcId) in sids then
      FromBlock(IndexIn(sids, env.Sid(e.srcId)), e.srcPort)
    else if e.srcType == 1 && e.srcPort >= 0 then PassThrough(e.srcPort)
    else Unbound
  }

  ghost function WithSource(g: Graph, b: nat, i: nat, source: Source): Graph
    requires b < |g| && i < |g[b].ins|
  {
    g[b := g[b].(ins := g[b].ins[i := source])]
  }

  /** Port numbers of the outside that the source uses without a check. */
  predicate SafePorts(env: Env, e: Entry) {
    && (e.srcType == 1 ==> e.srcPort >= 0)
    && (e.srcType == 0 && e.dstType == 1 ==> e.srcPort >= 0 && e.dstPort >= 0)
    && (e.srcType == 1 && e.dstType == 1 ==> e.srcPort < |env.insizes| && 0 <= e.dstPort < |env.outsizes|)
  }

  predicate AllSafe(env: Env, entries: seq<Entry>) { forall i | 0 <= i < |entries| :: SafePorts(env, entries[i]) }

  predicate ConnectsInput(e: Entry) { e.dstType == 0 && (e.srcType == 0 || e.srcType == 1) }
  predicate BindsOutput(e: Entry) { e.dstType == 1 && (e.srcType == 0 || e.srcType == 1) }

  ghost function Connected(q: Plan, env: Env, e: Entry): Plan
    requires env.Valid() && BlocksOk(e, env) && Ok(q, env)
    requires NamesSource(e) ==> env.Sid(e.srcId) in q.sids
    requires NamesTarget(e) ==> env.Sid(e.dstId) in q.sids
    requires ConnectOk(q, env, e)
  {
    if ConnectsInput(e) then
      var b := IndexIn(q.sids, env.Sid(e.dstId));
      assert NodeOk(q, env, b);
      q.(graph := WithSource(q.graph, b, e.dstPort, SourceFor(q.sids, env, e)))
    else if BindsOutput(e) then q.(outs := q.outs[e.dstPort := BindingFor(q.sids, env, e)])
    else q
  }

  lemma ConnectedOk(q: Plan, env: Env, e: Entry)
    requires env.Valid() && BlocksOk(e, env) && Ok(q, env)
    requires NamesSource(e) ==> env.Sid(e.srcId) in q.sids
    requires NamesTarget(e) ==> env.Sid(e.dstId) in q.sids
    requires ConnectOk(q, env, e)
    ensures Ok(Connected(q, env, e), env) && Connected(q, env, e).sids == q.sids
  {
    var r := Connected(q, env, e);
    forall b: nat | b < |r.graph| ensures NodeOk(r, env, b) {
      assert NodeOk(q, env, b);
    }
  }

  /** An entry is accepted: its blocks can be had and its connection can be made. */
  ghost predicate Accepted(p: Plan, env: Env, e: Entry)
    requires env.Valid() && Ok(p, env)
  {
    BlocksOk(e, env) && (WithBlocksOk(p, env, e); ConnectOk(WithBlocks(p, env, e), env, e))
  }

  ghost function Applied(p: Plan, env: Env, e: Entry): (p': Plan)
    requires env.Valid() && Ok(p, env)
    ensures Ok(p', env)
  {
    if Accepted(p, env, e) then
      WithBlocksOk(p, env, e);
      ConnectedOk(WithBlocks(p, env, e), env, e);
      Connected(WithBlocks(p, env, e), env, e)
    else p
  }

  ghost function Empty(env: Env): Plan { Plan([], [], seq(|env.outsizes|, _ => Unbound)) }

  /** The plan after the first k entries. */
  ghost function Built(env: Env, entries: seq<Entry>, k: nat): (p: Plan)
    requires env.Valid() && k <= |entries|
    ensures Ok(p, env)
  {
    if k == 0 then Empty(env) else Applied(Built(env, entries, k - 1), env, entries[k-1])
  }

  ghost predicate AcceptedAt(env: Env, entries: seq<Entry>, k: nat)
    requires env.Valid() && k < |entries|
  {
    Accepted(Built(env, entries, k), env, entries[k])
  }

  /** The first k entries are accepted. */
  ghost predicate Succeeds(env: Env, entries: seq<Entry>, k: nat)
    requires env.Valid() && k <= |entries|
  {
    forall j: nat | j < k :: AcceptedAt(env, entries, j)
  }

  // ------------------------------------------------------------------ what the whole list describes

  ghost predicate NamedAt(env: Env, entries: seq<Entry>, j: nat, s: nat)
    requires env.Valid()
  {
    j < |entries| && Names(entries[j], env, s)
  }

  /** There is exactly one block for each description that is named. */
  lemma {:induction false} BlocksExact(env: Env, entries: seq<Entry>, k: nat, s: nat)
    requires env.Valid() && k <= |entries| && Succeeds(env, entries, k)
    ensures Distinct(Built(env, entries, k).sids)
    ensures s in Built(env, entries, k).sids <==> exists j: nat :: j < k && NamedAt(env, entries, j, s)
  {
    if k > 0 {
      BlocksExact(env, entries, k - 1, s);
      assert AcceptedAt(env, entries, k - 1);
      var p, e := Built(env, entries, k - 1), entries[k-1];
      WithBlocksOk(p, env, e);
      ConnectedOk(WithBlocks(p, env, e), env, e);
      assert NamedAt(env, entries, k - 1, s) <==> Names(e, env, s);
    }
  }

  /** Blocks keep their places. */
  lemma BlocksStay(p: Plan, env: Env, e: Entry)
    requires env.Valid() && Ok(p, env) && BlocksOk(e, env)
    ensures var q := WithBlocks(p, env, e);
            && p.sids <= q.sids && p.graph <= q.graph
            && (forall b: nat | |p.graph| <= b < |q.graph| ::
                  q.sids[b] !in p.sids && forall i | 0 <= i < |q.graph[b].ins| :: q.graph[b].ins[i] == Unconnected)
  {
    WithBlocksOk(p, env, e);
    if NamesSource(e) { EnsuredOk(p, env, env.Sid(e.srcId)); }
  }

  lemma {:induction false} IndexStays(sids: seq<nat>, more: seq<nat>, s: nat)
    requires sids <= more && s in sids
    ensures s in more && IndexIn(more, s) == IndexIn(sids, s)
  {
    if sids[0] != s { IndexStays(sids[1..], more[1..], s); }
  }

  ghost predicate TargetsAt(env: Env, entries: seq<Entry>, j: nat, s: nat, i: nat)
    requires env.Valid()
  {
    j < |entries| && ConnectsInput(entries[j]) && env.Sid(entries[j].dstId) == s && entries[j].dstPort == i
  }

  /** The last of the first k entries that connects input i of the block with description s. */
  ghost function LastTarget(env: Env, entries: seq<Entry>, k: nat, s: nat, i: nat): (r: Option<nat>)
    requires env.Valid() && k <= |entries|
    ensures r.Some? ==> r.value < k && TargetsAt(env, entries, r.value, s, i)
    ensures r.Some? ==> forall j: nat | r.value < j < k :: !TargetsAt(env, entries, j, s, i)
    ensures r.None? ==> forall j: nat | j < k :: !TargetsAt(env, entries, j, s, i)
  {
    if k == 0 then None
    else if TargetsAt(env, entries, k - 1, s, i) then Some(k - 1)
    else LastTarget(env, entries, k - 1, s, i)
  }

  ghost function SourceGiven(env: Env, entries: seq<Entry>, k: nat, s: nat, i: nat, sids: seq<nat>): Source
    requires env.Valid() && k <= |entries|
  {
    var r := LastTarget(env, entries, k, s, i);
    if r.None? then Unconnected else SourceFor(sids, env, entries[r.value])
  }

  /** What earlier entries ask for does not change when blocks are added. */
  lemma SourceStays(env: Env, entries: seq<Entry>, k: nat, j: nat, more: seq<nat>)
    requires env.Valid() && k <= |entries| && Succeeds(env, entries, k) && j < k
    requires Built(env, entries, k).sids <= more
    ensures ConnectsInput(entries[j]) ==>
      SourceFor(more, env, entries[j]) == SourceFor(Built(env, entries, k).sids, env, entries[j])
    ensures BindsOutput(entries[j]) ==>
      BindingFor(more, env, entries[j]) == BindingFor(Built(env, entries, k).sids, env, entries[j])
  {
    var e := entries[j];
    if NamesSource(e) {
      assert NamedAt(env, entries, j, env.Sid(e.srcId));
      BlocksExact(env, entries, k, env.Sid(e.srcId));
      IndexStays(Built(env, entries, k).sids, more, env.Sid(e.srcId));
    }
  }

  predicate Hits(e: Entry, sid: nat, s: nat, i: nat) { ConnectsInput(e) && sid == s && e.dstPort == i }

  /** One connection changes one input. */
  lemma ConnectedInput(q: Plan, env: Env, e: Entry, b: nat, i: nat)
    requires env.Valid() && BlocksOk(e, env) && Ok(q, env)
    requires NamesSource(e) ==> env.Sid(e.srcId) in q.sids
    requires NamesTarget(e) ==> env.Sid(e.dstId) in q.sids
    requires ConnectOk(q, env, e) && b < |q.graph|
    ensures var r := Connected(q, env, e);
            && |r.graph| == |q.graph| == |q.sids| && |r.graph[b].ins| == |q.graph[b].ins|
            && var hit := Hits(e, env.Sid(e.dstId), q.sids[b], i);
               i < |r.graph[b].ins| ==>
                 r.graph[b].ins[i] == if hit then SourceFor(q.sids, env, e) else q.graph[b].ins[i]
  {
    IndexUnique(q.sids, b);
    if ConnectsInput(e) { assert NodeOk(q, env, IndexIn(q.sids, env.Sid(e.dstId))); }
  }

  /** Every input is connected as the last entry that names it says. */
  lemma {:induction false} InputsExact(env: Env, entries: seq<Entry>, k: nat, b: nat, i: nat)
    requires env.Valid() && k <= |entries| && Succeeds(env, entries, k)
    requires b < |Built(env, entries, k).graph| && i < |Built(env, entries, k).graph[b].ins|
    ensures b < |Built(env, entries, k).sids|
    ensures var r := Built(env, entries, k);
            r.graph[b].ins[i] == SourceGiven(env, entries, k, r.sids[b], i, r.sids)
    decreases k, 0
  {
    if k > 0 {
      assert AcceptedAt(env, entries, k - 1);
      var p, e := Built(env, entries, k - 1), entries[k-1];
      var q := WithBlocks(p, env, e);
      WithBlocksOk(p, env, e);
      ConnectedOk(q, env, e);
      ConnectedInput(q, env, e, b, i);
      InputsBefore(env, entries, k - 1, b, i);
      assert TargetsAt(env, entries, k - 1, q.sids[b], i) <==> Hits(e, env.Sid(e.dstId), q.sids[b], i);
    }
  }

  /** After the blocks of entry k are there and before it is connected. */
  lemma {:induction false} InputsBefore(env: Env, entries: seq<Entry>, k: nat, b: nat, i: nat)
    requires env.Valid() && k < |entries| && Succeeds(env, entries, k) && BlocksOk(entries[k], env)
    requires var q := WithBlocks(Built(env, entries, k), env, entries[k]); b < |q.graph| && i < |q.graph[b].ins|
    ensures var q := WithBlocks(Built(env, entries, k), env, entries[k]);
            b < |q.sids| && q.graph[b].ins[i] == SourceGiven(env, entries, k, q.sids[b], i, q.sids)
    decreases k, 1
  {
    var p, e := Built(env, entries, k), entries[k];
    var q := WithBlocks(p, env, e);
    WithBlocksOk(p, env, e);
    BlocksStay(p, env, e);
    if b < |p.graph| {
      InputsExact(env, entries, k, b, i);
      InputUnchanged(env, entries, k + 1, b, i, q);
    } else {
      NewInput(env, entries, k, q.sids[b], i);
    }
  }

  lemma InputUnchanged(env: Env, entries: seq<Entry>, k: nat, b: nat, i: nat, q: Plan)
    requires env.Valid() && 0 < k <= |entries| && Succeeds(env, entries, k - 1)
    requires Built(env, entries, k - 1).sids <= q.sids && b < |q.sids|
    ensures var p := Built(env, entries, k - 1);
            SourceGiven(env, entries, k - 1, q.sids[b], i, p.sids) ==
              SourceGiven(env, entries, k - 1, q.sids[b], i, q.sids)
  {
    var r := LastTarget(env, entries, k - 1, q.sids[b], i);
    if r.Some? { SourceStays(env, entries, k - 1, r.value, q.sids); }
  }

  lemma NewInput(env: Env, entries: seq<Entry>, k: nat, s: nat, i: nat)
    requires env.Valid() && k <= |entries| && Succeeds(env, entries, k) && s !in Built(env, entries, k).sids
    ensures LastTarget(env, entries, k, s, i).None?
  {
    var r := LastTarget(env, entries, k, s, i);
    if r.Some? {
      assert NamedAt(env, entries, r.value, s);
      BlocksExact(env, entries, k, s);
    }
  }

  /** No input is named twice. */
  ghost predicate NoInputTwice(env: Env, entries: seq<Entry>)
    requires env.Valid()
  {
    forall j: nat, l: nat | j < l < |entries| :: InputsApart(env, entries, j, l)
  }

  ghost predicate InputsApart(env: Env, entries: seq<Entry>, j: nat, l: nat)
    requires env.Valid() && j < |entries| && l < |entries|
  {
    ConnectsInput(entries[j]) && ConnectsInput(entries[l]) && entries[j].dstPort == entries[l].dstPort ==>
      env.Sid(entries[j].dstId) != env.Sid(entries[l].dstId)
  }

  lemma ApartAt(env: Env, entries: seq<Entry>, j: nat, l: nat)
    requires env.Valid() && NoInputTwice(env, entries) && j < l < |entries|
    ensures InputsApart(env, entries, j, l)
  {
  }

  ghost predicate Describes(env: Env, entries: seq<Entry>, j: nat, s: nat, i: nat, source: Source, sids: seq<nat>)
    requires env.Valid()
  {
    TargetsAt(env, entries, j, s, i) && SourceFor(sids, env, entries[j]) == source
  }

  /** The connections are exactly those of the entries, if no input is named twice. */
  lemma ConnectionsExact(env: Env, entries: seq<Entry>, b: nat, i: nat, source: Source)
    requires env.Valid() && Succeeds(env, entries, |entries|) && NoInputTwice(env, entries) && source != Unconnected
    requires var r := Built(env, entries, |entries|); b < |r.graph| && i < |r.graph[b].ins|
    ensures var r := Built(env, entries, |entries|);
            b < |r.sids| &&
            (r.graph[b].ins[i] == source <==>
              exists j: nat :: Describes(env, entries, j, r.sids[b], i, source, r.sids))
  {
    var n := |entries|;
    var r := Built(env, entries, n);
    InputsExact(env, entries, n, b, i);
    var last := LastTarget(env, entries, n, r.sids[b], i);
    if last.Some? {
      assert Describes(env, entries, last.value, r.sids[b], i, SourceFor(r.sids, env, entries[last.value]), r.sids);
      forall j: nat | Describes(env, entries, j, r.sids[b], i, source, r.sids) ensures j == last.value {
        if j < last.value { ApartAt(env, entries, j, last.value); }
      }
    }
  }

  // ------------------------------------------------------------------ output bindings

  ghost predicate BindsAt(entries: seq<Entry>, j: nat, o: nat) {
    j < |entries| && BindsOutput(entries[j]) && entries[j].dstPort == o
  }

  ghost function LastBinding(entries: seq<Entry>, k: nat, o: nat): (r: Option<nat>)
    requires k <= |entries|
    ensures r.Some? ==> r.value < k && BindsAt(entries, r.value, o)
    ensures r.Some? ==> forall j: nat | r.value < j < k :: !BindsAt(entries, j, o)
    ensures r.None? ==> forall j: nat | j < k :: !BindsAt(entries, j, o)
  {
    if k == 0 then None
    else if BindsAt(entries, k - 1, o) then Some(k - 1)
    else LastBinding(entries, k - 1, o)
  }

  ghost function BindingGiven(env: Env, entries: seq<Entry>, k: nat, o: nat, sids: seq<nat>): Binding
    requires env.Valid() && k <= |entries|
  {
    var r := LastBinding(entries, k, o);
    if r.None? then Unbound else BindingFor(sids, env, entries[r.value])
  }

  /** One binding changes one output. */
  lemma ConnectedOutput(q: Plan, env: Env, e: Entry, o: nat)
    requires env.Valid() && BlocksOk(e, env) && Ok(q, env)
    requires NamesSource(e) ==> env.Sid(e.srcId) in q.sids
    requires NamesTarget(e) ==> env.Sid(e.dstId) in q.sids
    requires ConnectOk(q, env, e) && o < |q.outs|
    ensures var r := Connected(q, env, e);
            && |r.outs| == |q.outs| && r.sids == q.sids
            && r.outs[o] == if BindsOutput(e) && e.dstPort == o then BindingFor(q.sids, env, e) else q.outs[o]
  {
  }

  lemma OutputUnchanged(env: Env, entries: seq<Entry>, k: nat, o: nat, more: seq<nat>)
    requires env.Valid() && k <= |entries| && Succeeds(env, entries, k) && Built(env, entries, k).sids <= more
    ensures BindingGiven(env, entries, k, o, Built(env, entries, k).sids) == BindingGiven(env, entries, k, o, more)
  {
    var r := LastBinding(entries, k, o);
    if r.Some? { SourceStays(env, entries, k, r.value, more); }
  }

  /** Every output of the simulation is bound as the last entry that names it says. */
  lemma {:induction false} OutputsExact(env: Env, entries: seq<Entry>, k: nat, o: nat)
    requires env.Valid() && k <= |entries| && Succeeds(env, entries, k) && o < |env.outsizes|
    ensures var r := Built(env, entries, k); o < |r.outs| && r.outs[o] == BindingGiven(env, entries, k, o, r.sids)
  {
    if k > 0 {
      OutputsExact(env, entries, k - 1, o);
      assert AcceptedAt(env, entries, k - 1);
      var p, e := Built(env, entries, k - 1), entries[k-1];
      var q := WithBlocks(p, env, e);
      WithBlocksOk(p, env, e);
      BlocksStay(p, env, e);
      OutputUnchanged(env, entries, k - 1, o, q.sids);
      ConnectedOutput(q, env, e, o);
      assert BindsAt(entries, k - 1, o) <==> BindsOutput(e) && e.dstPort == o;
    }
  }

  // ------------------------------------------------------------------ external inputs over connected ones

  /** An external entry names an input that is connected to a block; the source overwrites it unseen. */
  ghost predicate Overrides(q: Plan, env: Env, e: Entry)
    requires env.Valid() && Ok(q, env) && (NamesTarget(e) ==> env.Sid(e.dstId) in q.sids)
  {
    e.srcType == 1 && e.dstType == 0 &&
      var ins := q.graph[IndexIn(q.sids, env.Sid(e.dstId))].ins;
      0 <= e.dstPort < |ins| && ins[e.dstPort].Direct?
  }

  /** No external entry follows an entry that connects the same input to a block. */
  ghost predicate NoneOverrides(env: Env, entries: seq<Entry>)
    requires env.Valid()
  {
    forall j: nat, l: nat | j < l < |entries| :: KeepsDirect(env, entries, j, l)
  }

  ghost predicate KeepsDirect(env: Env, entries: seq<Entry>, j: nat, l: nat)
    requires env.Valid() && j < |entries| && l < |entries|
  {
    entries[j].srcType == 0 && entries[j].dstType == 0 && entries[l].srcType == 1 && entries[l].dstType == 0 ==>
      entries[j].dstPort != entries[l].dstPort || env.Sid(entries[j].dstId) != env.Sid(entries[l].dstId)
  }

  lemma NotOverriding(env: Env, entries: seq<Entry>, k: nat)
    requires env.Valid() && k < |entries| && Succeeds(env, entries, k) && BlocksOk(entries[k], env)
    requires NoneOverrides(env, entries)
    ensures var q := WithBlocks(Built(env, entries, k), env, entries[k]);
            && Ok(q, env) && (NamesTarget(entries[k]) ==> env.Sid(entries[k].dstId) in q.sids)
            && !Overrides(q, env, entries[k])
  {
    var e := entries[k];
    var q := WithBlocks(Built(env, entries, k), env, e);
    WithBlocksOk(Built(env, entries, k), env, e);
    if Overrides(q, env, e) {
      var b := IndexIn(q.sids, env.Sid(e.dstId));
      InputsBefore(env, entries, k, b, e.dstPort);
      var j := LastTarget(env, entries, k, q.sids[b], e.dstPort).value;
      KeepsDirectAt(env, entries, j, k);
    }
  }

  /** The entry, if its blocks can be had, overwrites no block connection. */
  ghost predicate HarmlessEntry(p: Plan, env: Env, e: Entry)
    requires env.Valid() && Ok(p, env)
  {
    BlocksOk(e, env) ==> (WithBlocksOk(p, env, e); !Overrides(WithBlocks(p, env, e), env, e))
  }

  lemma EntryHarmless(env: Env, entries: seq<Entry>, k: nat)
    requires env.Valid() && k < |entries| && Succeeds(env, entries, k) && NoneOverrides(env, entries)
    ensures HarmlessEntry(Built(env, entries, k), env, entries[k])
  {
    if BlocksOk(entries[k], env) { NotOverriding(env, entries, k); }
  }

  lemma KeepsDirectAt(env: Env, entries: seq<Entry>, j: nat, l: nat)
    requires env.Valid() && NoneOverrides(env, entries) && j < l < |entries|
    ensures KeepsDirect(env, entries, j, l)
  {
  }

  // ------------------------------------------------------------------ the final checks

  /** Every output wider than one value is bound. */
  ghost predicate OutputsCovered(p: Plan, env: Env)
    requires |p.outs| == |env.outsizes|
  {
    forall o | 0 <= o < |p.outs| :: p.outs[o] == Unbound ==> env.outsizes[o] <= 1
  }

  /** All entries are accepted and all wide outputs are bound. */
  ghost predicate BuiltRight(env: Env, entries: seq<Entry>)
    requires env.Valid()
  {
    Succeeds(env, entries, |entries|) && OutputsCovered(Built(env, entries, |entries|), env)
  }

  ghost predicate AllConnected(g: Graph) {
    forall b, i | 0 <= b < |g| && 0 <= i < |g[b].ins| :: g[b].ins[i] != Unconnected
  }

  /** The graph's blocks register at most 32 events each. */
  lemma EventsFit(p: Plan, env: Env, b: nat)
    requires env.Valid() && Ok(p, env) && b < |p.graph|
    ensures |p.graph[b].emap| <= WIDTH
  {
    assert NodeOk(p, env, b);
    var t := env.catalog[p.sids[b]].value;
    RegisteredExactly(EventNumbers(t.events), |t.events|);
  }
}
