/**
  How the Scilab toolbox writes a simulation down: parameter sets are combined into one integer and
  one real vector, and connections become lines of eight integers. What the interpreter reads from
  such vectors is what was written.
 */
module Toolbox {
  import opened Dataflow
  import opened Irpar
  import opened Plan
  import opened Setup

  /** One element of a parameter set. */
  datatype Param = Param(id: int, typ: int, ipar: seq<int>, rpar: seq<real>)

  datatype Vectors = Vectors(ipar: seq<int>, rpar: seq<real>)

  function IntegerData(params: seq<Param>, k: nat): seq<int>
    requires k <= |params|
  {
    if k == 0 then [] else IntegerData(params, k - 1) + params[k-1].ipar
  }

  function RealData(params: seq<Param>, k: nat): seq<real>
    requires k <= |params|
  {
    if k == 0 then [] else RealData(params, k - 1) + params[k-1].rpar
  }

  /** The version, the number of elements, and six integers for each of the first k elements. */
  function Header(params: seq<Param>, k: nat): (h: seq<int>)
    requires k <= |params|
    ensures |h| == 2 + 6 * k
  {
    if k == 0 then [1, |params|]
    else
      var p := params[k-1];
      Header(params, k - 1) +
      [p.id, p.typ, |IntegerData(params, k - 1)|, |RealData(params, k - 1)|, |p.ipar|, |p.rpar|]
  }

  /** combine_irparam */
  function Combined(params: seq<Param>): Vectors {
    var n := |params|;
    Vectors(Header(params, n) + IntegerData(params, n), RealData(params, n))
  }

  lemma {:induction false} HeaderPrefix(params: seq<Param>, k: nat, n: nat)
    requires k <= n <= |params|
    ensures Header(params, k) <= Header(params, n)
  {
    if k < n { HeaderPrefix(params, k, n - 1); }
  }

  lemma {:induction false} DataPrefix(params: seq<Param>, k: nat, n: nat)
    requires k <= n <= |params|
    ensures IntegerData(params, k) <= IntegerData(params, n) && RealData(params, k) <= RealData(params, n)
  {
    if k < n { DataPrefix(params, k, n - 1); }
  }

  /** The six integers of an element. */
  lemma HeaderHolds(params: seq<Param>, n: nat)
    requires n < |params|
    ensures var ipar, p, b := Combined(params).ipar, params[n], 2 + 6 * n;
            && b + 6 <= |ipar| && ipar[1] == |params| && ipar[b] == p.id && ipar[b+1] == p.typ
            && ipar[b+2] == |IntegerData(params, n)| && ipar[b+3] == |RealData(params, n)|
            && ipar[b+4] == |p.ipar| && ipar[b+5] == |p.rpar|
  {
    HeaderPrefix(params, 0, |params|);
    HeaderPrefix(params, n + 1, |params|);
  }

  lemma HeaderFits(params: seq<Param>)
    requires params != []
    ensures HeaderOk(Combined(params).ipar) && Sets(Combined(params).ipar) == |params|
  {
    HeaderHolds(params, 0);
  }

  /**
    Id, type and data of every element are found where they were put. The two lengths are exchanged:
    the toolbox writes the number of integers first, the interpreter reads the number of reals first.
   */
  lemma ElementReadsBack(params: seq<Param>, n: nat)
    requires n < |params|
    ensures HeaderOk(Combined(params).ipar) && n < Sets(Combined(params).ipar)
    ensures var v, p, e := Combined(params), params[n], ElementAt(Combined(params).ipar, n);
            && e.id == p.id && e.typ == p.typ
            && 0 <= e.iparPos && e.iparPos + |p.ipar| <= |v.ipar|
            && v.ipar[e.iparPos..e.iparPos+|p.ipar|] == p.ipar
            && 0 <= e.rparPos && e.rparPos + |p.rpar| <= |v.rpar|
            && v.rpar[e.rparPos..e.rparPos+|p.rpar|] == p.rpar
            && e.rparLen == |p.ipar| && e.iparLen == |p.rpar|
  {
    HeaderFits(params);
    HeaderHolds(params, n);
    DataPrefix(params, n + 1, |params|);
    var v, p := Combined(params), params[n];
    var i, r := |IntegerData(params, n)|, |RealData(params, n)|;
    assert IntegerData(params, |params|)[i..i+|p.ipar|] == p.ipar;
    assert RealData(params, |params|)[r..r+|p.rpar|] == p.rpar;
    assert ElementAt(v.ipar, n).iparPos == |Header(params, |params|)| + i;
  }

  /** So the lengths of an element are right exactly if it has as many integers as reals. */
  lemma LengthsExact(params: seq<Param>, n: nat)
    requires n < |params|
    ensures HeaderOk(Combined(params).ipar) && n < Sets(Combined(params).ipar)
    ensures var p, e := params[n], ElementAt(Combined(params).ipar, n);
            e.iparLen == |p.ipar| && e.rparLen == |p.rpar| <==> |p.ipar| == |p.rpar|
  {
    ElementReadsBack(params, n);
  }

  predicate DistinctIds(params: seq<Param>) {
    forall i, j | 0 <= i < j < |params| :: params[i].id != params[j].id
  }

  /** Elements are found by their ids. */
  lemma FoundById(params: seq<Param>, n: nat)
    requires n < |params| && DistinctIds(params)
    ensures HeaderOk(Combined(params).ipar) && Find(Combined(params).ipar, params[n].id) == Some(n)
  {
    HeaderFits(params);
    var r := Find(Combined(params).ipar, params[n].id);
    ElementReadsBack(params, n);
    if r.Some? { ElementReadsBack(params, r.value); }
  }

  // ------------------------------------------------------------------ connection lists

  /** The eight integers of a line of a connection list, in their order. */
  datatype Line = Line(
    srcType: int, srcId: int, srcParId: int, srcPort: int,
    dstType: int, dstId: int, dstParId: int, dstPort: int)

  ghost predicate LineAt(box: seq<int>, p: int, l: Line) {
    0 <= p && p + 8 <= |box| && box[p..p+8] ==
      [l.srcType, l.srcId, l.srcParId, l.srcPort, l.dstType, l.dstId, l.dstParId, l.dstPort]
  }

  /** A connection list in any layout: the number of lines, their distance and the first one's position. */
  ghost predicate HoldsLines(box: seq<int>, lines: seq<Line>) {
    && |box| >= 4 && |lines| == (if box[1] < 0 then 0 else box[1])
    && forall i: nat | i < |lines| :: LineAt(box, box[3] + i * box[2], lines[i])
  }

  /** The parameter ids are not read; everything else is. */
  lemma LinesReadBack(box: seq<int>, lines: seq<Line>)
    requires HoldsLines(box, lines)
    ensures ConnListOk(box) && |Entries(box)| == |lines|
    ensures forall i: nat | i < |lines| :: LineRead(Entries(box)[i], lines[i])
  {
    forall i: nat | i < |lines| ensures EntryInside(box, i) && LineRead(EntryAt(box, i), lines[i]) {
      LineReadsBack(box, lines, i);
    }
  }

  ghost predicate LineRead(e: Entry, l: Line) {
    && e.srcType == l.srcType && e.srcId == l.srcId && e.srcPort == l.srcPort
    && e.dstType == l.dstType && e.dstId == l.dstId && e.dstPort == l.dstPort
  }

  lemma LineReadsBack(box: seq<int>, lines: seq<Line>, i: nat)
    requires HoldsLines(box, lines) && i < |lines|
    ensures EntryInside(box, i) && LineRead(EntryAt(box, i), lines[i])
  {
    var p := box[3] + i * box[2];
    assert LineAt(box, p, lines[i]);
    var s := box[p..p+8];
    assert s[0] == box[p] && s[1] == box[p+1] && s[3] == box[p+3];
    assert s[4] == box[p+4] && s[5] == box[p+5] && s[7] == box[p+7];
  }

  /** What the toolbox's connecting functions are called with; blocks are named by their ids. */
  datatype Connection =
    | BlockToBlock(src: int, srcPort: int, dst: int, dstPort: int)
    | InToBlock(srcPort: int, dst: int, dstPort: int)
    | BlockToOut(src: int, srcPort: int, dstPort: int)
    | InToOut(srcPort: int, dstPort: int)
    | Include(block: int)

  /** The line each of these functions adds to the list. */
  function LineOf(c: Connection): Line {
    match c
    case BlockToBlock(src, srcPort, dst, dstPort) => Line(0, src, src, srcPort, 0, dst, dst, dstPort)
    case InToBlock(srcPort, dst, dstPort) => Line(1, 0, 0, srcPort, 0, dst, dst, dstPort)
    case BlockToOut(src, srcPort, dstPort) => Line(0, src, src, srcPort, 1, 0, 0, dstPort)
    case InToOut(srcPort, dstPort) => Line(1, 0, 0, srcPort, 1, 0, 0, dstPort)
    case Include(block) => Line(0, 0, 0, 0, 2, block, block, 0)
  }

  function LinesOf(cs: seq<Connection>): (lines: seq<Line>)
    ensures |lines| == |cs|
  {
    seq(|cs|, i requires 0 <= i < |cs| => LineOf(cs[i]))
  }

  function Integers(l: Line): seq<int> {
    [l.srcType, l.srcId, l.srcParId, l.srcPort, l.dstType, l.dstId, l.dstParId, l.dstPort]
  }

  function Saved(lines: seq<Line>, k: nat): (s: seq<int>)
    requires k <= |lines|
    ensures |s| == 8 * k
  {
    if k == 0 then [] else Saved(lines, k - 1) + Integers(lines[k-1])
  }

  /** libdyn_build_cl */
  function ConnListBox(cs: seq<Connection>): seq<int> {
    [0, |cs|, 8, 4] + Saved(LinesOf(cs), |cs|)
  }

  lemma {:induction false} SavedLine(lines: seq<Line>, k: nat, i: nat)
    requires i < k <= |lines|
    ensures Saved(lines, k)[8*i..8*i+8] == Integers(lines[i])
  {
    if i < k - 1 {
      SavedLine(lines, k - 1, i);
      assert Saved(lines, k)[8*i..8*i+8] == Saved(lines, k - 1)[8*i..8*i+8];
    }
  }

  lemma BoxHoldsLines(cs: seq<Connection>)
    ensures HoldsLines(ConnListBox(cs), LinesOf(cs))
  {
    var box, lines := ConnListBox(cs), LinesOf(cs);
    forall i: nat | i < |lines| ensures LineAt(box, box[3] + i * box[2], lines[i]) {
      SavedLine(lines, |lines|, i);
      assert box[4+8*i..4+8*i+8] == Saved(lines, |lines|)[8*i..8*i+8];
    }
  }

  /** What a connection asks for, field by field. */
  ghost predicate AsksFor(e: Entry, c: Connection) {
    match c
    case BlockToBlock(src, srcPort, dst, dstPort) =>
      && e.srcType == 0 && e.srcId == src && e.srcPort == srcPort
      && e.dstType == 0 && e.dstId == dst && e.dstPort == dstPort
    case InToBlock(srcPort, dst, dstPort) =>
      e.srcType == 1 && e.srcPort == srcPort && e.dstType == 0 && e.dstId == dst && e.dstPort == dstPort
    case BlockToOut(src, srcPort, dstPort) =>
      e.srcType == 0 && e.srcId == src && e.srcPort == srcPort && e.dstType == 1 && e.dstPort == dstPort
    case InToOut(srcPort, dstPort) => e.srcType == 1 && e.srcPort == srcPort && e.dstType == 1 && e.dstPort == dstPort
    case Include(block) => e.dstType == 2 && e.dstId == block
  }

  /** A connection list may be followed by other data. */
  lemma MoreBehind(box: seq<int>, rest: seq<int>, lines: seq<Line>)
    requires HoldsLines(box, lines)
    ensures HoldsLines(box + rest, lines)
  {
    forall i: nat | i < |lines| ensures LineAt(box + rest, box[3] + i * box[2], lines[i]) {
      var p := box[3] + i * box[2];
      assert LineAt(box, p, lines[i]);
      assert (box + rest)[p..p+8] == box[p..p+8];
    }
  }

  // ------------------------------------------------------------------ whole simulations

  /** A simulation as the toolbox saves it: element n is the list of its connections, under its fixed id. */
  ghost predicate Saves(params: seq<Param>, n: nat, cs: seq<Connection>) {
    && DistinctIds(params) && n < |params|
    && params[n].id == CONNLIST_ID && params[n].typ == LIBDYN_CONNLIST && params[n].ipar == ConnListBox(cs)
  }

  /** The interpreter finds the connection list, and reads what the toolbox was asked for. */
  lemma ConnectionsReadBack(params: seq<Param>, n: nat, cs: seq<Connection>)
    requires Saves(params, n, cs)
    ensures var ipar := Combined(params).ipar;
            && HeaderOk(ipar) && HasConnList(ipar) && ConnListInside(ipar) && |EntriesOf(ipar)| == |cs|
            && forall i | 0 <= i < |cs| :: AsksFor(EntriesOf(ipar)[i], cs[i])
  {
    var ipar, box := Combined(params).ipar, ConnListBox(cs);
    FoundById(params, n);
    ElementReadsBack(params, n);
    var pos := ElementAt(ipar, n).iparPos;
    BoxHoldsLines(cs);
    MoreBehind(box, ipar[pos+|box|..], LinesOf(cs));
    assert ipar[pos..] == box + ipar[pos+|box|..];
    LinesAsked(ipar[pos..], cs);
  }

  lemma LinesAsked(box: seq<int>, cs: seq<Connection>)
    requires HoldsLines(box, LinesOf(cs))
    ensures ConnListOk(box) && |Entries(box)| == |cs|
    ensures forall i | 0 <= i < |cs| :: AsksFor(Entries(box)[i], cs[i])
  {
    LinesReadBack(box, LinesOf(cs));
    forall i | 0 <= i < |cs| ensures AsksFor(Entries(box)[i], cs[i]) {
      assert LineRead(Entries(box)[i], LineOf(cs[i]));
    }
  }

  predicate ToInput(c: Connection) { c.BlockToBlock? || c.InToBlock? }
  predicate ToOutput(c: Connection) { c.BlockToOut? || c.InToOut? }

  /** No input of a block and no output of the simulation is drawn twice. */
  predicate DrawnOnce(cs: seq<Connection>) {
    forall j, l | 0 <= j < l < |cs| :: DrawnApart(cs[j], cs[l])
  }

  predicate DrawnApart(c: Connection, d: Connection) {
    && (ToInput(c) && ToInput(d) ==> c.dst != d.dst || c.dstPort != d.dstPort)
    && (ToOutput(c) && ToOutput(d) ==> c.dstPort != d.dstPort)
  }

  /** A parameter vector that holds a saved simulation, and all of whose entries are accepted. */
  ghost predicate Accepts(env: Env, params: seq<Param>, n: nat, cs: seq<Connection>) {
    && env.Valid() && Saves(params, n, cs) && env.ipar == Combined(params).ipar
    && HasConnList(env.ipar) && ConnListInside(env.ipar)
    && Succeeds(env, EntriesOf(env.ipar), |EntriesOf(env.ipar)|)
  }

  /** The id of the block that was created from description s. */
  function IdOf(params: seq<Param>, s: nat): int { if s < |params| then params[s].id else 0 }

  /** Descriptions are found by their ids. */
  lemma SidExact(env: Env, params: seq<Param>, n: nat, cs: seq<Connection>, id: int, s: nat)
    requires Accepts(env, params, n, cs) && s < |env.catalog| && Find(env.ipar, id).Some?
    ensures env.Sid(id) == s <==> id == IdOf(params, s)
  {
    HeaderFits(params);
    FoundById(params, s);
    ElementReadsBack(params, env.Sid(id));
  }

  /** The blocks an entry names are found. */
  lemma NamedFound(env: Env, params: seq<Param>, n: nat, cs: seq<Connection>, j: nat)
    requires Accepts(env, params, n, cs) && j < |EntriesOf(env.ipar)|
    ensures var e := EntriesOf(env.ipar)[j];
            && (NamesSource(e) ==> Find(env.ipar, e.srcId).Some?) && (NamesTarget(e) ==> Find(env.ipar, e.dstId).Some?)
  {
    assert AcceptedAt(env, EntriesOf(env.ipar), j);
  }

  lemma DrawnOnceApart(env: Env, params: seq<Param>, n: nat, cs: seq<Connection>)
    requires Accepts(env, params, n, cs) && DrawnOnce(cs)
    ensures NoInputTwice(env, EntriesOf(env.ipar))
  {
    var entries := EntriesOf(env.ipar);
    ConnectionsReadBack(params, n, cs);
    forall j: nat, l: nat | j < l < |entries| ensures InputsApart(env, entries, j, l) {
      assert DrawnApart(cs[j], cs[l]) && AsksFor(entries[j], cs[j]) && AsksFor(entries[l], cs[l]);
      NamedFound(env, params, n, cs, j);
      NamedFound(env, params, n, cs, l);
      if ConnectsInput(entries[j]) && ConnectsInput(entries[l]) {
        HeaderFits(params);
        SidExact(env, params, n, cs, entries[j].dstId, env.Sid(entries[j].dstId));
        SidExact(env, params, n, cs, entries[l].dstId, env.Sid(entries[j].dstId));
      }
    }
  }

  /** The plan of a saved simulation. */
  ghost function Drawn(env: Env): Plan
    requires env.Valid() && HasConnList(env.ipar) && ConnListInside(env.ipar)
  {
    PlanOf(env, EntriesOf(env.ipar))
  }

  /** Blocks are created from descriptions in the vector. */
  lemma DescriptionInside(env: Env, params: seq<Param>, n: nat, cs: seq<Connection>, b: nat)
    requires Accepts(env, params, n, cs) && b < |Drawn(env).graph|
    ensures b < |Drawn(env).sids| && Drawn(env).sids[b] < |env.catalog| == |params|
    ensures IndexIn(Drawn(env).sids, Drawn(env).sids[b]) == b
  {
    HeaderFits(params);
    assert NodeOk(Drawn(env), env, b);
    IndexUnique(Drawn(env).sids, b);
  }

  /** The source of an input that connection c asks for. */
  ghost predicate Draws(c: Connection, source: Source, id: int, i: nat, ids: seq<int>) {
    match source
    case Direct(a, o) => a < |ids| && c == BlockToBlock(ids[a], o, id, i)
    case External(chan) => c == InToBlock(chan, id, i)
    case Unconnected => false
  }

  ghost function Ids(params: seq<Param>, sids: seq<nat>): seq<int> {
    seq(|sids|, b requires 0 <= b < |sids| => IdOf(params, sids[b]))
  }

  /** An entry describes a source of an input exactly if its connection draws it. */
  lemma DescribesDrawn(
    env: Env, params: seq<Param>, n: nat, cs: seq<Connection>, b: nat, i: nat, source: Source, j: nat)
    requires Accepts(env, params, n, cs) && b < |Drawn(env).graph| && source != Unconnected
    requires |EntriesOf(env.ipar)| == |cs| && j < |cs| && AsksFor(EntriesOf(env.ipar)[j], cs[j])
    ensures b < |Drawn(env).sids|
    ensures var sids := Drawn(env).sids;
            Describes(env, EntriesOf(env.ipar), j, sids[b], i, source, sids) <==>
              Draws(cs[j], source, IdOf(params, sids[b]), i, Ids(params, sids))
  {
    var e, sids := EntriesOf(env.ipar)[j], Drawn(env).sids;
    DescriptionInside(env, params, n, cs, b);
    NamedFound(env, params, n, cs, j);
    if NamesTarget(e) { SidExact(env, params, n, cs, e.dstId, sids[b]); }
    if NamesSource(e) {
      assert NamedAt(env, EntriesOf(env.ipar), j, env.Sid(e.srcId));
      BlocksExact(env, EntriesOf(env.ipar), |cs|, env.Sid(e.srcId));
      var a := IndexIn(sids, env.Sid(e.srcId));
      DescriptionInside(env, params, n, cs, a);
      SidExact(env, params, n, cs, e.srcId, sids[a]);
      SourceDrawn(env, params, n, cs, e, source);
    }
  }

  lemma SourceDrawn(env: Env, params: seq<Param>, n: nat, cs: seq<Connection>, e: Entry, source: Source)
    requires Accepts(env, params, n, cs) && e.srcType == 0 && Find(env.ipar, e.srcId).Some?
    requires env.Sid(e.srcId) in Drawn(env).sids
    ensures var sids := Drawn(env).sids;
            SourceFor(sids, env, e) == source && source.Direct? <==>
              source.Direct? && source.src < |sids| &&
              e.srcId == IdOf(params, sids[source.src]) && e.srcPort == source.port
  {
    var sids := Drawn(env).sids;
    if source.Direct? && source.src < |sids| {
      DescriptionInside(env, params, n, cs, source.src);
      SidExact(env, params, n, cs, e.srcId, sids[source.src]);
    }
  }

  /**
    The network that is set up is the one that was drawn: an input has a source exactly if a connection
    of the toolbox, which names blocks by their ids, draws it.
   */
  lemma NetworkAsDrawn(env: Env, params: seq<Param>, n: nat, cs: seq<Connection>, b: nat, i: nat, source: Source)
    requires Accepts(env, params, n, cs) && DrawnOnce(cs) && source != Unconnected
    requires b < |Drawn(env).graph| && i < |Drawn(env).graph[b].ins|
    ensures b < |Drawn(env).sids|
    ensures Drawn(env).graph[b].ins[i] == source <==>
            exists j :: 0 <= j < |cs| &&
              Draws(cs[j], source, IdOf(params, Drawn(env).sids[b]), i, Ids(params, Drawn(env).sids))
  {
    var entries, sids := EntriesOf(env.ipar), Drawn(env).sids;
    ConnectionsReadBack(params, n, cs);
    DrawnOnceApart(env, params, n, cs);
    ConnectionsExact(env, entries, b, i, source);
    forall j: nat | j < |cs|
      ensures Describes(env, entries, j, sids[b], i, source, sids) <==>
              Draws(cs[j], source, IdOf(params, sids[b]), i, Ids(params, sids))
    {
      DescribesDrawn(env, params, n, cs, b, i, source, j);
    }
  }

  /** The binding of an output that connection c asks for. */
  ghost predicate DrawsOutput(c: Connection, binding: Binding, o: nat, ids: seq<int>) {
    match binding
    case FromBlock(a, port) => a < |ids| && c == BlockToOut(ids[a], port, o)
    case PassThrough(chan) => c == InToOut(chan, o)
    case Unbound => false
  }

  lemma BindingDrawn(
    env: Env, params: seq<Param>, n: nat, cs: seq<Connection>, o: nat, binding: Binding, j: nat)
    requires Accepts(env, params, n, cs) && binding != Unbound
    requires |EntriesOf(env.ipar)| == |cs| && j < |cs| && AsksFor(EntriesOf(env.ipar)[j], cs[j])
    ensures var sids := Drawn(env).sids;
            BindsAt(EntriesOf(env.ipar), j, o) && BindingFor(sids, env, EntriesOf(env.ipar)[j]) == binding <==>
              DrawsOutput(cs[j], binding, o, Ids(params, sids))
  {
    var e, sids := EntriesOf(env.ipar)[j], Drawn(env).sids;
    NamedFound(env, params, n, cs, j);
    if NamesSource(e) {
      assert NamedAt(env, EntriesOf(env.ipar), j, env.Sid(e.srcId));
      BlocksExact(env, EntriesOf(env.ipar), |cs|, env.Sid(e.srcId));
      if binding.FromBlock? { SourceDrawn(env, params, n, cs, e, Direct(binding.block, binding.port)); }
    }
  }

  /** And so is every output of the simulation. */
  lemma OutputAsDrawn(env: Env, params: seq<Param>, n: nat, cs: seq<Connection>, o: nat, binding: Binding)
    requires Accepts(env, params, n, cs) && DrawnOnce(cs) && binding != Unbound && o < |env.outsizes|
    ensures o < |Drawn(env).outs|
    ensures Drawn(env).outs[o] == binding <==>
            exists j :: 0 <= j < |cs| && DrawsOutput(cs[j], binding, o, Ids(params, Drawn(env).sids))
  {
    var entries, ids := EntriesOf(env.ipar), Ids(params, Drawn(env).sids);
    ConnectionsReadBack(params, n, cs);
    OutputsExact(env, entries, |entries|, o);
    var last := LastBinding(entries, |entries|, o);
    if last.Some? { BindingDrawn(env, params, n, cs, o, binding, last.value); }
    forall j: nat | j < |cs| && DrawsOutput(cs[j], binding, o, ids) ensures last == Some(j) {
      BindingDrawn(env, params, n, cs, o, binding, j);
    }
  }

  /** The block ids a connection names. */
  predicate NamesBlock(c: Connection, id: int) {
    match c
    case BlockToBlock(src, _, dst, _) => id == src || id == dst
    case InToBlock(_, dst, _) => id == dst
    case BlockToOut(src, _, _) => id == src
    case InToOut(_, _) => false
    case Include(block) => id == block
  }

  /** There is a block exactly for each description whose id a connection names. */
  lemma BlocksAsDrawn(env: Env, params: seq<Param>, n: nat, cs: seq<Connection>, s: nat)
    requires Accepts(env, params, n, cs) && s < |params|
    ensures s in Drawn(env).sids <==> exists j :: 0 <= j < |cs| && NamesBlock(cs[j], IdOf(params, s))
  {
    var entries := EntriesOf(env.ipar);
    ConnectionsReadBack(params, n, cs);
    HeaderFits(params);
    BlocksExact(env, entries, |entries|, s);
    forall j: nat | j < |cs| ensures NamedAt(env, entries, j, s) <==> NamesBlock(cs[j], IdOf(params, s)) {
      var e := entries[j];
      assert AsksFor(e, cs[j]);
      NamedFound(env, params, n, cs, j);
      if NamesSource(e) { SidExact(env, params, n, cs, e.srcId, s); }
      if NamesTarget(e) { SidExact(env, params, n, cs, e.dstId, s); }
    }
  }
}
