/**
  Which connection lists are accepted: what every entry must satisfy, in terms of the descriptions it
  names and of the entries before it, and what the whole list must connect.
 */
module Admission {
  import opened Dataflow
  import opened Wiring
  import opened Irpar
  import opened Plan
  import opened Setup

  /** The first description with this id is of a block that can be created; t is its template. */
  ghost predicate Supplies(env: Env, id: int, t: Template)
    requires env.Valid()
  {
    exists s: nat :: SuppliesAt(env, id, s, t)
  }

  ghost predicate SuppliesAt(env: Env, id: int, s: nat, t: Template)
    requires env.Valid()
  {
    && IsFirst(env.ipar, id, s) && ElementAt(env.ipar, s).typ == 100
    && env.catalog[s] == Some(t) && forall i | 0 <= i < |t.events| :: t.events[i] < 32
  }

  lemma SuppliedExactly(env: Env, id: int, t: Template)
    requires env.Valid()
    ensures Supplies(env, id, t) <==> env.CanGet(id) && env.catalog[env.Sid(id)] == Some(t)
  {
    if Supplies(env, id, t) {
      var s: nat :| SuppliesAt(env, id, s, t);
      assert Find(env.ipar, id) == Some(s);
    }
    if env.CanGet(id) && env.catalog[env.Sid(id)] == Some(t) {
      assert SuppliesAt(env, id, env.Sid(id), t);
    }
  }

  ghost predicate Available(env: Env, id: int)
    requires env.Valid()
  {
    exists t :: Supplies(env, id, t)
  }

  lemma AvailableExactly(env: Env, id: int)
    requires env.Valid()
    ensures Available(env, id) <==> env.CanGet(id)
    ensures env.CanGet(id) ==> Supplies(env, id, env.catalog[env.Sid(id)].value)
  {
    if Available(env, id) {
      var t :| Supplies(env, id, t);
      SuppliedExactly(env, id, t);
    }
    if env.CanGet(id) { SuppliedExactly(env, id, env.catalog[env.Sid(id)].value); }
  }

  // ------------------------------------------------------------------ one entry

  /** Both entries connect the same input of the same block. */
  predicate SameInput(a: Entry, b: Entry) {
    a.dstType == 0 == b.dstType && 0 <= a.srcType <= 1 && a.dstId == b.dstId && a.dstPort == b.dstPort
  }

  /** Both entries give data to the same output of the simulation. */
  predicate SameOutput(a: Entry, b: Entry) {
    a.dstType == 1 == b.dstType && 0 <= a.srcType <= 1 && a.dstPort == b.dstPort
  }

  predicate NewInput(entries: seq<Entry>, j: nat)
    requires j < |entries|
  {
    forall l | 0 <= l < j :: !SameInput(entries[l], entries[j])
  }

  predicate NewOutput(entries: seq<Entry>, j: nat)
    requires j < |entries|
  {
    forall l | 0 <= l < j :: !SameOutput(entries[l], entries[j])
  }

  /** From an output of a block with template u to an input of a block with template t. */
  predicate Joins(e: Entry, t: Template, u: Template) {
    && 0 <= e.dstPort < |t.ins| && 0 <= e.srcPort < |u.outs|
    && t.ins[e.dstPort].len == u.outs[e.srcPort].len && t.ins[e.dstPort].datatyp == u.outs[e.srcPort].datatyp
  }

  predicate Feeds(env: Env, e: Entry, t: Template) {
    && 0 <= e.dstPort < |t.ins| && 0 <= e.srcPort < |env.insizes|
    && t.ins[e.dstPort].len == env.insizes[e.srcPort]
  }

  predicate Shows(env: Env, e: Entry, u: Template) {
    && 0 <= e.dstPort < |env.outsizes| && 0 <= e.srcPort < |u.outs|
    && env.outsizes[e.dstPort] == u.outs[e.srcPort].len
  }

  predicate PassesOn(env: Env, e: Entry) {
    && 0 <= e.dstPort < |env.outsizes| && 0 <= e.srcPort < |env.insizes|
    && env.outsizes[e.dstPort] == env.insizes[e.srcPort]
  }

  ghost predicate JoinsBlocks(env: Env, e: Entry)
    requires env.Valid()
  {
    exists t, u :: Supplies(env, e.dstId, t) && Supplies(env, e.srcId, u) && Joins(e, t, u)
  }

  ghost predicate FeedsBlock(env: Env, e: Entry)
    requires env.Valid()
  {
    exists t :: Supplies(env, e.dstId, t) && Feeds(env, e, t)
  }

  ghost predicate ShowsBlock(env: Env, e: Entry)
    requires env.Valid()
  {
    exists u :: Supplies(env, e.srcId, u) && Shows(env, e, u)
  }

  /**
    What entry j must satisfy. A block connection needs an input that no entry before it connects, and
    an output of the simulation is bound to a block only if no entry before it binds it; an input or
    output of the outside may replace an earlier one.
   */
  ghost predicate Fitting(env: Env, entries: seq<Entry>, j: nat)
    requires env.Valid() && j < |entries|
  {
    var e := entries[j];
    if e.dstType == 2 then Available(env, e.dstId)
    else if e.srcType == 0 && e.dstType == 0 then JoinsBlocks(env, e) && NewInput(entries, j)
    else if e.srcType == 1 && e.dstType == 0 then FeedsBlock(env, e)
    else if e.srcType == 0 && e.dstType == 1 then ShowsBlock(env, e) && NewOutput(entries, j)
    else if e.srcType == 1 && e.dstType == 1 then PassesOn(env, e)
    else if e.srcType == 0 then Available(env, e.srcId)
    else if e.dstType == 0 then Available(env, e.dstId)
    else true
  }

  /** Blocks of an entry, as found. */
  lemma FindTemplates(env: Env, e: Entry)
    requires env.Valid()
    ensures NamesTarget(e) && NamesSource(e) && BlocksOk(e, env) ==>
      (JoinsBlocks(env, e) <==> Joins(e, TargetTemplate(env, e), SourceTemplate(env, e)))
    ensures NamesTarget(e) && BlocksOk(e, env) ==> (FeedsBlock(env, e) <==> Feeds(env, e, TargetTemplate(env, e)))
    ensures NamesSource(e) && BlocksOk(e, env) ==> (ShowsBlock(env, e) <==> Shows(env, e, SourceTemplate(env, e)))
    ensures JoinsBlocks(env, e) ==> env.CanGet(e.dstId) && env.CanGet(e.srcId)
    ensures FeedsBlock(env, e) ==> env.CanGet(e.dstId)
    ensures ShowsBlock(env, e) ==> env.CanGet(e.srcId)
  {
    AvailableExactly(env, e.dstId);
    AvailableExactly(env, e.srcId);
    forall t ensures Supplies(env, e.dstId, t) ==> env.CanGet(e.dstId) && env.catalog[env.Sid(e.dstId)] == Some(t) {
      SuppliedExactly(env, e.dstId, t);
    }
    forall t ensures Supplies(env, e.srcId, t) ==> env.CanGet(e.srcId) && env.catalog[env.Sid(e.srcId)] == Some(t) {
      SuppliedExactly(env, e.srcId, t);
    }
  }

  /** Different ids stand for different descriptions, if both are found. */
  lemma IdsApart(env: Env, a: int, b: int)
    requires env.Valid() && env.CanGet(a) && env.CanGet(b)
    ensures env.Sid(a) == env.Sid(b) <==> a == b
  {
  }

  lemma EarlierOk(env: Env, entries: seq<Entry>, k: nat, l: nat)
    requires env.Valid() && k <= |entries| && Succeeds(env, entries, k) && l < k
    ensures BlocksOk(entries[l], env)
    ensures ConnectsInput(entries[l]) || BindsOutput(entries[l]) ==> entries[l].srcPort >= 0
  {
    assert AcceptedAt(env, entries, l);
  }

  lemma SameInputExactly(env: Env, entries: seq<Entry>, k: nat, l: nat)
    requires env.Valid() && k < |entries| && Succeeds(env, entries, k) && l < k
    requires entries[k].dstType == 0 && env.CanGet(entries[k].dstId) && entries[k].dstPort >= 0
    ensures SameInput(entries[l], entries[k]) <==>
      TargetsAt(env, entries, l, env.Sid(entries[k].dstId), entries[k].dstPort)
  {
    EarlierOk(env, entries, k, l);
    if entries[l].dstType == 0 { IdsApart(env, entries[l].dstId, entries[k].dstId); }
  }

  /** An input is free if and only if no entry before connects it. */
  lemma FreeExactly(env: Env, entries: seq<Entry>, k: nat)
    requires env.Valid() && k < |entries| && Succeeds(env, entries, k) && BlocksOk(entries[k], env)
    requires var e := entries[k]; e.dstType == 0 && 0 <= e.dstPort < |TargetTemplate(env, e).ins|
    ensures var e, q := entries[k], WithBlocks(Built(env, entries, k), env, entries[k]);
            && env.Sid(e.dstId) in q.sids
            && var b := IndexIn(q.sids, env.Sid(e.dstId));
               && b < |q.graph| && e.dstPort < |q.graph[b].ins|
               && (q.graph[b].ins[e.dstPort] == Unconnected <==> NewInput(entries, k))
  {
    var e := entries[k];
    var q := WithBlocks(Built(env, entries, k), env, e);
    WithBlocksOk(Built(env, entries, k), env, e);
    var s := env.Sid(e.dstId);
    var b, i := IndexIn(q.sids, s), e.dstPort;
    assert NodeOk(q, env, b);
    InputsBefore(env, entries, k, b, i);
    var last := LastTarget(env, entries, k, s, i);
    forall l: nat | l < k ensures SameInput(entries[l], e) <==> TargetsAt(env, entries, l, s, i) {
      SameInputExactly(env, entries, k, l);
    }
    if last.Some? { GivesSource(env, entries, k, last.value, q.sids); }
  }

  /** An entry that was accepted connects its input to something, and binds its output to something. */
  lemma GivesSource(env: Env, entries: seq<Entry>, k: nat, l: nat, sids: seq<nat>)
    requires env.Valid() && k <= |entries| && Succeeds(env, entries, k) && l < k
    requires forall s :: s in Built(env, entries, k).sids ==> s in sids
    ensures ConnectsInput(entries[l]) ==> SourceFor(sids, env, entries[l]) != Unconnected
    ensures BindsOutput(entries[l]) ==> BindingFor(sids, env, entries[l]) != Unbound
  {
    var e := entries[l];
    EarlierOk(env, entries, k, l);
    if NamesSource(e) {
      assert NamedAt(env, entries, l, env.Sid(e.srcId));
      BlocksExact(env, entries, k, env.Sid(e.srcId));
    }
  }

  /** An output of the simulation is unbound if and only if no entry before binds it. */
  lemma UnboundExactly(env: Env, entries: seq<Entry>, k: nat)
    requires env.Valid() && k < |entries| && Succeeds(env, entries, k) && entries[k].dstType == 1
    requires 0 <= entries[k].dstPort < |env.outsizes|
    ensures Built(env, entries, k).outs[entries[k].dstPort] == Unbound <==> NewOutput(entries, k)
  {
    var o := entries[k].dstPort;
    OutputsExact(env, entries, k, o);
    var last := LastBinding(entries, k, o);
    forall l: nat | l < k ensures SameOutput(entries[l], entries[k]) <==> BindsAt(entries, l, o) {
    }
    if last.Some? { GivesSource(env, entries, k, last.value, Built(env, entries, k).sids); }
  }

  /** The next entry is accepted if and only if it satisfies its conditions. */
  lemma NextExactly(env: Env, entries: seq<Entry>, k: nat)
    requires env.Valid() && k < |entries| && Succeeds(env, entries, k)
    ensures AcceptedAt(env, entries, k) <==> Fitting(env, entries, k)
  {
    var e, p := entries[k], Built(env, entries, k);
    FindTemplates(env, e);
    AvailableExactly(env, e.dstId);
    AvailableExactly(env, e.srcId);
    if BlocksOk(e, env) {
      WithBlocksOk(p, env, e);
      if e.srcType == 0 && e.dstType == 0 {
        if 0 <= e.dstPort < |TargetTemplate(env, e).ins| { FreeExactly(env, entries, k); }
      } else if e.srcType == 0 && e.dstType == 1 {
        if 0 <= e.dstPort < |env.outsizes| { UnboundExactly(env, entries, k); }
      }
    }
  }

  lemma OneMoreSucceeds(env: Env, entries: seq<Entry>, k: nat)
    requires env.Valid() && 0 < k <= |entries|
    ensures Succeeds(env, entries, k) <==> Succeeds(env, entries, k - 1) && AcceptedAt(env, entries, k - 1)
  {
  }

  /** The first k entries satisfy their conditions. */
  ghost predicate AllFitting(env: Env, entries: seq<Entry>, k: nat)
    requires env.Valid() && k <= |entries|
  {
    forall j: nat | j < k :: Fitting(env, entries, j)
  }

  lemma OneMoreFitting(env: Env, entries: seq<Entry>, k: nat)
    requires env.Valid() && 0 < k <= |entries|
    ensures AllFitting(env, entries, k) <==> AllFitting(env, entries, k - 1) && Fitting(env, entries, k - 1)
  {
  }

  /** A connection list is accepted entry by entry if and only if every entry satisfies its conditions. */
  lemma {:induction false} EntriesAcceptedExactly(env: Env, entries: seq<Entry>, k: nat)
    requires env.Valid() && k <= |entries|
    ensures Succeeds(env, entries, k) <==> AllFitting(env, entries, k)
  {
    if k > 0 {
      EntriesAcceptedExactly(env, entries, k - 1);
      OneMoreAccepted(env, entries, k);
    }
  }

  lemma OneMoreAccepted(env: Env, entries: seq<Entry>, k: nat)
    requires env.Valid() && 0 < k <= |entries|
    requires Succeeds(env, entries, k - 1) <==> AllFitting(env, entries, k - 1)
    ensures Succeeds(env, entries, k) <==> AllFitting(env, entries, k)
  {
    OneMoreSucceeds(env, entries, k);
    OneMoreFitting(env, entries, k);
    if Succeeds(env, entries, k - 1) { NextExactly(env, entries, k - 1); }
  }

  // ------------------------------------------------------------------ the whole list

  predicate GivesOutput(e: Entry, o: nat) { e.dstType == 1 && 0 <= e.srcType <= 1 && e.dstPort == o }

  predicate GivesInput(e: Entry, id: int, i: nat) {
    e.dstType == 0 && 0 <= e.srcType <= 1 && e.dstId == id && e.dstPort == i
  }

  /** The entry names the block with this id. */
  predicate NamesId(e: Entry, id: int) {
    (e.srcType == 0 && e.dstType != 2 && e.srcId == id) || ((e.dstType == 0 || e.dstType == 2) && e.dstId == id)
  }

  ghost predicate OutputGiven(entries: seq<Entry>, o: nat) {
    exists j :: 0 <= j < |entries| && GivesOutput(entries[j], o)
  }

  ghost predicate InputGiven(entries: seq<Entry>, id: int, i: nat) {
    exists j :: 0 <= j < |entries| && GivesInput(entries[j], id, i)
  }

  /** Every output of the simulation that is wider than one value is given. */
  ghost predicate WideOutputsGiven(env: Env, entries: seq<Entry>) {
    forall o: nat | o < |env.outsizes| && env.outsizes[o] > 1 :: OutputGiven(entries, o)
  }

  /** Every input of every block that is named is given. */
  ghost predicate AllInputsGiven(env: Env, entries: seq<Entry>)
    requires env.Valid()
  {
    forall j, id | 0 <= j < |entries| && NamesId(entries[j], id) :: BlockGiven(env, entries, id)
  }

  ghost predicate BlockGiven(env: Env, entries: seq<Entry>, id: int)
    requires env.Valid()
  {
    forall t, i: nat | Supplies(env, id, t) && i < |t.ins| :: InputGiven(entries, id, i)
  }

  lemma CoveredExactly(env: Env, entries: seq<Entry>)
    requires env.Valid() && Succeeds(env, entries, |entries|)
    ensures OutputsCovered(Built(env, entries, |entries|), env) <==> WideOutputsGiven(env, entries)
  {
    var n := |entries|;
    var p := Built(env, entries, n);
    forall o: nat | o < |env.outsizes| ensures p.outs[o] != Unbound <==> OutputGiven(entries, o) {
      OutputsExact(env, entries, n, o);
      var last := LastBinding(entries, n, o);
      forall j: nat | j < n ensures GivesOutput(entries[j], o) <==> BindsAt(entries, j, o) {
      }
      if last.Some? { GivesSource(env, entries, n, last.value, p.sids); }
    }
  }

  /** An input of a block that was built is connected if and only if some entry gives it. */
  lemma InputGivenExactly(env: Env, entries: seq<Entry>, id: int, i: nat)
    requires env.Valid() && Succeeds(env, entries, |entries|) && env.CanGet(id)
    requires var p := Built(env, entries, |entries|);
             && env.Sid(id) in p.sids
             && IndexIn(p.sids, env.Sid(id)) < |p.graph| && i < |p.graph[IndexIn(p.sids, env.Sid(id))].ins|
    ensures var p := Built(env, entries, |entries|);
            p.graph[IndexIn(p.sids, env.Sid(id))].ins[i] != Unconnected <==> InputGiven(entries, id, i)
  {
    var n, s := |entries|, env.Sid(id);
    var p := Built(env, entries, n);
    InputsExact(env, entries, n, IndexIn(p.sids, s), i);
    var last := LastTarget(env, entries, n, s, i);
    forall j: nat | j < n ensures GivesInput(entries[j], id, i) <==> TargetsAt(env, entries, j, s, i) {
      EarlierOk(env, entries, n, j);
      if entries[j].dstType == 0 { IdsApart(env, entries[j].dstId, id); }
    }
    if last.Some? { GivesSource(env, entries, n, last.value, p.sids); }
  }

  /** The blocks that were built are those named. */
  lemma NamedBuilt(env: Env, entries: seq<Entry>, j: nat, id: int)
    requires env.Valid() && Succeeds(env, entries, |entries|) && j < |entries| && NamesId(entries[j], id)
    ensures var p := Built(env, entries, |entries|);
            && env.CanGet(id) && env.Sid(id) in p.sids && IndexIn(p.sids, env.Sid(id)) < |p.graph|
            && |p.graph[IndexIn(p.sids, env.Sid(id))].ins| == |env.catalog[env.Sid(id)].value.ins|
  {
    EarlierOk(env, entries, |entries|, j);
    assert NamedAt(env, entries, j, env.Sid(id));
    BlocksExact(env, entries, |entries|, env.Sid(id));
    var p := Built(env, entries, |entries|);
    assert NodeOk(p, env, IndexIn(p.sids, env.Sid(id)));
  }

  lemma BuiltNamed(env: Env, entries: seq<Entry>, b: nat) returns (j: nat, id: int)
    requires env.Valid() && Succeeds(env, entries, |entries|) && b < |Built(env, entries, |entries|).sids|
    ensures j < |entries| && NamesId(entries[j], id) && env.Sid(id) == Built(env, entries, |entries|).sids[b]
  {
    var s := Built(env, entries, |entries|).sids[b];
    BlocksExact(env, entries, |entries|, s);
    j :| j < |entries| && NamedAt(env, entries, j, s);
    var e := entries[j];
    id := if NamesSource(e) && env.Sid(e.srcId) == s then e.srcId else e.dstId;
  }

  /** The check for unconnected inputs succeeds if and only if every input of every named block is given. */
  lemma ConnectedExactly(env: Env, entries: seq<Entry>)
    requires env.Valid() && Succeeds(env, entries, |entries|)
    ensures AllConnected(Built(env, entries, |entries|).graph) <==> AllInputsGiven(env, entries)
  {
    var p := Built(env, entries, |entries|);
    if AllConnected(p.graph) {
      forall j, id | 0 <= j < |entries| && NamesId(entries[j], id) ensures BlockGiven(env, entries, id) {
        NamedBuilt(env, entries, j, id);
        forall t, i: nat | Supplies(env, id, t) && i < |t.ins| ensures InputGiven(entries, id, i) {
          SuppliedExactly(env, id, t);
          InputGivenExactly(env, entries, id, i);
        }
      }
    }
    if AllInputsGiven(env, entries) {
      forall b: nat, i: nat | b < |p.graph| && i < |p.graph[b].ins| ensures p.graph[b].ins[i] != Unconnected {
        var j, id := BuiltNamed(env, entries, b);
        NamedBuilt(env, entries, j, id);
        IndexUnique(p.sids, b);
        AvailableExactly(env, id);
        assert BlockGiven(env, entries, id);
        InputGivenExactly(env, entries, id, i);
      }
    }
  }

  /** The connection list is the first element with id 100, if it is of type 101. */
  lemma ConnListExactly(ipar: seq<int>)
    requires HeaderOk(ipar)
    ensures HasConnList(ipar) <==> exists n: nat :: IsFirst(ipar, 100, n) && ElementAt(ipar, n).typ == 101
  {
    if HasConnList(ipar) { assert IsFirst(ipar, 100, Find(ipar, 100).value); }
  }

  /**
    Parameters are set up and started if and only if they have a connection list, each of its entries
    satisfies its conditions, wide outputs and all inputs are given, and some block can run.
   */
  lemma StartsExactly(env: Env)
    requires Buildable(env)
    ensures WellDescribed(env) <==>
      && HasConnList(env.ipar)
      && var entries := EntriesOf(env.ipar);
         && AllFitting(env, entries, |entries|)
         && WideOutputsGiven(env, entries) && AllInputsGiven(env, entries)
         && Runnable(Described(env).graph)
  {
    if HasConnList(env.ipar) {
      var entries := EntriesOf(env.ipar);
      EntriesAcceptedExactly(env, entries, |entries|);
      if Succeeds(env, entries, |entries|) {
        CoveredExactly(env, entries);
        ConnectedExactly(env, entries);
      }
    }
  }
}
