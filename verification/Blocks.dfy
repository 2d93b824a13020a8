/**
  Computational functions of libdyn_blocks.c as pairs (out, next), with the direct-feedthrough
  declaration each of them makes, and what they compute over whole runs.
 */
module Blocks {
  import opened Events
  import opened Dataflow
  import opened Filters

  /** A scalar input port; a missing value reads as zero. */
  function In(x: seq<Val>, i: nat): real {
    if i < |x| && |x[i]| > 0 then x[i][0] else 0.0
  }

  function Word0(s: State): real { if |s| > 0 then s[0] else 0.0 }

  function Scaled(c: real, v: real): real { c * v }

  datatype Kind =
    | Const(c: real)
    | Gain(c: real)
    | Sum(ca: real, cb: real)
    | Switch
    | Sat(lo: real, hi: real)
    | Tp1(pole: real)
    | FlipFlop(initial: real)
    | EventSwitch(initial: real)
  {
    /** block_type: static blocks are never updated. */
    predicate Dynamic() { Tp1? || FlipFlop? || EventSwitch? }

    /** d_feedthrough as declared by libdyn_config_block_output. */
    predicate Feed() { !Const? && !Tp1? }

    function Inputs(): nat {
      match this
      case Const(_) => 0
      case Gain(_) => 1
      case Sum(_, _) => 2
      case Switch => 2
      case Sat(_, _) => 1
      case Tp1(_) => 1
      case FlipFlop(_) => 3
      case EventSwitch(_) => 2
    }

    function Initial(): State {
      match this
      case FlipFlop(i) => [i]
      case EventSwitch(i) => [i]
      case Tp1(_) => [0.0]
      case _ => []
    }

    /** COMPF_FLAG_CALCOUTPUTS. */
    function Out(s: State, x: seq<Val>): seq<Val> {
      match this
      case Const(c) => [[c]]
      case Gain(c) => [[Scaled(c, In(x, 0))]]
      case Sum(ca, cb) => [[Scaled(ca, In(x, 0)) + Scaled(cb, In(x, 1))]]
      case Switch => if In(x, 0) > 0.0 then [[In(x, 1)], [0.0]] else [[0.0], [In(x, 1)]]
      case Sat(lo, hi) =>
        var v := if In(x, 0) < lo then lo else In(x, 0);
        [[if v > hi then hi else v]]
      case Tp1(pole) => [[Tp1Out(pole, Word0(s), In(x, 0))]]
      case FlipFlop(_) => [[Word0(s)]]
      case EventSwitch(_) => [[if Word0(s) == 0.0 then In(x, 0) else In(x, 1)]]
    }

    /** COMPF_FLAG_UPDATESTATES. */
    function Next(s: State, x: seq<Val>, events: Word): State {
      match this
      case Tp1(pole) => [Tp1Inner(pole, Word0(s), In(x, 0))]
      case FlipFlop(initial) =>
        if In(x, 0) > 0.0 then [0.0]
        else if In(x, 1) > 0.0 then [1.0]
        else if In(x, 2) > 0.0 then [initial]
        else s
      case EventSwitch(_) =>
        if 2 in events then [1.0] else if 1 in events then [0.0] else s
      case _ => s
    }

    function Comp(): CompFunc {
      CompFunc((s: State, x: seq<Val>) => Out(s, x), (s: State, x: seq<Val>, e: Word) => Next(s, x, e))
    }
  }

  /** The inner sample of the lag filter: den = {-pole}, so a(1) = -pole. */
  function Tp1Inner(pole: real, z: real, input: real): real { input - (-pole) * z }

  /** num = {1 - pole} with M = 0 < N = 1, so b(0) = 0 and b(1) = 1 - pole. */
  function Tp1Out(pole: real, z: real, input: real): real {
    Tp1Inner(pole, z, input) * 0.0 + (1.0 - pole) * z
  }

  /** Each of these blocks keeps the contract under which the scheduler may cut at it and the stepper skip it. */
  lemma KindHonorsFeed(k: Kind, ins: seq<Source>, mask: Word, emap: seq<EventNr>)
    ensures Node(k.Dynamic(), k.Feed(), ins, k.Comp(), mask, emap).HonorsFeed()
  {
    forall s: State, x: seq<Val> | !k.Feed() ensures k.Out(s, x) == k.Out(s, []) {
      if k.Tp1? {
        assert Tp1Inner(k.pole, Word0(s), In(x, 0)) * 0.0 == 0.0;
      }
    }
  }

  /** Every graph of such blocks, with their own feedthrough declarations, keeps the contract. */
  lemma KindsKeepContract(g: Graph, kinds: seq<Kind>)
    requires |g| == |kinds|
    requires forall b | 0 <= b < |g| :: g[b].comp == kinds[b].Comp() && g[b].feed == kinds[b].Feed()
    ensures Contract(g)
  {
    forall b | 0 <= b < |g| ensures g[b].HonorsFeed() {
      KindHonorsFeed(kinds[b], g[b].ins, g[b].mask, g[b].emap);
    }
  }

  /** The outputs in state s depend on the inputs. */
  ghost predicate SeesInputs(k: Kind, s: State) {
    exists x: seq<Val>, y: seq<Val> :: k.Out(s, x) != k.Out(s, y)
  }

  /** Which blocks see their inputs; the flip-flop never does, although it is declared with feedthrough. */
  lemma FeedExact(k: Kind, s: State)
    ensures SeesInputs(k, s) <==>
      match k
      case Const(_) => false
      case Gain(c) => c != 0.0
      case Sum(ca, cb) => ca != 0.0 || cb != 0.0
      case Switch => true
      case Sat(lo, hi) => lo < hi
      case Tp1(_) => false
      case FlipFlop(_) => false
      case EventSwitch(_) => true
  {
    match k
    case Gain(c) => if c != 0.0 { Differ(k, s, [[1.0]], [[0.0]]); }
    case Sum(ca, cb) =>
      if ca != 0.0 { Differ(k, s, [[1.0], [0.0]], [[0.0], [0.0]]); }
      if cb != 0.0 { Differ(k, s, [[0.0], [1.0]], [[0.0], [0.0]]); }
    case Switch => Differ(k, s, [[1.0], [1.0]], [[0.0], [1.0]]);
    case Sat(lo, hi) => if lo < hi { Differ(k, s, [[lo]], [[hi]]); }
    case Tp1(pole) =>
      forall x: seq<Val>, y: seq<Val> ensures k.Out(s, x) == k.Out(s, y) {
        Tp1Arithmetic(pole, Word0(s), In(x, 0));
        Tp1Arithmetic(pole, Word0(s), In(y, 0));
      }
    case EventSwitch(_) => Differ(k, s, [[1.0], [0.0]], [[0.0], [1.0]]);
    case _ =>
  }

  lemma Differ(k: Kind, s: State, x: seq<Val>, y: seq<Val>)
    requires |k.Out(s, x)| > 0 && |k.Out(s, x)[0]| > 0 && |k.Out(s, y)| > 0 && |k.Out(s, y)[0]| > 0
    requires k.Out(s, x)[0][0] != k.Out(s, y)[0][0]
    ensures SeesInputs(k, s)
  {
  }

  function Distance(x: real, y: real): real { if x < y then y - x else x - y }

  /** What the blocks show for inputs u and v, whatever their states are. */
  lemma {:induction false} ShownValues(c: real, d: real, s: State, u: real, v: real)
    ensures Const(c).Out(s, []) == [[c]]
    ensures Gain(c).Out(s, [[u]]) == [[c * u]]
    ensures Sum(c, d).Out(s, [[u], [v]]) == [[c * u + d * v]]
    ensures u > 0.0 ==> Switch.Out(s, [[u], [v]]) == [[v], [0.0]]
    ensures u <= 0.0 ==> Switch.Out(s, [[u], [v]]) == [[0.0], [v]]
    ensures FlipFlop(c).Out([d], [[u], [v], [u]]) == [[d]]
    ensures EventSwitch(c).Out([d], [[u], [v]]) == [[if d == 0.0 then u else v]]
  {
    assert In([[u]], 0) == u && In([[u], [v]], 0) == u && In([[u], [v]], 1) == v;
    assert Scaled(c, u) == c * u && Scaled(d, v) == d * v;
  }

  predicate SameFirst(x: seq<Val>, y: seq<Val>, n: nat) { forall i: nat | i < n :: In(x, i) == In(y, i) }

  /** A block of one of these kinds reads its declared inputs only, and a block that is not dynamic keeps its state. */
  lemma {:induction false} ReadsDeclared(k: Kind, s: State, x: seq<Val>, y: seq<Val>, events: Word)
    requires SameFirst(x, y, k.Inputs())
    ensures k.Out(s, x) == k.Out(s, y) && k.Next(s, x, events) == k.Next(s, y, events)
    ensures !k.Dynamic() ==> k.Next(s, x, events) == s
  {
    assert k.Inputs() > 0 ==> In(x, 0) == In(y, 0);
    assert k.Inputs() > 1 ==> In(x, 1) == In(y, 1);
    assert k.Inputs() > 2 ==> In(x, 2) == In(y, 2);
  }

  /** The last declared input makes a difference. */
  lemma {:induction false} LastInputMatters(c: real, d: real, s: State)
    requires c > 0.0 && d > 0.0
    ensures Const(c).Inputs() == 0
    ensures Gain(c).Out(s, [[1.0]]) != Gain(c).Out(s, []) && Gain(c).Inputs() == 1
    ensures Sum(c, d).Out(s, [[0.0], [1.0]]) != Sum(c, d).Out(s, [[0.0]]) && Sum(c, d).Inputs() == 2
    ensures Switch.Out(s, [[0.0], [1.0]]) != Switch.Out(s, [[0.0]]) && Switch.Inputs() == 2
    ensures Sat(0.0, c).Out(s, [[c]]) != Sat(0.0, c).Out(s, []) && Sat(0.0, c).Inputs() == 1
    ensures Tp1(c).Next(s, [[1.0]], {}) != Tp1(c).Next(s, [], {}) && Tp1(c).Inputs() == 1
    ensures FlipFlop(d).Next([0.0], [[0.0], [0.0], [1.0]], {}) != FlipFlop(d).Next([0.0], [[0.0], [0.0]], {})
    ensures FlipFlop(d).Inputs() == 3 && EventSwitch(d).Inputs() == 2
    ensures EventSwitch(d).Out([1.0], [[0.0], [1.0]]) != EventSwitch(d).Out([1.0], [[0.0]])
  {
    assert Scaled(c, 1.0) == c && Scaled(c, 0.0) == 0.0 && Scaled(d, 1.0) == d && Scaled(d, 0.0) == 0.0;
    assert Gain(c).Out(s, [[1.0]])[0][0] != Gain(c).Out(s, [])[0][0];
    assert Sum(c, d).Out(s, [[0.0], [1.0]])[0][0] != Sum(c, d).Out(s, [[0.0]])[0][0];
    assert Switch.Out(s, [[0.0], [1.0]])[1][0] != Switch.Out(s, [[0.0]])[1][0];
    assert Sat(0.0, c).Out(s, [[c]])[0][0] != Sat(0.0, c).Out(s, [])[0][0];
    assert Tp1(c).Next(s, [[1.0]], {})[0] != Tp1(c).Next(s, [], {})[0];
    assert FlipFlop(d).Next([0.0], [[0.0], [0.0], [1.0]], {})[0] != FlipFlop(d).Next([0.0], [[0.0], [0.0]], {})[0];
    assert EventSwitch(d).Out([1.0], [[0.0], [1.0]])[0][0] != EventSwitch(d).Out([1.0], [[0.0]])[0][0];
  }

  /** The saturation shows the value between its bounds that is closest to its input; the upper bound wins. */
  lemma {:induction false} SaturationNearest(lo: real, hi: real, s: State, u: real) returns (y: real)
    ensures Sat(lo, hi).Out(s, [[u]]) == [[y]]
    ensures lo <= hi ==> lo <= y <= hi && forall z: real | lo <= z <= hi :: Distance(u, y) <= Distance(u, z)
    ensures lo > hi ==> y == hi
  {
    y := Sat(lo, hi).Out(s, [[u]])[0][0];
  }

  // ------------------------------------------------------------------ block instances

  lemma TwoTaps(c: seq<real>, u: int -> real, k: int)
    requires |c| == 2
    ensures Conv(c, u, k) == c[0] * u(k) + c[1] * u(k - 1)
  {
    assert c[..1] == [c[0]] && [c[0]][..0] == [];
    assert Conv([c[0]], u, k) == Conv([], u, k) + c[0] * u(k);
  }

  lemma Tp1Arithmetic(pole: real, z: real, input: real)
    ensures Tp1Inner(pole, z, input) + (-pole) * z == input
    ensures Tp1Out(pole, z, input) == (1.0 - pole) * z
  {
    assert Tp1Inner(pole, z, input) * 0.0 == 0.0;
  }

  /** One step of the lag block is one step of the filter with a = [1, -pole] and b = [0, 1 - pole]. */
  lemma Tp1Step(pole: real, ws: seq<real>, z: real, input: real, w: real, v: int -> real)
    requires z == Signal(ws)(|ws| - 1) && w == Tp1Inner(pole, z, input) && v == Signal(ws + [w])
    ensures Conv([1.0, -pole], v, |ws|) == input
    ensures Conv([0.0, 1.0 - pole], v, |ws|) == Tp1Out(pole, z, input)
  {
    var a, b, k := [1.0, -pole], [0.0, 1.0 - pole], |ws|;
    Tp1Arithmetic(pole, z, input);
    assert v(k) == w && v(k - 1) == z;
    TwoTaps(a, v, k);
    TwoTaps(b, v, k);
    assert a[0] * v(k) == w && b[0] * v(k) == 0.0;
  }

  lemma LagSolve(pole: real, z: real, input: real, w: real, y: real)
    requires input == w + (-pole) * z && y == (1.0 - pole) * z
    ensures w == Tp1Inner(pole, z, input) && y == Tp1Out(pole, z, input)
  {
    Tp1Arithmetic(pole, z, input);
  }

  lemma LagTaps(pole: real, w: real, z: real, input: real, y: real, a0: real, a1: real, b0: real, b1: real)
    requires a0 == 1.0 && a1 == -pole && b0 == 0.0 && b1 == 1.0 - pole
    requires input == a0 * w + a1 * z && y == b0 * w + b1 * z
    ensures input == w + (-pole) * z && y == (1.0 - pole) * z
  {
    assert a0 * w == w && b0 * w == 0.0;
  }

  /** The states and outputs of the lag block are those of its filter. */
  lemma LagFilter(pole: real, a: seq<real>, b: seq<real>, ws: seq<real>, input: real, w: real, y: real)
    requires a == [1.0, -pole] && b == [0.0, 1.0 - pole]
    requires input == Conv(a, Signal(ws + [w]), |ws|) && y == Conv(b, Signal(ws + [w]), |ws|)
    ensures w == Tp1Inner(pole, Signal(ws)(|ws| - 1), input) && y == Tp1Out(pole, Signal(ws)(|ws| - 1), input)
  {
    var v, k, z := Signal(ws + [w]), |ws|, Signal(ws)(|ws| - 1);
    assert v(k) == w && v(k - 1) == z;
    TwoTaps(a, v, k);
    TwoTaps(b, v, k);
    LagTaps(pole, w, z, input, y, a[0], a[1], b[0], b[1]);
    LagSolve(pole, z, input, w, y);
  }

  /** A block of one of these kinds: its output cache and its work memory, or the filter of a lag block. */
  class Instance {
    const kind: Kind
    const filter: TfFilter?
    var work: State
    var outdata: seq<Val>

    ghost predicate Valid()
      reads this, Footprint()
    {
      if filter == null then !kind.Tp1? else
        && kind.Tp1? && filter.Valid() && filter.n == 1
        && filter.A() == [1.0, -kind.pole] && filter.B() == [0.0, 1.0 - kind.pole]
    }

    ghost function Footprint(): set<object> {
      if filter == null then {} else {filter, filter.numCf, filter.denCf, filter.stateVar}
    }

    ghost function Work(): State
      reads this, Footprint()
    {
      if filter == null then work else [Signal(filter.ws)(|filter.ws| - 1)]
    }

    /** COMPF_FLAG_CONFIGURE and COMPF_FLAG_INIT. */
    constructor (kind: Kind)
      ensures this.kind == kind && Valid() && Work() == kind.Initial() && fresh(Footprint())
    {
      this.kind := kind;
      this.work := kind.Initial();
      this.outdata := [];
      var f: TfFilter? := null;
      if kind.Tp1? {
        var tf := new TfFilter(1);
        tf.LoadCoeffs([1.0 - kind.pole, 0.0], [-kind.pole, 0.0], 0);
        tf.NullStates();
        f := tf;
      }
      this.filter := f;
    }

    /** COMPF_FLAG_CALCOUTPUTS: writes the outputs and no state. */
    method CalcOutputs(x: seq<Val>)
      requires Valid()
      modifies this`outdata, Footprint()
      ensures Valid() && Work() == old(Work())
      ensures outdata == kind.Out(old(Work()), x)
    {
      match kind {
        case Const(c) => outdata := [[c]];
        case Gain(c) => outdata := [[Scaled(c, In(x, 0))]];
        case Sum(ca, cb) => outdata := [[Scaled(ca, In(x, 0)) + Scaled(cb, In(x, 1))]];
        case Switch =>
          if In(x, 0) > 0.0 { outdata := [[In(x, 1)], [0.0]]; } else { outdata := [[0.0], [In(x, 1)]]; }
        case Sat(lo, hi) =>
          var v := In(x, 0);
          if v < lo { v := lo; }
          if v > hi { v := hi; }
          outdata := [[v]];
        case Tp1(pole) =>
          var y, w := filter.Filter(In(x, 0), false);
          LagFilter(pole, filter.A(), filter.B(), filter.ws, In(x, 0), w, y);
          outdata := [[y]];
        case FlipFlop(_) => outdata := [[Word0(work)]];
        case EventSwitch(_) =>
          if Word0(work) == 0.0 { outdata := [[In(x, 0)]]; } else { outdata := [[In(x, 1)]]; }
      }
    }

    /** COMPF_FLAG_UPDATESTATES: writes the state and no output. */
    method UpdateStates(x: seq<Val>, events: Word)
      requires Valid()
      modifies this`work, Footprint()
      ensures Valid() && Work() == kind.Next(old(Work()), x, events)
    {
      match kind {
        case Tp1(pole) =>
          ghost var ws := filter.ws;
          var y, w := filter.Filter(In(x, 0), true);
          LagFilter(pole, filter.A(), filter.B(), ws, In(x, 0), w, y);
        case FlipFlop(initial) =>
          if In(x, 0) > 0.0 { work := [0.0]; }
          else if In(x, 1) > 0.0 { work := [1.0]; }
          else if In(x, 2) > 0.0 { work := [initial]; }
        case EventSwitch(_) =>
          if 1 in events { work := [0.0]; }
          if 2 in events { work := [1.0]; }
        case _ =>
      }
    }
  }

  // ------------------------------------------------------------------ runs of single blocks

  /** The state of a block after the first n inputs; every step triggers it with the event word `events`. */
  function RunState(k: Kind, xs: seq<seq<Val>>, events: seq<Word>, n: nat): State
    requires n <= |xs| && |events| == |xs|
  {
    if n == 0 then k.Initial() else k.Next(RunState(k, xs, events, n - 1), xs[n-1], events[n-1])
  }

  function InputSignal(xs: seq<seq<Val>>): (r: seq<real>)
    ensures |r| == |xs|
  {
    seq(|xs|, i requires 0 <= i < |xs| => In(xs[i], 0))
  }

  /** The inner samples and outputs of the lag block are a direct form II run. */
  lemma {:induction false} Tp1IsFilter(pole: real, xs: seq<seq<Val>>, events: seq<Word>, n: nat)
    returns (ws: seq<real>, ys: seq<real>)
    requires n <= |xs| && |events| == |xs|
    ensures DirectForm([1.0, -pole], [0.0, 1.0 - pole], InputSignal(xs)[..n], ws, ys) && |ws| == |ys| == n
    ensures Word0(RunState(Tp1(pole), xs, events, n)) == Signal(ws)(n - 1)
    ensures forall k | 0 <= k < n ::
      Tp1(pole).Out(RunState(Tp1(pole), xs, events, k), xs[k]) == [[ys[k]]]
  {
    if n == 0 {
      ws, ys := [], [];
    } else {
      var ws0, ys0 := Tp1IsFilter(pole, xs, events, n - 1);
      var x, input, z := InputSignal(xs), In(xs[n-1], 0), Signal(ws0)(n - 2);
      var w, y := Tp1Inner(pole, z, input), Tp1Out(pole, z, input);
      ws, ys := ws0 + [w], ys0 + [y];
      Tp1Step(pole, ws0, z, input, w, Signal(ws));
      DirectFormGrows([1.0, -pole], [0.0, 1.0 - pole], x[..n-1], ws0, ys0, input, w, y);
      assert x[..n] == x[..n-1] + [input];
      assert RunState(Tp1(pole), xs, events, n) == [w];
    }
  }

  /** The lag block obeys y[k+1] = pole y[k] + (1 - pole) x[k], from zero. */
  lemma Tp1Recurrence(pole: real, xs: seq<seq<Val>>, events: seq<Word>, k: nat)
    requires k < |xs| == |events|
    ensures Tp1Out(pole, Word0(RunState(Tp1(pole), xs, events, 0)), 0.0) == 0.0
    ensures Tp1Out(pole, Word0(RunState(Tp1(pole), xs, events, k + 1)), 0.0) ==
            pole * Tp1Out(pole, Word0(RunState(Tp1(pole), xs, events, k)), 0.0) + (1.0 - pole) * In(xs[k], 0)
  {
    var z := Word0(RunState(Tp1(pole), xs, events, k));
    assert Word0(RunState(Tp1(pole), xs, events, k + 1)) == In(xs[k], 0) + pole * z;
    LagArithmetic(pole, z, In(xs[k], 0));
  }

  lemma LagArithmetic(pole: real, z: real, input: real)
    ensures (1.0 - pole) * (input + pole * z) == pole * ((1.0 - pole) * z) + (1.0 - pole) * input
  {
  }

  ghost predicate FlipFlopSetAt(xs: seq<seq<Val>>, j: nat)
    requires j < |xs|
  {
    In(xs[j], 0) > 0.0 || In(xs[j], 1) > 0.0 || In(xs[j], 2) > 0.0
  }

  /** The flip-flop remembers the last step at which one of its inputs was set, with set-0 before set-1 before reset. */
  lemma {:induction false} FlipFlopRemembers(initial: real, xs: seq<seq<Val>>, events: seq<Word>, last: nat, n: nat)
    requires last < n <= |xs| == |events| && FlipFlopSetAt(xs, last)
    requires forall j | last < j < n :: !FlipFlopSetAt(xs, j)
    ensures RunState(FlipFlop(initial), xs, events, n) ==
      [if In(xs[last], 0) > 0.0 then 0.0 else if In(xs[last], 1) > 0.0 then 1.0 else initial]
  {
    if last + 1 < n {
      FlipFlopRemembers(initial, xs, events, last, n - 1);
      assert !FlipFlopSetAt(xs, n - 1);
    }
  }

  /** A flip-flop that was never set is in its initial state. */
  lemma {:induction false} FlipFlopStarts(initial: real, xs: seq<seq<Val>>, events: seq<Word>, n: nat)
    requires n <= |xs| == |events| && forall j | 0 <= j < n :: !FlipFlopSetAt(xs, j)
    ensures RunState(FlipFlop(initial), xs, events, n) == [initial]
  {
    if n > 0 {
      FlipFlopStarts(initial, xs, events, n - 1);
      assert !FlipFlopSetAt(xs, n - 1);
    }
  }

  ghost predicate SwitchedAt(events: seq<Word>, j: nat)
    requires j < |events|
  {
    1 in events[j] || 2 in events[j]
  }

  /** The event switch follows the last switching event; event 2 wins over event 1 in the same step. */
  lemma {:induction false} EventSwitchFollows(
    initial: real, xs: seq<seq<Val>>, events: seq<Word>, last: nat, n: nat, x: seq<Val>)
    requires last < n <= |xs| == |events| && SwitchedAt(events, last)
    requires forall j | last < j < n :: !SwitchedAt(events, j)
    ensures EventSwitch(initial).Out(RunState(EventSwitch(initial), xs, events, n), x) ==
      [[if 2 in events[last] then In(x, 1) else In(x, 0)]]
    ensures RunState(EventSwitch(initial), xs, events, n) == [if 2 in events[last] then 1.0 else 0.0]
  {
    if last + 1 < n {
      EventSwitchFollows(initial, xs, events, last, n - 1, x);
      assert !SwitchedAt(events, n - 1);
    }
  }

  /** An event switch that was never switched is in its initial state. */
  lemma {:induction false} EventSwitchStarts(initial: real, xs: seq<seq<Val>>, events: seq<Word>, n: nat)
    requires n <= |xs| == |events| && forall j | 0 <= j < n :: !SwitchedAt(events, j)
    ensures RunState(EventSwitch(initial), xs, events, n) == [initial]
  {
    if n > 0 {
      EventSwitchStarts(initial, xs, events, n - 1);
      assert !SwitchedAt(events, n - 1);
    }
  }
}
