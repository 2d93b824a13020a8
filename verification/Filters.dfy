/**
  The discrete filters of libdyn over the reals: the direct form II transfer function with its
  separate output and update phases, and the shift register.
 */
module Filters {
  const MAX_COEFFS := 20

  // ------------------------------------------------------------------ signals and convolution

  /** A signal that is zero outside the recorded samples. */
  function Signal(s: seq<real>): int -> real {
    j => if 0 <= j < |s| then s[j] else 0.0
  }

  /** c[0] u(k) + c[1] u(k-1) + ... */
  ghost function Conv(c: seq<real>, u: int -> real, k: int): real {
    if c == [] then 0.0 else Conv(c[..|c|-1], u, k) + c[|c|-1] * u(k - (|c| - 1))
  }

  lemma {:induction false} ConvAgrees(c: seq<real>, u: int -> real, v: int -> real, k: int)
    requires forall j | k - |c| < j <= k :: u(j) == v(j)
    ensures Conv(c, u, k) == Conv(c, v, k)
  {
    if c != [] {
      ConvAgrees(c[..|c|-1], u, v, k);
    }
  }

  lemma {:induction false} NextTap(c: seq<real>, u: int -> real, k: int, i: nat, coefficient: real, value: real)
    requires i < |c| && coefficient == c[i] && value == u(k - i)
    ensures Conv(c[..i+1], u, k) == Conv(c[..i], u, k) + coefficient * value
  {
    assert c[..i+1][..i] == c[..i];
  }

  lemma {:induction false} ConvZero(c: seq<real>, u: int -> real, k: int)
    requires forall j | k - |c| < j <= k :: u(j) == 0.0
    ensures Conv(c, u, k) == 0.0
  {
    if c != [] { ConvZero(c[..|c|-1], u, k); }
  }

  /** Convolution is linear in the signal and commutes with shifting it by n and scaling it by r. */
  lemma {:induction false} ConvCombine(c: seq<real>, u: int -> real, v: int -> real, w: int -> real,
                                       r: real, n: int, k: int)
    requires forall j :: w(j) == u(j) + r * v(j - n)
    ensures Conv(c, w, k) == Conv(c, u, k) + r * Conv(c, v, k - n)
  {
    if c != [] {
      var m := |c| - 1;
      ConvCombine(c[..m], u, v, w, r, n, k);
      assert w(k - m) == u(k - m) + r * v(k - m - n);
      assert (k - n) - m == k - m - n;
    }
  }

  ghost function Convolved(c: seq<real>, u: int -> real): int -> real {
    j => Conv(c, u, j)
  }

  lemma ConvolvedStep(a: seq<real>, u: int -> real, j: int)
    requires a != []
    ensures Convolved(a, u)(j) == Convolved(a[..|a|-1], u)(j) + a[|a|-1] * u(j - (|a| - 1))
  {
  }

  /** Two convolutions of one signal may be applied in either order. */
  lemma {:induction false} ConvCommutes(a: seq<real>, b: seq<real>, u: int -> real, k: int)
    ensures Conv(a, Convolved(b, u), k) == Conv(b, Convolved(a, u), k)
  {
    if a == [] {
      ConvZero(b, Convolved(a, u), k);
    } else {
      var n := |a| - 1;
      ConvCommutes(a[..n], b, u, k);
      forall j ensures Convolved(a, u)(j) == Convolved(a[..n], u)(j) + a[n] * u(j - n) {
        ConvolvedStep(a, u, j);
      }
      ConvCombine(b, Convolved(a[..n], u), u, Convolved(a, u), a[n], n, k);
    }
  }

  // ------------------------------------------------------------------ direct form II

  /** w is the inner signal of the filter with denominator a for input x; y is its output for numerator b. */
  ghost predicate DirectForm(a: seq<real>, b: seq<real>, x: seq<real>, w: seq<real>, y: seq<real>) {
    && |x| == |w| == |y|
    && forall k | 0 <= k < |w| :: DirectFormAt(a, b, x, w, y, k)
  }

  ghost predicate DirectFormAt(a: seq<real>, b: seq<real>, x: seq<real>, w: seq<real>, y: seq<real>, k: nat)
    requires k < |x| == |w| == |y|
  {
    x[k] == Conv(a, Signal(w), k) && y[k] == Conv(b, Signal(w), k)
  }

  /**
    Every output of a direct form II filter that starts from zeroed states satisfies the
    difference equation: sum of a[i] y[k-i] equals sum of b[i] x[k-i].
   */
  lemma DifferenceEquation(a: seq<real>, b: seq<real>, x: seq<real>, w: seq<real>, y: seq<real>, k: nat)
    requires DirectForm(a, b, x, w, y) && k < |x|
    ensures Conv(a, Signal(y), k) == Conv(b, Signal(x), k)
  {
    var av, bv := Convolved(a, Signal(w)), Convolved(b, Signal(w));
    forall j | j <= k ensures Signal(x)(j) == av(j) && Signal(y)(j) == bv(j) {
      if j < 0 {
        ConvZero(a, Signal(w), j);
        ConvZero(b, Signal(w), j);
      } else {
        assert DirectFormAt(a, b, x, w, y, j);
      }
    }
    ConvAgrees(a, Signal(y), bv, k);
    ConvAgrees(b, Signal(x), av, k);
    ConvCommutes(a, b, Signal(w), k);
  }

  /** Recording one more inner sample changes nothing before it. */
  lemma DirectFormGrows(a: seq<real>, b: seq<real>, x: seq<real>, w: seq<real>, y: seq<real>,
                        input: real, inner: real, output: real)
    requires DirectForm(a, b, x, w, y)
    requires input == Conv(a, Signal(w + [inner]), |w|) && output == Conv(b, Signal(w + [inner]), |w|)
    ensures DirectForm(a, b, x + [input], w + [inner], y + [output])
  {
    var w' := w + [inner];
    forall k | 0 <= k < |w'| ensures DirectFormAt(a, b, x + [input], w', y + [output], k) {
      if k < |w| {
        assert DirectFormAt(a, b, x, w, y, k);
        ConvAgrees(a, Signal(w'), Signal(w), k);
        ConvAgrees(b, Signal(w'), Signal(w), k);
      }
    }
  }

  /** Where v differs from u at k only, and u is zero there, the convolutions differ by c[0] v(k). */
  lemma {:induction false} HeadSample(c: seq<real>, u: int -> real, v: int -> real, k: int, w: real)
    requires u(k) == 0.0 && v(k) == w && forall j | j < k :: u(j) == v(j)
    requires |c| > 0
    ensures Conv(c, v, k) == Conv(c, u, k) + c[0] * w
    decreases |c|
  {
    if |c| > 1 {
      HeadSample(c[..|c|-1], u, v, k, w);
    } else {
      assert c[..0] == [];
    }
  }

  lemma TimesZeroOrOne(c: real, x: real)
    ensures c == 0.0 ==> c * x == 0.0
    ensures c == 1.0 ==> c * x == x
  {
  }

  /** What appending a sample adds to a convolution at its time. */
  lemma NewSample(c: seq<real>, ws: seq<real>, w: real)
    requires |c| > 0
    ensures Conv(c, Signal(ws + [w]), |ws|) == Conv(c, Signal(ws), |ws|) + c[0] * w
  {
    var u, v, k := Signal(ws), Signal(ws + [w]), |ws|;
    forall j | j < k ensures u(j) == v(j) {
    }
    HeadSample(c, u, v, k, w);
  }

  lemma {:induction false} UnitHead(c: seq<real>, u: int -> real, v: int -> real, k: int, w: real)
    requires u(k) == 0.0 && v(k) == w && forall j | j < k :: u(j) == v(j)
    requires |c| > 0 && c[0] == 1.0
    ensures Conv(c, v, k) == Conv(c, u, k) + w
    decreases |c|
  {
    if |c| > 1 {
      UnitHead(c[..|c|-1], u, v, k, w);
    } else {
      assert c[..0] == [];
      TimesZeroOrOne(c[0], w);
    }
  }

  lemma NewUnitSample(c: seq<real>, ws: seq<real>, w: real)
    requires |c| > 0 && c[0] == 1.0
    ensures Conv(c, Signal(ws + [w]), |ws|) == Conv(c, Signal(ws), |ws|) + w
  {
    var u, v, k := Signal(ws), Signal(ws + [w]), |ws|;
    forall j | j < k ensures u(j) == v(j) {
    }
    UnitHead(c, u, v, k, w);
  }

  lemma {:induction false} ZeroHead(c: seq<real>, u: int -> real, v: int -> real, k: int)
    requires forall j | j < k :: u(j) == v(j)
    requires |c| > 0 && c[0] == 0.0
    ensures Conv(c, v, k) == Conv(c, u, k)
    decreases |c|
  {
    if |c| > 1 {
      ZeroHead(c[..|c|-1], u, v, k);
    } else {
      assert c[..0] == [];
      TimesZeroOrOne(c[0], u(k));
      TimesZeroOrOne(c[0], v(k));
    }
  }

  /** The coefficient arrays hold the polynomials by ascending powers; coefficient i is at N - i. */
  ghost function Coeffs(n: nat, cf: seq<real>, lead: bool, k: nat): (r: seq<real>)
    requires n < |cf| && k <= n + 1
    ensures |r| == k
    ensures forall i | 0 <= i < k :: r[i] == if i == 0 && lead then 1.0 else cf[n-i]
  {
    if k == 0 then [] else Coeffs(n, cf, lead, k - 1) + [if k == 1 && lead then 1.0 else cf[n-(k-1)]]
  }

  class TfFilter {
    const n: nat
    var m: int
    const numCf: array<real>
    const denCf: array<real>
    const stateVar: array<real>
    var output: real

    // Inputs, inner samples and outputs committed since the states were zeroed.
    ghost var xs: seq<real>
    ghost var ws: seq<real>
    ghost var ys: seq<real>

    ghost predicate Arrays() {
      && n < MAX_COEFFS
      && numCf.Length == MAX_COEFFS && denCf.Length == MAX_COEFFS && stateVar.Length == MAX_COEFFS
      && numCf != denCf && numCf != stateVar && denCf != stateVar
    }

    /** 1, a1, ..., aN. */
    ghost function A(): (a: seq<real>)
      requires Arrays()
      reads denCf
      ensures |a| == n + 1 && a[0] == 1.0 && forall i | 1 <= i <= n :: a[i] == denCf[n-i]
    {
      Coeffs(n, denCf[..], true, n + 1)
    }

    /** b0, b1, ..., bN. */
    ghost function B(): (b: seq<real>)
      requires Arrays()
      reads numCf
      ensures |b| == n + 1 && forall i | 0 <= i <= n :: b[i] == numCf[n-i]
    {
      Coeffs(n, numCf[..], false, n + 1)
    }

    /** The states hold the last inner samples, and the history is a run of the filter. */
    ghost predicate Valid()
      reads this, numCf, denCf, stateVar
    {
      && Arrays()
      && DirectForm(A(), B(), xs, ws, ys)
      && forall i | 0 <= i < n :: stateVar[i] == Signal(ws)(|ws| - 1 - i)
    }

    /** libdyn_new_filter; the history starts when libdyn_null_states is called. */
    constructor (n: nat)
      requires n < MAX_COEFFS
      ensures Arrays() && this.n == n && fresh(numCf) && fresh(denCf) && fresh(stateVar)
    {
      this.n := n;
      this.m := 0;
      this.output := 0.0;
      this.numCf := new real[MAX_COEFFS];
      this.denCf := new real[MAX_COEFFS];
      this.stateVar := new real[MAX_COEFFS];
      this.xs, this.ws, this.ys := [], [], [];
    }

    /** libdyn_load_cf__: ascending powers, padded with zeros above the numerator degree. */
    method LoadCoeffs(num: seq<real>, den: seq<real>, m: nat)
      requires Arrays() && n <= |den| && (if m < n then m else n) < |num|
      modifies this`m, numCf, denCf
      ensures this.m == m
      ensures forall i | 0 <= i <= n :: B()[i] == if n - i > m then 0.0 else num[n-i]
      ensures forall i | 1 <= i <= n :: A()[i] == den[n-i]
    {
      this.m := m;
      for i := 0 to n + 1
        invariant this.m == m
        invariant forall j | 0 <= j < i :: numCf[j] == if j > m then 0.0 else num[j]
      {
        numCf[i] := if i > m then 0.0 else num[i];
      }
      for i := 0 to n
        invariant this.m == m
        invariant forall j | 0 <= j <= n :: numCf[j] == if j > m then 0.0 else num[j]
        invariant forall j | 0 <= j < i :: denCf[j] == den[j]
      {
        denCf[i] := den[i];
      }
    }

    /** libdyn_null_states. */
    method NullStates()
      requires Arrays()
      modifies this`output, this`xs, this`ws, this`ys, stateVar
      ensures Valid() && xs == [] && ys == [] && output == 0.0
    {
      for i := 0 to n + 1
        invariant forall j | 0 <= j < i :: stateVar[j] == 0.0
      {
        stateVar[i] := 0.0;
      }
      output := 0.0;
      xs, ws, ys := [], [], [];
    }

    /** The two sums over the states. */
    method Accumulate() returns (sr: real, sf: real)
      requires Valid()
      ensures sr == Conv(A(), Signal(ws), |ws|) && sf == Conv(B(), Signal(ws), |ws|)
    {
      ghost var u, k := Signal(ws), |ws|;
      ConvZero(A()[..1], u, k);
      ConvZero(B()[..1], u, k);
      sr, sf := SumTaps(A(), B(), u, k);
    }

    method SumTaps(ghost a: seq<real>, ghost b: seq<real>, ghost u: int -> real, ghost k: int)
      returns (sr: real, sf: real)
      requires Arrays() && |a| == |b| == n + 1 && Conv(a[..1], u, k) == 0.0 == Conv(b[..1], u, k)
      requires forall i | 1 <= i <= n :: a[i] == denCf[n-i] && b[i] == numCf[n-i]
      requires forall i | 0 <= i < n :: stateVar[i] == u(k - 1 - i)
      ensures sr == Conv(a, u, k) && sf == Conv(b, u, k)
    {
      sr, sf := 0.0, 0.0;
      for i := 1 to n + 1
        invariant sr == Conv(a[..i], u, k) && sf == Conv(b[..i], u, k)
      {
        NextTap(a, u, k, i, denCf[n-i], stateVar[i-1]);
        NextTap(b, u, k, i, numCf[n-i], stateVar[i-1]);
        sr := sr + denCf[n-i] * stateVar[i-1];
        sf := sf + numCf[n-i] * stateVar[i-1];
      }
      assert a[..n+1] == a && b[..n+1] == b;
    }

    /** The output phase: the inner sample and the output for `input`, from the states alone. */
    method Evaluate(input: real) returns (w: real, y: real)
      requires Valid()
      ensures input == Conv(A(), Signal(ws + [w]), |ws|)
      ensures y == Conv(B(), Signal(ws + [w]), |ws|)
    {
      var sr, sf := Accumulate();
      w := input - sr;
      y := w * numCf[n] + sf;
      NewUnitSample(A(), ws, w);
      NewSample(B(), ws, w);
    }

    /** The update phase: shifts the states and stores the new inner sample. */
    method Shift(w: real)
      requires Arrays()
      requires forall i | 0 <= i < n :: stateVar[i] == Signal(ws)(|ws| - 1 - i)
      modifies stateVar
      ensures forall i | 0 <= i < n :: stateVar[i] == Signal(ws + [w])(|ws| - i)
    {
      var i := n;
      while i >= 2
        invariant 0 <= i <= n
        invariant forall j | 0 <= j < i :: stateVar[j] == Signal(ws)(|ws| - 1 - j)
        invariant forall j | i <= j < n && j >= 1 :: stateVar[j] == Signal(ws)(|ws| - j)
      {
        stateVar[i-1] := stateVar[i-2];
        i := i - 1;
      }
      stateVar[0] := w;
    }

    /**
      libdyn_filter_: computes the output for `input`; only the update phase commits the sample.
      Both phases compute the same output, and it obeys the difference equation.
     */
    method Filter(input: real, updateStates: bool) returns (y: real, ghost w: real)
      requires Valid()
      modifies this`output, this`xs, this`ws, this`ys, stateVar
      ensures Valid() && y == output
      ensures input == Conv(A(), Signal(old(ws) + [w]), |old(ws)|) && y == Conv(B(), Signal(old(ws) + [w]), |old(ws)|)
      ensures ws == if updateStates then old(ws) + [w] else old(ws)
      ensures Conv(A(), Signal(old(ys) + [y]), |old(ys)|) == Conv(B(), Signal(old(xs) + [input]), |old(xs)|)
      ensures updateStates ==> xs == old(xs) + [input] && ys == old(ys) + [y]
      ensures !updateStates ==> xs == old(xs) && ys == old(ys) && stateVar[..] == old(stateVar[..])
    {
      var inner;
      inner, y := Evaluate(input);
      w := inner;
      output := y;
      DirectFormGrows(A(), B(), xs, ws, ys, input, w, y);
      DifferenceEquation(A(), B(), xs + [input], ws + [w], ys + [y], |ws|);
      if updateStates {
        Shift(inner);
        xs, ws, ys := xs + [input], ws + [w], ys + [y];
      }
    }
  }

  // ------------------------------------------------------------------ consequences for loaded filters

  /** With a zero leading numerator coefficient the output does not see the current input. */
  lemma FeedFree(b: seq<real>, ws: seq<real>, w1: real, w2: real)
    requires |b| > 0 && b[0] == 0.0
    ensures Conv(b, Signal(ws + [w1]), |ws|) == Conv(b, Signal(ws + [w2]), |ws|)
  {
    var u, v, k := Signal(ws + [w1]), Signal(ws + [w2]), |ws|;
    forall j | j < k ensures u(j) == v(j) {
    }
    ZeroHead(b, u, v, k);
  }

  lemma {:induction false} ConvUnit(a: seq<real>, u: int -> real, k: int)
    requires |a| > 0 && a[0] == 1.0 && forall i | 1 <= i < |a| :: a[i] == 0.0
    ensures Conv(a, u, k) == u(k)
    decreases |a|
  {
    if |a| > 1 {
      ConvUnit(a[..|a|-1], u, k);
    } else {
      assert a[..0] == [];
    }
  }

  /** The sum of the last n samples up to time k. */
  ghost function WindowSum(u: int -> real, k: int, n: nat): real {
    if n == 0 then 0.0 else WindowSum(u, k, n - 1) + u(k - (n - 1))
  }

  lemma {:induction false} ConvConstant(b: seq<real>, c: real, u: int -> real, k: int)
    requires forall i | 0 <= i < |b| :: b[i] == c
    ensures Conv(b, u, k) == c * WindowSum(u, k, |b|)
  {
    if b != [] { ConvConstant(b[..|b|-1], c, u, k); }
  }

  /** libdyn_new_mean_filter. The states are not zeroed here. */
  method NewMeanFilter(n: nat) returns (f: TfFilter)
    requires n < MAX_COEFFS
    ensures fresh(f) && f.Arrays() && f.n == n && f.m == n
    ensures forall i | 0 <= i <= n :: f.B()[i] == 1.0 / (n + 1) as real
    ensures forall i | 1 <= i <= n :: f.A()[i] == 0.0
  {
    f := new TfFilter(n);
    var qn := seq(n + 1, _ => 1.0 / (n + 1) as real);
    var qd := seq(n + 1, i => if i == n then 1.0 else 0.0);
    f.LoadCoeffs(qn, qd, n);
  }

  /** The output of a mean filter that starts from zeroed states is the mean of the last n + 1 inputs. */
  lemma MeanOfWindow(a: seq<real>, b: seq<real>, n: nat, x: seq<real>, w: seq<real>, y: seq<real>, k: nat)
    requires |a| == |b| == n + 1 && a[0] == 1.0
    requires forall i | 1 <= i <= n :: a[i] == 0.0
    requires forall i | 0 <= i <= n :: b[i] == 1.0 / (n + 1) as real
    requires DirectForm(a, b, x, w, y) && k < |x|
    ensures y[k] * (n + 1) as real == WindowSum(Signal(x), k, n + 1)
  {
    DifferenceEquation(a, b, x, w, y, k);
    ConvUnit(a, Signal(y), k);
    ConvConstant(b, 1.0 / (n + 1) as real, Signal(x), k);
  }

  // ------------------------------------------------------------------ shift register

  class ShiftFilter {
    const n: nat
    const stateVar: array<real>
    var output: real
    ghost var xs: seq<real>

    ghost predicate Valid()
      reads this, stateVar
    {
      && 1 <= n < MAX_COEFFS && stateVar.Length == MAX_COEFFS
      && forall i | 0 <= i < n :: stateVar[i] == Signal(xs)(|xs| - 1 - i)
    }

    constructor (n: nat)
      requires 1 <= n < MAX_COEFFS
      ensures this.n == n && stateVar.Length == MAX_COEFFS && fresh(stateVar)
    {
      this.n := n;
      this.output := 0.0;
      this.stateVar := new real[MAX_COEFFS];
      this.xs := [];
    }

    method NullStates()
      requires 1 <= n < MAX_COEFFS && stateVar.Length == MAX_COEFFS
      modifies this`output, this`xs, stateVar
      ensures Valid() && xs == [] && output == 0.0
    {
      for i := 0 to n + 1
        invariant forall j | 0 <= j < i :: stateVar[j] == 0.0
      {
        stateVar[i] := 0.0;
      }
      output, xs := 0.0, [];
    }

    /** libdyn_shift_filter_: the output is the input of n updates ago, zero before that. */
    method Filter(input: real, updateStates: bool) returns (y: real)
      requires Valid()
      modifies this`output, this`xs, stateVar
      ensures Valid() && y == output == Signal(old(xs))(|old(xs)| - n)
      ensures xs == if updateStates then old(xs) + [input] else old(xs)
    {
      output := stateVar[n-1];
      y := output;
      if updateStates {
        var i := n;
        while i >= 2
          invariant 1 <= i <= n && output == y && xs == old(xs)
          invariant forall j | 0 <= j < i :: stateVar[j] == Signal(xs)(|xs| - 1 - j)
          invariant forall j | i <= j < n :: stateVar[j] == Signal(xs)(|xs| - j)
        {
          stateVar[i-1] := stateVar[i-2];
          i := i - 1;
        }
        stateVar[0] := input;
        xs := xs + [input];
      }
    }
  }
}
