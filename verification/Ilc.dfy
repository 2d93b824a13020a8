/**
  Iterative learning control and sampling (libilc.c), over the reals: in each trial the stored input
  is played and the error recorded, and then the input is improved.
 */
module Ilc {
  type Vector = seq<real>

  // ------------------------------------------------------------------ matrices

  /** Where column j starts: after the columns before it. */
  function Column(n: nat, j: nat): nat {
    if j == 0 then 0 else Column(n, j - 1) + n
  }

  function Cells(n: nat): nat { Column(n, n) }

  lemma {:induction false} ColumnProduct(n: nat, j: nat)
    ensures Column(n, j) == j * n
  {
    if j > 0 {
      ColumnProduct(n, j - 1);
      assert j * n == (j - 1) * n + n;
    }
  }

  lemma {:induction false} ColumnsGrow(n: nat, j: nat, k: nat)
    requires j <= k
    ensures Column(n, j) <= Column(n, k)
  {
    if j < k { ColumnsGrow(n, j, k - 1); }
  }

  /** Row i and column j of a column-major matrix, counted from 0. */
  function Entry(a: Vector, n: nat, i: nat, j: nat): real
    requires i < n && j < n && |a| == Cells(n)
  {
    ColumnsGrow(n, j + 1, n);
    a[i + Column(n, j)]
  }

  /** Row i of a matrix times v, over the first k columns. */
  function Dot(a: Vector, v: Vector, n: nat, i: nat, k: nat): real
    requires i < n && k <= n && |v| == n && |a| == Cells(n)
  {
    if k == 0 then 0.0 else Dot(a, v, n, i, k - 1) + Entry(a, n, i, k - 1) * v[k-1]
  }

  function MatVec(a: Vector, v: Vector): (w: Vector)
    requires |a| == Cells(|v|)
    ensures |w| == |v|
  {
    seq(|v|, i requires 0 <= i < |v| => Dot(a, v, |v|, i, |v|))
  }

  function Add(u: Vector, v: Vector): (w: Vector)
    requires |u| == |v|
    ensures |w| == |u|
  {
    seq(|u|, i requires 0 <= i < |u| => u[i] + v[i])
  }

  predicate IsIdentity(a: Vector, n: nat)
    requires |a| == Cells(n)
  {
    forall i: nat, j: nat | i < n && j < n :: IdentityEntry(a, n, i, j)
  }

  predicate IdentityEntry(a: Vector, n: nat, i: nat, j: nat)
    requires |a| == Cells(n) && i < n && j < n
  {
    Entry(a, n, i, j) == if i == j then 1.0 else 0.0
  }

  lemma {:induction false} IdentityRow(a: Vector, v: Vector, n: nat, i: nat, k: nat)
    requires |v| == n && |a| == Cells(n) && IsIdentity(a, n) && i < n && k <= n
    ensures Dot(a, v, n, i, k) == if i < k then v[i] else 0.0
  {
    if k > 0 {
      IdentityRow(a, v, n, i, k - 1);
      assert IdentityEntry(a, n, i, k - 1);
    }
  }

  lemma {:induction false} ZeroRow(a: Vector, v: Vector, n: nat, i: nat, k: nat)
    requires |v| == n && |a| == Cells(n) && i < n && k <= n && forall j | 0 <= j < n :: v[j] == 0.0
    ensures Dot(a, v, n, i, k) == 0.0
  {
    if k > 0 { ZeroRow(a, v, n, i, k - 1); }
  }

  /** The macro sqmatrix_element, which counts rows and columns from 1. */
  function SqMatrixElement(a: array<real>, m: nat, s: nat, len: nat): (x: real)
    requires 1 <= m <= len && 1 <= s <= len && a.Length == Cells(len)
    reads a
    ensures x == Entry(a[..], len, m - 1, s - 1)
  {
    ColumnProduct(len, s - 1);
    ColumnsGrow(len, s, len);
    a[m + (s - 1) * len - 1]
  }

  /** funky_cvmatrix_filter: y := A u. */
  method CvMatrixFilter(a: array<real>, u: array<real>, y: array<real>)
    requires a.Length == Cells(u.Length) && y.Length == u.Length && y != a && y != u
    modifies y
    ensures y[..] == MatVec(a[..], u[..])
  {
    var n := u.Length;
    ghost var av, uv := a[..], u[..];
    for row := 1 to n + 1
      invariant a[..] == av && u[..] == uv
      invariant forall i: nat | i < row - 1 :: y[i] == Dot(av, uv, n, i, n)
    {
      var sum := 0.0;
      for column := 1 to n + 1
        invariant a[..] == av && u[..] == uv
        invariant sum == Dot(av, uv, n, row - 1, column - 1)
      {
        sum := sum + SqMatrixElement(a, row, column, n) * u[column-1];
      }
      y[row-1] := sum;
    }
  }

  method CopyVec(u: array<real>, y: array<real>)
    requires u.Length == y.Length && u != y
    modifies y
    ensures y[..] == u[..]
  {
    for i := 0 to u.Length
      invariant y[..i] == u[..i]
    {
      y[i] := u[i];
    }
  }

  method AddToVec(u: array<real>, y: array<real>)
    requires u.Length == y.Length && u != y
    modifies y
    ensures forall i | 0 <= i < y.Length :: y[i] == u[i] + old(y[i])
    ensures y[..] == Add(u[..], old(y[..]))
  {
    for i := 0 to u.Length
      invariant forall j | 0 <= j < i :: y[j] == u[j] + old(y[j])
      invariant forall j | i <= j < y.Length :: y[j] == old(y[j])
    {
      y[i] := u[i] + y[i];
    }
  }

  // ------------------------------------------------------------------ the trial machine

  /** A call: the measured value, and whether it is a state update. */
  datatype Call = Call(input: real, update: bool)

  datatype Trial = Trial(u: Vector, e: Vector, z: nat, active: bool)

  /** The error of sample i is measured `delay` (mtot in the source) samples later. */
  datatype Setup = Setup(n: nat, delay: int, r: Vector, q: Vector, l: Vector) {
    predicate Valid() { |r| == n && |q| == |l| == Cells(n) }

    /** How many samples a trial has. */
    function Span(): nat { if n + delay > 0 then n + delay else 0 }
  }

  predicate Fits(t: Trial, c: Setup) { c.Valid() && |t.u| == |t.e| == c.n && t.z <= c.Span() }

  function Started(t: Trial): Trial { t.(z := 0, active := true) }

  /** Q (u + L e) */
  function Improved(c: Setup, u: Vector, e: Vector): (w: Vector)
    requires c.Valid() && |u| == |e| == c.n
    ensures |w| == c.n
  {
    MatVec(c.q, Add(u, MatVec(c.l, e)))
  }

  function Sampled(t: Trial, c: Setup, call: Call): (t': Trial)
    requires Fits(t, c)
    ensures Fits(t', c)
  {
    if !t.active then t
    else if t.z >= c.Span() then t.(u := Improved(c, t.u, t.e), active := false)
    else if !call.update then t
    else if t.z < c.delay then t.(z := t.z + 1)
    else t.(e := t.e[t.z - c.delay := c.r[t.z - c.delay] - call.input], z := t.z + 1)
  }

  /** The call reads the stored input. */
  predicate Reads(t: Trial, c: Setup) { t.active && t.z < c.Span() }

  /** The output of a call, if it reads the stored input within its bounds. */
  function SampleOutput(t: Trial, c: Setup): real {
    if Reads(t, c) && t.z < |t.u| then t.u[t.z] else 0.0
  }

  function Run(t: Trial, c: Setup, calls: seq<Call>, k: nat): (t': Trial)
    requires Fits(t, c) && k <= |calls|
    ensures Fits(t', c)
  {
    if k == 0 then t else Sampled(Run(t, c, calls, k - 1), c, calls[k-1])
  }

  /** The inputs of the update calls among the first k calls. */
  function Measured(calls: seq<Call>, k: nat): (ys: Vector)
    requires k <= |calls|
    ensures |ys| <= k
  {
    if k == 0 then []
    else Measured(calls, k - 1) + if calls[k-1].update then [calls[k-1].input] else []
  }

  /** r - y, with the measurements taken `delay` samples later; e where there are none. */
  function Errors(c: Setup, e: Vector, ys: Vector): (d: Vector)
    requires c.Valid() && |e| == c.n && |ys| >= c.Span()
    ensures |d| == c.n
  {
    seq(c.n, i requires 0 <= i < c.n => if i + c.delay >= 0 then c.r[i] - ys[i + c.delay] else e[i])
  }

  /** One completed trial. */
  function Law(c: Setup, u: Vector, e: Vector, ys: Vector): (w: Vector)
    requires c.Valid() && |u| == |e| == c.n && |ys| >= c.Span()
    ensures |w| == c.n
  {
    Improved(c, u, Errors(c, e, ys))
  }

  /** During a trial the input is played unchanged and the error is recorded, whatever calls are made. */
  lemma {:induction false} TrialProgress(t: Trial, c: Setup, calls: seq<Call>, k: nat)
    requires Fits(t, c) && t.active && t.z == 0 && k <= |calls|
    requires k > 0 ==> |Measured(calls, k - 1)| < c.Span()
    ensures var s, ys := Run(t, c, calls, k), Measured(calls, k);
            && s.active && s.u == t.u && s.z == |ys| <= c.Span()
            && forall i: nat | i < c.n ::
                 s.e[i] == if 0 <= i + c.delay < s.z then c.r[i] - ys[i + c.delay] else t.e[i]
  {
    if k > 0 { TrialProgress(t, c, calls, k - 1); }
  }

  lemma {:induction false} IdleStays(t: Trial, c: Setup, calls: seq<Call>, k: nat, n: nat)
    requires Fits(t, c) && k <= n <= |calls| && !Run(t, c, calls, k).active
    ensures Run(t, c, calls, n) == Run(t, c, calls, k)
  {
    if k < n { IdleStays(t, c, calls, k, n - 1); }
  }

  /** The call before which the n-th measurement was made. */
  lemma {:induction false} FindCompletion(calls: seq<Call>, n: nat, m: nat) returns (k: nat)
    requires m <= |calls| && |Measured(calls, m)| >= n
    ensures k <= m && |Measured(calls, k)| == n && (k > 0 ==> |Measured(calls, k - 1)| < n)
    ensures forall i: nat | i < n :: Measured(calls, k)[i] == Measured(calls, m)[i]
  {
    k := m;
    while k > 0 && |Measured(calls, k - 1)| >= n
      invariant k <= m && |Measured(calls, k)| >= n
      invariant forall i: nat | i < n :: Measured(calls, k)[i] == Measured(calls, m)[i]
    {
      k := k - 1;
    }
  }

  /** A trial with enough state updates and one more call ends with u replaced by Q (u + L e). */
  lemma TrialCompletes(t: Trial, c: Setup, calls: seq<Call>)
    requires Fits(t, c) && calls != [] && |Measured(calls, |calls| - 1)| >= c.Span()
    ensures var s := Run(Started(t), c, calls, |calls|);
            !s.active && s.u == Law(c, t.u, t.e, Measured(calls, |calls| - 1))
  {
    var m := |calls| - 1;
    var k := FindCompletion(calls, c.Span(), m);
    TrialProgress(Started(t), c, calls, k);
    var s := Run(Started(t), c, calls, k);
    assert s.e == Errors(c, t.e, Measured(calls, m));
    assert Run(Started(t), c, calls, k + 1) == Sampled(s, c, calls[k]);
    IdleStays(Started(t), c, calls, k + 1, |calls|);
  }

  // ------------------------------------------------------------------ the learning law in sums

  function Sum(terms: seq<real>): real {
    if terms == [] then 0.0 else Sum(terms[..|terms|-1]) + terms[|terms|-1]
  }

  lemma InsideMatrix(n: nat, i: nat, j: nat)
    requires i < n && j < n
    ensures i + n * j < n * n
  {
    ColumnProduct(n, j);
    ColumnProduct(n, n);
    ColumnsGrow(n, j + 1, n);
    assert n * j == j * n && Column(n, j + 1) == Column(n, j) + n;
  }

  /** Row i of a matrix that is stored by columns, term by term with v. */
  function Terms(a: Vector, v: Vector, i: nat): (t: seq<real>)
    requires |a| == |v| * |v| && i < |v|
    ensures |t| == |v|
  {
    seq(|v|, j requires 0 <= j < |v| => InsideMatrix(|v|, i, j); a[i + |v| * j] * v[j])
  }

  lemma EntryPosition(a: Vector, n: nat, i: nat, j: nat)
    requires i < n && j < n && |a| == Cells(n)
    ensures i + n * j < |a| && Entry(a, n, i, j) == a[i + n * j]
  {
    ColumnProduct(n, j);
    ColumnProduct(n, n);
    InsideMatrix(n, i, j);
  }

  lemma {:induction false} DotIsSum(a: Vector, v: Vector, i: nat, k: nat)
    requires i < |v| && k <= |v| && |a| == Cells(|v|) == |v| * |v|
    ensures Dot(a, v, |v|, i, k) == Sum(Terms(a, v, i)[..k])
  {
    if k > 0 {
      DotIsSum(a, v, i, k - 1);
      EntryPosition(a, |v|, i, k - 1);
      assert Terms(a, v, i)[..k][..k-1] == Terms(a, v, i)[..k-1];
    }
  }

  lemma {:induction false} RowIsSum(a: Vector, v: Vector, i: nat)
    requires |a| == Cells(|v|) == |v| * |v| && i < |v|
    ensures MatVec(a, v)[i] == Sum(Terms(a, v, i))
  {
    DotIsSum(a, v, i, |v|);
    assert Terms(a, v, i)[..|v|] == Terms(a, v, i);
  }

  /**
    What a complete trial makes of input i: the sum over j of Q(i,j) (u(j) + the sum over k of L(j,k) d(k)),
    where d is r - y where the error was measured and the old error elsewhere.
   */
  lemma {:induction false} LawInSums(t: Trial, c: Setup, calls: seq<Call>, d: Vector, raw: Vector, i: nat)
    requires Fits(t, c) && Complete(c, calls) && i < c.n == |d| == |raw| && |c.q| == |c.l| == c.n * c.n
    requires var ys := Measured(calls, |calls| - 1);
             forall j: nat | j < c.n :: d[j] == if j + c.delay >= 0 then c.r[j] - ys[j + c.delay] else t.e[j]
    requires forall j: nat | j < c.n :: raw[j] == t.u[j] + Sum(Terms(c.l, d, j))
    ensures Run(Started(t), c, calls, |calls|).u[i] == Sum(Terms(c.q, raw, i))
  {
    TrialCompletes(t, c, calls);
    assert d == Errors(c, t.e, Measured(calls, |calls| - 1));
    forall j: nat | j < c.n ensures raw[j] == Add(t.u, MatVec(c.l, d))[j] {
      RowIsSum(c.l, d, j);
    }
    assert raw == Add(t.u, MatVec(c.l, d));
    RowIsSum(c.q, raw, i);
  }

  /** Without filters and without delay a complete trial adds the tracking error to the input. */
  lemma {:induction false} AddsTrackingError(t: Trial, c: Setup, calls: seq<Call>)
    requires Fits(t, c) && Complete(c, calls) && c.delay == 0 && IsIdentity(c.q, c.n) && IsIdentity(c.l, c.n)
    ensures var ys := Measured(calls, |calls| - 1);
            forall i: nat | i < c.n ::
              Run(Started(t), c, calls, |calls|).u[i] == t.u[i] + (c.r[i] - ys[i])
  {
    TrialCompletes(t, c, calls);
    var d := Errors(c, t.e, Measured(calls, |calls| - 1));
    var raw := Add(t.u, MatVec(c.l, d));
    forall i: nat | i < c.n ensures MatVec(c.q, raw)[i] == t.u[i] + d[i] {
      IdentityRow(c.l, d, c.n, i, c.n);
      IdentityRow(c.q, raw, c.n, i, c.n);
    }
  }

  /** One trial of two samples, with an output call before the first of them. */
  lemma {:induction false} LearnsExample()
    ensures var c := Setup(2, 0, [5.0, 7.0], [1.0, 2.0, 0.0, 1.0], [1.0, 0.0, 3.0, 1.0]);
            var calls := [Call(9.0, false), Call(4.0, true), Call(5.0, true), Call(0.0, false)];
            && Fits(Trial([10.0, 20.0], [0.0, 0.0], 0, false), c)
            && Run(Started(Trial([10.0, 20.0], [0.0, 0.0], 0, false)), c, calls, 4).u == [17.0, 56.0]
  {
    var c := Setup(2, 0, [5.0, 7.0], [1.0, 2.0, 0.0, 1.0], [1.0, 0.0, 3.0, 1.0]);
    var calls := [Call(9.0, false), Call(4.0, true), Call(5.0, true), Call(0.0, false)];
    var t := Trial([10.0, 20.0], [0.0, 0.0], 0, false);
    TwoCells();
    MeasuresTwo(t, c, calls);
    ImprovesTwo(c, t.u, [1.0, 2.0]);
    var s := Run(Started(t), c, calls, 3);
    assert Run(Started(t), c, calls, 4) == Sampled(s, c, calls[3]);
  }

  lemma {:induction false} MeasuresTwo(t: Trial, c: Setup, calls: seq<Call>)
    requires Fits(t, c) && c.n == 2 && c.delay == 0 && c.r == [5.0, 7.0] && t.e == [0.0, 0.0]
    requires calls == [Call(9.0, false), Call(4.0, true), Call(5.0, true), Call(0.0, false)]
    ensures Run(Started(t), c, calls, 3) == Trial(t.u, [1.0, 2.0], 2, true)
  {
    assert Run(Started(t), c, calls, 0) == Started(t);
    assert Run(Started(t), c, calls, 1) == Started(t);
    assert Run(Started(t), c, calls, 2) == Trial(t.u, [1.0, 0.0], 1, true);
  }

  lemma {:induction false} ImprovesTwo(c: Setup, u: Vector, e: Vector)
    requires c.Valid() && c.n == 2 && c.q == [1.0, 2.0, 0.0, 1.0] && c.l == [1.0, 0.0, 3.0, 1.0]
    requires u == [10.0, 20.0] && e == [1.0, 2.0]
    ensures Improved(c, u, e) == [17.0, 56.0]
  {
    TwoEntries(c.l, e);
    assert MatVec(c.l, e) == [7.0, 2.0];
    assert Add(u, MatVec(c.l, e)) == [17.0, 22.0];
    TwoEntries(c.q, [17.0, 22.0]);
  }

  lemma TwoCells()
    ensures Column(2, 0) == 0 && Column(2, 1) == 2 && Cells(2) == 4
  {
  }

  lemma {:induction false} TwoTerms(a: Vector, v: Vector, i: nat)
    requires |a| == 4 == Cells(2) && |v| == 2 && i < 2
    ensures Dot(a, v, 2, i, 2) == a[i] * v[0] + a[i+2] * v[1]
  {
    TwoCells();
    assert Entry(a, 2, i, 0) == a[i] && Entry(a, 2, i, 1) == a[i+2];
    assert Dot(a, v, 2, i, 0) == 0.0;
    assert Dot(a, v, 2, i, 1) == Entry(a, 2, i, 0) * v[0];
    assert Dot(a, v, 2, i, 2) == Dot(a, v, 2, i, 1) + Entry(a, 2, i, 1) * v[1];
  }

  lemma {:induction false} TwoEntries(a: Vector, v: Vector)
    requires |a| == 4 && |v| == 2
    ensures Cells(2) == 4 && MatVec(a, v) == [a[0] * v[0] + a[2] * v[1], a[1] * v[0] + a[3] * v[1]]
  {
    TwoCells();
    var n := |v|;
    TwoTerms(a, v, 0);
    TwoTerms(a, v, 1);
    var w := MatVec(a, v);
    assert |w| == 2 && w[0] == Dot(a, v, n, 0, n) && w[1] == Dot(a, v, n, 1, n);
    assert w[0] == a[0] * v[0] + a[2] * v[1];
    assert w[1] == a[1] * v[0] + a[3] * v[1];
    assert w == [w[0], w[1]];
    assert MatVec(a, v) == w;
  }

  /** What is played during a trial: the stored input at the number of updates so far, and zero when all are made. */
  lemma {:induction false} TrialOutputs(t: Trial, c: Setup, calls: seq<Call>, k: nat)
    requires Fits(t, c) && k <= |calls|
    ensures var n, out := |Measured(calls, k)|, SampleOutput(Run(Started(t), c, calls, k), c);
            && (n < c.Span() && n < c.n ==> out == t.u[n])
            && (n >= c.Span() ==> out == 0.0)
  {
    if |Measured(calls, k)| < c.Span() {
      TrialProgress(Started(t), c, calls, k);
    } else {
      var m := FindCompletion(calls, c.Span(), k);
      TrialProgress(Started(t), c, calls, m);
      if m < k {
        assert Run(Started(t), c, calls, m + 1) == Sampled(Run(Started(t), c, calls, m), c, calls[m]);
        IdleStays(Started(t), c, calls, m + 1, k);
      }
    }
  }

  /** A trial that is cut short leaves the input as it was. */
  lemma TrialCutShort(t: Trial, c: Setup, calls: seq<Call>)
    requires Fits(t, c) && (calls != [] ==> |Measured(calls, |calls| - 1)| < c.Span())
    ensures Run(Started(t), c, calls, |calls|).u == t.u
  {
    TrialProgress(Started(t), c, calls, |calls|);
  }

  /** A call that reads the stored input reads within its bounds. */
  predicate ReadsInside(t: Trial, c: Setup) { Reads(t, c) ==> t.z < |t.u| }

  ghost predicate ReadsInsideAt(t: Trial, c: Setup, calls: seq<Call>, k: nat)
    requires Fits(t, c)
  {
    k <= |calls| ==> ReadsInside(Run(t, c, calls, k), c)
  }

  /** All calls of a complete trial read the stored input within its bounds if and only if no error is measured late. */
  lemma ReadsInsideExactly(t: Trial, c: Setup, calls: seq<Call>)
    requires Fits(t, c) && Complete(c, calls)
    ensures (forall k: nat | k < |calls| :: ReadsInsideAt(Started(t), c, calls, k)) <==> c.delay <= 0
  {
    if c.delay <= 0 {
      forall k: nat | k < |calls| ensures ReadsInsideAt(Started(t), c, calls, k) {
      }
    } else {
      var k := FindCompletion(calls, c.n, |calls| - 1);
      TrialProgress(Started(t), c, calls, k);
      assert !ReadsInsideAt(Started(t), c, calls, k);
    }
  }

  // ------------------------------------------------------------------ many trials

  predicate Complete(c: Setup, calls: seq<Call>) { calls != [] && |Measured(calls, |calls| - 1)| >= c.Span() }

  function RunTrials(t: Trial, c: Setup, trials: seq<seq<Call>>, k: nat): (t': Trial)
    requires Fits(t, c) && k <= |trials|
    ensures Fits(t', c)
  {
    if k == 0 then t else Run(Started(RunTrials(t, c, trials, k - 1)), c, trials[k-1], |trials[k-1]|)
  }

  /** The learning law, applied once for every complete trial; e are the errors at first. */
  function Learned(c: Setup, u: Vector, e: Vector, trials: seq<seq<Call>>, k: nat): (w: Vector)
    requires c.Valid() && |u| == |e| == c.n && k <= |trials|
    ensures |w| == c.n
  {
    if k == 0 then u
    else
      var v := Learned(c, u, e, trials, k - 1);
      var calls := trials[k-1];
      if Complete(c, calls) then Law(c, v, e, Measured(calls, |calls| - 1)) else v
  }

  /** The errors that are not measured stay. */
  ghost predicate SameUnmeasured(c: Setup, e: Vector, d: Vector) {
    |e| == |d| == c.n && forall i | 0 <= i < c.n && i + c.delay < 0 :: e[i] == d[i]
  }

  lemma {:induction false} RunKeepsUnmeasured(t: Trial, c: Setup, calls: seq<Call>, k: nat)
    requires Fits(t, c) && k <= |calls|
    ensures SameUnmeasured(c, t.e, Run(t, c, calls, k).e)
  {
    if k > 0 { RunKeepsUnmeasured(t, c, calls, k - 1); }
  }

  lemma SameErrors(c: Setup, e: Vector, d: Vector, ys: Vector)
    requires c.Valid() && SameUnmeasured(c, e, d) && |ys| >= c.Span()
    ensures Errors(c, e, ys) == Errors(c, d, ys)
  {
  }

  /** Over any number of trials, complete or cut short, the input follows the learning law. */
  lemma {:induction false} TrialsLearn(t: Trial, c: Setup, trials: seq<seq<Call>>, k: nat)
    requires Fits(t, c) && k <= |trials|
    ensures RunTrials(t, c, trials, k).u == Learned(c, t.u, t.e, trials, k)
    ensures SameUnmeasured(c, t.e, RunTrials(t, c, trials, k).e)
  {
    if k > 0 {
      TrialsLearn(t, c, trials, k - 1);
      var s, calls := RunTrials(t, c, trials, k - 1), trials[k-1];
      RunKeepsUnmeasured(Started(s), c, calls, |calls|);
      if Complete(c, calls) {
        TrialCompletes(s, c, calls);
        SameErrors(c, t.e, s.e, Measured(calls, |calls| - 1));
      } else {
        TrialCutShort(s, c, calls);
      }
    }
  }

  /** Perfect tracking is kept: without filtering and without error the input does not change. */
  lemma PerfectTrackingKept(c: Setup, u: Vector, e: Vector, ys: Vector)
    requires c.Valid() && |u| == |e| == c.n && |ys| >= c.Span() && IsIdentity(c.q, c.n)
    requires forall i | 0 <= i < c.n :: if i + c.delay >= 0 then ys[i + c.delay] == c.r[i] else e[i] == 0.0
    ensures Law(c, u, e, ys) == u
  {
    var le := MatVec(c.l, Errors(c, e, ys));
    forall i | 0 <= i < c.n ensures le[i] == 0.0 {
      ZeroRow(c.l, Errors(c, e, ys), c.n, i, c.n);
    }
    assert Add(u, le) == u;
    forall i | 0 <= i < c.n ensures MatVec(c.q, u)[i] == u[i] {
      IdentityRow(c.q, u, c.n, i, c.n);
    }
  }

  // ------------------------------------------------------------------ the object

  class SisoIlc {
    const nsamples: nat
    const mtot: int
    const r: array<real>
    const q: array<real>
    const l: array<real>
    const e: array<real>
    const um1: array<real>
    const um: array<real>
    const tmp: array<real>
    var z: nat
    var active: bool

    ghost predicate Valid()
      reads this
    {
      && r.Length == e.Length == um1.Length == um.Length == tmp.Length == nsamples
      && q.Length == l.Length == Cells(nsamples)
      && r != e && r != um && r != tmp && r != um1
      && q != e && q != um && q != tmp && q != um1
      && l != e && l != um && l != tmp && l != um1
      && e != um1 && e != um && e != tmp && um1 != um && um1 != tmp && um != tmp
      && z <= (if nsamples + mtot > 0 then nsamples + mtot else 0)
    }

    ghost function State(): Trial
      reads this, e, um
    {
      Trial(um[..], e[..], z, active)
    }

    ghost function Parameters(): Setup
      reads r, q, l
    {
      Setup(nsamples, mtot, r[..], q[..], l[..])
    }

    constructor (r: array<real>, q: array<real>, l: array<real>, mtot: int)
      requires q.Length == l.Length == Cells(r.Length)
      ensures Valid() && this.r == r && this.q == q && this.l == l && this.mtot == mtot
      ensures fresh(e) && fresh(um) && fresh(um1) && fresh(tmp)
      ensures !active && z == 0 && forall i | 0 <= i < um.Length :: um[i] == 0.0
    {
      nsamples, this.mtot, this.r, this.q, this.l := r.Length, mtot, r, q, l;
      e, um1, um, tmp := new real[r.Length], new real[r.Length], new real[r.Length], new real[r.Length];
      z, active := 0, false;
      new;
      for i := 0 to nsamples
        invariant Valid() && !active && z == 0
        invariant forall j | 0 <= j < i :: um[j] == 0.0
      {
        um[i] := 0.0;
      }
    }

    method InitSampling()
      requires Valid()
      modifies this
      ensures Valid() && State() == Started(old(State()))
    {
      z, active := 0, true;
    }

    method Update()
      requires Valid()
      modifies um, um1, tmp
      ensures Valid() && e[..] == old(e[..])
      ensures um[..] == Improved(Parameters(), old(um[..]), old(e[..]))
    {
      CvMatrixFilter(l, e, tmp);
      CopyVec(um, um1);
      AddToVec(um, tmp);
      CvMatrixFilter(q, tmp, um);
    }

    /** siso_ilc_sample. What a read past the end of the stored input yields is open. */
    method Sample(input: real, update: bool) returns (out: real)
      requires Valid()
      modifies this, e, um, um1, tmp
      ensures Valid()
      ensures State() == Sampled(old(State()), Parameters(), Call(input, update))
      ensures ReadsInside(old(State()), Parameters()) ==> out == SampleOutput(old(State()), Parameters())
    {
      if !active { return 0.0; }
      if z >= nsamples + mtot {
        Update();
        active := false;
        return 0.0;
      }
      if z < um.Length { out := um[z]; } else { out := *; }
      if z >= mtot && update { e[z - mtot] := r[z - mtot] - input; }
      if update { z := z + 1; }
    }
  }

  // ------------------------------------------------------------------ playing a trajectory

  datatype Player = Player(z: nat, active: bool, stoppedByCommand: bool, neverActivated: bool)

  datatype PlayerSetup = PlayerSetup(r: Vector, holdLastValue: bool, muteAfterStop: bool)

  function PlayerStarted(p: Player): Player { Player(0, true, false, false) }

  function PlayerStopped(p: Player): Player { p.(active := false, stoppedByCommand := true) }

  predicate AtEnd(p: Player, c: PlayerSetup) { p.active && p.z >= |c.r| }

  function Played(p: Player, c: PlayerSetup, update: bool): Player {
    if AtEnd(p, c) then p.(active := false, stoppedByCommand := false)
    else if p.active && update then p.(z := p.z + 1)
    else p
  }

  /** The value of a player that is not playing. */
  function RestValue(p: Player, c: PlayerSetup): real
    requires c.r != []
  {
    if c.muteAfterStop && p.stoppedByCommand then 0.0
    else if c.holdLastValue && !p.neverActivated then c.r[|c.r|-1]
    else 0.0
  }

  function PlayOutput(p: Player, c: PlayerSetup): real
    requires c.r != []
  {
    if p.active && p.z < |c.r| then c.r[p.z]
    else RestValue(Played(p, c, false), c)
  }

  /** An output call changes neither its own repetition nor the state update that follows. */
  lemma OutputCallsRepeat(p: Player, c: PlayerSetup, update: bool)
    requires c.r != []
    ensures PlayOutput(Played(p, c, false), c) == PlayOutput(p, c)
    ensures Played(Played(p, c, false), c, update) == Played(p, c, update)
  {
  }

  function PlayRun(p: Player, c: PlayerSetup, updates: seq<bool>, k: nat): Player
    requires k <= |updates|
  {
    if k == 0 then p else Played(PlayRun(p, c, updates, k - 1), c, updates[k-1])
  }

  function CountUpdates(updates: seq<bool>, k: nat): (n: nat)
    requires k <= |updates|
  {
    if k == 0 then 0 else CountUpdates(updates, k - 1) + if updates[k-1] then 1 else 0
  }

  /** After n state updates the player is at sample n, and past the last sample at its rest value. */
  lemma {:induction false} TrajectoryPlayed(p: Player, c: PlayerSetup, updates: seq<bool>, k: nat)
    requires c.r != [] && k <= |updates|
    ensures var n := CountUpdates(updates, k);
            PlayOutput(PlayRun(PlayerStarted(p), c, updates, k), c) ==
              if n < |c.r| then c.r[n]
              else if c.holdLastValue then c.r[|c.r|-1] else 0.0
    ensures var s := PlayRun(PlayerStarted(p), c, updates, k);
            var n := CountUpdates(updates, k);
            && !s.stoppedByCommand && !s.neverActivated
            && (s.active ==> s.z == n) && (!s.active ==> n >= |c.r|)
  {
    if k > 0 { TrajectoryPlayed(p, c, updates, k - 1); }
  }

  /** Before its first activation a player gives zero, whatever calls are made. */
  lemma {:induction false} NewPlayerSilent(p: Player, c: PlayerSetup, updates: seq<bool>, k: nat)
    requires c.r != [] && k <= |updates| && !p.active && p.neverActivated
    ensures PlayRun(p, c, updates, k) == p && PlayOutput(p, c) == 0.0
  {
    if k > 0 { NewPlayerSilent(p, c, updates, k - 1); }
  }

  /** A player that was stopped gives zero if it is muted or does not hold, and the last sample otherwise. */
  lemma {:induction false} StoppedPlayer(p: Player, c: PlayerSetup, updates: seq<bool>, k: nat)
    requires c.r != [] && k <= |updates| && !p.neverActivated
    ensures PlayOutput(PlayRun(PlayerStopped(p), c, updates, k), c) ==
              if !c.muteAfterStop && c.holdLastValue then c.r[|c.r|-1] else 0.0
    ensures PlayRun(PlayerStopped(p), c, updates, k) == PlayerStopped(p)
  {
    if k > 0 { StoppedPlayer(p, c, updates, k - 1); }
  }

  class SisoSampler {
    const r: array<real>
    var holdLastValue: bool
    var muteAfterStop: bool
    var z: nat
    var active: bool
    var stoppedByCommand: bool
    var neverActivated: bool

    ghost function State(): Player
      reads this
    {
      Player(z, active, stoppedByCommand, neverActivated)
    }

    ghost function Parameters(): PlayerSetup
      reads this, r
    {
      PlayerSetup(r[..], holdLastValue, muteAfterStop)
    }

    /** siso_sampler_new leaves the stop flag as it finds it. */
    constructor (r: array<real>, stopFlag: bool)
      ensures this.r == r && State() == Player(0, false, stopFlag, true)
      ensures Parameters() == PlayerSetup(r[..], false, true)
    {
      this.r := r;
      holdLastValue, muteAfterStop := false, true;
      z, active, stoppedByCommand, neverActivated := 0, false, stopFlag, true;
    }

    method InitSampling()
      modifies this
      ensures State() == PlayerStarted(old(State())) && Parameters() == old(Parameters())
    {
      neverActivated, z, active, stoppedByCommand := false, 0, true, false;
    }

    method StopSampling()
      modifies this
      ensures State() == PlayerStopped(old(State())) && Parameters() == old(Parameters())
    {
      active, stoppedByCommand := false, true;
    }

    method Play(update: bool) returns (out: real)
      requires r.Length > 0
      modifies this
      ensures State() == Played(old(State()), old(Parameters()), update) && Parameters() == old(Parameters())
      ensures out == PlayOutput(old(State()), old(Parameters()))
    {
      if active && z >= r.Length { active, stoppedByCommand := false, false; }
      if active {
        out := r[z];
        if update { z := z + 1; }
        return;
      }
      if muteAfterStop && stoppedByCommand { return 0.0; }
      if holdLastValue && !neverActivated { return r[r.Length-1]; }
      return 0.0;
    }
  }
}
