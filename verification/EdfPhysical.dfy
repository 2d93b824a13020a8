/**
  Physical samples of edflib over the reals: the scaling computed when the header is written, the
  conversion to digital codes and back. Integer conversions truncate toward zero, as in C.
 */
module EdfPhysical {
  import EdfLayout

  function Abs(x: real): real { if x < 0.0 then -x else x }

  function Truncate(x: real): int { if x >= 0.0 then x.Floor else -((-x).Floor) }

  lemma TruncateNear(x: real)
    ensures Abs(x - Truncate(x) as real) < 1.0
    ensures Abs(Truncate(x) as real) <= Abs(x)
  {
  }

  lemma TruncateMonotone(x: real, y: real)
    requires x <= y
    ensures Truncate(x) <= Truncate(y)
  {
  }

  // ------------------------------------------------------------------ products of reals

  lemma QuotientTimes(x: real, b: real)
    requires b != 0.0
    ensures (x / b) * b == x && b * (x / b) == x
  {
  }

  lemma TimesQuotient(x: real, b: real)
    requires b != 0.0
    ensures (b * x) / b == x
  {
  }

  lemma Positive(a: real, c: real)
    requires a > 0.0 && c > 0.0
    ensures a * c > 0.0
  {
  }

  lemma NegateLeft(a: real, c: real)
    ensures (-a) * c == -(a * c) && a * (-c) == -(a * c)
  {
  }

  lemma Difference(b: real, n: real, q: real)
    ensures b * (n - q) == b * n - b * q
  {
  }

  lemma LessThanOnce(a: real, f: real, p: real)
    requires a > 0.0 && p == a * f
    ensures p < a <==> f < 1.0
  {
    Difference(a, 1.0, f);
    if f < 1.0 { Positive(a, 1.0 - f); }
    if f > 1.0 {
      Positive(a, f - 1.0);
      NegateLeft(a, f - 1.0);
    }
  }

  lemma ScaledPositive(a: real, e: real, p: real)
    requires a > 0.0 && p == a * e
    ensures Abs(p) < a <==> Abs(e) < 1.0
  {
    LessThanOnce(a, e, p);
    NegateLeft(a, e);
    LessThanOnce(a, -e, -p);
  }

  /** An error in physical units is below one bit value exactly when it is below one code. */
  lemma ScaledError(b: real, e: real, p: real)
    requires b != 0.0 && p == b * e
    ensures Abs(p) < Abs(b) <==> Abs(e) < 1.0
  {
    if b > 0.0 {
      ScaledPositive(b, e, p);
    } else {
      NegateLeft(b, e);
      ScaledPositive(-b, e, -p);
    }
  }

  /** Two physical values that belong to the codes n and q. */
  lemma CodeDistance(b: real, n: real, q: real, y: real, x: real)
    requires b != 0.0 && y == b * n && x == b * q
    ensures Abs(y - x) < Abs(b) <==> Abs(n - q) < 1.0
  {
    Difference(b, n, q);
    ScaledError(b, n - q, y - x);
  }

  // ------------------------------------------------------------------ the scaling

  /** A signal's digital range and its stored scaling. */
  datatype Scale = Scale(digMin: int, digMax: int, bitvalue: real, offset: int)

  /** The scaling that belongs to a physical range. */
  predicate Computed(s: Scale, physMin: real, physMax: real) {
    && s.bitvalue != 0.0
    && s.bitvalue * (s.digMax - s.digMin) as real == physMax - physMin
    && s.bitvalue * (physMax / s.bitvalue) == physMax
    && s.offset == Truncate(physMax / s.bitvalue - s.digMax as real)
  }

  /** The range checks and the scaling of edflib_write_edf_header. */
  method MakeScale(physMin: real, physMax: real, digMin: int, digMax: int) returns (code: int, s: Scale)
    ensures code ==
      if digMax == digMin then -23 else if digMax < digMin then -24 else if physMax == physMin then -25 else 0
    ensures code == 0 ==> s.digMin == digMin && s.digMax == digMax && Computed(s, physMin, physMax)
  {
    s := Scale(digMin, digMax, 1.0, 0);
    if digMax == digMin { return -23, s; }
    if digMax < digMin { return -24, s; }
    if physMax == physMin { return -25, s; }
    var bitvalue := (physMax - physMin) / (digMax - digMin) as real;
    QuotientTimes(physMax - physMin, (digMax - digMin) as real);
    QuotientTimes(physMax, bitvalue);
    s := Scale(digMin, digMax, bitvalue, Truncate(physMax / bitvalue - digMax as real));
    return 0, s;
  }

  /** The code of a physical value before it is limited. */
  function RawCode(x: real, s: Scale): int
    requires s.bitvalue != 0.0
  {
    Truncate(x / s.bitvalue) - s.offset
  }

  function Code(x: real, s: Scale): int
    requires s.bitvalue != 0.0
  {
    var v := RawCode(x, s);
    var w := if v > s.digMax then s.digMax else v;
    if w < s.digMin then s.digMin else w
  }

  /** The conversion in edfwrite_physical_samples. */
  method ToDigital(x: real, s: Scale) returns (value: int)
    requires s.bitvalue != 0.0
    ensures value == Code(x, s)
  {
    var q := x / s.bitvalue;
    value := if q >= 0.0 then q.Floor else -((-q).Floor);
    value := value - s.offset;
    if value > s.digMax { value := s.digMax; }
    if value < s.digMin { value := s.digMin; }
  }

  /** The values of a 16-bit (EDF) or 32-bit (BDF) sum. */
  function Modulus(bdf: bool): int { if bdf then 0x1_0000_0000 else 0x1_0000 }

  function Wrap(v: int, bdf: bool): int {
    var half := Modulus(bdf) / 2;
    (v + half) % Modulus(bdf) - half
  }

  predicate Fits(v: int, bdf: bool) { -(Modulus(bdf) / 2) <= v < Modulus(bdf) / 2 }

  lemma WrapDistance(v: int, bdf: bool)
    ensures Wrap(v, bdf) == v <==> Fits(v, bdf)
    ensures !Fits(v, bdf) ==> Wrap(v, bdf) <= v - Modulus(bdf) || Wrap(v, bdf) >= v + Modulus(bdf)
  {
  }

  /** The conversion in edfread_physical_samples. */
  function Physical(code: int, s: Scale, bdf: bool): real {
    s.bitvalue * Wrap(code + s.offset, bdf) as real
  }

  // ------------------------------------------------------------------ round trips

  /**
    A sample whose code is in the digital range reads back within one bit value exactly when the
    sum of code and offset does not wrap.
   */
  lemma PhysicalRoundTrip(x: real, s: Scale, bdf: bool)
    requires s.bitvalue != 0.0 && s.digMin <= RawCode(x, s) <= s.digMax
    ensures Abs(Physical(Code(x, s), s, bdf) - x) < Abs(s.bitvalue) <==> Fits(Code(x, s) + s.offset, bdf)
  {
    var q := x / s.bitvalue;
    assert Code(x, s) + s.offset == Truncate(q);
    QuotientTimes(x, s.bitvalue);
    WrapNear(q, bdf);
    CodeDistance(s.bitvalue, Wrap(Truncate(q), bdf) as real, q, Physical(Code(x, s), s, bdf), x);
  }

  /** The sum is within one of the quotient exactly if it does not wrap. */
  lemma WrapNear(q: real, bdf: bool)
    ensures Abs(Wrap(Truncate(q), bdf) as real - q) < 1.0 <==> Fits(Truncate(q), bdf)
  {
    TruncateNear(q);
    WrapDistance(Truncate(q), bdf);
  }

  /** A scaling the header gets, and a value in its range that reads back far off. */
  lemma WrapExample()
    ensures var s := Scale(-2048, 2047, 1.0, 40_000);
            && Computed(s, 37_952.0, 42_047.0)
            && RawCode(40_000.0, s) == 0 && Physical(Code(40_000.0, s), s, false) == -25_536.0
  {
  }

  /** A sample with a code in the digital range reads back within one bit value. */
  predicate ReadsBackNear(x: real, s: Scale, bdf: bool)
    requires s.bitvalue != 0.0
  {
    s.digMin <= RawCode(x, s) <= s.digMax ==> Abs(Physical(Code(x, s), s, bdf) - x) < Abs(s.bitvalue)
  }

  /** The value of one code. */
  lemma CodeReached(code: int, s: Scale)
    requires s.bitvalue != 0.0
    ensures RawCode(s.bitvalue * (code + s.offset) as real, s) == code
  {
    TimesQuotient((code + s.offset) as real, s.bitvalue);
  }

  /** All samples of a signal read back within one bit value exactly if neither end of its digital range wraps. */
  lemma AllReadBackNear(s: Scale, bdf: bool)
    requires s.bitvalue != 0.0 && s.digMin <= s.digMax
    ensures (forall x: real :: ReadsBackNear(x, s, bdf)) <==>
            Fits(s.digMin + s.offset, bdf) && Fits(s.digMax + s.offset, bdf)
  {
    if Fits(s.digMin + s.offset, bdf) && Fits(s.digMax + s.offset, bdf) {
      forall x: real ensures ReadsBackNear(x, s, bdf) {
        if s.digMin <= RawCode(x, s) <= s.digMax { PhysicalRoundTrip(x, s, bdf); }
      }
    }
    if forall x: real :: ReadsBackNear(x, s, bdf) {
      EndFits(s.digMin, s, bdf);
      EndFits(s.digMax, s, bdf);
    }
  }

  lemma EndFits(code: int, s: Scale, bdf: bool)
    requires s.bitvalue != 0.0 && s.digMin <= code <= s.digMax && forall x: real :: ReadsBackNear(x, s, bdf)
    ensures Fits(code + s.offset, bdf)
  {
    var x := s.bitvalue * (code + s.offset) as real;
    CodeReached(code, s);
    assert ReadsBackNear(x, s, bdf);
    PhysicalRoundTrip(x, s, bdf);
  }

  /** The code read from the two or three bytes a code is stored in. */
  function Stored(code: int, bdf: bool): int {
    EdfLayout.Decode(EdfLayout.ByteOf(code, 0), EdfLayout.ByteOf(code, 1), EdfLayout.ByteOf(code, 2), bdf)
  }

  /** The same through the bytes of the file, for digital ranges that fit their width. */
  lemma StoredRoundTrip(x: real, s: Scale, bdf: bool)
    requires s.bitvalue != 0.0 && s.digMin <= RawCode(x, s) <= s.digMax
    requires EdfLayout.InRange(s.digMin, bdf) && EdfLayout.InRange(s.digMax, bdf)
    ensures Abs(Physical(Stored(Code(x, s), bdf), s, bdf) - x) < Abs(s.bitvalue) <==> Fits(Code(x, s) + s.offset, bdf)
  {
    PhysicalRoundTrip(x, s, bdf);
    EdfLayout.CodeRoundTrip(Code(x, s), bdf);
  }

  /** Out-of-range samples become the end codes, all others keep theirs. */
  lemma Saturates(x: real, s: Scale)
    requires s.bitvalue != 0.0 && s.digMin <= s.digMax
    ensures s.digMin <= Code(x, s) <= s.digMax
    ensures Code(x, s) == RawCode(x, s) <==> s.digMin <= RawCode(x, s) <= s.digMax
    ensures RawCode(x, s) > s.digMax ==> Code(x, s) == s.digMax
    ensures RawCode(x, s) < s.digMin ==> Code(x, s) == s.digMin
  {
  }

  /** Codes follow the order of the physical values, or the reverse order for a negative bit value. */
  lemma CodesMonotone(x: real, y: real, s: Scale)
    requires s.bitvalue != 0.0 && x <= y
    ensures if s.bitvalue > 0.0 then Code(x, s) <= Code(y, s) else Code(y, s) <= Code(x, s)
  {
    var p, q := x / s.bitvalue, y / s.bitvalue;
    QuotientTimes(x, s.bitvalue);
    QuotientTimes(y, s.bitvalue);
    QuotientsOrdered(s.bitvalue, p, q, x, y);
    if p <= q { TruncateMonotone(p, q); }
    if q <= p { TruncateMonotone(q, p); }
  }

  lemma QuotientsOrdered(b: real, p: real, q: real, x: real, y: real)
    requires x <= y && x == b * p && y == b * q
    ensures b > 0.0 ==> p <= q
    ensures b < 0.0 ==> q <= p
  {
    Difference(b, p, q);
    if b > 0.0 && p > q { Positive(b, p - q); }
    if b < 0.0 && q > p {
      Positive(-b, q - p);
      NegateLeft(b, q - p);
      Difference(b, q, p);
    }
  }

  /** A sample read from a file and written again keeps its code. */
  lemma RewriteKeepsCode(code: int, s: Scale, bdf: bool)
    requires s.bitvalue != 0.0 && s.digMin <= code <= s.digMax && Fits(code + s.offset, bdf)
    ensures Code(Physical(code, s, bdf), s) == code
  {
    var n := code + s.offset;
    WrapDistance(n, bdf);
    TimesQuotient(n as real, s.bitvalue);
    assert Physical(code, s, bdf) / s.bitvalue == n as real;
  }

  /**
    The largest code stands for the physical maximum, the smallest for the minimum, within one bit
    value; q is physMax / bitvalue.
   */
  lemma EndsCalibrated(physMin: real, physMax: real, q: real, s: Scale, bdf: bool)
    requires s.bitvalue != 0.0 && s.bitvalue * (s.digMax - s.digMin) as real == physMax - physMin
    requires physMax == s.bitvalue * q && s.offset == Truncate(q - s.digMax as real)
    requires Fits(s.digMin + s.offset, bdf) && Fits(s.digMax + s.offset, bdf)
    ensures Abs(Physical(s.digMax, s, bdf) - physMax) < Abs(s.bitvalue)
    ensures Abs(Physical(s.digMin, s, bdf) - physMin) < Abs(s.bitvalue)
  {
    TruncateNear(q - s.digMax as real);
    EndCalibrated(q, physMax, s.digMax, s, bdf);
    LowerEnd(q, physMin, physMax, s, bdf);
  }

  lemma LowerEnd(q: real, physMin: real, physMax: real, s: Scale, bdf: bool)
    requires s.bitvalue != 0.0 && s.bitvalue * (s.digMax - s.digMin) as real == physMax - physMin
    requires physMax == s.bitvalue * q && Abs((s.digMax + s.offset) as real - q) < 1.0
    requires Fits(s.digMin + s.offset, bdf)
    ensures Abs(Physical(s.digMin, s, bdf) - physMin) < Abs(s.bitvalue)
  {
    var d := (s.digMax - s.digMin) as real;
    Difference(s.bitvalue, q, d);
    EndCalibrated(q - d, physMin, s.digMin, s, bdf);
  }

  lemma EndCalibrated(q: real, x: real, code: int, s: Scale, bdf: bool)
    requires s.bitvalue != 0.0 && x == s.bitvalue * q && Fits(code + s.offset, bdf)
    requires Abs((code + s.offset) as real - q) < 1.0
    ensures Abs(Physical(code, s, bdf) - x) < Abs(s.bitvalue)
  {
    WrapDistance(code + s.offset, bdf);
    CodeDistance(s.bitvalue, (code + s.offset) as real, q, Physical(code, s, bdf), x);
  }
}
