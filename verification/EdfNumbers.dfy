/**
  Decimal numbers of edflib: the printer for 64-bit integers, the parser for times, and the
  time stamp of a data record (section 2.2.4 of the EDF+ specification). Characters are their codes.
 */
module EdfNumbers {
  import DivMod

  type Text = seq<int>

  const MAX_LL := 0x7fff_ffff_ffff_ffff
  const TIME_DIMENSION := 10_000_000
  const PLUS := 43
  const MINUS := 45
  const DOT := 46
  const ZERO := 48

  function Pow10(n: nat): (p: nat)
    ensures p >= 1
  {
    if n == 0 then 1 else 10 * Pow10(n - 1)
  }

  predicate IsDigit(c: int) { ZERO <= c <= 57 }

  predicate AllDigits(s: Text) { forall i | 0 <= i < |s| :: IsDigit(s[i]) }

  /** The value of a string of decimal digits. */
  function DecValue(s: Text): int {
    if s == [] then 0 else 10 * DecValue(s[..|s|-1]) + (s[|s|-1] - ZERO)
  }

  /** The last w decimal digits of n. */
  function Fixed(n: nat, w: nat): (s: Text)
    ensures |s| == w && AllDigits(s)
  {
    if w == 0 then [] else Fixed(n / 10, w - 1) + [ZERO + n % 10]
  }

  lemma {:induction false} FixedValue(n: nat, w: nat)
    requires n < Pow10(w)
    ensures DecValue(Fixed(n, w)) == n
  {
    if w > 0 {
      FixedValue(n / 10, w - 1);
      assert Fixed(n, w)[..w-1] == Fixed(n / 10, w - 1);
    }
  }

  /** The number of significant digits; zero has none. */
  function Significant(n: nat): (w: nat) {
    if n == 0 then 0 else 1 + Significant(n / 10)
  }

  lemma {:induction false} SignificantBounds(n: nat, w: nat)
    ensures Significant(n) <= w <==> n < Pow10(w)
    decreases w
  {
    if w > 0 { SignificantBounds(n / 10, w - 1); }
  }

  function Max(a: int, b: int): int { if a < b then b else a }
  function Min(a: int, b: int): int { if a < b then a else b }

  /** How many digits are printed: the significant ones, at least `minimum` (of 0 to 19), and at least one. */
  function Width(n: nat, minimum: int): nat {
    Max(1, Max(Significant(n), Min(Max(minimum, 0), 19)))
  }

  function Magnitude(q: int): nat { if q < 0 then -q else q }

  function SignText(q: int, sign: bool): Text {
    if q < 0 then [MINUS] else if sign then [PLUS] else []
  }

  /** What edflib_sprint_ll_number_nonlocalized prints. */
  function Printed(q: int, minimum: int, sign: bool): Text {
    SignText(q, sign) + Fixed(Magnitude(q), Width(Magnitude(q), minimum))
  }

  /** n in base 10 p splits into a leading part, a digit and a rest. */
  lemma DigitStep(n: nat, p: nat)
    requires p > 0
    ensures (n % (10 * p)) / p == (n / p) % 10
    ensures (n % (10 * p)) % p == n % p
    ensures (n / p) / 10 == n / (10 * p)
  {
    var a, b := n / (10 * p), n % (10 * p);
    var z, c := b / p, b % p;
    DivMod.QuotientBelow(b, p, 10);
    assert n == (10 * a + z) * p + c by {
      assert n == a * (10 * p) + b && b == z * p + c;
      assert (10 * a + z) * p == a * (10 * p) + z * p;
    }
    DivMod.Unique(n, p, 10 * a + z, c);
    DivMod.Unique(10 * a + z, 10, a, z);
  }

  /** Whether the digit at position i - 1 is zero, above or at the leading position. */
  lemma LeadingDigit(n: nat, i: nat)
    requires i > 0
    ensures n < Pow10(i - 1) ==> n / Pow10(i - 1) == 0
    ensures Pow10(i - 1) <= n < Pow10(i) ==> 1 <= n / Pow10(i - 1) <= 9
  {
    var p := Pow10(i - 1);
    if n < p {
      DivMod.QuotientBelow(n, p, 1);
    } else if n < Pow10(i) {
      DivMod.QuotientBelow(n, p, 10);
      DivMod.QuotientAtLeast(n, p, 1);
    }
  }

  lemma {:induction false} Pow10Monotone(a: nat, b: nat)
    requires a <= b
    ensures Pow10(a) <= Pow10(b)
  {
    if a < b { Pow10Monotone(a, b - 1); }
  }

  lemma PowLiterals()
    ensures Pow10(4) == 10_000 && Pow10(7) == TIME_DIMENSION
    ensures Pow10(18) == 1_000_000_000_000_000_000 && Pow10(19) == 10_000_000_000_000_000_000
  {
    assert Pow10(2) == 100;
    assert Pow10(4) == 10_000;
    assert Pow10(6) == 1_000_000;
    assert Pow10(8) == 100_000_000;
    assert Pow10(10) == 10_000_000_000;
    assert Pow10(12) == 1_000_000_000_000;
    assert Pow10(14) == 100_000_000_000_000;
    assert Pow10(16) == 10_000_000_000_000_000;
  }

  lemma LongFits(n: nat)
    requires n <= MAX_LL
    ensures n < Pow10(19) && Significant(n) <= 19
  {
    PowLiterals();
    SignificantBounds(n, 19);
  }

  /** The digits printed before position i: all digits of n from position w down to i. */
  function DigitsDownTo(n: nat, w: nat, i: nat): Text {
    if i < w then Fixed(DivMod.Quotient(n, Pow10(i)), w - i) else []
  }

  lemma AllDigitsDown(n: nat, minimum: nat)
    ensures DigitsDownTo(n, LoopWidth(n, minimum), 0) ==
            if LoopWidth(n, minimum) > 0 then Fixed(n, Width(n, minimum)) else []
    ensures LoopWidth(n, minimum) == 0 ==> Fixed(n, Width(n, minimum)) == [ZERO]
  {
    assert Pow10(0) == 1 && DivMod.Quotient(n, 1) == n;
    if LoopWidth(n, minimum) == 0 {
      assert n == 0 && Fixed(0, 0) == [];
    }
  }

  /** The width before the printer falls back to a single zero. */
  function LoopWidth(n: nat, minimum: nat): nat { Max(Significant(n), Min(minimum, 19)) }

  /** At position i the printer emits a digit exactly when i is within the width, and it emits the right one. */
  lemma PrintStep(n: nat, minimum: nat, i: nat)
    requires 0 < i <= 19 && Significant(n) <= 19
    ensures var w, r := LoopWidth(n, minimum), n % Pow10(i);
            var z := r / Pow10(i - 1);
            && 0 <= z <= 9 && r % Pow10(i - 1) == n % Pow10(i - 1)
            && (z != 0 || minimum == i || i < w || minimum > 18 <==> i - 1 < w)
            && DigitsDownTo(n, w, i - 1) == DigitsDownTo(n, w, i) + if i - 1 < w then [ZERO + z] else []
  {
    DigitStep(n, Pow10(i - 1));
    LeadingDigit(n, i);
    SignificantBounds(n, i);
    SignificantBounds(n, i - 1);
    PrintedDigits(n, LoopWidth(n, minimum), i);
  }

  lemma PrintedDigits(n: nat, w: nat, i: nat)
    requires i > 0 && (n / Pow10(i - 1)) / 10 == n / Pow10(i)
    ensures i - 1 < w ==> DigitsDownTo(n, w, i - 1) == DigitsDownTo(n, w, i) + [ZERO + (n / Pow10(i - 1)) % 10]
  {
    if i == w { assert Fixed(DivMod.Quotient(n, Pow10(i)), 0) == []; }
  }

  /** The digit loop of the printer: no digit is printed before the first significant one or the minimum width. */
  method PrintDigits(n: nat, minimum: nat) returns (str: Text)
    requires n <= MAX_LL
    ensures str == Fixed(n, Width(n, minimum))
  {
    var flag := minimum > 18;
    var q := n;
    var base := 1_000_000_000_000_000_000;
    LongFits(n);
    PowLiterals();
    DivMod.Unique(n, Pow10(19), 0, n);
    str := [];
    var i := 19;
    while i > 0
      invariant 0 <= i <= 19
      invariant i > 0 ==> base == Pow10(i - 1)
      invariant q == n % Pow10(i)
      invariant flag <==> i < LoopWidth(n, minimum) || minimum > 18
      invariant str == DigitsDownTo(n, LoopWidth(n, minimum), i)
    {
      if minimum == i { flag := true; }
      PrintStep(n, minimum, i);
      var z := q / base;
      q := q % base;
      if z != 0 || flag {
        str := str + [ZERO + z];
        flag := true;
      }
      base := base / 10;
      i := i - 1;
    }
    AllDigitsDown(n, minimum);
    if !flag { str := str + [ZERO]; }
  }

  /** edflib_sprint_ll_number_nonlocalized; the smallest 64-bit number has no magnitude in 64 bits. */
  method SprintLong(q: int, minimum: int, sign: bool) returns (str: Text)
    requires -MAX_LL <= q <= MAX_LL
    ensures str == Printed(q, minimum, sign)
  {
    str := [];
    if q < 0 {
      str := [MINUS];
    } else if sign {
      str := [PLUS];
    }
    var digits := PrintDigits(if q < 0 then -q else q, if minimum < 0 then 0 else minimum);
    str := str + digits;
  }

  /** Printed numbers have no superfluous leading zeros, and their digits are those of the number. */
  lemma {:induction false} PrintedForm(n: nat, minimum: int, sign: bool) returns (digits: Text)
    requires n <= MAX_LL && minimum <= 19
    ensures Printed(n, minimum, sign) == (if sign then [43] else []) + digits
    ensures n > 0 ==> Printed(0 - n, minimum, sign) == [45] + digits
    ensures |digits| >= 1 && |digits| >= minimum && AllDigits(digits) && DecValue(digits) == n
    ensures |digits| > 1 && |digits| > minimum ==> digits[0] != 48
  {
    var w := Width(n, minimum);
    digits := Fixed(n, w);
    WidthEnough(n, minimum);
    FixedValue(n, w);
    if w > 1 && w > minimum { FirstDigit(n, w); }
  }

  lemma {:induction false} WidthEnough(n: nat, minimum: int)
    requires n <= MAX_LL && minimum <= 19
    ensures n < Pow10(Width(n, minimum)) && Width(n, minimum) >= minimum
    ensures Width(n, minimum) > 1 && Width(n, minimum) > minimum ==> Width(n, minimum) == Significant(n)
  {
    LongFits(n);
    WidthFits(n, Max(minimum, 0), 19);
  }

  lemma {:induction false} FirstDigit(n: nat, w: nat)
    requires w > 0 && Significant(n) == w
    ensures Fixed(n, w)[0] != ZERO
  {
    if w > 1 { FirstDigit(n / 10, w - 1); }
  }

  // ------------------------------------------------------------------ well-formed times

  /** Digits with at most one dot, which is neither first nor last. */
  predicate IsDecimal(s: Text) {
    && s != [] && s[0] != DOT && s[|s|-1] != DOT
    && (forall i | 0 <= i < |s| :: s[i] == DOT || IsDigit(s[i]))
    && (forall i, j | 0 <= i < j < |s| :: s[i] == DOT ==> s[j] != DOT)
  }

  predicate IsOnset(s: Text) { |s| >= 2 && (s[0] == PLUS || s[0] == MINUS) && IsDecimal(s[1..]) }

  /** edflib_is_duration_number: true when the text is rejected. */
  method RejectDuration(s: Text) returns (bad: bool)
    ensures bad <==> !IsDecimal(s)
  {
    if |s| == 0 || s[0] == DOT || s[|s|-1] == DOT { return true; }
    var hasDot := false;
    for i := 0 to |s|
      invariant forall j | 0 <= j < i :: s[j] == DOT || IsDigit(s[j])
      invariant hasDot <==> exists j :: 0 <= j < i && s[j] == DOT
      invariant forall j, k | 0 <= j < k < i :: s[j] == DOT ==> s[k] != DOT
    {
      if s[i] == DOT {
        if hasDot { return true; }
        hasDot := true;
      } else if s[i] < 48 || s[i] > 57 {
        return true;
      }
    }
    return false;
  }

  /** edflib_is_onset_number: true when the text is rejected. */
  method RejectOnset(s: Text) returns (bad: bool)
    ensures bad <==> !IsOnset(s)
  {
    if |s| < 2 || (s[0] != PLUS && s[0] != MINUS) { return true; }
    bad := RejectDuration(s[1..]);
  }

  // ------------------------------------------------------------------ the time parser

  /** The first dot, or the length. */
  function DotPosition(s: Text): (d: nat)
    ensures d <= |s| && (d < |s| ==> s[d] == DOT) && forall i | 0 <= i < d :: s[i] != DOT
  {
    if s == [] || s[0] == DOT then 0 else 1 + DotPosition(s[1..])
  }

  /** The weight of decimal place k in units of 100 ns; places beyond the seventh weigh nothing. */
  function PlaceWeight(k: nat): nat {
    if k == 0 then TIME_DIMENSION / 10 else PlaceWeight(k - 1) / 10
  }

  function FractionValue(f: Text, k: nat): int
    requires k <= |f|
  {
    if k == 0 then 0 else FractionValue(f, k - 1) + (f[k-1] - ZERO) * PlaceWeight(k - 1)
  }

  /** The value of a decimal number of seconds in units of 100 ns. */
  function SecondsValue(s: Text): int {
    var d := DotPosition(s);
    DecValue(s[..d]) * TIME_DIMENSION + if d < |s| then FractionValue(s[d+1..], |s| - d - 1) else 0
  }

  /** The same with a sign before it. */
  function TimeValue(str: Text): int
    requires str != []
  {
    if str[0] == MINUS then -SecondsValue(str[1..]) else SecondsValue(str[1..])
  }

  const TWO64 := 0x1_0000_0000_0000_0000

  /** What 64 bits hold of a number if arithmetic wraps around; C leaves a signed overflow undefined. */
  function Wrapped(v: int): (w: int)
    ensures -MAX_LL - 1 <= w <= MAX_LL
    ensures w == v <==> -MAX_LL - 1 <= v <= MAX_LL
  {
    var r := v % TWO64; if r <= MAX_LL then r else r - TWO64
  }

  /** The value that is computed for a time. */
  function LongTime(str: Text): int
    requires str != []
  {
    Wrapped(TimeValue(str))
  }

  lemma WrapShift(v: int, k: int)
    ensures Wrapped(v + k * TWO64) == Wrapped(v)
  {
    assert v == (v / TWO64) * TWO64 + v % TWO64;
    assert v + k * TWO64 == (v / TWO64 + k) * TWO64 + v % TWO64;
  }

  lemma WrapCount(v: int) returns (k: int)
    ensures Wrapped(v) == v + k * TWO64
  {
    k := -(v / TWO64) - if v % TWO64 <= MAX_LL then 0 else 1;
  }

  /** Wrapping early or late makes no difference. */
  lemma WrapStep(a: int, d: int, r: int)
    ensures Wrapped(Wrapped(a) + d * Wrapped(r)) == Wrapped(a + d * r)
  {
    var j := WrapCount(a);
    var k := WrapCount(r);
    DistributeShift(d, r, k);
    WrapShift(a + d * r, j + d * k);
  }

  lemma DistributeShift(d: int, r: int, k: int)
    ensures d * (r + k * TWO64) == d * r + (d * k) * TWO64
  {
  }

  lemma WrapNegate(v: int)
    ensures Wrapped(-Wrapped(v)) == Wrapped(-v)
  {
    var k := WrapCount(v);
    WrapShift(-v, -k);
  }

  lemma WrapAdd(a: int, b: int)
    ensures Wrapped(Wrapped(a) + b) == Wrapped(a + b)
  {
    var j := WrapCount(a);
    WrapShift(a + b, j);
  }

  lemma {:induction false} DecValueFront(c: int, t: Text)
    ensures DecValue([c] + t) == (c - ZERO) * Pow10(|t|) + DecValue(t)
  {
    if t == [] {
      assert [c][..0] == [];
    } else {
      var n := |t| - 1;
      DecValueFront(c, t[..n]);
      assert ([c] + t)[..n+1] == [c] + t[..n];
      assert (c - ZERO) * (10 * Pow10(n)) == 10 * ((c - ZERO) * Pow10(n));
    }
  }

  /** One digit more, in arithmetic that wraps around. */
  lemma NextDigit(s: Text, i: nat)
    requires i < |s|
    ensures var value, radix :=
              Wrapped(DecValue(s[i+1..]) * TIME_DIMENSION), Wrapped(Pow10(|s| - 1 - i) * TIME_DIMENSION);
            && Wrapped(value + (s[i] - ZERO) * radix) == Wrapped(DecValue(s[i..]) * TIME_DIMENSION)
            && Wrapped(radix * 10) == Wrapped(Pow10(|s| - i) * TIME_DIMENSION)
  {
    var t := s[i+1..];
    assert s[i..] == [s[i]] + t;
    DecValueFront(s[i], t);
    DigitWeight(s[i] - ZERO, Pow10(|t|), DecValue(t));
    WrapStep(DecValue(t) * TIME_DIMENSION, s[i] - ZERO, Pow10(|t|) * TIME_DIMENSION);
    WrapStep(0, 10, Pow10(|t|) * TIME_DIMENSION);
  }

  /** Integer digits are added from the last to the first, each with ten times the weight of the one after it. */
  method IntegerPart(s: Text) returns (value: int)
    requires AllDigits(s)
    ensures value == Wrapped(DecValue(s) * TIME_DIMENSION)
  {
    value := 0;
    var radix := TIME_DIMENSION;
    var i := |s| - 1;
    assert s[|s|..] == [];
    while i >= 0
      invariant -1 <= i < |s|
      invariant value == Wrapped(DecValue(s[i+1..]) * TIME_DIMENSION)
      invariant radix == Wrapped(Pow10(|s| - 1 - i) * TIME_DIMENSION)
    {
      NextDigit(s, i);
      value := Wrapped(value + (s[i] - ZERO) * radix);
      radix := Wrapped(radix * 10);
      i := i - 1;
    }
    assert s[0..] == s;
  }

  lemma {:induction false} DecValueBelow(s: Text)
    requires AllDigits(s)
    ensures 0 <= DecValue(s) < Pow10(|s|)
  {
    if s != [] { DecValueBelow(s[..|s|-1]); }
  }

  /** The whole seconds leave room for a fraction below the peak. */
  lemma WholeBelow(s: Text, peak: int)
    requires AllDigits(s) && peak == Pow10(|s|) * TIME_DIMENSION
    ensures DecValue(s) * TIME_DIMENSION <= peak - TIME_DIMENSION
  {
    DecValueBelow(s);
  }

  lemma DigitWeight(d: int, p: nat, v: int)
    ensures v * TIME_DIMENSION + d * (p * TIME_DIMENSION) == (d * p + v) * TIME_DIMENSION
  {
  }

  /** More than 11 integer digits: the weight after the last one has no 64-bit representation. */
  predicate Wide(str: Text)
    requires str != []
  {
    DotPosition(str[1..]) > 11
  }

  /** The largest number computed for a time with d integer digits is the weight after the last one. */
  lemma PeakFits(d: nat)
    ensures Pow10(d) * TIME_DIMENSION <= MAX_LL <==> d <= 11
  {
    PowLiterals();
    assert Pow10(10) == 10_000_000_000;
    assert Pow10(11) == 100_000_000_000 && Pow10(12) == 1_000_000_000_000;
    if d <= 11 { Pow10Monotone(d, 11); } else { Pow10Monotone(12, d); }
  }

  /**
    edflib_get_long_time. `peak` is the largest magnitude computed on the way, the weight after the last
    integer digit, which is not used; it stays in 64 bits exactly for integer parts of at most 11 digits.
   */
  method GetLongTime(str: Text) returns (value: int, ghost peak: int)
    requires str != [] && IsDecimal(str[1..])
    ensures value == LongTime(str)
    ensures peak == Pow10(DotPosition(str[1..])) * TIME_DIMENSION && -peak <= TimeValue(str) <= peak
    ensures peak <= MAX_LL <==> !Wide(str)
    ensures !Wide(str) ==> value == TimeValue(str)
  {
    var s := str[1..];
    var len, i, dot := |s|, 0, -1;
    while i < len && dot == -1
      invariant 0 <= i <= len
      invariant dot == -1 ==> forall j | 0 <= j < i :: s[j] != DOT
      invariant dot != -1 ==> 0 <= dot < len && s[dot] == DOT && forall j | 0 <= j < dot :: s[j] != DOT
      decreases len - i, dot == -1
    {
      if s[i] == DOT { dot := i; } else { i := i + 1; }
    }
    value := SumParts(s, dot);
    peak := Pow10(DotPosition(s)) * TIME_DIMENSION;
    PeakAbove(s);
    PeakFits(DotPosition(s));
    if str[0] == MINUS {
      WrapNegate(SecondsValue(s));
      value := Wrapped(-value);
    }
  }

  /** The digits before and after the dot, if there is one. */
  method SumParts(s: Text, dot: int) returns (value: int)
    requires IsDecimal(s) && dot == if DotPosition(s) < |s| then DotPosition(s) else -1
    ensures value == Wrapped(SecondsValue(s))
  {
    if dot == -1 {
      assert s[..|s|] == s;
      value := IntegerPart(s);
    } else {
      value := IntegerPart(s[..dot]);
      value := FractionPart(s[dot+1..], value, DecValue(s[..dot]) * TIME_DIMENSION);
    }
  }

  /** One place more, in arithmetic that wraps around. */
  lemma {:induction false} NextPlace(f: Text, k: nat, whole: int, value: int, radix: int)
    requires k < |f| && value == Wrapped(whole + FractionValue(f, k)) && radix == PlaceWeight(k)
    ensures Wrapped(value + (f[k] - ZERO) * radix) == Wrapped(whole + FractionValue(f, k + 1))
    ensures radix / 10 == PlaceWeight(k + 1)
  {
    WrapAdd(whole + FractionValue(f, k), (f[k] - ZERO) * PlaceWeight(k));
  }

  /** Decimal places are added until their weight is zero. */
  method FractionPart(f: Text, start: int, ghost whole: int) returns (value: int)
    requires AllDigits(f) && start == Wrapped(whole)
    ensures value == Wrapped(whole + FractionValue(f, |f|))
  {
    value := start;
    var radix := TIME_DIMENSION / 10;
    for k := 0 to |f|
      invariant radix == PlaceWeight(k)
      invariant value == Wrapped(whole + FractionValue(f, k))
    {
      NextPlace(f, k, whole, value, radix);
      value := Wrapped(value + (f[k] - ZERO) * radix);
      radix := radix / 10;
    }
  }

  lemma {:induction false} FractionBelow(f: Text, k: nat)
    requires AllDigits(f) && k <= |f|
    ensures 0 <= FractionValue(f, k) <= TIME_DIMENSION - PlaceTotal(k)
  {
    if k > 0 {
      FractionBelow(f, k - 1);
      PlaceStep(f[k-1] - ZERO, k - 1);
    }
  }

  /** No time is larger than the weight after its last integer digit. */
  lemma PeakAbove(s: Text)
    requires IsDecimal(s)
    ensures 0 <= SecondsValue(s) <= Pow10(DotPosition(s)) * TIME_DIMENSION
  {
    var d := DotPosition(s);
    DecValueBelow(s[..d]);
    WholeBelow(s[..d], Pow10(d) * TIME_DIMENSION);
    if d < |s| { FractionBelow(s[d+1..], |s| - d - 1); }
  }

  /** What is left below one second after k places: ten times the weight of the next place. */
  function PlaceTotal(k: nat): nat { 10 * PlaceWeight(k) }

  lemma PlaceStep(d: int, k: nat)
    requires 0 <= d <= 9
    ensures d * PlaceWeight(k) + PlaceTotal(k + 1) <= PlaceTotal(k)
    ensures d * PlaceWeight(k) >= 0
  {
    DivMod.TimesMonotone(d, 9, PlaceWeight(k));
    DivMod.TimesMonotone(0, d, PlaceWeight(k));
  }

  // ------------------------------------------------------------------ printed times parse back

  lemma PlaceIsPower(k: nat)
    requires k <= 6
    ensures PlaceWeight(k) == Pow10(6 - k)
  {
    PowLiterals();
    if k > 0 { PlaceIsPower(k - 1); }
  }

  lemma {:induction false} FractionIsValue(f: Text, k: nat)
    requires k <= |f| && k <= 7
    ensures FractionValue(f, k) == DecValue(f[..k]) * Pow10(7 - k)
  {
    if k > 0 {
      FractionIsValue(f, k - 1);
      PlaceIsPower(k - 1);
      assert f[..k][..k-1] == f[..k-1];
      var v, d, p := DecValue(f[..k-1]), f[k-1] - ZERO, Pow10(7 - k);
      DivMod.TimesTen(v, p);
      DivMod.Distribute(10 * v, d, p);
    }
  }

  /** A printed time: a sign, the whole seconds, and the decimal places if there are any. */
  function TimeText(whole: nat, places: Text): Text {
    [PLUS] + Fixed(whole, Width(whole, 0)) + if places == [] then [] else [DOT] + places
  }

  lemma DigitsHaveNoDot(s: Text)
    requires AllDigits(s)
    ensures DotPosition(s) == |s|
  {
  }

  lemma WidthFits(n: nat, minimum: nat, w: nat)
    requires n < Pow10(w) && minimum <= w && 1 <= w <= 19
    ensures Width(n, minimum) <= w && n < Pow10(Width(n, minimum))
  {
    SignificantBounds(n, w);
    SignificantBounds(n, Significant(n));
    Pow10Monotone(Significant(n), Width(n, minimum));
  }

  lemma DecimalShape(h: Text, places: Text)
    requires h != [] && AllDigits(h) && AllDigits(places)
    ensures IsDecimal(h)
    ensures places != [] ==> IsDecimal(h + [DOT] + places) && DotPosition(h + [DOT] + places) == |h|
  {
    if places != [] { DottedShape(h + [DOT] + places, |h|); }
  }

  lemma DottedShape(s: Text, d: nat)
    requires 0 < d < |s| - 1 && s[d] == DOT && forall i | 0 <= i < |s| && i != d :: IsDigit(s[i])
    ensures IsDecimal(s) && DotPosition(s) == d
  {
  }

  /** A printed time is a well-formed onset. */
  lemma TimeTextWellFormed(whole: nat, places: Text)
    requires AllDigits(places) && |places| <= 7 && whole <= MAX_LL
    ensures IsOnset(TimeText(whole, places)) && |TimeText(whole, places)| <= 21 + |places|
  {
    var h := Fixed(whole, Width(whole, 0));
    LongFits(whole);
    WidthFits(whole, 0, 19);
    DecimalShape(h, places);
    AfterSign(h, places);
  }

  lemma AfterSign(h: Text, places: Text)
    ensures ([PLUS] + h + [])[1..] == h
    ensures ([PLUS] + h + ([DOT] + places))[1..] == h + [DOT] + places
  {
  }

  /** The parser separates the digits before and after the dot. */
  lemma TimeValueParts(h: Text, places: Text)
    requires h != [] && AllDigits(h) && AllDigits(places)
    ensures TimeValue([PLUS] + h) == DecValue(h) * TIME_DIMENSION
    ensures places != [] ==>
      TimeValue([PLUS] + (h + [DOT] + places)) == DecValue(h) * TIME_DIMENSION + FractionValue(places, |places|)
  {
    DigitsHaveNoDot(h);
    assert ([PLUS] + h)[1..] == h && h[..|h|] == h;
    var s := h + [DOT] + places;
    assert ([PLUS] + s)[1..] == s && s[..|h|] == h && s[|h|+1..] == places;
    DecimalShape(h, places);
  }

  lemma PlacesValue(places: Text)
    requires AllDigits(places) && |places| <= 7
    ensures FractionValue(places, |places|) == DecValue(places) * Pow10(7 - |places|)
  {
    FractionIsValue(places, |places|);
    assert places[..|places|] == places;
  }

  lemma {:induction false} NoWeight(k: nat)
    requires k >= 7
    ensures PlaceWeight(k) == 0
  {
    if k == 7 {
      assert PlaceWeight(6) == PlaceWeight(5) / 10 && PlaceWeight(5) == PlaceWeight(4) / 10;
      assert PlaceWeight(4) == PlaceWeight(3) / 10 && PlaceWeight(3) == PlaceWeight(2) / 10;
    } else {
      NoWeight(k - 1);
    }
  }

  /** Only the first seven places count. */
  lemma {:induction false} PlacesCut(f: Text, k: nat)
    requires k <= |f|
    ensures FractionValue(f, k) == FractionValue(f[..Min(k, 7)], Min(k, 7))
  {
    if k > 0 {
      PlacesCut(f, k - 1);
      if k > 7 {
        NoWeight(k - 1);
      } else {
        FractionPrefix(f, k, k - 1);
      }
    }
  }

  lemma {:induction false} FractionPrefix(f: Text, n: nat, k: nat)
    requires k <= n <= |f|
    ensures FractionValue(f[..n], k) == FractionValue(f, k) == FractionValue(f[..k], k)
  {
    if k > 0 {
      FractionPrefix(f, n, k - 1);
      FractionPrefix(f, k, k - 1);
    }
  }

  /** The value of signed whole seconds. */
  lemma {:induction false} WholePart(c: int, h: Text)
    requires h != [] && AllDigits(h)
    ensures TimeValue([c] + h) == var v := DecValue(h) * 10_000_000; if c == 45 then -v else v
  {
    DigitsHaveNoDot(h);
    assert ([c] + h)[1..] == h && h[..|h|] == h;
  }

  /** The value of signed seconds with decimal places: places beyond the seventh are cut off. */
  lemma {:induction false} DottedParts(c: int, h: Text, places: Text)
    requires h != [] && AllDigits(h) && places != [] && AllDigits(places)
    ensures var n := Min(|places|, 7);
            var t := DecValue(h) * 10_000_000 + DecValue(places[..n]) * Pow10(7 - n);
            TimeValue([c] + (h + [46] + places)) == if c == 45 then -t else t
  {
    var s := h + [DOT] + places;
    assert ([c] + s)[1..] == s && s[..|h|] == h && s[|h|+1..] == places;
    DecimalShape(h, places);
    PlacesCut(places, |places|);
    PlacesValue(places[..Min(|places|, 7)]);
  }

  lemma {:induction false} DigitsExample()
    ensures DecValue([49, 50, 48]) == 120
  {
    assert [49, 50, 48][..2] == [49, 50] && [49, 50][..1] == [49] && [49][..0] == [];
    assert DecValue([49]) == 1 && DecValue([49, 50]) == 12;
  }

  /** A decimal number is one group of digits, or two with a dot between them. */
  lemma DecimalExactly(s: Text)
    ensures IsDecimal(s) <==>
      (s != [] && Digits(s)) ||
      exists d :: 0 < d < |s| - 1 && s[d] == 46 && Digits(s[..d]) && Digits(s[d+1..])
  {
    if IsDecimal(s) && !Digits(s) {
      var d :| 0 <= d < |s| && s[d] == DOT;
      assert Digits(s[..d]) && Digits(s[d+1..]);
    }
    if d :| 0 < d < |s| - 1 && s[d] == 46 && Digits(s[..d]) && Digits(s[d+1..]) {
      DottedDigits(s, d);
      DottedShape(s, d);
    }
  }

  predicate Digits(s: Text) { forall i | 0 <= i < |s| :: 48 <= s[i] <= 57 }

  lemma DottedDigits(s: Text, d: nat)
    requires 0 < d < |s| - 1 && Digits(s[..d]) && Digits(s[d+1..])
    ensures forall i | 0 <= i < |s| && i != d :: IsDigit(s[i])
  {
    forall i | 0 <= i < |s| && i != d ensures IsDigit(s[i]) {
      if i < d { assert s[i] == s[..d][i]; } else { assert s[i] == s[d+1..][i-d-1]; }
    }
  }

  /** A printed time without decimal places parses back to its value in 100 ns units. */
  lemma WholeTimeParses(whole: nat)
    requires whole <= MAX_LL
    ensures TimeValue(TimeText(whole, [])) == whole * TIME_DIMENSION
  {
    WholeDigits(whole);
    var h := Fixed(whole, Width(whole, 0));
    TimeValueParts(h, []);
    assert TimeText(whole, []) == [PLUS] + h;
  }

  lemma PartsParse(h: Text, places: Text, rest: int)
    requires h != [] && AllDigits(h) && AllDigits(places) && 0 < |places| <= 7
    requires rest == DecValue(places) * Pow10(7 - |places|)
    ensures TimeValue([PLUS] + (h + [DOT] + places)) == DecValue(h) * TIME_DIMENSION + rest
  {
    TimeValueParts(h, places);
    PlacesValue(places);
  }

  /** A printed time with decimal places parses back to its value in 100 ns units. */
  lemma TimeParses(whole: nat, places: Text, rest: nat)
    requires AllDigits(places) && 0 < |places| <= 7 && whole <= MAX_LL
    requires rest == DecValue(places) * Pow10(7 - |places|)
    ensures TimeValue(TimeText(whole, places)) == whole * TIME_DIMENSION + rest
  {
    WholeDigits(whole);
    var h := Fixed(whole, Width(whole, 0));
    PartsParse(h, places, rest);
    assert TimeText(whole, places) == [PLUS] + (h + [DOT] + places);
  }

  lemma WholeDigits(whole: nat)
    requires whole <= MAX_LL
    ensures DecValue(Fixed(whole, Width(whole, 0))) == whole && Width(whole, 0) <= 19
  {
    LongFits(whole);
    WidthFits(whole, 0, 19);
    FixedValue(whole, Width(whole, 0));
  }

  /** A printed time is too wide for the parser's 64 bits exactly from 10^11 s on. */
  lemma WideTime(whole: nat, places: Text)
    requires AllDigits(places) && whole <= MAX_LL
    ensures TimeText(whole, places) != [] && (Wide(TimeText(whole, places)) <==> whole >= 100_000_000_000)
  {
    PowLiterals();
    assert Pow10(10) == 10_000_000_000;
    var h := Fixed(whole, Width(whole, 0));
    AfterSign(h, places);
    DecimalShape(h, places);
    DigitsHaveNoDot(h);
    SignificantBounds(whole, 11);
  }

  /** The time stamp of a data record, for a time in 100 ns units (section 2.2.4 of the EDF+ specification). */
  function StampText(t: nat, fraction: bool): Text {
    Printed(t / TIME_DIMENSION, 0, true) +
    if fraction then [DOT] + Printed(t % TIME_DIMENSION, 7, false) else []
  }

  lemma PaddedDigits(n: nat, w: nat)
    requires 1 <= w <= 19 && n < Pow10(w)
    ensures Printed(n, w, false) == Fixed(n, w) && DecValue(Fixed(n, w)) == n
  {
    WidthFits(n, w, w);
    FixedValue(n, w);
  }

  /** Every stamp parses back exactly, with or without the seven-digit fraction. */
  lemma StampRoundTrip(t: nat, fraction: bool)
    requires t <= MAX_LL && (fraction || t % TIME_DIMENSION == 0)
    ensures IsOnset(StampText(t, fraction)) && TimeValue(StampText(t, fraction)) == t
    ensures |StampText(t, fraction)| <= 28
    ensures Wide(StampText(t, fraction)) <==> t >= 1_000_000_000_000_000_000
  {
    PowLiterals();
    var whole, rest := t / TIME_DIMENSION, t % TIME_DIMENSION;
    var places := if fraction then Fixed(rest, 7) else [];
    PaddedDigits(rest, 7);
    TimeTextWellFormed(whole, places);
    WideTime(whole, places);
    if fraction {
      assert Pow10(0) == 1;
      TimeParses(whole, places, rest);
    } else {
      WholeTimeParses(whole);
    }
    assert StampText(t, fraction) == TimeText(whole, places);
  }

  /** An annotation onset, for a time in units of 100 microseconds. */
  function OnsetText(onset: nat): Text {
    Printed(onset / 10000, 0, true) +
    if onset % 10000 != 0 then [DOT] + Printed(onset % 10000, 4, false) else []
  }

  /** Every onset parses back as the same time in units of 100 ns. */
  lemma OnsetRoundTrip(onset: nat)
    requires onset <= MAX_LL
    ensures IsOnset(OnsetText(onset)) && TimeValue(OnsetText(onset)) == onset * 1000
    ensures |OnsetText(onset)| <= 25
    ensures Wide(OnsetText(onset)) <==> onset >= 1_000_000_000_000_000
  {
    PowLiterals();
    assert Pow10(3) == 1000;
    var whole, rest := onset / 10000, onset % 10000;
    var places := if rest != 0 then Fixed(rest, 4) else [];
    PaddedDigits(rest, 4);
    TimeTextWellFormed(whole, places);
    WideTime(whole, places);
    if rest != 0 {
      TimeParses(whole, places, rest * 1000);
    } else {
      WholeTimeParses(whole);
    }
    assert OnsetText(onset) == TimeText(whole, places);
  }

  /** A stamp has no decimal places, or seven of them; an onset has none exactly at whole seconds, or else four. */
  lemma TimeForms(t: nat, onset: nat)
    requires t <= MAX_LL && onset <= MAX_LL
    ensures AllDigits(StampText(t, false)[1..])
    ensures var s := StampText(t, true); |s| > 8 && s[|s|-8] == 46
    ensures AllDigits(OnsetText(onset)[1..]) <==> onset % 10000 == 0
    ensures var s := OnsetText(onset); onset % 10000 != 0 ==> |s| > 5 && s[|s|-5] == 46
  {
    PowLiterals();
    PaddedDigits(t % TIME_DIMENSION, 7);
    PaddedDigits(onset % 10000, 4);
    if onset % 10000 != 0 {
      var s := OnsetText(onset);
      assert s[1..][|s|-6] == 46;
    }
  }

  /** An annotation duration, for a time in units of 100 microseconds; no sign is printed. */
  function DurationText(duration: nat): Text {
    Printed(duration / 10000, 0, false) +
    if duration % 10000 != 0 then [DOT] + Printed(duration % 10000, 4, false) else []
  }

  lemma DurationWellFormed(duration: nat)
    requires duration <= MAX_LL
    ensures IsDecimal(DurationText(duration)) && |DurationText(duration)| <= 24
    ensures [PLUS] + DurationText(duration) == OnsetText(duration)
  {
    OnsetRoundTrip(duration);
    assert [PLUS] + DurationText(duration) == OnsetText(duration);
    assert OnsetText(duration)[1..] == DurationText(duration);
  }

  /** The reader keeps 15 characters of a duration: all of them for whole seconds, or below 10^10 s. */
  lemma DurationLength(duration: nat)
    requires duration <= MAX_LL
    ensures |DurationText(duration)| <= 15 <==> duration % 10_000 == 0 || duration < 100_000_000_000_000
  {
    PowLiterals();
    assert Pow10(10) == 10_000_000_000;
    assert Pow10(15) == 1_000_000_000_000_000;
    var whole := duration / 10_000;
    SignificantBounds(whole, 10);
    SignificantBounds(whole, 15);
    PaddedDigits(duration % 10_000, 4);
  }

  /** An onset reads back exactly up to the largest one whose time in 100 ns has 64 bits. */
  lemma OnsetFits(onset: nat)
    requires onset <= MAX_LL
    ensures OnsetText(onset) != [] && LongTime(OnsetText(onset)) == Wrapped(onset * 1000)
    ensures LongTime(OnsetText(onset)) == onset * 1000 <==> onset <= MAX_EXACT_ONSET
  {
    OnsetRoundTrip(onset);
  }

  /** In units of 100 microseconds. */
  const MAX_EXACT_ONSET := 9_223_372_036_854_775

  /** Every record time that has 64 bits reads back exactly. */
  lemma RecordTimeFits(k: nat, recordDuration: nat)
    requires RecordTime(k, recordDuration) <= MAX_LL
    ensures RecordStamp(k, recordDuration) != []
    ensures LongTime(RecordStamp(k, recordDuration)) == RecordTime(k, recordDuration)
  {
    RecordStampReadsBack(k, recordDuration);
  }

  /** The largest onset that can be queued is written in full and reads back as a negative time. */
  lemma OverflowExample()
    ensures Wide(OnsetText(MAX_LL)) && LongTime(OnsetText(MAX_LL)) == -1000
  {
    OnsetRoundTrip(MAX_LL);
    OnsetFits(MAX_LL);
    LargestWraps();
  }

  lemma LargestWraps()
    ensures Wrapped(MAX_LL * 1000) == -1000
  {
    WrapShift(-1000, 500);
    assert MAX_LL * 1000 == -1000 + 500 * TWO64;
  }

  /** The time of record k: the durations of the records before it. */
  function RecordTime(k: nat, recordDuration: nat): nat {
    if k == 0 then 0 else RecordTime(k - 1, recordDuration) + recordDuration
  }

  lemma {:induction false} RecordTimeProduct(k: nat, recordDuration: nat)
    ensures RecordTime(k, recordDuration) == k * recordDuration
  {
    if k > 0 {
      RecordTimeProduct(k - 1, recordDuration);
      DivMod.Distribute(k - 1, 1, recordDuration);
    }
  }

  function RecordStamp(k: nat, recordDuration: nat): Text {
    StampText(RecordTime(k, recordDuration), recordDuration % TIME_DIMENSION != 0)
  }

  /** Stamps have decimal places exactly if the record duration is not whole seconds. */
  lemma {:induction false} StampPlaces(k: nat, recordDuration: nat)
    requires RecordTime(k, recordDuration) <= MAX_LL
    ensures 46 in RecordStamp(k, recordDuration) <==> recordDuration % 10_000_000 != 0
  {
    var t := RecordTime(k, recordDuration);
    TimeForms(t, 0);
    var s := StampText(t, recordDuration % TIME_DIMENSION != 0);
    assert s[0] == PLUS;
    if recordDuration % TIME_DIMENSION == 0 {
      forall i | 0 <= i < |s| ensures s[i] != DOT {
        if i > 0 { assert s[i] == s[1..][i-1]; }
      }
    }
  }

  /** Record k's stamp reads back as k times the record duration, so consecutive stamps are one duration apart. */
  lemma RecordStampReadsBack(k: nat, recordDuration: nat)
    requires RecordTime(k, recordDuration) <= MAX_LL
    ensures IsOnset(RecordStamp(k, recordDuration)) && |RecordStamp(k, recordDuration)| <= 28
    ensures TimeValue(RecordStamp(k, recordDuration)) == RecordTime(k, recordDuration) == k * recordDuration
    ensures Wide(RecordStamp(k, recordDuration)) <==> RecordTime(k, recordDuration) >= 1_000_000_000_000_000_000
  {
    RecordTimeProduct(k, recordDuration);
    if recordDuration % TIME_DIMENSION == 0 { WholeSeconds(k, recordDuration / TIME_DIMENSION); }
    StampRoundTrip(RecordTime(k, recordDuration), recordDuration % TIME_DIMENSION != 0);
  }

  lemma WholeSeconds(k: nat, s: nat)
    ensures (k * (s * TIME_DIMENSION)) % TIME_DIMENSION == 0
  {
    assert k * (s * TIME_DIMENSION) == (k * s) * TIME_DIMENSION;
    DivMod.Unique(k * (s * TIME_DIMENSION), TIME_DIMENSION, k * s, 0);
  }

  lemma StampsContinuous(k: nat, recordDuration: nat)
    requires RecordTime(k + 1, recordDuration) <= MAX_LL
    ensures TimeValue(RecordStamp(k + 1, recordDuration)) - TimeValue(RecordStamp(k, recordDuration)) == recordDuration
  {
    RecordStampReadsBack(k, recordDuration);
    RecordStampReadsBack(k + 1, recordDuration);
  }
}
