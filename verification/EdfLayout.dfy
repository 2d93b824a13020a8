/**
  The byte layout of an EDF+/BDF+ file: after the header, each data record holds the samples of
  every signal and then one annotation signal. Samples are little-endian, 2 bytes (EDF) or 3 (BDF).
 */
module EdfLayout {
  import DivMod
  import opened EdfNumbers
  import EdfTal

  /** Samples per record, and the smallest and largest digital code. */
  datatype Signal = Signal(samples: nat, digMin: int, digMax: int)

  /** Rounds of writes: record, signal, sample. */
  type Round = seq<seq<int>>

  /** Byte b of a code, lowest first. */
  function ByteOf(value: int, b: nat): int
    decreases b
  {
    if b == 0 then value % 256 else ByteOf(value / 256, b - 1)
  }

  /** Two bytes as a signed 16-bit number, or three bytes with the sign extended to 32 bits. */
  function Decode(b0: int, b1: int, b2: int, bdf: bool): int {
    if bdf then (if b2 >= 128 then b0 + 256 * b1 + 65_536 * b2 - 16_777_216 else b0 + 256 * b1 + 65_536 * b2)
    else if b1 >= 128 then b0 + 256 * b1 - 65_536 else b0 + 256 * b1
  }

  predicate InRange(value: int, bdf: bool) {
    if bdf then -8_388_608 <= value < 8_388_608 else -32_768 <= value < 32_768
  }

  /** The lower two bytes of a code, and what is above them. */
  lemma LowerBytes(value: int)
    ensures 0 <= ByteOf(value, 0) < 256 && 0 <= ByteOf(value, 1) < 256
    ensures value == ByteOf(value, 0) + 256 * ByteOf(value, 1) + 65_536 * (value / 256 / 256)
    ensures ByteOf(value, 2) == (value / 256 / 256) % 256
  {
    var q := value / 256;
    assert ByteOf(value, 1) == ByteOf(q, 0) == q % 256;
    assert ByteOf(value, 2) == ByteOf(q, 1) == ByteOf(q / 256, 0);
    assert value == 256 * q + value % 256 && q == 256 * (q / 256) + q % 256;
  }

  /** A code survives being stored exactly when it fits the sample width. */
  lemma CodeRoundTrip(value: int, bdf: bool)
    ensures Decode(ByteOf(value, 0), ByteOf(value, 1), ByteOf(value, 2), bdf) == value <==> InRange(value, bdf)
  {
    LowerBytes(value);
    ThirdByte(value / 256 / 256);
  }

  lemma ThirdByte(q: int)
    ensures 0 <= q % 256 < 256
    ensures q == q % 256 <==> 0 <= q < 256
    ensures q == q % 256 - 256 <==> -256 <= q < 0
  {
  }

  function Clamp(value: int, s: Signal): int {
    var v := if value > s.digMax then s.digMax else value;
    if v < s.digMin then s.digMin else v
  }

  /** A code within the digital range is stored as it is, any other one as the end of the range it exceeds. */
  lemma ClampExactly(value: int, s: Signal)
    ensures s.digMin <= value <= s.digMax ==> Clamp(value, s) == value
    ensures s.digMin <= s.digMax < value ==> Clamp(value, s) == s.digMax
    ensures value < s.digMin ==> Clamp(value, s) == s.digMin
    ensures s.digMax < s.digMin ==> Clamp(value, s) == s.digMin
  {
  }

  /** The samples that a record holds before signal c. */
  function SamplesBefore(signals: seq<Signal>, c: nat): nat
    requires c <= |signals|
  {
    if c == 0 then 0 else SamplesBefore(signals, c - 1) + signals[c-1].samples
  }

  datatype Layout = Layout(header: nat, signals: seq<Signal>, bdf: bool) {
    predicate Valid() {
      forall c | 0 <= c < |signals| ::
        signals[c].samples > 0 && InRange(signals[c].digMin, bdf) && InRange(signals[c].digMax, bdf)
    }

    function Bytes(n: nat): nat { if bdf then 3 * n else 2 * n }

    /** Where a signal starts within a record; the annotation signal comes last. */
    function BufOffset(c: nat): nat
      requires c <= |signals|
    {
      if c == 0 then 0 else BufOffset(c - 1) + Bytes(signals[c-1].samples)
    }

    function RecordSize(): nat { BufOffset(|signals|) + EdfTal.ANNOTATION_BYTES }

    /** Where record r starts: after the records before it. */
    function RecordStart(r: nat): nat {
      if r == 0 then header else RecordStart(r - 1) + RecordSize()
    }

    function Start(r: nat, c: nat): nat
      requires c <= |signals|
    {
      RecordStart(r) + BufOffset(c)
    }

    /** The direct formula for sample k of a channel. */
    function Offset(c: nat, k: nat): nat
      requires c < |signals| && signals[c].samples > 0
    {
      DivMod.QuotientAtLeast(k, signals[c].samples, 0);
      Start(k / signals[c].samples, c) + Bytes(k % signals[c].samples)
    }
  }

  lemma {:induction false} RecordStartProduct(l: Layout, r: nat)
    ensures l.RecordStart(r) == l.header + r * l.RecordSize()
  {
    if r > 0 {
      RecordStartProduct(l, r - 1);
      DivMod.Distribute(r - 1, 1, l.RecordSize());
    }
  }

  /** Within a record the signals follow each other in their order, then 114 bytes of annotations. */
  lemma {:induction false} BufOffsetSum(l: Layout, c: nat)
    requires c <= |l.signals|
    ensures l.BufOffset(c) == if l.bdf then 3 * SamplesBefore(l.signals, c) else 2 * SamplesBefore(l.signals, c)
    ensures l.RecordSize() == l.BufOffset(|l.signals|) + 114
  {
    if c > 0 { BufOffsetSum(l, c - 1); }
  }

  lemma {:induction false} BufOffsetGrows(l: Layout, c: nat, d: nat)
    requires c <= d <= |l.signals|
    ensures l.BufOffset(c) <= l.BufOffset(d)
  {
    if c < d { BufOffsetGrows(l, c, d - 1); }
  }

  lemma {:induction false} RecordStartGrows(l: Layout, r: nat, q: nat)
    requires r <= q
    ensures l.RecordStart(r) <= l.RecordStart(q)
  {
    if r < q { RecordStartGrows(l, r, q - 1); }
  }

  /** Samples of one signal lie before the next signal, and every record before the next record. */
  lemma Ordered(l: Layout, r: nat, c: nat, q: nat)
    requires c < |l.signals| && r < q
    ensures l.Start(r, c) + l.Bytes(l.signals[c].samples) == l.Start(r, c + 1) <= l.Start(r, |l.signals|)
    ensures l.Start(r, |l.signals|) + EdfTal.ANNOTATION_BYTES == l.RecordStart(r + 1) <= l.RecordStart(q)
  {
    BufOffsetGrows(l, c + 1, |l.signals|);
    RecordStartGrows(l, r + 1, q);
  }

  /** The annotation signal ends a record, before the next record. */
  lemma RecordOrdered(l: Layout, r: nat, q: nat)
    requires r < q
    ensures l.RecordStart(r) <= l.Start(r, |l.signals|)
    ensures l.Start(r, |l.signals|) + EdfTal.ANNOTATION_BYTES == l.RecordStart(r + 1) <= l.RecordStart(q)
  {
    RecordStartGrows(l, r + 1, q);
  }

  // ------------------------------------------------------------------ what a file holds

  /** The stored sample at position p. */
  predicate SampleHeld(file: Text, p: nat, value: int, bdf: bool) {
    && p + (if bdf then 3 else 2) <= |file|
    && file[p] == ByteOf(value, 0) && file[p+1] == ByteOf(value, 1) && (bdf ==> file[p+2] == ByteOf(value, 2))
  }

  /** All samples of one write: record r, signal c. */
  ghost predicate BufferHeld(file: Text, l: Layout, r: nat, c: nat, buf: seq<int>) {
    && c < |l.signals| && |buf| >= l.signals[c].samples
    && forall i: nat | i < l.signals[c].samples ::
        SampleHeld(file, l.Start(r, c) + l.Bytes(i), Clamp(buf[i], l.signals[c]), l.bdf)
  }

  ghost predicate RoundHeld(file: Text, l: Layout, r: nat, round: Round) {
    |round| == |l.signals| && forall c: nat | c < |round| :: BufferHeld(file, l, r, c, round[c])
  }

  ghost predicate SlotHeld(file: Text, l: Layout, r: nat, tal: Text) {
    var p := l.Start(r, |l.signals|);
    |tal| == EdfTal.ANNOTATION_BYTES && p + |tal| <= |file| && file[p..p+|tal|] == tal
  }

  lemma BufferGrows(f: Text, g: Text, l: Layout, r: nat, c: nat, buf: seq<int>)
    requires f <= g && BufferHeld(f, l, r, c, buf)
    ensures BufferHeld(g, l, r, c, buf)
  {
    forall i: nat | i < l.signals[c].samples
      ensures SampleHeld(g, l.Start(r, c) + l.Bytes(i), Clamp(buf[i], l.signals[c]), l.bdf)
    {
      assert SampleHeld(f, l.Start(r, c) + l.Bytes(i), Clamp(buf[i], l.signals[c]), l.bdf);
    }
  }

  lemma RoundGrows(f: Text, g: Text, l: Layout, r: nat, round: Round)
    requires f <= g && RoundHeld(f, l, r, round)
    ensures RoundHeld(g, l, r, round)
  {
    forall c: nat | c < |round| ensures BufferHeld(g, l, r, c, round[c]) {
      BufferGrows(f, g, l, r, c, round[c]);
    }
  }

  lemma SlotGrows(f: Text, g: Text, l: Layout, r: nat, tal: Text)
    requires f <= g && SlotHeld(f, l, r, tal)
    ensures SlotHeld(g, l, r, tal)
  {
    var p := l.Start(r, |l.signals|);
    assert g[p..p+|tal|] == f[p..p+|tal|];
  }

  /** The sample stored at position p, as the reader decodes it. */
  function DecodeAt(file: Text, p: nat, bdf: bool): int
    requires p + (if bdf then 3 else 2) <= |file|
  {
    Decode(file[p], file[p+1], if bdf then file[p+2] else 0, bdf)
  }

  lemma HeldDecodes(file: Text, p: nat, value: int, bdf: bool)
    requires SampleHeld(file, p, value, bdf) && InRange(value, bdf)
    ensures DecodeAt(file, p, bdf) == value
  {
    CodeRoundTrip(value, bdf);
  }

  /** The bytes of every sample of the first `records` records lie in the file. */
  lemma OffsetInFile(l: Layout, c: nat, k: nat, records: nat)
    requires l.Valid() && c < |l.signals| && k < l.signals[c].samples * records
    ensures l.Offset(c, k) + (if l.bdf then 3 else 2) <= l.RecordStart(records)
    ensures 0 <= k / l.signals[c].samples < records
  {
    var s := l.signals[c].samples;
    DivMod.QuotientBelow(k, s, records);
    Ordered(l, k / s, c, records);
  }

  /** The next sample follows directly, or after the rest of the record and the front of the next one. */
  lemma OffsetStep(l: Layout, c: nat, k: nat)
    requires l.Valid() && c < |l.signals|
    ensures var s := l.signals[c].samples;
            l.Offset(c, k + 1) == l.Offset(c, k) + l.Bytes(1) +
              if (k + 1) % s == 0 then l.RecordSize() - l.Bytes(s) else 0
  {
    var s := l.signals[c].samples;
    DivMod.QuotientAtLeast(k, s, 0);
    DivMod.NextQuotient(k, s);
    if (k + 1) % s == 0 { Ordered(l, k / s, c, k / s + 1); }
  }
}
