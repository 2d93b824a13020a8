/**
  Writing and reading digital samples: edfwrite_digital_samples writes one signal of one record
  per call, edfclose_file rewrites the annotation signals, edfread_digital_samples reads a stretch
  of one channel from any position.
 */
module EdfFile {
  import DivMod
  import opened EdfNumbers
  import EdfTal
  import EdfAnnotations
  import opened EdfLayout

  class Writer {
    const layout: Layout
    const recordDuration: nat
    const header: Text
    /** What writing the header returns; its checks are those of the given layout. */
    const headerCode: int
    var file: Text
    var sequencePos: nat
    var datarecords: nat
    /** The buffers of the complete records and those of the record being written. */
    ghost var rounds: seq<Round>
    ghost var partial: Round

    ghost predicate Valid()
      reads this
    {
      && layout.Valid() && |header| == layout.header
      && |rounds| == datarecords && |partial| == sequencePos
      && (layout.signals == [] ==> !Started(rounds, partial))
      && (layout.signals != [] ==> sequencePos < |layout.signals|)
      && Written(file, layout, recordDuration, rounds, partial)
      && (Started(rounds, partial) ==> header <= file && |file| == layout.Start(datarecords, sequencePos))
      && (!Started(rounds, partial) ==> file == [])
    }

    constructor (layout: Layout, recordDuration: nat, header: Text, headerCode: int)
      requires layout.Valid() && |header| == layout.header
      ensures Valid() && rounds == [] && partial == []
      ensures this.layout == layout && this.recordDuration == recordDuration
      ensures this.header == header && this.headerCode == headerCode
    {
      this.layout, this.recordDuration, this.header, this.headerCode := layout, recordDuration, header, headerCode;
      file, sequencePos, datarecords := [], 0, 0;
      rounds, partial := [], [];
    }

    /** The time-keeping annotation that ends a record. */
    method FinishRecord(start: Text) returns (f: Text)
      requires layout.Valid() && |start| == layout.Start(datarecords, |layout.signals|)
      requires RecordTime(datarecords, recordDuration) <= MAX_LL
      ensures start <= f && |f| == layout.RecordStart(datarecords + 1)
      ensures SlotHeld(f, layout, datarecords, EdfTal.PlainTal(datarecords, recordDuration))
    {
      var stamp := EdfTal.TimeStamp(datarecords, recordDuration);
      EdfTal.KeepingFits(datarecords, recordDuration);
      var tal := EdfTal.FillZeros(stamp + [EdfTal.SEP, EdfTal.SEP]);
      f := start + tal;
    }

    /** What edfwrite_digital_samples returns: an error without signals, or if the header is refused at the start. */
    ghost function WriteCode(): int
      reads this
    {
      if layout.signals == [] then -1 else if !Started(rounds, partial) then headerCode else 0
    }

    /** The samples of the next signal in turn, behind the bytes written so far. */
    method WriteSignal(start: Text, buf: seq<int>)
      requires Valid() && sequencePos < |layout.signals| && |buf| >= layout.signals[sequencePos].samples
      requires RecordTime(datarecords, recordDuration) <= MAX_LL
      requires start == if Started(rounds, partial) then file else header
      modifies this
      ensures Valid()
      ensures |old(partial)| + 1 == |layout.signals| ==> rounds == old(rounds) + [old(partial) + [buf]] && partial == []
      ensures |old(partial)| + 1 < |layout.signals| ==> rounds == old(rounds) && partial == old(partial) + [buf]
    {
      var f := PutSamples(start, layout, datarecords, sequencePos, buf);
      WrittenGrows(file, f, layout, recordDuration, rounds, partial);
      if sequencePos + 1 == |layout.signals| {
        var g := FinishRecord(f);
        RoundComplete(f, g, layout, recordDuration, rounds, partial, buf);
        file := g;
        rounds, partial := rounds + [partial + [buf]], [];
        sequencePos, datarecords := 0, datarecords + 1;
      } else {
        file := f;
        partial := partial + [buf];
        sequencePos := sequencePos + 1;
      }
    }

    /** edfwrite_digital_samples */
    method WriteDigital(buf: seq<int>) returns (code: int)
      requires Valid() && (sequencePos < |layout.signals| ==> |buf| >= layout.signals[sequencePos].samples)
      requires RecordTime(datarecords, recordDuration) <= MAX_LL
      modifies this
      ensures Valid() && code == old(WriteCode())
      ensures code != 0 ==> rounds == old(rounds) && partial == old(partial)
      ensures code == 0 && |old(partial)| + 1 == |layout.signals| ==>
        rounds == old(rounds) + [old(partial) + [buf]] && partial == []
      ensures code == 0 && |old(partial)| + 1 < |layout.signals| ==>
        rounds == old(rounds) && partial == old(partial) + [buf]
    {
      if |layout.signals| == 0 { return -1; }
      var start := file;
      if datarecords == 0 && sequencePos == 0 {
        if headerCode != 0 { return headerCode; }
        start := header;
      }
      WriteSignal(start, buf);
      return 0;
    }
  }

  predicate Started(rounds: seq<Round>, partial: Round) { rounds != [] || partial != [] }

  /** A complete record of a file that is being written. */
  ghost predicate RecordHeld(file: Text, l: Layout, d: nat, r: nat, round: Round) {
    RoundHeld(file, l, r, round) && SlotHeld(file, l, r, EdfTal.PlainTal(r, d))
  }

  /** All complete records, and the signals of the record being written. */
  ghost predicate Written(file: Text, l: Layout, d: nat, rounds: seq<Round>, partial: Round) {
    && (forall r: nat | r < |rounds| :: RecordHeld(file, l, d, r, rounds[r]))
    && (forall c: nat | c < |partial| :: BufferHeld(file, l, |rounds|, c, partial[c]))
  }

  /** Appending keeps all that was written. */
  lemma WrittenGrows(f: Text, g: Text, l: Layout, d: nat, rounds: seq<Round>, partial: Round)
    requires Written(f, l, d, rounds, partial) && (Started(rounds, partial) ==> f <= g)
    ensures Written(g, l, d, rounds, partial)
  {
    if Started(rounds, partial) {
      forall r: nat | r < |rounds| ensures RecordHeld(g, l, d, r, rounds[r]) {
        RoundGrows(f, g, l, r, rounds[r]);
        SlotGrows(f, g, l, r, EdfTal.PlainTal(r, d));
      }
      forall c: nat | c < |partial| ensures BufferHeld(g, l, |rounds|, c, partial[c]) {
        BufferGrows(f, g, l, |rounds|, c, partial[c]);
      }
    }
  }

  lemma RoundComplete(f: Text, g: Text, l: Layout, d: nat, rounds: seq<Round>, partial: Round, buf: seq<int>)
    requires Written(f, l, d, rounds, partial) && f <= g && |partial| + 1 == |l.signals|
    requires BufferHeld(f, l, |rounds|, |partial|, buf) && SlotHeld(g, l, |rounds|, EdfTal.PlainTal(|rounds|, d))
    ensures Written(g, l, d, rounds + [partial + [buf]], [])
  {
    var all, round := rounds + [partial + [buf]], partial + [buf];
    WrittenGrows(f, g, l, d, rounds, partial);
    forall c: nat | c < |round| ensures BufferHeld(g, l, |rounds|, c, round[c]) {
      BufferGrows(f, g, l, |rounds|, c, round[c]);
    }
    forall r: nat | r < |all| ensures RecordHeld(g, l, d, r, all[r]) {
      assert r < |rounds| ==> RecordHeld(g, l, d, r, rounds[r]);
    }
  }

  /** The bytes of one sample, lowest first. */
  function SampleBytes(value: int, bdf: bool): Text {
    [value % 256, (value / 256) % 256] + if bdf then [(value / 65_536) % 256] else []
  }

  lemma AppendSample(file: Text, value: int, bdf: bool)
    ensures SampleHeld(file + SampleBytes(value, bdf), |file|, value, bdf)
    ensures |file + SampleBytes(value, bdf)| == |file| + if bdf then 3 else 2
  {
    assert ByteOf(value, 1) == ByteOf(value / 256, 0);
    assert ByteOf(value, 2) == ByteOf(value / 256, 1) == ByteOf(value / 256 / 256, 0);
  }

  lemma SampleGrows(f: Text, g: Text, p: nat, value: int, bdf: bool)
    requires f <= g && SampleHeld(f, p, value, bdf)
    ensures SampleHeld(g, p, value, bdf)
  {
  }

  /** The loop over one buffer: each sample is limited to the digital range and appended. */
  method PutSamples(start: Text, l: Layout, r: nat, c: nat, buf: seq<int>) returns (f: Text)
    requires c < |l.signals| && |start| == l.Start(r, c) && |buf| >= l.signals[c].samples
    ensures start <= f && |f| == l.Start(r, c + 1)
    ensures BufferHeld(f, l, r, c, buf)
  {
    f := start;
    var s := l.signals[c];
    for i := 0 to s.samples
      invariant start <= f && |f| == l.Start(r, c) + l.Bytes(i)
      invariant forall j: nat | j < i :: SampleHeld(f, l.Start(r, c) + l.Bytes(j), Clamp(buf[j], s), l.bdf)
    {
      var value := buf[i];
      if value > s.digMax { value := s.digMax; }
      if value < s.digMin { value := s.digMin; }
      ghost var before := f;
      f := f + SampleBytes(value, l.bdf);
      AppendSample(before, value, l.bdf);
      forall j: nat | j < i ensures SampleHeld(f, l.Start(r, c) + l.Bytes(j), Clamp(buf[j], s), l.bdf) {
        SampleGrows(before, f, l.Start(r, c) + l.Bytes(j), Clamp(buf[j], s), l.bdf);
      }
    }
  }

  // ------------------------------------------------------------------ closing

  /** The file with the bytes t at position p; a gap before p reads as zeros. */
  function WriteAt(file: Text, p: nat, t: Text): (g: Text)
    ensures |g| == Max(|file|, p + |t|) && g[p..p+|t|] == t
    ensures forall j | 0 <= j < |file| && !(p <= j < p + |t|) :: g[j] == file[j]
  {
    if p >= |file| then file + EdfTal.Zeros(p - |file|) + t
    else file[..p] + t + if p + |t| < |file| then file[p+|t|..] else []
  }

  lemma SlotApart(l: Layout, k: nat, r: nat)
    ensures r < k ==> l.RecordStart(r + 1) <= l.Start(k, 0)
    ensures r > k ==> l.RecordStart(k + 1) <= l.Start(r, 0)
    ensures l.Start(r, 0) <= l.Start(r, |l.signals|) <= l.RecordStart(r + 1)
    ensures l.Start(r, |l.signals|) + EdfTal.ANNOTATION_BYTES == l.RecordStart(r + 1)
  {
    RecordOrdered(l, r, r + 1);
    if r < k { RecordOrdered(l, r, k); }
    if r > k { RecordOrdered(l, k, r); }
  }

  /** Writing the annotation signal of record k touches no other annotation signal. */
  lemma WriteKeepsSlot(f: Text, l: Layout, k: nat, tal: Text, r: nat, other: Text)
    requires |tal| == EdfTal.ANNOTATION_BYTES && r != k && SlotHeld(f, l, r, other)
    ensures SlotHeld(WriteAt(f, l.Start(k, |l.signals|), tal), l, r, other)
  {
    SlotApart(l, k, r);
    SlotApart(l, r, k);
  }

  /** Writing the annotation signal of a record touches no sample. */
  lemma WriteKeepsRound(f: Text, l: Layout, k: nat, tal: Text, r: nat, round: Round)
    requires |tal| == EdfTal.ANNOTATION_BYTES && RoundHeld(f, l, r, round)
    ensures RoundHeld(WriteAt(f, l.Start(k, |l.signals|), tal), l, r, round)
  {
    forall c: nat | c < |round| ensures BufferHeld(WriteAt(f, l.Start(k, |l.signals|), tal), l, r, c, round[c]) {
      WriteKeepsBuffer(f, l, k, tal, r, c, round[c]);
    }
  }

  lemma WriteKeepsBuffer(f: Text, l: Layout, k: nat, tal: Text, r: nat, c: nat, buf: seq<int>)
    requires |tal| == EdfTal.ANNOTATION_BYTES && BufferHeld(f, l, r, c, buf)
    ensures BufferHeld(WriteAt(f, l.Start(k, |l.signals|), tal), l, r, c, buf)
  {
    var g := WriteAt(f, l.Start(k, |l.signals|), tal);
    SlotApart(l, k, r);
    Ordered(l, r, c, r + 1);
    BufOffsetGrows(l, 0, c);
    if r > k { Ordered(l, k, 0, r); }
    forall i: nat | i < l.signals[c].samples
      ensures SampleHeld(g, l.Start(r, c) + l.Bytes(i), Clamp(buf[i], l.signals[c]), l.bdf)
    {
      assert SampleHeld(f, l.Start(r, c) + l.Bytes(i), Clamp(buf[i], l.signals[c]), l.bdf);
    }
  }

  /** The samples of all rounds, and the annotation signals of the first `records` records. */
  ghost predicate Closed(file: Text, l: Layout, d: nat, notes: seq<EdfTal.Note>, rounds: seq<Round>, records: nat) {
    && (forall r: nat | r < records :: ClosedSlot(file, l, d, notes, r))
    && (forall r: nat | r < |rounds| :: RoundHeld(file, l, r, rounds[r]))
  }

  ghost predicate ClosedSlot(file: Text, l: Layout, d: nat, notes: seq<EdfTal.Note>, r: nat) {
    SlotHeld(file, l, r, EdfTal.FinalTal(r, d, notes))
  }

  /** One annotation written into record k, which may be the first record beyond the file. */
  lemma CloseStep(f: Text, l: Layout, d: nat, notes: seq<EdfTal.Note>, rounds: seq<Round>, n: nat, k: nat, tal: Text)
    requires k < |notes| && k <= n && EdfTal.AllWritable(notes) && RecordTime(k, d) <= MAX_LL
    requires tal == EdfTal.NoteTal(k, d, notes[k]) && Closed(f, l, d, notes[..k], rounds, n)
    ensures Closed(WriteAt(f, l.Start(k, |l.signals|), tal), l, d, notes[..k+1], rounds, if k == n then n + 1 else n)
  {
    EdfTal.TalFits(k, d, notes[k]);
    var g := WriteAt(f, l.Start(k, |l.signals|), tal);
    var last, after := if k == n then n + 1 else n, notes[..k+1];
    forall r: nat | r < last ensures ClosedSlot(g, l, d, after, r) {
      CloseSlot(f, l, d, notes, rounds, n, k, tal, r);
    }
    forall r: nat | r < |rounds| ensures RoundHeld(g, l, r, rounds[r]) {
      WriteKeepsRound(f, l, k, tal, r, rounds[r]);
    }
  }

  lemma CloseSlot(
    f: Text, l: Layout, d: nat, notes: seq<EdfTal.Note>, rounds: seq<Round>, n: nat, k: nat, tal: Text, r: nat)
    requires k < |notes| && k <= n && r <= n && (r < n || k == n) && |tal| == EdfTal.ANNOTATION_BYTES
    requires notes[k].onset >= 0 && tal == EdfTal.NoteTal(k, d, notes[k])
    requires Closed(f, l, d, notes[..k], rounds, n)
    ensures ClosedSlot(WriteAt(f, l.Start(k, |l.signals|), tal), l, d, notes[..k+1], r)
  {
    if r != k {
      assert ClosedSlot(f, l, d, notes[..k], r);
      WriteKeepsSlot(f, l, k, tal, r, EdfTal.FinalTal(r, d, notes[..k]));
      assert r < k ==> notes[..k+1][r] == notes[..k][r];
    }
  }

  /** A file without data records: its header, and one annotation-only record for each annotation. */
  method EmptyRecords(w: Writer, count: nat) returns (file: Text)
    requires w.Valid() && w.datarecords == 0 && RecordTime(count, w.recordDuration) <= MAX_LL
    ensures |file| == Max(w.layout.Start(0, |w.partial|), w.layout.header + EdfTal.ANNOTATION_BYTES * count)
  {
    file := WriteAt(w.file, 0, w.header);
    var pos := |w.header|;
    for k := 0 to count
      invariant pos == w.layout.header + EdfTal.ANNOTATION_BYTES * k
      invariant |file| == Max(w.layout.Start(0, |w.partial|), pos)
    {
      EdfTal.TimeGrows(k, count, w.recordDuration);
      var stamp := EdfTal.TimeStamp(k, w.recordDuration);
      EdfTal.KeepingFits(k, w.recordDuration);
      var tal := EdfTal.FillZeros(stamp + [EdfTal.SEP, EdfTal.SEP]);
      file := WriteAt(file, pos, tal);
      pos := pos + EdfTal.ANNOTATION_BYTES;
    }
  }

  /**
    edfclose_file. A file without data records gets one record for each annotation; whatever the
    signals, the annotations written in the second pass end up in the annotation signals of these records.
   */
  method CloseFile(w: Writer, notes: seq<EdfTal.Note>) returns (code: int, file: Text, records: nat)
    requires w.Valid() && EdfTal.AllWritable(notes)
    requires RecordTime(Max(w.datarecords, |notes|), w.recordDuration) <= MAX_LL
    ensures code == if w.datarecords == 0 && w.headerCode != 0 then -1 else 0
    ensures code == 0 ==>
      && records == (if w.datarecords == 0 then |notes| else w.datarecords)
      && Closed(file, w.layout, w.recordDuration, notes, w.rounds, records)
      && |file| == w.layout.Start(records, if w.datarecords == 0 && notes != [] then 0 else |w.partial|)
  {
    file, records := w.file, w.datarecords;
    EdfTal.TimeGrows(w.datarecords, Max(w.datarecords, |notes|), w.recordDuration);
    EdfTal.TimeGrows(|notes|, Max(w.datarecords, |notes|), w.recordDuration);
    if w.datarecords == 0 {
      if w.headerCode != 0 { return -1, file, records; }
      file := EmptyRecords(w, |notes|);
      records := |notes|;
      assert w.rounds == [];
      SmallRecords(w.layout, |notes|);
    }
    CloseStart(w, notes, file);
    file := Rewrite(file, w.layout, w.recordDuration, notes, records, w.rounds);
    BufOffsetGrows(w.layout, |w.partial|, |w.layout.signals|);
    if records > 0 { RecordOrdered(w.layout, 0, records); }
    RecordStartGrows(w.layout, Min(|notes|, records), records);
    code := 0;
  }

  /** Annotation-only records are no larger than whole ones. */
  lemma {:induction false} SmallRecords(l: Layout, n: nat)
    ensures l.header + EdfTal.ANNOTATION_BYTES * n <= l.RecordStart(n)
  {
    if n > 0 { SmallRecords(l, n - 1); }
  }

  /** How far the first k records reach, if there are any. */
  function Extent(l: Layout, k: nat): nat { if k == 0 then 0 else l.RecordStart(k) }

  lemma ExtentGrows(l: Layout, k: nat)
    ensures Extent(l, k) <= l.RecordStart(k + 1) == Extent(l, k + 1)
    ensures l.Start(k, |l.signals|) + l.RecordSize() == l.Start(k + 1, |l.signals|)
  {
    RecordOrdered(l, k, k + 1);
  }

  /** The first k annotations are written into the file, which is at least as long as their records. */
  ghost predicate Rewritten(
    file: Text, file0: Text, l: Layout, d: nat, notes: seq<EdfTal.Note>, rounds: seq<Round>, k: nat)
  {
    && k <= |notes| && Closed(file, l, d, notes[..k], rounds, Max(|rounds|, k))
    && |file| == Max(|file0|, Extent(l, k))
  }

  /** One annotation, written at the position of its record's annotation signal. */
  method RewriteRecord(
    file: Text, ghost file0: Text, l: Layout, d: nat, notes: seq<EdfTal.Note>, k: nat, ghost rounds: seq<Round>,
    offset: nat)
    returns (g: Text)
    requires k < |notes| && EdfTal.AllWritable(notes) && RecordTime(k, d) <= MAX_LL && offset == l.Start(k, |l.signals|)
    requires Rewritten(file, file0, l, d, notes, rounds, k)
    ensures Rewritten(g, file0, l, d, notes, rounds, k + 1)
  {
    var str := EdfTal.BuildTal(k, d, notes[k]);
    CloseStep(file, l, d, notes, rounds, Max(|rounds|, k), k, str);
    EdfTal.TalFits(k, d, notes[k]);
    ExtentGrows(l, k);
    RecordOrdered(l, k, k + 1);
    g := WriteAt(file, offset, str);
  }

  /** Where the first annotation signal is, and how far the next one is from it. */
  method FirstSlot(l: Layout) returns (offset: nat, size: nat)
    ensures offset == l.Start(0, |l.signals|) && size == l.RecordSize()
  {
    offset, size := l.header, EdfTal.ANNOTATION_BYTES;
    for i := 0 to |l.signals|
      invariant offset == l.header + l.BufOffset(i) && size == EdfTal.ANNOTATION_BYTES + l.BufOffset(i)
    {
      offset, size := offset + l.Bytes(l.signals[i].samples), size + l.Bytes(l.signals[i].samples);
    }
  }

  /** The loop of edfclose_file over the annotations. */
  method Rewrite(file0: Text, l: Layout, d: nat, notes: seq<EdfTal.Note>, records: nat, ghost rounds: seq<Round>)
    returns (file: Text)
    requires EdfTal.AllWritable(notes) && RecordTime(records, d) <= MAX_LL
    requires |rounds| == records || (rounds == [] && records == |notes|)
    requires Closed(file0, l, d, notes[..0], rounds, |rounds|)
    ensures Closed(file, l, d, notes, rounds, records)
    ensures |file| == Max(|file0|, Extent(l, Min(|notes|, records)))
  {
    var offset, size := FirstSlot(l);
    file := file0;
    var k := 0;
    while k < |notes| && k < records
      invariant 0 <= k <= |notes| && k <= records && offset == l.Start(k, |l.signals|)
      invariant Rewritten(file, file0, l, d, notes, rounds, k)
    {
      EdfTal.TimeGrows(k, records, d);
      ExtentGrows(l, k);
      file := RewriteRecord(file, file0, l, d, notes, k, rounds, offset);
      offset := offset + size;
      k := k + 1;
    }
    CloseEnd(file, l, d, notes, rounds, k, records);
  }

  lemma CloseStart(w: Writer, notes: seq<EdfTal.Note>, file: Text)
    requires w.Valid() && (w.datarecords > 0 ==> file == w.file)
    ensures Closed(file, w.layout, w.recordDuration, notes[..0], w.rounds, |w.rounds|)
  {
    forall r: nat | r < |w.rounds|
      ensures ClosedSlot(file, w.layout, w.recordDuration, notes[..0], r)
      ensures RoundHeld(file, w.layout, r, w.rounds[r])
    {
      assert RecordHeld(w.file, w.layout, w.recordDuration, r, w.rounds[r]);
    }
  }

  lemma CloseEnd(file: Text, l: Layout, d: nat, notes: seq<EdfTal.Note>, rounds: seq<Round>, k: nat, records: nat)
    requires k <= |notes| && k <= records && (k == |notes| || k == records)
    requires |rounds| == records || (rounds == [] && records == |notes|)
    requires Closed(file, l, d, notes[..k], rounds, Max(|rounds|, k))
    ensures Closed(file, l, d, notes, rounds, records)
  {
    forall r: nat | r < records ensures ClosedSlot(file, l, d, notes, r) {
      assert ClosedSlot(file, l, d, notes[..k], r);
    }
  }

  // ------------------------------------------------------------------ reading

  /** The annotation signal of each record of a file. */
  function AnnotationSignals(file: Text, l: Layout, records: nat): (s: seq<EdfAnnotations.Record>)
    requires l.RecordStart(records) <= |file|
    ensures |s| == records
  {
    seq(records, r requires 0 <= r < records =>
      SlotInFile(file, l, r, records);
      [file[l.Start(r, |l.signals|)..l.RecordStart(r + 1)]])
  }

  lemma SlotInFile(file: Text, l: Layout, r: nat, records: nat)
    requires l.RecordStart(records) <= |file| && r < records
    ensures l.Start(r, |l.signals|) <= l.RecordStart(r + 1) <= |file|
  {
    RecordOrdered(l, r, records);
  }

  /** The annotation signals of a closed file are those the annotation reader expects. */
  lemma ClosedSignals(file: Text, l: Layout, d: nat, notes: seq<EdfTal.Note>, rounds: seq<Round>, records: nat)
    requires l.RecordStart(records) <= |file| && Closed(file, l, d, notes, rounds, records)
    ensures EdfAnnotations.ClosedFile(AnnotationSignals(file, l, records), d, notes)
  {
    var signals := AnnotationSignals(file, l, records);
    forall r: nat | r < |signals| ensures EdfAnnotations.ClosedRecord(signals, r, d, notes) {
      SlotInFile(file, l, r, records);
      assert ClosedSlot(file, l, d, notes, r);
    }
  }

  /** Sample k of channel c, by the direct formula. */
  function SampleAt(file: Text, l: Layout, c: nat, k: nat, records: nat): int
    requires l.Valid() && c < |l.signals| && k < l.signals[c].samples * records && l.RecordStart(records) <= |file|
  {
    OffsetInFile(l, c, k, records);
    DecodeAt(file, l.Offset(c, k), l.bdf)
  }

  lemma StoredSample(file: Text, l: Layout, r: nat, round: Round, c: nat, i: nat)
    requires l.Valid() && RoundHeld(file, l, r, round) && c < |l.signals| && i < l.signals[c].samples
    ensures c < |round| && i < |round[c]| && l.Start(r, c) + l.Bytes(i) + (if l.bdf then 3 else 2) <= |file|
    ensures DecodeAt(file, l.Start(r, c) + l.Bytes(i), l.bdf) == Clamp(round[c][i], l.signals[c])
  {
    assert BufferHeld(file, l, r, c, round[c]);
    var v := Clamp(round[c][i], l.signals[c]);
    assert SampleHeld(file, l.Start(r, c) + l.Bytes(i), v, l.bdf);
    assert InRange(l.signals[c].digMin, l.bdf) && InRange(l.signals[c].digMax, l.bdf);
    HeldDecodes(file, l.Start(r, c) + l.Bytes(i), v, l.bdf);
  }

  /** Where the bytes of a sample are in a closed file, and what they are: lowest first, in two's complement. */
  lemma SampleBytesAt(
    file: Text, l: Layout, d: nat, notes: seq<EdfTal.Note>, rounds: seq<Round>, r: nat, c: nat, i: nat)
    returns (p: nat)
    requires l.Valid() && Closed(file, l, d, notes, rounds, |rounds|)
    requires r < |rounds| && c < |l.signals| && i < l.signals[c].samples
    ensures c < |rounds[r]| && i < |rounds[r][c]|
    ensures var before := SamplesBefore(l.signals, c) + i;
            p == l.header + r * l.RecordSize() + if l.bdf then 3 * before else 2 * before
    ensures var v := Clamp(rounds[r][c][i], l.signals[c]);
            if l.bdf then
              && p + 2 < |file| && 0 <= file[p] < 256 && 0 <= file[p+1] < 256 && 0 <= file[p+2] < 256
              && file[p] + 256 * file[p+1] + 65_536 * file[p+2] == if v < 0 then v + 16_777_216 else v
            else
              && p + 1 < |file| && 0 <= file[p] < 256 && 0 <= file[p+1] < 256
              && file[p] + 256 * file[p+1] == if v < 0 then v + 65_536 else v
  {
    p := l.Start(r, c) + l.Bytes(i);
    assert RoundHeld(file, l, r, rounds[r]);
    SamplePosition(l, r, c, i);
    BytesHeld(file, l, r, rounds[r], c, i, p);
  }

  lemma BytesHeld(file: Text, l: Layout, r: nat, round: Round, c: nat, i: nat, p: nat)
    requires l.Valid() && RoundHeld(file, l, r, round) && c < |l.signals| && i < l.signals[c].samples
    requires p == l.Start(r, c) + l.Bytes(i)
    ensures c < |round| && i < |round[c]|
    ensures var v := Clamp(round[c][i], l.signals[c]);
            if l.bdf then
              && p + 2 < |file| && 0 <= file[p] < 256 && 0 <= file[p+1] < 256 && 0 <= file[p+2] < 256
              && file[p] + 256 * file[p+1] + 65_536 * file[p+2] == if v < 0 then v + 16_777_216 else v
            else
              && p + 1 < |file| && 0 <= file[p] < 256 && 0 <= file[p+1] < 256
              && file[p] + 256 * file[p+1] == if v < 0 then v + 65_536 else v
  {
    assert BufferHeld(file, l, r, c, round[c]);
    var v := Clamp(round[c][i], l.signals[c]);
    assert SampleHeld(file, p, v, l.bdf);
    assert InRange(l.signals[c].digMin, l.bdf) && InRange(l.signals[c].digMax, l.bdf);
    TwosComplement(v, l.bdf);
  }

  lemma SamplePosition(l: Layout, r: nat, c: nat, i: nat)
    requires c < |l.signals|
    ensures var before := SamplesBefore(l.signals, c) + i;
            l.Start(r, c) + l.Bytes(i) == l.header + r * l.RecordSize() + if l.bdf then 3 * before else 2 * before
  {
    RecordStartProduct(l, r);
    BufOffsetSum(l, c);
  }

  lemma TwosComplement(v: int, bdf: bool)
    requires InRange(v, bdf)
    ensures 0 <= ByteOf(v, 0) < 256 && 0 <= ByteOf(v, 1) < 256 && 0 <= ByteOf(v, 2) < 256
    ensures bdf ==> ByteOf(v, 0) + 256 * ByteOf(v, 1) + 65_536 * ByteOf(v, 2) == if v < 0 then v + 16_777_216 else v
    ensures !bdf ==> ByteOf(v, 0) + 256 * ByteOf(v, 1) == if v < 0 then v + 65_536 else v
  {
    LowerBytes(v);
    ThirdByte(v / 256 / 256);
  }

  /** Every sample reads back as what was written, limited to the digital range. */
  lemma SampleReadsBack(file: Text, l: Layout, d: nat, notes: seq<EdfTal.Note>, rounds: seq<Round>, c: nat, k: nat)
    requires l.Valid() && l.RecordStart(|rounds|) <= |file| && Closed(file, l, d, notes, rounds, |rounds|)
    requires c < |l.signals| && k < l.signals[c].samples * |rounds|
    ensures 0 <= k / l.signals[c].samples < |rounds|
    ensures var round := rounds[k / l.signals[c].samples];
            && c < |round| && k % l.signals[c].samples < |round[c]|
            && SampleAt(file, l, c, k, |rounds|) == Clamp(round[c][k % l.signals[c].samples], l.signals[c])
  {
    OffsetInFile(l, c, k, |rounds|);
    var r, i := k / l.signals[c].samples, k % l.signals[c].samples;
    assert RoundHeld(file, l, r, rounds[r]);
    StoredSample(file, l, r, rounds[r], c, i);
  }

  /** The loop of edfread_digital_samples: sequential reads, with a jump at each record border. */
  method ReadStretch(file: Text, l: Layout, c: nat, first: nat, n: nat, records: nat) returns (buf: seq<int>)
    requires l.Valid() && c < |l.signals| && first + n <= l.signals[c].samples * records && n > 0
    requires l.RecordStart(records) <= |file|
    ensures |buf| == n && forall i: nat | i < n :: buf[i] == SampleAt(file, l, c, first + i, records)
  {
    var samples := l.signals[c].samples;
    DivMod.QuotientAtLeast(first, samples, 0);
    RecordStartProduct(l, first / samples);
    var pos := l.header + (first / samples) * l.RecordSize() + l.BufOffset(c) + l.Bytes(first % samples);
    var jump := l.RecordSize() - l.Bytes(samples);
    var pntr := first;
    buf := [];
    for i := 0 to n
      invariant |buf| == i && pntr == first + i
      invariant pos == l.Offset(c, pntr) - if i > 0 && pntr % samples == 0 then jump else 0
      invariant forall j: nat | j < i :: buf[j] == SampleAt(file, l, c, first + j, records)
    {
      if pntr % samples == 0 && i > 0 { pos := pos + jump; }
      OffsetInFile(l, c, pntr, records);
      OffsetStep(l, c, pntr);
      var b0, b1, b2 := file[pos], file[pos+1], 0;
      if l.bdf { b2 := file[pos+2]; }
      buf := buf + [Decode(b0, b1, b2, l.bdf)];
      pos := pos + l.Bytes(1);
      pntr := pntr + 1;
    }
  }

  datatype Whence = FromStart | FromCurrent | FromEnd

  /** A file opened for reading: its size matches its header. */
  class Reader {
    const file: Text
    const layout: Layout
    const records: nat
    var pntr: seq<int>

    ghost predicate Valid()
      reads this
    {
      && layout.Valid() && |file| == layout.RecordStart(records) && |pntr| == |layout.signals|
      && forall c | 0 <= c < |pntr| :: 0 <= pntr[c] <= layout.signals[c].samples * records
    }

    constructor (file: Text, layout: Layout, records: nat)
      requires layout.Valid() && |file| == layout.RecordStart(records)
      ensures Valid() && this.file == file && this.layout == layout && this.records == records
      ensures forall c | 0 <= c < |pntr| :: pntr[c] == 0
    {
      this.file, this.layout, this.records := file, layout, records;
      pntr := seq(|layout.signals|, _ => 0);
      new;
      forall c | 0 <= c < |pntr| ensures 0 <= pntr[c] <= layout.signals[c].samples * records {
        NotNegative(layout.signals[c].samples, records);
      }
    }

    /** edfseek: the position stays between the first sample and the end. */
    method Seek(signal: int, offset: int, whence: Whence) returns (position: int)
      requires Valid()
      modifies this
      ensures Valid()
      ensures if 0 <= signal < |pntr| then
          (var total := layout.signals[signal].samples * records;
           var target := offset +
              match whence { case FromStart => 0 case FromCurrent => old(pntr)[signal] case FromEnd => total };
           pntr == old(pntr)[signal := position] && position == Max(0, Min(target, total)))
        else position == -1 && pntr == old(pntr)
    {
      if signal < 0 || signal >= |layout.signals| { return -1; }
      var total := layout.signals[signal].samples * records;
      NotNegative(layout.signals[signal].samples, records);
      position := match whence
        case FromStart => offset
        case FromCurrent => pntr[signal] + offset
        case FromEnd => total + offset;
      if position > total { position := total; }
      if position < 0 { position := 0; }
      pntr := pntr[signal := position];
    }

    /** edfread_digital_samples: as many of the n samples from the current position on as there are. */
    method ReadDigital(signal: int, n0: int) returns (code: int, buf: seq<int>)
      requires Valid()
      modifies this
      ensures Valid()
      ensures signal < 0 || signal >= |layout.signals| || n0 < 0 ==> code == -1 && buf == [] && pntr == old(pntr)
      ensures 0 <= signal < |layout.signals| && n0 >= 0 ==>
        && var p := old(pntr)[signal];
        && code == |buf| == Min(n0, layout.signals[signal].samples * records - p)
        && pntr == old(pntr)[signal := p + code]
        && forall i: nat | i < code :: buf[i] == SampleAt(file, layout, signal, p + i, records)
    {
      if signal < 0 || signal >= |layout.signals| || n0 < 0 { return -1, []; }
      if n0 == 0 { return 0, []; }
      var n, p := n0, pntr[signal];
      var total := layout.signals[signal].samples * records;
      if p + n > total {
        n := total - p;
        if n == 0 { return 0, []; }
      }
      buf := ReadStretch(file, layout, signal, p, n, records);
      pntr := pntr[signal := p + n];
      code := n;
    }
  }

  lemma NotNegative(a: nat, b: nat)
    ensures a * b >= 0
  {
  }
}
