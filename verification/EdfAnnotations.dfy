/**
  Reading annotations: edflib_get_annotations checks the time-keeping part of every data record
  (section 2.2.4 of the EDF+ specification) and scans all annotation signals. A file that was
  closed with queued annotations reads back as those annotations.
 */
module EdfAnnotations {
  import opened EdfNumbers
  import EdfTal

  const MAX_LEN := 512
  const SEP := EdfTal.SEP
  const DURATION_MARK := EdfTal.DURATION_MARK

  /** An annotation as read: the onset in 100 ns, duration and description as text. */
  datatype ReadNote = ReadNote(onset: int, duration: Text, text: Text)

  /** later: not the first annotation signal of its record. stopAtEnd: "Recording ends" ends a signal. */
  datatype Mode = Mode(later: bool, stopAtEnd: bool)

  /**
    The variables of the scanner of one annotation signal; error is 0 while all is well. `wide`, which
    the source does not keep, records that reading the time of an annotation overflowed 64 bits.
   */
  datatype Scan = Scan(
    scratch: Text,
    zero: nat,
    onset: bool,
    duration: bool,
    durationStart: bool,
    annotsInTal: nat,
    annotsInRecord: nat,
    timeText: Text,
    durationText: Text,
    notes: seq<ReadNote>,
    error: int,
    done: bool,
    wide: bool)
  {
    predicate Running() { error == 0 && !done }
    predicate Timed() { onset ==> IsOnset(timeText) }
  }

  /** "Recording ends" */
  const RECORDING_ENDS: Text := [82, 101, 99, 111, 114, 100, 105, 110, 103, 32, 101, 110, 100, 115]

  function Truncated(s: Text, n: nat): Text { if |s| <= n then s else s[..n] }

  function Printable(s: Text): Text {
    seq(|s|, i requires 0 <= i < |s| => if s[i] < 32 || s[i] > 126 then DOT else s[i])
  }

  function StartScan(notes: seq<ReadNote>): Scan {
    Scan([], 0, false, false, false, 0, 0, [], [], notes, 0, false, false)
  }

  function AfterZero(s: Scan, prevIsSep: bool): (s': Scan)
    requires s.Timed()
    ensures s'.Timed()
  {
    if s.zero > 0 then s.(zero := s.zero + 1)
    else if !prevIsSep then s.(error := 33)
    else s.(scratch := [], onset := false, duration := false, durationStart := false, annotsInTal := 0, zero := 1)
  }

  /** A description ends: it is an annotation unless it is the time-keeping one. */
  function AfterText(s: Scan, mode: Mode): (s': Scan)
    requires s.Timed() && s.onset
    ensures s'.Timed()
  {
    var created := mode.later || s.annotsInRecord != 0;
    var duration := if s.duration then s.durationText else [];
    var note := ReadNote(LongTime(s.timeText), duration, Truncated(s.scratch, MAX_LEN));
    if created && mode.stopAtEnd && RECORDING_ENDS <= note.text then
      s.(notes := s.notes + [note], wide := s.wide || Wide(s.timeText), done := true)
    else
      s.(notes := if created then s.notes + [note] else s.notes, wide := s.wide || (created && Wide(s.timeText)),
         annotsInTal := s.annotsInTal + 1, annotsInRecord := s.annotsInRecord + 1, scratch := [])
  }

  function AfterOnset(s: Scan): (s': Scan)
    ensures s'.Timed() || s' == s.(error := 36)
  {
    if !IsOnset(s.scratch) then s.(error := 36) else s.(onset := true, timeText := s.scratch, scratch := [])
  }

  function AfterDuration(s: Scan): (s': Scan)
    requires s.Timed()
    ensures s'.Timed()
  {
    if !IsDecimal(s.scratch) then s.(error := 37)
    else
      s.(durationText := Printable(Truncated(s.scratch, 15)),
         duration := true, durationStart := false, scratch := [])
  }

  /** A byte that is not zero. */
  function AfterByte(s: Scan, c: int, mode: Mode): (s': Scan)
    requires s.Timed()
    ensures s'.Timed()
  {
    if c != SEP && c != DURATION_MARK then s.(scratch := s.scratch + [c])
    else if c == DURATION_MARK && (s.duration || s.durationStart || s.onset || s.annotsInTal != 0) then s.(error := 35)
    else
      var d := s.durationStart || c == DURATION_MARK;
      if c == SEP && s.onset && !d then AfterText(s, mode)
      else if !s.onset then AfterOnset(s.(durationStart := d))
      else AfterDuration(s.(durationStart := d))
  }

  /** One byte of an annotation signal. */
  function ScanAt(s: Scan, bytes: Text, k: nat, mode: Mode): (s': Scan)
    requires s.Timed() && k < |bytes|
    ensures s'.Timed()
  {
    if !s.Running() then s
    else if bytes[k] == 0 then AfterZero(s, k == 0 || bytes[k-1] == SEP)
    else if s.zero > 1 then s.(error := 34)
    else AfterByte(s.(zero := 0), bytes[k], mode)
  }

  /** The scanner after k bytes. */
  function Scanned(notes: seq<ReadNote>, bytes: Text, k: nat, mode: Mode): (s: Scan)
    requires k <= |bytes|
    ensures s.Timed()
  {
    if k == 0 then StartScan(notes) else ScanAt(Scanned(notes, bytes, k - 1, mode), bytes, k - 1, mode)
  }

  /** All states of a scan; a step is unfolded only where it is named. */
  ghost predicate Step(trace: seq<Scan>, bytes: Text, mode: Mode, k: nat) {
    k + 1 < |trace| && k < |bytes| && trace[k].Timed() && trace[k+1] == ScanAt(trace[k], bytes, k, mode)
  }

  ghost predicate IsTrace(trace: seq<Scan>, bytes: Text, mode: Mode) {
    |trace| == |bytes| + 1 && forall k: nat | k < |bytes| :: Step(trace, bytes, mode, k)
  }

  lemma TraceOf(notes: seq<ReadNote>, bytes: Text, mode: Mode) returns (trace: seq<Scan>)
    ensures IsTrace(trace, bytes, mode) && trace[0] == StartScan(notes)
    ensures trace[|bytes|] == Scanned(notes, bytes, |bytes|, mode)
  {
    trace := seq(|bytes| + 1, k requires 0 <= k <= |bytes| => Scanned(notes, bytes, k, mode));
    forall k: nat | k < |bytes| ensures Step(trace, bytes, mode, k) {
      assert trace[k+1] == Scanned(notes, bytes, k + 1, mode);
    }
  }

  lemma {:induction false} ScanDone(trace: seq<Scan>, bytes: Text, mode: Mode, p: nat, q: nat)
    requires IsTrace(trace, bytes, mode) && p <= q <= |bytes| && !trace[p].Running()
    ensures trace[q] == trace[p]
  {
    if p < q {
      ScanDone(trace, bytes, mode, p, q - 1);
      assert Step(trace, bytes, mode, q - 1);
    }
  }

  /** A new annotation at the end of the list, and whether it marks the end of the recording. */
  method AddAnnotation(notes: seq<ReadNote>, timeText: Text, durationText: Text, scratch: Text)
    returns (notes': seq<ReadNote>, ended: bool, wide: bool)
    requires IsOnset(timeText)
    ensures wide == Wide(timeText)
    ensures notes' == notes + [ReadNote(LongTime(timeText), durationText, Truncated(scratch, MAX_LEN))]
    ensures ended == (RECORDING_ENDS <= Truncated(scratch, MAX_LEN))
  {
    var time, peak := GetLongTime(timeText);
    wide := Wide(timeText);
    assert wide <==> peak > MAX_LL;
    var annotation := Truncated(scratch, MAX_LEN);
    notes' := notes + [ReadNote(time, durationText, annotation)];
    ended := RECORDING_ENDS <= annotation;
  }

  /** A separator ends a description, an onset or a duration. */
  method Separator(s: Scan, c: int, mode: Mode) returns (s': Scan)
    requires s.Timed() && (c == SEP || c == DURATION_MARK)
    ensures s' == AfterByte(s, c, mode)
  {
    s' := s;
    if c == DURATION_MARK {
      if s.duration || s.durationStart || s.onset || s.annotsInTal != 0 { return s'.(error := 35); }
      s' := s'.(durationStart := true);
    }
    if c == SEP && s'.onset && !s'.durationStart {
      if mode.later || s'.annotsInRecord != 0 {
        var duration := if s'.duration then s'.durationText else [];
        var notes, ended, wide := AddAnnotation(s'.notes, s'.timeText, duration, s'.scratch);
        s' := s'.(notes := notes, wide := s'.wide || wide);
        if mode.stopAtEnd && ended { return s'.(done := true); }
      }
      return s'.(annotsInTal := s'.annotsInTal + 1, annotsInRecord := s'.annotsInRecord + 1, scratch := []);
    }
    if !s'.onset {
      var bad := RejectOnset(s'.scratch);
      if bad { return s'.(error := 36); }
      return s'.(onset := true, timeText := s'.scratch, scratch := []);
    }
    var bad := RejectDuration(s'.scratch);
    if bad { return s'.(error := 37); }
    s' := s'.(durationText := Printable(Truncated(s'.scratch, 15)),
              duration := true, durationStart := false, scratch := []);
  }

  /** The loop of edflib_get_annotations over the bytes of one annotation signal. */
  method ScanSignal(notes: seq<ReadNote>, bytes: Text, mode: Mode) returns (s: Scan)
    ensures s == Scanned(notes, bytes, |bytes|, mode)
  {
    s := StartScan(notes);
    ghost var trace := TraceOf(notes, bytes, mode);
    for k := 0 to |bytes|
      invariant s == trace[k] && s.Running() && s.Timed()
    {
      assert Step(trace, bytes, mode, k);
      if bytes[k] == 0 {
        if s.zero == 0 {
          if k > 0 && bytes[k-1] != SEP {
            s := s.(error := 33);
          } else {
            s := s.(scratch := [], onset := false, duration := false, durationStart := false,
                    annotsInTal := 0, zero := 1);
          }
        } else {
          s := s.(zero := s.zero + 1);
        }
      } else if s.zero > 1 {
        s := s.(error := 34);
      } else {
        s := s.(zero := 0);
        if bytes[k] == SEP || bytes[k] == DURATION_MARK {
          s := Separator(s, bytes[k], mode);
        } else {
          s := s.(scratch := s.scratch + [bytes[k]]);
        }
      }
      if s.error != 0 || s.done {
        ScanDone(trace, bytes, mode, k + 1, |bytes|);
        return;
      }
    }
  }

  // ------------------------------------------------------------------ the time-keeping annotation

  /** A file's reader settings; durations are in 100 ns. */
  datatype Reader = Reader(recordDuration: int, discontinuous: bool, stopAtEnd: bool)

  /** Errors of the time-keeping check; after error 1 the signal is still scanned. */
  datatype TimeCheck = TimeCheck(error: int, elapsed: int, wide: bool)

  function FirstSep(bytes: Text, k: nat, limit: int): (p: nat)
    requires limit <= |bytes|
    ensures p >= k && (k <= limit ==> p <= limit)
    decreases limit - k
  {
    if k < limit && bytes[k] != SEP then FirstSep(bytes, k + 1, limit) else k
  }

  function CString(s: Text): (t: Text)
    ensures t <= s
    ensures (forall c | c in t :: c != 0) && (|t| < |s| ==> s[|t|] == 0)
  {
    if s == [] || s[0] == 0 then [] else [s[0]] + CString(s[1..])
  }

  /** Whether the stamp t of a record may follow the stamp `elapsed` of the previous one. */
  function TimeError(first: bool, elapsed: int, t: int, reader: Reader): int {
    if first then (if t >= TIME_DIMENSION then 2 else 0)
    else if reader.discontinuous then (if Wrapped(t - elapsed) < reader.recordDuration then 4 else 0)
    else if Wrapped(t - elapsed) != reader.recordDuration then 3 else 0
  }

  function CheckTime(bytes: Text, first: bool, elapsed: int, reader: Reader): TimeCheck {
    var p := FirstSep(bytes, 0, |bytes| - 2);
    if p >= |bytes| - 2 then TimeCheck(1, elapsed, false)
    else if bytes[p+1] != SEP then TimeCheck(6, elapsed, false)
    else
      var stamp := CString(bytes[..p]);
      if !IsOnset(stamp) then TimeCheck(36, elapsed, false)
      else
        var e := TimeError(first, elapsed, LongTime(stamp), reader);
        TimeCheck(e, if e == 0 then LongTime(stamp) else elapsed, Wide(stamp))
  }

  method CheckTimeKeeping(bytes: Text, first: bool, elapsed: int, reader: Reader) returns (check: TimeCheck)
    ensures check == CheckTime(bytes, first, elapsed, reader)
  {
    var k := 0;
    while k < |bytes| - 2
      invariant k == 0 || k <= |bytes| - 2
      invariant FirstSep(bytes, 0, |bytes| - 2) == FirstSep(bytes, k, |bytes| - 2)
      decreases |bytes| - k
    {
      if bytes[k] == SEP {
        if bytes[k+1] != SEP { return TimeCheck(6, elapsed, false); }
        var stamp := CString(bytes[..k]);
        var bad := RejectOnset(stamp);
        if bad { return TimeCheck(36, elapsed, false); }
        var time, _ := GetLongTime(stamp);
        var wide := Wide(stamp);
        if first {
          if time >= TIME_DIMENSION { return TimeCheck(2, elapsed, wide); }
        } else if reader.discontinuous {
          if Wrapped(time - elapsed) < reader.recordDuration { return TimeCheck(4, elapsed, wide); }
        } else if Wrapped(time - elapsed) != reader.recordDuration {
          return TimeCheck(3, elapsed, wide);
        }
        return TimeCheck(0, time, wide);
      }
      k := k + 1;
    }
    return TimeCheck(1, elapsed, false);
  }

  // ------------------------------------------------------------------ all records

  /**
    The code returned, the annotations read, the time of the last record and the offset of the first.
    `wide`: arithmetic has overflowed. C leaves that undefined; the rest says what wrapping around yields.
   */
  datatype Reading = Reading(code: int, notes: seq<ReadNote>, elapsed: int, startOffset: int, wide: bool)

  type Record = seq<Text>

  predicate AllWellFormed(records: seq<Record>) { forall record | record in records :: WellFormed(record) }

  predicate WellFormed(record: Record) { forall r | 0 <= r < |record| :: record[r] != [] }

  /** Annotation signal r of record i. */
  function ReadSignal(st: Reading, i: nat, r: nat, bytes: Text, reader: Reader): Reading
    requires bytes != []
  {
    if bytes[|bytes|-1] != 0 then st.(code := 9)
    else
      var check := if r == 0 then CheckTime(bytes, i == 0, st.elapsed, reader) else TimeCheck(0, st.elapsed, false);
      if check.error > 1 then st.(code := 9, wide := st.wide || check.wide)
      else
        var s := Scanned(st.notes, bytes, |bytes|, Mode(r != 0, reader.stopAtEnd));
        Reading(if check.error != 0 || s.error != 0 then 9 else 0, s.notes, check.elapsed,
                if r == 0 && i == 0 && check.error == 0 then check.elapsed else st.startOffset,
                st.wide || check.wide || s.wide)
  }

  /** The first n annotation signals of record i. */
  function ReadRecord(st: Reading, i: nat, record: Record, n: nat, reader: Reader): Reading
    requires n <= |record| && WellFormed(record)
  {
    if n == 0 then st
    else
      var st' := ReadRecord(st, i, record, n - 1, reader);
      if st'.code != 0 then st' else ReadSignal(st', i, n - 1, record[n-1], reader)
  }

  /** The first n records. */
  function ReadRecords(records: seq<Record>, n: nat, reader: Reader): Reading
    requires n <= |records| && AllWellFormed(records)
  {
    if n == 0 then Reading(0, [], 0, 0, false)
    else
      var st := ReadRecords(records, n - 1, reader);
      if st.code != 0 then st else ReadRecord(st, n - 1, records[n-1], |records[n-1]|, reader)
  }

  lemma {:induction false} RecordsHalted(records: seq<Record>, n: nat, m: nat, reader: Reader)
    requires n <= m <= |records| && AllWellFormed(records)
    requires ReadRecords(records, n, reader).code != 0
    ensures ReadRecords(records, m, reader) == ReadRecords(records, n, reader)
  {
    if n < m { RecordsHalted(records, n, m - 1, reader); }
  }

  lemma {:induction false} RecordHalted(st: Reading, i: nat, record: Record, n: nat, m: nat, reader: Reader)
    requires n <= m <= |record| && WellFormed(record)
    requires ReadRecord(st, i, record, n, reader).code != 0
    ensures ReadRecord(st, i, record, m, reader) == ReadRecord(st, i, record, n, reader)
  {
    if n < m { RecordHalted(st, i, record, n, m - 1, reader); }
  }

  /** One annotation signal: its last byte, its time-keeping part if it is the first, its annotations. */
  method GetSignal(st: Reading, i: nat, r: nat, bytes: Text, reader: Reader) returns (st': Reading)
    requires bytes != []
    ensures st' == ReadSignal(st, i, r, bytes, reader)
  {
    st' := st;
    if bytes[|bytes|-1] != 0 { return st'.(code := 9); }
    var check := TimeCheck(0, st.elapsed, false);
    if r == 0 {
      check := CheckTimeKeeping(bytes, i == 0, st.elapsed, reader);
      if check.error > 1 { return st'.(code := 9, wide := st.wide || check.wide); }
      if i == 0 && check.error == 0 { st' := st'.(startOffset := check.elapsed); }
    }
    var scan := ScanSignal(st.notes, bytes, Mode(r != 0, reader.stopAtEnd));
    st' := st'.(notes := scan.notes, elapsed := check.elapsed,
                code := if check.error != 0 || scan.error != 0 then 9 else 0,
                wide := st.wide || check.wide || scan.wide);
  }

  /** edflib_get_annotations on the annotation signals of all data records. */
  method GetAnnotations(records: seq<Record>, reader: Reader) returns (st: Reading)
    requires AllWellFormed(records)
    ensures st == ReadRecords(records, |records|, reader)
  {
    st := Reading(0, [], 0, 0, false);
    for i := 0 to |records|
      invariant st.code == 0 && st == ReadRecords(records, i, reader)
    {
      ghost var before := st;
      assert records[i] in records;
      for r := 0 to |records[i]|
        invariant st.code == 0 && st == ReadRecord(before, i, records[i], r, reader)
      {
        st := GetSignal(st, i, r, records[i][r], reader);
        if st.code != 0 {
          RecordHalted(before, i, records[i], r + 1, |records[i]|, reader);
          RecordsHalted(records, i + 1, |records|, reader);
          return;
        }
      }
    }
  }

  // ------------------------------------------------------------------ scanning what was written

  predicate Segment(bytes: Text, p: nat, s: Text) {
    p + |s| <= |bytes| && forall i | 0 <= i < |s| :: bytes[p+i] == s[i]
  }

  lemma SegmentSplit(bytes: Text, p: nat, a: Text, b: Text)
    requires Segment(bytes, p, a + b)
    ensures Segment(bytes, p, a) && Segment(bytes, p + |a|, b)
  {
    forall i | 0 <= i < |a| ensures bytes[p+i] == a[i] {
      assert (a + b)[i] == a[i];
    }
    forall i | 0 <= i < |b| ensures bytes[p+|a|+i] == b[i] {
      assert (a + b)[|a|+i] == b[i];
    }
  }

  predicate Plain(s: Text) { forall i | 0 <= i < |s| :: s[i] != 0 && s[i] != SEP && s[i] != DURATION_MARK }

  lemma NumbersArePlain(s: Text)
    ensures IsOnset(s) || IsDecimal(s) ==> Plain(s)
  {
    if IsOnset(s) {
      forall i | 0 <= i < |s| ensures s[i] != 0 && s[i] != SEP && s[i] != DURATION_MARK {
        if i > 0 { assert s[i] == s[1..][i-1]; }
      }
    }
  }

  /** Plain bytes are collected. */
  lemma {:induction false} ScanPlain(trace: seq<Scan>, bytes: Text, mode: Mode, p: nat, t: Text, n: nat)
    requires IsTrace(trace, bytes, mode) && Segment(bytes, p, t) && Plain(t) && n <= |t|
    requires trace[p].Running() && trace[p].zero <= 1 && trace[p].scratch == []
    ensures trace[p+n] == trace[p].(scratch := t[..n], zero := if n == 0 then trace[p].zero else 0)
  {
    if n > 0 {
      ScanPlain(trace, bytes, mode, p, t, n - 1);
      assert bytes[p+(n-1)] == t[n-1];
      assert t[..n-1] + [t[n-1]] == t[..n];
      assert Step(trace, bytes, mode, p + n - 1);
    }
  }

  lemma {:induction false} ScanZeros(trace: seq<Scan>, bytes: Text, mode: Mode, p: nat, q: nat)
    requires IsTrace(trace, bytes, mode) && p <= q <= |bytes| && forall j | p <= j < q :: bytes[j] == 0
    requires trace[p].Running() && (trace[p].zero == 0 ==> 0 < p && bytes[p-1] == SEP)
    ensures trace[q].Running() && trace[q].notes == trace[p].notes && trace[q].wide == trace[p].wide
    ensures p < q ==> trace[q].zero > 0
  {
    if p < q {
      ScanZeros(trace, bytes, mode, p, q - 1);
      assert Step(trace, bytes, mode, q - 1);
    }
  }

  /** A byte after plain text. */
  lemma ScanMark(trace: seq<Scan>, bytes: Text, mode: Mode, p: nat, t: Text, c: int)
    requires IsTrace(trace, bytes, mode) && Segment(bytes, p, t + [c]) && Plain(t) && c != 0
    requires trace[p].Running() && trace[p].zero <= 1 && trace[p].scratch == [] && trace[p].Timed()
    ensures trace[p+|t|+1] == AfterByte(trace[p].(scratch := t, zero := 0), c, mode)
    ensures bytes[p+|t|] == c
  {
    SegmentSplit(bytes, p, t, [c]);
    ScanPlain(trace, bytes, mode, p, t, |t|);
    assert t[..|t|] == t;
    assert [c][0] == c;
    assert Step(trace, bytes, mode, p + |t|);
  }

  /** The scanner between two lists of the first annotation signal. */
  predicate Between(s: Scan) {
    && s.Running() && s.zero <= 1 && s.scratch == []
    && !s.onset && !s.duration && !s.durationStart && s.annotsInTal == 0
  }

  /** The time-keeping part creates no annotation. */
  lemma ScanKeeping(trace: seq<Scan>, bytes: Text, mode: Mode, t: Text)
    requires IsTrace(trace, bytes, mode) && trace[0] == StartScan(trace[0].notes)
    requires Segment(bytes, 0, (t + [SEP]) + [SEP, 0]) && IsOnset(t) && !mode.later
    ensures var s := trace[|t|+3];
            Between(s) && s.notes == trace[0].notes && s.annotsInRecord == 1 && s.zero == 1 && s.wide == trace[0].wide
  {
    SegmentSplit(bytes, 0, t + [SEP], [SEP, 0]);
    assert [SEP, 0][0] == SEP && [SEP, 0][1] == 0;
    NumbersArePlain(t);
    ScanMark(trace, bytes, mode, 0, t, SEP);
    var s := trace[|t|+1];
    assert s == trace[0].(onset := true, timeText := t);
    assert Step(trace, bytes, mode, |t| + 1);
    assert trace[|t|+2] == s.(annotsInTal := 1, annotsInRecord := 1);
    assert Step(trace, bytes, mode, |t| + 2);
  }

  function WithTimes(s: Scan, o: Text, d: Text): Scan {
    s.(onset := true, timeText := o, zero := 0,
       duration := d != [], durationText := if d == [] then s.durationText else Printable(Truncated(d, 15)))
  }

  function OptionalDuration(d: Text): Text { if d == [] then [] else [DURATION_MARK] + d }

  /** An onset without a duration. */
  lemma ScanOnset(trace: seq<Scan>, bytes: Text, mode: Mode, p: nat, o: Text)
    requires IsTrace(trace, bytes, mode) && Segment(bytes, p, o + [SEP]) && IsOnset(o) && Between(trace[p])
    ensures trace[p+|o|+1] == WithTimes(trace[p], o, [])
  {
    NumbersArePlain(o);
    ScanMark(trace, bytes, mode, p, o, SEP);
  }

  lemma ScanDuration(trace: seq<Scan>, bytes: Text, mode: Mode, p: nat, o: Text, d: Text)
    requires IsTrace(trace, bytes, mode)
    requires Segment(bytes, p, o + [DURATION_MARK]) && Segment(bytes, p + |o| + 1, d + [SEP])
    requires IsOnset(o) && IsDecimal(d) && Between(trace[p])
    ensures trace[p+|o|+|d|+2] == WithTimes(trace[p], o, d)
  {
    NumbersArePlain(o);
    NumbersArePlain(d);
    ScanMark(trace, bytes, mode, p, o, DURATION_MARK);
    ScanMark(trace, bytes, mode, p + |o| + 1, d, SEP);
  }

  lemma Regroup(o: Text, d: Text)
    requires d != []
    ensures o + OptionalDuration(d) + [SEP] == (o + [DURATION_MARK]) + (d + [SEP])
  {
  }

  lemma {:induction false} ScanTimes(trace: seq<Scan>, bytes: Text, mode: Mode, p: nat, o: Text, d: Text)
    requires IsTrace(trace, bytes, mode)
    requires Segment(bytes, p, o + OptionalDuration(d) + [SEP]) && IsOnset(o) && (d == [] || IsDecimal(d))
    requires Between(trace[p])
    ensures trace[p+|o|+|OptionalDuration(d)|+1] == WithTimes(trace[p], o, d)
  {
    if d == [] {
      assert o + [] == o;
      ScanOnset(trace, bytes, mode, p, o);
    } else {
      Regroup(o, d);
      SegmentSplit(bytes, p, o + [DURATION_MARK], d + [SEP]);
      ScanDuration(trace, bytes, mode, p, o, d);
    }
  }

  /** An onset, an optional duration and a description add one annotation. */
  lemma {:induction false} ScanNote(trace: seq<Scan>, bytes: Text, mode: Mode, p: nat, o: Text, d: Text, text: Text)
    requires IsTrace(trace, bytes, mode)
    requires Segment(bytes, p, (o + OptionalDuration(d) + [SEP]) + (text + [SEP]))
    requires IsOnset(o) && (d == [] || IsDecimal(d)) && Plain(text) && |text| <= MAX_LEN
    requires Between(trace[p]) && trace[p].annotsInRecord > 0
    ensures var q := p + |o| + |OptionalDuration(d)| + |text| + 2;
            && bytes[q-1] == SEP && trace[q].error == 0 && trace[q].zero == 0
            && trace[q].notes == trace[p].notes + [ReadNote(LongTime(o), Printable(Truncated(d, 15)), text)]
            && trace[q].wide == (trace[p].wide || Wide(o))
  {
    SegmentSplit(bytes, p, o + OptionalDuration(d) + [SEP], text + [SEP]);
    ScanTimes(trace, bytes, mode, p, o, d);
    ScanMark(trace, bytes, mode, p + |o| + |OptionalDuration(d)| + 1, text, SEP);
    assert Printable([]) == [];
  }

  // ------------------------------------------------------------------ round trip

  /** How a queued annotation reads back. */
  function ReadBack(note: EdfTal.Note): ReadNote {
    ReadNote(Wrapped(note.onset * 1000),
             if note.duration < 0 then [] else Truncated(DurationText(note.duration), 15),
             note.text)
  }

  function NoteDuration(note: EdfTal.Note): Text { if note.duration < 0 then [] else DurationText(note.duration) }

  lemma DecimalPrintable(s: Text)
    requires s == [] || IsDecimal(s)
    ensures Printable(Truncated(s, 15)) == Truncated(s, 15)
  {
  }

  lemma NoteOrder(o: Text, d: Text, text: Text)
    ensures o + OptionalDuration(d) + [SEP] + text + [SEP] == (o + OptionalDuration(d) + [SEP]) + (text + [SEP])
  {
  }

  /** The pieces of a written annotation are of the form the scanner expects. */
  lemma NoteParts(note: EdfTal.Note)
    requires EdfTal.Writable(note)
    ensures var o, d := OnsetText(note.onset), NoteDuration(note);
            && IsOnset(o) && LongTime(o) == Wrapped(note.onset * 1000) && (Wide(o) <==> note.onset >= MAX_ONSET)
            && (d == [] || IsDecimal(d)) && Printable(Truncated(d, 15)) == Truncated(d, 15)
            && Plain(note.text)
            && EdfTal.NoteText(note) == (o + OptionalDuration(d) + [SEP]) + (note.text + [SEP])
  {
    var o, d := OnsetText(note.onset), NoteDuration(note);
    OnsetRoundTrip(note.onset);
    if note.duration >= 0 { DurationWellFormed(note.duration); }
    DecimalPrintable(d);
    NoteOrder(o, d, note.text);
  }

  /** A stamp and a list of annotations in a signal of which the rest is zero. */
  ghost predicate Laid(tal: Text, stamp: Text, body: Text) {
    && |stamp| + 3 + |body| < |tal|
    && Segment(tal, 0, (stamp + [SEP]) + [SEP, 0])
    && Segment(tal, |stamp| + 3, body)
    && forall j | |stamp| + 3 + |body| <= j < |tal| :: tal[j] == 0
  }

  function Body(k: nat, notes: seq<EdfTal.Note>): Text {
    if k < |notes| && notes[k].onset >= 0 then EdfTal.NoteText(notes[k]) else []
  }

  lemma LaidPadded(stamp: Text, body: Text, zeros: Text)
    requires zeros != [] && forall j | 0 <= j < |zeros| :: zeros[j] == 0
    ensures Laid(stamp + [SEP, SEP] + [0] + body + zeros, stamp, body)
  {
    assert ((stamp + [SEP]) + [SEP, 0]) + body + zeros == stamp + [SEP, SEP] + [0] + body + zeros;
  }

  lemma LaidTal(k: nat, d: nat, notes: seq<EdfTal.Note>)
    requires RecordTime(k, d) <= MAX_LL && EdfTal.AllWritable(notes)
    ensures Laid(EdfTal.FinalTal(k, d, notes), RecordStamp(k, d), Body(k, notes))
  {
    EdfTal.KeepingFits(k, d);
    var keeping := EdfTal.KeepingText(k, d);
    if k < |notes| {
      EdfTal.TalFits(k, d, notes[k]);
      var n := EdfTal.ANNOTATION_BYTES - |keeping + [0] + EdfTal.NoteText(notes[k])|;
      LaidPadded(RecordStamp(k, d), EdfTal.NoteText(notes[k]), EdfTal.Zeros(n));
    } else {
      var n := EdfTal.ANNOTATION_BYTES - |keeping|;
      LaidPadded(RecordStamp(k, d), [], EdfTal.Zeros(n - 1));
      assert keeping + EdfTal.Zeros(n) == keeping + [0] + [] + EdfTal.Zeros(n - 1);
    }
  }

  lemma ScanEmpty(tal: Text, stamp: Text, before: seq<ReadNote>, mode: Mode)
    requires Laid(tal, stamp, []) && IsOnset(stamp) && !mode.later
    ensures var s := Scanned(before, tal, |tal|, mode); s.error == 0 && s.notes == before && !s.wide
  {
    var trace := TraceOf(before, tal, mode);
    ScanKeeping(trace, tal, mode, stamp);
    ScanZeros(trace, tal, mode, |stamp| + 3, |tal|);
  }

  lemma ScanOne(tal: Text, stamp: Text, o: Text, u: Text, text: Text, before: seq<ReadNote>, mode: Mode)
    requires Laid(tal, stamp, (o + OptionalDuration(u) + [SEP]) + (text + [SEP])) && IsOnset(stamp) && !mode.later
    requires IsOnset(o) && (u == [] || IsDecimal(u)) && Plain(text) && |text| <= MAX_LEN
    ensures var s := Scanned(before, tal, |tal|, mode);
            && s.error == 0 && s.notes == before + [ReadNote(LongTime(o), Printable(Truncated(u, 15)), text)]
            && s.wide == Wide(o)
  {
    var trace := TraceOf(before, tal, mode);
    ScanKeeping(trace, tal, mode, stamp);
    var p := |stamp| + 3;
    ScanNote(trace, tal, mode, p, o, u, text);
    ScanRest(trace, tal, mode, p + |o| + |OptionalDuration(u)| + |text| + 2);
  }

  /** After the last description only zeros follow. */
  lemma ScanRest(trace: seq<Scan>, tal: Text, mode: Mode, p: nat)
    requires IsTrace(trace, tal, mode) && 0 < p <= |tal| && forall j | p <= j < |tal| :: tal[j] == 0
    requires trace[p].error == 0 && tal[p-1] == SEP
    ensures trace[|tal|].error == 0 && trace[|tal|].notes == trace[p].notes && trace[|tal|].wide == trace[p].wide
  {
    if trace[p].done {
      ScanDone(trace, tal, mode, p, |tal|);
    } else {
      ScanZeros(trace, tal, mode, p, |tal|);
    }
  }

  /** Scanning a record's annotation signal adds the annotation written there, if any. */
  lemma ScanTal(tal: Text, stamp: Text, k: nat, notes: seq<EdfTal.Note>, before: seq<ReadNote>, mode: Mode)
    requires Laid(tal, stamp, Body(k, notes)) && IsOnset(stamp) && EdfTal.AllWritable(notes) && !mode.later
    ensures var s := Scanned(before, tal, |tal|, mode);
            && s.error == 0 && s.notes == before + (if k < |notes| then [ReadBack(notes[k])] else [])
            && s.wide == (k < |notes| && notes[k].onset >= MAX_ONSET)
  {
    if k < |notes| {
      NoteParts(notes[k]);
      ScanOne(tal, stamp, OnsetText(notes[k].onset), NoteDuration(notes[k]), notes[k].text, before, mode);
    } else {
      ScanEmpty(tal, stamp, before, mode);
    }
  }

  lemma {:induction false} FirstSepAt(bytes: Text, k: nat, p: nat, limit: int)
    requires k <= p < limit <= |bytes| && bytes[p] == SEP && forall j | k <= j < p :: bytes[j] != SEP
    ensures FirstSep(bytes, k, limit) == p
    decreases p - k
  {
    if k < p { FirstSepAt(bytes, k + 1, p, limit); }
  }

  lemma StampBytes(bytes: Text, t: Text)
    requires Segment(bytes, 0, (t + [SEP]) + [SEP, 0]) && Plain(t)
    ensures |t| + 3 <= |bytes| && bytes[..|t|] == t && bytes[|t|] == SEP == bytes[|t|+1]
    ensures forall j | 0 <= j < |t| :: bytes[j] != SEP
  {
    SegmentSplit(bytes, 0, t + [SEP], [SEP, 0]);
    SegmentSplit(bytes, 0, t, [SEP]);
    assert [SEP, 0][0] == SEP && [SEP][0] == SEP;
    forall j | 0 <= j < |t| ensures bytes[j] == t[j] && bytes[j] != SEP {
      assert bytes[0+j] == t[j];
    }
  }

  /** The time-keeping check finds the stamp at the start of the signal. */
  lemma StampFound(bytes: Text, t: Text, first: bool, elapsed: int, reader: Reader)
    requires Segment(bytes, 0, (t + [SEP]) + [SEP, 0]) && IsOnset(t)
    ensures CheckTime(bytes, first, elapsed, reader) ==
            var e := TimeError(first, elapsed, LongTime(t), reader);
            TimeCheck(e, if e == 0 then LongTime(t) else elapsed, Wide(t))
  {
    NumbersArePlain(t);
    StampBytes(bytes, t);
    FirstSepAt(bytes, 0, |t|, |bytes| - 2);
    assert CString(t) == t && bytes[..FirstSep(bytes, 0, |bytes| - 2)] == t;
  }

  /** A record's stamp may follow that of the record before it. */
  lemma StampAccepted(k: nat, elapsed: int, reader: Reader)
    requires 0 <= reader.recordDuration && RecordTime(k, reader.recordDuration) <= MAX_LL
    requires k > 0 ==> elapsed == RecordTime(k - 1, reader.recordDuration)
    ensures TimeError(k == 0, elapsed, RecordTime(k, reader.recordDuration), reader) == 0
  {
  }

  /** A signal without errors. */
  lemma SignalAccepted(st: Reading, i: nat, bytes: Text, reader: Reader, time: int, wide: bool)
    requires bytes != [] && bytes[|bytes|-1] == 0
    requires CheckTime(bytes, i == 0, st.elapsed, reader) == TimeCheck(0, time, wide)
    requires Scanned(st.notes, bytes, |bytes|, Mode(false, reader.stopAtEnd)).error == 0
    ensures var s := Scanned(st.notes, bytes, |bytes|, Mode(false, reader.stopAtEnd));
            ReadSignal(st, i, 0, bytes, reader) ==
              Reading(0, s.notes, time, if i == 0 then time else st.startOffset, st.wide || wide || s.wide)
  {
  }

  /** What the first k records of a closed file hold. */
  function ReadBackAll(notes: seq<EdfTal.Note>, k: nat): seq<ReadNote> {
    seq(Min(|notes|, k), i requires 0 <= i < Min(|notes|, k) => ReadBack(notes[i]))
  }

  lemma ReadBackNext(notes: seq<EdfTal.Note>, k: nat)
    ensures ReadBackAll(notes, k + 1) == ReadBackAll(notes, k) + if k < |notes| then [ReadBack(notes[k])] else []
  {
  }

  /** From these times on, in 100 microseconds and in 100 ns, the reader's 64-bit arithmetic overflows. */
  const MAX_ONSET := 1_000_000_000_000_000
  const MAX_TIME := 1_000_000_000_000_000_000

  function TooWide(notes: seq<EdfTal.Note>, d: nat, k: nat): bool {
    k > 0 && (TooWide(notes, d, k - 1) || RecordTime(k - 1, d) >= MAX_TIME ||
              (k - 1 < |notes| && notes[k-1].onset >= MAX_ONSET))
  }

  function Expected(notes: seq<EdfTal.Note>, d: nat, k: nat): Reading {
    Reading(0, ReadBackAll(notes, k), if k == 0 then 0 else RecordTime(k - 1, d), 0, TooWide(notes, d, k))
  }

  /** No time of the first k records overflows: their stamps and the onsets of their annotations are below 10^11 s. */
  ghost predicate TimesFit(notes: seq<EdfTal.Note>, d: nat, k: nat) {
    && (k > 0 ==> RecordTime(k - 1, d) < MAX_TIME)
    && forall i: nat | i < |notes| && i < k :: notes[i].onset < MAX_ONSET
  }

  lemma {:induction false} WideExactly(notes: seq<EdfTal.Note>, d: nat, k: nat)
    ensures TimesFit(notes, d, k) <==> !TooWide(notes, d, k)
  {
    if k > 0 {
      WideExactly(notes, d, k - 1);
      if k > 1 { EdfTal.TimeGrows(k - 2, k - 1, d); }
    }
  }

  /** Reading record k of a closed file after the records before it. */
  lemma ReadLaid(tal: Text, stamp: Text, k: nat, d: nat, notes: seq<EdfTal.Note>, reader: Reader)
    requires Laid(tal, stamp, Body(k, notes)) && IsOnset(stamp) && LongTime(stamp) == RecordTime(k, d) <= MAX_LL
    requires Wide(stamp) <==> RecordTime(k, d) >= MAX_TIME
    requires EdfTal.AllWritable(notes) && reader.recordDuration == d
    ensures ReadSignal(Expected(notes, d, k), k, 0, tal, reader) == Expected(notes, d, k + 1)
  {
    var st := Expected(notes, d, k);
    StampFound(tal, stamp, k == 0, st.elapsed, reader);
    StampAccepted(k, st.elapsed, reader);
    ScanTal(tal, stamp, k, notes, st.notes, Mode(false, reader.stopAtEnd));
    SignalAccepted(st, k, tal, reader, RecordTime(k, d), Wide(stamp));
    ReadBackNext(notes, k);
  }

  /** The records of a closed file have one annotation signal each. */
  ghost predicate ClosedRecord(records: seq<Record>, k: nat, d: nat, notes: seq<EdfTal.Note>) {
    k < |records| && records[k] == [EdfTal.FinalTal(k, d, notes)]
  }

  ghost predicate ClosedFile(records: seq<Record>, d: nat, notes: seq<EdfTal.Note>) {
    forall k: nat | k < |records| :: ClosedRecord(records, k, d, notes)
  }

  lemma RecordReadsBack(records: seq<Record>, k: nat, d: nat, notes: seq<EdfTal.Note>, reader: Reader)
    requires k < |records| && ClosedFile(records, d, notes)
    requires RecordTime(k, d) <= MAX_LL && reader.recordDuration == d && EdfTal.AllWritable(notes)
    ensures WellFormed(records[k])
    ensures ReadRecord(Expected(notes, d, k), k, records[k], |records[k]|, reader) == Expected(notes, d, k + 1)
  {
    assert ClosedRecord(records, k, d, notes);
    var tal, stamp := EdfTal.FinalTal(k, d, notes), RecordStamp(k, d);
    LaidTal(k, d, notes);
    RecordStampReadsBack(k, d);
    ReadLaid(tal, stamp, k, d, notes, reader);
    OneSignal(Expected(notes, d, k), k, tal, reader);
  }

  lemma OneSignal(st: Reading, i: nat, bytes: Text, reader: Reader)
    requires st.code == 0 && bytes != []
    ensures ReadRecord(st, i, [bytes], 1, reader) == ReadSignal(st, i, 0, bytes, reader)
  {
    assert ReadRecord(st, i, [bytes], 0, reader) == st;
  }

  lemma NextRecord(records: seq<Record>, n: nat, reader: Reader, before: Reading, after: Reading)
    requires n < |records| && AllWellFormed(records)
    requires ReadRecords(records, n, reader) == before && before.code == 0
    requires ReadRecord(before, n, records[n], |records[n]|, reader) == after
    ensures ReadRecords(records, n + 1, reader) == after
  {
  }

  lemma ClosedWellFormed(records: seq<Record>, d: nat, notes: seq<EdfTal.Note>)
    requires ClosedFile(records, d, notes) && RecordTime(|records|, d) <= MAX_LL && EdfTal.AllWritable(notes)
    ensures AllWellFormed(records)
  {
    forall k: nat | k < |records| ensures WellFormed(records[k]) {
      EdfTal.TimeGrows(k, |records|, d);
      RecordReadsBack(records, k, d, notes, Reader(d, false, false));
    }
  }

  lemma {:induction false} ReadsAsExpected(
    records: seq<Record>, d: nat, notes: seq<EdfTal.Note>, k: nat, reader: Reader)
    requires ClosedFile(records, d, notes) && k <= |records|
    requires RecordTime(|records|, d) <= MAX_LL && reader.recordDuration == d && EdfTal.AllWritable(notes)
    ensures AllWellFormed(records)
    ensures ReadRecords(records, k, reader) == Expected(notes, d, k)
  {
    ClosedWellFormed(records, d, notes);
    if k > 0 {
      ReadsAsExpected(records, d, notes, k - 1, reader);
      EdfTal.TimeGrows(k - 1, |records|, d);
      RecordReadsBack(records, k - 1, d, notes, reader);
      NextRecord(records, k - 1, reader, Expected(notes, d, k - 1), Expected(notes, d, k));
    }
  }

  /**
    A closed file reads back without error as its first min(annotations, records) annotations, in order,
    each with its onset times 1000 as far as 64 bits hold it, its description, and its duration up to 15
    characters. No arithmetic overflows exactly if the record times and these onsets are below 10^11 s.
   */
  lemma AnnotationsRoundTrip(records: seq<Record>, d: nat, notes: seq<EdfTal.Note>, reader: Reader)
    requires ClosedFile(records, d, notes)
    requires RecordTime(|records|, d) <= MAX_LL && reader.recordDuration == d && EdfTal.AllWritable(notes)
    ensures AllWellFormed(records)
    ensures var n := |records|;
            ReadRecords(records, n, reader) ==
              Reading(0, ReadBackAll(notes, n), if n == 0 then 0 else RecordTime(n - 1, d), 0, !TimesFit(notes, d, n))
  {
    ReadsAsExpected(records, d, notes, |records|, reader);
    WideExactly(notes, d, |records|);
  }

  /** The onsets of the first k annotations have 64 bits in units of 100 ns. */
  predicate OnsetsFit(notes: seq<EdfTal.Note>, k: nat) {
    forall i: nat | i < |notes| && i < k :: notes[i].onset <= MAX_EXACT_ONSET
  }

  predicate OnsetExact(notes: seq<EdfTal.Note>, read: seq<ReadNote>, i: nat) {
    i < |read| && i < |notes| && read[i].onset == notes[i].onset * 1000
  }

  /** All onsets read back exactly if and only if they have 64 bits in units of 100 ns. */
  lemma OnsetsReadBack(notes: seq<EdfTal.Note>, k: nat)
    requires EdfTal.AllWritable(notes)
    ensures var read := ReadBackAll(notes, k);
            (forall i: nat | i < |read| :: OnsetExact(notes, read, i)) <==> OnsetsFit(notes, k)
  {
    var read := ReadBackAll(notes, k);
    forall i: nat | i < |read| ensures OnsetExact(notes, read, i) <==> notes[i].onset <= MAX_EXACT_ONSET {
      OnsetFits(notes[i].onset);
    }
  }

  /** An onset that can be queued and written, and that reads back as a negative time. */
  lemma OnsetOverflows()
    ensures var note := EdfTal.Note(MAX_LL, -1, [65]);
            EdfTal.AllWritable([note]) && !TimesFit([note], 0, 1) && ReadBack(note).onset == -1000
  {
    LargestWraps();
    assert [EdfTal.Note(MAX_LL, -1, [65])][0].onset >= MAX_ONSET;
  }

  // ------------------------------------------------------------------ durations and the end of a recording

  /** A duration reads back in full exactly for whole seconds, or below 10^10 s. */
  lemma DurationIntact(note: EdfTal.Note)
    requires EdfTal.Writable(note) && note.duration >= 0
    ensures ReadBack(note).duration == DurationText(note.duration) <==>
            note.duration % 10_000 == 0 || note.duration < 100_000_000_000_000
  {
    DurationLength(note.duration);
  }

  /** The text of a duration stands for the duration queued. */
  lemma DurationValue(note: EdfTal.Note)
    requires EdfTal.Writable(note) && note.duration >= 0
    ensures TimeValue([PLUS] + DurationText(note.duration)) == note.duration * 1000
  {
    DurationWellFormed(note.duration);
    OnsetRoundTrip(note.duration);
  }

  /** A duration that is cut: its last decimal place is lost. */
  lemma DurationCut()
    ensures var note := EdfTal.Note(0, 100_000_000_000_001, []);
            && EdfTal.Writable(note) && |DurationText(note.duration)| == 16
            && ReadBack(note).duration == DurationText(note.duration)[..15] != DurationText(note.duration)
  {
    PowLiterals();
    assert Pow10(10) == 10_000_000_000;
    assert Pow10(11) == 100_000_000_000;
    SignificantBounds(10_000_000_000, 10);
    SignificantBounds(10_000_000_000, 11);
    PaddedDigits(1, 4);
  }

  predicate EndsRecording(note: EdfTal.Note) { RECORDING_ENDS <= note.text }

  /**
    Reading with EDFLIB_READ_ANNOTATIONS is documented to stop at "Recording ends". It ends with the first such
    annotation exactly if that is the last one of the first min(annotations, records) anyway.
   */
  lemma StopsAtRecordingEnds(records: seq<Record>, d: nat, notes: seq<EdfTal.Note>, reader: Reader, e: nat)
    requires ClosedFile(records, d, notes) && reader.recordDuration == d && EdfTal.AllWritable(notes)
    requires RecordTime(|records|, d) <= MAX_LL
    requires reader.stopAtEnd && e < |notes| && e < |records| && EndsRecording(notes[e])
    requires forall i | 0 <= i < e :: !EndsRecording(notes[i])
    ensures AllWellFormed(records)
    ensures ReadRecords(records, |records|, reader).notes == ReadBackAll(notes, e + 1) <==>
            e + 1 == Min(|notes|, |records|)
  {
    AnnotationsRoundTrip(records, d, notes, reader);
    if e + 1 < Min(|notes|, |records|) {
      assert |ReadBackAll(notes, |records|)| != |ReadBackAll(notes, e + 1)|;
    }
  }

  /** The annotation signals of a closed file with n records. */
  function ClosedRecords(notes: seq<EdfTal.Note>, d: nat, n: nat): (records: seq<Record>)
    ensures |records| == n && ClosedFile(records, d, notes)
  {
    seq(n, k requires 0 <= k < n => [EdfTal.FinalTal(k, d, notes)])
  }

  /** Two records, the first of which ends the recording: both annotations are read. */
  lemma ReadsOnAfterEnd()
    ensures var notes := [EdfTal.Note(0, -1, RECORDING_ENDS), EdfTal.Note(10_000, -1, [65])];
            var records := ClosedRecords(notes, TIME_DIMENSION, 2);
            && AllWellFormed(records)
            && ReadRecords(records, 2, Reader(TIME_DIMENSION, false, true)).notes ==
               [ReadNote(0, [], RECORDING_ENDS), ReadNote(10_000_000, [], [65])]
  {
    var notes := [EdfTal.Note(0, -1, RECORDING_ENDS), EdfTal.Note(10_000, -1, [65])];
    assert RecordTime(2, TIME_DIMENSION) == 2 * TIME_DIMENSION;
    var reader := Reader(TIME_DIMENSION, false, true);
    ReadsAsExpected(ClosedRecords(notes, TIME_DIMENSION, 2), TIME_DIMENSION, notes, 2, reader);
    TwoReadBack(notes);
  }

  lemma TwoReadBack(notes: seq<EdfTal.Note>)
    requires |notes| == 2
    ensures ReadBackAll(notes, 2) == [ReadBack(notes[0]), ReadBack(notes[1])]
  {
  }
}
