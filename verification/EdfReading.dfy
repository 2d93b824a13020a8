/**
  Whole files of annotation signals: which ones edflib_get_annotations accepts, and what it reads from
  them. Every signal must be in the grammar, and the first one of each record must begin with a time
  stamp that follows the stamp before it (section 2.2.4 of the EDF+ specification).
 */
module EdfReading {
  import opened EdfNumbers
  import EdfTal
  import opened EdfAnnotations
  import opened EdfGrammar

  /** An annotation signal: zeros before its lists, the lists, and zeros behind them. */
  datatype Shape = Shape(lead: nat, tals: seq<Tal>, trail: nat)

  ghost predicate Shaped(bytes: Text, s: Shape) { IsSignal(bytes, s.lead, s.tals, s.trail) }

  /** The signal begins with a list without a duration, of which the first text is empty. */
  predicate Stamped(s: Shape) {
    s.lead == 0 && s.tals != [] && s.tals[0].duration == [] && s.tals[0].texts != [] && s.tals[0].texts[0] == []
  }

  /** The time of that list. */
  function StampOf(s: Shape): int {
    if Stamped(s) && s.tals[0].onset != [] then LongTime(s.tals[0].onset) else 0
  }

  /** A first stamp is below one second; a later one is one record duration behind, or more if there may be gaps. */
  predicate Follows(first: bool, before: int, t: int, reader: Reader) {
    if first then t < 10_000_000
    else if reader.discontinuous then Wrapped(t - before) >= reader.recordDuration
    else Wrapped(t - before) == reader.recordDuration
  }

  // ------------------------------------------------------------------ the time stamp of a signal

  lemma {:induction false} FirstSepAt(bytes: Text, k: nat, limit: int, p: nat)
    requires k <= p < limit <= |bytes| && bytes[p] == SEP && forall j | k <= j < p :: bytes[j] != SEP
    ensures FirstSep(bytes, k, limit) == p
    decreases p - k
  {
    if k < p { FirstSepAt(bytes, k + 1, limit, p); }
  }

  lemma {:induction false} NoSepBefore(bytes: Text, k: nat, limit: int)
    requires limit <= |bytes| && forall j | k <= j < limit :: bytes[j] != SEP
    ensures FirstSep(bytes, k, limit) == if k < limit then limit else k
    decreases limit - k
  {
    if k < limit { NoSepBefore(bytes, k + 1, limit); }
  }

  lemma {:induction false} WholeCString(s: Text)
    requires forall i | 0 <= i < |s| :: s[i] != 0
    ensures CString(s) == s
  {
    if s != [] { WholeCString(s[1..]); }
  }

  lemma {:induction false} FirstList(tals: seq<Tal>, n: nat)
    requires 0 < n <= |tals|
    ensures TalBytes(tals[0]) <= TalsBytes(tals, n)
  {
    if n > 1 { FirstList(tals, n - 1); }
  }

  lemma {:induction false} FirstOk(tals: seq<Tal>, n: nat)
    requires 0 < n <= |tals| && AllOk(tals, n)
    ensures TalOk(tals[0])
  {
    if n > 1 { FirstOk(tals, n - 1); }
  }

  /** The bytes of a signal begin with its zeros and its first list. */
  lemma {:induction false} SignalStart(bytes: Text, s: Shape)
    requires Shaped(bytes, s) && s.tals != []
    ensures EdfTal.Zeros(s.lead) + TalBytes(s.tals[0]) <= bytes && TalOk(s.tals[0]) && s.lead <= 1
  {
    FirstList(s.tals, |s.tals|);
    FirstOk(s.tals, |s.tals|);
  }

  lemma {:induction false} FirstText(texts: seq<Text>, n: nat)
    requires 0 < n <= |texts|
    ensures texts[0] + [SEP] <= TextBytes(texts, n)
  {
    if n > 1 { FirstText(texts, n - 1); }
  }

  /** The times of a list hold no zero and no separator. */
  lemma {:induction false} TimesPlain(t: Tal)
    requires TalOk(t)
    ensures var times := t.onset + OptionalDuration(t.duration);
            forall i | 0 <= i < |times| :: times[i] != 0 && times[i] != SEP
    ensures t.onset != [] && (IsOnset(t.onset + OptionalDuration(t.duration)) <==> t.duration == [])
  {
    FormParts(t, |t.texts|);
    NumbersArePlain(t.onset);
    NumbersArePlain(t.duration);
    if t.duration == [] {
      assert t.onset + [] == t.onset;
    } else {
      var times := t.onset + OptionalDuration(t.duration);
      assert times[1..][|t.onset|-1] == DURATION_MARK;
    }
  }

  /** The check of a signal, from its first separator on. */
  lemma {:induction false} CheckAt(bytes: Text, p: nat, first: bool, elapsed: int, reader: Reader)
    requires p < |bytes| && bytes[p] == SEP && forall j | 0 <= j < p :: bytes[j] != SEP
    ensures var c := CheckTime(bytes, first, elapsed, reader);
            && (c.error == 0 <==>
                  && p + 2 < |bytes| && bytes[p+1] == SEP && IsOnset(CString(bytes[..p]))
                  && Follows(first, elapsed, LongTime(CString(bytes[..p])), reader))
            && (c.error == 0 ==> c.elapsed == LongTime(CString(bytes[..p])))
  {
    if p + 2 < |bytes| {
      FirstSepAt(bytes, 0, |bytes| - 2, p);
    } else {
      NoSepBefore(bytes, 0, |bytes| - 2);
    }
  }

  lemma {:induction false} NoStamp(bytes: Text, first: bool, elapsed: int, reader: Reader)
    requires forall j | 0 <= j < |bytes| :: bytes[j] != SEP
    ensures CheckTime(bytes, first, elapsed, reader).error != 0
  {
    NoSepBefore(bytes, 0, |bytes| - 2);
  }

  /** Where the first separator of a signal is, and what stands before and behind it. */
  lemma {:induction false} StampPlace(bytes: Text, s: Shape) returns (p: nat)
    requires Shaped(bytes, s) && s.tals != []
    ensures p < |bytes| && bytes[p] == SEP && forall j | 0 <= j < p :: bytes[j] != SEP
    ensures s.tals[0].onset != []
    ensures p + 2 < |bytes| && bytes[p+1] == SEP && IsOnset(CString(bytes[..p])) <==> Stamped(s)
    ensures Stamped(s) ==> CString(bytes[..p]) == s.tals[0].onset
  {
    SignalStart(bytes, s);
    var t := s.tals[0];
    TimesPlain(t);
    var times, texts := t.onset + OptionalDuration(t.duration), TextBytes(t.texts, |t.texts|);
    p := s.lead + |times|;
    assert EdfTal.Zeros(s.lead) + (times + [SEP] + texts + [0]) <= bytes;
    Positions(bytes, s.lead, times, texts);
    BehindStamp(t);
    if s.lead == 0 {
      assert bytes[..p] == times;
      WholeCString(times);
    } else {
      assert bytes[..p][0] == 0;
    }
  }

  lemma {:induction false} Positions(bytes: Text, lead: nat, times: Text, texts: Text)
    requires EdfTal.Zeros(lead) + (times + [SEP] + texts + [0]) <= bytes
    requires forall i | 0 <= i < |times| :: times[i] != SEP
    ensures var p := lead + |times|;
            && p + 1 < |bytes| && bytes[p] == SEP && (texts != [] ==> p + 2 < |bytes|)
            && (forall j | 0 <= j < p :: bytes[j] != SEP) && (forall j | 0 <= j < lead :: bytes[j] == 0)
            && bytes[p+1] == (if texts != [] then texts[0] else 0) && bytes[lead..p] == times
  {
    var all := EdfTal.Zeros(lead) + (times + [SEP] + texts + [0]);
    var p := lead + |times|;
    forall j | 0 <= j < p ensures bytes[j] != SEP && (j < lead ==> bytes[j] == 0) {
      assert bytes[j] == all[j];
    }
    assert bytes[p] == all[p] && bytes[p+1] == all[p+1];
    forall j | lead <= j < p ensures bytes[j] == times[j-lead] {
      assert bytes[j] == all[j];
    }
  }

  lemma {:induction false} BehindStamp(t: Tal)
    requires TalOk(t)
    ensures var texts := TextBytes(t.texts, |t.texts|);
            texts != [] && texts[0] == SEP <==> t.texts != [] && t.texts[0] == []
  {
    if t.texts != [] {
      FormParts(t, |t.texts|);
      FirstText(t.texts, |t.texts|);
      assert (t.texts[0] + [SEP])[0] == if t.texts[0] == [] then SEP else t.texts[0][0];
    }
  }

  /** The time-keeping check accepts exactly the signals that begin with a stamp that may follow. */
  lemma {:induction false} StampExactly(bytes: Text, s: Shape, first: bool, elapsed: int, reader: Reader)
    requires Shaped(bytes, s)
    ensures var c := CheckTime(bytes, first, elapsed, reader);
            && (c.error == 0 <==> Stamped(s) && Follows(first, elapsed, StampOf(s), reader))
            && (c.error == 0 ==> c.elapsed == StampOf(s))
  {
    if s.tals == [] {
      NoStamp(bytes, first, elapsed, reader);
    } else {
      var p := StampPlace(bytes, s);
      CheckAt(bytes, p, first, elapsed, reader);
    }
  }

  /** Which error the check of a time stamp reports: p is the first separator, and t the time before it. */
  lemma {:induction false} StampErrors(
    bytes: Text, p: nat, first: bool, elapsed: int, reader: Reader)
    requires p + 2 < |bytes| && bytes[p] == 20 && forall j | 0 <= j < p :: bytes[j] != 20
    ensures CheckTime(bytes, first, elapsed, reader).error ==
            if bytes[p+1] != 20 then 6
            else if !IsOnset(CString(bytes[..p])) then 36
            else if Follows(first, elapsed, LongTime(CString(bytes[..p])), reader) then 0
            else if first then 2
            else if reader.discontinuous then 4
            else 3
  {
    FirstSepAt(bytes, 0, |bytes| - 2, p);
  }

  /** Error 1: the bytes before the last two have no separator. */
  lemma {:induction false} NoStampError(bytes: Text, first: bool, elapsed: int, reader: Reader)
    ensures CheckTime(bytes, first, elapsed, reader).error == 1 <==> forall j | 0 <= j < |bytes| - 2 :: bytes[j] != 20
  {
    if forall j | 0 <= j < |bytes| - 2 :: bytes[j] != 20 {
      NoSepBefore(bytes, 0, |bytes| - 2);
    } else {
      var p := FirstSeparator(bytes, |bytes| - 2);
      StampErrors(bytes, p, first, elapsed, reader);
    }
  }

  lemma {:induction false} FirstSeparator(bytes: Text, n: nat) returns (p: nat)
    requires n <= |bytes| && exists j :: 0 <= j < n && bytes[j] == 20
    ensures p < n && bytes[p] == 20 && forall j | 0 <= j < p :: bytes[j] != 20
  {
    p := 0;
    while bytes[p] != 20
      invariant p < n && forall j | 0 <= j < p :: bytes[j] != 20
      decreases n - p
    {
      p := p + 1;
    }
  }

  /** The text that ends a recording, and the bytes that delimit texts and durations. */
  lemma {:induction false} DelimitersExactly()
    ensures |RECORDING_ENDS| == |"Recording ends"|
    ensures forall i | 0 <= i < |RECORDING_ENDS| :: RECORDING_ENDS[i] == "Recording ends"[i] as int
    ensures SEP == 20 && DURATION_MARK == 21
  {
    var text := "Recording ends";
    assert text[..7] == "Recordi" && text[7..] == "ng ends";
  }

  /** Which error a byte of an annotation signal raises. */
  lemma {:induction false} ScanErrors(s: Scan, bytes: Text, k: nat, mode: Mode)
    requires s.Timed() && s.Running() && k < |bytes|
    ensures var e, c := ScanAt(s, bytes, k, mode).error, bytes[k];
            var mark := s.zero <= 1 && c == 21 && !s.onset && !s.duration && !s.durationStart && s.annotsInTal == 0;
            && (e == 33 <==> c == 0 && s.zero == 0 && k > 0 && bytes[k-1] != 20)
            && (e == 34 <==> c != 0 && s.zero > 1)
            && (e == 35 <==> c == 21 && s.zero <= 1 && !mark)
            && (e == 36 <==> (mark || (c == 20 && s.zero <= 1 && !s.onset)) && !IsOnset(s.scratch))
            && (e == 37 <==> c == 20 && s.zero <= 1 && s.onset && s.durationStart && !IsDecimal(s.scratch))
            && (e == 0 || 33 <= e <= 37)
  {
    if bytes[k] != 0 && s.zero <= 1 { ByteErrors(s.(zero := 0), bytes[k], mode); }
  }

  lemma {:induction false} ByteErrors(s: Scan, c: int, mode: Mode)
    requires s.Timed() && s.Running()
    ensures var e := AfterByte(s, c, mode).error;
            var mark := c == 21 && !s.onset && !s.duration && !s.durationStart && s.annotsInTal == 0;
            && (e == 35 <==> c == 21 && !mark)
            && (e == 36 <==> (mark || (c == 20 && !s.onset)) && !IsOnset(s.scratch))
            && (e == 37 <==> c == 20 && s.onset && s.durationStart && !IsDecimal(s.scratch))
            && (e == 0 || 35 <= e <= 37)
  {
  }

  // ------------------------------------------------------------------ one signal, one record

  lemma {:induction false} SignalEnds(bytes: Text, s: Shape)
    requires Shaped(bytes, s) && bytes != []
    ensures bytes[|bytes|-1] == 0
  {
    if s.tals != [] {
      var n := |s.tals|;
      assert TalsBytes(s.tals, n) == TalsBytes(s.tals, n - 1) + TalBytes(s.tals[n-1]);
    }
  }

  predicate StampFollows(st: Reading, i: nat, s: Shape, reader: Reader) {
    Stamped(s) && Follows(i == 0, st.elapsed, StampOf(s), reader)
  }

  /** What a signal does to the reading. */
  ghost predicate SignalResult(st: Reading, st': Reading, i: nat, r: nat, s: Shape, reader: Reader) {
    && (st'.code == 0 <==> (r == 0 ==> StampFollows(st, i, s, reader)))
    && (st'.code == 0 ==>
          && st'.notes == st.notes + Created(r != 0, AllNotes(s.tals, |s.tals|))
          && st'.elapsed == (if r == 0 then StampOf(s) else st.elapsed)
          && st'.startOffset == if r == 0 && i == 0 then StampOf(s) else st.startOffset)
  }

  lemma {:induction false} SignalExactly(st: Reading, i: nat, r: nat, bytes: Text, s: Shape, reader: Reader)
    requires bytes != [] && Shaped(bytes, s) && !reader.stopAtEnd
    ensures SignalResult(st, ReadSignal(st, i, r, bytes, reader), i, r, s, reader)
  {
    SignalEnds(bytes, s);
    SignalRead(bytes, Mode(r != 0, false), st.notes, s.lead, s.tals, s.trail);
    if r == 0 { StampExactly(bytes, s, i == 0, st.elapsed, reader); }
  }

  ghost predicate RecordShaped(record: Record, shapes: seq<Shape>) {
    |record| == |shapes| && forall r | 0 <= r < |record| :: Shaped(record[r], shapes[r])
  }

  /** The annotations of the first n signals of a record. */
  function RecordNotes(shapes: seq<Shape>, n: nat): seq<ReadNote>
    requires n <= |shapes|
  {
    if n == 0 then []
    else
      var tals := shapes[n-1].tals;
      RecordNotes(shapes, n - 1) + Created(n > 1, AllNotes(tals, |tals|))
  }

  /** The record, if it has annotation signals, begins with a stamp that may follow. */
  predicate Timed(st: Reading, i: nat, shapes: seq<Shape>, reader: Reader) {
    shapes != [] ==> StampFollows(st, i, shapes[0], reader)
  }

  /** What the first n signals of a record do to the reading. */
  ghost predicate RecordResult(st: Reading, st': Reading, i: nat, shapes: seq<Shape>, n: nat, reader: Reader)
    requires n <= |shapes|
  {
    && (st'.code == 0 <==> (n > 0 ==> StampFollows(st, i, shapes[0], reader)))
    && (st'.code == 0 ==>
          && st'.notes == st.notes + RecordNotes(shapes, n)
          && st'.elapsed == (if n > 0 then StampOf(shapes[0]) else st.elapsed)
          && st'.startOffset == if n > 0 && i == 0 then StampOf(shapes[0]) else st.startOffset)
  }

  lemma {:induction false} FirstSignal(st: Reading, st': Reading, i: nat, shapes: seq<Shape>, reader: Reader)
    requires shapes != [] && SignalResult(st, st', i, 0, shapes[0], reader)
    ensures RecordResult(st, st', i, shapes, 1, reader)
  {
    var all := AllNotes(shapes[0].tals, |shapes[0].tals|);
    assert RecordNotes(shapes, 0) == [];
    assert RecordNotes(shapes, 1) == [] + Created(false, all);
    assert [] + Created(false, all) == Created(false, all);
  }

  lemma {:induction false} LaterSignal(
    st: Reading, mid: Reading, st': Reading, i: nat, shapes: seq<Shape>, n: nat, reader: Reader)
    requires 1 < n <= |shapes| && RecordResult(st, mid, i, shapes, n - 1, reader)
    requires if mid.code != 0 then st' == mid else SignalResult(mid, st', i, n - 1, shapes[n-1], reader)
    ensures RecordResult(st, st', i, shapes, n, reader)
  {
    if mid.code == 0 {
      var all := AllNotes(shapes[n-1].tals, |shapes[n-1].tals|);
      assert RecordNotes(shapes, n) == RecordNotes(shapes, n - 1) + Created(true, all);
      Associate(st.notes, RecordNotes(shapes, n - 1), Created(true, all));
    }
  }

  lemma Associate(a: seq<ReadNote>, b: seq<ReadNote>, c: seq<ReadNote>)
    ensures (a + b) + c == a + (b + c)
  {
  }

  lemma {:induction false} RecordExactly(
    st: Reading, i: nat, record: Record, shapes: seq<Shape>, n: nat, reader: Reader)
    requires WellFormed(record) && RecordShaped(record, shapes) && st.code == 0 && n <= |record|
    requires !reader.stopAtEnd
    ensures RecordResult(st, ReadRecord(st, i, record, n, reader), i, shapes, n, reader)
  {
    if n > 0 {
      RecordExactly(st, i, record, shapes, n - 1, reader);
      var mid, st' := ReadRecord(st, i, record, n - 1, reader), ReadRecord(st, i, record, n, reader);
      if mid.code == 0 {
        SignalExactly(mid, i, n - 1, record[n-1], shapes[n-1], reader);
      }
      if n == 1 { FirstSignal(st, st', i, shapes, reader); } else { LaterSignal(st, mid, st', i, shapes, n, reader); }
    } else {
      assert st.notes + [] == st.notes;
    }
  }

  // ------------------------------------------------------------------ all records

  ghost predicate FileShaped(records: seq<Record>, shapes: seq<seq<Shape>>) {
    |records| == |shapes| && forall i | 0 <= i < |records| :: RecordShaped(records[i], shapes[i])
  }

  /** The stamp of the last of the first n records; 0 before the first one. */
  function TimeBefore(shapes: seq<seq<Shape>>, n: nat): int
    requires n <= |shapes|
  {
    if n == 0 then 0 else if shapes[n-1] == [] then TimeBefore(shapes, n - 1) else StampOf(shapes[n-1][0])
  }

  /** Record i begins with a stamp that may follow the one before. */
  predicate TimedAt(shapes: seq<seq<Shape>>, i: nat, reader: Reader)
    requires i < |shapes|
  {
    shapes[i] != [] ==>
      Stamped(shapes[i][0]) && Follows(i == 0, TimeBefore(shapes, i), StampOf(shapes[i][0]), reader)
  }

  predicate AllTimed(shapes: seq<seq<Shape>>, n: nat, reader: Reader)
    requires n <= |shapes|
  {
    forall i: nat | i < n :: TimedAt(shapes, i, reader)
  }

  /** The annotations of the first n records, in their order. */
  function FileNotes(shapes: seq<seq<Shape>>, n: nat): seq<ReadNote>
    requires n <= |shapes|
  {
    if n == 0 then [] else FileNotes(shapes, n - 1) + RecordNotes(shapes[n-1], |shapes[n-1]|)
  }

  /** The stamp of the first record. */
  function Offset(shapes: seq<seq<Shape>>): int {
    if shapes == [] || shapes[0] == [] then 0 else StampOf(shapes[0][0])
  }

  lemma {:induction false} OneMoreTimed(shapes: seq<seq<Shape>>, n: nat, reader: Reader)
    requires 0 < n <= |shapes|
    ensures AllTimed(shapes, n, reader) <==> AllTimed(shapes, n - 1, reader) && TimedAt(shapes, n - 1, reader)
  {
  }

  ghost predicate ReadRight(st: Reading, shapes: seq<seq<Shape>>, n: nat)
    requires n <= |shapes|
  {
    && st.notes == FileNotes(shapes, n) && st.elapsed == TimeBefore(shapes, n)
    && st.startOffset == if n == 0 then 0 else Offset(shapes)
  }

  ghost predicate FileResult(st: Reading, shapes: seq<seq<Shape>>, n: nat, reader: Reader)
    requires n <= |shapes|
  {
    (st.code == 0 <==> AllTimed(shapes, n, reader)) && (st.code == 0 ==> ReadRight(st, shapes, n))
  }

  lemma {:induction false} OneMoreRecord(
    st: Reading, st': Reading, shapes: seq<seq<Shape>>, n: nat, reader: Reader)
    requires 0 < n <= |shapes| && FileResult(st, shapes, n - 1, reader)
    requires if st.code != 0 then st' == st
             else RecordResult(st, st', n - 1, shapes[n-1], |shapes[n-1]|, reader)
    ensures FileResult(st', shapes, n, reader)
  {
    OneMoreTimed(shapes, n, reader);
    assert FileNotes(shapes, n) == FileNotes(shapes, n - 1) + RecordNotes(shapes[n-1], |shapes[n-1]|);
  }

  /** Signals of the grammar are accepted if and only if the stamps follow each other. */
  lemma {:induction false} RecordsExactly(records: seq<Record>, shapes: seq<seq<Shape>>, n: nat, reader: Reader)
    requires AllWellFormed(records) && FileShaped(records, shapes) && n <= |records| && !reader.stopAtEnd
    ensures FileResult(ReadRecords(records, n, reader), shapes, n, reader)
  {
    if n > 0 {
      RecordsExactly(records, shapes, n - 1, reader);
      LastRecord(records, shapes, n, reader);
      OneMoreRecord(ReadRecords(records, n - 1, reader), ReadRecords(records, n, reader), shapes, n, reader);
    }
  }

  lemma {:induction false} LastRecord(records: seq<Record>, shapes: seq<seq<Shape>>, n: nat, reader: Reader)
    requires AllWellFormed(records) && FileShaped(records, shapes) && 0 < n <= |records| && !reader.stopAtEnd
    ensures var st, st' := ReadRecords(records, n - 1, reader), ReadRecords(records, n, reader);
            if st.code != 0 then st' == st else RecordResult(st, st', n - 1, shapes[n-1], |shapes[n-1]|, reader)
  {
    var st := ReadRecords(records, n - 1, reader);
    assert records[n-1] in records;
    assert WellFormed(records[n-1]) && RecordShaped(records[n-1], shapes[n-1]);
    if st.code == 0 {
      RecordExactly(st, n - 1, records[n-1], shapes[n-1], |shapes[n-1]|, reader);
    }
  }

  // ------------------------------------------------------------------ nothing else is accepted

  lemma {:induction false} ShapeOf(st: Reading, i: nat, r: nat, bytes: Text, reader: Reader) returns (s: Shape)
    requires bytes != [] && !reader.stopAtEnd && ReadSignal(st, i, r, bytes, reader).code == 0
    ensures Shaped(bytes, s)
  {
    var mode := Mode(r != 0, false);
    AcceptsExactly(bytes, mode, st.notes);
    var lead, tals, trail :| IsSignal(bytes, lead, tals, trail);
    s := Shape(lead, tals, trail);
  }

  lemma {:induction false} CodesBefore(st: Reading, i: nat, record: Record, n: nat, reader: Reader)
    requires WellFormed(record) && 0 < n <= |record| && ReadRecord(st, i, record, n, reader).code == 0
    ensures ReadRecord(st, i, record, n - 1, reader).code == 0
    ensures ReadSignal(ReadRecord(st, i, record, n - 1, reader), i, n - 1, record[n-1], reader).code == 0
  {
  }

  lemma {:induction false} ShapesOf(st: Reading, i: nat, record: Record, n: nat, reader: Reader)
    returns (shapes: seq<Shape>)
    requires WellFormed(record) && n <= |record| && !reader.stopAtEnd && st.code == 0
    requires ReadRecord(st, i, record, n, reader).code == 0
    ensures |shapes| == n && ShapedUpTo(record, shapes, n)
  {
    shapes := [];
    if n > 0 {
      CodesBefore(st, i, record, n, reader);
      shapes := ShapesOf(st, i, record, n - 1, reader);
      var s := ShapeOf(ReadRecord(st, i, record, n - 1, reader), i, n - 1, record[n-1], reader);
      OneMoreShape(record, shapes, s, n - 1);
      shapes := shapes + [s];
    }
  }

  /** The first n signals of the record have these shapes. */
  ghost predicate ShapedUpTo(record: Record, shapes: seq<Shape>, n: nat) {
    n <= |record| && n <= |shapes| && forall r | 0 <= r < n :: Shaped(record[r], shapes[r])
  }

  lemma {:induction false} OneMoreShape(record: Record, shapes: seq<Shape>, s: Shape, n: nat)
    requires n == |shapes| < |record| && ShapedUpTo(record, shapes, n) && Shaped(record[n], s)
    ensures ShapedUpTo(record, shapes + [s], n + 1)
  {
    forall r | 0 <= r < n + 1 ensures Shaped(record[r], (shapes + [s])[r]) {
      if r < n { assert Shaped(record[r], shapes[r]); }
    }
  }

  lemma {:induction false} FileShapes(records: seq<Record>, n: nat, reader: Reader) returns (shapes: seq<seq<Shape>>)
    requires AllWellFormed(records) && n <= |records| && !reader.stopAtEnd
    requires ReadRecords(records, n, reader).code == 0
    ensures |shapes| == n && FileShapedUpTo(records, shapes, n)
  {
    shapes := [];
    if n > 0 {
      var s := LastShapes(records, n, reader);
      var before := FileShapes(records, n - 1, reader);
      OneMoreFileShape(records, before, s, n - 1);
      shapes := before + [s];
    }
  }

  /** The shapes of the last record read. */
  lemma {:induction false} LastShapes(records: seq<Record>, n: nat, reader: Reader) returns (s: seq<Shape>)
    requires AllWellFormed(records) && 0 < n <= |records| && !reader.stopAtEnd
    requires ReadRecords(records, n, reader).code == 0
    ensures ReadRecords(records, n - 1, reader).code == 0
    ensures |s| == |records[n-1]| && ShapedUpTo(records[n-1], s, |s|)
  {
    var record := records[n-1];
    assert record in records;
    s := ShapesOf(ReadRecords(records, n - 1, reader), n - 1, record, |record|, reader);
  }

  ghost predicate FileShapedUpTo(records: seq<Record>, shapes: seq<seq<Shape>>, n: nat) {
    n <= |records| && n <= |shapes| && forall i | 0 <= i < n :: RecordShaped(records[i], shapes[i])
  }

  lemma {:induction false} OneMoreFileShape(
    records: seq<Record>, shapes: seq<seq<Shape>>, s: seq<Shape>, n: nat)
    requires n == |shapes| < |records| && FileShapedUpTo(records, shapes, n)
    requires |s| == |records[n]| && ShapedUpTo(records[n], s, |s|)
    ensures FileShapedUpTo(records, shapes + [s], n + 1)
  {
    assert RecordShaped(records[n], s);
    forall i | 0 <= i < n + 1 ensures RecordShaped(records[i], (shapes + [s])[i]) {
      if i < n { assert RecordShaped(records[i], shapes[i]); }
    }
  }

  /**
    The annotation signals of a file are read without an error if and only if all of them are in the
    grammar, every record begins with a time stamp, the first stamp is below one second and the others
    follow each other; then the annotations are all their texts but those of the time stamps.
   */
  lemma {:induction false} FileAcceptedExactly(records: seq<Record>, reader: Reader)
    requires AllWellFormed(records) && !reader.stopAtEnd
    ensures var st := ReadRecords(records, |records|, reader);
            && (st.code == 0 <==>
                  exists shapes :: FileShaped(records, shapes) && AllTimed(shapes, |shapes|, reader))
            && forall shapes | FileShaped(records, shapes) && st.code == 0 ::
                 ReadRight(st, shapes, |shapes|)
  {
    var n := |records|;
    forall shapes | FileShaped(records, shapes)
      ensures FileResult(ReadRecords(records, n, reader), shapes, n, reader)
    {
      RecordsExactly(records, shapes, n, reader);
    }
    if ReadRecords(records, n, reader).code == 0 {
      var shapes := FileShapes(records, n, reader);
      assert FileShaped(records, shapes);
    }
  }
}
