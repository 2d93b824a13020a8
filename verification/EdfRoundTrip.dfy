/**
  What was written to a file and closed is what its readers return, samples and annotations alike.
 */
module EdfRoundTrip {
  import DivMod
  import opened EdfNumbers
  import EdfTal
  import EdfAnnotations
  import opened EdfLayout
  import opened EdfFile

  /** Sample k of channel c reads as written, limited to the digital range. */
  ghost predicate SampleIntact(value: int, l: Layout, rounds: seq<Round>, c: nat, k: nat)
    requires l.Valid() && c < |l.signals|
  {
    var s := l.signals[c];
    && 0 <= k / s.samples < |rounds| && c < |rounds[k / s.samples]| && k % s.samples < |rounds[k / s.samples][c]|
    && value == Clamp(rounds[k / s.samples][c][k % s.samples], s)
  }

  /**
    The annotations read are the first min(annotations, records) ones, in order. Their onsets are exact if and
    only if they have 64 bits in units of 100 ns; no arithmetic overflows if and only if the times are below 10^11 s.
   */
  ghost predicate AnnotationsIntact(st: EdfAnnotations.Reading, d: nat, notes: seq<EdfTal.Note>, records: nat) {
    && st.code == 0 && st.notes == EdfAnnotations.ReadBackAll(notes, records)
    && ((forall i: nat | i < |st.notes| :: EdfAnnotations.OnsetExact(notes, st.notes, i)) <==>
          EdfAnnotations.OnsetsFit(notes, records))
    && (!st.wide <==> EdfAnnotations.TimesFit(notes, d, records))
  }

  /** Every sample and every annotation of a closed file reads back. */
  lemma FileRoundTrip(
    file: Text, l: Layout, d: nat, notes: seq<EdfTal.Note>, rounds: seq<Round>, records: nat,
    reader: EdfAnnotations.Reader)
    requires l.Valid() && |file| == l.RecordStart(records) && Closed(file, l, d, notes, rounds, records)
    requires rounds == [] || |rounds| == records
    requires RecordTime(records, d) <= MAX_LL && EdfTal.AllWritable(notes) && reader.recordDuration == d
    ensures forall c: nat, k: nat | |rounds| == records && c < |l.signals| && k < l.signals[c].samples * records ::
      SampleIntact(SampleAt(file, l, c, k, records), l, rounds, c, k)
    ensures EdfAnnotations.AllWellFormed(AnnotationSignals(file, l, records))
    ensures AnnotationsIntact(
      EdfAnnotations.ReadRecords(AnnotationSignals(file, l, records), records, reader), d, notes, records)
  {
    forall c: nat, k: nat | |rounds| == records && c < |l.signals| && k < l.signals[c].samples * records
      ensures SampleIntact(SampleAt(file, l, c, k, records), l, rounds, c, k)
    {
      SampleReadsBack(file, l, d, notes, rounds, c, k);
    }
    ClosedSignals(file, l, d, notes, rounds, records);
    EdfAnnotations.AnnotationsRoundTrip(AnnotationSignals(file, l, records), d, notes, reader);
    EdfAnnotations.OnsetsReadBack(notes, records);
  }

  /** One buffer for every signal and record, as long as the signal's samples per record. */
  predicate Complete(l: Layout, rounds: seq<Round>) {
    forall r | 0 <= r < |rounds| :: RoundComplete(l, rounds[r])
  }

  predicate RoundComplete(l: Layout, round: Round) {
    |round| == |l.signals| && forall c | 0 <= c < |round| :: |round[c]| >= l.signals[c].samples
  }

  /** Writes one record, signal by signal. */
  method WriteRound(w: Writer, round: Round)
    requires w.Valid() && w.partial == [] && w.layout.signals != [] && w.headerCode == 0
    requires RoundComplete(w.layout, round) && RecordTime(w.datarecords, w.recordDuration) <= MAX_LL
    modifies w
    ensures w.Valid() && w.partial == [] && w.rounds == old(w.rounds) + [round]
  {
    for c := 0 to |round|
      invariant w.Valid()
      invariant c < |round| ==> w.rounds == old(w.rounds) && w.partial == round[..c]
      invariant c == |round| ==> w.rounds == old(w.rounds) + [round] && w.partial == []
    {
      var code := w.WriteDigital(round[c]);
      assert round[..c+1] == round[..c] + [round[c]] && round[..|round|] == round;
    }
  }

  /** Writes all records and closes the file. */
  method WriteFile(l: Layout, d: nat, header: Text, rounds: seq<Round>, notes: seq<EdfTal.Note>)
    returns (file: Text, records: nat)
    requires l.Valid() && |header| == l.header && Complete(l, rounds) && (l.signals == [] ==> rounds == [])
    requires EdfTal.AllWritable(notes) && RecordTime(Max(|rounds|, |notes|), d) <= MAX_LL
    ensures records == if rounds == [] then |notes| else |rounds|
    ensures |file| == l.RecordStart(records) && Closed(file, l, d, notes, rounds, records)
  {
    var w := new Writer(l, d, header, 0);
    for r := 0 to |rounds|
      invariant w.Valid() && w.layout == l && w.recordDuration == d && w.headerCode == 0
      invariant w.partial == [] && w.rounds == rounds[..r]
    {
      EdfTal.TimeGrows(r, Max(|rounds|, |notes|), d);
      WriteRound(w, rounds[r]);
    }
    assert rounds[..|rounds|] == rounds;
    var code;
    code, file, records := CloseFile(w, notes);
  }

  /** edflib_get_annotations on a closed file. */
  method ReadNotes(
    file: Text, l: Layout, d: nat, records: nat, stopAtEnd: bool,
    ghost notes: seq<EdfTal.Note>, ghost rounds: seq<Round>)
    returns (st: EdfAnnotations.Reading)
    requires l.Valid() && |file| == l.RecordStart(records) && Closed(file, l, d, notes, rounds, records)
    requires rounds == [] || |rounds| == records
    requires RecordTime(records, d) <= MAX_LL && EdfTal.AllWritable(notes)
    ensures AnnotationsIntact(st, d, notes, records)
  {
    var reader := EdfAnnotations.Reader(d, false, stopAtEnd);
    FileRoundTrip(file, l, d, notes, rounds, records, reader);
    st := EdfAnnotations.GetAnnotations(AnnotationSignals(file, l, records), reader);
  }

  /** A reader of a closed file, moved to a position of one signal and asked for n samples. */
  method ReadSamples(
    file: Text, l: Layout, signal: nat, position: nat, n: nat,
    ghost d: nat, ghost notes: seq<EdfTal.Note>, ghost rounds: seq<Round>, records: nat)
    returns (code: int, buf: seq<int>)
    requires l.Valid() && |file| == l.RecordStart(records) && Closed(file, l, d, notes, rounds, records)
    requires |rounds| == records && signal < |l.signals|
    ensures code == |buf| == Max(0, Min(n, l.signals[signal].samples * |rounds| - position))
    ensures forall i: nat | i < |buf| :: SampleIntact(buf[i], l, rounds, signal, position + i)
  {
    var r := new Reader(file, l, records);
    var start := r.Seek(signal, position, FromStart);
    code, buf := r.ReadDigital(signal, n);
    forall i: nat | i < |buf| ensures SampleIntact(buf[i], l, rounds, signal, position + i) {
      SampleReadsBack(file, l, d, notes, rounds, signal, position + i);
    }
  }

  /**
    A file from its first write to its readers: the annotations, with or without data records, and as
    many of the n samples of one signal from a position on as there are.
   */
  method WriteAndRead(
    l: Layout, d: nat, header: Text, rounds: seq<Round>, notes: seq<EdfTal.Note>,
    signal: nat, position: nat, n: nat, stopAtEnd: bool)
    returns (st: EdfAnnotations.Reading, code: int, buf: seq<int>)
    requires l.Valid() && |header| == l.header && Complete(l, rounds) && (l.signals == [] ==> rounds == [])
    requires EdfTal.AllWritable(notes) && RecordTime(Max(|rounds|, |notes|), d) <= MAX_LL
    ensures AnnotationsIntact(st, d, notes, if rounds == [] then |notes| else |rounds|)
    ensures rounds != [] && signal < |l.signals| ==>
      && code == |buf| == Max(0, Min(n, l.signals[signal].samples * |rounds| - position))
      && forall i: nat | i < |buf| :: SampleIntact(buf[i], l, rounds, signal, position + i)
  {
    var file, records := WriteFile(l, d, header, rounds, notes);
    EdfTal.TimeGrows(records, Max(|rounds|, |notes|), d);
    st := ReadNotes(file, l, d, records, stopAtEnd, notes, rounds);
    code, buf := -1, [];
    if |rounds| > 0 && signal < |l.signals| {
      code, buf := ReadSamples(file, l, signal, position, n, d, notes, rounds, records);
    }
  }
}
