/**
  Writing annotations: the time-stamped annotation lists (TALs, section 2.2.2 of the EDF+
  specification) that edfclose_file puts into the annotation signal of the data records.
 */
module EdfTal {
  import DivMod
  import opened EdfNumbers

  const ANNOTATION_BYTES := 114
  const WRITE_MAX_LEN := 40
  const SEP := 20
  const DURATION_MARK := 21

  /** An annotation as queued for writing: times in 100 microseconds, no duration if negative. */
  datatype Note = Note(onset: int, duration: int, text: Text)

  function Zeros(n: nat): (s: Text)
    ensures |s| == n
  {
    seq(n, _ => 0)
  }

  // ------------------------------------------------------------------ queueing

  /** Control characters become dots; a char is signed, so bytes above 127 are below 32 too. */
  function Clean(c: int): int { if c < 32 then DOT else c }

  predicate IsDescription(s: Text) {
    |s| <= WRITE_MAX_LEN && forall i | 0 <= i < |s| :: 32 <= s[i] <= 127
  }

  /** What edfwrite_annotation_utf8 stores of a description without terminator. */
  function Stored(description: Text): Text {
    var n := Min(|description|, WRITE_MAX_LEN);
    seq(n, i requires 0 <= i < n => Clean(description[i]))
  }

  /** edfwrite_annotation_utf8: appends to the queue unless the onset is negative. */
  method QueueAnnotation(queue: seq<Note>, onset: int, duration: int, description: Text)
    returns (code: int, queue': seq<Note>)
    requires forall i | 0 <= i < |description| :: -128 <= description[i] <= 127 && description[i] != 0
    ensures code == if onset < 0 then -1 else 0
    ensures queue' == if onset < 0 then queue else queue + [Note(onset, duration, Stored(description))]
    ensures onset >= 0 ==> IsDescription(queue'[|queue|].text)
    ensures onset >= 0 ==>
      var text := queue'[|queue|].text;
      && |text| == (if |description| <= 40 then |description| else 40)
      && forall i | 0 <= i < |text| :: text[i] == if description[i] < 32 then 46 else description[i]
  {
    if onset < 0 { return -1, queue; }
    var annotation := if |description| > WRITE_MAX_LEN then description[..WRITE_MAX_LEN] else description;
    var i := 0;
    while i < |annotation|
      invariant 0 <= i <= |annotation| == Min(|description|, WRITE_MAX_LEN)
      invariant forall j | 0 <= j < |annotation| ::
        annotation[j] == if j < i then Clean(description[j]) else description[j]
    {
      if annotation[i] < 32 { annotation := annotation[i := DOT]; }
      i := i + 1;
    }
    assert annotation == Stored(description);
    return 0, queue + [Note(onset, duration, annotation)];
  }

  /** A description is stored unchanged exactly if it has at most 40 bytes, all of them printable ASCII or DEL. */
  lemma StoredExact(description: Text)
    requires forall i | 0 <= i < |description| :: -128 <= description[i] <= 127 && description[i] != 0
    ensures Stored(description) == description <==> IsDescription(description)
  {
    if IsDescription(description) {
      assert Stored(description) == description;
    } else if |description| <= WRITE_MAX_LEN {
      var i :| 0 <= i < |description| && description[i] < 32;
      assert Stored(description)[i] == DOT;
    }
  }

  // ------------------------------------------------------------------ writing

  function DurationPart(duration: int): Text {
    if duration < 0 then [] else [DURATION_MARK] + DurationText(duration)
  }

  ghost predicate Writable(note: Note) {
    0 <= note.onset <= MAX_LL && note.duration <= MAX_LL && IsDescription(note.text)
  }

  ghost predicate AllWritable(notes: seq<Note>) { forall i | 0 <= i < |notes| :: Writable(notes[i]) }

  /** The annotation part of a TAL block: onset, optional duration, description. */
  function NoteText(note: Note): Text
    requires note.onset >= 0
  {
    OnsetText(note.onset) + DurationPart(note.duration) + [SEP] + note.text + [SEP]
  }

  /** The time-keeping part of record k. */
  function KeepingText(k: nat, recordDuration: nat): Text {
    RecordStamp(k, recordDuration) + [SEP, SEP]
  }

  function Padded(s: Text): Text {
    s + Zeros(Max(0, ANNOTATION_BYTES - |s|))
  }

  /** The annotation signal of record k as written with the samples. */
  function PlainTal(k: nat, recordDuration: nat): Text {
    Padded(KeepingText(k, recordDuration))
  }

  /** The annotation signal of record k as rewritten by edfclose_file. */
  function NoteTal(k: nat, recordDuration: nat, note: Note): Text
    requires note.onset >= 0
  {
    Padded(KeepingText(k, recordDuration) + [0] + NoteText(note))
  }

  /** The quotient of a 64-bit number by 10^e has at most 19 - e digits. */
  lemma ShortQuotient(q: nat, c: nat, e: nat)
    requires q <= MAX_LL && 1 <= e <= 18 && c == Pow10(e)
    ensures |Printed(q / c, 0, true)| <= 20 - e && |Printed(q / c, 0, false)| <= 19 - e
  {
    LongFits(q);
    PowSum(19 - e, e);
    DivMod.QuotientBelow(q, c, Pow10(19 - e));
    WidthFits(q / c, 0, 19 - e);
  }

  lemma {:induction false} PowSum(a: nat, b: nat)
    ensures Pow10(a) * Pow10(b) == Pow10(a + b)
  {
    if a > 0 {
      PowSum(a - 1, b);
      DivMod.TimesTen(Pow10(a - 1), Pow10(b));
    }
  }

  lemma KeepingFits(k: nat, recordDuration: nat)
    requires RecordTime(k, recordDuration) <= MAX_LL
    ensures |KeepingText(k, recordDuration)| <= 23
  {
    PowLiterals();
    var t := RecordTime(k, recordDuration);
    ShortQuotient(t, TIME_DIMENSION, 7);
    PaddedDigits(t % TIME_DIMENSION, 7);
  }

  lemma UnitsFit(q: nat)
    requires q <= MAX_LL
    ensures |OnsetText(q)| <= 21 && |DurationText(q)| <= 20
  {
    PowLiterals();
    ShortQuotient(q, 10_000, 4);
    PaddedDigits(q % 10_000, 4);
  }

  lemma NoteFits(note: Note)
    requires Writable(note)
    ensures |NoteText(note)| <= 84
  {
    UnitsFit(note.onset);
    if note.duration >= 0 { UnitsFit(note.duration); }
  }

  /** For all 64-bit times a TAL with a description of 40 bytes leaves at least a final zero in its 114 bytes. */
  lemma TalFits(k: nat, recordDuration: nat, note: Note)
    requires RecordTime(k, recordDuration) <= MAX_LL && Writable(note)
    ensures |KeepingText(k, recordDuration) + [0] + NoteText(note)| <= 108
    ensures |NoteTal(k, recordDuration, note)| == |PlainTal(k, recordDuration)| == ANNOTATION_BYTES
    ensures NoteTal(k, recordDuration, note)[ANNOTATION_BYTES-1] == 0 == PlainTal(k, recordDuration)[ANNOTATION_BYTES-1]
  {
    KeepingFits(k, recordDuration);
    NoteFits(note);
  }

  /** The annotation signal of record 3, at 1.5 s: at 2.5 s, for 1 s, the text "A". */
  lemma TalExample()
    ensures NoteTal(3, 5_000_000, Note(25_000, 10_000, [65])) ==
      [43, 49, 46, 53, 48, 48, 48, 48, 48, 48, 20, 20, 0] +
      [43, 50, 46, 53, 48, 48, 48, 21, 49, 20, 65, 20] + Zeros(89)
  {
    KeepingExample();
    NoteExample();
    JoinedExample(KeepingText(3, 5_000_000), NoteText(Note(25_000, 10_000, [65])));
  }

  lemma JoinedExample(keeping: Text, note: Text)
    requires keeping == [43, 49, 46, 53, 48, 48, 48, 48, 48, 48, 20, 20] && |note| == 12
    ensures Padded(keeping + [0] + note) ==
      [43, 49, 46, 53, 48, 48, 48, 48, 48, 48, 20, 20, 0] + note + Zeros(89)
  {
    assert keeping + [0] == [43, 49, 46, 53, 48, 48, 48, 48, 48, 48, 20, 20, 0];
  }

  lemma KeepingExample()
    ensures KeepingText(3, 5_000_000) == [43, 49, 46, 53, 48, 48, 48, 48, 48, 48, 20, 20]
  {
    RecordTimeProduct(3, 5_000_000);
    StampExample();
    assert RecordStamp(3, 5_000_000) == StampText(15_000_000, true);
  }

  lemma StampExample()
    ensures StampText(15_000_000, true) == [43, 49, 46, 53, 48, 48, 48, 48, 48, 48]
  {
    OneDigit(1, true);
    PlacesExample();
  }

  lemma PlacesExample()
    ensures Printed(5_000, 4, false) == [53, 48, 48, 48]
    ensures Printed(5_000_000, 7, false) == [53, 48, 48, 48, 48, 48, 48]
  {
    PowLiterals();
    PaddedDigits(5_000, 4);
    PaddedDigits(5_000_000, 7);
    RoundDigits();
  }

  lemma OnsetExample()
    ensures OnsetText(25_000) == [43, 50, 46, 53, 48, 48, 48]
  {
    OneDigit(2, true);
    PlacesExample();
    OnsetParts(25_000, 2, 5_000, [53, 48, 48, 48]);
  }

  lemma OnsetParts(q: nat, n: nat, rest: nat, places: Text)
    requires q == 10_000 * n + rest && 0 < rest < 10_000
    requires Printed(n, 0, true) == [43, 48 + n] && Printed(rest, 4, false) == places
    ensures OnsetText(q) == [43, 48 + n, 46] + places
  {
    assert q / 10_000 == n && q % 10_000 == rest;
  }

  lemma DurationExample()
    ensures DurationText(10_000) == [49]
  {
    OneDigit(1, false);
  }

  lemma NoteExample()
    ensures NoteText(Note(25_000, 10_000, [65])) == [43, 50, 46, 53, 48, 48, 48, 21, 49, 20, 65, 20]
  {
    OnsetExample();
    DurationExample();
  }

  lemma {:induction false} OneDigit(n: nat, sign: bool)
    requires 0 < n < 10
    ensures Printed(n, 0, sign) == (if sign then [43] else []) + [48 + n]
  {
    assert Significant(n) == 1 && Fixed(0, 0) == [];
    assert Fixed(n, 1) == Fixed(0, 0) + [48 + n];
  }

  lemma RoundDigits()
    ensures Fixed(5_000, 4) == [53, 48, 48, 48]
    ensures Fixed(5_000_000, 7) == [53, 48, 48, 48, 48, 48, 48]
  {
    assert Fixed(5, 1) == Fixed(0, 0) + [53];
    assert Fixed(50, 2) == Fixed(5, 1) + [48];
    assert Fixed(500, 3) == Fixed(50, 2) + [48];
    assert Fixed(5_000, 4) == Fixed(500, 3) + [48];
    assert Fixed(50_000, 5) == Fixed(5_000, 4) + [48];
    assert Fixed(500_000, 6) == Fixed(50_000, 5) + [48];
    assert Fixed(5_000_000, 7) == Fixed(500_000, 6) + [48];
  }

  method TimeStamp(k: nat, recordDuration: nat) returns (str: Text)
    requires RecordTime(k, recordDuration) <= MAX_LL
    ensures str == RecordStamp(k, recordDuration)
  {
    RecordTimeProduct(k, recordDuration);
    str := SprintLong(k * recordDuration / TIME_DIMENSION, 0, true);
    if recordDuration % TIME_DIMENSION != 0 {
      var fraction := SprintLong(k * recordDuration % TIME_DIMENSION, 7, false);
      str := str + [DOT] + fraction;
      assert str == RecordStamp(k, recordDuration);
    }
  }

  /** Whole units and, if any, a dot and four places. */
  method UnitsText(q: nat, sign: bool) returns (str: Text)
    requires q <= MAX_LL
    ensures str == if sign then OnsetText(q) else DurationText(q)
  {
    str := SprintLong(q / 10000, 0, sign);
    if q % 10000 != 0 {
      var places := SprintLong(q % 10000, 4, false);
      str := str + [DOT] + places;
      assert str == if sign then OnsetText(q) else DurationText(q);
    }
  }

  /** The description up to its terminator. */
  method CopyText(str: Text, text: Text) returns (str': Text)
    ensures str' == str + text
  {
    str' := str;
    var i := 0;
    while i < |text|
      invariant 0 <= i <= |text| && str' == str + text[..i]
    {
      str' := str' + [text[i]];
      i := i + 1;
    }
    assert text[..|text|] == text;
  }

  method FillZeros(str: Text) returns (str': Text)
    ensures str' == Padded(str)
  {
    str' := str;
    while |str'| < ANNOTATION_BYTES
      invariant |str| <= |str'| && |str'| <= Max(ANNOTATION_BYTES, |str|)
      invariant str' == str + Zeros(|str'| - |str|)
      decreases ANNOTATION_BYTES - |str'|
    {
      assert Zeros(|str'| - |str|) + [0] == Zeros(|str'| + 1 - |str|);
      str' := str' + [0];
    }
  }

  /** The annotation part of the block edfclose_file builds. */
  method BuildNote(note: Note) returns (str: Text)
    requires Writable(note)
    ensures str == NoteText(note)
  {
    str := UnitsText(note.onset, true);
    if note.duration >= 0 {
      var duration := UnitsText(note.duration, false);
      str := str + ([DURATION_MARK] + duration);
    }
    str := CopyText(str + [SEP], note.text);
    str := str + [SEP];
  }

  /** The block edfclose_file builds for one annotation. */
  method BuildTal(k: nat, recordDuration: nat, note: Note) returns (str: Text)
    requires RecordTime(k, recordDuration) <= MAX_LL && Writable(note)
    ensures str == NoteTal(k, recordDuration, note)
  {
    var stamp := TimeStamp(k, recordDuration);
    var text := BuildNote(note);
    str := FillZeros(stamp + [SEP, SEP] + [0] + text);
  }

  /** The annotation signal of record k of a closed file. */
  function FinalTal(k: nat, recordDuration: nat, notes: seq<Note>): Text {
    if k < |notes| && notes[k].onset >= 0 then NoteTal(k, recordDuration, notes[k]) else PlainTal(k, recordDuration)
  }

  lemma {:induction false} TimeGrows(k: nat, n: nat, recordDuration: nat)
    requires k <= n
    ensures RecordTime(k, recordDuration) <= RecordTime(n, recordDuration)
  {
    if k < n { TimeGrows(k, n - 1, recordDuration); }
  }
}
