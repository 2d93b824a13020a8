/**
  The time-stamped annotation lists (TALs) that the reader accepts (section 2.2.2 of the EDF+ specification),
  and what it reads from them: the scanner accepts exactly this grammar.
 */
module EdfGrammar {
  import opened EdfNumbers
  import EdfTal
  import opened EdfAnnotations

  /** An onset, a duration if it is not empty, and any number of texts. */
  datatype Tal = Tal(onset: Text, duration: Text, texts: seq<Text>)

  /** The times and the first n texts are of the right form. */
  predicate FormOk(t: Tal, n: nat)
    requires n <= |t.texts|
  {
    if n == 0 then IsOnset(t.onset) && (t.duration == [] || IsDecimal(t.duration))
    else FormOk(t, n - 1) && Plain(t.texts[n-1])
  }

  predicate TalOk(t: Tal) { FormOk(t, |t.texts|) }

  lemma {:induction false} FormParts(t: Tal, n: nat)
    requires n <= |t.texts|
    ensures FormOk(t, n) <==>
      IsOnset(t.onset) && (t.duration == [] || IsDecimal(t.duration)) && forall i | 0 <= i < n :: Plain(t.texts[i])
  {
    if n > 0 { FormParts(t, n - 1); }
  }

  lemma {:induction false} MoreForm(t: Tal, text: Text, n: nat)
    requires n <= |t.texts|
    ensures FormOk(t.(texts := t.texts + [text]), n) == FormOk(t, n)
  {
    if n > 0 { MoreForm(t, text, n - 1); }
  }

  /** The first n texts, each with its separator. */
  function TextBytes(texts: seq<Text>, n: nat): Text
    requires n <= |texts|
  {
    if n == 0 then [] else TextBytes(texts, n - 1) + (texts[n-1] + [SEP])
  }

  predicate AllOk(tals: seq<Tal>, n: nat)
    requires n <= |tals|
  {
    n == 0 || (AllOk(tals, n - 1) && TalOk(tals[n-1]))
  }

  function TalStart(t: Tal): Text { t.onset + OptionalDuration(t.duration) + [SEP] }

  function TalBytes(t: Tal): Text { TalStart(t) + TextBytes(t.texts, |t.texts|) + [0] }

  function TalsBytes(tals: seq<Tal>, n: nat): Text
    requires n <= |tals|
  {
    if n == 0 then [] else TalsBytes(tals, n - 1) + TalBytes(tals[n-1])
  }

  /** An annotation signal: at most one zero, the lists, each closed by a zero, and zeros to its end. */
  ghost predicate IsSignal(bytes: Text, lead: nat, tals: seq<Tal>, trail: nat) {
    && bytes == EdfTal.Zeros(lead) + TalsBytes(tals, |tals|) + EdfTal.Zeros(trail)
    && AllOk(tals, |tals|)
    && (if tals == [] then trail == 0 else lead <= 1)
  }

  /** Text i of a list, as it is read. */
  function NoteOf(t: Tal, i: nat): ReadNote
    requires i < |t.texts|
  {
    ReadNote(if t.onset == [] then 0 else LongTime(t.onset), Truncated(t.duration, 15), Truncated(t.texts[i], 512))
  }

  function TalNotes(t: Tal, n: nat): (notes: seq<ReadNote>)
    requires n <= |t.texts|
    ensures |notes| == n && forall i: nat | i < n :: notes[i] == NoteOf(t, i)
  {
    seq(n, i requires 0 <= i < n => NoteOf(t, i))
  }

  function AllNotes(tals: seq<Tal>, n: nat): seq<ReadNote>
    requires n <= |tals|
  {
    if n == 0 then [] else AllNotes(tals, n - 1) + TalNotes(tals[n-1], |tals[n-1].texts|)
  }

  /** The first text of the first annotation signal belongs to the time stamp; all others are annotations. */
  function Created(later: bool, all: seq<ReadNote>): seq<ReadNote> {
    if later || all == [] then all else all[1..]
  }

  function CountTexts(tals: seq<Tal>, n: nat): nat
    requires n <= |tals|
  {
    if n == 0 then 0 else CountTexts(tals, n - 1) + |tals[n-1].texts|
  }

  /** The annotations after n texts of a list; `skip` says that its first text is not an annotation. */
  function AddTexts(notes: seq<ReadNote>, skip: bool, t: Tal, n: nat): seq<ReadNote>
    requires n <= |t.texts|
  {
    if n == 0 then notes
    else if skip && n == 1 then AddTexts(notes, skip, t, n - 1)
    else AddTexts(notes, skip, t, n - 1) + [NoteOf(t, n - 1)]
  }

  /** The annotations after the first n lists. */
  function AddTals(notes: seq<ReadNote>, later: bool, tals: seq<Tal>, n: nat): seq<ReadNote>
    requires n <= |tals|
  {
    if n == 0 then notes
    else
      var t := tals[n-1];
      AddTexts(AddTals(notes, later, tals, n - 1), !later && CountTexts(tals, n - 1) == 0, t, |t.texts|)
  }

  lemma {:induction false} TextsAdded(notes: seq<ReadNote>, skip: bool, t: Tal, n: nat)
    requires n <= |t.texts|
    ensures AddTexts(notes, skip, t, n) == notes + if skip && n > 0 then TalNotes(t, n)[1..] else TalNotes(t, n)
  {
    if n > 0 {
      TextsAdded(notes, skip, t, n - 1);
      assert TalNotes(t, n) == TalNotes(t, n - 1) + [NoteOf(t, n - 1)];
      if n == 1 { assert TalNotes(t, 1)[1..] == []; }
      else { assert TalNotes(t, n)[1..] == TalNotes(t, n - 1)[1..] + [NoteOf(t, n - 1)]; }
    }
  }

  lemma OneMoreTal(
    notes: seq<ReadNote>, later: bool, all: seq<ReadNote>, mid: seq<ReadNote>, t: Tal, more: seq<ReadNote>)
    requires mid == notes + Created(later, all)
    requires more == AddTexts(mid, !later && all == [], t, |t.texts|)
    ensures more == notes + Created(later, all + TalNotes(t, |t.texts|))
  {
    var texts := TalNotes(t, |t.texts|);
    TextsAdded(mid, !later && all == [], t, |t.texts|);
    CreatedNext(later, all, texts);
    assert texts == [] <==> |t.texts| == 0;
  }

  lemma CreatedNext(later: bool, all: seq<ReadNote>, notes: seq<ReadNote>)
    ensures Created(later, all + notes) ==
      Created(later, all) + if !later && all == [] && notes != [] then notes[1..] else notes
  {
  }

  lemma {:induction false} TalsAdded(notes: seq<ReadNote>, later: bool, tals: seq<Tal>, n: nat)
    requires n <= |tals|
    ensures |AllNotes(tals, n)| == CountTexts(tals, n)
    ensures AddTals(notes, later, tals, n) == notes + Created(later, AllNotes(tals, n))
  {
    if n > 0 {
      TalsAdded(notes, later, tals, n - 1);
      var t, all, mid := tals[n-1], AllNotes(tals, n - 1), AddTals(notes, later, tals, n - 1);
      assert all == [] <==> CountTexts(tals, n - 1) == 0;
      OneMoreTal(notes, later, all, mid, t, AddTals(notes, later, tals, n));
    }
  }

  // ------------------------------------------------------------------ states of the scanner

  /** The annotations so far, and the number of texts of this signal. */
  ghost predicate HasRead(s: Scan, notes: seq<ReadNote>, count: nat) {
    s.Running() && s.annotsInRecord == count && s.notes == notes
  }

  /** Between two lists. */
  ghost predicate AtGap(s: Scan, zeros: nat) {
    && s.zero == zeros && s.scratch == []
    && !s.onset && !s.duration && !s.durationStart && s.annotsInTal == 0
  }

  /** In list t after its first n texts, with some bytes of the next one. */
  ghost predicate AtText(s: Scan, t: Tal, n: nat, scratch: Text) {
    && s.zero == 0 && s.scratch == scratch && s.annotsInTal == n
    && s.onset && s.timeText == t.onset && !s.durationStart
    && (s.duration <==> t.duration != []) && (s.duration ==> s.durationText == Truncated(t.duration, 15))
  }

  /** A separator after a text: one more annotation, unless it is the very first text of the first signal. */
  lemma TextEnds(s: Scan, mode: Mode, t: Tal, n: nat, count: nat)
    requires TalOk(t) && n < |t.texts| && AtText(s, t, n, t.texts[n]) && !mode.stopAtEnd
    requires HasRead(s, s.notes, count)
    ensures s.Timed()
    ensures var s' := AfterByte(s, SEP, mode);
            && AtText(s', t, n + 1, [])
            && HasRead(s', s.notes + if mode.later || count > 0 then [NoteOf(t, n)] else [], count + 1)
  {
    FormParts(t, |t.texts|);
    assert s.notes + [] == s.notes;
  }

  // ------------------------------------------------------------------ the grammar is accepted

  /** The bytes from position p on begin with s. */
  predicate At(bytes: Text, p: nat, s: Text) { p + |s| <= |bytes| && bytes[p..p+|s|] == s }

  lemma AtSplit(bytes: Text, p: nat, a: Text, b: Text)
    requires At(bytes, p, a + b)
    ensures At(bytes, p, a) && At(bytes, p + |a|, b)
  {
    var s := bytes[p..p+|a + b|];
    assert s[..|a|] == bytes[p..p+|a|] && (a + b)[..|a|] == a;
    assert s[|a|..] == bytes[p+|a|..p+|a|+|b|] && (a + b)[|a|..] == b;
  }

  lemma AtSegment(bytes: Text, p: nat, s: Text)
    requires At(bytes, p, s)
    ensures Segment(bytes, p, s)
  {
    var t := bytes[p..p+|s|];
    assert forall i | 0 <= i < |s| :: t[i] == bytes[p+i];
  }

  lemma {:induction false} ScanStart(trace: seq<Scan>, bytes: Text, mode: Mode, p: nat, t: Tal) returns (q: nat)
    requires IsTrace(trace, bytes, mode) && At(bytes, p, TalStart(t)) && TalOk(t)
    requires trace[p].Running() && AtGap(trace[p], trace[p].zero) && trace[p].zero <= 1
    ensures q == p + |TalStart(t)| <= |bytes|
    ensures AtText(trace[q], t, 0, []) && HasRead(trace[q], trace[p].notes, trace[p].annotsInRecord)
  {
    q := p + |TalStart(t)|;
    FormParts(t, |t.texts|);
    AtSegment(bytes, p, TalStart(t));
    ScanTimes(trace, bytes, mode, p, t.onset, t.duration);
    DecimalPrintable(t.duration);
  }

  /** One text. */
  lemma {:induction false} ScanText(trace: seq<Scan>, bytes: Text, mode: Mode, p: nat, t: Tal, n: nat, count: nat)
    returns (q: nat)
    requires IsTrace(trace, bytes, mode) && TalOk(t) && n < |t.texts| && At(bytes, p, t.texts[n] + [SEP])
    requires AtText(trace[p], t, n, []) && HasRead(trace[p], trace[p].notes, count) && !mode.stopAtEnd
    ensures q == p + |t.texts[n]| + 1 <= |bytes| && AtText(trace[q], t, n + 1, [])
    ensures HasRead(
      trace[q], trace[p].notes + if mode.later || count > 0 then [NoteOf(t, n)] else [], count + 1)
  {
    q := p + |t.texts[n]| + 1;
    FormParts(t, |t.texts|);
    AtSegment(bytes, p, t.texts[n] + [SEP]);
    ScanMark(trace, bytes, mode, p, t.texts[n], SEP);
    TextEnds(trace[p].(scratch := t.texts[n], zero := 0), mode, t, n, count);
  }

  lemma {:induction false} ScanTexts(trace: seq<Scan>, bytes: Text, mode: Mode, p: nat, t: Tal, n: nat, count: nat)
    returns (q: nat)
    requires IsTrace(trace, bytes, mode) && TalOk(t) && n <= |t.texts| && At(bytes, p, TextBytes(t.texts, n))
    requires AtText(trace[p], t, 0, []) && HasRead(trace[p], trace[p].notes, count) && !mode.stopAtEnd
    ensures q == p + |TextBytes(t.texts, n)| <= |bytes| && AtText(trace[q], t, n, [])
    ensures HasRead(trace[q], AddTexts(trace[p].notes, !mode.later && count == 0, t, n), count + n)
  {
    q := p;
    if n > 0 {
      var head := TextBytes(t.texts, n - 1);
      AtSplit(bytes, p, head, t.texts[n-1] + [SEP]);
      q := ScanTexts(trace, bytes, mode, p, t, n - 1, count);
      var notes := trace[q].notes;
      assert notes + [] == notes;
      q := ScanText(trace, bytes, mode, q, t, n - 1, count + n - 1);
    }
  }

  lemma LastSeparator(texts: seq<Text>, n: nat, start: Text)
    requires n <= |texts| && start != [] && start[|start|-1] == SEP
    ensures var b := start + TextBytes(texts, n); b[|b|-1] == SEP
  {
  }

  /** The bytes of a list, part by part. */
  lemma TalParts(bytes: Text, p: nat, t: Tal)
    requires At(bytes, p, TalBytes(t))
    ensures var start, texts := TalStart(t), TextBytes(t.texts, |t.texts|);
            && At(bytes, p, start) && At(bytes, p + |start|, texts)
            && |TalBytes(t)| == |start| + |texts| + 1
            && bytes[p+|start|+|texts|] == 0 && bytes[p+|start|+|texts|-1] == SEP
  {
    var start, texts := TalStart(t), TextBytes(t.texts, |t.texts|);
    AtSplit(bytes, p, start + texts, [0]);
    AtSplit(bytes, p, start, texts);
    LastSeparator(t.texts, |t.texts|, start);
    AtSegment(bytes, p, start + texts);
    AtSegment(bytes, p + |start + texts|, [0]);
    assert [0][0] == 0;
  }

  /** One list, from gap to gap. */
  lemma {:induction false} ScanList(trace: seq<Scan>, bytes: Text, mode: Mode, p: nat, t: Tal, count: nat)
    returns (q: nat)
    requires IsTrace(trace, bytes, mode) && At(bytes, p, TalBytes(t)) && TalOk(t) && !mode.stopAtEnd
    requires AtGap(trace[p], trace[p].zero) && trace[p].zero <= 1 && HasRead(trace[p], trace[p].notes, count)
    ensures q == p + |TalBytes(t)| <= |bytes| && AtGap(trace[q], 1)
    ensures HasRead(
      trace[q], AddTexts(trace[p].notes, !mode.later && count == 0, t, |t.texts|), count + |t.texts|)
  {
    TalParts(bytes, p, t);
    q := ScanStart(trace, bytes, mode, p, t);
    q := ScanTexts(trace, bytes, mode, q, t, |t.texts|, count);
    assert Step(trace, bytes, mode, q);
    q := q + 1;
  }

  lemma {:induction false} ScanLists(
    trace: seq<Scan>, bytes: Text, mode: Mode, p: nat, tals: seq<Tal>, n: nat, zeros: nat) returns (q: nat)
    requires IsTrace(trace, bytes, mode) && n <= |tals| && At(bytes, p, TalsBytes(tals, n)) && !mode.stopAtEnd
    requires AllOk(tals, n) && zeros <= 1 && AtGap(trace[p], zeros) && HasRead(trace[p], trace[p].notes, 0)
    ensures q == p + |TalsBytes(tals, n)| <= |bytes|
    ensures AtGap(trace[q], trace[q].zero) && trace[q].zero <= 1 && (n > 0 ==> trace[q].zero == 1)
    ensures HasRead(trace[q], AddTals(trace[p].notes, mode.later, tals, n), CountTexts(tals, n))
  {
    q := p;
    if n > 0 {
      AtSplit(bytes, p, TalsBytes(tals, n - 1), TalBytes(tals[n-1]));
      q := ScanLists(trace, bytes, mode, p, tals, n - 1, zeros);
      q := ScanLastList(trace, bytes, mode, q, tals, n, trace[p].notes);
    }
  }

  lemma {:induction false} ScanLastList(
    trace: seq<Scan>, bytes: Text, mode: Mode, p: nat, tals: seq<Tal>, n: nat, before: seq<ReadNote>) returns (q: nat)
    requires IsTrace(trace, bytes, mode) && 0 < n <= |tals| && At(bytes, p, TalBytes(tals[n-1])) && !mode.stopAtEnd
    requires AllOk(tals, n) && AtGap(trace[p], trace[p].zero) && trace[p].zero <= 1
    requires HasRead(trace[p], AddTals(before, mode.later, tals, n - 1), CountTexts(tals, n - 1))
    ensures q == p + |TalBytes(tals[n-1])| <= |bytes| && AtGap(trace[q], 1)
    ensures HasRead(trace[q], AddTals(before, mode.later, tals, n), CountTexts(tals, n))
  {
    q := ScanList(trace, bytes, mode, p, tals[n-1], CountTexts(tals, n - 1));
  }

  /** Zeros in a gap are counted. */
  lemma {:induction false} ScanGap(trace: seq<Scan>, bytes: Text, mode: Mode, p: nat, n: nat)
    requires IsTrace(trace, bytes, mode) && p + n <= |bytes| && forall j | p <= j < p + n :: bytes[j] == 0
    requires trace[p].Running() && AtGap(trace[p], trace[p].zero) && (trace[p].zero == 0 ==> p == 0)
    ensures AtGap(trace[p+n], trace[p].zero + n) && HasRead(trace[p+n], trace[p].notes, trace[p].annotsInRecord)
  {
    if n > 0 {
      ScanGap(trace, bytes, mode, p, n - 1);
      assert Step(trace, bytes, mode, p + n - 1);
    }
  }

  lemma ZeroBytes(bytes: Text, p: nat, n: nat)
    requires At(bytes, p, EdfTal.Zeros(n))
    ensures p + n <= |bytes| && forall j | p <= j < p + n :: bytes[j] == 0
  {
    forall j | p <= j < p + n ensures bytes[j] == 0 {
      assert bytes[j] == bytes[p..p+n][j-p] == EdfTal.Zeros(n)[j-p];
    }
  }

  predicate ZerosIn(bytes: Text, p: nat, q: nat) { q <= |bytes| && forall j | p <= j < q :: bytes[j] == 0 }

  /** The parts of a signal lie where they should. */
  ghost predicate Laid(bytes: Text, lead: nat, lists: Text, trail: nat) {
    && |bytes| == lead + |lists| + trail && At(bytes, lead, lists)
    && ZerosIn(bytes, 0, lead) && ZerosIn(bytes, lead + |lists|, |bytes|)
  }

  lemma SignalParts(bytes: Text, lead: nat, lists: Text, trail: nat)
    requires bytes == EdfTal.Zeros(lead) + lists + EdfTal.Zeros(trail)
    ensures Laid(bytes, lead, lists, trail)
  {
    assert At(bytes, 0, EdfTal.Zeros(lead) + lists + EdfTal.Zeros(trail));
    AtSplit(bytes, 0, EdfTal.Zeros(lead) + lists, EdfTal.Zeros(trail));
    AtSplit(bytes, 0, EdfTal.Zeros(lead), lists);
    ZeroBytes(bytes, 0, lead);
    ZeroBytes(bytes, lead + |lists|, trail);
  }

  lemma {:induction false} SignalTrace(trace: seq<Scan>, bytes: Text, mode: Mode, lead: nat, tals: seq<Tal>, trail: nat)
    requires Laid(bytes, lead, TalsBytes(tals, |tals|), trail) && |tals| > 0 && lead <= 1 && AllOk(tals, |tals|)
    requires IsTrace(trace, bytes, mode) && AtGap(trace[0], 0) && HasRead(trace[0], trace[0].notes, 0)
    requires !mode.stopAtEnd
    ensures HasRead(trace[|bytes|], AddTals(trace[0].notes, mode.later, tals, |tals|), CountTexts(tals, |tals|))
  {
    ScanGap(trace, bytes, mode, 0, lead);
    assert AtGap(trace[lead], lead) && HasRead(trace[lead], trace[0].notes, 0);
    var q := ScanLists(trace, bytes, mode, lead, tals, |tals|, lead);
    assert AtGap(trace[q], 1);
    ScanGap(trace, bytes, mode, q, trail);
  }

  /** Every signal of the grammar is read without an error, and exactly its texts are read. */
  lemma {:induction false} SignalRead(
    bytes: Text, mode: Mode, before: seq<ReadNote>, lead: nat, tals: seq<Tal>, trail: nat)
    requires IsSignal(bytes, lead, tals, trail) && !mode.stopAtEnd
    ensures var s := Scanned(before, bytes, |bytes|, mode);
            s.error == 0 && s.notes == before + Created(mode.later, AllNotes(tals, |tals|))
  {
    var trace := TraceOf(before, bytes, mode);
    SignalParts(bytes, lead, TalsBytes(tals, |tals|), trail);
    if tals == [] {
      ScanGap(trace, bytes, mode, 0, lead);
    } else {
      SignalTrace(trace, bytes, mode, lead, tals, trail);
    }
    TalsAdded(before, mode.later, tals, |tals|);
  }

  // ------------------------------------------------------------------ nothing else is accepted

  /** Where in the grammar the scanner is. */
  datatype Place =
    | Gap(zeros: nat)
    | InOnset(scratch: Text)
    | InDuration(onset: Text, scratch: Text)
    | InTexts(tal: Tal, scratch: Text)

  /** What has been scanned: zeros, whole lists, and a part of the next one or zeros behind them. */
  datatype Parse = Parse(lead: nat, tals: seq<Tal>, place: Place)

  function PlaceBytes(place: Place): Text {
    match place
    case Gap(zeros) => EdfTal.Zeros(zeros)
    case InOnset(scratch) => scratch
    case InDuration(onset, scratch) => onset + [DURATION_MARK] + scratch
    case InTexts(tal, scratch) => TalStart(tal) + TextBytes(tal.texts, |tal.texts|) + scratch
  }

  function ParseBytes(p: Parse): Text {
    EdfTal.Zeros(p.lead) + TalsBytes(p.tals, |p.tals|) + PlaceBytes(p.place)
  }

  predicate PlaceOk(place: Place) {
    match place
    case Gap(_) => true
    case InOnset(scratch) => scratch != [] && Plain(scratch)
    case InDuration(onset, scratch) => IsOnset(onset) && Plain(scratch)
    case InTexts(tal, scratch) => TalOk(tal) && Plain(scratch)
  }

  predicate ParseOk(p: Parse) {
    && AllOk(p.tals, |p.tals|) && PlaceOk(p.place)
    && (if p.tals == [] && p.place.Gap? then p.place.zeros == 0 else p.lead <= 1)
  }

  /** The number of texts read so far, and the annotations made of them. */
  function Count(p: Parse): nat {
    CountTexts(p.tals, |p.tals|) + if p.place.InTexts? then |p.place.tal.texts| else 0
  }

  function Notes(p: Parse, before: seq<ReadNote>, later: bool): seq<ReadNote> {
    var notes := AddTals(before, later, p.tals, |p.tals|);
    if p.place.InTexts? then
      AddTexts(notes, !later && CountTexts(p.tals, |p.tals|) == 0, p.place.tal, |p.place.tal.texts|)
    else notes
  }

  /** The scanner's variables show its place. */
  ghost predicate AtPlace(s: Scan, p: Parse) {
    match p.place
    case Gap(zeros) => AtGap(s, if p.tals == [] then p.lead else 1 + zeros)
    case InOnset(scratch) =>
      s.zero == 0 && s.scratch == scratch && !s.onset && !s.duration && !s.durationStart && s.annotsInTal == 0
    case InDuration(onset, scratch) =>
      && s.zero == 0 && s.scratch == scratch && s.annotsInTal == 0
      && s.onset && s.timeText == onset && !s.duration && s.durationStart
    case InTexts(tal, scratch) => AtText(s, tal, |tal.texts|, scratch)
  }

  ghost predicate Shows(s: Scan, p: Parse, before: seq<ReadNote>, later: bool) {
    ParseOk(p) && AtPlace(s, p) && HasRead(s, Notes(p, before, later), Count(p))
  }

  /** The place after one more byte that is accepted. */
  function NextPlace(place: Place, c: int): Place {
    match place
    case Gap(zeros) => if c == 0 then Gap(zeros + 1) else InOnset([c])
    case InOnset(scratch) =>
      if c == SEP then InTexts(Tal(scratch, [], []), [])
      else if c == DURATION_MARK then InDuration(scratch, [])
      else InOnset(scratch + [c])
    case InDuration(onset, scratch) =>
      if c == SEP then InTexts(Tal(onset, scratch, []), []) else InDuration(onset, scratch + [c])
    case InTexts(tal, scratch) =>
      if c == SEP then InTexts(tal.(texts := tal.texts + [scratch]), []) else InTexts(tal, scratch + [c])
  }

  function NextParse(p: Parse, c: int): Parse {
    if p.place.InTexts? && c == 0 then Parse(p.lead, p.tals + [p.place.tal], Gap(0))
    else if p.place.Gap? && p.tals == [] && c == 0 then p.(lead := p.lead + 1)
    else p.(place := NextPlace(p.place, c))
  }

  /** A zero ends a text only behind a separator, and nothing else but a gap holds one. */
  predicate MayFollow(place: Place, c: int) {
    && (c == 0 ==> place.Gap? || (place.InTexts? && place.scratch == []))
    && (c == DURATION_MARK ==> place.InOnset?)
    && (c == SEP && place.InDuration? ==> place.scratch != [])
    && (c == SEP ==> !place.Gap?)
    && (c != 0 && place.Gap? ==> place.zeros == 0)
  }

  lemma {:induction false} MoreTexts(texts: seq<Text>, text: Text, n: nat)
    requires n <= |texts|
    ensures TextBytes(texts + [text], n) == TextBytes(texts, n)
  {
    if n > 0 { MoreTexts(texts, text, n - 1); }
  }

  lemma {:induction false} MoreTals(tals: seq<Tal>, tal: Tal, n: nat)
    requires n <= |tals|
    ensures TalsBytes(tals + [tal], n) == TalsBytes(tals, n)
    ensures CountTexts(tals + [tal], n) == CountTexts(tals, n)
    ensures AllOk(tals + [tal], n) == AllOk(tals, n)
  {
    if n > 0 {
      MoreTals(tals, tal, n - 1);
      assert (tals + [tal])[n-1] == tals[n-1];
    }
  }

  lemma {:induction false} MoreNotes(before: seq<ReadNote>, later: bool, tals: seq<Tal>, tal: Tal, n: nat)
    requires n <= |tals|
    ensures AddTals(before, later, tals + [tal], n) == AddTals(before, later, tals, n)
  {
    if n > 0 {
      MoreNotes(before, later, tals, tal, n - 1);
      MoreTals(tals, tal, n - 1);
    }
  }

  lemma {:induction false} MoreInTal(notes: seq<ReadNote>, skip: bool, tal: Tal, text: Text, n: nat)
    requires n <= |tal.texts|
    ensures AddTexts(notes, skip, tal.(texts := tal.texts + [text]), n) == AddTexts(notes, skip, tal, n)
  {
    if n > 0 { MoreInTal(notes, skip, tal, text, n - 1); }
  }

  lemma {:induction false} PlaceGrows(place: Place, c: int)
    requires MayFollow(place, c) && !(place.InTexts? && c == 0)
    ensures PlaceBytes(NextPlace(place, c)) == PlaceBytes(place) + [c]
  {
    match place
    case Gap(zeros) => if c == 0 { assert EdfTal.Zeros(zeros + 1) == EdfTal.Zeros(zeros) + [0]; }
    case InOnset(scratch) => OnsetGrows(scratch, c);
    case InDuration(onset, scratch) => DurationGrows(onset, scratch, c);
    case InTexts(tal, scratch) => MoreTexts(tal.texts, scratch, |tal.texts|);
  }

  lemma {:induction false} OnsetGrows(scratch: Text, c: int)
    requires c != 0
    ensures PlaceBytes(NextPlace(InOnset(scratch), c)) == scratch + [c]
  {
    assert scratch + [] + [SEP] + [] + [] == scratch + [SEP];
    assert scratch + [DURATION_MARK] + [] == scratch + [DURATION_MARK];
  }

  lemma {:induction false} DurationGrows(onset: Text, scratch: Text, c: int)
    requires c == SEP ==> scratch != []
    ensures PlaceBytes(NextPlace(InDuration(onset, scratch), c)) == onset + [DURATION_MARK] + scratch + [c]
  {
    assert onset + ([DURATION_MARK] + scratch) + [SEP] + [] + [] == onset + [DURATION_MARK] + scratch + [SEP];
    assert onset + [DURATION_MARK] + (scratch + [c]) == onset + [DURATION_MARK] + scratch + [c];
  }

  /** Closing the list at hand with a zero. */
  function Closed(p: Parse): Parse
    requires p.place.InTexts?
  {
    Parse(p.lead, p.tals + [p.place.tal], Gap(0))
  }

  lemma {:induction false} CloseGrows(p: Parse)
    requires p.place.InTexts? && p.place.scratch == []
    ensures ParseBytes(Closed(p)) == ParseBytes(p) + [0]
  {
    MoreTals(p.tals, p.place.tal, |p.tals|);
    LastTal(p.tals, p.place.tal);
    Regroup(EdfTal.Zeros(p.lead), TalsBytes(p.tals, |p.tals|), PlaceBytes(p.place));
  }

  lemma LastTal(tals: seq<Tal>, t: Tal)
    requires TalsBytes(tals + [t], |tals|) == TalsBytes(tals, |tals|)
    ensures TalsBytes(tals + [t], |tals| + 1) ==
            TalsBytes(tals, |tals|) + (TalStart(t) + TextBytes(t.texts, |t.texts|) + [] + [0])
  {
    assert (tals + [t])[|tals|] == t;
    assert TalStart(t) + TextBytes(t.texts, |t.texts|) + [] == TalStart(t) + TextBytes(t.texts, |t.texts|);
  }

  lemma Regroup(z: Text, l: Text, body: Text)
    ensures z + (l + (body + [0])) + EdfTal.Zeros(0) == z + l + body + [0]
  {
  }

  lemma Append(a: Text, b: Text, c: int)
    ensures a + (b + [c]) == (a + b) + [c]
  {
  }

  lemma ParseGrows(p: Parse, c: int)
    requires ParseOk(p) && MayFollow(p.place, c)
    ensures ParseBytes(NextParse(p, c)) == ParseBytes(p) + [c]
  {
    if p.place.InTexts? && c == 0 {
      CloseGrows(p);
    } else if p.place.Gap? && p.tals == [] && c == 0 {
      LeadGrows(p.lead);
    } else {
      PlaceGrows(p.place, c);
      Append(EdfTal.Zeros(p.lead) + TalsBytes(p.tals, |p.tals|), PlaceBytes(p.place), c);
    }
  }

  lemma LeadGrows(lead: nat)
    ensures EdfTal.Zeros(lead + 1) + [] + EdfTal.Zeros(0) == EdfTal.Zeros(lead) + [] + EdfTal.Zeros(0) + [0]
  {
  }

  /** The last byte is a separator exactly behind a complete text or the times. */
  lemma LastByte(p: Parse)
    requires ParseOk(p)
    ensures var b := ParseBytes(p);
            && (p.place.InTexts? && p.place.scratch == [] ==> b != [] && b[|b|-1] == SEP)
            && (!p.place.Gap? && !(p.place.InTexts? && p.place.scratch == []) ==>
                  b != [] && b[|b|-1] != SEP && b[|b|-1] != 0)
  {
    match p.place
    case Gap(_) =>
    case InOnset(scratch) => assert scratch[|scratch|-1] != 0;
    case InDuration(onset, scratch) =>
      if scratch != [] { assert scratch[|scratch|-1] != 0; }
    case InTexts(tal, scratch) =>
      if scratch != [] { assert scratch[|scratch|-1] != 0; }
      else { LastSeparator(tal.texts, |tal.texts|, TalStart(tal)); }
  }

  lemma {:induction false} CloseShows(s: Scan, p: Parse, before: seq<ReadNote>, later: bool)
    requires s.Timed() && Shows(s, p, before, later) && p.place.InTexts? && p.place.scratch == []
    ensures Shows(AfterZero(s, true), Closed(p), before, later)
  {
    ClosedOk(p);
    ClosedNotes(p, before, later);
  }

  lemma {:induction false} ClosedOk(p: Parse)
    requires ParseOk(p) && p.place.InTexts? && p.place.scratch == []
    ensures ParseOk(Closed(p)) && Count(Closed(p)) == Count(p)
  {
    var n := |p.tals|;
    MoreTals(p.tals, p.place.tal, n);
    var all := p.tals + [p.place.tal];
    assert all[n] == p.place.tal && |all| == n + 1;
    assert AllOk(all, n + 1) == (AllOk(all, n) && TalOk(all[n]));
    assert CountTexts(all, n + 1) == CountTexts(all, n) + |all[n].texts|;
  }

  lemma {:induction false} ClosedNotes(p: Parse, before: seq<ReadNote>, later: bool)
    requires p.place.InTexts?
    ensures Notes(Closed(p), before, later) == Notes(p, before, later)
  {
    var n := |p.tals|;
    MoreTals(p.tals, p.place.tal, n);
    MoreNotes(before, later, p.tals, p.place.tal, n);
    var all := p.tals + [p.place.tal];
    assert all[n] == p.place.tal && |all| == n + 1;
  }

  /** A zero byte. */
  lemma ZeroShows(s: Scan, p: Parse, prevIsSep: bool, before: seq<ReadNote>, later: bool)
    requires s.Timed() && Shows(s, p, before, later)
    requires s.zero == 0 ==> (prevIsSep <==> p.place.Gap? || (p.place.InTexts? && p.place.scratch == []))
    ensures var s' := AfterZero(s, prevIsSep);
            s'.error == 0 ==> MayFollow(p.place, 0) && Shows(s', NextParse(p, 0), before, later)
  {
    match p.place
    case InTexts(_, scratch) => if scratch == [] { CloseShows(s, p, before, later); }
    case Gap(zeros) => GapZero(s, p, prevIsSep, before, later);
    case _ =>
  }

  lemma GapZero(s: Scan, p: Parse, prevIsSep: bool, before: seq<ReadNote>, later: bool)
    requires s.Timed() && Shows(s, p, before, later) && p.place.Gap? && (s.zero == 0 ==> prevIsSep)
    ensures MayFollow(p.place, 0) && Shows(AfterZero(s, prevIsSep), NextParse(p, 0), before, later)
  {
    assert Notes(NextParse(p, 0), before, later) == Notes(p, before, later);
  }

  lemma PlainPart(scratch: Text, c: int)
    requires Plain(scratch) && c != 0 && c != SEP && c != DURATION_MARK
    ensures Plain(scratch + [c])
  {
  }

  /** Any other byte. */
  lemma ByteShows(s: Scan, p: Parse, c: int, mode: Mode, before: seq<ReadNote>)
    requires s.Timed() && Shows(s, p, before, mode.later) && c != 0 && s.zero <= 1 && !mode.stopAtEnd
    ensures var s' := AfterByte(s.(zero := 0), c, mode);
            s'.error == 0 ==> MayFollow(p.place, c) && Shows(s', NextParse(p, c), before, mode.later)
  {
    match p.place
    case Gap(_) => GapShows(s, p, c, mode, before);
    case InOnset(_) => OnsetShows(s, p, c, mode, before);
    case InDuration(_, _) => DurationShows(s, p, c, mode, before);
    case InTexts(_, _) => TextShows(s, p, c, mode, before);
  }

  lemma GapShows(s: Scan, p: Parse, c: int, mode: Mode, before: seq<ReadNote>)
    requires s.Timed() && Shows(s, p, before, mode.later) && c != 0 && s.zero <= 1 && p.place.Gap?
    ensures var s' := AfterByte(s.(zero := 0), c, mode);
            s'.error == 0 ==> MayFollow(p.place, c) && Shows(s', NextParse(p, c), before, mode.later)
  {
    assert [] + [c] == [c];
  }

  lemma OnsetShows(s: Scan, p: Parse, c: int, mode: Mode, before: seq<ReadNote>)
    requires s.Timed() && Shows(s, p, before, mode.later) && c != 0 && s.zero <= 1 && p.place.InOnset?
    ensures var s' := AfterByte(s.(zero := 0), c, mode);
            s'.error == 0 ==> MayFollow(p.place, c) && Shows(s', NextParse(p, c), before, mode.later)
  {
    var scratch := p.place.scratch;
    if c != SEP && c != DURATION_MARK { PlainPart(scratch, c); }
  }

  lemma DurationShows(s: Scan, p: Parse, c: int, mode: Mode, before: seq<ReadNote>)
    requires s.Timed() && Shows(s, p, before, mode.later) && c != 0 && s.zero <= 1 && p.place.InDuration?
    ensures var s' := AfterByte(s.(zero := 0), c, mode);
            s'.error == 0 ==> MayFollow(p.place, c) && Shows(s', NextParse(p, c), before, mode.later)
  {
    var scratch := p.place.scratch;
    if c != SEP && c != DURATION_MARK { PlainPart(scratch, c); }
    if IsDecimal(scratch) { DecimalPrintable(scratch); }
  }

  lemma {:induction false} TextShows(s: Scan, p: Parse, c: int, mode: Mode, before: seq<ReadNote>)
    requires s.Timed() && Shows(s, p, before, mode.later) && c != 0 && s.zero <= 1 && p.place.InTexts?
    requires !mode.stopAtEnd
    ensures var s' := AfterByte(s.(zero := 0), c, mode);
            s'.error == 0 ==> MayFollow(p.place, c) && Shows(s', NextParse(p, c), before, mode.later)
  {
    if c == SEP {
      SeparatorShows(s, p, mode, before);
    } else if c != DURATION_MARK {
      PlainPart(p.place.scratch, c);
    }
  }

  lemma {:induction false} SeparatorShows(s: Scan, p: Parse, mode: Mode, before: seq<ReadNote>)
    requires s.Timed() && Shows(s, p, before, mode.later) && s.zero <= 1 && p.place.InTexts? && !mode.stopAtEnd
    ensures Shows(AfterByte(s.(zero := 0), SEP, mode), NextParse(p, SEP), before, mode.later)
  {
    var tal, scratch := p.place.tal, p.place.scratch;
    var n, more := |tal.texts|, tal.(texts := tal.texts + [scratch]);
    TextAdded(p);
    NoteAdded(p, before, mode.later);
    assert AtText(s, more, n, more.texts[n]);
    TextEnds(s.(zero := 0), mode, more, n, Count(p));
  }

  lemma {:induction false} TextAdded(p: Parse)
    requires ParseOk(p) && p.place.InTexts?
    ensures var tal, scratch := p.place.tal, p.place.scratch;
            var more := tal.(texts := tal.texts + [scratch]);
            && NextParse(p, SEP) == p.(place := InTexts(more, [])) && TalOk(more) && ParseOk(NextParse(p, SEP))
            && Count(NextParse(p, SEP)) == Count(p) + 1
  {
    var tal, scratch := p.place.tal, p.place.scratch;
    MoreForm(tal, scratch, |tal.texts|);
    FormParts(tal, |tal.texts|);
    assert (tal.texts + [scratch])[|tal.texts|] == scratch;
  }

  lemma {:induction false} NoteAdded(p: Parse, before: seq<ReadNote>, later: bool)
    requires p.place.InTexts?
    ensures var tal, scratch := p.place.tal, p.place.scratch;
            var more := tal.(texts := tal.texts + [scratch]);
            Notes(p.(place := InTexts(more, [])), before, later) ==
              Notes(p, before, later) + if later || Count(p) > 0 then [NoteOf(more, |tal.texts|)] else []
  {
    var tal, scratch := p.place.tal, p.place.scratch;
    var notes, skip := AddTals(before, later, p.tals, |p.tals|), !later && CountTexts(p.tals, |p.tals|) == 0;
    MoreInTal(notes, skip, tal, scratch, |tal.texts|);
    assert (tal.texts + [scratch])[|tal.texts|] == scratch;
    assert Notes(p, before, later) + [] == Notes(p, before, later);
  }

  /** One byte more. */
  lemma {:induction false} StepShows(bytes: Text, k: nat, mode: Mode, before: seq<ReadNote>, s: Scan, p: Parse)
    requires k < |bytes| && !mode.stopAtEnd && s.Timed() && Shows(s, p, before, mode.later)
    requires ParseBytes(p) == bytes[..k] && ScanAt(s, bytes, k, mode).error == 0
    ensures var p' := NextParse(p, bytes[k]);
            Shows(ScanAt(s, bytes, k, mode), p', before, mode.later) && ParseBytes(p') == bytes[..k+1]
  {
    var c := bytes[k];
    if c == 0 { ZeroFollows(bytes, k, mode, before, s, p); } else { ByteFollows(bytes, k, mode, before, s, p); }
    ParseGrows(p, c);
    OneMore(bytes, k);
  }

  lemma OneMore(bytes: Text, k: nat)
    requires k < |bytes|
    ensures bytes[..k] + [bytes[k]] == bytes[..k+1]
  {
  }

  lemma {:induction false} ByteFollows(bytes: Text, k: nat, mode: Mode, before: seq<ReadNote>, s: Scan, p: Parse)
    requires k < |bytes| && bytes[k] != 0 && !mode.stopAtEnd && s.Timed() && Shows(s, p, before, mode.later)
    requires ScanAt(s, bytes, k, mode).error == 0
    ensures var c := bytes[k];
            MayFollow(p.place, c) && Shows(ScanAt(s, bytes, k, mode), NextParse(p, c), before, mode.later)
  {
    ByteShows(s, p, bytes[k], mode, before);
  }

  lemma {:induction false} ZeroFollows(bytes: Text, k: nat, mode: Mode, before: seq<ReadNote>, s: Scan, p: Parse)
    requires k < |bytes| && bytes[k] == 0 && s.Timed() && Shows(s, p, before, mode.later)
    requires ParseBytes(p) == bytes[..k] && ScanAt(s, bytes, k, mode).error == 0
    ensures MayFollow(p.place, 0) && Shows(ScanAt(s, bytes, k, mode), NextParse(p, 0), before, mode.later)
  {
    LastByte(p);
    var prevIsSep := k == 0 || bytes[k-1] == SEP;
    if k > 0 { assert bytes[k-1] == ParseBytes(p)[k-1]; }
    if p.place.Gap? && s.zero == 0 { StartOfSignal(p); }
    ZeroShows(s, p, prevIsSep, before, mode.later);
  }

  /** No zeros yet: nothing has been scanned. */
  lemma StartOfSignal(p: Parse)
    requires ParseOk(p) && p.place.Gap? && p.tals == [] && p.lead == 0
    ensures ParseBytes(p) == []
  {
  }

  /** What has been scanned without an error is a part of the grammar. */
  lemma {:induction false} Parsed(bytes: Text, k: nat, mode: Mode, before: seq<ReadNote>) returns (p: Parse)
    requires k <= |bytes| && !mode.stopAtEnd && Scanned(before, bytes, k, mode).error == 0
    ensures Shows(Scanned(before, bytes, k, mode), p, before, mode.later) && ParseBytes(p) == bytes[..k]
  {
    if k == 0 {
      p := Parse(0, [], Gap(0));
      StartOfSignal(p);
    } else {
      var s := Scanned(before, bytes, k - 1, mode);
      p := Parsed(bytes, k - 1, mode, before);
      StepShows(bytes, k - 1, mode, before, s, p);
      p := NextParse(p, bytes[k-1]);
    }
  }

  /**
    The scanner accepts exactly the signals of the grammar (their last byte is checked before), and then it
    reads exactly their texts, in order, each with the onset and the duration of its list.
   */
  lemma {:induction false} AcceptsExactly(bytes: Text, mode: Mode, before: seq<ReadNote>)
    requires bytes != [] && bytes[|bytes|-1] == 0 && !mode.stopAtEnd
    ensures var s := Scanned(before, bytes, |bytes|, mode);
            && (s.error == 0 <==> exists lead, tals, trail :: IsSignal(bytes, lead, tals, trail))
            && forall lead, tals, trail | IsSignal(bytes, lead, tals, trail) ::
                 s.notes == before + Created(mode.later, AllNotes(tals, |tals|))
  {
    var s := Scanned(before, bytes, |bytes|, mode);
    forall lead, tals, trail | IsSignal(bytes, lead, tals, trail)
      ensures s.error == 0 && s.notes == before + Created(mode.later, AllNotes(tals, |tals|))
    {
      SignalRead(bytes, mode, before, lead, tals, trail);
    }
    if s.error == 0 {
      var p := Parsed(bytes, |bytes|, mode, before);
      assert bytes[..|bytes|] == bytes;
      LastByte(p);
      assert IsSignal(bytes, p.lead, p.tals, p.place.zeros);
    }
  }

  // ------------------------------------------------------------------ stopping at the end of a recording

  predicate Ends(note: ReadNote) { RECORDING_ENDS <= note.text }

  /** No annotation from position n on ends the recording. */
  predicate NoneEnds(notes: seq<ReadNote>, n: nat) { forall i | n <= i < |notes| :: !Ends(notes[i]) }

  /** A scan that stops has read what the other one reads, up to the first annotation that ends the recording. */
  ghost predicate StopsFirst(stop: Scan, all: Scan, n: nat) {
    if stop.done then
      && |stop.notes| > n && stop.notes <= all.notes && stop.error == 0
      && Ends(stop.notes[|stop.notes|-1]) && NoneEnds(stop.notes[..|stop.notes|-1], n)
    else stop == all && |all.notes| >= n && NoneEnds(all.notes, n)
  }

  /** At most one annotation more, and a stop exactly at one that ends the recording. */
  ghost predicate StopTogether(s: Scan, t: Scan, a: Scan) {
    && !a.done && t.notes == a.notes && (t.done ==> t.error == 0)
    && (a.notes == s.notes || (|a.notes| == |s.notes| + 1 && a.notes[..|s.notes|] == s.notes))
    && (t.done <==> |a.notes| > |s.notes| && Ends(a.notes[|s.notes|]))
    && (!t.done ==> t == a)
  }

  lemma {:induction false} TextStops(s: Scan, later: bool)
    requires s.Timed() && s.onset && s.Running()
    ensures StopTogether(s, AfterText(s, Mode(later, true)), AfterText(s, Mode(later, false)))
  {
    var a := AfterText(s, Mode(later, false));
    assert a.notes[..|s.notes|] == s.notes;
  }

  lemma {:induction false} ByteStops(s: Scan, c: int, later: bool)
    requires s.Timed() && s.Running()
    ensures StopTogether(s, AfterByte(s, c, Mode(later, true)), AfterByte(s, c, Mode(later, false)))
  {
    if s.onset { TextStops(s, later); }
  }

  lemma {:induction false} ScanStops(s: Scan, bytes: Text, k: nat, later: bool)
    requires k < |bytes| && s.Timed() && !s.done
    ensures StopTogether(s, ScanAt(s, bytes, k, Mode(later, true)), ScanAt(s, bytes, k, Mode(later, false)))
  {
    if s.Running() && bytes[k] != 0 { ByteStops(s.(zero := 0), bytes[k], later); }
  }

  lemma {:induction false} StopStays(stop: Scan, s: Scan, t: Scan, a: Scan, n: nat)
    requires StopsFirst(stop, s, n) && StopTogether(s, t, a)
    ensures StopsFirst(if stop.done then stop else t, a, n)
  {
    if !stop.done && t.done { assert t.notes[..|t.notes|-1] == s.notes; }
  }

  ghost predicate StopPair(stop: Scan, all: Scan, n: nat) { !all.done && StopsFirst(stop, all, n) }

  lemma {:induction false} NextStops(stop: Scan, s: Scan, bytes: Text, k: nat, later: bool, n: nat)
    returns (t: Scan, a: Scan)
    requires k < |bytes| && stop.Timed() && s.Timed() && StopPair(stop, s, n)
    ensures t == ScanAt(stop, bytes, k, Mode(later, true)) && a == ScanAt(s, bytes, k, Mode(later, false))
    ensures StopPair(t, a, n)
  {
    t, a := ScanAt(stop, bytes, k, Mode(later, true)), ScanAt(s, bytes, k, Mode(later, false));
    ScanStops(s, bytes, k, later);
    StopStays(stop, s, if stop.done then ScanAt(s, bytes, k, Mode(later, true)) else t, a, n);
  }

  lemma {:induction false} StopsAlong(stops: seq<Scan>, all: seq<Scan>, bytes: Text, later: bool, k: nat, n: nat)
    requires IsTrace(stops, bytes, Mode(later, true)) && IsTrace(all, bytes, Mode(later, false)) && k <= |bytes|
    requires stops[0] == all[0] && !all[0].done && |all[0].notes| == n
    ensures StopPair(stops[k], all[k], n)
  {
    if k > 0 {
      StopsAlong(stops, all, bytes, later, k - 1, n);
      StepBoth(stops, all, bytes, later, k - 1, n);
    }
  }

  lemma {:induction false} StepBoth(stops: seq<Scan>, all: seq<Scan>, bytes: Text, later: bool, k: nat, n: nat)
    requires IsTrace(stops, bytes, Mode(later, true)) && IsTrace(all, bytes, Mode(later, false)) && k < |bytes|
    requires StopPair(stops[k], all[k], n)
    ensures StopPair(stops[k+1], all[k+1], n)
  {
    assert Step(stops, bytes, Mode(later, true), k) && Step(all, bytes, Mode(later, false), k);
    var t, a := NextStops(stops[k], all[k], bytes, k, later, n);
  }

  /** Reading with the stop at "Recording ends" reads the same annotations, up to the first such one. */
  lemma {:induction false} StopsAtFirstEnd(bytes: Text, later: bool, before: seq<ReadNote>)
    ensures StopsFirst(
      Scanned(before, bytes, |bytes|, Mode(later, true)), Scanned(before, bytes, |bytes|, Mode(later, false)), |before|)
  {
    var stops := TraceOf(before, bytes, Mode(later, true));
    var all := TraceOf(before, bytes, Mode(later, false));
    StopsAlong(stops, all, bytes, later, |bytes|, |before|);
  }
}
