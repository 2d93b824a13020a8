/**
  The logging sink of log.c as a state machine: one client thread that writes elements, sends
  signals and finally deletes the sink, and one reader thread that feeds a callback. Every
  shared access is one atomic step, so a run is any interleaving of the two threads.

  A wait on the condition variable is a step that is enabled when its condition holds. The safety
  results therefore cover lost and spurious wake-ups. A write below the wake-up count signals nothing,
  so before deletion a reader may sleep although elements are pending; deletion sends a signal.
 */
module SinkProtocol {
  import DivMod

  type Elem = int

  const NO_SIGNAL := 0
  const TERMINATE := 1
  const FLUSH := 2
  const RESET := 3

  /** log_ringbuffer_write between its free-slot check and its commit. */
  datatype WriterState = Idle | Copying(data: seq<Elem>, next: nat)

  /** Which loop of the sink thread a read belongs to; the final drain follows signal 1. */
  datatype Loop = Main | Drain(signal: int)

  /** The program counter of the sink thread. */
  datatype ReaderState =
    | Opening
    | Polling(loop: Loop)
    | Waiting
    | Fetching(loop: Loop)
    | Releasing(loop: Loop, elem: Elem)
    | Delivering(loop: Loop, elem: Elem)
    | Drained(signal: int)
    | Closing
    | Exited
    | Failed

  datatype Call = Open | Data(elem: Elem) | Flush | Reset | Close

  /** The ring buffer, the signal slot, both threads, and two ghosts: accepted elements and calls made. */
  datatype Sink = Sink(
    buf: seq<Elem>,
    writeCnt: nat,
    readCnt: nat,
    pending: int,
    special: int,
    writer: WriterState,
    deleted: bool,
    reader: ReaderState,
    accepted: seq<Elem>,
    calls: seq<Call>)

  datatype Step =
    | Write(data: seq<Elem>)
    | CopyOne
    | Commit
    | Send(signal: int)
    | Delete
    | ReaderStep(openOk: bool)

  function Wrap(cnt: nat, cap: nat): nat {
    if cnt + 1 >= cap then 0 else cnt + 1
  }

  /** log_ringbuffer_new and the start of the sink thread. */
  ghost predicate Init(s: Sink) {
    && s.writeCnt == s.readCnt == 0 && s.pending == 0 && s.special == NO_SIGNAL
    && s.writer == Idle && !s.deleted && s.reader == Opening
    && s.accepted == [] && s.calls == []
  }

  /** The client is one thread, writes nothing after log_sink_del, and sends only flush and reset. */
  ghost predicate Enabled(s: Sink, step: Step) {
    match step
    case Write(_) => s.writer.Idle? && !s.deleted
    case CopyOne => s.writer.Copying? && s.writer.next < |s.writer.data| && s.writeCnt < |s.buf|
    case Commit => s.writer.Copying? && s.writer.next == |s.writer.data|
    case Send(signal) => s.writer.Idle? && !s.deleted && (signal == FLUSH || signal == RESET)
    case Delete => s.writer.Idle? && !s.deleted
    case ReaderStep(_) =>
      match s.reader
      case Waiting => s.pending != 0 || s.special != NO_SIGNAL
      case Fetching(_) => s.readCnt < |s.buf|
      case Exited => false
      case Failed => false
      case _ => true
  }

  /** Whether log_ringbuffer_write refuses the data. */
  predicate Refused(s: Sink, data: seq<Elem>) { |s.buf| - s.pending < |data| }

  function Next(s: Sink, step: Step): Sink
    requires Enabled(s, step)
  {
    match step
    case Write(data) => if Refused(s, data) then s else s.(writer := Copying(data, 0))
    case CopyOne =>
      s.(buf := s.buf[s.writeCnt := s.writer.data[s.writer.next]],
         writeCnt := Wrap(s.writeCnt, |s.buf|),
         writer := s.writer.(next := s.writer.next + 1))
    case Commit =>
      s.(pending := s.pending + |s.writer.data|, writer := Idle, accepted := s.accepted + s.writer.data)
    case Send(signal) => s.(special := signal)
    case Delete => s.(special := TERMINATE, deleted := true)
    case ReaderStep(openOk) => ReaderNext(s, openOk)
  }

  /** One atomic step of log_sink_thread. */
  function ReaderNext(s: Sink, openOk: bool): Sink
    requires Enabled(s, ReaderStep(openOk))
  {
    match s.reader
    case Opening => s.(reader := if openOk then Polling(Main) else Failed, calls := s.calls + [Open])
    case Polling(Main) => s.(reader := if s.pending == 0 then Waiting else Fetching(Main))
    case Polling(Drain(signal)) => s.(reader := if s.pending == 0 then Drained(signal) else Fetching(Drain(signal)))
    case Waiting =>
      s.(special := NO_SIGNAL,
         reader := if s.special > 0 then Polling(Drain(s.special)) else Fetching(Main))
    case Fetching(loop) =>
      s.(reader := Releasing(loop, s.buf[s.readCnt]), readCnt := Wrap(s.readCnt, |s.buf|))
    case Releasing(loop, elem) => s.(pending := s.pending - 1, reader := Delivering(loop, elem))
    case Delivering(loop, elem) => s.(reader := Polling(loop), calls := s.calls + [Data(elem)])
    case Drained(signal) =>
      if signal == TERMINATE then s.(reader := Closing, calls := s.calls + [Flush])
      else if signal == FLUSH then s.(reader := Polling(Main), calls := s.calls + [Flush])
      else if signal == RESET then s.(reader := Polling(Main), calls := s.calls + [Reset])
      else s.(reader := Polling(Main))
    case Closing => s.(reader := Exited, calls := s.calls + [Close])
    case _ => s
  }

  // ------------------------------------------------------------------ the invariant

  function DataOf(c: Call): seq<Elem> { if c.Data? then [c.elem] else [] }

  /** The elements handed to the data callback, in order. */
  function Delivered(calls: seq<Call>): seq<Elem> {
    if calls == [] then [] else Delivered(calls[..|calls|-1]) + DataOf(calls[|calls|-1])
  }

  lemma DeliveredAppend(calls: seq<Call>, c: Call)
    ensures Delivered(calls + [c]) == Delivered(calls) + DataOf(c)
  {
    assert (calls + [c])[..|calls|] == calls;
  }

  /** Everything written to the buffer so far, committed or not. */
  ghost function Stream(s: Sink): seq<Elem>
    requires s.writer.Copying? ==> s.writer.next <= |s.writer.data|
  {
    if s.writer.Idle? then s.accepted else s.accepted + s.writer.data[..s.writer.next]
  }

  /** How many elements the reader has released. */
  ghost function Released(s: Sink): int { |s.accepted| - s.pending }

  /** How many elements the reader has fetched. */
  ghost function Fetched(s: Sink): int { Released(s) + if s.reader.Releasing? then 1 else 0 }

  /** Position j of the stream is in its buffer slot. */
  ghost predicate SlotOk(s: Sink, j: nat)
    requires (s.writer.Copying? ==> s.writer.next <= |s.writer.data|) && j < |Stream(s)|
  {
    |s.buf| > 0 && s.buf[j % |s.buf|] == Stream(s)[j]
  }

  ghost predicate Counts(s: Sink) { 0 <= s.pending <= |s.accepted| && Fetched(s) <= |s.accepted| }

  ghost predicate BufferOk(s: Sink) {
    && (s.writer.Copying? ==> s.writer.next <= |s.writer.data|)
    && Counts(s)
    // the whole write in progress fits beside the elements that are not released yet
    && |s.accepted| + (match s.writer case Idle => 0 case Copying(data, _) => |data|) <= Released(s) + |s.buf|
    // an empty buffer accepts nothing; otherwise both counters are positions in the stream
    && (|s.buf| > 0 ==> s.writeCnt == |Stream(s)| % |s.buf| && s.readCnt == Fetched(s) % |s.buf|)
    && forall j: nat | Released(s) <= j < |Stream(s)| :: SlotOk(s, j)
  }

  ghost predicate ReaderOk(s: Sink)
    requires Counts(s)
  {
    && (s.reader.Opening? ==> s.calls == [])
    && (!s.reader.Opening? ==> s.calls != [] && s.calls[0] == Open)
    && (s.reader.Fetching? ==> s.pending > 0)
    && (s.reader.Releasing? ==> s.pending > 0 && s.accepted[Released(s)] == s.reader.elem)
    && (s.reader.Delivering? ==> Released(s) > 0 && s.accepted[Released(s) - 1] == s.reader.elem)
    && Delivered(s.calls) == s.accepted[..if s.reader.Delivering? then Released(s) - 1 else Released(s)]
    && (Close in s.calls ==> s.reader.Exited?)
  }

  /** The sink thread has taken the termination signal. */
  ghost predicate Terminating(s: Sink) {
    match s.reader
    case Polling(l) => l == Drain(TERMINATE)
    case Fetching(l) => l == Drain(TERMINATE)
    case Releasing(l, _) => l == Drain(TERMINATE)
    case Delivering(l, _) => l == Drain(TERMINATE)
    case Drained(sig) => sig == TERMINATE
    case Closing => true
    case Exited => true
    case _ => false
  }

  ghost predicate SignalOk(s: Sink) {
    && s.special in {NO_SIGNAL, TERMINATE, FLUSH, RESET}
    && (s.special == TERMINATE ==> s.deleted)
    && (Terminating(s) ==> s.deleted)
    // nothing can overwrite the termination signal, so it is still in the slot or has been taken
    && (s.deleted && !s.reader.Failed? ==> s.special == TERMINATE || Terminating(s))
    && (s.deleted ==> s.writer.Idle?)
    && ((s.reader.Drained? && Terminating(s)) || s.reader.Closing? || s.reader.Exited? ==> s.pending == 0)
    && (s.reader.Closing? ==> s.calls != [] && s.calls[|s.calls|-1] == Flush)
    && (s.reader.Exited? ==>
          |s.calls| > 2 && s.calls[|s.calls|-2..] == [Flush, Close] && Close !in s.calls[..|s.calls|-1])
  }

  ghost predicate Inv(s: Sink) { BufferOk(s) && ReaderOk(s) && SignalOk(s) }

  lemma InitInv(s: Sink)
    requires Init(s)
    ensures Inv(s)
  {
  }

  // ------------------------------------------------------------------ every step keeps it

  lemma WrapIsMod(n: nat, cap: nat)
    requires cap > 0
    ensures Wrap(n % cap, cap) == (n + 1) % cap
  {
    DivMod.NextQuotient(n, cap);
  }

  lemma CopyKeepsInv(s: Sink)
    requires Inv(s) && Enabled(s, CopyOne)
    ensures Inv(Next(s, CopyOne))
  {
    var s' := Next(s, CopyOne);
    var cap, n := |s.buf|, |Stream(s)|;
    assert Stream(s') == Stream(s) + [s.writer.data[s.writer.next]];
    WrapIsMod(n, cap);
    forall j: nat | Released(s') <= j < |Stream(s')| ensures SlotOk(s', j) {
      if j < n {
        DivMod.Separate(j, n, cap);
        assert SlotOk(s, j);
      }
    }
  }

  lemma CommitKeepsInv(s: Sink)
    requires Inv(s) && Enabled(s, Commit)
    ensures Inv(Next(s, Commit))
  {
    var s' := Next(s, Commit);
    assert Stream(s') == Stream(s);
    assert Released(s') == Released(s);
    forall j: nat | Released(s') <= j < |Stream(s')| ensures SlotOk(s', j) {
      assert SlotOk(s, j);
    }
  }

  lemma FetchKeepsInv(s: Sink, openOk: bool)
    requires Inv(s) && Enabled(s, ReaderStep(openOk)) && s.reader.Fetching?
    ensures Inv(ReaderNext(s, openOk))
  {
    var s' := ReaderNext(s, openOk);
    var r := Released(s);
    ReaderKeepsSignal(s, openOk);
    assert SlotOk(s, r);
    WrapIsMod(Fetched(s), |s.buf|);
    forall j: nat | Released(s') <= j < |Stream(s')| ensures SlotOk(s', j) {
      assert SlotOk(s, j);
    }
  }

  /** Only fetching moves a counter; only releasing frees a slot. */
  lemma ReaderKeepsBuffer(s: Sink, openOk: bool)
    requires BufferOk(s) && ReaderOk(s) && Enabled(s, ReaderStep(openOk)) && !s.reader.Fetching?
    ensures BufferOk(ReaderNext(s, openOk))
  {
    var s' := ReaderNext(s, openOk);
    ReaderMovesNothing(s, openOk);
    forall j: nat | Released(s') <= j < |Stream(s')| ensures SlotOk(s', j) {
      assert SlotOk(s, j);
    }
  }

  lemma ReaderMovesNothing(s: Sink, openOk: bool)
    requires Enabled(s, ReaderStep(openOk)) && !s.reader.Fetching?
    requires s.writer.Copying? ==> s.writer.next <= |s.writer.data|
    ensures var s' := ReaderNext(s, openOk);
            && s'.buf == s.buf && s'.writer == s.writer && s'.accepted == s.accepted
            && s'.writeCnt == s.writeCnt && s'.readCnt == s.readCnt
            && Stream(s') == Stream(s) && Fetched(s') == Fetched(s) && Released(s') >= Released(s)
  {
  }

  lemma DeliverKeepsReader(s: Sink, openOk: bool)
    requires Counts(s) && ReaderOk(s) && s.reader.Delivering?
    ensures ReaderOk(ReaderNext(s, openOk))
  {
    DeliveredAppend(s.calls, Data(s.reader.elem));
  }

  /** Steps between two callbacks. */
  lemma QuietKeepsReader(s: Sink, openOk: bool)
    requires Counts(s) && ReaderOk(s) && s.special >= 0 && Enabled(s, ReaderStep(openOk))
    requires s.reader.Polling? || s.reader.Waiting? || s.reader.Releasing?
    ensures Counts(ReaderNext(s, openOk)) && ReaderOk(ReaderNext(s, openOk))
  {
  }

  lemma AppendKeepsCalls(calls: seq<Call>, c: Call)
    requires !c.Data?
    ensures Delivered(calls + [c]) == Delivered(calls)
    ensures Close in calls + [c] ==> Close in calls || c == Close
    ensures calls != [] ==> (calls + [c])[0] == calls[0]
  {
    DeliveredAppend(calls, c);
  }

  lemma OpenKeepsReader(s: Sink, openOk: bool)
    requires Counts(s) && ReaderOk(s) && s.reader.Opening?
    ensures ReaderOk(ReaderNext(s, openOk))
  {
    AppendKeepsCalls(s.calls, Open);
  }

  lemma DrainedKeepsReader(s: Sink, openOk: bool)
    requires Counts(s) && ReaderOk(s) && s.reader.Drained?
    ensures ReaderOk(ReaderNext(s, openOk))
  {
    AppendKeepsCalls(s.calls, if s.reader.signal == RESET then Reset else Flush);
  }

  lemma CloseKeepsReader(s: Sink, openOk: bool)
    requires Counts(s) && ReaderOk(s) && s.reader.Closing?
    ensures ReaderOk(ReaderNext(s, openOk))
  {
    AppendKeepsCalls(s.calls, Close);
  }

  lemma ReaderKeepsReader(s: Sink, openOk: bool)
    requires Counts(s) && ReaderOk(s) && s.special >= 0
    requires Enabled(s, ReaderStep(openOk)) && !s.reader.Fetching? && Counts(ReaderNext(s, openOk))
    ensures ReaderOk(ReaderNext(s, openOk))
  {
    match s.reader
    case Opening => OpenKeepsReader(s, openOk);
    case Drained(_) => DrainedKeepsReader(s, openOk);
    case Closing => CloseKeepsReader(s, openOk);
    case Delivering(_, _) => DeliverKeepsReader(s, openOk);
    case _ => QuietKeepsReader(s, openOk);
  }

  lemma ReaderKeepsSignal(s: Sink, openOk: bool)
    requires Counts(s) && ReaderOk(s) && SignalOk(s) && Enabled(s, ReaderStep(openOk))
    ensures SignalOk(ReaderNext(s, openOk))
  {
    if s.reader.Closing? {
      var s' := ReaderNext(s, openOk);
      assert s'.calls[..|s'.calls|-1] == s.calls;
      assert s'.calls[|s'.calls|-2..] == [Flush, Close];
    }
  }

  lemma ReaderKeepsInv(s: Sink, openOk: bool)
    requires Inv(s) && Enabled(s, ReaderStep(openOk))
    ensures Inv(ReaderNext(s, openOk))
  {
    if s.reader.Fetching? {
      FetchKeepsInv(s, openOk);
    } else {
      ReaderKeepsBuffer(s, openOk);
      ReaderKeepsReader(s, openOk);
      ReaderKeepsSignal(s, openOk);
    }
  }

  /** The steps of the client that touch neither the buffer nor the counters. */
  lemma ClientKeepsInv(s: Sink, step: Step)
    requires Inv(s) && Enabled(s, step) && (step.Write? || step.Send? || step.Delete?)
    ensures Inv(Next(s, step))
  {
    var s' := Next(s, step);
    forall j: nat | Released(s') <= j < |Stream(s')| ensures SlotOk(s', j) {
      assert SlotOk(s, j);
    }
  }

  lemma StepKeepsInv(s: Sink, step: Step)
    requires Inv(s) && Enabled(s, step)
    ensures Inv(Next(s, step))
  {
    match step
    case CopyOne => CopyKeepsInv(s);
    case Commit => CommitKeepsInv(s);
    case ReaderStep(openOk) => ReaderKeepsInv(s, openOk);
    case _ => ClientKeepsInv(s, step);
  }

  // ------------------------------------------------------------------ runs

  /** A run starts in a fresh sink and takes one enabled step of either thread at a time. */
  ghost predicate Run(states: seq<Sink>, steps: seq<Step>) {
    && |states| == |steps| + 1 && Init(states[0])
    && forall k | 0 <= k < |steps| :: RunStep(states, steps, k)
  }

  ghost predicate RunStep(states: seq<Sink>, steps: seq<Step>, k: nat)
    requires k < |steps| < |states|
  {
    Enabled(states[k], steps[k]) && states[k+1] == Next(states[k], steps[k])
  }

  lemma {:induction false} RunKeepsInv(states: seq<Sink>, steps: seq<Step>, k: nat)
    requires Run(states, steps) && k <= |steps|
    ensures Inv(states[k])
  {
    if k == 0 {
      InitInv(states[0]);
    } else {
      RunKeepsInv(states, steps, k - 1);
      assert RunStep(states, steps, k - 1);
      StepKeepsInv(states[k-1], steps[k-1]);
    }
  }

  /** The writes not refused so far, after one more step. */
  function MoreWrites(s: Sink, step: Step, writes: seq<seq<Elem>>): seq<seq<Elem>> {
    if step.Write? && !Refused(s, step.data) then writes + [step.data] else writes
  }

  /** What the client passed to each write that was not refused, in order. */
  function Writes(states: seq<Sink>, steps: seq<Step>, k: nat): seq<seq<Elem>>
    requires k <= |steps| < |states|
  {
    if k == 0 then []
    else MoreWrites(states[k-1], steps[k-1], Writes(states, steps, k - 1))
  }

  function Joined(writes: seq<seq<Elem>>): seq<Elem> {
    if writes == [] then [] else Joined(writes[..|writes|-1]) + writes[|writes|-1]
  }

  /** All that the client passed to writes that were not refused. */
  function Submitted(states: seq<Sink>, steps: seq<Step>, k: nat): seq<Elem>
    requires k <= |steps| < |states|
  {
    Joined(Writes(states, steps, k))
  }

  /** The writes that are over: all but the one in progress, if there is one. */
  function Finished(s: Sink, writes: seq<seq<Elem>>): seq<seq<Elem>> {
    if s.writer.Copying? && writes != [] then writes[..|writes|-1] else writes
  }

  /** The elements accepted are the finished writes, and the write in progress is the last one. */
  ghost predicate Whole(s: Sink, writes: seq<seq<Elem>>) {
    && s.accepted == Joined(Finished(s, writes))
    && (s.writer.Copying? ==> writes != [] && s.writer.data == writes[|writes|-1])
  }

  lemma StepKeepsWhole(s: Sink, step: Step, writes: seq<seq<Elem>>)
    requires Enabled(s, step) && Whole(s, writes)
    ensures Whole(Next(s, step), MoreWrites(s, step, writes))
  {
    if step.Write? { assert (writes + [step.data])[..|writes|] == writes; }
  }

  /** Whatever the threads do, each write that is not refused becomes visible whole, when it is over, and in order. */
  lemma {:induction false} WritesBecomeWhole(states: seq<Sink>, steps: seq<Step>, k: nat)
    requires Run(states, steps) && k <= |steps|
    ensures Whole(states[k], Writes(states, steps, k))
  {
    if k > 0 {
      WritesBecomeWhole(states, steps, k - 1);
      assert RunStep(states, steps, k - 1);
      StepKeepsWhole(states[k-1], steps[k-1], Writes(states, steps, k - 1));
    }
  }

  /** What is accepted, with the write in progress behind it, is what the client submitted. */
  lemma AcceptedIsSubmitted(states: seq<Sink>, steps: seq<Step>, k: nat)
    requires Run(states, steps) && k <= |steps|
    ensures states[k].accepted + (if states[k].writer.Copying? then states[k].writer.data else []) ==
            Submitted(states, steps, k)
  {
    WritesBecomeWhole(states, steps, k);
  }

  /** In every interleaving the elements delivered are a prefix of what the client submitted. */
  lemma DeliveredIsPrefix(states: seq<Sink>, steps: seq<Step>, k: nat)
    requires Run(states, steps) && k <= |steps|
    ensures Delivered(states[k].calls) <= Submitted(states, steps, k)
  {
    RunKeepsInv(states, steps, k);
    AcceptedIsSubmitted(states, steps, k);
  }

  /**
    Whenever both threads are between their buffer accesses, the counters differ by the
    number of pending elements modulo the capacity.
   */
  lemma CountersDiffer(states: seq<Sink>, steps: seq<Step>, k: nat)
    requires Run(states, steps) && k <= |steps|
    requires |states[k].buf| > 0 && states[k].writer.Idle? && !states[k].reader.Releasing?
    ensures var s := states[k];
            && 0 <= s.pending <= |s.buf| && s.writeCnt < |s.buf| && s.readCnt < |s.buf|
            && s.writeCnt == (s.readCnt + s.pending) % |s.buf|
  {
    RunKeepsInv(states, steps, k);
    CountersApart(states[k]);
  }

  lemma CountersApart(s: Sink)
    requires BufferOk(s) && |s.buf| > 0 && s.writer.Idle? && !s.reader.Releasing?
    ensures 0 <= s.pending <= |s.buf| && s.writeCnt < |s.buf| && s.readCnt < |s.buf|
    ensures s.writeCnt == (s.readCnt + s.pending) % |s.buf|
  {
    ModAdd(Released(s), s.pending, |s.buf|);
  }

  lemma ModAdd(d: nat, p: nat, c: nat)
    requires c > 0
    ensures (d + p) % c == (d % c + p) % c
  {
    var q, r := (d % c + p) / c, (d % c + p) % c;
    assert d == (d / c) * c + d % c;
    assert d % c + p == q * c + r;
    assert (d / c + q) * c == (d / c) * c + q * c;
    DivMod.Unique(d + p, c, d / c + q, r);
  }

  /** Pending element i of s is still in its slot in s'. */
  ghost predicate PendingIntact(s: Sink, s': Sink, i: nat)
  {
    && 0 <= Released(s) + i < |s.accepted| && |s'.buf| > 0
    && s'.buf[(Released(s) + i) % |s'.buf|] == s.accepted[Released(s) + i]
  }

  /** A slot is overwritten only after its element was released, and the element fetched is the one accepted. */
  lemma NoUnreadSlotOverwritten(states: seq<Sink>, steps: seq<Step>, k: nat)
    requires Run(states, steps) && k < |steps|
    ensures steps[k].CopyOne? ==>
      var s, s' := states[k], states[k+1]; forall i | 0 <= i < s.pending :: PendingIntact(s, s', i)
    ensures steps[k].ReaderStep? && states[k].reader.Fetching? ==>
      var r, w := Released(states[k]), Submitted(states, steps, k);
      0 <= r < |w| && states[k+1].reader.Releasing? && states[k+1].reader.elem == w[r]
  {
    RunKeepsInv(states, steps, k);
    RunKeepsInv(states, steps, k + 1);
    AcceptedIsSubmitted(states, steps, k);
    assert RunStep(states, steps, k);
    var s, s' := states[k], states[k+1];
    if steps[k].CopyOne? {
      forall i | 0 <= i < s.pending ensures PendingIntact(s, s', i) {
        assert SlotOk(s', Released(s) + i);
      }
    }
  }

  /**
    When the sink thread ends after the sink was deleted, the data callback has received all that the client
    passed to writes that were not refused, exactly once and in order, whatever flush and reset signals were
    sent or overwritten, and the last two callbacks are one flush and the only close.
   */
  lemma ShutdownDelivers(states: seq<Sink>, steps: seq<Step>, k: nat)
    requires Run(states, steps) && k <= |steps| && states[k].reader.Exited?
    ensures states[k].deleted
    ensures Delivered(states[k].calls) == Submitted(states, steps, k)
    ensures var c := states[k].calls;
            |c| > 2 && c[0] == Open && c[|c|-2..] == [Flush, Close] && Close !in c[..|c|-1]
  {
    RunKeepsInv(states, steps, k);
    AcceptedIsSubmitted(states, steps, k);
  }

  /** The writer is never stuck in the middle of a write, and after deletion the reader has a step until it ends. */
  lemma NeverStuck(states: seq<Sink>, steps: seq<Step>, k: nat)
    requires Run(states, steps) && k <= |steps|
    ensures states[k].writer.Copying? ==> Enabled(states[k], CopyOne) || Enabled(states[k], Commit)
    ensures states[k].deleted && !Enabled(states[k], ReaderStep(true)) ==>
      states[k].reader.Exited? || states[k].reader.Failed?
  {
    RunKeepsInv(states, steps, k);
    var s := states[k];
    if s.reader.Fetching? { assert SlotOk(s, Released(s)); }
  }

  /** How far the sink thread is from its end once the sink is deleted. */
  ghost function Remaining(s: Sink): int {
    var round := 7 * |s.accepted| + 7;
    match s.reader
    case Exited => 0
    case Closing => 1
    case Failed => 0
    case Opening => round + round + round
    case Waiting => round + 3
    case Polling(l) => Ahead(l == Main, l == Drain(TERMINATE), round) + 7 * s.pending + 4
    case Fetching(l) => Ahead(l == Main, l == Drain(TERMINATE), round) + 7 * s.pending + 3
    case Releasing(l, _) => Ahead(l == Main, l == Drain(TERMINATE), round) + 7 * s.pending + 2
    case Delivering(l, _) => Ahead(l == Main, l == Drain(TERMINATE), round) + 7 * s.pending + 5
    case Drained(sig) => Ahead(false, sig == TERMINATE, round) + 2
  }

  ghost function Ahead(main: bool, last: bool, round: int): int {
    if last then 0 else if main then round else round + round
  }

  lemma ReaderAdvances(s: Sink, openOk: bool)
    requires Counts(s) && ReaderOk(s) && SignalOk(s) && s.deleted && Enabled(s, ReaderStep(openOk))
    ensures 0 <= Remaining(ReaderNext(s, openOk)) < Remaining(s)
  {
  }

  /** After log_sink_del every step of the sink thread brings it nearer to its end: the join returns. */
  lemma ShutdownTerminates(states: seq<Sink>, steps: seq<Step>, k: nat)
    requires Run(states, steps) && k < |steps| && states[k].deleted
    ensures steps[k].ReaderStep? && states[k+1].deleted
    ensures 0 <= Remaining(states[k+1]) < Remaining(states[k])
  {
    RunKeepsInv(states, steps, k);
    assert RunStep(states, steps, k);
    ReaderAdvances(states[k], steps[k].openOk);
  }
}
