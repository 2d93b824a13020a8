/**
  What the client of the sink can rely on over whole runs: which writes are refused, and how the
  sink thread answers the signals sent to it.
 */
module SinkAnswers {
  import opened SinkProtocol

  // ------------------------------------------------------------------ which writes are refused

  lemma {:induction false} SameCapacity(states: seq<Sink>, steps: seq<Step>, k: nat)
    requires Run(states, steps) && k <= |steps|
    ensures |states[k].buf| == |states[0].buf|
  {
    if k > 0 {
      SameCapacity(states, steps, k - 1);
      assert RunStep(states, steps, k - 1);
    }
  }

  /** How many elements the sink thread has taken off the buffer: those delivered, and the one at hand. */
  function TakenOff(s: Sink): nat { |Delivered(s.calls)| + if s.reader.Delivering? then 1 else 0 }

  /** A write is refused exactly if the elements submitted and not taken off the buffer leave no room for all of it. */
  lemma RefusedExactly(states: seq<Sink>, steps: seq<Step>, k: nat)
    requires Run(states, steps) && k < |steps| && steps[k].Write?
    ensures var before, data := Submitted(states, steps, k), steps[k].data;
            Submitted(states, steps, k + 1) ==
              if |before| - TakenOff(states[k]) + |data| <= |states[0].buf| then before + data else before
  {
    RunKeepsInv(states, steps, k);
    AcceptedIsSubmitted(states, steps, k);
    SameCapacity(states, steps, k);
    assert RunStep(states, steps, k);
    var writes := Writes(states, steps, k);
    assert (writes + [steps[k].data])[..|writes|] == writes;
  }

  // ------------------------------------------------------------------ signals and their answers

  /** The last signal the client sent, unless the sink thread has taken it. */
  function Outstanding(states: seq<Sink>, steps: seq<Step>, k: nat): int
    requires k <= |steps| < |states|
  {
    if k == 0 then NO_SIGNAL
    else
      match steps[k-1]
      case Send(signal) => signal
      case Delete => TERMINATE
      case ReaderStep(_) => if states[k-1].reader.Waiting? then NO_SIGNAL else Outstanding(states, steps, k - 1)
      case _ => Outstanding(states, steps, k - 1)
  }

  lemma {:induction false} SlotHoldsLastSignal(states: seq<Sink>, steps: seq<Step>, k: nat)
    requires Run(states, steps) && k <= |steps|
    ensures states[k].special == Outstanding(states, steps, k)
  {
    if k > 0 {
      SlotHoldsLastSignal(states, steps, k - 1);
      assert RunStep(states, steps, k - 1);
    }
  }

  /** In step j the waiting sink thread takes a signal. */
  predicate Takes(states: seq<Sink>, steps: seq<Step>, j: nat)
    requires j < |steps| < |states|
  {
    steps[j].ReaderStep? && states[j].reader.Waiting? && Outstanding(states, steps, j) != NO_SIGNAL
  }

  /** The signals taken, in order. */
  function Taken(states: seq<Sink>, steps: seq<Step>, k: nat): seq<int>
    requires k <= |steps| < |states|
  {
    if k == 0 then []
    else if Takes(states, steps, k - 1) then
      Taken(states, steps, k - 1) + [Outstanding(states, steps, k - 1)]
    else Taken(states, steps, k - 1)
  }

  /** The callbacks with which a signal is answered. */
  function AnswerTo(signal: int): seq<Call> {
    if signal == FLUSH then [Flush] else if signal == RESET then [Reset]
    else if signal == TERMINATE then [Flush, Close] else []
  }

  function Answers(signals: seq<int>): seq<Call> {
    if signals == [] then [] else Answers(signals[..|signals|-1]) + AnswerTo(signals[|signals|-1])
  }

  /** The calls but for the opening and the data. */
  function Marks(calls: seq<Call>): seq<Call> {
    if calls == [] then []
    else
      var c := calls[|calls|-1];
      Marks(calls[..|calls|-1]) + if c.Open? || c.Data? then [] else [c]
  }

  /** The signal that is being answered. */
  function Serving(r: ReaderState): int {
    match r
    case Polling(Drain(signal)) => signal
    case Fetching(Drain(signal)) => signal
    case Releasing(Drain(signal), _) => signal
    case Delivering(Drain(signal), _) => signal
    case Drained(signal) => signal
    case _ => NO_SIGNAL
  }

  /** The calls that are still owed to it. */
  function Owed(r: ReaderState): seq<Call> { if r.Closing? then [Close] else AnswerTo(Serving(r)) }

  lemma MarksNext(calls: seq<Call>, c: Call)
    ensures Marks(calls + [c]) == Marks(calls) + if c.Open? || c.Data? then [] else [c]
  {
    assert (calls + [c])[..|calls|] == calls;
  }

  lemma AnswersNext(signals: seq<int>, signal: int)
    ensures Answers(signals + [signal]) == Answers(signals) + AnswerTo(signal)
  {
    assert (signals + [signal])[..|signals|] == signals;
  }

  /** Only known signals are served. */
  ghost predicate ServesKnown(r: ReaderState) {
    Serving(r) in {NO_SIGNAL, FLUSH, RESET, TERMINATE} && (r.Drained? ==> r.signal != NO_SIGNAL)
    && (r.Polling? && r.loop.Drain? ==> r.loop.signal != NO_SIGNAL)
    && (r.Fetching? && r.loop.Drain? ==> r.loop.signal != NO_SIGNAL)
    && (r.Releasing? && r.loop.Drain? ==> r.loop.signal != NO_SIGNAL)
    && (r.Delivering? && r.loop.Drain? ==> r.loop.signal != NO_SIGNAL)
  }

  lemma {:induction false} AlwaysServesKnown(states: seq<Sink>, steps: seq<Step>, k: nat)
    requires Run(states, steps) && k <= |steps|
    ensures ServesKnown(states[k].reader)
  {
    if k > 0 {
      AlwaysServesKnown(states, steps, k - 1);
      RunKeepsInv(states, steps, k - 1);
      assert RunStep(states, steps, k - 1);
      if steps[k-1].ReaderStep? { StepServesKnown(states[k-1], steps[k-1].openOk); }
      else { ClientKeepsThread(states[k-1], steps[k-1]); }
    }
  }

  lemma ClientKeepsThread(s: Sink, step: Step)
    requires Enabled(s, step) && !step.ReaderStep?
    ensures Next(s, step).reader == s.reader && Next(s, step).calls == s.calls
    ensures s.accepted <= Next(s, step).accepted
  {
  }

  lemma StepServesKnown(s: Sink, openOk: bool)
    requires Enabled(s, ReaderStep(openOk)) && SignalOk(s) && ServesKnown(s.reader)
    ensures ServesKnown(ReaderNext(s, openOk).reader)
  {
  }

  /** A step of the sink thread that neither takes nor answers a signal. */
  lemma QuietAnswers(s: Sink, openOk: bool)
    requires Enabled(s, ReaderStep(openOk))
    requires !s.reader.Waiting? && !s.reader.Drained? && !s.reader.Closing?
    ensures var s' := ReaderNext(s, openOk);
            Marks(s'.calls) == Marks(s.calls) && Owed(s'.reader) == Owed(s.reader) && s'.accepted == s.accepted
  {
    if s.reader.Opening? { MarksNext(s.calls, Open); }
    if s.reader.Delivering? { MarksNext(s.calls, Data(s.reader.elem)); }
  }

  lemma TakingAnswers(s: Sink, openOk: bool)
    requires Enabled(s, ReaderStep(openOk)) && s.reader.Waiting? && SignalOk(s)
    ensures var s' := ReaderNext(s, openOk);
            s'.calls == s.calls && Owed(s.reader) == [] && Owed(s'.reader) == AnswerTo(s.special)
  {
  }

  /** The answer that is given now. */
  function Due(r: ReaderState): Call {
    if r.Closing? then Close else if r.Drained? && r.signal == RESET then Reset else Flush
  }

  lemma DueFirst(r: ReaderState)
    requires ServesKnown(r) && (r.Drained? || r.Closing?)
    ensures Owed(r) != [] && Owed(r)[0] == Due(r)
    ensures Owed(r)[1..] == if r.Drained? && r.signal == TERMINATE then [Close] else []
  {
  }

  lemma GivesDue(s: Sink, openOk: bool)
    requires Enabled(s, ReaderStep(openOk)) && ServesKnown(s.reader) && (s.reader.Drained? || s.reader.Closing?)
    ensures var s' := ReaderNext(s, openOk);
            && s'.calls == s.calls + [Due(s.reader)]
            && s'.reader == if s.reader.Closing? then Exited
                            else if s.reader.signal == TERMINATE then Closing else Polling(Main)
  {
  }

  /** The answer that is given is the first one owed. */
  lemma GivenAnswers(s: Sink, openOk: bool)
    requires Enabled(s, ReaderStep(openOk)) && ServesKnown(s.reader) && (s.reader.Drained? || s.reader.Closing?)
    ensures var s', owed := ReaderNext(s, openOk), Owed(s.reader);
            && owed != [] && s'.calls == s.calls + [owed[0]] && Owed(s'.reader) == owed[1..]
            && Marks(s'.calls) == Marks(s.calls) + [owed[0]]
  {
    DueFirst(s.reader);
    GivesDue(s, openOk);
    MarksNext(s.calls, Due(s.reader));
  }

  /** What one step of the sink thread does to the answers made and owed; signal is the one it takes, if any. */
  lemma ReaderAnswers(s: Sink, openOk: bool, signal: int)
    requires Enabled(s, ReaderStep(openOk)) && SignalOk(s) && ServesKnown(s.reader)
    requires signal == if s.reader.Waiting? then s.special else NO_SIGNAL
    ensures var s' := ReaderNext(s, openOk);
            Marks(s'.calls) + Owed(s'.reader) == (Marks(s.calls) + Owed(s.reader)) + AnswerTo(signal)
  {
    if s.reader.Waiting? {
      TakingAnswers(s, openOk);
    } else if s.reader.Drained? || s.reader.Closing? {
      GivenAnswers(s, openOk);
      var owed := Owed(s.reader);
      assert [owed[0]] + owed[1..] == owed;
    } else {
      QuietAnswers(s, openOk);
    }
  }

  /**
    Flush and reset signals are answered by the flush and the reset callback and the termination by flush and
    close, each signal that is taken once and in order; at most the last one is still being answered.
   */
  lemma {:induction false} AnswersInOrder(states: seq<Sink>, steps: seq<Step>, k: nat)
    requires Run(states, steps) && k <= |steps|
    ensures Marks(states[k].calls) + Owed(states[k].reader) == Answers(Taken(states, steps, k))
  {
    if k > 0 {
      AnswersInOrder(states, steps, k - 1);
      RunKeepsInv(states, steps, k - 1);
      AlwaysServesKnown(states, steps, k - 1);
      SlotHoldsLastSignal(states, steps, k - 1);
      assert RunStep(states, steps, k - 1);
      NextAnswers(states[k-1], steps[k-1], Taken(states, steps, k - 1), Taken(states, steps, k));
    }
  }

  lemma NextAnswers(s: Sink, step: Step, before: seq<int>, after: seq<int>)
    requires Enabled(s, step) && SignalOk(s) && ServesKnown(s.reader)
    requires Marks(s.calls) + Owed(s.reader) == Answers(before)
    requires after ==
      if step.ReaderStep? && s.reader.Waiting? && s.special != NO_SIGNAL then before + [s.special] else before
    ensures var s' := Next(s, step); Marks(s'.calls) + Owed(s'.reader) == Answers(after)
  {
    if step.ReaderStep? {
      var signal := if s.reader.Waiting? then s.special else NO_SIGNAL;
      ReaderAnswers(s, step.openOk, signal);
      AnswersNext(before, signal);
    } else {
      ClientKeepsThread(s, step);
    }
  }

  /** The last step before k in which a signal was taken. */
  function LastTaken(states: seq<Sink>, steps: seq<Step>, k: nat): (j: nat)
    requires k <= |steps| < |states|
    ensures k > 0 ==> j < k
  {
    if k == 0 || Takes(states, steps, k - 1) then (if k == 0 then 0 else k - 1)
    else LastTaken(states, steps, k - 1)
  }

  /** The signal served in state k was taken in step j, and nothing accepted before is lost. */
  ghost predicate Serves(states: seq<Sink>, steps: seq<Step>, k: nat, j: nat)
    requires j < k <= |steps| < |states|
  {
    && Takes(states, steps, j) && Outstanding(states, steps, j) == Serving(states[k].reader)
    && states[j].accepted <= states[k].accepted
    && (states[k].reader.Drained? ==> states[j].accepted <= Delivered(states[k].calls))
  }

  lemma {:induction false} ServesLast(states: seq<Sink>, steps: seq<Step>, k: nat)
    requires Run(states, steps) && k <= |steps| && Serving(states[k].reader) != NO_SIGNAL
    ensures k > 0 && Serves(states, steps, k, LastTaken(states, steps, k))
  {
    if k > 0 {
      assert RunStep(states, steps, k - 1);
      RunKeepsInv(states, steps, k - 1);
      SlotHoldsLastSignal(states, steps, k - 1);
      StepServes(states[k-1], steps[k-1], states[k]);
      if !Takes(states, steps, k - 1) { ServesLast(states, steps, k - 1); }
    }
  }

  /** Serving starts when a signal is taken, and is at the answer when everything accepted is delivered. */
  lemma ThreadServes(s: Sink, openOk: bool)
    requires Enabled(s, ReaderStep(openOk)) && Counts(s) && ReaderOk(s)
    ensures var s' := ReaderNext(s, openOk);
            && s'.accepted == s.accepted
            && (Serving(s'.reader) != NO_SIGNAL ==>
                  Serving(s'.reader) == if s.reader.Waiting? then s.special else Serving(s.reader))
            && (s'.reader.Drained? ==> Delivered(s'.calls) == s.accepted)
  {
    ServingStays(s, openOk);
    if ReaderNext(s, openOk).reader.Drained? {
      assert s.reader.Polling? && s.pending == 0 && ReaderNext(s, openOk).calls == s.calls;
      assert s.accepted[..|s.accepted|] == s.accepted;
    }
  }

  lemma StepServes(s: Sink, step: Step, s': Sink)
    requires Enabled(s, step) && s' == Next(s, step) && Counts(s) && ReaderOk(s)
    ensures s.accepted <= s'.accepted
    ensures Serving(s'.reader) != NO_SIGNAL ==>
      Serving(s'.reader) == if step.ReaderStep? && s.reader.Waiting? then s.special else Serving(s.reader)
    ensures s'.reader.Drained? ==> (s.reader == s'.reader && s.calls == s'.calls) || Delivered(s'.calls) == s'.accepted
  {
    if step.ReaderStep? { ThreadServes(s, step.openOk); } else { ClientKeepsThread(s, step); }
  }

  lemma ServingStays(s: Sink, openOk: bool)
    requires Enabled(s, ReaderStep(openOk))
    ensures var s' := ReaderNext(s, openOk);
            && s'.accepted == s.accepted
            && (Serving(s'.reader) != NO_SIGNAL ==>
                  Serving(s'.reader) == if s.reader.Waiting? then s.special else Serving(s.reader))
  {
  }

  /** When a signal is answered, everything accepted before it was taken has been delivered. */
  lemma AnsweredAfterData(states: seq<Sink>, steps: seq<Step>, k: nat)
    requires Run(states, steps) && k < |steps| && steps[k].ReaderStep? && states[k].reader.Drained?
    ensures states[k].reader.signal in {FLUSH, RESET, TERMINATE}
    ensures var j, signal := LastTaken(states, steps, k), states[k].reader.signal;
            && j < k && Takes(states, steps, j) && Outstanding(states, steps, j) == signal
            && states[j].accepted <= Delivered(states[k].calls)
            && states[k+1].calls == states[k].calls + [AnswerTo(signal)[0]]
  {
    AlwaysServesKnown(states, steps, k);
    assert RunStep(states, steps, k);
    ServesLast(states, steps, k);
    GivenAnswers(states[k], steps[k].openOk);
  }
}
