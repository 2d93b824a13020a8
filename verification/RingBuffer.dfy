/**
  The ring buffer functions of log.c. Each is proved to make exactly the steps of the sink
  protocol that belong to its thread, with nothing of the other thread in between.
 */
module RingBuffer {
  import opened SinkProtocol

  /** The protocol state after n elements of the write in progress were copied. */
  ghost function CopyN(s: Sink, n: nat): (s': Sink)
    requires Inv(s) && s.writer.Copying? && s.writer.next + n <= |s.writer.data|
    ensures Inv(s') && s'.writer == s.writer.(next := s.writer.next + n)
    ensures s' == s.(buf := s'.buf, writeCnt := s'.writeCnt, writer := s'.writer)
  {
    if n == 0 then s
    else
      var p := CopyN(s, n - 1);
      CopyEnabled(p);
      StepKeepsInv(p, CopyOne);
      Next(p, CopyOne)
  }

  lemma CopyEnabled(s: Sink)
    requires Inv(s) && s.writer.Copying? && s.writer.next < |s.writer.data|
    ensures Enabled(s, CopyOne)
  {
  }

  /** An uninterrupted log_ringbuffer_write, in steps of the protocol. */
  ghost function WholeWrite(s: Sink, data: seq<Elem>): Sink
    requires Inv(s) && Enabled(s, Write(data)) && !Refused(s, data)
  {
    StepKeepsInv(s, Write(data));
    Next(CopyN(Next(s, Write(data)), |data|), Commit)
  }

  class RingBuffer {
    const buf: array<Elem>
    var writeCnt: nat
    var readCnt: nat
    var pending: int
    var special: int
    const wakeupElements: int
    var wakeupCounter: int

    /** This buffer is the one of the protocol state s. */
    ghost predicate Shows(s: Sink)
      reads this, buf
    {
      s.buf == buf[..] && s.writeCnt == writeCnt && s.readCnt == readCnt && s.pending == pending && s.special == special
    }

    constructor (numElements: nat, autoflushInterval: int)
      ensures fresh(buf) && buf.Length == numElements
      ensures writeCnt == 0 && readCnt == 0 && pending == 0 && special == NO_SIGNAL
      ensures forall s: Sink | Init(s) && s.buf == buf[..] :: Shows(s)
    {
      buf := new Elem[numElements];
      writeCnt, readCnt, pending, special := 0, 0, 0, NO_SIGNAL;
      wakeupElements, wakeupCounter := autoflushInterval, 0;
    }

    method CopyElement(elem: Elem, ghost s: Sink)
      requires Shows(s) && Enabled(s, CopyOne) && elem == s.writer.data[s.writer.next]
      modifies this`writeCnt, buf
      ensures Shows(Next(s, CopyOne))
    {
      buf[writeCnt] := elem;
      writeCnt := writeCnt + 1;
      if writeCnt >= buf.Length { writeCnt := 0; }
    }

    method CopyElements(data: seq<Elem>, ghost start: Sink)
      requires Shows(start) && Inv(start) && start.writer == Copying(data, 0)
      modifies this`writeCnt, buf
      ensures Shows(CopyN(start, |data|))
    {
      for i := 0 to |data|
        invariant Shows(CopyN(start, i))
      {
        CopyEnabled(CopyN(start, i));
        CopyElement(data[i], CopyN(start, i));
      }
    }

    /** log_ringbuffer_write; `notify` tells whether the reader thread is woken. */
    method WriteElements(data: seq<Elem>, ghost s: Sink) returns (code: int, notify: bool)
      requires Shows(s) && Inv(s) && Enabled(s, Write(data))
      modifies this`writeCnt, this`pending, this`wakeupCounter, buf
      ensures code == if Refused(s, data) then -1 else 0
      ensures Shows(if Refused(s, data) then s else WholeWrite(s, data))
      ensures notify <==> code == 0 && old(wakeupCounter) > wakeupElements
      ensures wakeupCounter == if notify then 0 else if code == 0 then old(wakeupCounter) + 1 else old(wakeupCounter)
    {
      var freeSlots := buf.Length - pending;
      if freeSlots < |data| { return -1, false; }
      StepKeepsInv(s, Write(data));
      CopyElements(data, Next(s, Write(data)));
      pending := pending + |data|;
      code := 0;
      if wakeupCounter > wakeupElements {
        notify := true;
        wakeupCounter := 0;
      } else {
        notify := false;
        wakeupCounter := wakeupCounter + 1;
      }
    }

    /** log_ringbuffer_send_signal */
    method SendSignal(signal: int, ghost s: Sink)
      requires Shows(s) && Enabled(s, Send(signal))
      modifies this`special
      ensures Shows(Next(s, Send(signal)))
    {
      special := signal;
    }

    /** The part of log_ringbuffer_read that takes one element; the thread is about to fetch it. */
    method TakeElement(ghost s: Sink) returns (elem: Elem, ghost s': Sink)
      requires Shows(s) && Inv(s) && s.reader.Fetching?
      modifies this`readCnt, this`pending
      ensures Shows(s') && Inv(s') && Taken(s, elem, s')
    {
      assert SlotOk(s, Released(s));
      ghost var fetched := Next(s, ReaderStep(true));
      StepKeepsInv(s, ReaderStep(true));
      elem := buf[readCnt];
      readCnt := readCnt + 1;
      if readCnt >= buf.Length { readCnt := 0; }
      s' := Next(fetched, ReaderStep(true));
      StepKeepsInv(fetched, ReaderStep(true));
      pending := pending - 1;
    }

    /** log_ringbuffer_read without blocking, called by the thread while it drains the buffer. */
    method TryRead(ghost s: Sink) returns (code: int, elem: Elem, ghost s': Sink)
      requires Shows(s) && Inv(s) && s.reader.Polling? && s.reader.loop.Drain?
      modifies this`readCnt, this`pending
      ensures Shows(s') && Inv(s')
      ensures code == if s.pending == 0 then -1 else 0
      ensures code == -1 ==> s' == Next(s, ReaderStep(true))
      ensures code == 0 ==> Taken(s, elem, s')
    {
      code, elem := -1, 0;
      s' := Next(s, ReaderStep(true));
      StepKeepsInv(s, ReaderStep(true));
      if pending != 0 {
        elem, s' := TakeElement(s');
        code := 0;
      }
    }

    /** log_ringbuffer_avait_signal once its condition holds: takes the signal, if there is one. */
    method AwaitSignal(ghost s: Sink) returns (signal: int)
      requires Shows(s) && s.reader.Waiting? && Enabled(s, ReaderStep(true))
      modifies this`special
      ensures signal == s.special && Shows(Next(s, ReaderStep(true)))
    {
      signal := special;
      special := NO_SIGNAL;
    }

    /**
      log_ringbuffer_read with blocking, called by the main loop of the thread, from the point on
      where it need not sleep: a signal is returned only if no element is pending.
     */
    method Read(ghost s: Sink) returns (code: int, elem: Elem, ghost s': Sink)
      requires Shows(s) && Inv(s) && s.reader == Polling(Main) && (s.pending != 0 || s.special != NO_SIGNAL)
      modifies this`readCnt, this`pending, this`special
      ensures Shows(s') && Inv(s')
      ensures code == if s.pending == 0 then s.special else 0
      ensures s.pending == 0 ==>
        s'.reader == Polling(Drain(code)) && s'.special == NO_SIGNAL && s'.accepted == s.accepted && s'.calls == s.calls
      ensures s.pending != 0 ==> Taken(s, elem, s')
    {
      elem := 0;
      s' := Next(s, ReaderStep(true));
      StepKeepsInv(s, ReaderStep(true));
      if pending == 0 {
        code := AwaitSignal(s');
        StepKeepsInv(s', ReaderStep(true));
        s' := Next(s', ReaderStep(true));
      } else {
        elem, s' := TakeElement(s');
        code := 0;
      }
    }
  }

  /** The oldest pending element was taken and is about to be delivered. */
  ghost predicate Taken(s: Sink, elem: Elem, s': Sink) {
    && 0 < s.pending <= |s.accepted| && elem == s.accepted[|s.accepted| - s.pending]
    && (s.reader.Polling? || s.reader.Fetching?) && s'.reader == Delivering(s.reader.loop, elem)
    && s'.pending == s.pending - 1 && s'.accepted == s.accepted && s'.calls == s.calls
  }
}
