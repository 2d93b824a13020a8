/**
  Initialisation and deletion of a simulation: the flags passed to the computational functions of
  its blocks, in order of creation. `log` records the calls.
 */
module Lifecycle {
  datatype Flag = PreInit | Init | PostInit | Destructor | PostDestructor

  datatype Event = Event(flag: Flag, block: nat)

  function Rank(f: Flag): nat {
    match f
    case PreInit => 0
    case Init => 1
    case PostInit => 2
    case Destructor => 3
    case PostDestructor => 4
  }

  /** One call for each of the blocks a to b - 1. */
  function Calls(flag: Flag, a: nat, b: nat): (s: seq<Event>)
    requires a <= b
    ensures |s| == b - a
  {
    seq(b - a, i requires 0 <= i < b - a => Event(flag, a + i))
  }

  lemma CallsNext(flag: Flag, a: nat, b: nat)
    requires a <= b
    ensures Calls(flag, a, b + 1) == Calls(flag, a, b) + [Event(flag, b)]
  {
  }

  /** The first block whose call fails, or the number of blocks. */
  function FirstFailure(ok: seq<bool>): (f: nat)
    ensures f <= |ok| && (f < |ok| ==> !ok[f]) && forall i | 0 <= i < f :: ok[i]
  {
    if ok == [] || !ok[0] then 0 else 1 + FirstFailure(ok[1..])
  }

  lemma FailureFound(ok: seq<bool>, f: nat)
    requires f <= |ok| && (f < |ok| ==> !ok[f]) && forall i | 0 <= i < f :: ok[i]
    ensures FirstFailure(ok) == f
  {
  }

  /** The marks of n blocks of which those from a on are initialised. */
  function MarksFrom(n: nat, a: nat): (marks: seq<bool>)
    ensures |marks| == n
  {
    seq(n, i => i >= a)
  }

  /** The marks when the first f of them are taken back. */
  function TakenBack(marks: seq<bool>, f: nat): (r: seq<bool>)
    ensures |r| == |marks|
  {
    seq(|marks|, i requires 0 <= i < |marks| => i >= f && marks[i])
  }

  /** Which calls of one initialisation succeed. */
  datatype Attempt = Attempt(preOk: seq<bool>, initOk: seq<bool>, postOk: seq<bool>)
  {
    predicate Fits(n: nat) { |preOk| == |initOk| == |postOk| == n }
    /** All PREINIT calls succeed. */
    predicate Through() { FirstFailure(preOk) == |preOk| }
    predicate Succeeds() { Through() && FirstFailure(initOk) == |initOk| }
  }

  class Simulation {
    var blockInitialised: seq<bool>
    // Raised by every pass that completes, and so by the PREINIT pass already.
    var blocksInitialised: bool
    ghost var log: seq<Event>

    constructor (n: nat)
      ensures blockInitialised == MarksFrom(n, n) && !blocksInitialised && log == []
    {
      blockInitialised, blocksInitialised, log := MarksFrom(n, n), false, [];
    }

    method CompFunc(flag: Flag, block: nat)
      modifies this`log
      ensures log == old(log) + [Event(flag, block)]
    {
      log := log + [Event(flag, block)];
    }

    /** The pass over all blocks; `ok` tells which calls succeed, `undo` is called for those before a failed one. */
    method CallInitFlag(flag: Flag, undo: Flag, handleFaults: bool, ok: seq<bool>) returns (ret: int)
      requires |ok| == |blockInitialised|
      modifies this
      ensures ret == if handleFaults && FirstFailure(ok) < |ok| then -1 else 0
      ensures blocksInitialised <==> old(blocksInitialised) || ret == 0
      ensures ret == -1 ==>
        && log == old(log) + Calls(flag, 0, FirstFailure(ok) + 1) + Calls(undo, 0, FirstFailure(ok))
        && blockInitialised == TakenBack(old(blockInitialised), FirstFailure(ok))
      ensures ret == 0 ==> log == old(log) + Calls(flag, 0, |ok|) && blockInitialised == MarksFrom(|ok|, 0)
    {
      var counter, abortAt := 0, -1;
      while counter < |blockInitialised| && abortAt == -1
        invariant 0 <= counter <= |blockInitialised| == |ok|
        invariant handleFaults ==> forall i | 0 <= i < counter :: ok[i]
        invariant abortAt == -1 || (abortAt == counter < |ok| && handleFaults && !ok[counter])
        invariant log == old(log) + Calls(flag, 0, if abortAt == -1 then counter else counter + 1)
        invariant forall i | 0 <= i < |ok| :: blockInitialised[i] == (i < counter || old(blockInitialised)[i])
        invariant blocksInitialised == old(blocksInitialised)
        decreases |ok| - counter, abortAt == -1
      {
        CallsNext(flag, 0, counter);
        CompFunc(flag, counter);
        if !ok[counter] && handleFaults {
          abortAt := counter;
        } else {
          blockInitialised := blockInitialised[counter := true];
          counter := counter + 1;
        }
      }
      FailureFound(ok, if handleFaults then counter else FirstFailure(ok));
      if abortAt == -1 {
        blocksInitialised := true;
        return 0;
      }
      UndoBefore(undo, abortAt);
      return -1;
    }

    /** The calls that undo the pass for the blocks before the failed one. */
    method UndoBefore(undo: Flag, abortAt: nat)
      requires abortAt < |blockInitialised|
      modifies this`log, this`blockInitialised
      ensures log == old(log) + Calls(undo, 0, abortAt)
      ensures blockInitialised == TakenBack(old(blockInitialised), abortAt)
    {
      var counter := 0;
      while counter != abortAt
        invariant 0 <= counter <= abortAt < |blockInitialised| == |old(blockInitialised)|
        invariant log == old(log) + Calls(undo, 0, counter)
        invariant forall i | 0 <= i < |blockInitialised| ::
          blockInitialised[i] == (i >= counter && old(blockInitialised)[i])
      {
        CallsNext(undo, 0, counter);
        CompFunc(undo, counter);
        blockInitialised := blockInitialised[counter := false];
        counter := counter + 1;
      }
    }

    /** libdyn_simulation_init on a simulation none of whose blocks is initialised. */
    method Initialise(a: Attempt) returns (ret: int)
      requires a.Fits(|blockInitialised|) && blockInitialised == MarksFrom(|a.preOk|, |a.preOk|)
      modifies this
      ensures ret == if a.Succeeds() then 0 else -1
      ensures blocksInitialised <==> old(blocksInitialised) || a.Through()
      ensures log == old(log) + InitLog(a.preOk, a.initOk)
      ensures blockInitialised == MarksFrom(|a.preOk|, FirstInitialised(a.preOk, a.initOk))
    {
      ret := CallInitFlag(PreInit, PostDestructor, true, a.preOk);
      if ret < 0 { return; }
      ret := CallInitFlag(Init, Destructor, true, a.initOk);
      if ret < 0 { return; }
      ret := CallInitFlag(PostInit, PostInit, false, a.postOk);
    }

    /** The start of libdyn_simulation_step: initialises unless the flag is raised, whatever comes of it. */
    method BeforeStep(a: Attempt)
      requires a.Fits(|blockInitialised|)
      requires !blocksInitialised ==> blockInitialised == MarksFrom(|a.preOk|, |a.preOk|)
      modifies this
      ensures blocksInitialised <==> old(blocksInitialised) || a.Through()
      ensures old(blocksInitialised) ==> log == old(log) && blockInitialised == old(blockInitialised)
      ensures !old(blocksInitialised) ==>
        && log == old(log) + InitLog(a.preOk, a.initOk)
        && blockInitialised == MarksFrom(|a.preOk|, FirstInitialised(a.preOk, a.initOk))
    {
      if !blocksInitialised { var ret := Initialise(a); }
    }

    /** After k steps. */
    ghost predicate AtStep(attempts: seq<Attempt>, n: nat, k: nat)
      reads this
    {
      && k <= |attempts| && log == StepsLog(attempts, k)
      && (blocksInitialised <==> FirstThrough(attempts) < k)
      && blockInitialised == MarksFrom(n, if FirstThrough(attempts) < k then FirstRunning(attempts, n) else n)
    }

    /**
      Steps of a simulation that nobody initialised; attempt k is what an initialisation in step k would
      meet. The last initialisation is the first one all of whose PREINIT calls succeed, even if an INIT
      call fails in it.
     */
    method Steps(attempts: seq<Attempt>, n: nat)
      requires !blocksInitialised && blockInitialised == MarksFrom(n, n) && log == []
      requires forall a | a in attempts :: a.Fits(n)
      modifies this
      ensures log == StepsLog(attempts, |attempts|)
      ensures blocksInitialised <==> FirstThrough(attempts) < |attempts|
      ensures blockInitialised == MarksFrom(n, FirstRunning(attempts, n))
    {
      for k := 0 to |attempts|
        invariant AtStep(attempts, n, k)
      {
        StepAt(attempts, n, k);
      }
    }

    method StepAt(attempts: seq<Attempt>, n: nat, k: nat)
      requires AtStep(attempts, n, k) && k < |attempts| && attempts[k].Fits(n)
      modifies this
      ensures AtStep(attempts, n, k + 1)
    {
      ThroughAt(attempts, k);
      BeforeStep(attempts[k]);
    }

    /** One of the two passes of libdyn_del_simulation; the blocks from a on are initialised. */
    method DestructorPass(flag: Flag, ghost n: nat, ghost a: nat)
      requires a <= n && blockInitialised == MarksFrom(n, a)
      modifies this`log, this`blockInitialised
      ensures log == old(log) + Calls(flag, a, n)
      ensures blockInitialised == MarksFrom(n, if flag == PostDestructor then n else a)
    {
      for i := 0 to |blockInitialised|
        invariant |blockInitialised| == n
        invariant log == old(log) + if i < a then [] else Calls(flag, a, i)
        invariant forall j | 0 <= j < n :: blockInitialised[j] <==> j >= a && (flag == PostDestructor ==> j >= i)
      {
        if blockInitialised[i] {
          CallsNext(flag, a, i);
          CompFunc(flag, i);
        }
        if flag == PostDestructor { blockInitialised := blockInitialised[i := false]; }
      }
    }

    /** libdyn_del_simulation */
    method Delete(ghost n: nat, ghost a: nat)
      requires a <= n && blockInitialised == MarksFrom(n, a)
      modifies this`log, this`blockInitialised
      ensures log == old(log) + DeleteLog(a, n)
      ensures blockInitialised == MarksFrom(n, n)
    {
      DestructorPass(Destructor, n, a);
      DestructorPass(PostDestructor, n, a);
    }
  }

  /** The first attempt all of whose PREINIT calls succeed, or their number. */
  function FirstThrough(attempts: seq<Attempt>): (k: nat)
    ensures k <= |attempts| && (k < |attempts| ==> attempts[k].Through())
    ensures forall j | 0 <= j < k :: !attempts[j].Through()
  {
    if attempts == [] || attempts[0].Through() then 0 else 1 + FirstThrough(attempts[1..])
  }

  /** The first block that is initialised once that attempt is made. */
  function FirstRunning(attempts: seq<Attempt>, n: nat): nat {
    var k := FirstThrough(attempts);
    if k < |attempts| then FirstInitialised(attempts[k].preOk, attempts[k].initOk) else n
  }

  /** The calls of the first k steps. */
  function StepsLog(attempts: seq<Attempt>, k: nat): seq<Event>
    requires k <= |attempts|
  {
    if k == 0 then []
    else if k - 1 <= FirstThrough(attempts) then
      StepsLog(attempts, k - 1) + InitLog(attempts[k-1].preOk, attempts[k-1].initOk)
    else StepsLog(attempts, k - 1)
  }

  /**
    However long it is stepped, a block gets INIT at most once: in the first attempt all of whose PREINIT
    calls succeed, if no INIT call before its own fails in it. A failed initialisation is not repeated.
   */
  lemma {:induction false} InitOnce(attempts: seq<Attempt>, n: nat, k: nat, block: nat)
    requires k <= |attempts| && block < n && forall a | a in attempts :: a.Fits(n)
    ensures var j := FirstThrough(attempts);
            Count(StepsLog(attempts, k), Init, block) ==
              if j < k && block <= FirstFailure(attempts[j].initOk) then 1 else 0
  {
    if k > 0 {
      InitOnce(attempts, n, k - 1, block);
      var a := attempts[k-1];
      assert a.Fits(n);
      InitReached(a, block);
      CountAppend(StepsLog(attempts, k - 1), InitLog(a.preOk, a.initOk), Init, block);
      ThroughAt(attempts, k - 1);
    }
  }

  lemma InitReached(a: Attempt, block: nat)
    requires a.Fits(|a.preOk|) && block < |a.preOk|
    ensures Count(InitLog(a.preOk, a.initOk), Init, block) ==
            if a.Through() && block <= FirstFailure(a.initOk) then 1 else 0
  {
    CountInit(a.preOk, a.initOk, Init, block);
  }

  lemma ThroughAt(attempts: seq<Attempt>, k: nat)
    requires k < |attempts|
    ensures FirstThrough(attempts) < k + 1 <==> FirstThrough(attempts) < k || attempts[k].Through()
    ensures !attempts[k].Through() && FirstThrough(attempts) >= k ==>
      FirstInitialised(attempts[k].preOk, attempts[k].initOk) == |attempts[k].preOk|
  {
  }

  /** The calls made by initialisation. */
  function InitLog(preOk: seq<bool>, initOk: seq<bool>): seq<Event> {
    var f, g := FirstFailure(preOk), FirstFailure(initOk);
    if f < |preOk| then PreFailedLog(f)
    else if g < |initOk| then InitFailedLog(g, |preOk|)
    else InitialisedLog(|preOk|)
  }

  function PreFailedLog(f: nat): seq<Event> { Calls(PreInit, 0, f + 1) + Calls(PostDestructor, 0, f) }

  function InitFailedLog(g: nat, n: nat): seq<Event> {
    Calls(PreInit, 0, n) + (Calls(Init, 0, g + 1) + Calls(Destructor, 0, g))
  }

  function InitialisedLog(n: nat): seq<Event> { Calls(PreInit, 0, n) + Calls(Init, 0, n) + Calls(PostInit, 0, n) }

  /** The first block that is initialised after that. */
  function FirstInitialised(preOk: seq<bool>, initOk: seq<bool>): nat {
    if FirstFailure(preOk) < |preOk| then |preOk|
    else if FirstFailure(initOk) < |initOk| then FirstFailure(initOk)
    else 0
  }

  function DeleteLog(a: nat, n: nat): seq<Event>
    requires a <= n
  {
    Calls(Destructor, a, n) + Calls(PostDestructor, a, n)
  }

  /** All calls from initialisation to deletion. */
  function LifeLog(preOk: seq<bool>, initOk: seq<bool>): seq<Event>
    requires |preOk| == |initOk|
  {
    InitLog(preOk, initOk) + DeleteLog(FirstInitialised(preOk, initOk), |preOk|)
  }

  /** A whole life of a simulation. */
  method Life(a: Attempt) returns (ret: int, ghost log: seq<Event>)
    requires a.Fits(|a.preOk|)
    ensures ret == if a.Succeeds() then 0 else -1
    ensures log == LifeLog(a.preOk, a.initOk)
  {
    var sim := new Simulation(|a.preOk|);
    ret := sim.Initialise(a);
    sim.Delete(|a.preOk|, FirstInitialised(a.preOk, a.initOk));
    log := sim.log;
  }

  // ------------------------------------------------------------------ what the calls amount to

  function Count(log: seq<Event>, flag: Flag, block: nat): nat { multiset(log)[Event(flag, block)] }

  lemma {:induction false} CountCalls(flag: Flag, a: nat, b: nat, f: Flag, k: nat)
    requires a <= b
    ensures Count(Calls(flag, a, b), f, k) == if f == flag && a <= k < b then 1 else 0
    decreases b - a
  {
    if a < b {
      CountCalls(flag, a, b - 1, f, k);
      CallsNext(flag, a, b - 1);
    }
  }

  lemma CountAppend(s: seq<Event>, t: seq<Event>, f: Flag, k: nat)
    ensures Count(s + t, f, k) == Count(s, f, k) + Count(t, f, k)
  {
  }

  function One(b: bool): nat { if b then 1 else 0 }

  lemma CountDelete(a: nat, n: nat, f: Flag, k: nat)
    requires a <= n && k < n
    ensures Count(DeleteLog(a, n), f, k) == One((f == Destructor || f == PostDestructor) && a <= k)
  {
    CountCalls(Destructor, a, n, f, k);
    CountCalls(PostDestructor, a, n, f, k);
    CountAppend(Calls(Destructor, a, n), Calls(PostDestructor, a, n), f, k);
  }

  lemma CountPreFailed(p: nat, f: Flag, k: nat)
    ensures Count(PreFailedLog(p), f, k) ==
            One(f == PreInit && k <= p) + One(f == PostDestructor && k < p)
  {
    CountCalls(PreInit, 0, p + 1, f, k);
    CountCalls(PostDestructor, 0, p, f, k);
    CountAppend(Calls(PreInit, 0, p + 1), Calls(PostDestructor, 0, p), f, k);
  }

  lemma CountInitFailed(g: nat, n: nat, f: Flag, k: nat)
    requires g < n && k < n
    ensures Count(InitFailedLog(g, n), f, k) ==
            One(f == PreInit) + One(f == Init && k <= g) + One(f == Destructor && k < g)
  {
    CountCalls(PreInit, 0, n, f, k);
    CountCalls(Init, 0, g + 1, f, k);
    CountCalls(Destructor, 0, g, f, k);
    CountAppend(Calls(Init, 0, g + 1), Calls(Destructor, 0, g), f, k);
    CountAppend(Calls(PreInit, 0, n), Calls(Init, 0, g + 1) + Calls(Destructor, 0, g), f, k);
  }

  lemma CountInitialised(n: nat, f: Flag, k: nat)
    requires k < n
    ensures Count(InitialisedLog(n), f, k) ==
            One(f == PreInit || f == Init || f == PostInit)
  {
    CountCalls(PreInit, 0, n, f, k);
    CountCalls(Init, 0, n, f, k);
    CountCalls(PostInit, 0, n, f, k);
    CountAppend(Calls(PreInit, 0, n), Calls(Init, 0, n), f, k);
    CountAppend(Calls(PreInit, 0, n) + Calls(Init, 0, n), Calls(PostInit, 0, n), f, k);
  }

  lemma CountInit(preOk: seq<bool>, initOk: seq<bool>, f: Flag, k: nat)
    requires |preOk| == |initOk| && k < |preOk|
    ensures var p, g, n := FirstFailure(preOk), FirstFailure(initOk), |preOk|;
            Count(InitLog(preOk, initOk), f, k) ==
              if p < n then One(f == PreInit && k <= p) + One(f == PostDestructor && k < p)
              else if g < n then One(f == PreInit) + One(f == Init && k <= g) + One(f == Destructor && k < g)
              else One(f == PreInit || f == Init || f == PostInit)
  {
    var p, g, n := FirstFailure(preOk), FirstFailure(initOk), |preOk|;
    if p < n {
      CountPreFailed(p, f, k);
    } else if g < n {
      CountInitFailed(g, n, f, k);
    } else {
      CountInitialised(n, f, k);
    }
  }

  /** How often each flag reaches block k in the life of a simulation. */
  lemma CountLife(preOk: seq<bool>, initOk: seq<bool>, f: Flag, k: nat)
    requires |preOk| == |initOk| && k < |preOk|
    ensures var p, g, n := FirstFailure(preOk), FirstFailure(initOk), |preOk|;
            Count(LifeLog(preOk, initOk), f, k) ==
              if p < n then One((f == PreInit && k <= p) || (f == PostDestructor && k < p))
              else if g < n then
                One(f == PreInit || (f == Init && k <= g) || f == Destructor || (f == PostDestructor && k >= g))
              else 1
  {
    var s, a := InitLog(preOk, initOk), FirstInitialised(preOk, initOk);
    CountInit(preOk, initOk, f, k);
    CountDelete(a, |preOk|, f, k);
    CountAppend(s, DeleteLog(a, |preOk|), f, k);
  }

  /** Whether block k's successful calls are undone: PREINIT by POSTDESTRUCTOR and INIT by DESTRUCTOR, each once. */
  predicate Paired(preOk: seq<bool>, initOk: seq<bool>, k: nat)
    requires |preOk| == |initOk| && k < |preOk|
  {
    var log := LifeLog(preOk, initOk);
    && Count(log, PostDestructor, k) == (if preOk[k] then Count(log, PreInit, k) else 0)
    && Count(log, Destructor, k) == (if initOk[k] then Count(log, Init, k) else 0)
  }

  /** All calls of all blocks are paired exactly when no INIT call fails. */
  lemma PairedUnlessInitFails(preOk: seq<bool>, initOk: seq<bool>)
    requires |preOk| == |initOk|
    ensures (forall k: nat | k < |preOk| :: Paired(preOk, initOk, k)) <==>
            FirstFailure(preOk) < |preOk| || FirstFailure(initOk) == |initOk|
  {
    forall k: nat | k < |preOk|
      ensures FirstFailure(preOk) < |preOk| || FirstFailure(initOk) == |initOk| ==> Paired(preOk, initOk, k)
    {
      CountAll(preOk, initOk, k);
    }
    var g := FirstFailure(initOk);
    if FirstFailure(preOk) == |preOk| && g < |initOk| {
      CountAll(preOk, initOk, g);
      assert !Paired(preOk, initOk, g);
    }
  }

  lemma CountAll(preOk: seq<bool>, initOk: seq<bool>, k: nat)
    requires |preOk| == |initOk| && k < |preOk|
    ensures var log, p, g, n := LifeLog(preOk, initOk), FirstFailure(preOk), FirstFailure(initOk), |preOk|;
            && Count(log, PreInit, k) == (if k <= p then 1 else 0)
            && Count(log, PostDestructor, k) ==
                 (if p < n then (if k < p then 1 else 0) else if g == n || k >= g then 1 else 0)
            && Count(log, Init, k) == (if p == n && k <= g then 1 else 0)
            && Count(log, Destructor, k) == (if p == n then 1 else 0)
  {
    CountLife(preOk, initOk, PreInit, k);
    CountLife(preOk, initOk, PostDestructor, k);
    CountLife(preOk, initOk, Init, k);
    CountLife(preOk, initOk, Destructor, k);
  }

  predicate Ordered(log: seq<Event>) {
    forall i, j | 0 <= i < j < |log| :: Rank(log[i].flag) <= Rank(log[j].flag)
  }

  predicate UpTo(log: seq<Event>, f: Flag) {
    forall i | 0 <= i < |log| :: Rank(log[i].flag) <= Rank(f)
  }

  lemma OrderedAppend(s: seq<Event>, f: Flag, n: nat)
    requires Ordered(s) && UpTo(s, f)
    ensures Ordered(s + Calls(f, 0, n)) && UpTo(s + Calls(f, 0, n), f)
  {
  }

  lemma UpToHigher(s: seq<Event>, f: Flag, g: Flag)
    requires UpTo(s, f) && Rank(f) <= Rank(g)
    ensures UpTo(s, g)
  {
  }

  lemma FivePhases(n: nat)
    ensures Ordered(
      Calls(PreInit, 0, n) + Calls(Init, 0, n) + Calls(PostInit, 0, n) +
      Calls(Destructor, 0, n) + Calls(PostDestructor, 0, n))
  {
    var s1 := Calls(PreInit, 0, n);
    UpToHigher(s1, PreInit, Init);
    var s2 := s1 + Calls(Init, 0, n);
    OrderedAppend(s1, Init, n);
    UpToHigher(s2, Init, PostInit);
    var s3 := s2 + Calls(PostInit, 0, n);
    OrderedAppend(s2, PostInit, n);
    UpToHigher(s3, PostInit, Destructor);
    var s4 := s3 + Calls(Destructor, 0, n);
    OrderedAppend(s3, Destructor, n);
    UpToHigher(s4, Destructor, PostDestructor);
    OrderedAppend(s4, PostDestructor, n);
  }

  /**
    In a successful life the phases follow each other, no block entering one before every block
    has left the one before, and each block gets each flag once.
   */
  lemma PhasesInOrder(preOk: seq<bool>, initOk: seq<bool>)
    requires |preOk| == |initOk| == FirstFailure(preOk) == FirstFailure(initOk)
    ensures Ordered(LifeLog(preOk, initOk))
    ensures forall k: nat, f: Flag | k < |preOk| :: Count(LifeLog(preOk, initOk), f, k) == 1
  {
    var n := |preOk|;
    FivePhases(n);
    assert LifeLog(preOk, initOk) ==
      Calls(PreInit, 0, n) + Calls(Init, 0, n) + Calls(PostInit, 0, n) +
      Calls(Destructor, 0, n) + Calls(PostDestructor, 0, n);
    forall k: nat, f: Flag | k < |preOk| ensures Count(LifeLog(preOk, initOk), f, k) == 1 {
      CountLife(preOk, initOk, f, k);
    }
  }
}
