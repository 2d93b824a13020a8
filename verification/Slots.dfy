/**
  Online exchange of nested simulations (libdyn_nested2): simulations sit in slots, one of them is
  the current one, and its output and state-update steps are called separately.
 */
module Slots {
  datatype Option<T> = None | Some(value: T)

  datatype Kind = Output | Update

  /** A slot: its simulation, and whether an output step was made since it was placed there. */
  datatype Slot = Slot(sim: Option<nat>, initialised: bool)

  /**
    Simulations are numbered in the order of their creation. `logs` holds the steps each one has
    made, `dead` the destructed ones; `crashed` records a step of no or of a destructed simulation.
   */
  datatype State = State(
    slots: seq<Slot>,
    used: nat,
    addPointer: nat,
    currentSim: Option<nat>,
    currentSlot: nat,
    currentNr: nat,
    logs: seq<seq<Kind>>,
    dead: set<nat>,
    crashed: bool)
  {
    predicate IndexOk(i: int) { 0 <= i < used }
    predicate Occupied(i: nat) { i < |slots| && slots[i].sim.Some? }

    /** The simulation has made a step. */
    predicate Stepped(sim: nat) { sim < |logs| && logs[sim] != [] }

    /** The current slot's flag is up. */
    predicate Flagged() { currentSlot < |slots| && slots[currentSlot].initialised }
  }

  predicate Filled(slots: seq<Slot>, i: int) { 0 <= i < |slots| && slots[i].sim.Some? }

  /** A new set of n slots; the flags are not initialised by the source. */
  predicate Initial(s: State) {
    && s.used == s.addPointer == s.currentNr == 0 && s.currentSim.None?
    && s.logs == [] && s.dead == {} && !s.crashed
    && forall i | 0 <= i < |s.slots| :: s.slots[i].sim.None?
  }

  datatype Op =
    | AddNext
    | AddAt(slot: int)
    | SetCurrent(slot: int)
    | Delete(slot: int)
    | DeleteSwitch(slot: int, to: int)
    | StepOutput
    | StepUpdate

  /** The new simulation takes slot i; `nr` is recorded as the number of the current slot. */
  function Place(s: State, i: nat, nr: nat): State
    requires i < |s.slots|
  {
    s.(slots := s.slots[i := Slot(Some(|s.logs|), false)], currentSim := Some(|s.logs|), currentSlot := i,
       currentNr := nr, logs := s.logs + [[]])
  }

  predicate Accepts(s: State, op: Op) {
    match op
    case AddNext => s.addPointer < |s.slots|
    case AddAt(i) => s.IndexOk(i) && i < |s.slots| && !s.Occupied(i)
    case SetCurrent(i) => s.IndexOk(i) && s.Occupied(i)
    case Delete(i) => s.IndexOk(i) && i != s.currentNr && s.Occupied(i)
    case DeleteSwitch(i, to) => s.IndexOk(i) && s.IndexOk(to) && to < |s.slots| && s.Occupied(i)
    case StepOutput => s.currentSim.Some?
    case StepUpdate => s.used > 0 && s.Flagged()
  }

  /** There is a current simulation and it has not been destructed. */
  predicate CurrentLives(s: State) {
    s.currentSim.Some? && s.currentSim.value < |s.logs| && s.currentSim.value !in s.dead
  }

  function Step(s: State, kind: Kind): State
    requires CurrentLives(s)
  {
    var c := s.currentSim.value;
    s.(logs := s.logs[c := s.logs[c] + [kind]])
  }

  /** An operation. A step of no or of a destructed simulation has no defined effect. */
  function Apply(s: State, op: Op): State {
    if s.crashed then s
    else if !Accepts(s, op) then
      match op
      case AddNext => s.(logs := s.logs + [[]])
      case AddAt(_) => s.(logs := s.logs + [[]])
      case StepOutput => s.(crashed := true)
      case StepUpdate => s.(crashed := s.used == 0)
      case _ => s
    else
      match op
      case AddNext => Place(s, s.addPointer, s.addPointer).(addPointer := s.addPointer + 1, used := s.used + 1)
      case AddAt(i) => Place(s, i, s.addPointer)
      case SetCurrent(i) => s.(currentSim := s.slots[i].sim, currentSlot := i, currentNr := i)
      case Delete(i) => s.(slots := s.slots[i := s.slots[i].(sim := None)], dead := s.dead + {s.slots[i].sim.value})
      case DeleteSwitch(i, to) =>
        s.(currentSim := s.slots[to].sim, slots := s.slots[i := s.slots[i].(sim := None)],
           dead := s.dead + {s.slots[i].sim.value})
      case StepOutput =>
        if !CurrentLives(s) then s.(crashed := true)
        else if s.currentSlot < |s.slots| then
          Step(s, Output).(slots := s.slots[s.currentSlot := s.slots[s.currentSlot].(initialised := true)])
        else Step(s, Output)
      case StepUpdate => if CurrentLives(s) then Step(s, Update) else s.(crashed := true)
  }

  /** The state after the first k operations. */
  function Run(s: State, ops: seq<Op>, k: nat): State
    requires k <= |ops|
  {
    if k == 0 then s else Apply(Run(s, ops, k - 1), ops[k-1])
  }

  // ------------------------------------------------------------------ first steps

  predicate StartsWithOutput(log: seq<Kind>) { log == [] || log[0] == Output }

  predicate AllStartWithOutput(s: State) { forall k: nat | k < |s.logs| :: StartsWithOutput(s.logs[k]) }

  /** An occupant lives, and a raised flag says truly that it has stepped. */
  predicate SlotOk(s: State, i: nat)
    requires i < |s.slots|
  {
    s.slots[i].sim.Some? ==>
      && i < s.used && s.slots[i].sim.value < |s.logs| && s.slots[i].sim.value !in s.dead
      && (s.slots[i].initialised ==> s.Stepped(s.slots[i].sim.value))
  }

  predicate Apart(s: State, i: nat, j: nat)
    requires i < |s.slots| && j < |s.slots|
  {
    s.slots[i].sim.Some? && s.slots[i].sim == s.slots[j].sim ==> i == j
  }

  /** What a step of the living current simulation can do to the flag of its slot does no harm. */
  predicate CurrentOk(s: State) {
    CurrentLives(s) ==>
      && (s.Flagged() ==> s.Stepped(s.currentSim.value))
      && (s.Occupied(s.currentSlot) && s.slots[s.currentSlot].sim != s.currentSim ==>
            s.Stepped(s.slots[s.currentSlot].sim.value))
  }

  ghost predicate Inv(s: State) {
    && s.used == s.addPointer <= |s.slots|
    && (s.used > 0 ==> s.currentSlot < s.used)
    && (s.currentSim.Some? ==> s.used > 0 && s.currentSim.value < |s.logs|)
    && (forall i: nat | i < |s.slots| :: SlotOk(s, i))
    && (forall i: nat, j: nat | i < |s.slots| && j < |s.slots| :: Apart(s, i, j))
    && (forall d | d in s.dead :: d < |s.logs|)
    && AllStartWithOutput(s)
    && CurrentOk(s)
  }

  /**
    The two-slot delete makes the occupant of slot `to` current but keeps the current slot, so
    that simulation shares a flag with the occupant that slot keeps. This does no harm if there is no
    such simulation or it is the one destructed, or else if the flag is down or it has stepped, and
    the occupant of the current slot is itself, destructed or has stepped.
   */
  predicate SwitchSafe(s: State, i: nat, to: nat) {
    to < |s.slots| && s.slots[to].sim.Some? && i != to ==>
      && (s.Flagged() ==> s.Stepped(s.slots[to].sim.value))
      && (s.Occupied(s.currentSlot) && s.currentSlot != to && s.currentSlot != i ==>
            s.Stepped(s.slots[s.currentSlot].sim.value))
  }

  /** Every operation but a harmful two-slot delete. */
  predicate Allowed(s: State, op: Op) {
    op.DeleteSwitch? && Accepts(s, op) && !s.crashed ==> SwitchSafe(s, op.slot, op.to)
  }

  lemma PlaceKeepsInv(s: State, op: Op)
    requires Inv(s) && !s.crashed && (op.AddNext? || op.AddAt?)
    ensures Inv(Apply(s, op))
  {
    var t := Apply(s, op);
    forall i: nat | i < |t.slots| ensures SlotOk(t, i) {
      assert SlotOk(s, i);
    }
    forall i: nat, j: nat | i < |t.slots| && j < |t.slots| ensures Apart(t, i, j) {
      assert Apart(s, i, j) && SlotOk(s, i) && SlotOk(s, j);
    }
    if !Accepts(s, op) && s.Occupied(s.currentSlot) { assert SlotOk(s, s.currentSlot); }
  }

  lemma SetKeepsInv(s: State, op: Op)
    requires Inv(s) && !s.crashed && op.SetCurrent?
    ensures Inv(Apply(s, op))
  {
    if Accepts(s, op) {
      var t := Apply(s, op);
      assert SlotOk(s, op.slot);
      forall i: nat | i < |t.slots| ensures SlotOk(t, i) {
        assert SlotOk(s, i);
      }
      forall i: nat, j: nat | i < |t.slots| && j < |t.slots| ensures Apart(t, i, j) {
        assert Apart(s, i, j);
      }
    }
  }

  lemma DeleteKeepsSlots(s: State, op: Op)
    requires Inv(s) && !s.crashed && (op.Delete? || op.DeleteSwitch?) && Accepts(s, op)
    ensures var t := Apply(s, op);
            && (forall i: nat | i < |t.slots| :: SlotOk(t, i))
            && (forall i: nat, j: nat | i < |t.slots| && j < |t.slots| :: Apart(t, i, j))
  {
    var t := Apply(s, op);
    assert SlotOk(s, op.slot);
    forall i: nat | i < |t.slots| ensures SlotOk(t, i) {
      assert SlotOk(s, i) && Apart(s, i, op.slot);
    }
    forall i: nat, j: nat | i < |t.slots| && j < |t.slots| ensures Apart(t, i, j) {
      assert Apart(s, i, j);
    }
  }

  lemma DeleteKeepsInv(s: State, op: Op)
    requires Inv(s) && !s.crashed && op.Delete?
    ensures Inv(Apply(s, op))
  {
    if Accepts(s, op) {
      DeleteKeepsSlots(s, op);
      assert SlotOk(s, op.slot);
    }
  }

  /** The two-slot delete keeps the invariant exactly if it is safe. */
  lemma SwitchKeepsInv(s: State, op: Op)
    requires Inv(s) && !s.crashed && op.DeleteSwitch? && Accepts(s, op)
    ensures Inv(Apply(s, op)) <==> SwitchSafe(s, op.slot, op.to)
  {
    DeleteKeepsSlots(s, op);
    assert SlotOk(s, op.slot) && SlotOk(s, op.to);
    assert Apart(s, op.slot, op.to) && Apart(s, s.currentSlot, op.to) && Apart(s, s.currentSlot, op.slot);
  }

  lemma StepKeepsInv(s: State, op: Op)
    requires Inv(s) && !s.crashed && (op.StepOutput? || op.StepUpdate?)
    ensures Inv(Apply(s, op))
  {
    var t := Apply(s, op);
    forall i: nat | i < |t.slots| ensures SlotOk(t, i) {
      assert SlotOk(s, i);
    }
    forall i: nat, j: nat | i < |t.slots| && j < |t.slots| ensures Apart(t, i, j) {
      assert Apart(s, i, j);
    }
  }

  lemma ApplyKeepsInv(s: State, op: Op)
    requires Inv(s)
    ensures Inv(Apply(s, op)) <==> Allowed(s, op)
  {
    if s.crashed { return; }
    match op
    case AddNext => PlaceKeepsInv(s, op);
    case AddAt(_) => PlaceKeepsInv(s, op);
    case SetCurrent(_) => SetKeepsInv(s, op);
    case Delete(_) => DeleteKeepsInv(s, op);
    case DeleteSwitch(_, _) => if Accepts(s, op) { SwitchKeepsInv(s, op); }
    case StepOutput => StepKeepsInv(s, op);
    case StepUpdate => StepKeepsInv(s, op);
  }

  ghost predicate AllowedAt(s: State, ops: seq<Op>, k: nat)
    requires k < |ops|
  {
    Allowed(Run(s, ops, k), ops[k])
  }

  ghost predicate AllAllowed(s: State, ops: seq<Op>) { forall k: nat | k < |ops| :: AllowedAt(s, ops, k) }

  lemma {:induction false} RunKeepsInv(s: State, ops: seq<Op>, k: nat)
    requires Inv(s) && AllAllowed(s, ops) && k <= |ops|
    ensures Inv(Run(s, ops, k))
  {
    if k > 0 {
      RunKeepsInv(s, ops, k - 1);
      assert AllowedAt(s, ops, k - 1);
      ApplyKeepsInv(Run(s, ops, k - 1), ops[k-1]);
    }
  }

  /** In every run without a harmful two-slot delete, the first step of every simulation is an output step. */
  lemma FirstStepIsOutput(s: State, ops: seq<Op>, k: nat)
    requires Initial(s) && AllAllowed(s, ops) && k <= |ops|
    ensures AllStartWithOutput(Run(s, ops, k))
  {
    RunKeepsInv(s, ops, k);
  }

  predicate NoSwitch(ops: seq<Op>) { forall k | 0 <= k < |ops| :: !ops[k].DeleteSwitch? }

  /** However the run goes on without a further two-slot delete, first steps are output steps. */
  ghost predicate AlwaysStartsWithOutput(s: State) {
    forall ops: seq<Op> | NoSwitch(ops) :: AllStartWithOutput(Run(s, ops, |ops|))
  }

  /** The harmful two-slot deletes are exactly those after which some simulation can start with a state update. */
  lemma SwitchExact(s: State, i: int, to: int)
    requires Inv(s) && !s.crashed && Accepts(s, DeleteSwitch(i, to))
    ensures AlwaysStartsWithOutput(Apply(s, DeleteSwitch(i, to))) <==> SwitchSafe(s, i, to)
  {
    var t := Apply(s, DeleteSwitch(i, to));
    SwitchKeepsInv(s, DeleteSwitch(i, to));
    if SwitchSafe(s, i, to) {
      forall ops: seq<Op> | NoSwitch(ops) ensures AllStartWithOutput(Run(t, ops, |ops|)) {
        RunKeepsInv(t, ops, |ops|);
      }
    } else {
      SwitchHarms(s, i, to);
    }
  }

  /** After a harmful two-slot delete one or three more operations are enough. */
  lemma SwitchHarms(s: State, i: int, to: int)
    requires Inv(s) && !s.crashed && Accepts(s, DeleteSwitch(i, to)) && !SwitchSafe(s, i, to)
    ensures !AlwaysStartsWithOutput(Apply(s, DeleteSwitch(i, to)))
  {
    var t, c := Apply(s, DeleteSwitch(i, to)), s.currentSlot;
    assert SlotOk(s, i) && SlotOk(s, to) && Apart(s, i, to);
    if s.Flagged() && !s.Stepped(s.slots[to].sim.value) {
      var u := Apply(t, StepUpdate);
      assert u.logs[s.slots[to].sim.value] == [Update];
      assert !StartsWithOutput(u.logs[s.slots[to].sim.value]);
      assert Run(t, [StepUpdate], 0) == t;
      assert NoSwitch([StepUpdate]) && Run(t, [StepUpdate], 1) == u;
    } else {
      assert SlotOk(s, c) && Apart(s, c, to) && Apart(s, c, i);
      var other := s.slots[c].sim.value;
      var t1 := Apply(t, StepOutput);
      var t2 := Apply(t1, SetCurrent(c));
      var t3 := Apply(t2, StepUpdate);
      assert t3.logs[other] == [Update];
      assert !StartsWithOutput(t3.logs[other]);
      var ops := [StepOutput, SetCurrent(c), StepUpdate];
      RunTwo(t, ops, 0);
      assert Run(t, ops, 0) == t && Run(t, ops, 3) == t3;
      assert NoSwitch(ops);
    }
  }

  /** In particular the next state update is a first step exactly for an unstepped simulation and a raised flag. */
  lemma SwitchThenUpdate(s: State, i: int, to: int)
    requires Inv(s) && !s.crashed && Accepts(s, DeleteSwitch(i, to))
    ensures AllStartWithOutput(Apply(Apply(s, DeleteSwitch(i, to)), StepUpdate)) <==>
            !(i != to && s.slots[to].sim.Some? && !s.Stepped(s.slots[to].sim.value) && s.Flagged())
  {
    var t := Apply(s, DeleteSwitch(i, to));
    assert SlotOk(s, i) && SlotOk(s, to) && Apart(s, i, to);
    if CurrentLives(t) && t.Flagged() && !s.Stepped(s.slots[to].sim.value) {
      assert Apply(t, StepUpdate).logs[s.slots[to].sim.value] == [Update];
      assert !StartsWithOutput(Apply(t, StepUpdate).logs[s.slots[to].sim.value]);
    }
  }

  /** A harmful two-slot delete in a run: a simulation's first step is a state update. */
  lemma SwitchCounterexample(flags: bool)
    ensures var s := State([Slot(None, flags), Slot(None, flags)], 0, 0, None, 0, 0, [], {}, false);
            && Initial(s)
            && var t := Run(s, [AddNext, StepOutput, AddNext, SetCurrent(0), DeleteSwitch(0, 1), StepUpdate], 6);
               t.logs == [[Output], [Update]]
  {
    var s := State([Slot(None, flags), Slot(None, flags)], 0, 0, None, 0, 0, [], {}, false);
    var s1 := Apply(s, AddNext);
    assert s1 == State([Slot(Some(0), false), Slot(None, flags)], 1, 1, Some(0), 0, 0, [[]], {}, false);
    var none: seq<Kind> := [];
    assert none + [Output] == [Output] && none + [Update] == [Update];
    var s2 := Apply(s1, StepOutput);
    assert s2 == State([Slot(Some(0), true), Slot(None, flags)], 1, 1, Some(0), 0, 0, [[Output]], {}, false);
    var s3 := Apply(s2, AddNext);
    assert s3 ==
      State([Slot(Some(0), true), Slot(Some(1), false)], 2, 2, Some(1), 1, 1, [[Output], []], {}, false);
    var s4 := Apply(s3, SetCurrent(0));
    assert s4 == s3.(currentSim := Some(0), currentSlot := 0, currentNr := 0);
    var s5 := Apply(s4, DeleteSwitch(0, 1));
    assert s5 == State([Slot(None, true), Slot(Some(1), false)], 2, 2, Some(1), 0, 0, [[Output], []], {0}, false);
    var s6 := Apply(s5, StepUpdate);
    assert s6.logs == [[Output], [Update]];
    RunSix(s, AddNext, StepOutput, AddNext, SetCurrent(0), DeleteSwitch(0, 1), StepUpdate);
  }

  lemma RunSix(s: State, a: Op, b: Op, c: Op, d: Op, e: Op, f: Op)
    ensures Run(s, [a, b, c, d, e, f], 6) == Apply(Apply(Apply(Apply(Apply(Apply(s, a), b), c), d), e), f)
  {
    var ops := [a, b, c, d, e, f];
    RunTwo(s, ops, 0);
    RunTwo(s, ops, 2);
    RunTwo(s, ops, 4);
  }

  lemma RunTwo(s: State, ops: seq<Op>, k: nat)
    requires k + 2 <= |ops|
    ensures Run(s, ops, k + 2) == Apply(Apply(Run(s, ops, k), ops[k]), ops[k+1])
  {
    assert Run(s, ops, k + 1) == Apply(Run(s, ops, k), ops[k]);
  }

  // ------------------------------------------------------------------ no step of a destructed simulation

  /** The recorded number is that of the current slot. */
  predicate NumberRight(s: State) { s.currentNr == s.currentSlot }

  /** Only adding at a given slot records a wrong number, and it always does. */
  lemma WhenNumberRight(s: State, op: Op)
    requires Inv(s) && !s.crashed
    ensures NumberRight(Apply(s, op)) <==>
      if Accepts(s, op) && (op.AddNext? || op.SetCurrent?) then true
      else if Accepts(s, op) && op.AddAt? then false
      else NumberRight(s)
  {
  }

  /**
    A deletion destructs the current simulation exactly if it is accepted for the slot that holds
    it, and for that slot it is accepted exactly if the recorded number is another one.
   */
  lemma DeleteKeepsCurrent(s: State, slot: int)
    requires Inv(s) && !s.crashed && CurrentLives(s)
    ensures CurrentLives(Apply(s, Delete(slot))) <==>
            !(Accepts(s, Delete(slot)) && s.slots[slot].sim == s.currentSim)
    ensures 0 <= slot < |s.slots| && s.slots[slot].sim == s.currentSim ==>
            (Accepts(s, Delete(slot)) <==> slot != s.currentNr)
  {
    if Accepts(s, Delete(slot)) || 0 <= slot < |s.slots| { assert SlotOk(s, slot); }
  }

  /** Whether the operation leaves the slots in order and does not destruct or miss the current simulation. */
  predicate Careful(s: State, op: Op) {
    match op
    case Delete(i) => Accepts(s, op) ==> i >= |s.slots| || s.slots[i].sim != s.currentSim
    case DeleteSwitch(i, to) => Accepts(s, op) ==> SwitchSafe(s, i, to) && i != to
    case StepOutput => s.currentSim.Some?
    case StepUpdate => s.used > 0 && (s.Flagged() ==> s.currentSim.Some?)
    case _ => true
  }

  ghost predicate Sound(s: State) { Inv(s) && !s.crashed && (s.currentSim.Some? ==> CurrentLives(s)) }

  /** Exactly the careful operations keep a sound state sound. */
  lemma CarefulExact(s: State, op: Op)
    requires Sound(s)
    ensures Sound(Apply(s, op)) <==> Careful(s, op)
  {
    ApplyKeepsInv(s, op);
    if op.Delete? && s.currentSim.Some? { DeleteKeepsCurrent(s, op.slot); }
    if (op.DeleteSwitch? || op.SetCurrent?) && Accepts(s, op) { assert SlotOk(s, op.slot); }
    if op.DeleteSwitch? && Accepts(s, op) { assert SlotOk(s, op.to) && Apart(s, op.slot, op.to); }
  }

  ghost predicate CarefulAt(s: State, ops: seq<Op>, k: nat) { k < |ops| && Careful(Run(s, ops, k), ops[k]) }

  ghost predicate SoundAt(s: State, ops: seq<Op>, k: nat) { k <= |ops| && Sound(Run(s, ops, k)) }

  ghost predicate AllCareful(s: State, ops: seq<Op>, n: nat) { forall k: nat | k < n :: CarefulAt(s, ops, k) }

  ghost predicate AllSound(s: State, ops: seq<Op>, n: nat) { forall k: nat | k <= n :: SoundAt(s, ops, k) }

  /** If a holds at first, and after each step exactly if b holds of it, then a stays as long as b does. */
  lemma {:induction false} StaysWhile(a: nat -> bool, b: nat -> bool, n: nat)
    requires a(0) && forall k: nat :: a(k) ==> (a(k + 1) <==> b(k))
    ensures (forall k: nat | k <= n :: a(k)) <==> (forall k: nat | k < n :: b(k))
  {
    if n > 0 {
      StaysWhile(a, b, n - 1);
      var m: nat := n - 1;
      assert a(m) ==> (a(m + 1) <==> b(m));
    }
  }

  /** A run stays sound, and so every step goes to a simulation that exists, exactly if every operation is careful. */
  lemma NoStepOfDestructed(s: State, ops: seq<Op>, n: nat)
    requires Initial(s) && n <= |ops|
    ensures AllSound(s, ops, n) <==> AllCareful(s, ops, n)
  {
    var sound, careful := (k: nat) => SoundAt(s, ops, k), (k: nat) => CarefulAt(s, ops, k);
    assert sound(0);
    forall k: nat | sound(k) ensures sound(k + 1) <==> careful(k) {
      if k < |ops| { SoundNext(s, ops, k); }
    }
    StaysWhile(sound, careful, n);
    SameAsAll(s, ops, n, sound, careful);
  }

  lemma SameAsAll(s: State, ops: seq<Op>, n: nat, sound: nat -> bool, careful: nat -> bool)
    requires forall k: nat :: sound(k) == SoundAt(s, ops, k)
    requires forall k: nat :: careful(k) == CarefulAt(s, ops, k)
    ensures AllSound(s, ops, n) <==> forall k: nat | k <= n :: sound(k)
    ensures AllCareful(s, ops, n) <==> forall k: nat | k < n :: careful(k)
  {
  }

  lemma SoundNext(s: State, ops: seq<Op>, k: nat)
    requires k < |ops| && SoundAt(s, ops, k)
    ensures SoundAt(s, ops, k + 1) <==> CarefulAt(s, ops, k)
  {
    CarefulExact(Run(s, ops, k), ops[k]);
  }

  /** The wrong number lets the current simulation be deleted; the next step goes to a destructed simulation. */
  lemma DeleteCounterexample(flags: bool)
    ensures var s := State([Slot(None, flags), Slot(None, flags)], 0, 0, None, 0, 0, [], {}, false);
            && Initial(s)
            && Run(s, [AddNext, AddNext, Delete(0), AddAt(0), Delete(0), StepOutput], 6).crashed
  {
    var s := State([Slot(None, flags), Slot(None, flags)], 0, 0, None, 0, 0, [], {}, false);
    var s1 := Apply(s, AddNext);
    var s2 := Apply(s1, AddNext);
    assert s2 == State([Slot(Some(0), false), Slot(Some(1), false)], 2, 2, Some(1), 1, 1, [[], []], {}, false);
    var s3 := Apply(s2, Delete(0));
    assert s3 == s2.(slots := [Slot(None, false), Slot(Some(1), false)], dead := {0});
    var s4 := Apply(s3, AddAt(0));
    assert s4 ==
      State([Slot(Some(2), false), Slot(Some(1), false)], 2, 2, Some(2), 0, 2, [[], [], []], {0}, false);
    var s5 := Apply(s4, Delete(0));
    assert s5 == s4.(slots := [Slot(None, false), Slot(Some(1), false)], dead := {0, 2});
    RunSix(s, AddNext, AddNext, Delete(0), AddAt(0), Delete(0), StepOutput);
  }

  // ------------------------------------------------------------------ the object

  /** libdyn_nested2 with slots; its methods take the transitions of the state machine. */
  class Nested {
    var simSlots: seq<Slot>
    var usedSlots: nat
    var slotAddsimPointer: nat
    var currentSim: Option<nat>
    var currentSlot: nat
    var currentSlotNr: nat
    ghost var logs: seq<seq<Kind>>
    ghost var dead: set<nat>
    ghost var crashed: bool

    ghost function Abstract(): State
      reads this
    {
      State(simSlots, usedSlots, slotAddsimPointer, currentSim, currentSlot, currentSlotNr, logs, dead, crashed)
    }

    /** allocate_slots; the flags come from fresh memory. */
    constructor (flags: seq<bool>)
      ensures Initial(Abstract()) && |simSlots| == |flags|
    {
      simSlots := seq(|flags|, i requires 0 <= i < |flags| => Slot(None, flags[i]));
      usedSlots, slotAddsimPointer, currentSim, currentSlot, currentSlotNr := 0, 0, None, 0, 0;
      logs, dead, crashed := [], {}, false;
    }

    /** How many slots were never used: a simulation can be added to the next slot exactly if there is one. */
    method SlotsAvailable() returns (n: int)
      ensures n > 0 <==> Accepts(Abstract(), Op.AddNext)
      ensures Inv(Abstract()) ==> 0 <= n <= |simSlots|
    {
      n := |simSlots| - slotAddsimPointer;
    }

    twostate predicate SameCurrent()
      reads this
    {
      currentSim == old(currentSim) && currentSlot == old(currentSlot) && currentSlotNr == old(currentSlotNr)
    }

    twostate predicate SameSlots()
      reads this
    {
      && simSlots == old(simSlots) && usedSlots == old(usedSlots) && slotAddsimPointer == old(slotAddsimPointer)
      && SameCurrent()
    }

    /** The simulation in this slot is destructed and its place is free; the flag of the slot stays. */
    twostate predicate Removed(slot: int)
      reads this
    {
      && Filled(old(simSlots), slot)
      && simSlots == old(simSlots)[slot := Slot(None, old(simSlots)[slot].initialised)]
      && dead == old(dead) + {old(simSlots)[slot].sim.value}
      && usedSlots == old(usedSlots) && slotAddsimPointer == old(slotAddsimPointer)
    }

    /** The current simulation, if it lives, makes a step. */
    twostate predicate Stepped(kind: Kind)
      reads this
    {
      if CurrentLives(old(Abstract())) then
        var c := old(currentSim).value;
        !crashed && logs == old(logs)[c := old(logs)[c] + [kind]]
      else crashed && logs == old(logs)
    }

    predicate SlotIndexOk(i: int)
      reads this
    {
      0 <= i < usedSlots
    }

    /** The new simulation, created before, goes to the next slot. */
    method AddNext(sim: nat) returns (code: int)
      requires Inv(Abstract()) && !crashed && sim == |logs|
      modifies this
      ensures logs == old(logs) + [[]] && dead == old(dead)
      ensures if old(slotAddsimPointer) < |old(simSlots)| then
          && simSlots == old(simSlots)[old(slotAddsimPointer) := Slot(Some(sim), false)]
          && currentSim == Some(sim) && currentSlot == currentSlotNr == old(slotAddsimPointer)
          && slotAddsimPointer == old(slotAddsimPointer) + 1 && usedSlots == old(usedSlots) + 1
        else SameSlots()
      ensures code == (if old(slotAddsimPointer) < |old(simSlots)| then 1 else -1)
      ensures Abstract() == Apply(old(Abstract()), Op.AddNext)
      ensures code == if Accepts(old(Abstract()), Op.AddNext) then 1 else -1
    {
      logs := logs + [[]];
      var available := SlotsAvailable();
      if available <= 0 { return -1; }
      simSlots := simSlots[slotAddsimPointer := Slot(Some(sim), false)];
      currentSim, currentSlot, currentSlotNr := Some(sim), slotAddsimPointer, slotAddsimPointer;
      slotAddsimPointer := slotAddsimPointer + 1;
      usedSlots := usedSlots + 1;
      return 1;
    }

    /** The new simulation goes to a given free slot; the number recorded is that of the next slot. */
    method AddAt(slot: int, sim: nat) returns (code: int)
      requires Inv(Abstract()) && !crashed && sim == |logs|
      modifies this
      ensures logs == old(logs) + [[]] && dead == old(dead)
      ensures if code == 1 then
          && 0 <= slot < old(usedSlots) && !Filled(old(simSlots), slot) && slot < |old(simSlots)|
          && simSlots == old(simSlots)[slot := Slot(Some(sim), false)]
          && currentSim == Some(sim) && currentSlot == slot && currentSlotNr == slotAddsimPointer
          && slotAddsimPointer == old(slotAddsimPointer) && usedSlots == old(usedSlots)
        else SameSlots()
      ensures Abstract() == Apply(old(Abstract()), Op.AddAt(slot))
      ensures code == if Accepts(old(Abstract()), Op.AddAt(slot)) then 1 else -1
    {
      logs := logs + [[]];
      if !SlotIndexOk(slot) { return -1; }
      if simSlots[slot].sim.Some? { return -1; }
      simSlots := simSlots[slot := Slot(Some(sim), false)];
      currentSim, currentSlot, currentSlotNr := Some(sim), slot, slotAddsimPointer;
      return 1;
    }

    method DelSimulation(slot: int) returns (code: int)
      requires Inv(Abstract()) && !crashed
      modifies this
      ensures if code == 1 && Filled(old(simSlots), slot) then Removed(slot) else SameSlots() && dead == old(dead)
      ensures SameCurrent() && logs == old(logs)
      ensures Abstract() == Apply(old(Abstract()), Delete(slot))
      ensures code == if !old(SlotIndexOk(slot)) then -1
                      else if slot == old(currentSlotNr) then -2 else 1
    {
      if !SlotIndexOk(slot) { return -1; }
      if slot == currentSlotNr { return -2; }
      if simSlots[slot].sim.None? { return 1; }
      dead := dead + {simSlots[slot].sim.value};
      simSlots := simSlots[slot := simSlots[slot].(sim := None)];
      return 1;
    }

    /** The delete that also switches; the current slot and its number stay. */
    method DelSimulationSwitch(slot: int, to: int) returns (code: int)
      requires Inv(Abstract()) && !crashed
      modifies this
      ensures logs == old(logs) && currentSlot == old(currentSlot) && currentSlotNr == old(currentSlotNr)
      ensures if code == 1 && Filled(old(simSlots), slot) then
          Removed(slot) && 0 <= to < |old(simSlots)| && currentSim == old(simSlots)[to].sim
        else SameSlots() && dead == old(dead)
      ensures Abstract() == Apply(old(Abstract()), DeleteSwitch(slot, to))
      ensures code == if old(SlotIndexOk(slot)) && old(SlotIndexOk(to)) then 1 else -1
    {
      if !SlotIndexOk(slot) || !SlotIndexOk(to) { return -1; }
      if simSlots[slot].sim.None? { return 1; }
      currentSim := simSlots[to].sim;
      dead := dead + {simSlots[slot].sim.value};
      simSlots := simSlots[slot := simSlots[slot].(sim := None)];
      return 1;
    }

    /** False for a refused switch; the source returns no value for a successful one. */
    method SetCurrentSimulation(slot: int) returns (done: bool)
      requires Inv(Abstract()) && !crashed
      modifies this
      ensures simSlots == old(simSlots) && logs == old(logs) && dead == old(dead)
      ensures if slot < usedSlots && Filled(simSlots, slot) then
          currentSim == simSlots[slot].sim && currentSlot == currentSlotNr == slot
        else SameCurrent()
      ensures Abstract() == Apply(old(Abstract()), SetCurrent(slot))
      ensures !Accepts(old(Abstract()), SetCurrent(slot)) ==> !done
    {
      if !SlotIndexOk(slot) { return false; }
      if simSlots[slot].sim.None? { return false; }
      currentSim, currentSlot, currentSlotNr := simSlots[slot].sim, slot, slot;
      done := *;
    }

    /** A step goes to the current simulation; without a living one its effect is not defined. */
    ghost method SimulationStep(kind: Kind)
      modifies this`logs, this`crashed
      ensures if CurrentLives(old(Abstract())) then
          crashed == old(crashed) && logs == old(logs)[currentSim.value := old(logs)[currentSim.value] + [kind]]
        else crashed && logs == old(logs)
    {
      if CurrentLives(Abstract()) {
        logs := logs[currentSim.value := logs[currentSim.value] + [kind]];
      } else {
        crashed := true;
      }
    }

    method SimulationStepOutput()
      requires Inv(Abstract()) && !crashed
      modifies this
      ensures Stepped(Output) && SameCurrent() && dead == old(dead)
      ensures simSlots == if currentSlot < |old(simSlots)| then
        old(simSlots)[currentSlot := Slot(old(simSlots)[currentSlot].sim, true)] else old(simSlots)
      ensures crashed == Apply(old(Abstract()), StepOutput).crashed
      ensures !crashed ==> Abstract() == Apply(old(Abstract()), StepOutput)
    {
      SimulationStep(Output);
      if currentSlot < |simSlots| {
        simSlots := simSlots[currentSlot := simSlots[currentSlot].(initialised := true)];
      }
    }

    method SimulationStepUpdate()
      requires Inv(Abstract()) && !crashed
      modifies this
      ensures SameSlots() && dead == old(dead)
      ensures if usedSlots == 0 then crashed && logs == old(logs)
        else currentSlot < |simSlots| &&
             if simSlots[currentSlot].initialised then Stepped(Update) else logs == old(logs) && !crashed
      ensures crashed == Apply(old(Abstract()), StepUpdate).crashed
      ensures !crashed ==> Abstract() == Apply(old(Abstract()), StepUpdate)
    {
      if usedSlots == 0 {
        crashed := true;
      } else if simSlots[currentSlot].initialised {
        SimulationStep(Update);
      }
    }
  }
}
