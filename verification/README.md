# OpenRTDynamics: a verified model

ORTD interprets block diagrams. A simulation is wired from blocks, the blocks are put into an
execution order, and then the stepper alternates output phases and state updates, evaluating
lazily. Around it stand discrete filters, a logging sink with its own thread, an EDF+/BDF+ file
library, the online exchange of nested simulations and iterative learning control.

This project models these parts in Dafny and proves what they are for:

- **The block-diagram interpreter computes the synchronous meaning of the diagram.** From the
  parameter vector of a simulation (`Irpar`, `Plan`), as the Scilab toolbox writes it down (`Toolbox`),
  through the conditions under which it is accepted (`Admission`), the builder (`Builder`), the
  intrusive lists of blocks and junctions (`Wiring`), the worklist that computes the execution
  list (`Scheduling`, `Countdown`, `SimulationObject`) and the lazy stepper, to an eager reference semantics
  (`Dataflow`). `Setup.SetupAndRun` joins the parts: what the outputs show after any run is what
  the one run of the reference computes for the diagram that the parameters describe, and
  `Catalog.RunDescribed` applies it to real block types.
- **Filters and blocks** (`Filters`, `Blocks`): the direct form II filter obeys its difference
  equation, and eight real blocks keep the contract the interpreter relies on.
- **The logging sink** (`SinkProtocol`, `SinkAnswers`, `RingBuffer`): in every interleaving of the client and
  the sink thread nothing is lost, repeated or reordered, signals are answered in order behind the data sent
  before them, and deletion delivers everything.
- **EDF+ files** (`EdfNumbers`, `EdfTal`, `EdfAnnotations`, `EdfGrammar`, `EdfReading`, `EdfLayout`, `EdfFile`,
  `EdfRoundTrip`, `EdfPhysical`): what is written reads back, annotations and samples in one and the same file,
  from the first write to the readers (`EdfRoundTrip.WriteAndRead`), and the annotation reader accepts exactly
  the files of a grammar and reads exactly their texts (`EdfReading.FileAcceptedExactly`).
- **Nested simulations** (`Slots`), **initialisation and deletion** (`Lifecycle`), **iterative
  learning control and sampling** (`Ilc`), **events** (`Events`).

Objects that the sources update in place are classes whose methods are proved equal to
specification functions; the properties are proved about those functions. Numbers of the filters,
blocks, ILC and physical samples are reals.

## What the code does not do

Where a promise turned out not to hold for all inputs, the model keeps the code as it is, shows an
input for which it fails and states exactly when it holds.

- Event 31 makes the signed test `(active & mask) > 0` negative: a block that is registered for an
  active event 31 is not updated (`Events.TriggeredExactly`, an if-and-only-if).
- An external input connected to an input that already has a block connection leaves that input
  on a junction list (`Wiring.ExternalKeepsWired`, `Builder.Builder.ConnectInput`: if and only if there is such a
  connection). The input is then counted down twice, and a block can come before one it needs
  (`Countdown.OverwrittenOrder`). Lists without such entries are `Plan.NoneOverrides`; for what they build the
  execution list is right (`Countdown.WiredSchedules`, `SimulationObject.Simulation.SetupExecutionList`).
- The toolbox writes the number of integers of an element before the number of its reals, and the interpreter reads
  them the other way round, so for an element without reals both lengths are wrong; they are right exactly if they
  are equal (`Toolbox.LengthsExact`). Positions and data are right always (`Toolbox.ElementReadsBack`), and the
  interpreter sets up what was drawn (`Toolbox.NetworkAsDrawn`).
- An algebraic loop is not reported as such while any block can be scheduled: its blocks are missing from the
  execution list (`Dataflow.ScheduleExact`), and the exit for a found loop is never taken.
  Such blocks keep their old outputs, in the reference semantics too.
- Resetting the blocks of a simulation does not raise their output flags; `Dataflow.ResetExact` says when the next
  outputs are right, `Dataflow.ResetExample` gives a block that keeps its old output.
- Adding a nested simulation to a given slot records the number of a different slot as the current one, after
  which the current simulation can be deleted and stepped (`Slots.DeleteCounterexample`). A deletion destructs the
  current simulation exactly if it is accepted for the slot that holds it, and that is refused exactly while the
  recorded number is that slot's (`Slots.DeleteKeepsCurrent`, `Slots.WhenNumberRight`); a run keeps its slots
  in order and never steps a destructed or missing simulation exactly if every operation is careful
  (`Slots.NoStepOfDestructed`).
- The delete that also switches moves the current simulation but not its slot, and then a simulation's first step
  can be a state update (`Slots.SwitchCounterexample`). `Slots.SwitchExact` says exactly when it does no harm, and
  `Slots.SwitchThenUpdate` exactly when the very next state update is such a first step.
- A failing INIT call breaks the pairing of calls: the failed block and those after it get a DESTRUCTOR without
  a successful INIT, and those before it no POSTDESTRUCTOR (`Lifecycle.PairedUnlessInitFails`). The flag that a
  step looks at is raised by the PREINIT pass already, so a simulation whose INIT failed is stepped without being
  initialised again (`Lifecycle.InitOnce`, `Lifecycle.Simulation.Steps`).
- A physical sample reads back within one bit value exactly if code plus offset does not wrap
  (`EdfPhysical.PhysicalRoundTrip`, `EdfPhysical.WrapExample`). All samples of a signal do exactly if neither end of
  its digital range wraps (`EdfPhysical.AllReadBackNear`), which the writer does not check.
- The reader computes times with 64 bits. From 10^11 s on a weight overflows that is not used any more, which C
  leaves undefined (`EdfNumbers.GetLongTime`, `EdfAnnotations.AnnotationsRoundTrip`). With arithmetic that wraps
  around, every record time still reads back exactly (`EdfNumbers.RecordTimeFits`), and an onset exactly up to
  9223372036854775 units of 100 microseconds; larger ones can be queued and are written in full
  (`EdfAnnotations.OnsetOverflows`, `EdfAnnotations.OnsetsReadBack`).
- The reader cuts the text of a duration to 15 characters: durations that are not whole seconds lose decimal places
  from 10^10 s on, and only these (`EdfAnnotations.DurationCut`, `EdfAnnotations.DurationIntact`).
- Descriptions are cut to 40 bytes with control characters and everything outside ASCII replaced by dots, where
  `char` is signed; `EdfTal.StoredExact` says which ones survive.
- The documentation of `edfopen_file_readonly` says that reading stops at "Recording ends" (edflib.h:174). The code
  leaves only the annotation signal at hand and goes on with the next record (`EdfAnnotations.ReadsOnAfterEnd`); the
  promise holds exactly if there is no annotation in a later record (`EdfAnnotations.StopsAtRecordingEnds`).
- The flip-flop declares direct feedthrough and never sees its inputs in an output phase (`Blocks.FeedExact`).
- With a positive input delay `mtot` the last samples of a trial read past the end of the stored input
  (`Ilc.ReadsInsideExactly`); what is learned is not affected (`Ilc.TrialsLearn`).
- Passing an input of a simulation to an output silently replaces an earlier binding of that output
  (`Plan.OutputsExact`).

## Model

| member | source | states |
|---|---|---|
| `Events.RegisteredExactly` | libdyn.c:985-998 | the event map lists the registrations in order and the mask holds exactly the registered events |
| `Events.TriggeredExactly` | libdyn.h:375 | for every registration list and every active word: bit i of the mapped word is event i's activity, and the trigger test agrees with the word being non-zero unless event 31 is registered and active |
| `Wiring.Block.EventMapper` | libdyn.c:1000-1020 | the loop computes the mapped word |
| `Wiring.Block.NewEventNotifier` | libdyn.c:985-998 | one registration, refused above 32; event 32 itself and a registration beyond the 32nd have no defined effect and are left out |
| `Wiring.JunctionExact` | libdyn.c:1508-1529 | walking the junction list of an output visits exactly the inputs connected to it |
| `Wiring.JunctionsDisjoint` | libdyn.c:1508-1529 | lists of different outputs share no input |
| `Wiring.ConnectKeepsWired` | libdyn.c:889-909 | a successful connection keeps every junction list acyclic, repetition-free and exact |
| `Wiring.ConnectKeepsPlugged` | libdyn.c:889-909 | a successful connection keeps every input right about its source, whatever the junction lists are |
| `Wiring.ExternalKeepsPlugged` | libdyn.c:949-966 | so does connecting user memory, also over a block connection |
| `Wiring.Connect` | libdyn.c:866-946 | the error codes in their order; a refused connection changes nothing; an accepted one changes one input |
| `Wiring.ExternalKeepsWired` | libdyn.c:949-966 | connecting user memory keeps the junction lists right if and only if the input has no block connection |
| `Wiring.ConnectExternal` | libdyn.c:949-966 | error codes and effect of an external connection |
| `Wiring.Block.SetAndCheckAvail` | libdyn.c:503-515 | the counter of missing inputs stays the number of unmarked ones, and completion is reported when it reaches zero |
| `Wiring.Block.InitAvailability` | libdyn.c:1562-1586 | exactly the external inputs are available at first |
| `Wiring.Block.constructor` | libdyn.c:651-701 | a block whose configuration succeeded has no connected port, a zeroed output cache, an output flag that is raised, and feedthrough if some output declares it |
| `Wiring.Block.CalcOutputs` | libdyn.c:1395-1400 | the output flag stores what the computational function, a parameter here, makes of the state and the inputs, and nothing else |
| `Wiring.Block.UpdateStates` | libdyn.c:1447-1448 | the update flag stores the next state the computational function makes of the mapped event word, and nothing else |
| `Wiring.AppendKeepsWired` | libdyn.c:518-637 | a new unconnected block leaves all junction lists right |
| `Dataflow.ScheduleExact` | libdyn.c:1535-1691 | a complete valid schedule holds a block if and only if no instantaneous cycle and no open input reaches it |
| `Dataflow.OutputPhaseSolves` | libdyn.c:1377-1409 | one traversal of the execution list solves all block equations at once, although pure-dynamic blocks run on old inputs and blocks with a lowered flag not at all |
| `Dataflow.SolutionUnique` | libdyn.c:1377-1409 | the block equations of a valid schedule have at most one solution |
| `Dataflow.UpdatePhaseSimultaneous` | libdyn.c:1429-1462 | traversing the state-update list is the simultaneous update of all states |
| `Dataflow.UpdateOrderIrrelevant` | libdyn.c:1429-1462 | the order of the state-update list does not matter |
| `Dataflow.RunInvariant` | libdyn.c:1331-1467 | after every prefix of every run the output flags are right, and after an output phase nothing is stale |
| `Dataflow.LazyRefinesReference` | libdyn.c:1331-1467 | each call of the stepper is a step of the eager synchronous reference |
| `Dataflow.ReferenceDeterministic` | libdyn.c:1331-1467 | the reference is a function of its start and its actions |
| `Dataflow.InputsArrive` | libdyn.h:114-120 | the inputs of a block are exactly the outputs with the connected numbers of the connected blocks, and the channels of the external inputs |
| `Dataflow.OutputStepExactly` | libdyn.c:1377-1409 | a step of the reference for an output action: states are kept, and every live block shows what it computes from its state and what arrives at its inputs |
| `Dataflow.UpdateStepExactly` | libdyn.c:1416-1465 | a step of the reference for a state update: every dynamic block that an active event of its mask fires takes the next state for what arrives and for the word whose bit i is its i-th registered event; all else is kept |
| `Dataflow.RunIsTheTrace` | libdyn.c:1331-1467 | for every graph and every run the lazy machine is in the state of the reference's only run |
| `Dataflow.TraceExists` | libdyn.c:1331-1467 | the reference has such a run |
| `Dataflow.AnySchedule` | libdyn.c:1331-1467 | a run of the reference under one complete valid schedule is a run under every other |
| `Dataflow.LazyExact` | libdyn.c:1389-1401 | skipping blocks is right if and only if no lowered flag stands before an old output |
| `Dataflow.ResetExact` | libdyn.c:1473-1493 | after a reset the next outputs are right if and only if every block with a lowered flag already shows its initial outputs |
| `Dataflow.ResetExample` | libdyn.c:1473-1493 | a block that keeps its old output after a reset |
| `Scheduling.MarkKeepsRight` | libdyn.c:1652-1674 | marking an input whose source is listed keeps the list valid, and a block that is complete at that moment and already listed is pure-dynamic |
| `Scheduling.MarkAllMarks` | libdyn.c:1652-1674 | marking part of a junction list marks exactly those inputs |
| `Scheduling.NeverLoop` | libdyn.c:1654-1664 | the exit for a found loop is never taken when every input has one connection |
| `Scheduling.HandleOutput` | libdyn.c:1643-1676 | handling an output marks the inputs on its junction list and keeps the worklist invariant |
| `Scheduling.HandledComplete` | libdyn.c:1633-1680 | when the whole list is handled nothing that could be scheduled is missing |
| `Countdown.WiredSchedules` | libdyn.c:1535-1691 | the algorithm on its counters alone, without the marks: on the junction lists of a wired network its list is a complete valid schedule and no loop is reported |
| `Countdown.CountsAsMarked` | libdyn.c:503-515 | counting down an input that is not marked is marking it |
| `Countdown.WantedOrder` | libdyn.c:1535-1691 | a network of three blocks and its order |
| `Countdown.OverwrittenOrder` | libdyn.c:949-966 | the same network after an external entry has overwritten an input: it is counted down twice, and the order is not valid any more |
| `SimulationObject.Simulation.NewBlock` | libdyn.c:518-637 | a block whose configuration succeeded is new, unconnected, in its initial state, on the all-blocks list and, if dynamic, on the state-update list |
| `SimulationObject.Simulation.AddToAllBlocksList` | libdyn.c:440-453 | appends to the intrusive list of all blocks |
| `SimulationObject.Simulation.AddToSupExecutionList` | libdyn.c:484-498 | appends to the intrusive state-update list |
| `SimulationObject.Simulation.AddToExecutionList` | libdyn.c:460-482 | appends a block that is not listed yet, and only such a block |
| `SimulationObject.Simulation.MarkOutput` | libdyn.c:1643-1676 | walking the pointers of a junction list marks its inputs in order |
| `SimulationObject.Simulation.Propagate` | libdyn.c:1633-1680 | the worklist loop over the growing list ends, and never reports a loop |
| `SimulationObject.Simulation.HandleElement` | libdyn.c:1633-1680 | one turn of that loop handles the next block on the list and reports no loop |
| `SimulationObject.Simulation.SetupExecutionList` | libdyn.c:1535-1691 | the computed list is a valid and complete schedule of the wired graph; -1 means only an empty list |
| `SimulationObject.Simulation.ReadInputs` | libdyn.h:114-120 | for every input: the output of the connected block with the connected number, or the user memory of the channel; these are the inputs in the specification |
| `SimulationObject.Simulation.StepOutputs` | libdyn.c:1377-1409 | the traversal leaves the heap in the memory of the output phase |
| `SimulationObject.Simulation.StepUpdate` | libdyn.c:1416-1465 | the traversal leaves the heap in the memory of the update phase and clears the events |
| `SimulationObject.Simulation.PerformAll` | libdyn.c:1331-1467 | every run of the heap object is the run of the specification |
| `SimulationObject.Simulation.CreateBlock` | libdyn.c:518-637 | creation of such a block and both intrusive lists, before wiring is considered |
| `SimulationObject.Simulation.InitialPass` | libdyn.c:1558-1596 | the first pass lists exactly the blocks whose inputs are all external |
| `SimulationObject.Simulation.PureDynamicPass` | libdyn.c:1600-1616 | the second pass adds exactly the pure-dynamic blocks |
| `SimulationObject.Simulation.MarkInput` | libdyn.c:1654-1664 | marking one input lists its block when that was the last missing one |
| `SimulationObject.Simulation.MarkBlock` | libdyn.c:1643-1676 | handling a listed block marks all inputs connected to its outputs |
| `SimulationObject.Simulation.VisitOutput` | libdyn.c:1389-1401 | one visit of the output traversal is the specification's visit |
| `SimulationObject.Simulation.VisitUpdate` | libdyn.c:1440-1452 | one visit of the update traversal is the specification's visit |
| `SimulationObject.Simulation.TraverseSupList` | libdyn.c:1429-1460 | the update traversal over the intrusive list |
| `Irpar.GetElementById` | irpar.c:53-97 | the scan finds the first element with the id if there is one, and clears the type otherwise |
| `Irpar.Find` | irpar.c:73-97 | the position of the first element with the id, or none |
| `Irpar.FirstAlwaysExamined` | irpar.c:73-97 | the first element is found by its id even in a header that announces none |
| `Toolbox.HeaderHolds` | scilab/ld_toolbox/initialrun/irpar.sci:99-134 | the six integers the toolbox writes for each element, behind version and count |
| `Toolbox.ElementReadsBack` | scilab/ld_toolbox/initialrun/irpar.sci:99-134 | id, type, integers and reals of every element of every parameter set are read where they were written; the two lengths are exchanged |
| `Toolbox.LengthsExact` | irpar.c:53-71 | the lengths are right if and only if the element has as many integers as reals |
| `Toolbox.FoundById` | irpar.c:73-97 | every element is found by its id, if ids are distinct |
| `Toolbox.LinesReadBack` | libdyn.c:2578-2587 | lines of eight integers at any offset and with any entry size: each is read as the entry with its source type, id and port and its destination type, id and port |
| `Toolbox.ConnectionsReadBack` | scilab/ld_toolbox/initialrun/libdyn.sci:1019-1050 | of a saved parameter set the interpreter reads, connection by connection, what the toolbox was asked for |
| `Toolbox.NetworkAsDrawn` | scilab/ld_toolbox/initialrun/libdyn.sci:603-693 | if nothing is drawn twice: an input of a block that is set up has a source if and only if a connection of the toolbox draws it |
| `Toolbox.OutputAsDrawn` | scilab/ld_toolbox/initialrun/libdyn.sci:695-776 | and an output of the simulation is bound if and only if a connection draws it |
| `Toolbox.BlocksAsDrawn` | scilab/ld_toolbox/initialrun/libdyn.sci:778-791 | there is a block exactly for each description whose id a connection names |
| `Plan.BlocksExact` | libdyn.c:2244-2256 | after building there is exactly one block for each description that is named |
| `Plan.InputsExact` | libdyn.c:2578-2692 | every input is connected as the last entry that names it says, and unconnected if none does |
| `Plan.ConnectionsExact` | libdyn.c:2666-2692 | if no input is named twice, direct edges and external inputs are exactly those the entries describe |
| `Plan.OutputsExact` | libdyn.c:2694-2745 | every output of the simulation is bound as the last entry that names it says |
| `Plan.NotOverriding` | libdyn.c:2677-2692 | in a list in which no external entry follows a block connection of the same input, none overwrites one |
| `Plan.EntryHarmless` | libdyn.c:2677-2692 | so each entry of such a list, met after those before it, leaves every block connection as it is |
| `Admission.SuppliedExactly` | libdyn.c:2230-2262 | a block can be had exactly if the first element with its id is of type 100, has a known block type and registers only events below 32 |
| `Admission.FreeExactly` | libdyn.c:866-887 | when an entry is met, the input it names is free if and only if no entry before it connects the same input of the same block |
| `Admission.UnboundExactly` | libdyn.c:2694-2700 | and the output of the simulation it names is unbound if and only if no entry before it binds it |
| `Admission.EntriesAcceptedExactly` | libdyn.c:2578-2760 | for every list: all entries are accepted if and only if each satisfies conditions on the descriptions it names and on the entries before it |
| `Admission.CoveredExactly` | libdyn.c:2767-2776 | of an accepted list the check of the outputs succeeds if and only if every output wider than one value is named |
| `Admission.ConnectedExactly` | libdyn.c:1084-1114 | of an accepted list the check of the inputs succeeds if and only if every input of every named block is named |
| `Admission.ConnListExactly` | libdyn.c:2544-2547 | the connection list is the first element with id 100, if it is of type 101 |
| `Admission.StartsExactly` | libdyn.c:2793-2919 | so, for all parameters: exactly which ones are set up and started, in terms of the list alone |
| `Builder.Builder.GetBlock` | libdyn.c:2230-2459 | the block with an id, created at the first request; it fails exactly for a missing id, a wrong type, a description without a template or a wrong event |
| `Builder.Builder.ConnectBlocks` | libdyn.c:2666-2673 | accepted exactly for existing ports of equal size and type and a free input |
| `Builder.Builder.ConnectInput` | libdyn.c:2677-2692 | accepted exactly for an existing input of the simulation and an input port of its size; the junction lists stay right if and only if no block connection is overwritten |
| `Builder.Builder.BindOutput` | libdyn.c:2694-2727 | for port numbers that are not negative: accepted exactly for an unbound output and an output port of its size |
| `Builder.Builder.PassInput` | libdyn.c:2729-2753 | for port numbers in range: accepted exactly for equal sizes; it replaces an earlier binding |
| `Builder.Builder.ProcessAll` | libdyn.c:2578-2760 | for every list: the loop follows the plan entry by entry on the heap and stops at the first entry that is refused; the junction lists are right if no entry overwrites a block connection |
| `Builder.Builder.CheckOutputs` | libdyn.c:2767-2776 | fails exactly if an output wider than one value is unbound |
| `Builder.Builder.BuildAll` | libdyn.c:2502-2790 | for every list: succeeds exactly if all entries are accepted and the outputs are covered, and then the heap shows the plan |
| `Builder.Builder.BuildAndCheck` | libdyn.c:2867-2885 | building and the check of the inputs: succeeds exactly if, besides, no input of the described graph is unconnected |
| `Builder.Builder.CheckInputs` | libdyn.c:1084-1114 | fails exactly if some input of some block is unconnected |
| `Builder.RegisterEvents` | libdyn.c:2437-2446 | for at most 32 events, none of them 32: registers the events of a description in order; fails exactly if one is above 32 |
| `Builder.NewRegistered` | libdyn.c:2263-2446 | a new block has the node, the state and the zeroed outputs its template describes |
| `Builder.Builder.CreateFrom` | libdyn.c:2263-2459 | creates the block of a description and enters it into the block list |
| `Builder.Builder.EntryBlocks` | libdyn.c:2609-2658 | the blocks an entry names, created if needed |
| `Builder.ConnectNode` | libdyn.c:866-912 | a connection changes one input of one node of the graph |
| `Builder.UserNode` | libdyn.c:949-966 | an external connection changes one input of one node of the graph, also over a block connection |
| `Setup.IrparSetup` | libdyn.c:2869-2919 | succeeds exactly for parameters that describe a simulation with all inputs connected and a block that no instantaneous cycle blocks; then what they describe is scheduled, in its initial states, and the outputs point where the entries say |
| `Setup.RunSimulation` | libdyn.c:1331-1467 | every run of a simulation that was set up ends in the states and outputs of the reference's only run, under any complete valid schedule |
| `Setup.SetupAndRun` | libdyn.c:2793-2919 | from parameters to outputs: what an output shows after any run is what the reference of the described diagram, started in the initial states, computes for the block or input the entries bind it to |
| `Catalog.RunDescribed` | libdyn.c:2793-2919 | the same for every simulation of these eight block types, without a condition on their computational functions |
| `Setup.RunBuilt` | libdyn_cpp.cpp:1836-1845 | the same for a simulation that was built |
| `Setup.GetVecOut` | libdyn_cpp.cpp:1836-1845 | following the pointer of an output leads to the cache or the user memory the plan names; a larger number than that of the outputs is refused |
| `Setup.OneRunMeant` | libdyn.c:1331-1467 | the reference has exactly one run from the same start, under any complete valid schedule |
| `Setup.MeantStepExactly` | libdyn.c:1331-1467 | what each action of that run does, in terms of what arrives at the inputs of the blocks |
| `Setup.HonestContract` | libdyn.c:651-701 | whatever is built of blocks that declare their feedthrough keeps the contract of the stepper |
| `Setup.ScheduledRunnable` | libdyn.c:1535-1691 | the computed list is empty if and only if every block is blocked |
| `Setup.Schedule` | libdyn.c:2892-2897 | from an assembled simulation to one that can be stepped; it fails exactly if every block is blocked |
| `Blocks.KindHonorsFeed` | libdyn_blocks.c:109-165 | a block declared without direct feedthrough computes its outputs from its state alone |
| `Blocks.KindsKeepContract` | libdyn_blocks.c:109-165 | every graph of such blocks keeps the contract of the stepper |
| `Catalog.ConfiguredHonest` | libdyn_blocks.c:139-154 | the template of each of the eight block types declares feedthrough if its outputs depend on its inputs |
| `Catalog.OutputsHaveDeclaredSizes` | libdyn_blocks.c:514-521 | the outputs have the declared number and sizes in every state and for all inputs |
| `Blocks.FeedExact` | libdyn_blocks.c:362-1413 | for each of the eight kinds, in every state: exactly when the outputs depend on the inputs |
| `Blocks.ShownValues` | libdyn_blocks.c:362-731 | the values shown by constants, gains, sums, switches, flip-flops and event switches, input by input |
| `Blocks.SaturationNearest` | libdyn_blocks.c:632-680 | the saturation shows the value between its bounds that is closest to its input; if they are exchanged, the upper bound |
| `Blocks.ReadsDeclared` | libdyn_blocks.c:362-731 | a block reads its declared inputs only, and a block that is not dynamic keeps its state |
| `Blocks.LastInputMatters` | libdyn_blocks.c:362-731 | the last declared input makes a difference |
| `Blocks.Instance.CalcOutputs` | libdyn_blocks.c:362-731 | the output flag writes the outputs and no state |
| `Blocks.Instance.UpdateStates` | libdyn_blocks.c:553-620 | the update flag writes the state and no output |
| `Blocks.LagFilter` | libdyn_blocks.c:125-157 | state and output of the lag block are those of the filter object it is made of |
| `Blocks.Tp1IsFilter` | libdyn_blocks.c:109-157 | all outputs of the lag block form a direct form II run from zero |
| `Blocks.Tp1Recurrence` | libdyn_blocks.c:109-157 | y[k+1] = pole y[k] + (1 - pole) x[k], from zero |
| `Blocks.FlipFlopRemembers` | libdyn_blocks.c:1344-1413 | the flip-flop holds what its last set input said, with the first input before the second before the reset |
| `Blocks.FlipFlopStarts` | libdyn_blocks.c:1344-1413 | and its initial value before any input was set |
| `Blocks.EventSwitchFollows` | libdyn_blocks.c:553-620 | the switch follows the last switching event; event 2 wins within a step |
| `Blocks.EventSwitchStarts` | libdyn_blocks.c:553-620 | and is in its initial state before any |
| `Blocks.Instance.constructor` | libdyn_blocks.c:139-154 | a configured block holds its initial state |
| `Filters.ConvCommutes` | libdyn.c:1928-1958 | two convolutions of one signal may be applied in either order |
| `Filters.DifferenceEquation` | libdyn.c:1928-1958 | from zeroed states, for every input: y[k] + sum a(i) y[k-i] = sum b(i) x[k-i] |
| `Filters.TfFilter.LoadCoeffs` | libdyn.c:1846-1903 | which coefficients are loaded, zeros above the numerator degree |
| `Filters.TfFilter.NullStates` | libdyn.c:1905-1926 | a run of the filter starts from zeroed states |
| `Filters.TfFilter.Accumulate` | libdyn.c:1942-1945 | the two sums are convolutions of the inner signal |
| `Filters.TfFilter.Shift` | libdyn.c:1949-1955 | the states hold the last inner samples |
| `Filters.TfFilter.Filter` | libdyn.c:1928-1958 | both phases compute the same output, it obeys the difference equation, and only the update phase commits the sample |
| `Filters.FeedFree` | libdyn.c:1942-1947 | with b(0) = 0 the output does not see the current input |
| `Filters.NewMeanFilter` | libdyn.c:1749-1784 | the coefficients of the mean filter |
| `Filters.MeanOfWindow` | libdyn.c:1749-1784 | from zeroed states its output is the mean of the last N + 1 inputs |
| `Filters.ShiftFilter.Filter` | libdyn.c:1965-1985 | the output is the input of n updates ago |
| `Filters.TfFilter.Evaluate` | libdyn.c:1932-1947 | inner sample and output are the ones the two convolutions demand |
| `Filters.ConvCombine` | libdyn.c:1928-1958 | convolution is linear and commutes with delay |
| `SinkProtocol.StepKeepsInv` | log.c:126-370 | every atomic step of either thread keeps the invariant |
| `SinkProtocol.DeliveredIsPrefix` | log.c:219-282 | in every interleaving the elements read are a prefix of what the client passed to the writes that were not refused |
| `SinkProtocol.AcceptedIsSubmitted` | log.c:126-180 | in every interleaving the elements accepted, with those of a write in progress behind them, are what the client passed to the writes that were not refused, in order |
| `SinkProtocol.CountersDiffer` | log.c:126-180 | between accesses the counters differ by the pending count modulo the capacity |
| `SinkProtocol.NoUnreadSlotOverwritten` | log.c:140-158 | a write never touches a slot that is not read yet, and the element fetched is the one submitted at its place |
| `SinkProtocol.WritesBecomeWhole` | log.c:126-180 | the elements accepted are, write by write, all writes not refused but the one in progress: each becomes visible whole |
| `SinkProtocol.ShutdownDelivers` | log.c:292-370 | when the thread exits after deletion, all that the client passed to writes that were not refused was delivered once and in order, and the last calls are flush and a single close, whatever signals were sent or overwritten |
| `SinkProtocol.NeverStuck` | log.c:186-206 | at every point the invariant allows, once deletion is requested the sink thread always has a step |
| `SinkProtocol.ShutdownTerminates` | log.c:408-425 | after deletion it exits within a bounded number of its steps |
| `SinkAnswers.RefusedExactly` | log.c:126-140 | in every run: a write is refused if and only if what was submitted and not taken off the buffer leaves no room for all of it |
| `SinkAnswers.SlotHoldsLastSignal` | log.c:110-206 | the signal slot holds the last signal sent unless the thread has taken it |
| `SinkAnswers.AnswersInOrder` | log.c:326-366 | in every run: flush signals are answered by the flush callback, reset signals by the reset callback and the termination by flush and close, each signal taken once and in order, and at most the last is still being answered |
| `SinkAnswers.AnsweredAfterData` | log.c:326-344 | when a signal is answered, everything accepted before it was taken has been delivered |
| `RingBuffer.RingBuffer.WriteElements` | log.c:126-180 | the loop of the writer is the protocol's write, copies and commit |
| `RingBuffer.RingBuffer.TryRead` | log.c:219-282 | the non-blocking read of the drain loop returns the oldest pending element, or -1 exactly if there is none |
| `RingBuffer.RingBuffer.Read` | log.c:219-282 | the blocking read, once it need not sleep, returns the oldest pending element, or the signal exactly if there is none |
| `RingBuffer.RingBuffer.AwaitSignal` | log.c:186-206 | takes the signal and resets it |
| `RingBuffer.RingBuffer.TakeElement` | log.c:261-276 | fetching and releasing one element are two steps of the protocol |
| `RingBuffer.RingBuffer.CopyElements` | log.c:140-158 | the copy loop is that many copy steps |
| `EdfNumbers.PrintDigits` | modules/EDF/edflib.c:6086-6145 | the digit loop prints the decimal digits of the number, at least the minimum width, without leading zeros otherwise |
| `EdfNumbers.SprintLong` | modules/EDF/edflib.c:6086-6145 | the printed text of a signed 64-bit number |
| `EdfNumbers.PrintedForm` | modules/EDF/edflib.c:6086-6145 | the printed digits stand for the number, fill the minimum width and have no leading zero otherwise; the sign stands before them |
| `EdfNumbers.DecimalExactly` | modules/EDF/edflib.c:3247-3272 | a decimal number is one group of digits, or two with a dot between them |
| `EdfNumbers.WholePart` | modules/EDF/edflib.c:3305-3357 | the value of signed whole seconds |
| `EdfNumbers.DottedParts` | modules/EDF/edflib.c:3305-3357 | the value of signed seconds with any number of decimal places, of which those beyond the seventh are cut off |
| `EdfNumbers.StampPlaces` | modules/EDF/edflib.c:3934-3955 | stamps have decimal places exactly if the record duration is not whole seconds |
| `EdfNumbers.TimeForms` | modules/EDF/edflib.c:536-604 | a stamp has seven decimal places or none, an onset four or none |
| `EdfNumbers.RejectDuration` | modules/EDF/edflib.c:3247-3272 | accepts exactly digits with at most one inner dot |
| `EdfNumbers.RejectOnset` | modules/EDF/edflib.c:3275-3302 | accepts exactly a sign followed by such a number |
| `EdfNumbers.GetLongTime` | modules/EDF/edflib.c:3305-3357 | the value of a time in 100 ns, wrapped to 64 bits; no arithmetic overflows if and only if the integer part has at most 11 digits, and then the value is exact |
| `EdfNumbers.StampRoundTrip` | modules/EDF/edflib.c:3938-3951 | every printed time stamp stands for the time printed, with or without its fraction, and is parsed without overflow if and only if it is below 10^11 s |
| `EdfNumbers.RecordStampReadsBack` | modules/EDF/edflib.c:3938-3951 | the stamp of record k stands for k times the record duration, and is parsed without overflow if and only if it is below 10^11 s |
| `EdfNumbers.RecordTimeFits` | modules/EDF/edflib.c:3305-3357 | every record time that has 64 bits reads back exactly, although parsing may overflow on the way |
| `EdfNumbers.StampsContinuous` | modules/EDF/edflib.c:3029-3048 | consecutive stamps are one record duration apart |
| `EdfNumbers.OnsetRoundTrip` | modules/EDF/edflib.c:555-562 | every printed onset stands for 1000 times the number queued, and is parsed without overflow if and only if it is below 10^11 s |
| `EdfNumbers.OnsetFits` | modules/EDF/edflib.c:3305-3357 | with arithmetic that wraps around an onset reads back exactly if and only if it is at most 9223372036854775 units of 100 microseconds |
| `EdfNumbers.WideTime` | modules/EDF/edflib.c:3305-3357 | a printed time has more than 11 integer digits if and only if it is at least 10^11 s |
| `EdfNumbers.OverflowExample` | modules/EDF/edflib.c:3305-3357 | the largest onset reads back as a negative time |
| `EdfNumbers.IntegerPart` | modules/EDF/edflib.c:3305-3357 | the digits before the dot are summed from the last to the first, wrapped to 64 bits |
| `EdfNumbers.FractionPart` | modules/EDF/edflib.c:3336-3342 | the digits after the dot are added until their weight is zero |
| `EdfNumbers.WrapStep` | modules/EDF/edflib.c:3330-3334 | wrapping after each operation or once at the end makes no difference |
| `EdfNumbers.DurationWellFormed` | modules/EDF/edflib.c:563-574 | a printed duration is accepted by the reader and reads back |
| `EdfNumbers.DurationLength` | modules/EDF/edflib.c:563-574 | a printed duration has at most 15 characters if and only if it is whole seconds or below 10^10 s |
| `EdfTal.QueueAnnotation` | modules/EDF/edflib.c:5603-5679 | what is queued of an annotation |
| `EdfTal.StoredExact` | modules/EDF/edflib.c:5603-5679 | a description is queued unchanged if and only if it has at most 40 bytes, all of them printable ASCII or DEL |
| `EdfTal.TalFits` | modules/EDF/edflib.c:543-590 | for all 64-bit times the list has at most 108 bytes, so a final zero always fits |
| `EdfTal.TalExample` | modules/EDF/edflib.c:536-604 | the 114 bytes of one annotation signal |
| `EdfTal.BuildTal` | modules/EDF/edflib.c:543-590 | the bytes of one rewritten annotation signal |
| `EdfTal.TimeStamp` | modules/EDF/edflib.c:543-550 | the printed stamp of a record |
| `EdfTal.UnitsText` | modules/EDF/edflib.c:555-562 | a printed onset or duration |
| `EdfTal.BuildNote` | modules/EDF/edflib.c:555-585 | onset, duration and description with their separators |
| `EdfAnnotations.ScanSignal` | modules/EDF/edflib.c:3069-3221 | the scanner's loop computes the specification, with all its error exits |
| `EdfAnnotations.CheckTimeKeeping` | modules/EDF/edflib.c:3006-3067 | the time-keeping check with its error codes |
| `EdfAnnotations.GetAnnotations` | modules/EDF/edflib.c:2966-3236 | the loops over records and annotation signals |
| `EdfAnnotations.ScanNote` | modules/EDF/edflib.c:3102-3218 | a written onset, duration and description add exactly one annotation |
| `EdfAnnotations.AnnotationsRoundTrip` | modules/EDF/edflib.c:2968-3236 | a closed file reads back without error as its first min(annotations, records) annotations in order, text intact, onset times 1000 wrapped to 64 bits; no arithmetic overflows if and only if the record times and these onsets are below 10^11 s |
| `EdfAnnotations.OnsetsReadBack` | modules/EDF/edflib.c:5603-5640 | all onsets of a file read back exactly if and only if they are at most 9223372036854775 units |
| `EdfAnnotations.WideExactly` | modules/EDF/edflib.c:3305-3357 | that condition holds exactly if no time read on the way has more than 11 integer digits |
| `EdfAnnotations.OnsetOverflows` | modules/EDF/edflib.c:5603-5640 | an onset that can be queued and written, and that reads back as a negative time |
| `EdfAnnotations.DurationIntact` | modules/EDF/edflib.c:3202-3211 | the reader keeps the whole text of a duration if and only if it is whole seconds or below 10^10 s |
| `EdfAnnotations.DurationValue` | modules/EDF/edflib.c:563-574 | the full text of a duration stands for the duration queued |
| `EdfAnnotations.DurationCut` | modules/EDF/edflib.c:3202-3211 | a duration that loses its last decimal place |
| `EdfAnnotations.StopsAtRecordingEnds` | modules/EDF/edflib.c:3160-3169 | reading ends with the first "Recording ends" if and only if no annotation after it is in a record |
| `EdfAnnotations.ReadsOnAfterEnd` | modules/EDF/edflib.c:3160-3169 | two records, the first of which ends the recording, and both annotations are read |
| `EdfAnnotations.AddAnnotation` | modules/EDF/edflib.c:3120-3169 | a new annotation at the end of the list, with its text cut to 512 characters |
| `EdfAnnotations.Separator` | modules/EDF/edflib.c:3102-3218 | what a separator ends: a description, an onset or a duration, with the error exits |
| `EdfAnnotations.GetSignal` | modules/EDF/edflib.c:2985-3235 | one annotation signal: its last byte, its time-keeping part, its annotations |
| `EdfAnnotations.ScanTal` | modules/EDF/edflib.c:3069-3221 | scanning a written signal adds the annotation written there, and none for a record without one |
| `EdfGrammar.SignalRead` | modules/EDF/edflib.c:3069-3221 | every signal of lists, each an onset, an optional duration and any number of texts, is read without an error as exactly its texts, in order, with the times of their lists |
| `EdfGrammar.Parsed` | modules/EDF/edflib.c:3069-3221 | whatever has been scanned without an error is a beginning of such a signal |
| `EdfGrammar.AcceptsExactly` | modules/EDF/edflib.c:3069-3221 | for every signal whose last byte is zero: no error if and only if it is in the grammar, and then the annotations are exactly its texts |
| `EdfGrammar.StopsAtFirstEnd` | modules/EDF/edflib.c:3156-3166 | with the stop at "Recording ends" the same annotations are read, up to the first such one |
| `EdfReading.StampExactly` | modules/EDF/edflib.c:3006-3067 | the check of a signal of the grammar succeeds if and only if its first list has no duration and an empty first text, and its time may follow the one before |
| `EdfReading.StampErrors` | modules/EDF/edflib.c:3006-3067 | the error code of that check |
| `EdfReading.NoStampError` | modules/EDF/edflib.c:3006-3067 | and the code for a signal without a separator |
| `EdfReading.ScanErrors` | modules/EDF/edflib.c:3069-3221 | the error code each byte of a signal raises |
| `EdfReading.DelimitersExactly` | modules/EDF/edflib.c:3102-3165 | the text and the bytes the scanner looks for |
| `EdfReading.RecordsExactly` | modules/EDF/edflib.c:2966-3236 | files whose signals are in the grammar: no error if and only if the stamps follow each other, and then all texts in the order of the file |
| `EdfReading.FileAcceptedExactly` | modules/EDF/edflib.c:2966-3236 | for every file, also one not written by the library: exactly when its annotations are read without an error, and which ones they are |
| `EdfAnnotations.StampFound` | modules/EDF/edflib.c:3006-3067 | the check of a written signal finds its stamp |
| `EdfLayout.CodeRoundTrip` | modules/EDF/edflib.c:1139-1183 | a code survives its two or three bytes if and only if it fits their signed range |
| `EdfLayout.LowerBytes` | modules/EDF/edflib.c:3898-3930 | a code is its lower two bytes and 65536 times what is above them |
| `EdfLayout.RecordStartProduct` | modules/EDF/edflib.c:1112-1115 | the start of record r is the header plus r times the record size |
| `EdfLayout.ClampExactly` | modules/EDF/edflib.c:3898-3917 | codes in the digital range are kept, others become the end of the range they exceed |
| `EdfLayout.BufOffsetSum` | modules/EDF/edflib.c:2618-2632 | within a record the signals follow each other in their order, then 114 bytes of annotations |
| `EdfLayout.OffsetStep` | modules/EDF/edflib.c:1125-1137 | the next sample follows directly, or after the jump at a record border |
| `EdfFile.PutSamples` | modules/EDF/edflib.c:3898-3930 | the loop appends the limited samples |
| `EdfFile.Writer.WriteDigital` | modules/EDF/edflib.c:3839-3959 | each call writes the next signal, the last one of a record adds the time-keeping annotation; a call is refused exactly without signals, or at the first sample with the error of the header |
| `EdfFile.CloseFile` | modules/EDF/edflib.c:512-604 | closing, also of a file without data records, leaves every sample as it is and puts the annotations into the annotation signals; it fails exactly if a header must be written and is wrong |
| `EdfFile.EmptyRecords` | modules/EDF/edflib.c:469-500 | a file without data records gets one annotation-only record for each annotation, without room for samples |
| `EdfFile.ReadStretch` | modules/EDF/edflib.c:1112-1191 | the sequential reads with jumps visit the samples of the direct formula |
| `EdfFile.SampleReadsBack` | modules/EDF/edflib.c:3898-3956 | every sample of a closed file reads back as what was written, limited to the digital range |
| `EdfFile.SampleBytesAt` | modules/EDF/edflib.c:3898-3930 | where the bytes of every sample are in a closed file, and that they are its two's complement, lowest first |
| `EdfFile.Reader.ReadDigital` | modules/EDF/edflib.c:1012-1192 | from any position, for any count: as many samples as there are, and the position moves on by them |
| `EdfFile.Reader.Seek` | modules/EDF/edflib.c:665-733 | the position stays between the first sample and the end |
| `EdfFile.Writer.FinishRecord` | modules/EDF/edflib.c:3934-3955 | the time-keeping annotation at the end of a record |
| `EdfFile.Rewrite` | modules/EDF/edflib.c:536-604 | the loop over the annotations overwrites one annotation signal after the other |
| `EdfFile.WriteKeepsRound` | modules/EDF/edflib.c:536-604 | writing an annotation signal touches no sample |
| `EdfFile.WriteKeepsSlot` | modules/EDF/edflib.c:536-604 | nor another annotation signal |
| `EdfFile.RewriteRecord` | modules/EDF/edflib.c:536-604 | one turn of that loop |
| `EdfFile.FirstSlot` | modules/EDF/edflib.c:512-534 | the position of the first annotation signal and the distance to the next are summed over the signals |
| `EdfFile.ClosedSignals` | modules/EDF/edflib.c:2995-2996 | the reader finds the annotation signals where the writer put them |
| `EdfRoundTrip.FileRoundTrip` | modules/EDF/edflib.c:432-604 | after any rounds of writes and a close, all samples and all annotations of the one file read back, onsets exactly if and only if they are at most 9223372036854775 units |
| `EdfRoundTrip.WriteAndRead` | modules/EDF/edflib.c:432-604 | writing, closing, opening and reading in sequence: the samples read are those of the buffers written, limited to the digital range, and the annotations those queued |
| `EdfRoundTrip.WriteFile` | modules/EDF/edflib.c:3839-3959 | writing any rounds signal by signal and closing gives a closed file of them |
| `EdfRoundTrip.ReadSamples` | modules/EDF/edflib.c:1012-1192 | seeking to any position of a closed file and reading returns the samples written there, as many as there are |
| `EdfRoundTrip.ReadNotes` | modules/EDF/edflib.c:2966-3236 | reading the annotations of a closed file |
| `EdfPhysical.MakeScale` | modules/EDF/edflib.c:4387-4413 | the range errors and the computed bit value and offset |
| `EdfPhysical.ToDigital` | modules/EDF/edflib.c:4161-4175 | the conversion to a digital code, for quotients in the range of int |
| `EdfPhysical.PhysicalRoundTrip` | modules/EDF/edflib.c:952-1003 | a sample in the digital range, its code passed on, reads back with an error below one bit value if and only if code plus offset does not wrap |
| `EdfPhysical.StoredRoundTrip` | modules/EDF/edflib.c:952-1003 | the same through the two or three bytes of the file |
| `EdfPhysical.AllReadBackNear` | modules/EDF/edflib.c:952-1003 | all samples of a signal read back within one bit value if and only if neither end of its digital range plus offset wraps |
| `EdfPhysical.WrapExample` | modules/EDF/edflib.c:952-964 | a scaling that the header gets from a physical range, and a sample in that range that reads back far off |
| `EdfPhysical.Saturates` | modules/EDF/edflib.c:4167-4175 | out-of-range samples become the end codes, and only they change their code |
| `EdfPhysical.CodesMonotone` | modules/EDF/edflib.c:4161-4175 | codes follow the order of the physical values |
| `EdfPhysical.RewriteKeepsCode` | modules/EDF/edflib.c:4161-4175 | a sample that was read and is written again keeps its code |
| `EdfPhysical.EndsCalibrated` | modules/EDF/edflib.c:4409-4413 | the end codes stand for the ends of the physical range within one bit value |
| `Slots.ApplyKeepsInv` | libdyn_cpp.cpp:1279-1576 | an operation keeps the slot invariant if and only if it is not a harmful two-slot delete |
| `Slots.FirstStepIsOutput` | libdyn_cpp.cpp:1557-1576 | in every run without a harmful two-slot delete the first step of every nested simulation is an output step |
| `Slots.SwitchExact` | libdyn_cpp.cpp:1399-1446 | after a two-slot delete, first steps stay output steps however the run goes on if and only if the delete is safe |
| `Slots.SwitchKeepsInv` | libdyn_cpp.cpp:1399-1446 | the two-slot delete keeps the slot invariant if and only if it is safe |
| `Slots.SwitchThenUpdate` | libdyn_cpp.cpp:1399-1446 | the state update after a two-slot delete is a first step if and only if the new current simulation differs from the one deleted, has not stepped, and the flag of the current slot is up |
| `Slots.SwitchCounterexample` | libdyn_cpp.cpp:1399-1446 | with the two-slot delete a first step can be a state update |
| `Slots.WhenNumberRight` | libdyn_cpp.cpp:1345-1348 | the recorded number becomes wrong exactly by adding at a given slot, and right by adding to the next slot or setting the current one |
| `Slots.DeleteKeepsCurrent` | libdyn_cpp.cpp:1357-1397 | a deletion leaves the current simulation alive if and only if it is not accepted for the slot that holds it, and for that slot it is accepted if and only if the recorded number is another one |
| `Slots.NoStepOfDestructed` | libdyn_cpp.cpp:1279-1576 | a run stays sound, so that every step goes to a simulation that exists, if and only if every operation is careful |
| `Slots.DeleteCounterexample` | libdyn_cpp.cpp:1345-1348 | a run that steps a destructed simulation |
| `Slots.Nested.AddNext` | libdyn_cpp.cpp:1286-1316 | adding to the next slot: the whole new state, and the state machine's step |
| `Slots.Nested.AddAt` | libdyn_cpp.cpp:1317-1352 | adding to a given slot: the whole new state, and the state machine's step |
| `Slots.Nested.DelSimulation` | libdyn_cpp.cpp:1357-1397 | deleting: the whole new state and the return codes, and the state machine's step |
| `Slots.Nested.DelSimulationSwitch` | libdyn_cpp.cpp:1399-1446 | the two-slot delete: the whole new state and the return codes, and the state machine's step |
| `Slots.Nested.SetCurrentSimulation` | libdyn_cpp.cpp:1486-1516 | setting the current simulation: the whole new state, and the state machine's step; a refused one returns false |
| `Slots.Nested.SimulationStepOutput` | libdyn_cpp.cpp:1557-1562 | the output step marks the slot; without a living current simulation its effect is not defined |
| `Slots.Nested.SimulationStepUpdate` | libdyn_cpp.cpp:1564-1576 | the update step is skipped until the slot is marked; without a living current simulation its effect is not defined |
| `Slots.Nested.constructor` | libdyn_cpp.cpp:1146-1168 | no slot is occupied at first, whatever the flags are |
| `Slots.CarefulExact` | libdyn_cpp.cpp:1279-1576 | an operation keeps the current simulation alive and the slots in order if and only if it is careful |
| `Lifecycle.Simulation.CallInitFlag` | libdyn.c:1203-1264 | the calls of one pass, and of its undoing up to the failed block; the flag of the simulation is raised if it completes |
| `Lifecycle.Simulation.Delete` | libdyn.c:292-341 | all DESTRUCTOR calls of initialised blocks, then their POSTDESTRUCTOR calls |
| `Lifecycle.Life` | libdyn.c:1181-1200 | all calls from initialisation to deletion, for every pattern of failures |
| `Lifecycle.CountLife` | libdyn.c:1181-1264 | how often each flag reaches each block, for every pattern of failures |
| `Lifecycle.PhasesInOrder` | libdyn.c:1181-1201 | in a successful life the phases follow each other over all blocks, and each block gets each flag once |
| `Lifecycle.PairedUnlessInitFails` | libdyn.c:1203-1264 | successful calls are undone exactly once each for all blocks if and only if no INIT call fails |
| `Lifecycle.Simulation.Initialise` | libdyn.c:1181-1200 | the calls of initialisation, which blocks are marked as initialised afterwards, and that the flag of the simulation is raised if all PREINIT calls succeed |
| `Lifecycle.Simulation.BeforeStep` | libdyn.c:1331-1338 | a step initialises exactly while the flag is not raised, whatever comes of it |
| `Lifecycle.Simulation.Steps` | libdyn.c:1331-1338 | the calls and marks of any number of steps, for every pattern of failures: the last initialisation is the first one whose PREINIT calls all succeed |
| `Lifecycle.InitOnce` | libdyn.c:1203-1235 | however long it is stepped, a block gets INIT at most once, and a failed initialisation is not repeated |
| `Lifecycle.Simulation.DestructorPass` | libdyn.c:300-340 | one of the two passes over the initialised blocks |
| `Ilc.SqMatrixElement` | libilc.h:39 | matrices are read by columns |
| `Ilc.CvMatrixFilter` | libilc.c:141-165 | the nested loops compute the matrix product |
| `Ilc.SisoIlc.Update` | libilc.c:305-317 | one learning step on the vectors in place |
| `Ilc.SisoIlc.Sample` | libilc.c:319-350 | each call takes the trial machine's step for every delay mtot; the output is open where the stored input is read past its end |
| `Ilc.TrialProgress` | libilc.c:319-350 | during a trial the input stays and the error of every measured sample is recorded, mtot samples late |
| `Ilc.TrialCompletes` | libilc.c:319-350 | a complete trial replaces u by Q (u + L e) with every error that mtot lets be measured rewritten in that trial, whatever calls are made |
| `Ilc.LawInSums` | libilc.c:305-350 | what a complete trial makes of each input, as sums over the positions of the arrays: sum over j of Q[i + n j] (u[j] + sum over k of L[j + n k] d[k]), where d is r - y where measured and the old error elsewhere |
| `Ilc.AddsTrackingError` | libilc.c:305-350 | without filters and delay it adds exactly r - y |
| `Ilc.LearnsExample` | libilc.c:305-350 | one trial of two samples in numbers |
| `Ilc.TrialOutputs` | libilc.c:319-335 | what is played during a trial: the stored input at the number of updates so far, then zero |
| `Ilc.ReadsInsideExactly` | libilc.c:319-335 | every call of a complete trial reads the stored input within its bounds if and only if mtot is not positive |
| `Ilc.RunKeepsUnmeasured` | libilc.c:337-338 | with a negative mtot the first errors are never measured and stay |
| `Ilc.TrialsLearn` | libilc.c:305-350 | over any number of trials the input follows the learning law |
| `Ilc.PerfectTrackingKept` | libilc.c:305-317 | without filtering and without error the input does not change |
| `Ilc.OutputCallsRepeat` | libilc.c:222-245 | output calls may be repeated |
| `Ilc.TrajectoryPlayed` | libilc.c:222-245 | after n updates the player shows sample n, and past the end its rest value |
| `Ilc.NewPlayerSilent` | libilc.c:222-245 | before its first activation a player gives zero |
| `Ilc.StoppedPlayer` | libilc.c:213-245 | a stopped player gives zero if it is muted or does not hold, and the last sample otherwise |
| `Ilc.SisoSampler.Play` | libilc.c:222-245 | each call takes the player's step |
| `Ilc.CopyVec` | libilc.c:59-67 | copies a vector in place |
| `Ilc.AddToVec` | libilc.c:69-77 | adds a vector in place: every element is the sum of the two |
| `Ilc.SisoIlc.constructor` | libilc.c:249-280 | the stored input is zero at first |
| `Ilc.SisoIlc.InitSampling` | libilc.c:291-303 | a trial starts at its first sample |
| `Ilc.TrialCutShort` | libilc.c:319-350 | a trial that is cut short leaves the input as it was |

## Left out

- Memory allocation failure, printing and dumps, threads, priorities and clocks, drivers, plugins and generated module lists.
- IEEE rounding, infinities and NaN in filters, blocks, ILC and physical samples: the model computes with reals.
- The computational functions are total functions of state and inputs: RESETSTATES, HIGHERLEVELRESET and PREPARERESET flags of the blocks, and blocks that lower their own output flag, are not modelled.
- `Dataflow.RunIsTheTrace`: every state update directly follows an output phase, and external inputs are held between the two, as callers of the stepper do.
- `Dataflow.ResetExact`: blocks whose reset flag refreshes their own outputs.
- Reading an unconnected input or memory outside the given inputs yields an empty value in the model; the setup refuses simulations with unconnected inputs.
- A simulation without any block: the source follows a null list head when it computes the execution list.
- `Wiring.Block.constructor`: data pointers of new inputs are null in the model, which the source does not set; blocks that bring their own output cache, and configurations that fail.
- `Wiring.Block.CalcOutputs`: a computational function that writes anything but its outputs.
- `Wiring.Block.UpdateStates`: a computational function that writes anything but its state.
- `SimulationObject.Simulation.NewBlock`: configurations that fail.
- `SimulationObject.Simulation.CreateBlock`: configurations that fail.
- `Wiring.Block.NewEventNotifier`: event 32 shifts by the width of the word, which C does not define; more than 32 registrations overrun the event map, and negative event numbers, which the source does not refuse, are excluded by their type.
- `Builder.RegisterEvents`: the same event numbers and number of events.
- `Builder.Builder.GetBlock`: the constructors of the block types are a parameter (a template for each description), and so is the code that finds a block type among the plugins.
- `Builder.NewRegistered`: the same constructors, which do not fail here.
- `Builder.Builder.CreateFrom`: the same constructors, which do not fail here.
- `Builder.Builder.BindOutput`: negative port numbers, with which the source leaves its arrays; output ports of blocks are checked as with the online assertions switched on.
- `Builder.Builder.PassInput`: port numbers out of range, with which the source leaves its arrays.
- `Setup.IrparSetup`: lists in which an external entry overwrites a block connection, port numbers out of range that the source uses unchecked, and lists that build no block.
- `Setup.GetVecOut`: the number of outputs itself, with which the source reads past its pointers.
- `SimulationObject.Simulation.SetupExecutionList`: a simulation without blocks, and junction lists that hold an overwritten input; `Countdown` shows what comes of the latter.
- `SimulationObject.Simulation.StepOutputs`: the initialisation that a first step triggers; it is `Lifecycle.Simulation.BeforeStep`.
- `Setup.SetupAndRun`: the same as for the setup, and blocks whose outputs see an input without declared feedthrough, for which the stepper is not meant.
- Parameters of a single block: the template of a description is given, not decoded from the description's integers.
- Toolbox functions other than those that combine elements and draw connections.
- `EdfReading.FileAcceptedExactly`: reading that stops at "Recording ends", for which `EdfGrammar.StopsAtFirstEnd` compares each signal.
- The block ids and numbers (`numID`) and the typed getters of irpar vectors.
- Nested filters of other kinds (dejitter, impulse), and the block kinds not named in `Blocks.Kind`.
- `SinkProtocol.ShutdownDelivers`: a wait ends when its condition holds, so when the wake-up counter of the writer signals is not part of the protocol. A failing open callback ends the thread, and then nothing is delivered.
- `SinkProtocol.NeverStuck`: before deletion the thread may sleep with elements pending, because a write below the wake-up count signals nothing.
- `RingBuffer.RingBuffer.TryRead`: the blocking call is `RingBuffer.RingBuffer.Read`, from the point on where it need not sleep.
- The file writer, scope and stream callbacks of log.c.
- EDF header text fields, dates and floating-point number texts; a header is a given number of bytes, and the result of checking it is given.
- `EdfFile.Writer.WriteDigital`: errors of the file system. Physical, short and block-wise writers share the loop and are not repeated.
- `EdfFile.Reader.ReadDigital`: a file shorter than its header says; opening refuses it.
- `EdfTal.QueueAnnotation`: the Latin-1 variant, which converts its text first, and the checks of the file handle.
- `EdfPhysical.ToDigital`: quotients outside the range of C's `int` are undefined there.
- `Ilc.SisoIlc.Sample`: what a read past the end of the stored input yields.
- Version 1 of the nesting class, and its use for a single simulation without slots.
- `Slots.Nested.SetCurrentSimulation`: the source returns no value for a successful switch, and so the result is open.
- `Slots.Nested.SimulationStepOutput`: a step without a living current simulation follows a bad pointer; the model only records that.
- `Slots.Nested.SimulationStepUpdate`: the same, and the read of the slot's mark when there is no slot.
- `Slots.Nested.AddAt`: the variant that takes a whole parameter structure refuses beforehand when no further slot is left; the model starts from the function that places the simulation.
- Locks around the slots, and deletion from another thread while a step is running.
- `Lifecycle.Life`: the plug-in and synchronisation callbacks around deletion.
