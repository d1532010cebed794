# JTuring in Dafny

A model of the JTuring Turing machine engine and the machines shipped with it.

JTuring simulates a single-tape, single-head Turing machine. Its parts:

- **Instructions.** An instruction table is a list of `Instruction`s. Each one says: in this old state, reading this symbol, write this symbol, move the head Left, Right or Centre, enter this new state, and possibly halt.
- **Tape.** A `Tape` is a character array. It grows by one blank cell (`'-'`) at either end when the head steps off it.
- **Engine.** A `TuringMachine` keeps:
  - a current state;
  - a head position in the caller's coordinates;
  - a displacement counter, the number of left expansions so far, so that the real index is position + displacement;
  - a clock, a halt flag, and a history with one tape entry per executed instruction.

  Each step reads the cell under the head and looks up the *last* matching table entry. A miss raises the halt flag and reports "Instruction not found". Otherwise the engine executes the entry: write, then (unless halted) grow the tape if needed and move, then change state, tick the clock, latch halt and record the tape.
- **Presets.** There are three preset machines (parity counter, bit flipper, unary adder) and a demo machine that exercises growth at both ends.

The model has these modules:

- `Instructions` (`instructions.dfy`): states (compared by name), head directions, the instruction record with its setters, and the not-found message.
- `Tapes` (`tape.dfy`): class `Tape` over `array<char>`, whose methods update the array in place or replace it by a longer one.
- `Semantics` (`semantics.dfy`): the engine on values. A `Config` snapshot holds cells, position, displacement, state, time and halted. `Lookup`, `Execute`, `Step` and a fuelled `Run` define what the engine does, and lemmas state the addressing, growth and halting properties.
- `Machines` (`machine.dfy`): class `TuringMachine` with the engine's fields.
  - Every method is proved to move the object's `Snapshot()` exactly as the `Semantics` function says.
  - `Valid()` keeps three facts: the head on a real cell, a non-negative displacement, and `time == |history|`.
- `Presets` (`presets.dfy`) and `Addition` (`adder.dfy`): the three preset tables with general correctness theorems.
  - Parity on any bit string.
  - Bit flipping on any bit string.
  - Unary addition for any `a` and `b`.
  - The `*1+1=` example as an instance.
- `PresetMachines` (`preset_machines.dfy`): the preset machines built as `TuringMachine` objects and run through the class. The run's outcome follows from the theorems.
- `ExpansionDemo` (`expansion_demo.dfy`): the demo program's table and its whole run on `101102`.

## Model

| member | source | states |
|---|---|---|
| Instructions.Instruction.SetHalt | src/jturing/Instruction.java:59-61 | the halt flag becomes the argument and every other field is unchanged |
| Instructions.Instruction.SetOldState | src/jturing/Instruction.java:67-69 | the old state becomes the argument and every other field is unchanged |
| Instructions.Instruction.SetGivenSymbol | src/jturing/Instruction.java:75-77 | the given symbol becomes the argument and every other field is unchanged |
| Instructions.Instruction.SetNewState | src/jturing/Instruction.java:83-85 | the new state becomes the argument and every other field is unchanged |
| Instructions.Instruction.SetWriteSymbol | src/jturing/Instruction.java:91-93 | the write symbol becomes the argument and every other field is unchanged |
| Instructions.Instruction.SetDirection | src/jturing/Instruction.java:99-101 | the direction becomes the argument and every other field is unchanged |
| Instructions.NotFoundMessage | src/jturing/Instruction.java:47-51 | the message is the fixed prefix, the state's name, the symbol label, the symbol and ')', each at its stated offset |
| Instructions.NotFoundMessageInjective | src/jturing/Instruction.java:48-50 | two equal messages come from the same state and symbol |
| Tapes.Tape.constructor | src/jturing/Tape.java:33-35 | the tape wraps the caller's array itself, shared rather than copied |
| Tapes.Tape.WithOverwrite | src/jturing/Tape.java:37-44 | with overwrite, the loop as written blanks only cell 0 (BlankFirst); without it, nothing changes; the array is shared |
| Tapes.BlankFirst | src/jturing/Tape.java:39-43 | same length; cell 0 is blank when there is one; every later cell is unchanged |
| Tapes.BlankFirstIsNotBlanks | src/jturing/Tape.java:39-43 | the loop as written blanks the whole tape exactly when every cell after 0 was already blank; "ab" becomes "-b", not "--" |
| Tapes.Tape.WithOverwriteAll | src/jturing/Tape.java:37-44 | corrected form: with overwrite, every cell becomes blank; without it, nothing changes |
| Tapes.Tape.Write | src/jturing/Tape.java:46-48 | only the indexed cell changes, to the given symbol; the length stays |
| Tapes.Tape.GetLength | src/jturing/Tape.java:50-52 | the number of cells of the current array |
| Tapes.Tape.ExpandOnLeft | src/jturing/Tape.java:54-64 | a fresh array one longer: a blank, then the old cells, each shifted up by one |
| Tapes.Tape.ExpandOnRight | src/jturing/Tape.java:66-76 | a fresh array one longer: the old cells at their old indices, then a blank |
| Tapes.Tape.GetValue | src/jturing/Tape.java:78-80 | the symbol in the indexed cell, with no change |
| Tapes.Tape.GetValues | src/jturing/Tape.java:82-84 | the backing array itself, not a copy |
| Semantics.Initial | src/jturing/TuringMachine.java:45-54 | a fresh engine holds the given cells and state, has its head at the given position with no displacement, time 0, and is not halted |
| Semantics.LastMatch | src/jturing/TuringMachine.java:102-107 | the scan's result matches, and no later entry does; no result means no entry matches |
| Semantics.Lookup | src/jturing/TuringMachine.java:101-113 | an instruction is found iff some entry has the state and symbol; a miss carries the not-found message |
| Semantics.LookupIsLastMatch | src/jturing/TuringMachine.java:103-107 | with duplicate entries, the one with the greatest index wins |
| Semantics.Move | src/jturing/TuringMachine.java:124-141 | unless halted, L moves the head one cell left and R one cell right; it does not move exactly when halted or on direction C |
| Semantics.Execute | src/jturing/TuringMachine.java:116-154 | the head stays on a real cell; the state becomes the new state; time goes up by one; halt is latched; the position moves by Move; displacement grows only on a left growth; the tape grows by one only on a growth |
| Semantics.ExecuteCells | src/jturing/TuringMachine.java:120-141 | the written symbol lands at the old head cell (shifted after a left growth); every other old cell keeps its symbol at its shifted index; a grown cell is blank |
| Semantics.LeftExpansion | src/jturing/TuringMachine.java:124-134 | stepping left off cell 0: one blank in front, old cells after it, displacement + 1, position - 1, real index 0 |
| Semantics.RightExpansion | src/jturing/TuringMachine.java:135-141 | stepping right off the last cell: a blank appended, displacement kept, head on the new cell |
| Semantics.NoMoveWhenHaltedOrCentre | src/jturing/TuringMachine.java:124-144 | when halted or on C: the position, the displacement and the length stay; the write, state change and clock still happen |
| Semantics.Step | src/jturing/TuringMachine.java:156-161 | halt is never cleared; a miss only raises halt and leaves tape, position, state and clock as they were; a hit ticks the clock |
| Semantics.Run | src/jturing/TuringMachine.java:171-179 | a halted engine is left alone; time grows by at most the fuel; a run that does not halt uses all its fuel |
| Semantics.RunAdditive | src/jturing/TuringMachine.java:171-179 | running a then b steps is the same as running a + b steps |
| Semantics.RunHaltedStable | src/jturing/TuringMachine.java:171-179 | once a run has halted, more fuel changes nothing, so the fuel bound does not matter past halting |
| Semantics.Fires | src/jturing/TuringMachine.java:156-161 | in a deterministic table, a step on a cell matching entry i is the execution of entry i |
| Semantics.DeterministicLookup | src/jturing/TuringMachine.java:101-113 | in a table with at most one entry per (state, symbol) pair, each entry is what the lookup finds for its own pair |
| Semantics.DeterministicAppend | src/jturing/TuringMachinePresets.java:92-128 | appending a deterministic block whose entries all start from one state the table never starts from keeps the table deterministic |
| Machines.TuringMachine.constructor | src/jturing/TuringMachine.java:45-54 | the given state and table, the shared tape, head on cell 0, time 0, empty history, not halted |
| Machines.TuringMachine.AtPosition | src/jturing/TuringMachine.java:56-65 | as above with the head on the given cell |
| Machines.TuringMachine.AtPositionWithoutTable | src/jturing/TuringMachine.java:67-76 | head on the given cell, empty table |
| Machines.TuringMachine.WithoutTable | src/jturing/TuringMachine.java:78-87 | head on cell 0, empty table |
| Machines.TuringMachine.SetInstructions | src/jturing/TuringMachine.java:226-228 | replaces the table and changes nothing else |
| Machines.TuringMachine.GetInstruction | src/jturing/TuringMachine.java:101-113 | the loop's result is Lookup's, the last match; halt is raised exactly on a miss and kept otherwise |
| Machines.TuringMachine.ExecuteInstruction | src/jturing/TuringMachine.java:116-154 | the new snapshot is Execute of the old one; one history entry (the live tape array) is appended; the current instruction is recorded; time == \|history\| is kept |
| Machines.TuringMachine.MoveHead | src/jturing/TuringMachine.java:124-141 | the tape grows on the left or right exactly when Semantics says; the position moves by Move; displacement + 1 only on a left growth; nothing else changes |
| Machines.TuringMachine.Step | src/jturing/TuringMachine.java:156-161 | the new snapshot is Step of the old one; history grows by at most one entry |
| Machines.TuringMachine.Run | src/jturing/TuringMachine.java:171-179 | the loop ends with the snapshot Run(fuel) gives; history only grows |
| Machines.TuringMachine.StepBack | src/jturing/TuringMachine.java:163-167 | the first history read, at index time, is always out of range, because time equals the history size |
| Presets.ParityTableDeterministic | src/jturing/TuringMachinePresets.java:40-47 | the parity table has one entry per (state, symbol) |
| Presets.BitFlipperTableDeterministic | src/jturing/TuringMachinePresets.java:62-74 | the flipper table has one entry per (state, symbol) |
| Presets.UnaryAdderTableDeterministic | src/jturing/TuringMachinePresets.java:92-128 | the adder table has one entry per (state, symbol) |
| Presets.UnaryAdderLookup | src/jturing/TuringMachinePresets.java:92-128 | every adder entry is the one the engine finds for its own pair |
| Presets.ParityMachineComputesParity | src/jturing/TuringMachinePresets.java:30-48 | on bits w followed by '*', the machine halts after exactly \|w\| + 1 steps; the '*' becomes 'e' or 'o' by the parity of the '1's; the bits are kept; the tape does not grow; the state is halt |
| Presets.FlipAt | src/jturing/TuringMachinePresets.java:71-72 | the flipped word has '1' where the word had '0', and '0' where it had '1' |
| Presets.BitFlipperFlipsBits | src/jturing/TuringMachinePresets.java:51-75 | on '*' w '*', the machine halts after exactly 2\|w\| + 3 steps; every bit is flipped; the markers are kept; the tape does not grow; the head is back on cell 0 in Halt |
| Addition.WritesOne | src/jturing/TuringMachinePresets.java:101-108 | WriteOnes walks to the end, appends one '1' (a right growth) and FindEquals returns to the word's last cell, in a stated number of steps |
| Addition.MarksOne | src/jturing/TuringMachinePresets.java:110-114 | FindOnesLeft walks left to the rightmost unmarked '1' and marks it as '0' |
| Addition.Finishes | src/jturing/TuringMachinePresets.java:110-126 | with every '1' marked, the machine walks back to '*', turns every mark back into '1' and halts on '=' |
| Addition.AdderLoop | src/jturing/TuringMachinePresets.java:101-126 | from any intermediate tape, the cycle writes one '1' per unmarked '1' left, then restores the word and halts |
| Addition.AdderComputesSum | src/jturing/TuringMachinePresets.java:78-130 | on '*' 1^a '+' 1^b '=', the machine halts after AdderSteps(a, b) steps with 1^(a+b) written after '=', the input intact, no left growth and the head on '=' |
| Addition.AdderOnePlusOne | src/jturing/TuringMachinePresets.java:92-128 | "*1+1=" becomes "*1+1=11" in exactly 21 steps |
| PresetMachines.ParityMachine | src/jturing/TuringMachinePresets.java:32-49 | a fresh engine on the tape in state "even" at cell 0 with the parity table |
| PresetMachines.BitFlipper | src/jturing/TuringMachinePresets.java:53-76 | a fresh engine on the tape in state "Initial" at cell 0 with the flipper table |
| PresetMachines.UnaryAdder | src/jturing/TuringMachinePresets.java:79-130 | a fresh engine on the tape in state "Initial" at cell 0 with the adder table |
| PresetMachines.RunParityMachine | src/jturing/TuringMachinePresets.java:30-48 | running the object gives w plus the parity mark, after \|w\| + 1 steps, halted |
| PresetMachines.RunBitFlipper | src/jturing/TuringMachinePresets.java:51-75 | running the object gives '*' Flip(w) '*', after 2\|w\| + 3 steps, halted |
| PresetMachines.RunUnaryAdder | src/jturing/TuringMachinePresets.java:78-130 | running the object appends 1^(a+b), after AdderSteps(a, b) steps, halted |
| ExpansionDemo.ExpansionTableDeterministic | src/jturing/TuringMachineTest.java:59-73 | the demo table has one entry per (state, symbol) |
| ExpansionDemo.StepsOffLeftEnd | src/jturing/TuringMachineTest.java:66-68 | overwriting leftwards from cell 1: stepping off cell 0 prepends a blank and sets the displacement to 1, and the blank is overwritten as the head turns right |
| ExpansionDemo.WritesTheX | src/jturing/TuringMachineTest.java:70-71 | the walk right steps off the last cell, the tape grows on the right, and the 'x' is written there with a halt |
| ExpansionDemo.ExpansionRun | src/jturing/TuringMachineTest.java:47-73 | from "101102" in "Initial" the machine halts after 19 steps with "2222222x", position 6 and displacement 1 |
| ExpansionDemo.RunFromStart | src/jturing/TuringMachineTest.java:57-75 | an engine object on "101102" at cell 0 in "Initial" with the demo table ends, after 19 more steps, with "2222222x", halted, whatever its clock read at the start |
| ExpansionDemo.RunExpansionDemo | src/jturing/TuringMachineTest.java:47-75 | the demo engine object, built and run, ends with "2222222x" after 19 steps, halted |

## Left out

- Printing is left out because it is console output only: `printTape`, `runPrint` (lines 181-218 of TuringMachine.java) and the stack trace that `step` and `run` print on a lookup miss. The model carries on exactly as the Java does after the trace: the halt flag is raised.
- Machines.TuringMachine.Run: Java's `run()` loops until halt with no bound, and may never return. The model runs at most `fuel` steps, because every loop must be proved to end. For the presets, `RunHaltedStable` shows that any fuel past the halting step gives the same result.
- The `TuringMachine(State)` constructor (lines 89-98 of TuringMachine.java) is left out. It builds a machine on an empty tape, so the very first read is out of range.
- Machines.TuringMachine.constructor, Machines.TuringMachine.AtPosition, Machines.TuringMachine.AtPositionWithoutTable and Machines.TuringMachine.WithoutTable require a non-empty tape and an in-range start position. The Java accepts any, but the first `step` would then index outside the array. Likewise `Write` and `GetValue` require an in-range index instead of modelling Java's `ArrayIndexOutOfBoundsException`.
- PresetMachines.ParityMachine, PresetMachines.BitFlipper and PresetMachines.UnaryAdder require a non-empty tape for the same reason. The Java preset constructors accept any tape.
- Java `int` overflow of the position, displacement and clock is not modelled (all are unbounded integers). It would take more than 2^31 steps.
- Machines.TuringMachine.StepBack models only the failure. Since time equals the history size, `getHistory().get(time)` always throws before anything changes. The restoring and removing after it are never reached, so they are left out.
- History entries are the live tape arrays, as in the Java, which stores `tape.getValues()` without copying. The model states which array each entry is but not the entry's later contents.
- Plain getters and setters of `TuringMachine` other than `setInstructions` are left out because they only read or assign one field. The getters of `Instruction` are the datatype's fields.
- `State.java` is not part of this model. States are values compared by name, which the presets rely on: each builds a fresh `State("even")` or `State("Initial")` for the start state and another for its table.
- The comment above `UnaryAdder` (TuringMachinePresets.java line 78) says the sum is written "to the left of the equals". The table writes it to the right, after the '=' (line 105, a '1' written over the blank past the end). The model follows the table.
- The commented-out demo runs in `TuringMachineTest.java` (lines 31-43) are left out because they are not code. They are covered by the general flipper and adder theorems.

## Findings

| source | as written | input that shows it | evidently intended | confidence | as-written member | corrected member |
|---|---|---|---|---|---|---|
| src/jturing/Tape.java:39-43 | the overwrite loop runs once per cell but always assigns `values[0]`, so only the first cell becomes blank | `new Tape("ab", true)` leaves "-b" | `values[i] = blankChar`: every cell blank, "--" | medium, not executed | Tapes.Tape.WithOverwrite, Tapes.BlankFirstIsNotBlanks | Tapes.Tape.WithOverwriteAll |
