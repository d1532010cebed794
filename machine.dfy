// The Turing machine engine as a class whose methods update its fields in
// place. Each method is proved to do what the functions of Semantics say.

module Machines {
  import opened Instructions
  import opened Tapes
  import Semantics

  /** Outcome of stepBack: the history read it starts with is out of range. */
  datatype StepBackOutcome = IndexOutOfBounds(index: int, size: int)

  class TuringMachine {
    var currentState: State
    var currentPosition: int
    var displacementCounter: int
    var time: int
    /** One entry per executed instruction: the tape's array as it was then
        (the live array, shared with the tape, not a copy). */
    var history: seq<array<char>>
    var tape: Tape
    var instructions: seq<Instruction>
    var halt: bool
    var currentInstruction: Option<Instruction>

    /** The head is on a materialised cell, left expansions are counted from
        zero, and the clock equals the number of history entries. */
    ghost predicate Valid()
      reads this, tape
    {
      0 <= displacementCounter &&
      0 <= currentPosition + displacementCounter < tape.values.Length &&
      time == |history|
    }

    ghost function Snapshot(): (c: Semantics.Config)
      reads this, tape, tape.values
      requires Valid()
      ensures c.Valid()
    {
      Semantics.Config(tape.values[..], currentPosition, displacementCounter, currentState, time, halt)
    }

    constructor (currentState: State, instructions: seq<Instruction>, tape: Tape)
      requires tape.values.Length > 0
      ensures Valid() && this.tape == tape && this.instructions == instructions
      ensures Snapshot() == Semantics.Initial(tape.values[..], currentState, 0)
      ensures history == [] && currentInstruction == None
    {
      this.currentState := currentState;
      this.instructions := instructions;
      this.tape := tape;
      this.currentPosition := 0;
      this.time := 0;
      this.history := [];
      this.halt := false;
      this.displacementCounter := 0;
      this.currentInstruction := None;
    }

    constructor AtPosition(currentState: State, currentPosition: int, tape: Tape, instructions: seq<Instruction>)
      requires 0 <= currentPosition < tape.values.Length
      ensures Valid() && this.tape == tape && this.instructions == instructions
      ensures Snapshot() == Semantics.Initial(tape.values[..], currentState, currentPosition)
      ensures history == [] && currentInstruction == None
    {
      this.currentState := currentState;
      this.currentPosition := currentPosition;
      this.tape := tape;
      this.instructions := instructions;
      this.time := 0;
      this.history := [];
      this.halt := false;
      this.displacementCounter := 0;
      this.currentInstruction := None;
    }

    constructor AtPositionWithoutTable(currentState: State, currentPosition: int, tape: Tape)
      requires 0 <= currentPosition < tape.values.Length
      ensures Valid() && this.tape == tape && instructions == []
      ensures Snapshot() == Semantics.Initial(tape.values[..], currentState, currentPosition)
      ensures history == [] && currentInstruction == None
    {
      this.currentState := currentState;
      this.history := [];
      this.time := 0;
      this.currentPosition := currentPosition;
      this.tape := tape;
      this.instructions := [];
      this.displacementCounter := 0;
      this.halt := false;
      this.currentInstruction := None;
    }

    constructor WithoutTable(currentState: State, tape: Tape)
      requires tape.values.Length > 0
      ensures Valid() && this.tape == tape && instructions == []
      ensures Snapshot() == Semantics.Initial(tape.values[..], currentState, 0)
      ensures history == [] && currentInstruction == None
    {
      this.currentState := currentState;
      this.history := [];
      this.tape := tape;
      this.instructions := [];
      this.currentPosition := 0;
      this.time := 0;
      this.displacementCounter := 0;
      this.halt := false;
      this.currentInstruction := None;
    }

    /** Replaces the instruction table; nothing else changes. */
    method SetInstructions(instructions: seq<Instruction>)
      modifies this`instructions
      ensures this.instructions == instructions
    {
      this.instructions := instructions;
    }

    /** Scans the whole table in order, keeping the last entry that matches;
        on a miss raises the halt flag and reports the not-found condition. */
    method GetInstruction(state: State, val: char) returns (r: LookupResult)
      modifies this`halt
      ensures r == Semantics.Lookup(instructions, state, val)
      ensures halt == (old(halt) || r.InstructionNotFound?)
    {
      var inst: Option<Instruction> := None;
      for i := 0 to |instructions|
        invariant inst.None? <==> Semantics.LastMatch(instructions, state, val, i).None?
        invariant inst.Some? ==> inst.value == instructions[Semantics.LastMatch(instructions, state, val, i).value]
      {
        if instructions[i].oldState == state && instructions[i].givenSymbol == val {
          inst := Some(instructions[i]);
        }
      }
      if inst.None? {
        halt := true;
        r := InstructionNotFound(NotFoundMessage(state, val));
      } else {
        r := Found(inst.value);
      }
    }

    /** Writes, moves (growing the tape first when the head would leave it),
        changes state, counts the step, latches halt and records the tape. */
    method ExecuteInstruction(instruction: Instruction)
      requires Valid()
      modifies this, tape, tape.values
      ensures Valid() && tape == old(tape) && instructions == old(instructions)
      ensures Snapshot() == Semantics.Execute(old(Snapshot()), instruction)
      ensures tape.values == old(tape.values) || fresh(tape.values)
      ensures history == old(history) + [tape.values]
      ensures currentInstruction == Some(instruction)
    {
      ghost var before := Snapshot();
      currentInstruction := Some(instruction);
      tape.Write(currentPosition + displacementCounter, instruction.writeSymbol);
      ghost var written := Snapshot();
      assert written == before.(cells := before.cells[before.Head() := instruction.writeSymbol]);
      MoveHead(instruction.direction);
      currentState := instruction.newState;
      time := time + 1;
      if instruction.halt {
        halt := true;
      }
      var snapshot := tape.GetValues();
      history := history + [snapshot];
    }

    /** The head movement of executeInstruction: unless halted, L and R move
        the head one cell, first growing the tape by a blank when the head is
        on its first (for L) or last (for R) cell; C stays. */
    method MoveHead(direction: HeadDirection)
      requires Valid()
      modifies this, tape
      ensures Valid() && tape == old(tape) && (tape.values == old(tape.values) || fresh(tape.values))
      ensures currentState == old(currentState) && time == old(time) && halt == old(halt)
      ensures history == old(history) && instructions == old(instructions)
      ensures currentInstruction == old(currentInstruction)
      ensures var c := old(Snapshot());
              && tape.values[..] == (if Semantics.GrowsLeft(c, direction) then [Blank] + c.cells
                                     else if Semantics.GrowsRight(c, direction) then c.cells + [Blank]
                                     else c.cells)
              && currentPosition == c.position + Semantics.Move(direction, c.halted)
              && displacementCounter == c.displacement + (if Semantics.GrowsLeft(c, direction) then 1 else 0)
    {
      if direction == L && !halt {
        if currentPosition + displacementCounter == 0 {
          tape.ExpandOnLeft();
          displacementCounter := displacementCounter + 1;
        }
        currentPosition := currentPosition - 1;
      } else if direction == R && !halt {
        if currentPosition + displacementCounter == tape.GetLength() - 1 {
          tape.ExpandOnRight();
        }
        currentPosition := currentPosition + 1;
      }
    }

    /** Reads the head cell, looks up and executes; a miss only halts. */
    method Step()
      requires Valid()
      modifies this, tape, tape.values
      ensures Valid() && tape == old(tape) && instructions == old(instructions)
      ensures Snapshot() == Semantics.Step(instructions, old(Snapshot()))
      ensures tape.values == old(tape.values) || fresh(tape.values)
      ensures history == old(history) || history == old(history) + [tape.values]
    {
      var val := tape.GetValue(currentPosition + displacementCounter);
      var r := GetInstruction(currentState, val);
      if r.Found? {
        ExecuteInstruction(r.instruction);
      }
    }

    /** run, cut off after at most `fuel` steps. */
    method Run(fuel: nat)
      requires Valid()
      modifies this, tape, tape.values
      ensures Valid() && tape == old(tape) && instructions == old(instructions)
      ensures Snapshot() == Semantics.Run(instructions, old(Snapshot()), fuel)
      ensures tape.values == old(tape.values) || fresh(tape.values)
      ensures old(history) <= history
    {
      var n := 0;
      while !halt && n < fuel
        invariant Valid() && tape == old(tape) && instructions == old(instructions)
        invariant 0 <= n <= fuel
        invariant Semantics.Run(instructions, Snapshot(), fuel - n) == Semantics.Run(instructions, old(Snapshot()), fuel)
        invariant tape.values == old(tape.values) || fresh(tape.values)
        invariant old(history) <= history
        decreases fuel - n
      {
        Step();
        n := n + 1;
      }
    }

    /** stepBack first reads history entry `time`, which is always one past
        the last entry, so it fails before it changes anything. */
    method StepBack() returns (r: StepBackOutcome)
      requires Valid()
      ensures r.index == time && r.size == |history|
      ensures !(0 <= r.index < r.size)
    {
      r := IndexOutOfBounds(time, |history|);
    }
  }
}
