// The expansion check of the repository's demo program: a machine that
// walks right to the '2', overwrites everything to its left with '2' until
// it steps off the left end (the tape grows on the left), then walks right
// until it steps off the right end (the tape grows on the right) and writes
// an 'x' there.

module ExpansionDemo {
  import opened Instructions
  import opened Tapes
  import opened Semantics
  import opened Presets
  import opened Machines

  const FindTwo := State("FindTwo")
  const Overwrite := State("Overwrite")
  /** The demo's own spelling, trailing blank included. */
  const WriteOneRight := State("WriteOneRight ")

  const ExpansionTable: seq<Instruction> := [
    Instruction(Start, '1', FindTwo, '1', R, false),
    Instruction(FindTwo, '0', FindTwo, '0', R, false),
    Instruction(FindTwo, '1', FindTwo, '1', R, false),
    Instruction(FindTwo, '2', Overwrite, '2', L, false),
    Instruction(Overwrite, '1', Overwrite, '2', L, false),
    Instruction(Overwrite, '0', Overwrite, '2', L, false),
    Instruction(Overwrite, '-', WriteOneRight, '2', R, false),
    Instruction(WriteOneRight, '2', WriteOneRight, '2', R, false),
    Instruction(WriteOneRight, '-', Halt, 'x', C, true)
  ]

  lemma ExpansionTableDeterministic()
    ensures Deterministic(ExpansionTable)
  {
  }


  /** The first three steps: the start state reads the leading '1' and the walk right begins. */
  lemma StartsRight(t0: nat)
    ensures Run(ExpansionTable, Config("101102", 0, 0, Start, t0, false), 3)
         == Config("101102", 3, 0, FindTwo, t0 + 3, false)
  {
    ExpansionTableDeterministic();
    Fires(ExpansionTable, Config("101102", 0, 0, Start, t0, false), 0,
          Config("101102", 1, 0, FindTwo, t0 + 1, false));
    Fires(ExpansionTable, Config("101102", 1, 0, FindTwo, t0 + 1, false), 1,
          Config("101102", 2, 0, FindTwo, t0 + 2, false));
    Fires(ExpansionTable, Config("101102", 2, 0, FindTwo, t0 + 2, false), 2,
          Config("101102", 3, 0, FindTwo, t0 + 3, false));
    StepThenRun(ExpansionTable, Config("101102", 2, 0, FindTwo, t0 + 2, false), Config("101102", 3, 0, FindTwo, t0 + 3, false), 0, Config("101102", 3, 0, FindTwo, t0 + 3, false), 1);
    StepThenRun(ExpansionTable, Config("101102", 1, 0, FindTwo, t0 + 1, false), Config("101102", 2, 0, FindTwo, t0 + 2, false), 1, Config("101102", 3, 0, FindTwo, t0 + 3, false), 2);
    StepThenRun(ExpansionTable, Config("101102", 0, 0, Start, t0, false), Config("101102", 1, 0, FindTwo, t0 + 1, false), 2, Config("101102", 3, 0, FindTwo, t0 + 3, false), 3);
  }

  /** The walk reaches the '2' and turns onto the cell before it. */
  lemma TurnsAtTheTwo(t0: nat)
    ensures Run(ExpansionTable, Config("101102", 3, 0, FindTwo, t0 + 3, false), 3)
         == Config("101102", 4, 0, Overwrite, t0 + 6, false)
  {
    ExpansionTableDeterministic();
    Fires(ExpansionTable, Config("101102", 3, 0, FindTwo, t0 + 3, false), 2,
          Config("101102", 4, 0, FindTwo, t0 + 4, false));
    Fires(ExpansionTable, Config("101102", 4, 0, FindTwo, t0 + 4, false), 1,
          Config("101102", 5, 0, FindTwo, t0 + 5, false));
    Fires(ExpansionTable, Config("101102", 5, 0, FindTwo, t0 + 5, false), 3,
          Config("101102", 4, 0, Overwrite, t0 + 6, false));
    StepThenRun(ExpansionTable, Config("101102", 5, 0, FindTwo, t0 + 5, false), Config("101102", 4, 0, Overwrite, t0 + 6, false), 0, Config("101102", 4, 0, Overwrite, t0 + 6, false), 1);
    StepThenRun(ExpansionTable, Config("101102", 4, 0, FindTwo, t0 + 4, false), Config("101102", 5, 0, FindTwo, t0 + 5, false), 1, Config("101102", 4, 0, Overwrite, t0 + 6, false), 2);
    StepThenRun(ExpansionTable, Config("101102", 3, 0, FindTwo, t0 + 3, false), Config("101102", 4, 0, FindTwo, t0 + 4, false), 2, Config("101102", 4, 0, Overwrite, t0 + 6, false), 3);
  }

  /** Overwriting leftwards, first two cells. */
  lemma OverwritesTwo(t0: nat)
    ensures Run(ExpansionTable, Config("101102", 4, 0, Overwrite, t0 + 6, false), 3)
         == Config("102222", 1, 0, Overwrite, t0 + 9, false)
  {
    ExpansionTableDeterministic();
    Fires(ExpansionTable, Config("101102", 4, 0, Overwrite, t0 + 6, false), 5,
          Config("101122", 3, 0, Overwrite, t0 + 7, false));
    Fires(ExpansionTable, Config("101122", 3, 0, Overwrite, t0 + 7, false), 4,
          Config("101222", 2, 0, Overwrite, t0 + 8, false));
    Fires(ExpansionTable, Config("101222", 2, 0, Overwrite, t0 + 8, false), 4,
          Config("102222", 1, 0, Overwrite, t0 + 9, false));
    StepThenRun(ExpansionTable, Config("101222", 2, 0, Overwrite, t0 + 8, false), Config("102222", 1, 0, Overwrite, t0 + 9, false), 0, Config("102222", 1, 0, Overwrite, t0 + 9, false), 1);
    StepThenRun(ExpansionTable, Config("101122", 3, 0, Overwrite, t0 + 7, false), Config("101222", 2, 0, Overwrite, t0 + 8, false), 1, Config("102222", 1, 0, Overwrite, t0 + 9, false), 2);
    StepThenRun(ExpansionTable, Config("101102", 4, 0, Overwrite, t0 + 6, false), Config("101122", 3, 0, Overwrite, t0 + 7, false), 2, Config("102222", 1, 0, Overwrite, t0 + 9, false), 3);
  }

  /** Overwriting the last two cells; stepping off cell 0 grows the tape on the left. */
  lemma StepsOffLeftEnd(t0: nat)
    ensures Run(ExpansionTable, Config("102222", 1, 0, Overwrite, t0 + 9, false), 3)
         == Config("2222222", 0, 1, WriteOneRight, t0 + 12, false)
  {
    ExpansionTableDeterministic();
    Fires(ExpansionTable, Config("102222", 1, 0, Overwrite, t0 + 9, false), 5,
          Config("122222", 0, 0, Overwrite, t0 + 10, false));
    Fires(ExpansionTable, Config("122222", 0, 0, Overwrite, t0 + 10, false), 4,
          Config("-222222", -1, 1, Overwrite, t0 + 11, false));
    Fires(ExpansionTable, Config("-222222", -1, 1, Overwrite, t0 + 11, false), 6,
          Config("2222222", 0, 1, WriteOneRight, t0 + 12, false));
    StepThenRun(ExpansionTable, Config("-222222", -1, 1, Overwrite, t0 + 11, false), Config("2222222", 0, 1, WriteOneRight, t0 + 12, false), 0, Config("2222222", 0, 1, WriteOneRight, t0 + 12, false), 1);
    StepThenRun(ExpansionTable, Config("122222", 0, 0, Overwrite, t0 + 10, false), Config("-222222", -1, 1, Overwrite, t0 + 11, false), 1, Config("2222222", 0, 1, WriteOneRight, t0 + 12, false), 2);
    StepThenRun(ExpansionTable, Config("102222", 1, 0, Overwrite, t0 + 9, false), Config("122222", 0, 0, Overwrite, t0 + 10, false), 2, Config("2222222", 0, 1, WriteOneRight, t0 + 12, false), 3);
  }

  /** The blank written on the left becomes a '2' and the walk right begins. */
  lemma WalksRight(t0: nat)
    ensures Run(ExpansionTable, Config("2222222", 0, 1, WriteOneRight, t0 + 12, false), 3)
         == Config("2222222", 3, 1, WriteOneRight, t0 + 15, false)
  {
    ExpansionTableDeterministic();
    Fires(ExpansionTable, Config("2222222", 0, 1, WriteOneRight, t0 + 12, false), 7,
          Config("2222222", 1, 1, WriteOneRight, t0 + 13, false));
    Fires(ExpansionTable, Config("2222222", 1, 1, WriteOneRight, t0 + 13, false), 7,
          Config("2222222", 2, 1, WriteOneRight, t0 + 14, false));
    Fires(ExpansionTable, Config("2222222", 2, 1, WriteOneRight, t0 + 14, false), 7,
          Config("2222222", 3, 1, WriteOneRight, t0 + 15, false));
    StepThenRun(ExpansionTable, Config("2222222", 2, 1, WriteOneRight, t0 + 14, false), Config("2222222", 3, 1, WriteOneRight, t0 + 15, false), 0, Config("2222222", 3, 1, WriteOneRight, t0 + 15, false), 1);
    StepThenRun(ExpansionTable, Config("2222222", 1, 1, WriteOneRight, t0 + 13, false), Config("2222222", 2, 1, WriteOneRight, t0 + 14, false), 1, Config("2222222", 3, 1, WriteOneRight, t0 + 15, false), 2);
    StepThenRun(ExpansionTable, Config("2222222", 0, 1, WriteOneRight, t0 + 12, false), Config("2222222", 1, 1, WriteOneRight, t0 + 13, false), 2, Config("2222222", 3, 1, WriteOneRight, t0 + 15, false), 3);
  }

  /** The walk right steps off the last cell, which grows the tape on the right, and writes the 'x' there. */
  lemma WritesTheX(t0: nat)
    ensures Run(ExpansionTable, Config("2222222", 3, 1, WriteOneRight, t0 + 15, false), 4)
         == Config("2222222x", 6, 1, Halt, t0 + 19, true)
  {
    ExpansionTableDeterministic();
    Fires(ExpansionTable, Config("2222222", 3, 1, WriteOneRight, t0 + 15, false), 7,
          Config("2222222", 4, 1, WriteOneRight, t0 + 16, false));
    Fires(ExpansionTable, Config("2222222", 4, 1, WriteOneRight, t0 + 16, false), 7,
          Config("2222222", 5, 1, WriteOneRight, t0 + 17, false));
    Fires(ExpansionTable, Config("2222222", 5, 1, WriteOneRight, t0 + 17, false), 7,
          Config("2222222-", 6, 1, WriteOneRight, t0 + 18, false));
    Fires(ExpansionTable, Config("2222222-", 6, 1, WriteOneRight, t0 + 18, false), 8,
          Config("2222222x", 6, 1, Halt, t0 + 19, true));
    StepThenRun(ExpansionTable, Config("2222222-", 6, 1, WriteOneRight, t0 + 18, false), Config("2222222x", 6, 1, Halt, t0 + 19, true), 0, Config("2222222x", 6, 1, Halt, t0 + 19, true), 1);
    StepThenRun(ExpansionTable, Config("2222222", 5, 1, WriteOneRight, t0 + 17, false), Config("2222222-", 6, 1, WriteOneRight, t0 + 18, false), 1, Config("2222222x", 6, 1, Halt, t0 + 19, true), 2);
    StepThenRun(ExpansionTable, Config("2222222", 4, 1, WriteOneRight, t0 + 16, false), Config("2222222", 5, 1, WriteOneRight, t0 + 17, false), 2, Config("2222222x", 6, 1, Halt, t0 + 19, true), 3);
    StepThenRun(ExpansionTable, Config("2222222", 3, 1, WriteOneRight, t0 + 15, false), Config("2222222", 4, 1, WriteOneRight, t0 + 16, false), 3, Config("2222222x", 6, 1, Halt, t0 + 19, true), 4);
  }

  /** The first half: the tape has grown on the left and the machine turns right. */
  lemma ReachesLeftEnd(t0: nat)
    ensures Run(ExpansionTable, Config("101102", 0, 0, Start, t0, false), 12) == Config("2222222", 0, 1, WriteOneRight, t0 + 12, false)
  {
    StartsRight(t0);
    TurnsAtTheTwo(t0);
    OverwritesTwo(t0);
    StepsOffLeftEnd(t0);
    RunChain(ExpansionTable, Config("101102", 0, 0, Start, t0, false), 3, Config("101102", 3, 0, FindTwo, t0 + 3, false), 3, Config("101102", 4, 0, Overwrite, t0 + 6, false), 6);
    RunChain(ExpansionTable, Config("101102", 4, 0, Overwrite, t0 + 6, false), 3, Config("102222", 1, 0, Overwrite, t0 + 9, false), 3, Config("2222222", 0, 1, WriteOneRight, t0 + 12, false), 6);
    RunChain(ExpansionTable, Config("101102", 0, 0, Start, t0, false), 6, Config("101102", 4, 0, Overwrite, t0 + 6, false), 6, Config("2222222", 0, 1, WriteOneRight, t0 + 12, false), 12);
  }

  /** The demo machine started on cell 0 of "101102" halts after 19 steps
      with "2222222x" on a tape grown once at each end, the head on the 'x'
      (position 6 plus one left expansion). */
  lemma ExpansionRun(t0: nat)
    ensures Run(ExpansionTable, Config("101102", 0, 0, Start, t0, false), 19) == Config("2222222x", 6, 1, Halt, t0 + 19, true)
  {
    ReachesLeftEnd(t0);
    WalksRight(t0);
    WritesTheX(t0);
    RunChain(ExpansionTable, Config("2222222", 0, 1, WriteOneRight, t0 + 12, false), 3, Config("2222222", 3, 1, WriteOneRight, t0 + 15, false), 4, Config("2222222x", 6, 1, Halt, t0 + 19, true), 7);
    RunChain(ExpansionTable, Config("101102", 0, 0, Start, t0, false), 12, Config("2222222", 0, 1, WriteOneRight, t0 + 12, false), 7, Config("2222222x", 6, 1, Halt, t0 + 19, true), 19);
  }

  /** Runs a demo engine standing on cell 0 of "101102" in state "Initial"
      for 19 steps, whatever its clock shows: it halts with "2222222x". */
  method RunFromStart(m: TuringMachine)
    requires m.Valid() && m.instructions == ExpansionTable && m.tape.values[..] == "101102"
    requires m.currentPosition == 0 && m.displacementCounter == 0 && m.currentState == Start && !m.halt
    modifies m, m.tape, m.tape.values
    ensures m.Valid() && m.tape.values[..] == "2222222x" && m.time == old(m.time) + 19 && m.halt
  {
    ExpansionRun(m.time);
    m.Run(19);
  }

  /** The demo program: a machine in state "Initial" on "101102" with the
      demo table, run to completion. */
  method RunExpansionDemo() returns (result: seq<char>, steps: int, halted: bool)
    ensures result == "2222222x" && steps == 19 && halted
  {
    var values := new char[6]['1', '0', '1', '1', '0', '2'];
    var tape := new Tape(values);
    assert values[..] == "101102";
    var m := new TuringMachine.WithoutTable(Start, tape);
    m.SetInstructions(ExpansionTable);
    RunFromStart(m);
    result := m.tape.values[..];
    steps := m.time;
    halted := m.halt;
  }
}
