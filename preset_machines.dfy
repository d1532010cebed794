// The three preset machines as the engine builds them: each preset is a
// TuringMachine started in its initial state on cell 0 of the given tape
// with the preset's table installed, and running it to completion leaves
// what the Presets and Addition lemmas say.

module PresetMachines {
  import opened Tapes
  import opened Semantics
  import opened Presets
  import opened Addition
  import opened Machines

  /** A fresh tape whose cells are `s`. */
  method TapeOf(s: seq<char>) returns (t: Tape)
    ensures fresh(t) && fresh(t.values) && t.values[..] == s
  {
    var values := new char[|s|](i requires 0 <= i < |s| => s[i]);
    t := new Tape(values);
  }

  /** ParityMachine(tape): state "even", head on cell 0, the parity table. */
  method ParityMachine(tape: Tape) returns (m: TuringMachine)
    requires tape.values.Length > 0
    ensures fresh(m) && m.Valid() && m.tape == tape && m.instructions == ParityTable
    ensures m.Snapshot() == Initial(tape.values[..], Even, 0) && m.history == []
  {
    m := new TuringMachine.WithoutTable(Even, tape);
    m.SetInstructions(ParityTable);
  }

  /** BitFlipper(tape): state "Initial", head on cell 0, the flipper table. */
  method BitFlipper(tape: Tape) returns (m: TuringMachine)
    requires tape.values.Length > 0
    ensures fresh(m) && m.Valid() && m.tape == tape && m.instructions == BitFlipperTable
    ensures m.Snapshot() == Initial(tape.values[..], Start, 0) && m.history == []
  {
    m := new TuringMachine.WithoutTable(Start, tape);
    m.SetInstructions(BitFlipperTable);
  }

  /** UnaryAdder(tape): state "Initial", head on cell 0, the adder table. */
  method UnaryAdder(tape: Tape) returns (m: TuringMachine)
    requires tape.values.Length > 0
    ensures fresh(m) && m.Valid() && m.tape == tape && m.instructions == UnaryAdderTable
    ensures m.Snapshot() == Initial(tape.values[..], Start, 0) && m.history == []
  {
    m := new TuringMachine.WithoutTable(Start, tape);
    m.SetInstructions(UnaryAdderTable);
  }

  /** Builds a ParityMachine on w ++ "*" and runs it: it halts after |w| + 1
      steps with the '*' replaced by the parity mark. */
  method RunParityMachine(w: seq<char>) returns (result: seq<char>, steps: int, halted: bool)
    requires IsBits(w)
    ensures result == w + [ParityMark(w)] && steps == |w| + 1 && halted
  {
    var tape := TapeOf(w + ['*']);
    var m := ParityMachine(tape);
    m.Run(|w| + 1);
    ParityMachineComputesParity(w, |w| + 1);
    result := m.tape.values[..];
    steps := m.time;
    halted := m.halt;
  }

  /** Builds a BitFlipper on '*' w '*' and runs it: it halts after
      2|w| + 3 steps with every bit flipped. */
  method RunBitFlipper(w: seq<char>) returns (result: seq<char>, steps: int, halted: bool)
    requires IsBits(w)
    ensures result == FlipperTape(Flip(w)) && steps == 2 * |w| + 3 && halted
  {
    var tape := TapeOf(FlipperTape(w));
    var m := BitFlipper(tape);
    m.Run(2 * |w| + 3);
    BitFlipperFlipsBits(w, 2 * |w| + 3);
    result := m.tape.values[..];
    steps := m.time;
    halted := m.halt;
  }

  /** Builds a UnaryAdder on '*' 1^a '+' 1^b '=' and runs it: it halts
      after AdderSteps(a, b) steps with 1^(a + b) after the '='. */
  method RunUnaryAdder(a: nat, b: nat) returns (result: seq<char>, steps: int, halted: bool)
    ensures result == AdderInput(a, b) + Ones(a + b) && steps == AdderSteps(a, b) && halted
  {
    var tape := TapeOf(AdderInput(a, b));
    var m := UnaryAdder(tape);
    m.Run(AdderSteps(a, b));
    AdderComputesSum(a, b);
    result := m.tape.values[..];
    steps := m.time;
    halted := m.halt;
  }
}
