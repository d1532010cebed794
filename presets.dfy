// The three preset machines: their constant instruction tables and what
// running the engine on each of them computes.

module Presets {
  import opened Instructions
  import opened Semantics

  // States, compared by name: a table built from State("even") matches a
  // machine started in another State("even").
  const Even := State("even")
  const Odd := State("odd")
  const ParityHalt := State("halt")
  const Start := State("Initial")
  const GoRight := State("GoRight")
  const GoLeft := State("GoLeft")
  const Halt := State("Halt")
  const FindOnes := State("FindOnes")
  const WriteOnes := State("WriteOnes")
  const FindEquals := State("FindEquals")
  const ReplaceZeroesLeft := State("ReplaceZeroesLeft")
  const FindOnesLeft := State("FindOnesLeft")
  const ReplaceZeroes := State("ReplaceZeroes")

  /** ParityMachine: marks the '*' ending a string of bits with 'e' or 'o'
      according to the parity of its number of '1's. */
  const ParityTable: seq<Instruction> := [
    Instruction(Even, '0', Even, '0', R, false),
    Instruction(Even, '1', Odd, '1', R, false),
    Instruction(Even, '*', ParityHalt, 'e', C, true),
    Instruction(Odd, '0', Odd, '0', R, false),
    Instruction(Odd, '1', Even, '1', R, false),
    Instruction(Odd, '*', ParityHalt, 'o', C, true)
  ]

  /** BitFlipper: walks right over '*' bits '*', then back left flipping
      every bit, and halts on the left marker. */
  const BitFlipperTable: seq<Instruction> := [
    Instruction(Start, '0', GoRight, '0', R, false),
    Instruction(Start, '1', GoRight, '1', R, false),
    Instruction(Start, '*', GoRight, '*', R, false),
    Instruction(GoRight, '0', GoRight, '0', R, false),
    Instruction(GoRight, '1', GoRight, '1', R, false),
    Instruction(GoRight, '*', GoLeft, '*', L, false),
    Instruction(GoLeft, '0', GoLeft, '1', L, false),
    Instruction(GoLeft, '1', GoLeft, '0', L, false),
    Instruction(GoLeft, '*', Halt, '*', C, true)
  ]

  // UnaryAdder: on '*' ones '+' ones '=' writes the sum in unary. Its table
  // lists the entries state by state; each block below is one state's run of
  // entries, in the table's order.
  const AdderStart: seq<Instruction> := [
    Instruction(Start, '*', FindOnes, '*', R, false)
  ]
  const AdderFindOnes: seq<Instruction> := [
    Instruction(FindOnes, '1', WriteOnes, '0', R, false),
    Instruction(FindOnes, '+', FindOnes, '+', R, false),
    Instruction(FindOnes, '0', FindOnes, '0', R, false),
    Instruction(FindOnes, '=', Halt, '=', C, true),
    Instruction(FindOnes, '-', ReplaceZeroesLeft, '-', L, false)
  ]
  const AdderWriteOnes: seq<Instruction> := [
    Instruction(WriteOnes, '1', WriteOnes, '1', R, false),
    Instruction(WriteOnes, '+', WriteOnes, '+', R, false),
    Instruction(WriteOnes, '=', WriteOnes, '=', R, false),
    Instruction(WriteOnes, '0', WriteOnes, '0', R, false),
    Instruction(WriteOnes, '-', FindEquals, '1', L, false)
  ]
  const AdderFindEquals: seq<Instruction> := [
    Instruction(FindEquals, '1', FindEquals, '1', L, false),
    Instruction(FindEquals, '=', FindOnesLeft, '=', L, false)
  ]
  const AdderFindOnesLeft: seq<Instruction> := [
    Instruction(FindOnesLeft, '*', ReplaceZeroes, '*', R, false),
    Instruction(FindOnesLeft, '0', FindOnesLeft, '0', L, false),
    Instruction(FindOnesLeft, '=', FindOnesLeft, '=', L, false),
    Instruction(FindOnesLeft, '1', WriteOnes, '0', R, false),
    Instruction(FindOnesLeft, '+', FindOnesLeft, '+', L, false)
  ]
  const AdderReplaceZeroesLeft: seq<Instruction> := [
    Instruction(ReplaceZeroesLeft, '*', Halt, '*', C, true),
    Instruction(ReplaceZeroesLeft, '0', ReplaceZeroesLeft, '1', L, false),
    Instruction(ReplaceZeroesLeft, '=', ReplaceZeroesLeft, '=', L, false),
    Instruction(ReplaceZeroesLeft, '1', ReplaceZeroesLeft, '1', L, false),
    Instruction(ReplaceZeroesLeft, '+', ReplaceZeroesLeft, '+', L, false)
  ]
  const AdderReplaceZeroes: seq<Instruction> := [
    Instruction(ReplaceZeroes, '-', Halt, '-', C, true),
    Instruction(ReplaceZeroes, '0', ReplaceZeroes, '1', R, false),
    Instruction(ReplaceZeroes, '=', Halt, '=', C, true),
    Instruction(ReplaceZeroes, '1', ReplaceZeroes, '1', R, false),
    Instruction(ReplaceZeroes, '+', ReplaceZeroes, '+', R, false)
  ]

  const UnaryAdderTable: seq<Instruction> :=
    AdderStart + AdderFindOnes + AdderWriteOnes + AdderFindEquals
    + AdderFindOnesLeft + AdderReplaceZeroesLeft + AdderReplaceZeroes

  /** No preset table has two entries for one (state, symbol) pair, so the
      last match the engine picks is the only one. */
  lemma ParityTableDeterministic()
    ensures Deterministic(ParityTable)
  {
  }

  lemma BitFlipperTableDeterministic()
    ensures Deterministic(BitFlipperTable)
  {
  }

  lemma UnaryAdderTableDeterministic()
    ensures Deterministic(UnaryAdderTable)
  {
    var t := AdderStart;
    DeterministicAppend(t, AdderFindOnes, FindOnes);
    t := t + AdderFindOnes;
    DeterministicAppend(t, AdderWriteOnes, WriteOnes);
    t := t + AdderWriteOnes;
    DeterministicAppend(t, AdderFindEquals, FindEquals);
    t := t + AdderFindEquals;
    DeterministicAppend(t, AdderFindOnesLeft, FindOnesLeft);
    t := t + AdderFindOnesLeft;
    DeterministicAppend(t, AdderReplaceZeroesLeft, ReplaceZeroesLeft);
    t := t + AdderReplaceZeroesLeft;
    DeterministicAppend(t, AdderReplaceZeroes, ReplaceZeroes);
  }

  /** Every entry of the UnaryAdder table is the one the engine finds for
      its own (state, symbol) pair. */
  lemma UnaryAdderLookup(i: nat)
    requires i < |UnaryAdderTable|
    ensures Lookup(UnaryAdderTable, UnaryAdderTable[i].oldState, UnaryAdderTable[i].givenSymbol)
         == Found(UnaryAdderTable[i])
  {
    UnaryAdderTableDeterministic();
    DeterministicLookup(UnaryAdderTable, i);
  }

  // ---------------------------------------------------------------------
  // ParityMachine

  predicate IsBits(w: seq<char>) {
    forall i :: 0 <= i < |w| ==> w[i] == '0' || w[i] == '1'
  }

  function CountOnes(w: seq<char>): nat {
    if w == [] then 0
    else CountOnes(w[..|w| - 1]) + (if w[|w| - 1] == '1' then 1 else 0)
  }

  function ParityState(w: seq<char>): State {
    if CountOnes(w) % 2 == 0 then Even else Odd
  }

  function ParityMark(w: seq<char>): char {
    if CountOnes(w) % 2 == 0 then 'e' else 'o'
  }

  /** The parity machine after reading the first `k` bits of `w`: nothing
      written changed, head on bit k, state even exactly when those bits
      hold an even number of '1's. */
  function ParityAt(w: seq<char>, k: nat): (c: Config)
    requires k <= |w|
    ensures c.Valid()
  {
    Config(w + ['*'], k, 0, ParityState(w[..k]), k, false)
  }

  /** Where the parity machine stops: the '*' replaced by the parity mark,
      the bits untouched, head on the last cell, state halt. */
  function ParityFinal(w: seq<char>): Config {
    Config(w + [ParityMark(w)], |w|, 0, ParityHalt, |w| + 1, true)
  }

  lemma ParityStepOnBit(w: seq<char>, k: nat)
    requires IsBits(w) && k < |w|
    ensures Step(ParityTable, ParityAt(w, k)) == ParityAt(w, k + 1)
  {
    var c := ParityAt(w, k);
    assert c.cells[k] == w[k];
    assert c.cells[k := w[k]] == c.cells;
    assert w[..k + 1][..k] == w[..k];
    ParityTableDeterministic();
    if w[k] == '0' {
      if c.state == Even {
        DeterministicLookup(ParityTable, 0);
      } else {
        DeterministicLookup(ParityTable, 3);
      }
    } else {
      if c.state == Even {
        DeterministicLookup(ParityTable, 1);
      } else {
        DeterministicLookup(ParityTable, 4);
      }
    }
  }

  lemma ParityStepOnMarker(w: seq<char>)
    ensures Step(ParityTable, ParityAt(w, |w|)) == ParityFinal(w)
  {
    var c := ParityAt(w, |w|);
    assert w[..|w|] == w;
    assert c.cells[|w|] == '*';
    assert c.cells[|w| := ParityMark(w)] == w + [ParityMark(w)];
    ParityTableDeterministic();
    if c.state == Even {
      DeterministicLookup(ParityTable, 2);
    } else {
      DeterministicLookup(ParityTable, 5);
    }
  }

  /** The loop invariant of the parity machine: after k steps on
      w ++ "*", it is in ParityAt(w, k). */
  lemma {:induction false} ParityPrefix(w: seq<char>, k: nat)
    requires IsBits(w) && k <= |w|
    ensures Run(ParityTable, Initial(w + ['*'], Even, 0), k) == ParityAt(w, k)
  {
    var c0 := Initial(w + ['*'], Even, 0);
    if k == 0 {
      assert w[..0] == [];
    } else {
      ParityPrefix(w, k - 1);
      RunSnoc(ParityTable, c0, k - 1);
      ParityStepOnBit(w, k - 1);
    }
  }

  /** ParityMachine on w ++ "*" halts after exactly |w| + 1 steps with the
      '*' replaced by 'e' or 'o' by the parity of the '1's in w, every bit
      of w unchanged, the tape not grown and the head on the last cell. */
  lemma ParityMachineComputesParity(w: seq<char>, fuel: nat)
    requires IsBits(w) && fuel >= |w| + 1
    ensures Run(ParityTable, Initial(w + ['*'], Even, 0), fuel) == ParityFinal(w)
  {
    var c0 := Initial(w + ['*'], Even, 0);
    ParityPrefix(w, |w|);
    RunSnoc(ParityTable, c0, |w|);
    ParityStepOnMarker(w);
    RunHaltedStable(ParityTable, c0, |w| + 1, fuel);
  }

  // ---------------------------------------------------------------------
  // BitFlipper

  function FlipBit(b: char): char {
    if b == '0' then '1' else if b == '1' then '0' else b
  }

  function Flip(w: seq<char>): (r: seq<char>)
    ensures |r| == |w|
  {
    if w == [] then [] else [FlipBit(w[0])] + Flip(w[1..])
  }

  /** Flip changes every '0' into '1' and every '1' into '0'. */
  lemma {:induction false} FlipAt(w: seq<char>, i: nat)
    requires i < |w|
    ensures Flip(w)[i] == FlipBit(w[i])
    ensures w[i] == '0' ==> Flip(w)[i] == '1'
    ensures w[i] == '1' ==> Flip(w)[i] == '0'
  {
    if i > 0 {
      FlipAt(w[1..], i - 1);
    }
  }

  function FlipperTape(w: seq<char>): seq<char> {
    ['*'] + w + ['*']
  }

  /** Walking right over the bits: head on cell p, nothing changed. */
  function FlipperRightAt(w: seq<char>, p: nat): (c: Config)
    requires 1 <= p <= |w| + 1
    ensures c.Valid()
  {
    Config(FlipperTape(w), p, 0, GoRight, p, false)
  }

  /** Walking back left: head on cell p, the bits right of it flipped. */
  function FlipperLeftAt(w: seq<char>, p: nat): (c: Config)
    requires p <= |w|
    ensures c.Valid()
  {
    Config(['*'] + w[..p] + Flip(w[p..]) + ['*'], p, 0, GoLeft, 2 * |w| + 2 - p, false)
  }

  function FlipperFinal(w: seq<char>): Config {
    Config(FlipperTape(Flip(w)), 0, 0, Halt, 2 * |w| + 3, true)
  }

  lemma FlipperFirstStep(w: seq<char>)
    ensures Step(BitFlipperTable, Initial(FlipperTape(w), Start, 0)) == FlipperRightAt(w, 1)
  {
    var c := Initial(FlipperTape(w), Start, 0);
    assert c.cells[0] == '*';
    assert c.cells[0 := '*'] == c.cells;
    BitFlipperTableDeterministic();
    DeterministicLookup(BitFlipperTable, 2);
  }

  lemma FlipperRightStep(w: seq<char>, p: nat)
    requires IsBits(w) && 1 <= p <= |w|
    ensures Step(BitFlipperTable, FlipperRightAt(w, p)) == FlipperRightAt(w, p + 1)
  {
    var c := FlipperRightAt(w, p);
    assert c.cells[p] == w[p - 1];
    assert c.cells[p := w[p - 1]] == c.cells;
    BitFlipperTableDeterministic();
    if w[p - 1] == '0' {
      DeterministicLookup(BitFlipperTable, 3);
    } else {
      DeterministicLookup(BitFlipperTable, 4);
    }
  }

  lemma FlipperTurn(w: seq<char>)
    ensures Step(BitFlipperTable, FlipperRightAt(w, |w| + 1)) == FlipperLeftAt(w, |w|)
  {
    var c := FlipperRightAt(w, |w| + 1);
    assert c.cells[|w| + 1] == '*';
    assert c.cells[|w| + 1 := '*'] == c.cells;
    assert w[..|w|] == w && w[|w|..] == [];
    assert c.cells == ['*'] + w[..|w|] + Flip(w[|w|..]) + ['*'];
    BitFlipperTableDeterministic();
    DeterministicLookup(BitFlipperTable, 5);
  }

  lemma FlipperLeftStep(w: seq<char>, p: nat)
    requires IsBits(w) && 1 <= p <= |w|
    ensures Step(BitFlipperTable, FlipperLeftAt(w, p)) == FlipperLeftAt(w, p - 1)
  {
    var c := FlipperLeftAt(w, p);
    var b := w[p - 1];
    assert w[..p] == w[..p - 1] + [b];
    assert w[p - 1..][1..] == w[p..];
    assert Flip(w[p - 1..]) == [FlipBit(b)] + Flip(w[p..]);
    assert c.cells == ['*'] + w[..p - 1] + [b] + Flip(w[p..]) + ['*'];
    assert c.cells[p] == b;
    assert c.cells[p := FlipBit(b)] == ['*'] + w[..p - 1] + Flip(w[p - 1..]) + ['*'];
    BitFlipperTableDeterministic();
    if b == '0' {
      DeterministicLookup(BitFlipperTable, 6);
    } else {
      DeterministicLookup(BitFlipperTable, 7);
    }
  }

  lemma FlipperLastStep(w: seq<char>)
    ensures Step(BitFlipperTable, FlipperLeftAt(w, 0)) == FlipperFinal(w)
  {
    var c := FlipperLeftAt(w, 0);
    assert w[..0] == [] && w[0..] == w;
    assert c.cells[0] == '*';
    assert c.cells[0 := '*'] == c.cells;
    BitFlipperTableDeterministic();
    DeterministicLookup(BitFlipperTable, 8);
  }

  lemma {:induction false} FlipperRightPhase(w: seq<char>, p: nat)
    requires IsBits(w) && 1 <= p <= |w| + 1
    ensures Run(BitFlipperTable, Initial(FlipperTape(w), Start, 0), p) == FlipperRightAt(w, p)
  {
    var c0 := Initial(FlipperTape(w), Start, 0);
    if p == 1 {
      RunSnoc(BitFlipperTable, c0, 0);
      FlipperFirstStep(w);
    } else {
      FlipperRightPhase(w, p - 1);
      RunSnoc(BitFlipperTable, c0, p - 1);
      FlipperRightStep(w, p - 1);
    }
  }

  lemma {:induction false} FlipperLeftPhase(w: seq<char>, q: nat)
    requires IsBits(w) && q <= |w|
    ensures Run(BitFlipperTable, Initial(FlipperTape(w), Start, 0), |w| + 2 + q) == FlipperLeftAt(w, |w| - q)
  {
    var c0 := Initial(FlipperTape(w), Start, 0);
    if q == 0 {
      FlipperRightPhase(w, |w| + 1);
      RunSnoc(BitFlipperTable, c0, |w| + 1);
      FlipperTurn(w);
    } else {
      FlipperLeftPhase(w, q - 1);
      RunSnoc(BitFlipperTable, c0, |w| + 1 + q);
      FlipperLeftStep(w, |w| - q + 1);
    }
  }

  /** BitFlipper on '*' w '*' halts after exactly 2|w| + 3 steps with every
      bit of w flipped, both markers kept, the tape not grown, and the head
      back on cell 0 in state Halt. */
  lemma BitFlipperFlipsBits(w: seq<char>, fuel: nat)
    requires IsBits(w) && fuel >= 2 * |w| + 3
    ensures Run(BitFlipperTable, Initial(FlipperTape(w), Start, 0), fuel) == FlipperFinal(w)
  {
    var c0 := Initial(FlipperTape(w), Start, 0);
    FlipperLeftPhase(w, |w|);
    RunSnoc(BitFlipperTable, c0, 2 * |w| + 2);
    FlipperLastStep(w);
    RunHaltedStable(BitFlipperTable, c0, 2 * |w| + 3, fuel);
  }
}
