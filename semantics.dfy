// The step semantics of the Turing machine engine, on values: what one
// executed instruction, one step and a bounded run do to the tape, the head
// position, the displacement counter, the state, the clock and the halt flag.
// The TuringMachine class is proved to follow these functions.

module Semantics {
  import opened Instructions
  import opened Tapes

  /** A snapshot of the engine: tape contents, head position in the caller's
      coordinates, the number of left expansions so far, state, step count
      and halt flag. */
  datatype Config = Config(
    cells: seq<char>,
    position: int,
    displacement: int,
    state: State,
    time: nat,
    halted: bool)
  {
    /** The real index into `cells` of the cell under the head. */
    function Head(): int { position + displacement }

    /** The engine's central invariant: the head is on a materialised cell. */
    predicate Valid() { 0 <= displacement && 0 <= Head() < |cells| }
  }

  /** The engine before its first step: head at `position`, no expansion yet. */
  function Initial(cells: seq<char>, state: State, position: int): (c: Config)
    requires 0 <= position < |cells|
    ensures c.Valid() && c.Head() == position && c.time == 0 && !c.halted
    ensures c.cells == cells && c.state == state && c.position == position && c.displacement == 0
  {
    Config(cells, position, 0, state, 0, false)
  }

  predicate Matches(inst: Instruction, s: State, c: char) {
    inst.givenSymbol == c && inst.oldState == s
  }

  /** The index of the last of the first `n` entries of `t` whose old state
      is `s` and whose given symbol is `c`, scanning in table order. */
  function LastMatch(t: seq<Instruction>, s: State, c: char, n: nat): (r: Option<nat>)
    requires n <= |t|
    ensures r.Some? ==> r.value < n && Matches(t[r.value], s, c)
    ensures r.Some? ==> forall j :: r.value < j < n ==> !Matches(t[j], s, c)
    ensures r.None? ==> forall j :: 0 <= j < n ==> !Matches(t[j], s, c)
    decreases n
  {
    if n == 0 then None
    else if Matches(t[n - 1], s, c) then Some(n - 1)
    else LastMatch(t, s, c, n - 1)
  }

  /** getInstruction on a table: the last matching entry, or the
      not-found condition with its message. */
  function Lookup(t: seq<Instruction>, s: State, c: char): (r: LookupResult)
    ensures r.Found? <==> exists j :: 0 <= j < |t| && Matches(t[j], s, c)
    ensures r.InstructionNotFound? ==> r.message == NotFoundMessage(s, c)
  {
    match LastMatch(t, s, c, |t|)
    case Some(i) => Found(t[i])
    case None => InstructionNotFound(NotFoundMessage(s, c))
  }

  /** With duplicates, the entry with the greatest index wins. */
  lemma LookupIsLastMatch(t: seq<Instruction>, s: State, c: char, i: nat)
    requires i < |t| && Matches(t[i], s, c)
    requires forall j :: i < j < |t| ==> !Matches(t[j], s, c)
    ensures Lookup(t, s, c) == Found(t[i])
  {
    var r := LastMatch(t, s, c, |t|);
    assert r.Some? && r.value >= i;
  }

  /** How far the head moves: not at all once halted, whatever the direction. */
  function Move(d: HeadDirection, halted: bool): (m: int)
    ensures -1 <= m <= 1
    ensures m == 0 <==> halted || d == C
    ensures !halted && d == L ==> m == -1
    ensures !halted && d == R ==> m == 1
  {
    if halted then 0
    else match d
      case L => -1
      case R => 1
      case C => 0
  }

  /** Whether executing with direction `d` makes the tape grow on the left. */
  predicate GrowsLeft(c: Config, d: HeadDirection) {
    d == L && !c.halted && c.Head() == 0
  }

  /** Whether executing with direction `d` makes the tape grow on the right. */
  predicate GrowsRight(c: Config, d: HeadDirection) {
    d == R && !c.halted && c.Head() == |c.cells| - 1
  }

  /** executeInstruction: write at the head, then (unless already halted)
      grow the tape if the head would leave it and move, then change state,
      count the step and latch the halt flag. */
  function Execute(c: Config, inst: Instruction): (d: Config)
    requires c.Valid()
    ensures d.Valid()
    ensures d.state == inst.newState && d.time == c.time + 1
    ensures d.halted == (c.halted || inst.halt)
    ensures d.position == c.position + Move(inst.direction, c.halted)
    ensures d.displacement == c.displacement + (if GrowsLeft(c, inst.direction) then 1 else 0)
    ensures |d.cells| == |c.cells| + (if GrowsLeft(c, inst.direction) || GrowsRight(c, inst.direction) then 1 else 0)
  {
    var written := c.cells[c.Head() := inst.writeSymbol];
    var state, time, halted := inst.newState, c.time + 1, c.halted || inst.halt;
    if GrowsLeft(c, inst.direction) then
      Config([Blank] + written, c.position - 1, c.displacement + 1, state, time, halted)
    else if GrowsRight(c, inst.direction) then
      Config(written + [Blank], c.position + 1, c.displacement, state, time, halted)
    else
      Config(written, c.position + Move(inst.direction, c.halted), c.displacement, state, time, halted)
  }

  /** The written symbol lands at the old head cell (shifted by one if the
      tape grew on the left); every other old cell keeps its symbol at its
      (possibly shifted) index, and a new cell is blank. */
  lemma ExecuteCells(c: Config, inst: Instruction)
    requires c.Valid()
    ensures var d := Execute(c, inst);
            var shift := if GrowsLeft(c, inst.direction) then 1 else 0;
            && d.cells[c.Head() + shift] == inst.writeSymbol
            && (forall i :: 0 <= i < |c.cells| && i != c.Head() ==> d.cells[i + shift] == c.cells[i])
            && (GrowsLeft(c, inst.direction) ==> d.cells[0] == Blank)
            && (GrowsRight(c, inst.direction) ==> d.cells[|c.cells|] == Blank)
  {
  }

  /** Stepping left off index 0 prepends one blank, bumps the displacement
      and decrements the position, so the head stays on real index 0. */
  lemma LeftExpansion(c: Config, inst: Instruction)
    requires c.Valid() && !c.halted && inst.direction == L && c.Head() == 0
    ensures var d := Execute(c, inst);
            && |d.cells| == |c.cells| + 1 && d.cells[0] == Blank
            && d.cells[1..] == c.cells[0 := inst.writeSymbol]
            && d.displacement == c.displacement + 1 && d.position == c.position - 1
            && d.Head() == 0
  {
  }

  /** Stepping right off the last cell appends one blank and keeps the
      displacement, so the head lands on the old length. */
  lemma RightExpansion(c: Config, inst: Instruction)
    requires c.Valid() && !c.halted && inst.direction == R && c.Head() == |c.cells| - 1
    ensures var d := Execute(c, inst);
            && |d.cells| == |c.cells| + 1 && d.cells[|c.cells|] == Blank
            && d.cells[..|c.cells|] == c.cells[c.Head() := inst.writeSymbol]
            && d.displacement == c.displacement && d.Head() == |c.cells|
  {
  }

  /** Once halted, or with direction C, the head and the displacement stay
      and the tape does not grow; the write, state change and clock do not. */
  lemma NoMoveWhenHaltedOrCentre(c: Config, inst: Instruction)
    requires c.Valid() && (c.halted || inst.direction == C)
    ensures var d := Execute(c, inst);
            && d.position == c.position && d.displacement == c.displacement
            && d.cells == c.cells[c.Head() := inst.writeSymbol]
            && d.state == inst.newState && d.time == c.time + 1
  {
  }

  /** step: read the head cell, look the instruction up and execute it; a
      miss only raises the halt flag. */
  function Step(t: seq<Instruction>, c: Config): (d: Config)
    requires c.Valid()
    ensures d.Valid() && (c.halted ==> d.halted)
    ensures Lookup(t, c.state, c.cells[c.Head()]).InstructionNotFound? ==> d == c.(halted := true)
    ensures Lookup(t, c.state, c.cells[c.Head()]).Found? ==> d.time == c.time + 1
  {
    match Lookup(t, c.state, c.cells[c.Head()])
    case Found(inst) => Execute(c, inst)
    case InstructionNotFound(_) => c.(halted := true)
  }

  /** run, cut off after `fuel` steps: step until halted or out of fuel. */
  function Run(t: seq<Instruction>, c: Config, fuel: nat): (d: Config)
    requires c.Valid()
    ensures d.Valid()
    ensures c.halted ==> d == c
    ensures c.time <= d.time <= c.time + fuel
    ensures !d.halted ==> d.time == c.time + fuel
    decreases fuel
  {
    if c.halted || fuel == 0 then c
    else Run(t, Step(t, c), fuel - 1)
  }

  /** A run that has not halted and has fuel takes one step first. */
  lemma RunUnfold(t: seq<Instruction>, c: Config, fuel: nat)
    requires c.Valid() && !c.halted && fuel > 0
    ensures Run(t, c, fuel) == Run(t, Step(t, c), fuel - 1)
  {
  }

  /** One step of a run, when the lookup for the head cell finds `inst`
      and `next` is what executing it gives. */
  lemma RunFires(t: seq<Instruction>, c: Config, inst: Instruction, next: Config, fuel: nat)
    requires c.Valid() && !c.halted && fuel > 0
    requires Lookup(t, c.state, c.cells[c.Head()]) == Found(inst)
    requires Execute(c, inst) == next
    ensures Run(t, c, fuel) == Run(t, next, fuel - 1)
  {
  }

  /** Splitting a run: `a` steps, then `b` more. */
  lemma {:induction false} RunAdditive(t: seq<Instruction>, c: Config, a: nat, b: nat)
    requires c.Valid()
    ensures Run(t, c, a + b) == Run(t, Run(t, c, a), b)
    decreases a
  {
    if c.halted || a == 0 {
    } else {
      RunAdditive(t, Step(t, c), a - 1, b);
    }
  }

  /** A run of `n + 1` steps is a run of `n` steps followed by one step,
      when the first `n` did not halt. */
  lemma RunSnoc(t: seq<Instruction>, c: Config, n: nat)
    requires c.Valid() && !Run(t, c, n).halted
    ensures Run(t, c, n + 1) == Step(t, Run(t, c, n))
  {
    RunAdditive(t, c, n, 1);
  }

  /** Two runs back to back are one run of their total fuel. */
  lemma RunChain(t: seq<Instruction>, c: Config, a: nat, mid: Config, b: nat, d: Config, total: nat)
    requires c.Valid() && Run(t, c, a) == mid && Run(t, mid, b) == d && total == a + b
    ensures Run(t, c, total) == d
  {
    RunAdditive(t, c, a, b);
  }

  /** A run followed by one more step. */
  lemma RunThenStep(t: seq<Instruction>, c: Config, a: nat, mid: Config, d: Config, total: nat)
    requires c.Valid() && Run(t, c, a) == mid && !mid.halted && Step(t, mid) == d && total == a + 1
    ensures Run(t, c, total) == d
  {
    RunSnoc(t, c, a);
  }

  /** One step followed by a run. */
  lemma StepThenRun(t: seq<Instruction>, c: Config, next: Config, b: nat, d: Config, total: nat)
    requires c.Valid() && !c.halted && Step(t, c) == next && Run(t, next, b) == d && total == b + 1
    ensures Run(t, c, total) == d
  {
  }

  /** Once a run has halted, more fuel changes nothing. */
  lemma {:induction false} RunHaltedStable(t: seq<Instruction>, c: Config, fuel: nat, more: nat)
    requires c.Valid() && fuel <= more && Run(t, c, fuel).halted
    ensures Run(t, c, more) == Run(t, c, fuel)
  {
    RunAdditive(t, c, fuel, more - fuel);
  }

  /** In state `s` reading `x`, the entry found keeps the state, writes
      `y`, moves in `d` and does not halt. */
  predicate SweepsOver(t: seq<Instruction>, s: State, d: HeadDirection, x: char, y: char) {
    Lookup(t, s, x) == Found(Instruction(s, x, s, y, d, false))
  }

  /** In state `s` the machine sweeps over `seg` in direction `d`,
      rewriting it to `out` symbol by symbol. */
  predicate Sweeps(t: seq<Instruction>, s: State, d: HeadDirection, seg: seq<char>, out: seq<char>) {
    |out| == |seg| &&
    forall k {:trigger SweepsOver(t, s, d, seg[k], out[k])} :: 0 <= k < |seg| ==> SweepsOver(t, s, d, seg[k], out[k])
  }

  /** One step of a sweep: the entry found keeps the state and does not
      halt, and the move stays inside the tape, so the run goes on from
      `next`, the configuration with the symbol written and the head moved. */
  lemma SweepStep(t: seq<Instruction>, c: Config, w: char, d: HeadDirection, fuel: nat, next: Config)
    requires c.Valid() && !c.halted && d != C && fuel > 0
    requires SweepsOver(t, c.state, d, c.cells[c.Head()], w)
    requires !GrowsLeft(c, d) && !GrowsRight(c, d)
    requires next == c.(cells := c.cells[c.Head() := w], position := c.position + Move(d, false), time := c.time + 1)
    ensures Step(t, c) == next
    ensures Run(t, c, fuel) == Run(t, next, fuel - 1)
  {
    RunUnfold(t, c, fuel);
  }

  /** A sweep over a segment is also a sweep over either end of it. */
  lemma SweepsParts(t: seq<Instruction>, s: State, d: HeadDirection, seg: seq<char>, out: seq<char>)
    requires Sweeps(t, s, d, seg, out) && |seg| > 0
    ensures SweepsOver(t, s, d, seg[0], out[0])
    ensures SweepsOver(t, s, d, seg[|seg| - 1], out[|seg| - 1])
    ensures Sweeps(t, s, d, seg[1..], out[1..])
    ensures Sweeps(t, s, d, seg[..|seg| - 1], out[..|seg| - 1])
  {
    var n := |seg|;
    assert SweepsOver(t, s, d, seg[0], out[0]);
    assert SweepsOver(t, s, d, seg[n - 1], out[n - 1]);
    var tail, outTail := seg[1..], out[1..];
    forall k | 0 <= k < n - 1
      ensures SweepsOver(t, s, d, tail[k], outTail[k])
    {
      assert tail[k] == seg[k + 1] && outTail[k] == out[k + 1];
      assert SweepsOver(t, s, d, seg[k + 1], out[k + 1]);
    }
    var init, outInit := seg[..n - 1], out[..n - 1];
    forall k | 0 <= k < n - 1
      ensures SweepsOver(t, s, d, init[k], outInit[k])
    {
      assert init[k] == seg[k] && outInit[k] == out[k];
      assert SweepsOver(t, s, d, seg[k], out[k]);
    }
  }

  /** Writing the first symbol of `out` at h and then the rest after it
      writes all of `out` from h. */
  lemma SpliceFront(cells: seq<char>, h: nat, out: seq<char>)
    requires 0 < |out| && h + |out| <= |cells|
    ensures cells[h := out[0]][..h + 1] + out[1..] + cells[h + |out|..] == cells[..h] + out + cells[h + |out|..]
  {
    assert cells[h := out[0]][..h + 1] == cells[..h] + [out[0]];
    assert out == [out[0]] + out[1..];
  }

  /** Writing the last symbol of `out` at h and then the rest before it
      writes all of `out` so that it ends at h. */
  lemma SpliceBack(cells: seq<char>, h: nat, out: seq<char>)
    requires 0 < |out| <= h + 1 <= |cells|
    ensures cells[h := out[|out| - 1]][..h + 1 - |out|] + out[..|out| - 1] + cells[h := out[|out| - 1]][h..]
         == cells[..h + 1 - |out|] + out + cells[h + 1..]
  {
    var n := |out|;
    assert cells[h := out[n - 1]][..h + 1 - n] == cells[..h + 1 - n];
    assert cells[h := out[n - 1]][h..] == [out[n - 1]] + cells[h + 1..];
    assert out == out[..n - 1] + [out[n - 1]];
  }

  /** The configuration a rightward sweep writing `out` from the head leaves. */
  function SweptRight(c: Config, out: seq<char>): (d: Config)
    requires c.Valid() && c.Head() + |out| < |c.cells|
    ensures d.Valid() && |d.cells| == |c.cells| && d.Head() == c.Head() + |out|
  {
    c.(cells := c.cells[..c.Head()] + out + c.cells[c.Head() + |out|..],
       position := c.position + |out|, time := c.time + |out|)
  }

  /** The configuration a leftward sweep writing `out` up to the head leaves. */
  function SweptLeft(c: Config, out: seq<char>): (d: Config)
    requires c.Valid() && c.Head() - |out| >= 0
    ensures d.Valid() && |d.cells| == |c.cells| && d.Head() == c.Head() - |out|
  {
    c.(cells := c.cells[..c.Head() + 1 - |out|] + out + c.cells[c.Head() + 1..],
       position := c.position - |out|, time := c.time + |out|)
  }

  /** The first cell of a rightward sweep, then the rest of it. */
  lemma SweptRightCons(c: Config, out: seq<char>)
    requires c.Valid() && 0 < |out| && c.Head() + |out| < |c.cells|
    ensures var next := c.(cells := c.cells[c.Head() := out[0]], position := c.position + 1, time := c.time + 1);
            SweptRight(next, out[1..]) == SweptRight(c, out)
  {
    var h, n := c.Head(), |out|;
    var cells := c.cells[h := out[0]];
    SpliceFront(c.cells, h, out);
    assert SweptRight(c, out).cells == cells[..h + 1] + out[1..] + c.cells[h + n..];
  }

  /** The last cell of a leftward sweep, then the rest of it. */
  lemma SweptLeftCons(c: Config, out: seq<char>)
    requires c.Valid() && 0 < |out| && c.Head() - |out| >= 0
    ensures var next := c.(cells := c.cells[c.Head() := out[|out| - 1]], position := c.position - 1, time := c.time + 1);
            SweptLeft(next, out[..|out| - 1]) == SweptLeft(c, out)
  {
    var h, n := c.Head(), |out|;
    var cells := c.cells[h := out[n - 1]];
    SpliceBack(c.cells, h, out);
    assert SweptLeft(c, out).cells == cells[..h + 1 - n] + out[..n - 1] + cells[h..];
  }

  /** After the first step of a rightward sweep, the rest of the segment is
      under the head and the rest of the sweep still applies. */
  lemma SweepRightFirst(t: seq<Instruction>, c: Config, seg: seq<char>, out: seq<char>, next: Config)
    requires c.Valid() && |seg| > 0
    requires c.Head() + |seg| < |c.cells| && c.cells[c.Head()..c.Head() + |seg|] == seg
    requires Sweeps(t, c.state, R, seg, out)
    requires next == c.(cells := c.cells[c.Head() := out[0]], position := c.position + 1, time := c.time + 1)
    ensures SweepsOver(t, c.state, R, c.cells[c.Head()], out[0])
    ensures next.Valid() && next.state == c.state && next.halted == c.halted
    ensures next.Head() + |seg| - 1 < |next.cells|
    ensures next.cells[next.Head()..next.Head() + |seg| - 1] == seg[1..]
    ensures Sweeps(t, c.state, R, seg[1..], out[1..])
    ensures SweptRight(next, out[1..]) == SweptRight(c, out)
  {
    var h, n := c.Head(), |seg|;
    assert c.cells[h] == seg[0];
    SweepsParts(t, c.state, R, seg, out);
    assert c.cells[h := out[0]][h + 1..h + n] == seg[1..];
    SweptRightCons(c, out);
  }

  /** After the first step of a leftward sweep (at the segment's right end),
      the rest of the segment ends under the head and the rest of the sweep
      still applies. */
  lemma SweepLeftFirst(t: seq<Instruction>, c: Config, seg: seq<char>, out: seq<char>, next: Config)
    requires c.Valid() && |seg| > 0
    requires c.Head() - |seg| >= 0 && c.cells[c.Head() + 1 - |seg|..c.Head() + 1] == seg
    requires Sweeps(t, c.state, L, seg, out)
    requires next == c.(cells := c.cells[c.Head() := out[|seg| - 1]], position := c.position - 1, time := c.time + 1)
    ensures SweepsOver(t, c.state, L, c.cells[c.Head()], out[|seg| - 1])
    ensures next.Valid() && next.state == c.state && next.halted == c.halted
    ensures next.Head() - (|seg| - 1) >= 0
    ensures next.cells[next.Head() + 1 - (|seg| - 1)..next.Head() + 1] == seg[..|seg| - 1]
    ensures Sweeps(t, c.state, L, seg[..|seg| - 1], out[..|seg| - 1])
    ensures SweptLeft(next, out[..|seg| - 1]) == SweptLeft(c, out)
  {
    var h, n := c.Head(), |seg|;
    assert c.cells[h] == seg[n - 1];
    SweepsParts(t, c.state, L, seg, out);
    assert c.cells[h := out[n - 1]][h + 1 - n..h] == seg[..n - 1];
    SweptLeftCons(c, out);
  }

  /** A rightward sweep over the |seg| cells from the head on, when it
      stays inside the tape: those cells become `out`, the head moves |seg|
      cells right, and nothing else changes but the clock. */
  lemma {:induction false} SweepRight(t: seq<Instruction>, c: Config, seg: seq<char>, out: seq<char>)
    requires c.Valid() && !c.halted
    requires c.Head() + |seg| < |c.cells| && c.cells[c.Head()..c.Head() + |seg|] == seg
    requires Sweeps(t, c.state, R, seg, out)
    ensures Run(t, c, |seg|) == SweptRight(c, out)
    decreases |seg|
  {
    if |seg| == 0 {
      assert c.cells[..c.Head()] + out + c.cells[c.Head()..] == c.cells;
    } else {
      var next := c.(cells := c.cells[c.Head() := out[0]], position := c.position + 1, time := c.time + 1);
      SweepRightFirst(t, c, seg, out, next);
      SweepStep(t, c, out[0], R, |seg|, next);
      SweepRight(t, next, seg[1..], out[1..]);
    }
  }

  /** A leftward sweep over the |seg| cells ending at the head, when it
      stays inside the tape: those cells become `out` (both in tape order),
      the head moves |seg| cells left, and nothing else changes but the clock. */
  lemma {:induction false} SweepLeft(t: seq<Instruction>, c: Config, seg: seq<char>, out: seq<char>)
    requires c.Valid() && !c.halted
    requires c.Head() - |seg| >= 0 && c.cells[c.Head() + 1 - |seg|..c.Head() + 1] == seg
    requires Sweeps(t, c.state, L, seg, out)
    ensures Run(t, c, |seg|) == SweptLeft(c, out)
    decreases |seg|
  {
    var n := |seg|;
    if n == 0 {
      assert c.cells[..c.Head() + 1] + out + c.cells[c.Head() + 1..] == c.cells;
    } else {
      var next := c.(cells := c.cells[c.Head() := out[n - 1]], position := c.position - 1, time := c.time + 1);
      SweepLeftFirst(t, c, seg, out, next);
      SweepStep(t, c, out[n - 1], L, n, next);
      SweepLeft(t, next, seg[..n - 1], out[..n - 1]);
    }
  }

  /** SweepRight, for a caller that names the fuel and the result. */
  lemma SweepRightReaches(t: seq<Instruction>, c: Config, seg: seq<char>, out: seq<char>, fuel: nat, d: Config)
    requires c.Valid() && !c.halted
    requires c.Head() + |seg| < |c.cells| && c.cells[c.Head()..c.Head() + |seg|] == seg
    requires Sweeps(t, c.state, R, seg, out)
    requires fuel == |seg| && d == SweptRight(c, out)
    ensures Run(t, c, fuel) == d
  {
    SweepRight(t, c, seg, out);
  }

  /** SweepLeft, for a caller that names the fuel and the result. */
  lemma SweepLeftReaches(t: seq<Instruction>, c: Config, seg: seq<char>, out: seq<char>, fuel: nat, d: Config)
    requires c.Valid() && !c.halted
    requires c.Head() - |seg| >= 0 && c.cells[c.Head() + 1 - |seg|..c.Head() + 1] == seg
    requires Sweeps(t, c.state, L, seg, out)
    requires fuel == |seg| && d == SweptLeft(c, out)
    ensures Run(t, c, fuel) == d
  {
    SweepLeft(t, c, seg, out);
  }

  /** No two entries of the table share an (old state, given symbol) key. */
  ghost predicate Deterministic(t: seq<Instruction>) {
    forall i, j :: 0 <= i < j < |t| ==> !Matches(t[j], t[i].oldState, t[i].givenSymbol)
  }

  /** In a deterministic table the last match is the only match. */
  lemma DeterministicLookup(t: seq<Instruction>, i: nat)
    requires Deterministic(t) && i < |t|
    ensures Lookup(t, t[i].oldState, t[i].givenSymbol) == Found(t[i])
  {
    LookupIsLastMatch(t, t[i].oldState, t[i].givenSymbol, i);
  }

  /** One step of a deterministic table that fires its entry i: the step
      is what executing that entry gives. */
  lemma Fires(t: seq<Instruction>, c: Config, i: nat, next: Config)
    requires Deterministic(t) && i < |t| && c.Valid() && !c.halted
    requires c.state == t[i].oldState && c.cells[c.Head()] == t[i].givenSymbol
    requires Execute(c, t[i]) == next
    ensures Step(t, c) == next
  {
    DeterministicLookup(t, i);
  }

  /** Appending a deterministic block whose entries all start from a state
      the table before it never starts from keeps the table deterministic. */
  lemma DeterministicAppend(t: seq<Instruction>, b: seq<Instruction>, s: State)
    requires Deterministic(t) && Deterministic(b)
    requires forall i :: 0 <= i < |t| ==> t[i].oldState != s
    requires forall j :: 0 <= j < |b| ==> b[j].oldState == s
    ensures Deterministic(t + b)
  {
    var u := t + b;
    forall i, j | 0 <= i < j < |u|
      ensures !Matches(u[j], u[i].oldState, u[i].givenSymbol)
    {
      if j >= |t| && i < |t| {
        assert u[j] == b[j - |t|] && u[i] == t[i];
      } else if i >= |t| {
        assert u[j] == b[j - |t|] && u[i] == b[i - |t|];
      }
    }
  }
}
