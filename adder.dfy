// What the UnaryAdder preset computes: on a tape '*' 1^a '+' 1^b '=' it
// halts with 1^(a+b) written after the '=' and the input restored.
//
// The machine repeats one cycle: mark one '1' of the input by turning it
// into '0', walk right past the end of the tape and write a '1' there, walk
// back to the '=' and look leftwards for the next unmarked '1'. When none is
// left it walks to the '*' and turns every '0' back into '1' on its way to
// the '=', where it halts.

module Addition {
  import opened Instructions
  import opened Semantics
  import opened Presets
  import opened Tapes

  /** n copies of '1': a number in unary. */
  function Ones(n: nat): (s: seq<char>)
    ensures |s| == n && forall i :: 0 <= i < n ==> s[i] == '1'
  {
    seq(n, _ => '1')
  }

  /** The tape the UnaryAdder expects: '*' a ones '+' b ones '='. */
  function AdderInput(a: nat, b: nat): seq<char> {
    ['*'] + Ones(a) + ['+'] + Ones(b) + ['=']
  }

  /** The part between '*' and '=' while the machine works: ones, the
      operator, and ones already marked as '0'. */
  predicate Word(x: seq<char>) {
    forall i :: 0 <= i < |x| ==> WordSymbol(x[i])
  }

  /** An unmarked one, a mark, or the operator. */
  predicate WordSymbol(ch: char) {
    ch == '0' || ch == '1' || ch == '+'
  }

  /** The symbols FindOnesLeft walks over: marks and the operator. */
  predicate Skipped(ch: char) {
    ch == '0' || ch == '+'
  }

  /** The word has no unmarked '1' left. */
  predicate AllMarked(x: seq<char>) {
    forall i :: 0 <= i < |x| ==> x[i] != '1'
  }

  /** The tape while the machine works: the word between '*' and '=', and
      the k ones written so far after the '='. */
  function Work(x: seq<char>, k: nat): (w: seq<char>)
    ensures |w| == |x| + 2 + k && w[0] == '*' && w[|x| + 1] == '='
    ensures w[1..|x| + 1] == x && w[|x| + 2..] == Ones(k)
  {
    var w := ['*'] + x + ['='] + Ones(k);
    assert w[1..|x| + 1] == x;
    assert w[|x| + 2..] == Ones(k);
    w
  }

  /** The word with every mark undone. */
  function Restore(x: seq<char>): (r: seq<char>)
    ensures |r| == |x|
    ensures forall i :: 0 <= i < |x| ==> r[i] == (if x[i] == '0' then '1' else x[i])
  {
    seq(|x|, i requires 0 <= i < |x| => if x[i] == '0' then '1' else x[i])
  }

  /** The index of the rightmost unmarked '1' of the word, if any. */
  function LastOne(x: seq<char>): (r: Option<nat>)
    ensures r.Some? ==> r.value < |x| && x[r.value] == '1'
    ensures r.Some? ==> forall i :: r.value < i < |x| ==> x[i] != '1'
    ensures r.None? <==> AllMarked(x)
  {
    if |x| == 0 then None
    else if x[|x| - 1] == '1' then Some(|x| - 1)
    else LastOne(x[..|x| - 1])
  }

  /** WriteOnes walks right over everything but a blank. */
  lemma WriteOnesPasses(x: char)
    requires WordSymbol(x) || x == '='
    ensures SweepsOver(UnaryAdderTable, WriteOnes, R, x, x)
  {
    if x == '1' {
      UnaryAdderLookup(6);
    } else if x == '+' {
      UnaryAdderLookup(7);
    } else if x == '=' {
      UnaryAdderLookup(8);
    } else {
      UnaryAdderLookup(9);
    }
  }

  /** FindOnesLeft walks left over marks and the operator. */
  lemma FindOnesLeftPasses(x: char)
    requires Skipped(x)
    ensures SweepsOver(UnaryAdderTable, FindOnesLeft, L, x, x)
  {
    if x == '0' {
      UnaryAdderLookup(14);
    } else {
      UnaryAdderLookup(17);
    }
  }

  /** ReplaceZeroes walks right over the word, undoing marks. */
  lemma ReplaceZeroesPasses(x: char)
    requires WordSymbol(x)
    ensures SweepsOver(UnaryAdderTable, ReplaceZeroes, R, x, if x == '0' then '1' else x)
  {
    if x == '0' {
      UnaryAdderLookup(24);
    } else if x == '1' {
      UnaryAdderLookup(26);
    } else {
      UnaryAdderLookup(27);
    }
  }

  lemma WriteOnesSweeps(seg: seq<char>)
    requires forall i :: 0 <= i < |seg| ==> WordSymbol(seg[i]) || seg[i] == '='
    ensures Sweeps(UnaryAdderTable, WriteOnes, R, seg, seg)
  {
    forall k | 0 <= k < |seg|
      ensures SweepsOver(UnaryAdderTable, WriteOnes, R, seg[k], seg[k])
    {
      WriteOnesPasses(seg[k]);
    }
  }

  lemma FindEqualsSweeps(k: nat)
    ensures Sweeps(UnaryAdderTable, FindEquals, L, Ones(k), Ones(k))
  {
    UnaryAdderLookup(11);
    forall i | 0 <= i < k
      ensures SweepsOver(UnaryAdderTable, FindEquals, L, Ones(k)[i], Ones(k)[i])
    {
    }
  }

  lemma FindOnesLeftSweeps(seg: seq<char>)
    requires forall i :: 0 <= i < |seg| ==> Skipped(seg[i])
    ensures Sweeps(UnaryAdderTable, FindOnesLeft, L, seg, seg)
  {
    forall k | 0 <= k < |seg|
      ensures SweepsOver(UnaryAdderTable, FindOnesLeft, L, seg[k], seg[k])
    {
      FindOnesLeftPasses(seg[k]);
    }
  }

  lemma ReplaceZeroesSweeps(x: seq<char>)
    requires Word(x)
    ensures Sweeps(UnaryAdderTable, ReplaceZeroes, R, x, Restore(x))
  {
    var r := Restore(x);
    forall k | 0 <= k < |x|
      ensures SweepsOver(UnaryAdderTable, ReplaceZeroes, R, x[k], r[k])
    {
      ReplaceZeroesPasses(x[k]);
    }
  }

  /** WriteOnes from head p walks right up to the last cell of the tape.
      Here and below `fuel` and `after` name the number of steps and the
      clock at the end, so that callers can chain runs. */
  lemma WriteOnesToEnd(x: seq<char>, k: nat, p: nat, time: nat, fuel: nat, after: nat)
    requires Word(x) && 1 <= p <= |x| + 1
    requires fuel == |x| + 1 + k - p && after == time + fuel
    ensures Run(UnaryAdderTable, Config(Work(x, k), p, 0, WriteOnes, time, false), fuel)
         == Config(Work(x, k), |x| + 1 + k, 0, WriteOnes, after, false)
  {
    var w := Work(x, k);
    var c := Config(w, p, 0, WriteOnes, time, false);
    var d := Config(w, |x| + 1 + k, 0, WriteOnes, after, false);
    var seg := w[p..|x| + 1 + k];
    forall i | 0 <= i < |seg|
      ensures WordSymbol(seg[i]) || seg[i] == '='
    {
      assert seg[i] == w[p + i];
      if p + i <= |x| {
        assert w[p + i] == w[1..|x| + 1][p + i - 1];
      } else if p + i > |x| + 1 {
        assert w[p + i] == w[|x| + 2..][p + i - |x| - 2];
      }
    }
    WriteOnesSweeps(seg);
    assert w[..p] + seg + w[|x| + 1 + k..] == w;
    assert SweptRight(c, seg) == d;
    SweepRightReaches(UnaryAdderTable, c, seg, seg, fuel, d);
  }

  /** On the last cell WriteOnes steps off the tape, which grows by a
      blank, and writes a '1' there. */
  lemma WriteOnesAppends(x: seq<char>, k: nat, k1: nat, time: nat, steps: nat, after: nat)
    requires k1 == k + 1 && steps == 2 && after == time + steps
    ensures Run(UnaryAdderTable, Config(Work(x, k), |x| + 1 + k, 0, WriteOnes, time, false), steps)
         == Config(Work(x, k1), |x| + 1 + k, 0, FindEquals, after, false)
  {
    UnaryAdderTableDeterministic();
    var w := Work(x, k);
    var c := Config(w, |x| + 1 + k, 0, WriteOnes, time, false);
    var grown := Config(w + [Blank], |x| + 2 + k, 0, WriteOnes, time + 1, false);
    var d := Config(Work(x, k1), |x| + 1 + k, 0, FindEquals, after, false);
    if k == 0 {
      assert w[|x| + 1 + k := '='] == w;
      Fires(UnaryAdderTable, c, 8, grown);
    } else {
      assert w[|x| + 1 + k] == w[|x| + 2..][k - 1];
      assert w[|x| + 1 + k := '1'] == w;
      Fires(UnaryAdderTable, c, 6, grown);
    }
    assert (w + [Blank])[|x| + 2 + k := '1'] == Work(x, k1);
    Fires(UnaryAdderTable, grown, 10, d);
    StepThenRun(UnaryAdderTable, grown, d, 0, d, 1);
    StepThenRun(UnaryAdderTable, c, grown, 1, d, steps);
  }

  /** FindEquals walks left over the written ones, and past the '='. */
  lemma FindEqualsReturns(x: seq<char>, k: nat, k1: nat, time: nat, steps: nat, after: nat)
    requires k1 == k + 1 && steps == k1 && after == time + steps
    ensures Run(UnaryAdderTable, Config(Work(x, k1), |x| + 1 + k, 0, FindEquals, time, false), steps)
         == Config(Work(x, k1), |x|, 0, FindOnesLeft, after, false)
  {
    UnaryAdderTableDeterministic();
    var w := Work(x, k1);
    var c := Config(w, |x| + 1 + k, 0, FindEquals, time, false);
    var t1 := time + k;
    var e := Config(w, |x| + 1, 0, FindEquals, t1, false);
    var d := Config(w, |x|, 0, FindOnesLeft, after, false);
    var seg := Ones(k);
    assert w[|x| + 2..|x| + 2 + k] == seg;
    FindEqualsSweeps(k);
    assert w[..|x| + 2] + seg + w[|x| + 2 + k..] == w;
    assert SweptLeft(c, seg) == e;
    assert w[|x| + 1 := '='] == w;
    Fires(UnaryAdderTable, e, 12, d);
    SweepLeftReaches(UnaryAdderTable, c, seg, seg, k, e);
    RunThenStep(UnaryAdderTable, c, k, e, d, steps);
  }

  /** One whole write cycle: from just after a fresh mark at p, write one
      more '1' at the end of the tape and come back to the word's last cell. */
  lemma WritesOne(x: seq<char>, k: nat, k1: nat, p: nat, time: nat, fuel: nat, after: nat)
    requires Word(x) && 1 <= p <= |x| + 1 && k1 == k + 1
    requires fuel == |x| + 4 + 2 * k - p && after == time + fuel
    ensures Run(UnaryAdderTable, Config(Work(x, k), p, 0, WriteOnes, time, false), fuel)
         == Config(Work(x, k1), |x|, 0, FindOnesLeft, after, false)
  {
    var f1 := |x| + 1 + k - p;
    var t1 := time + f1;
    var t2 := t1 + 2;
    var f2 := f1 + 2;
    var c := Config(Work(x, k), p, 0, WriteOnes, time, false);
    var atEnd := Config(Work(x, k), |x| + 1 + k, 0, WriteOnes, t1, false);
    var written := Config(Work(x, k1), |x| + 1 + k, 0, FindEquals, t2, false);
    var d := Config(Work(x, k1), |x|, 0, FindOnesLeft, after, false);
    WriteOnesToEnd(x, k, p, time, f1, t1);
    WriteOnesAppends(x, k, k1, t1, 2, t2);
    RunChain(UnaryAdderTable, c, f1, atEnd, 2, written, f2);
    FindEqualsReturns(x, k, k1, t2, k1, after);
    RunChain(UnaryAdderTable, c, f2, written, k1, d, fuel);
  }

  /** FindOnesLeft walks left to the rightmost unmarked '1' and marks it. */
  lemma MarksOne(x: seq<char>, k: nat, j: nat, time: nat, fuel: nat, after: nat)
    requires Word(x) && LastOne(x) == Some(j)
    requires fuel == |x| - j && after == time + fuel
    ensures Run(UnaryAdderTable, Config(Work(x, k), |x|, 0, FindOnesLeft, time, false), fuel)
         == Config(Work(x[j := '0'], k), j + 2, 0, WriteOnes, after, false)
  {
    var w := Work(x, k);
    var c := Config(w, |x|, 0, FindOnesLeft, time, false);
    var seg := x[j + 1..];
    var f1 := |x| - j - 1;
    var t1 := time + f1;
    var e := Config(w, j + 1, 0, FindOnesLeft, t1, false);
    var d := Config(Work(x[j := '0'], k), j + 2, 0, WriteOnes, after, false);
    MarksOneSteps(x, k, j, time, t1, after);
    SweepLeftReaches(UnaryAdderTable, c, seg, seg, f1, e);
    RunThenStep(UnaryAdderTable, c, f1, e, d, fuel);
  }

  /** The facts MarksOne chains: the walk over the marks after j, and the
      step that marks x[j]. */
  lemma MarksOneSteps(x: seq<char>, k: nat, j: nat, time: nat, t1: nat, after: nat)
    requires Word(x) && LastOne(x) == Some(j)
    requires t1 == time + (|x| - j - 1) && after == t1 + 1
    ensures var c := Config(Work(x, k), |x|, 0, FindOnesLeft, time, false);
            var e := Config(Work(x, k), j + 1, 0, FindOnesLeft, t1, false);
            && c.Head() - |x[j + 1..]| >= 0 && c.cells[c.Head() + 1 - |x[j + 1..]|..c.Head() + 1] == x[j + 1..]
            && Sweeps(UnaryAdderTable, FindOnesLeft, L, x[j + 1..], x[j + 1..])
            && SweptLeft(c, x[j + 1..]) == e
            && Step(UnaryAdderTable, e) == Config(Work(x[j := '0'], k), j + 2, 0, WriteOnes, after, false)
  {
    UnaryAdderTableDeterministic();
    var w := Work(x, k);
    var c := Config(w, |x|, 0, FindOnesLeft, time, false);
    var seg := x[j + 1..];
    var e := Config(w, j + 1, 0, FindOnesLeft, t1, false);
    var d := Config(Work(x[j := '0'], k), j + 2, 0, WriteOnes, after, false);
    assert w[j + 2..|x| + 1] == seg by {
      assert w[j + 2..|x| + 1] == w[1..|x| + 1][j + 1..];
    }
    forall i | 0 <= i < |seg|
      ensures Skipped(seg[i])
    {
      assert seg[i] == x[j + 1 + i];
    }
    FindOnesLeftSweeps(seg);
    assert w[..j + 2] + seg + w[|x| + 1..] == w;
    MarkInWork(x, k, j);
    Fires(UnaryAdderTable, e, 16, d);
  }

  /** Marking x[j] on the working tape is marking cell j + 1. */
  lemma MarkInWork(x: seq<char>, k: nat, j: nat)
    requires j < |x|
    ensures Work(x, k)[j + 1] == x[j]
    ensures Work(x, k)[j + 1 := '0'] == Work(x[j := '0'], k)
  {
    var w := Work(x, k);
    assert w[j + 1] == w[1..|x| + 1][j];
    assert w[j + 1 := '0'][1..|x| + 1] == x[j := '0'];
    assert w[j + 1 := '0'] == ['*'] + w[j + 1 := '0'][1..|x| + 1] + w[|x| + 1..];
    assert Work(x[j := '0'], k) == ['*'] + x[j := '0'] + w[|x| + 1..];
  }

  /** With no unmarked '1' left, FindOnesLeft walks back to the '*'. */
  lemma ReachesStart(x: seq<char>, k: nat, time: nat, fuel: nat, after: nat)
    requires Word(x) && AllMarked(x) && fuel == |x| + 1 && after == time + fuel
    ensures Run(UnaryAdderTable, Config(Work(x, k), |x|, 0, FindOnesLeft, time, false), fuel)
         == Config(Work(x, k), 1, 0, ReplaceZeroes, after, false)
  {
    var w := Work(x, k);
    var c := Config(w, |x|, 0, FindOnesLeft, time, false);
    var f1 := |x|;
    var t1 := time + f1;
    var e := Config(w, 0, 0, FindOnesLeft, t1, false);
    var d := Config(w, 1, 0, ReplaceZeroes, after, false);
    ReachesStartSteps(x, k, time, t1, after);
    SweepLeftReaches(UnaryAdderTable, c, x, x, f1, e);
    RunThenStep(UnaryAdderTable, c, f1, e, d, fuel);
  }

  /** The facts ReachesStart chains: the walk over the word, and the step
      off the '*'. */
  lemma ReachesStartSteps(x: seq<char>, k: nat, time: nat, t1: nat, after: nat)
    requires Word(x) && AllMarked(x) && t1 == time + |x| && after == t1 + 1
    ensures var c := Config(Work(x, k), |x|, 0, FindOnesLeft, time, false);
            var e := Config(Work(x, k), 0, 0, FindOnesLeft, t1, false);
            && c.Head() - |x| >= 0 && c.cells[c.Head() + 1 - |x|..c.Head() + 1] == x
            && Sweeps(UnaryAdderTable, FindOnesLeft, L, x, x)
            && SweptLeft(c, x) == e
            && Step(UnaryAdderTable, e) == Config(Work(x, k), 1, 0, ReplaceZeroes, after, false)
  {
    UnaryAdderTableDeterministic();
    var w := Work(x, k);
    var c := Config(w, |x|, 0, FindOnesLeft, time, false);
    var e := Config(w, 0, 0, FindOnesLeft, t1, false);
    var d := Config(w, 1, 0, ReplaceZeroes, after, false);
    forall i | 0 <= i < |x|
      ensures Skipped(x[i])
    {
      assert WordSymbol(x[i]);
    }
    FindOnesLeftSweeps(x);
    assert w[..1] + x + w[|x| + 1..] == w;
    assert w[0 := '*'] == w;
    Fires(UnaryAdderTable, e, 13, d);
  }

  /** ReplaceZeroes undoes every mark on its way right and halts on '='. */
  lemma RestoresAndHalts(x: seq<char>, k: nat, time: nat, fuel: nat, after: nat)
    requires Word(x) && fuel == |x| + 1 && after == time + fuel
    ensures Run(UnaryAdderTable, Config(Work(x, k), 1, 0, ReplaceZeroes, time, false), fuel)
         == Config(Work(Restore(x), k), |x| + 1, 0, Halt, after, true)
  {
    var c := Config(Work(x, k), 1, 0, ReplaceZeroes, time, false);
    var f1 := |x|;
    var t1 := time + f1;
    var e := Config(Work(Restore(x), k), |x| + 1, 0, ReplaceZeroes, t1, false);
    var d := Config(Work(Restore(x), k), |x| + 1, 0, Halt, after, true);
    RestoresAndHaltsSteps(x, k, time, t1, after);
    SweepRightReaches(UnaryAdderTable, c, x, Restore(x), f1, e);
    RunThenStep(UnaryAdderTable, c, f1, e, d, fuel);
  }

  /** The facts RestoresAndHalts chains: the walk that undoes the marks,
      and the halting step on the '='. */
  lemma RestoresAndHaltsSteps(x: seq<char>, k: nat, time: nat, t1: nat, after: nat)
    requires Word(x) && t1 == time + |x| && after == t1 + 1
    ensures var c := Config(Work(x, k), 1, 0, ReplaceZeroes, time, false);
            var e := Config(Work(Restore(x), k), |x| + 1, 0, ReplaceZeroes, t1, false);
            && c.Head() + |x| < |c.cells| && c.cells[c.Head()..c.Head() + |x|] == x
            && Sweeps(UnaryAdderTable, ReplaceZeroes, R, x, Restore(x))
            && SweptRight(c, Restore(x)) == e
            && Step(UnaryAdderTable, e) == Config(Work(Restore(x), k), |x| + 1, 0, Halt, after, true)
  {
    UnaryAdderTableDeterministic();
    var w := Work(x, k);
    var r := Work(Restore(x), k);
    var e := Config(r, |x| + 1, 0, ReplaceZeroes, t1, false);
    var d := Config(r, |x| + 1, 0, Halt, after, true);
    ReplaceZeroesSweeps(x);
    assert w[..1] + Restore(x) + w[|x| + 1..] == r;
    assert r[|x| + 1 := '='] == r;
    Fires(UnaryAdderTable, e, 25, d);
  }

  /** With every '1' marked: back to the '*', then restore and halt. */
  lemma Finishes(x: seq<char>, k: nat, time: nat, fuel: nat, after: nat)
    requires Word(x) && AllMarked(x)
    requires fuel == 2 * |x| + 2 && after == time + fuel
    ensures Run(UnaryAdderTable, Config(Work(x, k), |x|, 0, FindOnesLeft, time, false), fuel)
         == Config(Work(Restore(x), k), |x| + 1, 0, Halt, after, true)
  {
    var f1 := |x| + 1;
    var t1 := time + f1;
    var c := Config(Work(x, k), |x|, 0, FindOnesLeft, time, false);
    var atStart := Config(Work(x, k), 1, 0, ReplaceZeroes, t1, false);
    var d := Config(Work(Restore(x), k), |x| + 1, 0, Halt, after, true);
    ReachesStart(x, k, time, f1, t1);
    RestoresAndHalts(x, k, t1, f1, after);
    RunChain(UnaryAdderTable, c, f1, atStart, f1, d, fuel);
  }

  // ---------------------------------------------------------------------
  // Counting marks

  /** A unary number holds as many ones as it says. */
  lemma {:induction false} OnesCount(n: nat)
    ensures multiset(Ones(n))['1'] == n
  {
    if n > 0 {
      assert Ones(n) == Ones(n - 1) + ['1'];
      OnesCount(n - 1);
    }
  }

  /** Marking an unmarked '1' leaves one fewer. */
  lemma MarkCount(x: seq<char>, j: nat)
    requires j < |x| && x[j] == '1'
    ensures multiset(x[j := '0'])['1'] + 1 == multiset(x)['1']
  {
    assert x == x[..j] + [x[j]] + x[j + 1..];
    assert x[j := '0'] == x[..j] + ['0'] + x[j + 1..];
  }

  /** A word with every '1' marked holds none. */
  lemma NoOnesLeft(x: seq<char>)
    requires AllMarked(x)
    ensures multiset(x)['1'] == 0
  {
    assert '1' !in x;
  }

  /** Undoing the marks cannot tell a fresh mark from a '1'. */
  lemma RestoreMark(x: seq<char>, j: nat)
    requires j < |x| && x[j] == '1'
    ensures Restore(x[j := '0']) == Restore(x)
  {
  }

  // ---------------------------------------------------------------------
  // The marking loop

  /** The steps the machine takes from FindOnesLeft at the word's last cell
      until it halts. */
  function LoopSteps(x: seq<char>, k: nat): nat
    decreases multiset(x)['1']
  {
    match LastOne(x)
    case None => 2 * |x| + 2
    case Some(j) =>
      MarkCount(x, j);
      (|x| - j) + (|x| + 2 + 2 * k - j) + LoopSteps(x[j := '0'], k + 1)
  }

  /** From FindOnesLeft at the word's last cell, with k ones already
      written, the machine marks the remaining ones right to left, writes one
      '1' per mark, then restores the word and halts on the '='. */
  lemma {:induction false} AdderLoop(x: seq<char>, k: nat, time: nat, fuel: nat, after: nat, total: nat)
    requires Word(x) && fuel == LoopSteps(x, k) && after == time + fuel
    requires total == k + multiset(x)['1']
    ensures Run(UnaryAdderTable, Config(Work(x, k), |x|, 0, FindOnesLeft, time, false), fuel)
         == Config(Work(Restore(x), total), |x| + 1, 0, Halt, after, true)
    decreases multiset(x)['1']
  {
    match LastOne(x)
    case None =>
      NoOnesLeft(x);
      assert total == k;
      Finishes(x, k, time, fuel, after);
    case Some(j) =>
      var y := x[j := '0'];
      var k1 := k + 1;
      MarkCount(x, j);
      RestoreMark(x, j);
      assert Word(y) && |y| == |x|;
      var f1 := |x| - j;
      var t1 := time + f1;
      var p := j + 2;
      var f2 := |y| + 4 + 2 * k - p;
      var t2 := t1 + f2;
      var f12 := f1 + f2;
      var f3 := LoopSteps(y, k1);
      var c := Config(Work(x, k), |x|, 0, FindOnesLeft, time, false);
      var marked := Config(Work(y, k), p, 0, WriteOnes, t1, false);
      var back := Config(Work(y, k1), |y|, 0, FindOnesLeft, t2, false);
      var d := Config(Work(Restore(x), total), |x| + 1, 0, Halt, after, true);
      MarksOne(x, k, j, time, f1, t1);
      WritesOne(y, k, k1, p, t1, f2, t2);
      RunChain(UnaryAdderTable, c, f1, marked, f2, back, f12);
      AdderLoop(y, k1, t2, f3, after, total);
      RunChain(UnaryAdderTable, c, f12, back, f3, d, fuel);
  }

  // ---------------------------------------------------------------------
  // The whole run

  /** The word on the input tape: a ones, the operator, b ones. */
  function Operands(a: nat, b: nat): (x: seq<char>)
    ensures |x| == a + b + 1
  {
    Ones(a) + ['+'] + Ones(b)
  }

  /** The index in Operands(a, b) of the first '1' the machine marks: the
      leftmost one. */
  function FirstMark(a: nat): nat {
    if a > 0 then 0 else 1
  }

  /** The input word is a word with nothing marked, and its first '1' is
      where FirstMark says. */
  lemma OperandsWord(a: nat, b: nat)
    ensures Word(Operands(a, b)) && Restore(Operands(a, b)) == Operands(a, b)
    ensures a + b > 0 ==> Operands(a, b)[FirstMark(a)] == '1'
  {
    var x := Operands(a, b);
    OperandsShape(a, b);
    if a > 0 {
      assert x[0] == x[..a][0];
    } else if b > 0 {
      assert x[1] == x[a + 1..][0];
    }
    assert Restore(x) == x;
  }

  lemma InputIsWork(a: nat, b: nat)
    ensures AdderInput(a, b) == Work(Operands(a, b), 0)
  {
  }

  /** The working tape with the whole sum written is the result tape. */
  lemma ResultTape(a: nat, b: nat)
    ensures Work(Operands(a, b), a + b) == AdderInput(a, b) + Ones(a + b)
  {
  }

  lemma OperandsShape(a: nat, b: nat)
    ensures Operands(a, b)[..a] == Ones(a) && Operands(a, b)[a] == '+' && Operands(a, b)[a + 1..] == Ones(b)
  {
  }

  lemma OperandsCount(a: nat, b: nat)
    ensures multiset(Operands(a, b))['1'] == a + b
  {
    OnesCount(a);
    OnesCount(b);
    assert multiset(Operands(a, b)) == multiset(Ones(a)) + multiset(['+']) + multiset(Ones(b));
  }

  /** From the '*', FindOnes skips the operator when a is zero and marks the
      first '1'. */
  lemma FindsFirstOne(a: nat, b: nat, j: nat, steps: nat)
    requires a + b > 0 && j == FirstMark(a) && steps == j + 2
    ensures Run(UnaryAdderTable, Initial(AdderInput(a, b), Start, 0), steps)
         == Config(Work(Operands(a, b)[j := '0'], 0), steps, 0, WriteOnes, steps, false)
  {
    if a > 0 {
      MarksFirstOperand(a, b, j, steps);
    } else {
      MarksSecondOperand(a, b, j, steps);
    }
  }

  lemma MarksFirstOperand(a: nat, b: nat, j: nat, steps: nat)
    requires a > 0 && j == 0 && steps == 2
    ensures Run(UnaryAdderTable, Initial(AdderInput(a, b), Start, 0), steps)
         == Config(Work(Operands(a, b)[j := '0'], 0), steps, 0, WriteOnes, steps, false)
  {
    UnaryAdderTableDeterministic();
    var x := Operands(a, b);
    var w := AdderInput(a, b);
    var c0 := Initial(w, Start, 0);
    var c1 := Config(w, 1, 0, FindOnes, 1, false);
    var d := Config(Work(x[j := '0'], 0), steps, 0, WriteOnes, steps, false);
    InputIsWork(a, b);
    OperandsShape(a, b);
    assert x[0] == x[..a][0];
    MarkInWork(x, 0, j);
    assert w[0 := '*'] == w;
    Fires(UnaryAdderTable, c0, 0, c1);
    Fires(UnaryAdderTable, c1, 1, d);
    StepThenRun(UnaryAdderTable, c1, d, 0, d, 1);
    StepThenRun(UnaryAdderTable, c0, c1, 1, d, steps);
  }

  lemma MarksSecondOperand(a: nat, b: nat, j: nat, steps: nat)
    requires a == 0 && b > 0 && j == 1 && steps == 3
    ensures Run(UnaryAdderTable, Initial(AdderInput(a, b), Start, 0), steps)
         == Config(Work(Operands(a, b)[j := '0'], 0), steps, 0, WriteOnes, steps, false)
  {
    UnaryAdderTableDeterministic();
    var x := Operands(a, b);
    var w := AdderInput(a, b);
    var c0 := Initial(w, Start, 0);
    var c1 := Config(w, 1, 0, FindOnes, 1, false);
    InputIsWork(a, b);
    OperandsShape(a, b);
    assert x[1] == x[a + 1..][0];
    var c2 := Config(w, 2, 0, FindOnes, 2, false);
    var d := Config(Work(x[j := '0'], 0), steps, 0, WriteOnes, steps, false);
    MarkInWork(x, 0, j);
    MarkInWork(x, 0, 0);
    assert w[0 := '*'] == w && w[1 := '+'] == w;
    Fires(UnaryAdderTable, c0, 0, c1);
    Fires(UnaryAdderTable, c1, 2, c2);
    Fires(UnaryAdderTable, c2, 1, d);
    StepThenRun(UnaryAdderTable, c2, d, 0, d, 1);
    StepThenRun(UnaryAdderTable, c1, c2, 1, d, 2);
    StepThenRun(UnaryAdderTable, c0, c1, 2, d, steps);
  }

  /** With nothing to add, FindOnes meets the '=' and halts there. */
  lemma AddsNothing(a: nat, b: nat, steps: nat)
    requires a == 0 && b == 0 && steps == 3
    ensures Run(UnaryAdderTable, Initial(AdderInput(a, b), Start, 0), steps)
         == Config(AdderInput(a, b), 2, 0, Halt, steps, true)
  {
    UnaryAdderTableDeterministic();
    var w := AdderInput(a, b);
    assert w == ['*', '+', '='];
    var c0 := Initial(w, Start, 0);
    var c1 := Config(w, 1, 0, FindOnes, 1, false);
    var c2 := Config(w, 2, 0, FindOnes, 2, false);
    var d := Config(w, 2, 0, Halt, steps, true);
    assert w[0 := '*'] == w && w[1 := '+'] == w && w[2 := '='] == w;
    Fires(UnaryAdderTable, c0, 0, c1);
    Fires(UnaryAdderTable, c1, 2, c2);
    Fires(UnaryAdderTable, c2, 4, d);
    StepThenRun(UnaryAdderTable, c2, d, 0, d, 1);
    StepThenRun(UnaryAdderTable, c1, c2, 1, d, 2);
    StepThenRun(UnaryAdderTable, c0, c1, 2, d, steps);
  }

  /** The number of steps the UnaryAdder takes on AdderInput(a, b). */
  function AdderSteps(a: nat, b: nat): nat {
    if a + b == 0 then 3
    else
      var j := FirstMark(a);
      var x := Operands(a, b)[j := '0'];
      (j + 2) + (|x| + 2 - j) + LoopSteps(x, 1)
  }

  /** AdderComputesSum with the step count, head and result tape named. */
  lemma AdderReaches(a: nat, b: nat, fuel: nat, head: nat, cells: seq<char>)
    requires fuel == AdderSteps(a, b) && head == a + b + 2 && cells == AdderInput(a, b) + Ones(a + b)
    ensures Run(UnaryAdderTable, Initial(AdderInput(a, b), Start, 0), fuel)
         == Config(cells, head, 0, Halt, fuel, true)
  {
    OperandsWord(a, b);
    OperandsCount(a, b);
    ResultTape(a, b);
    if a + b == 0 {
      assert cells == AdderInput(a, b);
      assert head == 2;
      AddsNothing(a, b, fuel);
    } else {
      var j := FirstMark(a);
      var x0 := Operands(a, b);
      var x := x0[j := '0'];
      var k0 := 0;
      var k1 := 1;
      var total := a + b;
      MarkCount(x0, j);
      RestoreMark(x0, j);
      assert Word(x);
      assert Work(Restore(x), total) == cells;
      assert |x| + 1 == head;
      var s1 := j + 2;
      var f2 := |x| + 4 + 2 * k0 - s1;
      var t2 := s1 + f2;
      var f3 := LoopSteps(x, k1);
      var c0 := Initial(AdderInput(a, b), Start, 0);
      var started := Config(Work(x, k0), s1, 0, WriteOnes, s1, false);
      var back := Config(Work(x, k1), |x|, 0, FindOnesLeft, t2, false);
      var d := Config(Work(Restore(x), total), |x| + 1, 0, Halt, fuel, true);
      FindsFirstOne(a, b, j, s1);
      WritesOne(x, k0, k1, s1, s1, f2, t2);
      RunChain(UnaryAdderTable, c0, s1, started, f2, back, t2);
      AdderLoop(x, k1, t2, f3, fuel, total);
      RunChain(UnaryAdderTable, c0, t2, back, f3, d, fuel);
    }
  }

  /** The UnaryAdder adds: started in its initial state on the first cell of
      '*' 1^a '+' 1^b '=', it halts after AdderSteps(a, b) steps with
      1^(a + b) written after the '=', the input as it was, the tape grown
      on the right only, and the head on the '='. */
  lemma AdderComputesSum(a: nat, b: nat)
    ensures Run(UnaryAdderTable, Initial(AdderInput(a, b), Start, 0), AdderSteps(a, b))
         == Config(AdderInput(a, b) + Ones(a + b), a + b + 2, 0, Halt, AdderSteps(a, b), true)
  {
    var fuel := AdderSteps(a, b);
    var head := a + b + 2;
    var cells := AdderInput(a, b) + Ones(a + b);
    AdderReaches(a, b, fuel, head, cells);
  }

  lemma OnePlusOneSteps()
    ensures AdderSteps(1, 1) == 21
  {
    assert Ones(1) == "1";
    assert Operands(1, 1) == "1+1";
    assert "1+1"[0 := '0'] == "0+1";
    assert LastOne("0+1") == Some(2);
    assert "0+1"[2 := '0'] == "0+0";
    assert LastOne("0+0") == None;
    assert LoopSteps("0+0", 2) == 8;
    assert LoopSteps("0+1", 1) == 14;
  }

  /** The example run: on "*1+1=" the UnaryAdder halts after 21 steps with
      "*1+1=11" on the tape and the head on the '='. */
  lemma AdderOnePlusOne()
    ensures Run(UnaryAdderTable, Initial("*1+1=", Start, 0), 21) == Config("*1+1=11", 4, 0, Halt, 21, true)
  {
    OnePlusOneSteps();
    assert Ones(1) == "1" && Ones(2) == "11";
    assert AdderInput(1, 1) == "*1+1=";
    AdderReaches(1, 1, 21, 4, "*1+1=11");
  }
}
