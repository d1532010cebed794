// The Turing machine tape: a character array that grows by one blank cell at
// either end when asked to.

module Tapes {

  /** The symbol every newly materialised cell holds. */
  const Blank: char := '-'

  /** A run of `n` blank cells. */
  function Blanks(n: nat): (r: seq<char>)
    ensures |r| == n && forall i :: 0 <= i < n ==> r[i] == Blank
  {
    if n == 0 then [] else Blanks(n - 1) + [Blank]
  }

  /** What the blanking loop of the overwriting constructor leaves: cell 0
      blank, every other cell as it was. */
  function BlankFirst(s: seq<char>): (r: seq<char>)
    ensures |r| == |s|
    ensures |s| > 0 ==> r[0] == Blank
    ensures forall i :: 0 < i < |s| ==> r[i] == s[i]
  {
    if s == [] then s else s[0 := Blank]
  }

  /** On "ab" the loop as written leaves "-b", not the all-blank "--": only a
      tape of at most one cell, or one already blank after cell 0, is
      blanked completely. */
  lemma BlankFirstIsNotBlanks(s: seq<char>)
    ensures BlankFirst(s) == Blanks(|s|) <==> forall i :: 0 < i < |s| ==> s[i] == Blank
    ensures BlankFirst("ab") == "-b" != Blanks(2)
  {
    assert Blanks(2)[1] == Blank;
    if BlankFirst(s) == Blanks(|s|) {
      forall i | 0 < i < |s| ensures s[i] == Blank {
        assert BlankFirst(s)[i] == Blanks(|s|)[i];
      }
    }
  }

  class Tape {
    var values: array<char>

    /** Wraps `values` itself; the tape and the caller share the array. */
    constructor (values: array<char>)
      ensures this.values == values
    {
      this.values := values;
    }

    /** Wraps `values`; when `overwrite` is set, runs the blanking loop as
        written, which writes index 0 on every pass: only cell 0 becomes
        blank (an empty array is left as it is). */
    constructor WithOverwrite(values: array<char>, overwrite: bool)
      modifies values
      ensures this.values == values
      ensures values[..] == (if overwrite then BlankFirst(old(values[..])) else old(values[..]))
    {
      this.values := values;
      new;
      if overwrite {
        for i := 0 to values.Length
          invariant this.values == values
          invariant values[..] == (if i > 0 then BlankFirst(old(values[..])) else old(values[..]))
        {
          values[0] := Blank;
        }
      }
    }

    /** The overwriting constructor as its loop evidently means it: every
        cell of `values` becomes blank. */
    constructor WithOverwriteAll(values: array<char>, overwrite: bool)
      modifies values
      ensures this.values == values
      ensures values[..] == (if overwrite then Blanks(values.Length) else old(values[..]))
    {
      this.values := values;
      new;
      if overwrite {
        for i := 0 to values.Length
          invariant this.values == values
          invariant values[..i] == Blanks(i) && values[i..] == old(values[i..])
        {
          values[i] := Blank;
        }
      }
    }

    /** Overwrites cell `index`; every other cell and the length stay. */
    method Write(index: int, val: char)
      requires 0 <= index < values.Length
      modifies values
      ensures values[..] == old(values[..])[index := val]
    {
      values[index] := val;
    }

    /** The number of materialised cells. */
    function GetLength(): (n: nat)
      reads this
      ensures n == values.Length
    {
      values.Length
    }

    /** Replaces the array by a fresh one that is one cell longer, with a
        blank in front of the old contents; every old cell i is now at i + 1. */
    method ExpandOnLeft()
      modifies this
      ensures fresh(values)
      ensures values[..] == [Blank] + old(values[..])
    {
      var newValues := new char[values.Length + 1];
      forall i | 0 <= i < values.Length {
        newValues[i + 1] := values[i];
      }
      newValues[0] := Blank;
      values := newValues;
    }

    /** Replaces the array by a fresh one that is one cell longer, with a
        blank after the old contents; old indices are unaffected. */
    method ExpandOnRight()
      modifies this
      ensures fresh(values)
      ensures values[..] == old(values[..]) + [Blank]
    {
      var newValues := new char[values.Length + 1];
      forall i | 0 <= i < values.Length {
        newValues[i] := values[i];
      }
      newValues[newValues.Length - 1] := Blank;
      values := newValues;
    }

    /** The symbol in cell `index`; nothing changes. */
    method GetValue(index: int) returns (v: char)
      requires 0 <= index < values.Length
      ensures v == values[index]
    {
      v := values[index];
    }

    /** The backing array itself, not a copy. */
    method GetValues() returns (a: array<char>)
      ensures a == values
    {
      a := values;
    }
  }
}
