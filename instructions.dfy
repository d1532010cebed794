// The instruction quintuples (plus halt flag) read by the Turing machine engine,
// the control states they mention, and the "instruction not found" condition.

module Instructions {

  /** A control state. States are compared by name, so two separately built
      states with the same name are the same state. */
  datatype State = State(name: string)

  /** Head motion after a write: left, right, or stay ("centre"). */
  datatype HeadDirection = L | R | C

  datatype Option<T> = None | Some(value: T)

  /** One row of the instruction table: in `oldState` reading `givenSymbol`,
      write `writeSymbol`, move in `direction`, enter `newState`, and halt
      afterwards when `halt` holds. No combination of fields is rejected. */
  datatype Instruction = Instruction(
    oldState: State,
    givenSymbol: char,
    newState: State,
    writeSymbol: char,
    direction: HeadDirection,
    halt: bool)
  {
    function SetHalt(h: bool): (r: Instruction)
      ensures r.halt == h && r.(halt := halt) == this
    {
      this.(halt := h)
    }

    function SetOldState(s: State): (r: Instruction)
      ensures r.oldState == s && r.(oldState := oldState) == this
    {
      this.(oldState := s)
    }

    function SetGivenSymbol(c: char): (r: Instruction)
      ensures r.givenSymbol == c && r.(givenSymbol := givenSymbol) == this
    {
      this.(givenSymbol := c)
    }

    function SetNewState(s: State): (r: Instruction)
      ensures r.newState == s && r.(newState := newState) == this
    {
      this.(newState := s)
    }

    function SetWriteSymbol(c: char): (r: Instruction)
      ensures r.writeSymbol == c && r.(writeSymbol := writeSymbol) == this
    {
      this.(writeSymbol := c)
    }

    function SetDirection(d: HeadDirection): (r: Instruction)
      ensures r.direction == d && r.(direction := direction) == this
    {
      this.(direction := d)
    }
  }

  const NotFoundPrefix: string := "Instruction not found (State: "
  const SymbolLabel: string := ", Symbol: "

  /** The message carried by an InstructionNotFoundException for state `s`
      and symbol `c`: the prefix, the state's name, the symbol label, the
      symbol and a closing parenthesis. */
  function NotFoundMessage(s: State, c: char): (m: string)
    ensures |m| == |NotFoundPrefix| + |s.name| + |SymbolLabel| + 2
    ensures m[..|NotFoundPrefix|] == NotFoundPrefix
    ensures m[|NotFoundPrefix|..|NotFoundPrefix| + |s.name|] == s.name
    ensures m[|NotFoundPrefix| + |s.name|..|m| - 2] == SymbolLabel
    ensures m[|m| - 2] == c && m[|m| - 1] == ')'
  {
    NotFoundPrefix + s.name + SymbolLabel + [c] + [')']
  }

  /** The message identifies the state and the symbol uniquely. */
  lemma NotFoundMessageInjective(s1: State, c1: char, s2: State, c2: char)
    requires NotFoundMessage(s1, c1) == NotFoundMessage(s2, c2)
    ensures s1 == s2 && c1 == c2
  {
    var m := NotFoundMessage(s1, c1);
    assert |s1.name| == |s2.name|;
    assert s1.name == m[|NotFoundPrefix|..|NotFoundPrefix| + |s1.name|] == s2.name;
  }

  /** Outcome of looking an instruction up: the instruction, or the
      InstructionNotFoundException with its message. */
  datatype LookupResult = Found(instruction: Instruction) | InstructionNotFound(message: string)
}
