/**
 * Facts about whole parses: what the invariant guarantees of every parsed program, how a
 * closing line picks the block it closes, and the statement-level outcomes of the parse tests
 * of src/parser.rs, starting from the tokens their lines lex to.
 */
module ProgramFacts {
  import opened Wrappers
  import opened Common
  import opened Compaction
  import opened Expressions
  import opened ExpressionFacts
  import opened Assembler
  import opened Parser

  /**
   * Every program that parses has its block structure resolved: each set end points forward to
   * the command that closed the block, each `Next` and `Continue` points back at the innermost
   * loop open where it stands, each function table entry points at its declaration, and that
   * declaration is the last one of its name.
   */
  lemma ParsedProgramsAreResolved(input: string)
    requires ParseNoPanic(input)
    ensures ParseResult(input).Ok? ==>
      var p := ParseResult(input).value;
      EndsResolved(p.commands) && JumpsResolved(p.commands) && FunctionsDeclared(p.commands, p.functions) &&
      JumpsInnermost(p.commands) && DeclarationsListed(p.commands, p.functions)
    ensures ParseResult(input).Ok? ==>
      var p := ParseResult(input).value;
      forall name, j ::
        (name in p.functions && p.functions[name].location < j < |p.commands| && p.commands[j].cmd.FunctionDeclaration?) ==>
        p.commands[j].cmd.name != name
  {
    if ParseResult(input).Ok? {
      var p := ParseResult(input).value;
      LastDeclarationWins(p.commands, p.functions);
    }
  }

  /** One token per symbol, all on one line. */
  function OnLine(line: nat, syms: seq<SymbolType>): (r: seq<Token>)
    ensures |r| == |syms| && forall k :: 0 <= k < |syms| ==> r[k] == Token(line, syms[k])
  {
    if syms == [] then [] else [Token(line, syms[0])] + OnLine(line, syms[1..])
  }

  /**
   * A line of one token per symbol, with no bare words to merge and no leading `and` or
   * trailing comma to drop, is assembled as the statement its symbols make.
   */
  lemma PlainLine(st: Assembly, line: nat, syms: seq<SymbolType>)
    requires WellFormed(st) && |syms| > 0
    requires forall k :: 0 <= k < |syms| ==> !syms[k].Words?
    requires syms[0] != SymbolType.And && syms[|syms| - 1] != Comma
    requires (syms == [SymbolType.Next] || syms == [SymbolType.Continue]) ==> st.loopStarts != []
    ensures Assemblable(st, OnLine(line, syms))
    ensures AssembleLine(st, OnLine(line, syms)) == Statement(st.(lastLine := line), syms, line)
  {
    PlainTokens(line, syms);
  }

  /** Such a line is its own compaction and has nothing to strip. */
  lemma PlainTokens(line: nat, syms: seq<SymbolType>)
    requires |syms| > 0
    requires forall k :: 0 <= k < |syms| ==> !syms[k].Words?
    requires syms[0] != SymbolType.And && syms[|syms| - 1] != Comma
    ensures var raw := OnLine(line, syms);
      Compact(raw) == raw && !LoneAnd(raw) && Stripped(raw) == raw && SymbolsOf(raw) == syms && raw[0].line == line
  {
    PlainCompact(line, syms);
    PlainStripped(line, syms);
    OnLineSymbols(line, syms);
  }

  lemma PlainCompact(line: nat, syms: seq<SymbolType>)
    requires |syms| > 0
    requires forall k :: 0 <= k < |syms| ==> !syms[k].Words?
    ensures Compact(OnLine(line, syms)) == OnLine(line, syms)
  {
    CompactWithoutWords(OnLine(line, syms), line);
  }

  lemma PlainStripped(line: nat, syms: seq<SymbolType>)
    requires |syms| > 0
    requires syms[0] != SymbolType.And && syms[|syms| - 1] != Comma
    ensures !LoneAnd(OnLine(line, syms)) && Stripped(OnLine(line, syms)) == OnLine(line, syms)
  {
    var raw := OnLine(line, syms);
    assert raw[0].symbol == syms[0] && raw[|raw| - 1].symbol == syms[|syms| - 1];
  }

  /** The symbols of a line of one token per symbol are those symbols. */
  lemma OnLineSymbols(line: nat, syms: seq<SymbolType>)
    ensures SymbolsOf(OnLine(line, syms)) == syms
  {
    var raw := OnLine(line, syms);
    assert forall k :: 0 <= k < |syms| ==> SymbolsOf(raw)[k] == raw[k].symbol == syms[k];
  }

  /** `test is a`: an assignment whose target is not a variable. */
  lemma BadFragment()
    ensures Statement(Initial, [Words(["test"]), SymbolType.Is, Words(["a"])], 1) ==
      Err(BadIs([Words(["test"]), SymbolType.Is, Words(["a"])], 1))
  {
  }

  /** `put foo into bar`: the target of `put` is not a variable. */
  lemma BadPut()
    ensures Statement(Initial, [Put, Words(["foo"]), Where, Words(["bar"])], 1) ==
      Err(Error.BadPut([Put, Words(["foo"]), Where, Words(["bar"])], 1))
  {
  }

  /** `if t is`: the condition ends in an operator. */
  lemma BadExpression()
    ensures Statement(Initial, [SymbolType.If, Words(["t"]), SymbolType.Is], 1) ==
      Err(UnbalancedExpression([Words(["t"]), SymbolType.Is], 1))
  {
    var syms := [SymbolType.If, Words(["t"]), SymbolType.Is];
    assert syms[1..] == [Words(["t"]), SymbolType.Is];
    TrailingOperator(Words(["t"]), SymbolType.Is, 1);
  }

  /** 10^38, the place value of the first of 39 digits. */
  lemma Pow10Of38()
    ensures Pow10(38) == 100000000000000000000000000000000000000
  {
    assert Pow10(12) == 1000000000000 && Pow10(2) == 100;
    Pow10Add(12, 12);
    Pow10Add(24, 12);
    Pow10Add(36, 2);
  }

  /** Any 39 digits starting with a 2 or more exceed the largest i128, whatever their sign. */
  lemma ThirtyNineDigitsOverflow(s: string)
    requires |s| == 39 && AllDigits(s) && s[0] >= '2'
    ensures ParseI128(s) == None
  {
    Pow10Of38();
    LeadingDigitBound(s);
    assert DigitsValue(s) > I128Max;
  }

  /** 2^128 - 1, written out, does not parse as an i128: its 39 digits start with a 3. */
  lemma UnsignedMaxOverflows()
    ensures ParseI128("340282366920938463463374607431768211455") == None
  {
    ThirtyNineDigitsOverflow("340282366920938463463374607431768211455");
  }

  /** `the loneliest is 340282366920938463463374607431768211455`: the literal overflows i128. */
  lemma TooLongInt()
    ensures Statement(Initial, [SymbolType.Variable("the loneliest"), SymbolType.Is,
                                SymbolType.Integer("340282366920938463463374607431768211455")], 1) ==
      Err(ParseIntError("340282366920938463463374607431768211455", 1))
  {
    var digits := "340282366920938463463374607431768211455";
    var syms := [SymbolType.Variable("the loneliest"), SymbolType.Is, SymbolType.Integer(digits)];
    UnsignedMaxOverflows();
    assert syms[2..] == [SymbolType.Integer(digits)];
    assert ExpressionOf(syms[2..], 1) == Err(ParseIntError(digits, 1));
    assert syms[0] != SymbolType.Say && syms[1] == SymbolType.Is && syms[0].Variable?;
  }

  /** `Absolute takes a thought`: a declaration opens a function block and enters the table. */
  lemma AbsoluteTakesAThought()
    ensures Statement(Initial, [SymbolType.Variable("Absolute"), Takes, SymbolType.Variable("a thought")], 1) ==
      Ok(Assembly([CommandLine(FunctionDeclaration("Absolute", ["a thought"], None), 1)],
                  map["Absolute" := Function(0, ["a thought"])], [], [0], [], 0))
  {
    var syms := [SymbolType.Variable("Absolute"), Takes, SymbolType.Variable("a thought")];
    assert syms[2..] == [SymbolType.Variable("a thought")];
    assert Parameters(syms[2..]) == Some(["a thought"]);
    var decl := FunctionDeclaration("Absolute", ["a thought"], None);
    assert syms[0] != SymbolType.Say && syms[1] != SymbolType.Is && syms[1] == Takes && syms[0].Variable?;
    var r := Cascade(Initial, syms, 1);
    assert r.Ok? && r.value.commands == [CommandLine(decl, 1)] && r.value.funcStarts == [0];
    assert r.value.functions == map["Absolute" := Function(0, ["a thought"])];
  }

  /**
   * A `while` line whose condition parses opens a loop: the loop is appended with its end
   * unknown and its position is pushed on the loop stack.
   */
  lemma WhileOpensLoop(st: Assembly, cond: seq<SymbolType>, e: Expression, line: nat)
    requires WellFormed(st) && |cond| > 0 && cond[0] != SymbolType.Is
    requires ExpressionOf(cond, line) == Ok(e)
    ensures Statement(st, [SymbolType.While] + cond, line) ==
      Ok(Push(st.(loopStarts := st.loopStarts + [|st.commands|]), Command.While(e, None), line))
  {
    var syms := [SymbolType.While] + cond;
    assert syms[1..] == cond && syms[1] == cond[0];
  }

  /**
   * An `if` line whose condition parses opens an if block: the If is appended with its end
   * unknown and its position is pushed on the if stack.
   */
  lemma IfOpensBlock(st: Assembly, cond: seq<SymbolType>, e: Expression, line: nat)
    requires WellFormed(st) && |cond| > 0 && cond[0] != SymbolType.Is
    requires ExpressionOf(cond, line) == Ok(e)
    ensures Statement(st, [SymbolType.If] + cond, line) ==
      Ok(Push(st.(ifStarts := st.ifStarts + [|st.commands|]), Command.If(e, None), line))
  {
    var syms := [SymbolType.If] + cond;
    assert syms[1..] == cond && syms[1] == cond[0];
  }

  /** `While Davy ain't Greatness`: a loop whose end is not known yet. */
  lemma GreatDavy(syms: seq<SymbolType>)
    requires syms == [SymbolType.While, SymbolType.Variable("Davy"), Aint, SymbolType.Variable("Greatness")]
    ensures Statement(Initial, syms, 1) ==
      Ok(Assembly([CommandLine(Command.While(Binary(Aint, Expression.Variable("Davy"), Expression.Variable("Greatness")), None), 1)],
                  map[], [0], [], [], 0))
  {
    var cond := syms[1..];
    SingleOperator(SymbolType.Variable("Davy"), Aint, SymbolType.Variable("Greatness"), 1);
    assert cond == [SymbolType.Variable("Davy"), Aint, SymbolType.Variable("Greatness")];
    WhileOpensLoop(Initial, cond, Binary(Aint, Expression.Variable("Davy"), Expression.Variable("Greatness")), 1);
    assert [SymbolType.While] + cond == syms;
    assert Initial.loopStarts + [0] == [0];
    assert Initial.commands + [CommandLine(Command.While(Binary(Aint, Expression.Variable("Davy"), Expression.Variable("Greatness")), None), 1)]
      == [CommandLine(Command.While(Binary(Aint, Expression.Variable("Davy"), Expression.Variable("Greatness")), None), 1)];
  }

  /** `Bar is foo'd`, lexed as the poetic literal `Bar is food`: four letters make 4. */
  lemma BarIsFood()
    ensures Statement(Initial, [SymbolType.Variable("Bar"), SymbolType.Is, Words(["food"])], 1) ==
      Ok(Assembly([CommandLine(Assignment("Bar", Expression.Integer(4)), 1)], map[], [], [], [], 0))
  {
    var syms := [SymbolType.Variable("Bar"), SymbolType.Is, Words(["food"])];
    assert syms[2..] == [Words(["food"])];
    LettersNeverParse("food");
    assert PoeticNumber(["food"]) == 4;
    assert Leaf(Words(["food"]), 1) == Ok(Expression.Integer(4));
    OperandsWithoutOperators([Words(["food"])], 1);
    assert ExpressionOf(syms[2..], 1) == Ok(Expression.Integer(4));
    assert syms[0] != SymbolType.Say && syms[1] == SymbolType.Is && syms[0].Variable?;
    assert Cascade(Initial, syms, 1) == Ok(Push(Initial, Assignment("Bar", Expression.Integer(4)), 1));
    assert Push(Initial, Assignment("Bar", Expression.Integer(4)), 1) == Assembly([CommandLine(Assignment("Bar", Expression.Integer(4)), 1)], map[], [], [], [], 0);
  }

  /** A plain line whose statement succeeds takes the assembler to a well-formed state. */
  lemma PlainLineStep(st: Assembly, line: nat, syms: seq<SymbolType>, next: Assembly)
    requires WellFormed(st) && |syms| > 0
    requires forall k :: 0 <= k < |syms| ==> !syms[k].Words?
    requires syms[0] != SymbolType.And && syms[|syms| - 1] != Comma
    requires (syms == [SymbolType.Next] || syms == [SymbolType.Continue]) ==> st.loopStarts != []
    requires Statement(st.(lastLine := line), syms, line) == Ok(next)
    ensures Assemblable(st, OnLine(line, syms))
    ensures AssembleLine(st, OnLine(line, syms)) == Ok(next) && WellFormed(next)
  {
    PlainLine(st, line, syms);
    AssembleLineKeeps(st, OnLine(line, syms));
  }

  /** A line that succeeds hands the rest of the lines to the state it produced. */
  lemma LinesStep(st: Assembly, first: seq<Token>, rest: seq<seq<Token>>, next: Assembly)
    requires WellFormed(st) && Assemblable(st, first) && AssembleLine(st, first) == Ok(next)
    requires WellFormed(next) && NoPanic(next, rest)
    ensures NoPanic(st, [first] + rest)
    ensures AssembleLines(st, [first] + rest) == AssembleLines(next, rest)
  {
    assert ([first] + rest)[0] == first && ([first] + rest)[1..] == rest;
  }

  // ----- An if, a loop opened inside it, and two blank lines -----

  function IfSymbols(): seq<SymbolType> { [SymbolType.If, SymbolType.Variable("Davy"), SymbolType.Is, SymbolType.Integer("0")] }
  function LoopSymbols(): seq<SymbolType> { [SymbolType.While, SymbolType.Variable("Davy"), Aint, SymbolType.Variable("Greatness")] }
  function IfCondition(): Expression { Binary(SymbolType.Is, Expression.Variable("Davy"), Expression.Integer(0)) }
  function LoopCondition(): Expression { Binary(Aint, Expression.Variable("Davy"), Expression.Variable("Greatness")) }

  function AfterIf(): Assembly
  {
    Assembly([CommandLine(Command.If(IfCondition(), None), 1)], map[], [], [], [0], 1)
  }

  function AfterLoop(): Assembly
  {
    Assembly([CommandLine(Command.If(IfCondition(), None), 1), CommandLine(Command.While(LoopCondition(), None), 2)],
             map[], [1], [], [0], 2)
  }

  function AfterFirstBlank(): Assembly
  {
    Assembly([CommandLine(Command.If(IfCondition(), Some(2)), 1), CommandLine(Command.While(LoopCondition(), None), 2),
              CommandLine(EndIf, 3)], map[], [1], [], [], 2)
  }

  function AfterSecondBlank(): Assembly
  {
    Assembly([CommandLine(Command.If(IfCondition(), Some(2)), 1), CommandLine(Command.While(LoopCondition(), Some(3)), 2),
              CommandLine(EndIf, 3), CommandLine(Command.Next(1), 4)], map[], [], [], [], 3)
  }

  lemma AfterIfWellFormed() ensures WellFormed(AfterIf()) {}
  lemma LoopEnds() ensures EndsResolved(AfterLoop().commands) && JumpsResolved(AfterLoop().commands)
  {
    var cs := AfterLoop().commands;
    assert cs[0].cmd == Command.If(IfCondition(), None) && cs[1].cmd == Command.While(LoopCondition(), None);
  }

  lemma LoopOpen(kind: BlockKind)
    ensures AllOpenOn(AfterLoop().commands, if kind == LoopBlock then [1] else if kind == IfBlock then [0] else [], kind)
  {
    var cs := AfterLoop().commands;
    forall i | 0 <= i < |cs| && Open(cs[i].cmd, kind)
      ensures i in (if kind == LoopBlock then [1] else if kind == IfBlock then [0] else [])
    {
      assert i == 0 || i == 1;
    }
  }

  lemma AfterLoopWellFormed() ensures WellFormed(AfterLoop())
  {
    LoopEnds();
    LoopOpen(IfBlock);
    LoopOpen(LoopBlock);
    LoopOpen(FunctionBlock);
  }
  lemma FirstBlankEnds() ensures EndsResolved(AfterFirstBlank().commands) && JumpsResolved(AfterFirstBlank().commands)
  {
    var cs := AfterFirstBlank().commands;
    assert cs[0].cmd == Command.If(IfCondition(), Some(2)) && cs[2].cmd == EndIf;
    assert cs[1].cmd == Command.While(LoopCondition(), None);
  }

  lemma FirstBlankOpen(kind: BlockKind)
    ensures AllOpenOn(AfterFirstBlank().commands, if kind == LoopBlock then [1] else [], kind)
  {
    var cs := AfterFirstBlank().commands;
    forall i | 0 <= i < |cs| && Open(cs[i].cmd, kind) ensures i in (if kind == LoopBlock then [1] else []) {
      assert i == 1;
    }
  }

  lemma AfterFirstBlankWellFormed() ensures WellFormed(AfterFirstBlank())
  {
    FirstBlankEnds();
    FirstBlankOpen(IfBlock);
    FirstBlankOpen(LoopBlock);
    FirstBlankOpen(FunctionBlock);
  }

  lemma SecondBlankEnds() ensures EndsResolved(AfterSecondBlank().commands)
  {
    var cs := AfterSecondBlank().commands;
    assert cs[0].cmd == Command.If(IfCondition(), Some(2)) && cs[2].cmd == EndIf;
    assert cs[1].cmd == Command.While(LoopCondition(), Some(3)) && cs[3].cmd == Command.Next(1);
  }

  lemma SecondBlankJumps() ensures JumpsResolved(AfterSecondBlank().commands)
  {
    var cs := AfterSecondBlank().commands;
    assert cs[1].cmd.IsLoop() && cs[1].cmd.loopEnd == Some(3);
  }

  lemma SecondBlankClosed(kind: BlockKind) ensures AllOpenOn(AfterSecondBlank().commands, [], kind)
  {
    var cs := AfterSecondBlank().commands;
    forall i | 0 <= i < |cs| ensures !Open(cs[i].cmd, kind) {
      assert i == 0 || i == 1 || i == 2 || i == 3;
    }
  }

  lemma AfterSecondBlankWellFormed() ensures WellFormed(AfterSecondBlank())
  {
    SecondBlankEnds();
    SecondBlankJumps();
    SecondBlankClosed(IfBlock);
    SecondBlankClosed(LoopBlock);
    SecondBlankClosed(FunctionBlock);
  }

  lemma OpenIf()
    ensures Statement(Initial.(lastLine := 1), IfSymbols(), 1) == Ok(AfterIf())
  {
    var cond := [SymbolType.Variable("Davy"), SymbolType.Is, SymbolType.Integer("0")];
    NothingIsZero(1);
    SingleOperator(SymbolType.Variable("Davy"), SymbolType.Is, SymbolType.Integer("0"), 1);
    IfOpensBlock(Initial.(lastLine := 1), cond, IfCondition(), 1);
    assert [SymbolType.If] + cond == IfSymbols();
    assert Initial.ifStarts + [0] == [0];
    assert Initial.commands + [CommandLine(Command.If(IfCondition(), None), 1)] == AfterIf().commands;
  }

  lemma OpenLoop()
    requires WellFormed(AfterIf())
    ensures Statement(AfterIf().(lastLine := 2), LoopSymbols(), 2) == Ok(AfterLoop())
  {
    var cond := [SymbolType.Variable("Davy"), Aint, SymbolType.Variable("Greatness")];
    SingleOperator(SymbolType.Variable("Davy"), Aint, SymbolType.Variable("Greatness"), 2);
    WhileOpensLoop(AfterIf().(lastLine := 2), cond, LoopCondition(), 2);
    assert [SymbolType.While] + cond == LoopSymbols();
    assert AfterIf().loopStarts + [1] == [1];
    assert AfterIf().commands + [CommandLine(Command.While(LoopCondition(), None), 2)] == AfterLoop().commands;
  }

  lemma CloseIf()
    requires WellFormed(AfterLoop())
    ensures Statement(AfterLoop().(lastLine := 2), [Newline], 2) == Ok(AfterFirstBlank())
  {
    var r := EndBlock(AfterLoop().(lastLine := 2), 3);
    assert r.commands == AfterFirstBlank().commands && r.ifStarts == [];
  }

  lemma CloseLoop()
    requires WellFormed(AfterFirstBlank())
    ensures Statement(AfterFirstBlank().(lastLine := 3), [Newline], 3) == Ok(AfterSecondBlank())
  {
    var r := EndBlock(AfterFirstBlank().(lastLine := 3), 4);
    assert r.commands == AfterSecondBlank().commands && r.loopStarts == [];
  }

  /** A run of plain lines that each succeed assembles to the state the last one produced. */
  lemma PlainLines(st: Assembly, line: nat, syms: seq<SymbolType>, next: Assembly, rest: seq<seq<Token>>, final: Assembly)
    requires WellFormed(st) && WellFormed(next) && |syms| > 0
    requires forall k :: 0 <= k < |syms| ==> !syms[k].Words?
    requires syms[0] != SymbolType.And && syms[|syms| - 1] != Comma
    requires (syms == [SymbolType.Next] || syms == [SymbolType.Continue]) ==> st.loopStarts != []
    requires Statement(st.(lastLine := line), syms, line) == Ok(next)
    requires NoPanic(next, rest) && AssembleLines(next, rest) == Ok(final)
    ensures NoPanic(st, [OnLine(line, syms)] + rest)
    ensures AssembleLines(st, [OnLine(line, syms)] + rest) == Ok(final)
  {
    PlainLineStep(st, line, syms, next);
    LinesStep(st, OnLine(line, syms), rest, next);
  }
}
