/**
 * `parse` (src/parser.rs:496-764): the text rewrites, lexing, the check for text left over,
 * and the assembler loop over the lexed lines, written as the loop it is.
 */
module Parser {
  import opened Wrappers
  import opened Common
  import opened Lexer
  import opened Compaction
  import opened Expressions
  import opened Assembler

  // ----- Text rewrites -----

  /**
   * A regex word character: an ASCII letter, digit or underscore. Characters beyond ASCII
   * are counted as word characters, an approximation of the Unicode classes.
   */
  predicate RegexWordChar(c: char)
  {
    'A' <= c <= 'Z' || 'a' <= c <= 'z' || '0' <= c <= '9' || c == '_' || c > '\U{7F}'
  }

  /**
   * The regex `'s\W+` replaced by ` is ` in `s[i..]`, leftmost match first, each `\W+` as long
   * as it goes.
   */
  function ReplacePossessive(s: string, i: nat): (r: string)
    requires i <= |s|
    decreases |s| - i
  {
    if i + 3 <= |s| && s[i] == '\'' && s[i + 1] == 's' && !RegexWordChar(s[i + 2]) then
      " is " + ReplacePossessive(s, NonWordRunEnd(s, i + 2))
    else if i == |s| then []
    else [s[i]] + ReplacePossessive(s, i + 1)
  }

  function NonWordRunEnd(s: string, i: nat): (j: nat)
    requires i <= |s|
    ensures i <= j <= |s|
    ensures forall k :: i <= k < j ==> !RegexWordChar(s[k])
    ensures j < |s| ==> RegexWordChar(s[j])
    decreases |s| - i
  {
    if i == |s| || RegexWordChar(s[i]) then i else NonWordRunEnd(s, i + 1)
  }

  /** `s[i..]` with every apostrophe removed. */
  function DeleteApostrophes(s: string, i: nat): (r: string)
    requires i <= |s|
    ensures forall k :: 0 <= k < |r| ==> r[k] != '\''
    ensures |r| <= |s| - i
    decreases |s| - i
  {
    if i == |s| then []
    else (if s[i] == '\'' then [] else [s[i]]) + DeleteApostrophes(s, i + 1)
  }

  /** The input as the lexer sees it. */
  function Normalise(input: string): (r: string)
    ensures forall k :: 0 <= k < |r| ==> r[k] != '\''
  {
    var replaced := ReplacePossessive(input, 0);
    DeleteApostrophes(replaced, 0)
  }

  /** Where a possessive match starts at `i`: an apostrophe, an `s`, and a character that is not a word character. */
  predicate PossessiveAt(s: string, i: nat)
  {
    i + 3 <= |s| && s[i] == '\'' && s[i + 1] == 's' && !RegexWordChar(s[i + 2])
  }

  lemma {:induction false} NonWordRunEndShift(s: string, i: nat, j: nat)
    requires i <= j <= |s|
    ensures NonWordRunEnd(s, j) == i + NonWordRunEnd(s[i..], j - i)
    decreases |s| - j
  {
    if j < |s| && !RegexWordChar(s[j]) {
      assert s[i..][j - i] == s[j];
      NonWordRunEndShift(s, i, j + 1);
    } else if j < |s| {
      assert s[i..][j - i] == s[j];
    }
  }

  /** The rewrite of `s[i..]` depends on `s[i..]` alone. */
  lemma {:induction false} ReplacePossessiveShift(s: string, i: nat)
    requires i <= |s|
    ensures ReplacePossessive(s, i) == ReplacePossessive(s[i..], 0)
    decreases |s| - i, 1
  {
    if PossessiveAt(s, i) {
      ShiftMatch(s, i);
    } else if i < |s| {
      ShiftOther(s, i);
    }
  }

  /** ReplacePossessiveShift where a match starts at `i`. */
  lemma {:induction false} ShiftMatch(s: string, i: nat)
    requires i <= |s| && PossessiveAt(s, i)
    ensures ReplacePossessive(s, i) == ReplacePossessive(s[i..], 0)
    decreases |s| - i, 0
  {
    var t := s[i..];
    assert t[0] == s[i] && t[1] == s[i + 1] && t[2] == s[i + 2];
    assert PossessiveAt(t, 0);
    var j := NonWordRunEnd(s, i + 2);
    NonWordRunEndShift(s, i, i + 2);
    ReplacePossessiveShift(s, j);
    ReplacePossessiveShift(t, j - i);
    assert t[j - i..] == s[j..];
  }

  /** ReplacePossessiveShift where no match starts at `i`. */
  lemma {:induction false} ShiftOther(s: string, i: nat)
    requires i < |s| && !PossessiveAt(s, i)
    ensures ReplacePossessive(s, i) == ReplacePossessive(s[i..], 0)
    decreases |s| - i, 0
  {
    var t := s[i..];
    assert t[0] == s[i];
    assert |t| >= 3 ==> t[1] == s[i + 1] && t[2] == s[i + 2];
    assert !PossessiveAt(t, 0);
    ReplacePossessiveShift(s, i + 1);
    ReplacePossessiveShift(t, 1);
    assert t[1..] == s[i + 1..];
  }

  /** A stretch without apostrophes passes through the rewrite unchanged. */
  lemma {:induction false} ReplacePossessivePlain(s: string, i: nat, p: nat)
    requires i <= p <= |s| && '\'' !in s[i..p]
    ensures ReplacePossessive(s, i) == s[i..p] + ReplacePossessive(s, p)
    decreases p - i
  {
    if i < p {
      assert s[i..p][0] == s[i];
      assert s[i + 1..p] == s[i..p][1..];
      ReplacePossessivePlain(s, i + 1, p);
      assert s[i..p] == [s[i]] + s[i + 1..p];
    }
  }

  lemma {:induction false} DeleteApostrophesShift(s: string, i: nat)
    requires i <= |s|
    ensures DeleteApostrophes(s, i) == DeleteApostrophes(s[i..], 0)
    decreases |s| - i
  {
    if i < |s| {
      assert s[i..][0] == s[i] && s[i..][1..] == s[i + 1..];
      DeleteApostrophesShift(s, i + 1);
      DeleteApostrophesShift(s[i..], 1);
    }
  }

  lemma {:induction false} DeleteApostrophesAppend(x: string, y: string, i: nat)
    requires i <= |x|
    ensures DeleteApostrophes(x + y, i) == DeleteApostrophes(x, i) + DeleteApostrophes(y, 0)
    decreases |x| - i
  {
    if i == |x| {
      DeleteApostrophesShift(x + y, i);
      assert (x + y)[i..] == y;
    } else {
      assert (x + y)[i] == x[i];
      DeleteApostrophesAppend(x, y, i + 1);
    }
  }

  lemma {:induction false} DeleteApostrophesPlain(s: string, i: nat)
    requires i <= |s| && '\'' !in s[i..]
    ensures DeleteApostrophes(s, i) == s[i..]
    decreases |s| - i
  {
    if i < |s| {
      assert s[i..][0] == s[i] && s[i..][1..] == s[i + 1..];
      DeleteApostrophesPlain(s, i + 1);
    }
  }

  /** Text without an apostrophe reaches the lexer unchanged. */
  lemma NormaliseKeepsPlainText(input: string)
    requires '\'' !in input
    ensures Normalise(input) == input
  {
    assert input[0..|input|] == input;
    ReplacePossessivePlain(input, 0, |input|);
    assert ReplacePossessive(input, 0) == input;
    assert input[0..] == input;
    DeleteApostrophesPlain(input, 0);
  }

  /** The rewrite of text without apostrophes, then `rest` at position `n`. */
  lemma ReplaceAfterPlain(a: string, s: string)
    requires |a| <= |s| && s[..|a|] == a && '\'' !in a
    ensures ReplacePossessive(s, 0) == a + ReplacePossessive(s[|a|..], 0)
  {
    assert s[0..|a|] == a;
    ReplacePossessivePlain(s, 0, |a|);
    ReplacePossessiveShift(s, |a|);
  }

  /** The rewrite of `'s`, a run of non-word characters, then `b`. */
  lemma ReplacePossessiveMatch(s: string, run: string, b: string)
    requires |s| == 2 + |run| + |b| && s[0] == '\'' && s[1] == 's' && s[2..2 + |run|] == run && s[2 + |run|..] == b
    requires |run| > 0 && forall k :: 0 <= k < |run| ==> !RegexWordChar(run[k])
    requires b == [] || RegexWordChar(b[0])
    ensures ReplacePossessive(s, 0) == " is " + ReplacePossessive(b, 0)
  {
    var j := 2 + |run|;
    assert s[2] == run[0];
    assert PossessiveAt(s, 0);
    forall k | 2 <= k < j
      ensures !RegexWordChar(s[k])
    {
      assert s[k] == run[k - 2];
    }
    assert j < |s| ==> s[j] == b[0];
    NonWordRunEndIs(s, 2, j);
    ReplacePossessiveShift(s, j);
  }

  /** The rewrite of an apostrophe that does not start a possessive match, then `b`. */
  lemma ReplaceLoneApostrophe(s: string, b: string)
    requires |s| == 1 + |b| && s[0] == '\'' && s[1..] == b
    requires !(|b| >= 2 && b[0] == 's' && !RegexWordChar(b[1]))
    ensures ReplacePossessive(s, 0) == "'" + ReplacePossessive(b, 0)
  {
    assert |s| >= 3 ==> s[1] == b[0] && s[2] == b[1];
    assert !PossessiveAt(s, 0);
    ReplacePossessiveShift(s, 1);
  }

  /** Deleting apostrophes from text without any, then from the rest. */
  lemma DeleteAfterPlain(a: string, rest: string)
    requires '\'' !in a
    ensures DeleteApostrophes(a + rest, 0) == a + DeleteApostrophes(rest, 0)
  {
    DeleteApostrophesAppend(a, rest, 0);
    assert a[0..] == a;
    DeleteApostrophesPlain(a, 0);
  }

  /**
   * A possessive `'s` with the run of non-word characters after it becomes ` is `: text without
   * apostrophes, then `'s`, then that run, then text starting with a word character.
   */
  lemma NormalisePossessive(a: string, run: string, b: string)
    requires '\'' !in a
    requires |run| > 0 && forall k :: 0 <= k < |run| ==> !RegexWordChar(run[k])
    requires b == [] || RegexWordChar(b[0])
    ensures Normalise(a + "'s" + run + b) == a + " is " + Normalise(b)
  {
    var s := a + "'s" + run + b;
    var t := s[|a|..];
    assert s[..|a|] == a;
    ReplaceAfterPlain(a, s);
    assert t == "'s" + run + b;
    assert t[2..2 + |run|] == run && t[2 + |run|..] == b;
    ReplacePossessiveMatch(t, run, b);
    var rest := ReplacePossessive(b, 0);
    assert ReplacePossessive(s, 0) == a + " is " + rest;
    DeleteAfterPlain(a + " is ", rest);
  }

  /** Any other apostrophe is dropped. */
  lemma NormaliseDropsApostrophe(a: string, b: string)
    requires '\'' !in a
    requires !(|b| >= 2 && b[0] == 's' && !RegexWordChar(b[1]))
    ensures Normalise(a + "'" + b) == a + Normalise(b)
  {
    var s := a + "'" + b;
    var t := s[|a|..];
    assert s[..|a|] == a;
    ReplaceAfterPlain(a, s);
    assert t == "'" + b && t[1..] == b;
    ReplaceLoneApostrophe(t, b);
    var rest := ReplacePossessive(b, 0);
    assert ReplacePossessive(s, 0) == a + ("'" + rest);
    DeleteAfterPlain(a, "'" + rest);
    DeleteApostrophesAppend("'", rest, 0);
  }

  /** An apostrophe inside a word is dropped: `foo'd` reads as `food`. */
  lemma FooIsFood()
    ensures Normalise("Bar is foo'd") == "Bar is food"
  {
    assert "Bar is foo'd" == "Bar is foo" + "'" + "d";
    NormaliseDropsApostrophe("Bar is foo", "d");
    NormaliseKeepsPlainText("d");
  }

  /** The run of non-word characters from `i` ends at `j`. */
  lemma {:induction false} NonWordRunEndIs(s: string, i: nat, j: nat)
    requires i <= j <= |s|
    requires forall k :: i <= k < j ==> !RegexWordChar(s[k])
    requires j < |s| ==> RegexWordChar(s[j])
    ensures NonWordRunEnd(s, i) == j
    decreases j - i
  {
    if i < j {
      NonWordRunEndIs(s, i + 1, j);
    }
  }

  /** Rust's `char::is_whitespace`: the Unicode White_Space property. */
  predicate IsWhitespace(c: char)
  {
    c == ' ' || '\t' <= c <= '\r' || c == '\U{85}' || c == '\U{A0}' || c == '\U{1680}' ||
    '\U{2000}' <= c <= '\U{200A}' || c == '\U{2028}' || c == '\U{2029}' || c == '\U{202F}' ||
    c == '\U{205F}' || c == '\U{3000}'
  }

  predicate HasNonWhitespace(s: string)
  {
    exists k :: 0 <= k < |s| && !IsWhitespace(s[k])
  }

  // ----- parse -----

  /** The source panics on none of the lexed lines. */
  predicate ParseNoPanic(input: string)
  {
    var text := Normalise(input);
    match Lines(text)
    case None => true
    case Some((lines, j)) => !HasNonWhitespace(text[j..]) ==> NoPanic(Initial, lines)
  }

  /**
   * What `parse` returns: a lexing failure, text left over that is not all whitespace (with
   * its line), the first error of a line, or the program.
   */
  function ParseResult(input: string): (r: Result<Program>)
    requires ParseNoPanic(input)
  {
    var text := Normalise(input);
    match Lines(text)
    case None => Err(LexFailure)
    case Some((lines, j)) =>
      if HasNonWhitespace(text[j..]) then Err(UnparsedText(text[j..], LineAt(text, j)))
      else
        match AssembleLines(Initial, lines)
        case Err(e) => Err(e)
        case Ok(st) => Ok(Program(st.commands, st.functions))
  }

  /** build_next on the assembler's local vectors. */
  method BuildNextInPlace(commands: seq<CommandLine>, loopStarts: seq<nat>)
    returns (commands': seq<CommandLine>, loopStarts': seq<nat>, cmd: Command)
    requires |loopStarts| > 0 && Last(loopStarts) < |commands| && commands[Last(loopStarts)].cmd.IsLoop()
    ensures (Assembly(commands', map[], loopStarts', [], [], 0), cmd) ==
      BuildNext(Assembly(commands, map[], loopStarts, [], [], 0))
  {
    var loopStart := loopStarts[|loopStarts| - 1];
    loopStarts' := loopStarts[..|loopStarts| - 1];
    commands' := CloseAt(commands, loopStart);
    cmd := Command.Next(loopStart);
  }

  function Prepend(args: seq<string>, rest: Option<seq<string>>): Option<seq<string>>
  {
    if rest.None? then None else Some(args + rest.value)
  }

  /** The parameter loop of a function declaration. */
  method DeclaredParameters(syms: seq<SymbolType>) returns (r: Option<seq<string>>)
    ensures r == Parameters(syms)
  {
    var args: seq<string> := [];
    var i := 0;
    assert syms[i..] == syms;
    assert Parameters(syms).Some? ==> [] + Parameters(syms).value == Parameters(syms).value;
    while true
      invariant 0 <= i <= |syms|
      invariant Parameters(syms) == Prepend(args, Parameters(syms[i..]))
      decreases |syms| - i
    {
      if i < |syms| && syms[i].Variable? {
        ghost var start := i;
        args := args + [syms[i].name];
        i := i + 1;
        if i == |syms| {
          assert syms[start..] == [syms[start]];
          return Some(args);
        }
        if syms[i] != SymbolType.And {
          return None;
        }
        i := i + 1;
        assert syms[start..][2..] == syms[i..];
        assert Parameters(syms[i..]).Some? ==>
          args[..|args| - 1] + ([syms[start].name] + Parameters(syms[i..]).value) == args + Parameters(syms[i..]).value;
      } else {
        return None;
      }
    }
  }

  /**
   * The exact-shape arms of the per-line match, then the cascade, written as the body of the
   * loop of `parse`: it pushes onto local copies of the command vector and the three stacks.
   * `Assembler.Statement` is the specification it is proved equal to.
   */
  method AddStatement(st: Assembly, syms: seq<SymbolType>, currentLine: nat) returns (r: Result<Assembly>)
    requires WellFormed(st) && |syms| > 0
    requires (syms == [SymbolType.Next] || syms == [SymbolType.Continue]) ==> st.loopStarts != []
    ensures r == Statement(st, syms, currentLine)
  {
    var commands, loopStarts, funcStarts, ifStarts := st.commands, st.loopStarts, st.funcStarts, st.ifStarts;
    if |syms| == 3 && syms[0] == SymbolType.Build && syms[1].Variable? && syms[2] == SymbolType.Up {
      commands := commands + [CommandLine(Increment(syms[1].name), currentLine)];
    } else if |syms| == 3 && syms[0] == SymbolType.Knock && syms[1].Variable? && syms[2] == SymbolType.Down {
      commands := commands + [CommandLine(Decrement(syms[1].name), currentLine)];
    } else if syms == [SymbolType.Next] {
      var command;
      commands, loopStarts, command := BuildNextInPlace(commands, loopStarts);
      commands := commands + [CommandLine(command, currentLine)];
    } else if syms == [SymbolType.Continue] {
      var loopStart := loopStarts[|loopStarts| - 1];
      commands := commands + [CommandLine(Command.Continue(loopStart), currentLine)];
    } else if syms == [Newline] || syms == [Comment] {
      var endLine := if syms[0] == Newline then currentLine + 1 else currentLine;
      if ifStarts != [] {
        var ifStart := ifStarts[|ifStarts| - 1];
        ifStarts := ifStarts[..|ifStarts| - 1];
        commands := CloseAt(commands, ifStart);
        commands := commands + [CommandLine(EndIf, endLine)];
      } else if loopStarts != [] {
        var command;
        commands, loopStarts, command := BuildNextInPlace(commands, loopStarts);
        commands := commands + [CommandLine(command, endLine)];
      } else if funcStarts != [] {
        var funcStart := funcStarts[|funcStarts| - 1];
        funcStarts := funcStarts[..|funcStarts| - 1];
        commands := CloseAt(commands, funcStart);
        commands := commands + [CommandLine(EndFunction, endLine)];
      }
    } else if |syms| == 1 && syms[0].Taking? {
      commands := commands + [CommandLine(Command.Call(syms[0].target, VariableReferences(syms[0].args)), currentLine)];
    } else {
      r := AddCascadeStatement(st, syms, currentLine);
      return;
    }
    return Ok(st.(commands := commands, loopStarts := loopStarts, funcStarts := funcStarts, ifStarts := ifStarts));
  }

  /**
   * The `_` arm of the per-line match: prefix, infix and suffix shapes in order, on local
   * copies of the vectors as in `parse`. `Assembler.Cascade` is its specification.
   */
  method AddCascadeStatement(st: Assembly, syms: seq<SymbolType>, currentLine: nat) returns (r: Result<Assembly>)
    requires WellFormed(st) && |syms| > 0
    ensures r == Cascade(st, syms, currentLine)
  {
    var commands, functions, loopStarts, funcStarts, ifStarts := st.commands, st.functions, st.loopStarts, st.funcStarts, st.ifStarts;
    var n := |commands|;
    if syms[0] == SymbolType.Say && |syms| > 1 {
      var expression :- ParseExpression(syms[1..], currentLine);
      commands := commands + [CommandLine(Command.Say(expression), currentLine)];
    } else if |syms| > 1 && syms[1] == SymbolType.Is {
      if !syms[0].Variable? {
        return Err(BadIs(syms, currentLine));
      }
      var expression :- ParseExpression(syms[2..], currentLine);
      commands := commands + [CommandLine(Assignment(syms[0].name, expression), currentLine)];
    } else if syms[0] == SymbolType.Until && |syms| > 1 {
      loopStarts := loopStarts + [n];
      var expression :- ParseExpression(syms[1..], currentLine);
      commands := commands + [CommandLine(Command.Until(expression, None), currentLine)];
    } else if syms[0] == SymbolType.While && |syms| > 1 {
      loopStarts := loopStarts + [n];
      var expression :- ParseExpression(syms[1..], currentLine);
      commands := commands + [CommandLine(Command.While(expression, None), currentLine)];
    } else if syms[0] == SymbolType.If && |syms| > 1 {
      ifStarts := ifStarts + [n];
      var expression :- ParseExpression(syms[1..], currentLine);
      commands := commands + [CommandLine(Command.If(expression, None), currentLine)];
    } else if |syms| > 3 && syms[0] == SymbolType.Put && syms[|syms| - 2] == SymbolType.Where {
      if !syms[|syms| - 1].Variable? {
        return Err(BadPut(syms, currentLine));
      }
      var expression :- ParseExpression(syms[1..|syms| - 2], currentLine);
      commands := commands + [CommandLine(Assignment(syms[|syms| - 1].name, expression), currentLine)];
    } else if |syms| > 2 && syms[1] == SymbolType.Takes {
      if !syms[0].Variable? {
        return Err(BadFunctionDeclaration(syms, currentLine));
      }
      var args := DeclaredParameters(syms[2..]);
      if args.None? {
        return Err(BadFunctionDeclaration(syms, currentLine));
      }
      funcStarts := funcStarts + [n];
      functions := functions[syms[0].name := Function(n, args.value)];
      commands := commands + [CommandLine(FunctionDeclaration(syms[0].name, args.value, None), currentLine)];
    } else if syms[0] == SymbolType.Return && |syms| > 1 {
      var expression :- ParseExpression(syms[1..], currentLine);
      commands := commands + [CommandLine(Command.Return(expression), currentLine)];
    } else {
      return Err(BadCommandSequence(syms, currentLine));
    }
    return Ok(Assembly(commands, functions, loopStarts, funcStarts, ifStarts, st.lastLine));
  }

  /**
   * parse: rewrite, lex, reject leftover text, then one pass over the lines that appends
   * commands and backpatches block ends through three stacks of start indices.
   */
  method Parse(input: string) returns (r: Result<Program>)
    requires ParseNoPanic(input)
    ensures r == ParseResult(input)
  {
    var fixedInput := Normalise(input);
    var rawLines := Lines(fixedInput);
    if rawLines.None? {
      return Err(LexFailure);
    }
    var (lines, rest) := rawLines.value;
    if HasNonWhitespace(fixedInput[rest..]) {
      return Err(UnparsedText(fixedInput[rest..], LineAt(fixedInput, rest)));
    }
    var program := AssembleProgram(lines);
    return program;
  }

  /** The body of the loop of parse: compact, strip the connectives, then dispatch. */
  method AddLine(st: Assembly, raw: seq<Token>) returns (r: Result<Assembly>)
    requires WellFormed(st) && Assemblable(st, raw)
    ensures r == AssembleLine(st, raw)
  {
    var symbols := CompactWords(raw);
    ghost var compacted := symbols;
    if symbols[0].symbol == SymbolType.And {
      symbols := symbols[1..];
    }
    if symbols[|symbols| - 1].symbol == Comma {
      symbols := symbols[..|symbols| - 1];
    }
    assert symbols == Stripped(compacted);
    if symbols == [] {
      return Err(NoSymbols(st.lastLine + 1));
    }
    var currentLine := symbols[0].line;
    var st' := st.(lastLine := currentLine);
    assert WellFormed(st');
    r := AddStatement(st', SymbolsOf(symbols), currentLine);
  }

  /** The loop of parse over the lexed lines. */
  method AssembleProgram(lines: seq<seq<Token>>) returns (r: Result<Program>)
    requires NoPanic(Initial, lines)
    ensures r == match AssembleLines(Initial, lines)
      case Err(e) => Err(e)
      case Ok(st) => Ok(Program(st.commands, st.functions))
  {
    var st := Initial;
    for i := 0 to |lines|
      invariant WellFormed(st) && NoPanic(st, lines[i..])
      invariant AssembleLines(Initial, lines) == AssembleLines(st, lines[i..])
    {
      AssembleLinesStep(st, lines[i..]);
      assert lines[i..][0] == lines[i] && lines[i..][1..] == lines[i + 1..];
      var next := AddLine(st, lines[i]);
      if next.Err? {
        return Err(next.error);
      }
      st := next.value;
    }
    assert lines[|lines|..] == [];
    return Ok(Program(st.commands, st.functions));
  }
}
