/**
 * The block assembler of src/parser.rs (`parse`, lines 496-764, and `build_next`): one pass
 * over the lexed lines that appends commands and backpatches the end of each block when the
 * line that closes it is met. Open blocks are tracked by three stacks of command indices.
 */
module Assembler {
  import opened Wrappers
  import opened Common
  import opened Compaction
  import opened Expressions

  /** The assembler's local state between two lines. */
  datatype Assembly = Assembly(
    commands: seq<CommandLine>,
    functions: map<string, Function>,
    loopStarts: seq<nat>,
    funcStarts: seq<nat>,
    ifStarts: seq<nat>,
    lastLine: nat)

  const Initial := Assembly([], map[], [], [], [], 0)

  // ----- Blocks -----

  datatype BlockKind = IfBlock | LoopBlock | FunctionBlock

  /** `c` opens a block of kind `kind` whose end is not yet known. */
  predicate Open(c: Command, kind: BlockKind)
  {
    match kind
    case IfBlock => c.If? && c.ifEnd.None?
    case LoopBlock => c.IsLoop() && c.loopEnd.None?
    case FunctionBlock => c.FunctionDeclaration? && c.funcEnd.None?
  }

  /** Option::get_or_insert */
  function GetOrInsert(end: Option<nat>, v: nat): Option<nat>
  {
    if end.None? then Some(v) else end
  }

  /** The block opener at `s` with its end set to the current number of commands, if unset. */
  function CloseAt(cs: seq<CommandLine>, s: nat): (r: seq<CommandLine>)
    requires s < |cs| && (cs[s].cmd.If? || cs[s].cmd.IsLoop() || cs[s].cmd.FunctionDeclaration?)
    ensures |r| == |cs| && forall k :: 0 <= k < |cs| && k != s ==> r[k] == cs[k]
  {
    var closed := match cs[s].cmd
      case If(e, end) => Command.If(e, GetOrInsert(end, |cs|))
      case While(e, end) => Command.While(e, GetOrInsert(end, |cs|))
      case Until(e, end) => Command.Until(e, GetOrInsert(end, |cs|))
      case FunctionDeclaration(n, p, end) => FunctionDeclaration(n, p, GetOrInsert(end, |cs|));
    cs[s := CommandLine(closed, cs[s].line)]
  }

  function Last(s: seq<nat>): nat
    requires |s| > 0
  {
    s[|s| - 1]
  }

  function DropLast(s: seq<nat>): seq<nat>
    requires |s| > 0
  {
    s[..|s| - 1]
  }

  function Push(st: Assembly, cmd: Command, line: nat): Assembly
  {
    st.(commands := st.commands + [CommandLine(cmd, line)])
  }

  // ----- The invariant -----

  /** Every index on `stack` is an open block of `kind`, in increasing order. */
  predicate StackOf(cs: seq<CommandLine>, stack: seq<nat>, kind: BlockKind)
  {
    (forall k :: 0 <= k < |stack| ==> stack[k] < |cs| && Open(cs[stack[k]].cmd, kind)) &&
    (forall j, k :: 0 <= j < k < |stack| ==> stack[j] < stack[k])
  }

  /** Every open block of `kind` is on `stack`. */
  predicate AllOpenOn(cs: seq<CommandLine>, stack: seq<nat>, kind: BlockKind)
  {
    forall i :: 0 <= i < |cs| && Open(cs[i].cmd, kind) ==> i in stack
  }

  /** Every end that is set points forward to the command that closed the block. */
  predicate EndsResolved(cs: seq<CommandLine>)
  {
    forall i :: 0 <= i < |cs| ==>
      match cs[i].cmd
      case If(_, end) => end.Some? ==> i < end.value < |cs| && cs[end.value].cmd == EndIf
      case While(_, end) => end.Some? ==> i < end.value < |cs| && cs[end.value].cmd == Command.Next(i)
      case Until(_, end) => end.Some? ==> i < end.value < |cs| && cs[end.value].cmd == Command.Next(i)
      case FunctionDeclaration(_, _, end) => end.Some? ==> i < end.value < |cs| && cs[end.value].cmd == EndFunction
      case _ => true
  }

  /** `Next` jumps back to the loop it closed; `Continue` jumps back to an earlier loop. */
  predicate JumpsResolved(cs: seq<CommandLine>)
  {
    forall i :: 0 <= i < |cs| ==>
      match cs[i].cmd
      case Next(s) => s < i && cs[s].cmd.IsLoop() && cs[s].cmd.loopEnd == Some(i)
      case Continue(s) => s < i && cs[s].cmd.IsLoop()
      case _ => true
  }

  /** Every function table entry points at a declaration of that name and those parameters. */
  predicate FunctionsDeclared(cs: seq<CommandLine>, functions: map<string, Function>)
  {
    forall name :: name in functions ==>
      functions[name].location < |cs| &&
      cs[functions[name].location].cmd.FunctionDeclaration? &&
      cs[functions[name].location].cmd.name == name &&
      cs[functions[name].location].cmd.parameters == functions[name].args
  }

  /** Every loop opened after `s` and before `i` has ended before `i`. */
  predicate LoopsClosedBetween(cs: seq<CommandLine>, s: nat, i: nat)
    requires i <= |cs|
  {
    forall k :: s < k < i && cs[k].cmd.IsLoop() ==> cs[k].cmd.loopEnd.Some? && cs[k].cmd.loopEnd.value < i
  }

  /**
   * A `Next` or `Continue` at `i` jumps to the innermost loop still open there, and the loop a
   * `Continue` jumps to ends after it.
   */
  predicate JumpInnermost(cs: seq<CommandLine>, i: nat)
    requires i < |cs|
  {
    match cs[i].cmd
    case Next(s) => LoopsClosedBetween(cs, s, i)
    case Continue(s) =>
      LoopsClosedBetween(cs, s, i) && s < i && cs[s].cmd.IsLoop() && (cs[s].cmd.loopEnd.None? || cs[s].cmd.loopEnd.value > i)
    case _ => true
  }

  predicate JumpsInnermost(cs: seq<CommandLine>)
  {
    forall i :: 0 <= i < |cs| ==> JumpInnermost(cs, i)
  }

  /**
   * Every declaration's name is in the function table, at that declaration or at a later one:
   * a later declaration of the same name replaces the entry.
   */
  predicate DeclarationsListed(cs: seq<CommandLine>, functions: map<string, Function>)
  {
    forall i :: 0 <= i < |cs| && cs[i].cmd.FunctionDeclaration? ==>
      cs[i].cmd.name in functions && functions[cs[i].cmd.name].location >= i
  }

  /**
   * The invariant the assembler keeps between lines. It makes the three "jump to a command
   * of the wrong kind" panics of the source unreachable.
   */
  predicate WellFormed(st: Assembly)
  {
    StackOf(st.commands, st.ifStarts, IfBlock) && AllOpenOn(st.commands, st.ifStarts, IfBlock) &&
    StackOf(st.commands, st.loopStarts, LoopBlock) && AllOpenOn(st.commands, st.loopStarts, LoopBlock) &&
    StackOf(st.commands, st.funcStarts, FunctionBlock) && AllOpenOn(st.commands, st.funcStarts, FunctionBlock) &&
    EndsResolved(st.commands) && JumpsResolved(st.commands) && FunctionsDeclared(st.commands, st.functions) &&
    JumpsInnermost(st.commands) && DeclarationsListed(st.commands, st.functions)
  }

  /**
   * The table entry of each name is the last declaration of that name, and every declared
   * name has one.
   */
  lemma LastDeclarationWins(cs: seq<CommandLine>, functions: map<string, Function>)
    requires FunctionsDeclared(cs, functions) && DeclarationsListed(cs, functions)
    ensures forall i :: 0 <= i < |cs| && cs[i].cmd.FunctionDeclaration? ==> cs[i].cmd.name in functions
    ensures forall name, j :: name in functions && functions[name].location < j < |cs| && cs[j].cmd.FunctionDeclaration? ==>
      cs[j].cmd.name != name
  {
    forall name, j | name in functions && functions[name].location < j < |cs| && cs[j].cmd.FunctionDeclaration?
      ensures cs[j].cmd.name != name
    {
      assert functions[cs[j].cmd.name].location >= j;
    }
  }

  /** The innermost open loop is the last loop opened: every later loop has ended. */
  lemma InnermostLoop(st: Assembly)
    requires WellFormed(st) && st.loopStarts != []
    ensures Last(st.loopStarts) < |st.commands| && Open(st.commands[Last(st.loopStarts)].cmd, LoopBlock)
    ensures LoopsClosedBetween(st.commands, Last(st.loopStarts), |st.commands|)
  {
    var cs, s := st.commands, Last(st.loopStarts);
    forall k | s < k < |cs| && cs[k].cmd.IsLoop()
      ensures cs[k].cmd.loopEnd.Some? && cs[k].cmd.loopEnd.value < |cs|
    {
      assert Open(cs[k].cmd, LoopBlock) ==> k in st.loopStarts;
    }
  }

  /** `after` is `before` with its unset end set to `e`. */
  predicate EndSet(before: Command, after: Command, e: nat)
  {
    (before.If? && before.ifEnd.None? && after == Command.If(before.expression, Some(e))) ||
    (before.While? && before.loopEnd.None? && after == Command.While(before.expression, Some(e))) ||
    (before.Until? && before.loopEnd.None? && after == Command.Until(before.expression, Some(e))) ||
    (before.FunctionDeclaration? && before.funcEnd.None? &&
     after == FunctionDeclaration(before.name, before.parameters, Some(e)))
  }

  /**
   * What one line may do to the commands: append at most one, and set to the position of that
   * new command the unset end of earlier ones.
   */
  predicate Extends(before: seq<CommandLine>, after: seq<CommandLine>)
  {
    |before| <= |after| <= |before| + 1 &&
    forall k :: 0 <= k < |before| ==>
      after[k] == before[k] || (after[k].line == before[k].line && EndSet(before[k].cmd, after[k].cmd, |before|))
  }

  // ----- One line -----

  /** build_next: pops the innermost loop, sets its end, and yields the `Next` that closes it. */
  function BuildNext(st: Assembly): (r: (Assembly, Command))
    requires |st.loopStarts| > 0 && Last(st.loopStarts) < |st.commands|
    requires st.commands[Last(st.loopStarts)].cmd.IsLoop()
  {
    var s := Last(st.loopStarts);
    (st.(commands := CloseAt(st.commands, s), loopStarts := DropLast(st.loopStarts)), Command.Next(s))
  }

  /**
   * A line that is a lone `Newline` or `Comment`: it closes the innermost open if, else the
   * innermost loop, else the innermost function, and does nothing when no block is open.
   */
  function EndBlock(st: Assembly, line: nat): Assembly
    requires WellFormed(st)
  {
    if st.ifStarts != [] then
      var s := Last(st.ifStarts);
      Push(st.(commands := CloseAt(st.commands, s), ifStarts := DropLast(st.ifStarts)), EndIf, line)
    else if st.loopStarts != [] then
      var (st', next) := BuildNext(st);
      Push(st', next, line)
    else if st.funcStarts != [] then
      var s := Last(st.funcStarts);
      Push(st.(commands := CloseAt(st.commands, s), funcStarts := DropLast(st.funcStarts)), EndFunction, line)
    else st
  }

  /**
   * The parameters of a declaration: variables separated by `And`. `None` when the list is
   * empty, when something other than `And` separates two of them, or when it ends in `And`.
   */
  function Parameters(syms: seq<SymbolType>): Option<seq<string>>
    decreases |syms|
  {
    if syms == [] || !syms[0].Variable? then None
    else if |syms| == 1 then Some([syms[0].name])
    else if syms[1] != SymbolType.And then None
    else
      match Parameters(syms[2..])
      case None => None
      case Some(rest) => Some([syms[0].name] + rest)
  }

  /** variable (And variable)* */
  predicate AlternatesWithAnd(syms: seq<SymbolType>)
  {
    |syms| % 2 == 1 &&
    forall k :: 0 <= k < |syms| ==> if k % 2 == 0 then syms[k].Variable? else syms[k] == SymbolType.And
  }

  /** A parameter list is accepted exactly when it alternates; the names are the even positions. */
  lemma {:induction false} ParametersAlternate(syms: seq<SymbolType>)
    ensures Parameters(syms).Some? <==> AlternatesWithAnd(syms)
    ensures Parameters(syms).Some? ==>
      |Parameters(syms).value| == (|syms| + 1) / 2 &&
      forall k :: 0 <= k < |Parameters(syms).value| ==> Parameters(syms).value[k] == syms[2 * k].name
    decreases |syms|
  {
    if |syms| >= 2 && syms[0].Variable? && syms[1] == SymbolType.And {
      var tail := syms[2..];
      ParametersAlternate(tail);
      if AlternatesWithAnd(syms) {
        forall k | 0 <= k < |tail|
          ensures if k % 2 == 0 then tail[k].Variable? else tail[k] == SymbolType.And
        {
          assert tail[k] == syms[k + 2];
        }
      }
      if AlternatesWithAnd(tail) {
        forall k | 0 <= k < |syms|
          ensures if k % 2 == 0 then syms[k].Variable? else syms[k] == SymbolType.And
        {
          if k >= 2 {
            assert syms[k] == tail[k - 2];
          }
        }
        var names := Parameters(syms).value;
        forall k | 0 <= k < |names|
          ensures names[k] == syms[2 * k].name
        {
          if k > 0 {
            assert names[k] == Parameters(tail).value[k - 1];
            assert syms[2 * k] == tail[2 * (k - 1)];
          }
        }
      }
    } else if |syms| >= 2 {
      assert !AlternatesWithAnd(syms) by {
        if syms[0].Variable? {
          assert syms[1] != SymbolType.And;
        }
      }
    }
  }

  function SymbolsOf(tokens: seq<Token>): (r: seq<SymbolType>)
    ensures |r| == |tokens| && forall k :: 0 <= k < |tokens| ==> r[k] == tokens[k].symbol
  {
    if tokens == [] then [] else [tokens[0].symbol] + SymbolsOf(tokens[1..])
  }

  predicate LoneAnd(symbols: seq<Token>)
  {
    |symbols| == 1 && symbols[0].symbol == SymbolType.And
  }

  /** The line's tokens without a leading `And` and then without a trailing `Comma`. */
  function Stripped(symbols: seq<Token>): seq<Token>
    requires |symbols| > 0 && !LoneAnd(symbols)
  {
    var rest := if symbols[0].symbol == SymbolType.And then symbols[1..] else symbols;
    if rest[|rest| - 1].symbol == Comma then rest[..|rest| - 1] else rest
  }

  /**
   * A line the source does not panic on: it is not empty, its compaction is not empty nor a
   * lone `And`, and a lone `Next` or `Continue` comes inside a loop.
   */
  predicate Assemblable(st: Assembly, raw: seq<Token>)
  {
    |raw| > 0 && |Compact(raw)| > 0 && !LoneAnd(Compact(raw)) &&
    var syms := SymbolsOf(Stripped(Compact(raw)));
    (syms == [SymbolType.Next] || syms == [SymbolType.Continue]) ==> st.loopStarts != []
  }

  /** The command a line's symbols make and what it does to the stacks and the function table. */
  function Statement(st: Assembly, syms: seq<SymbolType>, line: nat): Result<Assembly>
    requires WellFormed(st) && |syms| > 0
    requires (syms == [SymbolType.Next] || syms == [SymbolType.Continue]) ==> st.loopStarts != []
  {
    var n := |st.commands|;
    if |syms| == 3 && syms[0] == SymbolType.Build && syms[1].Variable? && syms[2] == SymbolType.Up then
      Ok(Push(st, Increment(syms[1].name), line))
    else if |syms| == 3 && syms[0] == SymbolType.Knock && syms[1].Variable? && syms[2] == SymbolType.Down then
      Ok(Push(st, Decrement(syms[1].name), line))
    else if syms == [SymbolType.Next] then
      var (st', next) := BuildNext(st);
      Ok(Push(st', next, line))
    else if syms == [SymbolType.Continue] then
      Ok(Push(st, Command.Continue(Last(st.loopStarts)), line))
    else if syms == [Newline] || syms == [Comment] then
      Ok(EndBlock(st, if syms[0] == Newline then line + 1 else line))
    else if |syms| == 1 && syms[0].Taking? then
      Ok(Push(st, Command.Call(syms[0].target, VariableReferences(syms[0].args)), line))
    else Cascade(st, syms, line)
  }

  /**
   * The statements recognised by a prefix, an infix or a suffix, tried in order once no
   * exact shape matched; each expression statement parses the rest of the line.
   */
  function Cascade(st: Assembly, syms: seq<SymbolType>, line: nat): Result<Assembly>
    requires WellFormed(st) && |syms| > 0
  {
    var n := |st.commands|;
    if syms[0] == SymbolType.Say && |syms| > 1 then
      var e :- ExpressionOf(syms[1..], line);
      Ok(Push(st, Command.Say(e), line))
    else if |syms| > 1 && syms[1] == SymbolType.Is then
      if syms[0].Variable? then
        var e :- ExpressionOf(syms[2..], line);
        Ok(Push(st, Assignment(syms[0].name, e), line))
      else Err(BadIs(syms, line))
    else if syms[0] == SymbolType.Until && |syms| > 1 then
      var e :- ExpressionOf(syms[1..], line);
      Ok(Push(st.(loopStarts := st.loopStarts + [n]), Command.Until(e, None), line))
    else if syms[0] == SymbolType.While && |syms| > 1 then
      var e :- ExpressionOf(syms[1..], line);
      Ok(Push(st.(loopStarts := st.loopStarts + [n]), Command.While(e, None), line))
    else if syms[0] == SymbolType.If && |syms| > 1 then
      var e :- ExpressionOf(syms[1..], line);
      Ok(Push(st.(ifStarts := st.ifStarts + [n]), Command.If(e, None), line))
    else if |syms| > 3 && syms[0] == SymbolType.Put && syms[|syms| - 2] == SymbolType.Where then
      if syms[|syms| - 1].Variable? then
        var e :- ExpressionOf(syms[1..|syms| - 2], line);
        Ok(Push(st, Assignment(syms[|syms| - 1].name, e), line))
      else Err(BadPut(syms, line))
    else if |syms| > 2 && syms[1] == SymbolType.Takes then
      if syms[0].Variable? then
        match Parameters(syms[2..])
        case None => Err(BadFunctionDeclaration(syms, line))
        case Some(args) =>
          Ok(Push(st.(funcStarts := st.funcStarts + [n], functions := st.functions[syms[0].name := Function(n, args)]),
                  FunctionDeclaration(syms[0].name, args, None), line))
      else Err(BadFunctionDeclaration(syms, line))
    else if syms[0] == SymbolType.Return && |syms| > 1 then
      var e :- ExpressionOf(syms[1..], line);
      Ok(Push(st, Command.Return(e), line))
    else Err(BadCommandSequence(syms, line))
  }

  /**
   * One lexed line: compacted, stripped of its connectives, then turned into a statement on
   * the line of its first remaining token. Nothing left is an error on the line after the
   * last one handled.
   */
  function AssembleLine(st: Assembly, raw: seq<Token>): Result<Assembly>
    requires WellFormed(st) && Assemblable(st, raw)
  {
    var symbols := Stripped(Compact(raw));
    if symbols == [] then Err(NoSymbols(st.lastLine + 1))
    else Statement(st.(lastLine := symbols[0].line), SymbolsOf(symbols), symbols[0].line)
  }

  // ----- The invariant is kept -----

  predicate IsOpener(c: Command)
  {
    c.If? || c.IsLoop() || c.FunctionDeclaration?
  }

  /** Appending a command that opens no block leaves the stacks and all earlier facts valid. */
  lemma AppendKeeps(cs: seq<CommandLine>, c: CommandLine, stack: seq<nat>, kind: BlockKind)
    requires StackOf(cs, stack, kind) && AllOpenOn(cs, stack, kind)
    requires !Open(c.cmd, kind)
    ensures StackOf(cs + [c], stack, kind) && AllOpenOn(cs + [c], stack, kind)
  {
    var cs' := cs + [c];
    forall i | 0 <= i < |cs'| && Open(cs'[i].cmd, kind)
      ensures i in stack
    {
      assert i < |cs| && cs'[i] == cs[i];
    }
  }

  /** Appending an open block of `kind` and pushing its index keeps the stack exact. */
  lemma AppendOpenKeeps(cs: seq<CommandLine>, c: CommandLine, stack: seq<nat>, kind: BlockKind)
    requires StackOf(cs, stack, kind) && AllOpenOn(cs, stack, kind)
    requires Open(c.cmd, kind)
    ensures StackOf(cs + [c], stack + [|cs|], kind) && AllOpenOn(cs + [c], stack + [|cs|], kind)
  {
    var cs', stack' := cs + [c], stack + [|cs|];
    forall i | 0 <= i < |cs'| && Open(cs'[i].cmd, kind)
      ensures i in stack'
    {
      if i < |cs| {
        assert cs'[i] == cs[i];
        assert i in stack;
      } else {
        assert stack'[|stack|] == i;
      }
    }
  }

  /** Appending a command with no end set and no jump keeps every resolved end and jump. */
  lemma AppendResolvedKeeps(cs: seq<CommandLine>, c: CommandLine, functions: map<string, Function>)
    requires EndsResolved(cs) && JumpsResolved(cs) && FunctionsDeclared(cs, functions)
    requires c.cmd.If? ==> c.cmd.ifEnd.None?
    requires c.cmd.IsLoop() ==> c.cmd.loopEnd.None?
    requires c.cmd.FunctionDeclaration? ==> c.cmd.funcEnd.None?
    requires !c.cmd.Next?
    requires c.cmd.Continue? ==> c.cmd.loopStart < |cs| && cs[c.cmd.loopStart].cmd.IsLoop()
    ensures EndsResolved(cs + [c]) && JumpsResolved(cs + [c]) && FunctionsDeclared(cs + [c], functions)
  {
    var cs' := cs + [c];
    forall i | 0 <= i < |cs|
      ensures cs'[i] == cs[i]
    {
    }
  }

  /**
   * Appending a command keeps every jump innermost, when it is no `Next` and a `Continue` goes
   * to the innermost open loop.
   */
  lemma AppendInnermostKeeps(cs: seq<CommandLine>, c: CommandLine)
    requires JumpsInnermost(cs) && !c.cmd.Next?
    requires c.cmd.Continue? ==>
      (c.cmd.loopStart < |cs| && Open(cs[c.cmd.loopStart].cmd, LoopBlock) && LoopsClosedBetween(cs, c.cmd.loopStart, |cs|))
    ensures JumpsInnermost(cs + [c])
  {
    var cs' := cs + [c];
    forall i | 0 <= i < |cs'|
      ensures JumpInnermost(cs', i)
    {
      if cs'[i].cmd.Next? || cs'[i].cmd.Continue? {
        forall k | cs'[i].cmd.loopStart < k < i
          ensures cs'[k] == cs[k]
        {
        }
        if i < |cs| {
          assert cs'[i] == cs[i] && JumpInnermost(cs, i);
        }
      }
    }
  }

  /** Appending a command that declares nothing keeps every declaration listed. */
  lemma AppendListedKeeps(cs: seq<CommandLine>, c: CommandLine, functions: map<string, Function>)
    requires DeclarationsListed(cs, functions) && !c.cmd.FunctionDeclaration?
    ensures DeclarationsListed(cs + [c], functions)
  {
    var cs' := cs + [c];
    forall i | 0 <= i < |cs|
      ensures cs'[i] == cs[i]
    {
    }
  }

  /** Pushing a command that opens no block keeps the invariant. */
  lemma PushKeeps(st: Assembly, c: Command, line: nat)
    requires WellFormed(st)
    requires !IsOpener(c) && !c.Next?
    requires c.Continue? ==> st.loopStarts != [] && c.loopStart == Last(st.loopStarts)
    ensures WellFormed(Push(st, c, line)) && Extends(st.commands, Push(st, c, line).commands)
  {
    var cl := CommandLine(c, line);
    if c.Continue? {
      InnermostLoop(st);
    }
    AppendKeeps(st.commands, cl, st.ifStarts, IfBlock);
    AppendKeeps(st.commands, cl, st.loopStarts, LoopBlock);
    AppendKeeps(st.commands, cl, st.funcStarts, FunctionBlock);
    AppendResolvedKeeps(st.commands, cl, st.functions);
    AppendInnermostKeeps(st.commands, cl);
    AppendListedKeeps(st.commands, cl, st.functions);
  }

  /** Pushing an if or a loop and its start keeps the invariant. */
  lemma PushOpenerKeeps(st: Assembly, c: Command, line: nat)
    requires WellFormed(st)
    requires Open(c, IfBlock) || Open(c, LoopBlock)
    ensures var n := |st.commands|;
      var st' := if c.If? then st.(ifStarts := st.ifStarts + [n]) else st.(loopStarts := st.loopStarts + [n]);
      WellFormed(Push(st', c, line)) && Extends(st.commands, Push(st', c, line).commands)
  {
    var cl := CommandLine(c, line);
    if c.If? {
      AppendOpenKeeps(st.commands, cl, st.ifStarts, IfBlock);
      AppendKeeps(st.commands, cl, st.loopStarts, LoopBlock);
    } else {
      AppendKeeps(st.commands, cl, st.ifStarts, IfBlock);
      AppendOpenKeeps(st.commands, cl, st.loopStarts, LoopBlock);
    }
    AppendKeeps(st.commands, cl, st.funcStarts, FunctionBlock);
    AppendResolvedKeeps(st.commands, cl, st.functions);
    AppendInnermostKeeps(st.commands, cl);
    AppendListedKeeps(st.commands, cl, st.functions);
  }

  /** Appending a declaration and entering it in the table keeps every declaration listed. */
  lemma DeclareListedKeeps(cs: seq<CommandLine>, functions: map<string, Function>, name: string, args: seq<string>, line: nat)
    requires DeclarationsListed(cs, functions)
    ensures DeclarationsListed(cs + [CommandLine(FunctionDeclaration(name, args, None), line)],
      functions[name := Function(|cs|, args)])
  {
    var cs' := cs + [CommandLine(FunctionDeclaration(name, args, None), line)];
    var functions' := functions[name := Function(|cs|, args)];
    forall i | 0 <= i < |cs'| && cs'[i].cmd.FunctionDeclaration?
      ensures cs'[i].cmd.name in functions' && functions'[cs'[i].cmd.name].location >= i
    {
      if i < |cs| && cs'[i].cmd.name != name {
        assert cs'[i] == cs[i];
      }
    }
  }

  /** Appending a declaration and entering it in the table keeps every entry pointing at its declaration. */
  lemma DeclareTableKeeps(cs: seq<CommandLine>, functions: map<string, Function>, name: string, args: seq<string>, line: nat)
    requires FunctionsDeclared(cs + [CommandLine(FunctionDeclaration(name, args, None), line)], functions)
    ensures FunctionsDeclared(cs + [CommandLine(FunctionDeclaration(name, args, None), line)],
      functions[name := Function(|cs|, args)])
  {
    var cs' := cs + [CommandLine(FunctionDeclaration(name, args, None), line)];
    var functions' := functions[name := Function(|cs|, args)];
    forall f | f in functions'
      ensures functions'[f].location < |cs'| && cs'[functions'[f].location].cmd.FunctionDeclaration? &&
        cs'[functions'[f].location].cmd.name == f && cs'[functions'[f].location].cmd.parameters == functions'[f].args
    {
    }
  }

  /** Declaring a function: its start is pushed and the table entry points at the declaration. */
  lemma PushDeclarationKeeps(st: Assembly, name: string, args: seq<string>, line: nat)
    requires WellFormed(st)
    ensures var n := |st.commands|;
      var st' := st.(funcStarts := st.funcStarts + [n], functions := st.functions[name := Function(n, args)]);
      var after := Push(st', FunctionDeclaration(name, args, None), line);
      WellFormed(after) && Extends(st.commands, after.commands)
  {
    var n := |st.commands|;
    var cl := CommandLine(FunctionDeclaration(name, args, None), line);
    AppendKeeps(st.commands, cl, st.ifStarts, IfBlock);
    AppendKeeps(st.commands, cl, st.loopStarts, LoopBlock);
    AppendOpenKeeps(st.commands, cl, st.funcStarts, FunctionBlock);
    AppendResolvedKeeps(st.commands, cl, st.functions);
    AppendInnermostKeeps(st.commands, cl);
    DeclareListedKeeps(st.commands, st.functions, name, args, line);
    DeclareTableKeeps(st.commands, st.functions, name, args, line);
  }

  /** The command that closes the block opened at `s`. */
  function Terminator(c: Command, s: nat): Command
  {
    if c.If? then EndIf else if c.IsLoop() then Command.Next(s) else EndFunction
  }

  /** Closing the innermost block of `kind` and popping it keeps that stack exact. */
  lemma CloseOwnStackKeeps(cs: seq<CommandLine>, stack: seq<nat>, kind: BlockKind, t: CommandLine)
    requires StackOf(cs, stack, kind) && AllOpenOn(cs, stack, kind) && |stack| > 0
    requires !IsOpener(t.cmd)
    ensures StackOf(CloseAt(cs, Last(stack)) + [t], DropLast(stack), kind)
    ensures AllOpenOn(CloseAt(cs, Last(stack)) + [t], DropLast(stack), kind)
  {
    var s := Last(stack);
    var cs' := CloseAt(cs, s) + [t];
    forall k | 0 <= k < |DropLast(stack)|
      ensures DropLast(stack)[k] < |cs'| && Open(cs'[DropLast(stack)[k]].cmd, kind)
    {
      assert stack[k] < s;
    }
    forall i | 0 <= i < |cs'| && Open(cs'[i].cmd, kind)
      ensures i in DropLast(stack)
    {
      assert i < |cs| && i != s;
      assert cs'[i] == cs[i];
      var k :| 0 <= k < |stack| && stack[k] == i;
      assert k < |stack| - 1;
      assert DropLast(stack)[k] == i;
    }
  }

  /** Closing a block at `s` that is not of `kind` leaves the stack of `kind` exact. */
  lemma CloseOtherStackKeeps(cs: seq<CommandLine>, s: nat, stack: seq<nat>, kind: BlockKind, t: CommandLine)
    requires StackOf(cs, stack, kind) && AllOpenOn(cs, stack, kind)
    requires s < |cs| && IsOpener(cs[s].cmd)
    requires match kind
      case IfBlock => !cs[s].cmd.If?
      case LoopBlock => !cs[s].cmd.IsLoop()
      case FunctionBlock => !cs[s].cmd.FunctionDeclaration?
    requires !IsOpener(t.cmd)
    ensures StackOf(CloseAt(cs, s) + [t], stack, kind) && AllOpenOn(CloseAt(cs, s) + [t], stack, kind)
  {
    var cs' := CloseAt(cs, s) + [t];
    forall k | 0 <= k < |stack|
      ensures stack[k] < |cs'| && Open(cs'[stack[k]].cmd, kind)
    {
      assert stack[k] != s;
    }
    forall i | 0 <= i < |cs'| && Open(cs'[i].cmd, kind)
      ensures i in stack
    {
      assert i < |cs| && i != s;
      assert cs'[i] == cs[i];
    }
  }

  /** Closing the open block at `s` with its terminator keeps every end resolved. */
  lemma CloseEndsKeeps(cs: seq<CommandLine>, s: nat, line: nat)
    requires EndsResolved(cs) && JumpsResolved(cs)
    requires s < |cs| && (Open(cs[s].cmd, IfBlock) || Open(cs[s].cmd, LoopBlock) || Open(cs[s].cmd, FunctionBlock))
    ensures EndsResolved(CloseAt(cs, s) + [CommandLine(Terminator(cs[s].cmd, s), line)])
  {
    var t := Terminator(cs[s].cmd, s);
    var cs' := CloseAt(cs, s) + [CommandLine(t, line)];
    assert cs'[|cs|].cmd == t;
    forall i | 0 <= i < |cs'|
      ensures match cs'[i].cmd
        case If(_, end) => end.Some? ==> i < end.value < |cs'| && cs'[end.value].cmd == EndIf
        case While(_, end) => end.Some? ==> i < end.value < |cs'| && cs'[end.value].cmd == Command.Next(i)
        case Until(_, end) => end.Some? ==> i < end.value < |cs'| && cs'[end.value].cmd == Command.Next(i)
        case FunctionDeclaration(_, _, end) => end.Some? ==> i < end.value < |cs'| && cs'[end.value].cmd == EndFunction
        case _ => true
    {
      if i < |cs| && i != s {
        assert cs'[i] == cs[i];
      }
    }
  }

  /** Closing the open block at `s` with its terminator keeps every jump resolved. */
  lemma CloseJumpsKeeps(cs: seq<CommandLine>, s: nat, line: nat)
    requires EndsResolved(cs) && JumpsResolved(cs)
    requires s < |cs| && (Open(cs[s].cmd, IfBlock) || Open(cs[s].cmd, LoopBlock) || Open(cs[s].cmd, FunctionBlock))
    ensures JumpsResolved(CloseAt(cs, s) + [CommandLine(Terminator(cs[s].cmd, s), line)])
  {
    var t := Terminator(cs[s].cmd, s);
    var cs' := CloseAt(cs, s) + [CommandLine(t, line)];
    assert cs'[|cs|].cmd == t;
    forall i | 0 <= i < |cs'|
      ensures match cs'[i].cmd
        case Next(k) => k < i && cs'[k].cmd.IsLoop() && cs'[k].cmd.loopEnd == Some(i)
        case Continue(k) => k < i && cs'[k].cmd.IsLoop()
        case _ => true
    {
      if i < |cs| && i != s {
        assert cs'[i] == cs[i];
      }
    }
  }

  /**
   * Closing the open block at `s` with its terminator keeps every jump innermost, when a loop
   * closed there is the innermost one.
   */
  lemma CloseInnermostKeeps(cs: seq<CommandLine>, s: nat, line: nat)
    requires JumpsInnermost(cs)
    requires s < |cs| && (Open(cs[s].cmd, IfBlock) || Open(cs[s].cmd, LoopBlock) || Open(cs[s].cmd, FunctionBlock))
    requires cs[s].cmd.IsLoop() ==> LoopsClosedBetween(cs, s, |cs|)
    ensures JumpsInnermost(CloseAt(cs, s) + [CommandLine(Terminator(cs[s].cmd, s), line)])
  {
    var t := Terminator(cs[s].cmd, s);
    var cs' := CloseAt(cs, s) + [CommandLine(t, line)];
    forall i | 0 <= i < |cs'|
      ensures JumpInnermost(cs', i)
    {
      if cs'[i].cmd.Next? || cs'[i].cmd.Continue? {
        var target := cs'[i].cmd.loopStart;
        if i < |cs| {
          assert cs'[i] == cs[i] && JumpInnermost(cs, i);
        }
        forall k | target < k < i && cs'[k].cmd.IsLoop()
          ensures cs'[k].cmd.loopEnd.Some? && cs'[k].cmd.loopEnd.value < i
        {
          if i < |cs| {
            assert cs[s].cmd.IsLoop() ==> k != s;
          }
          assert cs'[k] == cs[k];
        }
      }
    }
  }

  /** Closing the open block at `s` with its terminator keeps every declaration listed. */
  lemma CloseListedKeeps(cs: seq<CommandLine>, s: nat, functions: map<string, Function>, line: nat)
    requires DeclarationsListed(cs, functions)
    requires s < |cs| && (Open(cs[s].cmd, IfBlock) || Open(cs[s].cmd, LoopBlock) || Open(cs[s].cmd, FunctionBlock))
    ensures DeclarationsListed(CloseAt(cs, s) + [CommandLine(Terminator(cs[s].cmd, s), line)], functions)
  {
    var cs' := CloseAt(cs, s) + [CommandLine(Terminator(cs[s].cmd, s), line)];
    forall i | 0 <= i < |cs'| && cs'[i].cmd.FunctionDeclaration?
      ensures cs'[i].cmd.name in functions && functions[cs'[i].cmd.name].location >= i
    {
      assert i < |cs| && cs[i].cmd.FunctionDeclaration? && cs'[i].cmd.name == cs[i].cmd.name;
    }
  }

  /** Closing the open block at `s` with its terminator keeps every end, jump and table entry. */
  lemma CloseResolvedKeeps(cs: seq<CommandLine>, s: nat, functions: map<string, Function>, line: nat)
    requires EndsResolved(cs) && JumpsResolved(cs) && FunctionsDeclared(cs, functions)
    requires s < |cs| && (Open(cs[s].cmd, IfBlock) || Open(cs[s].cmd, LoopBlock) || Open(cs[s].cmd, FunctionBlock))
    ensures var cs' := CloseAt(cs, s) + [CommandLine(Terminator(cs[s].cmd, s), line)];
      EndsResolved(cs') && JumpsResolved(cs') && FunctionsDeclared(cs', functions) && Extends(cs, cs')
  {
    var cs' := CloseAt(cs, s) + [CommandLine(Terminator(cs[s].cmd, s), line)];
    forall i | 0 <= i < |cs| && i != s
      ensures cs'[i] == cs[i]
    {
    }
    CloseEndsKeeps(cs, s, line);
    CloseJumpsKeeps(cs, s, line);
  }

  /** A lone `Next` closes the innermost loop and keeps the invariant. */
  lemma BuildNextKeeps(st: Assembly, line: nat)
    requires WellFormed(st) && st.loopStarts != []
    ensures Last(st.loopStarts) < |st.commands| && st.commands[Last(st.loopStarts)].cmd.IsLoop()
    ensures WellFormed(Push(BuildNext(st).0, BuildNext(st).1, line))
    ensures Extends(st.commands, Push(BuildNext(st).0, BuildNext(st).1, line).commands)
  {
    var cs, s := st.commands, Last(st.loopStarts);
    assert s < |cs| && Open(cs[s].cmd, LoopBlock);
    var t := CommandLine(Command.Next(s), line);
    CloseOwnStackKeeps(cs, st.loopStarts, LoopBlock, t);
    CloseOtherStackKeeps(cs, s, st.ifStarts, IfBlock, t);
    CloseOtherStackKeeps(cs, s, st.funcStarts, FunctionBlock, t);
    CloseResolvedKeeps(cs, s, st.functions, line);
    InnermostLoop(st);
    CloseInnermostKeeps(cs, s, line);
    CloseListedKeeps(cs, s, st.functions, line);
  }

  /** A lone `Newline` or `Comment` keeps the invariant. */
  lemma EndBlockKeeps(st: Assembly, line: nat)
    requires WellFormed(st)
    ensures WellFormed(EndBlock(st, line)) && Extends(st.commands, EndBlock(st, line).commands)
  {
    var cs := st.commands;
    if st.ifStarts != [] {
      var s := Last(st.ifStarts);
      assert s < |cs| && Open(cs[s].cmd, IfBlock);
      var t := CommandLine(EndIf, line);
      CloseOwnStackKeeps(cs, st.ifStarts, IfBlock, t);
      CloseOtherStackKeeps(cs, s, st.loopStarts, LoopBlock, t);
      CloseOtherStackKeeps(cs, s, st.funcStarts, FunctionBlock, t);
      CloseResolvedKeeps(cs, s, st.functions, line);
      CloseInnermostKeeps(cs, s, line);
      CloseListedKeeps(cs, s, st.functions, line);
    } else if st.loopStarts != [] {
      BuildNextKeeps(st, line);
    } else if st.funcStarts != [] {
      var s := Last(st.funcStarts);
      assert s < |cs| && Open(cs[s].cmd, FunctionBlock);
      var t := CommandLine(EndFunction, line);
      CloseOwnStackKeeps(cs, st.funcStarts, FunctionBlock, t);
      CloseOtherStackKeeps(cs, s, st.ifStarts, IfBlock, t);
      CloseOtherStackKeeps(cs, s, st.loopStarts, LoopBlock, t);
      CloseResolvedKeeps(cs, s, st.functions, line);
      CloseInnermostKeeps(cs, s, line);
      CloseListedKeeps(cs, s, st.functions, line);
    }
  }

  /** No block of `kind` is open in `cs`. */
  predicate NoneOpen(cs: seq<CommandLine>, kind: BlockKind)
  {
    forall k :: 0 <= k < |cs| ==> !Open(cs[k].cmd, kind)
  }

  /** `s` is the open block of `kind` with the largest index: the innermost one. */
  predicate InnermostOpen(cs: seq<CommandLine>, kind: BlockKind, s: nat)
  {
    s < |cs| && Open(cs[s].cmd, kind) && forall k :: s < k < |cs| ==> !Open(cs[k].cmd, kind)
  }

  /**
   * `r` is `cs` with the unset end of the opener at `s` set to `|cs|`, everything else kept,
   * and `closer` appended on `line`.
   */
  predicate ClosedBy(cs: seq<CommandLine>, r: seq<CommandLine>, s: nat, closer: Command, line: nat)
  {
    |r| == |cs| + 1 && s < |cs| && r[s].line == cs[s].line && EndSet(cs[s].cmd, r[s].cmd, |cs|) &&
    (forall k :: 0 <= k < |cs| && k != s ==> r[k] == cs[k]) &&
    r[|cs|] == CommandLine(closer, line)
  }

  /** A stack that holds exactly the open blocks of its kind has the innermost one on top. */
  lemma StackTopInnermost(cs: seq<CommandLine>, stack: seq<nat>, kind: BlockKind)
    requires StackOf(cs, stack, kind) && AllOpenOn(cs, stack, kind)
    ensures stack == [] <==> NoneOpen(cs, kind)
    ensures stack != [] ==> InnermostOpen(cs, kind, Last(stack))
  {
    if stack != [] {
      var s := Last(stack);
      assert s < |cs| && Open(cs[s].cmd, kind);
      forall k | s < k < |cs|
        ensures !Open(cs[k].cmd, kind)
      {
        assert forall j :: 0 <= j < |stack| ==> stack[j] <= s;
        assert Open(cs[k].cmd, kind) ==> k in stack;
      }
      assert !NoneOpen(cs, kind) by {
        assert Open(cs[s].cmd, kind);
      }
    } else {
      forall k | 0 <= k < |cs|
        ensures !Open(cs[k].cmd, kind)
      {
        assert Open(cs[k].cmd, kind) ==> k in stack;
      }
    }
  }

  /** Closing the open block at `s` and appending a closer gives the commands ClosedBy describes. */
  lemma CloseAtClosedBy(cs: seq<CommandLine>, s: nat, kind: BlockKind, closer: Command, line: nat)
    requires s < |cs| && Open(cs[s].cmd, kind)
    ensures ClosedBy(cs, CloseAt(cs, s) + [CommandLine(closer, line)], s, closer, line)
  {
    var r := CloseAt(cs, s) + [CommandLine(closer, line)];
    assert r[s] == CloseAt(cs, s)[s];
    forall k | 0 <= k < |cs| && k != s
      ensures r[k] == cs[k]
    {
      assert r[k] == CloseAt(cs, s)[k];
    }
  }

  /**
   * A lone `Newline` or `Comment`, stated over the commands alone: the innermost open `if` is
   * closed by an `EndIf`; with no `if` open, the innermost open loop by a `Next` back to it;
   * with neither open, the innermost open function by an `EndFunction`; with nothing open, the
   * line changes nothing.
   */
  lemma EndBlockPriority(st: Assembly, line: nat)
    requires WellFormed(st)
    ensures var cs, r := st.commands, EndBlock(st, line).commands;
      !NoneOpen(cs, IfBlock) ==>
        exists s :: InnermostOpen(cs, IfBlock, s) && ClosedBy(cs, r, s, EndIf, line)
    ensures var cs, r := st.commands, EndBlock(st, line).commands;
      NoneOpen(cs, IfBlock) && !NoneOpen(cs, LoopBlock) ==>
        exists s :: InnermostOpen(cs, LoopBlock, s) && ClosedBy(cs, r, s, Command.Next(s), line)
    ensures var cs, r := st.commands, EndBlock(st, line).commands;
      NoneOpen(cs, IfBlock) && NoneOpen(cs, LoopBlock) && !NoneOpen(cs, FunctionBlock) ==>
        exists s :: InnermostOpen(cs, FunctionBlock, s) && ClosedBy(cs, r, s, EndFunction, line)
    ensures NoneOpen(st.commands, IfBlock) && NoneOpen(st.commands, LoopBlock) && NoneOpen(st.commands, FunctionBlock) ==>
      EndBlock(st, line) == st
  {
    var cs, r := st.commands, EndBlock(st, line).commands;
    StackTopInnermost(cs, st.ifStarts, IfBlock);
    StackTopInnermost(cs, st.loopStarts, LoopBlock);
    StackTopInnermost(cs, st.funcStarts, FunctionBlock);
    if st.ifStarts != [] {
      var s := Last(st.ifStarts);
      CloseAtClosedBy(cs, s, IfBlock, EndIf, line);
      assert InnermostOpen(cs, IfBlock, s) && ClosedBy(cs, r, s, EndIf, line);
    } else if st.loopStarts != [] {
      var s := Last(st.loopStarts);
      CloseAtClosedBy(cs, s, LoopBlock, Command.Next(s), line);
      assert InnermostOpen(cs, LoopBlock, s) && ClosedBy(cs, r, s, Command.Next(s), line);
    } else if st.funcStarts != [] {
      var s := Last(st.funcStarts);
      CloseAtClosedBy(cs, s, FunctionBlock, EndFunction, line);
      assert InnermostOpen(cs, FunctionBlock, s) && ClosedBy(cs, r, s, EndFunction, line);
    }
  }

  /** Every statement keeps the invariant and appends at most one command. */
  lemma StatementKeeps(st: Assembly, syms: seq<SymbolType>, line: nat)
    requires WellFormed(st) && |syms| > 0
    requires (syms == [SymbolType.Next] || syms == [SymbolType.Continue]) ==> st.loopStarts != []
    ensures Statement(st, syms, line).Ok? ==>
      WellFormed(Statement(st, syms, line).value) && Extends(st.commands, Statement(st, syms, line).value.commands)
  {
    var r := Statement(st, syms, line);
    if r.Ok? {
      var n := |st.commands|;
      if |syms| == 3 && syms[0] == SymbolType.Build && syms[1].Variable? && syms[2] == SymbolType.Up {
        PushKeeps(st, Increment(syms[1].name), line);
      } else if |syms| == 3 && syms[0] == SymbolType.Knock && syms[1].Variable? && syms[2] == SymbolType.Down {
        PushKeeps(st, Decrement(syms[1].name), line);
      } else if syms == [SymbolType.Next] {
        BuildNextKeeps(st, line);
      } else if syms == [SymbolType.Continue] {
        assert Last(st.loopStarts) < n && Open(st.commands[Last(st.loopStarts)].cmd, LoopBlock);
        PushKeeps(st, Command.Continue(Last(st.loopStarts)), line);
      } else {
        LaterStatementKeeps(st, syms, line);
      }
    }
  }

  /** The blank-line, comment, call and Cascade arms of Statement keep the invariant. */
  lemma LaterStatementKeeps(st: Assembly, syms: seq<SymbolType>, line: nat)
    requires WellFormed(st) && |syms| > 0
    requires !(|syms| == 3 && syms[0] in {SymbolType.Build, SymbolType.Knock})
    requires syms != [SymbolType.Next] && syms != [SymbolType.Continue]
    ensures Statement(st, syms, line).Ok? ==>
      WellFormed(Statement(st, syms, line).value) && Extends(st.commands, Statement(st, syms, line).value.commands)
  {
    if syms == [Newline] || syms == [Comment] {
      EndBlockKeeps(st, if syms[0] == Newline then line + 1 else line);
    } else if |syms| == 1 && syms[0].Taking? {
      PushKeeps(st, Command.Call(syms[0].target, VariableReferences(syms[0].args)), line);
    } else {
      CascadeKeeps(st, syms, line);
    }
  }

  lemma CascadeKeeps(st: Assembly, syms: seq<SymbolType>, line: nat)
    requires WellFormed(st) && |syms| > 0
    ensures Cascade(st, syms, line).Ok? ==>
      WellFormed(Cascade(st, syms, line).value) && Extends(st.commands, Cascade(st, syms, line).value.commands)
  {
    var r := Cascade(st, syms, line);
    if r.Ok? {
      if syms[0] == SymbolType.Say && |syms| > 1 {
        PushKeeps(st, Command.Say(ExpressionOf(syms[1..], line).value), line);
      } else if |syms| > 1 && syms[1] == SymbolType.Is {
        PushKeeps(st, Assignment(syms[0].name, ExpressionOf(syms[2..], line).value), line);
      } else if syms[0] == SymbolType.Until && |syms| > 1 {
        PushOpenerKeeps(st, Command.Until(ExpressionOf(syms[1..], line).value, None), line);
      } else if syms[0] == SymbolType.While && |syms| > 1 {
        PushOpenerKeeps(st, Command.While(ExpressionOf(syms[1..], line).value, None), line);
      } else if syms[0] == SymbolType.If && |syms| > 1 {
        PushOpenerKeeps(st, Command.If(ExpressionOf(syms[1..], line).value, None), line);
      } else {
        LaterCascadeKeeps(st, syms, line);
      }
    }
  }

  /** The `put … into`, `takes` and `give back` arms of Cascade keep the invariant. */
  lemma LaterCascadeKeeps(st: Assembly, syms: seq<SymbolType>, line: nat)
    requires WellFormed(st) && |syms| > 0
    requires !(syms[0] == SymbolType.Say && |syms| > 1) && !(|syms| > 1 && syms[1] == SymbolType.Is)
    requires !(syms[0] in {SymbolType.Until, SymbolType.While, SymbolType.If} && |syms| > 1)
    ensures Cascade(st, syms, line).Ok? ==>
      WellFormed(Cascade(st, syms, line).value) && Extends(st.commands, Cascade(st, syms, line).value.commands)
  {
    if Cascade(st, syms, line).Ok? {
      if |syms| > 3 && syms[0] == SymbolType.Put && syms[|syms| - 2] == SymbolType.Where {
        PushKeeps(st, Assignment(syms[|syms| - 1].name, ExpressionOf(syms[1..|syms| - 2], line).value), line);
      } else if |syms| > 2 && syms[1] == SymbolType.Takes {
        PushDeclarationKeeps(st, syms[0].name, Parameters(syms[2..]).value, line);
      } else {
        PushKeeps(st, Command.Return(ExpressionOf(syms[1..], line).value), line);
      }
    }
  }

  /**
   * Assembling a line keeps the invariant, appends at most one command and changes earlier
   * commands only by setting an unset end to the position of that new command.
   */
  lemma AssembleLineKeeps(st: Assembly, raw: seq<Token>)
    requires WellFormed(st) && Assemblable(st, raw)
    ensures AssembleLine(st, raw).Ok? ==>
      WellFormed(AssembleLine(st, raw).value) && Extends(st.commands, AssembleLine(st, raw).value.commands)
  {
    var symbols := Stripped(Compact(raw));
    if symbols != [] {
      StatementKeeps(st.(lastLine := symbols[0].line), SymbolsOf(symbols), symbols[0].line);
    }
  }

  /** The source panics on no line of `lines` when started from `st`. */
  predicate NoPanic(st: Assembly, lines: seq<seq<Token>>)
    decreases |lines|
  {
    lines == [] ||
    (WellFormed(st) && Assemblable(st, lines[0]) &&
     (AssembleLine(st, lines[0]).Ok? ==> NoPanic(AssembleLine(st, lines[0]).value, lines[1..])))
  }

  /** The loop over the lexed lines: the first error stops it. */
  function AssembleLines(st: Assembly, lines: seq<seq<Token>>): (r: Result<Assembly>)
    requires WellFormed(st) && NoPanic(st, lines)
    ensures r.Ok? ==> WellFormed(r.value)
    decreases |lines|
  {
    if lines == [] then Ok(st)
    else
      match AssembleLine(st, lines[0])
      case Err(e) => Err(e)
      case Ok(next) =>
        AssembleLineKeeps(st, lines[0]);
        AssembleLines(next, lines[1..])
  }

  /** One step of the loop over the lines: the first line decides, the rest follow from its result. */
  lemma AssembleLinesStep(st: Assembly, lines: seq<seq<Token>>)
    requires |lines| > 0 && WellFormed(st) && NoPanic(st, lines)
    ensures Assemblable(st, lines[0])
    ensures AssembleLine(st, lines[0]).Err? ==> AssembleLines(st, lines) == Err(AssembleLine(st, lines[0]).error)
    ensures AssembleLine(st, lines[0]).Ok? ==>
      WellFormed(AssembleLine(st, lines[0]).value) && NoPanic(AssembleLine(st, lines[0]).value, lines[1..]) &&
      AssembleLines(st, lines) == AssembleLines(AssembleLine(st, lines[0]).value, lines[1..])
  {
    AssembleLineKeeps(st, lines[0]);
  }
}
