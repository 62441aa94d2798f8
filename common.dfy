/** The optional value used by the recognisers and by the set-once end fields of commands. */
module Wrappers {

  datatype Option<+T> = None | Some(value: T)
}

/**
 * The data model shared by the lexer, the expression parser and the block assembler:
 * lexical symbols, tokens, expression trees, commands, the parsed program and the errors.
 * Constructor names that occur in more than one datatype (Integer, Say, If, ...) are written
 * qualified by their datatype where they would be ambiguous, as in `SymbolType.Is`.
 */
module Common {
  import opened Wrappers

  /** One lexical unit of a line. */
  datatype SymbolType =
    | Is | Aint | GreaterThanOrEqual | GreaterThan | LessThan
    | Add | Subtract | Times | And
    | If | Else | While | Until | Next | Continue | Return
    | Build | Up | Knock | Down | Takes | Put | Where | Say
    | Variable(name: string)
    | Integer(digits: string)
    | String(phrase: string)
    | Words(words: seq<string>)
    | Taking(target: string, args: seq<string>)
    | Comma | Comment | Newline
  {
    /** The nine symbols that the expression parser treats as binary operators. */
    predicate IsOperator() {
      Is? || Aint? || GreaterThanOrEqual? || GreaterThan? || LessThan? ||
      Add? || Subtract? || Times? || And?
    }
  }

  type Operator = s: SymbolType | s.IsOperator() witness SymbolType.And

  /** A symbol tagged with the 1-based source line it was lexed on. */
  datatype Token = Token(line: nat, symbol: SymbolType)

  /**
   * An expression tree. The nine binary node kinds of the source (Is, Aint, ..., And) are one
   * `Binary` node tagged with the operator symbol that built it.
   */
  datatype Expression =
    | Integer(value: int)
    | String(phrase: string)
    | Variable(name: string)
    | Call(target: string, args: seq<Expression>)
    | Binary(op: Operator, left: Expression, right: Expression)

  /** One statement of the flat instruction sequence. End and start fields are indices into it. */
  datatype Command =
    | Assignment(target: string, value: Expression)
    | Increment(target: string)
    | Decrement(target: string)
    | Say(value: Expression)
    | If(expression: Expression, ifEnd: Option<nat>)
    | While(expression: Expression, loopEnd: Option<nat>)
    | Until(expression: Expression, loopEnd: Option<nat>)
    | Next(loopStart: nat)
    | Continue(loopStart: nat)
    | Call(name: string, args: seq<Expression>)
    | Return(returnValue: Expression)
    | FunctionDeclaration(name: string, parameters: seq<string>, funcEnd: Option<nat>)
    | EndIf
    | EndFunction
  {
    predicate IsLoop() { While? || Until? }
  }

  datatype CommandLine = CommandLine(cmd: Command, line: nat)

  /** A function table entry: where its declaration sits and its parameter names. */
  datatype Function = Function(location: nat, args: seq<string>)

  datatype Program = Program(commands: seq<CommandLine>, functions: map<string, Function>)

  /** The error kinds the parser reports; each carries the line it was detected on. */
  datatype Error =
    | UnparsedText(text: string, line: nat)
    | NoSymbols(line: nat)
    | BadIs(symbols: seq<SymbolType>, line: nat)
    | BadPut(symbols: seq<SymbolType>, line: nat)
    | BadFunctionDeclaration(symbols: seq<SymbolType>, line: nat)
    | BadCommandSequence(symbols: seq<SymbolType>, line: nat)
    | UnbalancedExpression(symbols: seq<SymbolType>, line: nat)
    | ParseIntError(text: string, line: nat)
    | Unimplemented(symbol: SymbolType, line: nat)
    | LexFailure

  datatype Result<+T> = Ok(value: T) | Err(error: Error) {
    predicate IsFailure() { Err? }

    function PropagateFailure<U>(): Result<U>
      requires Err?
    {
      Err(error)
    }

    function Extract(): T
      requires Ok?
    {
      value
    }
  }
}
