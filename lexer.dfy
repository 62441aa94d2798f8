/**
 * The line lexer of src/parser.rs: nom combinators written as prefix recognisers over the
 * whole normalised input `s`. A recogniser reads from position `i` and returns `None` where
 * the nom parser fails, otherwise what it recognised and the position after it (nom's
 * remaining span is `s[j..]`, on line `LineAt(s, j)`). Alternatives are tried in the
 * source's order and the first success wins; a choice made inside an alternative is never
 * retried. Character classes are ASCII (the source's `char::is_uppercase`, `is_lowercase`
 * and `is_numeric` are Unicode).
 */
module Lexer {
  import opened Wrappers
  import opened Common

  // ----- Character classes -----

  predicate IsSpace(c: char) { c == ' ' || c == '\t' || c == '.' }

  predicate IsNewline(c: char) { c == '\r' || c == '\n' }

  predicate IsQuote(c: char) { c == '"' || c == '\'' }

  predicate StringCharacter(c: char) { !IsNewline(c) && !IsQuote(c) }

  predicate WordCharacter(c: char) { 'A' <= c <= 'Z' || 'a' <= c <= 'z' }

  predicate IsUppercase(c: char) { 'A' <= c <= 'Z' }

  predicate IsLowercase(c: char) { 'a' <= c <= 'z' }

  predicate IsNumeric(c: char) { '0' <= c <= '9' }

  function ToLower(c: char): char {
    if 'A' <= c <= 'Z' then (c as int + 32) as char else c
  }

  // ----- Positions and primitive combinators -----

  /** The 1-based line of position `i`, counting line feeds only, as nom's located span does. */
  function LineAt(s: string, i: nat): nat
    requires i <= |s|
  {
    if i == 0 then 1 else LineAt(s, i - 1) + (if s[i - 1] == '\n' then 1 else 0)
  }

  /** `t[k..]` occurs at `s[i + k..]`, letters compared without regard to case. */
  predicate MatchesNoCase(s: string, i: nat, t: string, k: nat)
    requires i + k <= |s| && k <= |t|
    ensures MatchesNoCase(s, i, t, k) ==> i + |t| <= |s|
    decreases |t| - k
  {
    k == |t| || (i + k < |s| && ToLower(s[i + k]) == ToLower(t[k]) && MatchesNoCase(s, i, t, k + 1))
  }

  /** tag_no_case!: a case-insensitive prefix (not a whole word). */
  function TagNoCase(t: string, s: string, i: nat): (r: Option<nat>)
    requires i <= |s|
    ensures r.Some? ==> r.value == i + |t| <= |s|
  {
    if MatchesNoCase(s, i, t, 0) then Some(i + |t|) else None
  }

  /** tag!: a case-sensitive prefix. */
  function Tag(t: string, s: string, i: nat): (r: Option<nat>)
    requires i <= |s|
    ensures r.Some? ==> r.value == i + |t| <= |s| && s[i..r.value] == t
  {
    if i + |t| <= |s| && s[i..i + |t|] == t then Some(i + |t|) else None
  }

  /** The end of the longest run of characters satisfying `p` that starts at `i`. */
  function RunEnd(p: char -> bool, s: string, i: nat): (j: nat)
    requires i <= |s|
    ensures i <= j <= |s|
    ensures forall k :: i <= k < j ==> p(s[k])
    ensures j < |s| ==> !p(s[j])
    decreases |s| - i
  {
    if i == |s| || !p(s[i]) then i else RunEnd(p, s, i + 1)
  }

  /** take_while1!: one or more characters satisfying `p`. */
  function TakeWhile1(p: char -> bool, s: string, i: nat): (r: Option<nat>)
    requires i <= |s|
    ensures r.Some? ==> i < r.value <= |s|
  {
    var j := RunEnd(p, s, i);
    if j == i then None else Some(j)
  }

  /** take_while1!(is_space) */
  function Spaces1(s: string, i: nat): (r: Option<nat>)
    requires i <= |s|
    ensures r.Some? ==> i < r.value <= |s|
  {
    TakeWhile1(IsSpace, s, i)
  }

  /** take_while!(is_space) */
  function Spaces(s: string, i: nat): (j: nat)
    requires i <= |s|
    ensures i <= j <= |s|
  {
    RunEnd(IsSpace, s, i)
  }

  /** alt!(tag!("\n") | tag!("\r")) */
  function LineBreak(s: string, i: nat): (r: Option<nat>)
    requires i <= |s|
    ensures r.Some? ==> r.value == i + 1 <= |s|
  {
    if i < |s| && IsNewline(s[i]) then Some(i + 1) else None
  }

  // ----- Keywords and variables -----

  /** keyword: the input begins, in any case, with one of the reserved single words. */
  predicate StartsWithKeyword(s: string, i: nat)
    requires i <= |s|
  {
    MatchesNoCase(s, i, "and", 0) || MatchesNoCase(s, i, "build", 0) || MatchesNoCase(s, i, "end", 0) ||
    MatchesNoCase(s, i, "else", 0) || MatchesNoCase(s, i, "if", 0) || MatchesNoCase(s, i, "into", 0) ||
    MatchesNoCase(s, i, "is", 0) || MatchesNoCase(s, i, "minus", 0) || MatchesNoCase(s, i, "put", 0) ||
    MatchesNoCase(s, i, "say", 0) || MatchesNoCase(s, i, "scream", 0) || MatchesNoCase(s, i, "shout", 0) ||
    MatchesNoCase(s, i, "takes", 0) || MatchesNoCase(s, i, "until", 0) || MatchesNoCase(s, i, "up", 0) ||
    MatchesNoCase(s, i, "was", 0) || MatchesNoCase(s, i, "while", 0) || MatchesNoCase(s, i, "whisper", 0) ||
    MatchesNoCase(s, i, "with", 0) || MatchesNoCase(s, i, "without", 0)
  }

  /** title_case: not a keyword, one upper-case letter, then one or more letters. */
  function TitleCase(s: string, i: nat): (r: Option<nat>)
    requires i <= |s|
    ensures r.Some? ==> i < r.value <= |s|
  {
    if StartsWithKeyword(s, i) || i == |s| || !IsUppercase(s[i]) then None
    else TakeWhile1(WordCharacter, s, i + 1)
  }

  /** many0!(take_while1!(is_space) >> title_case): the further words of a proper variable. */
  function MoreTitleCase(s: string, i: nat): (r: (seq<string>, nat))
    requires i <= |s|
    ensures i <= r.1 <= |s|
    decreases |s| - i
  {
    match Spaces1(s, i)
    case None => ([], i)
    case Some(k) =>
      match TitleCase(s, k)
      case None => ([], i)
      case Some(j) =>
        var more := MoreTitleCase(s, j);
        ([s[k..j]] + more.0, more.1)
  }

  /** The words of a proper variable joined by single spaces. */
  function JoinWords(first: string, rest: seq<string>): string
    decreases |rest|
  {
    if rest == [] then first else JoinWords(first + " " + rest[0], rest[1..])
  }

  /** proper_variable: one or more Title-Case words separated by spaces. */
  function ProperVariable(s: string, i: nat): (r: Option<(string, nat)>)
    requires i <= |s|
    ensures r.Some? ==> i < r.value.1 <= |s|
  {
    match TitleCase(s, i)
    case None => None
    case Some(j) =>
      var more := MoreTitleCase(s, j);
      Some((JoinWords(s[i..j], more.0), more.1))
  }

  /** alt_complete! of the determiners `a`, `an`, `the`, `my`, `your`, in that order. */
  function Determiner(s: string, i: nat): (r: Option<nat>)
    requires i <= |s|
    ensures r.Some? ==> i < r.value <= |s|
  {
    if MatchesNoCase(s, i, "a", 0) then Some(i + 1) else
    if MatchesNoCase(s, i, "an", 0) then Some(i + 2) else
    if MatchesNoCase(s, i, "the", 0) then Some(i + 3) else
    if MatchesNoCase(s, i, "my", 0) then Some(i + 2) else
    if MatchesNoCase(s, i, "your", 0) then Some(i + 4) else
    None
  }

  /**
   * The simple form of `variable`: a determiner, spaces, then lower-case letters. The first
   * determiner that is a prefix is kept even when what follows it fails, so `a` shadows `an`.
   */
  function SimpleVariable(s: string, i: nat): (r: Option<(string, nat)>)
    requires i <= |s|
    ensures r.Some? ==> i < r.value.1 <= |s|
  {
    match Determiner(s, i)
    case None => None
    case Some(d) =>
      match Spaces1(s, d)
      case None => None
      case Some(k) =>
        match TakeWhile1(IsLowercase, s, k)
        case None => None
        case Some(j) => Some((s[i..d] + " " + s[k..j], j))
  }

  /** variable: a simple variable, or else a proper variable. */
  function VariableName(s: string, i: nat): (r: Option<(string, nat)>)
    requires i <= |s|
    ensures r.Some? ==> i < r.value.1 <= |s|
  {
    match SimpleVariable(s, i)
    case Some(v) => Some(v)
    case None => ProperVariable(s, i)
  }

  // ----- The word alternatives -----

  function AtLeastAdjective(s: string, i: nat): (r: Option<nat>)
    requires i <= |s|
    ensures r.Some? ==> i < r.value <= |s|
  {
    if MatchesNoCase(s, i, "high", 0) then Some(i + 4) else
    if MatchesNoCase(s, i, "strong", 0) then Some(i + 6) else
    if MatchesNoCase(s, i, "big", 0) then Some(i + 3) else
    None
  }

  function LessAdjective(s: string, i: nat): (r: Option<nat>)
    requires i <= |s|
    ensures r.Some? ==> i < r.value <= |s|
  {
    if MatchesNoCase(s, i, "less", 0) then Some(i + 4) else
    if MatchesNoCase(s, i, "weaker", 0) then Some(i + 6) else
    if MatchesNoCase(s, i, "lower", 0) then Some(i + 5) else
    if MatchesNoCase(s, i, "smaller", 0) then Some(i + 7) else
    None
  }

  function GreaterAdjective(s: string, i: nat): (r: Option<nat>)
    requires i <= |s|
    ensures r.Some? ==> i < r.value <= |s|
  {
    if MatchesNoCase(s, i, "higher", 0) then Some(i + 6) else
    if MatchesNoCase(s, i, "stronger", 0) then Some(i + 8) else
    if MatchesNoCase(s, i, "bigger", 0) then Some(i + 6) else
    if MatchesNoCase(s, i, "greater", 0) then Some(i + 7) else
    None
  }

  /** `is` spaces `as` spaces (high|strong|big) spaces `as` */
  function AtLeastIdiom(s: string, i: nat): (r: Option<nat>)
    requires i <= |s|
    ensures r.Some? ==> i < r.value <= |s|
  {
    match TagNoCase("is", s, i)
    case None => None
    case Some(k1) =>
      match Spaces1(s, k1)
      case None => None
      case Some(k2) =>
        match TagNoCase("as", s, k2)
        case None => None
        case Some(k3) =>
          match Spaces1(s, k3)
          case None => None
          case Some(k4) =>
            match AtLeastAdjective(s, k4)
            case None => None
            case Some(k5) =>
              match Spaces1(s, k5)
              case None => None
              case Some(k6) => TagNoCase("as", s, k6)
  }

  /** `is` spaces (a lesser or a greater adjective) spaces `than` */
  function ThanIdiom(greater: bool, s: string, i: nat): (r: Option<nat>)
    requires i <= |s|
    ensures r.Some? ==> i < r.value <= |s|
  {
    match TagNoCase("is", s, i)
    case None => None
    case Some(k1) =>
      match Spaces1(s, k1)
      case None => None
      case Some(k2) =>
        match (if greater then GreaterAdjective(s, k2) else LessAdjective(s, k2))
        case None => None
        case Some(k3) =>
          match Spaces1(s, k3)
          case None => None
          case Some(k4) => TagNoCase("than", s, k4)
  }

  /** One `tag_no_case!` alternative of `word`: the tag, read as `sym`. */
  function Keyword(t: string, sym: SymbolType, s: string, i: nat): (r: Option<(SymbolType, nat)>)
    requires i <= |s| && |t| > 0
    ensures r.Some? ==> r.value.0 == sym && i < r.value.1 == i + |t| <= |s|
  {
    if MatchesNoCase(s, i, t, 0) then Some((sym, i + |t|)) else None
  }

  /**
   * The operator idioms and the single-tag alternatives that `word` tries first, in the
   * source's order (tags that share a symbol were one `alt_complete!` group).
   */
  function KeywordWord(s: string, i: nat): (r: Option<(SymbolType, nat)>)
    requires i <= |s|
    ensures r.Some? ==> i < r.value.1 <= |s|
  {
    var ge := AtLeastIdiom(s, i);
    if ge.Some? then Some((GreaterThanOrEqual, ge.value)) else
    var lt := ThanIdiom(false, s, i);
    if lt.Some? then Some((LessThan, lt.value)) else
    var gt := ThanIdiom(true, s, i);
    if gt.Some? then Some((GreaterThan, gt.value)) else
    var k1 := Keyword("is", SymbolType.Is, s, i); if k1.Some? then k1 else
    var k2 := Keyword("was", SymbolType.Is, s, i); if k2.Some? then k2 else
    var k3 := Keyword("if", SymbolType.If, s, i); if k3.Some? then k3 else
    var k4 := Keyword("build", Build, s, i); if k4.Some? then k4 else
    var k5 := Keyword("up", Up, s, i); if k5.Some? then k5 else
    var k6 := Keyword("knock", Knock, s, i); if k6.Some? then k6 else
    var k7 := Keyword("down", Down, s, i); if k7.Some? then k7 else
    var k8 := Keyword("aint", Aint, s, i); if k8.Some? then k8 else
    var k9 := Keyword("say", SymbolType.Say, s, i); if k9.Some? then k9 else
    var k10 := Keyword("shout", SymbolType.Say, s, i); if k10.Some? then k10 else
    var k11 := Keyword("whisper", SymbolType.Say, s, i); if k11.Some? then k11 else
    var k12 := Keyword("scream", SymbolType.Say, s, i); if k12.Some? then k12 else
    var k13 := Keyword("and", And, s, i); if k13.Some? then k13 else
    var k14 := Keyword("while", SymbolType.While, s, i); if k14.Some? then k14 else
    var k15 := Keyword("until", SymbolType.Until, s, i); if k15.Some? then k15 else
    var k16 := Keyword("end", SymbolType.Next, s, i); if k16.Some? then k16 else
    var k17 := Keyword("around we go", SymbolType.Next, s, i); if k17.Some? then k17 else
    var k18 := Keyword("take it to the top", SymbolType.Continue, s, i); if k18.Some? then k18 else
    var k19 := Keyword("continue", SymbolType.Continue, s, i); if k19.Some? then k19 else
    var k20 := Keyword("give back", SymbolType.Return, s, i); if k20.Some? then k20 else
    var k21 := Keyword("takes", Takes, s, i); if k21.Some? then k21 else
    var k22 := Keyword("without", Subtract, s, i); if k22.Some? then k22 else
    var k23 := Keyword("minus", Subtract, s, i); if k23.Some? then k23 else
    var k24 := Keyword("with", Add, s, i); if k24.Some? then k24 else
    var k25 := Keyword("plus", Add, s, i); if k25.Some? then k25 else
    var k26 := Keyword("times", Times, s, i); if k26.Some? then k26 else
    var k27 := Keyword("of", Times, s, i); if k27.Some? then k27 else
    var k28 := Keyword("into", Where, s, i); if k28.Some? then k28 else
    var k29 := Keyword("put", Put, s, i); if k29.Some? then k29 else
    var k30 := Keyword("else", Else, s, i); if k30.Some? then k30 else
    var k31 := Keyword("nothing", SymbolType.Integer("0"), s, i); if k31.Some? then k31 else
    None
  }

  /** many0! of (spaces, `,` or `and`, spaces, variable): the further arguments of a call. */
  function MoreArgs(s: string, i: nat): (r: (seq<string>, nat))
    requires i <= |s|
    ensures i <= r.1 <= |s|
    decreases |s| - i
  {
    var k1 := Spaces(s, i);
    var sep := if Tag(",", s, k1).Some? then Tag(",", s, k1) else TagNoCase("and", s, k1);
    match sep
    case None => ([], i)
    case Some(k2) =>
      match VariableName(s, Spaces(s, k2))
      case None => ([], i)
      case Some((v, j)) =>
        var more := MoreArgs(s, j);
        ([v] + more.0, more.1)
  }

  /** variable spaces `taking` spaces variable, then further arguments. */
  function TakingCall(s: string, i: nat): (r: Option<(SymbolType, nat)>)
    requires i <= |s|
    ensures r.Some? ==> i < r.value.1 <= |s|
  {
    match VariableName(s, i)
    case None => None
    case Some((target, k1)) =>
      match Spaces1(s, k1)
      case None => None
      case Some(k2) =>
        match TagNoCase("taking", s, k2)
        case None => None
        case Some(k3) =>
          match Spaces1(s, k3)
          case None => None
          case Some(k4) =>
            match VariableName(s, k4)
            case None => None
            case Some((first, k5)) =>
              var more := MoreArgs(s, k5);
              Some((Taking(target, [first] + more.0), more.1))
  }

  /** A double-quoted run of characters that are neither quotes nor line breaks. */
  function QuotedString(s: string, i: nat): (r: Option<(SymbolType, nat)>)
    requires i <= |s|
    ensures r.Some? ==> i < r.value.1 <= |s|
  {
    match Tag("\"", s, i)
    case None => None
    case Some(k1) =>
      var k2 := RunEnd(StringCharacter, s, k1);
      match Tag("\"", s, k2)
      case None => None
      case Some(j) => Some((SymbolType.String(s[k1..k2]), j))
  }

  /** `(` up to the first `)`, which may be on a later line. */
  function ParenComment(s: string, i: nat): (r: Option<(SymbolType, nat)>)
    requires i <= |s|
    ensures r.Some? ==> i < r.value.1 <= |s|
  {
    match Tag("(", s, i)
    case None => None
    case Some(k1) =>
      var k2 := RunEnd(c => c != ')', s, k1);
      match Tag(")", s, k2)
      case None => None
      case Some(j) => Some((Comment, j))
  }

  /** The alternatives that `word` tries once every keyword alternative has failed. */
  function ValueWord(s: string, i: nat): (r: Option<(SymbolType, nat)>)
    requires i <= |s|
    ensures r.Some? ==> i < r.value.1 <= |s|
  {
    var call := TakingCall(s, i);
    if call.Some? then call else
    var digits := TakeWhile1(IsNumeric, s, i);
    if digits.Some? then Some((SymbolType.Integer(s[i..digits.value]), digits.value)) else
    var v := VariableName(s, i);
    if v.Some? then Some((SymbolType.Variable(v.value.0), v.value.1)) else
    var str := QuotedString(s, i);
    if str.Some? then str else
    var comment := ParenComment(s, i);
    if comment.Some? then comment else
    match TakeWhile1(WordCharacter, s, i)
    case None => None
    case Some(j) => Some((Words([s[i..j]]), j))
  }

  /** word: one symbol, from the first alternative that succeeds. */
  function Word(s: string, i: nat): (r: Option<(SymbolType, nat)>)
    requires i <= |s|
    ensures r.Some? ==> i < r.value.1 <= |s|
  {
    var kw := KeywordWord(s, i);
    if kw.Some? then kw else ValueWord(s, i)
  }

  // ----- Lines -----

  /** many0!(take_while1!(is_space) >> take_while1!(word_character)): poetic-literal words. */
  function PoeticWords(s: string, i: nat): (r: (seq<string>, nat))
    requires i <= |s|
    ensures i <= r.1 <= |s|
    decreases |s| - i
  {
    match Spaces1(s, i)
    case None => ([], i)
    case Some(k) =>
      match TakeWhile1(WordCharacter, s, k)
      case None => ([], i)
      case Some(j) =>
        var more := PoeticWords(s, j);
        ([s[k..j]] + more.0, more.1)
  }

  /**
   * poetic_number_literal: `<variable> is <word>+` with a case-sensitive `is`. It yields the
   * variable, `Is` and the words verbatim, all on the line of the `is`.
   */
  function PoeticNumberLiteral(s: string, i: nat): (r: Option<(seq<Token>, nat)>)
    requires i <= |s|
    ensures r.Some? ==> i < r.value.1 <= |s|
  {
    match VariableName(s, i)
    case None => None
    case Some((target, k1)) =>
      match Spaces1(s, k1)
      case None => None
      case Some(k2) =>
        match Tag("is", s, k2)
        case None => None
        case Some(k3) =>
          var words := PoeticWords(s, k3);
          if words.0 == [] then None
          else
            var line := LineAt(s, k3);
            Some(([Token(line, SymbolType.Variable(target)), Token(line, SymbolType.Is),
                   Token(line, Words(words.0))], words.1))
  }

  /** many0! of a comma, or of spaces then a word: the further tokens of a line. */
  function OtherWords(s: string, i: nat, line: nat): (r: (seq<Token>, nat))
    requires i <= |s|
    ensures i <= r.1 <= |s|
    ensures forall t :: t in r.0 ==> t.line == line
    decreases |s| - i
  {
    match Tag(",", s, i)
    case Some(k) =>
      var more := OtherWords(s, k, line);
      ([Token(line, Comma)] + more.0, more.1)
    case None =>
      match Spaces1(s, i)
      case None => ([], i)
      case Some(k) =>
        match Word(s, k)
        case None => ([], i)
        case Some((w, j)) =>
          var more := OtherWords(s, j, line);
          ([Token(line, w)] + more.0, more.1)
  }

  /** line: a poetic literal, or else one or more words, every token on the line it starts on. */
  function Line(s: string, i: nat): (r: Option<(seq<Token>, nat)>)
    requires i <= |s|
    ensures r.Some? ==> |r.value.0| > 0 && i < r.value.1 <= |s|
    ensures r.Some? ==> forall t :: t in r.value.0 ==> t.line == r.value.0[0].line
  {
    match PoeticNumberLiteral(s, i)
    case Some(p) => Some(p)
    case None =>
      match Word(s, i)
      case None => None
      case Some((first, k)) =>
        var more := OtherWords(s, k, LineAt(s, i));
        Some(([Token(LineAt(s, i), first)] + more.0, more.1))
  }

  /** blank_line: spaces, one line break, spaces; a single `Newline` on the line where the blank line starts. */
  function BlankLine(s: string, i: nat): (r: Option<(seq<Token>, nat)>)
    requires i <= |s|
    ensures r.Some? ==> i < r.value.1 <= |s|
  {
    match LineBreak(s, Spaces(s, i))
    case None => None
    case Some(k) => Some(([Token(LineAt(s, i), Newline)], Spaces(s, k)))
  }

  /** many0!(blank_line) with its tokens dropped: the blank lines before the first line. */
  function SkipBlankLines(s: string, i: nat): (j: nat)
    requires i <= |s|
    ensures i <= j <= |s|
    decreases |s| - i
  {
    match BlankLine(s, i)
    case None => i
    case Some((_, k)) => SkipBlankLines(s, k)
  }

  /** Spaces, a line break, spaces, then a line. */
  function LineAfterBreak(s: string, i: nat): (r: Option<(seq<Token>, nat)>)
    requires i <= |s|
    ensures r.Some? ==> |r.value.0| > 0 && i < r.value.1 <= |s|
  {
    match LineBreak(s, Spaces(s, i))
    case None => None
    case Some(k) => Line(s, Spaces(s, k))
  }

  /** many0! of a line after a break, or else a blank line: the lines after the first. */
  function OtherLines(s: string, i: nat): (r: (seq<seq<Token>>, nat))
    requires i <= |s|
    ensures i <= r.1 <= |s|
    ensures forall l :: l in r.0 ==> |l| > 0
    decreases |s| - i
  {
    var next := if LineAfterBreak(s, i).Some? then LineAfterBreak(s, i) else BlankLine(s, i);
    match next
    case None => ([], i)
    case Some((toks, k)) =>
      var more := OtherLines(s, k);
      ([toks] + more.0, more.1)
  }

  /**
   * lines: blank lines, a first line, then further lines; the lexed lines and the position
   * where lexing stopped. `None` when there is no first line.
   */
  function Lines(s: string): (r: Option<(seq<seq<Token>>, nat)>)
    ensures r.Some? ==> r.value.1 <= |s| && |r.value.0| > 0
    ensures r.Some? ==> forall l :: l in r.value.0 ==> |l| > 0
  {
    var i := SkipBlankLines(s, 0);
    match Line(s, i)
    case None => None
    case Some((first, k)) =>
      var more := OtherLines(s, k);
      Some(([first] + more.0, more.1))
  }
}
