/**
 * What the recognisers of src/parser.rs accept: the case-insensitive prefix match that every
 * keyword rests on, the determiner that shadows a longer one, keywords as prefixes of
 * Title-Case words, and the lexer tests of the source.
 */
module LexerFacts {
  import opened Wrappers
  import opened Common
  import opened Lexer

  /** `tag_no_case!` compares letter by letter after lower-casing, and needs the whole tag. */
  lemma {:induction false} MatchesNoCaseIff(s: string, i: nat, t: string, k: nat)
    requires i + k <= |s| && k <= |t|
    ensures MatchesNoCase(s, i, t, k) <==>
      i + |t| <= |s| && forall m :: k <= m < |t| ==> ToLower(s[i + m]) == ToLower(t[m])
    decreases |t| - k
  {
    if k < |t| && i + k < |s| {
      MatchesNoCaseIff(s, i, t, k + 1);
    }
  }

  /** A keyword prefix is never the start of a proper variable, even inside a longer word. */
  lemma KeywordIsNoProperVariable(s: string, i: nat)
    requires i <= |s| && StartsWithKeyword(s, i)
    ensures ProperVariable(s, i) == None
  {
  }

  /** `Isabel` begins with `is`, so it is no variable at all. */
  lemma IsabelIsNoVariable()
    ensures VariableName("Isabel", 0) == None
  {
    assert MatchesNoCase("Isabel", 0, "is", 0);
    KeywordIsNoProperVariable("Isabel", 0);
  }

  /**
   * `a` is the first determiner tried, and the choice is not revisited: when the letter after
   * it is not a space, the simple form fails even if the text starts with `an`.
   */
  lemma AShadowsAn(s: string, i: nat)
    requires i + 1 < |s| && ToLower(s[i]) == 'a' && !IsSpace(s[i + 1])
    ensures SimpleVariable(s, i) == None
  {
    MatchesNoCaseIff(s, i, "a", 0);
    assert Determiner(s, i) == Some(i + 1);
  }

  /** `an apple` is neither a simple nor a proper variable. */
  lemma AnAppleIsNoVariable()
    ensures VariableName("an apple", 0) == None
  {
    AShadowsAn("an apple", 0);
  }

  /** A word whose first letter begins no reserved keyword is not a keyword. */
  lemma NoReservedInitial(s: string, i: nat)
    requires i < |s| && ToLower(s[i]) !in "abeimpstuw"
    ensures !StartsWithKeyword(s, i)
  {
  }

  /** A word of a proper variable: an upper-case letter, then letters, not beginning with a reserved word. */
  predicate TitleWord(w: string) {
    |w| >= 2 && IsUppercase(w[0]) && (forall m :: 1 <= m < |w| ==> WordCharacter(w[m])) && !StartsWithKeyword(w, 0)
  }

  lemma {:induction false} SliceMatches(s: string, i: nat, j: nat, t: string, k: nat)
    requires i <= j <= |s| && k <= |t| && i + k <= j
    requires MatchesNoCase(s[i..j], 0, t, k)
    ensures MatchesNoCase(s, i, t, k)
    decreases |t| - k
  {
    if k < |t| {
      assert s[i..j][k] == s[i + k];
      SliceMatches(s, i, j, t, k + 1);
    }
  }

  /** A reserved word at the head of a slice is a reserved word at the head of the slice's position. */
  lemma KeywordInSlice(s: string, i: nat, j: nat)
    requires i <= j <= |s| && StartsWithKeyword(s[i..j], 0)
    ensures StartsWithKeyword(s, i)
  {
    var w := s[i..j];
    if MatchesNoCase(w, 0, "and", 0) { SliceMatches(s, i, j, "and", 0); }
    else if MatchesNoCase(w, 0, "build", 0) { SliceMatches(s, i, j, "build", 0); }
    else if MatchesNoCase(w, 0, "end", 0) { SliceMatches(s, i, j, "end", 0); }
    else if MatchesNoCase(w, 0, "else", 0) { SliceMatches(s, i, j, "else", 0); }
    else if MatchesNoCase(w, 0, "if", 0) { SliceMatches(s, i, j, "if", 0); }
    else if MatchesNoCase(w, 0, "into", 0) { SliceMatches(s, i, j, "into", 0); }
    else if MatchesNoCase(w, 0, "is", 0) { SliceMatches(s, i, j, "is", 0); }
    else if MatchesNoCase(w, 0, "minus", 0) { SliceMatches(s, i, j, "minus", 0); }
    else if MatchesNoCase(w, 0, "put", 0) { SliceMatches(s, i, j, "put", 0); }
    else if MatchesNoCase(w, 0, "say", 0) { SliceMatches(s, i, j, "say", 0); }
    else if MatchesNoCase(w, 0, "scream", 0) { SliceMatches(s, i, j, "scream", 0); }
    else if MatchesNoCase(w, 0, "shout", 0) { SliceMatches(s, i, j, "shout", 0); }
    else if MatchesNoCase(w, 0, "takes", 0) { SliceMatches(s, i, j, "takes", 0); }
    else if MatchesNoCase(w, 0, "until", 0) { SliceMatches(s, i, j, "until", 0); }
    else if MatchesNoCase(w, 0, "up", 0) { SliceMatches(s, i, j, "up", 0); }
    else if MatchesNoCase(w, 0, "was", 0) { SliceMatches(s, i, j, "was", 0); }
    else if MatchesNoCase(w, 0, "while", 0) { SliceMatches(s, i, j, "while", 0); }
    else if MatchesNoCase(w, 0, "whisper", 0) { SliceMatches(s, i, j, "whisper", 0); }
    else if MatchesNoCase(w, 0, "with", 0) { SliceMatches(s, i, j, "with", 0); }
    else { SliceMatches(s, i, j, "without", 0); }
  }

  /** Every word `title_case` accepts is a TitleWord. */
  lemma TitleCaseIsTitleWord(s: string, i: nat)
    requires i <= |s| && TitleCase(s, i).Some?
    ensures TitleWord(s[i..TitleCase(s, i).value])
  {
    var j := TitleCase(s, i).value;
    if StartsWithKeyword(s[i..j], 0) { KeywordInSlice(s, i, j); }
  }

  /** Every further word of a proper variable is a TitleWord. */
  lemma {:induction false} MoreTitleCaseWords(s: string, i: nat)
    requires i <= |s|
    ensures forall w :: w in MoreTitleCase(s, i).0 ==> TitleWord(w)
    decreases |s| - i
  {
    match Spaces1(s, i)
    case None =>
    case Some(k) =>
      match TitleCase(s, k)
      case None =>
      case Some(j) =>
        TitleCaseIsTitleWord(s, k);
        MoreTitleCaseWords(s, j);
  }

  /** A proper variable is made of TitleWords only: none of its words begins with a reserved word. */
  lemma ProperVariableWords(s: string, i: nat)
    requires i <= |s| && ProperVariable(s, i).Some?
    ensures TitleCase(s, i).Some? && TitleWord(s[i..TitleCase(s, i).value])
    ensures forall w :: w in MoreTitleCase(s, TitleCase(s, i).value).0 ==> TitleWord(w)
  {
    TitleCaseIsTitleWord(s, i);
    MoreTitleCaseWords(s, TitleCase(s, i).value);
  }

  // ----- Helpers for concrete inputs -----

  /** A keyword whose first letter differs from the input's does not match there. */
  lemma KeywordNeedsItsInitial(t: string, sym: SymbolType, s: string, i: nat)
    requires i < |s| && |t| > 0 && ToLower(s[i]) != ToLower(t[0])
    ensures Keyword(t, sym, s, i) == None
  {
  }

  /** No keyword of `word` begins with any other letter. */
  lemma NoKeywordInitial(s: string, i: nat)
    requires i < |s| && ToLower(s[i]) !in "abcdegikmnopstuw"
    ensures KeywordWord(s, i) == None
  {
    assert TagNoCase("is", s, i) == None;
    KeywordNeedsItsInitial("is", SymbolType.Is, s, i);
    KeywordNeedsItsInitial("was", SymbolType.Is, s, i);
    KeywordNeedsItsInitial("if", SymbolType.If, s, i);
    KeywordNeedsItsInitial("build", Build, s, i);
    KeywordNeedsItsInitial("up", Up, s, i);
    KeywordNeedsItsInitial("knock", Knock, s, i);
    KeywordNeedsItsInitial("down", Down, s, i);
    KeywordNeedsItsInitial("aint", Aint, s, i);
    KeywordNeedsItsInitial("say", SymbolType.Say, s, i);
    KeywordNeedsItsInitial("shout", SymbolType.Say, s, i);
    KeywordNeedsItsInitial("whisper", SymbolType.Say, s, i);
    KeywordNeedsItsInitial("scream", SymbolType.Say, s, i);
    KeywordNeedsItsInitial("and", And, s, i);
    KeywordNeedsItsInitial("while", SymbolType.While, s, i);
    KeywordNeedsItsInitial("until", SymbolType.Until, s, i);
    KeywordNeedsItsInitial("end", SymbolType.Next, s, i);
    KeywordNeedsItsInitial("around we go", SymbolType.Next, s, i);
    KeywordNeedsItsInitial("take it to the top", SymbolType.Continue, s, i);
    KeywordNeedsItsInitial("continue", SymbolType.Continue, s, i);
    KeywordNeedsItsInitial("give back", SymbolType.Return, s, i);
    KeywordNeedsItsInitial("takes", Takes, s, i);
    KeywordNeedsItsInitial("without", Subtract, s, i);
    KeywordNeedsItsInitial("minus", Subtract, s, i);
    KeywordNeedsItsInitial("with", Add, s, i);
    KeywordNeedsItsInitial("plus", Add, s, i);
    KeywordNeedsItsInitial("times", Times, s, i);
    KeywordNeedsItsInitial("of", Times, s, i);
    KeywordNeedsItsInitial("into", Where, s, i);
    KeywordNeedsItsInitial("put", Put, s, i);
    KeywordNeedsItsInitial("else", Else, s, i);
    KeywordNeedsItsInitial("nothing", SymbolType.Integer("0"), s, i);
  }

  /** Of the keywords, only `continue` begins with `c`. */
  lemma OnlyContinueStartsWithC(s: string, i: nat)
    requires i < |s| && ToLower(s[i]) == 'c' && !MatchesNoCase(s, i, "continue", 0)
    ensures KeywordWord(s, i) == None
  {
    assert TagNoCase("is", s, i) == None;
    KeywordNeedsItsInitial("is", SymbolType.Is, s, i);
    KeywordNeedsItsInitial("was", SymbolType.Is, s, i);
    KeywordNeedsItsInitial("if", SymbolType.If, s, i);
    KeywordNeedsItsInitial("build", Build, s, i);
    KeywordNeedsItsInitial("up", Up, s, i);
    KeywordNeedsItsInitial("knock", Knock, s, i);
    KeywordNeedsItsInitial("down", Down, s, i);
    KeywordNeedsItsInitial("aint", Aint, s, i);
    KeywordNeedsItsInitial("say", SymbolType.Say, s, i);
    KeywordNeedsItsInitial("shout", SymbolType.Say, s, i);
    KeywordNeedsItsInitial("whisper", SymbolType.Say, s, i);
    KeywordNeedsItsInitial("scream", SymbolType.Say, s, i);
    KeywordNeedsItsInitial("and", And, s, i);
    KeywordNeedsItsInitial("while", SymbolType.While, s, i);
    KeywordNeedsItsInitial("until", SymbolType.Until, s, i);
    KeywordNeedsItsInitial("end", SymbolType.Next, s, i);
    KeywordNeedsItsInitial("around we go", SymbolType.Next, s, i);
    KeywordNeedsItsInitial("take it to the top", SymbolType.Continue, s, i);
    KeywordNeedsItsInitial("give back", SymbolType.Return, s, i);
    KeywordNeedsItsInitial("takes", Takes, s, i);
    KeywordNeedsItsInitial("without", Subtract, s, i);
    KeywordNeedsItsInitial("minus", Subtract, s, i);
    KeywordNeedsItsInitial("with", Add, s, i);
    KeywordNeedsItsInitial("plus", Add, s, i);
    KeywordNeedsItsInitial("times", Times, s, i);
    KeywordNeedsItsInitial("of", Times, s, i);
    KeywordNeedsItsInitial("into", Where, s, i);
    KeywordNeedsItsInitial("put", Put, s, i);
    KeywordNeedsItsInitial("else", Else, s, i);
    KeywordNeedsItsInitial("nothing", SymbolType.Integer("0"), s, i);
  }

  /** `until` is a keyword when `up`, the only earlier keyword with its initial, does not match. */
  lemma UntilKeyword(s: string, i: nat)
    requires i <= |s| && MatchesNoCase(s, i, "until", 0) && !MatchesNoCase(s, i, "up", 0)
    ensures Word(s, i) == Some((SymbolType.Until, i + 5))
  {
    assert ToLower(s[i]) == 'u';
    assert TagNoCase("is", s, i) == None;
    KeywordNeedsItsInitial("is", SymbolType.Is, s, i);
    KeywordNeedsItsInitial("was", SymbolType.Is, s, i);
    KeywordNeedsItsInitial("if", SymbolType.If, s, i);
    KeywordNeedsItsInitial("build", Build, s, i);
    KeywordNeedsItsInitial("knock", Knock, s, i);
    KeywordNeedsItsInitial("down", Down, s, i);
    KeywordNeedsItsInitial("aint", Aint, s, i);
    KeywordNeedsItsInitial("say", SymbolType.Say, s, i);
    KeywordNeedsItsInitial("shout", SymbolType.Say, s, i);
    KeywordNeedsItsInitial("whisper", SymbolType.Say, s, i);
    KeywordNeedsItsInitial("scream", SymbolType.Say, s, i);
    KeywordNeedsItsInitial("and", And, s, i);
    KeywordNeedsItsInitial("while", SymbolType.While, s, i);
  }

  /** The end of a run is the first position whose character fails the test. */
  lemma RunEndAt(p: char -> bool, s: string, i: nat, j: nat)
    requires i <= j <= |s| && (forall k :: i <= k < j ==> p(s[k])) && (j == |s| || !p(s[j]))
    ensures RunEnd(p, s, i) == j
  {
  }

  /** A single Title-Case word that no further Title-Case word follows is the whole variable. */
  lemma OneTitleWord(s: string, i: nat, j: nat)
    requires i < j <= |s| && IsUppercase(s[i]) && ToLower(s[i]) !in "abeimpstuwy"
    requires (forall k :: i < k < j ==> WordCharacter(s[k])) && (j == |s| || !WordCharacter(s[j]))
    requires i + 1 < j && MoreTitleCase(s, j) == ([], j)
    ensures VariableName(s, i) == Some((s[i..j], j))
  {
    NoReservedInitial(s, i);
    RunEndAt(WordCharacter, s, i + 1, j);
  }

  /** A variable followed by one space and a word that is not `taking` does not start a call. */
  lemma NoTakingAfter(s: string, i: nat, k: nat)
    requires i <= |s| && VariableName(s, i).Some? && VariableName(s, i).value.1 == k
    requires k + 1 < |s| && s[k] == ' ' && !IsSpace(s[k + 1]) && ToLower(s[k + 1]) != 't'
    ensures TakingCall(s, i) == None
  {
    RunEndAt(IsSpace, s, k, k + 1);
  }

  /** A variable that is not a keyword, a call or a number is lexed as that variable. */
  lemma VariableWord(s: string, i: nat, v: string, j: nat)
    requires i < |s| && KeywordWord(s, i) == None && TakingCall(s, i) == None && !IsNumeric(s[i])
    requires VariableName(s, i) == Some((v, j))
    ensures Word(s, i) == Some((SymbolType.Variable(v), j))
  {
  }

  /** Neither a comma nor a space: the words of the line stop here. */
  lemma LineStopsAt(s: string, k: nat, line: nat)
    requires k < |s| && s[k] != ',' && !IsSpace(s[k])
    ensures OtherWords(s, k, line) == ([], k)
  {
  }

  // ----- `Until Counter is Limit` -----

  /** `is` is a keyword, so it does not extend the proper variable `Counter`. */
  lemma CounterStopsAtIs()
    ensures MoreTitleCase("Until Counter is Limit", 13) == ([], 13)
  {
    assert Spaces1("Until Counter is Limit", 13) == Some(14);
    assert StartsWithKeyword("Until Counter is Limit", 14);
  }

  lemma IsWord()
    ensures Word("Until Counter is Limit", 14) == Some((SymbolType.Is, 16))
  {
    assert Spaces1("Until Counter is Limit", 16) == Some(17);
    assert TagNoCase("as", "Until Counter is Limit", 17) == None;
    assert LessAdjective("Until Counter is Limit", 17) == None && GreaterAdjective("Until Counter is Limit", 17) == None;
  }

  /** `Until` is the keyword, not the start of a proper variable. */
  lemma UntilWord(s: string)
    requires s == "Until Counter is Limit"
    ensures Word(s, 0) == Some((SymbolType.Until, 5))
  {
    assert MatchesNoCase(s, 0, "until", 0) && !MatchesNoCase(s, 0, "up", 0);
    UntilKeyword(s, 0);
  }

  /** The letters of `Counter`, and what surrounds them. */
  lemma CounterLetters(s: string)
    requires s == "Until Counter is Limit"
    ensures s[6..13] == "Counter" && IsUppercase(s[6]) && ToLower(s[6]) == 'c'
    ensures (forall k :: 6 < k < 13 ==> WordCharacter(s[k])) && !WordCharacter(s[13])
    ensures s[13] == ' ' && s[14] == 'i'
  {
  }

  /** `Counter` is a proper variable of one word. */
  lemma CounterVariable(s: string)
    requires s == "Until Counter is Limit"
    ensures VariableName(s, 6) == Some(("Counter", 13))
  {
    CounterLetters(s);
    CounterStopsAtIs();
    OneTitleWord(s, 6, 13);
  }

  /** `Counter` is not the keyword `continue`. */
  lemma CounterNoKeyword(s: string)
    requires s == "Until Counter is Limit"
    ensures KeywordWord(s, 6) == None
  {
    assert !MatchesNoCase(s, 6, "continue", 0);
    CounterLetters(s);
    OnlyContinueStartsWithC(s, 6);
  }

  /** `is` after `Counter` is not `taking`, so no call starts there. */
  lemma CounterNoCall(s: string)
    requires s == "Until Counter is Limit"
    ensures TakingCall(s, 6) == None
  {
    CounterLetters(s);
    CounterVariable(s);
    NoTakingAfter(s, 6, 13);
  }

  lemma CounterWord(s: string)
    requires s == "Until Counter is Limit"
    ensures Word(s, 6) == Some((SymbolType.Variable("Counter"), 13))
  {
    CounterNoKeyword(s);
    CounterNoCall(s);
    CounterVariable(s);
    VariableWord(s, 6, "Counter", 13);
  }

  /** The letters of `Limit`, which ends the line. */
  lemma LimitLetters(s: string)
    requires s == "Until Counter is Limit"
    ensures s[17..22] == "Limit" && IsUppercase(s[17]) && ToLower(s[17]) == 'l' && |s| == 22
    ensures forall k :: 17 < k < 22 ==> WordCharacter(s[k])
  {
  }

  /** `Limit` ends the line and is a variable of one word. */
  lemma LimitWord(s: string)
    requires s == "Until Counter is Limit"
    ensures Word(s, 17) == Some((SymbolType.Variable("Limit"), 22))
  {
    LimitLetters(s);
    NoKeywordInitial(s, 17);
    assert MoreTitleCase(s, 22) == ([], 22);
    OneTitleWord(s, 17, 22);
    VariableWord(s, 17, "Limit", 22);
  }

  // ----- `If a thought is greater than nothinggggggggg` -----

  /** `nothing` is matched as a prefix, so it splits off the front of a longer word. */
  lemma NothingIsAPrefix(s: string, i: nat)
    requires i <= |s| && MatchesNoCase(s, i, "nothing", 0)
    ensures Word(s, i) == Some((SymbolType.Integer("0"), i + 7))
  {
    assert ToLower(s[i]) == 'n';
    assert TagNoCase("is", s, i) == None;
    KeywordNeedsItsInitial("is", SymbolType.Is, s, i);
    KeywordNeedsItsInitial("was", SymbolType.Is, s, i);
    KeywordNeedsItsInitial("if", SymbolType.If, s, i);
    KeywordNeedsItsInitial("build", Build, s, i);
    KeywordNeedsItsInitial("up", Up, s, i);
    KeywordNeedsItsInitial("knock", Knock, s, i);
    KeywordNeedsItsInitial("down", Down, s, i);
    KeywordNeedsItsInitial("aint", Aint, s, i);
    KeywordNeedsItsInitial("say", SymbolType.Say, s, i);
    KeywordNeedsItsInitial("shout", SymbolType.Say, s, i);
    KeywordNeedsItsInitial("whisper", SymbolType.Say, s, i);
    KeywordNeedsItsInitial("scream", SymbolType.Say, s, i);
    KeywordNeedsItsInitial("and", And, s, i);
    KeywordNeedsItsInitial("while", SymbolType.While, s, i);
    KeywordNeedsItsInitial("until", SymbolType.Until, s, i);
    KeywordNeedsItsInitial("end", SymbolType.Next, s, i);
    KeywordNeedsItsInitial("around we go", SymbolType.Next, s, i);
    KeywordNeedsItsInitial("take it to the top", SymbolType.Continue, s, i);
    KeywordNeedsItsInitial("continue", SymbolType.Continue, s, i);
    KeywordNeedsItsInitial("give back", SymbolType.Return, s, i);
    KeywordNeedsItsInitial("takes", Takes, s, i);
    KeywordNeedsItsInitial("without", Subtract, s, i);
    KeywordNeedsItsInitial("minus", Subtract, s, i);
    KeywordNeedsItsInitial("with", Add, s, i);
    KeywordNeedsItsInitial("plus", Add, s, i);
    KeywordNeedsItsInitial("times", Times, s, i);
    KeywordNeedsItsInitial("of", Times, s, i);
    KeywordNeedsItsInitial("into", Where, s, i);
    KeywordNeedsItsInitial("put", Put, s, i);
    KeywordNeedsItsInitial("else", Else, s, i);
  }

  /** What follows `nothing` without a space is left unlexed. */
  lemma NothingSplitsOff(s: string, i: nat, line: nat)
    requires i <= |s| && MatchesNoCase(s, i, "nothing", 0) && i + 7 < |s|
    requires s[i + 7] != ',' && !IsSpace(s[i + 7])
    ensures Word(s, i) == Some((SymbolType.Integer("0"), i + 7))
    ensures OtherWords(s, i + 7, line) == ([], i + 7)
  {
    NothingIsAPrefix(s, i);
    LineStopsAt(s, i + 7, line);
  }
}
