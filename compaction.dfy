/**
 * compact_words (src/parser.rs:291-319): merges every run of adjacent `Words` tokens of a
 * lexed line into a single `Words` token.
 */
module Compaction {
  import opened Common

  /**
   * The compaction of `line` given the words still waiting to be flushed (`pending`) and the
   * line number of the line's first token (`pos`). A pending run is flushed just before the
   * next token that is not a `Words`, with that token's line, or at the end with `pos`.
   */
  function CompactFrom(line: seq<Token>, pending: seq<string>, pos: nat): seq<Token>
    decreases |line|
  {
    if line == [] then
      (if pending == [] then [] else [Token(pos, Words(pending))])
    else if line[0].symbol.Words? then
      CompactFrom(line[1..], pending + line[0].symbol.words, pos)
    else
      (if pending == [] then [] else [Token(line[0].line, Words(pending))])
      + [line[0]] + CompactFrom(line[1..], [], pos)
  }

  /** The compacted line. The source indexes `line[0]`, so the line may not be empty. */
  function Compact(line: seq<Token>): seq<Token>
    requires |line| > 0
  {
    CompactFrom(line, [], line[0].line)
  }

  /** The tokens that are not `Words`, in order. */
  function NonWords(line: seq<Token>): seq<Token>
  {
    if line == [] then []
    else (if line[0].symbol.Words? then [] else [line[0]]) + NonWords(line[1..])
  }

  /** All the words of the `Words` tokens, in order. */
  function Flatten(line: seq<Token>): seq<string>
  {
    if line == [] then []
    else (if line[0].symbol.Words? then line[0].symbol.words else []) + Flatten(line[1..])
  }

  /** No two neighbouring tokens are both `Words`, and no `Words` token is empty. */
  predicate Compacted(line: seq<Token>)
  {
    (forall k :: 0 <= k < |line| && line[k].symbol.Words? ==> line[k].symbol.words != []) &&
    (forall k :: 0 < k < |line| && line[k].symbol.Words? ==> !line[k - 1].symbol.Words?)
  }

  lemma {:induction false} NonWordsAppend(a: seq<Token>, b: seq<Token>)
    ensures NonWords(a + b) == NonWords(a) + NonWords(b)
    decreases |a|
  {
    if a == [] {
      assert a + b == b;
    } else {
      assert (a + b)[1..] == a[1..] + b;
      NonWordsAppend(a[1..], b);
    }
  }

  lemma {:induction false} FlattenAppend(a: seq<Token>, b: seq<Token>)
    ensures Flatten(a + b) == Flatten(a) + Flatten(b)
    decreases |a|
  {
    if a == [] {
      assert a + b == b;
    } else {
      assert (a + b)[1..] == a[1..] + b;
      FlattenAppend(a[1..], b);
    }
  }

  /** Compaction drops no token other than `Words` and keeps the others in their order. */
  lemma {:induction false} CompactFromKeepsOthers(line: seq<Token>, pending: seq<string>, pos: nat)
    ensures NonWords(CompactFrom(line, pending, pos)) == NonWords(line)
    decreases |line|
  {
    if line == [] {
    } else if line[0].symbol.Words? {
      CompactFromKeepsOthers(line[1..], pending + line[0].symbol.words, pos);
    } else {
      var flushed: seq<Token> := if pending == [] then [] else [Token(line[0].line, Words(pending))];
      CompactFromKeepsOthers(line[1..], [], pos);
      NonWordsAppend(flushed + [line[0]], CompactFrom(line[1..], [], pos));
      NonWordsAppend(flushed, [line[0]]);
    }
  }

  /** Compaction loses and reorders no word: the flattened words are the pending ones, then the line's. */
  lemma {:induction false} CompactFromKeepsWords(line: seq<Token>, pending: seq<string>, pos: nat)
    ensures Flatten(CompactFrom(line, pending, pos)) == pending + Flatten(line)
    decreases |line|
  {
    if line == [] {
    } else if line[0].symbol.Words? {
      CompactFromKeepsWords(line[1..], pending + line[0].symbol.words, pos);
    } else {
      var flushed: seq<Token> := if pending == [] then [] else [Token(line[0].line, Words(pending))];
      CompactFromKeepsWords(line[1..], [], pos);
      FlattenAppend(flushed + [line[0]], CompactFrom(line[1..], [], pos));
      FlattenAppend(flushed, [line[0]]);
    }
  }

  /** The output is compacted: no empty `Words` token and no two `Words` tokens side by side. */
  lemma {:induction false} CompactFromCompacted(line: seq<Token>, pending: seq<string>, pos: nat)
    ensures Compacted(CompactFrom(line, pending, pos))
    decreases |line|
  {
    if line == [] {
    } else if line[0].symbol.Words? {
      CompactFromCompacted(line[1..], pending + line[0].symbol.words, pos);
    } else {
      CompactFromCompacted(line[1..], [], pos);
      var rest := CompactFrom(line[1..], [], pos);
      var flushed: seq<Token> := if pending == [] then [] else [Token(line[0].line, Words(pending))];
      FlushedCompacted(flushed, line[0], rest);
    }
  }

  /** Flushed words, then a token that is not `Words`, then a compacted rest, are compacted. */
  lemma FlushedCompacted(flushed: seq<Token>, t: Token, rest: seq<Token>)
    requires |flushed| <= 1 && (flushed != [] ==> flushed[0].symbol.Words? && flushed[0].symbol.words != [])
    requires !t.symbol.Words? && Compacted(rest)
    ensures Compacted(flushed + [t] + rest)
  {
    var r := flushed + [t] + rest;
    forall k | 0 < k < |r| && r[k].symbol.Words?
      ensures !r[k - 1].symbol.Words?
    {
      if k > |flushed| + 1 {
        assert r[k] == rest[k - |flushed| - 1];
        assert r[k - 1] == rest[k - |flushed| - 2];
      } else if k == |flushed| + 1 {
        assert r[k - 1] == t;
      }
    }
    forall k | 0 <= k < |r| && r[k].symbol.Words?
      ensures r[k].symbol.words != []
    {
      if k > |flushed| {
        assert r[k] == rest[k - |flushed| - 1];
      }
    }
  }

  /**
   * Everything compact_words promises: the non-`Words` tokens are kept in order, the words are
   * kept in order, and no two `Words` tokens are left next to each other.
   */
  lemma CompactIsLossless(line: seq<Token>)
    requires |line| > 0
    ensures NonWords(Compact(line)) == NonWords(line)
    ensures Flatten(Compact(line)) == Flatten(line)
    ensures Compacted(Compact(line))
  {
    CompactFromKeepsOthers(line, [], line[0].line);
    CompactFromKeepsWords(line, [], line[0].line);
    CompactFromCompacted(line, [], line[0].line);
  }

  /**
   * Compaction works in place: a token that is not `Words` splits the line, the words before it
   * are flushed just before it (with its line number), and what follows it is compacted on its own.
   */
  lemma {:induction false} CompactFromSplits(a: seq<Token>, t: Token, b: seq<Token>, pending: seq<string>, pos: nat)
    requires !t.symbol.Words?
    ensures CompactFrom(a + [t] + b, pending, pos) == CompactFrom(a, pending, t.line) + [t] + CompactFrom(b, [], pos)
    decreases |a|
  {
    if a == [] {
      assert a + [t] + b == [t] + b;
      assert ([t] + b)[1..] == b;
    } else {
      assert (a + [t] + b)[0] == a[0];
      assert (a + [t] + b)[1..] == a[1..] + [t] + b;
      if a[0].symbol.Words? {
        CompactFromSplits(a[1..], t, b, pending + a[0].symbol.words, pos);
      } else {
        CompactFromSplits(a[1..], t, b, [], pos);
      }
    }
  }

  /** A run of `Words` tokens, with words pending or words in it, becomes one `Words` token on the given line. */
  lemma {:induction false} CompactWordRun(run: seq<Token>, pending: seq<string>, pos: nat)
    requires forall k :: 0 <= k < |run| ==> run[k].symbol.Words?
    ensures pending + Flatten(run) == [] ==> CompactFrom(run, pending, pos) == []
    ensures pending + Flatten(run) != [] ==> CompactFrom(run, pending, pos) == [Token(pos, Words(pending + Flatten(run)))]
    decreases |run|
  {
    if run != [] {
      CompactWordRun(run[1..], pending + run[0].symbol.words, pos);
      assert pending + Flatten(run) == (pending + run[0].symbol.words) + Flatten(run[1..]);
    } else {
      assert pending + Flatten(run) == pending;
    }
  }

  /** A line without `Words` tokens is left unchanged. */
  lemma {:induction false} CompactWithoutWords(line: seq<Token>, pos: nat)
    requires forall k :: 0 <= k < |line| ==> !line[k].symbol.Words?
    ensures CompactFrom(line, [], pos) == line
    decreases |line|
  {
    if line != [] {
      CompactWithoutWords(line[1..], pos);
    }
  }

  /** One turn of the loop of compact_words keeps what is left to produce equal to the compaction. */
  lemma CompactWordsStep(line: seq<Token>, i: nat, symbols: seq<Token>, words: seq<string>, pos: nat)
    requires i < |line| && symbols + CompactFrom(line[i..], words, pos) == Compact(line)
    ensures line[i].symbol.Words? ==>
      symbols + CompactFrom(line[i + 1..], words + line[i].symbol.words, pos) == Compact(line)
    ensures !line[i].symbol.Words? ==>
      (symbols + (if words == [] then [] else [Token(line[i].line, Words(words))]) + [line[i]]) +
        CompactFrom(line[i + 1..], [], pos) == Compact(line)
  {
    assert line[i..][0] == line[i] && line[i..][1..] == line[i + 1..];
    if !line[i].symbol.Words? {
      var flushed := if words == [] then [] else [Token(line[i].line, Words(words))];
      var rest := CompactFrom(line[i + 1..], [], pos);
      assert CompactFrom(line[i..], words, pos) == flushed + [line[i]] + rest;
      assert (symbols + flushed + [line[i]]) + rest == symbols + (flushed + [line[i]] + rest);
    }
  }

  /** compact_words: one pass over the line, flushing the pending words before each other token. */
  method CompactWords(line: seq<Token>) returns (symbols: seq<Token>)
    requires |line| > 0
    ensures symbols == Compact(line)
  {
    symbols := [];
    var words: seq<string> := [];
    var pos := line[0].line;
    var i := 0;
    while i < |line|
      invariant 0 <= i <= |line|
      invariant symbols + CompactFrom(line[i..], words, pos) == Compact(line)
    {
      var word := line[i];
      CompactWordsStep(line, i, symbols, words, pos);
      if word.symbol.Words? {
        words := words + word.symbol.words;
      } else {
        var flushed := if words == [] then [] else [Token(word.line, Words(words))];
        symbols := symbols + flushed + [word];
        words := [];
      }
      i := i + 1;
    }
    if words != [] {
      symbols := symbols + [Token(pos, Words(words))];
    }
  }
}
