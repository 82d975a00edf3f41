/** The tokenizer of src/features/Excel/utils/tokenizer.ts: a cell's raw content
    becomes a sequence of tokens. */
module Tokenizer {
  import opened Wrappers
  import opened Utils

  datatype Token =
    | Reserved(expr: string)   // an operator, punctuation, a function name or a cell address
    | Num(value: real)         // a numeric literal

  /** `splitLetters`: each of these ends the pending symbol and is a token of its own. */
  predicate IsSplitLetter(c: char) {
    c == '(' || c == ',' || c == ')' || c == '+' || c == '-' || c == '*' || c == '/'
  }

  ghost predicate NoSplitLetter(s: string) {
    forall i :: 0 <= i < |s| ==> !IsSplitLetter(s[i])
  }

  ghost predicate NoSpace(s: string) {
    forall i :: 0 <= i < |s| ==> s[i] != ' '
  }

  // ---------------------------------------------------------------------------
  // Reference definition: the space-free text cut into maximal runs
  // ---------------------------------------------------------------------------

  function RemoveSpaces(s: string): (t: string)
    ensures NoSpace(t)
  {
    if s == [] then []
    else if s[0] == ' ' then RemoveSpaces(s[1..])
    else [s[0]] + RemoveSpaces(s[1..])
  }

  /** The length of the longest prefix of `t` free of split letters. */
  function RunLength(t: string): (k: nat)
    ensures k <= |t|
    ensures NoSplitLetter(t[..k])
    ensures k < |t| ==> IsSplitLetter(t[k])
  {
    if t == [] || IsSplitLetter(t[0]) then 0
    else
      var k := RunLength(t[1..]);
      assert t[..k + 1] == [t[0]] + t[1..][..k];
      k + 1
  }

  /** A split letter on its own, or a maximal run of other characters. */
  function Segments(t: string): seq<string>
    decreases |t|
  {
    if t == [] then []
    else if IsSplitLetter(t[0]) then [[t[0]]] + Segments(t[1..])
    else
      var k := RunLength(t);
      [t[..k]] + Segments(t[k..])
  }

  /** A completed symbol becomes a number when `isNumeric` accepts it. */
  function Classify(symbol: string): (tok: Token)
  {
    if IsNumeric(symbol) then Num(NumberValue(symbol)) else Reserved(symbol)
  }

  function ClassifyAll(segs: seq<string>): (toks: seq<Token>)
    ensures |toks| == |segs|
    ensures forall i :: 0 <= i < |segs| ==> toks[i] == Classify(segs[i])
  {
    if segs == [] then [] else [Classify(segs[0])] + ClassifyAll(segs[1..])
  }

  /** What `tokenizer(str)` returns, or the error it throws. */
  function Tokens(str: string): Result<seq<Token>>
  {
    if |str| > 0 && str[0] == '=' then Ok(ClassifyAll(Segments(RemoveSpaces(str[1..]))))
    else if IsNumeric(str) then Ok([Num(NumberValue(str))])
    else Err(NotFormulaNorNumber)
  }

  // ---------------------------------------------------------------------------
  // The scan loop
  // ---------------------------------------------------------------------------

  /** Turning the pending buffer into a token, as the loop does at each split letter
      and once more at the end of the input. */
  function Flush(buffer: string): (toks: seq<Token>)
    ensures buffer == [] ==> toks == []
    ensures buffer != [] ==> |toks| == 1 && (toks[0].Num? <==> IsNumeric(buffer))
    ensures buffer != [] && toks[0].Num? ==> toks[0].value == NumberValue(buffer)
    ensures buffer != [] && toks[0].Reserved? ==> toks[0].expr == buffer
  {
    if buffer == [] then [] else [Classify(buffer)]
  }

  method Tokenize(str: string) returns (r: Result<seq<Token>>)
    ensures r == Tokens(str)
  {
    if |str| > 0 && str[0] == '=' {
      var tokens: seq<Token> := [];
      var token: string := "";
      ghost var all := ClassifyAll(Segments(RemoveSpaces(str[1..])));
      assert token + RemoveSpaces(str[1..]) == RemoveSpaces(str[1..]);
      for i := 1 to |str|
        invariant NoSplitLetter(token)
        invariant tokens + ClassifyAll(Segments(token + RemoveSpaces(str[i..]))) == all
      {
        var c := str[i];
        assert str[i..][0] == c && str[i..][1..] == str[i + 1..];
        ScanInvariant(tokens, token, str[i..]);
        if c == ' ' {
          continue;
        }
        if IsSplitLetter(c) {
          tokens := tokens + Flush(token);
          token := "";
          tokens := tokens + [Reserved([c])];
          continue;
        }
        token := token + [c];
      }
      assert str[|str|..] == [] && token + RemoveSpaces([]) == token;
      SegmentsOfRun(token);
      assert ClassifyAll(Segments(token)) == Flush(token);
      tokens := tokens + Flush(token);
      return Ok(tokens);
    }
    if !IsNumeric(str) {
      return Err(NotFormulaNorNumber);
    }
    return Ok([Num(NumberValue(str))]);
  }

  /** The loop invariant is kept by each of the three branches of the scan loop, with
      `tokens` emitted and `token` pending before the remaining input `s`. */
  lemma ScanInvariant(tokens: seq<Token>, token: string, s: string)
    requires s != [] && NoSplitLetter(token)
    ensures s[0] == ' ' ==>
      tokens + ClassifyAll(Segments(token + RemoveSpaces(s[1..])))
      == tokens + ClassifyAll(Segments(token + RemoveSpaces(s)))
    ensures s[0] != ' ' && IsSplitLetter(s[0]) ==>
      tokens + Flush(token) + [Reserved([s[0]])] + ClassifyAll(Segments("" + RemoveSpaces(s[1..])))
      == tokens + ClassifyAll(Segments(token + RemoveSpaces(s)))
    ensures s[0] != ' ' && !IsSplitLetter(s[0]) ==>
      NoSplitLetter(token + [s[0]])
      && tokens + ClassifyAll(Segments((token + [s[0]]) + RemoveSpaces(s[1..])))
         == tokens + ClassifyAll(Segments(token + RemoveSpaces(s)))
  {
    if s[0] == ' ' {
      ScanStep(token, s);
    } else if IsSplitLetter(s[0]) {
      SplitKeepsInvariant(tokens, token, s);
    } else {
      ScanStep(token, s);
      assert forall k :: 0 <= k < |token| ==> (token + [s[0]])[k] == token[k];
      assert (token + [s[0]])[|token|] == s[0];
    }
  }

  lemma SplitKeepsInvariant(tokens: seq<Token>, token: string, s: string)
    requires s != [] && NoSplitLetter(token) && s[0] != ' ' && IsSplitLetter(s[0])
    ensures tokens + Flush(token) + [Reserved([s[0]])] + ClassifyAll(Segments("" + RemoveSpaces(s[1..])))
      == tokens + ClassifyAll(Segments(token + RemoveSpaces(s)))
  {
    ScanStep(token, s);
    AppendAssociative(tokens, Flush(token), [Reserved([s[0]])], ClassifyAll(Segments("" + RemoveSpaces(s[1..]))));
  }

  /** Regrouping four token lists; kept apart so that it is proved without the facts
      about the scan in scope. */
  lemma AppendAssociative(a: seq<Token>, b: seq<Token>, c: seq<Token>, d: seq<Token>)
    ensures a + b + c + d == a + (b + c + d)
  {
  }

  /** One step of the scan loop on the remaining input `s`, with `token` pending. */
  lemma ScanStep(token: string, s: string)
    requires s != [] && NoSplitLetter(token)
    ensures s[0] == ' ' ==> token + RemoveSpaces(s) == token + RemoveSpaces(s[1..])
    ensures s[0] != ' ' && IsSplitLetter(s[0]) ==>
      ClassifyAll(Segments(token + RemoveSpaces(s)))
      == Flush(token) + [Reserved([s[0]])] + ClassifyAll(Segments("" + RemoveSpaces(s[1..])))
    ensures s[0] != ' ' && !IsSplitLetter(s[0]) ==>
      token + RemoveSpaces(s) == (token + [s[0]]) + RemoveSpaces(s[1..])
  {
    if s[0] != ' ' {
      assert token + RemoveSpaces(s) == token + [s[0]] + RemoveSpaces(s[1..]);
      if IsSplitLetter(s[0]) {
        FlushAtSplit(token, s[0], RemoveSpaces(s[1..]));
        assert "" + RemoveSpaces(s[1..]) == RemoveSpaces(s[1..]);
      }
    }
  }

  lemma {:induction false} ClassifyAllAppend(a: seq<string>, b: seq<string>)
    ensures ClassifyAll(a + b) == ClassifyAll(a) + ClassifyAll(b)
  {
  }

  lemma {:induction false} RunLengthOfRun(b: string, rest: string)
    requires NoSplitLetter(b)
    requires rest == [] || IsSplitLetter(rest[0])
    ensures RunLength(b + rest) == |b|
  {
    if b != [] {
      assert (b + rest)[1..] == b[1..] + rest;
      RunLengthOfRun(b[1..], rest);
    }
  }

  /** A buffer free of split letters, followed by a split letter, is one segment. */
  lemma SegmentsAtSplit(b: string, c: char, rest: string)
    requires NoSplitLetter(b) && IsSplitLetter(c)
    ensures Segments(b + [c] + rest) == (if b == [] then [] else [b]) + [[c]] + Segments(rest)
  {
    var t := b + [c] + rest;
    if b == [] {
      assert t == [c] + rest;
      assert t[1..] == rest;
    } else {
      RunLengthOfRun(b, [c] + rest);
      assert t == b + ([c] + rest);
      assert t[..|b|] == b;
      assert t[|b|..] == [c] + rest;
      assert ([c] + rest)[1..] == rest;
    }
  }

  /** The end of the input flushes the buffer as one segment. */
  lemma SegmentsOfRun(b: string)
    requires NoSplitLetter(b)
    ensures Segments(b) == if b == [] then [] else [b]
  {
    if b != [] {
      RunLengthOfRun(b, []);
      assert b + [] == b;
      assert b[|b|..] == [];
    }
  }

  lemma SplitLetterNotNumeric(c: char)
    requires IsSplitLetter(c)
    ensures Classify([c]) == Reserved([c])
  {
    assert [c][1..] == [];
  }

  lemma FlushAtSplit(b: string, c: char, rest: string)
    requires NoSplitLetter(b) && IsSplitLetter(c)
    ensures ClassifyAll(Segments(b + [c] + rest)) == Flush(b) + [Reserved([c])] + ClassifyAll(Segments(rest))
  {
    SegmentsAtSplit(b, c, rest);
    var head: seq<string> := if b == [] then [] else [b];
    ClassifyAllAppend(head + [[c]], Segments(rest));
    ClassifyAllAppend(head, [[c]]);
    SplitLetterNotNumeric(c);
    assert ClassifyAll([[c]]) == [Reserved([c])];
    assert ClassifyAll(head) == Flush(b);
  }
}
