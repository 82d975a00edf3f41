/** What the tokenizer promises about its output, proved on the reference definition
    `Tokens` that `Tokenize` is shown to compute. */
module TokenizerProperties {
  import opened Wrappers
  import opened Utils
  import opened Tokenizer

  function Concat(segs: seq<string>): string {
    if segs == [] then [] else segs[0] + Concat(segs[1..])
  }

  /** The split letters of `s`, in order. */
  function SplitLettersOf(s: string): string {
    if s == [] then []
    else (if IsSplitLetter(s[0]) then [s[0]] else []) + SplitLettersOf(s[1..])
  }

  /** The characters of the single-letter `Reserved` tokens that hold a split letter,
      in order. */
  function SplitSymbols(toks: seq<Token>): string {
    if toks == [] then []
    else
      (if toks[0].Reserved? && |toks[0].expr| == 1 && IsSplitLetter(toks[0].expr[0])
       then toks[0].expr else [])
      + SplitSymbols(toks[1..])
  }

  /** The tokens of a formula (content starting with `=`). */
  function FormulaTokens(str: string): seq<Token>
    requires |str| > 0 && str[0] == '='
  {
    Tokens(str).value
  }

  // ---------------------------------------------------------------------------
  // Segments
  // ---------------------------------------------------------------------------

  lemma {:induction false} SplitHead(c: char, rest: string)
    requires IsSplitLetter(c)
    ensures Segments([c] + rest) == [[c]] + Segments(rest)
  {
    assert ([c] + rest)[1..] == rest;
  }

  lemma {:induction false} RunHead(run: string, rest: string)
    requires run != [] && NoSplitLetter(run)
    requires rest == [] || IsSplitLetter(rest[0])
    ensures Segments(run + rest) == [run] + Segments(rest)
  {
    RunLengthOfRun(run, rest);
    assert (run + rest)[..|run|] == run;
    assert (run + rest)[|run|..] == rest;
  }

  /** Every segment is a lone split letter or a non-empty run free of split letters. */
  ghost predicate WellCut(seg: string) {
    (|seg| == 1 && IsSplitLetter(seg[0])) || (seg != [] && NoSplitLetter(seg))
  }

  /** Cutting loses nothing: the segments put back together are the text; each is
      well cut, and none holds a space when the text holds none. */
  lemma {:induction false} SegmentsRoundTrip(t: string)
    ensures Concat(Segments(t)) == t
    ensures forall i :: 0 <= i < |Segments(t)| ==> WellCut(Segments(t)[i])
    ensures NoSpace(t) ==> forall i :: 0 <= i < |Segments(t)| ==> NoSpace(Segments(t)[i])
    decreases |t|
  {
    if t != [] {
      var k := HeadLength(t);
      SegmentsCons(t);
      SegmentsRoundTrip(t[k..]);
      ConsSegment(t[..k], t[k..], Segments(t[k..]), NoSpace(t));
      assert t == t[..k] + t[k..];
    }
  }

  predicate StartsSplit(s: string) {
    s != [] && IsSplitLetter(s[0])
  }

  /** A list of well cut segments in which no two runs are adjacent, so that each run
      is maximal. */
  ghost predicate Cut(segs: seq<string>) {
    && (forall i :: 0 <= i < |segs| ==> WellCut(segs[i]))
    && (forall i :: 0 <= i < |segs| - 1 ==> StartsSplit(segs[i]) || StartsSplit(segs[i + 1]))
  }

  /** The converse of the round trip: the cut of a text is unique, so a cut list put
      together and cut again gives the same list. */
  lemma {:induction false} SegmentsOfCut(segs: seq<string>)
    requires Cut(segs)
    ensures Segments(Concat(segs)) == segs
  {
    if segs != [] {
      var head, rest := segs[0], segs[1..];
      assert Cut(rest) by {
        assert forall i :: 0 <= i < |rest| ==> rest[i] == segs[i + 1];
      }
      SegmentsOfCut(rest);
      assert segs == [head] + rest;
      if StartsSplit(head) {
        assert head == [head[0]];
        SplitHead(head[0], Concat(rest));
      } else {
        assert NoSplitLetter(head);
        if rest != [] {
          assert StartsSplit(rest[0]);
          assert Concat(rest)[0] == rest[0][0];
        }
        RunHead(head, Concat(rest));
      }
    }
  }

  /** The length of the first segment. */
  function HeadLength(t: string): nat
    requires t != []
  {
    if IsSplitLetter(t[0]) then 1 else RunLength(t)
  }

  lemma SegmentsCons(t: string)
    requires t != []
    ensures 0 < HeadLength(t) <= |t|
    ensures Segments(t) == [t[..HeadLength(t)]] + Segments(t[HeadLength(t)..])
    ensures WellCut(t[..HeadLength(t)])
  {
    if IsSplitLetter(t[0]) {
      assert t[..1] == [t[0]];
    }
  }

  /** One step of the round trip: a well cut `head` before segments `segs` of `rest`. */
  lemma ConsSegment(head: string, rest: string, segs: seq<string>, spaceFree: bool)
    requires WellCut(head) && Concat(segs) == rest
    requires forall i :: 0 <= i < |segs| ==> WellCut(segs[i])
    requires NoSpace(rest) ==> forall i :: 0 <= i < |segs| ==> NoSpace(segs[i])
    requires spaceFree ==> NoSpace(head + rest)
    ensures Concat([head] + segs) == head + rest
    ensures forall i :: 0 <= i < |[head] + segs| ==> WellCut(([head] + segs)[i])
    ensures spaceFree ==> forall i :: 0 <= i < |[head] + segs| ==> NoSpace(([head] + segs)[i])
  {
    var all := [head] + segs;
    assert all[0] == head && all[1..] == segs;
    assert forall i :: 1 <= i < |all| ==> all[i] == segs[i - 1];
    if spaceFree {
      assert NoSpace(head) by {
        forall j | 0 <= j < |head| ensures head[j] != ' ' {
          assert head[j] == (head + rest)[j];
        }
      }
      assert NoSpace(rest) by {
        forall j | 0 <= j < |rest| ensures rest[j] != ' ' {
          assert rest[j] == (head + rest)[|head| + j];
        }
      }
    }
  }

  lemma {:induction false} SplitLettersOfAppend(a: string, b: string)
    ensures SplitLettersOf(a + b) == SplitLettersOf(a) + SplitLettersOf(b)
  {
    if a != [] {
      assert (a + b)[1..] == a[1..] + b;
      SplitLettersOfAppend(a[1..], b);
    } else {
      assert a + b == b;
    }
  }

  lemma {:induction false} SplitLettersOfRun(run: string)
    requires NoSplitLetter(run)
    ensures SplitLettersOf(run) == []
  {
    if run != [] {
      SplitLettersOfRun(run[1..]);
    }
  }

  lemma {:induction false} SplitLettersOfRemoveSpaces(s: string)
    ensures SplitLettersOf(RemoveSpaces(s)) == SplitLettersOf(s)
  {
    if s != [] {
      SplitLettersOfRemoveSpaces(s[1..]);
      if s[0] != ' ' {
        SplitLettersOfAppend([s[0]], RemoveSpaces(s[1..]));
      }
    }
  }

  lemma {:induction false} SplitSymbolsOfSegments(t: string)
    ensures SplitSymbols(ClassifyAll(Segments(t))) == SplitLettersOf(t)
    decreases |t|
  {
    if t != [] {
      var segs := Segments(t);
      assert ClassifyAll(segs)[1..] == ClassifyAll(segs[1..]);
      if IsSplitLetter(t[0]) {
        SplitLetterNotNumeric(t[0]);
        SplitSymbolsOfSegments(t[1..]);
      } else {
        var k := RunLength(t);
        SplitSymbolsOfSegments(t[k..]);
        assert t == t[..k] + t[k..];
        SplitLettersOfAppend(t[..k], t[k..]);
        SplitLettersOfRun(t[..k]);
        assert t[..k][0] == t[0];
      }
    }
  }

  // ---------------------------------------------------------------------------
  // Properties of tokenizing a formula
  // ---------------------------------------------------------------------------

  /** Content that does not start with `=` is one number, or it is refused. */
  lemma PlainContent(str: string)
    requires |str| == 0 || str[0] != '='
    ensures Tokens(str).Ok? <==> IsNumeric(str)
    ensures Tokens(str).Ok? ==> Tokens(str).value == [Num(NumberValue(str))]
  {
  }

  /** Under the raw-text view (a token's text is the segment it was made from), the
      token texts of a formula spell the formula without its spaces. */
  lemma FormulaText(str: string)
    requires |str| > 0 && str[0] == '='
    ensures var segs := Segments(RemoveSpaces(str[1..]));
      && Concat(segs) == RemoveSpaces(str[1..])
      && |FormulaTokens(str)| == |segs|
      && forall i :: 0 <= i < |segs| ==>
           (FormulaTokens(str)[i].Reserved? ==> FormulaTokens(str)[i].expr == segs[i])
           && (FormulaTokens(str)[i].Num? ==> IsNumeric(segs[i]) && FormulaTokens(str)[i].value == NumberValue(segs[i]))
  {
    SegmentsRoundTrip(RemoveSpaces(str[1..]));
  }

  /** Each split letter after the `=` gives exactly one single-letter `Reserved` token,
      in input order; so there are as many such tokens as split letters. */
  lemma SplitLettersInOrder(str: string)
    requires |str| > 0 && str[0] == '='
    ensures SplitSymbols(FormulaTokens(str)) == SplitLettersOf(str[1..])
    ensures |SplitSymbols(FormulaTokens(str))| == |SplitLettersOf(str[1..])|
  {
    SplitSymbolsOfSegments(RemoveSpaces(str[1..]));
    SplitLettersOfRemoveSpaces(str[1..]);
  }

  /** No token holds a space; a `Reserved` token is never empty, and one longer than a
      letter holds no split letter; and, because `-` always splits, no number is
      negative. */
  lemma FormulaTokenShape(str: string)
    requires |str| > 0 && str[0] == '='
    ensures forall i :: 0 <= i < |FormulaTokens(str)| && FormulaTokens(str)[i].Reserved? ==>
      var e := FormulaTokens(str)[i].expr;
      e != [] && NoSpace(e) && (|e| > 1 ==> NoSplitLetter(e))
    ensures forall i :: 0 <= i < |FormulaTokens(str)| && FormulaTokens(str)[i].Num? ==>
      FormulaTokens(str)[i].value >= 0.0
  {
    var segs := Segments(RemoveSpaces(str[1..]));
    SegmentsRoundTrip(RemoveSpaces(str[1..]));
    forall i | 0 <= i < |segs|
      ensures Classify(segs[i]).Num? ==> Classify(segs[i]).value >= 0.0
    {
      if Classify(segs[i]).Num? {
        assert WellCut(segs[i]);
        assert !IsSplitLetter(segs[i][0]);
      }
    }
  }
}
