/** The cases of src/features/Excel/utils/tokenizer.test.ts, and the cell contents the
    cell examples of parser.test.ts read, computed on the reference `Tokens`. */
module TokenizerExamples {
  import opened Wrappers
  import opened Utils
  import opened Tokenizer
  import opened TokenizerProperties

  /** A single digit is a number token with the digit's value. */
  lemma DigitToken(c: char)
    requires IsDigit(c)
    ensures IsNumeric([c])
    ensures Classify([c]) == Num(DigitValue(c) as real)
  {
    assert [c][1..] == [] && [c][..0] == [];
    assert UnsignedNumeric([c]);
    assert Mantissa([c]) == DigitValue(c);
    assert FractionLength([c]) == 0;
  }

  /** A symbol that starts with neither a digit, a dot nor a minus sign stays a symbol. */
  lemma WordToken(s: string)
    requires s != [] && !IsDigit(s[0]) && s[0] != '.' && s[0] != '-'
    ensures Classify(s) == Reserved(s)
  {
  }

  lemma SplitToken(c: char)
    requires IsSplitLetter(c)
    ensures Classify([c]) == Reserved([c])
  {
    SplitLetterNotNumeric(c);
  }

  /** Plain content: `5` is the number 5, and content that is neither a formula nor a
      number is refused. */
  lemma ExamplePlain()
    ensures Tokens("5") == Ok([Num(5.0)])
    ensures Tokens("6") == Ok([Num(6.0)])
    ensures Tokens("abc") == Err(NotFormulaNorNumber)
  {
    DigitToken('5');
    DigitToken('6');
  }

  /** Text without spaces is left as it is. */
  lemma {:induction false} RemoveNoSpaces(s: string)
    requires NoSpace(s)
    ensures RemoveSpaces(s) == s
  {
    if s != [] {
      assert NoSpace(s[1..]) by {
        forall i | 0 <= i < |s[1..]| ensures s[1..][i] != ' ' {
          assert s[1..][i] == s[i + 1];
        }
      }
      RemoveNoSpaces(s[1..]);
      assert [s[0]] + s[1..] == s;
    }
  }

  lemma {:induction false} RemoveSpacesAppend(a: string, b: string)
    ensures RemoveSpaces(a + b) == RemoveSpaces(a) + RemoveSpaces(b)
  {
    if a == [] {
      assert a + b == b;
    } else {
      assert (a + b)[0] == a[0] && (a + b)[1..] == a[1..] + b;
      RemoveSpacesAppend(a[1..], b);
    }
  }

  /** A symbol that is neither a split letter, a number nor holds a space: a cell
      address, a range or a function name. */
  ghost predicate Word(s: string) {
    s != [] && NoSplitLetter(s) && NoSpace(s) && !IsDigit(s[0]) && s[0] != '.' && s[0] != '-'
  }

  lemma CallOfRangeSpaces(f: string, r: string)
    requires NoSpace(f) && NoSpace(r)
    ensures RemoveSpaces(f + ("(" + (r + ")"))) == f + ("(" + (r + ")"))
  {
    RemoveSpacesAppend(f, "(" + (r + ")"));
    RemoveSpacesAppend("(", r + ")");
    RemoveSpacesAppend(r, ")");
    RemoveNoSpaces(f);
    RemoveNoSpaces(r);
    assert RemoveSpaces("(") == "(" && RemoveSpaces(")") == ")";
  }

  lemma CallOfRangeSegments(f: string, r: string)
    requires Word(f) && Word(r)
    ensures Segments(f + ("(" + (r + ")"))) == [f, "(", r, ")"]
  {
    assert Segments(")") == [")"] by {
      SplitHead(')', "");
      assert ")" == [')'] + "";
    }
    RunHead(r, ")");
    SplitHead('(', r + ")");
    assert "(" + (r + ")") == ['('] + (r + ")");
    RunHead(f, "(" + (r + ")"));
  }

  /** `=NAME(RANGE)` */
  lemma CallOfRange(f: string, r: string)
    requires Word(f) && Word(r)
    ensures Tokens("=" + f + "(" + r + ")") == Ok([Reserved(f), Reserved("("), Reserved(r), Reserved(")")])
  {
    var str := "=" + f + "(" + r + ")";
    var t := f + ("(" + (r + ")"));
    assert str[1..] == t;
    CallOfRangeSpaces(f, r);
    CallOfRangeSegments(f, r);
    var segs := [f, "(", r, ")"];
    WordToken(f);
    WordToken(r);
    SplitToken('(');
    SplitToken(')');
    assert ClassifyAll(segs) == [Reserved(f), Reserved("("), Reserved(r), Reserved(")")];
  }

  /** `=SUM(A1:A3)`: a range is kept as one symbol, since `:` does not split. */
  lemma ExampleRange()
    ensures Tokens("=SUM(A1:A3)") == Ok([Reserved("SUM"), Reserved("("), Reserved("A1:A3"), Reserved(")")])
  {
    assert Word("SUM") && Word("A1:A3");
    CallOfRange("SUM", "A1:A3");
    assert "=" + "SUM" + "(" + "A1:A3" + ")" == "=SUM(A1:A3)";
  }

  /** A non-empty symbol free of spaces and split letters. */
  ghost predicate Run(s: string) {
    s != [] && NoSplitLetter(s) && NoSpace(s)
  }

  lemma BinarySpaces(a: string, op: char, b: string)
    requires Run(a) && Run(b) && IsSplitLetter(op)
    ensures RemoveSpaces(a + (" " + ([op] + (" " + b)))) == a + ([op] + b)
  {
    RemoveSpacesAppend(a, " " + ([op] + (" " + b)));
    RemoveSpacesAppend(" ", [op] + (" " + b));
    RemoveSpacesAppend([op], " " + b);
    RemoveSpacesAppend(" ", b);
    RemoveNoSpaces(a);
    RemoveNoSpaces(b);
    assert RemoveSpaces(" ") == "";
    assert [op][1..] == [];
    assert RemoveSpaces([op]) == [op];
  }

  lemma BinarySegments(a: string, op: char, b: string)
    requires Run(a) && Run(b) && IsSplitLetter(op)
    ensures Segments(a + ([op] + b)) == [a, [op], b]
  {
    SegmentsOfRun(b);
    SplitHead(op, b);
    RunHead(a, [op] + b);
  }

  /** `=a op b`, one space around the operator. */
  lemma BinaryFormula(a: string, op: char, b: string)
    requires Run(a) && Run(b) && IsSplitLetter(op)
    ensures Tokens("=" + a + " " + [op] + " " + b) == Ok([Classify(a), Reserved([op]), Classify(b)])
  {
    var str := "=" + a + " " + [op] + " " + b;
    assert str[1..] == a + (" " + ([op] + (" " + b)));
    BinarySpaces(a, op, b);
    BinarySegments(a, op, b);
    SplitToken(op);
    assert ClassifyAll([a, [op], b]) == [Classify(a), Reserved([op]), Classify(b)];
  }

  lemma NegatedSpaces(a: string, op: char, b: string)
    requires Run(a) && Run(b) && IsSplitLetter(op)
    ensures RemoveSpaces(['-'] + (a + (" " + ([op] + (" " + b))))) == ['-'] + (a + ([op] + b))
  {
    var spaced := a + (" " + ([op] + (" " + b)));
    RemoveSpacesAppend(['-'], spaced);
    assert RemoveSpaces(['-']) == ['-'];
    BinarySpaces(a, op, b);
  }

  lemma NegatedSegments(a: string, op: char, b: string)
    requires Run(a) && Run(b) && IsSplitLetter(op)
    ensures Segments(['-'] + (a + ([op] + b))) == ["-", a, [op], b]
  {
    BinarySegments(a, op, b);
    SplitHead('-', a + ([op] + b));
  }

  /** `=-a op b`: the leading minus sign is a symbol of its own. */
  lemma NegatedBinaryFormula(a: string, op: char, b: string)
    requires Run(a) && Run(b) && IsSplitLetter(op)
    ensures Tokens("=-" + a + " " + [op] + " " + b)
      == Ok([Reserved("-"), Classify(a), Reserved([op]), Classify(b)])
  {
    var str := "=-" + a + " " + [op] + " " + b;
    assert str[1..] == ['-'] + (a + (" " + ([op] + (" " + b))));
    NegatedSpaces(a, op, b);
    NegatedSegments(a, op, b);
    SplitToken('-');
    SplitToken(op);
    assert ClassifyAll(["-", a, [op], b]) == [Reserved("-"), Classify(a), Reserved([op]), Classify(b)];
  }

  lemma DigitRun(c: char)
    requires IsDigit(c)
    ensures Run([c]) && IsNumeric([c]) && Classify([c]) == Num(DigitValue(c) as real)
  {
    DigitToken(c);
  }

  /** `=1 + 2` */
  lemma ExampleOnePlusTwo()
    ensures Tokens("=1 + 2") == Ok([Num(1.0), Reserved("+"), Num(2.0)])
  {
    DigitRun('1');
    DigitRun('2');
    BinaryFormula("1", '+', "2");
    assert "=" + "1" + " " + ['+'] + " " + "2" == "=1 + 2";
  }

  /** `=-4 - 5`: the leading minus sign is a symbol of its own, not part of the number. */
  lemma ExampleNegativeMinus()
    ensures Tokens("=-4 - 5") == Ok([Reserved("-"), Num(4.0), Reserved("-"), Num(5.0)])
  {
    DigitRun('4');
    DigitRun('5');
    NegatedBinaryFormula("4", '-', "5");
    assert "=-" + "4" + " " + ['-'] + " " + "5" == "=-4 - 5";
  }

  /** `=B3 * 2` */
  lemma ExampleCellTimesTwo()
    ensures Tokens("=B3 * 2") == Ok([Reserved("B3"), Reserved("*"), Num(2.0)])
  {
    DigitRun('2');
    assert Run("B3");
    WordToken("B3");
    BinaryFormula("B3", '*', "2");
    assert "=" + "B3" + " " + ['*'] + " " + "2" == "=B3 * 2";
  }

  /** `=B4`: a lone cell address. */
  lemma ExampleCell()
    ensures Tokens("=B4") == Ok([Reserved("B4")])
  {
    assert "=B4"[1..] == "B4";
    assert RemoveSpaces("B4") == "B4";
    SegmentsOfRun("B4");
    WordToken("B4");
    assert ClassifyAll(["B4"]) == [Reserved("B4")];
  }

  // ---------------------------------------------------------------------------
  // Formulas with several operators or arguments, read one piece at a time
  // ---------------------------------------------------------------------------

  /** The tokens of the text after a formula's `=`. */
  function Body(t: string): seq<Token> {
    ClassifyAll(Segments(RemoveSpaces(t)))
  }

  lemma FormulaBody(t: string)
    ensures Tokens("=" + t) == Ok(Body(t))
  {
    assert ("=" + t)[0] == '=' && ("=" + t)[1..] == t;
  }

  lemma BodySpace(rest: string)
    ensures Body(" " + rest) == Body(rest)
  {
    assert (" " + rest)[0] == ' ' && (" " + rest)[1..] == rest;
  }

  lemma BodyRun(a: string)
    requires Run(a)
    ensures Body(a) == [Classify(a)]
  {
    RemoveNoSpaces(a);
    SegmentsOfRun(a);
  }

  lemma BodySplit(c: char, rest: string)
    requires IsSplitLetter(c)
    ensures Body([c] + rest) == [Reserved([c])] + Body(rest)
  {
    assert ([c] + rest)[0] == c && ([c] + rest)[1..] == rest;
    assert RemoveSpaces([c] + rest) == [c] + RemoveSpaces(rest);
    SplitHead(c, RemoveSpaces(rest));
    SplitToken(c);
    ClassifyAllAppend([[c]], Segments(RemoveSpaces(rest)));
  }

  /** A run directly followed by a split letter. */
  lemma BodyRunSplit(a: string, c: char, rest: string)
    requires Run(a) && IsSplitLetter(c)
    ensures Body(a + ([c] + rest)) == [Classify(a), Reserved([c])] + Body(rest)
  {
    RemoveSpacesAppend(a, [c] + rest);
    RemoveNoSpaces(a);
    assert ([c] + rest)[0] == c && ([c] + rest)[1..] == rest;
    assert RemoveSpaces([c] + rest) == [c] + RemoveSpaces(rest);
    RunHead(a, [c] + RemoveSpaces(rest));
    SplitHead(c, RemoveSpaces(rest));
    SplitToken(c);
    ClassifyAllAppend([a, [c]], Segments(RemoveSpaces(rest)));
  }

  /** A run, a space, then a split letter: the space is dropped before the cut. */
  lemma BodyRunSpaceSplit(a: string, c: char, rest: string)
    requires Run(a) && IsSplitLetter(c)
    ensures Body(a + (" " + ([c] + rest))) == [Classify(a), Reserved([c])] + Body(rest)
  {
    RemoveSpacesAppend(a, " " + ([c] + rest));
    RemoveSpacesAppend(a, [c] + rest);
    assert (" " + ([c] + rest))[0] == ' ' && (" " + ([c] + rest))[1..] == [c] + rest;
    BodyRunSplit(a, c, rest);
  }

  /** The formulas of the cases below, spelled out as the pieces the shape lemmas take. */
  lemma CaseTexts()
    ensures "=(" + "B1" + " + " + "B2" + ") * " + "B3" == "=(B1 + B2) * B3"
    ensures "=(" + "3" + " + " + "4" + ") * " + "5" == "=(3 + 4) * 5"
    ensures "=" + "3" + " " + ['/'] + " " + "5" + " " + ['*'] + " " + "10" == "=3 / 5 * 10"
    ensures "=" + "ROUND" + "(" + "123.456" + ", " + "0" + ")" == "=ROUND(123.456, 0)"
    ensures "=" + "SUM" + "(" + "1" + ", " + "5" + ", " + "8" + ")" == "=SUM(1, 5, 8)"
    ensures "=" + "SUM" + "(" + "1" + ", " + "SUM" + "(" + "3" + ", " + "4" + "))" == "=SUM(1, SUM(3, 4))"
  {
  }

  lemma SumTimesText(a: string, b: string, c: string)
    ensures "=(" + a + " + " + b + ") * " + c
      == "=" + (['('] + (a + (" " + (['+'] + (" " + (b + ([')'] + (" " + (['*'] + (" " + c))))))))))
  {
  }

  lemma SumTimesBody(a: string, b: string, c: string, ta: Token, tb: Token, tc: Token)
    requires Run(a) && Run(b) && Run(c)
    requires Classify(a) == ta && Classify(b) == tb && Classify(c) == tc
    ensures Body(['('] + (a + (" " + (['+'] + (" " + (b + ([')'] + (" " + (['*'] + (" " + c))))))))))
      == [Reserved("(")] + ([ta, Reserved("+")] + ([tb, Reserved(")")] + ([Reserved("*")] + [tc])))
  {
    var t3 := " " + (['*'] + (" " + c));
    BodyRun(c);
    BodySpace(c);
    BodySplit('*', " " + c);
    BodySpace(['*'] + (" " + c));
    BodyRunSplit(b, ')', t3);
    BodySpace(b + ([')'] + t3));
    BodyRunSpaceSplit(a, '+', " " + (b + ([')'] + t3)));
    BodySplit('(', a + (" " + (['+'] + (" " + (b + ([')'] + t3))))));
  }

  lemma SumTimesTokens(ta: Token, tb: Token, tc: Token)
    ensures [Reserved("(")] + ([ta, Reserved("+")] + ([tb, Reserved(")")] + ([Reserved("*")] + [tc])))
      == [Reserved("("), ta, Reserved("+"), tb, Reserved(")"), Reserved("*"), tc]
  {
  }

  /** `=(a + b) * c`: the brackets and operators are symbols of their own. */
  lemma SumTimes(a: string, b: string, c: string, ta: Token, tb: Token, tc: Token)
    requires Run(a) && Run(b) && Run(c)
    requires Classify(a) == ta && Classify(b) == tb && Classify(c) == tc
    ensures Tokens("=(" + a + " + " + b + ") * " + c)
      == Ok([Reserved("("), ta, Reserved("+"), tb, Reserved(")"), Reserved("*"), tc])
  {
    SumTimesText(a, b, c);
    FormulaBody(['('] + (a + (" " + (['+'] + (" " + (b + ([')'] + (" " + (['*'] + (" " + c))))))))));
    SumTimesBody(a, b, c, ta, tb, tc);
    SumTimesTokens(ta, tb, tc);
  }

  /** `=(B1 + B2) * B3` */
  lemma ExampleCellSum()
    ensures Tokens("=(B1 + B2) * B3")
      == Ok([Reserved("("), Reserved("B1"), Reserved("+"), Reserved("B2"), Reserved(")"), Reserved("*"), Reserved("B3")])
  {
    assert Run("B1") && Run("B2") && Run("B3");
    WordToken("B1");
    WordToken("B2");
    WordToken("B3");
    SumTimes("B1", "B2", "B3", Reserved("B1"), Reserved("B2"), Reserved("B3"));
    CaseTexts();
  }

  /** `=(3 + 4) * 5` */
  lemma ExampleGroupTimes()
    ensures Tokens("=(3 + 4) * 5")
      == Ok([Reserved("("), Num(3.0), Reserved("+"), Num(4.0), Reserved(")"), Reserved("*"), Num(5.0)])
  {
    DigitRun('3');
    DigitRun('4');
    DigitRun('5');
    SumTimes("3", "4", "5", Num(3.0), Num(4.0), Num(5.0));
    CaseTexts();
  }

  lemma ChainText(a: string, op: char, b: string, op2: char, c: string)
    ensures "=" + a + " " + [op] + " " + b + " " + [op2] + " " + c
      == "=" + (a + (" " + ([op] + (" " + (b + (" " + ([op2] + (" " + c))))))))
  {
  }

  lemma ChainBody(a: string, op: char, b: string, op2: char, c: string, ta: Token, tb: Token, tc: Token)
    requires Run(a) && Run(b) && Run(c) && IsSplitLetter(op) && IsSplitLetter(op2)
    requires Classify(a) == ta && Classify(b) == tb && Classify(c) == tc
    ensures Body(a + (" " + ([op] + (" " + (b + (" " + ([op2] + (" " + c))))))))
      == [ta, Reserved([op])] + ([tb, Reserved([op2])] + [tc])
  {
    BodyRun(c);
    BodySpace(c);
    BodyRunSpaceSplit(b, op2, " " + c);
    BodySpace(b + (" " + ([op2] + (" " + c))));
    BodyRunSpaceSplit(a, op, " " + (b + (" " + ([op2] + (" " + c)))));
  }

  lemma ChainTokens(ta: Token, op: char, tb: Token, op2: char, tc: Token)
    ensures [ta, Reserved([op])] + ([tb, Reserved([op2])] + [tc])
      == [ta, Reserved([op]), tb, Reserved([op2]), tc]
  {
  }

  /** `=a op b op2 c`, one space around each operator: no precedence is seen yet. */
  lemma ChainFormula(a: string, op: char, b: string, op2: char, c: string, ta: Token, tb: Token, tc: Token)
    requires Run(a) && Run(b) && Run(c) && IsSplitLetter(op) && IsSplitLetter(op2)
    requires Classify(a) == ta && Classify(b) == tb && Classify(c) == tc
    ensures Tokens("=" + a + " " + [op] + " " + b + " " + [op2] + " " + c)
      == Ok([ta, Reserved([op]), tb, Reserved([op2]), tc])
  {
    ChainText(a, op, b, op2, c);
    FormulaBody(a + (" " + ([op] + (" " + (b + (" " + ([op2] + (" " + c))))))));
    ChainBody(a, op, b, op2, c, ta, tb, tc);
    ChainTokens(ta, op, tb, op2, tc);
  }

  /** `=3 / 5 * 10` */
  lemma ExampleDivideTimes()
    ensures Tokens("=3 / 5 * 10") == Ok([Num(3.0), Reserved("/"), Num(5.0), Reserved("*"), Num(10.0)])
  {
    DigitRun('3');
    DigitRun('5');
    NumberValueOfCases();
    assert Run("10");
    ChainFormula("3", '/', "5", '*', "10", Num(3.0), Num(5.0), Num(10.0));
    CaseTexts();
  }

  lemma CallOfTwoText(f: string, a: string, b: string)
    ensures "=" + f + "(" + a + ", " + b + ")"
      == "=" + (f + (['('] + (a + ([','] + (" " + (b + ([')'] + "")))))))
  {
  }

  lemma CallOfTwoBody(f: string, a: string, b: string, tf: Token, ta: Token, tb: Token)
    requires Run(f) && Run(a) && Run(b)
    requires Classify(f) == tf && Classify(a) == ta && Classify(b) == tb
    ensures Body(f + (['('] + (a + ([','] + (" " + (b + ([')'] + "")))))))
      == [tf, Reserved("(")] + ([ta, Reserved(",")] + ([tb, Reserved(")")] + []))
  {
    assert Body("") == [];
    BodyRunSplit(b, ')', "");
    BodySpace(b + ([')'] + ""));
    BodyRunSplit(a, ',', " " + (b + ([')'] + "")));
    BodyRunSplit(f, '(', a + ([','] + (" " + (b + ([')'] + "")))));
  }

  lemma CallOfTwoTokens(tf: Token, ta: Token, tb: Token)
    ensures [tf, Reserved("(")] + ([ta, Reserved(",")] + ([tb, Reserved(")")] + []))
      == [tf, Reserved("("), ta, Reserved(","), tb, Reserved(")")]
  {
  }

  /** `=f(a, b)`: a call of two arguments. */
  lemma CallOfTwo(f: string, a: string, b: string, tf: Token, ta: Token, tb: Token)
    requires Run(f) && Run(a) && Run(b)
    requires Classify(f) == tf && Classify(a) == ta && Classify(b) == tb
    ensures Tokens("=" + f + "(" + a + ", " + b + ")")
      == Ok([tf, Reserved("("), ta, Reserved(","), tb, Reserved(")")])
  {
    CallOfTwoText(f, a, b);
    FormulaBody(f + (['('] + (a + ([','] + (" " + (b + ([')'] + "")))))));
    CallOfTwoBody(f, a, b, tf, ta, tb);
    CallOfTwoTokens(tf, ta, tb);
  }

  /** `=ROUND(123.456, 0)`: a number with a fraction stays one token. */
  lemma ExampleRound()
    ensures Tokens("=ROUND(123.456, 0)")
      == Ok([Reserved("ROUND"), Reserved("("), Num(123.456), Reserved(","), Num(0.0), Reserved(")")])
  {
    assert Run("ROUND") && Run("123.456");
    WordToken("ROUND");
    NumberValueOfCases();
    DigitRun('0');
    CallOfTwo("ROUND", "123.456", "0", Reserved("ROUND"), Num(123.456), Num(0.0));
    CaseTexts();
  }

  lemma CallOfThreeText(f: string, a: string, b: string, c: string)
    ensures "=" + f + "(" + a + ", " + b + ", " + c + ")"
      == "=" + (f + (['('] + (a + ([','] + (" " + (b + ([','] + (" " + (c + ([')'] + ""))))))))))
  {
  }

  lemma CallOfThreeBody(f: string, a: string, b: string, c: string, tf: Token, ta: Token, tb: Token, tc: Token)
    requires Run(f) && Run(a) && Run(b) && Run(c)
    requires Classify(f) == tf && Classify(a) == ta && Classify(b) == tb && Classify(c) == tc
    ensures Body(f + (['('] + (a + ([','] + (" " + (b + ([','] + (" " + (c + ([')'] + ""))))))))))
      == [tf, Reserved("(")] + ([ta, Reserved(",")] + ([tb, Reserved(",")] + ([tc, Reserved(")")] + [])))
  {
    var t2 := " " + (c + ([')'] + ""));
    assert Body("") == [];
    BodyRunSplit(c, ')', "");
    BodySpace(c + ([')'] + ""));
    BodyRunSplit(b, ',', t2);
    BodySpace(b + ([','] + t2));
    BodyRunSplit(a, ',', " " + (b + ([','] + t2)));
    BodyRunSplit(f, '(', a + ([','] + (" " + (b + ([','] + t2)))));
  }

  lemma CallOfThreeTokens(tf: Token, ta: Token, tb: Token, tc: Token)
    ensures [tf, Reserved("(")] + ([ta, Reserved(",")] + ([tb, Reserved(",")] + ([tc, Reserved(")")] + [])))
      == [tf, Reserved("("), ta, Reserved(","), tb, Reserved(","), tc, Reserved(")")]
  {
  }

  /** `=f(a, b, c)`: a call of three arguments. */
  lemma CallOfThree(f: string, a: string, b: string, c: string, tf: Token, ta: Token, tb: Token, tc: Token)
    requires Run(f) && Run(a) && Run(b) && Run(c)
    requires Classify(f) == tf && Classify(a) == ta && Classify(b) == tb && Classify(c) == tc
    ensures Tokens("=" + f + "(" + a + ", " + b + ", " + c + ")")
      == Ok([tf, Reserved("("), ta, Reserved(","), tb, Reserved(","), tc, Reserved(")")])
  {
    CallOfThreeText(f, a, b, c);
    FormulaBody(f + (['('] + (a + ([','] + (" " + (b + ([','] + (" " + (c + ([')'] + ""))))))))));
    CallOfThreeBody(f, a, b, c, tf, ta, tb, tc);
    CallOfThreeTokens(tf, ta, tb, tc);
  }

  /** `=SUM(1, 5, 8)` */
  lemma ExampleSumOfThree()
    ensures Tokens("=SUM(1, 5, 8)")
      == Ok([Reserved("SUM"), Reserved("("), Num(1.0), Reserved(","), Num(5.0), Reserved(","), Num(8.0), Reserved(")")])
  {
    assert Run("SUM");
    WordToken("SUM");
    DigitRun('1');
    DigitRun('5');
    DigitRun('8');
    CallOfThree("SUM", "1", "5", "8", Reserved("SUM"), Num(1.0), Num(5.0), Num(8.0));
    CaseTexts();
  }

  lemma NestedCallText(f: string, a: string, g: string, b: string, c: string)
    ensures "=" + f + "(" + a + ", " + g + "(" + b + ", " + c + "))"
      == "=" + (f + (['('] + (a + ([','] + (" " + (g + (['('] + (b + ([','] + (" " + (c + ([')'] + ")"))))))))))))
  {
  }

  lemma NestedCallBody(f: string, a: string, g: string, b: string, c: string,
                       tf: Token, ta: Token, tg: Token, tb: Token, tc: Token)
    requires Run(f) && Run(a) && Run(g) && Run(b) && Run(c)
    requires Classify(f) == tf && Classify(a) == ta && Classify(g) == tg && Classify(b) == tb && Classify(c) == tc
    ensures Body(f + (['('] + (a + ([','] + (" " + (g + (['('] + (b + ([','] + (" " + (c + ([')'] + ")"))))))))))))
      == [tf, Reserved("(")] + ([ta, Reserved(",")] + ([tg, Reserved("(")] + ([tb, Reserved(",")] + ([tc, Reserved(")")] + [Reserved(")")]))))
  {
    var t4 := c + ([')'] + ")");
    var t2 := b + ([','] + (" " + t4));
    var t1 := g + (['('] + t2);
    assert Body("") == [];
    BodySplit(')', "");
    assert [')'] + "" == ")";
    BodyRunSplit(c, ')', ")");
    BodySpace(t4);
    BodyRunSplit(b, ',', " " + t4);
    BodyRunSplit(g, '(', t2);
    BodySpace(t1);
    BodyRunSplit(a, ',', " " + t1);
    BodyRunSplit(f, '(', a + ([','] + (" " + t1)));
  }

  lemma NestedCallTokens(tf: Token, ta: Token, tg: Token, tb: Token, tc: Token)
    ensures [tf, Reserved("(")] + ([ta, Reserved(",")] + ([tg, Reserved("(")] + ([tb, Reserved(",")] + ([tc, Reserved(")")] + [Reserved(")")]))))
      == [tf, Reserved("("), ta, Reserved(","), tg, Reserved("("), tb, Reserved(","), tc, Reserved(")"), Reserved(")")]
  {
  }

  /** `=f(a, g(b, c))`: a call nested as the last argument of another. */
  lemma NestedCall(f: string, a: string, g: string, b: string, c: string,
                   tf: Token, ta: Token, tg: Token, tb: Token, tc: Token)
    requires Run(f) && Run(a) && Run(g) && Run(b) && Run(c)
    requires Classify(f) == tf && Classify(a) == ta && Classify(g) == tg && Classify(b) == tb && Classify(c) == tc
    ensures Tokens("=" + f + "(" + a + ", " + g + "(" + b + ", " + c + "))")
      == Ok([tf, Reserved("("), ta, Reserved(","), tg, Reserved("("), tb, Reserved(","), tc, Reserved(")"), Reserved(")")])
  {
    NestedCallText(f, a, g, b, c);
    FormulaBody(f + (['('] + (a + ([','] + (" " + (g + (['('] + (b + ([','] + (" " + (c + ([')'] + ")"))))))))))));
    NestedCallBody(f, a, g, b, c, tf, ta, tg, tb, tc);
    NestedCallTokens(tf, ta, tg, tb, tc);
  }

  /** `=SUM(1, SUM(3, 4))` */
  lemma ExampleNestedSum()
    ensures Tokens("=SUM(1, SUM(3, 4))")
      == Ok([Reserved("SUM"), Reserved("("), Num(1.0), Reserved(","), Reserved("SUM"), Reserved("("), Num(3.0),
             Reserved(","), Num(4.0), Reserved(")"), Reserved(")")])
  {
    assert Run("SUM");
    WordToken("SUM");
    DigitRun('1');
    DigitRun('3');
    DigitRun('4');
    NestedCall("SUM", "1", "SUM", "3", "4", Reserved("SUM"), Num(1.0), Reserved("SUM"), Num(3.0), Num(4.0));
    CaseTexts();
  }
}
