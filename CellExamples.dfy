/** Cell references: a symbol that is not an operator, a parenthesis or a function name
    is read as the address of another cell, whose content is tokenized and parsed in its
    place. With the two cell cases of src/features/Excel/utils/parser.test.ts. */
module CellExamples {
  import opened Wrappers
  import opened Utils
  import opened Tokenizer
  import opened SyntaxTree
  import opened Grammar
  import opened EvalProperties
  import opened TokenizerExamples
  import opened ParserExamples

  /** A parsed subtree, placed before position `next`. */
  function At(r: Result<SyntaxTreeNode>, next: nat): Result<Parsed<SyntaxTreeNode>> {
    match r
    case Ok(t) => Ok(Parsed(t, next))
    case Err(e) => Err(e)
  }

  /** `primary()` falls through to `cell()` on any other symbol: the factor is the parse
      of the named cell's content, tagged with its address, and without fuel left it is
      the depth error. */
  lemma CellReference(g: string -> string, fuel: nat, toks: seq<Token>, pos: nat)
    requires pos < |toks| && toks[pos].Reserved?
    requires toks[pos].expr != "-" && toks[pos].expr != "(" && FuncNameOf(toks[pos].expr).None?
    ensures fuel == 0 ==> ParseUnary(g, fuel, toks, pos) == Err(DepthExceeded)
    ensures fuel > 0 ==> ParseUnary(g, fuel, toks, pos) == At(ParseCellContent(g, fuel - 1, toks[pos].expr), pos + 1)
  {
    assert !IsNumberAt(toks, pos) && !IsReservedAt(toks, pos, "-") && !IsReservedAt(toks, pos, "(");
    assert FuncNameAt(toks, pos).None?;
    assert ParseUnary(g, fuel, toks, pos) == ParseCell(g, fuel, toks, pos);
  }

  /** Plain numeric content read as a cell: the number, tagged with the address. */
  lemma NumberCell(g: string -> string, fuel: nat, address: string, v: real)
    requires Tokens(g(address)) == Ok([Num(v)])
    ensures ParseCellContent(g, fuel, address) == Ok(L(v).SetAddress(address))
  {
    NumberTerm(g, fuel, [Num(v)], 0);
  }

  // ---------------------------------------------------------------------------
  // `=B4`, where B4 holds `=B3 * 2` and B3 holds `6`: 12
  // ---------------------------------------------------------------------------

  function NestedSheet(address: string): string {
    if address == "B4" then "=B3 * 2"
    else if address == "B3" then "6"
    else ""
  }

  /** The tree of B4: `6 * 2` with the 6 tagged `B3`, the whole tagged `B4`. */
  function NestedTree(): SyntaxTreeNode {
    Binary(MUL, L(6.0).SetAddress("B3"), L(2.0)).SetAddress("B4")
  }

  /** A cell whose tokens parse, from the first, to `t`: its content is `t` tagged with
      the cell's address. */
  lemma ContentOf(g: string -> string, fuel: nat, address: string, toks: seq<Token>, t: SyntaxTreeNode, k: nat)
    requires Tokens(g(address)) == Ok(toks)
    requires ParseAdd(g, fuel, toks, 0) == Ok(Parsed(t, k))
    ensures ParseCellContent(g, fuel, address) == Ok(t.SetAddress(address))
  {
  }

  /** `a * w`, where cell `a` holds the number `v`. */
  lemma CellTimes(g: string -> string, fuel: nat, a: string, v: real, w: real)
    requires fuel >= 1
    requires a != "-" && a != "(" && FuncNameOf(a).None?
    requires ParseCellContent(g, fuel - 1, a) == Ok(L(v).SetAddress(a))
    ensures ParseAdd(g, fuel, [Reserved(a), Reserved("*"), Num(w)], 0)
      == Ok(Parsed(Binary(MUL, L(v).SetAddress(a), L(w)), 3))
  {
    var sub := [Reserved(a), Reserved("*"), Num(w)];
    CellReference(g, fuel, sub, 0);
    NumberFactor(g, fuel, sub, 2);
    ProductOfFactors(g, fuel, sub, 0, L(v).SetAddress(a), 1, L(w), 3);
  }

  /** A cell whose content is `a * w`, where cell `a` holds the number `v`. */
  lemma CellTimesNumber(g: string -> string, fuel: nat, address: string, a: string, v: real, w: real)
    requires fuel >= 1
    requires a != "-" && a != "(" && FuncNameOf(a).None?
    requires Tokens(g(address)) == Ok([Reserved(a), Reserved("*"), Num(w)])
    requires Tokens(g(a)) == Ok([Num(v)])
    ensures ParseCellContent(g, fuel, address) == Ok(Binary(MUL, L(v).SetAddress(a), L(w)).SetAddress(address))
  {
    NumberCell(g, fuel - 1, a, v);
    CellTimes(g, fuel, a, v, w);
    ContentOf(g, fuel, address, [Reserved(a), Reserved("*"), Num(w)], Binary(MUL, L(v).SetAddress(a), L(w)), 3);
  }

  /** B4's content, `=B3 * 2`, read as a cell with at least one expansion left. */
  lemma NestedContent(fuel: nat)
    requires fuel >= 1
    ensures ParseCellContent(NestedSheet, fuel, "B4") == Ok(NestedTree())
  {
    assert NestedSheet("B4") == "=B3 * 2" && NestedSheet("B3") == "6";
    ExampleCellTimesTwo();
    ExamplePlain();
    CellTimesNumber(NestedSheet, fuel, "B4", "B3", 6.0, 2.0);
  }

  lemma NestedParse(fuel: nat)
    requires fuel >= 2
    ensures ParseRoot(NestedSheet, fuel, "", Tokens("=B4").value, 0) == Ok(NestedTree().SetAddress(""))
  {
    ExampleCell();
    NestedContent(fuel - 1);
    var toks := [Reserved("B4")];
    CellReference(NestedSheet, fuel, toks, 0);
    WholeOperand(NestedSheet, fuel, toks, 0, NestedTree(), 1);
  }

  lemma NestedValue()
    ensures Eval(NestedTree()) == Ok(12.0)
  {
    var six := L(6.0).SetAddress("B3");
    EvalIgnoresAddress(Binary(MUL, six, L(2.0)), "B4");
    EvalIgnoresAddress(L(6.0), "B3");
    LiteralMeaning(L(6.0));
    LiteralMeaning(L(2.0));
    BinaryMeaning(MUL, six, L(2.0));
  }

  /** `=B4` evaluates to 12 once two nested expansions are allowed. */
  lemma ExampleNestedCells(fuel: nat)
    requires fuel >= 2
    ensures Tokens("=B4").Ok?
    ensures var r := ParseRoot(NestedSheet, fuel, "", Tokens("=B4").value, 0);
      r.Ok? && Eval(r.value) == Ok(12.0)
  {
    ExampleCell();
    NestedParse(fuel);
    EvalIgnoresAddress(NestedTree(), "");
    NestedValue();
  }

  // ---------------------------------------------------------------------------
  // `=(B1 + B2) * B3`, where B1 holds `5`, B2 holds `6` and B3 holds `=1 + 2`: 33
  // ---------------------------------------------------------------------------

  function SharedSheet(address: string): string {
    if address == "B1" then "5"
    else if address == "B2" then "6"
    else if address == "B3" then "=1 + 2"
    else ""
  }

  function SharedSum(): SyntaxTreeNode {
    Binary(ADD, L(5.0).SetAddress("B1"), L(6.0).SetAddress("B2"))
  }

  function SharedTree(): SyntaxTreeNode {
    Binary(MUL, SharedSum(), Binary(ADD, L(1.0), L(2.0)).SetAddress("B3"))
  }

  /** `(x + y) * z`, given how each of the three operands parses. */
  lemma ParenSumTimes(g: string -> string, fuel: nat, toks: seq<Token>,
                      ta: SyntaxTreeNode, tb: SyntaxTreeNode, tc: SyntaxTreeNode)
    requires |toks| == 7 && toks[0] == Reserved("(") && toks[2] == Reserved("+")
    requires toks[4] == Reserved(")") && toks[5] == Reserved("*")
    requires ParseUnary(g, fuel, toks, 1) == Ok(Parsed(ta, 2))
    requires ParseUnary(g, fuel, toks, 3) == Ok(Parsed(tb, 4))
    requires ParseUnary(g, fuel, toks, 6) == Ok(Parsed(tc, 7))
    ensures ParseAdd(g, fuel, toks, 0) == Ok(Parsed(Binary(MUL, Binary(ADD, ta, tb), tc), 7))
  {
    var sum := Binary(ADD, ta, tb);
    SumOfFactors(g, fuel, toks, 1, ta, 2, tb, 4);
    assert ParseUnary(g, fuel, toks, 0) == Ok(Parsed(sum, 5)) by {
      assert ParsePrimary(g, fuel, toks, 0) == Ok(Parsed(sum, 5));
    }
    ProductOfFactors(g, fuel, toks, 0, sum, 5, tc, 7);
  }

  /** `(a + b) * c` over three cell references parses to the cells' own trees. */
  lemma ParenSumTimesCells(g: string -> string, fuel: nat, a: string, b: string, c: string,
                           ta: SyntaxTreeNode, tb: SyntaxTreeNode, tc: SyntaxTreeNode)
    requires fuel >= 1
    requires a != "-" && a != "(" && FuncNameOf(a).None?
    requires b != "-" && b != "(" && FuncNameOf(b).None?
    requires c != "-" && c != "(" && FuncNameOf(c).None?
    requires ParseCellContent(g, fuel - 1, a) == Ok(ta)
    requires ParseCellContent(g, fuel - 1, b) == Ok(tb)
    requires ParseCellContent(g, fuel - 1, c) == Ok(tc)
    ensures ParseAdd(g, fuel,
      [Reserved("("), Reserved(a), Reserved("+"), Reserved(b), Reserved(")"), Reserved("*"), Reserved(c)], 0)
      == Ok(Parsed(Binary(MUL, Binary(ADD, ta, tb), tc), 7))
  {
    var toks := [Reserved("("), Reserved(a), Reserved("+"), Reserved(b), Reserved(")"), Reserved("*"), Reserved(c)];
    CellReference(g, fuel, toks, 1);
    CellReference(g, fuel, toks, 3);
    CellReference(g, fuel, toks, 6);
    ParenSumTimes(g, fuel, toks, ta, tb, tc);
  }

  lemma SharedContents(fuel: nat)
    ensures ParseCellContent(SharedSheet, fuel, "B1") == Ok(L(5.0).SetAddress("B1"))
    ensures ParseCellContent(SharedSheet, fuel, "B2") == Ok(L(6.0).SetAddress("B2"))
    ensures ParseCellContent(SharedSheet, fuel, "B3") == Ok(Binary(ADD, L(1.0), L(2.0)).SetAddress("B3"))
  {
    assert SharedSheet("B1") == "5" && SharedSheet("B2") == "6" && SharedSheet("B3") == "=1 + 2";
    TokenizerExamples.ExamplePlain();
    TokenizerExamples.ExampleOnePlusTwo();
    NumberCell(SharedSheet, fuel, "B1", 5.0);
    NumberCell(SharedSheet, fuel, "B2", 6.0);
    ParserExamples.ExampleOnePlusTwo(SharedSheet, fuel);
  }

  /** The tokens of `=(B1 + B2) * B3`. */
  function SharedTokens(): seq<Token> {
    [Reserved("("), Reserved("B1"), Reserved("+"), Reserved("B2"), Reserved(")"), Reserved("*"), Reserved("B3")]
  }

  lemma SharedParse(fuel: nat)
    requires fuel >= 1
    ensures ParseRoot(SharedSheet, fuel, "", SharedTokens(), 0) == Ok(SharedTree().SetAddress(""))
  {
    SharedContents(fuel - 1);
    assert FuncNameOf("B1").None? && FuncNameOf("B2").None? && FuncNameOf("B3").None?;
    ParenSumTimesCells(SharedSheet, fuel, "B1", "B2", "B3",
      L(5.0).SetAddress("B1"), L(6.0).SetAddress("B2"), Binary(ADD, L(1.0), L(2.0)).SetAddress("B3"));
  }

  lemma SharedValue()
    ensures Eval(SharedTree()) == Ok(33.0)
  {
    var b1 := L(5.0).SetAddress("B1");
    var b2 := L(6.0).SetAddress("B2");
    var onePlusTwo := Binary(ADD, L(1.0), L(2.0));
    EvalIgnoresAddress(L(5.0), "B1");
    EvalIgnoresAddress(L(6.0), "B2");
    EvalIgnoresAddress(onePlusTwo, "B3");
    LiteralMeaning(L(5.0));
    LiteralMeaning(L(6.0));
    LiteralMeaning(L(1.0));
    LiteralMeaning(L(2.0));
    BinaryMeaning(ADD, b1, b2);
    BinaryMeaning(ADD, L(1.0), L(2.0));
    BinaryMeaning(MUL, SharedSum(), onePlusTwo.SetAddress("B3"));
  }

  /** `=(B1 + B2) * B3` evaluates to 33 with one level of expansion allowed. */
  lemma ExampleSharedCells(fuel: nat)
    requires fuel >= 1
    ensures Tokens("=(B1 + B2) * B3").Ok?
    ensures var r := ParseRoot(SharedSheet, fuel, "", Tokens("=(B1 + B2) * B3").value, 0);
      r.Ok? && Eval(r.value) == Ok(33.0)
  {
    TokenizerExamples.ExampleCellSum();
    assert Tokens("=(B1 + B2) * B3").value == SharedTokens();
    SharedParse(fuel);
    EvalIgnoresAddress(SharedTree(), "");
    SharedValue();
  }
}
