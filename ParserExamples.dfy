/** The parser's associativity and precedence, and the worked examples of
    src/features/Excel/utils/parser.test.ts, on the grammar functions. */
module ParserExamples {
  import opened Wrappers
  import opened Utils
  import opened Tokenizer
  import opened SyntaxTree
  import opened Grammar
  import opened EvalProperties

  function L(v: real): SyntaxTreeNode {
    Literal(v, None)
  }

  // ---------------------------------------------------------------------------
  // Building blocks
  // ---------------------------------------------------------------------------

  /** A number that no `*` or `/` follows is a whole operand of `+` and `-`. */
  lemma NumberOperand(g: string -> string, fuel: nat, toks: seq<Token>, pos: nat)
    requires IsNumberAt(toks, pos)
    requires !IsReservedAt(toks, pos + 1, "*") && !IsReservedAt(toks, pos + 1, "/")
    ensures ParseUnary(g, fuel, toks, pos) == Ok(Parsed(L(toks[pos].value), pos + 1))
    ensures ParseMul(g, fuel, toks, pos) == Ok(Parsed(L(toks[pos].value), pos + 1))
  {
    assert ParsePrimary(g, fuel, toks, pos) == Ok(Parsed(L(toks[pos].value), pos + 1));
    assert ParseMulTail(g, fuel, toks, L(toks[pos].value), pos + 1) == Ok(Parsed(L(toks[pos].value), pos + 1));
  }

  /** A factor that is a number. */
  lemma NumberFactor(g: string -> string, fuel: nat, toks: seq<Token>, pos: nat)
    requires IsNumberAt(toks, pos)
    ensures ParseUnary(g, fuel, toks, pos) == Ok(Parsed(L(toks[pos].value), pos + 1))
  {
    assert ParsePrimary(g, fuel, toks, pos) == Ok(Parsed(L(toks[pos].value), pos + 1));
  }

  function AdditiveKind(op: string): NodeType {
    if op == "+" then ADD else SUB
  }

  function MultiplicativeKind(op: string): NodeType {
    if op == "*" then MUL else DIV
  }

  // ---------------------------------------------------------------------------
  // Associativity and precedence, for all numbers and operators
  // ---------------------------------------------------------------------------

  /** `a op1 b op2 c` with additive operators folds to the left:
      `(a op1 b) op2 c`, so `a - b - c` is `SUB(SUB(a, b), c)`. */
  lemma AdditiveLeftAssociative(g: string -> string, fuel: nat, a: real, b: real, c: real, op1: string, op2: string)
    requires op1 == "+" || op1 == "-"
    requires op2 == "+" || op2 == "-"
    ensures ParseAdd(g, fuel, [Num(a), Reserved(op1), Num(b), Reserved(op2), Num(c)], 0)
      == Ok(Parsed(Binary(AdditiveKind(op2), Binary(AdditiveKind(op1), L(a), L(b)), L(c)), 5))
  {
    var toks := [Num(a), Reserved(op1), Num(b), Reserved(op2), Num(c)];
    var ab := Binary(AdditiveKind(op1), L(a), L(b));
    var abc := Binary(AdditiveKind(op2), ab, L(c));
    NumberOperand(g, fuel, toks, 0);
    NumberOperand(g, fuel, toks, 2);
    NumberOperand(g, fuel, toks, 4);
    assert ParseAddTail(g, fuel, toks, abc, 5) == Ok(Parsed(abc, 5));
    assert ParseAddTail(g, fuel, toks, ab, 3) == Ok(Parsed(abc, 5));
    assert ParseAddTail(g, fuel, toks, L(a), 1) == Ok(Parsed(abc, 5));
  }

  /** `a op1 b op2 c` with multiplicative operators folds to the left too. */
  lemma MultiplicativeLeftAssociative(g: string -> string, fuel: nat, a: real, b: real, c: real, op1: string, op2: string)
    requires op1 == "*" || op1 == "/"
    requires op2 == "*" || op2 == "/"
    ensures ParseAdd(g, fuel, [Num(a), Reserved(op1), Num(b), Reserved(op2), Num(c)], 0)
      == Ok(Parsed(Binary(MultiplicativeKind(op2), Binary(MultiplicativeKind(op1), L(a), L(b)), L(c)), 5))
  {
    var toks := [Num(a), Reserved(op1), Num(b), Reserved(op2), Num(c)];
    var ab := Binary(MultiplicativeKind(op1), L(a), L(b));
    var abc := Binary(MultiplicativeKind(op2), ab, L(c));
    NumberFactor(g, fuel, toks, 0);
    NumberFactor(g, fuel, toks, 2);
    NumberFactor(g, fuel, toks, 4);
    assert ParseMulTail(g, fuel, toks, abc, 5) == Ok(Parsed(abc, 5));
    assert ParseMulTail(g, fuel, toks, ab, 3) == Ok(Parsed(abc, 5));
    assert ParseMulTail(g, fuel, toks, L(a), 1) == Ok(Parsed(abc, 5));
    assert ParseMul(g, fuel, toks, 0) == Ok(Parsed(abc, 5));
    assert ParseAddTail(g, fuel, toks, abc, 5) == Ok(Parsed(abc, 5));
  }

  /** `*` and `/` bind tighter than `+` and `-`, on either side. */
  lemma Precedence(g: string -> string, fuel: nat, a: real, b: real, c: real, add: string, mul: string)
    requires add == "+" || add == "-"
    requires mul == "*" || mul == "/"
    ensures ParseAdd(g, fuel, [Num(a), Reserved(add), Num(b), Reserved(mul), Num(c)], 0)
      == Ok(Parsed(Binary(AdditiveKind(add), L(a), Binary(MultiplicativeKind(mul), L(b), L(c))), 5))
    ensures ParseAdd(g, fuel, [Num(a), Reserved(mul), Num(b), Reserved(add), Num(c)], 0)
      == Ok(Parsed(Binary(AdditiveKind(add), Binary(MultiplicativeKind(mul), L(a), L(b)), L(c)), 5))
  {
    var t1 := [Num(a), Reserved(add), Num(b), Reserved(mul), Num(c)];
    var bc := Binary(MultiplicativeKind(mul), L(b), L(c));
    var whole1 := Binary(AdditiveKind(add), L(a), bc);
    NumberOperand(g, fuel, t1, 0);
    NumberFactor(g, fuel, t1, 2);
    NumberFactor(g, fuel, t1, 4);
    assert ParseMulTail(g, fuel, t1, bc, 5) == Ok(Parsed(bc, 5));
    assert ParseMulTail(g, fuel, t1, L(b), 3) == Ok(Parsed(bc, 5));
    assert ParseMul(g, fuel, t1, 2) == Ok(Parsed(bc, 5));
    assert ParseAddTail(g, fuel, t1, whole1, 5) == Ok(Parsed(whole1, 5));
    assert ParseAddTail(g, fuel, t1, L(a), 1) == Ok(Parsed(whole1, 5));

    var t2 := [Num(a), Reserved(mul), Num(b), Reserved(add), Num(c)];
    var ab := Binary(MultiplicativeKind(mul), L(a), L(b));
    var whole2 := Binary(AdditiveKind(add), ab, L(c));
    NumberFactor(g, fuel, t2, 0);
    NumberFactor(g, fuel, t2, 2);
    NumberOperand(g, fuel, t2, 4);
    assert ParseMulTail(g, fuel, t2, ab, 3) == Ok(Parsed(ab, 3));
    assert ParseMulTail(g, fuel, t2, L(a), 1) == Ok(Parsed(ab, 3));
    assert ParseMul(g, fuel, t2, 0) == Ok(Parsed(ab, 3));
    assert ParseAddTail(g, fuel, t2, whole2, 5) == Ok(Parsed(whole2, 5));
    assert ParseAddTail(g, fuel, t2, ab, 3) == Ok(Parsed(whole2, 5));
  }

  /** A leading `-` subtracts its operand from a literal zero, and so negates it. */
  lemma UnaryMinus(g: string -> string, fuel: nat, a: real)
    ensures ParseAdd(g, fuel, [Reserved("-"), Num(a)], 0) == Ok(Parsed(Binary(SUB, L(0.0), L(a)), 2))
    ensures Eval(Binary(SUB, L(0.0), L(a))) == Ok(-a)
  {
    var toks := [Reserved("-"), Num(a)];
    var neg := Binary(SUB, L(0.0), L(a));
    assert ParsePrimary(g, fuel, toks, 1) == Ok(Parsed(L(a), 2));
    assert ParseUnary(g, fuel, toks, 0) == Ok(Parsed(neg, 2));
    assert ParseMulTail(g, fuel, toks, neg, 2) == Ok(Parsed(neg, 2));
    assert ParseAddTail(g, fuel, toks, neg, 2) == Ok(Parsed(neg, 2));
    LiteralMeaning(L(0.0));
    LiteralMeaning(L(a));
    BinaryMeaning(SUB, L(0.0), L(a));
  }

  /** Tokens after a complete expression are not read: `1 2`, `1 )` and `1 ,` all parse
      as `1`. */
  lemma TrailingTokensIgnored(g: string -> string, fuel: nat)
    ensures ParseRoot(g, fuel, "A1", [Num(1.0), Num(2.0)], 0) == Ok(L(1.0).SetAddress("A1"))
    ensures ParseRoot(g, fuel, "A1", [Num(1.0), Reserved(")")], 0) == Ok(L(1.0).SetAddress("A1"))
    ensures ParseRoot(g, fuel, "A1", [Num(1.0), Reserved(",")], 0) == Ok(L(1.0).SetAddress("A1"))
  {
    var number := [Num(1.0), Num(2.0)];
    NumberOperand(g, fuel, number, 0);
    assert ParseAddTail(g, fuel, number, L(1.0), 1) == Ok(Parsed(L(1.0), 1));
    var bracket := [Num(1.0), Reserved(")")];
    NumberOperand(g, fuel, bracket, 0);
    assert ParseAddTail(g, fuel, bracket, L(1.0), 1) == Ok(Parsed(L(1.0), 1));
    var comma := [Num(1.0), Reserved(",")];
    NumberOperand(g, fuel, comma, 0);
    assert ParseAddTail(g, fuel, comma, L(1.0), 1) == Ok(Parsed(L(1.0), 1));
  }

  // ---------------------------------------------------------------------------
  // More building blocks, for whole expressions
  // ---------------------------------------------------------------------------

  /** No operator of `add()` or `mul()` follows at `k`. */
  predicate EndsOperand(toks: seq<Token>, k: nat) {
    !IsReservedAt(toks, k, "+") && !IsReservedAt(toks, k, "-")
    && !IsReservedAt(toks, k, "*") && !IsReservedAt(toks, k, "/")
  }

  /** A factor that no operator follows is the whole expression at its position. */
  lemma WholeOperand(g: string -> string, fuel: nat, toks: seq<Token>, pos: nat, t: SyntaxTreeNode, k: nat)
    requires ParseUnary(g, fuel, toks, pos) == Ok(Parsed(t, k))
    requires EndsOperand(toks, k)
    ensures ParseMul(g, fuel, toks, pos) == Ok(Parsed(t, k))
    ensures ParseAdd(g, fuel, toks, pos) == Ok(Parsed(t, k))
  {
    assert ParseMulTail(g, fuel, toks, t, k) == Ok(Parsed(t, k));
    assert ParseAddTail(g, fuel, toks, t, k) == Ok(Parsed(t, k));
  }

  /** Two factors joined by `+`, with no operator after the second: their sum. */
  lemma SumOfFactors(g: string -> string, fuel: nat, toks: seq<Token>, pos: nat,
                     l: SyntaxTreeNode, k: nat, r: SyntaxTreeNode, m: nat)
    requires ParseUnary(g, fuel, toks, pos) == Ok(Parsed(l, k))
    requires IsReservedAt(toks, k, "+")
    requires ParseUnary(g, fuel, toks, k + 1) == Ok(Parsed(r, m))
    requires EndsOperand(toks, m)
    ensures ParseAdd(g, fuel, toks, pos) == Ok(Parsed(Binary(ADD, l, r), m))
  {
    WholeOperand(g, fuel, toks, k + 1, r, m);
    assert ParseMulTail(g, fuel, toks, l, k) == Ok(Parsed(l, k));
    assert ParseMul(g, fuel, toks, pos) == Ok(Parsed(l, k));
    assert ParseAddTail(g, fuel, toks, Binary(ADD, l, r), m) == Ok(Parsed(Binary(ADD, l, r), m));
    assert ParseAddTail(g, fuel, toks, l, k) == Ok(Parsed(Binary(ADD, l, r), m));
  }

  /** Two factors joined by `*`, with no operator after the second: their product. */
  lemma ProductOfFactors(g: string -> string, fuel: nat, toks: seq<Token>, pos: nat,
                         l: SyntaxTreeNode, k: nat, r: SyntaxTreeNode, m: nat)
    requires ParseUnary(g, fuel, toks, pos) == Ok(Parsed(l, k))
    requires IsReservedAt(toks, k, "*")
    requires ParseUnary(g, fuel, toks, k + 1) == Ok(Parsed(r, m))
    requires EndsOperand(toks, m)
    ensures ParseAdd(g, fuel, toks, pos) == Ok(Parsed(Binary(MUL, l, r), m))
  {
    var product := Binary(MUL, l, r);
    assert ParseMulTail(g, fuel, toks, product, m) == Ok(Parsed(product, m));
    assert ParseMulTail(g, fuel, toks, l, k) == Ok(Parsed(product, m));
    assert ParseMul(g, fuel, toks, pos) == Ok(Parsed(product, m));
    assert ParseAddTail(g, fuel, toks, product, m) == Ok(Parsed(product, m));
  }

  /** A whitelisted name, `(`, the arguments and `)` make a `FUNC` node. */
  lemma CallFactor(g: string -> string, fuel: nat, toks: seq<Token>, pos: nat,
                   args: seq<SyntaxTreeNode>, k: nat)
    requires FuncNameAt(toks, pos).Some? && IsReservedAt(toks, pos + 1, "(")
    requires ParseArgs(g, fuel, toks, pos + 2) == Ok(Parsed(args, k))
    requires IsReservedAt(toks, k, ")")
    ensures ParseUnary(g, fuel, toks, pos)
      == Ok(Parsed(SyntaxTreeNode(FUNC, args, None, FuncNameAt(toks, pos), None), k + 1))
  {
    assert !IsNumberAt(toks, pos) && !IsReservedAt(toks, pos, "(") && !IsReservedAt(toks, pos, "-");
    assert ParsePrimary(g, fuel, toks, pos)
      == Ok(Parsed(SyntaxTreeNode(FUNC, args, None, FuncNameAt(toks, pos), None), k + 1));
  }

  /** One more argument after a comma. */
  lemma ArgStep(g: string -> string, fuel: nat, toks: seq<Token>, acc: seq<SyntaxTreeNode>, pos: nat,
                arg: SyntaxTreeNode, k: nat)
    requires pos < |toks| && toks[pos] == Reserved(",")
    requires ParseAdd(g, fuel, toks, pos + 1) == Ok(Parsed(arg, k))
    ensures ParseArgsTail(g, fuel, toks, acc, pos) == ParseArgsTail(g, fuel, toks, acc + [arg], k)
  {
  }

  /** The arguments end where no comma follows. */
  lemma ArgsEnd(g: string -> string, fuel: nat, toks: seq<Token>, acc: seq<SyntaxTreeNode>, pos: nat)
    requires pos <= |toks| && !IsReservedAt(toks, pos, ",")
    ensures ParseArgsTail(g, fuel, toks, acc, pos) == Ok(Parsed(acc, pos))
  {
  }

  /** A call on two arguments, each a whole expression. */
  lemma TwoArgumentCall(g: string -> string, fuel: nat, toks: seq<Token>, pos: nat,
                        a: SyntaxTreeNode, ka: nat, b: SyntaxTreeNode, kb: nat)
    requires FuncNameAt(toks, pos).Some? && IsReservedAt(toks, pos + 1, "(")
    requires ParseAdd(g, fuel, toks, pos + 2) == Ok(Parsed(a, ka))
    requires ka < |toks| && toks[ka] == Reserved(",")
    requires ParseAdd(g, fuel, toks, ka + 1) == Ok(Parsed(b, kb))
    requires IsReservedAt(toks, kb, ")")
    ensures ParseUnary(g, fuel, toks, pos)
      == Ok(Parsed(SyntaxTreeNode(FUNC, [a, b], None, FuncNameAt(toks, pos), None), kb + 1))
  {
    ArgsEnd(g, fuel, toks, [a, b], kb);
    ArgStep(g, fuel, toks, [a], ka, b, kb);
    assert [a] + [b] == [a, b];
    assert ParseArgs(g, fuel, toks, pos + 2) == Ok(Parsed([a, b], kb));
    CallFactor(g, fuel, toks, pos, [a, b], kb);
  }

  /** A number that no operator follows is a whole expression. */
  lemma NumberTerm(g: string -> string, fuel: nat, toks: seq<Token>, pos: nat)
    requires IsNumberAt(toks, pos) && EndsOperand(toks, pos + 1)
    ensures ParseAdd(g, fuel, toks, pos) == Ok(Parsed(L(toks[pos].value), pos + 1))
  {
    NumberFactor(g, fuel, toks, pos);
    WholeOperand(g, fuel, toks, pos, L(toks[pos].value), pos + 1);
  }

  /** Evaluating `[t] + rest`, when both parts evaluate. */
  lemma EvalCons(t: SyntaxTreeNode, rest: seq<SyntaxTreeNode>)
    requires Eval(t).Ok? && EvalAll(rest).Ok?
    ensures EvalAll([t] + rest) == Ok([Eval(t).value] + EvalAll(rest).value)
  {
    assert ([t] + rest)[0] == t && ([t] + rest)[1..] == rest;
  }

  /** Evaluating a list of literals gives their values. */
  lemma EvalNumbers(a: real, b: real, c: real)
    ensures EvalAll([L(a), L(b)]) == Ok([a, b])
    ensures EvalAll([L(a), L(b), L(c)]) == Ok([a, b, c])
  {
    LiteralMeaning(L(a));
    LiteralMeaning(L(b));
    LiteralMeaning(L(c));
    EvalCons(L(c), []);
    assert [L(c)] + [] == [L(c)] && [c] + [] == [c];
    EvalCons(L(b), [L(c)]);
    assert [L(b)] + [L(c)] == [L(b), L(c)] && [b] + [c] == [b, c];
    EvalCons(L(a), [L(b), L(c)]);
    assert [L(a)] + [L(b), L(c)] == [L(a), L(b), L(c)] && [a] + [b, c] == [a, b, c];
    EvalCons(L(b), []);
    assert [L(b)] + [] == [L(b)] && [b] + [] == [b];
    EvalCons(L(a), [L(b)]);
    assert [L(a)] + [L(b)] == [L(a), L(b)] && [a] + [b] == [a, b];
  }

  // ---------------------------------------------------------------------------
  // The arithmetic cases of parser.test.ts: the given tokens, `parse()`, `eval()`
  // ---------------------------------------------------------------------------

  /** `1 + 2` is 3. */
  lemma ExampleOnePlusTwo(g: string -> string, fuel: nat)
    ensures ParseAdd(g, fuel, [Num(1.0), Reserved("+"), Num(2.0)], 0) == Ok(Parsed(Binary(ADD, L(1.0), L(2.0)), 3))
    ensures var r := ParseRoot(g, fuel, "", [Num(1.0), Reserved("+"), Num(2.0)], 0);
      r == Ok(Binary(ADD, L(1.0), L(2.0)).SetAddress("")) && Eval(r.value) == Ok(3.0)
  {
    var toks := [Num(1.0), Reserved("+"), Num(2.0)];
    var sum := Binary(ADD, L(1.0), L(2.0));
    NumberOperand(g, fuel, toks, 0);
    NumberOperand(g, fuel, toks, 2);
    assert ParseAddTail(g, fuel, toks, sum, 3) == Ok(Parsed(sum, 3));
    assert ParseAddTail(g, fuel, toks, L(1.0), 1) == Ok(Parsed(sum, 3));
    EvalIgnoresAddress(sum, "");
    LiteralMeaning(L(1.0));
    LiteralMeaning(L(2.0));
    BinaryMeaning(ADD, L(1.0), L(2.0));
  }

  /** `(3 + 4) * 5` is 35. */
  lemma ExampleParenthesesTimes(g: string -> string, fuel: nat)
    ensures var r := ParseRoot(g, fuel, "",
      [Reserved("("), Num(3.0), Reserved("+"), Num(4.0), Reserved(")"), Reserved("*"), Num(5.0)], 0);
      r == Ok(Binary(MUL, Binary(ADD, L(3.0), L(4.0)), L(5.0)).SetAddress("")) && Eval(r.value) == Ok(35.0)
  {
    var toks := [Reserved("("), Num(3.0), Reserved("+"), Num(4.0), Reserved(")"), Reserved("*"), Num(5.0)];
    var sum := Binary(ADD, L(3.0), L(4.0));
    var product := Binary(MUL, sum, L(5.0));
    NumberOperand(g, fuel, toks, 1);
    NumberOperand(g, fuel, toks, 3);
    assert ParseAddTail(g, fuel, toks, sum, 4) == Ok(Parsed(sum, 4));
    assert ParseAddTail(g, fuel, toks, L(3.0), 2) == Ok(Parsed(sum, 4));
    assert ParseAdd(g, fuel, toks, 1) == Ok(Parsed(sum, 4));
    assert ParsePrimary(g, fuel, toks, 0) == Ok(Parsed(sum, 5));
    assert ParseUnary(g, fuel, toks, 0) == Ok(Parsed(sum, 5));
    NumberFactor(g, fuel, toks, 6);
    assert ParseMulTail(g, fuel, toks, product, 7) == Ok(Parsed(product, 7));
    assert ParseMulTail(g, fuel, toks, sum, 5) == Ok(Parsed(product, 7));
    assert ParseMul(g, fuel, toks, 0) == Ok(Parsed(product, 7));
    assert ParseAddTail(g, fuel, toks, product, 7) == Ok(Parsed(product, 7));
    assert ParseAdd(g, fuel, toks, 0) == Ok(Parsed(product, 7));
    EvalIgnoresAddress(product, "");
    LiteralMeaning(L(3.0));
    LiteralMeaning(L(4.0));
    LiteralMeaning(L(5.0));
    BinaryMeaning(ADD, L(3.0), L(4.0));
    BinaryMeaning(MUL, sum, L(5.0));
  }

  /** `3 / 5 * 10` is 6: the division comes first. */
  lemma ExampleDivideTimes(g: string -> string, fuel: nat)
    ensures var r := ParseRoot(g, fuel, "", [Num(3.0), Reserved("/"), Num(5.0), Reserved("*"), Num(10.0)], 0);
      r == Ok(Binary(MUL, Binary(DIV, L(3.0), L(5.0)), L(10.0)).SetAddress("")) && Eval(r.value) == Ok(6.0)
  {
    MultiplicativeLeftAssociative(g, fuel, 3.0, 5.0, 10.0, "/", "*");
    var quotient := Binary(DIV, L(3.0), L(5.0));
    var product := Binary(MUL, quotient, L(10.0));
    EvalIgnoresAddress(product, "");
    LiteralMeaning(L(3.0));
    LiteralMeaning(L(5.0));
    LiteralMeaning(L(10.0));
    BinaryMeaning(DIV, L(3.0), L(5.0));
    BinaryMeaning(MUL, quotient, L(10.0));
  }

  /** `-4 - 5` is -9. */
  lemma ExampleNegativeMinus(g: string -> string, fuel: nat)
    ensures var r := ParseRoot(g, fuel, "", [Reserved("-"), Num(4.0), Reserved("-"), Num(5.0)], 0);
      r == Ok(Binary(SUB, Binary(SUB, L(0.0), L(4.0)), L(5.0)).SetAddress("")) && Eval(r.value) == Ok(-9.0)
  {
    var toks := [Reserved("-"), Num(4.0), Reserved("-"), Num(5.0)];
    var neg := Binary(SUB, L(0.0), L(4.0));
    var diff := Binary(SUB, neg, L(5.0));
    assert ParsePrimary(g, fuel, toks, 1) == Ok(Parsed(L(4.0), 2));
    assert ParseUnary(g, fuel, toks, 0) == Ok(Parsed(neg, 2));
    assert ParseMulTail(g, fuel, toks, neg, 2) == Ok(Parsed(neg, 2));
    assert ParseMul(g, fuel, toks, 0) == Ok(Parsed(neg, 2));
    NumberOperand(g, fuel, toks, 3);
    assert ParseAddTail(g, fuel, toks, diff, 4) == Ok(Parsed(diff, 4));
    assert ParseAddTail(g, fuel, toks, neg, 2) == Ok(Parsed(diff, 4));
    assert ParseAdd(g, fuel, toks, 0) == Ok(Parsed(diff, 4));
    EvalIgnoresAddress(diff, "");
    LiteralMeaning(L(0.0));
    LiteralMeaning(L(4.0));
    LiteralMeaning(L(5.0));
    BinaryMeaning(SUB, L(0.0), L(4.0));
    BinaryMeaning(SUB, neg, L(5.0));
  }

  /** The parse of `NAME(a, b, c)` over three numbers. */
  lemma ThreeNumberCall(g: string -> string, fuel: nat, name: FuncName, a: real, b: real, c: real)
    ensures ParseRoot(g, fuel, "",
      [Reserved(FuncNameText(name)), Reserved("("), Num(a), Reserved(","), Num(b), Reserved(","), Num(c), Reserved(")")], 0)
      == Ok(SyntaxTreeNode(FUNC, [L(a), L(b), L(c)], None, Some(name), None).SetAddress(""))
  {
    var toks := [Reserved(FuncNameText(name)), Reserved("("), Num(a), Reserved(","), Num(b), Reserved(","), Num(c), Reserved(")")];
    assert FuncNameAt(toks, 0) == Some(name);
    NumberTerm(g, fuel, toks, 2);
    NumberTerm(g, fuel, toks, 4);
    NumberTerm(g, fuel, toks, 6);
    ArgsEnd(g, fuel, toks, [L(a), L(b), L(c)], 7);
    ArgStep(g, fuel, toks, [L(a), L(b)], 5, L(c), 7);
    assert [L(a), L(b)] + [L(c)] == [L(a), L(b), L(c)];
    ArgStep(g, fuel, toks, [L(a)], 3, L(b), 5);
    assert [L(a)] + [L(b)] == [L(a), L(b)];
    assert ParseArgs(g, fuel, toks, 2) == Ok(Parsed([L(a), L(b), L(c)], 7));
    var call := SyntaxTreeNode(FUNC, [L(a), L(b), L(c)], None, Some(name), None);
    CallFactor(g, fuel, toks, 0, [L(a), L(b), L(c)], 7);
    WholeOperand(g, fuel, toks, 0, call, 8);
  }

  /** `SUM(1, 5, 8)` is 14. */
  lemma ExampleSum(g: string -> string, fuel: nat)
    ensures var r := ParseRoot(g, fuel, "",
      [Reserved("SUM"), Reserved("("), Num(1.0), Reserved(","), Num(5.0), Reserved(","), Num(8.0), Reserved(")")], 0);
      r.Ok? && Eval(r.value) == Ok(14.0)
  {
    ThreeNumberCall(g, fuel, SUM, 1.0, 5.0, 8.0);
    var call := SyntaxTreeNode(FUNC, [L(1.0), L(5.0), L(8.0)], None, Some(SUM), None);
    EvalIgnoresAddress(call, "");
    EvalNumbers(1.0, 5.0, 8.0);
    FunctionMeaning(call);
  }

  /** `AVERAGE(3, 12, 15)` is 10. */
  lemma ExampleAverage(g: string -> string, fuel: nat)
    ensures var r := ParseRoot(g, fuel, "",
      [Reserved("AVERAGE"), Reserved("("), Num(3.0), Reserved(","), Num(12.0), Reserved(","), Num(15.0), Reserved(")")], 0);
      r.Ok? && Eval(r.value) == Ok(10.0)
  {
    ThreeNumberCall(g, fuel, AVERAGE, 3.0, 12.0, 15.0);
    var call := SyntaxTreeNode(FUNC, [L(3.0), L(12.0), L(15.0)], None, Some(AVERAGE), None);
    EvalIgnoresAddress(call, "");
    EvalNumbers(3.0, 12.0, 15.0);
    FunctionMeaning(call);
  }

  /** The tree of `SUM(1, SUM(3, 4))`. */
  function NestedSumTree(): SyntaxTreeNode {
    SyntaxTreeNode(FUNC, [L(1.0), SyntaxTreeNode(FUNC, [L(3.0), L(4.0)], None, Some(SUM), None)], None, Some(SUM), None)
  }

  /** `F(x, G(y, z))`, given the tokens one by one. */
  lemma NestedCall(g: string -> string, fuel: nat, toks: seq<Token>, f: FuncName, h: FuncName,
                   x: real, y: real, z: real)
    requires |toks| == 11
    requires toks[0] == Reserved(FuncNameText(f)) && toks[1] == Reserved("(") && toks[2] == Num(x)
    requires toks[3] == Reserved(",") && toks[4] == Reserved(FuncNameText(h)) && toks[5] == Reserved("(")
    requires toks[6] == Num(y) && toks[7] == Reserved(",") && toks[8] == Num(z)
    requires toks[9] == Reserved(")") && toks[10] == Reserved(")")
    ensures ParseAdd(g, fuel, toks, 0) == Ok(Parsed(SyntaxTreeNode(FUNC,
      [L(x), SyntaxTreeNode(FUNC, [L(y), L(z)], None, Some(h), None)], None, Some(f), None), 11))
  {
    var inner := SyntaxTreeNode(FUNC, [L(y), L(z)], None, Some(h), None);
    assert FuncNameAt(toks, 0) == Some(f) && FuncNameAt(toks, 4) == Some(h);
    // the inner call
    NumberTerm(g, fuel, toks, 6);
    NumberTerm(g, fuel, toks, 8);
    TwoArgumentCall(g, fuel, toks, 4, L(y), 7, L(z), 9);
    WholeOperand(g, fuel, toks, 4, inner, 10);
    // the outer call
    NumberTerm(g, fuel, toks, 2);
    TwoArgumentCall(g, fuel, toks, 0, L(x), 3, inner, 10);
    WholeOperand(g, fuel, toks, 0, SyntaxTreeNode(FUNC, [L(x), inner], None, Some(f), None), 11);
  }

  lemma NestedSumParse(g: string -> string, fuel: nat)
    ensures ParseRoot(g, fuel, "",
      [Reserved("SUM"), Reserved("("), Num(1.0), Reserved(","), Reserved("SUM"), Reserved("("),
       Num(3.0), Reserved(","), Num(4.0), Reserved(")"), Reserved(")")], 0)
      == Ok(NestedSumTree().SetAddress(""))
  {
    NestedCall(g, fuel,
      [Reserved("SUM"), Reserved("("), Num(1.0), Reserved(","), Reserved("SUM"), Reserved("("),
       Num(3.0), Reserved(","), Num(4.0), Reserved(")"), Reserved(")")], SUM, SUM, 1.0, 3.0, 4.0);
  }

  lemma NestedSumValue()
    ensures Eval(NestedSumTree()) == Ok(8.0)
  {
    var inner := SyntaxTreeNode(FUNC, [L(3.0), L(4.0)], None, Some(SUM), None);
    var outer := NestedSumTree();
    EvalNumbers(3.0, 4.0, 0.0);
    FunctionMeaning(inner);
    assert Eval(inner) == Ok(7.0);
    LiteralMeaning(L(1.0));
    EvalCons(inner, []);
    assert [inner] + [] == [inner] && [7.0] + [] == [7.0];
    EvalCons(L(1.0), [inner]);
    assert [L(1.0)] + [inner] == outer.children && [1.0] + [7.0] == [1.0, 7.0];
    FunctionMeaning(outer);
  }

  /** `SUM(1, SUM(3, 4))` is 8. */
  lemma ExampleNestedSum(g: string -> string, fuel: nat)
    ensures var r := ParseRoot(g, fuel, "",
      [Reserved("SUM"), Reserved("("), Num(1.0), Reserved(","), Reserved("SUM"), Reserved("("),
       Num(3.0), Reserved(","), Num(4.0), Reserved(")"), Reserved(")")], 0);
      r.Ok? && Eval(r.value) == Ok(8.0)
  {
    NestedSumParse(g, fuel);
    EvalIgnoresAddress(NestedSumTree(), "");
    NestedSumValue();
  }

  /** `ROUND(value, places)` over two numbers evaluates `roundToPlaces`. */
  lemma RoundCall(g: string -> string, fuel: nat, value: real, places: real)
    ensures var r := ParseRoot(g, fuel, "",
      [Reserved("ROUND"), Reserved("("), Num(value), Reserved(","), Num(places), Reserved(")")], 0);
      r.Ok? && Eval(r.value) == Ok(RoundToPlaces(value, places))
  {
    var toks := [Reserved("ROUND"), Reserved("("), Num(value), Reserved(","), Num(places), Reserved(")")];
    var call := SyntaxTreeNode(FUNC, [L(value), L(places)], None, Some(ROUND), None);
    assert FuncNameAt(toks, 0) == Some(ROUND);
    NumberTerm(g, fuel, toks, 2);
    NumberTerm(g, fuel, toks, 4);
    ArgsEnd(g, fuel, toks, [L(value), L(places)], 5);
    ArgStep(g, fuel, toks, [L(value)], 3, L(places), 5);
    assert [L(value)] + [L(places)] == [L(value), L(places)];
    assert ParseArgs(g, fuel, toks, 2) == Ok(Parsed([L(value), L(places)], 5));
    CallFactor(g, fuel, toks, 0, [L(value), L(places)], 5);
    WholeOperand(g, fuel, toks, 0, call, 6);
    EvalIgnoresAddress(call, "");
    EvalNumbers(value, places, 0.0);
    FunctionMeaning(call);
  }

  /** `ROUND(123.456, 0)` is 123 and `ROUND(123.456, 1)` is 123.5. */
  lemma ExampleRound(g: string -> string, fuel: nat)
    ensures var r := ParseRoot(g, fuel, "",
      [Reserved("ROUND"), Reserved("("), Num(123.456), Reserved(","), Num(0.0), Reserved(")")], 0);
      r.Ok? && Eval(r.value) == Ok(123.0)
    ensures var r := ParseRoot(g, fuel, "",
      [Reserved("ROUND"), Reserved("("), Num(123.456), Reserved(","), Num(1.0), Reserved(")")], 0);
      r.Ok? && Eval(r.value) == Ok(123.5)
  {
    RoundCall(g, fuel, 123.456, 0.0);
    RoundCall(g, fuel, 123.456, 1.0);
    RoundToPlacesExamples();
  }
}
