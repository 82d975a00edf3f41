/** The grammar that the recursive-descent `Parser` of src/features/Excel/utils/parser.ts
    implements, as functions on a token sequence and a position.

    expr    := add
    add     := mul (("+" | "-") mul)*          folded to the left
    mul     := unary (("*" | "/") unary)*      folded to the left
    unary   := "-" primary | primary           "-x" becomes SUB[LITERAL 0, x]
    primary := NUM | "(" add ")" | FUNCNAME "(" args ")" | cell
    args    := add ("," add)*
    cell    := any RESERVED token, replaced by the parse of that cell's own content

    Every parse function takes the content lookup `g` (the source's `getFormula`) and
    `fuel`, the number of nested cell expansions still allowed, and returns the tree
    with the position after it. */
module Grammar {
  import opened Wrappers
  import opened Utils
  import opened Tokenizer
  import opened SyntaxTree

  datatype Parsed<T> = Parsed(tree: T, next: nat)

  // ---------------------------------------------------------------------------
  // Looking at the current token
  // ---------------------------------------------------------------------------

  /** The current token is the symbol `e` (what `consume(e)` accepts). */
  predicate IsReservedAt(toks: seq<Token>, pos: nat, e: string) {
    pos < |toks| && toks[pos] == Reserved(e)
  }

  /** The current token is a number (`isCurNumber`). */
  predicate IsNumberAt(toks: seq<Token>, pos: nat) {
    pos < |toks| && toks[pos].Num?
  }

  /** What an error message reports as found at `pos`. */
  function FoundAt(toks: seq<Token>, pos: nat): Found {
    if pos >= |toks| then EndOfInput
    else match toks[pos]
      case Num(v) => FoundNumber(v)
      case Reserved(e) => FoundSymbol(e)
  }

  /** The whitelist `excelFuncNames`. */
  function FuncNameOf(s: string): (f: Option<FuncName>) {
    if s == "SUM" then Some(SUM)
    else if s == "AVERAGE" then Some(AVERAGE)
    else if s == "ROUND" then Some(ROUND)
    else None
  }

  function FuncNameText(f: FuncName): string {
    match f
    case SUM => "SUM"
    case AVERAGE => "AVERAGE"
    case ROUND => "ROUND"
  }

  /** The function name `consumeFuncName` accepts at `pos`, if any. */
  function FuncNameAt(toks: seq<Token>, pos: nat): Option<FuncName> {
    if pos < |toks| && toks[pos].Reserved? then FuncNameOf(toks[pos].expr) else None
  }

  /** `expect(e)`. */
  function ExpectAt(toks: seq<Token>, pos: nat, e: string): (o: Outcome)
    ensures o.Pass? <==> IsReservedAt(toks, pos, e)
    ensures o.Fail? ==> o.error == Unexpected(e, FoundAt(toks, pos))
  {
    if pos >= |toks| then Fail(Unexpected(e, EndOfInput))
    else match toks[pos]
      case Num(v) => Fail(Unexpected(e, FoundNumber(v)))
      case Reserved(x) => if x != e then Fail(Unexpected(e, FoundSymbol(x))) else Pass
  }

  /** `expectNumber()`. */
  function ExpectNumberAt(toks: seq<Token>, pos: nat): (r: Result<real>)
    ensures r.Ok? <==> IsNumberAt(toks, pos)
    ensures r.Ok? ==> toks[pos] == Num(r.value)
    ensures r.Err? ==> r.error == Unexpected("number", FoundAt(toks, pos))
  {
    if pos >= |toks| then Err(Unexpected("number", EndOfInput))
    else match toks[pos]
      case Reserved(e) => Err(Unexpected("number", FoundSymbol(e)))
      case Num(v) => Ok(v)
  }

  /** `expectReserved()`; its messages say "number" as the source's do. */
  function ExpectReservedAt(toks: seq<Token>, pos: nat): (r: Result<string>)
    ensures r.Ok? <==> pos < |toks| && toks[pos].Reserved?
    ensures r.Ok? ==> toks[pos] == Reserved(r.value)
    ensures r.Err? ==> r.error == Unexpected("number", FoundAt(toks, pos))
  {
    if pos >= |toks| then Err(Unexpected("number", EndOfInput))
    else match toks[pos]
      case Num(v) => Err(Unexpected("number", FoundNumber(v)))
      case Reserved(e) => Ok(e)
  }

  // ---------------------------------------------------------------------------
  // The grammar
  // ---------------------------------------------------------------------------

  /** `add()` */
  function ParseAdd(g: string -> string, fuel: nat, toks: seq<Token>, pos: nat): (r: Result<Parsed<SyntaxTreeNode>>)
    ensures r.Ok? ==> pos < r.value.next <= |toks|
    decreases fuel, 0, |toks| - pos, 5
  {
    var left :- ParseMul(g, fuel, toks, pos);
    ParseAddTail(g, fuel, toks, left.tree, left.next)
  }

  /** The loop of `add()`, with the tree so far in `node`. */
  function ParseAddTail(g: string -> string, fuel: nat, toks: seq<Token>, node: SyntaxTreeNode, pos: nat)
    : (r: Result<Parsed<SyntaxTreeNode>>)
    requires pos <= |toks|
    ensures r.Ok? ==> pos <= r.value.next <= |toks|
    decreases fuel, 0, |toks| - pos, 5
  {
    if IsReservedAt(toks, pos, "+") then
      var right :- ParseMul(g, fuel, toks, pos + 1);
      ParseAddTail(g, fuel, toks, Binary(ADD, node, right.tree), right.next)
    else if IsReservedAt(toks, pos, "-") then
      var right :- ParseMul(g, fuel, toks, pos + 1);
      ParseAddTail(g, fuel, toks, Binary(SUB, node, right.tree), right.next)
    else
      Ok(Parsed(node, pos))
  }

  /** `mul()` */
  function ParseMul(g: string -> string, fuel: nat, toks: seq<Token>, pos: nat): (r: Result<Parsed<SyntaxTreeNode>>)
    ensures r.Ok? ==> pos < r.value.next <= |toks|
    decreases fuel, 0, |toks| - pos, 4
  {
    var left :- ParseUnary(g, fuel, toks, pos);
    ParseMulTail(g, fuel, toks, left.tree, left.next)
  }

  /** The loop of `mul()`, with the tree so far in `node`. */
  function ParseMulTail(g: string -> string, fuel: nat, toks: seq<Token>, node: SyntaxTreeNode, pos: nat)
    : (r: Result<Parsed<SyntaxTreeNode>>)
    requires pos <= |toks|
    ensures r.Ok? ==> pos <= r.value.next <= |toks|
    decreases fuel, 0, |toks| - pos, 4
  {
    if IsReservedAt(toks, pos, "*") then
      var right :- ParseUnary(g, fuel, toks, pos + 1);
      ParseMulTail(g, fuel, toks, Binary(MUL, node, right.tree), right.next)
    else if IsReservedAt(toks, pos, "/") then
      var right :- ParseUnary(g, fuel, toks, pos + 1);
      ParseMulTail(g, fuel, toks, Binary(DIV, node, right.tree), right.next)
    else
      Ok(Parsed(node, pos))
  }

  /** `unary()` */
  function ParseUnary(g: string -> string, fuel: nat, toks: seq<Token>, pos: nat): (r: Result<Parsed<SyntaxTreeNode>>)
    ensures r.Ok? ==> pos < r.value.next <= |toks|
    decreases fuel, 0, |toks| - pos, 3
  {
    if IsReservedAt(toks, pos, "-") then
      var operand :- ParsePrimary(g, fuel, toks, pos + 1);
      Ok(Parsed(Binary(SUB, Literal(0.0, None), operand.tree), operand.next))
    else
      ParsePrimary(g, fuel, toks, pos)
  }

  /** `primary()` */
  function ParsePrimary(g: string -> string, fuel: nat, toks: seq<Token>, pos: nat): (r: Result<Parsed<SyntaxTreeNode>>)
    ensures r.Ok? ==> pos < r.value.next <= |toks|
    decreases fuel, 0, |toks| - pos, 2
  {
    if IsNumberAt(toks, pos) then
      Ok(Parsed(Literal(toks[pos].value, None), pos + 1))
    else if IsReservedAt(toks, pos, "(") then
      var inner :- ParseAdd(g, fuel, toks, pos + 1);
      :- ExpectAt(toks, inner.next, ")");
      Ok(Parsed(inner.tree, inner.next + 1))
    else if FuncNameAt(toks, pos).Some? then
      :- ExpectAt(toks, pos + 1, "(");
      var args :- ParseArgs(g, fuel, toks, pos + 2);
      :- ExpectAt(toks, args.next, ")");
      Ok(Parsed(SyntaxTreeNode(FUNC, args.tree, None, FuncNameAt(toks, pos), None), args.next + 1))
    else
      ParseCell(g, fuel, toks, pos)
  }

  /** `args()` */
  function ParseArgs(g: string -> string, fuel: nat, toks: seq<Token>, pos: nat)
    : (r: Result<Parsed<seq<SyntaxTreeNode>>>)
    ensures r.Ok? ==> pos < r.value.next <= |toks| && |r.value.tree| >= 1
    decreases fuel, 0, |toks| - pos, 6
  {
    var first :- ParseAdd(g, fuel, toks, pos);
    ParseArgsTail(g, fuel, toks, [first.tree], first.next)
  }

  /** The loop of `args()`, with the arguments so far in `acc`. */
  function ParseArgsTail(g: string -> string, fuel: nat, toks: seq<Token>, acc: seq<SyntaxTreeNode>, pos: nat)
    : (r: Result<Parsed<seq<SyntaxTreeNode>>>)
    requires pos <= |toks|
    ensures r.Ok? ==> pos <= r.value.next <= |toks| && |r.value.tree| >= |acc|
    ensures r.Ok? ==> r.value.tree[..|acc|] == acc
    decreases fuel, 0, |toks| - pos, 6
  {
    if IsReservedAt(toks, pos, ",") then
      var arg :- ParseAdd(g, fuel, toks, pos + 1);
      var r := ParseArgsTail(g, fuel, toks, acc + [arg.tree], arg.next);
      assert r.Ok? ==> r.value.tree[..|acc|] == (acc + [arg.tree])[..|acc|];
      r
    else
      Ok(Parsed(acc, pos))
  }

  /** `cell()`: the current symbol names a cell; its content is tokenized and parsed by
      a fresh parser, and the subtree is tagged with the address. */
  function ParseCell(g: string -> string, fuel: nat, toks: seq<Token>, pos: nat): (r: Result<Parsed<SyntaxTreeNode>>)
    ensures r.Ok? ==> pos < |toks| && toks[pos].Reserved? && r.value.next == pos + 1
    ensures r.Ok? ==> r.value.tree.cellAddress == Some(toks[pos].expr)
    decreases fuel, 0, |toks| - pos, 1
  {
    var address :- ExpectReservedAt(toks, pos);
    if fuel == 0 then Err(DepthExceeded)
    else
      var tree :- ParseCellContent(g, fuel - 1, address);
      Ok(Parsed(tree, pos + 1))
  }

  /** `init()` followed by `expr()` and `setAddress(address)` on a parser for `address`:
      the cell's content is tokenized and parsed from its first token. */
  function ParseCellContent(g: string -> string, fuel: nat, address: string): (r: Result<SyntaxTreeNode>)
    ensures r.Ok? ==> r.value.cellAddress == Some(address)
    decreases fuel, 1, 0, 0
  {
    var toks :- Tokens(g(address));
    var sub :- ParseAdd(g, fuel, toks, 0);
    Ok(sub.tree.SetAddress(address))
  }

  /** `parse()`: the expression at `pos`, its root tagged with the parser's own address.
      Tokens after the expression are left unread. */
  function ParseRoot(g: string -> string, fuel: nat, rootAddress: string, toks: seq<Token>, pos: nat)
    : (r: Result<SyntaxTreeNode>)
    ensures r.Ok? ==> r.value.cellAddress == Some(rootAddress)
  {
    var t :- ParseAdd(g, fuel, toks, pos);
    Ok(t.tree.SetAddress(rootAddress))
  }
}
