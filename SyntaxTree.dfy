/** The syntax tree of src/features/Excel/utils/syntaxTree.ts and its evaluator. */
module SyntaxTree {
  import opened Wrappers
  import opened Utils

  datatype NodeType = ADD | SUB | MUL | DIV | LITERAL | FUNC

  /** The function-name whitelist of parser.ts. */
  datatype FuncName = SUM | AVERAGE | ROUND

  datatype SyntaxTreeNode = SyntaxTreeNode(
    nodeType: NodeType,
    children: seq<SyntaxTreeNode>,
    value: Option<real>,
    funcName: Option<FuncName>,
    cellAddress: Option<string>)
  {
    /** `setAddress`: the same node, now tagged with `address`. */
    function SetAddress(address: string): (r: SyntaxTreeNode)
      ensures r.cellAddress == Some(address)
      ensures r.nodeType == nodeType && r.children == children
      ensures r.value == value && r.funcName == funcName
    {
      this.(cellAddress := Some(address))
    }
  }

  /** A `LITERAL` node, as `createNumberNode` builds it. */
  function Literal(value: real, cellAddress: Option<string>): SyntaxTreeNode {
    SyntaxTreeNode(LITERAL, [], Some(value), None, cellAddress)
  }

  /** A node with an operator kind and two operands, as `add`, `mul` and `unary` build it. */
  function Binary(nodeType: NodeType, left: SyntaxTreeNode, right: SyntaxTreeNode): SyntaxTreeNode {
    SyntaxTreeNode(nodeType, [left, right], None, None, None)
  }

  /** The shape every tree built by the parser has: operator nodes have two operands, a
      `LITERAL` has a value and no children, a `FUNC` has a name and an argument. */
  ghost predicate WellFormed(n: SyntaxTreeNode)
    decreases n
  {
    && (match n.nodeType
        case LITERAL => n.children == [] && n.value.Some?
        case FUNC => n.funcName.Some? && |n.children| >= 1
        case _ => |n.children| == 2)
    && forall i :: 0 <= i < |n.children| ==> WellFormed(n.children[i])
  }

  // ---------------------------------------------------------------------------
  // Folding the children's values
  // ---------------------------------------------------------------------------

  datatype Operator = Plus | Minus | Times | Over

  function Apply(op: Operator, a: real, b: real): real
    requires op == Over ==> b != 0.0
  {
    match op
    case Plus => a + b
    case Minus => a - b
    case Times => a * b
    case Over => a / b
  }

  ghost predicate NoZero(vals: seq<real>) {
    forall i :: 0 <= i < |vals| ==> vals[i] != 0.0
  }

  /** `reduce` with the accumulator started at `acc`. */
  function FoldFrom(op: Operator, acc: real, rest: seq<real>): real
    requires op == Over ==> NoZero(rest)
    decreases |rest|
  {
    if rest == [] then acc else FoldFrom(op, Apply(op, acc, rest[0]), rest[1..])
  }

  /** `reduce` without an initial value: the first value starts the fold, and an empty
      array fails (a `TypeError` in the source). */
  function Reduce(op: Operator, vals: seq<real>): Result<real>
    requires op == Over ==> vals == [] || NoZero(vals[1..])
  {
    if vals == [] then Err(EmptyReduce) else Ok(FoldFrom(op, vals[0], vals[1..]))
  }

  /** Some value after the first is zero. */
  predicate ZeroDivisor(vals: seq<real>) {
    exists i :: 1 <= i < |vals| && vals[i] == 0.0
  }

  // ---------------------------------------------------------------------------
  // Evaluation
  // ---------------------------------------------------------------------------

  /** `eval()`: every child is evaluated first, left to right, and the first failure
      wins; then the node's own case applies. */
  function Eval(n: SyntaxTreeNode): Result<real>
    decreases n, 1
  {
    var vals :- EvalAll(n.children);
    EvalNode(n, vals)
  }

  /** `children.map((c) => c.eval())`. */
  function EvalAll(cs: seq<SyntaxTreeNode>): (r: Result<seq<real>>)
    ensures r.Ok? ==> |r.value| == |cs|
    decreases cs, 0
  {
    if cs == [] then Ok([])
    else
      var v :- Eval(cs[0]);
      var vs :- EvalAll(cs[1..]);
      Ok([v] + vs)
  }

  /** The `switch` of `eval()`, given the values of the children. */
  function EvalNode(n: SyntaxTreeNode, vals: seq<real>): Result<real>
    requires |vals| == |n.children|
  {
    match n.nodeType
    case ADD => Reduce(Plus, vals)
    case SUB => Reduce(Minus, vals)
    case MUL => Reduce(Times, vals)
    case DIV =>
      if ZeroDivisor(vals) then Err(DivisionByZero)
      else
        assert vals == [] || NoZero(vals[1..]) by {
          if vals != [] {
            forall i | 0 <= i < |vals[1..]| ensures vals[1..][i] != 0.0 {
              assert vals[1..][i] == vals[i + 1];
            }
          }
        }
        Reduce(Over, vals)
    case LITERAL =>
      if n.value.None? then Err(LiteralWithoutValue) else Ok(n.value.value)
    case FUNC =>
      match n.funcName
      case None => Err(FuncWithoutName)
      case Some(SUM) => Reduce(Plus, vals)
      case Some(AVERAGE) =>
        var sum :- Reduce(Plus, vals);
        Ok(sum / |vals| as real)
      case Some(ROUND) =>
        if |vals| != 2 then Err(RoundNeedsTwoArguments)
        else Ok(RoundToPlaces(vals[0], vals[1]))
  }
}
