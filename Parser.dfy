/** The `Parser` class of src/features/Excel/utils/parser.ts: a token array and a
    `position` cursor that the recursive-descent methods advance. Each method is proved
    to compute what the matching function of `Grammar` describes. */
module Parsing {
  import opened Wrappers
  import opened Utils
  import opened Tokenizer
  import opened SyntaxTree
  import opened Grammar

  /** A method's result `r`, with the cursor left at `pos`, agrees with the grammar's
      `spec`: the same failure, or the same tree with the cursor after it. */
  ghost predicate Agrees<T>(r: Result<T>, pos: nat, spec: Result<Parsed<T>>) {
    match spec
    case Ok(p) => r == Ok(p.tree) && pos == p.next
    case Err(e) => r == Err(e)
  }

  class Parser {
    var position: nat
    var tokens: seq<Token>
    const rootAddress: string
    const getFormula: string -> string
    /** How many nested cell expansions this parser may still make. */
    const depth: nat

    /** `new Parser(rootAddress, getFormula, tokens)`. */
    constructor (rootAddress: string, getFormula: string -> string, depth: nat, tokens: seq<Token>)
      ensures this.rootAddress == rootAddress && this.getFormula == getFormula
      ensures this.depth == depth && this.tokens == tokens && position == 0
    {
      this.rootAddress := rootAddress;
      this.getFormula := getFormula;
      this.depth := depth;
      this.tokens := tokens;
      position := 0;
    }

    /** `isCurNumber()` */
    method IsCurNumber() returns (b: bool)
      ensures b <==> IsNumberAt(tokens, position)
    {
      if position >= |tokens| {
        return false;
      }
      return tokens[position].Num?;
    }

    /** `consume(expected)`: advance by one exactly when the current token is the symbol
      `expected`. */
    method Consume(expected: string) returns (b: bool)
      modifies this`position
      ensures b <==> IsReservedAt(tokens, old(position), expected)
      ensures position == if b then old(position) + 1 else old(position)
    {
      if position >= |tokens| {
        return false;
      }
      var token := tokens[position];
      if !token.Reserved? || token.expr != expected {
        return false;
      }
      position := position + 1;
      return true;
    }

    /** `consumeFuncName()`: advance by one exactly when the current token is a
        whitelisted function name. */
    method ConsumeFuncName() returns (name: Option<FuncName>)
      modifies this`position
      ensures name == FuncNameAt(tokens, old(position))
      ensures position == if name.Some? then old(position) + 1 else old(position)
    {
      if position >= |tokens| {
        return None;
      }
      var token := tokens[position];
      if !token.Reserved? || FuncNameOf(token.expr).None? {
        return None;
      }
      position := position + 1;
      return FuncNameOf(token.expr);
    }

    /** `expect(expected)` */
    method Expect(expected: string) returns (o: Outcome)
      modifies this`position
      ensures o == ExpectAt(tokens, old(position), expected)
      ensures position == if o.Pass? then old(position) + 1 else old(position)
    {
      if position >= |tokens| {
        return Fail(Unexpected(expected, EndOfInput));
      }
      var token := tokens[position];
      if token.Num? {
        return Fail(Unexpected(expected, FoundNumber(token.value)));
      }
      if token.expr != expected {
        return Fail(Unexpected(expected, FoundSymbol(token.expr)));
      }
      position := position + 1;
      return Pass;
    }

    /** `expectNumber()` */
    method ExpectNumber() returns (r: Result<real>)
      modifies this`position
      ensures r == ExpectNumberAt(tokens, old(position))
      ensures position == if r.Ok? then old(position) + 1 else old(position)
    {
      if position >= |tokens| {
        return Err(Unexpected("number", EndOfInput));
      }
      var token := tokens[position];
      if token.Reserved? {
        return Err(Unexpected("number", FoundSymbol(token.expr)));
      }
      position := position + 1;
      return Ok(token.value);
    }

    /** `expectReserved()` */
    method ExpectReserved() returns (r: Result<string>)
      modifies this`position
      ensures r == ExpectReservedAt(tokens, old(position))
      ensures position == if r.Ok? then old(position) + 1 else old(position)
    {
      if position >= |tokens| {
        return Err(Unexpected("number", EndOfInput));
      }
      var token := tokens[position];
      if token.Num? {
        return Err(Unexpected("number", FoundNumber(token.value)));
      }
      position := position + 1;
      return Ok(token.expr);
    }

    /** `expr()` */
    method Expr() returns (r: Result<SyntaxTreeNode>)
      modifies this`position
      ensures Agrees(r, position, ParseAdd(getFormula, depth, tokens, old(position)))
      decreases depth, 0, |tokens| - position, 7
    {
      r := Add();
    }

    /** `add()` */
    method Add() returns (r: Result<SyntaxTreeNode>)
      modifies this`position
      ensures Agrees(r, position, ParseAdd(getFormula, depth, tokens, old(position)))
      decreases depth, 0, |tokens| - position, 5
    {
      var node :- Mul();
      while true
        invariant old(position) < position <= |tokens|
        invariant ParseAdd(getFormula, depth, tokens, old(position))
          == ParseAddTail(getFormula, depth, tokens, node, position)
        decreases |tokens| - position
      {
        var plus := Consume("+");
        if plus {
          var right :- Mul();
          node := Binary(ADD, node, right);
        } else {
          var minus := Consume("-");
          if minus {
            var right :- Mul();
            node := Binary(SUB, node, right);
          } else {
            return Ok(node);
          }
        }
      }
    }

    /** `mul()` */
    method Mul() returns (r: Result<SyntaxTreeNode>)
      modifies this`position
      ensures Agrees(r, position, ParseMul(getFormula, depth, tokens, old(position)))
      decreases depth, 0, |tokens| - position, 4
    {
      var node :- Unary();
      while true
        invariant old(position) < position <= |tokens|
        invariant ParseMul(getFormula, depth, tokens, old(position))
          == ParseMulTail(getFormula, depth, tokens, node, position)
        decreases |tokens| - position
      {
        var times := Consume("*");
        if times {
          var right :- Unary();
          node := Binary(MUL, node, right);
        } else {
          var over := Consume("/");
          if over {
            var right :- Unary();
            node := Binary(DIV, node, right);
          } else {
            return Ok(node);
          }
        }
      }
    }

    /** `unary()` */
    method Unary() returns (r: Result<SyntaxTreeNode>)
      modifies this`position
      ensures Agrees(r, position, ParseUnary(getFormula, depth, tokens, old(position)))
      decreases depth, 0, |tokens| - position, 3
    {
      var minus := Consume("-");
      if minus {
        var operand :- Primary();
        return Ok(Binary(SUB, Literal(0.0, None), operand));
      }
      r := Primary();
    }

    /** `primary()` */
    method Primary() returns (r: Result<SyntaxTreeNode>)
      modifies this`position
      ensures Agrees(r, position, ParsePrimary(getFormula, depth, tokens, old(position)))
      decreases depth, 0, |tokens| - position, 2
    {
      var isNumber := IsCurNumber();
      if isNumber {
        var value := ExpectNumber();
        return Ok(Literal(value.value, None));
      }
      var paren := Consume("(");
      if paren {
        var node :- Add();
        :- Expect(")");
        return Ok(node);
      }
      var name := ConsumeFuncName();
      if name.Some? {
        :- Expect("(");
        var args :- Args();
        :- Expect(")");
        return Ok(SyntaxTreeNode(FUNC, args, None, name, None));
      }
      r := Cell();
    }

    /** `args()` */
    method Args() returns (r: Result<seq<SyntaxTreeNode>>)
      modifies this`position
      ensures Agrees(r, position, ParseArgs(getFormula, depth, tokens, old(position)))
      decreases depth, 0, |tokens| - position, 6
    {
      var first :- Add();
      var res := [first];
      while true
        invariant old(position) < position <= |tokens|
        invariant ParseArgs(getFormula, depth, tokens, old(position))
          == ParseArgsTail(getFormula, depth, tokens, res, position)
        decreases |tokens| - position
      {
        var comma := Consume(",");
        if !comma {
          break;
        }
        var arg :- Add();
        res := res + [arg];
      }
      return Ok(res);
    }

    /** `cell()`: a fresh parser for the named cell reads that cell's content. */
    method Cell() returns (r: Result<SyntaxTreeNode>)
      modifies this`position
      ensures Agrees(r, position, ParseCell(getFormula, depth, tokens, old(position)))
      decreases depth, 0, |tokens| - position, 1
    {
      var address :- ExpectReserved();
      if depth == 0 {
        return Err(DepthExceeded);
      }
      var parser := new Parser(address, getFormula, depth - 1, []);
      :- parser.Init();
      var subTree :- parser.Expr();
      return Ok(subTree.SetAddress(address));
    }

    /** `init()`: the tokens of this parser's own cell. */
    method Init() returns (o: Outcome)
      modifies this`tokens
      ensures Tokens(getFormula(rootAddress)).Ok? ==>
        o == Pass && tokens == Tokens(getFormula(rootAddress)).value
      ensures Tokens(getFormula(rootAddress)).Err? ==>
        o == Fail(Tokens(getFormula(rootAddress)).error) && tokens == old(tokens)
    {
      var toks := Tokenize(getFormula(rootAddress));
      if toks.Err? {
        return Fail(toks.error);
      }
      tokens := toks.value;
      return Pass;
    }

    /** `parse()` */
    method Parse() returns (r: Result<SyntaxTreeNode>)
      modifies this`position
      ensures r == ParseRoot(getFormula, depth, rootAddress, tokens, old(position))
    {
      var tree :- Expr();
      return Ok(tree.SetAddress(rootAddress));
    }
  }
}
