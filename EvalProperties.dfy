/** What `eval()` computes, stated against reference sums and products. */
module EvalProperties {
  import opened Wrappers
  import opened Utils
  import opened SyntaxTree

  /** Reference sum, folded from the right. */
  function Sum(vals: seq<real>): real {
    if vals == [] then 0.0 else vals[0] + Sum(vals[1..])
  }

  /** Reference product, folded from the right. */
  function Product(vals: seq<real>): real {
    if vals == [] then 1.0 else vals[0] * Product(vals[1..])
  }

  // ---------------------------------------------------------------------------
  // The left folds against the references
  // ---------------------------------------------------------------------------

  lemma {:induction false} FoldPlus(acc: real, rest: seq<real>)
    ensures FoldFrom(Plus, acc, rest) == acc + Sum(rest)
    decreases |rest|
  {
    if rest != [] {
      FoldPlus(acc + rest[0], rest[1..]);
    }
  }

  lemma {:induction false} FoldMinus(acc: real, rest: seq<real>)
    ensures FoldFrom(Minus, acc, rest) == acc - Sum(rest)
    decreases |rest|
  {
    if rest != [] {
      FoldMinus(acc - rest[0], rest[1..]);
    }
  }

  lemma {:induction false} FoldTimes(acc: real, rest: seq<real>)
    ensures FoldFrom(Times, acc, rest) == acc * Product(rest)
    decreases |rest|
  {
    if rest != [] {
      var next := acc * rest[0];
      var p := Product(rest[1..]);
      assert FoldFrom(Times, acc, rest) == FoldFrom(Times, next, rest[1..]);
      assert FoldFrom(Times, next, rest[1..]) == next * p by {
        FoldTimes(next, rest[1..]);
      }
      assert Product(rest) == rest[0] * p;
      assert next * p == acc * (rest[0] * p);
    }
  }

  lemma {:induction false} ProductNonZero(vals: seq<real>)
    requires NoZero(vals)
    ensures Product(vals) != 0.0
  {
    if vals != [] {
      assert NoZero(vals[1..]) by {
        forall i | 0 <= i < |vals[1..]| ensures vals[1..][i] != 0.0 {
          assert vals[1..][i] == vals[i + 1];
        }
      }
      ProductNonZero(vals[1..]);
      assert vals[0] != 0.0;
    }
  }

  lemma {:induction false} FoldOver(acc: real, rest: seq<real>)
    requires NoZero(rest)
    ensures Product(rest) != 0.0
    ensures FoldFrom(Over, acc, rest) == acc / Product(rest)
    decreases |rest|
  {
    ProductNonZero(rest);
    if rest != [] {
      assert NoZero(rest[1..]) by {
        forall i | 0 <= i < |rest[1..]| ensures rest[1..][i] != 0.0 {
          assert rest[1..][i] == rest[i + 1];
        }
      }
      assert rest[0] != 0.0;
      FoldOver(acc / rest[0], rest[1..]);
      var d, p := rest[0], Product(rest[1..]);
      assert acc / d / p == acc / (d * p) by {
        var q := acc / d;
        assert q * d == acc;
        assert (q / p) * (d * p) == q * d;
      }
    }
  }

  // ---------------------------------------------------------------------------
  // Children
  // ---------------------------------------------------------------------------

  /** The children are evaluated left to right: all succeed and give their values in
      order, or the result is the failure of the first child that fails. */
  lemma EvalAllMeaning(cs: seq<SyntaxTreeNode>)
    ensures EvalAll(cs).Ok? ==> forall i :: 0 <= i < |cs| ==> Eval(cs[i]) == Ok(EvalAll(cs).value[i])
    ensures EvalAll(cs).Err? ==>
      exists i :: 0 <= i < |cs| && Eval(cs[i]) == Err(EvalAll(cs).error)
                  && (forall j :: 0 <= j < i ==> Eval(cs[j]).Ok?)
    ensures (forall i :: 0 <= i < |cs| ==> Eval(cs[i]).Ok?) ==> EvalAll(cs).Ok?
  {
    EvalAllValues(cs);
    EvalAllFirstFailure(cs);
    EvalAllSucceeds(cs);
  }

  lemma {:induction false} EvalAllValues(cs: seq<SyntaxTreeNode>)
    ensures EvalAll(cs).Ok? ==> forall i :: 0 <= i < |cs| ==> Eval(cs[i]) == Ok(EvalAll(cs).value[i])
  {
    if cs != [] && EvalAll(cs).Ok? {
      EvalAllValues(cs[1..]);
      assert forall i :: 1 <= i < |cs| ==> cs[i] == cs[1..][i - 1];
    }
  }

  lemma {:induction false} EvalAllFirstFailure(cs: seq<SyntaxTreeNode>)
    ensures EvalAll(cs).Err? ==>
      exists i :: 0 <= i < |cs| && Eval(cs[i]) == Err(EvalAll(cs).error)
                  && (forall j :: 0 <= j < i ==> Eval(cs[j]).Ok?)
  {
    if cs != [] && EvalAll(cs).Err? {
      if Eval(cs[0]).Ok? {
        EvalAllFirstFailure(cs[1..]);
        var i :| 0 <= i < |cs[1..]| && Eval(cs[1..][i]) == Err(EvalAll(cs[1..]).error)
          && forall j :: 0 <= j < i ==> Eval(cs[1..][j]).Ok?;
        assert cs[i + 1] == cs[1..][i];
        assert forall j :: 1 <= j < i + 1 ==> cs[j] == cs[1..][j - 1];
      } else {
        assert Eval(cs[0]) == Err(EvalAll(cs).error);
      }
    }
  }

  lemma {:induction false} EvalAllSucceeds(cs: seq<SyntaxTreeNode>)
    ensures (forall i :: 0 <= i < |cs| ==> Eval(cs[i]).Ok?) ==> EvalAll(cs).Ok?
  {
    if cs != [] && forall i :: 0 <= i < |cs| ==> Eval(cs[i]).Ok? {
      assert forall i :: 0 <= i < |cs[1..]| ==> cs[1..][i] == cs[i + 1];
      EvalAllSucceeds(cs[1..]);
    }
  }

  /** A node whose evaluation succeeds had every child evaluate successfully. */
  lemma EvalNeedsChildren(n: SyntaxTreeNode)
    requires Eval(n).Ok?
    ensures forall i :: 0 <= i < |n.children| ==> Eval(n.children[i]).Ok?
  {
    EvalAllMeaning(n.children);
  }

  // ---------------------------------------------------------------------------
  // The node kinds, once the children have values
  // ---------------------------------------------------------------------------

  /** `reduce` with `+`, `-` and `*` against the references. */
  lemma ReduceMeaning(vals: seq<real>)
    ensures vals == [] ==>
      Reduce(Plus, vals) == Err(EmptyReduce) && Reduce(Minus, vals) == Err(EmptyReduce)
      && Reduce(Times, vals) == Err(EmptyReduce)
    ensures vals != [] ==> Reduce(Plus, vals) == Ok(Sum(vals))
    ensures vals != [] ==> Reduce(Minus, vals) == Ok(vals[0] - Sum(vals[1..]))
    ensures vals != [] ==> Reduce(Times, vals) == Ok(Product(vals))
  {
    if vals != [] {
      ReducePlus(vals);
      ReduceMinus(vals);
      ReduceTimes(vals);
    }
  }

  lemma ReducePlus(vals: seq<real>)
    requires vals != []
    ensures Reduce(Plus, vals) == Ok(Sum(vals))
  {
    var f := FoldFrom(Plus, vals[0], vals[1..]);
    assert f == vals[0] + Sum(vals[1..]) by {
      FoldPlus(vals[0], vals[1..]);
    }
    assert Reduce(Plus, vals) == Ok(f);
  }

  lemma ReduceMinus(vals: seq<real>)
    requires vals != []
    ensures Reduce(Minus, vals) == Ok(vals[0] - Sum(vals[1..]))
  {
    var f := FoldFrom(Minus, vals[0], vals[1..]);
    assert f == vals[0] - Sum(vals[1..]) by {
      FoldMinus(vals[0], vals[1..]);
    }
    assert Reduce(Minus, vals) == Ok(f);
  }

  lemma ReduceTimes(vals: seq<real>)
    requires vals != []
    ensures Reduce(Times, vals) == Ok(Product(vals))
  {
    var p := Product(vals[1..]);
    var f := FoldFrom(Times, vals[0], vals[1..]);
    assert f == vals[0] * p by {
      FoldTimes(vals[0], vals[1..]);
    }
    assert Product(vals) == vals[0] * p;
    assert Reduce(Times, vals) == Ok(f);
  }

  /** `ADD`, `SUB` and `MUL` fold the values from the left with `+`, `-`, `*`; each fails
      on a node without children. */
  lemma ArithmeticMeaning(n: SyntaxTreeNode)
    requires n.nodeType == ADD || n.nodeType == SUB || n.nodeType == MUL
    requires EvalAll(n.children).Ok?
    ensures var vals := EvalAll(n.children).value;
      && (vals == [] ==> Eval(n) == Err(EmptyReduce))
      && (vals != [] && n.nodeType == ADD ==> Eval(n) == Ok(Sum(vals)))
      && (vals != [] && n.nodeType == SUB ==> Eval(n) == Ok(vals[0] - Sum(vals[1..])))
      && (vals != [] && n.nodeType == MUL ==> Eval(n) == Ok(Product(vals)))
  {
    var vals := EvalAll(n.children).value;
    assert Eval(n) == EvalNode(n, vals);
    ReduceMeaning(vals);
  }

  /** `DIV` fails with a division by zero exactly when a value after the first is zero;
      otherwise it is the first value divided by the product of the others. */
  lemma DivisionMeaning(n: SyntaxTreeNode)
    requires n.nodeType == DIV
    requires EvalAll(n.children).Ok?
    ensures var vals := EvalAll(n.children).value;
      && (Eval(n) == Err(DivisionByZero) <==> ZeroDivisor(vals))
      && (!ZeroDivisor(vals) && vals == [] ==> Eval(n) == Err(EmptyReduce))
      && (!ZeroDivisor(vals) && vals != [] ==>
            Product(vals[1..]) != 0.0 && Eval(n) == Ok(vals[0] / Product(vals[1..])))
  {
    var vals := EvalAll(n.children).value;
    if !ZeroDivisor(vals) && vals != [] {
      assert NoZero(vals[1..]) by {
        forall i | 0 <= i < |vals[1..]| ensures vals[1..][i] != 0.0 {
          assert vals[1..][i] == vals[i + 1];
        }
      }
      FoldOver(vals[0], vals[1..]);
    }
  }

  /** A `LITERAL` gives its stored value, or fails when it has none. */
  lemma LiteralMeaning(n: SyntaxTreeNode)
    requires n.nodeType == LITERAL && n.children == []
    ensures n.value.None? ==> Eval(n) == Err(LiteralWithoutValue)
    ensures n.value.Some? ==> Eval(n) == Ok(n.value.value)
  {
    assert EvalAll(n.children) == Ok([]);
  }

  /** `FUNC`: no name fails; `SUM` is the sum, `AVERAGE` the sum over the count (both
      fail without arguments); `ROUND` needs exactly two arguments. */
  lemma FunctionMeaning(n: SyntaxTreeNode)
    requires n.nodeType == FUNC
    requires EvalAll(n.children).Ok?
    ensures var vals := EvalAll(n.children).value;
      && (n.funcName.None? ==> Eval(n) == Err(FuncWithoutName))
      && (n.funcName == Some(SUM) ==> Eval(n) == if vals == [] then Err(EmptyReduce) else Ok(Sum(vals)))
      && (n.funcName == Some(AVERAGE) ==>
            Eval(n) == if vals == [] then Err(EmptyReduce) else Ok(Sum(vals) / |vals| as real))
      && (n.funcName == Some(ROUND) ==>
            (Eval(n) == Err(RoundNeedsTwoArguments) <==> |n.children| != 2))
      && (n.funcName == Some(ROUND) && |n.children| == 2 ==>
            Eval(n) == Ok(RoundToPlaces(vals[0], vals[1])))
  {
    var vals := EvalAll(n.children).value;
    if vals != [] {
      FoldPlus(vals[0], vals[1..]);
    }
  }

  /** A tree of the parser's shape can fail to evaluate only by dividing by zero or by
      a `ROUND` without exactly two arguments. */
  lemma {:induction false} WellFormedFailures(n: SyntaxTreeNode)
    requires WellFormed(n)
    ensures Eval(n).Err? ==> Eval(n).error == DivisionByZero || Eval(n).error == RoundNeedsTwoArguments
    decreases n
  {
    EvalAllMeaning(n.children);
    if EvalAll(n.children).Err? {
      var i :| 0 <= i < |n.children| && Eval(n.children[i]) == Err(EvalAll(n.children).error)
        && (forall j :: 0 <= j < i ==> Eval(n.children[j]).Ok?);
      WellFormedFailures(n.children[i]);
    }
  }

  /** Tagging a node with an address does not change its value. */
  lemma EvalIgnoresAddress(n: SyntaxTreeNode, address: string)
    ensures Eval(n.SetAddress(address)) == Eval(n)
  {
    assert n.SetAddress(address).children == n.children;
  }

  // ---------------------------------------------------------------------------
  // Two operands
  // ---------------------------------------------------------------------------

  /** An operator node with two operands, as the parser builds it: both operands are
      evaluated, left first, and then combined. */
  function BinaryValue(t: NodeType, a: real, b: real): Result<real> {
    match t
    case ADD => Ok(a + b)
    case SUB => Ok(a - b)
    case MUL => Ok(a * b)
    case DIV => if b == 0.0 then Err(DivisionByZero) else Ok(a / b)
    case _ => Err(EmptyReduce)
  }

  lemma BinaryMeaning(t: NodeType, l: SyntaxTreeNode, r: SyntaxTreeNode)
    requires t == ADD || t == SUB || t == MUL || t == DIV
    ensures Eval(l).Err? ==> Eval(Binary(t, l, r)) == Err(Eval(l).error)
    ensures Eval(l).Ok? && Eval(r).Err? ==> Eval(Binary(t, l, r)) == Err(Eval(r).error)
    ensures Eval(l).Ok? && Eval(r).Ok? ==>
      Eval(Binary(t, l, r)) == BinaryValue(t, Eval(l).value, Eval(r).value)
  {
    var n := Binary(t, l, r);
    var rs := n.children[1..];
    assert rs == [r] && rs[0] == r && rs[1..] == [];
    assert EvalAll(rs[1..]) == Ok([]);
    assert Eval(r).Ok? ==> [Eval(r).value] + [] == [Eval(r).value];
    assert EvalAll(rs) == (if Eval(r).Ok? then Ok([Eval(r).value]) else Err(Eval(r).error));
    if Eval(l).Ok? && Eval(r).Ok? {
      var vals := [Eval(l).value, Eval(r).value];
      assert n.children[0] == l;
      assert [Eval(l).value] + [Eval(r).value] == vals;
      assert EvalAll(n.children) == Ok(vals);
      assert vals[1..] == [vals[1]] && vals[1..][1..] == [];
      assert ZeroDivisor(vals) <==> vals[1] == 0.0;
      assert Eval(n) == EvalNode(n, vals);
      match t
      case ADD => ReducePair(Plus, vals[0], vals[1]);
      case SUB => ReducePair(Minus, vals[0], vals[1]);
      case MUL => ReducePair(Times, vals[0], vals[1]);
      case DIV =>
        if vals[1] != 0.0 {
          ReducePair(Over, vals[0], vals[1]);
        }
    }
  }

  /** Folding two values applies the operator once. */
  lemma ReducePair(op: Operator, a: real, b: real)
    requires op == Over ==> b != 0.0
    ensures op == Over ==> NoZero([a, b][1..])
    ensures Reduce(op, [a, b]) == Ok(Apply(op, a, b))
  {
    assert [a, b][1..] == [b] && [b][1..] == [];
    assert FoldFrom(op, a, [b]) == FoldFrom(op, Apply(op, a, b), []);
  }

  // ---------------------------------------------------------------------------
  // Worked examples from parser.test.ts
  // ---------------------------------------------------------------------------

  /** A function call over literal arguments. */
  function Call(name: FuncName, args: seq<real>): SyntaxTreeNode {
    SyntaxTreeNode(FUNC, seq(|args|, i requires 0 <= i < |args| => Literal(args[i], None)), None, Some(name), None)
  }

  lemma {:induction false} EvalLiterals(args: seq<real>)
    ensures EvalAll(seq(|args|, i requires 0 <= i < |args| => Literal(args[i], None))) == Ok(args)
  {
    var cs := seq(|args|, i requires 0 <= i < |args| => Literal(args[i], None));
    if args != [] {
      assert EvalAll(cs[0].children) == Ok([]);
      assert cs[1..] == seq(|args[1..]|, i requires 0 <= i < |args[1..]| => Literal(args[1..][i], None));
      EvalLiterals(args[1..]);
      assert [args[0]] + args[1..] == args;
    }
  }

  /** A call on literal arguments evaluates to what `FunctionMeaning` says of them. */
  lemma CallMeaning(name: FuncName, args: seq<real>)
    ensures name == SUM ==> Eval(Call(name, args)) == if args == [] then Err(EmptyReduce) else Ok(Sum(args))
    ensures name == AVERAGE ==>
      Eval(Call(name, args)) == if args == [] then Err(EmptyReduce) else Ok(Sum(args) / |args| as real)
    ensures name == ROUND ==> (Eval(Call(name, args)) == Err(RoundNeedsTwoArguments) <==> |args| != 2)
  {
    EvalLiterals(args);
    FunctionMeaning(Call(name, args));
  }

  lemma SumOfThree(a: real, b: real, c: real)
    ensures Sum([a, b, c]) == a + b + c
  {
    assert [a, b, c][1..] == [b, c] && [b, c][1..] == [c] && [c][1..] == [];
    assert Sum([c]) == c;
    assert Sum([b, c]) == b + c;
  }

  lemma AverageOfThree(a: real, b: real, c: real)
    ensures Eval(Call(AVERAGE, [a, b, c])) == Ok((a + b + c) / 3.0)
  {
    CallMeaning(AVERAGE, [a, b, c]);
    SumOfThree(a, b, c);
    assert |[a, b, c]| as real == 3.0;
  }

  lemma EvalExamples()
    ensures Eval(Call(SUM, [1.0, 5.0, 8.0])) == Ok(14.0)
    ensures Eval(Call(AVERAGE, [3.0, 12.0, 15.0])) == Ok(10.0)
    ensures Eval(Call(ROUND, [1.0])) == Err(RoundNeedsTwoArguments)
    ensures Eval(Call(SUM, [])) == Err(EmptyReduce)
  {
    CallMeaning(SUM, [1.0, 5.0, 8.0]);
    SumOfThree(1.0, 5.0, 8.0);
    AverageOfThree(3.0, 12.0, 15.0);
    CallMeaning(ROUND, [1.0]);
    CallMeaning(SUM, []);
  }
}
