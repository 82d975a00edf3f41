/** Properties of the grammar, each proved by an induction that follows the parse
    functions' own mutual recursion: the shape of every tree the parser builds, that the
    cell-expansion bound only cuts recursion short, and that a parse reads a prefix of
    the tokens. */
module GrammarProperties {
  import opened Wrappers
  import opened Tokenizer
  import opened SyntaxTree
  import opened Grammar

  lemma FuncNameRoundTrip(s: string, f: FuncName)
    ensures FuncNameOf(s) == Some(f) <==> s == FuncNameText(f)
    ensures FuncNameOf(FuncNameText(f)) == Some(f)
  {
  }

  /** The whitelist holds exactly `SUM`, `AVERAGE` and `ROUND`. */
  lemma FuncNameWhitelist(s: string)
    ensures FuncNameOf(s).Some? <==> s == "SUM" || s == "AVERAGE" || s == "ROUND"
  {
  }

  // ---------------------------------------------------------------------------
  // Every tree the parser builds is well formed
  // ---------------------------------------------------------------------------

  lemma BinaryShape(t: NodeType, l: SyntaxTreeNode, r: SyntaxTreeNode)
    requires t == ADD || t == SUB || t == MUL || t == DIV
    requires WellFormed(l) && WellFormed(r)
    ensures WellFormed(Binary(t, l, r))
  {
    var n := Binary(t, l, r);
    assert n.children[0] == l && n.children[1] == r;
  }

  lemma {:induction false} AddShape(g: string -> string, fuel: nat, toks: seq<Token>, pos: nat)
    ensures var r := ParseAdd(g, fuel, toks, pos); r.Ok? ==> WellFormed(r.value.tree)
    decreases fuel, 0, |toks| - pos, 5
  {
    MulShape(g, fuel, toks, pos);
    var left := ParseMul(g, fuel, toks, pos);
    if left.Ok? {
      AddTailShape(g, fuel, toks, left.value.tree, left.value.next);
    }
  }

  lemma {:induction false} AddTailShape(g: string -> string, fuel: nat, toks: seq<Token>, node: SyntaxTreeNode, pos: nat)
    requires pos <= |toks| && WellFormed(node)
    ensures var r := ParseAddTail(g, fuel, toks, node, pos); r.Ok? ==> WellFormed(r.value.tree)
    decreases fuel, 0, |toks| - pos, 5
  {
    if IsReservedAt(toks, pos, "+") || IsReservedAt(toks, pos, "-") {
      MulShape(g, fuel, toks, pos + 1);
      var right := ParseMul(g, fuel, toks, pos + 1);
      if right.Ok? {
        var t := if IsReservedAt(toks, pos, "+") then ADD else SUB;
        BinaryShape(t, node, right.value.tree);
        AddTailShape(g, fuel, toks, Binary(t, node, right.value.tree), right.value.next);
      }
    }
  }

  lemma {:induction false} MulShape(g: string -> string, fuel: nat, toks: seq<Token>, pos: nat)
    ensures var r := ParseMul(g, fuel, toks, pos); r.Ok? ==> WellFormed(r.value.tree)
    decreases fuel, 0, |toks| - pos, 4
  {
    UnaryShape(g, fuel, toks, pos);
    var left := ParseUnary(g, fuel, toks, pos);
    if left.Ok? {
      MulTailShape(g, fuel, toks, left.value.tree, left.value.next);
    }
  }

  lemma {:induction false} MulTailShape(g: string -> string, fuel: nat, toks: seq<Token>, node: SyntaxTreeNode, pos: nat)
    requires pos <= |toks| && WellFormed(node)
    ensures var r := ParseMulTail(g, fuel, toks, node, pos); r.Ok? ==> WellFormed(r.value.tree)
    decreases fuel, 0, |toks| - pos, 4
  {
    if IsReservedAt(toks, pos, "*") || IsReservedAt(toks, pos, "/") {
      UnaryShape(g, fuel, toks, pos + 1);
      var right := ParseUnary(g, fuel, toks, pos + 1);
      if right.Ok? {
        var t := if IsReservedAt(toks, pos, "*") then MUL else DIV;
        BinaryShape(t, node, right.value.tree);
        MulTailShape(g, fuel, toks, Binary(t, node, right.value.tree), right.value.next);
      }
    }
  }

  lemma {:induction false} UnaryShape(g: string -> string, fuel: nat, toks: seq<Token>, pos: nat)
    ensures var r := ParseUnary(g, fuel, toks, pos); r.Ok? ==> WellFormed(r.value.tree)
    decreases fuel, 0, |toks| - pos, 3
  {
    if IsReservedAt(toks, pos, "-") {
      PrimaryShape(g, fuel, toks, pos + 1);
      var operand := ParsePrimary(g, fuel, toks, pos + 1);
      if operand.Ok? {
        BinaryShape(SUB, Literal(0.0, None), operand.value.tree);
      }
    } else {
      PrimaryShape(g, fuel, toks, pos);
    }
  }

  lemma {:induction false} PrimaryShape(g: string -> string, fuel: nat, toks: seq<Token>, pos: nat)
    ensures var r := ParsePrimary(g, fuel, toks, pos); r.Ok? ==> WellFormed(r.value.tree)
    decreases fuel, 0, |toks| - pos, 2
  {
    if IsNumberAt(toks, pos) {
    } else if IsReservedAt(toks, pos, "(") {
      AddShape(g, fuel, toks, pos + 1);
    } else if FuncNameAt(toks, pos).Some? {
      ArgsShape(g, fuel, toks, pos + 2);
    } else {
      CellShape(g, fuel, toks, pos);
    }
  }

  lemma {:induction false} ArgsShape(g: string -> string, fuel: nat, toks: seq<Token>, pos: nat)
    ensures var r := ParseArgs(g, fuel, toks, pos);
      r.Ok? ==> forall i :: 0 <= i < |r.value.tree| ==> WellFormed(r.value.tree[i])
    decreases fuel, 0, |toks| - pos, 6
  {
    AddShape(g, fuel, toks, pos);
    var first := ParseAdd(g, fuel, toks, pos);
    if first.Ok? {
      ArgsTailShape(g, fuel, toks, [first.value.tree], first.value.next);
    }
  }

  lemma {:induction false} ArgsTailShape(g: string -> string, fuel: nat, toks: seq<Token>, acc: seq<SyntaxTreeNode>, pos: nat)
    requires pos <= |toks| && forall i :: 0 <= i < |acc| ==> WellFormed(acc[i])
    ensures var r := ParseArgsTail(g, fuel, toks, acc, pos);
      r.Ok? ==> forall i :: 0 <= i < |r.value.tree| ==> WellFormed(r.value.tree[i])
    decreases fuel, 0, |toks| - pos, 6
  {
    if IsReservedAt(toks, pos, ",") {
      AddShape(g, fuel, toks, pos + 1);
      var arg := ParseAdd(g, fuel, toks, pos + 1);
      if arg.Ok? {
        var acc' := acc + [arg.value.tree];
        assert forall i :: 0 <= i < |acc'| ==> WellFormed(acc'[i]) by {
          forall i | 0 <= i < |acc'| ensures WellFormed(acc'[i]) {
            if i < |acc| { assert acc'[i] == acc[i]; }
          }
        }
        ArgsTailShape(g, fuel, toks, acc', arg.value.next);
        var r' := ParseArgsTail(g, fuel, toks, acc', arg.value.next);
        assert r'.Ok? ==> forall i :: 0 <= i < |r'.value.tree| ==> WellFormed(r'.value.tree[i]);
        assert ParseArgsTail(g, fuel, toks, acc, pos) == r';
      }
    }
  }

  lemma {:induction false} CellShape(g: string -> string, fuel: nat, toks: seq<Token>, pos: nat)
    ensures var r := ParseCell(g, fuel, toks, pos); r.Ok? ==> WellFormed(r.value.tree)
    decreases fuel, 0, |toks| - pos, 1
  {
    var address := ExpectReservedAt(toks, pos);
    if address.Ok? && fuel > 0 {
      CellContentShape(g, fuel - 1, address.value);
    }
  }

  lemma {:induction false} CellContentShape(g: string -> string, fuel: nat, address: string)
    ensures var r := ParseCellContent(g, fuel, address); r.Ok? ==> WellFormed(r.value)
    decreases fuel, 1, 0, 0
  {
    var toks := Tokens(g(address));
    if toks.Ok? {
      AddShape(g, fuel, toks.value, 0);
    }
  }

  /** The tree `parse()` returns is well formed. */
  lemma RootShape(g: string -> string, fuel: nat, rootAddress: string, toks: seq<Token>, pos: nat)
    ensures var r := ParseRoot(g, fuel, rootAddress, toks, pos); r.Ok? ==> WellFormed(r.value)
  {
    AddShape(g, fuel, toks, pos);
  }

  // ---------------------------------------------------------------------------
  // The expansion bound only cuts recursion short
  // ---------------------------------------------------------------------------

  lemma {:induction false} AddFuel(g: string -> string, fuel: nat, more: nat, toks: seq<Token>, pos: nat)
    requires fuel <= more
    ensures ParseAdd(g, fuel, toks, pos) != Err(DepthExceeded) ==>
      ParseAdd(g, more, toks, pos) == ParseAdd(g, fuel, toks, pos)
    decreases fuel, 0, |toks| - pos, 5
  {
    MulFuel(g, fuel, more, toks, pos);
    var left := ParseMul(g, fuel, toks, pos);
    if left.Ok? {
      AddTailFuel(g, fuel, more, toks, left.value.tree, left.value.next);
    }
  }

  lemma {:induction false} AddTailFuel(g: string -> string, fuel: nat, more: nat, toks: seq<Token>, node: SyntaxTreeNode, pos: nat)
    requires pos <= |toks| && fuel <= more
    ensures ParseAddTail(g, fuel, toks, node, pos) != Err(DepthExceeded) ==>
      ParseAddTail(g, more, toks, node, pos) == ParseAddTail(g, fuel, toks, node, pos)
    decreases fuel, 0, |toks| - pos, 5
  {
    if IsReservedAt(toks, pos, "+") || IsReservedAt(toks, pos, "-") {
      MulFuel(g, fuel, more, toks, pos + 1);
      var right := ParseMul(g, fuel, toks, pos + 1);
      if right.Ok? {
        var t := if IsReservedAt(toks, pos, "+") then ADD else SUB;
        AddTailFuel(g, fuel, more, toks, Binary(t, node, right.value.tree), right.value.next);
      }
    }
  }

  lemma {:induction false} MulFuel(g: string -> string, fuel: nat, more: nat, toks: seq<Token>, pos: nat)
    requires fuel <= more
    ensures ParseMul(g, fuel, toks, pos) != Err(DepthExceeded) ==>
      ParseMul(g, more, toks, pos) == ParseMul(g, fuel, toks, pos)
    decreases fuel, 0, |toks| - pos, 4
  {
    UnaryFuel(g, fuel, more, toks, pos);
    var left := ParseUnary(g, fuel, toks, pos);
    if left.Ok? {
      MulTailFuel(g, fuel, more, toks, left.value.tree, left.value.next);
    }
  }

  lemma {:induction false} MulTailFuel(g: string -> string, fuel: nat, more: nat, toks: seq<Token>, node: SyntaxTreeNode, pos: nat)
    requires pos <= |toks| && fuel <= more
    ensures ParseMulTail(g, fuel, toks, node, pos) != Err(DepthExceeded) ==>
      ParseMulTail(g, more, toks, node, pos) == ParseMulTail(g, fuel, toks, node, pos)
    decreases fuel, 0, |toks| - pos, 4
  {
    if IsReservedAt(toks, pos, "*") || IsReservedAt(toks, pos, "/") {
      UnaryFuel(g, fuel, more, toks, pos + 1);
      var right := ParseUnary(g, fuel, toks, pos + 1);
      if right.Ok? {
        var t := if IsReservedAt(toks, pos, "*") then MUL else DIV;
        MulTailFuel(g, fuel, more, toks, Binary(t, node, right.value.tree), right.value.next);
      }
    }
  }

  lemma {:induction false} UnaryFuel(g: string -> string, fuel: nat, more: nat, toks: seq<Token>, pos: nat)
    requires fuel <= more
    ensures ParseUnary(g, fuel, toks, pos) != Err(DepthExceeded) ==>
      ParseUnary(g, more, toks, pos) == ParseUnary(g, fuel, toks, pos)
    decreases fuel, 0, |toks| - pos, 3
  {
    if IsReservedAt(toks, pos, "-") {
      PrimaryFuel(g, fuel, more, toks, pos + 1);
    } else {
      PrimaryFuel(g, fuel, more, toks, pos);
    }
  }

  lemma {:induction false} PrimaryFuel(g: string -> string, fuel: nat, more: nat, toks: seq<Token>, pos: nat)
    requires fuel <= more
    ensures ParsePrimary(g, fuel, toks, pos) != Err(DepthExceeded) ==>
      ParsePrimary(g, more, toks, pos) == ParsePrimary(g, fuel, toks, pos)
    decreases fuel, 0, |toks| - pos, 2
  {
    if IsNumberAt(toks, pos) {
    } else if IsReservedAt(toks, pos, "(") {
      AddFuel(g, fuel, more, toks, pos + 1);
    } else if FuncNameAt(toks, pos).Some? {
      ArgsFuel(g, fuel, more, toks, pos + 2);
    } else {
      CellFuel(g, fuel, more, toks, pos);
    }
  }

  lemma {:induction false} ArgsFuel(g: string -> string, fuel: nat, more: nat, toks: seq<Token>, pos: nat)
    requires fuel <= more
    ensures ParseArgs(g, fuel, toks, pos) != Err(DepthExceeded) ==>
      ParseArgs(g, more, toks, pos) == ParseArgs(g, fuel, toks, pos)
    decreases fuel, 0, |toks| - pos, 6
  {
    AddFuel(g, fuel, more, toks, pos);
    var first := ParseAdd(g, fuel, toks, pos);
    if first.Ok? {
      ArgsTailFuel(g, fuel, more, toks, [first.value.tree], first.value.next);
    }
  }

  lemma {:induction false} ArgsTailFuel(g: string -> string, fuel: nat, more: nat, toks: seq<Token>, acc: seq<SyntaxTreeNode>, pos: nat)
    requires pos <= |toks| && fuel <= more
    ensures ParseArgsTail(g, fuel, toks, acc, pos) != Err(DepthExceeded) ==>
      ParseArgsTail(g, more, toks, acc, pos) == ParseArgsTail(g, fuel, toks, acc, pos)
    decreases fuel, 0, |toks| - pos, 6
  {
    if IsReservedAt(toks, pos, ",") {
      AddFuel(g, fuel, more, toks, pos + 1);
      var arg := ParseAdd(g, fuel, toks, pos + 1);
      if arg.Ok? {
        ArgsTailFuel(g, fuel, more, toks, acc + [arg.value.tree], arg.value.next);
      }
    }
  }

  lemma {:induction false} CellFuel(g: string -> string, fuel: nat, more: nat, toks: seq<Token>, pos: nat)
    requires fuel <= more
    ensures ParseCell(g, fuel, toks, pos) != Err(DepthExceeded) ==>
      ParseCell(g, more, toks, pos) == ParseCell(g, fuel, toks, pos)
    decreases fuel, 0, |toks| - pos, 1
  {
    var address := ExpectReservedAt(toks, pos);
    if address.Ok? && fuel > 0 {
      CellContentFuel(g, fuel - 1, more - 1, address.value);
    }
  }

  lemma {:induction false} CellContentFuel(g: string -> string, fuel: nat, more: nat, address: string)
    requires fuel <= more
    ensures ParseCellContent(g, fuel, address) != Err(DepthExceeded) ==>
      ParseCellContent(g, more, address) == ParseCellContent(g, fuel, address)
    decreases fuel, 1, 0, 0
  {
    var toks := Tokens(g(address));
    if toks.Ok? {
      AddFuel(g, fuel, more, toks.value, 0);
    }
  }

  /** Raising the bound on nested cell expansions changes no result but the failure
      that says the bound was hit: the bound only stands in for the call stack. */
  lemma RootFuel(g: string -> string, fuel: nat, more: nat, rootAddress: string, toks: seq<Token>, pos: nat)
    requires fuel <= more
    ensures ParseRoot(g, fuel, rootAddress, toks, pos) != Err(DepthExceeded) ==>
      ParseRoot(g, more, rootAddress, toks, pos) == ParseRoot(g, fuel, rootAddress, toks, pos)
  {
    AddFuel(g, fuel, more, toks, pos);
  }

  // ---------------------------------------------------------------------------
  // A parse reads a prefix of the tokens
  // ---------------------------------------------------------------------------

  /** A token that would let a finished expression go on: `+ - * /`. */
  predicate Continues(t: Token) {
    t == Reserved("+") || t == Reserved("-") || t == Reserved("*") || t == Reserved("/")
  }

  /** An argument list that ends where the tokens end would go on at a `,` after them;
      one followed by its `)` is not affected. */
  predicate ArgsStop(toks: seq<Token>, rest: seq<Token>, next: nat) {
    next < |toks| || rest == [] || rest[0] != Reserved(",")
  }

  /** What may follow the tokens without changing a successful parse. */
  predicate Stops(rest: seq<Token>) {
    rest == [] || !Continues(rest[0])
  }

  lemma {:induction false} AddExtend(g: string -> string, fuel: nat, toks: seq<Token>, rest: seq<Token>, pos: nat)
    requires Stops(rest)
    ensures ParseAdd(g, fuel, toks, pos).Ok? ==> ParseAdd(g, fuel, toks + rest, pos) == ParseAdd(g, fuel, toks, pos)
    decreases fuel, 0, |toks| - pos, 5
  {
    MulExtend(g, fuel, toks, rest, pos);
    var left := ParseMul(g, fuel, toks, pos);
    if left.Ok? {
      AddTailExtend(g, fuel, toks, rest, left.value.tree, left.value.next);
    }
  }

  lemma {:induction false} AddTailExtend(g: string -> string, fuel: nat, toks: seq<Token>, rest: seq<Token>, node: SyntaxTreeNode, pos: nat)
    requires pos <= |toks| && Stops(rest)
    ensures ParseAddTail(g, fuel, toks, node, pos).Ok? ==>
      ParseAddTail(g, fuel, toks + rest, node, pos) == ParseAddTail(g, fuel, toks, node, pos)
    decreases fuel, 0, |toks| - pos, 5
  {
    assert IsReservedAt(toks + rest, pos, "+") == IsReservedAt(toks, pos, "+");
    assert IsReservedAt(toks + rest, pos, "-") == IsReservedAt(toks, pos, "-");
    if IsReservedAt(toks, pos, "+") || IsReservedAt(toks, pos, "-") {
      MulExtend(g, fuel, toks, rest, pos + 1);
      var right := ParseMul(g, fuel, toks, pos + 1);
      if right.Ok? {
        var t := if IsReservedAt(toks, pos, "+") then ADD else SUB;
        AddTailExtend(g, fuel, toks, rest, Binary(t, node, right.value.tree), right.value.next);
      }
    }
  }

  lemma {:induction false} MulExtend(g: string -> string, fuel: nat, toks: seq<Token>, rest: seq<Token>, pos: nat)
    requires Stops(rest)
    ensures ParseMul(g, fuel, toks, pos).Ok? ==> ParseMul(g, fuel, toks + rest, pos) == ParseMul(g, fuel, toks, pos)
    decreases fuel, 0, |toks| - pos, 4
  {
    UnaryExtend(g, fuel, toks, rest, pos);
    var left := ParseUnary(g, fuel, toks, pos);
    if left.Ok? {
      MulTailExtend(g, fuel, toks, rest, left.value.tree, left.value.next);
    }
  }

  lemma {:induction false} MulTailExtend(g: string -> string, fuel: nat, toks: seq<Token>, rest: seq<Token>, node: SyntaxTreeNode, pos: nat)
    requires pos <= |toks| && Stops(rest)
    ensures ParseMulTail(g, fuel, toks, node, pos).Ok? ==>
      ParseMulTail(g, fuel, toks + rest, node, pos) == ParseMulTail(g, fuel, toks, node, pos)
    decreases fuel, 0, |toks| - pos, 4
  {
    assert IsReservedAt(toks + rest, pos, "*") == IsReservedAt(toks, pos, "*");
    assert IsReservedAt(toks + rest, pos, "/") == IsReservedAt(toks, pos, "/");
    if IsReservedAt(toks, pos, "*") || IsReservedAt(toks, pos, "/") {
      UnaryExtend(g, fuel, toks, rest, pos + 1);
      var right := ParseUnary(g, fuel, toks, pos + 1);
      if right.Ok? {
        var t := if IsReservedAt(toks, pos, "*") then MUL else DIV;
        MulTailExtend(g, fuel, toks, rest, Binary(t, node, right.value.tree), right.value.next);
      }
    }
  }

  lemma {:induction false} UnaryExtend(g: string -> string, fuel: nat, toks: seq<Token>, rest: seq<Token>, pos: nat)
    requires Stops(rest)
    ensures ParseUnary(g, fuel, toks, pos).Ok? ==> ParseUnary(g, fuel, toks + rest, pos) == ParseUnary(g, fuel, toks, pos)
    decreases fuel, 0, |toks| - pos, 3
  {
    if ParseUnary(g, fuel, toks, pos).Ok? {
      assert pos < |toks|;
      assert (toks + rest)[pos] == toks[pos];
      if IsReservedAt(toks, pos, "-") {
        PrimaryExtend(g, fuel, toks, rest, pos + 1);
      } else {
        PrimaryExtend(g, fuel, toks, rest, pos);
      }
    }
  }

  lemma {:induction false} PrimaryExtend(g: string -> string, fuel: nat, toks: seq<Token>, rest: seq<Token>, pos: nat)
    requires Stops(rest)
    ensures ParsePrimary(g, fuel, toks, pos).Ok? ==> ParsePrimary(g, fuel, toks + rest, pos) == ParsePrimary(g, fuel, toks, pos)
    decreases fuel, 0, |toks| - pos, 2
  {
    if ParsePrimary(g, fuel, toks, pos).Ok? {
      assert pos < |toks|;
      assert (toks + rest)[pos] == toks[pos];
      if IsNumberAt(toks, pos) {
      } else if IsReservedAt(toks, pos, "(") {
        AddExtend(g, fuel, toks, rest, pos + 1);
        var inner := ParseAdd(g, fuel, toks, pos + 1);
        assert inner.value.next < |toks|;
        assert (toks + rest)[inner.value.next] == toks[inner.value.next];
      } else if FuncNameAt(toks, pos).Some? {
        assert pos + 1 < |toks|;
        assert (toks + rest)[pos + 1] == toks[pos + 1];
        ArgsExtend(g, fuel, toks, rest, pos + 2);
        var args := ParseArgs(g, fuel, toks, pos + 2);
        assert args.value.next < |toks|;
        assert (toks + rest)[args.value.next] == toks[args.value.next];
      } else {
        CellExtend(g, fuel, toks, rest, pos);
      }
    }
  }

  lemma {:induction false} ArgsExtend(g: string -> string, fuel: nat, toks: seq<Token>, rest: seq<Token>, pos: nat)
    requires Stops(rest)
    ensures ParseArgs(g, fuel, toks, pos).Ok? && ArgsStop(toks, rest, ParseArgs(g, fuel, toks, pos).value.next) ==>
      ParseArgs(g, fuel, toks + rest, pos) == ParseArgs(g, fuel, toks, pos)
    decreases fuel, 0, |toks| - pos, 6
  {
    AddExtend(g, fuel, toks, rest, pos);
    var first := ParseAdd(g, fuel, toks, pos);
    if first.Ok? {
      ArgsTailExtend(g, fuel, toks, rest, [first.value.tree], first.value.next);
    }
  }

  lemma {:induction false} ArgsTailExtend(g: string -> string, fuel: nat, toks: seq<Token>, rest: seq<Token>, acc: seq<SyntaxTreeNode>, pos: nat)
    requires pos <= |toks| && Stops(rest)
    ensures ParseArgsTail(g, fuel, toks, acc, pos).Ok? && ArgsStop(toks, rest, ParseArgsTail(g, fuel, toks, acc, pos).value.next) ==>
      ParseArgsTail(g, fuel, toks + rest, acc, pos) == ParseArgsTail(g, fuel, toks, acc, pos)
    decreases fuel, 0, |toks| - pos, 6
  {
    if pos < |toks| {
      assert (toks + rest)[pos] == toks[pos];
    } else if rest != [] {
      assert (toks + rest)[pos] == rest[0];
    }
    if IsReservedAt(toks, pos, ",") {
      AddExtend(g, fuel, toks, rest, pos + 1);
      var arg := ParseAdd(g, fuel, toks, pos + 1);
      if arg.Ok? {
        ArgsTailExtend(g, fuel, toks, rest, acc + [arg.value.tree], arg.value.next);
      }
    }
  }

  lemma {:induction false} CellExtend(g: string -> string, fuel: nat, toks: seq<Token>, rest: seq<Token>, pos: nat)
    requires Stops(rest)
    ensures ParseCell(g, fuel, toks, pos).Ok? ==> ParseCell(g, fuel, toks + rest, pos) == ParseCell(g, fuel, toks, pos)
    decreases fuel, 0, |toks| - pos, 1
  {
    if ParseCell(g, fuel, toks, pos).Ok? {
      assert (toks + rest)[pos] == toks[pos];
    }
  }

  /** `parse()` is not changed by tokens appended after the ones it read, unless they
      start with an operator `+ - * /` that would continue the expression. */
  lemma RootExtend(g: string -> string, fuel: nat, rootAddress: string, toks: seq<Token>, rest: seq<Token>, pos: nat)
    requires Stops(rest)
    ensures ParseRoot(g, fuel, rootAddress, toks, pos).Ok? ==>
      ParseRoot(g, fuel, rootAddress, toks + rest, pos) == ParseRoot(g, fuel, rootAddress, toks, pos)
  {
    AddExtend(g, fuel, toks, rest, pos);
  }

  // ---------------------------------------------------------------------------
  // A parse reads nothing after the position it stops at
  // ---------------------------------------------------------------------------

  lemma {:induction false} AddPrefix(g: string -> string, fuel: nat, toks: seq<Token>, j: nat, pos: nat)
    requires ParseAdd(g, fuel, toks, pos).Ok? && ParseAdd(g, fuel, toks, pos).value.next <= j <= |toks|
    ensures ParseAdd(g, fuel, toks[..j], pos) == ParseAdd(g, fuel, toks, pos)
    decreases fuel, 0, |toks| - pos, 5
  {
    var left := ParseMul(g, fuel, toks, pos).value;
    MulPrefix(g, fuel, toks, j, pos);
    AddTailPrefix(g, fuel, toks, j, left.tree, left.next);
  }

  lemma {:induction false} AddTailPrefix(g: string -> string, fuel: nat, toks: seq<Token>, j: nat, node: SyntaxTreeNode, pos: nat)
    requires pos <= |toks|
    requires ParseAddTail(g, fuel, toks, node, pos).Ok? && ParseAddTail(g, fuel, toks, node, pos).value.next <= j <= |toks|
    ensures ParseAddTail(g, fuel, toks[..j], node, pos) == ParseAddTail(g, fuel, toks, node, pos)
    decreases fuel, 0, |toks| - pos, 5
  {
    if pos < j {
      assert toks[..j][pos] == toks[pos];
    }
    if IsReservedAt(toks, pos, "+") || IsReservedAt(toks, pos, "-") {
      var right := ParseMul(g, fuel, toks, pos + 1).value;
      var t := if IsReservedAt(toks, pos, "+") then ADD else SUB;
      MulPrefix(g, fuel, toks, j, pos + 1);
      AddTailPrefix(g, fuel, toks, j, Binary(t, node, right.tree), right.next);
    }
  }

  lemma {:induction false} MulPrefix(g: string -> string, fuel: nat, toks: seq<Token>, j: nat, pos: nat)
    requires ParseMul(g, fuel, toks, pos).Ok? && ParseMul(g, fuel, toks, pos).value.next <= j <= |toks|
    ensures ParseMul(g, fuel, toks[..j], pos) == ParseMul(g, fuel, toks, pos)
    decreases fuel, 0, |toks| - pos, 4
  {
    var left := ParseUnary(g, fuel, toks, pos).value;
    UnaryPrefix(g, fuel, toks, j, pos);
    MulTailPrefix(g, fuel, toks, j, left.tree, left.next);
  }

  lemma {:induction false} MulTailPrefix(g: string -> string, fuel: nat, toks: seq<Token>, j: nat, node: SyntaxTreeNode, pos: nat)
    requires pos <= |toks|
    requires ParseMulTail(g, fuel, toks, node, pos).Ok? && ParseMulTail(g, fuel, toks, node, pos).value.next <= j <= |toks|
    ensures ParseMulTail(g, fuel, toks[..j], node, pos) == ParseMulTail(g, fuel, toks, node, pos)
    decreases fuel, 0, |toks| - pos, 4
  {
    if pos < j {
      assert toks[..j][pos] == toks[pos];
    }
    if IsReservedAt(toks, pos, "*") || IsReservedAt(toks, pos, "/") {
      var right := ParseUnary(g, fuel, toks, pos + 1).value;
      var t := if IsReservedAt(toks, pos, "*") then MUL else DIV;
      UnaryPrefix(g, fuel, toks, j, pos + 1);
      MulTailPrefix(g, fuel, toks, j, Binary(t, node, right.tree), right.next);
    }
  }

  lemma {:induction false} UnaryPrefix(g: string -> string, fuel: nat, toks: seq<Token>, j: nat, pos: nat)
    requires ParseUnary(g, fuel, toks, pos).Ok? && ParseUnary(g, fuel, toks, pos).value.next <= j <= |toks|
    ensures ParseUnary(g, fuel, toks[..j], pos) == ParseUnary(g, fuel, toks, pos)
    decreases fuel, 0, |toks| - pos, 3
  {
    assert toks[..j][pos] == toks[pos];
    if IsReservedAt(toks, pos, "-") {
      PrimaryPrefix(g, fuel, toks, j, pos + 1);
    } else {
      PrimaryPrefix(g, fuel, toks, j, pos);
    }
  }

  lemma {:induction false} PrimaryPrefix(g: string -> string, fuel: nat, toks: seq<Token>, j: nat, pos: nat)
    requires ParsePrimary(g, fuel, toks, pos).Ok? && ParsePrimary(g, fuel, toks, pos).value.next <= j <= |toks|
    ensures ParsePrimary(g, fuel, toks[..j], pos) == ParsePrimary(g, fuel, toks, pos)
    decreases fuel, 0, |toks| - pos, 2
  {
    assert toks[..j][pos] == toks[pos];
    if IsNumberAt(toks, pos) {
    } else if IsReservedAt(toks, pos, "(") {
      var inner := ParseAdd(g, fuel, toks, pos + 1).value;
      AddPrefix(g, fuel, toks, j, pos + 1);
      assert toks[..j][inner.next] == toks[inner.next];
    } else if FuncNameAt(toks, pos).Some? {
      assert toks[..j][pos + 1] == toks[pos + 1];
      var args := ParseArgs(g, fuel, toks, pos + 2).value;
      ArgsPrefix(g, fuel, toks, j, pos + 2);
      assert toks[..j][args.next] == toks[args.next];
    } else {
      CellPrefix(g, fuel, toks, j, pos);
    }
  }

  lemma {:induction false} ArgsPrefix(g: string -> string, fuel: nat, toks: seq<Token>, j: nat, pos: nat)
    requires ParseArgs(g, fuel, toks, pos).Ok? && ParseArgs(g, fuel, toks, pos).value.next <= j <= |toks|
    ensures ParseArgs(g, fuel, toks[..j], pos) == ParseArgs(g, fuel, toks, pos)
    decreases fuel, 0, |toks| - pos, 6
  {
    var first := ParseAdd(g, fuel, toks, pos).value;
    AddPrefix(g, fuel, toks, j, pos);
    ArgsTailPrefix(g, fuel, toks, j, [first.tree], first.next);
  }

  lemma {:induction false} ArgsTailPrefix(g: string -> string, fuel: nat, toks: seq<Token>, j: nat, acc: seq<SyntaxTreeNode>, pos: nat)
    requires pos <= |toks|
    requires ParseArgsTail(g, fuel, toks, acc, pos).Ok? && ParseArgsTail(g, fuel, toks, acc, pos).value.next <= j <= |toks|
    ensures ParseArgsTail(g, fuel, toks[..j], acc, pos) == ParseArgsTail(g, fuel, toks, acc, pos)
    decreases fuel, 0, |toks| - pos, 6
  {
    if pos < j {
      assert toks[..j][pos] == toks[pos];
    }
    if IsReservedAt(toks, pos, ",") {
      var arg := ParseAdd(g, fuel, toks, pos + 1).value;
      AddPrefix(g, fuel, toks, j, pos + 1);
      ArgsTailPrefix(g, fuel, toks, j, acc + [arg.tree], arg.next);
    }
  }

  lemma {:induction false} CellPrefix(g: string -> string, fuel: nat, toks: seq<Token>, j: nat, pos: nat)
    requires ParseCell(g, fuel, toks, pos).Ok? && ParseCell(g, fuel, toks, pos).value.next <= j <= |toks|
    ensures ParseCell(g, fuel, toks[..j], pos) == ParseCell(g, fuel, toks, pos)
    decreases fuel, 0, |toks| - pos, 1
  {
    assert toks[..j][pos] == toks[pos];
  }

  /** `parse()` reads nothing after the tokens its expression spans: cutting the tokens
      anywhere from the position the expression stops at gives the same tree. */
  lemma RootPrefix(g: string -> string, fuel: nat, rootAddress: string, toks: seq<Token>, j: nat, pos: nat)
    requires ParseAdd(g, fuel, toks, pos).Ok? && ParseAdd(g, fuel, toks, pos).value.next <= j <= |toks|
    ensures ParseRoot(g, fuel, rootAddress, toks[..j], pos) == ParseRoot(g, fuel, rootAddress, toks, pos)
  {
    AddPrefix(g, fuel, toks, j, pos);
  }
}
