/** Worked examples of the expression compiler of tfx2json.ts. */
module CompilerFacts {
  import opened Wrappers
  import opened Json
  import opened Cst
  import opened Intrinsics
  import opened Literals
  import opened Compiler
  import Text

  /** `-5`: the operand is a `literal_value`, so the operator is dropped and
      the result is the number 5, not a `neg` intrinsic. */
  lemma NegativeLiteralLosesSign()
    ensures Codegen(Node("unary_operation", "-5", true,
                         [Node("-", "-", false, []), Node("literal_value", "5", true, [])]))
         == Ok(Num(Finite(5.0)))
  {
    var five := Node("literal_value", "5", true, []);
    var n := Node("unary_operation", "-5", true, [Node("-", "-", false, []), five]);
    assert NamedChildren(n) == [five];
    assert Text.AllDigits("5");
    assert Text.DigitsValue("5") == 5;
    assert Codegen(five) == Ok(Num(Finite(5.0)));
  }

  /** `1 + 2`: the `add` intrinsic with the two numbers as `lhs` and `rhs`. */
  lemma AdditionShape()
    ensures var r := Codegen(Node("binary_operation", "1 + 2", true,
                                  [Node("literal_value", "1", true, []), Node("+", "+", false, []),
                                   Node("literal_value", "2", true, [])]));
      && r.Ok? && IsParsedIntrinsic(Some(r.value))
      && FnOf(r.value) == Some(Str("add"))
      && ArgNames(r.value) == ["lhs", "rhs"]
      && ArgNamed(r.value, "lhs") == Some(Num(Finite(1.0)))
      && ArgNamed(r.value, "rhs") == Some(Num(Finite(2.0)))
  {
    var one := Node("literal_value", "1", true, []);
    var two := Node("literal_value", "2", true, []);
    var plus := Node("+", "+", false, []);
    var n := Node("binary_operation", "1 + 2", true, [one, plus, two]);
    SmallNumeral(one, 1);
    SmallNumeral(two, 2);
    assert OpName(plus.text) == "add";
    Dispatch(n);
  }

  /** `flatMap(codegen)` is `map(codegen)` followed by one level of
      flattening: it succeeds exactly when the map does, with the flattened
      values, and otherwise fails with the same first error. */
  lemma {:induction false} CodegenFlatIsFlatten(parent: Node, nodes: seq<Node>)
    requires forall i :: 0 <= i < |nodes| ==> nodes[i] in parent.children
    ensures CodegenFlat(parent, nodes).Ok? <==> CodegenAll(parent, nodes).Ok?
    ensures CodegenFlat(parent, nodes).Ok? ==>
      CodegenFlat(parent, nodes).value == Flatten(CodegenAll(parent, nodes).value)
    ensures CodegenFlat(parent, nodes).Fail? ==> CodegenFlat(parent, nodes) == CodegenAll(parent, nodes)
  {
    if |nodes| > 0 {
      CodegenFlatIsFlatten(parent, nodes[1..]);
    }
  }

  /** A chain's `rest` argument holds the compilations of the postfix steps,
      with every array result spliced in one level deep; the chain compiles
      exactly when the term and every step do. */
  lemma ExpressionRest(n: Node)
    requires |NamedChildren(n)| > 1
    ensures var nc := NamedChildren(n);
      EmitExpression(n).Ok? <==> Codegen(nc[0]).Ok? && CodegenAll(n, nc[1..]).Ok?
    ensures var nc := NamedChildren(n);
      EmitExpression(n).Ok? ==>
        && CodegenAll(n, nc[1..]).Ok?
        && ArgNamed(EmitExpression(n).value, "rest") == Some(Arr(Flatten(CodegenAll(n, nc[1..]).value)))
  {
    CodegenFlatIsFlatten(n, NamedChildren(n)[1..]);
  }

  /** Which emitter `codegen`'s switch sends each handled node type to. */
  lemma Dispatch(n: Node)
    ensures n.kind in LiteralKinds ==> Codegen(n) == Ok(LiteralValue(n.text))
    ensures n.kind == "identifier" ==> Codegen(n) == Ok(Identifier(n.text))
    ensures n.kind == "expression" ==> Codegen(n) == EmitExpression(n)
    ensures n.kind == "variable_expr" ==> Codegen(n) == EmitVariableExpr(n)
    ensures n.kind == "function_call" ==> Codegen(n) == EmitFunctionCall(n)
    ensures n.kind == "get_attr" ==> Codegen(n) == EmitGetAttr(n)
    ensures n.kind == "conditional" ==> Codegen(n) == EmitConditional(n)
    ensures n.kind == "index" ==> Codegen(n) == EmitIndex(n)
    ensures n.kind == "splat" ==> Codegen(n) == EmitFirstNamed(n)
    ensures n.kind == "attr_splat" ==> Codegen(n) == EmitAttrSplat(n)
    ensures n.kind == "full_splat" ==> Codegen(n) == EmitAttrSplat(n)
    ensures n.kind == "operation" ==> Codegen(n) == EmitFirstNamed(n)
    ensures n.kind == "unary_operation" ==> Codegen(n) == EmitUnaryOperation(n)
    ensures n.kind == "binary_operation" ==> Codegen(n) == EmitBinaryOperation(n)
  {
  }

  /** A one-digit `literal_value` is that number. */
  lemma SmallNumeral(n: Node, d: nat)
    requires d < 10 && n == Node("literal_value", [Text.DigitChar(d)], true, [])
    ensures Codegen(n) == Ok(Num(Finite(d as real)))
  {
    assert Text.AllDigits(n.text);
    assert Text.DigitsValue(n.text) == d;
  }
}
