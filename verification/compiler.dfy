/** The expression compiler of tfx2json.ts (`codegen` and its `emit*` helpers,
    lines 118-357): a CST expression node becomes a JSON-like value in which
    operators, references, calls, conditionals and splats are intrinsics.

    Each `emit*` is one function. A thrown error (a failed `assert`, or a read
    of a property of `undefined`) is a `Fail`; the first one in evaluation
    order wins, as with an exception.
 */
module Compiler {
  import opened Wrappers
  import opened Json
  import opened Cst
  import opened Intrinsics
  import opened Literals
  import Text

  /** The literal node types, all coerced by `emitLiteralValue`. */
  const LiteralKinds: set<string> := {"bool_lit", "null_lit", "string_lit", "numeric_lit", "literal_value"}

  /** Every node type with an arm in `codegen`. */
  const HandledKinds: set<string> := LiteralKinds + {
    "expression", "variable_expr", "function_call", "identifier", "get_attr", "conditional",
    "index", "splat", "attr_splat", "full_splat", "operation", "unary_operation", "binary_operation"
  }

  /** What `codegen` can produce: a compiled value that, when it is an object,
      is an intrinsic; or an assertion failure or TypeError. */
  predicate Outcome(r: Result<Value>) {
    match r
    case Ok(v) => Compiled(v) && (v.Obj? ==> IsIntrinsicShape(v))
    case Fail(e) => e.AssertionFailed? || e.UndefinedNode?
  }

  /** The arms of `codegen`'s switch. */
  datatype Arm =
    | LiteralArm | IdentifierArm | ExpressionArm | VariableExprArm | FunctionCallArm
    | GetAttrArm | ConditionalArm | IndexArm | FirstNamedArm | AttrSplatArm
    | UnaryArm | BinaryArm | Unhandled

  /** The arm `codegen` takes for a node of type `kind`. */
  function ArmOf(kind: string): (r: Arm)
    ensures kind in LiteralKinds <==> r == LiteralArm
    ensures kind == "identifier" <==> r == IdentifierArm
    ensures kind == "expression" <==> r == ExpressionArm
    ensures kind == "variable_expr" <==> r == VariableExprArm
    ensures kind == "function_call" <==> r == FunctionCallArm
    ensures kind == "get_attr" <==> r == GetAttrArm
    ensures kind == "conditional" <==> r == ConditionalArm
    ensures kind == "index" <==> r == IndexArm
    ensures kind == "splat" || kind == "operation" <==> r == FirstNamedArm
    ensures kind == "attr_splat" || kind == "full_splat" <==> r == AttrSplatArm
    ensures kind == "unary_operation" <==> r == UnaryArm
    ensures kind == "binary_operation" <==> r == BinaryArm
    ensures kind !in HandledKinds <==> r == Unhandled
  {
    if kind in LiteralKinds then LiteralArm
    else match kind
      case "expression" => ExpressionArm
      case "variable_expr" => VariableExprArm
      case "function_call" => FunctionCallArm
      case "identifier" => IdentifierArm
      case "get_attr" => GetAttrArm
      case "conditional" => ConditionalArm
      case "index" => IndexArm
      case "splat" => FirstNamedArm
      case "attr_splat" => AttrSplatArm
      case "full_splat" => AttrSplatArm
      case "operation" => FirstNamedArm
      case "unary_operation" => UnaryArm
      case "binary_operation" => BinaryArm
      case _ => Unhandled
  }

  /** `codegen(node)`: dispatch on the node type. Unhandled types, `comment`
      among them, compile to the empty string (the source also logs them). */
  function Codegen(n: Node): (r: Result<Value>)
    decreases n, 2
    ensures Outcome(r)
    ensures n.kind !in HandledKinds ==> r == Ok(Str(""))
  {
    match ArmOf(n.kind)
    case LiteralArm => Ok(LiteralValue(n.text))
    case IdentifierArm => Ok(Identifier(n.text))
    case ExpressionArm => EmitExpression(n)
    case VariableExprArm => EmitVariableExpr(n)
    case FunctionCallArm => EmitFunctionCall(n)
    case GetAttrArm => EmitGetAttr(n)
    case ConditionalArm => EmitConditional(n)
    case IndexArm => EmitIndex(n)
    case FirstNamedArm => EmitFirstNamed(n)
    case AttrSplatArm => EmitAttrSplat(n)
    case UnaryArm => EmitUnaryOperation(n)
    case BinaryArm => EmitBinaryOperation(n)
    case Unhandled => Ok(Str(""))
  }

  /** `nodes.map(codegen)` over children of `parent`. */
  function CodegenAll(parent: Node, nodes: seq<Node>): (r: Result<seq<Value>>)
    requires forall i :: 0 <= i < |nodes| ==> nodes[i] in parent.children
    requires forall i :: 0 <= i < |nodes| ==> nodes[i] < parent
    decreases parent, 0, |nodes|
    ensures r.Ok? ==> |r.value| == |nodes|
    ensures r.Ok? ==> forall i :: 0 <= i < |nodes| ==> Codegen(nodes[i]) == Ok(r.value[i])
    ensures r.Ok? ==> forall i :: 0 <= i < |nodes| ==> Compiled(r.value[i])
    ensures r.Fail? ==> exists i :: 0 <= i < |nodes| && Codegen(nodes[i]) == Fail(r.error)
    ensures r.Fail? ==> r.error.AssertionFailed? || r.error.UndefinedNode?
  {
    if |nodes| == 0 then Ok([])
    else
      assert nodes[0] in parent.children;
      var head :- Codegen(nodes[0]);
      var tail :- CodegenAll(parent, nodes[1..]);
      Ok([head] + tail)
  }

  /** The values `vs` with every array replaced by its elements, one level
      deep: what `flatMap` makes of the results of its callback. */
  function Flatten(vs: seq<Value>): seq<Value>
  {
    if |vs| == 0 then [] else (if vs[0].Arr? then vs[0].items else [vs[0]]) + Flatten(vs[1..])
  }

  /** `nodes.flatMap(codegen)`: an array result is spliced in, one level deep. */
  function CodegenFlat(parent: Node, nodes: seq<Node>): (r: Result<seq<Value>>)
    requires forall i :: 0 <= i < |nodes| ==> nodes[i] in parent.children
    decreases parent, 0, |nodes|
    ensures r.Ok? ==> forall i :: 0 <= i < |r.value| ==> Compiled(r.value[i])
    ensures r.Fail? ==> r.error.AssertionFailed? || r.error.UndefinedNode?
  {
    if |nodes| == 0 then Ok([])
    else
      assert nodes[0] in parent.children;
      var head :- Codegen(nodes[0]);
      var tail :- CodegenFlat(parent, nodes[1..]);
      Ok((if head.Arr? then head.items else [head]) + tail)
  }

  /** `emitExpression`: a term with no postfix steps compiles to the term;
      otherwise an `expression` intrinsic with arguments `term` and `rest`. */
  function EmitExpression(n: Node): (r: Result<Value>)
    decreases n, 1
    ensures Outcome(r)
    ensures |NamedChildren(n)| == 0 ==> r == Fail(UndefinedNode)
    ensures |NamedChildren(n)| == 1 ==> r == Codegen(NamedChildren(n)[0])
    ensures |NamedChildren(n)| > 1 && r.Ok? ==>
      && FnOf(r.value) == Some(Str("expression"))
      && ArgNames(r.value) == ["term", "rest"]
      && Codegen(NamedChildren(n)[0]).Ok? && ArgNamed(r.value, "term") == Some(Codegen(NamedChildren(n)[0]).value)
      && CodegenFlat(n, Steps(n)).Ok?
      && ArgNamed(r.value, "rest") == Some(Arr(CodegenFlat(n, Steps(n)).value))
  {
    var nc := NamedChildren(n);
    if |nc| == 0 then Fail(UndefinedNode)
    else if |nc| == 1 then Codegen(nc[0])
    else ExpressionChain(n)
  }

  /** The named children after an expression's term: its postfix steps. */
  function Steps(n: Node): (r: seq<Node>)
    ensures |NamedChildren(n)| > 0 ==> r == NamedChildren(n)[1..]
    ensures forall i :: 0 <= i < |r| ==> r[i] in n.children
  {
    var nc := NamedChildren(n);
    if |nc| == 0 then [] else nc[1..]
  }

  /** The term of an expression followed by its postfix steps. */
  function ExpressionChain(n: Node): (r: Result<Value>)
    requires |NamedChildren(n)| > 1
    decreases n, 0, |NamedChildren(n)|
    ensures Outcome(r)
    ensures r.Ok? ==> Codegen(NamedChildren(n)[0]).Ok? && CodegenFlat(n, Steps(n)).Ok?
    ensures r.Ok? ==> r.value == ExpressionValue(Codegen(NamedChildren(n)[0]).value, CodegenFlat(n, Steps(n)).value)
  {
    var term :- Codegen(NamedChildren(n)[0]);
    var rest :- CodegenFlat(n, Steps(n));
    Ok(ExpressionValue(term, rest))
  }

  /** The `expression` intrinsic of a term and its compiled steps. */
  function ExpressionValue(term: Value, rest: seq<Value>): (r: Value)
    ensures Compiled(term) && (forall i :: 0 <= i < |rest| ==> Compiled(rest[i])) ==> Compiled(r)
    ensures FnOf(r) == Some(Str("expression")) && ArgNames(r) == ["term", "rest"]
    ensures ArgNamed(r, "term") == Some(term) && ArgNamed(r, "rest") == Some(Arr(rest))
  {
    Intrinsic2("expression", "term", term, "rest", Arr(rest))
  }

  /** `emitVariableExpr`: the identifier of the first named child. */
  function EmitVariableExpr(n: Node): (r: Result<Value>)
    ensures Outcome(r)
    ensures r.Fail? <==> |NamedChildren(n)| == 0
    ensures r.Ok? ==> r.value == Identifier(NamedChildren(n)[0].text)
  {
    match At(NamedChildren(n), 0)
    case None => Fail(UndefinedNode)
    case Some(c) => Ok(Identifier(c.text))
  }

  /** The value `emitFunctionCall` builds for a callee and, when the call has
      an argument list, the compiled arguments. With arguments, `args` is a
      single record rather than an array, so the result is not a parsed
      intrinsic. */
  function CallValue(callee: string, args: Option<seq<Value>>): (r: Value)
    ensures (args.Some? ==> forall i :: 0 <= i < |args.value| ==> Compiled(args.value[i])) ==> Compiled(r)
    ensures IsIntrinsicShape(r)
    ensures FnOf(r) == Some(Identifier(callee))
    ensures IsParsedIntrinsic(Some(r)) <==> args.None?
    ensures args.None? ==> ArgsOf(r) == Some(Arr([]))
    ensures args.Some? ==> ArgsOf(r) == Some(Arg("args", Arr(args.value)))
  {
    match args
    case None =>
      assert Compiled(Arr([]));
      Intrinsic(Identifier(callee), Arr([]))
    case Some(values) =>
      var a := Arg("args", Arr(values));
      assert Keys(a.fields) == ["name", "value"];
      assert (forall i :: 0 <= i < |values| ==> Compiled(values[i])) ==> Compiled(a);
      assert a.Obj?;
      Intrinsic(Identifier(callee), a)
  }

  /** `emitFunctionCall`: `fn` is the identifier intrinsic of the callee and
      `args` is a single `{name: "args", value: [...]}` record, or `[]` when
      the call has no `function_arguments` node. */
  function EmitFunctionCall(n: Node): (r: Result<Value>)
    decreases n, 1
    ensures Outcome(r)
    ensures |NamedChildren(n)| == 0 ==> r == Fail(UndefinedNode)
    ensures r.Ok? ==> FnOf(r.value) == Some(Identifier(NamedChildren(n)[0].text))
    ensures r.Ok? ==> (IsParsedIntrinsic(Some(r.value)) <==> Find(NamedChildren(n), "function_arguments").None?)
    ensures |NamedChildren(n)| > 0 && Find(NamedChildren(n), "function_arguments").None? ==>
      r == Ok(CallValue(NamedChildren(n)[0].text, None))
    ensures |NamedChildren(n)| > 0 && Find(NamedChildren(n), "function_arguments").Some? ==>
      var a := Find(NamedChildren(n), "function_arguments").value;
      r.Ok? <==> CodegenAll(a, NamedChildren(a)).Ok?
    ensures r.Ok? && Find(NamedChildren(n), "function_arguments").Some? ==>
      var a := Find(NamedChildren(n), "function_arguments").value;
      && CodegenAll(a, NamedChildren(a)).Ok?
      && ArgsOf(r.value) == Some(Arg("args", Arr(CodegenAll(a, NamedChildren(a)).value)))
  {
    var nc := NamedChildren(n);
    if |nc| == 0 then Fail(UndefinedNode)
    else
      match Find(nc, "function_arguments")
      case None => Ok(CallValue(nc[0].text, None))
      case Some(a) =>
        var values :- CodegenAll(a, NamedChildren(a));
        Ok(CallValue(nc[0].text, Some(values)))
  }

  /** The text `emitGetAttr` returns: the single named child's text with its
      first `.` removed. */
  function GetAttrText(n: Node): (r: Result<string>)
    ensures r.Fail? <==> |NamedChildren(n)| != 1
    ensures r.Fail? ==> r.error.AssertionFailed?
    ensures r.Ok? ==> |r.value| >= |NamedChildren(n)[0].text| - 1
    ensures r.Ok? && !Text.Contains(NamedChildren(n)[0].text, ".") ==> r.value == NamedChildren(n)[0].text
    ensures r.Ok? && Text.Contains(NamedChildren(n)[0].text, ".") ==>
      var t := NamedChildren(n)[0].text;
      var i := Text.IndexOf(t, ".").value;
      t[i] == '.' && '.' !in t[..i] && r.value == t[..i] + t[i + 1..]
  {
    var nc := NamedChildren(n);
    if |nc| != 1 then Fail(AssertionFailed("namedChildren.length === 1"))
    else
      Text.FirstChar(nc[0].text, '.');
      Ok(Text.ReplaceFirst(nc[0].text, ".", ""))
  }

  /** `emitGetAttr`: the attribute name as a plain string. */
  function EmitGetAttr(n: Node): (r: Result<Value>)
    ensures Outcome(r)
    ensures r.Ok? <==> GetAttrText(n).Ok?
    ensures r.Ok? ==> r.value.Str? && Ok(r.value.s) == GetAttrText(n)
  {
    var s :- GetAttrText(n);
    Ok(Str(s))
  }

  /** `emitIndex`: `Number.parseInt` of the get_attr text. */
  function EmitIndex(n: Node): (r: Result<Value>)
    ensures Outcome(r)
    ensures r.Ok? <==> GetAttrText(n).Ok?
    ensures r.Ok? ==> r.value.Num? && GetAttrText(n).Ok?
    ensures r.Ok? && Text.AllDigits(GetAttrText(n).value) && !HexPrefixed(GetAttrText(n).value) ==> r.value.n.Finite?
  {
    var s :- GetAttrText(n);
    Ok(Num(ParseInt(s)))
  }

  /** The three searches of `emitConditional`: the first `expression`, then
      the first one that is not it, then the first that is neither. They find
      the first three `expression` positions, or fail with the message of the
      search that came up empty. */
  function ConditionalParts(nc: seq<Node>, text: string): (r: Result<(nat, nat, nat)>)
    ensures var ps := Positions(nc, "expression");
      && (r.Ok? <==> |ps| >= 3)
      && (r.Ok? ==> r.value == (ps[0], ps[1], ps[2]))
      && (r.Fail? ==> r.error.AssertionFailed?)
  {
    FindFirst(nc, "expression");
    match FindIndex(nc, "expression", [])
    case None => Fail(AssertionFailed("expression not found in " + text))
    case Some(i) =>
      FindSecond(nc, "expression");
      match FindIndex(nc, "expression", [i])
      case None => Fail(AssertionFailed("lhs not found in " + text))
      case Some(j) =>
        FindThird(nc, "expression");
        match FindIndex(nc, "expression", [i, j])
        case None => Fail(AssertionFailed("rhs not found in " + text))
        case Some(k) => Ok((i, j, k))
  }

  /** `emitConditional`: the first three `expression` named children, found
      at distinct positions, are the condition and the two branches. */
  function EmitConditional(n: Node): (r: Result<Value>)
    decreases n, 1
    ensures Outcome(r)
    ensures |Positions(NamedChildren(n), "expression")| < 3 ==> r.Fail? && r.error.AssertionFailed?
    ensures |Positions(NamedChildren(n), "expression")| >= 3 ==>
      var nc := NamedChildren(n);
      var ps := Positions(nc, "expression");
      r.Ok? <==> Codegen(nc[ps[0]]).Ok? && Codegen(nc[ps[1]]).Ok? && Codegen(nc[ps[2]]).Ok?
    ensures r.Ok? ==>
      var nc := NamedChildren(n);
      var ps := Positions(nc, "expression");
      && |ps| >= 3
      && FnOf(r.value) == Some(Str("conditional"))
      && ArgNames(r.value) == ["cond", "true", "false"]
      && Codegen(nc[ps[0]]).Ok? && ArgNamed(r.value, "cond") == Some(Codegen(nc[ps[0]]).value)
      && Codegen(nc[ps[1]]).Ok? && ArgNamed(r.value, "true") == Some(Codegen(nc[ps[1]]).value)
      && Codegen(nc[ps[2]]).Ok? && ArgNamed(r.value, "false") == Some(Codegen(nc[ps[2]]).value)
  {
    var nc := NamedChildren(n);
    var (i, j, k) :- ConditionalParts(nc, n.text);
    var cond :- Codegen(nc[i]);
    var whenTrue :- Codegen(nc[j]);
    var whenFalse :- Codegen(nc[k]);
    Ok(Intrinsic3("conditional", "cond", cond, "true", whenTrue, "false", whenFalse))
  }

  /** `emitSplat` and `emitOperation`: compile the first named child. */
  function EmitFirstNamed(n: Node): (r: Result<Value>)
    decreases n, 0
    ensures Outcome(r)
    ensures |NamedChildren(n)| == 0 ==> r == Fail(UndefinedNode)
    ensures |NamedChildren(n)| > 0 ==> r == Codegen(NamedChildren(n)[0])
  {
    match At(NamedChildren(n), 0)
    case None => Fail(UndefinedNode)
    case Some(c) => Codegen(c)
  }

  /** `emitAttrSplat` (and `emitFullSplat`): one element per child, `"*"` for
      an unnamed child and its compilation for a named one. */
  function EmitAttrSplat(n: Node): (r: Result<Value>)
    decreases n, 1
    ensures Outcome(r)
    ensures r.Ok? ==> r.value.Arr? && |r.value.items| == |n.children|
    ensures r.Ok? ==> forall i :: 0 <= i < |n.children| && !n.children[i].isNamed ==> r.value.items[i] == Str("*")
    ensures r.Ok? ==> forall i :: 0 <= i < |n.children| && n.children[i].isNamed ==> Codegen(n.children[i]) == Ok(r.value.items[i])
    ensures r.Fail? ==> exists i :: 0 <= i < |n.children| && n.children[i].isNamed && Codegen(n.children[i]) == Fail(r.error)
  {
    var items :- SplatItems(n, n.children);
    Ok(Arr(items))
  }

  /** The splat's callback on one child: `"*"` for an unnamed child and its
      compilation for a named one. */
  function SplatChild(c: Node): (r: Result<Value>)
    decreases c, 3
    ensures Outcome(r)
    ensures !c.isNamed ==> r == Ok(Str("*"))
    ensures c.isNamed ==> r == Codegen(c)
  {
    if c.isNamed then Codegen(c) else Ok(Str("*"))
  }

  /** The splat's callback mapped over children of `parent`. */
  function SplatItems(parent: Node, nodes: seq<Node>): (r: Result<seq<Value>>)
    requires forall i :: 0 <= i < |nodes| ==> nodes[i] in parent.children
    requires forall i :: 0 <= i < |nodes| ==> nodes[i] < parent
    decreases parent, 0, |nodes|
    ensures r.Ok? ==> |r.value| == |nodes|
    ensures r.Ok? ==> forall i :: 0 <= i < |nodes| ==> SplatChild(nodes[i]) == Ok(r.value[i])
    ensures r.Ok? ==> forall i :: 0 <= i < |nodes| ==> Compiled(r.value[i])
    ensures r.Fail? ==> exists i :: 0 <= i < |nodes| && SplatChild(nodes[i]) == Fail(r.error)
    ensures r.Fail? ==> r.error.AssertionFailed? || r.error.UndefinedNode?
  {
    if |nodes| == 0 then Ok([])
    else
      assert nodes[0] in parent.children;
      var head :- SplatChild(nodes[0]);
      var tail :- SplatItems(parent, nodes[1..]);
      Ok([head] + tail)
  }

  /** `emitUnaryOperation`: an operator applied to a non-literal operand is a
      `neg`/`not`/operator intrinsic; on a `literal_value` operand the operator
      is dropped and the first named child is compiled instead. */
  function EmitUnaryOperation(n: Node): (r: Result<Value>)
    decreases n, 1
    ensures Outcome(r)
    ensures |n.children| != 2 ==> r == Fail(AssertionFailed("children.length === 2"))
    ensures |n.children| == 2 && n.children[1].kind != "literal_value" ==> (r.Ok? <==> Codegen(n.children[1]).Ok?)
    ensures |n.children| == 2 && n.children[1].kind != "literal_value" && r.Ok? ==>
      && FnOf(r.value) == Some(Str(UnaryName(n.children[0].text)))
      && ArgNames(r.value) == ["operand"]
      && Codegen(n.children[1]).Ok? && ArgNamed(r.value, "operand") == Some(Codegen(n.children[1]).value)
    ensures |n.children| == 2 && n.children[1].kind == "literal_value" ==>
      r == (if |NamedChildren(n)| == 0 then Fail(UndefinedNode) else Codegen(NamedChildren(n)[0]))
  {
    if |n.children| != 2 then Fail(AssertionFailed("children.length === 2"))
    else
      var operand := n.children[1];
      if operand.kind != "literal_value" then
        var value :- Codegen(operand);
        Ok(Intrinsic1(UnaryName(n.children[0].text), "operand", value))
      else EmitFirstNamed(n)
  }

  /** `emitBinaryOperation`: `[lhs, operator, rhs]` becomes the operator's
      intrinsic with arguments `lhs` then `rhs`. */
  function EmitBinaryOperation(n: Node): (r: Result<Value>)
    decreases n, 1
    ensures Outcome(r)
    ensures |n.children| != 3 ==> r == Fail(AssertionFailed("children.length === 3"))
    ensures |n.children| == 3 ==> (r.Ok? <==> Codegen(n.children[0]).Ok? && Codegen(n.children[2]).Ok?)
    ensures r.Ok? ==>
      && IsParsedIntrinsic(Some(r.value))
      && FnOf(r.value) == Some(Str(OpName(n.children[1].text)))
      && ArgNames(r.value) == ["lhs", "rhs"]
      && Codegen(n.children[0]).Ok? && ArgNamed(r.value, "lhs") == Some(Codegen(n.children[0]).value)
      && Codegen(n.children[2]).Ok? && ArgNamed(r.value, "rhs") == Some(Codegen(n.children[2]).value)
  {
    if |n.children| != 3 then Fail(AssertionFailed("children.length === 3"))
    else
      var lhs :- Codegen(n.children[0]);
      var rhs :- Codegen(n.children[2]);
      Ok(Intrinsic2(OpName(n.children[1].text), "lhs", lhs, "rhs", rhs))
  }
}
