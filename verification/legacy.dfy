/** The legacy whole-document emitters, index.ts and index.js: `codegen` turns
    a CST into JavaScript object-literal source text, one string per node.

    The two files differ in three places, and the model keeps them apart with
    a `Dialect`: the block-key separator, `emitExpression` (index.ts wraps a
    chain in a serialized `expressions` intrinsic, index.js joins the parts
    with `.`), and the assertions (index.ts uses node:assert, which throws;
    index.js has none, except node:console's `assert`, which only logs).

    A throw is a `Fail`: a failed node:assert is `AssertionFailed`, a
    property read on `undefined` (a missing child) is `UndefinedNode`, and a
    `JSON.parse` of a malformed label is `JsonSyntax`. The first throw in
    evaluation order wins.
 */
module Legacy {
  import opened Wrappers
  import opened Json
  import opened Cst
  import opened Text
  import opened BlockKeys
  import Intrinsics

  datatype Dialect = Ts | Js

  function Sep(d: Dialect): (r: string)
    ensures d.Ts? ==> r == ThaiSep
    ensures d.Js? ==> r == Underscore
  {
    match d
    case Ts => ThaiSep
    case Js => Underscore
  }

  /** The literal node types, emitted as their source text. */
  const LiteralKinds: set<string> := {"bool_lit", "null_lit", "string_lit", "numeric_lit", "literal_value"}

  /** Every node type with an arm in `codegen`. */
  const HandledKinds: set<string> := LiteralKinds + {
    "expression", "attribute", "block", "body", "config_file", "collection_value", "tuple",
    "object", "object_elem", "variable_expr", "function_call", "identifier", "get_attr"
  }

  /** The errors the legacy emitters can throw. */
  predicate Thrown(d: Dialect, e: Error) {
    || e.UndefinedNode?
    || e.JsonSyntax?
    || (d.Ts? && e.AssertionFailed?)
  }

  /** The arms of `codegen`'s switch. */
  datatype Arm =
    | TextArm | ExpressionArm | AttributeArm | BlockArm | BodyArm | ConfigFileArm
    | CollectionValueArm | TupleArm | ObjectArm | ObjectElemArm | VariableExprArm
    | FunctionCallArm | GetAttrArm | Unhandled

  /** The arm `codegen` takes for a node of type `kind`. */
  function ArmOf(kind: string): (r: Arm)
    ensures kind in LiteralKinds || kind == "identifier" <==> r == TextArm
    ensures kind == "expression" <==> r == ExpressionArm
    ensures kind == "attribute" <==> r == AttributeArm
    ensures kind == "block" <==> r == BlockArm
    ensures kind == "body" <==> r == BodyArm
    ensures kind == "config_file" <==> r == ConfigFileArm
    ensures kind == "collection_value" <==> r == CollectionValueArm
    ensures kind == "tuple" <==> r == TupleArm
    ensures kind == "object" <==> r == ObjectArm
    ensures kind == "object_elem" <==> r == ObjectElemArm
    ensures kind == "variable_expr" <==> r == VariableExprArm
    ensures kind == "function_call" <==> r == FunctionCallArm
    ensures kind == "get_attr" <==> r == GetAttrArm
    ensures kind !in HandledKinds <==> r == Unhandled
  {
    if kind in LiteralKinds || kind == "identifier" then TextArm
    else match kind
      case "expression" => ExpressionArm
      case "attribute" => AttributeArm
      case "block" => BlockArm
      case "body" => BodyArm
      case "config_file" => ConfigFileArm
      case "collection_value" => CollectionValueArm
      case "tuple" => TupleArm
      case "object" => ObjectArm
      case "object_elem" => ObjectElemArm
      case "variable_expr" => VariableExprArm
      case "function_call" => FunctionCallArm
      case "get_attr" => GetAttrArm
      case _ => Unhandled
  }

  /** `codegen(node)`. Literals and identifiers are their text; unhandled
      types, `comment` among them, are the empty string. */
  function Codegen(d: Dialect, n: Node): (r: Result<string>)
    decreases n, 2
    ensures n.kind in LiteralKinds || n.kind == "identifier" ==> r == Ok(n.text)
    ensures n.kind !in HandledKinds ==> r == Ok("")
    ensures r.Fail? ==> Thrown(d, r.error)
  {
    match ArmOf(n.kind)
    case TextArm => Ok(n.text)
    case ExpressionArm => EmitExpression(d, n)
    case AttributeArm => EmitAttribute(d, n)
    case BlockArm => EmitBlock(d, n)
    case BodyArm => EmitBody(d, n)
    case ConfigFileArm => EmitConfigFile(d, n)
    case CollectionValueArm => EmitCollectionValue(d, n)
    case TupleArm => EmitTuple(d, n)
    case ObjectArm => EmitObject(d, n)
    case ObjectElemArm => EmitObjectElem(d, n)
    case VariableExprArm => EmitVariableExpr(n)
    case FunctionCallArm => EmitFunctionCall(d, n)
    case GetAttrArm => EmitGetAttr(d, n)
    case Unhandled => Ok("")
  }

  /** `codegen(x)` where `x` may be `undefined`: reading `x.type` throws. */
  function CodegenMaybe(d: Dialect, parent: Node, c: Option<Node>): (r: Result<string>)
    requires c.Some? ==> c.value in parent.children
    decreases parent, 0, 0
    ensures c.None? ==> r == Fail(UndefinedNode)
    ensures c.Some? ==> r == Codegen(d, c.value)
    ensures r.Fail? ==> Thrown(d, r.error)
  {
    match c
    case None => Fail(UndefinedNode)
    case Some(n) => Codegen(d, n)
  }

  /** `nodes.map(codegen)` over children of `parent`. */
  function CodegenAll(d: Dialect, parent: Node, nodes: seq<Node>): (r: Result<seq<string>>)
    requires forall i :: 0 <= i < |nodes| ==> nodes[i] in parent.children
    requires forall i :: 0 <= i < |nodes| ==> nodes[i] < parent
    decreases parent, 0, |nodes|
    ensures r.Ok? <==> forall i :: 0 <= i < |nodes| ==> Codegen(d, nodes[i]).Ok?
    ensures r.Ok? ==> |r.value| == |nodes|
    ensures r.Ok? ==> forall i :: 0 <= i < |nodes| ==> Codegen(d, nodes[i]) == Ok(r.value[i])
    ensures r.Fail? ==> Thrown(d, r.error)
  {
    if |nodes| == 0 then Ok([])
    else
      var head :- Codegen(d, nodes[0]);
      var tail :- CodegenAll(d, parent, nodes[1..]);
      Ok([head] + tail)
  }

  /** `emitExpression`. index.ts: a term alone is compiled directly; a term
      with postfix steps becomes the JSON text of an `expressions` intrinsic
      whose `term` is the term's code and whose `rest` lists the steps'
      codes. index.js: the codes of all named children joined by `.`. */
  function EmitExpression(d: Dialect, n: Node): (r: Result<string>)
    decreases n, 1
    ensures r.Fail? ==> Thrown(d, r.error)
    ensures d.Ts? && |NamedChildren(n)| == 0 ==> r == Fail(UndefinedNode)
    ensures d.Ts? && |NamedChildren(n)| == 1 ==> r == Codegen(d, NamedChildren(n)[0])
    ensures d.Ts? && |NamedChildren(n)| > 1 ==>
      (r.Ok? <==> Codegen(d, NamedChildren(n)[0]).Ok? && CodegenAll(d, n, NamedChildren(n)[1..]).Ok?)
    ensures d.Ts? && |NamedChildren(n)| > 1 && r.Ok? ==>
      && Codegen(d, NamedChildren(n)[0]).Ok?
      && CodegenAll(d, n, NamedChildren(n)[1..]).Ok?
      && r.value == Serialize(ExpressionsValue(Codegen(d, NamedChildren(n)[0]).value,
                                               CodegenAll(d, n, NamedChildren(n)[1..]).value))
    ensures d.Js? ==> (r.Ok? <==> CodegenAll(d, n, NamedChildren(n)).Ok?)
    ensures d.Js? && r.Ok? ==> r.value == Join(CodegenAll(d, n, NamedChildren(n)).value, ".")
  {
    var nc := NamedChildren(n);
    match d
    case Ts =>
      if |nc| > 1 then
        var term :- Codegen(d, nc[0]);
        var rest :- CodegenAll(d, n, nc[1..]);
        Ok(Serialize(ExpressionsValue(term, rest)))
      else CodegenMaybe(d, n, At(nc, 0))
    case Js =>
      var parts :- CodegenAll(d, n, nc);
      Ok(Join(parts, "."))
  }

  /** The object index.ts serializes for a chain: `{fn: "expressions", args:
      [{name: "term", value: term}, {name: "rest", value: rest}]}`. */
  function ExpressionsValue(term: string, rest: seq<string>): (r: Value)
    ensures NumberFree(r)
    ensures Intrinsics.IsParsedIntrinsic(Some(r))
    ensures Intrinsics.FnOf(r) == Some(Str("expressions"))
    ensures Intrinsics.ArgNames(r) == ["term", "rest"]
    ensures Intrinsics.ArgNamed(r, "term") == Some(Str(term))
    ensures Intrinsics.ArgNamed(r, "rest") == Some(Arr(Strings(rest)))
  {
    Intrinsics.Intrinsic2("expressions", "term", Str(term), "rest", Arr(Strings(rest)))
  }

  /** The strings `ss` as JSON values. */
  function Strings(ss: seq<string>): (r: seq<Value>)
    ensures |r| == |ss|
    ensures forall i :: 0 <= i < |ss| ==> r[i] == Str(ss[i])
    ensures NumberFree(Arr(r))
  {
    seq(|ss|, i requires 0 <= i < |ss| => Str(ss[i]))
  }

  /** `emitAttribute`: `name:code`. index.ts asserts that the identifier and
      the expression exist; index.js reads `id.text` first, so a missing
      identifier throws before a missing expression is compiled. */
  function EmitAttribute(d: Dialect, n: Node): (r: Result<string>)
    decreases n, 1
    ensures r.Fail? ==> Thrown(d, r.error)
    ensures Find(NamedChildren(n), "identifier").None? ==>
      r == Fail(if d.Ts? then AssertionFailed("identifier not found in " + n.text) else UndefinedNode)
    ensures Find(NamedChildren(n), "identifier").Some? && Find(NamedChildren(n), "expression").None? ==>
      r == Fail(if d.Ts? then AssertionFailed("expression not found in " + n.text) else UndefinedNode)
    ensures Find(NamedChildren(n), "identifier").Some? && Find(NamedChildren(n), "expression").Some? ==>
      (r.Ok? <==> Codegen(d, Find(NamedChildren(n), "expression").value).Ok?)
    ensures r.Ok? ==>
      && Find(NamedChildren(n), "identifier").Some?
      && Find(NamedChildren(n), "expression").Some?
      && Codegen(d, Find(NamedChildren(n), "expression").value).Ok?
      && r.value == Find(NamedChildren(n), "identifier").value.text + ":"
                    + Codegen(d, Find(NamedChildren(n), "expression").value).value
  {
    var nc := NamedChildren(n);
    match Find(nc, "identifier")
    case None => Fail(if d.Ts? then AssertionFailed("identifier not found in " + n.text) else UndefinedNode)
    case Some(id) =>
      match Find(nc, "expression")
      case None => Fail(if d.Ts? then AssertionFailed("expression not found in " + n.text) else UndefinedNode)
      case Some(expr) =>
        var code :- Codegen(d, expr);
        Ok(id.text + ":" + code)
  }

  /** The label nodes of a block whose name is the identifier at position
      `name`: every other identifier, and every string literal, in order.
      (The source compares nodes by identity; within one `namedChildren`
      array that is a comparison of positions.) */
  function LabelNodes(nc: seq<Node>, name: nat, from: nat): (r: seq<Node>)
    decreases |nc| - from
    ensures forall i :: 0 <= i < |r| ==> r[i] in nc && (r[i].kind == "identifier" || r[i].kind == "string_lit")
    ensures forall j :: from <= j < |nc| && nc[j].kind == "string_lit" ==> nc[j] in r
    ensures forall j :: from <= j < |nc| && j != name && nc[j].kind == "identifier" ==> nc[j] in r
  {
    if from >= |nc| then []
    else
      var here := (nc[from].kind == "identifier" && from != name) || nc[from].kind == "string_lit";
      (if here then [nc[from]] else []) + LabelNodes(nc, name, from + 1)
  }

  /** One label: an identifier verbatim, a string literal `JSON.parse`d. */
  function LabelText(n: Node): (r: Result<string>)
    ensures n.kind == "identifier" ==> r == Ok(n.text)
    ensures n.kind != "identifier" ==> r == DecodeString(n.text)
  {
    if n.kind == "identifier" then Ok(n.text) else DecodeString(n.text)
  }

  function LabelTexts(nodes: seq<Node>): (r: Result<seq<string>>)
    ensures r.Ok? <==> forall i :: 0 <= i < |nodes| ==> LabelText(nodes[i]).Ok?
    ensures r.Ok? ==> |r.value| == |nodes|
    ensures r.Ok? ==> forall i :: 0 <= i < |nodes| ==> LabelText(nodes[i]) == Ok(r.value[i])
    ensures r.Fail? ==> r.error.JsonSyntax?
  {
    if |nodes| == 0 then Ok([])
    else
      var head :- LabelText(nodes[0]);
      var tail :- LabelTexts(nodes[1..]);
      Ok([head] + tail)
  }

  /** `emitBlock`. A block without a name identifier is a spread `...body`;
      a named one is `key:body`, or `key:{}` without a body. */
  function EmitBlock(d: Dialect, n: Node): (r: Result<string>)
    decreases n, 1
    ensures r.Fail? ==> Thrown(d, r.error)
    ensures Find(NamedChildren(n), "identifier").None? && Find(NamedChildren(n), "body").None? ==>
      r == Fail(if d.Ts? then AssertionFailed("body not found in " + n.text) else UndefinedNode)
    ensures Find(NamedChildren(n), "identifier").None? && Find(NamedChildren(n), "body").Some? ==>
      && (r.Ok? <==> Codegen(d, Find(NamedChildren(n), "body").value).Ok?)
      && (r.Ok? ==> r.value == "..." + Codegen(d, Find(NamedChildren(n), "body").value).value)
    ensures Find(NamedChildren(n), "identifier").Some? ==>
      var nc := NamedChildren(n);
      var name := FindIndex(nc, "identifier", []).value;
      r.Ok? <==> LabelTexts(LabelNodes(nc, name, 0)).Ok? && (Find(nc, "body").Some? ==> Codegen(d, Find(nc, "body").value).Ok?)
    ensures r.Ok? && Find(NamedChildren(n), "identifier").Some? ==>
      var nc := NamedChildren(n);
      var name := FindIndex(nc, "identifier", []).value;
      && LabelTexts(LabelNodes(nc, name, 0)).Ok?
      && var key := Key(nc[name].text, LabelTexts(LabelNodes(nc, name, 0)).value, Sep(d));
         if Find(nc, "body").None? then r.value == key + ":{}"
         else Codegen(d, Find(nc, "body").value).Ok?
              && r.value == key + ":" + Codegen(d, Find(nc, "body").value).value
  {
    var nc := NamedChildren(n);
    match FindIndex(nc, "identifier", [])
    case None =>
      (match Find(nc, "body")
       case None => Fail(if d.Ts? then AssertionFailed("body not found in " + n.text) else UndefinedNode)
       case Some(body) =>
         // index.ts also asserts that the body's code is not an intrinsic;
         // the code is a string, so that never fails (AnonymousBodyNotIntrinsic)
         var b :- Codegen(d, body);
         Ok("..." + b))
    case Some(name) =>
      var labels :- LabelTexts(LabelNodes(nc, name, 0));
      var key := Key(nc[name].text, labels, Sep(d));
      match Find(nc, "body")
      case None => Ok(key + ":{}")
      case Some(body) =>
        var b :- Codegen(d, body);
        Ok(key + ":" + b)
  }

  /** `emitBody`: the children's codes joined by `,`, in braces. */
  function EmitBody(d: Dialect, n: Node): (r: Result<string>)
    decreases n, 1
    ensures r.Fail? ==> Thrown(d, r.error)
    ensures r.Ok? <==> CodegenAll(d, n, NamedChildren(n)).Ok?
    ensures r.Ok? ==> r.value == "{" + Join(CodegenAll(d, n, NamedChildren(n)).value, ",") + "}"
  {
    var parts :- CodegenAll(d, n, NamedChildren(n));
    Ok("{" + Join(parts, ",") + "}")
  }

  /** `emitConfigFile`: the code of the first body. Without one, index.ts's
      assertion throws; index.js's console assertion only logs, and the
      following `codegen(undefined)` throws. */
  function EmitConfigFile(d: Dialect, n: Node): (r: Result<string>)
    decreases n, 1
    ensures r.Fail? ==> Thrown(d, r.error)
    ensures Find(NamedChildren(n), "body").None? ==>
      r == Fail(if d.Ts? then AssertionFailed("body not found") else UndefinedNode)
    ensures Find(NamedChildren(n), "body").Some? ==> r == Codegen(d, Find(NamedChildren(n), "body").value)
  {
    match Find(NamedChildren(n), "body")
    case None => Fail(if d.Ts? then AssertionFailed("body not found") else UndefinedNode)
    case Some(body) => Codegen(d, body)
  }

  /** `emitCollectionValue`: the code of the first named child. */
  function EmitCollectionValue(d: Dialect, n: Node): (r: Result<string>)
    decreases n, 1
    ensures r.Fail? ==> Thrown(d, r.error)
    ensures |NamedChildren(n)| == 0 ==> r == Fail(UndefinedNode)
    ensures |NamedChildren(n)| > 0 ==> r == Codegen(d, NamedChildren(n)[0])
  {
    CodegenMaybe(d, n, At(NamedChildren(n), 0))
  }

  /** `emitTuple`: the elements' codes joined by `,`, in brackets, after
      dropping the `tuple_start`/`tuple_end` children. */
  function EmitTuple(d: Dialect, n: Node): (r: Result<string>)
    decreases n, 1
    ensures r.Fail? ==> Thrown(d, r.error)
    ensures var elems := Without(NamedChildren(n), "tuple_start", "tuple_end");
      && (r.Ok? <==> CodegenAll(d, n, elems).Ok?)
      && (r.Ok? ==> r.value == "[" + Join(CodegenAll(d, n, elems).value, ",") + "]")
  {
    var parts :- CodegenAll(d, n, Without(NamedChildren(n), "tuple_start", "tuple_end"));
    Ok("[" + Join(parts, ",") + "]")
  }

  /** `emitObject`: the elements' codes joined by `,`, in braces, after
      dropping the `object_start`/`object_end` children. */
  function EmitObject(d: Dialect, n: Node): (r: Result<string>)
    decreases n, 1
    ensures r.Fail? ==> Thrown(d, r.error)
    ensures var elems := Without(NamedChildren(n), "object_start", "object_end");
      && (r.Ok? <==> CodegenAll(d, n, elems).Ok?)
      && (r.Ok? ==> r.value == "{" + Join(CodegenAll(d, n, elems).value, ",") + "}")
  {
    var parts :- CodegenAll(d, n, Without(NamedChildren(n), "object_start", "object_end"));
    Ok("{" + Join(parts, ",") + "}")
  }

  /** `emitObjectElem`: `key:value` from the first two `expression` children;
      a missing one is `codegen(undefined)`. */
  function EmitObjectElem(d: Dialect, n: Node): (r: Result<string>)
    decreases n, 1
    ensures r.Fail? ==> Thrown(d, r.error)
    ensures |OfKind(NamedChildren(n), "expression")| == 0 ==> r == Fail(UndefinedNode)
    ensures |OfKind(NamedChildren(n), "expression")| == 1 ==> r.Fail?
    ensures var es := OfKind(NamedChildren(n), "expression");
      |es| >= 2 ==> (r.Ok? <==> Codegen(d, es[0]).Ok? && Codegen(d, es[1]).Ok?)
    ensures r.Ok? ==>
      var es := OfKind(NamedChildren(n), "expression");
      && |es| >= 2
      && Codegen(d, es[0]).Ok? && Codegen(d, es[1]).Ok?
      && r.value == Codegen(d, es[0]).value + ":" + Codegen(d, es[1]).value
  {
    var es := OfKind(NamedChildren(n), "expression");
    var key :- CodegenMaybe(d, n, At(es, 0));
    var val :- CodegenMaybe(d, n, At(es, 1));
    Ok(key + ":" + val)
  }

  /** `emitVariableExpr`: the text of the first named child. */
  function EmitVariableExpr(n: Node): (r: Result<string>)
    ensures r.Fail? <==> |NamedChildren(n)| == 0
    ensures r.Fail? ==> r.error == UndefinedNode
    ensures r.Ok? ==> r.value == NamedChildren(n)[0].text
  {
    match At(NamedChildren(n), 0)
    case None => Fail(UndefinedNode)
    case Some(c) => Ok(c.text)
  }

  /** `emitFunctionCall`: `fn_name(args)` with the arguments' codes joined
      by `,`; `fn_name()` without a `function_arguments` child. */
  function EmitFunctionCall(d: Dialect, n: Node): (r: Result<string>)
    decreases n, 1
    ensures r.Fail? ==> Thrown(d, r.error)
    ensures |NamedChildren(n)| == 0 ==> r == Fail(UndefinedNode)
    ensures r.Ok? ==> StartsWith(r.value, "fn_" + NamedChildren(n)[0].text + "(")
    ensures |NamedChildren(n)| > 0 && Find(NamedChildren(n), "function_arguments").None? ==>
      r == Ok("fn_" + NamedChildren(n)[0].text + "()")
    ensures |NamedChildren(n)| > 0 && Find(NamedChildren(n), "function_arguments").Some? ==>
      var a := Find(NamedChildren(n), "function_arguments").value;
      r.Ok? <==> CodegenAll(d, a, NamedChildren(a)).Ok?
    ensures r.Ok? && Find(NamedChildren(n), "function_arguments").Some? ==>
      var a := Find(NamedChildren(n), "function_arguments").value;
      && CodegenAll(d, a, NamedChildren(a)).Ok?
      && r.value == "fn_" + NamedChildren(n)[0].text + "(" + Join(CodegenAll(d, a, NamedChildren(a)).value, ",") + ")"
  {
    var nc := NamedChildren(n);
    if |nc| == 0 then Fail(UndefinedNode)
    else
      match Find(nc, "function_arguments")
      case None => Ok("fn_" + nc[0].text + "()")
      case Some(a) =>
        var args :- CodegenAll(d, a, NamedChildren(a));
        Ok("fn_" + nc[0].text + "(" + Join(args, ",") + ")")
  }

  /** `emitGetAttr`: the named children's codes joined by `.`. */
  function EmitGetAttr(d: Dialect, n: Node): (r: Result<string>)
    decreases n, 1
    ensures r.Fail? ==> Thrown(d, r.error)
    ensures r.Ok? <==> CodegenAll(d, n, NamedChildren(n)).Ok?
    ensures r.Ok? ==> r.value == Join(CodegenAll(d, n, NamedChildren(n)).value, ".")
  {
    var parts :- CodegenAll(d, n, NamedChildren(n));
    Ok(Join(parts, "."))
  }
}
