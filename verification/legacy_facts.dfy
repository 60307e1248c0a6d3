/** What can be read back from the legacy emitters' output: the attribute
    name before the first `:`, a block's name and labels from its key, the
    entries of a body and the steps of an index.js expression; and where the
    encoding loses information.
 */
module LegacyFacts {
  import opened Wrappers
  import opened Json
  import opened Cst
  import opened Text
  import opened BlockKeys
  import opened Legacy
  import Intrinsics

  /** Which emitter `codegen`'s switch sends each handled node type to. */
  lemma Dispatch(d: Dialect, n: Node)
    ensures n.kind == "expression" ==> Codegen(d, n) == EmitExpression(d, n)
    ensures n.kind == "attribute" ==> Codegen(d, n) == EmitAttribute(d, n)
    ensures n.kind == "block" ==> Codegen(d, n) == EmitBlock(d, n)
    ensures n.kind == "body" ==> Codegen(d, n) == EmitBody(d, n)
    ensures n.kind == "config_file" ==> Codegen(d, n) == EmitConfigFile(d, n)
    ensures n.kind == "collection_value" ==> Codegen(d, n) == EmitCollectionValue(d, n)
    ensures n.kind == "tuple" ==> Codegen(d, n) == EmitTuple(d, n)
    ensures n.kind == "object" ==> Codegen(d, n) == EmitObject(d, n)
    ensures n.kind == "object_elem" ==> Codegen(d, n) == EmitObjectElem(d, n)
    ensures n.kind == "variable_expr" ==> Codegen(d, n) == EmitVariableExpr(n)
    ensures n.kind == "function_call" ==> Codegen(d, n) == EmitFunctionCall(d, n)
    ensures n.kind == "get_attr" ==> Codegen(d, n) == EmitGetAttr(d, n)
  {
    DispatchStructure(d, n);
    DispatchValues(d, n);
    DispatchObjects(d, n);
    DispatchExpressions(d, n);
  }

  /** The arms for the structural node types. */
  lemma DispatchStructure(d: Dialect, n: Node)
    ensures n.kind == "expression" ==> Codegen(d, n) == EmitExpression(d, n)
    ensures n.kind == "attribute" ==> Codegen(d, n) == EmitAttribute(d, n)
    ensures n.kind == "block" ==> Codegen(d, n) == EmitBlock(d, n)
    ensures n.kind == "body" ==> Codegen(d, n) == EmitBody(d, n)
    ensures n.kind == "config_file" ==> Codegen(d, n) == EmitConfigFile(d, n)
  {
  }

  /** The arms for collection values and tuples. */
  lemma DispatchValues(d: Dialect, n: Node)
    ensures n.kind == "collection_value" ==> Codegen(d, n) == EmitCollectionValue(d, n)
    ensures n.kind == "tuple" ==> Codegen(d, n) == EmitTuple(d, n)
  {
  }

  /** The arms for objects and their elements. */
  lemma DispatchObjects(d: Dialect, n: Node)
    ensures n.kind == "object" ==> Codegen(d, n) == EmitObject(d, n)
    ensures n.kind == "object_elem" ==> Codegen(d, n) == EmitObjectElem(d, n)
  {
  }

  /** The arms for the expression node types. */
  lemma DispatchExpressions(d: Dialect, n: Node)
    ensures n.kind == "variable_expr" ==> Codegen(d, n) == EmitVariableExpr(n)
    ensures n.kind == "function_call" ==> Codegen(d, n) == EmitFunctionCall(d, n)
    ensures n.kind == "get_attr" ==> Codegen(d, n) == EmitGetAttr(d, n)
  {
  }

  /** The assertion index.ts makes on an anonymous block's body can never
      fail: the body's code is a string, and no string is an intrinsic. */
  lemma AnonymousBodyNotIntrinsic(b: string)
    ensures !Intrinsics.IsParsedIntrinsic(Some(Str(b)))
  {
  }

  /** An attribute's name is the text before the first `:` of its code, and
      the value's code is everything after it, provided the name has no `:`. */
  lemma AttributeSplit(d: Dialect, n: Node)
    requires EmitAttribute(d, n).Ok?
    requires ':' !in Find(NamedChildren(n), "identifier").value.text
    ensures var r := EmitAttribute(d, n).value;
      var name := Find(NamedChildren(n), "identifier").value.text;
      && IndexOf(r, ":") == Some(|name|)
      && r[..|name|] == name
      && r[|name| + 1..] == Codegen(d, Find(NamedChildren(n), "expression").value).value
  {
    var r := EmitAttribute(d, n).value;
    var name := Find(NamedChildren(n), "identifier").value.text;
    var code := Codegen(d, Find(NamedChildren(n), "expression").value).value;
    assert r == name + [':'] + code;
    SplitAtFirst(name, ':', code);
  }

  /** An object element's code `key:value` splits at its first `:` back into
      the codes of its two expressions, when the key's code holds no `:`. */
  lemma ObjectElemSplit(d: Dialect, n: Node)
    requires EmitObjectElem(d, n).Ok?
    requires |OfKind(NamedChildren(n), "expression")| >= 2
    requires ':' !in Codegen(d, OfKind(NamedChildren(n), "expression")[0]).value
    ensures var r := EmitObjectElem(d, n).value;
      var es := OfKind(NamedChildren(n), "expression");
      var key := Codegen(d, es[0]).value;
      && IndexOf(r, ":") == Some(|key|)
      && r[..|key|] == key
      && r[|key| + 1..] == Codegen(d, es[1]).value
  {
    var r := EmitObjectElem(d, n).value;
    var es := OfKind(NamedChildren(n), "expression");
    var key := Codegen(d, es[0]).value;
    var val := Codegen(d, es[1]).value;
    assert r == key + [':'] + val;
    SplitAtFirst(key, ':', val);
  }

  /** The empty body `{ }` has code `{}`. */
  lemma EmptyBodyCode(d: Dialect)
    ensures Codegen(d, Node("body", "{ }", true, [])) == Ok("{}")
  {
    var body := Node("body", "{ }", true, []);
    assert NamedChildren(body) == [];
    assert CodegenAll(d, body, []) == Ok([]);
    assert "{" + Join([], ",") + "}" == "{}";
  }

  /** A named block whose name is the `i`th named child, whose labels read
      `labels` and whose body has code `b` has code `key:b`. */
  lemma NamedBlockCode(d: Dialect, n: Node, nc: seq<Node>, i: nat, labels: seq<string>, body: Node, b: string)
    requires NamedChildren(n) == nc
    requires FindIndex(nc, "identifier", []) == Some(i)
    requires LabelTexts(LabelNodes(nc, i, 0)) == Ok(labels)
    requires Find(nc, "body") == Some(body)
    requires Codegen(d, body) == Ok(b)
    ensures EmitBlock(d, n) == Ok(Key(nc[i].text, labels, Sep(d)) + ":" + b)
  {
  }

  /** A block `name { … }` has code `name:` followed by its body's code. */
  lemma NameBlockCode(d: Dialect, t: string, a: Node, body: Node)
    requires a.kind == "identifier" && a.isNamed && body.kind == "body" && body.isNamed
    requires Codegen(d, body).Ok?
    ensures EmitBlock(d, Node("block", t, true, [a, body])) == Ok(a.text + ":" + Codegen(d, body).value)
  {
    var nc := [a, body];
    ShapeOfTwo(t, a, body);
    NamedBlockCode(d, Node("block", t, true, nc), nc, 0, [], body, Codegen(d, body).value);
  }

  /** A block `name label { … }` has code `name`, the separator, `label`, `:`
      and its body's code. */
  lemma LabelBlockCode(d: Dialect, t: string, a: Node, b: Node, body: Node)
    requires a.kind == "identifier" && a.isNamed && b.kind == "identifier" && b.isNamed
    requires body.kind == "body" && body.isNamed
    requires Codegen(d, body).Ok?
    ensures EmitBlock(d, Node("block", t, true, [a, b, body])) == Ok(a.text + Sep(d) + b.text + ":" + Codegen(d, body).value)
  {
    var nc := [a, b, body];
    ShapeOfThree(t, a, b, body);
    LabelOfThree(a, b, body);
    NamedBlockCode(d, Node("block", t, true, nc), nc, 0, [b.text], body, Codegen(d, body).value);
    assert Join([b.text], Sep(d)) == b.text;
  }

  /** A block named `a_b` and the block `a` labelled `b`, with the same body,
      get the same index.js code: the `_` separator cannot be told apart from
      an underscore in a name. */
  lemma UnderscoreBlocksCollide(t1: string, t2: string, ab: Node, a: Node, b: Node, body: Node)
    requires ab.kind == "identifier" && ab.isNamed && a.kind == "identifier" && a.isNamed
    requires b.kind == "identifier" && b.isNamed
    requires body.kind == "body" && body.isNamed && Codegen(Js, body).Ok?
    requires ab.text == a.text + "_" + b.text
    ensures EmitBlock(Js, Node("block", t1, true, [ab, body])).Ok?
    ensures EmitBlock(Js, Node("block", t1, true, [ab, body])) == EmitBlock(Js, Node("block", t2, true, [a, b, body]))
  {
    NameBlockCode(Js, t1, ab, body);
    LabelBlockCode(Js, t2, a, b, body);
  }

  /** `[name, body]`: the name first, no labels. */
  lemma ShapeOfTwo(t: string, a: Node, body: Node)
    requires a.kind == "identifier" && body.kind == "body" && a.isNamed && body.isNamed
    ensures NamedChildren(Node("block", t, true, [a, body])) == [a, body]
    ensures FindIndex([a, body], "identifier", []) == Some(0)
    ensures Find([a, body], "body") == Some(body)
    ensures LabelTexts(LabelNodes([a, body], 0, 0)) == Ok([])
  {
    assert LabelNodes([a, body], 0, 2) == [];
    assert LabelNodes([a, body], 0, 1) == [];
  }

  /** `[name, label, body]`: the name first, one identifier label. */
  lemma ShapeOfThree(t: string, a: Node, b: Node, body: Node)
    requires a.kind == "identifier" && b.kind == "identifier" && body.kind == "body"
    requires a.isNamed && b.isNamed && body.isNamed
    ensures NamedChildren(Node("block", t, true, [a, b, body])) == [a, b, body]
    ensures FindIndex([a, b, body], "identifier", []) == Some(0)
    ensures Find([a, b, body], "body") == Some(body)
  {
    assert [a, b, body][0] == a;
  }

  /** The labels of `[name, label, body]` read `[label]`. */
  lemma LabelOfThree(a: Node, b: Node, body: Node)
    requires a.kind == "identifier" && b.kind == "identifier" && body.kind == "body"
    ensures LabelTexts(LabelNodes([a, b, body], 0, 0)) == Ok([b.text])
  {
    assert LabelNodes([a, b, body], 0, 3) == [];
    assert LabelNodes([a, b, body], 0, 2) == [];
    assert LabelNodes([a, b, body], 0, 1) == [b];
    assert LabelNodes([a, b, body], 0, 0) == [b];
    assert LabelTexts([b]).value == [b.text];
  }

  /** The entries of a body, tuple or object are recovered by splitting the
      text between its brackets on `,`, provided no entry holds a `,`. */
  lemma ListingEntries(open: char, codes: seq<string>, close: char)
    requires |codes| > 0
    requires forall k :: 0 <= k < |codes| ==> ',' !in codes[k]
    ensures var r := [open] + Join(codes, ",") + [close];
      Split(r[1..|r| - 1], ",") == codes
  {
    var r := [open] + Join(codes, ",") + [close];
    assert r[1..|r| - 1] == Join(codes, [',']);
    SplitJoinChar(codes, ',');
  }

  /** The codes of a body's entries are recovered from its code by
      splitting between the braces on `,`, when no entry's code holds a `,`. */
  lemma BodyEntries(d: Dialect, n: Node, codes: seq<string>)
    requires CodegenAll(d, n, NamedChildren(n)) == Ok(codes)
    requires |codes| > 0
    requires forall k :: 0 <= k < |codes| ==> ',' !in codes[k]
    ensures EmitBody(d, n).Ok?
    ensures var r := EmitBody(d, n).value;
      Split(r[1..|r| - 1], ",") == codes
  {
    ListingEntries('{', codes, '}');
  }

  /** index.js: an expression's code splits on `.` back into the codes of
      its named children, when none of them holds a `.`. */
  lemma JsExpressionSteps(n: Node, codes: seq<string>)
    requires CodegenAll(Js, n, NamedChildren(n)) == Ok(codes)
    requires |codes| > 0
    requires forall k :: 0 <= k < |codes| ==> '.' !in codes[k]
    ensures EmitExpression(Js, n) == Ok(Join(codes, "."))
    ensures Split(Join(codes, "."), ".") == codes
  {
    SplitJoinChar(codes, '.');
  }

  /** An attribute reference's code splits on `.` back into the codes of
      its named children, when none of them holds a `.`. */
  lemma GetAttrSteps(d: Dialect, n: Node, codes: seq<string>)
    requires CodegenAll(d, n, NamedChildren(n)) == Ok(codes)
    requires |codes| > 0
    requires forall k :: 0 <= k < |codes| ==> '.' !in codes[k]
    ensures EmitGetAttr(d, n) == Ok(Join(codes, "."))
    ensures Split(Join(codes, "."), ".") == codes
  {
    SplitJoinChar(codes, '.');
  }

  /** In `fn_name(inner)`, with no `(` in the name, the first `(` closes the
      name: the name and the text between the parentheses read back. */
  lemma CallTextSplit(name: string, inner: string)
    requires '(' !in name
    ensures var r := "fn_" + name + "(" + inner + ")";
      && IndexOf(r, "(") == Some(|name| + 3)
      && r[3..|name| + 3] == name
      && r[|name| + 4..|r| - 1] == inner
  {
    var p := "fn_" + name;
    assert '(' !in p;
    var r := "fn_" + name + "(" + inner + ")";
    assert r == p + ['('] + (inner + ")");
    FirstAfterPrefix(p, '(', inner + ")");
  }

  /** A call without an argument list is `fn_name()`, and the name reads
      back before the first `(`. */
  lemma CallWithoutArguments(d: Dialect, n: Node, name: string)
    requires |NamedChildren(n)| > 0 && NamedChildren(n)[0].text == name
    requires Find(NamedChildren(n), "function_arguments").None?
    requires '(' !in name
    ensures EmitFunctionCall(d, n) == Ok("fn_" + name + "(" + "" + ")")
    ensures var r := "fn_" + name + "(" + "" + ")";
      IndexOf(r, "(") == Some(|name| + 3) && r[3..|name| + 3] == name && r[|name| + 4..|r| - 1] == ""
  {
    assert "fn_" + name + "(" + "" + ")" == "fn_" + name + "()";
    CallTextSplit(name, "");
  }

  /** A call with arguments is `fn_name(a,b,...)`: the name reads back
      before the first `(`, and the text between the parentheses splits on
      `,` back into the arguments' codes, when none of them holds a `,`. */
  lemma CallArguments(d: Dialect, n: Node, name: string, a: Node, codes: seq<string>)
    requires |NamedChildren(n)| > 0 && NamedChildren(n)[0].text == name
    requires Find(NamedChildren(n), "function_arguments") == Some(a)
    requires CodegenAll(d, a, NamedChildren(a)) == Ok(codes)
    requires '(' !in name
    requires |codes| > 0
    requires forall k :: 0 <= k < |codes| ==> ',' !in codes[k]
    ensures EmitFunctionCall(d, n) == Ok("fn_" + name + "(" + Join(codes, ",") + ")")
    ensures var r := "fn_" + name + "(" + Join(codes, ",") + ")";
      && IndexOf(r, "(") == Some(|name| + 3)
      && r[3..|name| + 3] == name
      && Split(r[|name| + 4..|r| - 1], ",") == codes
  {
    CallTextSplit(name, Join(codes, ","));
    SplitJoinChar(codes, ',');
  }

  /** The labels keep the block's order: appending a named child appends it
      to the labels exactly when it is a string literal or an identifier
      other than the name. */
  lemma {:induction false} LabelNodesSnoc(nc: seq<Node>, x: Node, name: nat, from: nat)
    requires from <= |nc|
    decreases |nc| - from
    ensures LabelNodes(nc + [x], name, from) == LabelNodes(nc, name, from)
      + (if (x.kind == "identifier" && |nc| != name) || x.kind == "string_lit" then [x] else [])
  {
    if from < |nc| {
      assert (nc + [x])[from] == nc[from];
      LabelNodesSnoc(nc, x, name, from + 1);
    } else {
      assert (nc + [x])[from] == x;
      assert LabelNodes(nc + [x], name, from + 1) == [];
    }
  }

  /** A tuple `[e1, ..., ek]` has code `[c1,...,ck]` with the elements' codes
      in source order, and splitting between the brackets on `,` gives them
      back when none holds a `,`. */
  lemma TupleEntries(d: Dialect, n: Node, open: Node, xs: seq<Node>, close: Node, codes: seq<string>)
    requires NamedChildren(n) == [open] + xs + [close]
    requires open.kind == "tuple_start" && close.kind == "tuple_end"
    requires forall i :: 0 <= i < |xs| ==> xs[i].kind != "tuple_start" && xs[i].kind != "tuple_end"
    requires CodegenAll(d, n, xs) == Ok(codes)
    requires |codes| > 0
    requires forall k :: 0 <= k < |codes| ==> ',' !in codes[k]
    ensures EmitTuple(d, n) == Ok("[" + Join(codes, ",") + "]")
    ensures var r := "[" + Join(codes, ",") + "]";
      Split(r[1..|r| - 1], ",") == codes
  {
    WithoutDelimiters(open, xs, close, "tuple_start", "tuple_end");
    ListingEntries('[', codes, ']');
  }

  /** The same for an object `{k1 = v1, ...}` and its elements' codes. */
  lemma ObjectEntries(d: Dialect, n: Node, open: Node, xs: seq<Node>, close: Node, codes: seq<string>)
    requires NamedChildren(n) == [open] + xs + [close]
    requires open.kind == "object_start" && close.kind == "object_end"
    requires forall i :: 0 <= i < |xs| ==> xs[i].kind != "object_start" && xs[i].kind != "object_end"
    requires CodegenAll(d, n, xs) == Ok(codes)
    requires |codes| > 0
    requires forall k :: 0 <= k < |codes| ==> ',' !in codes[k]
    ensures EmitObject(d, n) == Ok("{" + Join(codes, ",") + "}")
    ensures var r := "{" + Join(codes, ",") + "}";
      Split(r[1..|r| - 1], ",") == codes
  {
    WithoutDelimiters(open, xs, close, "object_start", "object_end");
    ListingEntries('{', codes, '}');
  }
}
