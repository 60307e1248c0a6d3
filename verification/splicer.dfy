/** The splice step of `tfx2json` (tfx2json.ts lines 95-115): the JSON that
    hcl2json prints is walked, and every string that starts with `${` is
    replaced by the compiled expression it holds.

    The tree-sitter parser is a parameter: `parse` maps source text to the
    root of its concrete syntax tree. So is the expression compiler, which
    `Tfx2Json` fixes to `Compiler.Codegen`; the walk's properties hold for
    any compiler. The walk follows `traverse(...).map`:
    the callback runs on every node, the root included, and after an
    `update` the walk goes on into the children of the replacement. The
    replacement itself is not visited again.
 */
module Splicer {
  import opened Wrappers
  import opened Json
  import opened Cst
  import Text
  import Compiler

  /** What hcl2json leaves for an interpolation: a string starting with `${`. */
  predicate IsTemplate(s: string) {
    Text.StartsWith(s, "${")
  }

  /** The one-attribute block the template is wrapped in before parsing:
      `${` becomes `mock{mock=`. */
  function MockSource(s: string): (r: string)
    requires IsTemplate(s)
    ensures r == "mock{mock=" + s[2..]
    ensures Text.StartsWith(r, "mock{mock=")
  {
    Text.ReplaceFirst(s, "${", "mock{mock=")
  }

  /** The first named child of type `kind`, or the assertion failure `message`. */
  function Expect(n: Node, kind: string, message: string): (r: Result<Node>)
    ensures r.Ok? <==> Find(NamedChildren(n), kind).Some?
    ensures r.Ok? ==> r.value == Find(NamedChildren(n), kind).value && r.value.kind == kind
    ensures r.Ok? ==>
      exists i :: 0 <= i < |NamedChildren(n)| && NamedChildren(n)[i] == r.value && forall j :: 0 <= j < i ==> NamedChildren(n)[j].kind != kind
    ensures r.Fail? <==> forall c :: c in NamedChildren(n) ==> c.kind != kind
    ensures r.Fail? ==> r.error == AssertionFailed(message)
  {
    match Find(NamedChildren(n), kind)
    case None => Fail(AssertionFailed(message))
    case Some(c) => Ok(c)
  }

  /** The node types on the way from the mock's root to its expression:
      `mock{mock=…}` is a body holding a block whose body holds an attribute. */
  const MockPath: seq<string> := ["body", "block", "body", "attribute", "expression"]

  /** The expression node the mock block holds: config_file, then body,
      block, inner body, attribute and expression, each the first named
      child of its type. */
  function MockExpression(root: Node): (r: Result<Node>)
    ensures root.kind != "config_file" ==> r.Fail? && r.error.AssertionFailed?
    ensures r.Ok? ==> r.value.kind == "expression" && root.kind == "config_file"
    ensures r.Ok? <==> root.kind == "config_file" && Descend(root, MockPath).Some?
    ensures r.Ok? ==> r.value == Descend(root, MockPath).value
    ensures r.Fail? ==> r.error.AssertionFailed?
  {
    if root.kind != "config_file" then Fail(AssertionFailed("parsed.rootNode.type === \"config_file\""))
    else
      MockPathSteps();
      DescendStep(root, MockPath);
      var body :- Expect(root, "body", "body not found");
      DescendStep(body, MockPath[1..]);
      var block :- Expect(body, "block", "block not found");
      DescendStep(block, MockPath[2..]);
      var innerBody :- Expect(block, "body", "inner body not found");
      DescendStep(innerBody, MockPath[3..]);
      var attr :- Expect(innerBody, "attribute", "attribute not found");
      DescendStep(attr, MockPath[4..]);
      Expect(attr, "expression", "expression not found")
  }

  /** The suffixes of `MockPath`, one step at a time. */
  lemma MockPathSteps()
    ensures MockPath[0] == "body" && MockPath[1..][0] == "block" && MockPath[2..][0] == "body"
    ensures MockPath[3..][0] == "attribute" && MockPath[4..][0] == "expression"
    ensures MockPath[1..][1..] == MockPath[2..] && MockPath[2..][1..] == MockPath[3..]
    ensures MockPath[3..][1..] == MockPath[4..] && MockPath[4..][1..] == []
  {
  }

  /** The callback's work on one template string: parse the mock block and
      compile the expression found in it. */
  function Interpolate(parse: string -> Node, compile: Node -> Result<Value>, s: string): (r: Result<Value>)
    requires IsTemplate(s)
    ensures r.Ok? ==> MockExpression(parse(MockSource(s))).Ok?
    ensures r.Ok? ==> compile(MockExpression(parse(MockSource(s))).value) == r
    ensures MockExpression(parse(MockSource(s))).Fail? ==> r == Fail(MockExpression(parse(MockSource(s))).error)
    ensures MockExpression(parse(MockSource(s))).Ok? ==> r == compile(MockExpression(parse(MockSource(s))).value)
  {
    var expr :- MockExpression(parse(MockSource(s)));
    compile(expr)
  }

  /** No string anywhere in `v` is a template. */
  predicate NoTemplates(v: Value) {
    match v
    case Str(s) => !IsTemplate(s)
    case Arr(items) => forall i :: 0 <= i < |items| ==> NoTemplates(items[i])
    case Obj(fields) => forall i :: 0 <= i < |fields| ==> NoTemplates(fields[i].value)
    case _ => true
  }

  /** `r` is `v` with some template strings replaced: the same arrays (by
      length), the same objects (by keys, in order) and the same other
      leaves; only templates may differ. */
  predicate Replaces(v: Value, r: Value) {
    match v
    case Str(s) => IsTemplate(s) || r == v
    case Arr(items) =>
      && r.Arr? && |r.items| == |items|
      && forall i :: 0 <= i < |items| ==> Replaces(items[i], r.items[i])
    case Obj(fields) =>
      && r.Obj? && Keys(r.fields) == Keys(fields)
      && forall i :: 0 <= i < |fields| ==> Replaces(fields[i].value, r.fields[i].value)
    case _ => r == v
  }

  /** `traverse(v).map(callback)`. `depth` bounds how many replacements may
      be nested inside one another; hcl2json output that needs more fails
      with `DepthExceeded`. */
  function Splice(parse: string -> Node, compile: Node -> Result<Value>, v: Value, depth: nat): (r: Result<Value>)
    decreases depth, v, 1
    ensures r.Ok? ==> Replaces(v, r.value)
  {
    match v
    case Str(s) =>
      if !IsTemplate(s) then Ok(v)
      else if depth == 0 then Fail(DepthExceeded)
      else
        var code :- Interpolate(parse, compile, s);
        SpliceInside(parse, compile, code, depth - 1)
    case Arr(items) =>
      var xs :- SpliceItems(parse, compile, v, items, depth);
      Ok(Arr(xs))
    case Obj(fields) =>
      var fs :- SpliceFields(parse, compile, v, fields, depth);
      Ok(Obj(fs))
    case _ => Ok(v)
  }

  /** The walk continuing into the children of a replacement. */
  function SpliceInside(parse: string -> Node, compile: Node -> Result<Value>, code: Value, depth: nat): (r: Result<Value>)
    decreases depth, code, 1
    ensures r.Ok? && (code.Arr? || code.Obj?) ==> Replaces(code, r.value)
    ensures r.Ok? && !code.Arr? && !code.Obj? ==> r.value == code
  {
    match code
    case Arr(items) =>
      var xs :- SpliceItems(parse, compile, code, items, depth);
      Ok(Arr(xs))
    case Obj(fields) =>
      var fs :- SpliceFields(parse, compile, code, fields, depth);
      Ok(Obj(fs))
    case _ => Ok(code)
  }

  function SpliceItems(parse: string -> Node, compile: Node -> Result<Value>, parent: Value, items: seq<Value>, depth: nat): (r: Result<seq<Value>>)
    requires forall i :: 0 <= i < |items| ==> items[i] < parent
    decreases depth, parent, 0, |items|
    ensures r.Ok? ==> |r.value| == |items|
    ensures r.Ok? ==> forall i :: 0 <= i < |items| ==> Splice(parse, compile, items[i], depth) == Ok(r.value[i])
  {
    if |items| == 0 then Ok([])
    else
      var head :- Splice(parse, compile, items[0], depth);
      var tail :- SpliceItems(parse, compile, parent, items[1..], depth);
      Ok([head] + tail)
  }

  function SpliceFields(parse: string -> Node, compile: Node -> Result<Value>, parent: Value, fields: seq<Field>, depth: nat): (r: Result<seq<Field>>)
    requires forall i :: 0 <= i < |fields| ==> fields[i].value < parent
    decreases depth, parent, 0, |fields|
    ensures r.Ok? ==> |r.value| == |fields|
    ensures r.Ok? ==> forall i :: 0 <= i < |fields| ==>
      r.value[i].key == fields[i].key && Splice(parse, compile, fields[i].value, depth) == Ok(r.value[i].value)
  {
    if |fields| == 0 then Ok([])
    else
      var head :- Splice(parse, compile, fields[0].value, depth);
      var tail :- SpliceFields(parse, compile, parent, fields[1..], depth);
      Ok([Field(fields[0].key, head)] + tail)
  }

  /** The element walk succeeds exactly when every element's walk does, and
      a failure is the failure of one element: the first throw ends `map`. */
  lemma {:induction false} ItemsAbort(parse: string -> Node, compile: Node -> Result<Value>, parent: Value, items: seq<Value>, depth: nat)
    requires forall i :: 0 <= i < |items| ==> items[i] < parent
    ensures SpliceItems(parse, compile, parent, items, depth).Ok? <==>
      forall i :: 0 <= i < |items| ==> Splice(parse, compile, items[i], depth).Ok?
    ensures SpliceItems(parse, compile, parent, items, depth).Fail? ==>
      exists i :: 0 <= i < |items| && Splice(parse, compile, items[i], depth) == Fail(SpliceItems(parse, compile, parent, items, depth).error)
  {
    if |items| > 0 {
      ItemsAbort(parse, compile, parent, items[1..], depth);
      if Splice(parse, compile, items[0], depth).Ok? && SpliceItems(parse, compile, parent, items[1..], depth).Fail? {
        var j :| 0 <= j < |items[1..]| && Splice(parse, compile, items[1..][j], depth) == Fail(SpliceItems(parse, compile, parent, items[1..], depth).error);
        assert items[1..][j] == items[j + 1];
      }
    }
  }

  /** The same for the property walk. */
  lemma {:induction false} FieldsAbort(parse: string -> Node, compile: Node -> Result<Value>, parent: Value, fields: seq<Field>, depth: nat)
    requires forall i :: 0 <= i < |fields| ==> fields[i].value < parent
    ensures SpliceFields(parse, compile, parent, fields, depth).Ok? <==>
      forall i :: 0 <= i < |fields| ==> Splice(parse, compile, fields[i].value, depth).Ok?
    ensures SpliceFields(parse, compile, parent, fields, depth).Fail? ==>
      exists i :: 0 <= i < |fields| && Splice(parse, compile, fields[i].value, depth) == Fail(SpliceFields(parse, compile, parent, fields, depth).error)
  {
    if |fields| > 0 {
      FieldsAbort(parse, compile, parent, fields[1..], depth);
      if Splice(parse, compile, fields[0].value, depth).Ok? && SpliceFields(parse, compile, parent, fields[1..], depth).Fail? {
        var j :| 0 <= j < |fields[1..]| && Splice(parse, compile, fields[1..][j].value, depth) == Fail(SpliceFields(parse, compile, parent, fields[1..], depth).error);
        assert fields[1..][j] == fields[j + 1];
      }
    }
  }

  /** Output without templates passes through unchanged, whatever the parser. */
  lemma {:induction false} SpliceIdentity(parse: string -> Node, compile: Node -> Result<Value>, v: Value, depth: nat)
    requires NoTemplates(v)
    ensures Splice(parse, compile, v, depth) == Ok(v)
    decreases v
  {
    match v
    case Arr(items) =>
      forall i | 0 <= i < |items|
        ensures Splice(parse, compile, items[i], depth) == Ok(items[i])
      {
        SpliceIdentity(parse, compile, items[i], depth);
      }
      ItemsIdentity(parse, compile, v, items, depth);
    case Obj(fields) =>
      forall i | 0 <= i < |fields|
        ensures Splice(parse, compile, fields[i].value, depth) == Ok(fields[i].value)
      {
        SpliceIdentity(parse, compile, fields[i].value, depth);
      }
      FieldsIdentity(parse, compile, v, fields, depth);
    case _ =>
  }

  lemma {:induction false} ItemsIdentity(parse: string -> Node, compile: Node -> Result<Value>, parent: Value, items: seq<Value>, depth: nat)
    requires forall i :: 0 <= i < |items| ==> items[i] < parent
    requires forall i :: 0 <= i < |items| ==> Splice(parse, compile, items[i], depth) == Ok(items[i])
    ensures SpliceItems(parse, compile, parent, items, depth) == Ok(items)
  {
    if |items| > 0 {
      ItemsIdentity(parse, compile, parent, items[1..], depth);
      assert [items[0]] + items[1..] == items;
    }
  }

  lemma {:induction false} FieldsIdentity(parse: string -> Node, compile: Node -> Result<Value>, parent: Value, fields: seq<Field>, depth: nat)
    requires forall i :: 0 <= i < |fields| ==> fields[i].value < parent
    requires forall i :: 0 <= i < |fields| ==> Splice(parse, compile, fields[i].value, depth) == Ok(fields[i].value)
    ensures SpliceFields(parse, compile, parent, fields, depth) == Ok(fields)
  {
    if |fields| > 0 {
      FieldsIdentity(parse, compile, parent, fields[1..], depth);
      assert [Field(fields[0].key, fields[0].value)] + fields[1..] == fields;
    }
  }

  /** The walk into a template-free replacement changes nothing. */
  lemma {:induction false} InsideIdentity(parse: string -> Node, compile: Node -> Result<Value>, code: Value, depth: nat)
    requires NoTemplates(code)
    ensures SpliceInside(parse, compile, code, depth) == Ok(code)
  {
    match code
    case Arr(items) =>
      forall i | 0 <= i < |items|
        ensures Splice(parse, compile, items[i], depth) == Ok(items[i])
      {
        SpliceIdentity(parse, compile, items[i], depth);
      }
      ItemsIdentity(parse, compile, code, items, depth);
    case Obj(fields) =>
      forall i | 0 <= i < |fields|
        ensures Splice(parse, compile, fields[i].value, depth) == Ok(fields[i].value)
      {
        SpliceIdentity(parse, compile, fields[i].value, depth);
      }
      FieldsIdentity(parse, compile, code, fields, depth);
    case _ =>
  }

  /** `tfx2json` after hcl2json has run: `raw` is its parsed output, and the
      result is the one walk over it. Both branches make that same call; the
      first only brings in the identity on input without templates. */
  function Tfx2Json(parse: string -> Node, raw: Value, depth: nat): (r: Result<Value>)
    ensures r.Ok? ==> Replaces(raw, r.value)
    ensures NoTemplates(raw) ==> r == Ok(raw)
  {
    if NoTemplates(raw) then
      SpliceIdentity(parse, Compiler.Codegen, raw, depth);
      Splice(parse, Compiler.Codegen, raw, depth)
    else Splice(parse, Compiler.Codegen, raw, depth)
  }
}
