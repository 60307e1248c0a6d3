/** Facts about the splice walk as a whole: what a template becomes, and
    that splicing settles.
 */
module SpliceFacts {
  import opened Wrappers
  import opened Json
  import opened Cst
  import opened Splicer
  import Compiler
  import CompilerFacts
  import Literals
  import Text

  /** A template whose replacement the walk leaves alone becomes that
      replacement; `InsideIdentity` says the walk leaves every template-free
      replacement alone. */
  lemma {:induction false} SpliceSettled(parse: string -> Node, compile: Node -> Result<Value>, s: string, depth: nat, code: Value)
    requires IsTemplate(s) && depth > 0
    requires Interpolate(parse, compile, s) == Ok(code)
    requires SpliceInside(parse, compile, code, depth - 1) == Ok(code)
    ensures Splice(parse, compile, Str(s), depth) == Ok(code)
  {
    SpliceStep(parse, compile, s, depth, code);
  }

  /** After an update the walk continues inside the replacement. */
  lemma {:induction false} SpliceStep(parse: string -> Node, compile: Node -> Result<Value>, s: string, depth: nat, code: Value)
    requires IsTemplate(s) && depth > 0
    requires Interpolate(parse, compile, s) == Ok(code)
    ensures Splice(parse, compile, Str(s), depth) == SpliceInside(parse, compile, code, depth - 1)
  {
  }

  /** A template whose interpolation fails makes the whole walk fail with
      that error: the assertion thrown inside the callback ends the call. */
  lemma TemplateFailureAborts(parse: string -> Node, compile: Node -> Result<Value>, s: string, depth: nat)
    ensures IsTemplate(s) && depth > 0 && Interpolate(parse, compile, s).Fail? ==>
      Splice(parse, compile, Str(s), depth) == Fail(Interpolate(parse, compile, s).error)
  {
  }

  /** An array or object is spliced exactly when each of its elements is,
      and a failure is the failure of one of them: nothing is returned past
      a failed interpolation anywhere below. */
  lemma CompoundAborts(parse: string -> Node, compile: Node -> Result<Value>, v: Value, depth: nat)
    ensures v.Arr? ==>
      && (Splice(parse, compile, v, depth).Ok? <==>
            forall i :: 0 <= i < |v.items| ==> Splice(parse, compile, v.items[i], depth).Ok?)
      && (Splice(parse, compile, v, depth).Fail? ==>
            exists i :: 0 <= i < |v.items| && Splice(parse, compile, v.items[i], depth) == Fail(Splice(parse, compile, v, depth).error))
    ensures v.Obj? ==>
      && (Splice(parse, compile, v, depth).Ok? <==>
            forall i :: 0 <= i < |v.fields| ==> Splice(parse, compile, v.fields[i].value, depth).Ok?)
      && (Splice(parse, compile, v, depth).Fail? ==>
            exists i :: 0 <= i < |v.fields| && Splice(parse, compile, v.fields[i].value, depth) == Fail(Splice(parse, compile, v, depth).error))
  {
    match v
    case Arr(items) => ItemsAbort(parse, compile, v, items, depth);
    case Obj(fields) => FieldsAbort(parse, compile, v, fields, depth);
    case _ =>
  }

  /** The compiler never returns a template string itself. (A compound value
      holding templates is fine: the walk goes on inside it.) */
  ghost predicate YieldsNoTemplate(compile: Node -> Result<Value>) {
    forall n :: NoTemplateFrom(compile, n)
  }

  /** What `compile` makes of `n` is not a template string. */
  predicate NoTemplateFrom(compile: Node -> Result<Value>, n: Node) {
    compile(n).Ok? ==> !(compile(n).value.Str? && IsTemplate(compile(n).value.s))
  }

  /** A result that, when it is a success, is not a template string. */
  predicate NotTemplateResult(r: Result<Value>) {
    r.Ok? ==> !(r.value.Str? && IsTemplate(r.value.s))
  }

  /** No template's interpolation is itself a template string: the
      condition the walk needs of its parser and compiler together. */
  ghost predicate InterpolatesNoTemplate(parse: string -> Node, compile: Node -> Result<Value>) {
    forall s :: IsTemplate(s) ==> NotTemplateResult(Interpolate(parse, compile, s))
  }

  /** A compiler that never returns a template string meets it with any parser. */
  lemma YieldsInterpolatesNoTemplate(parse: string -> Node, compile: Node -> Result<Value>)
    requires YieldsNoTemplate(compile)
    ensures InterpolatesNoTemplate(parse, compile)
  {
    forall s | IsTemplate(s)
      ensures NotTemplateResult(Interpolate(parse, compile, s))
    {
      var m := MockExpression(parse(MockSource(s)));
      if m.Ok? {
        assert NoTemplateFrom(compile, m.value);
      }
    }
  }

  /** With such a parser and compiler a successful walk leaves no template behind. */
  lemma {:induction false} SpliceLeavesNoTemplate(parse: string -> Node, compile: Node -> Result<Value>, v: Value, depth: nat)
    requires InterpolatesNoTemplate(parse, compile)
    ensures Splice(parse, compile, v, depth).Ok? ==> NoTemplates(Splice(parse, compile, v, depth).value)
    decreases depth, v, 2
  {
    match v
    case Str(s) =>
      if IsTemplate(s) && depth > 0 {
        TemplateLeavesNoTemplate(parse, compile, s, depth);
      }
    case Arr(items) =>
      ItemsLeaveNoTemplate(parse, compile, v, items, depth);
    case Obj(fields) =>
      FieldsLeaveNoTemplate(parse, compile, v, fields, depth);
    case _ =>
  }

  lemma {:induction false} TemplateLeavesNoTemplate(parse: string -> Node, compile: Node -> Result<Value>, s: string, depth: nat)
    requires InterpolatesNoTemplate(parse, compile)
    requires IsTemplate(s) && depth > 0
    ensures Splice(parse, compile, Str(s), depth).Ok? ==> NoTemplates(Splice(parse, compile, Str(s), depth).value)
    decreases depth, Str(s), 1
  {
    var d: nat :| d + 1 == depth;
    TemplateStepLeavesNoTemplate(parse, compile, s, d);
  }

  /** A template with `d` levels left below it; stated at `d + 1` so that
      the replacement is walked at `d` itself. */
  lemma {:induction false} TemplateStepLeavesNoTemplate(parse: string -> Node, compile: Node -> Result<Value>, s: string, d: nat)
    requires InterpolatesNoTemplate(parse, compile)
    requires IsTemplate(s)
    ensures Splice(parse, compile, Str(s), d + 1).Ok? ==> NoTemplates(Splice(parse, compile, Str(s), d + 1).value)
    decreases d + 1, Str(s), 0
  {
    var code := Interpolate(parse, compile, s);
    if code.Ok? {
      InterpolatedNotTemplate(parse, compile, s, code.value);
      SpliceStep(parse, compile, s, d + 1, code.value);
      InsideLeavesNoTemplate(parse, compile, code.value, d);
    } else {
      TemplateFailureAborts(parse, compile, s, d + 1);
    }
  }

  /** What an interpolation returns is what the compiler returned. */
  lemma InterpolatedNotTemplate(parse: string -> Node, compile: Node -> Result<Value>, s: string, code: Value)
    requires InterpolatesNoTemplate(parse, compile)
    requires IsTemplate(s)
    requires Interpolate(parse, compile, s) == Ok(code)
    ensures !(code.Str? && IsTemplate(code.s))
  {
    assert NotTemplateResult(Interpolate(parse, compile, s));
  }

  lemma {:induction false} InsideLeavesNoTemplate(parse: string -> Node, compile: Node -> Result<Value>, code: Value, depth: nat)
    requires InterpolatesNoTemplate(parse, compile)
    requires !(code.Str? && IsTemplate(code.s))
    ensures SpliceInside(parse, compile, code, depth).Ok? ==> NoTemplates(SpliceInside(parse, compile, code, depth).value)
    decreases depth, code, 1
  {
    match code
    case Arr(items) =>
      ItemsLeaveNoTemplate(parse, compile, code, items, depth);
    case Obj(fields) =>
      FieldsLeaveNoTemplate(parse, compile, code, fields, depth);
    case _ =>
  }

  lemma {:induction false} ItemsLeaveNoTemplate(parse: string -> Node, compile: Node -> Result<Value>, parent: Value, items: seq<Value>, depth: nat)
    requires InterpolatesNoTemplate(parse, compile)
    requires forall i :: 0 <= i < |items| ==> items[i] < parent
    ensures SpliceItems(parse, compile, parent, items, depth).Ok? ==>
      NoTemplates(Arr(SpliceItems(parse, compile, parent, items, depth).value))
    decreases depth, parent, 0
  {
    forall i | 0 <= i < |items|
      ensures Splice(parse, compile, items[i], depth).Ok? ==> NoTemplates(Splice(parse, compile, items[i], depth).value)
    {
      SpliceLeavesNoTemplate(parse, compile, items[i], depth);
    }
  }

  lemma {:induction false} FieldsLeaveNoTemplate(parse: string -> Node, compile: Node -> Result<Value>, parent: Value, fields: seq<Field>, depth: nat)
    requires InterpolatesNoTemplate(parse, compile)
    requires forall i :: 0 <= i < |fields| ==> fields[i].value < parent
    ensures SpliceFields(parse, compile, parent, fields, depth).Ok? ==>
      NoTemplates(Obj(SpliceFields(parse, compile, parent, fields, depth).value))
    decreases depth, parent, 0
  {
    forall i | 0 <= i < |fields|
      ensures Splice(parse, compile, fields[i].value, depth).Ok? ==> NoTemplates(Splice(parse, compile, fields[i].value, depth).value)
    {
      SpliceLeavesNoTemplate(parse, compile, fields[i].value, depth);
    }
  }

  /** Splicing twice is splicing once, when no interpolation is itself a
      template string. */
  lemma {:induction false} SpliceIdempotent(parse: string -> Node, compile: Node -> Result<Value>, v: Value, depth: nat)
    requires InterpolatesNoTemplate(parse, compile)
    ensures Splice(parse, compile, v, depth).Ok? ==>
      Splice(parse, compile, Splice(parse, compile, v, depth).value, depth) == Splice(parse, compile, v, depth)
  {
    SpliceLeavesNoTemplate(parse, compile, v, depth);
    if Splice(parse, compile, v, depth).Ok? {
      SpliceIdentity(parse, compile, Splice(parse, compile, v, depth).value, depth);
    }
  }

  /** The parse trees `Compiler.Codegen` is given never make it return a
      template: no literal's text, and no `get_attr`'s attribute name,
      anywhere in the tree begins with `${`. */
  predicate TemplateFree(n: Node)
    decreases n
  {
    && (n.kind in Compiler.LiteralKinds ==> !IsTemplate(n.text))
    && (n.kind == "get_attr" && Compiler.GetAttrText(n).Ok? ==> !IsTemplate(Compiler.GetAttrText(n).value))
    && forall i :: 0 <= i < |n.children| ==> TemplateFree(n.children[i])
  }

  lemma ChildTemplateFree(n: Node, c: Node)
    requires TemplateFree(n) && c in n.children
    ensures TemplateFree(c)
  {
    var i :| 0 <= i < |n.children| && n.children[i] == c;
  }

  /** Without that condition the real compiler does return templates: a
      literal whose text begins with `${` compiles to that text. */
  lemma TemplateLiteralPassesThrough(n: Node)
    requires n.kind in Compiler.LiteralKinds && IsTemplate(n.text)
    ensures Compiler.Codegen(n) == Ok(Str(n.text))
  {
    CompilerFacts.Dispatch(n);
    assert n.text[0] == '$';
    assert !Text.AllDigits(n.text);
    match Text.IndexOf(n.text, ".")
    case None =>
    case Some(k) =>
      if k > 0 {
        assert n.text[..k][0] == '$';
      }
    assert !Literals.IsDecimalText(n.text);
  }

  /** On a template-free tree `Compiler.Codegen` returns no template string. */
  lemma {:induction false} CodegenNoTemplate(n: Node)
    requires TemplateFree(n)
    ensures NotTemplateResult(Compiler.Codegen(n))
    decreases n
  {
    CompilerFacts.Dispatch(n);
    var nc := NamedChildren(n);
    if n.kind == "expression" || n.kind == "splat" || n.kind == "operation" {
      if |nc| > 0 {
        ChildTemplateFree(n, nc[0]);
        CodegenNoTemplate(nc[0]);
      }
    } else if n.kind == "unary_operation" {
      if |n.children| == 2 && n.children[1].kind == "literal_value" && |nc| > 0 {
        ChildTemplateFree(n, nc[0]);
        CodegenNoTemplate(nc[0]);
      }
    }
  }

  /** The parser turns every mock source into a template-free tree. */
  ghost predicate ParsesTemplateFree(parse: string -> Node) {
    forall s :: IsTemplate(s) ==> TemplateFree(parse(MockSource(s)))
  }

  lemma {:induction false} DescendTemplateFree(n: Node, kinds: seq<string>)
    requires TemplateFree(n)
    ensures Descend(n, kinds).Some? ==> TemplateFree(Descend(n, kinds).value)
    decreases |kinds|
  {
    if |kinds| > 0 {
      DescendStep(n, kinds);
      match Find(NamedChildren(n), kinds[0])
      case None =>
      case Some(c) =>
        ChildTemplateFree(n, c);
        DescendTemplateFree(c, kinds[1..]);
    }
  }

  /** Such a parser and `Compiler.Codegen` meet the walk's condition. */
  lemma CodegenInterpolatesNoTemplate(parse: string -> Node)
    requires ParsesTemplateFree(parse)
    ensures InterpolatesNoTemplate(parse, Compiler.Codegen)
  {
    forall s | IsTemplate(s)
      ensures NotTemplateResult(Interpolate(parse, Compiler.Codegen, s))
    {
      var root := parse(MockSource(s));
      if MockExpression(root).Ok? {
        DescendTemplateFree(root, MockPath);
        CodegenNoTemplate(MockExpression(root).value);
      }
    }
  }

  /** `tfx2json`'s splice is idempotent when the parser yields template-free
      trees: running it on its own output changes nothing. */
  lemma Tfx2JsonIdempotent(parse: string -> Node, raw: Value, depth: nat)
    requires ParsesTemplateFree(parse)
    ensures Tfx2Json(parse, raw, depth).Ok? ==>
      Tfx2Json(parse, Tfx2Json(parse, raw, depth).value, depth) == Tfx2Json(parse, raw, depth)
  {
    CodegenInterpolatesNoTemplate(parse);
    SpliceIdempotent(parse, Compiler.Codegen, raw, depth);
  }
}
