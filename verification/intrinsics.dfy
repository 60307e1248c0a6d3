/** How tfx2json.ts spells an intrinsic (index.d.ts lines 6-12): an ordinary
    object `{fn, args}` whose `args` is an array of `{name, value}` records.
    Nothing distinguishes it from a source object with the same two keys.
 */
module Intrinsics {
  import opened Wrappers
  import opened Json

  /** The object literal `{fn: fn, args: args}`. */
  function Intrinsic(fn: Value, args: Value): (r: Value)
    ensures Compiled(fn) && Compiled(args) ==> Compiled(r)
    ensures NumberFree(fn) && NumberFree(args) ==> NumberFree(r)
    ensures IsIntrinsicShape(r)
    ensures FnOf(r) == Some(fn) && ArgsOf(r) == Some(args)
  {
    var fields := [Field("fn", fn), Field("args", args)];
    assert fields[1..] == [Field("args", args)];
    assert Lookup(fields[1..], "args") == Some(args);
    Obj(fields)
  }

  /** The argument record `{name: name, value: value}`. */
  function Arg(name: string, value: Value): (r: Value)
    ensures Compiled(value) ==> Compiled(r)
    ensures NumberFree(value) ==> NumberFree(r)
    ensures ArgName(r) == Some(name) && ArgValue(r) == Some(value)
  {
    var fields := [Field("name", Str(name)), Field("value", value)];
    assert fields[1..] == [Field("value", value)];
    assert Lookup(fields[1..], "value") == Some(value);
    Obj(fields)
  }

  /** `emitIdentifier`: a reference to the name `text`. */
  function Identifier(text: string): (r: Value)
    ensures Compiled(r) && IsIntrinsicShape(r) && IsParsedIntrinsic(Some(r))
    ensures FnOf(r) == Some(Str("identifier"))
    ensures ArgNames(r) == ["name"] && ArgNamed(r, "name") == Some(Str(text))
  {
    Intrinsic1("identifier", "name", Str(text))
  }

  /** The object `{fn, args}` with exactly those two keys. */
  predicate IsIntrinsicShape(v: Value) {
    v.Obj? && |v.fields| == 2 && v.fields[0].key == "fn" && v.fields[1].key == "args"
  }

  /** Every object inside `v` is an intrinsic `{fn, args}` or an argument
      record `{name, value}` with a string name: the only objects the
      expression compiler builds. */
  predicate Compiled(v: Value) {
    match v
    case Arr(items) => forall i :: 0 <= i < |items| ==> Compiled(items[i])
    case Obj(fields) =>
      && |fields| == 2
      && Compiled(fields[0].value)
      && Compiled(fields[1].value)
      && ((fields[0].key == "fn" && fields[1].key == "args")
          || (fields[0].key == "name" && fields[0].value.Str? && fields[1].key == "value"))
    case _ => true
  }

  /** Compiled values are well formed: their objects have distinct keys. */
  lemma {:induction false} CompiledIsWellFormed(v: Value)
    requires Compiled(v)
    ensures WellFormed(v)
  {
    match v
    case Arr(items) =>
      forall i | 0 <= i < |items|
        ensures WellFormed(items[i])
      {
        CompiledIsWellFormed(items[i]);
      }
    case Obj(fields) =>
      CompiledIsWellFormed(fields[0].value);
      CompiledIsWellFormed(fields[1].value);
    case _ =>
  }

  /** An intrinsic with one named argument. */
  function Intrinsic1(fn: string, n1: string, v1: Value): (r: Value)
    ensures Compiled(v1) ==> Compiled(r)
    ensures IsIntrinsicShape(r) && IsParsedIntrinsic(Some(r))
    ensures FnOf(r) == Some(Str(fn)) && ArgNames(r) == [n1]
    ensures ArgNamed(r, n1) == Some(v1)
  {
    ReadBack1(fn, n1, v1);
    Intrinsic(Str(fn), Arr([Arg(n1, v1)]))
  }

  /** An intrinsic with two differently named arguments. */
  function Intrinsic2(fn: string, n1: string, v1: Value, n2: string, v2: Value): (r: Value)
    requires n1 != n2
    ensures Compiled(v1) && Compiled(v2) ==> Compiled(r)
    ensures NumberFree(v1) && NumberFree(v2) ==> NumberFree(r)
    ensures IsIntrinsicShape(r) && IsParsedIntrinsic(Some(r))
    ensures FnOf(r) == Some(Str(fn)) && ArgNames(r) == [n1, n2]
    ensures ArgNamed(r, n1) == Some(v1) && ArgNamed(r, n2) == Some(v2)
  {
    ReadBack2(fn, n1, v1, n2, v2);
    Intrinsic(Str(fn), Arr([Arg(n1, v1), Arg(n2, v2)]))
  }

  /** An intrinsic with three differently named arguments. */
  function Intrinsic3(fn: string, n1: string, v1: Value, n2: string, v2: Value, n3: string, v3: Value): (r: Value)
    requires n1 != n2 && n1 != n3 && n2 != n3
    ensures Compiled(v1) && Compiled(v2) && Compiled(v3) ==> Compiled(r)
    ensures IsIntrinsicShape(r) && IsParsedIntrinsic(Some(r))
    ensures FnOf(r) == Some(Str(fn)) && ArgNames(r) == [n1, n2, n3]
    ensures ArgNamed(r, n1) == Some(v1) && ArgNamed(r, n2) == Some(v2) && ArgNamed(r, n3) == Some(v3)
  {
    ReadBack3(fn, n1, v1, n2, v2, n3, v3);
    CompiledArgs3(n1, v1, n2, v2, n3, v3);
    Intrinsic(Str(fn), Arr([Arg(n1, v1), Arg(n2, v2), Arg(n3, v3)]))
  }

  /** Three argument records of compiled values form a compiled array. */
  lemma CompiledArgs3(n1: string, v1: Value, n2: string, v2: Value, n3: string, v3: Value)
    ensures Compiled(v1) && Compiled(v2) && Compiled(v3) ==> Compiled(Arr([Arg(n1, v1), Arg(n2, v2), Arg(n3, v3)]))
  {
  }

  // Reading back intrinsics of one, two and three arguments

  lemma ReadBack1(fn: string, n1: string, v1: Value)
    ensures var v := Intrinsic(Str(fn), Arr([Arg(n1, v1)]));
      && IsParsedIntrinsic(Some(v)) && ArgNames(v) == [n1]
      && ArgNamed(v, n1) == Some(v1)
  {
    var v := Intrinsic(Str(fn), Arr([Arg(n1, v1)]));
    assert Keys(v.fields) == ["fn", "args"];
    RecordNamesCons(n1, v1, []);
    assert [Arg(n1, v1)] + [] == [Arg(n1, v1)];
  }

  lemma ReadBack2(fn: string, n1: string, v1: Value, n2: string, v2: Value)
    requires n1 != n2
    ensures var v := Intrinsic(Str(fn), Arr([Arg(n1, v1), Arg(n2, v2)]));
      && IsParsedIntrinsic(Some(v)) && ArgNames(v) == [n1, n2]
      && ArgNamed(v, n1) == Some(v1) && ArgNamed(v, n2) == Some(v2)
  {
    var records := [Arg(n1, v1), Arg(n2, v2)];
    var v := Intrinsic(Str(fn), Arr(records));
    assert Keys(v.fields) == ["fn", "args"];
    SkipRecord(records, n2);
    assert records[1..] == [Arg(n2, v2)];
    RecordNamesCons(n2, v2, []);
    assert [Arg(n2, v2)] + [] == [Arg(n2, v2)];
    RecordNamesCons(n1, v1, [Arg(n2, v2)]);
    assert [Arg(n1, v1)] + [Arg(n2, v2)] == records;
    assert RecordNames(records) == [n1, n2];
    assert ArgsOf(v) == Some(Arr(records));
  }

  lemma ReadBack3(fn: string, n1: string, v1: Value, n2: string, v2: Value, n3: string, v3: Value)
    requires n1 != n2 && n1 != n3 && n2 != n3
    ensures var v := Intrinsic(Str(fn), Arr([Arg(n1, v1), Arg(n2, v2), Arg(n3, v3)]));
      && IsParsedIntrinsic(Some(v)) && ArgNames(v) == [n1, n2, n3]
      && ArgNamed(v, n1) == Some(v1) && ArgNamed(v, n2) == Some(v2) && ArgNamed(v, n3) == Some(v3)
  {
    ReadBack3Names(fn, n1, v1, n2, v2, n3, v3);
    ReadBack3Values(fn, n1, v1, n2, v2, n3, v3);
  }

  lemma ReadBack3Names(fn: string, n1: string, v1: Value, n2: string, v2: Value, n3: string, v3: Value)
    ensures var v := Intrinsic(Str(fn), Arr([Arg(n1, v1), Arg(n2, v2), Arg(n3, v3)]));
      IsParsedIntrinsic(Some(v)) && ArgNames(v) == [n1, n2, n3]
  {
    ParsedOf(fn, [Arg(n1, v1), Arg(n2, v2), Arg(n3, v3)]);
    ThreeNames(n1, v1, n2, v2, n3, v3);
  }

  /** `{fn, args}` with an array of records is a parsed intrinsic whose
      argument names are the records' names. */
  lemma ParsedOf(fn: string, records: seq<Value>)
    ensures IsParsedIntrinsic(Some(Intrinsic(Str(fn), Arr(records))))
    ensures ArgNames(Intrinsic(Str(fn), Arr(records))) == RecordNames(records)
  {
    var v := Intrinsic(Str(fn), Arr(records));
    assert Keys(v.fields) == ["fn", "args"];
  }

  lemma ThreeNames(n1: string, v1: Value, n2: string, v2: Value, n3: string, v3: Value)
    ensures RecordNames([Arg(n1, v1), Arg(n2, v2), Arg(n3, v3)]) == [n1, n2, n3]
  {
    var last := [Arg(n3, v3)];
    var tail := [Arg(n2, v2), Arg(n3, v3)];
    RecordNamesCons(n3, v3, []);
    assert [Arg(n3, v3)] + [] == last;
    RecordNamesCons(n2, v2, last);
    assert [Arg(n2, v2)] + last == tail;
    RecordNamesCons(n1, v1, tail);
    assert [Arg(n1, v1)] + tail == [Arg(n1, v1), Arg(n2, v2), Arg(n3, v3)];
  }

  lemma ReadBack3Values(fn: string, n1: string, v1: Value, n2: string, v2: Value, n3: string, v3: Value)
    requires n1 != n2 && n1 != n3 && n2 != n3
    ensures var v := Intrinsic(Str(fn), Arr([Arg(n1, v1), Arg(n2, v2), Arg(n3, v3)]));
      ArgNamed(v, n1) == Some(v1) && ArgNamed(v, n2) == Some(v2) && ArgNamed(v, n3) == Some(v3)
  {
    var records := [Arg(n1, v1), Arg(n2, v2), Arg(n3, v3)];
    var tail := records[1..];
    assert tail[1..] == [Arg(n3, v3)];
    SkipRecord(records, n2);
    SkipRecord(records, n3);
    SkipRecord(tail, n3);
  }

  /** Putting a record in front puts its name in front. */
  lemma RecordNamesCons(name: string, value: Value, rest: seq<Value>)
    ensures RecordNames([Arg(name, value)] + rest) == [name] + RecordNames(rest)
  {
    assert ([Arg(name, value)] + rest)[1..] == rest;
  }

  lemma SkipRecord(records: seq<Value>, name: string)
    requires |records| > 0 && ArgName(records[0]) != Some(name)
    ensures FirstNamed(records, name) == FirstNamed(records[1..], name)
  {
  }

  // Reading an intrinsic back

  function FnOf(v: Value): Option<Value> {
    if v.Obj? then Lookup(v.fields, "fn") else None
  }

  function ArgsOf(v: Value): Option<Value> {
    if v.Obj? then Lookup(v.fields, "args") else None
  }

  function ArgName(a: Value): Option<string> {
    if a.Obj? then
      match Lookup(a.fields, "name")
      case Some(Str(n)) => Some(n)
      case _ => None
    else None
  }

  function ArgValue(a: Value): Option<Value> {
    if a.Obj? then Lookup(a.fields, "value") else None
  }

  /** The value of the first argument record called `name`. */
  function ArgNamed(v: Value, name: string): Option<Value> {
    match ArgsOf(v)
    case Some(Arr(records)) => FirstNamed(records, name)
    case _ => None
  }

  function FirstNamed(records: seq<Value>, name: string): Option<Value> {
    if |records| == 0 then None
    else if ArgName(records[0]) == Some(name) then ArgValue(records[0])
    else FirstNamed(records[1..], name)
  }

  /** The argument names of an intrinsic, in order. */
  function ArgNames(v: Value): seq<string> {
    match ArgsOf(v)
    case Some(Arr(records)) => RecordNames(records)
    case _ => []
  }

  /** The names of argument records, `""` for a record without one. */
  function RecordNames(records: seq<Value>): seq<string> {
    if |records| == 0 then []
    else [match ArgName(records[0]) case Some(n) => n case None => ""] + RecordNames(records[1..])
  }

  /** `IsParsedIntrinsic(value)` (tfx2json.ts lines 359-362): an object, not
      null, with keys `fn` and `args`, whose `args` is an array. `None` is
      JavaScript's `undefined`. Arrays are objects to `typeof` but have no
      key `fn`, so only `Obj` can qualify. */
  predicate IsParsedIntrinsic(value: Option<Value>) {
    && value.Some?
    && value.value.Obj?
    && HasKey(value.value, "fn")
    && HasKey(value.value, "args")
    && ArgsOf(value.value).Some?
    && ArgsOf(value.value).value.Arr?
  }

  /** What `IsParsedIntrinsic` accepts: never `undefined` or a non-object,
      and among the objects `{fn, args}` exactly those whose `args` is an
      array. */
  lemma ParsedIntrinsicCases(v: Value, fn: Value, args: Value)
    ensures !IsParsedIntrinsic(None)
    ensures !v.Obj? ==> !IsParsedIntrinsic(Some(v))
    ensures IsParsedIntrinsic(Some(Intrinsic(fn, args))) <==> args.Arr?
    ensures v.Obj? && !HasKey(v, "fn") ==> !IsParsedIntrinsic(Some(v))
    ensures v.Obj? && !HasKey(v, "args") ==> !IsParsedIntrinsic(Some(v))
  {
    assert Keys(Intrinsic(fn, args).fields) == ["fn", "args"];
  }

  // Operator names

  /** The thirteen binary operator tokens `opToString` renames. */
  const BinaryOperators: set<string> :=
    {"-", "+", "*", "/", "%", "==", "!=", ">", "<", ">=", "<=", "&&", "||"}

  /** The names those operators are given. */
  const OperatorNames: set<string> :=
    {"sub", "add", "mul", "div", "mod", "eq", "ne", "gt", "lt", "ge", "le", "and", "or"}

  /** `opToString`: the intrinsic name of a binary operator token; any other
      text is passed through. */
  function OpName(op: string): (r: string)
    ensures op in BinaryOperators ==> r in OperatorNames && OpSymbol(r) == op
    ensures op !in BinaryOperators ==> r == op
  {
    match op
    case "-" => "sub"
    case "+" => "add"
    case "*" => "mul"
    case "/" => "div"
    case "%" => "mod"
    case "==" => "eq"
    case "!=" => "ne"
    case ">" => "gt"
    case "<" => "lt"
    case ">=" => "ge"
    case "<=" => "le"
    case "&&" => "and"
    case "||" => "or"
    case _ => op
  }

  /** The operator token an intrinsic name stands for: the inverse table. */
  function OpSymbol(name: string): (r: string)
  {
    match name
    case "sub" => "-"
    case "add" => "+"
    case "mul" => "*"
    case "div" => "/"
    case "mod" => "%"
    case "eq" => "=="
    case "ne" => "!="
    case "gt" => ">"
    case "lt" => "<"
    case "ge" => ">="
    case "le" => "<="
    case "and" => "&&"
    case "or" => "||"
    case _ => name
  }

  /** Distinct operators get distinct names. (A token outside the table that
      spells one of the names, such as `add`, is passed through and then reads
      like the operator: the table is not injective on all texts.) */
  lemma OpNameInjective(a: string, b: string)
    requires a in BinaryOperators && b in BinaryOperators
    ensures OpName(a) == OpName(b) ==> a == b
  {
  }

  /** The `fn` of a unary operation: `-` is `neg`, `!` is `not`, anything else
      is kept. */
  function UnaryName(op: string): (r: string)
    ensures r == "neg" <==> op == "-" || op == "neg"
    ensures r == "not" <==> op == "!" || op == "not"
    ensures op != "-" && op != "!" ==> r == op
  {
    if op == "-" then "neg" else if op == "!" then "not" else op
  }
}
