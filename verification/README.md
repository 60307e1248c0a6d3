# tfx2json in Dafny

A model of the compiler core of tfx2json. tfx2json turns Terraform (HCL) source into a JSON-like value. Two parts are modelled:

- **The expression compiler** (`codegen` and the `emit*` functions of tfx2json.ts). A tree-sitter concrete syntax tree node becomes a JSON-like value. Operators, references, calls and conditionals become *intrinsics*: ordinary objects `{fn, args}`. For operators, references, conditionals and calls without arguments, `args` is an array of `{name, value}` records. A call with arguments has a single `{name: "args", value}` record as its `args`, so it is not a parsed intrinsic. Splats are not intrinsics: `attr_splat` and `full_splat` become a plain array, and `splat` becomes its first named child's compilation.
- **The splice step** (the `traverse(raw).map` callback of tfx2json.ts). hcl2json leaves interpolations as strings starting with `${`. Each one is rewritten into a one-attribute mock block, parsed, and replaced by the compiled expression.

The model also covers the two older whole-document emitters, index.ts and index.js. Both turn a syntax tree into JavaScript object-literal source text. A `Dialect` keeps apart their three differences:

- the block-key separator: `ุณ` (U+0E38 U+0E13, index.ts:10) in index.ts, `_` in index.js. `BlockKeys.ThaiSep` holds the former.
- `emitExpression`: an `expressions` intrinsic serialized by `JSON.stringify` in index.ts, a `.`-join in index.js.
- whether assertions throw. index.js takes `assert` from node:console, which only logs. So index.js's `emitConfigFile` without a body goes on to `codegen(undefined)`, whose read of `undefined.type` throws a TypeError: `Legacy.EmitConfigFile` returns `Fail(UndefinedNode)` for index.js.

## Modules

- `Wrappers`: `Option` and `Result`. An error is one of:
  - a failed node:assert (`AssertionFailed`, with the message);
  - a property read on `undefined` (`UndefinedNode`);
  - a `JSON.parse` syntax error (`JsonSyntax`);
  - the splice walk's depth bound (`DepthExceeded`).
- `Text`: the JavaScript string operations used, with their laws:
  - `startsWith` and first-occurrence `replace`;
  - `join`, and `split` with a non-empty separator;
  - decimal numerals.
- `Json`: the value type of index.d.ts, plus `JSON.stringify` and `JSON.parse` for strings. Numbers are exact reals plus `NaN`.
- `Cst`: syntax tree nodes, `namedChildren`, and the `find`/`filter` searches.
- `Intrinsics`: building intrinsics and reading them back; `IsParsedIntrinsic`; the operator table `opToString`.
- `Literals`: `emitLiteralValue`'s coercion, and `Number.parseInt`.
- `Compiler` and `CompilerFacts`: the expression compiler and worked examples.
- `Splicer` and `SpliceFacts`: the splice walk. The tree-sitter parser is a parameter `parse`. So is the compiler, which `Splicer.Tfx2Json` fixes to `Compiler.Codegen`.
- `BlockKeys`: the composite block key of the legacy emitters.
- `Legacy` and `LegacyFacts`: the index.ts/index.js emitters, and what can be read back from their text.

## Model

| member | source | states |
|---|---|---|
| Compiler.Codegen | tfx2json.ts:118-173 | Every result is a compiled value whose objects are only intrinsics and argument records, and whose top-level object is an intrinsic; every failure is an assertion failure or a TypeError. A node type outside the switch, `comment` included, compiles to `""`. Which emitter each type reaches is `CompilerFacts.Dispatch`. |
| Compiler.ArmOf | tfx2json.ts:118-173 | The switch's case labels: the five literal types share one arm, `splat`/`operation` share one, `attr_splat`/`full_splat` share one, and a type reaches the default arm exactly when it is none of the handled types. |
| Compiler.CodegenAll | tfx2json.ts:308 | `map(codegen)`: on success one value per node, each the node's compilation. A failure is the failure of one of the nodes. |
| Compiler.CodegenFlat | tfx2json.ts:351 | `flatMap(codegen)`: every spliced-in element is a compiled value; failures are assertion failures or TypeErrors. Its relation to `map` is `CompilerFacts.CodegenFlatIsFlatten`. |
| CompilerFacts.CodegenFlatIsFlatten | tfx2json.ts:351 | `flatMap(codegen)` succeeds exactly when `map(codegen)` does, and its value is that map's values with every array result spliced in one level deep (`Flatten`). A failure is the map's failure. |
| CompilerFacts.ExpressionRest | tfx2json.ts:338-357 | A chain compiles exactly when its term and every step compile, and then `rest` reads back as the flattened compilations of the steps. |
| Compiler.EmitExpression | tfx2json.ts:338-357 | No named child: TypeError. One: exactly the child's compilation. More: an `expression` intrinsic whose arguments are `term` then `rest`. `term` reads back as the first child's value; `rest` reads back as the flattened values of the others. |
| Compiler.ExpressionValue | tfx2json.ts:342-354 | The object built for a chain is an `expression` intrinsic with arguments `term` then `rest`, which read back as the term and the array of steps; it is compiled when they are. |
| Compiler.EmitVariableExpr | tfx2json.ts:326-328 | Fails exactly when there is no named child; otherwise the identifier intrinsic of the first named child's text. |
| Compiler.CallValue | tfx2json.ts:300-312 | `fn` is the callee's identifier intrinsic. With no argument list, `args` is `[]`. With one, `args` is a single `{name: "args", value: [...]}` record. `IsParsedIntrinsic` holds exactly when there is no argument list. |
| Compiler.EmitFunctionCall | tfx2json.ts:300-312 | No named child: TypeError. `fn` reads back as the callee identifier. Without `function_arguments` the result is the argument-less call. With them, the call succeeds exactly when every argument compiles; `args` is then the record of the arguments' compilations, and the call is not a parsed intrinsic. |
| Compiler.GetAttrText | tfx2json.ts:295-298 | Fails with an assertion exactly when the number of named children is not one. The text is unchanged when it holds no `.`; otherwise it is the child's text with its first `.` removed: the part before that `.` (which holds no `.`) followed by the part after it. |
| Compiler.EmitGetAttr | tfx2json.ts:295-298 | Succeeds exactly when `GetAttrText` does, and the result is the string it reads. |
| Compiler.EmitIndex | tfx2json.ts:291-293 | Succeeds exactly when `GetAttrText` does, since `parseInt` never throws. The result is a number (possibly `NaN`). It is finite when the text is a run of decimal digits. |
| Compiler.ConditionalParts | tfx2json.ts:265-271 | The three searches succeed exactly when there are at least three `expression` children, and then return the first three positions, which are distinct and in order. |
| Compiler.EmitConditional | tfx2json.ts:265-289 | Fewer than three `expression` children is an assertion failure. With three or more, it succeeds exactly when the first three compile, giving a `conditional` intrinsic with arguments `cond`, `true`, `false`, read back as the first, second and third expressions' compilations. |
| Compiler.EmitFirstNamed | tfx2json.ts:246-263 | `splat` and `operation`: TypeError without a named child, else exactly the first named child's compilation. |
| Compiler.EmitAttrSplat | tfx2json.ts:250-259 | `attr_splat` and `full_splat`: an array as long as `children`. Position i is `"*"` for an unnamed child and the child's compilation for a named one. A failure is the error of some named child's compilation, so the splat succeeds when every named child compiles. |
| Compiler.SplatItems | tfx2json.ts:255-258 | The splat's callback mapped over the children in order: the result has one element per child, element `i` is the callback's result on child `i`, and every element is a compiled value. A failure is the callback's error on some child. |
| Compiler.EmitUnaryOperation | tfx2json.ts:228-244 | Not exactly two children: assertion failure. With a non-literal operand it succeeds exactly when the operand compiles, giving an intrinsic named `neg`/`not`/the operator, with one `operand` argument holding the operand's compilation. A `literal_value` operand gives the first named child's compilation, so the sign is dropped. |
| Compiler.EmitBinaryOperation | tfx2json.ts:208-226 | Not exactly three children: assertion failure. Success exactly when both operands compile. The result is a parsed intrinsic named by `opToString` of the middle child, with `lhs` then `rhs`. |
| CompilerFacts.NegativeLiteralLosesSign | tfx2json.ts:228-244 | `-5` compiles to the number 5, not to a `neg` intrinsic. |
| CompilerFacts.AdditionShape | tfx2json.ts:208-226 | `1 + 2` compiles to an `add` intrinsic whose `lhs` is 1 and whose `rhs` is 2. |
| CompilerFacts.SmallNumeral | tfx2json.ts:330-332 | A one-digit `literal_value` compiles to that number. |
| CompilerFacts.Dispatch | tfx2json.ts:118-173 | Each handled type is sent to its emitter: literals to `emitLiteralValue`, `identifier` to the identifier intrinsic, `expression` to `emitExpression`, and so on for all eighteen handled case labels: the five literal types and thirteen others. |
| Intrinsics.Intrinsic | index.d.ts:6-12 | `{fn, args}` has exactly those two keys in that order. `fn` and `args` read back. It is compiled and number-free when its parts are. |
| Intrinsics.Arg | index.d.ts:8-11 | `{name, value}`: the name and the value read back. Compiled and number-free when the value is. |
| Intrinsics.Identifier | tfx2json.ts:314-324 | A parsed intrinsic `identifier` whose only argument `name` reads back as the text. |
| Intrinsics.Intrinsic1 | tfx2json.ts:233-241 | An intrinsic with one argument is a parsed intrinsic, and its argument reads back by name. |
| Intrinsics.Intrinsic2 | tfx2json.ts:213-225 | An intrinsic with two differently named arguments is a parsed intrinsic. The names come back in order, and each value reads back by its name. |
| Intrinsics.Intrinsic3 | tfx2json.ts:272-288 | The same for three arguments. |
| Intrinsics.ParsedIntrinsicCases | tfx2json.ts:359-362 | `undefined` and every non-object are not parsed intrinsics. `{fn, args}` is one exactly when `args` is an array. An object without `fn`, or without `args`, is not one. |
| Intrinsics.CompiledIsWellFormed | index.d.ts:1-12 | A compiled value has no object with a repeated key. |
| Intrinsics.OpName | tfx2json.ts:175-206 | Each of the 13 listed operators maps to its name, and `OpSymbol` maps the name back. Any other text is returned unchanged. |
| Intrinsics.OpNameInjective | tfx2json.ts:175-206 | Distinct listed operators get distinct names. |
| Intrinsics.UnaryName | tfx2json.ts:234 | `neg` exactly for `-` (or the text `neg`), `not` exactly for `!` (or `not`), otherwise the operator itself. |
| Literals.LiteralValue | tfx2json.ts:330-336 | `null` is null. A run of digits, or digits `.` digits, is a non-negative finite number. `true`/`false` are the booleans. Anything else is the text verbatim, quotes included. Never an array or object. |
| Literals.LiteralOfNumeral | tfx2json.ts:332 | The decimal numeral of n coerces to the number n. |
| Literals.LiteralOfDecimal | tfx2json.ts:333 | `whole.frac` coerces to the exact value whole + frac/10^len(frac). |
| Literals.ParseInt | tfx2json.ts:292 | Text starting with a decimal digit (and not `0x`) parses to a finite number. |
| Literals.ParseIntOfNumeral | tfx2json.ts:292 | `parseInt` reads back the numeral of n as n, and `-` followed by it as -n. |
| Json.Quote | index.ts:111-123 | `JSON.parse` of `JSON.stringify(s)` is `s`. |
| Json.QuoteRoundTrip | index.ts:111-123 | The same round trip, proved over the escaping. |
| Json.DecodeString | index.ts:152 | A `JSON.parse` failure is a syntax error naming the text. |
| Json.Serialize | index.ts:111-123 | `JSON.stringify` output is non-empty. A string serializes to text that parses back to it; an array's text is bracketed by `[` and `]`, an object's by `{` and `}`. |
| Text.ReplaceFirst | tfx2json.ts:98 | Without an occurrence the text is unchanged. With one, the first occurrence, and only it, is replaced: the text before it, the replacement, and the text after it. A text starting with the pattern has that prefix replaced. |
| Text.FirstChar | tfx2json.ts:297 | The first occurrence of a character is that character, and none comes before it. |
| Text.SplitJoin | index.ts:146-156 | Splitting a join on a borderless separator recovers the parts when no part contains the separator. |
| Splicer.MockSource | tfx2json.ts:97-98 | A template `${...}` becomes `mock{mock=` followed by the text after `${`. |
| Splicer.Expect | tfx2json.ts:101-110 | Succeeds exactly when a named child of the kind exists, and returns it at a position before which no named child has the kind. Otherwise an assertion failure with the given message. |
| Splicer.MockExpression | tfx2json.ts:99-110 | A root that is not `config_file` is an assertion failure. Otherwise it succeeds exactly when the route body, block, body, attribute, expression can be followed from the root, each step the first named child of its type, and the result is the node at the route's end. Every failure is an assertion failure. |
| Cst.Descend | tfx2json.ts:101-110 | Following a list of types, each step the first named child of the next type, ends on a node of the last type. |
| Splicer.Interpolate | tfx2json.ts:97-112 | A failed navigation is that failure. Otherwise the result is the compilation of the expression found in the parsed mock block. |
| Splicer.Splice | tfx2json.ts:96-114 | The walk's output has the input's shape: same array lengths, same object keys in order, same non-template leaves. Only templates are replaced. |
| Splicer.SpliceInside | tfx2json.ts:112 | After an update, the walk into the replacement keeps the replacement's shape, and a scalar replacement stays as it is. |
| Splicer.SpliceItems | tfx2json.ts:96-114 | Array elements are walked one by one; same length, element i spliced. |
| Splicer.SpliceFields | tfx2json.ts:96-114 | Object properties are walked one by one; keys kept, each value spliced. |
| Splicer.ItemsAbort | tfx2json.ts:96-114 | The walk over array elements succeeds exactly when every element's walk does, and a failure is the failure of one element. |
| Splicer.FieldsAbort | tfx2json.ts:96-114 | The walk over object properties succeeds exactly when every value's walk does, and a failure is the failure of one value. |
| Splicer.SpliceIdentity | tfx2json.ts:96-114 | Output with no template passes through unchanged, whatever the parser and compiler. |
| Splicer.InsideIdentity | tfx2json.ts:112 | The walk into a template-free replacement leaves it unchanged. |
| Splicer.Tfx2Json | tfx2json.ts:95-115 | One walk over hcl2json's output: the result has its shape, and equals it when no string is a template. |
| SpliceFacts.SpliceStep | tfx2json.ts:111-112 | A template becomes its compiled replacement, walked one level shallower. |
| SpliceFacts.SpliceSettled | tfx2json.ts:111-112 | A template whose replacement the walk leaves alone becomes exactly that replacement. |
| SpliceFacts.TemplateFailureAborts | tfx2json.ts:100-110 | A template whose mock block cannot be navigated or compiled makes the walk fail with that error: the thrown assertion ends the call. |
| SpliceFacts.CompoundAborts | tfx2json.ts:96-114 | An array or object is spliced exactly when each element is, and a failure anywhere below is the failure of the whole walk. |
| SpliceFacts.SpliceLeavesNoTemplate | tfx2json.ts:96-114 | When no template's interpolation is itself a template string, a successful walk leaves no template anywhere in its output. |
| SpliceFacts.SpliceIdempotent | tfx2json.ts:96-114 | Under the same condition, splicing the output of a successful walk again gives the same result. |
| SpliceFacts.YieldsInterpolatesNoTemplate | tfx2json.ts:96-114 | A compiler that never returns a template string meets that condition with any parser. |
| SpliceFacts.TemplateLiteralPassesThrough | tfx2json.ts:330-336 | `Compiler.Codegen` is not such a compiler: a literal whose text begins with `${` compiles to that same string. |
| SpliceFacts.CodegenNoTemplate | tfx2json.ts:118-173 | On a tree where no literal's text and no `get_attr`'s attribute name begins with `${`, `Compiler.Codegen` returns no template string. |
| SpliceFacts.CodegenInterpolatesNoTemplate | tfx2json.ts:99-112 | A parser that turns every mock source into such a tree, together with `Compiler.Codegen`, meets the walk's condition. |
| SpliceFacts.Tfx2JsonIdempotent | tfx2json.ts:95-115 | With such a parser, running `tfx2json`'s splice on its own successful output returns that output unchanged. |
| BlockKeys.Key | index.ts:145-156 | Without labels the key is the name. Otherwise it starts with the name followed by the separator. |
| BlockKeys.KeyIsJoin | index.ts:146-156 | The key is the separator-join of the name and the labels. |
| BlockKeys.SeparatorsBorderless | index.ts:10 | Neither `ุณ` nor `_` can overlap itself. |
| BlockKeys.KeySplit | index.ts:145-156 | Splitting a key on a borderless separator that occurs in neither the name nor any label recovers the name and the labels. |
| BlockKeys.ThaiKeySplit | index.ts:145-156 | The same for index.ts's separator. |
| BlockKeys.UnderscoreKeysCollide | index.js:133-140 | With `_`, the block `a_b` and the block `a` labelled `b` get the same key, and that key does not split back to `a_b`. |
| BlockKeys.BlockEntrySplit | index.ts:156-157 | In `key:code`, the first `:` is right after the key, and the key splits back into the name and labels, provided none of them holds `:` or the separator. |
| BlockKeys.ThaiBlockEntrySplit | index.ts:156-157 | The same for index.ts's separator. |
| Legacy.Sep | index.ts:10 | index.ts separates with `ุณ`; index.js (lines 134 and 139) with `_`. |
| Legacy.Codegen | index.ts:20-59 | Literals and identifiers are their source text, and unhandled types are `""`. The only errors are a TypeError, a `JSON.parse` error, and (index.ts only) an assertion. index.js lines 18-57 are the same switch. Which emitter each type reaches is `LegacyFacts.Dispatch`. |
| Legacy.ArmOf | index.ts:20-59 | The switch's case labels: the five literal types and `identifier` share the text arm, and a type reaches the default arm exactly when it is none of the handled types. |
| LegacyFacts.Dispatch | index.ts:20-59 | Each handled type is sent to its emitter: `expression` to `emitExpression`, `attribute` to `emitAttribute`, and so on for the twelve emitter arms. |
| Legacy.CodegenMaybe | index.ts:125 | `codegen(undefined)` is a TypeError; otherwise the node's code. |
| Legacy.CodegenAll | index.ts:161 | `map(codegen)` succeeds exactly when every node does, giving each node's code in order. |
| Legacy.EmitExpression | index.ts:107-126 | index.ts, no named child: TypeError. One child: its code. More: success exactly when the term and every step compile, giving the JSON text of an `expressions` intrinsic of the term's code and the other codes. index.js (lines 115-117): success exactly when every child compiles, giving the codes joined by `.`. |
| Legacy.ExpressionsValue | index.ts:111-123 | The object serialized for a chain is a number-free parsed intrinsic `expressions`. `term` reads back as the term's code and `rest` as the list of step codes. |
| Legacy.EmitAttribute | index.ts:128-134 | index.ts fails with `identifier not found in …`, then `expression not found in …` (index.js: TypeError). With both found, it succeeds exactly when the expression compiles, giving `name:code`. |
| Legacy.LabelNodes | index.ts:145 | The labels are identifiers or string literals of the block. Every string literal is among them, and so is every identifier but the name. Their order is `LegacyFacts.LabelNodesSnoc`. |
| LegacyFacts.LabelNodesSnoc | index.ts:145 | `filter` keeps source order: appending a child appends it to the labels exactly when it is a string literal or an identifier other than the name. |
| Legacy.LabelText | index.ts:148-153 | An identifier label is its text; a string-literal label is its `JSON.parse`. |
| Legacy.LabelTexts | index.ts:146-154 | Succeeds exactly when every label decodes, giving each label's text in order. A failure is a JSON syntax error. |
| Legacy.EmitBlock | index.ts:136-158 | Anonymous without a body: `body not found in …` (index.js lines 127-142: TypeError). Anonymous with a body: `...` followed by the body's code. Named: it succeeds exactly when every label decodes and, if there is a body, the body compiles; the code is `Key(name, labels, SEP)` then `:{}` without a body, or `:` and the body's code with one. |
| Legacy.EmitBody | index.ts:160-162 | Succeeds exactly when every child compiles, giving the codes joined by `,` in braces. |
| Legacy.EmitConfigFile | index.ts:164-168 | Without a body, index.ts fails with `body not found` and index.js with a TypeError (index.js lines 150-154). Otherwise the body's code. |
| Legacy.EmitCollectionValue | index.ts:99-101 | TypeError without a named child, else the first child's code. |
| Legacy.EmitTuple | index.ts:94-97 | The elements other than `tuple_start`/`tuple_end` are compiled; success exactly when all compile, giving their codes joined by `,` in brackets. |
| Legacy.EmitObject | index.ts:89-92 | The same, with `object_start`/`object_end` dropped and braces. |
| Cst.NamedChildren | tfx2json.ts:101 | `namedChildren` holds exactly the named children, and is `children` itself when every child is named. |
| Cst.NamedSnoc | tfx2json.ts:101 | `namedChildren` keeps source order: appending a child appends it to the result exactly when it is named. |
| Cst.Find | tfx2json.ts:101-110 | `find` by type returns nothing exactly when no node has the type; otherwise a node of the type before which no node has it, the first match. |
| Cst.WithoutSnoc | index.ts:89-97 | `filter` keeps source order and multiplicity: appending a node appends it to the result exactly when it passes. |
| Cst.WithoutDelimiters | index.ts:89-97 | Dropping the opening and closing delimiters of a listing leaves its elements in order. |
| LegacyFacts.TupleEntries | index.ts:94-97 | A tuple's code is its elements' codes in source order between brackets, and splitting the inside on `,` gives them back when none holds a `,`. |
| LegacyFacts.ObjectEntries | index.ts:89-92 | The same for an object between braces. |
| Legacy.EmitObjectElem | index.ts:82-87 | Fewer than two `expression` children is a failure, a TypeError when there are none. Otherwise it succeeds exactly when the first two expressions compile, giving their codes joined by `:`. |
| LegacyFacts.ObjectElemSplit | index.ts:82-87 | An object element's code splits at its first `:` into the key's and the value's codes, when the key's code holds no `:`. |
| Legacy.EmitVariableExpr | index.ts:78-80 | Fails exactly when there is no named child (TypeError); otherwise the first named child's text. |
| Legacy.EmitFunctionCall | index.ts:65-72 | TypeError without a named child. Every result starts with `fn_`, the callee's name and `(`. Without `function_arguments` it is the empty call; with them it succeeds exactly when every argument compiles, whatever its code holds, and the codes are listed between the parentheses. What reads back is `LegacyFacts.CallArguments`. |
| Legacy.EmitGetAttr | index.ts:61-63 | Succeeds exactly when every named child compiles; the code lists the children's codes in order, separated by `.`. What reads back is `LegacyFacts.GetAttrSteps`. |
| LegacyFacts.GetAttrSteps | index.ts:61-63 | An attribute reference's code splits on `.` back into its children's codes, when none holds a `.`. |
| LegacyFacts.CallTextSplit | index.ts:65-72 | In `fn_name(inner)`, with no `(` in the name, the first `(` ends the name; the name and the text between the parentheses read back. |
| LegacyFacts.CallWithoutArguments | index.ts:65-72 | A call without arguments is `fn_name()`, and the name reads back. |
| LegacyFacts.CallArguments | index.ts:65-72 | A call with arguments reads back: the name before the first `(`, and the arguments' codes by splitting the inside on `,`, when none holds a `,`. |
| LegacyFacts.AnonymousBodyNotIntrinsic | index.ts:139-143 | The assertion that an anonymous block's body code is not an intrinsic cannot fail: the code is a string. |
| LegacyFacts.AttributeSplit | index.ts:133 | An attribute's code splits at its first `:` into the name and the value's code, when the name holds no `:`. |
| LegacyFacts.EmptyBodyCode | index.ts:160-162 | An empty body compiles to `{}`. |
| LegacyFacts.NamedBlockCode | index.ts:145-157 | A named block with labels `labels` and a body of code `b` compiles to `key:b`. |
| LegacyFacts.NameBlockCode | index.ts:136-158 | A block of a name and a body compiles to the name, `:` and the body's code. |
| LegacyFacts.LabelBlockCode | index.ts:136-158 | A block of a name, one identifier label and a body compiles to the name, the separator, the label, `:` and the body's code. |
| LegacyFacts.UnderscoreBlocksCollide | index.js:127-142 | In index.js, a block named `a_b` and the block `a` labelled `b`, with the same body, get the same code: the two cannot be told apart in the output. |
| LegacyFacts.ListingEntries | index.ts:89-97 | The entries of a bracketed `,`-join are recovered by splitting the inside on `,`, when no entry holds a `,`. |
| LegacyFacts.BodyEntries | index.ts:160-162 | A non-empty body's entry codes are recovered from its code by splitting between the braces on `,`, when no entry holds a `,`. |
| LegacyFacts.JsExpressionSteps | index.js:115-117 | index.js's expression code splits on `.` back into the children's codes, when none holds a `.`. |

## Left out

- Loading the WebAssembly modules, the WASI sandbox, the in-memory file system, capturing hcl2json's output and `JSON.parse` of it (tfx2json.ts:27-95). These are I/O and an external program. `Splicer.Tfx2Json` takes hcl2json's parsed output as its argument `raw`.
- The tree-sitter HCL grammar and parser. The splicer takes the parser as the function `parse`, and the emitters take syntax trees as input.
- `console.error` and `console.log` diagnostics (tfx2json.ts:170, index.ts:56, index.js:54, index.js:152). These have no effect on results.
- Reading `sample.tf` and printing the result (index.ts:14-18, index.js:11-15). This is I/O.
- IEEE-754 rounding. Numbers are exact reals, so `parseFloat` of a long decimal and `parseInt` of a huge numeral are not rounded. `JSON.stringify` is modelled only for number-free values, which covers index.ts's use: all its codes are strings.
- Splicer.Splice: the walk is bounded by `depth`, the number of nested replacements. When a compiled replacement holds another template, JavaScript's walk has no bound. Past the bound the model fails with `DepthExceeded`.
- Json.DecodeString: escaped lone surrogates (`"\ud800"`) are rejected, because a Dafny `char` is a Unicode scalar value. `JSON.parse` accepts them.
- Assertions written without a message (tfx2json.ts:100, 209, 229, 296) carry the asserted condition as their message. node:assert generates its own text.
- Json.Serialize: arrays and objects are stated only by their brackets; the text between them is not parsed back, because the model's `JSON.parse` (`Json.DecodeString`) covers strings only.
- Compiler.EmitIndex: the contract states only finiteness. Exact values of `parseInt` are stated for numerals by `Literals.ParseIntOfNumeral`.
- Intrinsics.OpName: a token outside the table that spells an operator name, such as `add`, passes through unchanged. The table is therefore injective only on the listed operators, which is what `Intrinsics.OpNameInjective` states.
- The commented-out arms of tfx2json.ts's switch (`collection_value`, `object`, `tuple`, `for_*`, `template_expr`, lines 152-167) are not handled by the source. They fall through to `""`, as in the model.
