# hcljson `convert`: a verified model of the HCL-to-JSON converter

The `convert` package turns an already-parsed HCL configuration (an
`hclsyntax` tree) into a JSON value tree, in the shape Terraform's JSON syntax
expects.

- **Blocks.** A block `type "l1" "l2" { ... }` is nested under its type and
  labels (`{"type": {"l1": {"l2": {...}}}}`). A block repeated at the same
  place collapses into an array.
- **Attributes.** An attribute becomes the JSON value of its expression.
- **Expressions the converter evaluates.** Literals, constant-folded unary
  operations, tuples, objects and templates are converted in place.
- **Other expressions.** These are kept as source text:
  - a whole value becomes `${<source>}`;
  - an expression embedded in a string becomes `@@@{<source>}@@@`;
  - `%{if}` and `%{for}` directives are rebuilt from their parts.

The model follows `convert/convert.go` function by function, in two layers.

- **Specification functions.** These are pure Dafny functions:
  - `Source`: source text and placeholders.
  - `Expressions`: expressions and templates.
  - `Nesting`: paths of keys through nested objects.
  - `Bodies`: bodies, blocks and files.
- **Imperative methods.** These run the way the Go code runs, with its loops
  and its string builders:
  - `ExpressionConverter`: the expression and template methods.
  - `BodyConverter`: the body, block and file methods.
  
  Each method is proved to compute its specification function.
- **Properties.** These are proved about the specification functions:
  - `ExpressionFacts`: properties of expression and template conversion.
  - `BodyFacts`: properties of body and block conversion.
  - `Scenarios`: small documents worked through end to end.
  - `TemplateScenarios`: quoted strings worked through end to end, under
    `ValidHost`.

Design points:

- **The document.** It is a `string`, one character per byte. Syntax-tree
  nodes carry half-open byte ranges into it. The parser guarantees that
  every range lies inside the document; the model assumes this through
  `InBounds` and `BodyInBounds`.
- **The cty value library.** It is foreign code, so it is a parameter: the
  `Host` record.
  - `unaryValue` stands for `Value(nil)` of a unary operation over a literal.
  - `asString` stands for the conversion of a non-null literal to a string.
  - `ValidHost` states what cty is known to do: it keeps a string as it is
    and spells a boolean `true` or `false`. The worked examples assume it.
  - A null literal is handled by the model itself, because the two call
    sites treat it differently. Evaluating a one-literal template reports an
    error on null. Converting an embedded null to a string yields a null
    string, whose `AsString()` panics.
  - Literal values are carried through unexamined, as `Lit`.
- **Map iteration order.** Go's order over `body.Attributes` is a
  parameter, `AttributeOrder`. The model only assumes that it lists every
  attribute exactly once (`ValidOrder`). `BodyOrderIrrelevant` proves that
  the outcome does not depend on it.
- **Errors.** Go's error values become `Err(...)`.
  - `fmt.Errorf("ctx: %w", e)` becomes `Wrapped("ctx", e)`.
  - Three runtime failures make Go panic, and each becomes
    `Err(Panic(site))`:
    - the array type assertion in `convertBlock`;
    - the `for` expression type assertion in `convertStringPart`;
    - `AsString()` of the null string from an embedded null literal, also
      in `convertStringPart`.
  - A panic is never wrapped by an enclosing frame. It is not swallowed by
    `convertTemplateConditional`, which only discards error values.
- **In-place updates.** `convertBlock` moves a cursor down through nested
  Go maps and updates the last one in place. `ConvertBlock` does the same
  walk but keeps the maps it passed through. It then puts the updated map
  back into each parent (`Rebuild`). This is the same result, because
  every map in the output tree is reachable from exactly one place.

Which documents fail, and how:

- **An attribute named like a block.** Take the attribute `foo = 1` next to
  the block `foo "x" {}`. This is not a conflict. The code converts all
  blocks first and then assigns every attribute with a plain map store
  (convert/convert.go:97-104). The attribute silently replaces the block's
  entry, so that body gives `{"foo": 1}` (`Scenarios.AttributeReplacesBlock`).
- **Conflicts.** They arise between blocks:
  - `foo { x = 1 }` followed by `foo "x" "y" {}` reports a structural
    conflict (`Scenarios.LabelPathConflict`).
  - `foo { x = 1 }` followed by `foo "x" {}` panics at the final insert
    (`Scenarios.FinalKeyPanics`).

## Model

| member | source | states |
|---|---|---|
| Source.RangeSource | convert/convert.go:109-117 | the text is the range's bytes, one byte longer exactly when the byte after the range is `)`; it never reaches past the document |
| Source.WrapExpr | convert/convert.go:339-341 | `${`, then the range's source text, then `}` |
| Source.WrapExprVarInString | convert/convert.go:345-347 | `@@@{`, then the range's source text, then `}@@@` |
| Source.PlaceholdersDiffer | convert/convert.go:339-347 | a whole-value placeholder never equals an embedded one, whatever the two expressions |
| Values.Wrap | convert/convert.go:91-93 | an error is wrapped under exactly the given context and keeps its cause; a panic goes through unwrapped |
| Expressions.ConvertUnary | convert/convert.go:230-242 | a non-literal operand gives `${...}` of the whole operation, operator included; a literal operand gives the folded value, or an evaluation error when folding fails |
| Expressions.ExprJson | convert/convert.go:176-228 | a literal gives its value; traversals, conditionals, joins, for expressions, key wrappers and every unhandled variant give `${<source>}` |
| Expressions.ElementsJson | convert/convert.go:199-207 | a converted tuple has as many elements as the tuple |
| Expressions.ItemsJson | convert/convert.go:211-221 | when an object converts, its last item's key holds its last item's value |
| Expressions.ItemJson | convert/convert.go:213-220 | one object item converts exactly when its key and its value both do; the key's error comes first, then the value's; on success it is the pair of the two |
| Expressions.KeyText | convert/convert.go:287-296 | a bare name under a key wrapper gives its verbatim source text; any other key, unwrapped, is converted as a string part |
| Expressions.PartText | convert/convert.go:264-285 | unhandled embedded parts give `@@@{<source>}@@@`; a join whose tuple is not a `for` expression panics; a null literal panics |
| Expressions.TemplateText | convert/convert.go:244-252 | a one-literal template gives that literal as a string; a null literal, or one cty cannot convert, gives an evaluation error |
| Expressions.PartsText | convert/convert.go:253-261 | when the parts convert, every part converts and the text starts with the first part's text |
| Expressions.ConditionalText | convert/convert.go:298-316 | never an error value, only a panic; non-empty text starts with `%{if <cond>}` and ends with `%{endif}` |
| Expressions.ForText | convert/convert.go:318-337 | succeeds exactly when the body does, failing with the body's error; the text starts with `%{for ` and ends with `%{endfor}` |
| ExpressionConverter.ConvertExpression | convert/convert.go:176-228 | the method's result is ExprJson of the expression |
| ExpressionConverter.ConvertTuple | convert/convert.go:196-207 | the element loop computes ExprJson of the tuple: the first failing element aborts it |
| ExpressionConverter.ConvertObject | convert/convert.go:208-222 | the item loop computes ExprJson of the object |
| ExpressionConverter.ConvertItem | convert/convert.go:213-220 | one pass of the item loop, the key first and then the value, computes ItemJson |
| ExpressionConverter.ConvertTemplate | convert/convert.go:244-262 | the builder loop computes TemplateText |
| ExpressionConverter.ConvertStringPart | convert/convert.go:264-285 | the method's result is PartText of the part |
| ExpressionConverter.ConvertKey | convert/convert.go:287-296 | the method's result is KeyText of the key |
| ExpressionConverter.ConvertTemplateConditional | convert/convert.go:298-316 | the builder computes ConditionalText |
| ExpressionConverter.ConvertTemplateFor | convert/convert.go:318-337 | the builder computes ForText |
| ExpressionFacts.TemplateWrapTransparent | convert/convert.go:192-195 | a TemplateWrap converts exactly as the expression it wraps |
| ExpressionFacts.PartTextWrapTransparent | convert/convert.go:274-275 | inside a string, a TemplateWrap gives the text of the expression it wraps, through any number of layers |
| ExpressionFacts.ExprJsonShape | convert/convert.go:176-228 | arrays come exactly from tuples, objects exactly from object constructors, and cty values exactly from literals and folded unary operations; only those and templates can fail |
| ExpressionFacts.ElementsJsonAll | convert/convert.go:199-207 | the element list succeeds exactly when every element does; it then has the same length, with the conversion of element i at index i; otherwise the error is the first failing element's |
| ExpressionFacts.TupleConversion | convert/convert.go:196-207 | a tuple converts to an array of the same length, element-wise and in order, and fails exactly when an element fails |
| ExpressionFacts.FieldsMapLastWins | convert/convert.go:211-221 | the object has exactly the items' keys, each holding the value of the last item with that key |
| ExpressionFacts.ItemsJsonFields | convert/convert.go:208-222 | items converting to key and value pairs build the last-write-wins map of those pairs |
| ExpressionFacts.ObjectConversion | convert/convert.go:208-222 | an object whose items convert is an object with exactly the items' keys, the last duplicate winning |
| ExpressionFacts.ItemsJsonFails | convert/convert.go:212-221 | an object fails exactly when one of its items fails (key or value), with the first failing item's error |
| ExpressionFacts.PartsTextJoined | convert/convert.go:253-261 | converted parts are concatenated in source order |
| ExpressionFacts.PartsTextFails | convert/convert.go:254-258 | the parts fail exactly when one part fails, with the first failing part's error |
| ExpressionFacts.TemplateConcatenates | convert/convert.go:244-262 | a template that is not a single literal is the concatenation of its parts' texts |
| ExpressionFacts.StringLiteralShortcut | convert/convert.go:245-252 | the one-literal shortcut agrees with the part-by-part path: the same success and the same text. Its failure is always an evaluation error; the part path instead gives a string conversion error, or panics on null |
| ExpressionFacts.BareKeyIsVerbatim | convert/convert.go:287-296 | a bare name used as a key is exactly the range source of the name, a verbatim slice of the document; an embedded reference to it carries the same text inside `@@@{...}@@@` |
| ExpressionFacts.ConditionalForm | convert/convert.go:298-316 | the text is `%{if <cond>}T%{else}F%{endif}`, with `%{else}F` only when F is not empty; a failing true branch gives `""`, a failing false branch counts as empty; only a panic escapes, and it is the panic of the branch that raised it |
| ExpressionFacts.ForForm | convert/convert.go:318-337 | the text is `%{for k, v in <coll>}body%{endfor}`, and `k, ` appears only when there is a key variable; a failing body propagates its error |
| Nesting.FinalInsert | convert/convert.go:160-171 | the final key gets the body when it was absent, `[o, body]` over an object `o`, `a ++ [body]` over an array `a`; any other value panics; no other key of the map changes |
| Nesting.InsertAt | convert/convert.go:120-171 | a walk without conflict can fail only by the final-insert panic |
| Nesting.InsertAtPath | convert/convert.go:120-171 | after the walk and the insert, the value at the block's path is the old value with the body appended; the insert fails exactly when that is undefined |
| Nesting.InsertAtPrefixes | convert/convert.go:136-145 | afterwards every proper prefix of the path leads to an object, created when it was absent |
| Nesting.InsertAtFrame | convert/convert.go:120-171 | no path that leaves the block's path before its end changes value: sibling keys at every level are untouched |
| Nesting.PathConflictAt | convert/convert.go:136-141 | the walk fails exactly when some proper prefix of the path already holds a value that is not an object |
| Bodies.AttributesInto | convert/convert.go:97-104 | an attribute loop error is a panic or carries the context "Unable to convert expression" |
| Bodies.BlocksInto | convert/convert.go:88-94 | a block loop error is a panic or carries the context "Unable to convert block" |
| Bodies.BlockInsert | convert/convert.go:119-174 | a block fails only by a panic, by the structural conflict naming its type and labels, or by a body error under "convert body" |
| Bodies.BodyJson | convert/convert.go:85-107 | a body fails only by a panic or by a block or attribute error under its context |
| Bodies.FileJson | convert/convert.go:67-83 | a non-native body is refused; a syntax body gives exactly the body's map when the body converts, and otherwise the body's error under "convert body" (a panic unwrapped); every such error is a panic or a block or attribute error under its context |
| BodyConverter.ConvertFile | convert/convert.go:67-83 | the method's result is FileJson of the file |
| BodyConverter.ConvertBody | convert/convert.go:85-107 | the two loops, blocks then attributes, compute BodyJson |
| BodyConverter.ConvertBlock | convert/convert.go:119-174 | the label walk, the body conversion and the final insert compute BlockInsert |
| BodyConverter.Rebuild | convert/convert.go:136-145 | putting each updated child back into its parent gives the map the in-place update leaves |
| BodyFacts.AttributesIntoOk | convert/convert.go:97-104 | the attribute loop succeeds exactly when every visited attribute converts |
| BodyFacts.AttributesIntoValues | convert/convert.go:97-104 | on success every visited name holds its converted expression, and every other entry is kept |
| BodyFacts.AttributesIntoError | convert/convert.go:97-104 | on failure the error is the first failing attribute's, under "Unable to convert expression" |
| BodyFacts.AttributesOverlay | convert/convert.go:97-104 | when the visiting order lists each attribute once, the loop lays all converted attributes over the blocks' map, and fails exactly when some attribute fails |
| BodyFacts.BodyAttributes | convert/convert.go:85-107 | a body is the blocks' map with every attribute's converted value laid over it, so a same-named attribute overwrites a block entry; a block or attribute failure gives an error and no map |
| BodyFacts.BlockOutcome | convert/convert.go:119-174 | a structural conflict happens exactly when a proper prefix of the path holds a non-object; otherwise a body error is wrapped in "convert body", and a converted body is appended at the path's end or the insert panics |
| BodyFacts.BodyOrderIrrelevant | convert/convert.go:97 | whether a body converts, and to which map, does not depend on the attribute iteration order |
| BodyFacts.BlocksOrderIrrelevant | convert/convert.go:88-94 | the block loop's outcome does not depend on the attribute iteration order |
| BodyFacts.BlockOrderIrrelevant | convert/convert.go:150-153 | a block's outcome does not depend on the attribute iteration order |
| Scenarios.OneAttributeBody | convert/convert.go:97-104 | `name = <number>` gives `{name: number}` |
| Scenarios.BlocksOnly | convert/convert.go:85-107 | a body without attributes is the result of its block loop |
| Scenarios.EmptyBody | convert/convert.go:85-107 | the empty body gives the empty object |
| Scenarios.UnlabelledBlock | convert/convert.go:119-174 | `T { a = 1 }` gives `{"T": {"a": 1}}` |
| Scenarios.LabelledBlock | convert/convert.go:120-148 | `T "x" "y" {}` gives `{"T": {"x": {"y": {}}}}` |
| Scenarios.RepeatedBlocksCollapse | convert/convert.go:160-167 | two `T { a = ... }` blocks give `{"T": [{"a": 1}, {"a": 2}]}` |
| Scenarios.AttributeReplacesBlock | convert/convert.go:85-107 | block `foo "x" {}` with attribute `foo = 1` gives `{"foo": 1}` |
| Scenarios.LabelPathConflict | convert/convert.go:136-141 | `foo { x = 1 }` then `foo "x" "y" {}` fails with the structural conflict under "Unable to convert block" |
| Scenarios.FinalKeyPanics | convert/convert.go:160-167 | `foo { x = 1 }` then `foo "x" {}` panics at the array type assertion |
| TemplateScenarios.StringLiteralTemplate | convert/convert.go:244-252 | a plain quoted string converts to the string itself, with no placeholder |
| TemplateScenarios.EmbeddedReference | convert/convert.go:253-283 | `"a ${var.b} c"` converts to `a @@@{var.b}@@@ c` |
| TemplateScenarios.ConditionalRoundTrip | convert/convert.go:298-316 | `"%{if cond}T%{else}F%{endif}"` converts back to the text between its quotes |
| TemplateScenarios.NullInterpolationPanics | convert/convert.go:266-271 | `"a${null}"` panics when the null is converted to a string |

## Left out

- `HclToJson` (convert/convert.go:27-39): it calls the HCL parser, which is foreign code. The model starts from the syntax tree.
- JSON serialisation by `encoding/json` in `File` (convert/convert.go:42-59): a foreign encoder. That function also reports the wrong error variable at line 54; this is outside the model.
- The coloured `fmt.Printf`/`fmt.Println` logging: output only, with no effect on the result.
- The cty library. Literal values are not interpreted: the `ctyjson.SimpleJSONValue` wrapping (convert/convert.go:183, :241) is the `Lit` constructor, which carries the cty value as it is. Constant folding of unary operations and string conversion of literals come from the `Host` parameter.
- The `reflect.TypeOf` comparison (convert/convert.go:162) is modelled as an "is object" test. `jsonObj` is an alias of `map[string]interface{}`, so this matches.
- Go's attribute iteration order is a parameter. When several attributes fail, which error is reported depends on that order. The model does not fix one; `BodyFacts.AttributesIntoError` states the error for any given order.
- `convertBlock` updates the caller's map in place and leaves partial changes behind when it fails later. The model returns a new map instead. On failure the partial changes are unobservable: `convertBody` then returns no map. Aliasing between maps does not arise: every map has one owner.
- The `out[key] = nil` left by a failing attribute (convert/convert.go:100) is not modelled. The body returns an error and no map just after.
- The expression variants the converter does not tell apart (function calls, operators, splats, indexing and so on) are one variant, `Other`. Only its source range is used.
