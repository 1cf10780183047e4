// The converter's output values, its errors, and the converter itself: the
// document bytes plus the foreign collaborators it calls (the cty value
// library, and the Go runtime's map iteration order), given as parameters.

module Values {
  import opened Syntax

  /** The JSON value tree handed to the encoder. `Lit` is a cty value wrapped
      for the encoder as it is (ctyjson.SimpleJSONValue); `Obj` is the Go
      map[string]interface{}, `Arr` the []interface{}, `Str` a Go string. */
  datatype Json =
    | Obj(fields: map<string, Json>)
    | Arr(items: seq<Json>)
    | Str(s: string)
    | Lit(value: CtyValue)

  type Fields = map<string, Json>

  datatype Option<T> = None | Some(value: T)

  /** A failed type assertion makes Go panic: it is not an error value, nobody
      recovers it, and the whole conversion dies with it. */
  datatype PanicSite =
    | ExistingEntryNotArray  // current.([]interface{}) in convertBlock
    | JoinNotFor             // v.Tuple.(*hclsyntax.ForExpr) in convertStringPart
    | NullAsString           // AsString() of the null string that converting a null literal gives

  datatype Error =
    | EvaluationError              // Value(nil) of a unary operation or a literal-only template failed
    | StringConversionError        // a literal could not be converted to a string
    | StructuralConflict(blockType: string, labels: seq<string>)
    | BodyTypeMismatch             // the file body is not a native syntax body
    | Wrapped(context: string, cause: Error)  // fmt.Errorf("<context>: %w", cause)
    | Panic(site: PanicSite)

  /** fmt.Errorf("<context>: %w", e); a panic passes through every frame as it is. */
  function Wrap(context: string, e: Error): (w: Error)
    ensures e.Panic? ==> w == e
    ensures !e.Panic? ==> w.Wrapped? && w.context == context && w.cause == e
  {
    if e.Panic? then e else Wrapped(context, e)
  }

  datatype Result<T> = Ok(value: T) | Err(error: Error) {
    predicate IsFailure() { Err? }

    function PropagateFailure<U>(): Result<U>
      requires Err?
    {
      Err(error)
    }

    function Extract(): T
      requires Ok?
    {
      value
    }
  }

  /** What the converter calls but cannot see (the cty value library):
      - unaryValue: UnaryOpExpr.Value(nil) when the operand is a literal
        (constant folding; None when it reports an error);
      - asString: cty's conversion of a non-null literal to a string
        (ctyconvert.Convert to cty.String, which TemplateExpr.Value(nil) of
        a one-literal template also applies); None when it reports an error.
        A null literal never reaches it: the converter handles null itself. */
  datatype Host = Host(
    unaryValue: (UnaryOperator, CtyValue) -> Option<CtyValue>,
    asString: CtyValue -> Option<string>)

  /** What cty is known to do when converting to a string: a string is
      kept as it is, a boolean is spelled `true` or `false`. */
  ghost predicate ValidHost(h: Host)
  {
    && (forall s: string :: h.asString(CtyString(s)) == Some(s))
    && (forall b: bool :: h.asString(CtyBool(b)) == Some(if b then "true" else "false"))
  }

  /** The converter: the document bytes it slices source text from, and its host. */
  datatype Converter = Converter(bytes: string, host: Host)

  /** The order in which `range` visits an attribute map, which the Go runtime
      chooses afresh each time. */
  type AttributeOrder = map<string, Expr> -> seq<string>

  /** `keys` lists every key of `names` exactly once. */
  ghost predicate Enumerates(keys: seq<string>, names: set<string>)
  {
    && (forall k :: k in keys <==> k in names)
    && (forall i, j :: 0 <= i < j < |keys| ==> keys[i] != keys[j])
  }

  /** Map iteration visits every attribute exactly once, whatever the order. */
  ghost predicate ValidOrder(order: AttributeOrder)
  {
    forall attrs: map<string, Expr> :: Enumerates(order(attrs), attrs.Keys)
  }
}
