// What the converter makes of an expression: the JSON value of a whole-value
// expression, the text of a template and of each embedded part, and the
// `%{if}` / `%{for}` reconstructions. These functions are the specification
// the methods of ExpressionConverter are proved against.

module Expressions {
  import opened Syntax
  import opened Values
  import opened Source

  /** A unary operation is folded only over a literal operand; over anything
      else the whole expression, operator included, becomes `${...}`. */
  function ConvertUnary(c: Converter, e: Expr): (r: Result<Json>)
    requires e.UnaryOp? && InBounds(e, |c.bytes|)
    ensures !e.operand.Literal? ==> r == Ok(Str(WrapExpr(c.bytes, e)))
    ensures e.operand.Literal? ==>
              match c.host.unaryValue(e.op, e.operand.val)
              case Some(v) => r == Ok(Lit(v))
              case None => r == Err(EvaluationError)
  {
    if !e.operand.Literal? then Ok(Str(WrapExpr(c.bytes, e)))
    else match c.host.unaryValue(e.op, e.operand.val)
      case Some(v) => Ok(Lit(v))
      case None => Err(EvaluationError)
  }

  /** The JSON value of a whole-value expression (convertExpression). */
  function ExprJson(c: Converter, e: Expr): (r: Result<Json>)
    requires InBounds(e, |c.bytes|)
    ensures e.Literal? ==> r == Ok(Lit(e.val))
    ensures e.ScopeTraversal? || e.Conditional? || e.TemplateJoin? || e.For? || e.ObjectConsKey? || e.Other? ==>
              r == Ok(Str(WrapExpr(c.bytes, e)))
    decreases e, 3
  {
    match e
    case Literal(_, v) => Ok(Lit(v))
    case UnaryOp(_, _, _) => ConvertUnary(c, e)
    case Template(_, _) =>
      var s :- TemplateText(c, e);
      Ok(Str(s))
    case TemplateWrap(_, w) => ExprJson(c, w)
    case Tuple(_, elems) =>
      var list :- ElementsJson(c, elems);
      Ok(Arr(list))
    case Object(_, items) =>
      var m :- ItemsJson(c, items);
      Ok(Obj(m))
    case _ => Ok(Str(WrapExpr(c.bytes, e)))
  }

  /** The elements of a tuple, converted in order; the first failure aborts. */
  function ElementsJson(c: Converter, elems: seq<Expr>): (r: Result<seq<Json>>)
    requires forall i :: 0 <= i < |elems| ==> InBounds(elems[i], |c.bytes|)
    ensures r.Ok? ==> |r.value| == |elems|
    decreases elems, 0
  {
    if elems == [] then Ok([])
    else
      var head :- ExprJson(c, elems[0]);
      var tail :- ElementsJson(c, elems[1..]);
      Ok([head] + tail)
  }

  /** The fields of an object constructor, item by item; a later item
      overrides an earlier one with the same key. */
  function ItemsJson(c: Converter, items: seq<Item>): (r: Result<Fields>)
    requires forall i :: 0 <= i < |items| ==> InBounds(items[i].key, |c.bytes|) && InBounds(items[i].value, |c.bytes|)
    ensures r.Ok? && items != [] ==>
              var last := ItemJson(c, items[|items| - 1]);
              last.Ok? && last.value.0 in r.value && r.value[last.value.0] == last.value.1
    decreases items, 0
  {
    if items == [] then Ok(map[])
    else
      var field :- ItemJson(c, items[0]);
      var rest :- ItemsJson(c, items[1..]);
      Ok(map[field.0 := field.1] + rest)
  }

  /** One object item: its key first, then its value. */
  function ItemJson(c: Converter, item: Item): (r: Result<(string, Json)>)
    requires InBounds(item.key, |c.bytes|) && InBounds(item.value, |c.bytes|)
    ensures r.Ok? <==> KeyText(c, item.key).Ok? && ExprJson(c, item.value).Ok?
    ensures KeyText(c, item.key).Err? ==> r == Err(KeyText(c, item.key).error)
    ensures KeyText(c, item.key).Ok? && ExprJson(c, item.value).Err? ==> r == Err(ExprJson(c, item.value).error)
    ensures r.Ok? ==> r.value == (KeyText(c, item.key).value, ExprJson(c, item.value).value)
    decreases item, 0
  {
    var key :- KeyText(c, item.key);
    var value :- ExprJson(c, item.value);
    Ok((key, value))
  }

  /** The string an object key becomes (convertKey): a bare name keeps its
      source spelling, anything else is converted as a string part. */
  function KeyText(c: Converter, k: Expr): (r: Result<string>)
    requires InBounds(k, |c.bytes|)
    ensures k.ObjectConsKey? && k.keyWrapped.ScopeTraversal? ==> r == Ok(RangeSource(c.bytes, k.keyWrapped.rng))
    ensures k.ObjectConsKey? && !k.keyWrapped.ScopeTraversal? ==> r == PartText(c, k.keyWrapped)
    ensures !k.ObjectConsKey? ==> r == PartText(c, k)
    decreases k, 2
  {
    match k
    case ObjectConsKey(_, w) =>
      if w.ScopeTraversal? then Ok(RangeSource(c.bytes, w.rng)) else PartText(c, w)
    case _ => PartText(c, k)
  }

  /** The text of one part embedded in a template (convertStringPart). */
  function PartText(c: Converter, e: Expr): (r: Result<string>)
    requires InBounds(e, |c.bytes|)
    ensures e.ScopeTraversal? || e.UnaryOp? || e.Tuple? || e.Object? || e.ObjectConsKey? || e.For? || e.Other? ==>
              r == Ok(WrapExprVarInString(c.bytes, e))
    ensures e.TemplateJoin? && !e.tuple.For? ==> r == Err(Panic(JoinNotFor))
    ensures e.Literal? && e.val.CtyNull? ==> r == Err(Panic(NullAsString))
    decreases e, 1
  {
    match e
    case Literal(_, v) =>
      if v.CtyNull? then Err(Panic(NullAsString))
      else (match c.host.asString(v)
            case Some(s) => Ok(s)
            case None => Err(StringConversionError))
    case Template(_, _) => TemplateText(c, e)
    case TemplateWrap(_, w) => PartText(c, w)
    case Conditional(_, _, _, _) => ConditionalText(c, e)
    case TemplateJoin(_, t) => if t.For? then ForText(c, t) else Err(Panic(JoinNotFor))
    case _ => Ok(WrapExprVarInString(c.bytes, e))
  }

  /** A template made of a single literal, such as a plain quoted string. */
  predicate IsStringLiteral(parts: seq<Expr>)
  {
    |parts| == 1 && parts[0].Literal?
  }

  /** The string a template becomes (convertTemplate). A one-literal
      template is evaluated, and evaluating a null interpolation is an error. */
  function TemplateText(c: Converter, t: Expr): (r: Result<string>)
    requires t.Template? && InBounds(t, |c.bytes|)
    ensures IsStringLiteral(t.parts) && t.parts[0].val.CtyNull? ==> r == Err(EvaluationError)
    ensures IsStringLiteral(t.parts) && !t.parts[0].val.CtyNull? ==>
              match c.host.asString(t.parts[0].val)
              case Some(s) => r == Ok(s)
              case None => r == Err(EvaluationError)
    decreases t, 0
  {
    if IsStringLiteral(t.parts) then
      if t.parts[0].val.CtyNull? then Err(EvaluationError)
      else match c.host.asString(t.parts[0].val)
        case Some(s) => Ok(s)
        case None => Err(EvaluationError)
    else PartsText(c, t.parts)
  }

  /** The parts of a template, converted in source order and concatenated;
      the first failing part aborts. */
  function PartsText(c: Converter, parts: seq<Expr>): (r: Result<string>)
    requires forall i :: 0 <= i < |parts| ==> InBounds(parts[i], |c.bytes|)
    ensures r.Ok? ==> forall i :: 0 <= i < |parts| ==> PartText(c, parts[i]).Ok?
    ensures r.Ok? && parts != [] ==>
              |PartText(c, parts[0]).value| <= |r.value| &&
              r.value[..|PartText(c, parts[0]).value|] == PartText(c, parts[0]).value
    decreases parts, 0
  {
    if parts == [] then Ok("")
    else
      var s :- PartText(c, parts[0]);
      var rest :- PartsText(c, parts[1..]);
      Ok(s + rest)
  }

  /** `%{if <cond>}<true>%{else}<false>%{endif}` (convertTemplateConditional).
      A failing true branch yields the empty string and no error, a failing
      false branch counts as empty; only a panic gets through. */
  function ConditionalText(c: Converter, e: Expr): (r: Result<string>)
    requires e.Conditional? && InBounds(e, |c.bytes|)
    ensures r.Err? ==> r.error.Panic?
    ensures r.Ok? && r.value != "" ==>
              var head := "%{if " + RangeSource(c.bytes, e.cond.rng) + "}";
              |head| + 8 <= |r.value| && r.value[..|head|] == head && r.value[|r.value| - 8..] == "%{endif}"
    decreases e, 0
  {
    var t := PartText(c, e.trueResult);
    if t.Err? then (if t.error.Panic? then t else Ok(""))
    else
      var f := PartText(c, e.falseResult);
      if f.Err? && f.error.Panic? then Err(f.error)
      else
        var cond := RangeSource(c.bytes, e.cond.rng);
        var falseText := if f.Ok? then f.value else "";
        var s := "%{if " + cond + "}" + t.value + (if |falseText| > 0 then "%{else}" + falseText else "") + "%{endif}";
        var head := "%{if " + cond + "}";
        assert s[..|head|] == head && s[|s| - 8..] == "%{endif}";
        Ok(s)
  }

  /** `%{for <key>, <value> in <collection>}<body>%{endfor}` (convertTemplateFor);
      the key variable and its comma only when there is a key variable. */
  function ForText(c: Converter, e: Expr): (r: Result<string>)
    requires e.For? && InBounds(e, |c.bytes|)
    ensures r.Ok? <==> PartText(c, e.valExpr).Ok?
    ensures r.Err? ==> r.error == PartText(c, e.valExpr).error
    ensures r.Ok? ==> 15 <= |r.value| && r.value[..6] == "%{for " && r.value[|r.value| - 9..] == "%{endfor}"
    decreases e, 0
  {
    var body :- PartText(c, e.valExpr);
    Ok("%{for " + (if |e.keyVar| > 0 then e.keyVar + ", " else "") + e.valVar + " in "
        + RangeSource(c.bytes, e.coll.rng) + "}" + body + "%{endfor}")
  }
}
