// The converter's expression methods, step by step as convert.go runs them:
// the tuple and object loops of convertExpression, and the string builders of
// convertTemplate, convertTemplateConditional and convertTemplateFor. Each is
// proved to compute its specification function of module Expressions.

module ExpressionConverter {
  import opened Syntax
  import opened Values
  import opened Source
  import opened Expressions

  method ConvertExpression(c: Converter, e: Expr) returns (r: Result<Json>)
    requires InBounds(e, |c.bytes|)
    ensures r == ExprJson(c, e)
    decreases e, 3
  {
    match e {
      case Literal(_, v) =>
        r := Ok(Lit(v));
      case UnaryOp(_, _, _) =>
        r := ConvertUnary(c, e);
      case Template(_, _) =>
        var s := ConvertTemplate(c, e);
        r := if s.Ok? then Ok(Str(s.value)) else Err(s.error);
      case TemplateWrap(_, w) =>
        r := ConvertExpression(c, w);
      case Tuple(_, _) =>
        r := ConvertTuple(c, e);
      case Object(_, _) =>
        r := ConvertObject(c, e);
      case _ =>
        r := Ok(Str(WrapExpr(c.bytes, e)));
    }
  }

  /** The tuple branch of convertExpression: elements in order into a list. */
  method ConvertTuple(c: Converter, e: Expr) returns (r: Result<Json>)
    requires e.Tuple? && InBounds(e, |c.bytes|)
    ensures r == ExprJson(c, e)
    decreases e, 2
  {
    var elems := e.elems;
    var list: seq<Json> := [];
    var i := 0;
    assert elems[i..] == elems;
    if ElementsJson(c, elems).Ok? {
      assert list + ElementsJson(c, elems).value == ElementsJson(c, elems).value;
    }
    while i < |elems|
      invariant 0 <= i <= |elems|
      invariant forall j :: 0 <= j < |elems| ==> InBounds(elems[j], |c.bytes|)
      invariant ElementsJson(c, elems) == AppendElements(list, ElementsJson(c, elems[i..]))
    {
      var elem := ConvertExpression(c, elems[i]);
      ElementsStep(c, elems, i, list);
      if elem.Err? {
        return Err(elem.error);
      }
      list := list + [elem.value];
      i := i + 1;
    }
    assert elems[i..] == [] && list + [] == list;
    r := Ok(Arr(list));
  }

  /** The tuple elements converted so far, ahead of the conversion of the rest. */
  function AppendElements(list: seq<Json>, rest: Result<seq<Json>>): Result<seq<Json>>
  {
    match rest
    case Ok(tail) => Ok(list + tail)
    case Err(x) => Err(x)
  }

  lemma ElementsStep(c: Converter, elems: seq<Expr>, i: nat, list: seq<Json>)
    requires i < |elems| && forall j :: 0 <= j < |elems| ==> InBounds(elems[j], |c.bytes|)
    ensures ExprJson(c, elems[i]).Err? ==>
              AppendElements(list, ElementsJson(c, elems[i..])) == Err(ExprJson(c, elems[i]).error)
    ensures ExprJson(c, elems[i]).Ok? ==>
              AppendElements(list, ElementsJson(c, elems[i..])) ==
              AppendElements(list + [ExprJson(c, elems[i]).value], ElementsJson(c, elems[i + 1..]))
  {
    assert elems[i..][0] == elems[i] && elems[i..][1..] == elems[i + 1..];
    var head := ExprJson(c, elems[i]);
    if head.Ok? {
      var rest := ElementsJson(c, elems[i + 1..]);
      if rest.Ok? {
        assert list + ([head.value] + rest.value) == list + [head.value] + rest.value;
      }
    }
  }

  /** The object branch of convertExpression: key, then value, item by item. */
  method ConvertObject(c: Converter, e: Expr) returns (r: Result<Json>)
    requires e.Object? && InBounds(e, |c.bytes|)
    ensures r == ExprJson(c, e)
    decreases e, 2
  {
    ObjectUnfold(c, e);
    var items := e.items;
    var m: Fields := map[];
    var i := 0;
    ItemsStart(c, items);
    while i < |items|
      invariant 0 <= i <= |items|
      invariant forall j :: 0 <= j < |items| ==> InBounds(items[j].key, |c.bytes|) && InBounds(items[j].value, |c.bytes|)
      invariant ItemsJson(c, items) == MergeFields(m, ItemsJson(c, items[i..]))
    {
      var field := ConvertItem(c, items[i]);
      ItemsStep(c, items, i, m, field);
      if field.Err? {
        return Err(field.error);
      }
      m := m[field.value.0 := field.value.1];
      i := i + 1;
    }
    ItemsEnd(c, items, m);
    r := Ok(Obj(m));
  }

  /** One pass of the object loop: the key, then the value. */
  method ConvertItem(c: Converter, item: Item) returns (r: Result<(string, Json)>)
    requires InBounds(item.key, |c.bytes|) && InBounds(item.value, |c.bytes|)
    ensures r == ItemJson(c, item)
    decreases item, 1
  {
    var key := ConvertKey(c, item.key);
    if key.Err? {
      return Err(key.error);
    }
    var value := ConvertExpression(c, item.value);
    if value.Err? {
      return Err(value.error);
    }
    r := Ok((key.value, value.value));
  }

  lemma ObjectUnfold(c: Converter, e: Expr)
    requires e.Object? && InBounds(e, |c.bytes|)
    ensures forall j :: 0 <= j < |e.items| ==> InBounds(e.items[j].key, |c.bytes|) && InBounds(e.items[j].value, |c.bytes|)
    ensures ExprJson(c, e) == match ItemsJson(c, e.items)
                              case Ok(m) => Ok(Obj(m))
                              case Err(x) => Err(x)
  {
  }

  lemma ItemsStart(c: Converter, items: seq<Item>)
    requires forall j :: 0 <= j < |items| ==> InBounds(items[j].key, |c.bytes|) && InBounds(items[j].value, |c.bytes|)
    ensures ItemsJson(c, items) == MergeFields(map[], ItemsJson(c, items[0..]))
  {
    assert items[0..] == items;
    if ItemsJson(c, items).Ok? {
      assert map[] + ItemsJson(c, items).value == ItemsJson(c, items).value;
    }
  }

  lemma ItemsEnd(c: Converter, items: seq<Item>, m: Fields)
    requires forall j :: 0 <= j < |items| ==> InBounds(items[j].key, |c.bytes|) && InBounds(items[j].value, |c.bytes|)
    ensures MergeFields(m, ItemsJson(c, items[|items|..])) == Ok(m)
  {
    assert items[|items|..] == [] && m + map[] == m;
  }

  /** The fields set so far, overridden by the conversion of the rest. */
  function MergeFields(m: Fields, rest: Result<Fields>): Result<Fields>
  {
    match rest
    case Ok(tail) => Ok(m + tail)
    case Err(x) => Err(x)
  }

  lemma ItemsStep(c: Converter, items: seq<Item>, i: nat, m: Fields, field: Result<(string, Json)>)
    requires i < |items|
    requires forall j :: 0 <= j < |items| ==> InBounds(items[j].key, |c.bytes|) && InBounds(items[j].value, |c.bytes|)
    requires field == ItemJson(c, items[i])
    ensures field.Err? ==> MergeFields(m, ItemsJson(c, items[i..])) == Err(field.error)
    ensures field.Ok? ==>
              MergeFields(m, ItemsJson(c, items[i..])) ==
              MergeFields(m[field.value.0 := field.value.1], ItemsJson(c, items[i + 1..]))
  {
    assert items[i..][0] == items[i] && items[i..][1..] == items[i + 1..];
    if field.Ok? {
      var rest := ItemsJson(c, items[i + 1..]);
      if rest.Ok? {
        var (k, v) := field.value;
        assert m + (map[k := v] + rest.value) == m[k := v] + rest.value;
      }
    }
  }

  method ConvertTemplate(c: Converter, t: Expr) returns (r: Result<string>)
    requires t.Template? && InBounds(t, |c.bytes|)
    ensures r == TemplateText(c, t)
    decreases t, 0
  {
    if IsStringLiteral(t.parts) {
      if t.parts[0].val.CtyNull? {
        return Err(EvaluationError);
      }
      match c.host.asString(t.parts[0].val)
      case Some(s) => return Ok(s);
      case None => return Err(EvaluationError);
    }
    var parts := t.parts;
    var builder := "";
    var i := 0;
    assert parts[i..] == parts;
    if PartsText(c, parts).Ok? {
      assert builder + PartsText(c, parts).value == PartsText(c, parts).value;
    }
    while i < |parts|
      invariant 0 <= i <= |parts|
      invariant forall j :: 0 <= j < |parts| ==> InBounds(parts[j], |c.bytes|)
      invariant PartsText(c, parts) == AppendText(builder, PartsText(c, parts[i..]))
    {
      var s := ConvertStringPart(c, parts[i]);
      PartsStep(c, parts, i, builder);
      if s.Err? {
        return Err(s.error);
      }
      builder := builder + s.value;
      i := i + 1;
    }
    assert parts[i..] == [] && builder + "" == builder;
    r := Ok(builder);
  }

  /** The text written to the builder so far, ahead of the rest. */
  function AppendText(builder: string, rest: Result<string>): Result<string>
  {
    match rest
    case Ok(tail) => Ok(builder + tail)
    case Err(x) => Err(x)
  }

  lemma PartsStep(c: Converter, parts: seq<Expr>, i: nat, builder: string)
    requires i < |parts| && forall j :: 0 <= j < |parts| ==> InBounds(parts[j], |c.bytes|)
    ensures PartText(c, parts[i]).Err? ==>
              AppendText(builder, PartsText(c, parts[i..])) == Err(PartText(c, parts[i]).error)
    ensures PartText(c, parts[i]).Ok? ==>
              AppendText(builder, PartsText(c, parts[i..])) ==
              AppendText(builder + PartText(c, parts[i]).value, PartsText(c, parts[i + 1..]))
  {
    assert parts[i..][0] == parts[i] && parts[i..][1..] == parts[i + 1..];
    var s := PartText(c, parts[i]);
    if s.Ok? {
      var rest := PartsText(c, parts[i + 1..]);
      if rest.Ok? {
        assert builder + (s.value + rest.value) == builder + s.value + rest.value;
      }
    }
  }

  method ConvertStringPart(c: Converter, e: Expr) returns (r: Result<string>)
    requires InBounds(e, |c.bytes|)
    ensures r == PartText(c, e)
    decreases e, 1
  {
    match e {
      case Literal(_, v) =>
        if v.CtyNull? {
          return Err(Panic(NullAsString));
        }
        match c.host.asString(v) {
          case Some(s) => r := Ok(s);
          case None => r := Err(StringConversionError);
        }
      case Template(_, _) =>
        r := ConvertTemplate(c, e);
      case TemplateWrap(_, w) =>
        r := ConvertStringPart(c, w);
      case Conditional(_, _, _, _) =>
        r := ConvertTemplateConditional(c, e);
      case TemplateJoin(_, t) =>
        if !t.For? {
          return Err(Panic(JoinNotFor));
        }
        r := ConvertTemplateFor(c, t);
      case _ =>
        r := Ok(WrapExprVarInString(c.bytes, e));
    }
  }

  method ConvertKey(c: Converter, k: Expr) returns (r: Result<string>)
    requires InBounds(k, |c.bytes|)
    ensures r == KeyText(c, k)
    decreases k, 2
  {
    var keyExpr := k;
    if k.ObjectConsKey? {
      keyExpr := k.keyWrapped;
      if keyExpr.ScopeTraversal? {
        return Ok(RangeSource(c.bytes, keyExpr.rng));
      }
    }
    r := ConvertStringPart(c, keyExpr);
  }

  method ConvertTemplateConditional(c: Converter, e: Expr) returns (r: Result<string>)
    requires e.Conditional? && InBounds(e, |c.bytes|)
    ensures r == ConditionalText(c, e)
    decreases e, 0
  {
    var builder := "%{if ";
    builder := builder + RangeSource(c.bytes, e.cond.rng);
    builder := builder + "}";
    var trueResult := ConvertStringPart(c, e.trueResult);
    if trueResult.Err? {
      if trueResult.error.Panic? {
        return Err(trueResult.error);
      }
      return Ok("");
    }
    builder := builder + trueResult.value;
    ghost var before := builder;
    var falseResult := ConvertStringPart(c, e.falseResult);
    if falseResult.Err? && falseResult.error.Panic? {
      return Err(falseResult.error);
    }
    var f := if falseResult.Ok? then falseResult.value else "";
    if |f| > 0 {
      builder := builder + "%{else}";
      builder := builder + f;
      assert builder == before + ("%{else}" + f);
    } else {
      assert builder == before + "";
    }
    builder := builder + "%{endif}";
    assert falseResult == PartText(c, e.falseResult);
    r := Ok(builder);
  }

  method ConvertTemplateFor(c: Converter, e: Expr) returns (r: Result<string>)
    requires e.For? && InBounds(e, |c.bytes|)
    ensures r == ForText(c, e)
    decreases e, 0
  {
    var builder := "%{for ";
    if |e.keyVar| > 0 {
      builder := builder + e.keyVar;
      builder := builder + ", ";
      assert builder == "%{for " + (e.keyVar + ", ");
    } else {
      assert builder == "%{for " + "";
    }
    builder := builder + e.valVar;
    builder := builder + " in ";
    builder := builder + RangeSource(c.bytes, e.coll.rng);
    builder := builder + "}";
    var templ := ConvertStringPart(c, e.valExpr);
    if templ.Err? {
      return Err(templ.error);
    }
    builder := builder + templ.value;
    builder := builder + "%{endfor}";
    r := Ok(builder);
  }
}
