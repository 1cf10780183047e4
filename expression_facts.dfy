// What the expression conversion promises, stated over the specification
// functions of module Expressions: the shape of the JSON value, element-wise
// tuples, last-write-wins objects, templates as the concatenation of their
// parts, verbatim bare keys, and the two control constructs.

module ExpressionFacts {
  import opened Syntax
  import opened Values
  import opened Source
  import opened Expressions

  /** `e` with its TemplateWrap layers taken off. */
  function Unwrapped(e: Expr): (u: Expr)
    ensures !u.TemplateWrap?
  {
    if e.TemplateWrap? then Unwrapped(e.wrapped) else e
  }

  /** TemplateWrap is transparent: a wrapped expression converts as the
      expression it wraps. */
  lemma {:induction false} TemplateWrapTransparent(c: Converter, e: Expr)
    requires InBounds(e, |c.bytes|)
    ensures InBounds(Unwrapped(e), |c.bytes|)
    ensures ExprJson(c, e) == ExprJson(c, Unwrapped(e))
    decreases e
  {
    if e.TemplateWrap? {
      TemplateWrapTransparent(c, e.wrapped);
    }
  }

  /** Inside a string too, any stack of TemplateWrap layers is transparent:
      the part's text is the text of the innermost wrapped expression. */
  lemma {:induction false} PartTextWrapTransparent(c: Converter, e: Expr)
    requires InBounds(e, |c.bytes|)
    ensures InBounds(Unwrapped(e), |c.bytes|)
    ensures PartText(c, e) == PartText(c, Unwrapped(e))
    decreases e
  {
    if e.TemplateWrap? {
      PartTextWrapTransparent(c, e.wrapped);
    }
  }

  /** The JSON kind mirrors the expression kind: arrays come exactly from
      tuples, objects exactly from object constructors, cty values exactly
      from literals and folded unary operations; everything else is a
      string. Only those four variants and templates can fail. */
  lemma ExprJsonShape(c: Converter, e: Expr)
    requires InBounds(e, |c.bytes|)
    ensures var r, u := ExprJson(c, e), Unwrapped(e);
            && (r.Ok? ==> (r.value.Arr? <==> u.Tuple?))
            && (r.Ok? ==> (r.value.Obj? <==> u.Object?))
            && (r.Ok? ==> (r.value.Lit? <==> u.Literal? || (u.UnaryOp? && u.operand.Literal?)))
            && (r.Err? ==> u.Tuple? || u.Object? || u.Template? || (u.UnaryOp? && u.operand.Literal?))
  {
    TemplateWrapTransparent(c, e);
  }

  /** A tuple converts to an array of the same length whose i-th element is
      the conversion of the i-th element; it fails exactly when an element
      fails, and then with the error of the first failing element. */
  lemma {:induction false} ElementsJsonAll(c: Converter, elems: seq<Expr>)
    requires forall i :: 0 <= i < |elems| ==> InBounds(elems[i], |c.bytes|)
    ensures var r := ElementsJson(c, elems);
            && (r.Ok? <==> forall i :: 0 <= i < |elems| ==> ExprJson(c, elems[i]).Ok?)
            && (r.Ok? ==> |r.value| == |elems|)
            && (r.Ok? ==> forall i :: 0 <= i < |elems| ==> ExprJson(c, elems[i]) == Ok(r.value[i]))
            && (r.Err? ==> exists j :: 0 <= j < |elems| && ExprJson(c, elems[j]) == Err(r.error) &&
                                     forall i :: 0 <= i < j ==> ExprJson(c, elems[i]).Ok?)
    decreases |elems|
  {
    if elems != [] {
      var rest := elems[1..];
      ElementsJsonAll(c, rest);
      var r, head, tail := ElementsJson(c, elems), ExprJson(c, elems[0]), ElementsJson(c, rest);
      if head.Ok? && tail.Ok? {
        forall i | 0 <= i < |elems| ensures ExprJson(c, elems[i]) == Ok(r.value[i]) {
          if i > 0 {
            assert elems[i] == rest[i - 1];
          }
        }
      } else if head.Ok? {
        var j :| 0 <= j < |rest| && ExprJson(c, rest[j]) == Err(tail.error) &&
                 forall i :: 0 <= i < j ==> ExprJson(c, rest[i]).Ok?;
        assert elems[j + 1] == rest[j];
        forall i | 0 <= i < j + 1 ensures ExprJson(c, elems[i]).Ok? {
          if i > 0 {
            assert elems[i] == rest[i - 1];
          }
        }
      }
    }
  }

  /** The tuple rule of convertExpression. */
  lemma TupleConversion(c: Converter, e: Expr)
    requires e.Tuple? && InBounds(e, |c.bytes|)
    ensures var r := ExprJson(c, e);
            && (r.Ok? <==> forall i :: 0 <= i < |e.elems| ==> ExprJson(c, e.elems[i]).Ok?)
            && (r.Ok? ==> r.value.Arr? && |r.value.items| == |e.elems| &&
                          forall i :: 0 <= i < |e.elems| ==> ExprJson(c, e.elems[i]) == Ok(r.value.items[i]))
  {
    ElementsJsonAll(c, e.elems);
  }

  /** The map an object constructor builds from its converted items, in
      order: each later field overrides an earlier one with the same key. */
  function FieldsMap(fields: seq<(string, Json)>): (m: Fields)
  {
    if fields == [] then map[] else map[fields[0].0 := fields[0].1] + FieldsMap(fields[1..])
  }

  /** The keys of FieldsMap are exactly the fields' keys, and the value at a
      key is that of the LAST field with that key. */
  lemma {:induction false} FieldsMapLastWins(fields: seq<(string, Json)>)
    ensures forall k :: k in FieldsMap(fields) <==> exists i :: 0 <= i < |fields| && fields[i].0 == k
    ensures forall i :: 0 <= i < |fields| && (forall j :: i < j < |fields| ==> fields[j].0 != fields[i].0) ==>
              FieldsMap(fields)[fields[i].0] == fields[i].1
    decreases |fields|
  {
    if fields != [] {
      var rest := fields[1..];
      FieldsMapLastWins(rest);
      var m, restMap := FieldsMap(fields), FieldsMap(rest);
      forall k ensures k in m <==> exists i :: 0 <= i < |fields| && fields[i].0 == k {
        if k in restMap {
          var i :| 0 <= i < |rest| && rest[i].0 == k;
          assert fields[i + 1].0 == k;
        }
        if exists i :: 0 <= i < |fields| && fields[i].0 == k {
          var i :| 0 <= i < |fields| && fields[i].0 == k;
          if i > 0 {
            assert rest[i - 1].0 == k;
          }
        }
      }
      forall i | 0 <= i < |fields| && (forall j :: i < j < |fields| ==> fields[j].0 != fields[i].0)
        ensures m[fields[i].0] == fields[i].1
      {
        if i == 0 {
          forall j | 0 <= j < |rest| ensures rest[j].0 != fields[0].0 {
            assert rest[j] == fields[j + 1];
          }
        } else {
          assert rest[i - 1] == fields[i];
          forall j | i - 1 < j < |rest| ensures rest[j].0 != rest[i - 1].0 {
            assert rest[j] == fields[j + 1];
          }
        }
      }
    }
  }

  /** Object items converting to `fields` (key and value, in order) give the
      object FieldsMap(fields). */
  lemma {:induction false} ItemsJsonFields(c: Converter, items: seq<Item>, fields: seq<(string, Json)>)
    requires forall i :: 0 <= i < |items| ==> InBounds(items[i].key, |c.bytes|) && InBounds(items[i].value, |c.bytes|)
    requires |fields| == |items|
    requires forall i :: 0 <= i < |items| ==> ItemJson(c, items[i]) == Ok(fields[i])
    ensures ItemsJson(c, items) == Ok(FieldsMap(fields))
    decreases |items|
  {
    if items != [] {
      forall i | 0 <= i < |items| - 1 ensures ItemJson(c, items[1..][i]) == Ok(fields[1..][i]) {
        assert items[1..][i] == items[i + 1];
      }
      ItemsJsonFields(c, items[1..], fields[1..]);
    }
  }

  /** The object rule of convertExpression: when every item converts, the
      object has exactly the items' keys, each with the value of the last
      item carrying it. */
  lemma ObjectConversion(c: Converter, e: Expr, fields: seq<(string, Json)>)
    requires e.Object? && InBounds(e, |c.bytes|)
    requires |fields| == |e.items|
    requires forall i :: 0 <= i < |e.items| ==> ItemJson(c, e.items[i]) == Ok(fields[i])
    ensures ExprJson(c, e).Ok? && ExprJson(c, e).value.Obj?
    ensures forall k :: k in ExprJson(c, e).value.fields <==> exists i :: 0 <= i < |fields| && fields[i].0 == k
    ensures forall i :: 0 <= i < |fields| && (forall j :: i < j < |fields| ==> fields[j].0 != fields[i].0) ==>
              ExprJson(c, e).value.fields[fields[i].0] == fields[i].1
  {
    ItemsJsonFields(c, e.items, fields);
    FieldsMapLastWins(fields);
  }

  /** An object constructor fails exactly when one of its items fails (its
      key, or else its value), and then with the first failing item's error. */
  lemma {:induction false} ItemsJsonFails(c: Converter, items: seq<Item>)
    requires forall i :: 0 <= i < |items| ==> InBounds(items[i].key, |c.bytes|) && InBounds(items[i].value, |c.bytes|)
    ensures var r := ItemsJson(c, items);
            && (r.Ok? <==> forall i :: 0 <= i < |items| ==> ItemJson(c, items[i]).Ok?)
            && (r.Err? ==> exists j :: 0 <= j < |items| && ItemJson(c, items[j]) == Err(r.error) &&
                                     forall i :: 0 <= i < j ==> ItemJson(c, items[i]).Ok?)
    decreases |items|
  {
    if items != [] {
      var rest := items[1..];
      ItemsJsonFails(c, rest);
      if ItemJson(c, items[0]).Ok? {
        forall i | 0 < i < |items| ensures ItemJson(c, items[i]) == ItemJson(c, rest[i - 1]) {
          assert items[i] == rest[i - 1];
        }
        if ItemsJson(c, rest).Err? {
          var j :| 0 <= j < |rest| && ItemJson(c, rest[j]) == Err(ItemsJson(c, rest).error) &&
                   forall i :: 0 <= i < j ==> ItemJson(c, rest[i]).Ok?;
          assert ItemJson(c, items[j + 1]) == ItemJson(c, rest[j]);
        }
      }
    }
  }

  /** The concatenation of a sequence of strings, built from the back. */
  function Joined(texts: seq<string>): (s: string)
  {
    if texts == [] then "" else Joined(texts[..|texts| - 1]) + texts[|texts| - 1]
  }

  lemma {:induction false} JoinedCons(t: string, texts: seq<string>)
    ensures Joined([t] + texts) == t + Joined(texts)
    decreases |texts|
  {
    if texts != [] {
      var init := texts[..|texts| - 1];
      assert ([t] + texts)[..|texts|] == [t] + init;
      JoinedCons(t, init);
    }
  }

  /** Parts converting to `texts` make the concatenation of those texts, in
      source order. */
  lemma {:induction false} PartsTextJoined(c: Converter, parts: seq<Expr>, texts: seq<string>)
    requires forall i :: 0 <= i < |parts| ==> InBounds(parts[i], |c.bytes|)
    requires |texts| == |parts|
    requires forall i :: 0 <= i < |parts| ==> PartText(c, parts[i]) == Ok(texts[i])
    ensures PartsText(c, parts) == Ok(Joined(texts))
    decreases |parts|
  {
    if parts != [] {
      forall i | 0 <= i < |parts| - 1 ensures PartText(c, parts[1..][i]) == Ok(texts[1..][i]) {
        assert parts[1..][i] == parts[i + 1];
      }
      PartsTextJoined(c, parts[1..], texts[1..]);
      JoinedCons(texts[0], texts[1..]);
      assert [texts[0]] + texts[1..] == texts;
    }
  }

  /** A template's parts fail exactly when one part fails, and then with the
      first failing part's error. */
  lemma {:induction false} PartsTextFails(c: Converter, parts: seq<Expr>)
    requires forall i :: 0 <= i < |parts| ==> InBounds(parts[i], |c.bytes|)
    ensures var r := PartsText(c, parts);
            && (r.Ok? <==> forall i :: 0 <= i < |parts| ==> PartText(c, parts[i]).Ok?)
            && (r.Err? ==> exists j :: 0 <= j < |parts| && PartText(c, parts[j]) == Err(r.error) &&
                                     forall i :: 0 <= i < j ==> PartText(c, parts[i]).Ok?)
    decreases |parts|
  {
    if parts != [] {
      var rest := parts[1..];
      PartsTextFails(c, rest);
      forall i | 0 < i < |parts| ensures parts[i] == rest[i - 1] { }
      if PartText(c, parts[0]).Ok? && PartsText(c, rest).Err? {
        var j :| 0 <= j < |rest| && PartText(c, rest[j]) == Err(PartsText(c, rest).error) &&
                 forall i :: 0 <= i < j ==> PartText(c, rest[i]).Ok?;
        assert parts[j + 1] == rest[j];
      }
    }
  }

  /** A template that is not a single literal is the concatenation of its
      parts' texts in source order. */
  lemma TemplateConcatenates(c: Converter, t: Expr, texts: seq<string>)
    requires t.Template? && InBounds(t, |c.bytes|) && !IsStringLiteral(t.parts)
    requires |texts| == |t.parts|
    requires forall i :: 0 <= i < |t.parts| ==> PartText(c, t.parts[i]) == Ok(texts[i])
    ensures TemplateText(c, t) == Ok(Joined(texts))
  {
    PartsTextJoined(c, t.parts, texts);
  }

  /** The plain-string shortcut of convertTemplate only saves work: a single
      literal gives the same text as the general part-by-part path, and
      fails exactly when that path fails, always with EvaluationError: where
      the part path fails to convert, or panics on a null literal. */
  lemma StringLiteralShortcut(c: Converter, t: Expr)
    requires t.Template? && InBounds(t, |c.bytes|) && IsStringLiteral(t.parts)
    ensures TemplateText(c, t).Ok? <==> PartsText(c, t.parts).Ok?
    ensures TemplateText(c, t).Ok? ==> TemplateText(c, t) == PartsText(c, t.parts)
    ensures TemplateText(c, t).Err? ==> TemplateText(c, t).error == EvaluationError
    ensures TemplateText(c, t).Err? && !t.parts[0].val.CtyNull? ==> PartsText(c, t.parts).error == StringConversionError
    ensures t.parts[0].val.CtyNull? ==> PartsText(c, t.parts) == Err(Panic(NullAsString))
  {
    assert t.parts[1..] == [];
    var s := c.host.asString(t.parts[0].val);
    if s.Some? {
      assert s.value + "" == s.value;
    }
  }

  /** A bare name used as an object key keeps its source spelling, the very
      text that the same name embedded in a string would carry inside its
      `@@@{...}@@@` placeholder. */
  lemma BareKeyIsVerbatim(c: Converter, k: Expr)
    requires k.ObjectConsKey? && k.keyWrapped.ScopeTraversal? && InBounds(k, |c.bytes|)
    ensures KeyText(c, k) == Ok(RangeSource(c.bytes, k.keyWrapped.rng))
    ensures KeyText(c, k).value == c.bytes[k.keyWrapped.rng.start..k.keyWrapped.rng.start + |KeyText(c, k).value|]
    ensures PartText(c, k.keyWrapped) == Ok("@@@{" + KeyText(c, k).value + "}@@@")
  {
  }

  /** convertTemplateConditional never reports an error: a failing true
      branch gives the empty string, a failing false branch is dropped; only
      a panic (which is not an error value) gets through. The `%{else}`
      clause is there exactly when the false text is not empty. */
  lemma ConditionalForm(c: Converter, e: Expr)
    requires e.Conditional? && InBounds(e, |c.bytes|)
    ensures var r, t, f := ConditionalText(c, e), PartText(c, e.trueResult), PartText(c, e.falseResult);
            var head := "%{if " + RangeSource(c.bytes, e.cond.rng) + "}";
            && (r.Err? ==> r.error.Panic?)
            && (t.Err? && t.error.Panic? ==> r == t)
            && (t.Ok? && f.Err? && f.error.Panic? ==> r == f)
            && (t.Err? && !t.error.Panic? ==> r == Ok(""))
            && (t.Ok? && f.Ok? && f.value != "" ==> r == Ok(head + t.value + "%{else}" + f.value + "%{endif}"))
            && (t.Ok? && (f.Ok? ==> f.value == "") && !(f.Err? && f.error.Panic?) ==>
                  r == Ok(head + t.value + "%{endif}"))
  {
    var t, f := PartText(c, e.trueResult), PartText(c, e.falseResult);
    var head := "%{if " + RangeSource(c.bytes, e.cond.rng) + "}";
    if t.Ok? && f.Ok? && f.value != "" {
      assert head + t.value + ("%{else}" + f.value) == head + t.value + "%{else}" + f.value;
    }
    if t.Ok? {
      assert head + t.value + "" == head + t.value;
    }
  }

  /** convertTemplateFor: `%{for k, v in coll}body%{endfor}`, or without the
      key variable and its comma when there is none; a failing body fails the
      whole loop with the body's error. */
  lemma ForForm(c: Converter, e: Expr)
    requires e.For? && InBounds(e, |c.bytes|)
    ensures var r, b := ForText(c, e), PartText(c, e.valExpr);
            var tail := e.valVar + " in " + RangeSource(c.bytes, e.coll.rng) + "}";
            && (b.Err? ==> r == Err(b.error))
            && (b.Ok? && e.keyVar != "" ==> r == Ok("%{for " + e.keyVar + ", " + tail + b.value + "%{endfor}"))
            && (b.Ok? && e.keyVar == "" ==> r == Ok("%{for " + tail + b.value + "%{endfor}"))
  {
    var b := PartText(c, e.valExpr);
    var src := RangeSource(c.bytes, e.coll.rng);
    var tail := e.valVar + " in " + src + "}";
    if b.Ok? {
      var key := if e.keyVar != "" then e.keyVar + ", " else "";
      assert "%{for " + key + e.valVar + " in " + src + "}" + b.value + "%{endfor}"
          == "%{for " + key + tail + b.value + "%{endfor}";
      if e.keyVar != "" {
        assert "%{for " + key == "%{for " + e.keyVar + ", ";
      } else {
        assert "%{for " + key == "%{for ";
      }
    }
  }
}
