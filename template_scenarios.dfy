// Quoted strings worked through the model, for any cty library that keeps a
// string a string: a plain string, a string with an embedded reference, a
// string made of an `%{if}` directive, and a null interpolation.

module TemplateScenarios {
  import opened Syntax
  import opened Values
  import opened Source
  import opened Expressions
  import opened ExpressionFacts

  /** A plain quoted string `"<s>"` converts to the string itself, with no
      placeholder around it. */
  lemma StringLiteralTemplate(c: Converter, s: string)
    requires ValidHost(c.host)
    ensures ExprJson(c, Template(Range(0, 0), [Literal(Range(0, 0), CtyString(s))])) == Ok(Str(s))
  {
  }

  /** The document `"a ${var.b} c"`. */
  const EmbeddedDocument: string := "\"a ${var.b} c\""

  /** Its template: the literal `a `, the reference `var.b`, the literal ` c`. */
  const EmbeddedParts: seq<Expr> :=
    [Literal(Range(1, 3), CtyString("a ")), ScopeTraversal(Range(5, 10)), Literal(Range(11, 13), CtyString(" c"))]

  lemma EmbeddedPartTexts(c: Converter)
    requires ValidHost(c.host) && c.bytes == EmbeddedDocument
    ensures forall i :: 0 <= i < |EmbeddedParts| ==> InBounds(EmbeddedParts[i], |c.bytes|)
    ensures PartText(c, EmbeddedParts[0]) == Ok("a ")
    ensures PartText(c, EmbeddedParts[1]) == Ok("@@@{var.b}@@@")
    ensures PartText(c, EmbeddedParts[2]) == Ok(" c")
  {
    assert c.bytes[5..10] == "var.b" && c.bytes[10] == '}';
    assert "@@@{" + "var.b" + "}@@@" == "@@@{var.b}@@@";
  }

  /** In `"a ${var.b} c"` the reference keeps its source text and is marked
      as embedded: the string becomes `a @@@{var.b}@@@ c`. */
  lemma EmbeddedReference(c: Converter)
    requires ValidHost(c.host) && c.bytes == EmbeddedDocument
    ensures ExprJson(c, Template(Range(0, 14), EmbeddedParts)) == Ok(Str("a @@@{var.b}@@@ c"))
  {
    EmbeddedPartTexts(c);
    var texts := ["a ", "@@@{var.b}@@@", " c"];
    PartsTextJoined(c, EmbeddedParts, texts);
    assert texts[..2][..1] == ["a "] && texts[..2] == ["a ", "@@@{var.b}@@@"];
    assert Joined(texts) == "a " + "@@@{var.b}@@@" + " c" == "a @@@{var.b}@@@ c";
  }

  /** The document `"%{if cond}T%{else}F%{endif}"`. */
  const ConditionalDocument: string := "\"%{if cond}T%{else}F%{endif}\""

  /** Its directive: the condition `cond`, and the one-literal templates `T`
      and `F`. */
  const IfDirective: Expr :=
    Conditional(Range(1, 28), ScopeTraversal(Range(6, 10)),
                Template(Range(11, 12), [Literal(Range(11, 12), CtyString("T"))]),
                Template(Range(19, 20), [Literal(Range(19, 20), CtyString("F"))]))

  lemma ConditionalDocumentSlices(b: string)
    requires b == ConditionalDocument
    ensures |b| == 29 && b[6..10] == "cond" && b[10] == '}'
    ensures b[1..28] == "%{if cond}T%{else}F%{endif}"
  {
    assert b[6] == 'c' && b[7] == 'o' && b[8] == 'n' && b[9] == 'd';
    assert b == ['"'] + "%{if cond}T%{else}F%{endif}" + ['"'];
  }

  lemma IfDirectiveParts(c: Converter)
    requires ValidHost(c.host) && c.bytes == ConditionalDocument
    ensures InBounds(IfDirective, |c.bytes|)
    ensures RangeSource(c.bytes, IfDirective.cond.rng) == "cond"
    ensures PartText(c, IfDirective.trueResult) == Ok("T")
    ensures PartText(c, IfDirective.falseResult) == Ok("F")
  {
    ConditionalDocumentSlices(c.bytes);
  }

  lemma IfDirectiveText(c: Converter)
    requires ValidHost(c.host) && c.bytes == ConditionalDocument
    ensures InBounds(IfDirective, |c.bytes|)
    ensures ConditionalText(c, IfDirective) == Ok("%{if cond}T%{else}F%{endif}")
  {
    IfDirectiveParts(c);
    ConditionalForm(c, IfDirective);
    IfDirectiveSpelled();
  }

  lemma IfDirectiveSpelled()
    ensures "%{if " + "cond" + "}" + "T" + "%{else}" + "F" + "%{endif}" == "%{if cond}T%{else}F%{endif}"
  {
  }

  /** The `%{if}` directive of `"%{if cond}T%{else}F%{endif}"`: the condition's
      source text is kept verbatim, and the string converts back to the text
      between the quotes. */
  lemma ConditionalRoundTrip(c: Converter)
    requires ValidHost(c.host) && c.bytes == ConditionalDocument
    ensures ExprJson(c, Template(Range(0, 29), [IfDirective])) == Ok(Str(ConditionalDocument[1..28]))
  {
    var text := "%{if cond}T%{else}F%{endif}";
    IfDirectiveText(c);
    ConditionalDocumentSlices(c.bytes);
    var parts := [IfDirective];
    assert PartText(c, parts[0]) == Ok(text);
    assert parts[1..] == [] && text + "" == text;
    assert PartsText(c, parts) == Ok(text);
    assert TemplateText(c, Template(Range(0, 29), parts)) == Ok(text);
  }

  /** `"a${null}"`: converting the null interpolation to a string panics, and
      the whole conversion dies with it. */
  lemma NullInterpolationPanics(c: Converter)
    requires ValidHost(c.host)
    ensures ExprJson(c, Template(Range(0, 0), [Literal(Range(0, 0), CtyString("a")),
                                               Literal(Range(0, 0), CtyNull)]))
            == Err(Panic(NullAsString))
  {
    var parts := [Literal(Range(0, 0), CtyString("a")), Literal(Range(0, 0), CtyNull)];
    assert parts[1..] == [parts[1]];
    assert PartsText(c, parts[1..]) == Err(Panic(NullAsString));
  }
}
