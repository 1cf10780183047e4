// Source-text extraction: the verbatim text of an expression's range, and the
// two placeholders that carry unevaluated expressions through JSON.

module Source {
  import opened Syntax

  /** The bytes of `r`, plus the byte right after it when that byte is `)`:
      the parser's ranges for some expressions stop before their closing
      parenthesis. Never reads outside the document. */
  function RangeSource(bytes: string, r: Range): (s: string)
    requires r.start <= r.end <= |bytes|
    ensures |s| == r.end - r.start || |s| == r.end - r.start + 1
    ensures |s| == r.end - r.start + 1 <==> r.end < |bytes| && bytes[r.end] == ')'
    ensures r.start + |s| <= |bytes| && s == bytes[r.start..r.start + |s|]
    ensures s[..r.end - r.start] == bytes[r.start..r.end]
  {
    var end := if r.end < |bytes| && bytes[r.end] == ')' then r.end + 1 else r.end;
    bytes[r.start..end]
  }

  /** `${<source>}`: an unevaluated expression standing for a whole value. */
  function WrapExpr(bytes: string, e: Expr): (s: string)
    requires e.rng.start <= e.rng.end <= |bytes|
    ensures |s| == |RangeSource(bytes, e.rng)| + 3
    ensures s[..2] == "${" && s[2..|s| - 1] == RangeSource(bytes, e.rng) && s[|s| - 1] == '}'
  {
    "${" + RangeSource(bytes, e.rng) + "}"
  }

  /** `@@@{<source>}@@@`: an unevaluated expression embedded in a string. */
  function WrapExprVarInString(bytes: string, e: Expr): (s: string)
    requires e.rng.start <= e.rng.end <= |bytes|
    ensures |s| == |RangeSource(bytes, e.rng)| + 8
    ensures s[..4] == "@@@{" && s[4..|s| - 4] == RangeSource(bytes, e.rng) && s[|s| - 4..] == "}@@@"
  {
    "@@@{" + RangeSource(bytes, e.rng) + "}@@@"
  }

  /** The two placeholders never coincide, whatever the two expressions are:
      an embedded expression can always be told from a whole-value one. */
  lemma PlaceholdersDiffer(bytes: string, e1: Expr, e2: Expr)
    requires e1.rng.start <= e1.rng.end <= |bytes|
    requires e2.rng.start <= e2.rng.end <= |bytes|
    ensures WrapExpr(bytes, e1) != WrapExprVarInString(bytes, e2)
  {
    var a, b := WrapExpr(bytes, e1), WrapExprVarInString(bytes, e2);
    assert a[0] == '$' && b[0] == '@';
  }
}
