// The already-parsed configuration syntax tree the converter walks: expression
// nodes with their source byte ranges, attributes, blocks and bodies
// (hclsyntax's node types, restricted to the ones the converter tells apart).

module Syntax {

  /** A half-open byte range [start, end) into the document. */
  datatype Range = Range(start: nat, end: nat)

  /** A literal's value as the parser built it. The converter never looks inside
      it: it only hands it to the value library (see Values.Host). */
  datatype CtyValue =
    | CtyNull
    | CtyBool(b: bool)
    | CtyNumber(decimal: string)
    | CtyString(s: string)

  datatype UnaryOperator = Negate | Not

  /** The expression variants the converter distinguishes; every node carries
      its source range. `Other` stands for every remaining variant (function
      calls, binary operators, splats, ...), of which only the range is used. */
  datatype Expr =
    | Literal(rng: Range, val: CtyValue)
    | UnaryOp(rng: Range, op: UnaryOperator, operand: Expr)
    | Template(rng: Range, parts: seq<Expr>)
    | TemplateWrap(rng: Range, wrapped: Expr)
    | Tuple(rng: Range, elems: seq<Expr>)
    | Object(rng: Range, items: seq<Item>)
    | ObjectConsKey(rng: Range, keyWrapped: Expr)
    | ScopeTraversal(rng: Range)
    | Conditional(rng: Range, cond: Expr, trueResult: Expr, falseResult: Expr)
    | TemplateJoin(rng: Range, tuple: Expr)
    | For(rng: Range, keyVar: string, valVar: string, coll: Expr, valExpr: Expr)
    | Other(rng: Range)

  /** One `key = value` item of an object constructor. */
  datatype Item = Item(key: Expr, value: Expr)

  /** A body: its blocks in source order and its attributes by name. */
  datatype Body = Body(blocks: seq<Block>, attributes: map<string, Expr>)

  /** A block `type "label" ... { body }`. */
  datatype Block = Block(blockType: string, labels: seq<string>, body: Body)

  /** The root body of a parsed file: the converter only accepts the native
      syntax body; any other body implementation is refused. */
  datatype FileBody = SyntaxBody(body: Body) | ForeignBody

  datatype File = File(bytes: string, root: FileBody)

  /** Every range in `e` lies inside a document of `n` bytes, as the parser
      guarantees for the trees it builds. */
  predicate InBounds(e: Expr, n: nat)
    ensures InBounds(e, n) ==> e.rng.start <= e.rng.end <= n
    decreases e
  {
    && e.rng.start <= e.rng.end <= n
    && match e
       case Literal(_, _) => true
       case UnaryOp(_, _, x) => InBounds(x, n)
       case Template(_, parts) => forall i :: 0 <= i < |parts| ==> InBounds(parts[i], n)
       case TemplateWrap(_, w) => InBounds(w, n)
       case Tuple(_, elems) => forall i :: 0 <= i < |elems| ==> InBounds(elems[i], n)
       case Object(_, items) =>
         forall i :: 0 <= i < |items| ==> InBounds(items[i].key, n) && InBounds(items[i].value, n)
       case ObjectConsKey(_, w) => InBounds(w, n)
       case ScopeTraversal(_) => true
       case Conditional(_, a, t, f) => InBounds(a, n) && InBounds(t, n) && InBounds(f, n)
       case TemplateJoin(_, t) => InBounds(t, n)
       case For(_, _, _, coll, v) => InBounds(coll, n) && InBounds(v, n)
       case Other(_) => true
  }

  /** Every expression of every attribute, in this body and in all nested
      block bodies, lies inside a document of `n` bytes. */
  predicate BodyInBounds(body: Body, n: nat)
    decreases body
  {
    && (forall name :: name in body.attributes ==> InBounds(body.attributes[name], n))
    && (forall i :: 0 <= i < |body.blocks| ==> BodyInBounds(body.blocks[i].body, n))
  }
}
