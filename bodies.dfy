// What the converter makes of a body and of a whole file: blocks first, each
// nested under its type and labels, then the attributes, each under its name.
// These functions are the specification the methods of BodyConverter are
// proved against.

module Bodies {
  import opened Syntax
  import opened Values
  import opened Expressions
  import opened Nesting

  lemma OrderEnumerates(order: AttributeOrder, attrs: map<string, Expr>)
    requires ValidOrder(order)
    ensures Enumerates(order(attrs), attrs.Keys)
  {
  }

  /** The attribute loop of convertBody: each name, in the order visited, is
      set to its converted expression; the first failure aborts. */
  function AttributesInto(c: Converter, attrs: map<string, Expr>, keys: seq<string>, out: Fields): (r: Result<Fields>)
    requires forall i :: 0 <= i < |keys| ==> keys[i] in attrs
    requires forall name :: name in attrs ==> InBounds(attrs[name], |c.bytes|)
    ensures r.Err? ==> r.error.Panic? || (r.error.Wrapped? && r.error.context == "Unable to convert expression")
    decreases |keys|
  {
    if keys == [] then Ok(out)
    else match ExprJson(c, attrs[keys[0]])
      case Err(e) => Err(Wrap("Unable to convert expression", e))
      case Ok(v) => AttributesInto(c, attrs, keys[1..], out[keys[0] := v])
  }

  /** The block loop of convertBody: each block, in source order, is nested
      into the map built so far; the first failure aborts. */
  function BlocksInto(c: Converter, order: AttributeOrder, blocks: seq<Block>, out: Fields): (r: Result<Fields>)
    requires ValidOrder(order)
    requires forall i :: 0 <= i < |blocks| ==> BodyInBounds(blocks[i].body, |c.bytes|)
    ensures r.Err? ==> r.error.Panic? || (r.error.Wrapped? && r.error.context == "Unable to convert block")
    decreases blocks
  {
    if blocks == [] then Ok(out)
    else match BlockInsert(c, order, blocks[0], out)
      case Err(e) => Err(Wrap("Unable to convert block", e))
      case Ok(o) => BlocksInto(c, order, blocks[1..], o)
  }

  /** convertBlock: walk the type and the labels (a conflict stops the walk
      before the body is looked at), convert the body, insert it under the
      last key. */
  function BlockInsert(c: Converter, order: AttributeOrder, block: Block, out: Fields): (r: Result<Fields>)
    requires ValidOrder(order) && BodyInBounds(block.body, |c.bytes|)
    ensures r.Err? ==>
              || r.error.Panic?
              || r.error == StructuralConflict(block.blockType, block.labels)
              || (r.error.Wrapped? && r.error.context == "convert body")
    decreases block
  {
    var keys := [block.blockType] + block.labels;
    if PathConflict(out, keys) then Err(StructuralConflict(block.blockType, block.labels))
    else match BodyJson(c, order, block.body)
      case Err(e) => Err(Wrap("convert body", e))
      case Ok(value) => InsertAt(out, keys, Obj(value))
  }

  /** convertBody: the blocks into a fresh map, then the attributes over it. */
  function BodyJson(c: Converter, order: AttributeOrder, body: Body): (r: Result<Fields>)
    requires ValidOrder(order) && BodyInBounds(body, |c.bytes|)
    ensures r.Err? ==>
              || r.error.Panic?
              || (r.error.Wrapped? && r.error.context in {"Unable to convert block", "Unable to convert expression"})
    decreases body
  {
    OrderEnumerates(order, body.attributes);
    var blocks :- BlocksInto(c, order, body.blocks, map[]);
    AttributesInto(c, body.attributes, order(body.attributes), blocks)
  }

  /** ConvertFile: only a native syntax body is accepted; a failure of the
      body is reported under "convert body". */
  function FileJson(host: Host, order: AttributeOrder, file: File): (r: Result<Fields>)
    requires ValidOrder(order)
    requires file.root.SyntaxBody? ==> BodyInBounds(file.root.body, |file.bytes|)
    ensures file.root.ForeignBody? ==> r == Err(BodyTypeMismatch)
    ensures r.Err? && r.error != BodyTypeMismatch ==>
              || r.error.Panic?
              || (r.error.Wrapped? && r.error.context == "convert body" && r.error.cause.Wrapped? &&
                  r.error.cause.context in {"Unable to convert block", "Unable to convert expression"})
    ensures file.root.SyntaxBody? ==>
              var b := BodyJson(Converter(file.bytes, host), order, file.root.body);
              && (r.Ok? <==> b.Ok?)
              && (r.Ok? ==> r.value == b.value)
              && (b.Err? ==> r.error == Wrap("convert body", b.error))
  {
    match file.root
    case ForeignBody => Err(BodyTypeMismatch)
    case SyntaxBody(body) =>
      match BodyJson(Converter(file.bytes, host), order, body)
      case Err(e) => Err(Wrap("convert body", e))
      case Ok(m) => Ok(m)
  }
}
