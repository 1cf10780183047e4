// What the body conversion promises, stated over the specification functions
// of module Bodies: attributes are laid over the blocks' map, a block lands
// where its path says or fails for the reasons convertBlock has, and the
// outcome does not depend on the order in which attributes are visited.

module BodyFacts {
  import opened Syntax
  import opened Values
  import opened Expressions
  import opened Nesting
  import opened Bodies

  /** Every attribute converts. */
  predicate AllConvert(c: Converter, attrs: map<string, Expr>)
    requires forall name :: name in attrs ==> InBounds(attrs[name], |c.bytes|)
  {
    forall name :: name in attrs ==> ExprJson(c, attrs[name]).Ok?
  }

  /** The attributes that convert, by name, with their JSON values. */
  function Converted(c: Converter, attrs: map<string, Expr>): map<string, Json>
    requires forall name :: name in attrs ==> InBounds(attrs[name], |c.bytes|)
  {
    map name | name in attrs && ExprJson(c, attrs[name]).Ok? :: ExprJson(c, attrs[name]).value
  }

  /** The attribute loop, whatever the visiting order `keys`, succeeds
      exactly when every visited attribute converts. */
  lemma {:induction false} AttributesIntoOk(c: Converter, attrs: map<string, Expr>, keys: seq<string>, out: Fields)
    requires forall i :: 0 <= i < |keys| ==> keys[i] in attrs
    requires forall name :: name in attrs ==> InBounds(attrs[name], |c.bytes|)
    ensures AttributesInto(c, attrs, keys, out).Ok? <==> forall i :: 0 <= i < |keys| ==> ExprJson(c, attrs[keys[i]]).Ok?
    decreases |keys|
  {
    if keys != [] {
      var first := ExprJson(c, attrs[keys[0]]);
      if first.Ok? {
        AttributesIntoOk(c, attrs, keys[1..], out[keys[0] := first.value]);
        forall i | 0 < i < |keys| ensures keys[i] == keys[1..][i - 1] { }
      }
    }
  }

  /** On success, every visited name holds its converted expression and every
      other entry of `out` is kept. */
  lemma {:induction false} AttributesIntoValues(c: Converter, attrs: map<string, Expr>, keys: seq<string>, out: Fields)
    requires forall i :: 0 <= i < |keys| ==> keys[i] in attrs
    requires forall name :: name in attrs ==> InBounds(attrs[name], |c.bytes|)
    requires AttributesInto(c, attrs, keys, out).Ok?
    ensures var m := AttributesInto(c, attrs, keys, out).value;
            && (forall k :: k in m <==> k in out || k in keys)
            && (forall i :: 0 <= i < |keys| ==> ExprJson(c, attrs[keys[i]]) == Ok(m[keys[i]]))
            && (forall k :: k in out && k !in keys ==> m[k] == out[k])
    decreases |keys|
  {
    if keys != [] {
      var k0, rest := keys[0], keys[1..];
      assert keys == [k0] + rest;
      var next := out[k0 := ExprJson(c, attrs[k0]).value];
      AttributesIntoValues(c, attrs, rest, next);
      var m := AttributesInto(c, attrs, rest, next).value;
      forall i | 0 < i < |keys| ensures keys[i] == rest[i - 1] { }
      if k0 !in rest {
        assert m[k0] == next[k0];
      } else {
        var i :| 0 <= i < |rest| && rest[i] == k0;
        assert ExprJson(c, attrs[rest[i]]) == Ok(m[rest[i]]);
      }
    }
  }

  /** On failure, the error is that of the first visited attribute that does
      not convert, under "Unable to convert expression". */
  lemma {:induction false} AttributesIntoError(c: Converter, attrs: map<string, Expr>, keys: seq<string>, out: Fields)
    requires forall i :: 0 <= i < |keys| ==> keys[i] in attrs
    requires forall name :: name in attrs ==> InBounds(attrs[name], |c.bytes|)
    requires AttributesInto(c, attrs, keys, out).Err?
    ensures exists i :: 0 <= i < |keys| && ExprJson(c, attrs[keys[i]]).Err? &&
                        AttributesInto(c, attrs, keys, out).error ==
                          Wrap("Unable to convert expression", ExprJson(c, attrs[keys[i]]).error) &&
                        forall j :: 0 <= j < i ==> ExprJson(c, attrs[keys[j]]).Ok?
    decreases |keys|
  {
    var first := ExprJson(c, attrs[keys[0]]);
    if first.Ok? {
      var rest := keys[1..];
      var next := out[keys[0] := first.value];
      AttributesIntoError(c, attrs, rest, next);
      var i :| 0 <= i < |rest| && ExprJson(c, attrs[rest[i]]).Err? &&
               AttributesInto(c, attrs, rest, next).error == Wrap("Unable to convert expression", ExprJson(c, attrs[rest[i]]).error) &&
               forall j :: 0 <= j < i ==> ExprJson(c, attrs[rest[j]]).Ok?;
      assert keys[i + 1] == rest[i];
      forall j | 0 < j < i + 1 ensures keys[j] == rest[j - 1] { }
    }
  }

  /** When the visiting order lists every attribute once, the attribute loop
      lays the converted attributes over `out`: the result no longer depends
      on the order. */
  lemma AttributesOverlay(c: Converter, attrs: map<string, Expr>, keys: seq<string>, out: Fields)
    requires Enumerates(keys, attrs.Keys)
    requires forall name :: name in attrs ==> InBounds(attrs[name], |c.bytes|)
    ensures var r := AttributesInto(c, attrs, keys, out);
            && (r.Ok? <==> AllConvert(c, attrs))
            && (r.Ok? ==> r.value == out + Converted(c, attrs))
            && (r.Err? ==> exists name :: name in attrs && ExprJson(c, attrs[name]).Err? &&
                                        r.error == Wrap("Unable to convert expression", ExprJson(c, attrs[name]).error))
  {
    var r := AttributesInto(c, attrs, keys, out);
    forall name | name in attrs ensures exists i :: 0 <= i < |keys| && keys[i] == name {
      assert name in keys;
    }
    AttributesIntoOk(c, attrs, keys, out);
    if r.Ok? {
      AttributesIntoValues(c, attrs, keys, out);
      OverlayEquals(c, attrs, keys, out, r.value);
    } else {
      AttributesIntoError(c, attrs, keys, out);
    }
  }

  lemma OverlayEquals(c: Converter, attrs: map<string, Expr>, keys: seq<string>, out: Fields, m: Fields)
    requires Enumerates(keys, attrs.Keys)
    requires forall name :: name in attrs ==> InBounds(attrs[name], |c.bytes|)
    requires forall k :: k in m <==> k in out || k in keys
    requires forall i :: 0 <= i < |keys| ==> ExprJson(c, attrs[keys[i]]) == Ok(m[keys[i]])
    requires forall k :: k in out && k !in keys ==> m[k] == out[k]
    ensures m == out + Converted(c, attrs)
  {
    var want := out + Converted(c, attrs);
    forall name | name in attrs ensures ExprJson(c, attrs[name]) == Ok(m[name]) {
      assert name in keys;
      var i :| 0 <= i < |keys| && keys[i] == name;
    }
    assert m.Keys == want.Keys;
  }

  /** convertBody: the blocks' map with every attribute laid over it, so an
      attribute replaces a block entry of the same name; a failing block
      aborts before any attribute, a failing attribute aborts with its error. */
  lemma BodyAttributes(c: Converter, order: AttributeOrder, body: Body)
    requires ValidOrder(order) && BodyInBounds(body, |c.bytes|)
    ensures var r, b, attrs := BodyJson(c, order, body), BlocksInto(c, order, body.blocks, map[]), body.attributes;
            && (r.Ok? <==> b.Ok? && AllConvert(c, attrs))
            && (r.Ok? ==> r.value == b.value + Converted(c, attrs))
            && (r.Ok? ==> forall name :: name in attrs ==> ExprJson(c, attrs[name]) == Ok(r.value[name]))
            && (b.Err? ==> r == Err(b.error))
            && (b.Ok? && r.Err? ==> exists name :: name in attrs && ExprJson(c, attrs[name]).Err? &&
                                               r.error == Wrap("Unable to convert expression", ExprJson(c, attrs[name]).error))
  {
    OrderEnumerates(order, body.attributes);
    var b := BlocksInto(c, order, body.blocks, map[]);
    if b.Ok? {
      AttributesOverlay(c, body.attributes, order(body.attributes), b.value);
    }
  }

  /** convertBlock: a structural conflict exactly when some proper prefix of
      the block's path already holds a value that is not an object; otherwise
      a failing body is reported under "convert body", and a converted body
      ends up at the path's end as Appended says (or the insert panics). */
  lemma BlockOutcome(c: Converter, order: AttributeOrder, block: Block, out: Fields)
    requires ValidOrder(order) && BodyInBounds(block.body, |c.bytes|)
    ensures var keys, r, body := [block.blockType] + block.labels, BlockInsert(c, order, block, out),
                                 BodyJson(c, order, block.body);
            && ((r.Err? && r.error == StructuralConflict(block.blockType, block.labels)) <==>
                  exists j :: 1 <= j < |keys| && Get(out, keys[..j]).Some? && !Get(out, keys[..j]).value.Obj?)
            && (!PathConflict(out, keys) && body.Err? ==> r == Err(Wrap("convert body", body.error)))
            && (!PathConflict(out, keys) && body.Ok? ==>
                  var want := Appended(Get(out, keys), Obj(body.value));
                  && (r.Ok? <==> want.Some?)
                  && (r.Ok? ==> Get(r.value, keys) == want)
                  && (r.Err? ==> r.error == Panic(ExistingEntryNotArray)))
  {
    var keys := [block.blockType] + block.labels;
    PathConflictAt(out, keys);
    var body := BodyJson(c, order, block.body);
    if !PathConflict(out, keys) && body.Ok? {
      InsertAtPath(out, keys, Obj(body.value));
    }
  }

  /** Two conversions agree: both fail, or both succeed with the same map. */
  predicate SameOutcome(r1: Result<Fields>, r2: Result<Fields>)
  {
    r1.Ok? == r2.Ok? && (r1.Ok? ==> r1.value == r2.value)
  }

  /** The order in which map iteration visits attributes does not change
      whether a body converts, nor the map it converts to (only which error
      is reported when several attributes fail). */
  lemma {:induction false} BodyOrderIrrelevant(c: Converter, order1: AttributeOrder, order2: AttributeOrder, body: Body)
    requires ValidOrder(order1) && ValidOrder(order2) && BodyInBounds(body, |c.bytes|)
    ensures SameOutcome(BodyJson(c, order1, body), BodyJson(c, order2, body))
    decreases body
  {
    BlocksOrderIrrelevant(c, order1, order2, body.blocks, map[]);
    BodyAttributes(c, order1, body);
    BodyAttributes(c, order2, body);
  }

  lemma {:induction false} BlocksOrderIrrelevant(c: Converter, order1: AttributeOrder, order2: AttributeOrder,
                                                 blocks: seq<Block>, out: Fields)
    requires ValidOrder(order1) && ValidOrder(order2)
    requires forall i :: 0 <= i < |blocks| ==> BodyInBounds(blocks[i].body, |c.bytes|)
    ensures SameOutcome(BlocksInto(c, order1, blocks, out), BlocksInto(c, order2, blocks, out))
    decreases blocks
  {
    if blocks != [] {
      BlockOrderIrrelevant(c, order1, order2, blocks[0], out);
      var r := BlockInsert(c, order1, blocks[0], out);
      if r.Ok? {
        BlocksOrderIrrelevant(c, order1, order2, blocks[1..], r.value);
      }
    }
  }

  lemma {:induction false} BlockOrderIrrelevant(c: Converter, order1: AttributeOrder, order2: AttributeOrder,
                                                block: Block, out: Fields)
    requires ValidOrder(order1) && ValidOrder(order2) && BodyInBounds(block.body, |c.bytes|)
    ensures SameOutcome(BlockInsert(c, order1, block, out), BlockInsert(c, order2, block, out))
    decreases block
  {
    BodyOrderIrrelevant(c, order1, order2, block.body);
  }
}
