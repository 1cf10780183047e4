// The converter's body methods, step by step as convert.go runs them:
// ConvertFile, the two loops of convertBody, and convertBlock's label walk
// and final insert. Each is proved to compute its specification function of
// module Bodies.
//
// convertBlock moves a cursor down through nested maps and updates the map it
// ends at in place. Here the maps are values: the walk keeps the maps it
// passed through (`parents`), and once the last map is updated the path is
// rebuilt upwards, each parent taking the updated child under its key.

module BodyConverter {
  import opened Syntax
  import opened Values
  import opened Expressions
  import opened ExpressionConverter
  import opened Nesting
  import opened Bodies

  method ConvertFile(host: Host, order: AttributeOrder, file: File) returns (r: Result<Fields>)
    requires ValidOrder(order)
    requires file.root.SyntaxBody? ==> BodyInBounds(file.root.body, |file.bytes|)
    ensures r == FileJson(host, order, file)
  {
    if !file.root.SyntaxBody? {
      return Err(BodyTypeMismatch);
    }
    var c := Converter(file.bytes, host);
    var out := ConvertBody(c, order, file.root.body);
    if out.Err? {
      return Err(Wrap("convert body", out.error));
    }
    r := out;
  }

  /** convertBody: blocks first, in source order, then attributes, in the
      order the map iteration visits them. */
  method ConvertBody(c: Converter, order: AttributeOrder, body: Body) returns (r: Result<Fields>)
    requires ValidOrder(order) && BodyInBounds(body, |c.bytes|)
    ensures r == BodyJson(c, order, body)
    decreases body
  {
    BodyJsonUnfold(c, order, body);
    var out: Fields := map[];
    var blocks := body.blocks;
    var i := 0;
    assert blocks[i..] == blocks;
    while i < |blocks|
      invariant 0 <= i <= |blocks|
      invariant forall k :: 0 <= k < |blocks| ==> BodyInBounds(blocks[k].body, |c.bytes|)
      invariant BlocksInto(c, order, blocks, map[]) == BlocksInto(c, order, blocks[i..], out)
    {
      BlocksStep(c, order, blocks, i, out);
      var converted := ConvertBlock(c, order, blocks[i], out);
      if converted.Err? {
        return Err(Wrap("Unable to convert block", converted.error));
      }
      out := converted.value;
      i := i + 1;
    }
    assert blocks[i..] == [];
    ghost var fromBlocks := out;

    var attrs := body.attributes;
    OrderEnumerates(order, attrs);
    var keys := order(attrs);
    var j := 0;
    assert keys[j..] == keys;
    while j < |keys|
      invariant 0 <= j <= |keys|
      invariant forall k :: 0 <= k < |keys| ==> keys[k] in attrs
      invariant forall name :: name in attrs ==> InBounds(attrs[name], |c.bytes|)
      invariant AttributesInto(c, attrs, keys, fromBlocks) == AttributesInto(c, attrs, keys[j..], out)
    {
      AttributesStep(c, attrs, keys, j, out);
      var value := ConvertExpression(c, attrs[keys[j]]);
      if value.Err? {
        return Err(Wrap("Unable to convert expression", value.error));
      }
      out := out[keys[j] := value.value];
      j := j + 1;
    }
    assert keys[j..] == [];
    r := Ok(out);
  }

  lemma BodyJsonUnfold(c: Converter, order: AttributeOrder, body: Body)
    requires ValidOrder(order) && BodyInBounds(body, |c.bytes|)
    ensures Enumerates(order(body.attributes), body.attributes.Keys)
    ensures forall k :: 0 <= k < |body.blocks| ==> BodyInBounds(body.blocks[k].body, |c.bytes|)
    ensures forall name :: name in body.attributes ==> InBounds(body.attributes[name], |c.bytes|)
    ensures BodyJson(c, order, body) ==
              match BlocksInto(c, order, body.blocks, map[])
              case Err(e) => Err(e)
              case Ok(fromBlocks) => AttributesInto(c, body.attributes, order(body.attributes), fromBlocks)
  {
    OrderEnumerates(order, body.attributes);
  }

  lemma BlocksStep(c: Converter, order: AttributeOrder, blocks: seq<Block>, i: nat, out: Fields)
    requires ValidOrder(order) && i < |blocks|
    requires forall k :: 0 <= k < |blocks| ==> BodyInBounds(blocks[k].body, |c.bytes|)
    ensures BlocksInto(c, order, blocks[i..], out) ==
              match BlockInsert(c, order, blocks[i], out)
              case Err(e) => Err(Wrap("Unable to convert block", e))
              case Ok(next) => BlocksInto(c, order, blocks[i + 1..], next)
  {
    assert blocks[i..][0] == blocks[i] && blocks[i..][1..] == blocks[i + 1..];
  }

  lemma AttributesStep(c: Converter, attrs: map<string, Expr>, keys: seq<string>, j: nat, out: Fields)
    requires j < |keys| && forall k :: 0 <= k < |keys| ==> keys[k] in attrs
    requires forall name :: name in attrs ==> InBounds(attrs[name], |c.bytes|)
    ensures AttributesInto(c, attrs, keys[j..], out) ==
              match ExprJson(c, attrs[keys[j]])
              case Err(e) => Err(Wrap("Unable to convert expression", e))
              case Ok(v) => AttributesInto(c, attrs, keys[j + 1..], out[keys[j] := v])
  {
    assert keys[j..][0] == keys[j] && keys[j..][1..] == keys[j + 1..];
  }

  /** convertBlock: the new contents of `out`, or the error. */
  method ConvertBlock(c: Converter, order: AttributeOrder, block: Block, out: Fields) returns (r: Result<Fields>)
    requires ValidOrder(order) && BodyInBounds(block.body, |c.bytes|)
    ensures r == BlockInsert(c, order, block, out)
    decreases block
  {
    var keys := [block.blockType] + block.labels;
    var key := block.blockType;
    var cur := out;
    var parents: seq<Fields> := [];
    var i := 0;
    assert keys[i..] == keys;
    while i < |block.labels|
      invariant 0 <= i <= |block.labels| && |parents| == i
      invariant key == keys[i]
      invariant PathConflict(out, keys) == PathConflict(cur, keys[i..])
      invariant forall v :: !PathConflict(out, keys) ==>
                  InsertAt(out, keys, v) == Lift(parents, keys, InsertAt(cur, keys[i..], v))
    {
      if key in cur {
        if !cur[key].Obj? {
          return Err(StructuralConflict(block.blockType, block.labels));
        }
      }
      forall v | !PathConflict(out, keys)
        ensures Lift(parents, keys, InsertAt(cur, keys[i..], v)) ==
                Lift(parents + [cur], keys, InsertAt(Child(cur, key), keys[i + 1..], v))
      {
        WalkStep(parents, cur, keys, i, v);
      }
      WalkConflict(cur, keys, i);
      parents := parents + [cur];
      if key in cur {
        cur := cur[key].fields;
      } else {
        cur := map[];
      }
      key := block.labels[i];
      i := i + 1;
    }
    assert keys[i..] == [key];

    var value := ConvertBody(c, order, block.body);
    if value.Err? {
      return Err(Wrap("convert body", value.error));
    }
    var v := Obj(value.value);
    ghost var before := cur;
    if key in cur {
      var current := cur[key];
      if current.Obj? {
        cur := cur[key := Arr([current])];
        current := cur[key];
        assert current.items + [v] == [before[key], v];
      }
      if !current.Arr? {
        return Err(Panic(ExistingEntryNotArray));
      }
      cur := cur[key := Arr(current.items + [v])];
      assert cur == before[key := Arr(current.items + [v])];
    } else {
      cur := cur[key := v];
    }
    assert Ok(cur) == FinalInsert(before, key, v);
    var rebuilt := Rebuild(parents, keys, cur);
    r := Ok(rebuilt);
  }

  /** Put the updated innermost map back into each map of the walk, from the
      inside out. */
  method Rebuild(parents: seq<Fields>, keys: seq<string>, inner: Fields) returns (m: Fields)
    requires |parents| <= |keys|
    ensures Lift(parents, keys, Ok(inner)) == Ok(m)
  {
    var acc := inner;
    var j := |parents|;
    assert parents[..j] == parents;
    while j > 0
      invariant 0 <= j <= |parents|
      invariant Lift(parents[..j], keys, Ok(acc)) == Lift(parents, keys, Ok(inner))
    {
      assert parents[..j][..j - 1] == parents[..j - 1];
      j := j - 1;
      acc := parents[j][keys[j] := Obj(acc)];
    }
    m := acc;
  }

  /** Rebuild a path of maps from the inside out: the innermost map, if there
      is one, goes under its key into the last parent, and so on up. */
  function Lift(parents: seq<Fields>, keys: seq<string>, inner: Result<Fields>): Result<Fields>
    requires |parents| <= |keys|
    decreases |parents|
  {
    if inner.Err? || parents == [] then inner
    else
      var n := |parents| - 1;
      Lift(parents[..n], keys, Ok(parents[n][keys[n] := Obj(inner.value)]))
  }

  lemma WalkStep(parents: seq<Fields>, cur: Fields, keys: seq<string>, i: nat, v: Json)
    requires |parents| == i && i + 1 < |keys| && !PathConflict(cur, keys[i..])
    ensures !PathConflict(Child(cur, keys[i]), keys[i + 1..])
    ensures Lift(parents, keys, InsertAt(cur, keys[i..], v)) ==
            Lift(parents + [cur], keys, InsertAt(Child(cur, keys[i]), keys[i + 1..], v))
  {
    assert keys[i..][0] == keys[i] && keys[i..][1..] == keys[i + 1..];
    assert (parents + [cur])[..i] == parents;
  }

  lemma WalkConflict(cur: Fields, keys: seq<string>, i: nat)
    requires i + 1 < |keys|
    requires keys[i] in cur ==> cur[keys[i]].Obj?
    ensures PathConflict(cur, keys[i..]) == PathConflict(Child(cur, keys[i]), keys[i + 1..])
  {
    assert keys[i..][0] == keys[i] && keys[i..][1..] == keys[i + 1..];
  }
}
