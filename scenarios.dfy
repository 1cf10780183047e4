// Small documents worked through the model, for whatever cty library and
// whatever map iteration order: a block, a labelled block, two blocks of one
// type collapsing into an array, an attribute meeting a block of the same
// name, and the two ways a later block can clash with an earlier one.

module Scenarios {
  import opened Syntax
  import opened Values
  import opened Expressions
  import opened Nesting
  import opened Bodies

  /** A number literal (its range is empty, so it fits any document). */
  function Num(decimal: string): Expr
  {
    Literal(Range(0, 0), CtyNumber(decimal))
  }

  /** A body with one attribute `name = e` and no blocks. */
  function OneAttribute(name: string, e: Expr): Body
  {
    Body([], map[name := e])
  }

  const NoAttributes: map<string, Expr> := map[]

  lemma MembersAt(s: seq<string>, i: nat, j: nat)
    requires i < |s| && j < |s|
    ensures s[i] in s && s[j] in s
  {
  }

  lemma SingleName(keys: seq<string>, name: string)
    requires Enumerates(keys, {name})
    ensures keys == [name]
  {
    assert name in keys;
    if |keys| > 1 {
      MembersAt(keys, 0, 1);
      assert false;
    }
  }

  lemma NoNames(keys: seq<string>)
    requires Enumerates(keys, {})
    ensures keys == []
  {
    if keys != [] {
      MembersAt(keys, 0, 0);
      assert false;
    }
  }

  /** The body `name = <number>` converts to {name: number}. */
  lemma {:induction false} OneAttributeBody(c: Converter, order: AttributeOrder, name: string, decimal: string)
    requires ValidOrder(order)
    ensures BodyJson(c, order, OneAttribute(name, Num(decimal))) == Ok(map[name := Lit(CtyNumber(decimal))])
  {
    var attrs := map[name := Num(decimal)];
    OrderEnumerates(order, attrs);
    SingleName(order(attrs), name);
    assert AttributesInto(c, attrs, [name][1..], map[name := Lit(CtyNumber(decimal))]) == Ok(map[name := Lit(CtyNumber(decimal))]);
  }

  /** A body of blocks only: its attribute loop has nothing to visit. */
  lemma {:induction false} BlocksOnly(c: Converter, order: AttributeOrder, blocks: seq<Block>)
    requires ValidOrder(order)
    requires forall i :: 0 <= i < |blocks| ==> BodyInBounds(blocks[i].body, |c.bytes|)
    ensures BodyJson(c, order, Body(blocks, NoAttributes)) == BlocksInto(c, order, blocks, map[])
  {
    OrderEnumerates(order, NoAttributes);
    NoNames(order(NoAttributes));
  }

  /** The empty body converts to the empty object. */
  lemma EmptyBody(c: Converter, order: AttributeOrder)
    requires ValidOrder(order)
    ensures BodyJson(c, order, Body([], NoAttributes)) == Ok(map[])
  {
    BlocksOnly(c, order, []);
  }

  /** `T { a = 1 }` converts to {"T": {"a": 1}}. */
  lemma UnlabelledBlock(c: Converter, order: AttributeOrder)
    requires ValidOrder(order)
    ensures BodyJson(c, order, Body([Block("T", [], OneAttribute("a", Num("1")))], NoAttributes)) ==
            Ok(map["T" := Obj(map["a" := Lit(CtyNumber("1"))])])
  {
    var block := Block("T", [], OneAttribute("a", Num("1")));
    var out := map["T" := Obj(map["a" := Lit(CtyNumber("1"))])];
    OneAttributeBody(c, order, "a", "1");
    assert [block.blockType] + block.labels == ["T"];
    assert BlockInsert(c, order, block, map[]) == Ok(out);
    assert [block][1..] == [];
    assert BlocksInto(c, order, [block], map[]) == BlocksInto(c, order, [], out);
    BlocksOnly(c, order, [block]);
  }

  /** `T "x" "y" {}` converts to {"T": {"x": {"y": {}}}}. */
  lemma LabelledBlock(c: Converter, order: AttributeOrder)
    requires ValidOrder(order)
    ensures BodyJson(c, order, Body([Block("T", ["x", "y"], Body([], NoAttributes))], NoAttributes)) ==
            Ok(map["T" := Obj(map["x" := Obj(map["y" := Obj(map[])])])])
  {
    var block := Block("T", ["x", "y"], Body([], NoAttributes));
    var keys := ["T", "x", "y"];
    var v := Obj(map[]);
    var out := map["T" := Obj(map["x" := Obj(map["y" := v])])];
    assert [block.blockType] + block.labels == keys;
    EmptyBody(c, order);
    assert keys[1..] == ["x", "y"] && keys[1..][1..] == ["y"];
    assert InsertAt(map[], ["y"], v) == Ok(map["y" := v]);
    assert InsertAt(map[], ["x", "y"], v) == Ok(map["x" := Obj(map["y" := v])]);
    assert InsertAt(map[], keys, v) == Ok(out);
    assert BlockInsert(c, order, block, map[]) == Ok(out);
    assert [block][1..] == [];
    assert BlocksInto(c, order, [block], map[]) == BlocksInto(c, order, [], out);
    BlocksOnly(c, order, [block]);
  }

  /** The block `T { a = <number> }` and the object its body converts to. */
  function NumberBlock(decimal: string): Block
  {
    Block("T", [], OneAttribute("a", Num(decimal)))
  }

  function NumberObject(decimal: string): Json
  {
    Obj(map["a" := Lit(CtyNumber(decimal))])
  }

  lemma NumberBlockInsert(c: Converter, order: AttributeOrder, decimal: string, out: Fields)
    requires ValidOrder(order)
    ensures "T" !in out ==> BlockInsert(c, order, NumberBlock(decimal), out) == Ok(out["T" := NumberObject(decimal)])
    ensures "T" in out && out["T"].Obj? ==>
              BlockInsert(c, order, NumberBlock(decimal), out) == Ok(out["T" := Arr([out["T"], NumberObject(decimal)])])
  {
    OneAttributeBody(c, order, "a", decimal);
    assert [NumberBlock(decimal).blockType] + NumberBlock(decimal).labels == ["T"];
  }

  /** `T { a = 1 }` then `T { a = 2 }` converts to {"T": [{"a": 1}, {"a": 2}]}:
      the second occurrence turns the entry into an array. */
  lemma RepeatedBlocksCollapse(c: Converter, order: AttributeOrder)
    requires ValidOrder(order)
    ensures BodyJson(c, order, Body([NumberBlock("1"), NumberBlock("2")], NoAttributes)) ==
            Ok(map["T" := Arr([NumberObject("1"), NumberObject("2")])])
  {
    NumberBlocksInto(c, order);
    BlocksOnly(c, order, [NumberBlock("1"), NumberBlock("2")]);
  }

  lemma NumberBlocksInto(c: Converter, order: AttributeOrder)
    requires ValidOrder(order)
    ensures BlocksInto(c, order, [NumberBlock("1"), NumberBlock("2")], map[]) ==
            Ok(map["T" := Arr([NumberObject("1"), NumberObject("2")])])
  {
    var first, second := map["T" := NumberObject("1")], map["T" := Arr([NumberObject("1"), NumberObject("2")])];
    NumberBlockInsert(c, order, "1", map[]);
    NumberBlockInsert(c, order, "2", first);
    assert first["T" := Arr([first["T"], NumberObject("2")])] == second;
    var blocks := [NumberBlock("1"), NumberBlock("2")];
    assert blocks[1..] == [NumberBlock("2")] && blocks[1..][1..] == [];
    assert BlocksInto(c, order, blocks[1..], first) == BlocksInto(c, order, [], second);
  }

  /** `foo "x" {}` and the attribute `foo = 1` in one body: the blocks are
      converted first and the attribute then replaces the block's entry, so
      the result is {"foo": 1}; there is no conflict. */
  lemma AttributeReplacesBlock(c: Converter, order: AttributeOrder)
    requires ValidOrder(order)
    ensures BodyJson(c, order, Body([Block("foo", ["x"], Body([], NoAttributes))], map["foo" := Num("1")])) ==
            Ok(map["foo" := Lit(CtyNumber("1"))])
  {
    var block := Block("foo", ["x"], Body([], NoAttributes));
    var attrs := map["foo" := Num("1")];
    var v := Obj(map[]);
    EmptyBody(c, order);
    assert [block.blockType] + block.labels == ["foo", "x"] && ["foo", "x"][1..] == ["x"];
    var fromBlocks := map["foo" := Obj(map["x" := v])];
    assert InsertAt(map[], ["x"], v) == Ok(map["x" := v]);
    assert InsertAt(map[], ["foo", "x"], v) == Ok(fromBlocks);
    assert BlockInsert(c, order, block, map[]) == Ok(fromBlocks);
    assert [block][1..] == [];
    assert BlocksInto(c, order, [block], map[]) == BlocksInto(c, order, [], fromBlocks);
    OrderEnumerates(order, attrs);
    SingleName(order(attrs), "foo");
    var result := fromBlocks["foo" := Lit(CtyNumber("1"))];
    assert AttributesInto(c, attrs, ["foo"][1..], result) == Ok(result);
    assert AttributesInto(c, attrs, ["foo"], fromBlocks) == Ok(result);
    assert result == map["foo" := Lit(CtyNumber("1"))];
  }

  /** `foo { x = 1 }` then `foo "x" "y" {}`: the second block's walk enters
      "foo" and finds the number under "x", where it needs an object. */
  lemma LabelPathConflict(c: Converter, order: AttributeOrder)
    requires ValidOrder(order)
    ensures BodyJson(c, order, Body([Block("foo", [], OneAttribute("x", Num("1"))),
                                    Block("foo", ["x", "y"], Body([], NoAttributes))], NoAttributes)) ==
            Err(Wrapped("Unable to convert block", StructuralConflict("foo", ["x", "y"])))
  {
    var b1, b2 := Block("foo", [], OneAttribute("x", Num("1"))), Block("foo", ["x", "y"], Body([], NoAttributes));
    var first := map["foo" := Obj(map["x" := Lit(CtyNumber("1"))])];
    OneAttributeBody(c, order, "x", "1");
    assert [b1.blockType] + b1.labels == ["foo"];
    assert BlockInsert(c, order, b1, map[]) == Ok(first);
    var keys := ["foo", "x", "y"];
    assert [b2.blockType] + b2.labels == keys && keys[1..] == ["x", "y"];
    assert PathConflict(first, keys);
    assert BlockInsert(c, order, b2, first) == Err(StructuralConflict("foo", ["x", "y"]));
    assert [b1, b2][1..] == [b2];
    assert BlocksInto(c, order, [b1, b2], map[]) == BlocksInto(c, order, [b2], first);
    BlocksOnly(c, order, [b1, b2]);
  }

  /** `foo { x = 1 }` then `foo "x" {}`: the walk ends at "x", which holds a
      number, and the final insert's array assertion panics. */
  lemma FinalKeyPanics(c: Converter, order: AttributeOrder)
    requires ValidOrder(order)
    ensures BodyJson(c, order, Body([Block("foo", [], OneAttribute("x", Num("1"))),
                                    Block("foo", ["x"], Body([], NoAttributes))], NoAttributes)) ==
            Err(Panic(ExistingEntryNotArray))
  {
    var b1, b2 := Block("foo", [], OneAttribute("x", Num("1"))), Block("foo", ["x"], Body([], NoAttributes));
    var first := map["foo" := Obj(map["x" := Lit(CtyNumber("1"))])];
    OneAttributeBody(c, order, "x", "1");
    EmptyBody(c, order);
    assert [b1.blockType] + b1.labels == ["foo"];
    assert BlockInsert(c, order, b1, map[]) == Ok(first);
    var keys := ["foo", "x"];
    assert [b2.blockType] + b2.labels == keys && keys[1..] == ["x"];
    assert !PathConflict(first, keys);
    assert InsertAt(first["foo"].fields, ["x"], Obj(map[])) == Err(Panic(ExistingEntryNotArray));
    assert InsertAt(first, keys, Obj(map[])) == Err(Panic(ExistingEntryNotArray));
    assert BlockInsert(c, order, b2, first) == Err(Panic(ExistingEntryNotArray));
    assert [b1, b2][1..] == [b2];
    assert BlocksInto(c, order, [b1, b2], map[]) == BlocksInto(c, order, [b2], first);
    BlocksOnly(c, order, [b1, b2]);
  }
}
