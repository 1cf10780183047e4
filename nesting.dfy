// How a block lands in the JSON tree: its type and labels form a path of keys
// through nested objects. Every key but the last must name an object (or
// nothing yet, and then an empty object is made); the last key receives the
// block's body, and repeated blocks collapse into an array.

module Nesting {
  import opened Values

  /** The value reached from `m` by following `path` through nested objects;
      None when a key is missing or a value on the way is not an object. */
  function Get(m: Fields, path: seq<string>): Option<Json>
    requires |path| >= 1
    decreases |path|
  {
    if path[0] !in m then None
    else if |path| == 1 then Some(m[path[0]])
    else match m[path[0]]
      case Obj(fields) => Get(fields, path[1..])
      case _ => None
  }

  /** The object under `k`, or a fresh empty object when there is none. */
  function Child(m: Fields, k: string): Fields
  {
    if k in m && m[k].Obj? then m[k].fields else map[]
  }

  /** Walking `keys` (all but the last) meets an existing entry that is not
      an object: the label walk of convertBlock gives up there. */
  predicate PathConflict(m: Fields, keys: seq<string>)
    decreases |keys|
  {
    && |keys| > 1
    && keys[0] in m
    && (!m[keys[0]].Obj? || PathConflict(m[keys[0]].fields, keys[1..]))
  }

  /** What the final key should hold after a block body `v` arrives, given
      what it held before: the body alone, an object paired with the body, an
      array one longer; None for any other value. */
  function Appended(prior: Option<Json>, v: Json): Option<Json>
  {
    match prior
    case None => Some(v)
    case Some(Obj(o)) => Some(Arr([Obj(o), v]))
    case Some(Arr(a)) => Some(Arr(a + [v]))
    case Some(_) => None
  }

  /** The final insert of convertBlock. An existing entry that is neither an
      object nor an array reaches the `[]interface{}` type assertion, which
      panics. */
  function FinalInsert(m: Fields, k: string, v: Json): (r: Result<Fields>)
    ensures r.Ok? <==> Appended(Get(m, [k]), v).Some?
    ensures r.Ok? ==> r.value == m[k := Appended(Get(m, [k]), v).value]
    ensures r.Err? ==> r.error == Panic(ExistingEntryNotArray)
  {
    if k !in m then Ok(m[k := v])
    else match m[k]
      case Obj(_) => Ok(m[k := Arr([m[k], v])])
      case Arr(a) => Ok(m[k := Arr(a + [v])])
      case _ => Err(Panic(ExistingEntryNotArray))
  }

  /** convertBlock's effect on `m` once the walk along `keys` has succeeded:
      the objects on the path are entered or created, and `v` is inserted
      under the last key. */
  function InsertAt(m: Fields, keys: seq<string>, v: Json): (r: Result<Fields>)
    requires |keys| >= 1 && !PathConflict(m, keys)
    ensures r.Err? ==> r.error == Panic(ExistingEntryNotArray)
    decreases |keys|
  {
    if |keys| == 1 then FinalInsert(m, keys[0], v)
    else
      var sub :- InsertAt(Child(m, keys[0]), keys[1..], v);
      Ok(m[keys[0] := Obj(sub)])
  }

  lemma GetEmpty(path: seq<string>)
    requires |path| >= 1
    ensures Get(map[], path) == None
  {
  }

  /** Following a path of length two or more from `m` is following its tail
      from the object under its head (no conflict: that entry is an object,
      or missing). */
  lemma GetThroughChild(m: Fields, path: seq<string>)
    requires |path| > 1 && !PathConflict(m, path)
    ensures Get(m, path) == Get(Child(m, path[0]), path[1..])
  {
    if path[0] !in m {
      GetEmpty(path[1..]);
    }
  }

  /** The last key ends up holding Appended(old value, v); the insert fails,
      by a panic, exactly when that is undefined. */
  lemma {:induction false} InsertAtPath(m: Fields, keys: seq<string>, v: Json)
    requires |keys| >= 1 && !PathConflict(m, keys)
    ensures var r, want := InsertAt(m, keys, v), Appended(Get(m, keys), v);
            && (r.Ok? <==> want.Some?)
            && (r.Ok? ==> Get(r.value, keys) == want)
    decreases |keys|
  {
    if |keys| > 1 {
      var child := Child(m, keys[0]);
      InsertAtPath(child, keys[1..], v);
      GetThroughChild(m, keys);
    }
  }

  /** Every proper prefix of the path leads to an object afterwards: the walk
      creates the objects it does not find. */
  lemma {:induction false} InsertAtPrefixes(m: Fields, keys: seq<string>, v: Json, j: nat)
    requires |keys| >= 1 && !PathConflict(m, keys) && InsertAt(m, keys, v).Ok?
    requires 1 <= j < |keys|
    ensures Get(InsertAt(m, keys, v).value, keys[..j]).Some?
    ensures Get(InsertAt(m, keys, v).value, keys[..j]).value.Obj?
    decreases |keys|
  {
    var sub := InsertAt(Child(m, keys[0]), keys[1..], v);
    if j > 1 {
      InsertAtPrefixes(Child(m, keys[0]), keys[1..], v, j - 1);
      assert keys[..j][1..] == keys[1..][..j - 1];
    }
  }

  /** No path that leaves the block's path before its end is touched: sibling
      keys at every level keep their values. */
  lemma {:induction false} InsertAtFrame(m: Fields, keys: seq<string>, v: Json, p: seq<string>, j: nat)
    requires |keys| >= 1 && !PathConflict(m, keys) && InsertAt(m, keys, v).Ok?
    requires j < |p| && j < |keys| && p[..j] == keys[..j] && p[j] != keys[j]
    ensures Get(InsertAt(m, keys, v).value, p) == Get(m, p)
    decreases |keys|
  {
    if j > 0 {
      assert p[0] == keys[..j][0];
      var child := Child(m, keys[0]);
      assert p[1..][..j - 1] == p[..j][1..] == keys[..j][1..] == keys[1..][..j - 1];
      InsertAtFrame(child, keys[1..], v, p[1..], j - 1);
      if p[0] !in m {
        GetEmpty(p[1..]);
      }
    }
  }

  /** The walk's failure condition, stated over paths: PathConflict holds
      exactly when some proper prefix of the path already leads to a value
      that is not an object. */
  lemma {:induction false} PathConflictAt(m: Fields, keys: seq<string>)
    ensures PathConflict(m, keys) <==>
              exists j :: 1 <= j < |keys| && Get(m, keys[..j]).Some? && !Get(m, keys[..j]).value.Obj?
    decreases |keys|
  {
    if |keys| > 1 {
      var k := keys[0];
      if k !in m {
        forall j | 1 <= j < |keys| ensures Get(m, keys[..j]) == None {
          assert keys[..j][0] == k;
        }
      } else if !m[k].Obj? {
        assert keys[..1] == [k];
      } else {
        var rest := keys[1..];
        PathConflictAt(m[k].fields, rest);
        forall j | 2 <= j < |keys| ensures Get(m, keys[..j]) == Get(m[k].fields, rest[..j - 1]) {
          assert keys[..j][0] == k && keys[..j][1..] == rest[..j - 1];
        }
        assert keys[..1] == [k];
        if PathConflict(m, keys) {
          var j :| 1 <= j < |rest| && Get(m[k].fields, rest[..j]).Some? && !Get(m[k].fields, rest[..j]).value.Obj?;
          assert Get(m, keys[..j + 1]) == Get(m[k].fields, rest[..j]);
        }
        if exists j :: 1 <= j < |keys| && Get(m, keys[..j]).Some? && !Get(m, keys[..j]).value.Obj? {
          var j :| 1 <= j < |keys| && Get(m, keys[..j]).Some? && !Get(m, keys[..j]).value.Obj?;
          assert j >= 2;
          assert Get(m[k].fields, rest[..j - 1]) == Get(m, keys[..j]);
        }
      }
    }
  }
}
