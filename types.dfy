/**
 * The value types shared by every component: scalar leaves, the nested
 * state tree, the flat path-keyed snapshot and the change records that are
 * exchanged between a provider and its receivers.
 */
module Types {

  /** A scalar leaf. JavaScript numbers are modelled as unbounded integers. */
  datatype Value = Null | Bool(b: bool) | Num(n: int) | Str(s: string)

  /**
   * A node of a JSON-shaped tree. `Object` keeps its own keys in enumeration
   * order, `Array` its elements by index. `Undefined` stands for an absent
   * child (a hole of a sparse array, or a property holding `undefined`) and
   * `Unsupported` for any other runtime kind (a function, a symbol, a bigint),
   * named by what `typeof` reports for it.
   */
  datatype Node =
    | Scalar(value: Value)
    | Object(fields: seq<(string, Node)>)
    | Array(items: seq<Node>)
    | Undefined
    | Unsupported(typeName: string)

  /** The root of a state tree is always an object or an array. */
  type Data = n: Node | n.Object? || n.Array? witness Object([])

  /** One incremental instruction: delete the leaf at `p`, or set it to `v`. */
  datatype Change = DeleteChange(p: string) | SetChange(p: string, v: Value) {
    /** The wire tag of the change: 'D' for a delete, 'S' for a set. */
    function Tag(): (t: char)
      ensures DeleteChange? <==> t == 'D'
      ensures SetChange? <==> t == 'S'
    {
      match this
      case DeleteChange(_) => 'D'
      case SetChange(_, _) => 'S'
    }
  }

  /** The paths a change list touches, in list order. */
  function Paths(changes: seq<Change>): (ps: seq<string>)
    ensures |ps| == |changes|
    ensures forall i :: 0 <= i < |changes| ==> ps[i] == changes[i].p
  {
    if changes == [] then [] else Paths(changes[..|changes| - 1]) + [changes[|changes| - 1].p]
  }

  /**
   * A flat record from dotted paths to scalars, in insertion order: `keys`
   * lists the record's own keys in the order `for…in` and `Object.keys`
   * visit them, `vals` holds the value stored under each key.
   */
  datatype FlatMap = FlatMap(keys: seq<string>, vals: map<string, Value>) {
    ghost predicate Valid() {
      && Distinct(keys)
      && (forall k :: k in vals <==> k in keys)
    }
  }

  type Flattened = f: FlatMap | f.Valid() witness FlatMap([], map[])

  const Empty: Flattened := FlatMap([], map[])

  ghost predicate Distinct<T>(s: seq<T>) {
    forall i, j :: 0 <= i < j < |s| ==> s[i] != s[j]
  }

  /** Two duplicate-free sequences with no common element concatenate to one. */
  lemma DistinctAppend(a: seq<string>, b: seq<string>)
    requires Distinct(a) && Distinct(b)
    requires forall x :: x in a ==> x !in b
    ensures Distinct(a + b)
  {
    forall i, j | 0 <= i < j < |a + b| ensures (a + b)[i] != (a + b)[j] {
      if i < |a| && j >= |a| {
        assert (a + b)[i] in a && (a + b)[j] in b;
      }
    }
  }

  /** `keys` with every occurrence of `k` taken out, order kept. */
  function Without(keys: seq<string>, k: string): (r: seq<string>)
    ensures forall x :: x in r <==> x in keys && x != k
    ensures Distinct(keys) ==> Distinct(r)
    ensures k !in keys ==> r == keys
  {
    if keys == [] then []
    else
      var rest := Without(keys[..|keys| - 1], k);
      var last := keys[|keys| - 1];
      assert Distinct(keys) ==> last !in keys[..|keys| - 1];
      if last == k then rest else rest + [last]
  }

  /** `record[k] = v`: overwrite in place, or append a new key at the end. */
  function Put(f: Flattened, k: string, v: Value): (g: Flattened)
    ensures g.vals == f.vals[k := v]
    ensures g.keys == if k in f.vals then f.keys else f.keys + [k]
  {
    if k in f.vals then FlatMap(f.keys, f.vals[k := v])
    else FlatMap(f.keys + [k], f.vals[k := v])
  }

  /** `delete record[k]`: drop the key from the record and from the order. */
  function Remove(f: Flattened, k: string): (g: Flattened)
    ensures g.vals == f.vals - {k}
    ensures g.keys == Without(f.keys, k)
    ensures k !in f.vals ==> g == f
  {
    FlatMap(Without(f.keys, k), f.vals - {k})
  }
}
