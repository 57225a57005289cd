/**
 * The flattener: a depth-first walk that turns a nested state tree into a
 * flat record from dotted paths to scalar leaves.
 */
module Flattener {
  import opened Wrappers
  import opened Types
  import opened Strings

  /** The error `flatten` throws: the path of the offending node and its kind. */
  datatype FlattenError = UnsupportedType(path: string, typeName: string)

  type Entry = (string, Value)

  predicate IsContainer(n: Node) {
    n.Object? || n.Array?
  }

  function ChildCount(n: Node): nat
    requires IsContainer(n)
  {
    if n.Object? then |n.fields| else |n.items|
  }

  /** The key `for…in` yields for the `i`-th child: the field name or the index. */
  function ChildKey(n: Node, i: nat): string
    requires IsContainer(n) && i < ChildCount(n)
  {
    if n.Object? then n.fields[i].0 else NatToString(i)
  }

  function Child(n: Node, i: nat): (c: Node)
    requires IsContainer(n) && i < ChildCount(n)
    ensures c < n
  {
    if n.Object? then n.fields[i].1 else n.items[i]
  }

  /**
   * What `dig(key, n)` does: the entries it writes, in writing order, or the
   * error it throws first.
   */
  function Leaves(key: string, n: Node): Result<seq<Entry>, FlattenError>
    decreases n, 1, 0
  {
    match n
    case Undefined => Ok([])
    case Scalar(v) => Ok([(key, v)])
    case Unsupported(t) => Err(UnsupportedType(key, t))
    case Object(_) => ChildLeaves(key, n, ChildCount(n))
    case Array(_) => ChildLeaves(key, n, ChildCount(n))
  }

  /** The entries written by the first `i` iterations of the `for…in` loop. */
  function ChildLeaves(key: string, n: Node, i: nat): Result<seq<Entry>, FlattenError>
    requires IsContainer(n) && i <= ChildCount(n)
    decreases n, 0, i
  {
    if i == 0 then Ok([])
    else
      match ChildLeaves(key, n, i - 1)
      case Err(e) => Err(e)
      case Ok(es) =>
        match Leaves(Join(key, ChildKey(n, i - 1)), Child(n, i - 1))
        case Err(e) => Err(e)
        case Ok(more) => Ok(es + more)
  }

  /** Writing the entries one after another into a record. */
  function PutAll(acc: Flattened, es: seq<Entry>): Flattened {
    if es == [] then acc
    else Put(PutAll(acc, es[..|es| - 1]), es[|es| - 1].0, es[|es| - 1].1)
  }

  function Extend(acc: Flattened, r: Result<seq<Entry>, FlattenError>): Result<Flattened, FlattenError> {
    match r
    case Ok(es) => Ok(PutAll(acc, es))
    case Err(e) => Err(e)
  }

  /** The result of `flatten(data)`. */
  function FlattenOf(data: Data): Result<Flattened, FlattenError> {
    Extend(Empty, Leaves("", data))
  }

  lemma {:induction false} PutAllAppend(acc: Flattened, a: seq<Entry>, b: seq<Entry>)
    ensures PutAll(acc, a + b) == PutAll(PutAll(acc, a), b)
    decreases |b|
  {
    if b == [] {
      assert a + b == a;
    } else {
      assert (a + b)[..|a + b| - 1] == a + b[..|b| - 1];
      PutAllAppend(acc, a, b[..|b| - 1]);
    }
  }

  /** `dig(key, n)` writing into the record `acc`. */
  method Dig(key: string, n: Node, acc: Flattened) returns (r: Result<Flattened, FlattenError>)
    ensures r == Extend(acc, Leaves(key, n))
    decreases n
  {
    match n {
      case Undefined =>
        r := Ok(acc);
      case Scalar(v) =>
        var es: seq<Entry> := [(key, v)];
        assert es[..0] == [];
        assert PutAll(acc, es) == Put(acc, key, v);
        r := Ok(Put(acc, key, v));
      case Unsupported(t) =>
        r := Err(UnsupportedType(key, t));
      case _ =>
        var cur := acc;
        var i := 0;
        while i < ChildCount(n)
          invariant i <= ChildCount(n)
          invariant ChildLeaves(key, n, i).Ok?
          invariant cur == PutAll(acc, ChildLeaves(key, n, i).value)
        {
          var sub := Dig(Join(key, ChildKey(n, i)), Child(n, i), cur);
          match sub {
            case Err(e) =>
              assert ChildLeaves(key, n, i + 1) == Err(e);
              ChildLeavesErrorPersists(key, n, i + 1, ChildCount(n));
              assert Leaves(key, n) == ChildLeaves(key, n, ChildCount(n));
              return Err(e);
            case Ok(next) =>
              PutAllAppend(acc, ChildLeaves(key, n, i).value, Leaves(Join(key, ChildKey(n, i)), Child(n, i)).value);
              cur := next;
          }
          i := i + 1;
        }
        assert Leaves(key, n) == ChildLeaves(key, n, ChildCount(n));
        r := Ok(cur);
    }
  }

  /** Once an iteration throws, the whole loop throws that error. */
  lemma {:induction false} ChildLeavesErrorPersists(key: string, n: Node, i: nat, j: nat)
    requires IsContainer(n) && i <= j <= ChildCount(n)
    requires ChildLeaves(key, n, i).Err?
    ensures ChildLeaves(key, n, j) == ChildLeaves(key, n, i)
    decreases j - i
  {
    if i < j {
      ChildLeavesErrorPersists(key, n, i, j - 1);
    }
  }

  /** `flatten(data)`: dig from the empty root path into an empty record. */
  method Flatten(data: Data) returns (r: Result<Flattened, FlattenError>)
    ensures r == FlattenOf(data)
  {
    r := Dig("", data, Empty);
  }

  // ---------------------------------------------------------------------
  // Positions in a tree, and the paths `flatten` gives them.

  /** The node reached by following child indices `pos` from `n`. */
  function NodeAt(n: Node, pos: seq<nat>): Option<Node> {
    if pos == [] then Some(n)
    else if IsContainer(n) && pos[0] < ChildCount(n) then NodeAt(Child(n, pos[0]), pos[1..])
    else None
  }

  /** The dotted path `flatten` writes for position `pos` under the path `key`. */
  function PathAt(key: string, n: Node, pos: seq<nat>): string
    requires NodeAt(n, pos).Some?
    decreases |pos|
  {
    if pos == [] then key else PathAt(Join(key, ChildKey(n, pos[0])), Child(n, pos[0]), pos[1..])
  }

  lemma ChildPos(n: Node, i: nat, pos: seq<nat>, key: string)
    requires IsContainer(n) && i < ChildCount(n)
    requires NodeAt(Child(n, i), pos).Some?
    ensures NodeAt(n, [i] + pos) == NodeAt(Child(n, i), pos)
    ensures PathAt(key, n, [i] + pos) == PathAt(Join(key, ChildKey(n, i)), Child(n, i), pos)
  {
    assert ([i] + pos)[1..] == pos;
  }

  /**
   * Every entry `flatten` writes is a scalar leaf of the tree (null
   * included), stored under the path of that leaf.
   */
  lemma {:induction false} LeavesSound(key: string, n: Node, e: Entry)
    requires Leaves(key, n).Ok? && e in Leaves(key, n).value
    ensures exists pos :: NodeAt(n, pos) == Some(Scalar(e.1)) && PathAt(key, n, pos) == e.0
    decreases n, 1, 0
  {
    match n
    case Scalar(v) =>
      assert NodeAt(n, []) == Some(Scalar(e.1)) && PathAt(key, n, []) == e.0;
    case Object(_) =>
      ChildLeavesSound(key, n, ChildCount(n), e);
    case Array(_) =>
      ChildLeavesSound(key, n, ChildCount(n), e);
  }

  lemma {:induction false} ChildLeavesSound(key: string, n: Node, i: nat, e: Entry)
    requires IsContainer(n) && i <= ChildCount(n)
    requires ChildLeaves(key, n, i).Ok? && e in ChildLeaves(key, n, i).value
    ensures exists pos :: NodeAt(n, pos) == Some(Scalar(e.1)) && PathAt(key, n, pos) == e.0
    decreases n, 0, i
  {
    var prev := ChildLeaves(key, n, i - 1);
    var ck := Join(key, ChildKey(n, i - 1));
    var child := Child(n, i - 1);
    var sub := Leaves(ck, child);
    assert prev.Ok? && sub.Ok? && ChildLeaves(key, n, i).value == prev.value + sub.value;
    if e in prev.value {
      ChildLeavesSound(key, n, i - 1, e);
    } else {
      assert e in sub.value;
      LeavesSound(ck, child, e);
      var pos :| NodeAt(child, pos) == Some(Scalar(e.1)) && PathAt(ck, child, pos) == e.0;
      ChildPos(n, i - 1, pos, key);
      assert NodeAt(n, [i - 1] + pos) == Some(Scalar(e.1)) && PathAt(key, n, [i - 1] + pos) == e.0;
    }
  }

  /** Every scalar leaf of the tree is written, under its path. */
  lemma {:induction false} LeavesComplete(key: string, n: Node, pos: seq<nat>)
    requires Leaves(key, n).Ok?
    requires NodeAt(n, pos).Some? && NodeAt(n, pos).value.Scalar?
    ensures (PathAt(key, n, pos), NodeAt(n, pos).value.value) in Leaves(key, n).value
    decreases n
  {
    if pos != [] {
      ChildLeavesPrefix(key, n, pos[0] + 1, ChildCount(n));
      ChildLeavesComplete(key, n, pos[0] + 1, pos);
    }
  }

  lemma {:induction false} ChildLeavesComplete(key: string, n: Node, i: nat, pos: seq<nat>)
    requires IsContainer(n) && 0 < i <= ChildCount(n)
    requires ChildLeaves(key, n, i).Ok?
    requires pos != [] && pos[0] == i - 1
    requires NodeAt(n, pos).Some? && NodeAt(n, pos).value.Scalar?
    ensures (PathAt(key, n, pos), NodeAt(n, pos).value.value) in ChildLeaves(key, n, i).value
    decreases n, 0
  {
    var ck := Join(key, ChildKey(n, i - 1));
    ChildPos(n, i - 1, pos[1..], key);
    assert [i - 1] + pos[1..] == pos;
    LeavesComplete(ck, Child(n, i - 1), pos[1..]);
  }

  /** A successful loop has succeeded on every shorter prefix, and extends it. */
  lemma {:induction false} ChildLeavesPrefix(key: string, n: Node, i: nat, j: nat)
    requires IsContainer(n) && i <= j <= ChildCount(n)
    requires ChildLeaves(key, n, j).Ok?
    ensures ChildLeaves(key, n, i).Ok?
    ensures forall e :: e in ChildLeaves(key, n, i).value ==> e in ChildLeaves(key, n, j).value
    decreases j - i
  {
    if i < j {
      ChildLeavesPrefix(key, n, i, j - 1);
    }
  }

  /**
   * `flatten` throws exactly when the tree holds a node of an unsupported
   * kind, and the error names the path and kind of such a node.
   */
  lemma {:induction false} LeavesErrorSound(key: string, n: Node)
    requires Leaves(key, n).Err?
    ensures exists pos :: NodeAt(n, pos) == Some(Unsupported(Leaves(key, n).error.typeName))
                       && PathAt(key, n, pos) == Leaves(key, n).error.path
    decreases n, 1, 0
  {
    match n
    case Unsupported(t) =>
      assert NodeAt(n, []) == Some(Unsupported(t)) && PathAt(key, n, []) == key;
    case Object(_) =>
      ChildLeavesErrorSound(key, n, ChildCount(n));
    case Array(_) =>
      ChildLeavesErrorSound(key, n, ChildCount(n));
  }

  lemma {:induction false} ChildLeavesErrorSound(key: string, n: Node, i: nat)
    requires IsContainer(n) && i <= ChildCount(n)
    requires ChildLeaves(key, n, i).Err?
    ensures exists pos :: NodeAt(n, pos) == Some(Unsupported(ChildLeaves(key, n, i).error.typeName))
                       && PathAt(key, n, pos) == ChildLeaves(key, n, i).error.path
    decreases n, 0, i
  {
    var ck := Join(key, ChildKey(n, i - 1));
    if ChildLeaves(key, n, i - 1).Err? {
      ChildLeavesErrorSound(key, n, i - 1);
    } else {
      LeavesErrorSound(ck, Child(n, i - 1));
      var e := Leaves(ck, Child(n, i - 1)).error;
      var pos :| NodeAt(Child(n, i - 1), pos) == Some(Unsupported(e.typeName)) && PathAt(ck, Child(n, i - 1), pos) == e.path;
      ChildPos(n, i - 1, pos, key);
    }
  }

  /** A tree with an unsupported node anywhere in it cannot be flattened. */
  lemma {:induction false} UnsupportedFails(key: string, n: Node, pos: seq<nat>)
    requires NodeAt(n, pos).Some? && NodeAt(n, pos).value.Unsupported?
    ensures Leaves(key, n).Err?
    decreases n
  {
    if pos != [] {
      var i := pos[0];
      var ck := Join(key, ChildKey(n, i));
      UnsupportedFails(ck, Child(n, i), pos[1..]);
      if ChildLeaves(key, n, ChildCount(n)).Ok? {
        ChildLeavesPrefix(key, n, i + 1, ChildCount(n));
      }
    }
  }

  // ---------------------------------------------------------------------
  // The record that results from writing the entries.

  lemma {:induction false} PutAllKeys(acc: Flattened, es: seq<Entry>, k: string)
    ensures k in PutAll(acc, es).vals <==> k in acc.vals || exists e :: e in es && e.0 == k
  {
    if es != [] {
      PutAllKeys(acc, es[..|es| - 1], k);
      if exists e :: e in es && e.0 == k {
        var e :| e in es && e.0 == k;
        if e != es[|es| - 1] {
          assert e in es[..|es| - 1];
        }
      }
    }
  }

  /** The value stored under a path is the one its last entry wrote. */
  lemma {:induction false} PutAllLastWins(acc: Flattened, es: seq<Entry>, i: nat)
    requires i < |es|
    requires forall j :: i < j < |es| ==> es[j].0 != es[i].0
    ensures es[i].0 in PutAll(acc, es).vals && PutAll(acc, es).vals[es[i].0] == es[i].1
  {
    if i < |es| - 1 {
      PutAllLastWins(acc, es[..|es| - 1], i);
    }
  }

  /**
   * A successful `flatten(data)` holds exactly the paths of the tree's scalar
   * leaves: empty containers and `undefined` children contribute nothing.
   */
  lemma FlattenKeys(data: Data, k: string)
    requires FlattenOf(data).Ok?
    ensures k in FlattenOf(data).value.vals <==>
            exists pos :: NodeAt(data, pos).Some? && NodeAt(data, pos).value.Scalar? && PathAt("", data, pos) == k
  {
    var es := Leaves("", data).value;
    PutAllKeys(Empty, es, k);
    if k in FlattenOf(data).value.vals {
      var e :| e in es && e.0 == k;
      LeavesSound("", data, e);
    }
    if exists pos :: NodeAt(data, pos).Some? && NodeAt(data, pos).value.Scalar? && PathAt("", data, pos) == k {
      var pos :| NodeAt(data, pos).Some? && NodeAt(data, pos).value.Scalar? && PathAt("", data, pos) == k;
      LeavesComplete("", data, pos);
    }
  }

  /** `flatten` succeeds exactly when no node of the tree is of an unsupported kind. */
  lemma FlattenFails(data: Data)
    ensures FlattenOf(data).Err? <==>
            exists pos :: NodeAt(data, pos).Some? && NodeAt(data, pos).value.Unsupported?
  {
    if FlattenOf(data).Err? {
      LeavesErrorSound("", data);
    }
    if exists pos :: NodeAt(data, pos).Some? && NodeAt(data, pos).value.Unsupported? {
      var pos :| NodeAt(data, pos).Some? && NodeAt(data, pos).value.Unsupported?;
      UnsupportedFails("", data, pos);
    }
  }
}
