/**
 * The rebuilder: reconstructs the nested value stored under a path of a
 * flat record, guessing array or object from the shape of the child keys.
 *
 * It keeps the code's raw tests: the candidate keys are those that start
 * with the path as a plain string (so a sibling "bazooka.x" is a candidate
 * of "baz"), the child segment is read after skipping `path.length + 1`
 * characters (so at the empty root path the first character of every key is
 * lost), and the array branch recurses on the parsed index, not on the
 * segment as written.
 */
module Rebuilder {
  import opened Wrappers
  import opened Types
  import opened Strings

  function MaxLen(keys: seq<string>): (m: nat)
    ensures forall k :: k in keys ==> |k| <= m
  {
    if keys == [] then 0
    else
      var rest := MaxLen(keys[..|keys| - 1]);
      var last := |keys[|keys| - 1]|;
      assert forall k :: k in keys ==> k in keys[..|keys| - 1] || k == keys[|keys| - 1];
      if last > rest then last else rest
  }

  /** `Object.keys(flattened).filter(k => k.startsWith(key))`, in key order. */
  function Matching(keys: seq<string>, key: string): (ms: seq<string>)
    ensures forall m :: m in ms <==> m in keys && StartsWith(m, key)
    ensures (forall k :: k in keys ==> !StartsWith(k, key)) ==> ms == []
  {
    if keys == [] then []
    else
      var rest := Matching(keys[..|keys| - 1], key);
      var last := keys[|keys| - 1];
      assert forall k :: k in keys <==> k in keys[..|keys| - 1] || k == last;
      if StartsWith(last, key) then rest + [last] else rest
  }

  /** `.map(k => k.slice(key.length + 1).split('.')[0])`. */
  function Segments(ms: seq<string>, key: string): (cs: seq<string>)
    ensures |cs| == |ms|
    ensures forall i :: 0 <= i < |ms| ==> cs[i] == ChildSegment(ms[i], key)
  {
    if ms == [] then [] else Segments(ms[..|ms| - 1], key) + [ChildSegment(ms[|ms| - 1], key)]
  }

  /** The child segments `rebuild(key, f)` works with. */
  function ChildKeys(key: string, f: Flattened): seq<string> {
    Segments(Matching(f.keys, key), key)
  }

  /** No child segment parses to NaN: the array branch is taken. */
  predicate AllNumeric(cs: seq<string>) {
    forall i :: 0 <= i < |cs| ==> ParseInt(cs[i]).Some?
  }

  function Measure(key: string, f: Flattened): nat {
    var m := MaxLen(f.keys);
    if |key| <= m then m - |key| + 1 else 0
  }

  /** `rebuild(key, flattened)`. */
  function Rebuild(key: string, f: Flattened): Node
    decreases Measure(key, f), 1, 0
  {
    if key in f.vals then Scalar(f.vals[key])
    else
      var cs := ChildKeys(key, f);
      if |cs| == 0 then Array([])
      else
        assert Matching(f.keys, key)[0] in Matching(f.keys, key);
        if AllNumeric(cs) then Array(RebuildItems(key, cs, f))
        else Object(RebuildFields(key, cs, f))
  }

  /** The array branch: one element per child segment, at the parsed index. */
  function RebuildItems(key: string, cs: seq<string>, f: Flattened): (items: seq<Node>)
    requires |key| <= MaxLen(f.keys) && AllNumeric(cs)
    ensures |items| == |cs|
    decreases Measure(key, f), 0, |cs|
  {
    if cs == [] then []
    else
      var index := ParseInt(cs[|cs| - 1]).value;
      RebuildItems(key, cs[..|cs| - 1], f) + [Rebuild(key + "." + NatToString(index), f)]
  }

  /** The object branch: `obj[childKey] = rebuild(…)` for each segment in turn. */
  function RebuildFields(key: string, cs: seq<string>, f: Flattened): seq<(string, Node)>
    requires |key| <= MaxLen(f.keys)
    decreases Measure(key, f), 0, |cs|
  {
    if cs == [] then []
    else
      var c := cs[|cs| - 1];
      Assign(RebuildFields(key, cs[..|cs| - 1], f), c, Rebuild(key + "." + c, f))
  }

  /** The property names of a field list, or the paths of a list of entries. */
  function FieldKeys<T>(fs: seq<(string, T)>): (ks: seq<string>)
    ensures |ks| == |fs|
    ensures forall i :: 0 <= i < |fs| ==> ks[i] == fs[i].0
  {
    if fs == [] then [] else FieldKeys(fs[..|fs| - 1]) + [fs[|fs| - 1].0]
  }

  /** The position of the first occurrence of `x` in `s`. */
  function IndexOf(s: seq<string>, x: string): (i: nat)
    requires x in s
    ensures i < |s| && s[i] == x
    ensures forall j :: 0 <= j < i ==> s[j] != x
  {
    if s[0] == x then 0 else 1 + IndexOf(s[1..], x)
  }

  /**
   * `obj[k] = v`: overwrite an existing property in place, or append a new
   * one; the other properties keep their places and values.
   */
  function Assign(fs: seq<(string, Node)>, k: string, v: Node): (r: seq<(string, Node)>)
    ensures FieldKeys(r) == if k in FieldKeys(fs) then FieldKeys(fs) else FieldKeys(fs) + [k]
    ensures (k, v) in r
    ensures forall i {:trigger r[i]} :: 0 <= i < |fs| && fs[i].0 != k ==> r[i] == fs[i]
  {
    if k in FieldKeys(fs) then fs[IndexOf(FieldKeys(fs), k) := (k, v)] else fs + [(k, v)]
  }

  lemma AssignSame(fs: seq<(string, Node)>, k: string, v: Node)
    requires k in FieldKeys(fs)
    requires forall i :: 0 <= i < |fs| && fs[i].0 == k ==> fs[i].1 == v
    ensures Assign(fs, k, v) == fs
  {
    var i := IndexOf(FieldKeys(fs), k);
    UpdateSame(fs, i, (k, v));
  }

  lemma UpdateSame<T>(s: seq<T>, i: nat, x: T)
    requires i < |s| && s[i] == x
    ensures s[i := x] == s
  {
  }

  lemma AssignNew(fs: seq<(string, Node)>, k: string, v: Node)
    requires k !in FieldKeys(fs)
    ensures Assign(fs, k, v) == fs + [(k, v)]
    ensures FieldKeys(fs + [(k, v)]) == FieldKeys(fs) + [k]
  {
  }

  /** `s` with repeated elements left out, first occurrences in order. */
  function Dedup(s: seq<string>): (r: seq<string>)
    ensures forall x :: x in r <==> x in s
    ensures Distinct(r)
  {
    if s == [] then []
    else
      var rest := Dedup(s[..|s| - 1]);
      var last := s[|s| - 1];
      assert forall x :: x in s <==> x in s[..|s| - 1] || x == last;
      if last in rest then rest else rest + [last]
  }

  // ---------------------------------------------------------------------
  // The four cases of `rebuild`.

  /** A stored entry, `null` included, is returned as it is. */
  lemma RebuildStored(key: string, f: Flattened)
    requires key in f.vals
    ensures Rebuild(key, f) == Scalar(f.vals[key])
  {
  }

  /** A path no key starts with rebuilds as an empty array. */
  lemma RebuildMissing(key: string, f: Flattened)
    requires forall k :: k in f.keys ==> !StartsWith(k, key)
    ensures Rebuild(key, f) == Array([])
  {
    assert key !in f.keys by {
      assert StartsWith(key, key);
    }
  }

  /**
   * When every child segment parses as a number, the result is an array with
   * one element per matching key, in key order, the `i`-th rebuilt at the
   * number its segment parses as.
   */
  lemma RebuildArray(key: string, f: Flattened)
    requires key !in f.vals
    requires ChildKeys(key, f) != [] && AllNumeric(ChildKeys(key, f))
    ensures Rebuild(key, f).Array?
    ensures |Rebuild(key, f).items| == |Matching(f.keys, key)|
    ensures forall i :: 0 <= i < |Matching(f.keys, key)| ==>
              Rebuild(key, f).items[i] ==
              Rebuild(key + "." + NatToString(ParseInt(ChildSegment(Matching(f.keys, key)[i], key)).value), f)
  {
    var cs := ChildKeys(key, f);
    assert Matching(f.keys, key)[0] in Matching(f.keys, key);
    RebuildItemsAt(key, cs, f);
  }

  lemma {:induction false} RebuildItemsAt(key: string, cs: seq<string>, f: Flattened)
    requires |key| <= MaxLen(f.keys) && AllNumeric(cs)
    ensures forall i :: 0 <= i < |cs| ==>
              RebuildItems(key, cs, f)[i] == Rebuild(key + "." + NatToString(ParseInt(cs[i]).value), f)
  {
    if cs != [] {
      var init := cs[..|cs| - 1];
      RebuildItemsAt(key, init, f);
      var last := Rebuild(key + "." + NatToString(ParseInt(cs[|cs| - 1]).value), f);
      assert RebuildItems(key, cs, f) == RebuildItems(key, init, f) + [last];
      forall i | 0 <= i < |cs|
        ensures RebuildItems(key, cs, f)[i] == Rebuild(key + "." + NatToString(ParseInt(cs[i]).value), f)
      {
        if i < |cs| - 1 {
          assert cs[i] == init[i];
        }
      }
    }
  }

  /**
   * Otherwise the result is an object with one property per distinct child
   * segment, in order of first occurrence, each rebuilt at `key.segment`.
   */
  lemma RebuildObject(key: string, f: Flattened)
    requires key !in f.vals
    requires ChildKeys(key, f) != [] && !AllNumeric(ChildKeys(key, f))
    ensures Rebuild(key, f).Object?
    ensures FieldKeys(Rebuild(key, f).fields) == Dedup(ChildKeys(key, f))
    ensures forall i :: 0 <= i < |Rebuild(key, f).fields| ==>
              Rebuild(key, f).fields[i].1 == Rebuild(key + "." + Rebuild(key, f).fields[i].0, f)
  {
    var cs := ChildKeys(key, f);
    assert Matching(f.keys, key)[0] in Matching(f.keys, key);
    RebuildFieldsShape(key, cs, f);
  }

  /**
   * What `rebuild` can return: the stored value exactly when the path is a
   * key, otherwise an array or an object, never `undefined`, and an object
   * always has at least one property.
   */
  lemma RebuildKind(key: string, f: Flattened)
    ensures Rebuild(key, f).Scalar? <==> key in f.vals
    ensures Rebuild(key, f).Scalar? ==> Rebuild(key, f).value == f.vals[key]
    ensures Rebuild(key, f).Scalar? || Rebuild(key, f).Array? || Rebuild(key, f).Object?
    ensures Rebuild(key, f).Object? ==> |Rebuild(key, f).fields| > 0
  {
    var cs := ChildKeys(key, f);
    if key !in f.vals && |cs| > 0 && !AllNumeric(cs) {
      RebuildObject(key, f);
      assert cs[0] in Dedup(cs);
    }
  }

  /** A single non-numeric child segment rebuilds as a one-property object. */
  lemma RebuildOneField(key: string, f: Flattened, c: string)
    requires key !in f.vals
    requires ChildKeys(key, f) == [c] && ParseInt(c).None?
    ensures Rebuild(key, f) == Object([(c, Rebuild(key + "." + c, f))])
  {
    var cs := ChildKeys(key, f);
    assert !AllNumeric(cs);
    assert Matching(f.keys, key)[0] in Matching(f.keys, key);
    assert cs[..0] == [];
    var v := Rebuild(key + "." + c, f);
    assert RebuildFields(key, cs, f) == Assign([], c, v);
  }

  lemma {:induction false} RebuildFieldsShape(key: string, cs: seq<string>, f: Flattened)
    requires |key| <= MaxLen(f.keys)
    ensures FieldKeys(RebuildFields(key, cs, f)) == Dedup(cs)
    ensures forall i :: 0 <= i < |RebuildFields(key, cs, f)| ==>
              RebuildFields(key, cs, f)[i].1 == Rebuild(key + "." + RebuildFields(key, cs, f)[i].0, f)
  {
    if cs != [] {
      var prefix := cs[..|cs| - 1];
      var c := cs[|cs| - 1];
      RebuildFieldsShape(key, prefix, f);
      var fs := RebuildFields(key, prefix, f);
      var v := Rebuild(key + "." + c, f);
      assert RebuildFields(key, cs, f) == Assign(fs, c, v);
      if c in FieldKeys(fs) {
        AssignSame(fs, c, v);
      } else {
        AssignNew(fs, c, v);
      }
    }
  }
}
