/**
 * The patcher: applies a change list to a flat record, strictly in order.
 */
module Patcher {
  import opened Types

  /** The effect of one change on the record. */
  function ApplyOne(f: Flattened, c: Change): Flattened {
    match c
    case DeleteChange(p) => Remove(f, p)
    case SetChange(p, v) => Put(f, p, v)
  }

  /** The record after applying every change of `changes`, first to last. */
  function Patched(f: Flattened, changes: seq<Change>): Flattened {
    if changes == [] then f
    else ApplyOne(Patched(f, changes[..|changes| - 1]), changes[|changes| - 1])
  }

  /** `applyChanges(flattened, changes)`; the patched record is returned to its owner. */
  method ApplyChanges(flattened: Flattened, changes: seq<Change>) returns (patched: Flattened)
    ensures patched == Patched(flattened, changes)
  {
    patched := flattened;
    var i := 0;
    while i < |changes|
      invariant i <= |changes|
      invariant patched == Patched(flattened, changes[..i])
    {
      assert changes[..i + 1][..i] == changes[..i];
      match changes[i] {
        case DeleteChange(p) =>
          patched := Remove(patched, p);
        case SetChange(p, v) =>
          patched := Put(patched, p, v);
      }
      i := i + 1;
    }
    assert changes[..i] == changes;
  }

  /** Applying two lists one after the other is applying their concatenation. */
  lemma {:induction false} PatchedAppend(f: Flattened, a: seq<Change>, b: seq<Change>)
    ensures Patched(f, a + b) == Patched(Patched(f, a), b)
    decreases |b|
  {
    if b == [] {
      assert a + b == a;
    } else {
      assert (a + b)[..|a + b| - 1] == a + b[..|b| - 1];
      PatchedAppend(f, a, b[..|b| - 1]);
    }
  }

  /** A key no change names keeps its presence and its value. */
  lemma {:induction false} PatchedFrame(f: Flattened, changes: seq<Change>, k: string)
    requires k !in Paths(changes)
    ensures k in Patched(f, changes).vals <==> k in f.vals
    ensures k in f.vals ==> Patched(f, changes).vals[k] == f.vals[k]
  {
    if changes != [] {
      assert Paths(changes[..|changes| - 1]) == Paths(changes)[..|changes| - 1];
      PatchedFrame(f, changes[..|changes| - 1], k);
    }
  }

  /**
   * The last change naming a path decides it: after a delete the key is
   * absent (whether or not it was there), after a set it holds the set value.
   */
  lemma {:induction false} PatchedLastWins(f: Flattened, changes: seq<Change>, i: nat)
    requires i < |changes|
    requires forall j :: i < j < |changes| ==> changes[j].p != changes[i].p
    ensures changes[i].DeleteChange? ==> changes[i].p !in Patched(f, changes).vals
    ensures changes[i].SetChange? ==>
              changes[i].p in Patched(f, changes).vals && Patched(f, changes).vals[changes[i].p] == changes[i].v
  {
    if i < |changes| - 1 {
      PatchedLastWins(f, changes[..|changes| - 1], i);
    }
  }

  /**
   * Applying a list a second time leaves the entries as they were. A
   * replica that shares the provider's record object is patched twice by a
   * relayed list, once by the provider and once on receipt.
   */
  lemma {:induction false} PatchedTwice(f: Flattened, changes: seq<Change>)
    ensures Patched(Patched(f, changes), changes).vals == Patched(f, changes).vals
  {
    var g := Patched(f, changes);
    var h := Patched(g, changes);
    forall k ensures (k in h.vals <==> k in g.vals) && (k in g.vals ==> h.vals[k] == g.vals[k]) {
      if k in Paths(changes) {
        var i := LastIndex(Paths(changes), k);
        forall j | i < j < |changes| ensures changes[j].p != changes[i].p {
          assert Paths(changes)[j] != k;
        }
        PatchedLastWins(f, changes, i);
        PatchedLastWins(g, changes, i);
      } else {
        PatchedFrame(g, changes, k);
      }
    }
  }

  /**
   * A list naming no path twice, as every diff is, leaves the record exactly
   * as it was when applied a second time: entries and key order both.
   */
  lemma PatchedTwiceDistinct(f: Flattened, changes: seq<Change>)
    requires Distinct(Paths(changes))
    ensures Patched(Patched(f, changes), changes) == Patched(f, changes)
  {
    PatchedPrefixFixed(f, changes, |changes|);
    assert changes[..|changes|] == changes;
  }

  /** Each prefix of such a list leaves its own full result in place. */
  lemma {:induction false} PatchedPrefixFixed(f: Flattened, changes: seq<Change>, n: nat)
    requires Distinct(Paths(changes)) && n <= |changes|
    ensures Patched(Patched(f, changes), changes[..n]) == Patched(f, changes)
    decreases n
  {
    if n > 0 {
      var g := Patched(f, changes);
      PatchedPrefixFixed(f, changes, n - 1);
      assert changes[..n][..n - 1] == changes[..n - 1];
      var c := changes[n - 1];
      forall j | n - 1 < j < |changes| ensures changes[j].p != c.p {
        assert Paths(changes)[j] != Paths(changes)[n - 1];
      }
      PatchedLastWins(f, changes, n - 1);
      if c.SetChange? {
        assert g.vals[c.p := c.v] == g.vals;
      }
    }
  }

  /**
   * A list that names a path twice can reorder the keys when applied again:
   * from the keys `[y]`, the list `[x := 1, delete y, y := 2, z := 3]` gives
   * `[x, y, z]` once and `[x, z, y]` twice.
   */
  lemma PatchedTwiceReorders(f: Flattened, cs: seq<Change>)
    requires f.keys == ["y"]
    requires |cs| == 4 && cs[0] == SetChange("x", Num(1)) && cs[1] == DeleteChange("y")
    requires cs[2] == SetChange("y", Num(2)) && cs[3] == SetChange("z", Num(3))
    ensures Patched(f, cs).keys == ["x", "y", "z"]
    ensures Patched(Patched(f, cs), cs).keys == ["x", "z", "y"]
  {
    ReorderOnce(f, cs);
    ReorderTwice(Patched(f, cs), cs);
  }

  lemma ReorderOnce(f: Flattened, cs: seq<Change>)
    requires f.keys == ["y"]
    requires |cs| == 4 && cs[0] == SetChange("x", Num(1)) && cs[1] == DeleteChange("y")
    requires cs[2] == SetChange("y", Num(2)) && cs[3] == SetChange("z", Num(3))
    ensures Patched(f, cs).keys == ["x", "y", "z"]
  {
    PatchedSteps(f, cs);
    var f1 := Put(f, "x", Num(1));
    assert f1.keys == ["y", "x"];
    var f2 := Remove(f1, "y");
    WithoutFirst("y", "x");
    assert f2.keys == ["x"] && "y" !in f2.vals && "z" !in f2.vals;
    var f3 := Put(f2, "y", Num(2));
    assert f3.keys == ["x", "y"] && "z" !in f3.vals;
    assert Patched(f, cs) == Put(f3, "z", Num(3));
  }

  lemma ReorderTwice(g: Flattened, cs: seq<Change>)
    requires g.keys == ["x", "y", "z"]
    requires |cs| == 4 && cs[0] == SetChange("x", Num(1)) && cs[1] == DeleteChange("y")
    requires cs[2] == SetChange("y", Num(2)) && cs[3] == SetChange("z", Num(3))
    ensures Patched(g, cs).keys == ["x", "z", "y"]
  {
    PatchedSteps(g, cs);
    assert "x" in g.keys;
    var g1 := Put(g, "x", Num(1));
    assert g1.keys == ["x", "y", "z"];
    var g2 := Remove(g1, "y");
    WithoutMiddle("x", "y", "z");
    assert g2.keys == ["x", "z"] && "y" !in g2.vals;
    var g3 := Put(g2, "y", Num(2));
    assert g3.keys == ["x", "z"] + ["y"];
    assert g3.keys[1] == "z";
    assert Patched(g, cs) == Put(g3, "z", Num(3));
  }

  /** A four-change list applied change by change. */
  lemma PatchedSteps(f: Flattened, cs: seq<Change>)
    requires |cs| == 4
    ensures Patched(f, cs) == ApplyOne(ApplyOne(ApplyOne(ApplyOne(f, cs[0]), cs[1]), cs[2]), cs[3])
  {
    assert cs[..1][..0] == [];
    assert cs[..2][..1] == cs[..1];
    assert cs[..3][..2] == cs[..2];
    assert Patched(f, cs[..1]) == ApplyOne(f, cs[0]);
    assert Patched(f, cs[..2]) == ApplyOne(Patched(f, cs[..1]), cs[1]);
    assert Patched(f, cs[..3]) == ApplyOne(Patched(f, cs[..2]), cs[2]);
  }

  lemma WithoutFirst(a: string, b: string)
    requires a != b
    ensures Without([a, b], a) == [b]
  {
    assert [a, b][..1] == [a];
    assert [a][..0] == [];
  }

  lemma WithoutMiddle(a: string, b: string, c: string)
    requires a != b && b != c
    ensures Without([a, b, c], b) == [a, c]
  {
    assert [a, b, c][..2] == [a, b];
    assert [a, b][..1] == [a];
    assert [a][..0] == [];
  }

  /** The position of the last occurrence of `x` in `s`. */
  function LastIndex(s: seq<string>, x: string): (i: nat)
    requires x in s
    ensures i < |s| && s[i] == x
    ensures forall j :: i < j < |s| ==> s[j] != x
  {
    if s[|s| - 1] == x then |s| - 1
    else
      assert x in s[..|s| - 1];
      LastIndex(s[..|s| - 1], x)
  }
}
