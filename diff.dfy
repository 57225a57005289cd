/**
 * The differ: the ordered change list that turns one flat record into
 * another, Sets (in the updated record's key order) before Deletes (in the
 * base record's key order).
 */
module Differ {
  import opened Types
  import Patcher

  /** The first loop's test: a key of `updated` whose value is new or different. */
  predicate IsSet(base: Flattened, updated: Flattened, k: string)
    requires k in updated.vals
  {
    k !in base.vals || base.vals[k] != updated.vals[k]
  }

  /** The Sets pushed by the first `n` iterations of the first loop. */
  function SetChanges(base: Flattened, updated: Flattened, n: nat): seq<Change>
    requires n <= |updated.keys|
  {
    if n == 0 then []
    else
      var k := updated.keys[n - 1];
      SetChanges(base, updated, n - 1) + if IsSet(base, updated, k) then [SetChange(k, updated.vals[k])] else []
  }

  /** The Deletes pushed by the first `n` iterations of the second loop. */
  function DeleteChanges(base: Flattened, updated: Flattened, n: nat): seq<Change>
    requires n <= |base.keys|
  {
    if n == 0 then []
    else
      var k := base.keys[n - 1];
      DeleteChanges(base, updated, n - 1) + if k !in updated.vals then [DeleteChange(k)] else []
  }

  /** The result of `diff(base, updated)`. */
  function DiffOf(base: Flattened, updated: Flattened): seq<Change> {
    SetChanges(base, updated, |updated.keys|) + DeleteChanges(base, updated, |base.keys|)
  }

  /** `diff(base, updated)`: the two `for…in` loops pushing into `changes`. */
  method Diff(base: Flattened, updated: Flattened) returns (changes: seq<Change>)
    ensures changes == DiffOf(base, updated)
  {
    changes := [];
    var i := 0;
    while i < |updated.keys|
      invariant i <= |updated.keys|
      invariant changes == SetChanges(base, updated, i)
    {
      var key := updated.keys[i];
      var updatedValue := updated.vals[key];
      if key !in base.vals || base.vals[key] != updatedValue {
        changes := changes + [SetChange(key, updatedValue)];
      }
      i := i + 1;
    }
    var j := 0;
    while j < |base.keys|
      invariant j <= |base.keys|
      invariant changes == SetChanges(base, updated, i) + DeleteChanges(base, updated, j)
    {
      var key := base.keys[j];
      if key !in updated.vals {
        changes := changes + [DeleteChange(key)];
      }
      j := j + 1;
    }
  }

  // ---------------------------------------------------------------------
  // What the change list holds.

  lemma {:induction false} SetChangesMembers(base: Flattened, updated: Flattened, n: nat, c: Change)
    requires n <= |updated.keys|
    ensures c in SetChanges(base, updated, n) <==>
              c.SetChange? && c.p in updated.keys[..n] && c.v == updated.vals[c.p] && IsSet(base, updated, c.p)
  {
    if n > 0 {
      SetChangesMembers(base, updated, n - 1, c);
      assert updated.keys[..n] == updated.keys[..n - 1] + [updated.keys[n - 1]];
    }
  }

  lemma {:induction false} DeleteChangesMembers(base: Flattened, updated: Flattened, n: nat, c: Change)
    requires n <= |base.keys|
    ensures c in DeleteChanges(base, updated, n) <==>
              c.DeleteChange? && c.p in base.keys[..n] && c.p !in updated.vals
  {
    if n > 0 {
      DeleteChangesMembers(base, updated, n - 1, c);
      assert base.keys[..n] == base.keys[..n - 1] + [base.keys[n - 1]];
    }
  }

  /**
   * `diff` sets exactly the keys of `updated` that are new or changed, to
   * their updated value, and deletes exactly the keys of `base` that
   * `updated` lacks.
   */
  lemma DiffMembers(base: Flattened, updated: Flattened, c: Change)
    ensures c in DiffOf(base, updated) <==>
              || (c.SetChange? && c.p in updated.vals && c.v == updated.vals[c.p] && IsSet(base, updated, c.p))
              || (c.DeleteChange? && c.p in base.vals && c.p !in updated.vals)
  {
    SetChangesMembers(base, updated, |updated.keys|, c);
    DeleteChangesMembers(base, updated, |base.keys|, c);
    assert updated.keys[..|updated.keys|] == updated.keys;
    assert base.keys[..|base.keys|] == base.keys;
  }

  lemma {:induction false} SetChangesAreSets(base: Flattened, updated: Flattened, n: nat)
    requires n <= |updated.keys|
    ensures forall c :: c in SetChanges(base, updated, n) ==> c.SetChange?
  {
    forall c | c in SetChanges(base, updated, n) ensures c.SetChange? {
      SetChangesMembers(base, updated, n, c);
    }
  }

  lemma {:induction false} DeleteChangesAreDeletes(base: Flattened, updated: Flattened, n: nat)
    requires n <= |base.keys|
    ensures forall c :: c in DeleteChanges(base, updated, n) ==> c.DeleteChange?
  {
    forall c | c in DeleteChanges(base, updated, n) ensures c.DeleteChange? {
      DeleteChangesMembers(base, updated, n, c);
    }
  }

  /** Every Set comes before every Delete. */
  lemma SetsBeforeDeletes(base: Flattened, updated: Flattened, i: nat, j: nat)
    requires i < j < |DiffOf(base, updated)|
    requires DiffOf(base, updated)[j].SetChange?
    ensures DiffOf(base, updated)[i].SetChange?
  {
    var sets := SetChanges(base, updated, |updated.keys|);
    var dels := DeleteChanges(base, updated, |base.keys|);
    SetChangesAreSets(base, updated, |updated.keys|);
    DeleteChangesAreDeletes(base, updated, |base.keys|);
    var d := DiffOf(base, updated);
    assert forall m :: |sets| <= m < |d| ==> d[m] in dels;
    assert forall m :: 0 <= m < |sets| ==> d[m] in sets;
  }

  lemma {:induction false} SetChangesPaths(base: Flattened, updated: Flattened, n: nat)
    requires n <= |updated.keys|
    ensures PathsDistinct(SetChanges(base, updated, n))
  {
    if n > 0 {
      SetChangesPaths(base, updated, n - 1);
      var k := updated.keys[n - 1];
      var prev := SetChanges(base, updated, n - 1);
      if IsSet(base, updated, k) {
        DistinctLast(updated.keys, n);
        forall e | e in prev ensures e.p != k {
          SetChangesMembers(base, updated, n - 1, e);
        }
        ChangesSnocDistinct(prev, SetChange(k, updated.vals[k]), SetChanges(base, updated, n));
      } else {
        assert SetChanges(base, updated, n) == prev;
      }
    }
  }

  lemma {:induction false} DeleteChangesPaths(base: Flattened, updated: Flattened, n: nat)
    requires n <= |base.keys|
    ensures PathsDistinct(DeleteChanges(base, updated, n))
  {
    if n > 0 {
      DeleteChangesPaths(base, updated, n - 1);
      var k := base.keys[n - 1];
      var prev := DeleteChanges(base, updated, n - 1);
      if k !in updated.vals {
        DistinctLast(base.keys, n);
        forall e | e in prev ensures e.p != k {
          DeleteChangesMembers(base, updated, n - 1, e);
        }
        ChangesSnocDistinct(prev, DeleteChange(k), DeleteChanges(base, updated, n));
      } else {
        assert DeleteChanges(base, updated, n) == prev;
      }
    }
  }

  /** In a duplicate-free sequence the `n`-th element is not among the first `n - 1`. */
  lemma DistinctLast(ks: seq<string>, n: nat)
    requires 0 < n <= |ks| && Distinct(ks)
    ensures ks[n - 1] !in ks[..n - 1]
  {
  }

  /** No two changes of the list name the same path. */
  ghost predicate PathsDistinct(cs: seq<Change>) {
    forall i, j :: 0 <= i < j < |cs| ==> cs[i].p != cs[j].p
  }

  lemma ChangesSnocDistinct(prev: seq<Change>, c: Change, cur: seq<Change>)
    requires cur == prev + [c]
    requires PathsDistinct(prev) && forall e :: e in prev ==> e.p != c.p
    ensures PathsDistinct(cur)
  {
    forall i, j | 0 <= i < j < |cur| ensures cur[i].p != cur[j].p {
      if j == |prev| {
        assert cur[i] in prev;
      }
    }
  }

  lemma PathsOfMembers(cs: seq<Change>)
    ensures forall c :: c in cs ==> c.p in Paths(cs)
  {
    forall c | c in cs ensures c.p in Paths(cs) {
      var i :| 0 <= i < |cs| && cs[i] == c;
      assert Paths(cs)[i] == c.p;
    }
  }

  /** No path is named twice, so in particular no path receives both a Set and a Delete. */
  lemma DiffPathsDistinct(base: Flattened, updated: Flattened)
    ensures Distinct(Paths(DiffOf(base, updated)))
  {
    var sets := SetChanges(base, updated, |updated.keys|);
    var dels := DeleteChanges(base, updated, |base.keys|);
    SetChangesPaths(base, updated, |updated.keys|);
    DeleteChangesPaths(base, updated, |base.keys|);
    forall e | e in sets ensures e.p in updated.vals {
      SetChangesMembers(base, updated, |updated.keys|, e);
    }
    forall e | e in dels ensures e.p !in updated.vals {
      DeleteChangesMembers(base, updated, |base.keys|, e);
    }
    var d := DiffOf(base, updated);
    forall i, j | 0 <= i < j < |d| ensures Paths(d)[i] != Paths(d)[j] {
      if i < |sets| <= j {
        assert d[i] in sets && d[j] in dels;
      } else if j < |sets| {
        assert d[i] == sets[i] && d[j] == sets[j];
      } else {
        assert d[i] == dels[i - |sets|] && d[j] == dels[j - |sets|];
      }
    }
  }

  /** `diff` reports nothing exactly when the two records hold the same entries. */
  lemma DiffEmptyIff(base: Flattened, updated: Flattened)
    ensures DiffOf(base, updated) == [] <==> base.vals == updated.vals
  {
    if DiffOf(base, updated) == [] {
      forall k | k in updated.vals ensures k in base.vals && base.vals[k] == updated.vals[k] {
        DiffMembers(base, updated, SetChange(k, updated.vals[k]));
      }
      forall k | k in base.vals ensures k in updated.vals {
        DiffMembers(base, updated, DeleteChange(k));
      }
    } else {
      var c := DiffOf(base, updated)[0];
      DiffMembers(base, updated, c);
    }
  }

  /** A record compared with itself yields no change. */
  lemma DiffSelf(s: Flattened)
    ensures DiffOf(s, s) == []
  {
    DiffEmptyIff(s, s);
  }

  /** Patching `base` with `diff(base, updated)` yields the entries of `updated`. */
  lemma PatchDiff(base: Flattened, updated: Flattened)
    ensures Patcher.Patched(base, DiffOf(base, updated)).vals == updated.vals
  {
    var d := DiffOf(base, updated);
    var g := Patcher.Patched(base, d);
    DiffPathsDistinct(base, updated);
    forall k ensures (k in g.vals <==> k in updated.vals) && (k in updated.vals ==> g.vals[k] == updated.vals[k]) {
      if k in Paths(d) {
        var i :| 0 <= i < |d| && Paths(d)[i] == k;
        assert d[i] in d;
        DiffMembers(base, updated, d[i]);
        forall j | i < j < |d| ensures d[j].p != d[i].p {
          assert Paths(d)[j] != Paths(d)[i];
        }
        Patcher.PatchedLastWins(base, d, i);
      } else {
        Patcher.PatchedFrame(base, d, k);
        PathsOfMembers(d);
        if k in updated.vals {
          DiffMembers(base, updated, SetChange(k, updated.vals[k]));
        }
        DiffMembers(base, updated, DeleteChange(k));
      }
    }
  }

  // ---------------------------------------------------------------------
  // The diffs of two typical edits.

  /** A list naming no path twice has as many changes as it has members. */
  lemma {:induction false} ChangeCount(cs: seq<Change>)
    requires Distinct(Paths(cs))
    ensures |set c | c in cs| == |cs|
  {
    if cs != [] {
      var init := cs[..|cs| - 1];
      var last := cs[|cs| - 1];
      assert Paths(init) == Paths(cs)[..|cs| - 1];
      ChangeCount(init);
      assert last !in init by {
        forall i | 0 <= i < |init| ensures init[i] != last {
          assert Paths(cs)[i] != Paths(cs)[|cs| - 1];
        }
      }
      assert cs == init + [last];
      MembersSnoc(init, last);
    }
  }

  lemma MembersSnoc<T>(s: seq<T>, x: T)
    ensures (set y | y in s + [x]) == (set y | y in s) + {x}
  {
    assert forall y :: y in s + [x] <==> y in s || y == x;
  }

  /** A list of changes naming no path twice whose every member is `c` is `[c]`. */
  lemma OnlyChange(cs: seq<Change>, c: Change)
    requires c in cs && Distinct(Paths(cs))
    requires forall x :: x in cs ==> x == c
    ensures cs == [c]
  {
    ChangeCount(cs);
    assert (set x | x in cs) == {c};
    assert cs[0] in cs;
  }

  /**
   * Two records that differ only in the value stored under `k` give the one
   * Set of `k` to its new value.
   */
  lemma DiffOneValue(base: Flattened, updated: Flattened, k: string)
    requires k in base.vals && k in updated.vals && base.vals[k] != updated.vals[k]
    requires base.vals - {k} == updated.vals - {k}
    ensures DiffOf(base, updated) == [SetChange(k, updated.vals[k])]
  {
    var d := DiffOf(base, updated);
    var c := SetChange(k, updated.vals[k]);
    DiffMembers(base, updated, c);
    forall x | x in d ensures x == c {
      DiffMembers(base, updated, x);
      if x.p != k {
        AgreeOffKey(base.vals, updated.vals, k, x.p);
        assert false;
      }
    }
    DiffPathsDistinct(base, updated);
    OnlyChange(d, c);
  }

  lemma AgreeOffKey(a: map<string, Value>, b: map<string, Value>, k: string, p: string)
    requires a - {k} == b - {k} && p != k
    ensures p in a <==> p in b
    ensures p in a ==> a[p] == b[p]
  {
    assert p in a <==> p in a - {k};
    assert p in b <==> p in b - {k};
    if p in a {
      assert a[p] == (a - {k})[p];
      assert b[p] == (b - {k})[p];
    }
  }

  /**
   * A record that is another with the keys `gone` removed: the diff holds
   * exactly one Delete per removed key and nothing else.
   */
  lemma DiffRemoved(base: Flattened, updated: Flattened, gone: set<string>)
    requires gone <= base.vals.Keys && updated.vals == base.vals - gone
    ensures forall c :: c in DiffOf(base, updated) <==> c.DeleteChange? && c.p in gone
  {
    forall c ensures c in DiffOf(base, updated) <==> c.DeleteChange? && c.p in gone {
      DiffMembers(base, updated, c);
      if c.SetChange? && c.p in updated.vals {
        assert c.p in base.vals && base.vals[c.p] == updated.vals[c.p];
      }
    }
  }

  /** Removing two keys gives exactly their two Deletes. */
  lemma DiffRemovedTwo(base: Flattened, updated: Flattened, a: string, b: string)
    requires a != b && a in base.vals && b in base.vals
    requires updated.vals == base.vals - {a, b}
    ensures forall c :: c in DiffOf(base, updated) <==> c == DeleteChange(a) || c == DeleteChange(b)
    ensures |DiffOf(base, updated)| == 2
  {
    var d := DiffOf(base, updated);
    DiffRemoved(base, updated, {a, b});
    DiffPathsDistinct(base, updated);
    ChangeCount(d);
    assert (set c | c in d) == {DeleteChange(a), DeleteChange(b)};
  }
}
