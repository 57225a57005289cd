/**
 * When rebuilding inverts flattening.
 *
 * `rebuild(p, f)` gives back the subtree `n` whose leaves are exactly the
 * keys of `f` that start with `p`, provided `p` is not the root path and `n`
 * stays clear of the shapes the key-shape inference cannot tell apart: keys
 * with dots, a sibling key that is a string prefix of another, arrays whose
 * elements are containers (one element per leaf is produced), objects whose
 * keys all parse as numbers (read back as arrays) and empty containers (read
 * back as absent).
 */
module RoundTrip {
  import opened Wrappers
  import opened Types
  import opened Strings
  import opened Flattener
  import opened Rebuilder

  /** `k` is the path `q` itself or a path below it. */
  predicate Under(k: string, q: string) {
    StartsWith(k, q) && (|k| == |q| || k[|q|] == '.')
  }

  ghost predicate DotFreeKeys(n: Node)
    requires IsContainer(n)
  {
    forall i :: 0 <= i < ChildCount(n) ==> '.' !in ChildKey(n, i)
  }

  /** No child key is a string prefix of a sibling's key. */
  ghost predicate PrefixFree(n: Node)
    requires IsContainer(n)
  {
    forall i, j :: 0 <= i < ChildCount(n) && 0 <= j < ChildCount(n) && i != j ==>
      !StartsWith(ChildKey(n, j), ChildKey(n, i))
  }

  /** The conditions on an object's own keys and on its children. */
  ghost predicate CanonicalFields(n: Node)
    requires n.Object?
    decreases n, 0
  {
    && DotFreeKeys(n)
    && PrefixFree(n)
    && forall i :: 0 <= i < ChildCount(n) ==> Canonical(Child(n, i))
  }

  /** A subtree that flattening followed by rebuilding gives back unchanged. */
  ghost predicate Canonical(n: Node)
    decreases n, 1
  {
    match n
    case Scalar(_) => true
    case Array(items) => |items| > 0 && forall i :: 0 <= i < |items| ==> items[i].Scalar?
    case Object(fields) =>
      && |fields| > 0
      && (exists i :: 0 <= i < |fields| && ParseInt(fields[i].0).None?)
      && CanonicalFields(n)
    case _ => false
  }

  // ---------------------------------------------------------------------
  // Sequences and prefixes.

  lemma FieldKeysAppend(a: seq<Entry>, b: seq<Entry>)
    ensures FieldKeys(a + b) == FieldKeys(a) + FieldKeys(b)
  {
  }

  lemma {:induction false} MatchingAppend(a: seq<string>, b: seq<string>, q: string)
    ensures Matching(a + b, q) == Matching(a, q) + Matching(b, q)
    decreases |b|
  {
    if b == [] {
      assert a + b == a;
    } else {
      assert (a + b)[..|a + b| - 1] == a + b[..|b| - 1];
      MatchingAppend(a, b[..|b| - 1], q);
    }
  }

  lemma {:induction false} MatchingAll(ks: seq<string>, q: string)
    requires forall k :: k in ks ==> StartsWith(k, q)
    ensures Matching(ks, q) == ks
  {
    if ks != [] {
      MatchingAll(ks[..|ks| - 1], q);
      assert ks[..|ks| - 1] + [ks[|ks| - 1]] == ks;
    }
  }

  lemma SnocSplit<T>(s: seq<T>)
    requires s != []
    ensures s[..|s| - 1] + [s[|s| - 1]] == s
  {
  }

  lemma SnocPrefix<T>(s: seq<T>, x: T)
    ensures (s + [x])[..|s|] == s
  {
  }

  lemma StartsWithTrans(k: string, q: string, p: string)
    requires StartsWith(k, q) && StartsWith(q, p)
    ensures StartsWith(k, p)
  {
    assert k[..|p|] == k[..|q|][..|p|];
  }

  /** Filtering by a longer prefix after a shorter one is filtering by the longer one. */
  lemma {:induction false} MatchingTwice(keys: seq<string>, p: string, q: string)
    requires StartsWith(q, p)
    ensures Matching(Matching(keys, p), q) == Matching(keys, q)
  {
    if keys != [] {
      MatchingTwice(keys[..|keys| - 1], p, q);
      var last := keys[|keys| - 1];
      if StartsWith(last, q) {
        StartsWithTrans(last, q, p);
      }
      if StartsWith(last, p) {
        assert Matching(keys, p) == Matching(keys[..|keys| - 1], p) + [last];
        MatchingAppend(Matching(keys[..|keys| - 1], p), [last], q);
      }
    }
  }

  lemma {:induction false} SegmentsAppend(a: seq<string>, b: seq<string>, key: string)
    ensures Segments(a + b, key) == Segments(a, key) + Segments(b, key)
    decreases |b|
  {
    if b == [] {
      assert a + b == a;
    } else {
      assert (a + b)[..|a + b| - 1] == a + b[..|b| - 1];
      SegmentsAppend(a, b[..|b| - 1], key);
    }
  }

  /** Keys below `p.c` all have child segment `c` relative to `p`. */
  lemma SegmentsOfGroup(ks: seq<string>, p: string, c: string)
    requires '.' !in c
    requires forall k :: k in ks ==> Under(k, p + "." + c)
    ensures forall x :: x in Segments(ks, p) ==> x == c
  {
    forall i | 0 <= i < |ks| ensures Segments(ks, p)[i] == c {
      var k := ks[i];
      var q := p + "." + c;
      assert k in ks;
      assert k == q + k[|q|..];
      ChildSegmentOfJoin(p, c, k[|q|..]);
    }
  }

  lemma {:induction false} DedupAppendGroup(a: seq<string>, b: seq<string>, c: string)
    requires b != [] && forall x :: x in b ==> x == c
    requires c !in a
    ensures Dedup(a + b) == Dedup(a) + [c]
    decreases |b|
  {
    var b' := b[..|b| - 1];
    assert (a + b)[..|a + b| - 1] == a + b';
    assert b[|b| - 1] in b;
    assert forall x :: x in b' ==> x in b;
    if b' == [] {
      assert a + b' == a;
    } else {
      DedupAppendGroup(a, b', c);
    }
  }

  /**
   * A key below `pre + cj` does not start with `pre + ci` when `ci` is free
   * of dots and not a prefix of `cj`.
   */
  lemma NoPollution(pre: string, ci: string, cj: string, k: string)
    requires '.' !in ci && !StartsWith(cj, ci)
    requires Under(k, pre + cj)
    ensures !StartsWith(k, pre + ci)
  {
    if |ci| <= |cj| {
      SharedPrefix(pre, ci, cj, k);
    } else {
      SeparatorInside(pre, ci, cj, k);
    }
  }

  /** Two prefixes `pre + ci` and `pre + cj` of one key, the first the shorter, make `ci` a prefix of `cj`. */
  lemma SharedPrefix(pre: string, ci: string, cj: string, k: string)
    requires |ci| <= |cj| && StartsWith(k, pre + cj)
    ensures StartsWith(k, pre + ci) ==> StartsWith(cj, ci)
  {
    if StartsWith(k, pre + ci) {
      forall t | 0 <= t < |ci| ensures cj[t] == ci[t] {
        assert k[|pre| + t] == (pre + ci)[|pre| + t];
        assert k[|pre| + t] == (pre + cj)[|pre| + t];
      }
      assert cj[..|ci|] == ci;
    }
  }

  /** A key below `pre + cj` that starts with a longer `pre + ci` has a dot inside `ci`. */
  lemma SeparatorInside(pre: string, ci: string, cj: string, k: string)
    requires |cj| < |ci| && Under(k, pre + cj)
    ensures StartsWith(k, pre + ci) ==> '.' in ci
  {
    if StartsWith(k, pre + ci) {
      var a := pre + cj;
      assert k[|a|] == '.';
      assert k[|a|] == (pre + ci)[|a|] == ci[|cj|];
    }
  }

  lemma UnderJoin(k: string, q: string, c: string)
    requires q != []
    requires Under(k, Join(q, c))
    ensures Under(k, q)
  {
    assert k[..|q|] == k[..|q + "." + c|][..|q|];
  }

  /** Every leaf path written below a non-root path `q` is `q` or lies below it. */
  lemma {:induction false} LeafShape(q: string, n: Node)
    requires q != []
    requires Leaves(q, n).Ok?
    ensures forall e :: e in Leaves(q, n).value ==> Under(e.0, q)
    decreases n, 1, 0
  {
    if IsContainer(n) {
      ChildLeafShape(q, n, ChildCount(n));
    }
  }

  lemma {:induction false} ChildLeafShape(q: string, n: Node, i: nat)
    requires q != []
    requires IsContainer(n) && i <= ChildCount(n)
    requires ChildLeaves(q, n, i).Ok?
    ensures forall e :: e in ChildLeaves(q, n, i).value ==> Under(e.0, q) && |e.0| > |q|
    decreases n, 0, i
  {
    if i > 0 {
      ChildLeafShape(q, n, i - 1);
      var ck := Join(q, ChildKey(n, i - 1));
      LeafShape(ck, Child(n, i - 1));
      forall e | e in Leaves(ck, Child(n, i - 1)).value ensures Under(e.0, q) && |e.0| > |q| {
        UnderJoin(e.0, q, ChildKey(n, i - 1));
      }
    }
  }

  // ---------------------------------------------------------------------
  // The leaves of a canonical subtree.

  /** The paths of a walk's entries, none when it throws. */
  function KeysOf(r: Result<seq<Entry>, FlattenError>): (ks: seq<string>)
    ensures r.Ok? ==> ks == FieldKeys(r.value)
  {
    if r.Ok? then FieldKeys(r.value) else []
  }

  lemma KeysOfMember(r: Result<seq<Entry>, FlattenError>, k: string)
    requires r.Ok? && k in KeysOf(r)
    ensures exists e :: e in r.value && e.0 == k
  {
    var t :| 0 <= t < |r.value| && KeysOf(r)[t] == k;
    assert r.value[t] in r.value;
  }

  /** A canonical subtree flattens without error and writes at least one entry. */
  lemma {:induction false} CanonicalLeaves(q: string, n: Node)
    requires Canonical(n)
    ensures Leaves(q, n).Ok? && Leaves(q, n).value != []
    decreases n, 1, 0
  {
    if n.Array? {
      ArrayLeaves(q, n, ChildCount(n));
    } else if n.Object? {
      ObjectLeavesOk(q, n, ChildCount(n));
    }
  }

  lemma {:induction false} ObjectLeavesOk(q: string, n: Node, i: nat)
    requires n.Object? && CanonicalFields(n) && i <= ChildCount(n)
    ensures ChildLeaves(q, n, i).Ok?
    ensures i > 0 ==> ChildLeaves(q, n, i).value != []
    decreases n, 0, i
  {
    if i > 0 {
      ObjectLeavesOk(q, n, i - 1);
      CanonicalLeaves(Join(q, ChildKey(n, i - 1)), Child(n, i - 1));
    }
  }

  /** An array of scalars writes `q.0`, `q.1`, … in index order. */
  lemma {:induction false} ArrayLeaves(q: string, n: Node, i: nat)
    requires n.Array? && i <= |n.items|
    requires forall j :: 0 <= j < |n.items| ==> n.items[j].Scalar?
    ensures ChildLeaves(q, n, i).Ok? && |ChildLeaves(q, n, i).value| == i
    ensures forall j :: 0 <= j < i ==>
              ChildLeaves(q, n, i).value[j] == (Join(q, NatToString(j)), n.items[j].value)
  {
    if i > 0 {
      ArrayLeaves(q, n, i - 1);
      var prev := ChildLeaves(q, n, i - 1).value;
      var e := (Join(q, NatToString(i - 1)), n.items[i - 1].value);
      assert Leaves(Join(q, ChildKey(n, i - 1)), Child(n, i - 1)) == Ok([e]);
      assert ChildLeaves(q, n, i) == Ok(prev + [e]);
    }
  }

  lemma JoinInjective(q: string, s: string, t: string)
    requires q != [] && Join(q, s) == Join(q, t)
    ensures s == t
  {
    assert s == Join(q, s)[|q| + 1..];
    assert t == Join(q, t)[|q| + 1..];
  }

  /** One more child: its leaves' paths follow those of the children before it. */
  lemma ChildLeavesStep(q: string, n: Node, j: nat)
    requires IsContainer(n) && 0 < j <= ChildCount(n)
    requires ChildLeaves(q, n, j - 1).Ok?
    requires Leaves(Join(q, ChildKey(n, j - 1)), Child(n, j - 1)).Ok?
    ensures ChildLeaves(q, n, j).Ok?
    ensures KeysOf(ChildLeaves(q, n, j)) ==
              KeysOf(ChildLeaves(q, n, j - 1)) + KeysOf(Leaves(Join(q, ChildKey(n, j - 1)), Child(n, j - 1)))
  {
    FieldKeysAppend(ChildLeaves(q, n, j - 1).value, Leaves(Join(q, ChildKey(n, j - 1)), Child(n, j - 1)).value);
  }

  /** The leaves of one child lie below that child's path. */
  lemma GroupUnder(q: string, n: Node, j: nat)
    requires IsContainer(n) && j < ChildCount(n)
    requires Join(q, ChildKey(n, j)) != []
    requires Leaves(Join(q, ChildKey(n, j)), Child(n, j)).Ok?
    ensures forall k :: k in KeysOf(Leaves(Join(q, ChildKey(n, j)), Child(n, j))) ==> Under(k, Join(q, ChildKey(n, j)))
  {
    var group := Leaves(Join(q, ChildKey(n, j)), Child(n, j));
    LeafShape(Join(q, ChildKey(n, j)), Child(n, j));
    forall k | k in KeysOf(group) ensures Under(k, Join(q, ChildKey(n, j))) {
      KeysOfMember(group, k);
    }
  }

  // ---------------------------------------------------------------------
  // Groups of keys, one group per child, each below its child's path.

  function Concat(gs: seq<seq<string>>): seq<string> {
    if gs == [] then [] else Concat(gs[..|gs| - 1]) + gs[|gs| - 1]
  }

  ghost predicate DotFree(cs: seq<string>) {
    forall t :: 0 <= t < |cs| ==> '.' !in cs[t]
  }

  ghost predicate PrefixFreeSeq(cs: seq<string>) {
    forall a, b :: 0 <= a < |cs| && 0 <= b < |cs| && a != b ==> !StartsWith(cs[b], cs[a])
  }

  /** Group `t` lies below `pre + cs[t]`. */
  ghost predicate GroupsUnder(gs: seq<seq<string>>, cs: seq<string>, pre: string) {
    |gs| == |cs| && forall t, k :: 0 <= t < |gs| && k in gs[t] ==> Under(k, pre + cs[t])
  }

  lemma GroupAvoids(g: seq<string>, pre: string, cj: string, ci: string)
    requires forall k :: k in g ==> Under(k, pre + cj)
    requires '.' !in ci && !StartsWith(cj, ci)
    ensures Matching(g, pre + ci) == []
  {
    forall k | k in g ensures !StartsWith(k, pre + ci) {
      NoPollution(pre, ci, cj, k);
    }
  }

  /** No key of any group starts with `pre + c` when `c` is no prefix of a group's key. */
  lemma {:induction false} ConcatAvoids(gs: seq<seq<string>>, cs: seq<string>, pre: string, c: string)
    requires GroupsUnder(gs, cs, pre)
    requires '.' !in c && forall t :: 0 <= t < |cs| ==> !StartsWith(cs[t], c)
    ensures Matching(Concat(gs), pre + c) == []
  {
    if gs != [] {
      var last := |gs| - 1;
      ConcatAvoids(gs[..last], cs[..last], pre, c);
      MatchingAppend(Concat(gs[..last]), gs[last], pre + c);
      GroupAvoids(gs[last], pre, cs[last], c);
    }
  }

  /** The keys of all groups that start with `pre + cs[i]` are group `i`, in order. */
  lemma {:induction false} ConcatMatching(gs: seq<seq<string>>, cs: seq<string>, pre: string, i: nat)
    requires GroupsUnder(gs, cs, pre) && DotFree(cs) && PrefixFreeSeq(cs)
    requires i < |cs|
    ensures Matching(Concat(gs), pre + cs[i]) == gs[i]
  {
    var last := |gs| - 1;
    GroupsInit(gs, cs, pre);
    ChildrenInit(cs);
    MatchingAppend(Concat(gs[..last]), gs[last], pre + cs[i]);
    if i == last {
      forall t | 0 <= t < last ensures !StartsWith(cs[..last][t], cs[i]) {
        assert cs[..last][t] == cs[t];
      }
      ConcatAvoids(gs[..last], cs[..last], pre, cs[i]);
      MatchingAll(gs[last], pre + cs[i]);
    } else {
      assert cs[..last][i] == cs[i] && gs[..last][i] == gs[i];
      ConcatMatching(gs[..last], cs[..last], pre, i);
      assert '.' !in cs[i] && !StartsWith(cs[last], cs[i]);
      GroupAvoids(gs[last], pre, cs[last], cs[i]);
    }
  }

  /** Dropping the last child keeps the groups below their children. */
  lemma GroupsInit(gs: seq<seq<string>>, cs: seq<string>, pre: string)
    requires GroupsUnder(gs, cs, pre) && gs != []
    ensures GroupsUnder(gs[..|gs| - 1], cs[..|cs| - 1], pre)
  {
    var last := |gs| - 1;
    forall t, k | 0 <= t < last && k in gs[..last][t] ensures Under(k, pre + cs[..last][t]) {
      assert gs[..last][t] == gs[t] && cs[..last][t] == cs[t];
    }
  }

  /** Dropping the last child keeps the children dot-free and prefix-free. */
  lemma ChildrenInit(cs: seq<string>)
    requires DotFree(cs) && PrefixFreeSeq(cs) && cs != []
    ensures DotFree(cs[..|cs| - 1]) && PrefixFreeSeq(cs[..|cs| - 1])
  {
    var init := cs[..|cs| - 1];
    forall a, b | 0 <= a < |init| && 0 <= b < |init| && a != b ensures !StartsWith(init[b], init[a]) {
      assert init[a] == cs[a] && init[b] == cs[b];
    }
  }

  /** Distinct keys within each group and prefix-free children give distinct keys overall. */
  lemma {:induction false} ConcatDistinct(gs: seq<seq<string>>, cs: seq<string>, pre: string)
    requires GroupsUnder(gs, cs, pre) && DotFree(cs) && PrefixFreeSeq(cs)
    requires forall t :: 0 <= t < |gs| ==> Distinct(gs[t])
    ensures Distinct(Concat(gs))
  {
    if gs != [] {
      var last := |gs| - 1;
      ConcatDistinct(gs[..last], cs[..last], pre);
      ConcatAvoids(gs[..last], cs[..last], pre, cs[last]);
      assert forall k :: k in gs[last] ==> StartsWith(k, pre + cs[last]);
      DistinctAppend(Concat(gs[..last]), gs[last]);
    }
  }

  /**
   * The child segments of all keys, with repeats left out, are the children's
   * keys in order.
   */
  lemma {:induction false} ConcatSegments(gs: seq<seq<string>>, cs: seq<string>, p: string)
    requires GroupsUnder(gs, cs, p + ".") && DotFree(cs) && PrefixFreeSeq(cs)
    requires forall t :: 0 <= t < |gs| ==> gs[t] != []
    ensures Dedup(Segments(Concat(gs), p)) == cs
  {
    if gs != [] {
      var last := |gs| - 1;
      var c := cs[last];
      ConcatSegments(gs[..last], cs[..last], p);
      assert forall k :: k in gs[last] ==> Under(k, p + "." + c) by {
        assert p + "." + c == (p + ".") + c;
      }
      assert StartsWith(c, c);
      SegmentsSnoc(Concat(gs[..last]), gs[last], cs[..last], c, p);
      SnocSplit(cs);
    }
  }

  lemma SegmentsSnoc(init: seq<string>, g: seq<string>, cs: seq<string>, c: string, p: string)
    requires Dedup(Segments(init, p)) == cs
    requires c !in cs && '.' !in c
    requires g != [] && forall k :: k in g ==> Under(k, p + "." + c)
    ensures Dedup(Segments(init + g, p)) == cs + [c]
  {
    SegmentsAppend(init, g, p);
    SegmentsOfGroup(g, p, c);
    DedupAppendGroup(Segments(init, p), Segments(g, p), c);
  }

  // ---------------------------------------------------------------------
  // The groups of a container's children.

  /** The keys of the first `i` children. */
  function KeyList(n: Node, i: nat): (cs: seq<string>)
    requires IsContainer(n) && i <= ChildCount(n)
    ensures |cs| == i && forall t :: 0 <= t < i ==> cs[t] == ChildKey(n, t)
  {
    if i == 0 then [] else KeyList(n, i - 1) + [ChildKey(n, i - 1)]
  }

  /** The leaf paths of each of the first `i` children. */
  function Groups(q: string, n: Node, i: nat): (gs: seq<seq<string>>)
    requires IsContainer(n) && i <= ChildCount(n)
    ensures |gs| == i
  {
    if i == 0 then [] else Groups(q, n, i - 1) + [KeysOf(Leaves(Join(q, ChildKey(n, i - 1)), Child(n, i - 1)))]
  }

  lemma {:induction false} GroupsAt(q: string, n: Node, i: nat, t: nat)
    requires IsContainer(n) && t < i <= ChildCount(n)
    ensures Groups(q, n, i)[t] == KeysOf(Leaves(Join(q, ChildKey(n, t)), Child(n, t)))
  {
    var last := KeysOf(Leaves(Join(q, ChildKey(n, i - 1)), Child(n, i - 1)));
    assert Groups(q, n, i) == Groups(q, n, i - 1) + [last];
    if t < i - 1 {
      GroupsAt(q, n, i - 1, t);
    }
  }

  /** `Join(q, c)` puts `c` after the separator prefix of `q`. */
  function Sep(q: string): (pre: string)
    ensures forall c :: Join(q, c) == pre + c
  {
    if q == [] then [] else q + "."
  }

  /** The leaf paths of an object's children are its groups, one after the other. */
  lemma {:induction false} GroupsBridge(q: string, n: Node, i: nat)
    requires IsContainer(n) && i <= ChildCount(n)
    requires ChildLeaves(q, n, i).Ok?
    ensures KeysOf(ChildLeaves(q, n, i)) == Concat(Groups(q, n, i))
  {
    if i > 0 {
      var prev := Groups(q, n, i - 1);
      var group := KeysOf(Leaves(Join(q, ChildKey(n, i - 1)), Child(n, i - 1)));
      assert Concat(Groups(q, n, i)) == Concat(prev) + group by {
        assert Groups(q, n, i) == prev + [group];
        SnocPrefix(prev, group);
      }
      ChildLeavesStep(q, n, i);
      GroupsBridge(q, n, i - 1);
    }
  }

  /** The shape facts about an object's groups that the sequence lemmas need. */
  lemma ObjectGroups(q: string, n: Node)
    requires n.Object? && CanonicalFields(n)
    requires forall t :: 0 <= t < ChildCount(n) ==> Join(q, ChildKey(n, t)) != []
    ensures GroupsUnder(Groups(q, n, ChildCount(n)), KeyList(n, ChildCount(n)), Sep(q))
    ensures DotFree(KeyList(n, ChildCount(n))) && PrefixFree(n) && PrefixFreeSeq(KeyList(n, ChildCount(n)))
    ensures forall t :: 0 <= t < ChildCount(n) ==> Groups(q, n, ChildCount(n))[t] != []
  {
    var m := ChildCount(n);
    var gs, cs := Groups(q, n, m), KeyList(n, m);
    forall t | 0 <= t < m ensures gs[t] != [] && forall k :: k in gs[t] ==> Under(k, Sep(q) + cs[t]) {
      GroupsAt(q, n, m, t);
      CanonicalLeaves(Join(q, ChildKey(n, t)), Child(n, t));
      GroupUnder(q, n, t);
    }
  }

  /** Below a non-root path, the leaves of a canonical subtree have distinct paths. */
  lemma {:induction false} LeafKeysDistinct(q: string, n: Node)
    requires q != [] && Canonical(n)
    ensures Distinct(KeysOf(Leaves(q, n)))
    decreases n, 1
  {
    CanonicalLeaves(q, n);
    if n.Array? {
      ArrayLeaves(q, n, ChildCount(n));
      var ks := KeysOf(Leaves(q, n));
      forall a, b | 0 <= a < b < |ks| ensures ks[a] != ks[b] {
        if ks[a] == ks[b] {
          JoinInjective(q, NatToString(a), NatToString(b));
          ParseNatToString(a);
          ParseNatToString(b);
        }
      }
    } else if n.Object? {
      ObjectKeysDistinct(q, n);
    }
  }

  lemma {:induction false} ObjectKeysDistinct(q: string, n: Node)
    requires n.Object? && CanonicalFields(n)
    requires forall t :: 0 <= t < ChildCount(n) ==> Join(q, ChildKey(n, t)) != []
    ensures Distinct(KeysOf(Leaves(q, n)))
    decreases n, 0
  {
    var m := ChildCount(n);
    ObjectLeavesOk(q, n, m);
    GroupsBridge(q, n, m);
    ObjectGroups(q, n);
    forall t | 0 <= t < m ensures Distinct(Groups(q, n, m)[t]) {
      GroupsAt(q, n, m, t);
      LeafKeysDistinct(Join(q, ChildKey(n, t)), Child(n, t));
    }
    ConcatDistinct(Groups(q, n, m), KeyList(n, m), Sep(q));
  }

  // ---------------------------------------------------------------------
  // The round trip.

  /** The entries of a walk, none when it throws. */
  function EntriesOf(r: Result<seq<Entry>, FlattenError>): (es: seq<Entry>)
    ensures r.Ok? ==> es == r.value
  {
    if r.Ok? then r.value else []
  }

  /** The record holds every entry of `es`. */
  ghost predicate Holds(f: Flattened, es: seq<Entry>) {
    forall e :: e in es ==> e.0 in f.vals && f.vals[e.0] == e.1
  }

  /**
   * If the keys below an object's path are its leaves in order, the keys
   * below each child's path are that child's leaves in order.
   */
  lemma GroupMatching(q: string, n: Node, f: Flattened, t: nat)
    requires n.Object? && CanonicalFields(n) && t < ChildCount(n)
    requires forall u :: 0 <= u < ChildCount(n) ==> Join(q, ChildKey(n, u)) != []
    requires Matching(f.keys, q) == KeysOf(Leaves(q, n))
    requires Holds(f, EntriesOf(Leaves(q, n)))
    ensures Matching(f.keys, Join(q, ChildKey(n, t))) == KeysOf(Leaves(Join(q, ChildKey(n, t)), Child(n, t)))
    ensures Holds(f, EntriesOf(Leaves(Join(q, ChildKey(n, t)), Child(n, t))))
  {
    var ck := Join(q, ChildKey(n, t));
    ObjectGroupMatching(q, n, t);
    JoinStartsWith(q, ChildKey(n, t));
    MatchingTwice(f.keys, q, ck);
    ObjectLeavesOk(q, n, ChildCount(n));
    ChildEntriesIncluded(q, n, t);
  }

  lemma ObjectGroupMatching(q: string, n: Node, t: nat)
    requires n.Object? && CanonicalFields(n) && t < ChildCount(n)
    requires forall u :: 0 <= u < ChildCount(n) ==> Join(q, ChildKey(n, u)) != []
    ensures Matching(KeysOf(Leaves(q, n)), Join(q, ChildKey(n, t))) ==
              KeysOf(Leaves(Join(q, ChildKey(n, t)), Child(n, t)))
  {
    var m := ChildCount(n);
    ObjectLeavesOk(q, n, m);
    GroupsBridge(q, n, m);
    ObjectGroups(q, n);
    ConcatMatching(Groups(q, n, m), KeyList(n, m), Sep(q), t);
    GroupsAt(q, n, m, t);
  }

  lemma JoinStartsWith(q: string, c: string)
    ensures StartsWith(Join(q, c), q)
  {
    assert Join(q, c) == Sep(q) + c;
    assert Join(q, c)[..|q|] == q;
  }

  /** The entries a child writes are among those its parent writes. */
  lemma ChildEntriesIncluded(q: string, n: Node, t: nat)
    requires IsContainer(n) && t < ChildCount(n)
    requires Leaves(q, n).Ok?
    ensures forall e :: e in EntriesOf(Leaves(Join(q, ChildKey(n, t)), Child(n, t))) ==> e in Leaves(q, n).value
  {
    var m := ChildCount(n);
    assert Leaves(q, n) == ChildLeaves(q, n, m);
    ChildLeavesPrefix(q, n, t + 1, m);
  }

  /**
   * Rebuilding at a non-root path `p` gives back the canonical subtree `n`
   * when the keys of the record that start with `p` are exactly the paths of
   * `n`'s leaves, in flattening order, and hold their values.
   */
  lemma {:induction false} RebuildFlattened(p: string, n: Node, f: Flattened)
    requires p != [] && Canonical(n)
    requires Matching(f.keys, p) == KeysOf(Leaves(p, n))
    requires Holds(f, EntriesOf(Leaves(p, n)))
    ensures Rebuild(p, f) == n
    decreases n
  {
    CanonicalLeaves(p, n);
    match n {
      case Scalar(v) =>
        assert (p, v) in Leaves(p, n).value;
      case Array(_) =>
        RebuildFlattenedArray(p, n, f);
      case Object(fields) =>
        forall t | 0 <= t < |fields| ensures Rebuild(p + "." + fields[t].0, f) == fields[t].1 {
          GroupMatching(p, n, f, t);
          RebuildFlattened(p + "." + fields[t].0, Child(n, t), f);
        }
        RebuildFlattenedObject(p, n, f);
    }
  }

  /** The keys below `p` sit strictly below it, so `p` itself is not stored. */
  lemma PathNotStored(p: string, f: Flattened, ks: seq<string>)
    requires Matching(f.keys, p) == ks
    requires forall k :: k in ks ==> |k| > |p|
    ensures p !in f.vals
  {
    assert StartsWith(p, p);
  }

  lemma RebuildFlattenedArray(p: string, n: Node, f: Flattened)
    requires p != [] && n.Array? && Canonical(n)
    requires Matching(f.keys, p) == KeysOf(Leaves(p, n))
    requires Holds(f, EntriesOf(Leaves(p, n)))
    ensures Rebuild(p, f) == n
  {
    var m := |n.items|;
    ArrayLeaves(p, n, m);
    var es := Leaves(p, n).value;
    assert forall j :: 0 <= j < m ==> es[j] in es;
    RebuildIndexed(p, f, n.items);
  }

  /**
   * Below `p`, keys `p.0`, `p.1`, … in that order holding the values of
   * `items` rebuild as the array `items`.
   */
  lemma RebuildIndexed(p: string, f: Flattened, items: seq<Node>)
    requires p != [] && items != []
    requires |Matching(f.keys, p)| == |items|
    requires forall j :: 0 <= j < |items| ==>
               && items[j].Scalar?
               && Matching(f.keys, p)[j] == Join(p, NatToString(j))
               && Join(p, NatToString(j)) in f.vals
               && f.vals[Join(p, NatToString(j))] == items[j].value
    ensures Rebuild(p, f) == Array(items)
  {
    IndexedShape(p, f, |items|);
    RebuildArray(p, f);
    forall j | 0 <= j < |items| ensures Rebuild(p, f).items[j] == items[j] {
      ParseNatToString(j);
    }
    IndexedItems(Rebuild(p, f), items);
  }

  lemma IndexedItems(r: Node, items: seq<Node>)
    requires r.Array? && |r.items| == |items|
    requires forall j :: 0 <= j < |items| ==> r.items[j] == items[j]
    ensures r == Array(items)
  {
    assert r.items == items;
  }

  /** Keys `p.0`, `p.1`, … take the array branch, segment `j` reading as `j`. */
  lemma IndexedShape(p: string, f: Flattened, m: nat)
    requires p != [] && m > 0
    requires |Matching(f.keys, p)| == m
    requires forall j :: 0 <= j < m ==> Matching(f.keys, p)[j] == Join(p, NatToString(j))
    ensures p !in f.vals && ChildKeys(p, f) != [] && AllNumeric(ChildKeys(p, f))
    ensures forall j :: 0 <= j < m ==> ChildKeys(p, f)[j] == NatToString(j)
  {
    var ks := Matching(f.keys, p);
    PathNotStored(p, f, ks);
    var cs := ChildKeys(p, f);
    forall j | 0 <= j < m ensures cs[j] == NatToString(j) && ParseInt(cs[j]).Some? {
      assert ks[j] == p + "." + NatToString(j) + [];
      ChildSegmentOfJoin(p, NatToString(j), []);
      ParseNatToString(j);
    }
  }

  lemma RebuildFlattenedObject(p: string, n: Node, f: Flattened)
    requires p != [] && n.Object? && Canonical(n)
    requires Matching(f.keys, p) == KeysOf(Leaves(p, n))
    requires forall t :: 0 <= t < |n.fields| ==> Rebuild(p + "." + n.fields[t].0, f) == n.fields[t].1
    ensures Rebuild(p, f) == n
  {
    ObjectShape(p, n, f);
    RebuildObject(p, f);
    var r := Rebuild(p, f);
    assert |FieldKeys(r.fields)| == |n.fields|;
    forall t | 0 <= t < |n.fields| ensures r.fields[t] == n.fields[t] {
      assert FieldKeys(r.fields)[t] == n.fields[t].0;
    }
    SameFields(r, n);
  }

  lemma SameFields(r: Node, n: Node)
    requires r.Object? && n.Object? && |r.fields| == |n.fields|
    requires forall t :: 0 <= t < |n.fields| ==> r.fields[t] == n.fields[t]
    ensures r == n
  {
    assert r.fields == n.fields;
  }

  /** The child segments below `p` are the object's keys, at least one of them not numeric. */
  lemma ObjectShape(p: string, n: Node, f: Flattened)
    requires p != [] && n.Object? && Canonical(n)
    requires Matching(f.keys, p) == KeysOf(Leaves(p, n))
    ensures p !in f.vals
    ensures ChildKeys(p, f) != [] && !AllNumeric(ChildKeys(p, f))
    ensures Dedup(ChildKeys(p, f)) == KeyList(n, ChildCount(n))
  {
    var m := ChildCount(n);
    var ks := Matching(f.keys, p);
    var cs := KeyList(n, m);
    ObjectLeavesOk(p, n, m);
    assert Dedup(Segments(ks, p)) == cs by {
      GroupsBridge(p, n, m);
      ObjectGroups(p, n);
      ConcatSegments(Groups(p, n, m), cs, p);
    }
    assert p !in f.vals by {
      forall k | k in ks ensures |k| > |p| {
        KeysOfMember(Leaves(p, n), k);
        ChildLeafShape(p, n, m);
      }
      PathNotStored(p, f, ks);
    }
    var i0 :| 0 <= i0 < |n.fields| && ParseInt(n.fields[i0].0).None?;
    assert cs[i0] in Dedup(Segments(ks, p));
  }

  lemma {:induction false} PutAllDistinct(es: seq<Entry>)
    requires Distinct(FieldKeys(es))
    ensures PutAll(Empty, es).keys == FieldKeys(es)
    ensures Holds(PutAll(Empty, es), es)
  {
    if es != [] {
      var init := es[..|es| - 1];
      assert FieldKeys(init) == FieldKeys(es)[..|es| - 1];
      PutAllDistinct(init);
      assert FieldKeys(es)[|es| - 1] !in FieldKeys(init);
      forall e | e in es ensures e.0 in PutAll(Empty, es).vals && PutAll(Empty, es).vals[e.0] == e.1 {
        var j :| 0 <= j < |es| && es[j] == e;
        PutAllLastWins(Empty, es, j);
      }
    }
  }

  /**
   * Round trip at the top level: for an object whose keys are free of dots
   * and prefix-free and whose children are canonical, rebuilding at a
   * non-empty top-level key of its flattening gives back that child.
   */
  lemma FlattenRebuildField(d: Data, i: nat)
    requires d.Object? && CanonicalFields(d) && i < |d.fields| && d.fields[i].0 != []
    ensures FlattenOf(d).Ok?
    ensures Rebuild(d.fields[i].0, FlattenOf(d).value) == d.fields[i].1
  {
    var m := ChildCount(d);
    ObjectLeavesOk("", d, m);
    var es := Leaves("", d).value;
    var f := PutAll(Empty, es);
    forall t | 0 <= t < m ensures Join("", ChildKey(d, t)) != [] {
      if t != i {
        assert !StartsWith(ChildKey(d, i), ChildKey(d, t));
      }
    }
    ObjectKeysDistinct("", d);
    PutAllDistinct(es);
    MatchingAll(f.keys, "");
    GroupMatching("", d, f, i);
    RebuildFlattened(d.fields[i].0, Child(d, i), f);
  }
}
