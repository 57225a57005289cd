/**
 * The scenarios of the repository's tests. The array scenario: a `baz`
 * watcher over `{foo: "bar", baz: […]}`, after the first element is replaced
 * and after two elements are popped. The sync scenarios: the records the
 * provider compares are taken as parameters related the way each test edits
 * its state, and the lemmas follow the diff to the callbacks of the
 * receiver's listeners.
 */
module SyncScenarios {
  import opened Wrappers
  import opened Types
  import opened Strings
  import opened Flattener
  import opened Rebuilder
  import opened RoundTrip
  import Receiver
  import Differ
  import Patcher

  function Strs(ss: seq<string>): (ns: seq<Node>)
    ensures |ns| == |ss|
    ensures forall i :: 0 <= i < |ss| ==> ns[i] == Scalar(Str(ss[i]))
  {
    if ss == [] then [] else Strs(ss[..|ss| - 1]) + [Scalar(Str(ss[|ss| - 1]))]
  }

  /** The state `{foo: "bar", baz: items}`. */
  function FooBaz(items: seq<string>): (d: Data)
    ensures d.Object? && |d.fields| == 2
    ensures d.fields[0] == ("foo", Scalar(Str("bar"))) && d.fields[1] == ("baz", Array(Strs(items)))
  {
    Object([("foo", Scalar(Str("bar"))), ("baz", Array(Strs(items)))])
  }

  /** With a non-empty list of strings, `{foo, baz}` is one the round trip covers. */
  lemma FooBazCanonical(items: seq<string>)
    requires items != []
    ensures CanonicalFields(FooBaz(items))
  {
    var d := FooBaz(items);
    assert ChildKey(d, 0) == "foo" && ChildKey(d, 1) == "baz";
    assert !StartsWith("baz", "foo") by {
      assert "baz"[..3][0] != "foo"[0];
    }
    assert !StartsWith("foo", "baz") by {
      assert "foo"[..3][0] != "baz"[0];
    }
    assert Canonical(Child(d, 0));
    assert Canonical(Child(d, 1));
  }

  /** A `baz` watcher over `{foo: "bar", baz: items}` is passed exactly the array `items`. */
  lemma BazWatcherSees(items: seq<string>)
    requires items != []
    ensures FlattenOf(FooBaz(items)).Ok?
    ensures Rebuild("baz", FlattenOf(FooBaz(items)).value) == Array(Strs(items))
  {
    FooBazCanonical(items);
    FlattenRebuildField(FooBaz(items), 1);
  }

  /** Both change lists of the scenario touch a path under "baz". */
  lemma ArrayScenarioFires()
    ensures Receiver.Fires("baz", ["baz.0"]) && Receiver.Fires("baz", ["baz.2", "baz.3"])
  {
    assert "baz.0"[..3] == "baz";
    assert "baz.2"[..3] == "baz";
  }

  /**
   * After `state.baz[0] = 'bill'` (the test has `['bill', 'jack', 'sampson',
   * 'json']`) the watcher sees an array of as many elements, "bill" first.
   */
  lemma ArrayScenarioFirstCall(items: seq<string>)
    requires items != [] && items[0] == "bill"
    ensures FlattenOf(FooBaz(items)).Ok?
    ensures Rebuild("baz", FlattenOf(FooBaz(items)).value).Array?
    ensures |Rebuild("baz", FlattenOf(FooBaz(items)).value).items| == |items|
    ensures Rebuild("baz", FlattenOf(FooBaz(items)).value).items[0] == Scalar(Str("bill"))
  {
    BazWatcherSees(items);
  }

  /** After the two pops the watcher sees `['bill', 'jack']`. */
  lemma ArrayScenarioSecondCall(items: seq<string>)
    requires |items| == 2 && items[0] == "bill" && items[1] == "jack"
    ensures FlattenOf(FooBaz(items)).Ok?
    ensures Rebuild("baz", FlattenOf(FooBaz(items)).value) == Array([Scalar(Str("bill")), Scalar(Str("jack"))])
  {
    BazWatcherSees(items);
    var ns := Strs(items);
    assert ns == [ns[0], ns[1]];
  }

  // ---------------------------------------------------------------------
  // From the provider's diff to the receiver's callbacks.

  /** Replacing the value under one key of a record. */
  lemma ReplaceOne(r0: Flattened, r1: Flattened, k: string, v: Value)
    requires k in r0.vals && r0.vals[k] != v && r1.vals == r0.vals[k := v]
    ensures Differ.DiffOf(r0, r1) == [SetChange(k, v)]
    ensures Patcher.Patched(r0, Differ.DiffOf(r0, r1)).vals == r1.vals
  {
    assert r0.vals - {k} == r1.vals - {k};
    Differ.DiffOneValue(r0, r1, k);
    Differ.PatchDiff(r0, r1);
  }

  /**
   * The array test: `r0` is the record the receiver starts from, `r1` the
   * provider's after `state.baz[0] = 'bill'` (the element was "bob"), `r2`
   * after the two pops. The first diff is the one Set of "baz.0", the second
   * the two Deletes of "baz.2" and "baz.3" in some order, and a lone `baz`
   * watcher is called once per sync: twice in all.
   */
  lemma ArrayScenarioCalledTwice(r0: Flattened, r1: Flattened, r2: Flattened, id: nat)
    requires "baz.0" in r0.vals && r0.vals["baz.0"] == Str("bob")
    requires r1.vals == r0.vals["baz.0" := Str("bill")]
    requires "baz.2" in r1.vals && "baz.3" in r1.vals
    requires r2.vals == r1.vals - {"baz.2", "baz.3"}
    ensures Differ.DiffOf(r0, r1) == [SetChange("baz.0", Str("bill"))]
    ensures forall c :: c in Differ.DiffOf(r1, r2) <==> c == DeleteChange("baz.2") || c == DeleteChange("baz.3")
    ensures |Differ.DiffOf(r1, r2)| == 2
    ensures var w := [Receiver.Listener(id, "baz")];
            var s1 := Patcher.Patched(r0, Differ.DiffOf(r0, r1));
            var s2 := Patcher.Patched(s1, Differ.DiffOf(r1, r2));
            |Receiver.Notifications(w, Paths(Differ.DiffOf(r0, r1)), s1)| +
            |Receiver.Notifications(w, Paths(Differ.DiffOf(r1, r2)), s2)| == 2
  {
    ReplaceOne(r0, r1, "baz.0", Str("bill"));
    PopTwo(r1, r2);
    ArrayScenarioFires();
    var l := Receiver.Listener(id, "baz");
    var s1 := Patcher.Patched(r0, Differ.DiffOf(r0, r1));
    assert Paths([SetChange("baz.0", Str("bill"))]) == ["baz.0"];
    Receiver.OneListenerCount(l, ["baz.0"], s1);
    Receiver.OneListenerCount(l, Paths(Differ.DiffOf(r1, r2)), Patcher.Patched(s1, Differ.DiffOf(r1, r2)));
  }

  /** Two pops: the Deletes of "baz.2" and "baz.3", which fire a `baz` watcher. */
  lemma PopTwo(r1: Flattened, r2: Flattened)
    requires "baz.2" in r1.vals && "baz.3" in r1.vals
    requires r2.vals == r1.vals - {"baz.2", "baz.3"}
    ensures forall c :: c in Differ.DiffOf(r1, r2) <==> c == DeleteChange("baz.2") || c == DeleteChange("baz.3")
    ensures |Differ.DiffOf(r1, r2)| == 2
    ensures Receiver.Fires("baz", Paths(Differ.DiffOf(r1, r2)))
  {
    var d2 := Differ.DiffOf(r1, r2);
    assert "baz.2"[4] != "baz.3"[4];
    Differ.DiffRemovedTwo(r1, r2, "baz.2", "baz.3");
    Differ.PathsOfMembers(d2);
    assert DeleteChange("baz.2") in d2;
    assert StartsWith("baz.2", "baz") by {
      assert "baz.2"[..3] == "baz";
    }
    Receiver.FiresIff("baz", Paths(d2));
  }

  /** Which of the tests' watchers a one-path change list fires. */
  lemma FooFires()
    ensures Receiver.Fires("foo", ["foo"]) && !Receiver.Fires("baz.jack", ["foo"])
  {
    assert StartsWith("foo", "foo");
    assert !StartsWith("foo", "baz.jack");
  }

  lemma JackFires()
    ensures Receiver.Fires("baz.jack", ["baz.jack"]) && !Receiver.Fires("foo", ["baz.jack"])
    ensures Receiver.Fires("baz", ["baz.jack"])
  {
    assert StartsWith("baz.jack", "baz.jack");
    assert "baz.jack"[..3] == "baz";
    assert !StartsWith("baz.jack", "foo") by {
      assert "baz.jack"[..3][0] != "foo"[0];
    }
  }

  lemma JasonFires()
    ensures Receiver.Fires("baz.jason", ["baz.jason"])
  {
    assert StartsWith("baz.jason", "baz.jason");
  }

  /**
   * The two-listener test: after `state.foo = 'foo'` only the `foo` watcher
   * is called, after `state.baz.jack = true` only the `baz.jack` watcher.
   */
  lemma TwoWatchersScenario(r0: Flattened, r1: Flattened, r2: Flattened, fooId: nat, jackId: nat)
    requires "foo" in r0.vals && r0.vals["foo"] == Str("bar") && r1.vals == r0.vals["foo" := Str("foo")]
    requires "baz.jack" in r1.vals && r1.vals["baz.jack"] == Bool(false)
    requires r2.vals == r1.vals["baz.jack" := Bool(true)]
    ensures Differ.DiffOf(r0, r1) == [SetChange("foo", Str("foo"))]
    ensures Differ.DiffOf(r1, r2) == [SetChange("baz.jack", Bool(true))]
    ensures var ws := [Receiver.Listener(fooId, "foo"), Receiver.Listener(jackId, "baz.jack")];
            var s1 := Patcher.Patched(r0, Differ.DiffOf(r0, r1));
            var s2 := Patcher.Patched(s1, Differ.DiffOf(r1, r2));
            Receiver.Notifications(ws, ["foo"], s1) == [Receiver.Notification(fooId, Rebuild("foo", s1))] &&
            Receiver.Notifications(ws, ["baz.jack"], s2) == [Receiver.Notification(jackId, Rebuild("baz.jack", s2))]
  {
    assert "bar"[0] != "foo"[0];
    ReplaceOne(r0, r1, "foo", Str("foo"));
    ReplaceOne(r1, r2, "baz.jack", Bool(true));
    var s1 := Patcher.Patched(r0, Differ.DiffOf(r0, r1));
    var s2 := Patcher.Patched(s1, Differ.DiffOf(r1, r2));
    Watchers(Receiver.Listener(fooId, "foo"), Receiver.Listener(jackId, "baz.jack"), ["foo"], s1);
    Watchers(Receiver.Listener(fooId, "foo"), Receiver.Listener(jackId, "baz.jack"), ["baz.jack"], s2);
    FooFires();
    JackFires();
  }

  lemma Watchers(a: Receiver.Listener, b: Receiver.Listener, paths: seq<string>, f: Flattened)
    ensures Receiver.Notifications([a, b], paths, f) ==
              (if Receiver.Fires(a.path, paths) then [Receiver.Notification(a.id, Rebuild(a.path, f))] else []) +
              (if Receiver.Fires(b.path, paths) then [Receiver.Notification(b.id, Rebuild(b.path, f))] else [])
  {
    Receiver.TwoListeners(a, b, paths, f);
    Receiver.OneListener(a, paths, f);
    Receiver.OneListener(b, paths, f);
  }

  /**
   * The object test: after `state.baz.jack = false` both the `baz` watcher
   * and the `baz.jack` watcher are called, in the order they were added.
   */
  lemma ObjectWatchersScenario(r0: Flattened, r1: Flattened, bazId: nat, jackId: nat)
    requires "baz.jack" in r0.vals && r0.vals["baz.jack"] == Bool(true)
    requires r1.vals == r0.vals["baz.jack" := Bool(false)]
    ensures Differ.DiffOf(r0, r1) == [SetChange("baz.jack", Bool(false))]
    ensures var ws := [Receiver.Listener(bazId, "baz"), Receiver.Listener(jackId, "baz.jack")];
            var s1 := Patcher.Patched(r0, Differ.DiffOf(r0, r1));
            Receiver.Notifications(ws, ["baz.jack"], s1) ==
              [Receiver.Notification(bazId, Rebuild("baz", s1)), Receiver.Notification(jackId, Rebuild("baz.jack", s1))]
  {
    ReplaceOne(r0, r1, "baz.jack", Bool(false));
    var s1 := Patcher.Patched(r0, Differ.DiffOf(r0, r1));
    Watchers(Receiver.Listener(bazId, "baz"), Receiver.Listener(jackId, "baz.jack"), ["baz.jack"], s1);
    JackFires();
  }

  /**
   * The first test: after `state.baz.jason = 'Hi'` a `baz.jason` watcher is
   * called once, with "Hi".
   */
  lemma ValueScenario(r0: Flattened, r1: Flattened, id: nat)
    requires "baz.jason" in r0.vals && r0.vals["baz.jason"] == Str("Hello, World!")
    requires r1.vals == r0.vals["baz.jason" := Str("Hi")]
    ensures Differ.DiffOf(r0, r1) == [SetChange("baz.jason", Str("Hi"))]
    ensures var s1 := Patcher.Patched(r0, Differ.DiffOf(r0, r1));
            Receiver.Notifications([Receiver.Listener(id, "baz.jason")], ["baz.jason"], s1) ==
              [Receiver.Notification(id, Scalar(Str("Hi")))]
  {
    ReplaceOne(r0, r1, "baz.jason", Str("Hi"));
    var s1 := Patcher.Patched(r0, Differ.DiffOf(r0, r1));
    RebuildStored("baz.jason", s1);
    JasonFires();
    Receiver.OneListener(Receiver.Listener(id, "baz.jason"), ["baz.jason"], s1);
  }
}
