/**
 * Worked examples of `rebuild` on small records, each showing one way its
 * raw string tests make it differ from the inverse of `flatten`.
 */
module RebuildExamples {
  import opened Wrappers
  import opened Types
  import opened Strings
  import opened Rebuilder
  import opened Flattener

  /** The record `{foo: "bar"}`. */
  function FooBar(): (f: Flattened)
    ensures f.keys == ["foo"] && f.vals == map["foo" := Str("bar")]
  {
    FlatMap(["foo"], map["foo" := Str("bar")])
  }

  /** The state `{foo: "bar"}`. */
  function FooBarData(): (d: Data)
    ensures d.Object? && |d.fields| == 1 && d.fields[0] == ("foo", Scalar(Str("bar")))
  {
    Object([("foo", Scalar(Str("bar")))])
  }

  /** Flattening `{foo: "bar"}` gives the record `{foo: "bar"}`. */
  lemma FlattenFooBar()
    ensures FlattenOf(FooBarData()) == Ok(FooBar())
  {
    var d := FooBarData();
    var es: seq<Entry> := [("foo", Str("bar"))];
    assert Join("", ChildKey(d, 0)) == "foo";
    assert Leaves("foo", Child(d, 0)) == Ok(es);
    assert ChildLeaves("", d, 0) == Ok([]);
    assert [] + es == es;
    assert Leaves("", d) == Ok(es);
    assert es[..0] == [];
    assert PutAll(Empty, es) == Put(Empty, "foo", Str("bar"));
    assert Empty.keys + ["foo"] == ["foo"];
    assert Empty.vals["foo" := Str("bar")] == map["foo" := Str("bar")];
  }

  lemma FooBarChildKeys(f: Flattened)
    requires f.keys == ["foo"] && f.vals == map["foo" := Str("bar")]
    ensures "" !in f.vals
    ensures ChildKeys("", f) == ["oo"]
    ensures !AllNumeric(ChildKeys("", f))
  {
    assert ParseInt("oo").None?;
    assert StartsWith("foo", "");
    assert Drop("foo", 1) == "oo";
    assert FirstSegment("oo") == "oo" by {
      assert FirstSegment("o") == "o";
    }
    assert Matching(f.keys, "") == ["foo"];
  }

  lemma FooBarBelowOo(f: Flattened)
    requires f.keys == ["foo"] && f.vals == map["foo" := Str("bar")]
    ensures Rebuild("" + "." + "oo", f) == Array([])
  {
    assert "" + "." + "oo" == ".oo";
    assert !StartsWith("foo", ".oo") by {
      assert "foo"[..3][0] != ".oo"[0];
    }
    RebuildMissing(".oo", f);
  }

  /**
   * At the empty root path the first character of every key is skipped:
   * `rebuild("", {foo: "bar"})` is `{oo: []}`, not `{foo: "bar"}`.
   */
  lemma RootLosesFirstCharacter()
    ensures Rebuild("", FooBar()) == Object([("oo", Array([]))])
  {
    RootFields(FooBar());
    FooBarBelowOo(FooBar());
  }

  lemma RootFields(f: Flattened)
    requires f.keys == ["foo"] && f.vals == map["foo" := Str("bar")]
    ensures Rebuild("", f) == Object([("oo", Rebuild("" + "." + "oo", f))])
  {
    FooBarChildKeys(f);
    assert ParseInt("oo").None?;
    RebuildOneField("", f, "oo");
  }

  /** So rebuilding the whole state from the root does not give it back. */
  lemma RootRoundTripFails()
    ensures FlattenOf(FooBarData()).Ok?
    ensures Rebuild("", FlattenOf(FooBarData()).value) != FooBarData()
  {
    FlattenFooBar();
    RootLosesFirstCharacter();
  }

  // ---------------------------------------------------------------------
  // A sibling whose name extends the path.

  /** The record `{bazooka: 1}`. */
  function Bazooka(): (f: Flattened)
    ensures f.keys == ["bazooka"] && f.vals == map["bazooka" := Num(1)]
  {
    FlatMap(["bazooka"], map["bazooka" := Num(1)])
  }

  lemma BazookaChildKeys()
    ensures "baz" !in Bazooka().vals
    ensures ChildKeys("baz", Bazooka()) == ["oka"]
  {
    assert "bazooka"[..3] == "baz";
    assert Drop("bazooka", 4) == "oka";
    assert FirstSegment("oka") == "oka" by {
      assert FirstSegment("a") == "a";
      assert FirstSegment("ka") == "ka";
    }
    assert Matching(Bazooka().keys, "baz") == ["bazooka"];
  }

  lemma BazookaBelowOka()
    ensures Rebuild("baz" + "." + "oka", Bazooka()) == Array([])
  {
    assert "baz" + "." + "oka" == "baz.oka";
    assert !StartsWith("bazooka", "baz.oka") by {
      assert "bazooka"[..7][3] != "baz.oka"[3];
    }
    RebuildMissing("baz.oka", Bazooka());
  }

  /**
   * `rebuild("baz", {bazooka: 1})` is `{oka: []}`: the key "bazooka" passes
   * the raw prefix test for "baz" although it is no descendant of it, while
   * a path nothing lies below would give `[]`.
   */
  lemma SiblingPollutes()
    ensures Rebuild("baz", Bazooka()) == Object([("oka", Array([]))])
  {
    BazookaChildKeys();
    BazookaBelowOka();
    assert ParseInt("oka").None?;
    RebuildOneField("baz", Bazooka(), "oka");
  }

  // ---------------------------------------------------------------------
  // An array of objects.

  /** The record `{"a.0.x": 1, "a.0.y": 2}`, what `{a: [{x: 1, y: 2}]}` flattens to. */
  function ArrayOfObject(): (f: Flattened)
    ensures f.keys == ["a.0.x", "a.0.y"] && f.vals == map["a.0.x" := Num(1), "a.0.y" := Num(2)]
  {
    FlatMap(["a.0.x", "a.0.y"], map["a.0.x" := Num(1), "a.0.y" := Num(2)])
  }

  lemma ArrayOfObjectMatching()
    ensures "a" !in ArrayOfObject().vals
    ensures Matching(ArrayOfObject().keys, "a") == ["a.0.x", "a.0.y"]
  {
    var ks := ArrayOfObject().keys;
    assert StartsWith("a.0.x", "a") && StartsWith("a.0.y", "a");
    assert ks[..1] == ["a.0.x"];
    assert ks[..1][..0] == [];
    assert Matching(ks[..1], "a") == ["a.0.x"];
  }

  lemma ZeroSegments()
    ensures ChildSegment("a.0.x", "a") == "0" && ChildSegment("a.0.y", "a") == "0"
  {
    assert Drop("a.0.x", 2) == "0.x" && Drop("a.0.y", 2) == "0.y";
    assert FirstSegment("0.x") == "0" && FirstSegment("0.y") == "0";
  }

  lemma ArrayOfObjectChildKeys()
    ensures "a" !in ArrayOfObject().vals
    ensures Matching(ArrayOfObject().keys, "a") == ["a.0.x", "a.0.y"]
    ensures ChildKeys("a", ArrayOfObject()) == ["0", "0"]
  {
    ArrayOfObjectMatching();
    ZeroSegments();
    var ms: seq<string> := ["a.0.x", "a.0.y"];
    var cs := Segments(ms, "a");
    assert |cs| == 2 && cs[0] == "0" && cs[1] == "0";
  }

  lemma ZeroIndex()
    ensures ParseInt("0") == Some(0)
    ensures "a" + "." + NatToString(0) == "a.0"
  {
    assert DigitRun("0") == "0";
    assert NatToString(0) == "0";
  }

  /**
   * The array branch does not merge segments: the one object of
   * `{a: [{x: 1, y: 2}]}` comes back twice, once per key below it.
   */
  lemma ArrayElementRepeated()
    ensures Rebuild("a", ArrayOfObject()).Array?
    ensures Rebuild("a", ArrayOfObject()).items == [Rebuild("a.0", ArrayOfObject()), Rebuild("a.0", ArrayOfObject())]
  {
    var f := ArrayOfObject();
    ArrayOfObjectChildKeys();
    ZeroSegments();
    ZeroIndex();
    var ms := Matching(f.keys, "a");
    assert ms[0] == "a.0.x" && ms[1] == "a.0.y";
    RebuildArray("a", f);
    var items := Rebuild("a", f).items;
    assert |items| == 2;
    assert items[0] == Rebuild("a" + "." + NatToString(ParseInt(ChildSegment(ms[0], "a")).value), f);
    assert items[1] == Rebuild("a" + "." + NatToString(ParseInt(ChildSegment(ms[1], "a")).value), f);
    Twice(items, Rebuild("a.0", f));
  }

  // ---------------------------------------------------------------------
  // A segment with a leading zero.

  /** The record `{"a.01": true}`. */
  function LeadingZero(): (f: Flattened)
    ensures f.keys == ["a.01"] && f.vals == map["a.01" := Bool(true)]
  {
    FlatMap(["a.01"], map["a.01" := Bool(true)])
  }

  lemma LeadingZeroChildKeys()
    ensures "a" !in LeadingZero().vals
    ensures Matching(LeadingZero().keys, "a") == ["a.01"]
    ensures ChildKeys("a", LeadingZero()) == ["01"]
  {
    assert "a.01"[..1] == "a";
    assert Drop("a.01", 2) == "01";
    assert FirstSegment("01") == "01" by {
      assert FirstSegment("1") == "1";
    }
  }

  lemma LeadingZeroBelowOne()
    ensures Rebuild("a" + "." + NatToString(1), LeadingZero()) == Array([])
  {
    assert NatToString(1) == "1";
    assert "a" + "." + "1" == "a.1";
    assert !StartsWith("a.01", "a.1") by {
      assert "a.01"[..3][2] != "a.1"[2];
    }
    RebuildMissing("a.1", LeadingZero());
  }

  /**
   * The element is looked up at the number the segment parses as: "01" is
   * read as 1, "a.1" holds nothing, and the stored `true` is lost.
   */
  lemma LeadingZeroLost()
    ensures Rebuild("a", LeadingZero()) == Array([Array([])])
  {
    var f := LeadingZero();
    LeadingZeroChildKeys();
    LeadingZeroParse();
    LeadingZeroBelowOne();
    var ms := Matching(f.keys, "a");
    assert ms[0] == "a.01";
    RebuildArray("a", f);
    var items := Rebuild("a", f).items;
    assert |items| == 1;
    assert items[0] == Rebuild("a" + "." + NatToString(ParseInt(ChildSegment(ms[0], "a")).value), f);
    Once(items, Array([]));
  }

  lemma LeadingZeroParse()
    ensures ChildSegment("a.01", "a") == "01"
    ensures ParseInt("01") == Some(1)
  {
    assert Drop("a.01", 2) == "01";
    assert FirstSegment("01") == "01" by {
      assert FirstSegment("1") == "1";
    }
    assert DigitRun("01") == "01" by {
      assert DigitRun("1") == "1";
    }
    assert DigitsValue("01") == 1 by {
      assert "01"[..1] == "0";
      assert DigitsValue("0") == 0;
    }
  }

  lemma Once<T>(s: seq<T>, x: T)
    requires |s| == 1 && s[0] == x
    ensures s == [x]
  {
  }

  lemma Twice<T>(s: seq<T>, x: T)
    requires |s| == 2 && s[0] == x && s[1] == x
    ensures s == [x, x]
  {
  }
}
