/**
 * The receiver: holds a replica of the provider's flat record, refuses to
 * work before it has been given one, and tells path listeners when a change
 * list touched something under the path they watch. Listener callbacks are
 * recorded as a notification log; an unsubscribe handle is the listener's id.
 */
module Receiver {
  import opened Wrappers
  import opened Types
  import opened Strings
  import opened Rebuilder
  import Patcher

  /** The two errors the receiver throws when used before `setState`. */
  datatype ReceiverError = ApplyBeforeSetState | GetValueBeforeSetState

  /** A registered path listener: its handle and the path it watches. */
  datatype Listener = Listener(id: nat, path: string)

  /** One invocation of a listener callback, with the value it was passed. */
  datatype Notification = Notification(id: nat, value: Node)

  /** `tryPaths.find(tryPath => tryPath.startsWith(path))`: the first path under the raw prefix. */
  function FirstMatch(paths: seq<string>, path: string): (r: Option<string>)
    ensures r.Some? ==> r.value in paths && StartsWith(r.value, path)
    ensures r.Some? ==> exists i :: 0 <= i < |paths| && paths[i] == r.value &&
                          forall j :: 0 <= j < i ==> !StartsWith(paths[j], path)
    ensures r.None? ==> forall p :: p in paths ==> !StartsWith(p, path)
  {
    if paths == [] then None
    else if StartsWith(paths[0], path) then Some(paths[0])
    else
      assert forall p :: p in paths ==> p == paths[0] || p in paths[1..];
      var r := FirstMatch(paths[1..], path);
      if r.Some? then
        var i :| 0 <= i < |paths[1..]| && paths[1..][i] == r.value &&
                 forall j :: 0 <= j < i ==> !StartsWith(paths[1..][j], path);
        assert forall j :: 0 <= j < i + 1 ==> !StartsWith(paths[j], path) by {
          forall j | 0 <= j < i + 1 ensures !StartsWith(paths[j], path) {
            if j > 0 { assert paths[j] == paths[1..][j - 1]; }
          }
        }
        assert paths[i + 1] == r.value;
        r
      else r
  }

  /**
   * A path listener goes on to call its callback unless `find` came back
   * falsy: with no match, or with the empty string as the first match.
   */
  predicate Fires(path: string, paths: seq<string>) {
    var m := FirstMatch(paths, path);
    m.Some? && m.value != ""
  }

  /** The callbacks one `applyChanges` makes, listener by listener, with the patched record `f`. */
  function Notifications(ls: seq<Listener>, paths: seq<string>, f: Flattened): (ns: seq<Notification>)
    ensures |ns| <= |ls|
  {
    if ls == [] then []
    else
      var l := ls[|ls| - 1];
      Notifications(ls[..|ls| - 1], paths, f) +
        if Fires(l.path, paths) then [Notification(l.id, Rebuild(l.path, f))] else []
  }

  function Ids(ls: seq<Listener>): (ids: seq<nat>)
    ensures |ids| == |ls|
    ensures forall i :: 0 <= i < |ls| ==> ids[i] == ls[i].id
  {
    if ls == [] then [] else Ids(ls[..|ls| - 1]) + [ls[|ls| - 1].id]
  }

  function NotifiedIds(ns: seq<Notification>): (ids: seq<nat>)
    ensures |ids| == |ns|
    ensures forall i :: 0 <= i < |ns| ==> ids[i] == ns[i].id
  {
    if ns == [] then [] else NotifiedIds(ns[..|ns| - 1]) + [ns[|ns| - 1].id]
  }

  /** `listeners.delete(pathListener)`: the listeners without the one with this handle. */
  function Unlisted(ls: seq<Listener>, id: nat): (r: seq<Listener>)
    ensures forall l :: l in r <==> l in ls && l.id != id
  {
    if ls == [] then []
    else
      var rest := Unlisted(ls[..|ls| - 1], id);
      var l := ls[|ls| - 1];
      assert forall x :: x in ls <==> x in ls[..|ls| - 1] || x == l;
      if l.id == id then rest else rest + [l]
  }

  /**
   * The bookkeeping of handles: registered handles are distinct, were issued
   * (are below the next one) and have not been called; called handles were
   * issued.
   */
  ghost predicate Registry(ls: seq<Listener>, nextId: nat, retired: set<nat>) {
    && Distinct(Ids(ls))
    && (forall l :: l in ls ==> l.id < nextId && l.id !in retired)
    && (forall id :: id in retired ==> id < nextId)
  }

  /** Registering a listener under the next handle keeps the bookkeeping. */
  lemma RegistryWatch(ls: seq<Listener>, nextId: nat, retired: set<nat>, path: string)
    requires Registry(ls, nextId, retired)
    ensures nextId !in Ids(ls)
    ensures Ids(ls + [Listener(nextId, path)]) == Ids(ls) + [nextId]
    ensures Registry(ls + [Listener(nextId, path)], nextId + 1, retired)
  {
    IdsMembers(ls, nextId);
    IdsAppend(ls, Listener(nextId, path));
    var ls' := ls + [Listener(nextId, path)];
    assert forall l :: l in ls' ==> l in ls || l == Listener(nextId, path);
  }

  /** Calling an issued handle keeps the bookkeeping. */
  lemma RegistryUnsubscribe(ls: seq<Listener>, nextId: nat, retired: set<nat>, id: nat)
    requires Registry(ls, nextId, retired) && id < nextId
    ensures Registry(Unlisted(ls, id), nextId, retired + {id})
  {
    UnlistedDistinct(ls, id);
  }

  class JsonSyncReceiver {
    /** `currentState`: `None` until `setState` is called. */
    var state: Option<Flattened>
    /** The listener set, in insertion order (the order a `Set` is iterated in). */
    var listeners: seq<Listener>
    /** The handle the next `watchPath` hands out. */
    var nextId: nat
    /** Every callback invocation so far, oldest first. */
    var log: seq<Notification>
    /** The handles that have been called to unsubscribe. */
    ghost var retired: set<nat>

    ghost predicate Valid()
      reads this
    {
      Registry(listeners, nextId, retired)
    }

    constructor ()
      ensures Valid()
      ensures state == None && listeners == [] && nextId == 0 && log == [] && retired == {}
    {
      state := None;
      listeners := [];
      nextId := 0;
      log := [];
      retired := {};
    }

    /** `setState(state)`: adopt a record wholesale. */
    method SetState(s: Flattened)
      requires Valid()
      modifies this
      ensures Valid()
      ensures state == Some(s)
      ensures listeners == old(listeners) && nextId == old(nextId) && log == old(log) && retired == old(retired)
    {
      state := Some(s);
    }

    /**
     * `applyChanges(changes)`: patch the replica, then offer the touched
     * paths to every listener in turn; a listener that fires is passed the
     * value rebuilt at its path from the patched replica.
     */
    method ApplyChanges(changes: seq<Change>) returns (r: Outcome<ReceiverError>)
      requires Valid()
      modifies this
      ensures Valid()
      ensures listeners == old(listeners) && nextId == old(nextId) && retired == old(retired)
      ensures old(state).None? ==> r == Fail(ApplyBeforeSetState) && state == old(state) && log == old(log)
      ensures old(state).Some? ==>
                && r == Pass
                && state == Some(Patcher.Patched(old(state).value, changes))
                && log == old(log) + Notifications(listeners, Paths(changes), state.value)
      ensures forall i :: |old(log)| <= i < |log| ==> log[i].id !in retired
    {
      if state.None? {
        return Fail(ApplyBeforeSetState);
      }
      var patched := Patcher.ApplyChanges(state.value, changes);
      var paths := Paths(changes);
      var delivered := Deliver(listeners, paths, patched);
      NotifiedRegistered(listeners, paths, patched, retired);
      AppendedFrom(log, delivered, log + delivered, retired);
      state := Some(patched);
      log := log + delivered;
      r := Pass;
    }

    /** `watchPath(path, listener)`: register a listener and hand back its handle. */
    method WatchPath(path: string) returns (id: nat)
      requires Valid()
      modifies this
      ensures Valid()
      ensures id == old(nextId) && id !in Ids(old(listeners))
      ensures listeners == old(listeners) + [Listener(id, path)] && nextId == old(nextId) + 1
      ensures state == old(state) && log == old(log) && retired == old(retired)
    {
      id := nextId;
      var ls := listeners;
      RegistryWatch(ls, id, retired, path);
      listeners := ls + [Listener(id, path)];
      nextId := id + 1;
    }

    /**
     * Calling the handle `watchPath` returned: drop that listener, reporting
     * whether it was still registered.
     */
    method Unsubscribe(id: nat) returns (removed: bool)
      requires Valid() && id < nextId
      modifies this
      ensures Valid()
      ensures removed <==> id in Ids(old(listeners))
      ensures listeners == Unlisted(old(listeners), id)
      ensures retired == old(retired) + {id}
      ensures state == old(state) && nextId == old(nextId) && log == old(log)
    {
      var ls := listeners;
      IdsMembers(ls, id);
      removed := id in Ids(ls);
      RegistryUnsubscribe(ls, nextId, retired, id);
      listeners := Unlisted(ls, id);
      retired := retired + {id};
    }

    /** `getValue(path)`: the value rebuilt at the path from the replica. */
    method GetValue(path: string) returns (r: Result<Node, ReceiverError>)
      ensures state.None? ==> r == Err(GetValueBeforeSetState)
      ensures state.Some? ==> r == Ok(Rebuild(path, state.value))
    {
      if state.None? {
        return Err(GetValueBeforeSetState);
      }
      r := Ok(Rebuild(path, state.value));
    }
  }

  /**
   * The loop of `applyChanges`: each listener in registration order is
   * offered the touched paths and, when it fires, receives the value rebuilt
   * at its path.
   */
  method Deliver(ls: seq<Listener>, paths: seq<string>, f: Flattened) returns (delivered: seq<Notification>)
    ensures delivered == Notifications(ls, paths, f)
  {
    delivered := [];
    var i := 0;
    while i < |ls|
      invariant i <= |ls|
      invariant delivered == Notifications(ls[..i], paths, f)
    {
      var l := ls[i];
      NotificationsStep(ls, i, paths, f);
      var m := FirstMatch(paths, l.path);
      if m.Some? && m.value != "" {
        delivered := delivered + [Notification(l.id, Rebuild(l.path, f))];
      }
      i := i + 1;
    }
    assert ls[..i] == ls;
  }

  // ---------------------------------------------------------------------
  // When a listener fires.

  /** Below a non-empty path, a listener fires exactly when some touched path starts with its path. */
  lemma FiresIff(path: string, paths: seq<string>)
    requires path != ""
    ensures Fires(path, paths) <==> exists p :: p in paths && StartsWith(p, path)
  {
    var m := FirstMatch(paths, path);
    if m.Some? {
      assert |m.value| >= |path|;
    }
  }

  /**
   * A listener on the empty path fires exactly when the first touched path is
   * not itself empty, since `find` then hands back that first path.
   */
  lemma RootFires(paths: seq<string>)
    ensures Fires("", paths) <==> paths != [] && paths[0] != ""
  {
    if paths != [] {
      assert StartsWith(paths[0], "");
    }
  }

  // ---------------------------------------------------------------------
  // What one `applyChanges` calls.

  /**
   * The callbacks made are exactly one per listener that fires, carrying
   * that listener's handle and the value rebuilt at its path.
   */
  lemma {:induction false} NotificationMembers(ls: seq<Listener>, paths: seq<string>, f: Flattened, n: Notification)
    ensures n in Notifications(ls, paths, f) <==>
              exists l :: l in ls && Fires(l.path, paths) && n == Notification(l.id, Rebuild(l.path, f))
  {
    if ls != [] {
      var init := ls[..|ls| - 1];
      var l := ls[|ls| - 1];
      NotificationMembers(init, paths, f, n);
      assert forall x :: x in ls <==> x in init || x == l;
    }
  }

  /** Listeners with distinct handles are each called at most once. */
  lemma {:induction false} NotifiedAtMostOnce(ls: seq<Listener>, paths: seq<string>, f: Flattened)
    requires Distinct(Ids(ls))
    ensures Distinct(NotifiedIds(Notifications(ls, paths, f)))
  {
    if ls != [] {
      var init := ls[..|ls| - 1];
      var l := ls[|ls| - 1];
      assert Ids(init) == Ids(ls)[..|ls| - 1];
      NotifiedAtMostOnce(init, paths, f);
      var prev := Notifications(init, paths, f);
      forall k | k in init ensures k.id !in {l.id} {
        var a :| 0 <= a < |init| && init[a] == k;
        assert Ids(ls)[a] == k.id && Ids(ls)[|ls| - 1] == l.id;
      }
      NotifiedRegistered(init, paths, f, {l.id});
      if Fires(l.path, paths) {
        NotifiedSnoc(prev, Notification(l.id, Rebuild(l.path, f)), Notifications(ls, paths, f));
      } else {
        assert Notifications(ls, paths, f) == prev;
      }
    }
  }

  lemma NotifiedSnoc(prev: seq<Notification>, n: Notification, cur: seq<Notification>)
    requires cur == prev + [n]
    requires Distinct(NotifiedIds(prev)) && forall e :: e in prev ==> e.id != n.id
    ensures Distinct(NotifiedIds(cur))
  {
    var ids := NotifiedIds(cur);
    forall i, j | 0 <= i < j < |cur| ensures ids[i] != ids[j] {
      if j == |prev| {
        assert cur[i] in prev;
      } else {
        assert ids[i] == NotifiedIds(prev)[i] && ids[j] == NotifiedIds(prev)[j];
      }
    }
  }

  // ---------------------------------------------------------------------
  // Handles.

  lemma IdsMembers(ls: seq<Listener>, id: nat)
    ensures id in Ids(ls) <==> exists l :: l in ls && l.id == id
  {
    if id in Ids(ls) {
      var i :| 0 <= i < |ls| && Ids(ls)[i] == id;
      assert ls[i] in ls;
    }
    if exists l :: l in ls && l.id == id {
      var l :| l in ls && l.id == id;
      var i :| 0 <= i < |ls| && ls[i] == l;
      assert Ids(ls)[i] == id;
    }
  }

  lemma IdsAppend(ls: seq<Listener>, l: Listener)
    requires Distinct(Ids(ls)) && l.id !in Ids(ls)
    ensures Ids(ls + [l]) == Ids(ls) + [l.id]
    ensures Distinct(Ids(ls + [l]))
  {
    assert (ls + [l])[..|ls|] == ls;
  }

  lemma {:induction false} UnlistedDistinct(ls: seq<Listener>, id: nat)
    requires Distinct(Ids(ls))
    ensures Distinct(Ids(Unlisted(ls, id)))
  {
    if ls != [] {
      var init := ls[..|ls| - 1];
      var l := ls[|ls| - 1];
      assert Ids(init) == Ids(ls)[..|ls| - 1];
      UnlistedDistinct(init, id);
      if l.id != id {
        var rest := Unlisted(init, id);
        forall k | k in rest ensures k.id != l.id {
          var a :| 0 <= a < |init| && init[a] == k;
          assert Ids(ls)[a] == k.id && Ids(ls)[|ls| - 1] == l.id;
        }
        IdsMembers(rest, l.id);
        IdsAppend(rest, l);
      }
    }
  }

  lemma NotificationsStep(ls: seq<Listener>, i: nat, paths: seq<string>, f: Flattened)
    requires i < |ls|
    ensures Notifications(ls[..i + 1], paths, f) ==
              Notifications(ls[..i], paths, f) +
                if Fires(ls[i].path, paths) then [Notification(ls[i].id, Rebuild(ls[i].path, f))] else []
  {
    assert ls[..i + 1][..i] == ls[..i];
  }

  /** Only registered listeners are called: no callback carries a handle outside `ls`. */
  lemma NotifiedRegistered(ls: seq<Listener>, paths: seq<string>, f: Flattened, retired: set<nat>)
    requires forall l :: l in ls ==> l.id !in retired
    ensures forall n :: n in Notifications(ls, paths, f) ==> n.id !in retired
  {
    forall n | n in Notifications(ls, paths, f) ensures n.id !in retired {
      NotificationMembers(ls, paths, f, n);
    }
  }

  lemma AppendedFrom(before: seq<Notification>, added: seq<Notification>, after: seq<Notification>, retired: set<nat>)
    requires after == before + added
    requires forall n :: n in added ==> n.id !in retired
    ensures forall i :: |before| <= i < |after| ==> after[i].id !in retired
  {
    forall i | |before| <= i < |after| ensures after[i].id !in retired {
      assert after[i] == added[i - |before|];
    }
  }

  /** A lone listener is called once by an `applyChanges` that fires it and not at all otherwise. */
  lemma OneListener(l: Listener, paths: seq<string>, f: Flattened)
    ensures Notifications([l], paths, f) ==
              if Fires(l.path, paths) then [Notification(l.id, Rebuild(l.path, f))] else []
  {
    assert [l][..0] == [];
  }

  /** How many callbacks a lone listener gets: one when it fires, none otherwise. */
  lemma OneListenerCount(l: Listener, paths: seq<string>, f: Flattened)
    ensures |Notifications([l], paths, f)| == if Fires(l.path, paths) then 1 else 0
  {
    OneListener(l, paths, f);
  }

  /** Two listeners are called in the order they were added. */
  lemma TwoListeners(a: Listener, b: Listener, paths: seq<string>, f: Flattened)
    ensures Notifications([a, b], paths, f) == Notifications([a], paths, f) + Notifications([b], paths, f)
  {
    assert [a, b][..1] == [a];
    OneListener(b, paths, f);
  }

  /** A handle no longer registered is never passed a value. */
  lemma UnlistedSilent(ls: seq<Listener>, paths: seq<string>, f: Flattened, id: nat)
    ensures forall n :: n in Notifications(Unlisted(ls, id), paths, f) ==> n.id != id
  {
    forall n | n in Notifications(Unlisted(ls, id), paths, f) ensures n.id != id {
      NotificationMembers(Unlisted(ls, id), paths, f, n);
    }
  }

  /** Dropping one handle leaves the callbacks of every other listener as they were. */
  lemma UnlistedOthersUnaffected(ls: seq<Listener>, paths: seq<string>, f: Flattened, id: nat, n: Notification)
    requires n.id != id
    ensures n in Notifications(Unlisted(ls, id), paths, f) <==> n in Notifications(ls, paths, f)
  {
    NotificationMembers(Unlisted(ls, id), paths, f, n);
    NotificationMembers(ls, paths, f, n);
  }

  // ---------------------------------------------------------------------
  // The listeners of the repository's own scenarios.

  /**
   * A change to "baz.jack" fires both a "baz" and a "baz.jack" listener, and
   * a "bazooka" change fires the "baz" listener too.
   */
  lemma BazScenario()
    ensures Fires("baz", ["baz.jack"]) && Fires("baz.jack", ["baz.jack"])
    ensures Fires("baz", ["bazooka"])
    ensures !Fires("foo", ["baz.jack"])
  {
    assert "baz.jack"[..3] == "baz";
    assert "bazooka"[..3] == "baz";
    assert "baz.jack"[..3] != "foo";
  }
}
