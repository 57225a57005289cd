/**
 * The provider: owns the live state tree, keeps the last snapshot it has
 * announced, and hands every non-empty change list to its `sendChanges`
 * sink. The sink is recorded as an outbox, one entry per call, in order.
 */
module Provider {
  import opened Wrappers
  import opened Types
  import opened Flattener
  import Differ
  import Patcher

  class JsonSyncProvider {
    /** The caller's state tree, which the caller keeps changing in place between syncs. */
    var data: Data
    /** `currentState`: the flat record most recently announced. */
    var snapshot: Flattened
    /** Every change list passed to `sendChanges`, oldest first. */
    var outbox: seq<seq<Change>>

    constructor (source: Data, initial: Flattened)
      requires FlattenOf(source) == Ok(initial)
      ensures data == source && snapshot == initial && outbox == []
    {
      data := source;
      snapshot := initial;
      outbox := [];
    }

    /**
     * `sync()`: flatten the live tree, diff it against the snapshot, and
     * only when something changed adopt it and send the diff. A tree that
     * cannot be flattened throws before anything is touched.
     */
    method Sync() returns (r: Outcome<FlattenError>)
      modifies this
      ensures data == old(data)
      ensures FlattenOf(data).Err? ==>
                r == Fail(FlattenOf(data).error) && snapshot == old(snapshot) && outbox == old(outbox)
      ensures FlattenOf(data).Ok? ==>
                var changes := Differ.DiffOf(old(snapshot), FlattenOf(data).value);
                && r == Pass
                && (changes != [] ==> snapshot == FlattenOf(data).value && outbox == old(outbox) + [changes])
                && (changes == [] ==> snapshot == old(snapshot) && outbox == old(outbox))
      ensures FlattenOf(data).Ok? ==> snapshot.vals == FlattenOf(data).value.vals
      ensures outbox != old(outbox) ==> Patcher.Patched(old(snapshot), outbox[|outbox| - 1]).vals == snapshot.vals
    {
      var probablyChanged := Flatten(data);
      match probablyChanged {
        case Err(e) =>
          r := Fail(e);
        case Ok(f) =>
          var changes := Differ.Diff(snapshot, f);
          Differ.DiffEmptyIff(snapshot, f);
          Differ.PatchDiff(snapshot, f);
          if |changes| > 0 {
            snapshot := f;
            outbox := outbox + [changes];
          }
          r := Pass;
      }
    }

    /**
     * `syncChanges(changes)`: relay a change list that was computed
     * elsewhere. An empty list is ignored; otherwise the snapshot is patched
     * with it and the identical list is sent.
     */
    method SyncChanges(changes: seq<Change>)
      modifies this
      ensures data == old(data)
      ensures changes == [] ==> snapshot == old(snapshot) && outbox == old(outbox)
      ensures changes != [] ==>
                snapshot == Patcher.Patched(old(snapshot), changes) && outbox == old(outbox) + [changes]
    {
      if |changes| == 0 {
        return;
      }
      snapshot := Patcher.ApplyChanges(snapshot, changes);
      outbox := outbox + [changes];
    }

    /** `getState()`: the announced snapshot. */
    method GetState() returns (s: Flattened)
      ensures s == snapshot
    {
      s := snapshot;
    }
  }

  /**
   * `makeJsonSyncProvider(data, …)`: flatten the tree once to seed the
   * snapshot; a tree that cannot be flattened makes the factory throw.
   */
  method MakeJsonSyncProvider(data: Data) returns (r: Result<JsonSyncProvider, FlattenError>)
    ensures FlattenOf(data).Err? ==> r == Err(FlattenOf(data).error)
    ensures FlattenOf(data).Ok? ==>
              && r.Ok? && fresh(r.value)
              && r.value.data == data && r.value.snapshot == FlattenOf(data).value && r.value.outbox == []
  {
    var initial := Flatten(data);
    match initial {
      case Err(e) =>
        r := Err(e);
      case Ok(f) =>
        var p := new JsonSyncProvider(data, f);
        r := Ok(p);
    }
  }
}
