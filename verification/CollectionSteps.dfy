/** Recording a collection as a history of repository actions, none of which touches another source's path keys. */
module CollectionSteps {
  import opened Models
  import opened Ordering
  import opened Reconciliation
  import opened Store
  import opened Rsync
  import opened Resolver
  import opened Histories
  import opened Index
  import opened Collection

  /** What one item makes the repository do: store its bytes, observe them, or record that it is missing. */
  function ItemActions(r: Recording, req: Acquisition, item: InventoryItem): seq<Action> {
    var f := FetchOf(req, item);
    if r.error.Some? || f.None? then []
    else match f.value
      case Fetched(data, valid) =>
        [StoreContent(Sha256(data))] + if valid then [Reobserve(FileObservation(req, item, Sha256(data)))] else []
      case NotFound => [Miss(DirectAbsence(req, item))]
      case NoFile => []
      case OtherError => []
  }

  function AllItemActions(s: Store, req: Acquisition, items: seq<InventoryItem>): seq<Action> {
    if items == [] then []
    else
      var init := items[..|items| - 1];
      AllItemActions(s, req, init) + ItemActions(RecordItems(s, req, init), req, items[|items| - 1])
  }

  function RemovalActions(r: Recording, req: Acquisition, d: Decision): seq<Action> {
    if r.error.Some? || d.state != Gone || d.previous.None? then []
    else [Miss(Absence(d.artifactKey, req.source, req.run, req.operation, req.at, d.previous.value.sourcePath, None))]
  }

  function AllRemovalActions(r: Recording, req: Acquisition, decisions: seq<Decision>): seq<Action> {
    if decisions == [] then []
    else
      var init := decisions[..|decisions| - 1];
      AllRemovalActions(r, req, init) + RemovalActions(RecordRemovals(r, req, init), req, decisions[|decisions| - 1])
  }

  function TreeAction(r: Recording, req: Acquisition): Action {
    SaveTreeSnapshot(req.source, req.run, r.tree, req.inventory.coverage.complete && r.unresolved == 0,
                     req.inventory.coverage.scope, req.at, Evidence(None, None, None, r.contents, 0, r.absent))
  }

  function ConcludingActions(r: Recording, req: Acquisition): seq<Action> {
    if r.error.Some? then []
    else
      [TreeAction(r, req)]
      + if Conclude(r, req).snapshot.None? then [] else [Ingest(Execution(req))]
  }

  function CollectionActions(s: Store, req: Acquisition, decisions: seq<Decision>): seq<Action> {
    var r := RecordItems(s, req, req.inventory.items);
    AllItemActions(s, req, req.inventory.items)
    + AllRemovalActions(r, req, decisions)
    + ConcludingActions(RecordRemovals(r, req, decisions), req)
  }

  // ---- the actions lead to the same store -------------------------------------------------------------

  lemma {:induction false} Singly(rank: Snapshot -> int, s: Store, a: Action)
    ensures PerformAll(rank, s, [a]) == Perform(rank, s, a)
    ensures PerformAll(rank, s, []) == s
  {
    assert [a][..0] == [];
    assert PerformAll(rank, s, [a][..0]) == s;
  }

  lemma {:induction false} ItemPerforms(rank: Snapshot -> int, r: Recording, req: Acquisition, item: InventoryItem)
    ensures PerformAll(rank, r.store, ItemActions(r, req, item)) == RecordItem(r, req, item).store
  {
    var f := FetchOf(req, item);
    if r.error.None? && f.Some? {
      match f.value
      case Fetched(data, valid) =>
        var put, seen := StoreContent(Sha256(data)), Reobserve(FileObservation(req, item, Sha256(data)));
        Singly(rank, r.store, put);
        if valid {
          Singly(rank, Perform(rank, r.store, put), seen);
          PerformAllSplits(rank, r.store, [put], [seen]);
        } else {
          assert [put] + [] == [put];
        }
      case NotFound => Singly(rank, r.store, Miss(DirectAbsence(req, item)));
      case NoFile =>
      case OtherError =>
    }
  }

  lemma {:induction false} ItemsPerform(rank: Snapshot -> int, s: Store, req: Acquisition, items: seq<InventoryItem>)
    ensures PerformAll(rank, s, AllItemActions(s, req, items)) == RecordItems(s, req, items).store
  {
    if items != [] {
      var init, last := items[..|items| - 1], items[|items| - 1];
      ItemsPerform(rank, s, req, init);
      PerformAllSplits(rank, s, AllItemActions(s, req, init), ItemActions(RecordItems(s, req, init), req, last));
      ItemPerforms(rank, RecordItems(s, req, init), req, last);
    }
  }

  lemma {:induction false} RemovalsPerform(rank: Snapshot -> int, r: Recording, req: Acquisition,
        decisions: seq<Decision>)
    ensures PerformAll(rank, r.store, AllRemovalActions(r, req, decisions)) == RecordRemovals(r, req, decisions).store
  {
    if decisions != [] {
      var init, last := decisions[..|decisions| - 1], decisions[|decisions| - 1];
      var q := RecordRemovals(r, req, init);
      RemovalsPerform(rank, r, req, init);
      PerformAllSplits(rank, r.store, AllRemovalActions(r, req, init), RemovalActions(q, req, last));
      RemovalPerforms(rank, q, req, last);
    }
  }

  lemma {:induction false} RemovalPerforms(rank: Snapshot -> int, r: Recording, req: Acquisition, d: Decision)
    ensures PerformAll(rank, r.store, RemovalActions(r, req, d)) == RecordRemoval(r, req, d).store
  {
    if RemovalActions(r, req, d) != [] { Singly(rank, r.store, RemovalActions(r, req, d)[0]); }
  }

  lemma {:induction false} ConclusionPerforms(rank: Snapshot -> int, r: Recording, req: Acquisition)
    ensures PerformAll(rank, r.store, ConcludingActions(r, req)) == Conclude(r, req).recording.store
  {
    if r.error.None? {
      var tree := TreeAction(r, req);
      Singly(rank, r.store, tree);
      var t := Perform(rank, r.store, tree);
      if Conclude(r, req).snapshot.Some? {
        Singly(rank, t, Ingest(Execution(req)));
        PerformAllSplits(rank, r.store, [tree], [Ingest(Execution(req))]);
      } else {
        assert [tree] + [] == [tree];
      }
    }
  }

  /** A collection recording is a history of actions: whatever holds over all histories holds across it. */
  lemma {:induction false} CollectionIsHistory(rank: Snapshot -> int, s: Store, req: Acquisition,
        decisions: seq<Decision>)
    ensures PerformAll(rank, s, CollectionActions(s, req, decisions)) == RecordAll(s, req, decisions).recording.store
  {
    var r := RecordItems(s, req, req.inventory.items);
    var first, second := AllItemActions(s, req, req.inventory.items), AllRemovalActions(r, req, decisions);
    var q := RecordRemovals(r, req, decisions);
    ItemsPerform(rank, s, req, req.inventory.items);
    RemovalsPerform(rank, r, req, decisions);
    ConclusionPerforms(rank, q, req);
    PerformAllSplits(rank, s, first, second);
    PerformAllSplits(rank, s, first + second, ConcludingActions(q, req));
  }

  // ---- and leave the path keys of other sources alone ---------------------------------------------------

  /** The collection adapter names its items' artifacts after their ids. */
  ghost predicate ItemKeysFollowIds(req: Acquisition) {
    forall item | item in req.inventory.items :: item.artifactKey == ItemKey(req.source, item.itemId)
  }

  lemma ItemKeyIsRecorderKey(source: SourceId, itemId: string)
    ensures IsRecorderKey(source, ItemKey(source, itemId))
  {
    assert ItemKey(source, itemId)[..|"source:" + source + ":item:"|] == "source:" + source + ":item:";
  }

  lemma {:induction false} PreviousKeysFollowIds(source: SourceId, entries: seq<TreeEntry>)
    ensures forall p | p in PreviousIn(source, entries) :: p.artifactKey == ItemKey(source, p.itemId)
  {
    if entries != [] { PreviousKeysFollowIds(source, entries[..|entries| - 1]); }
  }

  lemma {:induction false} ItemActionsUnrelated(other: SourceId, s: Store, req: Acquisition, items: seq<InventoryItem>)
    requires forall item | item in items :: !OwnsKey(other, item.artifactKey)
    ensures forall a | a in AllItemActions(s, req, items) :: Unrelated(other, a)
  {
    if items != [] { ItemActionsUnrelated(other, s, req, items[..|items| - 1]); }
  }

  lemma {:induction false} RemovalActionsUnrelated(other: SourceId, r: Recording, req: Acquisition,
        decisions: seq<Decision>)
    requires forall d | d in decisions :: !OwnsKey(other, d.artifactKey)
    ensures forall a | a in AllRemovalActions(r, req, decisions) :: Unrelated(other, a)
  {
    if decisions != [] { RemovalActionsUnrelated(other, r, req, decisions[..|decisions| - 1]); }
  }

  lemma CollectionKeysAreForeign(other: SourceId, req: Acquisition)
    requires ':' !in other && ':' !in req.source
    ensures forall id :: !OwnsKey(other, ItemKey(req.source, id))
    ensures !OwnsKey(other, Execution(req).artifactKey)
  {
    forall id ensures !OwnsKey(other, ItemKey(req.source, id)) {
      ItemKeyIsRecorderKey(req.source, id);
      RecorderKeysAreNotOwned(other, req.source, ItemKey(req.source, id));
    }
    RecorderKeysAreNotOwned(other, req.source, Execution(req).artifactKey);
  }

  lemma ConclusionUnrelated(other: SourceId, r: Recording, req: Acquisition)
    requires other != req.source && !OwnsKey(other, Execution(req).artifactKey)
    ensures forall a | a in ConcludingActions(r, req) :: Unrelated(other, a)
  {
  }

  /** With ids free of colons, a collection recording is none of another source's business. */
  lemma {:induction false} CollectionIsUnrelated(rank: Snapshot -> int, other: SourceId, s: Store, req: Acquisition,
        decisions: seq<Decision>)
    requires ':' !in other && ':' !in req.source && other != req.source && ItemKeysFollowIds(req)
    requires IsReconciliation(req.inventory, CollectionBaseline(rank, s, req.source), decisions)
    ensures forall a | a in CollectionActions(s, req, decisions) :: Unrelated(other, a)
  {
    CollectionKeysAreForeign(other, req);
    forall d | d in decisions ensures !OwnsKey(other, d.artifactKey) {
      DecisionKey(rank, s, req, decisions, d);
    }
    var r := RecordItems(s, req, req.inventory.items);
    ItemActionsUnrelated(other, s, req, req.inventory.items);
    RemovalActionsUnrelated(other, r, req, decisions);
    ConclusionUnrelated(other, RecordRemovals(r, req, decisions), req);
  }

  lemma DecisionKey(rank: Snapshot -> int, s: Store, req: Acquisition, decisions: seq<Decision>, d: Decision)
    requires ItemKeysFollowIds(req) && d in decisions
    requires IsReconciliation(req.inventory, CollectionBaseline(rank, s, req.source), decisions)
    ensures d.artifactKey == ItemKey(req.source, d.itemId)
  {
    var found := FirstComplete(Newest(SnapshotsFor(rank, s, req.source)));
    if found.Some? && found.value.tree.Some? {
      PreviousKeysFollowIds(req.source, EntriesOf(s, found.value.tree.value));
    }
  }
}
