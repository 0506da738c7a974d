/** Recording an enumerated collection with its fetch results (collection_recording.py). */
module Collection {
  import opened Models
  import opened Ordering
  import opened Reconciliation
  import opened Store
  import opened Rsync
  import opened Resolver
  import opened Agreement
  import opened Decisions
  import opened Repository

  /** How fetching one item ended; an item may also have no result at all. */
  datatype Fetch = Fetched(data: Bytes, valid: bool) | NoFile | NotFound | OtherError

  datatype Acquisition = Acquisition(
    source: SourceId, run: RunId, operation: OperationId, at: Time, inventory: SourceInventory,
    locator: string -> Option<string>, results: map<string, Fetch>, payload: Bytes)

  function RelativePath(item: InventoryItem): string {
    if item.sourcePath.Some? && item.sourcePath.value != "" then item.sourcePath.value else item.itemId
  }

  function ItemKey(source: SourceId, itemId: string): string { "source:" + source + ":item:" + itemId }

  // ---- the baseline -------------------------------------------------------------------------------

  function FirstComplete(snapshots: seq<Snapshot>): Option<Snapshot> {
    if snapshots == [] then None
    else if snapshots[0].complete && snapshots[0].tree.Some? then Some(snapshots[0])
    else FirstComplete(snapshots[1..])
  }

  function PreviousIn(source: SourceId, entries: seq<TreeEntry>): seq<PreviousItem> {
    if entries == [] then []
    else
      var last := entries[|entries| - 1];
      PreviousIn(source, entries[..|entries| - 1])
      + if last.item.None? then []
        else [PreviousItem(last.item.value, ItemKey(source, last.item.value), last.content, Some(last.path), None,
          last.kind)]
  }

  function CollectionBaseline(rank: Snapshot -> int, s: Store, source: SourceId): seq<PreviousItem> {
    var found := FirstComplete(Newest(SnapshotsFor(rank, s, source)));
    if found.None? || found.value.tree.None? then [] else PreviousIn(source, EntriesOf(s, found.value.tree.value))
  }

  // ---- recording one item ---------------------------------------------------------------------------

  /** What the recorder has accumulated so far. */
  datatype Recording = Recording(
    store: Store, rows: seq<Observation>, absences: seq<Absence>, tree: seq<TreeEntry>,
    contents: nat, absent: nat, unresolved: nat, error: Option<StoreError>)

  function FileObservation(req: Acquisition, item: InventoryItem, content: ContentId): Observation {
    Observation(item.artifactKey, content, Some(req.source), req.run, req.operation, req.at,
                Some(RelativePath(item)), req.locator(item.itemId), false)
  }

  function DirectAbsence(req: Acquisition, item: InventoryItem): Absence {
    Absence(item.artifactKey, req.source, req.run, req.operation, req.at, Some(RelativePath(item)),
      req.locator(item.itemId))
  }

  function FetchOf(req: Acquisition, item: InventoryItem): Option<Fetch> {
    if item.itemId in req.results then Some(req.results[item.itemId]) else None
  }

  predicate IsContent(req: Acquisition, item: InventoryItem) {
    var f := FetchOf(req, item);
    f.Some? && f.value.Fetched? && f.value.valid
  }

  function EntryFor(req: Acquisition, item: InventoryItem): TreeEntry {
    var f := FetchOf(req, item);
    var unresolved := TreeEntry(RelativePath(item), Unresolved, None, None, None, None, Some(item.itemId));
    if f.None? then unresolved
    else match f.value
      case Fetched(data, valid) =>
        TreeEntry(RelativePath(item), if valid then File else Unresolved, Some(Sha256(data)), Some(|data|), None, None,
                  Some(item.itemId))
      case NotFound => unresolved.(kind := Absent)
      case NoFile => unresolved
      case OtherError => unresolved
  }

  /** Content is stored before it is validated, so invalid content stays behind without an observation. */
  function RecordItem(r: Recording, req: Acquisition, item: InventoryItem): Recording {
    var f := FetchOf(req, item);
    if r.error.Some? then r
    else if f.Some? && f.value.Fetched? then
      var content := Sha256(f.value.data);
      var stored := r.store.(blobs := r.store.blobs + {content}, contents := r.store.contents + {content});
      if !f.value.valid then
        r.(store := stored, tree := r.tree + [EntryFor(req, item)], unresolved := r.unresolved + 1)
      else
        var call := RecordBundle(stored, FileObservation(req, item, content));
        if call.Raised? then r.(store := call.store, error := Some(call.error))
        else r.(store := call.store, rows := r.rows + [call.value], tree := r.tree + [EntryFor(req, item)],
          contents := r.contents + 1)
    else if f == Some(NotFound) then
      var call := RecordAbsence(r.store, DirectAbsence(req, item));
      if call.Raised? then r.(store := call.store, error := Some(call.error))
      else r.(store := call.store, absences := r.absences + [call.value], tree := r.tree + [EntryFor(req, item)],
        absent := r.absent + 1)
    else r.(tree := r.tree + [EntryFor(req, item)], unresolved := r.unresolved + 1)
  }

  function RecordItems(s: Store, req: Acquisition, items: seq<InventoryItem>): Recording {
    if items == [] then Recording(s, [], [], [], 0, 0, 0, None)
    else RecordItem(RecordItems(s, req, items[..|items| - 1]), req, items[|items| - 1])
  }

  function RecordRemoval(r: Recording, req: Acquisition, d: Decision): Recording {
    if r.error.Some? || d.state != Gone || d.previous.None? then r
    else
      var call :=
        RecordAbsence(r.store,
        Absence(d.artifactKey, req.source, req.run, req.operation, req.at, d.previous.value.sourcePath, None));
      if call.Raised? then r.(store := call.store, error := Some(call.error))
      else r.(store := call.store, absences := r.absences + [call.value], absent := r.absent + 1)
  }

  function RecordRemovals(r: Recording, req: Acquisition, decisions: seq<Decision>): Recording {
    if decisions == [] then r
    else RecordRemoval(RecordRemovals(r, req, decisions[..|decisions| - 1]), req, decisions[|decisions| - 1])
  }

  // ---- one recording ------------------------------------------------------------------------------

  datatype CollectionError = Refused(error: ReconcileError) | Storage(store: StoreError)

  datatype CollectionOutcome = CollectionOutcome(recording: Recording, snapshot: Option<Snapshot>,
          execution: Option<Observation>, error: Option<CollectionError>)

  function Execution(req: Acquisition): Observation {
    Observation("source:" + req.source + ":collection-execution", Sha256(req.payload), Some(req.source), req.run,
      req.operation, req.at,
                None, None, false)
  }

  function Conclude(r: Recording, req: Acquisition): CollectionOutcome {
    if r.error.Some? then CollectionOutcome(r, None, None, Some(Storage(r.error.value)))
    else
      var call :=
        RecordTreeSnapshot(r.store, req.source, req.run, r.tree, req.inventory.coverage.complete && r.unresolved == 0,
                           req.inventory.coverage.scope, req.at,
                           Evidence(None, None, None, r.contents, 0, r.absent));
      if call.Raised? then CollectionOutcome(r.(store := call.store), None, None, Some(Storage(call.error)))
      else
        var execution := IngestObservation(call.store, Execution(req));
        if execution.Raised?
          then CollectionOutcome(r.(store := execution.store), Some(call.value), None, Some(Storage(execution.error)))
        else CollectionOutcome(r.(store := execution.store), Some(call.value), Some(execution.value), None)
  }

  /** The recording that a reconciliation's decisions lead to. */
  function RecordAll(s: Store, req: Acquisition, decisions: seq<Decision>): CollectionOutcome {
    Conclude(RecordRemovals(RecordItems(s, req, req.inventory.items), req, decisions), req)
  }

  // ---- every enumerated item is accounted for ---------------------------------------------------------

  /** Only rows and absences were added, the rows all new, and content stays behind files. */
  ghost predicate Appended(s: Store, r: Recording) {
    && r.store == s.(observations := s.observations + r.rows, absences := s.absences + r.absences,
                     contents := r.store.contents, blobs := r.store.blobs)
    && NewRows(s, r.rows)
    && (s.contents <= s.blobs ==> r.store.contents <= r.store.blobs)
    && s.contents <= r.store.contents && forall o | o in r.rows :: o.content in r.store.contents
  }

  ghost predicate RowOfItem(req: Acquisition, items: seq<InventoryItem>, o: Observation) {
    exists item ::
      item in items && IsContent(req, item) && o == FileObservation(req, item, Sha256(FetchOf(req, item).value.data))
  }

  ghost predicate AllOfItems(req: Acquisition, items: seq<InventoryItem>, rows: seq<Observation>) {
    forall o | o in rows :: RowOfItem(req, items, o)
  }

  lemma RowsOfMore(req: Acquisition, init: seq<InventoryItem>, item: InventoryItem, rows: seq<Observation>)
    requires AllOfItems(req, init, rows)
    ensures AllOfItems(req, init + [item], rows)
  {
    forall o | o in rows ensures RowOfItem(req, init + [item], o) {
      assert RowOfItem(req, init, o);
      var x :| x in init && IsContent(req, x) && o == FileObservation(req, x, Sha256(FetchOf(req, x).value.data));
      assert x in init + [item];
    }
  }

  lemma ItemAppends(s: Store, q: Recording, req: Acquisition, item: InventoryItem)
    requires Appended(s, q)
    ensures Appended(s, RecordItem(q, req, item))
  {
    var r := RecordItem(q, req, item);
    if r.rows != q.rows {
      var o := FileObservation(req, item, Sha256(FetchOf(req, item).value.data));
      assert r.rows == q.rows + [o];
      RowsSplit(s.observations, q.rows, o.Id());
      assert r.store.observations == s.observations + r.rows;
      forall x | x in r.rows ensures !HasObservation(s.observations, x.Id()) {
        assert x in q.rows || x == o;
      }
    }
    if r.absences != q.absences {
      assert r.store.absences == s.absences + r.absences;
    }
  }

  /** One entry for each item in order, the counters say how many of each kind, and files come with their rows. */
  ghost predicate Accounted(req: Acquisition, items: seq<InventoryItem>, r: Recording) {
    && |r.tree| == |items| == r.contents + r.absent + r.unresolved
    && (forall i | 0 <= i < |items| :: r.tree[i] == EntryFor(req, items[i]))
    && |r.rows| == r.contents && |r.absences| == r.absent
    && (forall item | item in items && IsContent(req, item) ::
          FileObservation(req, item, Sha256(FetchOf(req, item).value.data)) in r.rows)
    && (r.unresolved == 0 <==> forall t | t in r.tree :: t.kind != Unresolved)
  }

  /**
   * Every enumerated item leaves exactly one tree entry, of the kind its fetch result calls for, in order;
   * the counters say how many of each; a file entry comes with one new observation of the fetched bytes.
   */
  lemma {:induction false} EveryItemIsAccountedFor(s: Store, req: Acquisition, items: seq<InventoryItem>)
    ensures
      var r := RecordItems(s, req, items);
      Appended(s, r) && AllOfItems(req, items, r.rows) && (r.error.None? ==> Accounted(req, items, r))
  {
    if items == [] {
      assert s.observations + [] == s.observations && s.absences + [] == s.absences;
    } else {
      var init, item := items[..|items| - 1], items[|items| - 1];
      assert items == init + [item];
      EveryItemIsAccountedFor(s, req, init);
      OneMoreAccounted(s, req, init, item, RecordItems(s, req, init));
    }
  }

  lemma OneMoreAccounted(s: Store, req: Acquisition, init: seq<InventoryItem>, item: InventoryItem, q: Recording)
    requires Appended(s, q) && AllOfItems(req, init, q.rows) && (q.error.None? ==> Accounted(req, init, q))
    ensures
      var r := RecordItem(q, req, item);
      Appended(s, r) && AllOfItems(req, init + [item], r.rows) && (r.error.None? ==> Accounted(req, init + [item], r))
  {
    ItemAppends(s, q, req, item);
    RowsOfMore(req, init, item, q.rows);
    ItemRow(req, init, item, q, RecordItem(q, req, item));
    if RecordItem(q, req, item).error.None? {
      ItemEntry(req, init, item, q, RecordItem(q, req, item));
    }
  }

  lemma ItemRow(req: Acquisition, init: seq<InventoryItem>, item: InventoryItem, q: Recording, r: Recording)
    requires AllOfItems(req, init + [item], q.rows) && r == RecordItem(q, req, item)
    ensures AllOfItems(req, init + [item], r.rows)
  {
    if r.rows != q.rows {
      var o := FileObservation(req, item, Sha256(FetchOf(req, item).value.data));
      assert r.rows == q.rows + [o];
      assert item in init + [item];
      assert RowOfItem(req, init + [item], o);
    }
  }

  lemma ItemEntry(req: Acquisition, init: seq<InventoryItem>, item: InventoryItem, q: Recording, r: Recording)
    requires r == RecordItem(q, req, item) && r.error.None? && Accounted(req, init, q)
    ensures Accounted(req, init + [item], r)
  {
    assert r.tree == q.tree + [EntryFor(req, item)];
    assert forall t :: t in r.tree <==> t in q.tree || t == EntryFor(req, item);
    assert forall x | x in q.rows :: x in r.rows;
    assert EntryFor(req, item).kind == Unresolved <==> r.unresolved == q.unresolved + 1;
  }

  lemma {:induction false} RemovalsAppend(s: Store, q: Recording, req: Acquisition, decisions: seq<Decision>)
    requires Appended(s, q)
    ensures
      var r := RecordRemovals(q, req, decisions);
      Appended(s, r) && r == q.(store := r.store, absences := r.absences, absent := r.absent, error := r.error)
  {
    if decisions != [] {
      RemovalsAppend(s, q, req, decisions[..|decisions| - 1]);
      var p, r := RecordRemovals(q, req, decisions[..|decisions| - 1]), RecordRemovals(q, req, decisions);
      if r.absences != p.absences {
        assert r.store.absences == s.absences + r.absences;
      }
    }
  }

  // ---- the recorder and the resolver agree ------------------------------------------------------------

  ghost predicate DistinctRelativePaths(items: seq<InventoryItem>) {
    forall i, j | 0 <= i < j < |items| :: RelativePath(items[i]) != RelativePath(items[j])
  }

  lemma TreePathsAreItemPaths(req: Acquisition, items: seq<InventoryItem>, tree: seq<TreeEntry>)
    requires |tree| == |items| && forall i | 0 <= i < |items| :: tree[i] == EntryFor(req, items[i])
    ensures DistinctPaths(tree) <==> DistinctRelativePaths(items)
  {
    forall i | 0 <= i < |items| ensures tree[i].path == RelativePath(items[i]) {}
    if DistinctPaths(tree) {
      forall i, j | 0 <= i < j < |items| ensures RelativePath(items[i]) != RelativePath(items[j]) {
        assert tree[i].path != tree[j].path;
      }
    }
  }

  lemma {:induction false} ItemRowsHaveDistinctPaths(s: Store, req: Acquisition, items: seq<InventoryItem>)
    requires DistinctRelativePaths(items)
    ensures DistinctRowPaths(RecordItems(s, req, items).rows)
  {
    if items != [] {
      var init := items[..|items| - 1];
      ItemRowsHaveDistinctPaths(s, req, init);
      EveryItemIsAccountedFor(s, req, init);
      LastRowIsDistinct(req, items, RecordItems(s, req, init));
    }
  }

  lemma LastRowIsDistinct(req: Acquisition, items: seq<InventoryItem>, q: Recording)
    requires items != [] && DistinctRelativePaths(items) && DistinctRowPaths(q.rows)
        && AllOfItems(req, items[..|items| - 1], q.rows)
    ensures DistinctRowPaths(RecordItem(q, req, items[|items| - 1]).rows)
  {
    OtherPaths(req, items[..|items| - 1], items[|items| - 1], items, q.rows);
    RowsStayDistinct(q, req, items[|items| - 1]);
  }

  lemma RowsStayDistinct(q: Recording, req: Acquisition, item: InventoryItem)
    requires DistinctRowPaths(q.rows) && forall o | o in q.rows :: o.path != Some(RelativePath(item))
    ensures DistinctRowPaths(RecordItem(q, req, item).rows)
  {
    var r := RecordItem(q, req, item);
    if r.rows != q.rows {
      var o := FileObservation(req, item, Sha256(FetchOf(req, item).value.data));
      assert r.rows == q.rows + [o] && o.path == Some(RelativePath(item));
    }
  }

  lemma OtherPaths(req: Acquisition, init: seq<InventoryItem>, item: InventoryItem, items: seq<InventoryItem>,
        rows: seq<Observation>)
    requires items == init + [item] && DistinctRelativePaths(items) && AllOfItems(req, init, rows)
    ensures forall o | o in rows :: o.path != Some(RelativePath(item))
  {
    forall o | o in rows ensures o.path != Some(RelativePath(item)) {
      assert RowOfItem(req, init, o);
      var x :| x in init && IsContent(req, x) && o == FileObservation(req, x, Sha256(FetchOf(req, x).value.data));
      var k :| 0 <= k < |init| && init[k] == x;
      assert items[k] == x && items[|init|] == item;
    }
  }

  lemma ItemKeysIdentify(req: Acquisition, rows: seq<Observation>)
    requires req.inventory.WellFormed() && AllOfItems(req, req.inventory.items, rows)
    ensures KeysIdentify(rows) && AllBelong(rows, req.source, req.run, req.at)
  {
    var items := req.inventory.items;
    forall o, r | o in rows && r in rows && o.artifactKey == r.artifactKey ensures o == r {
      assert RowOfItem(req, items, o) && RowOfItem(req, items, r);
      var x :| x in items && IsContent(req, x) && o == FileObservation(req, x, Sha256(FetchOf(req, x).value.data));
      var y :| y in items && IsContent(req, y) && r == FileObservation(req, y, Sha256(FetchOf(req, y).value.data));
      var i :| 0 <= i < |items| && items[i] == x;
      var j :| 0 <= j < |items| && items[j] == y;
    }
    forall o | o in rows ensures Belongs(o, req.source, req.run, req.at) {
      assert RowOfItem(req, items, o);
    }
  }

  /** With nothing unresolved, the entries and the rows stand for the same files. */
  lemma ItemEntriesMatchRows(req: Acquisition, items: seq<InventoryItem>, tree: seq<TreeEntry>, rows: seq<Observation>)
    requires |tree| == |items| && forall i | 0 <= i < |items| :: tree[i] == EntryFor(req, items[i])
    requires forall t | t in tree :: t.kind != Unresolved
    requires AllOfItems(req, items, rows)
    requires forall item | item in items && IsContent(req, item) ::
        FileObservation(req, item, Sha256(FetchOf(req, item).value.data)) in rows
    ensures EntriesMatchRows(tree, rows)
  {
    forall t | t in tree && !Skipped(t) ensures HasRow(rows, t) {
      var i :| 0 <= i < |tree| && tree[i] == t;
      assert items[i] in items && IsContent(req, items[i]);
      var o := FileObservation(req, items[i], Sha256(FetchOf(req, items[i]).value.data));
      assert o in rows && Matches(o, t);
    }
    forall o | o in rows ensures HasEntry(tree, o) {
      assert RowOfItem(req, items, o);
      var x :| x in items && IsContent(req, x) && o == FileObservation(req, x, Sha256(FetchOf(req, x).value.data));
      var i :| 0 <= i < |items| && items[i] == x;
      assert tree[i] in tree && Matches(o, tree[i]);
    }
  }

  /** A consistent store in which every recorded item is accounted for, and its tree is about to be stored. */
  lemma SnapshotOfRecording(s: Store, r: Recording, req: Acquisition, complete: bool, evidence: Evidence)
        returns (x: Snapshot)
    requires Consistent(s) && Appended(s, r) && EntriesMatchRows(r.tree, r.rows)
    requires RecordTreeSnapshot(r.store, req.source, req.run, r.tree, complete, req.inventory.coverage.scope, req.at,
        evidence).Returned?
    requires evidence.reconciled != Some(false) && evidence.acquired != Some(false)
    ensures
      var call :=
        RecordTreeSnapshot(r.store, req.source, req.run, r.tree, complete, req.inventory.coverage.scope, req.at,
        evidence);
      && Consistent(call.store) && call.value == x && x in call.store.snapshots
      && call.store.observations == s.observations + r.rows
      && x.source == req.source && x.run == req.run && x.at == req.at && x.complete == complete
      && x.evidence.reconciled != Some(false) && x.evidence.acquired != Some(false)
      && x.evidence.bound == Some(Ids(RunRows(call.store.observations, req.source, req.run, req.at)))
      && x.tree.Some? && x.tree.value in call.store.trees
      && DistinctPaths(call.store.trees[x.tree.value]) && EntriesMatchRows(call.store.trees[x.tree.value], r.rows)
      && DistinctPaths(r.tree)
  {
    RecordingIsConsistent(s, r);
    TreeSnapshotKeeps(r.store, req.source, req.run, r.tree, complete, req.inventory.coverage.scope, req.at, evidence);
    var call :=
      RecordTreeSnapshot(r.store, req.source, req.run, r.tree, complete, req.inventory.coverage.scope, req.at,
      evidence);
    x := call.value;
    RecordTreeKeeps(r.store, r.tree);
    var ordered := Sort(r.tree, EntryLe);
    var stored := RecordTree(r.store, ordered);
    SortProperties(r.tree, EntryLe);
    assert EntriesMatchRows(ordered, r.rows);
    var kept := stored.store.trees[stored.value];
    assert TreesWellFormed(stored.store);
    assert Identities(kept) == Identities(ordered);
    IdentityCarriesMatch(ordered, kept, r.rows);
    SameIdentitiesSamePaths(kept, ordered);
    SortKeepsDistinct(r.tree);
  }

  lemma RecordingIsConsistent(s: Store, r: Recording)
    requires Consistent(s) && Appended(s, r)
    ensures Consistent(r.store)
  {
    NewRowsStayUnique(s, r.rows);
    GrowthKeepsConsistent(s, r.store);
  }

  lemma SameIdentitiesSamePaths(a: seq<TreeEntry>, b: seq<TreeEntry>)
    requires Identities(a) == Identities(b) && DistinctPaths(a)
    ensures DistinctPaths(b)
  {
    assert |a| == |Identities(a)| == |b|;
    forall i | 0 <= i < |a| ensures a[i].path == b[i].path {
      assert Identities(a)[i] == Identities(b)[i];
    }
  }

  /** Everything before the snapshot, for a call that records all its items. */
  lemma RecordingOf(s: Store, req: Acquisition, decisions: seq<Decision>) returns (r: Recording)
    requires RecordAll(s, req, decisions).error.None?
    ensures r == RecordRemovals(RecordItems(s, req, req.inventory.items), req, decisions) && r.error.None?
    ensures r.rows == RecordAll(s, req, decisions).recording.rows
        && r.unresolved == RecordAll(s, req, decisions).recording.unresolved
    ensures Appended(s, r) && AllOfItems(req, req.inventory.items, r.rows)
    ensures |r.tree| == |req.inventory.items| && forall i | 0 <= i < |r.tree| ::
        r.tree[i] == EntryFor(req, req.inventory.items[i])
    ensures forall item | item in req.inventory.items && IsContent(req, item) ::
              FileObservation(req, item, Sha256(FetchOf(req, item).value.data)) in r.rows
    ensures r.unresolved == 0 <==> forall t | t in r.tree :: t.kind != Unresolved
    ensures r.rows == RecordItems(s, req, req.inventory.items).rows
  {
    EveryItemIsAccountedFor(s, req, req.inventory.items);
    var q := RecordItems(s, req, req.inventory.items);
    RemovalsAppend(s, q, req, decisions);
    r := RecordRemovals(q, req, decisions);
    if q.error.Some? { RemovalsStayFailed(q, req, decisions); }
  }

  lemma {:induction false} RemovalsStayFailed(q: Recording, req: Acquisition, decisions: seq<Decision>)
    requires q.error.Some?
    ensures RecordRemovals(q, req, decisions) == q
  {
    if decisions != [] { RemovalsStayFailed(q, req, decisions[..|decisions| - 1]); }
  }

  ghost predicate ItemRepeated(s: Store, req: Acquisition, o: Observation, item: InventoryItem) {
    && o in s.observations && Belongs(o, req.source, req.run, req.at)
    && item in req.inventory.items && IsContent(req, item)
    && o.path == Some(RelativePath(item)) && o.content == Sha256(FetchOf(req, item).value.data)
  }

  /** The run already holds a row of the source with the path and the content of a fetched item. */
  ghost predicate RepeatsItem(s: Store, req: Acquisition) {
    exists o, item :: ItemRepeated(s, req, o, item)
  }

  lemma ItemTwins(s: Store, req: Acquisition, rows: seq<Observation>)
    requires AllOfItems(req, req.inventory.items, rows)
    requires forall item | item in req.inventory.items && IsContent(req, item) ::
      FileObservation(req, item, Sha256(FetchOf(req, item).value.data)) in rows
    ensures Twin(RunRows(s.observations, req.source, req.run, req.at), rows) <==> RepeatsItem(s, req)
  {
    var earlier := RunRows(s.observations, req.source, req.run, req.at);
    RunRowsMember(s.observations, req.source, req.run, req.at);
    if Twin(earlier, rows) {
      var o, r :| o in earlier && r in rows && o.path == r.path && o.content == r.content;
      assert RowOfItem(req, req.inventory.items, r);
      var item :| item in req.inventory.items && IsContent(req, item)
               && r == FileObservation(req, item, Sha256(FetchOf(req, item).value.data));
      assert ItemRepeated(s, req, o, item);
    }
    if RepeatsItem(s, req) {
      var o, item :| ItemRepeated(s, req, o, item);
      var r := FileObservation(req, item, Sha256(FetchOf(req, item).value.data));
      assert o in earlier && r in rows && o.path == r.path && o.content == r.content;
    }
  }

  /**
   * A complete collection resolves, in the store its call leaves behind, to exactly the observations of its
   * file items, unless the run already held a row with the path and content of one of them. An incomplete one
   * does not resolve.
   */
  lemma CollectionAndResolverAgree(s: Store, req: Acquisition, decisions: seq<Decision>)
    requires Consistent(s) && req.inventory.WellFormed() && RecordAll(s, req, decisions).error.None?
    ensures
      var out := RecordAll(s, req, decisions);
      out.snapshot.Some?
      && (out.snapshot.value.complete <==> req.inventory.coverage.complete && out.recording.unresolved == 0)
      && var answer := SnapshotObservations(out.recording.store, out.snapshot.value);
         if !out.snapshot.value.complete then answer == Failure(NotComplete)
         else if RepeatsItem(s, req) then answer.Failure? && answer.error.Ambiguous?
         else answer.Success? && ResolvesTo(answer.value, out.recording.rows)
  {
    var r := RecordingOf(s, req, decisions);
    var out := RecordAll(s, req, decisions);
    if req.inventory.coverage.complete && r.unresolved == 0 {
      ItemEntriesMatchRows(req, req.inventory.items, r.tree, r.rows);
      var evidence := Evidence(None, None, None, r.contents, 0, r.absent);
      var x := SnapshotOfRecording(s, r, req, true, evidence);
      TreePathsAreItemPaths(req, req.inventory.items, r.tree);
      ItemRowsHaveDistinctPaths(s, req, req.inventory.items);
      ItemKeysIdentify(req, r.rows);
      var t := RecordTreeSnapshot(r.store, req.source, req.run, r.tree, true, req.inventory.coverage.scope, req.at,
        evidence).store;
      AnswerFromRows(t, x, s.observations, r.rows);
      ItemTwins(s, req, r.rows);
      ExecutionKeeps(t, req, x);
    }
  }

  /** The execution record comes after the snapshot and does not change what it resolves to. */
  lemma ExecutionKeeps(t: Store, req: Acquisition, x: Snapshot)
    requires Consistent(t) && x in t.snapshots
    ensures SnapshotObservations(IngestObservation(t, Execution(req)).store, x) == SnapshotObservations(t, x)
  {
    PerformKeeps((s: Snapshot) => 0, t, Ingest(Execution(req)));
    AnswerFrozen(t, IngestObservation(t, Execution(req)).store, x);
  }

  // ---- the recorder itself ----------------------------------------------------------------------------

  /** The accumulator that one recording updates item by item, beside the repository. */
  class RecordingState {
    var rows: seq<Observation>
    var absences: seq<Absence>
    var tree: seq<TreeEntry>
    var contents: nat
    var absent: nat
    var unresolved: nat
    var error: Option<StoreError>

    constructor ()
      ensures rows == [] && absences == [] && tree == [] && contents == absent == unresolved == 0 && error == None
    {
      rows, absences, tree := [], [], [];
      contents, absent, unresolved := 0, 0, 0;
      error := None;
    }

    ghost function View(repo: Repository): Recording
      reads this, repo
    {
      Recording(repo.View(), rows, absences, tree, contents, absent, unresolved, error)
    }

    method AddUnresolved(entry: TreeEntry)
      modifies this
      ensures tree == old(tree) + [entry] && unresolved == old(unresolved) + 1
      ensures unchanged(`rows) && unchanged(`absences) && unchanged(`contents) && unchanged(`absent)
          && unchanged(`error)
    {
      tree, unresolved := tree + [entry], unresolved + 1;
    }

    method RecordOne(repo: Repository, req: Acquisition, item: InventoryItem, decision: Decision)
      requires error.None? && decision.artifactKey == item.artifactKey
      modifies this, repo
      ensures View(repo) == RecordItem(old(View(repo)), req, item)
    {
      if item.itemId !in req.results {
        AddUnresolved(EntryFor(req, item));
        return;
      }
      match req.results[item.itemId] {
        case Fetched(data, valid) =>
          repo.StoreContent(Sha256(data));
          if !valid {
            AddUnresolved(EntryFor(req, item));
            return;
          }
          var call :=
            repo.ObserveContent(FileObservation(req, item, Sha256(data)).(artifactKey := decision.artifactKey));
          if call.Failure? {
            error := Some(call.error);
            return;
          }
          rows, tree, contents := rows + [call.value], tree + [EntryFor(req, item)], contents + 1;
        case NotFound =>
          var call := repo.AppendAbsence(DirectAbsence(req, item).(artifactKey := decision.artifactKey));
          if call.Failure? {
            error := Some(call.error);
            return;
          }
          absences, tree, absent := absences + [call.value], tree + [EntryFor(req, item)], absent + 1;
        case NoFile => AddUnresolved(EntryFor(req, item));
        case OtherError => AddUnresolved(EntryFor(req, item));
      }
    }

    method RecordEach(repo: Repository, req: Acquisition, decisions: map<string, Decision>)
      requires error.None? && View(repo) == Recording(repo.View(), [], [], [], 0, 0, 0, None)
      requires forall item | item in req.inventory.items ::
          item.itemId in decisions && decisions[item.itemId].artifactKey == item.artifactKey
      modifies this, repo
      ensures View(repo) == RecordItems(old(repo.View()), req, req.inventory.items)
    {
      var items := req.inventory.items;
      var i := 0;
      while i < |items|
        invariant 0 <= i <= |items|
        invariant error.None?
        invariant View(repo) == RecordItems(old(repo.View()), req, items[..i])
      {
        assert items[..i + 1][..i] == items[..i] && items[i] in items;
        RecordOne(repo, req, items[i], decisions[items[i].itemId]);
        i := i + 1;
        if error.Some? {
          ItemsStayFailed(old(repo.View()), req, items, i);
          return;
        }
      }
      assert items[..|items|] == items;
    }

    method RecordRemoved(repo: Repository, req: Acquisition, decisions: seq<Decision>)
      modifies this, repo
      ensures View(repo) == RecordRemovals(old(View(repo)), req, decisions)
    {
      for i := 0 to |decisions|
        invariant View(repo) == RecordRemovals(old(View(repo)), req, decisions[..i])
      {
        var d := decisions[i];
        assert decisions[..i + 1][..i] == decisions[..i];
        if error.None? && d.state == Gone && d.previous.Some? {
          var call :=
            repo.AppendAbsence(Absence(d.artifactKey, req.source, req.run, req.operation, req.at,
            d.previous.value.sourcePath, None));
          if call.Failure? {
            error := Some(call.error);
          } else {
            absences, absent := absences + [call.value], absent + 1;
          }
        }
      }
      assert decisions[..|decisions|] == decisions;
    }
  }

  lemma {:induction false} ItemsStayFailed(s: Store, req: Acquisition, items: seq<InventoryItem>, k: nat)
    requires k <= |items| && RecordItems(s, req, items[..k]).error.Some?
    ensures RecordItems(s, req, items) == RecordItems(s, req, items[..k])
  {
    if k == |items| {
      assert items[..k] == items;
    } else {
      assert items[..|items| - 1][..k] == items[..k];
      ItemsStayFailed(s, req, items[..|items| - 1], k);
    }
  }

  lemma {:induction false} ItemsAreDecided(inventory: SourceInventory, previous: seq<PreviousItem>,
        decisions: seq<Decision>)
    requires IsReconciliation(inventory, previous, decisions)
    ensures forall item | item in inventory.items ::
        item.itemId in ById(decisions) && ById(decisions)[item.itemId].artifactKey == item.artifactKey
  {
    ByIdFinds(decisions);
    forall item | item in inventory.items
      ensures item.itemId in ById(decisions) && ById(decisions)[item.itemId].artifactKey == item.artifactKey
    {
      var d :| d in decisions && d.current == Some(item);
      assert PresentDecision(d, inventory, previous);
    }
  }

  method BaselineOf(repo: Repository, source: SourceId) returns (items: seq<PreviousItem>)
    ensures items == CollectionBaseline(repo.rank, repo.View(), source)
  {
    items := [];
    var newest := Newest(Sort(OfSource(repo.snapshots, source), NewerFirst(repo.rank)));
    var found := FirstComplete(newest);
    if found.None? || found.value.tree.None? { return; }
    var entries := if found.value.tree.value in repo.trees then repo.trees[found.value.tree.value] else [];
    for i := 0 to |entries|
      invariant items == PreviousIn(source, entries[..i])
    {
      assert entries[..i + 1][..i] == entries[..i];
      var e := entries[i];
      if e.item.Some? {
        items := items + [PreviousItem(e.item.value, ItemKey(source, e.item.value), e.content, Some(e.path), None,
          e.kind)];
      }
    }
    assert entries[..|entries|] == entries;
  }

  /**
   * The whole recording: refused when the baseline is ambiguous or an item changed its key, else what its
   * decisions lead to.
   */
  method RecordCollection(repo: Repository, req: Acquisition)
    returns (state: RecordingState, snapshot: Option<Snapshot>, execution: Option<Observation>,
        error: Option<CollectionError>,
             decisions: seq<Decision>)
    requires req.inventory.WellFormed()
    modifies repo
    ensures
      var items := CollectionBaseline(repo.rank, old(repo.View()), req.source);
      && (error.Some? && error.value.Refused? <==> !DistinctIds(items) || IdentityConflict(req.inventory, items))
      && (error.Some? && error.value.Refused? ==> repo.View() == old(repo.View()))
      && (!(error.Some? && error.value.Refused?) ==>
            && IsReconciliation(req.inventory, items, decisions)
            && RecordAll(old(repo.View()), req, decisions)
              == CollectionOutcome(state.View(repo), snapshot, execution, error))
  {
    state := new RecordingState();
    snapshot, execution, error, decisions := None, None, None, [];
    var items := BaselineOf(repo, req.source);
    var decided := ReconcileInventory(req.inventory, items);
    if decided.Failure? {
      error := Some(Refused(decided.error));
      return;
    }
    decisions := decided.value;
    ItemsAreDecided(req.inventory, items, decisions);
    state.RecordEach(repo, req, ById(decisions));
    state.RecordRemoved(repo, req, decisions);
    if state.error.Some? {
      error := Some(Storage(state.error.value));
      return;
    }
    var call :=
      repo.SaveTreeSnapshot(req.source, req.run, state.tree, req.inventory.coverage.complete && state.unresolved == 0,
                            req.inventory.coverage.scope, req.at,
                            Evidence(None, None, None, state.contents, 0, state.absent));
    if call.Failure? {
      error := Some(Storage(call.error));
      return;
    }
    snapshot := Some(call.value);
    var recorded := repo.IngestPath(Execution(req));
    if recorded.Failure? {
      error := Some(Storage(recorded.error));
      return;
    }
    execution := Some(recorded.value);
  }
}
