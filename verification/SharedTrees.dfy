/** Why evidence has to be honest across sources: trees are shared by content and keep old metadata. */
module SharedTrees {
  import opened Models
  import opened Ordering
  import opened Reconciliation
  import opened Store
  import opened Rsync
  import opened Reuse

  function Listing(modified: string): Entry { Entry("f", File, Some(1), Some(modified), None) }

  /** A complete listing of the one file "f". */
  function OneFile(source: SourceId, at: Time, modified: string, data: Bytes): Request {
    Request(source, "r", "o", at, map["f" := data], Inventory([Listing(modified)], [], true), "u")
  }

  function OneEntry(modified: string, content: ContentId): TreeEntry {
    TreeEntry("f", File, Some(content), Some(1), None, Some(modified), None)
  }

  function OneTree(content: ContentId): TreeId { [EntryIdentity("f", File, Some(content), Some(1), None)] }

  lemma OneFileRecordable(req: Request, modified: string, data: Bytes)
    requires req == OneFile(req.source, req.at, modified, data)
    ensures Recordable(req) && SortedEntries(req) == [Listing(modified)] && Mirrored(req, [Listing(modified)])
  {
    SortSingle(Listing(modified), EntryOrder);
  }

  /** Recording the single entry, given the row the file call returned. */
  lemma {:induction false} OneFileEntries(s: Store, req: Request, modified: string, data: Bytes,
        previous: map<string, PreviousItem>, o: Observation, t: Store)
    requires req == OneFile(req.source, req.at, modified, data)
    requires RecordFile(s, req, Listing(modified), Lookup(previous, "f"), true) == Returned(t, o)
    requires Mirrored(req, [Listing(modified)])
    ensures
      var p := RecordEntries(s, req, [Listing(modified)], previous, true);
      p.error.None? && p.rows == [o] && p.store == t && p.tree == [OneEntry(modified, o.content)]
  {
    assert [Listing(modified)][..0] == [];
    assert RecordEntries(s, req, [], previous, true) == Progress(s, [], [], 0, 0, None);
  }

  /** Nothing is gone as long as "f" is listed. */
  lemma {:induction false} NothingGone(req: Request, modified: string, data: Bytes, previous: seq<PreviousItem>)
    requires req == OneFile(req.source, req.at, modified, data)
    requires previous == [] || (|previous| == 1 && previous[0].itemId == "f")
    ensures GoneFiles(req.inventory, previous) == []
  {
    if previous != [] {
      assert previous[..0] == [];
      assert Listing(modified) in req.inventory.entries;
    }
  }

  lemma OneEntryTree(modified: string, content: ContentId)
    ensures Sort([OneEntry(modified, content)], EntryLe) == [OneEntry(modified, content)]
    ensures Identities([OneEntry(modified, content)]) == OneTree(content)
  {
    SortSingle(OneEntry(modified, content), EntryLe);
  }

  ghost predicate Holds(s: Store, source: SourceId, x: Snapshot, entry: TreeEntry) {
    && OfSource(s.snapshots, source) == [x]
    && x.tree == Some([entry.Identity()]) && x.complete && x.evidence.reconciled == Some(true)
    && x.tree.value in s.trees && s.trees[x.tree.value] == [entry]
  }

  /** With one recorded snapshot of the source, its stored entry is the whole baseline. */
  lemma OneBaseline(rank: Snapshot -> int, s: Store, source: SourceId, x: Snapshot, modified: string,
        content: ContentId)
    requires Holds(s, source, x, OneEntry(modified, content))
    ensures PreviousItems(rank, s, source, []) == [PreviousOf(source, OneEntry(modified, content))]
  {
    SortSingle(x, NewerFirst(rank));
    assert SnapshotsFor(rank, s, source) == [x];
    assert Baseline(rank, s, source, []) == Some(x);
    var e := OneEntry(modified, content);
    assert BaselineEntries(rank, s, source, []) == [e];
    assert [e][..0] == [] && PreviousFrom(source, [], []) == [];
    assert PreviousFrom(source, [e], []) == [] + [PreviousOf(source, e)];
  }

  lemma {:induction false} NoBaseline(rank: Snapshot -> int, s: Store, source: SourceId)
    requires OfSource(s.snapshots, source) == []
    ensures PreviousItems(rank, s, source, []) == []
  {
    assert SnapshotsFor(rank, s, source) == [];
  }

  /** A first complete listing of a source reads the file and records its tree, or finds it recorded. */
  lemma FirstCall(rank: Snapshot -> int, s: Store, req: Request, modified: string, data: Bytes, stored: string)
    requires req == OneFile(req.source, req.at, modified, data)
    requires req.source in s.sources && OfSource(s.snapshots, req.source) == []
    requires forall i | 0 <= i < |s.observations| :: s.observations[i].at < req.at
    requires if OneTree(Sha256(data)) in s.trees
        then s.trees[OneTree(Sha256(data))] == [OneEntry(stored, Sha256(data))] else stored == modified
    ensures
      var s' := Reconcile(rank, s, req, true).store;
      && s'.sources == s.sources && Sha256(data) in s'.contents && Sha256(data) in s'.blobs
      && |s'.snapshots| == |s.snapshots| + 1 && s.snapshots <= s'.snapshots
        && s'.snapshots[|s.snapshots|].source == req.source
      && s'.observations == s.observations + [FileRow(req, "f", Sha256(data), false)]
      && Holds(s', req.source, s'.snapshots[|s.snapshots|], OneEntry(stored, Sha256(data)))
  {
    OneFileRecordable(req, modified, data);
    NoBaseline(rank, s, req.source);
    var o := FileRow(req, "f", Sha256(data), false);
    var t := s.(blobs := s.blobs + {Sha256(data)}, contents := s.contents + {Sha256(data)},
      observations := s.observations + [o]);
    assert !HasObservation(s.observations, o.Id());
    OneFileEntries(s, req, modified, data, map[], o, t);
    NothingGone(req, modified, data, []);
    OneEntryTree(modified, Sha256(data));
    OneEntryTree(stored, Sha256(data));
    var a := RecordAbsences(t, req, []);
    assert a == AbsenceProgress(t, [], None);
    Snapshotted(t, req, [OneEntry(modified, Sha256(data))], stored, data);
  }

  lemma Snapshotted(t: Store, req: Request, tree: seq<TreeEntry>, stored: string, data: Bytes)
    requires req.source in t.sources && OfSource(t.snapshots, req.source) == [] && Sha256(data) in t.contents
    requires exists modified ::
        tree == [OneEntry(modified, Sha256(data))] && (OneTree(Sha256(data)) !in t.trees ==> modified == stored)
    requires OneTree(Sha256(data)) in t.trees ==> t.trees[OneTree(Sha256(data))] == [OneEntry(stored, Sha256(data))]
    ensures
      var e := Evidence(Some(true), None, None, 1, 0, 0);
      var r := RecordTreeSnapshot(t, req.source, req.run, tree, true, [], req.at, e);
      && r.Returned?
      && r.store == t.(trees := r.store.trees, snapshots := t.snapshots + [r.value])
      && Holds(r.store, req.source, r.value, OneEntry(stored, Sha256(data)))
      && r.value.source == req.source
  {
    var modified :| tree == [OneEntry(modified, Sha256(data))]
      && (OneTree(Sha256(data)) !in t.trees ==> modified == stored);
    OneEntryTree(modified, Sha256(data));
    var e := Evidence(Some(true), None, None, 1, 0, 0);
    var r := RecordTreeSnapshot(t, req.source, req.run, tree, true, [], req.at, e);
    var u := RecordTree(t, Sort(tree, EntryLe));
    assert u.Returned? && u.value == OneTree(Sha256(data));
    var x := Snapshot(req.source, req.run, req.at, true, Some(u.value), SortText([]),
      BoundEvidence(t, req.source, req.run, req.at, e));
    NotOfSource(t.snapshots, x);
    assert r == Returned(u.store.(snapshots := u.store.snapshots + [x]), x);
    assert (t.snapshots + [x])[..|t.snapshots|] == t.snapshots;
  }

  lemma {:induction false} NotOfSource(snapshots: seq<Snapshot>, x: Snapshot)
    requires OfSource(snapshots, x.source) == []
    ensures x !in snapshots
  {
    if snapshots != [] {
      NotOfSource(snapshots[..|snapshots| - 1], x);
    }
  }

  /** A listing that matches the stored evidence observes the stored content again. */
  lemma MatchedCall(rank: Snapshot -> int, s: Store, req: Request, x: Snapshot, modified: string, data: Bytes,
        kept: Bytes)
    requires req == OneFile(req.source, req.at, modified, data)
    requires req.source in s.sources && Holds(s, req.source, x, OneEntry(modified, Sha256(kept)))
    requires Sha256(kept) in s.contents && Sha256(kept) in s.blobs
    requires forall i | 0 <= i < |s.observations| :: s.observations[i].at < req.at
    ensures Reconcile(rank, s, req, true).rows == [FileRow(req, "f", Sha256(kept), true)]
  {
    OneFileRecordable(req, modified, data);
    OneBaseline(rank, s, req.source, x, modified, Sha256(kept));
    var item := PreviousOf(req.source, OneEntry(modified, Sha256(kept)));
    var items := [item];
    assert items[..0] == [];
    assert PreviousMap(items) == map["f" := item];
    var o := FileRow(req, "f", Sha256(kept), true);
    assert !HasObservation(s.observations, o.Id());
    var t := s.(contents := s.contents + {Sha256(kept)}, observations := s.observations + [o]);
    OneFileEntries(s, req, modified, data, PreviousMap(items), o, t);
    NothingGone(req, modified, data, items);
    assert RecordAbsences(t, req, []) == AbsenceProgress(t, [], None);
  }

  /** One source's evidence, on its own, never names two contents. */
  ghost predicate HonestPerSource(calls: seq<Request>) {
    forall source :: HonestFor(calls, source)
  }

  ghost predicate HonestFor(calls: seq<Request>, source: SourceId) {
    exists meaning :: HonestUnder(meaning, calls, source)
  }

  ghost predicate HonestUnder(meaning: Meaning, calls: seq<Request>, source: SourceId) {
    forall c | c in calls && c.source == source :: HonestCall(meaning, c)
  }

  /**
   * Honesty within each source is not enough. Source "a" records content X under time "m1"; "b" lists
   * the same tree under "m2", which keeps "m1"; when "b" then lists new bytes under "m1", X is reused.
   */
  lemma PerSourceHonestyIsNotEnough(rank: Snapshot -> int)
    ensures
      var x, y := [1], [2];
      var first, second, third := OneFile("a", 1, "m1", x), OneFile("b", 2, "m2", x), OneFile("b", 3, "m1", y);
      var s := Run(rank, Registered({"a", "b"}), [first, second]);
      && HonestPerSource([first, second, third])
      && Reconcile(rank, s, third, true).rows == [FileRow(third, "f", Sha256(x), true)]
      && Sha256(x) != Sha256(third.files["f"]) && ReuseMisleads(rank, s, third)
  {
    var x, y := [1], [2];
    var first, second, third := OneFile("a", 1, "m1", x), OneFile("b", 2, "m2", x), OneFile("b", 3, "m1", y);
    HonestEach(first, second, third);
    AfterTwoCalls(rank, first, second);
    var s := Run(rank, Registered({"a", "b"}), [first, second]);
    ThirdCall(rank, s, third);
    RunKeeps(rank, Registered({"a", "b"}), [first, second]);
    OneFileRecordable(third, "m1", y);
    StaleRowMisleads(rank, s, third, x);
  }

  lemma ThirdCall(rank: Snapshot -> int, s: Store, third: Request)
    requires third == OneFile("b", 3, "m1", [2])
    requires "b" in s.sources && Sha256([1]) in s.contents && Sha256([1]) in s.blobs && |s.snapshots| == 2
    requires Holds(s, "b", s.snapshots[1], OneEntry("m1", Sha256([1])))
    requires forall i | 0 <= i < |s.observations| :: s.observations[i].at < 3
    ensures Reconcile(rank, s, third, true).rows == [FileRow(third, "f", Sha256([1]), true)]
  {
    MatchedCall(rank, s, third, s.snapshots[1], "m1", [2], [1]);
  }

  lemma StaleRowMisleads(rank: Snapshot -> int, s: Store, req: Request, kept: Bytes)
    requires Consistent(s) && Recordable(req) && req.source in s.sources && "f" in req.files && req.files["f"] != kept
    requires Reconcile(rank, s, req, true).rows == [FileRow(req, "f", Sha256(kept), true)]
    ensures ReuseMisleads(rank, s, req)
  {
    assert FileRow(req, "f", Sha256(kept), true) in Reconcile(rank, s, req, true).rows;
    if !ReuseMisleads(rank, s, req) { UnmisledIsLocal(rank, s, req); }
  }

  lemma {:induction false} RunKeeps(rank: Snapshot -> int, s: Store, calls: seq<Request>)
    requires Consistent(s)
    ensures Consistent(Run(rank, s, calls))
  {
    if calls != [] {
      RunKeeps(rank, s, calls[..|calls| - 1]);
      ReconcileKeeps(rank, Run(rank, s, calls[..|calls| - 1]), calls[|calls| - 1], true);
    }
  }

  lemma AfterOneCall(rank: Snapshot -> int, first: Request)
    requires first == OneFile("a", 1, "m1", [1])
    ensures
      var s := Run(rank, Registered({"a", "b"}), [first]);
      && s.sources == {"a", "b"} && OfSource(s.snapshots, "b") == [] && |s.snapshots| == 1
      && s.observations == [FileRow(first, "f", Sha256([1]), false)]
      && OneTree(Sha256([1])) in s.trees && s.trees[OneTree(Sha256([1]))] == [OneEntry("m1", Sha256([1]))]
  {
    var s0 := Registered({"a", "b"});
    FirstCall(rank, s0, first, "m1", [1], "m1");
    var s1 := Reconcile(rank, s0, first, true).store;
    assert [first][..0] == [];
    assert Run(rank, s0, [first]) == Reconcile(rank, Run(rank, s0, []), first, true).store;
    assert OfSource(s1.snapshots, "b") == OfSource(s1.snapshots[..0], "b") + [];
  }

  lemma SecondCall(rank: Snapshot -> int, s: Store, second: Request)
    requires second == OneFile("b", 2, "m2", [1])
    requires s.sources == {"a", "b"} && OfSource(s.snapshots, "b") == [] && |s.snapshots| == 1
    requires forall o | o in s.observations :: o.at == 1
    requires OneTree(Sha256([1])) in s.trees && s.trees[OneTree(Sha256([1]))] == [OneEntry("m1", Sha256([1]))]
    ensures
      var s' := Reconcile(rank, s, second, true).store;
      && "b" in s'.sources && Sha256([1]) in s'.contents && Sha256([1]) in s'.blobs
      && |s'.snapshots| == 2 && Holds(s', "b", s'.snapshots[1], OneEntry("m1", Sha256([1])))
      && forall i | 0 <= i < |s'.observations| :: s'.observations[i].at < 3
  {
    FirstCall(rank, s, second, "m2", [1], "m1");
  }

  lemma {:induction false} RunLast(rank: Snapshot -> int, s: Store, init: seq<Request>, c: Request)
    ensures Run(rank, s, init + [c]) == Reconcile(rank, Run(rank, s, init), c, true).store
  {
    assert (init + [c])[..|init|] == init;
  }

  lemma AfterTwoCalls(rank: Snapshot -> int, first: Request, second: Request)
    requires first == OneFile("a", 1, "m1", [1]) && second == OneFile("b", 2, "m2", [1])
    ensures
      var s := Run(rank, Registered({"a", "b"}), [first, second]);
      && "b" in s.sources && Sha256([1]) in s.contents && Sha256([1]) in s.blobs
      && |s.snapshots| == 2 && Holds(s, "b", s.snapshots[1], OneEntry("m1", Sha256([1])))
      && forall i | 0 <= i < |s.observations| :: s.observations[i].at < 3
  {
    var s0 := Registered({"a", "b"});
    AfterOneCall(rank, first);
    RunLast(rank, s0, [first], second);
    assert [first] + [second] == [first, second];
    SecondCall(rank, Run(rank, s0, [first]), second);
  }

  lemma HonestEach(first: Request, second: Request, third: Request)
    requires first == OneFile("a", 1, "m1", [1]) && second == OneFile("b", 2, "m2", [1])
        && third == OneFile("b", 3, "m1", [2])
    ensures HonestPerSource([first, second, third])
  {
    var ours: Meaning := (path: string, v: TokenValue) => [1];
    var theirs: Meaning := (path: string, v: TokenValue) => if v == FileState(1, "m2") then [1] else [2];
    MeansThis(ours, first, "m1", [1]);
    MeansThis(theirs, second, "m2", [1]);
    MeansThis(theirs, third, "m1", [2]);
    forall source ensures HonestFor([first, second, third], source) {
      assert HonestUnder(if source == "b" then theirs else ours, [first, second, third], source);
    }
  }

  lemma MeansThis(meaning: Meaning, req: Request, modified: string, data: Bytes)
    requires req == OneFile(req.source, req.at, modified, data) && meaning("f", FileState(1, modified)) == data
    ensures HonestCall(meaning, req)
  {
  }
}
