/** Recording an rsync acquisition whose listing is missing or incomplete (operation_recording.py). */
module Incomplete {
  import opened Models
  import opened Ordering
  import opened Store
  import opened Rsync

  /** What stands under a safe path of the mirror. */
  datatype Local = LocalFile(data: Bytes) | LocalLink(target: string) | LocalDirectory

  /** The paths the transfer reports as updated, and what the mirror holds; a path it lacks is skipped. */
  datatype Partial = Partial(
    source: SourceId, run: RunId, operation: OperationId, at: Time,
    updated: seq<string>, local: map<string, Local>, scope: seq<string>, root: string)
  {
    predicate HasFile(path: string) { path in local && local[path].LocalFile? }
  }

  function PartialRow(p: Partial, path: string): Observation
    requires p.HasFile(path)
  {
    Observation(PathKey(p.source, path), Sha256(p.local[path].data), Some(p.source), p.run, p.operation, p.at,
                Some(path), Some(Locator(p.root, path)), false)
  }

  function PartialEntry(p: Partial, path: string): TreeEntry
    requires path in p.local
  {
    match p.local[path]
    case LocalFile(data) => TreeEntry(path, File, Some(Sha256(data)), Some(|data|), None, None, None)
    case LocalLink(target) => TreeEntry(path, Symlink, None, None, Some(target), None, None)
    case LocalDirectory => TreeEntry(path, Directory, None, None, None, None, None)
  }

  function GatherOne(g: Progress, p: Partial, path: string): Progress {
    if g.error.Some? || path !in p.local then g
    else if !p.HasFile(path) then g.(tree := g.tree + [PartialEntry(p, path)])
    else
      var call := IngestObservation(g.store, PartialRow(p, path));
      if call.Raised? then g.(store := call.store, error := Some(call.error))
      else g.(store := call.store, rows := g.rows + [call.value], tree := g.tree + [PartialEntry(p, path)],
              ingested := g.ingested + 1)
  }

  function Gather(s: Store, p: Partial, paths: seq<string>): Progress {
    if paths == [] then Progress(s, [], [], 0, 0, None)
    else GatherOne(Gather(s, p, paths[..|paths| - 1]), p, paths[|paths| - 1])
  }

  /** The evidence of a snapshot that reconciled nothing. */
  function PartialEvidence(ingested: nat): Evidence {
    NoEvidence().(reconciled := Some(false), ingested := ingested)
  }

  function RecordIncomplete(s: Store, p: Partial): Outcome {
    var g := Gather(s, p, p.updated);
    if g.error.Some? then Outcome(g.store, g.rows, [], None, g.error)
    else
      var call :=
        RecordTreeSnapshot(g.store, p.source, p.run, g.tree, false, p.scope, p.at, PartialEvidence(g.ingested));
      if call.Raised? then Outcome(call.store, g.rows, [], None, Some(call.error))
      else Outcome(call.store, g.rows, [], Some(call.value), None)
  }

  lemma {:induction false} GatherStaysFailed(s: Store, p: Partial, paths: seq<string>, k: nat)
    requires k <= |paths| && Gather(s, p, paths[..k]).error.Some?
    ensures Gather(s, p, paths) == Gather(s, p, paths[..k])
  {
    if k == |paths| {
      assert paths[..k] == paths;
    } else {
      assert paths[..|paths| - 1][..k] == paths[..k];
      GatherStaysFailed(s, p, paths[..|paths| - 1], k);
    }
  }

  // ---- what it keeps ------------------------------------------------------------------------------

  ghost predicate FromPartial(p: Partial, o: Observation) {
    o.path.Some? && p.HasFile(o.path.value) && o == PartialRow(p, o.path.value)
  }

  lemma {:induction false} GatherFrame(s: Store, p: Partial, paths: seq<string>)
    requires s.contents <= s.blobs
    ensures
      var g := Gather(s, p, paths);
      && Grew(s, g) && g.store.contents <= g.store.blobs
      && (forall o | o in g.rows :: FromPartial(p, o))
      && EntriesHeld(g.tree, g.store.contents)
  {
    if paths == [] {
      assert s.observations + [] == s.observations;
    } else {
      GatherFrame(s, p, paths[..|paths| - 1]);
      GatherStep(s, Gather(s, p, paths[..|paths| - 1]), p, paths[|paths| - 1]);
    }
  }

  lemma GatherStep(s: Store, q: Progress, p: Partial, path: string)
    requires Grew(s, q) && q.store.contents <= q.store.blobs && EntriesHeld(q.tree, q.store.contents)
    requires forall o | o in q.rows :: FromPartial(p, o)
    ensures
      var g := GatherOne(q, p, path);
      && Grew(s, g) && g.store.contents <= g.store.blobs
      && (forall o | o in g.rows :: FromPartial(p, o))
      && EntriesHeld(g.tree, g.store.contents)
  {
    var g := GatherOne(q, p, path);
    if g.rows != q.rows {
      var o := PartialRow(p, path);
      assert g.rows == q.rows + [o];
      RowsSplit(s.observations, q.rows, o.Id());
      assert g.store.observations == s.observations + g.rows;
      forall r | r in g.rows ensures !HasObservation(s.observations, r.Id()) {
        assert r in q.rows || r == o;
      }
    }
  }

  lemma IncompleteKeeps(s: Store, p: Partial)
    requires Consistent(s)
    ensures Consistent(RecordIncomplete(s, p).store) && Extends(s, RecordIncomplete(s, p).store)
  {
    var g := Gather(s, p, p.updated);
    GatherFrame(s, p, p.updated);
    NewRowsStayUnique(s, g.rows);
    GrowthKeepsConsistent(s, g.store);
    if g.error.None? {
      TreeSnapshotKeeps(g.store, p.source, p.run, g.tree, false, p.scope, p.at, PartialEvidence(g.ingested));
      ExtendsTransitive(s, g.store, RecordIncomplete(s, p).store);
    }
  }

  // ---- what it writes -------------------------------------------------------------------------------

  /** No path that is a file comes twice. */
  ghost predicate FilesOnce(p: Partial, paths: seq<string>) {
    forall i, j | 0 <= i < j < |paths| && p.HasFile(paths[i]) :: paths[i] != paths[j]
  }

  /** No path the mirror holds comes twice. */
  ghost predicate PresentOnce(p: Partial, paths: seq<string>) {
    forall i, j | 0 <= i < j < |paths| && paths[i] in p.local :: paths[i] != paths[j]
  }

  /** The row of this file is not recorded yet. */
  ghost predicate Fresh(s: Store, p: Partial, path: string)
    requires p.HasFile(path)
  {
    !HasObservation(s.observations, PartialRow(p, path).Id())
  }

  /** No file so far raises: none is recorded yet, and none comes twice. */
  ghost predicate FilesPass(s: Store, p: Partial, paths: seq<string>) {
    FilesOnce(p, paths) && forall path | path in paths && p.HasFile(path) :: Fresh(s, p, path)
  }

  /** A file is ingested when its row is new and its path comes before any file that raises. */
  ghost predicate Takes(s: Store, p: Partial, paths: seq<string>, path: string) {
    p.HasFile(path) && Fresh(s, p, path)
      && exists i :: 0 <= i < |paths| && paths[i] == path && FilesPass(s, p, paths[..i])
  }

  /** Where none of these rows is recorded, a file is ingested when its path comes before any file is repeated. */
  ghost predicate IngestsFrom(p: Partial, paths: seq<string>, path: string) {
    p.HasFile(path) && exists i :: 0 <= i < |paths| && paths[i] == path && FilesOnce(p, paths[..i])
  }

  ghost predicate Ingests(p: Partial, path: string) { IngestsFrom(p, p.updated, path) }

  ghost predicate HasPath(rows: seq<Observation>, path: string) {
    exists o :: o in rows && o.path == Some(path)
  }

  /** None of the rows this recording could write is there yet. */
  ghost predicate Unrecorded(s: Store, p: Partial) {
    forall path | p.HasFile(path) :: !HasObservation(s.observations, PartialRow(p, path).Id())
  }

  lemma FilesOnceGrows(p: Partial, init: seq<string>, path: string)
    ensures FilesOnce(p, init + [path]) <==> FilesOnce(p, init) && (p.HasFile(path) ==> path !in init)
  {
    var all := init + [path];
    if FilesOnce(p, all) {
      forall i, j | 0 <= i < j < |init| && p.HasFile(init[i]) ensures init[i] != init[j] {
        assert all[i] == init[i] && all[j] == init[j];
      }
      forall i | 0 <= i < |init| ensures p.HasFile(path) ==> init[i] != path {
        assert all[i] == init[i] && all[|init|] == path;
      }
    }
  }

  lemma FilesPassGrows(s: Store, p: Partial, init: seq<string>, path: string)
    ensures FilesPass(s, p, init + [path]) <==>
      FilesPass(s, p, init) && (p.HasFile(path) ==> Fresh(s, p, path) && path !in init)
  {
    FilesOnceGrows(p, init, path);
    assert forall x :: x in init + [path] <==> x in init || x == path;
  }

  lemma TakesGrows(s: Store, p: Partial, init: seq<string>, last: string, path: string)
    ensures Takes(s, p, init + [last], path) <==>
      Takes(s, p, init, path) || (p.HasFile(path) && Fresh(s, p, path) && last == path && FilesPass(s, p, init))
  {
    var all := init + [last];
    assert all[..|init|] == init;
    forall i | 0 <= i < |init| ensures all[..i] == init[..i] && all[i] == init[i] {}
    if Takes(s, p, init, path) {
      var i :| 0 <= i < |init| && init[i] == path && FilesPass(s, p, init[..i]);
      assert all[i] == path && FilesPass(s, p, all[..i]);
    }
    if p.HasFile(path) && Fresh(s, p, path) && last == path && FilesPass(s, p, init) {
      assert all[|init|] == path && FilesPass(s, p, all[..|init|]);
    }
  }

  /** While no file raises, every file so far is ingested. */
  lemma PassingMeansAll(s: Store, p: Partial, paths: seq<string>, path: string)
    requires FilesPass(s, p, paths) && p.HasFile(path)
    ensures Takes(s, p, paths, path) <==> path in paths
  {
    if path in paths {
      var i :| 0 <= i < |paths| && paths[i] == path;
      assert FilesPass(s, p, paths[..i]);
    }
  }

  /** The recording stops at the first file that raises, and has by then ingested every earlier one. */
  lemma {:induction false} GatherWrites(s: Store, p: Partial, paths: seq<string>)
    requires s.contents <= s.blobs && p.source in s.sources
    ensures
      var g := Gather(s, p, paths);
      && (g.error.None? <==> FilesPass(s, p, paths))
      && forall path :: HasPath(g.rows, path) <==> Takes(s, p, paths, path)
  {
    if paths != [] {
      var init, last := paths[..|paths| - 1], paths[|paths| - 1];
      assert paths == init + [last];
      GatherWrites(s, p, init);
      GatherFrame(s, p, init);
      GatherFrame(s, p, paths);
      FilesPassGrows(s, p, init, last);
      var q := Gather(s, p, init);
      if p.HasFile(last) && q.error.None? {
        PassingMeansAll(s, p, init, last);
        KnownOrIngested(s, q, p, last);
      }
      forall path ensures HasPath(Gather(s, p, paths).rows, path) <==> Takes(s, p, paths, path) {
        TakesGrows(s, p, init, last, path);
        PathsAfterOne(q, p, last, path);
      }
    }
  }

  /** A row is there when it was recorded before the call or by it. */
  lemma KnownOrIngested(s: Store, q: Progress, p: Partial, path: string)
    requires Grew(s, q) && p.HasFile(path) && forall o | o in q.rows :: FromPartial(p, o)
    ensures HasObservation(q.store.observations, PartialRow(p, path).Id()) <==>
      !Fresh(s, p, path) || HasPath(q.rows, path)
  {
    RowsSplit(s.observations, q.rows, PartialRow(p, path).Id());
    if HasPath(q.rows, path) {
      var o :| o in q.rows && o.path == Some(path);
      var i :| 0 <= i < |q.rows| && q.rows[i] == o;
      assert FromPartial(p, o);
    }
  }

  lemma PathsAfterOne(q: Progress, p: Partial, last: string, path: string)
    ensures
      var g := GatherOne(q, p, last);
      HasPath(g.rows, path) <==>
        HasPath(q.rows, path) || (q.error.None? && g.error.None? && p.HasFile(last) && last == path)
  {
    var g := GatherOne(q, p, last);
    if g.rows != q.rows {
      assert g.rows == q.rows + [PartialRow(p, last)];
      assert forall o :: o in g.rows <==> o in q.rows || o == PartialRow(p, last);
    }
  }

  ghost predicate HasTreePath(tree: seq<TreeEntry>, path: string) {
    exists t :: t in tree && t.path == path
  }

  lemma TreeGrows(tree: seq<TreeEntry>, t: TreeEntry)
    ensures DistinctPaths(tree + [t]) <==> DistinctPaths(tree) && !HasTreePath(tree, t.path)
    ensures forall path :: HasTreePath(tree + [t], path) <==> HasTreePath(tree, path) || path == t.path
  {
    var all := tree + [t];
    assert forall i | 0 <= i < |tree| :: all[i] == tree[i];
    assert all[|tree|] == t;
    if DistinctPaths(all) {
      forall i, j | 0 <= i < j < |tree| ensures tree[i].path != tree[j].path {
        assert all[i].path != all[j].path;
      }
      forall x | x in tree ensures x.path != t.path {
        var i :| 0 <= i < |tree| && tree[i] == x;
        assert all[i].path != all[|tree|].path;
      }
    }
    forall path ensures HasTreePath(all, path) <==> HasTreePath(tree, path) || path == t.path {
      assert forall x :: x in all <==> x in tree || x == t;
    }
  }

  lemma PresentOnceGrows(p: Partial, init: seq<string>, path: string)
    ensures PresentOnce(p, init + [path]) <==> PresentOnce(p, init) && (path in p.local ==> path !in init)
  {
    var all := init + [path];
    if PresentOnce(p, all) {
      forall i, j | 0 <= i < j < |init| && init[i] in p.local ensures init[i] != init[j] {
        assert all[i] == init[i] && all[j] == init[j];
      }
      forall i | 0 <= i < |init| ensures path in p.local ==> init[i] != path {
        assert all[i] == init[i] && all[|init|] == path;
      }
    }
  }

  /** The tree gathered without error lists the paths the mirror holds. */
  lemma {:induction false} GatherTree(s: Store, p: Partial, paths: seq<string>)
    requires Gather(s, p, paths).error.None?
    ensures TreeLists(p, paths, Gather(s, p, paths).tree)
  {
    if paths != [] {
      var init, last := paths[..|paths| - 1], paths[|paths| - 1];
      assert paths == init + [last];
      GatherTree(s, p, init);
      OneMorePath(p, init, last, Gather(s, p, init), Gather(s, p, paths));
    }
  }

  ghost predicate TreeLists(p: Partial, paths: seq<string>, tree: seq<TreeEntry>) {
    && (DistinctPaths(tree) <==> PresentOnce(p, paths))
    && forall path :: HasTreePath(tree, path) <==> path in paths && path in p.local
  }

  lemma OneMorePath(p: Partial, init: seq<string>, last: string, q: Progress, g: Progress)
    requires g == GatherOne(q, p, last) && g.error.None? && TreeLists(p, init, q.tree)
    ensures TreeLists(p, init + [last], g.tree)
  {
    PresentOnceGrows(p, init, last);
    if last in p.local { TreeGrows(q.tree, PartialEntry(p, last)); }
    assert forall path :: path in init + [last] <==> path in init || path == last;
  }

  /** The snapshot that would close the recording. */
  function Closing(s: Store, p: Partial): Snapshot {
    var g := Gather(s, p, p.updated);
    Snapshot(p.source, p.run, p.at, false, Some(Identities(Sort(g.tree, EntryLe))), SortText(p.scope),
             BoundEvidence(g.store, p.source, p.run, p.at, PartialEvidence(g.ingested)))
  }

  lemma {:induction false} UnknownSourceWritesNothing(s: Store, p: Partial, paths: seq<string>)
    requires p.source !in s.sources
    ensures
      var g := Gather(s, p, paths);
      && g.rows == [] && g.store.observations == s.observations && g.store.absences == s.absences
      && g.store.snapshots == s.snapshots && g.store.sources == s.sources
  {
    if paths != [] { UnknownSourceWritesNothing(s, p, paths[..|paths| - 1]); }
  }

  /**
   * What the recording appends: a row for exactly the new files before the first file that raises, and the closing
   * snapshot exactly when no file raises, no path the mirror holds comes twice, and it is not recorded already,
   * which it can only be when no file was ingested.
   */
  lemma {:induction false} IncompleteWrites(s: Store, p: Partial)
    requires Consistent(s)
    ensures
      var out := RecordIncomplete(s, p);
      && out.store.observations == s.observations + out.rows && out.store.absences == s.absences
      && (forall o | o in out.rows :: FromPartial(p, o))
      && (forall path :: HasPath(out.rows, path) <==> p.source in s.sources && Takes(s, p, p.updated, path))
      && (out.snapshot.Some? <==>
            && p.source in s.sources && FilesPass(s, p, p.updated) && PresentOnce(p, p.updated)
            && Closing(s, p) !in s.snapshots)
      && out.store.snapshots == s.snapshots + (if out.snapshot.Some? then [out.snapshot.value] else [])
      && (out.snapshot.Some? ==> out.snapshot.value == Closing(s, p))
      && (out.rows != [] ==> Closing(s, p) !in s.snapshots)
  {
    assert s.snapshots + [] == s.snapshots && s.observations + [] == s.observations;
    if p.source !in s.sources {
      UnknownSourceWritesNothing(s, p, p.updated);
    } else {
      GatherFrame(s, p, p.updated);
      GatherWrites(s, p, p.updated);
      ClosingIsNew(s, p);
      GatheredCloses(s, p, Gather(s, p, p.updated));
    }
  }

  lemma {:induction false} ClosingIsNew(s: Store, p: Partial)
    requires Consistent(s) && Grew(s, Gather(s, p, p.updated))
    requires forall o | o in Gather(s, p, p.updated).rows :: FromPartial(p, o)
    ensures Gather(s, p, p.updated).rows != [] ==> Closing(s, p) !in s.snapshots
  {
    var g := Gather(s, p, p.updated);
    if g.rows != [] {
      var o := g.rows[0];
      assert FromPartial(p, o);
      RunRowsMember(g.store.observations, p.source, p.run, p.at);
      IdsMember(RunRows(g.store.observations, p.source, p.run, p.at), o);
      NovelSnapshot(s, Closing(s, p), o);
    }
  }

  /** What follows the gathering. */
  lemma {:induction false} GatheredCloses(s: Store, p: Partial, g: Progress)
    requires Consistent(s) && g == Gather(s, p, p.updated) && Grew(s, g) && EntriesHeld(g.tree, g.store.contents)
    requires p.source in s.sources && (g.error.None? <==> FilesPass(s, p, p.updated))
    ensures
      var out := RecordIncomplete(s, p);
      && out.rows == g.rows && out.store.observations == g.store.observations && out.store.absences == s.absences
      && (out.snapshot.Some? <==>
            g.error.None? && PresentOnce(p, p.updated) && Closing(s, p) !in s.snapshots)
      && out.store.snapshots == s.snapshots + (if out.snapshot.Some? then [out.snapshot.value] else [])
      && (out.snapshot.Some? ==> out.snapshot.value == Closing(s, p))
  {
    assert s.snapshots + [] == s.snapshots;
    if g.error.None? {
      GatherTree(s, p, p.updated);
      RecordTreeKeeps(g.store, g.tree);
      if !DistinctPaths(g.tree) { RepeatedPathsRaise(g.store, g.tree); }
    }
  }

  lemma UnrecordedPasses(s: Store, p: Partial, paths: seq<string>)
    requires Unrecorded(s, p)
    ensures FilesPass(s, p, paths) <==> FilesOnce(p, paths)
    ensures forall path :: Takes(s, p, paths, path) <==> IngestsFrom(p, paths, path)
  {
    forall path | p.HasFile(path) ensures Fresh(s, p, path) {}
    forall path ensures Takes(s, p, paths, path) <==> IngestsFrom(p, paths, path) {
      if IngestsFrom(p, paths, path) {
        var i :| 0 <= i < |paths| && paths[i] == path && FilesOnce(p, paths[..i]);
        assert FilesPass(s, p, paths[..i]);
      }
    }
  }

  /** At a new time: a row per file before the first repeated one, and a snapshot unless a path comes twice. */
  lemma {:induction false} IncompleteWritesAnew(s: Store, p: Partial)
    requires Consistent(s) && p.source in s.sources && Unrecorded(s, p)
    requires forall x | x in s.snapshots && x.source == p.source :: x.at != p.at
    ensures
      var out := RecordIncomplete(s, p);
      && out.store.observations == s.observations + out.rows && out.store.absences == s.absences
      && (forall o | o in out.rows :: FromPartial(p, o))
      && (forall path :: HasPath(out.rows, path) <==> Ingests(p, path))
      && (out.snapshot.Some? <==> PresentOnce(p, p.updated))
      && out.store.snapshots == s.snapshots + (if out.snapshot.Some? then [out.snapshot.value] else [])
      && (out.snapshot.Some? ==>
            var x := out.snapshot.value;
            x.source == p.source && x.at == p.at && !x.complete && x.evidence.reconciled == Some(false))
  {
    IncompleteWrites(s, p);
    UnrecordedPasses(s, p, p.updated);
  }

  /** A tree with a repeated path is never found among the recorded ones. */
  lemma {:induction false} RepeatedPathsRaise(s: Store, tree: seq<TreeEntry>)
    requires TreesWellFormed(s) && !DistinctPaths(tree)
    ensures Sort(tree, EntryLe) != [] && Identities(Sort(tree, EntryLe)) !in s.trees
  {
    var ordered := Sort(tree, EntryLe);
    SortProperties(tree, EntryLe);
    SortKeepsDistinct(tree);
    if Identities(ordered) in s.trees {
      var kept := s.trees[Identities(ordered)];
      assert |kept| == |Identities(kept)| == |ordered|;
      forall i | 0 <= i < |kept| ensures kept[i].path == ordered[i].path {
        assert Identities(kept)[i] == Identities(ordered)[i];
      }
    }
  }
}
