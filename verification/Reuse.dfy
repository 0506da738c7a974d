/** Reusing content on a matching token refines reading every file again. */
module Reuse {
  import opened Models
  import opened Ordering
  import opened Reconciliation
  import opened Store
  import opened Rsync
  import opened Incomplete
  import opened Resolver
  import opened Agreement

  /** What change evidence for a path stands for, over the whole history. */
  type Meaning = (string, TokenValue) -> Bytes

  ghost predicate HonestCall(meaning: Meaning, req: Request) {
    Recordable(req) ==>
      forall e | e in req.inventory.entries && e.kind == File && e.Token().Some? ::
        req.files[e.path] == meaning(e.path, e.Token().value.value)
  }

  // ---- forgetting how content was obtained ----------------------------------------------------

  function EraseRow(o: Observation): Observation { o.(reused := false) }

  function EraseRows(rows: seq<Observation>): seq<Observation> {
    seq(|rows|, i requires 0 <= i < |rows| => EraseRow(rows[i]))
  }

  function EraseSnapshot(x: Snapshot): Snapshot { x.(evidence := x.evidence.(ingested := 0, reused := 0)) }

  /** The tables without the reuse marks; snapshots keep theirs, being compared per call. */
  function EraseStore(s: Store): Store { s.(observations := EraseRows(s.observations), snapshots := []) }

  // ---- stored evidence is honest ---------------------------------------------------------------

  function TreeToken(e: TreeEntry): Option<ChangeToken> { RsyncToken(e.kind, e.size, e.modified, e.target) }

  ghost predicate EntryHonest(meaning: Meaning, e: TreeEntry) {
    e.kind == File && TreeToken(e).Some? ==> e.content == Some(Sha256(meaning(e.path, TreeToken(e).value.value)))
  }

  /** Every stored entry, stale or not, names the bytes its own evidence stands for. */
  ghost predicate TreesHonest(meaning: Meaning, s: Store) {
    forall id | id in s.trees :: forall e | e in s.trees[id] :: EntryHonest(meaning, e)
  }

  ghost predicate PreviousHonest(meaning: Meaning, previous: map<string, PreviousItem>) {
    forall path | path in previous ::
      var p := previous[path];
      p.kind == File && p.token.Some? ==> p.content == Some(Sha256(meaning(path, p.token.value.value)))
  }

  ghost predicate TokensFromKind(previous: map<string, PreviousItem>) {
    forall path | path in previous && previous[path].token.Some? ::
      previous[path].token.value.value.FileState? ==> previous[path].kind == File
  }

  lemma {:induction false} PreviousFromEntries(source: SourceId, entries: seq<TreeEntry>, scope: seq<string>)
    ensures forall p | p in PreviousFrom(source, entries, scope) :: exists e ::
        e in entries && p == PreviousOf(source, e)
  {
    if entries != [] {
      var init, last := entries[..|entries| - 1], entries[|entries| - 1];
      PreviousFromEntries(source, init, scope);
      assert entries == init + [last];
    }
  }

  lemma {:induction false} PreviousMapRange(previous: seq<PreviousItem>)
    ensures forall id | id in PreviousMap(previous) :: Known(previous, PreviousMap(previous)[id], id)
  {
    if previous != [] {
      PreviousMapRange(previous[..|previous| - 1]);
    }
  }

  lemma BaselineHonest(meaning: Meaning, rank: Snapshot -> int, s: Store, source: SourceId, scope: seq<string>)
    requires TreesHonest(meaning, s)
    ensures
      var m := PreviousMap(PreviousItems(rank, s, source, scope));
      PreviousHonest(meaning, m) && TokensFromKind(m)
  {
    var entries := BaselineEntries(rank, s, source, scope);
    var items := PreviousItems(rank, s, source, scope);
    PreviousFromEntries(source, entries, scope);
    PreviousMapRange(items);
    var m := PreviousMap(items);
    forall path | path in m
      ensures m[path].token.Some? && m[path].token.value.value.FileState? ==> m[path].kind == File
      ensures m[path].kind == File && m[path].token.Some? ==>
          m[path].content == Some(Sha256(meaning(path, m[path].token.value.value)))
    {
      assert Known(items, m[path], path);
      var e :| e in entries && m[path] == PreviousOf(source, e);
      assert EntryHonest(meaning, e);
    }
  }

  // ---- one entry, then all entries -------------------------------------------------------------

  ghost predicate SameButReuse(p: Progress, q: Progress) {
    && EraseStore(p.store) == EraseStore(q.store)
    && p.store.snapshots == q.store.snapshots
    && EraseRows(p.rows) == EraseRows(q.rows)
    && p.tree == q.tree
    && p.ingested + p.reused == q.ingested == |p.rows| && q.reused == 0
    && p.error == q.error
  }

  ghost predicate RecordsLocal(req: Request, o: Observation) {
    && o.path.Some? && o.path.value in req.files
    && o.content == Sha256(req.files[o.path.value])
    && o.artifactKey == PathKey(req.source, o.path.value)
  }

  lemma ErasedHas(a: seq<Observation>, b: seq<Observation>, id: ObservationId)
    requires EraseRows(a) == EraseRows(b)
    ensures HasObservation(a, id) == HasObservation(b, id)
  {
    assert |a| == |EraseRows(a)| == |b|;
    forall i | 0 <= i < |a| ensures a[i].Id() == b[i].Id() {
      assert EraseRows(a)[i] == EraseRows(b)[i];
    }
  }

  lemma ErasedAppend(a: seq<Observation>, b: seq<Observation>, x: Observation, y: Observation)
    requires EraseRows(a) == EraseRows(b) && EraseRow(x) == EraseRow(y)
    ensures EraseRows(a + [x]) == EraseRows(b + [y])
  {
    assert EraseRows(a + [x]) == EraseRows(a) + [EraseRow(x)];
    assert EraseRows(b + [y]) == EraseRows(b) + [EraseRow(y)];
  }

  lemma BundlesAgree(s: Store, t: Store, x: Observation, y: Observation)
    requires EraseStore(s) == EraseStore(t) && s.snapshots == t.snapshots && EraseRow(x) == EraseRow(y)
    ensures
      var a, b := RecordBundle(s, x), RecordBundle(t, y);
      && EraseStore(a.store) == EraseStore(b.store) && a.store.snapshots == b.store.snapshots
      && (a.Raised? <==> b.Raised?) && (a.Raised? ==> a.error == b.error)
      && (a.Returned? ==> a.value == x && b.value == y)
  {
    assert x.Id() == EraseRow(x).Id() == EraseRow(y).Id() == y.Id();
    ErasedHas(s.observations, t.observations, x.Id());
    ErasedAppend(s.observations, t.observations, x, y);
    assert s.sources == EraseStore(s).sources == EraseStore(t).sources == t.sources;
    assert s.contents == EraseStore(s).contents == EraseStore(t).contents == t.contents;
  }

  // ---- stale content ---------------------------------------------------------------------------

  /** The row of a file would repeat one that is already recorded. */
  ghost predicate AlreadyRecorded(s: Store, req: Request, path: string, content: ContentId) {
    HasObservation(s.observations, FileRow(req, path, content, false).Id())
  }

  /**
   * The guard of reuse finds old bytes: the entry matches its baseline entry's evidence, and the content that
   * names is not that of the mirrored file.
   */
  ghost predicate IsStale(req: Request, e: Entry, previous: map<string, PreviousItem>) {
    e.kind == File && e.path in req.files && ContentFor(req, e, Lookup(previous, e.path)) != Sha256(req.files[e.path])
  }

  /** No file before this place repeats a recorded row, so the call gets this far. */
  ghost predicate Reached(s: Store, req: Request, es: seq<Entry>, i: nat) {
    forall j | 0 <= j < i && j < |es| && es[j].kind == File && es[j].path in req.files ::
      !AlreadyRecorded(s, req, es[j].path, Sha256(req.files[es[j].path]))
  }

  /** A stale entry is reached, and not both rows it could lead to are recorded already. */
  ghost predicate Misleads(s: Store, req: Request, es: seq<Entry>, previous: map<string, PreviousItem>, i: nat) {
    && i < |es| && IsStale(req, es[i], previous) && Reached(s, req, es, i)
    && !(AlreadyRecorded(s, req, es[i].path, Sha256(req.files[es[i].path]))
         && AlreadyRecorded(s, req, es[i].path, ContentFor(req, es[i], Lookup(previous, es[i].path))))
  }

  ghost predicate NoneMisleads(s: Store, req: Request, es: seq<Entry>, previous: map<string, PreviousItem>) {
    forall i: nat :: !Misleads(s, req, es, previous, i)
  }

  // ---- entries that do not mislead ----------------------------------------------------------------

  ghost predicate Harmless(p: Progress, req: Request, e: Entry, previous: map<string, PreviousItem>) {
    e.kind == File && e.path in req.files && p.error.None? && req.source in p.store.sources ==>
      var local, known := Sha256(req.files[e.path]), ContentFor(req, e, Lookup(previous, e.path));
      known == local
      || (AlreadyRecorded(p.store, req, e.path, local) && AlreadyRecorded(p.store, req, e.path, known)
        && local in p.store.blobs)
  }

  lemma EntryAgrees(p: Progress, q: Progress, req: Request, e: Entry, previous: map<string, PreviousItem>)
    requires e.kind == File ==> e.path in req.files
    requires SameButReuse(p, q) && p.store.contents <= p.store.blobs && PreviousHeld(previous, p.store.contents)
    requires Harmless(p, req, e, previous)
    ensures SameButReuse(RecordEntry(p, req, e, previous, true), RecordEntry(q, req, e, previous, false))
  {
    if p.error.None? && e.kind == File {
      var prior, content := Lookup(previous, e.path), Sha256(req.files[e.path]);
      var s, t := p.store, q.store;
      SameTables(s, t);
      var known, read := Reusable(s, e, prior), FileRow(req, e.path, content, false);
      var t' := t.(blobs := t.blobs + {content});
      if known.Some? && req.source in s.sources {
        if known.value == content {
          assert t.blobs + {content} == t.blobs;
          BundlesAgree(s, t', FileRow(req, e.path, content, true), read);
          ErasedAppend(p.rows, q.rows, FileRow(req, e.path, content, true), read);
        } else {
          assert t.blobs + {content} == t.blobs;
          assert FileRow(req, e.path, known.value, true).Id() == FileRow(req, e.path, known.value, false).Id();
          ErasedHas(s.observations, t.observations, read.Id());
        }
      } else {
        BundlesAgree(s.(blobs := s.blobs + {content}), t', read, read);
        ErasedAppend(p.rows, q.rows, read, read);
      }
    }
  }

  lemma SameTables(s: Store, t: Store)
    requires EraseStore(s) == EraseStore(t)
    ensures s.sources == t.sources && s.contents == t.contents && s.blobs == t.blobs && s.trees == t.trees
  {
    assert s.sources == EraseStore(s).sources == EraseStore(t).sources == t.sources;
    assert s.contents == EraseStore(s).contents == EraseStore(t).contents == t.contents;
    assert s.blobs == EraseStore(s).blobs == EraseStore(t).blobs == t.blobs;
    assert s.trees == EraseStore(s).trees == EraseStore(t).trees == t.trees;
  }

  lemma {:induction false} PrefixDoesNotMislead(s: Store, req: Request, init: seq<Entry>, e: Entry,
        previous: map<string, PreviousItem>)
    requires NoneMisleads(s, req, init + [e], previous)
    ensures NoneMisleads(s, req, init, previous)
  {
    var all := init + [e];
    forall i: nat ensures !Misleads(s, req, init, previous, i) {
      assert !Misleads(s, req, all, previous, i);
      if i < |init| {
        assert all[i] == init[i];
        SameReach(s, req, init, e, i);
      }
    }
  }

  lemma SameReach(s: Store, req: Request, init: seq<Entry>, e: Entry, i: nat)
    requires i <= |init|
    ensures Reached(s, req, init + [e], i) <==> Reached(s, req, init, i)
  {
    var all := init + [e];
    assert forall j | 0 <= j < |init| :: all[j] == init[j];
  }

  /** Reading every file ends without an error exactly when no file repeats a recorded row. */
  lemma {:induction false} ReadingReaches(s: Store, req: Request, es: seq<Entry>, previous: map<string, PreviousItem>)
    requires Mirrored(req, es) && DistinctEntries(es) && req.source in s.sources
    ensures RecordEntries(s, req, es, previous, false).error.None? <==> Reached(s, req, es, |es|)
    ensures forall o | o in RecordEntries(s, req, es, previous, false).rows ::
              o.path.Some? && o.path.value in req.files && o.content == Sha256(req.files[o.path.value])
  {
    if es != [] {
      var init, e := es[..|es| - 1], es[|es| - 1];
      assert es == init + [e];
      ReadingReaches(s, req, init, previous);
      EntriesFrame(s, req, init, previous, false);
      var q := RecordEntries(s, req, init, previous, false);
      SameReach(s, req, init, e, |init|);
      if e.kind == File && q.error.None? {
        NewWithinCall(s, req, init, e, q.rows);
      }
    }
  }

  /** Within one call the paths differ, so only a row recorded before can be repeated. */
  lemma NewWithinCall(s: Store, req: Request, init: seq<Entry>, e: Entry, rows: seq<Observation>)
    requires RowsListed(req, init, rows) && DistinctEntries(init + [e])
    ensures forall content :: HasObservation(s.observations + rows, FileRow(req, e.path, content, false).Id())
                         <==> AlreadyRecorded(s, req, e.path, content)
  {
    var all := init + [e];
    forall content ensures HasObservation(s.observations + rows, FileRow(req, e.path, content, false).Id())
                      <==> AlreadyRecorded(s, req, e.path, content)
    {
      var id := FileRow(req, e.path, content, false).Id();
      RowsSplit(s.observations, rows, id);
      forall i | 0 <= i < |rows| ensures rows[i].Id() != id {
        assert IsListed(req, init, rows[i]);
        var x :| x in init && x.kind == File && RowFor(req, rows[i], x.path);
        var k :| 0 <= k < |init| && init[k] == x;
        assert all[k].path != all[|init|].path;
      }
    }
  }

  /** While nothing misleads, reusing and reading go the same way. */
  lemma {:induction false} AllEntriesAgree(s: Store, req: Request, es: seq<Entry>, previous: map<string, PreviousItem>)
    requires Mirrored(req, es) && DistinctEntries(es) && s.contents <= s.blobs && ReferencesHeld(s)
    requires PreviousHeld(previous, s.contents)
    requires req.source in s.sources ==> NoneMisleads(s, req, es, previous)
    ensures SameButReuse(RecordEntries(s, req, es, previous, true), RecordEntries(s, req, es, previous, false))
  {
    if es != [] {
      var init, e := es[..|es| - 1], es[|es| - 1];
      assert es == init + [e];
      if req.source in s.sources { PrefixDoesNotMislead(s, req, init, e, previous); }
      AllEntriesAgree(s, req, init, previous);
      var p, q := RecordEntries(s, req, init, previous, true), RecordEntries(s, req, init, previous, false);
      RowContents(s, req, init, previous);
      EntriesFrame(s, req, init, previous, true);
      if req.source in s.sources && e.kind == File && p.error.None? {
        LastIsHarmless(s, req, init, e, previous, p, q);
      }
      EntryAgrees(p, q, req, e, previous);
    }
  }

  lemma {:induction false} LastIsHarmless(s: Store, req: Request, init: seq<Entry>, e: Entry,
        previous: map<string, PreviousItem>, p: Progress, q: Progress)
    requires Mirrored(req, init + [e]) && DistinctEntries(init + [e]) && s.contents <= s.blobs && ReferencesHeld(s)
    requires req.source in s.sources && NoneMisleads(s, req, init + [e], previous) && Mirrored(req, init)
    requires p == RecordEntries(s, req, init, previous, true) && q == RecordEntries(s, req, init, previous, false)
    requires SameButReuse(p, q) && Grew(s, p) && RowsListed(req, init, p.rows) && e.kind == File && p.error.None?
    ensures Harmless(p, req, e, previous)
  {
    var all, i := init + [e], |init|;
    assert all[i] == e && e in all;
    assert DistinctEntries(init) by { assert forall j | 0 <= j < |init| :: init[j] == all[j]; }
    ReadingReaches(s, req, init, previous);
    SameReach(s, req, init, e, i);
    assert !Misleads(s, req, all, previous, i);
    NewWithinCall(s, req, init, e, p.rows);
    RecordedIsStored(s, req, e.path, Sha256(req.files[e.path]));
  }

  lemma RecordedIsStored(s: Store, req: Request, path: string, content: ContentId)
    requires ReferencesHeld(s) && s.contents <= s.blobs
    ensures AlreadyRecorded(s, req, path, content) ==> content in s.blobs
  {
  }

  // ---- a whole call ---------------------------------------------------------------------------

  ghost predicate SameOutcome(fast: Outcome, slow: Outcome) {
    && EraseStore(fast.store) == EraseStore(slow.store)
    && EraseRows(fast.rows) == EraseRows(slow.rows)
    && fast.absences == slow.absences
    && fast.error == slow.error
    && |fast.store.snapshots| == |slow.store.snapshots|
    && (forall i | 0 <= i < |fast.store.snapshots| ::
      EraseSnapshot(fast.store.snapshots[i]) == EraseSnapshot(slow.store.snapshots[i]))
    && (fast.snapshot.Some? <==> slow.snapshot.Some?)
    && (fast.snapshot.Some? ==> EraseSnapshot(fast.snapshot.value) == EraseSnapshot(slow.snapshot.value))
  }

  lemma {:induction false} ErasedIds(a: seq<Observation>, b: seq<Observation>, source: SourceId, run: RunId, at: Time)
    requires EraseRows(a) == EraseRows(b)
    ensures Ids(RunRows(a, source, run, at)) == Ids(RunRows(b, source, run, at))
  {
    assert |a| == |EraseRows(a)| == |b|;
    if a != [] {
      var n := |a| - 1;
      assert EraseRows(a)[n] == EraseRows(b)[n];
      assert EraseRows(a[..n]) == EraseRows(a)[..n] && EraseRows(b[..n]) == EraseRows(b)[..n];
      ErasedIds(a[..n], b[..n], source, run, at);
      IdsAppend(RunRows(a[..n], source, run, at), a[n]);
      IdsAppend(RunRows(b[..n], source, run, at), b[n]);
    }
  }

  lemma IdsAppend(rows: seq<Observation>, o: Observation)
    ensures Ids(rows + [o]) == Ids(rows) + [o.Id()]
    ensures Ids(rows + []) == Ids(rows)
  {
    assert rows + [] == rows;
  }

  lemma {:induction false} AbsencesAgree(s: Store, t: Store, req: Request, gone: seq<PreviousItem>)
    requires EraseStore(s) == EraseStore(t) && s.snapshots == t.snapshots
    ensures
      var a, b := RecordAbsences(s, req, gone), RecordAbsences(t, req, gone);
      && EraseStore(a.store) == EraseStore(b.store) && a.store.snapshots == b.store.snapshots
      && a.rows == b.rows && a.error == b.error
  {
    assert s.absences == EraseStore(s).absences == EraseStore(t).absences == t.absences;
    assert s.sources == EraseStore(s).sources == EraseStore(t).sources == t.sources;
    if gone != [] {
      var init := gone[..|gone| - 1];
      AbsencesAgree(s, t, req, init);
      var a, b := RecordAbsences(s, req, init), RecordAbsences(t, req, init);
      assert a.store.absences == EraseStore(a.store).absences == EraseStore(b.store).absences == b.store.absences;
      assert a.store.sources == EraseStore(a.store).sources == EraseStore(b.store).sources == b.store.sources;
    }
  }

  lemma ConclusionsAgree(s: Store, p: Progress, q: Progress, a: AbsenceProgress, b: AbsenceProgress, req: Request,
        es: seq<Entry>)
    requires Consistent(s) && SameButReuse(p, q) && a.error.None? && b.error.None?
    requires Grew(s, p) && Grew(s, q) && RowsListed(req, es, p.rows) && RowsListed(req, es, q.rows)
    requires a.store == p.store.(absences := a.store.absences) && b.store == q.store.(absences := b.store.absences)
    requires EraseStore(a.store) == EraseStore(b.store) && a.store.snapshots == b.store.snapshots == s.snapshots
        && a.rows == b.rows
    ensures SameOutcome(Concluded(p, a, req), Concluded(q, b, req))
  {
    var u, v := a.store, b.store;
    var ordered := Sort(p.tree, EntryLe);
    SameParts(u, v);
    ErasedIds(u.observations, v.observations, req.source, req.run, req.at);
    var e, f := Evidence(Some(true), None, None, p.ingested, p.reused, |a.rows|),
      Evidence(Some(true), None, None, q.ingested, q.reused, |b.rows|);
    TreeCallsAgree(u, v, ordered);
    var tu, tv := RecordTree(u, ordered), RecordTree(v, ordered);
    if tu.Returned? && req.source in u.sources {
      var whole := req.inventory.scope == [];
      var x := Snapshot(req.source, req.run, req.at, whole, Some(tu.value), SortText(req.inventory.scope),
        BoundEvidence(u, req.source, req.run, req.at, e));
      var y := Snapshot(req.source, req.run, req.at, whole, Some(tv.value), SortText(req.inventory.scope),
        BoundEvidence(v, req.source, req.run, req.at, f));
      assert |q.rows| == |EraseRows(q.rows)| == |p.rows|;
      NovelTogether(s, p, q, u, v, req, es, e, f, x, y);
      SnapshotCallsAgree(tu.store, tv.store, x, y);
    }
  }

  lemma TreeCallsAgree(u: Store, v: Store, ordered: seq<TreeEntry>)
    requires EraseStore(u) == EraseStore(v) && u.snapshots == v.snapshots && u.trees == v.trees
    ensures
      var tu, tv := RecordTree(u, ordered), RecordTree(v, ordered);
      && EraseStore(tu.store) == EraseStore(tv.store)
      && tu.store.snapshots == u.snapshots && tv.store.snapshots == v.snapshots
      && (tu.Returned? <==> tv.Returned?)
      && (if tu.Returned? then tu.value == tv.value else tu.error == tv.error)
  {
  }

  lemma SnapshotCallsAgree(t: Store, w: Store, x: Snapshot, y: Snapshot)
    requires EraseStore(t) == EraseStore(w) && t.snapshots == w.snapshots && EraseSnapshot(x) == EraseSnapshot(y)
    requires x == y || (x !in t.snapshots && y !in t.snapshots)
    ensures
      var a, b := RecordSnapshot(t, x), RecordSnapshot(w, y);
      && EraseStore(a.store) == EraseStore(b.store)
      && (a.Returned? <==> b.Returned?) && (a.Raised? ==> a.error == b.error)
  {
  }

  /** Either both snapshots are new, because each binds a new row, or no row was written and they are the same. */
  lemma NovelTogether(s: Store, p: Progress, q: Progress, u: Store, v: Store, req: Request, es: seq<Entry>,
                      e: Evidence, f: Evidence, x: Snapshot, y: Snapshot)
    requires Consistent(s) && EraseRows(p.rows) == EraseRows(q.rows)
    requires NewRows(s, p.rows) && NewRows(s, q.rows) && RowsListed(req, es, p.rows) && RowsListed(req, es, q.rows)
    requires u.observations == s.observations + p.rows && v.observations == s.observations + q.rows
    requires x.evidence == BoundEvidence(u, req.source, req.run, req.at, e)
        && y.evidence == BoundEvidence(v, req.source, req.run, req.at, f)
    requires p.rows == [] ==> x == y
    ensures x == y || (x !in s.snapshots && y !in s.snapshots)
  {
    assert |q.rows| == |EraseRows(q.rows)| == |EraseRows(p.rows)| == |p.rows|;
    if p.rows != [] {
      OwnRowsAreBound(u, req, es, p.rows, e);
      OwnRowsAreBound(v, req, es, q.rows, f);
      NovelSnapshot(s, x, p.rows[0]);
      NovelSnapshot(s, y, q.rows[0]);
    }
  }

  lemma SameParts(u: Store, v: Store)
    requires EraseStore(u) == EraseStore(v)
    ensures u.trees == v.trees && u.sources == v.sources && EraseRows(u.observations) == EraseRows(v.observations)
  {
    assert u.trees == EraseStore(u).trees == EraseStore(v).trees == v.trees;
    assert u.sources == EraseStore(u).sources == EraseStore(v).sources == v.sources;
    assert EraseRows(u.observations) == EraseStore(u).observations == EraseStore(v).observations
      == EraseRows(v.observations);
  }

  /** The call reaches a file whose evidence matches the baseline while the content that names is not the mirror's. */
  ghost predicate ReuseMisleads(rank: Snapshot -> int, s: Store, req: Request) {
    Recordable(req) && req.source in s.sources
    && !NoneMisleads(s, req, SortedEntries(req), PreviousMap(PreviousItems(rank, s, req.source, req.inventory.scope)))
  }

  lemma {:induction false} AgreesUnlessMisled(rank: Snapshot -> int, s: Store, req: Request)
    requires Consistent(s) && !ReuseMisleads(rank, s, req)
    ensures SameOutcome(Reconcile(rank, s, req, true), Reconcile(rank, s, req, false))
  {
    if Recordable(req) {
      SortedEntriesMirrored(req);
      SortedEntriesDistinct(req);
      var items := PreviousItems(rank, s, req.source, req.inventory.scope);
      var es, previous := SortedEntries(req), PreviousMap(items);
      BaselineHeld(rank, s, req.source, req.inventory.scope);
      AllEntriesAgree(s, req, es, previous);
      EntriesFrame(s, req, es, previous, true);
      EntriesFrame(s, req, es, previous, false);
      var p, q := RecordEntries(s, req, es, previous, true), RecordEntries(s, req, es, previous, false);
      var gone := GoneFiles(req.inventory, items);
      AbsencesAgree(p.store, q.store, req, gone);
      AbsencesFrame(p.store, req, gone);
      AbsencesFrame(q.store, req, gone);
      var a, b := RecordAbsences(p.store, req, gone), RecordAbsences(q.store, req, gone);
      if p.error.None? && a.error.None? {
        ConclusionsAgree(s, p, q, a, b, req, es);
      }
    }
  }

  // ---- a misleading entry shows in the rows ---------------------------------------------------------

  lemma {:induction false} RowsPersist(s: Store, req: Request, es: seq<Entry>, previous: map<string, PreviousItem>,
        reuse: bool, k: nat)
    requires Mirrored(req, es) && k <= |es| && Mirrored(req, es[..k])
    ensures
      var early, late := RecordEntries(s, req, es[..k], previous, reuse), RecordEntries(s, req, es, previous, reuse);
      early.rows <= late.rows && (early.error.Some? ==> late == early)
  {
    if k == |es| {
      assert es[..k] == es;
    } else {
      var init := es[..|es| - 1];
      assert init[..k] == es[..k];
      RowsPersist(s, req, init, previous, reuse, k);
    }
  }

  /** From one entry on, the two ways have written different rows, or only one of them has failed. */
  ghost predicate EntryDiffers(p: Progress, p': Progress, q': Progress) {
    var n := |p.rows|;
    && n <= |p'.rows| && n <= |q'.rows|
    && (p'.error.Some? ==> |p'.rows| == n && |q'.rows| > n)
    && (q'.error.Some? ==> |q'.rows| == n && |p'.rows| > n)
    && (p'.error.None? ==> |p'.rows| > n)
    && (q'.error.None? ==> |q'.rows| > n)
    && (|p'.rows| > n && |q'.rows| > n ==> p'.rows[n].content != q'.rows[n].content)
  }

  /** The first misleading entry makes the two ways write different rows, or only one of them fail. */
  lemma MisledEntryDiffers(p: Progress, q: Progress, req: Request, e: Entry, previous: map<string, PreviousItem>)
    requires e.kind == File && e.path in req.files && SameButReuse(p, q) && p.error.None?
    requires p.store.contents <= p.store.blobs && PreviousHeld(previous, p.store.contents)
    requires req.source in p.store.sources && IsStale(req, e, previous)
    requires !(AlreadyRecorded(p.store, req, e.path, Sha256(req.files[e.path]))
               && AlreadyRecorded(p.store, req, e.path, ContentFor(req, e, Lookup(previous, e.path))))
    ensures EntryDiffers(p, RecordEntry(p, req, e, previous, true), RecordEntry(q, req, e, previous, false))
  {
    var s, t := p.store, q.store;
    SameTables(s, t);
    assert |p.rows| == |EraseRows(p.rows)| == |q.rows|;
    var known, local := ContentFor(req, e, Lookup(previous, e.path)), Sha256(req.files[e.path]);
    assert Reusable(s, e, Lookup(previous, e.path)) == Some(known);
    assert FileRow(req, e.path, known, true).Id() == FileRow(req, e.path, known, false).Id();
    assert s.observations == p.store.observations;
    ErasedHas(s.observations, t.observations, FileRow(req, e.path, local, false).Id());
  }

  lemma RowsDiffer(p: Progress, early: Progress, early': Progress, late: Progress, late': Progress)
    requires early.rows <= late.rows && early'.rows <= late'.rows
    requires (early.error.Some? ==> late == early) && (early'.error.Some? ==> late' == early')
    requires EntryDiffers(p, early, early')
    ensures EraseRows(late.rows) != EraseRows(late'.rows)
  {
    var n := |p.rows|;
    if |late.rows| == |late'.rows| {
      assert EraseRows(late.rows)[n].content == early.rows[n].content;
      assert EraseRows(late'.rows)[n].content == early'.rows[n].content;
    } else {
      assert |EraseRows(late.rows)| == |late.rows| && |EraseRows(late'.rows)| == |late'.rows|;
    }
  }

  lemma {:induction false} FirstMisleading(s: Store, req: Request, es: seq<Entry>, previous: map<string, PreviousItem>,
        bound: nat) returns (i: nat)
    requires exists j: nat :: j < bound && Misleads(s, req, es, previous, j)
    ensures Misleads(s, req, es, previous, i) && forall j: nat | j < i :: !Misleads(s, req, es, previous, j)
  {
    i := 0;
    while !Misleads(s, req, es, previous, i)
      invariant i < bound && forall j: nat | j < i :: !Misleads(s, req, es, previous, j)
      invariant exists j: nat :: i <= j < bound && Misleads(s, req, es, previous, j)
      decreases bound - i
    {
      i := i + 1;
    }
  }

  lemma {:induction false} MisledAtEntry(s: Store, req: Request, init: seq<Entry>, e: Entry,
        previous: map<string, PreviousItem>, p: Progress, q: Progress)
    requires DistinctEntries(init + [e]) && PreviousHeld(previous, s.contents) && req.source in s.sources
    requires SameButReuse(p, q) && p.error.None? && Grew(s, p) && RowsListed(req, init, p.rows)
    requires s.contents <= p.store.contents <= p.store.blobs
    requires IsStale(req, e, previous)
    requires !(AlreadyRecorded(s, req, e.path, Sha256(req.files[e.path]))
               && AlreadyRecorded(s, req, e.path, ContentFor(req, e, Lookup(previous, e.path))))
    ensures EntryDiffers(p, RecordEntry(p, req, e, previous, true), RecordEntry(q, req, e, previous, false))
  {
    NewWithinCall(s, req, init, e, p.rows);
    MisledEntryDiffers(p, q, req, e, previous);
  }

  lemma {:induction false} MisledRowsDiffer(s: Store, req: Request, es: seq<Entry>, previous: map<string, PreviousItem>,
        i: nat)
    requires Mirrored(req, es) && DistinctEntries(es) && s.contents <= s.blobs && ReferencesHeld(s)
    requires PreviousHeld(previous, s.contents) && req.source in s.sources
    requires Misleads(s, req, es, previous, i) && forall j: nat | j < i :: !Misleads(s, req, es, previous, j)
    ensures EraseRows(RecordEntries(s, req, es, previous, true).rows)
        != EraseRows(RecordEntries(s, req, es, previous, false).rows)
  {
    var init, upto, e := es[..i], es[..i + 1], es[i];
    assert upto[..i] == init && upto[i] == e;
    PrefixAgrees(s, req, es, previous, i);
    var p, q := RecordEntries(s, req, init, previous, true), RecordEntries(s, req, init, previous, false);
    assert upto == init + [e];
    MisledAtEntry(s, req, init, e, previous, p, q);
    RowsPersist(s, req, es, previous, true, i + 1);
    RowsPersist(s, req, es, previous, false, i + 1);
    RowsDiffer(p, RecordEntries(s, req, upto, previous, true), RecordEntries(s, req, upto, previous, false),
               RecordEntries(s, req, es, previous, true), RecordEntries(s, req, es, previous, false));
  }

  lemma {:induction false} PrefixAgrees(s: Store, req: Request, es: seq<Entry>, previous: map<string, PreviousItem>,
        i: nat)
    requires Mirrored(req, es) && DistinctEntries(es) && s.contents <= s.blobs && ReferencesHeld(s)
    requires PreviousHeld(previous, s.contents) && req.source in s.sources && i < |es|
    requires Reached(s, req, es, i) && forall j: nat | j < i :: !Misleads(s, req, es, previous, j)
    ensures
      var init := es[..i];
      Mirrored(req, init) && DistinctEntries(init + [es[i]])
      && var p, q := RecordEntries(s, req, init, previous, true), RecordEntries(s, req, init, previous, false);
         && SameButReuse(p, q) && p.error.None? && Grew(s, p) && RowsListed(req, init, p.rows)
         && s.contents <= p.store.contents <= p.store.blobs
  {
    var init := es[..i];
    assert forall j | 0 <= j < i :: init[j] == es[j];
    assert init + [es[i]] == es[..i + 1];
    forall j: nat ensures !Misleads(s, req, init, previous, j) {
      if j < i {
        assert !Misleads(s, req, es, previous, j);
        assert Reached(s, req, init, j) <==> Reached(s, req, es, j);
      }
    }
    assert Reached(s, req, init, i);
    AllEntriesAgree(s, req, init, previous);
    ReadingReaches(s, req, init, previous);
    EntriesFrame(s, req, init, previous, true);
    RowContents(s, req, init, previous);
  }

  /**
   * On any consistent store, a listing does what reading every file would do exactly when no file it reaches
   * matches its baseline entry's evidence while that entry's content is not the mirrored file's.
   */
  lemma {:induction false} CallsAgreeExactly(rank: Snapshot -> int, s: Store, req: Request)
    requires Consistent(s)
    ensures SameOutcome(Reconcile(rank, s, req, true), Reconcile(rank, s, req, false)) <==> !ReuseMisleads(rank, s, req)
  {
    if ReuseMisleads(rank, s, req) {
      SortedEntriesMirrored(req);
      SortedEntriesDistinct(req);
      var es, previous := SortedEntries(req), PreviousMap(PreviousItems(rank, s, req.source, req.inventory.scope));
      BaselineHeld(rank, s, req.source, req.inventory.scope);
      var k: nat :| Misleads(s, req, es, previous, k);
      var i := FirstMisleading(s, req, es, previous, k + 1);
      MisledRowsDiffer(s, req, es, previous, i);
      OutcomeRows(rank, s, req, true);
      OutcomeRows(rank, s, req, false);
    } else {
      AgreesUnlessMisled(rank, s, req);
    }
  }

  /** A listing that is not misled records exactly the mirrored bytes. */
  lemma {:induction false} UnmisledIsLocal(rank: Snapshot -> int, s: Store, req: Request)
    requires Consistent(s) && Recordable(req) && req.source in s.sources && !ReuseMisleads(rank, s, req)
    ensures forall o | o in Reconcile(rank, s, req, true).rows ::
              o.path.Some? && o.path.value in req.files && o.content == Sha256(req.files[o.path.value])
  {
    CallsAgreeExactly(rank, s, req);
    OutcomeRows(rank, s, req, false);
    SortedEntriesDistinct(req);
    ReadingReaches(s, req, SortedEntries(req), PreviousMap(PreviousItems(rank, s, req.source, req.inventory.scope)));
    var fast, slow := Reconcile(rank, s, req, true).rows, Reconcile(rank, s, req, false).rows;
    assert |fast| == |EraseRows(fast)| == |slow|;
    forall i | 0 <= i < |fast| ensures fast[i].path == slow[i].path && fast[i].content == slow[i].content {
      assert EraseRows(fast)[i] == EraseRows(slow)[i];
    }
  }

  // ---- honest evidence never misleads ----------------------------------------------------------------

  /** A match on honest stored evidence finds exactly the bytes of the mirrored file. */
  lemma HonestIsNotStale(meaning: Meaning, rank: Snapshot -> int, s: Store, req: Request, e: Entry)
    requires TreesHonest(meaning, s) && HonestCall(meaning, req) && Recordable(req) && e in req.inventory.entries
    ensures !IsStale(req, e, PreviousMap(PreviousItems(rank, s, req.source, req.inventory.scope)))
  {
    BaselineHonest(meaning, rank, s, req.source, req.inventory.scope);
  }

  lemma CallsAgree(meaning: Meaning, rank: Snapshot -> int, s: Store, req: Request)
    requires Consistent(s) && TreesHonest(meaning, s) && HonestCall(meaning, req)
    ensures SameOutcome(Reconcile(rank, s, req, true), Reconcile(rank, s, req, false))
    ensures forall o | o in Reconcile(rank, s, req, true).rows :: RecordsLocal(req, o)
  {
    if Recordable(req) {
      var es, previous := SortedEntries(req), PreviousMap(PreviousItems(rank, s, req.source, req.inventory.scope));
      SortedEntriesMirrored(req);
      forall e | e in es ensures !IsStale(req, e, previous) { HonestIsNotStale(meaning, rank, s, req, e); }
      BaselineHeld(rank, s, req.source, req.inventory.scope);
      OutcomeRows(rank, s, req, true);
      LocalUnlessStale(s, req, es, previous);
    }
    CallsAgreeExactly(rank, s, req);
  }

  lemma {:induction false} LocalUnlessStale(s: Store, req: Request, es: seq<Entry>, previous: map<string, PreviousItem>)
    requires Mirrored(req, es) && PreviousHeld(previous, s.contents) && s.contents <= s.blobs
    requires forall e | e in es :: !IsStale(req, e, previous)
    ensures forall o | o in RecordEntries(s, req, es, previous, true).rows :: RecordsLocal(req, o)
  {
    RowContents(s, req, es, previous);
    forall o | o in RecordEntries(s, req, es, previous, true).rows ensures RecordsLocal(req, o) {
      assert RecordsContent(req, es, previous, o);
    }
  }

  // ---- a whole history --------------------------------------------------------------------------

  lemma TreeFromHonest(meaning: Meaning, req: Request, es: seq<Entry>, tree: seq<TreeEntry>, rows: seq<Observation>)
    requires Mirrored(req, es) && TreeMatches(es, tree, rows) && forall o | o in rows :: RecordsLocal(req, o)
    requires forall e | e in es && e.kind == File && e.Token().Some? ::
        req.files[e.path] == meaning(e.path, e.Token().value.value)
    ensures forall t | t in tree :: EntryHonest(meaning, t)
    ensures forall t | t in tree && t.kind == File ::
        t.path in req.files && t.content == Some(Sha256(req.files[t.path]))
  {
    forall t | t in tree
      ensures EntryHonest(meaning, t)
      ensures t.kind == File ==> t.path in req.files && t.content == Some(Sha256(req.files[t.path]))
    {
      var i :| 0 <= i < |tree| && tree[i] == t;
      assert EntryRecorded(es[i], t, rows);
      if es[i].kind == File {
        var o :| o in rows && o.path == Some(es[i].path) && t == EntryRow(es[i], Some(o.content));
        assert RecordsLocal(req, o) && TreeToken(t) == es[i].Token();
        assert es[i] in es;
      }
    }
  }

  /** The tree a call ends with names the mirrored bytes of every file, whatever metadata it kept. */
  ghost predicate TreeIsLocal(s: Store, req: Request, x: Snapshot) {
    x.tree.Some? && TreeNamesMirror(s, req, x.tree.value)
  }

  ghost predicate TreeNamesMirror(s: Store, req: Request, id: TreeId) {
    && id in s.trees
    && forall t | t in s.trees[id] && t.kind == File ::
      t.path in req.files && t.content == Some(Sha256(req.files[t.path]))
  }

  lemma ConcludedHonest(meaning: Meaning, p: Progress, a: AbsenceProgress, req: Request)
    requires TreesWellFormed(a.store) && TreesHonest(meaning, a.store)
    requires forall t | t in p.tree :: EntryHonest(meaning, t)
    requires forall t | t in p.tree && t.kind == File ::
        t.path in req.files && t.content == Some(Sha256(req.files[t.path]))
    ensures
      var out := Concluded(p, a, req);
      TreesHonest(meaning, out.store) && (out.snapshot.Some? ==> TreeIsLocal(out.store, req, out.snapshot.value))
  {
    RecordedTreeHonest(meaning, a.store, req, p.tree);
  }

  lemma CallKeepsHonest(meaning: Meaning, rank: Snapshot -> int, s: Store, req: Request)
    requires Consistent(s) && TreesHonest(meaning, s) && HonestCall(meaning, req)
    ensures TreesHonest(meaning, Reconcile(rank, s, req, true).store)
    ensures
      var out := Reconcile(rank, s, req, true);
      Recordable(req) && out.snapshot.Some? ==> TreeIsLocal(out.store, req, out.snapshot.value)
  {
    if Recordable(req) {
      SortedEntriesMirrored(req);
      var items := PreviousItems(rank, s, req.source, req.inventory.scope);
      var es, previous := SortedEntries(req), PreviousMap(items);
      CallsAgree(meaning, rank, s, req);
      OutcomeRows(rank, s, req, true);
      EntriesFrame(s, req, es, previous, true);
      var p := RecordEntries(s, req, es, previous, true);
      AbsencesFrame(p.store, req, GoneFiles(req.inventory, items));
      if p.error.None? {
        TreeFromHonest(meaning, req, es, p.tree, p.rows);
        var a := RecordAbsences(p.store, req, GoneFiles(req.inventory, items));
        if a.error.None? {
          ConcludedHonest(meaning, p, a, req);
        }
      }
    }
  }

  lemma {:induction false} RecordedTreeHonest(meaning: Meaning, s: Store, req: Request, tree: seq<TreeEntry>)
    requires TreesWellFormed(s) && TreesHonest(meaning, s)
    requires forall t | t in tree :: EntryHonest(meaning, t)
    requires forall t | t in tree && t.kind == File ::
        t.path in req.files && t.content == Some(Sha256(req.files[t.path]))
    ensures
      var r := RecordTree(s, Sort(tree, EntryLe));
      && TreesHonest(meaning, r.store)
      && (r.Returned? ==> TreeNamesMirror(r.store, req, r.value))
  {
    RecordTreeKeeps(s, tree);
    SortProperties(tree, EntryLe);
    var ordered := Sort(tree, EntryLe);
    var r := RecordTree(s, ordered);
    if r.Returned? {
      var kept := r.store.trees[r.value];
      assert Identities(kept) == Identities(ordered);
      assert |kept| == |Identities(kept)| == |ordered|;
      forall t | t in kept && t.kind == File
        ensures t.path in req.files && t.content == Some(Sha256(req.files[t.path])) {
        var i :| 0 <= i < |kept| && kept[i] == t;
        assert Identities(kept)[i] == t.Identity() && Identities(ordered)[i] == ordered[i].Identity();
        assert ordered[i] in tree;
      }
    }
  }

  /** Listings are honest, and trees saved by other recorders claim no evidence they do not have. */
  ghost predicate HonestAction(meaning: Meaning, action: Action) {
    match action
    case ReconcileListing(req) => HonestCall(meaning, req)
    case SaveTreeSnapshot(_, _, entries, _, _, _, _) => forall t | t in entries :: EntryHonest(meaning, t)
    case _ => true
  }

  lemma {:induction false} SavedTreeHonest(meaning: Meaning, s: Store, entries: seq<TreeEntry>)
    requires TreesWellFormed(s) && TreesHonest(meaning, s) && forall t | t in entries :: EntryHonest(meaning, t)
    ensures TreesHonest(meaning, RecordTree(s, Sort(entries, EntryLe)).store)
  {
    RecordTreeKeeps(s, entries);
    SortProperties(entries, EntryLe);
  }

  /** A transfer without a listing stores no modification times, hence no evidence. */
  lemma {:induction false} GatheredHonest(meaning: Meaning, s: Store, p: Partial, paths: seq<string>)
    ensures forall t | t in Gather(s, p, paths).tree :: EntryHonest(meaning, t)
    ensures Gather(s, p, paths).store.trees == s.trees
  {
    if paths != [] { GatheredHonest(meaning, s, p, paths[..|paths| - 1]); }
  }

  lemma TransferKeepsHonest(meaning: Meaning, s: Store, p: Partial)
    requires Consistent(s) && TreesHonest(meaning, s)
    ensures TreesHonest(meaning, RecordIncomplete(s, p).store)
  {
    var g := Gather(s, p, p.updated);
    GatheredHonest(meaning, s, p, p.updated);
    SavedTreeHonest(meaning, g.store, g.tree);
    if g.error.None? {
      assert RecordIncomplete(s, p).store.trees == RecordTree(g.store, Sort(g.tree, EntryLe)).store.trees;
    }
  }

  lemma {:induction false} SnapshotKeepsTrees(s: Store, source: SourceId, run: RunId, entries: seq<TreeEntry>,
        complete: bool, scope: seq<string>, at: Time, evidence: Evidence)
    ensures RecordTreeSnapshot(s, source, run, entries, complete, scope, at, evidence).store.trees
         == RecordTree(s, Sort(entries, EntryLe)).store.trees
  {
  }

  lemma ActionKeepsHonest(meaning: Meaning, rank: Snapshot -> int, s: Store, action: Action)
    requires Consistent(s) && TreesHonest(meaning, s) && HonestAction(meaning, action)
    ensures TreesHonest(meaning, Perform(rank, s, action))
  {
    match action
    case ReconcileListing(req) => CallKeepsHonest(meaning, rank, s, req);
    case SaveTreeSnapshot(source, run, entries, complete, scope, at, evidence) =>
      SavedTreeHonest(meaning, s, entries);
      SnapshotKeepsTrees(s, source, run, entries, complete, scope, at, evidence);
    case RecordTransfer(p) => TransferKeepsHonest(meaning, s, p);
    case _ => OtherKeepsTrees(rank, s, action);
  }

  lemma OtherKeepsTrees(rank: Snapshot -> int, s: Store, action: Action)
    requires !action.ReconcileListing? && !action.SaveTreeSnapshot? && !action.RecordTransfer?
    ensures Perform(rank, s, action).trees == s.trees
  {
  }

  lemma {:induction false} HistoryStaysHonest(meaning: Meaning, rank: Snapshot -> int, s: Store, actions: seq<Action>)
    requires Consistent(s) && TreesHonest(meaning, s)
    requires forall a | a in actions :: HonestAction(meaning, a)
    ensures TreesHonest(meaning, PerformAll(rank, s, actions))
  {
    if actions != [] {
      var init := actions[..|actions| - 1];
      HistoryStaysHonest(meaning, rank, s, init);
      PerformAllKeeps(rank, s, init);
      ActionKeepsHonest(meaning, rank, PerformAll(rank, s, init), actions[|actions| - 1]);
    }
  }

  function Registered(sources: set<SourceId>): Store { EMPTY.(sources := sources) }

  /**
   * After any history of the repository, with honest full, scoped, incomplete and failing listings of any
   * sources among anything else, the next listing does what reading every file would do, and records
   * exactly the mirrored bytes.
   */
  lemma {:induction false} ReuseRefinesIngest(meaning: Meaning, rank: Snapshot -> int, history: seq<Action>,
        req: Request)
    requires forall a | a in history :: HonestAction(meaning, a)
    requires HonestCall(meaning, req)
    ensures
      var s := PerformAll(rank, EMPTY, history);
      var fast, slow := Reconcile(rank, s, req, true), Reconcile(rank, s, req, false);
      && SameOutcome(fast, slow)
      && (forall o | o in fast.rows :: RecordsLocal(req, o))
      && (Recordable(req) && fast.snapshot.Some? ==> TreeIsLocal(fast.store, req, fast.snapshot.value))
  {
    PerformAllKeeps(rank, EMPTY, history);
    HistoryStaysHonest(meaning, rank, EMPTY, history);
    CallsAgree(meaning, rank, PerformAll(rank, EMPTY, history), req);
    CallKeepsHonest(meaning, rank, PerformAll(rank, EMPTY, history), req);
  }
}
