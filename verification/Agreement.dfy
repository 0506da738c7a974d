/** The rsync recorder and the snapshot resolver agree on what a complete listing contains. */
module Agreement {
  import opened Models
  import opened Ordering
  import opened Reconciliation
  import opened Store
  import opened Rsync
  import opened Resolver

  ghost predicate DistinctRowPaths(rows: seq<Observation>) {
    forall i, j | 0 <= i < j < |rows| :: rows[i].path != rows[j].path
  }

  lemma {:induction false} RowPathsDistinct(s: Store, req: Request, es: seq<Entry>,
        previous: map<string, PreviousItem>, reuse: bool)
    requires Mirrored(req, es) && DistinctEntries(es)
    ensures DistinctRowPaths(RecordEntries(s, req, es, previous, reuse).rows)
  {
    if es != [] {
      var init, e := es[..|es| - 1], es[|es| - 1];
      RowPathsDistinct(s, req, init, previous, reuse);
      EntriesFrame(s, req, init, previous, reuse);
      var q := RecordEntries(s, req, init, previous, reuse);
      EntrySteps(q, req, e, previous, reuse);
      forall o | o in q.rows ensures o.path != Some(e.path) {
        assert IsListed(req, init, o);
        var x :| x in init && x.kind == File && RowFor(req, o, x.path);
        assert x in es[..|es| - 1];
      }
    }
  }

  /** The stored entries of a call's tree and the rows it wrote stand for the same files. */
  ghost predicate EntriesMatchRows(entries: seq<TreeEntry>, rows: seq<Observation>) {
    && (forall t | t in entries && !Skipped(t) :: HasRow(rows, t))
    && (forall o | o in rows :: HasEntry(entries, o))
  }

  ghost predicate HasRow(rows: seq<Observation>, t: TreeEntry) {
    exists o :: o in rows && Matches(o, t)
  }

  ghost predicate HasEntry(entries: seq<TreeEntry>, o: Observation) {
    exists t :: t in entries && !Skipped(t) && Matches(o, t)
  }

  lemma TreeMatchesRows(req: Request, es: seq<Entry>, tree: seq<TreeEntry>, rows: seq<Observation>)
    requires TreeMatches(es, tree, rows) && RowsListed(req, es, rows) && DistinctRowPaths(rows)
    ensures EntriesMatchRows(tree, rows)
  {
    forall t | t in tree && !Skipped(t) ensures HasRow(rows, t) {
      var i :| 0 <= i < |tree| && tree[i] == t;
      assert EntryRecorded(es[i], t, rows);
      var o :| o in rows && o.path == Some(es[i].path) && t == EntryRow(es[i], Some(o.content));
      assert Matches(o, t);
    }
    forall o | o in rows ensures HasEntry(tree, o) {
      assert IsListed(req, es, o);
      var e :| e in es && e.kind == File && RowFor(req, o, e.path);
      var i :| 0 <= i < |es| && es[i] == e;
      assert EntryRecorded(e, tree[i], rows);
      var r :| r in rows && r.path == Some(e.path) && tree[i] == EntryRow(e, Some(r.content));
      assert r == o;
      assert tree[i] in tree && Matches(o, tree[i]);
    }
  }

  /** Only the identity of an entry matters to the resolver, so a tree recorded earlier serves as well. */
  lemma IdentityCarriesMatch(a: seq<TreeEntry>, b: seq<TreeEntry>, rows: seq<Observation>)
    requires Identities(a) == Identities(b) && EntriesMatchRows(a, rows)
    ensures EntriesMatchRows(b, rows)
  {
    assert |a| == |Identities(a)| == |b|;
    forall i | 0 <= i < |a| ensures a[i].Identity() == b[i].Identity() {
      assert Identities(a)[i] == Identities(b)[i];
    }
    forall t | t in b && !Skipped(t) ensures HasRow(rows, t) {
      var i :| 0 <= i < |b| && b[i] == t;
      assert a[i] in a && !Skipped(a[i]);
      assert HasRow(rows, a[i]);
      var o :| o in rows && Matches(o, a[i]);
      assert Matches(o, t);
    }
    forall o | o in rows ensures HasEntry(b, o) {
      assert HasEntry(a, o);
      var t :| t in a && !Skipped(t) && Matches(o, t);
      var i :| 0 <= i < |a| && a[i] == t;
      assert b[i] in b && Matches(o, b[i]);
    }
  }

  lemma {:induction false} BoundOfRows(rows: seq<Observation>, candidates: seq<Observation>, picked: seq<Observation>)
    requires UniqueIds(rows) && forall o | o in picked :: o in rows && o in candidates
    ensures Bound(rows, candidates, Ids(picked)) == Some(picked)
  {
    if picked != [] {
      var init, o := picked[..|picked| - 1], picked[|picked| - 1];
      BoundOfRows(rows, candidates, init);
      var ids := Ids(picked);
      assert ids[..|ids| - 1] == Ids(init) && ids[|ids| - 1] == o.Id();
      assert o in picked;
      assert init + [o] == picked;
      FindUnique(rows, o);
    }
  }

  lemma {:induction false} FindUnique(rows: seq<Observation>, o: Observation)
    requires UniqueIds(rows) && o in rows
    ensures FindRow(rows, o.Id()) == Some(o)
  {
    var i :| 0 <= i < |rows| && rows[i] == o;
    if i != 0 {
      assert rows[1..][i - 1] == o;
      FindUnique(rows[1..], o);
    }
  }

  lemma {:induction false} MatchingMember(candidates: seq<Observation>, t: TreeEntry)
    ensures forall o :: o in Matching(candidates, t) <==> o in candidates && Matches(o, t)
  {
    if candidates != [] {
      var init := candidates[..|candidates| - 1];
      MatchingMember(init, t);
      assert candidates == init + [candidates[|candidates| - 1]];
    }
  }

  lemma {:induction false} MatchingAppend(a: seq<Observation>, b: seq<Observation>, t: TreeEntry)
    ensures Matching(a + b, t) == Matching(a, t) + Matching(b, t)
  {
    if b == [] {
      assert a + b == a;
    } else {
      MatchingAppend(a, b[..|b| - 1], t);
      assert (a + b)[..|a + b| - 1] == a + b[..|b| - 1];
    }
  }

  lemma {:induction false} MatchingOnce(rows: seq<Observation>, t: TreeEntry)
    requires DistinctRowPaths(rows)
    ensures |Matching(rows, t)| <= 1
  {
    if rows != [] {
      var init, last := rows[..|rows| - 1], rows[|rows| - 1];
      MatchingOnce(init, t);
      MatchingMember(init, t);
      assert Matching(init, t) != [] ==> Matching(init, t)[0] in Matching(init, t);
    }
  }

  /** An earlier row of the same run that a file entry of this call cannot be told from. */
  ghost predicate Twin(earlier: seq<Observation>, rows: seq<Observation>) {
    exists o, r :: o in earlier && r in rows && o.path == r.path && o.content == r.content
  }

  lemma {:induction false} EntryResolves(earlier: seq<Observation>, rows: seq<Observation>, t: TreeEntry,
        r: Observation)
    requires DistinctRowPaths(rows) && r in rows && Matches(r, t)
    ensures |Matching(earlier + rows, t)| == 1 <==> Matching(earlier, t) == []
    ensures Matching(earlier, t) == [] ==> Matching(earlier + rows, t) == [r]
  {
    MatchingAppend(earlier, rows, t);
    MatchingOnce(rows, t);
    MatchingMember(rows, t);
    assert r in Matching(rows, t);
    assert Matching(rows, t) == [r];
  }

  /** Some file entry is matched by an earlier row. */
  ghost predicate HasRival(earlier: seq<Observation>, entries: seq<TreeEntry>) {
    exists t :: t in entries && !Skipped(t) && Matching(earlier, t) != []
  }

  lemma {:induction false} MembersResolve(earlier: seq<Observation>, rows: seq<Observation>, entries: seq<TreeEntry>)
    requires DistinctRowPaths(rows) && DistinctPaths(entries)
    requires forall t | t in entries && !Skipped(t) :: HasRow(rows, t)
    ensures
      var r := TreeMembers(earlier + rows, entries);
      && (r.Failure? ==> r.error.Ambiguous?)
      && (r.Failure? <==> HasRival(earlier, entries))
      && (r.Success? ==> DistinctRowPaths(r.value) && forall o :: o in r.value <==> o in rows && HasEntry(entries, o))
  {
    if entries != [] {
      var init, t := entries[..|entries| - 1], entries[|entries| - 1];
      assert entries == init + [t];
      MembersResolve(earlier, rows, init);
      RivalAppend(earlier, init, t);
      EntryAppend(init, t);
      var front := TreeMembers(earlier + rows, init);
      if !Skipped(t) {
        assert HasRow(rows, t);
        var r :| r in rows && Matches(r, t);
        EntryResolves(earlier, rows, t, r);
        if front.Success? && Matching(earlier, t) == [] {
          MemberAdded(rows, init, t, r, front.value);
        }
      }
    }
  }

  lemma {:induction false} RivalAppend(earlier: seq<Observation>, init: seq<TreeEntry>, t: TreeEntry)
    ensures HasRival(earlier, init + [t]) <==> HasRival(earlier, init) || (!Skipped(t) && Matching(earlier, t) != [])
  {
    assert forall x :: x in init + [t] <==> x in init || x == t;
  }

  lemma EntryAppend(init: seq<TreeEntry>, t: TreeEntry)
    ensures forall o :: HasEntry(init + [t], o) <==> HasEntry(init, o) || (!Skipped(t) && Matches(o, t))
  {
    assert forall x :: x in init + [t] <==> x in init || x == t;
  }

  lemma MemberAdded(rows: seq<Observation>, init: seq<TreeEntry>, t: TreeEntry, r: Observation, front: seq<Observation>)
    requires DistinctRowPaths(rows) && DistinctPaths(init + [t]) && !Skipped(t) && r in rows && Matches(r, t)
    requires DistinctRowPaths(front)
    requires forall o :: o in front <==> o in rows && HasEntry(init, o)
    ensures DistinctRowPaths(front + [r])
    ensures forall o :: o in front + [r] <==> o in rows && (HasEntry(init, o) || Matches(o, t))
  {
    forall o | o in front ensures o.path != r.path {
      assert HasEntry(init, o);
      var x :| x in init && !Skipped(x) && Matches(o, x);
      var i :| 0 <= i < |init| && init[i] == x;
      assert (init + [t])[i].path != (init + [t])[|init|].path;
    }
    forall o | o in rows && Matches(o, t) ensures o == r {
      assert o.path == r.path;
    }
  }

  /** All rows of the call, and only they, in the order of their artifact keys. */
  ghost predicate ResolvesTo(members: seq<Observation>, rows: seq<Observation>) {
    StrictlySorted(members, KeyLe) && forall o :: o in members <==> o in rows
  }

  /** An artifact key names one row. */
  ghost predicate KeysIdentify(rows: seq<Observation>) {
    forall o, r | o in rows && r in rows && o.artifactKey == r.artifactKey :: o == r
  }

  lemma ListedKeysIdentify(req: Request, es: seq<Entry>, rows: seq<Observation>)
    requires RowsListed(req, es, rows) && DistinctRowPaths(rows)
    ensures KeysIdentify(rows)
  {
    forall o, r | o in rows && r in rows && o.artifactKey == r.artifactKey ensures o == r {
      assert IsListed(req, es, o) && IsListed(req, es, r);
      var e :| e in es && e.kind == File && RowFor(req, o, e.path);
      var f :| f in es && f.kind == File && RowFor(req, r, f.path);
      PathKeyInjective(req.source, e.path, f.path);
      assert o.path == r.path;
    }
  }

  lemma {:induction false} KeysFollowPaths(rows: seq<Observation>, members: seq<Observation>)
    requires KeysIdentify(rows) && DistinctRowPaths(members) && forall o | o in members :: o in rows
    ensures DistinctKeys(members)
    ensures StrictlySorted(Sort(members, KeyLe), KeyLe)
    ensures forall o :: o in Sort(members, KeyLe) <==> o in members
  {
    forall i, j | 0 <= i < j < |members| ensures members[i].artifactKey != members[j].artifactKey {
      assert members[i] in rows && members[j] in rows;
      assert members[i].path != members[j].path;
    }
    var sorted := Sort(members, KeyLe);
    TextOrder();
    SortProperties(members, KeyLe);
    var key := (o: Observation) => o.artifactKey;
    assert DistinctBy(members, key);
    PermutationKeepsDistinct(members, sorted, key);
    forall i, j | 0 <= i < j < |sorted| ensures KeyLe(sorted[i], sorted[j]) && !KeyLe(sorted[j], sorted[i]) {
      assert key(sorted[i]) != key(sorted[j]);
    }
  }

  lemma PathKeyInjective(source: SourceId, a: string, b: string)
    ensures PathKey(source, a) == PathKey(source, b) ==> a == b
  {
    var prefix := "source:" + source + ":path:";
    assert PathKey(source, a)[|prefix|..] == a && PathKey(source, b)[|prefix|..] == b;
  }

  ghost predicate AllBelong(rows: seq<Observation>, source: SourceId, run: RunId, at: Time) {
    forall o | o in rows :: Belongs(o, source, run, at)
  }

  lemma {:induction false} OwnRowsBelong(rows: seq<Observation>, source: SourceId, run: RunId, at: Time)
    requires AllBelong(rows, source, run, at)
    ensures RunRows(rows, source, run, at) == rows
  {
    if rows != [] {
      var init, last := rows[..|rows| - 1], rows[|rows| - 1];
      assert rows == init + [last];
      OwnRowsBelong(init, source, run, at);
    }
  }

  lemma ListedBelong(req: Request, es: seq<Entry>, rows: seq<Observation>)
    requires RowsListed(req, es, rows)
    ensures AllBelong(rows, req.source, req.run, req.at)
  {
    forall o | o in rows ensures Belongs(o, req.source, req.run, req.at) {
      assert IsListed(req, es, o);
    }
  }

  /** What a successful call leaves behind for the resolver. */
  ghost predicate LeavesBehind(s: Store, req: Request, out: Outcome, es: seq<Entry>) {
    && out.error.None? && out.snapshot.Some?
    && Consistent(out.store)
    && out.store.observations == s.observations + out.rows
    && RowsListed(req, es, out.rows) && DistinctRowPaths(out.rows)
    && var x := out.snapshot.value;
       && x.source == req.source && x.run == req.run && x.at == req.at
       && x.complete == (req.inventory.scope == [])
       && x.evidence.reconciled == Some(true) && x.evidence.acquired.None?
       && x.evidence.bound == Some(Ids(RunRows(out.store.observations, req.source, req.run, req.at)))
       && x.tree.Some? && x.tree.value in out.store.trees
       && EntriesMatchRows(out.store.trees[x.tree.value], out.rows)
  }

  lemma CallLeavesBehind(rank: Snapshot -> int, s: Store, req: Request)
    requires Consistent(s) && Recordable(req) && Reconcile(rank, s, req, true).error.None?
    ensures LeavesBehind(s, req, Reconcile(rank, s, req, true), SortedEntries(req))
  {
    ReconcileKeeps(rank, s, req, true);
    SortedEntriesMirrored(req);
    SortedEntriesDistinct(req);
    var items := PreviousItems(rank, s, req.source, req.inventory.scope);
    var es, previous := SortedEntries(req), PreviousMap(items);
    var p := RecordEntries(s, req, es, previous, true);
    EntriesFrame(s, req, es, previous, true);
    EntriesKeepStored(s, req, es, previous, true);
    NewRowsStayUnique(s, p.rows);
    GrowthKeepsConsistent(s, p.store);
    RowPathsDistinct(s, req, es, previous, true);
    var a := RecordAbsences(p.store, req, GoneFiles(req.inventory, items));
    AbsencesFrame(p.store, req, GoneFiles(req.inventory, items));
    TreeMatchesRows(req, es, p.tree, p.rows);
    ConcludedLeaves(p, a, req);
  }

  lemma SortedEntriesDistinct(req: Request)
    requires Recordable(req)
    ensures DistinctEntries(SortedEntries(req))
  {
    var es := SortedEntries(req);
    SortProperties(req.inventory.entries, EntryOrder);
    var path := (e: Entry) => e.path;
    assert DistinctBy(req.inventory.entries, path);
    PermutationKeepsDistinct(req.inventory.entries, es, path);
    forall i, j | 0 <= i < j < |es| ensures es[i].path != es[j].path {
      assert path(es[i]) != path(es[j]);
    }
  }

  lemma ConcludedLeaves(p: Progress, a: AbsenceProgress, req: Request)
    requires TreesWellFormed(a.store) && EntriesMatchRows(p.tree, p.rows)
    requires Concluded(p, a, req).error.None?
    ensures
      var out := Concluded(p, a, req);
      && out.rows == p.rows && out.snapshot.Some? && out.store.observations == a.store.observations
      && var x := out.snapshot.value;
         && x.source == req.source && x.run == req.run && x.at == req.at
         && x.complete == (req.inventory.scope == [])
         && x.evidence.reconciled == Some(true) && x.evidence.acquired.None?
         && x.evidence.bound == Some(Ids(RunRows(out.store.observations, req.source, req.run, req.at)))
         && x.tree.Some? && x.tree.value in out.store.trees
         && EntriesMatchRows(out.store.trees[x.tree.value], out.rows)
  {
    RecordTreeKeeps(a.store, p.tree);
    var ordered := Sort(p.tree, EntryLe);
    var r := RecordTree(a.store, ordered);
    SortProperties(p.tree, EntryLe);
    assert EntriesMatchRows(ordered, p.rows);
    IdentityCarriesMatch(ordered, r.store.trees[r.value], p.rows);
  }

  lemma {:induction false} ListingAnswer(earlier: seq<Observation>, rows: seq<Observation>, entries: seq<TreeEntry>)
    requires KeysIdentify(rows) && DistinctRowPaths(rows) && DistinctPaths(entries) && EntriesMatchRows(entries, rows)
    ensures
      var members := TreeMembers(earlier + rows, entries);
      if Twin(earlier, rows) then members.Failure? && members.error.Ambiguous?
      else members.Success? && DistinctKeys(members.value) && ResolvesTo(Sort(members.value, KeyLe), rows)
  {
    MembersResolve(earlier, rows, entries);
    TwinIsAmbiguity(earlier, rows, entries);
    var members := TreeMembers(earlier + rows, entries);
    if members.Success? {
      KeysFollowPaths(rows, members.value);
    }
  }

  lemma TwinIsAmbiguity(earlier: seq<Observation>, rows: seq<Observation>, entries: seq<TreeEntry>)
    requires EntriesMatchRows(entries, rows)
    ensures Twin(earlier, rows) <==> HasRival(earlier, entries)
  {
    if Twin(earlier, rows) {
      var o, r :| o in earlier && r in rows && o.path == r.path && o.content == r.content;
      assert HasEntry(entries, r);
      TwinGivesRival(earlier, entries, o, r);
    }
    if HasRival(earlier, entries) {
      var t :| t in entries && !Skipped(t) && Matching(earlier, t) != [];
      assert HasRow(rows, t);
      RivalGivesTwin(earlier, rows, t);
    }
  }

  lemma TwinGivesRival(earlier: seq<Observation>, entries: seq<TreeEntry>, o: Observation, r: Observation)
    requires o in earlier && HasEntry(entries, r) && o.path == r.path && o.content == r.content
    ensures HasRival(earlier, entries)
  {
    var t :| t in entries && !Skipped(t) && Matches(r, t);
    MatchingMember(earlier, t);
    assert o in Matching(earlier, t);
  }

  lemma {:induction false} RivalGivesTwin(earlier: seq<Observation>, rows: seq<Observation>, t: TreeEntry)
    requires HasRow(rows, t) && Matching(earlier, t) != []
    ensures Twin(earlier, rows)
  {
    MatchingMember(earlier, t);
    var o := Matching(earlier, t)[0];
    assert o in Matching(earlier, t);
    var r :| r in rows && Matches(r, t);
  }

  /** What the listing will record for a file, given the store it starts from. */
  function WillRecord(rank: Snapshot -> int, s: Store, req: Request, e: Entry): ContentId
    requires e.path in req.files
  {
    ContentFor(req, e, Lookup(PreviousMap(PreviousItems(rank, s, req.source, req.inventory.scope)), e.path))
  }

  ghost predicate Repeated(rank: Snapshot -> int, s: Store, req: Request, o: Observation, e: Entry) {
    && o in s.observations && Belongs(o, req.source, req.run, req.at)
    && e in req.inventory.entries && e.kind == File && e.path in req.files
    && o.path == Some(e.path) && o.content == WillRecord(rank, s, req, e)
  }

  /** The run already holds a row of the source with the path and the content of a file that is about to be recorded. */
  ghost predicate RepeatsRun(rank: Snapshot -> int, s: Store, req: Request) {
    exists o, e :: Repeated(rank, s, req, o, e)
  }

  ghost predicate FileRepeats(earlier: seq<Observation>, req: Request, es: seq<Entry>,
        previous: map<string, PreviousItem>)
  {
    exists o, e :: o in earlier && e in es && e.kind == File && e.path in req.files
                   && o.path == Some(e.path) && o.content == ContentFor(req, e, Lookup(previous, e.path))
  }

  lemma RowsRepeatFiles(earlier: seq<Observation>, req: Request, es: seq<Entry>, previous: map<string, PreviousItem>,
        tree: seq<TreeEntry>, rows: seq<Observation>)
    requires TreeMatches(es, tree, rows) && DistinctEntries(es)
    requires forall o | o in rows :: RecordsContent(req, es, previous, o)
    ensures Twin(earlier, rows) <==> FileRepeats(earlier, req, es, previous)
  {
    if Twin(earlier, rows) {
      var o, r :| o in earlier && r in rows && o.path == r.path && o.content == r.content;
      assert RecordsContent(req, es, previous, r);
    }
    if FileRepeats(earlier, req, es, previous) {
      var o, e :| o in earlier && e in es && e.kind == File && e.path in req.files
                  && o.path == Some(e.path) && o.content == ContentFor(req, e, Lookup(previous, e.path));
      var r := RowOfFile(req, es, previous, tree, rows, e);
    }
  }

  lemma TwinIsRepeat(rank: Snapshot -> int, s: Store, req: Request)
    requires Consistent(s) && Recordable(req) && Reconcile(rank, s, req, true).error.None?
    ensures Twin(RunRows(s.observations, req.source, req.run, req.at), Reconcile(rank, s, req, true).rows)
       <==> RepeatsRun(rank, s, req)
  {
    SortedEntriesMirrored(req);
    SortedEntriesDistinct(req);
    var es, previous := SortedEntries(req), PreviousMap(PreviousItems(rank, s, req.source, req.inventory.scope));
    OutcomeRows(rank, s, req, true);
    BaselineHeld(rank, s, req.source, req.inventory.scope);
    EntriesRepeat(s, req, es, previous);
    RepeatsAreRunRows(rank, s, req, es, previous);
  }

  lemma {:induction false} EntriesRepeat(s: Store, req: Request, es: seq<Entry>, previous: map<string, PreviousItem>)
    requires Mirrored(req, es) && DistinctEntries(es) && PreviousHeld(previous, s.contents) && s.contents <= s.blobs
    requires RecordEntries(s, req, es, previous, true).error.None?
    ensures
      var earlier := RunRows(s.observations, req.source, req.run, req.at);
      Twin(earlier, RecordEntries(s, req, es, previous, true).rows) <==> FileRepeats(earlier, req, es, previous)
  {
    var p := RecordEntries(s, req, es, previous, true);
    EntriesFrame(s, req, es, previous, true);
    RowContents(s, req, es, previous);
    RowsRepeatFiles(RunRows(s.observations, req.source, req.run, req.at), req, es, previous, p.tree, p.rows);
  }

  lemma RepeatsAreRunRows(rank: Snapshot -> int, s: Store, req: Request, es: seq<Entry>,
        previous: map<string, PreviousItem>)
    requires forall e :: e in es <==> e in req.inventory.entries
    requires previous == PreviousMap(PreviousItems(rank, s, req.source, req.inventory.scope))
    ensures FileRepeats(RunRows(s.observations, req.source, req.run, req.at), req, es, previous) <==>
        RepeatsRun(rank, s, req)
  {
    var earlier := RunRows(s.observations, req.source, req.run, req.at);
    RunRowsMember(s.observations, req.source, req.run, req.at);
    if FileRepeats(earlier, req, es, previous) {
      var o, e :| o in earlier && e in es && e.kind == File && e.path in req.files
                  && o.path == Some(e.path) && o.content == ContentFor(req, e, Lookup(previous, e.path));
      assert Repeated(rank, s, req, o, e);
    }
    if RepeatsRun(rank, s, req) {
      var o, e :| Repeated(rank, s, req, o, e);
    }
  }

  lemma RowOfFile(req: Request, es: seq<Entry>, previous: map<string, PreviousItem>, tree: seq<TreeEntry>,
        rows: seq<Observation>, e: Entry) returns (r: Observation)
    requires TreeMatches(es, tree, rows) && e in es && e.kind == File && e.path in req.files && DistinctEntries(es)
    requires forall o | o in rows :: RecordsContent(req, es, previous, o)
    ensures r in rows && r.path == Some(e.path) && r.content == ContentFor(req, e, Lookup(previous, e.path))
  {
    var i :| 0 <= i < |es| && es[i] == e;
    assert EntryRecorded(es[i], tree[i], rows);
    r :| r in rows && r.path == Some(e.path) && tree[i] == EntryRow(e, Some(r.content));
    assert RecordsContent(req, es, previous, r);
  }

  /**
   * A complete listing resolves to exactly the rows its call recorded, unless the same run already held a row
   * of this source with the path and content of a file about to be recorded; then it is ambiguous.
   */
  lemma RecorderAndResolverAgree(rank: Snapshot -> int, s: Store, req: Request)
    requires Consistent(s) && Recordable(req) && req.inventory.scope == []
    requires Reconcile(rank, s, req, true).error.None?
    ensures
      var out := Reconcile(rank, s, req, true);
      out.snapshot.Some?
      && var answer := SnapshotObservations(out.store, out.snapshot.value);
         if RepeatsRun(rank, s, req)
         then answer.Failure? && answer.error.Ambiguous?
         else answer.Success? && ResolvesTo(answer.value, out.rows)
  {
    TwinIsRepeat(rank, s, req);
    CallLeavesBehind(rank, s, req);
    var out := Reconcile(rank, s, req, true);
    ListedKeysIdentify(req, SortedEntries(req), out.rows);
    ListedBelong(req, SortedEntries(req), out.rows);
    AnswerFromRows(out.store, out.snapshot.value, s.observations, out.rows);
  }

  /** A complete snapshot bound right after its rows resolves to them, unless an earlier row is their twin. */
  lemma {:induction false} AnswerFromRows(s: Store, x: Snapshot, before: seq<Observation>, rows: seq<Observation>)
    requires s.observations == before + rows && UniqueIds(s.observations)
    requires KeysIdentify(rows) && DistinctRowPaths(rows) && AllBelong(rows, x.source, x.run, x.at)
    requires x.complete && x.evidence.reconciled != Some(false) && x.evidence.acquired != Some(false)
    requires x.evidence.bound == Some(Ids(RunRows(s.observations, x.source, x.run, x.at)))
    requires x.tree.Some? && x.tree.value in s.trees
    requires DistinctPaths(s.trees[x.tree.value]) && EntriesMatchRows(s.trees[x.tree.value], rows)
    ensures
      var answer := SnapshotObservations(s, x);
      if Twin(RunRows(before, x.source, x.run, x.at), rows)
      then answer.Failure? && answer.error.Ambiguous?
      else answer.Success? && ResolvesTo(answer.value, rows)
  {
    var earlier := RunRows(before, x.source, x.run, x.at);
    RunRowsAppend(before, rows, x.source, x.run, x.at);
    OwnRowsBelong(rows, x.source, x.run, x.at);
    BoundIsWhole(s.observations, x.source, x.run, x.at);
    ListingAnswer(earlier, rows, s.trees[x.tree.value]);
  }

  lemma {:induction false} BoundIsWhole(rows: seq<Observation>, source: SourceId, run: RunId, at: Time)
    requires UniqueIds(rows)
    ensures
      var candidates := RunRows(rows, source, run, at);
      Bound(rows, candidates, Ids(candidates)) == Some(candidates)
  {
    RunRowsMember(rows, source, run, at);
    BoundOfRows(rows, RunRows(rows, source, run, at), RunRows(rows, source, run, at));
  }

  // ---- an ambiguous snapshot stays ----------------------------------------------------------------

  lemma UnresolvableStays(s: Store, s': Store, x: Snapshot)
    requires SnapshotClosed(s, x) && Extends(s, s') && Unresolvable(s, x)
    ensures Unresolvable(s', x)
  {
    AnswerFrozen(s, s', x);
  }

  lemma RepeatIsUnresolvable(rank: Snapshot -> int, s: Store, req: Request) returns (x: Snapshot)
    requires Consistent(s) && Recordable(req) && req.inventory.scope == []
    requires Reconcile(rank, s, req, true).error.None? && RepeatsRun(rank, s, req)
    ensures Consistent(Reconcile(rank, s, req, true).store) && Unresolvable(Reconcile(rank, s, req, true).store, x)
  {
    RecorderAndResolverAgree(rank, s, req);
    ReconcileKeeps(rank, s, req, true);
    SnapshotIsListed(rank, s, req);
    x := Reconcile(rank, s, req, true).snapshot.value;
  }

  lemma {:induction false} UnresolvableForever(rank: Snapshot -> int, s: Store, future: seq<Action>, x: Snapshot)
    requires Consistent(s) && Unresolvable(s, x)
    ensures !AuditPasses(PerformAll(rank, s, future))
  {
    PerformAllKeeps(rank, s, future);
    UnresolvableStays(s, PerformAll(rank, s, future), x);
  }

  /** Once a listing repeats a path and content of its own run, every later cleanup of the repository is refused. */
  lemma {:induction false} RepeatBlocksCleanupForever(rank: Snapshot -> int, s: Store, req: Request,
        future: seq<Action>, cleanup: Action)
    requires Consistent(s) && Recordable(req) && req.inventory.scope == [] && cleanup.Cleanup?
    requires Reconcile(rank, s, req, true).error.None? && RepeatsRun(rank, s, req)
    ensures
      var later := PerformAll(rank, Reconcile(rank, s, req, true).store, future);
      !AuditPasses(later) && Perform(rank, later, cleanup) == later
  {
    var x := RepeatIsUnresolvable(rank, s, req);
    UnresolvableForever(rank, Reconcile(rank, s, req, true).store, future, x);
  }

  lemma SnapshotIsListed(rank: Snapshot -> int, s: Store, req: Request)
    requires Consistent(s) && Recordable(req) && Reconcile(rank, s, req, true).error.None?
    ensures
      var out := Reconcile(rank, s, req, true);
      && out.snapshot.Some? && out.snapshot.value in out.store.snapshots
        && out.snapshot.value.source in out.store.sources
      && out.snapshot.value.complete == (req.inventory.scope == [])
  {
    SortedEntriesMirrored(req);
    var items := PreviousItems(rank, s, req.source, req.inventory.scope);
    var p := RecordEntries(s, req, SortedEntries(req), PreviousMap(items), true);
    var a := RecordAbsences(p.store, req, GoneFiles(req.inventory, items));
    var r := RecordTreeSnapshot(a.store, req.source, req.run, p.tree, req.inventory.scope == [], req.inventory.scope,
      req.at,
                                Evidence(Some(true), None, None, p.ingested, p.reused, |a.rows|));
    assert r.Returned?;
  }
}
