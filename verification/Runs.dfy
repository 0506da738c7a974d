/** A whole run of listings that reuse content against the same run reading every file. */
module Runs {
  import opened Models
  import opened Ordering
  import opened Reconciliation
  import opened Store
  import opened Rsync
  import opened Agreement
  import opened Reuse
  import opened Histories

  /** The reference: every call reads every file. */
  ghost function ReadRun(rank: Snapshot -> int, s: Store, calls: seq<Request>): Store {
    if calls == [] then s
    else Reconcile(rank, ReadRun(rank, s, calls[..|calls| - 1]), calls[|calls| - 1], false).store
  }

  ghost predicate SnapshotsAlike(xs: seq<Snapshot>, ys: seq<Snapshot>) {
    |xs| == |ys| && forall i | 0 <= i < |xs| :: EraseSnapshot(xs[i]) == EraseSnapshot(ys[i])
  }

  /** The same tables up to how content was obtained. */
  ghost predicate Alike(s: Store, t: Store) {
    EraseStore(s) == EraseStore(t) && SnapshotsAlike(s.snapshots, t.snapshots)
  }

  ghost predicate Older(s: Store, at: Time) { forall x | x in s.snapshots :: x.at < at }

  lemma AlikeTransitive(s: Store, t: Store, u: Store)
    requires Alike(s, t) && Alike(t, u)
    ensures Alike(s, u)
  {
  }

  // ---- the same baseline is found ---------------------------------------------------------------------

  lemma {:induction false} OfSourceAlike(xs: seq<Snapshot>, ys: seq<Snapshot>, source: SourceId)
    requires SnapshotsAlike(xs, ys)
    ensures SnapshotsAlike(OfSource(xs, source), OfSource(ys, source))
  {
    if xs != [] {
      assert EraseSnapshot(xs[|xs| - 1]) == EraseSnapshot(ys[|xs| - 1]);
      OfSourceAlike(xs[..|xs| - 1], ys[..|ys| - 1], source);
    }
  }

  lemma {:induction false} OfSourceRising(xs: seq<Snapshot>, source: SourceId)
    requires Increasing(xs)
    ensures Increasing(OfSource(xs, source)) && forall x | x in OfSource(xs, source) :: x in xs
  {
    if xs != [] {
      var init, last := xs[..|xs| - 1], xs[|xs| - 1];
      assert xs == init + [last];
      OfSourceRising(init, source);
      var mine := OfSource(init, source);
      forall i | 0 <= i < |mine| ensures mine[i].at < last.at {
        assert mine[i] in mine;
        var k :| 0 <= k < |init| && init[k] == mine[i];
        assert xs[k].at < xs[|init|].at;
      }
    }
  }

  lemma {:induction false} ReversedAlike(xs: seq<Snapshot>, ys: seq<Snapshot>)
    requires SnapshotsAlike(xs, ys)
    ensures SnapshotsAlike(Reverse(xs), Reverse(ys))
  {
    if xs != [] {
      var n := |xs| - 1;
      assert EraseSnapshot(xs[n]) == EraseSnapshot(ys[n]);
      ReversedAlike(xs[..n], ys[..n]);
      InFrontAlike(xs[n], ys[n], Reverse(xs[..n]), Reverse(ys[..n]));
    }
  }

  lemma InFrontAlike(x: Snapshot, y: Snapshot, xs: seq<Snapshot>, ys: seq<Snapshot>)
    requires EraseSnapshot(x) == EraseSnapshot(y) && SnapshotsAlike(xs, ys)
    ensures SnapshotsAlike([x] + xs, [y] + ys)
  {
    forall i | 1 <= i <= |xs| ensures EraseSnapshot(([x] + xs)[i]) == EraseSnapshot(([y] + ys)[i]) {
      assert EraseSnapshot(xs[i - 1]) == EraseSnapshot(ys[i - 1]);
    }
  }

  /** Rising snapshots are sorted by reversing them, whatever breaks ties. */
  lemma {:induction false} SortedAlike(rank: Snapshot -> int, xs: seq<Snapshot>, ys: seq<Snapshot>)
    requires SnapshotsAlike(xs, ys) && Increasing(xs)
    ensures SnapshotsAlike(Sort(xs, NewerFirst(rank)), Sort(ys, NewerFirst(rank)))
  {
    RisingAlike(xs, ys);
    NewestFirst(rank, xs);
    NewestFirst(rank, ys);
    ReversedAlike(xs, ys);
  }

  lemma RisingAlike(xs: seq<Snapshot>, ys: seq<Snapshot>)
    requires SnapshotsAlike(xs, ys) && Increasing(xs)
    ensures Increasing(ys)
  {
    forall i | 0 <= i < |xs| ensures xs[i].at == ys[i].at {
      assert EraseSnapshot(xs[i]) == EraseSnapshot(ys[i]);
    }
  }

  lemma {:induction false} QualifyingAlike(xs: seq<Snapshot>, ys: seq<Snapshot>, scope: seq<string>)
    requires SnapshotsAlike(xs, ys)
    ensures
      var x, y := FirstQualifying(xs, scope), FirstQualifying(ys, scope);
      (x.Some? <==> y.Some?) && (x.Some? ==> EraseSnapshot(x.value) == EraseSnapshot(y.value))
  {
    if xs != [] {
      assert EraseSnapshot(xs[0]) == EraseSnapshot(ys[0]);
      SameQualification(xs[0], ys[0], scope);
      forall i | 0 <= i < |xs[1..]| ensures EraseSnapshot(xs[1..][i]) == EraseSnapshot(ys[1..][i]) {
        assert EraseSnapshot(xs[i + 1]) == EraseSnapshot(ys[i + 1]);
      }
      QualifyingAlike(xs[1..], ys[1..], scope);
    }
  }

  lemma SameQualification(x: Snapshot, y: Snapshot, scope: seq<string>)
    requires EraseSnapshot(x) == EraseSnapshot(y)
    ensures Qualifies(x, scope) <==> Qualifies(y, scope)
  {
    assert x.evidence.reconciled == EraseSnapshot(x).evidence.reconciled == EraseSnapshot(y).evidence.reconciled
        == y.evidence.reconciled;
    assert x.tree == EraseSnapshot(x).tree == EraseSnapshot(y).tree == y.tree;
    assert x.complete == EraseSnapshot(x).complete == EraseSnapshot(y).complete == y.complete;
    assert x.scope == EraseSnapshot(x).scope == EraseSnapshot(y).scope == y.scope;
  }

  lemma {:induction false} SameItems(rank: Snapshot -> int, s: Store, t: Store, source: SourceId, scope: seq<string>)
    requires Alike(s, t) && Increasing(s.snapshots)
    ensures PreviousItems(rank, s, source, scope) == PreviousItems(rank, t, source, scope)
  {
    OfSourceAlike(s.snapshots, t.snapshots, source);
    OfSourceRising(s.snapshots, source);
    SortedAlike(rank, OfSource(s.snapshots, source), OfSource(t.snapshots, source));
    var xs, ys := SnapshotsFor(rank, s, source), SnapshotsFor(rank, t, source);
    assert SnapshotsAlike(Newest(xs), Newest(ys));
    QualifyingAlike(Newest(xs), Newest(ys), scope);
    SameTables(s, t);
    var x, y := Baseline(rank, s, source, scope), Baseline(rank, t, source, scope);
    if x.Some? {
      assert x.value.tree == EraseSnapshot(x.value).tree == EraseSnapshot(y.value).tree == y.value.tree;
    }
  }

  // ---- reading the same files into alike tables ----------------------------------------------------------

  /** Two recordings of the same rows and entries into tables that were alike. */
  ghost predicate ReadAlike(p: Progress, q: Progress) {
    && EraseStore(p.store) == EraseStore(q.store)
    && p.rows == q.rows && p.tree == q.tree && p.ingested == q.ingested && p.reused == q.reused && p.error == q.error
  }

  lemma ReadEntryAlike(p: Progress, q: Progress, req: Request, e: Entry, previous: map<string, PreviousItem>)
    requires ReadAlike(p, q) && (e.kind == File ==> e.path in req.files)
    ensures ReadAlike(RecordEntry(p, req, e, previous, false), RecordEntry(q, req, e, previous, false))
    ensures RecordEntry(p, req, e, previous, false).store.snapshots == p.store.snapshots
    ensures RecordEntry(q, req, e, previous, false).store.snapshots == q.store.snapshots
  {
    if p.error.None? && e.kind == File {
      var o := FileRow(req, e.path, Sha256(req.files[e.path]), false);
      SameTables(p.store, q.store);
      ErasedHas(p.store.observations, q.store.observations, o.Id());
      ErasedAppend(p.store.observations, q.store.observations, o, o);
    }
  }

  lemma {:induction false} ReadEntriesAlike(s: Store, t: Store, req: Request, es: seq<Entry>,
        previous: map<string, PreviousItem>)
    requires EraseStore(s) == EraseStore(t) && Mirrored(req, es)
    ensures
      var p, q := RecordEntries(s, req, es, previous, false), RecordEntries(t, req, es, previous, false);
      ReadAlike(p, q) && p.store.snapshots == s.snapshots && q.store.snapshots == t.snapshots
  {
    if es != [] {
      var init, e := es[..|es| - 1], es[|es| - 1];
      ReadEntriesAlike(s, t, req, init, previous);
      ReadEntryAlike(RecordEntries(s, req, init, previous, false), RecordEntries(t, req, init, previous, false), req, e,
                     previous);
    }
  }

  lemma {:induction false} ReadAbsencesAlike(s: Store, t: Store, req: Request, gone: seq<PreviousItem>)
    requires EraseStore(s) == EraseStore(t)
    ensures
      var a, b := RecordAbsences(s, req, gone), RecordAbsences(t, req, gone);
      && EraseStore(a.store) == EraseStore(b.store) && a.rows == b.rows && a.error == b.error
      && a.store.snapshots == s.snapshots && b.store.snapshots == t.snapshots
  {
    if gone != [] {
      var init := gone[..|gone| - 1];
      ReadAbsencesAlike(s, t, req, init);
      var a, b := RecordAbsences(s, req, init), RecordAbsences(t, req, init);
      SameTables(a.store, b.store);
      assert a.store.absences == EraseStore(a.store).absences == EraseStore(b.store).absences == b.store.absences;
    }
  }

  lemma SnapshotStored(s: Store, t: Store, x: Snapshot)
    requires Alike(s, t) && Older(s, x.at) && Older(t, x.at)
    ensures
      var a, b := RecordSnapshot(s, x), RecordSnapshot(t, x);
      && a.Returned? && b.Returned? && Alike(a.store, b.store)
      && a.store.snapshots == s.snapshots + [x] && b.store.snapshots == t.snapshots + [x]
  {
    var a, b := RecordSnapshot(s, x).store, RecordSnapshot(t, x).store;
    forall i | 0 <= i < |a.snapshots| ensures EraseSnapshot(a.snapshots[i]) == EraseSnapshot(b.snapshots[i]) {
      if i < |s.snapshots| { assert EraseSnapshot(s.snapshots[i]) == EraseSnapshot(t.snapshots[i]); }
    }
  }

  lemma SameBound(s: Store, t: Store, source: SourceId, run: RunId, at: Time, evidence: Evidence)
    requires EraseStore(s) == EraseStore(t)
    ensures BoundEvidence(s, source, run, at, evidence) == BoundEvidence(t, source, run, at, evidence)
  {
    assert EraseRows(s.observations) == EraseStore(s).observations == EraseStore(t).observations
        == EraseRows(t.observations);
    ErasedIds(s.observations, t.observations, source, run, at);
  }

  lemma ReadConcludedAlike(p: Progress, q: Progress, a: AbsenceProgress, b: AbsenceProgress, req: Request)
    requires ReadAlike(p, q) && a.rows == b.rows && Alike(a.store, b.store)
    requires Older(a.store, req.at) && Older(b.store, req.at)
    ensures Alike(Concluded(p, a, req).store, Concluded(q, b, req).store)
  {
    var evidence := Evidence(Some(true), None, None, p.ingested, p.reused, |a.rows|);
    var ordered := Sort(p.tree, EntryLe);
    SameTables(a.store, b.store);
    SameBound(a.store, b.store, req.source, req.run, req.at, evidence);
    TreesStored(a.store, b.store, ordered);
    var u, v := RecordTree(a.store, ordered), RecordTree(b.store, ordered);
    if u.Returned? && req.source in u.store.sources {
      SnapshotStored(u.store, v.store, Snapshot(req.source, req.run, req.at, req.inventory.scope == [], Some(u.value),
                                                SortText(req.inventory.scope),
                                                BoundEvidence(a.store, req.source, req.run, req.at, evidence)));
    }
  }

  lemma TreesStored(s: Store, t: Store, ordered: seq<TreeEntry>)
    requires Alike(s, t)
    ensures
      var u, v := RecordTree(s, ordered), RecordTree(t, ordered);
      && (u.Returned? <==> v.Returned?) && (u.Returned? ==> u.value == v.value) && Alike(u.store, v.store)
      && u.store.snapshots == s.snapshots && v.store.snapshots == t.snapshots
      && u.store.sources == v.store.sources == s.sources
  {
    SameTables(s, t);
  }

  /** Reading every file into alike tables leaves alike tables. */
  lemma {:induction false} ReadingIsCongruent(rank: Snapshot -> int, s: Store, t: Store, req: Request)
    requires Alike(s, t) && Increasing(s.snapshots) && Older(s, req.at) && Older(t, req.at)
    ensures Alike(Reconcile(rank, s, req, false).store, Reconcile(rank, t, req, false).store)
  {
    SameTables(s, t);
    if !Recordable(req) {
      var evidence := NoEvidence().(reconciled := Some(false));
      SameBound(s, t, req.source, req.run, req.at, evidence);
      SnapshotStored(s, t, Snapshot(req.source, req.run, req.at, false, None, SortText(req.inventory.scope),
                                    BoundEvidence(s, req.source, req.run, req.at, evidence)));
    } else {
      SortedEntriesMirrored(req);
      SameItems(rank, s, t, req.source, req.inventory.scope);
      var items := PreviousItems(rank, s, req.source, req.inventory.scope);
      RecordedAlike(s, t, req, SortedEntries(req), PreviousMap(items), GoneFiles(req.inventory, items));
    }
  }

  lemma {:induction false} RecordedAlike(s: Store, t: Store, req: Request, es: seq<Entry>,
        previous: map<string, PreviousItem>, gone: seq<PreviousItem>)
    requires Alike(s, t) && Older(s, req.at) && Older(t, req.at) && Mirrored(req, es)
    ensures
      var p, q := RecordEntries(s, req, es, previous, false), RecordEntries(t, req, es, previous, false);
      Alike(Recorded(p, req, gone).store, Recorded(q, req, gone).store)
  {
    ReadEntriesAlike(s, t, req, es, previous);
    var p, q := RecordEntries(s, req, es, previous, false), RecordEntries(t, req, es, previous, false);
    ReadAbsencesAlike(p.store, q.store, req, gone);
    var a, b := RecordAbsences(p.store, req, gone), RecordAbsences(q.store, req, gone);
    if p.error.None? && a.error.None? { ReadConcludedAlike(p, q, a, b, req); }
  }

  // ---- one call, then a run -------------------------------------------------------------------------------

  /** A call appends at most one snapshot, of its own time. */
  lemma {:induction false} CallSnapshots(rank: Snapshot -> int, s: Store, req: Request, reuse: bool)
    requires Increasing(s.snapshots) && Older(s, req.at)
    ensures
      var s' := Reconcile(rank, s, req, reuse).store;
      Increasing(s'.snapshots) && forall at | req.at < at :: Older(s', at)
  {
    if Recordable(req) {
      SortedEntriesMirrored(req);
      var items := PreviousItems(rank, s, req.source, req.inventory.scope);
      var p := RecordEntries(s, req, SortedEntries(req), PreviousMap(items), reuse);
      EntriesFrame(s, req, SortedEntries(req), PreviousMap(items), reuse);
      RecordedSnapshots(s, p, req, GoneFiles(req.inventory, items));
    }
  }

  lemma RecordedSnapshots(s: Store, p: Progress, req: Request, gone: seq<PreviousItem>)
    requires Increasing(s.snapshots) && Older(s, req.at) && p.store.snapshots == s.snapshots
    ensures
      var s' := Recorded(p, req, gone).store;
      Increasing(s'.snapshots) && forall at | req.at < at :: Older(s', at)
  {
    var a := RecordAbsences(p.store, req, gone);
    AbsencesFrame(p.store, req, gone);
    if p.error.None? && a.error.None? { ConcludedSnapshots(p, a, req); }
  }

  lemma ConcludedSnapshots(p: Progress, a: AbsenceProgress, req: Request)
    requires Increasing(a.store.snapshots) && Older(a.store, req.at)
    ensures
      var s' := Concluded(p, a, req).store;
      Increasing(s'.snapshots) && forall at | req.at < at :: Older(s', at)
  {
    var s' := Concluded(p, a, req).store;
    if s'.snapshots != a.store.snapshots {
      IncreasingGrows(a.store.snapshots, s'.snapshots[|a.store.snapshots|], s'.snapshots);
    }
  }

  ghost predicate Timely(calls: seq<Request>) {
    forall i, j | 0 <= i < j < |calls| :: calls[i].at < calls[j].at
  }

  /** What both runs keep: honest consistent tables, alike, with snapshots older than any later call. */
  ghost predicate InStep(meaning: Meaning, s: Store, t: Store, calls: seq<Request>) {
    && Consistent(s) && Consistent(t) && TreesHonest(meaning, s) && Alike(s, t)
    && Increasing(s.snapshots) && Increasing(t.snapshots)
    && forall at | calls == [] || calls[|calls| - 1].at < at :: Older(s, at) && Older(t, at)
  }

  /** One more call leaves both tables alike. */
  lemma CallsStayAlike(meaning: Meaning, rank: Snapshot -> int, s: Store, t: Store, req: Request)
    requires Consistent(s) && TreesHonest(meaning, s) && HonestCall(meaning, req)
    requires Alike(s, t) && Increasing(s.snapshots) && Older(s, req.at) && Older(t, req.at)
    ensures Alike(Reconcile(rank, s, req, true).store, Reconcile(rank, t, req, false).store)
  {
    CallsAgree(meaning, rank, s, req);
    ReadingIsCongruent(rank, s, t, req);
    AlikeTransitive(Reconcile(rank, s, req, true).store, Reconcile(rank, s, req, false).store,
                    Reconcile(rank, t, req, false).store);
  }

  /** One more call leaves consistent tables and snapshots older than any later call. */
  lemma CallKeepsOrder(rank: Snapshot -> int, s: Store, req: Request, reuse: bool)
    requires Consistent(s) && Increasing(s.snapshots) && Older(s, req.at)
    ensures
      var s' := Reconcile(rank, s, req, reuse).store;
      Consistent(s') && Increasing(s'.snapshots) && forall at | req.at < at :: Older(s', at)
  {
    ReconcileKeeps(rank, s, req, reuse);
    CallSnapshots(rank, s, req, reuse);
  }

  lemma {:induction false} OneMoreCall(meaning: Meaning, rank: Snapshot -> int, s: Store, t: Store, calls: seq<Request>,
        req: Request)
    requires InStep(meaning, s, t, calls) && HonestCall(meaning, req)
    requires calls == [] || calls[|calls| - 1].at < req.at
    ensures InStep(meaning, Reconcile(rank, s, req, true).store, Reconcile(rank, t, req, false).store, calls + [req])
  {
    CallsStayAlike(meaning, rank, s, t, req);
    CallKeepsHonest(meaning, rank, s, req);
    CallKeepsOrder(rank, s, req, true);
    CallKeepsOrder(rank, t, req, false);
  }

  /**
   * Over any run of honest listings of any sources at increasing times, full, scoped, incomplete or failing,
   * reusing content leaves the tables that reading every file in every call leaves, up to how content was obtained.
   */
  lemma {:induction false} RunsAgree(meaning: Meaning, rank: Snapshot -> int, sources: set<SourceId>,
        calls: seq<Request>)
    requires Timely(calls) && forall c | c in calls :: HonestCall(meaning, c)
    ensures Alike(Run(rank, Registered(sources), calls), ReadRun(rank, Registered(sources), calls))
  {
    StaysInStep(meaning, rank, sources, calls);
  }

  lemma {:induction false} StaysInStep(meaning: Meaning, rank: Snapshot -> int, sources: set<SourceId>,
        calls: seq<Request>)
    requires Timely(calls) && forall c | c in calls :: HonestCall(meaning, c)
    ensures InStep(meaning, Run(rank, Registered(sources), calls), ReadRun(rank, Registered(sources), calls), calls)
  {
    if calls != [] {
      var init, last := calls[..|calls| - 1], calls[|calls| - 1];
      assert calls == init + [last];
      assert forall c | c in init :: c in calls;
      StaysInStep(meaning, rank, sources, init);
      OneMoreCall(meaning, rank, Run(rank, Registered(sources), init), ReadRun(rank, Registered(sources), init), init,
                  last);
    }
  }
}
