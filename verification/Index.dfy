/** The index of latest states of one source against its upstream, over whole histories of the repository. */
module Index {
  import opened Models
  import opened Ordering
  import opened Reconciliation
  import opened Store
  import opened Rsync
  import opened Incomplete
  import opened Resolver
  import opened Agreement
  import opened Histories

  // ---- the latest state of a key ---------------------------------------------------------------

  ghost predicate Indexed(idRank: ObservationId -> int, s: Store, source: SourceId, path: string) {
    LatestState(idRank, s, PathKey(source, path)).Seen?
  }

  lemma {:induction false} LatestIsRow(idRank: ObservationId -> int, rows: seq<Observation>, key: string)
    ensures
      var r := LatestObservation(idRank, rows, key);
      (r.Some? ==> r.value in rows && r.value.artifactKey == key) && (r.Some? <==> HasKey(rows, key))
  {
    if rows != [] {
      LatestIsRow(idRank, rows[..|rows| - 1], key);
      assert rows == rows[..|rows| - 1] + [rows[|rows| - 1]];
    }
  }

  lemma {:induction false} LatestAbsenceIsRow(idRank: ObservationId -> int, rows: seq<Absence>, key: string)
    ensures
      var r := LatestAbsence(idRank, rows, key);
      (r.Some? ==> r.value in rows && r.value.artifactKey == key) && (r.Some? <==> HasAbsenceKey(rows, key))
  {
    if rows != [] {
      LatestAbsenceIsRow(idRank, rows[..|rows| - 1], key);
      assert rows == rows[..|rows| - 1] + [rows[|rows| - 1]];
    }
  }

  lemma {:induction false} LatestAppend(idRank: ObservationId -> int, rows: seq<Observation>, more: seq<Observation>,
        key: string, at: Time)
    requires (forall o | o in rows && o.artifactKey == key :: o.at < at) && forall o | o in more :: o.at == at
    ensures
      var r := LatestObservation(idRank, rows + more, key);
      if HasKey(more, key) then r.Some? && r.value.at == at else r == LatestObservation(idRank, rows, key)
  {
    if more == [] {
      assert rows + more == rows;
    } else {
      var init, last := more[..|more| - 1], more[|more| - 1];
      assert more == init + [last] && (rows + more)[..|rows + more| - 1] == rows + init;
      LatestAppend(idRank, rows, init, key, at);
      LatestIsRow(idRank, rows + init, key);
      if last.artifactKey != key {
        assert HasKey(more, key) <==> HasKey(init, key);
      }
    }
  }

  lemma {:induction false} LatestAbsenceAppend(idRank: ObservationId -> int, rows: seq<Absence>, more: seq<Absence>,
        key: string, at: Time)
    requires (forall a | a in rows && a.artifactKey == key :: a.at < at) && forall a | a in more :: a.at == at
    ensures
      var r := LatestAbsence(idRank, rows + more, key);
      if HasAbsenceKey(more, key) then r.Some? && r.value.at == at else r == LatestAbsence(idRank, rows, key)
  {
    if more == [] {
      assert rows + more == rows;
    } else {
      var init, last := more[..|more| - 1], more[|more| - 1];
      assert more == init + [last] && (rows + more)[..|rows + more| - 1] == rows + init;
      LatestAbsenceAppend(idRank, rows, init, key, at);
      LatestAbsenceIsRow(idRank, rows + init, key);
      if last.artifactKey != key {
        assert HasAbsenceKey(more, key) <==> HasAbsenceKey(init, key);
      }
    }
  }

  /** A recording at a new time decides the state of the keys it writes and leaves the others alone. */
  lemma StateAfter(idRank: ObservationId -> int, s: Store, step: OwnStep, out: Outcome, key: string)
    requires Before(s, step.Source(), step.At()) && Appends(s, step, out) && OwnsKey(step.Source(), key)
    requires !(HasKey(out.rows, key) && HasAbsenceKey(out.absences, key))
    ensures
      var now := LatestState(idRank, out.store, key);
      if HasKey(out.rows, key) then now.Seen?
      else if HasAbsenceKey(out.absences, key) then now.Missing?
      else now == LatestState(idRank, s, key)
  {
    LatestAppend(idRank, s.observations, out.rows, key, step.At());
    LatestAbsenceAppend(idRank, s.absences, out.absences, key, step.At());
    LatestIsRow(idRank, s.observations, key);
    LatestAbsenceIsRow(idRank, s.absences, key);
  }

  /** One more own recording changes a path's state exactly when it shows it as a file or takes it away. */
  lemma IndexStep(idRank: ObservationId -> int, rank: Snapshot -> int, s: Store, source: SourceId, own: seq<OwnStep>,
        step: OwnStep, path: string)
    requires Tracks(s, source, own) && Following(source, own + [step])
    ensures
      var s' := Taken(rank, s, step).store;
      if Shows(step, path) then Indexed(idRank, s', source, path)
      else if TakesAway(own, step, path) then !Indexed(idRank, s', source, path)
      else LatestState(idRank, s', PathKey(source, path)) == LatestState(idRank, s, PathKey(source, path))
  {
    StillTracks(rank, s, source, own, step);
    FollowingPrefix(source, own, step);
    StepWritesKeys(rank, s, source, own, step, path);
    OwnKeys(source, path);
    StateAfter(idRank, s, step, Taken(rank, s, step), PathKey(source, path));
  }

  // ---- the same step on histories ---------------------------------------------------------------

  /** Some recording shows the path as a file, and no later listing takes it away. */
  ghost predicate Lingers(own: seq<OwnStep>, path: string) {
    exists i: nat :: i < |own| && Shows(own[i], path) && KeptAfter(own, path, i)
  }

  ghost predicate KeptAfter(own: seq<OwnStep>, path: string, i: nat) {
    forall k | i < k < |own| :: !TakesAway(own[..k], own[k], path)
  }

  lemma {:induction false} KeptAfterGrows(own: seq<OwnStep>, step: OwnStep, path: string, i: nat)
    requires i < |own|
    ensures KeptAfter(own + [step], path, i) <==> KeptAfter(own, path, i) && !TakesAway(own, step, path)
  {
    var all := own + [step];
    assert all[..|own|] == own;
    forall k | i < k < |own| ensures all[..k] == own[..k] && all[k] == own[k] {}
    if KeptAfter(all, path, i) {
      forall k | i < k < |own| ensures !TakesAway(own[..k], own[k], path) {
        assert !TakesAway(all[..k], all[k], path);
      }
      assert !TakesAway(all[..|own|], all[|own|], path);
    }
  }

  lemma LingersStep(own: seq<OwnStep>, step: OwnStep, path: string)
    ensures Lingers(own + [step], path) <==> Shows(step, path) || (Lingers(own, path) && !TakesAway(own, step, path))
  {
    var all := own + [step];
    if Shows(step, path) {
      assert all[|own|] == step && KeptAfter(all, path, |own|);
    }
    if Lingers(own, path) && !TakesAway(own, step, path) {
      var i: nat :| i < |own| && Shows(own[i], path) && KeptAfter(own, path, i);
      KeptAfterGrows(own, step, path, i);
      assert all[i] == own[i];
    }
    if Lingers(all, path) && !Shows(step, path) {
      var i: nat :| i < |all| && Shows(all[i], path) && KeptAfter(all, path, i);
      KeptAfterGrows(own, step, path, i);
      assert all[i] == own[i];
    }
  }

  // ---- steps that are none of the source's business -------------------------------------------------

  /** Only rows under other keys and snapshots of other sources were added. */
  ghost predicate Foreign(s: Store, s': Store, source: SourceId) {
    && s.observations <= s'.observations && s.absences <= s'.absences && s.snapshots <= s'.snapshots
    && (forall o | o in s'.observations[|s.observations|..] :: !OwnsKey(source, o.artifactKey))
    && (forall a | a in s'.absences[|s.absences|..] :: !OwnsKey(source, a.artifactKey))
    && (forall x | x in s'.snapshots[|s.snapshots|..] :: x.source != source)
  }

  /** Neither a row under the source's keys, nor a snapshot of it, nor a source that could share its keys. */
  predicate Unrelated(source: SourceId, action: Action) {
    match action
    case Ingest(o) => !OwnsKey(source, o.artifactKey)
    case Reobserve(o) => !OwnsKey(source, o.artifactKey)
    case Miss(a) => !OwnsKey(source, a.artifactKey)
    case SaveSourceSnapshot(other, _, _, _, _, _) => other != source
    case SaveTreeSnapshot(other, _, _, _, _, _, _) => other != source
    case ReconcileListing(req) => req.source != source && StandApart(source, req.source)
    case RecordTransfer(p) => p.source != source && StandApart(source, p.source)
    case _ => true
  }

  predicate IsOwn(source: SourceId, action: Action) {
    || (action.ReconcileListing? && action.request.source == source)
    || (action.RecordTransfer? && action.partial.source == source)
  }

  function OwnStepOf(action: Action): OwnStep
    requires action.ReconcileListing? || action.RecordTransfer?
  {
    if action.ReconcileListing? then Listing(action.request) else Transfer(action.partial)
  }

  /** The recordings of one source in a history of the whole repository. */
  function OwnSteps(actions: seq<Action>, source: SourceId): seq<OwnStep> {
    if actions == [] then []
    else
      var last := actions[|actions| - 1];
      OwnSteps(actions[..|actions| - 1], source) + if IsOwn(source, last) then [OwnStepOf(last)] else []
  }

  /** Every action is a recording of the source or none of its business. */
  ghost predicate Interleaved(source: SourceId, actions: seq<Action>) {
    forall a | a in actions :: IsOwn(source, a) || Unrelated(source, a)
  }

  lemma ForeignSuffix(s: Store, s': Store, source: SourceId, rows: seq<Observation>, absences: seq<Absence>,
        snapshots: seq<Snapshot>)
    requires s'.observations == s.observations + rows && s'.absences == s.absences + absences
        && s'.snapshots == s.snapshots + snapshots
    requires forall o | o in rows :: !OwnsKey(source, o.artifactKey)
    requires forall a | a in absences :: !OwnsKey(source, a.artifactKey)
    requires forall x | x in snapshots :: x.source != source
    ensures Foreign(s, s', source)
  {
    assert s'.observations[|s.observations|..] == rows;
    assert s'.absences[|s.absences|..] == absences;
    assert s'.snapshots[|s.snapshots|..] == snapshots;
  }

  lemma OtherListingIsForeign(rank: Snapshot -> int, s: Store, source: SourceId, req: Request)
    requires StandApart(source, req.source) && req.source != source
    ensures Foreign(s, Reconcile(rank, s, req, true).store, source)
  {
    if !Recordable(req) {
      var s' := Reconcile(rank, s, req, true).store;
      ForeignSuffix(s, s', source, [], [], s'.snapshots[|s.snapshots|..]);
    } else {
      SortedEntriesMirrored(req);
      var items := PreviousItems(rank, s, req.source, req.inventory.scope);
      var p := RecordEntries(s, req, SortedEntries(req), PreviousMap(items), true);
      EntriesFrame(s, req, SortedEntries(req), PreviousMap(items), true);
      OtherRows(req, source, SortedEntries(req), p.rows);
      OtherGone(rank, s, req, source);
      RecordedIsForeign(s, p, req, GoneFiles(req.inventory, items), source);
    }
  }

  lemma RecordedIsForeign(s: Store, p: Progress, req: Request, gone: seq<PreviousItem>, source: SourceId)
    requires Grew(s, p) && req.source != source
    requires forall o | o in p.rows :: !OwnsKey(source, o.artifactKey)
    requires forall x | x in gone :: !OwnsKey(source, x.artifactKey)
    ensures Foreign(s, Recorded(p, req, gone).store, source)
  {
    var a := RecordAbsences(p.store, req, gone);
    AbsencesFrame(p.store, req, gone);
    forall x | x in a.rows ensures !OwnsKey(source, x.artifactKey) {
      var i :| 0 <= i < |a.rows| && a.rows[i] == x;
      assert gone[i] in gone;
    }
    if p.error.Some? {
      ForeignSuffix(s, p.store, source, p.rows, [], []);
    } else if a.error.Some? {
      ForeignSuffix(s, a.store, source, p.rows, a.rows, []);
    } else {
      OtherConclusion(p, a, req);
      ConclusionIsForeign(s, p, a, Concluded(p, a, req).store, req, source);
    }
  }

  lemma ConclusionIsForeign(s: Store, p: Progress, a: AbsenceProgress, s': Store, req: Request, source: SourceId)
    requires req.source != source && a.store.observations == s.observations + p.rows
        && a.store.absences == s.absences + a.rows
    requires a.store.snapshots == s.snapshots
    requires s'.observations == a.store.observations && s'.absences == a.store.absences
        && a.store.snapshots <= s'.snapshots
    requires forall x | x in s'.snapshots[|a.store.snapshots|..] :: x.source == req.source
    requires forall o | o in p.rows :: !OwnsKey(source, o.artifactKey)
    requires forall x | x in a.rows :: !OwnsKey(source, x.artifactKey)
    ensures Foreign(s, s', source)
  {
    ForeignSuffix(s, s', source, p.rows, a.rows, s'.snapshots[|s.snapshots|..]);
  }

  lemma OtherRows(req: Request, source: SourceId, es: seq<Entry>, rows: seq<Observation>)
    requires StandApart(source, req.source) && RowsListed(req, es, rows)
    ensures forall o | o in rows :: !OwnsKey(source, o.artifactKey)
  {
    forall o | o in rows ensures !OwnsKey(source, o.artifactKey) {
      assert IsListed(req, es, o);
      var e :| e in es && e.kind == File && RowFor(req, o, e.path);
      ApartKeys(source, req.source, e.path);
    }
  }

  lemma OtherGone(rank: Snapshot -> int, s: Store, req: Request, source: SourceId)
    requires StandApart(source, req.source)
    ensures forall p | p in GoneFiles(req.inventory, PreviousItems(rank, s, req.source, req.inventory.scope)) ::
        !OwnsKey(source, p.artifactKey)
  {
    var scope := req.inventory.scope;
    GoneMember(req.inventory, PreviousItems(rank, s, req.source, scope));
    PreviousKeys(req.source, BaselineEntries(rank, s, req.source, scope), scope);
    forall p | p in PreviousItems(rank, s, req.source, scope) ensures !OwnsKey(source, p.artifactKey) {
      ApartKeys(source, req.source, p.itemId);
    }
  }

  lemma OtherConclusion(p: Progress, a: AbsenceProgress, req: Request)
    ensures
      var s' := Concluded(p, a, req).store;
      && s'.observations == a.store.observations && s'.absences == a.store.absences && a.store.snapshots <= s'.snapshots
      && forall x | x in s'.snapshots[|a.store.snapshots|..] :: x.source == req.source
  {
  }

  lemma SavedSnapshotIsForeign(s: Store, s': Store, source: SourceId, x: Snapshot)
    requires x.source != source && s'.observations == s.observations && s'.absences == s.absences
    requires s'.snapshots == s.snapshots || s'.snapshots == s.snapshots + [x]
    ensures Foreign(s, s', source)
  {
    ForeignSuffix(s, s', source, [], [], s'.snapshots[|s.snapshots|..]);
  }

  lemma RowIsForeign(s: Store, s': Store, source: SourceId, o: Observation)
    requires !OwnsKey(source, o.artifactKey) && s'.absences == s.absences && s'.snapshots == s.snapshots
    requires s'.observations == s.observations || s'.observations == s.observations + [o]
    ensures Foreign(s, s', source)
  {
    ForeignSuffix(s, s', source, s'.observations[|s.observations|..], [], []);
  }

  lemma OtherTransferIsForeign(s: Store, source: SourceId, p: Partial)
    requires Consistent(s) && StandApart(source, p.source) && p.source != source
    ensures Foreign(s, RecordIncomplete(s, p).store, source)
  {
    var g, s' := Gather(s, p, p.updated), RecordIncomplete(s, p).store;
    GatherFrame(s, p, p.updated);
    forall o | o in g.rows ensures !OwnsKey(source, o.artifactKey) {
      assert FromPartial(p, o);
      ApartKeys(source, p.source, o.path.value);
    }
    ForeignSuffix(s, s', source, g.rows, [], s'.snapshots[|s.snapshots|..]);
  }

  lemma OtherSnapshotIsForeign(s: Store, source: SourceId, other: SourceId, run: RunId, complete: bool,
        scope: seq<string>, at: Time, evidence: Evidence)
    requires other != source
    ensures Foreign(s, RecordSourceSnapshot(s, other, run, complete, scope, at, evidence).store, source)
  {
    var x := Snapshot(other, run, at, complete, None, SortText(scope), BoundEvidence(s, other, run, at, evidence));
    SavedSnapshotIsForeign(s, RecordSourceSnapshot(s, other, run, complete, scope, at, evidence).store, source, x);
  }

  lemma OtherTreeIsForeign(s: Store, source: SourceId, other: SourceId, run: RunId, entries: seq<TreeEntry>,
        complete: bool, scope: seq<string>, at: Time, evidence: Evidence)
    requires other != source
    ensures Foreign(s, RecordTreeSnapshot(s, other, run, entries, complete, scope, at, evidence).store, source)
  {
    var x := Snapshot(other, run, at, complete, Some(Identities(Sort(entries, EntryLe))), SortText(scope),
                      BoundEvidence(s, other, run, at, evidence));
    SavedSnapshotIsForeign(s, RecordTreeSnapshot(s, other, run, entries, complete, scope, at, evidence).store, source,
      x);
  }

  lemma UnrelatedIsForeign(rank: Snapshot -> int, s: Store, source: SourceId, action: Action)
    requires Consistent(s) && Unrelated(source, action)
    ensures Foreign(s, Perform(rank, s, action), source)
  {
    var s' := Perform(rank, s, action);
    match action
    case Ingest(o) => RowIsForeign(s, s', source, o);
    case Reobserve(o) => RowIsForeign(s, s', source, o);
    case Miss(a) => ForeignSuffix(s, s', source, [], s'.absences[|s.absences|..], []);
    case SaveSourceSnapshot(other, run, complete, scope, at, evidence) =>
      OtherSnapshotIsForeign(s, source, other, run, complete, scope, at, evidence);
    case SaveTreeSnapshot(other, run, entries, complete, scope, at, evidence) =>
      OtherTreeIsForeign(s, source, other, run, entries, complete, scope, at, evidence);
    case ReconcileListing(req) => OtherListingIsForeign(rank, s, source, req);
    case RecordTransfer(p) => OtherTransferIsForeign(s, source, p);
    case _ => ForeignSuffix(s, s', source, [], [], []);
  }

  lemma ForeignKeepsTracks(s: Store, s': Store, source: SourceId, own: seq<OwnStep>)
    requires Tracks(s, source, own) && Consistent(s') && Extends(s, s') && Foreign(s, s', source)
    ensures Tracks(s', source, own)
  {
    var more := s'.snapshots[|s.snapshots|..];
    assert s'.snapshots == s.snapshots + more;
    OfSourceAppend(s.snapshots, more, source);
    NoneOfSource(more, source);
    assert OfSource(s.snapshots, source) + [] == OfSource(s.snapshots, source);
    MatchedKept(s, s', OfSource(s.snapshots, source), own);
    forall at | own == [] || own[|own| - 1].At() < at ensures Before(s', source, at) {
      assert Before(s, source, at);
      assert s'.observations == s.observations + s'.observations[|s.observations|..];
      assert s'.absences == s.absences + s'.absences[|s.absences|..];
    }
  }

  lemma {:induction false} LatestSkips(idRank: ObservationId -> int, rows: seq<Observation>, more: seq<Observation>,
        key: string)
    requires !HasKey(more, key)
    ensures LatestObservation(idRank, rows + more, key) == LatestObservation(idRank, rows, key)
  {
    if more == [] {
      assert rows + more == rows;
    } else {
      var init := more[..|more| - 1];
      assert (rows + more)[..|rows + more| - 1] == rows + init && more[|more| - 1] in more;
      assert forall o | o in init :: o in more;
      LatestSkips(idRank, rows, init, key);
    }
  }

  lemma {:induction false} LatestAbsenceSkips(idRank: ObservationId -> int, rows: seq<Absence>, more: seq<Absence>,
        key: string)
    requires !HasAbsenceKey(more, key)
    ensures LatestAbsence(idRank, rows + more, key) == LatestAbsence(idRank, rows, key)
  {
    if more == [] {
      assert rows + more == rows;
    } else {
      var init := more[..|more| - 1];
      assert (rows + more)[..|rows + more| - 1] == rows + init && more[|more| - 1] in more;
      assert forall o | o in init :: o in more;
      LatestAbsenceSkips(idRank, rows, init, key);
    }
  }

  lemma ForeignKeepsState(idRank: ObservationId -> int, s: Store, s': Store, source: SourceId, key: string)
    requires Foreign(s, s', source) && OwnsKey(source, key)
    ensures LatestState(idRank, s', key) == LatestState(idRank, s, key)
  {
    assert s'.observations == s.observations + s'.observations[|s.observations|..];
    assert s'.absences == s.absences + s'.absences[|s.absences|..];
    LatestSkips(idRank, s.observations, s'.observations[|s.observations|..], key);
    LatestAbsenceSkips(idRank, s.absences, s'.absences[|s.absences|..], key);
  }

  // ---- the keys of the other recorders ----------------------------------------------------------------

  /** The keys other recorders use for a source of any id: the plain one, an item's, a collection execution's. */
  predicate IsRecorderKey(source: SourceId, key: string) {
    || key == "source:" + source
    || ("source:" + source + ":item:" <= key)
    || key == "source:" + source + ":collection-execution"
  }

  /** The first colon behind "source:" ends the id. */
  lemma ColonEndsId(id: string, key: string)
    requires ':' !in id && "source:" + id + ":" <= key
    ensures key[|"source:"| + |id|] == ':'
    ensures forall k | |"source:"| <= k < |"source:"| + |id| :: key[k] != ':'
  {
    var prefix := "source:" + id + ":";
    assert key[..|prefix|] == prefix;
    forall k | |"source:"| <= k < |"source:"| + |id| ensures key[k] != ':' {
      assert key[k] == prefix[k] == id[k - |"source:"|];
    }
    assert key[|"source:"| + |id|] == prefix[|"source:"| + |id|];
  }

  lemma PathMark(a: SourceId, key: string)
    requires OwnsKey(a, key)
    ensures "source:" + a + ":" <= key && |key| > |"source:"| + |a| + 1 && key[|"source:"| + |a| + 1] == 'p'
  {
    var n := |"source:"| + |a| + 1;
    assert key[..|KeyPrefix(a)|] == KeyPrefix(a);
    assert KeyPrefix(a)[..n] == "source:" + a + ":" && KeyPrefix(a)[n] == 'p';
  }

  lemma PlainKeyEndsEarly(a: SourceId, b: SourceId)
    requires ':' !in b
    ensures !("source:" + a + ":" <= "source:" + b)
  {
    var n, key := |"source:"|, "source:" + b;
    if |key| > n + |a| {
      assert key[n + |a|] == b[|a|];
      assert ("source:" + a + ":")[n + |a|] == ':';
    }
  }

  /** When ids contain no colon, none of these is a path key, of that source or of another. */
  lemma RecorderKeysAreNotOwned(a: SourceId, b: SourceId, key: string)
    requires ':' !in a && ':' !in b && IsRecorderKey(b, key)
    ensures !OwnsKey(a, key)
  {
    PlainKeyEndsEarly(a, b);
    if OwnsKey(a, key) {
      PathMark(a, key);
      MarkedKey(b, key);
      ColonEndsId(a, key);
      ColonEndsId(b, key);
    }
  }

  lemma MarkedKey(b: SourceId, key: string)
    requires IsRecorderKey(b, key) && key != "source:" + b
    ensures "source:" + b + ":" <= key && |key| > |"source:"| + |b| + 1 && key[|"source:"| + |b| + 1] != 'p'
  {
    var item, execution := "source:" + b + ":item:", "source:" + b + ":collection-execution";
    var n := |"source:"| + |b| + 1;
    assert item[..n] == "source:" + b + ":" == execution[..n];
    assert item[n] == 'i' && execution[n] == 'c';
    if item <= key { assert key[..|item|] == item; }
  }

  // ---- main results ---------------------------------------------------------------------------

  lemma {:induction false} InterleavedPrefix(source: SourceId, init: seq<Action>, last: Action)
    requires Interleaved(source, init + [last]) && Following(source, OwnSteps(init + [last], source))
    ensures Interleaved(source, init) && Following(source, OwnSteps(init, source))
    ensures OwnSteps(init + [last], source)
         == if IsOwn(source, last) then OwnSteps(init, source) + [OwnStepOf(last)] else OwnSteps(init, source)
    ensures IsOwn(source, last) || Unrelated(source, last)
  {
    assert (init + [last])[..|init|] == init;
    assert forall a | a in init :: a in init + [last];
    assert last in init + [last];
    if IsOwn(source, last) {
      FollowingPrefix(source, OwnSteps(init, source), OwnStepOf(last));
    } else {
      assert OwnSteps(init, source) + [] == OwnSteps(init, source);
    }
  }

  lemma {:induction false} HistoryTracks(rank: Snapshot -> int, s: Store, source: SourceId, actions: seq<Action>)
    requires Tracks(s, source, []) && Interleaved(source, actions) && Following(source, OwnSteps(actions, source))
    ensures Tracks(PerformAll(rank, s, actions), source, OwnSteps(actions, source))
  {
    if actions != [] {
      var init, last := actions[..|actions| - 1], actions[|actions| - 1];
      assert actions == init + [last];
      InterleavedPrefix(source, init, last);
      HistoryTracks(rank, s, source, init);
      OneMoreTracked(rank, PerformAll(rank, s, init), source, OwnSteps(init, source), last);
    }
  }

  lemma OneMoreTracked(rank: Snapshot -> int, t: Store, source: SourceId, own: seq<OwnStep>, last: Action)
    requires Tracks(t, source, own) && (IsOwn(source, last) || Unrelated(source, last))
    requires IsOwn(source, last) ==> Following(source, own + [OwnStepOf(last)])
    ensures Tracks(Perform(rank, t, last), source, if IsOwn(source, last) then own + [OwnStepOf(last)] else own)
  {
    if IsOwn(source, last) {
      StillTracks(rank, t, source, own, OwnStepOf(last));
    } else {
      UnrelatedIsForeign(rank, t, source, last);
      PerformKeeps(rank, t, last);
      ForeignKeepsTracks(t, Perform(rank, t, last), source, own);
    }
  }

  /** A registered source of which the repository has recorded nothing yet. */
  ghost predicate Untouched(s: Store, source: SourceId) {
    && Consistent(s) && source in s.sources
    && (forall o | o in s.observations :: !OwnsKey(source, o.artifactKey))
    && (forall a | a in s.absences :: !OwnsKey(source, a.artifactKey))
    && OfSource(s.snapshots, source) == []
  }

  lemma UntouchedTracks(idRank: ObservationId -> int, s: Store, source: SourceId, path: string)
    requires Untouched(s, source)
    ensures Tracks(s, source, []) && !Indexed(idRank, s, source, path)
  {
    OwnKeys(source, path);
    LatestIsRow(idRank, s.observations, PathKey(source, path));
  }

  /**
   * After any history of the whole repository, a path of a source is indexed as present exactly when a listing
   * showed it as a file or a transfer without a complete listing ingested it, and no later usable listing,
   * finding a baseline that had it as a file, omits it inside its scope.
   */
  lemma {:induction false} IndexIsExactly(
    idRank: ObservationId -> int, rank: Snapshot -> int, s: Store, source: SourceId, actions: seq<Action>, path: string)
    requires Untouched(s, source) && Interleaved(source, actions) && Following(source, OwnSteps(actions, source))
    ensures Indexed(idRank, PerformAll(rank, s, actions), source, path) <==> Lingers(OwnSteps(actions, source), path)
  {
    UntouchedTracks(idRank, s, source, path);
    assert !Lingers([], path);
    if actions != [] {
      var init, last := actions[..|actions| - 1], actions[|actions| - 1];
      assert actions == init + [last];
      InterleavedPrefix(source, init, last);
      IndexIsExactly(idRank, rank, s, source, init, path);
      HistoryTracks(rank, s, source, init);
      IndexMoves(idRank, rank, PerformAll(rank, s, init), source, OwnSteps(init, source), last, path);
    }
  }

  /** One action of any kind moves the index as it moves the set of lingering paths. */
  lemma IndexMoves(idRank: ObservationId -> int, rank: Snapshot -> int, t: Store, source: SourceId,
        own: seq<OwnStep>, last: Action, path: string)
    requires Tracks(t, source, own) && (IsOwn(source, last) || Unrelated(source, last))
    requires IsOwn(source, last) ==> Following(source, own + [OwnStepOf(last)])
    requires Indexed(idRank, t, source, path) <==> Lingers(own, path)
    ensures Indexed(idRank, Perform(rank, t, last), source, path)
       <==> Lingers(if IsOwn(source, last) then own + [OwnStepOf(last)] else own, path)
  {
    if IsOwn(source, last) {
      IndexStep(idRank, rank, t, source, own, OwnStepOf(last), path);
      LingersStep(own, OwnStepOf(last), path);
    } else {
      UnrelatedIsForeign(rank, t, source, last);
      OwnKeys(source, path);
      ForeignKeepsState(idRank, t, Perform(rank, t, last), source, PathKey(source, path));
    }
  }

  // ---- when the index agrees with upstream ------------------------------------------------------------

  /** A usable listing whose scope holds the path. */
  predicate Covering(step: OwnStep, path: string) {
    step.Listing? && Recordable(step.request) && PathInScope(path, step.request.inventory.scope)
  }

  /** What upstream last said: the last usable listing that covers the path shows it as a file. */
  ghost predicate UpstreamHas(own: seq<OwnStep>, path: string) {
    own != [] &&
      var last := own[|own| - 1];
      if Covering(last, path) then ListsFile(last.request, path) else UpstreamHas(own[..|own| - 1], path)
  }

  /**
   * A step that cannot part the index from upstream. A transfer ingests only what upstream last showed as a
   * file; a listing that no longer shows such a path as a file finds it in its baseline and omits it altogether.
   */
  ghost predicate SteadyStep(own: seq<OwnStep>, step: OwnStep, path: string) {
    match step
    case Transfer(p) => Ingests(p, path) ==> UpstreamHas(own, path)
    case Listing(c) => Covering(step, path) && UpstreamHas(own, path) && !ListsFile(c, path) ==> Vanishes(own, c, path)
  }

  ghost predicate Steady(own: seq<OwnStep>, path: string) {
    forall k | 0 <= k < |own| :: SteadyStep(own[..k], own[k], path)
  }

  ghost predicate Agrees(own: seq<OwnStep>, path: string) { Lingers(own, path) <==> UpstreamHas(own, path) }

  /** At this moment and at every earlier one. */
  ghost predicate AgreesThroughout(own: seq<OwnStep>, path: string) {
    Agrees(own, path) && (own != [] ==> AgreesThroughout(own[..|own| - 1], path))
  }

  lemma SteadyGrows(init: seq<OwnStep>, step: OwnStep, path: string)
    ensures Steady(init + [step], path) <==>
      Steady(init, path) && SteadyStep(init, step, path)
  {
    var all := init + [step];
    assert all[..|init|] == init && all[|init|] == step;
    forall k | 0 <= k < |init| ensures all[..k] == init[..k] && all[k] == init[k] {}
    if Steady(all, path) {
      forall k | 0 <= k < |init|
        ensures SteadyStep(init[..k], init[k], path)
      {
        assert SteadyStep(all[..k], all[k], path);
      }
      assert SteadyStep(all[..|init|], all[|init|], path);
    }
  }

  lemma OneStepAgrees(init: seq<OwnStep>, step: OwnStep, path: string)
    requires Agrees(init, path)
    ensures Agrees(init + [step], path) <==> SteadyStep(init, step, path)
  {
    LingersStep(init, step, path);
    assert (init + [step])[..|init|] == init;
    if step.Listing? && Lists(step.request, path) { ListedIsCovered(step, path); }
  }

  lemma ListedIsCovered(step: OwnStep, path: string)
    requires step.Listing? && Lists(step.request, path)
    ensures Covering(step, path)
  {
    var e :| e in step.request.inventory.entries && e.path == path;
    assert PathInScope(e.path, step.request.inventory.scope);
  }

  /** The index of a path agrees with upstream at every moment of a history exactly when every step is steady. */
  lemma {:induction false} AgreementIsSteadiness(own: seq<OwnStep>, path: string)
    ensures AgreesThroughout(own, path) <==> Steady(own, path)
  {
    if own != [] {
      var init, last := own[..|own| - 1], own[|own| - 1];
      assert own == init + [last];
      AgreementIsSteadiness(init, path);
      SteadyGrows(init, last, path);
      if AgreesThroughout(init, path) { OneStepAgrees(init, last, path); }
    }
  }

  /** Over a steady history the index holds a path exactly when the last usable listing that covers it shows a file. */
  lemma {:induction false} IndexAgreesWithUpstream(
    idRank: ObservationId -> int, rank: Snapshot -> int, s: Store, source: SourceId, actions: seq<Action>, path: string)
    requires Untouched(s, source) && Interleaved(source, actions) && Following(source, OwnSteps(actions, source))
    requires Steady(OwnSteps(actions, source), path)
    ensures Indexed(idRank, PerformAll(rank, s, actions), source, path) <==>
        UpstreamHas(OwnSteps(actions, source), path)
  {
    var own := OwnSteps(actions, source);
    IndexIsExactly(idRank, rank, s, source, actions, path);
    AgreementIsSteadiness(own, path);
  }

  // ---- histories of whole listings ------------------------------------------------------------------

  /** Only listings of the whole source, usable or not. */
  ghost predicate Unscoped(own: seq<OwnStep>) {
    forall x | x in own :: x.Listing? && x.request.inventory.scope == []
  }

  /** The last complete inventory, or -1. */
  ghost function LastUsable(own: seq<OwnStep>): (i: int)
    ensures -1 <= i < |own|
    ensures i >= 0 ==> Usable(own[i], [])
  {
    if own == [] then -1
    else if Usable(own[|own| - 1], []) then |own| - 1
    else LastUsable(own[..|own| - 1])
  }

  /**
   * What a listing drops from the last complete inventory: a file it no longer shows as one is gone altogether,
   * and that inventory is at most 200 recordings ago.
   */
  ghost predicate DropsCleanly(own: seq<OwnStep>, c: Request) {
    var i := LastUsable(own);
    Recordable(c) && i >= 0 ==>
      forall path | ListsFile(own[i].request, path) && !ListsFile(c, path) ::
        !Lists(c, path) && |own| - i <= BASELINE_LIMIT
  }

  ghost predicate AllDropCleanly(own: seq<OwnStep>) {
    forall k | 0 <= k < |own| && own[k].Listing? :: DropsCleanly(own[..k], own[k].request)
  }

  lemma {:induction false} BaselineIsLastInventory(own: seq<OwnStep>, limit: nat)
    requires Unscoped(own)
    ensures BaselineIndex(own, [], limit)
         == if LastUsable(own) >= 0 && |own| - LastUsable(own) <= limit then LastUsable(own) else -1
  {
    if own != [] && limit > 0 && !Usable(own[|own| - 1], []) {
      assert own[|own| - 1] in own;
      BaselineIsLastInventory(own[..|own| - 1], limit - 1);
    }
  }

  lemma {:induction false} UpstreamIsLastInventory(own: seq<OwnStep>, path: string)
    requires Unscoped(own)
    ensures UpstreamHas(own, path) <==> LastUsable(own) >= 0 && ListsFile(own[LastUsable(own)].request, path)
  {
    if own != [] {
      assert own[|own| - 1] in own;
      if !Usable(own[|own| - 1], []) { UpstreamIsLastInventory(own[..|own| - 1], path); }
    }
  }

  lemma UnscopedStep(own: seq<OwnStep>, c: Request)
    requires Unscoped(own) && c.inventory.scope == []
    ensures (forall path :: SteadyStep(own, Listing(c), path)) <==> DropsCleanly(own, c)
  {
    BaselineIsLastInventory(own, BASELINE_LIMIT);
    var i := LastUsable(own);
    forall path
      ensures SteadyStep(own, Listing(c), path) <==>
        (Recordable(c) && i >= 0 && ListsFile(own[i].request, path) && !ListsFile(c, path) ==>
          !Lists(c, path) && |own| - i <= BASELINE_LIMIT)
    {
      UpstreamIsLastInventory(own, path);
    }
  }

  /** Listings of the whole source are steady for every path exactly when each drops cleanly. */
  lemma UnscopedSteadiness(own: seq<OwnStep>)
    requires Unscoped(own)
    ensures (forall path :: Steady(own, path)) <==> AllDropCleanly(own)
  {
    forall k | 0 <= k < |own|
      ensures (forall path :: SteadyStep(own[..k], own[k], path)) <==> DropsCleanly(own[..k], own[k].request)
    {
      assert own[k] in own && own[k] == Listing(own[k].request);
      assert forall x | x in own[..k] :: x in own;
      UnscopedStep(own[..k], own[k].request);
    }
    if AllDropCleanly(own) {
      forall path ensures Steady(own, path) {
        forall k | 0 <= k < |own| ensures SteadyStep(own[..k], own[k], path) {
          assert DropsCleanly(own[..k], own[k].request);
        }
      }
    }
    if forall path :: Steady(own, path) {
      forall k | 0 <= k < |own| && own[k].Listing? ensures DropsCleanly(own[..k], own[k].request) {
        forall path ensures SteadyStep(own[..k], own[k], path) { assert Steady(own, path); }
      }
    }
  }

  /**
   * An ordinary history: each complete inventory comes at most 200 recordings after the one before, and none
   * shows as a directory or symlink what that one showed as a file.
   */
  ghost predicate Ordinary(own: seq<OwnStep>) {
    forall k | 0 <= k < |own| && Usable(own[k], []) && LastUsable(own[..k]) >= 0 ::
      var i := LastUsable(own[..k]);
      && k - i <= BASELINE_LIMIT
      && forall path | ListsFile(own[i].request, path) && Lists(own[k].request, path) :: ListsFile(own[k].request, path)
  }

  /**
   * Over an ordinary history of whole listings, interleaved with anything else the repository does, the indexed
   * paths of the source are exactly the files of its last complete inventory.
   */
  lemma {:induction false} IndexIsLastInventory(idRank: ObservationId -> int, rank: Snapshot -> int, s: Store,
        source: SourceId, actions: seq<Action>, path: string)
    requires Untouched(s, source) && Interleaved(source, actions) && Following(source, OwnSteps(actions, source))
    requires Unscoped(OwnSteps(actions, source)) && Ordinary(OwnSteps(actions, source))
    ensures
      var own := OwnSteps(actions, source);
      Indexed(idRank, PerformAll(rank, s, actions), source, path) <==>
        LastUsable(own) >= 0 && ListsFile(own[LastUsable(own)].request, path)
  {
    var own := OwnSteps(actions, source);
    OrdinaryDropsCleanly(own);
    UnscopedSteadiness(own);
    IndexAgreesWithUpstream(idRank, rank, s, source, actions, path);
    UpstreamIsLastInventory(own, path);
  }

  lemma OrdinaryDropsCleanly(own: seq<OwnStep>)
    requires Unscoped(own) && Ordinary(own)
    ensures AllDropCleanly(own)
  {
    forall k | 0 <= k < |own| && own[k].Listing? ensures DropsCleanly(own[..k], own[k].request) {
      assert own[k] in own;
    }
  }

  // ---- where the index and upstream part --------------------------------------------------------

  function OneListing(source: SourceId, at: Time, entries: seq<Entry>): Request {
    Request(source, "r", "o", at, map["f" := [1]], Inventory(entries, [], true), "u")
  }

  function ActionOf(step: OwnStep): Action {
    if step.Listing? then ReconcileListing(step.request) else RecordTransfer(step.partial)
  }

  function Steps(own: seq<OwnStep>): seq<Action> {
    if own == [] then [] else Steps(own[..|own| - 1]) + [ActionOf(own[|own| - 1])]
  }

  lemma {:induction false} StepsAreOwn(source: SourceId, own: seq<OwnStep>)
    requires forall x | x in own :: x.Source() == source
    ensures OwnSteps(Steps(own), source) == own && Interleaved(source, Steps(own))
  {
    if own != [] {
      var init, last := own[..|own| - 1], own[|own| - 1];
      assert own == init + [last];
      StepsAreOwn(source, init);
      assert last in own && IsOwn(source, ActionOf(last)) && OwnStepOf(ActionOf(last)) == last;
      assert Steps(own)[..|Steps(own)| - 1] == Steps(init);
    }
  }

  /** A file that turns into a directory and then disappears stays indexed. */
  lemma {:induction false} FileTurnedDirectoryStaysIndexed(idRank: ObservationId -> int, rank: Snapshot -> int,
        s: Store, source: SourceId)
    requires Untouched(s, source)
    ensures
      var own := [Listing(OneListing(source, 1, [Entry("f", File, Some(1), None, None)])),
                  Listing(OneListing(source, 2, [Entry("f", Directory, None, None, None)])),
                  Listing(OneListing(source, 3, []))];
      && Following(source, own) && !UpstreamHas(own, "f")
      && Indexed(idRank, PerformAll(rank, s, Steps(own)), source, "f")
  {
    var asFile, asDirectory := Entry("f", File, Some(1), None, None), Entry("f", Directory, None, None, None);
    var own := [Listing(OneListing(source, 1, [asFile])), Listing(OneListing(source, 2, [asDirectory])),
                Listing(OneListing(source, 3, []))];
    LingersThroughDirectory(source, own[0], own[1], own[2], asFile, asDirectory);
    StepsAreOwn(source, own);
    IndexIsExactly(idRank, rank, s, source, Steps(own), "f");
  }

  lemma LingersThroughDirectory(source: SourceId, a: OwnStep, b: OwnStep, c: OwnStep, asFile: Entry, asDirectory: Entry)
    requires asFile == Entry("f", File, Some(1), None, None) && asDirectory == Entry("f", Directory, None, None, None)
    requires a == Listing(OneListing(source, 1, [asFile])) && b == Listing(OneListing(source, 2, [asDirectory]))
    requires c == Listing(OneListing(source, 3, []))
    ensures Following(source, [a, b, c]) && !UpstreamHas([a, b, c], "f") && Lingers([a, b, c], "f")
  {
    var own := [a, b, c];
    assert asFile in a.request.inventory.entries && asDirectory in b.request.inventory.entries;
    assert Recordable(a.request) && Recordable(b.request) && Recordable(c.request);
    assert Lists(b.request, "f") && !ListsFile(b.request, "f");
    assert own[..1] == [a] && own[..2] == [a, b] && [a, b][..1] == [a];
    assert !TakesAway(own[..1], own[1], "f");
    assert BaselineIndex([a, b], [], BASELINE_LIMIT) == 1;
    assert !TakesAway(own[..2], own[2], "f");
    assert Shows(own[0], "f") && KeptAfter(own, "f", 0);
  }

  /** A file that only a transfer without a listing brought in stays indexed when the next listing lacks it. */
  lemma {:induction false} TransferredFileStaysIndexed(idRank: ObservationId -> int, rank: Snapshot -> int, s: Store,
        source: SourceId)
    requires Untouched(s, source)
    ensures
      var own := [Transfer(Partial(source, "r", "o", 1, ["f"], map["f" := LocalFile([1])], [], "u")),
                  Listing(OneListing(source, 2, []))];
      && Following(source, own) && !UpstreamHas(own, "f")
      && Indexed(idRank, PerformAll(rank, s, Steps(own)), source, "f")
  {
    var p := Partial(source, "r", "o", 1, ["f"], map["f" := LocalFile([1])], [], "u");
    var own := [Transfer(p), Listing(OneListing(source, 2, []))];
    TransferLingers(source, p, own[0], own[1]);
    StepsAreOwn(source, own);
    IndexIsExactly(idRank, rank, s, source, Steps(own), "f");
  }

  lemma TransferLingers(source: SourceId, p: Partial, a: OwnStep, b: OwnStep)
    requires p == Partial(source, "r", "o", 1, ["f"], map["f" := LocalFile([1])], [], "u")
    requires a == Transfer(p) && b == Listing(OneListing(source, 2, []))
    ensures Following(source, [a, b]) && !UpstreamHas([a, b], "f") && Lingers([a, b], "f")
  {
    var own := [a, b];
    assert p.updated[0] == "f" && FilesOnce(p, p.updated[..0]);
    assert Ingests(p, "f");
    assert own[..1] == [a] && [a][..0] == [];
    assert BaselineIndex([a], [], BASELINE_LIMIT) == -1;
    assert !TakesAway(own[..1], own[1], "f");
    assert Shows(own[0], "f") && KeptAfter(own, "f", 0);
    assert Recordable(b.request) && Covering(b, "f");
  }

  // ---- a listing repeated in its own run ----------------------------------------------------------------

  /**
   * A listing of files without change evidence, recorded twice in one run: both calls succeed, the second
   * snapshot is ambiguous, and whatever happens later every cleanup of the repository is refused.
   */
  lemma {:induction false} RepeatedListingBlocksCleanup(rank: Snapshot -> int, s: Store, req: Request, later: Time,
        e: Entry, future: seq<Action>, cleanup: Action)
    requires Untouched(s, req.source) && Recordable(req) && req.inventory.scope == [] && req.at < later
    requires e in req.inventory.entries && e.kind == File && forall x | x in req.inventory.entries :: x.Token().None?
    requires cleanup.Cleanup?
    ensures
      var first := Reconcile(rank, s, req, true);
      var second := Reconcile(rank, first.store, req.(at := later), true);
      var end := PerformAll(rank, second.store, future);
      && first.error.None? && second.error.None? && second.snapshot.Some?
      && SnapshotObservations(second.store, second.snapshot.value).Failure?
      && !AuditPasses(end) && Perform(rank, end, cleanup) == end
  {
    var own, again := [Listing(req)], req.(at := later);
    assert [] + [Listing(req)] == own && own + [Listing(again)] == [Listing(req), Listing(again)];
    StillTracks(rank, s, req.source, [], Listing(req));
    RecordedAppends(rank, s, req);
    var first := Reconcile(rank, s, req, true);
    assert Before(first.store, req.source, later);
    RecordedAppends(rank, first.store, again);
    RecordedKeys(rank, s, req, e.path);
    FirstRowRepeats(rank, s, req, again, first, e);
    RecorderAndResolverAgree(rank, first.store, again);
    RepeatBlocksCleanupForever(rank, first.store, again, future, cleanup);
  }

  lemma FirstRowRepeats(rank: Snapshot -> int, s: Store, req: Request, again: Request, first: Outcome, e: Entry)
    requires Consistent(s) && Recordable(req) && first == Reconcile(rank, s, req, true) && first.error.None?
    requires again == req.(at := again.at) && req.at <= again.at
    requires e in req.inventory.entries && e.kind == File && forall x | x in req.inventory.entries :: x.Token().None?
    requires first.store.observations == s.observations + first.rows
    requires HasKey(first.rows, PathKey(req.source, e.path))
    ensures RepeatsRun(rank, first.store, again)
  {
    var o :| o in first.rows && o.artifactKey == PathKey(req.source, e.path);
    UnmarkedRow(rank, s, req, e, o);
    assert Repeated(rank, first.store, again, o, e);
  }

  /** Without change evidence a row holds the mirror's bytes. */
  lemma UnmarkedRow(rank: Snapshot -> int, s: Store, req: Request, e: Entry, o: Observation)
    requires Consistent(s) && Recordable(req) && o in Reconcile(rank, s, req, true).rows
    requires e in req.inventory.entries && e.kind == File && forall x | x in req.inventory.entries :: x.Token().None?
    requires o.artifactKey == PathKey(req.source, e.path) && e.path in req.files
    ensures Belongs(o, req.source, req.run, req.at) && o.path == Some(e.path) && o.content == Sha256(req.files[e.path])
  {
    SortedEntriesMirrored(req);
    var es, previous := SortedEntries(req), PreviousMap(PreviousItems(rank, s, req.source, req.inventory.scope));
    BaselineHeld(rank, s, req.source, req.inventory.scope);
    RowContents(s, req, es, previous);
    OutcomeRows(rank, s, req, true);
    UnmarkedContent(req, es, previous, e, o);
  }

  lemma UnmarkedContent(req: Request, es: seq<Entry>, previous: map<string, PreviousItem>, e: Entry, o: Observation)
    requires RecordsContent(req, es, previous, o) && forall x | x in es :: x.Token().None?
    requires o.artifactKey == PathKey(req.source, e.path)
    ensures Belongs(o, req.source, req.run, req.at) && o.path == Some(e.path)
    ensures e.path in req.files && o.content == Sha256(req.files[e.path])
  {
    var x :| x in es && x.kind == File && x.path in req.files && RowFor(req, o, x.path)
          && o.content == ContentFor(req, x, Lookup(previous, x.path));
    PathKeyInjective(req.source, x.path, e.path);
  }
}
