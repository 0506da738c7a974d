/** The writer: fields, guarded recorders, and the rsync and resolver loops over them. */
module Repository {
  import opened Models
  import opened Ordering
  import opened Reconciliation
  import opened Store
  import opened Rsync
  import opened Incomplete
  import opened Resolver
  import opened Agreement
  import opened Decisions

  function ResultOf<T>(call: Call<T>): Result<T, StoreError> {
    if call.Returned? then Success(call.value) else Failure(call.error)
  }

  class Repository {
    var sources: set<SourceId>
    var contents: set<ContentId>
    var blobs: set<ContentId>
    var observations: seq<Observation>
    var absences: seq<Absence>
    var trees: map<TreeId, seq<TreeEntry>>
    var snapshots: seq<Snapshot>
    const rank: Snapshot -> int

    ghost function View(): Store
      reads this
    {
      Store(sources, contents, blobs, observations, absences, trees, snapshots)
    }

    constructor (rank: Snapshot -> int)
      ensures View() == EMPTY && this.rank == rank
    {
      sources, contents, blobs := {}, {}, {};
      observations, absences, trees, snapshots := [], [], map[], [];
      this.rank := rank;
    }

    method RecordObservationBundle(row: Observation) returns (r: Result<Observation, StoreError>)
      modifies this
      ensures var call := RecordBundle(old(View()), row); View() == call.store && r == ResultOf(call)
    {
      if row.source.Some? && row.source.value !in sources { return Failure(UnknownSource); }
      if HasObservation(observations, row.Id()) { return Failure(DuplicateRow); }
      contents := contents + {row.content};
      observations := observations + [row];
      return Success(row);
    }

    /** The blob goes in first; a raising recorder leaves it behind. */
    method IngestPath(row: Observation) returns (r: Result<Observation, StoreError>)
      modifies this
      ensures var call := IngestObservation(old(View()), row); View() == call.store && r == ResultOf(call)
    {
      blobs := blobs + {row.content};
      r := RecordObservationBundle(row);
    }

    /** Content without an observation: the blob first, then its row. */
    method StoreContent(content: ContentId)
      modifies this
      ensures View() == old(View()).(blobs := old(blobs) + {content}, contents := old(contents) + {content})
    {
      blobs := blobs + {content};
      contents := contents + {content};
    }

    /**
     * Content is observed again exactly when its row and its blob are there, the source is registered and the
     * row is new. Then one row is appended and nothing else changes; otherwise nothing changes at all.
     */
    method ObserveContent(row: Observation) returns (r: Result<Observation, StoreError>)
      modifies this
      ensures r.Success? <==>
        && row.content in old(contents) && row.content in old(blobs)
        && (row.source.Some? ==> row.source.value in old(sources))
        && !HasObservation(old(observations), row.Id())
      ensures r.Success? ==>
        r.value == row && View() == old(View()).(observations := old(observations) + [row])
      ensures r.Failure? ==> View() == old(View())
      ensures r.Failure? && r.error == UnknownContent <==> row.content !in old(contents)
      ensures r.Failure? && r.error == BlobUnavailable <==> row.content in old(contents) && row.content !in old(blobs)
      ensures r.Failure? && r.error == UnknownSource <==>
        && row.content in old(contents) && row.content in old(blobs)
        && row.source.Some? && row.source.value !in old(sources)
      ensures r.Failure? ==> r.error in {UnknownContent, BlobUnavailable, UnknownSource, DuplicateRow}
      ensures View() == Perform(rank, old(View()), Reobserve(row))
    {
      assert row.content in contents ==> contents + {row.content} == contents;
      if row.content !in contents { return Failure(UnknownContent); }
      if row.content !in blobs { return Failure(BlobUnavailable); }
      r := RecordObservationBundle(row);
    }

    method AppendAbsence(row: Absence) returns (r: Result<Absence, StoreError>)
      modifies this
      ensures var call := RecordAbsence(old(View()), row); View() == call.store && r == ResultOf(call)
    {
      if row.source !in sources { return Failure(UnknownSource); }
      if HasAbsence(absences, row.Id()) { return Failure(DuplicateRow); }
      absences := absences + [row];
      return Success(row);
    }

    method AppendSnapshot(x: Snapshot) returns (r: Result<Snapshot, StoreError>)
      modifies this
      ensures var call := RecordSnapshot(old(View()), x); View() == call.store && r == ResultOf(call)
    {
      if x in snapshots { return Failure(DuplicateRow); }
      snapshots := snapshots + [x];
      return Success(x);
    }

    method SaveTree(ordered: seq<TreeEntry>) returns (r: Result<TreeId, StoreError>)
      modifies this
      ensures var call := RecordTree(old(View()), ordered); View() == call.store && r == ResultOf(call)
    {
      var id := Identities(ordered);
      if id in trees && trees[id] != [] {
        return if |trees[id]| != |ordered| then Failure(ConflictingTree) else Success(id);
      }
      if !DistinctPaths(ordered) { return Failure(DuplicateRow); }
      if !EntriesHeld(ordered, contents) { return Failure(UnknownContent); }
      trees := trees[id := ordered];
      return Success(id);
    }

    method SaveSourceSnapshot(source: SourceId, run: RunId, complete: bool, scope: seq<string>, at: Time,
          evidence: Evidence)
      returns (r: Result<Snapshot, StoreError>)
      modifies this
      ensures
        var call := RecordSourceSnapshot(old(View()), source, run, complete, scope, at, evidence);
        View() == call.store && r == ResultOf(call)
    {
      if source !in sources { return Failure(UnknownSource); }
      var bound := RunIds(source, run, at);
      r := AppendSnapshot(Snapshot(source, run, at, complete, None, SortText(scope), evidence.(bound := Some(bound))));
    }

    method SaveTreeSnapshot(source: SourceId, run: RunId, entries: seq<TreeEntry>, complete: bool, scope: seq<string>,
                            at: Time, evidence: Evidence)
      returns (r: Result<Snapshot, StoreError>)
      modifies this
      ensures
        var call := RecordTreeSnapshot(old(View()), source, run, entries, complete, scope, at, evidence);
        View() == call.store && r == ResultOf(call)
    {
      var tree := SaveTree(Sort(entries, EntryLe));
      if tree.Failure? { return Failure(tree.error); }
      if source !in sources { return Failure(UnknownSource); }
      var bound := RunIds(source, run, at);
      r := AppendSnapshot(Snapshot(source, run, at, complete, Some(tree.value), SortText(scope),
        evidence.(bound := Some(bound))));
    }

    /** The ids of one source's observations in one run up to a time. */
    method RunIds(source: SourceId, run: RunId, at: Time) returns (ids: seq<ObservationId>)
      ensures ids == Ids(RunRows(observations, source, run, at))
    {
      ids := [];
      for i := 0 to |observations|
        invariant ids == Ids(RunRows(observations[..i], source, run, at))
      {
        assert observations[..i + 1][..i] == observations[..i];
        ghost var rows := RunRows(observations[..i], source, run, at);
        assert Ids(rows + [observations[i]]) == Ids(rows) + [observations[i].Id()];
        if Belongs(observations[i], source, run, at) {
          ids := ids + [observations[i].Id()];
        }
      }
      assert observations[..|observations|] == observations;
    }

    // ---- reconciling a listing ----------------------------------------------------------------

    method BaselineSnapshot(source: SourceId, scope: seq<string>) returns (r: Option<Snapshot>)
      ensures r == Baseline(rank, View(), source, scope)
    {
      var newest := Newest(Sort(OfSource(snapshots, source), NewerFirst(rank)));
      var i := 0;
      while i < |newest|
        invariant 0 <= i <= |newest|
        invariant FirstQualifying(newest, scope) == FirstQualifying(newest[i..], scope)
      {
        if Qualifies(newest[i], scope) { return Some(newest[i]); }
        assert newest[i..][1..] == newest[i + 1..];
        i := i + 1;
      }
      return None;
    }

    method BaselineItems(source: SourceId, scope: seq<string>) returns (items: seq<PreviousItem>)
      ensures items == PreviousItems(rank, View(), source, scope)
    {
      items := [];
      var baseline := BaselineSnapshot(source, scope);
      if baseline.None? || baseline.value.tree.None? || baseline.value.tree.value !in trees { return; }
      var entries := trees[baseline.value.tree.value];
      for i := 0 to |entries|
        invariant items == PreviousFrom(source, entries[..i], scope)
      {
        assert entries[..i + 1][..i] == entries[..i];
        if PathInScope(entries[i].path, scope) {
          items := items + [PreviousOf(source, entries[i])];
        }
      }
      assert entries[..|entries|] == entries;
    }

    method RecordFileEntry(req: Request, e: Entry, decision: Decision) returns (r: Result<Observation, StoreError>)
      requires e.path in req.files
      requires decision.state == Unchanged <==> IsUnchanged(e, decision.previous)
      requires decision.artifactKey == PathKey(req.source, e.path)
      modifies this
      ensures var call := RecordFile(old(View()), req, e, decision.previous, true);
          View() == call.store && r == ResultOf(call)
    {
      if decision.state == Unchanged && decision.previous.Some? && decision.previous.value.content.Some? {
        var known := decision.previous.value.content.value;
        r := ObserveContent(FileRow(req, e.path, known, true));
        // A missing row or source is caught and the file is read instead; a missing blob is not.
        if r.Success? || (r.error != UnknownContent && r.error != UnknownSource) { return; }
      }
      r := IngestPath(FileRow(req, e.path, Sha256(req.files[e.path]), false));
    }

    method RecordListed(req: Request, es: seq<Entry>, decisions: map<string, Decision>,
          ghost previous: map<string, PreviousItem>)
      returns (rows: seq<Observation>, tree: seq<TreeEntry>, ingested: nat, reused: nat, error: Option<StoreError>)
      requires Mirrored(req, es)
      requires EveryEntryDecided(req.source, es, decisions, previous)
      modifies this
      ensures
        var p := RecordEntries(old(View()), req, es, previous, true);
        p == Progress(View(), rows, tree, ingested, reused, error)
    {
      rows, tree, ingested, reused, error := [], [], 0, 0, None;
      var i := 0;
      while i < |es|
        invariant 0 <= i <= |es|
        invariant error.None?
        invariant Progress(View(), rows, tree, ingested, reused, error)
            == RecordEntries(old(View()), req, es[..i], previous, true)
      {
        var e := es[i];
        assert es[..i + 1][..i] == es[..i] && e in es;
        assert forall x | x in es[..i + 1] :: x in es;
        if e.kind == File {
          var call := RecordFileEntry(req, e, decisions[e.path]);
          if call.Failure? {
            error := Some(call.error);
            StaysFailed(old(View()), req, es, previous, i + 1);
            return;
          }
          rows, tree := rows + [call.value], tree + [EntryRow(e, Some(call.value.content))];
          if call.value.reused { reused := reused + 1; } else { ingested := ingested + 1; }
        } else {
          tree := tree + [EntryRow(e, None)];
        }
        i := i + 1;
      }
      assert es[..|es|] == es;
    }

    /** A transfer whose listing is missing or incomplete: only what it reports as updated is recorded. */
    method RecordIncompleteRsync(p: Partial)
      returns (rows: seq<Observation>, snapshot: Option<Snapshot>, error: Option<StoreError>)
      modifies this
      ensures Outcome(View(), rows, [], snapshot, error) == RecordIncomplete(old(View()), p)
      ensures View() == Perform(rank, old(View()), RecordTransfer(p))
    {
      rows, snapshot, error := [], None, None;
      var tree, ingested := [], 0;
      for i := 0 to |p.updated|
        invariant error.None?
        invariant Gather(old(View()), p, p.updated[..i]) == Progress(View(), rows, tree, ingested, 0, None)
      {
        var path := p.updated[i];
        assert p.updated[..i + 1][..i] == p.updated[..i];
        if path in p.local {
          if p.HasFile(path) {
            var call := IngestPath(PartialRow(p, path));
            if call.Failure? {
              error := Some(call.error);
              GatherStaysFailed(old(View()), p, p.updated, i + 1);
              return;
            }
            rows, ingested := rows + [call.value], ingested + 1;
          }
          tree := tree + [PartialEntry(p, path)];
        }
      }
      assert p.updated[..|p.updated|] == p.updated;
      var call := SaveTreeSnapshot(p.source, p.run, tree, false, p.scope, p.at, PartialEvidence(ingested));
      if call.Failure? { error := Some(call.error); } else { snapshot := Some(call.value); }
    }

    method RecordVanished(req: Request, decisions: seq<Decision>) returns (rows: seq<Absence>,
          error: Option<StoreError>)
      requires forall d | d in decisions && IsVanishedFile(d) :: d.artifactKey == d.previous.value.artifactKey
      modifies this
      ensures RecordAbsences(old(View()), req, VanishedFiles(decisions)) == AbsenceProgress(View(), rows, error)
    {
      rows, error := [], None;
      ghost var start := View();
      var i := 0;
      while i < |decisions|
        invariant 0 <= i <= |decisions|
        invariant error.None?
        invariant AbsenceProgress(View(), rows, error) == RecordAbsences(start, req, VanishedFiles(decisions[..i]))
      {
        var d := decisions[i];
        assert d in decisions;
        VanishedStep(start, req, decisions, i);
        if IsVanishedFile(d) {
          var call := AppendAbsence(AbsenceRow(req, d.previous.value).(artifactKey := d.artifactKey));
          if call.Failure? {
            error := Some(call.error);
            VanishedStop(start, req, decisions, i + 1);
            return;
          }
          rows := rows + [call.value];
        }
        i := i + 1;
      }
      assert decisions[..|decisions|] == decisions;
    }

    /** The comparing half: a valid listing can always be compared with what was recorded before. */
    method Decide(req: Request) returns (decisions: seq<Decision>, items: seq<PreviousItem>)
      requires TreesWellFormed(View()) && Recordable(req)
      ensures items == PreviousItems(rank, View(), req.source, req.inventory.scope)
      ensures EveryEntryDecided(req.source, req.inventory.entries, ById(decisions), PreviousMap(items))
      ensures VanishedFiles(decisions) == GoneFiles(req.inventory, items)
      ensures forall d | d in decisions && IsVanishedFile(d) :: d.artifactKey == d.previous.value.artifactKey
    {
      items := BaselineItems(req.source, req.inventory.scope);
      ListingIsWellFormed(req);
      BaselineIsDecidable(rank, View(), req);
      var decided := ReconcileInventory(ToSourceInventory(req.source, req.inventory), items);
      decisions := decided.value;
      DecisionsCoverEntries(req, items, decisions);
      VanishedIsGone(rank, View(), req, decisions);
      VanishedKeepKeys(req, items, decisions);
    }

    /** The recording half: entries, then absences, then the snapshot; the first failure ends it. */
    method RecordReconciled(req: Request, decisions: seq<Decision>, ghost previous: map<string, PreviousItem>)
          returns (out: Outcome)
      requires Recordable(req) && Mirrored(req, SortedEntries(req))
      requires EveryEntryDecided(req.source, req.inventory.entries, ById(decisions), previous)
      requires forall d | d in decisions && IsVanishedFile(d) :: d.artifactKey == d.previous.value.artifactKey
      modifies this
      ensures View() == out.store
      ensures out
          == Recorded(RecordEntries(old(View()), req, SortedEntries(req), previous, true), req,
          VanishedFiles(decisions))
    {
      SortedEntriesMirrored(req);
      var rows, tree, ingested, reused, error :=
        RecordListed(req, Sort(req.inventory.entries, EntryOrder), ById(decisions), previous);
      if error.Some? { return Outcome(Snap(), rows, [], None, error); }
      var absent, failed := RecordVanished(req, decisions);
      if failed.Some? { return Outcome(Snap(), rows, absent, None, failed); }
      var call := SaveTreeSnapshot(req.source, req.run, tree, req.inventory.scope == [], req.inventory.scope, req.at,
                                   Evidence(Some(true), None, None, ingested, reused, |absent|));
      out := if call.Failure? then Outcome(Snap(), rows, absent, None, Some(call.error))
             else Outcome(Snap(), rows, absent, Some(call.value), None);
    }

    method ReconcileRsync(req: Request) returns (out: Outcome)
      requires Consistent(View())
      modifies this
      ensures out == Reconcile(rank, old(View()), req, true) && View() == out.store
    {
      if !Recordable(req) {
        var rejected := SaveSourceSnapshot(req.source, req.run, false, req.inventory.scope, req.at,
                                           NoEvidence().(reconciled := Some(false)));
        return if rejected.Failure? then Outcome(Snap(), [], [], None, Some(rejected.error))
               else Outcome(Snap(), [], [], Some(rejected.value), None);
      }
      var decisions, items := Decide(req);
      SortedEntriesMirrored(req);
      out := RecordReconciled(req, decisions, PreviousMap(items));
    }

    // ---- resolving a snapshot -------------------------------------------------------------------

    method Candidates(x: Snapshot) returns (candidates: seq<Observation>)
      ensures candidates == RunRows(observations, x.source, x.run, x.at)
    {
      candidates := [];
      for i := 0 to |observations|
        invariant candidates == RunRows(observations[..i], x.source, x.run, x.at)
      {
        assert observations[..i + 1][..i] == observations[..i];
        if Belongs(observations[i], x.source, x.run, x.at) { candidates := candidates + [observations[i]]; }
      }
      assert observations[..|observations|] == observations;
    }

    method SelectBound(candidates: seq<Observation>, ids: seq<ObservationId>) returns (r: Option<seq<Observation>>)
      ensures r == Bound(observations, candidates, ids)
    {
      var selected := [];
      for i := 0 to |ids|
        invariant Bound(observations, candidates, ids[..i]) == Some(selected)
      {
        assert ids[..i + 1][..i] == ids[..i];
        var row := FindRow(observations, ids[i]);
        if row.None? || row.value !in candidates {
          BoundStaysNone(observations, candidates, ids, i + 1);
          return None;
        }
        selected := selected + [row.value];
      }
      assert ids[..|ids|] == ids;
      return Some(selected);
    }

    method SelectMembers(candidates: seq<Observation>, entries: seq<TreeEntry>) returns (r: Result<seq<Observation>,
          ResolveError>)
      ensures r == TreeMembers(candidates, entries)
    {
      var selected := [];
      for i := 0 to |entries|
        invariant TreeMembers(candidates, entries[..i]) == Success(selected)
      {
        assert entries[..i + 1][..i] == entries[..i];
        if !Skipped(entries[i]) {
          var matching := Matching(candidates, entries[i]);
          if |matching| != 1 {
            MembersStayFailed(candidates, entries, i + 1);
            return Failure(Ambiguous(entries[i].path));
          }
          assert matching == [matching[0]];
          selected := selected + [matching[0]];
        }
      }
      assert entries[..|entries|] == entries;
      return Success(selected);
    }

    method ResolveSnapshot(x: Snapshot) returns (r: Result<seq<Observation>, ResolveError>)
      ensures r == SnapshotObservations(View(), x)
    {
      if !x.complete || x.evidence.reconciled == Some(false) || x.evidence.acquired == Some(false) {
        return Failure(NotComplete);
      }
      var candidates := Candidates(x);
      if x.evidence.bound.Some? {
        var selected := SelectBound(candidates, x.evidence.bound.value);
        if selected.None? { return Failure(InvalidBinding); }
        candidates := selected.value;
      }
      if x.tree.Some? {
        var members := SelectMembers(candidates, if x.tree.value in trees then trees[x.tree.value] else []);
        if members.Failure? { return members; }
        candidates := members.value;
      } else if x.evidence.bound.None? && |candidates| != 1 {
        return Failure(NoMembership);
      }
      if !DistinctKeys(candidates) { return Failure(AmbiguousKeys); }
      return Success(Sort(candidates, KeyLe));
    }

    function Snap(): (s: Store)
      reads this
      ensures s == View()
    {
      Store(sources, contents, blobs, observations, absences, trees, snapshots)
    }
  }
}
