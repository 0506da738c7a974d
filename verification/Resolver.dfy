/** Resolving a recorded snapshot to its members (dataset_selectors.py). */
module Resolver {
  import opened Models
  import opened Ordering
  import opened Store
  import opened Rsync
  import opened Incomplete

  datatype ResolveError = NotComplete | InvalidBinding | Ambiguous(path: string) | NoMembership | AmbiguousKeys

  function FindRow(rows: seq<Observation>, id: ObservationId): Option<Observation> {
    if rows == [] then None else if rows[0].Id() == id then Some(rows[0]) else FindRow(rows[1..], id)
  }

  /** The bound rows in evidence order, or nothing when one of them is not a candidate. */
  function Bound(rows: seq<Observation>, candidates: seq<Observation>,
        ids: seq<ObservationId>): Option<seq<Observation>>
  {
    if ids == [] then Some([])
    else
      var front, row := Bound(rows, candidates, ids[..|ids| - 1]), FindRow(rows, ids[|ids| - 1]);
      if front.None? || row.None? || row.value !in candidates then None else Some(front.value + [row.value])
  }

  predicate Matches(o: Observation, t: TreeEntry) {
    o.path == Some(t.path) && Some(o.content) == t.content
  }

  function Matching(candidates: seq<Observation>, t: TreeEntry): seq<Observation> {
    if candidates == [] then []
    else
      var last := candidates[|candidates| - 1];
      Matching(candidates[..|candidates| - 1], t) + if Matches(last, t) then [last] else []
  }

  predicate Skipped(t: TreeEntry) { t.kind == Directory || t.kind == Symlink || t.kind == Absent }

  function TreeMembers(candidates: seq<Observation>, entries: seq<TreeEntry>): Result<seq<Observation>, ResolveError> {
    if entries == [] then Success([])
    else
      var front, t := TreeMembers(candidates, entries[..|entries| - 1]), entries[|entries| - 1];
      if front.Failure? || Skipped(t) then front
      else
        var matching := Matching(candidates, t);
        if |matching| != 1 then Failure(Ambiguous(t.path)) else Success(front.value + matching)
  }

  predicate KeyLe(a: Observation, b: Observation) { TextLe(a.artifactKey, b.artifactKey) }

  predicate DistinctKeys(rows: seq<Observation>) {
    forall i, j | 0 <= i < j < |rows| :: rows[i].artifactKey != rows[j].artifactKey
  }

  function EntriesOf(s: Store, tree: TreeId): seq<TreeEntry> {
    if tree in s.trees then s.trees[tree] else []
  }

  function SnapshotObservations(s: Store, x: Snapshot): Result<seq<Observation>, ResolveError> {
    if !x.complete || x.evidence.reconciled == Some(false)
      || x.evidence.acquired == Some(false) then Failure(NotComplete)
    else
      var candidates := RunRows(s.observations, x.source, x.run, x.at);
      var bound := if x.evidence.bound.None? then Some(candidates)
        else Bound(s.observations, candidates, x.evidence.bound.value);
      if bound.None? then Failure(InvalidBinding)
      else if x.tree.None? && x.evidence.bound.None? && |candidates| != 1 then Failure(NoMembership)
      else
        var members := if x.tree.None? then Success(bound.value)
          else TreeMembers(bound.value, EntriesOf(s, x.tree.value));
        if members.Failure? then members
        else if !DistinctKeys(members.value) then Failure(AmbiguousKeys)
        else Success(Sort(members.value, KeyLe))
  }

  lemma {:induction false} BoundStaysNone(rows: seq<Observation>, candidates: seq<Observation>,
        ids: seq<ObservationId>, k: nat)
    requires k <= |ids| && Bound(rows, candidates, ids[..k]).None?
    ensures Bound(rows, candidates, ids).None?
  {
    if k == |ids| {
      assert ids[..k] == ids;
    } else {
      assert ids[..|ids| - 1][..k] == ids[..k];
      BoundStaysNone(rows, candidates, ids[..|ids| - 1], k);
    }
  }

  lemma {:induction false} MembersStayFailed(candidates: seq<Observation>, entries: seq<TreeEntry>, k: nat)
    requires k <= |entries| && TreeMembers(candidates, entries[..k]).Failure?
    ensures TreeMembers(candidates, entries) == TreeMembers(candidates, entries[..k])
  {
    if k == |entries| {
      assert entries[..k] == entries;
    } else {
      assert entries[..|entries| - 1][..k] == entries[..k];
      MembersStayFailed(candidates, entries[..|entries| - 1], k);
    }
  }

  // ---- the answer is frozen -------------------------------------------------------------------

  lemma {:induction false} FindRowFrozen(rows: seq<Observation>, more: seq<Observation>, id: ObservationId)
    requires rows <= more && HasObservation(rows, id)
    ensures FindRow(more, id) == FindRow(rows, id)
    ensures FindRow(rows, id).Some? && FindRow(rows, id).value in rows && FindRow(rows, id).value.Id() == id
  {
    assert more[0] == rows[0];
    if rows[0].Id() != id {
      var i :| 0 <= i < |rows| && rows[i].Id() == id;
      assert rows[1..][i - 1].Id() == id;
      assert rows[1..] <= more[1..];
      FindRowFrozen(rows[1..], more[1..], id);
    }
  }

  lemma {:induction false} BoundFrozen(rows: seq<Observation>, more: seq<Observation>, source: SourceId, run: RunId,
        at: Time, ids: seq<ObservationId>)
    requires rows <= more && forall id | id in ids :: HasObservation(rows, id)
    ensures Bound(more, RunRows(more, source, run, at), ids) == Bound(rows, RunRows(rows, source, run, at), ids)
  {
    if ids != [] {
      BoundFrozen(rows, more, source, run, at, ids[..|ids| - 1]);
      FindRowFrozen(rows, more, ids[|ids| - 1]);
      RunRowsMember(rows, source, run, at);
      RunRowsMember(more, source, run, at);
    }
  }

  /** Later rows, back-dated or not, never change what a recorded snapshot resolves to. */
  lemma AnswerFrozen(s: Store, s': Store, x: Snapshot)
    requires SnapshotClosed(s, x) && Extends(s, s')
    ensures SnapshotObservations(s', x) == SnapshotObservations(s, x)
  {
    BoundFrozen(s.observations, s'.observations, x.source, x.run, x.at, x.evidence.bound.value);
  }

  // ---- the audit before a cleanup ------------------------------------------------------------------

  ghost predicate Referenced(s: Store, c: ContentId) {
    || (exists o :: o in s.observations && o.content == c)
    || (exists id :: id in s.trees && NamesContent(s.trees[id], c))
  }

  ghost predicate NamesContent(entries: seq<TreeEntry>, c: ContentId) {
    exists t :: t in entries && t.content == Some(c)
  }

  /** A complete snapshot of a registered source that does not resolve. */
  ghost predicate Unresolvable(s: Store, x: Snapshot) {
    x in s.snapshots && x.source in s.sources && x.complete && SnapshotObservations(s, x).Failure?
  }

  /** The parts of the audit that concern the tables modelled here; one failure refuses the cleanup. */
  ghost predicate AuditPasses(s: Store) {
    && (forall x :: !Unresolvable(s, x))
    && (forall id | id in s.trees :: Identities(s.trees[id]) == id)
    && (forall c | Referenced(s, c) :: c in s.contents && c in s.blobs)
  }

  /** In a consistent store only a snapshot that does not resolve can refuse a cleanup. */
  lemma AuditIsResolution(s: Store)
    requires Consistent(s)
    ensures AuditPasses(s) <==> forall x :: !Unresolvable(s, x)
  {
    forall c | Referenced(s, c) ensures c in s.contents && c in s.blobs {
      if id :| id in s.trees && NamesContent(s.trees[id], c) {
        assert EntriesHeld(s.trees[id], s.contents);
      }
    }
  }

  // ---- every kind of step a repository takes ----------------------------------------------------

  datatype Action =
    | Register(source: SourceId)
    | StoreContent(content: ContentId)
    | Ingest(row: Observation)
    | Reobserve(row: Observation)
    | Miss(absence: Absence)
    | SaveSourceSnapshot(source: SourceId, run: RunId, complete: bool, scope: seq<string>, at: Time, evidence: Evidence)
    | SaveTreeSnapshot(source: SourceId, run: RunId, entries: seq<TreeEntry>, complete: bool, scope: seq<string>,
      at: Time, evidence: Evidence)
    | ReconcileListing(request: Request)
    | RecordTransfer(partial: Partial)
    | Cleanup(rows: set<ContentId>, files: set<ContentId>)
    | Recover

  /**
   * Cleanup is refused when the audit fails; otherwise it removes content that nothing refers to, a row before
   * its file, so an interrupted one has deleted fewer files.
   */
  ghost function Perform(rank: Snapshot -> int, s: Store, action: Action): Store {
    match action
    case Register(source) => s.(sources := s.sources + {source})
    case StoreContent(c) => s.(blobs := s.blobs + {c}, contents := s.contents + {c})
    case Ingest(o) => IngestObservation(s, o).store
    case Reobserve(o) => if o.content in s.contents && o.content in s.blobs then RecordBundle(s, o).store else s
    case Miss(a) => RecordAbsence(s, a).store
    case SaveSourceSnapshot(source, run, complete, scope, at, evidence) =>
      RecordSourceSnapshot(s, source, run, complete, scope, at, evidence).store
    case SaveTreeSnapshot(source, run, entries, complete, scope, at, evidence) =>
      RecordTreeSnapshot(s, source, run, entries, complete, scope, at, evidence).store
    case ReconcileListing(req) => Reconcile(rank, s, req, true).store
    case RecordTransfer(p) => RecordIncomplete(s, p).store
    case Cleanup(rows, files) =>
      if !AuditPasses(s) then s
      else
        var gone := set c | c in rows && !Referenced(s, c);
        s.(contents := s.contents - gone, blobs := s.blobs - (files * gone))
    case Recover => s
  }

  ghost function PerformAll(rank: Snapshot -> int, s: Store, actions: seq<Action>): Store {
    if actions == [] then s
    else Perform(rank, PerformAll(rank, s, actions[..|actions| - 1]), actions[|actions| - 1])
  }

  lemma BundleKeeps(s: Store, o: Observation)
    requires Consistent(s) && o.content in s.blobs
    ensures Consistent(RecordBundle(s, o).store) && Extends(s, RecordBundle(s, o).store)
  {
    var s' := RecordBundle(s, o).store;
    if RecordBundle(s, o).Returned? {
      assert NewRows(s, [o]);
      NewRowsStayUnique(s, [o]);
      GrowthKeepsConsistent(s, s');
    }
  }

  lemma IngestKeeps(s: Store, o: Observation)
    requires Consistent(s)
    ensures Consistent(IngestObservation(s, o).store) && Extends(s, IngestObservation(s, o).store)
  {
    var t := s.(blobs := s.blobs + {o.content});
    GrowthKeepsConsistent(s, t);
    BundleKeeps(t, o);
    ExtendsTransitive(s, t, IngestObservation(s, o).store);
  }

  /** Steps that touch neither observations nor trees nor snapshots. */
  lemma PlainStepKeeps(rank: Snapshot -> int, s: Store, action: Action)
    requires Consistent(s)
    requires action.Register? || action.StoreContent? || action.Miss? || action.Cleanup? || action.Recover?
    ensures Consistent(Perform(rank, s, action)) && Extends(s, Perform(rank, s, action))
  {
    if action.Cleanup? { CleanupKeepsReferences(rank, s, action); }
    GrowthKeepsConsistent(s, Perform(rank, s, action));
  }

  lemma CleanupKeepsReferences(rank: Snapshot -> int, s: Store, action: Action)
    requires ReferencesHeld(s) && action.Cleanup?
    ensures ReferencesHeld(Perform(rank, s, action))
  {
    var s' := Perform(rank, s, action);
    forall id | id in s.trees ensures EntriesHeld(s.trees[id], s'.contents) {
      forall t | t in s.trees[id] && t.content.Some? ensures t.content.value in s'.contents {
        assert EntriesHeld(s.trees[id], s.contents);
        assert NamesContent(s.trees[id], t.content.value);
      }
    }
  }

  lemma RowStepKeeps(rank: Snapshot -> int, s: Store, action: Action)
    requires Consistent(s) && (action.Ingest? || action.Reobserve?)
    ensures Consistent(Perform(rank, s, action)) && Extends(s, Perform(rank, s, action))
  {
    if action.Ingest? {
      IngestKeeps(s, action.row);
    } else if action.row.content in s.contents && action.row.content in s.blobs {
      BundleKeeps(s, action.row);
    }
  }

  lemma SourceStepKeeps(rank: Snapshot -> int, s: Store, action: Action)
    requires Consistent(s) && action.SaveSourceSnapshot?
    ensures Consistent(Perform(rank, s, action)) && Extends(s, Perform(rank, s, action))
  {
    SourceSnapshotKeeps(s, action.source, action.run, action.complete, action.scope, action.at, action.evidence);
  }

  lemma TreeStepKeeps(rank: Snapshot -> int, s: Store, action: Action)
    requires Consistent(s) && action.SaveTreeSnapshot?
    ensures Consistent(Perform(rank, s, action)) && Extends(s, Perform(rank, s, action))
  {
    TreeSnapshotKeeps(s, action.source, action.run, action.entries, action.complete, action.scope, action.at,
      action.evidence);
  }

  lemma ListingStepKeeps(rank: Snapshot -> int, s: Store, action: Action)
    requires Consistent(s) && action.ReconcileListing?
    ensures Consistent(Perform(rank, s, action)) && Extends(s, Perform(rank, s, action))
  {
    ReconcileKeeps(rank, s, action.request, true);
  }

  lemma PerformKeeps(rank: Snapshot -> int, s: Store, action: Action)
    requires Consistent(s)
    ensures Consistent(Perform(rank, s, action)) && Extends(s, Perform(rank, s, action))
  {
    if action.Ingest? || action.Reobserve? {
      RowStepKeeps(rank, s, action);
    } else if action.SaveSourceSnapshot? {
      SourceStepKeeps(rank, s, action);
    } else if action.SaveTreeSnapshot? {
      TreeStepKeeps(rank, s, action);
    } else if action.ReconcileListing? {
      ListingStepKeeps(rank, s, action);
    } else if action.RecordTransfer? {
      IncompleteKeeps(s, action.partial);
    } else {
      PlainStepKeeps(rank, s, action);
    }
  }

  lemma {:induction false} PerformAllKeeps(rank: Snapshot -> int, s: Store, actions: seq<Action>)
    requires Consistent(s)
    ensures Consistent(PerformAll(rank, s, actions)) && Extends(s, PerformAll(rank, s, actions))
  {
    if actions != [] {
      var init := actions[..|actions| - 1];
      PerformAllKeeps(rank, s, init);
      PerformKeeps(rank, PerformAll(rank, s, init), actions[|actions| - 1]);
      ExtendsTransitive(s, PerformAll(rank, s, init), PerformAll(rank, s, actions));
    }
  }

  lemma {:induction false} PerformAllSplits(rank: Snapshot -> int, s: Store, first: seq<Action>, rest: seq<Action>)
    ensures PerformAll(rank, s, first + rest) == PerformAll(rank, PerformAll(rank, s, first), rest)
  {
    if rest == [] {
      assert first + rest == first;
    } else {
      var init := rest[..|rest| - 1];
      PerformAllSplits(rank, s, first, init);
      assert (first + rest)[..|first + rest| - 1] == first + init;
    }
  }

  /** A snapshot recorded at any point resolves to the same members, or the same failure, ever after. */
  lemma {:induction false} RecordedAnswerFrozen(rank: Snapshot -> int, past: seq<Action>, future: seq<Action>,
        x: Snapshot)
    requires x in PerformAll(rank, EMPTY, past).snapshots
    ensures SnapshotObservations(PerformAll(rank, EMPTY, past + future), x)
         == SnapshotObservations(PerformAll(rank, EMPTY, past), x)
  {
    var s := PerformAll(rank, EMPTY, past);
    PerformAllKeeps(rank, EMPTY, past);
    PerformAllKeeps(rank, s, future);
    PerformAllSplits(rank, EMPTY, past, future);
    assert SnapshotClosed(s, x);
    AnswerFrozen(s, PerformAll(rank, s, future), x);
  }
}
