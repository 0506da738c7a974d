/** The repository's tables and its recorder transactions, as values. */
module Store {
  import opened Models
  import opened Ordering

  // ---- rows (repository_models.py) ----------------------------------------------------------

  /** A stable id is taken to be injective: it is the payload it digests. */
  datatype ObservationId =
    | ContentObservation(artifactKey: string, content: ContentId, run: RunId, operation: OperationId,
                         at: Time, path: Option<string>, locator: Option<string>)
    | AbsenceObservation(artifactKey: string, run: RunId, operation: OperationId,
                         at: Time, path: Option<string>, locator: Option<string>)

  datatype Observation = Observation(
    artifactKey: string, content: ContentId, source: Option<SourceId>, run: RunId, operation: OperationId,
    at: Time, path: Option<string>, locator: Option<string>, reused: bool)
  {
    function Id(): ObservationId { ContentObservation(artifactKey, content, run, operation, at, path, locator) }
  }

  datatype Absence = Absence(
    artifactKey: string, source: SourceId, run: RunId, operation: OperationId,
    at: Time, path: Option<string>, locator: Option<string>)
  {
    function Id(): ObservationId { AbsenceObservation(artifactKey, run, operation, at, path, locator) }
  }

  datatype TreeEntry = TreeEntry(
    path: string, kind: Kind, content: Option<ContentId>, size: Option<int>,
    target: Option<string>, modified: Option<string>, item: Option<string>)
  {
    /** The identity payload leaves the metadata out: the listed modification time, the collection's item id. */
    function Identity(): EntryIdentity { EntryIdentity(path, kind, content, size, target) }
  }

  datatype EntryIdentity = EntryIdentity(
    path: string, kind: Kind, content: Option<ContentId>, size: Option<int>, target: Option<string>)

  type TreeId = seq<EntryIdentity>

  datatype Evidence = Evidence(
    reconciled: Option<bool>, acquired: Option<bool>, bound: Option<seq<ObservationId>>,
    ingested: nat, reused: nat, absences: nat)

  datatype Snapshot = Snapshot(
    source: SourceId, run: RunId, at: Time, complete: bool,
    tree: Option<TreeId>, scope: seq<string>, evidence: Evidence)

  datatype Store = Store(
    sources: set<SourceId>,
    contents: set<ContentId>,
    blobs: set<ContentId>,
    observations: seq<Observation>,
    absences: seq<Absence>,
    trees: map<TreeId, seq<TreeEntry>>,
    snapshots: seq<Snapshot>)

  const EMPTY := Store({}, {}, {}, [], [], map[], [])

  // ---- transactions (repository.py over sqlite_metadata.py) -----------------------------------

  datatype StoreError = UnknownSource | UnknownContent | DuplicateRow | BlobUnavailable | ConflictingTree

  /** A call either returns or raises; what it wrote before raising stays. */
  datatype Call<+T> = Returned(store: Store, value: T) | Raised(store: Store, error: StoreError)

  predicate HasObservation(rows: seq<Observation>, id: ObservationId) {
    exists i :: 0 <= i < |rows| && rows[i].Id() == id
  }

  predicate HasAbsence(rows: seq<Absence>, id: ObservationId) {
    exists i :: 0 <= i < |rows| && rows[i].Id() == id
  }

  /** The content row and the observation row, in one transaction. */
  function RecordBundle(s: Store, o: Observation): Call<Observation> {
    if o.source.Some? && o.source.value !in s.sources then Raised(s, UnknownSource)
    else if HasObservation(s.observations, o.Id()) then Raised(s, DuplicateRow)
    else Returned(s.(contents := s.contents + {o.content}, observations := s.observations + [o]), o)
  }

  /** The blob is installed before its row is written. */
  function IngestObservation(s: Store, o: Observation): Call<Observation> {
    RecordBundle(s.(blobs := s.blobs + {o.content}), o)
  }

  function RecordAbsence(s: Store, a: Absence): Call<Absence> {
    if a.source !in s.sources then Raised(s, UnknownSource)
    else if HasAbsence(s.absences, a.Id()) then Raised(s, DuplicateRow)
    else Returned(s.(absences := s.absences + [a]), a)
  }

  predicate EntryLe(a: TreeEntry, b: TreeEntry) { TextLe(a.path, b.path) }

  predicate DistinctPaths(entries: seq<TreeEntry>) {
    forall i, j | 0 <= i < j < |entries| :: entries[i].path != entries[j].path
  }

  function Identities(entries: seq<TreeEntry>): TreeId {
    seq(|entries|, i requires 0 <= i < |entries| => entries[i].Identity())
  }

  /** The foreign key of tree entries. */
  predicate EntriesHeld(entries: seq<TreeEntry>, contents: set<ContentId>) {
    forall t | t in entries && t.content.Some? :: t.content.value in contents
  }

  /** A tree id that is already recorded keeps the entries it was first recorded with. */
  function RecordTree(s: Store, ordered: seq<TreeEntry>): Call<TreeId> {
    var id := Identities(ordered);
    if id in s.trees && s.trees[id] != [] then
      if |s.trees[id]| != |ordered| then Raised(s, ConflictingTree) else Returned(s, id)
    else if !DistinctPaths(ordered) then Raised(s, DuplicateRow)
    else if !EntriesHeld(ordered, s.contents) then Raised(s, UnknownContent)
    else Returned(s.(trees := s.trees[id := ordered]), id)
  }

  predicate Belongs(o: Observation, source: SourceId, run: RunId, at: Time) {
    o.source == Some(source) && o.run == run && o.at <= at
  }

  /** The observations of one source in one run up to a time. */
  function RunRows(rows: seq<Observation>, source: SourceId, run: RunId, at: Time): seq<Observation> {
    if rows == [] then []
    else
      var last := rows[|rows| - 1];
      RunRows(rows[..|rows| - 1], source, run, at) + if Belongs(last, source, run, at) then [last] else []
  }

  function Ids(rows: seq<Observation>): seq<ObservationId> {
    seq(|rows|, i requires 0 <= i < |rows| => rows[i].Id())
  }

  function BoundEvidence(s: Store, source: SourceId, run: RunId, at: Time, evidence: Evidence): Evidence {
    evidence.(bound := Some(Ids(RunRows(s.observations, source, run, at))))
  }

  function RecordSnapshot(s: Store, snapshot: Snapshot): Call<Snapshot> {
    if snapshot in s.snapshots then Raised(s, DuplicateRow)
    else Returned(s.(snapshots := s.snapshots + [snapshot]), snapshot)
  }

  function RecordSourceSnapshot(s: Store, source: SourceId, run: RunId, complete: bool, scope: seq<string>,
                                at: Time, evidence: Evidence): Call<Snapshot>
  {
    if source !in s.sources then Raised(s, UnknownSource)
    else RecordSnapshot(s,
      Snapshot(source, run, at, complete, None, SortText(scope), BoundEvidence(s, source, run, at, evidence)))
  }

  function RecordTreeSnapshot(s: Store, source: SourceId, run: RunId, entries: seq<TreeEntry>, complete: bool,
                              scope: seq<string>, at: Time, evidence: Evidence): Call<Snapshot>
  {
    var tree := RecordTree(s, Sort(entries, EntryLe));
    if tree.Raised? then Raised(tree.store, tree.error)
    else if source !in s.sources then Raised(tree.store, UnknownSource)
    else
      RecordSnapshot(tree.store, Snapshot(source, run, at, complete, Some(tree.value), SortText(scope),
                                          BoundEvidence(s, source, run, at, evidence)))
  }

  // ---- queries ------------------------------------------------------------------------------

  function OfSource(snapshots: seq<Snapshot>, source: SourceId): seq<Snapshot> {
    if snapshots == [] then []
    else
      var last := snapshots[|snapshots| - 1];
      OfSource(snapshots[..|snapshots| - 1], source) + if last.source == source then [last] else []
  }

  /** Newest first; ties are broken by the digest of the snapshot id, an arbitrary number. */
  function NewerFirst(rank: Snapshot -> int): (Snapshot, Snapshot) -> bool {
    (a: Snapshot, b: Snapshot) => b.at < a.at || (a.at == b.at && rank(b) <= rank(a))
  }

  function SnapshotsFor(rank: Snapshot -> int, s: Store, source: SourceId): seq<Snapshot> {
    Sort(OfSource(s.snapshots, source), NewerFirst(rank))
  }

  datatype Latest = Nothing | Seen(observation: Observation) | Missing(absence: Absence)

  function LatestObservation(rank: ObservationId -> int, rows: seq<Observation>, key: string): Option<Observation> {
    if rows == [] then None
    else
      var prior, last := LatestObservation(rank, rows[..|rows| - 1], key), rows[|rows| - 1];
      if last.artifactKey == key
        && (prior.None? || NotOlder(rank, last.at, last.Id(), prior.value.at, prior.value.Id()))
      then Some(last) else prior
  }

  function LatestAbsence(rank: ObservationId -> int, rows: seq<Absence>, key: string): Option<Absence> {
    if rows == [] then None
    else
      var prior, last := LatestAbsence(rank, rows[..|rows| - 1], key), rows[|rows| - 1];
      if last.artifactKey == key
        && (prior.None? || NotOlder(rank, last.at, last.Id(), prior.value.at, prior.value.Id()))
      then Some(last) else prior
  }

  predicate NotOlder(rank: ObservationId -> int, at: Time, id: ObservationId, at': Time, id': ObservationId) {
    at > at' || (at == at' && rank(id) >= rank(id'))
  }

  function LatestState(rank: ObservationId -> int, s: Store, key: string): Latest {
    var o, a := LatestObservation(rank, s.observations, key), LatestAbsence(rank, s.absences, key);
    if o.None? then (if a.None? then Nothing else Missing(a.value))
    else if a.None? then Seen(o.value)
    else if NotOlder(rank, o.value.at, o.value.Id(), a.value.at, a.value.Id()) then Seen(o.value)
    else Missing(a.value)
  }

  // ---- what every recorder keeps --------------------------------------------------------------

  /** History only grows: rows are appended and a recorded tree never changes. */
  ghost predicate Extends(s: Store, s': Store) {
    && s.sources <= s'.sources
    && s.observations <= s'.observations
    && s.absences <= s'.absences
    && s.snapshots <= s'.snapshots
    && (forall id | id in s.trees :: id in s'.trees && s'.trees[id] == s.trees[id])
  }

  /** Primary keys of the tree tables, and the link between a tree id and its entries. */
  ghost predicate TreesWellFormed(s: Store) {
    forall id | id in s.trees ::
      && Identities(s.trees[id]) == id
      && DistinctPaths(s.trees[id])
      && Sorted(s.trees[id], EntryLe)
  }

  /** Every recorded snapshot binds observations that exist and names a tree that exists. */
  ghost predicate SnapshotsClosed(s: Store) {
    forall x | x in s.snapshots :: SnapshotClosed(s, x)
  }

  ghost predicate SnapshotClosed(s: Store, x: Snapshot) {
    && (x.tree.Some? ==> x.tree.value in s.trees)
    && x.evidence.bound.Some?
    && forall id | id in x.evidence.bound.value :: HasObservation(s.observations, id)
  }

  /** The primary key of the observation table. */
  ghost predicate UniqueIds(rows: seq<Observation>) {
    forall i, j | 0 <= i < j < |rows| :: rows[i].Id() != rows[j].Id()
  }

  /** The foreign keys on content: whatever an observation or a stored tree entry names has its row. */
  ghost predicate ReferencesHeld(s: Store) {
    && (forall o | o in s.observations :: o.content in s.contents)
    && (forall id | id in s.trees :: EntriesHeld(s.trees[id], s.contents))
  }

  lemma {:induction false} RecordTreeKeeps(s: Store, entries: seq<TreeEntry>)
    requires TreesWellFormed(s)
    ensures
      var r := RecordTree(s, Sort(entries, EntryLe));
      && Extends(s, r.store) && TreesWellFormed(r.store)
      && (r.Returned? ==> r.value == Identities(Sort(entries, EntryLe)) && r.value in r.store.trees)
      && (r.Raised? <==>
            && Sort(entries, EntryLe) != [] && Identities(Sort(entries, EntryLe)) !in s.trees
            && !(DistinctPaths(entries) && EntriesHeld(entries, s.contents)))
      && (ReferencesHeld(s) ==> ReferencesHeld(r.store))
      && r.store.(trees := s.trees) == s
      && (forall id | id in r.store.trees && id !in s.trees ::
        id == Identities(Sort(entries, EntryLe)) && r.store.trees[id] == Sort(entries, EntryLe))
  {
    var ordered := Sort(entries, EntryLe);
    TextOrder();
    SortProperties(entries, EntryLe);
    SortKeepsDistinct(entries);
    var id := Identities(ordered);
    if id in s.trees {
      assert |s.trees[id]| == |Identities(s.trees[id])| == |ordered|;
    }
  }

  lemma {:induction false} SortKeepsDistinct(entries: seq<TreeEntry>)
    ensures DistinctPaths(Sort(entries, EntryLe)) <==> DistinctPaths(entries)
  {
    SortProperties(entries, EntryLe);
    if DistinctPaths(entries) {
      PermutedPathsStayDistinct(entries, Sort(entries, EntryLe));
    } else if DistinctPaths(Sort(entries, EntryLe)) {
      PermutedPathsStayDistinct(Sort(entries, EntryLe), entries);
    }
  }

  lemma PermutedPathsStayDistinct(a: seq<TreeEntry>, b: seq<TreeEntry>)
    requires multiset(a) == multiset(b) && DistinctPaths(a)
    ensures DistinctPaths(b)
  {
    var path := (e: TreeEntry) => e.path;
    assert DistinctBy(a, path);
    PermutationKeepsDistinct(a, b, path);
    forall i, j | 0 <= i < j < |b| ensures b[i].path != b[j].path {
      assert path(b[i]) != path(b[j]);
    }
  }
}
