/** Recording one rsync listing against the last recorded tree (rsync_reconciliation.py). */
module Rsync {
  import opened Models
  import opened Ordering
  import opened Reconciliation
  import opened Store

  type ListedKind = k: Kind | k == File || k == Directory || k == Symlink witness File

  datatype Entry = Entry(
    path: string, kind: ListedKind, size: Option<int>, modified: Option<string>, target: Option<string>)
  {
    function Token(): Option<ChangeToken> { RsyncToken(kind, size, modified, target) }
  }

  datatype Inventory = Inventory(entries: seq<Entry>, scope: seq<string>, complete: bool)

  /** One call; `files` is the mirror: the safe relative paths that are regular files, with their bytes. */
  datatype Request = Request(
    source: SourceId, run: RunId, operation: OperationId, at: Time,
    files: map<string, Bytes>, inventory: Inventory, root: string)

  // ---- evidence -----------------------------------------------------------------------------

  function RsyncToken(kind: Kind, size: Option<int>, modified: Option<string>,
        target: Option<string>): Option<ChangeToken>
  {
    if modified.None? then None
    else if kind == File then
      if size.None? then None else Some(ChangeToken("rsync-list-state", FileState(size.value, modified.value), true))
    else if kind == Symlink then
      Some(ChangeToken("rsync-list-state", LinkState(if target.Some? then target.value else "", modified.value), true))
    else
      Some(ChangeToken("rsync-list-state", KindState(kind, modified.value), true))
  }

  predicate PathInScope(path: string, scope: seq<string>) {
    scope == [] || exists item :: item in scope && Covers(StripRight(item), Strip(path))
  }

  function PathKey(source: SourceId, path: string): string {
    "source:" + source + ":path:" + path
  }

  function Locator(root: string, path: string): string {
    StripRight(root) + "/" + path
  }

  function ItemOf(source: SourceId, e: Entry): InventoryItem {
    InventoryItem(e.path, PathKey(source, e.path), Some(e.path), e.Token())
  }

  function ToSourceInventory(source: SourceId, inventory: Inventory): SourceInventory {
    SourceInventory(
      Coverage(inventory.scope, inventory.complete),
      seq(|inventory.entries|, i requires 0 <= i < |inventory.entries| => ItemOf(source, inventory.entries[i])))
  }

  predicate DistinctEntries(entries: seq<Entry>) {
    forall i, j | 0 <= i < j < |entries| :: entries[i].path != entries[j].path
  }

  /** Validation: no duplicate path, nothing outside the scope, every listed file in the mirror. */
  predicate Acceptable(inventory: Inventory, files: map<string, Bytes>) {
    && DistinctEntries(inventory.entries)
    && (forall e | e in inventory.entries :: PathInScope(e.path, inventory.scope))
    && (forall e | e in inventory.entries && e.kind == File :: e.path in files)
  }

  // ---- the baseline -------------------------------------------------------------------------

  const BASELINE_LIMIT := 200

  predicate Qualifies(snapshot: Snapshot, scope: seq<string>) {
    && snapshot.tree.Some? && snapshot.evidence.reconciled == Some(true)
    && (snapshot.complete || snapshot.scope == scope)
  }

  function FirstQualifying(snapshots: seq<Snapshot>, scope: seq<string>): Option<Snapshot> {
    if snapshots == [] then None
    else if Qualifies(snapshots[0], scope) then Some(snapshots[0])
    else FirstQualifying(snapshots[1..], scope)
  }

  function Newest(snapshots: seq<Snapshot>): seq<Snapshot> {
    if |snapshots| <= BASELINE_LIMIT then snapshots else snapshots[..BASELINE_LIMIT]
  }

  function Baseline(rank: Snapshot -> int, s: Store, source: SourceId, scope: seq<string>): Option<Snapshot> {
    FirstQualifying(Newest(SnapshotsFor(rank, s, source)), scope)
  }

  function PreviousOf(source: SourceId, e: TreeEntry): PreviousItem {
    PreviousItem(e.path, PathKey(source, e.path), e.content, Some(e.path),
                 RsyncToken(e.kind, e.size, e.modified, e.target), e.kind)
  }

  function PreviousFrom(source: SourceId, entries: seq<TreeEntry>, scope: seq<string>): seq<PreviousItem> {
    if entries == [] then []
    else
      var last := entries[|entries| - 1];
      PreviousFrom(source, entries[..|entries| - 1], scope)
      + if PathInScope(last.path, scope) then [PreviousOf(source, last)] else []
  }

  function BaselineEntries(rank: Snapshot -> int, s: Store, source: SourceId, scope: seq<string>): seq<TreeEntry> {
    var b := Baseline(rank, s, source, scope);
    if b.None? || b.value.tree.None? || b.value.tree.value !in s.trees then [] else s.trees[b.value.tree.value]
  }

  function PreviousItems(rank: Snapshot -> int, s: Store, source: SourceId, scope: seq<string>): seq<PreviousItem> {
    PreviousFrom(source, BaselineEntries(rank, s, source, scope), scope)
  }

  // ---- recording entries --------------------------------------------------------------------

  function FileRow(req: Request, path: string, content: ContentId, reused: bool): Observation {
    Observation(PathKey(req.source, path), content, Some(req.source), req.run, req.operation, req.at,
                Some(path), Some(Locator(req.root, path)), reused)
  }

  predicate IsUnchanged(e: Entry, previous: Option<PreviousItem>) {
    previous.Some? && e.Token().Some? && e.Token().value.EquivalentTo(previous.value.token)
  }

  /** Content that a matching token allows to be observed again without reading the file. */
  function Reusable(s: Store, e: Entry, previous: Option<PreviousItem>): Option<ContentId> {
    if IsUnchanged(e, previous) && previous.value.content.Some? && previous.value.content.value in s.contents
    then previous.value.content else None
  }

  /** What a listing records for a file: the content its matching baseline entry names, or else the mirror's bytes. */
  function ContentFor(req: Request, e: Entry, previous: Option<PreviousItem>): ContentId
    requires e.path in req.files
  {
    if IsUnchanged(e, previous) && previous.value.content.Some? then previous.value.content.value
    else Sha256(req.files[e.path])
  }

  function RecordFile(s: Store, req: Request, e: Entry, previous: Option<PreviousItem>, reuse: bool): Call<Observation>
    requires e.path in req.files
  {
    var known := Reusable(s, e, previous);
    var ingested := IngestObservation(s, FileRow(req, e.path, Sha256(req.files[e.path]), false));
    if !reuse || known.None? then ingested
    else if known.value !in s.blobs then Raised(s, BlobUnavailable)
    else if req.source !in s.sources then ingested
    else RecordBundle(s, FileRow(req, e.path, known.value, true))
  }

  function EntryRow(e: Entry, content: Option<ContentId>): TreeEntry {
    if e.kind == Directory then TreeEntry(e.path, Directory, None, None, None, e.modified, None)
    else if e.kind == Symlink then TreeEntry(e.path, Symlink, None, None, e.target, e.modified, None)
    else TreeEntry(e.path, File, content, e.size, None, e.modified, None)
  }

  datatype Progress = Progress(
    store: Store, rows: seq<Observation>, tree: seq<TreeEntry>, ingested: nat, reused: nat, error: Option<StoreError>)

  function Lookup(previous: map<string, PreviousItem>, path: string): Option<PreviousItem> {
    if path in previous then Some(previous[path]) else None
  }

  function RecordEntry(p: Progress, req: Request, e: Entry, previous: map<string, PreviousItem>, reuse: bool): Progress
    requires e.kind == File ==> e.path in req.files
  {
    if p.error.Some? then p
    else if e.kind != File then p.(tree := p.tree + [EntryRow(e, None)])
    else
      var call := RecordFile(p.store, req, e, Lookup(previous, e.path), reuse);
      if call.Raised? then p.(store := call.store, error := Some(call.error))
      else
        var o := call.value;
        Progress(call.store, p.rows + [o], p.tree + [EntryRow(e, Some(o.content))],
                 p.ingested + if o.reused then 0 else 1, p.reused + if o.reused then 1 else 0, None)
  }

  ghost predicate Mirrored(req: Request, es: seq<Entry>) {
    forall e | e in es :: e.kind == File ==> e.path in req.files
  }

  ghost function RecordEntries(s: Store, req: Request, es: seq<Entry>, previous: map<string, PreviousItem>,
        reuse: bool): Progress
    requires Mirrored(req, es)
  {
    if es == [] then Progress(s, [], [], 0, 0, None)
    else RecordEntry(RecordEntries(s, req, es[..|es| - 1], previous, reuse), req, es[|es| - 1], previous, reuse)
  }

  // ---- recording absences -------------------------------------------------------------------

  predicate IsGone(inventory: Inventory, p: PreviousItem) {
    && p.kind == File
    && (forall e | e in inventory.entries :: e.path != p.itemId)
    && inventory.complete
    && Coverage(inventory.scope, inventory.complete).Contains(p.sourcePath)
  }

  function GoneFiles(inventory: Inventory, previous: seq<PreviousItem>): seq<PreviousItem> {
    if previous == [] then []
    else
      var last := previous[|previous| - 1];
      GoneFiles(inventory, previous[..|previous| - 1]) + if IsGone(inventory, last) then [last] else []
  }

  lemma {:induction false} GoneMember(inventory: Inventory, previous: seq<PreviousItem>)
    ensures forall p :: p in GoneFiles(inventory, previous) <==> p in previous && IsGone(inventory, p)
  {
    if previous != [] {
      GoneMember(inventory, previous[..|previous| - 1]);
      assert previous == previous[..|previous| - 1] + [previous[|previous| - 1]];
    }
  }

  function AbsenceRow(req: Request, p: PreviousItem): Absence {
    Absence(p.artifactKey, req.source, req.run, req.operation, req.at, p.sourcePath,
            if p.sourcePath.Some? then Some(Locator(req.root, p.sourcePath.value)) else None)
  }

  datatype AbsenceProgress = AbsenceProgress(store: Store, rows: seq<Absence>, error: Option<StoreError>)

  function RecordGone(p: AbsenceProgress, req: Request, item: PreviousItem): AbsenceProgress {
    if p.error.Some? then p
    else
      var call := RecordAbsence(p.store, AbsenceRow(req, item));
      if call.Raised? then p.(store := call.store, error := Some(call.error))
      else AbsenceProgress(call.store, p.rows + [call.value], None)
  }

  function RecordAbsences(s: Store, req: Request, gone: seq<PreviousItem>): AbsenceProgress {
    if gone == [] then AbsenceProgress(s, [], None)
    else RecordGone(RecordAbsences(s, req, gone[..|gone| - 1]), req, gone[|gone| - 1])
  }

  // ---- one reconciliation -------------------------------------------------------------------

  predicate EntryOrder(a: Entry, b: Entry) { TextLe(a.path, b.path) }

  function NoEvidence(): Evidence { Evidence(None, None, None, 0, 0, 0) }

  datatype Outcome = Outcome(
    store: Store, rows: seq<Observation>, absences: seq<Absence>, snapshot: Option<Snapshot>, error: Option<StoreError>)

  function Rejected(s: Store, req: Request): Outcome {
    var call := RecordSourceSnapshot(s, req.source, req.run, false, req.inventory.scope, req.at,
                                     NoEvidence().(reconciled := Some(false)));
    if call.Raised? then Outcome(call.store, [], [], None, Some(call.error))
    else Outcome(call.store, [], [], Some(call.value), None)
  }

  function Concluded(p: Progress, a: AbsenceProgress, req: Request): Outcome {
    var evidence := Evidence(Some(true), None, None, p.ingested, p.reused, |a.rows|);
    var call := RecordTreeSnapshot(a.store, req.source, req.run, p.tree, req.inventory.scope == [],
                                   req.inventory.scope, req.at, evidence);
    if call.Raised? then Outcome(call.store, p.rows, a.rows, None, Some(call.error))
    else Outcome(call.store, p.rows, a.rows, Some(call.value), None)
  }

  predicate Recordable(req: Request) {
    req.inventory.complete && Acceptable(req.inventory, req.files)
  }

  function SortedEntries(req: Request): seq<Entry> { Sort(req.inventory.entries, EntryOrder) }

  lemma SortedEntriesMirrored(req: Request)
    requires Recordable(req)
    ensures Mirrored(req, SortedEntries(req))
    ensures forall e :: e in SortedEntries(req) <==> e in req.inventory.entries
  {
    SortProperties(req.inventory.entries, EntryOrder);
  }

  /** The absences and the snapshot that follow the entries. */
  ghost function Recorded(p: Progress, req: Request, gone: seq<PreviousItem>): Outcome {
    if p.error.Some? then Outcome(p.store, p.rows, [], None, p.error)
    else
      var a := RecordAbsences(p.store, req, gone);
      if a.error.Some? then Outcome(a.store, p.rows, a.rows, None, a.error)
      else Concluded(p, a, req)
  }

  /** With `reuse` this is what the code does; without, the reference that reads every file. */
  ghost function Reconcile(rank: Snapshot -> int, s: Store, req: Request, reuse: bool): Outcome {
    if !Recordable(req) then Rejected(s, req)
    else
      SortedEntriesMirrored(req);
      var previous := PreviousItems(rank, s, req.source, req.inventory.scope);
      Recorded(RecordEntries(s, req, SortedEntries(req), PreviousMap(previous), reuse), req,
        GoneFiles(req.inventory, previous))
  }

  /** A history of calls; one that raises leaves what it had recorded. */
  ghost function Run(rank: Snapshot -> int, s: Store, calls: seq<Request>): Store {
    if calls == [] then s
    else Reconcile(rank, Run(rank, s, calls[..|calls| - 1]), calls[|calls| - 1], true).store
  }

  // ---- what one call writes -----------------------------------------------------------------

  ghost predicate RowFor(req: Request, o: Observation, path: string) {
    o == FileRow(req, path, o.content, o.reused)
  }

  ghost predicate EntryRecorded(e: Entry, t: TreeEntry, rows: seq<Observation>) {
    if e.kind == File
    then exists o :: o in rows && o.path == Some(e.path) && t == EntryRow(e, Some(o.content))
    else t == EntryRow(e, None)
  }

  ghost predicate TreeMatches(es: seq<Entry>, tree: seq<TreeEntry>, rows: seq<Observation>) {
    |tree| == |es| && forall i | 0 <= i < |es| :: EntryRecorded(es[i], tree[i], rows)
  }

  ghost predicate RowsListed(req: Request, es: seq<Entry>, rows: seq<Observation>) {
    forall o | o in rows :: IsListed(req, es, o)
  }

  ghost predicate IsListed(req: Request, es: seq<Entry>, o: Observation) {
    exists e :: e in es && e.kind == File && RowFor(req, o, e.path)
  }

  ghost predicate NewRows(s: Store, rows: seq<Observation>) {
    && (forall o | o in rows :: !HasObservation(s.observations, o.Id()))
    && (forall i, j | 0 <= i < j < |rows| :: rows[i].Id() != rows[j].Id())
  }

  ghost predicate Grew(s: Store, p: Progress) {
    && p.store == s.(observations := s.observations + p.rows, contents := p.store.contents, blobs := p.store.blobs)
    && s.contents <= p.store.contents && s.blobs <= p.store.blobs
    && NewRows(s, p.rows)
    && (forall o | o in p.rows :: o.content in p.store.contents)
  }

  /** Recording entries appends one new row per file and one tree entry per listed entry, in order. */
  lemma {:induction false} EntriesFrame(s: Store, req: Request, es: seq<Entry>, previous: map<string, PreviousItem>,
        reuse: bool)
    requires Mirrored(req, es)
    ensures
      var p := RecordEntries(s, req, es, previous, reuse);
      && Grew(s, p) && RowsListed(req, es, p.rows)
      && (p.error.None? ==> TreeMatches(es, p.tree, p.rows))
  {
    if es == [] {
      assert s.observations + [] == s.observations;
    } else {
      var init, e := es[..|es| - 1], es[|es| - 1];
      EntriesFrame(s, req, init, previous, reuse);
      var q := RecordEntries(s, req, init, previous, reuse);
      assert es == init + [e];
      EntryStoreFrame(s, q, req, e, previous, reuse);
      EntrySteps(q, req, e, previous, reuse);
      EntryTreeFrame(q, RecordEntry(q, req, e, previous, reuse), req, init, e);
    }
  }

  lemma EntryStoreFrame(s: Store, q: Progress, req: Request, e: Entry, previous: map<string, PreviousItem>, reuse: bool)
    requires e.kind == File ==> e.path in req.files
    requires Grew(s, q)
    ensures Grew(s, RecordEntry(q, req, e, previous, reuse))
  {
    var p := RecordEntry(q, req, e, previous, reuse);
    if q.error.None? && e.kind == File && p.error.None? {
      var o := p.rows[|q.rows|];
      assert p.rows == q.rows + [o];
      RowsSplit(s.observations, q.rows, o.Id());
      assert p.store.observations == s.observations + p.rows;
      forall r | r in p.rows ensures !HasObservation(s.observations, r.Id()) {
        assert r in q.rows || r == o;
      }
    }
  }

  ghost predicate StepsTo(q: Progress, p: Progress, req: Request, e: Entry) {
    if p.error.Some? then p.rows == q.rows
    else
      && q.error.None?
      && if e.kind == File then
          |p.rows| == |q.rows| + 1
          && var o := p.rows[|q.rows|];
            p.rows == q.rows + [o] && RowFor(req, o, e.path) && p.tree == q.tree + [EntryRow(e, Some(o.content))]
        else p.rows == q.rows && p.tree == q.tree + [EntryRow(e, None)]
  }

  lemma EntrySteps(q: Progress, req: Request, e: Entry, previous: map<string, PreviousItem>, reuse: bool)
    requires e.kind == File ==> e.path in req.files
    ensures StepsTo(q, RecordEntry(q, req, e, previous, reuse), req, e)
  {
  }

  lemma EntryTreeFrame(q: Progress, p: Progress, req: Request, init: seq<Entry>, e: Entry)
    requires StepsTo(q, p, req, e)
    requires RowsListed(req, init, q.rows)
    requires q.error.None? ==> TreeMatches(init, q.tree, q.rows)
    ensures RowsListed(req, init + [e], p.rows) && (p.error.None? ==> TreeMatches(init + [e], p.tree, p.rows))
  {
    RowsStayListed(req, init, e, q.rows);
    if p.error.None? {
      if e.kind == File {
        var o := p.rows[|q.rows|];
        RowIsListed(req, init, e, q.rows, o);
        assert o in p.rows;
      }
      var t := p.tree[|q.tree|];
      assert EntryRecorded(e, t, p.rows);
      TreeStaysMatched(init, e, q.tree, t, q.rows, p.rows);
    }
  }

  lemma RowsStayListed(req: Request, init: seq<Entry>, e: Entry, rows: seq<Observation>)
    requires RowsListed(req, init, rows)
    ensures RowsListed(req, init + [e], rows)
  {
    forall o | o in rows ensures IsListed(req, init + [e], o) {
      assert IsListed(req, init, o);
      var x :| x in init && x.kind == File && RowFor(req, o, x.path);
      assert x in init + [e];
    }
  }

  lemma RowIsListed(req: Request, init: seq<Entry>, e: Entry, rows: seq<Observation>, o: Observation)
    requires RowsListed(req, init + [e], rows) && e.kind == File && RowFor(req, o, e.path)
    ensures RowsListed(req, init + [e], rows + [o])
  {
    assert e in init + [e];
    assert IsListed(req, init + [e], o);
  }

  lemma TreeStaysMatched(es: seq<Entry>, e: Entry, tree: seq<TreeEntry>, t: TreeEntry, rows: seq<Observation>,
        more: seq<Observation>)
    requires TreeMatches(es, tree, rows) && EntryRecorded(e, t, more) && rows <= more
    ensures TreeMatches(es + [e], tree + [t], more)
  {
    assert forall o | o in rows :: o in more;
    forall i | 0 <= i < |es| ensures EntryRecorded(es[i], tree[i], more) {
      assert EntryRecorded(es[i], tree[i], rows);
    }
  }

  lemma RowsSplit(a: seq<Observation>, b: seq<Observation>, id: ObservationId)
    ensures HasObservation(a + b, id) <==> HasObservation(a, id) || HasObservation(b, id)
    ensures !HasObservation(b, id) ==> forall i | 0 <= i < |b| :: b[i].Id() != id
  {
    if HasObservation(a, id) {
      var i :| 0 <= i < |a| && a[i].Id() == id;
      assert (a + b)[i] == a[i];
    }
    if HasObservation(b, id) {
      var i :| 0 <= i < |b| && b[i].Id() == id;
      assert (a + b)[|a| + i] == b[i];
    }
  }

  /** Recording absences appends one row per vanished file, in order. */
  lemma {:induction false} AbsencesFrame(s: Store, req: Request, gone: seq<PreviousItem>)
    ensures
      var a := RecordAbsences(s, req, gone);
      && a.store == s.(absences := s.absences + a.rows)
      && |a.rows| <= |gone|
      && (forall i | 0 <= i < |a.rows| :: a.rows[i] == AbsenceRow(req, gone[i]))
      && (a.error.None? ==> |a.rows| == |gone|)
  {
    if gone == [] {
      assert s.absences + [] == s.absences;
    } else {
      AbsencesFrame(s, req, gone[..|gone| - 1]);
      var b := RecordAbsences(s, req, gone[..|gone| - 1]);
      var a := RecordAbsences(s, req, gone);
      if b.error.None? && a.error.None? {
        assert s.absences + a.rows == (s.absences + b.rows) + [AbsenceRow(req, gone[|gone| - 1])];
      }
    }
  }

  lemma {:induction false} RunRowsMember(rows: seq<Observation>, source: SourceId, run: RunId, at: Time)
    ensures forall o :: o in RunRows(rows, source, run, at) <==> o in rows && Belongs(o, source, run, at)
  {
    if rows != [] {
      var init := rows[..|rows| - 1];
      RunRowsMember(init, source, run, at);
      assert rows == init + [rows[|rows| - 1]];
    }
  }

  lemma {:induction false} RunRowsAppend(a: seq<Observation>, b: seq<Observation>, source: SourceId, run: RunId,
        at: Time)
    ensures RunRows(a + b, source, run, at) == RunRows(a, source, run, at) + RunRows(b, source, run, at)
  {
    if b == [] {
      assert a + b == a;
    } else {
      var init := b[..|b| - 1];
      RunRowsAppend(a, init, source, run, at);
      assert (a + b)[..|a + b| - 1] == a + init;
    }
  }

  /** A snapshot that binds a row the store lacks is none of the recorded ones. */
  lemma NovelSnapshot(s: Store, x: Snapshot, o: Observation)
    requires SnapshotsClosed(s) && !HasObservation(s.observations, o.Id())
    requires x.evidence.bound.Some? && o.Id() in x.evidence.bound.value
    ensures x !in s.snapshots
  {
  }

  lemma IdsMember(rows: seq<Observation>, o: Observation)
    requires o in rows
    ensures o.Id() in Ids(rows)
  {
    var i :| 0 <= i < |rows| && rows[i] == o;
    assert Ids(rows)[i] == o.Id();
  }

  /** The evidence recorded with a snapshot binds every row the call itself wrote. */
  lemma OwnRowsAreBound(s: Store, req: Request, es: seq<Entry>, rows: seq<Observation>, evidence: Evidence)
    requires RowsListed(req, es, rows) && forall o | o in rows :: o in s.observations
    ensures forall o | o in rows :: o.Id() in BoundEvidence(s, req.source, req.run, req.at, evidence).bound.value
  {
    forall o | o in rows ensures o.Id() in BoundEvidence(s, req.source, req.run, req.at, evidence).bound.value {
      assert IsListed(req, es, o);
      var e :| e in es && e.kind == File && RowFor(req, o, e.path);
      RunRowsMember(s.observations, req.source, req.run, req.at);
      IdsMember(RunRows(s.observations, req.source, req.run, req.at), o);
    }
  }

  lemma BoundIdsExist(s: Store, source: SourceId, run: RunId, at: Time, evidence: Evidence)
    ensures forall id | id in BoundEvidence(s, source, run, at, evidence).bound.value ::
        HasObservation(s.observations, id)
  {
    var rows := RunRows(s.observations, source, run, at);
    RunRowsMember(s.observations, source, run, at);
    forall id | id in Ids(rows) ensures HasObservation(s.observations, id) {
      var i :| 0 <= i < |rows| && Ids(rows)[i] == id;
      assert rows[i] in s.observations;
    }
  }

  /** The rows of a call are those of its entries. */
  lemma {:induction false} OutcomeRows(rank: Snapshot -> int, s: Store, req: Request, reuse: bool)
    requires Recordable(req)
    ensures Mirrored(req, SortedEntries(req))
    ensures
      var previous := PreviousMap(PreviousItems(rank, s, req.source, req.inventory.scope));
      var p := RecordEntries(s, req, SortedEntries(req), previous, reuse);
      && Reconcile(rank, s, req, reuse).rows == p.rows
      && (Reconcile(rank, s, req, reuse).error.None? ==> p.error.None?)
  {
    SortedEntriesMirrored(req);
    var items := PreviousItems(rank, s, req.source, req.inventory.scope);
    RecordedRows(RecordEntries(s, req, SortedEntries(req), PreviousMap(items), reuse), req,
      GoneFiles(req.inventory, items));
  }

  lemma RecordedRows(p: Progress, req: Request, gone: seq<PreviousItem>)
    ensures Recorded(p, req, gone).rows == p.rows
    ensures Recorded(p, req, gone).error.None? ==> p.error.None?
  {
  }

  // ---- which content is recorded ------------------------------------------------------------

  ghost predicate PreviousHeld(previous: map<string, PreviousItem>, contents: set<ContentId>) {
    forall path | path in previous && previous[path].content.Some? :: previous[path].content.value in contents
  }

  ghost predicate RecordsContent(req: Request, es: seq<Entry>, previous: map<string, PreviousItem>, o: Observation) {
    exists e :: e in es && e.kind == File && e.path in req.files && RowFor(req, o, e.path)
             && o.content == ContentFor(req, e, Lookup(previous, e.path))
  }

  /** Every row of a listing holds the content that store and request determine beforehand. */
  lemma {:induction false} RowContents(s: Store, req: Request, es: seq<Entry>, previous: map<string, PreviousItem>)
    requires Mirrored(req, es) && PreviousHeld(previous, s.contents) && s.contents <= s.blobs
    ensures
      var p := RecordEntries(s, req, es, previous, true);
      && s.contents <= p.store.contents <= p.store.blobs
      && forall o | o in p.rows :: RecordsContent(req, es, previous, o)
  {
    if es != [] {
      var init, e := es[..|es| - 1], es[|es| - 1];
      assert es == init + [e];
      RowContents(s, req, init, previous);
      var q, p := RecordEntries(s, req, init, previous, true), RecordEntries(s, req, es, previous, true);
      forall o | o in p.rows ensures RecordsContent(req, es, previous, o) {
        if o in q.rows {
          assert RecordsContent(req, init, previous, o);
          var x :| x in init && x.kind == File && x.path in req.files && RowFor(req, o, x.path)
                && o.content == ContentFor(req, x, Lookup(previous, x.path));
          assert x in es;
        } else {
          assert e in es && RowFor(req, o, e.path);
        }
      }
    }
  }

  lemma {:induction false} PreviousFromHeld(source: SourceId, entries: seq<TreeEntry>, scope: seq<string>,
        contents: set<ContentId>)
    requires EntriesHeld(entries, contents)
    ensures forall p | p in PreviousFrom(source, entries, scope) && p.content.Some? :: p.content.value in contents
  {
    if entries != [] {
      var init, last := entries[..|entries| - 1], entries[|entries| - 1];
      assert entries == init + [last];
      PreviousFromHeld(source, init, scope, contents);
    }
  }

  lemma {:induction false} PreviousMapHeld(items: seq<PreviousItem>, contents: set<ContentId>)
    requires forall p | p in items && p.content.Some? :: p.content.value in contents
    ensures PreviousHeld(PreviousMap(items), contents)
  {
    if items != [] {
      var init, last := items[..|items| - 1], items[|items| - 1];
      assert items == init + [last];
      PreviousMapHeld(init, contents);
    }
  }

  lemma BaselineHeld(rank: Snapshot -> int, s: Store, source: SourceId, scope: seq<string>)
    requires ReferencesHeld(s)
    ensures PreviousHeld(PreviousMap(PreviousItems(rank, s, source, scope)), s.contents)
  {
    var entries := BaselineEntries(rank, s, source, scope);
    assert EntriesHeld(entries, s.contents);
    PreviousFromHeld(source, entries, scope, s.contents);
    PreviousMapHeld(PreviousItems(rank, s, source, scope), s.contents);
  }

  // ---- what every call keeps ----------------------------------------------------------------

  /** Keys, references and storage order that hold of every store the recorders build. */
  ghost predicate Consistent(s: Store) {
    && TreesWellFormed(s) && SnapshotsClosed(s) && UniqueIds(s.observations)
    && s.contents <= s.blobs && ReferencesHeld(s)
  }

  lemma ExtendsKeepsClosed(s: Store, s': Store, x: Snapshot)
    requires Extends(s, s') && SnapshotClosed(s, x)
    ensures SnapshotClosed(s', x)
  {
    forall id | id in x.evidence.bound.value ensures HasObservation(s'.observations, id) {
      var i :| 0 <= i < |s.observations| && s.observations[i].Id() == id;
      assert s'.observations[i] == s.observations[i];
    }
  }

  lemma ExtendsTransitive(a: Store, b: Store, c: Store)
    requires Extends(a, b) && Extends(b, c)
    ensures Extends(a, c)
  {
  }

  lemma NewRowsStayUnique(s: Store, rows: seq<Observation>)
    requires UniqueIds(s.observations) && NewRows(s, rows)
    ensures UniqueIds(s.observations + rows)
  {
    var all := s.observations + rows;
    forall i, j | 0 <= i < j < |all| ensures all[i].Id() != all[j].Id() {
      if i < |s.observations| <= j {
        assert rows[j - |s.observations|] in rows;
      }
    }
  }

  lemma SnapshotCallKeeps(s: Store, x: Snapshot)
    requires Consistent(s) && SnapshotClosed(s, x)
    ensures Consistent(RecordSnapshot(s, x).store) && Extends(s, RecordSnapshot(s, x).store)
  {
    var s' := RecordSnapshot(s, x).store;
    forall y | y in s'.snapshots ensures SnapshotClosed(s', y) {
      ExtendsKeepsClosed(s, s', y);
    }
  }

  lemma GrowthKeepsConsistent(s: Store, s': Store)
    requires Consistent(s) && Extends(s, s') && s'.snapshots == s.snapshots
    requires TreesWellFormed(s') && UniqueIds(s'.observations) && s'.contents <= s'.blobs && ReferencesHeld(s')
    ensures Consistent(s')
  {
    forall x | x in s'.snapshots ensures SnapshotClosed(s', x) {
      ExtendsKeepsClosed(s, s', x);
    }
  }

  lemma SourceSnapshotKeeps(s: Store, source: SourceId, run: RunId, complete: bool, scope: seq<string>, at: Time,
        evidence: Evidence)
    requires Consistent(s)
    ensures
      var r := RecordSourceSnapshot(s, source, run, complete, scope, at, evidence);
      Consistent(r.store) && Extends(s, r.store)
  {
    BoundIdsExist(s, source, run, at, evidence);
    if source in s.sources {
      SnapshotCallKeeps(s,
        Snapshot(source, run, at, complete, None, SortText(scope), BoundEvidence(s, source, run, at, evidence)));
    }
  }

  lemma TreeSnapshotKeeps(s: Store, source: SourceId, run: RunId, entries: seq<TreeEntry>, complete: bool,
                          scope: seq<string>, at: Time, evidence: Evidence)
    requires Consistent(s)
    ensures
      var r := RecordTreeSnapshot(s, source, run, entries, complete, scope, at, evidence);
      Consistent(r.store) && Extends(s, r.store)
  {
    RecordTreeKeeps(s, entries);
    var tree := RecordTree(s, Sort(entries, EntryLe));
    var t := tree.store;
    GrowthKeepsConsistent(s, t);
    BoundIdsExist(s, source, run, at, evidence);
    assert t.observations == s.observations;
    if tree.Returned? && source in s.sources {
      var x := Snapshot(source, run, at, complete, Some(tree.value), SortText(scope),
        BoundEvidence(s, source, run, at, evidence));
      SnapshotCallKeeps(t, x);
      ExtendsTransitive(s, t, RecordSnapshot(t, x).store);
    }
  }

  lemma {:induction false} EntriesKeepStored(s: Store, req: Request, es: seq<Entry>,
        previous: map<string, PreviousItem>, reuse: bool)
    requires Mirrored(req, es) && s.contents <= s.blobs
    ensures RecordEntries(s, req, es, previous, reuse).store.contents <= RecordEntries(s, req, es, previous,
        reuse).store.blobs
  {
    if es != [] {
      EntriesKeepStored(s, req, es[..|es| - 1], previous, reuse);
    }
  }

  /** A reconciliation, however it ends, only appends to a consistent store. */
  lemma ReconcileKeeps(rank: Snapshot -> int, s: Store, req: Request, reuse: bool)
    requires Consistent(s)
    ensures
      var s' := Reconcile(rank, s, req, reuse).store;
      Consistent(s') && Extends(s, s')
  {
    if !Recordable(req) {
      SourceSnapshotKeeps(s, req.source, req.run, false, req.inventory.scope, req.at,
        NoEvidence().(reconciled := Some(false)));
    } else {
      SortedEntriesMirrored(req);
      var items := PreviousItems(rank, s, req.source, req.inventory.scope);
      var es, previous := SortedEntries(req), PreviousMap(items);
      var p := RecordEntries(s, req, es, previous, reuse);
      EntriesFrame(s, req, es, previous, reuse);
      EntriesKeepStored(s, req, es, previous, reuse);
      NewRowsStayUnique(s, p.rows);
      GrowthKeepsConsistent(s, p.store);
      if p.error.None? {
        var a := RecordAbsences(p.store, req, GoneFiles(req.inventory, items));
        AbsencesFrame(p.store, req, GoneFiles(req.inventory, items));
        GrowthKeepsConsistent(p.store, a.store);
        ExtendsTransitive(s, p.store, a.store);
        if a.error.None? {
          ConcludedKeeps(s, p, a, req);
        }
      }
    }
  }

  lemma ConcludedKeeps(s: Store, p: Progress, a: AbsenceProgress, req: Request)
    requires Consistent(a.store) && Extends(s, a.store)
    ensures Consistent(Concluded(p, a, req).store) && Extends(s, Concluded(p, a, req).store)
  {
    TreeSnapshotKeeps(a.store, req.source, req.run, p.tree, req.inventory.scope == [], req.inventory.scope, req.at,
                      Evidence(Some(true), None, None, p.ingested, p.reused, |a.rows|));
    ExtendsTransitive(s, a.store, Concluded(p, a, req).store);
  }
}
