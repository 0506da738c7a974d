/** What one source's own recordings, and everything else the repository does, leave in the tables of that source. */
module Histories {
  import opened Models
  import opened Ordering
  import opened Reconciliation
  import opened Store
  import opened Rsync
  import opened Incomplete
  import opened Resolver
  import opened Agreement
  import opened Decisions

  // ---- a source's own recordings ------------------------------------------------------------------

  /** A listing, complete or not, scoped or not; or a transfer whose listing is missing or incomplete. */
  datatype OwnStep = Listing(request: Request) | Transfer(partial: Partial) {
    function Source(): SourceId { if Listing? then request.source else partial.source }

    function At(): Time { if Listing? then request.at else partial.at }

    /** Every listing leaves a snapshot; a transfer does unless it reports a path twice. */
    ghost predicate LeavesSnapshot() { Listing? || PresentOnce(partial, partial.updated) }
  }

  /** One source's recordings at increasing times. */
  ghost predicate Following(source: SourceId, own: seq<OwnStep>) {
    && (forall x | x in own :: x.Source() == source)
    && (forall i, j | 0 <= i < j < |own| :: own[i].At() < own[j].At())
  }

  ghost predicate ListsKind(c: Request, path: string, kind: Kind) {
    Recordable(c) && exists e :: e in c.inventory.entries && e.path == path && e.kind == kind
  }

  ghost predicate Lists(c: Request, path: string) {
    Recordable(c) && exists e :: e in c.inventory.entries && e.path == path
  }

  ghost predicate ListsFile(c: Request, path: string) { ListsKind(c, path, File) }

  /** A usable listing that can serve as the baseline of a search in this scope. */
  predicate Usable(step: OwnStep, scope: seq<string>) {
    && step.Listing? && Recordable(step.request)
    && (step.request.inventory.scope == [] || SortText(step.request.inventory.scope) == scope)
  }

  /** How many snapshots these recordings leave. */
  ghost function Slots(own: seq<OwnStep>): nat {
    if own == [] then 0 else Slots(own[..|own| - 1]) + if own[|own| - 1].LeavesSnapshot() then 1 else 0
  }

  /** The recording that a search among the last `limit` snapshots finds, or -1. */
  ghost function BaselineIndex(own: seq<OwnStep>, scope: seq<string>, limit: nat): (i: int)
    ensures -1 <= i < |own|
    ensures i >= 0 ==> Usable(own[i], scope)
  {
    if own == [] || limit == 0 then -1
    else if Usable(own[|own| - 1], scope) then |own| - 1
    else BaselineIndex(own[..|own| - 1], scope, if own[|own| - 1].LeavesSnapshot() then limit - 1 else limit)
  }

  lemma {:induction false} SlotsFrom(own: seq<OwnStep>, i: nat)
    requires i < |own|
    ensures Slots(own[i..]) == Slots(own[..|own| - 1][i..]) + if own[|own| - 1].LeavesSnapshot() then 1 else 0
  {
    var tail := own[i..];
    assert tail[..|tail| - 1] == own[..|own| - 1][i..];
  }

  /** It is the last usable one, and it lies within the limit. */
  lemma {:induction false} BaselineIsLastUsable(own: seq<OwnStep>, scope: seq<string>, limit: nat)
    ensures
      var i := BaselineIndex(own, scope, limit);
      && (i >= 0 ==> Slots(own[i..]) <= limit && forall j | i < j < |own| :: !Usable(own[j], scope))
      && (i < 0 ==> forall j | 0 <= j < |own| && Usable(own[j], scope) :: Slots(own[j..]) > limit)
  {
    if own != [] {
      var init, last := own[..|own| - 1], own[|own| - 1];
      if limit == 0 {
        forall j | 0 <= j < |own| && Usable(own[j], scope)
          ensures Slots(own[j..]) > 0 { UsableTakesSlot(own, scope, j); }
      } else if Usable(last, scope) {
        assert own[|own| - 1..] == [last] && [last][..0] == [];
      } else {
        var rest := if last.LeavesSnapshot() then limit - 1 else limit;
        BaselineIsLastUsable(init, scope, rest);
        forall j: nat | j < |own| - 1
          ensures own[j] == init[j] && Slots(own[j..]) <= limit <==> Slots(init[j..]) <= rest {
          SlotsFrom(own, j);
        }
      }
    }
  }

  lemma {:induction false} UsableTakesSlot(own: seq<OwnStep>, scope: seq<string>, j: nat)
    requires j < |own| && Usable(own[j], scope)
    ensures Slots(own[j..]) > 0
    decreases |own|
  {
    var tail := own[j..];
    if |tail| == 1 {
      assert tail == [own[j]] && tail[..0] == [];
    } else {
      SlotsFrom(own, j);
      UsableTakesSlot(own[..|own| - 1], scope, j);
    }
  }

  // ---- which snapshot a search finds -----------------------------------------------------------------

  function Reverse<T>(xs: seq<T>): seq<T> {
    if xs == [] then [] else [xs[|xs| - 1]] + Reverse(xs[..|xs| - 1])
  }

  lemma {:induction false} ReverseMember<T>(xs: seq<T>)
    ensures |Reverse(xs)| == |xs|
    ensures forall x :: x in Reverse(xs) <==> x in xs
  {
    if xs != [] {
      ReverseMember(xs[..|xs| - 1]);
      assert xs == xs[..|xs| - 1] + [xs[|xs| - 1]];
    }
  }

  lemma {:induction false} InsertInFront<T>(xs: seq<T>, x: T, le: (T, T) -> bool)
    requires forall y | y in xs :: !le(y, x)
    ensures Insert(xs, x, le) == [x] + xs
  {
    if xs != [] {
      InsertInFront(xs[..|xs| - 1], x, le);
      assert xs == xs[..|xs| - 1] + [xs[|xs| - 1]];
    }
  }

  lemma {:induction false} NewestFirst(rank: Snapshot -> int, snapshots: seq<Snapshot>)
    requires forall i, j | 0 <= i < j < |snapshots| :: snapshots[i].at < snapshots[j].at
    ensures Sort(snapshots, NewerFirst(rank)) == Reverse(snapshots)
  {
    if snapshots != [] {
      var init := snapshots[..|snapshots| - 1];
      NewestFirst(rank, init);
      ReverseMember(init);
      InsertInFront(Reverse(init), snapshots[|snapshots| - 1], NewerFirst(rank));
    }
  }

  lemma {:induction false} OfSourceMember(snapshots: seq<Snapshot>, source: SourceId)
    ensures forall x :: x in OfSource(snapshots, source) <==> x in snapshots && x.source == source
  {
    if snapshots != [] {
      OfSourceMember(snapshots[..|snapshots| - 1], source);
      assert snapshots == snapshots[..|snapshots| - 1] + [snapshots[|snapshots| - 1]];
    }
  }

  lemma {:induction false} NoneOfSource(snapshots: seq<Snapshot>, source: SourceId)
    requires forall x | x in snapshots :: x.source != source
    ensures OfSource(snapshots, source) == []
  {
    if snapshots != [] { NoneOfSource(snapshots[..|snapshots| - 1], source); }
  }

  lemma {:induction false} OfSourceAppend(snapshots: seq<Snapshot>, more: seq<Snapshot>, source: SourceId)
    ensures OfSource(snapshots + more, source) == OfSource(snapshots, source) + OfSource(more, source)
  {
    if more == [] {
      assert snapshots + more == snapshots;
    } else {
      OfSourceAppend(snapshots, more[..|more| - 1], source);
      assert (snapshots + more)[..|snapshots + more| - 1] == snapshots + more[..|more| - 1];
    }
  }

  function Take<T>(xs: seq<T>, n: nat): seq<T> { if |xs| <= n then xs else xs[..n] }

  /** The newest qualifying snapshot among the last `n`. */
  function Within(snapshots: seq<Snapshot>, scope: seq<string>, n: nat): Option<Snapshot> {
    if snapshots == [] || n == 0 then None
    else if Qualifies(snapshots[|snapshots| - 1], scope) then Some(snapshots[|snapshots| - 1])
    else Within(snapshots[..|snapshots| - 1], scope, n - 1)
  }

  lemma {:induction false} FirstIsWithin(snapshots: seq<Snapshot>, scope: seq<string>, n: nat)
    ensures FirstQualifying(Take(Reverse(snapshots), n), scope) == Within(snapshots, scope, n)
  {
    ReverseMember(snapshots);
    if snapshots != [] && n > 0 {
      var init, last := snapshots[..|snapshots| - 1], snapshots[|snapshots| - 1];
      FirstIsWithin(init, scope, n - 1);
      ReverseMember(init);
      var taken := Take(Reverse(snapshots), n);
      assert taken[0] == last;
      assert taken[1..] == Take(Reverse(init), n - 1);
    }
  }

  // ---- what the store looks like after a history -----------------------------------------------

  ghost predicate HasKind(entries: seq<TreeEntry>, path: string, kind: Kind) {
    exists t :: t in entries && t.path == path && t.kind == kind
  }

  ghost predicate TreeOf(entries: seq<TreeEntry>, c: Request) {
    forall path, kind :: HasKind(entries, path, kind) <==> ListsKind(c, path, kind)
  }

  ghost predicate SnapshotOf(s: Store, x: Snapshot, step: OwnStep) {
    && x.source == step.Source() && x.at == step.At()
    && match step
       case Listing(c) =>
         if Recordable(c) then
           && x.complete == (c.inventory.scope == []) && x.scope == SortText(c.inventory.scope)
           && x.evidence.reconciled == Some(true)
           && x.tree.Some? && x.tree.value in s.trees && TreeOf(s.trees[x.tree.value], c)
         else x.tree.None?
       case Transfer(_) => x.evidence.reconciled == Some(false)
  }

  /** These snapshots are those of the recordings that leave one, in order. */
  ghost predicate Matched(s: Store, snapshots: seq<Snapshot>, own: seq<OwnStep>) {
    if own == [] then snapshots == []
    else
      var init, last := own[..|own| - 1], own[|own| - 1];
      if last.LeavesSnapshot() then
        && snapshots != [] && SnapshotOf(s, snapshots[|snapshots| - 1], last)
        && Matched(s, snapshots[..|snapshots| - 1], init)
      else Matched(s, snapshots, init)
  }

  ghost predicate Increasing(snapshots: seq<Snapshot>) {
    forall i, j | 0 <= i < j < |snapshots| :: snapshots[i].at < snapshots[j].at
  }

  lemma {:induction false} MatchedBounded(s: Store, snapshots: seq<Snapshot>, own: seq<OwnStep>, at: Time)
    requires Matched(s, snapshots, own) && forall x | x in own :: x.At() < at
    ensures forall y | y in snapshots :: y.at < at
  {
    if own != [] {
      var init, last := own[..|own| - 1], own[|own| - 1];
      if last.LeavesSnapshot() {
        var front, y := snapshots[..|snapshots| - 1], snapshots[|snapshots| - 1];
        MatchedBounded(s, front, init, at);
        assert snapshots == front + [y];
      } else {
        MatchedBounded(s, snapshots, init, at);
      }
    }
  }

  lemma {:induction false} MatchedIncreasing(s: Store, snapshots: seq<Snapshot>, own: seq<OwnStep>, source: SourceId)
    requires Matched(s, snapshots, own) && Following(source, own)
    ensures Increasing(snapshots)
  {
    if own != [] {
      var init, last := own[..|own| - 1], own[|own| - 1];
      assert own == init + [last];
      FollowingPrefix(source, init, last);
      if last.LeavesSnapshot() {
        var front := snapshots[..|snapshots| - 1];
        MatchedIncreasing(s, front, init, source);
        EarlierThan(source, init, last);
        MatchedBounded(s, front, init, last.At());
        IncreasingGrows(front, snapshots[|snapshots| - 1], snapshots);
      } else {
        MatchedIncreasing(s, snapshots, init, source);
      }
    }
  }

  lemma EarlierThan(source: SourceId, init: seq<OwnStep>, last: OwnStep)
    requires Following(source, init + [last])
    ensures forall x | x in init :: x.At() < last.At()
  {
    forall x | x in init ensures x.At() < last.At() {
      var i :| 0 <= i < |init| && init[i] == x;
      assert (init + [last])[i] == x && (init + [last])[|init|] == last;
    }
  }

  lemma IncreasingGrows(front: seq<Snapshot>, x: Snapshot, all: seq<Snapshot>)
    requires all == front + [x] && Increasing(front) && forall y | y in front :: y.at < x.at
    ensures Increasing(all)
  {
    forall i, j | 0 <= i < j < |all| ensures all[i].at < all[j].at {
      assert all[i] == front[i];
      if j < |front| { assert all[j] == front[j]; } else { assert front[i] in front; }
    }
  }

  lemma FollowingPrefix(source: SourceId, own: seq<OwnStep>, last: OwnStep)
    requires Following(source, own + [last])
    ensures Following(source, own) && last.Source() == source
    ensures own == [] || own[|own| - 1].At() < last.At()
  {
    var all := own + [last];
    assert last in all;
    assert forall x | x in own :: x in all;
    forall i, j | 0 <= i < j < |own| ensures own[i].At() < own[j].At() {
      assert all[i] == own[i] && all[j] == own[j];
    }
    if own != [] {
      assert all[|own| - 1].At() < all[|own|].At();
    }
  }

  /** A search over the snapshots finds that of the recording `BaselineIndex` names. */
  lemma {:induction false} WithinIsBaseline(s: Store, snapshots: seq<Snapshot>, own: seq<OwnStep>, scope: seq<string>,
        n: nat)
    requires Matched(s, snapshots, own)
    ensures
      var i, found := BaselineIndex(own, scope, n), Within(snapshots, scope, n);
      if i < 0 then found.None? else found.Some? && found.value in snapshots && SnapshotOf(s, found.value, own[i])
  {
    if own != [] && n > 0 {
      var init, last := own[..|own| - 1], own[|own| - 1];
      if last.LeavesSnapshot() {
        var x := snapshots[|snapshots| - 1];
        assert Qualifies(x, scope) <==> Usable(last, scope);
        if !Usable(last, scope) { WithinIsBaseline(s, snapshots[..|snapshots| - 1], init, scope, n - 1); }
      } else {
        WithinIsBaseline(s, snapshots, init, scope, n);
      }
    }
  }

  // ---- the keys of a source ---------------------------------------------------------------------

  function KeyPrefix(source: SourceId): string { "source:" + source + ":path:" }

  predicate OwnsKey(source: SourceId, key: string) { KeyPrefix(source) <= key }

  lemma OwnKeys(source: SourceId, path: string)
    ensures OwnsKey(source, PathKey(source, path)) && PathKey(source, path) == KeyPrefix(source) + path
  {
  }

  /** No artifact key can belong to both sources; sources whose ids contain no colon always stand apart. */
  predicate StandApart(a: SourceId, b: SourceId) {
    !(KeyPrefix(a) <= KeyPrefix(b)) && !(KeyPrefix(b) <= KeyPrefix(a))
  }

  lemma ColonFreeStandApart(a: SourceId, b: SourceId)
    requires a != b && ':' !in a && ':' !in b
    ensures StandApart(a, b)
  {
    if KeyPrefix(a) <= KeyPrefix(b) { PrefixNeedsColon(a, b); }
    if KeyPrefix(b) <= KeyPrefix(a) { PrefixNeedsColon(b, a); }
  }

  lemma PrefixNeedsColon(a: SourceId, b: SourceId)
    requires ':' !in b && KeyPrefix(a) <= KeyPrefix(b)
    ensures a == b
  {
    var n := |"source:"|;
    assert KeyPrefix(a)[n..n + |a|] == a && KeyPrefix(b)[n..n + |b|] == b;
    forall k | n <= k < n + |b| ensures KeyPrefix(b)[k] != ':' {
      assert KeyPrefix(b)[k] == b[k - n];
    }
    assert KeyPrefix(a)[n + |a|] == ':' == KeyPrefix(b)[n + |a|];
    assert KeyPrefix(a)[n..n + |a|] == KeyPrefix(b)[n..n + |a|];
  }

  lemma PrefixesCompare(p: string, q: string, key: string)
    requires p <= key && q <= key
    ensures p <= q || q <= p
  {
    assert key[..|p|] == p && key[..|q|] == q;
  }

  lemma ApartKeys(a: SourceId, b: SourceId, path: string)
    requires StandApart(a, b)
    ensures !OwnsKey(a, PathKey(b, path))
  {
    OwnKeys(b, path);
    if OwnsKey(a, PathKey(b, path)) {
      PrefixesCompare(KeyPrefix(a), KeyPrefix(b), PathKey(b, path));
    }
  }

  /** Everything recorded so far under the source's keys, and its snapshots, are older than `at`. */
  ghost predicate Before(s: Store, source: SourceId, at: Time) {
    && (forall o | o in s.observations && OwnsKey(source, o.artifactKey) :: o.at < at)
    && (forall a | a in s.absences && OwnsKey(source, a.artifactKey) :: a.at < at)
    && (forall x | x in OfSource(s.snapshots, source) :: x.at < at)
  }

  /** The source's snapshots are those of these recordings, and all it recorded is older than the next one. */
  ghost predicate Tracks(s: Store, source: SourceId, own: seq<OwnStep>) {
    && Consistent(s) && source in s.sources
    && Matched(s, OfSource(s.snapshots, source), own)
    && (forall at | own == [] || own[|own| - 1].At() < at :: Before(s, source, at))
  }

  /** The baseline of any search is the last usable recording, if it is among the newest 200 snapshots. */
  lemma {:induction false} BaselineFound(rank: Snapshot -> int, s: Store, source: SourceId, own: seq<OwnStep>,
        scope: seq<string>)
    requires Tracks(s, source, own) && Following(source, own)
    ensures
      var i, found := BaselineIndex(own, scope, BASELINE_LIMIT), Baseline(rank, s, source, scope);
      if i < 0 then found.None? else found.Some? && SnapshotOf(s, found.value, own[i])
  {
    var mine := OfSource(s.snapshots, source);
    MatchedIncreasing(s, mine, own, source);
    NewestFirst(rank, mine);
    FirstIsWithin(mine, scope, BASELINE_LIMIT);
    WithinIsBaseline(s, mine, own, scope, BASELINE_LIMIT);
  }

  // ---- what a listing makes vanish ---------------------------------------------------------------

  /** A file of the baseline, inside the listing's scope, that the listing omits. */
  ghost predicate Vanishes(own: seq<OwnStep>, c: Request, path: string) {
    var i := BaselineIndex(own, c.inventory.scope, BASELINE_LIMIT);
    && Recordable(c) && i >= 0 && ListsFile(own[i].request, path)
    && PathInScope(path, c.inventory.scope) && !Lists(c, path)
  }

  ghost predicate IsPreviousIn(source: SourceId, entries: seq<TreeEntry>, scope: seq<string>, p: PreviousItem) {
    exists t :: t in entries && PathInScope(t.path, scope) && p == PreviousOf(source, t)
  }

  lemma {:induction false} PreviousMember(source: SourceId, entries: seq<TreeEntry>, scope: seq<string>)
    ensures forall p :: p in PreviousFrom(source, entries, scope) <==> IsPreviousIn(source, entries, scope, p)
  {
    if entries != [] {
      var init, last := entries[..|entries| - 1], entries[|entries| - 1];
      PreviousMember(source, init, scope);
      assert entries == init + [last];
      forall p ensures p in PreviousFrom(source, entries, scope) <==> IsPreviousIn(source, entries, scope, p) {
        assert IsPreviousIn(source, entries, scope, p) <==>
          IsPreviousIn(source, init, scope, p) || (PathInScope(last.path, scope) && p == PreviousOf(source, last));
      }
    }
  }

  ghost predicate Names(gone: seq<PreviousItem>, path: string) {
    exists p :: p in gone && p.itemId == path
  }

  lemma {:induction false} NamesBaselineFiles(source: SourceId, entries: seq<TreeEntry>, c: Request, path: string)
    requires Recordable(c)
    ensures Names(GoneFiles(c.inventory, PreviousFrom(source, entries, c.inventory.scope)), path)
       <==> HasKind(entries, path, File) && PathInScope(path, c.inventory.scope) && !Lists(c, path)
  {
    var items := PreviousFrom(source, entries, c.inventory.scope);
    PreviousMember(source, entries, c.inventory.scope);
    GoneMember(c.inventory, items);
    if Names(GoneFiles(c.inventory, items), path) {
      var p :| p in GoneFiles(c.inventory, items) && p.itemId == path;
      assert IsPreviousIn(source, entries, c.inventory.scope, p);
    }
    if HasKind(entries, path, File) && PathInScope(path, c.inventory.scope) && !Lists(c, path) {
      var t :| t in entries && t.path == path && t.kind == File;
      InScopeIsCovered(path, c.inventory.scope);
      assert IsPreviousIn(source, entries, c.inventory.scope, PreviousOf(source, t));
      assert IsGone(c.inventory, PreviousOf(source, t));
    }
  }

  lemma GoneIsVanishing(rank: Snapshot -> int, s: Store, source: SourceId, own: seq<OwnStep>, c: Request, path: string)
    requires Tracks(s, source, own) && Following(source, own + [Listing(c)]) && Recordable(c)
    ensures Names(GoneFiles(c.inventory, PreviousItems(rank, s, source, c.inventory.scope)), path) <==>
        Vanishes(own, c, path)
  {
    FollowingPrefix(source, own, Listing(c));
    BaselineFound(rank, s, source, own, c.inventory.scope);
    var entries := BaselineEntries(rank, s, source, c.inventory.scope);
    NamesBaselineFiles(source, entries, c, path);
    var i := BaselineIndex(own, c.inventory.scope, BASELINE_LIMIT);
    if i >= 0 {
      assert TreeOf(entries, own[i].request);
      assert HasKind(entries, path, File) <==> ListsFile(own[i].request, path);
    }
  }

  // ---- a listing at a new time succeeds -----------------------------------------------------------

  lemma {:induction false} EntriesSucceed(s: Store, req: Request, es: seq<Entry>, previous: map<string, PreviousItem>)
    requires Mirrored(req, es) && DistinctEntries(es)
    requires req.source in s.sources && s.contents <= s.blobs && Before(s, req.source, req.at)
    ensures RecordEntries(s, req, es, previous, true).error.None?
  {
    if es != [] {
      var init, e := es[..|es| - 1], es[|es| - 1];
      EntriesSucceed(s, req, init, previous);
      EntriesFrame(s, req, init, previous, true);
      EntriesKeepStored(s, req, init, previous, true);
      var q := RecordEntries(s, req, init, previous, true);
      if e.kind == File {
        forall content, reused
          ensures !HasObservation(q.store.observations, FileRow(req, e.path, content, reused).Id()) {
          NewPathNewId(s, req, init, e, q.rows, content, reused);
        }
      }
    }
  }

  lemma NewPathNewId(s: Store, req: Request, init: seq<Entry>, e: Entry, rows: seq<Observation>, content: ContentId,
        reused: bool)
    requires Before(s, req.source, req.at) && RowsListed(req, init, rows) && forall x | x in init :: x.path != e.path
    ensures !HasObservation(s.observations + rows, FileRow(req, e.path, content, reused).Id())
  {
    var id := FileRow(req, e.path, content, reused).Id();
    RowsSplit(s.observations, rows, id);
    forall i | 0 <= i < |rows| ensures rows[i].Id() != id {
      assert IsListed(req, init, rows[i]);
    }
    OwnKeys(req.source, e.path);
    forall i | 0 <= i < |s.observations| ensures s.observations[i].Id() != id {
      assert s.observations[i] in s.observations;
    }
  }

  ghost predicate DistinctPrevious(items: seq<PreviousItem>) {
    forall i, j | 0 <= i < j < |items| :: items[i].artifactKey != items[j].artifactKey
  }

  lemma {:induction false} GoneDistinct(inventory: Inventory, previous: seq<PreviousItem>)
    requires DistinctPrevious(previous)
    ensures DistinctPrevious(GoneFiles(inventory, previous))
  {
    if previous != [] {
      var init, last := previous[..|previous| - 1], previous[|previous| - 1];
      GoneDistinct(inventory, init);
      GoneMember(inventory, init);
      var gone := GoneFiles(inventory, init);
      forall i | 0 <= i < |gone| ensures gone[i].artifactKey != last.artifactKey {
        assert gone[i] in gone;
        var k :| 0 <= k < |init| && init[k] == gone[i];
      }
    }
  }

  lemma {:induction false} PreviousDistinct(source: SourceId, entries: seq<TreeEntry>, scope: seq<string>)
    requires DistinctPaths(entries)
    ensures DistinctPrevious(PreviousFrom(source, entries, scope))
  {
    if entries != [] {
      var init, last := entries[..|entries| - 1], entries[|entries| - 1];
      assert forall i | 0 <= i < |init| :: init[i] == entries[i];
      PreviousDistinct(source, init, scope);
      PreviousMember(source, init, scope);
      forall p | p in PreviousFrom(source, init, scope) ensures p.artifactKey != PathKey(source, last.path) {
        var t :| t in init && PathInScope(t.path, scope) && p == PreviousOf(source, t);
        var i :| 0 <= i < |init| && init[i] == t;
        PathKeyInjective(source, t.path, last.path);
      }
      var front := PreviousFrom(source, init, scope);
      assert forall i | 0 <= i < |front| :: front[i] in front;
    }
  }

  lemma {:induction false} AbsencesSucceed(s: Store, req: Request, gone: seq<PreviousItem>)
    requires req.source in s.sources && Before(s, req.source, req.at) && DistinctPrevious(gone)
    requires forall p | p in gone :: OwnsKey(req.source, p.artifactKey)
    ensures RecordAbsences(s, req, gone).error.None?
  {
    if gone != [] {
      var init, item := gone[..|gone| - 1], gone[|gone| - 1];
      AbsencesSucceed(s, req, init);
      AbsencesFrame(s, req, init);
      var a := RecordAbsences(s, req, init);
      var id := AbsenceRow(req, item).Id();
      forall i | 0 <= i < |a.store.absences| ensures a.store.absences[i].Id() != id {
        if i < |s.absences| { assert s.absences[i] in s.absences; }
        else { assert a.store.absences[i] == AbsenceRow(req, gone[i - |s.absences|]); }
      }
    }
  }

  lemma {:induction false} TreeOfRecorded(req: Request, tree: seq<TreeEntry>, rows: seq<Observation>,
        stored: seq<TreeEntry>)
    requires Recordable(req) && TreeMatches(SortedEntries(req), tree, rows)
    requires Identities(stored) == Identities(Sort(tree, EntryLe))
    ensures TreeOf(stored, req)
  {
    var es, ordered := SortedEntries(req), Sort(tree, EntryLe);
    SortedEntriesMirrored(req);
    SortProperties(tree, EntryLe);
    SameShape(stored, ordered);
    ShapeOfRecorded(es, tree, rows);
    forall path, kind ensures HasKind(stored, path, kind) <==> ListsKind(req, path, kind) {
      SameKinds(stored, ordered, path, kind);
      PermutedKinds(ordered, tree, path, kind);
      ListedKinds(req, es, tree, path, kind);
    }
  }

  lemma SameShape(a: seq<TreeEntry>, b: seq<TreeEntry>)
    requires Identities(a) == Identities(b)
    ensures |a| == |b| && forall i | 0 <= i < |a| :: a[i].path == b[i].path && a[i].kind == b[i].kind
  {
    assert |a| == |Identities(a)| == |b|;
    forall i | 0 <= i < |a| ensures a[i].path == b[i].path && a[i].kind == b[i].kind {
      assert Identities(a)[i] == Identities(b)[i];
    }
  }

  lemma ShapeOfRecorded(es: seq<Entry>, tree: seq<TreeEntry>, rows: seq<Observation>)
    requires TreeMatches(es, tree, rows)
    ensures forall i | 0 <= i < |es| :: tree[i].path == es[i].path && tree[i].kind == es[i].kind
  {
    forall i | 0 <= i < |es| ensures tree[i].path == es[i].path && tree[i].kind == es[i].kind {
      assert EntryRecorded(es[i], tree[i], rows);
    }
  }

  lemma PermutedKinds(a: seq<TreeEntry>, b: seq<TreeEntry>, path: string, kind: Kind)
    requires forall t :: t in a <==> t in b
    ensures HasKind(a, path, kind) <==> HasKind(b, path, kind)
  {
  }

  lemma ListedKinds(req: Request, es: seq<Entry>, tree: seq<TreeEntry>, path: string, kind: Kind)
    requires Recordable(req) && forall e :: e in es <==> e in req.inventory.entries
    requires |tree| == |es| && forall i | 0 <= i < |es| :: tree[i].path == es[i].path && tree[i].kind == es[i].kind
    ensures HasKind(tree, path, kind) <==> ListsKind(req, path, kind)
  {
    if HasKind(tree, path, kind) {
      var t :| t in tree && t.path == path && t.kind == kind;
      var i :| 0 <= i < |tree| && tree[i] == t;
      assert es[i] in req.inventory.entries;
    }
    if ListsKind(req, path, kind) {
      var e :| e in req.inventory.entries && e.path == path && e.kind == kind;
      var i :| 0 <= i < |es| && es[i] == e;
      assert tree[i] in tree;
    }
  }

  lemma SameKinds(a: seq<TreeEntry>, b: seq<TreeEntry>, path: string, kind: Kind)
    requires |a| == |b| && forall i | 0 <= i < |a| :: a[i].path == b[i].path && a[i].kind == b[i].kind
    ensures HasKind(a, path, kind) <==> HasKind(b, path, kind)
  {
    if HasKind(a, path, kind) {
      var t :| t in a && t.path == path && t.kind == kind;
      var i :| 0 <= i < |a| && a[i] == t;
      assert b[i] in b;
    }
    if HasKind(b, path, kind) {
      var t :| t in b && t.path == path && t.kind == kind;
      var i :| 0 <= i < |b| && b[i] == t;
      assert a[i] in a;
    }
  }

  lemma TreePathsDistinct(es: seq<Entry>, tree: seq<TreeEntry>, rows: seq<Observation>)
    requires TreeMatches(es, tree, rows) && DistinctEntries(es)
    ensures DistinctPaths(tree)
  {
    forall i | 0 <= i < |es| ensures tree[i].path == es[i].path {
      assert EntryRecorded(es[i], tree[i], rows);
    }
  }

  lemma TreeIsHeld(es: seq<Entry>, tree: seq<TreeEntry>, rows: seq<Observation>, contents: set<ContentId>)
    requires TreeMatches(es, tree, rows) && forall o | o in rows :: o.content in contents
    ensures EntriesHeld(tree, contents)
  {
    forall t | t in tree && t.content.Some? ensures t.content.value in contents {
      var i :| 0 <= i < |tree| && tree[i] == t;
      assert EntryRecorded(es[i], t, rows);
    }
  }

  ghost predicate NoneYet(snapshots: seq<Snapshot>, source: SourceId, at: Time) {
    forall x | x in snapshots && x.source == source :: x.at < at
  }

  lemma ConcludedAppends(p: Progress, a: AbsenceProgress, c: Request)
    requires Recordable(c) && c.source in a.store.sources && NoneYet(a.store.snapshots, c.source, c.at)
    requires TreesWellFormed(a.store) && DistinctPaths(p.tree) && TreeMatches(SortedEntries(c), p.tree, p.rows)
    requires forall o | o in p.rows :: o.content in a.store.contents
    ensures
      var out := Concluded(p, a, c);
      && out.error.None? && out.store.observations == a.store.observations && out.store.absences == a.store.absences
      && |out.store.snapshots| == |a.store.snapshots| + 1 && a.store.snapshots <= out.store.snapshots
      && SnapshotOf(out.store, out.store.snapshots[|a.store.snapshots|], Listing(c))
  {
    TreeIsHeld(SortedEntries(c), p.tree, p.rows, a.store.contents);
    RecordTreeKeeps(a.store, p.tree);
    var r := RecordTree(a.store, Sort(p.tree, EntryLe));
    TreeOfRecorded(c, p.tree, p.rows, r.store.trees[r.value]);
  }

  lemma RowsAtCall(c: Request, es: seq<Entry>, rows: seq<Observation>)
    requires RowsListed(c, es, rows)
    ensures forall o | o in rows :: o.at == c.at
  {
    forall o | o in rows ensures o.at == c.at { assert IsListed(c, es, o); }
  }

  lemma {:induction false} PartsSucceed(rank: Snapshot -> int, s: Store, c: Request)
    requires Consistent(s) && c.source in s.sources && Before(s, c.source, c.at) && Recordable(c)
    requires Mirrored(c, SortedEntries(c))
    ensures
      var items := PreviousItems(rank, s, c.source, c.inventory.scope);
      var p := RecordEntries(s, c, SortedEntries(c), PreviousMap(items), true);
      var a := RecordAbsences(p.store, c, GoneFiles(c.inventory, items));
      p.error.None? && a.error.None? && DistinctPaths(p.tree)
  {
    SortedEntriesMirrored(c);
    SortedEntriesDistinct(c);
    var items := PreviousItems(rank, s, c.source, c.inventory.scope);
    var es, previous := SortedEntries(c), PreviousMap(items);
    EntriesSucceed(s, c, es, previous);
    EntriesFrame(s, c, es, previous, true);
    var p := RecordEntries(s, c, es, previous, true);
    TreePathsDistinct(es, p.tree, p.rows);
    PreviousDistinct(c.source, BaselineEntries(rank, s, c.source, c.inventory.scope), c.inventory.scope);
    GoneDistinct(c.inventory, items);
    GoneOwned(rank, s, c);
    GoneSucceed(p.store, c, GoneFiles(c.inventory, items));
  }

  lemma GoneOwned(rank: Snapshot -> int, s: Store, c: Request)
    ensures
      var gone := GoneFiles(c.inventory, PreviousItems(rank, s, c.source, c.inventory.scope));
      forall p | p in gone :: p.artifactKey == PathKey(c.source, p.itemId) && OwnsKey(c.source, p.artifactKey)
  {
    var items := PreviousItems(rank, s, c.source, c.inventory.scope);
    PreviousKeys(c.source, BaselineEntries(rank, s, c.source, c.inventory.scope), c.inventory.scope);
    GoneMember(c.inventory, items);
    forall p | p in items ensures OwnsKey(c.source, p.artifactKey) { OwnKeys(c.source, p.itemId); }
  }

  lemma {:induction false} PreviousKeys(source: SourceId, entries: seq<TreeEntry>, scope: seq<string>)
    ensures forall p | p in PreviousFrom(source, entries, scope) :: p.artifactKey == PathKey(source, p.itemId)
  {
    if entries != [] { PreviousKeys(source, entries[..|entries| - 1], scope); }
  }

  lemma {:induction false} GoneSucceed(s: Store, c: Request, gone: seq<PreviousItem>)
    requires c.source in s.sources && DistinctPrevious(gone)
    requires forall a | a in s.absences && OwnsKey(c.source, a.artifactKey) :: a.at < c.at
    requires forall p | p in gone :: OwnsKey(c.source, p.artifactKey)
    ensures RecordAbsences(s, c, gone).error.None?
  {
    var t := s.(observations := [], snapshots := []);
    AbsencesSucceed(t, c, gone);
    SameAbsences(s, t, c, gone);
  }

  lemma {:induction false} SameAbsences(s: Store, t: Store, c: Request, gone: seq<PreviousItem>)
    requires s.sources == t.sources && s.absences == t.absences
    ensures
      var a, b := RecordAbsences(s, c, gone), RecordAbsences(t, c, gone);
      a.error == b.error && a.rows == b.rows && a.store.absences == b.store.absences
        && a.store.sources == b.store.sources
  {
    if gone != [] { SameAbsences(s, t, c, gone[..|gone| - 1]); }
  }

  ghost predicate HasKey(rows: seq<Observation>, key: string) {
    exists o :: o in rows && o.artifactKey == key
  }

  ghost predicate HasAbsenceKey(rows: seq<Absence>, key: string) {
    exists a :: a in rows && a.artifactKey == key
  }

  // ---- what one own recording appends ---------------------------------------------------------------

  ghost function Taken(rank: Snapshot -> int, s: Store, step: OwnStep): Outcome {
    match step
    case Listing(c) => Reconcile(rank, s, c, true)
    case Transfer(p) => RecordIncomplete(s, p)
  }

  /** What an own recording at a new time appends: rows and absences of its time, and its snapshot if it leaves one. */
  ghost predicate Appends(s: Store, step: OwnStep, out: Outcome) {
    && out.store.observations == s.observations + out.rows
    && out.store.absences == s.absences + out.absences
    && s.snapshots <= out.store.snapshots
    && |out.store.snapshots| == |s.snapshots| + (if step.LeavesSnapshot() then 1 else 0)
    && (step.LeavesSnapshot() ==> SnapshotOf(out.store, out.store.snapshots[|s.snapshots|], step))
    && (forall o | o in out.rows :: o.at == step.At())
    && (forall a | a in out.absences :: a.at == step.At())
  }

  /** It writes a row for exactly the paths it shows as files, and an absence for exactly those it makes vanish. */
  ghost predicate Shows(step: OwnStep, path: string) {
    match step
    case Listing(c) => ListsFile(c, path)
    case Transfer(p) => Ingests(p, path)
  }

  ghost predicate TakesAway(own: seq<OwnStep>, step: OwnStep, path: string) {
    step.Listing? && Vanishes(own, step.request, path)
  }

  ghost predicate WritesKeys(source: SourceId, own: seq<OwnStep>, step: OwnStep, out: Outcome, path: string) {
    && (HasKey(out.rows, PathKey(source, path)) <==> Shows(step, path))
    && (HasAbsenceKey(out.absences, PathKey(source, path)) <==> TakesAway(own, step, path))
  }

  lemma RejectedAppends(rank: Snapshot -> int, s: Store, c: Request)
    requires c.source in s.sources && Before(s, c.source, c.at) && !Recordable(c)
    ensures Appends(s, Listing(c), Reconcile(rank, s, c, true))
    ensures Reconcile(rank, s, c, true).rows == [] && Reconcile(rank, s, c, true).absences == []
    ensures Reconcile(rank, s, c, true).error.None?
  {
    OfSourceMember(s.snapshots, c.source);
    assert s.observations + [] == s.observations && s.absences + [] == s.absences;
  }

  lemma RecordedAppends(rank: Snapshot -> int, s: Store, c: Request)
    requires Consistent(s) && c.source in s.sources && Before(s, c.source, c.at) && Recordable(c)
    ensures Appends(s, Listing(c), Reconcile(rank, s, c, true))
    ensures Reconcile(rank, s, c, true).error.None?
  {
    SortedEntriesMirrored(c);
    PartsSucceed(rank, s, c);
    var items := PreviousItems(rank, s, c.source, c.inventory.scope);
    var es, previous, gone := SortedEntries(c), PreviousMap(items), GoneFiles(c.inventory, items);
    EntriesFrame(s, c, es, previous, true);
    var p := RecordEntries(s, c, es, previous, true);
    AbsencesFrame(p.store, c, gone);
    var a := RecordAbsences(p.store, c, gone);
    OfSourceMember(s.snapshots, c.source);
    ConcludedAppends(p, a, c);
    RowsAtCall(c, es, p.rows);
  }

  lemma RecordedKeys(rank: Snapshot -> int, s: Store, c: Request, path: string)
    requires Consistent(s) && c.source in s.sources && Before(s, c.source, c.at) && Recordable(c)
    ensures
      var out := Reconcile(rank, s, c, true);
      var gone := GoneFiles(c.inventory, PreviousItems(rank, s, c.source, c.inventory.scope));
      && (HasKey(out.rows, PathKey(c.source, path)) <==> ListsFile(c, path))
      && |out.absences| == |gone| && forall i | 0 <= i < |gone| :: out.absences[i] == AbsenceRow(c, gone[i])
  {
    SortedEntriesMirrored(c);
    PartsSucceed(rank, s, c);
    var items := PreviousItems(rank, s, c.source, c.inventory.scope);
    var es, previous, gone := SortedEntries(c), PreviousMap(items), GoneFiles(c.inventory, items);
    EntriesFrame(s, c, es, previous, true);
    var p := RecordEntries(s, c, es, previous, true);
    AbsencesFrame(p.store, c, gone);
    var a := RecordAbsences(p.store, c, gone);
    assert Reconcile(rank, s, c, true).rows == p.rows && Reconcile(rank, s, c, true).absences == a.rows;
    RowsCoverFiles(c, es, p.tree, p.rows, path);
  }

  lemma RowsCoverFiles(c: Request, es: seq<Entry>, tree: seq<TreeEntry>, rows: seq<Observation>, path: string)
    requires Recordable(c) && es == SortedEntries(c) && TreeMatches(es, tree, rows) && RowsListed(c, es, rows)
    ensures HasKey(rows, PathKey(c.source, path)) <==> ListsFile(c, path)
  {
    SortedEntriesMirrored(c);
    if HasKey(rows, PathKey(c.source, path)) {
      var o :| o in rows && o.artifactKey == PathKey(c.source, path);
      ListedRow(c, es, o, path);
    }
    if ListsFile(c, path) {
      var e :| e in c.inventory.entries && e.path == path && e.kind == File;
      var o := RowOfListed(c, es, tree, rows, e);
    }
  }

  lemma RowOfListed(c: Request, es: seq<Entry>, tree: seq<TreeEntry>, rows: seq<Observation>, e: Entry)
        returns (o: Observation)
    requires TreeMatches(es, tree, rows) && RowsListed(c, es, rows) && e in es && e.kind == File
    ensures o in rows && o.artifactKey == PathKey(c.source, e.path)
  {
    var i :| 0 <= i < |es| && es[i] == e;
    o := RecordedRow(e, tree[i], rows);
    RowKeyFromPath(c, es, o, e.path);
  }

  lemma RecordedRow(e: Entry, t: TreeEntry, rows: seq<Observation>) returns (o: Observation)
    requires EntryRecorded(e, t, rows) && e.kind == File
    ensures o in rows && o.path == Some(e.path)
  {
    o :| o in rows && o.path == Some(e.path) && t == EntryRow(e, Some(o.content));
  }

  lemma ListedRow(c: Request, es: seq<Entry>, o: Observation, path: string)
    requires IsListed(c, es, o) && o.artifactKey == PathKey(c.source, path)
    ensures exists e :: e in es && e.path == path && e.kind == File
  {
    var e :| e in es && e.kind == File && RowFor(c, o, e.path);
    PathKeyInjective(c.source, e.path, path);
  }

  lemma RowKeyFromPath(c: Request, es: seq<Entry>, o: Observation, path: string)
    requires IsListed(c, es, o) && o.path == Some(path)
    ensures o.artifactKey == PathKey(c.source, path)
  {
  }

  lemma AbsenceKeys(rank: Snapshot -> int, s: Store, source: SourceId, own: seq<OwnStep>, c: Request, path: string,
        rows: seq<Absence>)
    requires Tracks(s, source, own) && Following(source, own + [Listing(c)]) && Recordable(c)
    requires
      var gone := GoneFiles(c.inventory, PreviousItems(rank, s, source, c.inventory.scope));
      |rows| == |gone| && forall i | 0 <= i < |gone| :: rows[i] == AbsenceRow(c, gone[i])
    ensures HasAbsenceKey(rows, PathKey(source, path)) <==> Vanishes(own, c, path)
  {
    var gone := GoneFiles(c.inventory, PreviousItems(rank, s, source, c.inventory.scope));
    FollowingPrefix(source, own, Listing(c));
    GoneIsVanishing(rank, s, source, own, c, path);
    GoneOwned(rank, s, c);
    AbsencesName(c, gone, rows, path);
  }

  lemma AbsencesName(c: Request, gone: seq<PreviousItem>, rows: seq<Absence>, path: string)
    requires |rows| == |gone| && forall i | 0 <= i < |gone| :: rows[i] == AbsenceRow(c, gone[i])
    requires forall p | p in gone :: p.artifactKey == PathKey(c.source, p.itemId)
    ensures HasAbsenceKey(rows, PathKey(c.source, path)) <==> Names(gone, path)
  {
    if HasAbsenceKey(rows, PathKey(c.source, path)) {
      var a :| a in rows && a.artifactKey == PathKey(c.source, path);
      var i :| 0 <= i < |rows| && rows[i] == a;
      assert gone[i] in gone;
      PathKeyInjective(c.source, gone[i].itemId, path);
    }
    if Names(gone, path) {
      var p :| p in gone && p.itemId == path;
      var i :| 0 <= i < |gone| && gone[i] == p;
      assert rows[i] in rows;
    }
  }

  lemma TransferAppends(s: Store, p: Partial)
    requires Consistent(s) && p.source in s.sources && Before(s, p.source, p.at)
    ensures Appends(s, Transfer(p), RecordIncomplete(s, p))
    ensures forall path :: HasKey(RecordIncomplete(s, p).rows, PathKey(p.source, path)) <==> Ingests(p, path)
  {
    forall path | p.HasFile(path) ensures !HasObservation(s.observations, PartialRow(p, path).Id()) {
      OwnKeys(p.source, path);
    }
    OfSourceMember(s.snapshots, p.source);
    IncompleteWritesAnew(s, p);
    var out := RecordIncomplete(s, p);
    assert out.absences == [] && s.absences + [] == s.absences;
    forall path ensures HasKey(out.rows, PathKey(p.source, path)) <==> HasPath(out.rows, path) {
      RowsNamePaths(p, out.rows, path);
    }
  }

  lemma RowsNamePaths(p: Partial, rows: seq<Observation>, path: string)
    requires forall o | o in rows :: FromPartial(p, o)
    ensures HasKey(rows, PathKey(p.source, path)) <==> HasPath(rows, path)
  {
    if HasKey(rows, PathKey(p.source, path)) {
      var o :| o in rows && o.artifactKey == PathKey(p.source, path);
      PathKeyInjective(p.source, o.path.value, path);
    }
  }

  // ---- the bookkeeping survives one more own recording -----------------------------------------------

  lemma SnapshotOfKept(s: Store, s': Store, x: Snapshot, step: OwnStep)
    requires Extends(s, s') && SnapshotOf(s, x, step)
    ensures SnapshotOf(s', x, step)
  {
  }

  lemma {:induction false} MatchedKept(s: Store, s': Store, snapshots: seq<Snapshot>, own: seq<OwnStep>)
    requires Extends(s, s') && Matched(s, snapshots, own)
    ensures Matched(s', snapshots, own)
  {
    if own != [] {
      var init, last := own[..|own| - 1], own[|own| - 1];
      if last.LeavesSnapshot() {
        SnapshotOfKept(s, s', snapshots[|snapshots| - 1], last);
        MatchedKept(s, s', snapshots[..|snapshots| - 1], init);
      } else {
        MatchedKept(s, s', snapshots, init);
      }
    }
  }

  lemma StillTracks(rank: Snapshot -> int, s: Store, source: SourceId, own: seq<OwnStep>, step: OwnStep)
    requires Tracks(s, source, own) && Following(source, own + [step])
    ensures Before(s, source, step.At()) && Appends(s, step, Taken(rank, s, step))
    ensures Tracks(Taken(rank, s, step).store, source, own + [step])
  {
    FollowingPrefix(source, own, step);
    match step {
      case Listing(c) =>
        if Recordable(c) { RecordedAppends(rank, s, c); } else { RejectedAppends(rank, s, c); }
        ReconcileKeeps(rank, s, c, true);
      case Transfer(p) =>
        TransferAppends(s, p);
        IncompleteKeeps(s, p);
    }
    StillTracksFrom(s, source, own, step, Taken(rank, s, step));
  }

  lemma StillTracksFrom(s: Store, source: SourceId, own: seq<OwnStep>, step: OwnStep, out: Outcome)
    requires Tracks(s, source, own) && Before(s, source, step.At()) && step.Source() == source
    requires Appends(s, step, out) && Consistent(out.store) && Extends(s, out.store)
    ensures Tracks(out.store, source, own + [step])
  {
    StillMatched(s, source, own, step, out);
    forall at | step.At() < at ensures Before(out.store, source, at) {
      StillBefore(s, source, step, out, at);
    }
  }

  lemma {:induction false} StillMatched(s: Store, source: SourceId, own: seq<OwnStep>, step: OwnStep, out: Outcome)
    requires Matched(s, OfSource(s.snapshots, source), own) && step.Source() == source
    requires Appends(s, step, out) && Extends(s, out.store)
    ensures Matched(out.store, OfSource(out.store.snapshots, source), own + [step])
  {
    var mine, more := OfSource(s.snapshots, source), out.store.snapshots[|s.snapshots|..];
    assert out.store.snapshots == s.snapshots + more;
    OfSourceAppend(s.snapshots, more, source);
    MatchedKept(s, out.store, mine, own);
    assert (own + [step])[..|own|] == own;
    if step.LeavesSnapshot() {
      var x := out.store.snapshots[|s.snapshots|];
      assert more == [x];
      OnlyOfSource(x);
      assert (mine + [x])[..|mine|] == mine;
    } else {
      assert more == [] && mine + [] == mine;
    }
  }

  lemma {:induction false} OnlyOfSource(x: Snapshot)
    ensures OfSource([x], x.source) == [x]
  {
    assert [x][..0] == [];
  }

  lemma StillBefore(s: Store, source: SourceId, step: OwnStep, out: Outcome, at: Time)
    requires Before(s, source, step.At()) && Appends(s, step, out) && step.Source() == source && step.At() < at
    ensures Before(out.store, source, at)
  {
    OfSourceMember(s.snapshots, source);
    OfSourceMember(out.store.snapshots, source);
    forall x | x in OfSource(out.store.snapshots, source) ensures x.at < at {
      var i :| 0 <= i < |out.store.snapshots| && out.store.snapshots[i] == x;
      if i < |s.snapshots| { assert x == s.snapshots[i] && x in OfSource(s.snapshots, source); }
    }
  }

  /** One more own recording writes exactly the keys of the paths it shows or takes away. */
  lemma StepWritesKeys(rank: Snapshot -> int, s: Store, source: SourceId, own: seq<OwnStep>, step: OwnStep,
          path: string)
    requires Tracks(s, source, own) && Following(source, own + [step])
    ensures WritesKeys(source, own, step, Taken(rank, s, step), path)
  {
    FollowingPrefix(source, own, step);
    match step {
      case Listing(c) =>
        if Recordable(c) {
          RecordedKeys(rank, s, c, path);
          AbsenceKeys(rank, s, source, own, c, path, Reconcile(rank, s, c, true).absences);
        } else {
          RejectedAppends(rank, s, c);
        }
      case Transfer(p) =>
        TransferAppends(s, p);
        assert RecordIncomplete(s, p).absences == [];
    }
  }
}
