/** What the decisions of a reconciliation mean for the loops that record a listing. */
module Decisions {
  import opened Models
  import opened Ordering
  import opened Reconciliation
  import opened Store
  import opened Rsync
  import opened Agreement

  // ---- a valid listing is a well-formed inventory ---------------------------------------------

  /** The two scope tests differ on leading slashes; a path the first accepts, the second accepts. */
  lemma InScopeIsCovered(path: string, scope: seq<string>)
    requires PathInScope(path, scope)
    ensures Coverage(scope, true).Contains(Some(path))
  {
    if scope != [] {
      var item :| item in scope && Covers(StripRight(item), Strip(path));
      var kept := StripRight(item);
      assert kept != [] ==> Strip(path)[0] == kept[0];
      assert StripLeft(kept) == kept;
      assert Covers(Strip(item), Strip(path));
    }
  }

  lemma ListingIsWellFormed(req: Request)
    requires Recordable(req)
    ensures ToSourceInventory(req.source, req.inventory).WellFormed()
  {
    var es, inventory := req.inventory.entries, ToSourceInventory(req.source, req.inventory);
    forall i, j | 0 <= i < j < |es|
      ensures inventory.items[i].itemId != inventory.items[j].itemId
      ensures inventory.items[i].artifactKey != inventory.items[j].artifactKey
    {
      PathKeyInjective(req.source, es[i].path, es[j].path);
    }
    forall item | item in inventory.items
      ensures item.sourcePath.Some? && inventory.coverage.Contains(item.sourcePath) {
      var i :| 0 <= i < |es| && inventory.items[i] == item;
      assert es[i] in es;
      InScopeIsCovered(es[i].path, req.inventory.scope);
    }
  }

  // ---- the baseline never makes a listing fail ------------------------------------------------

  predicate PreviousLe(a: PreviousItem, b: PreviousItem) { TextLe(a.itemId, b.itemId) }

  ghost predicate FromEntries(source: SourceId, items: seq<PreviousItem>, entries: seq<TreeEntry>) {
    forall p | p in items :: IsPrevious(source, p, entries)
  }

  ghost predicate IsPrevious(source: SourceId, p: PreviousItem, entries: seq<TreeEntry>) {
    exists t :: t in entries && p == PreviousOf(source, t)
  }

  lemma {:induction false} PreviousItemsOrdered(source: SourceId, entries: seq<TreeEntry>, scope: seq<string>)
    requires DistinctPaths(entries) && Sorted(entries, EntryLe)
    ensures FromEntries(source, PreviousFrom(source, entries, scope), entries)
    ensures StrictlySorted(PreviousFrom(source, entries, scope), PreviousLe)
  {
    if entries != [] {
      var init, last := entries[..|entries| - 1], entries[|entries| - 1];
      PreviousItemsOrdered(source, init, scope);
      var items := PreviousFrom(source, init, scope);
      assert entries == init + [last];
      forall p | p in items
        ensures IsPrevious(source, p, entries) && TextLe(p.itemId, last.path) && !TextLe(last.path, p.itemId) {
        assert IsPrevious(source, p, init);
        var t :| t in init && p == PreviousOf(source, t);
        assert t in entries;
        var k :| 0 <= k < |init| && init[k] == t;
        assert EntryLe(entries[k], entries[|init|]);
        TextOrder();
      }
      assert last in entries;
    }
  }

  lemma BaselineOrdered(rank: Snapshot -> int, s: Store, source: SourceId, scope: seq<string>)
    requires TreesWellFormed(s)
    ensures FromEntries(source, PreviousItems(rank, s, source, scope), BaselineEntries(rank, s, source, scope))
    ensures StrictlySorted(PreviousItems(rank, s, source, scope), PreviousLe)
    ensures DistinctIds(PreviousItems(rank, s, source, scope))
  {
    PreviousItemsOrdered(source, BaselineEntries(rank, s, source, scope), scope);
    var items := PreviousItems(rank, s, source, scope);
    forall i, j | 0 <= i < j < |items| ensures items[i].itemId != items[j].itemId {
      assert PreviousLe(items[i], items[j]) && !PreviousLe(items[j], items[i]);
    }
  }

  /** Whatever was recorded before, comparing a valid listing with it cannot fail. */
  lemma BaselineIsDecidable(rank: Snapshot -> int, s: Store, req: Request)
    requires TreesWellFormed(s)
    ensures
      var items := PreviousItems(rank, s, req.source, req.inventory.scope);
      DistinctIds(items) && !IdentityConflict(ToSourceInventory(req.source, req.inventory), items)
  {
    var scope := req.inventory.scope;
    BaselineOrdered(rank, s, req.source, scope);
    var items, entries := PreviousItems(rank, s, req.source, scope), BaselineEntries(rank, s, req.source, scope);
    forall p | p in items ensures p.artifactKey == PathKey(req.source, p.itemId) {
      assert IsPrevious(req.source, p, entries);
    }
  }

  // ---- looking a decision up by path ----------------------------------------------------------

  function ById(decisions: seq<Decision>): map<string, Decision> {
    if decisions == [] then map[]
    else
      var last := decisions[|decisions| - 1];
      ById(decisions[..|decisions| - 1])[last.itemId := last]
  }

  lemma {:induction false} ByIdFinds(decisions: seq<Decision>)
    requires forall i, j | 0 <= i < j < |decisions| :: decisions[i].itemId != decisions[j].itemId
    ensures forall d | d in decisions :: d.itemId in ById(decisions) && ById(decisions)[d.itemId] == d
  {
    if decisions != [] {
      var init, last := decisions[..|decisions| - 1], decisions[|decisions| - 1];
      ByIdFinds(init);
      assert decisions == init + [last];
    }
  }

  /** The decision an entry is recorded under: the baseline's item and whether evidence matches it. */
  ghost predicate Decides(source: SourceId, d: Decision, e: Entry, previous: map<string, PreviousItem>) {
    && d.previous == Lookup(previous, e.path)
    && (d.state == Unchanged <==> IsUnchanged(e, d.previous))
    && d.artifactKey == PathKey(source, e.path)
  }

  ghost predicate EveryEntryDecided(source: SourceId, es: seq<Entry>, decisions: map<string, Decision>,
        previous: map<string, PreviousItem>)
  {
    forall e | e in es :: e.path in decisions && Decides(source, decisions[e.path], e, previous)
  }

  lemma {:induction false} DecisionsCoverEntries(req: Request, items: seq<PreviousItem>, decisions: seq<Decision>)
    requires Recordable(req) && DistinctIds(items)
    requires IsReconciliation(ToSourceInventory(req.source, req.inventory), items, decisions)
    ensures EveryEntryDecided(req.source, req.inventory.entries, ById(decisions), PreviousMap(items))
  {
    var inventory := ToSourceInventory(req.source, req.inventory);
    ByIdFinds(decisions);
    PreviousMapSound(items);
    var es := req.inventory.entries;
    forall e | e in es
      ensures e.path in ById(decisions) && Decides(req.source, ById(decisions)[e.path], e, PreviousMap(items)) {
      var i :| 0 <= i < |es| && es[i] == e;
      var item := inventory.items[i];
      assert item in inventory.items && item == ItemOf(req.source, e);
      var d :| d in decisions && d.current == Some(item);
      assert PresentDecision(d, inventory, items);
    }
  }

  // ---- the absences of a reconciliation -------------------------------------------------------

  predicate IsVanishedFile(d: Decision) {
    d.state == Gone && d.previous.Some? && d.previous.value.kind == File
  }

  function VanishedFiles(decisions: seq<Decision>): seq<PreviousItem> {
    if decisions == [] then []
    else
      var last := decisions[|decisions| - 1];
      VanishedFiles(decisions[..|decisions| - 1]) + if IsVanishedFile(last) then [last.previous.value] else []
  }

  ghost predicate ForFile(decisions: seq<Decision>, p: PreviousItem) {
    exists d :: d in decisions && IsVanishedFile(d) && d.previous.value == p
  }

  lemma {:induction false} VanishedMember(decisions: seq<Decision>)
    ensures forall p :: p in VanishedFiles(decisions) <==> ForFile(decisions, p)
  {
    if decisions != [] {
      var init, last := decisions[..|decisions| - 1], decisions[|decisions| - 1];
      VanishedMember(init);
      assert decisions == init + [last];
      forall p ensures p in VanishedFiles(decisions) <==> ForFile(decisions, p) {
        assert ForFile(decisions, p) <==> ForFile(init, p) || (IsVanishedFile(last) && last.previous.value == p) by {
          assert forall d :: d in decisions <==> d in init || d == last;
        }
      }
    }
  }

  ghost predicate OrderedIds(decisions: seq<Decision>) {
    forall i, j | 0 <= i < j < |decisions| ::
      TextLe(decisions[i].itemId, decisions[j].itemId) && decisions[i].itemId != decisions[j].itemId
  }

  lemma EarlierVanished(init: seq<Decision>, last: Decision, p: PreviousItem)
    requires OrderedIds(init + [last]) && ForFile(init, p)
    requires forall d | d in init && IsVanishedFile(d) :: d.itemId == d.previous.value.itemId
    ensures TextLe(p.itemId, last.itemId) && !TextLe(last.itemId, p.itemId)
  {
    var d :| d in init && IsVanishedFile(d) && d.previous.value == p;
    var k :| 0 <= k < |init| && init[k] == d;
    assert (init + [last])[k] == d && (init + [last])[|init|] == last;
    TextOrder();
  }

  lemma {:induction false} VanishedOrdered(decisions: seq<Decision>)
    requires OrderedIds(decisions)
    requires forall d | d in decisions && IsVanishedFile(d) :: d.itemId == d.previous.value.itemId
    ensures StrictlySorted(VanishedFiles(decisions), PreviousLe)
  {
    if decisions != [] {
      var init, last := decisions[..|decisions| - 1], decisions[|decisions| - 1];
      assert decisions == init + [last];
      VanishedOrdered(init);
      VanishedMember(init);
      if IsVanishedFile(last) {
        forall p | p in VanishedFiles(init)
          ensures PreviousLe(p, last.previous.value) && !PreviousLe(last.previous.value, p) {
          EarlierVanished(init, last, p);
        }
      }
    }
  }

  lemma {:induction false} GoneOrdered(inventory: Inventory, items: seq<PreviousItem>)
    requires StrictlySorted(items, PreviousLe)
    ensures StrictlySorted(GoneFiles(inventory, items), PreviousLe)
  {
    if items != [] {
      var init, last := items[..|items| - 1], items[|items| - 1];
      GoneOrdered(inventory, init);
      GoneMember(inventory, init);
      forall p | p in GoneFiles(inventory, init) ensures PreviousLe(p, last) && !PreviousLe(last, p) {
        var k :| 0 <= k < |init| && init[k] == p;
        assert items[k] == p;
      }
    }
  }

  /** The decisions and the direct reading of the baseline name the same vanished files in the same order. */
  lemma {:induction false} VanishedIsGone(rank: Snapshot -> int, s: Store, req: Request, decisions: seq<Decision>)
    requires TreesWellFormed(s) && Recordable(req)
    requires IsReconciliation(ToSourceInventory(req.source, req.inventory),
        PreviousItems(rank, s, req.source, req.inventory.scope), decisions)
    ensures VanishedFiles(decisions)
        == GoneFiles(req.inventory, PreviousItems(rank, s, req.source, req.inventory.scope))
  {
    var items := PreviousItems(rank, s, req.source, req.inventory.scope);
    BaselineOrdered(rank, s, req.source, req.inventory.scope);
    VanishedOrdered(decisions);
    VanishedMember(decisions);
    GoneOrdered(req.inventory, items);
    GoneMember(req.inventory, items);
    forall p ensures p in VanishedFiles(decisions) <==> p in GoneFiles(req.inventory, items) {
      OmittedIsGone(req, items, decisions, p);
    }
    StrictlySortedUnique(VanishedFiles(decisions), GoneFiles(req.inventory, items), PreviousLe);
  }

  lemma OmittedFromBoth(req: Request, p: PreviousItem)
    ensures (forall item | item in ToSourceInventory(req.source, req.inventory).items :: item.itemId != p.itemId) <==>
      (forall e | e in req.inventory.entries :: e.path != p.itemId)
  {
    var inventory, es := ToSourceInventory(req.source, req.inventory), req.inventory.entries;
    if i :| 0 <= i < |es| && es[i].path == p.itemId { assert inventory.items[i] in inventory.items; }
    forall item | item in inventory.items ensures exists i :: 0 <= i < |es| && es[i].path == item.itemId {
      var i :| 0 <= i < |es| && inventory.items[i] == item;
    }
  }

  lemma OmittedIsGone(req: Request, items: seq<PreviousItem>, decisions: seq<Decision>, p: PreviousItem)
    requires Recordable(req)
    requires IsReconciliation(ToSourceInventory(req.source, req.inventory), items, decisions)
    ensures ForFile(decisions, p) <==> p in items && IsGone(req.inventory, p)
  {
    var inventory := ToSourceInventory(req.source, req.inventory);
    OmittedFromBoth(req, p);
    if ForFile(decisions, p) {
      var d :| d in decisions && IsVanishedFile(d) && d.previous.value == p;
      assert AbsentDecision(d, inventory, items);
    }
    if p in items && IsGone(req.inventory, p) {
      assert Omitted(inventory, p);
      var d :| d in decisions && d.state == Gone && d.previous == Some(p);
      assert IsVanishedFile(d);
    }
  }

  // ---- stepping and stopping the recording loops ----------------------------------------------

  lemma {:induction false} StaysFailed(s: Store, req: Request, es: seq<Entry>, previous: map<string, PreviousItem>,
        k: nat)
    requires Mirrored(req, es) && k <= |es| && RecordEntries(s, req, es[..k], previous, true).error.Some?
    ensures RecordEntries(s, req, es, previous, true) == RecordEntries(s, req, es[..k], previous, true)
  {
    if k == |es| {
      assert es[..k] == es;
    } else {
      var init := es[..|es| - 1];
      assert init[..k] == es[..k];
      StaysFailed(s, req, init, previous, k);
    }
  }

  lemma {:induction false} AbsencesStayFailed(s: Store, req: Request, gone: seq<PreviousItem>, k: nat)
    requires k <= |gone| && RecordAbsences(s, req, gone[..k]).error.Some?
    ensures RecordAbsences(s, req, gone) == RecordAbsences(s, req, gone[..k])
  {
    if k == |gone| {
      assert gone[..k] == gone;
    } else {
      assert gone[..|gone| - 1][..k] == gone[..k];
      AbsencesStayFailed(s, req, gone[..|gone| - 1], k);
    }
  }

  lemma {:induction false} VanishedPrefix(decisions: seq<Decision>, k: nat)
    requires k <= |decisions|
    ensures VanishedFiles(decisions[..k]) <= VanishedFiles(decisions)
  {
    if k == |decisions| {
      assert decisions[..k] == decisions;
    } else {
      assert decisions[..|decisions| - 1][..k] == decisions[..k];
      VanishedPrefix(decisions[..|decisions| - 1], k);
    }
  }

  lemma {:induction false} VanishedStep(s: Store, req: Request, decisions: seq<Decision>, i: nat)
    requires i < |decisions|
    ensures
      var before, after := RecordAbsences(s, req, VanishedFiles(decisions[..i])),
        RecordAbsences(s, req, VanishedFiles(decisions[..i + 1]));
      after == if IsVanishedFile(decisions[i]) then RecordGone(before, req, decisions[i].previous.value) else before
  {
    assert decisions[..i + 1][..i] == decisions[..i];
    var gone := VanishedFiles(decisions[..i]);
    if IsVanishedFile(decisions[i]) {
      var p := decisions[i].previous.value;
      assert (gone + [p])[..|gone|] == gone;
      assert VanishedFiles(decisions[..i + 1]) == gone + [p];
    } else {
      assert VanishedFiles(decisions[..i + 1]) == gone;
    }
  }

  lemma {:induction false} VanishedStop(s: Store, req: Request, decisions: seq<Decision>, k: nat)
    requires k <= |decisions| && RecordAbsences(s, req, VanishedFiles(decisions[..k])).error.Some?
    ensures RecordAbsences(s, req, VanishedFiles(decisions)) == RecordAbsences(s, req, VanishedFiles(decisions[..k]))
  {
    VanishedPrefix(decisions, k);
    assert VanishedFiles(decisions)[..|VanishedFiles(decisions[..k])|] == VanishedFiles(decisions[..k]);
    AbsencesStayFailed(s, req, VanishedFiles(decisions), |VanishedFiles(decisions[..k])|);
  }

  lemma VanishedKeepKeys(req: Request, items: seq<PreviousItem>, decisions: seq<Decision>)
    requires IsReconciliation(ToSourceInventory(req.source, req.inventory), items, decisions)
    ensures forall d | d in decisions && IsVanishedFile(d) :: d.artifactKey == d.previous.value.artifactKey
  {
  }
}
