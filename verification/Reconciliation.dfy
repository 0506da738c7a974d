/** Protocol-independent comparison of a source inventory with the recorded baseline. */
module Reconciliation {
  import opened Models
  import opened Ordering

  // ---- inventories (inventory.py) -----------------------------------------------------------

  /** The evidence a source gives for one item. Rsync's text is kept as its fields. */
  datatype TokenValue =
    | Text(text: string)
    | FileState(size: int, modified: string)
    | LinkState(target: string, modified: string)
    | KindState(kind: Kind, modified: string)

  datatype ChangeToken = ChangeToken(kind: string, value: TokenValue, strong: bool) {
    predicate EquivalentTo(other: Option<ChangeToken>) {
      && other.Some?
      && strong && other.value.strong
      && kind == other.value.kind
      && value == other.value.value
    }
  }

  datatype Coverage = Coverage(scope: seq<string>, complete: bool) {
    predicate Contains(path: Option<string>) {
      scope == [] || (path.Some? && exists item :: item in scope && Covers(Strip(item), Strip(path.value)))
    }
  }

  predicate Covers(item: string, path: string) {
    path == item || item + "/" <= path
  }

  datatype InventoryItem = InventoryItem(
    itemId: string, artifactKey: string, sourcePath: Option<string>, token: Option<ChangeToken>)

  datatype SourceInventory = SourceInventory(coverage: Coverage, items: seq<InventoryItem>) {
    /** What the constructor insists on. */
    predicate WellFormed() {
      && (forall i, j | 0 <= i < j < |items| :: items[i].itemId != items[j].itemId)
      && (forall i, j | 0 <= i < j < |items| :: items[i].artifactKey != items[j].artifactKey)
      && (forall item | item in items :: item.sourcePath.Some? ==> coverage.Contains(item.sourcePath))
    }
  }

  // ---- decisions (reconciliation.py) --------------------------------------------------------

  datatype PreviousItem = PreviousItem(
    itemId: string, artifactKey: string, content: Option<ContentId>,
    sourcePath: Option<string>, token: Option<ChangeToken>, kind: Kind)

  datatype State = New | Changed | Unchanged | Gone

  datatype Decision = Decision(
    state: State, itemId: string, artifactKey: string,
    current: Option<InventoryItem>, previous: Option<PreviousItem>)

  datatype ReconcileError = DuplicateBaseline | IdentityChanged(itemId: string)

  function PreviousMap(previous: seq<PreviousItem>): map<string, PreviousItem> {
    if previous == [] then map[]
    else
      var last := previous[|previous| - 1];
      PreviousMap(previous[..|previous| - 1])[last.itemId := last]
  }

  predicate DistinctIds(previous: seq<PreviousItem>) {
    forall i, j | 0 <= i < j < |previous| :: previous[i].itemId != previous[j].itemId
  }

  function ClassifyPresent(current: InventoryItem, previous: Option<PreviousItem>): Result<Decision, ReconcileError> {
    if previous.None? then
      Success(Decision(New, current.itemId, current.artifactKey, Some(current), None))
    else if previous.value.artifactKey != current.artifactKey then
      Failure(IdentityChanged(current.itemId))
    else if current.token.Some? && current.token.value.EquivalentTo(previous.value.token) then
      Success(Decision(Unchanged, current.itemId, current.artifactKey, Some(current), previous))
    else
      Success(Decision(Changed, current.itemId, current.artifactKey, Some(current), previous))
  }

  predicate DecisionLe(a: Decision, b: Decision) {
    if a.itemId == b.itemId then StateRank(a.state) <= StateRank(b.state) else TextLe(a.itemId, b.itemId)
  }

  /** The alphabetical order of "absent", "changed", "new", "unchanged". */
  function StateRank(state: State): int {
    match state case Gone => 0 case Changed => 1 case New => 2 case Unchanged => 3
  }

  predicate ItemLe(a: InventoryItem, b: InventoryItem) {
    TextLe(a.itemId, b.itemId)
  }

  lemma OrdersAreTotal()
    ensures TotalPreorder(DecisionLe) && TotalPreorder(ItemLe)
  {
    TextOrder();
  }

  // ---- what a reconciliation is, independently of how it is computed -------------------------

  ghost predicate Known(previous: seq<PreviousItem>, p: PreviousItem, id: string) {
    p in previous && p.itemId == id
  }

  /** One enumerated item gets exactly the state its evidence supports. */
  ghost predicate PresentDecision(d: Decision, inventory: SourceInventory, previous: seq<PreviousItem>) {
    && d.current.Some? && d.current.value in inventory.items
    && d.itemId == d.current.value.itemId
    && d.artifactKey == d.current.value.artifactKey
    && (d.previous.None? <==> forall p | p in previous :: p.itemId != d.itemId)
    && (d.previous.Some? ==>
      Known(previous, d.previous.value, d.itemId) && d.previous.value.artifactKey == d.artifactKey)
    && d.state == if d.previous.None? then New else if StrongMatch(d.current.value, d.previous.value) then Unchanged
      else Changed
  }

  ghost predicate StrongMatch(item: InventoryItem, p: PreviousItem) {
    && item.token.Some? && p.token.Some?
    && item.token.value == p.token.value && item.token.value.strong
  }

  ghost predicate Omitted(inventory: SourceInventory, p: PreviousItem) {
    && inventory.coverage.complete
    && inventory.coverage.Contains(p.sourcePath)
    && forall item | item in inventory.items :: item.itemId != p.itemId
  }

  ghost predicate AbsentDecision(d: Decision, inventory: SourceInventory, previous: seq<PreviousItem>) {
    && d.state == Gone && d.current.None? && d.previous.Some?
    && Known(previous, d.previous.value, d.itemId)
    && d.artifactKey == d.previous.value.artifactKey
    && Omitted(inventory, d.previous.value)
  }

  ghost predicate IsReconciliation(inventory: SourceInventory, previous: seq<PreviousItem>, ds: seq<Decision>) {
    && (forall i, j | 0 <= i < j < |ds| :: TextLe(ds[i].itemId, ds[j].itemId) && ds[i].itemId != ds[j].itemId)
    && (forall d | d in ds :: PresentDecision(d, inventory, previous) || AbsentDecision(d, inventory, previous))
    && (forall item | item in inventory.items :: exists d :: d in ds && d.current == Some(item))
    && (forall p | p in previous && Omitted(inventory, p) :: exists d ::
      d in ds && d.state == Gone && d.previous == Some(p))
  }

  ghost predicate IdentityConflict(inventory: SourceInventory, previous: seq<PreviousItem>) {
    exists item, p :: item in inventory.items && Known(previous, p, item.itemId) && p.artifactKey != item.artifactKey
  }

  // ---- the algorithm ------------------------------------------------------------------------

  lemma {:induction false} PreviousMapSound(previous: seq<PreviousItem>)
    requires DistinctIds(previous)
    ensures forall p | p in previous :: p.itemId in PreviousMap(previous) && PreviousMap(previous)[p.itemId] == p
    ensures forall id | id in PreviousMap(previous) :: Known(previous, PreviousMap(previous)[id], id)
  {
    if previous != [] {
      var init, last := previous[..|previous| - 1], previous[|previous| - 1];
      PreviousMapSound(init);
      assert previous == init + [last];
    }
  }

  /** A baseline lookup by id decides the present half of a reconciliation. */
  lemma {:induction false} ClassifyIsPresent(inventory: SourceInventory, previous: seq<PreviousItem>,
        item: InventoryItem)
    requires DistinctIds(previous) && item in inventory.items
    ensures
      var m := PreviousMap(previous);
      var r := ClassifyPresent(item, if item.itemId in m then Some(m[item.itemId]) else None);
      if r.Success? then r.value.current == Some(item) && PresentDecision(r.value, inventory, previous)
      else IdentityConflict(inventory, previous)
  {
    PreviousMapSound(previous);
  }

  lemma NoConflictWhenClassified(inventory: SourceInventory, previous: seq<PreviousItem>, ds: seq<Decision>)
    requires DistinctIds(previous)
    requires forall d | d in ds :: PresentDecision(d, inventory, previous)
    requires forall item | item in inventory.items :: exists d :: d in ds && d.current == Some(item)
    ensures !IdentityConflict(inventory, previous)
  {
    forall item, p | item in inventory.items && Known(previous, p, item.itemId)
      ensures p.artifactKey == item.artifactKey {
      var d :| d in ds && d.current == Some(item);
      assert d.previous.Some?;
    }
  }

  method AbsentDecisions(inventory: SourceInventory, currentIds: set<string>, previous: seq<PreviousItem>)
    returns (decisions: seq<Decision>)
    requires DistinctIds(previous)
    requires currentIds == set item | item in inventory.items :: item.itemId
    ensures forall d | d in decisions :: AbsentDecision(d, inventory, previous)
    ensures forall p | p in previous && Omitted(inventory, p) ::
              exists d :: d in decisions && d.state == Gone && d.previous == Some(p)
    ensures forall i, j | 0 <= i < j < |decisions| :: decisions[i].itemId != decisions[j].itemId
  {
    decisions := [];
    if !inventory.coverage.complete {
      return;
    }
    var i := 0;
    while i < |previous|
      invariant 0 <= i <= |previous|
      invariant forall d | d in decisions :: AbsentDecision(d, inventory, previous)
      invariant forall d | d in decisions :: exists k :: 0 <= k < i && previous[k].itemId == d.itemId
      invariant forall p | p in previous[..i] && Omitted(inventory, p) ::
                  exists d :: d in decisions && d.state == Gone && d.previous == Some(p)
      invariant forall a, b | 0 <= a < b < |decisions| :: decisions[a].itemId != decisions[b].itemId
    {
      var p := previous[i];
      ghost var before := decisions;
      if p.itemId !in currentIds && inventory.coverage.Contains(p.sourcePath) {
        assert Omitted(inventory, p);
        var d := Decision(Gone, p.itemId, p.artifactKey, None, Some(p));
        assert Known(previous, p, p.itemId);
        decisions := decisions + [d];
        assert d in decisions;
        assert forall e | e in before :: e in decisions;
      }
      i := i + 1;
    }
    assert previous[..i] == previous;
  }

  method ClassifyAll(inventory: SourceInventory, previous: seq<PreviousItem>) returns (r: Result<seq<Decision>,
        ReconcileError>)
    requires inventory.WellFormed() && DistinctIds(previous)
    ensures r.Failure? ==> IdentityConflict(inventory, previous)
    ensures r.Success? ==>
      && (forall d | d in r.value :: PresentDecision(d, inventory, previous))
      && (forall item | item in inventory.items :: exists d :: d in r.value && d.current == Some(item))
      && (forall i, j | 0 <= i < j < |r.value| :: r.value[i].itemId != r.value[j].itemId)
      && |r.value| == |inventory.items|
  {
    var byId := PreviousMap(previous);
    var items := Sort(inventory.items, ItemLe);
    SortProperties(inventory.items, ItemLe);
    SortedIdsDistinct(inventory, items);
    var ds: seq<Decision> := [];
    for i := 0 to |items|
      invariant |ds| == i
      invariant forall k | 0 <= k < i :: ds[k].current == Some(items[k]) && PresentDecision(ds[k], inventory, previous)
    {
      ClassifyIsPresent(inventory, previous, items[i]);
      var c := ClassifyPresent(items[i], if items[i].itemId in byId then Some(byId[items[i].itemId]) else None);
      if c.Failure? {
        return Failure(c.error);
      }
      ds := ds + [c.value];
    }
    forall item | item in inventory.items ensures exists d :: d in ds && d.current == Some(item) {
      var k :| 0 <= k < |items| && items[k] == item;
      assert ds[k] in ds;
    }
    r := Success(ds);
  }

  lemma SortedIdsDistinct(inventory: SourceInventory, items: seq<InventoryItem>)
    requires inventory.WellFormed() && multiset(items) == multiset(inventory.items)
    ensures forall i, j | 0 <= i < j < |items| :: items[i].itemId != items[j].itemId
  {
    var id := (item: InventoryItem) => item.itemId;
    assert DistinctBy(inventory.items, id);
    PermutationKeepsDistinct(inventory.items, items, id);
    forall i, j | 0 <= i < j < |items| ensures items[i].itemId != items[j].itemId {
      assert id(items[i]) != id(items[j]);
    }
  }

  method ReconcileInventory(inventory: SourceInventory, previous: seq<PreviousItem>)
    returns (r: Result<seq<Decision>, ReconcileError>)
    requires inventory.WellFormed()
    ensures r.Failure? <==> !DistinctIds(previous) || IdentityConflict(inventory, previous)
    ensures r.Success? ==> IsReconciliation(inventory, previous, r.value)
  {
    if !DistinctIds(previous) {
      return Failure(DuplicateBaseline);
    }
    var present := ClassifyAll(inventory, previous);
    if present.Failure? {
      return present;
    }
    NoConflictWhenClassified(inventory, previous, present.value);
    var absent := AbsentDecisions(inventory, set item | item in inventory.items :: item.itemId, previous);
    var decisions := present.value + absent;
    DistinctTogether(inventory, previous, present.value, absent);
    var sorted := Sort(decisions, DecisionLe);
    SortedStaysReconciliation(inventory, previous, decisions, sorted);
    r := Success(sorted);
  }

  lemma DistinctTogether(inventory: SourceInventory, previous: seq<PreviousItem>, present: seq<Decision>,
        absent: seq<Decision>)
    requires forall d | d in present :: PresentDecision(d, inventory, previous)
    requires forall d | d in absent :: AbsentDecision(d, inventory, previous)
    requires forall i, j | 0 <= i < j < |present| :: present[i].itemId != present[j].itemId
    requires forall i, j | 0 <= i < j < |absent| :: absent[i].itemId != absent[j].itemId
    ensures
      var ds := present + absent;
      forall i, j | 0 <= i < j < |ds| :: ds[i].itemId != ds[j].itemId
  {
    var ds := present + absent;
    forall i, j | 0 <= i < j < |ds| ensures ds[i].itemId != ds[j].itemId {
      if i < |present| <= j {
        assert present[i] in present && absent[j - |present|] in absent;
      }
    }
  }

  lemma {:induction false} SortedStaysReconciliation(inventory: SourceInventory, previous: seq<PreviousItem>,
        ds: seq<Decision>, sorted: seq<Decision>)
    requires sorted == Sort(ds, DecisionLe)
    requires forall i, j | 0 <= i < j < |ds| :: ds[i].itemId != ds[j].itemId
    requires forall d | d in ds :: PresentDecision(d, inventory, previous) || AbsentDecision(d, inventory, previous)
    requires forall item | item in inventory.items :: exists d :: d in ds && d.current == Some(item)
    requires forall p | p in previous && Omitted(inventory, p) :: exists d ::
        d in ds && d.state == Gone && d.previous == Some(p)
    ensures IsReconciliation(inventory, previous, sorted)
  {
    OrdersAreTotal();
    TextOrder();
    SortProperties(ds, DecisionLe);
    var id := (d: Decision) => d.itemId;
    assert DistinctBy(ds, id);
    PermutationKeepsDistinct(ds, sorted, id);
    forall i, j | 0 <= i < j < |sorted|
      ensures TextLe(sorted[i].itemId, sorted[j].itemId) && sorted[i].itemId != sorted[j].itemId {
      assert DecisionLe(sorted[i], sorted[j]);
      assert id(sorted[i]) != id(sorted[j]);
    }
  }

  // ---- consequences -------------------------------------------------------------------------

  /** Nothing is left to the implementation: inventory and baseline determine the decisions. */
  lemma ReconciliationIsUnique(inventory: SourceInventory, previous: seq<PreviousItem>, a: seq<Decision>,
        b: seq<Decision>)
    requires inventory.WellFormed() && DistinctIds(previous)
    requires IsReconciliation(inventory, previous, a) && IsReconciliation(inventory, previous, b)
    ensures a == b
  {
    SameDecisions(inventory, previous, a, b);
    SameDecisions(inventory, previous, b, a);
    TextOrder();
    StrictlySortedUnique(a, b, DecisionLe);
  }

  lemma SameDecisions(inventory: SourceInventory, previous: seq<PreviousItem>, a: seq<Decision>, b: seq<Decision>)
    requires inventory.WellFormed() && DistinctIds(previous)
    requires IsReconciliation(inventory, previous, a) && IsReconciliation(inventory, previous, b)
    ensures forall d | d in a :: d in b
  {
    forall d | d in a ensures d in b {
      if d.current.Some? {
        var e :| e in b && e.current == d.current;
        SamePresent(inventory, previous, d, e);
      } else {
        var e :| e in b && e.state == Gone && e.previous == d.previous;
        assert AbsentDecision(d, inventory, previous) && AbsentDecision(e, inventory, previous);
      }
    }
  }

  /** An item's decision is determined by the item. */
  lemma SamePresent(inventory: SourceInventory, previous: seq<PreviousItem>, d: Decision, e: Decision)
    requires DistinctIds(previous) && d.current.Some? && e.current == d.current
    requires PresentDecision(d, inventory, previous) || AbsentDecision(d, inventory, previous)
    requires PresentDecision(e, inventory, previous) || AbsentDecision(e, inventory, previous)
    ensures d == e
  {
    if d.previous.Some? && e.previous.Some? {
      var i :| 0 <= i < |previous| && previous[i] == d.previous.value;
      var j :| 0 <= j < |previous| && previous[j] == e.previous.value;
    }
  }

  function Count(ds: seq<Decision>, state: State): nat {
    if ds == [] then 0 else Count(ds[..|ds| - 1], state) + if ds[|ds| - 1].state == state then 1 else 0
  }

  /** The four counts add up to the decisions, and the present three to the enumerated items. */
  lemma {:induction false} CountsConserve(inventory: SourceInventory, previous: seq<PreviousItem>, ds: seq<Decision>)
    requires inventory.WellFormed() && IsReconciliation(inventory, previous, ds)
    ensures Count(ds, New) + Count(ds, Changed) + Count(ds, Unchanged) + Count(ds, Gone) == |ds|
    ensures Count(ds, New) + Count(ds, Changed) + Count(ds, Unchanged) == |inventory.items|
  {
    CountsSum(ds);
    var ids := set item | item in inventory.items :: item.itemId;
    PresentIds(ds);
    assert ids == PresentIdSet(ds) by {
      forall item | item in inventory.items ensures item.itemId in PresentIdSet(ds) {
        var d :| d in ds && d.current == Some(item);
        assert d.state != Gone && d.itemId == item.itemId;
      }
      forall id | id in PresentIdSet(ds) ensures id in ids {
        var d :| d in ds && d.state != Gone && d.itemId == id;
        assert PresentDecision(d, inventory, previous);
      }
    }
    ItemIds(inventory.items);
  }

  lemma {:induction false} CountsSum(ds: seq<Decision>)
    ensures Count(ds, New) + Count(ds, Changed) + Count(ds, Unchanged) + Count(ds, Gone) == |ds|
  {
    if ds != [] { CountsSum(ds[..|ds| - 1]); }
  }

  ghost function PresentIdSet(ds: seq<Decision>): set<string> {
    set d | d in ds && d.state != Gone :: d.itemId
  }

  lemma {:induction false} PresentIds(ds: seq<Decision>)
    requires forall i, j | 0 <= i < j < |ds| :: ds[i].itemId != ds[j].itemId
    ensures |PresentIdSet(ds)| == |ds| - Count(ds, Gone)
  {
    if ds != [] {
      var init, last := ds[..|ds| - 1], ds[|ds| - 1];
      PresentIds(init);
      assert ds == init + [last];
      if last.state == Gone {
        assert PresentIdSet(ds) == PresentIdSet(init);
      } else {
        assert PresentIdSet(ds) == PresentIdSet(init) + {last.itemId};
        assert last.itemId !in PresentIdSet(init);
      }
    } else {
      assert PresentIdSet(ds) == {};
    }
  }

  lemma {:induction false} ItemIds(items: seq<InventoryItem>)
    requires forall i, j | 0 <= i < j < |items| :: items[i].itemId != items[j].itemId
    ensures |set item | item in items :: item.itemId| == |items|
  {
    if items != [] {
      var init, last := items[..|items| - 1], items[|items| - 1];
      ItemIds(init);
      assert items == init + [last];
      assert (set item | item in items :: item.itemId) == (set item | item in init :: item.itemId) + {last.itemId};
    } else {
      assert (set item | item in items :: item.itemId) == {};
    }
  }
}
