/**
 * Resolving a dataset definition to exact members under its constraints (datasets.py, dataset_selectors.py,
 * dataset_constraints.py).
 */
module Datasets {
  import opened Models
  import opened Ordering
  import opened Store
  import opened Rsync
  import opened Resolver
  import opened Agreement

  // ---- the repository with its validations ----------------------------------------------------------

  datatype Validation = Validation(content: ContentId, validator: string, version: string, at: Time, status: string) {
    /** The primary key of the validation table. */
    predicate SameKey(other: Validation) {
      content == other.content && validator == other.validator && version == other.version && at == other.at
    }
  }

  datatype Repo = Repo(store: Store, validations: seq<Validation>)

  const EMPTY_REPO := Repo(EMPTY, [])

  datatype Event = Step(action: Action) | Validate(row: Validation)

  /** A row with the same key is replaced. */
  function PutValidation(rows: seq<Validation>, v: Validation): seq<Validation> {
    if rows == [] then [v]
    else if rows[|rows| - 1].SameKey(v) then rows[..|rows| - 1] + [v]
    else PutValidation(rows[..|rows| - 1], v) + [rows[|rows| - 1]]
  }

  function ValidatedContents(rows: seq<Validation>): set<ContentId> { set v | v in rows :: v.content }

  /** Validated content is referenced content: a cleanup keeps it. */
  ghost function Happens(rank: Snapshot -> int, repo: Repo, event: Event): Repo {
    match event
    case Validate(v) =>
      if v.content !in repo.store.contents then repo
      else repo.(validations := PutValidation(repo.validations, v))
    case Step(Cleanup(rows, files)) =>
      repo.(store := Perform(rank, repo.store, Cleanup(rows - ValidatedContents(repo.validations), files)))
    case Step(action) => repo.(store := Perform(rank, repo.store, action))
  }

  ghost function HappenAll(rank: Snapshot -> int, repo: Repo, events: seq<Event>): Repo {
    if events == [] then repo
    else Happens(rank, HappenAll(rank, repo, events[..|events| - 1]), events[|events| - 1])
  }

  /** The newest result of a validator on some content. */
  function Newest(rows: seq<Validation>, content: ContentId, validator: string, version: string): Option<Validation> {
    if rows == [] then None
    else
      var prior, last := Newest(rows[..|rows| - 1], content, validator, version), rows[|rows| - 1];
      if last.content == content && last.validator == validator && last.version == version
         && (prior.None? || last.at >= prior.value.at)
      then Some(last) else prior
  }

  predicate Passing(repo: Repo, content: ContentId, required: (string, string)) {
    var newest := Newest(repo.validations, content, required.0, required.1);
    newest.Some? && newest.value.status == "passed"
  }

  // ---- definitions ----------------------------------------------------------------------------------

  /** What the source definition an observation was made under says about it. */
  datatype Labels = Labels(role: Option<string>, tags: set<string>)

  datatype Filter = Filter(source: Option<SourceId>, role: Option<string>, tags: set<string>, prefix: string,
          after: Option<Time>)

  datatype Selector =
    | Exact(id: ObservationId)
    | LatestOf(artifactKey: string, before: Option<Time>)
    | LatestAll(before: Option<Time>)
    | Sources(filter: Filter, before: Option<Time>)
    | ExactSnapshot(snapshot: Snapshot)
    | LatestComplete(source: SourceId, before: Option<Time>)

  datatype Selection = Selection(selector: Selector, role: Option<string>)

  datatype Constraints = Constraints(
    sameRun: bool, maxSkew: Option<nat>, completeSnapshots: bool, validations: seq<(string, string)>)

  datatype Definition = Definition(selections: seq<Selection>, constraints: Constraints)

  datatype CheckResult =
    | SameRun(passed: bool)
    | Skew(actual: int, passed: bool)
    | CompleteSnapshot(observation: ObservationId, snapshots: set<Snapshot>, passed: bool)
    | Validated(observation: ObservationId, required: (string, string), passed: bool, evidence: Option<Validation>)

  datatype DatasetError =
    | Unknown | SnapshotFails(error: ResolveError) | Reversed | UndefinedSource(id: ObservationId) | Repeated
    | NoSnapshotEvidence | ConstraintFailed(results: seq<CheckResult>)

  /**
   * The orders that break ties: snapshot ids, observation ids, and observation ids as text; and the labels of
   * an observation, or nothing when the definition revision it was made under is unknown.
   */
  datatype Ranks = Ranks(
    snapshots: Snapshot -> int, states: ObservationId -> int, idText: ObservationId -> string,
    labels: ObservationId -> Option<Labels>)

  // ---- selectors --------------------------------------------------------------------------------

  predicate NotAfter(at: Time, before: Option<Time>) { before.None? || at <= before.value }

  function ObservationsUpTo(rows: seq<Observation>, before: Option<Time>): seq<Observation> {
    if rows == [] then []
    else
      var last := rows[|rows| - 1];
      ObservationsUpTo(rows[..|rows| - 1], before) + if NotAfter(last.at, before) then [last] else []
  }

  function AbsencesUpTo(rows: seq<Absence>, before: Option<Time>): seq<Absence> {
    if rows == [] then []
    else
      var last := rows[|rows| - 1];
      AbsencesUpTo(rows[..|rows| - 1], before) + if NotAfter(last.at, before) then [last] else []
  }

  function StateBefore(rank: ObservationId -> int, s: Store, key: string, before: Option<Time>): Latest {
    LatestState(rank,
      s.(observations := ObservationsUpTo(s.observations, before), absences := AbsencesUpTo(s.absences, before)), key)
  }

  function AddKey(keys: seq<string>, key: string): seq<string> { if key in keys then keys else keys + [key] }

  function KeysOf(rows: seq<Observation>): seq<string> {
    if rows == [] then [] else AddKey(KeysOf(rows[..|rows| - 1]), rows[|rows| - 1].artifactKey)
  }

  /** Every artifact ever observed, in the order of the keys; one that is only absent has no state to select. */
  function ArtifactKeys(s: Store): seq<string> { SortText(KeysOf(s.observations)) }

  function LatestStates(ranks: Ranks, s: Store, keys: seq<string>, before: Option<Time>): seq<Observation> {
    if keys == [] then []
    else
      var state := StateBefore(ranks.states, s, keys[|keys| - 1], before);
      LatestStates(ranks, s, keys[..|keys| - 1], before) + if state.Seen? then [state.observation] else []
  }

  /** Whether an observation passes the filter; asking for a role or tags needs the definition it was made under. */
  function Passes(ranks: Ranks, filter: Filter, o: Observation): Result<bool, DatasetError> {
    if filter.source.Some? && o.source != filter.source then Success(false)
    else if filter.after.Some? && o.at < filter.after.value then Success(false)
    else if filter.role.None? && filter.tags == {} then Success(true)
    else
      var labels := ranks.labels(o.Id());
      if o.source.None? || labels.None? then Failure(UndefinedSource(o.Id()))
      else Success((filter.role.None? || labels.value.role == filter.role) && filter.tags <= labels.value.tags)
  }

  function Filtered(ranks: Ranks, filter: Filter, rows: seq<Observation>): Result<seq<Observation>, DatasetError> {
    if rows == [] then Success([])
    else
      var front, last := Filtered(ranks, filter, rows[..|rows| - 1]), rows[|rows| - 1];
      if front.Failure? || !(filter.prefix <= last.artifactKey) then front
      else
        var kept := Passes(ranks, filter, last);
        if kept.Failure? then Failure(kept.error) else Success(front.value + if kept.value then [last] else [])
  }

  function FirstComplete(snapshots: seq<Snapshot>, before: Option<Time>): Option<Snapshot> {
    if snapshots == [] then None
    else if snapshots[0].complete && NotAfter(snapshots[0].at, before) then Some(snapshots[0])
    else FirstComplete(snapshots[1..], before)
  }

  /** The latest complete snapshot is looked up once and then selected exactly. */
  function Pin(ranks: Ranks, s: Store, selector: Selector): Result<Selector, DatasetError> {
    if !selector.LatestComplete? then Success(selector)
    else
      var found := FirstComplete(SnapshotsFor(ranks.snapshots, s, selector.source), selector.before);
      if found.None? then Failure(Unknown) else Success(ExactSnapshot(found.value))
  }

  function Select(ranks: Ranks, s: Store, selector: Selector): Result<seq<Observation>, DatasetError> {
    match selector
    case Exact(id) =>
      var row := FindRow(s.observations, id);
      if row.None? then Failure(Unknown) else Success([row.value])
    case LatestOf(key, before) =>
      var state := StateBefore(ranks.states, s, key, before);
      if state.Seen? then Success([state.observation]) else Failure(Unknown)
    case LatestAll(before) => Success(LatestStates(ranks, s, ArtifactKeys(s), before))
    case Sources(filter, before) =>
      if filter.after.Some? && before.Some? && filter.after.value > before.value then Failure(Reversed)
      else Filtered(ranks, filter, LatestStates(ranks, s, ArtifactKeys(s), before))
    case ExactSnapshot(x) =>
      if x !in s.snapshots then Failure(Unknown)
      else
        var rows := SnapshotObservations(s, x);
        if rows.Failure? then Failure(SnapshotFails(rows.error)) else Success(rows.value)
    case LatestComplete(source, before) =>
      Failure(Unknown)  // never reached: such a selector has been pinned
  }

  // ---- resolution -------------------------------------------------------------------------------

  datatype Picked = Picked(observation: Observation, role: Option<string>)

  datatype Gathered = Gathered(picked: seq<Picked>, snapshots: seq<Snapshot>)

  function WithRole(rows: seq<Observation>, role: Option<string>): seq<Picked> {
    seq(|rows|, i requires 0 <= i < |rows| => Picked(rows[i], role))
  }

  function GatherOne(ranks: Ranks, s: Store, selection: Selection): Result<Gathered, DatasetError> {
    var pinned := Pin(ranks, s, selection.selector);
    if pinned.Failure? then Failure(pinned.error)
    else
      var rows := Select(ranks, s, pinned.value);
      if rows.Failure? then Failure(rows.error)
      else
        Success(Gathered(WithRole(rows.value, selection.role),
                         if pinned.value.ExactSnapshot? then [pinned.value.snapshot] else []))
  }

  function Gather(ranks: Ranks, s: Store, selections: seq<Selection>): Result<Gathered, DatasetError> {
    if selections == [] then Success(Gathered([], []))
    else
      var front := Gather(ranks, s, selections[..|selections| - 1]);
      if front.Failure? then front
      else
        var last := GatherOne(ranks, s, selections[|selections| - 1]);
        if last.Failure? then last
        else Success(Gathered(front.value.picked + last.value.picked, front.value.snapshots + last.value.snapshots))
  }

  function RoleText(role: Option<string>): string { if role.Some? then role.value else "" }

  predicate PickedLe(idText: ObservationId -> string, a: Picked, b: Picked) {
    if a.observation.artifactKey != b.observation.artifactKey
      then TextLe(a.observation.artifactKey, b.observation.artifactKey)
    else if RoleText(a.role) != RoleText(b.role) then TextLe(RoleText(a.role), RoleText(b.role))
    else TextLe(idText(a.observation.Id()), idText(b.observation.Id()))
  }

  function Order(idText: ObservationId -> string): (Picked, Picked) -> bool {
    (a: Picked, b: Picked) => PickedLe(idText, a, b)
  }

  predicate KeysDiffer(picked: seq<Picked>) {
    forall i, j | 0 <= i < j < |picked| :: picked[i].observation.artifactKey != picked[j].observation.artifactKey
  }

  datatype Member = Member(artifactKey: string, observation: ObservationId, content: ContentId, role: Option<string>)

  function MemberOf(p: Picked): Member {
    Member(p.observation.artifactKey, p.observation.Id(), p.observation.content, p.role)
  }

  function Members(picked: seq<Picked>): seq<Member> {
    seq(|picked|, i requires 0 <= i < |picked| => MemberOf(picked[i]))
  }

  function Observed(picked: seq<Picked>): seq<Observation> {
    seq(|picked|, i requires 0 <= i < |picked| => picked[i].observation)
  }

  /** A dataset id digests keys, observations and roles; a content identity digests keys, contents and roles. */
  datatype DatasetId = DatasetId(payload: seq<(string, ObservationId, Option<string>)>)

  datatype ContentIdentity = ContentIdentity(payload: seq<(string, ContentId, Option<string>)>)

  datatype Manifest = Manifest(members: seq<Member>, snapshots: set<Snapshot>, results: seq<CheckResult>) {
    function Id(): DatasetId {
      DatasetId(seq(|members|, i requires 0 <= i < |members| =>
        (members[i].artifactKey, members[i].observation, members[i].role)))
    }
    function Content(): ContentIdentity {
      ContentIdentity(seq(|members|, i requires 0 <= i < |members| =>
        (members[i].artifactKey, members[i].content, members[i].role)))
    }
  }

  function SnapshotSet(snapshots: seq<Snapshot>): set<Snapshot> { set x | x in snapshots }

  // ---- constraints ----------------------------------------------------------------------------------

  function Earliest(rows: seq<Observation>): Time
    requires rows != []
  {
    if |rows| == 1 then rows[0].at
    else
      var first := Earliest(rows[..|rows| - 1]);
      if rows[|rows| - 1].at < first then rows[|rows| - 1].at else first
  }

  function LatestTime(rows: seq<Observation>): Time
    requires rows != []
  {
    if |rows| == 1 then rows[0].at
    else
      var first := LatestTime(rows[..|rows| - 1]);
      if rows[|rows| - 1].at > first then rows[|rows| - 1].at else first
  }

  function SkewOf(rows: seq<Observation>): int { if rows == [] then 0 else LatestTime(rows) - Earliest(rows) }

  predicate OneRun(rows: seq<Observation>) { forall i | 0 <= i < |rows| :: rows[i].run == rows[0].run }

  predicate PairLe(a: (string, string), b: (string, string)) {
    if a.0 != b.0 then TextLe(a.0, b.0) else TextLe(a.1, b.1)
  }

  function Distinct(pairs: seq<(string, string)>): seq<(string, string)> {
    if pairs == [] then []
    else
      var front, last := Distinct(pairs[..|pairs| - 1]), pairs[|pairs| - 1];
      if last in front then front else front + [last]
  }

  /** The required validators, each once, in order. */
  function Required(c: Constraints): seq<(string, string)> { Sort(Distinct(c.validations), PairLe) }

  /** The complete snapshots of the observation's source and run that resolve to members it is among. */
  function SnapshotsWith(s: Store, o: Observation): set<Snapshot> {
    set x | x in s.snapshots && HoldsMember(s, x, o)
  }

  predicate HoldsMember(s: Store, x: Snapshot, o: Observation) {
    && Some(x.source) == o.source && x.complete && x.run == o.run
    && SnapshotObservations(s, x).Success? && o in SnapshotObservations(s, x).value
  }

  function SnapshotCheck(s: Store, o: Observation): CheckResult {
    CompleteSnapshot(o.Id(), SnapshotsWith(s, o), SnapshotsWith(s, o) != {})
  }

  function ValidationCheck(repo: Repo, o: Observation, required: (string, string)): CheckResult {
    Validated(o.Id(), required, Passing(repo, o.content, required),
      Newest(repo.validations, o.content, required.0, required.1))
  }

  function ObservationChecks(repo: Repo, c: Constraints, o: Observation): seq<CheckResult> {
    (if c.completeSnapshots then [SnapshotCheck(repo.store, o)] else [])
    + seq(|Required(c)|, i requires 0 <= i < |Required(c)| => ValidationCheck(repo, o, Required(c)[i]))
  }

  function EachChecked(repo: Repo, c: Constraints, rows: seq<Observation>): seq<CheckResult> {
    if rows == [] then []
    else EachChecked(repo, c, rows[..|rows| - 1]) + ObservationChecks(repo, c, rows[|rows| - 1])
  }

  function WholeChecks(c: Constraints, rows: seq<Observation>): seq<CheckResult> {
    (if c.sameRun then [SameRun(OneRun(rows))] else [])
    + if c.maxSkew.Some? then [Skew(SkewOf(rows), 0 <= SkewOf(rows) <= c.maxSkew.value)] else []
  }

  function Check(repo: Repo, c: Constraints, rows: seq<Observation>): seq<CheckResult> {
    WholeChecks(c, rows) + EachChecked(repo, c, rows)
  }

  predicate AllPassed(results: seq<CheckResult>) { forall r | r in results :: r.passed }

  function Resolve(ranks: Ranks, repo: Repo, d: Definition): Result<Manifest, DatasetError> {
    var gathered := Gather(ranks, repo.store, d.selections);
    if gathered.Failure? then Failure(gathered.error)
    else
      var picked := Sort(gathered.value.picked, Order(ranks.idText));
      var results := Check(repo, d.constraints, Observed(picked));
      if !KeysDiffer(picked) then Failure(Repeated)
      else if picked == [] && d.constraints.completeSnapshots && gathered.value.snapshots == []
        then Failure(NoSnapshotEvidence)
      else if !AllPassed(results) then Failure(ConstraintFailed(results))
      else Success(Manifest(Members(picked), SnapshotSet(gathered.value.snapshots), results))
  }

  lemma {:induction false} GatherStaysFailed(ranks: Ranks, s: Store, selections: seq<Selection>, k: nat)
    requires k <= |selections| && Gather(ranks, s, selections[..k]).Failure?
    ensures Gather(ranks, s, selections) == Gather(ranks, s, selections[..k])
  {
    if k == |selections| {
      assert selections[..k] == selections;
    } else {
      assert selections[..|selections| - 1][..k] == selections[..k];
      GatherStaysFailed(ranks, s, selections[..|selections| - 1], k);
    }
  }

  lemma {:induction false} FilterStaysFailed(ranks: Ranks, s: Store, filter: Filter, keys: seq<string>,
        before: Option<Time>, k: nat)
    requires k <= |keys| && Filtered(ranks, filter, LatestStates(ranks, s, keys[..k], before)).Failure?
    ensures Filtered(ranks, filter, LatestStates(ranks, s, keys, before))
         == Filtered(ranks, filter, LatestStates(ranks, s, keys[..k], before))
  {
    if k == |keys| {
      assert keys[..k] == keys;
    } else {
      var init := keys[..|keys| - 1];
      assert init[..k] == keys[..k];
      FilterStaysFailed(ranks, s, filter, init, before, k);
      OneMoreState(ranks, s, filter, init, keys[|keys| - 1], before);
      assert init + [keys[|keys| - 1]] == keys;
    }
  }

  /** What the state of one more key adds: nothing when it has none or lies outside the prefix or the filter. */
  function AddState(ranks: Ranks, filter: Filter, selected: seq<Observation>, state: Latest)
    : Result<seq<Observation>, DatasetError>
  {
    if !state.Seen? || !(filter.prefix <= state.observation.artifactKey) then Success(selected)
    else
      var kept := Passes(ranks, filter, state.observation);
      if kept.Failure? then Failure(kept.error)
      else if kept.value then Success(selected + [state.observation])
      else Success(selected)
  }

  lemma {:induction false} OneMoreState(ranks: Ranks, s: Store, filter: Filter, init: seq<string>, key: string,
          before: Option<Time>)
    ensures
      var front := Filtered(ranks, filter, LatestStates(ranks, s, init, before));
      var all := Filtered(ranks, filter, LatestStates(ranks, s, init + [key], before));
      if front.Failure? then all == front
      else all == AddState(ranks, filter, front.value, StateBefore(ranks.states, s, key, before))
  {
    var rows, state := LatestStates(ranks, s, init, before), StateBefore(ranks.states, s, key, before);
    assert (init + [key])[..|init|] == init;
    if state.Seen? {
      assert (rows + [state.observation])[..|rows|] == rows;
      var front := Filtered(ranks, filter, rows);
      assert front.Success? ==> front.value + [] == front.value;
    } else {
      assert rows + [] == rows;
    }
  }

  /** The current states that a source selection keeps, key by key, or the first that cannot be judged. */
  method SelectSources(ranks: Ranks, s: Store, filter: Filter, before: Option<Time>)
    returns (r: Result<seq<Observation>, DatasetError>)
    ensures r == Select(ranks, s, Sources(filter, before))
  {
    if filter.after.Some? && before.Some? && filter.after.value > before.value { return Failure(Reversed); }
    var keys := ArtifactKeys(s);
    r := SelectStates(ranks, s, filter, keys, before);
  }

  method SelectStates(ranks: Ranks, s: Store, filter: Filter, keys: seq<string>, before: Option<Time>)
    returns (r: Result<seq<Observation>, DatasetError>)
    ensures r == Filtered(ranks, filter, LatestStates(ranks, s, keys, before))
  {
    var selected := [];
    for i := 0 to |keys|
      invariant Filtered(ranks, filter, LatestStates(ranks, s, keys[..i], before)) == Success(selected)
    {
      assert keys[..i + 1] == keys[..i] + [keys[i]];
      OneMoreState(ranks, s, filter, keys[..i], keys[i], before);
      var next := AddState(ranks, filter, selected, StateBefore(ranks.states, s, keys[i], before));
      if next.Failure? {
        FilterStaysFailed(ranks, s, filter, keys, before, i + 1);
        return next;
      }
      selected := next.value;
    }
    assert keys[..|keys|] == keys;
    return Success(selected);
  }

  method GatherAll(ranks: Ranks, s: Store, selections: seq<Selection>) returns (r: Result<Gathered, DatasetError>)
    ensures r == Gather(ranks, s, selections)
  {
    var resolved, snapshots := [], [];
    for i := 0 to |selections|
      invariant Gather(ranks, s, selections[..i]) == Success(Gathered(resolved, snapshots))
    {
      assert selections[..i + 1][..i] == selections[..i];
      var one := GatherOne(ranks, s, selections[i]);
      if one.Failure? {
        GatherStaysFailed(ranks, s, selections, i + 1);
        return one;
      }
      resolved, snapshots := resolved + one.value.picked, snapshots + one.value.snapshots;
    }
    assert selections[..|selections|] == selections;
    return Success(Gathered(resolved, snapshots));
  }

  /** One member for each picked observation, or nothing when an artifact was picked twice. */
  method CollectMembers(picked: seq<Picked>) returns (members: Option<seq<Member>>)
    ensures members == if KeysDiffer(picked) then Some(Members(picked)) else None
  {
    var seen, collected := {}, [];
    for i := 0 to |picked|
      invariant KeysDiffer(picked[..i])
      invariant forall k | 0 <= k < i :: picked[k].observation.artifactKey in seen
      invariant forall key | key in seen :: exists k :: 0 <= k < i && picked[k].observation.artifactKey == key
      invariant collected == Members(picked[..i])
    {
      var key := picked[i].observation.artifactKey;
      if key in seen { return None; }
      seen := seen + {key};
      collected := collected + [MemberOf(picked[i])];
    }
    assert picked[..|picked|] == picked;
    return Some(collected);
  }

  method CheckObservation(repo: Repo, c: Constraints, o: Observation) returns (results: seq<CheckResult>)
    ensures results == ObservationChecks(repo, c, o)
  {
    var required, validated := Required(c), [];
    for k := 0 to |required|
      invariant validated == seq(k, j requires 0 <= j < k => ValidationCheck(repo, o, required[j]))
    {
      validated := validated + [ValidationCheck(repo, o, required[k])];
    }
    results := (if c.completeSnapshots then [SnapshotCheck(repo.store, o)] else []) + validated;
  }

  /** The results of every constraint, observation by observation. */
  method CheckConstraints(repo: Repo, c: Constraints, rows: seq<Observation>) returns (results: seq<CheckResult>)
    ensures results == Check(repo, c, rows)
  {
    var each := [];
    for i := 0 to |rows|
      invariant each == EachChecked(repo, c, rows[..i])
    {
      assert rows[..i + 1][..i] == rows[..i];
      var one := CheckObservation(repo, c, rows[i]);
      each := each + one;
    }
    assert rows[..|rows|] == rows;
    results := WholeChecks(c, rows) + each;
  }

  method ResolveDataset(ranks: Ranks, repo: Repo, d: Definition) returns (r: Result<Manifest, DatasetError>)
    ensures r == Resolve(ranks, repo, d)
  {
    var gathered := GatherAll(ranks, repo.store, d.selections);
    if gathered.Failure? { return Failure(gathered.error); }
    var picked := Sort(gathered.value.picked, Order(ranks.idText));
    var members := CollectMembers(picked);
    if members.None? { return Failure(Repeated); }
    if picked == [] && d.constraints.completeSnapshots && gathered.value.snapshots == [] {
      return Failure(NoSnapshotEvidence);
    }
    var results := CheckConstraints(repo, d.constraints, Observed(picked));
    if exists k :: 0 <= k < |results| && !results[k].passed { return Failure(ConstraintFailed(results)); }
    return Success(Manifest(members.value, SnapshotSet(gathered.value.snapshots), results));
  }

  // ---- the order of the selections does not matter ------------------------------------------------

  lemma OrderIsTotal(idText: ObservationId -> string)
    ensures TotalPreorder(Order(idText))
  {
    TextOrder();
  }

  lemma {:induction false} GatherFailsWithOne(ranks: Ranks, s: Store, selections: seq<Selection>)
    ensures Gather(ranks, s, selections).Failure? <==> exists x :: x in selections && GatherOne(ranks, s, x).Failure?
  {
    if selections != [] {
      var init, last := selections[..|selections| - 1], selections[|selections| - 1];
      GatherFailsWithOne(ranks, s, init);
      assert selections == init + [last];
    }
  }

  /** `whole` is what two parts gathered, in some order. */
  ghost predicate Combines(whole: Gathered, a: Gathered, b: Gathered) {
    && multiset(whole.picked) == multiset(a.picked) + multiset(b.picked)
    && multiset(whole.snapshots) == multiset(a.snapshots) + multiset(b.snapshots)
  }

  lemma {:induction false} GatherLast(ranks: Ranks, s: Store, init: seq<Selection>, last: Selection)
    ensures Gather(ranks, s, init + [last]).Success? <==>
        Gather(ranks, s, init).Success? && GatherOne(ranks, s, last).Success?
    ensures Gather(ranks, s, init + [last]).Success? ==>
              Combines(Gather(ranks, s, init + [last]).value, Gather(ranks, s, init).value,
                GatherOne(ranks, s, last).value)
  {
    assert (init + [last])[..|init|] == init;
  }

  lemma CombinesAround(whole: Gathered, init: Gathered, last: Gathered, rest: Gathered, short: Gathered, one: Gathered)
    requires Combines(whole, init, last) && Combines(init, short, one) && Combines(rest, short, last)
    ensures Combines(whole, rest, one)
  {
  }

  ghost predicate SplitsAt(ranks: Ranks, s: Store, selections: seq<Selection>, rest: seq<Selection>, one: Selection) {
    && Gather(ranks, s, selections).Success? && Gather(ranks, s, rest).Success? && GatherOne(ranks, s, one).Success?
    && Combines(Gather(ranks, s, selections).value, Gather(ranks, s, rest).value, GatherOne(ranks, s, one).value)
  }

  lemma {:induction false} SplitGrows(ranks: Ranks, s: Store, init: seq<Selection>, short: seq<Selection>,
        one: Selection, last: Selection)
    requires SplitsAt(ranks, s, init, short, one) && Gather(ranks, s, init + [last]).Success?
    ensures SplitsAt(ranks, s, init + [last], short + [last], one)
  {
    GatherLast(ranks, s, init, last);
    GatherLast(ranks, s, short, last);
    CombinesAround(Gather(ranks, s, init + [last]).value, Gather(ranks, s, init).value, GatherOne(ranks, s, last).value,
                   Gather(ranks, s, short + [last]).value, Gather(ranks, s, short).value,
                     GatherOne(ranks, s, one).value);
  }

  lemma {:induction false} SplitLast(ranks: Ranks, s: Store, a: seq<Selection>, one: Selection)
    requires Gather(ranks, s, a + [one]).Success?
    ensures SplitsAt(ranks, s, a + [one], a, one)
  {
    GatherLast(ranks, s, a, one);
  }

  lemma Regroup<T>(a: seq<T>, one: T, b: seq<T>)
    requires b != []
    ensures a + [one] + b == (a + [one] + b[..|b| - 1]) + [b[|b| - 1]]
    ensures a + b == (a + b[..|b| - 1]) + [b[|b| - 1]]
  {
  }

  /** Everything gathered is what the parts around one selection gather, and what that selection gathers. */
  lemma {:induction false} GatherSplits(ranks: Ranks, s: Store, a: seq<Selection>, one: Selection, b: seq<Selection>)
    requires Gather(ranks, s, a + [one] + b).Success?
    ensures SplitsAt(ranks, s, a + [one] + b, a + b, one)
    decreases b
  {
    if b == [] {
      assert a + [one] + b == a + [one] && a + b == a;
      SplitLast(ranks, s, a, one);
    } else {
      var init, last := b[..|b| - 1], b[|b| - 1];
      Regroup(a, one, b);
      GatherLast(ranks, s, a + [one] + init, last);
      GatherSplits(ranks, s, a, one, init);
      SplitGrows(ranks, s, a + [one] + init, a + init, one, last);
    }
  }

  ghost predicate GatherAlike(ranks: Ranks, s: Store, a: seq<Selection>, b: seq<Selection>) {
    && Gather(ranks, s, a).Success? && Gather(ranks, s, b).Success?
    && multiset(Gather(ranks, s, a).value.picked) == multiset(Gather(ranks, s, b).value.picked)
    && multiset(Gather(ranks, s, a).value.snapshots) == multiset(Gather(ranks, s, b).value.snapshots)
  }

  lemma AlikeAround(ranks: Ranks, s: Store, a: seq<Selection>, shortA: seq<Selection>, b: seq<Selection>,
        shortB: seq<Selection>, one: Selection)
    requires SplitsAt(ranks, s, a, shortA, one) && SplitsAt(ranks, s, b, shortB, one)
        && GatherAlike(ranks, s, shortA, shortB)
    ensures GatherAlike(ranks, s, a, b)
  {
  }

  /** A permutation of a sequence is some arrangement around its last element. */
  lemma AroundLast<T>(a: seq<T>, b: seq<T>) returns (front: seq<T>, back: seq<T>)
    requires multiset(a) == multiset(b) && a != []
    ensures b == front + [a[|a| - 1]] + back
    ensures multiset(a[..|a| - 1]) == multiset(front + back)
  {
    SameElements(a, b);
    var last := a[|a| - 1];
    assert last in b;
    var k :| 0 <= k < |b| && b[k] == last;
    RemoveOne(a, b, k);
    front, back := b[..k], b[k + 1..];
  }

  lemma {:induction false} SplitBoth(ranks: Ranks, s: Store, init: seq<Selection>, one: Selection,
        front: seq<Selection>, back: seq<Selection>)
    requires Gather(ranks, s, init + [one]).Success? && Gather(ranks, s, front + [one] + back).Success?
    ensures SplitsAt(ranks, s, init + [one], init, one) && Gather(ranks, s, init).Success?
    ensures SplitsAt(ranks, s, front + [one] + back, front + back, one) && Gather(ranks, s, front + back).Success?
  {
    GatherSplits(ranks, s, front, one, back);
    SplitLast(ranks, s, init, one);
  }

  lemma {:induction false} GatherPermuted(ranks: Ranks, s: Store, a: seq<Selection>, b: seq<Selection>)
    requires multiset(a) == multiset(b) && Gather(ranks, s, a).Success? && Gather(ranks, s, b).Success?
    ensures GatherAlike(ranks, s, a, b)
  {
    if a == [] {
      SameElements(a, b);
      assert b == [];
    } else {
      var front, back := AroundLast(a, b);
      var init, last := a[..|a| - 1], a[|a| - 1];
      assert a == init + [last];
      SplitBoth(ranks, s, init, last, front, back);
      GatherPermuted(ranks, s, init, front + back);
      AlikeWithOne(ranks, s, init, last, front, back);
    }
  }

  lemma {:induction false} AlikeWithOne(ranks: Ranks, s: Store, init: seq<Selection>, one: Selection,
        front: seq<Selection>, back: seq<Selection>)
    requires Gather(ranks, s, init + [one]).Success? && Gather(ranks, s, front + [one] + back).Success?
    requires GatherAlike(ranks, s, init, front + back)
    ensures GatherAlike(ranks, s, init + [one], front + [one] + back)
  {
    SplitBoth(ranks, s, init, one, front, back);
    AlikeAround(ranks, s, init + [one], init, front + [one] + back, front + back, one);
  }

  lemma KeysDifferPermuted(a: seq<Picked>, b: seq<Picked>)
    requires multiset(a) == multiset(b) && KeysDiffer(a)
    ensures KeysDiffer(b)
  {
    var key := (p: Picked) => p.observation.artifactKey;
    assert DistinctBy(a, key);
    PermutationKeepsDistinct(a, b, key);
    forall i, j | 0 <= i < j < |b| ensures b[i].observation.artifactKey != b[j].observation.artifactKey {
      assert key(b[i]) != key(b[j]);
    }
  }

  lemma {:induction false} SortedTheSame(idText: ObservationId -> string, a: seq<Picked>, b: seq<Picked>)
    requires multiset(a) == multiset(b)
    ensures KeysDiffer(Sort(a, Order(idText))) <==> KeysDiffer(Sort(b, Order(idText)))
    ensures KeysDiffer(Sort(a, Order(idText))) ==> Sort(a, Order(idText)) == Sort(b, Order(idText))
  {
    var le := Order(idText);
    OrderIsTotal(idText);
    SortProperties(a, le);
    SortProperties(b, le);
    if KeysDiffer(Sort(a, le)) {
      KeysDifferPermuted(Sort(a, le), Sort(b, le));
      KeysDifferPermuted(Sort(a, le), a);
      KeyTellsApart(idText, a);
      SortIgnoresOrder(a, b, le);
    } else if KeysDiffer(Sort(b, le)) {
      KeysDifferPermuted(Sort(b, le), Sort(a, le));
    }
  }

  lemma KeyTellsApart(idText: ObservationId -> string, a: seq<Picked>)
    requires KeysDiffer(a)
    ensures forall x, y | x in a && y in a && Order(idText)(x, y) && Order(idText)(y, x) :: x == y
  {
    TextOrder();
    forall x, y | x in a && y in a && Order(idText)(x, y) && Order(idText)(y, x) ensures x == y {
      var i :| 0 <= i < |a| && a[i] == x;
      var j :| 0 <= j < |a| && a[j] == y;
    }
  }

  /** Permuting the selections fails both ways or gives the same members, ids, pinned snapshots and check results. */
  lemma SelectionOrderIsIrrelevant(ranks: Ranks, repo: Repo, a: Definition, b: Definition)
    requires multiset(a.selections) == multiset(b.selections) && a.constraints == b.constraints
    ensures Resolve(ranks, repo, a).Failure? <==> Resolve(ranks, repo, b).Failure?
    ensures Resolve(ranks, repo, a).Success? ==> Resolve(ranks, repo, a) == Resolve(ranks, repo, b)
  {
    var s := repo.store;
    SameElements(a.selections, b.selections);
    GatherFailsWithOne(ranks, s, a.selections);
    GatherFailsWithOne(ranks, s, b.selections);
    var ga, gb := Gather(ranks, s, a.selections), Gather(ranks, s, b.selections);
    if ga.Success? && gb.Success? {
      GatherPermuted(ranks, s, a.selections, b.selections);
      SortedTheSame(ranks.idText, ga.value.picked, gb.value.picked);
      SameElements(ga.value.snapshots, gb.value.snapshots);
      assert SnapshotSet(ga.value.snapshots) == SnapshotSet(gb.value.snapshots);
      SortProperties(ga.value.picked, Order(ranks.idText));
      SortProperties(gb.value.picked, Order(ranks.idText));
      assert ga.value.picked == [] <==> gb.value.picked == [] by {
        assert |multiset(ga.value.picked)| == |multiset(gb.value.picked)|;
      }
    }
  }

  /** Members come in strictly increasing order of their artifact keys. */
  lemma MembersIncrease(ranks: Ranks, repo: Repo, d: Definition, i: nat, j: nat)
    requires Resolve(ranks, repo, d).Success? && i < j < |Resolve(ranks, repo, d).value.members|
    ensures
      var members := Resolve(ranks, repo, d).value.members;
      TextLe(members[i].artifactKey, members[j].artifactKey) && members[i].artifactKey != members[j].artifactKey
  {
    OrderIsTotal(ranks.idText);
    var picked := Gather(ranks, repo.store, d.selections).value.picked;
    SortProperties(picked, Order(ranks.idText));
    var sorted := Sort(picked, Order(ranks.idText));
    assert Order(ranks.idText)(sorted[i], sorted[j]);
  }

  // ---- pinned datasets --------------------------------------------------------------------------------

  function Exacts(rows: seq<Observation>, role: Option<string>): seq<Selection> {
    seq(|rows|, i requires 0 <= i < |rows| => Selection(Exact(rows[i].Id()), role))
  }

  /** The exact form of a selection at one moment: the snapshot or the observations it resolved to. */
  function PinSelection(ranks: Ranks, s: Store, selection: Selection): seq<Selection> {
    var pinned := Pin(ranks, s, selection.selector);
    if pinned.Failure? then [selection]
    else if pinned.value.ExactSnapshot? then [selection.(selector := pinned.value)]
    else
      var rows := Select(ranks, s, pinned.value);
      if rows.Failure? then [selection] else Exacts(rows.value, selection.role)
  }

  function PinAll(ranks: Ranks, s: Store, selections: seq<Selection>): seq<Selection> {
    if selections == [] then []
    else PinAll(ranks, s, selections[..|selections| - 1]) + PinSelection(ranks, s, selections[|selections| - 1])
  }

  ghost predicate AllIn(rows: seq<Observation>, s: Store) { forall o | o in rows :: o in s.observations }

  lemma {:induction false} UpToMember(rows: seq<Observation>, before: Option<Time>)
    ensures forall o | o in ObservationsUpTo(rows, before) :: o in rows
  {
    if rows != [] {
      UpToMember(rows[..|rows| - 1], before);
    }
  }

  lemma {:induction false} LatestIsMember(rank: ObservationId -> int, rows: seq<Observation>, key: string)
    ensures LatestObservation(rank, rows, key).Some? ==> LatestObservation(rank, rows, key).value in rows
  {
    if rows != [] {
      LatestIsMember(rank, rows[..|rows| - 1], key);
    }
  }

  lemma StateIsRecorded(rank: ObservationId -> int, s: Store, key: string, before: Option<Time>)
    ensures
      var state := StateBefore(rank, s, key, before);
      state.Seen? ==> state.observation in s.observations
  {
    UpToMember(s.observations, before);
    LatestIsMember(rank, ObservationsUpTo(s.observations, before), key);
  }

  lemma {:induction false} StatesAreRecorded(ranks: Ranks, s: Store, keys: seq<string>, before: Option<Time>)
    ensures AllIn(LatestStates(ranks, s, keys, before), s)
  {
    if keys != [] {
      StatesAreRecorded(ranks, s, keys[..|keys| - 1], before);
      StateIsRecorded(ranks.states, s, keys[|keys| - 1], before);
    }
  }

  lemma {:induction false} FilteredAreRecorded(ranks: Ranks, filter: Filter, rows: seq<Observation>, s: Store)
    requires AllIn(rows, s)
    ensures Filtered(ranks, filter, rows).Success? ==> AllIn(Filtered(ranks, filter, rows).value, s)
  {
    if rows != [] { FilteredAreRecorded(ranks, filter, rows[..|rows| - 1], s); }
  }

  lemma {:induction false} FoundIsIn(rows: seq<Observation>, id: ObservationId)
    ensures FindRow(rows, id).Some? ==> FindRow(rows, id).value in rows
  {
    if rows != [] && rows[0].Id() != id {
      FoundIsIn(rows[1..], id);
      if FindRow(rows[1..], id).Some? {
        assert FindRow(rows[1..], id).value in rows;
      }
    }
  }

  /** Outside snapshots a selector picks recorded observations. */
  lemma SelectedAreRecorded(ranks: Ranks, s: Store, selector: Selector)
    requires !selector.ExactSnapshot? && Select(ranks, s, selector).Success?
    ensures AllIn(Select(ranks, s, selector).value, s)
  {
    match selector
    case Exact(id) => FoundIsIn(s.observations, id);
    case LatestOf(key, before) => StateIsRecorded(ranks.states, s, key, before);
    case LatestAll(before) => StatesAreRecorded(ranks, s, ArtifactKeys(s), before);
    case Sources(filter, before) =>
      StatesAreRecorded(ranks, s, ArtifactKeys(s), before);
      FilteredAreRecorded(ranks, filter, LatestStates(ranks, s, ArtifactKeys(s), before), s);
    case _ =>
  }

  /** Exact selections of recorded observations gather exactly them. */
  lemma {:induction false} ExactsGather(ranks: Ranks, s: Store, rows: seq<Observation>, role: Option<string>)
    requires UniqueIds(s.observations) && AllIn(rows, s)
    ensures Gather(ranks, s, Exacts(rows, role)) == Success(Gathered(WithRole(rows, role), []))
  {
    if rows == [] {
      assert Exacts(rows, role) == [] && WithRole(rows, role) == [];
    } else {
      var init, last := rows[..|rows| - 1], rows[|rows| - 1];
      assert last in rows;
      ExactsGather(ranks, s, init, role);
      FindUnique(s.observations, last);
      var one := Selection(Exact(last.Id()), role);
      assert Exacts(rows, role) == Exacts(init, role) + [one];
      assert GatherOne(ranks, s, one) == Success(Gathered(WithRole([last], role), []));
      GatherOneMore(ranks, s, Exacts(init, role), one);
      assert WithRole(rows, role) == WithRole(init, role) + WithRole([last], role);
      assert Plus(Gathered(WithRole(init, role), []), Gathered(WithRole([last], role), []))
        == Gathered(WithRole(rows, role), []);
    }
  }

  function Plus(x: Gathered, y: Gathered): Gathered { Gathered(x.picked + y.picked, x.snapshots + y.snapshots) }

  lemma PlusAssociates(x: Gathered, y: Gathered, z: Gathered)
    ensures Plus(Plus(x, y), z) == Plus(x, Plus(y, z))
  {
    assert (x.picked + y.picked) + z.picked == x.picked + (y.picked + z.picked);
    assert (x.snapshots + y.snapshots) + z.snapshots == x.snapshots + (y.snapshots + z.snapshots);
  }

  lemma PlusNothing(x: Gathered)
    ensures Plus(x, Gathered([], [])) == x
  {
  }

  lemma {:induction false} GatherOneMore(ranks: Ranks, s: Store, init: seq<Selection>, last: Selection)
    requires Gather(ranks, s, init).Success? && GatherOne(ranks, s, last).Success?
    ensures Gather(ranks, s, init + [last])
        == Success(Plus(Gather(ranks, s, init).value, GatherOne(ranks, s, last).value))
  {
    assert (init + [last])[..|init|] == init;
  }

  ghost predicate GathersTo(ranks: Ranks, s: Store, selections: seq<Selection>, g: Gathered) {
    Gather(ranks, s, selections) == Success(g)
  }

  lemma {:induction false} GathersLast(ranks: Ranks, s: Store, b: seq<Selection>, y: Gathered)
    returns (front: Gathered, last: Gathered)
    requires b != [] && GathersTo(ranks, s, b, y)
    ensures GathersTo(ranks, s, b[..|b| - 1], front) && GatherOne(ranks, s, b[|b| - 1]) == Success(last)
    ensures y == Plus(front, last)
  {
    front, last := Gather(ranks, s, b[..|b| - 1]).value, GatherOne(ranks, s, b[|b| - 1]).value;
  }

  lemma {:induction false} GathersOneMore(ranks: Ranks, s: Store, init: seq<Selection>, last: Selection,
        whole: seq<Selection>, x: Gathered, y: Gathered)
    requires GathersTo(ranks, s, init, x) && GatherOne(ranks, s, last) == Success(y) && whole == init + [last]
    ensures GathersTo(ranks, s, whole, Plus(x, y))
  {
    GatherOneMore(ranks, s, init, last);
  }

  lemma GathersNothing(ranks: Ranks, s: Store, y: Gathered)
    requires GathersTo(ranks, s, [], y)
    ensures y == Gathered([], [])
  {
  }

  /** One after the other, two lists of selections gather what they gather each. */
  lemma {:induction false} GatherConcatenates(ranks: Ranks, s: Store, a: seq<Selection>, b: seq<Selection>,
        whole: seq<Selection>, x: Gathered, y: Gathered)
    requires GathersTo(ranks, s, a, x) && GathersTo(ranks, s, b, y) && whole == a + b
    ensures GathersTo(ranks, s, whole, Plus(x, y))
    decreases b
  {
    if b == [] {
      GathersNothing(ranks, s, y);
      PlusNothing(x);
      assert whole == a;
    } else {
      var init, last := b[..|b| - 1], b[|b| - 1];
      var front, one := GathersLast(ranks, s, b, y);
      GatherConcatenates(ranks, s, a, init, a + init, x, front);
      LastOfConcatenation(a, b);
      GathersOneMore(ranks, s, a + init, last, whole, Plus(x, front), one);
      PlusAssociates(x, front, one);
    }
  }

  lemma LastOfConcatenation<T>(a: seq<T>, b: seq<T>)
    requires b != []
    ensures a + b == (a + b[..|b| - 1]) + [b[|b| - 1]]
  {
  }

  lemma {:induction false} GatherSingle(ranks: Ranks, s: Store, selection: Selection)
    requires GatherOne(ranks, s, selection).Success?
    ensures Gather(ranks, s, [selection]) == GatherOne(ranks, s, selection)
  {
    assert [selection][..0] == [];
    var x := GatherOne(ranks, s, selection).value;
    assert [] + x.picked == x.picked && [] + x.snapshots == x.snapshots;
  }

  /** A selection that resolved gathers the same observations in its exact form, now and later. */
  lemma {:induction false} PinnedSelectionStays(ranks: Ranks, s: Store, s': Store, selection: Selection)
    requires Consistent(s) && Consistent(s') && Extends(s, s')
    requires GatherOne(ranks, s, selection).Success?
    ensures Gather(ranks, s', PinSelection(ranks, s, selection)) == GatherOne(ranks, s, selection)
  {
    var pinned := Pin(ranks, s, selection.selector).value;
    if pinned.ExactSnapshot? {
      AnswerFrozen(s, s', pinned.snapshot);
      GatherSingle(ranks, s', selection.(selector := pinned));
    } else {
      SelectedAreRecorded(ranks, s, pinned);
      ExactsGather(ranks, s', Select(ranks, s, pinned).value, selection.role);
    }
  }

  lemma {:induction false} PinnedGatherStays(ranks: Ranks, s: Store, s': Store, selections: seq<Selection>)
    requires Consistent(s) && Consistent(s') && Extends(s, s')
    requires Gather(ranks, s, selections).Success?
    ensures Gather(ranks, s', PinAll(ranks, s, selections)) == Gather(ranks, s, selections)
  {
    if selections != [] {
      var init, last := selections[..|selections| - 1], selections[|selections| - 1];
      PinnedGatherStays(ranks, s, s', init);
      PinnedSelectionStays(ranks, s, s', last);
      GatherConcatenates(ranks, s', PinAll(ranks, s, init), PinSelection(ranks, s, last), PinAll(ranks, s, selections),
                         Gather(ranks, s, init).value, GatherOne(ranks, s, last).value);
    }
  }

  // ---- which constraints can fail later ----------------------------------------------------------------

  lemma {:induction false} HappensKeeps(rank: Snapshot -> int, repo: Repo, events: seq<Event>)
    requires Consistent(repo.store)
    ensures
      var later := HappenAll(rank, repo, events);
      Consistent(later.store) && Extends(repo.store, later.store)
  {
    if events != [] {
      var init, last := events[..|events| - 1], events[|events| - 1];
      HappensKeeps(rank, repo, init);
      var before := HappenAll(rank, repo, init);
      if last.Step? {
        var action := if last.action.Cleanup?
          then last.action.(rows := last.action.rows - ValidatedContents(before.validations))
                      else last.action;
        PerformKeeps(rank, before.store, action);
        assert HappenAll(rank, repo, events).store == Perform(rank, before.store, action);
        ExtendsTransitive(repo.store, before.store, HappenAll(rank, repo, events).store);
      }
    }
  }

  lemma {:induction false} HappenAllSplits(rank: Snapshot -> int, repo: Repo, past: seq<Event>, future: seq<Event>)
    ensures HappenAll(rank, repo, past + future) == HappenAll(rank, HappenAll(rank, repo, past), future)
  {
    if future == [] {
      assert past + future == past;
    } else {
      HappenAllSplits(rank, repo, past, future[..|future| - 1]);
      assert (past + future)[..|past + future| - 1] == past + future[..|future| - 1];
    }
  }

  /** Every observation lies in a complete snapshot that resolves. */
  ghost predicate SnapshotsHold(s: Store, rows: seq<Observation>) {
    forall o | o in rows :: SnapshotsWith(s, o) != {}
  }

  ghost predicate AllValidated(repo: Repo, c: Constraints, rows: seq<Observation>) {
    forall o, pair | o in rows && pair in c.validations :: Passing(repo, o.content, pair)
  }

  lemma {:induction false} DistinctMember(pairs: seq<(string, string)>)
    ensures forall x :: x in Distinct(pairs) <==> x in pairs
  {
    if pairs != [] {
      DistinctMember(pairs[..|pairs| - 1]);
      assert pairs == pairs[..|pairs| - 1] + [pairs[|pairs| - 1]];
    }
  }

  lemma RequiredMember(c: Constraints)
    ensures forall pair :: pair in Required(c) <==> pair in c.validations
  {
    DistinctMember(c.validations);
    TextOrder();
    SortProperties(Distinct(c.validations), PairLe);
  }

  lemma OneObservationPasses(repo: Repo, c: Constraints, o: Observation)
    ensures AllPassed(ObservationChecks(repo, c, o)) <==>
      (c.completeSnapshots ==> SnapshotsWith(repo.store, o) != {})
      && forall pair | pair in c.validations :: Passing(repo, o.content, pair)
  {
    RequiredMember(c);
    var results, n := ObservationChecks(repo, c, o), if c.completeSnapshots then 1 else 0;
    if AllPassed(results) {
      if c.completeSnapshots { assert results[0] == SnapshotCheck(repo.store, o); }
      forall pair | pair in c.validations ensures Passing(repo, o.content, pair) {
        var i :| 0 <= i < |Required(c)| && Required(c)[i] == pair;
        assert results[n + i] == ValidationCheck(repo, o, pair);
      }
    }
    if (c.completeSnapshots ==> SnapshotsWith(repo.store, o) != {})
       && forall pair | pair in c.validations :: Passing(repo, o.content, pair)
    {
      forall k | 0 <= k < |results| ensures results[k].passed {
        if k >= n { assert Required(c)[k - n] in Required(c); }
      }
    }
  }

  lemma AllPassedAppend(a: seq<CheckResult>, b: seq<CheckResult>)
    ensures AllPassed(a + b) <==> AllPassed(a) && AllPassed(b)
  {
    assert forall r :: r in a + b <==> r in a || r in b;
  }

  lemma {:induction false} EachPasses(repo: Repo, c: Constraints, rows: seq<Observation>)
    ensures AllPassed(EachChecked(repo, c, rows)) <==>
      (c.completeSnapshots ==> SnapshotsHold(repo.store, rows)) && AllValidated(repo, c, rows)
  {
    if rows != [] {
      var init, last := rows[..|rows| - 1], rows[|rows| - 1];
      EachPasses(repo, c, init);
      OneObservationPasses(repo, c, last);
      AllPassedAppend(EachChecked(repo, c, init), ObservationChecks(repo, c, last));
      assert rows == init + [last];
      assert forall o :: o in rows <==> o in init || o == last;
    }
  }

  /** A check passes when the rows do by themselves, lie in complete snapshots where asked, and are validated. */
  lemma CheckPasses(repo: Repo, c: Constraints, rows: seq<Observation>)
    ensures AllPassed(Check(repo, c, rows)) <==>
      && AllPassed(WholeChecks(c, rows))
      && (c.completeSnapshots ==> SnapshotsHold(repo.store, rows)) && AllValidated(repo, c, rows)
  {
    EachPasses(repo, c, rows);
    AllPassedAppend(WholeChecks(c, rows), EachChecked(repo, c, rows));
  }

  lemma SnapshotsStillHold(s: Store, s': Store, rows: seq<Observation>)
    requires Consistent(s) && Extends(s, s') && SnapshotsHold(s, rows)
    ensures SnapshotsHold(s', rows)
  {
    forall o | o in rows ensures SnapshotsWith(s', o) != {} {
      var x :| x in SnapshotsWith(s, o);
      AnswerFrozen(s, s', x);
      assert HoldsMember(s', x, o);
      assert x in SnapshotsWith(s', o);
    }
  }

  // ---- main results -----------------------------------------------------------------------------------

  ghost predicate MembersValidated(repo: Repo, c: Constraints, members: seq<Member>) {
    forall m, pair | m in members && pair in c.validations :: Passing(repo, m.content, pair)
  }

  lemma MembersAreObserved(repo: Repo, c: Constraints, picked: seq<Picked>)
    ensures MembersValidated(repo, c, Members(picked)) <==> AllValidated(repo, c, Observed(picked))
  {
    if MembersValidated(repo, c, Members(picked)) {
      forall o, pair | o in Observed(picked) && pair in c.validations ensures Passing(repo, o.content, pair) {
        var i :| 0 <= i < |picked| && Observed(picked)[i] == o;
        assert Members(picked)[i] in Members(picked);
      }
    }
    if AllValidated(repo, c, Observed(picked)) {
      forall m, pair | m in Members(picked) && pair in c.validations ensures Passing(repo, m.content, pair) {
        var i :| 0 <= i < |picked| && Members(picked)[i] == m;
        assert Observed(picked)[i] in Observed(picked);
      }
    }
  }

  /** Resolving the same observations again later can only fail on a validation. */
  lemma {:induction false} SameRowsLater(ranks: Ranks, now: Repo, later: Repo, d: Definition, d': Definition)
    requires Consistent(now.store) && Extends(now.store, later.store) && d'.constraints == d.constraints
    requires Resolve(ranks, now, d).Success?
    requires Gather(ranks, later.store, d'.selections) == Gather(ranks, now.store, d.selections)
    ensures
      var then', again := Resolve(ranks, now, d).value, Resolve(ranks, later, d');
      && (again.Success? <==> MembersValidated(later, d.constraints, then'.members))
      && (again.Failure? ==> again.error.ConstraintFailed?)
      && (again.Success? ==> again.value.members == then'.members && again.value.snapshots == then'.snapshots)
  {
    var picked := Sort(Gather(ranks, now.store, d.selections).value.picked, Order(ranks.idText));
    var rows := Observed(picked);
    CheckPasses(now, d.constraints, rows);
    CheckPasses(later, d.constraints, rows);
    MembersAreObserved(later, d.constraints, picked);
    if d.constraints.completeSnapshots { SnapshotsStillHold(now.store, later.store, rows); }
  }

  /**
   * The pinned form of a dataset that resolved once resolves again, in any later state, exactly when every
   * required validator's newest result on every member is still a pass; and then to the same members, ids and
   * snapshots. Nothing else that is recorded, cleaned up or recovered meanwhile can change it.
   */
  lemma {:induction false} PinnedDatasetIsReproducible(ranks: Ranks, past: seq<Event>, future: seq<Event>,
        d: Definition)
    requires Resolve(ranks, HappenAll(ranks.snapshots, EMPTY_REPO, past), d).Success?
    ensures
      var now, later := HappenAll(ranks.snapshots, EMPTY_REPO, past),
        HappenAll(ranks.snapshots, EMPTY_REPO, past + future);
      var first, again := Resolve(ranks, now, d).value,
        Resolve(ranks, later, d.(selections := PinAll(ranks, now.store, d.selections)));
      && (again.Success? <==> MembersValidated(later, d.constraints, first.members))
      && (again.Failure? ==> again.error.ConstraintFailed?)
      && (again.Success? ==>
            && again.value.members == first.members && again.value.snapshots == first.snapshots
            && again.value.Id() == first.Id() && again.value.Content() == first.Content())
  {
    var now := HappenAll(ranks.snapshots, EMPTY_REPO, past);
    HappensKeeps(ranks.snapshots, EMPTY_REPO, past);
    HappensKeeps(ranks.snapshots, now, future);
    HappenAllSplits(ranks.snapshots, EMPTY_REPO, past, future);
    var later := HappenAll(ranks.snapshots, now, future);
    PinnedGatherStays(ranks, now.store, later.store, d.selections);
    SameRowsLater(ranks, now, later, d, d.(selections := PinAll(ranks, now.store, d.selections)));
  }

  // ---- a later validation refuses a pinned dataset ------------------------------------------------------

  lemma {:induction false} NewestAfterPut(rows: seq<Validation>, v: Validation)
    requires forall w | w in rows && w.content == v.content && w.validator == v.validator && w.version == v.version ::
        w.at < v.at
    ensures Newest(PutValidation(rows, v), v.content, v.validator, v.version) == Some(v)
  {
    if rows == [] {
      assert [v][..0] == [];
    } else {
      var init, last := rows[..|rows| - 1], rows[|rows| - 1];
      NewestAfterPut(init, v);
      var put := PutValidation(init, v);
      assert (put + [last])[..|put|] == put;
    }
  }

  lemma {:induction false} BoundIsRecorded(rows: seq<Observation>, candidates: seq<Observation>,
          ids: seq<ObservationId>)
    ensures
      var bound := Bound(rows, candidates, ids);
      bound.Some? ==> forall o | o in bound.value :: o in rows
  {
    if ids != [] {
      BoundIsRecorded(rows, candidates, ids[..|ids| - 1]);
      FoundIsIn(rows, ids[|ids| - 1]);
    }
  }

  lemma {:induction false} TreeMembersAreCandidates(candidates: seq<Observation>, entries: seq<TreeEntry>)
    ensures
      var members := TreeMembers(candidates, entries);
      members.Success? ==> forall o | o in members.value :: o in candidates
  {
    if entries != [] {
      TreeMembersAreCandidates(candidates, entries[..|entries| - 1]);
      MatchingMember(candidates, entries[|entries| - 1]);
    }
  }

  lemma SnapshotMembersAreRecorded(s: Store, x: Snapshot)
    ensures SnapshotObservations(s, x).Success? ==> AllIn(SnapshotObservations(s, x).value, s)
  {
    if SnapshotObservations(s, x).Success? {
      var candidates := RunRows(s.observations, x.source, x.run, x.at);
      RunRowsMember(s.observations, x.source, x.run, x.at);
      if x.evidence.bound.Some? { BoundIsRecorded(s.observations, candidates, x.evidence.bound.value); }
      var bound := if x.evidence.bound.None? then Some(candidates)
        else Bound(s.observations, candidates, x.evidence.bound.value);
      if x.tree.Some? { TreeMembersAreCandidates(bound.value, EntriesOf(s, x.tree.value)); }
      var members := if x.tree.None? then bound.value else TreeMembers(bound.value, EntriesOf(s, x.tree.value)).value;
      SortProperties(members, KeyLe);
    }
  }

  lemma {:induction false} GatheredAreRecorded(ranks: Ranks, s: Store, selections: seq<Selection>)
    requires Gather(ranks, s, selections).Success?
    ensures forall p | p in Gather(ranks, s, selections).value.picked :: p.observation in s.observations
  {
    if selections != [] {
      var init, last := selections[..|selections| - 1], selections[|selections| - 1];
      GatheredAreRecorded(ranks, s, init);
      var pinned := Pin(ranks, s, last.selector).value;
      if pinned.ExactSnapshot? { SnapshotMembersAreRecorded(s, pinned.snapshot); }
        else { SelectedAreRecorded(ranks, s, pinned); }
      var rows := Select(ranks, s, pinned).value;
      forall p | p in WithRole(rows, last.role) ensures p.observation in s.observations {
        var i :| 0 <= i < |rows| && WithRole(rows, last.role)[i] == p;
        assert rows[i] in rows;
      }
    }
  }

  lemma {:induction false} MembersAreHeld(ranks: Ranks, repo: Repo, d: Definition, m: Member)
    requires Consistent(repo.store) && Resolve(ranks, repo, d).Success? && m in Resolve(ranks, repo, d).value.members
    ensures m.content in repo.store.contents
  {
    GatheredAreRecorded(ranks, repo.store, d.selections);
    var picked := Gather(ranks, repo.store, d.selections).value.picked;
    SortProperties(picked, Order(ranks.idText));
    var sorted := Sort(picked, Order(ranks.idText));
    var i :| 0 <= i < |sorted| && MemberOf(sorted[i]) == m;
    assert sorted[i] in picked;
  }

  /** One newer result that is not a pass, on any member a definition wants validated, refuses the pinned dataset. */
  lemma {:induction false} LaterFailureRefuses(ranks: Ranks, past: seq<Event>, d: Definition, m: Member, v: Validation)
    requires Resolve(ranks, HappenAll(ranks.snapshots, EMPTY_REPO, past), d).Success?
    requires m in Resolve(ranks, HappenAll(ranks.snapshots, EMPTY_REPO, past), d).value.members
    requires v.content == m.content && (v.validator, v.version) in d.constraints.validations && v.status != "passed"
    requires forall w | w in HappenAll(ranks.snapshots, EMPTY_REPO, past).validations
               && w.content == v.content && w.validator == v.validator && w.version == v.version :: w.at < v.at
    ensures
      var now, later := HappenAll(ranks.snapshots, EMPTY_REPO, past),
        HappenAll(ranks.snapshots, EMPTY_REPO, past + [Validate(v)]);
      Resolve(ranks, later, d.(selections := PinAll(ranks, now.store, d.selections))).Failure?
  {
    var now := HappenAll(ranks.snapshots, EMPTY_REPO, past);
    HappensKeeps(ranks.snapshots, EMPTY_REPO, past);
    MembersAreHeld(ranks, now, d, m);
    assert (past + [Validate(v)])[..|past|] == past;
    NewestAfterPut(now.validations, v);
    var later := HappenAll(ranks.snapshots, EMPTY_REPO, past + [Validate(v)]);
    assert !Passing(later, m.content, (v.validator, v.version));
    PinnedDatasetIsReproducible(ranks, past, [Validate(v)], d);
  }
}
