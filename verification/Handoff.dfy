/** Steps of a repository, datasets resolved in its states, and their handoff (repository.py, dataset_export.py). */
module Handoff {
  import opened Models
  import opened Ordering
  import opened Envelopes
  import opened Detached
  import Export

  /** The ids a repository computes: of payloads, and of content bytes. */
  datatype Ids = Ids(digest: Digest, hash: Bytes -> string)

  function RevisionIds(digest: Digest): IdentifySource {
    (source: SourceId) => (definition: Fields) => RevisionId(digest, source, definition)
  }

  /** Revision ids tell definitions apart, and content ids have the form of a SHA-256. */
  ghost predicate Lawful(ids: Ids) {
    InjectiveEach(RevisionIds(ids.digest)) && forall data :: ContentIdForm(ids.hash(data))
  }

  // ---- states and steps -------------------------------------------------------------------------------

  /** Source rows, content rows, observation rows, and the blobs, each intact or damaged. */
  datatype State = State(
    sources: map<SourceId, Fields>, contents: map<string, Content>, observations: map<string, Record>,
    blobs: map<string, bool>)

  const NEW := State(map[], map[], map[], map[])

  /** What a recorder is told about an observation. */
  datatype Sighting = Sighting(
    artifactKey: string, source: Option<SourceId>, run: string, operation: string, at: int,
    path: Option<string>, locator: Option<string>, metadata: Fields)

  datatype Step =
    | RegisterSource(registration: Registration)
    | StoreBytes(data: Bytes, mediaType: Option<string>)
    | Ingest(data: Bytes, mediaType: Option<string>, sighting: Sighting)
    | Observe(contentId: string, sighting: Sighting)
    | Cleanup(rows: set<string>, files: set<string>)
    | Damage(contentId: string)

  function Revisions(digest: Digest, sources: map<SourceId, Fields>, source: SourceId): seq<Versioned>
    requires source in sources
  {
    var history := DecodeHistory(RevisionIds(digest)(source), sources[source]);
    if history.Success? then history.value.revisions else []
  }

  /** What the state answers when asked for evidence. */
  function Look(digest: Digest, y: State): View {
    View(y.observations, y.contents,
         map source | source in y.sources :: Revisions(digest, y.sources, source),
         set c | c in y.blobs && y.blobs[c])
  }

  function PutBlob(y: State, id: string): State { if id in y.blobs then y else y.(blobs := y.blobs[id := true]) }

  /** A content row stays as it was first written; another size under the same id is a conflict. */
  function PutContent(y: State, id: string, c: Content): Option<State> {
    if id !in y.contents then Some(y.(contents := y.contents[id := c]))
    else if y.contents[id].byteSize != c.byteSize then None
    else Some(y)
  }

  /** An observation of a source carries the id of the source's current definition. */
  function Pinned(digest: Digest, y: State, g: Sighting): Option<Fields> {
    if g.source.None? then Some(g.metadata)
    else if g.source.value !in y.sources then None
    else
      var history := DecodeHistory(RevisionIds(digest)(g.source.value), y.sources[g.source.value]);
      if history.Failure? then None else Some(g.metadata[REVISION_KEY := Text(history.value.revisionId)])
  }

  function RecordOf(digest: Digest, g: Sighting, contentId: string, metadata: Fields): Record {
    var id :=
      ObservationId(digest, g.artifactKey, contentId, g.run, g.operation, Decimal(g.at), TextOrNull(g.path),
                    TextOrNull(g.locator));
    Record(id, g.artifactKey, contentId, g.source, g.run, g.operation, g.at, g.path, g.locator, metadata)
  }

  /** The content row and the observation row in one transaction; when it raises, neither is written. */
  function RecordSighting(digest: Digest, y: State, g: Sighting, contentId: string, c: Content): State {
    var metadata := Pinned(digest, y, g);
    if metadata.None? then y
    else
      var r, written := RecordOf(digest, g, contentId, metadata.value), PutContent(y, contentId, c);
      if written.None? || r.observationId in y.observations then y
      else written.value.(observations := y.observations[r.observationId := r])
  }

  ghost predicate Observed(y: State, contentId: string) {
    exists id :: id in y.observations && y.observations[id].contentId == contentId
  }

  ghost function Next(ids: Ids, y: State, step: Step): State {
    match step
    case RegisterSource(r) =>
      var registered := Register(RevisionIds(ids.digest), y.sources, r);
      if registered.Failure? then y else y.(sources := registered.value)
    case StoreBytes(data, mediaType) =>
      var id := ids.hash(data);
      var written := PutContent(PutBlob(y, id), id, Content(|data|, mediaType));
      if written.None? then PutBlob(y, id) else written.value
    case Ingest(data, mediaType, g) =>
      RecordSighting(ids.digest, PutBlob(y, ids.hash(data)), g, ids.hash(data), Content(|data|, mediaType))
    case Observe(id, g) =>
      if id !in y.contents || id !in y.blobs then y else RecordSighting(ids.digest, y, g, id, y.contents[id])
    case Cleanup(rows, files) =>
      var gone := set c | c in rows && !Observed(y, c);
      y.(contents := y.contents - gone, blobs := y.blobs - (files * gone))
    case Damage(id) => if id in y.blobs then y.(blobs := y.blobs[id := false]) else y
  }

  ghost function After(ids: Ids, y: State, steps: seq<Step>): State {
    if steps == [] then y else Next(ids, After(ids, y, steps[..|steps| - 1]), steps[|steps| - 1])
  }

  // ---- what every reachable state keeps -----------------------------------------------------------------

  /** The source's record lists exactly these definitions under their own ids, the current one among them. */
  ghost predicate HistoryOf(digest: Digest, sources: map<SourceId, Fields>, source: SourceId,
          definitions: set<Fields>) {
    var idOf := RevisionIds(digest)(source);
    && source in sources
    && var history := DecodeHistory(idOf, sources[source]);
       && history.Success? && history.value.revisionId == idOf(history.value.definition)
       && Lists(idOf, history.value.revisions, definitions) && history.value.definition in definitions
  }

  ghost predicate HistoryKept(digest: Digest, sources: map<SourceId, Fields>, source: SourceId) {
    exists definitions :: HistoryOf(digest, sources, source, definitions)
  }

  /** Whatever source definition an observation was made under is still on record. */
  ghost predicate PinResolves(digest: Digest, y: State, r: Record) {
    r.source.Some? ==>
      && r.source.value in y.sources && Get(r.metadata, REVISION_KEY).Text?
      && FindVersion(Revisions(digest, y.sources, r.source.value), Get(r.metadata, REVISION_KEY).text).Some?
  }

  ghost predicate RowKept(digest: Digest, y: State, id: string) {
    && id in y.observations && Genuine(digest, Look(digest, y), id)
    && y.observations[id].contentId in y.contents && PinResolves(digest, y, y.observations[id])
  }

  ghost predicate Kept(ids: Ids, y: State) {
    && (forall source | source in y.sources :: HistoryKept(ids.digest, y.sources, source))
    && (forall id | id in y.observations :: RowKept(ids.digest, y, id))
    && (forall c | c in y.contents :: ContentIdForm(c) && y.contents[c].byteSize >= 0)
  }

  /** Observations stay as they are, and so do the contents they name and the definitions they pin. */
  ghost predicate Continues(digest: Digest, y: State, z: State) {
    forall id | id in y.observations ::
      && id in z.observations && z.observations[id] == y.observations[id]
      && var r := y.observations[id];
         && (r.contentId in y.contents ==>
           r.contentId in z.contents && z.contents[r.contentId] == y.contents[r.contentId])
         && (PinResolves(digest, y, r) ==>
               PinResolves(digest, z, r) && RevisionOf(Look(digest, z), r) == RevisionOf(Look(digest, y), r))
  }

  /** Every version the source's record could find is found as before. */
  ghost predicate VersionsStay(digest: Digest, before: map<SourceId, Fields>, after: map<SourceId, Fields>,
          source: SourceId)
    requires source in before && source in after
  {
    forall id | FindVersion(Revisions(digest, before, source), id).Some? ::
      FindVersion(Revisions(digest, after, source), id) == FindVersion(Revisions(digest, before, source), id)
  }

  lemma {:induction false} RegisteredIsKept(digest: Digest, sources: map<SourceId, Fields>, r: Registration)
    requires Injective(RevisionIds(digest)(r.source))
    requires r.source in sources ==> HistoryKept(digest, sources, r.source)
    ensures
      var registered := Register(RevisionIds(digest), sources, r);
      && registered.Success? && r.source in registered.value
      && registered.value == sources[r.source := registered.value[r.source]]
      && HistoryKept(digest, registered.value, r.source)
      && (r.source in sources ==> VersionsStay(digest, sources, registered.value, r.source))
  {
    var idOf := RevisionIds(digest)(r.source);
    if r.source in sources {
      var definitions :| HistoryOf(digest, sources, r.source, definitions);
      RegisteredAgain(digest, sources, r, definitions);
    } else {
      HistoryRoundTrip(idOf, r.definition, [], {});
      assert HistoryOf(digest, Register(RevisionIds(digest), sources, r).value, r.source, {} + {r.definition});
    }
  }

  lemma {:induction false} RegisteredAgain(digest: Digest, sources: map<SourceId, Fields>, r: Registration,
        definitions: set<Fields>)
    requires Injective(RevisionIds(digest)(r.source)) && HistoryOf(digest, sources, r.source, definitions)
    ensures
      var registered := Register(RevisionIds(digest), sources, r);
      && registered.Success? && r.source in registered.value
      && registered.value == sources[r.source := registered.value[r.source]]
      && HistoryOf(digest, registered.value, r.source, definitions + {r.definition})
      && VersionsStay(digest, sources, registered.value, r.source)
  {
    var idOf := RevisionIds(digest)(r.source);
    var existing := DecodeHistory(idOf, sources[r.source]).value.revisions;
    HistoryRoundTrip(idOf, r.definition, existing, definitions);
    var after := Register(RevisionIds(digest), sources, r).value;
    assert HistoryOf(digest, after, r.source, definitions + {r.definition});
    forall id | FindVersion(existing, id).Some?
      ensures FindVersion(Revisions(digest, after, r.source), id) == FindVersion(existing, id)
    {
      VersionSurvives(idOf, existing, definitions, Revisions(digest, after, r.source), definitions + {r.definition},
        id);
    }
  }

  /** Registering a definition keeps every source's history and every version it could find. */
  lemma {:induction false} RegisterKeeps(digest: Digest, sources: map<SourceId, Fields>, r: Registration)
    requires InjectiveEach(RevisionIds(digest))
    requires forall source | source in sources :: HistoryKept(digest, sources, source)
    ensures
      var registered := Register(RevisionIds(digest), sources, r);
      && registered.Success?
      && (forall source | source in registered.value :: HistoryKept(digest, registered.value, source))
      && (forall source | source in sources ::
        source in registered.value && VersionsStay(digest, sources, registered.value, source))
  {
    assert Injective(RevisionIds(digest)(r.source));
    RegisteredIsKept(digest, sources, r);
    OthersKept(digest, sources, Register(RevisionIds(digest), sources, r).value, r.source);
  }

  lemma OthersKept(digest: Digest, sources: map<SourceId, Fields>, after: map<SourceId, Fields>, source: SourceId)
    requires source in after && after == sources[source := after[source]]
    requires forall x | x in sources :: HistoryKept(digest, sources, x)
    ensures forall x | x in after && x != source :: HistoryKept(digest, after, x)
    ensures forall x | x in sources && x != source :: Revisions(digest, after, x) == Revisions(digest, sources, x)
  {
    forall x | x in after && x != source ensures HistoryKept(digest, after, x) {
      assert HistoryKept(digest, sources, x);
      var definitions :| HistoryOf(digest, sources, x, definitions);
      assert HistoryOf(digest, after, x, definitions);
    }
  }

  lemma {:induction false} VersionSurvives(idOf: Identify, vs: seq<Versioned>, definitions: set<Fields>,
        ws: seq<Versioned>, more: set<Fields>, id: string)
    requires Lists(idOf, vs, definitions) && Lists(idOf, ws, more) && definitions <= more && FindVersion(vs, id).Some?
    ensures FindVersion(ws, id) == FindVersion(vs, id)
  {
    FoundIsListed(vs, id);
    var v := FindVersion(vs, id).value;
    assert v in ws;
    StrictIsDistinct(ws);
    FindDistinct(ws, v);
  }

  lemma SameSourcesSameRevision(digest: Digest, y: State, z: State, r: Record)
    requires z.sources == y.sources
    ensures PinResolves(digest, z, r) <==> PinResolves(digest, y, r)
    ensures RevisionOf(Look(digest, z), r) == RevisionOf(Look(digest, y), r)
  {
    assert Look(digest, z).histories == Look(digest, y).histories;
  }

  lemma RevisionStays(digest: Digest, y: State, z: State, r: Record)
    requires PinResolves(digest, y, r)
    requires r.source.Some? ==>
        r.source.value in z.sources && VersionsStay(digest, y.sources, z.sources, r.source.value)
    ensures PinResolves(digest, z, r) && RevisionOf(Look(digest, z), r) == RevisionOf(Look(digest, y), r)
  {
  }

  lemma RegistrationContinues(ids: Ids, y: State, step: Step)
    requires Lawful(ids) && Kept(ids, y) && step.RegisterSource?
    ensures Kept(ids, Next(ids, y, step)) && Continues(ids.digest, y, Next(ids, y, step))
  {
    var z := Next(ids, y, step);
    RegisterKeeps(ids.digest, y.sources, step.registration);
    OtherSourcesContinue(ids, y, z);
  }

  lemma OtherSourcesContinue(ids: Ids, y: State, z: State)
    requires Kept(ids, y) && z == y.(sources := z.sources)
    requires forall source | source in z.sources :: HistoryKept(ids.digest, z.sources, source)
    requires forall source | source in y.sources ::
        source in z.sources && VersionsStay(ids.digest, y.sources, z.sources, source)
    ensures Kept(ids, z) && Continues(ids.digest, y, z)
  {
    forall id | id in y.observations
      ensures RowKept(ids.digest, z, id)
      ensures RevisionOf(Look(ids.digest, z), y.observations[id]) == RevisionOf(Look(ids.digest, y), y.observations[id])
    {
      assert RowKept(ids.digest, y, id);
      RevisionStays(ids.digest, y, z, y.observations[id]);
    }
  }

  /** A step that leaves sources and observations alone, and every content an observation names. */
  lemma PlainContinues(ids: Ids, y: State, z: State)
    requires Kept(ids, y) && z.sources == y.sources && z.observations == y.observations
    requires forall id | id in y.observations ::
      var c := y.observations[id].contentId; c in z.contents && z.contents[c] == y.contents[c]
    requires forall c | c in z.contents :: ContentIdForm(c) && z.contents[c].byteSize >= 0
    ensures Kept(ids, z) && Continues(ids.digest, y, z)
  {
    forall id | id in y.observations
      ensures RowKept(ids.digest, z, id)
      ensures RevisionOf(Look(ids.digest, z), y.observations[id]) == RevisionOf(Look(ids.digest, y), y.observations[id])
      ensures PinResolves(ids.digest, z, y.observations[id])
    {
      assert RowKept(ids.digest, y, id);
      SameSourcesSameRevision(ids.digest, y, z, y.observations[id]);
    }
  }

  lemma PinnedIsFound(digest: Digest, y: State, g: Sighting, contentId: string)
    requires forall source | source in y.sources :: HistoryKept(digest, y.sources, source)
    requires Pinned(digest, y, g).Some?
    ensures PinResolves(digest, y, RecordOf(digest, g, contentId, Pinned(digest, y, g).value))
  {
    if g.source.Some? {
      var source := g.source.value;
      var idOf := RevisionIds(digest)(source);
      assert HistoryKept(digest, y.sources, source);
      var definitions :| HistoryOf(digest, y.sources, source, definitions);
      var current := DecodeHistory(idOf, y.sources[source]).value.definition;
      var revisions, v := Revisions(digest, y.sources, source), Versioned(idOf(current), current);
      assert v in revisions;
      StrictIsDistinct(revisions);
      FindDistinct(revisions, v);
    }
  }

  lemma SightingContinues(ids: Ids, y: State, g: Sighting, contentId: string, c: Content)
    requires Kept(ids, y) && ContentIdForm(contentId) && c.byteSize >= 0
    ensures
      var z := RecordSighting(ids.digest, y, g, contentId, c);
      Kept(ids, z) && Continues(ids.digest, y, z)
  {
    var z := RecordSighting(ids.digest, y, g, contentId, c);
    if z.observations != y.observations {
      PinnedIsFound(ids.digest, y, g, contentId);
      var r := RecordOf(ids.digest, g, contentId, Pinned(ids.digest, y, g).value);
      ContentAdded(ids, y, contentId, c);
      var before := PutContent(y, contentId, c).value;
      ObservationAdded(ids, before, z, r);
      ContinuesTransitive(ids, y, before, z);
    } else {
      Stutters(ids, y);
    }
  }

  lemma Stutters(ids: Ids, y: State)
    requires Kept(ids, y)
    ensures Continues(ids.digest, y, y)
  {
    forall id | id in y.observations ensures RowKept(ids.digest, y, id) {}
    PlainContinues(ids, y, y);
  }

  lemma ContentAdded(ids: Ids, y: State, contentId: string, c: Content)
    requires Kept(ids, y) && ContentIdForm(contentId) && c.byteSize >= 0 && PutContent(y, contentId, c).Some?
    ensures
      var z := PutContent(y, contentId, c).value;
      && Kept(ids, z) && Continues(ids.digest, y, z) && contentId in z.contents
      && z.sources == y.sources && z.observations == y.observations
  {
    forall id | id in y.observations ensures RowKept(ids.digest, y, id) {}
    PlainContinues(ids, y, PutContent(y, contentId, c).value);
  }

  lemma ObservationAdded(ids: Ids, y: State, z: State, r: Record)
    requires Kept(ids, y) && r.observationId !in y.observations && r.contentId in y.contents
    requires z == y.(observations := y.observations[r.observationId := r])
    requires r.observationId == ObservationId(ids.digest, r.artifactKey, r.contentId, r.run, r.operation, Decimal(r.at),
                                              TextOrNull(r.path), TextOrNull(r.locator))
    requires PinResolves(ids.digest, y, r)
    ensures Kept(ids, z) && Continues(ids.digest, y, z)
  {
    forall id | id in z.observations ensures RowKept(ids.digest, z, id) {
      SameSourcesSameRevision(ids.digest, y, z, z.observations[id]);
      if id in y.observations { assert RowKept(ids.digest, y, id); }
    }
    forall id | id in y.observations
      ensures RevisionOf(Look(ids.digest, z), y.observations[id]) == RevisionOf(Look(ids.digest, y), y.observations[id])
      ensures PinResolves(ids.digest, z, y.observations[id])
    {
      assert RowKept(ids.digest, z, id);
      SameSourcesSameRevision(ids.digest, y, z, y.observations[id]);
    }
  }

  lemma {:induction false} NextContinues(ids: Ids, y: State, step: Step)
    requires Lawful(ids) && Kept(ids, y)
    ensures Kept(ids, Next(ids, y, step)) && Continues(ids.digest, y, Next(ids, y, step))
  {
    match step
    case RegisterSource(r) => RegistrationContinues(ids, y, step);
    case Ingest(data, mediaType, g) => IngestContinues(ids, y, ids.hash(data), Content(|data|, mediaType), g);
    case Observe(id, g) =>
      if id in y.contents { SightingContinues(ids, y, g, id, y.contents[id]); }
      Stutters(ids, y);
    case _ => OtherStepContinues(ids, y, step);
  }

  lemma IngestContinues(ids: Ids, y: State, contentId: string, c: Content, g: Sighting)
    requires Kept(ids, y) && ContentIdForm(contentId) && c.byteSize >= 0
    ensures
      var z := RecordSighting(ids.digest, PutBlob(y, contentId), g, contentId, c);
      Kept(ids, z) && Continues(ids.digest, y, z)
  {
    forall id | id in y.observations ensures RowKept(ids.digest, y, id) {}
    var stored := PutBlob(y, contentId);
    PlainContinues(ids, y, stored);
    SightingContinues(ids, stored, g, contentId, c);
    ContinuesTransitive(ids, y, stored, RecordSighting(ids.digest, stored, g, contentId, c));
  }

  lemma OtherStepContinues(ids: Ids, y: State, step: Step)
    requires Lawful(ids) && Kept(ids, y) && (step.StoreBytes? || step.Cleanup? || step.Damage?)
    ensures Kept(ids, Next(ids, y, step)) && Continues(ids.digest, y, Next(ids, y, step))
  {
    forall id | id in y.observations ensures RowKept(ids.digest, y, id) {}
    match step
    case StoreBytes(data, mediaType) => BytesContinue(ids, y, ids.hash(data), Content(|data|, mediaType));
    case Cleanup(rows, files) => CleanupContinues(ids, y, step);
    case Damage(id) => PlainContinues(ids, y, Next(ids, y, step));
  }

  lemma BytesContinue(ids: Ids, y: State, contentId: string, c: Content)
    requires Kept(ids, y) && ContentIdForm(contentId) && c.byteSize >= 0
    ensures
      var stored := PutBlob(y, contentId);
      var z := if PutContent(stored, contentId, c).None? then stored else PutContent(stored, contentId, c).value;
      Kept(ids, z) && Continues(ids.digest, y, z)
  {
    forall id | id in y.observations ensures RowKept(ids.digest, y, id) {}
    var stored := PutBlob(y, contentId);
    PlainContinues(ids, y, stored);
    if PutContent(stored, contentId, c).Some? {
      ContentAdded(ids, stored, contentId, c);
      ContinuesTransitive(ids, y, stored, PutContent(stored, contentId, c).value);
    }
  }

  lemma CleanupContinues(ids: Ids, y: State, step: Step)
    requires Kept(ids, y) && step.Cleanup?
    ensures Kept(ids, Next(ids, y, step)) && Continues(ids.digest, y, Next(ids, y, step))
  {
    forall id | id in y.observations ensures Observed(y, y.observations[id].contentId) {
      assert RowKept(ids.digest, y, id);
    }
    PlainContinues(ids, y, Next(ids, y, step));
  }

  lemma {:induction false} ContinuesTransitive(ids: Ids, x: State, y: State, z: State)
    requires Kept(ids, x) && Continues(ids.digest, x, y) && Continues(ids.digest, y, z)
    ensures Continues(ids.digest, x, z)
  {
    forall id | id in x.observations ensures RowKept(ids.digest, x, id) {}
  }

  lemma {:induction false} StepsContinue(ids: Ids, y: State, steps: seq<Step>)
    requires Lawful(ids) && Kept(ids, y)
    ensures Kept(ids, After(ids, y, steps)) && Continues(ids.digest, y, After(ids, y, steps))
  {
    if steps == [] {
      PlainContinues(ids, y, y) by { forall id | id in y.observations ensures RowKept(ids.digest, y, id) {} }
    } else {
      var init := steps[..|steps| - 1];
      StepsContinue(ids, y, init);
      NextContinues(ids, After(ids, y, init), steps[|steps| - 1]);
      ContinuesTransitive(ids, y, After(ids, y, init), After(ids, y, steps));
    }
  }

  lemma {:induction false} AfterSplits(ids: Ids, y: State, first: seq<Step>, rest: seq<Step>)
    ensures After(ids, y, first + rest) == After(ids, After(ids, y, first), rest)
  {
    if rest == [] {
      assert first + rest == first;
    } else {
      AfterSplits(ids, y, first, rest[..|rest| - 1]);
      assert (first + rest)[..|first + rest| - 1] == first + rest[..|rest| - 1];
    }
  }

  // ---- resolving a dataset ------------------------------------------------------------------------------

  /** An observation some selector picked, and the role it was picked for. */
  datatype Pick = Pick(observationId: string, role: Option<string>)

  datatype ResolutionError = UnknownObservation(id: string) | RepeatedArtifact

  function MembersFor(v: View, picks: seq<Pick>): Result<seq<Member>, ResolutionError> {
    if picks == [] then Success([])
    else
      var front, last := MembersFor(v, picks[..|picks| - 1]), picks[|picks| - 1];
      if front.Failure? then front
      else if last.observationId !in v.observations then Failure(UnknownObservation(last.observationId))
      else
        var r := v.observations[last.observationId];
        Success(front.value + [Member(r.artifactKey, last.observationId, r.contentId, last.role)])
  }

  predicate MemberLe(a: Member, b: Member) {
    if a.artifactKey != b.artifactKey then TextLe(a.artifactKey, b.artifactKey)
    else if RoleText(a.role) != RoleText(b.role) then TextLe(RoleText(a.role), RoleText(b.role))
    else TextLe(a.observationId, b.observationId)
  }

  function RoleText(role: Option<string>): string { if role.Some? then role.value else "" }

  predicate KeysDiffer(members: seq<Member>) {
    forall i, j | 0 <= i < j < |members| :: members[i].artifactKey != members[j].artifactKey
  }

  /** The picked observations in the order of their keys, each artifact once, under the ids of that membership. */
  function ResolveOver(digest: Digest, v: View, picks: seq<Pick>, definition: Fields, resolution: Fields)
    : Result<Detached.Dataset, ResolutionError>
  {
    var members := MembersFor(v, picks);
    if members.Failure? then Failure(members.error)
    else
      var ordered := Sort(members.value, MemberLe);
      if !KeysDiffer(ordered) then Failure(RepeatedArtifact)
      else
        Success(DatasetOf(digest("dataset", MemberPayload("observation_id", ordered, (m: Member) => m.observationId)),
                          digest("dataset-content", MemberPayload("content_id", ordered, (m: Member) => m.contentId)),
                          definition, ordered, resolution))
  }

  lemma {:induction false} MembersAreRecorded(ids: Ids, y: State, picks: seq<Pick>)
    requires Kept(ids, y) && MembersFor(Look(ids.digest, y), picks).Success?
    ensures forall m | m in MembersFor(Look(ids.digest, y), picks).value ::
        MemberRecorded(ids.digest, Look(ids.digest, y), m)
  {
    if picks != [] {
      MembersAreRecorded(ids, y, picks[..|picks| - 1]);
      assert RowKept(ids.digest, y, picks[|picks| - 1].observationId);
    }
  }

  lemma MemberOrder()
    ensures TotalPreorder(MemberLe)
  {
    TextOrder();
  }

  lemma HistoriesAreGenuine(ids: Ids, y: State)
    requires Kept(ids, y)
    ensures HistoriesGenuine(ids.digest, Look(ids.digest, y))
  {
    var v := Look(ids.digest, y);
    forall source, x | source in v.histories && x in v.histories[source]
      ensures x.id == RevisionId(ids.digest, source, x.definition) {
      assert HistoryKept(ids.digest, y.sources, source);
    }
  }

  /** In every reachable state, whatever resolves is made of genuine, complete evidence. */
  lemma {:induction false} ResolutionIsRecorded(ids: Ids, steps: seq<Step>, picks: seq<Pick>, definition: Fields,
        resolution: Fields)
    requires Lawful(ids)
    requires ResolveOver(ids.digest, Look(ids.digest, After(ids, NEW, steps)), picks, definition, resolution).Success?
    ensures
      var v := Look(ids.digest, After(ids, NEW, steps));
      Resolved(ids.digest, v, ResolveOver(ids.digest, v, picks, definition, resolution).value)
  {
    StepsContinue(ids, NEW, steps);
    var y := After(ids, NEW, steps);
    ResolvesRecorded(ids, y, picks, definition, resolution);
  }

  lemma {:induction false} ResolvesRecorded(ids: Ids, y: State, picks: seq<Pick>, definition: Fields,
          resolution: Fields)
    requires Kept(ids, y) && ResolveOver(ids.digest, Look(ids.digest, y), picks, definition, resolution).Success?
    ensures Resolved(ids.digest, Look(ids.digest, y),
        ResolveOver(ids.digest, Look(ids.digest, y), picks, definition, resolution).value)
  {
    var v := Look(ids.digest, y);
    HistoriesAreGenuine(ids, y);
    MembersAreRecorded(ids, y, picks);
    var members := MembersFor(v, picks).value;
    MemberOrder();
    SortProperties(members, MemberLe);
    var ordered := Sort(members, MemberLe);
    forall i, j | 0 <= i < j < |ordered| ensures TextLe(ordered[i].artifactKey, ordered[j].artifactKey) {
      assert MemberLe(ordered[i], ordered[j]) && ordered[i].artifactKey != ordered[j].artifactKey;
    }
  }

  // ---- the handoff --------------------------------------------------------------------------------------

  /** A later state of the repository still holds everything the earlier one knew about a dataset's members. */
  lemma ResolvedStays(ids: Ids, y: State, z: State, d: Detached.Dataset)
    requires Kept(ids, y) && Kept(ids, z) && Continues(ids.digest, y, z) && Resolved(ids.digest, Look(ids.digest, y), d)
    ensures Resolved(ids.digest, Look(ids.digest, z), d)
        && LaterFor(Look(ids.digest, y), Look(ids.digest, z), d.members)
  {
    HistoriesAreGenuine(ids, z);
    forall m | m in d.members
      ensures MemberRecorded(ids.digest, Look(ids.digest, z), m)
      ensures RevisionOf(Look(ids.digest, z), y.observations[m.observationId])
          == RevisionOf(Look(ids.digest, y), y.observations[m.observationId])
    {
      assert MemberRecorded(ids.digest, Look(ids.digest, y), m);
      assert RowKept(ids.digest, y, m.observationId);
    }
  }

  /**
   * A dataset resolved after any history, exported after any more of it under safe paths, written, read, and
   * imported after yet more of it, is the same dataset, provided its blobs are then intact.
   */
  lemma {:induction false} DetachedHandoff(ids: Ids, dump: Json -> Bytes, load: Bytes -> Json, past: seq<Step>,
        between: seq<Step>, after: seq<Step>, picks: seq<Pick>, definition: Fields, resolution: Fields,
        paths: string -> string)
    requires Lawful(ids) && ReadsBack(dump, load)
    requires ResolveOver(ids.digest, Look(ids.digest, After(ids, NEW, past)), picks, definition, resolution).Success?
    requires
      var d := ResolveOver(ids.digest, Look(ids.digest, After(ids, NEW, past)), picks, definition, resolution).value;
      PathsSafe(d, paths) && forall m | m in d.members ::
        m.contentId in Look(ids.digest, After(ids, NEW, past + between + after)).intact
    ensures
      var d := ResolveOver(ids.digest, Look(ids.digest, After(ids, NEW, past)), picks, definition, resolution).value;
      var exported := ExportManifest(ids.digest, Look(ids.digest, After(ids, NEW, past + between)), d, paths);
      && exported.Success?
      && var read := FromJson(ids.digest, load(dump(ToJson(ids.digest, exported.value))));
         read.Success?
         && ImportManifest(ids.digest, Look(ids.digest, After(ids, NEW, past + between + after)), read.value)
           == Success(d)
  {
    var x := After(ids, NEW, past);
    AfterSplits(ids, NEW, past, between);
    AfterSplits(ids, NEW, past + between, after);
    StepsContinue(ids, NEW, past);
    StepsContinue(ids, x, between);
    var y := After(ids, x, between);
    StepsContinue(ids, y, after);
    var z := After(ids, y, after);
    ResolvesRecorded(ids, x, picks, definition, resolution);
    var d := ResolveOver(ids.digest, Look(ids.digest, x), picks, definition, resolution).value;
    ResolvedStays(ids, x, y, d);
    ResolvedStays(ids, y, z, d);
    HandoffBetween(ids.digest, dump, load, Look(ids.digest, y), Look(ids.digest, z), d, paths);
  }
}
