/** Detached dataset manifests: export, bytes, validation and import (dataset_export.py). */
module Detached {
  import opened Models
  import opened Ordering
  import opened Envelopes
  import Export

  /** The stable id of a payload under a prefix. */
  type Digest = (string, Json) -> string

  datatype ManifestError = Refused | EvidenceUnavailable | CannotVerify

  function TextOrNull(value: Option<string>): Json { if value.Some? then Text(value.value) else Null }

  // ---- recorded evidence ------------------------------------------------------------------------

  datatype Record = Record(
    observationId: string, artifactKey: string, contentId: string, source: Option<string>, run: string,
    operation: string, at: int, path: Option<string>, locator: Option<string>, metadata: Fields)

  /** The id an observation has, from its identity payload. */
  function ObservationId(digest: Digest, artifactKey: string, contentId: string, run: string, operation: string,
                         at: Json, path: Json, locator: Json): string
  {
    digest("obs",
      Object(map["kind" := Text("content"), "artifact_key" := Text(artifactKey), "content_id" := Text(contentId),
                 "run_id" := Text(run), "operation_id" := Text(operation), "observed_at" := at,
                 "source_path" := path, "upstream_locator" := locator]))
  }

  function Optional(fields: Fields, key: string, value: Option<string>): Fields {
    if value.Some? then fields[key := Text(value.value)] else fields
  }

  /** The JSON form of an observation; keys without a value are left out. */
  function Evidence(r: Record): Fields {
    var base :=
      map["observation_id" := Text(r.observationId), "artifact_key" := Text(r.artifactKey),
          "content_id" := Text(r.contentId), "run_id" := Text(r.run), "operation_id" := Text(r.operation),
          "observed_at" := Decimal(r.at), "metadata" := Object(r.metadata)];
    Optional(Optional(Optional(base, "source_id", r.source), "source_path", r.path), "upstream_locator", r.locator)
  }

  lemma EvidenceReads(r: Record)
    ensures
      var e := Evidence(r);
      && Get(e, "observation_id") == Text(r.observationId) && Get(e, "artifact_key") == Text(r.artifactKey)
      && Get(e, "content_id") == Text(r.contentId) && Get(e, "run_id") == Text(r.run)
        && Get(e, "operation_id") == Text(r.operation)
      && Get(e, "observed_at") == Decimal(r.at) && Get(e, "source_id") == TextOrNull(r.source)
      && Get(e, "source_path") == TextOrNull(r.path) && Get(e, "upstream_locator") == TextOrNull(r.locator)
  {
    assert "run_id"[0] != "source_id"[0];
  }

  /** Ids of source-definition revisions, of specifications, and of a membership. */
  function RevisionId(digest: Digest, source: string, definition: Fields): string {
    digest("source-definition", Object(map["source_id" := Text(source), "definition" := Object(definition)]))
  }

  function SpecificationId(digest: Digest, definition: Fields): string { digest("dataset-specification",
        Object(definition)) }

  // ---- manifests --------------------------------------------------------------------------------

  datatype DetachedMember = DetachedMember(
    artifactKey: string, observationId: string, contentId: string, role: Option<string>, path: string,
    byteSize: int, mediaType: Option<string>, observation: Fields, revision: Option<Fields>)

  datatype Manifest = Manifest(
    datasetId: string, contentIdentity: string, definition: Fields, members: seq<DetachedMember>, resolution: Fields)

  function Triple(second: string, artifactKey: string, id: string, role: Option<string>): Json {
    Object(map["artifact_key" := Text(artifactKey), second := Text(id), "role" := TextOrNull(role)])
  }

  function ExactPayload(members: seq<DetachedMember>): Json {
    Array(seq(|members|, i requires 0 <= i < |members| =>
      Triple("observation_id", members[i].artifactKey, members[i].observationId, members[i].role)))
  }

  function ContentPayload(members: seq<DetachedMember>): Json {
    Array(seq(|members|, i requires 0 <= i < |members| =>
      Triple("content_id", members[i].artifactKey, members[i].contentId, members[i].role)))
  }

  const CONTENT_PREFIX := "sha256:"
  const HEX_LENGTH := 64

  predicate ContentIdForm(id: string) {
    && CONTENT_PREFIX <= id && |id| == |CONTENT_PREFIX| + HEX_LENGTH
    && forall i | |CONTENT_PREFIX| <= i < |id| :: '0' <= id[i] <= '9' || 'a' <= id[i] <= 'f'
  }

  predicate IsTextOrNull(j: Json) { j == Null || j.Text? }

  predicate IsNumber(j: Json) { j.Integer? || j.Decimal? || j.Bool? }

  /** The evidence carries the identity it claims. */
  predicate IdentityHolds(digest: Digest, m: DetachedMember) {
    var e := m.observation;
    && IsNumber(Get(e, "observed_at")) && Get(e, "run_id").Text? && Get(e, "operation_id").Text?
    && IsTextOrNull(Get(e, "source_path")) && IsTextOrNull(Get(e, "upstream_locator"))
    && m.observationId
      == ObservationId(digest, m.artifactKey, m.contentId, Get(e, "run_id").text, Get(e, "operation_id").text,
                       Get(e, "observed_at"), Get(e, "source_path"), Get(e, "upstream_locator"))
  }

  predicate RevisionHolds(digest: Digest, m: DetachedMember) {
    m.revision.Some? ==>
      && Get(m.observation, "source_id").Text? && Get(m.revision.value, "definition").Object?
      && Get(m.revision.value, "revision_id")
        == Text(RevisionId(digest, Get(m.observation, "source_id").text, Get(m.revision.value, "definition").fields))
  }

  predicate MemberValid(digest: Digest, m: DetachedMember) {
    && RevisionHolds(digest, m) && IdentityHolds(digest, m)
    && Export.SafeExportPath(m.path) && ContentIdForm(m.contentId)
    && Get(m.observation, "artifact_key") == Text(m.artifactKey)
    && Get(m.observation, "observation_id") == Text(m.observationId)
    && Get(m.observation, "content_id") == Text(m.contentId)
  }

  predicate KeysIncrease(members: seq<DetachedMember>) {
    forall i, j | 0 <= i < j < |members| ::
      TextLe(members[i].artifactKey, members[j].artifactKey) && members[i].artifactKey != members[j].artifactKey
  }

  predicate Valid(digest: Digest, m: Manifest) {
    && KeysIncrease(m.members)
    && digest("dataset", ExactPayload(m.members)) == m.datasetId
    && digest("dataset-content", ContentPayload(m.members)) == m.contentIdentity
    && forall x | x in m.members :: MemberValid(digest, x)
  }

  // ---- JSON form and bytes ------------------------------------------------------------------------

  function MemberFields(m: DetachedMember): Fields {
    map["artifact_key" := Text(m.artifactKey), "observation_id" := Text(m.observationId),
      "content_id" := Text(m.contentId),
        "role" := TextOrNull(m.role), "path" := Text(m.path), "byte_size" := Integer(m.byteSize),
        "media_type" := TextOrNull(m.mediaType), "observation" := Object(m.observation),
        "source_revision" := if m.revision.Some? then Object(m.revision.value) else Null]
  }

  function OptionalText(j: Json): Option<string> { if j.Text? then Some(j.text) else None }

  function ReadMember(j: Json): Result<DetachedMember, ManifestError> {
    if !j.Object? then Failure(Refused)
    else
      var f := j.fields;
      var key, observation, content, path := Get(f, "artifact_key"), Get(f, "observation_id"), Get(f, "content_id"),
        Get(f, "path");
      var role, mediaType, size := Get(f, "role"), Get(f, "media_type"), Get(f, "byte_size");
      var evidence, revision := Get(f, "observation"), Get(f, "source_revision");
      if !size.Integer? || size.number < 0 || !key.Text? || !observation.Text? || !content.Text? || !IsTextOrNull(role)
         || !path.Text? || !Export.SafeExportPath(path.text) || !IsTextOrNull(mediaType) || !evidence.Object?
         || !(revision == Null || revision.Object?)
      then Failure(Refused)
      else Success(DetachedMember(key.text, observation.text, content.text, OptionalText(role), path.text, size.number,
                                  OptionalText(mediaType), evidence.fields,
                                  if revision.Object? then Some(revision.fields) else None))
  }

  function ReadMembers(items: seq<Json>): Result<seq<DetachedMember>, ManifestError> {
    if items == [] then Success([])
    else
      var front, last := ReadMembers(items[..|items| - 1]), ReadMember(items[|items| - 1]);
      if front.Failure? then front
      else if last.Failure? then Failure(last.error)
      else Success(front.value + [last.value])
  }

  function MemberItems(members: seq<DetachedMember>): seq<Json> {
    seq(|members|, i requires 0 <= i < |members| => Object(MemberFields(members[i])))
  }

  function Payload(digest: Digest, m: Manifest): Fields {
    map["version" := Integer(1), "dataset_id" := Text(m.datasetId), "content_identity" := Text(m.contentIdentity),
        "specification_id" := Text(SpecificationId(digest, m.definition)), "definition" := Object(m.definition),
        "members" := Array(MemberItems(m.members)), "resolution" := Object(m.resolution)]
  }

  const MANIFEST_ID := "manifest_id"

  function ToJson(digest: Digest, m: Manifest): Json {
    var payload := Payload(digest, m);
    Object(payload[MANIFEST_ID := Text(digest("dataset-manifest-v1", Object(payload)))])
  }

  function FromJson(digest: Digest, j: Json): Result<Manifest, ManifestError> {
    if !j.Object? then Failure(Refused)
    else
      var f := j.fields - {MANIFEST_ID};
      if Get(f, "version") != Integer(1)
        || Get(j.fields, MANIFEST_ID) != Text(digest("dataset-manifest-v1", Object(f))) then Failure(Refused)
      else
        var id, identity, definition := Get(f, "dataset_id"), Get(f, "content_identity"), Get(f, "definition");
        var items, resolution := Get(f, "members"), Get(f, "resolution");
        if !items.Array? || !id.Text? || !identity.Text? || !definition.Object?
          || !resolution.Object? then Failure(Refused)
        else
          var members := ReadMembers(items.items);
          if members.Failure? then Failure(members.error)
          else
            var m := Manifest(id.text, identity.text, definition.fields, members.value, resolution.fields);
            if Get(f, "specification_id") != Text(SpecificationId(digest, m.definition))
              || !Valid(digest, m) then Failure(Refused)
            else Success(m)
  }

  lemma MemberRoundTrip(m: DetachedMember)
    requires Export.SafeExportPath(m.path) && m.byteSize >= 0
    ensures ReadMember(Object(MemberFields(m))) == Success(m)
  {
    MemberFieldsRead(m);
  }

  lemma MemberFieldsRead(m: DetachedMember)
    ensures
      var f := MemberFields(m);
      && Get(f, "artifact_key") == Text(m.artifactKey) && Get(f, "observation_id") == Text(m.observationId)
      && Get(f, "content_id") == Text(m.contentId) && Get(f, "role") == TextOrNull(m.role)
        && Get(f, "path") == Text(m.path)
      && Get(f, "byte_size") == Integer(m.byteSize) && Get(f, "media_type") == TextOrNull(m.mediaType)
      && Get(f, "observation") == Object(m.observation)
      && Get(f, "source_revision") == if m.revision.Some? then Object(m.revision.value) else Null
  {
    assert "role"[0] != "path"[0] && "content_id"[0] != "media_type"[0];
  }

  lemma {:induction false} MembersRoundTrip(members: seq<DetachedMember>)
    requires forall m | m in members :: Export.SafeExportPath(m.path) && m.byteSize >= 0
    ensures ReadMembers(MemberItems(members)) == Success(members)
  {
    if members != [] {
      var init, last := members[..|members| - 1], members[|members| - 1];
      assert members == init + [last];
      MembersRoundTrip(init);
      MemberRoundTrip(last);
      assert MemberItems(members)[..|members| - 1] == MemberItems(init);
    }
  }

  lemma PayloadReads(digest: Digest, m: Manifest)
    ensures
      var f := Payload(digest, m);
      && MANIFEST_ID !in f && Get(f, "version") == Integer(1)
      && Get(f, "dataset_id") == Text(m.datasetId) && Get(f, "content_identity") == Text(m.contentIdentity)
      && Get(f, "specification_id") == Text(SpecificationId(digest, m.definition))
        && Get(f, "definition") == Object(m.definition)
      && Get(f, "members") == Array(MemberItems(m.members)) && Get(f, "resolution") == Object(m.resolution)
  {
    assert "dataset_id"[0] != "definition"[1] && "dataset_id"[1] != "definition"[1];
    assert "dataset_id"[0] != "resolution"[0] && "definition"[0] != "resolution"[0];
    assert "specification_id"[0] != "content_identity"[0];
  }

  /** What is written as bytes is read back as it was. */
  ghost predicate ReadsBack(dump: Json -> Bytes, load: Bytes -> Json) { forall j :: load(dump(j)) == j }

  /** Reading back the bytes of a valid manifest gives the manifest. */
  lemma DetachedRoundTrip(digest: Digest, dump: Json -> Bytes, load: Bytes -> Json, m: Manifest)
    requires ReadsBack(dump, load)
    requires Valid(digest, m) && forall x | x in m.members :: x.byteSize >= 0
    ensures FromJson(digest, load(dump(ToJson(digest, m)))) == Success(m)
  {
    PayloadReads(digest, m);
    var payload := Payload(digest, m);
    var f := ToJson(digest, m).fields;
    assert f - {MANIFEST_ID} == payload;
    forall x | x in m.members ensures Export.SafeExportPath(x.path) { assert MemberValid(digest, x); }
    MembersRoundTrip(m.members);
  }

  // ---- exporting from and importing into a repository ---------------------------------------------

  datatype Content = Content(byteSize: int, mediaType: Option<string>)

  /** What the repository can be asked: observations, contents, source histories, and which blobs are intact. */
  datatype View = View(
    observations: map<string, Record>, contents: map<string, Content>, histories: map<string, seq<Versioned>>,
    intact: set<string>)

  datatype Member = Member(artifactKey: string, observationId: string, contentId: string, role: Option<string>)

  datatype Dataset = DatasetOf(id: string, contentIdentity: string, definition: Fields, members: seq<Member>,
          resolution: Fields)

  const REVISION_KEY := "source_definition_revision_id"

  /** The definition revision an observation was made under, if its source still knows it. */
  function RevisionOf(v: View, r: Record): Option<Fields> {
    var pinned := Get(r.metadata, REVISION_KEY);
    if r.source.None? || r.source.value !in v.histories || !pinned.Text? then None
    else
      var found := FindVersion(v.histories[r.source.value], pinned.text);
      if found.None? then None
      else Some(map["revision_id" := Text(found.value.id), "definition" := Object(found.value.definition)])
  }

  function ExportMember(v: View, m: Member, path: string): Result<DetachedMember, ManifestError> {
    if m.observationId !in v.observations || m.contentId !in v.contents then Failure(EvidenceUnavailable)
    else if !Export.SafeExportPath(path) then Failure(Refused)
    else
      var r, c := v.observations[m.observationId], v.contents[m.contentId];
      Success(DetachedMember(m.artifactKey, m.observationId, m.contentId, m.role, path, c.byteSize, c.mediaType,
        Evidence(r), RevisionOf(v, r)))
  }

  function ExportMembers(v: View, members: seq<Member>, paths: string -> string)
    : Result<seq<DetachedMember>, ManifestError>
  {
    if members == [] then Success([])
    else
      var front := ExportMembers(v, members[..|members| - 1], paths);
      var last := members[|members| - 1];
      if front.Failure? then front
      else
        var one := ExportMember(v, last, paths(last.artifactKey));
        if one.Failure? then Failure(one.error) else Success(front.value + [one.value])
  }

  function ExportManifest(digest: Digest, v: View, d: Dataset, paths: string -> string)
    : Result<Manifest, ManifestError>
  {
    var members := ExportMembers(v, d.members, paths);
    if members.Failure? then Failure(members.error)
    else
      var m := Manifest(d.id, d.contentIdentity, d.definition, members.value, d.resolution);
      if Valid(digest, m) then Success(m) else Failure(Refused)
  }

  function ImportMember(v: View, m: DetachedMember): Result<Member, ManifestError> {
    if m.observationId !in v.observations || m.contentId !in v.contents
      || v.contents[m.contentId] != Content(m.byteSize, m.mediaType)
      || Evidence(v.observations[m.observationId]) != m.observation || m.contentId !in v.intact
      || m.revision != RevisionOf(v, v.observations[m.observationId])
    then Failure(CannotVerify)
    else Success(Member(m.artifactKey, m.observationId, m.contentId, m.role))
  }

  function ImportMembers(v: View, members: seq<DetachedMember>): Result<seq<Member>, ManifestError> {
    if members == [] then Success([])
    else
      var front, last := ImportMembers(v, members[..|members| - 1]), ImportMember(v, members[|members| - 1]);
      if front.Failure? then front
      else if last.Failure? then Failure(last.error)
      else Success(front.value + [last.value])
  }

  function ImportManifest(digest: Digest, v: View, m: Manifest): Result<Dataset, ManifestError> {
    if !Valid(digest, m) then Failure(Refused)
    else
      var members := ImportMembers(v, m.members);
      if members.Failure? then Failure(members.error)
      else Success(DatasetOf(m.datasetId, m.contentIdentity, m.definition, members.value, m.resolution))
  }

  method ImportDataset(digest: Digest, v: View, m: Manifest) returns (r: Result<Dataset, ManifestError>)
    ensures r == ImportManifest(digest, v, m)
  {
    if !Valid(digest, m) { return Failure(Refused); }
    var members := [];
    for i := 0 to |m.members|
      invariant ImportMembers(v, m.members[..i]) == Success(members)
    {
      assert m.members[..i + 1][..i] == m.members[..i];
      var one := ImportMember(v, m.members[i]);
      if one.Failure? {
        ImportStaysFailed(v, m.members, i + 1);
        return Failure(one.error);
      }
      members := members + [one.value];
    }
    assert m.members[..|m.members|] == m.members;
    return Success(DatasetOf(m.datasetId, m.contentIdentity, m.definition, members, m.resolution));
  }

  lemma {:induction false} ImportStaysFailed(v: View, members: seq<DetachedMember>, k: nat)
    requires k <= |members| && ImportMembers(v, members[..k]).Failure?
    ensures ImportMembers(v, members) == ImportMembers(v, members[..k])
  {
    if k == |members| {
      assert members[..k] == members;
    } else {
      assert members[..|members| - 1][..k] == members[..k];
      ImportStaysFailed(v, members[..|members| - 1], k);
    }
  }

  // ---- what recording guarantees about evidence -----------------------------------------------------

  /** An observation stored under the id of its own payload. */
  ghost predicate Genuine(digest: Digest, v: View, id: string) {
    && id in v.observations
    && var r := v.observations[id];
       r.observationId == id
       && id == ObservationId(digest, r.artifactKey, r.contentId, r.run, r.operation, Decimal(r.at),
         TextOrNull(r.path), TextOrNull(r.locator))
  }

  /** Histories hold definitions under their own revision ids. */
  ghost predicate HistoriesGenuine(digest: Digest, v: View) {
    forall source, x | source in v.histories && x in v.histories[source] ::
      x.id == RevisionId(digest, source, x.definition)
  }

  ghost predicate MemberRecorded(digest: Digest, v: View, m: Member) {
    && Genuine(digest, v, m.observationId)
    && v.observations[m.observationId].artifactKey == m.artifactKey
      && v.observations[m.observationId].contentId == m.contentId
    && m.contentId in v.contents && v.contents[m.contentId].byteSize >= 0 && ContentIdForm(m.contentId)
  }

  /** A dataset resolved over recorded observations: ordered members under the ids of its payloads. */
  ghost predicate Resolved(digest: Digest, v: View, d: Dataset) {
    && HistoriesGenuine(digest, v)
    && (forall m | m in d.members :: MemberRecorded(digest, v, m))
    && (forall i, j | 0 <= i < j < |d.members| ::
          TextLe(d.members[i].artifactKey, d.members[j].artifactKey)
            && d.members[i].artifactKey != d.members[j].artifactKey)
    && d.id == digest("dataset", MemberPayload("observation_id", d.members, (m: Member) => m.observationId))
    && d.contentIdentity
      == digest("dataset-content", MemberPayload("content_id", d.members, (m: Member) => m.contentId))
  }

  function MemberPayload(second: string, members: seq<Member>, id: Member -> string): Json {
    Array(seq(|members|, i requires 0 <= i < |members| =>
      Triple(second, members[i].artifactKey, id(members[i]), members[i].role)))
  }

  ghost predicate PathsSafe(d: Dataset, paths: string -> string) {
    forall m | m in d.members :: Export.SafeExportPath(paths(m.artifactKey))
  }

  lemma {:induction false} FoundIsListed(vs: seq<Versioned>, id: string)
    ensures FindVersion(vs, id).Some? ==> FindVersion(vs, id).value in vs && FindVersion(vs, id).value.id == id
  {
    if vs != [] && vs[0].id != id { FoundIsListed(vs[1..], id); }
  }

  lemma RevisionReads(found: Versioned)
    ensures
      var f: Fields := map["revision_id" := Text(found.id), "definition" := Object(found.definition)];
      Get(f, "revision_id") == Text(found.id) && Get(f, "definition") == Object(found.definition)
  {
    assert |"revision_id"| != |"definition"|;
  }

  /** Everything a manifest says about a recorded member checks out. */
  lemma ExportedMemberIsValid(digest: Digest, v: View, m: Member, path: string)
    requires HistoriesGenuine(digest, v) && MemberRecorded(digest, v, m) && Export.SafeExportPath(path)
    ensures
      var x := ExportMember(v, m, path);
      && x.Success? && MemberValid(digest, x.value) && x.value.byteSize >= 0
      && x.value.artifactKey == m.artifactKey && x.value.observationId == m.observationId
      && x.value.contentId == m.contentId && x.value.role == m.role
  {
    var r := v.observations[m.observationId];
    EvidenceReads(r);
    var x := ExportMember(v, m, path).value;
    assert IdentityHolds(digest, x);
    if x.revision.Some? {
      var pinned := Get(r.metadata, REVISION_KEY);
      var found := FindVersion(v.histories[r.source.value], pinned.text).value;
      FoundIsListed(v.histories[r.source.value], pinned.text);
      RevisionReads(found);
      assert RevisionHolds(digest, x);
    }
  }

  ghost predicate Mirrors(members: seq<Member>, detached: seq<DetachedMember>) {
    && |detached| == |members|
    && forall i | 0 <= i < |members| ::
         && detached[i].artifactKey == members[i].artifactKey && detached[i].observationId == members[i].observationId
         && detached[i].contentId == members[i].contentId && detached[i].role == members[i].role
  }

  lemma {:induction false} ExportedMembers(digest: Digest, v: View, members: seq<Member>, paths: string -> string)
    requires HistoriesGenuine(digest, v)
    requires forall m | m in members :: MemberRecorded(digest, v, m) && Export.SafeExportPath(paths(m.artifactKey))
    ensures
      var r := ExportMembers(v, members, paths);
      && r.Success? && Mirrors(members, r.value)
      && (forall x | x in r.value :: MemberValid(digest, x) && x.byteSize >= 0)
      && (forall i | 0 <= i < |members| ::
        ExportMember(v, members[i], paths(members[i].artifactKey)) == Success(r.value[i]))
  {
    if members != [] {
      var init, last := members[..|members| - 1], members[|members| - 1];
      assert members == init + [last];
      ExportedMembers(digest, v, init, paths);
      ExportedMemberIsValid(digest, v, last, paths(last.artifactKey));
    }
  }

  lemma MirrorsHaveSamePayloads(members: seq<Member>, detached: seq<DetachedMember>)
    requires Mirrors(members, detached)
    ensures ExactPayload(detached) == MemberPayload("observation_id", members, (m: Member) => m.observationId)
    ensures ContentPayload(detached) == MemberPayload("content_id", members, (m: Member) => m.contentId)
  {
    assert ExactPayload(detached).items
      == MemberPayload("observation_id", members, (m: Member) => m.observationId).items;
    assert ContentPayload(detached).items == MemberPayload("content_id", members, (m: Member) => m.contentId).items;
  }

  lemma MirrorsIncrease(members: seq<Member>, detached: seq<DetachedMember>)
    requires Mirrors(members, detached)
    requires forall i, j | 0 <= i < j < |members| ::
               TextLe(members[i].artifactKey, members[j].artifactKey)
                 && members[i].artifactKey != members[j].artifactKey
    ensures KeysIncrease(detached)
  {
  }

  /** A dataset resolved over recorded observations exports to a manifest that validates and round-trips. */
  lemma ExportSucceeds(digest: Digest, v: View, d: Dataset, paths: string -> string)
    requires Resolved(digest, v, d) && PathsSafe(d, paths)
    ensures
      var r := ExportManifest(digest, v, d, paths);
      && r.Success? && Valid(digest, r.value) && r.value.datasetId == d.id
        && r.value.contentIdentity == d.contentIdentity
      && Mirrors(d.members, r.value.members)
      && (forall x | x in r.value.members :: x.byteSize >= 0)
      && (forall i | 0 <= i < |d.members| ::
        ExportMember(v, d.members[i], paths(d.members[i].artifactKey)) == Success(r.value.members[i]))
  {
    ExportedMembers(digest, v, d.members, paths);
    var detached := ExportMembers(v, d.members, paths).value;
    MirrorsHaveSamePayloads(d.members, detached);
    MirrorsIncrease(d.members, detached);
  }

  /**
   * A later state of the same repository: observations and contents of the members are still there, every
   * pinned revision is still found, and no observation gained one.
   */
  ghost predicate LaterFor(v: View, w: View, members: seq<Member>) {
    forall m | m in members && m.observationId in v.observations && m.contentId in v.contents ::
      && m.observationId in w.observations && w.observations[m.observationId] == v.observations[m.observationId]
      && m.contentId in w.contents && w.contents[m.contentId] == v.contents[m.contentId]
      && RevisionOf(w, v.observations[m.observationId]) == RevisionOf(v, v.observations[m.observationId])
  }

  lemma {:induction false} ImportedMembers(v: View, w: View, members: seq<Member>, detached: seq<DetachedMember>,
        paths: string -> string)
    requires Mirrors(members, detached) && LaterFor(v, w, members)
    requires forall m | m in members :: m.contentId in w.intact
    requires forall i | 0 <= i < |members| ::
        ExportMember(v, members[i], paths(members[i].artifactKey)) == Success(detached[i])
    ensures ImportMembers(w, detached) == Success(members)
  {
    if members != [] {
      var init, last := members[..|members| - 1], members[|members| - 1];
      assert members == init + [last];
      ImportedMembers(v, w, init, detached[..|members| - 1], paths);
      assert ExportMember(v, last, paths(last.artifactKey)) == Success(detached[|members| - 1]);
      assert ImportMember(w, detached[|members| - 1]) == Success(last);
    } else {
      assert detached == [];
    }
  }

  /** Export, write, read and import give the same dataset when the second view holds what the first knew. */
  lemma HandoffBetween(digest: Digest, dump: Json -> Bytes, load: Bytes -> Json, v: View, w: View, d: Dataset,
        paths: string -> string)
    requires ReadsBack(dump, load)
    requires Resolved(digest, v, d) && PathsSafe(d, paths) && LaterFor(v, w, d.members)
    requires forall m | m in d.members :: m.contentId in w.intact
    ensures
      var exported := ExportManifest(digest, v, d, paths);
      && exported.Success?
      && var bytes := dump(ToJson(digest, exported.value));
         FromJson(digest, load(bytes)).Success?
         && ImportManifest(digest, w, FromJson(digest, load(bytes)).value) == Success(d)
  {
    ExportSucceeds(digest, v, d, paths);
    var m := ExportManifest(digest, v, d, paths).value;
    DetachedRoundTrip(digest, dump, load, m);
    ImportedMembers(v, w, d.members, m.members, paths);
  }

  /** Source histories that only grow keep finding what they found. */
  lemma GrownHistoriesFindTheSame(v: View, w: View, r: Record)
    requires r.source.Some? ==>
               r.source.value in v.histories && r.source.value in w.histories
               && DistinctVersions(w.histories[r.source.value])
               && (forall x | x in v.histories[r.source.value] :: x in w.histories[r.source.value])
               && RevisionOf(v, r).Some?
    ensures RevisionOf(w, r) == RevisionOf(v, r)
  {
    if r.source.Some? {
      var id := Get(r.metadata, REVISION_KEY).text;
      FoundIsListed(v.histories[r.source.value], id);
      FindDistinct(w.histories[r.source.value], FindVersion(v.histories[r.source.value], id).value);
    }
  }
}
