/**
 * Versioned definitions inside stored JSON: source history and dataset specifications (metadata_envelopes.py,
 * metadata_store.py).
 */
module Envelopes {
  import opened Models
  import opened Ordering

  type Fields = map<string, Json>

  /** A floating-point number stands as the integer that its 64 bits spell. */
  datatype Json =
    | Null | Bool(flag: bool) | Integer(number: int) | Decimal(bits: int) | Text(text: string)
    | Array(items: seq<Json>) | Object(fields: map<string, Json>)

  /** A definition under the stable id of its payload. */
  datatype Versioned = Versioned(id: string, definition: Fields)

  /** The id of a definition; digests are taken to be injective. */
  type Identify = Fields -> string

  ghost predicate Injective(idOf: Identify) {
    forall a, b :: idOf(a) == idOf(b) ==> a == b
  }

  datatype EnvelopeError = Malformed | IdentityMismatch(id: string) | UnknownCurrent(id: string)

  const ENVELOPE_VERSION := 1
  const FLOAT_ONE := 0x3FF0_0000_0000_0000
  const HISTORY_MARKER := "_efloud_source_definition_history"
  const SPECIFICATIONS_MARKER := "_efloud_dataset_specifications"

  /** Equality with the number one, which true and 1.0 satisfy as well. */
  predicate IsVersion(j: Json) { j == Integer(ENVELOPE_VERSION) || j == Decimal(FLOAT_ONE) || j == Bool(true) }

  predicate Marked(payload: Fields, marker: string) { marker in payload && IsVersion(payload[marker]) }

  // ---- dictionaries by id -----------------------------------------------------------------------

  predicate IdLe(a: Versioned, b: Versioned) { TextLe(a.id, b.id) }

  /** Assignment to a dictionary that keeps insertion order. */
  function Put(dict: seq<Versioned>, v: Versioned): seq<Versioned> {
    if dict == [] then [v]
    else if dict[0].id == v.id then [v] + dict[1..]
    else [dict[0]] + Put(dict[1..], v)
  }

  function PutAll(dict: seq<Versioned>, vs: seq<Versioned>): seq<Versioned> {
    if vs == [] then dict else Put(PutAll(dict, vs[..|vs| - 1]), vs[|vs| - 1])
  }

  function Ordered(dict: seq<Versioned>): seq<Versioned> { Sort(dict, IdLe) }

  predicate DistinctVersions(dict: seq<Versioned>) {
    forall i, j | 0 <= i < j < |dict| :: dict[i].id != dict[j].id
  }

  ghost predicate Identified(idOf: Identify, dict: seq<Versioned>) {
    forall v | v in dict :: v.id == idOf(v.definition)
  }

  /** Exactly these definitions, each once, under its own id, in the order of the ids. */
  ghost predicate Lists(idOf: Identify, vs: seq<Versioned>, definitions: set<Fields>) {
    && StrictlySorted(vs, IdLe)
    && (forall v :: v in vs <==> v.definition in definitions && v.id == idOf(v.definition))
  }

  lemma {:induction false} PutMember(idOf: Identify, dict: seq<Versioned>, v: Versioned)
    requires DistinctVersions(dict) && Identified(idOf, dict) && v.id == idOf(v.definition) && Injective(idOf)
    ensures DistinctVersions(Put(dict, v))
    ensures forall x :: x in Put(dict, v) <==> x in dict || x == v
  {
    if dict != [] {
      assert dict == [dict[0]] + dict[1..];
      if dict[0].id == v.id {
        assert dict[0] == v;
      } else {
        PutMember(idOf, dict[1..], v);
        var rest := Put(dict[1..], v);
        forall x | x in rest ensures x.id != dict[0].id {
          if x in dict[1..] {
            var i :| 0 <= i < |dict[1..]| && dict[1..][i] == x;
            assert dict[i + 1] == x;
          }
        }
      }
    }
  }

  lemma {:induction false} PutAllMember(idOf: Identify, dict: seq<Versioned>, vs: seq<Versioned>)
    requires DistinctVersions(dict) && Identified(idOf, dict) && Identified(idOf, vs) && Injective(idOf)
    ensures DistinctVersions(PutAll(dict, vs)) && Identified(idOf, PutAll(dict, vs))
    ensures forall x :: x in PutAll(dict, vs) <==> x in dict || x in vs
  {
    if vs != [] {
      var init, last := vs[..|vs| - 1], vs[|vs| - 1];
      assert vs == init + [last];
      PutAllMember(idOf, dict, init);
      PutMember(idOf, PutAll(dict, init), last);
    }
  }

  lemma OrderedIsStrict(dict: seq<Versioned>)
    requires DistinctVersions(dict)
    ensures StrictlySorted(Ordered(dict), IdLe)
    ensures forall x :: x in Ordered(dict) <==> x in dict
  {
    TextOrder();
    SortProperties(dict, IdLe);
    var id := (v: Versioned) => v.id;
    assert DistinctBy(dict, id);
    PermutationKeepsDistinct(dict, Ordered(dict), id);
    var o := Ordered(dict);
    forall i, j | 0 <= i < j < |o| ensures IdLe(o[i], o[j]) && !IdLe(o[j], o[i]) {
      assert id(o[i]) != id(o[j]);
    }
  }

  lemma ListsAreEqual(idOf: Identify, a: seq<Versioned>, b: seq<Versioned>, definitions: set<Fields>)
    requires Lists(idOf, a, definitions) && Lists(idOf, b, definitions)
    ensures a == b
  {
    StrictlySortedUnique(a, b, IdLe);
  }

  lemma StrictIsDistinct(vs: seq<Versioned>)
    requires StrictlySorted(vs, IdLe)
    ensures DistinctVersions(vs)
  {
    forall i, j | 0 <= i < j < |vs| ensures vs[i].id != vs[j].id {
      assert IdLe(vs[i], vs[j]) && !IdLe(vs[j], vs[i]);
      TextOrder();
    }
  }

  // ---- encoding and decoding one entry and a list ---------------------------------------------------

  function Encode(idKey: string, v: Versioned): Json {
    Object(map[idKey := Text(v.id), "definition" := Object(v.definition)])
  }

  function EncodeAll(idKey: string, vs: seq<Versioned>): seq<Json> {
    seq(|vs|, i requires 0 <= i < |vs| => Encode(idKey, vs[i]))
  }

  function Get(fields: Fields, key: string): Json { if key in fields then fields[key] else Null }

  function Decode(idOf: Identify, idKey: string, raw: Json): Result<Versioned, EnvelopeError> {
    if !raw.Object? then Failure(Malformed)
    else
      var id, definition := Get(raw.fields, idKey), Get(raw.fields, "definition");
      if !id.Text? || !definition.Object? then Failure(Malformed)
      else if id.text != idOf(definition.fields) then Failure(IdentityMismatch(id.text))
      else Success(Versioned(id.text, definition.fields))
  }

  function DecodeAll(idOf: Identify, idKey: string, raw: seq<Json>): Result<seq<Versioned>, EnvelopeError> {
    if raw == [] then Success([])
    else
      var front := DecodeAll(idOf, idKey, raw[..|raw| - 1]);
      if front.Failure? then front
      else
        var last := Decode(idOf, idKey, raw[|raw| - 1]);
        if last.Failure? then Failure(last.error) else Success(front.value + [last.value])
  }

  method DecodeEntries(idOf: Identify, idKey: string, raw: seq<Json>) returns (r: Result<seq<Versioned>, EnvelopeError>)
    ensures r == DecodeAll(idOf, idKey, raw)
  {
    var decoded := [];
    for i := 0 to |raw|
      invariant DecodeAll(idOf, idKey, raw[..i]) == Success(decoded)
    {
      assert raw[..i + 1][..i] == raw[..i];
      var entry := Decode(idOf, idKey, raw[i]);
      if entry.Failure? {
        DecodingStaysFailed(idOf, idKey, raw, i + 1);
        return Failure(entry.error);
      }
      decoded := decoded + [entry.value];
    }
    assert raw[..|raw|] == raw;
    return Success(decoded);
  }

  lemma {:induction false} DecodingStaysFailed(idOf: Identify, idKey: string, raw: seq<Json>, k: nat)
    requires k <= |raw| && DecodeAll(idOf, idKey, raw[..k]).Failure?
    ensures DecodeAll(idOf, idKey, raw) == DecodeAll(idOf, idKey, raw[..k])
  {
    if k == |raw| {
      assert raw[..k] == raw;
    } else {
      assert raw[..|raw| - 1][..k] == raw[..k];
      DecodingStaysFailed(idOf, idKey, raw[..|raw| - 1], k);
    }
  }

  lemma {:induction false} DecodeEncoded(idOf: Identify, idKey: string, vs: seq<Versioned>)
    requires Identified(idOf, vs) && idKey != "definition"
    ensures DecodeAll(idOf, idKey, EncodeAll(idKey, vs)) == Success(vs)
  {
    if vs != [] {
      var init := vs[..|vs| - 1];
      DecodeEncoded(idOf, idKey, init);
      assert EncodeAll(idKey, vs)[..|vs| - 1] == EncodeAll(idKey, init);
      assert init + [vs[|vs| - 1]] == vs;
    }
  }

  // ---- source-definition history --------------------------------------------------------------------

  datatype SourceRecord = SourceRecord(definition: Fields, revisionId: string, revisions: seq<Versioned>)

  function FindVersion(vs: seq<Versioned>, id: string): Option<Versioned> {
    if vs == [] then None else if vs[0].id == id then Some(vs[0]) else FindVersion(vs[1..], id)
  }

  function DecodeHistory(idOf: Identify, payload: Fields): Result<SourceRecord, EnvelopeError> {
    if !Marked(payload, HISTORY_MARKER) then
      Success(SourceRecord(payload, idOf(payload), [Versioned(idOf(payload), payload)]))
    else
      var raw, current := Get(payload, "revisions"), Get(payload, "current_revision_id");
      if !raw.Array? || !current.Text? then Failure(Malformed)
      else
        var revisions := DecodeAll(idOf, "revision_id", raw.items);
        if revisions.Failure? then Failure(revisions.error)
        else
          var byId := PutAll([], revisions.value);
          var found := FindVersion(byId, current.text);
          if found.None? then Failure(UnknownCurrent(current.text))
          else Success(SourceRecord(found.value.definition, found.value.id, Ordered(byId)))
  }

  function HistoryPayload(idOf: Identify, definition: Fields, existing: seq<Versioned>): Fields {
    var revisions := Put(PutAll([], existing), Versioned(idOf(definition), definition));
    HistoryFields(idOf(definition), EncodeAll("revision_id", Ordered(revisions)))
  }

  function HistoryFields(current: string, revisions: seq<Json>): Fields {
    map[HISTORY_MARKER := Integer(ENVELOPE_VERSION), "current_revision_id" := Text(current),
      "revisions" := Array(revisions)]
  }

  lemma HistoryFieldsRead(current: string, revisions: seq<Json>)
    ensures
      var payload := HistoryFields(current, revisions);
      && Marked(payload, HISTORY_MARKER)
      && Get(payload, "revisions") == Array(revisions)
      && Get(payload, "current_revision_id") == Text(current)
  {
    assert |HISTORY_MARKER| != |"revisions"| && |HISTORY_MARKER| != |"current_revision_id"|
      && |"revisions"| != |"current_revision_id"|;
  }

  lemma {:induction false} FindDistinct(vs: seq<Versioned>, v: Versioned)
    requires DistinctVersions(vs) && v in vs
    ensures FindVersion(vs, v.id) == Some(v)
  {
    var i :| 0 <= i < |vs| && vs[i] == v;
    if i != 0 {
      assert vs[1..][i - 1] == v;
      FindDistinct(vs[1..], v);
    }
  }

  /** A listed history survives encoding, decoding, collecting by id and ordering. */
  lemma {:induction false} ListSurvives(idOf: Identify, idKey: string, vs: seq<Versioned>, definitions: set<Fields>)
    requires Injective(idOf) && Lists(idOf, vs, definitions) && idKey != "definition"
    ensures DecodeAll(idOf, idKey, EncodeAll(idKey, vs)) == Success(vs)
    ensures DistinctVersions(PutAll([], vs)) && Ordered(PutAll([], vs)) == vs
    ensures forall v :: v in PutAll([], vs) <==> v in vs
  {
    DecodeEncoded(idOf, idKey, vs);
    PutAllMember(idOf, [], vs);
    OrderedIsStrict(PutAll([], vs));
    ListsAreEqual(idOf, Ordered(PutAll([], vs)), vs, definitions);
  }

  /** Adding one definition to a listed history. */
  lemma {:induction false} ListGrows(idOf: Identify, vs: seq<Versioned>, definitions: set<Fields>, definition: Fields)
    requires Injective(idOf) && Lists(idOf, vs, definitions)
    ensures Lists(idOf, Ordered(Put(PutAll([], vs), Versioned(idOf(definition), definition))),
        definitions + {definition})
  {
    var v := Versioned(idOf(definition), definition);
    PutAllMember(idOf, [], vs);
    PutMember(idOf, PutAll([], vs), v);
    OrderedIsStrict(Put(PutAll([], vs), v));
  }

  /** Decoding an encoded history gives the definition back, as the current one, and all earlier ones. */
  lemma HistoryRoundTrip(idOf: Identify, definition: Fields, existing: seq<Versioned>, earlier: set<Fields>)
    requires Injective(idOf) && Lists(idOf, existing, earlier)
    ensures
      var r := DecodeHistory(idOf, HistoryPayload(idOf, definition, existing));
      && r.Success? && r.value.definition == definition && r.value.revisionId == idOf(definition)
      && Lists(idOf, r.value.revisions, earlier + {definition})
  {
    var v := Versioned(idOf(definition), definition);
    var ordered := Ordered(Put(PutAll([], existing), v));
    ListGrows(idOf, existing, earlier, definition);
    ListSurvives(idOf, "revision_id", ordered, earlier + {definition});
    assert v in ordered;
    FindDistinct(PutAll([], ordered), v);
    HistoryFieldsRead(v.id, EncodeAll("revision_id", ordered));
    FieldsDecode(idOf, v, ordered);
  }

  lemma {:induction false} FieldsDecode(idOf: Identify, v: Versioned, ordered: seq<Versioned>)
    requires DecodeAll(idOf, "revision_id", EncodeAll("revision_id", ordered)) == Success(ordered)
    requires FindVersion(PutAll([], ordered), v.id) == Some(v)
    ensures DecodeHistory(idOf, HistoryFields(v.id, EncodeAll("revision_id", ordered)))
         == Success(SourceRecord(v.definition, v.id, Ordered(PutAll([], ordered))))
  {
    HistoryFieldsRead(v.id, EncodeAll("revision_id", ordered));
  }

  // ---- registering sources over whole histories -----------------------------------------------------

  datatype Registration = Registration(source: SourceId, definition: Fields)

  /** Ids of one source's definitions; the source id is part of what is digested. */
  type IdentifySource = SourceId -> Identify

  ghost predicate InjectiveEach(idOf: IdentifySource) {
    forall source :: Injective(idOf(source))
  }

  function Register(idOf: IdentifySource, catalog: map<SourceId, Fields>, r: Registration)
    : Result<map<SourceId, Fields>, EnvelopeError>
  {
    if r.source !in catalog then Success(catalog[r.source := HistoryPayload(idOf(r.source), r.definition, [])])
    else
      var existing := DecodeHistory(idOf(r.source), catalog[r.source]);
      if existing.Failure? then Failure(existing.error)
      else Success(catalog[r.source := HistoryPayload(idOf(r.source), r.definition, existing.value.revisions)])
  }

  function RegisterAll(idOf: IdentifySource, calls: seq<Registration>): Result<map<SourceId, Fields>, EnvelopeError> {
    if calls == [] then Success(map[])
    else
      var front := RegisterAll(idOf, calls[..|calls| - 1]);
      if front.Failure? then front else Register(idOf, front.value, calls[|calls| - 1])
  }

  function DefinitionsOf(calls: seq<Registration>, source: SourceId): set<Fields> {
    set r | r in calls && r.source == source :: r.definition
  }

  function LastDefinition(calls: seq<Registration>, source: SourceId): Option<Fields> {
    if calls == [] then None
    else if calls[|calls| - 1].source == source then Some(calls[|calls| - 1].definition)
    else LastDefinition(calls[..|calls| - 1], source)
  }

  /** The record a source has when exactly these definitions were registered, the current one last. */
  ghost predicate Remembers(idOf: Identify, catalog: map<SourceId, Fields>, source: SourceId, current: Fields,
        definitions: set<Fields>)
  {
    && source in catalog
    && var r := DecodeHistory(idOf, catalog[source]);
       r.Success? && r.value.definition == current && r.value.revisionId == idOf(current)
         && Lists(idOf, r.value.revisions, definitions)
  }

  /**
   * Registering never fails, and a source's record lists exactly the definitions ever registered for it,
   * each under its own revision id, with the last one current.
   */
  lemma {:induction false} HistoryIsComplete(idOf: IdentifySource, calls: seq<Registration>, source: SourceId)
    requires InjectiveEach(idOf)
    ensures RegisterAll(idOf, calls).Success?
    ensures LastDefinition(calls, source).None? <==> source !in RegisterAll(idOf, calls).value
    ensures LastDefinition(calls, source).Some? ==>
              Remembers(idOf(source), RegisterAll(idOf, calls).value, source, LastDefinition(calls, source).value,
                DefinitionsOf(calls, source))
  {
    if calls != [] {
      var init, last := calls[..|calls| - 1], calls[|calls| - 1];
      assert calls == init + [last];
      HistoryIsComplete(idOf, init, source);
      HistoryIsComplete(idOf, init, last.source);
      var front := RegisterAll(idOf, init).value;
      if last.source == source {
        assert DefinitionsOf(calls, source) == DefinitionsOf(init, source) + {last.definition};
        NoDefinitions(init, source);
        var existing := if source in front then DecodeHistory(idOf(source), front[source]).value.revisions else [];
        HistoryRoundTrip(idOf(source), last.definition, existing, DefinitionsOf(init, source));
      } else {
        assert DefinitionsOf(calls, source) == DefinitionsOf(init, source);
      }
    }
  }

  lemma {:induction false} NoDefinitions(calls: seq<Registration>, source: SourceId)
    ensures LastDefinition(calls, source).None? <==> DefinitionsOf(calls, source) == {}
  {
    if calls != [] {
      var init, last := calls[..|calls| - 1], calls[|calls| - 1];
      assert calls == init + [last];
      NoDefinitions(init, source);
      if last.source == source {
        assert last.definition in DefinitionsOf(calls, source);
      } else {
        assert DefinitionsOf(calls, source) == DefinitionsOf(init, source);
      }
    }
  }

  /** The revision id pinned by a record at any moment finds its definition in every later state. */
  lemma {:induction false} PinnedRevisionsResolve(idOf: IdentifySource, past: seq<Registration>,
        future: seq<Registration>, source: SourceId)
    requires InjectiveEach(idOf) && LastDefinition(past, source).Some?
    ensures RegisterAll(idOf, past).Success? && source in RegisterAll(idOf, past).value
    ensures RegisterAll(idOf, past + future).Success? && source in RegisterAll(idOf, past + future).value
    ensures
      var now := DecodeHistory(idOf(source), RegisterAll(idOf, past).value[source]);
      var later := DecodeHistory(idOf(source), RegisterAll(idOf, past + future).value[source]);
      && now.Success? && later.Success?
      && FindVersion(later.value.revisions, now.value.revisionId)
        == Some(Versioned(now.value.revisionId, now.value.definition))
  {
    HistoryIsComplete(idOf, past, source);
    HistoryIsComplete(idOf, past + future, source);
    NoDefinitions(past, source);
    NoDefinitions(past + future, source);
    var d := LastDefinition(past, source).value;
    LastIsListed(past, source);
    assert d in DefinitionsOf(past + future, source) by {
      var r :| r in past && r.source == source && r.definition == d;
      assert r in past + future;
    }
    var later := DecodeHistory(idOf(source), RegisterAll(idOf, past + future).value[source]).value;
    StrictIsDistinct(later.revisions);
    FindDistinct(later.revisions, Versioned(idOf(source)(d), d));
  }

  lemma {:induction false} LastIsListed(calls: seq<Registration>, source: SourceId)
    requires LastDefinition(calls, source).Some?
    ensures LastDefinition(calls, source).value in DefinitionsOf(calls, source)
  {
    var init, last := calls[..|calls| - 1], calls[|calls| - 1];
    assert calls == init + [last];
    if last.source != source {
      LastIsListed(init, source);
      assert DefinitionsOf(calls, source) == DefinitionsOf(init, source);
    }
  }

  // ---- dataset specifications -----------------------------------------------------------------------

  function DecodeSpecifications(idOf: Identify, payload: Fields): Result<seq<Versioned>, EnvelopeError> {
    if !Marked(payload, SPECIFICATIONS_MARKER) then Success([Versioned(idOf(payload), payload)])
    else
      var raw := Get(payload, "specifications");
      if !raw.Array? || raw.items == [] then Failure(Malformed)
      else
        var decoded := DecodeAll(idOf, "specification_id", raw.items);
        if decoded.Failure? then decoded else Success(Ordered(PutAll([], decoded.value)))
  }

  function SpecificationsPayload(idOf: Identify, definition: Fields, existing: seq<Versioned>): Fields {
    var specifications := Put(PutAll([], existing), Versioned(idOf(definition), definition));
    map[SPECIFICATIONS_MARKER := Integer(ENVELOPE_VERSION),
        "specifications" := Array(EncodeAll("specification_id", Ordered(specifications)))]
  }

  datatype Dataset = Dataset(contentIdentity: string, createdAt: Time, members: seq<string>,
          specifications: seq<Versioned>)

  /** The record constructor: decode the definition, merge in the other specifications, order them by id. */
  function MakeDataset(idOf: Identify, contentIdentity: string, createdAt: Time, members: seq<string>,
                       definition: Fields, others: seq<Versioned>): Result<Dataset, EnvelopeError>
  {
    var decoded := DecodeSpecifications(idOf, definition);
    if decoded.Failure? then Failure(decoded.error)
    else Success(Dataset(contentIdentity, createdAt, members, Ordered(PutAll(PutAll([], decoded.value), others))))
  }

  /** A row of the dataset table. */
  datatype DatasetRow = DatasetRow(contentIdentity: string, createdAt: Time, members: seq<string>, payload: Fields)

  datatype RecordError = Envelope(error: EnvelopeError) | ConflictingMembership

  function StorageDefinition(idOf: Identify, d: Dataset): Fields
    requires d.specifications != []
  {
    SpecificationsPayload(idOf, d.specifications[0].definition, d.specifications)
  }

  function Load(idOf: Identify, row: DatasetRow): Result<Dataset, EnvelopeError> {
    MakeDataset(idOf, row.contentIdentity, row.createdAt, row.members, row.payload, [])
  }

  lemma {:induction false} PutAllNonEmpty(dict: seq<Versioned>, vs: seq<Versioned>)
    ensures dict != [] || vs != [] ==> PutAll(dict, vs) != []
  {
    if vs != [] { PutAllNonEmpty(dict, vs[..|vs| - 1]); }
  }

  lemma {:induction false} DecodedNonEmpty(idOf: Identify, idKey: string, raw: seq<Json>)
    ensures DecodeAll(idOf, idKey, raw).Success? ==> |DecodeAll(idOf, idKey, raw).value| == |raw|
  {
    if raw != [] { DecodedNonEmpty(idOf, idKey, raw[..|raw| - 1]); }
  }

  lemma MadeNonEmpty(idOf: Identify, contentIdentity: string, createdAt: Time, members: seq<string>,
        definition: Fields, others: seq<Versioned>)
    ensures
      var d := MakeDataset(idOf, contentIdentity, createdAt, members, definition, others);
      d.Success? ==> d.value.specifications != []
  {
    var decoded := DecodeSpecifications(idOf, definition);
    if decoded.Success? {
      if Marked(definition, SPECIFICATIONS_MARKER) {
        var raw := Get(definition, "specifications").items;
        DecodedNonEmpty(idOf, "specification_id", raw);
        PutAllNonEmpty([], DecodeAll(idOf, "specification_id", raw).value);
        SortProperties(PutAll([], DecodeAll(idOf, "specification_id", raw).value), IdLe);
      }
      PutAllNonEmpty([], decoded.value);
      PutAllNonEmpty(PutAll([], decoded.value), others);
      SortProperties(PutAll(PutAll([], decoded.value), others), IdLe);
    }
  }

  /** The dataset table after recording one record; membership never changes, specifications are merged. */
  function RecordRow(idOf: Identify, table: map<string, DatasetRow>, id: string, d: Dataset)
    : Result<map<string, DatasetRow>, RecordError>
    requires d.specifications != []
  {
    if id !in table
      then Success(table[id := DatasetRow(d.contentIdentity, d.createdAt, d.members, StorageDefinition(idOf, d))])
    else
      var existing := Load(idOf, table[id]);
      if existing.Failure? then Failure(Envelope(existing.error))
      else if existing.value.contentIdentity != d.contentIdentity || existing.value.members != d.members
        then Failure(ConflictingMembership)
      else
        var merged := MakeDataset(idOf, d.contentIdentity, d.createdAt, d.members, d.specifications[0].definition,
                                  d.specifications + existing.value.specifications);
        MadeNonEmpty(idOf, d.contentIdentity, d.createdAt, d.members, d.specifications[0].definition,
                     d.specifications + existing.value.specifications);
        if merged.Failure? then Failure(Envelope(merged.error))
        else Success(table[id := table[id].(payload := StorageDefinition(idOf, merged.value))])
  }

  /** The same over records kept in memory. */
  function RecordInMemory(idOf: Identify, catalog: map<string, Dataset>, id: string, d: Dataset)
    : Result<map<string, Dataset>, RecordError>
    requires d.specifications != []
  {
    if id !in catalog then Success(catalog[id := d])
    else if catalog[id].contentIdentity != d.contentIdentity || catalog[id].members != d.members
      then Failure(ConflictingMembership)
    else
      var merged := MakeDataset(idOf, d.contentIdentity, d.createdAt, d.members, d.specifications[0].definition,
                                d.specifications + catalog[id].specifications);
      if merged.Failure? then Failure(Envelope(merged.error))
      else Success(catalog[id := merged.value.(createdAt := catalog[id].createdAt)])
  }

  /** Freezing a definition that resolved to these members. */
  datatype Freezing = Freezing(id: string, contentIdentity: string, createdAt: Time, members: seq<string>,
          definition: Fields)

  function Frozen(idOf: Identify, f: Freezing): Result<Dataset, EnvelopeError> {
    MakeDataset(idOf, f.contentIdentity, f.createdAt, f.members, f.definition, [])
  }

  function Freeze(idOf: Identify, table: map<string, DatasetRow>, f: Freezing)
    : Result<map<string, DatasetRow>, RecordError>
  {
    var d := Frozen(idOf, f);
    MadeNonEmpty(idOf, f.contentIdentity, f.createdAt, f.members, f.definition, []);
    if d.Failure? then Failure(Envelope(d.error)) else RecordRow(idOf, table, f.id, d.value)
  }

  function FreezeAll(idOf: Identify, calls: seq<Freezing>): Result<map<string, DatasetRow>, RecordError> {
    if calls == [] then Success(map[])
    else
      var front := FreezeAll(idOf, calls[..|calls| - 1]);
      if front.Failure? then front else Freeze(idOf, front.value, calls[|calls| - 1])
  }

  function FreezeInMemory(idOf: Identify, calls: seq<Freezing>): Result<map<string, Dataset>, RecordError> {
    if calls == [] then Success(map[])
    else
      var front, f := FreezeInMemory(idOf, calls[..|calls| - 1]), calls[|calls| - 1];
      var d := Frozen(idOf, f);
      MadeNonEmpty(idOf, f.contentIdentity, f.createdAt, f.members, f.definition, []);
      if front.Failure? then front
      else if d.Failure? then Failure(Envelope(d.error))
      else RecordInMemory(idOf, front.value, f.id, d.value)
  }

  function DefinitionsFor(calls: seq<Freezing>, id: string): set<Fields> {
    set f | f in calls && f.id == id :: f.definition
  }

  /** Definitions that resolve to one dataset id resolve to its members, and carry no envelope marker. */
  ghost predicate Coherent(calls: seq<Freezing>) {
    && (forall f | f in calls :: !Marked(f.definition, SPECIFICATIONS_MARKER))
    && (forall f, g | f in calls && g in calls && f.id == g.id ::
      f.members == g.members && f.contentIdentity == g.contentIdentity)
  }

  /** A record with these definitions, whose stored form loads as the same record. */
  ghost predicate Holds(idOf: Identify, table: map<string, DatasetRow>, catalog: map<string, Dataset>, id: string,
        definitions: set<Fields>)
  {
    && id in table && id in catalog
    && Load(idOf, table[id]) == Success(catalog[id])
    && Lists(idOf, catalog[id].specifications, definitions)
  }

  lemma MakeSingle(idOf: Identify, f: Freezing)
    requires Injective(idOf) && !Marked(f.definition, SPECIFICATIONS_MARKER)
    ensures
      var d := Frozen(idOf, f);
      && d == Success(Dataset(f.contentIdentity, f.createdAt, f.members, [Versioned(idOf(f.definition), f.definition)]))
      && Lists(idOf, d.value.specifications, {f.definition})
  {
    var v := Versioned(idOf(f.definition), f.definition);
    assert PutAll([], [v]) == Put(PutAll([], [v][..0]), v) == [v];
    SortSingle(v, IdLe);
    assert PutAll([v], []) == [v];
  }

  lemma MarkerFreeOf(idOf: Identify, vs: seq<Versioned>, definitions: set<Fields>)
    requires Lists(idOf, vs, definitions) && vs != []
    ensures vs[0].definition in definitions && vs[0].id == idOf(vs[0].definition)
  {
    assert vs[0] in vs;
  }

  /** Merging two listed specification sets, starting from a definition of the first. */
  lemma MergeLists(idOf: Identify, contentIdentity: string, createdAt: Time, members: seq<string>,
                   a: seq<Versioned>, first: set<Fields>, b: seq<Versioned>, more: set<Fields>)
    requires Injective(idOf) && Lists(idOf, a, first) && Lists(idOf, b, more) && a != []
    requires !Marked(a[0].definition, SPECIFICATIONS_MARKER)
    ensures
      var d := MakeDataset(idOf, contentIdentity, createdAt, members, a[0].definition, a + b);
      && d.Success? && d.value == Dataset(contentIdentity, createdAt, members, d.value.specifications)
      && Lists(idOf, d.value.specifications, first + more)
  {
    var v := a[0];
    MarkerFreeOf(idOf, a, first);
    assert PutAll([], [v]) == Put(PutAll([], [v][..0]), v) == [v];
    PutAllMember(idOf, [v], a + b);
    OrderedIsStrict(PutAll([v], a + b));
  }

  /** Storing a record and loading its row gives the record back. */
  lemma StoreThenLoad(idOf: Identify, d: Dataset, definitions: set<Fields>)
    requires Injective(idOf) && Lists(idOf, d.specifications, definitions) && d.specifications != []
    ensures Load(idOf, DatasetRow(d.contentIdentity, d.createdAt, d.members, StorageDefinition(idOf, d))) == Success(d)
  {
    var vs := d.specifications;
    MarkerFreeOf(idOf, vs, definitions);
    ListGrows(idOf, vs, definitions, vs[0].definition);
    assert definitions + {vs[0].definition} == definitions;
    var ordered := Ordered(Put(PutAll([], vs), Versioned(idOf(vs[0].definition), vs[0].definition)));
    ListsAreEqual(idOf, ordered, vs, definitions);
    ListSurvives(idOf, "specification_id", vs, definitions);
    var payload := StorageDefinition(idOf, d);
    assert Get(payload, "specifications") == Array(EncodeAll("specification_id", vs));
    assert Marked(payload, SPECIFICATIONS_MARKER);
    assert DecodeSpecifications(idOf, payload) == Success(vs);
    assert PutAll(PutAll([], vs), []) == PutAll([], vs);
  }

  lemma {:induction false} FreezeStep(idOf: Identify, table: map<string, DatasetRow>, catalog: map<string, Dataset>,
        f: Freezing, d: Dataset, definitions: set<Fields>)
    requires Injective(idOf) && Lists(idOf, d.specifications, {f.definition}) && d.specifications != []
    requires !Marked(f.definition, SPECIFICATIONS_MARKER)
    requires if f.id in table then
               && Holds(idOf, table, catalog, f.id, definitions)
               && catalog[f.id].contentIdentity == d.contentIdentity && catalog[f.id].members == d.members
             else f.id !in catalog && definitions == {}
    ensures
      var t, m := RecordRow(idOf, table, f.id, d), RecordInMemory(idOf, catalog, f.id, d);
      && t.Success? && m.Success?
      && Holds(idOf, t.value, m.value, f.id, definitions + {f.definition})
      && (forall id | id != f.id :: (id in t.value <==> id in table) && (id in m.value <==> id in catalog))
      && (forall id | id != f.id && id in table :: t.value[id] == table[id])
      && (forall id | id != f.id && id in catalog :: m.value[id] == catalog[id])
      && m.value[f.id].contentIdentity == d.contentIdentity && m.value[f.id].members == d.members
      && m.value[f.id].createdAt == if f.id in catalog then catalog[f.id].createdAt else d.createdAt
  {
    if f.id in table {
      var e := catalog[f.id];
      MarkerFreeOf(idOf, d.specifications, {f.definition});
      MergeLists(idOf, d.contentIdentity, d.createdAt, d.members, d.specifications, {f.definition}, e.specifications,
        definitions);
      var merged :=
        MakeDataset(idOf, d.contentIdentity, d.createdAt, d.members, d.specifications[0].definition,
        d.specifications + e.specifications).value;
      assert {f.definition} + definitions == definitions + {f.definition};
      MadeNonEmpty(idOf, d.contentIdentity, d.createdAt, d.members, d.specifications[0].definition,
        d.specifications + e.specifications);
      var kept := merged.(createdAt := e.createdAt);
      StoreThenLoad(idOf, kept, definitions + {f.definition});
      LoadKeepsRow(idOf, table[f.id]);
    } else {
      StoreThenLoad(idOf, d, {f.definition});
      assert definitions + {f.definition} == {f.definition};
    }
  }

  lemma LoadKeepsRow(idOf: Identify, row: DatasetRow)
    ensures
      var d := Load(idOf, row);
      d.Success? ==>
        d.value.contentIdentity == row.contentIdentity && d.value.createdAt == row.createdAt
        && d.value.members == row.members
  {
  }

  /** What the tables hold about one dataset after a history of freezes. */
  ghost predicate Remembered(idOf: Identify, calls: seq<Freezing>, table: map<string, DatasetRow>,
        catalog: map<string, Dataset>, id: string)
  {
    if exists f :: f in calls && f.id == id
    then Holds(idOf, table, catalog, id, DefinitionsFor(calls, id))
         && forall f | f in calls && f.id == id ::
           catalog[id].members == f.members && catalog[id].contentIdentity == f.contentIdentity
    else id !in table && id !in catalog
  }

  /**
   * Freezing never fails; afterwards every dataset lists exactly the definitions frozen for it, in stored
   * form and in memory alike, with the members they all resolved to.
   */
  lemma {:induction false} FreezingRemembersAll(idOf: Identify, calls: seq<Freezing>, id: string)
    requires Injective(idOf) && Coherent(calls)
    ensures FreezeAll(idOf, calls).Success? && FreezeInMemory(idOf, calls).Success?
    ensures Remembered(idOf, calls, FreezeAll(idOf, calls).value, FreezeInMemory(idOf, calls).value, id)
  {
    if calls != [] {
      var init, f := calls[..|calls| - 1], calls[|calls| - 1];
      assert calls == init + [f] && f in calls;
      FreezingRemembersAll(idOf, init, id);
      FreezingRemembersAll(idOf, init, f.id);
      var table, catalog := FreezeAll(idOf, init).value, FreezeInMemory(idOf, init).value;
      MakeSingle(idOf, f);
      NoneFrozen(init, f.id);
      FreezeStep(idOf, table, catalog, f, Frozen(idOf, f).value, DefinitionsFor(init, f.id));
      RememberedGrows(idOf, init, f, id, table, catalog, FreezeAll(idOf, calls).value,
        FreezeInMemory(idOf, calls).value);
    }
  }

  lemma NoneFrozen(calls: seq<Freezing>, id: string)
    ensures (forall f | f in calls :: f.id != id) ==> DefinitionsFor(calls, id) == {}
  {
  }

  lemma RememberedGrows(idOf: Identify, init: seq<Freezing>, f: Freezing, id: string, table: map<string, DatasetRow>,
        catalog: map<string, Dataset>, table': map<string, DatasetRow>, catalog': map<string, Dataset>)
    requires Coherent(init + [f]) && Remembered(idOf, init, table, catalog, id)
    requires Holds(idOf, table', catalog', f.id, DefinitionsFor(init, f.id) + {f.definition})
    requires catalog'[f.id].contentIdentity == f.contentIdentity && catalog'[f.id].members == f.members
    requires forall x | x != f.id :: (x in table' <==> x in table) && (x in catalog' <==> x in catalog)
    requires forall x | x != f.id && x in table :: table'[x] == table[x]
    requires forall x | x != f.id && x in catalog :: catalog'[x] == catalog[x]
    ensures Remembered(idOf, init + [f], table', catalog', id)
  {
    var calls := init + [f];
    assert f in calls && forall g :: g in calls <==> g in init || g == f;
    if id == f.id {
      assert DefinitionsFor(calls, id) == DefinitionsFor(init, id) + {f.definition};
    } else {
      assert DefinitionsFor(calls, id) == DefinitionsFor(init, id);
    }
  }

  /** Order and repetition of the freezes do not matter: the same definitions give the same record. */
  lemma {:induction false} SpecificationsAreOrderFree(idOf: Identify, a: seq<Freezing>, b: seq<Freezing>, id: string)
    requires Injective(idOf) && Coherent(a) && Coherent(b)
    requires DefinitionsFor(a, id) == DefinitionsFor(b, id) != {}
    ensures FreezeAll(idOf, a).Success? && id in FreezeAll(idOf, a).value
        && Load(idOf, FreezeAll(idOf, a).value[id]).Success?
    ensures FreezeAll(idOf, b).Success? && id in FreezeAll(idOf, b).value
        && Load(idOf, FreezeAll(idOf, b).value[id]).Success?
    ensures Load(idOf, FreezeAll(idOf, a).value[id]).value.specifications
        == Load(idOf, FreezeAll(idOf, b).value[id]).value.specifications
  {
    FreezingRemembersAll(idOf, a, id);
    FreezingRemembersAll(idOf, b, id);
    var d :| d in DefinitionsFor(a, id);
    ListsAreEqual(idOf, FreezeInMemory(idOf, a).value[id].specifications,
      FreezeInMemory(idOf, b).value[id].specifications, DefinitionsFor(a, id));
  }

  // ---- which definitions freezing records as they are -------------------------------------------------

  /** An entry that names a definition under its own id. */
  predicate WellFormedEntry(idOf: Identify, raw: Json) {
    && raw.Object? && Get(raw.fields, "specification_id").Text? && Get(raw.fields, "definition").Object?
    && Get(raw.fields, "specification_id").text == idOf(Get(raw.fields, "definition").fields)
  }

  function InnerDefinition(raw: Json): Fields {
    if raw.Object? && Get(raw.fields, "definition").Object? then Get(raw.fields, "definition").fields else map[]
  }

  predicate WellFormedEnvelope(idOf: Identify, payload: Fields) {
    var raw := Get(payload, "specifications");
    raw.Array? && raw.items != [] && forall x | x in raw.items :: WellFormedEntry(idOf, x)
  }

  /** The definitions a payload stands for: its own, or when it carries the marker those inside it. */
  ghost function StandsFor(idOf: Identify, payload: Fields): set<Fields> {
    if !Marked(payload, SPECIFICATIONS_MARKER) then {payload}
    else if !WellFormedEnvelope(idOf, payload) then {}
    else
      var items := Get(payload, "specifications").items;
      set i | 0 <= i < |items| :: InnerDefinition(items[i])
  }

  lemma DecodesEntry(idOf: Identify, raw: Json)
    ensures Decode(idOf, "specification_id", raw).Success? <==> WellFormedEntry(idOf, raw)
    ensures Decode(idOf, "specification_id", raw).Success? ==>
      Decode(idOf, "specification_id", raw).value == Versioned(idOf(InnerDefinition(raw)), InnerDefinition(raw))
  {
  }

  lemma {:induction false} DecodesWellFormed(idOf: Identify, raw: seq<Json>)
    ensures DecodeAll(idOf, "specification_id", raw).Success? <==> forall x | x in raw :: WellFormedEntry(idOf, x)
    ensures DecodeAll(idOf, "specification_id", raw).Success? ==>
      var vs := DecodeAll(idOf, "specification_id", raw).value;
      |vs| == |raw| && forall i | 0 <= i < |raw| ::
        WellFormedEntry(idOf, raw[i])
        && vs[i] == Versioned(idOf(InnerDefinition(raw[i])), InnerDefinition(raw[i]))
  {
    if raw != [] {
      var init, last := raw[..|raw| - 1], raw[|raw| - 1];
      assert raw == init + [last];
      DecodesWellFormed(idOf, init);
      assert forall x :: x in raw <==> x in init || x == last;
      DecodesEntry(idOf, last);
    }
  }

  /** Decoding a payload lists exactly the definitions it stands for, or fails on a malformed envelope. */
  lemma {:induction false} DecodingStandsFor(idOf: Identify, payload: Fields)
    requires Injective(idOf)
    ensures
      var r := DecodeSpecifications(idOf, payload);
      && (r.Failure? <==> Marked(payload, SPECIFICATIONS_MARKER) && !WellFormedEnvelope(idOf, payload))
      && (r.Success? ==> r.value != [] && Lists(idOf, r.value, StandsFor(idOf, payload)))
  {
    var raw := Get(payload, "specifications");
    if Marked(payload, SPECIFICATIONS_MARKER) && raw.Array? {
      DecodesWellFormed(idOf, raw.items);
      if WellFormedEnvelope(idOf, payload) {
        var vs := DecodeAll(idOf, "specification_id", raw.items).value;
        PutAllMember(idOf, [], vs);
        OrderedIsStrict(PutAll([], vs));
        EnvelopeLists(idOf, payload, vs, Ordered(PutAll([], vs)));
      }
    }
  }

  lemma EnvelopeLists(idOf: Identify, payload: Fields, vs: seq<Versioned>, ordered: seq<Versioned>)
    requires Marked(payload, SPECIFICATIONS_MARKER) && WellFormedEnvelope(idOf, payload)
    requires StrictlySorted(ordered, IdLe) && forall x :: x in ordered <==> x in vs
    requires
      var items := Get(payload, "specifications").items;
      |vs| == |items| && forall i | 0 <= i < |items| ::
        vs[i] == Versioned(idOf(InnerDefinition(items[i])), InnerDefinition(items[i]))
    ensures ordered != [] && Lists(idOf, ordered, StandsFor(idOf, payload))
  {
    assert vs[0] in ordered;
    forall v ensures v in ordered <==> v.definition in StandsFor(idOf, payload) && v.id == idOf(v.definition) {
      if v in ordered {
        var i :| 0 <= i < |vs| && vs[i] == v;
      }
      if v.definition in StandsFor(idOf, payload) && v.id == idOf(v.definition) {
        var items := Get(payload, "specifications").items;
        var i :| 0 <= i < |items| && InnerDefinition(items[i]) == v.definition;
        assert vs[i] == v;
      }
    }
  }

  /** A definition is strictly inside the entry that holds it, and the entry inside its envelope. */
  lemma InnerIsSmaller(whole: Json, raw: Json, entry: Json)
    requires whole.Object? && "specifications" in whole.fields && whole.fields["specifications"] == raw
    requires raw.Array? && entry in raw.items
    requires entry.Object? && "definition" in entry.fields && entry.fields["definition"].Object?
    ensures entry.fields["definition"] < whole
    ensures entry.fields["definition"].fields != whole.fields
  {
    assert entry < raw && raw < whole && entry.fields["definition"] < entry;
  }

  /** No envelope stands for itself: what it lists is strictly inside it. */
  lemma EnvelopeIsNotInside(idOf: Identify, payload: Fields)
    requires Marked(payload, SPECIFICATIONS_MARKER)
    ensures payload !in StandsFor(idOf, payload)
  {
    if WellFormedEnvelope(idOf, payload) {
      var raw := Get(payload, "specifications");
      forall i | 0 <= i < |raw.items| ensures InnerDefinition(raw.items[i]) != payload {
        assert WellFormedEntry(idOf, raw.items[i]);
        InnerIsSmaller(Object(payload), raw, raw.items[i]);
      }
    }
  }

  /**
   * The first freeze of a dataset records exactly the definitions its payload stands for, and fails exactly
   * when the payload carries the marker over a malformed envelope. So it records the payload itself, and
   * nothing else, exactly when the payload does not carry the marker.
   */
  lemma {:induction false} FreezingIsExact(idOf: Identify, table: map<string, DatasetRow>, f: Freezing)
    requires Injective(idOf) && f.id !in table
    ensures
      var r := Freeze(idOf, table, f);
      && (r.Failure? <==> Marked(f.definition, SPECIFICATIONS_MARKER) && !WellFormedEnvelope(idOf, f.definition))
      && (r.Success? ==> RecordsExactly(idOf, r.value, f.id, StandsFor(idOf, f.definition)))
      && (r.Success? && RecordsExactly(idOf, r.value, f.id, {f.definition})
          <==> !Marked(f.definition, SPECIFICATIONS_MARKER))
  {
    DecodingStandsFor(idOf, f.definition);
    var d := Frozen(idOf, f);
    if d.Success? {
      var vs, definitions := DecodeSpecifications(idOf, f.definition).value, StandsFor(idOf, f.definition);
      ListedStays(idOf, vs, definitions);
      StoreThenLoad(idOf, d.value, definitions);
      if Marked(f.definition, SPECIFICATIONS_MARKER) {
        EnvelopeIsNotInside(idOf, f.definition);
        NotListed(idOf, vs, definitions, f.definition);
      }
    }
  }

  ghost predicate RecordsExactly(idOf: Identify, table: map<string, DatasetRow>, id: string, definitions: set<Fields>) {
    id in table && Load(idOf, table[id]).Success?
      && Lists(idOf, Load(idOf, table[id]).value.specifications, definitions)
  }

  lemma {:induction false} ListedStays(idOf: Identify, vs: seq<Versioned>, definitions: set<Fields>)
    requires Injective(idOf) && Lists(idOf, vs, definitions)
    ensures Ordered(PutAll(PutAll([], vs), [])) == vs
  {
    PutAllMember(idOf, [], vs);
    OrderedIsStrict(PutAll([], vs));
    ListsAreEqual(idOf, Ordered(PutAll([], vs)), vs, definitions);
  }

  lemma NotListed(idOf: Identify, vs: seq<Versioned>, definitions: set<Fields>, definition: Fields)
    requires Lists(idOf, vs, definitions) && definition !in definitions
    ensures !Lists(idOf, vs, {definition})
  {
    var v := Versioned(idOf(definition), definition);
    assert v !in vs && v.definition in {definition};
  }
}
