/** Derivation keys, reuse of derived content, and semantic indexes (derivation.py, repository.py, indexing.py). */
module Derivation {
  import opened Models
  import opened Ordering
  import opened Envelopes

  // ---- derivation keys --------------------------------------------------------------------------

  datatype Semantics = OnContent | OnObservation

  datatype TaskSpec = TaskSpec(taskId: string, taskVersion: string, parameters: Fields, semantics: Semantics)

  /** The two identities of an input, as text. */
  datatype Input = Input(contentText: string, observationText: string)

  /** A derivation key stands for the payload it digests. */
  datatype DerivationKey = DerivationKey(
    taskId: string, taskVersion: string, parameters: Fields, outputs: seq<string>, semantics: Semantics,
    inputs: seq<string>)

  function Identity(spec: TaskSpec, input: Input): string {
    if spec.semantics == OnContent then input.contentText else input.observationText
  }

  function Identities(spec: TaskSpec, inputs: seq<Input>): seq<string> {
    seq(|inputs|, i requires 0 <= i < |inputs| => Identity(spec, inputs[i]))
  }

  function KeyFor(spec: TaskSpec, outputs: seq<string>, inputs: seq<Input>): DerivationKey {
    DerivationKey(spec.taskId, spec.taskVersion, spec.parameters, SortText(outputs), spec.semantics,
      SortText(Identities(spec, inputs)))
  }

  lemma SortTextDeterminesMultiset(a: seq<string>, b: seq<string>)
    ensures SortText(a) == SortText(b) <==> multiset(a) == multiset(b)
  {
    TextLeIsOrder();
    SortProperties(a, TextLe);
    SortProperties(b, TextLe);
    if multiset(a) == multiset(b) {
      SortIgnoresOrder(a, b, TextLe);
    }
  }

  /** A key says exactly: this task, version and parameters, these outputs and inputs in any order, with repeats. */
  lemma KeyIgnoresOrderOnly(a: TaskSpec, outputsA: seq<string>, inputsA: seq<Input>, b: TaskSpec,
        outputsB: seq<string>, inputsB: seq<Input>)
    ensures KeyFor(a, outputsA, inputsA) == KeyFor(b, outputsB, inputsB) <==>
              && a == b
              && multiset(outputsA) == multiset(outputsB)
              && multiset(Identities(a, inputsA)) == multiset(Identities(b, inputsB))
  {
    SortTextDeterminesMultiset(outputsA, outputsB);
    SortTextDeterminesMultiset(Identities(a, inputsA), Identities(b, inputsB));
  }

  /** Permuted inputs give the same key. */
  lemma {:induction false} PermutedInputsSameKey(spec: TaskSpec, outputs: seq<string>, a: seq<Input>, b: seq<Input>)
    requires multiset(a) == multiset(b)
    ensures KeyFor(spec, outputs, a) == KeyFor(spec, outputs, b)
  {
    PermutedIdentities(spec, a, b);
    KeyIgnoresOrderOnly(spec, outputs, a, spec, outputs, b);
  }

  lemma IdentitiesSplit(spec: TaskSpec, b: seq<Input>, k: nat)
    requires k < |b|
    ensures multiset(Identities(spec, b))
        == multiset(Identities(spec, b[..k] + b[k + 1..])) + multiset{Identity(spec, b[k])}
  {
    var x := [Identity(spec, b[k])];
    assert Identities(spec, b) == Identities(spec, b[..k]) + x + Identities(spec, b[k + 1..]);
    assert Identities(spec, b[..k] + b[k + 1..]) == Identities(spec, b[..k]) + Identities(spec, b[k + 1..]);
  }

  lemma {:induction false} PermutedIdentities(spec: TaskSpec, a: seq<Input>, b: seq<Input>)
    requires multiset(a) == multiset(b)
    ensures multiset(Identities(spec, a)) == multiset(Identities(spec, b))
  {
    SameElements(a, b);
    if a == [] {
      assert b == [];
    } else {
      assert a[|a| - 1] in b;
      var k :| 0 <= k < |b| && b[k] == a[|a| - 1];
      RemoveOne(a, b, k);
      PermutedIdentities(spec, a[..|a| - 1], b[..k] + b[k + 1..]);
      IdentitiesSplit(spec, b, k);
      IdentitiesSplit(spec, a, |a| - 1);
      assert a[..|a| - 1] + a[|a|..] == a[..|a| - 1];
    }
  }

  // ---- recording derived content ------------------------------------------------------------------

  datatype Row = Row(artifact: string, content: ContentId, key: Option<DerivationKey>, run: RunId,
          operation: OperationId, at: Time) {
    /** The key is metadata and no part of the observation's identity. */
    predicate SameId(other: Row) {
      artifact == other.artifact && content == other.content && run == other.run && operation == other.operation
        && at == other.at
    }
  }

  datatype Cache = Cache(rows: seq<Row>, contents: set<ContentId>, blobs: set<ContentId>)

  datatype DerivedError = UnknownContent | BlobUnavailable | DuplicateRow | BuilderFailed | Unreadable

  /** One call of a derived recorder. */
  datatype Derived = Derived(artifact: string, key: Option<DerivationKey>, data: Bytes, run: RunId,
          operation: OperationId, at: Time)

  function OlderFirst(rank: Row -> int): (Row, Row) -> bool {
    (a: Row, b: Row) => a.at < b.at || (a.at == b.at && rank(a) <= rank(b))
  }

  function RowsOf(rows: seq<Row>, artifact: string): seq<Row> {
    if rows == [] then []
    else
      var last := rows[|rows| - 1];
      RowsOf(rows[..|rows| - 1], artifact) + if last.artifact == artifact then [last] else []
  }

  function ObservationsFor(rank: Row -> int, rows: seq<Row>, artifact: string): seq<Row> {
    Sort(RowsOf(rows, artifact), OlderFirst(rank))
  }

  /** The last row with the key. */
  function LastWith(rows: seq<Row>, key: DerivationKey): Option<ContentId> {
    if rows == [] then None
    else if rows[|rows| - 1].key == Some(key) then Some(rows[|rows| - 1].content)
    else LastWith(rows[..|rows| - 1], key)
  }

  function Reusable(rank: Row -> int, c: Cache, artifact: string, key: DerivationKey): Option<ContentId> {
    LastWith(ObservationsFor(rank, c.rows, artifact), key)
  }

  function AppendRow(c: Cache, row: Row): Result<Cache, DerivedError> {
    if exists r :: r in c.rows && r.SameId(row) then Failure(DuplicateRow)
    else Success(c.(rows := c.rows + [row], contents := c.contents + {row.content}))
  }

  function RowFor(d: Derived, content: ContentId): Row { Row(d.artifact, content, d.key, d.run, d.operation, d.at) }

  /** The cache afterwards, and the row or the reason it was refused; a refused ingest leaves its blob. */
  datatype Recording = Recording(cache: Cache, result: Result<Row, DerivedError>)

  function Recorded(c: Cache, appended: Result<Cache, DerivedError>, row: Row): Recording {
    if appended.Failure? then Recording(c, Failure(appended.error)) else Recording(appended.value, Success(row))
  }

  /** Bytes, then their row; any recorder can name a derivation key in the row's metadata. */
  function Ingested(c: Cache, row: Row): Recording {
    var stored := c.(blobs := c.blobs + {row.content});
    Recorded(stored, AppendRow(stored, row), row)
  }

  /** A row for content the repository has. */
  function Observed(c: Cache, row: Row): Recording {
    if row.content !in c.contents then Recording(c, Failure(UnknownContent))
    else if row.content !in c.blobs then Recording(c, Failure(BlobUnavailable))
    else Recorded(c, AppendRow(c, row), row)
  }

  function RecordDerived(rank: Row -> int, c: Cache, d: Derived): Recording {
    var reusable := if d.key.None? then None else Reusable(rank, c, d.artifact, d.key.value);
    if reusable.Some? then Observed(c, RowFor(d, reusable.value)) else Ingested(c, RowFor(d, Sha256(d.data)))
  }

  class DerivedRecorder {
    var rows: seq<Row>
    var contents: set<ContentId>
    var blobs: set<ContentId>
    const rank: Row -> int

    ghost function View(): Cache
      reads this
    {
      Cache(rows, contents, blobs)
    }

    method ReusableContent(artifact: string, key: DerivationKey) returns (found: Option<ContentId>)
      ensures found == Reusable(rank, View(), artifact, key)
    {
      var observed := Sort(RowsOf(rows, artifact), OlderFirst(rank));
      var i := |observed|;
      assert observed[..i] == observed;
      while i > 0
        invariant 0 <= i <= |observed|
        invariant LastWith(observed, key) == LastWith(observed[..i], key)
      {
        i := i - 1;
        assert observed[..i + 1][..i] == observed[..i];
        if observed[i].key == Some(key) { return Some(observed[i].content); }
      }
      return None;
    }

    method Append(row: Row) returns (r: Result<Row, DerivedError>)
      modifies this
      ensures Recorded(old(View()), AppendRow(old(View()), row), row) == Recording(View(), r)
    {
      if other :| other in rows && other.SameId(row) { return Failure(DuplicateRow); }
      rows, contents := rows + [row], contents + {row.content};
      return Success(row);
    }

    method Ingest(row: Row) returns (r: Result<Row, DerivedError>)
      modifies this
      ensures Ingested(old(View()), row) == Recording(View(), r)
    {
      blobs := blobs + {row.content};
      r := Append(row);
    }

    method RecordDerivedBytes(d: Derived) returns (r: Result<Row, DerivedError>)
      modifies this
      ensures RecordDerived(rank, old(View()), d) == Recording(View(), r)
    {
      if d.key.Some? {
        var reusable := ReusableContent(d.artifact, d.key.value);
        if reusable.Some? {
          if reusable.value !in contents { return Failure(UnknownContent); }
          if reusable.value !in blobs { return Failure(BlobUnavailable); }
          r := Append(RowFor(d, reusable.value));
          return;
        }
      }
      r := Ingest(RowFor(d, Sha256(d.data)));
    }

    /**
     * Materialise an index: the builder runs only when nothing is reusable, and what a reuse returns is
     * what the stored bytes decode to, which fails on bytes that hold no object.
     */
    method Materialize(d: Derived, built: Result<Fields, DerivedError>, codec: Codec)
      returns (r: Result<Materialized, DerivedError>)
      requires d.key.Some?
      modifies this
      ensures Materializing(rank, old(View()), d, built, codec) == Materialization(View(), r)
    {
      var reusable := ReusableContent(d.artifact, d.key.value);
      var data, payload := [], map[];
      if reusable.None? {
        if built.Failure? { return Failure(built.error); }
        payload := built.value;
        data := codec.encode(payload);
      }
      var row := RecordDerivedBytes(d.(data := data));
      if row.Failure? { return Failure(row.error); }
      if reusable.Some? {
        var parsed := codec.parse(row.value.content.data);
        if parsed.None? { return Failure(Unreadable); }
        payload := parsed.value;
      }
      return Success(Materialized(row.value, payload, reusable.Some?));
    }
  }

  datatype Materialized = Materialized(row: Row, payload: Fields, reused: bool)

  datatype Materialization = Materialization(cache: Cache, result: Result<Materialized, DerivedError>)

  /** How an index is written as bytes, and read back from bytes that hold an object. */
  datatype Codec = Codec(encode: Fields -> Bytes, parse: Bytes -> Option<Fields>)

  ghost predicate Faithful(codec: Codec) { forall p :: codec.parse(codec.encode(p)) == Some(p) }

  function Returned(row: Row, reused: bool, built: Result<Fields, DerivedError>, codec: Codec)
    : Result<Materialized, DerivedError>
    requires !reused ==> built.Success?
  {
    var payload := if reused then codec.parse(row.content.data) else Some(built.value);
    if payload.None? then Failure(Unreadable) else Success(Materialized(row, payload.value, reused))
  }

  function Materializing(rank: Row -> int, c: Cache, d: Derived, built: Result<Fields, DerivedError>, codec: Codec)
    : Materialization
    requires d.key.Some?
  {
    var reusable := Reusable(rank, c, d.artifact, d.key.value);
    if reusable.None? && built.Failure? then Materialization(c, Failure(built.error))
    else
      var recorded := RecordDerived(rank, c, d.(data := if reusable.None? then codec.encode(built.value) else []));
      if recorded.result.Failure? then Materialization(recorded.cache, Failure(recorded.result.error))
      else Materialization(recorded.cache, Returned(recorded.result.value, reusable.Some?, built, codec))
  }

  // ---- what a lookup finds -------------------------------------------------------------------------

  predicate Carries(r: Row, artifact: string, key: DerivationKey) { r.artifact == artifact && r.key == Some(key) }

  ghost predicate HasKey(c: Cache, artifact: string, key: DerivationKey) {
    exists r :: r in c.rows && Carries(r, artifact, key)
  }

  /** All rows of one artifact with one derivation key name one content. */
  ghost predicate OneContent(c: Cache, artifact: string, key: DerivationKey) {
    forall r, s | r in c.rows && s in c.rows && Carries(r, artifact, key) && Carries(s, artifact, key) ::
      r.content == s.content
  }

  /** A row with the key that no other is newer than. */
  ghost predicate Newest(rank: Row -> int, c: Cache, artifact: string, key: DerivationKey, r: Row) {
    && r in c.rows && Carries(r, artifact, key)
    && forall s | s in c.rows && Carries(s, artifact, key) :: OlderFirst(rank)(s, r)
  }

  lemma {:induction false} RowsOfMember(rows: seq<Row>, artifact: string)
    ensures forall r :: r in RowsOf(rows, artifact) <==> r in rows && r.artifact == artifact
  {
    if rows != [] {
      RowsOfMember(rows[..|rows| - 1], artifact);
      assert rows == rows[..|rows| - 1] + [rows[|rows| - 1]];
    }
  }

  /** In a sorted sequence the last row with the key is the newest. */
  lemma {:induction false} LastWithIsNewest(rank: Row -> int, rows: seq<Row>, key: DerivationKey)
    requires Sorted(rows, OlderFirst(rank))
    ensures LastWith(rows, key).Some? <==> exists r :: r in rows && r.key == Some(key)
    ensures LastWith(rows, key).Some? ==> exists r ::
        && r in rows && r.key == Some(key) && LastWith(rows, key) == Some(r.content)
        && forall s | s in rows && s.key == Some(key) :: OlderFirst(rank)(s, r)
  {
    if rows != [] {
      var init, last := rows[..|rows| - 1], rows[|rows| - 1];
      assert rows == init + [last] && last in rows;
      if last.key == Some(key) {
        forall s | s in rows ensures OlderFirst(rank)(s, last) {
          var k :| 0 <= k < |rows| && rows[k] == s;
        }
      } else {
        LastWithIsNewest(rank, init, key);
        if LastWith(init, key).Some? {
          var r :| r in init && r.key == Some(key) && LastWith(init, key) == Some(r.content)
            && forall s | s in init && s.key == Some(key) :: OlderFirst(rank)(s, r);
          assert r in rows;
        }
      }
    }
  }

  lemma OlderFirstIsOrder(rank: Row -> int)
    ensures TotalPreorder(OlderFirst(rank))
  {
  }

  /** The lookup finds something exactly when the key was recorded, and then the content of the newest such row. */
  lemma ReusableIsNewest(rank: Row -> int, c: Cache, artifact: string, key: DerivationKey)
    ensures Reusable(rank, c, artifact, key).Some? <==> HasKey(c, artifact, key)
    ensures Reusable(rank, c, artifact, key).Some? ==>
      exists r :: Newest(rank, c, artifact, key, r) && Reusable(rank, c, artifact, key) == Some(r.content)
  {
    var observed := ObservationsFor(rank, c.rows, artifact);
    RowsOfMember(c.rows, artifact);
    OlderFirstIsOrder(rank);
    SortProperties(RowsOf(c.rows, artifact), OlderFirst(rank));
    assert forall r :: r in observed <==> r in c.rows && r.artifact == artifact;
    LastWithIsNewest(rank, observed, key);
    if LastWith(observed, key).Some? {
      var r :| r in observed && r.key == Some(key) && LastWith(observed, key) == Some(r.content)
        && forall s | s in observed && s.key == Some(key) :: OlderFirst(rank)(s, r);
      assert Newest(rank, c, artifact, key, r);
    }
  }

  /** The key has one content exactly when what the lookup finds is the content of every row that carries it. */
  lemma ReusableIsRecorded(rank: Row -> int, c: Cache, artifact: string, key: DerivationKey)
    ensures OneContent(c, artifact, key) <==>
      forall r | r in c.rows && Carries(r, artifact, key) :: Reusable(rank, c, artifact, key) == Some(r.content)
  {
    ReusableIsNewest(rank, c, artifact, key);
  }

  // ---- histories of everything that touches the cache ------------------------------------------------

  /**
   * A derived recorder's call; a build request, whose builder's outcome is consulted only when the builder
   * runs; any other recorder's row, over new bytes or over recorded content, whose metadata may carry a key (so
   * may that of a derived recorder called without one); and a cleanup of content no row names.
   */
  datatype Act =
    | Record(derived: Derived)
    | Build(request: Derived, key: DerivationKey, built: Result<Fields, DerivedError>)
    | Ingest(row: Row)
    | Observe(row: Row)
    | Sweep(gone: set<ContentId>, files: set<ContentId>)

  ghost function Built(rank: Row -> int, c: Cache, act: Act, codec: Codec): Materialization
    requires act.Build?
  {
    Materializing(rank, c, act.request.(key := Some(act.key)), act.built, codec)
  }

  ghost predicate Named(c: Cache, content: ContentId) { exists r :: r in c.rows && r.content == content }

  ghost function Do(rank: Row -> int, c: Cache, act: Act, codec: Codec): Cache {
    match act
    case Record(d) => RecordDerived(rank, c, d).cache
    case Build(_, _, _) => Built(rank, c, act, codec).cache
    case Ingest(row) => Ingested(c, row).cache
    case Observe(row) => Observed(c, row).cache
    case Sweep(gone, files) =>
      var swept := set x | x in gone && !Named(c, x);
      c.(contents := c.contents - swept, blobs := c.blobs - (files * swept))
  }

  ghost function After(rank: Row -> int, acts: seq<Act>, codec: Codec): Cache {
    if acts == [] then Cache([], {}, {}) else Do(rank, After(rank, acts[..|acts| - 1], codec), acts[|acts| - 1], codec)
  }

  /** Whatever a row names has its row and its blob. */
  ghost predicate Held(c: Cache) { forall r | r in c.rows :: r.content in c.contents && r.content in c.blobs }

  /** The act is another recorder's, and it writes a row that carries the key. */
  ghost predicate WritesPlain(c: Cache, act: Act, artifact: string, key: DerivationKey) {
    && (act.Ingest? || act.Observe?) && Carries(act.row, artifact, key)
    && (if act.Ingest? then Ingested(c, act.row) else Observed(c, act.row)).result.Success?
  }

  /** If so, its content is the one that would be reused. */
  ghost predicate Agrees(rank: Row -> int, c: Cache, act: Act, artifact: string, key: DerivationKey) {
    WritesPlain(c, act, artifact, key) && HasKey(c, artifact, key) ==>
      Reusable(rank, c, artifact, key) == Some(act.row.content)
  }

  ghost predicate AllAgree(rank: Row -> int, acts: seq<Act>, codec: Codec, artifact: string, key: DerivationKey) {
    forall k | 0 <= k < |acts| :: Agrees(rank, After(rank, acts[..k], codec), acts[k], artifact, key)
  }

  /** A row appended to a key with one content leaves one content exactly when it has that content. */
  lemma AppendedRow(rank: Row -> int, c: Cache, c': Cache, row: Row, artifact: string, key: DerivationKey)
    requires c'.rows == c.rows + [row] && OneContent(c, artifact, key)
    ensures OneContent(c', artifact, key) <==>
      Carries(row, artifact, key) && HasKey(c, artifact, key) ==> Reusable(rank, c, artifact, key) == Some(row.content)
  {
    ReusableIsNewest(rank, c, artifact, key);
    assert forall r :: r in c'.rows <==> r in c.rows || r == row;
  }

  /** A derived recorder keeps every key to its content, whatever bytes it is given, and what it reuses is held. */
  lemma RecordingKeeps(rank: Row -> int, c: Cache, d: Derived, artifact: string, key: DerivationKey)
    requires Held(c)
    ensures
      var m := RecordDerived(rank, c, d);
      && Held(m.cache) && c.rows <= m.cache.rows
      && (OneContent(c, artifact, key) ==> OneContent(m.cache, artifact, key))
      && (m.result.Success? ==> m.cache.rows == c.rows + [m.result.value])
      && (m.result.Failure? ==> m.result.error == DuplicateRow)
  {
    var m := RecordDerived(rank, c, d);
    if d.key.Some? { ReusableIsNewest(rank, c, d.artifact, d.key.value); }
    if m.result.Success? && OneContent(c, artifact, key) {
      AppendedRow(rank, c, m.cache, m.result.value, artifact, key);
    }
  }

  lemma BuiltKeeps(rank: Row -> int, c: Cache, act: Act, codec: Codec, artifact: string, key: DerivationKey)
    requires act.Build? && Held(c)
    ensures
      var m := Built(rank, c, act, codec).cache;
      Held(m) && c.rows <= m.rows && (OneContent(c, artifact, key) ==> OneContent(m, artifact, key))
  {
    var d := act.request.(key := Some(act.key));
    var reusable := Reusable(rank, c, d.artifact, act.key);
    if reusable.Some? || act.built.Success? {
      RecordingKeeps(rank, c, d.(data := if reusable.None? then codec.encode(act.built.value) else []), artifact, key);
    }
  }

  lemma PlainKeeps(rank: Row -> int, c: Cache, act: Act, codec: Codec, artifact: string, key: DerivationKey)
    requires (act.Ingest? || act.Observe?) && Held(c)
    ensures Held(Do(rank, c, act, codec)) && c.rows <= Do(rank, c, act, codec).rows
    ensures OneContent(c, artifact, key) ==>
      (OneContent(Do(rank, c, act, codec), artifact, key) <==> Agrees(rank, c, act, artifact, key))
  {
    var m := if act.Ingest? then Ingested(c, act.row) else Observed(c, act.row);
    if m.result.Success? && OneContent(c, artifact, key) {
      AppendedRow(rank, c, m.cache, act.row, artifact, key);
    }
  }

  lemma DoKeeps(rank: Row -> int, c: Cache, act: Act, codec: Codec, artifact: string, key: DerivationKey)
    requires Held(c)
    ensures Held(Do(rank, c, act, codec)) && c.rows <= Do(rank, c, act, codec).rows
    ensures OneContent(c, artifact, key) ==>
      (OneContent(Do(rank, c, act, codec), artifact, key) <==> Agrees(rank, c, act, artifact, key))
  {
    match act
    case Record(d) => RecordingKeeps(rank, c, d, artifact, key);
    case Build(_, _, _) => BuiltKeeps(rank, c, act, codec, artifact, key);
    case Ingest(_) => PlainKeeps(rank, c, act, codec, artifact, key);
    case Observe(_) => PlainKeeps(rank, c, act, codec, artifact, key);
    case Sweep(gone, files) => forall r | r in c.rows ensures Named(c, r.content) {}
  }

  lemma {:induction false} AllAgreeGrows(rank: Row -> int, init: seq<Act>, last: Act, codec: Codec,
        artifact: string, key: DerivationKey)
    ensures AllAgree(rank, init + [last], codec, artifact, key) <==>
      AllAgree(rank, init, codec, artifact, key) && Agrees(rank, After(rank, init, codec), last, artifact, key)
  {
    var acts := init + [last];
    assert acts[..|init|] == init && acts[|init|] == last;
    forall k | 0 <= k < |init| ensures acts[..k] == init[..k] && acts[k] == init[k] {}
    if AllAgree(rank, acts, codec, artifact, key) {
      forall k | 0 <= k < |init| ensures Agrees(rank, After(rank, init[..k], codec), init[k], artifact, key) {
        assert Agrees(rank, After(rank, acts[..k], codec), acts[k], artifact, key);
      }
      assert Agrees(rank, After(rank, acts[..|init|], codec), acts[|init|], artifact, key);
    }
  }

  /**
   * Over any history of builds, derived recorders, other recorders and cleanups nothing a row names is lost; and
   * an artifact has one content under a derivation key exactly when every row with the key that another recorder
   * wrote had the content that would then have been reused.
   */
  lemma {:induction false} DerivationsAreDeterministic(rank: Row -> int, acts: seq<Act>, codec: Codec,
        artifact: string, key: DerivationKey)
    ensures Held(After(rank, acts, codec))
    ensures OneContent(After(rank, acts, codec), artifact, key) <==> AllAgree(rank, acts, codec, artifact, key)
  {
    if acts != [] {
      var init, last := acts[..|acts| - 1], acts[|acts| - 1];
      assert acts == init + [last];
      DerivationsAreDeterministic(rank, init, codec, artifact, key);
      DoKeeps(rank, After(rank, init, codec), last, codec, artifact, key);
      AllAgreeGrows(rank, init, last, codec, artifact, key);
    }
  }

  lemma {:induction false} RowsStay(rank: Row -> int, acts: seq<Act>, k: nat, codec: Codec, artifact: string,
        key: DerivationKey)
    requires k <= |acts|
    ensures After(rank, acts[..k], codec).rows <= After(rank, acts, codec).rows
  {
    if k == |acts| {
      assert acts[..k] == acts;
    } else {
      var init := acts[..|acts| - 1];
      assert init[..k] == acts[..k];
      RowsStay(rank, init, k, codec, artifact, key);
      DerivationsAreDeterministic(rank, init, codec, artifact, key);
      DoKeeps(rank, After(rank, init, codec), acts[|acts| - 1], codec, artifact, key);
    }
  }

  // ---- builds -----------------------------------------------------------------------------------------

  /** What the i-th act, a build, returned. */
  ghost function ResultAt(rank: Row -> int, acts: seq<Act>, i: nat, codec: Codec): Result<Materialized, DerivedError>
    requires i < |acts| && acts[i].Build?
  {
    Built(rank, After(rank, acts[..i], codec), acts[i], codec).result
  }

  /** A build that returned has its row in the cache, with content that parses to the payload it returned. */
  lemma ReturnedBuildIsStored(rank: Row -> int, c: Cache, act: Act, codec: Codec)
    requires act.Build? && Held(c) && Faithful(codec) && Built(rank, c, act, codec).result.Success?
    ensures
      var m := Built(rank, c, act, codec);
      && m.result.value.row in m.cache.rows && Carries(m.result.value.row, act.request.artifact, act.key)
      && codec.parse(m.result.value.row.content.data) == Some(m.result.value.payload)
      && (m.result.value.reused <==> HasKey(c, act.request.artifact, act.key))
      && (m.result.value.reused ==>
            Reusable(rank, c, act.request.artifact, act.key) == Some(m.result.value.row.content))
      && (!m.result.value.reused ==> act.built.Success? && m.result.value.payload == act.built.value)
  {
    var d := act.request.(key := Some(act.key));
    ReusableIsNewest(rank, c, d.artifact, act.key);
    var reusable := Reusable(rank, c, d.artifact, act.key);
    var data := if reusable.None? then codec.encode(act.built.value) else [];
    RecordingKeeps(rank, c, d.(data := data), d.artifact, act.key);
  }

  lemma {:induction false} ReturnedRowIsNext(rank: Row -> int, acts: seq<Act>, i: nat, codec: Codec)
    requires i < |acts| && acts[i].Build? && Faithful(codec) && ResultAt(rank, acts, i, codec).Success?
    requires Held(After(rank, acts[..i], codec))
    ensures ResultAt(rank, acts, i, codec).value.row in After(rank, acts[..i + 1], codec).rows
  {
    ReturnedBuildIsStored(rank, After(rank, acts[..i], codec), acts[i], codec);
    assert acts[..i + 1][..i] == acts[..i];
  }

  /** The row of a build that returned is in every later cache. */
  lemma {:induction false} ReturnedRowStays(rank: Row -> int, acts: seq<Act>, i: nat, j: nat, codec: Codec)
    requires i < j <= |acts| && acts[i].Build? && Faithful(codec) && ResultAt(rank, acts, i, codec).Success?
    requires Held(After(rank, acts[..i], codec))
    ensures ResultAt(rank, acts, i, codec).value.row in After(rank, acts[..j], codec).rows
  {
    ReturnedRowIsNext(rank, acts, i, codec);
    RowsStay(rank, acts[..j], i + 1, codec, acts[i].request.artifact, acts[i].key);
    assert acts[..j][..i + 1] == acts[..i + 1];
  }

  /** A build that returns when its key is recorded is a reuse of the newest row's content. */
  lemma RecordedKeyIsReused(rank: Row -> int, c: Cache, earlier: Row, act: Act, codec: Codec)
    requires act.Build? && Held(c) && Faithful(codec) && Built(rank, c, act, codec).result.Success?
    requires earlier in c.rows && Carries(earlier, act.request.artifact, act.key)
    ensures
      var later := Built(rank, c, act, codec).result.value;
      && later.reused
      && (exists r ::
            Newest(rank, c, act.request.artifact, act.key, r) && codec.parse(r.content.data) == Some(later.payload))
      && (OneContent(c, act.request.artifact, act.key) ==> codec.parse(earlier.content.data) == Some(later.payload))
  {
    ReturnedBuildIsStored(rank, c, act, codec);
    ReusableIsNewest(rank, c, act.request.artifact, act.key);
    ReusableIsRecorded(rank, c, act.request.artifact, act.key);
  }

  /**
   * Over any history: of two builds that return for one index and key, the later is a reuse, so the builder's
   * result is used at most once for each key. It returns the payload of the newest row with the key, which is
   * the earlier build's payload when the other recorders agreed until then.
   */
  lemma {:induction false} LaterBuildsReuse(rank: Row -> int, acts: seq<Act>, i: nat, j: nat, codec: Codec)
    requires i < j < |acts| && acts[i].Build? && acts[j].Build? && Faithful(codec)
    requires acts[i].request.artifact == acts[j].request.artifact && acts[i].key == acts[j].key
    requires ResultAt(rank, acts, i, codec).Success? && ResultAt(rank, acts, j, codec).Success?
    ensures
      var earlier, later := ResultAt(rank, acts, i, codec).value, ResultAt(rank, acts, j, codec).value;
      && later.reused
      && (exists r ::
            && Newest(rank, After(rank, acts[..j], codec), acts[j].request.artifact, acts[j].key, r)
            && codec.parse(r.content.data) == Some(later.payload))
      && (AllAgree(rank, acts[..j], codec, acts[j].request.artifact, acts[j].key) ==> later.payload == earlier.payload)
  {
    var artifact, key := acts[j].request.artifact, acts[j].key;
    var before := After(rank, acts[..j], codec);
    DerivationsAreDeterministic(rank, acts[..i], codec, artifact, key);
    ReturnedRowStays(rank, acts, i, j, codec);
    ReturnedBuildIsStored(rank, After(rank, acts[..i], codec), acts[i], codec);
    DerivationsAreDeterministic(rank, acts[..j], codec, artifact, key);
    RecordedKeyIsReused(rank, before, ResultAt(rank, acts, i, codec).value.row, acts[j], codec);
  }

  /**
   * No history loses the content of a recorded key: a build of one reuses the content of its newest row, and
   * fails exactly when its own row would be a repetition or those bytes hold no object.
   */
  lemma {:induction false} RecordedKeysStayUsable(rank: Row -> int, acts: seq<Act>, act: Act, codec: Codec)
    requires act.Build? && HasKey(After(rank, acts, codec), act.request.artifact, act.key)
    ensures
      var c := After(rank, acts, codec);
      var r := Built(rank, c, act, codec).result;
      exists newest :: Newest(rank, c, act.request.artifact, act.key, newest)
        && var row := RowFor(act.request.(key := Some(act.key)), newest.content);
           && (r.Failure? <==> (exists x :: x in c.rows && x.SameId(row)) || codec.parse(row.content.data).None?)
           && (r.Success? ==> r.value.row == row && Some(r.value.payload) == codec.parse(row.content.data))
  {
    DerivationsAreDeterministic(rank, acts, codec, act.request.artifact, act.key);
    ReusableIsNewest(rank, After(rank, acts, codec), act.request.artifact, act.key);
  }
}
