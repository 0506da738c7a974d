/** Executions of derived tasks: their outputs and the record of the execution itself (operation_recording.py). */
module Executions {
  import opened Models
  import opened Ordering
  import opened Envelopes
  import opened Derivation

  datatype Task = Task(name: string, spec: TaskSpec, deterministic: bool, outputNames: seq<string>)

  /** A returned output, the bytes of its file, and when it is recorded. */
  datatype Output = Output(name: string, data: Bytes, at: Time)

  datatype TaskResult = TaskResult(ok: bool, details: Fields, outputs: seq<Output>)

  /** One execution of a task on its inputs, and when its own record is written. */
  datatype Execution = Execution(
    task: Task, inputs: seq<Input>, result: TaskResult, run: RunId, operation: OperationId, at: Time)

  const EXECUTION := "execution"

  function KeyOf(task: string, name: string): string { "derived:" + task + ":" + name }

  function OutputKeys(task: Task): seq<string> {
    seq(|task.outputNames|, i requires 0 <= i < |task.outputNames| => KeyOf(task.name, task.outputNames[i]))
  }

  function TaskKey(task: Task, inputs: seq<Input>): Option<DerivationKey> {
    if task.deterministic then Some(KeyFor(task.spec, OutputKeys(task), inputs)) else None
  }

  /** The returned names are nonempty, distinct and declared. */
  predicate Declared(e: Execution) {
    && (forall i, j | 0 <= i < j < |e.result.outputs| :: e.result.outputs[i].name != e.result.outputs[j].name)
    && (forall o | o in e.result.outputs :: o.name != "" && o.name in e.task.outputNames)
  }

  function OutputCall(e: Execution, o: Output): Derived {
    Derived(KeyOf(e.task.name, o.name), TaskKey(e.task, e.inputs), o.data, e.run, e.operation, o.at)
  }

  /** The record of the execution carries the derivation key of its outputs. */
  function ExecutionRow(e: Execution, encode: Fields -> Bytes): Row {
    Row(KeyOf(e.task.name, EXECUTION), Sha256(encode(e.result.details)), TaskKey(e.task, e.inputs), e.run, e.operation,
        e.at)
  }

  /** How far a recording came: the cache, the rows so far, and what the storage raised. */
  datatype Progress = Progress(cache: Cache, rows: seq<Row>, error: Option<DerivedError>)

  function Then(p: Progress, m: Recording): Progress {
    if m.result.Failure? then Progress(m.cache, p.rows, Some(m.result.error))
    else Progress(m.cache, p.rows + [m.result.value], None)
  }

  function RecordOutputs(rank: Row -> int, c: Cache, e: Execution, outputs: seq<Output>): Progress {
    if outputs == [] then Progress(c, [], None)
    else
      var p := RecordOutputs(rank, c, e, outputs[..|outputs| - 1]);
      if p.error.Some? then p else Then(p, RecordDerived(rank, p.cache, OutputCall(e, outputs[|outputs| - 1])))
  }

  function Written(e: Execution): seq<Output> { if e.result.ok then e.result.outputs else [] }

  /** A result that was not declared records nothing; a failed one records its execution only. */
  function Execute(rank: Row -> int, c: Cache, e: Execution, encode: Fields -> Bytes): Progress {
    if !Declared(e) then Progress(c, [], None)
    else
      var p := RecordOutputs(rank, c, e, Written(e));
      if p.error.Some? then p else Then(p, Ingested(p.cache, ExecutionRow(e, encode)))
  }

  /** The execution of a derived operation over the recorder. */
  method RunDerivedOperation(recorder: DerivedRecorder, e: Execution, encode: Fields -> Bytes)
    returns (rows: seq<Row>, error: Option<DerivedError>)
    modifies recorder
    ensures Execute(recorder.rank, old(recorder.View()), e, encode) == Progress(recorder.View(), rows, error)
  {
    rows, error := [], None;
    if !Declared(e) { return; }
    ghost var before := recorder.View();
    var outputs := Written(e);
    assert outputs[..|outputs|] == outputs;
    for i := 0 to |outputs|
      invariant RecordOutputs(recorder.rank, before, e, outputs[..i]) == Progress(recorder.View(), rows, None)
    {
      assert outputs[..i + 1][..i] == outputs[..i];
      var row := recorder.RecordDerivedBytes(OutputCall(e, outputs[i]));
      if row.Failure? {
        StaysFailed(recorder.rank, before, e, outputs, i + 1);
        return rows, Some(row.error);
      }
      rows := rows + [row.value];
    }
    var row := recorder.Ingest(ExecutionRow(e, encode));
    if row.Failure? { return rows, Some(row.error); }
    rows := rows + [row.value];
  }

  lemma {:induction false} StaysFailed(rank: Row -> int, c: Cache, e: Execution, outputs: seq<Output>, k: nat)
    requires k <= |outputs| && RecordOutputs(rank, c, e, outputs[..k]).error.Some?
    ensures RecordOutputs(rank, c, e, outputs) == RecordOutputs(rank, c, e, outputs[..k])
  {
    if k == |outputs| {
      assert outputs[..k] == outputs;
    } else {
      assert outputs[..|outputs| - 1][..k] == outputs[..k];
      StaysFailed(rank, c, e, outputs[..|outputs| - 1], k);
    }
  }

  // ---- an execution is a history of acts ---------------------------------------------------------------

  /** The derived recorder's calls up to the first that raises. */
  function OutputActs(rank: Row -> int, c: Cache, e: Execution, outputs: seq<Output>): seq<Act> {
    if outputs == [] then []
    else
      var init := outputs[..|outputs| - 1];
      OutputActs(rank, c, e, init) +
      if RecordOutputs(rank, c, e, init).error.Some? then [] else [Record(OutputCall(e, outputs[|outputs| - 1]))]
  }

  function ActsOf(rank: Row -> int, c: Cache, e: Execution, encode: Fields -> Bytes): seq<Act> {
    if !Declared(e) then []
    else
      OutputActs(rank, c, e, Written(e)) +
      if RecordOutputs(rank, c, e, Written(e)).error.Some? then [] else [Act.Ingest(ExecutionRow(e, encode))]
  }

  lemma {:induction false} AfterOne(rank: Row -> int, acts: seq<Act>, act: Act, codec: Codec)
    ensures After(rank, acts + [act], codec) == Do(rank, After(rank, acts, codec), act, codec)
  {
    assert (acts + [act])[..|acts|] == acts;
  }

  lemma {:induction false} OutputsAreActs(rank: Row -> int, acts: seq<Act>, e: Execution, outputs: seq<Output>,
        codec: Codec)
    ensures
      var c := After(rank, acts, codec);
      After(rank, acts + OutputActs(rank, c, e, outputs), codec) == RecordOutputs(rank, c, e, outputs).cache
  {
    var c := After(rank, acts, codec);
    if outputs == [] {
      assert acts + [] == acts;
    } else {
      var init, last := outputs[..|outputs| - 1], outputs[|outputs| - 1];
      OutputsAreActs(rank, acts, e, init, codec);
      var front, act := OutputActs(rank, c, e, init), Record(OutputCall(e, last));
      if RecordOutputs(rank, c, e, init).error.Some? {
        assert OutputActs(rank, c, e, outputs) == front;
      } else {
        assert acts + (front + [act]) == (acts + front) + [act];
        AfterOne(rank, acts + front, act, codec);
      }
    }
  }

  /**
   * An execution leaves the cache that derived recorders' calls and one plain row leave, so what holds over
   * histories holds over executions; the plain row is under an execution key.
   */
  lemma {:induction false} ExecutionIsHistory(rank: Row -> int, acts: seq<Act>, e: Execution, codec: Codec)
    ensures
      var c := After(rank, acts, codec);
      && After(rank, acts + ActsOf(rank, c, e, codec.encode), codec) == Execute(rank, c, e, codec.encode).cache
      && PlainRowsAreExecutions(ActsOf(rank, c, e, codec.encode))
  {
    var c := After(rank, acts, codec);
    if !Declared(e) {
      assert acts + [] == acts;
    } else {
      var front := OutputActs(rank, c, e, Written(e));
      OutputsAreActs(rank, acts, e, Written(e), codec);
      OutputActsRecord(rank, c, e, Written(e));
      if RecordOutputs(rank, c, e, Written(e)).error.Some? {
        assert front + [] == front;
      } else {
        var act := Act.Ingest(ExecutionRow(e, codec.encode));
        assert acts + (front + [act]) == (acts + front) + [act];
        AfterOne(rank, acts + front, act, codec);
        assert act.row.artifact == KeyOf(e.task.name, EXECUTION);
      }
    }
  }

  lemma {:induction false} OutputActsRecord(rank: Row -> int, c: Cache, e: Execution, outputs: seq<Output>)
    ensures forall a | a in OutputActs(rank, c, e, outputs) :: a.Record?
  {
    if outputs != [] { OutputActsRecord(rank, c, e, outputs[..|outputs| - 1]); }
  }

  // ---- which outputs have one content ------------------------------------------------------------------

  ghost predicate IsExecutionKey(artifact: string) { exists task :: artifact == KeyOf(task, EXECUTION) }

  /** Plain recorders write derivation keys under execution keys only, as executions do. */
  ghost predicate PlainRowsAreExecutions(acts: seq<Act>) {
    forall a | a in acts && (a.Ingest? || a.Observe?) && a.row.key.Some? :: IsExecutionKey(a.row.artifact)
  }

  predicate EndsWith(s: string, suffix: string) { |suffix| <= |s| && s[|s| - |suffix|..] == suffix }

  /** An output name that makes an output's key the execution key of some task. */
  predicate Clashes(name: string) { name == EXECUTION || EndsWith(name, ":" + EXECUTION) }

  /** Output keys are execution keys exactly when the name clashes; within one task only `execution` does. */
  lemma OutputMeetsExecution(task: string, name: string)
    ensures IsExecutionKey(KeyOf(task, name)) <==> Clashes(name)
    ensures KeyOf(task, name) == KeyOf(task, EXECUTION) <==> name == EXECUTION
  {
    var prefix, mark := "derived:" + task + ":", ":" + EXECUTION;
    if KeyOf(task, name) == KeyOf(task, EXECUTION) {
      assert name == (prefix + name)[|prefix|..] == (prefix + EXECUTION)[|prefix|..] == EXECUTION;
    }
    if EndsWith(name, mark) {
      var front := name[..|name| - |mark|];
      assert name == front + mark;
      assert KeyOf(task, name) == KeyOf(task + ":" + front, EXECUTION);
    }
    if IsExecutionKey(KeyOf(task, name)) {
      var other :| KeyOf(task, name) == KeyOf(other, EXECUTION);
      KeysEndAlike(task, name, other);
    }
  }

  lemma LastCharacters(s: string, suffix: string)
    requires EndsWith(s, suffix)
    ensures forall i | |s| - |suffix| <= i < |s| :: s[i] == suffix[i - |s| + |suffix|]
  {
  }

  lemma KeysEndAlike(task: string, name: string, other: string)
    requires KeyOf(task, name) == KeyOf(other, EXECUTION)
    ensures Clashes(name)
  {
    var key, mark := KeyOf(task, name), ":" + EXECUTION;
    var n := |key|;
    assert key[n - |mark|..] == mark && key[n - |name|..] == name && key[n - |name| - 1] == ':';
    assert mark[1..] == EXECUTION && forall i | 1 <= i < |mark| :: mark[i] != ':';
    LastCharacters(key, mark);
    if |name| == |EXECUTION| {
      assert name == key[n - |EXECUTION|..] == mark[1..];
    } else if |name| > |EXECUTION| {
      assert name[|name| - |mark|..] == key[n - |mark|..];
    }
  }

  /** A key that no other recorder's row carries has one content. */
  lemma {:induction false} UncontestedKeyHasOneContent(rank: Row -> int, acts: seq<Act>, codec: Codec, artifact: string,
        key: DerivationKey)
    requires forall a | a in acts && (a.Ingest? || a.Observe?) :: !Carries(a.row, artifact, key)
    ensures OneContent(After(rank, acts, codec), artifact, key)
  {
    DerivationsAreDeterministic(rank, acts, codec, artifact, key);
    forall k | 0 <= k < |acts| ensures Agrees(rank, After(rank, acts[..k], codec), acts[k], artifact, key) {
      assert acts[k] in acts;
    }
  }

  /**
   * Over any history in which other recorders write derivation keys under execution keys only, every output of
   * every task has one content for each derivation, unless its name clashes.
   */
  lemma {:induction false} OutputsAreDeterministic(rank: Row -> int, acts: seq<Act>, codec: Codec, task: string,
        name: string, key: DerivationKey)
    requires PlainRowsAreExecutions(acts) && !Clashes(name)
    ensures OneContent(After(rank, acts, codec), KeyOf(task, name), key)
  {
    OutputMeetsExecution(task, name);
    forall a | a in acts && (a.Ingest? || a.Observe?) ensures !Carries(a.row, KeyOf(task, name), key) {}
    UncontestedKeyHasOneContent(rank, acts, codec, KeyOf(task, name), key);
  }

  // ---- what an execution appends -----------------------------------------------------------------------

  /** Rows of the first outputs, in order. */
  ghost predicate RowsFor(e: Execution, outputs: seq<Output>, rows: seq<Row>) {
    && |rows| <= |outputs|
    && forall i | 0 <= i < |rows| :: rows[i] == RowFor(OutputCall(e, outputs[i]), rows[i].content)
  }

  ghost predicate Appended(c: Cache, e: Execution, outputs: seq<Output>, p: Progress) {
    && Held(p.cache) && p.cache.rows == c.rows + p.rows && RowsFor(e, outputs, p.rows)
    && (p.error.None? ==> |p.rows| == |outputs|)
  }

  lemma {:induction false} OutputsAppend(rank: Row -> int, c: Cache, e: Execution, outputs: seq<Output>)
    requires Held(c)
    ensures Appended(c, e, outputs, RecordOutputs(rank, c, e, outputs))
  {
    if outputs != [] {
      var init, last := outputs[..|outputs| - 1], outputs[|outputs| - 1];
      OutputsAppend(rank, c, e, init);
      OneOutputAppends(rank, c, RecordOutputs(rank, c, e, init), e, init, last, outputs);
    }
  }

  lemma OneOutputAppends(rank: Row -> int, c: Cache, p: Progress, e: Execution, init: seq<Output>, last: Output,
        outputs: seq<Output>)
    requires Appended(c, e, init, p) && outputs == init + [last]
    ensures Appended(c, e, outputs,
      if p.error.Some? then p else Then(p, RecordDerived(rank, p.cache, OutputCall(e, last))))
  {
    if p.error.None? {
      var m := RecordDerived(rank, p.cache, OutputCall(e, last));
      RecordingKeeps(rank, p.cache, OutputCall(e, last), "", KeyFor(e.task.spec, [], []));
      if m.result.Success? { assert c.rows + (p.rows + [m.result.value]) == (c.rows + p.rows) + [m.result.value]; }
    }
  }

  /** A declared execution that raised nothing. */
  ghost predicate Recorded(rank: Row -> int, c: Cache, e: Execution, encode: Fields -> Bytes) {
    Declared(e) && Execute(rank, c, e, encode).error.None?
  }

  lemma {:induction false} ExecutionAppends(rank: Row -> int, c: Cache, e: Execution, encode: Fields -> Bytes)
    requires Held(c) && Recorded(rank, c, e, encode)
    ensures
      var p, n := Execute(rank, c, e, encode), |Written(e)|;
      && Held(p.cache) && p.cache.rows == c.rows + p.rows && |p.rows| == n + 1
      && RowsFor(e, Written(e), p.rows[..n]) && p.rows[n] == ExecutionRow(e, encode)
      && p.rows[..n] == RecordOutputs(rank, c, e, Written(e)).rows
  {
    OutputsAppend(rank, c, e, Written(e));
    var p, row := RecordOutputs(rank, c, e, Written(e)), ExecutionRow(e, encode);
    assert c.rows + (p.rows + [row]) == (c.rows + p.rows) + [row];
  }

  /** Of the rows an execution appends, those of its outputs carry the execution's key only under that name. */
  lemma OutputRowsCarry(e: Execution, outputs: seq<Output>, rows: seq<Row>, i: nat, name: string, key: DerivationKey)
    requires RowsFor(e, outputs, rows) && i < |rows| && TaskKey(e.task, e.inputs) == Some(key)
    ensures Carries(rows[i], KeyOf(e.task.name, name), key) <==> outputs[i].name == name
  {
    var prefix := "derived:" + e.task.name + ":";
    assert (prefix + outputs[i].name)[|prefix|..] == outputs[i].name && (prefix + name)[|prefix|..] == name;
  }

  // ---- two executions of one derivation ----------------------------------------------------------------

  ghost predicate SameDerivation(first: Execution, second: Execution, key: DerivationKey) {
    && first.task == second.task
    && TaskKey(first.task, first.inputs) == TaskKey(second.task, second.inputs) == Some(key)
  }

  /**
   * Two executions of one deterministic task on the same inputs leave one content under their execution key and
   * derivation key exactly when they return the same details.
   */
  lemma RepeatedExecutionsDiffer(rank: Row -> int, c: Cache, first: Execution, second: Execution,
        key: DerivationKey, encode: Fields -> Bytes)
    requires Held(c) && SameDerivation(first, second, key) && Recorded(rank, c, first, encode)
    requires !HasKey(c, KeyOf(first.task.name, EXECUTION), key) && EXECUTION !in first.task.outputNames
    requires Recorded(rank, Execute(rank, c, first, encode).cache, second, encode)
    ensures
      var after := Execute(rank, Execute(rank, c, first, encode).cache, second, encode).cache;
      OneContent(after, KeyOf(first.task.name, EXECUTION), key) <==>
        encode(first.result.details) == encode(second.result.details)
  {
    var artifact := KeyOf(first.task.name, EXECUTION);
    var p := Execute(rank, c, first, encode);
    var q := Execute(rank, p.cache, second, encode);
    OnlyOwnRecord(rank, c, first, key, encode);
    OnlyOwnRecord(rank, p.cache, second, key, encode);
    var a, b := ExecutionRow(first, encode), ExecutionRow(second, encode);
    assert a in q.cache.rows && b in q.cache.rows && Carries(a, artifact, key) && Carries(b, artifact, key);
    assert forall r | r in q.cache.rows && Carries(r, artifact, key) :: r == a || r == b;
  }

  /** Without an output of that name, the only row an execution appends under its execution key is its record. */
  lemma OnlyOwnRecord(rank: Row -> int, c: Cache, e: Execution, key: DerivationKey, encode: Fields -> Bytes)
    requires Held(c) && Recorded(rank, c, e, encode) && TaskKey(e.task, e.inputs) == Some(key)
    requires EXECUTION !in e.task.outputNames
    ensures
      var after := Execute(rank, c, e, encode).cache;
      && Held(after) && c.rows <= after.rows && ExecutionRow(e, encode) in after.rows
      && forall r | r in after.rows && Carries(r, KeyOf(e.task.name, EXECUTION), key) ::
           r in c.rows || r == ExecutionRow(e, encode)
  {
    var p, n := Execute(rank, c, e, encode), |Written(e)|;
    ExecutionAppends(rank, c, e, encode);
    assert p.rows == p.rows[..n] + [ExecutionRow(e, encode)];
    assert forall o | o in Written(e) :: o.name != EXECUTION;
    OutputsDoNotCarry(e, Written(e), p.rows[..n], EXECUTION, key);
  }

  lemma OutputsDoNotCarry(e: Execution, outputs: seq<Output>, rows: seq<Row>, name: string, key: DerivationKey)
    requires RowsFor(e, outputs, rows) && TaskKey(e.task, e.inputs) == Some(key)
    requires forall o | o in outputs :: o.name != name
    ensures forall r | r in rows :: !Carries(r, KeyOf(e.task.name, name), key)
  {
    forall r | r in rows ensures !Carries(r, KeyOf(e.task.name, name), key) {
      var i :| 0 <= i < |rows| && rows[i] == r;
      OutputRowsCarry(e, outputs, rows, i, name, key);
    }
  }

  lemma {:induction false} InsertSkips(xs: seq<Row>, x: Row, le: (Row, Row) -> bool, key: DerivationKey)
    requires x.key != Some(key)
    ensures LastWith(Insert(xs, x, le), key) == LastWith(xs, key)
  {
    if xs == [] || le(xs[|xs| - 1], x) {
      assert (xs + [x])[..|xs|] == xs;
    } else {
      var front := Insert(xs[..|xs| - 1], x, le);
      InsertSkips(xs[..|xs| - 1], x, le, key);
      assert (front + [xs[|xs| - 1]])[..|front|] == front;
    }
  }

  lemma LookupSkipsRow(rank: Row -> int, c: Cache, c': Cache, row: Row, artifact: string, key: DerivationKey)
    requires c'.rows == c.rows + [row] && !Carries(row, artifact, key)
    ensures Reusable(rank, c', artifact, key) == Reusable(rank, c, artifact, key)
  {
    var mine, more := RowsOf(c.rows, artifact), if row.artifact == artifact then [row] else [];
    assert c'.rows[..|c'.rows| - 1] == c.rows && c'.rows[|c'.rows| - 1] == row;
    assert RowsOf(c'.rows, artifact) == mine + more;
    if row.artifact == artifact {
      assert (mine + more)[..|mine|] == mine;
      InsertSkips(Sort(mine, OlderFirst(rank)), row, OlderFirst(rank), key);
    } else {
      assert mine + more == mine;
    }
  }

  /** Rows that do not carry the key leave the lookup as it was. */
  lemma {:induction false} LookupSkips(rank: Row -> int, c: Cache, c': Cache, more: seq<Row>, artifact: string,
        key: DerivationKey)
    requires c'.rows == c.rows + more && forall r | r in more :: !Carries(r, artifact, key)
    ensures Reusable(rank, c', artifact, key) == Reusable(rank, c, artifact, key)
    decreases |more|
  {
    if more == [] {
      assert c'.rows == c.rows;
    } else {
      var init, last := more[..|more| - 1], more[|more| - 1];
      var before := c.(rows := c.rows + init);
      assert c'.rows == before.rows + [last] && last in more;
      assert forall r | r in init :: r in more;
      LookupSkips(rank, c, before, init, artifact, key);
      LookupSkipsRow(rank, before, c', last, artifact, key);
    }
  }

  /** A row that is newer than every other with the key is the one that is found. */
  lemma NewestIsFound(rank: Row -> int, c: Cache, row: Row, artifact: string, key: DerivationKey)
    requires row in c.rows && Carries(row, artifact, key)
    requires forall r | r in c.rows && Carries(r, artifact, key) && r != row :: r.at < row.at
    ensures Reusable(rank, c, artifact, key) == Some(row.content)
  {
    ReusableIsNewest(rank, c, artifact, key);
    var r :| Newest(rank, c, artifact, key, r) && Reusable(rank, c, artifact, key) == Some(r.content);
    assert OlderFirst(rank)(row, r);
  }

  /** The row of an output is what the derived recorder returns after the outputs before it. */
  ghost predicate ServedAt(rank: Row -> int, p: Progress, e: Execution, o: Output, j: nat, rows: seq<Row>) {
    && p.error.None? && j < |rows| && RecordDerived(rank, p.cache, OutputCall(e, o)).result == Success(rows[j])
  }

  lemma {:induction false} OutputAt(rank: Row -> int, c: Cache, e: Execution, outputs: seq<Output>, j: nat)
    requires Held(c) && j < |outputs| && RecordOutputs(rank, c, e, outputs).error.None?
    ensures ServedAt(rank, RecordOutputs(rank, c, e, outputs[..j]), e, outputs[j], j,
                     RecordOutputs(rank, c, e, outputs).rows)
  {
    var init, last := outputs[..|outputs| - 1], outputs[|outputs| - 1];
    var p := RecordOutputs(rank, c, e, init);
    if j < |init| {
      assert init[..j] == outputs[..j] && init[j] == outputs[j];
      OutputAt(rank, c, e, init, j);
      StillServed(rank, RecordOutputs(rank, c, e, outputs[..j]), e, outputs[j], j, p,
                  RecordDerived(rank, p.cache, OutputCall(e, last)));
    } else {
      OutputsAppend(rank, c, e, init);
    }
  }

  lemma StillServed(rank: Row -> int, front: Progress, e: Execution, o: Output, j: nat, p: Progress, m: Recording)
    requires ServedAt(rank, front, e, o, j, p.rows)
    ensures ServedAt(rank, front, e, o, j, Then(p, m).rows)
  {
    assert Then(p, m).rows[j] == p.rows[j];
  }

  /** Up to an output, the rows of its execution do not carry its key, so the lookup is that of the cache before. */
  lemma {:induction false} LookupBeforeOutput(rank: Row -> int, c: Cache, e: Execution, outputs: seq<Output>, j: nat,
        key: DerivationKey)
    requires Held(c) && j < |outputs| && TaskKey(e.task, e.inputs) == Some(key)
    requires forall i | 0 <= i < j :: outputs[i].name != outputs[j].name
    ensures
      var p := RecordOutputs(rank, c, e, outputs[..j]);
      Reusable(rank, p.cache, KeyOf(e.task.name, outputs[j].name), key)
        == Reusable(rank, c, KeyOf(e.task.name, outputs[j].name), key)
  {
    var p, artifact := RecordOutputs(rank, c, e, outputs[..j]), KeyOf(e.task.name, outputs[j].name);
    OutputsAppend(rank, c, e, outputs[..j]);
    OutputsDoNotCarry(e, outputs[..j], p.rows, outputs[j].name, key);
    LookupSkips(rank, c, p.cache, p.rows, artifact, key);
  }

  /** The content of a recorded output: what the cache before has under its key, or its own bytes. */
  lemma OutputContent(rank: Row -> int, c: Cache, e: Execution, encode: Fields -> Bytes, j: nat, key: DerivationKey)
    requires Held(c) && Recorded(rank, c, e, encode) && TaskKey(e.task, e.inputs) == Some(key) && j < |Written(e)|
    ensures
      var p, o := Execute(rank, c, e, encode), Written(e)[j];
      var known := Reusable(rank, c, KeyOf(e.task.name, o.name), key);
      j < |p.rows| && p.rows[j].content == if known.Some? then known.value else Sha256(o.data)
  {
    var outputs := Written(e);
    ExecutionAppends(rank, c, e, encode);
    OutputAt(rank, c, e, outputs, j);
    LookupBeforeOutput(rank, c, e, outputs, j, key);
    assert Execute(rank, c, e, encode).rows[..|outputs|][j] == RecordOutputs(rank, c, e, outputs).rows[j];
  }

  /**
   * A task that declares an output named `execution`: its first execution records that output's bytes, and the
   * next one on the same inputs is served the first one's record in their place, whatever it produced.
   */
  lemma OutputIsServedExecution(rank: Row -> int, c: Cache, first: Execution, second: Execution, i: nat, j: nat,
        key: DerivationKey, encode: Fields -> Bytes)
    requires Held(c) && SameDerivation(first, second, key) && Recorded(rank, c, first, encode)
    requires Recorded(rank, Execute(rank, c, first, encode).cache, second, encode)
    requires !HasKey(c, KeyOf(first.task.name, EXECUTION), key)
    requires i < |Written(first)| && Written(first)[i].name == EXECUTION && Written(first)[i].at < first.at
    requires j < |Written(second)| && Written(second)[j].name == EXECUTION
    ensures
      var p := Execute(rank, c, first, encode);
      var q := Execute(rank, p.cache, second, encode);
      && i < |p.rows| && p.rows[i].content == Sha256(Written(first)[i].data)
      && j < |q.rows| && q.rows[j].artifact == KeyOf(first.task.name, EXECUTION)
      && q.rows[j].content == Sha256(encode(first.result.details))
  {
    var artifact := KeyOf(first.task.name, EXECUTION);
    var p := Execute(rank, c, first, encode);
    ExecutionAppends(rank, c, first, encode);
    ExecutionAppends(rank, p.cache, second, encode);
    ReusableIsNewest(rank, c, artifact, key);
    OutputContent(rank, c, first, encode, i, key);
    RecordIsNewest(rank, c, first, encode, i, key);
    OutputContent(rank, p.cache, second, encode, j, key);
    var n := |Written(second)|;
    assert Execute(rank, p.cache, second, encode).rows[..n][j] == Execute(rank, p.cache, second, encode).rows[j];
  }

  /** After the execution, a lookup of its execution key finds its record. */
  lemma RecordIsNewest(rank: Row -> int, c: Cache, e: Execution, encode: Fields -> Bytes, i: nat, key: DerivationKey)
    requires Held(c) && Recorded(rank, c, e, encode) && TaskKey(e.task, e.inputs) == Some(key)
    requires !HasKey(c, KeyOf(e.task.name, EXECUTION), key)
    requires i < |Written(e)| && Written(e)[i].name == EXECUTION && Written(e)[i].at < e.at
    ensures Reusable(rank, Execute(rank, c, e, encode).cache, KeyOf(e.task.name, EXECUTION), key)
         == Some(Sha256(encode(e.result.details)))
  {
    var p, n, row := Execute(rank, c, e, encode), |Written(e)|, ExecutionRow(e, encode);
    ExecutionAppends(rank, c, e, encode);
    assert p.rows == p.rows[..n] + [row];
    OutputOfNameIsAt(e, p.rows[..n], i, key);
    NewestIsFound(rank, p.cache, row, KeyOf(e.task.name, EXECUTION), key);
  }

  lemma OutputOfNameIsAt(e: Execution, rows: seq<Row>, i: nat, key: DerivationKey)
    requires RowsFor(e, Written(e), rows) && Declared(e) && TaskKey(e.task, e.inputs) == Some(key)
    requires i < |Written(e)|
    ensures forall r | r in rows && Carries(r, KeyOf(e.task.name, Written(e)[i].name), key) :: r.at == Written(e)[i].at
  {
    forall r | r in rows && Carries(r, KeyOf(e.task.name, Written(e)[i].name), key) ensures r.at == Written(e)[i].at {
      var k :| 0 <= k < |rows| && rows[k] == r;
      OutputRowsCarry(e, Written(e), rows, k, Written(e)[i].name, key);
    }
  }

  // ---- both, from an empty cache -----------------------------------------------------------------------

  const EMPTY_CACHE := Cache([], {}, {})

  ghost predicate AllBefore(c: Cache, at: Time) { forall r | r in c.rows :: r.at < at }

  lemma LaterOutputIsRecorded(rank: Row -> int, c: Cache, d: Derived, later: Time)
    requires Held(c) && AllBefore(c, d.at) && d.at < later
    ensures
      var m := RecordDerived(rank, c, d);
      m.result.Success? && Held(m.cache) && AllBefore(m.cache, later)
  {
    RecordingKeeps(rank, c, d, "", KeyFor(TaskSpec("", "", map[], OnContent), [], []));
    var m := RecordDerived(rank, c, d);
    if m.result.Success? { assert m.result.value.at == d.at; }
  }

  lemma LaterRecordIsIngested(c: Cache, row: Row, later: Time)
    requires Held(c) && AllBefore(c, row.at) && row.at < later
    ensures Ingested(c, row).result.Success? && Held(Ingested(c, row).cache) && AllBefore(Ingested(c, row).cache, later)
  {
  }

  lemma {:induction false} OneOutput(rank: Row -> int, c: Cache, e: Execution, o: Output)
    ensures RecordOutputs(rank, c, e, [o]) == Then(Progress(c, [], None), RecordDerived(rank, c, OutputCall(e, o)))
  {
    assert [o][..0] == [];
  }

  /** An execution whose rows are all later than those of the cache, with at most one output, raises nothing. */
  lemma LaterExecutionIsRecorded(rank: Row -> int, c: Cache, e: Execution, encode: Fields -> Bytes, later: Time)
    requires Held(c) && Declared(e) && |e.result.outputs| <= 1 && AllBefore(c, e.at) && e.at < later
    requires forall o | o in e.result.outputs :: o.at < e.at && AllBefore(c, o.at)
    ensures
      var after := Execute(rank, c, e, encode).cache;
      Recorded(rank, c, e, encode) && Held(after) && AllBefore(after, later)
  {
    var outputs := Written(e);
    if outputs == [] {
      LaterRecordIsIngested(c, ExecutionRow(e, encode), later);
    } else {
      var o := outputs[0];
      assert outputs == [o] && o in e.result.outputs;
      OneOutput(rank, c, e, o);
      LaterOutputIsRecorded(rank, c, OutputCall(e, o), e.at);
      LaterRecordIsIngested(RecordDerived(rank, c, OutputCall(e, o)).cache, ExecutionRow(e, encode), later);
    }
  }

  /** One deterministic task, run twice on no inputs with different details. */
  lemma DifferentDetailsTwoContents(rank: Row -> int, spec: TaskSpec, a: Fields, b: Fields, encode: Fields -> Bytes)
    requires encode(a) != encode(b)
    ensures
      var task := Task("t", spec, true, []);
      var first := Execution(task, [], TaskResult(true, a, []), "r", "o", 1);
      var second := Execution(task, [], TaskResult(true, b, []), "s", "p", 2);
      var p := Execute(rank, EMPTY_CACHE, first, encode);
      && Recorded(rank, EMPTY_CACHE, first, encode) && Recorded(rank, p.cache, second, encode)
      && !OneContent(Execute(rank, p.cache, second, encode).cache, KeyOf("t", EXECUTION), KeyFor(spec, [], []))
  {
    var task := Task("t", spec, true, []);
    var first := Execution(task, [], TaskResult(true, a, []), "r", "o", 1);
    var second := Execution(task, [], TaskResult(true, b, []), "s", "p", 2);
    assert OutputKeys(task) == [];
    LaterExecutionIsRecorded(rank, EMPTY_CACHE, first, encode, 2);
    LaterExecutionIsRecorded(rank, Execute(rank, EMPTY_CACHE, first, encode).cache, second, encode, 3);
    RepeatedExecutionsDiffer(rank, EMPTY_CACHE, first, second, KeyFor(spec, [], []), encode);
  }

  /** One deterministic task with an output named `execution`, run twice on no inputs. */
  lemma OutputNamedExecution(rank: Row -> int, spec: TaskSpec, data: Bytes, a: Fields, other: Bytes, b: Fields,
        encode: Fields -> Bytes)
    ensures
      var task := Task("t", spec, true, [EXECUTION]);
      var first := Execution(task, [], TaskResult(true, a, [Output(EXECUTION, data, 1)]), "r", "o", 2);
      var second := Execution(task, [], TaskResult(true, b, [Output(EXECUTION, other, 3)]), "s", "p", 4);
      var p := Execute(rank, EMPTY_CACHE, first, encode);
      && Recorded(rank, EMPTY_CACHE, first, encode) && Recorded(rank, p.cache, second, encode)
      && 0 < |p.rows| && p.rows[0].content == Sha256(data)
      && var q := Execute(rank, p.cache, second, encode);
         0 < |q.rows| && q.rows[0].content == Sha256(encode(a))
  {
    var task := Task("t", spec, true, [EXECUTION]);
    var first := Execution(task, [], TaskResult(true, a, [Output(EXECUTION, data, 1)]), "r", "o", 2);
    var second := Execution(task, [], TaskResult(true, b, [Output(EXECUTION, other, 3)]), "s", "p", 4);
    LaterExecutionIsRecorded(rank, EMPTY_CACHE, first, encode, 3);
    LaterExecutionIsRecorded(rank, Execute(rank, EMPTY_CACHE, first, encode).cache, second, encode, 5);
    OutputIsServedExecution(rank, EMPTY_CACHE, first, second, 0, 0, TaskKey(task, []).value, encode);
  }
}
