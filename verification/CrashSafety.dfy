/** Processes that write, clean up and crash over one store: every interleaving of their steps. */
module CrashSafety {
  import opened Models
  import opened Maintenance

  type Pid = nat

  /** What a live process remembers: the contents it has confirmed on disk, or what it has yet to delete. */
  datatype Work =
    | Writing(confirmed: set<ContentId>)
    | Cleaning(todo: set<ContentId>, halfway: Option<ContentId>)

  datatype System = System(files: Files, lease: Option<Pid>, work: map<Pid, Work>)

  const INITIAL := System(Files({}, [], map[], 0), None, map[])

  datatype Step =
    | OpenWriter(p: Pid)
    | OpenCleanup(p: Pid, now: Time, grace: int, audit: Audit)
    | Leave(p: Pid)                       // close, or crash: the operating system frees the lease
    | PutBlob(p: Pid, c: ContentId, at: Time)
    | ConfirmKnown(p: Pid, c: ContentId)
    | RecordContent(p: Pid, c: ContentId, at: Time)
    | RecordBundle(p: Pid, id: string, c: ContentId, inputs: seq<string>, at: Time)
    | RecordRow(p: Pid, row: Row, at: Time)
    | DeleteRow(p: Pid, c: ContentId, at: Time)
    | Unlink(p: Pid)
    | Read(p: Pid)

  predicate HasId(rows: seq<Row>, id: string) {
    exists k :: 0 <= k < |rows| && rows[k].ObservationRow? && rows[k].id == id
  }

  /** The foreign keys a new row is checked against. */
  predicate ForeignKeys(f: Files, row: Row) {
    match row
    case ObservationRow(id, c) => c in f.contents && !HasId(f.rows, id)
    case TreeRow(_, _, entry) => entry.Some? ==> entry.value in f.contents
    case ValidationRow(_, c) => c in f.contents
    case MaterializationRow(_, c) => c in f.contents
    case MemberRow(_, id) => HasId(f.rows, id)
    case ProvenanceRow(input, output) => HasId(f.rows, input) && HasId(f.rows, output)
  }

  function Edges(inputs: seq<string>, output: string): seq<Row> {
    seq(|inputs|, i requires 0 <= i < |inputs| => ProvenanceRow(inputs[i], output))
  }

  predicate Writes(y: System, p: Pid) { p in y.work && y.work[p].Writing? }

  predicate Cleans(y: System, p: Pid) { p in y.work && y.work[p].Cleaning? }

  /** One step; a step whose guard fails raises and changes nothing. */
  ghost function Next(y: System, step: Step): System {
    var f := y.files;
    match step
    case OpenWriter(p) =>
      if y.lease.Some? then y else y.(lease := Some(p), work := y.work[p := Writing({})])
    case OpenCleanup(p, now, grace, audit) =>
      if y.lease.Some? || grace < 0 || !Audited(f, audit) then y
      else
        var todo := set c | c in f.contents + f.blobs.Keys && Doomed(f, now, grace, c);
        y.(lease := Some(p), work := y.work[p := Cleaning(todo, None)])
    case Leave(p) =>
      if y.lease == Some(p) then y.(lease := None, work := y.work - {p}) else y
    case PutBlob(p, c, at) =>
      if !Writes(y, p) then y
      else y.(files := f.(blobs := if c in f.blobs then f.blobs else f.blobs[c := at]),
              work := y.work[p := Writing(y.work[p].confirmed + {c})])
    case ConfirmKnown(p, c) =>
      if !Writes(y, p) || c !in f.contents || c !in f.blobs then y
      else y.(work := y.work[p := Writing(y.work[p].confirmed + {c})])
    case RecordContent(p, c, at) =>
      if !Writes(y, p) || c !in y.work[p].confirmed then y
      else y.(files := f.(contents := f.contents + {c}, modified := at))
    case RecordBundle(p, id, c, inputs, at) =>
      if !Writes(y, p) || c !in y.work[p].confirmed || HasId(f.rows, id)
        || (exists i :: i in inputs && !HasId(f.rows, i)) then y
      else y.(files := f.(contents := f.contents + {c}, rows := f.rows + [ObservationRow(id, c)] + Edges(inputs, id),
        modified := at))
    case RecordRow(p, row, at) =>
      if !Writes(y, p) || !ForeignKeys(f, row) then y
      else y.(files := f.(rows := f.rows + [row], modified := at))
    case DeleteRow(p, c, at) =>
      if !Cleans(y, p) || y.work[p].halfway.Some? || c !in y.work[p].todo then y
      else y.(files := f.(contents := f.contents - {c}, modified := at),
              work := y.work[p := Cleaning(y.work[p].todo - {c}, if c in f.blobs then Some(c) else None)])
    case Unlink(p) =>
      if !Cleans(y, p) || y.work[p].halfway.None? then y
      else y.(files := f.(blobs := f.blobs - {y.work[p].halfway.value}),
        work := y.work[p := y.work[p].(halfway := None)])
    case Read(p) => y
  }

  ghost function After(y: System, steps: seq<Step>): System {
    if steps == [] then y else Next(After(y, steps[..|steps| - 1]), steps[|steps| - 1])
  }

  // ---- the invariant ----------------------------------------------------------------------------

  /** Content named by a row of its own, not through another row. */
  ghost predicate Named(rows: seq<Row>, c: ContentId) {
    exists r :: r in rows && DirectlyNames(r, c)
  }

  ghost predicate DirectlyNames(r: Row, c: ContentId) {
    match r
    case ObservationRow(_, content) => c == content
    case TreeRow(_, _, entry) => entry == Some(c)
    case ValidationRow(_, content) => c == content
    case MaterializationRow(_, content) => c == content
    case MemberRow(_, _) => false
    case ProvenanceRow(_, _) => false
  }

  /** Every join goes through an observation row, so the direct names are all there is. */
  lemma ReachableIsNamed(rows: seq<Row>, c: ContentId)
    ensures Reachable(rows, c) <==> Named(rows, c)
  {
    if Reachable(rows, c) {
      var t :| Refers(rows, t, c);
      var r :| r in rows && NamedBy(rows, r, t, c);
      if r.MemberRow? {
        assert DirectlyNames(ObservationRow(r.observation, c), c);
      } else if r.ProvenanceRow? {
        var o :| o in rows && (o == ObservationRow(r.input, c) || o == ObservationRow(r.output, c));
        assert DirectlyNames(o, c);
      } else {
        assert DirectlyNames(r, c);
      }
    }
    if Named(rows, c) {
      var r :| r in rows && DirectlyNames(r, c);
      var t := match r { case ObservationRow(_, _) => Observations case TreeRow(_, _, _) => TreeEntries
                         case ValidationRow(_, _) => Validations case _ => Materializations };
      assert NamedBy(rows, r, t, c);
      assert Refers(rows, t, c);
    }
  }

  /** Every member and every provenance edge refers to observations that exist. */
  ghost predicate JoinsResolve(rows: seq<Row>) {
    forall r | r in rows :: JoinResolves(rows, r)
  }

  ghost predicate JoinResolves(rows: seq<Row>, r: Row) {
    && (r.MemberRow? ==> HasId(rows, r.observation))
    && (r.ProvenanceRow? ==> HasId(rows, r.input) && HasId(rows, r.output))
  }

  ghost predicate StoreSound(f: Files) {
    && f.contents <= f.blobs.Keys
    && (forall c | Named(f.rows, c) :: c in f.contents)
    && JoinsResolve(f.rows)
  }

  ghost predicate WorkSound(f: Files, w: Work) {
    match w
    case Writing(confirmed) => confirmed <= f.blobs.Keys
    case Cleaning(todo, halfway) =>
      && (forall c | c in todo :: !Named(f.rows, c))
      && (halfway.Some? ==> halfway.value !in f.contents && !Named(f.rows, halfway.value))
  }

  ghost predicate Sound(y: System) {
    && StoreSound(y.files)
    && (forall p | p in y.work :: y.lease == Some(p) && WorkSound(y.files, y.work[p]))
  }

  lemma NamedGrows(rows: seq<Row>, more: seq<Row>, c: ContentId)
    ensures Named(rows + more, c) <==> Named(rows, c) || Named(more, c)
  {
  }

  lemma JoinsGrow(rows: seq<Row>, more: seq<Row>)
    requires JoinsResolve(rows) && forall r | r in more :: JoinResolves(rows + more, r)
    ensures JoinsResolve(rows + more)
  {
    forall r | r in rows ensures JoinResolves(rows + more, r) {
      assert JoinResolves(rows, r);
      IdsGrow(rows, more);
    }
  }

  lemma IdsGrow(rows: seq<Row>, more: seq<Row>)
    ensures forall id | HasId(rows, id) :: HasId(rows + more, id)
  {
    forall id | HasId(rows, id) ensures HasId(rows + more, id) {
      var k :| 0 <= k < |rows| && rows[k].ObservationRow? && rows[k].id == id;
      assert (rows + more)[k] == rows[k];
    }
  }

  /** A writer adds rows: whatever they name has its row, hence its file. */
  lemma RowsAdded(f: Files, c: set<ContentId>, more: seq<Row>, at: Time)
    requires StoreSound(f) && c <= f.blobs.Keys
    requires forall x | Named(more, x) :: x in f.contents + c
    requires forall r | r in more :: JoinResolves(f.rows + more, r)
    ensures StoreSound(f.(contents := f.contents + c, rows := f.rows + more, modified := at))
  {
    JoinsGrow(f.rows, more);
    forall x ensures Named(f.rows + more, x) <==> Named(f.rows, x) || Named(more, x) { NamedGrows(f.rows, more, x); }
  }

  lemma BundleAdds(f: Files, c: ContentId, id: string, inputs: seq<string>, at: Time)
    requires StoreSound(f) && c in f.blobs && forall i | i in inputs :: HasId(f.rows, i)
    ensures StoreSound(f.(contents := f.contents + {c}, rows := f.rows + [ObservationRow(id, c)] + Edges(inputs, id),
        modified := at))
  {
    var more := [ObservationRow(id, c)] + Edges(inputs, id);
    var all := f.rows + more;
    assert all[|f.rows|] == ObservationRow(id, c);
    IdsGrow(f.rows, more);
    forall r | r in more ensures JoinResolves(all, r) {
      assert HasId(all, id);
      if r.ProvenanceRow? {
        var k :| 0 <= k < |inputs| && Edges(inputs, id)[k] == r;
        assert inputs[k] in inputs;
      }
    }
    forall x | Named(more, x) ensures x == c {
      var r :| r in more && DirectlyNames(r, x);
    }
    RowsAdded(f, {c}, more, at);
    assert f.rows + [ObservationRow(id, c)] + Edges(inputs, id) == all;
  }

  lemma RowAdds(f: Files, row: Row, at: Time)
    requires StoreSound(f) && ForeignKeys(f, row)
    ensures StoreSound(f.(rows := f.rows + [row], modified := at))
  {
    IdsGrow(f.rows, [row]);
    forall x | Named([row], x) ensures x in f.contents {
      assert DirectlyNames(row, x);
    }
    RowsAdded(f, {}, [row], at);
    assert f.contents + {} == f.contents;
  }

  lemma CleanupPlansUnnamed(f: Files, now: Time, grace: int)
    ensures forall c | c in f.contents + f.blobs.Keys && Doomed(f, now, grace, c) :: !Named(f.rows, c)
  {
    forall c | c in f.contents + f.blobs.Keys && Doomed(f, now, grace, c) ensures !Named(f.rows, c) {
      ReachableIsNamed(f.rows, c);
    }
  }

  lemma NextIsSound(y: System, step: Step)
    requires Sound(y)
    ensures Sound(Next(y, step))
  {
    match step
    case OpenCleanup(p, now, grace, audit) => CleanupPlansUnnamed(y.files, now, grace);
    case RecordBundle(p, id, c, inputs, at) =>
      if Next(y, step) != y { BundleAdds(y.files, c, id, inputs, at); }
    case RecordRow(p, row, at) =>
      if Next(y, step) != y { RowAdds(y.files, row, at); }
    case _ =>
  }

  // ---- what a step keeps ------------------------------------------------------------------------

  /** Rows are only added, and named content keeps its row and its very file. */
  ghost predicate Keeps(f: Files, g: Files) {
    && f.rows <= g.rows
    && (forall c | Named(f.rows, c) :: c in g.contents && c in f.blobs && c in g.blobs && g.blobs[c] == f.blobs[c])
  }

  lemma NextKeeps(y: System, step: Step)
    requires Sound(y)
    ensures Keeps(y.files, Next(y, step).files)
  {
  }

  lemma KeepsTransitive(a: Files, b: Files, c: Files)
    requires Keeps(a, b) && Keeps(b, c)
    ensures Keeps(a, c)
  {
    forall x | Named(a.rows, x) ensures Named(b.rows, x) {
      var r :| r in a.rows && DirectlyNames(r, x);
      assert r in b.rows;
    }
  }

  /** From any sound system, every run of any processes with any crashes stays sound and keeps what is named. */
  lemma {:induction false} RunsAreSound(y: System, steps: seq<Step>)
    requires Sound(y)
    ensures Sound(After(y, steps)) && Keeps(y.files, After(y, steps).files)
  {
    if steps != [] {
      var init := steps[..|steps| - 1];
      RunsAreSound(y, init);
      NextIsSound(After(y, init), steps[|steps| - 1]);
      NextKeeps(After(y, init), steps[|steps| - 1]);
      KeepsTransitive(y.files, After(y, init).files, After(y, steps).files);
    }
  }

  lemma {:induction false} AfterSplits(y: System, first: seq<Step>, rest: seq<Step>)
    ensures After(y, first + rest) == After(After(y, first), rest)
  {
    if rest == [] {
      assert first + rest == first;
    } else {
      AfterSplits(y, first, rest[..|rest| - 1]);
      assert (first + rest)[..|first + rest| - 1] == first + rest[..|rest| - 1];
    }
  }

  /**
   * In every reachable state each content row has its file, each reference of any table has its row,
   * members and edges have their observations, and no two processes hold the store.
   */
  lemma {:induction false} EveryReachableStateIsSafe(steps: seq<Step>)
    ensures
      var y := After(INITIAL, steps);
      && y.files.contents <= y.files.blobs.Keys
      && (forall t, c | Refers(y.files.rows, t, c) :: c in y.files.contents)
      && JoinsResolve(y.files.rows)
      && (forall p, q | p in y.work && q in y.work :: p == q)
  {
    RunsAreSound(INITIAL, steps);
    var y := After(INITIAL, steps);
    forall t, c | Refers(y.files.rows, t, c) ensures c in y.files.contents {
      ReachableIsNamed(y.files.rows, c);
    }
  }

  /** The audit never finds content without its row or its file: only the rows or damaged bytes can refuse a cleanup. */
  lemma {:induction false} AuditFindsNothingMissing(steps: seq<Step>, audit: Audit)
    ensures
      var f := After(INITIAL, steps).files;
      Audited(f, audit) <==> audit.rowsSound(f.rows) && forall c | Reachable(f.rows, c) :: audit.intact(c)
  {
    RunsAreSound(INITIAL, steps);
    var f := After(INITIAL, steps).files;
    forall c | Reachable(f.rows, c) ensures c in f.contents && c in f.blobs {
      ReachableIsNamed(f.rows, c);
    }
  }

  /** Content that some row refers to at any moment keeps its row and its file, unreplaced, for ever. */
  lemma {:induction false} ReachableContentIsNeverLost(past: seq<Step>, future: seq<Step>, c: ContentId)
    requires Reachable(After(INITIAL, past).files.rows, c)
    ensures
      var now, later := After(INITIAL, past).files, After(INITIAL, past + future).files;
      && Reachable(later.rows, c) && c in later.contents
      && c in now.blobs && c in later.blobs && later.blobs[c] == now.blobs[c]
  {
    RunsAreSound(INITIAL, past);
    AfterSplits(INITIAL, past, future);
    var y := After(INITIAL, past);
    RunsAreSound(y, future);
    ReachableIsNamed(y.files.rows, c);
    var later := After(y, future).files;
    ReachableIsNamed(later.rows, c);
    var r :| r in y.files.rows && DirectlyNames(r, c);
    assert r in later.rows;
  }
}
