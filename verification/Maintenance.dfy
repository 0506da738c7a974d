/** Writers, garbage collection and crashes (repository.py, blob_store.py, maintenance.py, writer_coordination.py). */
module Maintenance {
  import opened Models
  import S = Store
  import R = Resolver

  // ---- reference tables -----------------------------------------------------------------------

  datatype Table = Observations | TreeEntries | Validations | Materializations | Datasets | Provenance

  datatype Row =
    | ObservationRow(id: string, content: ContentId)
    | TreeRow(tree: string, path: string, entry: Option<ContentId>)
    | ValidationRow(validator: string, validated: ContentId)
    | MaterializationRow(file: string, materialized: ContentId)
    | MemberRow(dataset: string, observation: string)
    | ProvenanceRow(input: string, output: string)

  /** The tables a row stands in, and the content it names: directly, or through an observation. */
  ghost predicate NamedBy(rows: seq<Row>, r: Row, table: Table, c: ContentId) {
    match r
    case ObservationRow(_, content) => table == Observations && c == content
    case TreeRow(_, _, entry) => table == TreeEntries && entry == Some(c)
    case ValidationRow(_, content) => table == Validations && c == content
    case MaterializationRow(_, content) => table == Materializations && c == content
    case MemberRow(_, id) => table == Datasets && ObservationRow(id, c) in rows
    case ProvenanceRow(input, output) =>
      table == Provenance && (ObservationRow(input, c) in rows || ObservationRow(output, c) in rows)
  }

  ghost predicate Refers(rows: seq<Row>, table: Table, c: ContentId) {
    exists r :: r in rows && NamedBy(rows, r, table, c)
  }

  ghost predicate Reachable(rows: seq<Row>, c: ContentId) {
    exists table :: Refers(rows, table, c)
  }

  type Roots = map<ContentId, set<Table>>

  ghost predicate IsRoot(roots: Roots, table: Table, c: ContentId) {
    c in roots && table in roots[c]
  }

  function AddRoot(roots: Roots, table: Table, c: ContentId): (r: Roots)
    ensures forall t, x :: IsRoot(r, t, x) <==> IsRoot(roots, t, x) || (t == table && x == c)
    ensures (forall x | x in roots :: roots[x] != {}) ==> forall x | x in r :: r[x] != {}
  {
    roots[c := (if c in roots then roots[c] else {}) + {table}]
  }

  predicate Joins(r: Row, o: Row) {
    o.ObservationRow?
      && ((r.MemberRow? && o.id == r.observation) || (r.ProvenanceRow? && (o.id == r.input || o.id == r.output)))
  }

  /** The contents of the observations that a membership or provenance row joins. */
  method AddJoined(rows: seq<Row>, r: Row, table: Table, roots0: Roots) returns (roots: Roots)
    requires (r.MemberRow? && table == Datasets) || (r.ProvenanceRow? && table == Provenance)
    requires forall x | x in roots0 :: roots0[x] != {}
    ensures forall t, x :: IsRoot(roots, t, x) <==> IsRoot(roots0, t, x) || NamedBy(rows, r, t, x)
    ensures forall x | x in roots :: roots[x] != {}
  {
    roots := roots0;
    for i := 0 to |rows|
      invariant forall t, x :: IsRoot(roots, t, x) <==>
                  IsRoot(roots0, t, x)
                    || (t == table && exists k :: 0 <= k < i && Joins(r, rows[k]) && rows[k].content == x)
      invariant forall x | x in roots :: roots[x] != {}
    {
      if Joins(r, rows[i]) {
        roots := AddRoot(roots, table, rows[i].content);
      }
    }
    forall x ensures (exists k :: 0 <= k < |rows| && Joins(r, rows[k]) && rows[k].content == x) <==>
      NamedBy(rows, r, table, x) {
      if k :| 0 <= k < |rows| && Joins(r, rows[k]) && rows[k].content == x {
        assert rows[k] == ObservationRow(rows[k].id, x) && rows[k] in rows;
      }
      if NamedBy(rows, r, table, x) {
        var o :| o in rows && Joins(r, o) && o.content == x;
        var k :| 0 <= k < |rows| && rows[k] == o;
      }
    }
  }

  /** Every content id that some row names, with the tables that name it. */
  method Reachability(rows: seq<Row>) returns (roots: Roots)
    ensures forall t, c :: IsRoot(roots, t, c) <==> Refers(rows, t, c)
    ensures forall c :: c in roots <==> Reachable(rows, c)
  {
    roots := map[];
    for i := 0 to |rows|
      invariant forall t, c :: IsRoot(roots, t, c) <==> exists k :: 0 <= k < i && NamedBy(rows, rows[k], t, c)
      invariant forall c | c in roots :: roots[c] != {}
    {
      ghost var before := roots;
      match rows[i] {
        case ObservationRow(_, c) => roots := AddRoot(roots, Observations, c);
        case TreeRow(_, _, entry) => if entry.Some? { roots := AddRoot(roots, TreeEntries, entry.value); }
        case ValidationRow(_, c) => roots := AddRoot(roots, Validations, c);
        case MaterializationRow(_, c) => roots := AddRoot(roots, Materializations, c);
        case MemberRow(_, _) => roots := AddJoined(rows, rows[i], Datasets, roots);
        case ProvenanceRow(_, _) => roots := AddJoined(rows, rows[i], Provenance, roots);
      }
      assert forall t, c :: IsRoot(roots, t, c) <==> IsRoot(before, t, c) || NamedBy(rows, rows[i], t, c);
    }
    forall t, c ensures IsRoot(roots, t, c) <==> Refers(rows, t, c) {
      if Refers(rows, t, c) {
        var r :| r in rows && NamedBy(rows, r, t, c);
        var k :| 0 <= k < |rows| && rows[k] == r;
      }
    }
    forall c | c in roots ensures Reachable(rows, c) {
      var t :| t in roots[c];
      assert IsRoot(roots, t, c);
    }
  }

  // ---- the store at rest and what a cleanup may remove ------------------------------------------

  /** Rows of the content table, rows that refer to them, files with their times, and the database's own. */
  datatype Files = Files(contents: set<ContentId>, rows: seq<Row>, blobs: map<ContentId, Time>, modified: Time)

  datatype Candidate = UnreferencedContent(id: ContentId) | OrphanBlob(id: ContentId) | MissingContent(id: ContentId)

  ghost predicate Expired(f: Files, now: Time, grace: int, c: ContentId) {
    !Reachable(f.rows, c) && c in f.blobs && now - f.blobs[c] >= grace
  }

  ghost predicate Vanished(f: Files, now: Time, grace: int, c: ContentId) {
    !Reachable(f.rows, c) && c in f.contents && c !in f.blobs && now - f.modified >= grace
  }

  ghost predicate IsCandidate(f: Files, now: Time, grace: int, x: Candidate) {
    match x
    case UnreferencedContent(c) => Expired(f, now, grace, c) && c in f.contents
    case OrphanBlob(c) => Expired(f, now, grace, c) && c !in f.contents
    case MissingContent(c) => Vanished(f, now, grace, c)
  }

  ghost predicate Doomed(f: Files, now: Time, grace: int, c: ContentId) {
    Expired(f, now, grace, c) || Vanished(f, now, grace, c)
  }

  /** The store after a cleanup that ran to its end. */
  ghost function Cleaned(f: Files, now: Time, grace: int): Files {
    f.(contents := (set c | c in f.contents && !Doomed(f, now, grace, c)),
       blobs := (map c | c in f.blobs && !Doomed(f, now, grace, c) :: f.blobs[c]))
  }

  /** The store when a cleanup was interrupted: these rows are deleted, and of their files those unlinked. */
  ghost predicate Interrupted(f: Files, now: Time, grace: int, g: Files, deleted: set<ContentId>,
        unlinked: set<ContentId>)
  {
    && unlinked <= deleted
    && (forall c | c in deleted :: Doomed(f, now, grace, c))
    && g.rows == f.rows
    && (forall c :: c in g.contents <==> c in f.contents && c !in deleted)
    && (forall c :: c in g.blobs <==> c in f.blobs && c !in unlinked)
    && (forall c | c in g.blobs :: g.blobs[c] == f.blobs[c])
  }

  // ---- the audit ----------------------------------------------------------------------------------

  /**
   * What the audit asks besides the content tables: whether the rows by themselves are sound (integrity,
   * foreign keys, snapshots that resolve, tree and dataset identities, source revisions), and whether a file's
   * bytes match its digest.
   */
  datatype Audit = Audit(rowsSound: seq<Row> -> bool, intact: ContentId -> bool)

  /** Nothing blocks a cleanup: the rows are sound and all they name has its row and its intact file. */
  ghost predicate Audited(f: Files, audit: Audit) {
    && audit.rowsSound(f.rows)
    && forall c | Reachable(f.rows, c) :: c in f.contents && c in f.blobs && audit.intact(c)
  }

  // ---- one call and what it does --------------------------------------------------------------------

  datatype CleanupError = InvalidTimes | AuditFailed

  /** `steps` is how many deletions happen before the process is killed. */
  datatype CleanupCall = CleanupCall(now: Time, grace: int, dryRun: bool, audit: Audit, steps: nat)

  /** How a call ended, and which rows and files it had deleted by then. */
  datatype Ending = Ending(result: Result<set<Candidate>, CleanupError>, deleted: set<ContentId>,
          unlinked: set<ContentId>)

  /** The call was not killed before its last deletion. */
  predicate RanToEnd(call: CleanupCall, e: Ending) {
    e.result.Success? && !call.dryRun && call.steps >= 2 * |e.result.value|
  }

  /** What a cleanup call does to the store: refused, only reporting, or deleting up to where it was killed. */
  ghost predicate CleanupRuns(f: Files, call: CleanupCall, g: Files, e: Ending) {
    && (e.result.Failure? <==> call.grace < 0 || !Audited(f, call.audit))
    && (e.result.Failure? ==> e.result.error == if call.grace < 0 then InvalidTimes else AuditFailed)
    && (e.result.Failure? || call.dryRun ==> g == f)
    && (e.result.Success? ==> forall x :: x in e.result.value <==> IsCandidate(f, call.now, call.grace, x))
    && (e.result.Success? && !call.dryRun ==> Interrupted(f, call.now, call.grace, g, e.deleted, e.unlinked))
    && (RanToEnd(call, e) ==> g.(modified := f.modified) == Cleaned(f, call.now, call.grace))
  }

  /** A cleanup, killed anywhere, leaves everything the audit looks at as it was. */
  lemma InterruptedKeepsAudit(f: Files, now: Time, grace: int, g: Files, deleted: set<ContentId>,
        unlinked: set<ContentId>, audit: Audit)
    requires Interrupted(f, now, grace, g, deleted, unlinked)
    ensures Audited(g, audit) <==> Audited(f, audit)
  {
    forall c | Reachable(f.rows, c) ensures c !in deleted && c !in unlinked {
      assert !Doomed(f, now, grace, c);
    }
  }

  /**
   * A cleanup that was killed anywhere does not block its own rerun: the second call is admitted. Run to its
   * end no earlier, with the same grace, it leaves no file the first would have removed; at the same time it
   * leaves exactly what the first would have left. Reachable content keeps its row and its very file.
   */
  lemma CleanupConverges(f: Files, first: CleanupCall, g: Files, e: Ending, second: CleanupCall, h: Files, e': Ending)
    requires CleanupRuns(f, first, g, e) && CleanupRuns(g, second, h, e')
    requires e.result.Success? && !first.dryRun
    requires first.now <= second.now && second.grace == first.grace && second.audit == first.audit
    ensures e'.result.Success?
    ensures RanToEnd(second, e') ==>
      var once := Cleaned(f, first.now, first.grace);
      && (forall c | c in h.blobs :: c in once.blobs)
      && (second.now == first.now ==> h.blobs == once.blobs)
      && (second.now == first.now && f.contents <= f.blobs.Keys ==> h.contents == once.contents)
    ensures forall c | Reachable(f.rows, c) ::
      c in f.contents && c in h.contents && c in f.blobs && c in h.blobs && h.blobs[c] == f.blobs[c]
  {
    InterruptedKeepsAudit(f, first.now, first.grace, g, e.deleted, e.unlinked, first.audit);
    forall c | Reachable(f.rows, c) ensures c in h.contents && c in h.blobs && h.blobs[c] == f.blobs[c] {
      assert !Doomed(f, first.now, first.grace, c);
      assert !Doomed(g, second.now, second.grace, c);
    }
    if RanToEnd(second, e') {
      RerunCleans(f, g, first.now, second.now, first.grace, e.deleted, e.unlinked);
    }
  }

  lemma RerunCleans(f: Files, g: Files, now: Time, later: Time, grace: int, deleted: set<ContentId>,
        unlinked: set<ContentId>)
    requires now <= later && Interrupted(f, now, grace, g, deleted, unlinked)
    ensures forall c | c in Cleaned(g, later, grace).blobs :: c in Cleaned(f, now, grace).blobs
    ensures later == now ==> Cleaned(g, later, grace).blobs == Cleaned(f, now, grace).blobs
    ensures later == now && f.contents <= f.blobs.Keys ==>
        Cleaned(g, later, grace).contents == Cleaned(f, now, grace).contents
  {
    forall c | c in f.blobs && Doomed(f, now, grace, c) ensures c !in Cleaned(g, later, grace).blobs {
      if c in g.blobs {
        assert Expired(g, later, grace, c);
      }
    }
    if later == now {
      var again, once := Cleaned(g, later, grace), Cleaned(f, now, grace);
      forall c ensures c in again.blobs <==> c in once.blobs {
        assert c in g.blobs ==> (Doomed(g, later, grace, c) <==> Expired(f, now, grace, c));
      }
      assert again.blobs == once.blobs;
    }
  }

  // ---- any number of killed cleanups ------------------------------------------------------------------

  datatype Attempt = Attempt(call: CleanupCall, after: Files, ending: Ending)

  function LastState(f: Files, attempts: seq<Attempt>): Files {
    if attempts == [] then f else attempts[|attempts| - 1].after
  }

  /** Attempts one after the other, each starting from what the one before left behind. */
  ghost predicate Attempted(f: Files, attempts: seq<Attempt>) {
    attempts == [] ||
      var init, last := attempts[..|attempts| - 1], attempts[|attempts| - 1];
      Attempted(f, init) && CleanupRuns(LastState(f, init), last.call, last.after, last.ending)
  }

  ghost predicate SameTerms(attempts: seq<Attempt>, now: Time, grace: int, audit: Audit) {
    forall a | a in attempts :: a.call.now >= now && a.call.grace == grace && a.call.audit == audit
  }

  /** Only files and rows that nothing names are gone, and no file was replaced. */
  ghost predicate OnlyLost(f: Files, g: Files) {
    && g.rows == f.rows
    && (forall c | c in g.contents :: c in f.contents)
    && (forall c | c in g.blobs :: c in f.blobs && g.blobs[c] == f.blobs[c])
    && (forall c | Reachable(f.rows, c) :: (c in f.contents ==> c in g.contents) && (c in f.blobs ==> c in g.blobs))
  }

  lemma RunOnlyLoses(f: Files, call: CleanupCall, g: Files, e: Ending)
    requires CleanupRuns(f, call, g, e)
    ensures OnlyLost(f, g)
  {
    if e.result.Success? && !call.dryRun {
      forall c | Reachable(f.rows, c) ensures c !in e.deleted {
        assert !Doomed(f, call.now, call.grace, c);
      }
    }
  }

  /**
   * Once the audit admits a cleanup, it admits every further one however often they are killed; the first that
   * runs to its end leaves no file that was due when they began, and none of them touches reachable content.
   */
  lemma {:induction false} AttemptsConverge(f: Files, attempts: seq<Attempt>, now: Time, grace: int, audit: Audit)
    requires Attempted(f, attempts) && SameTerms(attempts, now, grace, audit) && grace >= 0 && Audited(f, audit)
    ensures OnlyLost(f, LastState(f, attempts)) && Audited(LastState(f, attempts), audit)
    ensures forall a | a in attempts :: a.ending.result.Success?
    ensures (exists a :: a in attempts && RanToEnd(a.call, a.ending)) ==>
      forall c | c in LastState(f, attempts).blobs :: !Expired(f, now, grace, c)
  {
    if attempts != [] {
      var init, last := attempts[..|attempts| - 1], attempts[|attempts| - 1];
      assert attempts == init + [last] && last in attempts;
      assert forall a :: a in attempts <==> a in init || a == last;
      AttemptsConverge(f, init, now, grace, audit);
      var g := LastState(f, init);
      RunOnlyLoses(g, last.call, last.after, last.ending);
      if !last.call.dryRun {
        InterruptedKeepsAudit(g, last.call.now, grace, last.after, last.ending.deleted, last.ending.unlinked, audit);
      }
      if RanToEnd(last.call, last.ending) {
        forall c | c in last.after.blobs ensures !Expired(f, now, grace, c) {
          assert c in Cleaned(g, last.call.now, grace).blobs;
          assert !Expired(g, last.call.now, grace, c);
        }
      }
    }
  }

  // ---- the cleanup itself, with a crash after any number of storage steps -------------------------

  class Disk {
    var contents: set<ContentId>
    var rows: seq<Row>
    var blobs: map<ContentId, Time>
    var modified: Time

    ghost function View(): Files
      reads this
    {
      Files(contents, rows, blobs, modified)
    }

    method Candidates(now: Time, grace: int) returns (found: set<Candidate>)
      ensures forall x :: x in found <==> IsCandidate(View(), now, grace, x)
    {
      var roots := Reachability(rows);
      var known := contents;
      found := set c | c in blobs && c !in roots && now - blobs[c] >= grace ::
                 if c in known then UnreferencedContent(c) else OrphanBlob(c);
      if now - modified >= grace {
        found := found + set c | c in known && c !in roots && c !in blobs :: MissingContent(c);
      }
    }

    /** Recomputes what is reachable and looks for anything that blocks a cleanup. */
    method BlockingIssues(audit: Audit) returns (blocked: bool)
      ensures blocked <==> !Audited(View(), audit)
    {
      if !audit.rowsSound(rows) { return true; }
      var roots := Reachability(rows);
      return exists c :: c in roots && !(c in contents && c in blobs && audit.intact(c));
    }

    method Cleanup(call: CleanupCall, stamp: Time)
      returns (r: Result<set<Candidate>, CleanupError>, ghost deleted: set<ContentId>, ghost unlinked: set<ContentId>)
      modifies this
      ensures CleanupRuns(old(View()), call, View(), Ending(r, deleted, unlinked))
    {
      deleted, unlinked := {}, {};
      var now, grace := call.now, call.grace;
      if grace < 0 { return Failure(InvalidTimes), {}, {}; }
      var blocked := BlockingIssues(call.audit);
      if blocked { return Failure(AuditFailed), {}, {}; }
      var found := Candidates(now, grace);
      r := Success(found);
      if call.dryRun { return; }
      ghost var f := View();
      var todo, left := found, call.steps;
      while todo != {}
        invariant todo <= found && left >= 0
        invariant Interrupted(f, now, grace, View(), deleted, unlinked)
        invariant forall c :: c in deleted <==> exists x :: x in found && x !in todo && x.id == c
        invariant forall c :: c in unlinked <==> c in deleted && c in f.blobs
        invariant call.steps >= 2 * |found| ==> left >= 2 * |todo|
        decreases |todo|
      {
        var x :| x in todo;
        if left == 0 { return; }
        RowGoes(f, now, grace, View(), deleted, unlinked, x);
        contents, modified := contents - {x.id}, stamp;
        deleted := deleted + {x.id};
        left := left - 1;
        if !x.MissingContent? {
          if left == 0 { return; }
          assert x.id in f.blobs;
          blobs := blobs - {x.id};
          unlinked := unlinked + {x.id};
          left := left - 1;
        }
        todo := todo - {x};
      }
      AllDoomedGone(f, now, grace, View(), found, deleted, unlinked);
    }
  }

  lemma RowGoes(f: Files, now: Time, grace: int, g: Files, deleted: set<ContentId>, unlinked: set<ContentId>,
        x: Candidate)
    requires IsCandidate(f, now, grace, x) && Interrupted(f, now, grace, g, deleted, unlinked)
    ensures Doomed(f, now, grace, x.id)
    ensures forall stamp ::
        Interrupted(f, now, grace, g.(contents := g.contents - {x.id}, modified := stamp), deleted + {x.id}, unlinked)
  {
  }

  lemma AllDoomedGone(f: Files, now: Time, grace: int, g: Files, found: set<Candidate>, deleted: set<ContentId>,
        unlinked: set<ContentId>)
    requires Interrupted(f, now, grace, g, deleted, unlinked)
    requires forall x :: x in found <==> IsCandidate(f, now, grace, x)
    requires forall c :: c in deleted <==> exists x :: x in found && x.id == c
    requires forall c :: c in unlinked <==> c in deleted && c in f.blobs
    ensures g.(modified := f.modified) == Cleaned(f, now, grace)
  {
    forall c ensures c in deleted <==> Doomed(f, now, grace, c) {
      if Doomed(f, now, grace, c) {
        var x := if c !in f.blobs then MissingContent(c) else if c in f.contents then UnreferencedContent(c)
          else OrphanBlob(c);
        assert x in found && x.id == c;
      }
    }
    var h := Cleaned(f, now, grace);
    assert g.contents == h.contents;
    assert g.blobs == h.blobs;
  }

  // ---- the same cleanup on the tables of the store ------------------------------------------------------

  /** The files hold the content of the store's tables, and the rows name at least what those tables name. */
  ghost predicate Mirrors(f: Files, s: S.Store) {
    && f.contents == s.contents && f.blobs.Keys == s.blobs
    && forall c | R.Referenced(s, c) :: Reachable(f.rows, c)
  }

  /** The rows' part of the audit covers the snapshots and the trees of the store. */
  ghost predicate Judges(audit: Audit, rows: seq<Row>, s: S.Store) {
    audit.rowsSound(rows) ==>
      (forall x :: !R.Unresolvable(s, x)) && (forall id | id in s.trees :: S.Identities(s.trees[id]) == id)
  }

  /**
   * A cleanup of the files is a cleanup of the store: refused whenever the store's audit fails, and otherwise
   * removing from the tables exactly what it deleted.
   */
  lemma {:induction false} CleanupIsStoreStep(rank: S.Snapshot -> int, s: S.Store, f: Files, call: CleanupCall,
        g: Files, e: Ending)
    requires Mirrors(f, s) && Judges(call.audit, f.rows, s) && CleanupRuns(f, call, g, e)
    ensures !R.AuditPasses(s) ==> e.result.Failure?
    ensures e.result.Success? && !call.dryRun ==> Mirrors(g, R.Perform(rank, s, R.Cleanup(e.deleted, e.unlinked)))
  {
    if e.result.Success? {
      assert R.AuditPasses(s);
      if !call.dryRun {
        var s' := R.Perform(rank, s, R.Cleanup(e.deleted, e.unlinked));
        forall c | c in e.deleted ensures !R.Referenced(s, c) {
          assert Doomed(f, call.now, call.grace, c);
        }
        assert (set c | c in e.deleted && !R.Referenced(s, c)) == e.deleted;
        assert e.unlinked * e.deleted == e.unlinked;
        SameReferences(s, s');
      }
    }
  }

  lemma SameReferences(s: S.Store, s': S.Store)
    requires s'.observations == s.observations && s'.trees == s.trees
    ensures forall c :: R.Referenced(s', c) <==> R.Referenced(s, c)
  {
  }
}
