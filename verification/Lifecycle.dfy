/** Runs and operations: the guarded catalog, and every way an execution can leave (catalog/memory.py, executor.py). */
module Lifecycle {
  import opened Models

  datatype Status = Running | Succeeded | Partial | Failed | Cancelled

  predicate RunTerminal(status: Status) { status != Running }

  predicate OperationTerminal(status: Status) { status != Running && status != Partial }

  datatype OperationRow = OperationRow(run: RunId, status: Status)

  datatype Ledger = Ledger(runs: map<RunId, Status>, operations: map<OperationId, OperationRow>)

  datatype LifecycleError = UnknownRun | UnknownOperation | NotRunning | StillRunning | AlreadyExists | InvalidStatus

  // ---- the guarded transitions --------------------------------------------------------------------

  function StartRun(l: Ledger, run: RunId): Result<Ledger, LifecycleError> {
    if run in l.runs then Failure(AlreadyExists) else Success(l.(runs := l.runs[run := Running]))
  }

  predicate IsRunningIn(l: Ledger, run: RunId, id: OperationId) {
    id in l.operations && l.operations[id] == OperationRow(run, Running)
  }

  predicate HasRunning(l: Ledger, run: RunId) {
    exists id :: id in l.operations && IsRunningIn(l, run, id)
  }

  function FinishRun(l: Ledger, run: RunId, status: Status): Result<Ledger, LifecycleError> {
    if run !in l.runs then Failure(UnknownRun)
    else if l.runs[run] != Running then Failure(NotRunning)
    else if HasRunning(l, run) then Failure(StillRunning)
    else if !RunTerminal(status) then Failure(InvalidStatus)
    else Success(l.(runs := l.runs[run := status]))
  }

  function StartOperation(l: Ledger, run: RunId, id: OperationId): Result<Ledger, LifecycleError> {
    if run !in l.runs then Failure(UnknownRun)
    else if l.runs[run] != Running then Failure(NotRunning)
    else if id in l.operations then Failure(AlreadyExists)
    else Success(l.(operations := l.operations[id := OperationRow(run, Running)]))
  }

  function FinishOperation(l: Ledger, id: OperationId, status: Status): Result<Ledger, LifecycleError> {
    if id !in l.operations then Failure(UnknownOperation)
    else if l.operations[id].status != Running then Failure(NotRunning)
    else if !OperationTerminal(status) then Failure(InvalidStatus)
    else Success(l.(operations := l.operations[id := l.operations[id].(status := status)]))
  }

  function Closed(row: OperationRow, run: Option<RunId>, status: Status): OperationRow {
    if row.status == Running && (run.None? || run.value == row.run) then row.(status := status) else row
  }

  /** The operations after every running one, of one run or of all, has been given a status. */
  function CloseOperations(l: Ledger, run: Option<RunId>, status: Status): map<OperationId, OperationRow> {
    map id | id in l.operations :: Closed(l.operations[id], run, status)
  }

  /** What the exception handlers of an execution do: finish what runs, then the run. */
  function Aborted(l: Ledger, run: RunId, status: Status): Ledger {
    Ledger(l.runs[run := status], CloseOperations(l, Some(run), status))
  }

  /** Recovery fails everything that still runs. */
  function Recovered(l: Ledger): Ledger {
    Ledger(map run | run in l.runs :: if l.runs[run] == Running then Failed else l.runs[run],
           CloseOperations(l, None, Failed))
  }

  /** Halfway through a handler's loop: what is still to do is untouched, the rest is closed. */
  ghost predicate ClosingOperations(before: map<OperationId, OperationRow>, now: map<OperationId, OperationRow>,
                                    todo: set<OperationId>, run: RunId, status: Status)
  {
    && (forall id :: id in now <==> id in before)
    && (forall id | id in todo :: id in now && now[id] == before[id] && now[id].run == run)
    && (forall id | id in now && id !in todo :: now[id] == Closed(before[id], Some(run), status))
  }

  lemma ClosesOne(before: map<OperationId, OperationRow>, now: map<OperationId, OperationRow>,
                  todo: set<OperationId>, run: RunId, status: Status, id: OperationId)
    requires ClosingOperations(before, now, todo, run, status) && id in todo
    ensures ClosingOperations(before, now[id := Closed(now[id], Some(run), status)], todo - {id}, run, status)
  {
  }

  lemma NothingRuns(l: Ledger, run: RunId, status: Status)
    requires status != Running
    ensures !HasRunning(l.(operations := CloseOperations(l, Some(run), status)), run)
  {
  }

  // ---- the catalog --------------------------------------------------------------------------------

  class GuardedCatalog {
    var runs: map<RunId, Status>
    var operations: map<OperationId, OperationRow>

    ghost function View(): Ledger
      reads this
    {
      Ledger(runs, operations)
    }

    constructor ()
      ensures View() == Ledger(map[], map[])
    {
      runs, operations := map[], map[];
    }

    method BeginRun(run: RunId) returns (error: Option<LifecycleError>)
      modifies this
      ensures StartRun(old(View()), run) == if error.None? then Success(View()) else Failure(error.value)
      ensures error.Some? ==> View() == old(View())
    {
      if run in runs { return Some(AlreadyExists); }
      runs := runs[run := Running];
      return None;
    }

    method EndRun(run: RunId, status: Status) returns (error: Option<LifecycleError>)
      modifies this
      ensures FinishRun(old(View()), run, status) == if error.None? then Success(View()) else Failure(error.value)
      ensures error.Some? ==> View() == old(View())
    {
      if run !in runs { return Some(UnknownRun); }
      if runs[run] != Running { return Some(NotRunning); }
      if id :| id in operations && operations[id] == OperationRow(run, Running) {
        assert IsRunningIn(View(), run, id);
        return Some(StillRunning);
      }
      if !RunTerminal(status) { return Some(InvalidStatus); }
      runs := runs[run := status];
      return None;
    }

    method BeginOperation(run: RunId, id: OperationId) returns (error: Option<LifecycleError>)
      modifies this
      ensures StartOperation(old(View()), run, id) == if error.None? then Success(View()) else Failure(error.value)
      ensures error.Some? ==> View() == old(View())
    {
      if run !in runs { return Some(UnknownRun); }
      if runs[run] != Running { return Some(NotRunning); }
      if id in operations { return Some(AlreadyExists); }
      operations := operations[id := OperationRow(run, Running)];
      return None;
    }

    method EndOperation(id: OperationId, status: Status) returns (error: Option<LifecycleError>)
      modifies this
      ensures FinishOperation(old(View()), id, status) == if error.None? then Success(View()) else Failure(error.value)
      ensures error.Some? ==> View() == old(View())
    {
      if id !in operations { return Some(UnknownOperation); }
      if operations[id].status != Running { return Some(NotRunning); }
      if !OperationTerminal(status) { return Some(InvalidStatus); }
      operations := operations[id := operations[id].(status := status)];
      return None;
    }

    method CloseRunning(run: RunId, status: Status)
      requires OperationTerminal(status)
      modifies this
      ensures runs == old(runs) && operations == CloseOperations(old(View()), Some(run), status)
    {
      ghost var before := operations;
      var todo := set id | id in operations && operations[id].run == run;
      while todo != {}
        invariant runs == old(runs)
        invariant ClosingOperations(before, operations, todo, run, status)
        decreases |todo|
      {
        var id :| id in todo;
        ghost var current := operations;
        if operations[id].status == Running {
          var refused := EndOperation(id, status);
          assert refused.None? && operations == current[id := current[id].(status := status)];
        }
        ClosesOne(before, current, todo, run, status, id);
        todo := todo - {id};
      }
      assert operations == CloseOperations(old(View()), Some(run), status);
    }

    /** The handler of an execution that is leaving: no guard fires, whatever is still running. */
    method AbortRun(run: RunId, status: Status) returns (error: Option<LifecycleError>)
      requires run in runs && runs[run] == Running && (status == Failed || status == Cancelled)
      modifies this
      ensures error.None? && View() == Aborted(old(View()), run, status)
    {
      CloseRunning(run, status);
      NothingRuns(old(View()), run, status);
      error := EndRun(run, status);
    }

    /** Fail every abandoned record; with `dryRun` only report them. */
    method Recover(dryRun: bool) returns (abandonedOperations: set<OperationId>, abandonedRuns: set<RunId>)
      modifies this
      ensures forall id :: id in abandonedOperations <==> id in old(operations) && old(operations)[id].status == Running
      ensures forall run :: run in abandonedRuns <==> run in old(runs) && old(runs)[run] == Running
      ensures View() == if dryRun then old(View()) else Recovered(old(View()))
    {
      ghost var before := View();
      abandonedOperations := set id | id in operations && operations[id].status == Running;
      abandonedRuns := set run | run in runs && runs[run] == Running;
      if dryRun { return; }
      var todo := abandonedOperations;
      while todo != {}
        invariant runs == before.runs && todo <= abandonedOperations
        invariant forall id :: id in operations <==> id in before.operations
        invariant forall id | id in operations ::
          operations[id] == if id in abandonedOperations && id !in todo then before.operations[id].(status := Failed)
            else before.operations[id]
        decreases |todo|
      {
        var id :| id in todo;
        operations := operations[id := operations[id].(status := Failed)];
        todo := todo - {id};
      }
      runs := map run | run in runs :: if runs[run] == Running then Failed else runs[run];
      assert operations == Recovered(before).operations;
    }
  }

  // ---- executions over the catalog ------------------------------------------------------------------

  datatype Outcome = DidSucceed | DidFail | WasBlocked

  /**
   * One execution of a plan: the tasks of the current wave, the results so far, whether some task raised,
   * whether the execution has left by its handlers, and whether an exception that passes them all (such as
   * KeyboardInterrupt) has ended it. Tasks outlive an execution that ends early.
   */
  datatype Execution = Execution(
    waiting: multiset<OperationId>, active: set<OperationId>, results: map<OperationId, Outcome>,
    raised: bool, left: bool, interrupted: bool)

  datatype System = System(ledger: Ledger, executions: map<RunId, Execution>, guardFired: bool)

  const INITIAL := System(Ledger(map[], map[]), map[], false)

  datatype Step =
    | Begin(run: RunId)
    | Wave(run: RunId, tasks: multiset<OperationId>)
    | Block(run: RunId, id: OperationId)
    | TaskStarts(run: RunId, id: OperationId)
    | TaskEnds(run: RunId, id: OperationId, status: Status)
    | Return(run: RunId)
    | Raise(run: RunId, cancelled: bool)
    | Interrupt(run: RunId)
    | OtherOperation(run: RunId, id: OperationId)
    | OtherEnds(id: OperationId, status: Status)
    | OtherRunEnds(run: RunId, status: Status)
    | Crash
    | RecoverAll

  function RunStatus(results: map<OperationId, Outcome>): Status {
    var failed := exists id :: id in results && results[id] != DidSucceed;
    var succeeded := exists id :: id in results && results[id] == DidSucceed;
    if failed && succeeded then Partial else if failed then Failed else Succeeded
  }

  function OutcomeOf(status: Status): Outcome { if status == Succeeded then DidSucceed else DidFail }

  predicate Executing(y: System, run: RunId) {
    run in y.executions && !y.executions[run].left && !y.executions[run].interrupted
  }

  predicate Idle(e: Execution) { e.waiting == multiset{} && e.active == {} && !e.raised }

  function With(y: System, run: RunId, l: Ledger, e: Execution): System {
    y.(ledger := l, executions := y.executions[run := e])
  }

  /** One step of the program, of a task that outlived its execution, or of the operating system. */
  ghost function Next(y: System, step: Step): System {
    match step
    case Begin(run) =>
      var started := StartRun(y.ledger, run);
      if started.Failure? || run in y.executions then y
      else With(y, run, started.value, Execution(multiset{}, {}, map[], false, false, false))
    case Wave(run, tasks) =>
      if !Executing(y, run) || !Idle(y.executions[run]) then y
      else With(y, run, y.ledger, y.executions[run].(waiting := tasks))
    case Block(run, id) =>
      if !Executing(y, run) || !Idle(y.executions[run]) then y else Blocked(y, run, id)
    case TaskStarts(run, id) =>
      if run !in y.executions || id !in y.executions[run].waiting then y else Started(y, run, id)
    case TaskEnds(run, id, status) =>
      if run !in y.executions || id !in y.executions[run].active
        || !OperationTerminal(status) then y else Ended(y, run, id, status)
    case Return(run) =>
      if !Executing(y, run) || !Idle(y.executions[run]) then y else Returned(y, run)
    case Raise(run, cancelled) =>
      if !Executing(y, run) then y else Raised(y, run, if cancelled then Cancelled else Failed)
    case Interrupt(run) =>
      if !Executing(y, run) then y else With(y, run, y.ledger, y.executions[run].(interrupted := true))
    case OtherOperation(run, id) =>
      var started := StartOperation(y.ledger, run, id);
      if run in y.executions || started.Failure? then y else y.(ledger := started.value)
    case OtherEnds(id, status) =>
      var ended := FinishOperation(y.ledger, id, status);
      if ended.Failure? || y.ledger.operations[id].run in y.executions then y else y.(ledger := ended.value)
    case OtherRunEnds(run, status) =>
      var ended := FinishRun(y.ledger, run, status);
      if ended.Failure? || run in y.executions then y else y.(ledger := ended.value)
    case Crash => y.(executions := map[])
    case RecoverAll => if y.executions != map[] then y else y.(ledger := Recovered(y.ledger))
  }

  ghost function Blocked(y: System, run: RunId, id: OperationId): System
    requires run in y.executions
  {
    var e := y.executions[run];
    var started := StartOperation(y.ledger, run, id);
    if started.Failure? then With(y, run, y.ledger, e.(raised := true))
    else
      var ended := FinishOperation(started.value, id, Cancelled);
      if ended.Failure? then With(y, run, started.value, e.(raised := true))
      else With(y, run, ended.value, e.(results := e.results[id := WasBlocked]))
  }

  ghost function Started(y: System, run: RunId, id: OperationId): System
    requires run in y.executions
  {
    var e := y.executions[run].(waiting := y.executions[run].waiting - multiset{id});
    var started := StartOperation(y.ledger, run, id);
    if started.Failure? then With(y, run, y.ledger, e.(raised := true))
    else With(y, run, started.value, e.(active := e.active + {id}))
  }

  /** A cancelled task raises; a task whose execution has left finds its operation closed and raises too. */
  ghost function Ended(y: System, run: RunId, id: OperationId, status: Status): System
    requires run in y.executions
  {
    var e := y.executions[run].(active := y.executions[run].active - {id});
    var ended := FinishOperation(y.ledger, id, status);
    if ended.Failure? then With(y, run, y.ledger, e.(raised := true))
    else if status == Cancelled then With(y, run, ended.value, e.(raised := true))
    else With(y, run, ended.value, e.(results := e.results[id := OutcomeOf(status)]))
  }

  ghost function Returned(y: System, run: RunId): System
    requires run in y.executions
  {
    var e := y.executions[run];
    var ended := FinishRun(y.ledger, run, RunStatus(e.results));
    if ended.Failure? then With(y, run, y.ledger, e.(left := true)).(guardFired := true)
    else With(y, run, ended.value, e.(left := true))
  }

  ghost function Raised(y: System, run: RunId, status: Status): System
    requires run in y.executions
  {
    var l := y.ledger.(operations := CloseOperations(y.ledger, Some(run), status));
    var e := y.executions[run].(left := true);
    var ended := FinishRun(l, run, status);
    if ended.Failure? then With(y, run, l, e).(guardFired := true) else With(y, run, ended.value, e)
  }

  ghost function After(steps: seq<Step>): System {
    if steps == [] then INITIAL else Next(After(steps[..|steps| - 1]), steps[|steps| - 1])
  }

  // ---- the invariant ----------------------------------------------------------------------------------

  /** A running operation belongs to a running run. */
  ghost predicate LedgerSound(l: Ledger) {
    forall id | id in l.operations ::
      l.operations[id].run in l.runs && (l.operations[id].status == Running ==> l.runs[l.operations[id].run] == Running)
  }

  ghost predicate Recorded(row: OperationRow, run: RunId, outcome: Outcome) {
    row == OperationRow(run, match outcome case DidSucceed => Succeeded case DidFail => Failed case WasBlocked =>
      Cancelled)
  }

  ghost predicate ExecutionSound(l: Ledger, run: RunId, e: Execution) {
    && run in l.runs
    && (e.left ==> l.runs[run] != Running)
    && (forall id | id in e.active :: id in l.operations && l.operations[id].run == run)
    && (!e.left ==>
          && l.runs[run] == Running
          && (forall id | id in e.active :: IsRunningIn(l, run, id))
          && (forall id | id in l.operations && l.operations[id].run == run ::
                id in e.active || e.raised || (id in e.results && Recorded(l.operations[id], run, e.results[id])))
          && (forall id | id in l.operations && IsRunningIn(l, run, id) :: id in e.active)
          && (forall id | id in e.results :: id in l.operations && Recorded(l.operations[id], run, e.results[id])))
  }

  ghost predicate Sound(y: System) {
    && LedgerSound(y.ledger) && !y.guardFired
    && forall run | run in y.executions :: ExecutionSound(y.ledger, run, y.executions[run])
  }

  /** Records never disappear, a terminal status never changes, and no run that has ended gets new operations. */
  ghost predicate Keeps(l: Ledger, m: Ledger) {
    && (forall run | run in l.runs :: run in m.runs && (l.runs[run] != Running ==> m.runs[run] == l.runs[run]))
    && (forall id | id in l.operations :: id in m.operations && m.operations[id].run == l.operations[id].run
                      && (l.operations[id].status != Running ==> m.operations[id] == l.operations[id]))
    && (forall id | id in m.operations && id !in l.operations ::
          m.operations[id].run in l.runs ==> l.runs[m.operations[id].run] == Running)
  }

  /** Executions of other runs do not notice a change to the operations of one run. */
  ghost predicate OnlyRun(l: Ledger, m: Ledger, run: RunId) {
    && (forall r | r in l.runs && r != run :: r in m.runs && m.runs[r] == l.runs[r])
    && (forall id | id in l.operations && l.operations[id].run != run ::
      id in m.operations && m.operations[id] == l.operations[id])
    && (forall id | id in m.operations && m.operations[id].run != run ::
      id in l.operations && m.operations[id] == l.operations[id])
  }

  lemma OthersStaySound(l: Ledger, m: Ledger, run: RunId, other: RunId, e: Execution)
    requires OnlyRun(l, m, run) && other != run && ExecutionSound(l, other, e)
    ensures ExecutionSound(m, other, e)
  {
  }

  /** A step of one execution keeps the system sound if it keeps its own part and the ledger sound. */
  lemma StepKeeps(y: System, run: RunId, m: Ledger, e: Execution)
    requires Sound(y) && OnlyRun(y.ledger, m, run) && LedgerSound(m) && ExecutionSound(m, run, e)
    ensures Sound(With(y, run, m, e))
  {
    var z := With(y, run, m, e);
    forall other | other in z.executions ensures ExecutionSound(m, other, z.executions[other]) {
      if other != run { OthersStaySound(y.ledger, m, run, other, y.executions[other]); }
    }
  }

  lemma OutsideKeeps(y: System, run: RunId, m: Ledger)
    requires Sound(y) && OnlyRun(y.ledger, m, run) && LedgerSound(m) && run !in y.executions
    ensures Sound(y.(ledger := m))
  {
    forall other | other in y.executions ensures ExecutionSound(m, other, y.executions[other]) {
      OthersStaySound(y.ledger, m, run, other, y.executions[other]);
    }
  }

  function SetOperation(l: Ledger, id: OperationId, row: OperationRow): Ledger {
    l.(operations := l.operations[id := row])
  }

  /** Changing or adding one operation of a running run touches nothing else. */
  lemma OneOperation(l: Ledger, run: RunId, id: OperationId, status: Status)
    requires LedgerSound(l) && run in l.runs && l.runs[run] == Running
    requires id in l.operations ==> IsRunningIn(l, run, id)
    ensures
      var m := SetOperation(l, id, OperationRow(run, status));
      OnlyRun(l, m, run) && LedgerSound(m) && Keeps(l, m)
  {
  }

  lemma BlockedLedger(y: System, run: RunId, id: OperationId)
    requires Sound(y) && Executing(y, run) && id !in y.ledger.operations
    ensures
      var e := y.executions[run];
      Blocked(y, run, id)
        == With(y, run, SetOperation(y.ledger, id, OperationRow(run, Cancelled)),
        e.(results := e.results[id := WasBlocked]))
  {
    var l := StartOperation(y.ledger, run, id).value;
    assert FinishOperation(l, id, Cancelled).value.operations
      == y.ledger.operations[id := OperationRow(run, Cancelled)];
  }

  lemma BlockedIsSound(y: System, run: RunId, id: OperationId)
    requires Sound(y) && Executing(y, run) && Idle(y.executions[run])
    ensures Sound(Blocked(y, run, id)) && Keeps(y.ledger, Blocked(y, run, id).ledger)
  {
    var z := Blocked(y, run, id);
    if id !in y.ledger.operations {
      BlockedLedger(y, run, id);
      OneOperation(y.ledger, run, id, Cancelled);
    }
    StepKeeps(y, run, z.ledger, z.executions[run]);
  }

  lemma StartedExecution(l: Ledger, run: RunId, id: OperationId, e: Execution)
    requires ExecutionSound(l, run, e) && !e.left && id !in l.operations
    ensures ExecutionSound(SetOperation(l, id, OperationRow(run, Running)), run,
        e.(active := e.active + {id}, waiting := e.waiting - multiset{id}))
  {
    var m, e' := SetOperation(l, id, OperationRow(run, Running)),
      e.(active := e.active + {id}, waiting := e.waiting - multiset{id});
    forall x | x in e'.active ensures IsRunningIn(m, run, x) {
      if x != id { assert IsRunningIn(l, run, x); }
    }
  }

  lemma StartedIsSound(y: System, run: RunId, id: OperationId)
    requires Sound(y) && run in y.executions && id in y.executions[run].waiting
    ensures Sound(Started(y, run, id)) && Keeps(y.ledger, Started(y, run, id).ledger)
  {
    var z, e := Started(y, run, id), y.executions[run];
    if StartOperation(y.ledger, run, id).Success? {
      assert z.ledger == SetOperation(y.ledger, id, OperationRow(run, Running));
      OneOperation(y.ledger, run, id, Running);
      StartedExecution(y.ledger, run, id, e);
    }
    StepKeeps(y, run, z.ledger, z.executions[run]);
  }

  function AfterTask(e: Execution, id: OperationId, status: Status): Execution {
    if status == Cancelled then e.(active := e.active - {id}, raised := true)
    else e.(active := e.active - {id}, results := e.results[id := OutcomeOf(status)])
  }

  lemma EndedExecution(l: Ledger, run: RunId, id: OperationId, e: Execution, status: Status)
    requires ExecutionSound(l, run, e) && !e.left && id in e.active && OperationTerminal(status)
    ensures ExecutionSound(SetOperation(l, id, OperationRow(run, status)), run, AfterTask(e, id, status))
  {
    var m, e' := SetOperation(l, id, OperationRow(run, status)), AfterTask(e, id, status);
    forall x | x in e'.active ensures IsRunningIn(m, run, x) {
      assert x in e.active && x != id;
    }
    forall x | x in m.operations && m.operations[x].run == run
      ensures x in e'.active || e'.raised || (x in e'.results && Recorded(m.operations[x], run, e'.results[x]))
    {
      assert x == id || x in l.operations;
    }
  }

  lemma EndedIsSound(y: System, run: RunId, id: OperationId, status: Status)
    requires Sound(y) && run in y.executions && id in y.executions[run].active && OperationTerminal(status)
    ensures Sound(Ended(y, run, id, status)) && Keeps(y.ledger, Ended(y, run, id, status).ledger)
  {
    var z, e := Ended(y, run, id, status), y.executions[run];
    if !e.left {
      assert IsRunningIn(y.ledger, run, id);
      assert z.ledger == SetOperation(y.ledger, id, OperationRow(run, status))
        && z.executions[run] == AfterTask(e, id, status);
      OneOperation(y.ledger, run, id, status);
      EndedExecution(y.ledger, run, id, e, status);
    } else {
      assert FinishOperation(y.ledger, id, status).Failure?;
    }
    StepKeeps(y, run, z.ledger, z.executions[run]);
  }

  lemma ReturnedIsSound(y: System, run: RunId)
    requires Sound(y) && Executing(y, run) && Idle(y.executions[run])
    ensures Sound(Returned(y, run)) && Keeps(y.ledger, Returned(y, run).ledger)
  {
    var z := Returned(y, run);
    assert !HasRunning(y.ledger, run);
    StepKeeps(y, run, z.ledger, z.executions[run]);
  }

  lemma RaisedIsSound(y: System, run: RunId, status: Status)
    requires Sound(y) && Executing(y, run) && (status == Failed || status == Cancelled)
    ensures Sound(Raised(y, run, status)) && Keeps(y.ledger, Raised(y, run, status).ledger)
  {
    var z := Raised(y, run, status);
    NothingRuns(y.ledger, run, status);
    StepKeeps(y, run, z.ledger, z.executions[run]);
  }

  lemma OtherIsSound(y: System, step: Step)
    requires Sound(y) && (step.OtherOperation? || step.OtherEnds? || step.OtherRunEnds?)
    ensures Sound(Next(y, step)) && Keeps(y.ledger, Next(y, step).ledger)
  {
    var z := Next(y, step);
    if z != y {
      var run := if step.OtherEnds? then y.ledger.operations[step.id].run else step.run;
      OutsideKeeps(y, run, z.ledger);
    }
  }

  lemma BeginIsSound(y: System, run: RunId)
    requires Sound(y)
    ensures Sound(Next(y, Begin(run))) && Keeps(y.ledger, Next(y, Begin(run)).ledger)
  {
    var z := Next(y, Begin(run));
    if z != y {
      StepKeeps(y, run, z.ledger, z.executions[run]);
    }
  }

  lemma NextIsSound(y: System, step: Step)
    requires Sound(y)
    ensures Sound(Next(y, step)) && Keeps(y.ledger, Next(y, step).ledger)
  {
    match step
    case Begin(run) => BeginIsSound(y, run);
    case Block(run, id) => if Executing(y, run) && Idle(y.executions[run]) { BlockedIsSound(y, run, id); }
    case TaskStarts(run, id) =>
      if run in y.executions && id in y.executions[run].waiting { StartedIsSound(y, run, id); }
    case TaskEnds(run, id, status) =>
      if run in y.executions && id in y.executions[run].active
        && OperationTerminal(status) { EndedIsSound(y, run, id, status); }
    case Return(run) => if Executing(y, run) && Idle(y.executions[run]) { ReturnedIsSound(y, run); }
    case Raise(run, cancelled) =>
      if Executing(y, run) { RaisedIsSound(y, run, if cancelled then Cancelled else Failed); }
    case Interrupt(run) =>
      if Executing(y, run) { StepKeeps(y, run, y.ledger, y.executions[run].(interrupted := true)); }
    case OtherOperation(_, _) => OtherIsSound(y, step);
    case OtherEnds(_, _) => OtherIsSound(y, step);
    case OtherRunEnds(_, _) => OtherIsSound(y, step);
    case Wave(run, tasks) =>
      if Executing(y, run)
        && Idle(y.executions[run]) { StepKeeps(y, run, y.ledger, y.executions[run].(waiting := tasks)); }
    case _ =>
  }

  lemma {:induction false} EveryReachableStateIsSound(steps: seq<Step>)
    ensures Sound(After(steps))
  {
    if steps != [] {
      EveryReachableStateIsSound(steps[..|steps| - 1]);
      NextIsSound(After(steps[..|steps| - 1]), steps[|steps| - 1]);
    }
  }

  lemma KeepsTransitive(a: Ledger, b: Ledger, c: Ledger)
    requires Keeps(a, b) && Keeps(b, c)
    ensures Keeps(a, c)
  {
  }

  lemma {:induction false} OneMoreKeeps(steps: seq<Step>, step: Step)
    ensures Keeps(After(steps).ledger, After(steps + [step]).ledger)
  {
    assert (steps + [step])[..|steps|] == steps;
    EveryReachableStateIsSound(steps);
    NextIsSound(After(steps), step);
  }

  /** Over whole runs of the system, with crashes and recoveries, nothing terminal ever changes. */
  lemma {:induction false} TerminalIsForEver(past: seq<Step>, future: seq<Step>)
    ensures Keeps(After(past).ledger, After(past + future).ledger)
  {
    if future == [] {
      assert past + future == past;
    } else {
      var init := future[..|future| - 1];
      TerminalIsForEver(past, init);
      assert past + future == (past + init) + [future[|future| - 1]];
      OneMoreKeeps(past + init, future[|future| - 1]);
      KeepsTransitive(After(past).ledger, After(past + init).ledger, After(past + future).ledger);
    }
  }

  /**
   * However an execution leaves by returning or through its handlers, its finish guard does not fire, its run
   * is terminal and none of its operations is running, then and whatever its surviving tasks, other runs or
   * crashes do later.
   */
  lemma {:induction false} LeavingIsClean(past: seq<Step>, future: seq<Step>, run: RunId)
    requires run in After(past).executions && After(past).executions[run].left
    ensures !After(past).guardFired
    ensures
      var now, later := After(past).ledger, After(past + future).ledger;
      && run in now.runs && now.runs[run] != Running && !HasRunning(now, run)
      && run in later.runs && later.runs[run] == now.runs[run] && !HasRunning(later, run)
  {
    EveryReachableStateIsSound(past);
    EveryReachableStateIsSound(past + future);
    TerminalIsForEver(past, future);
  }

  /**
   * An exception that passes the handlers leaves the run running, for as long as the process lives and whatever
   * its surviving tasks and other runs do; recovery after the process has gone then fails it and all it still runs.
   */
  lemma {:induction false} InterruptedWaitsForRecovery(past: seq<Step>, future: seq<Step>, run: RunId)
    requires IsInterrupted(After(past), run) && Crash !in future
    ensures
      var l := After(past + future).ledger;
      var m := After(past + future + [Crash, RecoverAll]).ledger;
      && run in l.runs && l.runs[run] == Running
      && run in m.runs && m.runs[run] == Failed && !HasRunning(m, run)
  {
    StaysInterrupted(past, future, run);
    EveryReachableStateIsSound(past + future);
    var steps := past + future;
    assert (steps + [Crash, RecoverAll])[..|steps| + 1] == steps + [Crash];
    assert (steps + [Crash])[..|steps|] == steps;
    assert After(steps + [Crash, RecoverAll]).ledger == Recovered(After(steps).ledger);
  }

  ghost predicate IsInterrupted(y: System, run: RunId) {
    run in y.executions && y.executions[run].interrupted && !y.executions[run].left
  }

  lemma OneStepStaysInterrupted(y: System, step: Step, run: RunId)
    requires IsInterrupted(y, run) && step != Crash
    ensures IsInterrupted(Next(y, step), run)
  {
  }

  lemma {:induction false} StaysInterrupted(past: seq<Step>, future: seq<Step>, run: RunId)
    requires IsInterrupted(After(past), run) && Crash !in future
    ensures IsInterrupted(After(past + future), run)
  {
    if future == [] {
      assert past + future == past;
    } else {
      var init, last := future[..|future| - 1], future[|future| - 1];
      assert last in future;
      StaysInterrupted(past, init, run);
      assert (past + future)[..|past + future| - 1] == past + init;
      OneStepStaysInterrupted(After(past + init), last, run);
    }
  }

  ghost predicate SomeEnded(l: Ledger, run: RunId, status: Status) {
    exists id :: id in l.operations && l.operations[id] == OperationRow(run, status)
  }

  /** The status a returning execution gives its run tells how the run's recorded operations ended. */
  lemma {:induction false} ReturnedStatusTellsOperations(steps: seq<Step>, run: RunId)
    requires Executing(After(steps), run) && Idle(After(steps).executions[run])
    ensures
      var l := Next(After(steps), Return(run)).ledger;
      && run in l.runs
      && var bad, good := SomeEnded(l, run, Failed) || SomeEnded(l, run, Cancelled), SomeEnded(l, run, Succeeded);
      (l.runs[run] == Partial <==> bad && good)
      && (l.runs[run] == Failed <==> bad && !good)
      && (l.runs[run] == Succeeded <==> !bad)
  {
    EveryReachableStateIsSound(steps);
    var y := After(steps);
    var e := y.executions[run];
    assert !HasRunning(y.ledger, run);
    var l := Next(y, Return(run)).ledger;
    assert l.operations == y.ledger.operations;
    if id :| id in e.results && e.results[id] == DidSucceed { assert l.operations[id] == OperationRow(run, Succeeded); }
    if id :| id in e.results && e.results[id] == DidFail { assert l.operations[id] == OperationRow(run, Failed); }
    if id :| id in e.results && e.results[id] == WasBlocked { assert l.operations[id] == OperationRow(run, Cancelled); }
  }

  /** Recovery leaves nothing running and changes nothing that had ended; a second recovery finds nothing. */
  lemma RecoveryIsComplete(l: Ledger)
    requires LedgerSound(l)
    ensures
      var m := Recovered(l);
      && LedgerSound(m) && Keeps(l, m) && Recovered(m) == m
      && (forall run | run in m.runs :: m.runs[run] != Running)
      && (forall id | id in m.operations :: m.operations[id].status != Running)
      && (forall run | run in l.runs && l.runs[run] == Running :: m.runs[run] == Failed)
      && (forall id | id in l.operations && l.operations[id].status == Running :: m.operations[id].status == Failed)
  {
    var m := Recovered(l);
    assert Recovered(m).runs == m.runs;
    assert Recovered(m).operations == m.operations;
  }
}
