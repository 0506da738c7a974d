/** The wave scheduler: dependent operations in concurrent waves (executor.py). */
module Scheduler {
  import opened Models

  datatype Operation = Operation(key: string, dependencies: seq<string>)

  datatype Status = Succeeded | Failed | Blocked

  datatype SchedulerError = UnknownDependency(key: string) | DependencyCycle(keys: set<string>)

  /** What the repository sees: an operation is started, later it is finished. */
  datatype Event = Started(key: string) | Finished(key: string, status: Status)

  type Plan = map<string, Operation>

  /** `succeeds(k)` says how the operation's own work ends when it is run at all. */
  type Outcomes = string -> bool

  function PlanOf(operations: seq<Operation>): Plan {
    if operations == [] then map[]
    else
      var last := operations[|operations| - 1];
      PlanOf(operations[..|operations| - 1])[last.key := last]
  }

  predicate KnownDependencies(plan: Plan) {
    forall k | k in plan :: forall d | d in plan[k].dependencies :: d in plan
  }

  // ---- the recursive specification, read off the dependency graph --------------------------------

  ghost predicate Depends(plan: Plan, k: string, d: string) {
    k in plan && d in plan[k].dependencies
  }

  /** Each node is followed by one of its dependencies. */
  ghost predicate Path(plan: Plan, p: seq<string>) {
    && p != []
    && (forall i | 0 <= i < |p| :: p[i] in plan)
    && (forall i, j | 0 <= i < j < |p| && j == i + 1 :: Depends(plan, p[i], p[j]))
  }

  ghost predicate DoomedBy(plan: Plan, succeeds: Outcomes, k: string, p: seq<string>) {
    Path(plan, p) && |p| >= 2 && p[0] == k && !succeeds(p[|p| - 1])
  }

  /** Some transitive dependency does not succeed by itself. */
  ghost predicate Doomed(plan: Plan, succeeds: Outcomes, k: string) {
    exists p :: DoomedBy(plan, succeeds, k, p)
  }

  ghost function Spec(plan: Plan, succeeds: Outcomes, k: string): Status {
    if Doomed(plan, succeeds, k) then Blocked else if succeeds(k) then Succeeded else Failed
  }

  ghost predicate Revisits(plan: Plan, k: string, p: seq<string>) {
    Path(plan, p) && p[0] == k && exists i, j :: 0 <= i < j < |p| && p[i] == p[j]
  }

  /** The operation is on a dependency cycle or depends on one. */
  ghost predicate Entangled(plan: Plan, k: string) {
    exists p :: Revisits(plan, k, p)
  }

  ghost predicate ClosedWalk(plan: Plan, p: seq<string>) {
    Path(plan, p) && |p| >= 2 && p[0] == p[|p| - 1]
  }

  ghost predicate HasCycle(plan: Plan) {
    exists p :: ClosedWalk(plan, p)
  }

  lemma CycleIffEntangled(plan: Plan)
    ensures HasCycle(plan) <==> exists k :: Entangled(plan, k)
  {
    if HasCycle(plan) {
      var p :| ClosedWalk(plan, p);
      assert Revisits(plan, p[0], p);
      assert Entangled(plan, p[0]);
    }
    if k :| Entangled(plan, k) {
      var p :| Revisits(plan, k, p);
      var i, j :| 0 <= i < j < |p| && p[i] == p[j];
      SubPath(plan, p, i, j + 1);
      assert ClosedWalk(plan, p[i..j + 1]);
    }
  }

  // ---- logs that follow the protocol ------------------------------------------------------------

  function StartedKeys(log: seq<Event>): set<string> {
    if log == [] then {}
    else
      var front, e := StartedKeys(log[..|log| - 1]), log[|log| - 1];
      if e.Started? then front + {e.key} else front
  }

  function Statuses(log: seq<Event>): map<string, Status> {
    if log == [] then map[]
    else
      var front, e := Statuses(log[..|log| - 1]), log[|log| - 1];
      if e.Finished? then front[e.key := e.status] else front
  }

  function Active(log: seq<Event>): set<string> {
    StartedKeys(log) - Statuses(log).Keys
  }

  /** How many operations are started and not finished. */
  function Running(log: seq<Event>): int {
    if log == [] then 0 else Running(log[..|log| - 1]) + if log[|log| - 1].Started? then 1 else -1
  }

  predicate AllIn(keys: seq<string>, statuses: map<string, Status>) {
    forall d | d in keys :: d in statuses
  }

  predicate SomeUnsuccessful(keys: seq<string>, statuses: map<string, Status>) {
    exists d :: d in keys && d in statuses && statuses[d] != Succeeded
  }

  /** One step: start after every dependency, within the limit; finish with the status the dependencies allow. */
  ghost predicate LegalStep(plan: Plan, succeeds: Outcomes, limit: nat, log: seq<Event>, e: Event) {
    match e
    case Started(k) =>
      && k in plan && k !in StartedKeys(log)
      && AllIn(plan[k].dependencies, Statuses(log))
      && Running(log) < limit
    case Finished(k, status) =>
      && k in plan && k in Active(log)
      && status == if SomeUnsuccessful(plan[k].dependencies, Statuses(log)) then Blocked
                   else if succeeds(k) then Succeeded else Failed
  }

  ghost predicate Legal(plan: Plan, succeeds: Outcomes, limit: nat, log: seq<Event>) {
    log == [] || (Legal(plan, succeeds, limit, log[..|log| - 1])
                  && LegalStep(plan, succeeds, limit, log[..|log| - 1], log[|log| - 1]))
  }

  lemma {:induction false} Append(log: seq<Event>, e: Event)
    ensures StartedKeys(log + [e]) == StartedKeys(log) + if e.Started? then {e.key} else {}
    ensures Statuses(log + [e]) == if e.Finished? then Statuses(log)[e.key := e.status] else Statuses(log)
    ensures Running(log + [e]) == Running(log) + if e.Started? then 1 else -1
  {
    assert (log + [e])[..|log|] == log;
  }

  lemma {:induction false} LegalAppend(plan: Plan, succeeds: Outcomes, limit: nat, log: seq<Event>, e: Event)
    requires Legal(plan, succeeds, limit, log) && LegalStep(plan, succeeds, limit, log, e)
    ensures Legal(plan, succeeds, limit, log + [e])
  {
    assert (log + [e])[..|log|] == log;
  }

  // ---- what every legal log has in common ---------------------------------------------------------

  /** A finished operation was started, and every dependency of a started one is finished. */
  lemma {:induction false} LegalIsClosed(plan: Plan, succeeds: Outcomes, limit: nat, log: seq<Event>)
    requires Legal(plan, succeeds, limit, log)
    ensures Statuses(log).Keys <= StartedKeys(log) <= plan.Keys
    ensures forall k | k in StartedKeys(log) :: AllIn(plan[k].dependencies, Statuses(log))
  {
    if log != [] {
      var init, e := log[..|log| - 1], log[|log| - 1];
      assert log == init + [e];
      LegalIsClosed(plan, succeeds, limit, init);
      Append(init, e);
    }
  }

  lemma DoomedByDependency(plan: Plan, succeeds: Outcomes, k: string)
    requires k in plan && forall d | d in plan[k].dependencies :: d in plan
    ensures Doomed(plan, succeeds, k) <==>
            exists d :: d in plan[k].dependencies && Spec(plan, succeeds, d) != Succeeded
  {
    if Doomed(plan, succeeds, k) {
      var p :| DoomedBy(plan, succeeds, k, p);
      if |p| > 2 {
        assert DoomedBy(plan, succeeds, p[1], p[1..]);
      }
      assert Spec(plan, succeeds, p[1]) != Succeeded;
    }
    if d :| d in plan[k].dependencies && Spec(plan, succeeds, d) != Succeeded {
      if Doomed(plan, succeeds, d) {
        var p :| DoomedBy(plan, succeeds, d, p);
        assert DoomedBy(plan, succeeds, k, [k] + p);
      } else {
        assert DoomedBy(plan, succeeds, k, [k, d]);
      }
    }
  }

  /** Whatever the interleaving, every finished operation has the status the specification gives it. */
  lemma {:induction false} LegalMeetsSpec(plan: Plan, succeeds: Outcomes, limit: nat, log: seq<Event>)
    requires Legal(plan, succeeds, limit, log)
    ensures forall k | k in Statuses(log) :: k in plan && Statuses(log)[k] == Spec(plan, succeeds, k)
  {
    if log != [] {
      var init, e := log[..|log| - 1], log[|log| - 1];
      LegalMeetsSpec(plan, succeeds, limit, init);
      LegalIsClosed(plan, succeeds, limit, init);
      if e.Finished? {
        DoomedByDependency(plan, succeeds, e.key);
        if d :| d in plan[e.key].dependencies && Spec(plan, succeeds, d) != Succeeded {
          assert Statuses(init)[d] == Spec(plan, succeeds, d);
        }
      }
    }
  }

  lemma SubPath(plan: Plan, p: seq<string>, i: nat, j: nat)
    requires Path(plan, p) && i < j <= |p|
    ensures Path(plan, p[i..j])
  {
    var q := p[i..j];
    forall x, y | 0 <= x < y < |q| && y == x + 1 ensures Depends(plan, q[x], q[y]) {
      assert q[x] == p[i + x] && q[y] == p[i + y];
    }
  }

  lemma ExtendPath(plan: Plan, p: seq<string>, k: string)
    requires Path(plan, p) && k in plan && Depends(plan, p[|p| - 1], k)
    ensures Path(plan, p + [k])
  {
    var q := p + [k];
    forall x, y | 0 <= x < y < |q| && y == x + 1 ensures Depends(plan, q[x], q[y]) {
      if y < |p| { assert q[x] == p[x] && q[y] == p[y]; }
    }
  }

  lemma EntangledDependency(plan: Plan, k: string) returns (d: string)
    requires Entangled(plan, k)
    ensures k in plan && d in plan[k].dependencies && Entangled(plan, d)
  {
    var p :| Revisits(plan, k, p);
    var i, j :| 0 <= i < j < |p| && p[i] == p[j];
    d := p[1];
    assert Depends(plan, p[0], p[1]);
    if i > 0 {
      SubPath(plan, p, 1, |p|);
      var q := p[1..|p|];
      assert q[i - 1] == q[j - 1];
      assert Revisits(plan, d, q);
    } else {
      SubPath(plan, p, 1, j + 1);
      ExtendPath(plan, p[1..j + 1], p[1]);
      var q := p[1..j + 1] + [p[1]];
      assert q[0] == q[j];
      assert Revisits(plan, d, q);
    }
  }

  /** Nothing on a cycle, and nothing that depends on one, is ever started. */
  lemma {:induction false} CyclesNeverStart(plan: Plan, succeeds: Outcomes, limit: nat, log: seq<Event>)
    requires Legal(plan, succeeds, limit, log)
    ensures forall k | k in StartedKeys(log) :: !Entangled(plan, k)
  {
    if log != [] {
      var init, e := log[..|log| - 1], log[|log| - 1];
      assert log == init + [e];
      CyclesNeverStart(plan, succeeds, limit, init);
      LegalIsClosed(plan, succeeds, limit, init);
      Append(init, e);
      if e.Started? && Entangled(plan, e.key) {
        var d := EntangledDependency(plan, e.key);
        assert false;
      }
    }
  }

  /** Never more than `limit` operations are active. */
  lemma {:induction false} LegalIsBounded(plan: Plan, succeeds: Outcomes, limit: nat, log: seq<Event>)
    requires Legal(plan, succeeds, limit, log)
    ensures |Active(log)| == Running(log) <= limit
  {
    if log != [] {
      var init, e := log[..|log| - 1], log[|log| - 1];
      LegalIsBounded(plan, succeeds, limit, init);
      LegalIsClosed(plan, succeeds, limit, init);
      forall k ensures k in Active(log) <==> if e.Started? then k in Active(init) || k == e.key
        else k in Active(init) && k != e.key {}
      StepCounts(Active(init), Active(log), e.key, e.Started?);
    }
  }

  lemma StepCounts(before: set<string>, after: set<string>, key: string, starts: bool)
    requires starts <==> key !in before
    requires forall k :: k in after <==> if starts then k in before || k == key else k in before && k != key
    ensures |after| == |before| + if starts then 1 else -1
  {
    assert after == if starts then before + {key} else before - {key};
  }

  /** No operation is started or finished twice. */
  lemma {:induction false} LegalRunsOnce(plan: Plan, succeeds: Outcomes, limit: nat, log: seq<Event>, i: nat, j: nat)
    requires Legal(plan, succeeds, limit, log) && i < j < |log| && log[i].key == log[j].key
    ensures log[i].Started? && log[j].Finished?
  {
    var init, e := log[..|log| - 1], log[|log| - 1];
    if j < |init| {
      LegalRunsOnce(plan, succeeds, limit, init, i, j);
    } else {
      Recorded(init, i);
      LegalIsClosed(plan, succeeds, limit, init);
    }
  }

  lemma {:induction false} Recorded(log: seq<Event>, i: nat)
    requires i < |log|
    ensures if log[i].Started? then log[i].key in StartedKeys(log) else log[i].key in Statuses(log)
  {
    if i < |log| - 1 {
      Recorded(log[..|log| - 1], i);
    }
  }

  lemma JoinPaths(plan: Plan, p: seq<string>, q: seq<string>)
    requires Path(plan, p) && Path(plan, q) && p[|p| - 1] == q[0]
    ensures Path(plan, p + q[1..])
  {
    var r := p + q[1..];
    forall i, j | 0 <= i < j < |r| && j == i + 1 ensures Depends(plan, r[i], r[j]) {
      if j < |p| {
        assert r[i] == p[i] && r[j] == p[j];
      } else {
        assert r[i] == q[i + 1 - |p|] && r[j] == q[j + 1 - |p|];
      }
    }
  }

  lemma NotDoomedReachesSuccess(plan: Plan, succeeds: Outcomes, k: string, p: seq<string>)
    requires !Doomed(plan, succeeds, k) && Path(plan, p) && |p| >= 2 && p[0] == k
    ensures Spec(plan, succeeds, p[|p| - 1]) == Succeeded
  {
    var d := p[|p| - 1];
    assert !DoomedBy(plan, succeeds, k, p);
    if Doomed(plan, succeeds, d) {
      var q :| DoomedBy(plan, succeeds, d, q);
      JoinPaths(plan, p, q);
      assert DoomedBy(plan, succeeds, k, p + q[1..]);
    }
  }

  /** Work is done only after every transitive dependency has finished successfully, earlier in the log. */
  lemma {:induction false} WorkFollowsSuccess(plan: Plan, succeeds: Outcomes, limit: nat, log: seq<Event>, i: nat,
        p: seq<string>)
    requires Legal(plan, succeeds, limit, log) && i < |log|
    requires log[i].Finished? && log[i].status != Blocked
    requires Path(plan, p) && |p| >= 2 && p[0] == log[i].key
    ensures p[|p| - 1] in Statuses(log[..i]) && Statuses(log[..i])[p[|p| - 1]] == Succeeded
  {
    LegalPrefix(plan, succeeds, limit, log, i);
    LegalPrefix(plan, succeeds, limit, log, i + 1);
    LegalMeetsSpec(plan, succeeds, limit, log[..i + 1]);
    LastIsFinished(log, i);
    NotDoomedReachesSuccess(plan, succeeds, log[i].key, p);
    FinishedWasStarted(plan, succeeds, limit, log, i);
    ReachedIsFinished(plan, succeeds, limit, log[..i], p);
    LegalMeetsSpec(plan, succeeds, limit, log[..i]);
  }

  lemma LastIsFinished(log: seq<Event>, i: nat)
    requires i < |log| && log[i].Finished?
    ensures log[i].key in Statuses(log[..i + 1]) && Statuses(log[..i + 1])[log[i].key] == log[i].status
  {
    assert log[..i + 1][..i] == log[..i];
  }

  lemma {:induction false} FinishedWasStarted(plan: Plan, succeeds: Outcomes, limit: nat, log: seq<Event>, i: nat)
    requires Legal(plan, succeeds, limit, log) && i < |log| && log[i].Finished?
    ensures log[i].key in StartedKeys(log[..i])
  {
    LegalPrefix(plan, succeeds, limit, log, i + 1);
    assert log[..i + 1][..i] == log[..i];
  }

  lemma {:induction false} ReachedIsFinished(plan: Plan, succeeds: Outcomes, limit: nat, log: seq<Event>,
        p: seq<string>)
    requires Legal(plan, succeeds, limit, log)
    requires Path(plan, p) && |p| >= 2 && p[0] in StartedKeys(log)
    ensures p[|p| - 1] in Statuses(log)
  {
    LegalIsClosed(plan, succeeds, limit, log);
    assert Depends(plan, p[0], p[1]);
    if |p| > 2 {
      ReachedIsFinished(plan, succeeds, limit, log, p[1..]);
    }
  }

  lemma {:induction false} LegalPrefix(plan: Plan, succeeds: Outcomes, limit: nat, log: seq<Event>, n: nat)
    requires Legal(plan, succeeds, limit, log) && n <= |log|
    ensures Legal(plan, succeeds, limit, log[..n])
  {
    if n == |log| {
      assert log[..n] == log;
    } else {
      assert log[..|log| - 1][..n] == log[..n];
      LegalPrefix(plan, succeeds, limit, log[..|log| - 1], n);
    }
  }

  // ---- a stuck set contains a cycle -------------------------------------------------------------

  /** Every member depends on a member. */
  ghost predicate Stuck(plan: Plan, keys: set<string>) {
    keys <= plan.Keys && forall k | k in keys :: DependsInto(plan, k, keys)
  }

  ghost predicate DependsInto(plan: Plan, k: string, keys: set<string>) {
    exists d :: Depends(plan, k, d) && d in keys
  }

  lemma {:induction false} Walk(plan: Plan, keys: set<string>, k: string, n: nat) returns (p: seq<string>)
    requires Stuck(plan, keys) && k in keys
    ensures Path(plan, p) && |p| == n + 1 && p[0] == k && forall x | x in p :: x in keys
    decreases n
  {
    if n == 0 {
      p := [k];
    } else {
      assert DependsInto(plan, k, keys);
      var d :| Depends(plan, k, d) && d in keys;
      var rest := Walk(plan, keys, d, n - 1);
      p := [k] + rest;
      assert forall i | 0 < i < |p| :: p[i] == rest[i - 1];
    }
  }

  lemma {:induction false} Pigeonhole(p: seq<string>, keys: set<string>)
    requires (forall k | k in p :: k in keys) && |p| > |keys|
    ensures exists i, j :: 0 <= i < j < |p| && p[i] == p[j]
  {
    var last := p[|p| - 1];
    var init := p[..|p| - 1];
    if i :| 0 <= i < |init| && init[i] == last {
      assert p[i] == p[|p| - 1];
    } else {
      Pigeonhole(init, keys - {last});
      var i, j :| 0 <= i < j < |init| && init[i] == init[j];
      assert p[i] == p[j];
    }
  }

  lemma StuckIsEntangled(plan: Plan, keys: set<string>, k: string)
    requires Stuck(plan, keys) && k in keys
    ensures Entangled(plan, k)
  {
    var p := Walk(plan, keys, k, |keys|);
    Pigeonhole(p, keys);
    assert Revisits(plan, k, p);
  }

  // ---- the algorithm ------------------------------------------------------------------------------

  ghost predicate Runnable(plan: Plan, keys: set<string>, statuses: map<string, Status>) {
    forall k | k in keys ::
      && k in plan && AllIn(plan[k].dependencies, statuses)
      && !SomeUnsuccessful(plan[k].dependencies, statuses)
  }

  function Own(succeeds: Outcomes, k: string): Status {
    if succeeds(k) then Succeeded else Failed
  }

  function OwnAll(succeeds: Outcomes, keys: set<string>): map<string, Status> {
    map k | k in keys :: Own(succeeds, k)
  }

  ghost predicate Joined(succeeds: Outcomes, settled: map<string, Status>, done: set<string>,
        statuses: map<string, Status>)
  {
    && (forall k :: k in statuses <==> k in settled || k in done)
    && (forall k | k in settled :: statuses[k] == settled[k])
    && (forall k | k in done :: statuses[k] == Own(succeeds, k))
  }

  /** Every operation of the wave is waiting, active or done, and only one of them. */
  ghost predicate Parts(operations: set<string>, waiting: set<string>, active: set<string>, done: set<string>) {
    && (forall k :: k in operations <==> k in waiting || k in active || k in done)
    && (forall k | k in active :: k !in waiting && k !in done)
    && (forall k | k in waiting :: k !in done)
  }

  ghost predicate InWave(plan: Plan, succeeds: Outcomes, limit: nat, settled: map<string, Status>, log: seq<Event>,
        active: set<string>, done: set<string>)
  {
    && Legal(plan, succeeds, limit, log)
    && (forall k :: k in StartedKeys(log) <==> k in settled || k in active || k in done)
    && Joined(succeeds, settled, done, Statuses(log))
    && Running(log) == |active|
  }

  lemma ActiveInWave(plan: Plan, succeeds: Outcomes, limit: nat, settled: map<string, Status>, log: seq<Event>,
        active: set<string>, done: set<string>)
    requires InWave(plan, succeeds, limit, settled, log, active, done)
    requires forall k | k in active :: k !in done && k !in settled
    ensures Active(log) == active
  {
  }

  lemma {:induction false} CanStart(plan: Plan, succeeds: Outcomes, limit: nat, log: seq<Event>, k: string)
    requires k in plan && k !in StartedKeys(log) && AllIn(plan[k].dependencies, Statuses(log)) && Running(log) < limit
    ensures LegalStep(plan, succeeds, limit, log, Started(k))
  {
  }

  lemma {:induction false} CanFinish(plan: Plan, succeeds: Outcomes, limit: nat, log: seq<Event>, k: string)
    requires k in plan && k in Active(log) && !SomeUnsuccessful(plan[k].dependencies, Statuses(log))
    ensures LegalStep(plan, succeeds, limit, log, Finished(k, Own(succeeds, k)))
  {
  }

  lemma WaveStarts(plan: Plan, succeeds: Outcomes, limit: nat, operations: set<string>, settled: map<string, Status>,
        log: seq<Event>, waiting: set<string>, active: set<string>, done: set<string>, k: string)
    requires operations !! settled.Keys && Runnable(plan, operations, settled)
    requires InWave(plan, succeeds, limit, settled, log, active, done)
    requires Parts(operations, waiting, active, done) && k in waiting && |active| < limit
    ensures InWave(plan, succeeds, limit, settled, log + [Started(k)], active + {k}, done)
    ensures Parts(operations, waiting - {k}, active + {k}, done)
  {
    SameVerdict(plan[k].dependencies, settled, Statuses(log));
    ActiveInWave(plan, succeeds, limit, settled, log, active, done);
    CanStart(plan, succeeds, limit, log, k);
    Append(log, Started(k));
    LegalAppend(plan, succeeds, limit, log, Started(k));
  }

  lemma WaveFinishes(plan: Plan, succeeds: Outcomes, limit: nat, operations: set<string>, settled: map<string, Status>,
        log: seq<Event>, waiting: set<string>, active: set<string>, done: set<string>, k: string)
    requires operations !! settled.Keys && Runnable(plan, operations, settled)
    requires InWave(plan, succeeds, limit, settled, log, active, done)
    requires Parts(operations, waiting, active, done) && k in active
    ensures InWave(plan, succeeds, limit, settled, log + [Finished(k, Own(succeeds, k))], active - {k}, done + {k})
    ensures Parts(operations, waiting, active - {k}, done + {k})
  {
    SameVerdict(plan[k].dependencies, settled, Statuses(log));
    ActiveInWave(plan, succeeds, limit, settled, log, active, done);
    CanFinish(plan, succeeds, limit, log, k);
    Append(log, Finished(k, Own(succeeds, k)));
    LegalAppend(plan, succeeds, limit, log, Finished(k, Own(succeeds, k)));
  }

  /** One operation whose dependencies did not all succeed: started and cancelled on the spot. */
  method BlockOperation(plan: Plan, ghost succeeds: Outcomes, ghost limit: nat, k: string,
        ghost results: map<string, Status>, log0: seq<Event>)
    returns (log: seq<Event>)
    requires limit >= 1 && k in plan && k !in results
    requires InWave(plan, succeeds, limit, results, log0, {}, {})
    requires AllIn(plan[k].dependencies, results) && SomeUnsuccessful(plan[k].dependencies, results)
    ensures InWave(plan, succeeds, limit, results[k := Blocked], log, {}, {})
  {
    log := log0 + [Started(k)];
    CanStart(plan, succeeds, limit, log0, k);
    Append(log0, Started(k));
    LegalAppend(plan, succeeds, limit, log0, Started(k));
    assert k in Active(log);
    Append(log, Finished(k, Blocked));
    LegalAppend(plan, succeeds, limit, log, Finished(k, Blocked));
    log := log + [Finished(k, Blocked)];
  }

  /** Any interleaving of starts and finishes that the semaphore lets through. */
  method ExecuteWave(plan: Plan, succeeds: Outcomes, limit: nat, operations: set<string>,
        ghost settled: map<string, Status>, log0: seq<Event>)
    returns (log: seq<Event>)
    requires limit >= 1 && InWave(plan, succeeds, limit, settled, log0, {}, {})
    requires operations !! settled.Keys && Runnable(plan, operations, settled)
    ensures InWave(plan, succeeds, limit, settled, log, {}, operations)
  {
    log := log0;
    var waiting, active, done := operations, {}, {};
    while
      invariant Parts(operations, waiting, active, done)
      invariant InWave(plan, succeeds, limit, settled, log, active, done)
      decreases |waiting|, |active|
    {
      case waiting != {} && |active| < limit =>
        var k :| k in waiting;
        WaveStarts(plan, succeeds, limit, operations, settled, log, waiting, active, done, k);
        log, waiting, active := log + [Started(k)], waiting - {k}, active + {k};
      case active != {} =>
        var k :| k in active;
        WaveFinishes(plan, succeeds, limit, operations, settled, log, waiting, active, done, k);
        log, active, done := log + [Finished(k, Own(succeeds, k))], active - {k}, done + {k};
    }
    assert done == operations;
  }

  /** What `ready` holds: pending operations with every dependency in the results. */
  function Ready(pending: Plan, results: map<string, Status>): set<string> {
    set k | k in pending && AllIn(pending[k].dependencies, results)
  }

  ghost predicate Between(plan: Plan, succeeds: Outcomes, limit: nat, log: seq<Event>, pending: Plan,
        results: map<string, Status>)
  {
    && Legal(plan, succeeds, limit, log) && Statuses(log) == results && Running(log) == 0
    && (forall k :: k in StartedKeys(log) <==> k in results)
    && (forall k :: k in plan <==> k in pending || k in results)
    && (forall k | k in pending :: k !in results && pending[k] == plan[k])
  }

  method ExecuteOperations(operations: seq<Operation>, succeeds: Outcomes, limit: nat)
    returns (r: Result<map<string, Status>, SchedulerError>, log: seq<Event>)
    requires limit >= 1
    ensures Legal(PlanOf(operations), succeeds, limit, log)
    ensures r.Failure? && r.error.UnknownDependency? <==> !KnownDependencies(PlanOf(operations))
    ensures r.Failure? && r.error.DependencyCycle? <==>
        KnownDependencies(PlanOf(operations)) && HasCycle(PlanOf(operations))
    ensures r.Failure? && r.error.DependencyCycle? ==>
              forall k :: k in r.error.keys <==> Entangled(PlanOf(operations), k)
    ensures r.Success? ==>
              && r.value == Statuses(log) && r.value.Keys == StartedKeys(log) == PlanOf(operations).Keys
              && forall k | k in r.value :: r.value[k] == Spec(PlanOf(operations), succeeds, k)
  {
    var plan := PlanOf(operations);
    log := [];
    var pending, results := plan, map[];
    if k :| k in plan && exists d :: d in plan[k].dependencies && d !in plan {
      return Failure(UnknownDependency(k)), log;
    }
    CycleIffEntangled(plan);
    while pending != map[]
      invariant Between(plan, succeeds, limit, log, pending, results)
      decreases pending.Keys
    {
      var ready := Ready(pending, results);
      if ready == {} {
        StuckWhenNothingReady(plan, succeeds, limit, log, pending, results);
        return Failure(DependencyCycle(pending.Keys)), log;
      }
      log, pending, results := ExecuteReady(plan, succeeds, limit, log, pending, results, ready);
    }
    CyclesNeverStart(plan, succeeds, limit, log);
    LegalMeetsSpec(plan, succeeds, limit, log);
    return Success(results), log;
  }

  lemma StuckWhenNothingReady(plan: Plan, succeeds: Outcomes, limit: nat, log: seq<Event>, pending: Plan,
        results: map<string, Status>)
    requires KnownDependencies(plan) && Between(plan, succeeds, limit, log, pending, results)
        && Ready(pending, results) == {}
    ensures forall k :: k in pending <==> Entangled(plan, k)
  {
    forall k | k in pending ensures DependsInto(plan, k, pending.Keys) {
      assert k !in Ready(pending, results);
      var d :| d in pending[k].dependencies && d !in results;
      assert Depends(plan, k, d) && d in plan;
    }
    assert Stuck(plan, pending.Keys);
    forall k | k in pending ensures Entangled(plan, k) {
      StuckIsEntangled(plan, pending.Keys, k);
    }
    CyclesNeverStart(plan, succeeds, limit, log);
    forall k | Entangled(plan, k) ensures k in pending {
      var d := EntangledDependency(plan, k);
    }
  }

  /** Results recorded since do not change what finished dependencies say. */
  lemma SameVerdict(keys: seq<string>, before: map<string, Status>, now: map<string, Status>)
    requires AllIn(keys, before) && forall k | k in before :: k in now && now[k] == before[k]
    ensures AllIn(keys, now) && (SomeUnsuccessful(keys, now) <==> SomeUnsuccessful(keys, before))
  {
    if d :| d in keys && d in now && now[d] != Succeeded {
      assert d in before;
    }
    if d :| d in keys && d in before && before[d] != Succeeded {
      assert d in now;
    }
  }

  /** Halfway through a round: `todo` is what the loop over the ready operations has not seen yet. */
  ghost predicate InRound(plan: Plan, succeeds: Outcomes, limit: nat, before: map<string, Status>, log: seq<Event>,
        results: map<string, Status>, ready: set<string>, todo: set<string>, executable: set<string>)
  {
    && InWave(plan, succeeds, limit, results, log, {}, {})
    && (forall k | k in todo || k in executable :: k in ready && k !in results)
    && (forall k | k in todo :: k !in executable)
    && (forall k :: k in results <==> k in before || (k in ready && k !in todo && k !in executable))
    && (forall k | k in before :: results[k] == before[k])
    && Runnable(plan, executable, before)
  }

  lemma RoundIsRunnable(plan: Plan, succeeds: Outcomes, limit: nat, before: map<string, Status>, log: seq<Event>,
                        results: map<string, Status>, ready: set<string>, executable: set<string>)
    requires InRound(plan, succeeds, limit, before, log, results, ready, {}, executable)
    ensures Runnable(plan, executable, results)
  {
    forall k | k in executable
      ensures k in plan && AllIn(plan[k].dependencies, results) && !SomeUnsuccessful(plan[k].dependencies, results)
    {
      SameVerdict(plan[k].dependencies, before, results);
    }
  }

  lemma RoundStarts(plan: Plan, succeeds: Outcomes, limit: nat, log: seq<Event>, pending: Plan,
        results: map<string, Status>)
    requires Between(plan, succeeds, limit, log, pending, results)
    ensures InRound(plan, succeeds, limit, results, log, results, Ready(pending, results), Ready(pending, results), {})
  {
  }

  lemma RoundEnds(plan: Plan, succeeds: Outcomes, limit: nat, log: seq<Event>, pending0: Plan,
        results0: map<string, Status>, blocked: map<string, Status>, executable: set<string>, pending: Plan,
        results: map<string, Status>)
    requires forall k :: k in plan <==> k in pending0 || k in results0
    requires forall k | k in pending0 :: k !in results0 && pending0[k] == plan[k]
    requires InWave(plan, succeeds, limit, blocked, log, {}, executable)
    requires forall k :: k in blocked || k in executable <==> k in results0 || k in Ready(pending0, results0)
    requires results == blocked + OwnAll(succeeds, executable)
    requires forall k | k in executable :: k !in blocked
    requires forall k :: k in pending <==> k in pending0 && k !in Ready(pending0, results0)
    requires forall k | k in pending :: pending[k] == pending0[k]
    ensures Between(plan, succeeds, limit, log, pending, results)
  {
    assert Statuses(log) == results;
  }

  /** One round: the ready operations that must not run are blocked, the others run as one wave. */
  method ExecuteReady(plan: Plan, succeeds: Outcomes, limit: nat, log0: seq<Event>, pending0: Plan,
        results0: map<string, Status>, ready: set<string>)
    returns (log: seq<Event>, pending: Plan, results: map<string, Status>)
    requires limit >= 1 && Between(plan, succeeds, limit, log0, pending0, results0)
        && ready == Ready(pending0, results0)
    ensures Between(plan, succeeds, limit, log, pending, results)
    ensures forall k :: k in pending <==> k in pending0 && k !in ready
  {
    var executable;
    RoundStarts(plan, succeeds, limit, log0, pending0, results0);
    log, pending, results, executable := SortReady(plan, succeeds, limit, log0, pending0, results0, ready);
    RoundIsRunnable(plan, succeeds, limit, results0, log, results, ready, executable);
    log := ExecuteWave(plan, succeeds, limit, executable, results, log);
    ghost var blocked := results;
    results := results + OwnAll(succeeds, executable);
    RoundEnds(plan, succeeds, limit, log, pending0, results0, blocked, executable, pending, results);
  }

  /** The loop over the ready operations: block on the spot, or set aside for the wave. */
  method SortReady(plan: Plan, succeeds: Outcomes, limit: nat, log0: seq<Event>, pending0: Plan,
        results0: map<string, Status>, ready: set<string>)
    returns (log: seq<Event>, pending: Plan, results: map<string, Status>, executable: set<string>)
    requires limit >= 1 && InRound(plan, succeeds, limit, results0, log0, results0, ready, ready, {})
    requires forall k | k in ready :: k in plan && AllIn(plan[k].dependencies, results0)
    ensures InRound(plan, succeeds, limit, results0, log, results, ready, {}, executable)
    ensures forall k :: k in pending <==> k in pending0 && k !in ready
    ensures forall k | k in pending :: pending[k] == pending0[k]
  {
    log, pending, results := log0, pending0, results0;
    var todo := ready;
    executable := {};
    while todo != {}
      invariant InRound(plan, succeeds, limit, results0, log, results, ready, todo, executable)
      invariant forall k :: k in pending <==> k in pending0 && (k !in ready || k in todo)
      invariant forall k | k in pending :: pending[k] == pending0[k]
      decreases |todo|
    {
      var k :| k in todo;
      SameVerdict(plan[k].dependencies, results0, results);
      if SomeUnsuccessful(plan[k].dependencies, results) {
        log := BlockOperation(plan, succeeds, limit, k, results, log);
        results := results[k := Blocked];
      } else {
        executable := executable + {k};
      }
      pending := pending - {k};
      todo := todo - {k};
    }
  }
}
