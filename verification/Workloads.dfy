/**
 Bringing the enabled workloads up: every worker decides from one snapshot what to
 do with its workload, and records the workload's fingerprint after a successful
 start. The workers of one run interleave freely, and any ToolHive call may fail.
 */
module Workloads {

  /** A fingerprint stands for the declared spec it was computed from. */
  type Fingerprint = string

  /** `baked` is the spec whose arguments the container was created with. */
  datatype Workload = Workload(group: string, status: string, baked: Fingerprint)

  /** ToolHive's workloads, the recorded fingerprints, and the workloads whose mounted kubeconfig is outdated. */
  datatype World = World(workloads: map<string, Workload>, recorded: map<string, Fingerprint>, stale: set<string>)

  datatype Worker = Deciding | Restarting | Removing | Starting | Saving | Finished

  /**
   One `run_workloads`: its group, the declared specs of the enabled servers, the two
   listings it started from, and how far the worker of each server has got.
   */
  datatype Run = Run(
    group: string,
    specs: map<string, Fingerprint>,
    inGroup: map<string, string>,
    allNames: set<string>,
    workers: map<string, Worker>)

  datatype System = System(world: World, run: Run)

  datatype Action = Skip | Restart | Recreate | Create

  /** The decision at the top of `_apply_workload`. */
  function Decision(s: System, name: string): Action
    requires name in s.run.specs
  {
    var stale := name in s.world.stale;
    var changed := name !in s.world.recorded || s.world.recorded[name] != s.run.specs[name];
    if name in s.run.inGroup && s.run.inGroup[name] == "running" && !stale && !changed then Skip
    else if (stale || changed) && name in s.run.allNames then Recreate
    else if name in s.run.inGroup then Restart
    else if name in s.run.allNames then Recreate
    else Create
  }

  /** A failed `thv run` may leave the container it created behind, in whatever status. */
  datatype StartOutcome = Started | Failed | FailedLeaving(status: string)

  datatype Step =
    // A run begins; either listing may fail and then reads as empty.
    | BeginRun(group: string, specs: map<string, Fingerprint>, groupListed: bool, allListed: bool)
    | Decide(name: string)
    // The outcome of `thv restart`, `thv rm` and `thv run`.
    | RestartCall(name: string, ok: bool)
    | RemoveCall(name: string, ok: bool)
    | StartCall(name: string, outcome: StartOutcome)
    | Save(name: string)
    // Outside the controller: a workload changes its status, a kubeconfig becomes outdated.
    | Drift(name: string, status: string)
    | Outdate(name: string)

  function InGroup(w: World, group: string): map<string, string> {
    map n | n in w.workloads && w.workloads[n].group == group :: w.workloads[n].status
  }

  predicate Idle(r: Run) {
    forall n | n in r.workers :: r.workers[n].Finished?
  }

  predicate At(s: System, name: string, worker: Worker) {
    name in s.run.workers && s.run.workers[name] == worker
  }

  predicate Enabled(s: System, step: Step) {
    match step
    case BeginRun(_, _, _, _) => Idle(s.run)
    case Decide(n) => At(s, n, Deciding) && n in s.run.specs
    case RestartCall(n, ok) => At(s, n, Restarting) && (ok ==> n in s.world.workloads)
    case RemoveCall(n, ok) => At(s, n, Removing)
    case StartCall(n, outcome) =>
      At(s, n, Starting) && n in s.run.specs && (!outcome.Failed? ==> n !in s.world.workloads)
    case Save(n) => At(s, n, Saving) && n in s.run.specs
    case Drift(n, _) => n in s.world.workloads
    case Outdate(n) => true
  }

  function Advance(s: System, name: string, worker: Worker): System {
    s.(run := s.run.(workers := s.run.workers[name := worker]))
  }

  function WithWorkload(w: World, name: string, workload: Workload): World {
    w.(workloads := w.workloads[name := workload])
  }

  function Next(s: System, step: Step): System
    requires Enabled(s, step)
  {
    match step
    case BeginRun(group, specs, groupListed, allListed) =>
      s.(run := Run(group, specs,
                    if groupListed then InGroup(s.world, group) else map[],
                    if allListed then s.world.workloads.Keys else {},
                    map n | n in specs :: Deciding))
    case Decide(n) =>
      Advance(s, n, match Decision(s, n)
                    case Skip => Finished
                    case Restart => Restarting
                    case Recreate => Removing
                    case Create => Starting)
    case RestartCall(n, ok) =>
      if !ok then Advance(s, n, Finished) else
      Advance(s, n, Saving).(world := WithWorkload(s.world, n, s.world.workloads[n].(status := "running")))
    case RemoveCall(n, ok) =>
      var s' := Advance(s, n, Starting);
      if ok then s'.(world := s.world.(workloads := s.world.workloads - {n})) else s'
    case StartCall(n, outcome) =>
      // Assembling the call exports a fresh kubeconfig, whether or not the call then succeeds.
      var exported := s.world.(stale := s.world.stale - {n});
      var spec := s.run.specs[n];
      (match outcome
       case Started => Advance(s, n, Saving).(world :=
         WithWorkload(exported, n, Workload(s.run.group, "running", spec)))
       case Failed => Advance(s, n, Finished).(world := exported)
       case FailedLeaving(status) =>
         Advance(s, n, Finished).(world := WithWorkload(exported, n, Workload(s.run.group, status, spec))))
    case Save(n) =>
      Advance(s, n, Finished).(world := s.world.(recorded := s.world.recorded[n := s.run.specs[n]]))
    case Drift(n, status) => s.(world := WithWorkload(s.world, n, s.world.workloads[n].(status := status)))
    case Outdate(n) => s.(world := s.world.(stale := s.world.stale + {n}))
  }

  ghost predicate IsHistory(systems: seq<System>, steps: seq<Step>) {
    && |systems| == |steps| + 1
    && forall n | 0 <= n < |steps| :: Enabled(systems[n], steps[n]) && systems[n + 1] == Next(systems[n], steps[n])
  }

  /* Recorded fingerprints describe the containers that exist */

  predicate MatchesAt(w: World, name: string) {
    name in w.recorded && name in w.workloads ==> w.recorded[name] == w.workloads[name].baked
  }

  /** No worker is busy with the workload. */
  predicate AtRest(s: System, name: string) {
    name in s.run.workers ==> s.run.workers[name].Finished?
  }

  /**
   The two steps that can make a fingerprint wrong: a run that begins with the group's listing alone
   while a listed container has another spec, and a failed start that leaves a container behind
   while another spec is on record.
   */
  predicate Endangers(s: System, step: Step, name: string) {
    match step
    case BeginRun(group, specs, groupListed, allListed) =>
      && groupListed && !allListed && name in specs
      && name in s.world.workloads && s.world.workloads[name].group == group
      && s.world.workloads[name].baked != specs[name]
    case StartCall(n, FailedLeaving(_)) =>
      n == name && n in s.run.specs && n in s.world.recorded && s.world.recorded[n] != s.run.specs[n]
    case _ => false
  }

  /** What holds for a name while its worker moves through a run. */
  predicate WorkerOk(s: System, n: string) {
    && (n in s.run.workers ==> n in s.run.specs)
    && match if n in s.run.workers then s.run.workers[n] else Finished
       case Saving => n in s.world.workloads && s.world.workloads[n].baked == s.run.specs[n]
       case Restarting => MatchesAt(s.world, n) &&
         (n in s.world.workloads ==> s.world.workloads[n].baked == s.run.specs[n])
       case Deciding =>
         && MatchesAt(s.world, n)
         && (n in s.run.inGroup && n !in s.run.allNames && n in s.world.workloads ==>
               s.world.workloads[n].baked == s.run.specs[n])
       case _ => MatchesAt(s.world, n)
  }

  lemma StepKeepsWorker(s: System, step: Step, n: string)
    requires WorkerOk(s, n) && Enabled(s, step) && !Endangers(s, step, n)
    ensures WorkerOk(Next(s, step), n)
  {
  }

  lemma {:induction false} HistoryKeepsWorker(systems: seq<System>, steps: seq<Step>, k: nat, n: string)
    requires IsHistory(systems, steps) && k <= |steps| && WorkerOk(systems[0], n)
    requires forall j | 0 <= j < k :: !Endangers(systems[j], steps[j], n)
    ensures WorkerOk(systems[k], n)
  {
    if k > 0 {
      HistoryKeepsWorker(systems, steps, k - 1, n);
      assert Enabled(systems[k - 1], steps[k - 1]) && systems[k] == Next(systems[k - 1], steps[k - 1]);
      StepKeepsWorker(systems[k - 1], steps[k - 1], n);
    }
  }

  /**
   Whatever calls fail and whatever else happens, a workload's recorded fingerprint describes its
   container whenever no worker is busy with it, as long as no step endangers it.
   */
  lemma FingerprintsMatch(systems: seq<System>, steps: seq<Step>, k: nat, n: string)
    requires IsHistory(systems, steps) && k <= |steps| && AtRest(systems[0], n) && MatchesAt(systems[0].world, n)
    requires n in systems[0].run.workers ==> n in systems[0].run.specs
    requires forall j | 0 <= j < k :: !Endangers(systems[j], steps[j], n)
    ensures AtRest(systems[k], n) ==> MatchesAt(systems[k].world, n)
  {
    HistoryKeepsWorker(systems, steps, k, n);
  }

  /** Every history that goes on with `step` has a matching fingerprint whenever `name` is at rest again. */
  ghost predicate StaysMatched(s: System, step: Step, name: string) {
    forall systems: seq<System>, steps: seq<Step>, k: nat |
      && IsHistory(systems, steps) && steps != [] && systems[0] == s && steps[0] == step
      && 1 <= k <= |steps| && (forall j | 1 <= j < k :: !Endangers(systems[j], steps[j], name))
      && AtRest(systems[k], name) ::
      MatchesAt(systems[k].world, name)
  }

  /** The run that follows an endangered beginning: the changed workload looks restartable. */
  lemma PartialListingMismatches(s: System, begin: Step, n: string) returns (systems: seq<System>, steps: seq<Step>)
    requires begin.BeginRun? && Enabled(s, begin) && Endangers(s, begin, n) && MatchesAt(s.world, n)
    ensures IsHistory(systems, steps) && |steps| == 4 && systems[0] == s && steps[0] == begin
    ensures forall j | 1 <= j < 4 :: !Endangers(systems[j], steps[j], n)
    ensures AtRest(systems[4], n) && !MatchesAt(systems[4].world, n)
  {
    steps := [begin, Decide(n), RestartCall(n, true), Save(n)];
    var s1 := Next(s, begin);
    assert n in s1.run.inGroup && n in s1.run.workers;
    assert Decision(s1, n) == Restart;
    var s2 := Next(s1, steps[1]);
    var s3 := Next(s2, steps[2]);
    var s4 := Next(s3, steps[3]);
    systems := [s, s1, s2, s3, s4];
  }

  lemma EndangeredMismatches(s: System, step: Step, n: string)
    requires WorkerOk(s, n) && Enabled(s, step) && Endangers(s, step, n)
    ensures !StaysMatched(s, step, n)
  {
    if step.BeginRun? {
      var systems, steps := PartialListingMismatches(s, step, n);
    } else {
      var systems, steps := [s, Next(s, step)], [step];
      assert IsHistory(systems, steps) && AtRest(systems[1], n) && !MatchesAt(systems[1].world, n);
    }
  }

  /**
   Exactly the endangering steps can make a fingerprint wrong: for every state, step and name, all
   histories that go on with the step keep the name matched iff the step does not endanger it.
   */
  lemma FingerprintsMatchExactly(s: System, step: Step, n: string)
    requires WorkerOk(s, n) && Enabled(s, step)
    ensures StaysMatched(s, step, n) <==> !Endangers(s, step, n)
  {
    if Endangers(s, step, n) {
      EndangeredMismatches(s, step, n);
    } else {
      forall systems: seq<System>, steps: seq<Step>, k: nat |
        && IsHistory(systems, steps) && steps != [] && systems[0] == s && steps[0] == step
        && 1 <= k <= |steps| && (forall j | 1 <= j < k :: !Endangers(systems[j], steps[j], n))
        && AtRest(systems[k], n)
        ensures MatchesAt(systems[k].world, n)
      {
        HistoryKeepsWorker(systems, steps, k, n);
      }
    }
  }

  /* Convergence */

  predicate Succeeds(step: Step) {
    match step
    case RestartCall(_, ok) => ok
    case RemoveCall(_, ok) => ok
    case StartCall(_, outcome) => outcome.Started?
    case Drift(_, _) => false
    case Outdate(_) => false
    case BeginRun(_, _, _, _) => false
    case _ => true
  }

  predicate Converged(w: World, group: string, name: string, spec: Fingerprint) {
    && name in w.workloads && w.workloads[name] == Workload(group, "running", spec)
    && name in w.recorded && w.recorded[name] == spec
    && name !in w.stale
  }

  /** If `spec` is on record for the workload, its container has it. */
  predicate HonestAbout(w: World, name: string, spec: Fingerprint) {
    name in w.recorded && w.recorded[name] == spec && name in w.workloads ==> w.workloads[name].baked == spec
  }

  /** Within a run whose calls succeed, each worker's step leads towards its converged workload. */
  predicate OnTheWay(s: System, n: string)
    requires n in s.run.specs
  {
    && n in s.run.workers
    && match s.run.workers[n]
       case Deciding =>
         && HonestAbout(s.world, n, s.run.specs[n])
         && (n in s.world.workloads <==> n in s.run.allNames)
         && (n in s.run.inGroup <==> n in s.world.workloads && s.world.workloads[n].group == s.run.group)
         && (n in s.run.inGroup ==> s.run.inGroup[n] == s.world.workloads[n].status)
       case Restarting =>
         && n in s.world.workloads && s.world.workloads[n].group == s.run.group
         && s.world.workloads[n].baked == s.run.specs[n] && n !in s.world.stale
       case Removing => n in s.world.workloads
       case Starting => n !in s.world.workloads
       case Saving =>
         && n in s.world.workloads && s.world.workloads[n] == Workload(s.run.group, "running", s.run.specs[n])
         && n !in s.world.stale
       case Finished => Converged(s.world, s.run.group, n, s.run.specs[n])
  }

  lemma StepStaysOnTheWay(s: System, step: Step)
    requires Enabled(s, step) && Succeeds(step)
    requires forall n | n in s.run.specs :: OnTheWay(s, n)
    ensures Next(s, step).run.specs == s.run.specs && Next(s, step).run.group == s.run.group
    ensures forall n | n in s.run.specs :: OnTheWay(Next(s, step), n)
  {
    var s' := Next(s, step);
    forall n | n in s.run.specs ensures OnTheWay(s', n) {
      assert OnTheWay(s, n);
    }
  }

  /** A run on complete listings, in a world that is honest about its specs. */
  predicate BeginsWell(s: System, step: Step) {
    && step.BeginRun? && step.groupListed && step.allListed
    && forall n | n in step.specs :: HonestAbout(s.world, n, step.specs[n])
  }

  lemma {:induction false} RunStaysOnTheWay(systems: seq<System>, steps: seq<Step>, n: nat)
    requires IsHistory(systems, steps) && 1 <= n <= |steps| && BeginsWell(systems[0], steps[0])
    requires forall i | 1 <= i < n :: Succeeds(steps[i])
    ensures systems[n].run.specs == steps[0].specs && systems[n].run.group == steps[0].group
    ensures forall m | m in systems[n].run.specs :: OnTheWay(systems[n], m)
  {
    assert Enabled(systems[n - 1], steps[n - 1]) && systems[n] == Next(systems[n - 1], steps[n - 1]);
    if n > 1 {
      RunStaysOnTheWay(systems, steps, n - 1);
      StepStaysOnTheWay(systems[n - 1], steps[n - 1]);
    }
  }

  /**
   When the listings and all calls succeed, one run, in any interleaving of its workers,
   leaves every enabled workload running in the group with its current spec.
   */
  lemma OneRunConverges(systems: seq<System>, steps: seq<Step>, m: nat, n: string)
    requires IsHistory(systems, steps) && 1 <= m <= |steps| && BeginsWell(systems[0], steps[0])
    requires forall i | 1 <= i < m :: Succeeds(steps[i])
    requires Idle(systems[m].run) && n in steps[0].specs
    ensures Converged(systems[m].world, steps[0].group, n, steps[0].specs[n])
  {
    RunStaysOnTheWay(systems, steps, m);
    assert OnTheWay(systems[m], n);
  }

  /** A workload on which the second run finds nothing to do. */
  predicate Settled(s: System, n: string)
    requires n in s.run.specs
  {
    && Converged(s.world, s.run.group, n, s.run.specs[n])
    && n in s.run.inGroup && s.run.inGroup[n] == "running"
    && n in s.run.workers && (s.run.workers[n].Deciding? || s.run.workers[n].Finished?)
  }

  predicate AllSettled(s: System) {
    s.run.workers.Keys == s.run.specs.Keys && forall n | n in s.run.specs :: Settled(s, n)
  }

  predicate IsCall(step: Step) {
    step.RestartCall? || step.RemoveCall? || step.StartCall?
  }

  predicate IsDisturbance(step: Step) {
    step.Drift? || step.Outdate? || step.BeginRun?
  }

  lemma SettledStepIsQuiet(s: System, step: Step, s': System)
    requires AllSettled(s) && Enabled(s, step) && !IsDisturbance(step) && s' == Next(s, step)
    ensures !IsCall(step) && AllSettled(s') && s'.world == s.world
  {
    assert step.name in s.run.workers && Settled(s, step.name);
    forall n | n in s.run.specs ensures Settled(s', n) {
      assert Settled(s, n);
    }
  }

  lemma {:induction false} SettledRunIsQuiet(systems: seq<System>, steps: seq<Step>, a: nat, k: nat)
    requires IsHistory(systems, steps) && a <= k <= |steps| && AllSettled(systems[a])
    requires forall j | a <= j < k :: !IsDisturbance(steps[j])
    ensures AllSettled(systems[k]) && systems[k].world == systems[a].world
    ensures forall j | a <= j < k :: !IsCall(steps[j])
  {
    if k > a {
      SettledRunIsQuiet(systems, steps, a, k - 1);
      assert Enabled(systems[k - 1], steps[k - 1]) && systems[k] == Next(systems[k - 1], steps[k - 1]);
      SettledStepIsQuiet(systems[k - 1], steps[k - 1], systems[k]);
    }
  }

  /**
   After a run whose calls all succeeded, a second run with the same specs issues no `rm`, `run` or
   `restart` at all, in any interleaving, and leaves the world as it is.
   */
  lemma SecondRunIsQuiet(systems: seq<System>, steps: seq<Step>, m: nat, k: nat)
    requires IsHistory(systems, steps) && 1 <= m < k <= |steps| && BeginsWell(systems[0], steps[0])
    requires forall i | 1 <= i < m :: Succeeds(steps[i])
    requires Idle(systems[m].run) && steps[m] == steps[0]
    requires forall j | m < j < k :: !IsDisturbance(steps[j])
    ensures forall j | m < j < k :: !IsCall(steps[j])
    ensures systems[k].world == systems[m].world
  {
    assert Enabled(systems[m], steps[m]) && systems[m + 1] == Next(systems[m], steps[m]);
    forall n | n in steps[0].specs ensures Converged(systems[m].world, steps[0].group, n, steps[0].specs[n]) {
      OneRunConverges(systems, steps, m, n);
    }
    assert AllSettled(systems[m + 1]);
    SettledRunIsQuiet(systems, steps, m + 1, k);
  }

  /**
   What still holds after a failed start that leaves a container behind: the next run with the same
   specs can begin well, since no fingerprint claims the new spec unless the container has it.
   */
  lemma LeftoversAreHonest(s: System, n: string, status: string)
    requires Enabled(s, StartCall(n, FailedLeaving(status)))
    requires forall m | m in s.run.specs :: HonestAbout(s.world, m, s.run.specs[m])
    ensures forall m | m in s.run.specs ::
      HonestAbout(Next(s, StartCall(n, FailedLeaving(status))).world, m, s.run.specs[m])
  {
  }

  /**
   What does not: with the spec taken back to the recorded one, the next run restarts the leftover,
   so that a container with the abandoned spec runs under the fingerprint of the restored one.
   */
  lemma LeftoverRunsUnderAnotherFingerprint(s: System, n: string, status: string, restored: map<string, Fingerprint>)
      returns (systems: seq<System>, steps: seq<Step>)
    requires status != "running" && Enabled(s, StartCall(n, FailedLeaving(status)))
    requires Endangers(s, StartCall(n, FailedLeaving(status)), n)
    requires Idle(Next(s, StartCall(n, FailedLeaving(status))).run)
    requires n in restored && restored[n] == s.world.recorded[n]
    ensures IsHistory(systems, steps) && systems[0] == s && |steps| == 5
    ensures steps[0] == StartCall(n, FailedLeaving(status)) && steps[1] == BeginRun(s.run.group, restored, true, true)
    ensures forall i | 2 <= i < 5 :: Succeeds(steps[i])
    ensures var w := systems[5].world;
      && n in w.workloads && w.workloads[n] == Workload(s.run.group, "running", s.run.specs[n])
      && n in w.recorded && w.recorded[n] == restored[n] != s.run.specs[n]
  {
    steps := [StartCall(n, FailedLeaving(status)), BeginRun(s.run.group, restored, true, true),
              Decide(n), RestartCall(n, true), Save(n)];
    var s1 := Next(s, steps[0]);
    var s2 := Next(s1, steps[1]);
    assert n in s2.run.inGroup && s2.run.inGroup[n] == status && n in s2.run.workers;
    assert Decision(s2, n) == Restart;
    var s3 := Next(s2, steps[2]);
    var s4 := Next(s3, steps[3]);
    var s5 := Next(s4, steps[4]);
    systems := [s, s1, s2, s3, s4, s5];
  }

  /**
   A container is rebuilt exactly when it must be: a workload of the group whose container has the
   current spec, on record, and an up-to-date kubeconfig keeps its container, and is left
   alone iff it runs; every other existing workload is removed and created anew.
   */
  lemma RebuiltExactly(s: System, n: string)
    requires s.run.inGroup == InGroup(s.world, s.run.group) && s.run.allNames == s.world.workloads.Keys
    requires n in s.run.specs && n in s.world.workloads && MatchesAt(s.world, n)
    ensures var w := s.world.workloads[n];
      var settled :=
        w.group == s.run.group && w.baked == s.run.specs[n] && n in s.world.recorded && n !in s.world.stale;
      Decision(s, n) == if !settled then Recreate else if w.status == "running" then Skip else Restart
  {
  }

  /** The decision, whatever the two listings returned: the four cases by what was listed and recorded. */
  lemma DecidedExactly(s: System, n: string)
    requires n in s.run.specs
    ensures var current := n in s.world.recorded && s.world.recorded[n] == s.run.specs[n] && n !in s.world.stale;
      && (Decision(s, n) == Skip <==> current && n in s.run.inGroup && s.run.inGroup[n] == "running")
      && (Decision(s, n) == Restart <==>
            n in s.run.inGroup && if current then s.run.inGroup[n] != "running" else n !in s.run.allNames)
      && (Decision(s, n) == Recreate <==> n in s.run.allNames && (!current || n !in s.run.inGroup))
      && (Decision(s, n) == Create <==> n !in s.run.inGroup && n !in s.run.allNames)
  {
  }

  /** Every worker of a run gets through: no step is ever missing until all have finished. */
  lemma RunNeverStalls(s: System)
    requires forall n | n in s.run.workers :: n in s.run.specs && OnTheWay(s, n)
    requires !Idle(s.run)
    ensures exists step :: Enabled(s, step) && Succeeds(step)
  {
    var n :| n in s.run.workers && !s.run.workers[n].Finished?;
    assert OnTheWay(s, n);
    var step :=
      match s.run.workers[n]
      case Deciding => Decide(n)
      case Restarting => RestartCall(n, true)
      case Removing => RemoveCall(n, true)
      case Starting => StartCall(n, Started)
      case _ => Save(n);
    assert Enabled(s, step) && Succeeds(step);
  }
}
