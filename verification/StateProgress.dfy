/** What a schedule can still bring about from every state: transactions commit, and crashes tear the recovery copy. */
module StateProgress {
  import opened Prelude
  import opened StateFile

  /** The state after the steps, if each is enabled in its turn. */
  function After(s: System, steps: seq<Step>): Option<System>
    decreases |steps|
  {
    if steps == [] then Some(s)
    else if Enabled(s, steps[0]) then After(Next(s, steps[0]), steps[1..])
    else None
  }

  /** Steps of this process alone, none of them a failure, take the state to `end`. */
  ghost predicate Reaches(s: System, i: nat, end: System) {
    exists steps: seq<Step> :: (forall step <- steps :: step.i == i && !step.Crash? && !step.BodyRaises?)
      && After(s, steps) == Some(end)
  }

  lemma ReachesItself(s: System, i: nat)
    ensures Reaches(s, i, s)
  {
    var steps: seq<Step> := [];
    assert After(s, steps) == Some(s);
  }

  lemma StepReaches(s: System, step: Step, end: System)
    requires Enabled(s, step) && !step.Crash? && !step.BodyRaises? && Reaches(Next(s, step), step.i, end)
    ensures Reaches(s, step.i, end)
  {
    var rest: seq<Step> :| (forall r <- rest :: r.i == step.i && !r.Crash? && !r.BodyRaises?)
      && After(Next(s, step), rest) == Some(end);
    var steps := [step] + rest;
    assert steps[1..] == rest;
    assert After(s, steps) == Some(end);
  }

  /** The process let go of the lock, with this log and with a state file that reads as the log has it. */
  predicate Finished(start: Disk, end: System, i: nat, log: seq<Update>) {
    && Pc(end, i).Outside? && end.holder.None? && end.log == log
    && Read(end.disk).0 == Loaded(Fold(Original(start), log))
  }

  /** By steps of its own the process comes to be finished at `end`; all others are where they were. */
  ghost predicate Finishes(start: Disk, s: System, i: nat, log: seq<Update>, end: System) {
    && Reaches(s, i, end) && Sound(start, end) && Finished(start, end, i, log)
    && forall j: nat | j != i :: Pc(end, j) == Pc(s, j)
  }

  ghost predicate CanFinish(start: Disk, s: System, i: nat, log: seq<Update>) {
    exists end :: Finishes(start, s, i, log, end)
  }

  lemma StepCanFinish(start: Disk, s: System, step: Step, log: seq<Update>)
    requires Enabled(s, step) && !step.Crash? && !step.BodyRaises? && CanFinish(start, Next(s, step), step.i, log)
    ensures CanFinish(start, s, step.i, log)
  {
    var end :| Finishes(start, Next(s, step), step.i, log, end);
    StepReaches(s, step, end);
    assert forall j: nat | j != step.i :: Pc(Next(s, step), j) == Pc(s, j);
    assert Finishes(start, s, step.i, log, end);
  }

  /** The log once the process inside is done. */
  function Committed(s: System, i: nat): seq<Update>
    requires HoldsLock(Pc(s, i))
  {
    if Pc(s, i).HasRenamed? then s.log else s.log + [Pc(s, i).update]
  }

  /** How many steps the process inside still has to take, at most. */
  function Remaining(p: Process): nat
    requires HoldsLock(p)
  {
    match p
    case Holding(_) => 6
    case HasRead(_, _) => 5
    case HasChanged(_, _) => 4
    case HasStaged(_, _) => 3
    case HasCopied(_, _) => 2
    case HasRenamed => 1
  }

  function NextStep(s: System, i: nat): (step: Step)
    requires HoldsLock(Pc(s, i))
  {
    match Pc(s, i)
    case Holding(_) => Load(i)
    case HasRead(_, _) => RunBody(i)
    case HasChanged(_, _) => Stage(i)
    case HasStaged(_, _) => if s.disk.main.Absent? then Rename(i) else CopyMain(i)
    case HasCopied(_, _) => Rename(i)
    case HasRenamed => Unlock(i)
  }

  /** The step of the process inside is always enabled, also for the first write, which has nothing to copy. */
  lemma InsideStepIsEnabled(start: Disk, s: System, i: nat)
    requires Sound(start, s) && s.holder == Some(i)
    ensures HoldsLock(Pc(s, i)) && Enabled(s, NextStep(s, i)) && Sound(start, Next(s, NextStep(s, i)))
    ensures
      var s' := Next(s, NextStep(s, i));
      if Pc(s, i).HasRenamed? then Finished(start, s', i, Committed(s, i))
      else
        && s'.holder == Some(i) && HoldsLock(Pc(s', i)) && Committed(s', i) == Committed(s, i)
        && Remaining(Pc(s', i)) < Remaining(Pc(s, i))
  {
    assert HoldsLock(Pc(s, i));
    StepIsSound(start, s, NextStep(s, i));
  }

  /** In every state of every run, the process inside can finish by itself, with its update committed. */
  lemma {:induction false} InsideCanFinish(start: Disk, s: System, i: nat)
    requires Sound(start, s) && s.holder == Some(i)
    ensures HoldsLock(Pc(s, i)) && CanFinish(start, s, i, Committed(s, i))
    decreases if HoldsLock(Pc(s, i)) then Remaining(Pc(s, i)) else 0
  {
    InsideStepIsEnabled(start, s, i);
    var step := NextStep(s, i);
    var s' := Next(s, step);
    if Pc(s, i).HasRenamed? {
      ReachesItself(s', i);
      assert Finishes(start, s', i, Committed(s, i), s');
    } else {
      InsideCanFinish(start, s', i);
    }
    StepCanFinish(start, s, step, Committed(s, i));
  }

  /** A transaction that waits can commit as soon as nobody holds the lock: no crash leaves it locked. */
  lemma WaitingCanCommit(start: Disk, s: System, i: nat)
    requires Sound(start, s) && Pc(s, i).Waiting? && s.holder.None?
    ensures CanFinish(start, s, i, s.log + [Pc(s, i).update])
  {
    StepIsSound(start, s, Acquire(i));
    InsideCanFinish(start, Next(s, Acquire(i)), i);
    StepCanFinish(start, s, Acquire(i), s.log + [Pc(s, i).update]);
  }

  /**
   In every state of every run a waiting transaction can still commit: at once when nobody holds the lock, and
   otherwise after the process inside has committed.
   */
  lemma EveryTransactionCanCommit(start: Disk, systems: seq<System>, steps: seq<Step>, n: nat, i: nat)
    requires IsRun(start, systems, steps) && n <= |steps| && Pc(systems[n], i).Waiting?
    ensures systems[n].holder.None? ==> CanFinish(start, systems[n], i, systems[n].log + [Pc(systems[n], i).update])
    ensures systems[n].holder.Some? ==>
      var s, j := systems[n], systems[n].holder.value;
      HoldsLock(Pc(s, j)) && exists end ::
        Finishes(start, s, j, Committed(s, j), end)
        && CanFinish(start, end, i, Committed(s, j) + [Pc(s, i).update])
  {
    var s := systems[n];
    RunIsSound(start, systems, steps, n);
    if s.holder.None? {
      WaitingCanCommit(start, s, i);
    } else {
      var j := s.holder.value;
      InsideCanFinish(start, s, j);
      var end :| Finishes(start, s, j, Committed(s, j), end);
      assert HoldsLock(Pc(s, j)) && Pc(end, i) == Pc(s, i);
      WaitingCanCommit(start, end, i);
    }
  }

  /** The transaction of this process is about to copy the main file, or to crash. */
  ghost predicate IsStaged(s: System, i: nat, staged: System) {
    Reaches(s, i, staged) && Pc(staged, i).HasStaged? && staged.disk == s.disk && staged.holder == Some(i)
  }

  lemma WaitingCanStage(start: Disk, s: System, i: nat) returns (staged: System)
    requires Sound(start, s) && Pc(s, i).Waiting? && s.holder.None?
    ensures IsStaged(s, i, staged)
  {
    var s1 := Next(s, Acquire(i));
    var s2 := Next(s1, Load(i));
    var s3 := Next(s2, RunBody(i));
    staged := Next(s3, Stage(i));
    ReachesItself(staged, i);
    StepReaches(s3, Stage(i), staged);
    StepReaches(s2, RunBody(i), staged);
    StepReaches(s1, Load(i), staged);
    StepReaches(s, Acquire(i), staged);
  }

  ghost predicate CrashLeaves(s: System, i: nat, copy: CopyAtCrash, disk: Disk) {
    exists staged ::
      IsStaged(s, i, staged) && Enabled(staged, Crash(i, copy)) && Next(staged, Crash(i, copy)).disk == disk
  }

  /** Wherever a state file exists, the next transaction can crash and leave a torn or a complete recovery copy. */
  lemma CopyCanTear(start: Disk, s: System, i: nat)
    requires Sound(start, s) && Pc(s, i).Waiting? && s.holder.None? && !s.disk.main.Absent?
    ensures CrashLeaves(s, i, NotBegun, s.disk)
    ensures CrashLeaves(s, i, Torn, Disk(s.disk.main, Malformed))
    ensures CrashLeaves(s, i, Complete, Disk(s.disk.main, s.disk.main))
  {
    var staged := WaitingCanStage(start, s, i);
    assert Next(staged, Crash(i, NotBegun)).disk == s.disk;
    assert Next(staged, Crash(i, Torn)).disk == Disk(s.disk.main, Malformed);
    assert Next(staged, Crash(i, Complete)).disk == Disk(s.disk.main, s.disk.main);
  }
}
