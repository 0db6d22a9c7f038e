/**
 Recovery of a corrupt state file, step by step. A read that finds the file malformed validates the
 recovery copy, copies it to a file of its own and puts that in place; the loading functions do so
 without the lock, so the last step may come after another process has committed an update.
 */
module StateRecovery {
  import opened Prelude
  import F = StateFile

  type Damage = f: F.File | !f.Document? witness F.Absent

  /** A valid state, and the committed updates it consists of: positions in the log, over some original state. */
  datatype Version = Version(data: F.Durable, origin: F.Durable, commits: seq<nat>)

  datatype Content = Intact(version: Version) | Other(file: Damage)

  function FileOf(c: Content): F.File {
    if c.Intact? then F.Document(c.version.data) else c.file
  }

  predicate Holds(c: Content, k: nat) {
    c.Intact? && k in c.version.commits
  }

  const GONE := Other(F.Absent)
  const TORN := Other(F.Malformed)

  /**
   `job` is the update of a process that reads under the lock, and None for a reader without it.
   `seen` is what validating the recovery copy has returned, `temporary` the copy about to be put in place,
   `base` what a transaction works on, and `source` the main file that is being copied.
   */
  datatype Process =
    | Outside
    | Waiting(update: F.Update)
    | Holding(update: F.Update)
    | SawBad(job: Option<F.Update>)
    | Validated(job: Option<F.Update>, seen: Version)
    | Copied(job: Option<F.Update>, seen: Version, temporary: Content)
    | HasRead(update: F.Update, base: Version)
    | HasStaged(update: F.Update, base: Version)
    | Copying(update: F.Update, base: Version, source: Content)
    | HasCopied(update: F.Update, base: Version)
    | HasRenamed

  datatype System = System(main: Content, previous: Content, holder: Option<nat>, processes: map<nat, Process>,
    log: seq<F.Update>)

  datatype Step =
    | Begin(i: nat, update: F.Update)
    | Acquire(i: nat)
    | Look(i: nat)
    | Validate(i: nat)
    | CopyOut(i: nat)
    | Replace(i: nat)
    | Stage(i: nat)
    | BodyRaises(i: nat)
    | BeginCopy(i: nat)
    | EndCopy(i: nat)
    | Rename(i: nat)
    | Unlock(i: nat)
    | Crash(i: nat)
    | CorruptMain(damage: Damage)
    | CorruptPrevious(damage: Damage)

  predicate Corrupts(step: Step) {
    step.CorruptMain? || step.CorruptPrevious?
  }

  function Pc(s: System, i: nat): Process {
    if i in s.processes then s.processes[i] else Outside
  }

  predicate Enabled(s: System, step: Step) {
    match step
    case Begin(i, _) => Pc(s, i).Outside?
    case Acquire(i) => Pc(s, i).Waiting? && s.holder == None
    case Look(i) => Pc(s, i).Outside? || Pc(s, i).Holding?
    case Validate(i) => Pc(s, i).SawBad?
    case CopyOut(i) => Pc(s, i).Validated?
    case Replace(i) => Pc(s, i).Copied?
    case Stage(i) => Pc(s, i).HasRead?
    case BodyRaises(i) => Pc(s, i).HasRead?
    case BeginCopy(i) => Pc(s, i).HasStaged? && s.main != GONE
    case EndCopy(i) => Pc(s, i).Copying?
    case Rename(i) => Pc(s, i).HasCopied? || (Pc(s, i).HasStaged? && s.main == GONE)
    case Unlock(i) => Pc(s, i).HasRenamed?
    case Crash(_) => true
    case CorruptMain(_) => true
    case CorruptPrevious(_) => true
  }

  function Moved(s: System, i: nat, p: Process): System {
    s.(processes := s.processes[i := p])
  }

  function Released(s: System, i: nat): System {
    Moved(s, i, Outside).(holder := if s.holder == Some(i) then None else s.holder)
  }

  /** A read under the lock goes on to its transaction; any other read is over. */
  function Loaded(s: System, i: nat, job: Option<F.Update>, version: Version): System {
    if job.None? then Moved(s, i, Outside) else Moved(s, i, HasRead(job.value, version))
  }

  function Looked(s: System, i: nat): System {
    var job := if Pc(s, i).Holding? then Some(Pc(s, i).update) else None;
    match s.main
    case Intact(version) => Loaded(s, i, job, version)
    case Other(file) =>
      if file.Malformed? then Moved(s, i, SawBad(job))
      else if file.Absent? then Loaded(s, i, job, Version(F.INITIAL, F.INITIAL, []))
      else Released(s, i)
  }

  function Next(s: System, step: Step): System
    requires Enabled(s, step)
  {
    match step
    case Begin(i, u) => Moved(s, i, Waiting(u))
    case Acquire(i) => Moved(s, i, Holding(Pc(s, i).update)).(holder := Some(i))
    case Look(i) => Looked(s, i)
    case Validate(i) =>
      if s.previous.Intact? then Moved(s, i, Validated(Pc(s, i).job, s.previous.version)) else Released(s, i)
    case CopyOut(i) =>
      if s.previous == GONE then Released(s, i)
      else var p := Pc(s, i); Moved(s, i, Copied(p.job, p.seen, s.previous))
    case Replace(i) => var p := Pc(s, i); Loaded(s, i, p.job, p.seen).(main := p.temporary)
    case Stage(i) =>
      var p := Pc(s, i);
      Moved(s, i, HasStaged(p.update, p.base.(data := F.Apply(p.update, p.base.data))))
    case BodyRaises(i) => Released(s, i)
    case BeginCopy(i) =>
      var p := Pc(s, i);
      Moved(s, i, Copying(p.update, p.base, s.main)).(previous := TORN)
    case EndCopy(i) => var p := Pc(s, i); Moved(s, i, HasCopied(p.update, p.base)).(previous := p.source)
    case Rename(i) =>
      var p := Pc(s, i);
      var version := p.base.(commits := p.base.commits + [|s.log|]);
      Moved(s, i, HasRenamed).(main := Intact(version), log := s.log + [p.update])
    case Unlock(i) => Released(s, i)
    case Crash(i) => Released(s, i)
    case CorruptMain(damage) => s.(main := Other(damage))
    case CorruptPrevious(damage) => s.(previous := Other(damage))
  }

  ghost predicate IsPath(s: System, systems: seq<System>, steps: seq<Step>) {
    && |systems| == |steps| + 1 && systems[0] == s
    && forall n | 0 <= n < |steps| :: Enabled(systems[n], steps[n]) && systems[n + 1] == Next(systems[n], steps[n])
  }

  function ContentOf(file: F.File): Content {
    if file.Document? then Intact(Version(file.state, file.state, [])) else Other(file)
  }

  function Initial(start: F.Disk): System {
    System(ContentOf(start.main), ContentOf(start.previous), None, map[], [])
  }

  ghost predicate IsRun(start: F.Disk, systems: seq<System>, steps: seq<Step>) {
    IsPath(Initial(start), systems, steps)
  }

  predicate Uncorrupted(steps: seq<Step>) {
    forall n | 0 <= n < |steps| :: !Corrupts(steps[n])
  }

  lemma PathStep(s: System, systems: seq<System>, steps: seq<Step>, n: nat)
    requires IsPath(s, systems, steps) && n < |steps|
    ensures Enabled(systems[n], steps[n]) && systems[n + 1] == Next(systems[n], steps[n])
  {
  }

  /* Uninterrupted, the steps are one read */

  function DiskOf(s: System): F.Disk {
    F.Disk(FileOf(s.main), FileOf(s.previous))
  }

  /** The steps of one read, as far as it gets, with nothing in between. */
  function ReadAtOnce(s: System, i: nat): System
    requires Enabled(s, Look(i))
  {
    var looked := Next(s, Look(i));
    if !Pc(looked, i).SawBad? then looked else
    var validated := Next(looked, Validate(i));
    if !Pc(validated, i).Validated? then validated else
    var copied := Next(validated, CopyOut(i));
    if !Pc(copied, i).Copied? then copied else Next(copied, Replace(i))
  }

  /**
   Whatever both files hold: a read that nothing interrupts leaves them as one atomic read does. With the lock it
   goes on to its transaction with the state that the atomic read answers, and exactly if that answers one;
   otherwise the lock is let go of.
   */
  lemma RecoveryIsRead(s: System, i: nat)
    requires Enabled(s, Look(i)) && (Pc(s, i).Holding? ==> s.holder == Some(i))
    ensures var s' := ReadAtOnce(s, i); var (answer, disk) := F.Read(DiskOf(s));
      && DiskOf(s') == disk && s'.log == s.log && (forall j: nat | j != i :: Pc(s', j) == Pc(s, j))
      && (Pc(s, i).Outside? ==> Pc(s', i).Outside?)
      && (Pc(s, i).Holding? ==>
            if answer.Loaded? then
              Pc(s', i).HasRead? && Pc(s', i).base.data == answer.state && Pc(s', i).update == Pc(s, i).update
              && s'.holder == Some(i)
            else Pc(s', i).Outside? && s'.holder == None)
  {
  }

  /** With the lock, a malformed file leads to a transaction exactly if its recovery copy is valid. */
  lemma MalformedIsMendedExactly(s: System, i: nat)
    requires Pc(s, i).Holding? && s.holder == Some(i) && FileOf(s.main) == F.Malformed
    ensures var s' := ReadAtOnce(s, i);
      && (Pc(s', i).HasRead? <==> s.previous.Intact?)
      && (s.previous.Intact? ==> s'.main == s.previous == s'.previous && Pc(s', i).base == s.previous.version)
      && (!s.previous.Intact? ==> s'.main == s.main && s'.previous == s.previous && s'.holder == None)
  {
    RecoveryIsRead(s, i);
    F.AnsweredExactly(DiskOf(s));
  }

  /** The steps of one write, with nothing in between. */
  function WriteAtOnce(s: System, i: nat): System
    requires Pc(s, i).HasRead?
  {
    var staged := Next(s, Stage(i));
    if staged.main == GONE then Next(staged, Rename(i))
    else Next(Next(Next(staged, BeginCopy(i)), EndCopy(i)), Rename(i))
  }

  /** A write that nothing interrupts replaces the file, and keeps the old one as recovery copy. */
  lemma WriteIsWrite(s: System, i: nat)
    requires Pc(s, i).HasRead?
    ensures var p, s' := Pc(s, i), WriteAtOnce(s, i);
      && FileOf(s'.main) == F.Document(F.Apply(p.update, p.base.data))
      && FileOf(s'.previous) == (if s.main == GONE then FileOf(s.previous) else FileOf(s.main))
      && s'.log == s.log + [p.update] && Pc(s', i).HasRenamed? && s'.holder == s.holder
  {
  }

  /* What every run keeps */

  predicate Locked(p: Process) {
    match p
    case Outside => false
    case Waiting(_) => false
    case SawBad(job) => job.Some?
    case Validated(job, _) => job.Some?
    case Copied(job, _, _) => job.Some?
    case _ => true
  }

  /** A reader without the lock has found the file corrupt and has not put its copy in place yet. */
  predicate Recovering(p: Process) {
    (p.SawBad? || p.Validated? || p.Copied?) && p.job.None?
  }

  ghost predicate Exclusive(s: System) {
    forall i: nat :: Locked(Pc(s, i)) <==> s.holder == Some(i)
  }

  predicate Within(commits: seq<nat>, size: nat) {
    forall a | 0 <= a < |commits| :: commits[a] < size
  }

  /** The updates at the given positions of the log, in that order. */
  function Replay(origin: F.Durable, log: seq<F.Update>, commits: seq<nat>): F.Durable
    requires Within(commits, |log|)
  {
    if commits == [] then origin
    else F.Apply(log[commits[|commits| - 1]], Replay(origin, log, commits[..|commits| - 1]))
  }

  predicate Increasing(commits: seq<nat>) {
    forall a, b | 0 <= a < b < |commits| :: commits[a] < commits[b]
  }

  ghost predicate VersionOk(log: seq<F.Update>, v: Version) {
    && Increasing(v.commits) && Within(v.commits, |log|)
    && v.data == Replay(v.origin, log, v.commits)
  }

  ghost predicate ContentOk(log: seq<F.Update>, c: Content) {
    c.Intact? ==> VersionOk(log, c.version)
  }

  /** A changed version is the fold of its commits and the update that is about to be committed. */
  ghost predicate ChangedOk(log: seq<F.Update>, u: F.Update, v: Version) {
    && Increasing(v.commits) && Within(v.commits, |log|)
    && v.data == F.Apply(u, Replay(v.origin, log, v.commits))
  }

  ghost predicate ProcessOk(log: seq<F.Update>, p: Process) {
    match p
    case Validated(_, v) => VersionOk(log, v)
    case Copied(_, v, t) => VersionOk(log, v) && ContentOk(log, t)
    case HasRead(_, v) => VersionOk(log, v)
    case HasStaged(u, v) => ChangedOk(log, u, v)
    case Copying(u, v, c) => ChangedOk(log, u, v) && ContentOk(log, c)
    case HasCopied(u, v) => ChangedOk(log, u, v)
    case _ => true
  }

  ghost predicate VersionsOk(s: System) {
    && ContentOk(s.log, s.main) && ContentOk(s.log, s.previous)
    && forall i: nat :: ProcessOk(s.log, Pc(s, i))
  }

  ghost predicate Sound(s: System) {
    Exclusive(s) && VersionsOk(s)
  }

  lemma StepKeepsExclusive(s: System, step: Step)
    requires Exclusive(s) && Enabled(s, step)
    ensures Exclusive(Next(s, step))
  {
    var s' := Next(s, step);
    forall j: nat ensures Locked(Pc(s', j)) <==> s'.holder == Some(j) {
      assert Locked(Pc(s, j)) <==> s.holder == Some(j);
      if !Corrupts(step) {
        assert Locked(Pc(s, step.i)) <==> s.holder == Some(step.i);
      }
    }
  }

  lemma {:induction false} ReplayInLongerLog(origin: F.Durable, log: seq<F.Update>, u: F.Update, commits: seq<nat>)
    requires Within(commits, |log|)
    ensures Replay(origin, log + [u], commits) == Replay(origin, log, commits)
    decreases |commits|
  {
    if commits != [] {
      ReplayInLongerLog(origin, log, u, commits[..|commits| - 1]);
    }
  }

  lemma ProcessInLongerLog(log: seq<F.Update>, u: F.Update, p: Process)
    requires ProcessOk(log, p)
    ensures ProcessOk(log + [u], p)
  {
    match p
    case Validated(_, v) => ReplayInLongerLog(v.origin, log, u, v.commits);
    case Copied(_, v, t) =>
      ReplayInLongerLog(v.origin, log, u, v.commits);
      ContentInLongerLog(log, u, t);
    case HasRead(_, v) => ReplayInLongerLog(v.origin, log, u, v.commits);
    case HasStaged(_, v) => ReplayInLongerLog(v.origin, log, u, v.commits);
    case Copying(_, v, c) =>
      ReplayInLongerLog(v.origin, log, u, v.commits);
      ContentInLongerLog(log, u, c);
    case HasCopied(_, v) => ReplayInLongerLog(v.origin, log, u, v.commits);
    case _ =>
  }

  lemma ContentInLongerLog(log: seq<F.Update>, u: F.Update, c: Content)
    requires ContentOk(log, c)
    ensures ContentOk(log + [u], c)
  {
    if c.Intact? {
      ReplayInLongerLog(c.version.origin, log, u, c.version.commits);
    }
  }

  lemma CommittedIsOk(log: seq<F.Update>, u: F.Update, v: Version)
    requires ChangedOk(log, u, v)
    ensures VersionOk(log + [u], v.(commits := v.commits + [|log|]))
  {
    var commits := v.commits + [|log|];
    assert commits[..|commits| - 1] == v.commits;
    ReplayInLongerLog(v.origin, log, u, v.commits);
  }

  lemma RenameKeepsVersions(s: System, i: nat)
    requires VersionsOk(s) && Enabled(s, Rename(i))
    ensures VersionsOk(Next(s, Rename(i)))
  {
    var s', p := Next(s, Rename(i)), Pc(s, i);
    assert ProcessOk(s.log, p);
    CommittedIsOk(s.log, p.update, p.base);
    ContentInLongerLog(s.log, p.update, s.previous);
    forall j: nat ensures ProcessOk(s'.log, Pc(s', j)) {
      if j != i {
        assert Pc(s', j) == Pc(s, j);
        ProcessInLongerLog(s.log, p.update, Pc(s, j));
      }
    }
  }

  lemma StepKeepsVersions(s: System, step: Step)
    requires VersionsOk(s) && Enabled(s, step)
    ensures VersionsOk(Next(s, step))
  {
    if step.Rename? {
      RenameKeepsVersions(s, step.i);
    } else {
      var s' := Next(s, step);
      assert !Corrupts(step) ==> ProcessOk(s.log, Pc(s, step.i));
      forall j: nat ensures ProcessOk(s'.log, Pc(s', j)) {
        assert ProcessOk(s.log, Pc(s, j));
      }
    }
  }

  lemma {:induction false} PathIsSound(s: System, systems: seq<System>, steps: seq<Step>, n: nat)
    requires Sound(s) && IsPath(s, systems, steps) && n <= |steps|
    ensures Sound(systems[n])
  {
    if n > 0 {
      PathIsSound(s, systems, steps, n - 1);
      PathStep(s, systems, steps, n - 1);
      StepKeepsExclusive(systems[n - 1], steps[n - 1]);
      StepKeepsVersions(systems[n - 1], steps[n - 1]);
    }
  }

  lemma InitialIsSound(start: F.Disk)
    ensures Sound(Initial(start))
  {
  }

  /**
   Whatever is corrupted, whoever recovers and wherever processes crash: a readable state file is the fold of
   the committed updates that it holds, each once and in the order of their commits.
   */
  lemma VersionsAreFolds(start: F.Disk, systems: seq<System>, steps: seq<Step>, n: nat)
    requires IsRun(start, systems, steps) && n <= |steps| && systems[n].main.Intact?
    ensures VersionOk(systems[n].log, systems[n].main.version)
  {
    InitialIsSound(start);
    PathIsSound(Initial(start), systems, steps, n);
  }

  /* When a committed update can be lost */

  /** Without another corruption, update `k` may yet vanish from the state file. */
  ghost predicate CanLose(s: System, k: nat) {
    exists systems, steps :: Loses(s, k, systems, steps)
  }

  ghost predicate Loses(s: System, k: nat, systems: seq<System>, steps: seq<Step>) {
    IsPath(s, systems, steps) && Uncorrupted(steps) && !Holds(systems[|steps|].main, k)
  }

  /**
   Process `i` may put a state without `k` in place: a reader without the lock, as soon as it has found the
   file corrupt, unless its copy holds `k` already; a process with the lock, if what it works on, or
   the recovery copy that it is about to use, does not hold `k`.
   */
  predicate Endangers(s: System, i: nat, k: nat) {
    match Pc(s, i)
    case SawBad(job) => job.Some? ==> s.previous.Intact? && !Holds(s.previous, k)
    case Validated(job, v) => job.Some? ==> s.previous != GONE && (k !in v.commits || !Holds(s.previous, k))
    case Copied(job, v, t) => !Holds(t, k) || (job.Some? && k !in v.commits)
    case HasRead(_, v) => k !in v.commits
    case HasStaged(_, v) => k !in v.commits
    case Copying(_, v, _) => k !in v.commits
    case HasCopied(_, v) => k !in v.commits
    case _ => false
  }

  ghost predicate Safe(s: System, k: nat) {
    Holds(s.main, k) && forall i: nat :: !Endangers(s, i, k)
  }

  lemma StepKeepsSafe(s: System, step: Step, k: nat)
    requires Exclusive(s) && Safe(s, k) && Enabled(s, step) && !Corrupts(step)
    ensures Safe(Next(s, step), k)
  {
    var s', i := Next(s, step), step.i;
    assert !Endangers(s, i, k);
    assert Locked(Pc(s, i)) <==> s.holder == Some(i);
    forall j: nat ensures !Endangers(s', j, k) {
      if j != i {
        assert Pc(s', j) == Pc(s, j) && !Endangers(s, j, k);
        assert Locked(Pc(s, j)) <==> s.holder == Some(j);
      }
    }
  }

  lemma {:induction false} SafePath(s: System, systems: seq<System>, steps: seq<Step>, k: nat, n: nat)
    requires Exclusive(s) && Safe(s, k) && IsPath(s, systems, steps) && Uncorrupted(steps) && n <= |steps|
    ensures Exclusive(systems[n]) && Safe(systems[n], k)
  {
    if n > 0 {
      SafePath(s, systems, steps, k, n - 1);
      PathStep(s, systems, steps, n - 1);
      StepKeepsSafe(systems[n - 1], steps[n - 1], k);
      StepKeepsExclusive(systems[n - 1], steps[n - 1]);
    }
  }

  lemma LoseNow(s: System, k: nat)
    requires !Holds(s.main, k)
    ensures CanLose(s, k)
  {
    assert Loses(s, k, [s], []);
  }

  /** What can be lost after a step can be lost before it. */
  lemma LoseAfter(s: System, step: Step, k: nat)
    requires Enabled(s, step) && !Corrupts(step) && CanLose(Next(s, step), k)
    ensures CanLose(s, k)
  {
    var systems, steps :| Loses(Next(s, step), k, systems, steps);
    var systems', steps' := [s] + systems, [step] + steps;
    forall n | 0 <= n < |steps'|
      ensures Enabled(systems'[n], steps'[n]) && systems'[n + 1] == Next(systems'[n], steps'[n])
    {
      if n > 0 {
        PathStep(Next(s, step), systems, steps, n - 1);
      }
    }
    assert Loses(s, k, systems', steps');
  }

  lemma LoseFromReplace(s: System, i: nat, k: nat)
    requires Pc(s, i).Copied? && !Holds(Pc(s, i).temporary, k)
    ensures CanLose(s, k)
  {
    LoseNow(Next(s, Replace(i)), k);
    LoseAfter(s, Replace(i), k);
  }

  lemma LoseFromCopied(s: System, i: nat, k: nat)
    requires Pc(s, i).HasCopied? && k !in Pc(s, i).base.commits && k < |s.log|
    ensures CanLose(s, k)
  {
    LoseNow(Next(s, Rename(i)), k);
    LoseAfter(s, Rename(i), k);
  }

  lemma LoseFromCopying(s: System, i: nat, k: nat)
    requires Pc(s, i).Copying? && k !in Pc(s, i).base.commits && k < |s.log|
    ensures CanLose(s, k)
  {
    LoseFromCopied(Next(s, EndCopy(i)), i, k);
    LoseAfter(s, EndCopy(i), k);
  }

  lemma LoseFromStaged(s: System, i: nat, k: nat)
    requires Pc(s, i).HasStaged? && k !in Pc(s, i).base.commits && k < |s.log|
    ensures CanLose(s, k)
  {
    if s.main == GONE {
      LoseNow(s, k);
    } else {
      LoseFromCopying(Next(s, BeginCopy(i)), i, k);
      LoseAfter(s, BeginCopy(i), k);
    }
  }

  lemma LoseFromRead(s: System, i: nat, k: nat)
    requires Pc(s, i).HasRead? && k !in Pc(s, i).base.commits && k < |s.log|
    ensures CanLose(s, k)
  {
    LoseFromStaged(Next(s, Stage(i)), i, k);
    LoseAfter(s, Stage(i), k);
  }

  lemma LoseFromCopiedOut(s: System, i: nat, k: nat)
    requires Pc(s, i).Copied? && k < |s.log|
    requires !Holds(Pc(s, i).temporary, k) || (Pc(s, i).job.Some? && k !in Pc(s, i).seen.commits)
    ensures CanLose(s, k)
  {
    if !Holds(Pc(s, i).temporary, k) {
      LoseFromReplace(s, i, k);
    } else {
      LoseFromRead(Next(s, Replace(i)), i, k);
      LoseAfter(s, Replace(i), k);
    }
  }

  /** The recovery copy does not hold `k`, or a process with the lock has validated a state without it. */
  lemma LoseFromValidated(s: System, i: nat, k: nat)
    requires Pc(s, i).Validated? && s.previous != GONE && k < |s.log|
    requires !Holds(s.previous, k) || (Pc(s, i).job.Some? && k !in Pc(s, i).seen.commits)
    ensures CanLose(s, k)
  {
    LoseFromCopiedOut(Next(s, CopyOut(i)), i, k);
    LoseAfter(s, CopyOut(i), k);
  }

  lemma LoseFromSawBad(s: System, i: nat, k: nat)
    requires Pc(s, i).SawBad? && s.previous.Intact? && !Holds(s.previous, k) && k < |s.log|
    ensures CanLose(s, k)
  {
    LoseFromValidated(Next(s, Validate(i)), i, k);
    LoseAfter(s, Validate(i), k);
  }

  const ANY := F.SetEnabled(map[])

  /** Process `w` gets as far as the middle of copying the main file. */
  function Tearing(s: System, w: nat): System
    requires s.main.Intact?
  {
    Moved(s, w, Copying(ANY, s.main.version.(data := F.Apply(ANY, s.main.version.data)), s.main))
    .(holder := Some(w), previous := TORN)
  }

  lemma LoseOnceCopying(s: System, w: nat, k: nat)
    requires s.main.Intact? && Pc(s, w) == HasRead(ANY, s.main.version) && s.holder == Some(w)
    requires CanLose(Tearing(s, w), k)
    ensures CanLose(s, k)
  {
    var s' := Next(s, Stage(w));
    assert Next(s', BeginCopy(w)) == Tearing(s, w);
    LoseAfter(s', BeginCopy(w), k);
    LoseAfter(s, Stage(w), k);
  }

  /** With the lock free, another process can start a transaction and tear the recovery copy for a while. */
  lemma LoseOnceTorn(s: System, w: nat, k: nat)
    requires s.holder == None && Pc(s, w).Outside? && s.main.Intact? && CanLose(Tearing(s, w), k)
    ensures CanLose(s, k)
  {
    var s1 := Next(s, Begin(w, ANY));
    var s2 := Next(s1, Acquire(w));
    var s3 := Next(s2, Look(w));
    assert Tearing(s3, w) == Tearing(s, w);
    LoseOnceCopying(s3, w, k);
    LoseAfter(s2, Look(w), k);
    LoseAfter(s1, Acquire(w), k);
    LoseAfter(s, Begin(w, ANY), k);
  }

  /** The lock is free and `w` is outside, once whoever is in the way has crashed. */
  function Cleared(s: System, w: nat): System {
    var s1 := Released(s, w);
    if s1.holder.Some? then Released(s1, s1.holder.value) else s1
  }

  lemma LoseOnceCleared(s: System, w: nat, k: nat)
    requires CanLose(Cleared(s, w), k)
    ensures CanLose(s, k)
  {
    var s1 := Next(s, Crash(w));
    if s1.holder.Some? {
      LoseAfter(s1, Crash(s1.holder.value), k);
    }
    LoseAfter(s, Crash(w), k);
  }

  /** Crashes of others leave a reader without the lock where it was. */
  lemma ClearedKeeps(s: System, i: nat)
    requires Exclusive(s) && Recovering(Pc(s, i))
    ensures var s' := Cleared(s, i + 1);
      && s'.holder == None && Pc(s', i + 1).Outside? && Pc(s', i) == Pc(s, i)
      && s'.main == s.main && s'.previous == s.previous && s'.log == s.log && Exclusive(s')
  {
    assert !Locked(Pc(s, i)) && s.holder != Some(i);
    StepKeepsExclusive(s, Crash(i + 1));
    var s1 := Next(s, Crash(i + 1));
    if s1.holder.Some? {
      StepKeepsExclusive(s1, Crash(s1.holder.value));
    }
  }

  lemma ReaderLosesFromValidated(s: System, i: nat, k: nat)
    requires Exclusive(s) && Recovering(Pc(s, i)) && Pc(s, i).Validated? && s.main.Intact? && k < |s.log|
    ensures CanLose(s, k)
  {
    if s.previous != GONE && !Holds(s.previous, k) {
      LoseFromValidated(s, i, k);
    } else {
      var s', w := Cleared(s, i + 1), i + 1;
      ClearedKeeps(s, i);
      LoseFromValidated(Tearing(s', w), i, k);
      LoseOnceTorn(s', w, k);
      LoseOnceCleared(s, w, k);
    }
  }

  lemma ReaderLosesFromSawBad(s: System, i: nat, k: nat)
    requires Exclusive(s) && Recovering(Pc(s, i)) && Pc(s, i).SawBad? && s.main.Intact? && k < |s.log|
    ensures CanLose(s, k)
  {
    if s.previous.Intact? {
      StepKeepsExclusive(s, Validate(i));
      ReaderLosesFromValidated(Next(s, Validate(i)), i, k);
      LoseAfter(s, Validate(i), k);
    } else {
      var s', w := Cleared(s, i + 1), i + 1;
      ClearedKeeps(s, i);
      ReaderLosesOnceCopied(s', i, w, k);
      LoseOnceCleared(s, w, k);
    }
  }

  /** Another transaction makes a valid recovery copy, which lets the reader go on. */
  lemma ReaderLosesOnceCopied(s: System, i: nat, w: nat, k: nat)
    requires Exclusive(s) && Recovering(Pc(s, i)) && Pc(s, i).SawBad? && s.main.Intact? && k < |s.log|
    requires s.holder == None && w != i && Pc(s, w).Outside?
    ensures CanLose(s, k)
  {
    var torn := Tearing(s, w);
    forall j: nat ensures Locked(Pc(torn, j)) <==> torn.holder == Some(j) {
      assert Locked(Pc(s, j)) <==> s.holder == Some(j);
    }
    var copied := Next(torn, EndCopy(w));
    StepKeepsExclusive(torn, EndCopy(w));
    StepKeepsExclusive(copied, Validate(i));
    ReaderLosesFromValidated(Next(copied, Validate(i)), i, k);
    LoseAfter(copied, Validate(i), k);
    LoseAfter(torn, EndCopy(w), k);
    LoseOnceTorn(s, w, k);
  }

  lemma EndangeredCanLose(s: System, i: nat, k: nat)
    requires Sound(s) && Holds(s.main, k) && Endangers(s, i, k)
    ensures CanLose(s, k)
  {
    assert k < |s.log|;
    match Pc(s, i)
    case SawBad(job) => if job.Some? { LoseFromSawBad(s, i, k); } else { ReaderLosesFromSawBad(s, i, k); }
    case Validated(job, _) => if job.Some? { LoseFromValidated(s, i, k); } else { ReaderLosesFromValidated(s, i, k); }
    case Copied(_, _, _) => LoseFromCopiedOut(s, i, k);
    case HasRead(_, _) => LoseFromRead(s, i, k);
    case HasStaged(_, _) => LoseFromStaged(s, i, k);
    case Copying(_, _, _) => LoseFromCopying(s, i, k);
    case HasCopied(_, _) => LoseFromCopied(s, i, k);
  }

  /**
   At any moment of any run: an update that the state file holds can vanish from it without another corruption
   exactly when some process endangers it.
   */
  lemma LostExactly(start: F.Disk, systems: seq<System>, steps: seq<Step>, n: nat, k: nat)
    requires IsRun(start, systems, steps) && n <= |steps| && Holds(systems[n].main, k)
    ensures CanLose(systems[n], k) <==> exists i: nat :: Endangers(systems[n], i, k)
  {
    var s := systems[n];
    InitialIsSound(start);
    PathIsSound(Initial(start), systems, steps, n);
    if i: nat :| Endangers(s, i, k) {
      EndangeredCanLose(s, i, k);
    } else {
      forall systems', steps' ensures !Loses(s, k, systems', steps') {
        if IsPath(s, systems', steps') && Uncorrupted(steps') {
          SafePath(s, systems', steps', k, |steps'|);
        }
      }
    }
  }

  /** After its rename an update is endangered exactly by the readers that recover without the lock. */
  lemma RenameIsEndangered(s: System, i: nat)
    requires Sound(s) && Enabled(s, Rename(i))
    ensures Holds(Next(s, Rename(i)).main, |s.log|)
    ensures (exists j: nat :: Endangers(Next(s, Rename(i)), j, |s.log|)) <==> exists j: nat :: Recovering(Pc(s, j))
  {
    var s', k := Next(s, Rename(i)), |s.log|;
    assert Locked(Pc(s, i)) && s.holder == Some(i);
    forall j: nat ensures Endangers(s', j, k) <==> Recovering(Pc(s, j)) {
      assert Locked(Pc(s, j)) <==> s.holder == Some(j);
      assert ProcessOk(s.log, Pc(s, j));
      if j != i {
        assert Pc(s', j) == Pc(s, j);
      }
    }
  }

  /**
   On every run: an update can be lost after its commit, without another corruption, exactly when at the commit
   some reader without the lock has found the file corrupt and has not put its copy in place yet.
   */
  lemma CommitIsSafeExactly(start: F.Disk, systems: seq<System>, steps: seq<Step>, n: nat)
    requires IsRun(start, systems, steps) && n < |steps| && steps[n].Rename?
    ensures CanLose(systems[n + 1], |systems[n].log|) <==> exists j: nat :: Recovering(Pc(systems[n], j))
  {
    InitialIsSound(start);
    PathIsSound(Initial(start), systems, steps, n);
    PathStep(Initial(start), systems, steps, n);
    RenameIsEndangered(systems[n], steps[n].i);
    LostExactly(start, systems, steps, n + 1, |systems[n].log|);
  }

  /** With nobody recovering without the lock at its commit, an update stays until the next corruption. */
  lemma CommitStays(start: F.Disk, systems: seq<System>, steps: seq<Step>, n: nat, m: nat)
    requires IsRun(start, systems, steps) && n < m <= |steps| && steps[n].Rename?
    requires forall j: nat :: !Recovering(Pc(systems[n], j))
    requires Uncorrupted(steps[n + 1..m])
    ensures Holds(systems[m].main, |systems[n].log|)
  {
    var s, rest, more := systems[n + 1], systems[n + 1..m + 1], steps[n + 1..m];
    InitialIsSound(start);
    PathIsSound(Initial(start), systems, steps, n);
    PathStep(Initial(start), systems, steps, n);
    RenameIsEndangered(systems[n], steps[n].i);
    StepKeepsExclusive(systems[n], steps[n]);
    forall a | 0 <= a < |more| ensures Enabled(rest[a], more[a]) && rest[a + 1] == Next(rest[a], more[a]) {
      PathStep(Initial(start), systems, steps, n + 1 + a);
    }
    SafePath(s, rest, more, |systems[n].log|, |more|);
  }

  /* Without corruption nothing is lost */

  predicate Mends(p: Process) {
    p.SawBad? || p.Validated? || p.Copied?
  }

  /** The file is readable, nobody mends it, and it holds every committed update for good. */
  ghost predicate Calm(s: System) {
    && (s.main.Intact? || (s.main == GONE && s.log == []))
    && (forall i: nat :: !Mends(Pc(s, i)))
    && forall k: nat | k < |s.log| :: Safe(s, k)
  }

  lemma StepKeepsCalm(s: System, step: Step)
    requires Sound(s) && Calm(s) && Enabled(s, step) && !Corrupts(step)
    ensures Calm(Next(s, step))
  {
    var s', i := Next(s, step), step.i;
    assert !Mends(Pc(s, i));
    forall j: nat ensures !Mends(Pc(s', j)) {
      assert !Mends(Pc(s, j));
    }
    forall k: nat | k < |s'.log| ensures Safe(s', k) {
      if k < |s.log| {
        StepKeepsSafe(s, step, k);
      } else {
        assert forall j: nat :: Recovering(Pc(s, j)) ==> Mends(Pc(s, j));
        RenameIsEndangered(s, i);
      }
    }
  }

  lemma {:induction false} UncorruptedRunIsCalm(start: F.Disk, systems: seq<System>, steps: seq<Step>, n: nat)
    requires IsRun(start, systems, steps) && (start.main.Absent? || start.main.Document?)
    requires n <= |steps| && Uncorrupted(steps[..n])
    ensures Calm(systems[n])
  {
    InitialIsSound(start);
    if n > 0 {
      assert steps[..n][..n - 1] == steps[..n - 1] && steps[..n][n - 1] == steps[n - 1];
      UncorruptedRunIsCalm(start, systems, steps, n - 1);
      PathIsSound(Initial(start), systems, steps, n - 1);
      PathStep(Initial(start), systems, steps, n - 1);
      StepKeepsCalm(systems[n - 1], steps[n - 1]);
    }
  }

  /** Up to the first corruption the state file holds every committed update, whatever crashes. */
  lemma NothingLostUncorrupted(start: F.Disk, systems: seq<System>, steps: seq<Step>, n: nat, k: nat)
    requires IsRun(start, systems, steps) && (start.main.Absent? || start.main.Document?)
    requires n <= |steps| && Uncorrupted(steps[..n]) && k < |systems[n].log|
    ensures Holds(systems[n].main, k)
  {
    UncorruptedRunIsCalm(start, systems, steps, n);
    assert Safe(systems[n], k);
  }

  /* A run in which an update committed after the corruption is undone */

  predicate OneCorruption(steps: seq<Step>) {
    steps != [] && steps[0] == CorruptMain(F.Malformed) && forall n | 0 < n < |steps| :: !Corrupts(steps[n])
  }

  /** A run leads to this state in which the first step, and no other, corrupts a file. */
  ghost predicate Reached(start: F.Disk, s: System) {
    exists systems, steps :: LeadsTo(start, systems, steps, s)
  }

  ghost predicate LeadsTo(start: F.Disk, systems: seq<System>, steps: seq<Step>, s: System) {
    IsRun(start, systems, steps) && systems[|steps|] == s && OneCorruption(steps)
  }

  lemma ReachCorrupted(start: F.Disk)
    ensures Reached(start, Initial(start).(main := TORN))
  {
    var s := Initial(start);
    assert LeadsTo(start, [s, s.(main := TORN)], [CorruptMain(F.Malformed)], s.(main := TORN));
  }

  lemma ReachNext(start: F.Disk, s: System, step: Step, s': System)
    requires Reached(start, s) && Enabled(s, step) && !Corrupts(step) && s' == Next(s, step)
    ensures Reached(start, s')
  {
    var systems, steps :| LeadsTo(start, systems, steps, s);
    var systems', steps' := systems + [s'], steps + [step];
    forall n | 0 <= n < |steps'|
      ensures Enabled(systems'[n], steps'[n]) && systems'[n + 1] == Next(systems'[n], steps'[n])
    {
      if n < |steps| {
        PathStep(Initial(start), systems, steps, n);
      }
    }
    assert LeadsTo(start, systems', steps', s');
  }

  /** A process that finds the file malformed gets as far as its own copy of the recovery copy. */
  lemma Mending(start: F.Disk, s: System, i: nat, job: Option<F.Update>, s': System)
    requires Reached(start, s) && s.main == TORN && s.previous.Intact?
    requires if job.Some? then Pc(s, i) == Holding(job.value) else Pc(s, i).Outside?
    requires s' == Moved(s, i, Copied(job, s.previous.version, s.previous))
    ensures Reached(start, s')
  {
    var saw, validated := Moved(s, i, SawBad(job)), Moved(s, i, Validated(job, s.previous.version));
    ReachNext(start, s, Look(i), saw);
    assert Next(saw, Validate(i)).processes == validated.processes;
    ReachNext(start, saw, Validate(i), validated);
    assert Next(validated, CopyOut(i)).processes == s'.processes;
    ReachNext(start, validated, CopyOut(i), s');
  }

  /** A transaction that finds the file malformed puts the recovery copy in place and works on it. */
  lemma Restoring(start: F.Disk, s: System, i: nat, u: F.Update, s': System)
    requires Reached(start, s) && s.main == TORN && s.previous.Intact? && s.holder == None && Pc(s, i).Outside?
    requires s' == Moved(s, i, HasRead(u, s.previous.version)).(main := s.previous, holder := Some(i))
    ensures Reached(start, s')
  {
    var waiting, holding := Moved(s, i, Waiting(u)), Moved(s, i, Holding(u)).(holder := Some(i));
    var mended := Moved(s, i, Copied(Some(u), s.previous.version, s.previous)).(holder := Some(i));
    ReachNext(start, s, Begin(i, u), waiting);
    assert Next(waiting, Acquire(i)).processes == holding.processes;
    ReachNext(start, waiting, Acquire(i), holding);
    assert Moved(holding, i, mended.processes[i]).processes == mended.processes;
    Mending(start, holding, i, Some(u), mended);
    assert Next(mended, Replace(i)).processes == s'.processes;
    ReachNext(start, mended, Replace(i), s');
  }

  /** A transaction goes on from what it has read until it has copied the main file. */
  lemma Saving(start: F.Disk, s: System, i: nat, u: F.Update, v: Version, s': System)
    requires Reached(start, s) && Pc(s, i) == HasRead(u, v) && s.main.Intact?
    requires s' == Moved(s, i, HasCopied(u, v.(data := F.Apply(u, v.data)))).(previous := s.main)
    ensures Reached(start, s')
  {
    var changed := v.(data := F.Apply(u, v.data));
    var staged := Moved(s, i, HasStaged(u, changed));
    var copying := Moved(s, i, Copying(u, changed, s.main)).(previous := TORN);
    ReachNext(start, s, Stage(i), staged);
    assert Next(staged, BeginCopy(i)).processes == copying.processes;
    ReachNext(start, staged, BeginCopy(i), copying);
    assert Next(copying, EndCopy(i)).processes == s'.processes;
    ReachNext(start, copying, EndCopy(i), s');
  }

  /** The transaction commits and lets go of the lock. */
  lemma Committing(start: F.Disk, s: System, i: nat, u: F.Update, v: Version, s': System)
    requires Reached(start, s) && Pc(s, i) == HasCopied(u, v) && s.holder == Some(i)
    requires s' == Moved(s, i, Outside).(main := Intact(v.(commits := v.commits + [|s.log|])), log := s.log + [u],
                                         holder := None)
    ensures Reached(start, s')
  {
    var renamed := Moved(s, i, HasRenamed).(main := s'.main, log := s'.log);
    ReachNext(start, s, Rename(i), renamed);
    assert Next(renamed, Unlock(i)).processes == s'.processes;
    ReachNext(start, renamed, Unlock(i), s');
  }

  lemma CommitUndone(start: F.Disk, saved: System, u: F.Update, v: Version, changed: Version)
      returns (committed: System, last: System)
    requires Reached(start, saved) && saved.holder == Some(1) && saved.log == [] && v.commits == changed.commits == []
    requires saved.processes == map[0 := Copied(None, v, Intact(v)), 1 := HasCopied(u, changed)]
    ensures Reached(start, committed) && Enabled(committed, Replace(0)) && last == Next(committed, Replace(0))
    ensures Reached(start, last) && committed.log == [u] && last.log == [u] && last.holder == None
    ensures FileOf(committed.main) == F.Document(changed.data) && Holds(committed.main, 0)
    ensures last.main == Intact(v) && forall i: nat :: Pc(last, i).Outside?
  {
    var version := changed.(commits := changed.commits + [|saved.log|]);
    assert version.commits == [0];
    committed := Moved(saved, 1, Outside).(main := Intact(version), log := saved.log + [u], holder := None);
    last := Next(committed, Replace(0));
    Committing(start, saved, 1, u, changed, committed);
    ReachNext(start, committed, Replace(0), last);
  }

  /**
   One corruption, one reader and one transaction, whatever update it makes: the transaction recovers and
   commits, and the reader, which had found the corruption too, then puts its older copy back. The next
   read returns the recovered state without the update, and nothing tells that it is missing.
   */
  lemma ReaderUndoesCommit(current: F.Durable, older: F.Durable, u: F.Update)
      returns (committed: System, last: System)
    ensures var start := F.Disk(F.Document(current), F.Document(older));
      Reached(start, committed) && Enabled(committed, Replace(0)) && last == Next(committed, Replace(0))
      && Reached(start, last)
    ensures committed.log == [u] && FileOf(committed.main) == F.Document(F.Apply(u, older)) && Holds(committed.main, 0)
    ensures last.log == [u] && FileOf(last.main) == F.Document(older) && !Holds(last.main, 0)
    ensures last.holder == None && forall i: nat :: Pc(last, i).Outside?
  {
    var start := F.Disk(F.Document(current), F.Document(older));
    var v := Version(older, older, []);
    var changed, reader := v.(data := F.Apply(u, older)), Copied(None, v, Intact(v));
    var torn := Initial(start).(main := TORN);
    var mended := torn.(processes := map[0 := reader]);
    var restored := mended.(main := Intact(v), holder := Some(1), processes := map[0 := reader, 1 := HasRead(u, v)]);
    var saved := restored.(processes := map[0 := reader, 1 := HasCopied(u, changed)]);
    ReachCorrupted(start);
    Mending(start, torn, 0, None, mended);
    Restoring(start, mended, 1, u, restored);
    Saving(start, restored, 1, u, v, saved);
    committed, last := CommitUndone(start, saved, u, v, changed);
  }
}
