/**
 The durable controller state: one file replaced atomically, a recovery copy
 beside it, and read-modify-write transactions under one lock. Any process may
 crash at any step; a write that a crash interrupts may leave a torn file.
 */
module StateFile {
  import opened Prelude

  datatype Durable = Durable(
    enabled: map<string, bool>,
    params: map<string, map<string, string>>,
    fingerprints: map<string, string>)

  const INITIAL := Durable(map[], map[], map[])

  /**
   What a state file may hold: a valid document; text that is no valid document;
   a document of another version; bytes that are no UTF-8 text.
   */
  datatype File = Absent | Document(state: Durable) | Malformed | WrongVersion | Undecodable

  datatype Disk = Disk(main: File, previous: File)

  /** Refused is the program's own exit with a message, Raised an uncaught decoding error. */
  datatype Reading = Loaded(state: Durable) | Refused | Raised

  /** `_read_state`, with the file it may restore. */
  function Read(d: Disk): (Reading, Disk) {
    match d.main
    case Absent => (Loaded(INITIAL), d)
    case Document(s) => (Loaded(s), d)
    case WrongVersion => (Refused, d)
    case Undecodable => (Raised, d)
    case Malformed =>
      match d.previous
      case Document(s) => (Loaded(s), d.(main := d.previous))
      case Undecodable => (Raised, d)
      case _ => (Refused, d)
  }

  /** An unreadable file is answered with a state exactly if it is malformed and its recovery copy is valid. */
  lemma AnsweredExactly(d: Disk)
    ensures d.main.Absent? ==> Read(d) == (Loaded(Durable(map[], map[], map[])), d)
    ensures d.main.Document? ==> Read(d) == (Loaded(d.main.state), d)
    ensures !d.main.Absent? && !d.main.Document? ==>
      && (Read(d).0.Loaded? <==> d.main.Malformed? && d.previous.Document?)
      && (Read(d).0.Loaded? ==> Read(d) == (Loaded(d.previous.state), Disk(d.previous, d.previous)))
      && (!Read(d).0.Loaded? ==> Read(d).1 == d)
  {
  }

  class StateStore {
    var main: File
    var previous: File

    function Contents(): Disk
      reads this
    {
      Disk(main, previous)
    }

    method ReadState() returns (result: Reading)
      modifies this
      ensures (result, Contents()) == Read(old(Contents()))
    {
      if main.Absent? {
        return Loaded(INITIAL);
      }
      if main.Document? {
        return Loaded(main.state);
      }
      if main.WrongVersion? {
        return Refused;
      }
      if main.Undecodable? {
        return Raised;
      }
      result := Recover();
    }

    /** Restores the previous document over a malformed one. */
    method Recover() returns (result: Reading)
      requires main.Malformed?
      modifies this
      ensures (result, Contents()) == Read(old(Contents()))
    {
      if previous.Undecodable? {
        return Raised;
      }
      if !previous.Document? {
        return Refused;
      }
      var temporary := previous;
      main := temporary;
      return Loaded(previous.state);
    }

    method WriteState(data: Durable)
      modifies this
      ensures main == Document(data)
      ensures previous == if old(main).Absent? then old(previous) else old(main)
    {
      var temporary := Document(data);
      if !main.Absent? {
        previous := main;
      }
      main := temporary;
    }
  }

  /* Transactions */

  datatype Update =
    | SetEnabled(enabled: map<string, bool>)
    | SetParams(params: map<string, map<string, string>>)
    | SetFingerprint(name: string, fingerprint: string)

  function Apply(u: Update, s: Durable): Durable {
    match u
    case SetEnabled(e) => s.(enabled := e)
    case SetParams(p) => s.(params := p)
    case SetFingerprint(n, f) => s.(fingerprints := s.fingerprints[n := f])
  }

  function Fold(s: Durable, log: seq<Update>): Durable {
    if log == [] then s else Apply(log[|log| - 1], Fold(s, log[..|log| - 1]))
  }

  /**
   A process is outside, waits for the lock, holds it, has read the state, has changed
   it in memory, has written its temporary file, has copied the main file to the recovery
   copy, or has renamed its temporary file over the main one.
   */
  datatype Process =
    | Outside
    | Waiting(update: Update)
    | Holding(update: Update)
    | HasRead(update: Update, data: Durable)
    | HasChanged(update: Update, data: Durable)
    | HasStaged(update: Update, data: Durable)
    | HasCopied(update: Update, data: Durable)
    | HasRenamed

  /** How far a crashing process got with the copy it was about to make. */
  datatype CopyAtCrash = NotBegun | Torn | Complete

  datatype Step =
    | Begin(i: nat, update: Update)
    | Acquire(i: nat)
    | Load(i: nat)
    | RunBody(i: nat)
    | BodyRaises(i: nat)
    | Stage(i: nat)
    | CopyMain(i: nat)
    | Rename(i: nat)
    | Unlock(i: nat)
    | Crash(i: nat, copy: CopyAtCrash)

  /** What the recovery copy holds since the last rename. */
  datatype Backup = Fresh | Overwritten | Broken

  /** `log` lists the updates whose rename took place; `backup` is bookkeeping for the statements below. */
  datatype System = System(disk: Disk, holder: Option<nat>, processes: map<nat, Process>, log: seq<Update>,
    backup: Backup)

  function Pc(s: System, i: nat): Process {
    if i in s.processes then s.processes[i] else Outside
  }

  predicate HoldsLock(p: Process) {
    !p.Outside? && !p.Waiting?
  }

  predicate Enabled(s: System, step: Step) {
    match step
    case Begin(i, _) => Pc(s, i).Outside?
    case Acquire(i) => Pc(s, i).Waiting? && s.holder == None
    case Load(i) => Pc(s, i).Holding? && Read(s.disk).0.Loaded?
    case RunBody(i) => Pc(s, i).HasRead?
    case BodyRaises(i) => Pc(s, i).HasRead?
    case Stage(i) => Pc(s, i).HasChanged?
    case CopyMain(i) => Pc(s, i).HasStaged? && !s.disk.main.Absent?
    case Rename(i) => Pc(s, i).HasCopied? || (Pc(s, i).HasStaged? && s.disk.main.Absent?)
    case Unlock(i) => Pc(s, i).HasRenamed?
    case Crash(i, copy) => copy.NotBegun? || (Pc(s, i).HasStaged? && !s.disk.main.Absent?)
  }

  function Moved(s: System, i: nat, p: Process): System {
    s.(processes := s.processes[i := p])
  }

  function Released(s: System, i: nat): System {
    Moved(s, i, Outside).(holder := if s.holder == Some(i) then None else s.holder)
  }

  function Next(s: System, step: Step): System
    requires Enabled(s, step)
  {
    match step
    case Begin(i, u) => Moved(s, i, Waiting(u))
    case Acquire(i) => Moved(s, i, Holding(Pc(s, i).update)).(holder := Some(i))
    case Load(i) =>
      var (r, disk) := Read(s.disk);
      Moved(s, i, HasRead(Pc(s, i).update, r.state)).(disk := disk)
    case RunBody(i) => var p := Pc(s, i); Moved(s, i, HasChanged(p.update, Apply(p.update, p.data)))
    case BodyRaises(i) => Released(s, i)
    case Stage(i) => var p := Pc(s, i); Moved(s, i, HasStaged(p.update, p.data))
    case CopyMain(i) =>
      var p := Pc(s, i);
      Moved(s, i, HasCopied(p.update, p.data)).(disk := s.disk.(previous := s.disk.main), backup := Overwritten)
    case Rename(i) =>
      var p := Pc(s, i);
      Moved(s, i, HasRenamed).(disk := s.disk.(main := Document(p.data)), log := s.log + [p.update], backup := Fresh)
    case Unlock(i) => Released(s, i)
    case Crash(i, copy) =>
      var r := Released(s, i);
      match copy
      case NotBegun => r
      case Torn => r.(disk := s.disk.(previous := Malformed), backup := Broken)
      case Complete => r.(disk := s.disk.(previous := s.disk.main), backup := Overwritten)
  }

  /** A run from a disk whose main file is absent or a valid document. */
  ghost predicate IsRun(start: Disk, systems: seq<System>, steps: seq<Step>) {
    && (start.main.Absent? || start.main.Document?)
    && |systems| == |steps| + 1
    && systems[0] == System(start, None, map[], [], Fresh)
    && forall n | 0 <= n < |steps| :: Enabled(systems[n], steps[n]) && systems[n + 1] == Next(systems[n], steps[n])
  }

  function Original(start: Disk): Durable {
    if start.main.Document? then start.main.state else INITIAL
  }

  /** The main file is the fold of the logged updates over the original state. */
  predicate MainIsFold(start: Disk, s: System) {
    s.disk.main == if s.log == [] then start.main else Document(Fold(Original(start), s.log))
  }

  /** The one process inside the critical section works on the state as the log has it. */
  ghost predicate ProcessesOk(start: Disk, s: System) {
    && (forall i: nat :: HoldsLock(Pc(s, i)) <==> s.holder == Some(i))
    && forall i: nat :: ProcessOk(start, s, Pc(s, i))
  }

  predicate ProcessOk(start: Disk, s: System, p: Process) {
    match p
    case HasRead(u, data) => data == Fold(Original(start), s.log)
    case HasChanged(u, data) => data == Apply(u, Fold(Original(start), s.log))
    case HasStaged(u, data) => data == Apply(u, Fold(Original(start), s.log))
    case HasCopied(u, data) => data == Apply(u, Fold(Original(start), s.log)) && s.backup.Overwritten? &&
      !s.disk.main.Absent?
    case _ => true
  }

  /** What the recovery copy holds, by what happened since the last rename. */
  predicate BackupOk(start: Disk, s: System) {
    match s.backup
    case Broken => s.disk.previous == Malformed && !s.disk.main.Absent?
    case Overwritten => s.disk.previous == s.disk.main && !s.disk.main.Absent?
    case Fresh =>
      if s.log == [] || (|s.log| == 1 && start.main.Absent?) then s.disk.previous == start.previous
      else s.disk.previous == Document(Fold(Original(start), s.log[..|s.log| - 1]))
  }

  ghost predicate Sound(start: Disk, s: System) {
    && (start.main.Absent? || start.main.Document?)
    && MainIsFold(start, s) && ProcessesOk(start, s) && BackupOk(start, s)
  }

  /** Only one process can be inside, so a change made inside concerns no other process. */
  lemma OthersStayOk(start: Disk, s: System, s': System, i: nat)
    requires ProcessesOk(start, s) && s.holder == Some(i)
    requires s'.processes == s.processes[i := Pc(s', i)]
    requires s'.holder == if HoldsLock(Pc(s', i)) then Some(i) else None
    requires ProcessOk(start, s', Pc(s', i))
    ensures ProcessesOk(start, s')
  {
    forall j: nat ensures ProcessOk(start, s', Pc(s', j)) && (HoldsLock(Pc(s', j)) <==> s'.holder == Some(j)) {
      if j != i {
        assert Pc(s', j) == Pc(s, j);
        assert HoldsLock(Pc(s, j)) <==> s.holder == Some(j);
      }
    }
  }

  /** A step of a process that leaves disk, log and recovery copy alone. */
  lemma QuietStepIsSound(start: Disk, s: System, s': System, i: nat)
    requires Sound(start, s)
    requires s'.disk == s.disk && s'.log == s.log && s'.backup == s.backup
    requires s'.processes == s.processes[i := Pc(s', i)]
    requires s'.holder == if HoldsLock(Pc(s', i)) then Some(i) else if s.holder == Some(i) then None else s.holder
    requires HoldsLock(Pc(s', i)) ==> s.holder == None || s.holder == Some(i)
    requires ProcessOk(start, s', Pc(s', i))
    ensures Sound(start, s')
  {
    forall j: nat ensures ProcessOk(start, s', Pc(s', j)) && (HoldsLock(Pc(s', j)) <==> s'.holder == Some(j)) {
      if j != i {
        assert Pc(s', j) == Pc(s, j) && ProcessOk(start, s, Pc(s, j));
        assert HoldsLock(Pc(s, j)) <==> s.holder == Some(j);
      }
    }
  }

  lemma RenameIsSound(start: Disk, s: System, i: nat)
    requires Sound(start, s) && Enabled(s, Rename(i))
    ensures Sound(start, Next(s, Rename(i)))
  {
    var s' := Next(s, Rename(i));
    assert HoldsLock(Pc(s, i)) && ProcessOk(start, s, Pc(s, i));
    OthersStayOk(start, s, s', i);
    assert s'.log[..|s'.log| - 1] == s.log;
  }

  lemma CopyIsSound(start: Disk, s: System, i: nat)
    requires Sound(start, s) && Enabled(s, CopyMain(i))
    ensures Sound(start, Next(s, CopyMain(i)))
  {
    assert HoldsLock(Pc(s, i)) && ProcessOk(start, s, Pc(s, i));
    OthersStayOk(start, s, Next(s, CopyMain(i)), i);
  }

  lemma CrashIsSound(start: Disk, s: System, i: nat, copy: CopyAtCrash)
    requires Sound(start, s) && Enabled(s, Crash(i, copy))
    ensures Sound(start, Next(s, Crash(i, copy)))
  {
    var s' := Next(s, Crash(i, copy));
    if copy.NotBegun? {
      QuietStepIsSound(start, s, s', i);
    } else {
      assert HoldsLock(Pc(s, i));
      OthersStayOk(start, s, s', i);
    }
  }

  lemma StepIsSound(start: Disk, s: System, step: Step)
    requires Sound(start, s) && Enabled(s, step)
    ensures Sound(start, Next(s, step))
  {
    match step
    case Rename(i) => RenameIsSound(start, s, i);
    case CopyMain(i) => CopyIsSound(start, s, i);
    case Crash(i, copy) => CrashIsSound(start, s, i, copy);
    case Begin(i, _) => QuietStepIsSound(start, s, Next(s, step), i);
    case Acquire(i) => QuietStepIsSound(start, s, Next(s, step), i);
    case Load(i) =>
      assert HoldsLock(Pc(s, i));
      QuietStepIsSound(start, s, Next(s, step), i);
    case _ =>
      var i := step.i;
      assert HoldsLock(Pc(s, i)) && ProcessOk(start, s, Pc(s, i));
      QuietStepIsSound(start, s, Next(s, step), i);
  }

  lemma {:induction false} RunIsSound(start: Disk, systems: seq<System>, steps: seq<Step>, n: nat)
    requires IsRun(start, systems, steps) && n <= |steps|
    ensures Sound(start, systems[n])
  {
    if n > 0 {
      RunIsSound(start, systems, steps, n - 1);
      assert Enabled(systems[n - 1], steps[n - 1]) && systems[n] == Next(systems[n - 1], steps[n - 1]);
      StepIsSound(start, systems[n - 1], steps[n - 1]);
    }
  }

  /* What the guarantees are */

  /**
   At every moment of every run, with any crashes, the state file reads as the updates
   whose rename took place, applied in lock order: no update is lost, torn or half applied.
   A reader needs no lock, and reading changes nothing on the disk.
   */
  lemma ReadsAreLinearizable(start: Disk, systems: seq<System>, steps: seq<Step>, n: nat)
    requires IsRun(start, systems, steps) && n <= |steps|
    ensures Read(systems[n].disk) == (Loaded(Fold(Original(start), systems[n].log)), systems[n].disk)
  {
    RunIsSound(start, systems, steps, n);
  }

  /** A crash at any step leaves the state that was there, or, once renamed, the new one: never a mixture. */
  lemma CrashLeavesOldOrNew(start: Disk, systems: seq<System>, steps: seq<Step>, n: nat, i: nat, copy: CopyAtCrash)
    requires IsRun(start, systems, steps) && n <= |steps| && Enabled(systems[n], Crash(i, copy))
    ensures Read(Next(systems[n], Crash(i, copy)).disk).0 == Loaded(Fold(Original(start), systems[n].log))
    ensures Next(systems[n], Crash(i, copy)).log == systems[n].log
  {
    RunIsSound(start, systems, steps, n);
    CrashIsSound(start, systems[n], i, copy);
  }

  /** A step that is no rename leaves the file and the log alone. */
  lemma OnlyRenamesWrite(s: System, step: Step)
    requires Enabled(s, step) && (s.disk.main.Absent? || s.disk.main.Document?)
    ensures !step.Rename? ==> Next(s, step).disk.main == s.disk.main && Next(s, step).log == s.log
    ensures step.Rename? ==> Next(s, step).log == s.log + [Pc(s, step.i).update]
  {
  }

  /** The updates of the renames among the first `n` steps. */
  function Renamed(systems: seq<System>, steps: seq<Step>, n: nat): seq<Update>
    requires n <= |steps| <= |systems| && forall i | 0 <= i < |steps| :: Enabled(systems[i], steps[i])
  {
    if n == 0 then []
    else
      var before := Renamed(systems, steps, n - 1);
      if steps[n - 1].Rename? then before + [Pc(systems[n - 1], steps[n - 1].i).update] else before
  }

  /** The log is the renames, in their order, and nothing else. */
  lemma {:induction false} LogIsRenames(start: Disk, systems: seq<System>, steps: seq<Step>, n: nat)
    requires IsRun(start, systems, steps) && n <= |steps|
    ensures systems[n].log == Renamed(systems, steps, n)
  {
    if n > 0 {
      LogIsRenames(start, systems, steps, n - 1);
      assert Enabled(systems[n - 1], steps[n - 1]) && systems[n] == Next(systems[n - 1], steps[n - 1]);
      RunIsSound(start, systems, steps, n - 1);
      OnlyRenamesWrite(systems[n - 1], steps[n - 1]);
    }
  }

  predicate IsReading(p: Process) {
    p.Holding? || p.HasRead?
  }

  lemma ReadingStepWritesNothing(start: Disk, s: System, step: Step, i: nat)
    requires Sound(start, s) && Enabled(s, step) && step != Acquire(i)
    ensures IsReading(Pc(Next(s, step), i)) ==> IsReading(Pc(s, i))
    ensures IsReading(Pc(s, i)) && (IsReading(Pc(Next(s, step), i)) || step == BodyRaises(i)) ==>
      Next(s, step).disk == s.disk && Next(s, step).log == s.log
  {
    assert HoldsLock(Pc(s, i)) <==> s.holder == Some(i);
    assert HoldsLock(Pc(s, step.i)) <==> s.holder == Some(step.i);
  }

  /**
   A transaction whose body raises leaves no trace: from taking the lock to letting go of it
   neither the disk nor the log changes, whatever all the other processes do or crash at meanwhile.
   */
  lemma RaisingTransactionWritesNothing(
      start: Disk, systems: seq<System>, steps: seq<Step>, a: nat, b: nat, i: nat)
    requires IsRun(start, systems, steps) && a < b < |steps|
    requires steps[a] == Acquire(i) && steps[b] == BodyRaises(i)
    requires forall j | a < j < b :: steps[j] != Acquire(i)
    ensures systems[b + 1].disk == systems[a].disk && systems[b + 1].log == systems[a].log
  {
    assert Enabled(systems[b], steps[b]) && systems[b + 1] == Next(systems[b], steps[b]);
    ReadingAllAlong(start, systems, steps, a, b, i, b);
    RunIsSound(start, systems, steps, b);
    ReadingStepWritesNothing(start, systems[b], steps[b], i);
  }

  predicate SameFiles(s: System, s': System) {
    s.disk == s'.disk && s.log == s'.log
  }

  lemma AcquireInRun(start: Disk, systems: seq<System>, steps: seq<Step>, k: nat, i: nat)
    requires IsRun(start, systems, steps) && k < |steps| && steps[k] == Acquire(i)
    ensures SameFiles(systems[k + 1], systems[k])
  {
    assert Enabled(systems[k], steps[k]) && systems[k + 1] == Next(systems[k], steps[k]);
  }

  lemma ReadingInRun(start: Disk, systems: seq<System>, steps: seq<Step>, k: nat, i: nat)
    requires IsRun(start, systems, steps) && k < |steps| && steps[k] != Acquire(i)
    requires IsReading(Pc(systems[k + 1], i))
    ensures IsReading(Pc(systems[k], i)) && SameFiles(systems[k + 1], systems[k])
  {
    assert Enabled(systems[k], steps[k]) && systems[k + 1] == Next(systems[k], steps[k]);
    RunIsSound(start, systems, steps, k);
    ReadingStepWritesNothing(start, systems[k], steps[k], i);
  }

  lemma {:induction false} ReadingAllAlong(
      start: Disk, systems: seq<System>, steps: seq<Step>, a: nat, b: nat, i: nat, k: nat)
    requires IsRun(start, systems, steps) && a < k <= b < |steps|
    requires steps[a] == Acquire(i) && forall j | a < j < b :: steps[j] != Acquire(i)
    requires IsReading(Pc(systems[k], i))
    ensures SameFiles(systems[k], systems[a])
  {
    if k == a + 1 {
      AcquireInRun(start, systems, steps, a, i);
    } else {
      ReadingInRun(start, systems, steps, k - 1, i);
      ReadingAllAlong(start, systems, steps, a, b, i, k - 1);
    }
  }

  /* Fingerprints */

  function FingerprintUpdates(log: seq<Update>): seq<Update> {
    if log == [] then []
    else
      var before := FingerprintUpdates(log[..|log| - 1]);
      if log[|log| - 1].SetFingerprint? then before + [log[|log| - 1]] else before
  }

  /** The fingerprints are the fold of the fingerprint updates alone; the others leave them untouched. */
  lemma {:induction false} FingerprintsFold(s: Durable, log: seq<Update>)
    ensures Fold(s, log).fingerprints == Fold(s, FingerprintUpdates(log)).fingerprints
    decreases |log|
  {
    if log != [] {
      var init, last := log[..|log| - 1], log[|log| - 1];
      FingerprintsFold(s, init);
      if last.SetFingerprint? {
        var u := FingerprintUpdates(init);
        assert (u + [last])[..|u|] == u;
      }
    }
  }

  /** Each name has the fingerprint of the last update for it. */
  lemma {:induction false} LastFingerprintWins(s: Durable, log: seq<Update>, name: string, k: nat)
    requires k < |log| && log[k].SetFingerprint? && log[k].name == name
    requires forall j | k < j < |log| :: !(log[j].SetFingerprint? && log[j].name == name)
    ensures name in Fold(s, log).fingerprints && Fold(s, log).fingerprints[name] == log[k].fingerprint
    decreases |log|
  {
    if k < |log| - 1 {
      LastFingerprintWins(s, log[..|log| - 1], name, k);
    }
  }

  /** A name without an update keeps the original fingerprint, or has none. */
  lemma {:induction false} UntouchedFingerprintStays(s: Durable, log: seq<Update>, name: string)
    requires forall j | 0 <= j < |log| :: !(log[j].SetFingerprint? && log[j].name == name)
    ensures name in Fold(s, log).fingerprints <==> name in s.fingerprints
    ensures name in s.fingerprints ==> Fold(s, log).fingerprints[name] == s.fingerprints[name]
    decreases |log|
  {
    if log != [] {
      UntouchedFingerprintStays(s, log[..|log| - 1], name);
    }
  }

  /** Enabling and parameters are those of the last transaction that saved them. */
  lemma {:induction false} LastSaveWins(s: Durable, log: seq<Update>, k: nat)
    requires k < |log|
    ensures log[k].SetEnabled? && (forall j | k < j < |log| :: !log[j].SetEnabled?) ==>
      Fold(s, log).enabled == log[k].enabled
    ensures log[k].SetParams? && (forall j | k < j < |log| :: !log[j].SetParams?) ==>
      Fold(s, log).params == log[k].params
    decreases |log|
  {
    if k < |log| - 1 {
      var init := log[..|log| - 1];
      LastSaveWins(s, init, k);
      assert forall j | k < j < |init| :: init[j] == log[j];
    }
  }

  /* Corruption */

  /**
   At a moment of a run at which two states have been committed, the main file turns into `damage`.
   It is read back as the state before the last write exactly when the damage is malformed text
   and no later attempt has got as far as copying. After a later complete copy even the last
   write itself is read back; after a torn copy, or any other damage, nothing is. A file that is
   gone reads as the empty state, whatever the recovery copy beside it holds, and stays gone.
   */
  lemma CorruptionIsRecoveredExactly(start: Disk, systems: seq<System>, steps: seq<Step>, n: nat, damage: File)
    requires IsRun(start, systems, steps) && n <= |steps| && !damage.Document?
    requires var s := systems[n]; |s.log| >= 2 || (|s.log| == 1 && start.main.Document?)
    ensures var s := systems[n];
      Read(s.disk.(main := damage)).0 ==
        if damage.Absent? then Loaded(INITIAL)
        else if damage.Undecodable? then Raised
        else if damage.WrongVersion? || s.backup.Broken? then Refused
        else if s.backup.Fresh? then Loaded(Fold(Original(start), s.log[..|s.log| - 1]))
        else Loaded(Fold(Original(start), s.log))
    ensures var s := systems[n]; var (r, disk) := Read(s.disk.(main := damage));
      disk.previous == s.disk.previous
      && disk.main == if r.Loaded? && !damage.Absent? then Document(r.state) else damage
  {
    RunIsSound(start, systems, steps, n);
  }
}
