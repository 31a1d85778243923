/** Crash safety of the wallet file: one process at a time saves, re-keys, quarantines, shreds
    and unlocks, each write being the step sequence of `write_atomic_impl`
    (crates/cc-wallet-storage/src/atomic.rs); any step may fail, the process may die and the power
    may go at any moment. Directory operations reach the disk in order; what a power cut leaves is
    some directory state since the last directory sync, with unsynced files possibly torn. */
module VaultCrash {
  import opened Wrappers
  import opened Bytes
  import opened Vault

  /** A directory state and the files in it whose bytes were not yet synced. */
  datatype Snapshot = Snapshot(dir: Directory, unsynced: set<Name>)

  /** A torn file may be anything that does not open. */
  ghost predicate PowerCut(sn: Snapshot, d: Directory) {
    && d.Keys == sn.dir.Keys
    && forall n :: n in d ==> d[n] == sn.dir[n] || (n in sn.unsynced && d[n].Damaged?)
  }

  datatype Purpose = Save | Promote(source: Name) | Quarantine

  datatype Phase = Begin | Created | Written | Synced | Renamed | Durable

  /** One atomic write in progress. */
  datatype Task = Task(purpose: Purpose, target: Name, temp: Name, file: File, phase: Phase)

  /** The live process: none, a writer at rest, a writer in a write, or one that gave up. */
  datatype Process = Off | Idle(base: Option<File>) | Busy(base: Option<File>, task: Task) | Unhealthy

  /** `history` holds the directory states since the last directory sync, newest last. `receipt` is
      the save of the last consumed receipt, `attempts` the saves started since. */
  datatype World = World(history: seq<Snapshot>, process: Process, receipt: Option<File>, attempts: set<File>)
  {
    function Now(): Directory
      requires history != []
    {
      history[|history| - 1].dir
    }

    /** The files whose bytes are not synced now. */
    function Loose(): set<Name>
      requires history != []
    {
      history[|history| - 1].unsynced
    }

    /** The directory changes; nothing is durable until the next directory sync. */
    function Change(d: Directory, unsynced: set<Name>): World {
      this.(history := history + [Snapshot(d, unsynced)])
    }

    /** The directory is synced: only its present state can be found again. */
    function SyncDirectory(): World
      requires history != []
    {
      this.(history := [history[|history| - 1]])
    }

    function With(p: Process): World {
      this.(process := p)
    }
  }

  const INITIAL := World([Snapshot(map[], {})], Off, None, {})

  // ----- the steps -----

  ghost predicate SlotUnused(d: Directory, slot: Keyslot) {
    forall n :: n in d ==> d[n].Slot() != Some(slot)
  }

  /** A fresh writer starts only beside no wallet file and no recovery candidates. */
  ghost predicate StartFresh(w: World, w': World) {
    w.history != [] && (w.process.Off? || w.process.Unhealthy?) && w.Now() == map[] && w' == w.With(Idle(None))
  }

  /** `prepare`: the next counter, under the same keyslot or a fresh one; refused if the installed
      file is not the committed one, or if a first save would not be the first file. */
  ghost predicate StartSave(w: World, file: File, temp: Name, w': World) {
    && w.history != [] && w.process.Idle? && file.Container? && temp.Temp? && temp !in w.Now()
    && (match w.process.base
        case None => w.Now() == map[] && file.counter == 1
        case Some(base) =>
          && Main in w.Now() && w.Now()[Main] == base && base.Container?
          && file.counter == base.counter + 1
          && (file.keyslot == base.keyslot || SlotUnused(w.Now(), file.keyslot)))
    && w' == w.(process := Busy(w.process.base, Task(Save, Main, temp, file, Begin)), attempts := w.attempts + {file})
  }

  /** `unlock`: the newest eligible save; the main file itself wins ties and needs no promotion. */
  ghost predicate StartUnlock(w: World, password: nat, winner: Name, temp: Name, w': World) {
    && w.history != [] && (w.process.Off? || w.process.Unhealthy?) && temp.Temp? && temp !in w.Now()
    && Unlockable(w.Now(), password) && Newest(w.Now(), password, winner)
    && (Main in w.Now() && Newest(w.Now(), password, Main) ==> winner == Main)
    && w' == w.With(if winner == Main then Idle(Some(w.Now()[Main]))
                    else Busy(None, Task(Promote(winner), Main, temp, w.Now()[winner], Begin)))
  }

  /** `quarantine_selected`: copy the selected save beside itself, never over another file. */
  ghost predicate StartQuarantine(w: World, temp: Name, w': World) {
    && w.history != [] && w.process.Idle? && w.process.base.Some? && w.process.base.value.Container?
    && temp.Temp? && temp !in w.Now()
    && Main in w.Now() && w.Now()[Main] == w.process.base.value
    && Orphan(w.process.base.value.counter) !in w.Now()
    && w' == w.With(Busy(w.process.base,
                         Task(Quarantine, Orphan(w.process.base.value.counter), temp, w.process.base.value, Begin)))
  }

  /** The copy is already there, byte for byte: only make it durable. */
  ghost predicate Requarantine(w: World, w': World) {
    && w.history != [] && w.process.Idle? && w.process.base.Some? && w.process.base.value.Container?
    && Orphan(w.process.base.value.counter) in w.Now()
    && w.Now()[Orphan(w.process.base.value.counter)] == w.process.base.value
    && w' == w.SyncDirectory()
  }

  /** `shred_foreign_keyslot_residue`: after a committed save, unlink residue of other keyslots. */
  ghost predicate Shred(w: World, n: Name, w': World) {
    && w.history != [] && w.process.Idle? && w.process.base.Some? && w.receipt == w.process.base
    && Main in w.Now() && w.Now()[Main] == w.process.base.value
    && n != Main && n in w.Now() && w.Now()[n].Slot().Some? && w.Now()[n].Slot() != w.Now()[Main].Slot()
    && w' == w.Change(w.Now() - {n}, w.Loose() - {n})
  }

  /** The next step of `write_atomic_impl`, and what its caller does after the last one. */
  ghost predicate Advance(w: World, w': World) {
    && w.history != [] && w.process.Busy?
    && var task := w.process.task;
       var d := w.Now();
       match task.phase
       case Begin =>
         && task.temp !in d
         && (exists size :: w' == w.Change(d[task.temp := Damaged(None, size)], w.Loose() + {task.temp}).With(Next(w.process, Created)))
       case Created => w' == w.Change(d[task.temp := task.file], w.Loose() + {task.temp}).With(Next(w.process, Written))
       case Written => w' == w.Change(d, w.Loose() - {task.temp}).With(Next(w.process, Synced))
       case Synced =>
         && (task.purpose.Quarantine? ==> task.target !in d)
         && (task.purpose.Save? && w.process.base.None? ==> Main !in d)
         && w' == w.Change(Renaming(d, task), w.Loose() - {task.temp}).With(Next(w.process, Renamed))
       case Renamed => w' == w.SyncDirectory().With(Next(w.process, Durable))
       case Durable =>
         match task.purpose
         case Save => w' == w.(process := Idle(Some(task.file)), receipt := Some(task.file), attempts := {})
         case Quarantine => w' == w.With(Idle(w.process.base))
         case Promote(source) =>
           || w' == w.With(Idle(Some(task.file)))
           || (source.Temp? && source in d && w' == w.Change(d - {source}, w.Loose() - {source}).With(Idle(Some(task.file))))
  }

  function Renaming(d: Directory, task: Task): Directory {
    (d - {task.temp})[task.target := task.file]
  }

  function Next(p: Process, phase: Phase): Process
    requires p.Busy?
  {
    p.(task := p.task.(phase := phase))
  }

  /** A save or a promotion that failed ends the session; a failed quarantine does not. */
  predicate GivesUp(p: Process, p': Process)
    requires p.Busy?
  {
    p' == Unhealthy || (p.task.purpose.Quarantine? && p' == Idle(p.base))
  }

  /** Any step may fail: before the rename the temporary is dropped (perhaps in vain), afterwards
      the outcome is simply not reported. */
  ghost predicate Fail(w: World, w': World) {
    && w.history != [] && w.process.Busy? && GivesUp(w.process, w'.process)
    && var task := w.process.task;
       || w' == w.With(w'.process)
       || (BeforeRename(task.phase) && w' == w.Change(w.Now() - {task.temp}, w.Loose() - {task.temp}).With(w'.process))
  }

  /** The process dies; the machine stays up. */
  ghost predicate Exit(w: World, w': World) {
    w' == w.With(Off)
  }

  /** The power goes: some state since the last directory sync is found again. */
  ghost predicate Crash(w: World, i: nat, d: Directory, w': World) {
    i < |w.history| && PowerCut(w.history[i], d) && w' == w.(history := [Snapshot(d, {})], process := Off)
  }

  ghost predicate Step(w: World, w': World) {
    || StartFresh(w, w')
    || (exists file, temp :: StartSave(w, file, temp, w'))
    || (exists password, winner, temp :: StartUnlock(w, password, winner, temp, w'))
    || (exists temp :: StartQuarantine(w, temp, w'))
    || Requarantine(w, w')
    || (exists n :: Shred(w, n, w'))
    || Advance(w, w')
    || Fail(w, w')
    || Exit(w, w')
    || (exists i: nat, d :: Crash(w, i, d, w'))
  }

  ghost predicate Run(ws: seq<World>) {
    ws != [] && ws[0] == INITIAL && forall i :: 0 <= i < |ws| - 1 ==> Step(ws[i], ws[i + 1])
  }

  // ----- what every directory state on the way satisfies -----

  /** The considered container under a name, if that is what is there. */
  predicate Sealed(d: Directory, n: Name) {
    Candidate(d, n) && d[n].Container?
  }

  /** One keyslot never seals two different saves with one counter. */
  ghost predicate CountersDetermine(d: Directory) {
    forall a, b :: Sealed(d, a) && Sealed(d, b) && d[a].keyslot == d[b].keyslot && d[a].counter == d[b].counter
      ==> d[a] == d[b]
  }

  /** The main file is a save, and no considered file is more than one save ahead of it; without
      a main file there are only first saves. */
  ghost predicate MainLeads(d: Directory) {
    if Main in d then d[Main].Container? && forall n :: Sealed(d, n) ==> d[n].counter <= d[Main].counter + 1
    else forall n :: Sealed(d, n) ==> d[n].counter == 1
  }

  /** Since the last receipt: the main file is that save or a later attempt; anything as new is too. */
  ghost predicate ReceiptHolds(d: Directory, receipt: Option<File>, attempts: set<File>) {
    receipt.Some? ==>
      && receipt.value.Container? && Main in d && d[Main].Container?
      && d[Main].counter >= receipt.value.counter
      && forall n :: Sealed(d, n) ==> Accounted(d[n], receipt.value, attempts, d[Main])
  }

  /** A save newer than the receipt was attempted since; one as new under the main keyslot is the receipt's. */
  ghost predicate Accounted(f: File, receipt: File, attempts: set<File>, main: File)
    requires f.Container? && receipt.Container? && main.Container?
  {
    && (f.counter > receipt.counter ==> f in attempts)
    && (f.counter == receipt.counter && (f.keyslot == receipt.keyslot || f == main) ==> f == receipt)
  }

  ghost predicate Healthy(d: Directory, receipt: Option<File>, attempts: set<File>) {
    CountersDetermine(d) && MainLeads(d) && ReceiptHolds(d, receipt, attempts)
  }

  lemma TearingKeepsHealthy(sn: Snapshot, d: Directory, receipt: Option<File>, attempts: set<File>)
    requires Healthy(sn.dir, receipt, attempts) && PowerCut(sn, d) && Main !in sn.unsynced
    ensures Healthy(d, receipt, attempts)
  {
    assert forall n :: Sealed(d, n) ==> Sealed(sn.dir, n) && d[n] == sn.dir[n];
    assert Main in d ==> d[Main] == sn.dir[Main];
  }

  /** What unlocking a healthy directory gives: exactly the main file's password works, and the
      result is the last receipt's save or one attempted since, never an older one. */
  lemma HealthyUnlocks(d: Directory, receipt: Option<File>, attempts: set<File>, password: nat)
    requires Healthy(d, receipt, attempts) && receipt.Some?
    ensures Main in d && d[Main].Container?
    ensures Unlockable(d, password) <==> d[Main].Opens(password)
    ensures forall n :: Newest(d, password, n) ==>
      d[n].counter >= receipt.value.counter && (d[n] == receipt.value || d[n] in attempts)
  {
    if d[Main].Opens(password) {
      assert Eligible(d, password, Main);
      forall a, b | Newest(d, password, a) && Newest(d, password, b) ensures d[a] == d[b] {
        assert Sealed(d, a) && Sealed(d, b);
      }
      forall n | Newest(d, password, n)
        ensures d[n].counter >= receipt.value.counter && (d[n] == receipt.value || d[n] in attempts)
      {
        assert Sealed(d, n) && Sealed(d, Main);
        assert Accounted(d[n], receipt.value, attempts, d[Main]);
        assert Accounted(d[Main], receipt.value, attempts, d[Main]);
      }
    }
  }

  // ----- the invariant of all runs -----

  /** Under the keyslot of `f`, no considered file but `temp` is newer than `f`, and none as new differs. */
  ghost predicate Leads(d: Directory, temp: Option<Name>, f: File)
    requires f.Container?
  {
    forall n :: Sealed(d, n) && Some(n) != temp && d[n].keyslot == f.keyslot ==>
      d[n].counter <= f.counter && (d[n].counter == f.counter ==> d[n] == f)
  }

  predicate AtMain(d: Directory, f: File) {
    Main in d && d[Main] == f && f.Container?
  }

  /** A write of the main file before its rename: exactly one save ahead, and accounted for. */
  ghost predicate Ahead(d: Directory, f: File, receipt: Option<File>, attempts: set<File>)
    requires f.Container?
  {
    && (if Main in d then d[Main].Container? && f.counter == d[Main].counter + 1 else f.counter == 1)
    && (receipt.Some? ==> f in attempts)
  }

  predicate BeforeRename(phase: Phase) {
    !phase.Renamed? && !phase.Durable?
  }

  ghost predicate TaskFits(w: World, base: Option<File>, task: Task)
    requires w.history != []
  {
    var d := w.Now();
    && task.file.Container? && task.temp.Temp?
    && (task.phase.Begin? ==> task.temp !in d)
    && (task.temp in d && BeforeRename(task.phase) ==> d[task.temp].Damaged? || d[task.temp] == task.file)
    && Leads(d, if BeforeRename(task.phase) then Some(task.temp) else None, task.file)
    && (task.phase.Durable? ==> |w.history| == 1)
    && (if task.purpose.Quarantine? then
          task.target.Orphan? && base == Some(task.file) && AtMain(d, task.file)
        else
          && task.target == Main
          && (if BeforeRename(task.phase) then Ahead(d, task.file, w.receipt, w.attempts)
              else AtMain(d, task.file) && forall n :: Sealed(d, n) ==> d[n].counter <= task.file.counter))
  }

  ghost predicate ProcessFits(w: World)
    requires w.history != []
  {
    match w.process
    case Idle(Some(base)) => AtMain(w.Now(), base) && Leads(w.Now(), None, base)
    case Busy(base, task) => TaskFits(w, base, task)
    case _ => true
  }

  ghost predicate HistoryFits(w: World) {
    && w.history != []
    && forall i :: 0 <= i < |w.history| ==>
      Healthy(w.history[i].dir, w.receipt, w.attempts) && Main !in w.history[i].unsynced
  }

  ghost predicate Inv(w: World) {
    HistoryFits(w) && ProcessFits(w)
  }

  lemma ChangeKeepsHistory(w: World, d: Directory, loose: set<Name>)
    requires HistoryFits(w) && Healthy(d, w.receipt, w.attempts) && Main !in loose
    ensures HistoryFits(w.Change(d, loose))
  {}

  lemma RemovalKeepsHealthy(d: Directory, n: Name, receipt: Option<File>, attempts: set<File>)
    requires Healthy(d, receipt, attempts) && n != Main
    ensures Healthy(d - {n}, receipt, attempts)
  {
    var d' := d - {n};
    assert forall m :: Sealed(d', m) ==> Sealed(d, m) && d'[m] == d[m];
    assert Main in d <==> Main in d';
  }

  /** Any file may be added beside the main one if it is no rival and not too new. */
  lemma AdditionKeepsHealthy(d: Directory, n: Name, f: File, receipt: Option<File>, attempts: set<File>)
    requires Healthy(d, receipt, attempts) && n != Main
    requires f.Container? ==>
      && Leads(d, Some(n), f)
      && (if Main in d then f.counter <= d[Main].counter + 1 else f.counter == 1)
      && (receipt.Some? ==> Accounted(f, receipt.value, attempts, d[Main]))
    ensures Healthy(d[n := f], receipt, attempts)
  {
    var d' := d[n := f];
    assert forall m :: m != n && Sealed(d', m) ==> Sealed(d, m) && d'[m] == d[m];
    assert Main in d <==> Main in d';
    assert Main in d ==> d'[Main] == d[Main];
  }

  lemma RenameKeepsHealthy(d: Directory, task: Task, receipt: Option<File>, attempts: set<File>)
    requires Healthy(d, receipt, attempts) && task.file.Container? && task.target == Main && task.temp != Main
    requires Leads(d, Some(task.temp), task.file) && Ahead(d, task.file, receipt, attempts)
    ensures Healthy(Renaming(d, task), receipt, attempts)
    ensures AtMain(Renaming(d, task), task.file) && Leads(Renaming(d, task), None, task.file)
    ensures forall n :: Sealed(Renaming(d, task), n) ==> Renaming(d, task)[n].counter <= task.file.counter
  {
    var d' := Renaming(d, task);
    forall n | Sealed(d', n) && n != Main ensures Sealed(d, n) && n != task.temp && d'[n] == d[n] {
      assert d'[n] == d[n];
    }
  }

  lemma AheadIsAccounted(d: Directory, f: File, receipt: Option<File>, attempts: set<File>)
    requires Healthy(d, receipt, attempts) && f.Container? && Ahead(d, f, receipt, attempts) && receipt.Some?
    ensures Main in d && d[Main].Container?
    ensures f.counter > receipt.value.counter && Accounted(f, receipt.value, attempts, d[Main])
  {}

  lemma StartFreshKeeps(w: World, w': World)
    requires Inv(w) && StartFresh(w, w')
    ensures Inv(w')
  {}

  lemma StartSaveKeeps(w: World, file: File, temp: Name, w': World)
    requires Inv(w) && StartSave(w, file, temp, w')
    ensures Inv(w')
  {
    forall i | 0 <= i < |w'.history|
      ensures Healthy(w'.history[i].dir, w'.receipt, w'.attempts) && Main !in w'.history[i].unsynced
    {
      MoreAttempts(w.history[i].dir, w.receipt, w.attempts, file);
    }
  }

  lemma MoreAttempts(d: Directory, receipt: Option<File>, attempts: set<File>, file: File)
    requires Healthy(d, receipt, attempts)
    ensures Healthy(d, receipt, attempts + {file})
  {}

  lemma StartUnlockKeeps(w: World, password: nat, winner: Name, temp: Name, w': World)
    requires Inv(w) && StartUnlock(w, password, winner, temp, w')
    ensures Inv(w')
  {
    var d := w.Now();
    assert Healthy(d, w.receipt, w.attempts);
    var f := d[winner];
    assert Sealed(d, winner);
    forall n | Sealed(d, n) && d[n].keyslot == f.keyslot
      ensures d[n].counter <= f.counter && (d[n].counter == f.counter ==> d[n] == f)
    {
      assert Eligible(d, password, n);
    }
    if winner != Main {
      WinnerIsAhead(d, password, winner, w.receipt, w.attempts);
    }
  }

  lemma WinnerIsAhead(d: Directory, password: nat, winner: Name, receipt: Option<File>, attempts: set<File>)
    requires Healthy(d, receipt, attempts) && Unlockable(d, password) && Newest(d, password, winner) && winner != Main
    requires Main in d ==> !Newest(d, password, Main)
    ensures Ahead(d, d[winner], receipt, attempts)
  {
    assert Sealed(d, winner);
    if Main in d {
      assert Eligible(d, password, Main);
      var m :| Eligible(d, password, m) && d[m].counter > d[Main].counter;
      assert d[winner].counter > d[Main].counter;
    }
  }

  lemma StartQuarantineKeeps(w: World, temp: Name, w': World)
    requires Inv(w) && StartQuarantine(w, temp, w')
    ensures Inv(w')
  {}

  lemma RequarantineKeeps(w: World, w': World)
    requires Inv(w) && Requarantine(w, w')
    ensures Inv(w')
  {}

  lemma ShredKeeps(w: World, n: Name, w': World)
    requires Inv(w) && Shred(w, n, w')
    ensures Inv(w')
  {
    RemovalKeepsHealthy(w.Now(), n, w.receipt, w.attempts);
    ChangeKeepsHistory(w, w.Now() - {n}, w.Loose() - {n});
  }

  lemma AdvanceWriteKeeps(w: World, w': World)
    requires Inv(w) && Advance(w, w') && BeforeRename(w.process.task.phase) && !w.process.task.phase.Synced?
    ensures Inv(w')
  {
    var task, d := w.process.task, w.Now();
    assert Healthy(d, w.receipt, w.attempts);
    match task.phase
    case Begin =>
      var size :| w' == w.Change(d[task.temp := Damaged(None, size)], w.Loose() + {task.temp}).With(Next(w.process, Created));
      AdditionKeepsHealthy(d, task.temp, Damaged(None, size), w.receipt, w.attempts);
      ChangeKeepsHistory(w, d[task.temp := Damaged(None, size)], w.Loose() + {task.temp});
    case Created =>
      if w.receipt.Some? {
        if task.purpose.Quarantine? { assert Sealed(d, Main); } else { AheadIsAccounted(d, task.file, w.receipt, w.attempts); }
      }
      if task.purpose.Quarantine? { assert Sealed(d, Main); }
      AdditionKeepsHealthy(d, task.temp, task.file, w.receipt, w.attempts);
      ChangeKeepsHistory(w, d[task.temp := task.file], w.Loose() + {task.temp});
    case Written =>
      ChangeKeepsHistory(w, d, w.Loose() - {task.temp});
  }

  lemma AdvanceRenameKeeps(w: World, w': World)
    requires Inv(w) && Advance(w, w') && w.process.task.phase.Synced?
    ensures Inv(w')
  {
    var task, d := w.process.task, w.Now();
    assert Healthy(d, w.receipt, w.attempts);
    if task.purpose.Quarantine? {
      assert Sealed(d, Main);
      RemovalKeepsHealthy(d, task.temp, w.receipt, w.attempts);
      AdditionKeepsHealthy(d - {task.temp}, task.target, task.file, w.receipt, w.attempts);
    } else {
      RenameKeepsHealthy(d, task, w.receipt, w.attempts);
    }
    ChangeKeepsHistory(w, Renaming(d, task), w.Loose() - {task.temp});
  }

  /** Once the directory is synced and the receipt consumed, everything considered is accounted
      for by the new receipt alone. */
  lemma ReceiptStartsAfresh(d: Directory, receipt: Option<File>, attempts: set<File>, file: File)
    requires Healthy(d, receipt, attempts) && AtMain(d, file) && Leads(d, None, file)
    requires forall n :: Sealed(d, n) ==> d[n].counter <= file.counter
    ensures Healthy(d, Some(file), {})
  {}

  lemma AdvanceEndKeeps(w: World, w': World)
    requires Inv(w) && Advance(w, w') && !BeforeRename(w.process.task.phase)
    ensures Inv(w')
  {
    var task, d := w.process.task, w.Now();
    assert Healthy(d, w.receipt, w.attempts);
    if task.phase.Durable? {
      match task.purpose
      case Save => ReceiptStartsAfresh(d, w.receipt, w.attempts, task.file);
      case Quarantine =>
      case Promote(source) =>
        if w' != w.With(Idle(Some(task.file))) {
          RemovalKeepsHealthy(d, source, w.receipt, w.attempts);
          ChangeKeepsHistory(w, d - {source}, w.Loose() - {source});
        }
    }
  }

  lemma FailKeeps(w: World, w': World)
    requires Inv(w) && Fail(w, w')
    ensures Inv(w')
  {
    var task := w.process.task;
    assert Healthy(w.Now(), w.receipt, w.attempts);
    if w' != w.With(w'.process) {
      RemovalKeepsHealthy(w.Now(), task.temp, w.receipt, w.attempts);
      ChangeKeepsHistory(w, w.Now() - {task.temp}, w.Loose() - {task.temp});
    }
  }

  lemma CrashKeeps(w: World, i: nat, d: Directory, w': World)
    requires Inv(w) && Crash(w, i, d, w')
    ensures Inv(w')
  {
    TearingKeepsHealthy(w.history[i], d, w.receipt, w.attempts);
  }

  /** Every step keeps the invariant. */
  lemma StepKeeps(w: World, w': World)
    requires Inv(w) && Step(w, w')
    ensures Inv(w')
  {
    if StartFresh(w, w') {
      StartFreshKeeps(w, w');
    } else if file, temp :| StartSave(w, file, temp, w') {
      StartSaveKeeps(w, file, temp, w');
    } else if password, winner, temp :| StartUnlock(w, password, winner, temp, w') {
      StartUnlockKeeps(w, password, winner, temp, w');
    } else if temp :| StartQuarantine(w, temp, w') {
      StartQuarantineKeeps(w, temp, w');
    } else if Requarantine(w, w') {
      RequarantineKeeps(w, w');
    } else if n :| Shred(w, n, w') {
      ShredKeeps(w, n, w');
    } else if Advance(w, w') {
      if !BeforeRename(w.process.task.phase) { AdvanceEndKeeps(w, w'); }
      else if w.process.task.phase.Synced? { AdvanceRenameKeeps(w, w'); }
      else { AdvanceWriteKeeps(w, w'); }
    } else if Fail(w, w') {
      FailKeeps(w, w');
    } else if !Exit(w, w') {
      var i: nat, d :| Crash(w, i, d, w');
      CrashKeeps(w, i, d, w');
    }
  }

  lemma {:induction false} RunKeeps(ws: seq<World>, i: nat)
    requires Run(ws) && i < |ws|
    ensures Inv(ws[i])
  {
    if i > 0 {
      RunKeeps(ws, i - 1);
      assert Step(ws[i - 1], ws[i - 1 + 1]);
      StepKeeps(ws[i - 1], ws[i]);
    }
  }

  /** Crash safety over every run: whatever a power cut leaves, once a receipt was consumed, the
      wallet unlocks with exactly the password of the save under the main name, and yields the
      last receipt's save or one attempted since, never an older one. */
  lemma CrashSafety(ws: seq<World>, k: nat, i: nat, d: Directory, password: nat)
    requires Run(ws) && k < |ws| && ws[k].receipt.Some?
    requires i < |ws[k].history| && PowerCut(ws[k].history[i], d)
    ensures Main in d && d[Main].Container? && ws[k].receipt.value.Container?
    ensures d[Main] == ws[k].receipt.value || d[Main] in ws[k].attempts
    ensures Unlockable(d, password) <==> d[Main].Opens(password)
    ensures forall n :: Newest(d, password, n) ==>
      d[n].counter >= ws[k].receipt.value.counter && (d[n] == ws[k].receipt.value || d[n] in ws[k].attempts)
  {
    var w := ws[k];
    RunKeeps(ws, k);
    TearingKeepsHealthy(w.history[i], d, w.receipt, w.attempts);
    HealthyUnlocks(d, w.receipt, w.attempts, password);
    assert Sealed(d, Main);
  }

  /** While no re-key is in flight, the password of the last committed save unlocks. */
  lemma CommittedPasswordUnlocks(ws: seq<World>, k: nat, i: nat, d: Directory, password: nat)
    requires Run(ws) && k < |ws| && ws[k].receipt.Some? && ws[k].receipt.value.Opens(password)
    requires i < |ws[k].history| && PowerCut(ws[k].history[i], d)
    requires forall f :: f in ws[k].attempts ==> f.Opens(password)
    ensures Unlockable(d, password)
  {
    CrashSafety(ws, k, i, d, password);
  }

  predicate InSession(p: Process) {
    p.Idle? || (p.Busy? && !p.task.purpose.Promote?)
  }

  /** Within the session that consumed the receipt, the only attempt since is the save in flight. */
  lemma {:induction false} OneSaveInFlight(ws: seq<World>, j: nat, k: nat)
    requires Run(ws) && j <= k < |ws| && ws[j].process.Idle? && ws[j].attempts == {}
    requires forall i :: j <= i <= k ==> InSession(ws[i].process)
    ensures ws[k].attempts == if ws[k].process.Busy? && ws[k].process.task.purpose.Save? then {ws[k].process.task.file} else {}
  {
    if j < k {
      OneSaveInFlight(ws, j, k - 1);
      var w, w' := ws[k - 1], ws[k - 1 + 1];
      assert Step(w, w') && InSession(w.process) && InSession(w'.process);
      SessionStep(w, w');
    }
  }

  lemma SessionStep(w: World, w': World)
    requires Step(w, w') && InSession(w.process) && InSession(w'.process)
    requires w.attempts == if w.process.Busy? && w.process.task.purpose.Save? then {w.process.task.file} else {}
    ensures w'.attempts == if w'.process.Busy? && w'.process.task.purpose.Save? then {w'.process.task.file} else {}
  {
    if file, temp :| StartSave(w, file, temp, w') {
      assert w'.attempts == {} + {file};
    } else if temp :| StartQuarantine(w, temp, w') {
    } else if n :| Shred(w, n, w') {
    } else if Advance(w, w') || Fail(w, w') {
    }
  }

  // ----- a re-key in flight locks the committed password out -----

  const OLD_KEY := Keyslot(0, 7, false)
  const NEW_KEY := Keyslot(1, 8, false)
  const FIRST := Container(OLD_KEY, 1, 0, 0)
  const REKEYED := Container(NEW_KEY, 2, 0, 0)

  /** The states of one uninterrupted save on top of `base`, up to and including the rename. */
  function SaveStates(base: Option<File>, d: Directory, file: File, receipt: Option<File>): (ws: seq<World>)
    ensures |ws| == 5
  {
    var task := Task(Save, Main, Temp(0), file, Begin);
    var w0 := World([Snapshot(d, {})], Busy(base, task), receipt, {file});
    var w1 := w0.Change(d[Temp(0) := Damaged(None, 0)], {Temp(0)}).With(Next(w0.process, Created));
    var w2 := w1.Change(d[Temp(0) := file], {Temp(0)}).With(Next(w0.process, Written));
    var w3 := w2.Change(d[Temp(0) := file], {}).With(Next(w0.process, Synced));
    var w4 := w3.Change(d[Main := file], {}).With(Next(w0.process, Renamed));
    [w0, w1, w2, w3, w4]
  }

  lemma SaveStatesAdvance(base: Option<File>, d: Directory, file: File, receipt: Option<File>)
    requires Temp(0) !in d && (base.None? ==> Main !in d)
    ensures forall i :: 0 <= i < 4 ==> Step(SaveStates(base, d, file, receipt)[i], SaveStates(base, d, file, receipt)[i + 1])
  {
    var ws := SaveStates(base, d, file, receipt);
    assert {} + {Temp(0)} == {Temp(0)} && {Temp(0)} - {Temp(0)} == {} && {Temp(0)} + {Temp(0)} == {Temp(0)};
    assert {} - {Temp(0)} == {};
    assert Advance(ws[0], ws[1]);
    assert d[Temp(0) := Damaged(None, 0)][Temp(0) := file] == d[Temp(0) := file];
    assert Advance(ws[1], ws[2]);
    assert Advance(ws[2], ws[3]);
    assert Renaming(ws[3].Now(), ws[3].process.task) == d[Main := file];
    assert Advance(ws[3], ws[4]);
  }

  /** Create a wallet, then change its password up to the rename. */
  function RekeyRun(): (ws: seq<World>)
    ensures |ws| == 14
  {
    var first := SaveStates(None, map[], FIRST, None);
    var synced := first[4].SyncDirectory().With(Next(first[4].process, Durable));
    var committed := World([Snapshot(map[Main := FIRST], {})], Idle(Some(FIRST)), Some(FIRST), {});
    [INITIAL, INITIAL.With(Idle(None))] + first + [synced, committed] + SaveStates(Some(FIRST), map[Main := FIRST], REKEYED, Some(FIRST))
  }

  lemma RekeyRunIsRun()
    ensures Run(RekeyRun())
  {
    var ws := RekeyRun();
    var first := SaveStates(None, map[], FIRST, None);
    var second := SaveStates(Some(FIRST), map[Main := FIRST], REKEYED, Some(FIRST));
    SaveStatesAdvance(None, map[], FIRST, None);
    SaveStatesAdvance(Some(FIRST), map[Main := FIRST], REKEYED, Some(FIRST));
    assert StartFresh(INITIAL, ws[1]);
    assert {} + {FIRST} == {FIRST} && {} + {REKEYED} == {REKEYED};
    assert StartSave(ws[1], FIRST, Temp(0), first[0]);
    assert Advance(first[4], ws[7]);
    assert Advance(ws[7], ws[8]);
    assert StartSave(ws[8], REKEYED, Temp(0), second[0]);
    forall i | 0 <= i < |ws| - 1 ensures Step(ws[i], ws[i + 1]) {
      if 2 <= i < 6 { assert ws[i] == first[i - 2] && ws[i + 1] == first[i - 2 + 1]; }
      if 9 <= i { assert ws[i] == second[i - 9] && ws[i + 1] == second[i - 9 + 1]; }
    }
  }

  /** Between the rename of a re-key and its receipt, the last committed save's password unlocks
      nothing, with or without a power cut; the new password does. */
  lemma CommittedPasswordCanFail()
    ensures Run(RekeyRun()) && RekeyRun()[13].history != [] && RekeyRun()[13].receipt == Some(FIRST)
    ensures PowerCut(RekeyRun()[13].history[|RekeyRun()[13].history| - 1], RekeyRun()[13].Now())
    ensures !Unlockable(RekeyRun()[13].Now(), FIRST.keyslot.password)
    ensures Unlockable(RekeyRun()[13].Now(), REKEYED.keyslot.password)
  {
    RekeyRunIsRun();
    var d := RekeyRun()[13].Now();
    assert d == map[Main := REKEYED];
    assert MainRefuses(d, 7);
    assert Eligible(d, 8, Main);
    assert forall n :: n in d ==> n == Main;
  }
}
