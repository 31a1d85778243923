/** The file operations of crates/cc-wallet-storage/src/atomic.rs on one directory, each step with
    its possible failure, and the proof that every execution is a run of the crash model. */
module VaultDisk {
  import opened Wrappers
  import opened Vault
  import opened VaultCrash

  datatype FaultPoint =
    | CreatingTemp | WritingTemp | SyncingTemp | ReadingBack | Renaming | AfterRename | SyncingDirectory | ReadingInstalled

  datatype DiskError = Io(at: FaultPoint) | AlreadyExists

  /** What the environment decides about one write: where it fails, if anywhere, how much of a
      temporary is seen before it is complete, and whether dropping the temporary works. */
  datatype Fate = Fate(fault: Option<FaultPoint>, torn: nat, cleanup: bool)

  ghost predicate Path(ws: seq<World>) {
    ws != [] && forall i :: 0 <= i < |ws| - 1 ==> Step(ws[i], ws[i + 1])
  }

  /** The crash model can go from `w` to `w'`. */
  ghost predicate Reaches(w: World, w': World) {
    exists ws :: Path(ws) && ws[0] == w && ws[|ws| - 1] == w'
  }

  lemma ReachesSelf(w: World)
    ensures Reaches(w, w)
  {
    assert Path([w]) && [w][0] == w;
  }

  lemma ReachesStep(w: World, v: World, v': World)
    requires Reaches(w, v) && Step(v, v')
    ensures Reaches(w, v')
  {
    var ws :| Path(ws) && ws[0] == w && ws[|ws| - 1] == v;
    var longer := ws + [v'];
    forall i | 0 <= i < |longer| - 1 ensures Step(longer[i], longer[i + 1]) {
      if i < |ws| - 1 { assert longer[i] == ws[i] && longer[i + 1] == ws[i + 1]; }
    }
    assert Path(longer) && longer[0] == w && longer[|longer| - 1] == v';
  }

  lemma ReachesTrans(w: World, v: World, v': World)
    requires Reaches(w, v) && Reaches(v, v')
    ensures Reaches(w, v')
  {
    var ws :| Path(ws) && ws[0] == v && ws[|ws| - 1] == v';
    for i := 1 to |ws|
      invariant Reaches(w, ws[i - 1])
    {
      assert Step(ws[i - 1], ws[i - 1 + 1]);
      ReachesStep(w, ws[i - 1], ws[i]);
    }
  }

  lemma ReachesAdvance(w: World, v: World, v': World)
    requires Reaches(w, v) && Advance(v, v')
    ensures Reaches(w, v')
  {
    ReachesStep(w, v, v');
  }

  /** A run of the crash model goes on with any path from its last state. */
  lemma RunReaches(ws: seq<World>, w': World)
    requires Run(ws) && Reaches(ws[|ws| - 1], w')
    ensures Inv(w')
    ensures exists longer :: Run(longer) && ws <= longer && longer[|longer| - 1] == w'
  {
    var more :| Path(more) && more[0] == ws[|ws| - 1] && more[|more| - 1] == w';
    var longer := ws + more[1..];
    forall i | 0 <= i < |longer| - 1 ensures Step(longer[i], longer[i + 1]) {
      if i < |ws| - 1 {
        assert longer[i] == ws[i] && longer[i + 1] == ws[i + 1];
      } else {
        assert longer[i] == more[i - |ws| + 1] && longer[i + 1] == more[i - |ws| + 1 + 1];
      }
    }
    assert Run(longer) && ws <= longer && longer[|longer| - 1] == w';
    RunKeeps(longer, |longer| - 1);
  }

  /** A first save and a quarantine copy never replace a file. */
  predicate NoClobber(base: Option<File>, purpose: Purpose) {
    purpose.Quarantine? || (purpose.Save? && base.None?)
  }

  /** What becomes of the writer whose write failed. */
  function AfterFailure(base: Option<File>, purpose: Purpose): Process {
    if purpose.Quarantine? then Idle(base) else Unhealthy
  }

  /** The directories agree on every name but the two. */
  ghost predicate SameElsewhere(d: Directory, d': Directory, a: Name, b: Name) {
    forall n :: n != a && n != b ==> (n in d <==> n in d') && (n in d ==> d[n] == d'[n])
  }

  /** The target is as it was, or holds the new file where that was allowed. */
  predicate TargetIs(d: Directory, target: Name, file: File, was: Directory, noclobber: bool) {
    || (target in d && d[target] == file && !(noclobber && target in was))
    || (target in d && target in was && d[target] == was[target])
    || (target !in d && target !in was)
  }

  class Disk {
    /** What a running process sees. */
    var files: Directory
    /** The directory states since the last directory sync, as the crash model keeps them. */
    ghost var history: seq<Snapshot>

    ghost predicate Valid()
      reads this
    {
      history != [] && files == history[|history| - 1].dir
    }

    ghost function Loose(): set<Name>
      requires Valid()
      reads this
    {
      history[|history| - 1].unsynced
    }

    constructor ()
      ensures Valid() && files == map[] && history == INITIAL.history
    {
      files := map[];
      history := INITIAL.history;
    }

    /** One change of the directory. */
    method Set(d: Directory, ghost unsynced: set<Name>)
      modifies this
      ensures Valid() && files == d && history == old(history) + [Snapshot(d, unsynced)]
    {
      files := d;
      history := history + [Snapshot(d, unsynced)];
    }

    /** A failed write before its rename drops the temporary, if that works. */
    method Abandon(ghost w: World, ghost v: World, temp: Name, cleanup: bool)
      requires Valid() && v.history == history && v.process.Busy? && v.process.task.temp == temp
      requires BeforeRename(v.process.task.phase) && Reaches(w, v)
      modifies this
      ensures Valid() && files == (if cleanup then old(files) - {temp} else old(files))
      ensures Reaches(w, v.(history := history, process := AfterFailure(v.process.base, v.process.task.purpose)))
    {
      ghost var p := AfterFailure(v.process.base, v.process.task.purpose);
      ghost var v' := v.With(p);
      if cleanup {
        v' := v.Change(files - {temp}, Loose() - {temp}).With(p);
        Set(files - {temp}, Loose() - {temp});
      }
      assert Fail(v, v');
      ReachesStep(w, v, v');
      assert v' == v.(history := history, process := p);
    }

    /** The temporary: created, filled, synced and read back. */
    method WriteTemp(ghost w: World, ghost base: Option<File>, task: Task, fate: Fate) returns (r: Result<(), DiskError>)
      requires Valid() && w.history == history && w.process == Busy(base, task)
      requires task.phase.Begin? && task.temp !in files
      modifies this
      ensures Valid()
      ensures r.Ok? <==> !(fate.fault.Some? && fate.fault.value in {CreatingTemp, WritingTemp, SyncingTemp, ReadingBack})
      ensures r.Ok? ==> files == old(files)[task.temp := task.file]
      ensures r.Ok? ==> Reaches(w, w.(history := history, process := Busy(base, task.(phase := Synced))))
      ensures r.Err? ==> forall n :: n != task.temp ==> (n in files <==> n in old(files)) && (n in files ==> files[n] == old(files)[n])
      ensures r.Err? ==> Reaches(w, w.(history := history, process := AfterFailure(base, task.purpose)))
    {
      var d0 := files;
      ReachesSelf(w);
      ghost var v := w;
      if fate.fault == Some(CreatingTemp) {
        Abandon(w, v, task.temp, false);
        return Err(Io(CreatingTemp));
      }
      ghost var loose := Loose() + {task.temp};
      Set(d0[task.temp := Damaged(None, fate.torn)], loose);
      ghost var v1 := v.Change(files, loose).With(Next(v.process, Created));
      assert Advance(v, v1);
      ReachesAdvance(w, v, v1);
      if fate.fault == Some(WritingTemp) {
        Abandon(w, v1, task.temp, fate.cleanup);
        return Err(Io(WritingTemp));
      }
      assert loose + {task.temp} == loose;
      assert d0[task.temp := task.file] == files[task.temp := task.file];
      Set(d0[task.temp := task.file], loose);
      ghost var v2 := v1.Change(files, loose).With(Next(v1.process, Written));
      assert Advance(v1, v2);
      ReachesAdvance(w, v1, v2);
      if fate.fault == Some(SyncingTemp) {
        Abandon(w, v2, task.temp, fate.cleanup);
        return Err(Io(SyncingTemp));
      }
      Set(files, loose - {task.temp});
      ghost var v3 := v2.Change(files, loose - {task.temp}).With(Next(v2.process, Synced));
      assert Advance(v2, v3);
      ReachesAdvance(w, v2, v3);
      if fate.fault == Some(ReadingBack) {
        Abandon(w, v3, task.temp, fate.cleanup);
        return Err(Io(ReadingBack));
      }
      assert v3 == w.(history := history, process := Busy(base, task.(phase := Synced)));
      return Ok(());
    }

    /** `write_atomic` and `write_atomic_new`: on success the target durably holds the file and
        nothing else changed; on failure at most the target and the temporary differ, and the
        target is as before or holds the file. Either way the crash model allows it. */
    method WriteAtomic(ghost w: World, ghost base: Option<File>, task: Task, noclobber: bool, fate: Fate)
      returns (r: Result<(), DiskError>)
      requires Valid() && w.history == history && w.process == Busy(base, task)
      requires task.phase.Begin? && task.temp !in files && task.target != task.temp
      requires noclobber == NoClobber(base, task.purpose)
      requires task.purpose.Save? ==> task.target == Main
      modifies this
      ensures Valid()
      ensures r.Ok? <==> (fate.fault.None? || fate.fault.value.ReadingInstalled?) && !(noclobber && task.target in old(files))
      ensures r.Ok? ==> files == old(files)[task.target := task.file] && |history| == 1
      ensures r.Ok? ==> Reaches(w, w.(history := history, process := Busy(base, task.(phase := Durable))))
      ensures r.Err? ==> SameElsewhere(old(files), files, task.target, task.temp)
      ensures r.Err? ==> TargetIs(files, task.target, task.file, old(files), noclobber)
      ensures r.Err? ==> Reaches(w, w.(history := history, process := AfterFailure(base, task.purpose)))
    {
      var written := WriteTemp(w, base, task, fate);
      if written.Err? {
        return written;
      }
      ghost var v := w.(history := history, process := Busy(base, task.(phase := Synced)));
      if fate.fault == Some(Renaming) || (noclobber && task.target in files) {
        Abandon(w, v, task.temp, fate.cleanup);
        return Err(if fate.fault == Some(Renaming) then Io(Renaming) else AlreadyExists);
      }
      r := RenameAndSync(w, v, base, task, fate);
    }

    /** The rename, and the directory sync that makes it durable. */
    method RenameAndSync(ghost w: World, ghost v: World, ghost base: Option<File>, task: Task, fate: Fate)
      returns (r: Result<(), DiskError>)
      requires Valid() && v == w.(history := history, process := Busy(base, task.(phase := Synced))) && Reaches(w, v)
      requires task.temp in files && task.target != task.temp && !(NoClobber(base, task.purpose) && task.target in files)
      requires task.purpose.Save? ==> task.target == Main
      modifies this
      ensures Valid() && files == (old(files) - {task.temp})[task.target := task.file]
      ensures r.Ok? <==> fate.fault != Some(AfterRename) && fate.fault != Some(SyncingDirectory)
      ensures r.Ok? ==> |history| == 1 && Reaches(w, w.(history := history, process := Busy(base, task.(phase := Durable))))
      ensures r.Err? ==> Reaches(w, w.(history := history, process := AfterFailure(base, task.purpose)))
    {
      ghost var loose := Loose() - {task.temp};
      Set((files - {task.temp})[task.target := task.file], loose);
      ghost var v1 := v.Change(files, loose).With(Next(v.process, Renamed));
      assert Advance(v, v1);
      ReachesAdvance(w, v, v1);
      if fate.fault == Some(AfterRename) || fate.fault == Some(SyncingDirectory) {
        ghost var v2 := v1.With(AfterFailure(base, task.purpose));
        assert Fail(v1, v2);
        ReachesStep(w, v1, v2);
        assert v2 == w.(history := history, process := AfterFailure(base, task.purpose));
        return Err(Io(fate.fault.value));
      }
      history := [history[|history| - 1]];
      ghost var v2 := v1.SyncDirectory().With(Next(v1.process, Durable));
      assert Advance(v1, v2);
      ReachesAdvance(w, v1, v2);
      assert v2 == w.(history := history, process := Busy(base, task.(phase := Durable)));
      return Ok(());
    }

    /** `install_orphan_copy` for the writer's own save: an equal copy is only made durable, a
        different one is never touched, otherwise the copy is written beside the main file. */
    method InstallOrphanCopy(ghost w: World, source: File, temp: Name, fate: Fate) returns (r: Result<(), DiskError>)
      requires Valid() && w.history == history && w.process == Idle(Some(source)) && source.Container?
      requires Main in files && files[Main] == source && temp.Temp? && temp !in files
      modifies this
      ensures Valid()
      ensures fate.fault.None? ==> (r.Ok? <==> (Orphan(source.counter) in old(files) ==> old(files)[Orphan(source.counter)] == source))
      ensures r.Ok? ==> files == old(files)[Orphan(source.counter) := source] && |history| == 1
      ensures Orphan(source.counter) in old(files) ==> files == old(files) && (r.Ok? ==> files[Orphan(source.counter)] == source)
      ensures SameElsewhere(old(files), files, Orphan(source.counter), temp)
      ensures Reaches(w, w.(history := history))
    {
      var orphan := Orphan(source.counter);
      ReachesSelf(w);
      assert w == w.(history := history);
      if orphan in files {
        if files[orphan] != source { return Err(AlreadyExists); }
        if fate.fault.Some? { return Err(Io(fate.fault.value)); }
        history := [history[|history| - 1]];
        assert files[orphan := source] == files;
        assert Requarantine(w, w.SyncDirectory());
        ReachesStep(w, w, w.SyncDirectory());
        assert w.SyncDirectory() == w.(history := history);
        return Ok(());
      }
      var task := Task(Quarantine, orphan, temp, source, Begin);
      ghost var v := w.With(Busy(Some(source), task));
      assert StartQuarantine(w, temp, v);
      ReachesStep(w, w, v);
      r := WriteAtomic(v, Some(source), task, true, fate);
      ghost var end := v.(history := history, process := AfterFailure(Some(source), Quarantine));
      if r.Ok? {
        ghost var v5 := v.(history := history, process := Busy(Some(source), task.(phase := Durable)));
        assert Advance(v5, end);
        ReachesAdvance(v, v5, end);
      }
      ReachesTrans(w, v, end);
      assert end == w.(history := history);
    }

    /** `unlock` with every step that may fail: the choice, the promotion by an atomic write, the
        readback for the writer, and the removal of a promoted temporary, which may fail silently. It is a path of the crash model;
        a refusal changes nothing, and a failed promotion at most the main file and a temporary. */
    method UnlockWallet(ghost w: World, password: nat, listing: seq<Name>, temp: Name, fate: Fate)
      returns (r: Result<Selected, UnlockFailure>)
      requires Valid() && IsListing(files, listing) && temp.Temp? && temp !in files
      requires w.history == history && (w.process.Off? || w.process.Unhealthy?)
      modifies this
      ensures Valid()
      ensures r.Ok? ==> Unlockable(old(files), password)
      ensures Unlockable(old(files), password) && fate.fault.None? ==> r.Ok?
      ensures r.Ok? ==> Main in files && files[Main] == r.value.file && Newest(files, password, Main)
      ensures r.Ok? ==> r.value.file.Opens(password) && r.value.counter == r.value.file.counter
      ensures r.Ok? ==> forall n :: OrdinarySave(old(files), password, n) ==> old(files)[n].counter <= r.value.counter
      ensures r.Ok? ==> Reaches(w, w.(history := history, process := Idle(Some(r.value.file))))
      ensures r.Err? && r.error.Refused? ==> files == old(files) && history == old(history)
      ensures r.Err? && r.error.Failed? ==>
        Reaches(w, w.(history := history, process := Off)) && SameElsewhere(old(files), files, Main, temp)
    {
      var store := new VaultStore(files);
      var selected := store.Select(password, listing);
      if selected.Err? { return Err(Refused(selected.error)); }
      var winner := selected.value;
      var file := files[winner];
      ReachesSelf(w);
      if winner == Main {
        if fate.fault == Some(ReadingInstalled) {
          GivingUp(w, w);
          return Err(Failed(Io(ReadingInstalled)));
        }
        ghost var v := w.With(Idle(Some(file)));
        assert StartUnlock(w, password, winner, temp, v);
        ReachesStep(w, w, v);
        assert v == w.(history := history, process := Idle(Some(file)));
        return Ok(Selected(file.counter, file));
      }
      r := PromoteWinner(w, password, winner, temp, fate);
    }

    /** A save that got as far as its synced temporary survives the process: unlocking with the main
        keyslot's password selects it, not the older main file. */
    method RecoverInterruptedSave(ghost w: World, ghost base: Option<File>, task: Task, fate: Fate, password: nat, listing: seq<Name>)
      returns (r: Result<Name, DiskError>)
      requires Valid() && w.history == history && w.process == Busy(base, task)
      requires task.phase.Begin? && task.temp.Temp? && task.temp !in files && Main in files && files[Main].Container?
      requires task.file.Container? && task.file.keyslot == files[Main].keyslot && task.file.counter == files[Main].counter + 1
      requires task.file.size <= 33554432 && !task.file.keyslot.costly && task.file.keyslot.password == password
      requires forall n :: n in files && files[n].Container? && files[n].keyslot == task.file.keyslot ==>
        files[n].counter <= files[Main].counter
      requires IsListing(files[task.temp := task.file], listing)
      modifies this
      ensures r.Ok? ==> r == Ok(task.temp) && task.temp in files && files[task.temp] == task.file
      ensures fate.fault.None? ==> r.Ok?
    {
      var d := files;
      var written := WriteTemp(w, base, task, fate);
      if written.Err? { return Err(written.error); }
      InterruptedSaveWins(d, task.temp, task.file, files, password);
      var store := new VaultStore(files);
      var selected := store.Select(password, listing);
      return Ok(selected.value);
    }

    /** The winner is another file than the main one: write its bytes there, then drop a temporary. */
    method PromoteWinner(ghost w: World, password: nat, winner: Name, temp: Name, fate: Fate)
      returns (r: Result<Selected, UnlockFailure>)
      requires Valid() && temp.Temp? && temp !in files && winner != Main
      requires w.history == history && (w.process.Off? || w.process.Unhealthy?)
      requires Unlockable(files, password) && Newest(files, password, winner)
      requires Main in files ==> !Newest(files, password, Main)
      modifies this
      ensures Valid()
      ensures r.Ok? <==> fate.fault.None?
      ensures r.Ok? ==> r.value == Selected(old(files)[winner].counter, old(files)[winner])
      ensures r.Ok? ==> r.value.file.Opens(password)
      ensures r.Ok? ==> Main in files && files[Main] == r.value.file && Newest(files, password, Main)
      ensures r.Ok? ==> Reaches(w, w.(history := history, process := Idle(Some(r.value.file))))
      ensures r.Err? ==> r.error.Failed? && Reaches(w, w.(history := history, process := Off))
      ensures r.Err? ==> SameElsewhere(old(files), files, Main, temp)
    {
      var d0, file := files, files[winner];
      var task := Task(Promote(winner), Main, temp, file, Begin);
      ghost var v := w.With(Busy(None, task));
      assert StartUnlock(w, password, winner, temp, v);
      ReachesSelf(w);
      ReachesStep(w, w, v);
      var written := WriteAtomic(v, None, task, false, fate);
      if written.Err? {
        ReachesTrans(w, v, v.(history := history, process := Unhealthy));
        GivingUp(w, v.(history := history, process := Unhealthy));
        return Err(Failed(written.error));
      }
      ghost var v1 := v.(history := history, process := Busy(None, task.(phase := Durable)));
      ReachesTrans(w, v, v1);
      if fate.fault == Some(ReadingInstalled) {
        GivingUp(w, v1);
        return Err(Failed(Io(ReadingInstalled)));
      }
      DropWinner(w, v1, task, winner, fate.cleanup);
      PromotedIsNewest(d0, password, winner, files);
      return Ok(Selected(file.counter, file));
    }

    /** After the promotion: a temporary winner is removed, perhaps in vain. */
    method DropWinner(ghost w: World, ghost v: World, task: Task, winner: Name, cleanup: bool)
      requires Valid() && v.history == history && Reaches(w, v) && winner in files
      requires v.process == Busy(None, task.(phase := Durable)) && task.purpose == Promote(winner)
      modifies this
      ensures Valid() && files == if winner.Temp? && cleanup then old(files) - {winner} else old(files)
      ensures Reaches(w, v.(history := history, process := Idle(Some(task.file))))
    {
      ghost var v' := v.With(Idle(Some(task.file)));
      if winner.Temp? && cleanup {
        v' := v.Change(files - {winner}, Loose() - {winner}).With(Idle(Some(task.file)));
        Set(files - {winner}, Loose() - {winner});
      }
      assert Advance(v, v');
      ReachesAdvance(w, v, v');
      assert v' == v.(history := history, process := Idle(Some(task.file)));
    }
  }

  /** A save whose temporary is whole but not yet renamed is the one an unlock selects, as long as no
      other file of its key generation is newer than the main one. */
  lemma InterruptedSaveWins(d: Directory, temp: Name, file: File, d': Directory, password: nat)
    requires d' == d[temp := file]
    requires Main in d && d[Main].Container? && temp.Temp? && temp !in d
    requires file.Container? && file.keyslot == d[Main].keyslot && file.counter == d[Main].counter + 1
    requires file.size <= 33554432 && !file.keyslot.costly && file.keyslot.password == password
    requires forall n :: n in d && d[n].Container? && d[n].keyslot == file.keyslot ==> d[n].counter <= d[Main].counter
    ensures Unlockable(d', password) && Newest(d', password, temp)
    ensures forall n :: Newest(d', password, n) ==> n == temp
  {
    assert Eligible(d', password, temp);
    forall n | Eligible(d', password, n) && n != temp ensures d'[n].counter < file.counter {
      assert d'[n] == d[n] && d[n].Slot() == Some(file.keyslot);
    }
    assert Newest(d', password, temp);
  }

  lemma GivingUp(w: World, v: World)
    requires Reaches(w, v)
    ensures Reaches(w, v.(process := Off))
  {
    assert Exit(v, v.With(Off));
    ReachesStep(w, v, v.With(Off));
  }

  datatype UnlockFailure = Refused(reason: UnlockError) | Failed(cause: DiskError)

  /** After the promotion the main file is the newest eligible save, whether or not the winner's own
      file is still there. */
  lemma PromotedIsNewest(d: Directory, password: nat, winner: Name, d': Directory)
    requires Newest(d, password, winner) && winner != Main
    requires d' == d[Main := d[winner]] || d' == d[Main := d[winner]] - {winner}
    ensures Main in d' && d'[Main] == d[winner] && Newest(d', password, Main)
  {
    forall m | Eligible(d', password, m) && m != Main ensures Eligible(d, password, m) && d'[m] == d[m] {
      assert m in d && d'[m] == d[m];
    }
  }
}
