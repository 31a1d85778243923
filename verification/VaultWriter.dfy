/** The wallet writer (crates/cc-wallet-storage/src/vault_store.rs): `prepare` reserves the next
    save counter, `execute` installs the sealed file, `consume` commits its receipt. The SHA-256 of
    a file is represented by the file itself. */
module VaultWriters {
  import opened Wrappers
  import opened Bytes
  import opened Vault
  import opened VaultCrash
  import opened VaultDisk

  datatype Receipt = Receipt(counter: U64, path: nat, file: File)

  datatype PreparedWrite = PreparedWrite(counter: U64, path: nat, sealed: File, first: bool)

  datatype WriterError =
    | IsUnhealthy | NotConsumed | ChangedOutside | FileAppeared | CandidatesAppeared | CounterOverflow
    | CounterDiffers | NothingPending | ReceiptMismatch | JoinFailure | Storage(error: DiskError)

  /** The writer's fields. */
  datatype WriterState = WriterState(committedCounter: U64, committed: Option<File>, pending: Option<Receipt>, healthy: bool)

  const MAX_COUNTER: nat := 0xFFFF_FFFF_FFFF_FFFF

  /** What a writer keeps: a pending write belongs to a healthy writer and carries the next counter. */
  predicate Sound(s: WriterState) {
    && (s.pending.Some? ==> s.healthy && s.pending.value.counter == s.committedCounter + 1)
    && (s.committed.Some? ==> s.committed.value.Container? && s.committed.value.counter == s.committedCounter)
    && (s.committed.None? ==> s.committedCounter == 0)
    && (s.pending.Some? ==> s.pending.value.file.Container? && s.pending.value.file.counter == s.pending.value.counter)
  }

  // ----- runs of one writer -----

  /** What is done to a writer. A refused `prepare` does nothing. */
  datatype Operation =
    | Reserve(path: nat, sealed: File)
    | Consume(result: Result<Receipt, WriterError>)
    | Poison
    | JoinFailed

  /** A reservation takes place. */
  predicate Reserves(s: WriterState, op: Operation) {
    && op.Reserve? && s.healthy && s.pending.None? && s.committedCounter < MAX_COUNTER
    && op.sealed.Container? && op.sealed.counter == s.committedCounter + 1
  }

  /** The consumed result is the receipt of the pending write. */
  predicate Commits(s: WriterState, op: Operation) {
    op.Consume? && s.pending.Some? && op.result == Ok(s.pending.value)
  }

  function Apply(s: WriterState, op: Operation): WriterState {
    match op
    case Reserve(path, sealed) =>
      if Reserves(s, op) then s.(pending := Some(Receipt(s.committedCounter + 1, path, sealed))) else s
    case Consume(result) =>
      if s.pending.None? then s
      else if Commits(s, op) then
        WriterState(result.value.counter, Some(result.value.file), None, s.healthy)
      else s.(pending := None, healthy := false)
    case Poison => if s.pending.Some? then s else s.(healthy := false)
    case JoinFailed => s.(pending := None, healthy := false)
  }

  function ApplyAll(s: WriterState, ops: seq<Operation>): WriterState {
    if ops == [] then s else Apply(ApplyAll(s, ops[..|ops| - 1]), ops[|ops| - 1])
  }

  /** How many of the operations consumed a matching receipt. */
  function CommitCount(s: WriterState, ops: seq<Operation>): nat {
    if ops == [] then 0
    else
      var before := ops[..|ops| - 1];
      CommitCount(s, before) + if Commits(ApplyAll(s, before), ops[|ops| - 1]) then 1 else 0
  }

  /** Over every run: the invariant holds, the committed counter rises by exactly one per matching
      receipt and never otherwise, and an unhealthy writer neither recovers nor commits. */
  lemma {:induction false} WriterRuns(s: WriterState, ops: seq<Operation>)
    requires Sound(s)
    ensures Sound(ApplyAll(s, ops))
    ensures ApplyAll(s, ops).committedCounter == s.committedCounter + CommitCount(s, ops)
    ensures CommitCount(s, ops) == 0 ==> ApplyAll(s, ops).committed == s.committed
    ensures !s.healthy ==> ApplyAll(s, ops) == s
  {
    if ops != [] {
      WriterRuns(s, ops[..|ops| - 1]);
    }
  }

  /** At most one write is pending: between two reservations a result was consumed and committed. */
  lemma {:induction false} OnePending(s: WriterState, ops: seq<Operation>, i: nat, j: nat)
    requires Sound(s) && i < j < |ops|
    requires Reserves(ApplyAll(s, ops[..i]), ops[i]) && Reserves(ApplyAll(s, ops[..j]), ops[j])
    ensures exists k :: i < k < j && Commits(ApplyAll(s, ops[..k]), ops[k])
  {
    if forall k :: i < k < j ==> !Commits(ApplyAll(s, ops[..k]), ops[k]) {
      StillPending(s, ops, i, j);
    }
  }

  /** Neither free nor healthy again without a commit. */
  predicate Taken(s: WriterState) {
    s.pending.Some? || !s.healthy
  }

  lemma TakenStays(s: WriterState, op: Operation)
    requires Sound(s) && ((Taken(s) && !Commits(s, op)) || Reserves(s, op))
    ensures Taken(Apply(s, op))
  {}

  lemma {:induction false} StillPending(s: WriterState, ops: seq<Operation>, i: nat, j: nat)
    requires Sound(s) && i < j <= |ops| && Reserves(ApplyAll(s, ops[..i]), ops[i])
    requires forall k :: i < k < j ==> !Commits(ApplyAll(s, ops[..k]), ops[k])
    ensures Taken(ApplyAll(s, ops[..j]))
  {
    var before := ApplyAll(s, ops[..j - 1]);
    assert ops[..j][..j - 1] == ops[..j - 1];
    assert ApplyAll(s, ops[..j]) == Apply(before, ops[j - 1]);
    WriterRuns(s, ops[..j - 1]);
    if i < j - 1 {
      StillPending(s, ops, i, j - 1);
    }
    TakenStays(before, ops[j - 1]);
  }

  // ----- the writer object -----

  /** The directory is as this writer left it. */
  predicate Undisturbed(d: Directory, s: WriterState) {
    if s.committed.Some? then Main in d && d[Main] == s.committed.value else d == map[]
  }

  /** `prepare` goes through. */
  predicate MayPrepare(d: Directory, s: WriterState) {
    s.healthy && s.pending.None? && Undisturbed(d, s) && s.committedCounter < MAX_COUNTER
  }

  /** What a save leaves in the directory, whether it succeeded or not. */
  ghost predicate SaveEffect(d: Directory, s: WriterState, sealed: File, temp: Name, ok: bool, d': Directory) {
    if ok then d' == d[Main := sealed]
    else SameElsewhere(d, d', Main, temp) && TargetIs(d', Main, sealed, d, s.committed.None?)
  }

  class VaultWriter {
    const disk: Disk
    const path: nat
    var committedCounter: U64
    var committed: Option<File>
    var pending: Option<Receipt>
    var healthy: bool

    function State(): WriterState
      reads this
    {
      WriterState(committedCounter, committed, pending, healthy)
    }

    constructor (disk: Disk, path: nat, counter: U64, committed: Option<File>)
      ensures this.disk == disk && this.path == path && State() == WriterState(counter, committed, None, true)
    {
      this.disk, this.path := disk, path;
      this.committedCounter, this.committed, this.pending, this.healthy := counter, committed, None, true;
    }

    method PoisonWriter() returns (r: Result<(), WriterError>)
      requires Sound(State())
      modifies this
      ensures State() == Apply(old(State()), Poison)
      ensures r.Ok? <==> old(pending).None?
    {
      if pending.Some? { return Err(NotConsumed); }
      healthy := false;
      return Ok(());
    }

    /** `prepare`: exactly when the writer is at rest and the directory is as it left it, the next
        counter is reserved; a refusal changes nothing. */
    method Prepare(keyslot: Keyslot, payload: nat, size: nat) returns (r: Result<PreparedWrite, WriterError>)
      requires Sound(State())
      modifies this
      ensures r.Ok? <==> MayPrepare(disk.files, old(State()))
      ensures r.Err? ==> State() == old(State())
      ensures r.Ok? ==>
        && old(committedCounter) < MAX_COUNTER
        && r.value.sealed == Container(keyslot, old(committedCounter) + 1, payload, size)
        && r.value == PreparedWrite(old(committedCounter) + 1, path, r.value.sealed, old(committed).None?)
        && State() == Apply(old(State()), Reserve(path, r.value.sealed))
        && pending == Some(Receipt(r.value.counter, path, r.value.sealed))
    {
      if !healthy { return Err(IsUnhealthy); }
      if pending.Some? { return Err(NotConsumed); }
      if committed.Some? {
        if Main !in disk.files || disk.files[Main] != committed.value { return Err(ChangedOutside); }
      } else {
        if Main in disk.files { return Err(FileAppeared); }
        if disk.files.Keys != {} {
          assert disk.files != map[];
          return Err(CandidatesAppeared);
        }
        assert disk.files == map[];
      }
      if committedCounter == 0xFFFF_FFFF_FFFF_FFFF { return Err(CounterOverflow); }
      var counter: U64 := committedCounter + 1;
      var sealed := Container(keyslot, counter, payload, size);
      pending := Some(Receipt(counter, path, sealed));
      return Ok(PreparedWrite(counter, path, sealed, committed.None?));
    }

    /** `consume`: a receipt equal to the reservation commits it; anything else ends the writer. */
    method ConsumeResult(result: Result<Receipt, WriterError>) returns (r: Result<Receipt, WriterError>)
      requires Sound(State())
      modifies this
      ensures State() == Apply(old(State()), Consume(result))
      ensures r.Ok? <==> Commits(old(State()), Consume(result))
      ensures r.Ok? ==> r == result
      ensures r.Err? && old(pending).Some? ==> !healthy
    {
      if pending.None? { return Err(NothingPending); }
      var expected := pending.value;
      pending := None;
      match result
      case Ok(receipt) =>
        if receipt.counter == expected.counter && receipt.path == expected.path && receipt.file == expected.file {
          committedCounter := expected.counter;
          committed := Some(receipt.file);
          return Ok(receipt);
        }
        healthy := false;
        return Err(ReceiptMismatch);
      case Err(error) =>
        healthy := false;
        return Err(error);
    }

    method ConsumeJoinFailure() returns (e: WriterError)
      requires Sound(State())
      modifies this
      ensures State() == Apply(old(State()), JoinFailed) && e == JoinFailure
    {
      pending, healthy := None, false;
      return JoinFailure;
    }

    /** `save_sync`: what it does to the writer and the directory, and that the crash model of a
        single writer allows it. */
    method SaveSync(ghost w: World, keyslot: Keyslot, payload: nat, size: nat, temp: Name, fate: Fate)
      returns (r: Result<Receipt, WriterError>)
      requires Sound(State()) && disk.Valid() && temp.Temp? && temp !in disk.files
      requires w.history == disk.history && w.process == Idle(committed)
      modifies this, disk
      ensures disk.Valid() && Sound(State())
      ensures r.Ok? <==> MayPrepare(old(disk.files), old(State())) && fate.fault.None?
      ensures !MayPrepare(old(disk.files), old(State())) ==> disk.files == old(disk.files) && State() == old(State())
      ensures MayPrepare(old(disk.files), old(State())) ==>
        var sealed := Container(keyslot, old(committedCounter) + 1, payload, size);
        && SaveEffect(old(disk.files), old(State()), sealed, temp, r.Ok?, disk.files)
        && State() == (if r.Ok? then WriterState(sealed.counter, Some(sealed), None, true)
                       else old(State()).(pending := None, healthy := false))
        && (SlotFits(old(disk.files), old(committed), keyslot) ==>
              Reaches(w, AfterSave(w, sealed, r.Ok?).(history := disk.history)))
    {
      var prepared := Prepare(keyslot, payload, size);
      if prepared.Err? { return Err(prepared.error); }
      var task := Task(Save, Main, temp, prepared.value.sealed, Begin);
      ghost var v := World(disk.history, Busy(old(committed), task), w.receipt, w.attempts + {prepared.value.sealed});
      var result := Execute(disk, v, old(committed), prepared.value, temp, fate);
      r := ConsumeResult(result);
      if SlotFits(old(disk.files), old(committed), keyslot) {
        assert StartSave(w, task.file, temp, v);
        ReachesSelf(w);
        ReachesStep(w, w, v);
        ReachesTrans(w, v, AfterSave(w, task.file, r.Ok?).(history := disk.history));
      }
    }
  }

  /** The container's keyslot is the committed save's, or one no file shows. */
  ghost predicate SlotFits(d: Directory, base: Option<File>, keyslot: Keyslot) {
    base.Some? && base.value.Container? ==> keyslot == base.value.keyslot || SlotUnused(d, keyslot)
  }

  /** The crash model's state after a save that took place. */
  function AfterSave(w: World, sealed: File, ok: bool): World {
    if ok then w.(process := Idle(Some(sealed)), receipt := Some(sealed), attempts := {})
    else w.(process := Unhealthy, attempts := w.attempts + {sealed})
  }

  /** `execute`: the sealed counter must be the reserved one; then the file is installed, and read
      back once more before the receipt is issued. */
  method Execute(disk: Disk, ghost v: World, ghost base: Option<File>, prepared: PreparedWrite, temp: Name, fate: Fate)
    returns (r: Result<Receipt, WriterError>)
    requires disk.Valid() && v.history == disk.history && temp.Temp? && temp !in disk.files
    requires v.process == Busy(base, Task(Save, Main, temp, prepared.sealed, Begin)) && prepared.first == base.None?
    modifies disk
    ensures disk.Valid()
    ensures r.Ok? <==>
      && prepared.sealed.Container? && prepared.sealed.counter == prepared.counter && fate.fault.None?
      && !(prepared.first && Main in old(disk.files))
    ensures r.Ok? ==> r.value == Receipt(prepared.counter, prepared.path, prepared.sealed)
    ensures r.Ok? ==> disk.files == old(disk.files)[Main := prepared.sealed]
    ensures r.Ok? ==> Reaches(v, v.(history := disk.history, process := Idle(Some(prepared.sealed)), receipt := Some(prepared.sealed), attempts := {}))
    ensures r.Err? ==> SameElsewhere(old(disk.files), disk.files, Main, temp)
    ensures r.Err? ==> TargetIs(disk.files, Main, prepared.sealed, old(disk.files), prepared.first)
    ensures r.Err? ==> Reaches(v, v.(history := disk.history, process := Unhealthy))
  {
    if !prepared.sealed.Container? || prepared.sealed.counter != prepared.counter {
      assert Fail(v, v.With(Unhealthy));
      ReachesSelf(v);
      ReachesStep(v, v, v.With(Unhealthy));
      return Err(CounterDiffers);
    }
    var task := Task(Save, Main, temp, prepared.sealed, Begin);
    var written := disk.WriteAtomic(v, base, task, prepared.first, fate);
    if written.Err? { return Err(Storage(written.error)); }
    ghost var v1 := v.(history := disk.history, process := Busy(base, task.(phase := Durable)));
    if fate.fault == Some(ReadingInstalled) {
      assert Fail(v1, v1.With(Unhealthy));
      ReachesStep(v, v1, v1.With(Unhealthy));
      return Err(Storage(Io(ReadingInstalled)));
    }
    ghost var v2 := v1.(process := Idle(Some(prepared.sealed)), receipt := Some(prepared.sealed), attempts := {});
    assert Advance(v1, v2);
    ReachesAdvance(v, v1, v2);
    return Ok(Receipt(prepared.counter, prepared.path, prepared.sealed));
  }

  /** `fresh`: only beside no wallet file and no recovery candidates. */
  method OpenFresh(disk: Disk, path: nat) returns (r: Result<VaultWriter, WriterError>)
    ensures r.Ok? <==> disk.files == map[]
    ensures r.Ok? ==> r.value.disk == disk && r.value.State() == FRESH && Sound(r.value.State())
  {
    if Main in disk.files { return Err(FileAppeared); }
    if disk.files.Keys != {} {
      assert disk.files != map[];
      return Err(CandidatesAppeared);
    }
    assert disk.files == map[];
    var writer := new VaultWriter(disk, path, 0, None);
    return Ok(writer);
  }

  /** `authenticated`: only while the main file still is the selected save. */
  method OpenAuthenticated(disk: Disk, path: nat, selected: Selected) returns (r: Result<VaultWriter, WriterError>)
    ensures r.Ok? <==> Main in disk.files && disk.files[Main] == selected.file && Holds(selected.file, selected.counter)
    ensures r.Ok? ==> r.value.disk == disk && r.value.State() == Authenticated(selected.file) && Sound(r.value.State())
  {
    if Main !in disk.files || disk.files[Main] != selected.file || !Holds(selected.file, selected.counter) {
      return Err(ChangedOutside);
    }
    var writer := new VaultWriter(disk, path, selected.counter, Some(selected.file));
    return Ok(writer);
  }

  predicate Holds(f: File, counter: U64) {
    f.Container? && f.counter == counter
  }

  const FRESH := WriterState(0, None, None, true)

  function Authenticated(f: File): WriterState
    requires f.Container?
  {
    WriterState(f.counter, Some(f), None, true)
  }

  // ----- any number of writers on one directory, one operation at a time -----

  datatype Store = Store(files: Directory, writers: map<nat, WriterState>)

  datatype Action =
    | OpenNew(id: nat)
    | Open(id: nat, password: nat, winner: Name, temp: Name, ok: bool)
    | SaveAs(id: nat, sealed: File, temp: Name, ok: bool)
    | PoisonOne(id: nat)
    | Residue

  ghost predicate Transition(s: Store, a: Action, s': Store) {
    match a
    case OpenNew(id) => s.files == map[] && s' == s.(writers := s.writers[id := FRESH])
    case Open(id, password, winner, temp, ok) =>
      && Unlockable(s.files, password) && Newest(s.files, password, winner)
      && if ok then
           s' == Store(Installed(s.files, winner), s.writers[id := Authenticated(s.files[winner])])
         else
           && s'.writers == s.writers && temp.Temp?
           && SameElsewhere(s.files, s'.files, Main, temp) && TargetIs(s'.files, Main, s.files[winner], s.files, false)
    case SaveAs(id, sealed, temp, ok) =>
      && id in s.writers && temp.Temp?
      && if MayPrepare(s.files, s.writers[id]) then
           && sealed.Container? && sealed.counter == s.writers[id].committedCounter + 1
           && SaveEffect(s.files, s.writers[id], sealed, temp, ok, s'.files)
           && s'.writers == s.writers[id := if ok then Authenticated(sealed) else s.writers[id].(pending := None, healthy := false)]
         else !ok && s' == s
    case PoisonOne(id) => id in s.writers && s' == s.(writers := s.writers[id := Apply(s.writers[id], Poison)])
    case Residue => OnlyMainKept(s, s')
  }

  /** Files other than the main one come and go: quarantine copies, shredding, leftovers. */
  ghost predicate OnlyMainKept(s: Store, s': Store) {
    s'.writers == s.writers && (Main in s.files <==> Main in s'.files) && (Main in s.files ==> s'.files[Main] == s.files[Main])
  }

  ghost predicate StoreRun(ss: seq<Store>, acts: seq<Action>) {
    && |ss| == |acts| + 1
    && (Main in ss[0].files ==> ss[0].files[Main].Container?) && ss[0].writers == map[]
    && forall i :: 0 <= i < |acts| ==> Transition(ss[i], acts[i], ss[i + 1])
  }

  /** The main file is the same, or a strictly newer save took its place. */
  ghost predicate Grows(d: Directory, d': Directory) {
    Main in d && d[Main].Container? ==>
      Main in d' && d'[Main].Container? && (d'[Main] == d[Main] || d'[Main].counter > d[Main].counter)
  }

  /** No writer is ahead of the main file, and one that is level with it wrote or selected it. */
  ghost predicate Behind(s: Store) {
    && (Main in s.files ==> s.files[Main].Container?)
    && forall id :: id in s.writers ==> Trails(s.writers[id], s.files)
  }

  ghost predicate Trails(w: WriterState, d: Directory) {
    && Sound(w) && w.pending.None?
    && (w.committed.Some? ==>
          && Main in d && d[Main].Container?
          && (d[Main] == w.committed.value || d[Main].counter > w.committed.value.counter))
  }

  lemma TransitionGrows(s: Store, a: Action, s': Store)
    requires Behind(s) && Transition(s, a, s')
    ensures Grows(s.files, s'.files) && (Main in s'.files ==> s'.files[Main].Container?)
  {
    if a.Open? {
      var d := s.files;
      if Main in d && d[Main] != d[a.winner] {
        assert Eligible(d, a.password, Main);
        AmbiguityAtWinner(d, a.password, a.winner);
      }
    }
  }

  lemma TransitionKeeps(s: Store, a: Action, s': Store)
    requires Behind(s) && Transition(s, a, s')
    ensures Behind(s')
  {
    TransitionGrows(s, a, s');
  }

  lemma {:induction false} StoreRunKeeps(ss: seq<Store>, acts: seq<Action>, i: nat)
    requires StoreRun(ss, acts) && i <= |acts|
    ensures Behind(ss[i])
  {
    if i > 0 {
      StoreRunKeeps(ss, acts, i - 1);
      assert Transition(ss[i - 1], acts[i - 1], ss[i - 1 + 1]);
      TransitionKeeps(ss[i - 1], acts[i - 1], ss[i]);
    }
  }

  /** The installed counters strictly increase, whoever saves or unlocks. */
  lemma {:induction false} InstalledCountersIncrease(ss: seq<Store>, acts: seq<Action>, i: nat, j: nat)
    requires StoreRun(ss, acts) && i <= j <= |acts|
    ensures Grows(ss[i].files, ss[j].files)
  {
    if i < j {
      InstalledCountersIncrease(ss, acts, i, j - 1);
      StoreRunKeeps(ss, acts, j - 1);
      assert Transition(ss[j - 1], acts[j - 1], ss[j - 1 + 1]);
      TransitionGrows(ss[j - 1], acts[j - 1], ss[j]);
    }
  }

  /** At step `j` this writer itself selected or installed `f` as the main file. */
  ghost predicate Learned(ss: seq<Store>, acts: seq<Action>, id: nat, f: File, j: nat)
    requires |ss| == |acts| + 1
  {
    && 0 < j <= |acts| && (acts[j - 1].Open? || acts[j - 1].SaveAs?) && acts[j - 1].id == id && acts[j - 1].ok
    && Main in ss[j].files && ss[j].files[Main] == f
  }

  lemma {:induction false} CommittedWasLearned(ss: seq<Store>, acts: seq<Action>, id: nat, i: nat) returns (j: nat)
    requires StoreRun(ss, acts) && i <= |acts| && id in ss[i].writers && ss[i].writers[id].committed.Some?
    ensures j <= i && Learned(ss, acts, id, ss[i].writers[id].committed.value, j)
  {
    var f := ss[i].writers[id].committed.value;
    assert i > 0;
    StoreRunKeeps(ss, acts, i - 1);
    assert Transition(ss[i - 1], acts[i - 1], ss[i - 1 + 1]);
    if id in ss[i - 1].writers && ss[i - 1].writers[id].committed == Some(f) {
      j := CommittedWasLearned(ss, acts, id, i - 1);
    } else {
      j := i;
    }
  }

  /** No writer overwrites a save it has not seen: the save a writer replaces is one it selected or
      installed itself, and nobody touched the main file since. A writer that saw none creates the
      first file of an empty directory. */
  lemma NoLostUpdate(ss: seq<Store>, acts: seq<Action>, i: nat)
    requires StoreRun(ss, acts) && i < |acts| && acts[i].SaveAs?
    requires ss[i + 1].files != ss[i].files
    ensures Main !in ss[i].files ==> ss[i].files == map[]
    ensures Main in ss[i].files ==>
      exists j: nat :: j <= i && Learned(ss, acts, acts[i].id, ss[i].files[Main], j)
        && forall k :: j <= k <= i ==> Main in ss[k].files && ss[k].files[Main] == ss[i].files[Main]
  {
    var id := acts[i].id;
    assert Transition(ss[i], acts[i], ss[i + 1]);
    assert MayPrepare(ss[i].files, ss[i].writers[id]);
    if Main in ss[i].files {
      var f := ss[i].files[Main];
      var j := CommittedWasLearned(ss, acts, id, i);
      StoreRunKeeps(ss, acts, j);
      forall k | j <= k <= i ensures Main in ss[k].files && ss[k].files[Main] == f {
        InstalledCountersIncrease(ss, acts, j, k);
        InstalledCountersIncrease(ss, acts, k, i);
      }
    }
  }

  /** Once another save is installed, a writer that does not unlock again never writes again. */
  lemma {:induction false} StaleForever(ss: seq<Store>, acts: seq<Action>, id: nat, i: nat, j: nat)
    requires StoreRun(ss, acts) && i <= j < |acts| && id in ss[i].writers && ss[i].writers[id].committed.Some?
    requires Main in ss[i].files && ss[i].files[Main] != ss[i].writers[id].committed.value
    requires forall k :: i <= k <= j ==> !((acts[k].Open? || acts[k].OpenNew?) && acts[k].id == id)
    ensures id in ss[j].writers && ss[j].writers[id].committed == ss[i].writers[id].committed
    ensures acts[j].SaveAs? && acts[j].id == id ==> !acts[j].ok && ss[j + 1] == ss[j]
  {
    StoreRunKeeps(ss, acts, i);
    InstalledCountersIncrease(ss, acts, i, j);
    assert Transition(ss[j], acts[j], ss[j + 1]);
    if i < j {
      StaleForever(ss, acts, id, i, j - 1);
      assert Transition(ss[j - 1], acts[j - 1], ss[j - 1 + 1]);
    }
  }
}
