/** The wallet directory and `VaultStore::unlock` (crates/cc-wallet-storage/src/vault_store.rs).
    A file is a sealed container, of which only the keyslot, the save counter, the size and the
    payload matter, or something that does not open. Two files are equal when their bytes are. */
module Vault {
  import opened Wrappers
  import opened Bytes

  /** A keyslot is drawn afresh for every password; it opens with that password only. */
  datatype Keyslot = Keyslot(salt: nat, password: nat, costly: bool)

  datatype File =
    | Container(keyslot: Keyslot, counter: U64, payload: nat, size: nat)
    | Damaged(visibleSlot: Option<Keyslot>, size: nat)
  {
    function Slot(): Option<Keyslot> {
      if Container? then Some(keyslot) else visibleSlot
    }

    predicate Opens(password: nat) {
      Container? && keyslot.password == password
    }
  }

  datatype Name = Main | Temp(id: nat) | Orphan(counter: nat)

  type Directory = map<Name, File>

  const MAX_CANDIDATE_CONTAINER_BYTES := 32 * 1024 * 1024

  /** The main file is always considered; others only if small and with an ordinary key derivation. */
  predicate Considered(n: Name, f: File) {
    n.Main? || (f.size <= MAX_CANDIDATE_CONTAINER_BYTES && !(f.Slot().Some? && f.Slot().value.costly))
  }

  predicate Candidate(d: Directory, n: Name) {
    n in d && Considered(n, d[n])
  }

  /** A candidate that opens and belongs to the main file's key generation, if there is a main file. */
  predicate Eligible(d: Directory, password: nat, n: Name) {
    Candidate(d, n) && d[n].Opens(password) && (Main in d ==> d[n].Slot() == d[Main].Slot())
  }

  predicate MainRefuses(d: Directory, password: nat) {
    Main in d && !d[Main].Opens(password)
  }

  /** Without a main file, two candidates show different key generations. */
  ghost predicate MixedSlots(d: Directory) {
    Main !in d && exists a, b ::
      Candidate(d, a) && Candidate(d, b) && d[a].Slot().Some? && d[b].Slot().Some? && d[a].Slot() != d[b].Slot()
  }

  ghost predicate Newest(d: Directory, password: nat, n: Name) {
    Eligible(d, password, n) && forall m :: Eligible(d, password, m) ==> d[m].counter <= d[n].counter
  }

  /** Two different files share the newest counter. */
  ghost predicate Ambiguous(d: Directory, password: nat) {
    exists a, b :: Newest(d, password, a) && Newest(d, password, b) && d[a] != d[b]
  }

  ghost predicate Unlockable(d: Directory, password: nat) {
    && !MainRefuses(d, password) && !MixedSlots(d) && !Ambiguous(d, password)
    && exists n :: Eligible(d, password, n)
  }

  /** A whole save of at most 32 MiB under an ordinary key derivation that the password opens, and
      that belongs to the main file's key generation, if there is a main file. */
  predicate OrdinarySave(d: Directory, password: nat, n: Name) {
    && n in d && d[n].Container? && d[n].size <= 33554432 && !d[n].keyslot.costly && d[n].keyslot.password == password
    && (Main in d ==> d[Main].Slot() == Some(d[n].keyslot))
  }

  /** No ordinary save is overlooked, and a file beside the main one is used only if it is small and
      of ordinary derivation cost. */
  lemma NewestIsNoOlder(d: Directory, password: nat, winner: Name)
    requires Newest(d, password, winner)
    ensures forall n :: OrdinarySave(d, password, n) ==> d[n].counter <= d[winner].counter
    ensures winner != Main ==> d[winner].size <= 33554432 && !d[winner].keyslot.costly
    ensures d[winner].keyslot.password == password && (Main in d ==> d[Main].Slot() == Some(d[winner].keyslot))
  {
    forall n | OrdinarySave(d, password, n) ensures Eligible(d, password, n) {}
  }

  /** Recovery without a main file: ordinary saves of one key generation unlock, unless two different
      ones share the newest counter. */
  lemma RecoversWithoutMain(d: Directory, password: nat, n: Name)
    requires Main !in d && OrdinarySave(d, password, n)
    requires forall m :: m in d && d[m].Slot().Some? ==> d[m].Slot() == Some(d[n].keyslot)
    requires forall a, b :: a in d && b in d && d[a].Container? && d[b].Container? && d[a].counter == d[b].counter ==> d[a] == d[b]
    ensures Unlockable(d, password)
  {
    assert Eligible(d, password, n);
  }

  /** With a main file, exactly its password unlocks, unless two different files of its key generation
      share the newest counter. */
  lemma MainUnlocks(d: Directory, password: nat)
    requires Main in d
    requires forall a, b :: a in d && b in d && d[a].Container? && d[b].Container? && d[a].counter == d[b].counter ==> d[a] == d[b]
    ensures Unlockable(d, password) <==> d[Main].Container? && d[Main].keyslot.password == password
  {
    if d[Main].Opens(password) { assert Eligible(d, password, Main); }
  }

  datatype UnlockError =
    | MainNotAuthenticated | MixedKeyGenerations | NothingOpens | NoWallet | AmbiguousNewest

  datatype Selected = Selected(counter: U64, file: File)

  /** A directory listing: every file but the main one, each once, in the order the system returns. */
  ghost predicate IsListing(d: Directory, listing: seq<Name>) {
    && (forall n :: n in listing <==> n in d && n != Main)
    && forall i, j :: 0 <= i < j < |listing| ==> listing[i] != listing[j]
  }

  class VaultStore {
    var files: Directory

    constructor (files: Directory)
      ensures this.files == files
    {
      this.files := files;
    }

    /** The first loop of `unlock`: which candidates open, and which keyslots are visible. */
    method OpenCandidates(password: nat, paths: seq<Name>)
      returns (openable: seq<Name>, plausible: seq<Keyslot>, failures: nat)
      requires forall i :: 0 <= i < |paths| ==> paths[i] in files
      ensures forall n :: n in openable <==> n in paths && Candidate(files, n) && files[n].Opens(password)
      ensures forall s :: s in plausible <==> exists n :: n in paths && Candidate(files, n) && files[n].Slot() == Some(s)
      ensures |paths| > 0 && paths[0] == Main && Main in openable ==> openable[0] == Main
      ensures (forall i :: 0 < i < |paths| ==> paths[i] != Main) ==> forall i :: 0 < i < |openable| ==> openable[i] != Main
    {
      openable, plausible, failures := [], [], 0;
      for i := 0 to |paths|
        invariant forall n :: n in openable <==> n in paths[..i] && Candidate(files, n) && files[n].Opens(password)
        invariant forall s :: s in plausible <==>
          exists n :: n in paths[..i] && Candidate(files, n) && files[n].Slot() == Some(s)
        invariant i > 0 && paths[0] == Main && Main in openable ==> openable[0] == Main
        invariant (forall k :: 0 < k < |paths| ==> paths[k] != Main) ==> forall k :: 0 < k < |openable| ==> openable[k] != Main
        invariant i == 0 ==> openable == []
      {
        var path := paths[i];
        assert paths[..i + 1] == paths[..i] + [path];
        ghost var before := plausible;
        if Considered(path, files[path]) {
          if files[path].Slot().Some? {
            plausible := plausible + [files[path].Slot().value];
          }
          if files[path].Opens(password) {
            openable := openable + [path];
          } else {
            failures := failures + 1;
          }
        }
        forall s ensures s in plausible <==>
          exists n :: n in paths[..i + 1] && Candidate(files, n) && files[n].Slot() == Some(s)
        {
          if s in plausible && s !in before { assert path in paths[..i + 1]; }
        }
      }
      assert paths[..|paths|] == paths;
    }

    /** `retain`: keep the candidates of the main file's key generation. */
    method RetainGeneration(openable: seq<Name>, slot: Option<Keyslot>) returns (kept: seq<Name>)
      requires forall n :: n in openable ==> n in files
      ensures forall n :: n in kept <==> n in openable && (n == Main || files[n].Slot() == slot)
      ensures |openable| > 0 && openable[0] == Main ==> |kept| > 0 && kept[0] == Main
    {
      kept := [];
      for i := 0 to |openable|
        invariant forall n :: n in kept <==> n in openable[..i] && (n == Main || files[n].Slot() == slot)
        invariant i > 0 && |openable| > 0 && openable[0] == Main ==> |kept| > 0 && kept[0] == Main
        invariant i == 0 ==> kept == []
      {
        assert openable[..i + 1] == openable[..i] + [openable[i]];
        if openable[i] == Main || files[openable[i]].Slot() == slot { kept := kept + [openable[i]]; }
      }
      assert openable[..|openable|] == openable;
    }

    /** The first candidate carrying the largest counter, and whether another file also carries it. */
    method PickNewest(openable: seq<Name>) returns (winner: Name, ambiguous: bool)
      requires openable != [] && forall n :: n in openable ==> n in files && files[n].Container?
      ensures winner in openable && forall n :: n in openable ==> files[n].counter <= files[winner].counter
      ensures ambiguous <==> exists n :: n in openable && files[n].counter == files[winner].counter && files[n] != files[winner]
      ensures files[openable[0]].counter == files[winner].counter ==> winner == openable[0]
    {
      winner := openable[0];
      for i := 1 to |openable|
        invariant winner in openable && forall k :: 0 <= k < i ==> files[openable[k]].counter <= files[winner].counter
        invariant files[openable[0]].counter == files[winner].counter ==> winner == openable[0]
      {
        if files[openable[i]].counter > files[winner].counter { winner := openable[i]; }
      }
      ambiguous := false;
      for i := 0 to |openable|
        invariant ambiguous <==>
          exists k :: 0 <= k < i && files[openable[k]].counter == files[winner].counter && files[openable[k]] != files[winner]
      {
        if files[openable[i]].counter == files[winner].counter && files[openable[i]] != files[winner] { ambiguous := true; }
      }
      forall n | n in openable ensures files[n].counter <= files[winner].counter {
        var k :| 0 <= k < |openable| && openable[k] == n;
      }
      if ambiguous {
        var k :| 0 <= k < |openable| && files[openable[k]].counter == files[winner].counter && files[openable[k]] != files[winner];
        assert openable[k] in openable;
      }
    }

    /** `windows(2).any(..)`: all keyslots are the same exactly when no neighbours differ. */
    method AllSame(slots: seq<Keyslot>) returns (same: bool)
      ensures same <==> forall s, t :: s in slots && t in slots ==> s == t
    {
      same := true;
      for i := 0 to |slots|
        invariant forall k :: 0 <= k < i ==> slots[k] == slots[0]
      {
        if i > 0 && slots[i] != slots[i - 1] {
          assert slots[i] in slots && slots[i - 1] in slots;
          return false;
        }
      }
    }

    /** `unlock` up to its choice: succeeds exactly when the directory is unlockable with this
        password, whatever the order of the listing, and names a newest eligible save, the main
        file itself if it is one. */
    method Select(password: nat, listing: seq<Name>) returns (r: Result<Name, UnlockError>)
      requires IsListing(files, listing)
      ensures r.Ok? <==> Unlockable(files, password)
      ensures r.Ok? ==> Newest(files, password, r.value)
      ensures r.Ok? && Main in files && Newest(files, password, Main) ==> r.value == Main
      ensures r.Ok? ==> forall n :: OrdinarySave(files, password, n) ==> files[n].counter <= files[r.value].counter
      ensures r.Ok? && r.value != Main ==> files[r.value].size <= 33554432 && !files[r.value].keyslot.costly
      ensures r.Err? && MainRefuses(files, password) ==> r.error == MainNotAuthenticated
    {
      var paths := (if Main in files then [Main] else []) + listing;
      assert forall n :: n in paths <==> n in files;
      var openable, plausible, failures := OpenCandidates(password, paths);
      if Main in files && Main !in openable {
        return Err(MainNotAuthenticated);
      }
      assert !MainRefuses(files, password);
      if Main in files {
        openable := RetainGeneration(openable, files[Main].Slot());
      } else {
        var same := AllSame(plausible);
        MixedIsDifferentSlots(files, plausible);
        if !same { return Err(MixedKeyGenerations); }
      }
      assert forall n :: n in openable <==> Eligible(files, password, n);
      if openable == [] {
        return Err(if failures > 0 then NothingOpens else NoWallet);
      }
      var winner, ambiguous := PickNewest(openable);
      assert openable[0] in openable;
      AmbiguityAtWinner(files, password, winner);
      if ambiguous { return Err(AmbiguousNewest); }
      NewestIsNoOlder(files, password, winner);
      return Ok(winner);
    }

    /** `unlock` when nothing fails: then the main file holds the newest eligible save; every other
        file is untouched, except that a promoted temporary is gone. A refusal changes nothing. */
    method Unlock(password: nat, listing: seq<Name>) returns (r: Result<Selected, UnlockError>)
      requires IsListing(files, listing)
      modifies this
      ensures r.Ok? <==> Unlockable(old(files), password)
      ensures r.Err? ==> files == old(files)
      ensures r.Err? && MainRefuses(old(files), password) ==> r.error == MainNotAuthenticated
      ensures r.Ok? ==> exists winner ::
        && Newest(old(files), password, winner)
        && r.value == Selected(old(files)[winner].counter, old(files)[winner])
        && files == Installed(old(files), winner) && (winner.Temp? ==> winner !in files) && (winner.Orphan? ==> winner in files)
      ensures r.Ok? ==> forall n :: OrdinarySave(old(files), password, n) ==> old(files)[n].counter <= r.value.counter
      ensures r.Ok? ==> Main in files && files[Main] == r.value.file && r.value.file.counter == r.value.counter
      ensures r.Ok? ==> forall n :: n in files && n != Main ==> n in old(files) && files[n] == old(files)[n]
      ensures r.Ok? ==> forall n :: n in old(files) && n !in files ==> n.Temp? && old(files)[n] == r.value.file
      ensures r.Ok? && Main in old(files) && old(files)[Main].counter == r.value.counter ==> files == old(files)
    {
      var selected := Select(password, listing);
      if selected.Err? { return Err(selected.error); }
      var winner := selected.value;
      var file := files[winner];
      files := Installed(files, winner);
      return Ok(Selected(file.counter, file));
    }
  }

  /** The winner's bytes under the main name; a winning temporary is then removed. */
  function Installed(d: Directory, winner: Name): Directory
    requires winner in d
  {
    if winner == Main then d
    else if winner.Temp? then d[Main := d[winner]] - {winner}
    else d[Main := d[winner]]
  }

  lemma MixedIsDifferentSlots(d: Directory, plausible: seq<Keyslot>)
    requires Main !in d
    requires forall s :: s in plausible <==> exists n :: Candidate(d, n) && d[n].Slot() == Some(s)
    ensures MixedSlots(d) <==> !(forall s, t :: s in plausible && t in plausible ==> s == t)
  {
    if MixedSlots(d) {
      var a, b :| Candidate(d, a) && Candidate(d, b) && d[a].Slot().Some? && d[b].Slot().Some? && d[a].Slot() != d[b].Slot();
      assert d[a].Slot().value in plausible && d[b].Slot().value in plausible;
    }
    if s, t :| s in plausible && t in plausible && s != t {
      var a :| Candidate(d, a) && d[a].Slot() == Some(s);
      var b :| Candidate(d, b) && d[b].Slot() == Some(t);
    }
  }

  lemma AmbiguityAtWinner(d: Directory, password: nat, winner: Name)
    requires Newest(d, password, winner)
    ensures Ambiguous(d, password) <==>
      exists n :: Eligible(d, password, n) && d[n].counter == d[winner].counter && d[n] != d[winner]
  {
    if n :| Eligible(d, password, n) && d[n].counter == d[winner].counter && d[n] != d[winner] {
      assert Newest(d, password, n);
    }
  }

  /** Unlocking is idempotent: the directory it leaves unlocks again, with the same save. */
  lemma UnlockSettles(d: Directory, password: nat, winner: Name)
    requires Unlockable(d, password) && Newest(d, password, winner)
    ensures Unlockable(Installed(d, winner), password)
    ensures Newest(Installed(d, winner), password, Main) && Installed(d, winner)[Main] == d[winner]
  {
    var after := Installed(d, winner);
    assert after[Main] == d[winner];
    forall m | Eligible(after, password, m) && m != Main
      ensures Eligible(d, password, m) && after[m] == d[m]
    {
      assert m in d && after[m] == d[m];
    }
    assert Newest(after, password, Main);
    AmbiguityAtWinner(after, password, Main);
    AmbiguityAtWinner(d, password, winner);
  }
}
