/** The key cache of crates/cc-wallet-chain/src/wallet_service.rs under any interleaving of any
    number of calls: `keypair_for`, `clear_config_cache`, `seal_key_ops` and `unseal_key_ops`. */
module KeySealing {
  import opened Wrappers

  type Seed = nat

  /** The key pair derived from a seed; the derivation may also refuse the seed. */
  datatype KeyPair = KeyPair(seed: Seed)

  datatype KeyError = Locked | BadSeed

  /** Where a call stands. The states between taking and releasing the cache lock are marked (lock). */
  datatype Call =
    | Entered(seed: Seed)
    | Admitted(seed: Seed)
    | LookingUp(seed: Seed)                       // (lock)
    | Missed(seed: Seed)
    | Derived(keys: KeyPair)
    | Rechecking(keys: KeyPair)                   // (lock)
    | Inserting(keys: KeyPair)                    // (lock)
    | Leaving(result: Result<KeyPair, KeyError>)  // (lock)
    | Returned(result: Result<KeyPair, KeyError>)
    | ClearEntered
    | Clearing                                    // (lock)
    | Emptied                                     // (lock)
    | ClearReturned

  predicate HoldsLock(c: Call) {
    c.LookingUp? || c.Rechecking? || c.Inserting? || c.Leaving? || c.Clearing? || c.Emptied?
  }

  datatype Service = Service(isSealed: bool, cache: map<Seed, KeyPair>, lock: Option<nat>, calls: map<nat, Call>)
  {
    function At(t: nat, c: Call): Service {
      this.(calls := calls[t := c])
    }

    function Acquire(t: nat, c: Call): Service {
      At(t, c).(lock := Some(t))
    }

    function Release(t: nat, c: Call): Service {
      At(t, c).(lock := None)
    }
  }

  const START := Service(false, map[], None, map[])

  datatype Event = Seal | Unseal | StartKeys(t: nat, seed: Seed) | StartClear(t: nat) | Proceed(t: nat)

  /** The next atomic step of one call. */
  predicate Proceeds(s: Service, t: nat, s': Service) {
    t in s.calls && match s.calls[t]
      case Entered(seed) => s' == s.At(t, if s.isSealed then Returned(Err(Locked)) else Admitted(seed))
      case Admitted(seed) => s.lock.None? && s' == s.Acquire(t, LookingUp(seed))
      case LookingUp(seed) => s' == s.Release(t, if seed in s.cache then Returned(Ok(s.cache[seed])) else Missed(seed))
      case Missed(seed) => s' == s.At(t, Derived(KeyPair(seed))) || s' == s.At(t, Returned(Err(BadSeed)))
      case Derived(keys) => s.lock.None? && s' == s.Acquire(t, Rechecking(keys))
      case Rechecking(keys) => s' == s.At(t, if s.isSealed then Leaving(Err(Locked)) else Inserting(keys))
      case Inserting(keys) => s' == s.At(t, Leaving(Ok(keys))).(cache := s.cache[keys.seed := keys])
      case Leaving(result) => s' == s.Release(t, Returned(result))
      case Returned(_) => false
      case ClearEntered => s.lock.None? && s' == s.Acquire(t, Clearing)
      case Clearing => s' == s.At(t, Emptied).(cache := map[])
      case Emptied => s' == s.Release(t, ClearReturned)
      case ClearReturned => false
  }

  predicate Step(s: Service, e: Event, s': Service) {
    match e
    case Seal => s' == s.(isSealed := true)
    case Unseal => s' == s.(isSealed := false)
    case StartKeys(t, seed) => t !in s.calls && s' == s.At(t, Entered(seed))
    case StartClear(t) => t !in s.calls && s' == s.At(t, ClearEntered)
    case Proceed(t) => Proceeds(s, t, s')
  }

  ghost predicate Run(ss: seq<Service>, es: seq<Event>) {
    && |ss| == |es| + 1 && ss[0] == START
    && forall i :: 0 <= i < |es| ==> Step(ss[i], es[i], ss[i + 1])
  }

  // ----- mutual exclusion -----

  /** Exactly the lock's owner stands inside a locked region. */
  ghost predicate Exclusive(s: Service) {
    && (forall t :: t in s.calls && HoldsLock(s.calls[t]) ==> s.lock == Some(t))
    && forall seed :: seed in s.cache ==> s.cache[seed] == KeyPair(seed)
  }

  lemma {:induction false} RunIsExclusive(ss: seq<Service>, es: seq<Event>, i: nat)
    requires Run(ss, es) && i <= |es|
    ensures Exclusive(ss[i])
  {
    if i > 0 {
      RunIsExclusive(ss, es, i - 1);
      assert Step(ss[i - 1], es[i - 1], ss[i - 1 + 1]);
    }
  }

  // ----- sealing -----

  /** Sealed, empty, and no call about to insert. */
  ghost predicate Shut(s: Service) {
    s.isSealed && s.cache == map[] && forall t :: t in s.calls ==> !s.calls[t].Inserting?
  }

  lemma ShutStays(s: Service, e: Event, s': Service)
    requires Shut(s) && Step(s, e, s') && !e.Unseal?
    ensures Shut(s')
  {}

  /** Sealing lasts until the next unsealing. */
  lemma {:induction false} SealLasts(ss: seq<Service>, es: seq<Event>, i: nat, k: nat)
    requires Run(ss, es) && i < k <= |es| && es[i].Seal?
    requires forall m :: i < m < k ==> !es[m].Unseal?
    ensures ss[k].isSealed
  {
    assert Step(ss[i], es[i], ss[i + 1]);
    if i + 1 < k {
      SealLasts(ss, es, i, k - 1);
      assert Step(ss[k - 1], es[k - 1], ss[k - 1 + 1]);
    }
  }

  /** The call clears the cache at this step. */
  predicate ClearsAt(ss: seq<Service>, es: seq<Event>, j: nat) {
    j < |es| <= |ss| && es[j].Proceed? && es[j].t in ss[j].calls && ss[j].calls[es[j].t].Clearing?
  }

  /** Whatever calls are under way, once the operations are sealed and a clearing reached its step
      afterwards, the cache is empty and stays so until the next unsealing. */
  lemma {:induction false} SealThenClear(ss: seq<Service>, es: seq<Event>, i: nat, j: nat, k: nat)
    requires Run(ss, es) && i < j < k <= |es| && es[i].Seal? && ClearsAt(ss, es, j)
    requires forall m :: i < m < k ==> !es[m].Unseal?
    ensures Shut(ss[k])
  {
    if j + 1 == k {
      SealLasts(ss, es, i, j);
      RunIsExclusive(ss, es, j);
      assert Step(ss[j], es[j], ss[j + 1]);
    } else {
      SealThenClear(ss, es, i, j, k - 1);
      assert Step(ss[k - 1], es[k - 1], ss[k - 1 + 1]);
      ShutStays(ss[k - 1], es[k - 1], ss[k]);
    }
  }

  // ----- from the callers' side: completed calls -----

  /** A completed clearing went through its clearing step after it was started. */
  lemma {:induction false} CompletedClearCleared(ss: seq<Service>, es: seq<Event>, i: nat, k: nat, t: nat) returns (j: nat)
    requires Run(ss, es) && i < k <= |es| && es[i] == StartClear(t)
    requires t in ss[k].calls && (ss[k].calls[t].Emptied? || ss[k].calls[t].ClearReturned?)
    ensures i < j < k && ClearsAt(ss, es, j)
  {
    assert Step(ss[i], es[i], ss[i + 1]);
    assert Step(ss[k - 1], es[k - 1], ss[k - 1 + 1]);
    if i + 1 < k && t in ss[k - 1].calls && (ss[k - 1].calls[t].Emptied? || ss[k - 1].calls[t].ClearReturned?) {
      j := CompletedClearCleared(ss, es, i, k - 1, t);
    } else {
      j := k - 1;
    }
  }

  /** Once `seal_key_ops` and a later `clear_config_cache` have completed, the key cache is empty
      and stays empty until `unseal_key_ops`. */
  lemma SealedCacheStaysEmpty(ss: seq<Service>, es: seq<Event>, i: nat, c: nat, k: nat, t: nat)
    requires Run(ss, es) && i < c < k <= |es| && es[i].Seal? && es[c] == StartClear(t)
    requires t in ss[k].calls && ss[k].calls[t].ClearReturned?
    requires forall m :: i < m < k ==> !es[m].Unseal?
    ensures ss[k].cache == map[]
    ensures forall m :: k <= m <= |es| && (forall n :: i < n < m ==> !es[n].Unseal?) ==> ss[m].cache == map[]
  {
    var j := CompletedClearCleared(ss, es, c, k, t);
    forall m | k <= m <= |es| && (forall n :: i < n < m ==> !es[n].Unseal?) ensures ss[m].cache == map[] {
      SealThenClear(ss, es, i, j, m);
    }
  }

  /** A call begun while sealed gets no key until an unsealing, and changes nothing. */
  lemma {:induction false} SealedCallsAreRefused(ss: seq<Service>, es: seq<Event>, i: nat, b: nat, k: nat, t: nat, seed: Seed)
    requires Run(ss, es) && i < b < k <= |es| && es[i].Seal? && es[b] == StartKeys(t, seed)
    requires forall m :: i < m < k ==> !es[m].Unseal?
    ensures t in ss[k].calls && (ss[k].calls[t] == Entered(seed) || ss[k].calls[t] == Returned(Err(Locked)))
  {
    assert Step(ss[k - 1], es[k - 1], ss[k - 1 + 1]);
    SealLasts(ss, es, i, k - 1);
    if b + 1 < k {
      SealedCallsAreRefused(ss, es, i, b, k - 1, t, seed);
    }
  }

  /** The keys a call has in hand. */
  function InHand(c: Call): Option<KeyPair> {
    match c
    case Derived(keys) => Some(keys)
    case Rechecking(keys) => Some(keys)
    case Inserting(keys) => Some(keys)
    case Leaving(Ok(keys)) => Some(keys)
    case Returned(Ok(keys)) => Some(keys)
    case _ => None
  }

  predicate SeedIs(c: Call, seed: Seed) {
    match c
    case Entered(x) => x == seed
    case Admitted(x) => x == seed
    case LookingUp(x) => x == seed
    case Missed(x) => x == seed
    case _ => InHand(c) == None || InHand(c) == Some(KeyPair(seed))
  }

  /** Whatever other calls insert or clear meanwhile, a call only ever returns its own seed's keys. */
  lemma {:induction false} KeysMatchSeed(ss: seq<Service>, es: seq<Event>, b: nat, k: nat, t: nat, seed: Seed)
    requires Run(ss, es) && b < k <= |es| && es[b] == StartKeys(t, seed)
    ensures t in ss[k].calls && SeedIs(ss[k].calls[t], seed)
  {
    assert Step(ss[k - 1], es[k - 1], ss[k - 1 + 1]);
    RunIsExclusive(ss, es, k - 1);
    if b + 1 < k {
      KeysMatchSeed(ss, es, b, k - 1, t, seed);
    }
  }

  lemma Extend(ss: seq<Service>, es: seq<Event>, e: Event, s': Service)
    requires Run(ss, es) && Step(ss[|es|], e, s')
    ensures Run(ss + [s'], es + [e])
  {}

  /** In a service at rest, a call can get past its second check. */
  lemma PassBothChecks(ss: seq<Service>, es: seq<Event>, t: nat, seed: Seed)
    returns (ss': seq<Service>, es': seq<Event>)
    requires Run(ss, es) && !ss[|es|].isSealed && ss[|es|].lock.None? && t !in ss[|es|].calls && seed !in ss[|es|].cache
    ensures Run(ss', es') && ss <= ss' && es <= es'
    ensures !ss'[|es'|].isSealed && t in ss'[|es'|].calls && ss'[|es'|].calls[t] == Inserting(KeyPair(seed))
  {
    var s0 := ss[|es|].At(t, Entered(seed));
    var s1 := s0.At(t, Admitted(seed));
    var s2 := s1.Acquire(t, LookingUp(seed));
    var s3 := s2.Release(t, Missed(seed));
    Extend(ss, es, StartKeys(t, seed), s0);
    Extend(ss + [s0], es + [StartKeys(t, seed)], Proceed(t), s1);
    ss', es' := ss + [s0] + [s1], es + [StartKeys(t, seed)] + [Proceed(t)];
    Extend(ss', es', Proceed(t), s2);
    Extend(ss' + [s2], es' + [Proceed(t)], Proceed(t), s3);
    ss', es' := ss' + [s2] + [s3], es' + [Proceed(t)] + [Proceed(t)];
    ss', es' := Recheck(ss', es', t, seed);
  }

  lemma Recheck(ss: seq<Service>, es: seq<Event>, t: nat, seed: Seed)
    returns (ss': seq<Service>, es': seq<Event>)
    requires Run(ss, es) && !ss[|es|].isSealed && ss[|es|].lock.None? && t in ss[|es|].calls && ss[|es|].calls[t] == Missed(seed)
    ensures Run(ss', es') && ss <= ss' && es <= es'
    ensures !ss'[|es'|].isSealed && t in ss'[|es'|].calls && ss'[|es'|].calls[t] == Inserting(KeyPair(seed))
  {
    var s4 := ss[|es|].At(t, Derived(KeyPair(seed)));
    var s5 := s4.Acquire(t, Rechecking(KeyPair(seed)));
    var s6 := s5.At(t, Inserting(KeyPair(seed)));
    Extend(ss, es, Proceed(t), s4);
    Extend(ss + [s4], es + [Proceed(t)], Proceed(t), s5);
    ss', es' := ss + [s4] + [s5], es + [Proceed(t)] + [Proceed(t)];
    Extend(ss', es', Proceed(t), s6);
    ss', es' := ss' + [s6], es' + [Proceed(t)];
  }

  /** The order matters: whatever was cleared before, a service at rest can be sealed and yet keep a
      key, if a call had passed its second check. */
  lemma ClearThenSealIsNotEnough(ss: seq<Service>, es: seq<Event>, t: nat, seed: Seed)
    returns (ss': seq<Service>, es': seq<Event>)
    requires Run(ss, es) && !ss[|es|].isSealed && ss[|es|].lock.None? && t !in ss[|es|].calls && seed !in ss[|es|].cache
    ensures Run(ss', es') && ss <= ss' && es <= es'
    ensures Seal in es' && ss'[|es'|].isSealed && seed in ss'[|es'|].cache
  {
    ss', es' := PassBothChecks(ss, es, t, seed);
    var s7 := ss'[|es'|].(isSealed := true);
    var s8 := s7.At(t, Leaving(Ok(KeyPair(seed)))).(cache := s7.cache[seed := KeyPair(seed)]);
    Extend(ss', es', Seal, s7);
    Extend(ss' + [s7], es' + [Seal], Proceed(t), s8);
    ss', es' := ss' + [s7] + [s8], es' + [Seal] + [Proceed(t)];
  }

  // ----- what an unsealed call gets -----

  /** Looking up a cached seed returns its key at once; looking up another goes on to derive it. */
  lemma CachedSeedIsReturned(ss: seq<Service>, es: seq<Event>, i: nat, t: nat, seed: Seed)
    requires Run(ss, es) && i < |es| && es[i] == Proceed(t) && t in ss[i].calls && ss[i].calls[t] == LookingUp(seed)
    ensures t in ss[i + 1].calls
    ensures ss[i + 1].calls[t] == if seed in ss[i].cache then Returned(Ok(KeyPair(seed))) else Missed(seed)
    ensures ss[i + 1].cache == ss[i].cache && ss[i + 1].lock.None?
  {
    RunIsExclusive(ss, es, i);
    assert Step(ss[i], es[i], ss[i + 1]);
  }

  /** A call that stored its key returns exactly that key, and it is cached for the next call. */
  lemma InsertedKeyIsReturned(ss: seq<Service>, es: seq<Event>, i: nat, t: nat, keys: KeyPair)
    requires Run(ss, es) && i < |es| && es[i] == Proceed(t) && t in ss[i].calls && ss[i].calls[t] == Inserting(keys)
    ensures t in ss[i + 1].calls && ss[i + 1].calls[t] == Leaving(Ok(keys))
    ensures keys.seed in ss[i + 1].cache && ss[i + 1].cache[keys.seed] == keys
  {
    assert Step(ss[i], es[i], ss[i + 1]);
  }

  predicate IsRefused(c: Call) {
    c == Leaving(Err(Locked)) || c == Returned(Err(Locked))
  }

  /** A call is only refused for being locked if the service was sealed while it was under way. */
  lemma {:induction false} RefusedMeansSealed(ss: seq<Service>, es: seq<Event>, b: nat, k: nat, t: nat, seed: Seed) returns (m: nat)
    requires Run(ss, es) && b < k <= |es| && es[b] == StartKeys(t, seed) && t in ss[k].calls && IsRefused(ss[k].calls[t])
    ensures b < m < k && ss[m].isSealed
  {
    assert Step(ss[b], es[b], ss[b + 1]);
    assert Step(ss[k - 1], es[k - 1], ss[k - 1 + 1]);
    if b + 1 < k && t in ss[k - 1].calls && IsRefused(ss[k - 1].calls[t]) {
      m := RefusedMeansSealed(ss, es, b, k - 1, t, seed);
    } else {
      KeysMatchSeedBefore(ss, es, b, k, t, seed);
      m := k - 1;
    }
  }

  lemma KeysMatchSeedBefore(ss: seq<Service>, es: seq<Event>, b: nat, k: nat, t: nat, seed: Seed)
    requires Run(ss, es) && b < k <= |es| && es[b] == StartKeys(t, seed)
    ensures b + 1 < k ==> t in ss[k - 1].calls && SeedIs(ss[k - 1].calls[t], seed)
  {
    if b + 1 < k { KeysMatchSeed(ss, es, b, k - 1, t, seed); }
  }
}
