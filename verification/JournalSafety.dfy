/** What every accepted journal guarantees at every prefix of its stream: the replay's maps
    are the latest evidence of each record, and simultaneous blockers are paid for by grants. */
module JournalSafety {
  import opened Wrappers
  import opened Bytes
  import opened Affordability
  import opened Sorting
  import opened Digests
  import opened Delivery
  import opened Replay

  // ----- the stream of an accepted journal -----

  lemma SeqLeIsPreorder()
    ensures TotalPreorder(SeqLe)
  {}

  lemma ContiguousSeparates(s: seq<ReplayItem>)
    requires Contiguous(s)
    ensures Sorted(s, SeqLe) && Separates(s, SeqLe)
  {}

  /** A contiguous arrangement of the items is the stream. */
  lemma StreamIs(j: Journal, s: seq<ReplayItem>)
    requires Contiguous(s) && multiset(s) == multiset(Items(j))
    ensures Stream(j) == s
  {
    SeqLeIsPreorder();
    ContiguousSeparates(s);
    SortPermutes(Items(j), SeqLe);
    SortSorts(Items(j), SeqLe);
    SortedUnique(s, Stream(j), SeqLe);
  }

  /** Event `m` of record `k` exists. */
  predicate IsEvent(j: Journal, k: nat, m: nat) {
    k < |j.records| && m < |j.records[k].deliveryEvents|
  }

  function EventItem(j: Journal, k: nat, m: nat): ReplayItem
    requires IsEvent(j, k, m)
  {
    DeliveryItem(j.records[k].prepared, j.records[k].deliveryEvents[m])
  }

  lemma {:induction false} EventListed(records: seq<SendRecord>, k: nat, m: nat)
    requires k < |records| && m < |records[k].deliveryEvents|
    ensures DeliveryItem(records[k].prepared, records[k].deliveryEvents[m]) in DeliveryItems(records)
  {
    if k == 0 {
      assert RecordItems(records[0])[m] in RecordItems(records[0]);
    } else {
      EventListed(records[1..], k - 1, m);
    }
  }

  lemma {:induction false} ListedEvent(records: seq<SendRecord>, x: ReplayItem) returns (k: nat, m: nat)
    requires x in DeliveryItems(records)
    ensures k < |records| && m < |records[k].deliveryEvents|
    ensures x == DeliveryItem(records[k].prepared, records[k].deliveryEvents[m])
  {
    if x in RecordItems(records[0]) {
      k := 0;
      m :| 0 <= m < |RecordItems(records[0])| && RecordItems(records[0])[m] == x;
    } else {
      k, m := ListedEvent(records[1..], x);
      k := k + 1;
    }
  }

  /** Every event sits in the stream at the place its sequence number says. */
  lemma EventPosition(j: Journal, k: nat, m: nat)
    requires Contiguous(Stream(j)) && IsEvent(j, k, m)
    ensures 1 <= j.records[k].deliveryEvents[m].journalSeq <= |Stream(j)|
    ensures Stream(j)[j.records[k].deliveryEvents[m].journalSeq - 1] == EventItem(j, k, m)
  {
    EventListed(j.records, k, m);
    SortPermutes(Items(j), SeqLe);
    MemberOfPermutation(Items(j), Stream(j), EventItem(j, k, m));
  }

  /** Every delivery of the stream is an event of a record. */
  lemma ItemOrigin(j: Journal, i: nat) returns (k: nat, m: nat)
    requires i < |Stream(j)| && Stream(j)[i].DeliveryItem?
    ensures IsEvent(j, k, m) && EventItem(j, k, m) == Stream(j)[i]
  {
    SortPermutes(Items(j), SeqLe);
    MemberOfPermutation(Items(j), Stream(j), Stream(j)[i]);
    assert Stream(j)[i] in DeliveryItems(j.records) by {
      assert forall x :: x in RiskItems(j.riskEvents) ==> x.RiskItem?;
    }
    k, m := ListedEvent(j.records, Stream(j)[i]);
  }

  // ----- what a prefix has seen of a record -----

  /** How many of a record's events have sequence number at most `n`. */
  function Seen(events: seq<DeliveryEvent>, n: nat): (c: nat)
    ensures c <= |events|
  {
    if events == [] || events[0].journalSeq > n then 0 else 1 + Seen(events[1..], n)
  }

  predicate Increasing(events: seq<DeliveryEvent>) {
    forall i, k :: 0 <= i < k < |events| ==> events[i].journalSeq < events[k].journalSeq
  }

  lemma {:induction false} StaticIncreasing(events: seq<DeliveryEvent>)
    requires forall i :: 0 < i < |events| ==> events[i - 1].journalSeq < events[i].journalSeq
    ensures Increasing(events)
  {
    if |events| > 1 {
      var front := events[..|events| - 1];
      StaticIncreasing(front);
      forall i, k | 0 <= i < k < |events| ensures events[i].journalSeq < events[k].journalSeq {
        if k == |events| - 1 {
          assert events[k - 1].journalSeq < events[k].journalSeq;
          if i < k - 1 { assert front[i].journalSeq < front[k - 1].journalSeq; }
        } else {
          assert front[i].journalSeq < front[k].journalSeq;
        }
      }
    }
  }

  lemma RecordIncreasing(r: SendRecord)
    requires StaticOk(r)
    ensures Increasing(r.deliveryEvents)
  {
    StaticIncreasing(r.deliveryEvents);
  }

  lemma {:induction false} SeenExact(events: seq<DeliveryEvent>, n: nat)
    requires Increasing(events)
    ensures forall i :: 0 <= i < |events| ==> (i < Seen(events, n) <==> events[i].journalSeq <= n)
  {
    if events != [] && events[0].journalSeq <= n {
      SeenExact(events[1..], n);
      forall i | 0 <= i < |events| ensures i < Seen(events, n) <==> events[i].journalSeq <= n {
        if i > 0 { assert events[i] == events[1..][i - 1]; }
      }
    }
  }

  /** The replay state after `n` items. */
  ghost function After(j: Journal, n: nat): State
    requires JournalOk(j) && n <= |Stream(j)|
  {
    PrefixRuns(Stream(j), n);
    Fold(Stream(j)[..n]).value
  }

  lemma PrefixRuns(s: seq<ReplayItem>, n: nat)
    requires Fold(s).Ok? && n <= |s|
    ensures Fold(s[..n]).Ok?
  {
    if Fold(s[..n]).Err? { FoldErrorSticks(s, n); }
  }

  lemma AfterStep(j: Journal, n: nat)
    requires JournalOk(j) && n < |Stream(j)|
    ensures Step(After(j, n), Stream(j)[n]) == Ok(After(j, n + 1))
  {
    var s := Stream(j);
    PrefixRuns(s, n + 1);
    assert s[..n + 1][..n] == s[..n];
  }

  /** How an accepted item changes the state. */
  ghost predicate Effect(st: State, x: ReplayItem, st': State) {
    match x
    case DeliveryItem(p, event) =>
      && st'.pending.None? && st'.grants == st.grants && st'.consumed == st.consumed
      && if event.evidence.PreparedEvidence? then PreparedMoves(st, p, st')
         else st.pending.None? && DeliveryMoves(st, p, event.evidence.Tag(), st')
    case RiskItem(risk) =>
      && st.pending.None? && st'.active == st.active && st'.blocking == st.blocking
      && match risk.action
         case Granted(grant) =>
           && grant.oneUseNonce !in st.grants && st'.grants == st.grants[grant.oneUseNonce := grant]
           && st'.consumed == st.consumed && st'.pending.None?
         case Consumed(c) =>
           && c.oneUseNonce in st.grants && st.grants[c.oneUseNonce].Authorizes(c)
           && c.oneUseNonce !in st.consumed && st'.consumed == st.consumed + {c.oneUseNonce}
           && st'.grants == st.grants && st'.pending == Some((st.grants[c.oneUseNonce], c))
  }

  ghost predicate PreparedMoves(st: State, p: PreparedRecord, st': State) {
    var id := p.ticket.recordId;
    && id !in st.active
    && st'.active == st.active[id := Entry(p, Prepared)] && st'.blocking == st.blocking[id := Entry(p, Prepared)]
  }

  ghost predicate DeliveryMoves(st: State, p: PreparedRecord, tag: EvidenceTag, st': State) {
    var id := p.ticket.recordId;
    && id in st.active
    && st'.active == st.active[id := Entry(st.active[id].prepared, tag)]
    && st'.blocking == (if tag.IsBlocking() then st.blocking[id := Entry(p, tag)] else st.blocking - {id})
  }

  lemma StepEffect(st: State, x: ReplayItem)
    requires Step(st, x).Ok?
    ensures Effect(st, x, Step(st, x).value)
  {}

  lemma AfterEffect(j: Journal, n: nat)
    requires JournalOk(j) && n < |Stream(j)|
    ensures Effect(After(j, n), Stream(j)[n], After(j, n + 1))
  {
    AfterStep(j, n);
    StepEffect(After(j, n), Stream(j)[n]);
  }

  /** The permission an accepted item needed. */
  lemma AfterPermits(j: Journal, n: nat)
    requires JournalOk(j) && n < |Stream(j)|
    ensures Stream(j)[n].IsPrepared() ==>
      SigningError(Stream(j)[n].prepared, After(j, n)).None? && Funded(Stream(j)[n].prepared, After(j, n).blocking)
    ensures Stream(j)[n].IsGrant() ==>
      GrantOldStateError(Stream(j)[n].risk.action.grant, After(j, n).blocking).None?
  {
    AfterStep(j, n);
  }

  /** Record `r` appears in the maps exactly as its latest evidence seen so far says. */
  ghost predicate Tracked(r: SendRecord, n: nat, st: State) {
    var c := Seen(r.deliveryEvents, n);
    if c == 0 then
      r.Id() !in st.active && r.Id() !in st.blocking
    else
      var latest := Entry(r.prepared, r.deliveryEvents[c - 1].evidence.Tag());
      && r.Id() in st.active && st.active[r.Id()] == latest
      && (r.Id() in st.blocking <==> latest.tag.IsBlocking())
      && (r.Id() in st.blocking ==> st.blocking[r.Id()] == latest)
  }

  /** Every active id is some record's. */
  ghost predicate Owned(j: Journal, st: State) {
    forall id :: id in st.active ==> exists k :: 0 <= k < |j.records| && j.records[k].Id() == id
  }

  ghost predicate Tracks(j: Journal, n: nat, st: State) {
    && (forall k :: 0 <= k < |j.records| ==> Tracked(j.records[k], n, st))
    && Owned(j, st) && st.blocking.Keys <= st.active.Keys
  }

  /** One more item moves exactly the record it belongs to ... */
  lemma SeenOwn(j: Journal, n: nat, l: nat)
    requires RecordsOk(j.records) && Contiguous(Stream(j)) && n < |Stream(j)| && l < |j.records|
    requires Stream(j)[n].IsDeliveryOf(j.records[l].Id())
    ensures var events := j.records[l].deliveryEvents;
      && Stream(j)[n].prepared == j.records[l].prepared
      && Seen(events, n) < |events| && events[Seen(events, n)] == Stream(j)[n].event
      && Seen(events, n + 1) == Seen(events, n) + 1
  {
    var k, m := ItemOrigin(j, n);
    assert k == l;
    RecordIncreasing(j.records[l]);
    SeenGrows(j.records[l].deliveryEvents, n, m);
  }

  /** ... and leaves every other record where it was. */
  lemma SeenOther(j: Journal, n: nat, l: nat)
    requires RecordsOk(j.records) && Contiguous(Stream(j)) && n < |Stream(j)| && l < |j.records|
    requires !Stream(j)[n].IsDeliveryOf(j.records[l].Id())
    ensures Seen(j.records[l].deliveryEvents, n + 1) == Seen(j.records[l].deliveryEvents, n)
  {
    var events := j.records[l].deliveryEvents;
    var c := Seen(events, n);
    assert c < |events| ==> events[c].journalSeq != n + 1 by {
      if c < |events| { EventPosition(j, l, c); }
    }
    RecordIncreasing(j.records[l]);
    SeenStays(events, n);
  }

  lemma SeenGrows(events: seq<DeliveryEvent>, n: nat, m: nat)
    requires Increasing(events) && m < |events| && events[m].journalSeq == n + 1
    ensures Seen(events, n) == m && Seen(events, n + 1) == m + 1
  {
    SeenExact(events, n);
    SeenExact(events, n + 1);
    if m > 0 { assert events[m - 1].journalSeq < events[m].journalSeq; }
    if m + 1 < |events| { assert events[m].journalSeq < events[m + 1].journalSeq; }
    var c, d := Seen(events, n), Seen(events, n + 1);
    assert c < |events| ==> !(events[c].journalSeq <= n);
    assert d < |events| ==> !(events[d].journalSeq <= n + 1);
  }

  lemma SeenStays(events: seq<DeliveryEvent>, n: nat)
    requires Increasing(events)
    requires Seen(events, n) < |events| ==> events[Seen(events, n)].journalSeq != n + 1
    ensures Seen(events, n + 1) == Seen(events, n)
  {
    SeenExact(events, n);
    SeenExact(events, n + 1);
    var c, d := Seen(events, n), Seen(events, n + 1);
    assert c < |events| ==> events[c].journalSeq > n + 1;
    assert c < |events| ==> !(c < d);
    if 0 < c { assert events[c - 1].journalSeq <= n + 1; assert c - 1 < d; }
  }

  /** `r` has just received event number `c`. */
  lemma TrackedMoves(r: SendRecord, n: nat, st: State, x: ReplayItem, st': State)
    requires x.DeliveryItem? && x.prepared == r.prepared && Tracked(r, n, st) && Effect(st, x, st')
    requires var c := Seen(r.deliveryEvents, n);
      c < |r.deliveryEvents| && r.deliveryEvents[c] == x.event && Seen(r.deliveryEvents, n + 1) == c + 1
    ensures Tracked(r, n + 1, st')
  {
    if x.IsPrepared() {
      assert PreparedMoves(st, x.prepared, st');
    } else {
      assert DeliveryMoves(st, x.prepared, x.event.evidence.Tag(), st');
    }
  }

  lemma TrackedRests(r: SendRecord, n: nat, st: State, x: ReplayItem, st': State)
    requires x.DeliveryItem? ==> x.prepared.ticket.recordId != r.Id()
    requires Tracked(r, n, st) && Effect(st, x, st')
    requires Seen(r.deliveryEvents, n + 1) == Seen(r.deliveryEvents, n)
    ensures Tracked(r, n + 1, st')
  {
    if x.DeliveryItem? {
      if x.IsPrepared() {
        assert PreparedMoves(st, x.prepared, st');
      } else {
        assert DeliveryMoves(st, x.prepared, x.event.evidence.Tag(), st');
      }
    }
  }

  lemma TrackedStep(j: Journal, n: nat, st: State, st': State, l: nat)
    requires RecordsOk(j.records) && Contiguous(Stream(j)) && n < |Stream(j)| && l < |j.records|
    requires Tracked(j.records[l], n, st) && Effect(st, Stream(j)[n], st')
    ensures Tracked(j.records[l], n + 1, st')
  {
    if Stream(j)[n].IsDeliveryOf(j.records[l].Id()) {
      SeenOwn(j, n, l);
      TrackedMoves(j.records[l], n, st, Stream(j)[n], st');
    } else {
      SeenOther(j, n, l);
      TrackedRests(j.records[l], n, st, Stream(j)[n], st');
    }
  }

  lemma ActiveGrowsByOwner(st: State, x: ReplayItem, st': State)
    requires Effect(st, x, st')
    ensures forall id :: id in st'.active ==> id in st.active || (x.DeliveryItem? && id == x.prepared.ticket.recordId)
    ensures st.blocking.Keys <= st.active.Keys ==> st'.blocking.Keys <= st'.active.Keys
  {}

  lemma TracksStep(j: Journal, n: nat, st: State, st': State)
    requires RecordsOk(j.records) && Contiguous(Stream(j)) && n < |Stream(j)|
    requires Tracks(j, n, st) && Effect(st, Stream(j)[n], st')
    ensures Tracks(j, n + 1, st')
  {
    forall l | 0 <= l < |j.records| ensures Tracked(j.records[l], n + 1, st') {
      TrackedStep(j, n, st, st', l);
    }
    OwnedStep(j, n, st, st');
  }

  lemma OwnedStep(j: Journal, n: nat, st: State, st': State)
    requires RecordsOk(j.records) && Contiguous(Stream(j)) && n < |Stream(j)|
    requires Owned(j, st) && st.blocking.Keys <= st.active.Keys && Effect(st, Stream(j)[n], st')
    ensures Owned(j, st') && st'.blocking.Keys <= st'.active.Keys
  {
    var x := Stream(j)[n];
    ActiveGrowsByOwner(st, x, st');
    if x.DeliveryItem? {
      var k, m := ItemOrigin(j, n);
      assert j.records[k].Id() == x.prepared.ticket.recordId;
    }
  }

  lemma TracksStart(j: Journal)
    requires RecordsOk(j.records)
    ensures Tracks(j, 0, INITIAL)
  {
    forall k | 0 <= k < |j.records| ensures Tracked(j.records[k], 0, INITIAL) {
      assert StaticOk(j.records[k]);
      assert Seen(j.records[k].deliveryEvents, 0) == 0;
    }
  }

  lemma TracksNext(j: Journal, n: nat)
    requires JournalOk(j) && n < |Stream(j)| && Tracks(j, n, After(j, n))
    ensures Tracks(j, n + 1, After(j, n + 1))
  {
    AfterEffect(j, n);
    TracksStep(j, n, After(j, n), After(j, n + 1));
  }

  /** At every prefix the replay's maps are each record's latest evidence. */
  lemma {:induction false} ReplayTracksRecords(j: Journal, n: nat)
    requires JournalOk(j) && n <= |Stream(j)|
    ensures Tracks(j, n, After(j, n))
  {
    if n == 0 {
      TracksStart(j);
    } else {
      ReplayTracksRecords(j, n - 1);
      TracksNext(j, n - 1);
    }
  }

  /** The blocking map's keys are the records whose latest evidence so far is blocking. */
  lemma BlockingIsLatestEvidence(j: Journal, n: nat, id: Bytes32)
    requires JournalOk(j) && n <= |Stream(j)|
    ensures id in After(j, n).blocking <==>
      exists k :: 0 <= k < |j.records| && j.records[k].Id() == id
        && Seen(j.records[k].deliveryEvents, n) > 0
        && j.records[k].deliveryEvents[Seen(j.records[k].deliveryEvents, n) - 1].evidence.Tag().IsBlocking()
  {
    ReplayTracksRecords(j, n);
    TracksBlocking(j, n, After(j, n), id);
  }

  lemma TracksBlocking(j: Journal, n: nat, st: State, id: Bytes32)
    requires Tracks(j, n, st)
    ensures id in st.blocking <==>
      exists k :: 0 <= k < |j.records| && j.records[k].Id() == id
        && Seen(j.records[k].deliveryEvents, n) > 0
        && j.records[k].deliveryEvents[Seen(j.records[k].deliveryEvents, n) - 1].evidence.Tag().IsBlocking()
  {
    if id in st.blocking {
      assert id in st.active;
      var k :| 0 <= k < |j.records| && j.records[k].Id() == id;
      assert Tracked(j.records[k], n, st);
    } else if k :| 0 <= k < |j.records| && j.records[k].Id() == id {
      assert Tracked(j.records[k], n, st);
    }
  }

  // ----- simultaneous blockers -----

  /** A delivery other than Prepared never turns a resolved record into a blocking one. */
  lemma DeliveryWasBlocking(j: Journal, n: nat, st: State)
    requires RecordsOk(j.records) && Contiguous(Stream(j)) && n < |Stream(j)| && Tracks(j, n, st)
    requires Stream(j)[n].DeliveryItem? && !Stream(j)[n].IsPrepared()
    ensures Stream(j)[n].prepared.ticket.recordId in st.blocking
    ensures ValidTransitionFrom(st.blocking[Stream(j)[n].prepared.ticket.recordId].tag, Stream(j)[n].event.evidence)
  {
    var k, m := ItemOrigin(j, n);
    var r := j.records[k];
    SeenOwn(j, n, k);
    assert Tracked(r, n, st) && StaticOk(r);
    var c := Seen(r.deliveryEvents, n);
    assert c > 0;
    var evs := EvidenceOf(r.deliveryEvents);
    assert ValidTransition(evs[c - 1], evs[c]);
  }

  /** Some evidence with this tag may be followed by `next`. */
  ghost predicate ValidTransitionFrom(tag: EvidenceTag, next: Evidence) {
    exists previous: Evidence :: previous.Tag() == tag && ValidTransition(previous, next)
  }

  ghost predicate Bounded(st: State) {
    |st.blocking| <= |st.consumed| + (if st.pending.Some? then 0 else 1)
  }

  lemma UpdateSize<K, V>(m: map<K, V>, k: K, v: V)
    ensures |m[k := v]| == |m| + (if k in m then 0 else 1)
  {
    assert m[k := v].Keys == m.Keys + {k};
    if k in m { assert m.Keys + {k} == m.Keys; }
  }

  lemma NothingBlocks(st: State, scope: Scope)
    requires !Blocked(st.blocking, scope)
    requires forall id :: id in st.blocking ==>
      st.blocking[id].tag.IsBlocking() && st.blocking[id].prepared.ticket.SigningScope() == scope
    ensures st.blocking == map[]
  {
    forall id ensures id !in st.blocking {
      assert id in st.blocking ==> Selected(st.blocking[id], Some(scope));
    }
    assert st.blocking.Keys == {};
  }

  /** All blocking entries carry blocking evidence and the journal's one scope. */
  lemma BlockingEntries(j: Journal, n: nat, st: State, id: Bytes32)
    requires RecordsOk(j.records) && Tracks(j, n, st) && id in st.blocking
    ensures st.blocking[id].tag.IsBlocking()
    ensures st.blocking[id].prepared.ticket.recordId == id
    ensures |j.records| > 0
    ensures st.blocking[id].prepared.ticket.SigningScope() == j.records[0].prepared.ticket.SigningScope()
  {
    assert id in st.active;
    var k :| 0 <= k < |j.records| && j.records[k].Id() == id;
    assert Tracked(j.records[k], n, st);
  }

  /** An ordinary Prepared was replayed while nothing blocked. */
  lemma OrdinaryMeansIdle(j: Journal, n: nat, st: State)
    requires RecordsOk(j.records) && Contiguous(Stream(j)) && n < |Stream(j)| && Tracks(j, n, st)
    requires Stream(j)[n].IsPrepared() && st.pending.None?
    requires SigningError(Stream(j)[n].prepared, st).None?
    ensures st.blocking == map[]
  {
    var k, m := ItemOrigin(j, n);
    EntriesShareScope(j, n, st);
    NothingBlocks(st, Stream(j)[n].prepared.ticket.SigningScope());
  }

  lemma EntriesShareScope(j: Journal, n: nat, st: State)
    requires RecordsOk(j.records) && Tracks(j, n, st) && |j.records| > 0
    ensures forall id :: id in st.blocking ==>
      st.blocking[id].tag.IsBlocking()
      && st.blocking[id].prepared.ticket.SigningScope() == j.records[0].prepared.ticket.SigningScope()
  {
    forall id | id in st.blocking
      ensures st.blocking[id].tag.IsBlocking()
      ensures st.blocking[id].prepared.ticket.SigningScope() == j.records[0].prepared.ticket.SigningScope()
    {
      BlockingEntries(j, n, st, id);
    }
  }

  lemma BoundedPrepared(st: State, p: PreparedRecord, st': State)
    requires PreparedMoves(st, p, st') && st'.consumed == st.consumed && st'.pending.None?
    requires Bounded(st) && (st.pending.None? ==> st.blocking == map[])
    ensures Bounded(st')
  {
    UpdateSize(st.blocking, p.ticket.recordId, Entry(p, Prepared));
  }

  lemma BoundedDelivery(st: State, p: PreparedRecord, tag: EvidenceTag, st': State)
    requires DeliveryMoves(st, p, tag, st') && st'.consumed == st.consumed && st'.pending == st.pending
    requires Bounded(st) && p.ticket.recordId in st.blocking
    ensures Bounded(st')
  {
    var id := p.ticket.recordId;
    if tag.IsBlocking() {
      UpdateSize(st.blocking, id, Entry(p, tag));
    } else {
      assert (st.blocking - {id}).Keys == st.blocking.Keys - {id};
    }
  }

  lemma BoundedStep(st: State, x: ReplayItem, st': State)
    requires Bounded(st) && Effect(st, x, st')
    requires x.IsPrepared() && st.pending.None? ==> st.blocking == map[]
    requires x.DeliveryItem? && !x.IsPrepared() ==> x.prepared.ticket.recordId in st.blocking
    ensures Bounded(st')
  {
    if x.IsPrepared() {
      BoundedPrepared(st, x.prepared, st');
    } else if x.DeliveryItem? {
      BoundedDelivery(st, x.prepared, x.event.evidence.Tag(), st');
    } else {
      ConsumedStep(st, x, st');
    }
  }

  lemma BoundedNext(j: Journal, n: nat)
    requires JournalOk(j) && n < |Stream(j)| && Bounded(After(j, n))
    ensures Bounded(After(j, n + 1))
  {
    var st, x := After(j, n), Stream(j)[n];
    AfterEffect(j, n);
    ReplayTracksRecords(j, n);
    if x.IsPrepared() && st.pending.None? {
      AfterPermits(j, n);
      OrdinaryMeansIdle(j, n, st);
    }
    if x.DeliveryItem? && !x.IsPrepared() { DeliveryWasBlocking(j, n, st); }
    BoundedStep(st, x, After(j, n + 1));
  }

  /** At every prefix at most one record blocks beyond those paid for by a consumed grant. */
  lemma {:induction false} BlockersArePaidFor(j: Journal, n: nat)
    requires JournalOk(j) && n <= |Stream(j)|
    ensures |After(j, n).blocking| <= 1 + |After(j, n).consumed|
    ensures Bounded(After(j, n))
  {
    if n > 0 {
      BlockersArePaidFor(j, n - 1);
      BoundedNext(j, n - 1);
    }
  }

  function CountConsumptions(items: seq<ReplayItem>): nat {
    if items == [] then 0
    else CountConsumptions(items[..|items| - 1]) + (if items[|items| - 1].IsConsumption() then 1 else 0)
  }

  lemma ConsumedStep(st: State, x: ReplayItem, st': State)
    requires Effect(st, x, st')
    ensures |st'.consumed| == |st.consumed| + (if x.IsConsumption() then 1 else 0)
  {
    if x.IsConsumption() {
      assert st'.consumed == st.consumed + {x.risk.action.consumption.oneUseNonce};
    }
  }

  /** Every consumption spends a nonce of its own. */
  lemma {:induction false} ConsumptionsSpendNonces(j: Journal, n: nat)
    requires JournalOk(j) && n <= |Stream(j)|
    ensures |After(j, n).consumed| == CountConsumptions(Stream(j)[..n])
  {
    if n > 0 {
      ConsumptionsSpendNonces(j, n - 1);
      AfterEffect(j, n - 1);
      ConsumedStep(After(j, n - 1), Stream(j)[n - 1], After(j, n));
      assert Stream(j)[..n][..n - 1] == Stream(j)[..n - 1];
    }
  }

  /** No second signing without a one-use grant: a record prepared while another still blocks
      directly follows the consumption that names it. */
  lemma SecondSigningIsGranted(j: Journal, n: nat)
    requires JournalOk(j) && n < |Stream(j)| && Stream(j)[n].IsPrepared()
    requires After(j, n).blocking != map[]
    ensures n > 0 && Stream(j)[n - 1].IsConsumption()
    ensures Stream(j)[n - 1].risk.action.consumption.newRecordId == Stream(j)[n].prepared.ticket.recordId
  {
    if After(j, n).pending.None? {
      OrdinaryWhileIdle(j, n);
    } else {
      PendingFromConsumption(j, n);
      PreparedNamesConsumption(j, n);
    }
  }

  lemma OrdinaryWhileIdle(j: Journal, n: nat)
    requires JournalOk(j) && n < |Stream(j)| && Stream(j)[n].IsPrepared() && After(j, n).pending.None?
    ensures After(j, n).blocking == map[]
  {
    AfterPermits(j, n);
    ReplayTracksRecords(j, n);
    OrdinaryMeansIdle(j, n, After(j, n));
  }

  lemma PreparedNamesConsumption(j: Journal, n: nat)
    requires JournalOk(j) && n < |Stream(j)| && Stream(j)[n].IsPrepared() && After(j, n).pending.Some?
    ensures After(j, n).pending.value.1.newRecordId == Stream(j)[n].prepared.ticket.recordId
    ensures Stream(j)[n].prepared.ticket.Digest() == Ok(After(j, n).pending.value.1.newTicketDigest)
    ensures GrantStateError(After(j, n).pending.value.0, Stream(j)[n].prepared, After(j, n).blocking).None?
  {
    AfterPermits(j, n);
  }

  /** A pending grant comes from the consumption just replayed. */
  lemma PendingFromConsumption(j: Journal, n: nat)
    requires JournalOk(j) && n <= |Stream(j)| && After(j, n).pending.Some?
    ensures n > 0 && Stream(j)[n - 1].IsConsumption()
    ensures After(j, n).pending.value.1 == Stream(j)[n - 1].risk.action.consumption
    ensures After(j, n).pending.value.1.oneUseNonce in After(j, n).grants
    ensures After(j, n).pending.value.0 == After(j, n).grants[After(j, n).pending.value.1.oneUseNonce]
  {
    if n > 0 { AfterEffect(j, n - 1); }
  }

  /** The envelope's own query lists, for the journal's scope, exactly the records the replay holds blocking. */
  function BlockingRecordsForScope(j: Journal, scope: Scope): seq<SendRecord>
    requires forall k :: 0 <= k < |j.records| ==> j.records[k].deliveryEvents != []
  {
    FilterBlocking(j.records, scope)
  }

  function FilterBlocking(records: seq<SendRecord>, scope: Scope): (r: seq<SendRecord>)
    requires forall k :: 0 <= k < |records| ==> records[k].deliveryEvents != []
    ensures forall x :: x in r <==>
      x in records && x.deliveryEvents != [] && x.IsBlocking() && x.prepared.ticket.SigningScope() == scope
  {
    if records == [] then []
    else
      (if records[0].IsBlocking() && records[0].prepared.ticket.SigningScope() == scope then [records[0]] else [])
      + FilterBlocking(records[1..], scope)
  }

  lemma AllSeen(j: Journal, k: nat)
    requires RecordsOk(j.records) && Contiguous(Stream(j)) && k < |j.records|
    ensures Seen(j.records[k].deliveryEvents, |Stream(j)|) == |j.records[k].deliveryEvents| > 0
  {
    var events := j.records[k].deliveryEvents;
    RecordIncreasing(j.records[k]);
    SeenExact(events, |Stream(j)|);
    var c := Seen(events, |Stream(j)|);
    if c < |events| { EventPosition(j, k, c); }
    assert StaticOk(j.records[k]);
  }

  lemma ScopeQueryMatchesReplay(j: Journal, scope: Scope, id: Bytes32)
    requires JournalOk(j) && |j.records| > 0 && scope == j.records[0].prepared.ticket.SigningScope()
    ensures forall k :: 0 <= k < |j.records| ==> j.records[k].deliveryEvents != []
    ensures id in After(j, |Stream(j)|).blocking <==>
      exists r :: r in BlockingRecordsForScope(j, scope) && r.Id() == id
  {
    forall k | 0 <= k < |j.records| ensures j.records[k].deliveryEvents != [] { AllSeen(j, k); }
    if id in After(j, |Stream(j)|).blocking {
      var k := BlockingRecord(j, id);
      assert j.records[k] in BlockingRecordsForScope(j, scope);
    }
    if r :| r in BlockingRecordsForScope(j, scope) && r.Id() == id {
      var k :| 0 <= k < |j.records| && j.records[k] == r;
      RecordBlocks(j, k);
    }
  }

  lemma BlockingRecord(j: Journal, id: Bytes32) returns (k: nat)
    requires JournalOk(j) && id in After(j, |Stream(j)|).blocking
    ensures k < |j.records| && j.records[k].Id() == id
    ensures j.records[k].deliveryEvents != [] && j.records[k].IsBlocking()
  {
    var n := |Stream(j)|;
    ReplayTracksRecords(j, n);
    assert id in After(j, n).active;
    k :| 0 <= k < |j.records| && j.records[k].Id() == id;
    AllSeen(j, k);
    assert Tracked(j.records[k], n, After(j, n));
  }

  lemma RecordBlocks(j: Journal, k: nat)
    requires JournalOk(j) && k < |j.records| && j.records[k].deliveryEvents != [] && j.records[k].IsBlocking()
    ensures j.records[k].Id() in After(j, |Stream(j)|).blocking
  {
    var n := |Stream(j)|;
    ReplayTracksRecords(j, n);
    AllSeen(j, k);
    assert Tracked(j.records[k], n, After(j, n));
  }
}
