/** The journal envelope (crates/cc-wallet-domain/src/envelope.rs): appends replay a candidate
    copy in full and install it only when accepted. Proved here: what a full replay of the
    candidate amounts to on a journal already accepted, and which prefixes are journals. */
module Envelope {
  import opened Wrappers
  import opened Bytes
  import opened Amounts
  import opened Affordability
  import opened Sorting
  import opened Digests
  import opened Delivery
  import opened Replay
  import opened JournalSafety

  // ----- prefixes -----

  function UpTo(items: seq<ReplayItem>, n: nat): seq<ReplayItem> {
    if items == [] then []
    else (if items[0].Seq() <= n then [items[0]] else []) + UpTo(items[1..], n)
  }

  lemma {:induction false} UpToConcat(a: seq<ReplayItem>, b: seq<ReplayItem>, n: nat)
    ensures UpTo(a + b, n) == UpTo(a, n) + UpTo(b, n)
  {
    if a == [] {
      assert a + b == b;
    } else {
      assert (a + b)[1..] == a[1..] + b;
      UpToConcat(a[1..], b, n);
    }
  }

  lemma {:induction false} UpToIsPrefix(items: seq<ReplayItem>, n: nat, c: nat)
    requires c <= |items|
    requires forall i :: 0 <= i < |items| ==> (i < c <==> items[i].Seq() <= n)
    ensures UpTo(items, n) == items[..c]
  {
    if items != [] {
      UpToIsPrefix(items[1..], n, if c == 0 then 0 else c - 1);
      if c > 0 { assert items[..c] == [items[0]] + items[1..][..c - 1]; }
    }
  }

  lemma {:induction false} UpToCounts(items: seq<ReplayItem>, n: nat, x: ReplayItem)
    ensures multiset(UpTo(items, n))[x] == (if x.Seq() <= n then multiset(items)[x] else 0)
  {
    if items != [] {
      UpToCounts(items[1..], n, x);
      assert items == [items[0]] + items[1..];
      assert multiset(items) == multiset{items[0]} + multiset(items[1..]);
    }
  }

  lemma UpToPermutes(a: seq<ReplayItem>, b: seq<ReplayItem>, n: nat)
    requires multiset(a) == multiset(b)
    ensures multiset(UpTo(a, n)) == multiset(UpTo(b, n))
  {
    forall x ensures multiset(UpTo(a, n))[x] == multiset(UpTo(b, n))[x] {
      UpToCounts(a, n, x);
      UpToCounts(b, n, x);
    }
  }

  function CutRecord(r: SendRecord, n: nat): SendRecord {
    SendRecord(r.prepared, r.deliveryEvents[..Seen(r.deliveryEvents, n)])
  }

  /** The records that had begun, each with the events it had. */
  function CutRecords(records: seq<SendRecord>, n: nat): seq<SendRecord> {
    if records == [] then []
    else
      (if Seen(records[0].deliveryEvents, n) > 0 then [CutRecord(records[0], n)] else [])
      + CutRecords(records[1..], n)
  }

  function CutRisks(risks: seq<RiskEvent>, n: nat): seq<RiskEvent> {
    if risks == [] then []
    else (if risks[0].journalSeq <= n then [risks[0]] else []) + CutRisks(risks[1..], n)
  }

  /** The journal as it was after `n` events. */
  function Cut(j: Journal, n: nat): Journal {
    Journal(CutRecords(j.records, n), CutRisks(j.riskEvents, n))
  }

  lemma CutRecordItems(r: SendRecord, n: nat)
    requires Increasing(r.deliveryEvents)
    ensures UpTo(RecordItems(r), n) == RecordItems(CutRecord(r, n))
  {
    SeenExact(r.deliveryEvents, n);
    UpToIsPrefix(RecordItems(r), n, Seen(r.deliveryEvents, n));
  }

  lemma {:induction false} CutDeliveryItems(records: seq<SendRecord>, n: nat)
    requires AllStatic(records)
    ensures UpTo(DeliveryItems(records), n) == DeliveryItems(CutRecords(records, n))
  {
    if records != [] {
      var rest := CutRecords(records[1..], n);
      RecordIncreasing(records[0]);
      CutRecordItems(records[0], n);
      CutDeliveryItems(records[1..], n);
      UpToConcat(RecordItems(records[0]), DeliveryItems(records[1..]), n);
      if Seen(records[0].deliveryEvents, n) > 0 {
        assert CutRecords(records, n) == [CutRecord(records[0], n)] + rest;
        assert CutRecords(records, n)[1..] == rest;
      } else {
        assert RecordItems(CutRecord(records[0], n)) == [];
        assert CutRecords(records, n) == rest;
      }
    }
  }

  lemma {:induction false} CutRiskItems(risks: seq<RiskEvent>, n: nat)
    ensures UpTo(RiskItems(risks), n) == RiskItems(CutRisks(risks, n))
  {
    if risks != [] {
      CutRiskItems(risks[1..], n);
      assert RiskItems(risks)[1..] == RiskItems(risks[1..]);
      var rest := CutRisks(risks[1..], n);
      if risks[0].journalSeq <= n {
        assert RiskItems([risks[0]] + rest) == [RiskItem(risks[0])] + RiskItems(rest);
      } else {
        assert CutRisks(risks, n) == rest;
      }
    }
  }

  lemma CutStream(j: Journal, n: nat)
    requires RecordsOk(j.records) && Contiguous(Stream(j)) && n <= |Stream(j)|
    ensures Stream(Cut(j, n)) == Stream(j)[..n]
  {
    var s := Stream(j);
    CutDeliveryItems(j.records, n);
    CutRiskItems(j.riskEvents, n);
    UpToConcat(DeliveryItems(j.records), RiskItems(j.riskEvents), n);
    assert UpTo(Items(j), n) == Items(Cut(j, n));
    SortPermutes(Items(j), SeqLe);
    UpToPermutes(Items(j), s, n);
    UpToIsPrefix(s, n, n);
    StreamIs(Cut(j, n), s[..n]);
  }

  lemma CutRecordStatic(r: SendRecord, n: nat)
    requires StaticOk(r) && Seen(r.deliveryEvents, n) > 0
    ensures StaticOk(CutRecord(r, n))
  {
    var events := CutRecord(r, n).deliveryEvents;
    assert forall i :: 0 <= i < |events| ==> events[i] == r.deliveryEvents[i];
    assert PairwiseValid(EvidenceOf(events)) by {
      var evs, all := EvidenceOf(events), EvidenceOf(r.deliveryEvents);
      forall i | 0 < i < |evs| ensures ValidTransition(evs[i - 1], evs[i]) {
        assert ValidTransition(all[i - 1], all[i]);
      }
    }
  }

  /** What every record of a cut list inherits. */
  lemma {:induction false} CutOrigin(records: seq<SendRecord>, n: nat, r: SendRecord) returns (k: nat)
    requires r in CutRecords(records, n)
    ensures k < |records| && Seen(records[k].deliveryEvents, n) > 0 && r == CutRecord(records[k], n)
  {
    if Seen(records[0].deliveryEvents, n) > 0 && r == CutRecord(records[0], n) {
      k := 0;
    } else {
      assert r in CutRecords(records[1..], n);
      k := CutOrigin(records[1..], n, r);
      k := k + 1;
    }
  }

  lemma {:induction false} CutDistinct(records: seq<SendRecord>, n: nat)
    requires DistinctIds(records)
    ensures DistinctIds(CutRecords(records, n))
  {
    if records != [] {
      CutDistinct(records[1..], n);
      var rest := CutRecords(records[1..], n);
      if Seen(records[0].deliveryEvents, n) > 0 {
        var all := [CutRecord(records[0], n)] + rest;
        forall l | 0 < l < |all| ensures all[0].Id() != all[l].Id() {
          assert all[l] == rest[l - 1] && rest[l - 1] in rest;
          var k := CutOrigin(records[1..], n, rest[l - 1]);
        }
        assert forall k, l :: 0 < k < l < |all| ==> all[k] == rest[k - 1] && all[l] == rest[l - 1];
      } else {
        assert CutRecords(records, n) == rest;
      }
    }
  }

  lemma CutRecordsOk(records: seq<SendRecord>, n: nat)
    requires RecordsOk(records)
    ensures RecordsOk(CutRecords(records, n))
  {
    var cut := CutRecords(records, n);
    CutDistinct(records, n);
    forall i | 0 <= i < |cut|
      ensures StaticOk(cut[i])
      ensures cut[i].prepared.ticket.SigningScope() == cut[0].prepared.ticket.SigningScope()
    {
      var k := CutOrigin(records, n, cut[i]);
      var l := CutOrigin(records, n, cut[0]);
      CutRecordStatic(records[k], n);
    }
  }

  lemma PendingExactlyAfterConsumption(j: Journal, n: nat)
    requires JournalOk(j) && n <= |Stream(j)|
    ensures After(j, n).pending.Some? <==> n > 0 && Stream(j)[n - 1].IsConsumption()
  {
    if n > 0 { AfterEffect(j, n - 1); }
  }

  /** A prefix of an accepted journal is accepted exactly when it does not end in a consumption. */
  lemma PrefixIsJournal(j: Journal, n: nat)
    requires JournalOk(j) && n <= |Stream(j)|
    ensures Stream(Cut(j, n)) == Stream(j)[..n]
    ensures JournalOk(Cut(j, n)) <==> !(n > 0 && Stream(j)[n - 1].IsConsumption())
  {
    CutStream(j, n);
    CutRecordsOk(j.records, n);
    PrefixRuns(Stream(j), n);
    PendingExactlyAfterConsumption(j, n);
  }

  // ----- appends -----

  lemma StreamAppend(j: Journal, j': Journal, x: ReplayItem)
    requires Contiguous(Stream(j)) && x.Seq() == |Stream(j)| + 1
    requires multiset(Items(j')) == multiset(Items(j)) + multiset{x}
    ensures Stream(j') == Stream(j) + [x]
  {
    SortPermutes(Items(j), SeqLe);
    StreamIs(j', Stream(j) + [x]);
  }

  lemma FoldAppend(s: seq<ReplayItem>, x: ReplayItem)
    requires Fold(s).Ok?
    ensures Fold(s + [x]) == Step(Fold(s).value, x)
  {
    assert (s + [x])[..|s + [x]| - 1] == s;
  }

  ghost function Final(j: Journal): State
    requires JournalOk(j)
  {
    Fold(Stream(j)).value
  }

  lemma FinalIsAfterAll(j: Journal)
    requires JournalOk(j)
    ensures Final(j) == After(j, |Stream(j)|)
  {
    assert Stream(j)[..|Stream(j)|] == Stream(j);
  }

  /** Replaying a candidate that adds one item replays that item alone. */
  lemma AppendOne(j: Journal, j': Journal, x: ReplayItem)
    requires JournalOk(j) && x.Seq() == |Stream(j)| + 1
    requires multiset(Items(j')) == multiset(Items(j)) + multiset{x}
    ensures Stream(j') == Stream(j) + [x]
    ensures JournalOk(j') <==>
      RecordsOk(j'.records) && Step(Final(j), x).Ok? && Step(Final(j), x).value.pending.None?
  {
    StreamAppend(j, j', x);
    FoldAppend(Stream(j), x);
  }

  function NextSeq(j: Journal): nat {
    |Stream(j)| + 1
  }

  // delivery

  function WithDelivery(j: Journal, k: nat, evidence: Evidence): Journal
    requires k < |j.records| && NextSeq(j) <= U64_MAX
  {
    j.(records := j.records[k := Extended(j.records[k], DeliveryEvent(NextSeq(j), evidence))])
  }

  function Extended(r: SendRecord, event: DeliveryEvent): SendRecord {
    SendRecord(r.prepared, r.deliveryEvents + [event])
  }

  /** The record-local conditions on one more piece of evidence. */
  predicate MayFollow(r: SendRecord, evidence: Evidence)
    requires r.deliveryEvents != []
  {
    && evidence.WellFormed() && evidence.BoundTo(r.prepared)
    && ValidTransition(r.deliveryEvents[|r.deliveryEvents| - 1].evidence, evidence)
  }

  lemma ExtendedItems(r: SendRecord, event: DeliveryEvent)
    ensures RecordItems(Extended(r, event)) == RecordItems(r) + [DeliveryItem(r.prepared, event)]
  {}

  lemma {:induction false} DeliveryItemsUpdate(records: seq<SendRecord>, k: nat, event: DeliveryEvent)
    requires k < |records|
    ensures multiset(DeliveryItems(records[k := Extended(records[k], event)])) ==
      multiset(DeliveryItems(records)) + multiset{DeliveryItem(records[k].prepared, event)}
  {
    var updated := records[k := Extended(records[k], event)];
    if k == 0 {
      ExtendedItems(records[0], event);
      assert updated[1..] == records[1..];
      InsertBetween(RecordItems(records[0]), DeliveryItem(records[0].prepared, event), DeliveryItems(records[1..]));
    } else {
      DeliveryItemsUpdate(records[1..], k - 1, event);
      assert updated[1..] == records[1..][k - 1 := Extended(records[k], event)];
      MultisetConcat(RecordItems(records[0]), DeliveryItems(records[1..]));
      MultisetConcat(RecordItems(records[0]), DeliveryItems(updated[1..]));
    }
  }

  lemma MultisetConcat(a: seq<ReplayItem>, b: seq<ReplayItem>)
    ensures multiset(a + b) == multiset(a) + multiset(b)
  {}

  lemma InsertBetween(a: seq<ReplayItem>, x: ReplayItem, b: seq<ReplayItem>)
    ensures multiset(a + [x] + b) == multiset(a + b) + multiset{x}
  {}

  lemma EventsWithin(j: Journal, k: nat)
    requires RecordsOk(j.records) && Contiguous(Stream(j)) && k < |j.records|
    ensures forall m :: 0 <= m < |j.records[k].deliveryEvents| ==> j.records[k].deliveryEvents[m].journalSeq <= |Stream(j)|
  {
    forall m | 0 <= m < |j.records[k].deliveryEvents|
      ensures j.records[k].deliveryEvents[m].journalSeq <= |Stream(j)|
    {
      EventPosition(j, k, m);
    }
  }

  lemma PairwiseSnoc(evs: seq<Evidence>, next: Evidence)
    requires evs != []
    ensures PairwiseValid(evs + [next]) <==> PairwiseValid(evs) && ValidTransition(evs[|evs| - 1], next)
  {
    var all := evs + [next];
    assert all[|evs| - 1] == evs[|evs| - 1] && all[|evs|] == next;
    if PairwiseValid(all) {
      forall i | 0 < i < |evs| ensures ValidTransition(evs[i - 1], evs[i]) {
        assert ValidTransition(all[i - 1], all[i]);
      }
    }
  }

  lemma EvidenceSnoc(events: seq<DeliveryEvent>, event: DeliveryEvent)
    requires events != []
    ensures PairwiseValid(EvidenceOf(events + [event])) <==>
      PairwiseValid(EvidenceOf(events)) && ValidTransition(events[|events| - 1].evidence, event.evidence)
  {
    assert EvidenceOf(events + [event]) == EvidenceOf(events) + [event.evidence];
    PairwiseSnoc(EvidenceOf(events), event.evidence);
  }

  lemma ExtendedStatic(r: SendRecord, event: DeliveryEvent)
    requires StaticOk(r)
    requires forall m :: 0 <= m < |r.deliveryEvents| ==> r.deliveryEvents[m].journalSeq < event.journalSeq
    ensures StaticOk(Extended(r, event)) <==> MayFollow(r, event.evidence)
  {
    var n := |r.deliveryEvents|;
    var longer := r.deliveryEvents + [event];
    EvidenceSnoc(r.deliveryEvents, event);
    assert longer[n] == event && longer[0] == r.deliveryEvents[0];
    if MayFollow(r, event.evidence) {
      forall i | 0 <= i < |longer| ensures longer[i].evidence.WellFormed() && longer[i].evidence.BoundTo(r.prepared) {
        if i < n { assert longer[i] == r.deliveryEvents[i]; }
      }
      forall i | 0 < i < |longer| ensures longer[i - 1].journalSeq < longer[i].journalSeq {
        assert longer[i - 1] == r.deliveryEvents[i - 1];
        if i < n { assert longer[i] == r.deliveryEvents[i]; }
      }
    }
  }

  lemma UpdatedRecordsOk(records: seq<SendRecord>, k: nat, event: DeliveryEvent)
    requires RecordsOk(records) && k < |records|
    ensures RecordsOk(records[k := Extended(records[k], event)]) <==> StaticOk(Extended(records[k], event))
  {
    var updated := records[k := Extended(records[k], event)];
    assert forall l :: 0 <= l < |records| ==> updated[l].prepared == records[l].prepared;
    if StaticOk(Extended(records[k], event)) {
      assert forall l :: 0 <= l < |updated| ==> StaticOk(updated[l]);
    } else {
      assert !StaticOk(updated[k]);
    }
  }

  lemma DeliveryReplays(j: Journal, k: nat, x: ReplayItem)
    requires JournalOk(j) && k < |j.records| && x.IsDeliveryOf(j.records[k].Id()) && !x.IsPrepared()
    ensures Step(Final(j), x).Ok? && Step(Final(j), x).value.pending.None?
  {
    FinalIsAfterAll(j);
    ReplayTracksRecords(j, |Stream(j)|);
    AllSeen(j, k);
    assert Tracked(j.records[k], |Stream(j)|, Final(j));
  }

  /** On an accepted journal, appending delivery evidence is a purely record-local matter. */
  lemma AppendDeliveryExact(j: Journal, k: nat, evidence: Evidence)
    requires JournalOk(j) && k < |j.records| && NextSeq(j) <= U64_MAX
    ensures j.records[k].deliveryEvents != []
    ensures JournalOk(WithDelivery(j, k, evidence)) <==> MayFollow(j.records[k], evidence)
    ensures StaticOk(Extended(j.records[k], DeliveryEvent(NextSeq(j), evidence))) <==> MayFollow(j.records[k], evidence)
  {
    var r, event := j.records[k], DeliveryEvent(NextSeq(j), evidence);
    AllSeen(j, k);
    EventsWithin(j, k);
    ExtendedStatic(r, event);
    UpdatedRecordsOk(j.records, k, event);
    DeliveryItemsUpdate(j.records, k, event);
    AppendOne(j, WithDelivery(j, k, evidence), DeliveryItem(r.prepared, event));
    if MayFollow(r, evidence) {
      DeliveryReplays(j, k, DeliveryItem(r.prepared, event));
    }
  }

  // prepared

  function Fresh(p: PreparedRecord, seqNo: U64): SendRecord {
    SendRecord(p, [DeliveryEvent(seqNo, PreparedEvidence)])
  }

  function WithPrepared(j: Journal, p: PreparedRecord): Journal
    requires NextSeq(j) <= U64_MAX
  {
    j.(records := j.records + [Fresh(p, NextSeq(j))])
  }

  lemma {:induction false} DeliveryItemsAppend(records: seq<SendRecord>, r: SendRecord)
    ensures DeliveryItems(records + [r]) == DeliveryItems(records) + RecordItems(r)
  {
    if records == [] {
      assert records + [r] == [r];
    } else {
      assert (records + [r])[1..] == records[1..] + [r];
      DeliveryItemsAppend(records[1..], r);
    }
  }

  /** The new record's id is unused and its scope is the journal's. */
  predicate Fits(j: Journal, p: PreparedRecord) {
    && (forall k :: 0 <= k < |j.records| ==> j.records[k].Id() != p.ticket.recordId)
    && (|j.records| > 0 ==> j.records[0].prepared.ticket.SigningScope() == p.ticket.SigningScope())
  }

  lemma FreshStatic(p: PreparedRecord, seqNo: U64)
    requires PreparedShape(p) && seqNo > 0
    ensures StaticOk(Fresh(p, seqNo))
  {}

  lemma AppendedRecordsOk(records: seq<SendRecord>, r: SendRecord)
    requires RecordsOk(records) && StaticOk(r)
    ensures RecordsOk(records + [r]) <==>
      && (forall k :: 0 <= k < |records| ==> records[k].Id() != r.Id())
      && (|records| > 0 ==> records[0].prepared.ticket.SigningScope() == r.prepared.ticket.SigningScope())
  {
    var all := records + [r];
    assert forall k :: 0 <= k < |records| ==> all[k] == records[k];
    assert all[|records|] == r;
  }

  lemma PreparedItems(j: Journal, p: PreparedRecord)
    requires NextSeq(j) <= U64_MAX
    ensures multiset(Items(WithPrepared(j, p))) ==
      multiset(Items(j)) + multiset{DeliveryItem(p, DeliveryEvent(NextSeq(j), PreparedEvidence))}
  {
    DeliveryItemsAppend(j.records, Fresh(p, NextSeq(j)));
    assert RecordItems(Fresh(p, NextSeq(j))) == [DeliveryItem(p, DeliveryEvent(NextSeq(j), PreparedEvidence))];
  }

  lemma NotYetActive(j: Journal, id: Bytes32)
    requires JournalOk(j)
    requires forall k :: 0 <= k < |j.records| ==> j.records[k].Id() != id
    ensures id !in Final(j).active
  {
    FinalIsAfterAll(j);
    ReplayTracksRecords(j, |Stream(j)|);
  }

  /** A Prepared of an unused id replays exactly when it is permitted and funded. */
  lemma StepPreparedExact(st: State, p: PreparedRecord, x: ReplayItem)
    requires x.IsPrepared() && x.prepared == p && p.ticket.recordId !in st.active
    ensures Step(st, x).Ok? <==> SigningError(p, st).None? && Funded(p, st.blocking)
    ensures Step(st, x).Ok? ==> Step(st, x).value.pending.None?
  {}

  lemma FreshRecordsOk(j: Journal, p: PreparedRecord)
    requires RecordsOk(j.records) && PreparedShape(p) && NextSeq(j) <= U64_MAX
    ensures RecordsOk(WithPrepared(j, p).records) <==> Fits(j, p)
  {
    FreshStatic(p, NextSeq(j));
    AppendedRecordsOk(j.records, Fresh(p, NextSeq(j)));
  }

  /** On an accepted journal, a Prepared is accepted exactly when the record fits and the replay's
      last state permits and funds it. */
  lemma AppendPreparedReplays(j: Journal, p: PreparedRecord)
    requires JournalOk(j) && PreparedShape(p) && NextSeq(j) <= U64_MAX
    ensures JournalOk(WithPrepared(j, p)) <==>
      Fits(j, p) && SigningError(p, Final(j)).None? && Funded(p, Final(j).blocking)
  {
    var x := DeliveryItem(p, DeliveryEvent(NextSeq(j), PreparedEvidence));
    FreshRecordsOk(j, p);
    PreparedItems(j, p);
    AppendOne(j, WithPrepared(j, p), x);
    if Fits(j, p) {
      NotYetActive(j, p.ticket.recordId);
      StepPreparedExact(Final(j), p, x);
    }
  }

  /** A shaped request names each asset once. */
  lemma RequestedDistinct(p: PreparedRecord)
    requires PreparedShape(p)
    ensures DistinctAssets(Requested(p))
  {
    var rows := p.reservations;
    var value := p.ticket.request.value;
    if !value.asset.Native? {
      CountTwo(rows, Transfer, value);
      CountTwo(rows, NativeFee, TaggedUnits(Native, p.provenance.localFeeCeilingNative));
      assert rows[0].amount.asset != rows[1].amount.asset;
      assert Requested(p)[0] == rows[0].amount && Requested(p)[1] == rows[1].amount;
    }
  }

  lemma CountTwo(rows: seq<Reservation>, kind: ReservationKind, amount: AssetAmount)
    requires |rows| == 2
    ensures CountRows(rows, kind, amount) ==
      (if rows[0].kind == kind && rows[0].amount == amount then 1 else 0)
      + (if rows[1].kind == kind && rows[1].amount == amount then 1 else 0)
  {
    assert rows[1..] == [rows[1]];
    assert CountRows([rows[1]][1..], kind, amount) == 0;
  }

  lemma IdleMapsAreEmpty(j: Journal, p: PreparedRecord)
    requires JournalOk(j) && Fits(j, p)
    ensures forall k :: 0 <= k < |j.records| ==> j.records[k].deliveryEvents != []
    ensures Blocked(Final(j).blocking, p.ticket.SigningScope()) <==>
      exists k :: 0 <= k < |j.records| && j.records[k].IsBlocking()
    ensures !Blocked(Final(j).blocking, p.ticket.SigningScope()) ==> Final(j).blocking == map[]
  {
    var scope, n := p.ticket.SigningScope(), |Stream(j)|;
    FinalIsAfterAll(j);
    ReplayTracksRecords(j, n);
    forall k | 0 <= k < |j.records| ensures j.records[k].deliveryEvents != [] { AllSeen(j, k); }
    forall id | id in Final(j).blocking
      ensures Final(j).blocking[id].tag.IsBlocking()
      ensures Final(j).blocking[id].prepared.ticket.SigningScope() == scope
    {
      BlockingEntries(j, n, Final(j), id);
    }
    if k :| 0 <= k < |j.records| && j.records[k].IsBlocking() {
      RecordBlocks(j, k);
      assert Selected(Final(j).blocking[j.records[k].Id()], Some(scope));
    }
    if Blocked(Final(j).blocking, scope) {
      var id :| id in Final(j).blocking && Selected(Final(j).blocking[id], Some(scope));
      var k := BlockingRecord(j, id);
    } else {
      NothingBlocks(Final(j), scope);
    }
  }

  /** On an accepted journal, ordinary signing succeeds exactly when nothing blocks, the id and
      scope fit, no overlap is claimed and the fresh balances cover the request. */
  lemma AppendPreparedExact(j: Journal, p: PreparedRecord)
    requires JournalOk(j) && PreparedShape(p) && NextSeq(j) <= U64_MAX
    ensures forall k :: 0 <= k < |j.records| ==> j.records[k].deliveryEvents != []
    ensures JournalOk(WithPrepared(j, p)) <==>
      && Fits(j, p)
      && (forall k :: 0 <= k < |j.records| ==> !j.records[k].IsBlocking())
      && p.provenance.authorizedOverlap == []
      && DistinctAssets(p.provenance.balances)
      && Affordable(p.provenance.balances, [], [], Requested(p))
  {
    AppendPreparedReplays(j, p);
    forall k | 0 <= k < |j.records| ensures j.records[k].deliveryEvents != [] { AllSeen(j, k); }
    if Fits(j, p) {
      IdleMapsAreEmpty(j, p);
      RequestedDistinct(p);
      if Final(j).blocking == map[] {
        assert SortedKeys({}) == [];
        assert Outstanding(Final(j).blocking, Some(p.ticket.SigningScope())) == [];
      }
    }
  }

  // grants

  function WithRisk(j: Journal, action: RiskAction): Journal
    requires NextSeq(j) <= U64_MAX
  {
    j.(riskEvents := j.riskEvents + [RiskEvent(NextSeq(j), action)])
  }

  lemma RiskItemsAppend(j: Journal, action: RiskAction)
    requires NextSeq(j) <= U64_MAX
    ensures multiset(Items(WithRisk(j, action))) ==
      multiset(Items(j)) + multiset{RiskItem(RiskEvent(NextSeq(j), action))}
  {
    var e := RiskEvent(NextSeq(j), action);
    assert RiskItems(j.riskEvents + [e]) == RiskItems(j.riskEvents) + [RiskItem(e)];
    assert Items(WithRisk(j, action)) == Items(j) + [RiskItem(e)];
  }

  /** A grant is accepted exactly when its version is the supported one, it names what blocks
      right now, and its nonce was never granted. */
  lemma AppendGrantExact(j: Journal, grant: RiskGrant)
    requires JournalOk(j) && NextSeq(j) <= U64_MAX
    ensures JournalOk(WithRisk(j, Granted(grant))) <==>
      && grant.warningVersion == RISK_WARNING_VERSION
      && GrantOldStateError(grant, Final(j).blocking).None?
      && grant.oneUseNonce !in Final(j).grants
  {
    RiskItemsAppend(j, Granted(grant));
    AppendOne(j, WithRisk(j, Granted(grant)), RiskItem(RiskEvent(NextSeq(j), Granted(grant))));
  }

  /** Consumption and Prepared go in together. */
  function WithUse(j: Journal, c: RiskGrantConsumption, p: PreparedRecord): Journal
    requires NextSeq(j) + 1 <= U64_MAX
  {
    Journal(j.records + [Fresh(p, NextSeq(j) + 1)], j.riskEvents + [RiskEvent(NextSeq(j), Consumed(c))])
  }

  function UseItem(j: Journal, c: RiskGrantConsumption): ReplayItem
    requires NextSeq(j) <= U64_MAX
  {
    RiskItem(RiskEvent(NextSeq(j), Consumed(c)))
  }

  function SigningItem(j: Journal, p: PreparedRecord): ReplayItem
    requires NextSeq(j) + 1 <= U64_MAX
  {
    DeliveryItem(p, DeliveryEvent(NextSeq(j) + 1, PreparedEvidence))
  }

  lemma UseStream(j: Journal, c: RiskGrantConsumption, p: PreparedRecord)
    requires Contiguous(Stream(j)) && NextSeq(j) + 1 <= U64_MAX
    ensures Stream(WithUse(j, c, p)) == Stream(j) + [UseItem(j, c)] + [SigningItem(j, p)]
  {
    var used := WithRisk(j, Consumed(c));
    RiskItemsAppend(j, Consumed(c));
    StreamAppend(j, used, UseItem(j, c));
    DeliveryItemsAppend(j.records, Fresh(p, NextSeq(j) + 1));
    assert RecordItems(Fresh(p, NextSeq(j) + 1)) == [SigningItem(j, p)];
    StreamAppend(used, WithUse(j, c, p), SigningItem(j, p));
  }

  /** The grant a consumption would spend. */
  ghost predicate Spendable(st: State, c: RiskGrantConsumption) {
    c.oneUseNonce in st.grants && st.grants[c.oneUseNonce].Authorizes(c) && c.oneUseNonce !in st.consumed
  }

  /** The consumption and the Prepared replayed one after the other. */
  lemma UseReplays(s: seq<ReplayItem>, use: ReplayItem, x: ReplayItem)
    requires Fold(s).Ok? && Fold(s).value.pending.None? && use.IsConsumption() && x.IsPrepared()
    ensures var st, c, p := Fold(s).value, use.risk.action.consumption, x.prepared;
      Fold(s + [use] + [x]).Ok? <==>
        && Spendable(st, c)
        && p.ticket.recordId !in st.active
        && SigningError(p, st.(pending := Some((st.grants[c.oneUseNonce], c)))).None?
        && Funded(p, st.blocking)
    ensures Fold(s + [use] + [x]).Ok? ==> Fold(s + [use] + [x]).value.pending.None?
  {
    FoldAppend(s, use);
    if Spendable(Fold(s).value, use.risk.action.consumption) {
      FoldAppend(s + [use], x);
    } else {
      assert (s + [use] + [x])[..|s| + 1] == s + [use];
      FoldErrorSticks(s + [use] + [x], |s| + 1);
    }
  }

  /** The journal's state while a consumption waits for its Prepared. */
  ghost function Spending(st: State, c: RiskGrantConsumption): State
    requires Spendable(st, c)
  {
    st.(pending := Some((st.grants[c.oneUseNonce], c)))
  }

  lemma AppendUseReplays(j: Journal, c: RiskGrantConsumption, p: PreparedRecord)
    requires JournalOk(j) && PreparedShape(p) && NextSeq(j) + 1 <= U64_MAX
    ensures JournalOk(WithUse(j, c, p)) <==>
      Fits(j, p) && Spendable(Final(j), c) && SigningError(p, Spending(Final(j), c)).None? && Funded(p, Final(j).blocking)
  {
    var j', s' := WithUse(j, c, p), Stream(j) + [UseItem(j, c)] + [SigningItem(j, p)];
    assert Stream(j') == s' by { UseStream(j, c, p); }
    assert Contiguous(s');
    assert RecordsOk(j'.records) <==> Fits(j, p) by { UseRecordsOk(j, c, p); }
    assert Fold(s').Ok? && Fold(s').value.pending.None? <==>
      Spendable(Final(j), c) && p.ticket.recordId !in Final(j).active
      && SigningError(p, Spending(Final(j), c)).None? && Funded(p, Final(j).blocking)
    by {
      UseReplays(Stream(j), UseItem(j, c), SigningItem(j, p));
    }
    if Fits(j, p) { NotYetActive(j, p.ticket.recordId); }
  }

  lemma UseRecordsOk(j: Journal, c: RiskGrantConsumption, p: PreparedRecord)
    requires RecordsOk(j.records) && PreparedShape(p) && NextSeq(j) + 1 <= U64_MAX
    ensures RecordsOk(WithUse(j, c, p).records) <==> Fits(j, p)
  {
    FreshStatic(p, NextSeq(j) + 1);
    AppendedRecordsOk(j.records, Fresh(p, NextSeq(j) + 1));
  }

  /** Signing past a blocker succeeds exactly with an unspent grant that authorizes this
      consumption, still describes what blocks, and names this very ticket and overlap. */
  lemma AppendUseExact(j: Journal, c: RiskGrantConsumption, p: PreparedRecord)
    requires JournalOk(j) && PreparedShape(p) && NextSeq(j) + 1 <= U64_MAX
    ensures JournalOk(WithUse(j, c, p)) <==>
      && Fits(j, p)
      && Spendable(Final(j), c)
      && p.ticket.recordId == c.newRecordId && p.ticket.Digest() == Ok(c.newTicketDigest)
      && GrantStateError(Final(j).grants[c.oneUseNonce], p, Final(j).blocking).None?
      && Funded(p, Final(j).blocking)
  {
    AppendUseReplays(j, c, p);
    if Spendable(Final(j), c) { SpendingPermits(p, Final(j), c); }
  }

  lemma SpendingPermits(p: PreparedRecord, st: State, c: RiskGrantConsumption)
    requires Spendable(st, c)
    ensures SigningError(p, Spending(st, c)).None? <==>
      && p.ticket.recordId == c.newRecordId && p.ticket.Digest() == Ok(c.newTicketDigest)
      && GrantStateError(st.grants[c.oneUseNonce], p, st.blocking).None?
  {}

  // ----- the envelope -----

  class JournalEnvelope {
    var records: seq<SendRecord>
    var riskEvents: seq<RiskEvent>

    function Contents(): Journal
      reads this
    {
      Journal(records, riskEvents)
    }

    ghost predicate Valid()
      reads this
    {
      JournalOk(Contents())
    }

    constructor Empty()
      ensures Valid() && Contents() == Journal([], [])
    {
      records, riskEvents := [], [];
      new;
      EmptyJournal();
    }

    /** `decode`, after the envelope's JSON has been read. */
    static method Decode(records: seq<SendRecord>, riskEvents: seq<RiskEvent>)
      returns (r: Result<Journal, JournalError>)
      ensures r.Ok? <==> JournalOk(Journal(records, riskEvents))
      ensures r.Ok? ==> r.value == Journal(records, riskEvents)
    {
      var e := ValidateReplay(Journal(records, riskEvents));
      return if e.Some? then Err(e.value) else Ok(Journal(records, riskEvents));
    }

    /** `next_sequence`: one past the largest sequence number in use. */
    method NextSequence() returns (r: Result<U64, JournalError>)
      requires Valid()
      ensures r == (if NextSeq(Contents()) <= U64_MAX then Ok(NextSeq(Contents())) else Err(SequenceOverflow))
    {
      var delivered := LargestDelivery();
      var last := LargestRisk(delivered);
      LastSequence(Contents(), last);
      return if last + 1 <= U64_MAX then Ok(last + 1) else Err(SequenceOverflow);
    }

    method LargestDelivery() returns (last: nat)
      requires Valid()
      ensures last <= |Stream(Contents())| && EventsBounded(Contents(), |records|, last)
    {
      last := 0;
      for k := 0 to |records|
        invariant last <= |Stream(Contents())|
        invariant EventsBounded(Contents(), k, last)
      {
        EventsWithin(Contents(), k);
        last := LargestIn(records[k].deliveryEvents, last);
      }
    }

    method LargestRisk(floor: nat) returns (last: nat)
      requires Valid() && floor <= |Stream(Contents())|
      ensures floor <= last <= |Stream(Contents())|
      ensures forall m :: 0 <= m < |riskEvents| ==> riskEvents[m].journalSeq <= last
    {
      last := floor;
      for i := 0 to |riskEvents|
        invariant floor <= last <= |Stream(Contents())|
        invariant forall m :: 0 <= m < i ==> riskEvents[m].journalSeq <= last
      {
        RiskPosition(Contents(), i);
        if riskEvents[i].journalSeq > last { last := riskEvents[i].journalSeq; }
      }
    }

    static method LargestIn(events: seq<DeliveryEvent>, floor: nat) returns (last: nat)
      ensures floor <= last && forall m :: 0 <= m < |events| ==> events[m].journalSeq <= last
      ensures last == floor || exists m :: 0 <= m < |events| && events[m].journalSeq == last
    {
      last := floor;
      for i := 0 to |events|
        invariant floor <= last && forall m :: 0 <= m < i ==> events[m].journalSeq <= last
        invariant last == floor || exists m :: 0 <= m < i && events[m].journalSeq == last
      {
        if events[i].journalSeq > last { last := events[i].journalSeq; }
      }
    }

    method AppendPrepared(p: PreparedRecord) returns (e: Option<JournalError>)
      requires Valid() && PreparedShape(p)
      modifies this
      ensures Valid()
      ensures e.Some? ==> Contents() == old(Contents())
      ensures e.None? ==> NextSeq(old(Contents())) <= U64_MAX && Contents() == WithPrepared(old(Contents()), p)
      ensures forall k :: 0 <= k < |old(records)| ==> old(records)[k].deliveryEvents != []
      ensures e.None? <==>
        && NextSeq(old(Contents())) <= U64_MAX
        && Fits(old(Contents()), p)
        && (forall k :: 0 <= k < |old(records)| ==> !old(records)[k].IsBlocking())
        && p.provenance.authorizedOverlap == []
        && DistinctAssets(p.provenance.balances)
        && Affordable(p.provenance.balances, [], [], Requested(p))
    {
      forall k | 0 <= k < |records| ensures records[k].deliveryEvents != [] { AllSeen(Contents(), k); }
      var sequence := NextSequence();
      if sequence.Err? { return Some(sequence.error); }
      AppendPreparedExact(Contents(), p);
      var candidate := records + [Fresh(p, sequence.value)];
      e := ValidateReplay(Journal(candidate, riskEvents));
      if e.None? { records := candidate; }
    }

    method AppendDelivery(recordId: Bytes32, evidence: Evidence) returns (e: Option<JournalError>)
      requires Valid()
      modifies this
      ensures Valid()
      ensures e.Some? ==> Contents() == old(Contents())
      ensures forall k :: 0 <= k < |old(records)| ==> old(records)[k].deliveryEvents != []
      ensures e.None? <==>
        && NextSeq(old(Contents())) <= U64_MAX
        && exists k :: 0 <= k < |old(records)| && old(records)[k].Id() == recordId && MayFollow(old(records)[k], evidence)
      ensures e.None? ==>
        exists k ::
          && 0 <= k < |old(records)| && old(records)[k].Id() == recordId
          && Contents() == WithDelivery(old(Contents()), k, evidence)
    {
      forall k | 0 <= k < |records| ensures records[k].deliveryEvents != [] { AllSeen(Contents(), k); }
      var sequence := NextSequence();
      if sequence.Err? { return Some(sequence.error); }
      var k := 0;
      while k < |records| && records[k].Id() != recordId
        invariant k <= |records|
        invariant forall l :: 0 <= l < k ==> records[l].Id() != recordId
      {
        k := k + 1;
      }
      if k == |records| { return Some(InvalidDelivery); }
      AppendDeliveryExact(Contents(), k, evidence);
      var extended := Extended(records[k], DeliveryEvent(sequence.value, evidence));
      var ok := ValidateStatic(extended);
      if !ok { return Some(InvalidDelivery); }
      var candidate := records[k := extended];
      e := ValidateReplay(Journal(candidate, riskEvents));
      if e.None? { records := candidate; }
    }

    method AppendRiskGrant(grant: RiskGrant) returns (e: Option<JournalError>)
      requires Valid()
      modifies this
      ensures Valid()
      ensures e.Some? ==> Contents() == old(Contents())
      ensures e.None? ==> NextSeq(old(Contents())) <= U64_MAX && Contents() == WithRisk(old(Contents()), Granted(grant))
      ensures e.None? <==>
        && NextSeq(old(Contents())) <= U64_MAX
        && grant.warningVersion == RISK_WARNING_VERSION
        && GrantOldStateError(grant, Final(old(Contents())).blocking).None?
        && grant.oneUseNonce !in Final(old(Contents())).grants
    {
      var sequence := NextSequence();
      if sequence.Err? { return Some(sequence.error); }
      AppendGrantExact(Contents(), grant);
      var candidate := riskEvents + [RiskEvent(sequence.value, Granted(grant))];
      e := ValidateReplay(Journal(records, candidate));
      if e.None? { riskEvents := candidate; }
    }

    method AppendConsumptionAndPrepared(c: RiskGrantConsumption, p: PreparedRecord) returns (e: Option<JournalError>)
      requires Valid() && PreparedShape(p)
      modifies this
      ensures Valid()
      ensures e.Some? ==> Contents() == old(Contents())
      ensures e.None? ==> NextSeq(old(Contents())) + 1 <= U64_MAX && Contents() == WithUse(old(Contents()), c, p)
      ensures e.None? <==>
        && NextSeq(old(Contents())) + 1 <= U64_MAX
        && Fits(old(Contents()), p)
        && Spendable(Final(old(Contents())), c)
        && p.ticket.recordId == c.newRecordId && p.ticket.Digest() == Ok(c.newTicketDigest)
        && GrantStateError(Final(old(Contents())).grants[c.oneUseNonce], p, Final(old(Contents())).blocking).None?
        && Funded(p, Final(old(Contents())).blocking)
    {
      var sequence := NextSequence();
      if sequence.Err? { return Some(sequence.error); }
      if sequence.value + 1 > U64_MAX { return Some(SequenceOverflow); }
      AppendUseExact(Contents(), c, p);
      var risks := riskEvents + [RiskEvent(sequence.value, Consumed(c))];
      var candidate := records + [Fresh(p, sequence.value + 1)];
      e := ValidateReplay(Journal(candidate, risks));
      if e.None? { records, riskEvents := candidate, risks; }
    }
  }

  /** No event of the first `k` records is numbered above `last`. */
  ghost predicate EventsBounded(j: Journal, k: nat, last: nat) {
    forall l: nat, m: nat :: l < k && IsEvent(j, l, m) ==> j.records[l].deliveryEvents[m].journalSeq <= last
  }

  lemma EmptyJournal()
    ensures JournalOk(Journal([], []))
  {
    assert Items(Journal([], [])) == [];
    assert Stream(Journal([], [])) == [];
  }

  lemma RiskPosition(j: Journal, i: nat)
    requires Contiguous(Stream(j)) && i < |j.riskEvents|
    ensures j.riskEvents[i].journalSeq <= |Stream(j)|
  {
    SortPermutes(Items(j), SeqLe);
    assert RiskItems(j.riskEvents)[i] in RiskItems(j.riskEvents);
    MemberOfPermutation(Items(j), Stream(j), RiskItem(j.riskEvents[i]));
  }

  /** The largest sequence number in use is the length of the stream. */
  lemma LastSequence(j: Journal, last: nat)
    requires Contiguous(Stream(j)) && last <= |Stream(j)|
    requires EventsBounded(j, |j.records|, last)
    requires forall m :: 0 <= m < |j.riskEvents| ==> j.riskEvents[m].journalSeq <= last
    ensures last == |Stream(j)|
  {
    var s := Stream(j);
    if s != [] {
      var x := s[|s| - 1];
      if x.DeliveryItem? {
        var k, m := ItemOrigin(j, |s| - 1);
      } else {
        SortPermutes(Items(j), SeqLe);
        MemberOfPermutation(Items(j), s, x);
        NoRiskInDeliveries(j.records, x);
        var m :| 0 <= m < |RiskItems(j.riskEvents)| && RiskItems(j.riskEvents)[m] == x;
      }
    }
  }

  lemma {:induction false} NoRiskInDeliveries(records: seq<SendRecord>, x: ReplayItem)
    requires x.RiskItem?
    ensures x !in DeliveryItems(records)
  {
    if records != [] { NoRiskInDeliveries(records[1..], x); }
  }
}
