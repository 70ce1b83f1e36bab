/** The read side of the transfer router: the detail and verify views of one
    transfer, the filtered listing with its summary, the pending list with the
    stalled/overdue scan, and the anomalies list. Each reads the rows of the
    transfer and item tables (`Store.Records(ts)` and `Store.Rows(its)` of the
    session's objects) and changes nothing. */
module Listings {
  import opened Wrappers
  import opened Lists
  import opened Time
  import opened Verification
  import opened Transfers

  // ---------------------------------------------------------------------------
  // One transfer: GET /transfers/{id} and GET /transfers/{id}/verify

  /** The detail view: the row, its items and the verification of both. */
  datatype Details = Details(transfer: TransferRecord, items: seq<ItemRecord>, verification: VerificationResult)

  /** `get_transfer`: 404 for an unknown id; otherwise the row, its item rows in
      table order and a fresh verification. On a table that keeps the
      lifecycle invariant the verdict agrees with the stored status. */
  method GetTransfer(h: Digest, rs: seq<TransferRecord>, rows: seq<ItemRecord>, id: string)
    returns (res: Result<Details>)
    ensures Find(rs, id).None? <==> res == Err(TransferNotFound(id))
    ensures res.Ok? ==> Find(rs, id).Some? && res.value.transfer == rs[Find(rs, id).value]
                        && res.value.items == ItemRowsOf(rows, id)
                        && res.value.verification
                           == VerificationOf(h, ViewOf(res.value.transfer), ScansOf(res.value.items))
    ensures res.Ok? && AllConsistent(h, rs) ==>
              (res.value.verification.isValid <==> res.value.transfer.status == Verified)
  {
    var k := Find(rs, id);
    if k.None? {
      return Err(TransferNotFound(id));
    }
    var r := rs[k.value];
    var items := ItemRowsOf(rows, id);
    var verification := VerifyTransfer(h, ViewOf(r), ScansOf(items));
    if AllConsistent(h, rs) {
      assert ConsistentAt(h, rs, k.value);
      StoredVerdict(h, r, ScansOf(items));
    }
    res := Ok(Details(r, items, verification));
  }

  /** The report of the verify endpoint. */
  datatype VerifyReport = VerifyReport(transferId: string, verification: VerificationResult, status: Status)

  /** `verify_transfer` (the endpoint): 404 for an unknown id; otherwise the
      verification of the row and its items with the stored status. On a row
      that keeps the lifecycle invariant, the report is valid exactly for a
      verified transfer, a transfer still in transit has an incomplete chain,
      and a delivered one reproduces the stored hash. */
  method VerifyStored(h: Digest, rs: seq<TransferRecord>, rows: seq<ItemRecord>, id: string)
    returns (res: Result<VerifyReport>)
    ensures Find(rs, id).None? <==> res == Err(TransferNotFound(id))
    ensures res.Ok? ==> Find(rs, id).Some?
                        && res.value.transferId == id
                        && res.value.status == rs[Find(rs, id).value].status
                        && res.value.verification
                           == VerificationOf(h, ViewOf(rs[Find(rs, id).value]), ScansOf(ItemRowsOf(rows, id)))
    ensures res.Ok? && AllConsistent(h, rs) ==>
              var result := res.value.verification;
              (result.isValid <==> res.value.status == Verified)
              && (res.value.status == Created || res.value.status == PickedUp ==> !result.chainComplete)
              && (res.value.status == Verified || res.value.status == Disputed ==>
                    Some(result.verificationHash) == rs[Find(rs, id).value].verificationHash)
  {
    var k := Find(rs, id);
    if k.None? {
      return Err(TransferNotFound(id));
    }
    var r := rs[k.value];
    var scans := ScansOf(ItemRowsOf(rows, id));
    var verification := VerifyTransfer(h, ViewOf(r), scans);
    if AllConsistent(h, rs) {
      assert ConsistentAt(h, rs, k.value);
      StoredVerdict(h, r, scans);
    }
    res := Ok(VerifyReport(id, verification, r.status));
  }

  // ---------------------------------------------------------------------------
  // The listing: GET /transfers/

  /** The query parameters of the listing. */
  datatype ListQuery = ListQuery(
    status: Option<string>,
    fromDistrict: Option<string>,
    toDistrict: Option<string>,
    hasDiscrepancy: Option<bool>,
    limit: int)

  /** A text parameter filters only when it is present and not empty. */
  predicate Given(p: Option<string>)
  {
    p.Some? && p.value != ""
  }

  /** A row passes every filter the query sets. */
  predicate Matches(q: ListQuery, r: TransferRecord)
  {
    (Given(q.status) ==> StatusName(r.status) == q.status.value)
    && (Given(q.fromDistrict) ==> r.fromDistrictId == q.fromDistrict.value)
    && (Given(q.toDistrict) ==> r.toDistrictId == q.toDistrict.value)
    && (q.hasDiscrepancy.Some? ==> r.hasDiscrepancy == q.hasDiscrepancy.value)
  }

  /** The rows that pass the query's filters, in table order. */
  function Selected(rs: seq<TransferRecord>, q: ListQuery): (r: seq<TransferRecord>)
    ensures forall x :: x in r <==> x in rs && Matches(q, x)
  {
    FilterMembers(rs, (t: TransferRecord) => Matches(q, t));
    Filter(rs, (t: TransferRecord) => Matches(q, t))
  }

  /** The sort key of `order_by(created_at.desc())`. */
  function NewestFirst(r: TransferRecord): int { -r.createdAt }

  /** The sort key of `order_by(created_at)`. */
  function OldestFirst(r: TransferRecord): int { r.createdAt }

  /** The listing's page as the query is written: the only check on `limit`
      is `le=100`, and SQLite reads a negative LIMIT as no limit at all. */
  function PageAsWritten(rs: seq<TransferRecord>, q: ListQuery): seq<TransferRecord>
    requires q.limit <= 100
  {
    var ordered := SortBy(Selected(rs, q), NewestFirst);
    if q.limit < 0 then ordered else Take(ordered, q.limit)
  }

  /** With `limit=-1` and no filter, the page holds every transfer: more
      than 100 once the table has more than 100 rows. */
  lemma NegativeLimitPage(rs: seq<TransferRecord>)
    requires |rs| > 100
    ensures var q := ListQuery(None, None, None, None, -1);
      |PageAsWritten(rs, q)| == |rs| > 100
  {
    var q := ListQuery(None, None, None, None, -1);
    FilterAll(rs, (t: TransferRecord) => Matches(q, t));
  }

  /** The page once `limit` is bounded on both sides: the newest matching
      rows, at most `limit` of them. */
  function Page(rs: seq<TransferRecord>, q: ListQuery): (page: seq<TransferRecord>)
    requires 0 <= q.limit <= 100
    ensures |page| <= q.limit
  {
    Take(SortBy(Selected(rs, q), NewestFirst), q.limit)
  }

  /** Every row on the page is a row of the table that passes the filters. */
  lemma PageMembers(rs: seq<TransferRecord>, q: ListQuery)
    requires 0 <= q.limit <= 100
    ensures forall x :: x in Page(rs, q) ==> x in rs && Matches(q, x)
  {
    var ordered := SortBy(Selected(rs, q), NewestFirst);
    var page := Page(rs, q);
    forall x | x in page ensures x in multiset(Selected(rs, q)) {
      var i :| 0 <= i < |page| && page[i] == x;
      assert ordered[i] in multiset(ordered);
    }
  }

  /** The page is newest first, and a matching row left off a full page is
      no newer than any row on it. */
  lemma PageOrder(rs: seq<TransferRecord>, q: ListQuery)
    requires 0 <= q.limit <= 100
    ensures SortedBy(Page(rs, q), NewestFirst)
    ensures forall i, j :: 0 <= i < |Page(rs, q)| <= j < |Selected(rs, q)| ==>
              SortBy(Selected(rs, q), NewestFirst)[j].createdAt <= Page(rs, q)[i].createdAt
  {
  }

  /** When the matching rows fit, the page holds every one of them. */
  lemma PageComplete(rs: seq<TransferRecord>, q: ListQuery)
    requires 0 <= q.limit <= 100 && |Selected(rs, q)| <= q.limit
    ensures multiset(Page(rs, q)) == multiset(Selected(rs, q))
  {
    assert Page(rs, q) == SortBy(Selected(rs, q), NewestFirst);
  }

  /** `status_counts` of the summary: the status of every row, with how many
      rows have it. */
  function StatusCount(rs: seq<TransferRecord>, s: Status): nat
  {
    Count(rs, (r: TransferRecord) => r.status == s)
  }

  lemma StatusCountSnoc(rs: seq<TransferRecord>, r: TransferRecord, s: Status)
    ensures StatusCount(rs + [r], s) == StatusCount(rs, s) + (if r.status == s then 1 else 0)
  {
    CountAppend(rs, [r], (t: TransferRecord) => t.status == s);
  }

  /** The loop that fills `status_counts`, one row at a time. */
  method CountStatuses(rs: seq<TransferRecord>) returns (counts: map<Status, nat>)
    ensures forall s :: s in counts <==> exists i :: 0 <= i < |rs| && rs[i].status == s
    ensures forall s :: s in counts ==> counts[s] == StatusCount(rs, s)
  {
    counts := map[];
    for i := 0 to |rs|
      invariant forall s :: s in counts <==> exists j :: 0 <= j < i && rs[j].status == s
      invariant forall s :: s in counts ==> counts[s] == StatusCount(rs[..i], s)
      invariant forall s :: s !in counts ==> StatusCount(rs[..i], s) == 0
    {
      assert rs[..i + 1] == rs[..i] + [rs[i]];
      forall s {
        StatusCountSnoc(rs[..i], rs[i], s);
      }
      var s := rs[i].status;
      counts := counts[s := Entry(counts, s) + 1];
    }
    assert rs[..|rs|] == rs;
  }

  /** Every row has exactly one of the five statuses. */
  lemma {:induction false} StatusCountsTotal(rs: seq<TransferRecord>)
    ensures StatusCount(rs, Created) + StatusCount(rs, PickedUp) + StatusCount(rs, Delivered)
            + StatusCount(rs, Verified) + StatusCount(rs, Disputed) == |rs|
  {
    if rs != [] {
      StatusCountsTotal(rs[1..]);
    }
  }

  /** The sum of a status map's entries. */
  function Tally(counts: map<Status, nat>): int
  {
    Entry(counts, Created) + Entry(counts, PickedUp) + Entry(counts, Delivered)
    + Entry(counts, Verified) + Entry(counts, Disputed)
  }

  /** `counts.get(s, 0)`. */
  function Entry(counts: map<Status, nat>, s: Status): nat
  {
    if s in counts then counts[s] else 0
  }

  predicate HasDiscrepancy(r: TransferRecord) { r.hasDiscrepancy }

  datatype Summary = Summary(byStatus: map<Status, nat>, withDiscrepancies: nat)

  datatype Listing = Listing(transfers: seq<TransferRecord>, count: nat, summary: Summary)

  /** The answer to a `limit` outside 0..100. */
  const InvalidLimit := ApiError(422, "Unprocessable Entity")

  /** `list_transfers`: the page of the newest matching rows and a summary
      over the whole table, not only the page: the status counts account for
      every row, and the discrepancy count counts every flagged row. */
  method ListTransfers(rs: seq<TransferRecord>, q: ListQuery) returns (res: Result<Listing>)
    ensures res.Err? <==> !(0 <= q.limit <= 100)
    ensures res.Err? ==> res.error == InvalidLimit
    ensures res.Ok? ==> res.value.transfers == Page(rs, q) && res.value.count == |res.value.transfers| <= 100
    ensures res.Ok? ==> forall s :: s in res.value.summary.byStatus ==>
              res.value.summary.byStatus[s] == StatusCount(rs, s) > 0
    ensures res.Ok? ==> Tally(res.value.summary.byStatus) == |rs|
    ensures res.Ok? ==> res.value.summary.withDiscrepancies == Count(rs, HasDiscrepancy)
  {
    if !(0 <= q.limit <= 100) {
      return Err(InvalidLimit);
    }
    var page := Page(rs, q);
    var counts := CountStatuses(rs);
    StatusCountsTotal(rs);
    forall s | s in counts ensures StatusCount(rs, s) > 0 {
      var i :| 0 <= i < |rs| && rs[i].status == s;
      CountPositive(rs, s, i);
    }
    forall s | s !in counts ensures StatusCount(rs, s) == 0 {
      CountZero(rs, s);
    }
    var flagged := Count(rs, HasDiscrepancy);
    res := Ok(Listing(page, |page|, Summary(counts, flagged)));
  }

  lemma {:induction false} CountPositive(rs: seq<TransferRecord>, s: Status, i: nat)
    requires i < |rs| && rs[i].status == s
    ensures StatusCount(rs, s) > 0
  {
    if i > 0 {
      CountPositive(rs[1..], s, i - 1);
    }
  }

  lemma {:induction false} CountZero(rs: seq<TransferRecord>, s: Status)
    requires forall i :: 0 <= i < |rs| ==> rs[i].status != s
    ensures StatusCount(rs, s) == 0
  {
    if rs != [] {
      CountZero(rs[1..], s);
    }
  }

  // ---------------------------------------------------------------------------
  // The pending list: GET /transfers/pending/list

  /** A transfer still waiting for pickup or delivery. */
  predicate IsPending(r: TransferRecord)
  {
    r.status == Created || r.status == PickedUp
  }

  /** The fields of the row's dictionary that the pending scanner reads. */
  function PendingViewOf(r: TransferRecord): PendingView
  {
    PendingView(r.id, StatusName(r.status), r.createdAt, r.pickupAt, r.fromDistrictId, r.toDistrictId)
  }

  function PendingViews(rs: seq<TransferRecord>): (vs: seq<PendingView>)
    ensures |vs| == |rs|
    ensures forall i :: 0 <= i < |rs| ==> vs[i] == PendingViewOf(rs[i])
  {
    seq(|rs|, i requires 0 <= i < |rs| => PendingViewOf(rs[i]))
  }

  datatype PendingList = PendingList(
    transfers: seq<TransferRecord>,
    count: nat,
    alerts: seq<PendingAlert>,
    alertCount: nat)

  /** `get_pending_transfers`: exactly the rows in `created` or `picked_up`,
      oldest first, and the alerts the pending scanner raises for them. */
  method PendingTransfers(rs: seq<TransferRecord>, now: int) returns (p: PendingList)
    ensures forall r :: r in p.transfers <==> r in rs && IsPending(r)
    ensures multiset(p.transfers) == multiset(Filter(rs, IsPending))
    ensures SortedBy(p.transfers, OldestFirst)
    ensures p.count == |p.transfers| == Count(rs, IsPending)
    ensures p.alerts == PendingAlerts(PendingViews(p.transfers), now)
    ensures p.alertCount == |p.alerts| <= p.count
  {
    var pending := SortBy(Filter(rs, IsPending), OldestFirst);
    FilterMembers(rs, IsPending);
    CountIsFilterLength(rs, IsPending);
    forall r ensures r in pending <==> r in Filter(rs, IsPending) {
      assert r in pending <==> r in multiset(pending);
    }
    var alerts := DetectPendingAnomalies(PendingViews(pending), now);
    p := PendingList(pending, |pending|, alerts, |alerts|);
  }

  /** The scanner flags a transfer awaiting pickup exactly when it was
      created more than 24 hours ago, and a transfer in transit exactly when it
      was picked up more than 48 hours ago; it never flags a transfer that is
      no longer pending. A row in transit has its pickup time, as every row
      that keeps the lifecycle invariant does. */
  lemma PendingAlertOfRow(r: TransferRecord, now: int)
    requires r.status == PickedUp ==> r.pickupAt.Some?
    ensures var alert := PendingAlertFor(PendingViewOf(r), now);
      ((alert.Some? && alert.value.kind == StalledTransfer)
         <==> r.status == Created && now - r.createdAt > Hours(PickupDeadlineHours))
      && ((alert.Some? && alert.value.kind == OverdueDelivery)
         <==> r.status == PickedUp && now - r.pickupAt.value > Hours(MaxTransitHours))
      && (!IsPending(r) ==> alert.None?)
  {
    if StatusName(r.status) == "created" {
      StatusNameInjective(r.status, Created);
    }
    if StatusName(r.status) == "picked_up" {
      StatusNameInjective(r.status, PickedUp);
    }
  }

  // ---------------------------------------------------------------------------
  // The anomalies list: GET /transfers/anomalies/list

  /** One entry of the list: the row, its items and the findings of a fresh
      verification. */
  datatype AnomalyEntry = AnomalyEntry(transfer: TransferRecord, items: seq<ItemRecord>, anomalies: seq<Anomaly>)

  function EntryOf(rows: seq<ItemRecord>, r: TransferRecord): AnomalyEntry
  {
    var items := ItemRowsOf(rows, r.id);
    AnomalyEntry(r, items, Anomalies(ViewOf(r), ScansOf(items)))
  }

  /** The flagged rows, newest first. */
  function Flagged(rs: seq<TransferRecord>): (r: seq<TransferRecord>)
    ensures forall x :: x in r <==> x in rs && x.hasDiscrepancy
  {
    var f := Filter(rs, HasDiscrepancy);
    FilterMembers(rs, HasDiscrepancy);
    var r := SortBy(f, NewestFirst);
    assert forall x :: x in r <==> x in multiset(r);
    r
  }

  /** The entries of a list of rows, in order. */
  function Entries(rows: seq<ItemRecord>, fs: seq<TransferRecord>): (es: seq<AnomalyEntry>)
    ensures |es| == |fs|
    ensures forall i :: 0 <= i < |fs| ==> es[i] == EntryOf(rows, fs[i])
  {
    if fs == [] then [] else Entries(rows, fs[..|fs| - 1]) + [EntryOf(rows, fs[|fs| - 1])]
  }

  /** `get_anomalous_transfers`: for every flagged row, newest first, verify
      it again with its items and report the findings. */
  method AnomalousTransfers(h: Digest, rs: seq<TransferRecord>, rows: seq<ItemRecord>)
    returns (entries: seq<AnomalyEntry>)
    ensures |entries| == |Flagged(rs)|
    ensures forall i :: 0 <= i < |entries| ==> entries[i] == EntryOf(rows, Flagged(rs)[i])
  {
    entries := VerifyAll(h, rows, Flagged(rs));
  }

  /** The loop of the endpoint over the flagged rows. */
  method VerifyAll(h: Digest, rows: seq<ItemRecord>, fs: seq<TransferRecord>) returns (entries: seq<AnomalyEntry>)
    ensures entries == Entries(rows, fs)
  {
    entries := [];
    for i := 0 to |fs|
      invariant entries == Entries(rows, fs[..i])
    {
      var entry := VerifyEntry(h, rows, fs[i]);
      EntriesSnoc(rows, fs, i);
      entries := entries + [entry];
    }
    assert fs[..|fs|] == fs;
  }

  lemma EntriesSnoc(rows: seq<ItemRecord>, fs: seq<TransferRecord>, i: nat)
    requires i < |fs|
    ensures Entries(rows, fs[..i + 1]) == Entries(rows, fs[..i]) + [EntryOf(rows, fs[i])]
  {
    assert fs[..i + 1][..i] == fs[..i];
  }

  /** The body of the loop: the row's items and a fresh verification. */
  method VerifyEntry(h: Digest, rows: seq<ItemRecord>, t: TransferRecord) returns (entry: AnomalyEntry)
    ensures entry == EntryOf(rows, t)
  {
    var items := ItemRowsOf(rows, t.id);
    var verification := VerifyTransfer(h, ViewOf(t), ScansOf(items));
    entry := AnomalyEntry(t, items, verification.anomalies);
  }

  /** On a table that keeps the lifecycle invariant the anomalies list holds
      exactly the disputed transfers. */
  lemma FlaggedAreDisputed(h: Digest, rs: seq<TransferRecord>)
    requires AllConsistent(h, rs)
    ensures forall x :: x in Flagged(rs) <==> x in rs && x.status == Disputed
  {
    forall x | x in rs ensures x.hasDiscrepancy <==> x.status == Disputed {
      var i :| 0 <= i < |rs| && rs[i] == x;
      assert ConsistentAt(h, rs, i);
    }
  }

  /** Verifying a disputed transfer again, whatever its items' scans, reports
      the quantity mismatch that disputed it, as a critical finding with sent
      minus received missing (`VerificationOf` returns these anomalies). */
  lemma DisputedFindings(h: Digest, r: TransferRecord, scans: seq<ItemScan>)
    requires Consistent(h, r) && r.status == Disputed
    ensures r.receivedQuantity.Some?
    ensures var m := QuantityMismatch(r.quantity, r.receivedQuantity.value);
              m in Anomalies(ViewOf(r), scans) && IsCritical(m)
              && m.MissingUnits() == Some(r.quantity - r.receivedQuantity.value)
  {
    MismatchFinding(ViewOf(r), scans);
  }

  /** A view whose received quantity differs from the sent one yields a
      critical quantity-mismatch finding with sent minus received missing. */
  lemma MismatchFinding(v: TransferView, scans: seq<ItemScan>)
    requires v.receivedQuantity.Some? && v.receivedQuantity.value != v.quantity
    ensures var m := QuantityMismatch(v.quantity, v.receivedQuantity.value);
              m in Anomalies(v, scans) && IsCritical(m)
              && m.MissingUnits() == Some(v.quantity - v.receivedQuantity.value)
  {
    AnomaliesMembers(v, scans);
    var c := CriticalChecks(v);
    assert c[|c| - 1] == QuantityMismatch(v.quantity, v.receivedQuantity.value);
  }
}
