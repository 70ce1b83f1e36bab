/** The transfer router (backend/app/routers/transfers.py): the custody state
    machine created → picked_up → (delivered) → verified | disputed over a store
    of transfer rows and their batch items, and the read-side listings. */
module Transfers {
  import opened Wrappers
  import opened Text
  import opened Lists
  import opened Time
  import opened Verification

  // ---------------------------------------------------------------------------
  // Rows

  datatype Status = Created | PickedUp | Delivered | Verified | Disputed

  /** The status text stored in the row. */
  function StatusName(s: Status): (name: string)
    ensures |name| > 0
  {
    match s
    case Created => "created"
    case PickedUp => "picked_up"
    case Delivered => "delivered"
    case Verified => "verified"
    case Disputed => "disputed"
  }

  lemma StatusNameInjective(a: Status, b: Status)
    requires StatusName(a) == StatusName(b)
    ensures a == b
  {
    assert StatusName(a)[0] == StatusName(b)[0];
    if a == Created || a == PickedUp {
      assert StatusName(a)[1] == StatusName(b)[1];
    }
  }

  /** The columns of a transfer row that the router reads or writes (the GPS
      columns are left out). */
  datatype TransferRecord = TransferRecord(
    id: string,
    medicineId: string,
    quantity: int,
    fromDistrictId: string,
    toDistrictId: string,
    priority: string,
    createdBy: string,
    createdAt: int,
    senderSignature: string,
    senderNotes: Option<string>,
    status: Status,
    pickupAt: Option<int>,
    transporterId: Option<string>,
    transporterSignature: Option<string>,
    expectedDeliveryAt: Option<int>,
    deliveredAt: Option<int>,
    receiverId: Option<string>,
    receiverSignature: Option<string>,
    receivedQuantity: Option<int>,
    receiverNotes: Option<string>,
    verificationHash: Option<string>,
    isVerified: bool,
    verifiedAt: Option<int>,
    hasDiscrepancy: bool,
    discrepancyType: Option<string>,
    discrepancyNotes: Option<string>)

  /** The columns of a batch item row. */
  datatype ItemRecord = ItemRecord(
    transferId: string,
    batchQrCode: string,
    batchId: string,
    quantity: int,
    scannedAtSender: bool,
    senderScanTime: Option<int>,
    scannedAtReceiver: bool,
    receiverScanTime: Option<int>,
    conditionOnReceipt: Option<string>)

  /** A digest as `create_signature` returns it. */
  predicate IsSignature(s: string)
  {
    |s| == 64 && IsLowerHex(s)
  }

  predicate NoPickup(r: TransferRecord)
  {
    r.pickupAt.None? && r.transporterId.None? && r.transporterSignature.None? && r.expectedDeliveryAt.None?
  }

  /** Pickup recorded, with the delivery expected 48 hours after it. */
  predicate PickupRecorded(r: TransferRecord)
  {
    r.pickupAt.Some? && r.transporterId.Some?
    && r.transporterSignature.Some? && IsSignature(r.transporterSignature.value)
    && r.expectedDeliveryAt == Some(r.pickupAt.value + Hours(MaxTransitHours))
  }

  predicate NoDelivery(r: TransferRecord)
  {
    r.deliveredAt.None? && r.receiverId.None? && r.receiverSignature.None?
    && r.receivedQuantity.None? && r.receiverNotes.None?
  }

  predicate DeliveryRecorded(r: TransferRecord)
  {
    r.deliveredAt.Some? && r.receiverId.Some?
    && r.receiverSignature.Some? && IsSignature(r.receiverSignature.value)
    && r.receivedQuantity.Some?
  }

  predicate NoVerdict(r: TransferRecord)
  {
    r.verificationHash.None? && !r.isVerified && r.verifiedAt.None?
    && !r.hasDiscrepancy && r.discrepancyType.None? && r.discrepancyNotes.None?
  }

  /** The stored hash is the verification hash of the three stored signatures. */
  predicate HashRecorded(h: Digest, r: TransferRecord)
    requires PickupRecorded(r) && DeliveryRecorded(r)
  {
    r.verificationHash
      == Some(CreateVerificationHash(h, r.senderSignature, r.transporterSignature.value, r.receiverSignature.value))
  }

  /** The lifecycle invariant of a stored row: which columns each status has
      written, and what the delivery verdict recorded. No row rests in
      `delivered`; a verified row received what was sent and has no
      discrepancy; a disputed row received a different quantity and records
      the mismatch. */
  predicate Consistent(h: Digest, r: TransferRecord)
  {
    IsSignature(r.senderSignature)
    && match r.status
       case Created => NoPickup(r) && NoDelivery(r) && NoVerdict(r)
       case PickedUp => PickupRecorded(r) && NoDelivery(r) && NoVerdict(r)
       case Delivered => false
       case Verified =>
         PickupRecorded(r) && DeliveryRecorded(r) && HashRecorded(h, r)
         && r.receivedQuantity == Some(r.quantity)
         && r.isVerified && r.verifiedAt.Some?
         && !r.hasDiscrepancy && r.discrepancyType.None? && r.discrepancyNotes.None?
       case Disputed =>
         PickupRecorded(r) && DeliveryRecorded(r) && HashRecorded(h, r)
         && r.receivedQuantity.value != r.quantity
         && !r.isVerified && r.verifiedAt.None?
         && r.hasDiscrepancy && r.discrepancyType == Some("quantity_mismatch")
         && r.discrepancyNotes == Some(QuantityMismatch(r.quantity, r.receivedQuantity.value).Message())
  }

  /** The transfer dictionary as `verify_transfer` reads it. The ISO texts of
      the timestamps parse back to the same whole-second values. */
  function ViewOf(r: TransferRecord): (v: TransferView)
    ensures Signed(v.senderSignature) <==> r.senderSignature != ""
    ensures v.quantity == r.quantity && v.receivedQuantity == r.receivedQuantity
  {
    TransferView(Some(r.senderSignature), r.transporterSignature, r.receiverSignature,
                 r.quantity, r.receivedQuantity, Some(r.createdAt), r.pickupAt, r.deliveredAt)
  }

  /** The scan flags of the item dictionaries handed to `verify_transfer`. */
  function ScansOf(items: seq<ItemRecord>): (s: seq<ItemScan>)
    ensures |s| == |items|
    ensures forall i :: 0 <= i < |items| ==>
              s[i] == ItemScan(items[i].scannedAtSender, items[i].scannedAtReceiver)
  {
    seq(|items|, i requires 0 <= i < |items| => ItemScan(items[i].scannedAtSender, items[i].scannedAtReceiver))
  }

  /** The `{"qr", "qty"}` entries signed for a list of items. */
  function SignedItemsOf(items: seq<ItemRecord>): (s: seq<SignedItem>)
    ensures |s| == |items|
    ensures forall i :: 0 <= i < |items| ==> s[i] == SignedItem(items[i].batchQrCode, items[i].quantity)
  {
    seq(|items|, i requires 0 <= i < |items| => SignedItem(items[i].batchQrCode, items[i].quantity))
  }

  // ---------------------------------------------------------------------------
  // Errors

  /** The 404 for an unknown transfer id. */
  function TransferNotFound(id: string): ApiError
  {
    ApiError(404, "Transfer " + id + " not found")
  }

  /** The 400 refusal of an event in the wrong status. */
  function WrongStatus(s: Status, event: string): ApiError
  {
    ApiError(400, "Transfer is in '" + StatusName(s) + "' status, cannot " + event)
  }

  // ---------------------------------------------------------------------------
  // Creation

  /** One entry of the request's `items` (its `expiry_date` is never read). */
  datatype ItemRequest = ItemRequest(batchId: string, quantity: int)

  datatype TransferCreate = TransferCreate(
    medicineId: string,
    quantity: int,
    fromDistrictId: string,
    toDistrictId: string,
    priority: string,
    createdBy: string,
    senderNotes: Option<string>,
    items: seq<ItemRequest>)

  /** The checks `create_transfer` makes before creating anything, in order:
      source district, destination district, distinct districts, medicine. */
  function CreateError(districts: set<string>, medicines: set<string>, data: TransferCreate): (e: Option<ApiError>)
    ensures e.None? <==> data.fromDistrictId in districts && data.toDistrictId in districts
                         && data.fromDistrictId != data.toDistrictId && data.medicineId in medicines
    ensures data.fromDistrictId in districts && data.toDistrictId in districts
            && data.fromDistrictId == data.toDistrictId
            ==> e == Some(ApiError(400, "Source and destination districts must be different"))
    ensures e.Some? && !(data.fromDistrictId in districts && data.toDistrictId in districts
                         && data.fromDistrictId == data.toDistrictId)
            ==> e.value.code == 404
  {
    if data.fromDistrictId !in districts then
      Some(ApiError(404, "Source district " + data.fromDistrictId + " not found"))
    else if data.toDistrictId !in districts then
      Some(ApiError(404, "Destination district " + data.toDistrictId + " not found"))
    else if data.fromDistrictId == data.toDistrictId then
      Some(ApiError(400, "Source and destination districts must be different"))
    else if data.medicineId !in medicines then
      Some(ApiError(404, "Medicine " + data.medicineId + " not found"))
    else None
  }

  /** The batch id of the default item: "BATCH-" and the creation time. */
  function DefaultBatchId(now: int): string
  {
    "BATCH-" + CompactDateTime(now)
  }

  /** The batches a new transfer is created with: the requested items, or one
      default batch of the whole quantity when none were requested. */
  function BatchRequests(data: TransferCreate, now: int): (b: seq<ItemRequest>)
    ensures |b| >= 1
    ensures data.items != [] ==> b == data.items
    ensures data.items == [] ==> b == [ItemRequest(DefaultBatchId(now), data.quantity)]
  {
    if data.items == [] then [ItemRequest(DefaultBatchId(now), data.quantity)] else data.items
  }

  /** The row of a new batch item: scanned by the sender at creation. */
  function NewItem(h: Digest, data: TransferCreate, id: string, b: ItemRequest, now: int): (r: ItemRecord)
    ensures r.transferId == id && r.batchId == b.batchId && r.quantity == b.quantity
    ensures r.scannedAtSender && r.senderScanTime == Some(now)
    ensures !r.scannedAtReceiver && r.receiverScanTime.None? && r.conditionOnReceipt.None?
    ensures |r.batchQrCode| == 19 && r.batchQrCode[..3] == "QR-"
  {
    ItemRecord(id, GenerateBatchQr(h, data.medicineId, b.batchId, b.quantity, now), b.batchId, b.quantity,
               true, Some(now), false, None, None)
  }

  /** The item rows `create_transfer` writes, one per batch, in order. */
  function NewItems(h: Digest, data: TransferCreate, id: string, now: int): (r: seq<ItemRecord>)
    ensures |r| == |BatchRequests(data, now)|
    ensures forall k :: 0 <= k < |r| ==> r[k] == NewItem(h, data, id, BatchRequests(data, now)[k], now)
  {
    var b := BatchRequests(data, now);
    seq(|b|, k requires 0 <= k < |b| => NewItem(h, data, id, b[k], now))
  }

  /** The row `create_transfer` writes: status `created`, signed by the sender
      over the new items at creation time. */
  function NewRecord(h: Digest, data: TransferCreate, id: string, now: int): (r: TransferRecord)
    ensures r.id == id && r.status == Created && r.quantity == data.quantity
    ensures r.senderSignature
         == CreateSignature(h, data.createdBy, id, SignedItemsOf(NewItems(h, data, id, now)), now, None)
  {
    TransferRecord(id, data.medicineId, data.quantity, data.fromDistrictId, data.toDistrictId, data.priority,
                   data.createdBy, now,
                   CreateSignature(h, data.createdBy, id, SignedItemsOf(NewItems(h, data, id, now)), now, None),
                   data.senderNotes, Created,
                   None, None, None, None,
                   None, None, None, None, None,
                   None, false, None, false, None, None)
  }

  /** A new row satisfies the lifecycle invariant, whatever the request. */
  lemma NewRecordConsistent(h: Digest, data: TransferCreate, id: string, now: int)
    ensures Consistent(h, NewRecord(h, data, id, now))
  {
  }

  /** A transfer always has at least one item; with no requested items it has
      exactly one, of the transfer's whole quantity; every item starts scanned
      by the sender and not by the receiver. */
  lemma NewItemsShape(h: Digest, data: TransferCreate, id: string, now: int)
    ensures var items := NewItems(h, data, id, now);
      |items| == (if data.items == [] then 1 else |data.items|)
      && (data.items == [] ==> items[0].quantity == data.quantity && items[0].batchId == DefaultBatchId(now))
      && (forall k :: 0 <= k < |items| ==> items[k].scannedAtSender && !items[k].scannedAtReceiver)
  {
  }

  // ---------------------------------------------------------------------------
  // Pickup

  /** The row after `record_pickup`: status `picked_up`, the pickup time,
      transporter and signature, and the delivery expected 48 hours later. */
  function PickedUpRecord(r: TransferRecord, transporterId: string, sig: string, now: int): (p: TransferRecord)
    ensures p.status == PickedUp && p.pickupAt == Some(now)
    ensures p.expectedDeliveryAt == Some(now + Hours(MaxTransitHours))
    ensures p.transporterId == Some(transporterId) && p.transporterSignature == Some(sig)
    ensures p.id == r.id && p.quantity == r.quantity && p.senderSignature == r.senderSignature
    ensures p == r.(status := p.status, pickupAt := p.pickupAt, transporterId := p.transporterId,
                    transporterSignature := p.transporterSignature, expectedDeliveryAt := p.expectedDeliveryAt)
  {
    r.(status := PickedUp, pickupAt := Some(now), transporterId := Some(transporterId),
       transporterSignature := Some(sig), expectedDeliveryAt := Some(now + Hours(MaxTransitHours)))
  }

  /** Pickup of a row in `created` keeps the lifecycle invariant. */
  lemma PickupConsistent(h: Digest, r: TransferRecord, transporterId: string, sig: string, now: int)
    requires Consistent(h, r) && r.status == Created && IsSignature(sig)
    ensures Consistent(h, PickedUpRecord(r, transporterId, sig, now))
  {
  }

  // ---------------------------------------------------------------------------
  // Delivery

  /** The "condition" key of an `item_conditions` entry: absent, JSON null,
      or a string. */
  datatype ConditionValue = Absent | Null | Given(text: string)

  /** One entry of the request's `item_conditions`: its "qr_code" (`None`
      where absent or null, neither of which matches a QR code) and its
      "condition". */
  datatype ItemCondition = ItemCondition(qrCode: Option<string>, condition: ConditionValue)

  /** What `cond.get("condition", "good")` stores: "good" when the key is
      absent, nothing when it is null, and the string otherwise. */
  function StoredCondition(c: ConditionValue): Option<string>
  {
    match c
    case Absent => Some("good")
    case Null => None
    case Given(text) => Some(text)
  }

  /** The condition an item ends with after the scan over `conds`: the last
      entry naming its QR code wins (as `StoredCondition` reads it); with no
      such entry the condition stays as it was. */
  function ConditionAfter(conds: seq<ItemCondition>, qr: string, current: Option<string>): Option<string>
  {
    if conds == [] then current
    else
      var last := conds[|conds| - 1];
      if last.qrCode == Some(qr) then StoredCondition(last.condition)
      else ConditionAfter(conds[..|conds| - 1], qr, current)
  }

  /** With no entry naming its QR code, an item keeps its condition. */
  lemma {:induction false} ConditionUnmatched(conds: seq<ItemCondition>, qr: string, current: Option<string>)
    requires forall i :: 0 <= i < |conds| ==> conds[i].qrCode != Some(qr)
    ensures ConditionAfter(conds, qr, current) == current
  {
    if conds != [] {
      ConditionUnmatched(conds[..|conds| - 1], qr, current);
    }
  }

  /** The last entry naming an item's QR code decides its condition: "good"
      when that entry has no condition key, none when it is null. */
  lemma {:induction false} ConditionLastMatch(conds: seq<ItemCondition>, qr: string, current: Option<string>, i: nat)
    requires i < |conds| && conds[i].qrCode == Some(qr)
    requires forall j :: i < j < |conds| ==> conds[j].qrCode != Some(qr)
    ensures ConditionAfter(conds, qr, current) == StoredCondition(conds[i].condition)
  {
    if i < |conds| - 1 {
      var init := conds[..|conds| - 1];
      assert init[i] == conds[i];
      ConditionLastMatch(init, qr, current, i);
    }
  }

  /** The request body of `record_delivery` (GPS fields left out). */
  datatype DeliveryRequest = DeliveryRequest(
    receiverId: string,
    receivedQuantity: int,
    receiverNotes: Option<string>,
    itemConditions: seq<ItemCondition>)

  /** An item after `record_delivery`: scanned by the receiver now, and its
      condition taken from the request's entries for its QR code. */
  function ReceivedItem(r: ItemRecord, conds: seq<ItemCondition>, now: int): ItemRecord
  {
    r.(scannedAtReceiver := true, receiverScanTime := Some(now),
       conditionOnReceipt := ConditionAfter(conds, r.batchQrCode, r.conditionOnReceipt))
  }

  /** The row once the delivery fields are written and status is `delivered`. */
  function DeliveredRecord(r: TransferRecord, req: DeliveryRequest, sig: string, now: int): TransferRecord
  {
    r.(status := Delivered, deliveredAt := Some(now), receiverId := Some(req.receiverId),
       receiverSignature := Some(sig), receivedQuantity := Some(req.receivedQuantity),
       receiverNotes := req.receiverNotes)
  }

  /** The "; "-joined messages of a list of findings, in order. */
  function Notes(anomalies: seq<Anomaly>): string
  {
    Join("; ", seq(|anomalies|, i requires 0 <= i < |anomalies| => anomalies[i].Message()))
  }

  /** The row after the verdict of `record_delivery` on verification result
      `result`: the hash and validity are recorded; a critical finding makes the
      transfer `disputed` with the first critical type and all critical
      messages, otherwise it is `verified`. */
  function VerdictRecord(d: TransferRecord, result: VerificationResult, now: int): TransferRecord
  {
    var e := d.(verificationHash := Some(result.verificationHash), isVerified := result.isValid,
                verifiedAt := if result.isValid then Some(now) else None);
    if result.anomalies == [] then e.(status := Verified)
    else
      var critical := Filter(result.anomalies, IsCritical);
      if critical == [] then e.(status := Verified)
      else
        e.(hasDiscrepancy := true, discrepancyType := Some(critical[0].TypeName()),
           discrepancyNotes := Some(Notes(critical)), status := Disputed)
  }

  /** Everything `record_delivery` writes to the row. */
  function DeliveryRecord(h: Digest, r: TransferRecord, req: DeliveryRequest, sig: string,
                          scans: seq<ItemScan>, now: int): TransferRecord
  {
    var d := DeliveredRecord(r, req, sig, now);
    VerdictRecord(d, VerificationOf(h, ViewOf(d), scans), now)
  }

  /** After a delivery all three parties have signed, so the only critical
      finding possible is the quantity mismatch. */
  lemma DeliveredCriticals(h: Digest, r: TransferRecord, req: DeliveryRequest, sig: string, now: int)
    requires IsSignature(r.senderSignature) && PickupRecorded(r) && IsSignature(sig)
    ensures var v := ViewOf(DeliveredRecord(r, req, sig, now));
      MissingParties(v) == []
      && CriticalChecks(v) == (if req.receivedQuantity != r.quantity
                               then [QuantityMismatch(r.quantity, req.receivedQuantity)] else [])
  {
    var v := ViewOf(DeliveredRecord(r, req, sig, now));
    assert Signed(v.senderSignature) && Signed(v.transporterSignature) && Signed(v.receiverSignature);
  }

  /** With no critical finding the verdict is `verified`. */
  lemma VerdictWithoutCritical(d: TransferRecord, result: VerificationResult, now: int)
    requires Filter(result.anomalies, IsCritical) == []
    ensures VerdictRecord(d, result, now)
         == d.(verificationHash := Some(result.verificationHash), isVerified := result.isValid,
               verifiedAt := if result.isValid then Some(now) else None, status := Verified)
  {
  }

  /** With a single critical finding the verdict is `disputed`, with that
      finding's type and message. */
  lemma VerdictWithCritical(d: TransferRecord, result: VerificationResult, now: int, a: Anomaly)
    requires Filter(result.anomalies, IsCritical) == [a]
    ensures VerdictRecord(d, result, now)
         == d.(verificationHash := Some(result.verificationHash), isVerified := result.isValid,
               verifiedAt := if result.isValid then Some(now) else None,
               hasDiscrepancy := true, discrepancyType := Some(a.TypeName()),
               discrepancyNotes := Some(a.Message()), status := Disputed)
  {
    assert |Filter(result.anomalies, IsCritical)| <= |result.anomalies|;
    assert Notes([a]) == a.Message();
  }

  /** The row a delivery leaves, written out: `verified` with the validity
      time when the received quantity equals the quantity sent, otherwise
      `disputed` with the quantity mismatch as type and message; the hash of
      the three signatures either way. */
  function DeliveredRow(h: Digest, r: TransferRecord, req: DeliveryRequest, sig: string, now: int): TransferRecord
    requires PickupRecorded(r)
  {
    var d := DeliveredRecord(r, req, sig, now);
    var hash := Some(CreateVerificationHash(h, r.senderSignature, r.transporterSignature.value, sig));
    if req.receivedQuantity == r.quantity
    then d.(verificationHash := hash, isVerified := true, verifiedAt := Some(now), status := Verified)
    else d.(verificationHash := hash, isVerified := false, verifiedAt := None, hasDiscrepancy := true,
            discrepancyType := Some("quantity_mismatch"),
            discrepancyNotes := Some(QuantityMismatch(r.quantity, req.receivedQuantity).Message()),
            status := Disputed)
  }

  /** The verification `record_delivery` runs on a picked-up row: the hash of
      the three signatures, valid exactly when the quantities agree, and the
      quantity mismatch as the only possible critical finding. */
  lemma DeliveredVerification(h: Digest, r: TransferRecord, req: DeliveryRequest, sig: string,
                              scans: seq<ItemScan>, now: int)
    requires IsSignature(r.senderSignature) && PickupRecorded(r) && IsSignature(sig)
    ensures var result := VerificationOf(h, ViewOf(DeliveredRecord(r, req, sig, now)), scans);
      result.verificationHash == CreateVerificationHash(h, r.senderSignature, r.transporterSignature.value, sig)
      && (result.isValid <==> req.receivedQuantity == r.quantity)
      && Filter(result.anomalies, IsCritical)
         == (if req.receivedQuantity != r.quantity then [QuantityMismatch(r.quantity, req.receivedQuantity)] else [])
  {
    var v := ViewOf(DeliveredRecord(r, req, sig, now));
    DeliveredCriticals(h, r, req, sig, now);
    CriticalAnomalies(v, scans);
    NoCriticalAnomaly(v, scans);
  }

  /** Running the verification inside `record_delivery` on a picked-up row
      yields exactly the written-out row above. */
  lemma DeliveryVerdict(h: Digest, r: TransferRecord, req: DeliveryRequest, sig: string,
                        scans: seq<ItemScan>, now: int)
    requires IsSignature(r.senderSignature) && PickupRecorded(r) && IsSignature(sig)
    ensures DeliveryRecord(h, r, req, sig, scans, now) == DeliveredRow(h, r, req, sig, now)
  {
    var d := DeliveredRecord(r, req, sig, now);
    var result := VerificationOf(h, ViewOf(d), scans);
    DeliveredVerification(h, r, req, sig, scans, now);
    assert DeliveryRecord(h, r, req, sig, scans, now) == VerdictRecord(d, result, now);
    if req.receivedQuantity != r.quantity {
      VerdictWithCritical(d, result, now, QuantityMismatch(r.quantity, req.receivedQuantity));
    } else {
      VerdictWithoutCritical(d, result, now);
    }
  }

  /** The written-out delivery row keeps the lifecycle invariant. */
  lemma DeliveredConsistent(h: Digest, r: TransferRecord, req: DeliveryRequest, sig: string, now: int)
    requires IsSignature(r.senderSignature) && PickupRecorded(r) && NoVerdict(r) && IsSignature(sig)
    ensures Consistent(h, DeliveredRow(h, r, req, sig, now))
  {
    var d := DeliveredRecord(r, req, sig, now);
    var e := d.(verificationHash := Some(CreateVerificationHash(h, r.senderSignature, r.transporterSignature.value, sig)));
    assert PickupRecorded(e) && DeliveryRecorded(e) && HashRecorded(h, e);
    if req.receivedQuantity == r.quantity {
      VerifiedConsistent(h, e, now);
    } else {
      DisputedConsistent(h, e, QuantityMismatch(r.quantity, req.receivedQuantity).Message());
    }
  }

  lemma VerifiedConsistent(h: Digest, e: TransferRecord, now: int)
    requires IsSignature(e.senderSignature) && PickupRecorded(e) && DeliveryRecorded(e) && HashRecorded(h, e)
    requires e.receivedQuantity == Some(e.quantity) && !e.hasDiscrepancy
    requires e.discrepancyType.None? && e.discrepancyNotes.None?
    ensures Consistent(h, e.(isVerified := true, verifiedAt := Some(now), status := Verified))
  {
  }

  lemma DisputedConsistent(h: Digest, e: TransferRecord, notes: string)
    requires IsSignature(e.senderSignature) && PickupRecorded(e) && DeliveryRecorded(e) && HashRecorded(h, e)
    requires e.receivedQuantity.Some? && e.receivedQuantity != Some(e.quantity)
    requires notes == QuantityMismatch(e.quantity, e.receivedQuantity.value).Message()
    ensures Consistent(h, e.(isVerified := false, verifiedAt := None, hasDiscrepancy := true,
                             discrepancyType := Some("quantity_mismatch"), discrepancyNotes := Some(notes),
                             status := Disputed))
  {
    var f := e.(isVerified := false, verifiedAt := None, hasDiscrepancy := true,
                discrepancyType := Some("quantity_mismatch"), discrepancyNotes := Some(notes),
                status := Disputed);
    assert f.quantity == e.quantity && f.receivedQuantity == e.receivedQuantity;
  }

  /** The outcome of a delivery: the transfer leaves `delivered` for `verified`
      exactly when the received quantity equals the quantity sent, and for
      `disputed` otherwise; the row keeps the lifecycle invariant, so it is
      never both verified and flagged. */
  lemma DeliveryOutcome(h: Digest, r: TransferRecord, req: DeliveryRequest, sig: string,
                        scans: seq<ItemScan>, now: int)
    requires IsSignature(r.senderSignature) && PickupRecorded(r) && NoVerdict(r) && IsSignature(sig)
    ensures var f := DeliveryRecord(h, r, req, sig, scans, now);
      Consistent(h, f)
      && (f.status == Verified <==> req.receivedQuantity == r.quantity)
      && (f.status == Disputed <==> req.receivedQuantity != r.quantity)
      && f.isVerified == (f.status == Verified)
      && f.hasDiscrepancy == (f.status == Disputed)
  {
    DeliveryVerdict(h, r, req, sig, scans, now);
    DeliveredConsistent(h, r, req, sig, now);
  }

  // ---------------------------------------------------------------------------
  // Re-verification of a stored row

  /** Re-running `verify_transfer` on a stored row agrees with what the row
      records: it is valid exactly for a verified transfer, and on a delivered
      transfer it reproduces the stored hash. A transfer still in transit is
      invalid because a signature is missing. */
  lemma StoredVerdict(h: Digest, r: TransferRecord, scans: seq<ItemScan>)
    requires Consistent(h, r)
    ensures var result := VerificationOf(h, ViewOf(r), scans);
      (result.isValid <==> r.status == Verified)
      && (r.status == Verified || r.status == Disputed ==> Some(result.verificationHash) == r.verificationHash)
      && (r.status == Created || r.status == PickedUp ==> !result.chainComplete)
      && !(r.isVerified && r.hasDiscrepancy)
  {
  }

  // ---------------------------------------------------------------------------
  // The endpoints on the table contents

  /** No id occurs twice in the transfer table. */
  predicate UniqueIds(rs: seq<TransferRecord>)
  {
    forall i, j :: 0 <= i < j < |rs| ==> rs[i].id != rs[j].id
  }

  /** Every row keeps the lifecycle invariant. */
  predicate AllConsistent(h: Digest, rs: seq<TransferRecord>)
  {
    forall i :: 0 <= i < |rs| ==> ConsistentAt(h, rs, i)
  }

  /** The row at index `i` keeps the lifecycle invariant. */
  predicate ConsistentAt(h: Digest, rs: seq<TransferRecord>, i: int)
    requires 0 <= i < |rs|
  {
    Consistent(h, rs[i])
  }

  /** The invariant of the transfer table: every id occurs once and every row
      keeps the lifecycle invariant. */
  predicate ValidRecords(h: Digest, rs: seq<TransferRecord>)
  {
    UniqueIds(rs) && AllConsistent(h, rs)
  }

  /** `session.get(Transfer, id)`: the position of the row with that id. */
  function Find(rs: seq<TransferRecord>, id: string): (k: Option<nat>)
    ensures k.Some? ==> k.value < |rs| && rs[k.value].id == id
    ensures k.None? ==> forall i :: 0 <= i < |rs| ==> rs[i].id != id
  {
    if rs == [] then None
    else if rs[|rs| - 1].id == id then Some(|rs| - 1)
    else Find(rs[..|rs| - 1], id)
  }

  /** `select(TransferItem).where(TransferItem.transfer_id == id)`, in table order. */
  function ItemRowsOf(rows: seq<ItemRecord>, id: string): (r: seq<ItemRecord>)
    ensures forall i :: 0 <= i < |r| ==> r[i].transferId == id
    ensures forall x :: x in r <==> x in rows && x.transferId == id
  {
    FilterMembers(rows, (i: ItemRecord) => i.transferId == id);
    Filter(rows, (i: ItemRecord) => i.transferId == id)
  }

  /** Replacing a row by a consistent row with the same id keeps the table valid. */
  lemma ReplaceKeepsValid(h: Digest, rs: seq<TransferRecord>, k: nat, r: TransferRecord)
    requires ValidRecords(h, rs) && k < |rs|
    requires r.id == rs[k].id && Consistent(h, r)
    ensures ValidRecords(h, rs[k := r])
  {
    ReplaceKeepsIds(rs, k, r);
    ReplaceKeepsConsistent(h, rs, k, r);
  }

  lemma ReplaceKeepsIds(rs: seq<TransferRecord>, k: nat, r: TransferRecord)
    requires UniqueIds(rs) && k < |rs| && r.id == rs[k].id
    ensures UniqueIds(rs[k := r])
  {
    var rs' := rs[k := r];
    assert forall i :: 0 <= i < |rs'| ==> rs'[i].id == rs[i].id;
  }

  lemma ReplaceKeepsConsistent(h: Digest, rs: seq<TransferRecord>, k: nat, r: TransferRecord)
    requires AllConsistent(h, rs) && k < |rs| && Consistent(h, r)
    ensures AllConsistent(h, rs[k := r])
  {
    var rs' := rs[k := r];
    forall i | 0 <= i < |rs'| ensures ConsistentAt(h, rs', i) {
      if i != k {
        assert ConsistentAt(h, rs, i) && rs'[i] == rs[i];
      }
    }
  }

  /** Appending a consistent row under an id not yet present keeps the table valid. */
  lemma AppendKeepsValid(h: Digest, rs: seq<TransferRecord>, r: TransferRecord)
    requires ValidRecords(h, rs)
    requires Find(rs, r.id).None? && Consistent(h, r)
    ensures ValidRecords(h, rs + [r])
  {
    AppendKeepsIds(rs, r);
    AppendKeepsConsistent(h, rs, r);
  }

  lemma AppendKeepsIds(rs: seq<TransferRecord>, r: TransferRecord)
    requires UniqueIds(rs) && Find(rs, r.id).None?
    ensures UniqueIds(rs + [r])
  {
    var rs' := rs + [r];
    forall i, j | 0 <= i < j < |rs'| ensures rs'[i].id != rs'[j].id {
      assert rs'[i] == rs[i];
    }
  }

  lemma AppendKeepsConsistent(h: Digest, rs: seq<TransferRecord>, r: TransferRecord)
    requires AllConsistent(h, rs) && Consistent(h, r)
    ensures AllConsistent(h, rs + [r])
  {
    var rs' := rs + [r];
    forall i | 0 <= i < |rs'| ensures ConsistentAt(h, rs', i) {
      if i < |rs| {
        assert ConsistentAt(h, rs, i) && rs'[i] == rs[i];
      }
    }
  }

  /** The new items are the only rows of the new transfer's id beyond those already there. */
  lemma NewItemRows(h: Digest, data: TransferCreate, id: string, now: int, rows: seq<ItemRecord>)
    ensures ItemRowsOf(rows + NewItems(h, data, id, now), id) == ItemRowsOf(rows, id) + NewItems(h, data, id, now)
  {
    var its := NewItems(h, data, id, now);
    FilterAppend(rows, its, (i: ItemRecord) => i.transferId == id);
    FilterAll(its, (i: ItemRecord) => i.transferId == id);
  }

  /** The successful response of `create_transfer`: the new row and its items. */
  datatype NewTransfer = NewTransfer(transfer: TransferRecord, items: seq<ItemRecord>)

  /** The refusal when the generated id is already taken: the insert of a
      duplicate primary key fails and the request ends in a server error. */
  const DuplicateId := ApiError(500, "Internal Server Error")

  /** `create_transfer` on the tables: the response, and the transfer and item
      rows afterwards. */
  function Create(h: Digest, districts: set<string>, medicines: set<string>, rs: seq<TransferRecord>,
                  rows: seq<ItemRecord>, data: TransferCreate, uuidHex: string, now: int)
    : (Result<NewTransfer>, seq<TransferRecord>, seq<ItemRecord>)
  {
    match CreateError(districts, medicines, data)
    case Some(e) => (Err(e), rs, rows)
    case None =>
      var id := GenerateTransferId(uuidHex);
      if Find(rs, id).Some? then (Err(DuplicateId), rs, rows)
      else
        var r := NewRecord(h, data, id, now);
        var its := NewItems(h, data, id, now);
        (Ok(NewTransfer(r, its)), rs + [r], rows + its)
  }

  /** A successful creation appends one `created` row under a fresh id and its
      items, and keeps the table valid; a refusal changes nothing. */
  lemma CreateOutcome(h: Digest, districts: set<string>, medicines: set<string>, rs: seq<TransferRecord>,
                      rows: seq<ItemRecord>, data: TransferCreate, uuidHex: string, now: int)
    requires ValidRecords(h, rs)
    ensures var (res, rs', rows') := Create(h, districts, medicines, rs, rows, data, uuidHex, now);
      ValidRecords(h, rs')
      && (res.Ok? <==> CreateError(districts, medicines, data).None?
                       && Find(rs, GenerateTransferId(uuidHex)).None?)
      && (res.Err? ==> rs' == rs && rows' == rows)
      && (res.Ok? ==> rs' == rs + [res.value.transfer] && rows' == rows + res.value.items
                      && res.value.transfer.status == Created
                      && res.value.transfer.id == GenerateTransferId(uuidHex)
                      && |res.value.items| >= 1
                      && ItemRowsOf(rows', res.value.transfer.id) == ItemRowsOf(rows, res.value.transfer.id) + res.value.items)
  {
    if CreateError(districts, medicines, data).None? {
      var id := GenerateTransferId(uuidHex);
      if Find(rs, id).None? {
        var r := NewRecord(h, data, id, now);
        var its := NewItems(h, data, id, now);
        NewRecordConsistent(h, data, id, now);
        AppendKeepsValid(h, rs, r);
        NewItemRows(h, data, id, now, rows);
        NewItemsShape(h, data, id, now);
      }
    }
  }

  /** `record_pickup` on the tables: the response and the transfer rows
      afterwards (the items are read, not written). */
  function Pickup(h: Digest, rs: seq<TransferRecord>, rows: seq<ItemRecord>, id: string,
                  transporterId: string, now: int): (Result<TransferRecord>, seq<TransferRecord>)
  {
    match Find(rs, id)
    case None => (Err(TransferNotFound(id)), rs)
    case Some(k) =>
      if rs[k].status != Created then (Err(WrongStatus(rs[k].status, "pickup")), rs)
      else
        var sig := CreateSignature(h, transporterId, id, SignedItemsOf(ItemRowsOf(rows, id)), now, None);
        var p := PickedUpRecord(rs[k], transporterId, sig, now);
        (Ok(p), rs[k := p])
  }

  /** Pickup succeeds exactly on a `created` transfer, moves that row alone to
      `picked_up` with the transporter's signature over the transfer's items,
      and keeps the table valid. */
  lemma PickupOutcome(h: Digest, rs: seq<TransferRecord>, rows: seq<ItemRecord>, id: string,
                      transporterId: string, now: int)
    requires ValidRecords(h, rs)
    ensures var (res, rs') := Pickup(h, rs, rows, id, transporterId, now);
      ValidRecords(h, rs') && |rs'| == |rs|
      && (res.Ok? <==> Find(rs, id).Some? && rs[Find(rs, id).value].status == Created)
      && (Find(rs, id).None? ==> res == Err(TransferNotFound(id)))
      && (Find(rs, id).Some? && rs[Find(rs, id).value].status != Created
          ==> res == Err(WrongStatus(rs[Find(rs, id).value].status, "pickup")))
      && (res.Err? ==> rs' == rs)
      && (res.Ok? ==> var k := Find(rs, id).value;
            rs' == rs[k := res.value] && res.value.status == PickedUp
            && res.value.transporterSignature
               == Some(CreateSignature(h, transporterId, id, SignedItemsOf(ItemRowsOf(rows, id)), now, None)))
  {
    var k := Find(rs, id);
    if k.Some? && rs[k.value].status == Created {
      var sig := CreateSignature(h, transporterId, id, SignedItemsOf(ItemRowsOf(rows, id)), now, None);
      assert ConsistentAt(h, rs, k.value);
      PickupConsistent(h, rs[k.value], transporterId, sig, now);
      ReplaceKeepsValid(h, rs, k.value, PickedUpRecord(rs[k.value], transporterId, sig, now));
    }
  }

  /** A pickup of the `created` row at position `k` rewrites that row alone. */
  lemma PickupRowAt(h: Digest, rs: seq<TransferRecord>, rows: seq<ItemRecord>, id: string,
                    transporterId: string, now: int, k: nat)
    requires ValidRecords(h, rs) && Find(rs, id) == Some(k) && rs[k].status == Created
    ensures var sig := CreateSignature(h, transporterId, id, SignedItemsOf(ItemRowsOf(rows, id)), now, None);
      var p := PickedUpRecord(rs[k], transporterId, sig, now);
      Pickup(h, rs, rows, id, transporterId, now) == (Ok(p), rs[k := p]) && ValidRecords(h, rs[k := p])
  {
    PickupOutcome(h, rs, rows, id, transporterId, now);
  }

  /** The item rows after the delivery scan of transfer `id`. */
  function ReceiveItems(rows: seq<ItemRecord>, id: string, conds: seq<ItemCondition>, now: int): (r: seq<ItemRecord>)
    ensures |r| == |rows|
  {
    seq(|rows|, i requires 0 <= i < |rows| =>
      if rows[i].transferId == id then ReceivedItem(rows[i], conds, now) else rows[i])
  }

  /** The response of `record_delivery`: the row, its items and the verification. */
  datatype Delivery = Delivery(transfer: TransferRecord, items: seq<ItemRecord>, verification: VerificationResult)

  /** What `record_delivery` produces for the picked-up row `r`, given the
      transfer's items before and after the delivery scan: the row after the
      verdict (signed over the items), the items, and the verification run on
      the scanned items. */
  function DeliveryOf(h: Digest, r: TransferRecord, before: seq<ItemRecord>, after: seq<ItemRecord>,
                      req: DeliveryRequest, now: int): Delivery
  {
    var sig := CreateSignature(h, req.receiverId, r.id, SignedItemsOf(before), now, None);
    var scans := ScansOf(after);
    Delivery(DeliveryRecord(h, r, req, sig, scans, now), after,
             VerificationOf(h, ViewOf(DeliveredRecord(r, req, sig, now)), scans))
  }

  /** `record_delivery` on the tables: the response, and the transfer and item
      rows afterwards. */
  function Deliver(h: Digest, rs: seq<TransferRecord>, rows: seq<ItemRecord>, id: string,
                   req: DeliveryRequest, now: int): (Result<Delivery>, seq<TransferRecord>, seq<ItemRecord>)
  {
    match Find(rs, id)
    case None => (Err(TransferNotFound(id)), rs, rows)
    case Some(k) =>
      if rs[k].status != PickedUp then (Err(WrongStatus(rs[k].status, "deliver")), rs, rows)
      else
        var rows' := ReceiveItems(rows, id, req.itemConditions, now);
        var dl := DeliveryOf(h, rs[k], ItemRowsOf(rows, id), ItemRowsOf(rows', id), req, now);
        (Ok(dl), rs[k := dl.transfer], rows')
  }

  /** After the delivery scan every item of the transfer is marked received. */
  lemma ReceivedItemsScanned(rows: seq<ItemRecord>, id: string, conds: seq<ItemCondition>, now: int)
    ensures forall x :: x in ItemRowsOf(ReceiveItems(rows, id, conds, now), id) ==> x.scannedAtReceiver
  {
    var rows' := ReceiveItems(rows, id, conds, now);
    FilterMembers(rows', (i: ItemRecord) => i.transferId == id);
    forall x | x in ItemRowsOf(rows', id) ensures x.scannedAtReceiver {
      var j :| 0 <= j < |rows'| && rows'[j] == x;
    }
  }

  /** The delivery of a picked-up row ends `verified` when the received
      quantity equals the quantity sent and `disputed` otherwise, and the
      verification it reports is valid in the first case only. */
  lemma DeliveryOfOutcome(h: Digest, r: TransferRecord, before: seq<ItemRecord>, after: seq<ItemRecord>,
                          req: DeliveryRequest, now: int)
    requires IsSignature(r.senderSignature) && PickupRecorded(r) && NoVerdict(r)
    ensures var dl := DeliveryOf(h, r, before, after, req, now);
      dl.transfer.id == r.id
      && (dl.transfer.status == Verified <==> req.receivedQuantity == r.quantity)
      && (dl.transfer.status == Disputed <==> req.receivedQuantity != r.quantity)
      && dl.verification.isValid == (dl.transfer.status == Verified)
  {
    var sig := CreateSignature(h, req.receiverId, r.id, SignedItemsOf(before), now, None);
    var scans := ScansOf(after);
    DeliveryVerdict(h, r, req, sig, scans, now);
    DeliveredVerification(h, r, req, sig, scans, now);
  }

  /** Delivery is refused with 404 for an unknown id and with 400 for a
      transfer not in `picked_up`, and a refusal changes nothing. */
  lemma DeliverRefused(h: Digest, rs: seq<TransferRecord>, rows: seq<ItemRecord>, id: string,
                       req: DeliveryRequest, now: int)
    ensures var (res, rs', rows') := Deliver(h, rs, rows, id, req, now);
      (res.Ok? <==> Find(rs, id).Some? && rs[Find(rs, id).value].status == PickedUp)
      && (Find(rs, id).None? ==> res == Err(TransferNotFound(id)))
      && (Find(rs, id).Some? && rs[Find(rs, id).value].status != PickedUp
          ==> res == Err(WrongStatus(rs[Find(rs, id).value].status, "deliver")))
      && (res.Err? ==> rs' == rs && rows' == rows)
  {
  }

  /** A delivery of the `picked_up` row at position `k` rewrites that row alone
      and runs the delivery scan over the item rows. */
  lemma DeliverAt(h: Digest, rs: seq<TransferRecord>, rows: seq<ItemRecord>, id: string,
                  req: DeliveryRequest, now: int, k: nat)
    requires Find(rs, id) == Some(k) && rs[k].status == PickedUp
    ensures var rows' := ReceiveItems(rows, id, req.itemConditions, now);
      var dl := DeliveryOf(h, rs[k], ItemRowsOf(rows, id), ItemRowsOf(rows', id), req, now);
      Deliver(h, rs, rows, id, req, now) == (Ok(dl), rs[k := dl.transfer], rows')
  {
  }

  /** The delivery scan of transfer `id` leaves the items of other transfers
      alone and marks each item of `id` received now with its condition. */
  lemma ReceiveItemsEffect(rows: seq<ItemRecord>, id: string, conds: seq<ItemCondition>, now: int)
    ensures var rows' := ReceiveItems(rows, id, conds, now);
      forall i :: 0 <= i < |rows| ==>
        (rows[i].transferId != id ==> rows'[i] == rows[i])
        && (rows[i].transferId == id ==> rows'[i].transferId == id && rows'[i].scannedAtReceiver
                                         && rows'[i].receiverScanTime == Some(now))
  {
  }

  /** A `picked_up` row of a valid table is signed by the sender and the
      transporter and carries no verdict yet. */
  lemma PickedUpRow(h: Digest, rs: seq<TransferRecord>, k: nat)
    requires ValidRecords(h, rs) && k < |rs| && rs[k].status == PickedUp
    ensures IsSignature(rs[k].senderSignature) && PickupRecorded(rs[k]) && NoVerdict(rs[k])
  {
    assert ConsistentAt(h, rs, k);
  }

  /** Writing the delivered row in place of a `picked_up` row keeps the table valid. */
  lemma DeliveredRowKeepsValid(h: Digest, rs: seq<TransferRecord>, k: nat, req: DeliveryRequest, sig: string, now: int)
    requires ValidRecords(h, rs) && k < |rs| && rs[k].status == PickedUp && IsSignature(sig)
    requires PickupRecorded(rs[k])
    ensures ValidRecords(h, rs[k := DeliveredRow(h, rs[k], req, sig, now)])
  {
    PickedUpRow(h, rs, k);
    DeliveredConsistent(h, rs[k], req, sig, now);
    ReplaceKeepsValid(h, rs, k, DeliveredRow(h, rs[k], req, sig, now));
  }

  /** Delivery keeps the transfer table valid. */
  lemma DeliverKeepsValid(h: Digest, rs: seq<TransferRecord>, rows: seq<ItemRecord>, id: string,
                          req: DeliveryRequest, now: int)
    requires ValidRecords(h, rs)
    ensures ValidRecords(h, Deliver(h, rs, rows, id, req, now).1)
  {
    var k := Find(rs, id);
    if k.Some? && rs[k.value].status == PickedUp {
      var r := rs[k.value];
      var before := ItemRowsOf(rows, id);
      var after := ItemRowsOf(ReceiveItems(rows, id, req.itemConditions, now), id);
      var sig := CreateSignature(h, req.receiverId, id, SignedItemsOf(before), now, None);
      var scans := ScansOf(after);
      PickedUpRow(h, rs, k.value);
      DeliverAt(h, rs, rows, id, req, now, k.value);
      DeliveryVerdict(h, r, req, sig, scans, now);
      DeliveredRowKeepsValid(h, rs, k.value, req, sig, now);
    }
  }
}
