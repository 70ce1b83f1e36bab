/** The transfer and item tables as the objects the router loads, updates in
    place and commits, and the endpoints of the transfer router as methods on
    them, each proved against its counterpart on the table contents. */
module Store {
  import opened Wrappers
  import opened Text
  import opened Lists
  import opened Time
  import opened Verification
  import opened Transfers

  /** A transfer row. The columns written only at creation are constants. */
  class Transfer {
    const id: string
    const medicineId: string
    const quantity: int
    const fromDistrictId: string
    const toDistrictId: string
    const priority: string
    const createdBy: string
    const createdAt: int
    const senderSignature: string
    const senderNotes: Option<string>
    var status: Status
    var pickupAt: Option<int>
    var transporterId: Option<string>
    var transporterSignature: Option<string>
    var expectedDeliveryAt: Option<int>
    var deliveredAt: Option<int>
    var receiverId: Option<string>
    var receiverSignature: Option<string>
    var receivedQuantity: Option<int>
    var receiverNotes: Option<string>
    var verificationHash: Option<string>
    var isVerified: bool
    var verifiedAt: Option<int>
    var hasDiscrepancy: bool
    var discrepancyType: Option<string>
    var discrepancyNotes: Option<string>

    /** The row holding the column values of `r`. */
    constructor (r: TransferRecord)
      ensures Record() == r
    {
      id, medicineId, quantity, fromDistrictId, toDistrictId := r.id, r.medicineId, r.quantity, r.fromDistrictId, r.toDistrictId;
      priority, createdBy, createdAt, senderSignature, senderNotes := r.priority, r.createdBy, r.createdAt, r.senderSignature, r.senderNotes;
      status, pickupAt, transporterId, transporterSignature := r.status, r.pickupAt, r.transporterId, r.transporterSignature;
      expectedDeliveryAt, deliveredAt, receiverId, receiverSignature := r.expectedDeliveryAt, r.deliveredAt, r.receiverId, r.receiverSignature;
      receivedQuantity, receiverNotes, verificationHash, isVerified := r.receivedQuantity, r.receiverNotes, r.verificationHash, r.isVerified;
      verifiedAt, hasDiscrepancy, discrepancyType, discrepancyNotes := r.verifiedAt, r.hasDiscrepancy, r.discrepancyType, r.discrepancyNotes;
    }

    /** The current column values. */
    function Record(): TransferRecord
      reads this
    {
      TransferRecord(id, medicineId, quantity, fromDistrictId, toDistrictId, priority, createdBy, createdAt,
                     senderSignature, senderNotes, status, pickupAt, transporterId, transporterSignature,
                     expectedDeliveryAt, deliveredAt, receiverId, receiverSignature, receivedQuantity, receiverNotes,
                     verificationHash, isVerified, verifiedAt, hasDiscrepancy, discrepancyType, discrepancyNotes)
    }
  }

  /** A batch item row. */
  class TransferItem {
    const transferId: string
    const batchQrCode: string
    const batchId: string
    const quantity: int
    const scannedAtSender: bool
    const senderScanTime: Option<int>
    var scannedAtReceiver: bool
    var receiverScanTime: Option<int>
    var conditionOnReceipt: Option<string>

    constructor (r: ItemRecord)
      ensures Record() == r
    {
      transferId, batchQrCode, batchId, quantity := r.transferId, r.batchQrCode, r.batchId, r.quantity;
      scannedAtSender, senderScanTime := r.scannedAtSender, r.senderScanTime;
      scannedAtReceiver, receiverScanTime, conditionOnReceipt := r.scannedAtReceiver, r.receiverScanTime, r.conditionOnReceipt;
    }

    function Record(): ItemRecord
      reads this
    {
      ItemRecord(transferId, batchQrCode, batchId, quantity, scannedAtSender, senderScanTime,
                 scannedAtReceiver, receiverScanTime, conditionOnReceipt)
    }
  }

  /** The current rows of a list of transfers. */
  function Records(ts: seq<Transfer>): (r: seq<TransferRecord>)
    reads ts
    ensures |r| == |ts|
    ensures forall i :: 0 <= i < |ts| ==> r[i] == ts[i].Record()
  {
    seq(|ts|, i requires 0 <= i < |ts| reads ts => ts[i].Record())
  }

  /** The current rows of a list of items. */
  function Rows(its: seq<TransferItem>): (r: seq<ItemRecord>)
    reads its
    ensures |r| == |its|
    ensures forall i :: 0 <= i < |its| ==> r[i] == its[i].Record()
  {
    seq(|its|, i requires 0 <= i < |its| reads its => its[i].Record())
  }

  /** `select(TransferItem).where(TransferItem.transfer_id == id)`, in table order. */
  function ItemsOf(its: seq<TransferItem>, id: string): (r: seq<TransferItem>)
    ensures forall i :: 0 <= i < |r| ==> r[i].transferId == id
  {
    Filter(its, (i: TransferItem) => i.transferId == id)
  }

  /** The inner loop of the delivery scan: every entry naming the item's QR
      code overwrites its condition with what `StoredCondition` reads. */
  method ApplyConditions(item: TransferItem, conds: seq<ItemCondition>)
    modifies item
    ensures item.Record() == old(item.Record()).(conditionOnReceipt :=
              ConditionAfter(conds, item.batchQrCode, old(item.conditionOnReceipt)))
  {
    for c := 0 to |conds|
      invariant item.Record() == old(item.Record()).(conditionOnReceipt :=
                  ConditionAfter(conds[..c], item.batchQrCode, old(item.conditionOnReceipt)))
    {
      assert conds[..c + 1][..c] == conds[..c];
      if conds[c].qrCode == Some(item.batchQrCode) {
        item.conditionOnReceipt := StoredCondition(conds[c].condition);
      }
    }
    assert conds[..|conds|] == conds;
  }

  /** The delivery scan over a transfer's items: each is marked received now
      and given its condition. */
  method MarkReceived(its: seq<TransferItem>, conds: seq<ItemCondition>, now: int)
    requires Distinct(its)
    modifies its
    ensures forall k :: 0 <= k < |its| ==> its[k].Record() == ReceivedItem(old(its[k].Record()), conds, now)
  {
    for k := 0 to |its|
      invariant forall j :: 0 <= j < k ==> its[j].Record() == ReceivedItem(old(its[j].Record()), conds, now)
      invariant forall j :: k <= j < |its| ==> its[j].Record() == old(its[j].Record())
    {
      var item := its[k];
      item.scannedAtReceiver := true;
      item.receiverScanTime := Some(now);
      if conds != [] {
        ApplyConditions(item, conds);
      }
    }
  }

  /** Stores the verification hash and the `is_verified` / `verified_at` pair. */
  method StoreHash(t: Transfer, result: VerificationResult, now: int)
    modifies t
    ensures t.Record() == old(t.Record()).(verificationHash := Some(result.verificationHash),
                                           isVerified := result.isValid,
                                           verifiedAt := if result.isValid then Some(now) else None)
  {
    t.verificationHash := Some(result.verificationHash);
    t.isVerified := result.isValid;
    t.verifiedAt := if result.isValid then Some(now) else None;
  }

  /** Marks a transfer disputed with the discrepancy type and notes given. */
  method MarkDisputed(t: Transfer, kind: string, notes: string)
    modifies t
    ensures t.Record() == old(t.Record()).(hasDiscrepancy := true, discrepancyType := Some(kind),
                                           discrepancyNotes := Some(notes), status := Disputed)
  {
    t.hasDiscrepancy := true;
    t.discrepancyType := Some(kind);
    t.discrepancyNotes := Some(notes);
    t.status := Disputed;
  }

  /** Moves a transfer to a new status and changes nothing else. */
  method SetStatus(t: Transfer, s: Status)
    modifies t
    ensures t.Record() == old(t.Record()).(status := s)
  {
    t.status := s;
  }

  /** The verdict step of `record_delivery` on a stored transfer. */
  method ApplyVerdict(t: Transfer, result: VerificationResult, now: int)
    modifies t
    ensures t.Record() == VerdictRecord(old(t.Record()), result, now)
  {
    StoreHash(t, result, now);
    if result.anomalies != [] {
      var critical := Filter(result.anomalies, IsCritical);
      if critical != [] {
        MarkDisputed(t, critical[0].TypeName(), Notes(critical));
      } else {
        SetStatus(t, Verified);
      }
    } else {
      SetStatus(t, Verified);
    }
  }

  lemma RowsAppend(a: seq<TransferItem>, b: seq<TransferItem>)
    ensures Rows(a + b) == Rows(a) + Rows(b)
  {
  }

  lemma ItemRowsOfCons(rows: seq<ItemRecord>, id: string)
    requires rows != []
    ensures ItemRowsOf(rows, id) == (if rows[0].transferId == id then [rows[0]] else []) + ItemRowsOf(rows[1..], id)
  {
  }

  /** The rows of a transfer's items are the item rows carrying its id. */
  lemma {:induction false} RowsOfItems(its: seq<TransferItem>, id: string)
    ensures Rows(ItemsOf(its, id)) == ItemRowsOf(Rows(its), id)
  {
    if its != [] {
      RowsOfItems(its[1..], id);
      var head := if its[0].transferId == id then [its[0]] else [];
      assert ItemsOf(its, id) == head + ItemsOf(its[1..], id);
      RowsAppend(head, ItemsOf(its[1..], id));
      ItemRowsOfCons(Rows(its), id);
      assert Rows(its)[1..] == Rows(its[1..]);
    }
  }

  /** One new item object per row, in order: the objects `create_transfer`
      adds to the session for the batches of a new transfer. */
  method AddItems(rows: seq<ItemRecord>) returns (created: seq<TransferItem>)
    ensures Rows(created) == rows
    ensures Distinct(created) && forall j :: 0 <= j < |created| ==> fresh(created[j])
  {
    created := [];
    for k := 0 to |rows|
      invariant |created| == k
      invariant forall j :: 0 <= j < k ==> created[j].Record() == rows[j]
      invariant Distinct(created) && forall j :: 0 <= j < k ==> fresh(created[j])
    {
      var item := new TransferItem(rows[k]);
      created := created + [item];
    }
  }

  /** Rows with different ids are different objects: a table without repeated
      ids holds no object twice. */
  lemma UniqueObjects(ts: seq<Transfer>, k: nat)
    requires UniqueIds(Records(ts)) && k < |ts|
    ensures forall j :: 0 <= j < |ts| && j != k ==> ts[j] != ts[k]
  {
    forall j | 0 <= j < |ts| && j != k ensures ts[j] != ts[k] {
      if j < k {
        assert Records(ts)[j].id != Records(ts)[k].id;
      } else {
        assert Records(ts)[k].id != Records(ts)[j].id;
      }
    }
  }

  /** Writes the pickup columns of the transfer at index `k`; the other rows
      are other objects and keep their values. */
  method PickupAt(ts: seq<Transfer>, k: nat, transporterId: string, sig: string, now: int)
    requires UniqueIds(Records(ts)) && k < |ts|
    modifies ts[k]
    ensures Records(ts) == old(Records(ts))[k := PickedUpRecord(old(ts[k].Record()), transporterId, sig, now)]
  {
    UniqueObjects(ts, k);
    WritePickup(ts[k], transporterId, sig, now);
  }

  /** The lists of objects once a new transfer and its new items are added. */
  method AddRows(ts: seq<Transfer>, its: seq<TransferItem>, r: TransferRecord, rows: seq<ItemRecord>)
    returns (ts': seq<Transfer>, its': seq<TransferItem>)
    requires Distinct(its)
    ensures Records(ts') == Records(ts) + [r]
    ensures Rows(its') == Rows(its) + rows
    ensures Distinct(its')
  {
    var created := AddItems(rows);
    var t := new Transfer(r);
    ts' := ts + [t];
    its' := its + created;
    assert Records(ts') == Records(ts) + [r];
  }

  /** Writes the pickup columns of a transfer. */
  method WritePickup(t: Transfer, transporterId: string, sig: string, now: int)
    modifies t
    ensures t.Record() == PickedUpRecord(old(t.Record()), transporterId, sig, now)
  {
    t.status := PickedUp;
    t.pickupAt := Some(now);
    t.transporterId := Some(transporterId);
    t.transporterSignature := Some(sig);
    t.expectedDeliveryAt := Some(now + Hours(MaxTransitHours));
  }

  /** Writes the delivery columns of a transfer and moves it to `delivered`. */
  method WriteDelivery(t: Transfer, req: DeliveryRequest, sig: string, now: int)
    modifies t
    ensures t.Record() == DeliveredRecord(old(t.Record()), req, sig, now)
  {
    t.status := Delivered;
    t.deliveredAt := Some(now);
    t.receiverId := Some(req.receiverId);
    t.receiverSignature := Some(sig);
    t.receivedQuantity := Some(req.receivedQuantity);
    t.receiverNotes := req.receiverNotes;
  }

  /** The delivery scan over the session's items: the items of transfer `id`
      are marked received now with their conditions, the others are untouched. */
  method ScanItems(ts: seq<Transfer>, its: seq<TransferItem>, id: string, conds: seq<ItemCondition>, now: int)
    requires Distinct(its)
    modifies its
    ensures Rows(its) == ReceiveItems(old(Rows(its)), id, conds, now)
    ensures Records(ts) == old(Records(ts))
  {
    ghost var rows := Rows(its);
    var mine := ItemsOf(its, id);
    FilterDistinct(its, (i: TransferItem) => i.transferId == id);
    FilterMembers(its, (i: TransferItem) => i.transferId == id);
    MarkReceived(mine, conds, now);
    forall i | 0 <= i < |its| ensures its[i].Record() == ReceiveItems(rows, id, conds, now)[i] {
      if its[i].transferId == id {
        assert its[i] in mine;
        var m :| 0 <= m < |mine| && mine[m] == its[i];
      }
    }
  }

  /** Writes the delivery of the transfer at index `k`, verifies it over the
      item scans and stores the verdict; the other rows keep their values. */
  method DeliverRow(h: Digest, ts: seq<Transfer>, its: seq<TransferItem>, k: nat, req: DeliveryRequest, sig: string,
                    scans: seq<ItemScan>, now: int) returns (result: VerificationResult)
    requires UniqueIds(Records(ts)) && k < |ts|
    modifies ts[k]
    ensures Rows(its) == old(Rows(its))
    ensures result == VerificationOf(h, ViewOf(DeliveredRecord(old(ts[k].Record()), req, sig, now)), scans)
    ensures Records(ts) == old(Records(ts))[k := DeliveryRecord(h, old(ts[k].Record()), req, sig, scans, now)]
  {
    UniqueObjects(ts, k);
    result := DeliverTransfer(h, ts[k], req, sig, scans, now);
  }

  /** The delivery columns, the verification over the item scans and the verdict. */
  method DeliverTransfer(h: Digest, t: Transfer, req: DeliveryRequest, sig: string, scans: seq<ItemScan>, now: int)
    returns (result: VerificationResult)
    modifies t
    ensures result == VerificationOf(h, ViewOf(DeliveredRecord(old(t.Record()), req, sig, now)), scans)
    ensures t.Record() == DeliveryRecord(h, old(t.Record()), req, sig, scans, now)
  {
    WriteDelivery(t, req, sig, now);
    result := VerifyTransfer(h, ViewOf(t.Record()), scans);
    ApplyVerdict(t, result, now);
  }

  // ---------------------------------------------------------------------------
  // The endpoints. `ts` and `its` are the transfer and item objects of the
  // session; an endpoint loads from them, updates them in place, or returns
  // the lists with the objects it adds.

  /** `POST /transfers/`. */
  method CreateTransfer(h: Digest, districts: set<string>, medicines: set<string>,
                        ts: seq<Transfer>, its: seq<TransferItem>,
                        data: TransferCreate, uuidHex: string, now: int)
    returns (res: Result<NewTransfer>, ts': seq<Transfer>, its': seq<TransferItem>)
    requires ValidRecords(h, Records(ts)) && Distinct(its)
    ensures ValidRecords(h, Records(ts')) && Distinct(its')
    ensures (res, Records(ts'), Rows(its'))
         == Create(h, districts, medicines, old(Records(ts)), old(Rows(its)), data, uuidHex, now)
  {
    ts', its' := ts, its;
    var e := CreateError(districts, medicines, data);
    if e.Some? {
      return Err(e.value), ts', its';
    }
    var id := GenerateTransferId(uuidHex);
    if Find(Records(ts), id).Some? {
      return Err(DuplicateId), ts', its';
    }
    res, ts', its' := AddTransfer(h, ts, its, data, id, now);
  }

  /** The rows `create_transfer` adds once the checks pass and the id is fresh. */
  method AddTransfer(h: Digest, ts: seq<Transfer>, its: seq<TransferItem>, data: TransferCreate, id: string, now: int)
    returns (res: Result<NewTransfer>, ts': seq<Transfer>, its': seq<TransferItem>)
    requires ValidRecords(h, Records(ts)) && Distinct(its) && Find(Records(ts), id).None?
    ensures ValidRecords(h, Records(ts')) && Distinct(its')
    ensures res == Ok(NewTransfer(NewRecord(h, data, id, now), NewItems(h, data, id, now)))
    ensures Records(ts') == old(Records(ts)) + [NewRecord(h, data, id, now)]
    ensures Rows(its') == old(Rows(its)) + NewItems(h, data, id, now)
  {
    var r := NewRecord(h, data, id, now);
    var items := NewItems(h, data, id, now);
    NewRecordConsistent(h, data, id, now);
    AppendKeepsValid(h, Records(ts), r);
    ts', its' := AddRows(ts, its, r, items);
    res := Ok(NewTransfer(r, items));
  }

  /** `POST /transfers/{id}/pickup`. */
  method RecordPickup(h: Digest, ts: seq<Transfer>, its: seq<TransferItem>, id: string,
                      transporterId: string, now: int) returns (res: Result<TransferRecord>)
    requires ValidRecords(h, Records(ts))
    modifies ts
    ensures ValidRecords(h, Records(ts))
    ensures (res, Records(ts)) == Pickup(h, old(Records(ts)), old(Rows(its)), id, transporterId, now)
  {
    ghost var rs := Records(ts);
    var found := Find(Records(ts), id);
    if found.None? {
      return Err(TransferNotFound(id));
    }
    var k := found.value;
    var t := ts[k];
    if t.status != Created {
      return Err(WrongStatus(t.status, "pickup"));
    }
    var sig := CreateSignature(h, transporterId, id, SignedItemsOf(Rows(ItemsOf(its, id))), now, None);
    RowsOfItems(its, id);
    PickupRowAt(h, rs, Rows(its), id, transporterId, now, k);
    PickupAt(ts, k, transporterId, sig, now);
    res := Ok(t.Record());
  }

  /** `POST /transfers/{id}/deliver`. */
  method RecordDelivery(h: Digest, ts: seq<Transfer>, its: seq<TransferItem>, id: string,
                        req: DeliveryRequest, now: int) returns (res: Result<Delivery>)
    requires ValidRecords(h, Records(ts)) && Distinct(its)
    modifies ts, its
    ensures ValidRecords(h, Records(ts))
    ensures (res, Records(ts), Rows(its)) == Deliver(h, old(Records(ts)), old(Rows(its)), id, req, now)
  {
    DeliverRefused(h, Records(ts), Rows(its), id, req, now);
    var found := Find(Records(ts), id);
    if found.None? {
      return Err(TransferNotFound(id));
    }
    var t := ts[found.value];
    if t.status != PickedUp {
      return Err(WrongStatus(t.status, "deliver"));
    }
    res := DeliverFound(h, ts, its, id, found.value, req, now);
  }

  /** The delivery of the `picked_up` transfer found at index `k`: the item
      scan, the receiver's signature, the delivery columns and the verdict. */
  method DeliverFound(h: Digest, ts: seq<Transfer>, its: seq<TransferItem>, id: string, k: nat,
                      req: DeliveryRequest, now: int) returns (res: Result<Delivery>)
    requires ValidRecords(h, Records(ts)) && Distinct(its)
    requires Find(Records(ts), id) == Some(k) && ts[k].status == PickedUp
    modifies ts, its
    ensures ValidRecords(h, Records(ts))
    ensures (res, Records(ts), Rows(its)) == Deliver(h, old(Records(ts)), old(Rows(its)), id, req, now)
  {
    ghost var rs, rows := Records(ts), Rows(its);
    RowsOfItems(its, id);
    var entries := SignedItemsOf(Rows(ItemsOf(its, id)));
    ScanItems(ts, its, id, req.itemConditions, now);
    var sig := CreateSignature(h, req.receiverId, id, entries, now, None);
    RowsOfItems(its, id);
    var after := Rows(ItemsOf(its, id));
    var result := DeliverRow(h, ts, its, k, req, sig, ScansOf(after), now);
    DeliverAt(h, rs, rows, id, req, now, k);
    DeliverKeepsValid(h, rs, rows, id, req, now);
    res := Ok(Delivery(ts[k].Record(), after, result));
  }
}
