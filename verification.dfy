/** The transfer verification service (backend/app/services/verification.py):
    custody signatures over a normalised payload, the verification hash over
    the three signatures, the ordered anomaly classifier run on a transfer, and
    the scanner for stalled and overdue transfers. */
module Verification {
  import opened Wrappers
  import opened Text
  import opened Lists
  import opened Time

  predicate IsLowerHexChar(c: char) { '0' <= c <= '9' || 'a' <= c <= 'f' }
  predicate IsUpperHexChar(c: char) { '0' <= c <= '9' || 'A' <= c <= 'F' }

  /** Lower-case hexadecimal text, as `hexdigest()` produces. */
  predicate IsLowerHex(s: string)
  {
    forall i :: 0 <= i < |s| ==> IsLowerHexChar(s[i])
  }

  /** SHA-256 followed by `hexdigest()`. Its internals are not modelled: any
      function will do whose every output is 64 lower-case hexadecimal digits. */
  type Digest = f: string -> string | forall s :: |f(s)| == 64 && IsLowerHex(f(s))
    witness (s: string) => seq(64, _ => '0')

  /** Transporter pickup deadline and maximum transit time, in hours. */
  const PickupDeadlineHours := 24
  const MaxTransitHours := 48

  // ---------------------------------------------------------------------------
  // Identifiers

  /** `generate_transfer_id`: "TXN-" and the first twelve hex digits of a random
      UUID, upper-cased. The UUID's hex text is a parameter. */
  function GenerateTransferId(uuidHex: string): (id: string)
    ensures |id| >= 4 && id[..4] == "TXN-"
    ensures |id| == 4 + (if |uuidHex| < 12 then |uuidHex| else 12)
    ensures forall i :: 4 <= i < |id| ==> id[i] == UpperChar(uuidHex[i - 4])
  {
    "TXN-" + Upper(Prefix(uuidHex, 12))
  }

  /** `generate_batch_qr`: "QR-" and the first sixteen hex digits of the
      SHA-256 of "medicine:batch:quantity:now", upper-cased. */
  function GenerateBatchQr(h: Digest, medicineId: string, batchId: string, quantity: int, now: int): (qr: string)
    ensures |qr| == 19 && qr[..3] == "QR-"
    ensures forall i :: 3 <= i < 19 ==> IsUpperHexChar(qr[i])
  {
    "QR-" + UpperHexPrefix(h(BatchQrInput(medicineId, batchId, quantity, now)), 16)
  }

  /** The text hashed for a batch QR code: "medicine:batch:quantity:now". */
  function BatchQrInput(medicineId: string, batchId: string, quantity: int, now: int): string
  {
    medicineId + ":" + batchId + ":" + IntToString(quantity) + ":" + IsoFormat(now)
  }

  /** The first `n` digits of a lower-case hex text, upper-cased, are upper-case hex. */
  function UpperHexPrefix(digest: string, n: nat): (code: string)
    requires n <= |digest| && IsLowerHex(digest)
    ensures |code| == n
    ensures forall i :: 0 <= i < n ==> IsUpperHexChar(code[i])
  {
    Upper(Prefix(digest, n))
  }

  // ---------------------------------------------------------------------------
  // Signatures

  /** One entry of the normalised item list: `{"qr": ..., "qty": ...}`. */
  datatype SignedItem = SignedItem(qr: string, qty: int)

  /** `s` is ordered by QR code (Python string order). */
  predicate QrSorted(s: seq<SignedItem>)
  {
    forall i, j :: 0 <= i < j < |s| ==> !LexLess(s[j].qr, s[i].qr)
  }

  /** No two entries share a QR code. */
  predicate DistinctQrs(s: seq<SignedItem>)
  {
    forall i, j :: 0 <= i < j < |s| ==> s[i].qr != s[j].qr
  }

  /** "Not after" is transitive for Python's string order. */
  lemma {:induction false} LexLeqTransitive(a: string, b: string, c: string)
    requires !LexLess(b, a) && !LexLess(c, b)
    ensures !LexLess(c, a)
  {
    if a != [] && b != [] && c != [] && a[0] == b[0] && b[0] == c[0] {
      LexLeqTransitive(a[1..], b[1..], c[1..]);
    }
  }

  /** Two strings neither of which comes before the other are equal. */
  lemma {:induction false} LexAntisymmetric(a: string, b: string)
    requires !LexLess(a, b) && !LexLess(b, a)
    ensures a == b
  {
    if a != [] && b != [] {
      LexAntisymmetric(a[1..], b[1..]);
      assert a == [a[0]] + a[1..] && b == [b[0]] + b[1..];
    }
  }

  /** Insert `x` in front of the first entry whose QR code is not smaller
      (so it stays ahead of entries with the same code, as a stable sort keeps it). */
  function QrInsert(x: SignedItem, s: seq<SignedItem>): (r: seq<SignedItem>)
    ensures |r| == |s| + 1
    ensures forall i :: 0 <= i < |r| ==> r[i] == x || r[i] in s
    ensures multiset(r) == multiset(s) + multiset{x}
  {
    if s == [] || !LexLess(s[0].qr, x.qr) then
      [x] + s
    else
      assert s == [s[0]] + s[1..];
      var rest := QrInsert(x, s[1..]);
      assert multiset([s[0]] + rest) == multiset{s[0]} + multiset(rest);
      [s[0]] + rest
  }

  /** Inserting into a list sorted by QR code keeps it sorted. */
  lemma {:induction false} QrInsertSorted(x: SignedItem, s: seq<SignedItem>)
    requires QrSorted(s)
    ensures QrSorted(QrInsert(x, s))
  {
    if s == [] || !LexLess(s[0].qr, x.qr) {
      forall j | 0 <= j < |s| ensures !LexLess(s[j].qr, x.qr) {
        if j > 0 { LexLeqTransitive(x.qr, s[0].qr, s[j].qr); }
      }
    } else {
      QrInsertSorted(x, s[1..]);
      var rest := QrInsert(x, s[1..]);
      LexLessAsymmetric(s[0].qr, x.qr);
      assert forall i :: 0 <= i < |rest| ==> !LexLess(rest[i].qr, s[0].qr);
    }
  }

  /** `sorted(items, key=lambda x: x["qr"])`. */
  function SortByQr(s: seq<SignedItem>): (r: seq<SignedItem>)
    ensures multiset(r) == multiset(s)
    ensures QrSorted(r)
  {
    if s == [] then []
    else
      assert s == [s[0]] + s[1..];
      var rest := SortByQr(s[1..]);
      QrInsertSorted(s[0], rest);
      QrInsert(s[0], rest)
  }

  lemma {:induction false} QrInsertDistinct(x: SignedItem, s: seq<SignedItem>)
    requires QrSorted(s) && DistinctQrs(s)
    requires forall i :: 0 <= i < |s| ==> s[i].qr != x.qr
    ensures DistinctQrs(QrInsert(x, s))
  {
    if s != [] && LexLess(s[0].qr, x.qr) {
      QrInsertDistinct(x, s[1..]);
      var rest := QrInsert(x, s[1..]);
      forall i | 0 <= i < |rest| ensures rest[i].qr != s[0].qr {
        if rest[i] != x {
          var j :| 0 <= j < |s[1..]| && s[1..][j] == rest[i];
          assert s[j + 1] == rest[i];
        }
      }
    }
  }

  lemma {:induction false} SortByQrDistinct(s: seq<SignedItem>)
    requires DistinctQrs(s)
    ensures DistinctQrs(SortByQr(s))
  {
    if s != [] {
      SortByQrDistinct(s[1..]);
      var rest := SortByQr(s[1..]);
      forall i | 0 <= i < |rest| ensures rest[i].qr != s[0].qr {
        assert rest[i] in multiset(s[1..]);
      }
      QrInsertDistinct(s[0], rest);
    }
  }

  /** Two QR-ordered lists holding the same entries, no QR code twice, start
      with the same entry. */
  lemma QrSortedSameHead(a: seq<SignedItem>, b: seq<SignedItem>)
    requires QrSorted(a) && QrSorted(b) && DistinctQrs(a)
    requires multiset(a) == multiset(b) && a != []
    ensures b != [] && a[0] == b[0]
  {
    var x := a[0];
    assert x in multiset(b);
    var y := b[0];
    assert y in multiset(a);
    var m :| 0 <= m < |a| && a[m] == y;
    forall j | 0 <= j < |a| ensures !LexLess(a[j].qr, x.qr) {
      if j == 0 { LexLessIrreflexive(x.qr); }
    }
    forall j | 0 <= j < |b| ensures !LexLess(b[j].qr, y.qr) {
      if j == 0 { LexLessIrreflexive(y.qr); }
    }
    var k :| 0 <= k < |b| && b[k] == x;
    LexAntisymmetric(x.qr, y.qr);
    assert m == 0;
  }

  lemma QrSortedTail(a: seq<SignedItem>)
    requires QrSorted(a) && a != []
    ensures QrSorted(a[1..])
  {
  }

  /** Removing equal first entries from equal multisets leaves equal multisets. */
  lemma MultisetTail<T>(a: seq<T>, b: seq<T>)
    requires multiset(a) == multiset(b) && a != [] && b != [] && a[0] == b[0]
    ensures multiset(a[1..]) == multiset(b[1..])
  {
    assert a == [a[0]] + a[1..] && b == [b[0]] + b[1..];
    assert multiset(a[1..]) == multiset(a) - multiset{a[0]};
    assert multiset(b[1..]) == multiset(b) - multiset{b[0]};
  }

  /** Two QR-ordered lists holding the same entries, no QR code twice, are equal. */
  lemma {:induction false} QrSortedUnique(a: seq<SignedItem>, b: seq<SignedItem>)
    requires QrSorted(a) && QrSorted(b) && DistinctQrs(a)
    requires multiset(a) == multiset(b)
    ensures a == b
    decreases |a|
  {
    if a == [] {
      assert |b| == |multiset(b)| == 0;
    } else {
      QrSortedSameHead(a, b);
      QrSortedTail(a);
      QrSortedTail(b);
      assert DistinctQrs(a[1..]);
      MultisetTail(a, b);
      QrSortedUnique(a[1..], b[1..]);
      assert a == [a[0]] + a[1..] && b == [b[0]] + b[1..];
    }
  }

  /** The JSON text of the normalised item list. */
  function ItemsJson(items: seq<SignedItem>): string
  {
    "[" + Join(", ", seq(|items|, i requires 0 <= i < |items| =>
      "{\"qr\": " + JsonString(items[i].qr) + ", \"qty\": " + IntToString(items[i].qty) + "}")) + "]"
  }

  /** `json.dumps(payload, sort_keys=True)` of the signature payload. */
  function PayloadJson(partyId: string, transferId: string, items: seq<SignedItem>, timestamp: int,
                       photoHash: Option<string>): string
  {
    "{\"items\": " + ItemsJson(items)
      + ", \"party_id\": " + JsonString(partyId)
      + ", \"photo_hash\": " + (match photoHash case None => "null" case Some(p) => JsonString(p))
      + ", \"timestamp\": " + JsonString(IsoFormat(timestamp))
      + ", \"transfer_id\": " + JsonString(transferId) + "}"
  }

  /** `create_signature`: the digest of the payload built from the party, the
      transfer id, the (qr, qty) pairs sorted by QR code, the timestamp and the
      photo hash. No earlier signature takes part. */
  function CreateSignature(h: Digest, partyId: string, transferId: string, items: seq<SignedItem>,
                           timestamp: int, photoHash: Option<string>): (sig: string)
    ensures |sig| == 64 && IsLowerHex(sig)
  {
    h(PayloadJson(partyId, transferId, SortByQr(items), timestamp, photoHash))
  }

  /** The signature does not depend on the order the items are listed in,
      provided no QR code occurs twice (the sort is stable, so entries sharing a
      code keep their input order). */
  lemma SignatureIgnoresItemOrder(h: Digest, partyId: string, transferId: string,
                                  a: seq<SignedItem>, b: seq<SignedItem>, timestamp: int, photoHash: Option<string>)
    requires multiset(a) == multiset(b)
    requires DistinctQrs(a)
    ensures CreateSignature(h, partyId, transferId, a, timestamp, photoHash)
         == CreateSignature(h, partyId, transferId, b, timestamp, photoHash)
  {
    SortByQrDistinct(a);
    QrSortedUnique(SortByQr(a), SortByQr(b));
  }

  /** `create_verification_hash`: the digest of the three signatures joined by ':'. */
  function CreateVerificationHash(h: Digest, senderSig: string, transporterSig: string, receiverSig: string): (vh: string)
    ensures |vh| == 64 && IsLowerHex(vh)
  {
    h(senderSig + ":" + transporterSig + ":" + receiverSig)
  }

  lemma SplitAtColon(a: string, x: string, b: string, y: string)
    requires ':' !in a && ':' !in b
    requires a + ":" + x == b + ":" + y
    ensures a == b && x == y
  {
    var s := a + ":" + x;
    assert s == b + ":" + y;
    assert s[|a|] == ':' && s[|b|] == ':';
    assert forall i :: 0 <= i < |a| ==> s[i] == a[i];
    assert forall i :: 0 <= i < |b| ==> s[i] == b[i];
    assert |a| == |b|;
    assert a == s[..|a|] && b == s[..|b|];
    assert x == s[|a| + 1..] && y == s[|b| + 1..];
  }

  /** Hex signatures contain no ':', so the hashed text determines the three
      signatures and their order: different chains never share a hash input. */
  lemma VerificationHashInputUnambiguous(s1: string, t1: string, r1: string, s2: string, t2: string, r2: string)
    requires IsLowerHex(s1) && IsLowerHex(t1) && IsLowerHex(s2) && IsLowerHex(t2)
    requires s1 + ":" + t1 + ":" + r1 == s2 + ":" + t2 + ":" + r2
    ensures s1 == s2 && t1 == t2 && r1 == r2
  {
    assert s1 + ":" + t1 + ":" + r1 == s1 + ":" + (t1 + ":" + r1);
    assert s2 + ":" + t2 + ":" + r2 == s2 + ":" + (t2 + ":" + r2);
    SplitAtColon(s1, t1 + ":" + r1, s2, t2 + ":" + r2);
    SplitAtColon(t1, r1, t2, r2);
  }

  // ---------------------------------------------------------------------------
  // The anomaly classifier

  /** The fields of the transfer dictionary that `verify_transfer` reads. */
  datatype TransferView = TransferView(
    senderSignature: Option<string>,
    transporterSignature: Option<string>,
    receiverSignature: Option<string>,
    quantity: int,
    receivedQuantity: Option<int>,
    createdAt: Option<int>,
    pickupAt: Option<int>,
    deliveredAt: Option<int>)

  /** The scan flags of one transfer item. */
  datatype ItemScan = ItemScan(scannedAtSender: bool, scannedAtReceiver: bool)

  datatype Party = Sender | Transporter | Receiver

  function PartyName(p: Party): string
  {
    match p
    case Sender => "sender"
    case Transporter => "transporter"
    case Receiver => "receiver"
  }

  /** Python's `bool(signature)`: present and non-empty. */
  predicate Signed(sig: Option<string>)
  {
    sig.Some? && sig.value != ""
  }

  function SignatureOf(v: TransferView, p: Party): Option<string>
  {
    match p
    case Sender => v.senderSignature
    case Transporter => v.transporterSignature
    case Receiver => v.receiverSignature
  }

  /** The parties whose signature is missing, in the order sender, transporter, receiver. */
  function MissingParties(v: TransferView): (r: seq<Party>)
    ensures r == [] <==> Signed(v.senderSignature) && Signed(v.transporterSignature) && Signed(v.receiverSignature)
    ensures forall p :: p in r <==> !Signed(SignatureOf(v, p))
    ensures forall i, j :: 0 <= i < j < |r| ==> r[i] != r[j]
  {
    (if Signed(v.senderSignature) then [] else [Sender])
      + (if Signed(v.transporterSignature) then [] else [Transporter])
      + (if Signed(v.receiverSignature) then [] else [Receiver])
  }

  datatype Signatures = Signatures(sender: bool, transporter: bool, receiver: bool)

  datatype Severity = Critical | Warning

  /** One finding of the classifier, with the figures its message reports. */
  datatype Anomaly =
    | SignatureMissing(parties: seq<Party>)
    | QuantityMismatch(sent: int, received: int)
    | IncompleteSenderScan(unscanned: nat)
    | IncompleteReceiverScan(unscanned: nat)
    | LatePickup(delay: nat)
    | ExtendedTransit(transit: nat)
  {
    /** The "type" tag the source writes. */
    function TypeName(): string
    {
      match this
      case SignatureMissing(_) => "signature_missing"
      case QuantityMismatch(_, _) => "quantity_mismatch"
      case IncompleteSenderScan(_) => "incomplete_sender_scan"
      case IncompleteReceiverScan(_) => "incomplete_receiver_scan"
      case LatePickup(_) => "late_pickup"
      case ExtendedTransit(_) => "extended_transit"
    }

    /** Missing signatures and quantity discrepancies are critical; the rest are warnings. */
    function Severity(): Severity
    {
      if SignatureMissing? || QuantityMismatch? then Critical else Warning
    }

    /** The human-readable message the source writes. */
    function Message(): string
    {
      match this
      case SignatureMissing(parties) =>
        "Missing signatures from: " + Join(", ", seq(|parties|, i requires 0 <= i < |parties| => PartyName(parties[i])))
      case QuantityMismatch(sent, received) =>
        "Quantity discrepancy: Sent " + IntToString(sent) + ", Received " + IntToString(received)
          + " (Missing: " + IntToString(sent - received) + ")"
      case IncompleteSenderScan(n) => NatToString(n) + " items not scanned by sender"
      case IncompleteReceiverScan(n) => NatToString(n) + " items not scanned by receiver"
      case LatePickup(delay) =>
        "Pickup delayed by " + HoursText(delay) + " hours (expected: " + NatToString(PickupDeadlineHours) + "h)"
      case ExtendedTransit(transit) =>
        "Transit took " + HoursText(transit) + " hours (expected max: " + NatToString(MaxTransitHours) + "h)"
    }

    /** The "missing_units" entry, present only on a quantity discrepancy. */
    function MissingUnits(): Option<int>
    {
      if QuantityMismatch? then Some(sent - received) else None
    }
  }

  predicate IsCritical(a: Anomaly) { a.Severity() == Critical }

  /** No finding in `anomalies` is critical. */
  predicate NoneCritical(anomalies: seq<Anomaly>)
  {
    forall a :: a in anomalies ==> !IsCritical(a)
  }

  predicate UnscannedBySender(i: ItemScan) { !i.scannedAtSender }
  predicate UnscannedByReceiver(i: ItemScan) { !i.scannedAtReceiver }

  /** The quantity check fires when a received quantity is recorded and differs. */
  predicate QuantityDiffers(v: TransferView)
  {
    v.receivedQuantity.Some? && v.receivedQuantity.value != v.quantity
  }

  /** Pickup came more than 24 hours after creation. */
  predicate PickedUpLate(v: TransferView)
  {
    v.createdAt.Some? && v.pickupAt.Some? && v.pickupAt.value - v.createdAt.value > Hours(PickupDeadlineHours)
  }

  /** Delivery came more than 48 hours after pickup. */
  predicate TransitTooLong(v: TransferView)
  {
    v.pickupAt.Some? && v.deliveredAt.Some? && v.deliveredAt.value - v.pickupAt.value > Hours(MaxTransitHours)
  }

  /** Check 1: the missing-signature finding, when some party has not signed. */
  function SignatureCheck(v: TransferView): seq<Anomaly>
  {
    if MissingParties(v) == [] then [] else [SignatureMissing(MissingParties(v))]
  }

  /** Check 2: the quantity finding, when the received quantity differs. */
  function QuantityCheck(v: TransferView): seq<Anomaly>
  {
    if QuantityDiffers(v) then [QuantityMismatch(v.quantity, v.receivedQuantity.value)] else []
  }

  /** The critical findings: a missing-signature finding when the chain is
      incomplete, then a quantity mismatch when the quantities differ. */
  function CriticalChecks(v: TransferView): (r: seq<Anomaly>)
    ensures forall i :: 0 <= i < |r| ==> IsCritical(r[i])
  {
    SignatureCheck(v) + QuantityCheck(v)
  }

  /** Check 3, first half: the items the sender did not scan. */
  function SenderScanCheck(items: seq<ItemScan>): (r: seq<Anomaly>)
    ensures forall i :: 0 <= i < |r| ==> !IsCritical(r[i])
  {
    var n := Count(items, UnscannedBySender);
    if n > 0 then [IncompleteSenderScan(n)] else []
  }

  /** Check 3, second half: the items the receiver did not scan. */
  function ReceiverScanCheck(items: seq<ItemScan>): (r: seq<Anomaly>)
    ensures forall i :: 0 <= i < |r| ==> !IsCritical(r[i])
  {
    var n := Count(items, UnscannedByReceiver);
    if n > 0 then [IncompleteReceiverScan(n)] else []
  }

  /** Check 4, first half: pickup more than 24 hours after creation. */
  function LatePickupCheck(v: TransferView): (r: seq<Anomaly>)
    ensures forall i :: 0 <= i < |r| ==> !IsCritical(r[i])
  {
    if PickedUpLate(v) then [LatePickup(v.pickupAt.value - v.createdAt.value)] else []
  }

  /** Check 4, second half: delivery more than 48 hours after pickup. */
  function TransitCheck(v: TransferView): (r: seq<Anomaly>)
    ensures forall i :: 0 <= i < |r| ==> !IsCritical(r[i])
  {
    if TransitTooLong(v) then [ExtendedTransit(v.deliveredAt.value - v.pickupAt.value)] else []
  }

  /** The findings of `verify_transfer`, in the order its four checks append them. */
  function Anomalies(v: TransferView, items: seq<ItemScan>): seq<Anomaly>
  {
    CriticalChecks(v) + SenderScanCheck(items) + ReceiverScanCheck(items) + LatePickupCheck(v) + TransitCheck(v)
  }

  datatype VerificationResult = VerificationResult(
    isValid: bool,
    verificationHash: string,
    anomalies: seq<Anomaly>,
    chainComplete: bool,
    signatures: Signatures)

  /** What `verify_transfer` reports: the findings of the four checks in order;
      the transfer is valid exactly when all three parties signed and no
      received quantity differs from the quantity sent; the hash is computed
      only for a complete chain. */
  function VerificationOf(h: Digest, v: TransferView, items: seq<ItemScan>): (r: VerificationResult)
    ensures r.anomalies == Anomalies(v, items)
    ensures r.signatures == Signatures(Signed(v.senderSignature), Signed(v.transporterSignature), Signed(v.receiverSignature))
    ensures r.chainComplete <==> MissingParties(v) == []
    ensures r.verificationHash == if r.chainComplete
              then CreateVerificationHash(h, v.senderSignature.value, v.transporterSignature.value, v.receiverSignature.value)
              else ""
    ensures r.isValid <==> MissingParties(v) == [] && !QuantityDiffers(v)
  {
    var signatures := Signatures(Signed(v.senderSignature), Signed(v.transporterSignature), Signed(v.receiverSignature));
    var chainComplete := signatures.sender && signatures.transporter && signatures.receiver;
    var anomalies := Anomalies(v, items);
    var verificationHash :=
      if chainComplete
      then CreateVerificationHash(h, v.senderSignature.value, v.transporterSignature.value, v.receiverSignature.value)
      else "";
    NoCriticalAnomaly(v, items);
    var isValid := chainComplete && NoneCritical(anomalies);
    VerificationResult(isValid, verificationHash, anomalies, chainComplete, signatures)
  }

  /** `verify_transfer`: run the checks in order, appending each finding. */
  method VerifyTransfer(h: Digest, v: TransferView, items: seq<ItemScan>) returns (r: VerificationResult)
    ensures r == VerificationOf(h, v, items)
  {
    var anomalies: seq<Anomaly> := [];
    var signatures := Signatures(Signed(v.senderSignature), Signed(v.transporterSignature), Signed(v.receiverSignature));

    // Check 1: all signatures present
    var chainComplete := signatures.sender && signatures.transporter && signatures.receiver;
    if !chainComplete {
      anomalies := anomalies + [SignatureMissing(MissingParties(v))];
    }
    assert anomalies == SignatureCheck(v);
    // Check 2: quantity mismatch
    if v.receivedQuantity.Some? && v.receivedQuantity.value != v.quantity {
      anomalies := anomalies + [QuantityMismatch(v.quantity, v.receivedQuantity.value)];
    }
    assert anomalies == CriticalChecks(v);
    // Check 3: item-level scans
    anomalies := AppendScanFindings(anomalies, items);
    // Check 4: time violations
    anomalies := AppendTimeFindings(anomalies, v);

    var verificationHash := "";
    if chainComplete {
      verificationHash := CreateVerificationHash(h, v.senderSignature.value, v.transporterSignature.value,
                                                 v.receiverSignature.value);
    }
    var isValid := chainComplete && NoneCritical(anomalies);
    r := VerificationResult(isValid, verificationHash, anomalies, chainComplete, signatures);
  }

  /** Check 3 of `verify_transfer`: when there are items, append a finding for
      the items the sender did not scan and one for those the receiver did not
      scan, each only when there are any. */
  method AppendScanFindings(anomalies: seq<Anomaly>, items: seq<ItemScan>) returns (r: seq<Anomaly>)
    ensures r == anomalies + SenderScanCheck(items) + ReceiverScanCheck(items)
  {
    r := anomalies;
    if items != [] {
      var unscannedSender := Count(items, UnscannedBySender);
      var unscannedReceiver := Count(items, UnscannedByReceiver);
      if unscannedSender > 0 {
        r := r + [IncompleteSenderScan(unscannedSender)];
      }
      assert r == anomalies + SenderScanCheck(items);
      if unscannedReceiver > 0 {
        r := r + [IncompleteReceiverScan(unscannedReceiver)];
      }
    }
  }

  /** Check 4 of `verify_transfer`: append a finding when pickup came more than
      24 hours after creation, then one when transit took more than 48 hours. */
  method AppendTimeFindings(anomalies: seq<Anomaly>, v: TransferView) returns (r: seq<Anomaly>)
    ensures r == anomalies + LatePickupCheck(v) + TransitCheck(v)
  {
    r := anomalies;
    if v.createdAt.Some? && v.pickupAt.Some? {
      var pickupDelay := v.pickupAt.value - v.createdAt.value;
      if pickupDelay > Hours(PickupDeadlineHours) {
        r := r + [LatePickup(pickupDelay)];
      }
    }
    assert r == anomalies + LatePickupCheck(v);
    if v.pickupAt.Some? && v.deliveredAt.Some? {
      var transit := v.deliveredAt.value - v.pickupAt.value;
      if transit > Hours(MaxTransitHours) {
        r := r + [ExtendedTransit(transit)];
      }
    }
  }

  /** The critical findings, in order, are the missing-signature finding (when
      the chain is incomplete) and then the quantity mismatch (when the received
      quantity differs): nothing else makes a transfer invalid. */
  lemma CriticalAnomalies(v: TransferView, items: seq<ItemScan>)
    ensures Filter(Anomalies(v, items), IsCritical) == CriticalChecks(v)
  {
    var c, s1, s2, t1, t2 := CriticalChecks(v), SenderScanCheck(items), ReceiverScanCheck(items),
                             LatePickupCheck(v), TransitCheck(v);
    FilterAll(c, IsCritical);
    FilterNone(s1, IsCritical);
    FilterNone(s2, IsCritical);
    FilterNone(t1, IsCritical);
    FilterNone(t2, IsCritical);
    FilterAppend(c, s1, IsCritical);
    FilterAppend(c + s1, s2, IsCritical);
    FilterAppend(c + s1 + s2, t1, IsCritical);
    FilterAppend(c + s1 + s2 + t1, t2, IsCritical);
  }

  /** A transfer has no critical finding exactly when all three parties signed
      and no different received quantity is recorded. */
  lemma NoCriticalAnomaly(v: TransferView, items: seq<ItemScan>)
    ensures NoneCritical(Anomalies(v, items)) <==> MissingParties(v) == [] && !QuantityDiffers(v)
  {
    CriticalAnomalies(v, items);
    FilterMembers(Anomalies(v, items), IsCritical);
    var c := CriticalChecks(v);
    if c != [] {
      assert c[0] in Filter(Anomalies(v, items), IsCritical);
    }
  }

  lemma CountPositive(items: seq<ItemScan>, p: ItemScan -> bool)
    ensures Count(items, p) > 0 <==> exists i :: 0 <= i < |items| && p(items[i])
  {
    CountIsFilterLength(items, p);
    FilterMembers(items, p);
    if exists i :: 0 <= i < |items| && p(items[i]) {
      var i :| 0 <= i < |items| && p(items[i]);
      assert items[i] in Filter(items, p);
    }
  }

  /** A finding is reported by exactly one of the three groups of checks. */
  lemma AnomaliesMembers(v: TransferView, items: seq<ItemScan>)
    ensures forall a :: a in Anomalies(v, items) <==>
              a in CriticalChecks(v) || a in SenderScanCheck(items) || a in ReceiverScanCheck(items)
              || a in LatePickupCheck(v) || a in TransitCheck(v)
  {
  }

  /** Missing signatures are reported, always as the first finding, exactly
      when some party has not signed. */
  lemma SignatureConditions(v: TransferView, items: seq<ItemScan>)
    ensures MissingParties(v) != [] ==> Anomalies(v, items)[0] == SignatureMissing(MissingParties(v))
    ensures (exists a :: a in Anomalies(v, items) && a.SignatureMissing?) <==> MissingParties(v) != []
  {
    AnomaliesMembers(v, items);
    var c := CriticalChecks(v);
    var r := Anomalies(v, items);
    if MissingParties(v) != [] {
      assert r[0] == c[0];
      assert c[0] in r;
    }
  }

  /** A quantity mismatch is reported exactly when a different received
      quantity is recorded, and it carries sent minus received as the missing
      units. */
  lemma QuantityConditions(v: TransferView, items: seq<ItemScan>)
    ensures (exists a :: a in Anomalies(v, items) && a.QuantityMismatch?) <==> QuantityDiffers(v)
    ensures forall a :: a in Anomalies(v, items) && a.QuantityMismatch? ==>
              a.MissingUnits() == Some(v.quantity - v.receivedQuantity.value)
  {
    AnomaliesMembers(v, items);
    var c := CriticalChecks(v);
    if QuantityDiffers(v) {
      assert c[|c| - 1] in Anomalies(v, items);
    }
  }

  /** An incomplete-scan warning is reported for a party exactly when some
      item lacks that party's scan. */
  lemma ScanConditions(v: TransferView, items: seq<ItemScan>)
    ensures (exists a :: a in Anomalies(v, items) && a.IncompleteSenderScan?)
              <==> (exists i :: 0 <= i < |items| && !items[i].scannedAtSender)
    ensures (exists a :: a in Anomalies(v, items) && a.IncompleteReceiverScan?)
              <==> (exists i :: 0 <= i < |items| && !items[i].scannedAtReceiver)
  {
    AnomaliesMembers(v, items);
    CountPositive(items, UnscannedBySender);
    CountPositive(items, UnscannedByReceiver);
    if Count(items, UnscannedBySender) > 0 {
      assert SenderScanCheck(items)[0] in Anomalies(v, items);
    }
    if Count(items, UnscannedByReceiver) > 0 {
      assert ReceiverScanCheck(items)[0] in Anomalies(v, items);
    }
  }

  /** A late pickup is reported exactly when pickup came more than 24 hours
      after creation; an extended transit exactly when delivery came more
      than 48 hours after pickup. */
  lemma TimeConditions(v: TransferView, items: seq<ItemScan>)
    ensures (exists a :: a in Anomalies(v, items) && a.LatePickup?) <==> PickedUpLate(v)
    ensures (exists a :: a in Anomalies(v, items) && a.ExtendedTransit?) <==> TransitTooLong(v)
  {
    AnomaliesMembers(v, items);
    if PickedUpLate(v) {
      assert LatePickupCheck(v)[0] in Anomalies(v, items);
    }
    if TransitTooLong(v) {
      assert TransitCheck(v)[0] in Anomalies(v, items);
    }
  }

  // ---------------------------------------------------------------------------
  // The pending scanner

  /** The fields of a pending transfer's dictionary that the scanner reads. The
      store always sets `created_at`, so it is a plain timestamp here. */
  datatype PendingView = PendingView(
    id: string,
    status: string,
    createdAt: int,
    pickupAt: Option<int>,
    fromDistrictId: string,
    toDistrictId: string)

  datatype PendingKind = StalledTransfer | OverdueDelivery

  datatype PendingAlert = PendingAlert(
    transferId: string,
    kind: PendingKind,
    severity: Severity,
    message: string,
    fromDistrict: string,
    toDistrict: string)

  /** The alert, if any, that the scanner raises for one transfer at time `now`. */
  function PendingAlertFor(v: PendingView, now: int): (r: Option<PendingAlert>)
    ensures r.Some? ==> (r.value.transferId == v.id
                     && r.value.fromDistrict == v.fromDistrictId && r.value.toDistrict == v.toDistrictId)
    ensures (r.Some? && r.value.kind == StalledTransfer)
              <==> v.status == "created" && now - v.createdAt > Hours(PickupDeadlineHours)
    ensures (r.Some? && r.value.kind == OverdueDelivery)
              <==> v.status == "picked_up" && v.pickupAt.Some? && now - v.pickupAt.value > Hours(MaxTransitHours)
    ensures r.Some? ==> (r.value.severity == Warning <==> r.value.kind == StalledTransfer)
  {
    if v.status == "created" then
      var age := now - v.createdAt;
      if age > Hours(PickupDeadlineHours) then
        Some(PendingAlert(v.id, StalledTransfer, Warning,
          "Transfer awaiting pickup for " + HoursText(age) + " hours", v.fromDistrictId, v.toDistrictId))
      else None
    else if v.status == "picked_up" && v.pickupAt.Some? then
      var transit := now - v.pickupAt.value;
      if transit > Hours(MaxTransitHours) then
        Some(PendingAlert(v.id, OverdueDelivery, Critical,
          "In transit for " + HoursText(transit) + " hours - possible diversion", v.fromDistrictId, v.toDistrictId))
      else None
    else None
  }

  /** The alerts of all transfers, in transfer order. */
  function PendingAlerts(views: seq<PendingView>, now: int): (r: seq<PendingAlert>)
    ensures |r| <= |views|
  {
    if views == [] then []
    else
      PendingAlerts(views[..|views| - 1], now)
        + (match PendingAlertFor(views[|views| - 1], now) case Some(a) => [a] case None => [])
  }

  /** `detect_pending_anomalies`: scan every transfer, appending its alert. */
  method DetectPendingAnomalies(views: seq<PendingView>, now: int) returns (alerts: seq<PendingAlert>)
    ensures alerts == PendingAlerts(views, now)
  {
    alerts := [];
    for k := 0 to |views|
      invariant alerts == PendingAlerts(views[..k], now)
    {
      assert views[..k + 1][..k] == views[..k];
      var alert := PendingAlertFor(views[k], now);
      if alert.Some? {
        alerts := alerts + [alert.value];
      }
    }
    assert views[..|views|] == views;
  }

  /** Every alert is the one its own transfer raises. */
  lemma {:induction false} PendingAlertsSound(views: seq<PendingView>, now: int)
    ensures forall a :: a in PendingAlerts(views, now) ==>
              exists i :: 0 <= i < |views| && PendingAlertFor(views[i], now) == Some(a)
  {
    if views != [] {
      var init := views[..|views| - 1];
      PendingAlertsSound(init, now);
      assert forall i :: 0 <= i < |init| ==> init[i] == views[i];
    }
  }

  /** Every transfer that qualifies raises its alert. */
  lemma {:induction false} PendingAlertsComplete(views: seq<PendingView>, now: int)
    ensures forall i :: 0 <= i < |views| && PendingAlertFor(views[i], now).Some? ==>
              PendingAlertFor(views[i], now).value in PendingAlerts(views, now)
  {
    if views != [] {
      var init := views[..|views| - 1];
      PendingAlertsComplete(init, now);
      assert forall i :: 0 <= i < |init| ==> init[i] == views[i];
    }
  }

  /** At most one alert per transfer: a transfer id gets no more alerts than
      there are transfers carrying it. */
  lemma {:induction false} PendingAlertsPerTransfer(views: seq<PendingView>, now: int, id: string)
    ensures Count(PendingAlerts(views, now), (a: PendingAlert) => a.transferId == id)
         <= Count(views, (v: PendingView) => v.id == id)
  {
    if views != [] {
      var p := (a: PendingAlert) => a.transferId == id;
      var q := (v: PendingView) => v.id == id;
      var init, last := views[..|views| - 1], views[|views| - 1];
      PendingAlertsPerTransfer(init, now, id);
      var tail := match PendingAlertFor(last, now) case Some(a) => [a] case None => [];
      assert PendingAlerts(views, now) == PendingAlerts(init, now) + tail;
      CountAppend(PendingAlerts(init, now), tail, p);
      assert views == init + [last];
      CountAppend(init, [last], q);
      AlertOfOneView(last, now, id);
    }
  }

  lemma AlertOfOneView(v: PendingView, now: int, id: string)
    ensures Count(match PendingAlertFor(v, now) case Some(a) => [a] case None => [], (a: PendingAlert) => a.transferId == id)
         <= Count([v], (w: PendingView) => w.id == id)
  {
  }
}
