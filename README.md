# MedPredict transfer verification and stock routing, in Dafny

This project models the back end of MedPredict, a medicine logistics service
for district health stores. Its main part is the **transfer verification
protocol**. A medicine shipment moves from a sending district to a receiving
district through a transporter. Its status runs `created → picked_up →
verified | disputed`, and each of the three parties signs the handoff. On
delivery, a classifier compares what was sent with what arrived, and its
findings decide the final status. The second part is the stock routing that
feeds this: the network optimiser that matches surplus districts to deficit
districts, the per-district recommendations, the stock and gap reports, and
the risk alerts.

Modules, in dependency order:

- `Wrappers` (`wrappers.dfy`): `Option`, `Result` and the API error `ApiError(code, detail)`.
- `Lists` (`lists.dfy`): filter, count and sum over sequences; a stable insertion
  sort by an integer key (Python's `list.sort(key=…)`); and `[:n]`.
- `Text` (`text.dfy`): decimal rendering, `str.join`, `str.upper`, string
  slicing, Python's string ordering, and the JSON quoting of `json.dumps`.
- `Floats` (`floats.dfy`): Python floats held exactly as mantissa and binary
  exponent, with the roundings of `/`, `*`, `int()` and `format(x, '.nf')`.
- `Time` (`time.dfy`): integer seconds as ISO and compact date strings, and
  durations as hours with one decimal.
- `Verification` (`verification.py`): transfer and batch ids, custody
  signatures, the verification hash, the anomaly classifier
  `verify_transfer`, the validity rule and the pending-transfer scanner.
- `Transfers` (`transfers.py`, values): the transfer and item rows, the
  lifecycle invariant `Consistent` that every stored row keeps, and the
  create, pickup and delivery endpoints as functions over the two tables.
- `Store` (`transfers.py`, in place): `Transfer` and `TransferItem` as
  classes whose fields the endpoints assign, with methods proved against the
  `Transfers` functions.
- `Listings` (`transfers.py`, read side): the detail and re-verify
  endpoints, the filtered listing with its summary, the pending list and the
  anomalies list.
- `Forecaster` (`forecaster.py`): the stock status thresholds, the greedy
  network matcher and the per-district recommendations.
- `Recommendations`, `Stock`, `Alerts`: the routers of the same names.

SHA-256 is a parameter `h: Digest`, a function whose every output is 64
lower-case hexadecimal digits. The UUID text and the clock reading are
parameters too. A timestamp is a whole number of seconds, so "more than N
hours" becomes "more than N·3600 seconds". Quantities outside the
transfer protocol that the forecaster computes in floating point (risk
level and score, stock percentage, gaps, signals) are inputs. Where an
endpoint does float arithmetic or prints a float itself (hours with one
decimal, the risk score with two, the readiness percentage), `Floats`
models the double rounding step by step.

Where the documented protocol and the code differ, the model follows the code:

- A custody signature does not include the previous signature. Nothing
  links one signature to the next except the verification hash, which is
  computed over all three.
- An event in the wrong status gets HTTP 400, not 409.
- Creation does not check that the quantity is positive.
- Only critical findings make a transfer `disputed`. Warnings still leave
  it `verified`.
- No suggested transfer is ever produced. The stock percentage is capped at
  100, so no district can be a surplus candidate, which needs more than 100.

## Model

| member | source | states |
|---|---|---|
| Verification.GenerateTransferId | backend/app/services/verification.py:34-37 | the id is "TXN-" followed by the first 12 UUID hex characters, upper-cased |
| Verification.GenerateBatchQr | backend/app/services/verification.py:39-43 | the QR code is "QR-" followed by 16 upper-case hex digits |
| Verification.QrInsertSorted | backend/app/services/verification.py:58-61 | inserting an item into a list sorted by QR code keeps it sorted |
| Verification.SortByQr | backend/app/services/verification.py:58-61 | the signed items are a permutation of the input, sorted by QR code |
| Verification.SortByQrDistinct | backend/app/services/verification.py:58-61 | sorting keeps QR codes pairwise distinct |
| Verification.QrSortedUnique | backend/app/services/verification.py:58-61 | two sorted permutations of items with distinct QR codes are equal |
| Verification.CreateSignature | backend/app/services/verification.py:45-72 | a signature is 64 lower-case hex digits |
| Verification.SignatureIgnoresItemOrder | backend/app/services/verification.py:57-72 | reordering the items leaves the signature unchanged, provided no QR code repeats |
| Verification.CreateVerificationHash | backend/app/services/verification.py:79-90 | the verification hash is 64 lower-case hex digits |
| Verification.VerificationHashInputUnambiguous | backend/app/services/verification.py:89 | equal hash inputs come from the same three signatures, in the same order |
| Verification.MissingParties | backend/app/services/verification.py:102-111 | it lists exactly the parties whose signature is absent or empty, each once; it is empty iff all three signed |
| Verification.CriticalChecks | backend/app/services/verification.py:108-128 | the missing-signature and quantity findings are critical |
| Verification.SenderScanCheck | backend/app/services/verification.py:130-140 | the sender scan finding is a warning |
| Verification.ReceiverScanCheck | backend/app/services/verification.py:142-147 | the receiver scan finding is a warning |
| Verification.LatePickupCheck | backend/app/services/verification.py:149-166 | the late pickup finding is a warning |
| Verification.TransitCheck | backend/app/services/verification.py:168-180 | the extended transit finding is a warning |
| Time.HoursTextTie | backend/app/services/verification.py:179 | an exact half (24.25 h) prints with the even tenth, "24.2" |
| Time.HoursTextBelowTie | backend/app/services/verification.py:165 | 0.15 h prints "0.1", its nearest double lying below the half |
| Verification.VerificationOf | backend/app/services/verification.py:92-202 | the chain is complete iff all three signed; the hash is over the three signatures when it is complete and "" otherwise; the result is valid iff the chain is complete and the received quantity does not differ |
| Verification.VerifyTransfer | backend/app/services/verification.py:92-202 | the method appending findings in order computes `VerificationOf` |
| Verification.AppendScanFindings | backend/app/services/verification.py:130-147 | the scan loop appends the sender then the receiver scan findings |
| Verification.AppendTimeFindings | backend/app/services/verification.py:149-180 | appends the late pickup then the transit finding |
| Verification.CriticalAnomalies | backend/app/services/verification.py:191-194 | the critical findings are exactly the signature and quantity checks, in that order |
| Verification.NoCriticalAnomaly | backend/app/services/verification.py:191-194 | there is no critical finding iff every party signed and the quantities agree |
| Verification.AnomaliesMembers | backend/app/services/verification.py:101-180 | a finding is reported iff one of the five checks produces it |
| Verification.SignatureConditions | backend/app/services/verification.py:108-116 | with a missing party, the first finding names exactly the missing parties; a missing-signature finding exists iff some party is missing |
| Verification.QuantityConditions | backend/app/services/verification.py:118-128 | a quantity mismatch is reported iff a received quantity is recorded and differs; it carries sent minus received as missing units |
| Verification.ScanConditions | backend/app/services/verification.py:130-147 | a scan finding for a party is reported iff some item lacks that party's scan |
| Verification.TimeConditions | backend/app/services/verification.py:149-180 | late pickup iff pickup came more than 24 h after creation; extended transit iff delivery came more than 48 h after pickup |
| Verification.PendingAlertFor | backend/app/services/verification.py:215-251 | a stalled alert (warning) iff `created` and older than 24 h; an overdue alert (critical) iff `picked_up` and picked up more than 48 h ago; it carries the transfer's id and districts |
| Verification.PendingAlerts | backend/app/services/verification.py:204-253 | no more alerts than transfers |
| Verification.DetectPendingAnomalies | backend/app/services/verification.py:204-253 | the scanning loop computes `PendingAlerts` |
| Verification.PendingAlertsSound | backend/app/services/verification.py:204-253 | every alert is the alert of some transfer |
| Verification.PendingAlertsComplete | backend/app/services/verification.py:204-253 | every transfer that calls for an alert gets it |
| Verification.PendingAlertsPerTransfer | backend/app/services/verification.py:204-253 | there are no more alerts for an id than transfers with that id: at most one per transfer |
| Transfers.StatusNameInjective | backend/app/routers/transfers.py:381-412 | different statuses have different names |
| Transfers.ViewOf | backend/app/routers/transfers.py:55-82 | the classifier sees a signature iff the row holds a non-empty one, and the row's quantities |
| Transfers.ScansOf | backend/app/routers/transfers.py:268 | one scan pair per item, taken from that item |
| Transfers.SignedItemsOf | backend/app/routers/transfers.py:305 | one (QR code, quantity) pair per item, in item order |
| Transfers.CreateError | backend/app/routers/transfers.py:156-170 | creation is refused iff a district or the medicine is unknown or the districts are equal; equal known districts give 400 and the rest 404 |
| Transfers.BatchRequests | backend/app/routers/transfers.py:197-214 | the requested batches, or one default batch of the whole quantity when none are given |
| Transfers.NewItem | backend/app/routers/transfers.py:187-194 | a new item belongs to the transfer, has the batch's id and quantity, and is scanned by the sender only |
| Transfers.NewItems | backend/app/routers/transfers.py:179-214 | one new item per batch, in order |
| Transfers.NewRecord | backend/app/routers/transfers.py:216-236 | a new transfer is `created`, keeps the quantity, and is signed by the creator over its new items |
| Transfers.NewRecordConsistent | backend/app/routers/transfers.py:224-236 | a new transfer satisfies the lifecycle invariant |
| Transfers.NewItemsShape | backend/app/routers/transfers.py:175-214 | without requested batches there is exactly one item, holding the whole quantity; every item is scanned by the sender and not by the receiver |
| Transfers.PickedUpRecord | backend/app/routers/transfers.py:316-325 | pickup sets `picked_up`, the pickup time, the transporter and their signature, and an expected delivery 48 h later; every other column is kept |
| Transfers.PickupConsistent | backend/app/routers/transfers.py:316-325 | pickup of a consistent `created` row gives a consistent row |
| Transfers.ConditionUnmatched | backend/app/routers/transfers.py:366-369 | an item's condition changes only when some entry names its QR code |
| Transfers.ConditionLastMatch | backend/app/routers/transfers.py:366-369 | the last matching entry decides the condition: "good" when it has no condition key, none when the condition is null, the given text otherwise |
| Transfers.DeliveredCriticals | backend/app/routers/transfers.py:390-394 | after delivery all three have signed, and the only possible critical finding is the quantity mismatch |
| Transfers.VerdictWithoutCritical | backend/app/routers/transfers.py:396-412 | with no critical finding the verdict stores hash and validity and sets `verified` |
| Transfers.VerdictWithCritical | backend/app/routers/transfers.py:401-408 | with a critical finding the verdict sets `disputed` with that finding's type and message |
| Transfers.DeliveredVerification | backend/app/routers/transfers.py:390-399 | the delivery's verification hashes the three signatures and is valid iff the quantities agree |
| Transfers.DeliveryVerdict | backend/app/routers/transfers.py:380-412 | the delivered row equals its written-out form: `verified` when the quantities agree, `disputed` with the mismatch otherwise |
| Transfers.DeliveredConsistent | backend/app/routers/transfers.py:380-412 | the delivered row satisfies the lifecycle invariant |
| Transfers.DeliveryOutcome | backend/app/routers/transfers.py:380-412 | after delivery the status is `verified` iff the quantities agree and `disputed` otherwise; `is_verified` and `has_discrepancy` follow the status, so they are never both true |
| Transfers.StoredVerdict | backend/app/routers/transfers.py:429-456 | re-verifying a consistent row is valid iff it is `verified`, reproduces its stored hash once delivered, and finds the chain incomplete in transit |
| Transfers.Find | backend/app/routers/transfers.py:258-260 | the position of the row with that id, or none when no row has it |
| Transfers.ItemRowsOf | backend/app/routers/transfers.py:262-264 | exactly the item rows of that transfer are selected |
| Transfers.ReplaceKeepsValid | backend/app/routers/transfers.py:327 | replacing a row with a consistent row of the same id keeps the table valid |
| Transfers.AppendKeepsValid | backend/app/routers/transfers.py:238-241 | adding a consistent row with a new id keeps the table valid |
| Transfers.NewItemRows | backend/app/routers/transfers.py:239-241 | after creation the transfer's items are the earlier ones followed by the new ones |
| Transfers.CreateOutcome | backend/app/routers/transfers.py:147-249 | creation succeeds iff the input is accepted and the id is new; a refusal changes nothing; success appends a `created` row and its items and keeps the table valid |
| Transfers.PickupOutcome | backend/app/routers/transfers.py:284-334 | pickup succeeds iff the transfer exists and is `created`; an unknown id gives 404; any other status gives 400 naming it; a refusal changes nothing; success replaces the row with a `picked_up` row signed by the transporter over its items |
| Transfers.PickupRowAt | backend/app/routers/transfers.py:316-325 | on a found `created` row, pickup returns and stores the picked-up row |
| Transfers.ReceiveItems | backend/app/routers/transfers.py:360-369 | the delivery scan keeps the number of item rows |
| Transfers.ReceivedItemsScanned | backend/app/routers/transfers.py:360-363 | after delivery every item of the transfer is scanned by the receiver |
| Transfers.DeliveryOfOutcome | backend/app/routers/transfers.py:380-426 | the response is `verified` with a valid verification iff the quantities agree, `disputed` otherwise |
| Transfers.DeliverRefused | backend/app/routers/transfers.py:347-352 | delivery succeeds iff the transfer exists and is `picked_up`; unknown id gives 404, a wrong status gives 400, and a refusal changes nothing |
| Transfers.DeliverAt | backend/app/routers/transfers.py:354-412 | on a found `picked_up` row, delivery scans the items and stores the delivered row |
| Transfers.ReceiveItemsEffect | backend/app/routers/transfers.py:360-369 | other transfers' items are untouched; each of this transfer's items is marked received now |
| Transfers.DeliveredRowKeepsValid | backend/app/routers/transfers.py:414 | storing the delivered row keeps the table valid |
| Transfers.DeliverKeepsValid | backend/app/routers/transfers.py:337-414 | delivery, accepted or refused, keeps the table valid |
| Store.ApplyConditions | backend/app/routers/transfers.py:366-369 | the item's condition becomes the one its matching entries leave, all else unchanged |
| Store.MarkReceived | backend/app/routers/transfers.py:360-369 | each item becomes its received form |
| Store.StoreHash | backend/app/routers/transfers.py:396-399 | writes the hash, the validity and the verification time only when valid |
| Store.MarkDisputed | backend/app/routers/transfers.py:404-408 | writes the discrepancy fields and `disputed` |
| Store.SetStatus | backend/app/routers/transfers.py:408-412 | writes the status alone |
| Store.ApplyVerdict | backend/app/routers/transfers.py:396-412 | the object becomes the verdict row |
| Store.RowsOfItems | backend/app/routers/transfers.py:355-357 | selecting item objects by transfer matches selecting their rows |
| Store.AddItems | backend/app/routers/transfers.py:239-240 | creates fresh, distinct item objects holding the given rows |
| Store.PickupAt | backend/app/routers/transfers.py:316-325 | only the picked-up object changes, to its picked-up row |
| Store.AddRows | backend/app/routers/transfers.py:238-241 | the tables gain the new transfer and its items |
| Store.WritePickup | backend/app/routers/transfers.py:316-325 | the object becomes its picked-up row |
| Store.WriteDelivery | backend/app/routers/transfers.py:380-388 | the object becomes its delivered row |
| Store.ScanItems | backend/app/routers/transfers.py:360-369 | the item table becomes its delivery-scanned form; the transfers are untouched |
| Store.DeliverRow | backend/app/routers/transfers.py:380-412 | only the delivered object changes, to the delivery row; the items are untouched |
| Store.DeliverTransfer | backend/app/routers/transfers.py:380-412 | the object becomes the delivery row and the verification is returned |
| Store.CreateTransfer | backend/app/routers/transfers.py:147-249 | the endpoint in place computes `Transfers.Create` and keeps the table valid |
| Store.AddTransfer | backend/app/routers/transfers.py:224-241 | appends the new transfer and its items |
| Store.RecordPickup | backend/app/routers/transfers.py:284-334 | the endpoint in place computes `Transfers.Pickup` and keeps the table valid |
| Store.RecordDelivery | backend/app/routers/transfers.py:337-426 | the endpoint in place computes `Transfers.Deliver` and keeps the table valid |
| Store.DeliverFound | backend/app/routers/transfers.py:354-426 | on a found `picked_up` transfer, the in-place steps compute `Transfers.Deliver` |
| Listings.GetTransfer | backend/app/routers/transfers.py:252-281 | 404 iff the id is unknown; otherwise the row, its items and their verification, which on a consistent table is valid iff `verified` |
| Listings.VerifyStored | backend/app/routers/transfers.py:429-456 | 404 iff the id is unknown; otherwise the stored status and a fresh verification that agrees with it on a consistent table |
| Listings.Selected | backend/app/routers/transfers.py:113-122 | exactly the rows matching every given filter |
| Listings.NegativeLimitPage | backend/app/routers/transfers.py:109-124 | as written, limit −1 returns every row, more than 100 |
| Listings.Page | backend/app/routers/transfers.py:113-125 | the page holds at most `limit` rows |
| Listings.PageMembers | backend/app/routers/transfers.py:113-125 | every row on the page matches the filters |
| Listings.PageOrder | backend/app/routers/transfers.py:113-125 | the page is newest first and no row left off is newer than a row on it |
| Listings.PageComplete | backend/app/routers/transfers.py:124 | when the matches fit, the page holds all of them |
| Listings.CountStatuses | backend/app/routers/transfers.py:131-133 | a status is counted iff some row has it, and its count is the number of such rows |
| Listings.StatusCountsTotal | backend/app/routers/transfers.py:131-133 | the five status counts add up to the number of rows |
| Listings.ListTransfers | backend/app/routers/transfers.py:103-144 | 422 iff the limit is outside 0..100; otherwise the page, its length, status counts over the whole table adding up to its size, and the number of flagged rows |
| Listings.PendingTransfers | backend/app/routers/transfers.py:459-479 | exactly the `created` and `picked_up` rows, oldest first, with the scanner's alerts, no more than the transfers |
| Listings.PendingAlertOfRow | backend/app/services/verification.py:223-251 | a stored row is stalled or overdue exactly by the deadlines, and a row no longer pending is never flagged |
| Listings.Flagged | backend/app/routers/transfers.py:487-491 | exactly the rows with a discrepancy |
| Listings.AnomalousTransfers | backend/app/routers/transfers.py:482-512 | one re-verified entry per flagged row, in order |
| Listings.VerifyAll | backend/app/routers/transfers.py:493-507 | the loop builds one entry per flagged row |
| Listings.VerifyEntry | backend/app/routers/transfers.py:494-502 | one entry: the row, its items and their verification |
| Listings.FlaggedAreDisputed | backend/app/routers/transfers.py:487-491 | on a consistent table the flagged rows are exactly the disputed ones |
| Listings.DisputedFindings | backend/app/routers/transfers.py:482-507 | re-verifying a disputed row reports its critical quantity mismatch with sent minus received missing |
| Listings.MismatchFinding | backend/app/services/verification.py:118-128 | a differing received quantity always yields a critical mismatch with sent minus received missing |
| Forecaster.StockPercentage | backend/app/models/forecaster.py:399 | the percentage is capped at 100 and is the ratio below that |
| Forecaster.ClassifyStock | backend/app/models/forecaster.py:401-406 | critical below 30, warning from 30 below 60, good from 60 |
| Forecaster.FindDistrict | backend/app/routers/recommendations.py:47-48 | the district with that id, or none when no district has it |
| Forecaster.FirstLine | backend/app/models/forecaster.py:443 | the first stock line of the medicine, or none when the district has none |
| Forecaster.SplitStakes | backend/app/models/forecaster.py:441-463 | the loop computes the surplus and deficit lists |
| Forecaster.StakeMembers | backend/app/models/forecaster.py:441-463 | a district is a surplus iff its gap is positive and a deficit iff negative |
| Forecaster.SurplusesAndDeficitsDisjoint | backend/app/models/forecaster.py:450-463 | no district is both a surplus and a deficit of a medicine |
| Forecaster.StakesPositive | backend/app/models/forecaster.py:450-463 | every surplus and deficit amount is positive |
| Forecaster.ServeDeficit | backend/app/models/forecaster.py:471-495 | the inner loop draws down the surpluses in place as `Fill` describes |
| Forecaster.MatchDeficits | backend/app/models/forecaster.py:469-507 | the outer loop computes `Plan` |
| Forecaster.FillConserves | backend/app/models/forecaster.py:479-495 | drawn plus uncovered is the need, and what is drawn is what the surpluses lose |
| Forecaster.FillBounds | backend/app/models/forecaster.py:474-495 | a non-negative need stays non-negative; surpluses keep their districts and only go down, never below zero |
| Forecaster.FillExhausts | backend/app/models/forecaster.py:473-498 | a deficit is left uncovered only when every surplus is drained |
| Forecaster.FillKeepsBefore | backend/app/models/forecaster.py:473-495 | surpluses already passed are untouched |
| Forecaster.FillTransfers | backend/app/models/forecaster.py:479-492 | every transfer is positive, at most the need, from a surplus to the deficit, saving 10 per unit |
| Forecaster.PlanShape | backend/app/models/forecaster.py:469-507 | transfers go from surplus to deficit districts with positive quantities and savings of 10 per unit; orders are positive and for deficit districts |
| Forecaster.PlanCoversDeficits | backend/app/models/forecaster.py:469-507 | transferred plus ordered is the total deficit |
| Forecaster.PlanWithinSurplus | backend/app/models/forecaster.py:469-495 | no more is transferred than the surpluses hold |
| Forecaster.OrdersOnlyWhenDrained | backend/app/models/forecaster.py:497-507 | an order is placed only when every unit of surplus has been transferred |
| Forecaster.PlanPerDistrict | backend/app/models/forecaster.py:469-507 | per district, transferred plus ordered is exactly its deficit |
| Forecaster.OptimizeNetworkTransfers | backend/app/models/forecaster.py:425-509 | the loop over medicines computes `NetworkPlan` |
| Forecaster.PlanNoSelfTransfer | backend/app/models/forecaster.py:469-492 | with disjoint surpluses and deficits no district transfers to itself |
| Forecaster.MedicinePlanNoSelfTransfer | backend/app/models/forecaster.py:441-492 | no medicine plan transfers from a district to itself |
| Forecaster.MedicinePlanCovers | backend/app/models/forecaster.py:465-507 | per district, transferred plus ordered is exactly its deficit of the medicine, whatever order the deficits are served in |
| Forecaster.DemandOfSortBy | backend/app/models/forecaster.py:467 | ordering the deficits largest first leaves each district's demand unchanged |
| Forecaster.NetworkPlanShape | backend/app/models/forecaster.py:425-509 | network transfers are positive, between different districts, saving 10 per unit; orders are positive |
| Forecaster.TransferRecsMembers | backend/app/models/forecaster.py:520-530 | exactly the transfers into the district become recommendations |
| Forecaster.TransferRecsPriority | backend/app/models/forecaster.py:520-530 | transfer recommendations are high priority |
| Forecaster.OrderRecsMembers | backend/app/models/forecaster.py:532-542 | exactly the orders for the district become recommendations |
| Forecaster.OrderRecsPriority | backend/app/models/forecaster.py:532-542 | order recommendations are urgent |
| Forecaster.AlertRecs | backend/app/models/forecaster.py:544-552 | one urgent alert iff the level is red |
| Forecaster.TransfersInto | backend/app/models/forecaster.py:520-530 | the loop computes the transfer recommendations |
| Forecaster.OrdersFor | backend/app/models/forecaster.py:532-542 | the loop computes the order recommendations |
| Forecaster.GetRecommendations | backend/app/models/forecaster.py:511-554 | the method computes the district's recommendations from the network plan |
| Forecaster.ScoreTextBelowHalf | backend/app/models/forecaster.py:550 | a score of 0.745 (from `round(score, 3)`) shows as "0.74", its double lying below the half |
| Forecaster.ScoreTextAboveHalf | backend/app/models/forecaster.py:550 | a score of 0.785 shows as "0.79", its double lying above the half |
| Forecaster.RecommendationsByPriority | backend/app/models/forecaster.py:554 | sorted by priority; the urgent ones are the orders then the alert, the high ones the transfers, each in its order, and nothing is lost |
| Forecaster.GroupsByPriority | backend/app/models/forecaster.py:554 | a stable sort keeps each priority group in its original order |
| Forecaster.SurgeAlertIffRed | backend/app/models/forecaster.py:544-552 | there is an alert recommendation iff the level is red |
| Recommendations.GetNetworkOptimization | backend/app/routers/recommendations.py:13-34 | the network plan, with transfer and order counts and total savings |
| Recommendations.NetworkSavings | backend/app/routers/recommendations.py:23 | savings are 10 per unit transferred, so at least 10 per transfer |
| Recommendations.GetDistrictRecommendations | backend/app/routers/recommendations.py:42-59 | 404 iff the district is unknown; otherwise its recommendations, their count and the urgent count |
| Recommendations.UrgentCount | backend/app/routers/recommendations.py:57 | the urgent count is the district's orders plus one when red |
| Recommendations.LastLine | backend/app/routers/recommendations.py:149-158 | a stock line of the medicine with no later line of it (the last one wins), or none when the district has no line of it |
| Recommendations.FirstCover | backend/app/routers/recommendations.py:168-169 | the first surplus covering the whole gap, or none when none does |
| Recommendations.Candidates | backend/app/routers/recommendations.py:157-164 | the loop collects the deficit and surplus candidates |
| Recommendations.MatchCandidates | backend/app/routers/recommendations.py:167-178 | the nested loop pairs each deficit with the first covering surplus |
| Recommendations.GetSuggestedTransfers | backend/app/routers/recommendations.py:133-183 | the first 10 suggestions |
| Recommendations.SuggestionsSound | backend/app/routers/recommendations.py:167-178 | at most one suggestion per deficit, urgent, for the whole gap from a surplus holding at least that much |
| Recommendations.NoSuggestionsWhenCapped | backend/app/routers/recommendations.py:161 | with stock percentages capped at 100 there are no suggestions |
| Recommendations.NoSurplusCandidates | backend/app/routers/recommendations.py:161-164 | with stock percentages capped at 100 no district is a surplus candidate |
| Stock.GetStateStockOverview | backend/app/routers/stock.py:16-66 | totals by status, per-district overviews, and readiness as the float `int((good / total) * 100)` of the totals |
| Stock.OverallStatusOfLines | backend/app/routers/stock.py:37-43 | critical iff some line is critical; warning iff none is critical and some is warning; good iff all are good |
| Stock.TotalsCoverEveryLine | backend/app/routers/stock.py:29-35 | the three totals add up to the number of lines |
| Stock.FloorPercentageBounds | backend/app/routers/stock.py:53-55 | the exact percentage rounded down, which readiness stands for, is in 0..100, 100 iff all are good, 0 with none good |
| Stock.ReadinessEnds | backend/app/routers/stock.py:54-55 | the float readiness is 0 with no good line and 100 when every line is good, for every total |
| Stock.ReadinessBelowFloor | backend/app/routers/stock.py:55 | the float readiness of 29 of 100 is 28 and of 57 of 100 is 56, one below the exact percentage |
| Stock.ResultsHoldEveryDistrict | backend/app/routers/stock.py:45-51 | every district appears under its id with its own overview |
| Stock.GetDistrictStock | backend/app/routers/stock.py:69-93 | 404 iff unknown; otherwise the lines sorted by status with their counts |
| Stock.DistrictStockOrder | backend/app/routers/stock.py:79-91 | lines are critical, warning, good, a stable permutation, with counts that add up |
| Stock.GetAllStockGaps | backend/app/routers/stock.py:96-127 | the gaps sorted by days to stock-out, and their number |
| Stock.LineGapsMembers | backend/app/routers/stock.py:106-118 | a gap entry iff a line has a negative stock gap, reported as positive |
| Stock.LineGapsCount | backend/app/routers/stock.py:106-118 | one gap per line with a negative stock gap |
| Stock.TotalGaps | backend/app/routers/stock.py:123-124 | the total is the number of lines with a negative gap |
| Stock.GapsListed | backend/app/routers/stock.py:101-125 | exactly the negative-gap lines, as positive gaps, soonest stock-out first |
| Stock.GapsMembers | backend/app/routers/stock.py:103-118 | a gap iff some district's line has a negative stock gap |
| Alerts.AlertTitle | backend/app/routers/alerts.py:140-146 | the title ends with the district name |
| Alerts.TitlesTellLevelsApart | backend/app/routers/alerts.py:140-146 | the three levels give three different titles |
| Alerts.AnomalyMessages | backend/app/routers/alerts.py:159-160 | one part per anomaly, its message |
| Alerts.MessageFallsBack | backend/app/routers/alerts.py:149-162 | the default text iff no signal crosses its threshold and there is no anomaly; otherwise the message starts with the first part |
| Alerts.RecommendedActions | backend/app/routers/alerts.py:165-183 | 4 actions for red, 3 for orange, 2 otherwise |
| Alerts.GetAllAlerts | backend/app/routers/alerts.py:17-58 | the raised alerts sorted by severity, their count and the per-level summary |
| Alerts.AlertedMembers | backend/app/routers/alerts.py:26-30 | a district is alerted iff it passes the filter and is red, orange or yellow |
| Alerts.AlertsCarryLevels | backend/app/routers/alerts.py:31-35 | each alert carries a selected district's id and level |
| Alerts.AlertsFiltered | backend/app/routers/alerts.py:26-48 | every alert is at an alert level that passes the filter; red before orange before yellow, stable within a level |
| Alerts.AlertCount | backend/app/routers/alerts.py:50-51 | the count is the number of districts that pass |
| Alerts.SummaryAddsUp | backend/app/routers/alerts.py:52-56 | the three level counts add up to the count |
| Text.NatToStringRoundTrip | backend/app/models/forecaster.py:527 | decimal text reads back as the same number |
| Text.IntToStringInjective | backend/app/services/verification.py:126 | different integers print differently |
| Text.JoinSnoc | backend/app/routers/alerts.py:162 | joining one more part appends the separator and the part |
| Text.Prefix | backend/app/services/verification.py:37 | slicing `[:n]` gives the first n characters, or all of them |
| Text.Upper | backend/app/services/verification.py:37 | upper-casing maps each character |
| Text.LexLessTotal | backend/app/services/verification.py:58-61 | two different strings are ordered one way or the other |
| Text.JsonString | backend/app/services/verification.py:71 | a JSON string is quoted |
| Lists.SortBy | backend/app/routers/stock.py:81 | the sort is a sorted permutation |
| Lists.SortByStable | backend/app/routers/stock.py:81 | elements with equal keys keep their order |
| Lists.Take | backend/app/routers/recommendations.py:181 | `[:n]` keeps the first n elements |

## Left out

- Hashing, UUIDs and the clock: SHA-256 is the parameter `h`, the UUID hex text and each request's clock reading are parameters. One reading serves a whole request, where the code reads the clock several times. Timestamps have no microseconds.
- Verification.CreateSignature: its contract gives the digest's shape only; what the digest is taken over (party, transfer id, items sorted by QR code, timestamp, photo hash, as `json.dumps` with sorted keys) is its body, and `SignatureIgnoresItemOrder` proves the order independence from it.
- Verification.GenerateBatchQr: states the format only, since the code is a hash prefix.
- Time.HoursText: the contract gives the length only; the value follows Python's two roundings (the quotient to the nearest double, then that double to tenths, a tie to the even digit), and `HoursTextTie` and `HoursTextBelowTie` prove two values where this differs from rounding the exact quotient. The hour comparisons (`> 24`, `> 48`) are made on whole seconds, which agrees with the float comparison for whole-second durations.
- Time.IsoFormat, Time.IsoDate, Time.CompactDate, Time.CompactDateTime: the contracts give lengths only; the calendar arithmetic is modelled but not proved against a reference.
- Transfers.ItemCondition: a "condition" or "qr_code" value that is neither a string nor null (a number, a list, an object) is not modelled; the code would store or compare it as it is.
- Alerts.RecommendedActions: the contract gives the number of actions per level, not their wording.
- Alerts.AlertTitle: the title keeps the file's literal mis-decoded emoji characters.
- Stock.Readiness: the float value is modelled exactly; beyond both ends (`ReadinessEnds`) and the worked values (`ReadinessBelowFloor`), no general bound against the exact percentage `FloorPercentage` is proved.
- Float values from the forecaster are inputs: risk level and score (`calculate_risk_score`), anomalies (`detect_anomalies`), stock gap, days to stock-out and stock ratio (`get_stock_status`, except its lines 398-406, which are modelled). Signals and scores are thousandths, as the code rounds them to three decimals; the surge reason prints the score with `.2f` from its double (`Forecaster.ScoreText`).
- `simulate_scenario`, the signals and timeline endpoints of the alerts router, the `_describe_*` helpers, and the forecast router: float heuristics and wrappers, not part of this model.
- The `district_status` risk level in `get_suggested_transfers` is computed but never used, so it is not modelled.
- GPS coordinates are only copied through, and photo hashing (`hash_photo`) is never called by the endpoints: neither is modelled.
- Database sessions, commits and concurrency: a table is a sequence in insertion order; a request runs alone. The listing's tie order between rows created at the same second is the stable order of the sort, not SQLite's. A duplicate transfer id, which the database would reject with a server error, is a refusal here.
- Listings.ListTransfers: the corrected endpoint refuses a negative limit with 422; the code as written does not (see Findings and `Listings.NegativeLimitPage`).

## Findings

| source | as written | input that shows it | evidently intended | confidence | as-written member | corrected member |
|---|---|---|---|---|---|---|
| backend/app/routers/transfers.py:109-124 | `limit` is declared with `le=100` only, and SQLite reads a negative LIMIT as no limit | `GET /transfers?limit=-1` on a table of more than 100 transfers returns all of them | a page of at most 100 rows, the limit checked as 0..100 | not executed | Listings.NegativeLimitPage | Listings.ListTransfers |
