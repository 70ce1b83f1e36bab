/** The planning side of the forecaster: how a stock line is graded, the
    network planner that matches each medicine's surplus districts to its
    deficit districts before ordering, and the recommendations one district
    receives from that plan. The figures a stock line carries (current stock,
    demand forecast, gap, days until stock-out) come from the demand model
    and are inputs here. */
module Forecaster {
  import opened Wrappers
  import opened Text
  import opened Time
  import opened Lists
  import opened Floats

  // ---------------------------------------------------------------------------
  // Grading one stock line (get_stock_status)

  datatype StockStatus = Critical | Warning | Good

  /** The status text of a stock line. */
  function StatusText(s: StockStatus): string
  {
    match s
    case Critical => "critical"
    case Warning => "warning"
    case Good => "good"
  }

  /** `min(100, int(current_stock / max(order_point, 1) * 100))`, from the
      truncated ratio `ratio` (the percentage before the cap). */
  function StockPercentage(ratio: int): (p: int)
    ensures p <= 100
    ensures p <= ratio && (p < ratio ==> p == 100)
  {
    if ratio < 100 then ratio else 100
  }

  /** The grade of a percentage: critical below 30, warning below 60, else good. */
  function ClassifyStock(p: int): (s: StockStatus)
    ensures s == Critical <==> p < 30
    ensures s == Warning <==> 30 <= p < 60
    ensures s == Good <==> 60 <= p
  {
    if p < 30 then Critical
    else if p < 60 then Warning
    else Good
  }

  /** One line of `get_stock_status`. */
  datatype StockItem = StockItem(
    medicineId: string,
    medicineName: string,
    currentStock: int,
    safetyStock: int,
    predicted14dDemand: int,
    demandUncertainty: int,
    orderPoint: int,
    stockGap: int,
    daysUntilStockout: int,
    stockPercentage: int,
    status: StockStatus,
    daysUntilExpiry: int)

  /** A line graded as `get_stock_status` grades it. */
  predicate Graded(s: StockItem)
  {
    s.stockPercentage <= 100 && s.status == ClassifyStock(s.stockPercentage)
  }

  /** The grade of a line built from the truncated ratio: the percentage never
      exceeds 100, and a ratio at or above 60 is good however far above 100
      it goes. */
  lemma GradeOfRatio(ratio: int)
    ensures var p := StockPercentage(ratio);
      p <= 100 && (ClassifyStock(p) == Good <==> ratio >= 60)
      && (ClassifyStock(p) == Critical <==> ratio < 30)
  {
  }

  // ---------------------------------------------------------------------------
  // Surpluses and deficits of one medicine

  datatype Medicine = Medicine(id: string, name: string)

  /** A district with the lines `get_stock_status` reports for it. */
  datatype DistrictStock = DistrictStock(id: string, name: string, lines: seq<StockItem>)

  /** District ids are dictionary keys: no two districts share one. */
  predicate DistinctDistricts(ds: seq<DistrictStock>)
  {
    forall i, j :: 0 <= i < j < |ds| ==> ds[i].id != ds[j].id
  }

  /** The district with id `id`, if there is one. */
  function FindDistrict(ds: seq<DistrictStock>, id: string): (r: Option<DistrictStock>)
    ensures r.Some? ==> r.value in ds && r.value.id == id
    ensures r.None? ==> forall i :: 0 <= i < |ds| ==> ds[i].id != id
  {
    if ds == [] then None
    else if ds[0].id == id then Some(ds[0])
    else FindDistrict(ds[1..], id)
  }

  /** The 404 for an unknown district id. */
  function DistrictNotFound(id: string): ApiError
  {
    ApiError(404, "District " + id + " not found")
  }

  /** `next((s for s in lines if s['medicine_id'] == med), None)`. */
  function FirstLine(lines: seq<StockItem>, med: string): (r: Option<StockItem>)
    ensures r.Some? ==> exists i :: 0 <= i < |lines| && lines[i] == r.value && r.value.medicineId == med
                                   && forall j :: 0 <= j < i ==> lines[j].medicineId != med
    ensures r.None? ==> forall i :: 0 <= i < |lines| ==> lines[i].medicineId != med
  {
    if lines == [] then None
    else if lines[0].medicineId == med then Some(lines[0])
    else
      var r := FirstLine(lines[1..], med);
      assert r.Some? ==> exists i :: 0 <= i < |lines[1..]| && lines[1..][i] == r.value
                                    && forall j :: 0 <= j < i ==> lines[1..][j].medicineId != med;
      if r.Some? then
        var i :| 0 <= i < |lines[1..]| && lines[1..][i] == r.value
                 && forall j :: 0 <= j < i ==> lines[1..][j].medicineId != med;
        assert lines[i + 1] == r.value;
        assert forall j :: 0 <= j < i + 1 ==> lines[j].medicineId != med by {
          forall j | 0 <= j < i + 1 ensures lines[j].medicineId != med {
            if j > 0 {
              assert lines[j] == lines[1..][j - 1];
            }
          }
        }
        r
      else
        r
  }

  /** A district's share of one medicine: its district and an amount. */
  datatype Stake = Stake(districtId: string, districtName: string, amount: int)

  /** The stock gap of the district's line for `med`, if it has one. */
  function GapOf(d: DistrictStock, med: string): Option<int>
  {
    match FirstLine(d.lines, med)
    case Some(line) => Some(line.stockGap)
    case None => None
  }

  /** A positive gap makes the district a surplus of that size. */
  function SurplusStake(d: DistrictStock, med: string): Option<Stake>
  {
    match GapOf(d, med)
    case Some(gap) => if gap > 0 then Some(Stake(d.id, d.name, gap)) else None
    case None => None
  }

  /** A negative gap makes the district a deficit of its absolute size. */
  function DeficitStake(d: DistrictStock, med: string): Option<Stake>
  {
    match GapOf(d, med)
    case Some(gap) => if gap < 0 then Some(Stake(d.id, d.name, -gap)) else None
    case None => None
  }

  /** The stakes `f` gives the districts, in district order. */
  function Collect(ds: seq<DistrictStock>, f: DistrictStock -> Option<Stake>): seq<Stake>
  {
    if ds == [] then []
    else
      var last := f(ds[|ds| - 1]);
      Collect(ds[..|ds| - 1], f) + (if last.Some? then [last.value] else [])
  }

  /** Nothing is collected where `f` gives nothing. */
  lemma {:induction false} CollectNone(ds: seq<DistrictStock>, f: DistrictStock -> Option<Stake>)
    requires forall i :: 0 <= i < |ds| ==> f(ds[i]).None?
    ensures Collect(ds, f) == []
  {
    if ds != [] {
      CollectNone(ds[..|ds| - 1], f);
    }
  }

  /** The surpluses of `med`, in district order. */
  function Surpluses(ds: seq<DistrictStock>, med: string): seq<Stake>
  {
    Collect(ds, (d: DistrictStock) => SurplusStake(d, med))
  }

  /** The deficits of `med`, in district order. */
  function Deficits(ds: seq<DistrictStock>, med: string): seq<Stake>
  {
    Collect(ds, (d: DistrictStock) => DeficitStake(d, med))
  }

  /** The loop over the districts that sorts each one's gap for `med` into
      the surplus list, the deficit list or neither. */
  method SplitStakes(ds: seq<DistrictStock>, med: string) returns (surpluses: seq<Stake>, deficits: seq<Stake>)
    ensures surpluses == Surpluses(ds, med) && deficits == Deficits(ds, med)
  {
    surpluses, deficits := [], [];
    for i := 0 to |ds|
      invariant surpluses == Surpluses(ds[..i], med) && deficits == Deficits(ds[..i], med)
    {
      assert ds[..i + 1][..i] == ds[..i];
      var line := FirstLine(ds[i].lines, med);
      if line.None? {
        continue;
      }
      var gap := line.value.stockGap;
      if gap > 0 {
        surpluses := surpluses + [Stake(ds[i].id, ds[i].name, gap)];
      } else if gap < 0 {
        deficits := deficits + [Stake(ds[i].id, ds[i].name, -gap)];
      }
    }
    assert ds[..|ds|] == ds;
  }

  /** The surpluses are exactly the stakes of the districts with a positive
      gap, and the deficits those of the districts with a negative gap; a
      zero gap, or no line at all, puts a district in neither list. */
  lemma StakeMembers(ds: seq<DistrictStock>, med: string)
    ensures forall s :: s in Surpluses(ds, med) <==>
              exists i :: 0 <= i < |ds| && SurplusStake(ds[i], med) == Some(s)
    ensures forall s :: s in Deficits(ds, med) <==>
              exists i :: 0 <= i < |ds| && DeficitStake(ds[i], med) == Some(s)
  {
    CollectMembers(ds, (d: DistrictStock) => SurplusStake(d, med));
    CollectMembers(ds, (d: DistrictStock) => DeficitStake(d, med));
  }

  lemma {:induction false} CollectMembers(ds: seq<DistrictStock>, f: DistrictStock -> Option<Stake>)
    ensures forall s :: s in Collect(ds, f) <==> exists i :: 0 <= i < |ds| && f(ds[i]) == Some(s)
  {
    if ds != [] {
      var init := ds[..|ds| - 1];
      CollectMembers(init, f);
      forall s ensures s in Collect(ds, f) <==> exists i :: 0 <= i < |ds| && f(ds[i]) == Some(s) {
        if exists i :: 0 <= i < |ds| && f(ds[i]) == Some(s) {
          var i :| 0 <= i < |ds| && f(ds[i]) == Some(s);
          if i < |init| {
            assert init[i] == ds[i];
          }
        }
        if s in Collect(init, f) {
          var i :| 0 <= i < |init| && f(init[i]) == Some(s);
          assert ds[i] == init[i];
        }
      }
    }
  }

  /** With distinct district ids, no district is both a surplus and a
      deficit of the same medicine. */
  lemma SurplusesAndDeficitsDisjoint(ds: seq<DistrictStock>, med: string)
    requires DistinctDistricts(ds)
    ensures forall s, d :: s in Surpluses(ds, med) && d in Deficits(ds, med) ==> s.districtId != d.districtId
  {
    StakeMembers(ds, med);
    forall s, d | s in Surpluses(ds, med) && d in Deficits(ds, med) ensures s.districtId != d.districtId {
      var i :| 0 <= i < |ds| && SurplusStake(ds[i], med) == Some(s);
      var k :| 0 <= k < |ds| && DeficitStake(ds[k], med) == Some(d);
      assert s.districtId == ds[i].id && d.districtId == ds[k].id;
    }
  }

  // ---------------------------------------------------------------------------
  // The greedy matcher of one medicine (optimize_network_transfers)

  /** A planned transfer; its action is always "TRANSFER" and its priority "high". */
  datatype NetTransfer = NetTransfer(
    medicineId: string,
    medicineName: string,
    fromDistrict: string,
    fromDistrictId: string,
    toDistrict: string,
    toDistrictId: string,
    quantity: int,
    costSaved: int)

  /** A planned order; its action is always "ORDER" and its priority "urgent". */
  datatype NetOrder = NetOrder(
    medicineId: string,
    medicineName: string,
    district: string,
    districtId: string,
    quantity: int)

  /** A transfer of `q` units of `m` from surplus `s` to deficit `d`, saving
      10 per unit against procurement. */
  function Draw(m: Medicine, s: Stake, d: Stake, q: int): NetTransfer
  {
    NetTransfer(m.id, m.name, s.districtName, s.districtId, d.districtName, d.districtId, q, q * 10)
  }

  function OrderOf(m: Medicine, d: Stake, q: int): NetOrder
  {
    NetOrder(m.id, m.name, d.districtName, d.districtId, q)
  }

  function Min(a: int, b: int): int { if a <= b then a else b }

  /** The sort key of `sort(key=lambda x: -x['surplus'])` and of the deficits. */
  function LargestFirst(s: Stake): int { -s.amount }

  /** The state after one deficit's pass over the surpluses: the transfers it
      drew, the surpluses with what is left of each, and the deficit still
      uncovered. */
  datatype Filled = Filled(transfers: seq<NetTransfer>, surpluses: seq<Stake>, remaining: int)

  /** The pass of deficit `d`, with `need` units still uncovered, over the
      surpluses from position `j` on: it stops once nothing is needed, skips
      an exhausted surplus, and otherwise draws the smaller of the need and
      the surplus. */
  function Fill(m: Medicine, d: Stake, need: int, ss: seq<Stake>, j: nat): (r: Filled)
    requires j <= |ss|
    ensures |r.surpluses| == |ss|
    decreases |ss| - j
  {
    if j == |ss| || need <= 0 then Filled([], ss, need)
    else if ss[j].amount <= 0 then Fill(m, d, need, ss, j + 1)
    else
      var q := Min(need, ss[j].amount);
      var rest := Fill(m, d, need - q, ss[j := ss[j].(amount := ss[j].amount - q)], j + 1);
      Filled([Draw(m, ss[j], d, q)] + rest.transfers, rest.surpluses, rest.remaining)
  }

  /** The plan of one medicine: the deficits in turn, each drawing on what
      the earlier ones left of the surpluses, and an order for whatever a
      deficit still lacks. */
  datatype NetPlan = NetPlan(transfers: seq<NetTransfer>, orders: seq<NetOrder>)

  function Plan(m: Medicine, ds: seq<Stake>, ss: seq<Stake>): NetPlan
    decreases |ds|
  {
    if ds == [] then NetPlan([], [])
    else
      var f := Fill(m, ds[0], ds[0].amount, ss, 0);
      var rest := Plan(m, ds[1..], f.surpluses);
      NetPlan(f.transfers + rest.transfers,
              (if f.remaining > 0 then [OrderOf(m, ds[0], f.remaining)] else []) + rest.orders)
  }

  /** The inner loop: one deficit's pass over the surpluses, drawing each
      surplus down in place. */
  method ServeDeficit(m: Medicine, d: Stake, surpluses: seq<Stake>)
    returns (drawn: seq<NetTransfer>, left: seq<Stake>, remaining: int)
    ensures Filled(drawn, left, remaining) == Fill(m, d, d.amount, surpluses, 0)
  {
    drawn, left, remaining := [], surpluses, d.amount;
    var j := 0;
    while j < |left|
      invariant j <= |left| == |surpluses|
      invariant Fill(m, d, d.amount, surpluses, 0) == After(drawn, Fill(m, d, remaining, left, j))
      decreases |left| - j
    {
      if remaining <= 0 {
        break;
      }
      if left[j].amount <= 0 {
        j := j + 1;
        continue;
      }
      var q := Min(remaining, left[j].amount);
      ghost var rest := Fill(m, d, remaining - q, left[j := left[j].(amount := left[j].amount - q)], j + 1);
      assert drawn + ([Draw(m, left[j], d, q)] + rest.transfers) == (drawn + [Draw(m, left[j], d, q)]) + rest.transfers;
      drawn := drawn + [Draw(m, left[j], d, q)];
      left := left[j := left[j].(amount := left[j].amount - q)];
      remaining := remaining - q;
      j := j + 1;
    }
  }

  /** `f` after the transfers already drawn. */
  function After(drawn: seq<NetTransfer>, f: Filled): Filled
  {
    Filled(drawn + f.transfers, f.surpluses, f.remaining)
  }

  /** The outer loop over the deficits of one medicine. */
  method MatchDeficits(m: Medicine, deficits: seq<Stake>, surpluses: seq<Stake>)
    returns (transfers: seq<NetTransfer>, orders: seq<NetOrder>)
    ensures NetPlan(transfers, orders) == Plan(m, deficits, surpluses)
  {
    transfers, orders := [], [];
    var left := surpluses;
    for k := 0 to |deficits|
      invariant Plan(m, deficits, surpluses)
                == NetPlan(transfers + Plan(m, deficits[k..], left).transfers,
                           orders + Plan(m, deficits[k..], left).orders)
    {
      var d := deficits[k];
      assert deficits[k..][1..] == deficits[k + 1..];
      var drawn, rest, remaining := ServeDeficit(m, d, left);
      ghost var later := Plan(m, deficits[k + 1..], rest);
      assert transfers + (drawn + later.transfers) == (transfers + drawn) + later.transfers;
      transfers := transfers + drawn;
      if remaining > 0 {
        assert orders + ([OrderOf(m, d, remaining)] + later.orders) == (orders + [OrderOf(m, d, remaining)]) + later.orders;
        orders := orders + [OrderOf(m, d, remaining)];
      }
      left := rest;
    }
  }

  // ---------------------------------------------------------------------------
  // What the matcher guarantees

  /** The units a list of transfers moves. */
  function SumQty(ts: seq<NetTransfer>): int
  {
    if ts == [] then 0 else ts[0].quantity + SumQty(ts[1..])
  }

  /** The units a list of orders procures. */
  function SumOrdered(os: seq<NetOrder>): int
  {
    if os == [] then 0 else os[0].quantity + SumOrdered(os[1..])
  }

  /** The total amount of a list of stakes. */
  function Amounts(ss: seq<Stake>): int
  {
    if ss == [] then 0 else ss[0].amount + Amounts(ss[1..])
  }

  /** The units the transfers move into district `id`. */
  function QtyTo(ts: seq<NetTransfer>, id: string): int
  {
    if ts == [] then 0 else (if ts[0].toDistrictId == id then ts[0].quantity else 0) + QtyTo(ts[1..], id)
  }

  /** The units the orders procure for district `id`. */
  function OrderedFor(os: seq<NetOrder>, id: string): int
  {
    if os == [] then 0 else (if os[0].districtId == id then os[0].quantity else 0) + OrderedFor(os[1..], id)
  }

  lemma {:induction false} SumQtyAppend(a: seq<NetTransfer>, b: seq<NetTransfer>)
    ensures SumQty(a + b) == SumQty(a) + SumQty(b)
    ensures forall id :: QtyTo(a + b, id) == QtyTo(a, id) + QtyTo(b, id)
  {
    if a != [] {
      assert (a + b)[1..] == a[1..] + b;
      SumQtyAppend(a[1..], b);
    } else {
      assert a + b == b;
    }
  }

  lemma {:induction false} AmountsUpdate(ss: seq<Stake>, j: nat, x: Stake)
    requires j < |ss|
    ensures Amounts(ss[j := x]) == Amounts(ss) - ss[j].amount + x.amount
  {
    if j > 0 {
      AmountsUpdate(ss[1..], j - 1, x);
      assert ss[j := x][1..] == ss[1..][j - 1 := x];
    }
  }

  /** One deficit's pass conserves units: what it draws plus what stays
      uncovered is what it needed, and what it draws is exactly what the
      surpluses lose. */
  lemma {:induction false} FillConserves(m: Medicine, d: Stake, need: int, ss: seq<Stake>, j: nat)
    requires j <= |ss|
    ensures var r := Fill(m, d, need, ss, j);
      SumQty(r.transfers) + r.remaining == need
      && Amounts(ss) - Amounts(r.surpluses) == SumQty(r.transfers)
    decreases |ss| - j
  {
    if j == |ss| || need <= 0 {
    } else if ss[j].amount <= 0 {
      FillConserves(m, d, need, ss, j + 1);
    } else {
      var q := Min(need, ss[j].amount);
      var ss' := ss[j := ss[j].(amount := ss[j].amount - q)];
      FillConserves(m, d, need - q, ss', j + 1);
      AmountsUpdate(ss, j, ss[j].(amount := ss[j].amount - q));
      var rest := Fill(m, d, need - q, ss', j + 1);
      assert ([Draw(m, ss[j], d, q)] + rest.transfers)[1..] == rest.transfers;
    }
  }

  /** No surplus is drawn below zero and no deficit past its need; the
      surpluses keep their districts, only their amounts go down. */
  lemma {:induction false} FillBounds(m: Medicine, d: Stake, need: int, ss: seq<Stake>, j: nat)
    requires j <= |ss|
    ensures var r := Fill(m, d, need, ss, j);
      (need >= 0 ==> r.remaining >= 0)
      && forall i :: 0 <= i < |ss| ==>
           r.surpluses[i].districtId == ss[i].districtId && r.surpluses[i].districtName == ss[i].districtName
           && r.surpluses[i].amount <= ss[i].amount
           && (r.surpluses[i].amount < ss[i].amount ==> r.surpluses[i].amount >= 0)
    decreases |ss| - j
  {
    if j == |ss| || need <= 0 {
    } else if ss[j].amount <= 0 {
      FillBounds(m, d, need, ss, j + 1);
    } else {
      var q := Min(need, ss[j].amount);
      FillBounds(m, d, need - q, ss[j := ss[j].(amount := ss[j].amount - q)], j + 1);
    }
  }

  /** A deficit is left uncovered only when every surpluses it could still
      reach is exhausted: orders come only after transfers. */
  lemma {:induction false} FillExhausts(m: Medicine, d: Stake, need: int, ss: seq<Stake>, j: nat)
    requires j <= |ss|
    ensures var r := Fill(m, d, need, ss, j);
      r.remaining > 0 ==> forall i :: j <= i < |ss| ==> r.surpluses[i].amount <= 0
    decreases |ss| - j
  {
    if j == |ss| || need <= 0 {
    } else if ss[j].amount <= 0 {
      FillExhausts(m, d, need, ss, j + 1);
      FillKeepsBefore(m, d, need, ss, j + 1);
    } else {
      var q := Min(need, ss[j].amount);
      var ss' := ss[j := ss[j].(amount := ss[j].amount - q)];
      FillExhausts(m, d, need - q, ss', j + 1);
      FillKeepsBefore(m, d, need - q, ss', j + 1);
    }
  }

  /** A pass from position `j` leaves the surpluses before `j` alone. */
  lemma {:induction false} FillKeepsBefore(m: Medicine, d: Stake, need: int, ss: seq<Stake>, j: nat)
    requires j <= |ss|
    ensures forall i :: 0 <= i < j ==> Fill(m, d, need, ss, j).surpluses[i] == ss[i]
    decreases |ss| - j
  {
    if j == |ss| || need <= 0 {
    } else if ss[j].amount <= 0 {
      FillKeepsBefore(m, d, need, ss, j + 1);
    } else {
      var q := Min(need, ss[j].amount);
      FillKeepsBefore(m, d, need - q, ss[j := ss[j].(amount := ss[j].amount - q)], j + 1);
    }
  }

  /** Every transfer of the pass moves a positive quantity of `m`, no more
      than was needed, from one of the surpluses to `d`, and saves 10 per
      unit. */
  lemma {:induction false} FillTransfers(m: Medicine, d: Stake, need: int, ss: seq<Stake>, j: nat)
    requires j <= |ss|
    ensures forall t :: t in Fill(m, d, need, ss, j).transfers ==>
              0 < t.quantity <= need && t.costSaved == 10 * t.quantity && t.medicineId == m.id
              && t.toDistrictId == d.districtId
              && exists i :: j <= i < |ss| && t.fromDistrictId == ss[i].districtId
    decreases |ss| - j
  {
    if j == |ss| || need <= 0 {
    } else if ss[j].amount <= 0 {
      FillTransfers(m, d, need, ss, j + 1);
    } else {
      var q := Min(need, ss[j].amount);
      var ss' := ss[j := ss[j].(amount := ss[j].amount - q)];
      FillTransfers(m, d, need - q, ss', j + 1);
      forall t | t in Fill(m, d, need - q, ss', j + 1).transfers
        ensures exists i :: j <= i < |ss| && t.fromDistrictId == ss[i].districtId
      {
        var i :| j + 1 <= i < |ss'| && t.fromDistrictId == ss'[i].districtId;
        assert ss'[i] == ss[i];
      }
    }
  }

  /** The units the deficits in `ds` ask for on behalf of district `id`. */
  function DemandOf(ds: seq<Stake>, id: string): int
  {
    if ds == [] then 0 else (if ds[0].districtId == id then ds[0].amount else 0) + DemandOf(ds[1..], id)
  }

  lemma {:induction false} DemandOfInsert(x: Stake, ds: seq<Stake>, id: string)
    ensures DemandOf(Insert(x, ds, LargestFirst), id) == (if x.districtId == id then x.amount else 0) + DemandOf(ds, id)
  {
    if ds == [] || LargestFirst(x) <= LargestFirst(ds[0]) {
      assert ([x] + ds)[1..] == ds;
    } else {
      DemandOfInsert(x, ds[1..], id);
      assert ([ds[0]] + Insert(x, ds[1..], LargestFirst))[1..] == Insert(x, ds[1..], LargestFirst);
    }
  }

  /** Ordering the deficits largest first does not change what a district asks for. */
  lemma {:induction false} DemandOfSortBy(ds: seq<Stake>, id: string)
    ensures DemandOf(SortBy(ds, LargestFirst), id) == DemandOf(ds, id)
  {
    if ds != [] {
      DemandOfSortBy(ds[1..], id);
      DemandOfInsert(ds[0], SortBy(ds[1..], LargestFirst), id);
    }
  }

  lemma {:induction false} SumOrderedCons(o: NetOrder, os: seq<NetOrder>)
    ensures SumOrdered([o] + os) == o.quantity + SumOrdered(os)
    ensures forall id :: OrderedFor([o] + os, id) == (if o.districtId == id then o.quantity else 0) + OrderedFor(os, id)
  {
    assert ([o] + os)[1..] == os;
  }

  lemma {:induction false} AmountsSign(ss: seq<Stake>)
    ensures (forall i :: 0 <= i < |ss| ==> ss[i].amount >= 0) ==> Amounts(ss) >= 0
    ensures (forall i :: 0 <= i < |ss| ==> ss[i].amount <= 0) ==> Amounts(ss) <= 0
  {
    if ss != [] {
      AmountsSign(ss[1..]);
      assert forall i :: 1 <= i < |ss| ==> ss[1..][i - 1] == ss[i];
    }
  }

  /** Transfers that all go to `id` bring it their whole quantity; transfers
      that all go elsewhere bring it nothing. */
  lemma {:induction false} QtyToUniform(ts: seq<NetTransfer>, id: string)
    ensures (forall t :: t in ts ==> t.toDistrictId == id) ==> QtyTo(ts, id) == SumQty(ts)
    ensures (forall t :: t in ts ==> t.toDistrictId != id) ==> QtyTo(ts, id) == 0
  {
    if ts != [] {
      QtyToUniform(ts[1..], id);
      assert forall t :: t in ts[1..] ==> t in ts;
    }
  }

  lemma {:induction false} OrderedForNone(os: seq<NetOrder>, id: string)
    requires forall o :: o in os ==> o.districtId != id
    ensures OrderedFor(os, id) == 0
  {
    if os != [] {
      assert forall o :: o in os[1..] ==> o in os;
      OrderedForNone(os[1..], id);
    }
  }

  lemma {:induction false} SumQtyPositive(ts: seq<NetTransfer>)
    requires forall t :: t in ts ==> t.quantity > 0
    ensures SumQty(ts) >= 0
  {
    if ts != [] {
      assert forall t :: t in ts[1..] ==> t in ts;
      SumQtyPositive(ts[1..]);
    }
  }

  /** Every transfer of a medicine's plan moves a positive quantity from a
      surplus district to a deficit district and saves 10 per unit; every
      order procures a positive quantity for a deficit district. */
  lemma {:induction false} PlanShape(m: Medicine, ds: seq<Stake>, ss: seq<Stake>)
    ensures forall t :: t in Plan(m, ds, ss).transfers ==>
              t.quantity > 0 && t.costSaved == 10 * t.quantity && t.medicineId == m.id
              && (exists i :: 0 <= i < |ss| && t.fromDistrictId == ss[i].districtId)
              && (exists k :: 0 <= k < |ds| && t.toDistrictId == ds[k].districtId)
    ensures forall o :: o in Plan(m, ds, ss).orders ==>
              o.quantity > 0 && o.medicineId == m.id
              && exists k :: 0 <= k < |ds| && o.districtId == ds[k].districtId
    decreases |ds|
  {
    if ds != [] {
      var f := Fill(m, ds[0], ds[0].amount, ss, 0);
      FillTransfers(m, ds[0], ds[0].amount, ss, 0);
      FillBounds(m, ds[0], ds[0].amount, ss, 0);
      PlanShape(m, ds[1..], f.surpluses);
      var rest := Plan(m, ds[1..], f.surpluses);
      forall t | t in rest.transfers
        ensures (exists i :: 0 <= i < |ss| && t.fromDistrictId == ss[i].districtId)
             && (exists k :: 0 <= k < |ds| && t.toDistrictId == ds[k].districtId)
      {
        var k :| 0 <= k < |ds[1..]| && t.toDistrictId == ds[1..][k].districtId;
        assert ds[1..][k] == ds[k + 1];
      }
      forall o | o in rest.orders
        ensures exists k :: 0 <= k < |ds| && o.districtId == ds[k].districtId
      {
        var k :| 0 <= k < |ds[1..]| && o.districtId == ds[1..][k].districtId;
        assert ds[1..][k] == ds[k + 1];
      }
    }
  }

  /** Conservation over a medicine's whole plan: for non-negative deficits,
      what is transferred plus what is ordered is the total deficit. */
  lemma {:induction false} PlanCoversDeficits(m: Medicine, ds: seq<Stake>, ss: seq<Stake>)
    requires forall k :: 0 <= k < |ds| ==> ds[k].amount >= 0
    ensures SumQty(Plan(m, ds, ss).transfers) + SumOrdered(Plan(m, ds, ss).orders) == Amounts(ds)
    decreases |ds|
  {
    if ds != [] {
      var f := Fill(m, ds[0], ds[0].amount, ss, 0);
      FillConserves(m, ds[0], ds[0].amount, ss, 0);
      FillBounds(m, ds[0], ds[0].amount, ss, 0);
      PlanCoversDeficits(m, ds[1..], f.surpluses);
      var rest := Plan(m, ds[1..], f.surpluses);
      SumQtyAppend(f.transfers, rest.transfers);
      if f.remaining > 0 {
        SumOrderedCons(OrderOf(m, ds[0], f.remaining), rest.orders);
      } else {
        assert [] + rest.orders == rest.orders;
      }
    }
  }

  /** Over a medicine's whole plan no more is transferred than the surpluses
      hold together. */
  lemma {:induction false} PlanWithinSurplus(m: Medicine, ds: seq<Stake>, ss: seq<Stake>)
    requires forall i :: 0 <= i < |ss| ==> ss[i].amount >= 0
    ensures 0 <= SumQty(Plan(m, ds, ss).transfers) <= Amounts(ss)
    decreases |ds|
  {
    AmountsSign(ss);
    if ds != [] {
      var f := Fill(m, ds[0], ds[0].amount, ss, 0);
      FillConserves(m, ds[0], ds[0].amount, ss, 0);
      FillBounds(m, ds[0], ds[0].amount, ss, 0);
      FillTransfers(m, ds[0], ds[0].amount, ss, 0);
      SumQtyPositive(f.transfers);
      PlanWithinSurplus(m, ds[1..], f.surpluses);
      SumQtyAppend(f.transfers, Plan(m, ds[1..], f.surpluses).transfers);
    }
  }

  /** Orders only once the network is drained: if a medicine's plan orders
      anything, it has transferred every unit of surplus there was. */
  lemma {:induction false} OrdersOnlyWhenDrained(m: Medicine, ds: seq<Stake>, ss: seq<Stake>)
    requires forall i :: 0 <= i < |ss| ==> ss[i].amount >= 0
    ensures Plan(m, ds, ss).orders != [] ==> SumQty(Plan(m, ds, ss).transfers) == Amounts(ss)
    decreases |ds|
  {
    if ds != [] {
      var f := Fill(m, ds[0], ds[0].amount, ss, 0);
      FillConserves(m, ds[0], ds[0].amount, ss, 0);
      FillBounds(m, ds[0], ds[0].amount, ss, 0);
      var rest := Plan(m, ds[1..], f.surpluses);
      SumQtyAppend(f.transfers, rest.transfers);
      PlanWithinSurplus(m, ds[1..], f.surpluses);
      if f.remaining > 0 {
        FillExhausts(m, ds[0], ds[0].amount, ss, 0);
        AmountsSign(f.surpluses);
      } else {
        assert Plan(m, ds, ss).orders == rest.orders;
        OrdersOnlyWhenDrained(m, ds[1..], f.surpluses);
      }
    }
  }

  /** Per district: what a medicine's plan transfers into a district plus
      what it orders for it is exactly that district's deficit. */
  lemma {:induction false} PlanPerDistrict(m: Medicine, ds: seq<Stake>, ss: seq<Stake>, id: string)
    requires forall k :: 0 <= k < |ds| ==> ds[k].amount >= 0
    ensures QtyTo(Plan(m, ds, ss).transfers, id) + OrderedFor(Plan(m, ds, ss).orders, id) == DemandOf(ds, id)
    decreases |ds|
  {
    if ds != [] {
      var f := Fill(m, ds[0], ds[0].amount, ss, 0);
      FillConserves(m, ds[0], ds[0].amount, ss, 0);
      FillBounds(m, ds[0], ds[0].amount, ss, 0);
      FillTransfers(m, ds[0], ds[0].amount, ss, 0);
      QtyToUniform(f.transfers, id);
      PlanPerDistrict(m, ds[1..], f.surpluses, id);
      var rest := Plan(m, ds[1..], f.surpluses);
      SumQtyAppend(f.transfers, rest.transfers);
      if f.remaining > 0 {
        SumOrderedCons(OrderOf(m, ds[0], f.remaining), rest.orders);
      } else {
        assert [] + rest.orders == rest.orders;
      }
    }
  }

  // ---------------------------------------------------------------------------
  // The whole network: every medicine in turn

  /** One medicine's plan: its deficits and surpluses, each largest first,
      matched greedily. */
  function MedicinePlan(m: Medicine, ds: seq<DistrictStock>): NetPlan
  {
    Plan(m, SortBy(Deficits(ds, m.id), LargestFirst), SortBy(Surpluses(ds, m.id), LargestFirst))
  }

  /** The network plan: the medicines' plans one after another. */
  function NetworkPlan(meds: seq<Medicine>, ds: seq<DistrictStock>): NetPlan
  {
    if meds == [] then NetPlan([], [])
    else
      var before := NetworkPlan(meds[..|meds| - 1], ds);
      var last := MedicinePlan(meds[|meds| - 1], ds);
      NetPlan(before.transfers + last.transfers, before.orders + last.orders)
  }

  lemma NetworkPlanSnoc(meds: seq<Medicine>, i: nat, ds: seq<DistrictStock>)
    requires i < |meds|
    ensures NetworkPlan(meds[..i + 1], ds)
         == NetPlan(NetworkPlan(meds[..i], ds).transfers + MedicinePlan(meds[i], ds).transfers,
                    NetworkPlan(meds[..i], ds).orders + MedicinePlan(meds[i], ds).orders)
  {
    assert meds[..i + 1][..i] == meds[..i];
  }

  method OptimizeNetworkTransfers(meds: seq<Medicine>, ds: seq<DistrictStock>)
    returns (transfers: seq<NetTransfer>, orders: seq<NetOrder>)
    ensures NetPlan(transfers, orders) == NetworkPlan(meds, ds)
  {
    transfers, orders := [], [];
    for i := 0 to |meds|
      invariant NetPlan(transfers, orders) == NetworkPlan(meds[..i], ds)
    {
      var surpluses, deficits := SplitStakes(ds, meds[i].id);
      surpluses := SortBy(surpluses, LargestFirst);
      deficits := SortBy(deficits, LargestFirst);
      var t, o := MatchDeficits(meds[i], deficits, surpluses);
      assert NetPlan(t, o) == MedicinePlan(meds[i], ds);
      NetworkPlanSnoc(meds, i, ds);
      transfers, orders := transfers + t, orders + o;
    }
    assert meds[..|meds|] == meds;
  }


  /** Every surplus and every deficit is a positive amount. */
  lemma StakesPositive(ds: seq<DistrictStock>, med: string)
    ensures forall s :: s in Surpluses(ds, med) ==> s.amount > 0
    ensures forall s :: s in Deficits(ds, med) ==> s.amount > 0
  {
    StakeMembers(ds, med);
  }

  /** A plan between districts that are never both surplus and deficit has
      no transfer from a district to itself. */
  lemma PlanNoSelfTransfer(m: Medicine, dd: seq<Stake>, ss: seq<Stake>)
    requires forall s, d :: s in ss && d in dd ==> s.districtId != d.districtId
    ensures forall t :: t in Plan(m, dd, ss).transfers ==> t.fromDistrictId != t.toDistrictId
  {
    PlanShape(m, dd, ss);
    forall t | t in Plan(m, dd, ss).transfers
      ensures t.fromDistrictId != t.toDistrictId
    {
      var i :| 0 <= i < |ss| && t.fromDistrictId == ss[i].districtId;
      var k :| 0 <= k < |dd| && t.toDistrictId == dd[k].districtId;
      assert ss[i] in ss && dd[k] in dd;
    }
  }

  /** No district ever ships to itself: with distinct district ids no
      district is both a surplus and a deficit of the same medicine. */
  lemma MedicinePlanNoSelfTransfer(m: Medicine, ds: seq<DistrictStock>)
    requires DistinctDistricts(ds)
    ensures forall t :: t in MedicinePlan(m, ds).transfers ==> t.fromDistrictId != t.toDistrictId
  {
    SortByMembers(Deficits(ds, m.id), LargestFirst);
    SortByMembers(Surpluses(ds, m.id), LargestFirst);
    SurplusesAndDeficitsDisjoint(ds, m.id);
    PlanNoSelfTransfer(m, SortBy(Deficits(ds, m.id), LargestFirst), SortBy(Surpluses(ds, m.id), LargestFirst));
  }

  /** Every deficit district of a medicine receives, in transfers and orders
      together, exactly its deficit. */
  lemma MedicinePlanCovers(m: Medicine, ds: seq<DistrictStock>, id: string)
    ensures var p := MedicinePlan(m, ds);
      QtyTo(p.transfers, id) + OrderedFor(p.orders, id) == DemandOf(Deficits(ds, m.id), id)
  {
    DemandOfSortBy(Deficits(ds, m.id), id);
    var dd := SortBy(Deficits(ds, m.id), LargestFirst);
    StakesPositive(ds, m.id);
    SortByMembers(Deficits(ds, m.id), LargestFirst);
    forall k | 0 <= k < |dd| ensures dd[k].amount >= 0 {
      assert dd[k] in dd;
    }
    PlanPerDistrict(m, dd, SortBy(Surpluses(ds, m.id), LargestFirst), id);
  }

  /** Every transfer of the network plan saves 10 per unit and moves a
      positive quantity; every order procures a positive quantity. */
  lemma {:induction false} NetworkPlanShape(meds: seq<Medicine>, ds: seq<DistrictStock>)
    requires DistinctDistricts(ds)
    ensures forall t :: t in NetworkPlan(meds, ds).transfers ==>
              t.quantity > 0 && t.costSaved == 10 * t.quantity && t.fromDistrictId != t.toDistrictId
    ensures forall o :: o in NetworkPlan(meds, ds).orders ==> o.quantity > 0
  {
    if meds != [] {
      var m := meds[|meds| - 1];
      NetworkPlanShape(meds[..|meds| - 1], ds);
      MedicinePlanNoSelfTransfer(m, ds);
      PlanShape(m, SortBy(Deficits(ds, m.id), LargestFirst), SortBy(Surpluses(ds, m.id), LargestFirst));
    }
  }

  // ---------------------------------------------------------------------------
  // Recommendations for one district

  /** The priorities a recommendation can carry; the sort knows `urgent`,
      `high` and `medium` by name and puts anything else last. */
  datatype Priority = Urgent | High | Medium | Other(name: string)

  function PriorityName(p: Priority): string
  {
    match p
    case Urgent => "urgent"
    case High => "high"
    case Medium => "medium"
    case Other(name) => name
  }

  datatype RecommendationKind = TransferInKind | OrderKind | AlertKind

  function KindName(k: RecommendationKind): string
  {
    match k
    case TransferInKind => "transfer_in"
    case OrderKind => "order"
    case AlertKind => "alert"
  }

  datatype Recommendation = Recommendation(
    priority: Priority,
    kind: RecommendationKind,
    medicineId: Option<string>,
    medicineName: Option<string>,
    action: string,
    reason: string,
    deadline: string)

  /** The risk score as the surge alert shows it, `f"{score:.2f}"`. The
      score comes in thousandths, as `round(combined_score, 3)` leaves it:
      the double nearest that decimal, which `.2f` then rounds to hundredths,
      a tie to the even digit. */
  function ScoreText(score: nat): (s: string)
    ensures |s| >= 4
  {
    FixedText(Quotient(score, 1000), 2)
  }

  lemma ScoreQuotients()
    ensures Quotient(745, 1000) == Double(6710363444782039, -53)
    ensures Quotient(785, 1000) == Double(7070651414971679, -53)
  {
    Pow2Values();
    assert Log2Floor(745, 1000) == -1;
    assert Log2Floor(785, 1000) == -1;
  }

  lemma ScoreHundredths()
    ensures Scaled(Double(6710363444782039, -53), 100) == 74
    ensures Scaled(Double(7070651414971679, -53), 100) == 79
  {
    Pow2Values();
  }

  /** A score of 0.745 shows as "0.74": its double lies just below the half. */
  lemma ScoreTextBelowHalf()
    ensures ScoreText(745) == "0.74"
  {
    ScoreQuotients();
    ScoreHundredths();
    assert Pow10(2) == 100;
    assert NatToString(0) == "0";
    assert ZeroPad(74, 2) == "74";
  }

  /** A score of 0.785 shows as "0.79": its double lies just above the half. */
  lemma ScoreTextAboveHalf()
    ensures ScoreText(785) == "0.79"
  {
    ScoreQuotients();
    ScoreHundredths();
    assert Pow10(2) == 100;
    assert NatToString(0) == "0";
    assert ZeroPad(79, 2) == "79";
  }

  /** The calendar date `days` days after `now`. */
  function DeadlineIn(now: int, days: int): string
  {
    IsoDate(now + days * SecondsPerDay)
  }

  /** The deadlines the recommendations carry, fixed when they are made:
      a transfer within 3 days, an order within 5, an alert within 1. */
  datatype Deadlines = Deadlines(transfer: string, order: string, alert: string)

  function DeadlinesFrom(now: int): Deadlines
  {
    Deadlines(DeadlineIn(now, 3), DeadlineIn(now, 5), DeadlineIn(now, 1))
  }

  function TransferIn(t: NetTransfer, dates: Deadlines): Recommendation
  {
    Recommendation(High, TransferInKind, Some(t.medicineId), Some(t.medicineName),
      "Request transfer of " + IntToString(t.quantity) + " units from " + t.fromDistrict,
      "Network optimization: Uses existing surplus, saves \U{20B9}" + IntToString(t.costSaved),
      dates.transfer)
  }

  function OrderIn(o: NetOrder, dates: Deadlines): Recommendation
  {
    Recommendation(Urgent, OrderKind, Some(o.medicineId), Some(o.medicineName),
      "Procure " + IntToString(o.quantity) + " units of " + o.medicineName,
      "Deficit cannot be covered by inter-district transfer",
      dates.order)
  }

  function SurgeAlert(score: nat, dates: Deadlines): Recommendation
  {
    Recommendation(Urgent, AlertKind, None, None,
      "Alert district hospital for potential surge capacity",
      "Causal risk score: " + ScoreText(score) + " (based on weather 14 days ago)",
      dates.alert)
  }

  /** The transfers into district `id`, as recommendations, in plan order. */
  function TransferRecs(ts: seq<NetTransfer>, id: string, dates: Deadlines): seq<Recommendation>
  {
    if ts == [] then []
    else
      var t := ts[|ts| - 1];
      TransferRecs(ts[..|ts| - 1], id, dates) + (if t.toDistrictId == id then [TransferIn(t, dates)] else [])
  }

  /** A transfer recommendation for every transfer into `id`, and nothing
      else; and a separate lemma gives their priority. */
  lemma {:induction false} TransferRecsMembers(ts: seq<NetTransfer>, id: string, dates: Deadlines)
    ensures forall r :: r in TransferRecs(ts, id, dates) <==> exists t :: t in ts && t.toDistrictId == id && r == TransferIn(t, dates)
  {
    if ts != [] {
      var t := ts[|ts| - 1];
      TransferRecsMembers(ts[..|ts| - 1], id, dates);
      assert forall u :: u in ts <==> u in ts[..|ts| - 1] || u == t;
    }
  }

  lemma {:induction false} TransferRecsPriority(ts: seq<NetTransfer>, id: string, dates: Deadlines)
    ensures forall i :: 0 <= i < |TransferRecs(ts, id, dates)| ==>
              TransferRecs(ts, id, dates)[i].priority == High && TransferRecs(ts, id, dates)[i].kind == TransferInKind
  {
    if ts != [] {
      TransferRecsPriority(ts[..|ts| - 1], id, dates);
    }
  }


  /** The orders for district `id`, as recommendations, in plan order. */
  function OrderRecs(os: seq<NetOrder>, id: string, dates: Deadlines): seq<Recommendation>
  {
    if os == [] then []
    else
      var o := os[|os| - 1];
      OrderRecs(os[..|os| - 1], id, dates) + (if o.districtId == id then [OrderIn(o, dates)] else [])
  }

  /** An order recommendation for every order for `id`, and nothing else;
      and a separate lemma gives their priority. */
  lemma {:induction false} OrderRecsMembers(os: seq<NetOrder>, id: string, dates: Deadlines)
    ensures forall r :: r in OrderRecs(os, id, dates) <==> exists o :: o in os && o.districtId == id && r == OrderIn(o, dates)
  {
    if os != [] {
      var o := os[|os| - 1];
      OrderRecsMembers(os[..|os| - 1], id, dates);
      assert forall u :: u in os <==> u in os[..|os| - 1] || u == o;
    }
  }

  lemma {:induction false} OrderRecsPriority(os: seq<NetOrder>, id: string, dates: Deadlines)
    ensures forall i :: 0 <= i < |OrderRecs(os, id, dates)| ==>
              OrderRecs(os, id, dates)[i].priority == Urgent && OrderRecs(os, id, dates)[i].kind == OrderKind
  {
    if os != [] {
      OrderRecsPriority(os[..|os| - 1], id, dates);
    }
  }


  /** The surge alert, raised only at risk level red. */
  function AlertRecs(level: string, score: nat, dates: Deadlines): (rs: seq<Recommendation>)
    ensures |rs| == if level == "red" then 1 else 0
    ensures forall i :: 0 <= i < |rs| ==> rs[i].priority == Urgent && rs[i].kind == AlertKind
  {
    if level == "red" then [SurgeAlert(score, dates)] else []
  }

  /** urgent before high before medium before anything else. */
  function PriorityRank(r: Recommendation): int
  {
    match r.priority
    case Urgent => 0
    case High => 1
    case Medium => 2
    case Other(name) => if name == "urgent" then 0 else if name == "high" then 1 else if name == "medium" then 2 else 3
  }

  /** The district's recommendations, stably sorted by priority. */
  function Recommendations(id: string, plan: NetPlan, level: string, score: nat, dates: Deadlines): seq<Recommendation>
  {
    SortBy(TransferRecs(plan.transfers, id, dates) + OrderRecs(plan.orders, id, dates) + AlertRecs(level, score, dates),
           PriorityRank)
  }

  lemma TransferRecsSnoc(ts: seq<NetTransfer>, i: nat, id: string, dates: Deadlines)
    requires i < |ts|
    ensures TransferRecs(ts[..i + 1], id, dates)
         == TransferRecs(ts[..i], id, dates) + (if ts[i].toDistrictId == id then [TransferIn(ts[i], dates)] else [])
  {
    assert ts[..i + 1][..i] == ts[..i];
  }

  lemma OrderRecsSnoc(os: seq<NetOrder>, i: nat, id: string, dates: Deadlines)
    requires i < |os|
    ensures OrderRecs(os[..i + 1], id, dates)
         == OrderRecs(os[..i], id, dates) + (if os[i].districtId == id then [OrderIn(os[i], dates)] else [])
  {
    assert os[..i + 1][..i] == os[..i];
  }

  method TransfersInto(transfers: seq<NetTransfer>, id: string, dates: Deadlines) returns (recs: seq<Recommendation>)
    ensures recs == TransferRecs(transfers, id, dates)
  {
    recs := [];
    for i := 0 to |transfers|
      invariant recs == TransferRecs(transfers[..i], id, dates)
    {
      TransferRecsSnoc(transfers, i, id, dates);
      if transfers[i].toDistrictId == id {
        recs := recs + [TransferIn(transfers[i], dates)];
      }
    }
    assert transfers[..|transfers|] == transfers;
  }

  method OrdersFor(orders: seq<NetOrder>, id: string, dates: Deadlines) returns (recs: seq<Recommendation>)
    ensures recs == OrderRecs(orders, id, dates)
  {
    recs := [];
    for i := 0 to |orders|
      invariant recs == OrderRecs(orders[..i], id, dates)
    {
      OrderRecsSnoc(orders, i, id, dates);
      if orders[i].districtId == id {
        recs := recs + [OrderIn(orders[i], dates)];
      }
    }
    assert orders[..|orders|] == orders;
  }

  /** The recommendations for `id` from the network plan of `meds` over
      `ds`; the district's risk level and score (in thousandths) come in as inputs, and `now`
      is the clock reading the deadlines count from. */
  method GetRecommendations(meds: seq<Medicine>, ds: seq<DistrictStock>, id: string, level: string, score: nat, now: int)
    returns (recs: seq<Recommendation>)
    ensures recs == Recommendations(id, NetworkPlan(meds, ds), level, score, DeadlinesFrom(now))
  {
    var dates := DeadlinesFrom(now);
    var transfers, orders := OptimizeNetworkTransfers(meds, ds);
    var incoming := TransfersInto(transfers, id, dates);
    var ordered := OrdersFor(orders, id, dates);
    recs := incoming + ordered + AlertRecs(level, score, dates);
    recs := SortBy(recs, PriorityRank);
  }

  /** The sort puts every urgent recommendation (the district's orders, then
      the surge alert) ahead of every high one (its incoming transfers),
      each group in the order it was built. */
  lemma {:induction false} RecommendationsByPriority(id: string, plan: NetPlan, level: string, score: nat, dates: Deadlines)
    ensures var recs := Recommendations(id, plan, level, score, dates);
      var ts := TransferRecs(plan.transfers, id, dates);
      var os := OrderRecs(plan.orders, id, dates);
      var alert := AlertRecs(level, score, dates);
      SortedBy(recs, PriorityRank)
      && WithKey(recs, PriorityRank, 0) == os + alert
      && WithKey(recs, PriorityRank, 1) == ts
      && |recs| == |ts| + |os| + |alert|
  {
    var ts := TransferRecs(plan.transfers, id, dates);
    var os := OrderRecs(plan.orders, id, dates);
    var alert := AlertRecs(level, score, dates);
    SortByStable(ts + os + alert, PriorityRank, 0);
    SortByStable(ts + os + alert, PriorityRank, 1);
    TransferRecsPriority(plan.transfers, id, dates);
    OrderRecsPriority(plan.orders, id, dates);
    GroupsByPriority(ts, os, alert);
  }

  /** High recommendations followed by urgent ones split by rank into the
      urgent ones and the high ones, each group in its own order. */
  lemma GroupsByPriority(highs: seq<Recommendation>, urgents: seq<Recommendation>, more: seq<Recommendation>)
    requires forall i :: 0 <= i < |highs| ==> highs[i].priority == High
    requires forall i :: 0 <= i < |urgents| ==> urgents[i].priority == Urgent
    requires forall i :: 0 <= i < |more| ==> more[i].priority == Urgent
    ensures WithKey(highs + urgents + more, PriorityRank, 0) == urgents + more
    ensures WithKey(highs + urgents + more, PriorityRank, 1) == highs
  {
    UrgentGroup(highs, urgents, more);
    HighGroup(highs, urgents, more);
  }

  /** High recommendations followed by urgent ones: rank 0 picks out the
      urgent ones in their order. */
  lemma UrgentGroup(highs: seq<Recommendation>, urgents: seq<Recommendation>, more: seq<Recommendation>)
    requires forall i :: 0 <= i < |highs| ==> highs[i].priority == High
    requires forall i :: 0 <= i < |urgents| ==> urgents[i].priority == Urgent
    requires forall i :: 0 <= i < |more| ==> more[i].priority == Urgent
    ensures WithKey(highs + urgents + more, PriorityRank, 0) == urgents + more
  {
    WithKeyAppend(highs + urgents, more, PriorityRank, 0);
    WithKeyAppend(highs, urgents, PriorityRank, 0);
    assert forall i :: 0 <= i < |highs| ==> PriorityRank(highs[i]) != 0;
    assert forall i :: 0 <= i < |urgents| ==> PriorityRank(urgents[i]) == 0;
    assert forall i :: 0 <= i < |more| ==> PriorityRank(more[i]) == 0;
    WithKeyUniform(highs, PriorityRank, 0);
    WithKeyUniform(urgents, PriorityRank, 0);
    WithKeyUniform(more, PriorityRank, 0);
    assert [] + urgents == urgents;
  }

  /** ... and rank 1 picks out the high ones in their order. */
  lemma HighGroup(highs: seq<Recommendation>, urgents: seq<Recommendation>, more: seq<Recommendation>)
    requires forall i :: 0 <= i < |highs| ==> highs[i].priority == High
    requires forall i :: 0 <= i < |urgents| ==> urgents[i].priority == Urgent
    requires forall i :: 0 <= i < |more| ==> more[i].priority == Urgent
    ensures WithKey(highs + urgents + more, PriorityRank, 1) == highs
  {
    WithKeyAppend(highs + urgents, more, PriorityRank, 1);
    WithKeyAppend(highs, urgents, PriorityRank, 1);
    assert forall i :: 0 <= i < |highs| ==> PriorityRank(highs[i]) == 1;
    assert forall i :: 0 <= i < |urgents| ==> PriorityRank(urgents[i]) != 1;
    assert forall i :: 0 <= i < |more| ==> PriorityRank(more[i]) != 1;
    WithKeyUniform(highs, PriorityRank, 1);
    WithKeyUniform(urgents, PriorityRank, 1);
    WithKeyUniform(more, PriorityRank, 1);
    assert highs + [] + [] == highs;
  }



  /** A surge alert is among the recommendations exactly when the risk level
      is red. */
  lemma SurgeAlertIffRed(id: string, plan: NetPlan, level: string, score: nat, dates: Deadlines)
    ensures (exists r :: r in Recommendations(id, plan, level, score, dates) && r.kind == AlertKind) <==> level == "red"
  {
    var ts := TransferRecs(plan.transfers, id, dates);
    var os := OrderRecs(plan.orders, id, dates);
    var alert := AlertRecs(level, score, dates);
    SortByMembers(ts + os + alert, PriorityRank);
    TransferRecsPriority(plan.transfers, id, dates);
    OrderRecsPriority(plan.orders, id, dates);
    AlertsOnlyAtEnd(ts, os, alert);
    if level == "red" {
      assert alert[0] in alert;
    }
  }

  /** Where the first two groups hold only transfers and orders, any alert
      comes from the third. */
  lemma AlertsOnlyAtEnd(transfers: seq<Recommendation>, orders: seq<Recommendation>, alerts: seq<Recommendation>)
    requires forall i :: 0 <= i < |transfers| ==> transfers[i].kind == TransferInKind
    requires forall i :: 0 <= i < |orders| ==> orders[i].kind == OrderKind
    ensures (exists r :: r in transfers + orders + alerts && r.kind == AlertKind)
        <==> (exists r :: r in alerts && r.kind == AlertKind)
  {
    forall r | r in transfers + orders + alerts && r.kind == AlertKind
      ensures r in alerts
    {
    }
  }

}
