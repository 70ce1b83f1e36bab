/** The recommendations API: the network plan with its summary, one
    district's recommendations with their urgent count, and the older
    suggested-transfer matcher that pairs each critical district with the
    first surplus district able to cover its whole gap. */
module Recommendations {
  import opened Wrappers
  import opened Lists
  import opened Forecaster

  // ---------------------------------------------------------------------------
  // GET /network

  datatype NetworkSummary = NetworkSummary(totalTransfers: nat, totalOrders: nat, estimatedSavings: int)

  function CostSaved(t: NetTransfer): int { t.costSaved }

  function Quantity(t: NetTransfer): int { t.quantity }

  /** The summary block: how many transfers and orders, and the sum of what
      the transfers save. */
  function Summarise(plan: NetPlan): NetworkSummary
  {
    NetworkSummary(|plan.transfers|, |plan.orders|, Sum(plan.transfers, CostSaved))
  }

  method GetNetworkOptimization(meds: seq<Medicine>, ds: seq<DistrictStock>)
    returns (plan: NetPlan, summary: NetworkSummary)
    ensures plan == NetworkPlan(meds, ds)
    ensures summary.totalTransfers == |plan.transfers| && summary.totalOrders == |plan.orders|
    ensures summary.estimatedSavings == Sum(plan.transfers, CostSaved)
  {
    var transfers, orders := OptimizeNetworkTransfers(meds, ds);
    plan := NetPlan(transfers, orders);
    summary := Summarise(plan);
  }

  /** The estimated savings are 10 per unit transferred, so at least 10 per
      transfer. */
  lemma NetworkSavings(meds: seq<Medicine>, ds: seq<DistrictStock>)
    requires DistinctDistricts(ds)
    ensures var plan := NetworkPlan(meds, ds);
      Summarise(plan).estimatedSavings == 10 * Sum(plan.transfers, Quantity)
      && Summarise(plan).estimatedSavings >= 10 * Summarise(plan).totalTransfers
  {
    var plan := NetworkPlan(meds, ds);
    NetworkPlanShape(meds, ds);
    SumScale(plan.transfers, CostSaved, Quantity, 10);
    SumAtLeast(plan.transfers, Quantity, 1);
  }

  // ---------------------------------------------------------------------------
  // GET /{district_id}

  datatype DistrictRecommendations = DistrictRecommendations(
    districtId: string,
    districtName: string,
    recommendations: seq<Recommendation>,
    count: nat,
    urgentCount: nat)

  predicate IsUrgent(r: Recommendation)
  {
    PriorityName(r.priority) == "urgent"
  }

  method GetDistrictRecommendations(meds: seq<Medicine>, ds: seq<DistrictStock>, id: string,
                                    level: string, score: nat, now: int)
    returns (res: Result<DistrictRecommendations>)
    ensures FindDistrict(ds, id).None? <==> res.Err?
    ensures res.Err? ==> res.error == DistrictNotFound(id)
    ensures res.Ok? ==>
      var v := res.value;
      v.districtId == id && v.districtName == FindDistrict(ds, id).value.name
      && v.recommendations == Recommendations(id, NetworkPlan(meds, ds), level, score, DeadlinesFrom(now))
      && v.count == |v.recommendations|
      && v.urgentCount == Count(v.recommendations, IsUrgent)
  {
    var district := FindDistrict(ds, id);
    if district.None? {
      return Err(DistrictNotFound(id));
    }
    var recs := GetRecommendations(meds, ds, id, level, score, now);
    res := Ok(DistrictRecommendations(id, district.value.name, recs, |recs|, Count(recs, IsUrgent)));
  }

  /** `urgent_count` is the number of orders the plan places for the district,
      plus one when its risk level is red. */
  lemma UrgentCount(id: string, plan: NetPlan, level: string, score: nat, dates: Deadlines)
    ensures Count(Recommendations(id, plan, level, score, dates), IsUrgent)
         == Count(plan.orders, (o: NetOrder) => o.districtId == id) + (if level == "red" then 1 else 0)
  {
    var ts := TransferRecs(plan.transfers, id, dates);
    var os := OrderRecs(plan.orders, id, dates);
    var alert := AlertRecs(level, score, dates);
    CountSortBy(ts + os + alert, PriorityRank, IsUrgent);
    TransferRecsPriority(plan.transfers, id, dates);
    OrderRecsPriority(plan.orders, id, dates);
    UrgentParts(ts, os, alert);
    OrderRecsLength(plan.orders, id, dates);
  }

  /** High recommendations count for nothing, urgent ones each for one. */
  lemma UrgentParts(highs: seq<Recommendation>, urgents: seq<Recommendation>, more: seq<Recommendation>)
    requires forall i :: 0 <= i < |highs| ==> highs[i].priority == High
    requires forall i :: 0 <= i < |urgents| ==> urgents[i].priority == Urgent
    requires forall i :: 0 <= i < |more| ==> more[i].priority == Urgent
    ensures Count(highs + urgents + more, IsUrgent) == |urgents| + |more|
  {
    CountAppend(highs + urgents, more, IsUrgent);
    CountAppend(highs, urgents, IsUrgent);
    FilterNone(highs, IsUrgent);
    CountIsFilterLength(highs, IsUrgent);
    FilterAll(urgents, IsUrgent);
    CountIsFilterLength(urgents, IsUrgent);
    FilterAll(more, IsUrgent);
    CountIsFilterLength(more, IsUrgent);
  }


  /** One order recommendation per order for the district. */
  lemma {:induction false} OrderRecsLength(os: seq<NetOrder>, id: string, dates: Deadlines)
    ensures |OrderRecs(os, id, dates)| == Count(os, (o: NetOrder) => o.districtId == id)
  {
    if os != [] {
      var init := os[..|os| - 1];
      OrderRecsLength(init, id, dates);
      CountAppend(init, [os[|os| - 1]], (o: NetOrder) => o.districtId == id);
      assert init + [os[|os| - 1]] == os;
    }
  }

  // ---------------------------------------------------------------------------
  // GET /transfers/suggested

  /** `{s['medicine_id']: s for s in stock_status}[med]`: the last line for
      `med` wins. */
  function LastLine(lines: seq<StockItem>, med: string): (r: Option<StockItem>)
    ensures r.Some? ==> exists i :: 0 <= i < |lines| && lines[i] == r.value && r.value.medicineId == med
                                   && forall j :: i < j < |lines| ==> lines[j].medicineId != med
    ensures r.None? ==> forall i :: 0 <= i < |lines| ==> lines[i].medicineId != med
  {
    if lines == [] then None
    else if lines[|lines| - 1].medicineId == med then Some(lines[|lines| - 1])
    else
      var init := lines[..|lines| - 1];
      var r := LastLine(init, med);
      assert forall i :: 0 <= i < |init| ==> init[i] == lines[i];
      r
  }

  /** A critical line makes the district a deficit, carrying its (negative)
      stock gap. */
  function DeficitCandidate(d: DistrictStock, med: string): Option<Stake>
  {
    match LastLine(d.lines, med)
    case Some(s) => if s.status == Critical then Some(Stake(d.id, d.name, s.stockGap)) else None
    case None => None
  }

  /** A line that is not critical, above 100 percent and holding more than its
      predicted demand makes the district a surplus of the difference. */
  function SurplusCandidate(d: DistrictStock, med: string): Option<Stake>
  {
    match LastLine(d.lines, med)
    case Some(s) =>
      if s.status != Critical && s.stockPercentage > 100 && s.currentStock - s.predicted14dDemand > 0
      then Some(Stake(d.id, d.name, s.currentStock - s.predicted14dDemand))
      else None
    case None => None
  }

  function Abs(x: int): nat { if x < 0 then -x else x }

  /** The first surplus from position `j` on that covers the whole gap. */
  function FirstCover(gap: int, ss: seq<Stake>, j: nat): (r: Option<nat>)
    requires j <= |ss|
    ensures r.Some? ==> j <= r.value < |ss| && Abs(gap) <= ss[r.value].amount
                        && forall i :: j <= i < r.value ==> ss[i].amount < Abs(gap)
    ensures r.None? ==> forall i :: j <= i < |ss| ==> ss[i].amount < Abs(gap)
    decreases |ss| - j
  {
    if j == |ss| then None
    else if Abs(gap) <= ss[j].amount then Some(j)
    else FirstCover(gap, ss, j + 1)
  }

  datatype Suggestion = Suggestion(
    medicineId: string,
    medicineName: string,
    fromDistrict: string,
    toDistrict: string,
    quantity: int,
    priority: string)

  function Suggest(m: Medicine, d: Stake, s: Stake): Suggestion
  {
    Suggestion(m.id, m.name, s.districtName, d.districtName, Min(Abs(d.amount), s.amount), "urgent")
  }

  /** The suggestion for one deficit, if some surplus covers it. */
  function Matched(m: Medicine, d: Stake, ss: seq<Stake>): seq<Suggestion>
  {
    match FirstCover(d.amount, ss, 0)
    case Some(j) => [Suggest(m, d, ss[j])]
    case None => []
  }

  /** One medicine's suggestions, deficit by deficit. */
  function MedicineSuggestions(m: Medicine, dd: seq<Stake>, ss: seq<Stake>): seq<Suggestion>
  {
    if dd == [] then [] else MedicineSuggestions(m, dd[..|dd| - 1], ss) + Matched(m, dd[|dd| - 1], ss)
  }

  function SuggestionsFor(m: Medicine, ds: seq<DistrictStock>): seq<Suggestion>
  {
    MedicineSuggestions(m, Collect(ds, (d: DistrictStock) => DeficitCandidate(d, m.id)),
                           Collect(ds, (d: DistrictStock) => SurplusCandidate(d, m.id)))
  }

  /** Every medicine's suggestions, one medicine after another. */
  function AllSuggestions(meds: seq<Medicine>, ds: seq<DistrictStock>): seq<Suggestion>
  {
    if meds == [] then [] else AllSuggestions(meds[..|meds| - 1], ds) + SuggestionsFor(meds[|meds| - 1], ds)
  }

  /** The deficit and surplus candidates of one medicine, district by
      district. */
  method Candidates(ds: seq<DistrictStock>, med: string) returns (deficits: seq<Stake>, surpluses: seq<Stake>)
    ensures deficits == Collect(ds, (d: DistrictStock) => DeficitCandidate(d, med))
    ensures surpluses == Collect(ds, (d: DistrictStock) => SurplusCandidate(d, med))
  {
    deficits, surpluses := [], [];
    for i := 0 to |ds|
      invariant deficits == Collect(ds[..i], (d: DistrictStock) => DeficitCandidate(d, med))
      invariant surpluses == Collect(ds[..i], (d: DistrictStock) => SurplusCandidate(d, med))
    {
      assert ds[..i + 1][..i] == ds[..i];
      var stock := LastLine(ds[i].lines, med);
      if stock.Some? && stock.value.status == Critical {
        deficits := deficits + [Stake(ds[i].id, ds[i].name, stock.value.stockGap)];
      } else if stock.Some? && stock.value.stockPercentage > 100 {
        var surplus := stock.value.currentStock - stock.value.predicted14dDemand;
        if surplus > 0 {
          surpluses := surpluses + [Stake(ds[i].id, ds[i].name, surplus)];
        }
      }
    }
    assert ds[..|ds|] == ds;
  }

  /** The nested loops: each deficit takes the first surplus that covers it
      and stops looking. */
  method MatchCandidates(m: Medicine, deficits: seq<Stake>, surpluses: seq<Stake>) returns (found: seq<Suggestion>)
    ensures found == MedicineSuggestions(m, deficits, surpluses)
  {
    found := [];
    for k := 0 to |deficits|
      invariant found == MedicineSuggestions(m, deficits[..k], surpluses)
    {
      assert deficits[..k + 1][..k] == deficits[..k];
      var j := 0;
      while j < |surpluses|
        invariant j <= |surpluses|
        invariant FirstCover(deficits[k].amount, surpluses, 0) == FirstCover(deficits[k].amount, surpluses, j)
        decreases |surpluses| - j
      {
        if Abs(deficits[k].amount) <= surpluses[j].amount {
          found := found + [Suggest(m, deficits[k], surpluses[j])];
          break;
        }
        j := j + 1;
      }
    }
    assert deficits[..|deficits|] == deficits;
  }

  /** The suggested transfers: every medicine's suggestions, the first ten. */
  method GetSuggestedTransfers(meds: seq<Medicine>, ds: seq<DistrictStock>) returns (suggested: seq<Suggestion>)
    ensures suggested == Take(AllSuggestions(meds, ds), 10)
  {
    var transfers := [];
    for i := 0 to |meds|
      invariant transfers == AllSuggestions(meds[..i], ds)
    {
      assert meds[..i + 1][..i] == meds[..i];
      var deficits, surpluses := Candidates(ds, meds[i].id);
      var found := MatchCandidates(meds[i], deficits, surpluses);
      transfers := transfers + found;
    }
    assert meds[..|meds|] == meds;
    suggested := if |transfers| < 10 then transfers else transfers[..10];
  }

  /** Each deficit gets at most one suggestion, and each suggestion moves a
      deficit's whole gap from a surplus holding at least that much. */
  lemma {:induction false} SuggestionsSound(m: Medicine, dd: seq<Stake>, ss: seq<Stake>)
    ensures |MedicineSuggestions(m, dd, ss)| <= |dd|
    ensures forall s :: s in MedicineSuggestions(m, dd, ss) ==>
              s.medicineId == m.id && s.priority == "urgent"
              && exists k, j :: 0 <= k < |dd| && 0 <= j < |ss|
                   && s.toDistrict == dd[k].districtName && s.fromDistrict == ss[j].districtName
                   && s.quantity == Abs(dd[k].amount) <= ss[j].amount
  {
    if dd != [] {
      var init := dd[..|dd| - 1];
      SuggestionsSound(m, init, ss);
      forall s | s in MedicineSuggestions(m, dd, ss)
        ensures exists k, j :: 0 <= k < |dd| && 0 <= j < |ss|
                  && s.toDistrict == dd[k].districtName && s.fromDistrict == ss[j].districtName
                  && s.quantity == Abs(dd[k].amount) <= ss[j].amount
      {
        if s in MedicineSuggestions(m, init, ss) {
          var k, j :| 0 <= k < |init| && 0 <= j < |ss|
                  && s.toDistrict == init[k].districtName && s.fromDistrict == ss[j].districtName
                  && s.quantity == Abs(init[k].amount) <= ss[j].amount;
          assert init[k] == dd[k];
        } else {
          var j := FirstCover(dd[|dd| - 1].amount, ss, 0).value;
          assert s == Suggest(m, dd[|dd| - 1], ss[j]);
        }
      }
    }
  }

  /** A line graded by the forecaster is never above 100 percent, so no
      district is ever a surplus candidate and no transfer is ever
      suggested. */
  lemma NoSuggestionsWhenCapped(meds: seq<Medicine>, ds: seq<DistrictStock>)
    requires forall i, k :: 0 <= i < |ds| && 0 <= k < |ds[i].lines| ==> ds[i].lines[k].stockPercentage <= 100
    ensures AllSuggestions(meds, ds) == []
  {
    if meds != [] {
      var m := meds[|meds| - 1];
      NoSuggestionsWhenCapped(meds[..|meds| - 1], ds);
      NoSurplusCandidates(ds, m.id);
      NothingMatched(m, Collect(ds, (d: DistrictStock) => DeficitCandidate(d, m.id)));
    }
  }

  lemma NoSurplusCandidates(ds: seq<DistrictStock>, med: string)
    requires forall i, k :: 0 <= i < |ds| && 0 <= k < |ds[i].lines| ==> ds[i].lines[k].stockPercentage <= 100
    ensures Collect(ds, (d: DistrictStock) => SurplusCandidate(d, med)) == []
  {
    forall i | 0 <= i < |ds| ensures SurplusCandidate(ds[i], med).None? {
      var line := LastLine(ds[i].lines, med);
      if line.Some? {
        var k :| 0 <= k < |ds[i].lines| && ds[i].lines[k] == line.value;
      }
    }
    CollectNone(ds, (d: DistrictStock) => SurplusCandidate(d, med));
  }


  lemma {:induction false} NothingMatched(m: Medicine, dd: seq<Stake>)
    ensures MedicineSuggestions(m, dd, []) == []
  {
    if dd != [] {
      NothingMatched(m, dd[..|dd| - 1]);
    }
  }
}
