/** The stock API: the state overview that grades every district by its
    worst line and rates the state's readiness, one district's lines ordered
    worst first, and the list of every line short of its order point. */
module Stock {
  import opened Wrappers
  import opened Lists
  import opened Forecaster
  import opened Floats

  // ---------------------------------------------------------------------------
  // GET /state

  /** `lambda s: s['status'] == st`. */
  function Having(st: StockStatus): StockItem -> bool
  {
    (s: StockItem) => s.status == st
  }

  /** `len([s for s in lines if s['status'] == st])`. */
  function CountWith(lines: seq<StockItem>, st: StockStatus): nat
  {
    Count(lines, Having(st))
  }

  /** A district is as bad as its worst line. */
  function OverallStatus(critical: nat, warning: nat): StockStatus
  {
    if critical > 0 then Critical else if warning > 0 then Warning else Good
  }

  datatype DistrictOverview = DistrictOverview(
    districtName: string,
    status: StockStatus,
    criticalItems: nat,
    warningItems: nat,
    goodItems: nat)

  function OverviewOf(d: DistrictStock): DistrictOverview
  {
    var c := CountWith(d.lines, Critical);
    var w := CountWith(d.lines, Warning);
    DistrictOverview(d.name, OverallStatus(c, w), c, w, CountWith(d.lines, Good))
  }

  /** The `results` dictionary: each district id to its overview; a later
      district with the same id replaces an earlier one. */
  function Results(ds: seq<DistrictStock>): map<string, DistrictOverview>
  {
    if ds == [] then map[]
    else Results(ds[..|ds| - 1])[ds[|ds| - 1].id := OverviewOf(ds[|ds| - 1])]
  }

  /** The state-wide number of lines at status `st`. */
  function Total(ds: seq<DistrictStock>, st: StockStatus): int
  {
    Sum(ds, (d: DistrictStock) => CountWith(d.lines, st))
  }

  /** `int((good / total) * 100)` on floats, 0 for no lines: the quotient is
      rounded to a double, the product with 100 rounded again, and `int`
      drops the fraction. */
  function Readiness(good: nat, total: nat): nat
  {
    if total > 0 then Truncate(Times(Quotient(good, total), 100)) else 0
  }

  /** The percentage of good lines rounded down, in exact arithmetic: what
      the readiness figure stands for, and what `Readiness` approximates. */
  function FloorPercentage(good: int, total: int): int
  {
    if total > 0 then (good * 100) / total else 0
  }

  datatype StateOverview = StateOverview(
    overallReadiness: int,
    criticalItems: nat,
    warningItems: nat,
    goodItems: nat,
    districts: map<string, DistrictOverview>)

  method GetStateStockOverview(ds: seq<DistrictStock>) returns (ov: StateOverview)
    ensures ov.criticalItems == Total(ds, Critical)
    ensures ov.warningItems == Total(ds, Warning)
    ensures ov.goodItems == Total(ds, Good)
    ensures ov.districts == Results(ds)
    ensures ov.overallReadiness == Readiness(ov.goodItems, ov.criticalItems + ov.warningItems + ov.goodItems)
  {
    var results: map<string, DistrictOverview> := map[];
    var totalCritical: nat, totalWarning: nat, totalGood: nat := 0, 0, 0;
    for i := 0 to |ds|
      invariant totalCritical == Total(ds[..i], Critical)
      invariant totalWarning == Total(ds[..i], Warning)
      invariant totalGood == Total(ds[..i], Good)
      invariant results == Results(ds[..i])
    {
      assert ds[..i + 1][..i] == ds[..i];
      var criticalCount := CountWith(ds[i].lines, Critical);
      var warningCount := CountWith(ds[i].lines, Warning);
      var goodCount := CountWith(ds[i].lines, Good);
      totalCritical := totalCritical + criticalCount;
      totalWarning := totalWarning + warningCount;
      totalGood := totalGood + goodCount;
      var status;
      if criticalCount > 0 {
        status := Critical;
      } else if warningCount > 0 {
        status := Warning;
      } else {
        status := Good;
      }
      results := results[ds[i].id := DistrictOverview(ds[i].name, status, criticalCount, warningCount, goodCount)];
    }
    assert ds[..|ds|] == ds;
    var totalItems := totalCritical + totalWarning + totalGood;
    var readiness := if totalItems > 0 then Truncate(Times(Quotient(totalGood, totalItems), 100)) else 0;
    ov := StateOverview(readiness, totalCritical, totalWarning, totalGood, results);
  }

  /** A district is critical when one of its lines is, warning when none is
      critical and one is warning, and good only when every line is good. */
  lemma OverallStatusOfLines(d: DistrictStock)
    ensures OverviewOf(d).status == Critical <==> exists i :: 0 <= i < |d.lines| && d.lines[i].status == Critical
    ensures OverviewOf(d).status == Warning <==>
              (forall i :: 0 <= i < |d.lines| ==> d.lines[i].status != Critical)
              && exists i :: 0 <= i < |d.lines| && d.lines[i].status == Warning
    ensures OverviewOf(d).status == Good <==> forall i :: 0 <= i < |d.lines| ==> d.lines[i].status == Good
  {
    CountPositive(d.lines, Having(Critical));
    CountPositive(d.lines, Having(Warning));
  }

  /** The state totals split the state's lines: every line is counted under
      exactly one status. */
  lemma {:induction false} TotalsCoverEveryLine(ds: seq<DistrictStock>)
    ensures Total(ds, Critical) + Total(ds, Warning) + Total(ds, Good) == Sum(ds, (d: DistrictStock) => |d.lines|)
  {
    if ds != [] {
      var d := ds[|ds| - 1];
      TotalsCoverEveryLine(ds[..|ds| - 1]);
      CountPartition3(d.lines, Having(Critical), Having(Warning), Having(Good));
    }
  }

  /** The exact percentage rounded down lies in 0..100, is 100 exactly when
      every line is good and 0 when none is (or there are none). */
  lemma FloorPercentageBounds(good: int, total: int)
    requires 0 <= good <= total
    ensures var r := FloorPercentage(good, total);
      0 <= r <= 100
      && (total > 0 ==> r * total <= 100 * good < (r + 1) * total)
      && (total > 0 ==> (r == 100 <==> good == total))
      && (good == 0 ==> r == 0)
  {
    if total > 0 {
      var r := FloorPercentage(good, total);
      FloorQuotient(100 * good, total);
      if r > 100 {
        MulMonotone(101, r, total);
      }
      if good == total && r < 100 {
        MulMonotone(r + 1, 100, total);
      }
    }
  }

  lemma DivideExactly(a: nat, b: nat)
    requires b > 0
    ensures (a * b) / b == a && (a * b) % b == 0
  {
    var q, r := (a * b) / b, (a * b) % b;
    assert (a - q) * b == r;
    if a - q >= 1 {
      MulMonotone(1, a - q, b);
    } else if a - q <= -1 {
      MulMonotone(a - q, -1, b);
    }
  }

  /** 1.0 * 100 is exactly 100.0. */
  lemma HundredPercent()
    ensures Times(Double(4503599627370496, -52), 100) == Double(7036874417766400, -46)
    ensures Truncate(Double(7036874417766400, -46)) == 100
  {
    Pow2Values();
    assert Log2Floor(450359962737049600, 288230376151711744) == 0;
    assert Log2Floor(450359962737049600, 4503599627370496) == 6;
  }

  /** No good line gives 0 and all lines good give 100, whatever the total. */
  lemma ReadinessEnds(total: nat)
    requires total > 0
    ensures Readiness(0, total) == 0
    ensures Readiness(total, total) == 100
  {
    Pow2Values();
    assert Log2Floor(total, total) == 0;
    DivideExactly(4503599627370496, total);
    assert total * 4503599627370496 == 4503599627370496 * total;
    assert Quotient(total, total) == Double(4503599627370496, -52);
    HundredPercent();
  }

  lemma ReadinessQuotients()
    ensures Quotient(29, 100) == Double(5224175567749775, -54)
    ensures Quotient(57, 100) == Double(5134103575202365, -53)
  {
    Pow2Values();
    assert Log2Floor(29, 100) == -2;
    assert Log2Floor(57, 100) == -1;
  }

  lemma ReadinessProducts()
    ensures Times(Double(5224175567749775, -54), 100) == Double(8162774324609023, -48)
    ensures Times(Double(5134103575202365, -53), 100) == Double(8022036836253695, -47)
  {
    Pow2Values();
    assert Log2Floor(522417556774977500, 288230376151711744) == 0;
    assert Log2Floor(522417556774977500, 18014398509481984) == 4;
    assert Log2Floor(513410357520236500, 288230376151711744) == 0;
    assert Log2Floor(513410357520236500, 9007199254740992) == 5;
  }

  /** 29 good lines of 100 give a readiness of 28, and 57 of 100 give 56:
      0.29 * 100 and 0.57 * 100 both fall just short of a whole number as
      doubles, one below the exact percentage. */
  lemma ReadinessBelowFloor()
    ensures Readiness(29, 100) == 28 && FloorPercentage(29, 100) == 29
    ensures Readiness(57, 100) == 56 && FloorPercentage(57, 100) == 57
  {
    ReadinessQuotients();
    ReadinessProducts();
    Pow2Values();
  }

  lemma MulMonotone(a: int, b: int, c: int)
    requires a <= b && c >= 0
    ensures a * c <= b * c
  {
    assert b * c - a * c == (b - a) * c;
  }


  /** With distinct district ids every district is in the results under its
      own id with its own overview. */
  lemma {:induction false} ResultsHoldEveryDistrict(ds: seq<DistrictStock>)
    requires DistinctDistricts(ds)
    ensures Results(ds).Keys == set d | d in ds :: d.id
    ensures forall i :: 0 <= i < |ds| ==> Results(ds)[ds[i].id] == OverviewOf(ds[i])
  {
    if ds != [] {
      var init := ds[..|ds| - 1];
      assert DistinctDistricts(init);
      ResultsHoldEveryDistrict(init);
      assert forall d :: d in ds <==> d in init || d == ds[|ds| - 1];
      forall i | 0 <= i < |ds| - 1 ensures Results(ds)[ds[i].id] == OverviewOf(ds[i]) {
        assert init[i] == ds[i];
      }
    }
  }

  // ---------------------------------------------------------------------------
  // GET /{district_id}

  /** `{'critical': 0, 'warning': 1, 'good': 2}[s['status']]`. */
  function StatusRank(s: StockItem): int
  {
    match s.status
    case Critical => 0
    case Warning => 1
    case Good => 2
  }

  datatype DistrictDetail = DistrictDetail(
    districtId: string,
    districtName: string,
    stockItems: seq<StockItem>,
    critical: nat,
    warning: nat,
    good: nat)

  method GetDistrictStock(ds: seq<DistrictStock>, id: string) returns (res: Result<DistrictDetail>)
    ensures FindDistrict(ds, id).None? <==> res.Err?
    ensures res.Err? ==> res.error == DistrictNotFound(id)
    ensures res.Ok? ==>
      var d := FindDistrict(ds, id).value;
      var v := res.value;
      v.districtId == id && v.districtName == d.name
      && v.stockItems == SortBy(d.lines, StatusRank)
      && v.critical == CountWith(v.stockItems, Critical)
      && v.warning == CountWith(v.stockItems, Warning)
      && v.good == CountWith(v.stockItems, Good)
  {
    var district := FindDistrict(ds, id);
    if district.None? {
      return Err(DistrictNotFound(id));
    }
    var items := SortBy(district.value.lines, StatusRank);
    res := Ok(DistrictDetail(id, district.value.name, items,
      CountWith(items, Critical), CountWith(items, Warning), CountWith(items, Good)));
  }

  /** The district's lines come worst first, each status group in its
      original order, and the summary counts are those of the lines. */
  lemma DistrictStockOrder(d: DistrictStock)
    ensures var items := SortBy(d.lines, StatusRank);
      SortedBy(items, StatusRank)
      && multiset(items) == multiset(d.lines)
      && (forall k :: WithKey(items, StatusRank, k) == WithKey(d.lines, StatusRank, k))
      && CountWith(items, Critical) == CountWith(d.lines, Critical)
      && CountWith(items, Warning) == CountWith(d.lines, Warning)
      && CountWith(items, Good) == CountWith(d.lines, Good)
      && CountWith(items, Critical) + CountWith(items, Warning) + CountWith(items, Good) == |d.lines|
  {
    var items := SortBy(d.lines, StatusRank);
    forall k ensures WithKey(items, StatusRank, k) == WithKey(d.lines, StatusRank, k) {
      SortByStable(d.lines, StatusRank, k);
    }
    CountSortBy(d.lines, StatusRank, Having(Critical));
    CountSortBy(d.lines, StatusRank, Having(Warning));
    CountSortBy(d.lines, StatusRank, Having(Good));
    CountPartition3(d.lines, Having(Critical), Having(Warning), Having(Good));
  }

  // ---------------------------------------------------------------------------
  // GET /gaps/all

  datatype Gap = Gap(
    districtId: string,
    districtName: string,
    medicineId: string,
    medicineName: string,
    gap: int,
    currentStock: int,
    predictedDemand: int,
    daysUntilStockout: int,
    status: StockStatus)

  function GapEntry(d: DistrictStock, s: StockItem): Gap
  {
    Gap(d.id, d.name, s.medicineId, s.medicineName, Abs(s.stockGap), s.currentStock,
        s.predicted14dDemand, s.daysUntilStockout, s.status)
  }

  function Abs(x: int): int { if x < 0 then -x else x }

  /** The entries for the lines of `d` below their order point, in line order. */
  function LineGaps(d: DistrictStock, lines: seq<StockItem>): seq<Gap>
  {
    if lines == [] then []
    else
      var s := lines[|lines| - 1];
      LineGaps(d, lines[..|lines| - 1]) + (if s.stockGap < 0 then [GapEntry(d, s)] else [])
  }

  /** Every district's gap entries, district after district. */
  function GapsIn(ds: seq<DistrictStock>): seq<Gap>
  {
    if ds == [] then [] else GapsIn(ds[..|ds| - 1]) + LineGaps(ds[|ds| - 1], ds[|ds| - 1].lines)
  }

  function DaysKey(g: Gap): int { g.daysUntilStockout }

  lemma LineGapsSnoc(d: DistrictStock, lines: seq<StockItem>, k: nat)
    requires k < |lines|
    ensures LineGaps(d, lines[..k + 1])
         == LineGaps(d, lines[..k]) + (if lines[k].stockGap < 0 then [GapEntry(d, lines[k])] else [])
  {
    assert lines[..k + 1][..k] == lines[..k];
  }

  lemma GapsInSnoc(ds: seq<DistrictStock>, i: nat)
    requires i < |ds|
    ensures GapsIn(ds[..i + 1]) == GapsIn(ds[..i]) + LineGaps(ds[i], ds[i].lines)
  {
    assert ds[..i + 1][..i] == ds[..i];
  }

  method GetAllStockGaps(ds: seq<DistrictStock>) returns (totalGaps: nat, gaps: seq<Gap>)
    ensures gaps == SortBy(GapsIn(ds), DaysKey)
    ensures totalGaps == |gaps|
  {
    gaps := [];
    for i := 0 to |ds|
      invariant gaps == GapsIn(ds[..i])
    {
      var lines := ds[i].lines;
      var before := gaps;
      for k := 0 to |lines|
        invariant gaps == before + LineGaps(ds[i], lines[..k])
      {
        LineGapsSnoc(ds[i], lines, k);
        if lines[k].stockGap < 0 {
          gaps := gaps + [GapEntry(ds[i], lines[k])];
        }
      }
      assert lines[..|lines|] == lines;
      GapsInSnoc(ds, i);
    }
    assert ds[..|ds|] == ds;
    gaps := SortBy(gaps, DaysKey);
    totalGaps := |gaps|;
  }

  /** The gap entries of one district are exactly its lines with a negative
      stock gap, each reporting a positive gap. */
  lemma {:induction false} LineGapsMembers(d: DistrictStock, lines: seq<StockItem>)
    ensures forall g :: g in LineGaps(d, lines) <==>
              exists k :: 0 <= k < |lines| && lines[k].stockGap < 0 && g == GapEntry(d, lines[k])
    ensures forall g :: g in LineGaps(d, lines) ==> g.gap > 0 && g.districtId == d.id
  {
    if lines != [] {
      var init := lines[..|lines| - 1];
      LineGapsMembers(d, init);
      assert forall k :: 0 <= k < |init| ==> init[k] == lines[k];
    }
  }

  /** One entry per line below its order point. */
  lemma {:induction false} LineGapsCount(d: DistrictStock, lines: seq<StockItem>)
    ensures |LineGaps(d, lines)| == Count(lines, (s: StockItem) => s.stockGap < 0)
  {
    if lines != [] {
      var init := lines[..|lines| - 1];
      LineGapsCount(d, init);
      CountAppend(init, [lines[|lines| - 1]], (s: StockItem) => s.stockGap < 0);
      assert init + [lines[|lines| - 1]] == lines;
    }
  }


  /** `total_gaps` counts the lines below their order point. */
  lemma {:induction false} TotalGaps(ds: seq<DistrictStock>)
    ensures |SortBy(GapsIn(ds), DaysKey)| == Sum(ds, (d: DistrictStock) => Count(d.lines, (s: StockItem) => s.stockGap < 0))
  {
    if ds != [] {
      var d := ds[|ds| - 1];
      TotalGaps(ds[..|ds| - 1]);
      LineGapsCount(d, d.lines);
    }
  }

  /** The gaps list holds exactly the lines below their order point, each
      with a positive gap, soonest stock-out first. */
  lemma {:induction false} GapsListed(ds: seq<DistrictStock>)
    ensures var gaps := SortBy(GapsIn(ds), DaysKey);
      SortedBy(gaps, DaysKey)
      && multiset(gaps) == multiset(GapsIn(ds))
      && (forall g :: g in gaps <==>
            exists i, k :: 0 <= i < |ds| && 0 <= k < |ds[i].lines| && ds[i].lines[k].stockGap < 0
                           && g == GapEntry(ds[i], ds[i].lines[k]))
      && (forall g :: g in gaps ==> g.gap > 0)
  {
    SortByMembers(GapsIn(ds), DaysKey);
    GapsMembers(ds);
  }

  lemma {:induction false} GapsMembers(ds: seq<DistrictStock>)
    ensures forall g :: g in GapsIn(ds) <==>
              exists i, k :: 0 <= i < |ds| && 0 <= k < |ds[i].lines| && ds[i].lines[k].stockGap < 0
                             && g == GapEntry(ds[i], ds[i].lines[k])
    ensures forall g :: g in GapsIn(ds) ==> g.gap > 0
  {
    if ds != [] {
      var init := ds[..|ds| - 1];
      var d := ds[|ds| - 1];
      GapsMembers(init);
      LineGapsMembers(d, d.lines);
      assert forall i :: 0 <= i < |init| ==> init[i] == ds[i];
    }
  }
}
