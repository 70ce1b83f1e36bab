/** The alerts API: one alert per district whose risk level is red, orange
    or yellow, optionally only for one level, most severe first, with a
    title, a message built from the signals and anomalies, and the actions
    recommended at that level. The risk level, score and signals and the
    anomalies come from the forecaster's risk model and are inputs here. */
module Alerts {
  import opened Wrappers
  import opened Text
  import opened Time
  import opened Lists

  /** The risk signals, each in thousandths (0.7 is 700). */
  datatype Signals = Signals(causalWeather: Option<int>, weather: Option<int>, trend: Option<int>)

  /** What `calculate_risk_score` reports: a level and a score (in
      thousandths, as it rounds the score to three decimals), with the
      signals behind them. */
  datatype Risk = Risk(level: string, score: int, signals: Signals)

  /** An anomaly `detect_anomalies` reports; only its message is used here. */
  datatype Anomaly = Anomaly(message: string)

  /** A district with its risk and anomalies. */
  datatype DistrictRisk = DistrictRisk(districtId: string, districtName: string, risk: Risk, anomalies: seq<Anomaly>)

  // ---------------------------------------------------------------------------
  // The parts of one alert

  /** The title: a coloured marker (spelled as the source file spells it),
      the level's heading and the district's name. */
  function AlertTitle(level: string, name: string): (t: string)
    ensures |t| > |name| && t[|t| - |name|..] == name
  {
    if level == "red" then "\U{11F}\U{178}\U{201D}\U{B4} HIGH RISK: " + name
    else if level == "orange" then "\U{11F}\U{178}\U{178}\U{A0} ELEVATED: " + name
    else "\U{11F}\U{178}\U{178}\U{A1} WATCH: " + name
  }

  /** The three alert levels give three different titles for a district. */
  lemma TitlesTellLevelsApart(name: string)
    ensures AlertTitle("red", name) != AlertTitle("orange", name)
    ensures AlertTitle("red", name) != AlertTitle("yellow", name)
    ensures AlertTitle("orange", name) != AlertTitle("yellow", name)
  {
  }

  /** `signals.get('causal_weather', signals.get('weather', 0))`. */
  function WeatherSignal(s: Signals): int
  {
    s.causalWeather.GetOr(s.weather.GetOr(0))
  }

  const WeatherText := "Causal weather signal (14-day lag) indicates high transmission risk"
  const TrendText := "Case trend showing increase"
  const DefaultMessage := "Elevated risk detected based on multiple signals"

  function AnomalyMessages(anomalies: seq<Anomaly>): (ms: seq<string>)
    ensures |ms| == |anomalies|
    ensures forall i :: 0 <= i < |ms| ==> ms[i] == anomalies[i].message
  {
    if anomalies == [] then [] else [anomalies[0].message] + AnomalyMessages(anomalies[1..])
  }

  /** The parts of the message: the weather sentence above 0.7, the trend
      sentence above 0.6, then every anomaly's message. */
  function MessageParts(s: Signals, anomalies: seq<Anomaly>): seq<string>
  {
    (if WeatherSignal(s) > 700 then [WeatherText] else [])
    + (if s.trend.GetOr(0) > 600 then [TrendText] else [])
    + AnomalyMessages(anomalies)
  }

  function AlertMessage(s: Signals, anomalies: seq<Anomaly>): string
  {
    var parts := MessageParts(s, anomalies);
    if parts != [] then Join(". ", parts) else DefaultMessage
  }

  /** The message falls back to the default text exactly when neither signal
      crosses its threshold and there is no anomaly; otherwise it opens with
      the first contributing part. */
  lemma MessageFallsBack(s: Signals, anomalies: seq<Anomaly>)
    ensures MessageParts(s, anomalies) == [] <==>
              WeatherSignal(s) <= 700 && s.trend.GetOr(0) <= 600 && anomalies == []
    ensures MessageParts(s, anomalies) == [] ==> AlertMessage(s, anomalies) == DefaultMessage
    ensures MessageParts(s, anomalies) != [] ==> MessageParts(s, anomalies)[0] <= AlertMessage(s, anomalies)
  {
    var parts := MessageParts(s, anomalies);
    if parts != [] {
      JoinStartsWithFirst(". ", parts);
    }
  }

  lemma {:induction false} JoinStartsWithFirst(sep: string, parts: seq<string>)
    requires parts != []
    ensures parts[0] <= Join(sep, parts)
  {
    if |parts| > 1 {
      JoinStartsWithFirst(sep, parts[..|parts| - 1]);
    }
  }

  /** The actions recommended at a level. */
  function RecommendedActions(level: string): (actions: seq<string>)
    ensures |actions| == if level == "red" then 4 else if level == "orange" then 3 else 2
  {
    if level == "red" then
      ["Verify stock levels for key medicines",
       "Alert district hospital for surge preparation",
       "Consider requesting emergency stock transfer",
       "Increase surveillance reporting frequency"]
    else if level == "orange" then
      ["Review stock levels for key medicines",
       "Prepare redistribution plan",
       "Monitor situation closely"]
    else
      ["Continue routine monitoring",
       "Ensure stock levels are maintained"]
  }

  // ---------------------------------------------------------------------------
  // GET /

  datatype Alert = Alert(
    id: string,
    districtId: string,
    districtName: string,
    level: string,
    riskScore: int,
    title: string,
    message: string,
    signals: Signals,
    anomalies: seq<Anomaly>,
    triggeredAt: string,
    recommendedActions: seq<string>)

  /** The clock reading as the alert prints it: the date in the alert's id
      and the full timestamp it was triggered at. */
  datatype Stamp = Stamp(date: string, iso: string)

  function StampOf(now: int): Stamp
  {
    Stamp(CompactDate(now), IsoFormat(now))
  }

  predicate IsAlertLevel(level: string)
  {
    level == "red" || level == "orange" || level == "yellow"
  }

  /** `not (level and risk['level'] != level)`: no filter, an empty one, or
      the district's own level. */
  predicate PassesFilter(filter: Option<string>, level: string)
  {
    filter.None? || filter.value == "" || level == filter.value
  }

  function AlertOf(d: DistrictRisk, stamp: Stamp): Alert
  {
    Alert("alert-" + d.districtId + "-" + stamp.date, d.districtId, d.districtName, d.risk.level, d.risk.score,
          AlertTitle(d.risk.level, d.districtName), AlertMessage(d.risk.signals, d.anomalies),
          d.risk.signals, d.anomalies, stamp.iso, RecommendedActions(d.risk.level))
  }

  /** The districts that raise an alert, in district order. */
  function Alerted(ds: seq<DistrictRisk>, filter: Option<string>): seq<DistrictRisk>
  {
    if ds == [] then []
    else
      var d := ds[|ds| - 1];
      Alerted(ds[..|ds| - 1], filter) + (if PassesFilter(filter, d.risk.level) && IsAlertLevel(d.risk.level) then [d] else [])
  }

  function AlertsFor(sel: seq<DistrictRisk>, stamp: Stamp): seq<Alert>
  {
    seq(|sel|, i requires 0 <= i < |sel| => AlertOf(sel[i], stamp))
  }

  /** The alerts in district order, before the sort. */
  function Raised(ds: seq<DistrictRisk>, filter: Option<string>, stamp: Stamp): seq<Alert>
  {
    AlertsFor(Alerted(ds, filter), stamp)
  }

  /** `{'red': 0, 'orange': 1, 'yellow': 2, 'green': 3}[a['level']]`. */
  function Severity(a: Alert): int
  {
    if a.level == "red" then 0
    else if a.level == "orange" then 1
    else if a.level == "yellow" then 2
    else 3
  }

  function LevelIs(level: string): Alert -> bool
  {
    (a: Alert) => a.level == level
  }

  datatype AlertSummary = AlertSummary(red: nat, orange: nat, yellow: nat)

  datatype AlertList = AlertList(count: nat, summary: AlertSummary, alerts: seq<Alert>)

  lemma RaisedSnoc(ds: seq<DistrictRisk>, i: nat, filter: Option<string>, stamp: Stamp)
    requires i < |ds|
    ensures Raised(ds[..i + 1], filter, stamp)
         == Raised(ds[..i], filter, stamp)
            + (if PassesFilter(filter, ds[i].risk.level) && IsAlertLevel(ds[i].risk.level) then [AlertOf(ds[i], stamp)] else [])
  {
    assert ds[..i + 1][..i] == ds[..i];
    var sel := Alerted(ds[..i], filter);
    if PassesFilter(filter, ds[i].risk.level) && IsAlertLevel(ds[i].risk.level) {
      AlertsForSnoc(sel, ds[i], stamp);
    } else {
      assert sel + [] == sel;
    }
  }

  lemma AlertsForSnoc(sel: seq<DistrictRisk>, d: DistrictRisk, stamp: Stamp)
    ensures AlertsFor(sel + [d], stamp) == AlertsFor(sel, stamp) + [AlertOf(d, stamp)]
  {
    var xs := AlertsFor(sel + [d], stamp);
    var ys := AlertsFor(sel, stamp) + [AlertOf(d, stamp)];
    assert |xs| == |ys|;
    forall i | 0 <= i < |xs| ensures xs[i] == ys[i] {
      if i < |sel| {
        assert (sel + [d])[i] == sel[i];
      }
    }
  }

  method GetAllAlerts(ds: seq<DistrictRisk>, filter: Option<string>, now: int) returns (out: AlertList)
    ensures out.alerts == SortBy(Raised(ds, filter, StampOf(now)), Severity)
    ensures out.count == |out.alerts|
    ensures out.summary == AlertSummary(Count(out.alerts, LevelIs("red")), Count(out.alerts, LevelIs("orange")),
                                        Count(out.alerts, LevelIs("yellow")))
  {
    var stamp := StampOf(now);
    var alerts := [];
    for i := 0 to |ds|
      invariant alerts == Raised(ds[..i], filter, stamp)
    {
      RaisedSnoc(ds, i, filter, stamp);
      var level := ds[i].risk.level;
      if filter.Some? && filter.value != "" && level != filter.value {
        continue;
      }
      if level == "red" || level == "orange" || level == "yellow" {
        alerts := alerts + [AlertOf(ds[i], stamp)];
      }
    }
    assert ds[..|ds|] == ds;
    alerts := SortBy(alerts, Severity);
    out := AlertList(|alerts|, AlertSummary(Count(alerts, LevelIs("red")), Count(alerts, LevelIs("orange")),
                                            Count(alerts, LevelIs("yellow"))), alerts);
  }

  /** A district raises an alert exactly when its level is red, orange or
      yellow and passes the filter. */
  lemma {:induction false} AlertedMembers(ds: seq<DistrictRisk>, filter: Option<string>)
    ensures forall d :: d in Alerted(ds, filter) <==>
              d in ds && PassesFilter(filter, d.risk.level) && IsAlertLevel(d.risk.level)
  {
    if ds != [] {
      AlertedMembers(ds[..|ds| - 1], filter);
      assert forall d :: d in ds <==> d in ds[..|ds| - 1] || d == ds[|ds| - 1];
    }
  }

  /** Each alert carries its district's id and level. */
  lemma AlertsCarryLevels(sel: seq<DistrictRisk>, stamp: Stamp)
    ensures forall a :: a in AlertsFor(sel, stamp) ==>
              exists d :: d in sel && a.level == d.risk.level && a.districtId == d.districtId
  {
    forall a | a in AlertsFor(sel, stamp)
      ensures exists d :: d in sel && a.level == d.risk.level && a.districtId == d.districtId
    {
      var i :| 0 <= i < |sel| && AlertsFor(sel, stamp)[i] == a;
      assert sel[i] in sel;
    }
  }

  /** Every alert comes from a district at level red, orange or yellow that
      passes the filter, so under a filter every alert has the filtered
      level; most severe come first, and each level keeps district order. */
  lemma AlertsFiltered(ds: seq<DistrictRisk>, filter: Option<string>, stamp: Stamp)
    ensures var alerts := SortBy(Raised(ds, filter, stamp), Severity);
      (forall a :: a in alerts ==>
         IsAlertLevel(a.level) && PassesFilter(filter, a.level)
         && exists d :: d in ds && d.districtId == a.districtId && d.risk.level == a.level)
      && SortedBy(alerts, Severity)
      && forall k :: WithKey(alerts, Severity, k) == WithKey(Raised(ds, filter, stamp), Severity, k)
  {
    var raised := Raised(ds, filter, stamp);
    AlertedMembers(ds, filter);
    AlertsCarryLevels(Alerted(ds, filter), stamp);
    SortByMembers(raised, Severity);
    forall k ensures WithKey(SortBy(raised, Severity), Severity, k) == WithKey(raised, Severity, k) {
      SortByStable(raised, Severity, k);
    }
  }

  /** One alert per alerted district: the count is the number of districts
      at an alert level that pass the filter. */
  lemma AlertCount(ds: seq<DistrictRisk>, filter: Option<string>, stamp: Stamp)
    ensures |SortBy(Raised(ds, filter, stamp), Severity)|
         == Count(ds, (d: DistrictRisk) => PassesFilter(filter, d.risk.level) && IsAlertLevel(d.risk.level))
  {
    AlertedCount(ds, filter);
  }

  lemma {:induction false} AlertedCount(ds: seq<DistrictRisk>, filter: Option<string>)
    ensures |Alerted(ds, filter)| == Count(ds, (d: DistrictRisk) => PassesFilter(filter, d.risk.level) && IsAlertLevel(d.risk.level))
  {
    if ds != [] {
      var init := ds[..|ds| - 1];
      AlertedCount(init, filter);
      CountAppend(init, [ds[|ds| - 1]], (d: DistrictRisk) => PassesFilter(filter, d.risk.level) && IsAlertLevel(d.risk.level));
      assert init + [ds[|ds| - 1]] == ds;
    }
  }

  /** The three summary counts add up to `count`. */
  lemma SummaryAddsUp(ds: seq<DistrictRisk>, filter: Option<string>, stamp: Stamp)
    ensures var alerts := SortBy(Raised(ds, filter, stamp), Severity);
      Count(alerts, LevelIs("red")) + Count(alerts, LevelIs("orange")) + Count(alerts, LevelIs("yellow")) == |alerts|
  {
    AlertsFiltered(ds, filter, stamp);
    CountPartition3(SortBy(Raised(ds, filter, stamp), Severity), LevelIs("red"), LevelIs("orange"), LevelIs("yellow"));
  }
}
