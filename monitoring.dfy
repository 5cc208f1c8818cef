/** Model of the monitoring and alerting engine (`MonitoringService` in
    lib/monitoring.ts): a registry of alert rules, an evaluator that averages
    a window of recent samples and compares the mean with a threshold, the
    alert lifecycle (trigger with cooldown, resolve, acknowledge), the
    notification fan-out, retention cleanup, the start/stop flag and the
    read-only queries.

    The relational store is replaced by two in-memory sequences: the metric
    table and the alert table. Time is an integer number of milliseconds,
    metric values and thresholds are reals, and the ids of new alerts are
    supplied by the caller. */
module Monitoring {
  import opened Common

  // ---------------------------------------------------------------------
  // Data model
  // ---------------------------------------------------------------------

  datatype Provider = Aws | Azure | Gcp
  datatype ResourceType = Compute | StorageResource | Network | Database
  datatype Severity = Low | Medium | High | Critical

  /** The comparison of a rule. The source's type admits only the five named
      operators, but `checkCondition` has a default branch for anything else. */
  datatype Condition = Gt | Lt | Eq | Gte | Lte | Unrecognised(tag: string)

  datatype Status = Active | Acknowledged | Resolved

  const MinuteMs: int := 60 * 1000
  const DayMs: int := 24 * 60 * 60 * 1000
  /** At most this many samples enter one evaluation (`take: 10`). */
  const WindowCap: nat := 10
  const DefaultMetricsLimit: nat := 100
  const DefaultHistoryLimit: nat := 50
  const DefaultCollectionInterval: int := 60 * 1000
  const DefaultRetentionDays: int := 30

  datatype MetricSample = MetricSample(
    provider: Provider,
    resourceType: ResourceType,
    resourceId: string,
    metricName: string,
    value: real,
    unit: string,
    timestamp: int,
    tags: map<string, string>)

  /** `duration` (the window) and `cooldownPeriod` are in minutes. */
  datatype AlertRule = AlertRule(
    id: string,
    name: string,
    description: string,
    metricName: string,
    condition: Condition,
    threshold: real,
    duration: int,
    severity: Severity,
    enabled: bool,
    channels: seq<string>,
    lastTriggered: Option<int>,
    cooldownPeriod: int)

  datatype Alert = Alert(
    id: string,
    ruleId: string,
    ruleName: string,
    severity: Severity,
    status: Status,
    createdAt: int,
    resolvedAt: Option<int>,
    acknowledgedAt: Option<int>,
    acknowledgedBy: Option<string>,
    metricData: MetricSample,
    channels: seq<string>)

  /** Per channel: `None` when the configuration has no entry for it,
      `Some(enabled)` otherwise. */
  datatype ChannelSettings = ChannelSettings(email: Option<bool>, slack: Option<bool>, webhook: Option<bool>)

  /** `retentionPeriod` is in days, `collectionInterval` in milliseconds.
      `alertRules` is part of the configuration object but the engine never
      reads it: the registry is the rule map. */
  datatype MonitoringConfig = MonitoringConfig(
    enabled: bool,
    collectionInterval: int,
    retentionPeriod: int,
    alertRules: seq<AlertRule>,
    notificationChannels: ChannelSettings)

  /** A `Partial<MonitoringConfig>`: the fields present replace the current ones. */
  datatype ConfigPatch = ConfigPatch(
    enabled: Option<bool>,
    collectionInterval: Option<int>,
    retentionPeriod: Option<int>,
    alertRules: Option<seq<AlertRule>>,
    notificationChannels: Option<ChannelSettings>)

  /** What one rule's evaluation did, in the order the rules were visited. */
  datatype Event =
    | Skipped                                          // the rule is disabled
    | QueryFailed                                      // the store query threw; caught
    | NoData                                           // the window is empty
    | Suppressed                                       // condition met inside the cooldown
    | AlertTriggered(alert: Alert, delivered: seq<string>)
    | AlertResolved(alert: Alert)
    | Steady                                           // condition false, nothing to resolve

  datatype StatusReport = StatusReport(enabled: bool, activeAlerts: nat, totalRules: nat, enabledRules: nat)

  function DefaultConfig(): MonitoringConfig {
    MonitoringConfig(true, DefaultCollectionInterval, DefaultRetentionDays, [], ChannelSettings(None, None, None))
  }

  /** The rules `initializeDefaultRules` registers, in registration order. */
  function DefaultRules(): seq<AlertRule> {
    [ AlertRule("high-cpu-usage", "High CPU Usage", "CPU usage exceeds 80%", "cpu_usage",
                Gt, 80.0, 5, High, true, ["email", "slack"], None, 10),
      AlertRule("high-memory-usage", "High Memory Usage", "Memory usage exceeds 85%", "memory_usage",
                Gt, 85.0, 5, High, true, ["email"], None, 10),
      AlertRule("high-error-rate", "High Error Rate", "Error rate exceeds 5%", "error_rate",
                Gt, 5.0, 10, Critical, true, ["email", "slack", "webhook"], None, 5),
      AlertRule("low-availability", "Low Availability", "Service availability below 99%", "availability",
                Lt, 99.0, 15, Critical, true, ["email", "slack"], None, 5) ]
  }

  predicate UniqueRuleIds(rules: seq<AlertRule>) {
    forall i, j | 0 <= i < j < |rules| :: rules[i].id != rules[j].id
  }

  predicate UniqueIds(alerts: seq<Alert>) {
    forall i, j | 0 <= i < j < |alerts| :: alerts[i].id != alerts[j].id
  }

  /** The in-memory alert map holds only alerts that are not resolved. */
  predicate AllOpen(alerts: seq<Alert>) {
    forall i | 0 <= i < |alerts| :: alerts[i].status != Resolved
  }

  /** The default registry has distinct ids, and every rule is enabled, has a
      positive window, a non-negative cooldown and at least one channel. */
  lemma DefaultRulesWellFormed()
    ensures var rs := DefaultRules();
      && |rs| == 4
      && UniqueRuleIds(rs)
      && forall i | 0 <= i < |rs| ::
           rs[i].enabled && rs[i].duration >= 1 && rs[i].cooldownPeriod >= 0
           && |rs[i].channels| > 0 && rs[i].lastTriggered.None?
  {
    var rs := DefaultRules();
    assert rs[0].id[0] == 'h' && rs[0].id[5] == 'c';
    assert rs[1].id[5] == 'm';
    assert rs[2].id[5] == 'e';
    assert rs[3].id[0] == 'l';
  }

  // ---------------------------------------------------------------------
  // Evaluator
  // ---------------------------------------------------------------------

  function Timestamp(m: MetricSample): int { m.timestamp }

  function CreatedAt(a: Alert): int { a.createdAt }

  /** A sample the window query of a rule selects at time `now`: same metric
      name, and not older than the rule's duration. There is no upper bound
      on the timestamp. */
  predicate InWindow(m: MetricSample, rule: AlertRule, now: int) {
    m.metricName == rule.metricName && m.timestamp >= now - rule.duration * MinuteMs
  }

  /** `InWindow` as a value, capturing only the metric name and the start of
      the window. */
  function WindowFilter(rule: AlertRule, now: int): (p: MetricSample -> bool)
    ensures forall m :: p(m) == InWindow(m, rule, now)
  {
    SamplesSince(rule.metricName, now - rule.duration * MinuteMs)
  }

  /** The samples of one metric taken at or after `since`. */
  function SamplesSince(name: string, since: int): MetricSample -> bool {
    (m: MetricSample) => m.metricName == name && m.timestamp >= since
  }

  /** The samples `evaluateRule` reads: the matching samples, newest first,
      at most ten of them. */
  function RecentMetrics(store: seq<MetricSample>, rule: AlertRule, now: int): (w: seq<MetricSample>)
    ensures |w| <= WindowCap
    ensures forall i | 0 <= i < |w| :: InWindow(w[i], rule, now)
    ensures SortedDesc(w, Timestamp)
    ensures multiset(w) <= multiset(store)
    ensures forall m | m in store && InWindow(m, rule, now) && multiset(w)[m] < multiset(store)[m] ::
      |w| == WindowCap && m.timestamp <= w[WindowCap - 1].timestamp
  {
    TopN(store, WindowFilter(rule, now), Timestamp, WindowCap)
  }

  /** The window is empty exactly when no sample of the store matches. */
  lemma RecentMetricsEmpty(store: seq<MetricSample>, rule: AlertRule, now: int)
    ensures |RecentMetrics(store, rule, now)| == 0 <==> forall m | m in store :: !InWindow(m, rule, now)
  {
    var matching := Filter(store, WindowFilter(rule, now));
    if |matching| != 0 {
      assert matching[0] in matching;
    }
  }

  /** The sum of the values, accumulated from the left (the `reduce`). */
  function Sum(w: seq<MetricSample>): real {
    if w == [] then 0.0 else Sum(w[..|w| - 1]) + w[|w| - 1].value
  }

  function Mean(w: seq<MetricSample>): real
    requires |w| > 0
  {
    Sum(w) / (|w| as real)
  }

  /** `checkCondition`. On an empty window JavaScript's mean is NaN and every
      comparison with NaN is false; the engine never calls it on one. */
  function CheckCondition(rule: AlertRule, w: seq<MetricSample>): bool {
    if |w| == 0 then false
    else
      var avg := Mean(w);
      match rule.condition
      case Gt => avg > rule.threshold
      case Lt => avg < rule.threshold
      case Eq => avg == rule.threshold
      case Gte => avg >= rule.threshold
      case Lte => avg <= rule.threshold
      case Unrecognised(_) => false
  }

  lemma {:induction false} SumAbove(w: seq<MetricSample>, t: real)
    requires |w| > 0
    requires forall i | 0 <= i < |w| :: w[i].value > t
    ensures Sum(w) > (|w| as real) * t
  {
    var n := |w| - 1;
    if n > 0 {
      SumAbove(w[..n], t);
      assert (|w| as real) * t == (n as real) * t + t;
    }
  }

  lemma {:induction false} SumBelow(w: seq<MetricSample>, t: real)
    requires |w| > 0
    requires forall i | 0 <= i < |w| :: w[i].value < t
    ensures Sum(w) < (|w| as real) * t
  {
    var n := |w| - 1;
    if n > 0 {
      SumBelow(w[..n], t);
      assert (|w| as real) * t == (n as real) * t + t;
    }
  }

  lemma {:induction false} SumBetween(w: seq<MetricSample>, lo: real, hi: real)
    requires forall i | 0 <= i < |w| :: lo <= w[i].value <= hi
    ensures (|w| as real) * lo <= Sum(w) <= (|w| as real) * hi
  {
    var n := |w| - 1;
    if w != [] {
      SumBetween(w[..n], lo, hi);
      assert (|w| as real) * lo == (n as real) * lo + lo;
      assert (|w| as real) * hi == (n as real) * hi + hi;
    }
  }

  lemma QuotientAtLeast(s: real, n: real, t: real)
    requires n > 0.0 && s >= n * t
    ensures s / n >= t
  {
    assert s / n - t == (s - n * t) / n;
  }

  lemma QuotientAtMost(s: real, n: real, t: real)
    requires n > 0.0 && s <= n * t
    ensures s / n <= t
  {
    assert t - s / n == (n * t - s) / n;
  }

  lemma QuotientAbove(s: real, n: real, t: real)
    requires n > 0.0 && s > n * t
    ensures s / n > t
  {
    assert s / n - t == (s - n * t) / n;
  }

  lemma QuotientBelow(s: real, n: real, t: real)
    requires n > 0.0 && s < n * t
    ensures s / n < t
  {
    assert t - s / n == (n * t - s) / n;
  }

  /** The mean lies between the smallest and the largest value. */
  lemma MeanBounds(w: seq<MetricSample>, lo: real, hi: real)
    requires |w| > 0
    requires forall i | 0 <= i < |w| :: lo <= w[i].value <= hi
    ensures lo <= Mean(w) <= hi
  {
    SumBetween(w, lo, hi);
    QuotientAtLeast(Sum(w), |w| as real, lo);
    QuotientAtMost(Sum(w), |w| as real, hi);
  }

  /** When every sample of the window is above the threshold, exactly the
      "greater" comparisons hold. */
  lemma ConditionWhenAllAbove(rule: AlertRule, w: seq<MetricSample>)
    requires |w| > 0
    requires forall i | 0 <= i < |w| :: w[i].value > rule.threshold
    ensures CheckCondition(rule, w) <==> rule.condition == Gt || rule.condition == Gte
  {
    SumAbove(w, rule.threshold);
    QuotientAbove(Sum(w), |w| as real, rule.threshold);
  }

  /** When every sample of the window is below the threshold, exactly the
      "less" comparisons hold. */
  lemma ConditionWhenAllBelow(rule: AlertRule, w: seq<MetricSample>)
    requires |w| > 0
    requires forall i | 0 <= i < |w| :: w[i].value < rule.threshold
    ensures CheckCondition(rule, w) <==> rule.condition == Lt || rule.condition == Lte
  {
    SumBelow(w, rule.threshold);
    QuotientBelow(Sum(w), |w| as real, rule.threshold);
  }

  /** When every sample equals the threshold, exactly the comparisons that
      admit equality hold. */
  lemma ConditionWhenAllEqual(rule: AlertRule, w: seq<MetricSample>)
    requires |w| > 0
    requires forall i | 0 <= i < |w| :: w[i].value == rule.threshold
    ensures CheckCondition(rule, w) <==> rule.condition in {Eq, Gte, Lte}
  {
    SumBetween(w, rule.threshold, rule.threshold);
    QuotientAtLeast(Sum(w), |w| as real, rule.threshold);
    QuotientAtMost(Sum(w), |w| as real, rule.threshold);
  }

  // ---------------------------------------------------------------------
  // Alert map, alert table and notifications
  // ---------------------------------------------------------------------

  /** `Map.get(id)` on the alert map, as an index into its insertion order. */
  function IndexOfId(alerts: seq<Alert>, id: string): (r: Option<nat>)
    ensures r.Some? ==> r.value < |alerts| && alerts[r.value].id == id
    ensures r.None? <==> forall j | 0 <= j < |alerts| :: alerts[j].id != id
  {
    FirstIndex(alerts, (a: Alert) => a.id == id)
  }

  /** The `find` of `evaluateRule`: the first alert of the rule whose status
      is exactly `active`. */
  function FirstActive(alerts: seq<Alert>, ruleId: string): (r: Option<nat>)
    ensures r.Some? ==> r.value < |alerts| && alerts[r.value].ruleId == ruleId && alerts[r.value].status == Active
    ensures r.Some? ==> forall j | 0 <= j < r.value :: !(alerts[j].ruleId == ruleId && alerts[j].status == Active)
    ensures r.None? <==> forall j | 0 <= j < |alerts| :: !(alerts[j].ruleId == ruleId && alerts[j].status == Active)
  {
    FirstIndex(alerts, (a: Alert) => a.ruleId == ruleId && a.status == Active)
  }

  /** `Map.set(a.id, a)`: a present key keeps its place and gets the new value,
      a new key goes at the end. */
  function PutAlert(alerts: seq<Alert>, a: Alert): (r: seq<Alert>)
    ensures a in r
    ensures forall x | x in r :: x == a || x in alerts
    ensures forall x | x in alerts && x.id != a.id :: x in r
    ensures IndexOfId(alerts, a.id).None? ==> r == alerts + [a]
    ensures UniqueIds(alerts) ==> UniqueIds(r)
    ensures AllOpen(alerts) && a.status != Resolved ==> AllOpen(r)
  {
    match IndexOfId(alerts, a.id)
    case Some(i) =>
      var r := alerts[i := a];
      assert r[i] == a;
      assert forall x | x in alerts && x.id != a.id :: x in r by {
        forall x | x in alerts && x.id != a.id ensures x in r {
          var j :| 0 <= j < |alerts| && alerts[j] == x;
          assert r[j] == x;
        }
      }
      r
    case None => alerts + [a]
  }

  /** `Map.delete` of the entry at position `k`. */
  function RemoveAt(alerts: seq<Alert>, k: nat): (r: seq<Alert>)
    requires k < |alerts|
    ensures |r| == |alerts| - 1
    ensures forall x | x in r :: x in alerts
    ensures UniqueIds(alerts) ==> alerts[k] !in r && forall x | x in alerts && x != alerts[k] :: x in r
    ensures UniqueIds(alerts) ==> UniqueIds(r)
    ensures AllOpen(alerts) ==> AllOpen(r)
  {
    var r := alerts[..k] + alerts[k + 1..];
    assert forall j | 0 <= j < |r| :: r[j] == alerts[if j < k then j else j + 1];
    assert forall x | x in alerts && x != alerts[k] :: x in r by {
      forall x | x in alerts && x != alerts[k] ensures x in r {
        var j :| 0 <= j < |alerts| && alerts[j] == x;
        assert j != k;
        assert r[if j < k then j else j - 1] == x;
      }
    }
    r
  }

  /** `alert.create`: the table's key is the alert id; inserting an id that is
      already there fails, and the failure is caught, so nothing changes. */
  function CreateRecord(records: seq<Alert>, a: Alert): (r: seq<Alert>)
    ensures IndexOfId(records, a.id).None? ==> r == records + [a]
    ensures IndexOfId(records, a.id).Some? ==> r == records
    ensures UniqueIds(records) ==> UniqueIds(r)
  {
    if IndexOfId(records, a.id).Some? then records else records + [a]
  }

  /** `alert.update` keyed by id. An id that is not in the table makes the
      update fail; the failure is caught, and nothing changes. An update
      that keeps the id keeps every record's id, and so keeps ids distinct. */
  function UpdateRecord(records: seq<Alert>, id: string, f: Alert -> Alert): (r: seq<Alert>)
    ensures |r| == |records|
    ensures forall i | 0 <= i < |r| :: r[i] == if records[i].id == id then f(records[i]) else records[i]
    ensures (forall i | 0 <= i < |records| :: records[i].id != id) ==> r == records
    ensures (forall a :: f(a).id == a.id) ==> forall i | 0 <= i < |r| :: r[i].id == records[i].id
    ensures (forall a :: f(a).id == a.id) && UniqueIds(records) ==> UniqueIds(r)
  {
    seq(|records|, i requires 0 <= i < |records| => if records[i].id == id then f(records[i]) else records[i])
  }

  function ResolveRecords(records: seq<Alert>, id: string, now: int): seq<Alert> {
    UpdateRecord(records, id, (a: Alert) => a.(status := Resolved, resolvedAt := Some(now)))
  }

  function AcknowledgeRecords(records: seq<Alert>, id: string, user: string, now: int): seq<Alert> {
    UpdateRecord(records, id, (a: Alert) => a.(status := Acknowledged, acknowledgedAt := Some(now), acknowledgedBy := Some(user)))
  }

  /** A sender that `sendNotifications` calls and that does not return early:
      one of the three known channels, with an entry in the configuration
      whose `enabled` is true. */
  predicate Dispatches(channel: string, settings: ChannelSettings) {
    || (channel == "email" && settings.email == Some(true))
    || (channel == "slack" && settings.slack == Some(true))
    || (channel == "webhook" && settings.webhook == Some(true))
  }

  /** The channels that receive a notification, in the order of `channels`,
      when the senders of the channels in `failing` throw. */
  function Deliveries(channels: seq<string>, settings: ChannelSettings, failing: set<string>): (d: seq<string>)
    ensures |d| <= |channels|
    ensures forall c :: c in d <==> c in channels && Dispatches(c, settings) && c !in failing
  {
    if channels == [] then []
    else
      var n := |channels| - 1;
      var c := channels[n];
      assert channels == channels[..n] + [c];
      Deliveries(channels[..n], settings, failing) + (if Dispatches(c, settings) && c !in failing then [c] else [])
  }

  /** `sendNotifications`: visits every channel in order; a channel whose
      sender throws is skipped and the loop goes on. */
  method SendNotifications(channels: seq<string>, settings: ChannelSettings, failing: set<string>)
    returns (delivered: seq<string>)
    ensures delivered == Deliveries(channels, settings, failing)
  {
    delivered := [];
    var k := 0;
    while k < |channels|
      invariant 0 <= k <= |channels|
      invariant delivered == Deliveries(channels[..k], settings, failing)
    {
      var c := channels[k];
      var sent := false;
      if c == "email" {
        sent := settings.email == Some(true) && c !in failing;
      } else if c == "slack" {
        sent := settings.slack == Some(true) && c !in failing;
      } else if c == "webhook" {
        sent := settings.webhook == Some(true) && c !in failing;
      }
      if sent {
        delivered := delivered + [c];
      }
      DeliveriesSnoc(channels, k, settings, failing);
      k := k + 1;
    }
    assert channels[..k] == channels;
  }

  /** The deliveries of one more channel: those of the channels before it,
      then the channel itself if it is sent to. */
  lemma DeliveriesSnoc(channels: seq<string>, k: nat, settings: ChannelSettings, failing: set<string>)
    requires k < |channels|
    ensures Deliveries(channels[..k + 1], settings, failing)
         == Deliveries(channels[..k], settings, failing)
            + (if Dispatches(channels[k], settings) && channels[k] !in failing then [channels[k]] else [])
  {
    assert channels[..k + 1][..k] == channels[..k];
  }

  /** With the constructor's configuration (no channel entries) nothing is
      ever delivered. */
  lemma {:induction false} DefaultConfigDeliversNothing(channels: seq<string>, failing: set<string>)
    ensures Deliveries(channels, DefaultConfig().notificationChannels, failing) == []
  {
    if channels != [] {
      DefaultConfigDeliversNothing(channels[..|channels| - 1], failing);
    }
  }

  // ---------------------------------------------------------------------
  // Alert lifecycle: one rule's evaluation
  // ---------------------------------------------------------------------

  /** The cooldown test: never triggered, or strictly more than
      `cooldownPeriod` minutes ago. */
  predicate CooldownElapsed(rule: AlertRule, now: int) {
    rule.lastTriggered.None? || now - rule.lastTriggered.value > rule.cooldownPeriod * MinuteMs
  }

  /** The alert `triggerAlert` builds (without its message text). */
  function NewAlert(rule: AlertRule, sample: MetricSample, id: string, now: int): Alert {
    Alert(id, rule.id, rule.name, rule.severity, Active, now, None, None, None, sample, rule.channels)
  }

  datatype StepResult = StepResult(rule: AlertRule, active: seq<Alert>, records: seq<Alert>, event: Event)

  /** `evaluateRule` on an enabled rule once its store query has returned the
      window `w`: the new rule value, the alert map, the alert table and what
      happened. */
  function Step(rule: AlertRule, w: seq<MetricSample>, active: seq<Alert>, records: seq<Alert>,
                now: int, alertId: string, settings: ChannelSettings, failing: set<string>): StepResult
  {
    if |w| == 0 then StepResult(rule, active, records, NoData)
    else if CheckCondition(rule, w) then
      if CooldownElapsed(rule, now) then
        var a := NewAlert(rule, w[0], alertId, now);
        StepResult(rule.(lastTriggered := Some(now)), PutAlert(active, a), CreateRecord(records, a),
                   AlertTriggered(a, Deliveries(a.channels, settings, failing)))
      else StepResult(rule, active, records, Suppressed)
    else
      match FirstActive(active, rule.id)
      case None => StepResult(rule, active, records, Steady)
      case Some(k) =>
        var resolved := active[k].(status := Resolved, resolvedAt := Some(now));
        StepResult(rule, RemoveAt(active, k), ResolveRecords(records, resolved.id, now), AlertResolved(resolved))
  }

  /** The alerts of one rule, in map order. */
  function AlertsOf(alerts: seq<Alert>, ruleId: string): seq<Alert> {
    if alerts == [] then []
    else (if alerts[0].ruleId == ruleId then [alerts[0]] else []) + AlertsOf(alerts[1..], ruleId)
  }

  /** The number of open (active or acknowledged) alerts of one rule. */
  function OpenCount(alerts: seq<Alert>, ruleId: string): nat {
    if alerts == [] then 0
    else (if alerts[0].ruleId == ruleId && alerts[0].status != Resolved then 1 else 0) + OpenCount(alerts[1..], ruleId)
  }

  lemma {:induction false} AlertsOfAppend(a: seq<Alert>, b: seq<Alert>, ruleId: string)
    ensures AlertsOf(a + b, ruleId) == AlertsOf(a, ruleId) + AlertsOf(b, ruleId)
    ensures OpenCount(a + b, ruleId) == OpenCount(a, ruleId) + OpenCount(b, ruleId)
  {
    if a != [] {
      assert (a + b)[1..] == a[1..] + b;
      AlertsOfAppend(a[1..], b, ruleId);
    } else {
      assert a + b == b;
    }
  }

  lemma AlertsOfSingle(x: Alert, ruleId: string)
    ensures AlertsOf([x], ruleId) == if x.ruleId == ruleId then [x] else []
    ensures OpenCount([x], ruleId) == if x.ruleId == ruleId && x.status != Resolved then 1 else 0
  {
    assert [x][1..] == [];
  }

  /** Replacing or removing an entry of another rule leaves this rule's
      alerts as they were. */
  lemma OtherRuleUntouched(alerts: seq<Alert>, k: nat, x: Alert, ruleId: string)
    requires k < |alerts| && alerts[k].ruleId != ruleId && x.ruleId != ruleId
    ensures AlertsOf(alerts[k := x], ruleId) == AlertsOf(alerts, ruleId)
    ensures AlertsOf(alerts[..k] + alerts[k + 1..], ruleId) == AlertsOf(alerts, ruleId)
  {
    assert alerts == alerts[..k] + [alerts[k]] + alerts[k + 1..];
    assert alerts[k := x] == alerts[..k] + [x] + alerts[k + 1..];
    AlertsOfAppend(alerts[..k] + [alerts[k]], alerts[k + 1..], ruleId);
    AlertsOfAppend(alerts[..k] + [x], alerts[k + 1..], ruleId);
    AlertsOfAppend(alerts[..k], [alerts[k]], ruleId);
    AlertsOfAppend(alerts[..k], [x], ruleId);
    AlertsOfAppend(alerts[..k], alerts[k + 1..], ruleId);
    AlertsOfSingle(alerts[k], ruleId);
    AlertsOfSingle(x, ruleId);
  }

  /** Evaluating one rule with a fresh alert id touches no alert of any other
      rule. */
  lemma StepKeepsOtherRules(rule: AlertRule, w: seq<MetricSample>, active: seq<Alert>, records: seq<Alert>,
                            now: int, alertId: string, settings: ChannelSettings, failing: set<string>, other: string)
    requires other != rule.id
    requires IndexOfId(active, alertId).None?
    ensures AlertsOf(Step(rule, w, active, records, now, alertId, settings, failing).active, other)
         == AlertsOf(active, other)
  {
    if |w| > 0 {
      if CheckCondition(rule, w) {
        if CooldownElapsed(rule, now) {
          var a := NewAlert(rule, w[0], alertId, now);
          AlertsOfAppend(active, [a], other);
          AlertsOfSingle(a, other);
        }
      } else {
        match FirstActive(active, rule.id)
        case None =>
        case Some(k) =>
          OtherRuleUntouched(active, k, active[k], other);
      }
    }
  }

  /** Gap in the code: triggering does not look for an alert that is already
      open. Once the cooldown has elapsed, a true condition adds another open
      alert for the rule whatever is already open, so "at most one open alert
      per rule" is not preserved. */
  lemma ReTriggerWhileOpen(rule: AlertRule, w: seq<MetricSample>, active: seq<Alert>, records: seq<Alert>,
                           now: int, alertId: string, settings: ChannelSettings, failing: set<string>)
    requires IndexOfId(active, alertId).None?
    requires CheckCondition(rule, w) && CooldownElapsed(rule, now)
    ensures var s := Step(rule, w, active, records, now, alertId, settings, failing);
      OpenCount(s.active, rule.id) == OpenCount(active, rule.id) + 1
  {
    var a := NewAlert(rule, w[0], alertId, now);
    AlertsOfAppend(active, [a], rule.id);
    AlertsOfSingle(a, rule.id);
  }

  /** A concrete instance of the gap: the default CPU rule, an alert for it
      still open from a trigger eleven minutes earlier, and one sample at 85%
      now; evaluating the rule opens a second alert for it. */
  lemma SecondOpenAlertScenario(prior: Alert, sample: MetricSample, now: int)
    requires prior.ruleId == "high-cpu-usage" && prior.status == Active && prior.id == "alert-1"
    requires sample.metricName == "cpu_usage" && sample.value == 85.0 && sample.timestamp == now
    ensures var rule := DefaultRules()[0].(lastTriggered := Some(now - 11 * MinuteMs));
      var s := Step(rule, RecentMetrics([sample], rule, now), [prior], [prior], now, "alert-2",
                    DefaultConfig().notificationChannels, {});
      s.event.AlertTriggered? && OpenCount(s.active, "high-cpu-usage") == 2
  {
    var rule := DefaultRules()[0].(lastTriggered := Some(now - 11 * MinuteMs));
    var w := RecentMetrics([sample], rule, now);
    assert InWindow(sample, rule, now);
    RecentMetricsEmpty([sample], rule, now);
    assert |w| == 1 && w[0] == sample by {
      assert multiset(w) <= multiset([sample]);
      assert w[0] in multiset(w);
    }
    assert Sum(w) == 85.0 by { assert w[..0] == []; }
    assert CheckCondition(rule, w);
    assert IndexOfId([prior], "alert-2").None? by { assert prior.id[6] != "alert-2"[6]; }
    AlertsOfSingle(prior, "high-cpu-usage");
    ReTriggerWhileOpen(rule, w, [prior], [prior], now, "alert-2", DefaultConfig().notificationChannels, {});
  }

  /** Gap in the code: resolution only looks for status `active`, so a false
      condition leaves every acknowledged alert where it is. */
  lemma AcknowledgedNeverResolved(rule: AlertRule, w: seq<MetricSample>, active: seq<Alert>, records: seq<Alert>,
                                  now: int, alertId: string, settings: ChannelSettings, failing: set<string>, a: Alert)
    requires UniqueIds(active)
    requires a in active && a.status == Acknowledged
    requires !CheckCondition(rule, w)
    ensures a in Step(rule, w, active, records, now, alertId, settings, failing).active
  {
    match FirstActive(active, rule.id)
    case None =>
    case Some(k) =>
      assert active[k] != a;
  }

  /** A rule whose condition is not one of the five operators never fires,
      and so never raises the cooldown question. */
  lemma UnrecognisedNeverFires(rule: AlertRule, w: seq<MetricSample>, active: seq<Alert>, records: seq<Alert>,
                               now: int, alertId: string, settings: ChannelSettings, failing: set<string>)
    requires rule.condition.Unrecognised?
    ensures !CheckCondition(rule, w)
    ensures var s := Step(rule, w, active, records, now, alertId, settings, failing);
      !s.event.AlertTriggered? && !s.event.Suppressed? && s.rule == rule
  {
    assert !CheckCondition(rule, w);
  }

  /** The cooldown guard: within `cooldownPeriod` minutes of the last trigger
      (the difference not strictly greater), no alert is created and
      `lastTriggered` stays as it was, whatever the samples say. */
  lemma CooldownSuppresses(rule: AlertRule, w: seq<MetricSample>, active: seq<Alert>, records: seq<Alert>,
                           now: int, alertId: string, settings: ChannelSettings, failing: set<string>)
    requires rule.lastTriggered.Some? && now - rule.lastTriggered.value <= rule.cooldownPeriod * MinuteMs
    ensures var s := Step(rule, w, active, records, now, alertId, settings, failing);
      && s.rule == rule
      && !s.event.AlertTriggered?
      && (forall x | x in s.active :: x in active)
      && |s.active| <= |active|
  {
  }

  /** After a trigger at `t0`, no evaluation before more than
      `cooldownPeriod` minutes have passed creates an alert, whatever the
      samples say. */
  lemma NoRetriggerWithinCooldown(rule: AlertRule, w0: seq<MetricSample>, active: seq<Alert>, records: seq<Alert>,
                                  t0: int, id0: string, w1: seq<MetricSample>, t1: int, id1: string,
                                  settings: ChannelSettings, failing: set<string>)
    requires Step(rule, w0, active, records, t0, id0, settings, failing).event.AlertTriggered?
    requires t0 <= t1 && t1 - t0 <= rule.cooldownPeriod * MinuteMs
    ensures var s0 := Step(rule, w0, active, records, t0, id0, settings, failing);
      var s1 := Step(s0.rule, w1, s0.active, s0.records, t1, id1, settings, failing);
      && s0.rule.lastTriggered == Some(t0)
      && !s1.event.AlertTriggered?
      && s1.rule == s0.rule
      && |s1.active| <= |s0.active|
  {
    var s0 := Step(rule, w0, active, records, t0, id0, settings, failing);
    CooldownSuppresses(s0.rule, w1, s0.active, s0.records, t1, id1, settings, failing);
  }

  /** A trigger with a fresh id adds exactly one alert at the end of the map
      and touches no other: active, carrying the rule's id, name, severity and
      channels and the first (newest) sample of the window; `lastTriggered`
      becomes `now`, and the enabled, non-failing channels are notified. */
  lemma TriggerAddsOneAlert(rule: AlertRule, w: seq<MetricSample>, active: seq<Alert>, records: seq<Alert>,
                            now: int, alertId: string, settings: ChannelSettings, failing: set<string>)
    requires IndexOfId(active, alertId).None?
    requires CheckCondition(rule, w) && CooldownElapsed(rule, now)
    ensures var s := Step(rule, w, active, records, now, alertId, settings, failing);
      && |s.active| == |active| + 1
      && s.active[..|active|] == active
      && var a := s.active[|active|];
      && a.id == alertId && a.status == Active && a.createdAt == now
      && a.ruleId == rule.id && a.ruleName == rule.name && a.severity == rule.severity && a.channels == rule.channels
      && a.resolvedAt.None? && a.acknowledgedAt.None? && a.acknowledgedBy.None?
      && a.metricData == w[0]
      && s.rule == rule.(lastTriggered := Some(now))
      && s.event == AlertTriggered(a, Deliveries(rule.channels, settings, failing))
  {
  }

  /** The sample an alert carries is the newest sample of the store that the
      rule's window selects. */
  lemma TriggerCarriesNewestSample(rule: AlertRule, store: seq<MetricSample>, active: seq<Alert>, records: seq<Alert>,
                                   now: int, alertId: string, settings: ChannelSettings, failing: set<string>)
    requires Step(rule, RecentMetrics(store, rule, now), active, records, now, alertId, settings, failing).event.AlertTriggered?
    ensures var a := Step(rule, RecentMetrics(store, rule, now), active, records, now, alertId, settings, failing).event.alert;
      && a.metricData in store && InWindow(a.metricData, rule, now)
      && forall m | m in store && InWindow(m, rule, now) :: m.timestamp <= a.metricData.timestamp
  {
    var w := RecentMetrics(store, rule, now);
    assert |w| > 0;
    assert Step(rule, w, active, records, now, alertId, settings, failing).event.alert.metricData == w[0];
    NewestSample(store, rule, now);
  }

  /** The first sample of a non-empty window is a sample of the store in the
      window, and no sample of the store in the window is newer. */
  lemma NewestSample(store: seq<MetricSample>, rule: AlertRule, now: int)
    requires |RecentMetrics(store, rule, now)| > 0
    ensures var w := RecentMetrics(store, rule, now);
      && w[0] in store && InWindow(w[0], rule, now)
      && forall m | m in store && InWindow(m, rule, now) :: m.timestamp <= w[0].timestamp
  {
    var w := RecentMetrics(store, rule, now);
    assert w[0] in multiset(w);
    forall m | m in store && InWindow(m, rule, now) ensures m.timestamp <= w[0].timestamp {
      if multiset(w)[m] < multiset(store)[m] {
        assert w[0].timestamp >= w[WindowCap - 1].timestamp || WindowCap - 1 == 0;
      } else {
        assert m in multiset(w);
        var j :| 0 <= j < |w| && w[j] == m;
        assert j == 0 || Timestamp(w[0]) >= Timestamp(w[j]);
      }
    }
  }

  /** A false condition resolves the first active alert of the rule, whose
      status becomes `resolved` with `resolvedAt = now`, and takes it out of the
      map; the rule itself does not change. */
  lemma FalseConditionResolvesFirstActive(rule: AlertRule, w: seq<MetricSample>, active: seq<Alert>, records: seq<Alert>,
                                          now: int, alertId: string, settings: ChannelSettings, failing: set<string>)
    requires UniqueIds(active)
    requires |w| > 0 && !CheckCondition(rule, w)
    requires FirstActive(active, rule.id).Some?
    ensures var k := FirstActive(active, rule.id).value;
      var s := Step(rule, w, active, records, now, alertId, settings, failing);
      && s.rule == rule
      && |s.active| == |active| - 1
      && active[k] !in s.active
      && (forall x | x in active && x != active[k] :: x in s.active)
      && s.event.AlertResolved?
      && s.event.alert.id == active[k].id && s.event.alert.ruleId == rule.id
      && s.event.alert.status == Resolved && s.event.alert.resolvedAt == Some(now)
  {
  }

  /** Resolution does not depend on the cooldown: on a false reading of the
      window the alert map, the table and the event are the same whatever
      `lastTriggered` holds. */
  lemma ResolutionIgnoresCooldown(rule: AlertRule, last: Option<int>, w: seq<MetricSample>, active: seq<Alert>,
                                   records: seq<Alert>, now: int, alertId: string, settings: ChannelSettings, failing: set<string>)
    requires !CheckCondition(rule, w)
    ensures var rule' := rule.(lastTriggered := last);
      Step(rule', w, active, records, now, alertId, settings, failing)
      == Step(rule, w, active, records, now, alertId, settings, failing).(rule := rule')
  {
    var rule' := rule.(lastTriggered := last);
    assert CheckCondition(rule', w) == CheckCondition(rule, w);
    assert rule'.id == rule.id;
  }

  /** With no active alert for the rule, a false reading changes nothing, so
      repeating the evaluation keeps giving the same state. */
  lemma QuietIsIdempotent(rule: AlertRule, w: seq<MetricSample>, active: seq<Alert>, records: seq<Alert>,
                          now: int, alertId: string, settings: ChannelSettings, failing: set<string>)
    requires FirstActive(active, rule.id).None?
    requires !CheckCondition(rule, w)
    ensures var s := Step(rule, w, active, records, now, alertId, settings, failing);
      && s.rule == rule && s.active == active && s.records == records
      && (s.event == Steady || s.event == NoData)
      && Step(s.rule, w, s.active, s.records, now, alertId, settings, failing) == s
  {
  }

  /** One evaluation step keeps the invariant of the alert map (distinct ids,
      no resolved alert in it) and of the table (distinct ids), and changes
      nothing of the rule but `lastTriggered`. */
  lemma StepValid(rule: AlertRule, w: seq<MetricSample>, active: seq<Alert>, records: seq<Alert>,
                  now: int, alertId: string, settings: ChannelSettings, failing: set<string>)
    requires UniqueIds(active) && AllOpen(active) && UniqueIds(records)
    ensures var s := Step(rule, w, active, records, now, alertId, settings, failing);
      UniqueIds(s.active) && AllOpen(s.active) && UniqueIds(s.records)
      && s.rule == rule.(lastTriggered := s.rule.lastTriggered)
  {
  }

  // ---------------------------------------------------------------------
  // The lifecycle as intended: at most one open alert per rule
  // ---------------------------------------------------------------------

  /** An alert of the rule that is still open (active or acknowledged). */
  predicate IsOpenFor(a: Alert, ruleId: string) {
    a.ruleId == ruleId && a.status != Resolved
  }

  /** The first open alert of the rule. */
  function FirstOpen(alerts: seq<Alert>, ruleId: string): (r: Option<nat>)
    ensures r.Some? ==> r.value < |alerts| && IsOpenFor(alerts[r.value], ruleId)
    ensures r.Some? ==> forall j | 0 <= j < r.value :: !IsOpenFor(alerts[j], ruleId)
    ensures r.None? <==> forall j | 0 <= j < |alerts| :: !IsOpenFor(alerts[j], ruleId)
  {
    FirstIndex(alerts, (a: Alert) => IsOpenFor(a, ruleId))
  }

  /** No rule has more than one open alert. */
  ghost predicate AtMostOneOpen(alerts: seq<Alert>) {
    forall ruleId :: OpenCount(alerts, ruleId) <= 1
  }

  /** `evaluateRule` with the two corrections: a true condition opens an
      alert only when the rule has none open (besides the cooldown), and a
      false one resolves the rule's open alert whether it is active or
      acknowledged. */
  function IntendedStep(rule: AlertRule, w: seq<MetricSample>, active: seq<Alert>, records: seq<Alert>,
                        now: int, alertId: string, settings: ChannelSettings, failing: set<string>): StepResult
  {
    if |w| == 0 then StepResult(rule, active, records, NoData)
    else if CheckCondition(rule, w) then
      if CooldownElapsed(rule, now) && FirstOpen(active, rule.id).None? then
        var a := NewAlert(rule, w[0], alertId, now);
        StepResult(rule.(lastTriggered := Some(now)), PutAlert(active, a), CreateRecord(records, a),
                   AlertTriggered(a, Deliveries(a.channels, settings, failing)))
      else StepResult(rule, active, records, Suppressed)
    else
      match FirstOpen(active, rule.id)
      case None => StepResult(rule, active, records, Steady)
      case Some(k) =>
        var resolved := active[k].(status := Resolved, resolvedAt := Some(now));
        StepResult(rule, RemoveAt(active, k), ResolveRecords(records, resolved.id, now), AlertResolved(resolved))
  }

  lemma {:induction false} OpenCountNone(alerts: seq<Alert>, ruleId: string)
    requires forall j | 0 <= j < |alerts| :: !IsOpenFor(alerts[j], ruleId)
    ensures OpenCount(alerts, ruleId) == 0
  {
    if alerts != [] {
      assert forall j | 0 <= j < |alerts[1..]| :: alerts[1..][j] == alerts[j + 1];
      OpenCountNone(alerts[1..], ruleId);
    }
  }

  lemma {:induction false} OpenCountPositive(alerts: seq<Alert>, ruleId: string, j: nat)
    requires j < |alerts| && IsOpenFor(alerts[j], ruleId)
    ensures OpenCount(alerts, ruleId) >= 1
  {
    if j > 0 {
      assert alerts[1..][j - 1] == alerts[j];
      OpenCountPositive(alerts[1..], ruleId, j - 1);
    }
  }

  /** Removing an entry lowers the rule's open count by one exactly when the
      entry is one of its open alerts. */
  lemma OpenCountRemove(alerts: seq<Alert>, k: nat, ruleId: string)
    requires k < |alerts|
    ensures OpenCount(RemoveAt(alerts, k), ruleId) + (if IsOpenFor(alerts[k], ruleId) then 1 else 0)
         == OpenCount(alerts, ruleId)
  {
    assert alerts == alerts[..k] + [alerts[k]] + alerts[k + 1..];
    AlertsOfAppend(alerts[..k] + [alerts[k]], alerts[k + 1..], ruleId);
    AlertsOfAppend(alerts[..k], [alerts[k]], ruleId);
    AlertsOfAppend(alerts[..k], alerts[k + 1..], ruleId);
    AlertsOfSingle(alerts[k], ruleId);
  }

  /** The corrected step keeps one rule's open count at most one. */
  lemma IntendedKeepsCount(rule: AlertRule, w: seq<MetricSample>, active: seq<Alert>, records: seq<Alert>,
                           now: int, alertId: string, settings: ChannelSettings, failing: set<string>, ruleId: string)
    requires IndexOfId(active, alertId).None?
    requires OpenCount(active, ruleId) <= 1
    ensures OpenCount(IntendedStep(rule, w, active, records, now, alertId, settings, failing).active, ruleId) <= 1
  {
    if |w| > 0 {
      if CheckCondition(rule, w) {
        if CooldownElapsed(rule, now) && FirstOpen(active, rule.id).None? {
          var a := NewAlert(rule, w[0], alertId, now);
          AlertsOfAppend(active, [a], ruleId);
          AlertsOfSingle(a, ruleId);
          if ruleId == rule.id {
            OpenCountNone(active, ruleId);
          }
        }
      } else {
        match FirstOpen(active, rule.id)
        case None =>
        case Some(k) =>
          OpenCountRemove(active, k, ruleId);
      }
    }
  }

  /** With the correction, "at most one open alert per rule" is an invariant
      of evaluation, whatever the samples, the clock and the cooldown. */
  lemma IntendedStepAtMostOneOpen(rule: AlertRule, w: seq<MetricSample>, active: seq<Alert>, records: seq<Alert>,
                                  now: int, alertId: string, settings: ChannelSettings, failing: set<string>)
    requires IndexOfId(active, alertId).None?
    requires AtMostOneOpen(active)
    ensures AtMostOneOpen(IntendedStep(rule, w, active, records, now, alertId, settings, failing).active)
  {
    forall ruleId ensures OpenCount(IntendedStep(rule, w, active, records, now, alertId, settings, failing).active, ruleId) <= 1 {
      IntendedKeepsCount(rule, w, active, records, now, alertId, settings, failing, ruleId);
    }
  }

  /** With the correction, a false reading resolves the rule's open alert even
      when it has been acknowledged, and then nothing of the rule stays open. */
  lemma IntendedResolvesOpen(rule: AlertRule, w: seq<MetricSample>, active: seq<Alert>, records: seq<Alert>,
                             now: int, alertId: string, settings: ChannelSettings, failing: set<string>, a: Alert)
    requires |w| > 0 && !CheckCondition(rule, w)
    requires a in active && IsOpenFor(a, rule.id)
    requires OpenCount(active, rule.id) <= 1
    ensures var s := IntendedStep(rule, w, active, records, now, alertId, settings, failing);
      && s.event.AlertResolved? && s.event.alert.ruleId == rule.id
      && s.event.alert.status == Resolved && s.event.alert.resolvedAt == Some(now)
      && OpenCount(s.active, rule.id) == 0
      && a !in s.active
  {
    var j :| 0 <= j < |active| && active[j] == a;
    var k := FirstOpen(active, rule.id).value;
    var s := IntendedStep(rule, w, active, records, now, alertId, settings, failing);
    OpenCountRemove(active, k, rule.id);
    if a in s.active {
      var i :| 0 <= i < |s.active| && s.active[i] == a;
      OpenCountPositive(s.active, rule.id, i);
    }
  }

  /** For a rule with nothing open the correction changes nothing: the
      corrected step is the step as written. */
  lemma IntendedAgreesWhenNothingOpen(rule: AlertRule, w: seq<MetricSample>, active: seq<Alert>, records: seq<Alert>,
                                      now: int, alertId: string, settings: ChannelSettings, failing: set<string>)
    requires FirstOpen(active, rule.id).None?
    ensures IntendedStep(rule, w, active, records, now, alertId, settings, failing)
         == Step(rule, w, active, records, now, alertId, settings, failing)
  {
    assert FirstActive(active, rule.id).None?;
  }

  // ---------------------------------------------------------------------
  // The evaluation loop
  // ---------------------------------------------------------------------

  datatype CycleResult = CycleResult(rules: seq<AlertRule>, active: seq<Alert>, records: seq<Alert>, events: seq<Event>)

  /** One rule's turn in `evaluateAlertRules`: a disabled rule is skipped, a
      rule whose store query throws (its id is in `failingRules`) is caught and
      reported, every other rule takes one step on its window. */
  function CycleStep(rule: AlertRule, active: seq<Alert>, records: seq<Alert>, store: seq<MetricSample>,
                     now: int, alertId: string, settings: ChannelSettings,
                     failingRules: set<string>, failing: set<string>): StepResult
  {
    if !rule.enabled then StepResult(rule, active, records, Skipped)
    else if rule.id in failingRules then StepResult(rule, active, records, QueryFailed)
    else Step(rule, RecentMetrics(store, rule, now), active, records, now, alertId, settings, failing)
  }

  /** `evaluateAlertRules`: every rule in registry order, the `i`-th with its
      own fresh id `alertIds[i]`. */
  function EvaluateAll(rules: seq<AlertRule>, active: seq<Alert>, records: seq<Alert>, store: seq<MetricSample>,
                       now: int, alertIds: seq<string>, settings: ChannelSettings,
                       failingRules: set<string>, failing: set<string>): (r: CycleResult)
    requires |alertIds| == |rules|
    ensures |r.rules| == |rules| && |r.events| == |rules|
  {
    if rules == [] then CycleResult([], active, records, [])
    else
      var n := |rules| - 1;
      var prev := EvaluateAll(rules[..n], active, records, store, now, alertIds[..n], settings, failingRules, failing);
      var s := CycleStep(rules[n], prev.active, prev.records, store, now, alertIds[n], settings, failingRules, failing);
      CycleResult(prev.rules + [s.rule], s.active, s.records, prev.events + [s.event])
  }

  predicate Distinct(ids: seq<string>) {
    forall i, j | 0 <= i < j < |ids| :: ids[i] != ids[j]
  }

  /** What a cycle reports for one rule and what becomes of it: `Skipped`
      exactly when the rule is disabled, `QueryFailed` exactly when it is
      enabled and its query threw; a skipped or failing rule keeps its value,
      and no rule changes but in `lastTriggered`. */
  predicate TurnReport(rule: AlertRule, after: AlertRule, event: Event, failingRules: set<string>) {
    && (event == Skipped <==> !rule.enabled)
    && (event == QueryFailed <==> rule.enabled && rule.id in failingRules)
    && (!rule.enabled || rule.id in failingRules ==> after == rule)
    && after == rule.(lastTriggered := after.lastTriggered)
  }

  /** `TurnReport` for every rule of a cycle, position by position. */
  predicate AllReported(rules: seq<AlertRule>, after: seq<AlertRule>, events: seq<Event>, failingRules: set<string>) {
    |after| == |rules| && |events| == |rules| &&
    forall i | 0 <= i < |rules| :: TurnReport(rules[i], after[i], events[i], failingRules)
  }

  /** The cycle over one more rule is the cycle so far followed by that
      rule's turn. */
  lemma CycleExtends(rules: seq<AlertRule>, active: seq<Alert>, records: seq<Alert>, store: seq<MetricSample>,
                     now: int, alertIds: seq<string>, settings: ChannelSettings,
                     failingRules: set<string>, failing: set<string>, i: nat)
    requires |alertIds| == |rules| && i < |rules|
    ensures var prev := EvaluateAll(rules[..i], active, records, store, now, alertIds[..i], settings, failingRules, failing);
      var s := CycleStep(rules[i], prev.active, prev.records, store, now, alertIds[i], settings, failingRules, failing);
      EvaluateAll(rules[..i + 1], active, records, store, now, alertIds[..i + 1], settings, failingRules, failing)
      == CycleResult(prev.rules + [s.rule], s.active, s.records, prev.events + [s.event])
  {
    assert rules[..i + 1][..i] == rules[..i];
    assert alertIds[..i + 1][..i] == alertIds[..i];
  }

  /** The events of a cycle: one per rule, each as `TurnReport` says, so one
      rule's failure does not stop the rules after it from being evaluated. */
  lemma {:induction false} EvaluateAllEvents(rules: seq<AlertRule>, active: seq<Alert>, records: seq<Alert>,
                                             store: seq<MetricSample>, now: int, alertIds: seq<string>,
                                             settings: ChannelSettings, failingRules: set<string>, failing: set<string>)
    requires |alertIds| == |rules|
    ensures var r := EvaluateAll(rules, active, records, store, now, alertIds, settings, failingRules, failing);
      AllReported(rules, r.rules, r.events, failingRules)
  {
    if rules != [] {
      var n := |rules| - 1;
      EvaluateAllEvents(rules[..n], active, records, store, now, alertIds[..n], settings, failingRules, failing);
      EventsStep(rules, active, records, store, now, alertIds, settings, failingRules, failing);
    }
  }

  /** The last rule's turn extends the reports of the ones before it. */
  lemma EventsStep(rules: seq<AlertRule>, active: seq<Alert>, records: seq<Alert>,
                   store: seq<MetricSample>, now: int, alertIds: seq<string>,
                   settings: ChannelSettings, failingRules: set<string>, failing: set<string>)
    requires |alertIds| == |rules| && rules != []
    requires var n := |rules| - 1;
      var prev := EvaluateAll(rules[..n], active, records, store, now, alertIds[..n], settings, failingRules, failing);
      AllReported(rules[..n], prev.rules, prev.events, failingRules)
    ensures var r := EvaluateAll(rules, active, records, store, now, alertIds, settings, failingRules, failing);
      AllReported(rules, r.rules, r.events, failingRules)
  {
    var n := |rules| - 1;
    var prev := EvaluateAll(rules[..n], active, records, store, now, alertIds[..n], settings, failingRules, failing);
    var s := CycleStep(rules[n], prev.active, prev.records, store, now, alertIds[n], settings, failingRules, failing);
    CycleStepReport(rules[n], prev.active, prev.records, store, now, alertIds[n], settings, failingRules, failing);
    ReportsSnoc(rules[..n], prev.rules, prev.events, rules[n], s.rule, s.event, failingRules);
    PrefixSnoc(rules);
  }

  lemma ReportsSnoc(rules: seq<AlertRule>, after: seq<AlertRule>, events: seq<Event>,
                    rule: AlertRule, ruleAfter: AlertRule, event: Event, failingRules: set<string>)
    requires AllReported(rules, after, events, failingRules)
    requires TurnReport(rule, ruleAfter, event, failingRules)
    ensures AllReported(rules + [rule], after + [ruleAfter], events + [event], failingRules)
  {
    var rs, ts, es := rules + [rule], after + [ruleAfter], events + [event];
    forall i | 0 <= i < |rs| ensures TurnReport(rs[i], ts[i], es[i], failingRules) {
      if i < |rules| {
        assert rs[i] == rules[i] && ts[i] == after[i] && es[i] == events[i];
      }
    }
  }

  /** One rule's turn reports as `TurnReport` says. */
  lemma CycleStepReport(rule: AlertRule, active: seq<Alert>, records: seq<Alert>, store: seq<MetricSample>,
                        now: int, alertId: string, settings: ChannelSettings,
                        failingRules: set<string>, failing: set<string>)
    ensures var s := CycleStep(rule, active, records, store, now, alertId, settings, failingRules, failing);
      TurnReport(rule, s.rule, s.event, failingRules)
  {
    if rule.enabled && rule.id !in failingRules {
      StepShape(rule, RecentMetrics(store, rule, now), active, records, now, alertId, settings, failing);
    }
  }

  /** What one step can report, and what it can change of the rule. */
  lemma StepShape(rule: AlertRule, w: seq<MetricSample>, active: seq<Alert>, records: seq<Alert>,
                  now: int, alertId: string, settings: ChannelSettings, failing: set<string>)
    ensures var s := Step(rule, w, active, records, now, alertId, settings, failing);
      && s.event != Skipped && s.event != QueryFailed
      && s.rule == rule.(lastTriggered := s.rule.lastTriggered)
  {
  }

  /** The alerts of a disabled rule, and of a rule whose query fails, are
      exactly what they were before the cycle, given fresh distinct ids and
      distinct rule ids. */
  lemma {:induction false} EvaluateAllSkipsRule(rules: seq<AlertRule>, active: seq<Alert>, records: seq<Alert>,
                                                store: seq<MetricSample>, now: int, alertIds: seq<string>,
                                                settings: ChannelSettings, failingRules: set<string>, failing: set<string>,
                                                i: nat)
    requires |alertIds| == |rules| && i < |rules|
    requires UniqueRuleIds(rules) && Distinct(alertIds)
    requires forall j | 0 <= j < |alertIds| :: IndexOfId(active, alertIds[j]).None?
    requires !rules[i].enabled || rules[i].id in failingRules
    ensures AlertsOf(EvaluateAll(rules, active, records, store, now, alertIds, settings, failingRules, failing).active, rules[i].id)
         == AlertsOf(active, rules[i].id)
  {
    IdsStayFresh(rules, active, records, store, now, alertIds, settings, failingRules, failing);
    SkipsRuleLoop(rules, active, records, store, now, alertIds, settings, failingRules, failing, rules[i].id, i);
  }

  /** The alert ids of a cycle's prefix: every alert in the map after the
      first `n` rules is an old alert or carries one of the first `n` ids. */
  lemma {:induction false} IdsStayFresh(rules: seq<AlertRule>, active: seq<Alert>, records: seq<Alert>,
                                        store: seq<MetricSample>, now: int, alertIds: seq<string>,
                                        settings: ChannelSettings, failingRules: set<string>, failing: set<string>)
    requires |alertIds| == |rules|
    ensures var r := EvaluateAll(rules, active, records, store, now, alertIds, settings, failingRules, failing);
      forall x | x in r.active :: x in active || x.id in alertIds
  {
    if rules != [] {
      var n := |rules| - 1;
      IdsStayFresh(rules[..n], active, records, store, now, alertIds[..n], settings, failingRules, failing);
      var prev := EvaluateAll(rules[..n], active, records, store, now, alertIds[..n], settings, failingRules, failing);
      var s := CycleStep(rules[n], prev.active, prev.records, store, now, alertIds[n], settings, failingRules, failing);
      CycleStepIds(rules[n], prev.active, prev.records, store, now, alertIds[n], settings, failingRules, failing);
      FreshCombine(active, prev.active, s.active, alertIds, n);
    }
  }

  /** One rule's turn adds no alert but the one with its own id. */
  lemma CycleStepIds(rule: AlertRule, active: seq<Alert>, records: seq<Alert>, store: seq<MetricSample>,
                     now: int, alertId: string, settings: ChannelSettings,
                     failingRules: set<string>, failing: set<string>)
    ensures forall x | x in CycleStep(rule, active, records, store, now, alertId, settings, failingRules, failing).active ::
      x in active || x.id == alertId
  {
  }

  lemma FreshCombine(active: seq<Alert>, middle: seq<Alert>, last: seq<Alert>, ids: seq<string>, n: nat)
    requires n < |ids|
    requires forall x | x in middle :: x in active || x.id in ids[..n]
    requires forall x | x in last :: x in middle || x.id == ids[n]
    ensures forall x | x in last :: x in active || x.id in ids
  {
    forall x | x in last ensures x in active || x.id in ids {
      if x.id in ids[..n] {
        var j :| 0 <= j < n && ids[..n][j] == x.id;
        assert ids[j] == x.id;
      }
    }
  }

  /** The id reserved for the last rule is still free when that rule's turn
      comes. */
  lemma FreshAfterPrefix(rules: seq<AlertRule>, active: seq<Alert>, records: seq<Alert>,
                         store: seq<MetricSample>, now: int, alertIds: seq<string>,
                         settings: ChannelSettings, failingRules: set<string>, failing: set<string>)
    requires |alertIds| == |rules| && |rules| > 0 && Distinct(alertIds)
    requires forall j | 0 <= j < |alertIds| :: IndexOfId(active, alertIds[j]).None?
    ensures var n := |rules| - 1;
      IndexOfId(EvaluateAll(rules[..n], active, records, store, now, alertIds[..n], settings, failingRules, failing).active,
                alertIds[n]).None?
  {
    var n := |rules| - 1;
    IdsStayFresh(rules[..n], active, records, store, now, alertIds[..n], settings, failingRules, failing);
    var prev := EvaluateAll(rules[..n], active, records, store, now, alertIds[..n], settings, failingRules, failing);
    forall j | 0 <= j < |prev.active| ensures prev.active[j].id != alertIds[n] {
      var x := prev.active[j];
      assert x in prev.active;
      if x in active {
        var q :| 0 <= q < |active| && active[q] == x;
        assert IndexOfId(active, alertIds[n]).None?;
      } else {
        assert x.id in alertIds[..n];
        var q :| 0 <= q < n && alertIds[..n][q] == x.id;
        assert alertIds[q] == x.id;
      }
    }
  }

  lemma {:induction false} SkipsRuleLoop(rules: seq<AlertRule>, active: seq<Alert>, records: seq<Alert>,
                                         store: seq<MetricSample>, now: int, alertIds: seq<string>,
                                         settings: ChannelSettings, failingRules: set<string>, failing: set<string>,
                                         target: string, i: nat)
    requires |alertIds| == |rules| && i < |rules| && rules[i].id == target
    requires UniqueRuleIds(rules) && Distinct(alertIds)
    requires forall j | 0 <= j < |alertIds| :: IndexOfId(active, alertIds[j]).None?
    requires !rules[i].enabled || rules[i].id in failingRules
    ensures AlertsOf(EvaluateAll(rules, active, records, store, now, alertIds, settings, failingRules, failing).active, target)
         == AlertsOf(active, target)
    decreases |rules|
  {
    var n := |rules| - 1;
    PrefixPreserves(rules, active, alertIds, target, i);
    if i < n {
      SkipsRuleLoop(rules[..n], active, records, store, now, alertIds[..n], settings, failingRules, failing, target, i);
    } else {
      PrefixWithoutTarget(rules[..n], active, records, store, now, alertIds[..n], settings, failingRules, failing, target);
    }
    LastTurnKeeps(rules, active, records, store, now, alertIds, settings, failingRules, failing, target);
  }

  /** What the prefix of a cycle inherits from the requirements on the whole
      cycle. */
  lemma PrefixPreserves(rules: seq<AlertRule>, active: seq<Alert>, alertIds: seq<string>, target: string, i: nat)
    requires |alertIds| == |rules| && i < |rules| && rules[i].id == target
    requires UniqueRuleIds(rules) && Distinct(alertIds)
    requires forall j | 0 <= j < |alertIds| :: IndexOfId(active, alertIds[j]).None?
    ensures var n := |rules| - 1;
      && UniqueRuleIds(rules[..n]) && Distinct(alertIds[..n])
      && (forall j | 0 <= j < n :: IndexOfId(active, alertIds[..n][j]).None?)
      && (i < n ==> rules[..n][i] == rules[i])
      && (i == n ==> forall j | 0 <= j < n :: rules[..n][j].id != target)
      && (i < n ==> rules[n].id != target)
  {
    var n := |rules| - 1;
    forall j | 0 <= j < n ensures IndexOfId(active, alertIds[..n][j]).None? {
      assert alertIds[..n][j] == alertIds[j];
    }
  }

  lemma PrefixWithoutTargetPreserves(rules: seq<AlertRule>, active: seq<Alert>, alertIds: seq<string>, target: string)
    requires |alertIds| == |rules| && rules != [] && Distinct(alertIds)
    requires forall j | 0 <= j < |rules| :: rules[j].id != target
    requires forall j | 0 <= j < |alertIds| :: IndexOfId(active, alertIds[j]).None?
    ensures var n := |rules| - 1;
      && Distinct(alertIds[..n])
      && (forall j | 0 <= j < n :: rules[..n][j].id != target)
      && (forall j | 0 <= j < n :: IndexOfId(active, alertIds[..n][j]).None?)
  {
    var n := |rules| - 1;
    forall j | 0 <= j < n ensures rules[..n][j].id != target && IndexOfId(active, alertIds[..n][j]).None? {
      assert rules[..n][j] == rules[j] && alertIds[..n][j] == alertIds[j];
    }
  }

  /** The last rule's turn leaves the target's alerts as the turns before it
      left them, when the last rule is not the target or does not run. */
  lemma LastTurnKeeps(rules: seq<AlertRule>, active: seq<Alert>, records: seq<Alert>,
                      store: seq<MetricSample>, now: int, alertIds: seq<string>,
                      settings: ChannelSettings, failingRules: set<string>, failing: set<string>, target: string)
    requires |alertIds| == |rules| && rules != [] && Distinct(alertIds)
    requires forall j | 0 <= j < |alertIds| :: IndexOfId(active, alertIds[j]).None?
    requires var last := rules[|rules| - 1]; last.id != target || !last.enabled || last.id in failingRules
    ensures var n := |rules| - 1;
      AlertsOf(EvaluateAll(rules, active, records, store, now, alertIds, settings, failingRules, failing).active, target)
      == AlertsOf(EvaluateAll(rules[..n], active, records, store, now, alertIds[..n], settings, failingRules, failing).active, target)
  {
    var n := |rules| - 1;
    var prev := EvaluateAll(rules[..n], active, records, store, now, alertIds[..n], settings, failingRules, failing);
    var rule := rules[n];
    if rule.enabled && rule.id !in failingRules {
      FreshAfterPrefix(rules, active, records, store, now, alertIds, settings, failingRules, failing);
      StepKeepsOtherRules(rule, RecentMetrics(store, rule, now), prev.active, prev.records, now, alertIds[n], settings, failing, target);
    }
  }

  /** A prefix of rules that does not contain the target id leaves the
      target's alerts unchanged. */
  lemma {:induction false} PrefixWithoutTarget(rules: seq<AlertRule>, active: seq<Alert>, records: seq<Alert>,
                                               store: seq<MetricSample>, now: int, alertIds: seq<string>,
                                               settings: ChannelSettings, failingRules: set<string>, failing: set<string>,
                                               target: string)
    requires |alertIds| == |rules| && Distinct(alertIds)
    requires forall j | 0 <= j < |rules| :: rules[j].id != target
    requires forall j | 0 <= j < |alertIds| :: IndexOfId(active, alertIds[j]).None?
    ensures AlertsOf(EvaluateAll(rules, active, records, store, now, alertIds, settings, failingRules, failing).active, target)
         == AlertsOf(active, target)
    decreases |rules|
  {
    if rules != [] {
      var n := |rules| - 1;
      PrefixWithoutTargetPreserves(rules, active, alertIds, target);
      PrefixWithoutTarget(rules[..n], active, records, store, now, alertIds[..n], settings, failingRules, failing, target);
      LastTurnKeeps(rules, active, records, store, now, alertIds, settings, failingRules, failing, target);
    }
  }

  // ---------------------------------------------------------------------
  // Retention, configuration and status
  // ---------------------------------------------------------------------

  /** What `cleanupOldMetrics` leaves in the store: every sample whose
      timestamp is not before the cutoff, in store order. */
  function Retained(store: seq<MetricSample>, cutoff: int): (r: seq<MetricSample>)
    ensures forall i | 0 <= i < |r| :: r[i].timestamp >= cutoff
    ensures forall m | m in store && m.timestamp >= cutoff :: multiset(r)[m] == multiset(store)[m]
    ensures forall m | m in store && m.timestamp < cutoff :: m !in r
    ensures multiset(r) <= multiset(store)
  {
    var keep := (m: MetricSample) => !(m.timestamp < cutoff);
    FilterCounts(store, keep);
    Filter(store, keep)
  }

  /** The cutoff of the retention cleanup, `retentionPeriod` days before now
      (a day is taken as 86400000 ms). */
  function RetentionCutoff(config: MonitoringConfig, now: int): int {
    now - config.retentionPeriod * DayMs
  }

  /** `updateConfig`: the shallow merge `{ ...config, ...patch }`. */
  function MergeConfig(config: MonitoringConfig, patch: ConfigPatch): (c: MonitoringConfig)
    ensures c.enabled == (if patch.enabled.Some? then patch.enabled.value else config.enabled)
    ensures c.collectionInterval == (if patch.collectionInterval.Some? then patch.collectionInterval.value else config.collectionInterval)
    ensures c.retentionPeriod == (if patch.retentionPeriod.Some? then patch.retentionPeriod.value else config.retentionPeriod)
    ensures c.alertRules == (if patch.alertRules.Some? then patch.alertRules.value else config.alertRules)
    ensures c.notificationChannels == (if patch.notificationChannels.Some? then patch.notificationChannels.value else config.notificationChannels)
  {
    MonitoringConfig(
      if patch.enabled.Some? then patch.enabled.value else config.enabled,
      if patch.collectionInterval.Some? then patch.collectionInterval.value else config.collectionInterval,
      if patch.retentionPeriod.Some? then patch.retentionPeriod.value else config.retentionPeriod,
      if patch.alertRules.Some? then patch.alertRules.value else config.alertRules,
      if patch.notificationChannels.Some? then patch.notificationChannels.value else config.notificationChannels)
  }

  /** An empty patch changes nothing, and applying the same patch twice is the
      same as applying it once. */
  lemma MergeConfigIdempotent(config: MonitoringConfig, patch: ConfigPatch)
    ensures MergeConfig(config, ConfigPatch(None, None, None, None, None)) == config
    ensures MergeConfig(MergeConfig(config, patch), patch) == MergeConfig(config, patch)
  {
  }

  predicate IsEnabled(r: AlertRule) { r.enabled }

  /** The number of enabled rules, counted one rule at a time; it is the
      length of the `filter(r => r.enabled)` of `getStatus`. */
  function CountEnabled(rules: seq<AlertRule>): (n: nat)
    ensures n == |Filter(rules, IsEnabled)|
    ensures n <= |rules|
    ensures n == |rules| <==> forall i | 0 <= i < |rules| :: rules[i].enabled
    ensures n == 0 <==> forall i | 0 <= i < |rules| :: !rules[i].enabled
  {
    if rules == [] then 0
    else
      assert forall i | 1 <= i < |rules| :: rules[i] == rules[1..][i - 1];
      (if rules[0].enabled then 1 else 0) + CountEnabled(rules[1..])
  }

  /** The filter of `getMetrics`: a provider given, a non-empty metric name
      given, and the time bounds given (both inclusive). */
  predicate MatchesMetricQuery(m: MetricSample, provider: Option<Provider>, metricName: Option<string>,
                               startTime: Option<int>, endTime: Option<int>)
  {
    && (provider.None? || m.provider == provider.value)
    && (metricName.None? || metricName.value == "" || m.metricName == metricName.value)
    && (startTime.None? || m.timestamp >= startTime.value)
    && (endTime.None? || m.timestamp <= endTime.value)
  }

  /** The filter of `getAlertHistory` on the alert table. */
  predicate MatchesHistoryQuery(a: Alert, startTime: Option<int>, endTime: Option<int>, severity: Option<Severity>) {
    && (startTime.None? || a.createdAt >= startTime.value)
    && (endTime.None? || a.createdAt <= endTime.value)
    && (severity.None? || a.severity == severity.value)
  }

  // ---------------------------------------------------------------------
  // The engine object
  // ---------------------------------------------------------------------

  const Providers: seq<Provider> := [Aws, Azure, Gcp]

  /** Everything the providers' collections add to the store, in provider
      order; a provider whose collection failed (`None`) adds nothing. */
  function Collected(providers: seq<Provider>, pull: Provider -> Option<seq<MetricSample>>): seq<MetricSample> {
    if providers == [] then []
    else
      var n := |providers| - 1;
      Collected(providers[..n], pull) + (if pull(providers[n]).Some? then pull(providers[n]).value else [])
  }

  /** What one more provider adds. */
  lemma CollectedSnoc(providers: seq<Provider>, p: nat, pull: Provider -> Option<seq<MetricSample>>)
    requires p < |providers|
    ensures Collected(providers[..p + 1], pull)
         == Collected(providers[..p], pull) + (if pull(providers[p]).Some? then pull(providers[p]).value else [])
  {
    assert providers[..p + 1][..p] == providers[..p];
  }

  class MonitoringService {
    var config: MonitoringConfig
    /** Whether the collection timer is set (`collectionInterval !== null`). */
    var running: bool
    /** The rule map, in insertion order. */
    var rules: seq<AlertRule>
    /** The map of alerts not yet resolved, in insertion order. */
    var activeAlerts: seq<Alert>
    /** The metric table. */
    var metricStore: seq<MetricSample>
    /** The alert table. */
    var alertStore: seq<Alert>

    ghost predicate Valid()
      reads this
    {
      UniqueRuleIds(rules) && UniqueIds(activeAlerts) && AllOpen(activeAlerts) && UniqueIds(alertStore)
    }

    /** The constructor: default configuration, the four default rules, no
        alert in memory, not running. The two tables start with whatever
        the database holds. */
    constructor (metrics: seq<MetricSample>, alerts: seq<Alert>)
      requires UniqueIds(alerts)
      ensures Valid()
      ensures config == DefaultConfig() && !running && rules == DefaultRules()
      ensures activeAlerts == [] && metricStore == metrics && alertStore == alerts
    {
      config := DefaultConfig();
      running := false;
      rules := DefaultRules();
      activeAlerts := [];
      metricStore := metrics;
      alertStore := alerts;
      DefaultRulesWellFormed();
    }

    /** `start`: sets the timer unless it is already set, in which case it
        only warns (`started` is false). */
    method Start() returns (started: bool)
      modifies this`running
      ensures started == !old(running)
      ensures running
    {
      if running {
        started := false;
        return;
      }
      running := true;
      started := true;
    }

    /** `stop`: clears the timer if it is set. */
    method Stop() returns (stopped: bool)
      modifies this`running
      ensures stopped == old(running)
      ensures !running
    {
      stopped := running;
      if running {
        running := false;
      }
    }

    method UpdateConfig(patch: ConfigPatch)
      requires Valid()
      modifies this`config
      ensures Valid()
      ensures config == MergeConfig(old(config), patch)
    {
      config := MergeConfig(config, patch);
    }

    /** `collectProviderMetrics` and `storeMetric`: every pulled sample is
        appended to the metric table, in order. */
    method CollectProviderMetrics(pulled: Option<seq<MetricSample>>)
      requires Valid()
      modifies this`metricStore
      ensures Valid()
      ensures metricStore == old(metricStore) + (if pulled.Some? then pulled.value else [])
    {
      if pulled.None? {
        return;
      }
      var batch := pulled.value;
      var j := 0;
      while j < |batch|
        invariant 0 <= j <= |batch|
        invariant metricStore == old(metricStore) + batch[..j]
      {
        metricStore := metricStore + [batch[j]];
        assert batch[..j + 1] == batch[..j] + [batch[j]];
        j := j + 1;
      }
      assert batch[..j] == batch;
    }

    /** `cleanupOldMetrics`. */
    method CleanupOldMetrics(now: int)
      requires Valid()
      modifies this`metricStore
      ensures Valid()
      ensures metricStore == Retained(old(metricStore), RetentionCutoff(config, now))
    {
      var cutoff := RetentionCutoff(config, now);
      metricStore := Retained(metricStore, cutoff);
    }

    /** `triggerAlert`: stores the new alert in the map and the table, then
        notifies its channels. */
    method TriggerAlert(rule: AlertRule, sample: MetricSample, now: int, alertId: string, failing: set<string>)
      returns (alert: Alert, delivered: seq<string>)
      requires Valid()
      modifies this`activeAlerts, this`alertStore
      ensures Valid()
      ensures alert == NewAlert(rule, sample, alertId, now)
      ensures activeAlerts == PutAlert(old(activeAlerts), alert)
      ensures alertStore == CreateRecord(old(alertStore), alert)
      ensures delivered == Deliveries(rule.channels, config.notificationChannels, failing)
    {
      alert := Alert(alertId, rule.id, rule.name, rule.severity, Active, now, None, None, None, sample, rule.channels);
      activeAlerts := PutAlert(activeAlerts, alert);
      alertStore := CreateRecord(alertStore, alert);
      delivered := SendNotifications(alert.channels, config.notificationChannels, failing);
    }

    /** `resolveAlert` on the entry at position `k` of the map. */
    method ResolveAlert(k: nat, now: int) returns (resolved: Alert)
      requires Valid() && k < |activeAlerts|
      modifies this`activeAlerts, this`alertStore
      ensures Valid()
      ensures resolved == old(activeAlerts[k]).(status := Resolved, resolvedAt := Some(now))
      ensures activeAlerts == RemoveAt(old(activeAlerts), k)
      ensures alertStore == ResolveRecords(old(alertStore), resolved.id, now)
    {
      resolved := activeAlerts[k].(status := Resolved, resolvedAt := Some(now));
      alertStore := ResolveRecords(alertStore, resolved.id, now);
      activeAlerts := RemoveAt(activeAlerts, k);
    }

    /** `evaluateRule` on the rule at position `i` of the registry. */
    method EvaluateRule(i: nat, now: int, alertId: string, failing: set<string>) returns (event: Event)
      requires Valid() && i < |rules|
      modifies this`rules, this`activeAlerts, this`alertStore
      ensures Valid()
      ensures var s := Step(old(rules[i]), RecentMetrics(metricStore, old(rules[i]), now), old(activeAlerts), old(alertStore), now, alertId,
                                config.notificationChannels, failing);
        rules == old(rules)[i := s.rule] && activeAlerts == s.active && alertStore == s.records && event == s.event
    {
      var rule := rules[i];
      var recent := RecentMetrics(metricStore, rule, now);
      UpdateSame(rules, i);
      if |recent| == 0 {
        return NoData;
      }
      if CheckCondition(rule, recent) {
        event := OnConditionMet(i, recent, now, alertId, failing);
      } else {
        event := OnConditionNotMet(i, recent, now, alertId, failing);
      }
    }

    /** The branch of `evaluateRule` taken when the condition holds. */
    method OnConditionMet(i: nat, recent: seq<MetricSample>, now: int, alertId: string, failing: set<string>)
      returns (event: Event)
      requires Valid() && i < |rules| && |recent| > 0 && CheckCondition(rules[i], recent)
      modifies this`rules, this`activeAlerts, this`alertStore
      ensures Valid()
      ensures var s := Step(old(rules[i]), recent, old(activeAlerts), old(alertStore), now, alertId,
                            config.notificationChannels, failing);
        rules == old(rules)[i := s.rule] && activeAlerts == s.active && alertStore == s.records && event == s.event
    {
      var rule := rules[i];
      if rule.lastTriggered.None? || now - rule.lastTriggered.value > rule.cooldownPeriod * MinuteMs {
        var alert, delivered := TriggerAlert(rule, recent[0], now, alertId, failing);
        rules := rules[i := rule.(lastTriggered := Some(now))];
        event := AlertTriggered(alert, delivered);
      } else {
        event := Suppressed;
      }
    }

    /** The branch of `evaluateRule` taken when the condition does not hold. */
    method OnConditionNotMet(i: nat, recent: seq<MetricSample>, now: int, alertId: string, failing: set<string>)
      returns (event: Event)
      requires Valid() && i < |rules| && |recent| > 0 && !CheckCondition(rules[i], recent)
      modifies this`activeAlerts, this`alertStore
      ensures Valid()
      ensures var s := Step(rules[i], recent, old(activeAlerts), old(alertStore), now, alertId,
                            config.notificationChannels, failing);
        s.rule == rules[i] && activeAlerts == s.active && alertStore == s.records && event == s.event
    {
      var rule := rules[i];
      var k := FirstActive(activeAlerts, rule.id);
      if k.Some? {
        var resolved := ResolveAlert(k.value, now);
        event := AlertResolved(resolved);
      } else {
        event := Steady;
      }
    }

    /** `evaluateAlertRules`: one fresh id per rule; the ids of the rules in
        `failingRules` are those whose store query throws. */
    method EvaluateAlertRules(now: int, alertIds: seq<string>, failingRules: set<string>, failing: set<string>)
      returns (events: seq<Event>)
      requires Valid() && |alertIds| == |rules|
      modifies this`rules, this`activeAlerts, this`alertStore
      ensures Valid()
      ensures var r := EvaluateAll(old(rules), old(activeAlerts), old(alertStore), metricStore, now, alertIds,
                                   config.notificationChannels, failingRules, failing);
        rules == r.rules && activeAlerts == r.active && alertStore == r.records && events == r.events
    {
      events := [];
      var i := 0;
      while i < |rules|
        invariant 0 <= i <= |rules| == |old(rules)|
        invariant Valid()
        invariant var r := EvaluateAll(old(rules)[..i], old(activeAlerts), old(alertStore), metricStore, now, alertIds[..i],
                                       config.notificationChannels, failingRules, failing);
          rules == r.rules + old(rules)[i..] && activeAlerts == r.active && alertStore == r.records && events == r.events
      {
        ghost var prev := EvaluateAll(old(rules)[..i], old(activeAlerts), old(alertStore), metricStore, now, alertIds[..i],
                                      config.notificationChannels, failingRules, failing);
        assert rules[i] == old(rules)[i];
        var e := EvaluateAt(i, now, alertIds[i], failingRules, failing);
        ghost var s := CycleStep(old(rules)[i], prev.active, prev.records, metricStore, now, alertIds[i],
                                 config.notificationChannels, failingRules, failing);
        CycleExtends(old(rules), old(activeAlerts), old(alertStore), metricStore, now, alertIds,
                     config.notificationChannels, failingRules, failing, i);
        UpdateAfterPrefix(prev.rules, old(rules), i, s.rule);
        events := events + [e];
        i := i + 1;
      }
      assert old(rules)[..i] == old(rules);
      assert alertIds[..i] == alertIds;
    }

    /** The body of the loop of `evaluateAlertRules` for the rule at `i`. */
    method EvaluateAt(i: nat, now: int, alertId: string, failingRules: set<string>, failing: set<string>)
      returns (event: Event)
      requires Valid() && i < |rules|
      modifies this`rules, this`activeAlerts, this`alertStore
      ensures Valid()
      ensures var s := CycleStep(old(rules[i]), old(activeAlerts), old(alertStore), metricStore, now, alertId,
                                 config.notificationChannels, failingRules, failing);
        rules == old(rules)[i := s.rule] && activeAlerts == s.active && alertStore == s.records && event == s.event
    {
      var rule := rules[i];
      if !rule.enabled {
        event := Skipped;
      } else if rule.id in failingRules {
        event := QueryFailed;
      } else {
        event := EvaluateRule(i, now, alertId, failing);
      }
    }

    /** One tick of the timer (`collectMetrics`): collect from the providers in
        order, clean up old samples, then evaluate the rules. */
    method CollectMetrics(now: int, pull: Provider -> Option<seq<MetricSample>>, alertIds: seq<string>,
                          failingRules: set<string>, failing: set<string>)
      returns (events: seq<Event>)
      requires Valid() && |alertIds| == |rules|
      modifies this`metricStore, this`rules, this`activeAlerts, this`alertStore
      ensures Valid()
      ensures metricStore == Retained(old(metricStore) + Collected(Providers, pull), RetentionCutoff(config, now))
      ensures var r := EvaluateAll(old(rules), old(activeAlerts), old(alertStore), metricStore, now, alertIds,
                                   config.notificationChannels, failingRules, failing);
        rules == r.rules && activeAlerts == r.active && alertStore == r.records && events == r.events
    {
      var p := 0;
      while p < |Providers|
        invariant 0 <= p <= |Providers|
        invariant Valid()
        invariant metricStore == old(metricStore) + Collected(Providers[..p], pull)
        invariant rules == old(rules) && activeAlerts == old(activeAlerts) && alertStore == old(alertStore)
      {
        CollectProviderMetrics(pull(Providers[p]));
        CollectedSnoc(Providers, p, pull);
        p := p + 1;
      }
      assert Providers[..p] == Providers;
      CleanupOldMetrics(now);
      events := EvaluateAlertRules(now, alertIds, failingRules, failing);
    }

    /** `acknowledgeAlert`: fails when the id is not in the map; otherwise the
        alert becomes acknowledged in place and stays in the map. */
    method AcknowledgeAlert(alertId: string, userId: string, now: int) returns (found: bool)
      requires Valid()
      modifies this`activeAlerts, this`alertStore
      ensures Valid()
      ensures found <==> IndexOfId(old(activeAlerts), alertId).Some?
      ensures !found ==> activeAlerts == old(activeAlerts) && alertStore == old(alertStore)
      ensures found ==> var k := IndexOfId(old(activeAlerts), alertId).value;
        && activeAlerts == old(activeAlerts)[k := old(activeAlerts)[k].(status := Acknowledged,
                                   acknowledgedAt := Some(now), acknowledgedBy := Some(userId))]
        && alertStore == AcknowledgeRecords(old(alertStore), alertId, userId, now)
    {
      var k := IndexOfId(activeAlerts, alertId);
      if k.None? {
        return false;
      }
      var i := k.value;
      activeAlerts := activeAlerts[i := activeAlerts[i].(status := Acknowledged,
                                                       acknowledgedAt := Some(now), acknowledgedBy := Some(userId))];
      alertStore := AcknowledgeRecords(alertStore, alertId, userId, now);
      found := true;
    }

    /** `getActiveAlerts`: the map's values in insertion order, every one of
        them open, no id twice. */
    function GetActiveAlerts(): (r: seq<Alert>)
      reads this
      requires Valid()
      ensures r == activeAlerts
      ensures forall i | 0 <= i < |r| :: r[i].status == Active || r[i].status == Acknowledged
      ensures UniqueIds(r)
    {
      activeAlerts
    }

    /** `getMetrics`: the matching samples of the table, newest first, at most
        `limit` (default 100) of them, and the newest ones. */
    function GetMetrics(provider: Option<Provider>, metricName: Option<string>, startTime: Option<int>,
                        endTime: Option<int>, limit: Option<nat>): (r: seq<MetricSample>)
      reads this
      ensures var lim := if limit.Some? then limit.value else DefaultMetricsLimit;
        && |r| <= lim
        && (forall i | 0 <= i < |r| :: MatchesMetricQuery(r[i], provider, metricName, startTime, endTime))
        && SortedDesc(r, Timestamp)
        && multiset(r) <= multiset(metricStore)
        && forall m | m in metricStore && MatchesMetricQuery(m, provider, metricName, startTime, endTime)
                      && multiset(r)[m] < multiset(metricStore)[m] ::
             |r| == lim && (0 < lim ==> m.timestamp <= r[lim - 1].timestamp)
    {
      var lim := if limit.Some? then limit.value else DefaultMetricsLimit;
      TopN(metricStore, m => MatchesMetricQuery(m, provider, metricName, startTime, endTime), Timestamp, lim)
    }

    /** `getAlertHistory`: the matching alerts of the table, newest first, at
        most `limit` (default 50) of them, and the newest ones. */
    function GetAlertHistory(startTime: Option<int>, endTime: Option<int>, severity: Option<Severity>,
                             limit: Option<nat>): (r: seq<Alert>)
      reads this
      ensures var lim := if limit.Some? then limit.value else DefaultHistoryLimit;
        && |r| <= lim
        && (forall i | 0 <= i < |r| :: MatchesHistoryQuery(r[i], startTime, endTime, severity))
        && SortedDesc(r, CreatedAt)
        && multiset(r) <= multiset(alertStore)
        && forall a | a in alertStore && MatchesHistoryQuery(a, startTime, endTime, severity)
                      && multiset(r)[a] < multiset(alertStore)[a] ::
             |r| == lim && (0 < lim ==> a.createdAt <= r[lim - 1].createdAt)
    {
      var lim := if limit.Some? then limit.value else DefaultHistoryLimit;
      TopN(alertStore, a => MatchesHistoryQuery(a, startTime, endTime, severity), CreatedAt, lim)
    }

    /** `getStatus`. `enabled` is the configuration flag, not whether the
        timer runs. */
    function GetStatus(): (s: StatusReport)
      reads this
      ensures s.enabled == config.enabled
      ensures s.activeAlerts == |activeAlerts| && s.totalRules == |rules|
      ensures s.enabledRules == |Filter(rules, IsEnabled)|
      ensures s.enabledRules <= s.totalRules
      ensures s.enabledRules == s.totalRules <==> forall i | 0 <= i < |rules| :: rules[i].enabled
      ensures s.enabledRules == 0 <==> forall i | 0 <= i < |rules| :: !rules[i].enabled
    {
      StatusReport(config.enabled, |activeAlerts|, |rules|, CountEnabled(rules))
    }
  }
}
