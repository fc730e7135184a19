/**
 The usage ledger of `ResourceMonitor` in core/monitoring/resource_monitor.py:
 per-API records holding per-day buckets of calls, tokens and cost plus
 running totals, the daily-cost alert rule, and the summaries read from
 the ledger. Costs are whole cents; the day is the opaque key that
 `strftime("%Y-%m-%d")` produces from the clock, passed in as `today`.
 */
module Usage {
  import opened Common
  import opened OrderedMaps

  /** A calendar day as the ledger keys it. */
  type Day = string

  /** The default thresholds $10, $50 and $150, in cents. */
  const DefaultDaily := 1000
  const DefaultWeekly := 5000
  const DefaultMonthly := 15000
  /** The severity every threshold alert carries. */
  const High := "high"

  datatype DayBucket = DayBucket(calls: int, tokens: int, cost: int)

  datatype ApiRecord = ApiRecord(daily: OMap<Day, DayBucket>, totalTokens: int, totalCost: int)

  datatype Thresholds = Thresholds(daily: int, weekly: int, monthly: int)

  datatype Monitor = Monitor(apis: OMap<string, ApiRecord>, thresholds: Thresholds)

  /** A daily-cost alert: the API, the day's cost and the severity. The
      rendered message text is not modelled. */
  datatype Alert = Alert(api: string, dailyCost: int, severity: string)

  /** A fresh monitor with no usage file on disk. */
  function NewMonitor(): (m: Monitor)
    ensures Valid(m.apis) && m.apis.keys == [] && m.apis.entries == map[]
    ensures m.thresholds == Thresholds(DefaultDaily, DefaultWeekly, DefaultMonthly)
  {
    Monitor(Empty(), Thresholds(DefaultDaily, DefaultWeekly, DefaultMonthly))
  }

  function BucketCalls(b: DayBucket): int { b.calls }
  function BucketTokens(b: DayBucket): int { b.tokens }
  function BucketCost(b: DayBucket): int { b.cost }

  /** The zeroed record created on an API's first call. */
  function ZeroRecord(): ApiRecord {
    ApiRecord(Empty(), 0, 0)
  }

  /** The zeroed bucket created on a day's first call. */
  function ZeroBucket(): DayBucket {
    DayBucket(0, 0, 0)
  }

  /** The record of `api`, zeroed if it has none yet. */
  function RecordOf(m: Monitor, api: string): ApiRecord {
    GetOr(m.apis, api, ZeroRecord())
  }

  /** The bucket of `day`, zeroed if it has none yet. */
  function BucketOf(r: ApiRecord, day: Day): DayBucket {
    GetOr(r.daily, day, ZeroBucket())
  }

  /** The number of calls recorded in the daily buckets of one API. */
  function DailyCalls(r: ApiRecord): int {
    Sum(r.daily, BucketCalls)
  }

  /** The tokens recorded in the daily buckets of one API. */
  function DailyTokens(r: ApiRecord): int {
    Sum(r.daily, BucketTokens)
  }

  /** The cost recorded in the daily buckets of one API. */
  function DailyCost(r: ApiRecord): int {
    Sum(r.daily, BucketCost)
  }

  /** A record whose totals agree with its daily buckets. */
  ghost predicate Consistent(r: ApiRecord) {
    && Valid(r.daily)
    && r.totalTokens == DailyTokens(r)
    && r.totalCost == DailyCost(r)
  }

  /** The invariant of the ledger: every record is consistent. */
  ghost predicate Sound(m: Monitor) {
    && Valid(m.apis)
    && forall api :: api in m.apis.entries ==> Consistent(m.apis.entries[api])
  }

  datatype Tracked = Tracked(monitor: Monitor, alert: Option<Alert>)

  /** A bucket after one more call. */
  function Bump(b: DayBucket, tokens: int, cost: int): DayBucket {
    DayBucket(b.calls + 1, b.tokens + tokens, b.cost + cost)
  }

  /** One call's bookkeeping in one record. */
  function TrackRecord(r: ApiRecord, today: Day, tokens: int, cost: int): ApiRecord {
    ApiRecord(Put(r.daily, today, Bump(BucketOf(r, today), tokens, cost)),
              r.totalTokens + tokens, r.totalCost + cost)
  }

  /** `track_api_call`: record one call of `api` today, creating zeroed
      records and buckets on first use, then compare today's cost with the
      daily threshold (strictly greater raises a "high" alert). */
  function Track(m: Monitor, api: string, today: Day, tokens: int, cost: int): (r: Tracked)
    ensures r.monitor.thresholds == m.thresholds
    ensures api in r.monitor.apis.entries
    ensures r.monitor.apis.entries - {api} == m.apis.entries - {api}
    ensures api in m.apis.entries ==> r.monitor.apis.keys == m.apis.keys
    ensures api !in m.apis.entries ==> r.monitor.apis.keys == m.apis.keys + [api]
    ensures var before := RecordOf(m, api); var after := RecordOf(r.monitor, api);
      && today in after.daily.entries
      && BucketOf(after, today).calls == BucketOf(before, today).calls + 1
      && BucketOf(after, today).tokens == BucketOf(before, today).tokens + tokens
      && BucketOf(after, today).cost == BucketOf(before, today).cost + cost
      && after.daily.entries - {today} == before.daily.entries - {today}
      && after.totalTokens == before.totalTokens + tokens
      && after.totalCost == before.totalCost + cost
    ensures r.alert.Some? <==> BucketOf(RecordOf(r.monitor, api), today).cost > m.thresholds.daily
    ensures r.alert.Some? ==>
      r.alert.value == Alert(api, BucketOf(RecordOf(r.monitor, api), today).cost, High)
  {
    var rec := TrackRecord(RecordOf(m, api), today, tokens, cost);
    var m' := m.(apis := Put(m.apis, api, rec));
    var dailyCost := BucketOf(rec, today).cost;
    Tracked(m', if dailyCost > m.thresholds.daily then Some(Alert(api, dailyCost, High)) else None)
  }

  /** The first call of an API creates its record with one bucket, for today. */
  lemma FirstCallCreatesRecord(m: Monitor, api: string, today: Day, tokens: int, cost: int)
    requires api !in m.apis.entries
    ensures var after := RecordOf(Track(m, api, today, tokens, cost).monitor, api);
      && after.daily.keys == [today]
      && after.daily.entries == map[today := DayBucket(1, tokens, cost)]
      && after.totalTokens == tokens && after.totalCost == cost
  {
  }

  /** How one call changes the sum of a bucket column that is zero in a
      zeroed bucket. */
  lemma BumpColumn(r: ApiRecord, today: Day, tokens: int, cost: int, f: DayBucket -> int)
    requires Valid(r.daily) && f(ZeroBucket()) == 0
    ensures var b := BucketOf(r, today);
      Sum(Put(r.daily, today, Bump(b, tokens, cost)), f) == Sum(r.daily, f) - f(b) + f(Bump(b, tokens, cost))
  {
    SumPut(r.daily, today, Bump(BucketOf(r, today), tokens, cost), f);
  }

  /** One call keeps a consistent record consistent. */
  lemma TrackRecordConsistent(r: ApiRecord, today: Day, tokens: int, cost: int)
    requires Consistent(r)
    ensures Consistent(TrackRecord(r, today, tokens, cost))
    ensures DailyCalls(TrackRecord(r, today, tokens, cost)) == DailyCalls(r) + 1
  {
    BumpColumn(r, today, tokens, cost, BucketTokens);
    BumpColumn(r, today, tokens, cost, BucketCost);
    BumpColumn(r, today, tokens, cost, BucketCalls);
  }

  /** `track_api_call` preserves the ledger invariant. */
  lemma TrackKeepsSound(m: Monitor, api: string, today: Day, tokens: int, cost: int)
    requires Sound(m)
    ensures Sound(Track(m, api, today, tokens, cost).monitor)
  {
    TrackRecordConsistent(RecordOf(m, api), today, tokens, cost);
  }

  /** One row of `get_api_usage`. */
  datatype UsageRow = UsageRow(api: string, totalTokens: int, totalCost: int, dailyCalls: int)

  function RowOf(m: Monitor, api: string): UsageRow {
    var r := RecordOf(m, api);
    UsageRow(api, r.totalTokens, r.totalCost, DailyCalls(r))
  }

  /** `get_api_usage`: one row per tracked API, in the order the APIs were
      first tracked. */
  function ApiUsage(m: Monitor): (rows: seq<UsageRow>)
    ensures |rows| == |m.apis.keys|
    ensures forall i :: 0 <= i < |rows| ==> rows[i].api == m.apis.keys[i]
    // the running totals, and the calls of every daily bucket added up
    ensures forall i :: 0 <= i < |rows| ==>
      var rec := RecordOf(m, m.apis.keys[i]);
      && rows[i].totalTokens == rec.totalTokens
      && rows[i].totalCost == rec.totalCost
      && rows[i].dailyCalls == Sum(rec.daily, BucketCalls)
  {
    seq(|m.apis.keys|, i requires 0 <= i < |m.apis.keys| => RowOf(m, m.apis.keys[i]))
  }

  function RecordCalls(r: ApiRecord): int { DailyCalls(r) }
  function RecordTokens(r: ApiRecord): int { r.totalTokens }
  function RecordCost(r: ApiRecord): int { r.totalCost }

  /** `get_total_api_calls`: the calls in every bucket of every API, which
      is the `daily_calls` column of `get_api_usage` added up. */
  function TotalApiCalls(m: Monitor): (n: int)
    ensures n == RowCalls(ApiUsage(m))
  {
    RowCallsAlong(m, |m.apis.keys|);
    assert ApiUsage(m)[..|m.apis.keys|] == ApiUsage(m);
    assert m.apis.keys[..|m.apis.keys|] == m.apis.keys;
    Sum(m.apis, RecordCalls)
  }

  /** `get_total_tokens`: the running totals added up; on a sound ledger
      these are the tokens of every daily bucket. */
  function TotalTokens(m: Monitor): (n: int)
    ensures Sound(m) ==> n == Sum(m.apis, DailyTokens)
  {
    SumAlongAgree(m.apis.keys, m.apis.entries, RecordTokens, DailyTokens);
    Sum(m.apis, RecordTokens)
  }

  /** `get_total_cost`: the running totals added up; on a sound ledger these
      are the costs of every daily bucket. */
  function TotalCost(m: Monitor): (n: int)
    ensures Sound(m) ==> n == Sum(m.apis, DailyCost)
  {
    SumAlongAgree(m.apis.keys, m.apis.entries, RecordCost, DailyCost);
    Sum(m.apis, RecordCost)
  }

  /** The `dailyCalls` column added up. */
  function RowCalls(rows: seq<UsageRow>): int
    decreases |rows|
  {
    if |rows| == 0 then 0 else RowCalls(rows[..|rows| - 1]) + rows[|rows| - 1].dailyCalls
  }

  /** The first `n` rows' calls are the first `n` APIs' calls. */
  lemma {:induction false} RowCallsAlong(m: Monitor, n: nat)
    requires n <= |m.apis.keys|
    ensures RowCalls(ApiUsage(m)[..n]) == SumAlong(m.apis.keys[..n], m.apis.entries, RecordCalls)
    decreases n
  {
    if n > 0 {
      RowCallsAlong(m, n - 1);
      var rows := ApiUsage(m);
      assert rows[..n][..n - 1] == rows[..n - 1];
      assert m.apis.keys[..n][..n - 1] == m.apis.keys[..n - 1];
    }
  }

  /** Each call adds exactly one to `get_total_api_calls`, and its tokens
      and cost to the grand totals. */
  lemma TrackCountsOnce(m: Monitor, api: string, today: Day, tokens: int, cost: int)
    requires Sound(m)
    ensures var m' := Track(m, api, today, tokens, cost).monitor;
      && TotalApiCalls(m') == TotalApiCalls(m) + 1
      && TotalTokens(m') == TotalTokens(m) + tokens
      && TotalCost(m') == TotalCost(m) + cost
  {
    var before := RecordOf(m, api);
    var after := TrackRecord(before, today, tokens, cost);
    TrackRecordConsistent(before, today, tokens, cost);
    SumPut(m.apis, api, after, RecordCalls);
    SumPut(m.apis, api, after, RecordTokens);
    SumPut(m.apis, api, after, RecordCost);
  }

  /** One tracked call: the API, the day it happened, tokens and cost. */
  datatype Call = Call(api: string, day: Day, tokens: int, cost: int)

  /** Tracks each call of `calls` in order. */
  function TrackAll(m: Monitor, calls: seq<Call>): Monitor
    decreases |calls|
  {
    if |calls| == 0 then m
    else
      var c := calls[|calls| - 1];
      Track(TrackAll(m, calls[..|calls| - 1]), c.api, c.day, c.tokens, c.cost).monitor
  }

  /** Starting from a sound ledger, every record stays consistent and
      `get_total_api_calls` grows by exactly the number of calls tracked. */
  lemma {:induction false} TrackAllCounts(m: Monitor, calls: seq<Call>)
    requires Sound(m)
    ensures Sound(TrackAll(m, calls))
    ensures TotalApiCalls(TrackAll(m, calls)) == TotalApiCalls(m) + |calls|
    decreases |calls|
  {
    if |calls| > 0 {
      var prev := TrackAll(m, calls[..|calls| - 1]);
      var c := calls[|calls| - 1];
      TrackAllCounts(m, calls[..|calls| - 1]);
      TrackKeepsSound(prev, c.api, c.day, c.tokens, c.cost);
      TrackCountsOnce(prev, c.api, c.day, c.tokens, c.cost);
    }
  }

  /** From a fresh monitor the ledger is consistent and counts every call. */
  lemma FreshLedgerCounts(calls: seq<Call>)
    ensures Sound(TrackAll(NewMonitor(), calls))
    ensures TotalApiCalls(TrackAll(NewMonitor(), calls)) == |calls|
  {
    TrackAllCounts(NewMonitor(), calls);
  }

  /** Whether `api` has a bucket for `today` whose cost is over the daily threshold. */
  function OverBudget(m: Monitor, today: Day): string -> bool {
    (api: string) =>
      api in m.apis.entries && today in m.apis.entries[api].daily.entries
      && m.apis.entries[api].daily.entries[today].cost > m.thresholds.daily
  }

  /** `get_alerts`: a "high" alert for each API over budget today, in ledger order. */
  function Alerts(m: Monitor, today: Day): (r: seq<Alert>)
    ensures forall i :: 0 <= i < |r| ==>
      && r[i].api in m.apis.entries
      && today in m.apis.entries[r[i].api].daily.entries
      && r[i].dailyCost == m.apis.entries[r[i].api].daily.entries[today].cost
      && r[i].dailyCost > m.thresholds.daily
      && r[i].severity == High
    ensures forall i :: 0 <= i < |m.apis.keys| && OverBudget(m, today)(m.apis.keys[i]) ==>
      exists j :: 0 <= j < |r| && r[j].api == m.apis.keys[i]
    // in ledger order: the alerted APIs are the ledger's keys kept by the rule, in order
    ensures |r| == |Filter(m.apis.keys, OverBudget(m, today))|
    ensures forall i :: 0 <= i < |r| ==> r[i].api == Filter(m.apis.keys, OverBudget(m, today))[i]
  {
    var hot := Filter(m.apis.keys, OverBudget(m, today));
    FilterMembers(m.apis.keys, OverBudget(m, today));
    var r := seq(|hot|, i requires 0 <= i < |hot| =>
                   Alert(hot[i], BucketOf(RecordOf(m, hot[i]), today).cost, High));
    assert forall i :: 0 <= i < |m.apis.keys| && OverBudget(m, today)(m.apis.keys[i]) ==>
      exists j :: 0 <= j < |r| && r[j].api == m.apis.keys[i] by {
      forall i | 0 <= i < |m.apis.keys| && OverBudget(m, today)(m.apis.keys[i])
        ensures exists j :: 0 <= j < |r| && r[j].api == m.apis.keys[i]
      {
        var j :| 0 <= j < |hot| && hot[j] == m.apis.keys[i];
        assert r[j].api == m.apis.keys[i];
      }
    }
    r
  }

  /** No API is alerted twice. */
  lemma AlertsOncePerApi(m: Monitor, today: Day)
    requires Valid(m.apis)
    ensures var r := Alerts(m, today);
      forall i, j :: 0 <= i < j < |r| ==> r[i].api != r[j].api
  {
    FilterDistinct(m.apis.keys, OverBudget(m, today));
  }

  /** The alert `track_api_call` raises is the one `get_alerts` then lists for the API. */
  lemma TrackAlertListed(m: Monitor, api: string, today: Day, tokens: int, cost: int)
    requires Valid(m.apis)
    requires Track(m, api, today, tokens, cost).alert.Some?
    ensures var t := Track(m, api, today, tokens, cost);
      exists j :: 0 <= j < |Alerts(t.monitor, today)| && Alerts(t.monitor, today)[j] == t.alert.value
  {
    var t := Track(m, api, today, tokens, cost);
    var m' := t.monitor;
    assert api in m'.apis.keys;
    var i :| 0 <= i < |m'.apis.keys| && m'.apis.keys[i] == api;
    assert OverBudget(m', today)(m'.apis.keys[i]);
    var j :| 0 <= j < |Alerts(m', today)| && Alerts(m', today)[j].api == api;
  }

  /** `update_thresholds`: a threshold passed as `None` keeps its value
      (`0` counts as passed). */
  function UpdateThresholds(m: Monitor, daily: Option<int>, weekly: Option<int>, monthly: Option<int>): (r: Monitor)
    ensures r.apis == m.apis
    ensures daily.Some? ==> r.thresholds.daily == daily.value
    ensures daily.None? ==> r.thresholds.daily == m.thresholds.daily
    ensures weekly.Some? ==> r.thresholds.weekly == weekly.value
    ensures weekly.None? ==> r.thresholds.weekly == m.thresholds.weekly
    ensures monthly.Some? ==> r.thresholds.monthly == monthly.value
    ensures monthly.None? ==> r.thresholds.monthly == m.thresholds.monthly
  {
    m.(thresholds := Thresholds(daily.GetOr(m.thresholds.daily),
                                weekly.GetOr(m.thresholds.weekly),
                                monthly.GetOr(m.thresholds.monthly)))
  }

  /** Raising the daily threshold to a day's highest cost silences every
      alert for that day. */
  lemma RaisedThresholdSilences(m: Monitor, today: Day, ceiling: int)
    requires forall api :: api in m.apis.entries && today in m.apis.entries[api].daily.entries ==>
      m.apis.entries[api].daily.entries[today].cost <= ceiling
    ensures Alerts(UpdateThresholds(m, Some(ceiling), None, None), today) == []
  {
    var m' := UpdateThresholds(m, Some(ceiling), None, None);
    FilterNone(m'.apis.keys, OverBudget(m', today));
  }
}
