/** The pipeline monitor: a pending execution record with its start time, an
    append-only history of completed records, aggregates over that history and
    a health decision. Clock readings, timestamps and system readings are
    parameters. */
module Monitor {
  import opened Wrappers
  import opened Json
  import opened Dicts
  import opened Stats

  /** An execution record: a dict from field name to value. */
  type Record = Dict<Json>

  /** The snapshot `start_execution` takes. */
  function StartRecord(id: string, stamp: string, input: Json, systemInfo: Json): (r: Record)
    ensures Keys(r) == ["execution_id", "start_time", "input_data", "system_info"]
  {
    [("execution_id", JStr(id)), ("start_time", JStr(stamp)), ("input_data", input), ("system_info", systemInfo)]
  }

  /** `d.update(data)`: every item of `data`, in order, assigned into `d`. */
  function Update(d: Record, data: Record): (r: Record)
    ensures DistinctKeys(d) ==> DistinctKeys(r)
    ensures forall k :: k in Keys(r) <==> k in Keys(d) || k in Keys(data)
  {
    if data == [] then d
    else
      var init := data[..|data| - 1];
      var last := data[|data| - 1];
      assert Keys(data) == Keys(init) + [last.0];
      Put(Update(d, init), last.0, last.1)
  }

  /** The pending record as `record_execution` completes it: updated with the
      execution data, then `end_time`, `duration` and `performance`. */
  function Completed(pending: Record, data: Record, stamp: string, duration: real, performance: Json): Record
  {
    Put(Put(Put(Update(pending, data), "end_time", JStr(stamp)), "duration", JFloat(duration)), "performance", performance)
  }

  class PipelineMonitor {
    var history: seq<Record>
    var current: Option<Record>
    var startTime: Option<real>

    /** A record is pending exactly when a start time is held, and a pending
        record is never empty. */
    predicate Valid()
      reads this
    {
      (current.Some? <==> startTime.Some?) && (current.Some? ==> current.value != [])
    }

    /** `if self.current_execution:`, where an empty dict is false. */
    predicate Pending()
      reads this
    {
      current.Some? && current.value != []
    }

    constructor()
      ensures Valid() && history == [] && current == None && startTime == None
    {
      history, current, startTime := [], None, None;
    }

    /** `start_execution`: a new snapshot replaces any pending one. */
    method StartExecution(id: string, input: Json, now: real, stamp: string, systemInfo: Json)
      modifies this
      ensures Valid()
      ensures history == old(history)
      ensures current == Some(StartRecord(id, stamp, input, systemInfo)) && startTime == Some(now)
    {
      startTime := Some(now);
      current := Some(StartRecord(id, stamp, input, systemInfo));
    }

    /** `record_execution`: completes the pending record and appends it to the
        history, then clears the pending state; without a pending record it
        does nothing. */
    method RecordExecution(data: Record, now: real, stamp: string, performance: Json)
      requires Valid()
      modifies this
      ensures Valid()
      ensures old(Pending()) ==>
        history == old(history) + [Completed(old(current.value), data, stamp, now - old(startTime.value), performance)] &&
        current == None && startTime == None
      ensures !old(Pending()) ==>
        history == old(history) && current == old(current) && startTime == old(startTime)
    {
      if current.Some? && current.value != [] {
        var record := Update(current.value, data);
        record := Put(record, "end_time", JStr(stamp));
        record := Put(record, "duration", JFloat(now - startTime.value));
        record := Put(record, "performance", performance);
        history := history + [record];
        current := None;
        startTime := None;
      }
    }

    /** `clear_history`: the history becomes empty; the pending state stays. */
    method ClearHistory()
      modifies this
      ensures history == [] && current == old(current) && startTime == old(startTime)
    {
      history := [];
    }

    /** `get_execution_summary(limit)`. */
    function ExecutionSummary(limit: int): Summary
      reads this
    {
      SummaryOf(PyTail(history, limit))
    }

    /** `get_performance_report()`, with the system readings given. */
    function PerformanceReport(systemMetrics: Json): Report
      reads this
    {
      ReportOf(history, systemMetrics)
    }

    /** `get_health_status()`, with the directory check and the resource
        readings given: an unwritable metrics directory is an error whatever
        the readings; otherwise a reading above 90 percent is a warning. */
    method GetHealthStatus(metricsWritable: bool, memoryPercent: real, diskPercent: real, cpuPercent: real)
      returns (h: Health)
      ensures h.status == if !metricsWritable then "error"
                          else if memoryPercent > 90.0 || diskPercent > 90.0 then "warning"
                          else "healthy"
      ensures h.warnings == if memoryPercent > 90.0 || diskPercent > 90.0
                            then Some((if memoryPercent > 90.0 then ["High memory usage"] else []) +
                                      (if diskPercent > 90.0 then ["High disk usage"] else []))
                            else None
      ensures h.errors == if metricsWritable then None else Some(["Metrics directory not writable"])
      ensures h.metricsDirectory == "metrics" && h.metricsWritable == metricsWritable
      ensures h.historySize == |history|
      ensures h.memoryPercent == memoryPercent && h.diskPercent == diskPercent && h.cpuPercent == cpuPercent
    {
      h := Health("healthy", "metrics", metricsWritable, |history|, memoryPercent, diskPercent, cpuPercent, None, None);
      if memoryPercent > 90.0 {
        h := h.(status := "warning", warnings := Some(["High memory usage"]));
      }
      if diskPercent > 90.0 {
        h := h.(status := "warning", warnings := Some(h.warnings.GetOr([]) + ["High disk usage"]));
        assert [] + ["High disk usage"] == ["High disk usage"];
      }
      assert memoryPercent > 90.0 && diskPercent <= 90.0 ==>
        ["High memory usage"] + [] == ["High memory usage"];
      if !metricsWritable {
        h := h.(status := "error", errors := Some(["Metrics directory not writable"]));
      }
    }
  }

  datatype Health = Health(
    status: string, metricsDirectory: string, metricsWritable: bool, historySize: nat,
    memoryPercent: real, diskPercent: real, cpuPercent: real,
    warnings: Option<seq<string>>, errors: Option<seq<string>>)

  // ------------------------------------------------------------ aggregates

  /** Python's `s[-limit:]`. */
  function PyTail<T>(s: seq<T>, limit: int): (r: seq<T>)
    ensures limit == 0 || limit >= |s| ==> r == s
    ensures 0 < limit <= |s| ==> r == s[|s| - limit..]
    ensures limit < 0 ==> r == s[if -limit <= |s| then -limit else |s|..]
  {
    var start := -limit;
    if start < 0 then s[if |s| + start > 0 then |s| + start else 0..]
    else s[if start <= |s| then start else |s|..]
  }

  /** `ex.get(key, 0)` as a number; None when the value is not one, where
      `sum` and `min` would raise. A bool counts as 0 or 1. */
  function Metric(r: Record, key: string): (m: Option<real>)
    ensures Get(r, key).None? ==> m == Some(0.0)
    ensures Get(r, key) == Some(JFloat(0.0)) ==> m == Some(0.0)
  {
    var v := Get(r, key);
    if v.None? then Some(0.0)
    else
      match v.value
      case JInt(i) => Some(i as real)
      case JFloat(f) => Some(f)
      case JBool(b) => Some(if b then 1.0 else 0.0)
      case _ => None
  }

  /** The list comprehension `[ex.get(key, 0) for ex in rs]`, when every value
      is a number. */
  function Metrics(rs: seq<Record>, key: string): (m: Option<seq<real>>)
    ensures m.Some? <==> forall i :: 0 <= i < |rs| ==> Metric(rs[i], key).Some?
    ensures m.Some? ==> |m.value| == |rs| && forall i :: 0 <= i < |rs| ==> m.value[i] == Metric(rs[i], key).value
  {
    if rs == [] then Some([])
    else
      var init := Metrics(rs[..|rs| - 1], key);
      var last := Metric(rs[|rs| - 1], key);
      assert forall i :: 0 <= i < |rs| - 1 ==> rs[..|rs| - 1][i] == rs[i];
      if init.Some? && last.Some? then Some(init.value + [last.value]) else None
  }

  /** The mean of the last `n` values, or of all when fewer: the recent trend. */
  function RecentMean(xs: seq<real>, n: nat): real
  {
    Mean(if |xs| >= n then xs[|xs| - n..] else xs)
  }

  datatype Summary =
    | NoExecutions
    | SummaryNotNumeric
    | Summary(totalExecutions: nat, averageDuration: real, averageQuality: real,
              minDuration: real, maxDuration: real, minQuality: real, maxQuality: real,
              recentExecutions: seq<Record>)

  /** The summary of a window of records; a missing duration or quality
      counts as 0. */
  function SummaryOf(window: seq<Record>): (r: Summary)
    ensures r.NoExecutions? <==> window == []
    ensures r.Summary? ==> r.totalExecutions == |window| && r.recentExecutions == window
    ensures r.Summary? ==> r.minDuration <= r.averageDuration <= r.maxDuration
    ensures r.Summary? ==> r.minQuality <= r.averageQuality <= r.maxQuality
    ensures var ds := Metrics(window, "duration");
      r.Summary? ==> ds.Some? && r.averageDuration == Mean(ds.value)
                     && r.minDuration == Min(ds.value) && r.maxDuration == Max(ds.value)
    ensures var qs := Metrics(window, "content_quality");
      r.Summary? ==> qs.Some? && r.averageQuality == Mean(qs.value)
                     && r.minQuality == Min(qs.value) && r.maxQuality == Max(qs.value)
    ensures window != [] && r.SummaryNotNumeric? <==>
      exists i :: 0 <= i < |window| && (Metric(window[i], "duration").None? || Metric(window[i], "content_quality").None?)
  {
    if window == [] then NoExecutions
    else
      var ds, qs := Metrics(window, "duration"), Metrics(window, "content_quality");
      if ds.Some? && qs.Some? then
        MeanBetweenMinMax(ds.value);
        MeanBetweenMinMax(qs.value);
        Summary(|window|, Mean(ds.value), Mean(qs.value), Min(ds.value), Max(ds.value),
                Min(qs.value), Max(qs.value), window)
      else SummaryNotNumeric
  }

  datatype Report =
    | NoHistory
    | ReportNotNumeric
    | Report(totalExecutions: nat, averageDuration: real, averageQuality: real,
             minDuration: real, maxDuration: real, minQuality: real, maxQuality: real,
             recentAvgDuration: real, recentAvgQuality: real,
             systemMetrics: Json, executionHistory: seq<Record>)

  /** The performance report over the whole history. */
  function ReportOf(history: seq<Record>, systemMetrics: Json): (r: Report)
    ensures r.NoHistory? <==> history == []
    ensures r.Report? ==> r.totalExecutions == |history| && r.systemMetrics == systemMetrics
    ensures r.Report? ==> r.executionHistory == PyTail(history, 5)
    ensures r.Report? ==> r.minDuration <= r.averageDuration <= r.maxDuration
    ensures r.Report? ==> r.minQuality <= r.averageQuality <= r.maxQuality
    ensures r.Report? ==> r.minDuration <= r.recentAvgDuration <= r.maxDuration
    ensures r.Report? ==> r.minQuality <= r.recentAvgQuality <= r.maxQuality
    ensures var ds := Metrics(history, "duration");
      r.Report? ==> ds.Some? && r.averageDuration == Mean(ds.value)
                    && r.minDuration == Min(ds.value) && r.maxDuration == Max(ds.value)
                    && r.recentAvgDuration == Mean(ds.value[|ds.value| - (if |ds.value| < 10 then |ds.value| else 10)..])
    ensures var qs := Metrics(history, "content_quality");
      r.Report? ==> qs.Some? && r.averageQuality == Mean(qs.value)
                    && r.minQuality == Min(qs.value) && r.maxQuality == Max(qs.value)
                    && r.recentAvgQuality == Mean(qs.value[|qs.value| - (if |qs.value| < 10 then |qs.value| else 10)..])
    ensures history != [] && r.ReportNotNumeric? <==>
      exists i :: 0 <= i < |history| && (Metric(history[i], "duration").None? || Metric(history[i], "content_quality").None?)
  {
    if history == [] then NoHistory
    else
      var ds, qs := Metrics(history, "duration"), Metrics(history, "content_quality");
      if ds.Some? && qs.Some? then
        MeanBetweenMinMax(ds.value);
        MeanBetweenMinMax(qs.value);
        RecentMeanBounds(ds.value, 10);
        RecentMeanBounds(qs.value, 10);
        Report(|history|, Mean(ds.value), Mean(qs.value), Min(ds.value), Max(ds.value),
               Min(qs.value), Max(qs.value), RecentMean(ds.value, 10), RecentMean(qs.value, 10),
               systemMetrics, PyTail(history, 5))
      else ReportNotNumeric
  }

  /** The recent mean lies between the minimum and maximum of all values. */
  lemma RecentMeanBounds(xs: seq<real>, n: nat)
    requires xs != [] && n >= 1
    ensures Min(xs) <= RecentMean(xs, n) <= Max(xs)
  {
    var k := if |xs| >= n then |xs| - n else 0;
    var ys := xs[k..];
    assert ys == if |xs| >= n then xs[|xs| - n..] else xs;
    forall i | 0 <= i < |ys|
      ensures Min(xs) <= ys[i] <= Max(xs)
    {
      assert ys[i] == xs[k + i];
    }
    MeanBounds(ys, Min(xs), Max(xs));
  }

  // ----------------------------------------------------------- properties

  /** The summary window: the whole history for limit 0 or any limit at least
      its length, otherwise the last `limit` records; an empty history has
      nothing to summarise. */
  lemma SummaryWindow(history: seq<Record>, limit: int)
    ensures history == [] ==> SummaryOf(PyTail(history, limit)) == NoExecutions
    ensures var s := SummaryOf(PyTail(history, limit));
      s.Summary? ==> s.totalExecutions == if 0 < limit < |history| then limit
                                          else if limit < 0 then |history| - (if -limit <= |history| then -limit else |history|)
                                          else |history|
  {
    var w := PyTail(history, limit);
    assert SummaryOf(w).Summary? ==> SummaryOf(w).totalExecutions == |w|;
  }

  /** A completed record holds the duration and end time it was given and
      every field of the start snapshot and of the execution data; a field of
      the data other than the three added last keeps the data's value. */
  lemma CompletedFields(pending: Record, data: Record, stamp: string, duration: real, performance: Json, k: string)
    requires DistinctKeys(pending) && DistinctKeys(data)
    ensures var c := Completed(pending, data, stamp, duration, performance);
      Get(c, "duration") == Some(JFloat(duration)) &&
      Get(c, "end_time") == Some(JStr(stamp)) &&
      Get(c, "performance") == Some(performance) &&
      (k in Keys(pending) || k in Keys(data) ==> k in Keys(c)) &&
      (k in Keys(data) && k != "end_time" && k != "duration" && k != "performance" ==> Get(c, k) == Get(data, k))
  {
    var u := Update(pending, data);
    var u1 := Put(u, "end_time", JStr(stamp));
    var u2 := Put(u1, "duration", JFloat(duration));
    GetPut(u2, "performance", performance, "duration");
    GetPut(u1, "duration", JFloat(duration), "duration");
    GetPut(u2, "performance", performance, "end_time");
    GetPut(u1, "duration", JFloat(duration), "end_time");
    GetPut(u, "end_time", JStr(stamp), "end_time");
    GetPut(u2, "performance", performance, "performance");
    GetPut(u2, "performance", performance, k);
    GetPut(u1, "duration", JFloat(duration), k);
    GetPut(u, "end_time", JStr(stamp), k);
    UpdateGet(pending, data, k);
  }

  /** After `d.update(data)` a key of `data` has the data's value and any other
      key its old one. */
  lemma {:induction false} UpdateGet(d: Record, data: Record, k: string)
    requires DistinctKeys(d) && DistinctKeys(data)
    ensures Get(Update(d, data), k) == if k in Keys(data) then Get(data, k) else Get(d, k)
    decreases |data|
  {
    if data != [] {
      var init := data[..|data| - 1];
      var last := data[|data| - 1];
      assert Keys(data) == Keys(init) + [last.0];
      assert DistinctKeys(init);
      UpdateGet(d, init, k);
      GetPut(Update(d, init), last.0, last.1, k);
      if k in Keys(data) {
        var i :| 0 <= i < |data| && Keys(data)[i] == k;
        GetAt(data, i);
        if k != last.0 {
          assert i < |init| && init[i] == data[i];
          GetAt(init, i);
        }
      }
    }
  }
}
