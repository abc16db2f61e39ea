/** The `Plot` object: the timescale tokens it keeps between calls, the query
    for the widest window, the fan-out of one job per chart, and the worker
    that plans one chart. */
module Plotter {
  import opened Wrappers
  import opened PyStr
  import opened PyNum
  import opened Query
  import opened Ticks
  import opened Style
  import opened Worker

  /** One `plot_worker` process: a timescale token, a metric and the size. */
  datatype Job = Job(time: string, metric: string, thumb: bool)

  /** The query the shared data frame is fetched with, and the jobs started on it. */
  datatype Dispatch = Dispatch(query: string, jobs: seq<Job>)

  /** The jobs of one token: job `2 * j` is the full-size chart of metric `j`
      and job `2 * j + 1` its thumbnail. */
  function JobsFor(time: string, metrics: seq<string>): seq<Job> {
    seq(2 * |metrics|, x requires 0 <= x < 2 * |metrics| => Job(time, metrics[x / 2], x % 2 == 1))
  }

  /** The jobs of all tokens, token by token. */
  function JobList(times: seq<string>, metrics: seq<string>): seq<Job> {
    if |times| == 0 then []
    else JobList(times[..|times| - 1], metrics) + JobsFor(times[|times| - 1], metrics)
  }

  lemma JobsForStep(time: string, metrics: seq<string>, j: nat)
    requires j < |metrics|
    ensures JobsFor(time, metrics[..j + 1]) ==
      JobsFor(time, metrics[..j]) + [Job(time, metrics[j], false), Job(time, metrics[j], true)]
  {
    assert metrics[..j + 1][..j] == metrics[..j];
  }

  lemma JobListStep(times: seq<string>, metrics: seq<string>, i: nat)
    requires i < |times|
    ensures JobList(times[..i + 1], metrics) == JobList(times[..i], metrics) + JobsFor(times[i], metrics)
  {
    assert times[..i + 1][..i] == times[..i];
  }

  lemma MulStep(k: nat, n: nat)
    requires n > 0
    ensures k * n == k * (n - 1) + k
  {
  }

  /** There are two jobs per token and metric. */
  lemma {:induction false} JobListLength(times: seq<string>, metrics: seq<string>)
    ensures |JobList(times, metrics)| == 2 * |metrics| * |times|
  {
    if |times| > 0 {
      JobListLength(times[..|times| - 1], metrics);
      MulStep(2 * |metrics|, |times|);
    }
  }

  /** The jobs of all tokens are those before token `i`, token `i`'s own, then those after it. */
  lemma {:induction false} JobListAround(times: seq<string>, metrics: seq<string>, i: nat)
    requires i < |times|
    ensures JobList(times, metrics) ==
      JobList(times[..i], metrics) + JobsFor(times[i], metrics) + JobList(times[i + 1..], metrics)
  {
    var n := |times| - 1;
    var init := times[..n];
    if i == n {
      assert times[i + 1..] == [];
    } else {
      JobListAround(init, metrics, i);
      assert init[..i] == times[..i] && init[i] == times[i];
      var rest := times[i + 1..];
      assert rest[..|rest| - 1] == init[i + 1..] && rest[|rest| - 1] == times[n];
    }
  }

  lemma ConcatAt<T>(whole: seq<T>, a: seq<T>, b: seq<T>, c: seq<T>, x: nat)
    requires whole == a + b + c && x < |b|
    ensures |a| + x < |whole| && whole[|a| + x] == b[x]
  {
  }

  /** After the jobs of the tokens before `i` come, for each metric `j`, the
      full-size chart of token `i` with metric `j` and then its thumbnail. */
  lemma JobListAt(times: seq<string>, metrics: seq<string>, i: nat, j: nat)
    requires i < |times| && j < |metrics|
    ensures var b := |JobList(times[..i], metrics)|;
      && b + 2 * j + 1 < |JobList(times, metrics)|
      && JobList(times, metrics)[b + 2 * j] == Job(times[i], metrics[j], false)
      && JobList(times, metrics)[b + 2 * j + 1] == Job(times[i], metrics[j], true)
  {
    var before, row, after := JobList(times[..i], metrics), JobsFor(times[i], metrics), JobList(times[i + 1..], metrics);
    JobListAround(times, metrics, i);
    assert (2 * j) / 2 == (2 * j + 1) / 2 == j;
    ConcatAt(JobList(times, metrics), before, row, after, 2 * j);
    ConcatAt(JobList(times, metrics), before, row, after, 2 * j + 1);
  }

  /** Job `2 * |metrics| * i + 2 * j` is the full-size chart of token `i` and
      metric `j`, and the next one its thumbnail. */
  lemma JobListOrder(times: seq<string>, metrics: seq<string>, i: nat, j: nat)
    requires i < |times| && j < |metrics|
    ensures |JobList(times, metrics)| == 2 * |metrics| * |times|
    ensures 2 * |metrics| * i + 2 * j + 1 < |JobList(times, metrics)|
    ensures JobList(times, metrics)[2 * |metrics| * i + 2 * j] == Job(times[i], metrics[j], false)
    ensures JobList(times, metrics)[2 * |metrics| * i + 2 * j + 1] == Job(times[i], metrics[j], true)
  {
    JobListAt(times, metrics, i, j);
    JobListLength(times, metrics);
    JobListLength(times[..i], metrics);
    assert |times[..i]| == i;
  }

  /** A token's jobs are exactly the jobs of that token with one of the metrics. */
  lemma JobsForMembers(time: string, metrics: seq<string>, job: Job)
    ensures job in JobsFor(time, metrics) <==> job.time == time && job.metric in metrics
  {
    var jobs := JobsFor(time, metrics);
    if job in jobs {
      var x :| 0 <= x < |jobs| && jobs[x] == job;
      assert job.metric == metrics[x / 2];
    }
    if job.time == time && job.metric in metrics {
      var j :| 0 <= j < |metrics| && metrics[j] == job.metric;
      var x := 2 * j + if job.thumb then 1 else 0;
      assert jobs[x] == job;
    }
  }

  /** Every (token, metric, size) combination is one of the jobs, and nothing else is. */
  lemma {:induction false} JobListMembers(times: seq<string>, metrics: seq<string>, job: Job)
    ensures job in JobList(times, metrics) <==> job.time in times && job.metric in metrics
  {
    if |times| > 0 {
      var init := times[..|times| - 1];
      JobListMembers(init, metrics, job);
      JobsForMembers(times[|times| - 1], metrics, job);
      assert times == init + [times[|times| - 1]];
    }
  }

  /** What `plot_dataframe` does after splitting: fetch with the query, then start the jobs. */
  function DispatchOf(times: seq<string>, metrics: seq<string>): Result<Dispatch> {
    var query :- SqlQuery(times);
    Success(Dispatch(query, JobList(times, metrics)))
  }

  /** The nested `for` loops of `plot_dataframe`: token, then metric, then the
      full-size job before the thumbnail job. */
  method EnumerateJobs(times: seq<string>, metrics: seq<string>) returns (jobs: seq<Job>)
    ensures jobs == JobList(times, metrics)
  {
    jobs := [];
    for i := 0 to |times|
      invariant jobs == JobList(times[..i], metrics)
    {
      JobListStep(times, metrics, i);
      var time := times[i];
      ghost var before := jobs;
      for j := 0 to |metrics|
        invariant jobs == before + JobsFor(time, metrics[..j])
      {
        JobsForStep(time, metrics, j);
        var metric := metrics[j];
        jobs := jobs + [Job(time, metric, false)];
        jobs := jobs + [Job(time, metric, true)];
      }
      assert metrics[..|metrics|] == metrics;
    }
    assert times[..|times|] == times;
  }

  /** With the two configured metrics every token yields four jobs. */
  lemma FourJobsPerToken(times: seq<string>)
    ensures |JobList(times, Metrics)| == 4 * |times|
  {
    JobListLength(times, Metrics);
  }

  // ----------------------------------------------------------------- examples

  const ThreeScales := "15min, 6H, 3D"

  lemma ThreeScalesSplit()
    ensures Split(ThreeScales, ", ") == ["15min", "6H", "3D"]
  {
    assert ThreeScales == "15min" + ", " + "6H" + ", " + "3D";
    SplitThree("15min", "6H", "3D", ", ");
  }

  lemma ThreeScalesUnit()
    ensures ChooseUnit(["15min", "6H", "3D"]) == Some(Day)
  {
    var times := ["15min", "6H", "3D"];
    ContainsChar("15min", 'M');
    ContainsChar("6H", 'M');
    ContainsChar("3D", 'M');
    ContainsChar("3D", 'D');
    assert times[2] == "3D";
    assert !AnyContains(times, "M");
    assert AnyContains(times, "D");
    ChooseUnitPrecedence(times);
  }

  lemma ThreeDaysPrefix()
    ensures Contains("3D", "D") && Magnitude("3D", "D") == Success(3)
  {
    assert IsAt("3D", "D", 1);
    FindAt("3D", "D", 1);
    assert Before("3D", "D") == "3" == IntToString(3);
    MagnitudeOfText("3D", "D", 3);
  }

  /** Two tokens without the marker leave the scan at zero. */
  lemma ScanDoubleSkip(a: string, b: string, w: string)
    requires |w| > 0 && !Contains(a, w) && !Contains(b, w)
    ensures MaxMagnitude([a, b], w) == Success(0)
  {
    ScanSingleSkip(a, w);
    ScanSkips([a], b, w);
    assert [a] + [b] == [a, b];
  }

  /** Two tokens without the marker, then one with it. */
  lemma ScanTriple(a: string, b: string, c: string, w: string, v: nat)
    requires |w| > 0 && !Contains(a, w) && !Contains(b, w) && Contains(c, w) && Magnitude(c, w) == Success(v)
    ensures MaxMagnitude([a, b, c], w) == Success(v)
  {
    ScanDoubleSkip(a, b, w);
    ScanTakes([a, b], c, w, v);
    assert [a, b] + [c] == [a, b, c];
  }

  lemma ThreeScalesScan()
    ensures MaxMagnitude(["15min", "6H", "3D"], "D") == Success(3)
  {
    ShorterScalesHaveNoDay();
    ThreeDaysPrefix();
    ScanTriple("15min", "6H", "3D", "D", 3);
  }

  lemma ShorterScalesHaveNoDay()
    ensures !Contains("15min", "D") && !Contains("6H", "D")
  {
    ContainsChar("15min", 'D');
    ContainsChar("6H", 'D');
  }

  /** `"15min, 6H, 3D"` fetches the last 3 days and starts twelve jobs: the
      thumbnails double the six charts. */
  lemma ThreeScalesDispatch()
    ensures DispatchOf(Split(ThreeScales, ", "), Metrics) ==
      Success(Dispatch(QueryText(3, Day), JobList(["15min", "6H", "3D"], Metrics)))
    ensures |JobList(["15min", "6H", "3D"], Metrics)| == 12
  {
    ThreeScalesSplit();
    ThreeScalesUnit();
    ThreeScalesScan();
    FourJobsPerToken(["15min", "6H", "3D"]);
  }

  class Plot {
    const metrics: seq<string>
    /** The object `self.config.plot()` returns. */
    const graph: PlotConfig
    /** `self.times`, which only `plot_dataframe` assigns. */
    var times: Option<seq<string>>

    constructor(graph: PlotConfig)
      ensures metrics == Metrics && this.graph == graph && times.None?
    {
      metrics := Metrics;
      this.graph := graph;
      times := None;
    }

    /** `get_sql_query`: the unit by marker precedence over the tab-joined
        tokens, then the largest magnitude of that unit in a `for` loop. */
    method GetSqlQuery() returns (r: Result<string>)
      ensures r == if times.None? then Failure(AttributeError("times")) else SqlQuery(times.value)
    {
      if times.None? {
        return Failure(AttributeError("times"));
      }
      var ts := times.value;
      var unit := ChooseUnit(ts);
      if unit.None? {
        // `max_t` is read first in the loop; with no tokens, `sql_d` in the return.
        return Failure(UnboundLocalError(if |ts| == 0 then "sql_d" else "max_t"));
      }
      var maxT := Marker(unit.value);
      var maxN: nat := 0;
      for i := 0 to |ts|
        invariant MaxMagnitude(ts[..i], maxT) == Success(maxN)
      {
        var time := ts[i];
        assert ts[..i + 1] == ts[..i] + [time];
        if Contains(time, maxT) {
          var parsed := Magnitude(time, maxT);
          if parsed.Failure? {
            ScanRaises(ts[..i], time, maxT);
            MaxMagnitudeFailureSticks(ts, i + 1, maxT);
            return Failure(parsed.error);
          }
          var timeN := parsed.value;
          ScanTakes(ts[..i], time, maxT, timeN);
          if timeN > maxN {
            maxN := timeN;
          }
        } else {
          ScanSkips(ts[..i], time, maxT);
        }
      }
      assert ts[..|ts|] == ts;
      r := Success(QueryText(maxN, unit.value));
    }

    /** `plot_dataframe`: keep the tokens, fetch once, then one job per token,
        metric and size, in that nesting. */
    method PlotDataframe(timescales: string) returns (r: Result<Dispatch>)
      modifies this
      ensures times == Some(Split(timescales, ", "))
      ensures r == DispatchOf(Split(timescales, ", "), metrics)
    {
      times := Some(Split(timescales, ", "));
      var query :- GetSqlQuery();
      var jobs := EnumerateJobs(times.value, metrics);
      r := Success(Dispatch(query, jobs));
    }

    /** `plot_worker` up to the drawing: the settings, the style, the tickers,
        the metric's look and the file name, in the source's order. */
    method PlotWorker(time: string, metric: string, thumb: bool) returns (r: Result<Plan>)
      ensures r == WorkerPlan(graph, time, metric, thumb)
    {
      var c := graph;
      var humidityColor :- Lookup(c, "all", "humidity_color");
      var temperatureColor :- Lookup(c, "all", "temperature_color");
      var tickLabelRotation :- Lookup(c, "all", "tick_label_rotation");
      var savePath :- Lookup(c, "all", "save_path");
      var style :- SelectStyle(c, thumb);
      var title := time + " - " + metric;
      var ticks :- PlanTicks(time, thumb);
      var lineColor, yFormat;
      if metric == "Humidity" {
        lineColor, yFormat := humidityColor, PercentFormat;
      } else {
        lineColor, yFormat := temperatureColor, DefaultFormat;
      }
      var minorLabelSize: Option<Json> := None;
      if !thumb {
        minorLabelSize := Some(style.xMinorTickLabelSize);
      }
      var dir := Display(savePath);
      if dir.None? {
        return Failure(FormatNotModelled);
      }
      var saveF: string;
      if thumb {
        saveF := dir.value + "/" + time + "_" + metric + "_thumb.png";
      } else {
        saveF := dir.value + "/" + time + "_" + metric + ".png";
      }
      r := Success(Plan(title, "Time", metric, style, ticks, yFormat, lineColor,
        tickLabelRotation, minorLabelSize, saveF));
    }
  }
}
