/** What one `Plot.plot_worker` call decides for a (timescale, metric, size)
    job: labels, style, x-axis tickers, y-axis formatter, line colour and the
    file the chart is saved to. The drawing itself is matplotlib's. */
module Worker {
  import opened Wrappers
  import opened PyStr
  import opened PyNum
  import opened Ticks
  import opened Style

  /** The metrics `Plot.__init__` configures, one chart of each per timescale. */
  const Metrics: seq<string> := ["Humidity", "Temperature"]

  /** The y-axis formatter: matplotlib's `PercentFormatter`, or its default. */
  datatype YFormat = PercentFormat | DefaultFormat

  /** Everything the worker hands to matplotlib, in place of the drawing calls. */
  datatype Plan = Plan(
    title: string,
    xLabel: string,
    yLabel: string,
    style: Style,
    ticks: XTicks,
    yFormat: YFormat,
    lineColor: Json,
    tickLabelRotation: Json,
    minorLabelSize: Option<Json>,   // only the full-size chart sizes its minor labels
    path: string)

  // ------------------------------------------------------------- the save path

  const FullSuffix := ".png"
  const ThumbSuffix := "_thumb.png"

  /** `'{}/{}_{}.png'` or `'{}/{}_{}_thumb.png'` formatted with the directory, timescale and metric. */
  function SavePath(dir: string, time: string, metric: string, thumb: bool): string {
    dir + "/" + time + "_" + metric + (if thumb then ThumbSuffix else FullSuffix)
  }

  /** `str(v)` as `str.format` renders a configuration value, None where not modelled. */
  function Display(v: Json): Option<string> {
    match v
    case JString(text) => Some(text)
    case JInt(n) => Some(IntToString(n))
    case JBool(b) => Some(if b then "True" else "False")
    case JNull => Some("None")
    case _ => None
  }

  /** Both paths lie in the directory and end in `.png`; the thumbnail's is the
      full-size one with `_thumb` inserted before the extension. */
  lemma SavePathShape(dir: string, time: string, metric: string)
    ensures var full := SavePath(dir, time, metric, false);
      var thumb := SavePath(dir, time, metric, true);
      && StartsWith(full, dir + "/") && StartsWith(thumb, dir + "/")
      && EndsWith(full, ".png") && EndsWith(thumb, ".png")
      && thumb == full[..|full| - 4] + "_thumb.png"
  {
    var prefix := dir + "/" + time + "_" + metric;
    var full := SavePath(dir, time, metric, false);
    var thumb := SavePath(dir, time, metric, true);
    assert full == (dir + "/") + (time + "_" + metric + FullSuffix);
    assert thumb == (dir + "/") + (time + "_" + metric + ThumbSuffix);
    assert full[..|full| - 4] == prefix;
  }

  /** The thumbnail and the full-size chart of one job never overwrite each other. */
  lemma ThumbAndFullPathsDiffer(dir: string, time: string, metric: string)
    ensures SavePath(dir, time, metric, true) != SavePath(dir, time, metric, false)
  {
    assert |SavePath(dir, time, metric, true)| == |SavePath(dir, time, metric, false)| + 6;
  }

  /** For the configured metrics the size can be read back from the path. */
  lemma ThumbReadBack(dir: string, time: string, metric: string, thumb: bool)
    requires metric in Metrics
    ensures EndsWith(SavePath(dir, time, metric, thumb), ThumbSuffix) <==> thumb
  {
    var pre := dir + "/" + time + "_" + metric;
    var p := SavePath(dir, time, metric, thumb);
    if thumb {
      assert p == pre + ThumbSuffix;
      assert p[|pre|..] == ThumbSuffix;
    } else {
      assert p == pre + FullSuffix;
      assert p[|p| - 10] == metric[|metric| - 6] != '_';
    }
  }

  /** Within one directory and timescale, the four charts of the configured
      metrics go to four different files. */
  lemma JobPathsDistinct(dir: string, time: string, m1: string, t1: bool, m2: string, t2: bool)
    requires m1 in Metrics && m2 in Metrics && (m1, t1) != (m2, t2)
    ensures SavePath(dir, time, m1, t1) != SavePath(dir, time, m2, t2)
  {
    var prefix := dir + "/" + time + "_";
    var s1 := m1 + (if t1 then ThumbSuffix else FullSuffix);
    var s2 := m2 + (if t2 then ThumbSuffix else FullSuffix);
    assert SavePath(dir, time, m1, t1) == prefix + s1;
    assert SavePath(dir, time, m2, t2) == prefix + s2;
    assert |s1| != |s2|;
    assert (prefix + s1)[|prefix|..] == s1 && (prefix + s2)[|prefix|..] == s2;
  }

  // ---------------------------------------------------------------- the worker

  /** The formatter and line colour by metric: Humidity alone is a percentage
      drawn in the humidity colour. */
  function MetricLook(metric: string, humidityColor: Json, temperatureColor: Json): (Json, YFormat) {
    if metric == "Humidity" then (humidityColor, PercentFormat) else (temperatureColor, DefaultFormat)
  }

  /** The plan of `plot_worker` for one job, raising as the source does, in its
      order: the `all` settings, the style, the tick branches, then the file name. */
  function WorkerPlan(c: PlotConfig, time: string, metric: string, thumb: bool): Result<Plan> {
    var humidityColor :- Lookup(c, "all", "humidity_color");
    var temperatureColor :- Lookup(c, "all", "temperature_color");
    var tickLabelRotation :- Lookup(c, "all", "tick_label_rotation");
    var savePath :- Lookup(c, "all", "save_path");
    var style :- StyleOf(c, thumb);
    var ticks :- TickPlan(time, thumb);
    var (lineColor, yFormat) := MetricLook(metric, humidityColor, temperatureColor);
    var dir := Display(savePath);
    if dir.None? then Failure(FormatNotModelled)
    else
      Success(Plan(time + " - " + metric, "Time", metric, style, ticks, yFormat, lineColor,
        tickLabelRotation, if thumb then None else Some(style.xMinorTickLabelSize),
        SavePath(dir.value, time, metric, thumb)))
  }

  /** The job succeeds exactly when the `all` settings, the style and the tick
      plan are all available and the save path can be rendered. */
  lemma WorkerPlanSucceeds(c: PlotConfig, time: string, metric: string, thumb: bool)
    ensures WorkerPlan(c, time, metric, thumb).Success? <==>
      && HasSetting(c, "all", "humidity_color") && HasSetting(c, "all", "temperature_color")
      && HasSetting(c, "all", "tick_label_rotation") && HasSetting(c, "all", "save_path")
      && StyleOf(c, thumb).Success? && TickPlan(time, thumb).Success?
      && Display(c["all"].fields["save_path"]).Some?
  {
  }

  /** Humidity alone gets the percent formatter and the humidity colour;
      every other metric the default formatter and the temperature colour. */
  lemma HumidityIsPercent(c: PlotConfig, time: string, metric: string, thumb: bool)
    requires WorkerPlan(c, time, metric, thumb).Success?
    ensures var p := WorkerPlan(c, time, metric, thumb).value;
      && (p.yFormat == PercentFormat <==> metric == "Humidity")
      && p.lineColor == c["all"].fields[if metric == "Humidity" then "humidity_color" else "temperature_color"]
  {
  }

  /** The parts of a successful plan, each from the step that computes it. */
  lemma WorkerPlanParts(c: PlotConfig, time: string, metric: string, thumb: bool)
    requires WorkerPlan(c, time, metric, thumb).Success?
    ensures StyleOf(c, thumb).Success? && TickPlan(time, thumb).Success?
    ensures HasSetting(c, "all", "save_path") && Display(c["all"].fields["save_path"]).Some?
    ensures var p := WorkerPlan(c, time, metric, thumb).value;
      && p.style == StyleOf(c, thumb).value
      && p.ticks == TickPlan(time, thumb).value
      && p.minorLabelSize == (if thumb then None else Some(p.style.xMinorTickLabelSize))
      && p.path == SavePath(Display(c["all"].fields["save_path"]).value, time, metric, thumb)
  {
  }

  /** A thumbnail has no minor ticks and no minor label size. */
  lemma ThumbnailHasNoMinor(c: PlotConfig, time: string, metric: string)
    requires WorkerPlan(c, time, metric, true).Success?
    ensures var p := WorkerPlan(c, time, metric, true).value;
      p.ticks.minor.None? && p.minorLabelSize.None?
  {
    WorkerPlanParts(c, time, metric, true);
    TickPlanMinor(time, true);
  }

  /** The full-size chart sizes its minor labels with the `large` value. */
  lemma FullSizeMinorLabels(c: PlotConfig, time: string, metric: string)
    requires WorkerPlan(c, time, metric, false).Success?
    ensures WorkerPlan(c, time, metric, false).value.minorLabelSize ==
      Some(c["large"].fields["x_minor_tick_label_size"])
  {
    WorkerPlanParts(c, time, metric, false);
    FullSizeUsesLarge(c);
    assert LargeKeys[8] == "x_minor_tick_label_size";
    assert Lookup(c, "large", LargeKeys[8]) == Success(Fields(StyleOf(c, false).value)[8]);
  }

  /** For the configured metrics, a plan's file is a thumbnail's exactly when the plan is. */
  lemma PathTellsSize(c: PlotConfig, time: string, metric: string, thumb: bool)
    requires WorkerPlan(c, time, metric, thumb).Success? && metric in Metrics
    ensures EndsWith(WorkerPlan(c, time, metric, thumb).value.path, ThumbSuffix) <==> thumb
  {
    WorkerPlanParts(c, time, metric, thumb);
    ThumbReadBack(Display(c["all"].fields["save_path"]).value, time, metric, thumb);
  }

  /** The two sizes of one job share their title, labels, colour and major
      ticker, and are saved to different files in the same directory. */
  lemma SizesOfOneJob(c: PlotConfig, time: string, metric: string)
    requires WorkerPlan(c, time, metric, false).Success? && WorkerPlan(c, time, metric, true).Success?
    ensures var full := WorkerPlan(c, time, metric, false).value;
      var thumb := WorkerPlan(c, time, metric, true).value;
      && full.title == thumb.title == time + " - " + metric
      && full.yLabel == thumb.yLabel == metric
      && full.lineColor == thumb.lineColor && full.yFormat == thumb.yFormat
      && full.ticks.major == thumb.ticks.major
      && full.path != thumb.path
      && thumb.path == full.path[..|full.path| - 4] + "_thumb.png"
  {
    TickPlanThumbSameMajor(time);
    var dir := Display(c["all"].fields["save_path"]).value;
    ThumbAndFullPathsDiffer(dir, time, metric);
    SavePathShape(dir, time, metric);
  }
}
