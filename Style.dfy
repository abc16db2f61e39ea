/** The style values of `Plot.plot_worker`: every `large` setting read from the
    plot configuration, then, for a thumbnail, all of them but the minor tick
    label size replaced by the `thumb` setting of the same name. */
module Style {
  import opened Wrappers

  /** A value of the parsed `graph.json`. */
  datatype Json =
    | JString(text: string)
    | JInt(int)
    | JReal(real)
    | JBool(bool)
    | JNull
    | JArray(items: seq<Json>)
    | JObject(fields: map<string, Json>)

  /** The top-level object `config.plot()` returns: its sections by name. */
  type PlotConfig = map<string, Json>

  /** `c[section][key]`, raising `KeyError` for a missing name and `TypeError`
      when the section is not an object. */
  function Lookup(c: PlotConfig, section: string, key: string): (r: Result<Json>)
    ensures r.Success? <==> HasSetting(c, section, key)
    ensures r.Success? ==> r.value == c[section].fields[key]
  {
    if section !in c then Failure(KeyError(section))
    else match c[section]
      case JObject(fields) =>
        if key in fields then Success(fields[key]) else Failure(KeyError(key))
      case _ => Failure(SectionNotObject(section))
  }

  predicate HasSetting(c: PlotConfig, section: string, key: string) {
    section in c && c[section].JObject? && key in c[section].fields
  }

  /** The fourteen sizes, widths and pads a chart is drawn with. */
  datatype Style = Style(
    plotLineWidth: Json,
    majorGridLineWidth: Json,
    minorGridLineWidth: Json,
    plotSizeX: Json,
    plotSizeY: Json,
    supTitleSize: Json,
    yTickLabelSize: Json,
    xMajorTickLabelSize: Json,
    xMinorTickLabelSize: Json,
    xLabelSize: Json,
    yLabelSize: Json,
    xLabelPad: Json,
    yLabelPad: Json,
    rotation: Json)

  /** The keys read from `large`, in the order they are read. */
  const LargeKeys: seq<string> := [
    "plot_line_width", "major_grid_line_width", "minor_grid_line_width",
    "plot_size_x", "plot_size_y", "sup_title_size", "y_tick_label_size",
    "x_major_tick_label_size", "x_minor_tick_label_size", "x_label_size",
    "y_label_size", "x_label_pad", "y_label_pad", "rotation"]

  /** The keys read from `thumb`: all of `LargeKeys` but `x_minor_tick_label_size`. */
  const ThumbKeys: seq<string> := LargeKeys[..8] + LargeKeys[9..]

  /** The style read from one section, in the order of `LargeKeys`; `minor`
      supplies the minor tick label size, which the `thumb` section does not. */
  function ReadSection(c: PlotConfig, section: string, minor: Option<Json>): Result<Style> {
    var plotLineWidth :- Lookup(c, section, "plot_line_width");
    var majorGridLineWidth :- Lookup(c, section, "major_grid_line_width");
    var minorGridLineWidth :- Lookup(c, section, "minor_grid_line_width");
    var plotSizeX :- Lookup(c, section, "plot_size_x");
    var plotSizeY :- Lookup(c, section, "plot_size_y");
    var supTitleSize :- Lookup(c, section, "sup_title_size");
    var yTickLabelSize :- Lookup(c, section, "y_tick_label_size");
    var xMajorTickLabelSize :- Lookup(c, section, "x_major_tick_label_size");
    var xMinorTickLabelSize :- if minor.Some? then Success(minor.value)
                              else Lookup(c, section, "x_minor_tick_label_size");
    var xLabelSize :- Lookup(c, section, "x_label_size");
    var yLabelSize :- Lookup(c, section, "y_label_size");
    var xLabelPad :- Lookup(c, section, "x_label_pad");
    var yLabelPad :- Lookup(c, section, "y_label_pad");
    var rotation :- Lookup(c, section, "rotation");
    Success(Style(plotLineWidth, majorGridLineWidth, minorGridLineWidth, plotSizeX, plotSizeY,
      supTitleSize, yTickLabelSize, xMajorTickLabelSize, xMinorTickLabelSize, xLabelSize,
      yLabelSize, xLabelPad, yLabelPad, rotation))
  }

  /** The style `plot_worker` draws with: the `large` section, then for a
      thumbnail the `thumb` section over it. */
  function StyleOf(c: PlotConfig, thumb: bool): Result<Style> {
    var large :- ReadSection(c, "large", None);
    if thumb then ReadSection(c, "thumb", Some(large.xMinorTickLabelSize)) else Success(large)
  }

  /** The style section of `plot_worker`: fourteen `large` lookups, then the
      thirteen `thumb` reassignments under `if thumb`. */
  method SelectStyle(c: PlotConfig, thumb: bool) returns (r: Result<Style>)
    ensures r == StyleOf(c, thumb)
  {
    var plotLineWidth :- Lookup(c, "large", "plot_line_width");
    var majorGridLineWidth :- Lookup(c, "large", "major_grid_line_width");
    var minorGridLineWidth :- Lookup(c, "large", "minor_grid_line_width");
    var plotSizeX :- Lookup(c, "large", "plot_size_x");
    var plotSizeY :- Lookup(c, "large", "plot_size_y");
    var supTitleSize :- Lookup(c, "large", "sup_title_size");
    var yTickLabelSize :- Lookup(c, "large", "y_tick_label_size");
    var xMajorTickLabelSize :- Lookup(c, "large", "x_major_tick_label_size");
    var xMinorTickLabelSize :- Lookup(c, "large", "x_minor_tick_label_size");
    var xLabelSize :- Lookup(c, "large", "x_label_size");
    var yLabelSize :- Lookup(c, "large", "y_label_size");
    var xLabelPad :- Lookup(c, "large", "x_label_pad");
    var yLabelPad :- Lookup(c, "large", "y_label_pad");
    var rotation :- Lookup(c, "large", "rotation");
    if thumb {
      plotLineWidth :- Lookup(c, "thumb", "plot_line_width");
      majorGridLineWidth :- Lookup(c, "thumb", "major_grid_line_width");
      minorGridLineWidth :- Lookup(c, "thumb", "minor_grid_line_width");
      plotSizeX :- Lookup(c, "thumb", "plot_size_x");
      plotSizeY :- Lookup(c, "thumb", "plot_size_y");
      supTitleSize :- Lookup(c, "thumb", "sup_title_size");
      yTickLabelSize :- Lookup(c, "thumb", "y_tick_label_size");
      xMajorTickLabelSize :- Lookup(c, "thumb", "x_major_tick_label_size");
      xLabelSize :- Lookup(c, "thumb", "x_label_size");
      yLabelSize :- Lookup(c, "thumb", "y_label_size");
      xLabelPad :- Lookup(c, "thumb", "x_label_pad");
      yLabelPad :- Lookup(c, "thumb", "y_label_pad");
      rotation :- Lookup(c, "thumb", "rotation");
    }
    r := Success(Style(plotLineWidth, majorGridLineWidth, minorGridLineWidth, plotSizeX, plotSizeY,
      supTitleSize, yTickLabelSize, xMajorTickLabelSize, xMinorTickLabelSize, xLabelSize,
      yLabelSize, xLabelPad, yLabelPad, rotation));
  }

  /** Every field of the style, in the order of `LargeKeys`. */
  function Fields(s: Style): (r: seq<Json>)
    ensures |r| == |LargeKeys|
  {
    [s.plotLineWidth, s.majorGridLineWidth, s.minorGridLineWidth, s.plotSizeX, s.plotSizeY,
     s.supTitleSize, s.yTickLabelSize, s.xMajorTickLabelSize, s.xMinorTickLabelSize, s.xLabelSize,
     s.yLabelSize, s.xLabelPad, s.yLabelPad, s.rotation]
  }

  /** Reading a section succeeds exactly when it holds every key asked of it. */
  lemma ReadSectionSucceeds(c: PlotConfig, section: string, minor: Option<Json>)
    ensures ReadSection(c, section, minor).Success? <==>
      forall i :: 0 <= i < |LargeKeys| && (i != 8 || minor.None?) ==> HasSetting(c, section, LargeKeys[i])
  {
    if forall i :: 0 <= i < |LargeKeys| && (i != 8 || minor.None?) ==> HasSetting(c, section, LargeKeys[i]) {
      assert HasSetting(c, section, LargeKeys[0]);
      assert HasSetting(c, section, LargeKeys[1]);
      assert HasSetting(c, section, LargeKeys[2]);
      assert HasSetting(c, section, LargeKeys[3]);
      assert HasSetting(c, section, LargeKeys[4]);
      assert HasSetting(c, section, LargeKeys[5]);
      assert HasSetting(c, section, LargeKeys[6]);
      assert HasSetting(c, section, LargeKeys[7]);
      assert minor.Some? || HasSetting(c, section, LargeKeys[8]);
      assert HasSetting(c, section, LargeKeys[9]);
      assert HasSetting(c, section, LargeKeys[10]);
      assert HasSetting(c, section, LargeKeys[11]);
      assert HasSetting(c, section, LargeKeys[12]);
      assert HasSetting(c, section, LargeKeys[13]);
    }
  }

  /** A section read successfully gives each field the value of its key, and
      the minor tick label size from `minor` when that is supplied. */
  lemma ReadSectionFields(c: PlotConfig, section: string, minor: Option<Json>)
    requires ReadSection(c, section, minor).Success?
    ensures forall i :: 0 <= i < |LargeKeys| && i != 8 ==>
      Lookup(c, section, LargeKeys[i]) == Success(Fields(ReadSection(c, section, minor).value)[i])
    ensures Fields(ReadSection(c, section, minor).value)[8] ==
      if minor.Some? then minor.value else c[section].fields[LargeKeys[8]]
  {
  }

  /** A full-size chart draws with the `large` values only. */
  lemma FullSizeUsesLarge(c: PlotConfig)
    ensures StyleOf(c, false).Success? <==> forall k :: k in LargeKeys ==> HasSetting(c, "large", k)
    ensures StyleOf(c, false).Success? ==>
      forall i :: 0 <= i < |LargeKeys| ==> Lookup(c, "large", LargeKeys[i]) == Success(Fields(StyleOf(c, false).value)[i])
  {
    ReadSectionSucceeds(c, "large", None);
    if StyleOf(c, false).Success? {
      ReadSectionFields(c, "large", None);
    }
  }

  /** A thumbnail draws with the `thumb` value of every key but the minor tick
      label size, which keeps its `large` value; it needs both sections in full. */
  lemma ThumbnailOverridesLarge(c: PlotConfig)
    ensures StyleOf(c, true).Success? <==>
      (forall k :: k in LargeKeys ==> HasSetting(c, "large", k)) &&
      (forall k :: k in ThumbKeys ==> HasSetting(c, "thumb", k))
    ensures StyleOf(c, true).Success? ==>
      var f := Fields(StyleOf(c, true).value);
      && (forall i :: 0 <= i < |LargeKeys| && i != 8 ==> Lookup(c, "thumb", LargeKeys[i]) == Success(f[i]))
      && Lookup(c, "large", "x_minor_tick_label_size") == Success(f[8])
  {
    ReadSectionSucceeds(c, "large", None);
    var large := ReadSection(c, "large", None);
    if large.Success? {
      ReadSectionFields(c, "large", None);
      ReadSectionSucceeds(c, "thumb", Some(large.value.xMinorTickLabelSize));
      if StyleOf(c, true).Success? {
        ReadSectionFields(c, "thumb", Some(large.value.xMinorTickLabelSize));
      }
    }
  }
}
