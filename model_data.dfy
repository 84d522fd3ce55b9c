/** The data checks and the chart choice of src/features/models/ModelData.tsx:
    which visualisations count as scatter data, which titles name a k-means
    clustering, which chart (or which incompatibility message) each
    visualisation is drawn as, and the empty-list state. Charts are values,
    not drawn markup. */
module ModelData {
  import opened Wrappers
  import opened JsText

  /** The `data` of a visualisation: something that is not an array, or an
      array whose rows are objects, each given by its property names. */
  datatype Payload = NotAnArray | Rows(rows: seq<set<string>>)

  /** One `ModelVisualizationData`: `type`, `title`, `data`, whether a
      `regressionLine` is present, and the optional `width` and `height`. */
  datatype Visualization = Visualization(
    kind: string,
    title: string,
    data: Payload,
    hasRegressionLine: bool,
    width: Option<int>,
    height: Option<int>)

  /** What `renderChart` returns: a chart with the size it is given, or a
      message in place of the chart. */
  datatype Chart =
    | BarChart(width: int, height: int)
    | LineChart(width: int, height: int)
    | PieChart(width: int, height: int)
    | ScatterPlot(width: int, height: int)
    | RegressionChart(width: int, height: int)
    | Message(text: string)

  /** One card of the grid: the visualisation's title above its chart. */
  datatype Panel = Panel(heading: string, chart: Chart)

  /** What the component shows: the empty state, or one card per visualisation. */
  datatype Page = NoData(title: string, message: string) | Grid(title: string, panels: seq<Panel>)

  const DefaultTitle: string := "Datos del Modelo"
  const NoDataMessage: string := "No hay datos para mostrar"
  const UnsupportedMessage: string := "Tipo de gráfico no soportado"

  /** `isScatterData(data, chartType)` (ModelData.tsx:20-29): a non-empty
      array whose first row has `x` and `y`, and also `cluster` unless the
      chart type is `"linear"`. */
  predicate IsScatterData(data: Payload, chartType: string)
    ensures IsScatterData(data, chartType) ==>
      data.Rows? && |data.rows| > 0 && "x" in data.rows[0] && "y" in data.rows[0]
    ensures IsScatterData(data, chartType) && chartType != "linear" ==> "cluster" in data.rows[0]
  {
    if data.NotAnArray? || |data.rows| == 0 then false
    else
      var first := data.rows[0];
      var hasXY := "x" in first && "y" in first;
      var hasCluster := "cluster" in first;
      if chartType == "linear" then hasXY else hasXY && hasCluster
  }

  /** `isKMeansCluster(title)` (ModelData.tsx:32-37). */
  predicate IsKMeansCluster(title: string)
    ensures IsKMeansCluster(title) ==> |title| >= 7
  {
    Contains(ToLower(title), "cluster") || Contains(ToLower(title), "k-means")
  }

  /** `given || fallback` on a size: a missing or zero size takes the fallback. */
  function Dimension(given: Option<int>, fallback: int): (r: int)
    ensures given.Some? && given.value != 0 ==> r == given.value
    ensures given.None? || given.value == 0 ==> r == fallback
  {
    if given.Some? && given.value != 0 then given.value else fallback
  }

  /** The message for data of the wrong shape for a chart kind: the six kinds
      have their own "Tipo de datos incompatible para …" texts, and exactly
      the other kinds get the unsupported-chart message. */
  function IncompatibleMessage(kind: string): (r: string)
    ensures r == UnsupportedMessage <==> kind !in {"bar", "line", "pie", "scatter", "linear", "histogram"}
  {
    if kind == "bar" then "Tipo de datos incompatible para gráfico de barras"
    else if kind == "line" then "Tipo de datos incompatible para gráfico de líneas"
    else if kind == "pie" then "Tipo de datos incompatible para gráfico circular"
    else if kind == "scatter" then "Tipo de datos incompatible para scatter plot"
    else if kind == "linear" then "Tipo de datos incompatible para gráfico de regresión lineal"
    else if kind == "histogram" then "Tipo de datos incompatible para histograma"
    else UnsupportedMessage
  }

  /** The `switch (visualization.type)` of `renderChart` (ModelData.tsx:43-146). */
  function RenderChart(v: Visualization): (r: Chart)
    ensures r.Message? ==> r.text == IncompatibleMessage(v.kind)
    ensures r.Message? <==>
      if v.kind == "scatter" then !IsScatterData(v.data, v.kind)
      else if v.kind == "linear" then !IsScatterData(v.data, v.kind) || !v.hasRegressionLine
      else IsScatterData(v.data, v.kind)
  {
    var scatter := IsScatterData(v.data, v.kind);
    if v.kind == "bar" then
      if scatter then Message(IncompatibleMessage(v.kind)) else BarChart(Dimension(v.width, 500), Dimension(v.height, 350))
    else if v.kind == "line" then
      if scatter then Message(IncompatibleMessage(v.kind)) else LineChart(Dimension(v.width, 500), Dimension(v.height, 350))
    else if v.kind == "pie" then
      if scatter then Message(IncompatibleMessage(v.kind)) else PieChart(Dimension(v.width, 400), Dimension(v.height, 400))
    else if v.kind == "scatter" then
      if !scatter then Message(IncompatibleMessage(v.kind)) else ScatterPlot(Dimension(v.width, 600), Dimension(v.height, 400))
    else if v.kind == "linear" then
      if !scatter || !v.hasRegressionLine then Message(IncompatibleMessage(v.kind))
      else RegressionChart(Dimension(v.width, 600), Dimension(v.height, 400))
    else if v.kind == "histogram" then
      if scatter then Message(IncompatibleMessage(v.kind)) else BarChart(Dimension(v.width, 500), Dimension(v.height, 350))
    else
      if scatter then Message(UnsupportedMessage) else BarChart(Dimension(v.width, 500), Dimension(v.height, 350))
  }

  /** The component (ModelData.tsx:39-179), with `visualizations` and `title`
      as the optional props: absent props take `[]` and "Datos del Modelo". */
  function Render(visualizations: Option<seq<Visualization>>, title: Option<string>): (p: Page)
    ensures var vs := if visualizations.Some? then visualizations.value else [];
      && p.title == (if title.Some? then title.value else DefaultTitle)
      && (p.NoData? <==> vs == [])
      && (p.NoData? ==> p.message == NoDataMessage)
      && (p.Grid? ==> |p.panels| == |vs|)
      && (p.Grid? ==> forall k :: 0 <= k < |vs| ==> p.panels[k] == Panel(vs[k].title, RenderChart(vs[k])))
  {
    var vs := if visualizations.Some? then visualizations.value else [];
    var heading := if title.Some? then title.value else DefaultTitle;
    if |vs| == 0 then NoData(heading, NoDataMessage)
    else Grid(heading, seq(|vs|, k requires 0 <= k < |vs| => Panel(vs[k].title, RenderChart(vs[k]))))
  }

  // ---------------------------------------------------------------------------
  // isScatterData

  /** Only the first row is looked at: rows after it never change the answer. */
  lemma ScatterDataFirstRowOnly(first: set<string>, rest1: seq<set<string>>, rest2: seq<set<string>>, chartType: string)
    ensures IsScatterData(Rows([first] + rest1), chartType) == IsScatterData(Rows([first] + rest2), chartType)
    ensures IsScatterData(Rows([first] + rest1), chartType) == IsScatterData(Rows([first]), chartType)
  {
  }

  /** A non-array or an empty array is never scatter data. */
  lemma NoRowsNoScatter(data: Payload, chartType: string)
    requires data.NotAnArray? || data.rows == []
    ensures !IsScatterData(data, chartType)
  {
  }

  /** For `"linear"` the test is exactly: the first row has `x` and `y`. */
  lemma LinearNeedsXY(data: Payload)
    ensures IsScatterData(data, "linear") <==>
      data.Rows? && |data.rows| > 0 && "x" in data.rows[0] && "y" in data.rows[0]
  {
  }

  /** For every other chart type the first row also needs `cluster`, so the
      `"linear"` test is the weaker one. */
  lemma OtherTypesNeedCluster(data: Payload, chartType: string)
    requires chartType != "linear"
    ensures IsScatterData(data, chartType) <==>
      IsScatterData(data, "linear") && "cluster" in data.rows[0]
  {
  }

  // ---------------------------------------------------------------------------
  // isKMeansCluster

  lemma LowerCharIdempotent(c: char)
    ensures LowerChar(LowerChar(c)) == LowerChar(c)
  {
  }

  /** Lower-casing twice is lower-casing once. */
  lemma ToLowerIdempotent(s: string)
    ensures ToLower(ToLower(s)) == ToLower(s)
  {
    forall i | 0 <= i < |s|
      ensures ToLower(ToLower(s))[i] == ToLower(s)[i]
    {
      LowerCharIdempotent(s[i]);
    }
  }

  /** The test ignores case: a title and its lower-cased form agree. */
  lemma KMeansIgnoresCase(title: string)
    ensures IsKMeansCluster(ToLower(title)) == IsKMeansCluster(title)
  {
    ToLowerIdempotent(title);
  }

  /** The test holds exactly when "cluster" or "k-means" starts somewhere in
      the lower-cased title. */
  lemma KMeansIff(title: string)
    ensures IsKMeansCluster(title) <==> OccursIn("cluster", ToLower(title)) || OccursIn("k-means", ToLower(title))
  {
    ContainsIff(ToLower(title), "cluster");
    ContainsIff(ToLower(title), "k-means");
  }

  /** Lower-casing works piece by piece. */
  lemma {:induction false} ToLowerAppend(a: string, b: string)
    ensures ToLower(a + b) == ToLower(a) + ToLower(b)
  {
    if a == [] {
      assert a + b == b;
    } else {
      assert (a + b)[0] == a[0];
      assert (a + b)[1..] == a[1..] + b;
      ToLowerAppend(a[1..], b);
    }
  }

  /** Any title with "Cluster" in it, in any ASCII case, is recognised. */
  lemma KMeansWhenClusterInside(pre: string, post: string)
    ensures IsKMeansCluster(pre + "Cluster" + post)
  {
    ToLowerAppend(pre, "Cluster");
    ToLowerAppend(pre + "Cluster", post);
    assert ToLower("Cluster") == "cluster";
    assert StartsWith("cluster", "cluster");
    assert Contains("cluster", "cluster");
    ContainsExtended(ToLower(pre), "cluster", ToLower(post), "cluster");
  }

  // ---------------------------------------------------------------------------
  // renderChart

  /** A scatter plot is drawn exactly for scatter data with `cluster`;
      anything else gets the message. */
  lemma ScatterRule(v: Visualization)
    requires v.kind == "scatter"
    ensures RenderChart(v).ScatterPlot? <==> IsScatterData(v.data, "linear") && "cluster" in v.data.rows[0]
    ensures !RenderChart(v).ScatterPlot? ==>
      RenderChart(v) == Message("Tipo de datos incompatible para scatter plot")
  {
    OtherTypesNeedCluster(v.data, v.kind);
  }

  /** The regression chart is drawn exactly for data with `x` and `y` and a
      regression line; `cluster` is not needed. */
  lemma LinearRule(v: Visualization)
    requires v.kind == "linear"
    ensures RenderChart(v).RegressionChart? <==>
      v.data.Rows? && |v.data.rows| > 0 && "x" in v.data.rows[0] && "y" in v.data.rows[0] && v.hasRegressionLine
    ensures !RenderChart(v).RegressionChart? ==>
      RenderChart(v) == Message("Tipo de datos incompatible para gráfico de regresión lineal")
  {
  }

  /** Every kind but `"scatter"` and `"linear"` refuses scatter data with
      `cluster` and accepts all other data. */
  lemma OtherKindsRejectScatterData(v: Visualization)
    requires v.kind != "scatter" && v.kind != "linear"
    ensures RenderChart(v).Message? <==> IsScatterData(v.data, "linear") && "cluster" in v.data.rows[0]
  {
    OtherTypesNeedCluster(v.data, v.kind);
  }

  /** `"histogram"` and unknown kinds are drawn as bar charts. */
  lemma HistogramAndUnknownAreBars(v: Visualization)
    requires v.kind !in {"bar", "line", "pie", "scatter", "linear"}
    ensures RenderChart(v).BarChart? || RenderChart(v).Message?
    ensures RenderChart(v).BarChart? ==> RenderChart(v) == BarChart(Dimension(v.width, 500), Dimension(v.height, 350))
    ensures v.kind != "histogram" && RenderChart(v).Message? ==> RenderChart(v).text == UnsupportedMessage
  {
  }

  /** Each kind has its own chart and its own message. */
  lemma ChartKindsDiffer(v: Visualization)
    ensures RenderChart(v).LineChart? ==> v.kind == "line"
    ensures RenderChart(v).PieChart? ==> v.kind == "pie"
    ensures RenderChart(v).ScatterPlot? ==> v.kind == "scatter"
    ensures RenderChart(v).RegressionChart? ==> v.kind == "linear"
    ensures RenderChart(v).BarChart? ==> v.kind !in {"line", "pie", "scatter", "linear"}
  {
  }

  /** A drawn chart never has a zero size, and a non-zero size given by the
      visualisation is used as it is. */
  lemma ChartSizeNeverZero(v: Visualization)
    requires !RenderChart(v).Message?
    ensures RenderChart(v).width != 0 && RenderChart(v).height != 0
    ensures v.width.Some? && v.width.value != 0 ==> RenderChart(v).width == v.width.value
    ensures v.height.Some? && v.height.value != 0 ==> RenderChart(v).height == v.height.value
  {
  }
}
