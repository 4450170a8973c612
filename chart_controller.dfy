/** The chart controller's `extractChartData`: the text's simple extraction
    and the language model's extraction, passed through side by side, and the
    suggested charts assembled from them (the model's charts first, then one
    chart of the key/value entries when there are any). The model's answer is
    an input. */
module ChartController {
  import opened Common
  import opened ChartService

  /** `obj[key]` as JavaScript reads it from a parsed JSON value: an absent
      field is `JNull` (undefined). */
  function Field(j: Json, key: string): Json {
    if j.JObj? && key in j.fields then j.fields[key] else JNull
  }

  /** The charts of the model's answer that the loop visits: its `charts`
      field when that is an array (an empty one is skipped by the length test). */
  function AiCharts(ai: Json): (r: seq<Json>)
    ensures Field(ai, "charts").JArr? ==> r == Field(ai, "charts").items
    ensures !Field(ai, "charts").JArr? ==> r == []
  {
    match Field(ai, "charts")
    case JArr(items) => items
    case _ => []
  }

  /** An entry of `suggested_charts`. A chart of the key/value entries has the
      keys `title`, `type`, `data` and `source`; here they are `caption`,
      `suggestedType`, `chart` and `source`. */
  datatype SuggestedChart =
    | FromAi(title: Json, chartType: Json, data: Json, position: Json)
    | FromText(caption: string, suggestedType: string, chart: ChartData, source: string)

  /** `{ title, type, data, position }` copied from one of the model's charts. */
  function AiSuggestion(chart: Json): SuggestedChart {
    FromAi(Field(chart, "title"), Field(chart, "type"), Field(chart, "data"), Field(chart, "position"))
  }

  /** `keyValue.map(item => item.label)` */
  function Labels(keyValue: seq<Datum>): seq<Json> {
    seq(|keyValue|, i requires 0 <= i < |keyValue| => JStr(keyValue[i].name))
  }

  /** `keyValue.map(item => item.value)` */
  function Values(keyValue: seq<Datum>): seq<Json> {
    seq(|keyValue|, i requires 0 <= i < |keyValue| => JNum(Value(keyValue[i].value)))
  }

  /** The chart of the key/value entries: its type is suggested from the
      values but its data is always a bar chart with one 'Values' dataset. */
  function TextChart(keyValue: seq<Datum>): SuggestedChart {
    var values := Values(keyValue);
    FromText("Extracted Data", SuggestChartType(values),
             CreateBarChart(JArr(Labels(keyValue)), [InputDataset(JStr("Values"), values, JNull, JNull, JNull)]),
             "simple_extraction")
  }

  /** The suggested charts for the key/value entries and the model's charts. */
  function SuggestedCharts(keyValue: seq<Datum>, aiCharts: seq<Json>): (r: seq<SuggestedChart>)
    ensures |r| == |aiCharts| + (if keyValue != [] then 1 else 0)
  {
    seq(|aiCharts|, i requires 0 <= i < |aiCharts| => AiSuggestion(aiCharts[i])) +
    (if keyValue != [] then [TextChart(keyValue)] else [])
  }

  /** The two pushes into `suggested_charts`: a `for ... of` over the model's
      charts, then the key/value chart when there are entries. */
  method BuildSuggestions(keyValue: seq<Datum>, aiCharts: seq<Json>) returns (charts: seq<SuggestedChart>)
    ensures charts == SuggestedCharts(keyValue, aiCharts)
  {
    charts := [];
    for i := 0 to |aiCharts|
      invariant |charts| == i
      invariant forall k :: 0 <= k < i ==> charts[k] == AiSuggestion(aiCharts[k])
    {
      charts := charts + [AiSuggestion(aiCharts[i])];
    }
    if |keyValue| > 0 {
      charts := charts + [TextChart(keyValue)];
    }
  }

  /** The model's charts come first, in order, each copying its four fields;
      exactly one more chart follows when there are key/value entries. Its type
      is suggested from their number, and its data holds their labels and
      values, in order, in a single bar dataset named 'Values'. */
  lemma SuggestedChartsShape(keyValue: seq<Datum>, aiCharts: seq<Json>)
    ensures var r := SuggestedCharts(keyValue, aiCharts);
      |r| == |aiCharts| + (if keyValue != [] then 1 else 0) &&
      (forall i :: 0 <= i < |aiCharts| ==>
        r[i] == FromAi(Field(aiCharts[i], "title"), Field(aiCharts[i], "type"),
                       Field(aiCharts[i], "data"), Field(aiCharts[i], "position")))
    ensures keyValue != [] ==>
      var c := SuggestedCharts(keyValue, aiCharts)[|aiCharts|];
      c.FromText? && c.caption == "Extracted Data" && c.source == "simple_extraction" &&
      c.suggestedType == SuggestChartType(keyValue) &&
      c.chart.labels.JArr? && |c.chart.labels.items| == |keyValue| &&
      (forall i :: 0 <= i < |keyValue| ==> c.chart.labels.items[i] == JStr(keyValue[i].name)) &&
      |c.chart.datasets| == 1 && c.chart.datasets[0].BarDataset? &&
      c.chart.datasets[0].seriesLabel == JStr("Values") && |c.chart.datasets[0].data| == |keyValue| &&
      (forall i :: 0 <= i < |keyValue| ==> c.chart.datasets[0].data[i] == JNum(Value(keyValue[i].value)))
  {
    if keyValue != [] {
      var values := Values(keyValue);
      assert SuggestChartType(values) == SuggestChartType(keyValue);
      var c := TextChart(keyValue);
      assert SuggestedCharts(keyValue, aiCharts)[|aiCharts|] == c;
    }
  }

  datatype CombinedData = CombinedData(simpleExtraction: ExtractedData, aiExtraction: Json,
                                       suggestedCharts: seq<SuggestedChart>)

  datatype ChartResponse =
    | ValidationFailed(details: seq<Json>)    // 400 'Validation failed'
    | ExtractionFailed(message: string)       // 500 'Failed to extract chart data'
    | ChartDataExtracted(extractedData: CombinedData)

  /** The error reading `charts` of a null answer throws. */
  const NullAnswer := "Cannot read properties of null (reading 'charts')"

  /** The response of `extractChartData` for the validator's errors, the text
      and the model's answer for it (its error message when the call throws). */
  function ChartResponseFor(validationErrors: seq<Json>, text: string, ai: Result<Json, string>): (r: ChartResponse)
    ensures r.ValidationFailed? <==> validationErrors != []
    ensures r.ChartDataExtracted? ==>
      ai.Success? && r.extractedData.aiExtraction == ai.value &&
      r.extractedData.simpleExtraction == ExtractedData(KeyValueData(text), [], BulletData(text)) &&
      r.extractedData.suggestedCharts == SuggestedCharts(KeyValueData(text), AiCharts(ai.value))
    ensures validationErrors == [] ==> (r.ExtractionFailed? <==> ai.Failure? || ai.value.JNull?)
  {
    if validationErrors != [] then ValidationFailed(validationErrors)
    else
      match ai
      case Failure(message) => ExtractionFailed(message)
      case Success(answer) =>
        if answer.JNull? then ExtractionFailed(NullAnswer)
        else
          var simple := ExtractedData(KeyValueData(text), [], BulletData(text));
          ChartDataExtracted(CombinedData(simple, answer, SuggestedCharts(simple.keyValue, AiCharts(answer))))
  }

  /** `extractChartData`: validation first, then the simple extraction, the
      model's answer and the suggestions. */
  method ExtractChartData(validationErrors: seq<Json>, text: string, ai: Result<Json, string>) returns (r: ChartResponse)
    ensures r == ChartResponseFor(validationErrors, text, ai)
  {
    if validationErrors != [] {
      return ValidationFailed(validationErrors);
    }
    var extracted := ExtractDataFromText(text);
    match ai {
      case Failure(message) =>
        r := ExtractionFailed(message);
      case Success(answer) =>
        if answer.JNull? {
          r := ExtractionFailed(NullAnswer);
        } else {
          var charts := BuildSuggestions(extracted.keyValue, AiCharts(answer));
          r := ChartDataExtracted(CombinedData(extracted, answer, charts));
        }
    }
  }
}
