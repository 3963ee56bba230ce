/**
 * The widget's vocabulary (page, data and activity states, actions) and its
 * content document: what `LoadContentData` builds from a snapshot and what
 * `GetData` and `GetTemplatePath` answer for a page.
 */
module WidgetContent {
  import opened Telemetry

  /** Pages the host may ask for; `OtherPage` is any other value of the enum. */
  datatype WidgetPageState = Content | Loading | OtherPage(code: int)

  datatype WidgetDataState = Unknown | Okay | Failed

  datatype WidgetActivityState = Unknown | Active | Inactive | Deleted

  /** Actions a host verb maps to; `OtherAction` is any action this widget has no case for. */
  datatype WidgetAction = Unknown | PrevItem | NextItem | OtherAction(code: int)

  /**
   * A value in the content document. `PercentOf(u)` stands for the usage
   * string formatted from the fraction `u`; its digits are not modelled.
   * A number member is always finite: serialising NaN or an infinity throws.
   */
  datatype JsonValue = Str(text: string) | Num(number: real) | PercentOf(fraction: Float)

  /** A flat JSON object, as the serialised `ContentData` string denotes it. */
  datatype Json = Object(members: map<string, JsonValue>)

  /** The empty-document sentinel: the object with no members. */
  const EmptyJson := Object(map[])

  const GpuUsageKey := "gpuUsage"
  const GpuNameKey := "gpuName"
  const GpuTempKey := "gpuTemp"
  const GpuGraphUrlKey := "gpuGraphUrl"

  const ContentKeys: set<string> := {GpuUsageKey, GpuNameKey, GpuTempKey, GpuGraphUrlKey}

  /** The engine type whose utilisation the widget shows. */
  const GpuActiveEngType := "3D"

  const TemplatePath := "Widgets\\Templates\\SystemGPUUsageTemplate.json"

  /** Every accessor the render reads answers at `index`. */
  predicate Readable(stats: GpuStats, index: int)
  {
    stats.gpuName(index).Some? &&
    stats.gpuUsage(index, GpuActiveEngType).Some? &&
    stats.gpuTemperature(index).Some? &&
    stats.gpuImageUrl(index).Some?
  }

  /** `doc` has exactly the four content keys. */
  predicate IsGpuDocument(doc: Json)
  {
    doc.members.Keys == ContentKeys
  }

  /**
   * Every accessor answers at `index` and the temperature is finite, so the
   * document can also be serialised.
   */
  predicate Renderable(stats: GpuStats, index: int)
  {
    Readable(stats, index) && stats.gpuTemperature(index).value.Finite?
  }

  /** `doc` shows the GPU at `index` of `stats`: exactly the four keys, each read there. */
  predicate Describes(doc: Json, stats: GpuStats, index: int)
    requires Renderable(stats, index)
  {
    IsGpuDocument(doc) &&
    doc.members[GpuUsageKey] == PercentOf(stats.gpuUsage(index, GpuActiveEngType).value) &&
    doc.members[GpuNameKey] == Str(stats.gpuName(index).value) &&
    doc.members[GpuTempKey] == Num(stats.gpuTemperature(index).value.value) &&
    doc.members[GpuGraphUrlKey] == Str(stats.gpuImageUrl(index).value)
  }

  /**
   * The document `LoadContentData` builds and serialises for the GPU at
   * `index`, or `None` when one of the accessors throws or the serialiser
   * rejects a non-finite temperature.
   */
  function RenderGpuDocument(stats: GpuStats, index: int): (r: Option<Json>)
    ensures r.Some? <==> Renderable(stats, index)
    ensures r.Some? ==> Describes(r.value, stats, index) && r.value != EmptyJson
  {
    var name := stats.gpuName(index);
    var usage := stats.gpuUsage(index, GpuActiveEngType);
    var temp := stats.gpuTemperature(index);
    var url := stats.gpuImageUrl(index);
    if name.None? || usage.None? || temp.None? || url.None? then None
    else if !temp.value.Finite? then None
    else
      var doc := Object(map[GpuUsageKey := PercentOf(usage.value),
                            GpuNameKey := Str(name.value),
                            GpuTempKey := Num(temp.value.value),
                            GpuGraphUrlKey := Str(url.value)]);
      assert GpuUsageKey in doc.members;
      Some(doc)
  }

  /** Two documents that both describe the same GPU of the same snapshot are equal. */
  lemma DescribesDeterminesDocument(a: Json, b: Json, stats: GpuStats, index: int)
    requires Renderable(stats, index)
    requires Describes(a, stats, index) && Describes(b, stats, index)
    ensures a == b
  {
  }

  /** What the template query answers: the template path, or the exception it throws. */
  datatype TemplateResult = Path(path: string) | NotImplementedException
}
