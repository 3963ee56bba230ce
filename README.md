# GPU usage widget: a Dafny model of its instance state machine

This project models the per-instance logic of `SystemGPUUsageWidget`, the Dev Home
core widget that shows one GPU's 3D-engine utilisation, name, temperature and usage
graph. A widget instance owns its activity state, the page it shows, its rendered
content document, its data state, the index of the selected GPU, a persisted state
string and a data manager that is either sampling or stopped. The host calls its
handlers one at a time:

- activating, deactivating and deleting the widget;
- invoking an action (previous or next GPU);
- asking it to reload its content;
- asking for the data and the template of a page.

The model has four modules:

- `Telemetry` (`telemetry.dfy`): the collaborators, seen only through what the widget
  uses. A GPU statistics snapshot is a value whose accessors (name, usage by engine
  type, temperature, graph URL) are partial functions of the GPU index, so any of
  them may "throw" (`None`) at any index. The previous/next index helpers are
  uninterpreted functions `int -> int`, so no wrap-around is assumed. Usage and
  temperature are single-precision floats: a finite value, NaN or an infinity. The data manager
  is a class with a `running` flag and the latest snapshot.
- `WidgetContent` (`widget_content.dfy`): the page, data-state, activity-state and
  action enums, and the content document. The document is a flat JSON object
  (`map<string, JsonValue>`); `EmptyJson` is the object with no members. It also
  holds `RenderGpuDocument`, the four-key document built and serialised from a snapshot at
  an index. Serialising a NaN or infinite temperature throws, so such a snapshot renders
  nothing.
- `WidgetLifecycle` (`widget_lifecycle.dfy`): the instance's fields as a value
  (`WidgetFields`) and one function per handler. `Run` folds the handlers over a
  sequence of host deliveries, each carrying the snapshot current at that moment.
  The lemmas about runs are proved by induction.
- `SystemGpuUsage` (`gpu_usage_widget.dfy`): the class `SystemGpuUsageWidget` with the
  source's fields and handlers as methods. For `LoadContentData`, `OnActionInvoked`,
  `SetActive`, `SetInactive` and `SetDeleted`, the postcondition says that the instance's
  fields afterwards are exactly what the matching `WidgetLifecycle` function gives for the
  fields before. `HandlePrevGpu` and `HandleNextGpu` state their new fields directly: only
  the index and the refresh count change. The methods keep the invariant `Valid()`:
  sampling runs exactly while the widget is Active, and the content is `EmptyJson` or a
  four-key GPU document.

Two behaviours of the deletion handler, as the code has them:

- `SetDeleted` sets the activity state to Unknown (`SystemGPUUsageWidget.cs:151`). No
  handler ever sets Deleted (`RunNeverDeleted`).
- `SetDeleted` does not touch the content. After a delete, `GetData` on the Content page
  still returns the last rendered document. Once content has been rendered, no handler
  brings it back to `EmptyJson` (`RunKeepsRenderedContent`).

Assumptions about code that is not part of this model:

- The base class `CoreWidget` is not part of this model. A new instance is taken to
  start with activity Unknown and content `EmptyJson`; the constructor leaves page and
  data state unspecified.
- `EmptyJson` is taken to be the serialised empty JSON object. A rendered document
  always has four members, so it never equals the sentinel.
- `UpdateWidget` is recorded only as a count of refresh requests (ghost `refreshes`).
  Calls of `LoadContentData` are counted too (ghost `loads`), so that "renders once,
  exactly when the content is still empty" can be stated.

## Model

| member | source | states |
|---|---|---|
| `WidgetContent.RenderGpuDocument` | CoreWidgetProvider/Widgets/SystemGPUUsageWidget.cs:46-57 | a document exists exactly when all four accessors answer at the index and the temperature is finite (serialisation throws otherwise); it has exactly the keys gpuUsage, gpuName, gpuTemp, gpuGraphUrl, each read at that index (usage for engine "3D"), and it is never the empty sentinel |
| `WidgetContent.DescribesDeterminesDocument` | CoreWidgetProvider/Widgets/SystemGPUUsageWidget.cs:46-57 | the new document is fully determined by the snapshot and the selected index: two documents that both describe the same GPU are equal |
| `WidgetLifecycle.LoadContentData` | CoreWidgetProvider/Widgets/SystemGPUUsageWidget.cs:40-64 | data state is Okay exactly when every accessor answers and the document serialises (finite temperature), and then the content describes the selected GPU; otherwise data state is Failed and the content is unchanged; no other field changes |
| `WidgetLifecycle.LoadIsIdempotent` | CoreWidgetProvider/Widgets/SystemGPUUsageWidget.cs:40-64 | loading twice from the same snapshot leaves the same content and data state as loading once |
| `WidgetLifecycle.SetActive` | CoreWidgetProvider/Widgets/SystemGPUUsageWidget.cs:122-135 | afterwards Active, page Content, sampling running and one more refresh requested; one render happens exactly when the content equalled EmptyJson, and then the data state is Okay exactly when the selected GPU renders, the content describes it on Okay and stays EmptyJson on Failed; otherwise content and data state stay; index and persisted state stay |
| `WidgetLifecycle.SetInactive` | CoreWidgetProvider/Widgets/SystemGPUUsageWidget.cs:137-144 | sampling stopped and Inactive; content, data state, page and index unchanged |
| `WidgetLifecycle.SetDeleted` | CoreWidgetProvider/Widgets/SystemGPUUsageWidget.cs:146-153 | sampling stopped, persisted state empty, activity Unknown; content, data state, page and index unchanged |
| `WidgetLifecycle.OnActionInvoked` | CoreWidgetProvider/Widgets/SystemGPUUsageWidget.cs:89-120 | PrevItem and NextItem change only the index, to the snapshot helper's previous/next answer, and request one refresh; any other action changes nothing and requests no refresh |
| `WidgetLifecycle.StepKeepsConsistent` | CoreWidgetProvider/Widgets/SystemGPUUsageWidget.cs:40-153 | every handler keeps the invariant: sampling runs exactly while Active, and the content is EmptyJson or a four-key document |
| `WidgetLifecycle.RunKeepsConsistent` | CoreWidgetProvider/Widgets/SystemGPUUsageWidget.cs:40-153 | any sequence of handler calls from a consistent instance ends consistent |
| `WidgetLifecycle.RunNeverDeleted` | CoreWidgetProvider/Widgets/SystemGPUUsageWidget.cs:146-153 | no sequence of handler calls ever reaches activity state Deleted |
| `WidgetLifecycle.RunKeepsRenderedContent` | CoreWidgetProvider/Widgets/SystemGPUUsageWidget.cs:40-153 | once content has been rendered it never returns to EmptyJson, on failure or delete alike |
| `WidgetLifecycle.RunRefreshCount` | CoreWidgetProvider/Widgets/SystemGPUUsageWidget.cs:89-135 | the refresh requests of a run are exactly its activations and its PrevItem/NextItem actions |
| `WidgetLifecycle.RunIndexMovesOnlyOnNavigation` | CoreWidgetProvider/Widgets/SystemGPUUsageWidget.cs:89-120 | a run without PrevItem/NextItem actions leaves the selected index unchanged |
| `WidgetLifecycle.RunPersistedState` | CoreWidgetProvider/Widgets/SystemGPUUsageWidget.cs:146-153 | the persisted state is empty after a run containing a delete and unchanged after a run without one |
| `WidgetLifecycle.RunKeepsClearedState` | CoreWidgetProvider/Widgets/SystemGPUUsageWidget.cs:146-153 | no handler writes a non-empty persisted state |
| `Telemetry.DataManager.constructor` | CoreWidgetProvider/Widgets/SystemGPUUsageWidget.cs:27 | a new data manager is not sampling |
| `Telemetry.DataManager.Start` | CoreWidgetProvider/Widgets/SystemGPUUsageWidget.cs:131 | afterwards sampling runs, whether or not it ran before |
| `Telemetry.DataManager.Stop` | CoreWidgetProvider/Widgets/SystemGPUUsageWidget.cs:139 | afterwards sampling is stopped, whether or not it ran before |
| `SystemGpuUsage.SystemGpuUsageWidget.constructor` | CoreWidgetProvider/Widgets/SystemGPUUsageWidget.cs:24-28 | a fresh, stopped data manager of its own; no content yet, activity Unknown, first GPU selected; the invariant holds |
| `SystemGpuUsage.SystemGpuUsageWidget.LoadContentData` | CoreWidgetProvider/Widgets/SystemGPUUsageWidget.cs:40-64 | the new fields are `WidgetLifecycle.LoadContentData` of the old; Okay exactly when every accessor answers at the selected index and the temperature is finite; on Failed the content is untouched; no failure escapes |
| `SystemGpuUsage.SystemGpuUsageWidget.GetTemplatePath` | CoreWidgetProvider/Widgets/SystemGPUUsageWidget.cs:67-75 | the same template path for Content and Loading; NotImplementedException for every other page |
| `SystemGpuUsage.SystemGpuUsageWidget.GetData` | CoreWidgetProvider/Widgets/SystemGPUUsageWidget.cs:77-87 | the content on the Content page and EmptyJson on Loading and every other page; never fails |
| `SystemGpuUsage.SystemGpuUsageWidget.HandlePrevGpu` | CoreWidgetProvider/Widgets/SystemGPUUsageWidget.cs:89-93 | the index becomes the snapshot helper's previous index and one refresh is requested; no other field changes |
| `SystemGpuUsage.SystemGpuUsageWidget.HandleNextGpu` | CoreWidgetProvider/Widgets/SystemGPUUsageWidget.cs:95-99 | the index becomes the snapshot helper's next index and one refresh is requested; no other field changes |
| `SystemGpuUsage.SystemGpuUsageWidget.OnActionInvoked` | CoreWidgetProvider/Widgets/SystemGPUUsageWidget.cs:101-120 | the new fields are `WidgetLifecycle.OnActionInvoked` of the old |
| `SystemGpuUsage.SystemGpuUsageWidget.SetActive` | CoreWidgetProvider/Widgets/SystemGPUUsageWidget.cs:122-135 | the new fields are `WidgetLifecycle.SetActive` of the old; Active, page Content, data manager running |
| `SystemGpuUsage.SystemGpuUsageWidget.SetInactive` | CoreWidgetProvider/Widgets/SystemGPUUsageWidget.cs:137-144 | the new fields are `WidgetLifecycle.SetInactive` of the old |
| `SystemGpuUsage.SystemGpuUsageWidget.SetDeleted` | CoreWidgetProvider/Widgets/SystemGPUUsageWidget.cs:146-153 | the new fields are `WidgetLifecycle.SetDeleted` of the old; GetData on the Content page answers as before the delete |

## Left out

- `SpeedToString` and `FloatToPercentString` (lines 30-38): floating-point arithmetic and
  culture-invariant formatting. The usage value is kept as `PercentOf(fraction)`, which
  stands for the formatted string.
- JSON construction and serialisation (`JsonObject`, `ToJsonString`): the document is a map
  of members. Key order in the serialised string is not modelled. The one serialisation
  failure modelled is a non-finite temperature. The usage value becomes a string before it
  reaches the serialiser, so a non-finite usage never makes a render fail.
- Logging (`Log.Logger()`, `LogCurrentState`): side effects only.
- `Dispose` (lines 155-158) and the data manager's timer, background sampling and callback
  hand-off: they are about concurrency and resource release. Only the started/stopped flag
  and the latest snapshot are kept, and the snapshot is an input of each handler call.
- The unused static `Templates` dictionary (line 14) and the `DataType.GPU` argument of the
  data manager.
- Base-class behaviour: `UpdateWidget` (a counted refresh request), `SetState` (an assignment
  to the persisted state), `GetWidgetActionForVerb` (the handler receives the action, not
  the verb string) and `ShortId`.
- The GPU statistics accessors and `GetPrevGPUIndex` / `GetNextGPUIndex`: their code is not
  part of this model. They stay uninterpreted, so nothing is proved about wrap-around or
  about which indices they accept. The index helpers are taken not to throw.
- The order in which `SetActive` renders and then starts sampling is not recorded. The
  model states that the render happens, not that it precedes the start.
