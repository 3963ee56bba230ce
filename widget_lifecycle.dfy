/**
 * The per-instance state machine of the GPU usage widget as values: the
 * instance's fields, one function per host event handler, and runs of
 * handlers over a sequence of host deliveries. The class in
 * `SystemGpuUsage` is proved to follow these functions step by step.
 */
module WidgetLifecycle {
  import opened Telemetry
  import opened WidgetContent

  /**
   * The fields one widget instance owns. `state` is the persisted state string
   * set through `SetState`; `sampling` is whether its data manager runs;
   * `loads` counts calls of `LoadContentData` and `refreshes` counts refresh
   * requests (`UpdateWidget` calls).
   */
  datatype WidgetFields = WidgetFields(
    activity: WidgetActivityState,
    page: WidgetPageState,
    contentData: Json,
    dataState: WidgetDataState,
    gpuActiveIndex: int,
    state: string,
    sampling: bool,
    loads: nat,
    refreshes: nat)

  /**
   * The invariant every reachable instance keeps: the data manager runs exactly
   * while the widget is Active, and the content is the empty sentinel or a
   * four-key GPU document.
   */
  predicate Consistent(w: WidgetFields)
  {
    (w.sampling <==> w.activity == WidgetActivityState.Active) &&
    (w.contentData == EmptyJson || IsGpuDocument(w.contentData))
  }

  /**
   * LoadContentData: on success the document is replaced wholesale and the
   * data state is Okay; when any accessor or the serialisation throws, the
   * data state is Failed and the content is left as it was. Nothing else changes.
   */
  function LoadContentData(w: WidgetFields, stats: GpuStats): (r: WidgetFields)
    ensures r.dataState == WidgetDataState.Okay <==> Renderable(stats, w.gpuActiveIndex)
    ensures r.dataState != WidgetDataState.Okay ==> r.dataState == WidgetDataState.Failed && r.contentData == w.contentData
    ensures r.dataState == WidgetDataState.Okay ==> Describes(r.contentData, stats, w.gpuActiveIndex)
    ensures r.activity == w.activity && r.page == w.page && r.gpuActiveIndex == w.gpuActiveIndex
    ensures r.state == w.state && r.sampling == w.sampling && r.refreshes == w.refreshes
    ensures r.loads == w.loads + 1
  {
    match RenderGpuDocument(stats, w.gpuActiveIndex)
    case Some(doc) => w.(dataState := WidgetDataState.Okay, contentData := doc, loads := w.loads + 1)
    case None => w.(dataState := WidgetDataState.Failed, loads := w.loads + 1)
  }

  /**
   * SetActive: Active on the Content page with sampling running and one more
   * refresh requested; it renders once first exactly when the content was
   * still the empty sentinel.
   */
  function SetActive(w: WidgetFields, stats: GpuStats): (r: WidgetFields)
    ensures r.activity == WidgetActivityState.Active && r.page == WidgetPageState.Content && r.sampling
    ensures r.refreshes == w.refreshes + 1
    ensures r.loads == w.loads + (if w.contentData == EmptyJson then 1 else 0)
    ensures w.contentData != EmptyJson ==> r.contentData == w.contentData && r.dataState == w.dataState
    ensures w.contentData == EmptyJson ==>
      (r.dataState == WidgetDataState.Okay <==> Renderable(stats, w.gpuActiveIndex)) &&
      (r.dataState == WidgetDataState.Okay ==> Describes(r.contentData, stats, w.gpuActiveIndex)) &&
      (r.dataState != WidgetDataState.Okay ==> r.dataState == WidgetDataState.Failed && r.contentData == EmptyJson)
    ensures r.gpuActiveIndex == w.gpuActiveIndex && r.state == w.state
  {
    var shown := w.(activity := WidgetActivityState.Active, page := WidgetPageState.Content);
    var rendered := if shown.contentData == EmptyJson then LoadContentData(shown, stats) else shown;
    rendered.(sampling := true, refreshes := rendered.refreshes + 1)
  }

  /** SetInactive: sampling stops and the widget is Inactive; content, data state, page and index stay. */
  function SetInactive(w: WidgetFields): (r: WidgetFields)
    ensures !r.sampling && r.activity == WidgetActivityState.Inactive
    ensures r.contentData == w.contentData && r.dataState == w.dataState
    ensures r.page == w.page && r.gpuActiveIndex == w.gpuActiveIndex
    ensures r.state == w.state && r.loads == w.loads && r.refreshes == w.refreshes
  {
    w.(sampling := false, activity := WidgetActivityState.Inactive)
  }

  /**
   * SetDeleted: sampling stops, the persisted state is cleared and the activity
   * state becomes Unknown (not Deleted); the content is not reset.
   */
  function SetDeleted(w: WidgetFields): (r: WidgetFields)
    ensures !r.sampling && r.state == "" && r.activity == WidgetActivityState.Unknown
    ensures r.contentData == w.contentData && r.dataState == w.dataState
    ensures r.page == w.page && r.gpuActiveIndex == w.gpuActiveIndex
    ensures r.loads == w.loads && r.refreshes == w.refreshes
  {
    w.(sampling := false, state := "", activity := WidgetActivityState.Unknown)
  }

  /** Whether handling `action` moves the index and requests a refresh. */
  predicate Navigates(action: WidgetAction)
  {
    action.PrevItem? || action.NextItem?
  }

  /**
   * OnActionInvoked: PrevItem and NextItem set the index to the snapshot
   * helper's answer and request a refresh; any other action changes nothing.
   */
  function OnActionInvoked(w: WidgetFields, action: WidgetAction, stats: GpuStats): (r: WidgetFields)
    ensures action.PrevItem? ==> r == w.(gpuActiveIndex := stats.prevGpuIndex(w.gpuActiveIndex), refreshes := w.refreshes + 1)
    ensures action.NextItem? ==> r == w.(gpuActiveIndex := stats.nextGpuIndex(w.gpuActiveIndex), refreshes := w.refreshes + 1)
    ensures !Navigates(action) ==> r == w
  {
    match action
    case PrevItem => w.(gpuActiveIndex := stats.prevGpuIndex(w.gpuActiveIndex), refreshes := w.refreshes + 1)
    case NextItem => w.(gpuActiveIndex := stats.nextGpuIndex(w.gpuActiveIndex), refreshes := w.refreshes + 1)
    case _ => w
  }

  /** A call the host (or the base class on its behalf) makes on the instance. */
  datatype HostEvent = Activate | Deactivate | Delete | Invoke(action: WidgetAction) | Reload

  /** An event together with the data manager's latest snapshot at that moment. */
  datatype Delivery = Delivery(event: HostEvent, stats: GpuStats)

  function Step(w: WidgetFields, d: Delivery): WidgetFields
  {
    match d.event
    case Activate => SetActive(w, d.stats)
    case Deactivate => SetInactive(w)
    case Delete => SetDeleted(w)
    case Invoke(action) => OnActionInvoked(w, action, d.stats)
    case Reload => LoadContentData(w, d.stats)
  }

  /** The host delivers events one at a time, so a run is a left fold of `Step`. */
  function Run(w: WidgetFields, trace: seq<Delivery>): WidgetFields
    decreases |trace|
  {
    if trace == [] then w else Run(Step(w, trace[0]), trace[1..])
  }

  /** Every handler keeps the invariant. */
  lemma StepKeepsConsistent(w: WidgetFields, d: Delivery)
    requires Consistent(w)
    ensures Consistent(Step(w, d))
  {
  }

  /** Every run from a consistent instance ends consistent. */
  lemma {:induction false} RunKeepsConsistent(w: WidgetFields, trace: seq<Delivery>)
    requires Consistent(w)
    ensures Consistent(Run(w, trace))
    decreases |trace|
  {
    if trace != [] {
      StepKeepsConsistent(w, trace[0]);
      RunKeepsConsistent(Step(w, trace[0]), trace[1..]);
    }
  }

  /** No handler ever sets the activity state to Deleted. */
  lemma {:induction false} RunNeverDeleted(w: WidgetFields, trace: seq<Delivery>)
    requires w.activity != WidgetActivityState.Deleted
    ensures Run(w, trace).activity != WidgetActivityState.Deleted
    decreases |trace|
  {
    if trace != [] {
      RunNeverDeleted(Step(w, trace[0]), trace[1..]);
    }
  }

  /** Once rendered, the content never goes back to the empty sentinel, not even on delete. */
  lemma {:induction false} RunKeepsRenderedContent(w: WidgetFields, trace: seq<Delivery>)
    requires w.contentData != EmptyJson
    ensures Run(w, trace).contentData != EmptyJson
    decreases |trace|
  {
    if trace != [] {
      RunKeepsRenderedContent(Step(w, trace[0]), trace[1..]);
    }
  }

  /** Whether handling `e` requests a refresh. */
  predicate RequestsRefresh(e: HostEvent)
  {
    e.Activate? || (e.Invoke? && Navigates(e.action))
  }

  /** The number of deliveries in `trace` whose handling requests a refresh. */
  function RefreshingEvents(trace: seq<Delivery>): nat
    decreases |trace|
  {
    if trace == [] then 0
    else (if RequestsRefresh(trace[0].event) then 1 else 0) + RefreshingEvents(trace[1..])
  }

  /** Exactly the activations and the navigation actions of a run request a refresh. */
  lemma {:induction false} RunRefreshCount(w: WidgetFields, trace: seq<Delivery>)
    ensures Run(w, trace).refreshes == w.refreshes + RefreshingEvents(trace)
    decreases |trace|
  {
    if trace != [] {
      RunRefreshCount(Step(w, trace[0]), trace[1..]);
    }
  }

  /** A run without navigation actions leaves the selected GPU index alone. */
  lemma {:induction false} RunIndexMovesOnlyOnNavigation(w: WidgetFields, trace: seq<Delivery>)
    requires forall i :: 0 <= i < |trace| ==> !(trace[i].event.Invoke? && Navigates(trace[i].event.action))
    ensures Run(w, trace).gpuActiveIndex == w.gpuActiveIndex
    decreases |trace|
  {
    if trace != [] {
      assert !(trace[0].event.Invoke? && Navigates(trace[0].event.action));
      RunIndexMovesOnlyOnNavigation(Step(w, trace[0]), trace[1..]);
    }
  }

  /** The persisted state is cleared exactly when the run contains a delete, and is kept otherwise. */
  lemma {:induction false} RunPersistedState(w: WidgetFields, trace: seq<Delivery>)
    ensures (exists i :: 0 <= i < |trace| && trace[i].event.Delete?) ==> Run(w, trace).state == ""
    ensures (forall i :: 0 <= i < |trace| ==> !trace[i].event.Delete?) ==> Run(w, trace).state == w.state
    decreases |trace|
  {
    if trace != [] {
      var rest := trace[1..];
      RunPersistedState(Step(w, trace[0]), rest);
      if trace[0].event.Delete? {
        RunKeepsClearedState(Step(w, trace[0]), rest);
      }
      forall j | 0 <= j < |rest| ensures rest[j] == trace[j + 1] { }
    }
  }

  /** Once cleared, the persisted state stays empty: no handler sets it to anything else. */
  lemma {:induction false} RunKeepsClearedState(w: WidgetFields, trace: seq<Delivery>)
    requires w.state == ""
    ensures Run(w, trace).state == ""
    decreases |trace|
  {
    if trace != [] {
      RunKeepsClearedState(Step(w, trace[0]), trace[1..]);
    }
  }

  /** Loading twice from the same snapshot leaves the same content and data state as loading once. */
  lemma LoadIsIdempotent(w: WidgetFields, stats: GpuStats)
    ensures LoadContentData(LoadContentData(w, stats), stats).contentData == LoadContentData(w, stats).contentData
    ensures LoadContentData(LoadContentData(w, stats), stats).dataState == LoadContentData(w, stats).dataState
  {
  }
}
