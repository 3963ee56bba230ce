/**
 * The GPU usage widget instance: the fields it owns and the handlers the host
 * calls on it, each proved to take the instance's fields exactly as the
 * matching function of `WidgetLifecycle` does.
 */
module SystemGpuUsage {
  import opened Telemetry
  import opened WidgetContent
  import WidgetLifecycle

  class SystemGpuUsageWidget {
    var ActivityState: WidgetActivityState
    var Page: WidgetPageState
    var ContentData: Json
    var DataState: WidgetDataState
    var gpuActiveIndex: int
    /** The persisted state string, written through `SetState`. */
    var State: string
    const dataManager: DataManager
    /** Calls of `LoadContentData` so far. */
    ghost var loads: nat
    /** Refresh requests (`UpdateWidget` calls) so far. */
    ghost var refreshes: nat

    /** The instance's fields as one value. */
    ghost function Fields(): WidgetLifecycle.WidgetFields
      reads this, dataManager
    {
      WidgetLifecycle.WidgetFields(ActivityState, Page, ContentData, DataState, gpuActiveIndex,
                                   State, dataManager.running, loads, refreshes)
    }

    ghost predicate Valid()
      reads this, dataManager
    {
      WidgetLifecycle.Consistent(Fields())
    }

    /**
     * A new widget: its own stopped data manager, no content yet, activity
     * Unknown, the first GPU selected. The page and data state are whatever
     * the base class starts with.
     */
    constructor (initialStats: GpuStats)
      ensures Valid() && fresh(dataManager)
      ensures !dataManager.running && dataManager.stats == initialStats
      ensures ActivityState == WidgetActivityState.Unknown && ContentData == EmptyJson
      ensures gpuActiveIndex == 0 && loads == 0 && refreshes == 0
    {
      dataManager := new DataManager(initialStats);
      ActivityState := WidgetActivityState.Unknown;
      ContentData := EmptyJson;
      gpuActiveIndex := 0;
      loads, refreshes := 0, 0;
    }

    /** A refresh request to the host; only its occurrence is recorded. */
    ghost method UpdateWidget()
      modifies this`refreshes
      ensures refreshes == old(refreshes) + 1
    {
      refreshes := refreshes + 1;
    }

    /**
     * Renders the selected GPU of the latest snapshot; an accessor or a
     * serialisation that throws leaves the content alone and marks the data Failed.
     */
    method LoadContentData()
      modifies this`DataState, this`ContentData, this`loads
      ensures old(Valid()) ==> Valid()
      ensures Fields() == WidgetLifecycle.LoadContentData(old(Fields()), dataManager.stats)
      ensures DataState == WidgetDataState.Okay <==> Renderable(dataManager.stats, gpuActiveIndex)
      ensures DataState == WidgetDataState.Failed ==> ContentData == old(ContentData)
    {
      var stats := dataManager.GetGpuStats();
      match RenderGpuDocument(stats, gpuActiveIndex) {
        case Some(gpuData) =>
          DataState := WidgetDataState.Okay;
          ContentData := gpuData;
        case None =>
          DataState := WidgetDataState.Failed;
      }
      loads := loads + 1;
    }

    /** The template for a page; only Content and Loading have one. */
    function GetTemplatePath(page: WidgetPageState): (r: TemplateResult)
      ensures r.Path? <==> page.Content? || page.Loading?
      ensures r.Path? ==> r.path == TemplatePath
    {
      match page
      case Content => Path(TemplatePath)
      case Loading => Path(TemplatePath)
      case _ => NotImplementedException
    }

    /** The data for a page: the content on the Content page, the empty sentinel on any other. */
    function GetData(page: WidgetPageState): (r: Json)
      reads this
      ensures page.Content? ==> r == ContentData
      ensures !page.Content? ==> r == EmptyJson
    {
      match page
      case Content => ContentData
      case Loading => EmptyJson
      case _ => EmptyJson
    }

    method HandlePrevGpu()
      requires Valid()
      modifies this`gpuActiveIndex, this`refreshes
      ensures Valid()
      ensures gpuActiveIndex == dataManager.stats.prevGpuIndex(old(gpuActiveIndex))
      ensures refreshes == old(refreshes) + 1
      ensures Fields() == old(Fields()).(gpuActiveIndex := gpuActiveIndex, refreshes := refreshes)
    {
      gpuActiveIndex := dataManager.GetGpuStats().prevGpuIndex(gpuActiveIndex);
      UpdateWidget();
    }

    method HandleNextGpu()
      requires Valid()
      modifies this`gpuActiveIndex, this`refreshes
      ensures Valid()
      ensures gpuActiveIndex == dataManager.stats.nextGpuIndex(old(gpuActiveIndex))
      ensures refreshes == old(refreshes) + 1
      ensures Fields() == old(Fields()).(gpuActiveIndex := gpuActiveIndex, refreshes := refreshes)
    {
      gpuActiveIndex := dataManager.GetGpuStats().nextGpuIndex(gpuActiveIndex);
      UpdateWidget();
    }

    /** Routes the action a host verb maps to; only PrevItem and NextItem change anything. */
    method OnActionInvoked(action: WidgetAction)
      requires Valid()
      modifies this`gpuActiveIndex, this`refreshes
      ensures Valid()
      ensures Fields() == WidgetLifecycle.OnActionInvoked(old(Fields()), action, dataManager.stats)
    {
      match action
      case PrevItem =>
        HandlePrevGpu();
      case NextItem =>
        HandleNextGpu();
      case Unknown =>
      case OtherAction(_) =>
    }

    method SetActive()
      requires Valid()
      modifies this, dataManager`running
      ensures Valid()
      ensures Fields() == WidgetLifecycle.SetActive(old(Fields()), dataManager.stats)
      ensures ActivityState == WidgetActivityState.Active && Page == WidgetPageState.Content && dataManager.running
    {
      ghost var before := Fields();
      ActivityState := WidgetActivityState.Active;
      Page := WidgetPageState.Content;
      if ContentData == EmptyJson {
        LoadContentData();
      }
      dataManager.Start();
      UpdateWidget();
      WidgetLifecycle.StepKeepsConsistent(before, WidgetLifecycle.Delivery(WidgetLifecycle.Activate, dataManager.stats));
    }

    method SetInactive()
      requires Valid()
      modifies this`ActivityState, dataManager`running
      ensures Valid()
      ensures Fields() == WidgetLifecycle.SetInactive(old(Fields()))
    {
      dataManager.Stop();
      ActivityState := WidgetActivityState.Inactive;
    }

    method SetDeleted()
      requires Valid()
      modifies this`ActivityState, this`State, dataManager`running
      ensures Valid()
      ensures Fields() == WidgetLifecycle.SetDeleted(old(Fields()))
      ensures GetData(WidgetPageState.Content) == old(GetData(WidgetPageState.Content))
    {
      dataManager.Stop();
      State := "";
      ActivityState := WidgetActivityState.Unknown;
    }
  }
}
