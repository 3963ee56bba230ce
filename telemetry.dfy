/**
 * The GPU telemetry collaborators of the usage widget, seen only through the
 * interface the widget uses: a statistics snapshot whose accessors may fail,
 * and a data manager reduced to whether sampling is running.
 */
module Telemetry {

  /** `None` stands for an accessor call that throws. */
  datatype Option<+T> = None | Some(value: T)

  /** A single-precision float as the accessors return it: a finite value, or NaN or an infinity. */
  datatype Float = Finite(value: real) | NaN | PositiveInfinity | NegativeInfinity

  /**
   * One snapshot of GPU statistics. Each accessor is partial: which indices
   * (and, for usage, which engine types) it answers is up to the snapshot, so
   * nothing is assumed about index ranges. The previous/next index helpers are
   * uninterpreted: no wrap-around is assumed of them.
   */
  datatype GpuStats = GpuStats(
    gpuName: int -> Option<string>,
    gpuUsage: (int, string) -> Option<Float>,
    gpuTemperature: int -> Option<Float>,
    gpuImageUrl: int -> Option<string>,
    prevGpuIndex: int -> int,
    nextGpuIndex: int -> int)

  /**
   * The sampling manager that owns the refresh schedule. Only its
   * started/stopped status is modelled; `stats` is the latest completed
   * snapshot, which the background sampling replaces wholesale.
   */
  class DataManager {
    var running: bool
    var stats: GpuStats

    constructor (initial: GpuStats)
      ensures !running && stats == initial
    {
      running := false;
      stats := initial;
    }

    /** The latest snapshot; reading it never triggers a sample. */
    function GetGpuStats(): GpuStats
      reads this
    {
      stats
    }

    method Start()
      modifies this`running
      ensures running
    {
      running := true;
    }

    method Stop()
      modifies this`running
      ensures !running
    {
      running := false;
    }
  }
}
