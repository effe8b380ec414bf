/**
 * The viewer component: it loads three JSON resources for the current
 * profile, chooses what to show (loading, error, nothing or the chart), and
 * steps or animates the index of the displayed water-level snapshot.  Its
 * stepping differs from the button panel's: the step is always 12, the
 * upper guard compares with the series length rather than the last index,
 * and the animation tick adds 1 with no guard at all.
 */
module App {
  import opened Wrappers

  /** The profiles the viewer knows, by resource prefix. */
  const FilePrefixes: seq<string> := ["xs1", "xs2"]

  /** Records skipped by "Previous" and "Next". */
  const AppStep: int := 12

  /**
   * An interval handle returned by `setInterval`.  Browsers hand out
   * positive integers, so the truthiness test `if (intervalId)` is exactly
   * "a handle is held".
   */
  type Handle = h: int | h > 0 witness 1

  datatype Well = Well(id: string, x: real, minZ: real, maxZ: real)
  datatype Elevation = Elevation(distanceAlongProfile: real, elevation: real)
  datatype WaterLevelEntry = WaterLevelEntry(id: string, x: real, z: real)
  datatype WaterLevel = WaterLevel(dateLabel: string, values: seq<WaterLevelEntry>)

  /**
   * What the loading hook reports for one resource.  `data` is present as
   * soon as a response decoded, even an empty array (which is truthy).
   */
  datatype LoadState<T> = LoadState(loading: bool, error: bool, data: Option<T>)

  /** The three resources of a profile. */
  datatype Resources = Resources(wells: string, elevations: string, waterlevels: string)

  function ResourceNames(prefix: string): Resources
  {
    Resources(prefix + "_wells.json", prefix + "_elevations.json", prefix + "_waterlevels.json")
  }

  /** Helper: when two strings ending in `a` and `b` are equal and `a` is the shorter suffix, it ends `b`. */
  lemma SameEnding(p: string, a: string, q: string, b: string)
    requires p + a == q + b && |a| <= |b|
    ensures a == b[|b| - |a|..]
  {
    var s := p + a;
    assert s[|s| - |a|..] == a;
    assert s[|s| - |a|..] == b[|b| - |a|..];
  }

  /**
   * Resource names never collide: two names are equal only when they are
   * the same kind of resource of the same profile.
   */
  lemma ResourceNamesCollisionFree(p: string, q: string)
    ensures ResourceNames(p).wells == ResourceNames(q).wells ==> p == q
    ensures ResourceNames(p).elevations == ResourceNames(q).elevations ==> p == q
    ensures ResourceNames(p).waterlevels == ResourceNames(q).waterlevels ==> p == q
    ensures ResourceNames(p).wells != ResourceNames(q).elevations
    ensures ResourceNames(p).wells != ResourceNames(q).waterlevels
    ensures ResourceNames(p).elevations != ResourceNames(q).waterlevels
  {
    var r, t := ResourceNames(p), ResourceNames(q);
    if r.wells == t.wells { assert p == r.wells[..|p|] == t.wells[..|q|] == q; }
    if r.elevations == t.elevations { assert p == r.elevations[..|p|] == t.elevations[..|q|] == q; }
    if r.waterlevels == t.waterlevels { assert p == r.waterlevels[..|p|] == t.waterlevels[..|q|] == q; }
    if r.wells == t.elevations {
      SameEnding(p, "_wells.json", q, "_elevations.json");
      assert false;
    }
    if r.wells == t.waterlevels {
      SameEnding(p, "_wells.json", q, "_waterlevels.json");
      assert false;
    }
    if r.elevations == t.waterlevels {
      SameEnding(p, "_elevations.json", q, "_waterlevels.json");
      assert false;
    }
  }

  /** What the component renders. */
  datatype View =
    | LoadingView
    | ErrorView
    | NoView
    | ChartView(profile: string, wellCount: nat, stationCount: nat, measurementCount: nat, dateLabel: Option<string>)

  /** `waterlevelsData[index]`, which is `undefined` outside the series. */
  function SnapshotAt(series: seq<WaterLevel>, index: int): (r: Option<WaterLevel>)
    ensures r.Some? <==> 0 <= index < |series|
    ensures r.Some? ==> r.value == series[index]
  {
    if 0 <= index < |series| then Some(series[index]) else None
  }

  /**
   * The render's choice, in strict priority: any resource still loading,
   * then any failed, then any absent, and only then the chart with the
   * counts and the label of the current snapshot.
   */
  function SelectView(prefix: string, wells: LoadState<seq<Well>>, elevations: LoadState<seq<Elevation>>,
                      waterlevels: LoadState<seq<WaterLevel>>, index: int): (v: View)
    ensures v == LoadingView <==> wells.loading || elevations.loading || waterlevels.loading
    ensures v == ErrorView <==>
      !(wells.loading || elevations.loading || waterlevels.loading) && (wells.error || elevations.error || waterlevels.error)
    ensures v == NoView <==>
      && !(wells.loading || elevations.loading || waterlevels.loading)
      && !(wells.error || elevations.error || waterlevels.error)
      && !(wells.data.Some? && elevations.data.Some? && waterlevels.data.Some?)
    ensures v.ChartView? ==>
      && wells.data.Some? && elevations.data.Some? && waterlevels.data.Some?
      && v.profile == prefix
      && v.wellCount == |wells.data.value|
      && v.stationCount == |elevations.data.value|
      && v.measurementCount == |waterlevels.data.value|
      && v.dateLabel == (if 0 <= index < |waterlevels.data.value| then Some(waterlevels.data.value[index].dateLabel) else None)
  {
    if wells.loading || elevations.loading || waterlevels.loading then LoadingView
    else if wells.error || elevations.error || waterlevels.error then ErrorView
    else if !(wells.data.Some? && elevations.data.Some? && waterlevels.data.Some?) then NoView
    else
      var series := waterlevels.data.value;
      var snapshot := SnapshotAt(series, index);
      ChartView(prefix, |wells.data.value|, |elevations.data.value|, |series|,
                if snapshot.Some? then Some(snapshot.value.dateLabel) else None)
  }

  /** What the effect hands to the plotting library. */
  datatype PlotData = PlotData(elevations: seq<Elevation>, snapshot: Option<seq<WaterLevelEntry>>, wells: seq<Well>)

  /**
   * The guard of the drawing effect: nothing is drawn until all three
   * datasets are present; then the marks use the snapshot at the current
   * index, or none when the index is outside the series.
   */
  function PlotInput(wells: Option<seq<Well>>, elevations: Option<seq<Elevation>>,
                     waterlevels: Option<seq<WaterLevel>>, index: int): (r: Option<PlotData>)
    ensures r.Some? <==> wells.Some? && elevations.Some? && waterlevels.Some?
    ensures r.Some? ==>
      && r.value.wells == wells.value && r.value.elevations == elevations.value
      && (r.value.snapshot.Some? <==> 0 <= index < |waterlevels.value|)
      && (r.value.snapshot.Some? ==> r.value.snapshot.value == waterlevels.value[index].values)
  {
    if waterlevels.None? then None
    else if wells.None? then None
    else if elevations.None? then None
    else
      var snapshot := SnapshotAt(waterlevels.value, index);
      Some(PlotData(elevations.value, if snapshot.Some? then Some(snapshot.value.values) else None, wells.value))
  }

  /** Whenever the chart view is shown, the effect draws, and the label shown is that of the plotted snapshot. */
  lemma ChartViewIsPlotted(prefix: string, wells: LoadState<seq<Well>>, elevations: LoadState<seq<Elevation>>,
                           waterlevels: LoadState<seq<WaterLevel>>, index: int)
    requires SelectView(prefix, wells, elevations, waterlevels, index).ChartView?
    ensures var p := PlotInput(wells.data, elevations.data, waterlevels.data, index);
      && p.Some?
      && (p.value.snapshot.Some? <==> SelectView(prefix, wells, elevations, waterlevels, index).dateLabel.Some?)
  {
  }

  /** Index after "Previous": unchanged at 0, otherwise 12 lower, not clamped. */
  function Previous(index: int): int
  {
    if index == 0 then index else index - AppStep
  }

  /**
   * Index after "Next": unchanged only when the index equals the series
   * length (`undefined` while the series is absent, which equals no number),
   * otherwise 12 higher.
   */
  function Next(index: int, seriesLength: Option<nat>): int
  {
    if seriesLength == Some(index) then index else index + AppStep
  }

  /** "Previous" is a no-op exactly at 0, and subtracts 12 elsewhere. */
  lemma PreviousSemantics(index: int)
    ensures Previous(index) == index <==> index == 0
    ensures index != 0 ==> Previous(index) == index - 12
  {
  }

  /**
   * "Next" is a no-op exactly at the series length, one past the last
   * snapshot; from the last snapshot it goes 12 past it, where no series of
   * length `n` has a snapshot.
   */
  lemma NextSemantics(index: int, n: nat)
    ensures Next(index, Some(n)) == index <==> index == n
    ensures index != n ==> Next(index, Some(n)) == index + 12
    ensures n >= 1 ==> Next(n - 1, Some(n)) == n + 11
    ensures forall series: seq<WaterLevel> :: |series| == n ==> SnapshotAt(series, n + 11).None?
  {
  }

  /** "Next" `k` times from `index`. */
  function NextTimes(index: int, seriesLength: Option<nat>, k: nat): int
  {
    if k == 0 then index else Next(NextTimes(index, seriesLength, k - 1), seriesLength)
  }

  /**
   * From the first snapshot, "Next" comes to rest only if the series length
   * is a multiple of 12; otherwise it steps past the end for ever.
   */
  lemma {:induction false} NextFromStart(n: nat, k: nat)
    ensures NextTimes(0, Some(n), k) == if n % 12 == 0 && 12 * k >= n then n else 12 * k
  {
    if k > 0 {
      NextFromStart(n, k - 1);
      var cur := NextTimes(0, Some(n), k - 1);
      if n % 12 == 0 && 12 * k >= n && cur != n {
        assert cur == 12 * (k - 1) < n;
        var j := n / 12;
        assert n == 12 * j;
        assert j == k;
      }
    }
  }

  /** The interval handles a state holds: none or one. */
  function HeldTimers(intervalId: Option<Handle>): (s: set<Handle>)
    ensures |s| <= 1
    ensures s == {} <==> intervalId.None?
  {
    if intervalId.Some? then {intervalId.value} else {}
  }

  /**
   * The component's state: the profile prefix, the snapshot index and the
   * interval handle, together with the set of intervals the platform is
   * running on the component's behalf (`setInterval` adds one,
   * `clearInterval` removes it).
   */
  class AppState {
    var filePrefix: string
    var index: int
    var intervalId: Option<Handle>
    var timers: set<Handle>

    /** Only the first profile is reachable, and the platform runs exactly the interval the state holds. */
    ghost predicate Valid()
      reads this
    {
      filePrefix == FilePrefixes[0] && timers == HeldTimers(intervalId)
    }

    constructor ()
      ensures Valid()
      ensures filePrefix == "xs1" && index == 0 && intervalId == None && timers == {}
    {
      filePrefix := FilePrefixes[0];
      index := 0;
      intervalId := None;
      timers := {};
    }

    method DecrementWaterlevelKey()
      requires Valid()
      modifies this`index
      ensures Valid()
      ensures index == Previous(old(index))
    {
      if index == 0 {
        return;
      }
      index := index - AppStep;
    }

    /** `seriesLength` is `waterlevelsData?.length`. */
    method IncrementWaterlevelKey(seriesLength: Option<nat>)
      requires Valid()
      modifies this`index
      ensures Valid()
      ensures index == Next(old(index), seriesLength)
    {
      if seriesLength == Some(index) {
        return;
      }
      index := index + AppStep;
    }

    /**
     * `startAnimation`: with a handle held nothing changes; otherwise the
     * handle `h` the platform returns for the new interval is installed.
     */
    method StartAnimation(h: Handle)
      requires Valid() && h !in timers
      modifies this`intervalId, this`timers
      ensures Valid() && |timers| <= 1
      ensures old(intervalId).Some? ==> intervalId == old(intervalId) && timers == old(timers)
      ensures old(intervalId).None? ==> intervalId == Some(h) && timers == {h}
    {
      if intervalId.Some? {
        return;
      }
      timers := timers + {h};
      intervalId := Some(h);
    }

    /** `stopAnimation`: clears the held interval, if any; afterwards none runs. */
    method StopAnimation()
      requires Valid()
      modifies this`intervalId, this`timers
      ensures Valid()
      ensures intervalId == None && timers == {}
    {
      if intervalId.Some? {
        timers := timers - {intervalId.value};
        intervalId := None;
      }
    }

    /** One firing of the running interval `h`: the index grows by 1, with no bound. */
    method Tick(h: Handle)
      requires Valid() && h in timers
      modifies this`index
      ensures Valid()
      ensures index == old(index) + 1
    {
      index := index + 1;
    }

    /** "Change Profile" sets the prefix to the first entry of the list, "xs1", the only profile ever selected. */
    method ChangeProfile()
      requires Valid()
      modifies this`filePrefix
      ensures Valid()
      ensures filePrefix == "xs1"
    {
      filePrefix := FilePrefixes[0];
    }
  }

  /**
   * Starting twice and stopping once: one interval runs after the starts,
   * none after the stop, and the index is still the initial 0.
   */
  method StartTwiceThenStop(h1: Handle, h2: Handle) returns (runningAfterStarts: nat, runningAfterStop: nat, indexAfter: int)
    requires h1 != h2
    ensures runningAfterStarts == 1 && runningAfterStop == 0 && indexAfter == 0
  {
    var app := new AppState();
    app.StartAnimation(h1);
    app.StartAnimation(h2);
    runningAfterStarts := |app.timers|;
    app.StopAnimation();
    runningAfterStop := |app.timers|;
    indexAfter := app.index;
  }
}
