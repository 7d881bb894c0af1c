/** client/src/pages/AdminDashboard.jsx: the chart data and the
    week-over-week sentence drawn from the dashboard figures, which are
    missing (None) until they have been fetched. */
module AdminDashboard {
  import opened Wrappers
  import opened TaskModel
  import opened AdminController

  /** The week-over-week sentence: new tasks with no previous week, no
      tasks at all, a percentage increase or decrease, or no change. */
  datatype Trend =
    | NewTasksOnly(count: nat)
    | NoTasksBothWeeks
    | Increase(percent: real)
    | Decrease(percent: real)
    | NoChange

  /** The nested conditional of the comparison card. Missing figures fail
      every comparison, which leads to "No change". */
  function WeekTrend(stats: Option<DashboardStats>): (r: Trend)
    ensures r.NewTasksOnly? <==> stats.Some? && stats.value.tasksPreviousWeek == 0 && stats.value.tasksLastWeek > 0
    ensures r.NewTasksOnly? ==> r.count == stats.value.tasksLastWeek
    ensures r.NoTasksBothWeeks? <==> stats.Some? && stats.value.tasksPreviousWeek == 0 && stats.value.tasksLastWeek == 0
    ensures r.Increase? <==> stats.Some? && 0 < stats.value.tasksPreviousWeek < stats.value.tasksLastWeek
    ensures r.Increase? ==> r.percent > 0.0
    ensures r.Increase? ==>
      r.percent * stats.value.tasksPreviousWeek as real == (stats.value.tasksLastWeek - stats.value.tasksPreviousWeek) as real * 100.0
    ensures r.Decrease? <==> stats.Some? && stats.value.tasksLastWeek < stats.value.tasksPreviousWeek
    ensures r.Decrease? ==> 0.0 < r.percent <= 100.0
    ensures r.Decrease? ==>
      r.percent * stats.value.tasksPreviousWeek as real == (stats.value.tasksPreviousWeek - stats.value.tasksLastWeek) as real * 100.0
    ensures r.NoChange? <==> stats.None? || 0 < stats.value.tasksPreviousWeek == stats.value.tasksLastWeek
  {
    if stats.None? then NoChange
    else
      var last, previous := stats.value.tasksLastWeek, stats.value.tasksPreviousWeek;
      if previous == 0 then
        if last > 0 then NewTasksOnly(last) else NoTasksBothWeeks
      else if last > previous then
        Increase((last - previous) as real / previous as real * 100.0)
      else if last < previous then
        DecreaseOf(last, previous)
      else NoChange
  }

  function DecreaseOf(last: nat, previous: nat): (r: Trend)
    requires last < previous
    ensures r.Decrease? && 0.0 < r.percent <= 100.0
    ensures r.percent * previous as real == (previous - last) as real * 100.0
  {
    var p := (previous - last) as real / previous as real * 100.0;
    assert (previous - last) as real <= previous as real;
    assert p <= 100.0 by {
      assert (previous - last) as real / previous as real <= 1.0;
    }
    Decrease(p)
  }

  /** The two bars: each week's count, 0 while the figures are missing. */
  function WeekComparison(stats: Option<DashboardStats>): (r: seq<(string, nat)>)
    ensures |r| == 2 && r[0].0 == "Last Week" && r[1].0 == "Previous Week"
    ensures stats.None? ==> r[0].1 == 0 && r[1].1 == 0
    ensures stats.Some? ==> r[0].1 == stats.value.tasksLastWeek && r[1].1 == stats.value.tasksPreviousWeek
  {
    var last := if stats.Some? then stats.value.tasksLastWeek else 0;
    var previous := if stats.Some? then stats.value.tasksPreviousWeek else 0;
    [("Last Week", last), ("Previous Week", previous)]
  }

  /** A slice of the status pie chart. */
  datatype Slice = Slice(name: string, value: nat)

  /** statusData: one slice per distribution entry, none while the figures
      are missing. */
  function StatusData(stats: Option<DashboardStats>): (r: seq<Slice>)
    ensures stats.None? ==> r == []
    ensures stats.Some? ==> |r| == |stats.value.statusDistribution|
    ensures stats.Some? ==> forall i :: 0 <= i < |r| ==>
      r[i] == Slice(StatusName(stats.value.statusDistribution[i].status), stats.value.statusDistribution[i].count)
  {
    if stats.None? then []
    else Slices(stats.value.statusDistribution)
  }

  function Slices(d: seq<StatusCount>): (r: seq<Slice>)
    ensures |r| == |d| && forall i :: 0 <= i < |d| ==> r[i] == Slice(StatusName(d[i].status), d[i].count)
  {
    seq(|d|, i requires 0 <= i < |d| => Slice(StatusName(d[i].status), d[i].count))
  }

  function SliceTotal(r: seq<Slice>): nat
  {
    if r == [] then 0 else r[0].value + SliceTotal(r[1..])
  }

  lemma {:induction false} SlicesTotal(d: seq<StatusCount>)
    ensures SliceTotal(Slices(d)) == SumCounts(d)
  {
    if d != [] {
      assert Slices(d)[1..] == Slices(d[1..]);
      SlicesTotal(d[1..]);
    }
  }

  /** With the figures getDashboardStats computes, the pie chart's slices
      add up to the number of tasks, and each slice is a status that
      occurs. */
  lemma PieCoversAllTasks(ts: seq<Task>, us: seq<User>, today: int)
    ensures var r := StatusData(Some(GetDashboardStats(ts, us, today)));
      && SliceTotal(r) == |ts|
      && forall i :: 0 <= i < |r| ==> r[i].value >= 1
  {
    var d := GetDashboardStats(ts, us, today).statusDistribution;
    SlicesTotal(d);
    forall i | 0 <= i < |d| ensures d[i].count >= 1 {
      assert d[i] in d;
    }
  }
}
