/** The metrics of the analytics dashboard
    (frontend/src/components/AnalyticsDashboard.jsx): status and priority
    buckets, the completion, on-time and estimation rates with their zero
    guards, the chart series, and the process metrics. Ratios are exact reals. */
module Analytics {
  import opened Common

  /** What the dashboard reads of a task. Dates are instants in milliseconds;
      hours are the INTEGER columns, None when null. */
  datatype ATask = ATask(
    status: string, priority: string, projectId: Id,
    completedDate: Option<int>, dueDate: Option<int>,
    estimatedHours: Option<int>, actualHours: Option<int>)

  datatype AProject = AProject(id: Id, name: string, status: string, progress: Option<int>)

  /** One pie-chart slice. */
  datatype Slice = Slice(name: string, value: nat, color: string)

  /** One bar of the progress chart. */
  datatype ProgressBar = ProgressBar(name: string, progress: int, tasks: nat)

  /** `tasks.filter(t => t.status === s).length`. */
  function StatusCount(tasks: seq<ATask>, s: string): nat {
    Count(tasks, (t: ATask) => t.status == s)
  }

  /** `tasks.filter(t => t.priority === p).length`. */
  function PriorityCount(tasks: seq<ATask>, p: string): nat {
    Count(tasks, (t: ATask) => t.priority == p)
  }

  predicate KnownStatus(t: ATask) {
    t.status in {"todo", "in-progress", "review", "done"}
  }

  /** The four buckets (AnalyticsDashboard.jsx:91-95) are disjoint: together
      they never exceed the task count, and they cover it exactly when every
      status is one of the enum values. */
  lemma {:induction false} BucketsPartition(tasks: seq<ATask>)
    ensures StatusCount(tasks, "todo") + StatusCount(tasks, "in-progress") + StatusCount(tasks, "review") + StatusCount(tasks, "done") <= |tasks|
    ensures (forall t :: t in tasks ==> KnownStatus(t)) ==>
      StatusCount(tasks, "todo") + StatusCount(tasks, "in-progress") + StatusCount(tasks, "review") + StatusCount(tasks, "done") == |tasks|
  {
    if tasks != [] {
      BucketsPartition(tasks[1..]);
      assert forall t :: t in tasks[1..] ==> t in tasks;
      assert tasks[0] in tasks;
    }
  }

  function Done(tasks: seq<ATask>): nat { StatusCount(tasks, "done") }

  /** completionRate (AnalyticsDashboard.jsx:96). */
  function CompletionRate(tasks: seq<ATask>): real {
    if |tasks| > 0 then (Done(tasks) as real / |tasks| as real) * 100.0 else 0.0
  }

  /** The rate is a percentage, 0 without tasks, and 100 exactly when every
      task is done. */
  lemma CompletionRateRange(tasks: seq<ATask>)
    ensures 0.0 <= CompletionRate(tasks) <= 100.0
    ensures |tasks| == 0 ==> CompletionRate(tasks) == 0.0
    ensures |tasks| > 0 ==> (CompletionRate(tasks) == 100.0 <==> Done(tasks) == |tasks|)
  {
    if |tasks| > 0 {
      RatioRange(Done(tasks), |tasks|);
    }
  }

  /** k/n·100 lies in [0, 100] for k <= n, and is 100 exactly when k = n. */
  lemma RatioRange(k: nat, n: nat)
    requires 0 < n && k <= n
    ensures 0.0 <= (k as real / n as real) * 100.0 <= 100.0
    ensures (k as real / n as real) * 100.0 == 100.0 <==> k == n
  {
    var q := k as real / n as real;
    assert q * (n as real) == k as real;
    if q * 100.0 == 100.0 {
      assert q == 1.0;
    }
  }

  /** A done task is on time when both dates are present and it was
      completed no later than due (AnalyticsDashboard.jsx:99-101). */
  predicate OnTime(t: ATask) {
    t.completedDate.Some? && t.dueDate.Some? && t.completedDate.value <= t.dueDate.value
  }

  /** A done task is accurately estimated when both hours are truthy and
      |actual - estimated| / estimated <= 0.2 (AnalyticsDashboard.jsx:105-109). */
  predicate Accurate(t: ATask) {
    && t.estimatedHours.Some? && t.estimatedHours.value != 0
    && t.actualHours.Some? && t.actualHours.value != 0
    && Abs(t.actualHours.value - t.estimatedHours.value) as real / t.estimatedHours.value as real <= 0.2
  }

  function Abs(x: int): nat { if x < 0 then -x else x }

  predicate IsDone(t: ATask) { t.status == "done" }

  /** Done tasks completed on time; they are among the done tasks. */
  function OnTimeCount(tasks: seq<ATask>): (n: nat)
    ensures n <= Done(tasks)
  {
    CountMono(tasks, (t: ATask) => IsDone(t) && OnTime(t), (t: ATask) => t.status == "done");
    Count(tasks, (t: ATask) => IsDone(t) && OnTime(t))
  }

  /** Done tasks estimated accurately; they are among the done tasks. */
  function AccurateCount(tasks: seq<ATask>): (n: nat)
    ensures n <= Done(tasks)
  {
    CountMono(tasks, (t: ATask) => IsDone(t) && Accurate(t), (t: ATask) => t.status == "done");
    Count(tasks, (t: ATask) => IsDone(t) && Accurate(t))
  }

  /** onTimeRate (AnalyticsDashboard.jsx:102). */
  function OnTimeRate(tasks: seq<ATask>): real {
    if Done(tasks) > 0 then (OnTimeCount(tasks) as real / Done(tasks) as real) * 100.0 else 0.0
  }

  /** estimationRate (AnalyticsDashboard.jsx:110). */
  function EstimationRate(tasks: seq<ATask>): real {
    if Done(tasks) > 0 then (AccurateCount(tasks) as real / Done(tasks) as real) * 100.0 else 0.0
  }

  /** Both rates are percentages and are 0 when nothing is done. */
  lemma RatesAreGuarded(tasks: seq<ATask>)
    ensures 0.0 <= OnTimeRate(tasks) <= 100.0 && 0.0 <= EstimationRate(tasks) <= 100.0
    ensures Done(tasks) == 0 ==> OnTimeRate(tasks) == 0.0 && EstimationRate(tasks) == 0.0
  {
    if Done(tasks) > 0 {
      RatioRange(OnTimeCount(tasks), Done(tasks));
      RatioRange(AccurateCount(tasks), Done(tasks));
    }
  }

  /** Truthy hours are required, whatever their values: a task with no
      estimate, or with 0 actual hours, never counts as accurate; equal
      non-zero hours always do. */
  lemma AccuracyNeedsBothHours(t: ATask)
    ensures t.estimatedHours.None? || t.estimatedHours == Some(0) ==> !Accurate(t)
    ensures t.actualHours.None? || t.actualHours == Some(0) ==> !Accurate(t)
    ensures t.estimatedHours.Some? && t.estimatedHours.value != 0 && t.actualHours == t.estimatedHours ==> Accurate(t)
  {
  }

  /** A 20% overrun is accurate; one hour more on a 4-hour estimate (25%) is not. */
  lemma AccuracyBoundary(base: ATask)
    ensures Accurate(base.(estimatedHours := Some(10), actualHours := Some(12)))
    ensures !Accurate(base.(estimatedHours := Some(4), actualHours := Some(5)))
  {
  }

  /** defectRate (AnalyticsDashboard.jsx:157): review / max(total, 1) · 100. */
  function DefectRate(tasks: seq<ATask>): real {
    StatusCount(tasks, "review") as real / (if |tasks| > 1 then |tasks| else 1) as real * 100.0
  }

  /** processEfficiency (AnalyticsDashboard.jsx:159-160). */
  function ProcessEfficiency(tasks: seq<ATask>): real {
    if |tasks| > 0 then
      ((Done(tasks) as real / |tasks| as real) * (OnTimeRate(tasks) / 100.0) * (EstimationRate(tasks) / 100.0)) * 100.0
    else 0.0
  }

  /** Without tasks the defect rate is 0; otherwise it is the share of
      tasks in review, a percentage. */
  lemma DefectRateRange(tasks: seq<ATask>)
    ensures |tasks| == 0 ==> DefectRate(tasks) == 0.0
    ensures 0.0 <= DefectRate(tasks) <= 100.0
  {
    if |tasks| > 0 {
      BucketsPartition(tasks);
      RatioRange(StatusCount(tasks, "review"), |tasks|);
    }
  }

  /** Without tasks the efficiency is 0; otherwise it is the completion
      share scaled by the on-time and estimation shares, so it never
      exceeds the completion rate. */
  lemma ProcessEfficiencyRange(tasks: seq<ATask>)
    ensures |tasks| == 0 ==> ProcessEfficiency(tasks) == 0.0
    ensures 0.0 <= ProcessEfficiency(tasks) <= CompletionRate(tasks) <= 100.0
  {
    CompletionRateRange(tasks);
    if |tasks| > 0 {
      RatesAreGuarded(tasks);
      RatioUnit(Done(tasks), |tasks|);
      var c := Done(tasks) as real / |tasks| as real;
      var a := OnTimeRate(tasks) / 100.0;
      var b := EstimationRate(tasks) / 100.0;
      assert ProcessEfficiency(tasks) == (c * a * b) * 100.0;
      assert CompletionRate(tasks) == c * 100.0;
      ScaledTwice(c, a, b);
    }
  }

  lemma ScaledTwice(c: real, a: real, b: real)
    requires 0.0 <= c <= 1.0 && 0.0 <= a <= 1.0 && 0.0 <= b <= 1.0
    ensures 0.0 <= (c * a * b) * 100.0 <= c * 100.0
  {
    MulAtMost(c, a);
    MulAtMost(c * a, b);
  }

  /** k/n lies in [0, 1] for k <= n. */
  lemma RatioUnit(k: nat, n: nat)
    requires 0 < n && k <= n
    ensures 0.0 <= k as real / n as real <= 1.0
  {
    RatioRange(k, n);
  }

  /** Scaling by a factor in [0, 1] does not grow a value of [0, 1]. */
  lemma MulAtMost(x: real, f: real)
    requires 0.0 <= x <= 1.0 && 0.0 <= f <= 1.0
    ensures 0.0 <= x * f <= x
  {
    if x > 0.0 {
      assert x * f <= x * 1.0;
    }
  }

  predicate NonEmpty(d: Slice) { d.value > 0 }

  /** statusData (AnalyticsDashboard.jsx:125-130). */
  function StatusData(tasks: seq<ATask>): seq<Slice> {
    Filter(StatusSlices(tasks), NonEmpty)
  }

  /** priorityData (AnalyticsDashboard.jsx:133-138). */
  function PriorityData(tasks: seq<ATask>): seq<Slice> {
    Filter(PrioritySlices(tasks), NonEmpty)
  }

  function StatusSlices(tasks: seq<ATask>): seq<Slice> {
    [Slice("To Do", StatusCount(tasks, "todo"), "#94a3b8"),
     Slice("In Progress", StatusCount(tasks, "in-progress"), "#60a5fa"),
     Slice("Review", StatusCount(tasks, "review"), "#fbbf24"),
     Slice("Done", Done(tasks), "#34d399")]
  }

  function PrioritySlices(tasks: seq<ATask>): seq<Slice> {
    [Slice("Critical", PriorityCount(tasks, "critical"), "#ef4444"),
     Slice("High", PriorityCount(tasks, "high"), "#f97316"),
     Slice("Medium", PriorityCount(tasks, "medium"), "#fbbf24"),
     Slice("Low", PriorityCount(tasks, "low"), "#94a3b8")]
  }

  /** The pie charts never show an empty slice, show the slice of every
      non-empty bucket, and are empty without tasks. */
  lemma ChartsOmitEmptySlices(tasks: seq<ATask>)
    ensures forall d :: d in StatusData(tasks) ==> d.value > 0
    ensures forall d :: d in PriorityData(tasks) ==> d.value > 0
    ensures forall d :: d in StatusSlices(tasks) ==> (d.value > 0 <==> d in StatusData(tasks))
    ensures forall d :: d in PrioritySlices(tasks) ==> (d.value > 0 <==> d in PriorityData(tasks))
    ensures |tasks| == 0 ==> StatusData(tasks) == [] && PriorityData(tasks) == []
  {
    if |tasks| == 0 {
      EmptyFilter(StatusSlices(tasks), NonEmpty);
      EmptyFilter(PrioritySlices(tasks), NonEmpty);
    }
  }

  lemma EmptyFilter<T>(s: seq<T>, f: T -> bool)
    requires forall x :: x in s ==> !f(x)
    ensures Filter(s, f) == []
  {
    if Filter(s, f) != [] {
      assert Filter(s, f)[0] in Filter(s, f);
    }
  }

  /** `name.substring(0, 15) + (name.length > 15 ? '...' : '')`. */
  function Truncate(name: string): string {
    name[..if |name| < 15 then |name| else 15] + (if |name| > 15 then "..." else "")
  }

  /** A name of at most 15 characters is shown whole; a longer one as its
      first 15 characters and "...". */
  lemma TruncateShape(name: string)
    ensures |name| <= 15 ==> Truncate(name) == name
    ensures |name| > 15 ==> |Truncate(name)| == 18 && Truncate(name)[..15] == name[..15] && Truncate(name)[15..] == "..."
  {
  }

  function ProjectTaskCount(tasks: seq<ATask>, pid: Id): nat {
    Count(tasks, (t: ATask) => t.projectId == pid)
  }

  /** progressData (AnalyticsDashboard.jsx:141-145). */
  function ProgressData(projects: seq<AProject>, tasks: seq<ATask>): (r: seq<ProgressBar>)
    ensures |r| == |projects|
  {
    seq(|projects|, i requires 0 <= i < |projects| =>
      ProgressBar(Truncate(projects[i].name), projects[i].progress.GetOr(0), ProjectTaskCount(tasks, projects[i].id)))
  }

  /** One bar per project, in order; a missing progress shows 0, and
      projects sharing an id show the same task count. */
  lemma ProgressBarsShape(projects: seq<AProject>, tasks: seq<ATask>)
    ensures forall i :: 0 <= i < |projects| && projects[i].progress.None? ==> ProgressData(projects, tasks)[i].progress == 0
    ensures forall i, j :: 0 <= i < |projects| && 0 <= j < |projects| && projects[i].id == projects[j].id ==>
      ProgressData(projects, tasks)[i].tasks == ProgressData(projects, tasks)[j].tasks
  {
  }

  /** The tasks shown by all the bars together. */
  function BarTasks(bars: seq<ProgressBar>): nat {
    if bars == [] then 0 else bars[0].tasks + BarTasks(bars[1..])
  }

  predicate DistinctIds(projects: seq<AProject>) {
    forall i, j :: 0 <= i < j < |projects| ==> projects[i].id != projects[j].id
  }

  predicate Listed(projects: seq<AProject>, pid: Id) {
    exists p :: p in projects && p.id == pid
  }

  /** How many projects carry the id `pid`. */
  function Hits(projects: seq<AProject>, pid: Id): nat {
    Count(projects, (p: AProject) => p.id == pid)
  }

  /** The bars of projects with distinct ids count every task at most once,
      and exactly once when every task belongs to a listed project. */
  lemma {:induction false} ProgressBarsCountTasks(projects: seq<AProject>, tasks: seq<ATask>)
    requires DistinctIds(projects)
    ensures BarTasks(ProgressData(projects, tasks)) <= |tasks|
    ensures (forall t :: t in tasks ==> Listed(projects, t.projectId)) ==> BarTasks(ProgressData(projects, tasks)) == |tasks|
  {
    if tasks == [] {
      BarsWithoutTasks(projects);
    } else {
      ProgressBarsCountTasks(projects, tasks[1..]);
      BarsStep(projects, tasks);
      HitsOfDistinct(projects, tasks[0].projectId);
      assert forall t :: t in tasks[1..] ==> t in tasks;
      assert tasks[0] in tasks;
    }
  }

  /** Dropping the first project drops the first bar. */
  lemma BarsTail(projects: seq<AProject>, tasks: seq<ATask>)
    requires projects != []
    ensures ProgressData(projects, tasks)[1..] == ProgressData(projects[1..], tasks)
  {
  }

  lemma {:induction false} BarsWithoutTasks(projects: seq<AProject>)
    ensures BarTasks(ProgressData(projects, [])) == 0
  {
    if projects != [] {
      BarsTail(projects, []);
      BarsWithoutTasks(projects[1..]);
    }
  }

  /** The first task adds one to the total per project carrying its id. */
  lemma {:induction false} BarsStep(projects: seq<AProject>, tasks: seq<ATask>)
    requires tasks != []
    ensures BarTasks(ProgressData(projects, tasks)) == BarTasks(ProgressData(projects, tasks[1..])) + Hits(projects, tasks[0].projectId)
  {
    if projects != [] {
      BarsTail(projects, tasks);
      BarsTail(projects, tasks[1..]);
      BarsStep(projects[1..], tasks);
    }
  }

  /** With distinct ids an id is carried by one project when listed, by none otherwise. */
  lemma {:induction false} HitsOfDistinct(projects: seq<AProject>, pid: Id)
    requires DistinctIds(projects)
    ensures Hits(projects, pid) == if Listed(projects, pid) then 1 else 0
  {
    if projects != [] {
      var rest := projects[1..];
      assert DistinctIds(rest) by {
        forall i, j | 0 <= i < j < |rest| ensures rest[i].id != rest[j].id {
          assert rest[i] == projects[i + 1] && rest[j] == projects[j + 1];
        }
      }
      HitsOfDistinct(rest, pid);
      if projects[0].id == pid {
        assert !Listed(rest, pid) by {
          forall p | p in rest ensures p.id != pid {
            var k :| 0 <= k < |rest| && rest[k] == p;
            assert projects[k + 1] == p;
          }
        }
        assert projects[0] in projects;
      } else {
        assert Listed(projects, pid) <==> Listed(rest, pid) by {
          assert projects == [projects[0]] + rest;
        }
      }
    }
  }

  /** The project status counts (AnalyticsDashboard.jsx:113-116). */
  function ProjectStatusCount(projects: seq<AProject>, s: string): nat {
    Count(projects, (p: AProject) => p.status == s)
  }

  /** The four project counts are disjoint. */
  lemma {:induction false} ProjectCountsDisjoint(projects: seq<AProject>)
    ensures ProjectStatusCount(projects, "active") + ProjectStatusCount(projects, "completed") +
            ProjectStatusCount(projects, "planning") + ProjectStatusCount(projects, "on-hold") <= |projects|
  {
    if projects != [] {
      ProjectCountsDisjoint(projects[1..]);
    }
  }

  /** The four priority counts (AnalyticsDashboard.jsx:119-122) are disjoint too. */
  lemma {:induction false} PriorityCountsDisjoint(tasks: seq<ATask>)
    ensures PriorityCount(tasks, "critical") + PriorityCount(tasks, "high") +
            PriorityCount(tasks, "medium") + PriorityCount(tasks, "low") <= |tasks|
  {
    if tasks != [] {
      PriorityCountsDisjoint(tasks[1..]);
    }
  }
}
