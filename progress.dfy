/** Completion percentages of tasks and projects, as computed by the
    `calculateTaskCompletion` / `calculateProgress` helpers of the task and
    project controllers (the two copies of `calculateTaskCompletion` are
    identical, so they are defined once here). Arithmetic is on exact
    rationals: `Math.round(x)` for x >= 0 is floor(x + 1/2). */
module Progress {
  import opened Common

  /** What the completion rule reads of a task: its status and, when the
      query loaded it, its subtask list (None = undefined or null). */
  datatype TaskView = TaskView(status: TaskStatus, subtasks: Option<seq<Subtask>>)

  /** Math.round(num / den) for a non-negative rational: the integer r with
      r - 1/2 <= num/den < r + 1/2. */
  function RoundHalfUp(num: nat, den: nat): (r: nat)
    requires den > 0
    ensures 2 * den * r <= 2 * num + den < 2 * den * (r + 1)
  {
    var q := (2 * num + den) / (2 * den);
    assert q * (2 * den) <= 2 * num + den < (q + 1) * (2 * den);
    q
  }

  /** Rounding is monotone in the numerator and a bound on num/den carries over. */
  lemma RoundHalfUpAtMost(num: nat, den: nat, bound: nat)
    requires den > 0 && num <= bound * den
    ensures RoundHalfUp(num, den) <= bound
  {
    var r := RoundHalfUp(num, den);
    assert 2 * den * r < 2 * den * (bound + 1);
    MulCancel(2 * den, r, bound + 1);
  }

  /** Cancelling a positive factor from a strict inequality. */
  lemma MulCancel(c: nat, a: nat, b: nat)
    requires c > 0 && c * a < c * b
    ensures a < b
  {
    assert c * (b - a) == c * b - c * a;
    assert c * (b - a) > 0;
  }

  /** `st.completed` counted over the list (filter(...).length). */
  function CompletedCount(subtasks: seq<Subtask>): (k: nat)
    ensures k <= |subtasks|
  {
    if subtasks == [] then 0
    else (if subtasks[0].completed then 1 else 0) + CompletedCount(subtasks[1..])
  }

  /** calculateTaskCompletion (taskController.js:6-15, projectController.js:6-15). */
  function TaskCompletion(t: TaskView): nat {
    if t.subtasks.None? || |t.subtasks.value| == 0 then
      (if t.status == Done then 100 else 0)
    else
      RoundHalfUp(100 * CompletedCount(t.subtasks.value), |t.subtasks.value|)
  }

  /** Completion is a percentage. */
  lemma TaskCompletionBounds(t: TaskView)
    ensures 0 <= TaskCompletion(t) <= 100
  {
    if t.subtasks.Some? && |t.subtasks.value| > 0 {
      RoundHalfUpAtMost(100 * CompletedCount(t.subtasks.value), |t.subtasks.value|, 100);
    }
  }

  /** Without subtasks the status alone decides: 100 exactly for 'done', 0 otherwise. */
  lemma NoSubtasksFollowsStatus(t: TaskView)
    requires t.subtasks.None? || t.subtasks.value == []
    ensures TaskCompletion(t) == 100 <==> t.status == Done
    ensures TaskCompletion(t) == 0 <==> t.status != Done
  {
  }

  /** With subtasks, completion is round(100 k / n) and the status is ignored. */
  lemma WithSubtasksIgnoresStatus(t: TaskView, other: TaskStatus)
    requires t.subtasks.Some? && |t.subtasks.value| > 0
    ensures var n, k := |t.subtasks.value|, CompletedCount(t.subtasks.value);
      2 * n * TaskCompletion(t) <= 200 * k + n < 2 * n * (TaskCompletion(t) + 1)
    ensures TaskCompletion(t.(status := other)) == TaskCompletion(t)
  {
  }

  /** Sum of completions, accumulated left to right as the forEach loops do. */
  function SumCompletion(tasks: seq<TaskView>): (total: nat)
    ensures total <= 100 * |tasks|
  {
    if tasks == [] then 0
    else
      TaskCompletionBounds(tasks[|tasks| - 1]);
      SumCompletion(tasks[..|tasks| - 1]) + TaskCompletion(tasks[|tasks| - 1])
  }

  /** calculateProgress: 0 without tasks, else the rounded mean completion. */
  function ProjectProgress(tasks: seq<TaskView>): nat {
    if |tasks| == 0 then 0 else RoundHalfUp(SumCompletion(tasks), |tasks|)
  }

  /** Project progress is a percentage, and it is the round-half-up mean of the
      task completions. */
  lemma ProjectProgressIsRoundedMean(tasks: seq<TaskView>)
    ensures ProjectProgress(tasks) <= 100
    ensures |tasks| == 0 ==> ProjectProgress(tasks) == 0
    ensures |tasks| > 0 ==> var n, p := |tasks|, ProjectProgress(tasks);
      2 * n * p <= 2 * SumCompletion(tasks) + n < 2 * n * (p + 1)
  {
    if |tasks| > 0 {
      RoundHalfUpAtMost(SumCompletion(tasks), |tasks|, 100);
    }
  }

  /** Progress does not depend on the order in which the tasks were loaded:
      moving the first task to the end keeps the sum. */
  lemma {:induction false} SumCompletionRotate(tasks: seq<TaskView>)
    requires |tasks| > 0
    ensures SumCompletion(tasks[1..] + [tasks[0]]) == SumCompletion(tasks)
  {
    var rest := tasks[1..];
    assert (rest + [tasks[0]])[..|rest|] == rest;
    if |tasks| == 1 {
      assert tasks[1..] + [tasks[0]] == tasks;
    } else {
      SumFirst(tasks);
      SumFirst(rest + [tasks[0]]);
      assert (rest + [tasks[0]])[1..] == rest[1..] + [tasks[0]];
    }
  }

  /** The left-to-right sum also splits off its first element. */
  lemma {:induction false} SumFirst(tasks: seq<TaskView>)
    requires |tasks| > 0
    ensures SumCompletion(tasks) == TaskCompletion(tasks[0]) + SumCompletion(tasks[1..])
  {
    if |tasks| > 1 {
      var init := tasks[..|tasks| - 1];
      SumFirst(init);
      assert init[1..] == tasks[1..][..|tasks[1..]| - 1];
      assert init[0] == tasks[0];
    } else {
      assert tasks[..0] == [];
      assert tasks[1..] == [];
    }
  }

  /** The accumulator loop of calculateProgress / updateProjectProgress. */
  method CalculateProgress(tasks: seq<TaskView>) returns (progress: nat)
    ensures progress == ProjectProgress(tasks)
    ensures progress <= 100
  {
    if |tasks| == 0 {
      return 0;
    }
    var total := 0;
    var i := 0;
    while i < |tasks|
      invariant 0 <= i <= |tasks|
      invariant total == SumCompletion(tasks[..i])
    {
      assert tasks[..i + 1][..i] == tasks[..i];
      total := total + TaskCompletion(tasks[i]);
      i := i + 1;
    }
    assert tasks[..i] == tasks;
    ProjectProgressIsRoundedMean(tasks);
    progress := RoundHalfUp(total, |tasks|);
  }

  /** A task whose subtasks are [done, done, open] and whose status is
      in-progress is 67% complete; one of three done gives 33%. */
  lemma TwoOfThreeSubtasks()
    ensures TaskCompletion(TaskView(InProgress, Some([Subtask("a", "a", true), Subtask("b", "b", true), Subtask("c", "c", false)]))) == 67
    ensures TaskCompletion(TaskView(Done, Some([Subtask("a", "a", true), Subtask("b", "b", false), Subtask("c", "c", false)]))) == 33
  {
    var s := [Subtask("a", "a", true), Subtask("b", "b", true), Subtask("c", "c", false)];
    assert CompletedCount(s) == 2 by {
      assert s[1..][1..] == [s[2]];
    }
    var s' := [Subtask("a", "a", true), Subtask("b", "b", false), Subtask("c", "c", false)];
    assert CompletedCount(s') == 1 by {
      assert s'[1..][1..] == [s'[2]];
    }
  }

  /** Two tasks at 100% and 50% give a project at 75%. */
  lemma HundredAndFiftyGiveSeventyFive()
    ensures ProjectProgress([TaskView(Done, None), TaskView(Todo, Some([Subtask("a", "a", true), Subtask("b", "b", false)]))]) == 75
  {
    var half := TaskView(Todo, Some([Subtask("a", "a", true), Subtask("b", "b", false)]));
    assert CompletedCount(half.subtasks.value) == 1;
    assert TaskCompletion(half) == 50;
    var ts := [TaskView(Done, None), half];
    assert ts[..1] == [TaskView(Done, None)];
    assert ts[..1][..0] == [];
    assert SumCompletion(ts) == 150;
  }
}
