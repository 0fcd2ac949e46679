/** The task and project controllers over an in-memory store: the tables they
    read and write (projects, tasks, project members, task assignees,
    comments), the guard chains of their handlers, the completedDate rule and
    the progress write-backs. Handlers return the HTTP status code they send. */
module Backend {
  import opened Common
  import opened Progress

  /** ProjectMember.role: ENUM('owner', 'admin', 'member', 'viewer'). */
  datatype ProjectRole = OwnerRole | AdminRole | MemberRole | ViewerRole

  datatype TaskRow = TaskRow(
    id: Id, projectId: Id, title: string, status: TaskStatus, priority: Priority,
    subtasks: Option<seq<Subtask>>, completedDate: Option<int>, estimatedHours: int, createdBy: Id)

  /** A project row: its owner, its stored progress, and its other columns. */
  datatype ProjectRow = ProjectRow(ownerId: Id, progress: int, attrs: map<string, string>)

  datatype CommentRow = CommentRow(taskId: Id, userId: Id, content: string)

  /** The body of POST /api/projects/:projectId/tasks. */
  datatype NewTask = NewTask(
    title: string, status: Option<TaskStatus>, priority: Option<Priority>,
    estimatedHours: Option<int>, assignees: seq<Id>)

  /** The body of PUT /api/tasks/:id: every field present is written as given. */
  datatype TaskPatch = TaskPatch(
    projectId: Option<Id>, title: Option<string>, status: Option<TaskStatus>,
    priority: Option<Priority>, subtasks: Option<Option<seq<Subtask>>>,
    completedDate: Option<Option<int>>, estimatedHours: Option<int>)

  /** The body of PUT /api/projects/:id, written verbatim. */
  datatype ProjectPatch = ProjectPatch(ownerId: Option<Id>, progress: Option<int>, attrs: map<string, string>)

  const OK: nat := 200
  const CREATED: nat := 201
  const BAD_REQUEST: nat := 400
  const FORBIDDEN: nat := 403
  const NOT_FOUND: nat := 404
  const SERVER_ERROR: nat := 500

  // ---------------------------------------------------------------- tables

  ghost predicate UniqueIds(tasks: seq<TaskRow>) {
    forall i, j :: 0 <= i < j < |tasks| ==> tasks[i].id != tasks[j].id
  }

  /** Task.findByPk: the position of the row with that id. */
  function TaskIndex(tasks: seq<TaskRow>, id: Id): (r: Option<nat>)
    ensures r.Some? ==> r.value < |tasks| && tasks[r.value].id == id
    ensures r.None? ==> forall i :: 0 <= i < |tasks| ==> tasks[i].id != id
  {
    if tasks == [] then None
    else if tasks[0].id == id then Some(0)
    else match TaskIndex(tasks[1..], id)
      case None => None
      case Some(k) => Some(k + 1)
  }

  /** The rows of one project, in table order (the `tasks` include). */
  function ProjectTasks(tasks: seq<TaskRow>, pid: Id): (r: seq<TaskRow>)
    ensures forall t :: t in r <==> t in tasks && t.projectId == pid
  {
    if tasks == [] then []
    else if tasks[0].projectId == pid then [tasks[0]] + ProjectTasks(tasks[1..], pid)
    else ProjectTasks(tasks[1..], pid)
  }

  /** The rows of every other project (what a project delete leaves). */
  function OtherProjectsTasks(tasks: seq<TaskRow>, pid: Id): (r: seq<TaskRow>)
    ensures forall t :: t in r <==> t in tasks && t.projectId != pid
    ensures UniqueIds(tasks) ==> UniqueIds(r)
  {
    if tasks == [] then []
    else
      var rest := OtherProjectsTasks(tasks[1..], pid);
      assert UniqueIds(tasks) ==> UniqueIds(tasks[1..]) by {
        if UniqueIds(tasks) {
          forall i, j | 0 <= i < j < |tasks[1..]| ensures tasks[1..][i].id != tasks[1..][j].id {
            assert tasks[1..][i] == tasks[i + 1] && tasks[1..][j] == tasks[j + 1];
          }
        }
      }
      if tasks[0].projectId != pid then
        assert UniqueIds(tasks) ==> UniqueIds([tasks[0]] + rest) by {
          if UniqueIds(tasks) {
            forall t | t in rest ensures t.id != tasks[0].id {
              var k :| 1 <= k < |tasks| && tasks[k] == t;
            }
          }
        }
        [tasks[0]] + rest
      else rest
  }

  /** What the completion rule sees of each row: with the subtasks column
      when the query loaded it, without it otherwise. */
  function Views(ts: seq<TaskRow>, withSubtasks: bool): (r: seq<TaskView>)
    ensures |r| == |ts|
  {
    seq(|ts|, i requires 0 <= i < |ts| => TaskView(ts[i].status, if withSubtasks then ts[i].subtasks else None))
  }

  /** The value updateProjectProgress and getProject store: tasks loaded with
      their subtasks. */
  function RecomputedProgress(tasks: seq<TaskRow>, pid: Id): nat {
    Computed(tasks, pid, true)
  }

  /** The value getProjects stores: tasks loaded with attributes ['id', 'status']. */
  function ListedProgress(tasks: seq<TaskRow>, pid: Id): nat {
    Computed(tasks, pid, false)
  }

  /** calculateProgress over the project's rows, loaded with or without subtasks. */
  function Computed(tasks: seq<TaskRow>, pid: Id, withSubtasks: bool): nat {
    ProjectProgress(Views(ProjectTasks(tasks, pid), withSubtasks))
  }

  function DoneCount(ts: seq<TaskRow>): (n: nat)
    ensures n <= |ts|
  {
    if ts == [] then 0 else (if ts[|ts| - 1].status == Done then 1 else 0) + DoneCount(ts[..|ts| - 1])
  }

  /** Without subtasks every task counts 100 or 0, so the list endpoint's
      progress is the rounded share of 'done' tasks. */
  lemma {:induction false} StatusOnlySum(ts: seq<TaskRow>)
    ensures SumCompletion(Views(ts, false)) == 100 * DoneCount(ts)
  {
    if ts != [] {
      var init := ts[..|ts| - 1];
      StatusOnlySum(init);
      assert Views(ts, false)[..|ts| - 1] == Views(init, false);
    }
  }

  lemma ListedProgressIsDoneShare(tasks: seq<TaskRow>, pid: Id)
    ensures var ts := ProjectTasks(tasks, pid);
      ListedProgress(tasks, pid) == if ts == [] then 0 else RoundHalfUp(100 * DoneCount(ts), |ts|)
  {
    StatusOnlySum(ProjectTasks(tasks, pid));
  }

  // ------------------------------------------------------- decision rules

  /** Task.update(req.body): each present field overwrites the column. */
  function ApplyTaskPatch(t: TaskRow, p: TaskPatch): TaskRow {
    t.(projectId := p.projectId.GetOr(t.projectId),
       title := p.title.GetOr(t.title),
       status := p.status.GetOr(t.status),
       priority := p.priority.GetOr(t.priority),
       subtasks := p.subtasks.GetOr(t.subtasks),
       completedDate := p.completedDate.GetOr(t.completedDate),
       estimatedHours := p.estimatedHours.GetOr(t.estimatedHours))
  }

  /** The row updateTask saves: the patch, then completedDate := now when the
      request sets status 'done' on a task that was not 'done'. */
  function UpdatedTask(t: TaskRow, p: TaskPatch, now: int): TaskRow {
    var u := ApplyTaskPatch(t, p);
    if p.status == Some(Done) && t.status != Done then u.(completedDate := Some(now)) else u
  }

  /** completedDate is stamped exactly on a transition into 'done'; re-sending
      'done', or leaving 'done', never changes or clears it (unless the body
      itself carries a completedDate). */
  lemma CompletedDateRule(t: TaskRow, p: TaskPatch, now: int)
    requires p.completedDate.None?
    ensures var u := UpdatedTask(t, p, now);
      && (p.status == Some(Done) && t.status != Done ==> u.completedDate == Some(now))
      && (!(p.status == Some(Done) && t.status != Done) ==> u.completedDate == t.completedDate)
      && u.status == p.status.GetOr(t.status)
  {
  }

  /** getProject: the owner or any member may read the project. */
  predicate HasAccess(p: ProjectRow, pid: Id, members: map<(Id, Id), ProjectRole>, user: Id) {
    p.ownerId == user || (pid, user) in members
  }

  /** updateProject: the owner, or a member whose role is 'owner' or 'admin'. */
  predicate CanUpdateProject(p: ProjectRow, pid: Id, members: map<(Id, Id), ProjectRole>, user: Id) {
    p.ownerId == user || ((pid, user) in members && members[(pid, user)] in {OwnerRole, AdminRole})
  }

  /** addMember: the owner, or a member whose role is 'admin'. */
  predicate CanAddMember(p: ProjectRow, pid: Id, members: map<(Id, Id), ProjectRole>, user: Id) {
    p.ownerId == user || ((pid, user) in members && members[(pid, user)] == AdminRole)
  }

  /** Whoever may add members may update the project, but a non-owner whose
      membership role is 'owner' may update it and may not add members. */
  lemma AddMemberStricterThanUpdate(p: ProjectRow, pid: Id, members: map<(Id, Id), ProjectRole>, user: Id)
    ensures CanAddMember(p, pid, members, user) ==> CanUpdateProject(p, pid, members, user)
    ensures p.ownerId != user && (pid, user) in members && members[(pid, user)] == OwnerRole ==>
      CanUpdateProject(p, pid, members, user) && !CanAddMember(p, pid, members, user)
  {
  }

  function ApplyProjectPatch(p: ProjectRow, patch: ProjectPatch): ProjectRow {
    ProjectRow(patch.ownerId.GetOr(p.ownerId), patch.progress.GetOr(p.progress), p.attrs + patch.attrs)
  }

  /** The store's tables. */
  class Store {
    var projects: map<Id, ProjectRow>
    var tasks: seq<TaskRow>
    var members: map<(Id, Id), ProjectRole>   // (projectId, userId) -> role
    var assignees: set<(Id, Id)>               // (taskId, userId)
    var comments: map<Id, CommentRow>

    ghost predicate Valid() reads this {
      UniqueIds(tasks)
    }

    /** Invariant I2 of the design: every stored progress equals the
        aggregate over the project's current tasks. */
    ghost predicate ProgressConsistent() reads this {
      forall pid :: pid in projects ==> projects[pid].progress == RecomputedProgress(tasks, pid)
    }

    constructor ()
      ensures Valid() && ProgressConsistent()
      ensures projects == map[] && tasks == [] && members == map[] && assignees == {} && comments == map[]
    {
      projects, tasks, members, assignees, comments := map[], [], map[], {}, map[];
    }

    /** updateProjectProgress (taskController.js:18-48): a missing project
        writes nothing; otherwise progress := the aggregate over the project's
        tasks with their subtasks. A failing write (dbFails) is caught and
        logged, so the caller never sees it. */
    method UpdateProjectProgress(projectId: Id, dbFails: bool)
      modifies this`projects
      ensures projectId !in old(projects) || dbFails ==> projects == old(projects)
      ensures projectId in old(projects) && !dbFails ==>
        projects == old(projects)[projectId := old(projects)[projectId].(progress := RecomputedProgress(tasks, projectId))]
    {
      if projectId !in projects {
        return;
      }
      var progress := CalculateProgress(Views(ProjectTasks(tasks, projectId), true));
      if !dbFails {
        projects := projects[projectId := projects[projectId].(progress := progress)];
      }
    }

    /** createTask (taskController.js:162-268, without e-mail and calendar):
        404 for a missing project; otherwise the row is created with the
        defaults status 'todo', priority 'medium', estimatedHours 0, then one
        assignee row per listed user. Inserting an existing (task, user) pair
        throws (the join table's key), which answers 500 after the rows
        already written and skips the progress recompute. */
    method CreateTask(projectId: Id, req: NewTask, creator: Id, newId: Id, dbFails: bool) returns (code: nat)
      requires Valid() && TaskIndex(tasks, newId).None?
      modifies this`projects, this`tasks, this`assignees
      ensures Valid()
      ensures code == NOT_FOUND <==> projectId !in old(projects)
      ensures code == NOT_FOUND ==> projects == old(projects) && tasks == old(tasks) && assignees == old(assignees)
      ensures code != NOT_FOUND ==>
        tasks == old(tasks) + [TaskRow(newId, projectId, req.title, req.status.GetOr(Todo), req.priority.GetOr(Medium),
                                       Some([]), None, req.estimatedHours.GetOr(0), creator)]
      ensures code == SERVER_ERROR <==> projectId in old(projects) && RepeatsAssignee(old(assignees), newId, req.assignees)
      ensures code == CREATED ==>
        && assignees == old(assignees) + (set u | u in req.assignees :: (newId, u))
        && (dbFails ==> projects == old(projects))
        && (!dbFails ==> projects == old(projects)[projectId := old(projects)[projectId].(progress := RecomputedProgress(tasks, projectId))])
      ensures code == SERVER_ERROR ==> projects == old(projects)
      ensures code == SERVER_ERROR ==>
        (exists i :: 0 <= i < |req.assignees|
          && ((newId, req.assignees[i]) in old(assignees) || req.assignees[i] in req.assignees[..i])
          && !RepeatsAssignee(old(assignees), newId, req.assignees[..i])
          && assignees == old(assignees) + (set u | u in req.assignees[..i] :: (newId, u)))
      ensures code in {NOT_FOUND, SERVER_ERROR, CREATED}
    {
      if projectId !in projects {
        return NOT_FOUND;
      }
      var row := TaskRow(newId, projectId, req.title, req.status.GetOr(Todo), req.priority.GetOr(Medium),
                         Some([]), None, req.estimatedHours.GetOr(0), creator);
      forall i | 0 <= i < |tasks| ensures tasks[i].id != newId { }
      tasks := tasks + [row];
      assert UniqueIds(tasks);
      var i := 0;
      while i < |req.assignees|
        invariant 0 <= i <= |req.assignees|
        invariant tasks == old(tasks) + [row] && projects == old(projects) && UniqueIds(tasks)
        invariant assignees == old(assignees) + (set u | u in req.assignees[..i] :: (newId, u))
        invariant !RepeatsAssignee(old(assignees), newId, req.assignees[..i])
      {
        var u := req.assignees[i];
        if (newId, u) in assignees {
          assert RepeatsAssignee(old(assignees), newId, req.assignees) by {
            RepeatedAt(old(assignees), newId, req.assignees, i);
          }
          assert (newId, u) in old(assignees) || u in req.assignees[..i];
          return SERVER_ERROR;
        }
        assert req.assignees[..i + 1] == req.assignees[..i] + [u];
        assignees := assignees + {(newId, u)};
        NoRepeatExtends(old(assignees), newId, req.assignees[..i], u);
        i := i + 1;
      }
      assert req.assignees[..i] == req.assignees;
      UpdateProjectProgress(projectId, dbFails);
      return CREATED;
    }

    /** updateTask (taskController.js:273-329, without the calendar call):
        404 for a missing task; otherwise the patch is written, completedDate
        is stamped on a transition into 'done', and the progress of the
        task's project as it is AFTER the patch is recomputed. The reply is 200
        whether or not the recompute fails. */
    method UpdateTask(id: Id, patch: TaskPatch, now: int, dbFails: bool) returns (code: nat)
      requires Valid()
      modifies this`projects, this`tasks
      ensures Valid()
      ensures code == NOT_FOUND <==> TaskIndex(old(tasks), id).None?
      ensures code == NOT_FOUND ==> projects == old(projects) && tasks == old(tasks)
      ensures code != NOT_FOUND ==> (code == OK &&
        var k := TaskIndex(old(tasks), id).value;
        var u := UpdatedTask(old(tasks)[k], patch, now);
        && tasks == old(tasks)[k := u]
        && (dbFails || u.projectId !in old(projects) ==> projects == old(projects))
        && (!dbFails && u.projectId in old(projects) ==>
             projects == old(projects)[u.projectId := old(projects)[u.projectId].(progress := RecomputedProgress(tasks, u.projectId))]))
    {
      var found := TaskIndex(tasks, id);
      if found.None? {
        return NOT_FOUND;
      }
      var k := found.value;
      var u := UpdatedTask(tasks[k], patch, now);
      tasks := tasks[k := u];
      UpdateProjectProgress(u.projectId, dbFails);
      return OK;
    }

    /** deleteTask (taskController.js:334-377): 404 for a missing task;
        otherwise the row goes (with its comments and assignee rows) and the
        progress of the projectId read BEFORE the delete is recomputed. */
    method DeleteTask(id: Id, dbFails: bool) returns (code: nat)
      requires Valid()
      modifies this`projects, this`tasks, this`comments, this`assignees
      ensures Valid()
      ensures code == NOT_FOUND <==> TaskIndex(old(tasks), id).None?
      ensures code == NOT_FOUND ==> unchanged(this)
      ensures code != NOT_FOUND ==> (code == OK &&
        var k := TaskIndex(old(tasks), id).value;
        var pid := old(tasks)[k].projectId;
        && tasks == old(tasks)[..k] + old(tasks)[k + 1..]
        && (forall t :: t in tasks <==> t in old(tasks) && t.id != id)
        && comments == (map c | c in old(comments) && old(comments)[c].taskId != id :: old(comments)[c])
        && assignees == (set a | a in old(assignees) && a.0 != id)
        && (dbFails || pid !in old(projects) ==> projects == old(projects))
        && (!dbFails && pid in old(projects) ==>
             projects == old(projects)[pid := old(projects)[pid].(progress := RecomputedProgress(tasks, pid))]))
    {
      var found := TaskIndex(tasks, id);
      if found.None? {
        return NOT_FOUND;
      }
      var k := found.value;
      var projectId := tasks[k].projectId;
      RemoveAt(tasks, k);
      tasks := tasks[..k] + tasks[k + 1..];
      comments := map c | c in comments && comments[c].taskId != id :: comments[c];
      assignees := set a | a in assignees && a.0 != id;
      UpdateProjectProgress(projectId, dbFails);
      return OK;
    }

    /** addAssignee (taskController.js:382-430, without e-mail): 404 for a
        missing task, 400 and no row for an existing pair, else exactly one
        row is added. */
    method AddAssignee(taskId: Id, userId: Id) returns (code: nat)
      modifies this`assignees
      ensures code == NOT_FOUND <==> TaskIndex(tasks, taskId).None?
      ensures code == BAD_REQUEST <==> TaskIndex(tasks, taskId).Some? && (taskId, userId) in old(assignees)
      ensures code == OK <==> TaskIndex(tasks, taskId).Some? && (taskId, userId) !in old(assignees)
      ensures code == OK ==> assignees == old(assignees) + {(taskId, userId)}
      ensures code != OK ==> assignees == old(assignees)
    {
      if TaskIndex(tasks, taskId).None? {
        return NOT_FOUND;
      }
      if (taskId, userId) in assignees {
        return BAD_REQUEST;
      }
      assignees := assignees + {(taskId, userId)};
      return OK;
    }

    /** deleteComment (taskController.js:494-526): 404 for a missing comment,
        403 unless the requester wrote it; only then is it removed. */
    method DeleteComment(commentId: Id, requester: Id) returns (code: nat)
      modifies this`comments
      ensures code == NOT_FOUND <==> commentId !in old(comments)
      ensures code == FORBIDDEN <==> commentId in old(comments) && old(comments)[commentId].userId != requester
      ensures code == OK <==> commentId in old(comments) && old(comments)[commentId].userId == requester
      ensures code == OK ==> comments == old(comments) - {commentId}
      ensures code != OK ==> comments == old(comments)
    {
      if commentId !in comments {
        return NOT_FOUND;
      }
      if comments[commentId].userId != requester {
        return FORBIDDEN;
      }
      comments := comments - {commentId};
      return OK;
    }

    /** The projects a user sees in the list: owned or joined. */
    function Visible(requester: Id): set<Id>
      reads this
    {
      set pid | pid in projects && HasAccess(projects[pid], pid, members, requester)
    }

    /** The write-back loop of getProjects: every visible project whose stored
        progress differs from the computed one is written; `written` names
        them. `withSubtasks` says whether the tasks were loaded with their
        subtasks column. */
    method RefreshListed(requester: Id, withSubtasks: bool) returns (written: set<Id>)
      modifies this`projects
      ensures projects.Keys == old(projects).Keys
      ensures forall pid :: pid in written <==>
        pid in old(projects) && HasAccess(old(projects)[pid], pid, members, requester) &&
        old(projects)[pid].progress != Computed(tasks, pid, withSubtasks)
      ensures forall pid :: pid in projects ==>
        projects[pid] == if HasAccess(old(projects)[pid], pid, members, requester)
          then old(projects)[pid].(progress := Computed(tasks, pid, withSubtasks))
          else old(projects)[pid]
    {
      var visible := Visible(requester);
      var todo := visible;
      written := {};
      while todo != {}
        invariant todo <= visible
        invariant projects.Keys == old(projects).Keys
        invariant forall pid :: pid in projects ==> projects[pid].ownerId == old(projects)[pid].ownerId
        invariant forall pid :: pid in written <==>
          pid in visible && pid !in todo && old(projects)[pid].progress != Computed(tasks, pid, withSubtasks)
        invariant forall pid :: pid in projects ==>
          projects[pid] == if pid in visible && pid !in todo
            then old(projects)[pid].(progress := Computed(tasks, pid, withSubtasks))
            else old(projects)[pid]
        decreases todo
      {
        var pid :| pid in todo;
        var calculated := CalculateProgress(Views(ProjectTasks(tasks, pid), withSubtasks));
        if projects[pid].progress != calculated {
          projects := projects[pid := projects[pid].(progress := calculated)];
          written := written + {pid};
        }
        todo := todo - {pid};
      }
    }

    /** getProjects (projectController.js:33-89): the tasks come with
        attributes ['id', 'status'] only, so the progress written is the
        status-only value. */
    method GetProjects(requester: Id) returns (written: set<Id>)
      modifies this`projects
      ensures projects.Keys == old(projects).Keys
      ensures forall pid :: pid in projects ==>
        projects[pid] == if HasAccess(old(projects)[pid], pid, members, requester)
          then old(projects)[pid].(progress := ListedProgress(tasks, pid))
          else old(projects)[pid]
      ensures forall pid :: pid in written <==>
        pid in old(projects) && HasAccess(old(projects)[pid], pid, members, requester) &&
        old(projects)[pid].progress != ListedProgress(tasks, pid)
    {
      written := RefreshListed(requester, false);
    }

    /** getProjects as evidently intended: the list query also loads the
        subtasks column. On a consistent store it writes nothing, and it
        keeps the store consistent. */
    method GetProjectsWithSubtasks(requester: Id) returns (written: set<Id>)
      modifies this`projects
      ensures old(ProgressConsistent()) ==> written == {} && projects == old(projects)
      ensures forall pid :: pid in projects && HasAccess(projects[pid], pid, members, requester) ==>
        projects[pid].progress == RecomputedProgress(tasks, pid)
    {
      written := RefreshListed(requester, true);
      if old(ProgressConsistent()) {
        forall pid | pid in projects ensures projects[pid] == old(projects)[pid] {
          assert old(projects)[pid].progress == RecomputedProgress(tasks, pid);
        }
      }
    }

    /** getProject (projectController.js:94-158): 404 for a missing project,
        403 unless owner or member; otherwise the subtask-aware progress is
        written back when it differs. */
    method GetProject(pid: Id, requester: Id) returns (code: nat)
      modifies this`projects
      ensures code == NOT_FOUND <==> pid !in old(projects)
      ensures code == FORBIDDEN <==> pid in old(projects) && !HasAccess(old(projects)[pid], pid, members, requester)
      ensures code == OK <==> pid in old(projects) && HasAccess(old(projects)[pid], pid, members, requester)
      ensures code != OK ==> projects == old(projects)
      ensures code == OK ==> projects == old(projects)[pid := old(projects)[pid].(progress := RecomputedProgress(tasks, pid))]
    {
      if pid !in projects {
        return NOT_FOUND;
      }
      if !HasAccess(projects[pid], pid, members, requester) {
        return FORBIDDEN;
      }
      var calculated := CalculateProgress(Views(ProjectTasks(tasks, pid), true));
      if projects[pid].progress != calculated {
        projects := projects[pid := projects[pid].(progress := calculated)];
      }
      return OK;
    }

    /** updateProject (projectController.js:218-256): 404, then 403 unless
        CanUpdateProject; the body is written verbatim, a progress field
        included, with no recompute. */
    method UpdateProject(pid: Id, requester: Id, patch: ProjectPatch) returns (code: nat)
      modifies this`projects
      ensures code == NOT_FOUND <==> pid !in old(projects)
      ensures code == FORBIDDEN <==> pid in old(projects) && !CanUpdateProject(old(projects)[pid], pid, members, requester)
      ensures code == OK <==> pid in old(projects) && CanUpdateProject(old(projects)[pid], pid, members, requester)
      ensures code != OK ==> projects == old(projects)
      ensures code == OK ==> projects == old(projects)[pid := ApplyProjectPatch(old(projects)[pid], patch)]
    {
      if pid !in projects {
        return NOT_FOUND;
      }
      if !CanUpdateProject(projects[pid], pid, members, requester) {
        return FORBIDDEN;
      }
      projects := projects[pid := ApplyProjectPatch(projects[pid], patch)];
      return OK;
    }

    /** deleteProject (projectController.js:261-307): only the owner; the
        project's tasks, their comments and assignee rows, and its
        memberships go with it (cascade). */
    method DeleteProject(pid: Id, requester: Id) returns (code: nat)
      requires Valid()
      modifies this
      ensures Valid()
      ensures code == NOT_FOUND <==> pid !in old(projects)
      ensures code == FORBIDDEN <==> pid in old(projects) && old(projects)[pid].ownerId != requester
      ensures code == OK <==> pid in old(projects) && old(projects)[pid].ownerId == requester
      ensures code != OK ==> unchanged(this)
      ensures code == OK ==>
        && projects == old(projects) - {pid}
        && tasks == OtherProjectsTasks(old(tasks), pid)
        && members == (map m | m in old(members) && m.0 != pid :: old(members)[m])
        && comments == (map c | c in old(comments) && old(comments)[c].taskId !in DeletedIds(old(tasks), pid) :: old(comments)[c])
        && assignees == (set a | a in old(assignees) && a.0 !in DeletedIds(old(tasks), pid))
    {
      if pid !in projects {
        return NOT_FOUND;
      }
      if projects[pid].ownerId != requester {
        return FORBIDDEN;
      }
      var gone := DeletedIds(tasks, pid);
      projects := projects - {pid};
      tasks := OtherProjectsTasks(tasks, pid);
      members := map m | m in members && m.0 != pid :: members[m];
      comments := map c | c in comments && comments[c].taskId !in gone :: comments[c];
      assignees := set a | a in assignees && a.0 !in gone;
      return OK;
    }

    /** addMember (projectController.js:312-374, without e-mail): 404, then
        403 unless CanAddMember, then 400 for an existing membership;
        otherwise one row with role `role || 'member'`. */
    method AddMember(pid: Id, requester: Id, userId: Id, role: Option<ProjectRole>) returns (code: nat)
      modifies this`members
      ensures code == NOT_FOUND <==> pid !in projects
      ensures code == FORBIDDEN <==> pid in projects && !CanAddMember(projects[pid], pid, old(members), requester)
      ensures code == BAD_REQUEST <==> pid in projects && CanAddMember(projects[pid], pid, old(members), requester) && (pid, userId) in old(members)
      ensures code == OK <==> pid in projects && CanAddMember(projects[pid], pid, old(members), requester) && (pid, userId) !in old(members)
      ensures code != OK ==> members == old(members)
      ensures code == OK ==> members == old(members)[(pid, userId) := role.GetOr(MemberRole)]
    {
      if pid !in projects {
        return NOT_FOUND;
      }
      if !CanAddMember(projects[pid], pid, members, requester) {
        return FORBIDDEN;
      }
      if (pid, userId) in members {
        return BAD_REQUEST;
      }
      members := members[(pid, userId) := role.GetOr(MemberRole)];
      return OK;
    }

    /** removeMember (projectController.js:379-424): 404, 403 unless the
        owner, 400 when asked to remove the owner; otherwise the membership
        row (if any) is destroyed. */
    method RemoveMember(pid: Id, requester: Id, userId: Id) returns (code: nat)
      modifies this`members
      ensures code == NOT_FOUND <==> pid !in projects
      ensures code == FORBIDDEN <==> pid in projects && projects[pid].ownerId != requester
      ensures code == BAD_REQUEST <==> pid in projects && projects[pid].ownerId == requester && userId == requester
      ensures code == OK <==> pid in projects && projects[pid].ownerId == requester && userId != requester
      ensures code != OK ==> members == old(members)
      ensures code == OK ==> members == old(members) - {(pid, userId)}
    {
      if pid !in projects {
        return NOT_FOUND;
      }
      if projects[pid].ownerId != requester {
        return FORBIDDEN;
      }
      if userId == projects[pid].ownerId {
        return BAD_REQUEST;
      }
      members := members - {(pid, userId)};
      return OK;
    }
  }

  /** The ids of a project's tasks. */
  function DeletedIds(tasks: seq<TaskRow>, pid: Id): set<Id> {
    set t | t in tasks && t.projectId == pid :: t.id
  }

  /** Removing the row at k keeps the others, and their ids distinct. */
  lemma RemoveAt(tasks: seq<TaskRow>, k: nat)
    requires k < |tasks| && UniqueIds(tasks)
    ensures var r := tasks[..k] + tasks[k + 1..];
      && UniqueIds(r)
      && forall t :: t in r <==> t in tasks && t.id != tasks[k].id
  {
    var r := tasks[..k] + tasks[k + 1..];
    assert |r| == |tasks| - 1;
    assert forall j :: 0 <= j < |r| ==> r[j] == tasks[if j < k then j else j + 1];
    forall t ensures t in r <==> t in tasks && t.id != tasks[k].id {
      if t in tasks && t.id != tasks[k].id {
        var j :| 0 <= j < |tasks| && tasks[j] == t;
        assert j != k;
        assert r[if j < k then j else j - 1] == t;
      }
    }
  }

  /** Whether inserting (taskId, u) for each listed u, in order, meets a pair
      that is already there: an old row or an earlier entry of the list. */
  predicate RepeatsAssignee(existing: set<(Id, Id)>, taskId: Id, users: seq<Id>) {
    exists i :: 0 <= i < |users| && ((taskId, users[i]) in existing || users[i] in users[..i])
  }

  lemma RepeatedAt(existing: set<(Id, Id)>, taskId: Id, users: seq<Id>, i: nat)
    requires i < |users|
    requires (taskId, users[i]) in existing + (set u | u in users[..i] :: (taskId, u))
    ensures RepeatsAssignee(existing, taskId, users)
  {
    if (taskId, users[i]) !in existing {
      var u :| u in users[..i] && (taskId, u) == (taskId, users[i]);
      assert users[i] in users[..i];
    }
  }

  lemma NoRepeatExtends(existing: set<(Id, Id)>, taskId: Id, users: seq<Id>, u: Id)
    requires !RepeatsAssignee(existing, taskId, users)
    requires (taskId, u) !in existing + (set v | v in users :: (taskId, v))
    ensures !RepeatsAssignee(existing, taskId, users + [u])
  {
    var s := users + [u];
    forall i | 0 <= i < |s| ensures !((taskId, s[i]) in existing || s[i] in s[..i]) {
      if i < |users| {
        assert s[i] == users[i] && s[..i] == users[..i];
      } else {
        assert s[..i] == users;
        assert u !in users;
      }
    }
  }

  /** Scenario: a task of an in-progress status whose single subtask is done
      is stored at 100% by the task controller; listing the projects then
      overwrites the project's progress with 0. */
  method ListEndpointOverwritesProgress() returns (stored: int, listed: int)
    ensures stored == 100 && listed == 0
  {
    var s := new Store();
    s.projects := map["p" := ProjectRow("owner", 0, map[])];
    s.tasks := [TaskRow("t", "p", "write", InProgress, Medium, Some([Subtask("s", "s", true)]), None, 0, "owner")];
    s.UpdateProjectProgress("p", false);
    stored := s.projects["p"].progress;
    assert ProjectTasks(s.tasks, "p") == s.tasks;
    assert stored == 100 by {
      assert Views(s.tasks, true) == [TaskView(InProgress, Some([Subtask("s", "s", true)]))];
      assert SumCompletion(Views(s.tasks, true)) == 100 by {
        assert Views(s.tasks, true)[..0] == [];
      }
    }
    var written := s.GetProjects("owner");
    listed := s.projects["p"].progress;
    assert HasAccess(ProjectRow("owner", 100, map[]), "p", s.members, "owner");
    assert listed == 0 by {
      assert Views(s.tasks, false) == [TaskView(InProgress, None)];
      assert SumCompletion(Views(s.tasks, false)) == 0 by {
        assert Views(s.tasks, false)[..0] == [];
      }
    }
  }
}
