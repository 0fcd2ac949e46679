/** State transitions of the project board (frontend/src/components/ProjectManager.jsx):
    the subtask list with its optimistic toggle/add and "revert on error",
    the optimistic status map, the merge and delete handlers over record
    lists, kanban stepping, and attendee gathering for calendar events.
    Subtask objects are heap cells, because the component mutates them in
    place and the parent's task list holds the same objects. */
module ProjectManager {
  import opened Common

  // ------------------------------------------------------------ subtasks

  /** One subtask object; `completed` is the field the toggle mutates. */
  class SubtaskCell {
    const id: string
    const title: string
    var completed: bool

    constructor (id: string, title: string, completed: bool)
      ensures this.id == id && this.title == title && this.completed == completed
    {
      this.id, this.title, this.completed := id, title, completed;
    }
  }

  /** The values currently held by a list of cells. */
  function Values(cells: seq<SubtaskCell>): (r: seq<Subtask>)
    reads cells
    ensures |r| == |cells|
    ensures forall i :: 0 <= i < |cells| ==> r[i] == Subtask(cells[i].id, cells[i].title, cells[i].completed)
  {
    if cells == [] then []
    else [Subtask(cells[0].id, cells[0].title, cells[0].completed)] + Values(cells[1..])
  }

  /** `task.subtasks` as the component receives it: missing or falsy, an
      array of objects, a JSON string (from SQLite), or any other value. */
  datatype RawSubtasks = Absent | ArrayOf(cells: seq<SubtaskCell>) | Text(text: string) | OtherValue

  /** What parseSubtasks returns for `raw`, given JSON.parse as `parse`
      (None when it throws). An empty string is falsy. */
  ghost predicate ParsedFrom(raw: RawSubtasks, parse: string -> Option<seq<Subtask>>, cells: seq<SubtaskCell>)
    reads cells
  {
    match raw
    case ArrayOf(cs) => cells == cs
    case Text(s) => if s != "" && parse(s).Some? then Values(cells) == parse(s).value else cells == []
    case _ => cells == []
  }

  /** parseSubtasks (ProjectManager.jsx:231-242): an array is returned
      itself, not copied; a parsed string yields new objects. */
  method ParseSubtasks(raw: RawSubtasks, parse: string -> Option<seq<Subtask>>) returns (cells: seq<SubtaskCell>)
    ensures ParsedFrom(raw, parse, cells)
    ensures forall c :: c in cells && !raw.ArrayOf? ==> fresh(c)
  {
    match raw {
      case ArrayOf(cs) =>
        return cs;
      case Text(s) =>
        if s == "" || parse(s).None? {
          return [];
        }
        cells := FreshCells(parse(s).value);
      case _ =>
        return [];
    }
  }

  /** New subtask objects holding `values`, in order. */
  method FreshCells(values: seq<Subtask>) returns (cells: seq<SubtaskCell>)
    ensures Values(cells) == values
    ensures forall c :: c in cells ==> fresh(c)
  {
    cells := [];
    var i := 0;
    while i < |values|
      invariant 0 <= i <= |values|
      invariant |cells| == i
      invariant forall j :: 0 <= j < i ==> fresh(cells[j])
      invariant forall j :: 0 <= j < i ==> Subtask(cells[j].id, cells[j].title, cells[j].completed) == values[j]
    {
      var c := new SubtaskCell(values[i].id, values[i].title, values[i].completed);
      cells := cells + [c];
      i := i + 1;
    }
  }

  /** The SubtaskList component: its `task.subtasks` prop, JSON.parse, and
      the `subtasks` state. */
  class SubtaskList {
    const raw: RawSubtasks
    const parse: string -> Option<seq<Subtask>>
    var subtasks: seq<SubtaskCell>

    /** useState(parseSubtasks(task.subtasks)) (ProjectManager.jsx:244). */
    constructor (raw: RawSubtasks, parse: string -> Option<seq<Subtask>>)
      ensures this.raw == raw && this.parse == parse
      ensures ParsedFrom(raw, parse, subtasks)
    {
      this.raw := raw;
      this.parse := parse;
      new;
      subtasks := ParseSubtasks(raw, parse);
    }

    /** The "revert on error" of the handlers: the state is re-read from
        the task prop, whatever the list held before. */
    method Revert()
      modifies this`subtasks
      ensures ParsedFrom(raw, parse, subtasks)
      ensures forall c :: c in subtasks && !raw.ArrayOf? ==> fresh(c)
    {
      subtasks := ParseSubtasks(raw, parse);
    }

    /** handleToggleSubtask as written (ProjectManager.jsx:248-261):
        `[...subtasks]` copies the references, the selected object itself is
        flipped, and a failing API call re-reads `task.subtasks`. When that
        prop is an array it holds the flipped object, so the flag stays
        flipped. */
    method ToggleSubtask(index: nat, apiFails: bool)
      requires index < |subtasks|
      modifies this`subtasks, subtasks[index]
      ensures old(subtasks[index]).completed == !old(subtasks[index].completed)
      ensures !apiFails ==> subtasks == old(subtasks)
      ensures !apiFails ==> forall j :: 0 <= j < |subtasks| ==>
        subtasks[j].completed == if subtasks[j] == old(subtasks[index]) then !old(subtasks[index].completed) else old(subtasks[j].completed)
      ensures apiFails ==> ParsedFrom(raw, parse, subtasks)
    {
      var updated := subtasks;
      updated[index].completed := !updated[index].completed;
      subtasks := updated;
      if apiFails {
        Revert();
      }
    }

    /** handleToggleSubtask as evidently intended: the selected subtask is
        replaced by a flipped copy, so the objects shared with the task prop
        stay as they were and the rollback restores the list. */
    method ToggleSubtaskCopying(index: nat, apiFails: bool)
      requires index < |subtasks|
      modifies this`subtasks
      ensures !apiFails ==> (|subtasks| == |old(subtasks)| && Values(subtasks) ==
        old(Values(subtasks))[index := old(Values(subtasks))[index].(completed := !old(subtasks[index].completed))])
      ensures apiFails ==> ParsedFrom(raw, parse, subtasks)
      ensures apiFails && old(ParsedFrom(raw, parse, subtasks)) ==> Values(subtasks) == old(Values(subtasks))
    {
      var c := subtasks[index];
      ghost var before := Values(subtasks);
      var copy := new SubtaskCell(c.id, c.title, !c.completed);
      ValuesUpdate(subtasks, index, copy);
      subtasks := subtasks[index := copy];
      assert Values(subtasks) == before[index := Subtask(c.id, c.title, !c.completed)];
      if apiFails {
        Revert();
      }
    }

    /** handleAddSubtask (ProjectManager.jsx:263-283): a blank title does
        nothing; otherwise one new incomplete subtask goes at the end (its
        title untrimmed) and a failing API call re-reads the prop, which
        nothing has mutated, so the list is restored. */
    method AddSubtask(title: string, newId: string, apiFails: bool)
      modifies this`subtasks
      ensures Trim(title) == "" ==> subtasks == old(subtasks)
      ensures Trim(title) != "" && !apiFails ==>
        && |subtasks| == |old(subtasks)| + 1
        && subtasks[..|old(subtasks)|] == old(subtasks)
        && Values(subtasks) == old(Values(subtasks)) + [Subtask(newId, title, false)]
      ensures Trim(title) != "" && apiFails ==> ParsedFrom(raw, parse, subtasks)
      ensures apiFails && old(ParsedFrom(raw, parse, subtasks)) ==> Values(subtasks) == old(Values(subtasks))
    {
      if Trim(title) == "" {
        return;
      }
      ghost var before := Values(subtasks);
      var cell := new SubtaskCell(newId, title, false);
      ValuesSnoc(subtasks, cell);
      subtasks := subtasks + [cell];
      assert Values(subtasks) == before + [Subtask(newId, title, false)];
      if apiFails {
        Revert();
      }
    }
  }

  /** Appending a cell appends its value. */
  lemma ValuesSnoc(cells: seq<SubtaskCell>, c: SubtaskCell)
    ensures Values(cells + [c]) == Values(cells) + [Subtask(c.id, c.title, c.completed)]
  {
    var r := Values(cells + [c]);
    assert forall i :: 0 <= i < |cells| ==> (cells + [c])[i] == cells[i];
    assert r[|cells|] == Subtask(c.id, c.title, c.completed);
  }

  /** Replacing a cell replaces its value. */
  lemma ValuesUpdate(cells: seq<SubtaskCell>, i: nat, c: SubtaskCell)
    requires i < |cells|
    ensures Values(cells[i := c]) == Values(cells)[i := Subtask(c.id, c.title, c.completed)]
  {
  }

  /** Scenario: a task whose subtasks arrived as an array with one open
      subtask; the toggle's API call fails and the "reverted" list shows the
      subtask completed. */
  method ToggleRollbackKeepsFlip() returns (before: bool, after: bool)
    ensures !before && after
  {
    var cell := new SubtaskCell("1", "draft", false);
    var list := new SubtaskList(ArrayOf([cell]), _ => None);
    before := Values(list.subtasks)[0].completed;
    list.ToggleSubtask(0, true);
    after := Values(list.subtasks)[0].completed;
  }

  /** The same scenario with the copying toggle restores the open subtask. */
  method CopyingToggleRollbackRestores() returns (before: bool, after: bool)
    ensures !before && !after
  {
    var cell := new SubtaskCell("1", "draft", false);
    var list := new SubtaskList(ArrayOf([cell]), _ => None);
    before := Values(list.subtasks)[0].completed;
    list.ToggleSubtaskCopying(0, true);
    after := Values(list.subtasks)[0].completed;
  }

  // -------------------------------------------------- records and handlers

  /** A client-side record: its properties by name. */
  type Rec = map<string, string>

  /** `r.id`, undefined when absent. */
  function IdOf(r: Rec): Option<string> {
    if "id" in r then Some(r["id"]) else None
  }

  /** `list.map(r => r.id === target ? { ...r, ...data } : r)`: the edit
      handlers (ProjectManager.jsx:491-510). */
  function MergeMatching(list: seq<Rec>, target: Option<string>, data: Rec): (r: seq<Rec>)
    ensures |r| == |list|
  {
    if list == [] then []
    else [if IdOf(list[0]) == target then list[0] + data else list[0]] + MergeMatching(list[1..], target, data)
  }

  /** Only the records with the matching id change, and they take every
      field of `data` while keeping the fields `data` does not mention. */
  lemma {:induction false} MergeMatchingOnlyTouchesMatch(list: seq<Rec>, target: Option<string>, data: Rec)
    ensures forall i :: 0 <= i < |list| && IdOf(list[i]) != target ==> MergeMatching(list, target, data)[i] == list[i]
    ensures forall i, k :: 0 <= i < |list| && IdOf(list[i]) == target && k in data ==>
      k in MergeMatching(list, target, data)[i] && MergeMatching(list, target, data)[i][k] == data[k]
    ensures forall i, k :: 0 <= i < |list| && IdOf(list[i]) == target && k in list[i] && k !in data ==>
      k in MergeMatching(list, target, data)[i] && MergeMatching(list, target, data)[i][k] == list[i][k]
  {
    if list != [] {
      MergeMatchingOnlyTouchesMatch(list[1..], target, data);
      forall i | 1 <= i < |list| ensures MergeMatching(list, target, data)[i] == MergeMatching(list[1..], target, data)[i - 1] {
      }
    }
  }

  /** handleUpdateTaskStatus's optimistic map (ProjectManager.jsx:394-399). */
  function OptimisticStatus(tasks: seq<Rec>, taskId: Option<string>, newStatus: string): (r: seq<Rec>)
    ensures |r| == |tasks|
  {
    if tasks == [] then []
    else [if IdOf(tasks[0]) == taskId then tasks[0]["status" := newStatus] else tasks[0]] + OptimisticStatus(tasks[1..], taskId, newStatus)
  }

  /** The optimistic status change is the edit merge of the one field
      `status`: every other task, and every other field, is unchanged. */
  lemma {:induction false} OptimisticStatusIsMerge(tasks: seq<Rec>, taskId: Option<string>, newStatus: string)
    ensures OptimisticStatus(tasks, taskId, newStatus) == MergeMatching(tasks, taskId, map["status" := newStatus])
  {
    if tasks != [] {
      OptimisticStatusIsMerge(tasks[1..], taskId, newStatus);
      assert tasks[0]["status" := newStatus] == tasks[0] + map["status" := newStatus];
    }
  }

  /** `list.filter(r => r.id !== target)`: handleDeleteTeam / handleDeleteMember. */
  function RemoveMatching(list: seq<Rec>, target: Option<string>): (r: seq<Rec>)
    ensures forall x :: x in r <==> x in list && IdOf(x) != target
  {
    Filter(list, (x: Rec) => IdOf(x) != target)
  }

  /** Editing a record and then deleting it leaves what deleting alone leaves,
      as long as the edit does not change the id. */
  lemma {:induction false} RemoveAfterMerge(list: seq<Rec>, target: Option<string>, data: Rec)
    requires "id" !in data
    ensures RemoveMatching(MergeMatching(list, target, data), target) == RemoveMatching(list, target)
  {
    if list != [] {
      RemoveAfterMerge(list[1..], target, data);
      var m := MergeMatching(list, target, data);
      assert m[1..] == MergeMatching(list[1..], target, data);
      if IdOf(list[0]) == target {
        assert IdOf(list[0] + data) == IdOf(list[0]);
      }
    }
  }

  // ------------------------------------------------------ kanban stepping

  /** The columns, in order (ProjectManager.jsx:960). */
  const Columns: seq<TaskStatus> := [Todo, InProgress, Review, Done]

  function ColumnIndex(s: TaskStatus): (i: nat)
    ensures i < |Columns| && Columns[i] == s
  {
    match s
    case Todo => 0
    case InProgress => 1
    case Review => 2
    case Done => 3
  }

  /** The ← button: absent on 'todo', else the previous column. */
  function StepLeft(s: TaskStatus): Option<TaskStatus> {
    if s == Todo then None
    else var i := ColumnIndex(s); if i > 0 then Some(Columns[i - 1]) else None
  }

  /** The → button: absent on 'done', else the next column. */
  function StepRight(s: TaskStatus): Option<TaskStatus> {
    if s == Done then None
    else var i := ColumnIndex(s); if i < |Columns| - 1 then Some(Columns[i + 1]) else None
  }

  /** Each button moves exactly one column, exists everywhere except at its
      end of the board, and the two undo each other. */
  lemma KanbanSteps(s: TaskStatus)
    ensures StepLeft(s).None? <==> s == Todo
    ensures StepRight(s).None? <==> s == Done
    ensures StepLeft(s).Some? ==> ColumnIndex(StepLeft(s).value) + 1 == ColumnIndex(s)
    ensures StepRight(s).Some? ==> ColumnIndex(StepRight(s).value) == ColumnIndex(s) + 1
    ensures StepLeft(s).Some? ==> StepRight(StepLeft(s).value) == Some(s)
    ensures StepRight(s).Some? ==> StepLeft(StepRight(s).value) == Some(s)
  {
  }

  // ---------------------------------------------------- calendar attendees

  datatype UserEntry = UserEntry(id: Id, name: string, email: Option<string>)
  datatype TeamEntry = TeamEntry(id: Id, members: Option<seq<Id>>)
  datatype Attendee = Attendee(email: string, name: string)

  /** `users.find(u => u.id === id)`. */
  function FindUser(users: seq<UserEntry>, id: Id): (r: Option<UserEntry>)
    ensures r.Some? ==> r.value in users && r.value.id == id
    ensures r.Some? ==>
      (exists i :: 0 <= i < |users| && users[i] == r.value && (forall j :: 0 <= j < i ==> users[j].id != id))
    ensures r.None? ==> forall u :: u in users ==> u.id != id
  {
    if users == [] then None else if users[0].id == id then Some(users[0]) else FindUser(users[1..], id)
  }

  /** `teams.find(t => t.id === id)`. */
  function FindTeam(teams: seq<TeamEntry>, id: Id): (r: Option<TeamEntry>)
    ensures r.Some? ==> r.value in teams && r.value.id == id
    ensures r.Some? ==>
      (exists i :: 0 <= i < |teams| && teams[i] == r.value && (forall j :: 0 <= j < i ==> teams[j].id != id))
    ensures r.None? ==> forall t :: t in teams ==> t.id != id
  {
    if teams == [] then None else if teams[0].id == id then Some(teams[0]) else FindTeam(teams[1..], id)
  }

  /** The attendee a user id contributes, when the user exists with an email. */
  function AttendeeOf(users: seq<UserEntry>, id: Id): Option<Attendee> {
    var u := FindUser(users, id);
    if u.Some? && Truthy(u.value.email) then Some(Attendee(u.value.email.value, u.value.name)) else None
  }

  /** The assignees' attendees, in order, repeats kept. */
  function AssigneeAttendees(assignees: seq<Id>, users: seq<UserEntry>): seq<Attendee> {
    if assignees == [] then []
    else
      var rest := AssigneeAttendees(assignees[..|assignees| - 1], users);
      match AttendeeOf(users, assignees[|assignees| - 1])
      case Some(a) => rest + [a]
      case None => rest
  }

  /** Every assignee attendee is one of the users' attendees. */
  lemma {:induction false} AssigneesAreUsers(assignees: seq<Id>, users: seq<UserEntry>)
    ensures forall a :: a in AssigneeAttendees(assignees, users) ==> a in UserAttendees(users)
    decreases |assignees|
  {
    if assignees != [] {
      AssigneesAreUsers(assignees[..|assignees| - 1], users);
      if AttendeeOf(users, assignees[|assignees| - 1]).Some? {
        AttendeeOfUser(users, assignees[|assignees| - 1]);
      }
    }
  }

  predicate HasEmail(list: seq<Attendee>, e: string) {
    exists j :: 0 <= j < |list| && list[j].email == e
  }

  /** The members of the listed teams, team by team (missing teams and
      teams without members contribute nothing). */
  function TeamMemberIds(teamIds: seq<Id>, teams: seq<TeamEntry>): seq<Id> {
    if teamIds == [] then []
    else
      TeamMemberIds(teamIds[..|teamIds| - 1], teams) + MembersOf(FindTeam(teams, teamIds[|teamIds| - 1]))
  }

  /** One more team contributes its members after those before it. */
  lemma TeamMemberIdsStep(teamIds: seq<Id>, k: nat, teams: seq<TeamEntry>)
    requires k < |teamIds|
    ensures TeamMemberIds(teamIds[..k + 1], teams) == TeamMemberIds(teamIds[..k], teams) + MembersOf(FindTeam(teams, teamIds[k]))
  {
    assert teamIds[..k + 1][..k] == teamIds[..k];
  }

  /** Every attendee a user could contribute: its email and name. */
  function UserAttendees(users: seq<UserEntry>): set<Attendee> {
    set u | u in users && Truthy(u.email) :: Attendee(u.email.value, u.name)
  }

  /** From position `n` on, each attendee is the attendee of a member of `ids`. */
  predicate FromMembers(list: seq<Attendee>, n: nat, ids: seq<Id>, users: seq<UserEntry>) {
    forall i :: n <= i < |list| ==> exists id :: id in ids && AttendeeOf(users, id) == Some(list[i])
  }

  /** `list` after one team's members have been pushed, in order, each only
      when it has an email that no attendee has yet. */
  function NewEmails(list: seq<Attendee>, members: seq<Id>, users: seq<UserEntry>): seq<Attendee>
    decreases |members|
  {
    if members == [] then list
    else
      var before := NewEmails(list, members[..|members| - 1], users);
      var a := AttendeeOf(users, members[|members| - 1]);
      if a.Some? && !HasEmail(before, a.value.email) then before + [a.value] else before
  }

  /** `list` after the listed teams' members, team by team. */
  function TeamsAttendees(list: seq<Attendee>, teamIds: seq<Id>, teams: seq<TeamEntry>, users: seq<UserEntry>): seq<Attendee>
    decreases |teamIds|
  {
    if teamIds == [] then list
    else
      NewEmails(TeamsAttendees(list, teamIds[..|teamIds| - 1], teams, users),
                MembersOf(FindTeam(teams, teamIds[|teamIds| - 1])), users)
  }

  /** The attendees createCalendarEvent sends: the assignees', then the teams'. */
  function EventAttendeeList(assignees: seq<Id>, assignedTeams: seq<Id>, users: seq<UserEntry>, teams: seq<TeamEntry>): seq<Attendee> {
    TeamsAttendees(AssigneeAttendees(assignees, users), assignedTeams, teams, users)
  }

  /** From position `n` on, each attendee carries an email not seen before it. */
  predicate NewEmailsFrom(list: seq<Attendee>, n: nat) {
    forall i :: n <= i < |list| ==> !HasEmail(list[..i], list[i].email)
  }

  /** A user's attendee is one of the users' attendees. */
  lemma AttendeeOfUser(users: seq<UserEntry>, id: Id)
    requires AttendeeOf(users, id).Some?
    ensures AttendeeOf(users, id).value in UserAttendees(users)
  {
    var u := FindUser(users, id).value;
    assert u in users && Truthy(u.email);
  }

  /** Appending an attendee with an unseen email keeps every earlier email,
      adds its own, and keeps the tail's emails new. */
  lemma AppendNewEmail(list: seq<Attendee>, n: nat, a: Attendee)
    requires n <= |list| && NewEmailsFrom(list, n) && !HasEmail(list, a.email)
    ensures (list + [a])[..|list|] == list
    ensures NewEmailsFrom(list + [a], n)
    ensures HasEmail(list + [a], a.email)
    ensures forall e :: HasEmail(list, e) ==> HasEmail(list + [a], e)
  {
    var out := list + [a];
    assert out[..|list|] == list;
    forall e | HasEmail(list, e) ensures HasEmail(out, e) {
      var j :| 0 <= j < |list| && list[j].email == e;
      assert out[j] == list[j];
    }
    assert out[|list|] == a;
    forall i | n <= i < |out| ensures !HasEmail(out[..i], out[i].email) {
      if i < |list| {
        assert out[..i] == list[..i] && out[i] == list[i];
      }
    }
  }

  /** Pushing member m's attendee keeps every attendee after `n` one of
      the first m + 1 members'. */
  lemma AppendFromMembers(list: seq<Attendee>, n: nat, members: seq<Id>, m: nat, a: Attendee, users: seq<UserEntry>)
    requires m < |members| && AttendeeOf(users, members[m]) == Some(a)
    requires FromMembers(list, n, members[..m], users)
    ensures FromMembers(list + [a], n, members[..m + 1], users)
  {
    assert members[m] in members[..m + 1];
    forall i | n <= i < |list| + 1
      ensures exists id :: id in members[..m + 1] && AttendeeOf(users, id) == Some((list + [a])[i])
    {
      if i < |list| {
        assert (list + [a])[i] == list[i];
        var id :| id in members[..m] && AttendeeOf(users, id) == Some(list[i]);
        assert id in members[..m + 1];
      }
    }
  }

  /** The inner loop over one team's members: a member is added only when no
      attendee has that email yet. */
  method AddNewEmails(attendees: seq<Attendee>, members: seq<Id>, users: seq<UserEntry>) returns (out: seq<Attendee>)
    ensures |attendees| <= |out| && out[..|attendees|] == attendees
    ensures NewEmailsFrom(out, |attendees|)
    ensures forall i :: |attendees| <= i < |out| ==> out[i] in UserAttendees(users)
    ensures forall e :: HasEmail(attendees, e) ==> HasEmail(out, e)
    ensures Covers(out, members, users)
    ensures FromMembers(out, |attendees|, members, users)
    ensures out == NewEmails(attendees, members, users)
  {
    out := attendees;
    var m := 0;
    while m < |members|
      invariant 0 <= m <= |members|
      invariant out == NewEmails(attendees, members[..m], users)
    {
      assert members[..m + 1][..m] == members[..m];
      var a := AttendeeOf(users, members[m]);
      if a.Some? && !HasEmail(out, a.value.email) {
        out := out + [a.value];
      }
      m := m + 1;
    }
    assert members[..m] == members;
    NewEmailsShape(attendees, members, users);
    NewEmailsCover(attendees, members, users);
  }

  /** What pushing the members' new emails does to a list: it only grows at
      the end, keeps every email it had, and each pushed attendee carries an
      email not yet present. */
  lemma {:induction false} NewEmailsShape(list: seq<Attendee>, members: seq<Id>, users: seq<UserEntry>)
    ensures var out := NewEmails(list, members, users); |list| <= |out| && out[..|list|] == list
    ensures NewEmailsFrom(NewEmails(list, members, users), |list|)
    ensures forall e :: HasEmail(list, e) ==> HasEmail(NewEmails(list, members, users), e)
    decreases |members|
  {
    if members == [] {
      assert list[..|list|] == list;
    } else {
      var n := |members| - 1;
      NewEmailsShape(list, members[..n], users);
      var before := NewEmails(list, members[..n], users);
      var a := AttendeeOf(users, members[n]);
      if a.Some? && !HasEmail(before, a.value.email) {
        assert NewEmails(list, members, users) == before + [a.value];
        AppendNewEmail(before, |list|, a.value);
        assert (before + [a.value])[..|list|] == before[..|list|];
      } else {
        assert NewEmails(list, members, users) == before;
      }
    }
  }

  /** Each pushed attendee is a member's, and afterwards every member with
      an email is present. */
  lemma {:induction false} NewEmailsCover(list: seq<Attendee>, members: seq<Id>, users: seq<UserEntry>)
    ensures Covers(NewEmails(list, members, users), members, users)
    ensures FromMembers(NewEmails(list, members, users), |list|, members, users)
    decreases |members|
  {
    if members != [] {
      var n := |members| - 1;
      var init := members[..n];
      NewEmailsCover(list, init, users);
      NewEmailsShape(list, init, users);
      var before := NewEmails(list, init, users);
      var a := AttendeeOf(users, members[n]);
      assert forall id :: id in members ==> id in init || id == members[n] by {
        assert members == init + [members[n]];
      }
      if a.Some? && !HasEmail(before, a.value.email) {
        assert NewEmails(list, members, users) == before + [a.value];
        AppendNewEmail(before, |list|, a.value);
        AppendFromMembers(before, |list|, members, n, a.value, users);
        assert members[..n + 1] == members;
      } else {
        assert NewEmails(list, members, users) == before;
        assert forall id :: id in init ==> id in members;
      }
    }
  }

  /** The assignees' loop of createCalendarEvent (ProjectManager.jsx:191-197). */
  method CollectAssignees(assignees: seq<Id>, users: seq<UserEntry>) returns (attendees: seq<Attendee>)
    ensures attendees == AssigneeAttendees(assignees, users)
  {
    attendees := [];
    var i := 0;
    while i < |assignees|
      invariant 0 <= i <= |assignees|
      invariant attendees == AssigneeAttendees(assignees[..i], users)
    {
      assert assignees[..i + 1][..i] == assignees[..i];
      var a := AttendeeOf(users, assignees[i]);
      if a.Some? {
        attendees := attendees + [a.value];
      }
      i := i + 1;
    }
    assert assignees[..i] == assignees;
  }

  /** Every listed member with an attendee has its email in `list`. */
  predicate Covers(list: seq<Attendee>, ids: seq<Id>, users: seq<UserEntry>) {
    forall id :: id in ids && AttendeeOf(users, id).Some? ==> HasEmail(list, AttendeeOf(users, id).value.email)
  }

  /** The state of the gathering: `pre` first, new emails after it, only
      users' attendees, and every member of `ids` covered. */
  predicate Gathered(list: seq<Attendee>, pre: seq<Attendee>, ids: seq<Id>, users: seq<UserEntry>) {
    && |pre| <= |list| && list[..|pre|] == pre
    && NewEmailsFrom(list, |pre|)
    && (forall a :: a in list ==> a in UserAttendees(users))
    && Covers(list, ids, users)
    && FromMembers(list, |pre|, ids, users)
  }

  /** Attendee gathering in createCalendarEvent (ProjectManager.jsx:188-213):
      the assignees' attendees come first, in order and with repeats; each
      team member after them carries an email not seen before; every email
      of a listed team's member is present; and every attendee is some
      user's email and name. */
  method GatherAttendees(assignees: seq<Id>, assignedTeams: seq<Id>, users: seq<UserEntry>, teams: seq<TeamEntry>)
    returns (attendees: seq<Attendee>)
    ensures var pre := AssigneeAttendees(assignees, users);
      |pre| <= |attendees| && attendees[..|pre|] == pre
    ensures NewEmailsFrom(attendees, |AssigneeAttendees(assignees, users)|)
    ensures forall id :: id in TeamMemberIds(assignedTeams, teams) && AttendeeOf(users, id).Some? ==>
      HasEmail(attendees, AttendeeOf(users, id).value.email)
    ensures forall a :: a in attendees ==> a in UserAttendees(users)
    ensures FromMembers(attendees, |AssigneeAttendees(assignees, users)|, TeamMemberIds(assignedTeams, teams), users)
    ensures attendees == EventAttendeeList(assignees, assignedTeams, users, teams)
  {
    attendees := CollectAssignees(assignees, users);
    AssigneesAreUsers(assignees, users);
    assert attendees[..|attendees|] == attendees;
    attendees := AddTeamMembers(attendees, attendees, assignedTeams, users, teams);
  }

  /** The teams' loop of createCalendarEvent (ProjectManager.jsx:200-212). */
  method AddTeamMembers(attendees: seq<Attendee>, ghost pre: seq<Attendee>, assignedTeams: seq<Id>,
                        users: seq<UserEntry>, teams: seq<TeamEntry>) returns (out: seq<Attendee>)
    requires Gathered(attendees, pre, [], users)
    ensures Gathered(out, pre, TeamMemberIds(assignedTeams, teams), users)
    ensures out == TeamsAttendees(attendees, assignedTeams, teams, users)
  {
    out := attendees;
    var k := 0;
    while k < |assignedTeams|
      invariant 0 <= k <= |assignedTeams|
      invariant out == TeamsAttendees(attendees, assignedTeams[..k], teams, users)
      invariant Gathered(out, pre, TeamMemberIds(assignedTeams[..k], teams), users)
    {
      TeamMemberIdsStep(assignedTeams, k, teams);
      assert assignedTeams[..k + 1][..k] == assignedTeams[..k];
      out := AddTeam(out, pre, TeamMemberIds(assignedTeams[..k], teams), FindTeam(teams, assignedTeams[k]), users);
      k := k + 1;
    }
    assert assignedTeams[..k] == assignedTeams;
  }

  /** The members a found team contributes. */
  function MembersOf(team: Option<TeamEntry>): seq<Id> {
    if team.Some? && team.value.members.Some? then team.value.members.value else []
  }

  /** One pass of the teams' loop (ProjectManager.jsx:202-211). */
  method AddTeam(attendees: seq<Attendee>, ghost pre: seq<Attendee>, ghost done: seq<Id>, team: Option<TeamEntry>,
                 users: seq<UserEntry>) returns (out: seq<Attendee>)
    requires Gathered(attendees, pre, done, users)
    ensures Gathered(out, pre, done + MembersOf(team), users)
    ensures out == NewEmails(attendees, MembersOf(team), users)
  {
    if team.Some? && team.value.members.Some? {
      out := AddNewEmails(attendees, team.value.members.value, users);
      GatheredStep(pre, attendees, out, done, team.value.members.value, users);
    } else {
      out := attendees;
      assert done + [] == done;
    }
  }

  /** One team's members added by AddNewEmails keep the gathering state. */
  lemma GatheredStep(pre: seq<Attendee>, before: seq<Attendee>, after: seq<Attendee>, ids: seq<Id>, extra: seq<Id>,
                     users: seq<UserEntry>)
    requires Gathered(before, pre, ids, users)
    requires |before| <= |after| && after[..|before|] == before
    requires NewEmailsFrom(after, |before|)
    requires forall i :: |before| <= i < |after| ==> after[i] in UserAttendees(users)
    requires forall e :: HasEmail(before, e) ==> HasEmail(after, e)
    requires Covers(after, extra, users)
    requires FromMembers(after, |before|, extra, users)
    ensures Gathered(after, pre, ids + extra, users)
  {
    forall i | |pre| <= i < |after|
      ensures exists id :: id in ids + extra && AttendeeOf(users, id) == Some(after[i])
    {
      if i < |before| {
        assert after[i] == before[i];
        var id :| id in ids && AttendeeOf(users, id) == Some(before[i]);
        assert id in ids + extra;
      } else {
        var id :| id in extra && AttendeeOf(users, id) == Some(after[i]);
        assert id in ids + extra;
      }
    }
    ExtendKeeps(pre, before, after, users);
    MembersCovered(ids, extra, before, after, users);
  }

  /** Emails that were present stay present, so members covered before the
      extension and members it covered are covered after it. */
  lemma MembersCovered(ids: seq<Id>, extra: seq<Id>, before: seq<Attendee>, after: seq<Attendee>, users: seq<UserEntry>)
    requires forall id :: id in ids && AttendeeOf(users, id).Some? ==> HasEmail(before, AttendeeOf(users, id).value.email)
    requires forall e :: HasEmail(before, e) ==> HasEmail(after, e)
    requires forall id :: id in extra && AttendeeOf(users, id).Some? ==> HasEmail(after, AttendeeOf(users, id).value.email)
    ensures forall id :: id in ids + extra && AttendeeOf(users, id).Some? ==> HasEmail(after, AttendeeOf(users, id).value.email)
  {
  }

  /** An extension by AddNewEmails keeps the assignees' prefix, the new-email
      tail and the users' attendees of the list it extends. */
  lemma ExtendKeeps(pre: seq<Attendee>, before: seq<Attendee>, after: seq<Attendee>, users: seq<UserEntry>)
    requires |pre| <= |before| && before[..|pre|] == pre
    requires NewEmailsFrom(before, |pre|)
    requires forall a :: a in before ==> a in UserAttendees(users)
    requires |before| <= |after| && after[..|before|] == before
    requires NewEmailsFrom(after, |before|)
    requires forall i :: |before| <= i < |after| ==> after[i] in UserAttendees(users)
    ensures after[..|pre|] == pre
    ensures NewEmailsFrom(after, |pre|)
    ensures forall a :: a in after ==> a in UserAttendees(users)
  {
    assert after[..|before|][..|pre|] == before[..|pre|];
    forall i | |pre| <= i < |before| ensures !HasEmail(after[..i], after[i].email) {
      assert after[..i] == before[..i] && after[i] == before[i];
    }
    forall a | a in after ensures a in UserAttendees(users) {
      var j :| 0 <= j < |after| && after[j] == a;
      if j < |before| { assert after[j] == before[j]; }
    }
  }
}
