# PMHub2 core logic in Dafny

This project models the sequential logic at the centre of PMHub2, a project-management application built on an Express/Sequelize backend, a socket.io relay and a React frontend with a Google Workspace panel. The model covers:

- **Progress aggregation.** Per-task completion from status or subtasks, and a project's progress as the rounded mean of its tasks. This is module `Progress`, with the task- and project-controller write-backs in `Backend.Store`.
- **Backend decision rules.** The `protect`/`authorize` middleware (`Auth`), and the guard chains of the task, project and team controllers. They run over an in-memory store of rows (`Backend.Store`, `Teams.TeamDirectory`).
- **The socket server.** It covers the handshake gate, the `connectedUsers` registry, project rooms and the event-renaming relay (`Realtime.RelayServer`, with an outbox of emissions).
- **Client-side state transitions.**
  - The subtask list with shared subtask objects, the optimistic and merge/remove list updates, kanban stepping and calendar attendee gathering (`ProjectManager`).
  - The Drive browser's breadcrumb, sort cycle and paging (`DriveTab.DriveBrowser`).
  - The workspace theme cycle (`Workspace.Panel`).
- **String builders and parsers.**
  - Drive query and `orderBy`, and the Gmail folder query, header lookup, body selection and sender/subject display (`DriveTab`, `GmailTab`).
  - The Gmail `raw` message with its base64url encoding (`GoogleApis`).
  - Base 64 itself as defined in section 4 of RFC 4648 (`Base64`), and the URL-safe alphabet of section 5.
- **Dashboard analytics** as exact rationals (`Analytics`).

Foreign code enters as parameters: `verifyToken`, the user lookup, `JSON.parse`, `atob`, `localeCompare`, the folders-first `Array.prototype.sort` result, `matchMedia` (as a `prefersDark` flag), the current time and the process time zone. Database failures that the source catches enter as `dbFails`/`apiFails` flags.

## Model

| member | source | states |
|---|---|---|
| Progress.RoundHalfUp | backend/controllers/taskController.js:14 | `Math.round` of num/den for non-negative values: the unique r with r − ½ ≤ num/den < r + ½ |
| Progress.CompletedCount | backend/controllers/taskController.js:13 | the number of completed subtasks, never more than there are subtasks |
| Progress.TaskCompletion | backend/controllers/taskController.js:6-15 | calculateTaskCompletion: without subtasks 100 for 'done' and 0 otherwise; with subtasks the rounded share of completed ones (its range and both cases are the lemmas below) |
| Progress.TaskCompletionBounds | backend/controllers/taskController.js:6-15 | a task's completion lies in [0, 100] |
| Progress.NoSubtasksFollowsStatus | backend/controllers/taskController.js:7-10 | with subtasks absent or empty, completion is 100 iff the status is 'done' and 0 iff it is not |
| Progress.WithSubtasksIgnoresStatus | backend/controllers/taskController.js:12-14 | with at least one subtask, completion is round(100·completed/total), and changing the status does not change it |
| Progress.SumCompletion | backend/controllers/projectController.js:22-25 | the summed completions of n tasks never exceed 100·n |
| Progress.ProjectProgress | backend/controllers/projectController.js:18-28 | calculateProgress: 0 for no tasks, else the rounded mean completion (characterized by ProjectProgressIsRoundedMean) |
| Progress.ProjectProgressIsRoundedMean | backend/controllers/projectController.js:18-28 | progress is 0 for no tasks; otherwise it is the round-half-up mean of the task completions, and it never exceeds 100 |
| Progress.SumCompletionRotate | backend/controllers/projectController.js:22-25 | the sum does not depend on where the first task is taken from |
| Progress.CalculateProgress | backend/controllers/taskController.js:28-44 | the forEach accumulation loop computes exactly the rounded-mean progress, at most 100 |
| Progress.TwoOfThreeSubtasks | backend/controllers/taskController.js:12-14 | 2 of 3 subtasks done gives 67 and 1 of 3 gives 33, whatever the status |
| Progress.HundredAndFiftyGiveSeventyFive | backend/controllers/projectController.js:18-28 | a done task and a half-done task give progress 75 |
| Backend.TaskIndex | backend/controllers/taskController.js:275-277 | `findByPk`: the index of the row with that id, or none exists |
| Backend.ProjectTasks | backend/controllers/taskController.js:20-26 | exactly the rows of the project |
| Backend.OtherProjectsTasks | backend/controllers/projectController.js:293 | exactly the rows of other projects; unique ids stay unique |
| Backend.StatusOnlySum | backend/controllers/projectController.js:48-52 | without subtasks loaded, the summed completion is 100 times the number of done tasks |
| Backend.ListedProgressIsDoneShare | backend/controllers/projectController.js:48-73 | the list endpoint's progress is round(100·done/count), with subtasks ignored |
| Backend.ApplyTaskPatch | backend/controllers/taskController.js:288 | `task.update(req.body)`: each field present in the body overwrites its column, the others stay |
| Backend.UpdatedTask | backend/controllers/taskController.js:287-294 | the patched row, with completedDate set to now on a transition into 'done' (CompletedDateRule) |
| Backend.CompletedDateRule | backend/controllers/taskController.js:287-294 | completedDate is stamped with now exactly on a transition into 'done'; otherwise it is kept, never cleared |
| Backend.HasAccess | backend/controllers/projectController.js:131-132 | getProject's access rule: the owner or any member |
| Backend.CanUpdateProject | backend/controllers/projectController.js:230-240 | updateProject's rule: the owner, or a member whose role is 'owner' or 'admin' |
| Backend.CanAddMember | backend/controllers/projectController.js:325-335 | addMember's rule: the owner, or a member whose role is 'admin' |
| Backend.ApplyProjectPatch | backend/controllers/projectController.js:243 | `project.update(req.body)`: owner and progress overwritten when present, other attributes merged |
| Backend.AddMemberStricterThanUpdate | backend/controllers/projectController.js:229-243 | whoever may add a member may update the project; a non-owner with membership role 'owner' may update but not add members |
| Backend.Store.UpdateProjectProgress | backend/controllers/taskController.js:18-48 | a missing project or a failed write changes nothing (the error is swallowed); otherwise only that project's progress becomes the subtask-aware rounded mean of its tasks |
| Backend.Store.CreateTask | backend/controllers/taskController.js:162-268 | 404 and no change for a missing project; 500 exactly when an assignee repeats, leaving the row and the earlier assignee rows but no recompute; 201 adds one row and its assignee rows and recomputes progress |
| Backend.Store.UpdateTask | backend/controllers/taskController.js:273-329 | 404 and no change for a missing task; otherwise 200, the row becomes the patched row with the completedDate rule, and the progress of its new project is recomputed |
| Backend.Store.DeleteTask | backend/controllers/taskController.js:334-377 | 404 and no change for a missing task; otherwise 200, exactly that row goes, and the project captured before the delete is recomputed |
| Backend.Store.AddAssignee | backend/controllers/taskController.js:382-430 | 404 for a missing task; 400 and no row for an existing pair; otherwise 200 and exactly one new pair |
| Backend.Store.DeleteComment | backend/controllers/taskController.js:494-526 | 404 for a missing comment; 403 unless the requester is the author; only the author's request removes it |
| Backend.Store.RefreshListed | backend/controllers/projectController.js:63-73 | a visible project is written only when the computed value differs from the stored one, and afterwards holds the computed value |
| Backend.Store.GetProjects | backend/controllers/projectController.js:33-89 | as written: each visible project's progress becomes the status-only value, and a write happens exactly when that value differs |
| Backend.Store.GetProjectsWithSubtasks | backend/controllers/projectController.js:48-73 | corrected: on a store whose progress is consistent, listing writes nothing |
| Backend.Store.GetProject | backend/controllers/projectController.js:94-158 | 404 for a missing project; 403 unless owner or member; otherwise 200 and the progress is recomputed from full tasks |
| Backend.Store.UpdateProject | backend/controllers/projectController.js:218-256 | 404; 403 unless the owner, or a member with role 'owner' or 'admin'; 200 writes the body verbatim, progress included |
| Backend.Store.DeleteProject | backend/controllers/projectController.js:261-307 | only the ownerId may delete; the project, its tasks and its memberships go; others get 404 or 403 and nothing changes |
| Backend.Store.AddMember | backend/controllers/projectController.js:312-374 | 404; 403 unless the owner or an 'admin' member; 400 for an existing membership; otherwise exactly one membership with the given role or 'member' |
| Backend.Store.RemoveMember | backend/controllers/projectController.js:379-424 | only the ownerId may remove; removing the owner is refused with 400; otherwise exactly that membership goes |
| Backend.RemoveAt | backend/controllers/taskController.js:361 | destroying one row of a table with unique ids removes exactly the rows with that id |
| Backend.NoRepeatExtends | backend/controllers/taskController.js:188-193 | a list of assignees with no repeat extends by a user not yet present |
| Backend.ListEndpointOverwritesProgress | backend/controllers/projectController.js:48-73 | an in-progress task whose only subtask is done: 100 is stored, then listing writes 0 |
| Auth.FirstSpace | backend/middleware/auth.js:10 | the index of the first space, or none when the string has no space |
| Auth.SecondField | backend/middleware/auth.js:10 | `split(' ')[1]`: absent iff there is no space, and never containing a space |
| Auth.SecondFieldOfBearer | backend/middleware/auth.js:10 | for "Bearer " + t, the token is t |
| Auth.Protect | backend/middleware/auth.js:4-50 | next is called iff the header starts with 'Bearer', the token verifies, and the user exists and is active; req.user is then the user without secrets; a refusal is a single 401 |
| Auth.ProtectAnswersOnce | backend/middleware/auth.js:4-50 | when verification rejects every falsy token, a request is either passed on with no reply or answered once |
| Auth.AcceptedEmptyTokenAnswersTwice | backend/middleware/auth.js:7-49 | the header "Bearer " with a verifier that accepts the empty token passes the request on and also answers 401 |
| Auth.Authorize | backend/middleware/auth.js:52-61 | passes iff the user's role is among the roles, otherwise 403 |
| Auth.AuthorizeMessageNamesRole | backend/middleware/auth.js:54-58 | two refused users with different roles get different messages |
| Realtime.RoomOfInjective | backend/server.js:157-173 | 'project:' + id names distinct ids distinctly; an undefined id names the room 'project:undefined' |
| Realtime.RelayTable | backend/server.js:176-237 | the renaming table; the room is the event's project room and the author is always the sender |
| Realtime.RelayKeepsKinds | backend/server.js:176-237 | distinct inbound kinds give distinct outbound names |
| Realtime.Handshake | backend/server.js:110-139 | admitted iff a token is given, verifies and names an existing user; the attached user carries that user's id, name, email and avatar; a missing token, a falsy decode and a missing user get their own refusal messages |
| Realtime.InactiveUserAdmittedBySocket | backend/server.js:110-139 | an inactive user is admitted by the socket gate but refused by `protect` |
| Realtime.RelayServer.constructor | backend/server.js:141-148 | no sockets, registry entries, rooms or emissions |
| Realtime.RelayServer.Connect | backend/server.js:141-155 | the registry entry for the user id is set, overwriting an earlier one, and user:online goes to every other socket |
| Realtime.RelayServer.Accept | backend/server.js:109-155 | the gate decides first: an admitted socket is connected with the user the gate attached, exactly as Connect states; a refused one changes nothing |
| Realtime.RelayServer.Join | backend/server.js:157-167 | the socket joins the project room; only the other members are told |
| Realtime.RelayServer.Leave | backend/server.js:170-173 | the socket leaves the room silently |
| Realtime.RelayServer.Relay | backend/server.js:176-237 | one emission, renamed, to the room minus the sender; the socket and room invariant is kept |
| Realtime.RelayServer.Disconnect | backend/server.js:240-250 | the socket leaves every room, the user's registry entry is deleted, and user:offline goes to the remaining sockets |
| Realtime.TwoTabsOneCloses | backend/server.js:240-250 | two tabs of one user, first closes: the second is still connected, the user is no longer registered, and offline was broadcast |
| Realtime.Register | backend/server.js:145-148 | corrected registry: the user's sockets become their earlier sockets plus the new one, every other user keeps theirs, and no user is left with an empty set |
| Realtime.UnregisterRemovesOne | backend/server.js:240-250 | corrected: only the closing socket is removed, and offline is reported iff it was the user's last |
| Realtime.TwoTabsStayOnline | backend/server.js:240-250 | corrected: closing one of two tabs keeps the user online |
| Teams.MergeTeam | backend/controllers/teamController.js:97-101 | the row updateTeam writes (its per-field rules are TeamMergeRules) |
| Teams.TeamMergeRules | backend/controllers/teamController.js:97-101 | name and color survive a falsy value, description is replaced whenever defined, and a new team's color defaults to '#60a5fa' (creation, line 42) |
| Teams.MergeTeamIdempotent | backend/controllers/teamController.js:97-101 | sending the same update twice equals sending it once |
| Teams.MergeUser | backend/controllers/teamController.js:209-214 | the row updateUser writes (its per-field rules are UserMergeRules) |
| Teams.UserMergeRules | backend/controllers/teamController.js:209-214 | name, email and role survive falsy input, avatar is replaced when defined, and password, tokens and isActive are untouched |
| Teams.FirstRepeat | backend/controllers/teamController.js:48-53 | the first position whose user already occurs earlier, or none when the list has no repeat |
| Teams.TeamDirectory.InsertMembers | backend/controllers/teamController.js:104-115 | the insert loop adds one row per user and stops at the first repeat, keeping the rows before it (the same loop runs on creation, lines 47-54) |
| Teams.TeamDirectory.CreateTeam | backend/controllers/teamController.js:35-79 | the team row with default color; membership rows only for an array; 500 exactly on a repeated member, leaving the team row and the membership rows inserted before the repeat |
| Teams.TeamDirectory.UpdateTeam | backend/controllers/teamController.js:84-140 | 404 and no change for a missing team; otherwise the merged row, with a members array replacing membership wholesale and anything else leaving it untouched; on a repeated member, 500 with the old rows destroyed and only the rows before the repeat inserted |
| Teams.TeamDirectory.DeleteTeam | backend/controllers/teamController.js:145-169 | 404 and no change for a missing team; otherwise the team and its membership rows go |
| Teams.TeamDirectory.UpdateUser | backend/controllers/teamController.js:196-233 | 404 and no change for a missing user; otherwise the merged user, and the response shows only id, name, email, avatar and role |
| ProjectManager.Values | frontend/src/components/ProjectManager.jsx:229-244 | the subtask values the shared cells currently hold |
| ProjectManager.ParseSubtasks | frontend/src/components/ProjectManager.jsx:231-242 | absent gives [], an array gives its own cells, a string gives the parse result or [], and anything else gives []; non-array input gives fresh cells |
| ProjectManager.SubtaskList.constructor | frontend/src/components/ProjectManager.jsx:244 | the state starts as the parse of the task's subtasks |
| ProjectManager.SubtaskList.ToggleSubtask | frontend/src/components/ProjectManager.jsx:248-261 | as written: the shared cell's flag is flipped in place, and on failure the list is re-parsed from the same cells |
| ProjectManager.SubtaskList.ToggleSubtaskCopying | frontend/src/components/ProjectManager.jsx:248-261 | corrected: exactly subtask i flips; a failed call re-reads the parse of the prop, which restores the previous values whenever the state was that parse before the call |
| ProjectManager.SubtaskList.Revert | frontend/src/components/ProjectManager.jsx:259 | the rollback leaves the state equal to the parse of the task prop, with fresh cells unless the prop is an array (both handlers, lines 259 and 281) |
| ProjectManager.SubtaskList.AddSubtask | frontend/src/components/ProjectManager.jsx:263-283 | a blank title does nothing; otherwise one incomplete subtask is appended after unchanged entries; a failure re-reads the parse of the prop, which restores the previous values whenever the state was that parse before the call |
| ProjectManager.ToggleRollbackKeepsFlip | frontend/src/components/ProjectManager.jsx:233-259 | toggling subtask 0 of an array input with a failing call leaves it flipped |
| ProjectManager.CopyingToggleRollbackRestores | frontend/src/components/ProjectManager.jsx:249-259 | with copied cells the same scenario restores the flag |
| ProjectManager.MergeMatching | frontend/src/components/ProjectManager.jsx:491-510 | `map(r => r.id === id ? {...r, ...data} : r)`: one output record per input record |
| ProjectManager.MergeMatchingOnlyTouchesMatch | frontend/src/components/ProjectManager.jsx:491-510 | records with another id are unchanged; the matching record takes the new fields and keeps the others |
| ProjectManager.OptimisticStatus | frontend/src/components/ProjectManager.jsx:394-399 | the optimistic status map: one output task per input task |
| ProjectManager.OptimisticStatusIsMerge | frontend/src/components/ProjectManager.jsx:394-399 | the optimistic update is the merge of {status} into the matching task only |
| ProjectManager.RemoveMatching | frontend/src/components/ProjectManager.jsx:546-558 | `filter` on the id: exactly the records with another id remain, in their order (see Common.FilterAppend) |
| ProjectManager.RemoveAfterMerge | frontend/src/components/ProjectManager.jsx:546-558 | deleting after an edit that does not touch the id gives the same list as deleting directly (the edit handlers are at lines 491-510) |
| ProjectManager.ColumnIndex | frontend/src/components/ProjectManager.jsx:960 | each status has its place in [todo, in-progress, review, done] |
| ProjectManager.KanbanSteps | frontend/src/components/ProjectManager.jsx:1070-1099 | ← moves one column back and → one forward; there is no ← on todo and no → on done; the two steps undo each other |
| ProjectManager.FindUser | frontend/src/components/ProjectManager.jsx:192-206 | `find` by id: the first user with that id, or none exists |
| ProjectManager.FindTeam | frontend/src/components/ProjectManager.jsx:202 | `find` by id: the first team with that id, or none exists |
| ProjectManager.NewEmails | frontend/src/components/ProjectManager.jsx:205-210 | the reference for one team: members pushed in order, each only when it has an email no attendee has yet |
| ProjectManager.TeamsAttendees | frontend/src/components/ProjectManager.jsx:199-212 | the reference for the teams' loop: NewEmails team after team, in the order of assignedTeams |
| ProjectManager.EventAttendeeList | frontend/src/components/ProjectManager.jsx:188-213 | the reference for the whole gathering: the assignees' attendees, then TeamsAttendees |
| ProjectManager.AddNewEmails | frontend/src/components/ProjectManager.jsx:205-210 | the result is `NewEmails`, the member-by-member reference; the list only grows at the end, each added attendee's email was not yet present and is the attendee of one of the members, and every member with an email ends up present |
| ProjectManager.NewEmailsShape | frontend/src/components/ProjectManager.jsx:205-210 | the reference keeps the starting list as a prefix and every email in it, and every attendee it adds has an email not seen before |
| ProjectManager.NewEmailsCover | frontend/src/components/ProjectManager.jsx:205-210 | the reference ends with every member's email present, and every attendee it adds is the attendee of one of the members |
| ProjectManager.AppendNewEmail | frontend/src/components/ProjectManager.jsx:207-209 | pushing an attendee with an unseen email keeps the earlier list and emails, adds its email, and keeps the tail's emails new |
| ProjectManager.CollectAssignees | frontend/src/components/ProjectManager.jsx:191-197 | the loop yields each assignee's attendee in order, repeats kept, absent users and users without email skipped |
| ProjectManager.AssigneesAreUsers | frontend/src/components/ProjectManager.jsx:191-197 | every assignee attendee is some user's email and name |
| ProjectManager.GatheredStep | frontend/src/components/ProjectManager.jsx:199-212 | one more team's pass keeps the assignees first, the new-email tail and the users' attendees, and covers the team's members too |
| ProjectManager.AddTeam | frontend/src/components/ProjectManager.jsx:202-211 | the result is `NewEmails` over the team's members; a found team with members keeps the gathering state and covers its members; a missing team or one without members changes nothing |
| ProjectManager.AddTeamMembers | frontend/src/components/ProjectManager.jsx:200-212 | the result is `TeamsAttendees`, team after team; the teams' loop keeps the assignees first, adds only new emails of members of the listed teams, and covers every member of every listed team |
| ProjectManager.GatherAttendees | frontend/src/components/ProjectManager.jsx:188-213 | the result is `EventAttendeeList`; assignees with an email come first in order without dedup; after them come only attendees of members of the listed teams, each added only when its email is new, and every member with an email is present at the end |
| Analytics.BucketsPartition | frontend/src/components/AnalyticsDashboard.jsx:91-95 | the four status buckets are disjoint, and they sum to the total when every status is one of the four |
| Analytics.CompletionRateRange | frontend/src/components/AnalyticsDashboard.jsx:96 | 0 with no tasks, within [0, 100], and 100 iff every task is done |
| Analytics.OnTimeCount | frontend/src/components/AnalyticsDashboard.jsx:99-101 | on-time tasks are among the done tasks |
| Analytics.AccurateCount | frontend/src/components/AnalyticsDashboard.jsx:105-109 | accurately estimated tasks are among the done tasks |
| Analytics.RatesAreGuarded | frontend/src/components/AnalyticsDashboard.jsx:102-110 | both rates lie in [0, 100] and are 0 when no task is done |
| Analytics.AccuracyNeedsBothHours | frontend/src/components/AnalyticsDashboard.jsx:105-109 | a missing or zero estimate or actual is never accurate; an exact estimate always is |
| Analytics.AccuracyBoundary | frontend/src/components/AnalyticsDashboard.jsx:105-109 | 20 % over the estimate counts, 25 % does not |
| Analytics.DefectRate | frontend/src/components/AnalyticsDashboard.jsx:157 | review tasks / max(total, 1) · 100 (range in DefectRateRange) |
| Analytics.DefectRateRange | frontend/src/components/AnalyticsDashboard.jsx:157 | 0 with no tasks and within [0, 100] |
| Analytics.ProcessEfficiency | frontend/src/components/AnalyticsDashboard.jsx:159-160 | completion share × on-time rate × estimation rate, 0 without tasks (range in ProcessEfficiencyRange) |
| Analytics.ProcessEfficiencyRange | frontend/src/components/AnalyticsDashboard.jsx:159-160 | 0 with no tasks and never above the completion rate |
| Analytics.ChartsOmitEmptySlices | frontend/src/components/AnalyticsDashboard.jsx:125-138 | a slice is shown iff its count is positive; no tasks show no slices |
| Analytics.Truncate | frontend/src/components/AnalyticsDashboard.jsx:142 | `substring(0, 15)` plus '...' beyond 15 characters (shape in TruncateShape; UTF-16 counting left out) |
| Analytics.TruncateShape | frontend/src/components/AnalyticsDashboard.jsx:142 | names of up to 15 characters are kept; longer ones become their first 15 characters and '...' |
| Analytics.ProgressData | frontend/src/components/AnalyticsDashboard.jsx:141-145 | one bar per project: truncated name, progress or 0, and the project's task count |
| Analytics.ProgressBarsShape | frontend/src/components/AnalyticsDashboard.jsx:141-145 | one bar per project, progress defaults to 0, and projects with the same id show the same task count |
| Analytics.ProgressBarsCountTasks | frontend/src/components/AnalyticsDashboard.jsx:145 | for projects with distinct ids the bars together count at most every task, and exactly every task when each belongs to a listed project |
| Analytics.ProjectCountsDisjoint | frontend/src/components/AnalyticsDashboard.jsx:113-116 | the four project status counts sum to at most the number of projects |
| Analytics.PriorityCountsDisjoint | frontend/src/components/AnalyticsDashboard.jsx:119-122 | the four priority counts sum to at most the number of tasks |
| DriveTab.Query | frontend/src/components/workspace/DriveTab.jsx:44-51 | the listing query: parents clause for a truthy folder or 'root', trashed=false, and a name clause for a search (QuerySearchClause) |
| DriveTab.QuerySearchClause | frontend/src/components/workspace/DriveTab.jsx:44-51 | the name clause is appended exactly for a non-empty search, and a falsy folder is the root |
| DriveTab.OrderBy | frontend/src/components/workspace/DriveTab.jsx:53-59 | the orderBy string for a sort state (OrderByIsValid) |
| DriveTab.OrderByIsValid | frontend/src/components/workspace/DriveTab.jsx:53-59 | one of the four Drive orderings; foldersFirst falls back to 'modifiedTime desc'; otherwise the order is honoured |
| DriveTab.FoldersComeFirst | frontend/src/components/workspace/DriveTab.jsx:67-75 | in a list sorted by the comparator every folder precedes every file, and entries of one kind are in name order |
| DriveTab.CompareAntisymmetric | frontend/src/components/workspace/DriveTab.jsx:67-75 | the comparator is antisymmetric when localeCompare is |
| DriveTab.FindCrumb | frontend/src/components/workspace/DriveTab.jsx:144 | `findIndex`: the first crumb with the id, or none exists |
| DriveTab.NavigateKeepsPath | frontend/src/components/workspace/DriveTab.jsx:140-155 | the root stays first and the path ends at the current folder; a known id cuts back to it, and a new id appends exactly one crumb |
| DriveTab.RootResetsPath | frontend/src/components/workspace/DriveTab.jsx:144-148 | navigating to the root leaves only 'My Drive' |
| DriveTab.BackUndoesForward | frontend/src/components/workspace/DriveTab.jsx:143-151 | opening a new folder and going back to the previous one restores the path |
| DriveTab.NextSort | frontend/src/components/workspace/DriveTab.jsx:180-195 | cycleSort's transition (the cycle is SortCycle) |
| DriveTab.SortCycle | frontend/src/components/workspace/DriveTab.jsx:180-195 | every state enters the four-state cycle after one step; four steps return, fewer do not |
| DriveTab.SortLabel | frontend/src/components/workspace/DriveTab.jsx:197-201 | getSortLabel for each sort state (SortLabelsDistinct) |
| DriveTab.SortLabelsDistinct | frontend/src/components/workspace/DriveTab.jsx:197-201 | distinct states of the cycle show distinct labels |
| DriveTab.StaleOrderDiffers | frontend/src/components/workspace/DriveTab.jsx:180-195 | outside foldersFirst, the request built from the old state orders differently from the new state |
| DriveTab.TokenOf | frontend/src/components/workspace/DriveTab.jsx:129-130 | a token is kept iff it is truthy, so hasMore holds iff a next page token came back |
| DriveTab.DriveBrowser.constructor | frontend/src/components/workspace/DriveTab.jsx:5-23 | the initial state: no files, newest first, path [My Drive] |
| DriveTab.DriveBrowser.LoadFiles | frontend/src/components/workspace/DriveTab.jsx:36-87 | the request's query and orderBy; a listing replaces the files and sets the token; a failure keeps the files, clears the token and records the message |
| DriveTab.DriveBrowser.Refresh | frontend/src/components/workspace/DriveTab.jsx:36-87 | a reload with the current sort state |
| DriveTab.DriveBrowser.SetSearch | frontend/src/components/workspace/DriveTab.jsx:359 | the search field takes the typed text |
| DriveTab.DriveBrowser.Navigate | frontend/src/components/workspace/DriveTab.jsx:140-155 | the current folder is a no-op; otherwise the new path and current folder, and the reload's request, files, token and error as Refresh states them (the reload effect is at lines 31-34) |
| DriveTab.DriveBrowser.BeginLoadMore | frontend/src/components/workspace/DriveTab.jsx:89-113 | no request without a token or while loading; otherwise a request for the next page, with the click's sort key recorded for the page's arrival |
| DriveTab.DriveBrowser.FinishLoadMore | frontend/src/components/workspace/DriveTab.jsx:114-137 | the page is appended after the files shown now, folder-sorted only when the sort key of the click (recorded by BeginLoadMore) was foldersFirst; hasMore follows the new token; a failure keeps files and token and records the message; loading ends |
| DriveTab.DriveBrowser.CycleSort | frontend/src/components/workspace/DriveTab.jsx:180-195 | as written: the state advances but the reload uses the previous state's orderBy |
| DriveTab.DriveBrowser.CycleSortFresh | frontend/src/components/workspace/DriveTab.jsx:180-195 | corrected: the reload uses the new state's orderBy |
| DriveTab.FirstSortClick | frontend/src/components/workspace/DriveTab.jsx:180-201 | the first click shows "Name (A-Z)" but requests "modifiedTime desc" |
| DriveTab.SortChangedWhileLoading | frontend/src/components/workspace/DriveTab.jsx:89-137 | a page requested under name order arrives after the sort was cycled to foldersFirst and is shown in the API's order, unsorted |
| DriveTab.DoubleLoadMore | frontend/src/components/workspace/DriveTab.jsx:89-90 | a second load-more while the first is pending sends nothing |
| GmailTab.FolderQueries | frontend/src/components/workspace/GmailTab.jsx:40-51 | a search is used verbatim; without one each known folder has its own operator and others list everything |
| GmailTab.Lower | frontend/src/components/workspace/GmailTab.jsx:95 | the string lower-cased character by character |
| GmailTab.FindHeader | frontend/src/components/workspace/GmailTab.jsx:95 | the first header whose name matches ignoring case, or none exists |
| GmailTab.GetEmailHeader | frontend/src/components/workspace/GmailTab.jsx:94-97 | getEmailHeader: '' without headers, else the first case-insensitive match's value or '' (HeaderLookup) |
| GmailTab.HeaderLookup | frontend/src/components/workspace/GmailTab.jsx:94-97 | case-insensitive; the first match's value; '' when headers are absent or none matches |
| GmailTab.FromIgnoresCase | frontend/src/components/workspace/GmailTab.jsx:94-97 | "From" and "from" read the same header |
| GmailTab.FromUrlSafe | frontend/src/components/workspace/GmailTab.jsx:101-107 | every '-' becomes '+' and every '_' becomes '/', and all else is kept |
| GmailTab.FirstPlainPart | frontend/src/components/workspace/GmailTab.jsx:105 | the first text/plain part, or none exists |
| GmailTab.GetEmailBody | frontend/src/components/workspace/GmailTab.jsx:99-112 | getEmailBody: the payload's own data, else the first text/plain part's, mapped from the URL-safe alphabet and decoded through `atob`; 'No message body' when neither has data (BodyConsultsFirstPlainPart) |
| GmailTab.BodyConsultsFirstPlainPart | frontend/src/components/workspace/GmailTab.jsx:99-112 | the body depends only on the payload's own data and the first text/plain part |
| GmailTab.LaterPlainPartIgnored | frontend/src/components/workspace/GmailTab.jsx:104-108 | a data-less first text/plain part hides a later one that has data |
| GmailTab.BeforeFirst | frontend/src/components/workspace/GmailTab.jsx:286 | the longest prefix without the separator |
| GmailTab.SenderDisplay | frontend/src/components/workspace/GmailTab.jsx:286 | `from.split('<')[0].trim()` (SenderShowsName) |
| GmailTab.SenderShowsName | frontend/src/components/workspace/GmailTab.jsx:286 | "Name <address>" shows the trimmed name; a bare value is shown trimmed |
| GmailTab.MissingSubjectShown | frontend/src/components/workspace/GmailTab.jsx:295-314 | a missing subject shows '(no subject)', and the shown subject is never empty |
| GoogleApis.RawMessage | backend/utils/googleApis.js:68-73 | the message text joined with LF (RawMessageLayout) |
| GoogleApis.RawMessageLayout | backend/utils/googleApis.js:68-73 | the message is "To: …\nSubject: …\n\n" + body, with LF and no CR of its own |
| GoogleApis.Utf8Char | backend/utils/googleApis.js:75 | one to four octets, and a single octet exactly for ASCII |
| GoogleApis.Utf8Ascii | backend/utils/googleApis.js:75 | ASCII text encodes to its own character codes |
| GoogleApis.ToUrlSafe | backend/utils/googleApis.js:77-78 | every '+' becomes '-' and every '/' becomes '_' |
| GoogleApis.StripPadding | backend/utils/googleApis.js:79 | the longest prefix without trailing '=' |
| GoogleApis.EncodeIsUrlSafeUnpadded | backend/utils/googleApis.js:75-79 | the raw field is the URL-safe form of the unpadded base 64 |
| GoogleApis.EncodeRawAlphabet | backend/utils/googleApis.js:75-79 | the output contains no '+', '/' or '=' |
| GoogleApis.SendThenRead | backend/utils/googleApis.js:75-79 | reading the sent raw field back with the reverse mapping gives the standard base 64 minus padding, which decodes to the message's octets |
| GoogleApis.UrlSafeRoundTrip | backend/utils/googleApis.js:77-78 | on base 64 text the reverse mapping undoes the URL-safe mapping |
| GoogleApis.ListFilesParams | backend/utils/googleApis.js:112-125 | listFiles' parameters with their defaults (PageTokenOnlyWhenGiven) |
| GoogleApis.PageTokenOnlyWhenGiven | backend/utils/googleApis.js:112-125 | pageToken is sent iff given; the defaults are 50, '' and 'modifiedTime desc' |
| GoogleApis.TimeBoundsOnlyWhenGiven | backend/utils/googleApis.js:390-400 | timeMin and timeMax are sent iff given, each independently, on the primary calendar |
| GoogleApis.NewEvent | backend/utils/googleApis.js:407-434 | the event createEvent inserts (EventAttendees) |
| GoogleApis.EventAttendees | backend/utils/googleApis.js:407-434 | attendees appear only for a non-empty list, one {email} per address in order; start and end share one zone |
| GoogleApis.EmailPageFollowsListing | backend/utils/googleApis.js:26-45 | no listing gives {[], null}; otherwise one fetched message per listed id in order, with the listing's token |
| Base64.ValueOf | backend/utils/googleApis.js:76 | the alphabet of section 4 of RFC 4648: the value is in [0, 64) and its character is the one given |
| Base64.LetterValue | backend/utils/googleApis.js:76 | every 6-bit value's character is in the alphabet and reads back as that value |
| Base64.ValuesOfLetters | backend/utils/googleApis.js:76 | reading a sequence of characters back gives the 6-bit values they were written from |
| Base64.Sextets | backend/utils/googleApis.js:76 | all values are 6-bit; four per group of three octets, plus two or three for a short last group |
| Base64.SextetsLength | backend/utils/googleApis.js:76 | an encoding never leaves a single value in its last group |
| Base64.JoinSextets | backend/utils/googleApis.js:76 | joining the 6-bit values back gives exactly the original octets |
| Base64.Unpadded | backend/utils/googleApis.js:76 | only alphabet characters, one per 6-bit value |
| Base64.EncodeShape | backend/utils/googleApis.js:76 | a whole number of four-character groups whose only '=' are the trailing padding |
| Base64.DecodeUnpadded | backend/utils/googleApis.js:76 | decoding undoes the unpadded encoding |
| Workspace.InitialTheme | frontend/src/components/GoogleWorkspace.jsx:15-17 | the stored theme if set, else 'light'; never empty |
| Workspace.PersistedThemeRestored | frontend/src/components/GoogleWorkspace.jsx:15-21 | a persisted theme is read back at the next mount |
| Workspace.NextTheme | frontend/src/components/GoogleWorkspace.jsx:23-29 | cycleTheme's transition (ThemeCycle) |
| Workspace.ThemeCycle | frontend/src/components/GoogleWorkspace.jsx:23-29 | light→dark→auto→light: three steps return and fewer do not; any other value goes to light |
| Workspace.EffectiveNeverAuto | frontend/src/components/GoogleWorkspace.jsx:31-36 | the tabs never see 'auto': it resolves by the system preference, and the rest pass through |
| Workspace.RenderContent | frontend/src/components/GoogleWorkspace.jsx:54-72 | renderContent's switch (RenderDispatch) |
| Workspace.RenderDispatch | frontend/src/components/GoogleWorkspace.jsx:54-72 | each known id shows exactly its tab with the effective theme, and an unknown id shows nothing |
| Workspace.Panel.constructor | frontend/src/components/GoogleWorkspace.jsx:15-21 | the theme comes from storage and is written back |
| Workspace.Panel.CycleTheme | frontend/src/components/GoogleWorkspace.jsx:19-29 | the next theme, persisted at once |
| Workspace.Panel.SelectTab | frontend/src/components/GoogleWorkspace.jsx:133 | the active tab becomes the chosen id |
| Workspace.ThreeClicksAndReopen | frontend/src/components/GoogleWorkspace.jsx:15-29 | three clicks from a fresh panel return to 'light', and a reopened panel shows the theme last chosen |
| Common.TrimEmptyIffBlank | frontend/src/components/ProjectManager.jsx:265 | `trim()` is empty iff every character is whitespace |
| Common.FilterAppend | frontend/src/components/AnalyticsDashboard.jsx:125-130 | `filter` keeps the order: filtering a concatenation concatenates the filtered parts |
| Common.Filter | frontend/src/components/AnalyticsDashboard.jsx:91-95 | `filter`: exactly the elements satisfying the predicate |

## Left out

- JavaScript doubles. Ratios are exact rationals and rounding is exact round-half-up. `taskController.js:14` divides before multiplying by 100, which can round differently at exact .5 boundaries.
- Date arithmetic: cycle time, the Gantt bars, `formatDate`, calendar defaults. The current time enters as a parameter `now`, and the process time zone as `systemZone`.
- Sequelize itself: the store is a set of in-memory rows. DeleteTask and DeleteProject remove the dependent rows the `onDelete: 'CASCADE'` associations of `backend/models/index.js:107` and `:115` and the join tables would remove (a task's comments and assignee rows; a project's tasks, memberships, and their comments and assignee rows). Attachments, constraint violations other than the duplicate join rows, and `Team.js` name validation are not modelled.
- E-mail, calendar and Drive side effects of the handlers, and every Google network call. Only the request and parameter builders are kept.
- Backend.Store.GetProjects, GetProject: a failing progress write inside these handlers is not modelled; their writes always succeed.
- Backend.Store.UpdateTask: moving a task to another project recomputes only the new project; the old project's stored progress stays as it was, as in the source.
- Realtime.RelayServer.Relay: payloads are opaque blobs forwarded unchanged. The socket.io transport, acknowledgements and reconnection are not modelled.
- Realtime.RelayServer.Relay: every relay handler destructures its `data` argument (`backend/server.js:177`, 186, 195, 204, 213, 223 and 232), so a null or undefined payload throws a TypeError inside the handler; the model always receives a payload and does not model that throw.
- GmailTab.LowerChar: `toLowerCase` is modelled on ASCII letters only.
- GoogleApis.Utf8Char: a Dafny `char` is a Unicode scalar value, so a JavaScript string holding a lone UTF-16 surrogate cannot be represented; `Buffer.from` replacing such a surrogate by U+FFFD (three octets EF BF BD) is not modelled.
- Analytics.TruncateShape: lengths are counted in Unicode scalar values, while `name.length` and `substring(0, 15)` count UTF-16 code units. A name of eight characters outside the Basic Multilingual Plane (emoji) has length 16 in JavaScript and is cut there, but is kept whole here; a cut that splits a surrogate pair cannot be represented.
- Analytics.Truncate: the same UTF-16 difference; the model's Truncate is `substring` and `length` over scalar values.
- ProjectManager.ParseSubtasks: `JSON.parse` is a parameter returning either a list of subtasks or failure; a parse yielding a non-array is not modelled.
- DriveTab.DriveBrowser: the folders-first `Array.prototype.sort` result is a constructor parameter. The loading spinner, folder creation, file preview and `formatFileSize` are not modelled.
- The Gmail tab's `emails` state, `loadEmails` error handling and the compose form; the workspace panel's fullscreen toggle; all JSX rendering and styling.
- `frontend/src/services/socket.js`, the listeners in `App.jsx`, the OAuth flow, upload handling and the seed scripts.

## Findings

| source | as written | input that shows it | evidently intended | confidence | as-written member | corrected member |
|---|---|---|---|---|---|---|
| backend/controllers/projectController.js:48-73 | the project list loads tasks with only id and status, then writes that status-only progress over the stored subtask-aware value | a project with one in-progress task whose only subtask is done: 100 is stored, then listing writes 0 | listing loads subtasks too, so a consistent store is left unchanged | not executed | Backend.ListEndpointOverwritesProgress | Backend.Store.GetProjectsWithSubtasks |
| frontend/src/components/ProjectManager.jsx:233-259 | the toggle copies the array shallowly and flips the shared object, so the rollback on error re-reads the flipped flag | array-valued subtasks, toggle subtask 0, API call fails | the flag is restored on error | not executed | ProjectManager.ToggleRollbackKeepsFlip | ProjectManager.CopyingToggleRollbackRestores |
| backend/server.js:240-250 | disconnect deletes the user's registry entry even while another socket of that user is connected | one user with two tabs; the first tab closes | the user stays registered while a socket remains | not executed | Realtime.TwoTabsOneCloses | Realtime.TwoTabsStayOnline |
| frontend/src/components/workspace/DriveTab.jsx:180-195 | the reload scheduled by cycleSort runs with the previous sort state | initial state, one click: label "Name (A-Z)", request orderBy "modifiedTime desc" | request orderBy "name asc" | not executed | DriveTab.FirstSortClick | DriveTab.DriveBrowser.CycleSortFresh |

Two further points where the code and its documentation differ; the model follows the code:

- The socket handshake does not check `isActive`, while `protect` does (`Realtime.InactiveUserAdmittedBySocket`).
- `getEmailBody` consults only the first text/plain part, not the first one with data (`GmailTab.LaterPlainPartIgnored`).
