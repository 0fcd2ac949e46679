/** The team controller (backend/controllers/teamController.js): creating,
    updating and deleting teams with their membership rows, and updating a
    user. The field-merge rules are pure functions; the handlers are methods
    of a directory holding the teams, team_members and users tables. */
module Teams {
  import opened Common
  import Auth

  /** A body field that may be undefined, null, or a value. */
  datatype Field<T> = Undefined | Null | Given(value: T)

  /** The `members` field of a team body: falsy, some non-array value, or an array. */
  datatype MembersField = NoMembers | NotArray | ArrayOf(users: seq<Id>)

  datatype TeamRow = TeamRow(name: Option<string>, description: Option<string>, color: string, createdBy: Id)

  datatype TeamBody = TeamBody(name: Option<string>, description: Field<string>, color: Option<string>, members: MembersField)

  datatype UserBody = UserBody(name: Option<string>, email: Option<string>, role: Option<Auth.UserRole>, avatar: Field<string>)

  /** The updateUser response: id, name, email, avatar and role only. */
  datatype UserView = UserView(id: Id, name: string, email: string, avatar: Option<string>, role: Auth.UserRole)

  const DEFAULT_COLOR := "#60a5fa"

  /** `x !== undefined ? x : old` where null is a value (stored as None). */
  function Defined<T>(f: Field<T>, prior: Option<T>): Option<T> {
    match f
    case Undefined => prior
    case Null => None
    case Given(v) => Some(v)
  }

  /** The row createTeam inserts (teamController.js:39-44). */
  function NewTeam(body: TeamBody, creator: Id): TeamRow {
    TeamRow(body.name, Defined(body.description, None), OrElse(body.color, DEFAULT_COLOR), creator)
  }

  /** The row updateTeam writes (teamController.js:97-101). */
  function MergeTeam(t: TeamRow, body: TeamBody): TeamRow {
    TeamRow(if Truthy(body.name) then body.name else t.name,
            Defined(body.description, t.description),
            OrElse(body.color, t.color),
            t.createdBy)
  }

  /** name and color survive a falsy new value; description is replaced by
      anything that is not undefined, null and "" included. */
  lemma TeamMergeRules(t: TeamRow, body: TeamBody)
    ensures var m := MergeTeam(t, body);
      && (!Truthy(body.name) ==> m.name == t.name)
      && (Truthy(body.name) ==> m.name == body.name)
      && (m.color == (if Truthy(body.color) then body.color.value else t.color))
      && (body.description.Undefined? ==> m.description == t.description)
      && (body.description.Null? ==> m.description.None?)
      && (body.description.Given? ==> m.description == Some(body.description.value))
      && m.createdBy == t.createdBy
    ensures NewTeam(body, t.createdBy).color == (if Truthy(body.color) then body.color.value else DEFAULT_COLOR)
  {
  }

  /** Merging the same body twice is the same as merging it once. */
  lemma MergeTeamIdempotent(t: TeamRow, body: TeamBody)
    ensures MergeTeam(MergeTeam(t, body), body) == MergeTeam(t, body)
  {
  }

  /** The row updateUser writes (teamController.js:209-214). */
  function MergeUser(u: Auth.UserRecord, body: UserBody): Auth.UserRecord {
    u.(name := OrElse(body.name, u.name),
       email := OrElse(body.email, u.email),
       role := body.role.GetOr(u.role),
       avatar := Defined(body.avatar, u.avatar))
  }

  function ViewOf(u: Auth.UserRecord): UserView {
    UserView(u.id, u.name, u.email, u.avatar, u.role)
  }

  /** updateUser keeps name, email and role on falsy input, replaces avatar
      when defined, and leaves every other column (password, Google tokens,
      isActive) as it was. */
  lemma UserMergeRules(u: Auth.UserRecord, body: UserBody)
    ensures var m := MergeUser(u, body);
      && m.name == (if Truthy(body.name) then body.name.value else u.name)
      && m.email == (if Truthy(body.email) then body.email.value else u.email)
      && m.role == (if body.role.Some? then body.role.value else u.role)
      && (body.avatar.Undefined? ==> m.avatar == u.avatar)
      && (body.avatar.Null? ==> m.avatar.None?)
      && (body.avatar.Given? ==> m.avatar == Some(body.avatar.value))
      && m.id == u.id && m.password == u.password && m.isActive == u.isActive
      && m.googleAccessToken == u.googleAccessToken && m.googleRefreshToken == u.googleRefreshToken
  {
  }

  /** The first position at which a user id repeats an earlier one, if any. */
  function FirstRepeat(users: seq<Id>): (r: Option<nat>)
    ensures r.Some? ==> r.value < |users| && users[r.value] in users[..r.value]
    ensures r.Some? ==> forall j :: 0 <= j < r.value ==> users[j] !in users[..j]
    ensures r.None? ==> forall j :: 0 <= j < |users| ==> users[j] !in users[..j]
  {
    if users == [] then None
    else
      var init := users[..|users| - 1];
      var r := FirstRepeat(init);
      assert forall j :: 0 <= j < |init| ==> init[j] == users[j] && init[..j] == users[..j];
      if r.Some? then Some(r.value)
      else if users[|users| - 1] in init then Some(|users| - 1)
      else None
  }

  function Rows(teamId: Id, users: seq<Id>): set<(Id, Id)> {
    set u | u in users :: (teamId, u)
  }

  class TeamDirectory {
    var teams: map<Id, TeamRow>
    var teamMembers: set<(Id, Id)>   // (teamId, userId)
    var users: map<Id, Auth.UserRecord>

    /** Every membership row belongs to an existing team. */
    ghost predicate Valid() reads this {
      forall p :: p in teamMembers ==> p.0 in teams
    }

    constructor ()
      ensures Valid() && teams == map[] && teamMembers == {} && users == map[]
    {
      teams, teamMembers, users := map[], {}, map[];
    }

    /** The insert loop: one TeamMember row per listed user, in order. The
        (teamId, userId) key makes a repeated id throw, leaving the rows
        inserted before it. */
    method InsertMembers(teamId: Id, list: seq<Id>) returns (ok: bool)
      requires teamId in teams && forall p :: p in teamMembers ==> p.0 != teamId
      requires Valid()
      modifies this`teamMembers
      ensures Valid()
      ensures ok <==> FirstRepeat(list).None?
      ensures ok ==> teamMembers == old(teamMembers) + Rows(teamId, list)
      ensures !ok ==> teamMembers == old(teamMembers) + Rows(teamId, list[..FirstRepeat(list).value])
    {
      var i := 0;
      while i < |list|
        invariant 0 <= i <= |list|
        invariant Valid()
        invariant teamMembers == old(teamMembers) + Rows(teamId, list[..i])
        invariant forall j :: 0 <= j < i ==> list[j] !in list[..j]
      {
        if (teamId, list[i]) in teamMembers {
          assert list[i] in list[..i];
          return false;
        }
        assert list[..i + 1] == list[..i] + [list[i]];
        teamMembers := teamMembers + {(teamId, list[i])};
        i := i + 1;
      }
      assert list[..i] == list;
      return true;
    }

    /** createTeam (teamController.js:35-79): the row with the default
        color, then membership rows only when `members` is an array; a
        repeated id answers 500 and leaves the team and the rows before
        the repeat in place. */
    method CreateTeam(newId: Id, body: TeamBody, creator: Id) returns (code: nat)
      requires Valid() && newId !in teams
      modifies this`teams, this`teamMembers
      ensures Valid()
      ensures teams == old(teams)[newId := NewTeam(body, creator)]
      ensures !body.members.ArrayOf? ==> code == 201 && teamMembers == old(teamMembers)
      ensures body.members.ArrayOf? ==> (code == 201 <==> FirstRepeat(body.members.users).None?)
      ensures body.members.ArrayOf? && code == 201 ==> teamMembers == old(teamMembers) + Rows(newId, body.members.users)
      ensures code != 201 ==> code == 500
      ensures code == 500 ==>
        (&& body.members.ArrayOf? && FirstRepeat(body.members.users).Some?
         && teamMembers == old(teamMembers) + Rows(newId, body.members.users[..FirstRepeat(body.members.users).value]))
    {
      teams := teams[newId := NewTeam(body, creator)];
      if body.members.ArrayOf? {
        var ok := InsertMembers(newId, body.members.users);
        if !ok {
          return 500;
        }
      }
      return 201;
    }

    /** updateTeam (teamController.js:84-140): 404 for a missing team;
        otherwise the merged row, and an array `members` replaces the
        team's rows wholesale (an empty array clears them); a repeated id
        answers 500 with the old rows gone and only those before the
        repeat inserted. */
    method UpdateTeam(id: Id, body: TeamBody) returns (code: nat)
      requires Valid()
      modifies this`teams, this`teamMembers
      ensures Valid()
      ensures code == 404 <==> id !in old(teams)
      ensures code == 404 ==> teams == old(teams) && teamMembers == old(teamMembers)
      ensures code != 404 ==> teams == old(teams)[id := MergeTeam(old(teams)[id], body)]
      ensures code != 404 && !body.members.ArrayOf? ==> code == 200 && teamMembers == old(teamMembers)
      ensures code != 404 && body.members.ArrayOf? ==>
        && (code == 200 <==> FirstRepeat(body.members.users).None?)
        && (code == 200 ==> teamMembers == (set p | p in old(teamMembers) && p.0 != id) + Rows(id, body.members.users))
        && (code == 500 ==>
              teamMembers == (set p | p in old(teamMembers) && p.0 != id) + Rows(id, body.members.users[..FirstRepeat(body.members.users).value]))
      ensures code in {200, 404, 500}
    {
      if id !in teams {
        return 404;
      }
      teams := teams[id := MergeTeam(teams[id], body)];
      if body.members.ArrayOf? {
        teamMembers := set p | p in teamMembers && p.0 != id;
        var ok := InsertMembers(id, body.members.users);
        if !ok {
          return 500;
        }
      }
      return 200;
    }

    /** deleteTeam (teamController.js:145-169): 404, or the team and its rows go. */
    method DeleteTeam(id: Id) returns (code: nat)
      requires Valid()
      modifies this`teams, this`teamMembers
      ensures Valid()
      ensures code == 404 <==> id !in old(teams)
      ensures code == 404 ==> teams == old(teams) && teamMembers == old(teamMembers)
      ensures code != 404 ==> (code == 200 && teams == old(teams) - {id} &&
        teamMembers == set p | p in old(teamMembers) && p.0 != id)
    {
      if id !in teams {
        return 404;
      }
      teams := teams - {id};
      teamMembers := set p | p in teamMembers && p.0 != id;
      return 200;
    }

    /** updateUser (teamController.js:196-233): 404, or the merged user and
        the public view of it. */
    method UpdateUser(id: Id, body: UserBody) returns (code: nat, view: Option<UserView>)
      modifies this`users
      ensures code == 404 <==> id !in old(users)
      ensures code == 404 ==> users == old(users) && view.None?
      ensures code != 404 ==> (code == 200 && users == old(users)[id := MergeUser(old(users)[id], body)] &&
        view == Some(ViewOf(users[id])))
    {
      if id !in users {
        return 404, None;
      }
      users := users[id := MergeUser(users[id], body)];
      return 200, Some(ViewOf(users[id]));
    }
  }
}
