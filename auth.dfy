/** The HTTP authentication middleware (backend/middleware/auth.js): `protect`
    turns an Authorization header into a request user or a 401 reply, and
    `authorize` gates a route on the user's global role. Token verification
    (backend/utils/jwt.js) and the user table lookup are not part of this
    model: they enter as function parameters whose outcomes include throwing. */
module Auth {
  import opened Common

  /** User.role: ENUM('admin', 'manager', 'member'). */
  datatype UserRole = Admin | Manager | Member

  /** A row of the users table. */
  datatype UserRecord = UserRecord(
    id: Id, name: string, email: string, avatar: Option<string>, role: UserRole, isActive: bool,
    password: Option<string>, googleAccessToken: Option<string>, googleRefreshToken: Option<string>)

  /** The user attached to a request: the row without password and Google tokens. */
  datatype RequestUser = RequestUser(id: Id, name: string, email: string, avatar: Option<string>, role: UserRole, isActive: bool)

  /** What verifyToken does with a token: a payload carrying a user id, a
      falsy value, or an exception. */
  datatype Verified = Decoded(userId: Id) | Falsy | Throws

  /** What User.findByPk does: a row, null, or an exception. */
  datatype Lookup = Found(user: UserRecord) | Missing | LookupThrows

  datatype Reply = Reply(status: nat, message: string)

  /** What protect does to a request: whether `next()` ran, the replies it
      sent (in order), and `req.user`. */
  datatype ProtectOutcome = ProtectOutcome(nextCalled: bool, replies: seq<Reply>, user: Option<RequestUser>)

  function RoleName(r: UserRole): string {
    match r
    case Admin => "admin"
    case Manager => "manager"
    case Member => "member"
  }

  function Strip(u: UserRecord): RequestUser {
    RequestUser(u.id, u.name, u.email, u.avatar, u.role, u.isActive)
  }

  /** Position of the first space, if any. */
  function FirstSpace(s: string): (r: Option<nat>)
    ensures r.None? <==> ' ' !in s
    ensures r.Some? ==> r.value < |s| && s[r.value] == ' ' && ' ' !in s[..r.value]
  {
    if s == [] then None
    else if s[0] == ' ' then Some(0)
    else match FirstSpace(s[1..])
      case None => None
      case Some(k) =>
        assert s[..k + 1] == [s[0]] + s[1..][..k];
        Some(k + 1)
  }

  /** `s.split(' ')[1]`: the text between the first and the second space (or
      the end), undefined when there is no space. */
  function SecondField(s: string): (r: Option<string>)
    ensures r.None? <==> ' ' !in s
    ensures r.Some? ==> ' ' !in r.value
  {
    match FirstSpace(s)
    case None => None
    case Some(i) =>
      var rest := s[i + 1..];
      match FirstSpace(rest)
      case None => Some(rest)
      case Some(j) => Some(rest[..j])
  }

  /** The field after the first space, and whatever follows a second space,
      is the token: "Bearer " + t + (anything starting with a space) yields t. */
  lemma SecondFieldOfBearer(t: string, tail: string)
    requires ' ' !in t && (tail == [] || tail[0] == ' ')
    ensures SecondField("Bearer " + t + tail) == Some(t)
  {
    var s := "Bearer " + t + tail;
    assert s[..6] == "Bearer";
    assert FirstSpace(s) == Some(6) by {
      assert s[6] == ' ';
    }
    var rest := s[7..];
    assert rest == t + tail;
    if tail == [] {
      assert rest == t;
    } else {
      assert rest[|t|] == ' ' && rest[..|t|] == t;
    }
  }

  /** protect (auth.js:4-50). */
  function Protect(header: Option<string>, verify: Option<string> -> Verified, lookup: Id -> Lookup): (o: ProtectOutcome)
    ensures o.nextCalled <==>
      && Truthy(header) && StartsWith(header.value, "Bearer")
      && verify(SecondField(header.value)).Decoded?
      && var l := lookup(verify(SecondField(header.value)).userId);
         l.Found? && l.user.isActive
    ensures o.nextCalled ==> o.user == Some(Strip(lookup(verify(SecondField(header.value)).userId).user))
    ensures !o.nextCalled ==> |o.replies| == 1 && o.replies[0].status == 401
    ensures o.nextCalled ==> (o.replies == [] <==> Truthy(SecondField(header.value)))
  {
    var noToken := Reply(401, "Not authorized, no token provided");
    if !(Truthy(header) && StartsWith(header.value, "Bearer")) then
      ProtectOutcome(false, [noToken], None)
    else
      var token := SecondField(header.value);
      match verify(token)
      case Throws => ProtectOutcome(false, [Reply(401, "Not authorized to access this route")], None)
      case Falsy => ProtectOutcome(false, [Reply(401, "Invalid or expired token")], None)
      case Decoded(id) =>
        match lookup(id)
        case LookupThrows => ProtectOutcome(false, [Reply(401, "Not authorized to access this route")], None)
        case Missing => ProtectOutcome(false, [Reply(401, "User not found or inactive")], None)
        case Found(u) =>
          if !u.isActive then ProtectOutcome(false, [Reply(401, "User not found or inactive")], Some(Strip(u)))
          else
            // next() has run; control then reaches `if (!token)`.
            ProtectOutcome(true, if Truthy(token) then [] else [noToken], Some(Strip(u)))
  }

  /** When verification refuses empty and missing tokens (as a signature
      check does), every request gets exactly one of: the next handler, or
      one 401 reply. */
  lemma ProtectAnswersOnce(header: Option<string>, verify: Option<string> -> Verified, lookup: Id -> Lookup)
    requires forall t: Option<string> :: !Truthy(t) ==> !verify(t).Decoded?
    ensures var o := Protect(header, verify, lookup);
      (o.nextCalled && o.replies == []) || (!o.nextCalled && |o.replies| == 1)
  {
  }

  /** A header whose token verification accepts a falsy token (here "Bearer"
      followed by a space and nothing) lets the request through and also
      answers 401: two responses to one request. */
  lemma AcceptedEmptyTokenAnswersTwice(u: UserRecord)
    requires u.isActive
    ensures var o := Protect(Some("Bearer "), _ => Decoded(u.id), _ => Found(u));
      o.nextCalled && o.replies == [Reply(401, "Not authorized, no token provided")]
  {
    SecondFieldOfBearer("", "");
    assert "Bearer " + "" + "" == "Bearer ";
    assert StartsWith("Bearer ", "Bearer") by { assert "Bearer "[..6] == "Bearer"; }
  }

  /** The authorize(...roles) gate (auth.js:52-61): through when the role is
      listed, else 403 naming the role. */
  function Authorize(roles: seq<UserRole>, user: RequestUser): (r: Option<Reply>)
    ensures r.None? <==> user.role in roles
    ensures r.Some? ==> r.value.status == 403
  {
    if user.role in roles then None
    else Some(Reply(403, "User role '" + RoleName(user.role) + "' is not authorized to access this route"))
  }

  /** The 403 message tells roles apart: distinct roles give distinct replies. */
  lemma AuthorizeMessageNamesRole(roles: seq<UserRole>, a: RequestUser, b: RequestUser)
    requires a.role !in roles && b.role !in roles && a.role != b.role
    ensures Authorize(roles, a) != Authorize(roles, b)
  {
    var pre := "User role '";
    var ma := Authorize(roles, a).value.message;
    var mb := Authorize(roles, b).value.message;
    assert ma[|pre|] != mb[|pre|] || ma[|pre| + 1] != mb[|pre| + 1];
  }
}
