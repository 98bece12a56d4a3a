/** Users and logging in: the authentication backend that looks a user up by
    username or email and admits only approved users (or superusers), the
    login view's approval check and role-based redirect, the `is_admin` test
    guarding the session and term pages, and the admin's bulk approval.
    Password hashing is outside the model: the password check is a parameter. */
module Accounts {
  import opened Wrappers

  /** `core.User`; `userType` is the stored `user_type` code. */
  datatype User = User(username: string, email: string, userType: string, isApproved: bool, isSuperuser: bool)

  /** `MultiAuthBackend.user_can_authenticate`. */
  predicate UserCanAuthenticate(u: User) {
    u.isApproved || u.isSuperuser
  }

  /** `CustomLoginView.form_valid` sends the form back ("pending approval") for these users. */
  predicate LoginRefused(u: User) {
    !u.isApproved && !u.isSuperuser
  }

  /** The indices of the users whose username or email equals `login`, in table order. */
  function Matching(users: seq<User>, login: string): (ids: seq<nat>)
    ensures forall k: nat :: k in ids <==> k < |users| && (users[k].username == login || users[k].email == login)
    ensures forall a :: 0 <= a < |ids| ==> ids[a] < |users|
    ensures forall a, b :: 0 <= a < b < |ids| ==> ids[a] < ids[b]
  {
    if users == [] then []
    else
      var init := Matching(users[..|users| - 1], login);
      var u := users[|users| - 1];
      assert forall k :: 0 <= k < |users| - 1 ==> users[..|users| - 1][k] == users[k];
      assert forall a :: 0 <= a < |init| ==> init[a] in init;
      init + (if u.username == login || u.email == login then [|users| - 1] else [])
  }

  /** What `authenticate` does: return no user, return user `k`, or let
      `MultipleObjectsReturned` escape from `User.objects.get`. */
  datatype AuthOutcome = NoUser | Authenticated(k: nat) | MultipleUsersFound

  /** `MultiAuthBackend.authenticate`. No match gives `DoesNotExist`, caught
      as None; a single match is returned when its password checks and it may
      authenticate, and otherwise the function falls off its end (None). */
  function Authenticate(users: seq<User>, login: string, password: string, checkPassword: (User, string) -> bool): (r: AuthOutcome)
    ensures r == MultipleUsersFound <==> |Matching(users, login)| > 1
    ensures Matching(users, login) == [] ==> r == NoUser
    ensures r.Authenticated? ==>
      r.k < |users| && (users[r.k].username == login || users[r.k].email == login) &&
      checkPassword(users[r.k], password) && UserCanAuthenticate(users[r.k])
    ensures |Matching(users, login)| == 1 ==>
      var u := users[Matching(users, login)[0]];
      (r.Authenticated? <==> checkPassword(u, password) && UserCanAuthenticate(u))
  {
    var ids := Matching(users, login);
    if |ids| == 0 then NoUser
    else if |ids| > 1 then MultipleUsersFound
    else
      assert ids[0] in ids;
      var u := users[ids[0]];
      if checkPassword(u, password) && UserCanAuthenticate(u) then Authenticated(ids[0]) else NoUser
  }

  /** The backend and the login view agree: refusal is exactly "may not authenticate". */
  lemma RefusedIffCannotAuthenticate(u: User)
    ensures LoginRefused(u) <==> !UserCanAuthenticate(u)
  {
  }

  /** A user the backend returns is never turned away as pending approval. */
  lemma AuthenticatedUserIsNotRefused(users: seq<User>, login: string, password: string, checkPassword: (User, string) -> bool)
    ensures Authenticate(users, login, password, checkPassword).Authenticated? ==>
      !LoginRefused(users[Authenticate(users, login, password, checkPassword).k])
  {
  }

  /** An unapproved user who is not a superuser is never returned, whatever the password. */
  lemma UnapprovedUserIsNeverAuthenticated(users: seq<User>, login: string, password: string, checkPassword: (User, string) -> bool, k: nat)
    requires k < |users| && LoginRefused(users[k])
    ensures Authenticate(users, login, password, checkPassword) != Authenticated(k)
  {
  }

  /** The named URL `get_success_url` redirects to. */
  datatype Destination = StudentDashboardSelf | TeacherDashboard | ParentDashboard | Dashboard

  /** `CustomLoginView.get_success_url`. */
  function RedirectAfterLogin(userType: string): (d: Destination)
    ensures d == StudentDashboardSelf <==> userType == "student"
    ensures d == TeacherDashboard <==> userType == "teacher"
    ensures d == ParentDashboard <==> userType == "parent"
    ensures d == Dashboard <==> userType != "student" && userType != "teacher" && userType != "parent"
  {
    if userType == "student" then StudentDashboardSelf
    else if userType == "teacher" then TeacherDashboard
    else if userType == "parent" then ParentDashboard
    else Dashboard
  }

  /** The visitor of a request: anonymous, or a logged-in user. */
  datatype Visitor = Anonymous | Member(user: User)

  /** `is_admin`. */
  function IsAdmin(v: Visitor): (r: bool)
    ensures r <==> v.Member? && v.user.userType == "admin"
  {
    match v
    case Anonymous => false
    case Member(u) => u.userType == "admin"
  }

  /** The users after `approve_users` on the selected ones. */
  function Approve(users: seq<User>, selected: set<nat>): (r: seq<User>)
    ensures |r| == |users|
    ensures forall k :: 0 <= k < |r| ==> r[k].isApproved == (k in selected || users[k].isApproved)
    ensures forall k :: 0 <= k < |r| ==> r[k].(isApproved := users[k].isApproved) == users[k]
  {
    seq(|users|, k requires 0 <= k < |users| => if k in selected then users[k].(isApproved := true) else users[k])
  }

  /** After approval every selected user can log in, and no one who could log in before is locked out. */
  lemma ApprovalOnlyAdmits(users: seq<User>, selected: set<nat>)
    ensures forall k :: k in selected && 0 <= k < |users| ==> UserCanAuthenticate(Approve(users, selected)[k])
    ensures forall k :: 0 <= k < |users| && UserCanAuthenticate(users[k]) ==> UserCanAuthenticate(Approve(users, selected)[k])
    ensures forall k :: 0 <= k < |users| && k !in selected ==> Approve(users, selected)[k] == users[k]
  {
  }

  /** The users table. */
  class UserDirectory {
    var users: seq<User>

    constructor (users: seq<User>)
      ensures this.users == users
    {
      this.users := users;
    }

    /** `CustomUserAdmin.approve_users`: `queryset.update(is_approved=True)`. */
    method ApproveUsers(selected: set<nat>)
      modifies this
      ensures users == Approve(old(users), selected)
    {
      var before := users;
      users := seq(|before|, k requires 0 <= k < |before| => if k in selected then before[k].(isApproved := true) else before[k]);
    }
  }
}
