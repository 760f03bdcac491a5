/**
 * The view decorators of the data-capture flows: the cancel handler, which
 * drops every prefixed session key and redirects, and the two access checks,
 * which admit a user, send an anonymous user to the login page, or forbid an
 * authenticated one.
 *
 * The HTTP request is reduced to what the decorators look at (its method, the
 * keys of its POST data and whether it is an ajax request) and the session to
 * a map from keys to stored values.
 */
module Decorators {
  import opened Text

  datatype SessionValue = IntValue(i: int) | StrValue(s: string)

  type SessionData = map<string, SessionValue>

  datatype HttpMethod = Get | Post | OtherMethod(name: string)

  datatype Request = Request(verb: HttpMethod, postKeys: set<string>, isAjax: bool)

  /**
   * A user as the checks see it: whether they are logged in, the is_staff
   * flag, and the permissions has_perms consults (their own and their groups').
   */
  datatype User = User(isAuthenticated: bool, isStaff: bool, perms: set<string>)

  /** The session of one client; views update it in place. */
  class Session {
    var data: SessionData

    constructor (initial: SessionData)
      ensures data == initial
    {
      data := initial;
    }
  }

  // ---------------------------------------------------------------------
  // handle_cancel

  const DefaultRedirectName: string := "index"
  const DefaultKeyPrefix: string := "data_capture:"

  /** What the wrapper does with a request. */
  datatype CancelOutcome =
    | PassThrough                  // the wrapped view handles the request
    | RedirectTo(name: string)     // redirect(redirect_name)
    | AjaxRedirectTo(name: string) // ajaxform.ajax_redirect(redirect_name)

  /** A POST whose data carries a `cancel` key. */
  predicate IsCancel(request: Request) {
    request.verb == Post && "cancel" in request.postKeys
  }

  /**
   * The session left by a cancel: the keys that start with the prefix are
   * gone and every other key keeps its value. An empty prefix is falsy in the
   * source, so it deletes nothing (although every key starts with "").
   */
  function CancelledSession(data: SessionData, keyPrefix: string): (r: SessionData)
    ensures forall k :: k in r <==> k in data && (keyPrefix == "" || !StartsWith(k, keyPrefix))
    ensures forall k :: k in r ==> r[k] == data[k]
    ensures keyPrefix == "" ==> r == data
  {
    if keyPrefix == "" then data
    else map k | k in data && !StartsWith(k, keyPrefix) :: data[k]
  }

  /** Cancelling twice leaves what cancelling once left. */
  lemma CancelIdempotent(data: SessionData, keyPrefix: string)
    ensures CancelledSession(CancelledSession(data, keyPrefix), keyPrefix) == CancelledSession(data, keyPrefix)
  {
  }

  /**
   * The wrapper of handle_cancel applied to one request. On a cancel it walks
   * a snapshot of the session's keys and deletes each prefixed one in place.
   */
  method HandleCancel(request: Request, session: Session, redirectName: string, keyPrefix: string)
    returns (outcome: CancelOutcome)
    modifies session
    ensures IsCancel(request) ==> session.data == CancelledSession(old(session.data), keyPrefix)
    ensures IsCancel(request) ==>
      outcome == (if request.isAjax then AjaxRedirectTo(redirectName) else RedirectTo(redirectName))
    ensures !IsCancel(request) ==> session.data == old(session.data) && outcome == PassThrough
  {
    if !IsCancel(request) {
      return PassThrough;
    }
    if keyPrefix != "" {
      var keys := session.data.Keys;
      while keys != {}
        invariant keys <= session.data.Keys
        invariant session.data ==
          map k | k in old(session.data) && (k in keys || !StartsWith(k, keyPrefix)) :: old(session.data)[k]
        decreases keys
      {
        var k :| k in keys;
        if StartsWith(k, keyPrefix) {
          session.data := session.data - {k};
        }
        keys := keys - {k};
      }
    }
    if request.isAjax {
      outcome := AjaxRedirectTo(redirectName);
    } else {
      outcome := RedirectTo(redirectName);
    }
  }

  // ---------------------------------------------------------------------
  // staff_login_required and role_permissions_required

  /** What a test passed to user_passes_test does: return True, return False, or raise. */
  datatype TestResult = ReturnsTrue | ReturnsFalse | RaisesPermissionDenied

  /** The three outcomes a protected view can have. */
  datatype Access = Admit | RedirectToLogin | Forbidden

  /**
   * user_passes_test runs the view when the test returns True and redirects
   * to the login page when it returns False; PermissionDenied propagates and
   * becomes a 403 response.
   */
  function UserPassesTest(result: TestResult): (a: Access)
    ensures a == Admit <==> result == ReturnsTrue
    ensures a == RedirectToLogin <==> result == ReturnsFalse
    ensures a == Forbidden <==> result == RaisesPermissionDenied
  {
    match result
    case ReturnsTrue => Admit
    case ReturnsFalse => RedirectToLogin
    case RaisesPermissionDenied => Forbidden
  }

  /** The test of staff_login_required. */
  function CheckIfStaff(user: User): TestResult
  {
    if !user.isAuthenticated then ReturnsFalse
    else if user.isStaff then ReturnsTrue
    else RaisesPermissionDenied
  }

  /** A view decorated with staff_login_required. */
  function StaffLoginRequired(user: User): (a: Access)
    ensures a == Admit <==> user.isAuthenticated && user.isStaff
    ensures a == RedirectToLogin <==> !user.isAuthenticated
    ensures a == Forbidden <==> user.isAuthenticated && !user.isStaff
  {
    UserPassesTest(CheckIfStaff(user))
  }

  /**
   * The test of role_permissions_required: `roles` is the role registry of
   * the initgroups command, and the decorator is only ever given one of its
   * role names.
   */
  function CheckPerms(roles: map<string, set<string>>, role: string, user: User): TestResult
    requires role in roles
  {
    if roles[role] <= user.perms then ReturnsTrue
    else if user.isAuthenticated then RaisesPermissionDenied
    else ReturnsFalse
  }

  /**
   * A view decorated with role_permissions_required(role). Holding every
   * permission of the role admits even an anonymous user; holding only some
   * of them is not enough.
   */
  function RolePermissionsRequired(roles: map<string, set<string>>, role: string, user: User): (a: Access)
    requires role in roles
    ensures a == Admit <==> roles[role] <= user.perms
    ensures a == Forbidden <==> user.isAuthenticated && !(roles[role] <= user.perms)
    ensures a == RedirectToLogin <==> !user.isAuthenticated && !(roles[role] <= user.perms)
  {
    UserPassesTest(CheckPerms(roles, role, user))
  }

  /** Granting more permissions never takes access away. */
  lemma MorePermissionsKeepAccess(roles: map<string, set<string>>, role: string, user: User, more: set<string>)
    requires role in roles
    requires RolePermissionsRequired(roles, role, user) == Admit
    ensures RolePermissionsRequired(roles, role, user.(perms := user.perms + more)) == Admit
  {
  }
}
