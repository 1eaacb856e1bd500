/**
 * The three permission classes of the API (api/permissions.py), as predicates
 * over the request method, the requesting user and, for object checks, the
 * object's author.
 */
module Permissions {
  import opened Wrappers
  import opened Users

  datatype Method = Get | Head | Options | Post | Put | Patch | Delete | Trace

  /** The framework's read-only methods. */
  predicate IsSafe(m: Method)
  {
    m == Get || m == Head || m == Options
  }

  /** Who sent the request: the anonymous user, or an authenticated row of the user table. */
  datatype Requester = Anonymous | Authenticated(user: CustomUser)

  predicate IsAuthenticated(r: Requester) { r.Authenticated? }

  /** The helper the three classes declare with one and the same body. */
  predicate IsAdminOrSuperuser(u: CustomUser)
  {
    IsAdmin(u) || u.isSuperuser
  }

  /** IsAdminPermission.has_permission: the method plays no part. */
  predicate IsAdminHasPermission(m: Method, r: Requester)
  {
    IsAuthenticated(r) && IsAdminOrSuperuser(r.user)
  }

  /** ModerAdminAuthorPermission.has_permission. */
  predicate ModerAdminAuthorHasPermission(m: Method, r: Requester)
  {
    IsSafe(m) || IsAuthenticated(r)
  }

  /**
   * ModerAdminAuthorPermission.has_object_permission for an object written by
   * the user with id `author`. The disjuncts are evaluated in order; the
   * anonymous user is never the author and has no `is_moderator` attribute,
   * so for it an unsafe method raises (None) instead of answering.
   */
  function ModerAdminAuthorHasObjectPermission(m: Method, r: Requester, author: nat): (d: Option<bool>)
    ensures IsSafe(m) ==> d == Some(true)
    ensures d == None <==> !IsSafe(m) && r.Anonymous?
    ensures r.Authenticated? && r.user.id == author ==> d == Some(true)
    ensures r.Authenticated? && (IsModerator(r.user) || IsAdmin(r.user) || r.user.isSuperuser) ==> d == Some(true)
    ensures d == Some(false) <==>
      !IsSafe(m) && r.Authenticated? && r.user.id != author && !IsModerator(r.user) && !IsAdminOrSuperuser(r.user)
  {
    if IsSafe(m) then Some(true)
    else match r
      case Anonymous => None
      case Authenticated(u) => Some(u.id == author || IsModerator(u) || IsAdminOrSuperuser(u))
  }

  /** AnonReadOnlyOrIsAdminPermission.has_permission. */
  predicate AnonReadOnlyOrIsAdminHasPermission(m: Method, r: Requester)
  {
    IsSafe(m) || (IsAuthenticated(r) && IsAdminOrSuperuser(r.user))
  }

  /** IsAdminPermission admits exactly the authenticated admins and superusers, whatever the method. */
  lemma IsAdminPermissionExactly(m: Method, r: Requester)
    ensures IsAdminHasPermission(m, r) <==> r.Authenticated? && (r.user.role == ADMIN || r.user.isSuperuser)
  {
  }

  /** Under ModerAdminAuthorPermission every requester may read, and only an authenticated one may write. */
  lemma ModerAdminAuthorReadsOpenWritesAuthenticated(m: Method, r: Requester)
    ensures IsSafe(m) ==> ModerAdminAuthorHasPermission(m, r)
    ensures !IsSafe(m) && r.Anonymous? ==> !ModerAdminAuthorHasPermission(m, r)
  {
  }

  /**
   * The framework consults the object check only after has_permission has
   * passed; on that path the object check never raises.
   */
  lemma ObjectCheckAnswersAfterViewCheck(m: Method, r: Requester, author: nat)
    requires ModerAdminAuthorHasPermission(m, r)
    ensures ModerAdminAuthorHasObjectPermission(m, r, author).Some?
  {
  }

  /** A plain user who is neither superuser nor author may only read the object. */
  lemma PlainUserNonAuthorOnlyReads(m: Method, u: CustomUser, author: nat)
    requires IsUser(u) && !u.isSuperuser && u.id != author
    ensures ModerAdminAuthorHasObjectPermission(m, Authenticated(u), author) == Some(IsSafe(m))
  {
  }

  /** AnonReadOnlyOrIsAdminPermission is "a safe method, or what IsAdminPermission allows". */
  lemma AnonReadOnlyIsSafeOrAdmin(m: Method, r: Requester)
    ensures AnonReadOnlyOrIsAdminHasPermission(m, r) <==> IsSafe(m) || IsAdminHasPermission(m, r)
    ensures IsAdminHasPermission(m, r) ==> AnonReadOnlyOrIsAdminHasPermission(m, r)
  {
  }

  /** Whatever IsAdminPermission allows, ModerAdminAuthorPermission allows too, on any object. */
  lemma AdminPassesModerAdminAuthor(m: Method, r: Requester, author: nat)
    requires IsAdminHasPermission(m, r)
    ensures ModerAdminAuthorHasPermission(m, r)
    ensures ModerAdminAuthorHasObjectPermission(m, r, author) == Some(true)
  {
  }

  /** The anonymous user is never allowed an unsafe method by any of the three classes. */
  lemma AnonymousNeverWrites(m: Method, author: nat)
    requires !IsSafe(m)
    ensures !IsAdminHasPermission(m, Anonymous)
    ensures !ModerAdminAuthorHasPermission(m, Anonymous)
    ensures !AnonReadOnlyOrIsAdminHasPermission(m, Anonymous)
    ensures ModerAdminAuthorHasObjectPermission(m, Anonymous, author) != Some(true)
  {
  }
}
