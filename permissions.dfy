/** The permission classes of the API and the way a view combines them. Every
    check is a boolean function of the requesting actor, the HTTP method and,
    for object checks, the author of the object. */
module Permissions {
  import opened Models

  datatype Method = GET | HEAD | OPTIONS | POST | PUT | PATCH | DELETE

  /** The framework's SAFE_METHODS. */
  predicate IsSafe(m: Method)
  {
    m == GET || m == HEAD || m == OPTIONS
  }

  /** The requesting user: anonymous, or an authenticated user row with its
      role and superuser flag. */
  datatype Actor = Anonymous | Member(id: UserId, role: Role, isSuperuser: bool)

  /** IsAdminOrReadOnly.has_permission. */
  predicate AdminOrReadOnly(a: Actor, m: Method)
  {
    if a.Member? then IsSafe(m) || a.role == AdminRole || a.isSuperuser
    else IsSafe(m)
  }

  /** IsAdminOrReadOnly.has_object_permission: the same test as the view-level one. */
  predicate AdminOrReadOnlyObject(a: Actor, m: Method)
  {
    if a.Member? then IsSafe(m) || a.role == AdminRole || a.isSuperuser
    else IsSafe(m)
  }

  /** NobodyAllow, at both levels. */
  predicate NobodyAllows(a: Actor, m: Method)
  {
    false
  }

  /** IsAdmin.has_permission. */
  predicate Admin(a: Actor, m: Method)
  {
    if a.Member? then a.role == AdminRole || a.isSuperuser else false
  }

  /** IsAdmin.has_object_permission. */
  predicate AdminObject(a: Actor, m: Method)
  {
    if a.Member? then a.role == AdminRole || a.isSuperuser else false
  }

  /** IsAdminModeratorOwnerOrReadOnly.has_permission. */
  predicate ModeratorOwnerOrReadOnly(a: Actor, m: Method)
  {
    IsSafe(m) || a.Member?
  }

  /** IsAdminModeratorOwnerOrReadOnly.has_object_permission. The role of an
      anonymous actor does not exist (reading it raises), so the check is
      defined only when the method is safe or the actor is authenticated,
      which the view-level check guarantees before this one runs. */
  predicate ModeratorOwnerOrReadOnlyObject(a: Actor, m: Method, author: UserId)
    requires IsSafe(m) || a.Member?
  {
    || IsSafe(m)
    || (a.Member? && author == a.id)
    || a.role == ModeratorRole
    || a.role == AdminRole
  }

  /** The permission classes the views list: the four of the API and the
      three built-in ones of the framework. */
  datatype PermissionClass =
    | IsAdminOrReadOnly
    | NobodyAllow
    | IsAdmin
    | IsAdminModeratorOwnerOrReadOnly
    | AllowAny
    | IsAuthenticated
    | IsAuthenticatedOrReadOnly

  predicate HasPermission(p: PermissionClass, a: Actor, m: Method)
  {
    match p
    case IsAdminOrReadOnly => AdminOrReadOnly(a, m)
    case NobodyAllow => NobodyAllows(a, m)
    case IsAdmin => Admin(a, m)
    case IsAdminModeratorOwnerOrReadOnly => ModeratorOwnerOrReadOnly(a, m)
    case AllowAny => true
    case IsAuthenticated => a.Member?
    case IsAuthenticatedOrReadOnly => IsSafe(m) || a.Member?
  }

  /** The object-level check of each class; the built-in classes allow every
      object. */
  predicate HasObjectPermission(p: PermissionClass, a: Actor, m: Method, author: UserId)
    requires p == IsAdminModeratorOwnerOrReadOnly ==> IsSafe(m) || a.Member?
  {
    match p
    case IsAdminOrReadOnly => AdminOrReadOnlyObject(a, m)
    case NobodyAllow => NobodyAllows(a, m)
    case IsAdmin => AdminObject(a, m)
    case IsAdminModeratorOwnerOrReadOnly => ModeratorOwnerOrReadOnlyObject(a, m, author)
    case AllowAny => true
    case IsAuthenticated => true
    case IsAuthenticatedOrReadOnly => true
  }

  /** A view lets a request through only if each of its classes does, tried
      in order until one refuses. */
  predicate CheckPermissions(ps: seq<PermissionClass>, a: Actor, m: Method)
  {
    ps == [] || (HasPermission(ps[0], a, m) && CheckPermissions(ps[1..], a, m))
  }

  /** The same for objects, run only after the view-level check passed. */
  predicate CheckObjectPermissions(ps: seq<PermissionClass>, a: Actor, m: Method, author: UserId)
    requires CheckPermissions(ps, a, m)
  {
    ObjectCheckDefined(ps, a, m);
    ps == [] || (HasObjectPermission(ps[0], a, m, author) && CheckObjectPermissions(ps[1..], a, m, author))
  }

  /** Passing the view-level check of IsAdminModeratorOwnerOrReadOnly is
      what makes its object-level check defined. */
  lemma ObjectCheckDefined(ps: seq<PermissionClass>, a: Actor, m: Method)
    requires CheckPermissions(ps, a, m)
    ensures ps != [] ==> CheckPermissions(ps[1..], a, m)
    ensures ps != [] && ps[0] == IsAdminModeratorOwnerOrReadOnly ==> IsSafe(m) || a.Member?
  {
  }

  /** The combination is the conjunction over the listed classes. */
  lemma {:induction false} CheckPermissionsAll(ps: seq<PermissionClass>, a: Actor, m: Method)
    ensures CheckPermissions(ps, a, m) <==> forall i :: 0 <= i < |ps| ==> HasPermission(ps[i], a, m)
  {
    if ps != [] {
      CheckPermissionsAll(ps[1..], a, m);
      if CheckPermissions(ps, a, m) {
        forall i | 0 <= i < |ps|
          ensures HasPermission(ps[i], a, m)
        {
          if i > 0 {
            assert ps[i] == ps[1..][i - 1];
          }
        }
      }
      if forall i :: 0 <= i < |ps| ==> HasPermission(ps[i], a, m) {
        forall i | 0 <= i < |ps[1..]|
          ensures HasPermission(ps[1..][i], a, m)
        {
          assert ps[1..][i] == ps[i + 1];
        }
      }
    }
  }

  /** A view that lists one class decides as that class does. */
  lemma CheckOne(p: PermissionClass, a: Actor, m: Method)
    ensures CheckPermissions([p], a, m) <==> HasPermission(p, a, m)
  {
    assert [p][1..] == [];
  }

  // ---------------------------------------------------------------------
  // The classes each view lists

  /** The signup/token view set as a whole. */
  const CodeTokenPermissions: seq<PermissionClass> := [NobodyAllow]
  /** Its signup and token actions. */
  const SignupPermissions: seq<PermissionClass> := [AllowAny]
  const UserAdminPermissions: seq<PermissionClass> := [IsAdmin]
  /** The `me` action of the user view set. */
  const SelfProfilePermissions: seq<PermissionClass> := [IsAuthenticated]
  /** Categories and genres. */
  const CatalogPermissions: seq<PermissionClass> := [IsAdminOrReadOnly]
  const TitlePermissions: seq<PermissionClass> := [IsAdminOrReadOnly, IsAuthenticatedOrReadOnly]
  /** Reviews and comments. */
  const FeedbackPermissions: seq<PermissionClass> := [IsAdminModeratorOwnerOrReadOnly]

  // ---------------------------------------------------------------------
  // What the classes decide

  lemma AdminOrReadOnlyAnonymous(m: Method)
    ensures AdminOrReadOnly(Anonymous, m) <==> IsSafe(m)
    ensures AdminOrReadOnlyObject(Anonymous, m) <==> IsSafe(m)
  {
  }

  lemma AdminOrReadOnlyMember(a: Actor, m: Method)
    requires a.Member?
    ensures AdminOrReadOnly(a, m) <==> IsSafe(m) || a.role == AdminRole || a.isSuperuser
    ensures AdminOrReadOnlyObject(a, m) == AdminOrReadOnly(a, m)
  {
  }

  lemma NobodyAllowDenies(a: Actor, m: Method, author: UserId)
    ensures !HasPermission(NobodyAllow, a, m)
    ensures !HasObjectPermission(NobodyAllow, a, m, author)
  {
  }

  /** IsAdmin ignores the method: it admits exactly admins and superusers. */
  lemma AdminIgnoresMethod(a: Actor, m: Method, m': Method)
    ensures Admin(a, m) <==> a.Member? && (a.role == AdminRole || a.isSuperuser)
    ensures Admin(a, m) == Admin(a, m') && AdminObject(a, m) == Admin(a, m)
  {
  }

  lemma ModeratorOwnerOrReadOnlyDecides(a: Actor, m: Method)
    ensures ModeratorOwnerOrReadOnly(a, m) <==> IsSafe(m) || a.Member?
    ensures a.Anonymous? && !IsSafe(m) ==> !ModeratorOwnerOrReadOnly(a, m)
  {
  }

  /** The author, a moderator or an admin may write an object; a superuser
      who is none of these may not. */
  lemma ModeratorOwnerOrReadOnlyObjectDecides(a: Actor, m: Method, author: UserId)
    requires a.Member?
    ensures ModeratorOwnerOrReadOnlyObject(a, m, author) <==>
      IsSafe(m) || author == a.id || a.role in {ModeratorRole, AdminRole}
    ensures a.isSuperuser && a.role == UserRole && author != a.id && !IsSafe(m) ==>
      !ModeratorOwnerOrReadOnlyObject(a, m, author)
  {
  }

  /** Every class but IsAdmin, NobodyAllow and IsAuthenticated admits any
      safe request. */
  lemma SafeMethodsAdmitted(p: PermissionClass, a: Actor, m: Method, author: UserId)
    requires IsSafe(m) && p !in {IsAdmin, NobodyAllow, IsAuthenticated}
    ensures HasPermission(p, a, m) && HasObjectPermission(p, a, m, author)
  {
  }

  // ---------------------------------------------------------------------
  // What the views decide

  /** IsAuthenticatedOrReadOnly adds nothing to IsAdminOrReadOnly on titles. */
  lemma TitleViewIsAdminOrReadOnly(a: Actor, m: Method)
    ensures CheckPermissions(TitlePermissions, a, m) <==> AdminOrReadOnly(a, m)
  {
    CheckPermissionsAll(TitlePermissions, a, m);
  }

  /** No anonymous write gets past the view-level check of any view but the
      signup and token actions. */
  lemma AnonymousWritesDenied(ps: seq<PermissionClass>, m: Method)
    requires ps in {CodeTokenPermissions, UserAdminPermissions, SelfProfilePermissions,
                    CatalogPermissions, TitlePermissions, FeedbackPermissions}
    requires !IsSafe(m)
    ensures !CheckPermissions(ps, Anonymous, m)
  {
    CheckPermissionsAll(ps, Anonymous, m);
    assert !HasPermission(ps[0], Anonymous, m);
  }

  /** A request on a review or a comment passes both levels exactly when the
      method is safe, or the actor is authenticated and is the author, a
      moderator or an admin. */
  lemma FeedbackAccessDecides(a: Actor, m: Method, author: UserId)
    ensures CheckPermissions(FeedbackPermissions, a, m) && CheckObjectPermissions(FeedbackPermissions, a, m, author)
      <==> IsSafe(m) || (a.Member? && (author == a.id || a.role in {ModeratorRole, AdminRole}))
  {
    CheckOne(IsAdminModeratorOwnerOrReadOnly, a, m);
    assert FeedbackPermissions[1..] == [];
  }

  /** Reads of the catalogue, titles, reviews and comments are open to all. */
  lemma ReadsAdmitted(ps: seq<PermissionClass>, a: Actor, m: Method)
    requires ps in {CatalogPermissions, TitlePermissions, FeedbackPermissions, SignupPermissions}
    requires IsSafe(m)
    ensures CheckPermissions(ps, a, m)
  {
    CheckPermissionsAll(ps, a, m);
  }
}
