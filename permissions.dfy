/** The permission classes: each is a decision over `request.user`, the HTTP
    method and, for object permissions, the object. A denial carries the
    exception kind DRF raises and the detail dict passed to it. */
module Permissions {
  import opened Python
  import Utils

  datatype Role = Merchant | Consumer | Administrator

  /** The fields of `request.user` the predicates read. An anonymous user
      is a `User` whose `isAuthenticated` is false. */
  datatype User = User(id: int, role: Role, isStaff: bool, isSuperuser: bool,
                       isAuthenticated: bool, isVerified: bool)

  /** A model instance as Django compares it: two instances are equal when
      they belong to the same concrete model and have the same primary key. */
  datatype ModelRef = ModelRef(model: string, pk: int)

  function UserRef(u: User): ModelRef
  {
    ModelRef("User", u.id)
  }

  /** The object an object permission is checked against: its own identity,
      and its `user` and `merchant` attributes (None when the object has no
      such attribute or it is null). */
  datatype Obj = Obj(self: ModelRef, user: Option<ModelRef>, merchant: Option<ModelRef>)

  datatype DenyKind = NotAuthenticatedError | PermissionDeniedError

  datatype Decision = Allow | Deny(kind: DenyKind, detail: map<string, Value>)

  const SafeMethods: seq<string> := ["GET", "HEAD", "OPTIONS"]

  /** True when `request.user` is present and authenticated. */
  predicate Authenticated(u: Option<User>)
  {
    u.Some? && u.value.isAuthenticated
  }

  /** The detail of the 403 the derived predicates raise: a formatted
      envelope with `permission` as the only error. */
  function PermissionDenied(reason: string): (d: Decision)
    ensures d.Deny? && d.kind == PermissionDeniedError
    ensures "success" in d.detail && d.detail["success"] == Bool(false)
    ensures "errors" in d.detail && d.detail["errors"] == Dict(map["permission" := Str(reason)])
    ensures "data" !in d.detail
  {
    var envelope := Utils.FormatResponse(message := Str("Permission denied"),
                                         errors := Dict(map["permission" := Str(reason)]),
                                         statusCode := 403, success := false);
    Deny(PermissionDeniedError, envelope.body)
  }

  /** `CustomIsAuthenticated.has_permission` (core/utils/permissions.py). */
  function CustomIsAuthenticated(u: Option<User>): (d: Decision)
    ensures d.Allow? <==> Authenticated(u)
    ensures d.Deny? ==> (d.kind == NotAuthenticatedError &&
      d.detail == map["error" := Str("Authentication required"), "success" := Bool(false), "data" := Null])
  {
    if !Authenticated(u) then
      Deny(NotAuthenticatedError,
           map["error" := Str("Authentication required"), "success" := Bool(false), "data" := Null])
    else Allow
  }

  /** The older `CustomIsAuthenticated` of core/permissions.py: same test, but
      it raises PermissionDenied. */
  function LegacyIsAuthenticated(u: Option<User>): (d: Decision)
    ensures d.Allow? <==> Authenticated(u)
    ensures d.Deny? ==> (d.kind == PermissionDeniedError &&
      "success" in d.detail && d.detail["success"] == Bool(false) &&
      "data" in d.detail && d.detail["data"] == Null)
  {
    if !Authenticated(u) then
      Deny(PermissionDeniedError,
           map["error" := Str("Authentication required. Please log in."), "success" := Bool(false), "data" := Null])
    else Allow
  }

  function IsAdminUser(u: Option<User>): (d: Decision)
  {
    if !Authenticated(u) then CustomIsAuthenticated(u)
    else if u.value.role != Administrator then PermissionDenied("Administrator access required")
    else Allow
  }

  function IsSelfOrAdmin(u: Option<User>, obj: Obj): (d: Decision)
  {
    if !Authenticated(u) then CustomIsAuthenticated(u)
    else if u.value.role == Administrator || obj.self == UserRef(u.value) then Allow
    else PermissionDenied("You can only access your own data")
  }

  function IsSuperAdmin(u: Option<User>): (d: Decision)
  {
    if !Authenticated(u) then CustomIsAuthenticated(u)
    else if !u.value.isSuperuser then PermissionDenied("Super admin access required")
    else Allow
  }

  function IsAdminOrReadOnly(u: Option<User>, httpMethod: string): (d: Decision)
  {
    if !Authenticated(u) then CustomIsAuthenticated(u)
    else if httpMethod in SafeMethods then Allow
    else if !u.value.isStaff then PermissionDenied("Admin access required for write operations")
    else Allow
  }

  function IsOwnerOrAdmin(u: Option<User>, obj: Obj): (d: Decision)
  {
    if !Authenticated(u) then CustomIsAuthenticated(u)
    else if u.value.isStaff || u.value.isSuperuser then Allow
    else if obj.user.None? || obj.user.value != UserRef(u.value) then
      PermissionDenied("You must be the owner or admin to perform this action")
    else Allow
  }

  /** As written: `obj.merchant == request.user`. */
  function IsMerchantOwnerOrAdmin(u: Option<User>, obj: Obj): (d: Decision)
  {
    if !Authenticated(u) then CustomIsAuthenticated(u)
    else if u.value.role == Administrator || u.value.isStaff then Allow
    else if obj.merchant.Some? && obj.merchant.value == UserRef(u.value) then Allow
    else PermissionDenied("You can only access your own offers")
  }

  /** The evidently intended merchant check: the merchant profile's primary
      key is its user's id, so compare that key with the caller's id. */
  function IsMerchantOwnerOrAdminByKey(u: Option<User>, obj: Obj): (d: Decision)
  {
    if !Authenticated(u) then CustomIsAuthenticated(u)
    else if u.value.role == Administrator || u.value.isStaff then Allow
    else if obj.merchant.Some? && obj.merchant.value.pk == u.value.id then Allow
    else PermissionDenied("You can only access your own offers")
  }

  /** `IsDonationOwnerOrAdmin.has_object_permission`, written twice in the
      source (core/donations/views.py and core/utils/permissions.py) with the
      same body. */
  function IsDonationOwnerOrAdmin(u: Option<User>, donor: int, recipient: Option<int>): (d: Decision)
  {
    if !Authenticated(u) then CustomIsAuthenticated(u)
    else if u.value.role == Administrator || u.value.isStaff then Allow
    else if donor == u.value.id || (recipient.Some? && recipient.value == u.value.id) then Allow
    else PermissionDenied("You can only access your own donations")
  }

  // ---------------------------------------------------------------------
  // What the predicates promise

  /** Every derived predicate runs the authentication check first: an
      unauthenticated caller gets exactly `CustomIsAuthenticated`'s
      NotAuthenticated, whatever the object or method. */
  lemma AuthenticationComesFirst(u: Option<User>, obj: Obj, httpMethod: string, donor: int, recipient: Option<int>)
    requires !Authenticated(u)
    ensures var na := CustomIsAuthenticated(u);
      && na.Deny? && na.kind == NotAuthenticatedError
      && IsAdminUser(u) == na && IsSelfOrAdmin(u, obj) == na && IsSuperAdmin(u) == na
      && IsAdminOrReadOnly(u, httpMethod) == na && IsOwnerOrAdmin(u, obj) == na
      && IsMerchantOwnerOrAdmin(u, obj) == na && IsDonationOwnerOrAdmin(u, donor, recipient) == na
  {
  }

  /** Role-only admin checks: `IsAdminUser` passes exactly for the
      administrator role and ignores the staff and superuser flags. */
  lemma AdminUserIgnoresFlags(u: User, staff: bool, superuser: bool)
    requires u.isAuthenticated
    ensures IsAdminUser(Some(u)).Allow? <==> u.role == Administrator
    ensures IsAdminUser(Some(u.(isStaff := staff, isSuperuser := superuser))) == IsAdminUser(Some(u))
  {
  }

  /** `IsSuperAdmin` passes exactly for superusers, whatever the role. */
  lemma SuperAdminIsSuperuser(u: User, role: Role)
    requires u.isAuthenticated
    ensures IsSuperAdmin(Some(u)).Allow? <==> u.isSuperuser
    ensures IsSuperAdmin(Some(u.(role := role))) == IsSuperAdmin(Some(u))
  {
  }

  /** `IsSelfOrAdmin` passes exactly for administrators and for the caller's
      own user object; an object of another model never matches. */
  lemma SelfOrAdminExactly(u: User, obj: Obj)
    requires u.isAuthenticated
    ensures IsSelfOrAdmin(Some(u), obj).Allow? <==>
      (u.role == Administrator || (obj.self.model == "User" && obj.self.pk == u.id))
  {
  }

  /** Safe methods always pass for an authenticated caller; a write passes
      exactly for staff. */
  lemma ReadOnlyForNonStaff(u: User, httpMethod: string)
    requires u.isAuthenticated
    ensures httpMethod in SafeMethods ==> IsAdminOrReadOnly(Some(u), httpMethod) == Allow
    ensures httpMethod !in SafeMethods ==> (IsAdminOrReadOnly(Some(u), httpMethod).Allow? <==> u.isStaff)
  {
  }

  /** `IsOwnerOrAdmin`: staff or superuser pass; everyone else needs an
      object whose `user` is the caller, and an object without one is
      refused. */
  lemma OwnerOrAdminExactly(u: User, obj: Obj)
    requires u.isAuthenticated
    ensures IsOwnerOrAdmin(Some(u), obj).Allow? <==>
      (u.isStaff || u.isSuperuser || obj.user == Some(UserRef(u)))
    ensures !u.isStaff && !u.isSuperuser && obj.user.None? ==> IsOwnerOrAdmin(Some(u), obj).Deny?
  {
  }

  /** Donation access: administrators, staff, the donor, and the bound
      recipient pass; an unbound recipient matches no one. */
  lemma DonationAccessExactly(u: User, donor: int, recipient: Option<int>)
    requires u.isAuthenticated
    ensures IsDonationOwnerOrAdmin(Some(u), donor, recipient).Allow? <==>
      (u.role == Administrator || u.isStaff || donor == u.id || recipient == Some(u.id))
    ensures IsDonationOwnerOrAdmin(Some(u), donor, recipient).Deny? ==>
      IsDonationOwnerOrAdmin(Some(u), donor, recipient).kind == PermissionDeniedError
  {
  }

  /** The legacy check and the current one accept the same callers and differ
      only in the exception raised on refusal. */
  lemma LegacyDiffersOnlyInKind(u: Option<User>)
    ensures LegacyIsAuthenticated(u).Allow? <==> CustomIsAuthenticated(u).Allow?
    ensures !Authenticated(u) ==>
      LegacyIsAuthenticated(u).kind == PermissionDeniedError
      && CustomIsAuthenticated(u).kind == NotAuthenticatedError
  {
  }

  /** Finding: a merchant's offer has `merchant` pointing at a Merchant
      profile, and a Merchant never equals a User, so the as-written check
      refuses the offer's own merchant. */
  lemma MerchantNeverMatchesUser(u: User, offer: ModelRef)
    requires u.isAuthenticated && u.role == Merchant && !u.isStaff
    ensures var obj := Obj(offer, None, Some(ModelRef("Merchant", u.id)));
      && IsMerchantOwnerOrAdmin(Some(u), obj).Deny?
      && IsMerchantOwnerOrAdminByKey(Some(u), obj) == Allow
  {
  }

  /** The corrected check passes exactly for administrators, staff, and the
      merchant whose profile key is the caller's id. */
  lemma MerchantOwnerByKeyExactly(u: User, obj: Obj)
    requires u.isAuthenticated
    ensures IsMerchantOwnerOrAdminByKey(Some(u), obj).Allow? <==>
      (u.role == Administrator || u.isStaff || (obj.merchant.Some? && obj.merchant.value.pk == u.id))
  {
  }
}
