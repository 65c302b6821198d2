/** The access predicates of the order, delivery and prescription APIs
    (orders/permissions.py, delivery/permissions.py,
    prescriptions/permissions.py). Roles are the raw role strings of
    `User.role`; an anonymous user has no id, no role and no staff flags. */
module Access {
  import opened Wrappers

  datatype Actor = Actor(authenticated: bool, id: Option<nat>, role: string,
                         isStaff: bool, isSuperuser: bool)

  const Anonymous: Actor := Actor(false, None, "", false, false)

  /** DRF's SAFE_METHODS. */
  predicate IsSafeMethod(verb: string) {
    verb in {"GET", "HEAD", "OPTIONS"}
  }

  // ---------------------------------------------------------------
  // Orders
  // ---------------------------------------------------------------

  /** `OrderPermission.ROLE_ACTIONS.get(role, set())`. */
  function RoleActions(role: string): set<string> {
    match role
    case "admin" => {"*"}
    case "customer" => {"list", "retrieve", "create", "cancel"}
    case "operator" => {"list", "retrieve", "change_status"}
    case "courier" => {"list", "retrieve", "change_status"}
    case _ => {}
  }

  /** `OrderPermission.has_permission`; `action` is the view's action,
      absent outside a viewset. */
  predicate OrderHasPermission(a: Actor, verb: string, action: Option<string>) {
    if !a.authenticated then false
    else if a.role == "" then false
    else
      var allowed := RoleActions(a.role);
      if "*" in allowed then true
      else if IsSafeMethod(verb) && action.Some? && action.value in allowed then true
      else action.Some? && action.value in allowed
  }

  /** Anonymous and role-less users are always refused; admins always
      pass; everyone else passes exactly for the actions of their role, and
      the HTTP verb never matters. */
  lemma OrderPermissionIsRoleActions(a: Actor, verb: string, action: Option<string>)
    ensures !a.authenticated || a.role == "" ==> !OrderHasPermission(a, verb, action)
    ensures a.authenticated && a.role == "admin" ==> OrderHasPermission(a, verb, action)
    ensures a.authenticated && a.role != "admin" ==>
              (OrderHasPermission(a, verb, action) <==> action.Some? && action.value in RoleActions(a.role))
    ensures forall m :: OrderHasPermission(a, m, action) == OrderHasPermission(a, verb, action)
  {
  }

  /** What each non-admin role may do with an order. */
  lemma OrderRoleMatrix(a: Actor, verb: string)
    requires a.authenticated
    ensures a.role == "customer" ==>
              OrderHasPermission(a, verb, Some("create")) && OrderHasPermission(a, verb, Some("cancel"))
              && !OrderHasPermission(a, verb, Some("change_status"))
    ensures a.role in {"operator", "courier"} ==>
              OrderHasPermission(a, verb, Some("change_status"))
              && !OrderHasPermission(a, verb, Some("create")) && !OrderHasPermission(a, verb, Some("cancel"))
    ensures a.role !in {"admin", "customer", "operator", "courier"} ==> !OrderHasPermission(a, verb, Some("list"))
  {
  }

  /** `OrderPermission.has_object_permission` on an order owned by
      `userId` and assigned to `courierId`. */
  predicate OrderHasObjectPermission(a: Actor, userId: Option<nat>, courierId: Option<nat>) {
    if a.role == "admin" then true
    else if a.role == "customer" then userId == a.id
    else if a.role == "operator" then true
    else if a.role == "courier" then courierId == a.id
    else false
  }

  /** Admins and operators see every order, customers their own, couriers
      the ones assigned to them, and no other role any. */
  lemma OrderObjectScope(a: Actor, userId: Option<nat>, courierId: Option<nat>)
    ensures a.role in {"admin", "operator"} ==> OrderHasObjectPermission(a, userId, courierId)
    ensures a.role == "customer" ==> (OrderHasObjectPermission(a, userId, courierId) <==> userId == a.id)
    ensures a.role == "courier" ==> (OrderHasObjectPermission(a, userId, courierId) <==> courierId == a.id)
    ensures a.role !in {"admin", "operator", "customer", "courier"} ==> !OrderHasObjectPermission(a, userId, courierId)
  {
  }

  // ---------------------------------------------------------------
  // Delivery
  // ---------------------------------------------------------------

  /** `HasDeliveryRole`. */
  predicate HasDeliveryRole(a: Actor) {
    a.authenticated && a.role in {"admin", "operator", "courier"}
  }

  /** `IsCourierOwnDelivery.has_object_permission`. */
  predicate IsCourierOwnDelivery(a: Actor, courierId: Option<nat>) {
    if a.role in {"admin", "operator"} then true
    else if a.role == "courier" then courierId == a.id
    else false
  }

  /** `ReadOnlyForCourier.has_permission`. */
  predicate ReadOnlyForCourier(a: Actor, verb: string) {
    if a.role in {"admin", "operator"} then true
    else if a.role == "courier" then IsSafeMethod(verb)
    else false
  }

  /** `CanCourierUpdateStatus.has_permission`. */
  predicate CanCourierUpdateStatus(a: Actor) {
    a.authenticated && a.role == "courier"
  }

  /** The delivery permissions by role: customers are shut out, couriers
      are limited to their own deliveries and to reading, and only couriers
      (not admins) may update a delivery's status. */
  lemma DeliveryPermissionsByRole(a: Actor, courierId: Option<nat>, verb: string)
    ensures a.role == "customer" ==>
              !HasDeliveryRole(a) && !IsCourierOwnDelivery(a, courierId) && !ReadOnlyForCourier(a, verb)
    ensures a.role in {"admin", "operator"} ==> IsCourierOwnDelivery(a, courierId) && ReadOnlyForCourier(a, verb)
    ensures a.role == "courier" ==> (IsCourierOwnDelivery(a, courierId) <==> courierId == a.id)
    ensures a.role == "courier" ==> (ReadOnlyForCourier(a, verb) <==> IsSafeMethod(verb))
    ensures CanCourierUpdateStatus(a) <==> a.authenticated && a.role == "courier"
    ensures a.role == "admin" ==> !CanCourierUpdateStatus(a)
  {
  }

  // ---------------------------------------------------------------
  // Prescriptions
  // ---------------------------------------------------------------

  /** `IsCustomer`: authenticated, not staff, not a courier. */
  predicate IsCustomer(a: Actor) {
    a.authenticated && !a.isStaff && a.role != "courier"
  }

  /** `IsOperator`: staff but not superuser. */
  predicate IsOperator(a: Actor) {
    a.authenticated && a.isStaff && !a.isSuperuser
  }

  /** `IsAdmin`: superuser. */
  predicate IsAdmin(a: Actor) {
    a.authenticated && a.isSuperuser
  }

  /** `IsAdminOrOperator`: staff. */
  predicate IsAdminOrOperator(a: Actor) {
    a.authenticated && a.isStaff
  }

  /** `PrescriptionObjectPermission.has_permission`. */
  predicate PrescriptionHasPermission(a: Actor) {
    a.authenticated
  }

  /** `PrescriptionObjectPermission.has_object_permission` on a
      prescription owned by `ownerId`. */
  predicate PrescriptionHasObjectPermission(a: Actor, ownerId: nat, verb: string) {
    if a.isSuperuser then true
    else if a.isStaff then true
    else if a.id == Some(ownerId) && IsSafeMethod(verb) then true
    else false
  }

  /** The prescription permission classes: operator and admin exclude each
      other, a customer is neither, the admin-or-operator check admits
      exactly the staff, and the object check lets the owner only read. */
  lemma PrescriptionRoles(a: Actor, ownerId: nat, verb: string)
    ensures !(IsOperator(a) && IsAdmin(a))
    ensures IsOperator(a) ==> IsAdminOrOperator(a)
    ensures IsCustomer(a) ==> !IsOperator(a) && !IsAdminOrOperator(a)
    ensures PrescriptionHasPermission(a) <==> a.authenticated
    ensures a.isSuperuser || a.isStaff ==> PrescriptionHasObjectPermission(a, ownerId, verb)
    ensures !a.isSuperuser && !a.isStaff ==>
              (PrescriptionHasObjectPermission(a, ownerId, verb) <==> a.id == Some(ownerId) && IsSafeMethod(verb))
    ensures !PrescriptionHasObjectPermission(Anonymous, ownerId, verb)
  {
  }
}
