/** The two `DynamicRolePermission` classes and the legacy single-role
    classes. The first (core/permissions.py) decides from the effective role
    list; the second (apps/core/permissions.py) reads a single `role`
    attribute that the User model does not define. */
module Permissions {
  import opened Wrappers
  import opened Domain
  import opened Roles

  /** What a view exposes to the permission check. */
  datatype View = View(basename: string, action: string, httpMethod: string)

  /** The attributes of the object a detail route acts on. `None` means the
      object has no such attribute. `resident` is the user of
      `obj.resident`; `assignedTo` and `unionHead` are the values of those
      attributes, which may be empty; `buildingHead` is the union head of
      `obj.building`; `package` is set for a Package, whose linked buildings
      decide. */
  datatype Target = Target(
    resident: Option<nat>,
    assignedTo: Option<Option<nat>>,
    unionHead: Option<Option<nat>>,
    buildingHead: Option<Option<nat>>,
    package: Option<nat>)

  // ---------------------------------------------------------------------------
  // Role-list variant (core/permissions.py)

  /** `has_permission` (core/permissions.py:11-43). */
  function Allows(w: World, c: Caller, v: View): (r: bool)
    // anonymous callers never pass; staff and superusers always do
    ensures !c.authenticated ==> !r
    ensures c.authenticated && (c.user.isStaff || c.user.isSuperuser) ==> r
    // anyone signed in may read and update their notifications
    ensures c.authenticated && v.basename == "notification" && v.httpMethod in {"GET", "POST"} ==> r
    // heading a building, or holding the union_head role, opens every view
    ensures c.authenticated && "union_head" in EffectiveRoles(w, c.user.id) ==> r
    // otherwise a technician is confined to the maintenance and notification
    // views, and a resident who is not a technician to reading and creating
    ensures r && !(c.user.isStaff || c.user.isSuperuser) && "union_head" !in EffectiveRoles(w, c.user.id)
            && !(v.basename == "notification" && v.httpMethod in {"GET", "POST"}) ==>
              if "technician" in EffectiveRoles(w, c.user.id) then v.basename in {"maintenance", "notification"}
              else "resident" in EffectiveRoles(w, c.user.id) && v.action in {"list", "retrieve", "create"}
    // and those views are indeed open to them
    ensures c.authenticated && "technician" in EffectiveRoles(w, c.user.id) && v.basename in {"maintenance", "notification"} ==> r
    ensures (c.authenticated && "technician" !in EffectiveRoles(w, c.user.id) && "resident" in EffectiveRoles(w, c.user.id)
             && v.action in {"list", "retrieve", "create"}) ==> r
  {
    if !c.authenticated then false
    else if c.user.isSuperuser || c.user.isStaff then true
    else
      var roles := EffectiveRoles(w, c.user.id);
      if v.basename == "notification" && v.httpMethod in {"GET", "POST"} then true
      else if "union_head" in roles then true
      else if "technician" in roles then v.basename in {"maintenance", "notification"}
      else if "resident" in roles then v.action in {"list", "retrieve", "create"}
      else false
  }

  /** Whether some building linked to the package is headed by `user`. */
  predicate HeadsALinkedBuilding(w: World, package: nat, user: nat) {
    exists l, b :: l in w.links && l.package == package && b in w.buildings && b.id == l.building
                   && b.unionHead == Some(user)
  }

  /** `has_object_permission` (core/permissions.py:45-81). */
  function AllowsObject(w: World, c: Caller, t: Target): (r: bool)
    ensures c.user.isStaff || c.user.isSuperuser ==> r
    // a resident is judged by ownership before any union-head rule applies
    ensures !(c.user.isStaff || c.user.isSuperuser) && "resident" in EffectiveRoles(w, c.user.id) && t.resident.Some? ==>
              (r <==> t.resident.value == c.user.id)
    // granting needs one of: ownership, assignment, headship of the object or
    // of a building linked to the package
    ensures r && !(c.user.isStaff || c.user.isSuperuser) ==>
              t.resident == Some(c.user.id) || t.assignedTo == Some(Some(c.user.id))
              || t.unionHead == Some(Some(c.user.id))
              || (t.package.Some? && HeadsALinkedBuilding(w, t.package.value, c.user.id))
    // a technician is judged by assignment once the resident rule does not apply
    ensures !(c.user.isStaff || c.user.isSuperuser) && !("resident" in EffectiveRoles(w, c.user.id) && t.resident.Some?)
            && "technician" in EffectiveRoles(w, c.user.id) && t.assignedTo.Some? ==>
              (r <==> t.assignedTo.value == Some(c.user.id))
    // a union head is then judged by the object's head, or else by the
    // buildings linked to the package
    ensures !(c.user.isStaff || c.user.isSuperuser) && !("resident" in EffectiveRoles(w, c.user.id) && t.resident.Some?)
            && !("technician" in EffectiveRoles(w, c.user.id) && t.assignedTo.Some?)
            && "union_head" in EffectiveRoles(w, c.user.id) ==>
              (r <==> if t.unionHead.Some? then t.unionHead.value == Some(c.user.id)
                      else t.package.Some? && HeadsALinkedBuilding(w, t.package.value, c.user.id))
  {
    if c.user.isSuperuser || c.user.isStaff then true
    else
      var roles := EffectiveRoles(w, c.user.id);
      if "resident" in roles && t.resident.Some? then t.resident.value == c.user.id
      else if "technician" in roles && t.assignedTo.Some? then t.assignedTo.value == Some(c.user.id)
      else if "union_head" in roles then
        if t.unionHead.Some? then t.unionHead.value == Some(c.user.id)
        else if t.package.Some? then HeadsALinkedBuilding(w, t.package.value, c.user.id)
        else false
      else false
  }

  /** The role order matters: a technician who is also a resident cannot
      list what a plain resident can, because the technician rule is tried
      first. */
  lemma TechnicianShadowsResident(w: World, c: Caller, v: View)
    requires c.authenticated && !c.user.isStaff && !c.user.isSuperuser
    requires "technician" in UserRoles(w, c.user.id) && HasProfile(w, c.user.id)
    requires !HeadsABuilding(w, c.user.id) && "union_head" !in UserRoles(w, c.user.id)
    requires v == View("package", "list", "GET")
    ensures !Allows(w, c, v)
    ensures "resident" in EffectiveRoles(w, c.user.id)
  {
  }

  /** A resident who also heads the building is still refused an object of
      someone else's, however the union-head rule would have judged it. */
  lemma ResidentRuleShadowsHeadship(w: World, c: Caller, t: Target)
    requires !c.user.isStaff && !c.user.isSuperuser
    requires HasProfile(w, c.user.id) && HeadsABuilding(w, c.user.id)
    requires t.resident.Some? && t.resident.value != c.user.id && t.unionHead == Some(Some(c.user.id))
    ensures !AllowsObject(w, c, t)
  {
  }

  // ---------------------------------------------------------------------------
  // Single-role variant (apps/core/permissions.py)

  /** `has_permission` (apps/core/permissions.py:11-28). `role` is what
      `getattr(user, "role", None)` returns. */
  function AllowsByRole(c: Caller, role: Option<string>, v: View): (r: bool)
    ensures !c.authenticated ==> !r
    ensures c.authenticated && (c.user.isStaff || c.user.isSuperuser) ==> r
    ensures r && !(c.user.isStaff || c.user.isSuperuser) ==>
              role == Some("union_head")
              || (role == Some("resident") && v.action in {"list", "retrieve", "create"})
              || (role == Some("technician") && v.basename == "maintenancerequest")
    ensures c.authenticated && role == Some("union_head") ==> r
    ensures c.authenticated && role == Some("resident") && v.action in {"list", "retrieve", "create"} ==> r
    ensures c.authenticated && role == Some("technician") && v.basename == "maintenancerequest" ==> r
  {
    if !c.authenticated then false
    else if c.user.isSuperuser || c.user.isStaff then true
    else if role == Some("resident") then v.action in {"list", "retrieve", "create"}
    else if role == Some("technician") then v.basename == "maintenancerequest"
    else role == Some("union_head")
  }

  /** `has_object_permission` (apps/core/permissions.py:30-46). */
  function AllowsObjectByRole(c: Caller, role: Option<string>, t: Target): (r: bool)
    ensures c.user.isStaff || c.user.isSuperuser ==> r
    ensures r && !(c.user.isStaff || c.user.isSuperuser) ==>
              (role == Some("resident") && t.resident == Some(c.user.id))
              || (role == Some("technician") && t.assignedTo == Some(Some(c.user.id)))
              || (role == Some("union_head") && t.buildingHead == Some(Some(c.user.id)))
    ensures role == Some("resident") && t.resident == Some(c.user.id) ==> r
    ensures role == Some("technician") && t.assignedTo == Some(Some(c.user.id)) ==> r
    ensures role == Some("union_head") && t.buildingHead == Some(Some(c.user.id)) ==> r
  {
    if c.user.isSuperuser || c.user.isStaff then true
    else if role == Some("resident") && t.resident.Some? then t.resident.value == c.user.id
    else if role == Some("technician") && t.assignedTo.Some? then t.assignedTo.value == Some(c.user.id)
    else if role == Some("union_head") && t.buildingHead.Some? then t.buildingHead.value == Some(c.user.id)
    else false
  }

  /** The legacy classes (apps/core/permissions.py:49-59). */
  function IsUnionHead(role: Option<string>): (r: bool)
    ensures r <==> role == Some("union_head")
  {
    role == Some("union_head")
  }

  function IsResident(role: Option<string>): (r: bool)
    ensures r <==> role == Some("resident")
  {
    role == Some("resident")
  }

  function IsTechnician(role: Option<string>): (r: bool)
    ensures r <==> role == Some("technician")
  {
    role == Some("technician")
  }

  /** The User model has no `role` attribute, so `getattr` yields `None`:
      the single-role variant admits exactly staff and superusers, and every
      legacy class refuses everyone. */
  lemma SingleRoleVariantAdmitsOnlyStaff(w: World, c: Caller, v: View, t: Target)
    ensures AllowsByRole(c, None, v) <==> c.authenticated && (c.user.isStaff || c.user.isSuperuser)
    ensures AllowsObjectByRole(c, None, t) <==> c.user.isStaff || c.user.isSuperuser
    ensures !IsUnionHead(None) && !IsResident(None) && !IsTechnician(None)
    // while the role-list variant lets any building's head through
    ensures c.authenticated && HeadsABuilding(w, c.user.id) ==> Allows(w, c, v)
  {
  }
}
