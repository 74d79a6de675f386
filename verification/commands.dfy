/** The three maintenance commands of the backend:
    `cleanup_rejected_profiles` (retention of rejected join requests),
    `sync_user_roles` (role rows derived from profiles and buildings) and
    `approve_buildings` (bulk approval under the admin account). */
module Commands {
  import opened Wrappers
  import opened Calendar
  import opened Domain
  import Roles
  import Seqs
  import BuildingViews

  // ---------------------------------------------------------------------------
  // cleanup_rejected_profiles

  const RetentionDays: nat := 15

  /** A rejected profile whose rejection is strictly older than the
      retention period. */
  predicate RejectionExpired(p: ResidentProfile, now: Instant) {
    p.status == Rejected && p.rejectedAt.Some? && InstantBefore(p.rejectedAt.value, MinusDays(now, RetentionDays))
  }

  function KeptProfiles(ps: seq<ResidentProfile>, now: Instant): (r: seq<ResidentProfile>)
    ensures |r| <= |ps|
    ensures forall p :: p in r <==> p in ps && !RejectionExpired(p, now)
    ensures (forall p :: p in ps ==> !RejectionExpired(p, now)) ==> r == ps
  {
    if |ps| == 0 then []
    else
      var rest := KeptProfiles(ps[1..], now);
      assert forall p :: p in ps <==> p == ps[0] || p in ps[1..];
      if RejectionExpired(ps[0], now) then rest
      else
        assert ps == [ps[0]] + ps[1..];
        [ps[0]] + rest
  }

  function ExpiredIds(ps: seq<ResidentProfile>, now: Instant): (r: set<nat>)
    ensures forall id :: id in r <==> exists p :: p in ps && RejectionExpired(p, now) && p.id == id
  {
    set p | p in ps && RejectionExpired(p, now) :: p.id
  }

  predicate InvoiceOf(v: PackageInvoice, gone: set<nat>) {
    v.resident.Some? && v.resident.value in gone
  }

  /** Package invoices left once the profiles `gone` are deleted: the
      resident key cascades. */
  function KeptInvoices(vs: seq<PackageInvoice>, gone: set<nat>): (r: seq<PackageInvoice>)
    ensures |r| <= |vs|
    ensures forall v :: v in r <==> v in vs && !InvoiceOf(v, gone)
    ensures (exists i :: 0 <= i < |vs| && InvoiceOf(vs[i], gone)) ==> |r| < |vs|
    ensures (forall v :: v in vs ==> !InvoiceOf(v, gone)) ==> r == vs
  {
    if |vs| == 0 then []
    else
      var rest := KeptInvoices(vs[1..], gone);
      assert forall v :: v in vs <==> v == vs[0] || v in vs[1..];
      assert forall i :: 1 <= i < |vs| ==> vs[i] == vs[1..][i - 1];
      if InvoiceOf(vs[0], gone) then rest
      else
        assert vs == [vs[0]] + vs[1..];
        [vs[0]] + rest
  }

  /** Maintenance requests left once the profiles `gone` are deleted. */
  function KeptRequests(ms: seq<MaintenanceRequest>, gone: set<nat>): (r: seq<MaintenanceRequest>)
    ensures |r| <= |ms|
    ensures forall m :: m in r <==> m in ms && m.resident !in gone
    ensures (forall m :: m in ms ==> m.resident !in gone) ==> r == ms
    // a request filed by a deleted profile goes
    ensures (exists m :: m in ms && m.resident in gone) ==> |r| < |ms|
  {
    if |ms| == 0 then []
    else
      var rest := KeptRequests(ms[1..], gone);
      assert forall m :: m in ms <==> m == ms[0] || m in ms[1..];
      if ms[0].resident in gone then rest
      else
        assert ms == [ms[0]] + ms[1..];
        [ms[0]] + rest
  }

  /** The world after the cascade and the count the command reports. */
  datatype Cleaned = Cleaned(w: World, deleted: nat)

  /** The deletion itself, common to both counts. */
  function Purge(w: World, now: Instant): (r: World)
    ensures forall p :: p in r.profiles <==> p in w.profiles && !RejectionExpired(p, now)
    ensures forall v :: v in r.invoices <==> v in w.invoices && !InvoiceOf(v, ExpiredIds(w.profiles, now))
    ensures forall m :: m in r.maintenance <==> m in w.maintenance && m.resident !in ExpiredIds(w.profiles, now)
    ensures |r.profiles| <= |w.profiles| && |r.invoices| <= |w.invoices| && |r.maintenance| <= |w.maintenance|
    // every other table is as it was
    ensures r == w.(profiles := r.profiles, invoices := r.invoices, maintenance := r.maintenance)
  {
    var gone := ExpiredIds(w.profiles, now);
    w.(profiles := KeptProfiles(w.profiles, now),
       invoices := KeptInvoices(w.invoices, gone),
       maintenance := KeptRequests(w.maintenance, gone))
  }

  /** The keys of the maintenance requests the cleanup deletes. */
  function GoneRequests(w: World, now: Instant): set<nat> {
    set m | m in w.maintenance && m.resident in ExpiredIds(w.profiles, now) :: m.id
  }

  /** As written: `QuerySet.delete()` returns the number of rows deleted
      across every model the deletion cascaded to, and the command reports
      that total as the number of profiles. The cascade reaches one table
      the world does not keep: each maintenance request's invoice
      (apps/maintenance/models.py:19-20). `maintenanceInvoices` is that
      table, each row given by the key of the request it belongs to. */
  function CleanupAsWritten(w: World, now: Instant, maintenanceInvoices: seq<nat>): (r: Cleaned)
    ensures r.w == Purge(w, now)
    // profiles, their package invoices and maintenance requests, and the
    // maintenance invoices of those requests
    ensures r.deleted == (|w.profiles| - |r.w.profiles|) + (|w.invoices| - |r.w.invoices|) + (|w.maintenance| - |r.w.maintenance|)
                         + |Seqs.Filter(maintenanceInvoices, (k: nat) => k in GoneRequests(w, now))|
  {
    var w1 := Purge(w, now);
    var gone := GoneRequests(w, now);
    Cleaned(w1, (|w.profiles| - |w1.profiles|) + (|w.invoices| - |w1.invoices|) + (|w.maintenance| - |w1.maintenance|)
                + |Seqs.Filter(maintenanceInvoices, (k: nat) => k in gone)|)
  }

  /** The command with the count it describes: the profiles deleted. */
  function Cleanup(w: World, now: Instant): (r: Cleaned)
    ensures forall p :: p in r.w.profiles <==> p in w.profiles && !RejectionExpired(p, now)
    ensures r.w == w.(profiles := r.w.profiles, invoices := r.w.invoices, maintenance := r.w.maintenance)
    ensures r.deleted == |w.profiles| - |r.w.profiles|
  {
    var w1 := Purge(w, now);
    Cleaned(w1, |w.profiles| - |w1.profiles|)
  }

  /** A rejected profile that owes a package invoice makes the reported
      count exceed the profiles actually deleted. */
  lemma CascadeInflatesCount(w: World, now: Instant, k: nat, i: nat, maintenanceInvoices: seq<nat>)
    requires k < |w.profiles| && RejectionExpired(w.profiles[k], now)
    requires i < |w.invoices| && w.invoices[i].resident == Some(w.profiles[k].id)
    ensures CleanupAsWritten(w, now, maintenanceInvoices).deleted > Cleanup(w, now).deleted
  {
    var gone := ExpiredIds(w.profiles, now);
    assert w.profiles[k] in w.profiles;
    assert InvoiceOf(w.invoices[i], gone);
  }

  /** A deleted maintenance request that was invoiced adds its invoice to
      the reported count as well. */
  lemma MaintenanceInvoiceCounted(w: World, now: Instant, j: nat, maintenanceInvoices: seq<nat>)
    requires j < |w.maintenance| && w.maintenance[j].resident in ExpiredIds(w.profiles, now)
    requires w.maintenance[j].id in maintenanceInvoices
    ensures CleanupAsWritten(w, now, maintenanceInvoices).deleted >= Cleanup(w, now).deleted + 2
  {
    var m := w.maintenance[j];
    assert m in w.maintenance;
    assert m.id in GoneRequests(w, now);
    assert m.id in Seqs.Filter(maintenanceInvoices, (k: nat) => k in GoneRequests(w, now));
  }

  /** The corrected count is exactly the number of profiles that were
      rejected more than fifteen days ago. */
  lemma CleanupCountsExpired(w: World, now: Instant)
    ensures Cleanup(w, now).deleted == |Seqs.Filter(w.profiles, (p: ResidentProfile) => RejectionExpired(p, now))|
  {
    KeptSplit(w.profiles, now);
  }

  lemma {:induction false} KeptSplit(ps: seq<ResidentProfile>, now: Instant)
    ensures |KeptProfiles(ps, now)| + |Seqs.Filter(ps, (p: ResidentProfile) => RejectionExpired(p, now))| == |ps|
  {
    if |ps| > 0 {
      KeptSplit(ps[1..], now);
    }
  }

  /** Running the cleanup again straight away deletes nothing. */
  lemma CleanupIdempotent(w: World, now: Instant)
    ensures var once := Cleanup(w, now).w;
            Cleanup(once, now) == Cleaned(once, 0)
  {
    var once := Cleanup(w, now).w;
    assert ExpiredIds(once.profiles, now) == {};
    assert Purge(once, now) == once;
  }

  /** Rejecting a join request through the API leaves `rejectedAt` unset, so
      if no profile carried a stamp before, the cleanup never deletes the
      rejected profile, however long ago it was rejected. */
  lemma ApiRejectionsAreNeverCleaned(w: World, building: nat, id: nat, reason: Option<string>, now: Instant)
    requires forall p :: p in w.profiles ==> p.rejectedAt.None?
    requires BuildingViews.AcceptRequest(w, building, Some(id), "reject", reason).status == 200
    ensures var w1 := BuildingViews.AcceptRequest(w, building, Some(id), "reject", reason).w;
            Cleanup(w1, now) == Cleaned(w1, 0)
  {
    var w1 := BuildingViews.AcceptRequest(w, building, Some(id), "reject", reason).w;
    var i :| 0 <= i < |w.profiles| && BuildingViews.PendingRequest(w, building, id, w.profiles[i])
             && w1 == w.(profiles := w.profiles[i := w.profiles[i].(status := Rejected)],
                          notices := w.notices + [Notice(w.profiles[i].user, BuildingViews.RejectionNotice(reason))]);
    assert forall k :: 0 <= k < |w1.profiles| ==> w1.profiles[k].rejectedAt == w.profiles[k].rejectedAt;
    assert forall p :: p in w1.profiles ==> !RejectionExpired(p, now);
    assert ExpiredIds(w1.profiles, now) == {};
    assert Purge(w1, now) == w1;
  }

  // ---------------------------------------------------------------------------
  // sync_user_roles

  /** The rows after granting `role` to each user in turn, skipping users
      who already hold it. */
  function Grant(urs: seq<UserRole>, users: seq<nat>, role: nat): (r: seq<UserRole>)
    ensures |urs| <= |r| && r[..|urs|] == urs
    ensures forall u :: u in users ==> UserRole(u, role) in r
    ensures forall x :: x in r ==> x in urs || (x.role == role && x.user in users)
    ensures Seqs.NoDuplicates(urs) ==> Seqs.NoDuplicates(r)
    ensures (forall u :: u in users ==> UserRole(u, role) in urs) ==> r == urs
    decreases |users|
  {
    if |users| == 0 then urs
    else
      var row := UserRole(users[0], role);
      assert forall u :: u in users <==> u == users[0] || u in users[1..];
      if row in urs then Grant(urs, users[1..], role)
      else
        var next := urs + [row];
        assert Seqs.NoDuplicates(urs) ==> Seqs.NoDuplicates(next) by {
          if Seqs.NoDuplicates(urs) {
            Roles.NoDuplicatesSnoc(urs, row);
          }
        }
        var r := Grant(next, users[1..], role);
        assert r[..|urs|] == r[..|next|][..|urs|];
        assert row in r by {
          assert r[|urs|] == r[..|next|][|urs|];
        }
        assert forall x :: x in urs ==> x in r by {
          forall x | x in urs ensures x in r {
            var k :| 0 <= k < |urs| && urs[k] == x;
            assert r[k] == r[..|urs|][k];
          }
        }
        r
  }

  /** The owner of every profile, in table order. */
  function ProfileUsers(ps: seq<ResidentProfile>): (r: seq<nat>)
    ensures forall u :: u in r <==> exists p :: p in ps && p.user == u
  {
    if |ps| == 0 then []
    else
      assert forall p :: p in ps <==> p == ps[0] || p in ps[1..];
      [ps[0].user] + ProfileUsers(ps[1..])
  }

  /** The head of every building that has one, in table order. */
  function HeadUsers(bs: seq<Building>): (r: seq<nat>)
    ensures forall u :: u in r <==> exists b :: b in bs && b.unionHead == Some(u)
  {
    if |bs| == 0 then []
    else
      assert forall b :: b in bs <==> b == bs[0] || b in bs[1..];
      (if bs[0].unionHead.Some? then [bs[0].unionHead.value] else []) + HeadUsers(bs[1..])
  }

  const RoleNames: seq<string> := ["resident", "union_head"]

  /** `sync_user_roles`. The database's guarantees on the role tables are
      assumed of the world it starts from. */
  function SyncUserRoles(w: World): (r: World)
    requires Roles.RolesWellFormed(w.roles, w.userRoles)
    ensures Roles.RolesWellFormed(r.roles, r.userRoles)
    // only the role tables change, and only by appending
    ensures r == w.(roles := r.roles, userRoles := r.userRoles)
    ensures |w.roles| <= |r.roles| && r.roles[..|w.roles|] == w.roles
    ensures |w.userRoles| <= |r.userRoles| && r.userRoles[..|w.userRoles|] == w.userRoles
    // every resident and every head holds the matching role
    ensures forall p :: p in w.profiles ==> "resident" in Roles.UserRoles(r, p.user)
    ensures forall b :: b in w.buildings && b.unionHead.Some? ==> "union_head" in Roles.UserRoles(r, b.unionHead.value)
    // and nobody else gains a row
    ensures forall x :: x in r.userRoles ==> x in w.userRoles || HasProfile(w, x.user) || HeadsABuilding(w, x.user)
  {
    var roles := Roles.EnsureRoles(w.roles, RoleNames);
    assert Roles.HasRoleNamed(roles, RoleNames[0]) && Roles.HasRoleNamed(roles, RoleNames[1]);
    var rid := Roles.RoleIdFor(roles, "resident");
    var hid := Roles.RoleIdFor(roles, "union_head");
    var u1 := Grant(w.userRoles, ProfileUsers(w.profiles), rid);
    var u2 := Grant(u1, HeadUsers(w.buildings), hid);
    TwoGrants(w.userRoles, ProfileUsers(w.profiles), rid, HeadUsers(w.buildings), hid);
    GrantKeepsAll(u1, HeadUsers(w.buildings), hid, ProfileUsers(w.profiles), rid);
    GrantedRoleHeld(roles, u2, ProfileUsers(w.profiles), rid, "resident");
    GrantedRoleHeld(roles, u2, HeadUsers(w.buildings), hid, "union_head");
    w.(roles := roles, userRoles := u2)
  }

  /** Two grants in a row only append, and only rows for the granted users. */
  lemma TwoGrants(urs: seq<UserRole>, us1: seq<nat>, id1: nat, us2: seq<nat>, id2: nat)
    ensures var u2 := Grant(Grant(urs, us1, id1), us2, id2);
            && |urs| <= |u2| && u2[..|urs|] == urs
            && (forall x :: x in u2 ==> x in urs || x.user in us1 || x.user in us2)
            && (Seqs.NoDuplicates(urs) ==> Seqs.NoDuplicates(u2))
  {
    var u1 := Grant(urs, us1, id1);
    var u2 := Grant(u1, us2, id2);
    assert u2[..|urs|] == u2[..|u1|][..|urs|];
  }

  /** Users whose row for role `id` exists hold the role's name. */
  lemma GrantedRoleHeld(roles: seq<Role>, urs: seq<UserRole>, users: seq<nat>, id: nat, name: string)
    requires Roles.RolesWellFormed(roles, [])
    requires exists k :: 0 <= k < |roles| && roles[k].name == name && roles[k].id == id
    requires forall u :: u in users ==> UserRole(u, id) in urs
    ensures forall u :: u in users ==> name in Roles.AssignedRoles(roles, urs, u)
  {
    forall u | u in users ensures name in Roles.AssignedRoles(roles, urs, u) {
      RowGivesRole(roles, urs, u, id, name);
    }
  }

  /** A second grant keeps the rows of the first. */
  lemma GrantKeepsAll(urs: seq<UserRole>, users: seq<nat>, role: nat, earlier: seq<nat>, id: nat)
    requires forall u :: u in earlier ==> UserRole(u, id) in urs
    ensures forall u :: u in earlier ==> UserRole(u, id) in Grant(urs, users, role)
  {
    forall u | u in earlier ensures UserRole(u, id) in Grant(urs, users, role) {
      GrantKeeps(urs, users, role, UserRole(u, id));
    }
  }

  lemma GrantKeeps(urs: seq<UserRole>, users: seq<nat>, role: nat, x: UserRole)
    requires x in urs
    ensures x in Grant(urs, users, role)
  {
    var r := Grant(urs, users, role);
    var k :| 0 <= k < |urs| && urs[k] == x;
    assert r[k] == r[..|urs|][k];
  }

  /** A row for the role called `name` puts `name` among the user's roles. */
  lemma RowGivesRole(roles: seq<Role>, urs: seq<UserRole>, user: nat, id: nat, name: string)
    requires Roles.RolesWellFormed(roles, [])
    requires exists k :: 0 <= k < |roles| && roles[k].name == name && roles[k].id == id
    requires UserRole(user, id) in urs
    ensures name in Roles.AssignedRoles(roles, urs, user)
  {
    var k :| 0 <= k < |roles| && roles[k].name == name && roles[k].id == id;
    Roles.RoleNameOfRow(roles, k);
    var j :| 0 <= j < |urs| && urs[j] == UserRole(user, id);
    assert urs[j].user == user && Roles.RoleName(roles, urs[j].role) == Some(name);
  }

  /** The sync never takes a role away: every name a user held before, the
      user still holds. */
  lemma SyncOnlyAdds(w: World, user: nat, name: string)
    requires Roles.RolesWellFormed(w.roles, w.userRoles)
    requires name in Roles.UserRoles(w, user)
    ensures name in Roles.UserRoles(SyncUserRoles(w), user)
  {
    var r := SyncUserRoles(w);
    KeepsAssigned(w.roles, r.roles, w.userRoles, r.userRoles, user, name);
  }

  /** Appending role rows and user-role rows keeps every name assigned. */
  lemma KeepsAssigned(roles: seq<Role>, roles2: seq<Role>, urs: seq<UserRole>, urs2: seq<UserRole>, user: nat, name: string)
    requires |roles| <= |roles2| && roles2[..|roles|] == roles
    requires |urs| <= |urs2| && urs2[..|urs|] == urs
    requires name in Roles.AssignedRoles(roles, urs, user)
    ensures name in Roles.AssignedRoles(roles2, urs2, user)
  {
    var j :| 0 <= j < |urs| && urs[j].user == user && Roles.RoleName(roles, urs[j].role) == Some(name);
    assert roles2 == roles + roles2[|roles|..];
    Roles.RoleNameAppend(roles, roles2[|roles|..], urs[j].role);
    assert urs2[j] == urs2[..|urs|][j];
  }

  /** With both role rows present, ensuring them changes nothing. */
  lemma EnsurePresent(roles: seq<Role>)
    requires Roles.RolesWellFormed(roles, [])
    requires Roles.HasRoleNamed(roles, "resident") && Roles.HasRoleNamed(roles, "union_head")
    ensures Roles.EnsureRoles(roles, RoleNames) == roles
  {
    assert RoleNames[1..][1..] == [];
  }

  /** A second sync adds nothing. */
  lemma SyncIdempotent(w: World)
    requires Roles.RolesWellFormed(w.roles, w.userRoles)
    ensures SyncUserRoles(SyncUserRoles(w)) == SyncUserRoles(w)
  {
    var r := SyncUserRoles(w);
    var roles := Roles.EnsureRoles(w.roles, RoleNames);
    assert Roles.HasRoleNamed(roles, RoleNames[0]) && Roles.HasRoleNamed(roles, RoleNames[1]);
    assert r.roles == roles;
    EnsurePresent(roles);
    var rid := Roles.RoleIdFor(roles, "resident");
    var hid := Roles.RoleIdFor(roles, "union_head");
    var u1 := Grant(w.userRoles, ProfileUsers(w.profiles), rid);
    assert r.userRoles == Grant(u1, HeadUsers(w.buildings), hid);
    forall u | u in ProfileUsers(w.profiles) ensures UserRole(u, rid) in r.userRoles {
      GrantKeeps(u1, HeadUsers(w.buildings), hid, UserRole(u, rid));
    }
    assert Grant(r.userRoles, ProfileUsers(w.profiles), rid) == r.userRoles;
  }

  // ---------------------------------------------------------------------------
  // approve_buildings

  const AdminEmail: string := "admin@gmail.com"

  predicate IsAdmin(u: User) {
    u.email == AdminEmail
  }

  /** One pending building as the command writes it. The loop assigns
      `approved_by` and `union_head`, but the building's columns are declared
      as `approved_by_id` and `union_head_id` (apps/buildings/models.py:5,15),
      so those two assignments set plain attributes that `save()` never
      writes: only the status is stored. */
  function ApproveOneAsWritten(b: Building, admin: nat): (r: Building)
    ensures r.unionHead == b.unionHead && r.approvedBy == b.approvedBy
    ensures b.approvalStatus == ApprovalPending ==> r == b.(approvalStatus := ApprovalApproved)
    ensures b.approvalStatus != ApprovalPending ==> r == b
  {
    if b.approvalStatus == ApprovalPending then b.(approvalStatus := ApprovalApproved) else b
  }

  /** One pending building approved by `admin`, who also becomes its head:
      the command with the declared column names assigned. */
  function ApproveOne(b: Building, admin: nat): (r: Building)
    ensures b.approvalStatus == ApprovalPending ==>
              r == b.(approvalStatus := ApprovalApproved, approvedBy := Some(admin), unionHead := Some(admin))
    ensures b.approvalStatus != ApprovalPending ==> r == b
  {
    if b.approvalStatus == ApprovalPending then
      b.(approvalStatus := ApprovalApproved, approvedBy := Some(admin), unionHead := Some(admin))
    else b
  }

  function PendingCount(bs: seq<Building>): (r: nat)
    ensures r <= |bs|
    ensures r == 0 <==> forall i :: 0 <= i < |bs| ==> bs[i].approvalStatus != ApprovalPending
  {
    if |bs| == 0 then 0
    else
      assert forall i :: 1 <= i < |bs| ==> bs[i] == bs[1..][i - 1];
      (if bs[0].approvalStatus == ApprovalPending then 1 else 0) + PendingCount(bs[1..])
  }

  /** Either the admin account is missing and nothing happens, or the
      buildings are approved and the count of approved ones is reported. */
  datatype Approval = NoAdmin | ApprovedAll(w: World, count: nat)

  /** `approve_buildings`. The count is taken from the query set the loop
      already evaluated, so it is the number of buildings that were pending. */
  function ApproveBuildings(w: World): (r: Approval)
    ensures r.NoAdmin? <==> forall k :: 0 <= k < |w.users| ==> !IsAdmin(w.users[k])
    ensures r.ApprovedAll? ==>
              // the admin is the first user with the admin address
              exists a :: 0 <= a < |w.users| && IsAdmin(w.users[a])
                          && (forall k :: 0 <= k < a ==> !IsAdmin(w.users[k]))
                          && |r.w.buildings| == |w.buildings|
                          && forall i :: 0 <= i < |w.buildings| ==>
                               (w.buildings[i].approvalStatus == ApprovalPending ==>
                                  r.w.buildings[i] == w.buildings[i].(approvalStatus := ApprovalApproved,
                                                                       approvedBy := Some(w.users[a].id),
                                                                       unionHead := Some(w.users[a].id)))
                               && (w.buildings[i].approvalStatus != ApprovalPending ==> r.w.buildings[i] == w.buildings[i])
    ensures r.ApprovedAll? ==> r.w == w.(buildings := r.w.buildings) && r.count == PendingCount(w.buildings)
    // afterwards nothing is pending
    ensures r.ApprovedAll? ==> PendingCount(r.w.buildings) == 0
  {
    var a := Seqs.FirstIndex(w.users, IsAdmin);
    if a == |w.users| then NoAdmin
    else
      var admin := w.users[a].id;
      var bs := seq(|w.buildings|, i requires 0 <= i < |w.buildings| => ApproveOne(w.buildings[i], admin));
      ApprovedAll(w.(buildings := bs), PendingCount(w.buildings))
  }

  /** The command as written: the same admin lookup and the same count, but
      no building changes head or approver. */
  function ApproveBuildingsAsWritten(w: World): (r: Approval)
    ensures r.NoAdmin? <==> forall k :: 0 <= k < |w.users| ==> !IsAdmin(w.users[k])
    ensures r.ApprovedAll? ==> r.w == w.(buildings := r.w.buildings) && r.count == PendingCount(w.buildings)
    ensures r.ApprovedAll? ==>
              |r.w.buildings| == |w.buildings|
              && forall i :: 0 <= i < |w.buildings| ==>
                   (w.buildings[i].approvalStatus == ApprovalPending ==>
                      r.w.buildings[i] == w.buildings[i].(approvalStatus := ApprovalApproved))
                   && (w.buildings[i].approvalStatus != ApprovalPending ==> r.w.buildings[i] == w.buildings[i])
    // nobody heads a building they did not head before
    ensures r.ApprovedAll? ==> forall u: nat :: BuildingIdsHeadedBy(r.w.buildings, u) == BuildingIdsHeadedBy(w.buildings, u)
    ensures r.ApprovedAll? ==> PendingCount(r.w.buildings) == 0
  {
    var a := Seqs.FirstIndex(w.users, IsAdmin);
    if a == |w.users| then NoAdmin
    else
      var admin := w.users[a].id;
      var bs := seq(|w.buildings|, i requires 0 <= i < |w.buildings| => ApproveOneAsWritten(w.buildings[i], admin));
      StatusOnlyKeepsHeads(w.buildings, bs);
      ApprovedAll(w.(buildings := bs), PendingCount(w.buildings))
  }

  /** Buildings that differ at most in their status are headed by the same
      users. */
  lemma StatusOnlyKeepsHeads(before: seq<Building>, after: seq<Building>)
    requires |before| == |after|
    requires forall i :: 0 <= i < |before| ==> after[i].unionHead == before[i].unionHead && after[i].id == before[i].id
    ensures forall u: nat :: BuildingIdsHeadedBy(after, u) == BuildingIdsHeadedBy(before, u)
  {
    forall u: nat, id: nat ensures id in BuildingIdsHeadedBy(after, u) <==> id in BuildingIdsHeadedBy(before, u) {
      if id in BuildingIdsHeadedBy(after, u) {
        var b :| b in after && b.unionHead == Some(u) && b.id == id;
        var i :| 0 <= i < |after| && after[i] == b;
        assert before[i] in before;
      }
      if id in BuildingIdsHeadedBy(before, u) {
        var b :| b in before && b.unionHead == Some(u) && b.id == id;
        var i :| 0 <= i < |before| && before[i] == b;
        assert after[i] in after;
      }
    }
  }

  /** As written the admin is not made head of a pending building without
      one, where the corrected command makes them its head. */
  lemma ApprovedBuildingGetsNoHead()
    ensures var admin := User(1, AdminEmail, "admin", "Admin", "", "", true, true, None);
            var b := Building(7, None, "Tower", "Cairo", 10, 5, 2, "basic", ApprovalPending, None);
            var w := World([admin], [], [], [b], [], [], [], [], [], [], [], [], [], [], []);
            ApproveBuildingsAsWritten(w).ApprovedAll?
            && BuildingsHeadedBy(ApproveBuildingsAsWritten(w).w.buildings, 1) == []
            && ApproveBuildingsAsWritten(w).w.buildings[0].approvedBy.None?
            && BuildingsHeadedBy(ApproveBuildings(w).w.buildings, 1) == ApproveBuildings(w).w.buildings
  {
    var admin := User(1, AdminEmail, "admin", "Admin", "", "", true, true, None);
    var b := Building(7, None, "Tower", "Cairo", 10, 5, 2, "basic", ApprovalPending, None);
    var w := World([admin], [], [], [b], [], [], [], [], [], [], [], [], [], [], []);
    assert IsAdmin(w.users[0]);
    var asWritten := ApproveBuildingsAsWritten(w).w.buildings;
    var corrected := ApproveBuildings(w).w.buildings;
    assert asWritten == [b.(approvalStatus := ApprovalApproved)];
    assert corrected == [b.(approvalStatus := ApprovalApproved, approvedBy := Some(1), unionHead := Some(1))];
    assert BuildingsHeadedBy(asWritten, 1) == [] by {
      assert forall x :: x in BuildingsHeadedBy(asWritten, 1) ==> x in asWritten && x.unionHead == Some(1);
    }
  }

  /** A second run approves nothing and changes nothing. */
  lemma ApproveIdempotent(w: World)
    ensures ApproveBuildings(w).ApprovedAll? ==>
              var w1 := ApproveBuildings(w).w;
              ApproveBuildings(w1) == ApprovedAll(w1, 0)
  {
    if ApproveBuildings(w).ApprovedAll? {
      var w1 := ApproveBuildings(w).w;
      assert w1.users == w.users;
      var bs := seq(|w1.buildings|, i requires 0 <= i < |w1.buildings| => ApproveOne(w1.buildings[i], w.users[Seqs.FirstIndex(w.users, IsAdmin)].id));
      assert bs == w1.buildings;
    }
  }
}
