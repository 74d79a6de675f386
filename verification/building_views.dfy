/** The building views (apps/buildings/views.py): the building list, the
    join-request decision, the union head's own buildings and the accepted
    residents of a building. The views are modelled after the permission
    check has let the request through. */
module BuildingViews {
  import opened Wrappers
  import opened Domain
  import opened Roles
  import Seqs
  import MonthlyBilling
  import RentalSweep
  import Permissions

  // ---------------------------------------------------------------------------
  // The building list (apps/buildings/views.py:28-37)

  /** `get_queryset` as written: `User.roles` is already a list of names, and
      a list has no `all`, so the view reads the caller's role names as empty
      and never narrows the list. */
  function ListBuildingsAsWritten(w: World, user: nat): (r: seq<Building>)
    ensures r == w.buildings
  {
    var roleNames: seq<string> := [];
    if "union_head" in roleNames then BuildingsHeadedBy(w.buildings, user) else w.buildings
  }

  /** `get_queryset` as its branch intends: a union head sees only the
      buildings they head. */
  function ListBuildings(w: World, user: nat): (r: seq<Building>)
    ensures "union_head" in UserRoles(w, user) ==>
              forall b :: b in r <==> b in w.buildings && b.unionHead == Some(user)
    ensures "union_head" !in UserRoles(w, user) ==> r == w.buildings
  {
    if "union_head" in UserRoles(w, user) then BuildingsHeadedBy(w.buildings, user) else w.buildings
  }

  /** A union head listing buildings is shown a building someone else heads. */
  lemma UnionHeadSeesOthersBuildings()
    ensures var w := World([], [Role(1, "union_head")], [UserRole(1, 1)],
                           [Building(1, Some(2), "B", "A", 1, 1, 1, "basic", ApprovalApproved, None)],
                           [], [], [], [], [], [], [], [], [], [], []);
            "union_head" in UserRoles(w, 1)
            && w.buildings[0] in ListBuildingsAsWritten(w, 1)
            && w.buildings[0] !in ListBuildings(w, 1)
  {
    var w := World([], [Role(1, "union_head")], [UserRole(1, 1)],
                   [Building(1, Some(2), "B", "A", 1, 1, 1, "basic", ApprovalApproved, None)],
                   [], [], [], [], [], [], [], [], [], [], []);
    assert RoleName(w.roles, 1) == Some("union_head");
    assert UserRoles(w, 1) == ["union_head"] + AssignedRoles(w.roles, [], 1);
  }

  // ---------------------------------------------------------------------------
  // The join-request decision (apps/buildings/views.py:56-89)

  /** The row `ResidentProfile.objects.get(id=..., building=..., status='pending')`
      looks for. */
  predicate PendingRequest(w: World, building: nat, id: nat, p: ResidentProfile) {
    p.id == id && InBuilding(w.units, p, building) && p.status == Pending
  }

  function RejectionNotice(reason: Option<string>): NoticeKind {
    JoinRejected(reason.Some? && reason.value != "")
  }

  /** `accept_request`. The building must exist (404 otherwise); the request
      is the one pending profile with that id in the building (404 when there
      is none). `accept` and `reject` decide it and tell the resident; any
      other action saves the profile unchanged and still reports success. */
  function AcceptRequest(w: World, building: nat, requestId: Option<nat>, action: string, reason: Option<string>): (r: Reply)
    ensures r.status == 200 || r.status == 404 || r.status == 500
    ensures r.status != 200 ==> r.w == w
    ensures r.status == 404 <==> FindBuilding(w.buildings, building).None? || requestId.None?
                                 || forall k :: 0 <= k < |w.profiles| ==> !PendingRequest(w, building, requestId.value, w.profiles[k])
    ensures r.status == 200 ==>
              exists i :: 0 <= i < |w.profiles| && PendingRequest(w, building, requestId.value, w.profiles[i])
                && (action == "accept" ==> r.w == w.(profiles := w.profiles[i := w.profiles[i].(status := Accepted)],
                                                     notices := w.notices + [Notice(w.profiles[i].user, JoinAccepted)]))
                && (action == "reject" ==> r.w == w.(profiles := w.profiles[i := w.profiles[i].(status := Rejected)],
                                                     notices := w.notices + [Notice(w.profiles[i].user, RejectionNotice(reason))]))
    ensures action != "accept" && action != "reject" ==> r.w == w
  {
    if FindBuilding(w.buildings, building).None? || requestId.None? then Reply(404, w)
    else
      match Seqs.Find(w.profiles, (p: ResidentProfile) => PendingRequest(w, building, requestId.value, p))
      case NoMatch => Reply(404, w)
      case ManyMatches => Reply(500, w)
      case OneMatch(i) =>
        var p := w.profiles[i];
        if action == "accept" then
          Reply(200, w.(profiles := w.profiles[i := p.(status := Accepted)],
                        notices := w.notices + [Notice(p.user, JoinAccepted)]))
        else if action == "reject" then
          Reply(200, w.(profiles := w.profiles[i := p.(status := Rejected)],
                        notices := w.notices + [Notice(p.user, RejectionNotice(reason))]))
        else Reply(200, w)
  }

  /** A decision is final: once accepted or rejected, the request is no
      longer pending, so asking again finds nothing and changes nothing. */
  lemma DecisionIsFinal(w: World, building: nat, id: nat, action: string, reason: Option<string>, again: string, reason2: Option<string>)
    requires action == "accept" || action == "reject"
    requires AcceptRequest(w, building, Some(id), action, reason).status == 200
    ensures var w1 := AcceptRequest(w, building, Some(id), action, reason).w;
            AcceptRequest(w1, building, Some(id), again, reason2) == Reply(404, w1)
  {
    var w1 := AcceptRequest(w, building, Some(id), action, reason).w;
    var i :| 0 <= i < |w.profiles| && PendingRequest(w, building, id, w.profiles[i])
             && w1.profiles == w.profiles[i := w.profiles[i].(status := if action == "accept" then Accepted else Rejected)];
    match Seqs.Find(w.profiles, (p: ResidentProfile) => PendingRequest(w, building, id, p))
    case OneMatch(j) =>
      assert j == i;
      forall k | 0 <= k < |w1.profiles| ensures !PendingRequest(w1, building, id, w1.profiles[k]) {
        if k != i {
          assert w1.profiles[k] == w.profiles[k];
        }
      }
    case NoMatch =>
    case ManyMatches =>
  }

  /** Approval writes `accepted`, but the monthly generator bills only
      `approved` tenants and the expiry sweep retires only `approved` ones:
      an accepted tenant alone in their unit makes the unit unbilled, and is
      never swept. */
  lemma AcceptedTenantIsNeitherBilledNorSwept(w: World, building: nat, id: nat, reason: Option<string>, today: Calendar.Date)
    requires AcceptRequest(w, building, Some(id), "accept", reason).status == 200
    requires forall k :: 0 <= k < |w.profiles| && w.profiles[k].id == id ==> w.profiles[k].residentType == Tenant
    requires forall k, m :: (0 <= k < |w.profiles| && 0 <= m < |w.profiles| && w.profiles[k].id == id
                             && w.profiles[m].unit == w.profiles[k].unit) ==> k == m
    ensures var w1 := AcceptRequest(w, building, Some(id), "accept", reason).w;
            exists i :: 0 <= i < |w1.profiles| && w1.profiles[i].id == id && w1.profiles[i].status == Accepted
                        && w1.profiles[i].unit.Some?
                        && MonthlyBilling.ActiveResident(w1.profiles, w1.profiles[i].unit.value).None?
                        && !RentalSweep.Expired(w1.profiles[i], today)
  {
    var w1 := AcceptRequest(w, building, Some(id), "accept", reason).w;
    var i :| 0 <= i < |w.profiles| && PendingRequest(w, building, id, w.profiles[i])
             && w1.profiles == w.profiles[i := w.profiles[i].(status := Accepted)];
    var u := w1.profiles[i].unit.value;
    forall k | 0 <= k < |w1.profiles|
      ensures !MonthlyBilling.IsApprovedTenantOf(w1.profiles[k], u) && !MonthlyBilling.IsOwnerOf(w1.profiles[k], u)
    {
      if k != i {
        assert w1.profiles[k] == w.profiles[k];
      }
    }
  }

  // ---------------------------------------------------------------------------
  // The union head's buildings (apps/buildings/views.py:126-160)

  /** `my_buildings`: the caller's role names, flattened, must include
      `union_head`; the answer is every building the caller heads. */
  function MyBuildings(w: World, user: nat): (r: Answer<seq<Building>>)
    ensures r.Ok? || r.Forbidden?
    ensures r.Ok? <==> "union_head" in FlattenRoles(UserRoles(w, user))
    ensures r.Ok? ==> forall b :: b in r.value <==> b in w.buildings && b.unionHead == Some(user)
  {
    if "union_head" !in FlattenRoles(UserRoles(w, user)) then Forbidden
    else Ok(BuildingsHeadedBy(w.buildings, user))
  }

  /** A building's head who is not staff never reaches the buildings: the
      action's permission class is the single-role one
      (apps/buildings/views.py:10,126), which finds no `role` attribute on
      the user and refuses; and the view body, which checks stored role rows
      only, refuses a head who holds no `union_head` row as well. */
  lemma HeadWithoutRoleRowIsRefused(w: World, c: Caller, v: Permissions.View)
    requires c.authenticated && HeadsABuilding(w, c.user.id)
    requires !c.user.isStaff && !c.user.isSuperuser
    requires forall k :: 0 <= k < |w.userRoles| ==> w.userRoles[k].user != c.user.id
    ensures !Permissions.AllowsByRole(c, None, v)
    ensures MyBuildings(w, c.user.id) == Forbidden
  {
    NoneFor(w.roles, w.userRoles, c.user.id);
  }

  /** A role stored as a list's repr, as a form registration stores it, is
      still recognised. */
  lemma FormRegisteredHeadIsAdmitted(w: World, user: nat, names: seq<string>, form: bool)
    requires "union_head" in names
    requires forall i :: 0 <= i < |names| ==> PlainName(names[i])
    requires forall i :: 0 <= i < |names| ==> !(|names[i]| >= 1 && names[i][0] == '[' && names[i][|names[i]| - 1] == ']')
    requires UserRoles(w, user) == StoredRoleNames(names, form)
    ensures MyBuildings(w, user).Ok?
  {
    FlattenStoredRoles(names, form);
  }

  // ---------------------------------------------------------------------------
  // Accepted residents (apps/buildings/views.py:162-203)

  /** One resident as the view lists them: the profile and its paid invoices. */
  datatype ResidentRecord = ResidentRecord(profile: ResidentProfile, payments: seq<PackageInvoice>)

  function PaidInvoicesOf(invs: seq<PackageInvoice>, profile: nat): (r: seq<PackageInvoice>)
    ensures forall v :: v in r <==> v in invs && v.resident == Some(profile) && v.status == InvoicePaid
  {
    Seqs.Filter(invs, (v: PackageInvoice) => v.resident == Some(profile) && v.status == InvoicePaid)
  }

  function Records(w: World, ps: seq<ResidentProfile>): (r: seq<ResidentRecord>)
    ensures |r| == |ps|
    ensures forall i :: 0 <= i < |ps| ==> r[i] == ResidentRecord(ps[i], PaidInvoicesOf(w.invoices, ps[i].id))
  {
    seq(|ps|, i requires 0 <= i < |ps| => ResidentRecord(ps[i], PaidInvoicesOf(w.invoices, ps[i].id)))
  }

  predicate AcceptedIn(w: World, building: nat, p: ResidentProfile) {
    InBuilding(w.units, p, building) && p.status == Accepted
  }

  /** `accepted_residents`: only the building's own head may look; the
      answer lists the building's accepted residents with their paid
      invoices. */
  function AcceptedResidents(w: World, building: nat, user: nat): (r: Answer<seq<ResidentRecord>>)
    ensures r.NotFound? <==> FindBuilding(w.buildings, building).None?
    ensures r.Forbidden? <==> FindBuilding(w.buildings, building).Some?
                              && FindBuilding(w.buildings, building).value.unionHead != Some(user)
    ensures r.Ok? ==> forall p :: (exists e :: e in r.value && e.profile == p) <==> p in w.profiles && AcceptedIn(w, building, p)
    ensures r.Ok? ==> forall e :: e in r.value ==> forall v :: v in e.payments <==>
                        v in w.invoices && v.resident == Some(e.profile.id) && v.status == InvoicePaid
  {
    match FindBuilding(w.buildings, building)
    case None => NotFound
    case Some(b) =>
      if b.unionHead != Some(user) then Forbidden
      else
        var ps := Seqs.Filter(w.profiles, (p: ResidentProfile) => AcceptedIn(w, building, p));
        var rs := Records(w, ps);
        assert forall p :: (exists e :: e in rs && e.profile == p) <==> p in ps by {
          forall p ensures (exists e :: e in rs && e.profile == p) <==> p in ps {
            if p in ps {
              var i :| 0 <= i < |ps| && ps[i] == p;
              assert rs[i] in rs && rs[i].profile == p;
            }
          }
        }
        Ok(rs)
  }

  /** The two views agree: a request the building's head accepts shows up
      among the building's accepted residents. */
  lemma AcceptedRequestIsListed(w: World, building: nat, id: nat, reason: Option<string>, head: nat)
    requires FindBuilding(w.buildings, building).Some? && FindBuilding(w.buildings, building).value.unionHead == Some(head)
    requires AcceptRequest(w, building, Some(id), "accept", reason).status == 200
    ensures var w1 := AcceptRequest(w, building, Some(id), "accept", reason).w;
            var r := AcceptedResidents(w1, building, head);
            r.Ok? && exists e :: e in r.value && e.profile.id == id
  {
    var w1 := AcceptRequest(w, building, Some(id), "accept", reason).w;
    var i :| 0 <= i < |w.profiles| && PendingRequest(w, building, id, w.profiles[i])
             && w1.profiles == w.profiles[i := w.profiles[i].(status := Accepted)];
    assert w1.buildings == w.buildings && w1.units == w.units;
    assert w1.profiles[i] in w1.profiles && AcceptedIn(w1, building, w1.profiles[i]);
  }
}
