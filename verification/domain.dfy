/** The records of the Mkani backend and the world state they live in. Every
    table is a sequence of rows in primary-key order; a lookup by key returns
    the first matching row, which is what `.first()` on an unordered query
    returns. Notifications are an append-only log of (recipient, kind) pairs;
    the message text is not modelled. */
module Domain {
  import opened Wrappers
  import opened Calendar
  import Seqs

  // ---------------------------------------------------------------------------
  // Accounts (apps/accounts/models.py)

  /** `password` is what `set_password` stored, read as the raw text (the
      hash is not modelled); None is Django's unusable password. */
  datatype User = User(
    id: nat,
    email: string,
    username: string,
    fullName: string,
    phoneNumber: string,
    nationalId: string,
    isStaff: bool,
    isSuperuser: bool,
    password: Option<string>)

  datatype Role = Role(id: nat, name: string)

  datatype UserRole = UserRole(user: nat, role: nat)

  /** `resident_type` is a free-form column; the code compares it with
      `owner` and `tenant` only. */
  datatype ResidentType = Owner | Tenant | OtherType(name: string)

  /** Every value the code writes into or filters `ResidentProfile.status` on:
      the column default `active`, the join workflow's `pending`, `accepted`
      and `rejected`, the billing and sweep filter's `approved`, and the
      sweep's `inactive`. */
  datatype ProfileStatus = Active | Pending | Approved | Accepted | Rejected | Inactive

  /** `rejectedAt` is the column the retention command filters on;
      apps/accounts/models.py does not declare it, nothing sets it, and it is always None for
      rows the API wrote. */
  datatype ResidentProfile = ResidentProfile(
    id: nat,
    user: nat,
    unit: Option<nat>,
    residentType: ResidentType,
    owner: Option<nat>,
    rentalEndDate: Option<Date>,
    status: ProfileStatus,
    isPresent: bool,
    rejectedAt: Option<Instant>,
    ownerNationalId: Option<string>)

  /** A new profile's defaults (apps/accounts/models.py:56, 63-64). */
  function NewProfile(id: nat, user: nat, unit: Option<nat>, residentType: ResidentType): (p: ResidentProfile)
    ensures p.id == id && p.user == user && p.unit == unit && p.residentType == residentType
    ensures p.status == Active && p.isPresent && p.owner.None? && p.rejectedAt.None? && p.ownerNationalId.None?
  {
    ResidentProfile(id, user, unit, residentType, None, None, Active, true, None, None)
  }

  datatype PasswordResetCode = PasswordResetCode(
    id: nat,
    user: nat,
    code: string,
    createdAt: Instant,
    isUsed: bool)

  // ---------------------------------------------------------------------------
  // Buildings (apps/buildings/models.py)

  datatype ApprovalStatus = ApprovalPending | ApprovalApproved | ApprovalOther(name: string)

  datatype Building = Building(
    id: nat,
    unionHead: Option<nat>,
    name: string,
    address: string,
    totalUnits: nat,
    totalFloors: nat,
    unitsPerFloor: nat,
    subscriptionPlan: string,
    approvalStatus: ApprovalStatus,
    approvedBy: Option<nat>)

  datatype UnitStatus = UnitAvailable | UnitOccupied | UnitOther(name: string)

  datatype Unit = Unit(
    id: nat,
    building: nat,
    floorNumber: nat,
    apartmentNumber: string,
    roomsCount: Option<nat>,
    status: UnitStatus)

  /** A new unit's defaults (apps/buildings/models.py:24-29). */
  function NewUnit(id: nat, building: nat, floor: nat, apartment: string): (u: Unit)
    ensures u.id == id && u.building == building && u.floorNumber == floor
    ensures u.status == UnitAvailable && u.roomsCount.None?
  {
    Unit(id, building, floor, apartment, None, UnitAvailable)
  }

  // ---------------------------------------------------------------------------
  // Packages (apps/packages/models.py)

  datatype PackageType = Utilities | Prepaid | Fixed | Misc

  datatype UtilityDetail = UtilityDetail(monthlyAmount: real, dueDay: nat)
  datatype PrepaidDetail = PrepaidDetail(averageMonthlyCharge: real)
  datatype FixedPaymentMethod = ViaUnionHead | DirectPerson
  datatype FixedDetail = FixedDetail(monthlyAmount: real, deductionDay: nat, paymentMethod: FixedPaymentMethod)
  datatype MiscDetail = MiscDetail(totalAmount: real, paymentDate: Date, deadline: Date)

  /** Each detail kind is a one-to-one row, so a package has at most one of
      each; an Option per kind states exactly that. */
  datatype Package = Package(
    id: nat,
    packageType: PackageType,
    name: string,
    isRecurring: bool,
    createdBy: nat,
    startDate: Date,
    utility: Option<UtilityDetail>,
    prepaid: Option<PrepaidDetail>,
    fixed: Option<FixedDetail>,
    misc: Option<MiscDetail>)

  datatype PackageBuilding = PackageBuilding(package: nat, building: nat)

  datatype InvoiceStatus = InvoicePending | InvoicePaid | InvoiceOverdue

  datatype PaymentMethod = Sahl | Fawry | WalletMethod

  datatype PackageInvoice = PackageInvoice(
    id: nat,
    package: nat,
    building: nat,
    resident: Option<nat>,
    amount: real,
    dueDate: Date,
    status: InvoiceStatus,
    paymentMethod: Option<PaymentMethod>,
    transaction: Option<nat>)

  // ---------------------------------------------------------------------------
  // Payments (apps/payments/models.py)

  datatype OwnerType = UserOwner | BuildingOwner | TechnicianOwner | UnionHeadOwner | CompanyOwner

  datatype Wallet = Wallet(id: nat, ownerType: OwnerType, ownerId: nat, currentBalance: real)

  datatype TxnStatus = Completed | TxnPending | TxnFailed

  datatype Transaction = Transaction(
    id: nat,
    wallet: nat,
    invoice: Option<nat>,
    amount: real,
    via: string,
    status: TxnStatus,
    createdAt: Instant)

  // ---------------------------------------------------------------------------
  // Maintenance (apps/maintenance/models.py)

  datatype MaintenanceStatus = MPending | MInProgress | MCompleted | MRejected

  datatype MaintenanceRequest = MaintenanceRequest(
    id: nat,
    building: nat,
    resident: nat,
    technician: Option<nat>,
    description: string,
    cost: real,
    status: MaintenanceStatus)

  // ---------------------------------------------------------------------------
  // Rentals (apps/rentals/models.py)

  datatype RequestStatus = RequestNone | Requested | RequestApproved | RequestRejected

  datatype ListingStatus = ListingAvailable | Rented | Cancelled

  datatype RentalListing = RentalListing(
    id: nat,
    owner: nat,
    unit: nat,
    building: nat,
    dailyPrice: Option<real>,
    monthlyPrice: Option<real>,
    yearlyPrice: Option<real>,
    tenant: Option<nat>,
    requestStatus: RequestStatus,
    status: ListingStatus)

  // ---------------------------------------------------------------------------
  // Notifications: who is told, and about what.

  datatype NoticeKind =
    | Debited | Shortfall | NoWallet
    | RentalEnded | UnitFreed
    | JoinAccepted | JoinRejected(withReason: bool)
    | MaintenanceFiled | MaintenanceConfirmed
    | MaintenanceStarted | MaintenanceDone | MaintenanceShortfall | MaintenanceRejected
    | PersonalPackage | PackageAnnounced

  datatype Notice = Notice(recipient: nat, kind: NoticeKind)

  // ---------------------------------------------------------------------------
  // The world.

  datatype World = World(
    users: seq<User>,
    roles: seq<Role>,
    userRoles: seq<UserRole>,
    buildings: seq<Building>,
    units: seq<Unit>,
    profiles: seq<ResidentProfile>,
    packages: seq<Package>,
    links: seq<PackageBuilding>,
    invoices: seq<PackageInvoice>,
    wallets: seq<Wallet>,
    transactions: seq<Transaction>,
    maintenance: seq<MaintenanceRequest>,
    listings: seq<RentalListing>,
    resetCodes: seq<PasswordResetCode>,
    notices: seq<Notice>)

  /** A primary key one larger than every key in use. */
  function NextId(ids: seq<nat>): (r: nat)
    ensures forall i :: 0 <= i < |ids| ==> ids[i] < r
    ensures 1 <= r
  {
    if |ids| == 0 then 1
    else
      var rest := NextId(ids[1..]);
      assert forall i :: 1 <= i < |ids| ==> ids[i] == ids[1..][i - 1];
      if ids[0] < rest then rest else ids[0] + 1
  }

  function UserIds(us: seq<User>): seq<nat> { seq(|us|, i requires 0 <= i < |us| => us[i].id) }
  function ProfileIds(ps: seq<ResidentProfile>): seq<nat> { seq(|ps|, i requires 0 <= i < |ps| => ps[i].id) }
  function InvoiceIds(vs: seq<PackageInvoice>): seq<nat> { seq(|vs|, i requires 0 <= i < |vs| => vs[i].id) }
  function WalletIds(ws: seq<Wallet>): seq<nat> { seq(|ws|, i requires 0 <= i < |ws| => ws[i].id) }
  function TransactionIds(ts: seq<Transaction>): seq<nat> { seq(|ts|, i requires 0 <= i < |ts| => ts[i].id) }
  function BuildingIds(bs: seq<Building>): seq<nat> { seq(|bs|, i requires 0 <= i < |bs| => bs[i].id) }
  function PackageIds(ps: seq<Package>): seq<nat> { seq(|ps|, i requires 0 <= i < |ps| => ps[i].id) }
  /** The primary key of the package table: no two packages share an id. */
  predicate DistinctPackageIds(ps: seq<Package>) {
    forall i, j :: 0 <= i < j < |ps| ==> ps[i].id != ps[j].id
  }

  lemma SamePackageId(ps: seq<Package>, a: Package, b: Package)
    requires DistinctPackageIds(ps) && a in ps && b in ps && a.id == b.id
    ensures a == b
  {
    var i :| 0 <= i < |ps| && ps[i] == a;
    var j :| 0 <= j < |ps| && ps[j] == b;
    assert !(i < j) && !(j < i);
  }

  function RoleIds(rs: seq<Role>): seq<nat> { seq(|rs|, i requires 0 <= i < |rs| => rs[i].id) }
  function MaintenanceIds(ms: seq<MaintenanceRequest>): seq<nat> { seq(|ms|, i requires 0 <= i < |ms| => ms[i].id) }
  function ResetCodeIds(cs: seq<PasswordResetCode>): seq<nat> { seq(|cs|, i requires 0 <= i < |cs| => cs[i].id) }

  // ---------------------------------------------------------------------------
  // Lookups.

  function FindUnit(units: seq<Unit>, id: nat): (r: Option<Unit>)
    ensures r.Some? ==> r.value in units && r.value.id == id
    ensures r.None? ==> forall u :: u in units ==> u.id != id
  {
    if |units| == 0 then None
    else if units[0].id == id then Some(units[0])
    else FindUnit(units[1..], id)
  }

  function FindBuilding(buildings: seq<Building>, id: nat): (r: Option<Building>)
    ensures r.Some? ==> r.value in buildings && r.value.id == id
    ensures r.None? ==> forall b :: b in buildings ==> b.id != id
  {
    if |buildings| == 0 then None
    else if buildings[0].id == id then Some(buildings[0])
    else FindBuilding(buildings[1..], id)
  }

  function FindPackage(packages: seq<Package>, id: nat): (r: Option<Package>)
    ensures r.Some? ==> r.value in packages && r.value.id == id
    ensures r.None? ==> forall p :: p in packages ==> p.id != id
  {
    if |packages| == 0 then None
    else if packages[0].id == id then Some(packages[0])
    else FindPackage(packages[1..], id)
  }

  function FindProfile(profiles: seq<ResidentProfile>, id: nat): (r: Option<ResidentProfile>)
    ensures r.Some? ==> r.value in profiles && r.value.id == id
    ensures r.None? ==> forall p :: p in profiles ==> p.id != id
  {
    if |profiles| == 0 then None
    else if profiles[0].id == id then Some(profiles[0])
    else FindProfile(profiles[1..], id)
  }

  /** The building a profile belongs to: the building of its unit. The model
      files give a profile no building of its own, so `profile.building`,
      `building.residents` and `unit.residents` are all read through the unit. */
  function ProfileBuilding(units: seq<Unit>, p: ResidentProfile): Option<nat> {
    if p.unit.None? then None
    else
      match FindUnit(units, p.unit.value)
      case None => None
      case Some(u) => Some(u.building)
  }

  predicate InBuilding(units: seq<Unit>, p: ResidentProfile, building: nat) {
    ProfileBuilding(units, p) == Some(building)
  }

  /** `building.residents.all()`: the profiles whose unit lies in the building. */
  function ProfilesInBuilding(units: seq<Unit>, profiles: seq<ResidentProfile>, building: nat): (r: seq<ResidentProfile>)
    ensures forall p :: p in r <==> p in profiles && InBuilding(units, p, building)
    ensures |r| <= |profiles|
  {
    Seqs.Filter(profiles, (p: ResidentProfile) => InBuilding(units, p, building))
  }

  /** `building.units.all()`. */
  function UnitsOf(units: seq<Unit>, building: nat): (r: seq<Unit>)
    ensures forall u :: u in r <==> u in units && u.building == building
  {
    Seqs.Filter(units, (u: Unit) => u.building == building)
  }

  /** `Building.objects.filter(union_head=user)`. */
  function BuildingsHeadedBy(buildings: seq<Building>, user: nat): (r: seq<Building>)
    ensures forall b :: b in r <==> b in buildings && b.unionHead == Some(user)
  {
    Seqs.Filter(buildings, (b: Building) => b.unionHead == Some(user))
  }

  function BuildingIdsHeadedBy(buildings: seq<Building>, user: nat): (r: set<nat>)
    ensures forall id :: id in r <==> exists b :: b in buildings && b.unionHead == Some(user) && b.id == id
  {
    set b | b in buildings && b.unionHead == Some(user) :: b.id
  }

  /** `ResidentProfile.objects.filter(user=user)`. */
  function ProfilesOf(profiles: seq<ResidentProfile>, user: nat): (r: seq<ResidentProfile>)
    ensures forall p :: p in r <==> p in profiles && p.user == user
  {
    Seqs.Filter(profiles, (p: ResidentProfile) => p.user == user)
  }

  predicate HasProfile(w: World, user: nat) {
    exists p :: p in w.profiles && p.user == user
  }

  predicate HeadsABuilding(w: World, user: nat) {
    exists b :: b in w.buildings && b.unionHead == Some(user)
  }

  /** Everything a request sees of the caller. */
  datatype Caller = Caller(user: User, authenticated: bool)

  /** A view's HTTP status and the world after the request. An uncaught
      exception is a 500 that keeps every write made before it. */
  datatype Reply = Reply(status: nat, w: World)

  /** What a read-only view answers: 403, 404, 400, or the data. */
  datatype Answer<T> = Forbidden | NotFound | Invalid | Ok(value: T)
}
