/** The monthly package billing job `generate_monthly_invoices`
    (apps/packages/tasks.py:10-99). For every recurring package, every
    building it is linked to and every unit of that building, it picks the
    unit's billable resident, prices the unit's share, get-or-creates the
    invoice for this month and settles a newly created one from the
    resident's wallet. The date is a parameter: `today` for the billing month
    and `now` for the timestamps the run writes. */
module MonthlyBilling {
  import opened Wrappers
  import opened Calendar
  import opened Domain
  import opened Settlement
  import opened Invoicing
  import Money
  import Seqs

  /** What the job reads to decide whom to bill; it never writes any of it. */
  datatype Snapshot = Snapshot(
    packages: seq<Package>,
    links: seq<PackageBuilding>,
    units: seq<Unit>,
    profiles: seq<ResidentProfile>)

  function SnapshotOf(w: World): Snapshot {
    Snapshot(w.packages, w.links, w.units, w.profiles)
  }

  // ---------------------------------------------------------------------------
  // Occupancy (apps/packages/tasks.py:32-41)

  predicate IsApprovedTenantOf(p: ResidentProfile, unit: nat) {
    p.unit == Some(unit) && p.residentType == Tenant && p.status == Approved
  }

  predicate IsOwnerOf(p: ResidentProfile, unit: nat) {
    p.unit == Some(unit) && p.residentType == Owner
  }

  /** The unit's billable resident: its first approved tenant; failing that,
      its first owner whatever the owner's status; failing that, nobody. */
  function ActiveResident(profiles: seq<ResidentProfile>, unit: nat): (r: Option<ResidentProfile>)
    ensures (exists i :: 0 <= i < |profiles| && IsApprovedTenantOf(profiles[i], unit)) ==>
              r.Some? && IsApprovedTenantOf(r.value, unit)
              && exists i :: 0 <= i < |profiles| && profiles[i] == r.value
                             && forall j :: 0 <= j < i ==> !IsApprovedTenantOf(profiles[j], unit)
    ensures (forall i :: 0 <= i < |profiles| ==> !IsApprovedTenantOf(profiles[i], unit)) ==>
              (r.Some? <==> exists i :: 0 <= i < |profiles| && IsOwnerOf(profiles[i], unit))
              && (r.Some? ==> IsOwnerOf(r.value, unit)
                              && exists i :: 0 <= i < |profiles| && profiles[i] == r.value
                                             && forall j :: 0 <= j < i ==> !IsOwnerOf(profiles[j], unit))
  {
    var t := Seqs.FirstIndex(profiles, (p: ResidentProfile) => IsApprovedTenantOf(p, unit));
    if t < |profiles| then Some(profiles[t])
    else
      var o := Seqs.FirstIndex(profiles, (p: ResidentProfile) => IsOwnerOf(p, unit));
      if o < |profiles| then Some(profiles[o]) else None
  }

  // ---------------------------------------------------------------------------
  // Pricing (apps/packages/tasks.py:43-61)

  /** The monthly amount and due day of a utilities or fixed package; None
      when the package has no detail row of its type, which makes the job
      raise when it first reads it. */
  datatype Terms = Terms(monthly: real, dueDay: nat)

  function RecurringTerms(pkg: Package): (r: Option<Terms>)
    ensures pkg.packageType == Utilities ==>
              (r.Some? <==> pkg.utility.Some?)
              && (r.Some? ==> r.value == Terms(pkg.utility.value.monthlyAmount, pkg.utility.value.dueDay))
    ensures pkg.packageType == Fixed ==>
              (r.Some? <==> pkg.fixed.Some?)
              && (r.Some? ==> r.value == Terms(pkg.fixed.value.monthlyAmount, pkg.fixed.value.deductionDay))
    ensures pkg.packageType == Prepaid || pkg.packageType == Misc ==> r.None?
  {
    match pkg.packageType
    case Utilities => if pkg.utility.Some? then Some(Terms(pkg.utility.value.monthlyAmount, pkg.utility.value.dueDay)) else None
    case Fixed => if pkg.fixed.Some? then Some(Terms(pkg.fixed.value.monthlyAmount, pkg.fixed.value.deductionDay)) else None
    case Prepaid => None
    case Misc => None
  }

  function Min(a: int, b: int): int {
    if a <= b then a else b
  }

  datatype Pricing = NotBilled | Broken | Priced(amount: real, due: Date)

  /** A unit's invoice for this month: the monthly amount split evenly over
      the building's `unitCount` units, due on day `min(due_day, 28)` of
      `today`'s month. */
  function MonthlyPricing(pkg: Package, unitCount: nat, today: Date): (r: Pricing)
    // only utilities and fixed packages are billed
    ensures pkg.packageType == Prepaid || pkg.packageType == Misc <==> r.NotBilled?
    ensures (pkg.packageType == Utilities || pkg.packageType == Fixed) && RecurringTerms(pkg).None? ==> r.Broken?
    ensures r.Priced? ==>
              && RecurringTerms(pkg).Some?
              && (unitCount >= 1 ==> r.amount * (unitCount as real) == RecurringTerms(pkg).value.monthly)
              && r.due == Date(today.year, today.month, Min(RecurringTerms(pkg).value.dueDay, 28))
              && ValidDate(r.due)
    // with a positive due day the date always exists; day 0 makes `date()` raise
    ensures ValidDate(today) && RecurringTerms(pkg).Some? ==>
              (r.Priced? <==> RecurringTerms(pkg).value.dueDay >= 1)
  {
    match pkg.packageType
    case Prepaid => NotBilled
    case Misc => NotBilled
    case _ =>
      match RecurringTerms(pkg)
      case None => Broken
      case Some(t) =>
        match MakeDate(today.year, today.month, Min(t.dueDay, 28))
        case None => Broken
        case Some(due) => Priced(Money.MonthlyShare(t.monthly, unitCount), due)
  }

  // ---------------------------------------------------------------------------
  // Planning

  /** The charge `c` bills the active resident of unit `u`. */
  predicate BillsResidentOf(profiles: seq<ResidentProfile>, c: Charge, u: Unit) {
    var a := ActiveResident(profiles, u.id);
    a.Some? && a.value.id == c.resident && a.value.user == c.payer
  }

  /** `c` is the charge for unit `u` of `building` under `pkg`. */
  predicate ChargesUnit(cat: Snapshot, pkg: Package, building: nat, total: nat, today: Date, c: Charge, u: Unit) {
    c.package == pkg.id && c.building == building && c.mode == GetOrCreate
    && MonthlyPricing(pkg, total, today) == Priced(c.amount, c.dueDate)
    && BillsResidentOf(cat.profiles, c, u)
  }

  /** What one unit contributes: nothing without an active resident or for a
      package type the job skips, a raise for a broken package, else one
      charge. */
  function UnitStep(cat: Snapshot, pkg: Package, building: nat, u: Unit, total: nat, today: Date): (r: seq<Step>)
    ensures |r| <= 1 && BillCount(r) <= 1
    ensures |r| == 1 && r[0].Bill? ==> ChargesUnit(cat, pkg, building, total, today, r[0].charge, u)
    // nothing for an empty unit or a package type the job skips
    ensures r == [] <==> ActiveResident(cat.profiles, u.id).None? || MonthlyPricing(pkg, total, today).NotBilled?
    // an occupied unit of a broken package raises
    ensures r == [Crash] <==> ActiveResident(cat.profiles, u.id).Some? && MonthlyPricing(pkg, total, today).Broken?
    // an occupied unit of a priced package is billed to its active resident
    ensures ActiveResident(cat.profiles, u.id).Some? && MonthlyPricing(pkg, total, today).Priced? ==>
              |r| == 1 && r[0].Bill? && ChargesUnit(cat, pkg, building, total, today, r[0].charge, u)
    ensures RecurringTerms(pkg).Some? && RecurringTerms(pkg).value.monthly >= 0.0 ==>
              BillTotal(r) <= Money.MonthlyShare(RecurringTerms(pkg).value.monthly, total)
  {
    match ActiveResident(cat.profiles, u.id)
    case None => []
    case Some(p) =>
      match MonthlyPricing(pkg, total, today)
      case NotBilled => []
      case Broken => [Crash]
      case Priced(a, d) => [Bill(Charge(pkg.id, building, p.id, p.user, a, d, GetOrCreate))]
  }

  /** The step, if it bills, bills one of the units `us`. */
  predicate ChargedStep(cat: Snapshot, pkg: Package, building: nat, total: nat, today: Date, s: Step, us: seq<Unit>) {
    s.Bill? ==> exists u :: u in us && ChargesUnit(cat, pkg, building, total, today, s.charge, u)
  }

  /** Every charge among `steps` bills one of the units `us`. */
  predicate ChargedFrom(cat: Snapshot, pkg: Package, building: nat, total: nat, today: Date, steps: seq<Step>, us: seq<Unit>) {
    forall i :: 0 <= i < |steps| ==> ChargedStep(cat, pkg, building, total, today, steps[i], us)
  }

  /** Unit `u` is owed a charge: it has an active resident and the package
      is priced for a building of `total` units. */
  predicate Owed(cat: Snapshot, pkg: Package, total: nat, today: Date, u: Unit) {
    ActiveResident(cat.profiles, u.id).Some? && MonthlyPricing(pkg, total, today).Priced?
  }

  /** Some step of `steps` is the charge for unit `u`. */
  predicate Charged(cat: Snapshot, pkg: Package, building: nat, total: nat, today: Date, steps: seq<Step>, u: Unit) {
    exists i :: 0 <= i < |steps| && steps[i].Bill? && ChargesUnit(cat, pkg, building, total, today, steps[i].charge, u)
  }

  lemma ChargedInEither(cat: Snapshot, pkg: Package, building: nat, total: nat, today: Date, a: seq<Step>, b: seq<Step>)
    ensures forall u :: Charged(cat, pkg, building, total, today, a, u) || Charged(cat, pkg, building, total, today, b, u) ==>
                        Charged(cat, pkg, building, total, today, a + b, u)
  {
    forall u | Charged(cat, pkg, building, total, today, a, u) || Charged(cat, pkg, building, total, today, b, u)
      ensures Charged(cat, pkg, building, total, today, a + b, u)
    {
      if Charged(cat, pkg, building, total, today, a, u) {
        var i :| 0 <= i < |a| && a[i].Bill? && ChargesUnit(cat, pkg, building, total, today, a[i].charge, u);
        assert (a + b)[i] == a[i];
      } else {
        var i :| 0 <= i < |b| && b[i].Bill? && ChargesUnit(cat, pkg, building, total, today, b[i].charge, u);
        assert (a + b)[|a| + i] == b[i];
      }
    }
  }

  /** The units of one linked building, in order. */
  function PlanUnits(cat: Snapshot, pkg: Package, building: nat, us: seq<Unit>, total: nat, today: Date): (r: seq<Step>)
    ensures BillCount(r) <= |us|
    ensures ChargedFrom(cat, pkg, building, total, today, r, us)
    // every owed unit is billed
    ensures forall u :: u in us && Owed(cat, pkg, total, today, u) ==> Charged(cat, pkg, building, total, today, r, u)
    // the building raises exactly when the package is broken and some unit is occupied
    ensures Crash in r <==>
              MonthlyPricing(pkg, total, today).Broken? && exists u :: u in us && ActiveResident(cat.profiles, u.id).Some?
  {
    if |us| == 0 then []
    else
      var head := UnitStep(cat, pkg, building, us[0], total, today);
      var tail := PlanUnits(cat, pkg, building, us[1..], total, today);
      BillsAppend(head, tail);
      ChargedFromAppend(cat, pkg, building, total, today, head, tail, us);
      ChargedInEither(cat, pkg, building, total, today, head, tail);
      assert Owed(cat, pkg, total, today, us[0]) ==> Charged(cat, pkg, building, total, today, head, us[0]);
      assert forall u :: u in us <==> u == us[0] || u in us[1..];
      head + tail
  }

  lemma ChargedFromAppend(cat: Snapshot, pkg: Package, building: nat, total: nat, today: Date, head: seq<Step>, tail: seq<Step>, us: seq<Unit>)
    requires |us| > 0
    requires |head| <= 1 && (|head| == 1 && head[0].Bill? ==> ChargesUnit(cat, pkg, building, total, today, head[0].charge, us[0]))
    requires ChargedFrom(cat, pkg, building, total, today, tail, us[1..])
    ensures ChargedFrom(cat, pkg, building, total, today, head + tail, us)
  {
    forall i | 0 <= i < |head + tail|
      ensures ChargedStep(cat, pkg, building, total, today, (head + tail)[i], us)
    {
      if i < |head| {
        assert (head + tail)[i] == head[0];
        assert us[0] in us;
      } else {
        assert (head + tail)[i] == tail[i - |head|];
        ChargedInTail(cat, pkg, building, total, today, tail[i - |head|], us);
      }
    }
  }

  /** A step charged from the later units is charged from the whole list. */
  lemma ChargedInTail(cat: Snapshot, pkg: Package, building: nat, total: nat, today: Date, s: Step, us: seq<Unit>)
    requires |us| > 0
    requires ChargedStep(cat, pkg, building, total, today, s, us[1..])
    ensures ChargedStep(cat, pkg, building, total, today, s, us)
  {
    if s.Bill? {
      var u :| u in us[1..] && ChargesUnit(cat, pkg, building, total, today, s.charge, u);
      assert u in us;
    }
  }

  /** `n` copies of `s` added up. */
  function Times(n: nat, s: real): real {
    if n == 0 then 0.0 else s + Times(n - 1, s)
  }

  lemma {:induction false} TimesIsProduct(n: nat, s: real)
    ensures Times(n, s) == (n as real) * s
  {
    if n > 0 {
      TimesIsProduct(n - 1, s);
      assert (n as real) * s == ((n - 1) as real) * s + s;
    }
  }

  /** All `n` shares of a non-negative amount add up to at most the amount
      (exactly the amount when n >= 1). */
  lemma SharesAddUpToMonthly(m: real, n: nat)
    requires m >= 0.0
    ensures Times(n, Money.MonthlyShare(m, n)) <= m
  {
    var s := Money.MonthlyShare(m, n);
    TimesIsProduct(n, s);
    Money.SharesNeverExceedTotal(m, n, n);
  }

  lemma {:induction false} UnitBillsWithinShares(cat: Snapshot, pkg: Package, building: nat, us: seq<Unit>, total: nat, today: Date)
    requires RecurringTerms(pkg).Some? && RecurringTerms(pkg).value.monthly >= 0.0
    ensures BillTotal(PlanUnits(cat, pkg, building, us, total, today))
            <= Times(|us|, Money.MonthlyShare(RecurringTerms(pkg).value.monthly, total))
  {
    if |us| > 0 {
      var share := Money.MonthlyShare(RecurringTerms(pkg).value.monthly, total);
      var head := UnitStep(cat, pkg, building, us[0], total, today);
      var tail := PlanUnits(cat, pkg, building, us[1..], total, today);
      assert PlanUnits(cat, pkg, building, us, total, today) == head + tail;
      BillsAppend(head, tail);
      assert BillTotal(head) <= share;
      assert BillTotal(tail) <= Times(|us| - 1, share) by {
        UnitBillsWithinShares(cat, pkg, building, us[1..], total, today);
      }
    }
  }

  /** `PackageBuilding.objects.filter(package=pkg)`. */
  function LinksOf(links: seq<PackageBuilding>, pkg: nat): (r: seq<PackageBuilding>)
    ensures forall l :: l in r <==> l in links && l.package == pkg
  {
    Seqs.Filter(links, (l: PackageBuilding) => l.package == pkg)
  }

  /** The charge `c` is one the job may issue: for a recurring package linked
      to the charge's building, to the active resident of one of that
      building's units, at that package's monthly price. */
  predicate Sound(cat: Snapshot, today: Date, c: Charge) {
    && c.mode == GetOrCreate
    && (exists pkg :: pkg in cat.packages && pkg.id == c.package && pkg.isRecurring
                      && PackageBuilding(pkg.id, c.building) in cat.links
                      && MonthlyPricing(pkg, |UnitsOf(cat.units, c.building)|, today) == Priced(c.amount, c.dueDate))
    && (exists u :: u in cat.units && u.building == c.building && BillsResidentOf(cat.profiles, c, u))
  }

  predicate AllSound(cat: Snapshot, today: Date, steps: seq<Step>) {
    forall i :: 0 <= i < |steps| && steps[i].Bill? ==> Sound(cat, today, steps[i].charge)
  }

  lemma AllSoundAppend(cat: Snapshot, today: Date, a: seq<Step>, b: seq<Step>)
    requires AllSound(cat, today, a) && AllSound(cat, today, b)
    ensures AllSound(cat, today, a + b)
  {
    forall i | 0 <= i < |a + b| && (a + b)[i].Bill? ensures Sound(cat, today, (a + b)[i].charge) {
      if i >= |a| {
        assert (a + b)[i] == b[i - |a|];
      }
    }
  }

  /** Unit `u` of `building` is owed a charge under `pkg`; the share is
      taken over all the building's units. */
  predicate OwedIn(cat: Snapshot, pkg: Package, building: nat, today: Date, u: Unit) {
    u in UnitsOf(cat.units, building) && Owed(cat, pkg, |UnitsOf(cat.units, building)|, today, u)
  }

  /** Some step of `steps` bills unit `u` of `building` under `pkg`. */
  predicate BilledIn(cat: Snapshot, pkg: Package, building: nat, today: Date, steps: seq<Step>, u: Unit) {
    Charged(cat, pkg, building, |UnitsOf(cat.units, building)|, today, steps, u)
  }

  /** `pkg` makes the job raise at `building`: it is broken and one of the
      building's units is occupied. */
  predicate Breaks(cat: Snapshot, pkg: Package, building: nat, today: Date) {
    MonthlyPricing(pkg, |UnitsOf(cat.units, building)|, today).Broken?
    && exists u :: u in UnitsOf(cat.units, building) && ActiveResident(cat.profiles, u.id).Some?
  }

  lemma BilledInEither(cat: Snapshot, pkg: Package, today: Date, a: seq<Step>, b: seq<Step>)
    ensures forall building, u :: BilledIn(cat, pkg, building, today, a, u) || BilledIn(cat, pkg, building, today, b, u) ==>
                                  BilledIn(cat, pkg, building, today, a + b, u)
  {
    forall building: nat {
      ChargedInEither(cat, pkg, building, |UnitsOf(cat.units, building)|, today, a, b);
    }
  }

  function PlanLinks(cat: Snapshot, pkg: Package, links: seq<PackageBuilding>, today: Date): (r: seq<Step>)
    requires pkg in cat.packages && pkg.isRecurring
    requires forall l :: l in links ==> l in cat.links && l.package == pkg.id
    ensures AllSound(cat, today, r)
    // every owed unit of every linked building is billed
    ensures forall l, u :: l in links && OwedIn(cat, pkg, l.building, today, u) ==> BilledIn(cat, pkg, l.building, today, r, u)
    ensures Crash in r <==> exists l :: l in links && Breaks(cat, pkg, l.building, today)
  {
    if |links| == 0 then []
    else
      var b := links[0].building;
      var us := UnitsOf(cat.units, b);
      var head := PlanUnits(cat, pkg, b, us, |us|, today);
      var tail := PlanLinks(cat, pkg, links[1..], today);
      assert AllSound(cat, today, head) by {
        assert links[0] == PackageBuilding(pkg.id, b);
        forall i | 0 <= i < |head| && head[i].Bill? ensures Sound(cat, today, head[i].charge) {
          assert ChargedStep(cat, pkg, b, |us|, today, head[i], us);
          var u :| u in us && ChargesUnit(cat, pkg, b, |us|, today, head[i].charge, u);
        }
      }
      AllSoundAppend(cat, today, head, tail);
      BilledInEither(cat, pkg, today, head, tail);
      assert forall l :: l in links <==> l == links[0] || l in links[1..];
      head + tail
  }

  function PlanPackages(cat: Snapshot, pkgs: seq<Package>, today: Date): (r: seq<Step>)
    requires forall p :: p in pkgs ==> p in cat.packages && p.isRecurring
    ensures AllSound(cat, today, r)
    // every owed unit of every building linked to one of the packages is billed
    ensures forall p, l, u :: p in pkgs && l in cat.links && l.package == p.id && OwedIn(cat, p, l.building, today, u) ==>
                              BilledIn(cat, p, l.building, today, r, u)
    ensures Crash in r <==> exists p, l :: p in pkgs && l in cat.links && l.package == p.id && Breaks(cat, p, l.building, today)
  {
    if |pkgs| == 0 then []
    else
      var head := PlanLinks(cat, pkgs[0], LinksOf(cat.links, pkgs[0].id), today);
      var tail := PlanPackages(cat, pkgs[1..], today);
      AllSoundAppend(cat, today, head, tail);
      BilledInEither(cat, pkgs[0], today, head, tail);
      assert forall p :: p in pkgs[1..] ==> p in pkgs;
      forall p | p in pkgs[1..] {
        BilledInEither(cat, p, today, head, tail);
      }
      assert forall p :: p in pkgs <==> p == pkgs[0] || p in pkgs[1..];
      head + tail
  }

  /** Everything one run issues, in order (apps/packages/tasks.py:21-61). */
  function Plan(cat: Snapshot, today: Date): (r: seq<Step>)
    ensures AllMode(r, GetOrCreate)
    ensures AllSound(cat, today, r)
    // every owed unit of every building linked to a recurring package is billed
    ensures forall p, l, u ::
              p in cat.packages && p.isRecurring && l in cat.links && l.package == p.id && OwedIn(cat, p, l.building, today, u) ==>
                BilledIn(cat, p, l.building, today, r, u)
    // the run raises exactly when a recurring package breaks at a linked building
    ensures Crash in r <==>
              exists p, l :: p in cat.packages && p.isRecurring && l in cat.links && l.package == p.id
                             && Breaks(cat, p, l.building, today)
  {
    PlanPackages(cat, Seqs.Filter(cat.packages, (p: Package) => p.isRecurring), today)
  }

  /** One run of the job. */
  function Generate(w: World, today: Date, now: Instant): (r: Outcome)
    ensures SameCatalog(w, r.w)
    // money only moves between wallets and completed transactions
    ensures Holdings(r.w) == Holdings(w)
    // every invoice the run created produced exactly one notification
    ensures r.Done? ==> |r.w.notices| - |w.notices| == |r.w.invoices| - |w.invoices|
    // a recurring package without its detail row, linked to an occupied building, stops the run
    ensures (exists p, l :: p in w.packages && p.isRecurring && l in w.links && l.package == p.id
                            && Breaks(SnapshotOf(w), p, l.building, today)) ==> r.Crashed?
  {
    var steps := Plan(SnapshotOf(w), today);
    assert (exists p, l :: p in w.packages && p.isRecurring && l in w.links && l.package == p.id
                           && Breaks(SnapshotOf(w), p, l.building, today)) ==> Crash in steps;
    Exec(w, steps, now)
  }

  // ---------------------------------------------------------------------------
  // Properties

  /** The key of the invoice owed for unit `u` of `building`: the package,
      the building, the unit's active resident and this month's due date. */
  function UnitKey(cat: Snapshot, pkg: Package, building: nat, today: Date, u: Unit): InvoiceKey
    requires OwedIn(cat, pkg, building, today, u)
  {
    InvoiceKey(pkg.id, building, Some(ActiveResident(cat.profiles, u.id).value.id),
               MonthlyPricing(pkg, |UnitsOf(cat.units, building)|, today).due)
  }

  /** The share owed for a unit of `building`. */
  function UnitShare(cat: Snapshot, pkg: Package, building: nat, today: Date): real
    requires MonthlyPricing(pkg, |UnitsOf(cat.units, building)|, today).Priced?
  {
    MonthlyPricing(pkg, |UnitsOf(cat.units, building)|, today).amount
  }

  /** Every charge of a run that carries the key of a unit's invoice is for
      that unit's share, when package ids are distinct. */
  lemma PlannedKeyIsPricedAlike(cat: Snapshot, pkg: Package, building: nat, today: Date, u: Unit)
    requires pkg in cat.packages && DistinctPackageIds(cat.packages)
    requires OwedIn(cat, pkg, building, today, u)
    ensures var steps := Plan(cat, today);
            forall i :: 0 <= i < |steps| && steps[i].Bill? && ChargeKey(steps[i].charge) == UnitKey(cat, pkg, building, today, u) ==>
              steps[i].charge.amount == UnitShare(cat, pkg, building, today)
  {
    var steps := Plan(cat, today);
    var k := UnitKey(cat, pkg, building, today, u);
    forall i | 0 <= i < |steps| && steps[i].Bill? && ChargeKey(steps[i].charge) == k
      ensures steps[i].charge.amount == UnitShare(cat, pkg, building, today)
    {
      var c := steps[i].charge;
      assert Sound(cat, today, c);
      var p :| p in cat.packages && p.id == c.package && p.isRecurring
               && PackageBuilding(p.id, c.building) in cat.links
               && MonthlyPricing(p, |UnitsOf(cat.units, c.building)|, today) == Priced(c.amount, c.dueDate);
      SamePackageId(cat.packages, p, pkg);
    }
  }

  /** The step of the plan that bills an owed unit. */
  lemma OwedUnitStep(cat: Snapshot, today: Date, pkg: Package, building: nat, u: Unit) returns (i: nat)
    requires pkg in cat.packages && pkg.isRecurring && PackageBuilding(pkg.id, building) in cat.links
    requires OwedIn(cat, pkg, building, today, u)
    ensures i < |Plan(cat, today)| && Plan(cat, today)[i].Bill?
    ensures ChargeKey(Plan(cat, today)[i].charge) == UnitKey(cat, pkg, building, today, u)
  {
    var steps := Plan(cat, today);
    var l := PackageBuilding(pkg.id, building);
    assert l in cat.links && l.package == pkg.id && l.building == building;
    assert BilledIn(cat, pkg, building, today, steps, u);
    i :| 0 <= i < |steps| && steps[i].Bill?
         && ChargesUnit(cat, pkg, building, |UnitsOf(cat.units, building)|, today, steps[i].charge, u);
  }

  /** A run that finished has billed every occupied unit of every building
      linked to a priced recurring package: exactly one invoice carries the
      unit's key (package, building, active resident, due date), and when no
      invoice carried it before the run and package ids are distinct, that
      invoice is for the unit's share of the monthly amount. */
  lemma GenerateBillsEveryOwedUnit(w: World, today: Date, now: Instant, pkg: Package, building: nat, u: Unit)
    requires pkg in w.packages && pkg.isRecurring && PackageBuilding(pkg.id, building) in w.links
    requires OwedIn(SnapshotOf(w), pkg, building, today, u)
    ensures var k := UnitKey(SnapshotOf(w), pkg, building, today, u);
            Generate(w, today, now).Done? ==> CountKey(Generate(w, today, now).w.invoices, k) == 1
    ensures var k := UnitKey(SnapshotOf(w), pkg, building, today, u);
            Generate(w, today, now).Done? && DistinctPackageIds(w.packages) && CountKey(w.invoices, k) == 0 ==>
              HasInvoice(Generate(w, today, now).w.invoices, k, UnitShare(SnapshotOf(w), pkg, building, today))
  {
    var cat := SnapshotOf(w);
    var steps := Plan(cat, today);
    var k := UnitKey(cat, pkg, building, today, u);
    assert Generate(w, today, now) == Exec(w, steps, now);
    if Exec(w, steps, now).Done? {
      var i := OwedUnitStep(cat, today, pkg, building, u);
      ExecLeavesOneInvoicePerKey(w, steps, now);
      if DistinctPackageIds(w.packages) && CountKey(w.invoices, k) == 0 {
        PlannedKeyIsPricedAlike(cat, pkg, building, today, u);
        ExecIssuesNewKeyAtItsAmount(w, steps, now, k, UnitShare(cat, pkg, building, today), i);
      }
    }
  }

  /** Every invoice the job issues is a sound charge: only recurring
      utilities and fixed packages, only to active residents, only in the
      billing month. */
  lemma PlannedChargesAreRecurringMonthly(cat: Snapshot, today: Date, c: Charge)
    ensures Bill(c) in Plan(cat, today) ==>
              exists pkg :: pkg in cat.packages && pkg.id == c.package && pkg.isRecurring
                            && (pkg.packageType == Utilities || pkg.packageType == Fixed)
    ensures Bill(c) in Plan(cat, today) ==>
              c.dueDate.year == today.year && c.dueDate.month == today.month && 1 <= c.dueDate.day <= 28
  {
    var steps := Plan(cat, today);
    if Bill(c) in steps {
      var i :| 0 <= i < |steps| && steps[i] == Bill(c);
      assert steps[i].Bill? && steps[i].charge == c;
      assert Sound(cat, today, c);
      var pkg :| pkg in cat.packages && pkg.id == c.package && pkg.isRecurring
                 && PackageBuilding(pkg.id, c.building) in cat.links
                 && MonthlyPricing(pkg, |UnitsOf(cat.units, c.building)|, today) == Priced(c.amount, c.dueDate);
    }
  }

  /** The invoices one run plans for a package and a building never add up to
      more than the package's monthly amount: each unit's share is the amount
      divided by the building's unit count, and a unit yields at most one. */
  lemma LinkBillsWithinMonthly(cat: Snapshot, pkg: Package, building: nat, today: Date, t: Terms)
    requires RecurringTerms(pkg) == Some(t) && t.monthly >= 0.0
    ensures var us := UnitsOf(cat.units, building);
            BillTotal(PlanUnits(cat, pkg, building, us, |us|, today)) <= t.monthly
  {
    var us := UnitsOf(cat.units, building);
    var n := |us|;
    var s := Money.MonthlyShare(t.monthly, n);
    var total := BillTotal(PlanUnits(cat, pkg, building, us, n, today));
    assert total <= Times(n, s) by {
      UnitBillsWithinShares(cat, pkg, building, us, n, today);
    }
    SharesAddUpToMonthly(t.monthly, n);
  }

  /** A second run in the same month creates no invoice, moves no money and
      notifies no one, whenever the first run finished. */
  lemma GenerateIsIdempotent(w: World, today: Date, now: Instant, later: Instant)
    ensures Generate(w, today, now).Done? ==>
              Generate(Generate(w, today, now).w, today, later) == Done(Generate(w, today, now).w)
  {
    if Generate(w, today, now).Done? {
      var steps := Plan(SnapshotOf(w), today);
      var w1 := Generate(w, today, now).w;
      assert SnapshotOf(w1) == SnapshotOf(w);
      ExecIsIdempotent(w, steps, now, later);
    }
  }

  /** A resident who is billable in several units of one building still gets
      one invoice per package per month: the key leaves the unit out. */
  lemma OneInvoicePerResidentAndMonth(w: World, today: Date, now: Instant, c: Charge)
    ensures Generate(w, today, now).Done? && Bill(c) in Plan(SnapshotOf(w), today) ==>
              CountKey(Generate(w, today, now).w.invoices, ChargeKey(c)) == 1
  {
    var steps := Plan(SnapshotOf(w), today);
    if Generate(w, today, now).Done? && Bill(c) in steps {
      ExecLeavesOneInvoicePerKey(w, steps, now);
      var i :| 0 <= i < |steps| && steps[i] == Bill(c);
    }
  }
}
