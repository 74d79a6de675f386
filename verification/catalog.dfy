/** The package catalog as the serializers write and read it: creating a
    package row with the one detail row its type calls for
    (apps/packages/serializers.py:49-64), and the per-building summary the
    building serializer computes (apps/buildings/serializers.py:18-94). */
module Catalog {
  import opened Wrappers
  import opened Calendar
  import opened Domain
  import opened Settlement
  import CreationBilling
  import MonthlyBilling
  import BuildingViews
  import Seqs

  // ---------------------------------------------------------------------------
  // Creating a package (apps/packages/serializers.py:49-64)

  /** The validated columns of a new package. `package_type` is a choice
      field, so it is always one of the four kinds. */
  datatype NewPackage = NewPackage(packageType: PackageType, name: string, isRecurring: bool, startDate: Date)

  /** The four `<type>_details` objects of the request body, each as the
      detail row it makes; `None` when the object is absent, lacks a
      required column or names an unknown one, any of which makes the
      detail row's `create` raise. */
  datatype DetailsInput = DetailsInput(
    utility: Option<UtilityDetail>,
    prepaid: Option<PrepaidDetail>,
    fixed: Option<FixedDetail>,
    misc: Option<MiscDetail>)

  /** Whether the request carries a usable detail object for `t`. */
  predicate DetailGiven(t: PackageType, d: DetailsInput) {
    match t
    case Utilities => d.utility.Some?
    case Prepaid => d.prepaid.Some?
    case Fixed => d.fixed.Some?
    case Misc => d.misc.Some?
  }

  /** The package has a detail row of its own kind and of no other. */
  predicate HasOnlyOwnDetail(p: Package) {
    (p.utility.Some? <==> p.packageType == Utilities)
    && (p.prepaid.Some? <==> p.packageType == Prepaid)
    && (p.fixed.Some? <==> p.packageType == Fixed)
    && (p.misc.Some? <==> p.packageType == Misc)
  }

  predicate HasNoDetail(p: Package) {
    p.utility.None? && p.prepaid.None? && p.fixed.None? && p.misc.None?
  }

  /** Every package link points at an existing package (the foreign key). */
  predicate LinksResolve(w: World) {
    forall l :: l in w.links ==> exists p :: p in w.packages && p.id == l.package
  }

  /** The primary key the next package row receives. */
  function FreshPackageId(w: World): (r: nat)
    ensures forall p :: p in w.packages ==> p.id < r
  {
    var id := NextId(PackageIds(w.packages));
    assert forall p :: p in w.packages ==> p.id < id by {
      forall p | p in w.packages ensures p.id < id {
        var i :| 0 <= i < |w.packages| && w.packages[i] == p;
        assert PackageIds(w.packages)[i] == p.id;
      }
    }
    id
  }

  /** A package key no row uses yet has no links. */
  lemma {:induction false} FreshPackageHasNoLinks(w: World)
    requires LinksResolve(w)
    ensures MonthlyBilling.LinksOf(w.links, FreshPackageId(w)) == []
  {
    var id := FreshPackageId(w);
    forall l | l in w.links ensures l.package != id {
      var p :| p in w.packages && p.id == l.package;
    }
    var ls := MonthlyBilling.LinksOf(w.links, id);
    assert forall i :: 0 <= i < |ls| ==> ls[i] in ls;
    assert |ls| == 0 || (ls[0] in w.links && ls[0].package == id);
  }

  /** The bare package row, before any detail row exists. */
  function BareRow(w: World, input: NewPackage, user: nat): (p: Package)
    ensures p.id == FreshPackageId(w) && HasNoDetail(p)
    ensures p.packageType == input.packageType && p.name == input.name && p.isRecurring == input.isRecurring
            && p.startDate == input.startDate && p.createdBy == user
  {
    Package(FreshPackageId(w), input.packageType, input.name, input.isRecurring, user, input.startDate,
            None, None, None, None)
  }

  /** The post-save hook fires when the bare row is written, and then sees a
      package with no linked buildings and no detail row, so it writes
      nothing: a package created through the API is never billed by it. */
  lemma {:induction false} HookSeesNoLinks(w: World, input: NewPackage, user: nat, now: Instant)
    requires LinksResolve(w)
    ensures var w1 := w.(packages := w.packages + [BareRow(w, input, user)]);
            CreationBilling.OnPackageSaved(w1, BareRow(w, input, user), true, now) == Done(w1)
  {
    FreshPackageHasNoLinks(w);
  }

  /** The post-save hook on the freshly written row, seen only through what
      `create` relies on: it never touches the catalog, and with intact links
      it writes nothing at all. */
  function CreateHook(w: World, input: NewPackage, user: nat, now: Instant): (r: Outcome)
    ensures var w1 := w.(packages := w.packages + [BareRow(w, input, user)]);
            Settlement.SameCatalog(w1, r.w) && (LinksResolve(w) ==> r == Done(w1))
  {
    var w1 := w.(packages := w.packages + [BareRow(w, input, user)]);
    if LinksResolve(w) then HookSeesNoLinks(w, input, user, now); CreationBilling.OnPackageSaved(w1, BareRow(w, input, user), true, now)
    else CreationBilling.OnPackageSaved(w1, BareRow(w, input, user), true, now)
  }

  /** The detail row `create` adds for the package's type. */
  function WithDetail(p: Package, d: DetailsInput): (r: Package)
    requires HasNoDetail(p) && DetailGiven(p.packageType, d)
    ensures HasOnlyOwnDetail(r)
    ensures r.utility.Some? ==> r.utility == d.utility
    ensures r.prepaid.Some? ==> r.prepaid == d.prepaid
    ensures r.fixed.Some? ==> r.fixed == d.fixed
    ensures r.misc.Some? ==> r.misc == d.misc
    ensures r.(utility := None, prepaid := None, fixed := None, misc := None) == p
  {
    match p.packageType
    case Utilities => p.(utility := d.utility)
    case Prepaid => p.(prepaid := d.prepaid)
    case Fixed => p.(fixed := d.fixed)
    case Misc => p.(misc := d.misc)
  }

  /** `PackageSerializer.create`: the package row (and its post-save hook),
      then the one detail row its type calls for. A detail object that cannot
      make a row raises after the package row is written. */
  function CreatePackage(w: World, input: NewPackage, user: nat, details: DetailsInput, now: Instant): (r: Outcome)
    // the package row is always written, with a fresh key, whatever follows
    ensures |r.w.packages| == |w.packages| + 1 && r.w.packages[..|w.packages|] == w.packages
    ensures var p := r.w.packages[|w.packages|];
            (forall q :: q in w.packages ==> q.id < p.id)
            && p.packageType == input.packageType && p.name == input.name && p.isRecurring == input.isRecurring
            && p.startDate == input.startDate && p.createdBy == user
    // the hook may write ledger rows, but never the catalog
    ensures r.w.users == w.users && r.w.roles == w.roles && r.w.userRoles == w.userRoles
            && r.w.buildings == w.buildings && r.w.units == w.units && r.w.profiles == w.profiles
            && r.w.links == w.links
    // with intact links the hook is silent, and only the detail decides
    ensures LinksResolve(w) ==> r.w == w.(packages := r.w.packages)
    ensures LinksResolve(w) ==> (r.Done? <==> DetailGiven(input.packageType, details))
    // a created package has exactly the detail of its own kind, as submitted
    ensures r.Done? ==> var p := r.w.packages[|w.packages|];
              HasOnlyOwnDetail(p)
              && (p.utility.Some? ==> p.utility == details.utility)
              && (p.prepaid.Some? ==> p.prepaid == details.prepaid)
              && (p.fixed.Some? ==> p.fixed == details.fixed)
              && (p.misc.Some? ==> p.misc == details.misc)
    // a failed detail leaves the package behind without one
    ensures r.Crashed? && LinksResolve(w) ==> HasNoDetail(r.w.packages[|w.packages|])
  {
    var pkg := BareRow(w, input, user);
    var w1 := w.(packages := w.packages + [pkg]);
    assert w1.packages[..|w.packages|] == w.packages;
    match CreateHook(w, input, user, now)
    case Crashed(w2) => Crashed(w2)
    case Done(w2) =>
      var k := |w.packages|;
      assert w2.packages == w1.packages && w2.packages[k] == pkg;
      if !DetailGiven(pkg.packageType, details) then Crashed(w2)
      else
        var ps := w2.packages[k := WithDetail(pkg, details)];
        assert ps[..k] == w.packages;
        Done(w2.(packages := ps))
  }

  // ---------------------------------------------------------------------------
  // The building summary (apps/buildings/serializers.py:18-94)

  /** One entry of a building's `packages` list. */
  datatype PackageEntry = PackageEntry(id: nat, name: string, packageType: PackageType, isRecurring: bool,
                                       amount: Option<real>)

  /** The amount shown for a package: its type's detail amount, or nothing
      when that detail row is missing (apps/buildings/serializers.py:59-83). */
  function DetailAmount(p: Package): (r: Option<real>)
    ensures p.packageType == Fixed ==> r == if p.fixed.Some? then Some(p.fixed.value.monthlyAmount) else None
    ensures p.packageType == Utilities ==> r == if p.utility.Some? then Some(p.utility.value.monthlyAmount) else None
    ensures p.packageType == Prepaid ==> r == if p.prepaid.Some? then Some(p.prepaid.value.averageMonthlyCharge) else None
    ensures p.packageType == Misc ==> r == if p.misc.Some? then Some(p.misc.value.totalAmount) else None
  {
    match p.packageType
    case Fixed => if p.fixed.None? then None else Some(p.fixed.value.monthlyAmount)
    case Utilities => if p.utility.None? then None else Some(p.utility.value.monthlyAmount)
    case Prepaid => if p.prepaid.None? then None else Some(p.prepaid.value.averageMonthlyCharge)
    case Misc => if p.misc.None? then None else Some(p.misc.value.totalAmount)
  }

  /** `PackageBuilding.objects.filter(building=b)`. */
  function LinksTo(links: seq<PackageBuilding>, building: nat): (r: seq<PackageBuilding>)
    ensures forall l :: l in r <==> l in links && l.building == building
  {
    Seqs.Filter(links, (l: PackageBuilding) => l.building == building)
  }

  predicate Resolves(packages: seq<Package>, links: seq<PackageBuilding>) {
    forall l :: l in links ==> FindPackage(packages, l.package).Some?
  }

  function EntryOf(p: Package): PackageEntry {
    PackageEntry(p.id, p.name, p.packageType, p.isRecurring, DetailAmount(p))
  }

  /** One entry per link, in link order. */
  function Entries(packages: seq<Package>, links: seq<PackageBuilding>): (r: seq<PackageEntry>)
    requires Resolves(packages, links)
    ensures |r| == |links|
    ensures forall i :: 0 <= i < |links| ==> r[i].id == links[i].package
    ensures forall i :: 0 <= i < |links| ==> links[i] in links && r[i] == EntryOf(FindPackage(packages, links[i].package).value)
  {
    if |links| == 0 then []
    else
      assert links[0] in links;
      var p := FindPackage(packages, links[0].package).value;
      assert forall l :: l in links[1..] ==> l in links;
      [EntryOf(p)] + Entries(packages, links[1..])
  }

  /** Every entry of the summary is a package linked to the building. */
  lemma EntriesAreLinked(w: World, building: nat)
    requires Resolves(w.packages, w.links)
    ensures forall e :: e in Entries(w.packages, LinksTo(w.links, building)) ==>
              exists p :: p in w.packages && e == EntryOf(p) && PackageBuilding(p.id, building) in w.links
  {
    var ls := LinksTo(w.links, building);
    var r := Entries(w.packages, ls);
    forall e | e in r ensures exists p :: p in w.packages && e == EntryOf(p) && PackageBuilding(p.id, building) in w.links {
      var i :| 0 <= i < |r| && r[i] == e;
      var p := FindPackage(w.packages, ls[i].package).value;
      assert ls[i] in ls;
      assert ls[i] == PackageBuilding(p.id, building);
    }
  }

  /** Every link of the building shows up in the summary. */
  lemma LinksAreShown(w: World, building: nat)
    requires Resolves(w.packages, w.links)
    ensures forall l :: l in w.links && l.building == building ==>
              EntryOf(FindPackage(w.packages, l.package).value) in Entries(w.packages, LinksTo(w.links, building))
  {
    var ls := LinksTo(w.links, building);
    var r := Entries(w.packages, ls);
    forall l | l in w.links && l.building == building ensures EntryOf(FindPackage(w.packages, l.package).value) in r {
      assert l in ls;
      var i :| 0 <= i < |ls| && ls[i] == l;
      assert r[i] == EntryOf(FindPackage(w.packages, l.package).value);
    }
  }

  /** `get_packages` (apps/buildings/serializers.py:53-94). */
  function BuildingPackages(w: World, building: nat): (r: seq<PackageEntry>)
    requires Resolves(w.packages, w.links)
    ensures |r| == |LinksTo(w.links, building)|
    // every entry is a package linked to the building, shown with its own amount
    ensures forall e :: e in r ==> exists p :: p in w.packages && e == EntryOf(p)
                                            && PackageBuilding(p.id, building) in w.links
    // and every link of the building shows its package
    ensures forall l :: l in w.links && l.building == building ==> EntryOf(FindPackage(w.packages, l.package).value) in r
  {
    EntriesAreLinked(w, building);
    LinksAreShown(w, building);
    Entries(w.packages, LinksTo(w.links, building))
  }

  /** `get_packages_count` (apps/buildings/serializers.py:49-51). */
  function PackagesCount(w: World, building: nat): (r: nat)
    ensures r <= |w.links|
    ensures r == 0 <==> forall l :: l in w.links ==> l.building != building
  {
    var ls := LinksTo(w.links, building);
    assert |ls| > 0 ==> ls[0] in ls;
    |ls|
  }

  /** The count agrees with the list it summarises. */
  lemma PackagesCountIsListLength(w: World, building: nat)
    requires Resolves(w.packages, w.links)
    ensures PackagesCount(w, building) == |BuildingPackages(w, building)|
  {
  }

  function FindUser(users: seq<User>, id: nat): (r: Option<User>)
    ensures r.Some? ==> r.value in users && r.value.id == id
    ensures r.None? ==> forall u :: u in users ==> u.id != id
  {
    if |users| == 0 then None
    else if users[0].id == id then Some(users[0])
    else FindUser(users[1..], id)
  }

  /** `get_union_head_name` (apps/buildings/serializers.py:46-47). */
  function UnionHeadName(w: World, b: Building): (r: Option<string>)
    ensures b.unionHead.None? ==> r.None?
    ensures r.Some? ==> exists u :: u in w.users && Some(u.id) == b.unionHead && u.fullName == r.value
    ensures b.unionHead.Some? && (exists u :: u in w.users && u.id == b.unionHead.value) ==> r.Some?
  {
    if b.unionHead.None? then None
    else
      match FindUser(w.users, b.unionHead.value)
      case None => None
      case Some(u) => Some(u.fullName)
  }

  /** `get_residents` (apps/buildings/serializers.py:18-44): every profile
      in the building, with its paid invoices. */
  function BuildingResidents(w: World, building: nat): (r: seq<BuildingViews.ResidentRecord>)
    ensures forall p :: (exists e :: e in r && e.profile == p) <==> p in w.profiles && InBuilding(w.units, p, building)
    ensures forall e :: e in r ==> forall v :: v in e.payments <==>
              v in w.invoices && v.resident == Some(e.profile.id) && v.status == InvoicePaid
  {
    var ps := ProfilesInBuilding(w.units, w.profiles, building);
    var r := BuildingViews.Records(w, ps);
    assert forall p :: (exists e :: e in r && e.profile == p) <==> p in ps by {
      forall p ensures (exists e :: e in r && e.profile == p) <==> p in ps {
        if p in ps {
          var i :| 0 <= i < |ps| && ps[i] == p;
          assert r[i] in r && r[i].profile == p;
        }
      }
    }
    r
  }
}
