/** The package endpoints (apps/packages/views.py): which packages a caller
    sees, what creating a package does besides writing the row, and the
    invoice history. */
module PackageViews {
  import opened Wrappers
  import opened Calendar
  import opened Domain
  import opened Settlement
  import opened Roles
  import opened Catalog
  import Invoicing
  import PyText
  import Seqs

  // ---------------------------------------------------------------------------
  // Listing (apps/packages/views.py:21-77)

  /** What `get_queryset` yields: the packages, or an exception when a
      non-numeric building key reaches an integer column. */
  datatype Query = Rows(packages: seq<Package>) | Raises

  /** `filter(packagebuilding__building_id=b).distinct()`. */
  predicate LinkedTo(w: World, p: Package, building: nat) {
    PackageBuilding(p.id, building) in w.links
  }

  function PackagesOf(w: World, building: nat): (r: seq<Package>)
    ensures forall p :: p in r <==> p in w.packages && LinkedTo(w, p, building)
  {
    Seqs.Filter(w.packages, (p: Package) => LinkedTo(w, p, building))
  }

  predicate LinkedToAny(w: World, p: Package, buildings: set<nat>) {
    exists b :: b in buildings && LinkedTo(w, p, b)
  }

  function PackagesOfAny(w: World, buildings: set<nat>): (r: seq<Package>)
    ensures forall p :: p in r <==> p in w.packages && LinkedToAny(w, p, buildings)
  {
    Seqs.Filter(w.packages, (p: Package) => LinkedToAny(w, p, buildings))
  }

  /** The building of the caller's first profile, if the profile, its unit
      and the unit's building exist. */
  function FirstProfileBuilding(w: World, user: nat): (r: Option<nat>)
    ensures r.Some? ==> exists p :: p in w.profiles && p.user == user && ProfileBuilding(w.units, p) == r
    ensures !HasProfile(w, user) ==> r.None?
  {
    var ps := ProfilesOf(w.profiles, user);
    if |ps| == 0 then None
    else
      assert ps[0] in ps;
      ProfileBuilding(w.units, ps[0])
  }

  /** The decimal strings of the buildings the user heads. */
  function HeadedKeys(w: World, user: nat): set<string> {
    set id | id in BuildingIdsHeadedBy(w.buildings, user) :: PyText.NatToDecimal(id)
  }

  /** `get_queryset` as intended: the resident branch reads the caller's
      first profile. `param` is the `building_id` query parameter; an empty
      one counts as absent. */
  function Visible(w: World, user: nat, param: Option<string>): (r: Query)
    // only the unrestricted branch reads the parameter as a number
    ensures r.Raises? <==> "resident" !in EffectiveRoles(w, user) && "union_head" !in EffectiveRoles(w, user)
                           && param.Some? && param.value != "" && !PyText.AllDigits(param.value)
    ensures r.Rows? ==> forall p :: p in r.packages ==> p in w.packages
    // a resident sees at most the packages of their first profile's building
    ensures "resident" in EffectiveRoles(w, user) ==>
              r.Rows? && (FirstProfileBuilding(w, user).None? ==> r.packages == [])
              && forall p :: p in r.packages ==> LinkedTo(w, p, FirstProfileBuilding(w, user).value)
    ensures "resident" in EffectiveRoles(w, user) && FirstProfileBuilding(w, user).Some?
            && (param.None? || param.value == "" || param.value == PyText.NatToDecimal(FirstProfileBuilding(w, user).value)) ==>
              forall p :: p in r.packages <==> p in w.packages && LinkedTo(w, p, FirstProfileBuilding(w, user).value)
    // a union head who is not a resident sees packages of headed buildings only
    ensures "resident" !in EffectiveRoles(w, user) && "union_head" in EffectiveRoles(w, user) ==>
              r.Rows? && forall p :: p in r.packages ==> LinkedToAny(w, p, BuildingIdsHeadedBy(w.buildings, user))
    ensures "resident" !in EffectiveRoles(w, user) && "union_head" in EffectiveRoles(w, user)
            && (param.None? || param.value == "") ==>
              forall p :: p in r.packages <==> p in w.packages && LinkedToAny(w, p, BuildingIdsHeadedBy(w.buildings, user))
    // anyone else sees everything unless a building is named
    ensures ("resident" !in EffectiveRoles(w, user) && "union_head" !in EffectiveRoles(w, user)
             && (param.None? || param.value == "")) ==> r == Rows(w.packages)
  {
    var roles := EffectiveRoles(w, user);
    var given := param.Some? && param.value != "";
    if "resident" in roles then
      match FirstProfileBuilding(w, user)
      case None => Rows([])
      case Some(b) =>
        if given && param.value != PyText.NatToDecimal(b) then Rows([])
        else
          // the parameter, when given, is `str(b)`, which names `b` again
          Rows(PackagesOf(w, b))
    else if "union_head" in roles then
      var heads := BuildingIdsHeadedBy(w.buildings, user);
      if given then
        if param.value in HeadedKeys(w, user) then
          var h :| h in heads && PyText.NatToDecimal(h) == param.value;
          PyText.DecimalRoundTrip(h);
          Rows(PackagesOf(w, PyText.DecimalValue(param.value) as nat))
        else Rows([])
      else Rows(PackagesOfAny(w, heads))
    else if given then
      if PyText.AllDigits(param.value) then
        PyText.DigitsValueNonNegative(param.value);
        Rows(PackagesOf(w, PyText.DecimalValue(param.value) as nat))
      else Raises
    else Rows(w.packages)
  }

  /** `get_queryset` as written. No profile accessor named
      `resident_profiles` is declared (the profile's user key has no related
      name, so Django calls it `residentprofile_set`), so the lookup raises
      an AttributeError, which the bare `except` turns into no packages for
      every resident. Every other caller gets what `Visible` gives. */
  function VisibleAsWritten(w: World, user: nat, param: Option<string>): (r: Query)
    ensures "resident" in EffectiveRoles(w, user) ==> r == Rows([])
    ensures "resident" !in EffectiveRoles(w, user) ==> r == Visible(w, user, param)
  {
    if "resident" in EffectiveRoles(w, user) then Rows([]) else Visible(w, user, param)
  }

  /** A resident whose building has a linked package is shown it by the
      intended query, and nothing as written. */
  lemma ResidentSeesNoPackagesAsWritten(w: World, user: nat, p: Package)
    requires HasProfile(w, user) && FirstProfileBuilding(w, user).Some?
    requires p in w.packages && LinkedTo(w, p, FirstProfileBuilding(w, user).value)
    ensures VisibleAsWritten(w, user, None) == Rows([])
    ensures p in Visible(w, user, None).packages
  {
  }

  /** A union head who names one of their buildings gets exactly that
      building's packages. */
  lemma HeadNamingOwnBuilding(w: World, user: nat, b: Building)
    requires "resident" !in EffectiveRoles(w, user) && "union_head" in EffectiveRoles(w, user)
    requires b in w.buildings && b.unionHead == Some(user)
    ensures Visible(w, user, Some(PyText.NatToDecimal(b.id))) == Rows(PackagesOf(w, b.id))
  {
    assert PyText.NatToDecimal(b.id) in HeadedKeys(w, user);
    PyText.DecimalRoundTrip(b.id);
  }

  /** The unrestricted branch reads the key as an integer, so a zero-padded
      key names the same building, while the resident branch compares text
      and finds nothing. */
  lemma PaddedKeyNamesSameBuilding(w: World, user: nat, b: nat)
    ensures "resident" !in EffectiveRoles(w, user) && "union_head" !in EffectiveRoles(w, user) ==>
              Visible(w, user, Some("0" + PyText.NatToDecimal(b))) == Rows(PackagesOf(w, b))
  {
    var s := "0" + PyText.NatToDecimal(b);
    assert PyText.AllDigits(s);
    PaddedValue(PyText.NatToDecimal(b));
    PyText.DecimalRoundTrip(b);
  }

  lemma {:induction false} PaddedValue(s: string)
    ensures PyText.DecimalValue("0" + s) == PyText.DecimalValue(s)
    decreases |s|
  {
    if |s| > 0 {
      assert ("0" + s)[..|"0" + s| - 1] == "0" + s[..|s| - 1];
      PaddedValue(s[..|s| - 1]);
    }
  }

  // ---------------------------------------------------------------------------
  // Creating (apps/packages/views.py:79-220)

  /** Whether the caller takes the union-head branch of `perform_create`:
      staff and superusers behave like union heads. */
  predicate ActsAsHead(w: World, u: User) {
    "union_head" in EffectiveRoles(w, u.id) || u.isStaff || u.isSuperuser
  }

  predicate NamesBuilding(w: World, id: nat) {
    exists b :: b in w.buildings && b.id == id
  }

  function LinkRows(pkg: nat, ids: seq<nat>): (r: seq<PackageBuilding>)
    ensures |r| == |ids|
    ensures forall i :: 0 <= i < |ids| ==> r[i] == PackageBuilding(pkg, ids[i])
  {
    seq(|ids|, i requires 0 <= i < |ids| => PackageBuilding(pkg, ids[i]))
  }

  /** Every listed id names a building not yet linked to `pkg`, and no id
      repeats. */
  predicate Linkable(w: World, pkg: nat, ids: seq<nat>) {
    (forall i :: 0 <= i < |ids| ==> NamesBuilding(w, ids[i]) && PackageBuilding(pkg, ids[i]) !in w.links)
    && Seqs.NoDuplicates(ids)
  }

  function WithLink(w: World, l: PackageBuilding): World {
    w.(links := w.links + [l])
  }

  /** Linking the first id leaves the rest linkable exactly when the whole
      list was. */
  lemma {:induction false} LinkableStep(w: World, pkg: nat, ids: seq<nat>)
    requires |ids| > 0 && NamesBuilding(w, ids[0]) && PackageBuilding(pkg, ids[0]) !in w.links
    ensures Linkable(w, pkg, ids) <==> Linkable(WithLink(w, PackageBuilding(pkg, ids[0])), pkg, ids[1..])
  {
    var w1 := WithLink(w, PackageBuilding(pkg, ids[0]));
    var tail := ids[1..];
    assert forall i :: 0 <= i < |tail| ==> tail[i] == ids[i + 1];
    if Linkable(w1, pkg, tail) {
      forall i | 0 <= i < |ids| ensures NamesBuilding(w, ids[i]) && PackageBuilding(pkg, ids[i]) !in w.links {
        if i > 0 {
          assert NamesBuilding(w1, tail[i - 1]);
        }
      }
      forall i, j | 0 <= i < j < |ids| ensures ids[i] != ids[j] {
        if i == 0 {
          assert PackageBuilding(pkg, tail[j - 1]) !in w1.links;
        } else {
          assert tail[i - 1] != tail[j - 1];
        }
      }
    }
    if Linkable(w, pkg, ids) {
      forall i | 0 <= i < |tail| ensures NamesBuilding(w1, tail[i]) && PackageBuilding(pkg, tail[i]) !in w1.links {
        assert ids[0] != ids[i + 1];
      }
      forall i, j | 0 <= i < j < |tail| ensures tail[i] != tail[j] {
        assert ids[i + 1] != ids[j + 1];
      }
    }
  }

  /** One `PackageBuilding` per listed id (apps/packages/views.py:105-106).
      An unknown building breaks the foreign key and a repeated one the
      unique pair; either raises and keeps the links already written. */
  function AddLinks(w: World, pkg: nat, ids: seq<nat>): (r: Outcome)
    ensures r.w == w.(links := r.w.links)
    ensures |w.links| <= |r.w.links| && r.w.links[..|w.links|] == w.links
    ensures r.Done? <==> Linkable(w, pkg, ids)
    ensures r.Done? ==> r.w.links == w.links + LinkRows(pkg, ids)
    decreases |ids|
  {
    if |ids| == 0 then Done(w)
    else if FindBuilding(w.buildings, ids[0]).None? || PackageBuilding(pkg, ids[0]) in w.links then
      assert !Linkable(w, pkg, ids) by {
        assert !NamesBuilding(w, ids[0]) || PackageBuilding(pkg, ids[0]) in w.links;
      }
      Crashed(w)
    else
      var w1 := WithLink(w, PackageBuilding(pkg, ids[0]));
      LinkableStep(w, pkg, ids);
      var r := AddLinks(w1, pkg, ids[1..]);
      assert r.w.links[..|w.links|] == w.links by {
        assert r.w.links[..|w1.links|][..|w.links|] == w.links;
      }
      assert LinkRows(pkg, ids) == [PackageBuilding(pkg, ids[0])] + LinkRows(pkg, ids[1..]);
      r
  }

  /** Python's set of union heads kept as a sequence without repeats: each
      head once, at its last appearance. */
  function Distinct(s: seq<nat>): (r: seq<nat>)
    ensures forall x :: x in r <==> x in s
    ensures Seqs.NoDuplicates(r)
  {
    if |s| == 0 then []
    else if s[0] in s[1..] then Distinct(s[1..])
    else
      var rest := Distinct(s[1..]);
      assert forall i :: 0 < i < |[s[0]] + rest| ==> ([s[0]] + rest)[i] == rest[i - 1];
      [s[0]] + rest
  }

  /** The union head of the building a link points at. */
  predicate HeadOfLink(w: World, l: PackageBuilding, h: nat) {
    FindBuilding(w.buildings, l.building).Some? && FindBuilding(w.buildings, l.building).value.unionHead == Some(h)
  }

  /** The union heads of the linked buildings, in link order. */
  function HeadsOfLinks(w: World, links: seq<PackageBuilding>): (r: seq<nat>)
    ensures forall h :: h in r <==> exists l :: l in links && HeadOfLink(w, l, h)
  {
    if |links| == 0 then []
    else
      var head: seq<nat> := match FindBuilding(w.buildings, links[0].building)
                            case None => []
                            case Some(b) => if b.unionHead.Some? then [b.unionHead.value] else [];
      var tail := HeadsOfLinks(w, links[1..]);
      assert forall h :: h in head <==> HeadOfLink(w, links[0], h);
      assert forall l :: l in links <==> l == links[0] || l in links[1..];
      head + tail
  }

  predicate InLinkedBuilding(w: World, links: seq<PackageBuilding>, p: ResidentProfile) {
    exists l :: l in links && InBuilding(w.units, p, l.building)
  }

  function Announcements(users: seq<nat>): (r: seq<Notice>)
    ensures |r| == |users|
    ensures forall i :: 0 <= i < |users| ==> r[i] == Notice(users[i], PackageAnnounced)
  {
    seq(|users|, i requires 0 <= i < |users| => Notice(users[i], PackageAnnounced))
  }

  /** The residents of the linked buildings, in table order. */
  function LinkedProfiles(w: World, links: seq<PackageBuilding>): (r: seq<ResidentProfile>)
    ensures forall p :: p in r <==> p in w.profiles && InLinkedBuilding(w, links, p)
  {
    Seqs.Filter(w.profiles, (p: ResidentProfile) => InLinkedBuilding(w, links, p))
  }

  /** The users behind `rs`, in the same order. */
  function UsersOf(rs: seq<ResidentProfile>): (r: seq<nat>)
    ensures forall p :: p in rs ==> p.user in r
    ensures forall u :: u in r ==> exists p :: p in rs && p.user == u
  {
    if |rs| == 0 then [] else [rs[0].user] + UsersOf(rs[1..])
  }

  /** The residents' notices (apps/packages/views.py:179, 197-204): every
      resident of a linked building, in table order. */
  function ResidentNotices(w: World, links: seq<PackageBuilding>): (r: seq<Notice>)
    ensures forall n :: n in r ==> (n.kind == PackageAnnounced
              && exists p :: p in w.profiles && InLinkedBuilding(w, links, p) && n.recipient == p.user)
    ensures forall p :: p in w.profiles && InLinkedBuilding(w, links, p) ==> Notice(p.user, PackageAnnounced) in r
  {
    var rs := LinkedProfiles(w, links);
    var us := UsersOf(rs);
    var r := Announcements(us);
    AnnouncedIff(us, r);
    r
  }

  lemma AnnouncedIff(us: seq<nat>, r: seq<Notice>)
    requires |r| == |us|
    requires forall i :: 0 <= i < |us| ==> r[i] == Notice(us[i], PackageAnnounced)
    ensures forall n :: n in r <==> n.kind == PackageAnnounced && n.recipient in us
  {
    forall n ensures n in r <==> n.kind == PackageAnnounced && n.recipient in us {
      if n in r {
        var i :| 0 <= i < |r| && r[i] == n;
        assert us[i] in us;
      }
      if n.kind == PackageAnnounced && n.recipient in us {
        var i :| 0 <= i < |us| && us[i] == n.recipient;
        assert r[i] == n;
      }
    }
  }

  /** The union heads' notices (apps/packages/views.py:206-217): each head
      of a linked building exactly once. */
  function HeadNotices(w: World, links: seq<PackageBuilding>): (r: seq<Notice>)
    ensures Seqs.NoDuplicates(r)
    ensures forall n :: n in r <==> n.kind == PackageAnnounced && exists l :: l in links && HeadOfLink(w, l, n.recipient)
  {
    var hs := Distinct(HeadsOfLinks(w, links));
    var r := Announcements(hs);
    AnnouncedIff(hs, r);
    r
  }

  /** `_send_package_notification(package, "created")`
      (apps/packages/views.py:172-220). */
  function Announce(w: World, pkg: nat): (r: World)
    ensures r == w.(notices := r.notices)
    ensures |w.notices| <= |r.notices| && r.notices[..|w.notices|] == w.notices
    // every new notice is an announcement to a resident or union head of a
    // linked building
    ensures forall n :: n in r.notices[|w.notices|..] ==>
              n.kind == PackageAnnounced
              && ((exists p :: p in w.profiles && InLinkedBuilding(w, PackageLinks(w, pkg), p) && n.recipient == p.user)
                  || (exists l :: l in w.links && l.package == pkg && HeadOfLink(w, l, n.recipient)))
    // and each of them is told
    ensures forall p :: p in w.profiles && InLinkedBuilding(w, PackageLinks(w, pkg), p) ==>
              Notice(p.user, PackageAnnounced) in r.notices[|w.notices|..]
    ensures forall l, h :: l in w.links && l.package == pkg && HeadOfLink(w, l, h) ==>
              Notice(h, PackageAnnounced) in r.notices[|w.notices|..]
  {
    var links := PackageLinks(w, pkg);
    var added := ResidentNotices(w, links) + HeadNotices(w, links);
    var r := w.(notices := w.notices + added);
    assert r.notices[|w.notices|..] == added;
    forall n | n in added
      ensures (exists p :: p in w.profiles && InLinkedBuilding(w, links, p) && n.recipient == p.user)
              || (exists l :: l in w.links && l.package == pkg && HeadOfLink(w, l, n.recipient))
    {
      AnnouncementReachesLinkedBuildings(w, pkg, n);
    }
    r
  }

  /** The announcement reaches only residents and union heads of the
      linked buildings. */
  lemma AnnouncementReachesLinkedBuildings(w: World, pkg: nat, n: Notice)
    requires n in ResidentNotices(w, PackageLinks(w, pkg)) + HeadNotices(w, PackageLinks(w, pkg))
    ensures n.kind == PackageAnnounced
    ensures (exists p :: p in w.profiles && InLinkedBuilding(w, PackageLinks(w, pkg), p) && n.recipient == p.user)
            || (exists l :: l in w.links && l.package == pkg && HeadOfLink(w, l, n.recipient))
  {
    var links := PackageLinks(w, pkg);
    if n !in ResidentNotices(w, links) {
      var l :| l in links && HeadOfLink(w, l, n.recipient);
      assert l in w.links && l.package == pkg;
    }
  }

  /** `PackageBuilding.objects.filter(package=package)`. */
  function PackageLinks(w: World, pkg: nat): (r: seq<PackageBuilding>)
    ensures forall l :: l in r <==> l in w.links && l.package == pkg
  {
    Seqs.Filter(w.links, (l: PackageBuilding) => l.package == pkg)
  }

  /** The amount and due date of a personal invoice
      (apps/packages/views.py:124-136): the first detail row present, in the
      order utility, prepaid, fixed, misc; a misc package falls due on its
      deadline, any other on its start date. */
  function PersonalTerms(p: Package): (r: (real, Date))
    ensures p.utility.Some? ==> r == (p.utility.value.monthlyAmount, p.startDate)
    ensures p.utility.None? && p.prepaid.Some? ==> r == (p.prepaid.value.averageMonthlyCharge, p.startDate)
    ensures p.utility.None? && p.prepaid.None? && p.fixed.Some? ==> r == (p.fixed.value.monthlyAmount, p.startDate)
    ensures p.utility.None? && p.prepaid.None? && p.fixed.None? && p.misc.Some? ==>
              r == (p.misc.value.totalAmount, p.misc.value.deadline)
    ensures HasNoDetail(p) ==> r.0 == 0.0
  {
    if p.utility.Some? then (p.utility.value.monthlyAmount, p.startDate)
    else if p.prepaid.Some? then (p.prepaid.value.averageMonthlyCharge, p.startDate)
    else if p.fixed.Some? then (p.fixed.value.monthlyAmount, p.startDate)
    else if p.misc.Some? then (p.misc.value.totalAmount, p.misc.value.deadline)
    else (0.0, p.startDate)
  }

  /** For a package created through the serializer, the personal invoice is
      for the same amount the building summary shows. */
  lemma PersonalAmountIsShownAmount(p: Package)
    requires HasOnlyOwnDetail(p)
    ensures DetailAmount(p) == Some(PersonalTerms(p).0)
    ensures PersonalTerms(p).1 == if p.packageType == Misc then p.misc.value.deadline else p.startDate
  {
  }

  /** The resident branch of `perform_create` (apps/packages/views.py:110-154). */
  function PersonalInvoice(w: World, user: nat, pkg: Package): (r: Reply)
    ensures r.status == 201 || r.status == 400
    ensures r.status == 400 ==> r.w == w
    ensures r.status == 201 <==> FirstProfileBuilding(w, user).Some? && PersonalTerms(pkg).0 > 0.0
    // one pending invoice for the caller's first profile, and one notice to them
    ensures r.status == 201 ==>
              SameCatalog(w, r.w) && r.w.wallets == w.wallets && r.w.transactions == w.transactions
              && |r.w.invoices| == |w.invoices| + 1 && r.w.invoices[..|w.invoices|] == w.invoices
              && (var inv := r.w.invoices[|w.invoices|];
                  inv.package == pkg.id && Some(inv.building) == FirstProfileBuilding(w, user)
                  && inv.amount == PersonalTerms(pkg).0 && inv.dueDate == PersonalTerms(pkg).1
                  && inv.status == InvoicePending && inv.resident.Some?
                  && (exists p :: p in w.profiles && p.user == user && p.id == inv.resident.value))
              && r.w.notices == w.notices + [Notice(user, PersonalPackage)]
  {
    var ps := ProfilesOf(w.profiles, user);
    if |ps| == 0 then Reply(400, w)
    else
      match ProfileBuilding(w.units, ps[0])
      case None => Reply(400, w)
      case Some(b) =>
        var (amount, due) := PersonalTerms(pkg);
        if amount <= 0.0 then Reply(400, w)
        else
          assert ps[0] in ps;
          var w1 := Invoicing.CreateInvoice(w, Invoicing.Charge(pkg.id, b, ps[0].id, user, amount, due, Invoicing.CreateOnly));
          Reply(201, w1.(notices := w1.notices + [Notice(user, PersonalPackage)]))
  }

  /** The union-head branch of `perform_create`
      (apps/packages/views.py:99-108): at least one building must be listed;
      each is linked and the linked buildings are told. */
  function LinkAndAnnounce(w: World, pkg: nat, buildings: seq<nat>): (r: Reply)
    ensures r.status in {201, 400, 500}
    ensures r.w.packages == w.packages && r.w.invoices == w.invoices && r.w.profiles == w.profiles
    ensures r.status == 400 <==> |buildings| == 0
    ensures r.status == 400 ==> r.w == w
    ensures r.status == 201 <==> |buildings| > 0 && Linkable(w, pkg, buildings)
    ensures r.status == 201 ==> r.w.links == w.links + LinkRows(pkg, buildings)
  {
    if |buildings| == 0 then Reply(400, w)
    else
      match AddLinks(w, pkg, buildings)
      case Crashed(w2) => Reply(500, w2)
      case Done(w2) => Reply(201, Announce(w2, pkg))
  }

  /** `perform_create`: the serializer's `create`, then the branch the
      caller's roles select. Nothing is rolled back: a 400 or 500 keeps the
      package row and whatever else was written. */
  function PerformCreate(w: World, c: Caller, input: NewPackage, details: DetailsInput, buildings: seq<nat>, now: Instant): (r: Reply)
    ensures r.status in {201, 400, 500}
    // the package row survives every outcome
    ensures |r.w.packages| == |w.packages| + 1 && r.w.packages[..|w.packages|] == w.packages
    ensures var p := r.w.packages[|w.packages|];
            p.createdBy == c.user.id && forall q :: q in w.packages ==> q.id < p.id
    ensures LinksResolve(w) && !DetailGiven(input.packageType, details) ==> r.status == 500
    // a union head, staff member or superuser links the listed buildings and
    // never gets a personal invoice
    ensures ActsAsHead(w, c.user) && LinksResolve(w) ==> r.w.invoices == w.invoices
    ensures ActsAsHead(w, c.user) && LinksResolve(w) && DetailGiven(input.packageType, details) ==>
              (r.status == 400 <==> |buildings| == 0)
              && (r.status == 201 <==> |buildings| > 0 && Linkable(w, r.w.packages[|w.packages|].id, buildings))
    ensures ActsAsHead(w, c.user) && r.status == 201 ==>
              r.w.links == w.links + LinkRows(r.w.packages[|w.packages|].id, buildings)
    // a plain resident gets an invoice for the package, and no links
    ensures !ActsAsHead(w, c.user) && "resident" in EffectiveRoles(w, c.user.id) ==> r.w.links == w.links
    ensures !ActsAsHead(w, c.user) && "resident" in EffectiveRoles(w, c.user.id) && LinksResolve(w) && r.status == 201 ==>
              |r.w.invoices| == |w.invoices| + 1
              && r.w.invoices[|w.invoices|].package == r.w.packages[|w.packages|].id
              && r.w.invoices[|w.invoices|].amount > 0.0
              && r.w.notices == w.notices + [Notice(c.user.id, PersonalPackage)]
    // anyone else only writes the package
    ensures !ActsAsHead(w, c.user) && "resident" !in EffectiveRoles(w, c.user.id) && LinksResolve(w) ==>
              r.w == w.(packages := r.w.packages)
              && (r.status == 201 <==> DetailGiven(input.packageType, details))
  {
    match CreatePackage(w, input, c.user.id, details, now)
    case Crashed(w1) => Reply(500, w1)
    case Done(w1) =>
      var pkg := w1.packages[|w.packages|];
      if ActsAsHead(w, c.user) then
        assert Linkable(w1, pkg.id, buildings) == Linkable(w, pkg.id, buildings);
        LinkAndAnnounce(w1, pkg.id, buildings)
      else if "resident" in EffectiveRoles(w, c.user.id) then PersonalInvoice(w1, c.user.id, pkg)
      else Reply(201, w1)
  }

  // ---------------------------------------------------------------------------
  // Invoice history (apps/packages/views.py:232-271)

  /** The table lists invoices in key order, which is creation order. */
  predicate IdsAscending(invs: seq<PackageInvoice>) {
    forall i, j :: 0 <= i < j < |invs| ==> invs[i].id < invs[j].id
  }

  predicate OwnInvoice(w: World, user: nat, v: PackageInvoice) {
    v.resident.Some? && exists p :: p in w.profiles && p.user == user && p.id == v.resident.value
  }

  predicate HeadedInvoice(w: World, user: nat, v: PackageInvoice) {
    v.building in BuildingIdsHeadedBy(w.buildings, user)
  }

  lemma {:induction false} FilterAscending(invs: seq<PackageInvoice>, f: PackageInvoice -> bool)
    requires IdsAscending(invs)
    ensures IdsAscending(Seqs.Filter(invs, f))
  {
    if |invs| > 0 {
      FilterAscending(invs[1..], f);
      var rest := Seqs.Filter(invs[1..], f);
      if f(invs[0]) {
        ConsAscending(invs, rest);
        assert Seqs.Filter(invs, f) == [invs[0]] + rest;
      } else {
        assert Seqs.Filter(invs, f) == rest;
      }
    }
  }

  lemma ConsAscending(invs: seq<PackageInvoice>, rest: seq<PackageInvoice>)
    requires |invs| > 0 && IdsAscending(invs) && IdsAscending(rest)
    requires forall v :: v in rest ==> v in invs[1..]
    ensures IdsAscending([invs[0]] + rest)
  {
    var r := [invs[0]] + rest;
    forall i, j | 0 <= i < j < |r| ensures r[i].id < r[j].id {
      assert r[j] == rest[j - 1];
      if i > 0 {
        assert r[i] == rest[i - 1];
      } else {
        HeadIdSmallest(invs, rest[j - 1]);
      }
    }
  }

  lemma HeadIdSmallest(invs: seq<PackageInvoice>, v: PackageInvoice)
    requires |invs| > 0 && IdsAscending(invs) && v in invs[1..]
    ensures invs[0].id < v.id
  {
    var k :| 0 <= k < |invs[1..]| && invs[1..][k] == v;
    assert invs[k + 1] == v;
  }

  /** `invoice_history` as intended: a resident's own invoices, else the
      invoices of the buildings a union head heads, else nothing; newest
      first. */
  function InvoiceHistory(w: World, user: nat): (r: seq<PackageInvoice>)
    ensures "resident" in EffectiveRoles(w, user) ==>
              forall v :: v in r <==> v in w.invoices && OwnInvoice(w, user, v)
    ensures "resident" !in EffectiveRoles(w, user) && "union_head" in EffectiveRoles(w, user) ==>
              forall v :: v in r <==> v in w.invoices && HeadedInvoice(w, user, v)
    ensures "resident" !in EffectiveRoles(w, user) && "union_head" !in EffectiveRoles(w, user) ==> r == []
    ensures IdsAscending(w.invoices) ==> forall i, j :: 0 <= i < j < |r| ==> r[j].id < r[i].id
  {
    var roles := EffectiveRoles(w, user);
    if "resident" in roles then NewestFirst(w.invoices, v => OwnInvoice(w, user, v))
    else if "union_head" in roles then NewestFirst(w.invoices, v => HeadedInvoice(w, user, v))
    else []
  }

  /** `invoice_history` as written: `user.resident_profiles` is not
      declared and nothing catches the AttributeError, so every resident
      gets a 500 (None); every other caller gets what `InvoiceHistory`
      gives. */
  function InvoiceHistoryAsWritten(w: World, user: nat): (r: Option<seq<PackageInvoice>>)
    ensures r.None? <==> "resident" in EffectiveRoles(w, user)
    ensures r.Some? ==> r.value == InvoiceHistory(w, user)
  {
    if "resident" in EffectiveRoles(w, user) then None else Some(InvoiceHistory(w, user))
  }

  /** A resident with an invoice of their own sees it in the intended
      history, and gets a 500 as written. */
  lemma ResidentHistoryFailsAsWritten(w: World, user: nat, v: PackageInvoice)
    requires v in w.invoices && OwnInvoice(w, user, v)
    ensures InvoiceHistoryAsWritten(w, user).None?
    ensures v in InvoiceHistory(w, user)
  {
    var p :| p in w.profiles && p.user == user && p.id == v.resident.value;
    assert HasProfile(w, user);
  }

  /** The invoices `f` keeps, in reverse table order. */
  function NewestFirst(invs: seq<PackageInvoice>, f: PackageInvoice -> bool): (r: seq<PackageInvoice>)
    ensures forall v :: v in r <==> v in invs && f(v)
    ensures IdsAscending(invs) ==> forall i, j :: 0 <= i < j < |r| ==> r[j].id < r[i].id
  {
    var kept := Seqs.Filter(invs, f);
    var r := Seqs.Reverse(kept);
    assert forall v :: v in r <==> v in kept by {
      forall v ensures v in r <==> v in kept {
        if v in kept {
          var i :| 0 <= i < |kept| && kept[i] == v;
          assert r[|kept| - 1 - i] == v;
        }
      }
    }
    assert IdsAscending(invs) ==> IdsAscending(kept) by {
      if IdsAscending(invs) {
        FilterAscending(invs, f);
      }
    }
    r
  }

  /** A caller who is both resident and union head sees only their own
      invoices: the resident branch is tried first. */
  lemma ResidentBranchWins(w: World, user: nat, v: PackageInvoice)
    requires HasProfile(w, user)
    requires v in w.invoices && HeadedInvoice(w, user, v) && !OwnInvoice(w, user, v)
    ensures v !in InvoiceHistory(w, user)
  {
  }
}
