/** The union head's dashboard (apps/core/views.py): the figures of
    `dashboard_stats` and the merged feed of `latest_activities`. The world
    keeps no `created_at` for profiles and packages and no notification
    rows, so a `Stamps` record supplies them alongside it. */
module Dashboard {
  import opened Wrappers
  import opened Calendar
  import opened Domain
  import Roles
  import Seqs

  datatype Notification = Notification(user: nat, isRead: bool, createdAt: Instant)

  /** The `created_at` of each profile and package row, by position, and the
      notification table. */
  datatype Stamps = Stamps(profileCreated: seq<Instant>, packageCreated: seq<Instant>, notifications: seq<Notification>)

  predicate Fits(w: World, st: Stamps) {
    |st.profileCreated| == |w.profiles| && |st.packageCreated| == |w.packages|
  }

  /** Both views answer 403 unless the caller holds the `union_head` role or
      heads a building. */
  predicate MayView(w: World, user: nat) {
    "union_head" in Roles.UserRoles(w, user) || HeadsABuilding(w, user)
  }

  // ---------------------------------------------------------------------------
  // dashboard_stats

  /** A completed transaction into the wallet of one of the buildings `heads`. */
  predicate PaidToBuilding(wallets: seq<Wallet>, heads: set<nat>, t: Transaction) {
    && t.status == Completed
    && exists v :: v in wallets && v.id == t.wallet && v.ownerType == BuildingOwner && v.ownerId in heads
  }

  predicate CountsAsRevenue(wallets: seq<Wallet>, heads: set<nat>, now: Instant, t: Transaction) {
    PaidToBuilding(wallets, heads, t) && InMonthWindow(t.createdAt, now)
  }

  /** `Sum('amount')` over the counted transactions, `or 0` when none. */
  function Revenue(wallets: seq<Wallet>, ts: seq<Transaction>, heads: set<nat>, now: Instant): real {
    if |ts| == 0 then 0.0
    else (if CountsAsRevenue(wallets, heads, now, ts[0]) then ts[0].amount else 0.0) + Revenue(wallets, ts[1..], heads, now)
  }

  /** Revenue adds up table by table. */
  lemma {:induction false} RevenueAppend(wallets: seq<Wallet>, a: seq<Transaction>, b: seq<Transaction>, heads: set<nat>, now: Instant)
    ensures Revenue(wallets, a + b, heads, now) == Revenue(wallets, a, heads, now) + Revenue(wallets, b, heads, now)
  {
    if |a| == 0 {
      assert a + b == b;
    } else {
      assert (a + b)[1..] == a[1..] + b;
      RevenueAppend(wallets, a[1..], b, heads, now);
    }
  }

  /** A new transaction raises the revenue by its amount exactly when it is
      a completed payment into one of the head's buildings dated in the
      current calendar month, and leaves it alone otherwise. */
  lemma RevenueOfNewTransaction(wallets: seq<Wallet>, ts: seq<Transaction>, t: Transaction, heads: set<nat>, now: Instant)
    requires ValidInstant(t.createdAt) && ValidDate(now.date)
    ensures Revenue(wallets, ts + [t], heads, now)
            == Revenue(wallets, ts, heads, now)
               + (if PaidToBuilding(wallets, heads, t)
                     && t.createdAt.date.year == now.date.year && t.createdAt.date.month == now.date.month
                  then t.amount else 0.0)
  {
    RevenueAppend(wallets, ts, [t], heads, now);
    MonthWindowIsCalendarMonth(t.createdAt, now);
    assert Revenue(wallets, [t], heads, now)
           == (if CountsAsRevenue(wallets, heads, now, t) then t.amount else 0.0) + Revenue(wallets, [], heads, now);
  }

  /** Nothing counts for a caller who heads no building. */
  lemma {:induction false} NoBuildingsNoRevenue(wallets: seq<Wallet>, ts: seq<Transaction>, now: Instant)
    ensures Revenue(wallets, ts, {}, now) == 0.0
  {
    if |ts| > 0 {
      NoBuildingsNoRevenue(wallets, ts[1..], now);
    }
  }

  predicate JoinedHeaded(units: seq<Unit>, heads: set<nat>, p: ResidentProfile) {
    p.status == Accepted && ProfileBuilding(units, p).Some? && ProfileBuilding(units, p).value in heads
  }

  /** The accepted profiles whose unit lies in one of the buildings `heads`. */
  function AcceptedProfiles(units: seq<Unit>, profiles: seq<ResidentProfile>, heads: set<nat>): (r: seq<ResidentProfile>)
    ensures forall p :: p in r <==> p in profiles && JoinedHeaded(units, heads, p)
  {
    Seqs.Filter(profiles, (p: ResidentProfile) => JoinedHeaded(units, heads, p))
  }

  /** The distinct packages linked to one of the buildings `heads`. */
  function LinkedPackages(links: seq<PackageBuilding>, heads: set<nat>): (r: set<nat>)
    ensures forall id :: id in r <==> exists l :: l in links && l.building in heads && l.package == id
  {
    set l | l in links && l.building in heads :: l.package
  }

  datatype Stats = Stats(totalBuildings: nat, totalResidents: nat, totalPackages: nat, monthlyRevenue: real, pendingMaintenance: nat)

  /** `dashboard_stats`. */
  function DashboardStats(w: World, user: nat, now: Instant): (r: Answer<Stats>)
    ensures r.Ok? || r.Forbidden?
    ensures r.Forbidden? <==> !MayView(w, user)
    // the maintenance figure is a constant
    ensures r.Ok? ==> r.value.pendingMaintenance == 0
    ensures r.Ok? ==> r.value.totalBuildings <= |w.buildings|
                      && r.value.totalResidents <= |w.profiles|
                      && r.value.totalPackages <= |w.links|
  {
    if !MayView(w, user) then Forbidden
    else
      var heads := BuildingIdsHeadedBy(w.buildings, user);
      var residents := AcceptedProfiles(w.units, w.profiles, heads);
      var packages := LinkedPackages(w.links, heads);
      assert |packages| <= |w.links| by {
        LinkedPackagesBound(w.links, heads);
      }
      Ok(Stats(|BuildingsHeadedBy(w.buildings, user)|, |residents|, |packages|,
               Revenue(w.wallets, w.transactions, heads, now), 0))
  }

  lemma {:induction false} LinkedPackagesBound(links: seq<PackageBuilding>, heads: set<nat>)
    ensures |LinkedPackages(links, heads)| <= |links|
  {
    if |links| > 0 {
      var rest := links[1..];
      LinkedPackagesBound(rest, heads);
      var extra: set<nat> := if links[0].building in heads then {links[0].package} else {};
      assert forall l :: l in links <==> l == links[0] || l in rest;
      assert LinkedPackages(links, heads) == LinkedPackages(rest, heads) + extra;
    }
  }

  /** A caller admitted by the role alone sees every figure at zero. */
  lemma RoleWithoutBuildingsSeesZeros(w: World, user: nat, now: Instant)
    requires "union_head" in Roles.UserRoles(w, user) && !HeadsABuilding(w, user)
    ensures DashboardStats(w, user, now) == Ok(Stats(0, 0, 0, 0.0, 0))
  {
    var heads := BuildingIdsHeadedBy(w.buildings, user);
    assert heads == {};
    var bs := BuildingsHeadedBy(w.buildings, user);
    Seqs.FirstIsMember(bs);
    assert |bs| == 0;
    var residents := AcceptedProfiles(w.units, w.profiles, heads);
    Seqs.FirstIsMember(residents);
    assert |residents| == 0;
    assert LinkedPackages(w.links, heads) == {};
    NoBuildingsNoRevenue(w.wallets, w.transactions, now);
  }

  /** A profile added to the table raises the resident figure by one exactly
      when it is accepted into one of the caller's buildings. */
  lemma NewProfileCountsOnceAccepted(w: World, user: nat, now: Instant, p: ResidentProfile)
    requires MayView(w, user)
    ensures var heads := BuildingIdsHeadedBy(w.buildings, user);
            DashboardStats(w.(profiles := w.profiles + [p]), user, now).value.totalResidents
            == DashboardStats(w, user, now).value.totalResidents + (if JoinedHeaded(w.units, heads, p) then 1 else 0)
  {
    var heads := BuildingIdsHeadedBy(w.buildings, user);
    AcceptedInAppend(w.units, w.profiles, p, heads);
  }

  lemma AcceptedInAppend(units: seq<Unit>, ps: seq<ResidentProfile>, p: ResidentProfile, heads: set<nat>)
    ensures |AcceptedProfiles(units, ps + [p], heads)| == |AcceptedProfiles(units, ps, heads)| + (if JoinedHeaded(units, heads, p) then 1 else 0)
  {
    var f := (q: ResidentProfile) => JoinedHeaded(units, heads, q);
    Seqs.FilterAppend(ps, [p], f);
    assert Seqs.Filter([p], f) == (if f(p) then [p] else []) + Seqs.Filter([p][1..], f);
  }

  /** The package figure counts packages, not links: linking an already
      counted package to another of the caller's buildings leaves it as it
      was. */
  lemma SecondLinkCountsNothing(w: World, user: nat, now: Instant, l: PackageBuilding, building: nat)
    requires MayView(w, user)
    requires l in w.links && l.building in BuildingIdsHeadedBy(w.buildings, user)
    requires building in BuildingIdsHeadedBy(w.buildings, user)
    ensures DashboardStats(w.(links := w.links + [PackageBuilding(l.package, building)]), user, now).value.totalPackages
            == DashboardStats(w, user, now).value.totalPackages
  {
    var heads := BuildingIdsHeadedBy(w.buildings, user);
    var links := w.links + [PackageBuilding(l.package, building)];
    assert LinkedPackages(links, heads) == LinkedPackages(w.links, heads);
  }

  // ---------------------------------------------------------------------------
  // latest_activities

  datatype Kind = Payment | NewResident | UnreadNotice | NewPackage

  /** One feed entry: its kind, the row id it names (the unread count for
      the unread entry), and its timestamp. */
  datatype Activity = Activity(kind: Kind, ref: nat, at: Instant)

  /** Newest first. */
  predicate SortedDesc(s: seq<Activity>) {
    forall i, j :: 0 <= i < j < |s| ==> !InstantBefore(s[i].at, s[j].at)
  }

  function CountKind(s: seq<Activity>, k: Kind): (r: nat)
    ensures r <= |s|
  {
    if |s| == 0 then 0 else (if s[0].kind == k then 1 else 0) + CountKind(s[1..], k)
  }

  lemma {:induction false} CountKindAppend(a: seq<Activity>, b: seq<Activity>, k: Kind)
    ensures CountKind(a + b, k) == CountKind(a, k) + CountKind(b, k)
  {
    if |a| == 0 {
      assert a + b == b;
    } else {
      assert (a + b)[1..] == a[1..] + b;
      CountKindAppend(a[1..], b, k);
    }
  }

  lemma {:induction false} CountKindNone(s: seq<Activity>, k: Kind)
    requires forall a :: a in s ==> a.kind != k
    ensures CountKind(s, k) == 0
  {
    if |s| > 0 {
      assert s[0] in s;
      assert forall a :: a in s[1..] ==> a in s;
      CountKindNone(s[1..], k);
    }
  }

  /** `x` placed ahead of the first entry that is not later than it, so
      entries with equal timestamps keep their order, as in Python's stable
      `sort(reverse=True)`. */
  function Insert(x: Activity, s: seq<Activity>): (r: seq<Activity>)
    requires SortedDesc(s)
    ensures |r| == |s| + 1
    ensures SortedDesc(r)
    ensures multiset(r) == multiset(s) + multiset{x}
    ensures forall k :: CountKind(r, k) == CountKind(s, k) + (if x.kind == k then 1 else 0)
  {
    if |s| == 0 then [x]
    else if !InstantBefore(x.at, s[0].at) then
      InsertFront(x, s);
      [x] + s
    else
      var t := Insert(x, s[1..]);
      InsertBehind(x, s, t);
      [s[0]] + t
  }

  /** Where `Insert` puts `x`: after every strictly later entry and before
      the first one that is not, with `s` otherwise in its own order; an entry
      inserted later therefore stays ahead of the equal-time entries already
      placed. */
  lemma {:induction false} InsertPlace(x: Activity, s: seq<Activity>) returns (i: nat)
    requires SortedDesc(s)
    ensures i <= |s| && Insert(x, s) == s[..i] + [x] + s[i..]
    ensures forall j :: 0 <= j < i ==> InstantBefore(x.at, s[j].at)
    ensures i < |s| ==> !InstantBefore(x.at, s[i].at)
  {
    if |s| == 0 {
      i := 0;
    } else if !InstantBefore(x.at, s[0].at) {
      i := 0;
      assert s[..0] == [] && s[0..] == s;
    } else {
      var t := s[1..];
      var i' := InsertPlace(x, t);
      i := i' + 1;
      assert Insert(x, s) == [s[0]] + Insert(x, t);
      ConsSplit(s, x, i');
      forall j | 0 <= j < i ensures InstantBefore(x.at, s[j].at) {
        if j > 0 {
          assert s[j] == t[j - 1];
        }
      }
    }
  }

  lemma ConsSplit(s: seq<Activity>, x: Activity, i: nat)
    requires 0 < |s| && i <= |s| - 1
    ensures [s[0]] + (s[1..][..i] + [x] + s[1..][i..]) == s[..i + 1] + [x] + s[i + 1..]
  {
    assert s[..i + 1] == [s[0]] + s[1..][..i];
    assert s[i + 1..] == s[1..][i..];
  }

  lemma InsertFront(x: Activity, s: seq<Activity>)
    requires SortedDesc(s) && |s| > 0 && !InstantBefore(x.at, s[0].at)
    ensures SortedDesc([x] + s)
    ensures multiset([x] + s) == multiset(s) + multiset{x}
    ensures forall k :: CountKind([x] + s, k) == CountKind(s, k) + (if x.kind == k then 1 else 0)
  {
    forall j | 0 <= j < |s| ensures !InstantBefore(x.at, s[j].at) {
      InstantOrder(x.at, s[0].at, s[j].at);
    }
    assert ([x] + s)[1..] == s;
  }

  lemma InsertBehind(x: Activity, s: seq<Activity>, t: seq<Activity>)
    requires SortedDesc(s) && |s| > 0 && InstantBefore(x.at, s[0].at)
    requires SortedDesc(t) && multiset(t) == multiset(s[1..]) + multiset{x}
    requires forall k :: CountKind(t, k) == CountKind(s[1..], k) + (if x.kind == k then 1 else 0)
    ensures SortedDesc([s[0]] + t)
    ensures multiset([s[0]] + t) == multiset(s) + multiset{x}
    ensures forall k :: CountKind([s[0]] + t, k) == CountKind(s, k) + (if x.kind == k then 1 else 0)
  {
    HeadNotBeforeRest(x, s, t);
    assert s == [s[0]] + s[1..];
    assert ([s[0]] + t)[1..] == t;
  }

  lemma HeadNotBeforeRest(x: Activity, s: seq<Activity>, t: seq<Activity>)
    requires SortedDesc(s) && |s| > 0 && InstantBefore(x.at, s[0].at)
    requires SortedDesc(t) && multiset(t) == multiset(s[1..]) + multiset{x}
    ensures SortedDesc([s[0]] + t)
  {
    forall j | 0 <= j < |t| ensures !InstantBefore(s[0].at, t[j].at) {
      assert t[j] in multiset(t);
      if t[j] == x {
        InstantOrder(x.at, s[0].at, s[0].at);
      } else {
        assert t[j] in multiset(s[1..]);
        var i :| 0 <= i < |s[1..]| && s[1..][i] == t[j];
        assert s[1 + i] == t[j];
      }
    }
  }

  /** Stable sort, newest first. */
  function SortDesc(s: seq<Activity>): (r: seq<Activity>)
    ensures |r| == |s|
    ensures SortedDesc(r)
    ensures multiset(r) == multiset(s)
    ensures forall k :: CountKind(r, k) == CountKind(s, k)
  {
    if |s| == 0 then []
    else
      assert s == [s[0]] + s[1..];
      Insert(s[0], SortDesc(s[1..]))
  }

  /** `order_by('-created_at')[:n]`, and the feed's final sort and cut: the
      `n` newest entries, none of which is older than an entry left out. */
  function Newest(s: seq<Activity>, n: nat): (r: seq<Activity>)
    ensures |r| <= n && |r| <= |s|
    ensures |s| <= n ==> |r| == |s|
    ensures SortedDesc(r)
    ensures forall a :: a in r ==> a in s
    ensures forall a, b :: a in r && b in s && InstantBefore(a.at, b.at) ==> b in r
    ensures forall k :: CountKind(r, k) <= CountKind(s, k)
  {
    var sorted := SortDesc(s);
    var r := Seqs.Take(sorted, n);
    TakeKeepsMembers(s, sorted, n);
    TakeKeepsLater(sorted, n);
    TakeCounts(sorted, n);
    r
  }

  lemma TakeKeepsMembers(s: seq<Activity>, sorted: seq<Activity>, n: nat)
    requires multiset(sorted) == multiset(s)
    ensures forall a :: a in Seqs.Take(sorted, n) ==> a in s
    ensures forall b :: b in s ==> b in sorted
  {
    var r := Seqs.Take(sorted, n);
    forall b | b in s ensures b in sorted {
      assert b in multiset(s);
    }
    forall a | a in r ensures a in s {
      assert a in sorted;
      assert a in multiset(sorted);
    }
  }

  /** Cutting a sorted sequence keeps everything later than what it keeps. */
  lemma TakeKeepsLater(sorted: seq<Activity>, n: nat)
    requires SortedDesc(sorted)
    ensures forall a, b :: a in Seqs.Take(sorted, n) && b in sorted && InstantBefore(a.at, b.at) ==> b in Seqs.Take(sorted, n)
  {
    var r := Seqs.Take(sorted, n);
    forall a, b | a in r && b in sorted && InstantBefore(a.at, b.at) ensures b in r {
      var i :| 0 <= i < |r| && r[i] == a;
      var j :| 0 <= j < |sorted| && sorted[j] == b;
      assert sorted[i] == a;
      assert j <= i;
      assert r[j] == b;
    }
  }

  lemma TakeCounts(sorted: seq<Activity>, n: nat)
    ensures forall k :: CountKind(Seqs.Take(sorted, n), k) <= CountKind(sorted, k)
  {
    var r := Seqs.Take(sorted, n);
    forall k ensures CountKind(r, k) <= CountKind(sorted, k) {
      assert sorted == r + sorted[|r|..];
      CountKindAppend(r, sorted[|r|..], k);
    }
  }

  /** A completed payment into one of the head's buildings. */
  function PaymentEntries(wallets: seq<Wallet>, ts: seq<Transaction>, heads: set<nat>): (r: seq<Activity>)
    ensures forall a :: a in r <==> exists t :: t in ts && PaidToBuilding(wallets, heads, t) && a == Activity(Payment, t.id, t.createdAt)
  {
    if |ts| == 0 then []
    else
      var n := |ts| - 1;
      var t := ts[n];
      assert ts == ts[..n] + [t];
      PaymentEntries(wallets, ts[..n], heads) + (if PaidToBuilding(wallets, heads, t) then [Activity(Payment, t.id, t.createdAt)] else [])
  }

  /** A resident accepted into one of the head's buildings, stamped with the
      profile's `created_at`. */
  function JoinEntries(units: seq<Unit>, ps: seq<ResidentProfile>, created: seq<Instant>, heads: set<nat>): (r: seq<Activity>)
    requires |created| == |ps|
    ensures forall a :: a in r <==> exists i :: 0 <= i < |ps| && JoinedHeaded(units, heads, ps[i]) && a == Activity(NewResident, ps[i].id, created[i])
  {
    if |ps| == 0 then []
    else
      var n := |ps| - 1;
      var rest := JoinEntries(units, ps[..n], created[..n], heads);
      var last := if JoinedHeaded(units, heads, ps[n]) then [Activity(NewResident, ps[n].id, created[n])] else [];
      assert forall i :: 0 <= i < n ==> ps[..n][i] == ps[i] && created[..n][i] == created[i];
      rest + last
  }

  /** The links of package `id` to one of the buildings `heads`. */
  function LinkCount(links: seq<PackageBuilding>, heads: set<nat>, id: nat): nat {
    if |links| == 0 then 0
    else (if links[0].package == id && links[0].building in heads then 1 else 0) + LinkCount(links[1..], heads, id)
  }

  lemma {:induction false} LinkCountPositive(links: seq<PackageBuilding>, heads: set<nat>, id: nat)
    ensures LinkCount(links, heads, id) > 0 <==> exists l :: l in links && l.package == id && l.building in heads
  {
    if |links| > 0 {
      LinkCountPositive(links[1..], heads, id);
      assert forall l :: l in links <==> l == links[0] || l in links[1..];
    }
  }

  /** `Package.objects.filter(packagebuilding__building__in=buildings)` as
      the code writes it: the join yields a package once per link to one of
      the buildings, since the query has no `distinct()`. */
  function PackageRowsAsWritten(ps: seq<Package>, created: seq<Instant>, links: seq<PackageBuilding>, heads: set<nat>): (r: seq<Activity>)
    requires |created| == |ps|
    ensures forall a :: a in r <==> exists i :: 0 <= i < |ps| && LinkCount(links, heads, ps[i].id) > 0 && a == Activity(NewPackage, ps[i].id, created[i])
  {
    if |ps| == 0 then []
    else
      var n := |ps| - 1;
      var rest := PackageRowsAsWritten(ps[..n], created[..n], links, heads);
      var e := Activity(NewPackage, ps[n].id, created[n]);
      var copies := seq(LinkCount(links, heads, ps[n].id), _ => e);
      assert forall a :: a in copies <==> LinkCount(links, heads, ps[n].id) > 0 && a == e by {
        if LinkCount(links, heads, ps[n].id) > 0 {
          assert copies[0] == e;
        }
      }
      assert forall i :: 0 <= i < n ==> ps[..n][i] == ps[i] && created[..n][i] == created[i];
      rest + copies
  }

  /** The same query with `distinct()`: each linked package once. */
  function PackageRows(ps: seq<Package>, created: seq<Instant>, links: seq<PackageBuilding>, heads: set<nat>): (r: seq<Activity>)
    requires |created| == |ps|
    ensures |r| <= |ps|
    ensures forall a :: a in r <==> exists i :: 0 <= i < |ps| && LinkCount(links, heads, ps[i].id) > 0 && a == Activity(NewPackage, ps[i].id, created[i])
    ensures forall j :: 0 <= j < |r| ==> exists i :: 0 <= i < |ps| && r[j] == Activity(NewPackage, ps[i].id, created[i])
  {
    if |ps| == 0 then []
    else
      var n := |ps| - 1;
      var rest := PackageRows(ps[..n], created[..n], links, heads);
      var last := if LinkCount(links, heads, ps[n].id) > 0 then [Activity(NewPackage, ps[n].id, created[n])] else [];
      assert forall i :: 0 <= i < n ==> ps[..n][i] == ps[i] && created[..n][i] == created[i];
      rest + last
  }

  /** With unique package ids, the distinct query never repeats an entry. */
  lemma {:induction false} PackageRowsDistinct(ps: seq<Package>, created: seq<Instant>, links: seq<PackageBuilding>, heads: set<nat>)
    requires |created| == |ps|
    requires Seqs.NoDuplicates(PackageIds(ps))
    ensures Seqs.NoDuplicates(PackageRows(ps, created, links, heads))
  {
    if |ps| > 0 {
      var n := |ps| - 1;
      assert PackageIds(ps[..n]) == PackageIds(ps)[..n];
      PackageRowsDistinct(ps[..n], created[..n], links, heads);
      var rest := PackageRows(ps[..n], created[..n], links, heads);
      forall j | 0 <= j < |rest| ensures rest[j].ref != ps[n].id {
        var i :| 0 <= i < n && rest[j] == Activity(NewPackage, ps[..n][i].id, created[..n][i]);
        assert PackageIds(ps)[i] == ps[i].id;
        assert PackageIds(ps)[n] == ps[n].id;
      }
    }
  }

  function UnreadOf(ns: seq<Notification>, user: nat): (r: seq<Notification>)
    ensures forall n :: n in r <==> n in ns && n.user == user && !n.isRead
  {
    Seqs.Filter(ns, (n: Notification) => n.user == user && !n.isRead)
  }

  function NotificationsOf(ns: seq<Notification>, user: nat): (r: seq<Notification>)
    ensures forall n :: n in r <==> n in ns && n.user == user
  {
    Seqs.Filter(ns, (n: Notification) => n.user == user)
  }

  /** `order_by('-created_at').first().created_at`. */
  function LatestStamp(ns: seq<Notification>): (r: Instant)
    requires |ns| > 0
    ensures exists n :: n in ns && n.createdAt == r
    ensures forall n :: n in ns ==> !InstantBefore(r, n.createdAt)
  {
    if |ns| == 1 then ns[0].createdAt
    else
      var m := LatestStamp(ns[1..]);
      assert forall n :: n in ns ==> n == ns[0] || n in ns[1..];
      if InstantBefore(m, ns[0].createdAt) then
        assert forall n :: n in ns[1..] ==> !InstantBefore(ns[0].createdAt, n.createdAt) by {
          forall n | n in ns[1..] ensures !InstantBefore(ns[0].createdAt, n.createdAt) {
            InstantOrder(m, ns[0].createdAt, n.createdAt);
          }
        }
        InstantOrder(m, ns[0].createdAt, m);
        ns[0].createdAt
      else
        m
  }

  /** The unread summary: one entry, counting the unread notifications and
      stamped with the caller's latest notification, only when there is
      something unread. */
  function UnreadEntry(ns: seq<Notification>, user: nat): (r: seq<Activity>)
    ensures |r| == if |UnreadOf(ns, user)| > 0 then 1 else 0
    ensures forall a :: a in r ==> a.kind == UnreadNotice && a.ref == |UnreadOf(ns, user)|
    ensures forall a :: a in r ==> (exists n :: n in ns && n.user == user && n.createdAt == a.at)
                                   && forall n :: n in ns && n.user == user ==> !InstantBefore(a.at, n.createdAt)
  {
    var unread := UnreadOf(ns, user);
    if |unread| == 0 then []
    else
      var mine := NotificationsOf(ns, user);
      assert unread[0] in mine;
      [Activity(UnreadNotice, |unread|, LatestStamp(mine))]
  }

  /** The entries the final sort sees: the five latest payments, the three
      latest residents, the unread summary and the three latest packages. */
  function Pool(pay: seq<Activity>, joined: seq<Activity>, unread: seq<Activity>, packs: seq<Activity>): seq<Activity> {
    Newest(pay, 5) + Newest(joined, 3) + unread + Newest(packs, 3)
  }

  /** The pool, newest first, cut to ten. */
  function Feed(pay: seq<Activity>, joined: seq<Activity>, unread: seq<Activity>, packs: seq<Activity>): (r: seq<Activity>)
    requires forall a :: a in pay ==> a.kind == Payment
    requires forall a :: a in joined ==> a.kind == NewResident
    requires forall a :: a in unread ==> a.kind == UnreadNotice
    requires forall a :: a in packs ==> a.kind == NewPackage
    ensures |r| <= 10 && SortedDesc(r)
    ensures forall a :: a in r ==> a in pay || a in joined || a in unread || a in packs
    ensures forall a, b :: a in r && b in Pool(pay, joined, unread, packs) && InstantBefore(a.at, b.at) ==> b in r
    ensures CountKind(r, Payment) <= 5 && CountKind(r, NewResident) <= 3
            && CountKind(r, NewPackage) <= 3 && CountKind(r, UnreadNotice) <= |unread|
  {
    var p5 := Newest(pay, 5);
    var j3 := Newest(joined, 3);
    var k3 := Newest(packs, 3);
    var pool := p5 + j3 + unread + k3;
    var r := Newest(pool, 10);
    assert forall a :: a in pool ==> a in p5 || a in j3 || a in unread || a in k3;
    PoolCounts(p5, j3, unread, k3);
    r
  }

  /** How many entries of each kind the pool holds. */
  lemma PoolCounts(p5: seq<Activity>, j3: seq<Activity>, unread: seq<Activity>, k3: seq<Activity>)
    requires forall a :: a in p5 ==> a.kind == Payment
    requires forall a :: a in j3 ==> a.kind == NewResident
    requires forall a :: a in unread ==> a.kind == UnreadNotice
    requires forall a :: a in k3 ==> a.kind == NewPackage
    ensures CountKind(p5 + j3 + unread + k3, Payment) == CountKind(p5, Payment)
    ensures CountKind(p5 + j3 + unread + k3, NewResident) == CountKind(j3, NewResident)
    ensures CountKind(p5 + j3 + unread + k3, UnreadNotice) == CountKind(unread, UnreadNotice)
    ensures CountKind(p5 + j3 + unread + k3, NewPackage) == CountKind(k3, NewPackage)
  {
    forall k ensures CountKind(p5 + j3 + unread + k3, k) == CountKind(p5, k) + CountKind(j3, k) + CountKind(unread, k) + CountKind(k3, k) {
      CountKindAppend(p5 + j3 + unread, k3, k);
      CountKindAppend(p5 + j3, unread, k);
      CountKindAppend(p5, j3, k);
    }
    CountKindNone(j3, Payment);
    CountKindNone(unread, Payment);
    CountKindNone(k3, Payment);
    CountKindNone(p5, NewResident);
    CountKindNone(unread, NewResident);
    CountKindNone(k3, NewResident);
    CountKindNone(p5, NewPackage);
    CountKindNone(j3, NewPackage);
    CountKindNone(unread, NewPackage);
    CountKindNone(p5, UnreadNotice);
    CountKindNone(j3, UnreadNotice);
    CountKindNone(k3, UnreadNotice);
  }

  /** `latest_activities`. */
  function LatestActivities(w: World, st: Stamps, user: nat): (r: Answer<seq<Activity>>)
    requires Fits(w, st)
    ensures r.Ok? || r.Forbidden?
    ensures r.Forbidden? <==> !MayView(w, user)
    ensures r.Ok? ==>
              var heads := BuildingIdsHeadedBy(w.buildings, user);
              && |r.value| <= 10 && SortedDesc(r.value)
              && CountKind(r.value, Payment) <= 5 && CountKind(r.value, NewResident) <= 3
              && CountKind(r.value, NewPackage) <= 3
              && CountKind(r.value, UnreadNotice) <= (if |UnreadOf(st.notifications, user)| > 0 then 1 else 0)
  {
    if !MayView(w, user) then Forbidden
    else
      var heads := BuildingIdsHeadedBy(w.buildings, user);
      Ok(Feed(PaymentEntries(w.wallets, w.transactions, heads),
              JoinEntries(w.units, w.profiles, st.profileCreated, heads),
              UnreadEntry(st.notifications, user),
              PackageRows(w.packages, st.packageCreated, w.links, heads)))
  }

  /** Every entry of the feed names a row the head may see. */
  lemma FeedEntriesAreVisible(w: World, st: Stamps, user: nat)
    requires Fits(w, st)
    ensures LatestActivities(w, st, user).Ok? ==>
            var r := LatestActivities(w, st, user).value;
            var heads := BuildingIdsHeadedBy(w.buildings, user);
            (forall a :: a in r && a.kind == Payment ==>
                  exists t :: t in w.transactions && PaidToBuilding(w.wallets, heads, t) && a == Activity(Payment, t.id, t.createdAt))
            && (forall a :: a in r && a.kind == NewResident ==>
                  exists i :: 0 <= i < |w.profiles| && JoinedHeaded(w.units, heads, w.profiles[i])
                              && a == Activity(NewResident, w.profiles[i].id, st.profileCreated[i]))
            && (forall a :: a in r && a.kind == NewPackage ==>
                  exists i :: 0 <= i < |w.packages| && LinkCount(w.links, heads, w.packages[i].id) > 0
                              && a == Activity(NewPackage, w.packages[i].id, st.packageCreated[i]))
  {
    var heads := BuildingIdsHeadedBy(w.buildings, user);
    var pay := PaymentEntries(w.wallets, w.transactions, heads);
    var joined := JoinEntries(w.units, w.profiles, st.profileCreated, heads);
    var unread := UnreadEntry(st.notifications, user);
    var packs := PackageRows(w.packages, st.packageCreated, w.links, heads);
    if LatestActivities(w, st, user).Ok? {
      assert LatestActivities(w, st, user).value == Feed(pay, joined, unread, packs);
      FeedKinds(pay, joined, unread, packs);
    }
  }

  /** Each entry of the feed comes from the candidate list of its kind. */
  lemma FeedKinds(pay: seq<Activity>, joined: seq<Activity>, unread: seq<Activity>, packs: seq<Activity>)
    requires forall a :: a in pay ==> a.kind == Payment
    requires forall a :: a in joined ==> a.kind == NewResident
    requires forall a :: a in unread ==> a.kind == UnreadNotice
    requires forall a :: a in packs ==> a.kind == NewPackage
    ensures var r := Feed(pay, joined, unread, packs);
            && (forall a :: a in r && a.kind == Payment ==> a in pay)
            && (forall a :: a in r && a.kind == NewResident ==> a in joined)
            && (forall a :: a in r && a.kind == NewPackage ==> a in packs)
  {
  }

  /** The as-written feed, with the package rows of the join. */
  function LatestActivitiesAsWritten(w: World, st: Stamps, user: nat): (r: Answer<seq<Activity>>)
    requires Fits(w, st)
    ensures r.Forbidden? <==> !MayView(w, user)
    ensures r.Ok? ==> |r.value| <= 10 && CountKind(r.value, NewPackage) <= 3
  {
    if !MayView(w, user) then Forbidden
    else
      var heads := BuildingIdsHeadedBy(w.buildings, user);
      Ok(Feed(PaymentEntries(w.wallets, w.transactions, heads),
              JoinEntries(w.units, w.profiles, st.profileCreated, heads),
              UnreadEntry(st.notifications, user),
              PackageRowsAsWritten(w.packages, st.packageCreated, w.links, heads)))
  }

  /** A head of two buildings that share the one package, with nothing else
      to report, is shown that package twice by the code as written, and
      once by the distinct query. */
  lemma SharedPackageShownTwice(w: World, st: Stamps, user: nat, b1: nat, b2: nat)
    requires Fits(w, st)
    requires |w.packages| == 1 && w.transactions == [] && w.profiles == [] && st.notifications == []
    requires b1 != b2 && b1 in BuildingIdsHeadedBy(w.buildings, user) && b2 in BuildingIdsHeadedBy(w.buildings, user)
    requires w.links == [PackageBuilding(w.packages[0].id, b1), PackageBuilding(w.packages[0].id, b2)]
    ensures var e := Activity(NewPackage, w.packages[0].id, st.packageCreated[0]);
            && LatestActivitiesAsWritten(w, st, user) == Ok([e, e])
            && LatestActivities(w, st, user) == Ok([e])
  {
    var heads := BuildingIdsHeadedBy(w.buildings, user);
    var e := Activity(NewPackage, w.packages[0].id, st.packageCreated[0]);
    assert MayView(w, user) by {
      assert HeadsABuilding(w, user);
    }
    TwoLinksTwoRows(w.packages, st.packageCreated, w.links, heads, b1, b2);
    OnlyPackagesAsWritten(w, st, user, e);
    OnlyPackages(w, st, user, e);
  }

  /** The as-written feed when one package's two rows are all there is. */
  lemma OnlyPackagesAsWritten(w: World, st: Stamps, user: nat, e: Activity)
    requires Fits(w, st) && MayView(w, user) && e.kind == NewPackage
    requires w.transactions == [] && w.profiles == [] && st.notifications == []
    requires PackageRowsAsWritten(w.packages, st.packageCreated, w.links, BuildingIdsHeadedBy(w.buildings, user)) == [e, e]
    ensures LatestActivitiesAsWritten(w, st, user) == Ok([e, e])
  {
    NothingElseToReport(w, st, user);
    PackagesOnlyFeed([e, e]);
  }

  /** The feed when one package row is all there is. */
  lemma OnlyPackages(w: World, st: Stamps, user: nat, e: Activity)
    requires Fits(w, st) && MayView(w, user) && e.kind == NewPackage
    requires w.transactions == [] && w.profiles == [] && st.notifications == []
    requires PackageRows(w.packages, st.packageCreated, w.links, BuildingIdsHeadedBy(w.buildings, user)) == [e]
    ensures LatestActivities(w, st, user) == Ok([e])
  {
    NothingElseToReport(w, st, user);
    PackagesOnlyFeed([e]);
  }

  /** Without transactions, residents or notifications only packages are left. */
  lemma NothingElseToReport(w: World, st: Stamps, user: nat)
    requires Fits(w, st)
    requires w.transactions == [] && w.profiles == [] && st.notifications == []
    ensures var heads := BuildingIdsHeadedBy(w.buildings, user);
            && PaymentEntries(w.wallets, w.transactions, heads) == []
            && JoinEntries(w.units, w.profiles, st.profileCreated, heads) == []
            && UnreadEntry(st.notifications, user) == []
  {
    assert UnreadOf(st.notifications, user) == [];
  }

  lemma TwoLinksTwoRows(ps: seq<Package>, created: seq<Instant>, links: seq<PackageBuilding>, heads: set<nat>, b1: nat, b2: nat)
    requires |ps| == 1 && |created| == 1
    requires b1 in heads && b2 in heads
    requires links == [PackageBuilding(ps[0].id, b1), PackageBuilding(ps[0].id, b2)]
    ensures var e := Activity(NewPackage, ps[0].id, created[0]);
            PackageRowsAsWritten(ps, created, links, heads) == [e, e] && PackageRows(ps, created, links, heads) == [e]
  {
    var e := Activity(NewPackage, ps[0].id, created[0]);
    assert LinkCount(links, heads, e.ref) == 2 by {
      assert links[1..] == [links[1]] && links[1..][1..] == [];
      assert LinkCount(links[1..][1..], heads, e.ref) == 0;
    }
    assert ps[..0] == [] && created[..0] == [];
    assert PackageRowsAsWritten(ps[..0], created[..0], links, heads) == [];
    assert PackageRows(ps[..0], created[..0], links, heads) == [];
    assert seq(2, _ => e) == [e, e];
  }

  /** A sequence of one repeated entry is already sorted. */
  lemma {:induction false} SortConstant(s: seq<Activity>)
    requires forall i :: 0 <= i < |s| ==> s[i] == s[0]
    ensures SortDesc(s) == s
  {
    if |s| > 0 {
      SortConstant(s[1..]);
      InstantOrder(s[0].at, s[0].at, s[0].at);
      if |s| > 1 {
        assert s[1..][0] == s[0];
      }
      assert [s[0]] + s[1..] == s;
    }
  }

  /** With nothing but at most three copies of one package entry, the feed is those copies. */
  lemma PackagesOnlyFeed(packs: seq<Activity>)
    requires 0 < |packs| <= 3 && forall i :: 0 <= i < |packs| ==> packs[i] == packs[0]
    requires packs[0].kind == NewPackage
    ensures Feed([], [], [], packs) == packs
  {
    SortConstant(packs);
    assert Newest(packs, 3) == packs;
    assert SortDesc([]) == [];
    assert [] + [] + [] + packs == packs;
  }
}
