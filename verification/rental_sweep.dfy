/** The rental-expiry sweep `check_rental_end_dates` (apps/core/tasks.py:78-120):
    every approved tenant whose rental ended before today becomes inactive
    and absent, the unit is freed, and the tenant and the building's union
    head are told.

    Each iteration writes only its own profile row and that profile's unit,
    and reads the building, which nothing in the sweep changes. The loop is
    therefore modelled as a map over the profiles table, a map over the
    units table and the concatenation of the per-tenant notices, in table
    order. */
module RentalSweep {
  import opened Wrappers
  import opened Calendar
  import opened Domain
  import Seqs

  /** The filter of apps/core/tasks.py:89-93. A missing end date never
      matches `rental_end_date__lt`. */
  predicate Expired(p: ResidentProfile, today: Date) {
    p.residentType == Tenant && p.status == Approved && p.rentalEndDate.Some? && Before(p.rentalEndDate.value, today)
  }

  /** The same tenancy: every column except the status and presence flags
      that the sweep writes. */
  predicate SameTenancy(a: ResidentProfile, b: ResidentProfile) {
    a.id == b.id && a.user == b.user && a.unit == b.unit && a.residentType == b.residentType
    && a.owner == b.owner && a.rentalEndDate == b.rentalEndDate && a.rejectedAt == b.rejectedAt
    && a.ownerNationalId == b.ownerNationalId
  }

  /** apps/core/tasks.py:98-100. */
  function Retire(p: ResidentProfile): (r: ResidentProfile)
    ensures r.status == Inactive && !r.isPresent
    ensures SameTenancy(p, r)
  {
    p.(status := Inactive, isPresent := false)
  }

  /** The unit row a profile points at, if it exists. */
  function UnitOf(units: seq<Unit>, p: ResidentProfile): Option<Unit> {
    if p.unit.None? then None else FindUnit(units, p.unit.value)
  }

  /** The union head of the tenant's building, when unit, building and head
      all exist (apps/core/tasks.py:115). */
  function HeadOf(units: seq<Unit>, buildings: seq<Building>, p: ResidentProfile): Option<nat> {
    match UnitOf(units, p)
    case None => None
    case Some(u) =>
      match FindBuilding(buildings, u.building)
      case None => None
      case Some(b) => b.unionHead
  }

  /** The two notices of one swept tenant (apps/core/tasks.py:108-120). */
  function TenantNotices(units: seq<Unit>, buildings: seq<Building>, p: ResidentProfile): (r: seq<Notice>)
    ensures |r| >= 1 && r[0] == Notice(p.user, RentalEnded)
    ensures HeadOf(units, buildings, p).None? ==> |r| == 1
    ensures HeadOf(units, buildings, p).Some? ==> r == [Notice(p.user, RentalEnded), Notice(HeadOf(units, buildings, p).value, UnitFreed)]
  {
    [Notice(p.user, RentalEnded)]
    + match HeadOf(units, buildings, p) case None => [] case Some(h) => [Notice(h, UnitFreed)]
  }

  lemma TenantNoticesEnded(units: seq<Unit>, buildings: seq<Building>, p: ResidentProfile)
    ensures EndedNotices(TenantNotices(units, buildings, p)) == [Notice(p.user, RentalEnded)]
  {
    var r := TenantNotices(units, buildings, p);
    assert EndedNotices(r) == [r[0]] + EndedNotices(r[1..]);
    if |r| == 2 {
      assert EndedNotices(r[1..]) == [] + EndedNotices(r[2..]);
    }
  }

  function ExpiredCount(ps: seq<ResidentProfile>, today: Date): nat {
    if |ps| == 0 then 0 else (if Expired(ps[0], today) then 1 else 0) + ExpiredCount(ps[1..], today)
  }

  /** How many swept tenants have a union head to tell. */
  function HeadedCount(units: seq<Unit>, buildings: seq<Building>, ps: seq<ResidentProfile>, today: Date): nat {
    if |ps| == 0 then 0
    else (if Expired(ps[0], today) && HeadOf(units, buildings, ps[0]).Some? then 1 else 0)
         + HeadedCount(units, buildings, ps[1..], today)
  }

  function EndedNotices(ns: seq<Notice>): seq<Notice> {
    Seqs.Filter(ns, (n: Notice) => n.kind == RentalEnded)
  }

  /** The notices of the whole sweep, in table order: one `RentalEnded` per
      swept tenant, plus one `UnitFreed` per swept tenant with a head. */
  function SweepNotices(units: seq<Unit>, buildings: seq<Building>, ps: seq<ResidentProfile>, today: Date): (r: seq<Notice>)
    ensures |r| == ExpiredCount(ps, today) + HeadedCount(units, buildings, ps, today)
    ensures |EndedNotices(r)| == ExpiredCount(ps, today)
    ensures forall n :: n in r && n.kind == RentalEnded ==> exists p :: p in ps && Expired(p, today) && n.recipient == p.user
    ensures forall p :: p in ps && Expired(p, today) ==> Notice(p.user, RentalEnded) in r
  {
    if |ps| == 0 then []
    else
      var head := if Expired(ps[0], today) then TenantNotices(units, buildings, ps[0]) else [];
      var tail := SweepNotices(units, buildings, ps[1..], today);
      EndedAppend(head, tail);
      TenantNoticesEnded(units, buildings, ps[0]);
      SweepStep(units, buildings, ps, today, head, tail);
      head + tail
  }

  lemma EndedAppend(a: seq<Notice>, b: seq<Notice>)
    ensures EndedNotices(a + b) == EndedNotices(a) + EndedNotices(b)
  {
    Seqs.FilterAppend(a, b, (n: Notice) => n.kind == RentalEnded);
  }

  /** The recipients of `RentalEnded` notices after adding the first tenant's notices. */
  lemma SweepStep(units: seq<Unit>, buildings: seq<Building>, ps: seq<ResidentProfile>, today: Date, head: seq<Notice>, tail: seq<Notice>)
    requires |ps| > 0
    requires head == (if Expired(ps[0], today) then TenantNotices(units, buildings, ps[0]) else [])
    requires forall n :: n in tail && n.kind == RentalEnded ==> exists p :: p in ps[1..] && Expired(p, today) && n.recipient == p.user
    requires forall p :: p in ps[1..] && Expired(p, today) ==> Notice(p.user, RentalEnded) in tail
    ensures forall n :: n in head + tail && n.kind == RentalEnded ==> exists p :: p in ps && Expired(p, today) && n.recipient == p.user
    ensures forall p :: p in ps && Expired(p, today) ==> Notice(p.user, RentalEnded) in head + tail
  {
    assert forall p :: p in ps ==> p == ps[0] || p in ps[1..];
    assert forall p :: p in ps[1..] ==> p in ps;
    assert Expired(ps[0], today) ==> head[0] == Notice(ps[0].user, RentalEnded);
  }

  /** Profiles after the sweep: each matching tenant retired, others as they
      were. */
  function RetireExpired(ps: seq<ResidentProfile>, today: Date): (r: seq<ResidentProfile>)
    ensures |r| == |ps|
    // nobody is left for the filter to match
    ensures forall i :: 0 <= i < |r| ==> !Expired(r[i], today)
    ensures forall i :: 0 <= i < |ps| && Expired(ps[i], today) ==>
              r[i].status == Inactive && !r[i].isPresent && SameTenancy(ps[i], r[i])
    ensures forall i :: 0 <= i < |ps| && !Expired(ps[i], today) ==> r[i] == ps[i]
  {
    seq(|ps|, i requires 0 <= i < |ps| => if Expired(ps[i], today) then Retire(ps[i]) else ps[i])
  }

  /** The ids of the units the sweep frees. */
  function FreedUnits(ps: seq<ResidentProfile>, today: Date): (r: set<nat>)
    ensures forall id :: id in r <==> exists p :: p in ps && Expired(p, today) && p.unit == Some(id)
  {
    set p | p in ps && Expired(p, today) && p.unit.Some? :: p.unit.value
  }

  /** The same unit row except for its status. */
  predicate SameUnitRow(a: Unit, b: Unit) {
    a.id == b.id && a.building == b.building && a.floorNumber == b.floorNumber
    && a.apartmentNumber == b.apartmentNumber && a.roomsCount == b.roomsCount
  }

  /** apps/core/tasks.py:102-105: the listed units become available, every
      other row is untouched. */
  function FreeUnits(units: seq<Unit>, ids: set<nat>): (r: seq<Unit>)
    ensures |r| == |units|
    ensures forall i :: 0 <= i < |units| && units[i].id in ids ==> r[i].status == UnitAvailable && SameUnitRow(units[i], r[i])
    ensures forall i :: 0 <= i < |units| && units[i].id !in ids ==> r[i] == units[i]
  {
    seq(|units|, i requires 0 <= i < |units| => if units[i].id in ids then units[i].(status := UnitAvailable) else units[i])
  }

  /** Freeing the same units twice frees nothing more. */
  lemma FreeUnitsIsIdempotent(units: seq<Unit>, ids: set<nat>)
    ensures FreeUnits(FreeUnits(units, ids), ids) == FreeUnits(units, ids)
  {
    var once := FreeUnits(units, ids);
    var twice := FreeUnits(once, ids);
    forall i | 0 <= i < |units|
      ensures twice[i] == once[i]
    {
      if units[i].id in ids {
        assert once[i] == units[i].(status := UnitAvailable);
      }
    }
  }

  /** The sweep. */
  function Sweep(w: World, today: Date): (r: World)
    // exactly the approved tenants whose end date is before today are retired
    ensures |r.profiles| == |w.profiles|
    ensures forall i :: 0 <= i < |w.profiles| && Expired(w.profiles[i], today) ==>
              r.profiles[i].status == Inactive && !r.profiles[i].isPresent
              && r.profiles[i].id == w.profiles[i].id && r.profiles[i].unit == w.profiles[i].unit
    ensures forall i :: 0 <= i < |w.profiles| && !Expired(w.profiles[i], today) ==> r.profiles[i] == w.profiles[i]
    // their units, and only theirs, become available
    ensures |r.units| == |w.units|
    ensures forall i :: 0 <= i < |w.units| && w.units[i].id in FreedUnits(w.profiles, today) ==>
              r.units[i].status == UnitAvailable && SameUnitRow(w.units[i], r.units[i])
    ensures forall i :: 0 <= i < |w.units| && w.units[i].id !in FreedUnits(w.profiles, today) ==>
              r.units[i] == w.units[i]
    // one notice per swept tenant and one per swept tenant with a union head
    ensures |r.notices| == |w.notices| + ExpiredCount(w.profiles, today) + HeadedCount(w.units, w.buildings, w.profiles, today)
    ensures r.notices[..|w.notices|] == w.notices
    ensures forall p :: p in w.profiles && Expired(p, today) ==> Notice(p.user, RentalEnded) in r.notices[|w.notices|..]
    // nothing else changes
    ensures r.users == w.users && r.buildings == w.buildings && r.packages == w.packages && r.links == w.links
            && r.invoices == w.invoices && r.wallets == w.wallets && r.transactions == w.transactions
            && r.maintenance == w.maintenance && r.listings == w.listings && r.resetCodes == w.resetCodes
            && r.roles == w.roles && r.userRoles == w.userRoles
  {
    var ns := SweepNotices(w.units, w.buildings, w.profiles, today);
    assert (w.notices + ns)[..|w.notices|] == w.notices;
    assert (w.notices + ns)[|w.notices|..] == ns;
    w.(profiles := RetireExpired(w.profiles, today),
       units := FreeUnits(w.units, FreedUnits(w.profiles, today)),
       notices := w.notices + ns)
  }

  lemma {:induction false} NoneExpiredCount(ps: seq<ResidentProfile>, today: Date)
    requires forall i :: 0 <= i < |ps| ==> !Expired(ps[i], today)
    ensures ExpiredCount(ps, today) == 0
  {
    if |ps| > 0 {
      NoneExpiredCount(ps[1..], today);
    }
  }

  lemma {:induction false} NoneExpiredHeaded(units: seq<Unit>, buildings: seq<Building>, ps: seq<ResidentProfile>, today: Date)
    requires forall i :: 0 <= i < |ps| ==> !Expired(ps[i], today)
    ensures HeadedCount(units, buildings, ps, today) == 0
  {
    if |ps| > 0 {
      NoneExpiredHeaded(units, buildings, ps[1..], today);
    }
  }

  /** After a sweep nobody matches the filter: a rerun on the same day
      changes nothing and notifies no one (apps/core/tasks.py:89-98). */
  lemma SweepIsIdempotent(w: World, today: Date)
    ensures Sweep(Sweep(w, today), today) == Sweep(w, today)
  {
    var s := Sweep(w, today);
    assert forall i :: 0 <= i < |s.profiles| ==> !Expired(s.profiles[i], today);
    NoneExpiredCount(s.profiles, today);
    NoneExpiredHeaded(s.units, s.buildings, s.profiles, today);
    var t := Sweep(s, today);
    assert t.profiles == s.profiles;
    assert FreedUnits(s.profiles, today) == {};
    assert t.units == s.units;
    assert t.notices == s.notices;
  }
}
