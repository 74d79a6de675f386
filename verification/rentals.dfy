/** Rental listings (apps/rentals): an owner lists a unit, a resident asks
    to rent it, and the request is approved or rejected. A listing's request
    status runs none → requested → approved or rejected, and its status
    available → rented. */
module Rentals {
  import opened Wrappers
  import opened Domain
  import Roles
  import Seqs

  /** The states a listing can reach through the API: a tenant is recorded
      exactly while a request is pending or approved, and a listing is
      rented exactly when its request was approved. */
  predicate Consistent(l: RentalListing) {
    (l.tenant.Some? <==> l.requestStatus == Requested || l.requestStatus == RequestApproved)
    && (l.status == Rented <==> l.requestStatus == RequestApproved)
  }

  predicate AllConsistent(ls: seq<RentalListing>) {
    forall i :: 0 <= i < |ls| ==> Consistent(ls[i])
  }

  // ---------------------------------------------------------------------------
  // Creating (apps/rentals/views.py:67-68, serializers.py:65-75)

  /** The prices of a new listing. */
  datatype Prices = Prices(daily: Option<real>, monthly: Option<real>, yearly: Option<real>)

  predicate HasPrice(p: Prices) {
    p.daily.Some? || p.monthly.Some? || p.yearly.Some?
  }

  predicate ListingIdUsed(w: World, id: nat) {
    exists l :: l in w.listings && l.id == id
  }

  /** `create` with `RentalListingCreateSerializer`. `id` is the UUID the
      default draws; the unit and building must exist, at least one price
      must be given, and the caller becomes the owner. */
  function CreateListing(w: World, user: nat, id: nat, unit: Option<nat>, building: Option<nat>, prices: Prices): (r: Reply)
    ensures r.status in {201, 400, 500}
    ensures r.status == 400 <==> unit.None? || FindUnit(w.units, unit.value).None?
                                 || building.None? || FindBuilding(w.buildings, building.value).None?
                                 || !HasPrice(prices)
    ensures r.status != 201 ==> r.w == w
    // a drawn key that is already taken breaks the primary key
    ensures r.status == 500 <==> r.status != 400 && ListingIdUsed(w, id)
    ensures r.status == 201 ==> |r.w.listings| == |w.listings| + 1
    ensures r.status == 201 ==>
              r.w == w.(listings := w.listings + [r.w.listings[|w.listings|]])
              && (var l := r.w.listings[|w.listings|];
                  l.id == id && l.owner == user && Some(l.unit) == unit && Some(l.building) == building
                  && l.dailyPrice == prices.daily && l.monthlyPrice == prices.monthly && l.yearlyPrice == prices.yearly
                  && l.tenant.None? && l.requestStatus == RequestNone && l.status == ListingAvailable
                  && Consistent(l))
  {
    if unit.None? || FindUnit(w.units, unit.value).None? || building.None? || FindBuilding(w.buildings, building.value).None?
       || !HasPrice(prices) then Reply(400, w)
    else if ListingIdUsed(w, id) then Reply(500, w)
    else
      var l := RentalListing(id, user, unit.value, building.value, prices.daily, prices.monthly, prices.yearly,
                             None, RequestNone, ListingAvailable);
      Reply(201, w.(listings := w.listings + [l]))
  }

  // ---------------------------------------------------------------------------
  // Requesting (apps/rentals/views.py:79-92, serializers.py:78-88)

  /** `RentalListing.objects.get(id=..., status='available')`; keys are
      unique, so the first match is the only one. */
  function FindAvailable(ls: seq<RentalListing>, id: nat): (r: Option<nat>)
    ensures r.Some? ==> r.value < |ls| && ls[r.value].id == id && ls[r.value].status == ListingAvailable
    ensures r.Some? ==> forall j :: 0 <= j < r.value ==> !(ls[j].id == id && ls[j].status == ListingAvailable)
    ensures r.None? <==> forall l :: l in ls ==> !(l.id == id && l.status == ListingAvailable)
  {
    var k := Seqs.FirstIndex(ls, (l: RentalListing) => l.id == id && l.status == ListingAvailable);
    if k == |ls| then None else Some(k)
  }

  /** `request_rental`. `listingId` is `None` when the body's key is not a
      UUID. */
  function RequestRental(w: World, user: nat, listingId: Option<nat>): (r: Reply)
    ensures r.status == 200 || r.status == 400
    ensures r.status == 400 ==> r.w == w
    // only an available listing without a tenant can be requested
    ensures r.status == 200 <==> listingId.Some? && FindAvailable(w.listings, listingId.value).Some?
                                 && w.listings[FindAvailable(w.listings, listingId.value).value].tenant.None?
    // the caller becomes the prospective tenant; nothing else changes
    ensures r.status == 200 ==>
              var k := FindAvailable(w.listings, listingId.value).value;
              r.w == w.(listings := w.listings[k := w.listings[k].(tenant := Some(user), requestStatus := Requested)])
    ensures AllConsistent(w.listings) ==> AllConsistent(r.w.listings)
  {
    if listingId.None? then Reply(400, w)
    else
      match FindAvailable(w.listings, listingId.value)
      case None => Reply(400, w)
      case Some(k) =>
        var l := w.listings[k];
        if l.tenant.Some? then Reply(400, w)
        else Reply(200, w.(listings := w.listings[k := l.(tenant := Some(user), requestStatus := Requested)]))
  }

  // ---------------------------------------------------------------------------
  // Deciding (apps/rentals/views.py:94-116, serializers.py:91-102)

  /** `get(id=..., status='available', request_status='requested')`. */
  function FindRequested(ls: seq<RentalListing>, id: nat): (r: Option<nat>)
    ensures r.Some? ==> r.value < |ls| && ls[r.value].id == id && ls[r.value].status == ListingAvailable
                        && ls[r.value].requestStatus == Requested
    ensures r.Some? ==> forall j :: 0 <= j < r.value ==>
                          !(ls[j].id == id && ls[j].status == ListingAvailable && ls[j].requestStatus == Requested)
    ensures r.None? <==> forall l :: l in ls ==> !(l.id == id && l.status == ListingAvailable && l.requestStatus == Requested)
  {
    var k := Seqs.FirstIndex(ls, (l: RentalListing) => l.id == id && l.status == ListingAvailable && l.requestStatus == Requested);
    if k == |ls| then None else Some(k)
  }

  /** `approve_rental`: approve keeps the tenant and rents the listing;
      reject clears the tenant and leaves the listing available. */
  function DecideRental(w: World, listingId: Option<nat>, action: string): (r: Reply)
    ensures r.status == 200 || r.status == 400
    ensures r.status == 400 ==> r.w == w
    ensures r.status == 200 <==> (action == "approve" || action == "reject") && listingId.Some?
                                 && FindRequested(w.listings, listingId.value).Some?
                                 && w.listings[FindRequested(w.listings, listingId.value).value].tenant.Some?
    ensures r.status == 200 && action == "approve" ==>
              var k := FindRequested(w.listings, listingId.value).value;
              r.w == w.(listings := w.listings[k := w.listings[k].(requestStatus := RequestApproved, status := Rented)])
    ensures r.status == 200 && action == "reject" ==>
              var k := FindRequested(w.listings, listingId.value).value;
              r.w == w.(listings := w.listings[k := w.listings[k].(requestStatus := RequestRejected, tenant := None)])
    ensures AllConsistent(w.listings) ==> AllConsistent(r.w.listings)
  {
    if !(action == "approve" || action == "reject") || listingId.None? then Reply(400, w)
    else
      match FindRequested(w.listings, listingId.value)
      case None => Reply(400, w)
      case Some(k) =>
        var l := w.listings[k];
        if l.tenant.None? then Reply(400, w)
        else if action == "approve" then
          Reply(200, w.(listings := w.listings[k := l.(requestStatus := RequestApproved, status := Rented)]))
        else
          Reply(200, w.(listings := w.listings[k := l.(requestStatus := RequestRejected, tenant := None)]))
  }

  /** A requested listing that is approved ends rented to the requester. */
  lemma RequestThenApprove(w: World, user: nat, id: nat)
    requires AllConsistent(w.listings)
    requires RequestRental(w, user, Some(id)).status == 200
    ensures var w1 := RequestRental(w, user, Some(id)).w;
            var r := DecideRental(w1, Some(id), "approve");
            var k := FindAvailable(w.listings, id).value;
            r.status == 200 && r.w.listings[k].tenant == Some(user)
            && r.w.listings[k].status == Rented && r.w.listings[k].requestStatus == RequestApproved
  {
    var k := FindAvailable(w.listings, id).value;
    var w1 := RequestRental(w, user, Some(id)).w;
    assert w1.listings[k].id == id && w1.listings[k].status == ListingAvailable && w1.listings[k].requestStatus == Requested;
    // the rows before `k` are untouched, and none of them was available
    // under `id`
    assert forall i :: 0 <= i < k ==> w1.listings[i] == w.listings[i];
  }

  /** A rented listing can be neither requested nor decided again. */
  lemma RentedIsFinal(w: World, user: nat, id: nat, action: string)
    requires forall l :: l in w.listings && l.id == id ==> l.status == Rented
    ensures RequestRental(w, user, Some(id)).status == 400
    ensures DecideRental(w, Some(id), action).status == 400
  {
  }

  /** A rejected request frees the listing for the next resident. */
  lemma RejectedCanBeRequestedAgain(w: World, id: nat, other: nat)
    requires DecideRental(w, Some(id), "reject").status == 200
    requires forall i, j :: 0 <= i < j < |w.listings| ==> w.listings[i].id != w.listings[j].id
    ensures RequestRental(DecideRental(w, Some(id), "reject").w, other, Some(id)).status == 200
  {
    var k := FindRequested(w.listings, id).value;
    var w1 := DecideRental(w, Some(id), "reject").w;
    assert w1.listings[k].id == id && w1.listings[k].status == ListingAvailable && w1.listings[k].tenant.None?;
    // the decision changed only row `k`, and keys are unique
    assert forall i :: 0 <= i < |w1.listings| ==> w1.listings[i].id == w.listings[i].id;
  }

  // ---------------------------------------------------------------------------
  // Reading (apps/rentals/views.py:25-77)

  /** The roles `get_queryset` works with: the user's role rows, `resident`
      for anyone with a profile, and `union_head` for the head of a building
      that has a listing. */
  predicate HeadsAListedBuilding(w: World, user: nat) {
    exists l, b :: l in w.listings && b in w.buildings && b.id == l.building && b.unionHead == Some(user)
  }

  function ListingRoles(w: World, user: nat): (r: seq<string>)
    ensures forall n :: n in r <==> (n in Roles.UserRoles(w, user)
                                     || (n == "resident" && HasProfile(w, user))
                                     || (n == "union_head" && HeadsAListedBuilding(w, user)))
  {
    Roles.AddIfMissing(Roles.AddIfMissing(Roles.UserRoles(w, user), "resident", HasProfile(w, user)),
                       "union_head", HeadsAListedBuilding(w, user))
  }

  /** The building of the caller's first profile, through its unit. */
  function FirstBuilding(w: World, user: nat): Option<nat> {
    var ps := ProfilesOf(w.profiles, user);
    if |ps| == 0 then None else ProfileBuilding(w.units, ps[0])
  }

  /** `building__union_head=user`. */
  predicate HeadedListing(w: World, l: RentalListing, user: nat) {
    exists b :: b in w.buildings && b.id == l.building && b.unionHead == Some(user)
  }

  /** The `Q` the view builds (apps/rentals/views.py:44-59). */
  predicate Shown(w: World, roles: seq<string>, user: nat, l: RentalListing) {
    ("union_head" in roles && HeadedListing(w, l, user))
    || ("resident" in roles && FirstBuilding(w, user) == Some(l.building))
    || l.owner == user
  }

  /** `get_queryset`: staff see every listing; everyone else the listings in
      buildings they head, in their own building, and their own; newest
      first. */
  function VisibleListings(w: World, u: User): (r: seq<RentalListing>)
    ensures u.isStaff || u.isSuperuser ==> forall l :: l in r <==> l in w.listings
    ensures !(u.isStaff || u.isSuperuser) ==>
              forall l :: l in r <==> l in w.listings && Shown(w, ListingRoles(w, u.id), u.id, l)
  {
    var r := if u.isStaff || u.isSuperuser then w.listings
             else Seqs.Filter(w.listings, (l: RentalListing) => Shown(w, ListingRoles(w, u.id), u.id, l));
    ReverseKeeps(r);
    Seqs.Reverse(r)
  }

  lemma ReverseKeeps<T>(s: seq<T>)
    ensures forall x :: x in Seqs.Reverse(s) <==> x in s
  {
    var r := Seqs.Reverse(s);
    forall x | x in s ensures x in r {
      var i :| 0 <= i < |s| && s[i] == x;
      assert r[|s| - 1 - i] == x;
    }
  }

  /** The role list does not change what a non-staff caller sees: the
      implied roles are granted exactly when their clauses could match. */
  lemma RolesDoNotMatter(w: World, u: User, l: RentalListing)
    requires !(u.isStaff || u.isSuperuser)
    ensures l in VisibleListings(w, u) <==>
              (l in w.listings && (HeadedListing(w, l, u.id) || FirstBuilding(w, u.id) == Some(l.building) || l.owner == u.id))
  {
    if l in w.listings && HeadedListing(w, l, u.id) {
      var b :| b in w.buildings && b.id == l.building && b.unionHead == Some(u.id);
      assert HeadsAListedBuilding(w, u.id);
    }
    if l in w.listings && FirstBuilding(w, u.id) == Some(l.building) {
      var ps := ProfilesOf(w.profiles, u.id);
      assert ps[0] in ps;
      assert HasProfile(w, u.id);
    }
  }

  /** `my_listings` (apps/rentals/views.py:70-77): the caller's own
      listings, newest first. */
  function MyListings(w: World, user: nat): (r: seq<RentalListing>)
    ensures forall l :: l in r <==> l in w.listings && l.owner == user
  {
    var r := Seqs.Filter(w.listings, (l: RentalListing) => l.owner == user);
    ReverseKeeps(r);
    Seqs.Reverse(r)
  }

  /** A new listing appears among its creator's listings. */
  lemma CreatedListingIsMine(w: World, user: nat, id: nat, unit: Option<nat>, building: Option<nat>, prices: Prices)
    requires CreateListing(w, user, id, unit, building, prices).status == 201
    ensures var w1 := CreateListing(w, user, id, unit, building, prices).w;
            w1.listings[|w.listings|] in MyListings(w1, user)
  {
  }
}
