/** Maintenance requests (apps/maintenance/views.py,
    apps/maintenance/serializers.py): a resident files a request, a
    technician moves it to in-progress, completed or rejected, and
    completion is paid from the resident's wallet. */
module Maintenance {
  import opened Wrappers
  import opened Domain
  import opened Settlement
  import PyText
  import Seqs

  // ---------------------------------------------------------------------------
  // Lookups

  /** The position of the request with key `id`, if any
      (`get_object_or_404`). */
  function FindRequest(ms: seq<MaintenanceRequest>, id: nat): (r: Option<nat>)
    ensures r.Some? ==> r.value < |ms| && ms[r.value].id == id
    ensures r.None? <==> forall m :: m in ms ==> m.id != id
  {
    var k := Seqs.FirstIndex(ms, (m: MaintenanceRequest) => m.id == id);
    if k == |ms| then None else Some(k)
  }

  /** The union head of a building; `None` when it has none or the row is
      missing. */
  function HeadOfBuilding(w: World, building: nat): (r: Option<nat>)
    ensures r.Some? <==> exists b :: b in w.buildings && b.id == building && b.unionHead.Some?
                                      && FindBuilding(w.buildings, building) == Some(b)
  {
    match FindBuilding(w.buildings, building)
    case None => None
    case Some(b) => b.unionHead
  }

  /** The user of the first profile in the building
      (apps/maintenance/views.py:82-84). */
  function FirstResident(w: World, building: nat): (r: Option<nat>)
    // `.first()` orders by key: the user of the lowest profile in the building
    ensures r.Some? ==> exists i :: 0 <= i < |w.profiles| && InBuilding(w.units, w.profiles[i], building)
                                    && w.profiles[i].user == r.value
                                    && forall j :: 0 <= j < i ==> !InBuilding(w.units, w.profiles[j], building)
    ensures r.None? <==> forall p :: p in w.profiles ==> !InBuilding(w.units, p, building)
  {
    var i := Seqs.FirstIndex(w.profiles, (p: ResidentProfile) => InBuilding(w.units, p, building));
    if i == |w.profiles| then None else Some(w.profiles[i].user)
  }

  /** The first wallet keyed `('user', user)`. */
  function FirstUserWallet(ws: seq<Wallet>, user: nat): (r: Option<nat>)
    ensures r.Some? ==> r.value < |ws| && IsUserWallet(ws[r.value], user)
                        && forall k :: 0 <= k < r.value ==> !IsUserWallet(ws[k], user)
    ensures r.None? <==> forall k :: 0 <= k < |ws| ==> !IsUserWallet(ws[k], user)
  {
    var k := Seqs.FirstIndex(ws, (x: Wallet) => IsUserWallet(x, user));
    if k == |ws| then None else Some(k)
  }

  // ---------------------------------------------------------------------------
  // Filing a request (apps/maintenance/views.py:29-51, serializers.py:17-32)

  function FreshRequestId(w: World): (r: nat)
    ensures forall m :: m in w.maintenance ==> m.id < r
  {
    var id := NextId(MaintenanceIds(w.maintenance));
    assert forall m :: m in w.maintenance ==> m.id < id by {
      forall m | m in w.maintenance ensures m.id < id {
        var i :| 0 <= i < |w.maintenance| && w.maintenance[i] == m;
        assert MaintenanceIds(w.maintenance)[i] == m.id;
      }
    }
    id
  }

  /** `create_request`. Only the building and the description come from the
      body; an unknown building fails validation, and the description is
      cleaned as a `CharField`: stripped, and refused when nothing is left or
      it holds a NUL character. */
  function FileRequest(w: World, user: nat, building: Option<nat>, description: string): (r: Reply)
    ensures r.status in {201, 400, 500}
    ensures r.status == 400 <==> building.None? || FindBuilding(w.buildings, building.value).None?
                                 || PyText.Strip(description, PyText.Whitespace) == ""
                                 || '\0' in PyText.Strip(description, PyText.Whitespace)
                                 || !HasProfile(w, user)
    ensures r.status == 400 ==> r.w == w
    // the new request is pending, free, unassigned, belongs to the caller's
    // first profile and stores the stripped description
    ensures r.status != 400 ==>
              |r.w.maintenance| == |w.maintenance| + 1 && r.w.maintenance[..|w.maintenance|] == w.maintenance
              && (var m := r.w.maintenance[|w.maintenance|];
                  m.status == MPending && m.cost == 0.0 && m.technician.None?
                  && Some(m.building) == building && m.description == PyText.Strip(description, PyText.Whitespace)
                  && m.resident == ProfilesOf(w.profiles, user)[0].id
                  && (forall q :: q in w.maintenance ==> q.id < m.id))
    // a building without a union head breaks the first notice
    ensures r.status == 500 <==> r.status != 400 && HeadOfBuilding(w, building.value).None?
    ensures r.status == 201 ==>
              r.w.notices == w.notices + [Notice(HeadOfBuilding(w, building.value).value, MaintenanceFiled),
                                          Notice(user, MaintenanceConfirmed)]
    ensures r.w == w.(maintenance := r.w.maintenance, notices := r.w.notices)
  {
    var text := PyText.CleanCharField(description);
    if building.None? || FindBuilding(w.buildings, building.value).None? || text.None? then Reply(400, w)
    else
      var ps := ProfilesOf(w.profiles, user);
      if |ps| == 0 then
        assert !HasProfile(w, user);
        Reply(400, w)
      else
        assert ps[0] in ps;
        var m := MaintenanceRequest(FreshRequestId(w), building.value, ps[0].id, None, text.value, 0.0, MPending);
        var w1 := w.(maintenance := w.maintenance + [m]);
        assert w1.maintenance[..|w.maintenance|] == w.maintenance;
        match HeadOfBuilding(w, building.value)
        case None => Reply(500, w1)
        case Some(h) =>
          Reply(201, w1.(notices := w.notices + [Notice(h, MaintenanceFiled), Notice(user, MaintenanceConfirmed)]))
  }

  /** `all_requests` (apps/maintenance/views.py:144-149): the requests of
      the buildings the caller heads. */
  function AllRequests(w: World, user: nat): (r: seq<MaintenanceRequest>)
    ensures forall m :: m in r <==> m in w.maintenance && m.building in BuildingIdsHeadedBy(w.buildings, user)
  {
    Seqs.Filter(w.maintenance, (m: MaintenanceRequest) => m.building in BuildingIdsHeadedBy(w.buildings, user))
  }

  /** A request filed in a building reaches that building's union head's
      list. */
  lemma FiledRequestReachesHead(w: World, user: nat, b: Building, description: string)
    requires b in w.buildings && b.unionHead.Some? && FindBuilding(w.buildings, b.id) == Some(b)
    requires FileRequest(w, user, Some(b.id), description).status == 201
    ensures var w1 := FileRequest(w, user, Some(b.id), description).w;
            w1.maintenance[|w.maintenance|] in AllRequests(w1, b.unionHead.value)
  {
    var w1 := FileRequest(w, user, Some(b.id), description).w;
    assert b.id in BuildingIdsHeadedBy(w1.buildings, b.unionHead.value);
  }

  // ---------------------------------------------------------------------------
  // Moving a request on (apps/maintenance/views.py:64-141)

  /** The three statuses a technician may set. */
  function ParseStatus(s: Option<string>): (r: Option<MaintenanceStatus>)
    ensures r == Some(MInProgress) <==> s == Some("in_progress")
    ensures r == Some(MCompleted) <==> s == Some("completed")
    ensures r == Some(MRejected) <==> s == Some("rejected")
    ensures r != Some(MPending)
  {
    if s == Some("in_progress") then Some(MInProgress)
    else if s == Some("completed") then Some(MCompleted)
    else if s == Some("rejected") then Some(MRejected)
    else None
  }

  function KindOf(st: MaintenanceStatus): NoticeKind {
    match st
    case MInProgress => MaintenanceStarted
    case MCompleted => MaintenanceDone
    case MRejected => MaintenanceRejected
    case MPending => MaintenanceFiled
  }

  function Told(user: Option<nat>, kind: NoticeKind): (r: seq<Notice>)
    ensures user.None? ==> r == []
    ensures user.Some? ==> r == [Notice(user.value, kind)]
  {
    if user.None? then [] else [Notice(user.value, kind)]
  }

  /** The request at `k` with its status replaced. */
  function WithStatus(w: World, k: nat, st: MaintenanceStatus): (r: World)
    requires k < |w.maintenance|
    ensures r == w.(maintenance := w.maintenance[k := w.maintenance[k].(status := st)])
  {
    w.(maintenance := w.maintenance[k := w.maintenance[k].(status := st)])
  }

  /** Whether the wallet at `wallet`, if any, covers `cost`. */
  predicate Covers(w: World, wallet: Option<nat>, cost: real) {
    wallet.Some? && wallet.value < |w.wallets| && w.wallets[wallet.value].currentBalance >= cost
  }

  /** The notice to the union head, which raises when there is none. */
  function TellHead(w: World, head: Option<nat>, kind: NoticeKind): (r: Reply)
    ensures head.None? ==> r == Reply(500, w)
    ensures head.Some? ==> r == Reply(200, w.(notices := w.notices + [Notice(head.value, kind)]))
  {
    if head.None? then Reply(500, w) else Reply(200, w.(notices := w.notices + [Notice(head.value, kind)]))
  }

  /** `in_progress` (apps/maintenance/views.py:87-98): the resident, if
      any, then the union head. */
  function Start(w: World, k: nat): (r: Reply)
    requires k < |w.maintenance|
    ensures var m := w.maintenance[k];
            var head := HeadOfBuilding(w, m.building);
            var res := FirstResident(w, m.building);
            (head.None? ==> r == Reply(500, WithStatus(w, k, MInProgress).(notices := w.notices + Told(res, MaintenanceStarted))))
            && (head.Some? ==> r == Reply(200, WithStatus(w, k, MInProgress).(notices := w.notices + Told(res, MaintenanceStarted)
                                                                                         + [Notice(head.value, MaintenanceStarted)])))
  {
    var m := w.maintenance[k];
    var w1 := WithStatus(w, k, MInProgress);
    TellHead(w1.(notices := w1.notices + Told(FirstResident(w, m.building), MaintenanceStarted)),
             HeadOfBuilding(w, m.building), MaintenanceStarted)
  }

  /** `rejected` (apps/maintenance/views.py:127-139): the union head, then
      the resident, if any. */
  function Reject(w: World, k: nat): (r: Reply)
    requires k < |w.maintenance|
    ensures var m := w.maintenance[k];
            var head := HeadOfBuilding(w, m.building);
            var res := FirstResident(w, m.building);
            (head.None? ==> r == Reply(500, WithStatus(w, k, MRejected)))
            && (head.Some? ==> r == Reply(200, WithStatus(w, k, MRejected).(notices := w.notices + [Notice(head.value, MaintenanceRejected)]
                                                                                       + Told(res, MaintenanceRejected))))
  {
    var m := w.maintenance[k];
    var w1 := WithStatus(w, k, MRejected);
    match HeadOfBuilding(w, m.building)
    case None => Reply(500, w1)
    case Some(h) => Reply(200, w1.(notices := w1.notices + [Notice(h, MaintenanceRejected)] + Told(FirstResident(w, m.building), MaintenanceRejected)))
  }

  /** `completed` (apps/maintenance/views.py:100-125), given the wallet (by
      position) the lookup finds. */
  function Complete(w: World, k: nat, wallet: Option<nat>): (r: Reply)
    requires k < |w.maintenance|
    ensures r.w.maintenance == WithStatus(w, k, MCompleted).maintenance
    ensures r.w == w.(maintenance := r.w.maintenance, wallets := r.w.wallets, notices := r.w.notices)
    // a resident whose wallet covers the cost pays exactly the cost
    ensures var m := w.maintenance[k];
            FirstResident(w, m.building).Some? && Covers(w, wallet, m.cost) ==>
              |r.w.wallets| == |w.wallets|
              && r.w.wallets[wallet.value] == w.wallets[wallet.value].(currentBalance := w.wallets[wallet.value].currentBalance - m.cost)
              && (forall j :: 0 <= j < |w.wallets| && j != wallet.value ==> r.w.wallets[j] == w.wallets[j])
              && (r.status == 200 <==> HeadOfBuilding(w, m.building).Some?)
              && (r.status == 200 ==> r.w.notices == w.notices + [Notice(FirstResident(w, m.building).value, MaintenanceDone),
                                                                  Notice(HeadOfBuilding(w, m.building).value, MaintenanceDone)])
              && (r.status != 200 ==> r.status == 500)
    // otherwise the resident hears of the shortfall, and the head does not
    ensures var m := w.maintenance[k];
            FirstResident(w, m.building).Some? && !Covers(w, wallet, m.cost) ==>
              r.status == 400 && r.w.wallets == w.wallets
              && r.w.notices == w.notices + [Notice(FirstResident(w, m.building).value, MaintenanceShortfall)]
    // with nobody in the building no one pays, and the head is told
    ensures var m := w.maintenance[k];
            FirstResident(w, m.building).None? ==>
              r.w.wallets == w.wallets && r == TellHead(WithStatus(w, k, MCompleted), HeadOfBuilding(w, m.building), MaintenanceDone)
  {
    var m := w.maintenance[k];
    var w1 := WithStatus(w, k, MCompleted);
    var head := HeadOfBuilding(w, m.building);
    var res := FirstResident(w, m.building);
    if res.None? then TellHead(w1, head, MaintenanceDone)
    else if Covers(w, wallet, m.cost) then
      var i := wallet.value;
      var w2 := w1.(wallets := w1.wallets[i := w1.wallets[i].(currentBalance := w1.wallets[i].currentBalance - m.cost)],
                    notices := w1.notices + [Notice(res.value, MaintenanceDone)]);
      TellHead(w2, head, MaintenanceDone)
    else Reply(400, w1.(notices := w1.notices + [Notice(res.value, MaintenanceShortfall)]))
  }

  /** What the view does once the status is accepted: the status is saved
      first, then the branch for it runs. */
  function Apply(w: World, k: nat, st: MaintenanceStatus, wallet: Option<nat>): (r: Reply)
    requires k < |w.maintenance| && st != MPending
    ensures r.status in {200, 400, 500}
    ensures r.w.maintenance == WithStatus(w, k, st).maintenance
    ensures st != MCompleted ==> r.w.wallets == w.wallets
    // a 200 always told the union head
    ensures r.status == 200 ==> HeadOfBuilding(w, w.maintenance[k].building).Some?
                                && Notice(HeadOfBuilding(w, w.maintenance[k].building).value, KindOf(st)) in r.w.notices
  {
    if st == MInProgress then Start(w, k)
    else if st == MCompleted then Complete(w, k, wallet)
    else
      assert st == MRejected;
      Reject(w, k)
  }

  /** `update_status` as written. It looks the resident's wallet up as a
      `wallet` attribute of the user, which the User model does not have,
      so the lookup always finds nothing. */
  function UpdateStatusAsWritten(w: World, id: nat, status: Option<string>): (r: Reply)
    ensures r.status == 404 <==> FindRequest(w.maintenance, id).None?
    ensures r.status == 400 && ParseStatus(status).None? ==> r.w == w
    ensures FindRequest(w.maintenance, id).Some? && ParseStatus(status).None? ==> r == Reply(400, w)
    ensures FindRequest(w.maintenance, id).Some? && ParseStatus(status).Some? ==>
              r == Apply(w, FindRequest(w.maintenance, id).value, ParseStatus(status).value, None)
  {
    match FindRequest(w.maintenance, id)
    case None => Reply(404, w)
    case Some(k) =>
      match ParseStatus(status)
      case None => Reply(400, w)
      case Some(st) => Apply(w, k, st, None)
  }

  /** As written, completing a request in an occupied building never pays:
      the response is 400, no wallet moves, and the request stays completed,
      however much the resident holds. */
  lemma CompletionNeverPaysAsWritten(w: World, id: nat)
    requires FindRequest(w.maintenance, id).Some?
    requires FirstResident(w, w.maintenance[FindRequest(w.maintenance, id).value].building).Some?
    ensures var r := UpdateStatusAsWritten(w, id, Some("completed"));
            r.status == 400 && r.w.wallets == w.wallets
            && r.w.maintenance[FindRequest(w.maintenance, id).value].status == MCompleted
  {
  }

  /** `update_status` as intended: the resident's wallet is the first
      `('user', id)` wallet, and a shortfall leaves the request as it was,
      as the comment at apps/maintenance/views.py:119 says. */
  function UpdateStatus(w: World, id: nat, status: Option<string>): (r: Reply)
    ensures |r.w.maintenance| == |w.maintenance| && |r.w.wallets| == |w.wallets|
    ensures r.status == 404 <==> FindRequest(w.maintenance, id).None?
    ensures FindRequest(w.maintenance, id).Some? && ParseStatus(status).None? ==> r == Reply(400, w)
    ensures r.status in {200, 400, 404, 500}
    // a covering wallet pays exactly the cost, and the request is completed
    ensures FindRequest(w.maintenance, id).Some? && status == Some("completed") ==>
              var k := FindRequest(w.maintenance, id).value;
              var m := w.maintenance[k];
              var res := FirstResident(w, m.building);
              res.Some? && Covers(w, FirstUserWallet(w.wallets, res.value), m.cost) ==>
                var i := FirstUserWallet(w.wallets, res.value).value;
                r.w.maintenance[k].status == MCompleted
                && |r.w.wallets| == |w.wallets|
                && r.w.wallets[i].currentBalance == w.wallets[i].currentBalance - m.cost
                && IsUserWallet(r.w.wallets[i], res.value)
                && (forall j :: 0 <= j < |w.wallets| && j != i ==> r.w.wallets[j] == w.wallets[j])
    // a shortfall changes neither the request nor any wallet
    ensures FindRequest(w.maintenance, id).Some? && status == Some("completed") ==>
              var m := w.maintenance[FindRequest(w.maintenance, id).value];
              var res := FirstResident(w, m.building);
              res.Some? && !Covers(w, FirstUserWallet(w.wallets, res.value), m.cost) ==>
                r.status == 400 && r.w.maintenance == w.maintenance && r.w.wallets == w.wallets
                && r.w.notices == w.notices + [Notice(res.value, MaintenanceShortfall)]
  {
    match FindRequest(w.maintenance, id)
    case None => Reply(404, w)
    case Some(k) =>
      match ParseStatus(status)
      case None => Reply(400, w)
      case Some(st) =>
        var m := w.maintenance[k];
        var res := FirstResident(w, m.building);
        var wallet := if res.Some? then FirstUserWallet(w.wallets, res.value) else None;
        if st == MCompleted && res.Some? && !Covers(w, wallet, m.cost) then
          Reply(400, w.(notices := w.notices + [Notice(res.value, MaintenanceShortfall)]))
        else Apply(w, k, st, wallet)
  }

  /** With the correction, a request in an occupied building is completed
      only if the resident paid for it. */
  lemma CompletedMeansPaid(w: World, id: nat)
    requires FindRequest(w.maintenance, id).Some?
    requires w.maintenance[FindRequest(w.maintenance, id).value].status != MCompleted
    requires FirstResident(w, w.maintenance[FindRequest(w.maintenance, id).value].building).Some?
    ensures var k := FindRequest(w.maintenance, id).value;
            var m := w.maintenance[k];
            var r := UpdateStatus(w, id, Some("completed"));
            r.w.maintenance[k].status == MCompleted ==>
              var res := FirstResident(w, m.building).value;
              var i := FirstUserWallet(w.wallets, res).value;
              FirstUserWallet(w.wallets, res).Some? && i < |r.w.wallets|
              && r.w.wallets[i].currentBalance == w.wallets[i].currentBalance - m.cost
  {
  }
}
