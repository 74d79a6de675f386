/** Sign-up (apps/accounts/views/auth.py:34-134): the user row and its
    roles, then, per requested role, a building with two wallets for a union
    head, a resident profile with a wallet for a resident, and a wallet for
    a technician. */
module Registration {
  import opened Wrappers
  import opened Domain
  import opened PyText
  import opened Settlement
  import Roles
  import Accounts
  import Seqs

  /** The request body, as far as the view reads it. `roles` is the `roles`
      field when sent, and `rolesLoads` what `json.loads` makes of it when it
      is text (None when that raises); `roleNames` is the `role_names` field
      when sent (in a form body, the values sent under that key, in order);
      `form` says whether the body is a form rather than JSON. */
  datatype Form = Form(
    email: string,
    fullName: string,
    phoneNumber: string,
    nationalId: string,
    password: string,
    roles: Option<PyValue>,
    rolesLoads: Option<PyValue>,
    roleNames: Option<PyValue>,
    form: bool,
    name: Option<PyValue>,
    totalUnits: Option<PyValue>,
    totalFloors: Option<PyValue>,
    unitsPerFloor: Option<PyValue>,
    province: string,
    city: string,
    district: string,
    street: string,
    subscriptionPlan: Option<string>,
    residentType: Option<string>,
    ownerNationalId: Option<string>)

  /** The names the view looks for (apps/accounts/views/auth.py:62, 101, 120). */
  const SoughtNames: seq<string> := ["union_head", "resident", "technician"]

  /** The values a form body sent under one key, as `getlist` reads them. */
  function FormValues(v: PyValue): seq<PyValue> {
    if v.PyList? then v.items else [v]
  }

  /** The strings of a list, which are what `n in items` can find. */
  function TextItems(items: seq<PyValue>): (r: seq<string>)
    ensures forall n :: n in r <==> PyStr(n) in items
  {
    if |items| == 0 then []
    else
      var rest := TextItems(items[1..]);
      assert forall x :: x in items <==> x == items[0] || x in items[1..];
      (if items[0].PyStr? then [items[0].s] else []) + rest
  }

  /** The names that occur in `text`, as `n in text` finds them. */
  function NamesIn(text: string, names: seq<string>): (r: seq<string>)
    ensures forall n :: n in r <==> n in names && Contains(text, n)
  {
    if |names| == 0 then []
    else
      var rest := NamesIn(text, names[1..]);
      assert forall n :: n in names <==> n == names[0] || n in names[1..];
      (if Contains(text, names[0]) then [names[0]] else []) + rest
  }

  /** What the serializer's `role_names` field validates to, and so the
      roles stored (apps/accounts/serializers.py:17-20, 36, 47): the
      normalised `roles` when that was sent, which the view writes over
      `role_names` (apps/accounts/views/auth.py:43-52); else the client's own
      `role_names`; else nothing. None is the 400 a JSON `role_names` that
      is not a list gets. */
  function SerializerRoleNames(f: Form): (r: Option<seq<string>>)
    ensures r.None? <==> f.roles.None? && f.roleNames.Some? && !f.form && !f.roleNames.value.PyList?
    ensures f.roles.Some? ==>
              r == Some(Roles.StoredRoleNames(Roles.NormalizeRoles(f.roles.value, f.rolesLoads), f.form))
    ensures f.roles.None? && f.roleNames.None? ==> r == Some([])
    // a list sent as `role_names` is stored item by item, stringified
    ensures f.roles.None? && f.roleNames.Some? && f.roleNames.value.PyList? ==>
              r == Some(Roles.StrAll(f.roleNames.value.items))
  {
    if f.roles.Some? then Some(Roles.StoredRoleNames(Roles.NormalizeRoles(f.roles.value, f.rolesLoads), f.form))
    else if f.roleNames.None? then Some([])
    else if f.form then Roles.StringListField(PyList(FormValues(f.roleNames.value)))
    else Roles.StringListField(f.roleNames.value)
  }

  /** The names the view's `in` tests find in `data.get('role_names', [])`
      (apps/accounts/views/auth.py:58, 62, 101, 120). After `roles` that is
      the normalised list. A JSON `role_names` is the client's list, searched
      item by item. In a form body `get` yields the last value sent under
      the key, a string, which `in` searches as text. */
  function RoleInput(f: Form): (r: seq<string>)
    ensures f.roles.Some? ==> r == Roles.NormalizeRoles(f.roles.value, f.rolesLoads)
    ensures f.roles.None? && f.roleNames.None? ==> r == []
    ensures f.roles.None? && f.roleNames.Some? && !f.form && f.roleNames.value.PyList? ==>
              forall n :: n in r <==> PyStr(n) in f.roleNames.value.items
    ensures f.roles.None? && f.roleNames.Some? && f.form ==>
              var vs := FormValues(f.roleNames.value);
              forall n :: n in r <==> n in SoughtNames && |vs| > 0 && Contains(Str(vs[|vs| - 1]), n)
  {
    if f.roles.Some? then Roles.NormalizeRoles(f.roles.value, f.rolesLoads)
    else if f.roleNames.None? then []
    else if f.form then
      var vs := FormValues(f.roleNames.value);
      if |vs| == 0 then [] else NamesIn(Str(vs[|vs| - 1]), SoughtNames)
    else if f.roleNames.value.PyList? then TextItems(f.roleNames.value.items)
    // any other JSON value is refused by validation before the view reads it
    else []
  }

  // ---------------------------------------------------------------------------
  // The user row (apps/accounts/serializers.py:24-73)

  /** `is_valid`: role names the serializer accepts, an acceptable
      password, a name, and an e-mail, phone number and national id no other
      user has. */
  predicate Valid(w: World, f: Form) {
    && SerializerRoleNames(f).Some?
    && Accounts.CleanPassword(f.password).Some?
    && Strip(f.fullName, Whitespace) != ""
    && (forall u :: u in w.users ==> u.email != f.email)
    && (forall u :: u in w.users ==> u.phoneNumber != f.phoneNumber)
    && (forall u :: u in w.users ==> u.nationalId != f.nationalId)
  }

  /** `username` is unique too, and set to the e-mail only at save time, so
      a clash there is an integrity error rather than a 400. */
  predicate UsernameTaken(w: World, f: Form) {
    exists u :: u in w.users && u.username == f.email
  }

  function NewUser(id: nat, f: Form): (u: User)
    requires Accounts.CleanPassword(f.password).Some?
    ensures u.id == id && u.email == f.email && u.username == f.email
    ensures u.fullName == Strip(f.fullName, Whitespace) && u.phoneNumber == f.phoneNumber && u.nationalId == f.nationalId
    ensures !u.isStaff && !u.isSuperuser
    ensures u.password == Accounts.CleanPassword(f.password) && Accounts.Policy(u.password.value)
  {
    User(id, f.email, f.email, Strip(f.fullName, Whitespace), f.phoneNumber, f.nationalId, false, false,
         Accounts.CleanPassword(f.password))
  }

  // ---------------------------------------------------------------------------
  // Wallets

  /** `Wallet.objects.create(owner_type=..., owner_id=..., current_balance=0)`. */
  function AddWallet(w: World, t: OwnerType, owner: nat): (r: World)
    ensures |r.wallets| == |w.wallets| + 1
    ensures r == w.(wallets := w.wallets + [r.wallets[|w.wallets|]])
    ensures var x := r.wallets[|w.wallets|];
            x.ownerType == t && x.ownerId == owner && x.currentBalance == 0.0
            && forall k :: 0 <= k < |w.wallets| ==> w.wallets[k].id != x.id
  {
    var ids := WalletIds(w.wallets);
    assert forall k :: 0 <= k < |w.wallets| ==> w.wallets[k].id == ids[k];
    w.(wallets := w.wallets + [Wallet(NextId(ids), t, owner, 0.0)])
  }

  function WalletKey(x: Wallet): (OwnerType, nat) { (x.ownerType, x.ownerId) }

  function WalletKeys(ws: seq<Wallet>): (r: seq<(OwnerType, nat)>)
    ensures |r| == |ws| && forall k :: 0 <= k < |ws| ==> r[k] == WalletKey(ws[k])
  {
    seq(|ws|, k requires 0 <= k < |ws| => WalletKey(ws[k]))
  }

  // ---------------------------------------------------------------------------
  // Union head (apps/accounts/views/auth.py:64-96)

  /** Python truthiness of `data.get(field)`. */
  predicate Truthy(v: Option<PyValue>) {
    match v
    case None => false
    case Some(PyStr(s)) => s != ""
    case Some(PyInt(i)) => i != 0
    case Some(PyBool(b)) => b
    case Some(PyNone) => false
    case Some(PyList(items)) => |items| > 0
  }

  /** What a `PositiveIntegerField` stores for the value: `int()` of it,
      which must not be negative. None is the error saving it raises. */
  function AsCount(v: PyValue): (r: Option<nat>)
    ensures v.PyInt? ==> (r.Some? <==> v.i >= 0) && (r.Some? ==> r.value == v.i)
    ensures v.PyStr? ==> (r.Some? <==> v.s != "" && AllDigits(v.s)) && (r.Some? ==> r.value == DecimalValue(v.s))
    ensures v.PyNone? || v.PyList? ==> r.None?
  {
    match v
    case PyInt(i) => if i >= 0 then Some(i) else None
    case PyStr(s) =>
      if s != "" && AllDigits(s) then
        DigitsValueNonNegative(s);
        Some(DecimalValue(s))
      else None
    case PyBool(b) => Some(if b then 1 else 0)
    case PyNone => None
    case PyList(_) => None
  }

  /** 'غير محدد' ("unspecified"). */
  const AddressPlaceholder: string := "\U{063A}\U{064A}\U{0631} \U{0645}\U{062D}\U{062F}\U{062F}"

  predicate NotEmpty(s: string) { s != "" }

  /** The address: the non-empty parts joined by spaces and stripped, or the
      placeholder when that leaves nothing. */
  function Address(province: string, city: string, district: string, street: string): (r: string)
    ensures r != ""
    ensures province == "" && city == "" && district == "" && street == "" ==> r == AddressPlaceholder
    ensures r == AddressPlaceholder || r == Strip(Join(" ", Seqs.Filter([province, city, district, street], NotEmpty)), Whitespace)
  {
    var joined := Strip(Join(" ", Seqs.Filter([province, city, district, street], NotEmpty)), Whitespace);
    if joined == "" then AddressPlaceholder else joined
  }

  /** Parts with no surrounding white space are joined with single spaces. */
  lemma AddressOfCleanParts(province: string, city: string, district: string, street: string)
    requires province != "" || city != "" || district != "" || street != ""
    requires forall p :: p in [province, city, district, street] && p != "" ==> p[0] !in Whitespace && p[|p| - 1] !in Whitespace
    ensures Address(province, city, district, street) == Join(" ", Seqs.Filter([province, city, district, street], NotEmpty))
  {
    var ps := Seqs.Filter([province, city, district, street], NotEmpty);
    assert |ps| > 0 by {
      var p :| p in [province, city, district, street] && p != "";
      assert p in ps;
    }
    assert ps[0] in ps && ps[|ps| - 1] in ps;
    JoinEnds(" ", ps);
    StripUntouched(Join(" ", ps), Whitespace);
  }

  /** What a union head's sign-up goes on with, or the status it stops at. */
  datatype Phase = Go(w: World) | Halt(status: nat, w: World)

  predicate HasBuildingFields(f: Form) {
    Truthy(f.name) && Truthy(f.totalUnits) && Truthy(f.totalFloors) && Truthy(f.unitsPerFloor)
  }

  predicate CountsConvert(f: Form) {
    && f.totalUnits.Some? && AsCount(f.totalUnits.value).Some?
    && f.totalFloors.Some? && AsCount(f.totalFloors.value).Some?
    && f.unitsPerFloor.Some? && AsCount(f.unitsPerFloor.value).Some?
  }

  /** The key the new building gets: one past every building id. */
  function NewBuildingId(w: World): (r: nat)
    ensures forall k :: 0 <= k < |w.buildings| ==> w.buildings[k].id != r
  {
    var ids := BuildingIds(w.buildings);
    assert forall k :: 0 <= k < |w.buildings| ==> w.buildings[k].id == ids[k];
    NextId(ids)
  }

  /** The building: headed by the new user, approved by default, on the
      `basic` plan unless another is sent. */
  function HeadBuilding(w: World, user: nat, f: Form): (b: Building)
    requires HasBuildingFields(f) && CountsConvert(f)
    ensures b.unionHead == Some(user) && b.approvalStatus == ApprovalApproved && b.approvedBy.None?
    ensures b.name == Str(f.name.value)
    ensures b.address == Address(f.province, f.city, f.district, f.street)
    ensures b.subscriptionPlan == (if f.subscriptionPlan.Some? then f.subscriptionPlan.value else "basic")
    ensures b.id == NewBuildingId(w)
  {
    Building(NewBuildingId(w), Some(user), Str(f.name.value), Address(f.province, f.city, f.district, f.street),
             AsCount(f.totalUnits.value).value, AsCount(f.totalFloors.value).value, AsCount(f.unitsPerFloor.value).value,
             if f.subscriptionPlan.Some? then f.subscriptionPlan.value else "basic", ApprovalApproved, None)
  }

  function ProvisionHead(w: World, user: nat, f: Form): (r: Phase)
    // a missing field stops with 400, a count that cannot be stored with 500
    ensures r.Halt? ==> r.w == w
    ensures r.Halt? <==> !HasBuildingFields(f) || !CountsConvert(f)
    ensures r.Halt? ==> (r.status == 400 <==> !HasBuildingFields(f)) && (r.status == 400 || r.status == 500)
    // otherwise one building and exactly two empty wallets, for the head and
    // for the building
    ensures r.Go? ==>
              var b := HeadBuilding(w, user, f);
              r.w.buildings == w.buildings + [b]
              && |r.w.wallets| == |w.wallets| + 2 && r.w.wallets[..|w.wallets|] == w.wallets
              && WalletKeys(r.w.wallets[|w.wallets|..]) == [(UnionHeadOwner, user), (BuildingOwner, b.id)]
              && r.w.wallets[|w.wallets|].currentBalance == 0.0 && r.w.wallets[|w.wallets| + 1].currentBalance == 0.0
              && r.w == w.(buildings := r.w.buildings, wallets := r.w.wallets)
  {
    if !HasBuildingFields(f) then Halt(400, w)
    else if !CountsConvert(f) then Halt(500, w)
    else
      var b := HeadBuilding(w, user, f);
      var w1 := w.(buildings := w.buildings + [b]);
      var w2 := AddWallet(w1, UnionHeadOwner, user);
      var w3 := AddWallet(w2, BuildingOwner, b.id);
      assert w3.wallets[..|w.wallets|] == w.wallets;
      assert w3.wallets[|w.wallets|..] == [w2.wallets[|w.wallets|], w3.wallets[|w.wallets| + 1]];
      Go(w3)
  }

  // ---------------------------------------------------------------------------
  // Resident (apps/accounts/views/auth.py:101-115)

  function ResidentTypeOf(t: Option<string>): (r: ResidentType)
    ensures t.None? || t == Some("owner") ==> r == Owner
    ensures t == Some("tenant") ==> r == Tenant
  {
    match t
    case None => Owner
    case Some(s) => if s == "owner" then Owner else if s == "tenant" then Tenant else OtherType(s)
  }

  /** The profile and its `('user', id)` wallet. The profile has no unit:
      registration records the building and flat as text only. */
  function ProvisionResident(w: World, user: nat, f: Form): (r: World)
    ensures |r.profiles| == |w.profiles| + 1 && r.profiles[..|w.profiles|] == w.profiles
    ensures var p := r.profiles[|w.profiles|];
            p.user == user && p.unit.None? && p.status == Active && p.isPresent
            && p.residentType == ResidentTypeOf(f.residentType)
            // the owner's national id is kept for tenants only
            && p.ownerNationalId == (if f.residentType == Some("tenant") then f.ownerNationalId else None)
            && forall k :: 0 <= k < |w.profiles| ==> w.profiles[k].id != p.id
    ensures |r.wallets| == |w.wallets| + 1 && r.wallets[..|w.wallets|] == w.wallets
    ensures WalletKey(r.wallets[|w.wallets|]) == (UserOwner, user) && r.wallets[|w.wallets|].currentBalance == 0.0
    ensures r == w.(profiles := r.profiles, wallets := r.wallets)
  {
    var ids := ProfileIds(w.profiles);
    assert forall k :: 0 <= k < |w.profiles| ==> w.profiles[k].id == ids[k];
    var p := NewProfile(NextId(ids), user, None, ResidentTypeOf(f.residentType))
               .(ownerNationalId := if f.residentType == Some("tenant") then f.ownerNationalId else None);
    var w1 := w.(profiles := w.profiles + [p]);
    assert w1.profiles[..|w.profiles|] == w.profiles;
    var w2 := AddWallet(w1, UserOwner, user);
    assert w2.wallets[..|w.wallets|] == w.wallets;
    w2
  }

  // ---------------------------------------------------------------------------
  // The whole view

  /** The key every new account gets: one past every user id. */
  function NewUserId(w: World): (r: nat)
    ensures forall u :: u in w.users ==> u.id != r
  {
    var ids := UserIds(w.users);
    assert forall k :: 0 <= k < |w.users| ==> w.users[k].id == ids[k];
    NextId(ids)
  }

  /** The wallets sign-up creates, in order, for the names `names`. */
  function ExpectedKeys(names: seq<string>, user: nat, building: nat): seq<(OwnerType, nat)> {
    (if "union_head" in names then [(UnionHeadOwner, user), (BuildingOwner, building)] else [])
    + MemberKeys(names, user)
  }

  /** `RegisterView.create`. The database invariants on the role tables are
      assumed of the world it starts from. */
  function Register(w: World, f: Form): (r: Reply)
    requires Roles.RolesWellFormed(w.roles, w.userRoles) && Roles.RoleKeysExist(w.roles, w.userRoles)
    ensures r.status in {201, 400, 500}
    // validation failures change nothing
    ensures !Valid(w, f) ==> r == Reply(400, w)
    ensures Valid(w, f) && UsernameTaken(w, f) ==> r == Reply(500, w)
    ensures r.status != 201 ==> r.w.buildings == w.buildings && r.w.wallets == w.wallets && r.w.profiles == w.profiles
    // past validation the user row is saved whatever happens next, with
    // a password that meets the policy
    ensures Valid(w, f) && !UsernameTaken(w, f) ==>
              |r.w.users| == |w.users| + 1 && r.w.users[..|w.users|] == w.users
              && r.w.users[|w.users|] == NewUser(NewUserId(w), f)
    // a union head without the building fields gets 400 all the same
    ensures Valid(w, f) && !UsernameTaken(w, f) && Seqs.NoDuplicates(SerializerRoleNames(f).value) ==>
              (r.status == 400 <==> "union_head" in RoleInput(f) && !HasBuildingFields(f))
    ensures r.status == 201 ==>
              var user := NewUserId(w);
              var names := RoleInput(f);
              // the stored roles are exactly the names the serializer kept
              SerializerRoleNames(f) == Some(Roles.UserRoles(r.w, user))
              // and the wallets are appended in role order, all empty
              && Stage(w.wallets, r.w.wallets, ExpectedKeys(names, user, NewBuildingId(w)))
              && (|r.w.profiles| == |w.profiles| + (if "resident" in names then 1 else 0))
  {
    if !Valid(w, f) then Reply(400, w)
    else if UsernameTaken(w, f) then Reply(500, w)
    else
      var user := NewUserId(w);
      var names := RoleInput(f);
      var w1 := w.(users := w.users + [NewUser(user, f)]);
      assert w1.users[..|w.users|] == w.users;
      match Roles.ReplaceRoles(w1, user, SerializerRoleNames(f).value)
      case Crashed(w2) => Reply(500, w2)
      case Done(w2) =>
        assert NewBuildingId(w2) == NewBuildingId(w);
        Provision(w2, user, f, names)
  }

  /** Everything after the roles are stored, for the names the view looks for
      (`RoleInput`). */
  function Provision(w: World, user: nat, f: Form, names: seq<string>): (r: Reply)
    ensures r.status in {201, 400, 500}
    ensures r.status == 400 <==> "union_head" in names && !HasBuildingFields(f)
    ensures r.status != 201 ==> r.w == w
    ensures r.w.users == w.users && r.w.roles == w.roles && r.w.userRoles == w.userRoles
    ensures r.status == 201 ==>
              Stage(w.wallets, r.w.wallets, ExpectedKeys(names, user, NewBuildingId(w)))
              && (|r.w.profiles| == |w.profiles| + (if "resident" in names then 1 else 0))
  {
    var h := if "union_head" in names then ProvisionHead(w, user, f) else Go(w);
    match h
    case Halt(s, w3) => Reply(s, w3)
    case Go(w3) =>
      var head: seq<(OwnerType, nat)> := if "union_head" in names then [(UnionHeadOwner, user), (BuildingOwner, NewBuildingId(w))] else [];
      assert Stage(w.wallets, w3.wallets, head) by {
        if "union_head" !in names {
          assert w3.wallets[|w.wallets|..] == [];
        }
      }
      var w5 := ProvisionMembers(w3, user, f, names);
      AppendStages(w.wallets, w3.wallets, w5.wallets, head, MemberKeys(names, user));
      Reply(201, w5)
  }

  function MemberKeys(names: seq<string>, user: nat): seq<(OwnerType, nat)> {
    (if "resident" in names then [(UserOwner, user)] else [])
    + (if "technician" in names then [(UserOwner, user)] else [])
  }

  /** The resident and technician parts of sign-up. */
  function ProvisionMembers(w: World, user: nat, f: Form, names: seq<string>): (r: World)
    ensures Stage(w.wallets, r.wallets, MemberKeys(names, user))
    ensures |r.profiles| == |w.profiles| + (if "resident" in names then 1 else 0)
    ensures r.users == w.users && r.roles == w.roles && r.userRoles == w.userRoles
  {
    var res: seq<(OwnerType, nat)> := if "resident" in names then [(UserOwner, user)] else [];
    var tech: seq<(OwnerType, nat)> := if "technician" in names then [(UserOwner, user)] else [];
    var w4 := if "resident" in names then ProvisionResident(w, user, f) else w;
    assert Stage(w.wallets, w4.wallets, res) by {
      if "resident" !in names {
        assert w4.wallets[|w.wallets|..] == [];
      }
    }
    var w5 := if "technician" in names then AddWallet(w4, UserOwner, user) else w4;
    assert Stage(w4.wallets, w5.wallets, tech) by {
      if "technician" in names {
        assert w5.wallets[..|w4.wallets|] == w4.wallets;
      } else {
        assert w5.wallets[|w4.wallets|..] == [];
      }
    }
    AppendStages(w.wallets, w4.wallets, w5.wallets, res, tech);
    w5
  }

  /** `b` is `a` with empty wallets keyed `keys` appended. */
  predicate Stage(a: seq<Wallet>, b: seq<Wallet>, keys: seq<(OwnerType, nat)>) {
    && |a| <= |b| && b[..|a|] == a
    && WalletKeys(b[|a|..]) == keys
    && forall k :: |a| <= k < |b| ==> b[k].currentBalance == 0.0
  }

  lemma AppendStages(a: seq<Wallet>, b: seq<Wallet>, c: seq<Wallet>, x: seq<(OwnerType, nat)>, y: seq<(OwnerType, nat)>)
    requires Stage(a, b, x) && Stage(b, c, y)
    ensures Stage(a, c, x + y)
  {
    assert c[..|a|] == a by {
      assert c[..|a|] == c[..|b|][..|a|];
    }
    assert c[|a|..] == b[|a|..] + c[|b|..] by {
      assert c[..|b|] == b;
    }
    forall k | |a| <= k < |c| ensures c[k].currentBalance == 0.0 {
      if k < |b| {
        assert c[k] == b[k];
      }
    }
  }

  // ---------------------------------------------------------------------------
  // Consequences

  /** A union head whose building fields are missing is told 400, yet the
      account and its roles stay, with no building and no wallet. */
  lemma HeadWithoutBuildingKeepsAccount(w: World, f: Form)
    requires Roles.RolesWellFormed(w.roles, w.userRoles) && Roles.RoleKeysExist(w.roles, w.userRoles)
    ensures Valid(w, f) && !UsernameTaken(w, f) && Seqs.NoDuplicates(SerializerRoleNames(f).value)
            && "union_head" in RoleInput(f) && !HasBuildingFields(f) ==>
              var r := Register(w, f);
              r.status == 400 && r.w.users == w.users + [NewUser(NewUserId(w), f)]
              && r.w.buildings == w.buildings && r.w.wallets == w.wallets
  {
    var r := Register(w, f);
    if Valid(w, f) && !UsernameTaken(w, f) && Seqs.NoDuplicates(SerializerRoleNames(f).value)
       && "union_head" in RoleInput(f) && !HasBuildingFields(f) {
      assert r.w.users == r.w.users[..|w.users|] + [r.w.users[|w.users|]];
    }
  }

  /** Signing up as both resident and technician makes two wallets keyed
      `('user', id)`, after which settling any invoice for that user halts
      on the ambiguous wallet lookup. */
  lemma ResidentTechnicianWalletsClash(w: World, f: Form, at: nat, amount: real, now: Calendar.Instant)
    requires Roles.RolesWellFormed(w.roles, w.userRoles) && Roles.RoleKeysExist(w.roles, w.userRoles)
    ensures Register(w, f).status == 201 && "resident" in RoleInput(f) && "technician" in RoleInput(f) ==>
              FindUserWallet(Register(w, f).w.wallets, NewUserId(w)).Duplicated?
    ensures Register(w, f).status == 201 && "resident" in RoleInput(f) && "technician" in RoleInput(f)
            && at < |Register(w, f).w.invoices| ==>
              Settle(Register(w, f).w, at, NewUserId(w), amount, now).Crashed?
  {
    var r := Register(w, f);
    if r.status == 201 && "resident" in RoleInput(f) && "technician" in RoleInput(f) {
      TwoUserWallets(w.wallets, r.w.wallets, RoleInput(f), NewUserId(w), NewBuildingId(w));
    }
  }

  lemma TwoUserWallets(a: seq<Wallet>, d: seq<Wallet>, names: seq<string>, user: nat, building: nat)
    requires Stage(a, d, ExpectedKeys(names, user, building))
    requires "resident" in names && "technician" in names
    ensures FindUserWallet(d, user).Duplicated?
  {
    var h := if "union_head" in names then 2 else 0;
    var n := |a|;
    var added := d[n..];
    assert WalletKeys(added)[h] == (UserOwner, user) && WalletKeys(added)[h + 1] == (UserOwner, user);
    assert IsUserWallet(d[n + h], user) && IsUserWallet(d[n + h + 1], user);
  }

  /** A technician who signs up through a form gets a wallet but not the
      role: the stored name is the list's repr. */
  lemma FormTechnicianLacksRole(w: World, f: Form)
    requires Roles.RolesWellFormed(w.roles, w.userRoles) && Roles.RoleKeysExist(w.roles, w.userRoles)
    ensures Register(w, f).status == 201 && f.form && f.roles.Some? && RoleInput(f) == ["technician"] ==>
              Roles.UserRoles(Register(w, f).w, NewUserId(w)) == ["['technician']"]
              && "technician" !in Roles.UserRoles(Register(w, f).w, NewUserId(w))
              && WalletKeys(Register(w, f).w.wallets[|w.wallets|..]) == [(UserOwner, NewUserId(w))]
  {
    var r := Register(w, f);
    if r.status == 201 && f.form && f.roles.Some? && RoleInput(f) == ["technician"] {
      TechnicianSignUp(w.wallets, r.w.wallets, Roles.UserRoles(r.w, NewUserId(w)), RoleInput(f), NewUserId(w), NewBuildingId(w));
    }
  }

  /** The technician case of `FormTechnicianLacksRole`, on the stored
      names and wallets alone. */
  lemma TechnicianSignUp(a: seq<Wallet>, d: seq<Wallet>, stored: seq<string>, names: seq<string>, user: nat, building: nat)
    requires names == ["technician"]
    requires stored == Roles.StoredRoleNames(names, true)
    requires Stage(a, d, ExpectedKeys(names, user, building))
    ensures stored == ["['technician']"] && "technician" !in stored
    ensures WalletKeys(d[|a|..]) == [(UserOwner, user)]
  {
    TechnicianRepr();
    assert "union_head" !in names && "resident" !in names;
    assert ExpectedKeys(names, user, building) == [(UserOwner, user)];
  }

  lemma TechnicianRepr()
    ensures Roles.StoredRoleNames(["technician"], true) == ["['technician']"]
  {
    var items := [PyStr("technician")];
    assert Roles.Strings(["technician"]) == items;
    assert Repr(PyStr("technician")) == "'technician'";
    assert ReprJoin(items) == "'technician'";
    assert Repr(PyList(items)) == "[" + "'technician'" + "]";
    assert "[" + "'technician'" + "]" == "['technician']";
    assert Roles.StoredRoleNames(["technician"], true) == [Repr(PyList(Roles.Strings(["technician"])))];
  }

  // ---------------------------------------------------------------------------
  // `role_names` sent by the client

  /** A JSON body that sends its names as `role_names` and no `roles` has
      them stored as sent, and the view provisions for them. */
  lemma RoleNamesAloneAreHonoured(f: Form, names: seq<string>)
    requires f.roles.None? && !f.form && f.roleNames == Some(PyList(Roles.Strings(names)))
    ensures SerializerRoleNames(f) == Some(names)
    ensures forall n :: n in RoleInput(f) <==> n in names
  {
    Roles.NormalizeNames(names, "");
    forall n ensures PyStr(n) in Roles.Strings(names) <==> n in names {
      if n in names {
        var i :| 0 <= i < |names| && names[i] == n;
        assert Roles.Strings(names)[i] == PyStr(n);
      }
    }
  }

  /** A union head named only through `role_names` gets the role, and the
      head's and the building's wallets. */
  lemma RoleNamesUnionHeadIsProvisioned(w: World, f: Form)
    requires Roles.RolesWellFormed(w.roles, w.userRoles) && Roles.RoleKeysExist(w.roles, w.userRoles)
    requires f.roles.None? && !f.form && f.roleNames == Some(PyList([PyStr("union_head")]))
    ensures Register(w, f).status == 201 ==>
              Roles.UserRoles(Register(w, f).w, NewUserId(w)) == ["union_head"]
              && WalletKeys(Register(w, f).w.wallets[|w.wallets|..])
                 == [(UnionHeadOwner, NewUserId(w)), (BuildingOwner, NewBuildingId(w))]
  {
    assert Roles.Strings(["union_head"]) == [PyStr("union_head")];
    RoleNamesAloneAreHonoured(f, ["union_head"]);
    var names := RoleInput(f);
    assert "union_head" in names && "resident" !in names && "technician" !in names;
    assert ExpectedKeys(names, NewUserId(w), NewBuildingId(w)) == [(UnionHeadOwner, NewUserId(w)), (BuildingOwner, NewBuildingId(w))];
  }

  /** A JSON `role_names` that is not a list is a 400 that changes nothing. */
  lemma NonListRoleNamesRefused(w: World, f: Form)
    requires Roles.RolesWellFormed(w.roles, w.userRoles) && Roles.RoleKeysExist(w.roles, w.userRoles)
    requires f.roles.None? && !f.form && f.roleNames.Some? && !f.roleNames.value.PyList?
    ensures Register(w, f) == Reply(400, w)
  {
  }

  /** A form body that sends `role_names` twice stores both names, but the
      view reads only the last value: `resident` then `x` stores the
      resident role and creates no profile and no wallet. */
  lemma FormRoleNamesTestLastValue(f: Form)
    requires f.roles.None? && f.form && f.roleNames == Some(PyList([PyStr("resident"), PyStr("x")]))
    ensures SerializerRoleNames(f) == Some(["resident", "x"])
    ensures RoleInput(f) == []
  {
    assert Roles.StrAll([PyStr("resident"), PyStr("x")]) == ["resident", "x"];
    assert !Contains("x", "union_head") && !Contains("x", "resident") && !Contains("x", "technician");
    assert forall n :: n !in RoleInput(f);
  }
}
