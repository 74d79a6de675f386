/** User roles: the `User.roles` property, the roles the API reports and
    checks (assigned names plus the two implied ones), the registration
    view's normalisation of the `roles` input, `StringListField`, the
    role-list flattening of `my_buildings`, and `UserSerializer.create`'s
    role replacement. */
module Roles {
  import opened Wrappers
  import opened Domain
  import opened PyText
  import opened Settlement
  import Seqs

  // ---------------------------------------------------------------------------
  // Assigned and effective roles

  /** The name of the role row with primary key `id`. */
  function RoleName(roles: seq<Role>, id: nat): (r: Option<string>)
    ensures r.Some? ==> exists k :: 0 <= k < |roles| && roles[k].id == id && roles[k].name == r.value
    ensures r.None? ==> forall k :: 0 <= k < |roles| ==> roles[k].id != id
  {
    if |roles| == 0 then None
    else if roles[0].id == id then Some(roles[0].name)
    else
      var r := RoleName(roles[1..], id);
      assert forall k :: 1 <= k < |roles| ==> roles[k] == roles[1..][k - 1];
      r
  }

  /** With unique primary keys, the row with key `id` names the role. */
  lemma {:induction false} RoleNameOfRow(roles: seq<Role>, k: nat)
    requires k < |roles| && Seqs.NoDuplicates(RoleIds(roles))
    ensures RoleName(roles, roles[k].id) == Some(roles[k].name)
  {
    if k > 0 {
      assert RoleIds(roles)[0] != RoleIds(roles)[k];
      assert RoleIds(roles[1..]) == RoleIds(roles)[1..];
      RoleNameOfRow(roles[1..], k - 1);
    }
  }

  /** Appending rows leaves the name of an existing key as it was. */
  lemma {:induction false} RoleNameAppend(roles: seq<Role>, more: seq<Role>, id: nat)
    requires RoleName(roles, id).Some?
    ensures RoleName(roles + more, id) == RoleName(roles, id)
  {
    if roles[0].id != id {
      assert (roles + more)[1..] == roles[1..] + more;
      RoleNameAppend(roles[1..], more, id);
    }
  }

  /** `User.roles` (apps/accounts/models.py:20-23): the names of the user's
      role rows, in row order. */
  function AssignedRoles(roles: seq<Role>, urs: seq<UserRole>, user: nat): (r: seq<string>)
    ensures forall n :: n in r <==> exists k :: 0 <= k < |urs| && urs[k].user == user && RoleName(roles, urs[k].role) == Some(n)
    ensures |r| <= |urs|
  {
    if |urs| == 0 then []
    else
      var rest := AssignedRoles(roles, urs[1..], user);
      assert forall k :: 1 <= k < |urs| ==> urs[k] == urs[1..][k - 1];
      assert forall n :: n in rest ==> exists k :: 0 <= k < |urs| && urs[k].user == user && RoleName(roles, urs[k].role) == Some(n) by {
        forall n | n in rest ensures exists k :: 0 <= k < |urs| && urs[k].user == user && RoleName(roles, urs[k].role) == Some(n) {
          var j :| 0 <= j < |urs[1..]| && urs[1..][j].user == user && RoleName(roles, urs[1..][j].role) == Some(n);
          assert urs[j + 1] == urs[1..][j];
        }
      }
      (if urs[0].user == user && RoleName(roles, urs[0].role).Some? then [RoleName(roles, urs[0].role).value] else [])
      + rest
  }

  lemma {:induction false} AssignedRolesAppend(roles: seq<Role>, a: seq<UserRole>, b: seq<UserRole>, user: nat)
    ensures AssignedRoles(roles, a + b, user) == AssignedRoles(roles, a, user) + AssignedRoles(roles, b, user)
  {
    if |a| == 0 {
      assert a + b == b;
    } else {
      assert (a + b)[1..] == a[1..] + b;
      AssignedRolesAppend(roles, a[1..], b, user);
    }
  }

  /** `User.roles` read from the world. */
  function UserRoles(w: World, user: nat): seq<string> {
    AssignedRoles(w.roles, w.userRoles, user)
  }

  /** The database's own guarantees on the role tables: primary keys,
      `Role.name` unique (apps/accounts/models.py:36) and (user, role) unique
      (apps/accounts/models.py:46-47). */
  predicate RolesWellFormed(roles: seq<Role>, urs: seq<UserRole>) {
    Seqs.NoDuplicates(RoleIds(roles))
    && (forall i, j :: 0 <= i < j < |roles| ==> roles[i].name != roles[j].name)
    && Seqs.NoDuplicates(urs)
  }

  lemma NoDuplicatesCons<T>(x: seq<T>, t: seq<T>)
    requires |x| <= 1 && Seqs.NoDuplicates(t)
    requires |x| == 1 ==> x[0] !in t
    ensures Seqs.NoDuplicates(x + t)
  {
    if |x| == 1 {
      forall i, j | 0 <= i < j < |x + t| ensures (x + t)[i] != (x + t)[j] {
        if i == 0 {
          assert (x + t)[j] == t[j - 1];
        } else {
          assert (x + t)[i] == t[i - 1] && (x + t)[j] == t[j - 1];
        }
      }
    } else {
      assert x + t == t;
    }
  }

  /** With the database's uniqueness, a user's role names never repeat. */
  lemma {:induction false} AssignedRolesUnique(roles: seq<Role>, urs: seq<UserRole>, user: nat)
    requires RolesWellFormed(roles, urs)
    ensures Seqs.NoDuplicates(AssignedRoles(roles, urs, user))
  {
    if |urs| > 0 {
      var tail := urs[1..];
      assert Seqs.NoDuplicates(tail) by {
        forall i, j | 0 <= i < j < |tail| ensures tail[i] != tail[j] {
          assert tail[i] == urs[i + 1] && tail[j] == urs[j + 1];
        }
      }
      AssignedRolesUnique(roles, tail, user);
      var rest := AssignedRoles(roles, tail, user);
      var head: seq<string> := if urs[0].user == user && RoleName(roles, urs[0].role).Some? then [RoleName(roles, urs[0].role).value] else [];
      NoDuplicatesCons(head, rest);
    }
  }

  /** `name` appended to `names` when `cond` holds and it is not there yet. */
  function AddIfMissing(names: seq<string>, name: string, cond: bool): (r: seq<string>)
    ensures forall n :: n in r <==> n in names || (cond && n == name)
    ensures |names| <= |r| <= |names| + 1 && r[..|names|] == names
    ensures Seqs.NoDuplicates(names) ==> Seqs.NoDuplicates(r)
  {
    if cond && name !in names then
      assert (names + [name])[..|names|] == names;
      names + [name]
    else names
  }

  /** The roles the API reports and checks (apps/accounts/serializers.py:75-87,
      core/permissions.py:21-31): the assigned names, then `resident` when the
      user has a resident profile, then `union_head` when the user heads a
      building, each added only when missing. */
  function EffectiveRoles(w: World, user: nat): (r: seq<string>)
    ensures forall n :: n in r <==> n in UserRoles(w, user)
                                    || (n == "resident" && HasProfile(w, user))
                                    || (n == "union_head" && HeadsABuilding(w, user))
    ensures |UserRoles(w, user)| <= |r| <= |UserRoles(w, user)| + 2
    ensures r[..|UserRoles(w, user)|] == UserRoles(w, user)
  {
    var a := UserRoles(w, user);
    var b := AddIfMissing(a, "resident", HasProfile(w, user));
    var c := AddIfMissing(b, "union_head", HeadsABuilding(w, user));
    assert c[..|a|] == c[..|b|][..|a|];
    c
  }

  /** Reported roles never repeat. */
  lemma EffectiveRolesUnique(w: World, user: nat)
    requires RolesWellFormed(w.roles, w.userRoles)
    ensures Seqs.NoDuplicates(EffectiveRoles(w, user))
  {
    AssignedRolesUnique(w.roles, w.userRoles, user);
  }

  // ---------------------------------------------------------------------------
  // Inputs

  /** `[str(r) for r in items]`. */
  function StrAll(items: seq<PyValue>): (r: seq<string>)
    ensures |r| == |items| && forall i :: 0 <= i < |items| ==> r[i] == Str(items[i])
  {
    seq(|items|, i requires 0 <= i < |items| => Str(items[i]))
  }

  /** Role names as Python strings. */
  function Strings(names: seq<string>): (r: seq<PyValue>)
    ensures |r| == |names| && forall i :: 0 <= i < |names| ==> r[i] == PyStr(names[i])
  {
    seq(|names|, i requires 0 <= i < |names| => PyStr(names[i]))
  }

  /** The registration view's reading of the `roles` field
      (apps/accounts/views/auth.py:43-52). `loads` is what `json.loads`
      returns for the text when the field is a string, `None` when it raises;
      it is ignored for any other value. */
  function NormalizeRoles(value: PyValue, loads: Option<PyValue>): (r: seq<string>)
    // undecodable text is kept whole: a comma-joined string is not split
    ensures value.PyStr? && loads.None? ==> r == [value.s]
    // a list is stringified element by element
    ensures value.PyList? ==> r == StrAll(value.items)
    ensures value.PyStr? && loads.Some? && loads.value.PyList? ==> r == StrAll(loads.value.items)
    // a single value becomes a one-element list
    ensures !value.PyStr? && !value.PyList? ==> r == [Str(value)]
    ensures value.PyStr? && loads.Some? && !loads.value.PyList? ==> r == [Str(loads.value)]
  {
    var decoded := if value.PyStr? then loads else Some(value);
    match decoded
    case None => [Str(value)]
    case Some(v) => if v.PyList? then StrAll(v.items) else [Str(v)]
  }

  /** Normalising a list of names, or the JSON text of one, gives the names
      back. */
  lemma NormalizeNames(names: seq<string>, text: string)
    ensures NormalizeRoles(PyList(Strings(names)), None) == names
    ensures NormalizeRoles(PyStr(text), Some(PyList(Strings(names)))) == names
  {
    assert StrAll(Strings(names)) == names;
  }

  /** `StringListField.to_internal_value` (apps/accounts/serializers.py:17-20):
      `None` is the `not_a_list` validation error. */
  function StringListField(data: PyValue): (r: Option<seq<string>>)
    ensures r.Some? <==> data.PyList?
    ensures r.Some? ==> r.value == StrAll(data.items)
  {
    if data.PyList? then Some(StrAll(data.items)) else None
  }

  /** What `role_names` the serializer receives, and so what names are
      stored. A JSON body passes the list through. A form body is a
      `QueryDict`: storing a list under a key nests it, `ListField` reads
      the key back with `getlist`, and `StringListField` stringifies the
      inner list whole, so the one stored name is the list's repr. */
  function StoredRoleNames(names: seq<string>, form: bool): (r: seq<string>)
    ensures !form ==> r == names
    ensures form ==> r == StringListField(PyList([PyList(Strings(names))])).value
  {
    if form then [Repr(PyList(Strings(names)))] else names
  }

  // ---------------------------------------------------------------------------
  // Flattening (apps/buildings/views.py:137-149)

  /** A role name that `repr` writes back verbatim between single quotes. */
  predicate PlainName(n: string) {
    forall i :: 0 <= i < |n| ==> n[i] != '\'' && n[i] != '\\'
  }

  /** The index of the first `'` in `s`, or `|s|`. */
  function QuoteAt(s: string): (k: nat)
    ensures k <= |s| && (k < |s| ==> s[k] == '\'')
    ensures forall i :: 0 <= i < k ==> s[i] != '\''
  {
    Seqs.FirstIndex(s, (c: char) => c == '\'')
  }

  /** The items of a non-empty list body `'a', 'b'`. */
  function ParseItems(body: string): Option<seq<string>>
    decreases |body|
  {
    if |body| == 0 || body[0] != '\'' then None
    else
      var k := 1 + QuoteAt(body[1..]);
      if k >= |body| then None
      else
        var item := body[1..k];
        var rest := body[k + 1..];
        if |rest| == 0 then Some([item])
        else if |rest| >= 2 && rest[..2] == ", " then
          match ParseItems(rest[2..])
          case None => None
          case Some(items) => Some([item] + items)
        else None
  }

  /** `ast.literal_eval` on a list of single-quoted strings, as `repr` writes
      one. Other literals are treated as parse failures. */
  function ParseStringList(s: string): Option<seq<string>> {
    if |s| < 2 || s[0] != '[' || s[|s| - 1] != ']' then None
    else if |s| == 2 then Some([])
    else ParseItems(s[1..|s| - 1])
  }

  /** The `repr` of a list of plain names parses back to the names. */
  lemma {:induction false} ParseItemsRepr(names: seq<string>)
    requires |names| >= 1 && forall i :: 0 <= i < |names| ==> PlainName(names[i])
    ensures ParseItems(ReprJoin(Strings(names))) == Some(names)
  {
    var n := names[0];
    assert Strings(names)[0] == PyStr(n);
    assert Repr(PyStr(n)) == "'" + n + "'";
    var body := ReprJoin(Strings(names));
    var rest: string := if |names| == 1 then "" else ", " + ReprJoin(Strings(names[1..]));
    assert Strings(names)[1..] == Strings(names[1..]);
    assert body == "'" + n + "'" + rest;
    assert QuoteAt(body[1..]) == |n| by {
      assert body[1..] == n + "'" + rest;
      assert forall i :: 0 <= i < |n| ==> body[1..][i] == n[i];
      assert body[1..][|n|] == '\'';
    }
    var k := 1 + |n|;
    assert body[1..k] == n;
    assert body[k + 1..] == rest;
    if |names| > 1 {
      assert rest[..2] == ", ";
      assert rest[2..] == ReprJoin(Strings(names[1..]));
      ParseItemsRepr(names[1..]);
      assert ParseItems(body) == Some([n] + names[1..]);
      assert [n] + names[1..] == names;
    } else {
      assert ParseItems(body) == Some([n]);
      assert [n] == names;
    }
  }

  lemma ParseStringListRepr(names: seq<string>)
    requires forall i :: 0 <= i < |names| ==> PlainName(names[i])
    ensures ParseStringList(Repr(PyList(Strings(names)))) == Some(names)
  {
    var s := Repr(PyList(Strings(names)));
    assert s == "[" + ReprJoin(Strings(names)) + "]";
    if |names| == 0 {
      assert s == "[]";
    } else {
      assert s[1..|s| - 1] == ReprJoin(Strings(names));
      ParseItemsRepr(names);
    }
  }

  /** The characters the fallback strips: brackets and both quotes. */
  const ListPunctuation: set<char> := {'[', ']', '\'', '"'}

  /** One role as `my_buildings` flattens it: a bracketed string is parsed as
      a list, or stripped of brackets and quotes when that fails; anything
      else is kept. */
  function FlattenRole(role: string): (r: seq<string>)
    ensures !(|role| >= 1 && role[0] == '[' && role[|role| - 1] == ']') ==> r == [role]
    ensures |role| >= 1 && role[0] == '[' && role[|role| - 1] == ']' && ParseStringList(role).None? ==>
              r == [Strip(role, ListPunctuation)]
  {
    if |role| >= 1 && role[0] == '[' && role[|role| - 1] == ']' then
      match ParseStringList(role)
      case Some(items) => items
      case None => [Strip(role, ListPunctuation)]
    else [role]
  }

  function FlattenRoles(roles: seq<string>): (r: seq<string>)
    ensures forall n :: n in roles && !(|n| >= 1 && n[0] == '[' && n[|n| - 1] == ']') ==> n in r
  {
    if |roles| == 0 then []
    else FlattenRole(roles[0]) + FlattenRoles(roles[1..])
  }

  /** A role stored as a list's repr flattens back to the list. */
  lemma FlattenStoredRoles(names: seq<string>, form: bool)
    requires forall i :: 0 <= i < |names| ==> PlainName(names[i])
    requires forall i :: 0 <= i < |names| ==> !(|names[i]| >= 1 && names[i][0] == '[' && names[i][|names[i]| - 1] == ']')
    ensures FlattenRoles(StoredRoleNames(names, form)) == names
  {
    if form {
      ParseStringListRepr(names);
      var s := Repr(PyList(Strings(names)));
      assert s == "[" + ReprJoin(Strings(names)) + "]";
      assert s[0] == '[' && s[|s| - 1] == ']';
      assert FlattenRoles([s]) == FlattenRole(s) + FlattenRoles([]);
    } else {
      FlattenPlain(names);
    }
  }

  lemma {:induction false} FlattenPlain(names: seq<string>)
    requires forall i :: 0 <= i < |names| ==> !(|names[i]| >= 1 && names[i][0] == '[' && names[i][|names[i]| - 1] == ']')
    ensures FlattenRoles(names) == names
  {
    if |names| > 0 {
      FlattenPlain(names[1..]);
      assert [names[0]] + names[1..] == names;
    }
  }

  // ---------------------------------------------------------------------------
  // Role replacement (apps/accounts/serializers.py:59-68)

  predicate HasRoleNamed(roles: seq<Role>, name: string) {
    exists k :: 0 <= k < |roles| && roles[k].name == name
  }

  /** The id of the first role row called `name`. */
  function RoleIdFor(roles: seq<Role>, name: string): (r: nat)
    requires HasRoleNamed(roles, name)
    ensures exists k :: 0 <= k < |roles| && roles[k].name == name && roles[k].id == r
  {
    var k := Seqs.FirstIndex(roles, (x: Role) => x.name == name);
    roles[k].id
  }

  /** `Role.objects.get_or_create(name=...)` for each name in turn. */
  function EnsureRoles(roles: seq<Role>, names: seq<string>): (r: seq<Role>)
    requires RolesWellFormed(roles, [])
    ensures RolesWellFormed(r, [])
    ensures |roles| <= |r| && r[..|roles|] == roles
    ensures forall i :: 0 <= i < |names| ==> HasRoleNamed(r, names[i])
    decreases |names|
  {
    if |names| == 0 then roles
    else
      var n := names[0];
      var next := AddRole(roles, n);
      var r := EnsureRoles(next, names[1..]);
      assert r[..|roles|] == r[..|next|][..|roles|];
      assert HasRoleNamed(r, n) by {
        var k :| 0 <= k < |next| && next[k].name == n;
        assert r[k] == r[..|next|][k];
      }
      assert forall i :: 1 <= i < |names| ==> names[i] == names[1..][i - 1];
      r
  }

  /** One `get_or_create`: the role row is appended only when missing. */
  function AddRole(roles: seq<Role>, n: string): (r: seq<Role>)
    requires RolesWellFormed(roles, [])
    ensures RolesWellFormed(r, [])
    ensures |roles| <= |r| && r[..|roles|] == roles
    ensures HasRoleNamed(r, n)
  {
    if HasRoleNamed(roles, n) then roles
    else
      var id := NextId(RoleIds(roles));
      var r := roles + [Role(id, n)];
      assert RoleIds(r) == RoleIds(roles) + [id];
      assert r[|roles|] == Role(id, n);
      assert r[..|roles|] == roles;
      r
  }

  /** One `(user, role)` row per id. */
  function RowsFor(user: nat, ids: seq<nat>): (r: seq<UserRole>)
    ensures |r| == |ids| && forall i :: 0 <= i < |ids| ==> r[i] == UserRole(user, ids[i])
  {
    seq(|ids|, i requires 0 <= i < |ids| => UserRole(user, ids[i]))
  }

  /** The rows after `userrole_set.create` for each id in turn, and whether
      every create succeeded. */
  datatype Created = Created(urs: seq<UserRole>, ok: bool)

  /** Creating a pair that already exists raises, keeping the rows made so
      far. */
  function CreateUserRoles(urs: seq<UserRole>, user: nat, ids: seq<nat>): (r: Created)
    ensures |urs| <= |r.urs| && r.urs[..|urs|] == urs
    ensures forall k :: |urs| <= k < |r.urs| ==> r.urs[k].user == user
    ensures r.ok <==> Seqs.NoDuplicates(ids) && forall i :: 0 <= i < |ids| ==> UserRole(user, ids[i]) !in urs
    ensures r.ok ==> r.urs == urs + RowsFor(user, ids)
    ensures Seqs.NoDuplicates(urs) ==> Seqs.NoDuplicates(r.urs)
    decreases |ids|
  {
    if |ids| == 0 then Created(urs, true)
    else if UserRole(user, ids[0]) in urs then Created(urs, false)
    else
      var row := UserRole(user, ids[0]);
      var next := urs + [row];
      var r := CreateUserRoles(next, user, ids[1..]);
      CreateStep(urs, user, ids, r);
      r
  }

  /** The inductive step of `CreateUserRoles`, on its own to keep it small. */
  lemma CreateStep(urs: seq<UserRole>, user: nat, ids: seq<nat>, r: Created)
    requires |ids| >= 1 && UserRole(user, ids[0]) !in urs
    requires var next := urs + [UserRole(user, ids[0])];
             && |next| <= |r.urs| && r.urs[..|next|] == next
             && (forall k :: |next| <= k < |r.urs| ==> r.urs[k].user == user)
             && (r.ok <==> Seqs.NoDuplicates(ids[1..]) && forall i :: 0 <= i < |ids[1..]| ==> UserRole(user, ids[1..][i]) !in next)
             && (r.ok ==> r.urs == next + RowsFor(user, ids[1..]))
             && (Seqs.NoDuplicates(next) ==> Seqs.NoDuplicates(r.urs))
    ensures |urs| <= |r.urs| && r.urs[..|urs|] == urs
    ensures forall k :: |urs| <= k < |r.urs| ==> r.urs[k].user == user
    ensures r.ok <==> Seqs.NoDuplicates(ids) && forall i :: 0 <= i < |ids| ==> UserRole(user, ids[i]) !in urs
    ensures r.ok ==> r.urs == urs + RowsFor(user, ids)
    ensures Seqs.NoDuplicates(urs) ==> Seqs.NoDuplicates(r.urs)
  {
    var row := UserRole(user, ids[0]);
    CreatePrefix(urs, row, r.urs);
    CreateFresh(urs, user, ids);
    RowsForCons(urs, user, ids);
    if Seqs.NoDuplicates(urs) {
      NoDuplicatesSnoc(urs, row);
    }
  }

  lemma RowsForCons(urs: seq<UserRole>, user: nat, ids: seq<nat>)
    requires |ids| >= 1
    ensures urs + [UserRole(user, ids[0])] + RowsFor(user, ids[1..]) == urs + RowsFor(user, ids)
  {
    assert RowsFor(user, ids) == [UserRole(user, ids[0])] + RowsFor(user, ids[1..]);
  }

  /** Rows appended after `urs + [row]` are rows appended after `urs`. */
  lemma CreatePrefix(urs: seq<UserRole>, row: UserRole, out: seq<UserRole>)
    requires |urs + [row]| <= |out| && out[..|urs + [row]|] == urs + [row]
    requires forall k :: |urs + [row]| <= k < |out| ==> out[k].user == row.user
    ensures |urs| <= |out| && out[..|urs|] == urs
    ensures forall k :: |urs| <= k < |out| ==> out[k].user == row.user
  {
    var next := urs + [row];
    assert out[..|urs|] == out[..|next|][..|urs|];
    assert out[|urs|] == out[..|next|][|urs|] == row;
  }

  /** Every create of `ids` succeeds from `urs` exactly when the first does
      and the rest succeed once its row exists. */
  lemma CreateFresh(urs: seq<UserRole>, user: nat, ids: seq<nat>)
    requires |ids| >= 1 && UserRole(user, ids[0]) !in urs
    ensures (Seqs.NoDuplicates(ids[1..]) && forall i :: 0 <= i < |ids[1..]| ==> UserRole(user, ids[1..][i]) !in urs + [UserRole(user, ids[0])])
            <==> (Seqs.NoDuplicates(ids) && forall i :: 0 <= i < |ids| ==> UserRole(user, ids[i]) !in urs)
  {
    NoDuplicatesUncons(ids);
    assert forall i :: 1 <= i < |ids| ==> ids[i] == ids[1..][i - 1];
    assert forall i :: 0 <= i < |ids[1..]| ==> ids[1..][i] == ids[i + 1];
  }

  lemma NoDuplicatesUncons<T>(s: seq<T>)
    requires |s| >= 1
    ensures Seqs.NoDuplicates(s) <==> Seqs.NoDuplicates(s[1..]) && s[0] !in s[1..]
  {
    if Seqs.NoDuplicates(s[1..]) && s[0] !in s[1..] {
      forall i, j | 0 <= i < j < |s| ensures s[i] != s[j] {
        assert s[j] == s[1..][j - 1];
        if i > 0 {
          assert s[i] == s[1..][i - 1];
        }
      }
    }
    if Seqs.NoDuplicates(s) {
      forall i, j | 0 <= i < j < |s[1..]| ensures s[1..][i] != s[1..][j] {
        assert s[1..][i] == s[i + 1] && s[1..][j] == s[j + 1];
      }
    }
  }

  lemma NoDuplicatesSnoc<T>(s: seq<T>, x: T)
    requires Seqs.NoDuplicates(s) && x !in s
    ensures Seqs.NoDuplicates(s + [x])
  {
    forall i, j | 0 <= i < j < |s + [x]| ensures (s + [x])[i] != (s + [x])[j] {
      if j == |s| {
        assert (s + [x])[i] == s[i];
      } else {
        assert (s + [x])[i] == s[i] && (s + [x])[j] == s[j];
      }
    }
  }

  /** The role ids `names` resolve to. */
  function IdsFor(roles: seq<Role>, names: seq<string>): (r: seq<nat>)
    requires forall i :: 0 <= i < |names| ==> HasRoleNamed(roles, names[i])
    ensures |r| == |names|
    ensures forall i :: 0 <= i < |names| ==> r[i] == RoleIdFor(roles, names[i])
  {
    seq(|names|, i requires 0 <= i < |names| => RoleIdFor(roles, names[i]))
  }

  /** With unique keys and names, distinct names resolve to distinct ids,
      and each id names its role. */
  lemma IdsForFacts(roles: seq<Role>, names: seq<string>)
    requires RolesWellFormed(roles, [])
    requires forall i :: 0 <= i < |names| ==> HasRoleNamed(roles, names[i])
    ensures Seqs.NoDuplicates(IdsFor(roles, names)) <==> Seqs.NoDuplicates(names)
    ensures forall i :: 0 <= i < |names| ==> RoleName(roles, IdsFor(roles, names)[i]) == Some(names[i])
  {
    var ids := IdsFor(roles, names);
    forall i | 0 <= i < |names| ensures RoleName(roles, ids[i]) == Some(names[i]) {
      var k :| 0 <= k < |roles| && roles[k].name == names[i] && roles[k].id == ids[i];
      RoleNameOfRow(roles, k);
    }
  }

  /** A user's names as the rows `RowsFor` makes them. */
  lemma {:induction false} AssignedRowsFor(roles: seq<Role>, user: nat, ids: seq<nat>, names: seq<string>)
    requires |ids| == |names|
    requires forall i :: 0 <= i < |ids| ==> RoleName(roles, ids[i]) == Some(names[i])
    ensures AssignedRoles(roles, RowsFor(user, ids), user) == names
  {
    if |ids| > 0 {
      var rows := RowsFor(user, ids);
      assert rows[1..] == RowsFor(user, ids[1..]);
      AssignedRowsFor(roles, user, ids[1..], names[1..]);
      assert rows[0] == UserRole(user, ids[0]) && RoleName(roles, ids[0]) == Some(names[0]);
      Seqs.Uncons(names);
    }
  }

  /** Every row points at an existing role: the foreign key. */
  predicate RoleKeysExist(roles: seq<Role>, urs: seq<UserRole>) {
    forall k :: 0 <= k < |urs| ==> RoleName(roles, urs[k].role).Some?
  }

  /** `user.userrole_set.all().delete()`: the rows of everyone else. */
  function DropUser(urs: seq<UserRole>, user: nat): (r: seq<UserRole>)
    ensures forall k :: 0 <= k < |r| ==> r[k].user != user
    ensures forall x :: x in r <==> x in urs && x.user != user
  {
    if |urs| == 0 then []
    else (if urs[0].user != user then [urs[0]] else []) + DropUser(urs[1..], user)
  }

  lemma {:induction false} DropUserNoDuplicates(urs: seq<UserRole>, user: nat)
    requires Seqs.NoDuplicates(urs)
    ensures Seqs.NoDuplicates(DropUser(urs, user))
  {
    if |urs| > 0 {
      NoDuplicatesUncons(urs);
      DropUserNoDuplicates(urs[1..], user);
      var head: seq<UserRole> := if urs[0].user != user then [urs[0]] else [];
      NoDuplicatesCons(head, DropUser(urs[1..], user));
    }
  }

  /** Dropping `user`'s rows and adding roles after the existing ones leaves
      other users' names alone. */
  lemma {:induction false} OthersUnchanged(roles: seq<Role>, more: seq<Role>, urs: seq<UserRole>, user: nat, u: nat)
    requires u != user && RoleKeysExist(roles, urs)
    ensures AssignedRoles(roles + more, DropUser(urs, user), u) == AssignedRoles(roles, urs, u)
  {
    if |urs| > 0 {
      var x := urs[0];
      assert RoleKeysExist(roles, urs[1..]) by {
        forall k | 0 <= k < |urs[1..]| ensures RoleName(roles, urs[1..][k].role).Some? {
          assert urs[1..][k] == urs[k + 1];
        }
      }
      OthersUnchanged(roles, more, urs[1..], user, u);
      var rest := DropUser(urs[1..], user);
      if x.user != user {
        assert DropUser(urs, user) == [x] + rest;
        assert ([x] + rest)[1..] == rest;
        assert RoleName(roles, x.role).Some?;
        RoleNameAppend(roles, more, x.role);
      } else {
        assert DropUser(urs, user) == rest;
      }
    }
  }

  /** Replacing the roles: delete the user's rows, then create one per name. */
  function ReplaceRoles(w: World, user: nat, names: seq<string>): (r: Outcome)
    requires RolesWellFormed(w.roles, w.userRoles) && RoleKeysExist(w.roles, w.userRoles)
    // succeeds exactly when no name repeats
    ensures r.Done? <==> Seqs.NoDuplicates(names)
    // afterwards the user has exactly the given names, in order
    ensures r.Done? ==> UserRoles(r.w, user) == names && RolesWellFormed(r.w.roles, r.w.userRoles)
    // existing roles keep their ids and names, and every other user keeps theirs
    ensures |w.roles| <= |r.w.roles| && r.w.roles[..|w.roles|] == w.roles
    ensures forall u :: u != user ==> UserRoles(r.w, u) == UserRoles(w, u)
    ensures r.w.users == w.users && r.w.profiles == w.profiles && r.w.buildings == w.buildings
            && r.w.wallets == w.wallets && r.w.notices == w.notices
  {
    assert RolesWellFormed(w.roles, []);
    var roles := EnsureRoles(w.roles, names);
    var ids := IdsFor(roles, names);
    var kept := DropUser(w.userRoles, user);
    var c := CreateUserRoles(kept, user, ids);
    ReplaceFacts(w, user, names, roles, ids, kept, c);
    var w1 := w.(roles := roles, userRoles := c.urs);
    if c.ok then Done(w1) else Crashed(w1)
  }

  lemma ReplaceFacts(w: World, user: nat, names: seq<string>, roles: seq<Role>, ids: seq<nat>, kept: seq<UserRole>, c: Created)
    requires RolesWellFormed(w.roles, w.userRoles) && RoleKeysExist(w.roles, w.userRoles)
    requires roles == EnsureRoles(w.roles, names) && ids == IdsFor(roles, names)
    requires kept == DropUser(w.userRoles, user) && c == CreateUserRoles(kept, user, ids)
    ensures c.ok <==> Seqs.NoDuplicates(names)
    ensures c.ok ==> AssignedRoles(roles, c.urs, user) == names && RolesWellFormed(roles, c.urs)
    ensures forall u :: u != user ==> AssignedRoles(roles, c.urs, u) == UserRoles(w, u)
  {
    IdsForFacts(roles, names);
    DropUserNoDuplicates(w.userRoles, user);
    assert forall i :: 0 <= i < |ids| ==> UserRole(user, ids[i]) !in kept;
    forall u | u != user ensures AssignedRoles(roles, c.urs, u) == UserRoles(w, u) {
      OthersKeep(w, user, roles, kept, c.urs, u);
    }
    if c.ok {
      OwnRows(roles, kept, user, ids, names);
    }
  }

  lemma OthersKeep(w: World, user: nat, roles: seq<Role>, kept: seq<UserRole>, urs: seq<UserRole>, u: nat)
    requires RoleKeysExist(w.roles, w.userRoles) && u != user
    requires |w.roles| <= |roles| && roles[..|w.roles|] == w.roles
    requires kept == DropUser(w.userRoles, user)
    requires |kept| <= |urs| && urs[..|kept|] == kept
    requires forall k :: |kept| <= k < |urs| ==> urs[k].user == user
    ensures AssignedRoles(roles, urs, u) == UserRoles(w, u)
  {
    var more := roles[|w.roles|..];
    assert roles == w.roles + more;
    OthersUnchanged(w.roles, more, w.userRoles, user, u);
    var extra := urs[|kept|..];
    assert urs == kept + extra;
    AssignedRolesAppend(roles, kept, extra, u);
    NoneFor(roles, extra, u);
  }

  lemma OwnRows(roles: seq<Role>, kept: seq<UserRole>, user: nat, ids: seq<nat>, names: seq<string>)
    requires forall k :: 0 <= k < |kept| ==> kept[k].user != user
    requires |ids| == |names|
    requires forall i :: 0 <= i < |ids| ==> RoleName(roles, ids[i]) == Some(names[i])
    ensures AssignedRoles(roles, kept + RowsFor(user, ids), user) == names
  {
    AssignedRolesAppend(roles, kept, RowsFor(user, ids), user);
    NoneFor(roles, kept, user);
    AssignedRowsFor(roles, user, ids, names);
    Seqs.EmptyPrefix(names);
  }

  /** Rows that all belong to someone else name no role of `u`. */
  lemma {:induction false} NoneFor(roles: seq<Role>, urs: seq<UserRole>, u: nat)
    requires forall k :: 0 <= k < |urs| ==> urs[k].user != u
    ensures AssignedRoles(roles, urs, u) == []
  {
    if |urs| > 0 {
      NoneFor(roles, urs[1..], u);
    }
  }
}
