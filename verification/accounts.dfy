/** Passwords and password reset (apps/accounts): the registration password
    policy, the ten-minute reset codes, and the views that set a password. */
module Accounts {
  import opened Wrappers
  import opened Calendar
  import opened Domain
  import PyText
  import Seqs

  // ---------------------------------------------------------------------------
  // Password policy (apps/accounts/serializers.py:25-34)

  predicate IsLower(c: char) { 'a' <= c <= 'z' }
  predicate IsUpper(c: char) { 'A' <= c <= 'Z' }
  predicate IsDigit(c: char) { '0' <= c <= '9' }
  predicate IsSpecial(c: char) { c in "@$!%*?&" }
  predicate IsNewline(c: char) { c == '\n' }

  /** The character class the pattern's one consuming item accepts. */
  predicate MayStart(c: char) { IsLower(c) || IsUpper(c) || IsDigit(c) || IsSpecial(c) }

  /** How far `.*` reaches from the start: up to the first line break. */
  function LineEnd(s: string): (n: nat)
    ensures n <= |s|
    ensures forall j :: 0 <= j < n ==> s[j] != '\n'
    ensures n < |s| ==> s[n] == '\n'
  {
    Seqs.FirstIndex(s, IsNewline)
  }

  predicate OccursBefore(s: string, n: nat, f: char -> bool) {
    exists j :: 0 <= j < n && j < |s| && f(s[j])
  }

  /** `re.search` of the policy pattern: four look-aheads from the start,
      each of which must find its class before the first line break, then
      one character from the allowed class. There is no end anchor, so
      nothing after the first character is constrained. */
  predicate PatternMatches(p: string) {
    && |p| > 0 && MayStart(p[0])
    && OccursBefore(p, LineEnd(p), IsLower)
    && OccursBefore(p, LineEnd(p), IsUpper)
    && OccursBefore(p, LineEnd(p), IsDigit)
    && OccursBefore(p, LineEnd(p), IsSpecial)
  }

  /** Both validators of the `password` field. */
  predicate Policy(p: string) {
    |p| >= 8 && PatternMatches(p)
  }

  /** The field's value after validation: DRF's `CharField` strips
      surrounding white space first, then runs the validators on what is
      left (its own NUL-character check among them), and that is what gets
      stored. None is a 400. */
  function CleanPassword(raw: string): (r: Option<string>)
    ensures r.Some? ==> Policy(r.value) && r.value == PyText.Strip(raw, PyText.Whitespace) && '\0' !in r.value
    ensures r.None? <==> !Policy(PyText.Strip(raw, PyText.Whitespace)) || '\0' in PyText.Strip(raw, PyText.Whitespace)
  {
    match PyText.CleanCharField(raw)
    case None => None
    case Some(p) => if Policy(p) then Some(p) else None
  }

  /** The policy checked in one pass over the text. */
  method CheckPolicy(p: string) returns (ok: bool)
    ensures ok <==> Policy(p)
  {
    if |p| < 8 || !MayStart(p[0]) {
      return false;
    }
    var lower, upper, digit, special := false, false, false, false;
    var i := 0;
    while i < |p| && p[i] != '\n'
      invariant 0 <= i <= |p|
      invariant forall j :: 0 <= j < i ==> p[j] != '\n'
      invariant lower <==> OccursBefore(p, i, IsLower)
      invariant upper <==> OccursBefore(p, i, IsUpper)
      invariant digit <==> OccursBefore(p, i, IsDigit)
      invariant special <==> OccursBefore(p, i, IsSpecial)
    {
      var c := p[i];
      lower := lower || IsLower(c);
      upper := upper || IsUpper(c);
      digit := digit || IsDigit(c);
      special := special || IsSpecial(c);
      i := i + 1;
    }
    assert i == LineEnd(p);
    ok := lower && upper && digit && special;
  }

  /** Anything may follow an acceptable password. */
  lemma {:induction false} TailIsUnconstrained(p: string, q: string)
    requires Policy(p)
    ensures Policy(p + q)
  {
    var s := p + q;
    assert forall j :: 0 <= j < |p| ==> s[j] == p[j];
    assert LineEnd(p) <= LineEnd(s);
  }

  /** Only the first line counts: the four classes must all appear before
      the first line break, however long the password is. */
  lemma {:induction false} OnlyTheFirstLineCounts(p: string, q: string)
    requires forall j :: 0 <= j < |p| ==> p[j] != '\n'
    ensures Policy(p + "\n" + q) <==> |p| + 1 + |q| >= 8 && PatternMatches(p)
  {
    var s := p + "\n" + q;
    assert forall j :: 0 <= j < |p| ==> s[j] == p[j];
    assert s[|p|] == '\n';
    assert LineEnd(s) == |p| && LineEnd(p) == |p|;
    if |p| > 0 {
      assert s[0] == p[0];
    }
  }

  // ---------------------------------------------------------------------------
  // Reset codes (apps/accounts/models.py:77-84)

  const ResetWindowSeconds: nat := 600

  /** `is_valid`: unused, and less than ten minutes old at `now`, i.e.
      created after `now - timedelta(minutes=10)`. */
  function CodeIsValid(c: PasswordResetCode, now: Instant): (r: bool)
    ensures r ==> !c.isUsed
  {
    !c.isUsed && InstantBefore(MinusSeconds(now, ResetWindowSeconds), c.createdAt)
  }

  /** An unused code is valid the moment it is made... */
  lemma FreshCodeIsValid(c: PasswordResetCode)
    requires ValidInstant(c.createdAt) && !c.isUsed
    ensures CodeIsValid(c, c.createdAt)
  {
    var d := c.createdAt.date;
    if c.createdAt.second < ResetWindowSeconds {
      assert Before(PrevDay(d), d);
    }
  }

  /** ...and no longer valid exactly ten minutes later. */
  lemma CodeExpiresAfterTenMinutes(c: PasswordResetCode)
    requires ValidInstant(c.createdAt)
    ensures !CodeIsValid(c, PlusSeconds(c.createdAt, ResetWindowSeconds))
  {
    NextDayFacts(c.createdAt.date);
  }

  /** The window in full: at any instant, a code is valid exactly when it is
      unused and that instant is less than ten minutes after its creation,
      `now - created_at < timedelta(minutes=10)`. */
  lemma CodeValidWithinWindow(c: PasswordResetCode, now: Instant)
    requires ValidInstant(c.createdAt) && ValidInstant(now)
    ensures CodeIsValid(c, now) <==> !c.isUsed && InstantBefore(now, PlusSeconds(c.createdAt, ResetWindowSeconds))
  {
    MinusBeforeIffBeforePlus(now, c.createdAt, ResetWindowSeconds);
  }

  /** Measured in seconds since creation, up to a day later: `s` seconds
      after its creation a code is valid exactly when it is unused and `s` is
      under 600. */
  lemma CodeValidForSixHundredSeconds(c: PasswordResetCode, s: nat)
    requires ValidInstant(c.createdAt) && c.createdAt.date.year < MaxYear && s <= SecondsPerDay
    ensures CodeIsValid(c, PlusSeconds(c.createdAt, s)) <==> !c.isUsed && s < ResetWindowSeconds
  {
    NextDayFacts(c.createdAt.date);
    CodeValidWithinWindow(c, PlusSeconds(c.createdAt, s));
  }

  // ---------------------------------------------------------------------------
  // The views (apps/accounts/views/auth.py:169-245)

  /** `User.objects.get(email=email)`; emails are unique. A missing email
      field matches nobody. */
  function UserByEmail(us: seq<User>, email: Option<string>): (r: Option<nat>)
    ensures r.Some? ==> r.value < |us| && Some(us[r.value].email) == email
    ensures r.None? <==> forall u :: u in us ==> Some(u.email) != email
  {
    var k := Seqs.FirstIndex(us, (u: User) => Some(u.email) == email);
    if k == |us| then None else Some(k)
  }

  function CodeText(draw: nat): (s: string)
    requires 100000 <= draw <= 999999
    ensures |s| == 6 && PyText.AllDigits(s) && PyText.DecimalValue(s) == draw
  {
    assert PyText.Pow10(5) == 100000 && PyText.Pow10(6) == 1000000;
    PyText.DecimalLength(draw, 6);
    PyText.DecimalRoundTrip(draw);
    PyText.NatToDecimal(draw)
  }

  /** `PasswordResetView.post`. `draw` is what `random.randint(100000,
      999999)` returned; sending the e-mail is not modelled. */
  function RequestReset(w: World, email: Option<string>, draw: nat, now: Instant): (r: Reply)
    requires 100000 <= draw <= 999999
    ensures r.status == 200 || r.status == 400
    ensures r.status == 400 <==> UserByEmail(w.users, email).None?
    ensures r.status == 400 ==> r.w == w
    ensures r.status == 200 ==> |r.w.resetCodes| == |w.resetCodes| + 1
    // exactly one new code: six digits reading as the draw, for that user,
    // unused, stamped `now`, with a key not in use
    ensures r.status == 200 ==>
              r.w == w.(resetCodes := w.resetCodes + [r.w.resetCodes[|w.resetCodes|]])
              && (var c := r.w.resetCodes[|w.resetCodes|];
                  c.user == w.users[UserByEmail(w.users, email).value].id
                  && |c.code| == 6 && PyText.AllDigits(c.code) && PyText.DecimalValue(c.code) == draw
                  && !c.isUsed && c.createdAt == now
                  && forall i :: 0 <= i < |w.resetCodes| ==> w.resetCodes[i].id != c.id)
  {
    match UserByEmail(w.users, email)
    case None => Reply(400, w)
    case Some(k) =>
      var ids := ResetCodeIds(w.resetCodes);
      assert forall i :: 0 <= i < |w.resetCodes| ==> w.resetCodes[i].id == ids[i];
      var c := PasswordResetCode(NextId(ids), w.users[k].id, CodeText(draw), now, false);
      Reply(200, w.(resetCodes := w.resetCodes + [c]))
  }

  /** `filter(user=user, code=code, is_used=False).first()`. */
  function FirstUnusedCode(cs: seq<PasswordResetCode>, user: nat, code: Option<string>): (r: Option<nat>)
    ensures r.Some? ==> r.value < |cs| && cs[r.value].user == user && Some(cs[r.value].code) == code
                        && !cs[r.value].isUsed
    ensures r.None? <==> forall c :: c in cs ==> !(c.user == user && Some(c.code) == code && !c.isUsed)
  {
    var k := Seqs.FirstIndex(cs, (c: PasswordResetCode) => c.user == user && Some(c.code) == code && !c.isUsed);
    if k == |cs| then None else Some(k)
  }

  /** `PasswordResetConfirmView.post`: 404 for an unknown e-mail, 400
      unless the first unused matching code is still valid; otherwise the
      password is replaced (with no policy check) and the code spent. */
  function ConfirmReset(w: World, email: Option<string>, code: Option<string>, newPassword: Option<string>, now: Instant): (r: Reply)
    ensures r.status in {200, 400, 404}
    ensures r.status == 404 <==> UserByEmail(w.users, email).None?
    ensures r.status != 200 ==> r.w == w
    ensures r.status == 200 <==>
              (UserByEmail(w.users, email).Some?
               && (var u := w.users[UserByEmail(w.users, email).value];
                   FirstUnusedCode(w.resetCodes, u.id, code).Some?
                   && CodeIsValid(w.resetCodes[FirstUnusedCode(w.resetCodes, u.id, code).value], now)))
    ensures r.status == 200 ==>
              var k := UserByEmail(w.users, email).value;
              var j := FirstUnusedCode(w.resetCodes, w.users[k].id, code).value;
              r.w == w.(users := w.users[k := w.users[k].(password := newPassword)],
                        resetCodes := w.resetCodes[j := w.resetCodes[j].(isUsed := true)])
  {
    match UserByEmail(w.users, email)
    case None => Reply(404, w)
    case Some(k) =>
      match FirstUnusedCode(w.resetCodes, w.users[k].id, code)
      case None => Reply(400, w)
      case Some(j) =>
        if !CodeIsValid(w.resetCodes[j], now) then Reply(400, w)
        else
          Reply(200, w.(users := w.users[k := w.users[k].(password := newPassword)],
                        resetCodes := w.resetCodes[j := w.resetCodes[j].(isUsed := true)]))
  }

  /** A code just sent can be used straight away, unless an older unused
      copy of the same digits for that user stands in front of it. */
  lemma RequestThenConfirm(w: World, email: Option<string>, draw: nat, now: Instant, p: Option<string>)
    requires 100000 <= draw <= 999999 && ValidInstant(now)
    requires RequestReset(w, email, draw, now).status == 200
    requires forall c :: c in w.resetCodes ==> c.isUsed || c.code != CodeText(draw)
    ensures ConfirmReset(RequestReset(w, email, draw, now).w, email, Some(CodeText(draw)), p, now).status == 200
  {
    var w1 := RequestReset(w, email, draw, now).w;
    var n := |w.resetCodes|;
    var k := UserByEmail(w.users, email).value;
    assert w1.resetCodes[..n] == w.resetCodes;
    assert forall i :: 0 <= i < n ==> w1.resetCodes[i] in w.resetCodes;
    assert FirstUnusedCode(w1.resetCodes, w.users[k].id, Some(CodeText(draw))) == Some(n);
    FreshCodeIsValid(w1.resetCodes[n]);
  }

  /** A code works at most once: with no second copy of it for that user,
      repeating a successful confirmation fails. */
  lemma CodeWorksOnce(w: World, email: Option<string>, code: Option<string>, p1: Option<string>, p2: Option<string>, now1: Instant, now2: Instant)
    requires ConfirmReset(w, email, code, p1, now1).status == 200
    requires forall i, j :: 0 <= i < j < |w.resetCodes| && w.resetCodes[i].code == w.resetCodes[j].code ==>
               w.resetCodes[i].user != w.resetCodes[j].user
    ensures ConfirmReset(ConfirmReset(w, email, code, p1, now1).w, email, code, p2, now2).status == 400
  {
    var w1 := ConfirmReset(w, email, code, p1, now1).w;
    var k := UserByEmail(w.users, email).value;
    var j := FirstUnusedCode(w.resetCodes, w.users[k].id, code).value;
    assert forall i :: 0 <= i < |w1.users| ==> w1.users[i].email == w.users[i].email && w1.users[i].id == w.users[i].id;
    assert UserByEmail(w1.users, email) == Some(k);
    assert forall i :: 0 <= i < |w1.resetCodes| ==>
             w1.resetCodes[i].isUsed || !(w1.resetCodes[i].user == w.users[k].id && Some(w1.resetCodes[i].code) == code);
  }

  /** The new password plays no part in the outcome: a reset accepts any
      text, even one registration would refuse. */
  lemma ResetIgnoresPolicy(w: World, email: Option<string>, code: Option<string>, now: Instant, weak: string)
    requires !Policy(weak)
    requires ConfirmReset(w, email, code, None, now).status == 200
    ensures ConfirmReset(w, email, code, Some(weak), now).status == 200
    ensures var r := ConfirmReset(w, email, code, Some(weak), now);
            r.w.users[UserByEmail(w.users, email).value].password == Some(weak)
  {
  }

  /** `PasswordChangeView.post` for the signed-in user at position `k`:
      `check_password` fails for a missing old password and for an
      unusable stored one; the new one is not checked against the policy. */
  function ChangePassword(w: World, k: nat, oldPassword: Option<string>, newPassword: Option<string>): (r: Reply)
    requires k < |w.users|
    ensures r.status == 200 || r.status == 400
    ensures r.status == 200 <==> oldPassword.Some? && w.users[k].password == oldPassword
    ensures r.status == 400 ==> r.w == w
    ensures r.status == 200 ==> r.w == w.(users := w.users[k := w.users[k].(password := newPassword)])
  {
    if oldPassword.None? || w.users[k].password != oldPassword then Reply(400, w)
    else Reply(200, w.(users := w.users[k := w.users[k].(password := newPassword)]))
  }
}
