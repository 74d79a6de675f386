/** The post-save hook `generate_invoices_on_package_creation`
    (apps/packages/signals.py:10-94): when a package row is first created,
    every resident of every building linked to it gets an invoice for an
    equal share, and recurring packages are settled from the residents'
    wallets at once. */
module CreationBilling {
  import opened Wrappers
  import opened Calendar
  import opened Domain
  import opened Settlement
  import opened Invoicing
  import MonthlyBilling
  import Money

  datatype HookPricing = Skip | HookBroken | HookPriced(total: real, due: Date)

  /** The amount to split and the due date, by package type
      (apps/packages/signals.py:32-46): utilities and fixed fall due on their
      day, capped at 28, of the start date's month; misc falls due on its
      deadline; prepaid is skipped. A missing detail row, or a due day of 0,
      raises. */
  function HookTerms(pkg: Package): (r: HookPricing)
    ensures r.Skip? <==> pkg.packageType == Prepaid
    ensures pkg.packageType == Utilities && pkg.utility.Some? && ValidDate(pkg.startDate) ==>
              (r.HookPriced? <==> pkg.utility.value.dueDay >= 1)
              && (r.HookPriced? ==> r.total == pkg.utility.value.monthlyAmount
                                    && r.due.year == pkg.startDate.year && r.due.month == pkg.startDate.month
                                    && r.due.day == MonthlyBilling.Min(pkg.utility.value.dueDay, 28))
    ensures pkg.packageType == Fixed && pkg.fixed.Some? && ValidDate(pkg.startDate) ==>
              (r.HookPriced? <==> pkg.fixed.value.deductionDay >= 1)
              && (r.HookPriced? ==> r.total == pkg.fixed.value.monthlyAmount
                                    && r.due.year == pkg.startDate.year && r.due.month == pkg.startDate.month
                                    && r.due.day == MonthlyBilling.Min(pkg.fixed.value.deductionDay, 28))
    ensures pkg.packageType == Misc ==>
              (r.HookPriced? <==> pkg.misc.Some?)
              && (r.HookPriced? ==> r.total == pkg.misc.value.totalAmount && r.due == pkg.misc.value.deadline)
    ensures r.HookBroken? ==> pkg.packageType != Prepaid
  {
    match pkg.packageType
    case Utilities =>
      if pkg.utility.None? then HookBroken
      else
        (match ReplaceDay(pkg.startDate, MonthlyBilling.Min(pkg.utility.value.dueDay, 28))
         case None => HookBroken
         case Some(d) => HookPriced(pkg.utility.value.monthlyAmount, d))
    case Fixed =>
      if pkg.fixed.None? then HookBroken
      else
        (match ReplaceDay(pkg.startDate, MonthlyBilling.Min(pkg.fixed.value.deductionDay, 28))
         case None => HookBroken
         case Some(d) => HookPriced(pkg.fixed.value.monthlyAmount, d))
    case Misc =>
      if pkg.misc.None? then HookBroken else HookPriced(pkg.misc.value.totalAmount, pkg.misc.value.deadline)
    case Prepaid => Skip
  }

  function HookMode(pkg: Package): Mode {
    if pkg.isRecurring then CreateAndSettle else CreateOnly
  }

  /** `c` is resident `p`'s equal share of a priced package among `n`
      residents of `building`, due on the package's date. */
  predicate IsShare(pkg: Package, building: nat, n: nat, p: ResidentProfile, c: Charge) {
    var t := HookTerms(pkg);
    t.HookPriced? && c.package == pkg.id && c.building == building && c.resident == p.id && c.payer == p.user
    && c.amount * (n as real) == t.total && c.dueDate == t.due && c.mode == HookMode(pkg)
  }

  /** One invoice per resident, each for an equal share. */
  function ResidentCharges(pkg: Package, building: nat, rs: seq<ResidentProfile>, total: real, due: Date): (r: seq<Step>)
    requires |rs| >= 1
    ensures |r| == |rs|
    ensures forall i :: 0 <= i < |rs| ==>
              r[i].Bill? && r[i].charge.resident == rs[i].id && r[i].charge.payer == rs[i].user
              && r[i].charge.package == pkg.id && r[i].charge.building == building
              && r[i].charge.amount * (|rs| as real) == total && r[i].charge.dueDate == due
              && r[i].charge.mode == HookMode(pkg)
  {
    var share := Money.MonthlyShare(total, |rs|);
    seq(|rs|, i requires 0 <= i < |rs| => Bill(Charge(pkg.id, building, rs[i].id, rs[i].user, share, due, HookMode(pkg))))
  }

  /** `c` is the share of `p`, a resident of `building`, among all the
      building's residents. */
  predicate ShareFor(w: World, pkg: Package, building: nat, p: ResidentProfile, c: Charge) {
    var rs := ProfilesInBuilding(w.units, w.profiles, building);
    p in rs && IsShare(pkg, building, |rs|, p, c)
  }

  /** Some step of `steps` charges `p` its share at `building`. */
  predicate Shared(w: World, pkg: Package, building: nat, p: ResidentProfile, steps: seq<Step>) {
    exists i :: 0 <= i < |steps| && steps[i].Bill? && ShareFor(w, pkg, building, p, steps[i].charge)
  }

  /** What one linked building contributes (apps/packages/signals.py:24-57):
      nothing when it has no residents or the package is prepaid. */
  function BuildingSteps(w: World, pkg: Package, building: nat): (r: seq<Step>)
    ensures var rs := ProfilesInBuilding(w.units, w.profiles, building);
            (|rs| == 0 || HookTerms(pkg).Skip? ==> r == [])
            && (|rs| >= 1 && HookTerms(pkg).HookBroken? ==> r == [Crash])
    // resident i of the building is charged the i-th step, for its share
    ensures var rs := ProfilesInBuilding(w.units, w.profiles, building);
            |rs| >= 1 && HookTerms(pkg).HookPriced? ==>
              |r| == |rs| && forall i :: 0 <= i < |r| ==> r[i].Bill? && IsShare(pkg, building, |rs|, rs[i], r[i].charge)
    ensures AllMode(r, HookMode(pkg))
  {
    var rs := ProfilesInBuilding(w.units, w.profiles, building);
    if |rs| == 0 then []
    else
      match HookTerms(pkg)
      case Skip => []
      case HookBroken => [Crash]
      case HookPriced(total, due) => ResidentCharges(pkg, building, rs, total, due)
  }

  /** How many residents the linked buildings have together. */
  function ResidentTotal(w: World, links: seq<PackageBuilding>): nat {
    if |links| == 0 then 0
    else |ProfilesInBuilding(w.units, w.profiles, links[0].building)| + ResidentTotal(w, links[1..])
  }

  /** Every step of the building's that charges is some resident's share. */
  lemma BuildingStepsAreShares(w: World, pkg: Package, building: nat)
    ensures var r := BuildingSteps(w, pkg, building);
            forall i :: 0 <= i < |r| && r[i].Bill? ==> exists p :: ShareFor(w, pkg, building, p, r[i].charge)
    ensures forall p :: p in ProfilesInBuilding(w.units, w.profiles, building) && HookTerms(pkg).HookPriced? ==>
              Shared(w, pkg, building, p, BuildingSteps(w, pkg, building))
  {
    var rs := ProfilesInBuilding(w.units, w.profiles, building);
    var r := BuildingSteps(w, pkg, building);
    forall i | 0 <= i < |r| && r[i].Bill? ensures exists p :: ShareFor(w, pkg, building, p, r[i].charge) {
      assert rs[i] in rs;
      assert ShareFor(w, pkg, building, rs[i], r[i].charge);
    }
    forall p | p in rs && HookTerms(pkg).HookPriced? ensures Shared(w, pkg, building, p, r) {
      var k :| 0 <= k < |rs| && rs[k] == p;
      assert r[k].Bill? && ShareFor(w, pkg, building, p, r[k].charge);
    }
  }

  lemma SharedInEither(w: World, pkg: Package, a: seq<Step>, b: seq<Step>)
    ensures forall building, p :: Shared(w, pkg, building, p, a) || Shared(w, pkg, building, p, b) ==>
                                  Shared(w, pkg, building, p, a + b)
  {
    forall building, p | Shared(w, pkg, building, p, a) || Shared(w, pkg, building, p, b)
      ensures Shared(w, pkg, building, p, a + b)
    {
      if Shared(w, pkg, building, p, a) {
        var i :| 0 <= i < |a| && a[i].Bill? && ShareFor(w, pkg, building, p, a[i].charge);
        assert (a + b)[i] == a[i];
      } else {
        var i :| 0 <= i < |b| && b[i].Bill? && ShareFor(w, pkg, building, p, b[i].charge);
        assert (a + b)[|a| + i] == b[i];
      }
    }
  }

  /** Every charge among `steps` is a resident's share at one of `links`. */
  ghost predicate SharesAt(w: World, pkg: Package, links: seq<PackageBuilding>, steps: seq<Step>) {
    forall i :: 0 <= i < |steps| && steps[i].Bill? ==> exists l, p :: l in links && ShareFor(w, pkg, l.building, p, steps[i].charge)
  }

  lemma SharesAtAppend(w: World, pkg: Package, links: seq<PackageBuilding>, head: seq<Step>, tail: seq<Step>)
    requires |links| > 0
    requires forall i :: 0 <= i < |head| && head[i].Bill? ==> exists p :: ShareFor(w, pkg, links[0].building, p, head[i].charge)
    requires SharesAt(w, pkg, links[1..], tail)
    ensures SharesAt(w, pkg, links, head + tail)
  {
    forall i | 0 <= i < |head + tail| && (head + tail)[i].Bill?
      ensures exists l, p :: l in links && ShareFor(w, pkg, l.building, p, (head + tail)[i].charge)
    {
      if i < |head| {
        assert (head + tail)[i] == head[i];
        var p :| ShareFor(w, pkg, links[0].building, p, head[i].charge);
        assert links[0] in links;
      } else {
        assert (head + tail)[i] == tail[i - |head|];
        var l, p :| l in links[1..] && ShareFor(w, pkg, l.building, p, tail[i - |head|].charge);
        assert l in links;
      }
    }
  }

  function HookPlan(w: World, pkg: Package, links: seq<PackageBuilding>): (r: seq<Step>)
    ensures AllMode(r, HookMode(pkg))
    ensures HookTerms(pkg).Skip? ==> r == []
    ensures HookTerms(pkg).HookPriced? ==> |r| == ResidentTotal(w, links) && forall i :: 0 <= i < |r| ==> r[i].Bill?
    // every charge is a resident's share at one of the linked buildings
    ensures SharesAt(w, pkg, links, r)
    // and every resident of every linked building is charged its share
    ensures HookTerms(pkg).HookPriced? ==>
              forall l, p :: l in links && p in ProfilesInBuilding(w.units, w.profiles, l.building) ==>
                Shared(w, pkg, l.building, p, r)
    // the hook raises exactly when the package is broken and a linked building has residents
    ensures Crash in r <==>
              HookTerms(pkg).HookBroken? && exists l :: l in links && |ProfilesInBuilding(w.units, w.profiles, l.building)| >= 1
  {
    if |links| == 0 then []
    else
      var head := BuildingSteps(w, pkg, links[0].building);
      var tail := HookPlan(w, pkg, links[1..]);
      assert forall i :: 0 <= i < |tail| ==> (head + tail)[|head| + i] == tail[i];
      BuildingStepsAreShares(w, pkg, links[0].building);
      SharesAtAppend(w, pkg, links, head, tail);
      SharedInEither(w, pkg, head, tail);
      assert forall l :: l in links <==> l == links[0] || l in links[1..];
      head + tail
  }

  /** Some invoice carries the key `k` and is a `1/n`-th share of `total`. */
  predicate HasShareInvoice(invs: seq<PackageInvoice>, k: InvoiceKey, n: nat, total: real) {
    exists j :: 0 <= j < |invs| && KeyOf(invs[j]) == k && invs[j].amount * (n as real) == total
  }

  /** A finished run of the hook's plan leaves every resident's share
      invoiced. */
  lemma HookPlanInvoicesEveryResident(w: World, pkg: Package, links: seq<PackageBuilding>, now: Instant)
    ensures var r := Exec(w, HookPlan(w, pkg, links), now);
            r.Done? && HookTerms(pkg).HookPriced? ==>
              forall l, p :: l in links && p in ProfilesInBuilding(w.units, w.profiles, l.building) ==>
                HasShareInvoice(r.w.invoices, InvoiceKey(pkg.id, l.building, Some(p.id), HookTerms(pkg).due),
                                |ProfilesInBuilding(w.units, w.profiles, l.building)|, HookTerms(pkg).total)
  {
    var steps := HookPlan(w, pkg, links);
    var r := Exec(w, steps, now);
    if r.Done? && HookTerms(pkg).HookPriced? {
      assert AllMode(steps, HookMode(pkg));
      ExecRecordsEveryCharge(w, steps, now);
      forall l, p | l in links && p in ProfilesInBuilding(w.units, w.profiles, l.building)
        ensures HasShareInvoice(r.w.invoices, InvoiceKey(pkg.id, l.building, Some(p.id), HookTerms(pkg).due),
                                |ProfilesInBuilding(w.units, w.profiles, l.building)|, HookTerms(pkg).total)
      {
        assert Shared(w, pkg, l.building, p, steps);
        var i :| 0 <= i < |steps| && steps[i].Bill? && ShareFor(w, pkg, l.building, p, steps[i].charge);
        ShareInvoiced(w, pkg, l.building, p, steps[i].charge, r.w.invoices);
      }
    }
  }

  lemma ShareInvoiced(w: World, pkg: Package, building: nat, p: ResidentProfile, c: Charge, invs: seq<PackageInvoice>)
    requires ShareFor(w, pkg, building, p, c) && HasInvoice(invs, ChargeKey(c), c.amount)
    ensures HasShareInvoice(invs, InvoiceKey(pkg.id, building, Some(p.id), HookTerms(pkg).due),
                            |ProfilesInBuilding(w.units, w.profiles, building)|, HookTerms(pkg).total)
  {
    var j :| 0 <= j < |invs| && KeyOf(invs[j]) == ChargeKey(c) && invs[j].amount == c.amount;
  }

  /** Runs the hook's plan for the given links. */
  function RunHookPlan(w: World, pkg: Package, links: seq<PackageBuilding>, now: Instant): (r: Outcome)
    ensures HookTerms(pkg).Skip? ==> r == Done(w)
    ensures SameCatalog(w, r.w)
    ensures Holdings(r.w) == Holdings(w)
    ensures !pkg.isRecurring ==>
              r.w.wallets == w.wallets && r.w.transactions == w.transactions && r.w.notices == w.notices
    ensures r.Done? && HookTerms(pkg).HookPriced? ==> |r.w.invoices| == |w.invoices| + ResidentTotal(w, links)
    ensures r.Done? && pkg.isRecurring ==> |r.w.notices| - |w.notices| == |r.w.invoices| - |w.invoices|
    ensures r.Done? && HookTerms(pkg).HookPriced? ==>
              forall l, p :: l in links && p in ProfilesInBuilding(w.units, w.profiles, l.building) ==>
                HasShareInvoice(r.w.invoices, InvoiceKey(pkg.id, l.building, Some(p.id), HookTerms(pkg).due),
                                |ProfilesInBuilding(w.units, w.profiles, l.building)|, HookTerms(pkg).total)
    ensures HookTerms(pkg).HookBroken?
            && (exists l :: l in links && |ProfilesInBuilding(w.units, w.profiles, l.building)| >= 1) ==>
              r.Crashed?
  {
    var steps := HookPlan(w, pkg, links);
    HookPlanInvoicesEveryResident(w, pkg, links, now);
    assert Exec(w, steps, now).Done? ==> Crash !in steps;
    Exec(w, steps, now)
  }

  /** The hook itself. `created` is Django's flag for the first save. */
  function OnPackageSaved(w: World, pkg: Package, created: bool, now: Instant): (r: Outcome)
    // later saves, and a package with no linked buildings, do nothing
    ensures !created ==> r == Done(w)
    ensures MonthlyBilling.LinksOf(w.links, pkg.id) == [] ==> r == Done(w)
    // a prepaid package issues nothing
    ensures HookTerms(pkg).Skip? ==> r == Done(w)
    ensures SameCatalog(w, r.w)
    ensures Holdings(r.w) == Holdings(w)
    // a non-recurring package only writes invoices: no money moves and no one is told
    ensures !pkg.isRecurring ==>
              r.w.wallets == w.wallets && r.w.transactions == w.transactions && r.w.notices == w.notices
    // one invoice per resident per linked building, created unconditionally
    ensures created && r.Done? && HookTerms(pkg).HookPriced? ==>
              |r.w.invoices| == |w.invoices| + ResidentTotal(w, MonthlyBilling.LinksOf(w.links, pkg.id))
    // a recurring package's invoices each tell their payer once
    ensures created && r.Done? && pkg.isRecurring ==>
              |r.w.notices| - |w.notices| == |r.w.invoices| - |w.invoices|
    // every resident of every linked building holds an invoice for its equal share
    ensures created && r.Done? && HookTerms(pkg).HookPriced? ==>
              forall l, p :: l in w.links && l.package == pkg.id && p in ProfilesInBuilding(w.units, w.profiles, l.building) ==>
                HasShareInvoice(r.w.invoices, InvoiceKey(pkg.id, l.building, Some(p.id), HookTerms(pkg).due),
                                |ProfilesInBuilding(w.units, w.profiles, l.building)|, HookTerms(pkg).total)
    // a missing detail row raises once a linked building has residents
    ensures created && HookTerms(pkg).HookBroken?
            && (exists l :: l in w.links && l.package == pkg.id && |ProfilesInBuilding(w.units, w.profiles, l.building)| >= 1) ==>
              r.Crashed?
  {
    if !created then Done(w)
    else
      var links := MonthlyBilling.LinksOf(w.links, pkg.id);
      if |links| == 0 then Done(w)
      else RunHookPlan(w, pkg, links, now)
  }
}
