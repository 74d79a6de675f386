/** The older monthly generator `generate_monthly_invoices` of
    apps/core/tasks.py:12-75, the one the beat schedule names. It bills every
    active recurring package to every resident of its building, splitting
    the monthly amount by the resident count, and debits the resident's
    wallet when the balance covers the share.

    Its tables (`RecurringPackage`, `RecurringInstance`, `ResidentWallet` and
    the resident-keyed payment row) are declared in none of the repository's model files, so
    this module declares them with exactly the columns the job reads and writes. */
module LegacyBilling {
  import opened Wrappers
  import opened Calendar
  import opened Domain
  import Seqs
  import Money
  import MonthlyBilling

  datatype InstanceStatus = InstancePending | InstancePaid | InstanceUnpaid

  datatype RecurringPackage = RecurringPackage(
    id: nat,
    building: nat,
    name: string,
    monthlyAmount: real,
    dueDay: int,
    isActive: bool)

  datatype RecurringInstance = RecurringInstance(
    id: nat,
    package: nat,
    resident: nat,
    dueDate: Date,
    amount: real,
    status: InstanceStatus)

  /** A wallet keyed by resident profile. */
  datatype ResidentWallet = ResidentWallet(id: nat, resident: nat, balance: real)

  /** A `paid` wallet payment for one instance. */
  datatype WalletPayment = WalletPayment(resident: nat, instance: nat, amount: real)

  /** What the job only reads. */
  datatype JobInputs = JobInputs(packages: seq<RecurringPackage>, units: seq<Unit>, profiles: seq<ResidentProfile>)

  /** What the job writes. */
  datatype Ledger = Ledger(
    instances: seq<RecurringInstance>,
    wallets: seq<ResidentWallet>,
    payments: seq<WalletPayment>,
    notices: seq<Notice>)

  /** `Crashed` keeps what was written before the exception. */
  datatype JobOutcome = Done(l: Ledger) | Crashed(l: Ledger)

  /** How the due date is formed: as written, `date(year, month, due_day)`
      with the package's day unchanged; or clamped to 28, as the newer
      generator does. */
  datatype DueRule = AsWritten | Clamped

  function DueDate(rule: DueRule, today: Date, dueDay: int): (r: Option<Date>)
    ensures r.Some? ==> ValidDate(r.value) && r.value.year == today.year && r.value.month == today.month
    ensures rule == AsWritten ==>
              (r.Some? <==> ValidDate(Date(today.year, today.month, dueDay))) && (r.Some? ==> r.value.day == dueDay)
    ensures rule == Clamped && ValidDate(today) ==>
              (r.Some? <==> dueDay >= 1) && (r.Some? ==> r.value.day == MonthlyBilling.Min(dueDay, 28))
  {
    match rule
    case AsWritten => MakeDate(today.year, today.month, dueDay)
    case Clamped => MakeDate(today.year, today.month, MonthlyBilling.Min(dueDay, 28))
  }

  datatype Bill = Bill(package: nat, resident: nat, payer: nat, amount: real, due: Date)

  /** One planned action: bill a resident, or raise `ValueError` on an
      impossible due date. */
  datatype JobStep = Issue(bill: Bill) | Crash

  /** One bill per resident, each for the same share. */
  function ResidentBills(pkg: RecurringPackage, rs: seq<ResidentProfile>, d: Date): (r: seq<JobStep>)
    requires |rs| >= 1
    ensures |r| == |rs|
    ensures forall i :: 0 <= i < |r| ==>
              r[i].Issue? && r[i].bill.package == pkg.id && r[i].bill.resident == rs[i].id && r[i].bill.payer == rs[i].user
              && r[i].bill.amount == Money.MonthlyShare(pkg.monthlyAmount, |rs|) && r[i].bill.due == d
  {
    var share := Money.MonthlyShare(pkg.monthlyAmount, |rs|);
    seq(|rs|, i requires 0 <= i < |rs| => Issue(Bill(pkg.id, rs[i].id, rs[i].user, share, d)))
  }

  /** A package's steps (apps/core/tasks.py:25-36): one per resident of the
      building, each for the monthly amount over the resident count. The
      date is built inside the loop, so an impossible date raises at the
      first resident and a building without residents never raises. */
  function PackageSteps(cat: JobInputs, pkg: RecurringPackage, today: Date, rule: DueRule): (r: seq<JobStep>)
    ensures var rs := ProfilesInBuilding(cat.units, cat.profiles, pkg.building);
            (|rs| == 0 ==> r == [])
            && (|rs| >= 1 && DueDate(rule, today, pkg.dueDay).None? ==> r == [Crash])
            && (|rs| >= 1 && DueDate(rule, today, pkg.dueDay).Some? ==>
                  r == ResidentBills(pkg, rs, DueDate(rule, today, pkg.dueDay).value))
  {
    var rs := ProfilesInBuilding(cat.units, cat.profiles, pkg.building);
    if |rs| == 0 then []
    else
      match DueDate(rule, today, pkg.dueDay)
      case None => [Crash]
      case Some(d) => ResidentBills(pkg, rs, d)
  }

  /** A bill the source would issue: an active package of the catalog, one
      of its building's residents, the equal share and the rule's due date. */
  predicate SoundBill(cat: JobInputs, today: Date, rule: DueRule, b: Bill) {
    exists pkg :: pkg in cat.packages && pkg.isActive && pkg.id == b.package
                  && Some(b.due) == DueDate(rule, today, pkg.dueDay)
                  && b.amount == Money.MonthlyShare(pkg.monthlyAmount, |ProfilesInBuilding(cat.units, cat.profiles, pkg.building)|)
                  && exists p :: p in ProfilesInBuilding(cat.units, cat.profiles, pkg.building)
                                 && p.id == b.resident && p.user == b.payer
  }

  predicate AllBillsSound(cat: JobInputs, today: Date, rule: DueRule, steps: seq<JobStep>) {
    forall i :: 0 <= i < |steps| && steps[i].Issue? ==> SoundBill(cat, today, rule, steps[i].bill)
  }

  lemma AllBillsSoundAppend(cat: JobInputs, today: Date, rule: DueRule, a: seq<JobStep>, b: seq<JobStep>)
    requires AllBillsSound(cat, today, rule, a) && AllBillsSound(cat, today, rule, b)
    ensures AllBillsSound(cat, today, rule, a + b)
  {
    forall i | 0 <= i < |a + b| && (a + b)[i].Issue? ensures SoundBill(cat, today, rule, (a + b)[i].bill) {
      if i >= |a| {
        assert (a + b)[i] == b[i - |a|];
      }
    }
  }

  lemma SoundIntro(cat: JobInputs, today: Date, rule: DueRule, b: Bill, pkg: RecurringPackage, p: ResidentProfile)
    requires pkg in cat.packages && pkg.isActive && pkg.id == b.package
    requires Some(b.due) == DueDate(rule, today, pkg.dueDay)
    requires b.amount == Money.MonthlyShare(pkg.monthlyAmount, |ProfilesInBuilding(cat.units, cat.profiles, pkg.building)|)
    requires p in ProfilesInBuilding(cat.units, cat.profiles, pkg.building) && p.id == b.resident && p.user == b.payer
    ensures SoundBill(cat, today, rule, b)
  {
  }

  lemma BillSound(cat: JobInputs, pkg: RecurringPackage, today: Date, rule: DueRule, rs: seq<ResidentProfile>, d: Date, i: nat)
    requires pkg in cat.packages && pkg.isActive
    requires rs == ProfilesInBuilding(cat.units, cat.profiles, pkg.building)
    requires Some(d) == DueDate(rule, today, pkg.dueDay)
    requires i < |rs|
    ensures SoundBill(cat, today, rule, ResidentBills(pkg, rs, d)[i].bill)
  {
    var b := ResidentBills(pkg, rs, d)[i].bill;
    assert rs[i] in rs;
    SoundIntro(cat, today, rule, b, pkg, rs[i]);
  }

  lemma PackageStepsSound(cat: JobInputs, pkg: RecurringPackage, today: Date, rule: DueRule)
    requires pkg in cat.packages
    ensures AllBillsSound(cat, today, rule, if pkg.isActive then PackageSteps(cat, pkg, today, rule) else [])
  {
    var rs := ProfilesInBuilding(cat.units, cat.profiles, pkg.building);
    var due := DueDate(rule, today, pkg.dueDay);
    if pkg.isActive && |rs| >= 1 && due.Some? {
      var r := ResidentBills(pkg, rs, due.value);
      assert PackageSteps(cat, pkg, today, rule) == r;
      forall i | 0 <= i < |r| ensures SoundBill(cat, today, rule, r[i].bill) {
        BillSound(cat, pkg, today, rule, rs, due.value, i);
      }
    }
  }

  /** The bill an active package owes resident `p` of its building: the
      equal share, due on `d`. */
  function ShareBill(cat: JobInputs, pkg: RecurringPackage, p: ResidentProfile, d: Date): Bill {
    Bill(pkg.id, p.id, p.user, Money.MonthlyShare(pkg.monthlyAmount, |ProfilesInBuilding(cat.units, cat.profiles, pkg.building)|), d)
  }

  /** `pkg` owes resident `p` a bill this run: it is active, `p` lives in its
      building and the rule gives a due date. */
  predicate OwesShare(cat: JobInputs, today: Date, rule: DueRule, pkg: RecurringPackage, p: ResidentProfile) {
    pkg.isActive && p in ProfilesInBuilding(cat.units, cat.profiles, pkg.building) && DueDate(rule, today, pkg.dueDay).Some?
  }

  /** `pkg` makes the run raise: it is active, its building has residents and
      the rule gives no due date. */
  predicate RaisesAt(cat: JobInputs, today: Date, rule: DueRule, pkg: RecurringPackage) {
    pkg.isActive && |ProfilesInBuilding(cat.units, cat.profiles, pkg.building)| >= 1 && DueDate(rule, today, pkg.dueDay).None?
  }

  /** Every resident of an active package's building has its share among the
      package's steps. */
  lemma PackageStepsComplete(cat: JobInputs, pkg: RecurringPackage, today: Date, rule: DueRule)
    ensures forall p :: OwesShare(cat, today, rule, pkg, p) ==>
              Issue(ShareBill(cat, pkg, p, DueDate(rule, today, pkg.dueDay).value)) in PackageSteps(cat, pkg, today, rule)
  {
    var rs := ProfilesInBuilding(cat.units, cat.profiles, pkg.building);
    forall p | OwesShare(cat, today, rule, pkg, p)
      ensures Issue(ShareBill(cat, pkg, p, DueDate(rule, today, pkg.dueDay).value)) in PackageSteps(cat, pkg, today, rule)
    {
      var d := DueDate(rule, today, pkg.dueDay).value;
      var k :| 0 <= k < |rs| && rs[k] == p;
      var r := ResidentBills(pkg, rs, d);
      assert PackageSteps(cat, pkg, today, rule) == r;
      assert r[k] == Issue(ShareBill(cat, pkg, p, d));
    }
  }

  function PlanPackageBills(cat: JobInputs, pkgs: seq<RecurringPackage>, today: Date, rule: DueRule): (r: seq<JobStep>)
    requires forall p :: p in pkgs ==> p in cat.packages
    ensures AllBillsSound(cat, today, rule, r)
    // every resident owed a share by one of the packages is billed it
    ensures forall pkg, p :: pkg in pkgs && OwesShare(cat, today, rule, pkg, p) ==>
              Issue(ShareBill(cat, pkg, p, DueDate(rule, today, pkg.dueDay).value)) in r
    ensures Crash in r <==> exists pkg :: pkg in pkgs && RaisesAt(cat, today, rule, pkg)
  {
    if |pkgs| == 0 then []
    else
      var pkg := pkgs[0];
      var head := if pkg.isActive then PackageSteps(cat, pkg, today, rule) else [];
      var tail := PlanPackageBills(cat, pkgs[1..], today, rule);
      PackageStepsSound(cat, pkg, today, rule);
      PackageStepsComplete(cat, pkg, today, rule);
      AllBillsSoundAppend(cat, today, rule, head, tail);
      assert forall x :: x in pkgs <==> x == pkg || x in pkgs[1..];
      head + tail
  }

  /** The steps of a whole run: every active package in table order. */
  function PlanBills(cat: JobInputs, today: Date, rule: DueRule): (r: seq<JobStep>)
    ensures AllBillsSound(cat, today, rule, r)
    // every resident of every active package's building is billed the share
    ensures forall pkg, p :: pkg in cat.packages && OwesShare(cat, today, rule, pkg, p) ==>
              Issue(ShareBill(cat, pkg, p, DueDate(rule, today, pkg.dueDay).value)) in r
    // the run raises exactly when an active package with residents has no due date
    ensures Crash in r <==> exists pkg :: pkg in cat.packages && RaisesAt(cat, today, rule, pkg)
  {
    PlanPackageBills(cat, cat.packages, today, rule)
  }

  /** The get-or-create key: package, resident and due date. */
  datatype Key = Key(package: nat, resident: nat, due: Date)

  function InstanceKey(x: RecurringInstance): Key {
    Key(x.package, x.resident, x.dueDate)
  }

  function BillKey(b: Bill): Key {
    Key(b.package, b.resident, b.due)
  }

  function InstanceKeys(xs: seq<RecurringInstance>): (r: seq<Key>)
    ensures |r| == |xs|
    ensures forall i :: 0 <= i < |xs| ==> r[i] == InstanceKey(xs[i])
  {
    seq(|xs|, i requires 0 <= i < |xs| => InstanceKey(xs[i]))
  }

  function CountInstanceKey(xs: seq<RecurringInstance>, k: Key): nat {
    multiset(InstanceKeys(xs))[k]
  }

  lemma CountInstanceKeyAppend(xs: seq<RecurringInstance>, x: RecurringInstance, k: Key)
    ensures CountInstanceKey(xs + [x], k) == CountInstanceKey(xs, k) + (if InstanceKey(x) == k then 1 else 0)
  {
    assert InstanceKeys(xs + [x]) == InstanceKeys(xs) + [InstanceKey(x)];
  }

  /** The money the ledger accounts for: wallet balances plus paid payments. */
  function LedgerHoldings(l: Ledger): real {
    Seqs.Sum(l.wallets, (x: ResidentWallet) => x.balance) + Seqs.Sum(l.payments, (x: WalletPayment) => x.amount)
  }

  function InstanceIds(xs: seq<RecurringInstance>): seq<nat> {
    seq(|xs|, i requires 0 <= i < |xs| => xs[i].id)
  }

  /** `RecurringInstance.objects.get_or_create(...)`'s create half. */
  function CreateInstance(l: Ledger, b: Bill): (r: Ledger)
    ensures r.wallets == l.wallets && r.payments == l.payments && r.notices == l.notices
    ensures |r.instances| == |l.instances| + 1 && r.instances[..|l.instances|] == l.instances
    ensures InstanceKey(r.instances[|l.instances|]) == BillKey(b) && r.instances[|l.instances|].status == InstancePending
            && r.instances[|l.instances|].amount == b.amount
    ensures forall k :: CountInstanceKey(r.instances, k) == CountInstanceKey(l.instances, k) + (if k == BillKey(b) then 1 else 0)
  {
    var x := RecurringInstance(NextId(InstanceIds(l.instances)), b.package, b.resident, b.due, b.amount, InstancePending);
    forall k ensures CountInstanceKey(l.instances + [x], k) == CountInstanceKey(l.instances, k) + (if k == BillKey(b) then 1 else 0) {
      CountInstanceKeyAppend(l.instances, x, k);
    }
    assert (l.instances + [x])[..|l.instances|] == l.instances;
    l.(instances := l.instances + [x])
  }

  predicate WalletOf(x: ResidentWallet, resident: nat) {
    x.resident == resident
  }

  /** Settles the new instance at `at` (apps/core/tasks.py:38-75). */
  function SettleInstance(l: Ledger, at: nat, b: Bill): (r: JobOutcome)
    requires at < |l.instances|
    ensures LedgerHoldings(r.l) == LedgerHoldings(l)
    ensures |r.l.instances| == |l.instances| && InstanceKeys(r.l.instances) == InstanceKeys(l.instances)
    ensures forall i :: 0 <= i < |l.instances| && i != at ==> r.l.instances[i] == l.instances[i]
    // a resident with several wallets makes `get` raise
    ensures r.Crashed? <==> Seqs.Find(l.wallets, (x: ResidentWallet) => WalletOf(x, b.resident)).ManyMatches?
    ensures r.Crashed? ==> r.l == l
    // no wallet: the instance stays pending and the resident hears of it
    ensures Seqs.Find(l.wallets, (x: ResidentWallet) => WalletOf(x, b.resident)).NoMatch? ==>
              r == Done(l.(notices := l.notices + [Notice(b.payer, NoWallet)]))
    ensures var m := Seqs.Find(l.wallets, (x: ResidentWallet) => WalletOf(x, b.resident));
            m.OneMatch? ==>
              r.Done? && |r.l.wallets| == |l.wallets|
              && (l.wallets[m.index].balance >= b.amount ==>
                    r.l.wallets[m.index].balance == l.wallets[m.index].balance - b.amount
                    && r.l.payments == l.payments + [WalletPayment(b.resident, l.instances[at].id, b.amount)]
                    && r.l.instances[at].status == InstancePaid
                    && r.l.notices == l.notices + [Notice(b.payer, Debited)])
              // a short balance marks the instance unpaid and leaves the money alone
              && (l.wallets[m.index].balance < b.amount ==>
                    r.l.wallets == l.wallets && r.l.payments == l.payments
                    && r.l.instances[at].status == InstanceUnpaid
                    && r.l.notices == l.notices + [Notice(b.payer, Shortfall)])
    ensures r.Done? ==> |r.l.notices| == |l.notices| + 1
  {
    match Seqs.Find(l.wallets, (x: ResidentWallet) => WalletOf(x, b.resident))
    case NoMatch => Done(l.(notices := l.notices + [Notice(b.payer, NoWallet)]))
    case ManyMatches => Crashed(l)
    case OneMatch(k) =>
      var x := l.instances[at];
      if l.wallets[k].balance >= b.amount then
        var wal := l.wallets[k].(balance := l.wallets[k].balance - b.amount);
        var pay := WalletPayment(b.resident, x.id, b.amount);
        Seqs.SumUpdate(l.wallets, k, wal, (x: ResidentWallet) => x.balance);
        Seqs.SumAppend(l.payments, [pay], (x: WalletPayment) => x.amount);
        assert Seqs.Sum([pay], (x: WalletPayment) => x.amount) == b.amount;
        assert InstanceKeys(l.instances[at := x.(status := InstancePaid)]) == InstanceKeys(l.instances);
        Done(l.(wallets := l.wallets[k := wal], payments := l.payments + [pay],
                instances := l.instances[at := x.(status := InstancePaid)],
                notices := l.notices + [Notice(b.payer, Debited)]))
      else
        assert InstanceKeys(l.instances[at := x.(status := InstanceUnpaid)]) == InstanceKeys(l.instances);
        Done(l.(instances := l.instances[at := x.(status := InstanceUnpaid)],
                notices := l.notices + [Notice(b.payer, Shortfall)]))
  }

  /** One bill: get-or-create, and settle only what was created. */
  function RunBill(l: Ledger, b: Bill): (r: JobOutcome)
    ensures LedgerHoldings(r.l) == LedgerHoldings(l)
    ensures forall k :: CountInstanceKey(r.l.instances, k)
                        == CountInstanceKey(l.instances, k) + (if k == BillKey(b) && CountInstanceKey(l.instances, k) == 0 then 1 else 0)
    ensures CountInstanceKey(l.instances, BillKey(b)) == 1 ==> r == Done(l)
    ensures CountInstanceKey(l.instances, BillKey(b)) >= 2 ==> r == Crashed(l)
    ensures r.Done? ==> |r.l.notices| - |l.notices| == |r.l.instances| - |l.instances|
    ensures |l.instances| <= |r.l.instances|
  {
    var n := CountInstanceKey(l.instances, BillKey(b));
    if n >= 2 then Crashed(l)
    else if n == 1 then Done(l)
    else
      var l1 := CreateInstance(l, b);
      var r := SettleInstance(l1, |l.instances|, b);
      assert forall k :: CountInstanceKey(r.l.instances, k) == CountInstanceKey(l1.instances, k) by {
        assert InstanceKeys(r.l.instances) == InstanceKeys(l1.instances);
      }
      r
  }

  /** Runs the steps in order, stopping at the first exception. */
  function RunBills(l: Ledger, steps: seq<JobStep>): (r: JobOutcome)
    ensures LedgerHoldings(r.l) == LedgerHoldings(l)
    ensures |l.instances| <= |r.l.instances|
    ensures r.Done? ==> forall i :: 0 <= i < |steps| ==> steps[i].Issue?
    // every instance created tells its resident exactly once
    ensures r.Done? ==> |r.l.notices| - |l.notices| == |r.l.instances| - |l.instances|
    decreases |steps|
  {
    if |steps| == 0 then Done(l)
    else
      match steps[0]
      case Crash => Crashed(l)
      case Issue(b) =>
        var o := RunBill(l, b);
        if o.Crashed? then o
        else
          var r := RunBills(o.l, steps[1..]);
          assert r.Done? ==> forall i :: 1 <= i < |steps| ==> steps[i] == steps[1..][i - 1];
          r
  }

  lemma {:induction false} RunBillsKeepsPresentKeys(l: Ledger, steps: seq<JobStep>, k: Key)
    requires CountInstanceKey(l.instances, k) >= 1
    ensures CountInstanceKey(RunBills(l, steps).l.instances, k) == CountInstanceKey(l.instances, k)
    decreases |steps|
  {
    if |steps| > 0 && steps[0].Issue? {
      var o := RunBill(l, steps[0].bill);
      if o.Done? {
        RunBillsKeepsPresentKeys(o.l, steps[1..], k);
      }
    }
  }

  lemma {:induction false} RunBillsLeavesOnePerKey(l: Ledger, steps: seq<JobStep>)
    ensures RunBills(l, steps).Done? ==>
              forall i :: 0 <= i < |steps| ==>
                steps[i].Issue? && CountInstanceKey(RunBills(l, steps).l.instances, BillKey(steps[i].bill)) == 1
    decreases |steps|
  {
    if |steps| > 0 && RunBills(l, steps).Done? {
      var b := steps[0].bill;
      var o := RunBill(l, b);
      assert CountInstanceKey(o.l.instances, BillKey(b)) == 1;
      RunBillsLeavesOnePerKey(o.l, steps[1..]);
      RunBillsKeepsPresentKeys(o.l, steps[1..], BillKey(b));
      forall i | 1 <= i < |steps|
        ensures steps[i].Issue? && CountInstanceKey(RunBills(l, steps).l.instances, BillKey(steps[i].bill)) == 1
      {
        assert steps[i] == steps[1..][i - 1];
      }
    }
  }

  lemma {:induction false} RunBillsFindsEverything(l: Ledger, steps: seq<JobStep>)
    requires forall i :: 0 <= i < |steps| ==> steps[i].Issue? && CountInstanceKey(l.instances, BillKey(steps[i].bill)) == 1
    ensures RunBills(l, steps) == Done(l)
    decreases |steps|
  {
    if |steps| > 0 {
      assert forall i :: 0 <= i < |steps| - 1 ==> steps[1..][i] == steps[i + 1];
      RunBillsFindsEverything(l, steps[1..]);
    }
  }

  /** The generator for a given due-date rule. */
  function Run(cat: JobInputs, l: Ledger, today: Date, rule: DueRule): (r: JobOutcome)
    ensures LedgerHoldings(r.l) == LedgerHoldings(l)
    ensures r.Done? ==> |r.l.notices| - |l.notices| == |r.l.instances| - |l.instances|
    // an active package with residents and no due date stops the run
    ensures (exists pkg :: pkg in cat.packages && RaisesAt(cat, today, rule, pkg)) ==> r.Crashed?
  {
    var steps := PlanBills(cat, today, rule);
    assert (exists pkg :: pkg in cat.packages && RaisesAt(cat, today, rule, pkg)) ==> Crash in steps;
    RunBills(l, steps)
  }

  /** A run that finished has billed every resident of every active
      package's building: exactly one instance carries the resident's key
      for the month. */
  lemma RunBillsEveryResident(cat: JobInputs, l: Ledger, today: Date, rule: DueRule, pkg: RecurringPackage, p: ResidentProfile)
    requires pkg in cat.packages && OwesShare(cat, today, rule, pkg, p)
    ensures Run(cat, l, today, rule).Done? ==>
              CountInstanceKey(Run(cat, l, today, rule).l.instances, Key(pkg.id, p.id, DueDate(rule, today, pkg.dueDay).value)) == 1
  {
    var steps := PlanBills(cat, today, rule);
    var b := ShareBill(cat, pkg, p, DueDate(rule, today, pkg.dueDay).value);
    if RunBills(l, steps).Done? {
      var i :| 0 <= i < |steps| && steps[i] == Issue(b);
      RunBillsLeavesOnePerKey(l, steps);
      assert BillKey(steps[i].bill) == Key(pkg.id, p.id, DueDate(rule, today, pkg.dueDay).value);
    }
  }

  /** A second run in the same month issues nothing, moves no money and
      tells no one (apps/core/tasks.py:31-38). */
  lemma RunIsIdempotent(cat: JobInputs, l: Ledger, today: Date, rule: DueRule)
    ensures Run(cat, l, today, rule).Done? ==>
              Run(cat, Run(cat, l, today, rule).l, today, rule) == Done(Run(cat, l, today, rule).l)
  {
    var steps := PlanBills(cat, today, rule);
    if RunBills(l, steps).Done? {
      RunBillsLeavesOnePerKey(l, steps);
      RunBillsFindsEverything(RunBills(l, steps).l, steps);
    }
  }

  lemma ClampedPackageNeverRaises(cat: JobInputs, pkg: RecurringPackage, today: Date)
    requires ValidDate(today) && pkg.dueDay >= 1
    ensures forall i :: 0 <= i < |PackageSteps(cat, pkg, today, Clamped)| ==> PackageSteps(cat, pkg, today, Clamped)[i].Issue?
  {
    var rs := ProfilesInBuilding(cat.units, cat.profiles, pkg.building);
    if |rs| >= 1 {
      var d := DueDate(Clamped, today, pkg.dueDay);
      assert d.Some?;
      assert PackageSteps(cat, pkg, today, Clamped) == ResidentBills(pkg, rs, d.value);
    }
  }

  lemma {:induction false} ClampedPackagesNeverRaise(cat: JobInputs, pkgs: seq<RecurringPackage>, today: Date)
    requires forall p :: p in pkgs ==> p in cat.packages
    requires ValidDate(today)
    requires forall p :: p in pkgs ==> p.dueDay >= 1
    ensures forall i :: 0 <= i < |PlanPackageBills(cat, pkgs, today, Clamped)| ==> PlanPackageBills(cat, pkgs, today, Clamped)[i].Issue?
  {
    if |pkgs| > 0 {
      var pkg := pkgs[0];
      ClampedPackagesNeverRaise(cat, pkgs[1..], today);
      ClampedPackageNeverRaises(cat, pkg, today);
      var head: seq<JobStep> := if pkg.isActive then PackageSteps(cat, pkg, today, Clamped) else [];
      var tail := PlanPackageBills(cat, pkgs[1..], today, Clamped);
      assert PlanPackageBills(cat, pkgs, today, Clamped) == head + tail;
      forall i | 0 <= i < |head + tail| ensures (head + tail)[i].Issue? {
        if i >= |head| {
          assert (head + tail)[i] == tail[i - |head|];
        }
      }
    }
  }

  /** With the clamped date no step raises: for a valid `today` and packages
      whose due day is at least 1, the plan holds no `Crash`. */
  lemma ClampedPlanNeverRaises(cat: JobInputs, today: Date)
    requires ValidDate(today)
    requires forall p :: p in cat.packages ==> p.dueDay >= 1
    ensures forall i :: 0 <= i < |PlanBills(cat, today, Clamped)| ==> PlanBills(cat, today, Clamped)[i].Issue?
  {
    ClampedPackagesNeverRaise(cat, cat.packages, today);
  }

  /** As written, a package due on the 30th in a February stops the run at
      its first resident: nothing is issued for it or for any package after
      it. */
  lemma UnclampedDayRaisesInFebruary()
    ensures var u := Unit(1, 7, 0, "1", None, UnitOccupied);
            var p := NewProfile(3, 4, Some(1), Owner);
            var pkg := RecurringPackage(5, 7, "Water", 300.0, 30, true);
            var cat := JobInputs([pkg], [u], [p]);
            var l := Ledger([], [], [], []);
            Run(cat, l, Date(2025, 2, 10), AsWritten) == Crashed(l)
            && Run(cat, l, Date(2025, 2, 10), Clamped).Done?
            && |Run(cat, l, Date(2025, 2, 10), Clamped).l.instances| == 1
  {
    var u := Unit(1, 7, 0, "1", None, UnitOccupied);
    var p := NewProfile(3, 4, Some(1), Owner);
    var pkg := RecurringPackage(5, 7, "Water", 300.0, 30, true);
    var cat := JobInputs([pkg], [u], [p]);
    var rs := ProfilesInBuilding(cat.units, cat.profiles, 7);
    assert InBuilding(cat.units, p, 7);
    assert rs == [p];
    assert !ValidDate(Date(2025, 2, 30));
    assert cat.packages[1..] == [];
    assert PlanBills(cat, Date(2025, 2, 10), AsWritten) == PlanPackageBills(cat, [pkg], Date(2025, 2, 10), AsWritten);
    assert PlanBills(cat, Date(2025, 2, 10), Clamped) == PlanPackageBills(cat, [pkg], Date(2025, 2, 10), Clamped);
    assert PlanPackageBills(cat, [], Date(2025, 2, 10), AsWritten) == [];
    assert PlanPackageBills(cat, [], Date(2025, 2, 10), Clamped) == [];
    assert PackageSteps(cat, pkg, Date(2025, 2, 10), AsWritten) == [Crash];
    assert PlanBills(cat, Date(2025, 2, 10), AsWritten) == [Crash] + [];
    var d := Date(2025, 2, 28);
    assert ValidDate(d);
    assert PackageSteps(cat, pkg, Date(2025, 2, 10), Clamped) == [Issue(Bill(5, 3, 4, 300.0, d))];
    assert PlanBills(cat, Date(2025, 2, 10), Clamped) == [Issue(Bill(5, 3, 4, 300.0, d))] + [];
  }
}
