/** The invoice-issuing loop both package billers share. A biller first
    decides, from the catalog alone, which invoices to issue (a sequence of
    steps); this module then issues them one by one against the ledger,
    settling each new invoice from the payer's wallet where the biller asks
    for it. An exception in a step ends the run and keeps everything written
    before it. */
module Invoicing {
  import opened Wrappers
  import opened Calendar
  import opened Domain
  import opened Settlement
  import Seqs

  /** How a biller issues an invoice: the monthly generator get-or-creates
      and settles only what it created; the creation hook always creates and
      settles only recurring packages. */
  datatype Mode = GetOrCreate | CreateAndSettle | CreateOnly

  datatype Charge = Charge(
    package: nat,
    building: nat,
    resident: nat,
    payer: nat,
    amount: real,
    dueDate: Date,
    mode: Mode)

  /** One planned action: issue a charge, or raise (a missing detail row, an
      impossible date). */
  datatype Step = Bill(charge: Charge) | Crash

  function ChargeKey(c: Charge): InvoiceKey {
    InvoiceKey(c.package, c.building, Some(c.resident), c.dueDate)
  }

  /** How many invoices carry the key `k`. */
  function CountKey(invs: seq<PackageInvoice>, k: InvoiceKey): nat {
    multiset(KeysOf(invs))[k]
  }

  lemma CountKeyAppend(invs: seq<PackageInvoice>, x: PackageInvoice, k: InvoiceKey)
    ensures CountKey(invs + [x], k) == CountKey(invs, k) + (if KeyOf(x) == k then 1 else 0)
  {
    assert KeysOf(invs + [x]) == KeysOf(invs) + [KeyOf(x)];
  }

  /** `PackageInvoice.objects.create(...)` with the default status. */
  function CreateInvoice(w: World, c: Charge): (r: World)
    ensures SameCatalog(w, r)
    ensures r.wallets == w.wallets && r.transactions == w.transactions && r.notices == w.notices
    ensures |r.invoices| == |w.invoices| + 1 && r.invoices[..|w.invoices|] == w.invoices
    ensures var inv := r.invoices[|w.invoices|];
            KeyOf(inv) == ChargeKey(c) && inv.amount == c.amount && inv.status == InvoicePending
            && inv.paymentMethod.None? && inv.transaction.None?
    ensures forall k :: CountKey(r.invoices, k) == CountKey(w.invoices, k) + (if k == ChargeKey(c) then 1 else 0)
  {
    var id := NextId(InvoiceIds(w.invoices));
    var inv := PackageInvoice(id, c.package, c.building, Some(c.resident), c.amount, c.dueDate,
                              InvoicePending, None, None);
    forall k ensures CountKey(w.invoices + [inv], k) == CountKey(w.invoices, k) + (if k == ChargeKey(c) then 1 else 0) {
      CountKeyAppend(w.invoices, inv, k);
    }
    assert (w.invoices + [inv])[..|w.invoices|] == w.invoices;
    w.(invoices := w.invoices + [inv])
  }

  /** Whether issuing `c` against `invs` writes a new invoice. */
  predicate Creates(invs: seq<PackageInvoice>, c: Charge) {
    c.mode != GetOrCreate || CountKey(invs, ChargeKey(c)) == 0
  }

  /** Creates the invoice for `c` and settles it from the payer's wallet. */
  function IssueAndSettle(w: World, c: Charge, now: Instant): (r: Outcome)
    ensures SameCatalog(w, r.w)
    ensures Holdings(r.w) == Holdings(w)
    ensures forall k :: CountKey(r.w.invoices, k) == CountKey(w.invoices, k) + (if k == ChargeKey(c) then 1 else 0)
    ensures |r.w.invoices| == |w.invoices| + 1
    ensures KeepsRows(w.invoices, r.w.invoices)
    ensures KeyOf(r.w.invoices[|w.invoices|]) == ChargeKey(c) && r.w.invoices[|w.invoices|].amount == c.amount
    ensures r.Done? ==> |r.w.notices| == |w.notices| + 1
  {
    var w1 := CreateInvoice(w, c);
    var r := Settle(w1, |w.invoices|, c.payer, c.amount, now);
    assert forall k :: CountKey(r.w.invoices, k) == CountKey(w1.invoices, k) by {
      assert KeysOf(r.w.invoices) == KeysOf(w1.invoices);
    }
    r
  }

  /** Issues one charge. */
  function ExecCharge(w: World, c: Charge, now: Instant): (r: Outcome)
    ensures SameCatalog(w, r.w)
    ensures Holdings(r.w) == Holdings(w)
    ensures forall k :: CountKey(r.w.invoices, k)
                        == CountKey(w.invoices, k) + (if k == ChargeKey(c) && Creates(w.invoices, c) then 1 else 0)
    ensures |r.w.invoices| == |w.invoices| + (if Creates(w.invoices, c) then 1 else 0)
    // the earlier invoices keep their key and amount; a new one is the charge's
    ensures KeepsRows(w.invoices, r.w.invoices)
    ensures Creates(w.invoices, c) ==>
              KeyOf(r.w.invoices[|w.invoices|]) == ChargeKey(c) && r.w.invoices[|w.invoices|].amount == c.amount
    // get-or-create finds the existing invoice and does nothing else
    ensures c.mode == GetOrCreate && CountKey(w.invoices, ChargeKey(c)) == 1 ==> r == Done(w)
    ensures c.mode == GetOrCreate && CountKey(w.invoices, ChargeKey(c)) >= 2 ==> r == Crashed(w)
    // an unsettled invoice moves no money and tells no one
    ensures c.mode == CreateOnly ==> r.Done? && r.w.wallets == w.wallets
                                     && r.w.transactions == w.transactions && r.w.notices == w.notices
    // a settled new invoice tells its payer exactly once
    ensures r.Done? && c.mode != CreateOnly ==>
              |r.w.notices| == |w.notices| + (if Creates(w.invoices, c) then 1 else 0)
  {
    match c.mode
    case GetOrCreate =>
      var n := CountKey(w.invoices, ChargeKey(c));
      if n >= 2 then Crashed(w)
      else if n == 1 then Done(w)
      else IssueAndSettle(w, c, now)
    case CreateAndSettle =>
      IssueAndSettle(w, c, now)
    case CreateOnly =>
      Done(CreateInvoice(w, c))
  }

  predicate AllMode(steps: seq<Step>, m: Mode) {
    forall i :: 0 <= i < |steps| ==> steps[i].Bill? ==> steps[i].charge.mode == m
  }

  /** Runs the steps in order, stopping at the first exception. */
  function Exec(w: World, steps: seq<Step>, now: Instant): (r: Outcome)
    ensures SameCatalog(w, r.w)
    ensures Holdings(r.w) == Holdings(w)
    ensures KeepsRows(w.invoices, r.w.invoices)
    ensures r.Done? ==> forall i :: 0 <= i < |steps| ==> steps[i].Bill?
    ensures AllMode(steps, CreateOnly) ==>
              r.w.wallets == w.wallets && r.w.transactions == w.transactions && r.w.notices == w.notices
    ensures r.Done? && (AllMode(steps, GetOrCreate) || AllMode(steps, CreateAndSettle)) ==>
              |r.w.notices| - |w.notices| == |r.w.invoices| - |w.invoices|
    ensures r.Done? && (AllMode(steps, CreateOnly) || AllMode(steps, CreateAndSettle)) ==>
              |r.w.invoices| == |w.invoices| + |steps|
    decreases |steps|
  {
    if |steps| == 0 then Done(w)
    else
      match steps[0]
      case Crash => Crashed(w)
      case Bill(c) =>
        var o := ExecCharge(w, c, now);
        if o.Crashed? then o
        else
          var r := Exec(o.w, steps[1..], now);
          TailSteps(steps);
          r
  }

  /** What holds of every step holds of the steps after the first, and back. */
  lemma TailSteps(steps: seq<Step>)
    requires |steps| > 0 && steps[0].Bill?
    ensures forall m :: AllMode(steps, m) ==> AllMode(steps[1..], m)
    ensures (forall i :: 0 <= i < |steps[1..]| ==> steps[1..][i].Bill?) ==> forall i :: 0 <= i < |steps| ==> steps[i].Bill?
  {
    assert forall i :: 1 <= i < |steps| ==> steps[i] == steps[1..][i - 1];
  }

  /** A key that is already present is never issued again by get-or-create
      steps. */
  lemma {:induction false} ExecKeepsPresentKeys(w: World, steps: seq<Step>, now: Instant, k: InvoiceKey)
    requires AllMode(steps, GetOrCreate)
    requires CountKey(w.invoices, k) >= 1
    ensures CountKey(Exec(w, steps, now).w.invoices, k) == CountKey(w.invoices, k)
    decreases |steps|
  {
    if |steps| > 0 && steps[0].Bill? {
      var o := ExecCharge(w, steps[0].charge, now);
      if o.Done? {
        assert AllMode(steps[1..], GetOrCreate);
        ExecKeepsPresentKeys(o.w, steps[1..], now, k);
      }
    }
  }

  /** After a get-or-create run that finished, every charge of the run has
      exactly one invoice: one per (package, building, resident, due date),
      however many units or steps named that key. */
  lemma {:induction false} ExecLeavesOneInvoicePerKey(w: World, steps: seq<Step>, now: Instant)
    requires AllMode(steps, GetOrCreate)
    requires Exec(w, steps, now).Done?
    ensures forall i :: 0 <= i < |steps| ==>
              steps[i].Bill? && CountKey(Exec(w, steps, now).w.invoices, ChargeKey(steps[i].charge)) == 1
    decreases |steps|
  {
    if |steps| > 0 {
      var w1 := ExecFirstStep(w, steps, now);
      var last := Exec(w1, steps[1..], now).w;
      ExecLeavesOneInvoicePerKey(w1, steps[1..], now);
      ExecKeepsPresentKeys(w1, steps[1..], now, ChargeKey(steps[0].charge));
      OncePerKeyCons(steps, last.invoices);
    }
  }

  /** One invoice for the first charge and one for each later charge is one
      for every charge. */
  lemma OncePerKeyCons(steps: seq<Step>, invs: seq<PackageInvoice>)
    requires |steps| > 0 && steps[0].Bill? && CountKey(invs, ChargeKey(steps[0].charge)) == 1
    requires forall i :: 0 <= i < |steps[1..]| ==>
               steps[1..][i].Bill? && CountKey(invs, ChargeKey(steps[1..][i].charge)) == 1
    ensures forall i :: 0 <= i < |steps| ==> steps[i].Bill? && CountKey(invs, ChargeKey(steps[i].charge)) == 1
  {
    forall i | 1 <= i < |steps|
      ensures steps[i].Bill? && CountKey(invs, ChargeKey(steps[i].charge)) == 1
    {
      assert steps[i] == steps[1..][i - 1];
    }
  }

  /** The first step of a finished get-or-create run leaves its key present
      once, and the run goes on from there. */
  lemma ExecFirstStep(w: World, steps: seq<Step>, now: Instant) returns (w1: World)
    requires |steps| > 0 && AllMode(steps, GetOrCreate)
    requires Exec(w, steps, now).Done?
    ensures steps[0].Bill? && Exec(w, steps, now) == Exec(w1, steps[1..], now)
    ensures CountKey(w1.invoices, ChargeKey(steps[0].charge)) == 1
    ensures AllMode(steps[1..], GetOrCreate)
  {
    assert steps[0].Bill?;
    var o := ExecCharge(w, steps[0].charge, now);
    w1 := o.w;
    assert AllMode(steps[1..], GetOrCreate);
  }

  /** A get-or-create run whose every key is present once changes nothing. */
  lemma {:induction false} ExecFindsEverything(w: World, steps: seq<Step>, now: Instant)
    requires AllMode(steps, GetOrCreate)
    requires forall i :: 0 <= i < |steps| ==> steps[i].Bill? && CountKey(w.invoices, ChargeKey(steps[i].charge)) == 1
    ensures Exec(w, steps, now) == Done(w)
    decreases |steps|
  {
    if |steps| > 0 {
      assert AllMode(steps[1..], GetOrCreate);
      assert forall i :: 0 <= i < |steps| - 1 ==> steps[1..][i] == steps[i + 1];
      ExecFindsEverything(w, steps[1..], now);
    }
  }

  /** Running the same get-or-create steps twice: the second run, at any
      later instant, writes nothing, moves no money and notifies no one. */
  lemma ExecIsIdempotent(w: World, steps: seq<Step>, now: Instant, later: Instant)
    requires AllMode(steps, GetOrCreate)
    requires Exec(w, steps, now).Done?
    ensures Exec(Exec(w, steps, now).w, steps, later) == Done(Exec(w, steps, now).w)
  {
    ExecLeavesOneInvoicePerKey(w, steps, now);
    ExecFindsEverything(Exec(w, steps, now).w, steps, later);
  }

  /** A run of creating steps that finished leaves an invoice for every
      charge, with the charge's key and amount. */
  lemma {:induction false} ExecRecordsEveryCharge(w: World, steps: seq<Step>, now: Instant)
    requires AllMode(steps, CreateAndSettle) || AllMode(steps, CreateOnly)
    ensures Exec(w, steps, now).Done? ==>
              forall i :: 0 <= i < |steps| ==>
                steps[i].Bill? && HasInvoice(Exec(w, steps, now).w.invoices, ChargeKey(steps[i].charge), steps[i].charge.amount)
    decreases |steps|
  {
    if |steps| > 0 && Exec(w, steps, now).Done? {
      var c := steps[0].charge;
      var o := ExecCharge(w, c, now);
      var r := Exec(o.w, steps[1..], now);
      TailSteps(steps);
      ExecRecordsEveryCharge(o.w, steps[1..], now);
      assert KeyOf(r.w.invoices[|w.invoices|]) == ChargeKey(c) && r.w.invoices[|w.invoices|].amount == c.amount;
      RecordedCons(steps, r.w.invoices);
    }
  }

  /** An invoice for the first charge and one for each later charge is one
      for every charge. */
  lemma RecordedCons(steps: seq<Step>, invs: seq<PackageInvoice>)
    requires |steps| > 0 && steps[0].Bill? && HasInvoice(invs, ChargeKey(steps[0].charge), steps[0].charge.amount)
    requires forall i :: 0 <= i < |steps[1..]| ==>
               steps[1..][i].Bill? && HasInvoice(invs, ChargeKey(steps[1..][i].charge), steps[1..][i].charge.amount)
    ensures forall i :: 0 <= i < |steps| ==>
              steps[i].Bill? && HasInvoice(invs, ChargeKey(steps[i].charge), steps[i].charge.amount)
  {
    forall i | 1 <= i < |steps|
      ensures steps[i].Bill? && HasInvoice(invs, ChargeKey(steps[i].charge), steps[i].charge.amount)
    {
      assert steps[i] == steps[1..][i - 1];
    }
  }

  /** A get-or-create run that finished, for a key no invoice carried before
      and that every charge of the run prices alike, leaves an invoice with
      that key at that price. */
  lemma {:induction false} ExecIssuesNewKeyAtItsAmount(w: World, steps: seq<Step>, now: Instant, k: InvoiceKey, amount: real, at: nat)
    requires AllMode(steps, GetOrCreate)
    requires CountKey(w.invoices, k) == 0
    requires forall i :: 0 <= i < |steps| && steps[i].Bill? && ChargeKey(steps[i].charge) == k ==> steps[i].charge.amount == amount
    requires at < |steps| && steps[at].Bill? && ChargeKey(steps[at].charge) == k
    ensures Exec(w, steps, now).Done? ==> HasInvoice(Exec(w, steps, now).w.invoices, k, amount)
    decreases |steps|
  {
    if Exec(w, steps, now).Done? {
      var c := steps[0].charge;
      var o := ExecCharge(w, c, now);
      var r := Exec(o.w, steps[1..], now);
      TailSteps(steps);
      assert o.Done? && r == Exec(w, steps, now);
      if ChargeKey(c) == k {
        assert Creates(w.invoices, c);
        assert KeyOf(r.w.invoices[|w.invoices|]) == k && r.w.invoices[|w.invoices|].amount == amount;
      } else {
        assert CountKey(o.w.invoices, k) == 0;
        assert ChargeKey(steps[0].charge) != k;
        assert at != 0;
        assert steps[1..][at - 1] == steps[at];
        PricedAlikeInTail(steps, k, amount);
        ExecIssuesNewKeyAtItsAmount(o.w, steps[1..], now, k, amount, at - 1);
      }
    }
  }

  lemma PricedAlikeInTail(steps: seq<Step>, k: InvoiceKey, amount: real)
    requires |steps| > 0
    requires forall i :: 0 <= i < |steps| && steps[i].Bill? && ChargeKey(steps[i].charge) == k ==> steps[i].charge.amount == amount
    ensures forall i :: 0 <= i < |steps[1..]| && steps[1..][i].Bill? && ChargeKey(steps[1..][i].charge) == k ==>
              steps[1..][i].charge.amount == amount
  {
    assert forall i :: 0 <= i < |steps[1..]| ==> steps[1..][i] == steps[i + 1];
  }

  /** The amounts a run would charge. */
  function BillTotal(steps: seq<Step>): real {
    if |steps| == 0 then 0.0
    else (if steps[0].Bill? then steps[0].charge.amount else 0.0) + BillTotal(steps[1..])
  }

  function BillCount(steps: seq<Step>): nat {
    if |steps| == 0 then 0 else (if steps[0].Bill? then 1 else 0) + BillCount(steps[1..])
  }

  lemma {:induction false} BillsAppend(a: seq<Step>, b: seq<Step>)
    ensures BillTotal(a + b) == BillTotal(a) + BillTotal(b)
    ensures BillCount(a + b) == BillCount(a) + BillCount(b)
  {
    if |a| == 0 {
      assert a + b == b;
    } else {
      assert (a + b)[1..] == a[1..] + b;
      BillsAppend(a[1..], b);
    }
  }
}
