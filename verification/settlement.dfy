/** Wallet settlement of one freshly created package invoice, shared by the
    monthly generator (apps/packages/tasks.py:63-99) and the creation hook
    (apps/packages/signals.py:60-94): look up the payer's `('user', id)`
    wallet, debit it when the balance covers the amount, and tell the payer
    what happened. */
module Settlement {
  import opened Wrappers
  import opened Calendar
  import opened Domain
  import Seqs

  /** The result of a step that may raise: `Crashed` keeps the effects made
      before the exception, because every write commits on its own. */
  datatype Outcome = Done(w: World) | Crashed(w: World)

  predicate IsUserWallet(wal: Wallet, user: nat) {
    wal.ownerType == UserOwner && wal.ownerId == user
  }

  /** The positions of the wallets keyed `('user', user)`, in id order. */
  function UserWalletPositions(ws: seq<Wallet>, user: nat): (r: seq<nat>)
    ensures forall k :: k in r <==> 0 <= k < |ws| && IsUserWallet(ws[k], user)
    ensures forall a, b :: 0 <= a < b < |r| ==> r[a] < r[b]
    ensures forall a :: 0 <= a < |r| ==> r[a] < |ws|
  {
    if |ws| == 0 then []
    else
      var front := UserWalletPositions(ws[..|ws| - 1], user);
      assert forall k :: 0 <= k < |ws| - 1 ==> ws[..|ws| - 1][k] == ws[k];
      front + (if IsUserWallet(ws[|ws| - 1], user) then [|ws| - 1] else [])
  }

  /** What `Wallet.objects.get(owner_type='user', owner_id=user)` does:
      raise DoesNotExist, return the one row, or raise
      MultipleObjectsReturned. Nothing enforces one wallet per key, so all
      three happen. */
  datatype WalletLookup = Missing | Unique(index: nat) | Duplicated

  function FindUserWallet(ws: seq<Wallet>, user: nat): (r: WalletLookup)
    ensures r.Missing? <==> forall k :: 0 <= k < |ws| ==> !IsUserWallet(ws[k], user)
    ensures r.Unique? ==> r.index < |ws| && IsUserWallet(ws[r.index], user)
                          && forall k :: 0 <= k < |ws| && k != r.index ==> !IsUserWallet(ws[k], user)
    ensures r.Duplicated? <==> exists a, b :: 0 <= a < b < |ws| && IsUserWallet(ws[a], user) && IsUserWallet(ws[b], user)
  {
    var m := UserWalletPositions(ws, user);
    NoPositions(ws, user);
    TwoPositions(ws, user);
    if |m| == 0 then Missing
    else if |m| == 1 then
      OnePosition(ws, user);
      Unique(m[0])
    else Duplicated
  }

  lemma NoPositions(ws: seq<Wallet>, user: nat)
    ensures |UserWalletPositions(ws, user)| == 0 <==> forall k :: 0 <= k < |ws| ==> !IsUserWallet(ws[k], user)
  {
    Seqs.FirstIsMember(UserWalletPositions(ws, user));
  }

  lemma OnePosition(ws: seq<Wallet>, user: nat)
    requires |UserWalletPositions(ws, user)| == 1
    ensures var m := UserWalletPositions(ws, user);
            m[0] < |ws| && IsUserWallet(ws[m[0]], user)
            && forall k :: 0 <= k < |ws| && k != m[0] ==> !IsUserWallet(ws[k], user)
  {
    var m := UserWalletPositions(ws, user);
    assert m[0] in m;
    forall k | 0 <= k < |ws| && IsUserWallet(ws[k], user) ensures k == m[0] {
      assert k in m;
    }
  }

  lemma TwoPositions(ws: seq<Wallet>, user: nat)
    ensures |UserWalletPositions(ws, user)| >= 2
            <==> exists a, b :: 0 <= a < b < |ws| && IsUserWallet(ws[a], user) && IsUserWallet(ws[b], user)
  {
    var m := UserWalletPositions(ws, user);
    if |m| >= 2 {
      assert m[0] in m && m[1] in m;
      assert m[0] < m[1];
    }
    forall a, b | 0 <= a < b < |ws| && IsUserWallet(ws[a], user) && IsUserWallet(ws[b], user) ensures |m| >= 2 {
      assert a in m && b in m;
      var i :| 0 <= i < |m| && m[i] == a;
      var j :| 0 <= j < |m| && m[j] == b;
      assert i != j;
    }
  }

  /** `Transaction.objects.filter(wallet=wallet).last()`: the id of the
      newest transaction of the wallet. */
  function LastOfWallet(ts: seq<Transaction>, wallet: nat): (r: Option<nat>)
    ensures r.Some? ==> exists t :: t in ts && t.wallet == wallet && t.id == r.value
    ensures r.None? ==> forall t :: t in ts ==> t.wallet != wallet
  {
    if |ts| == 0 then None
    else if ts[|ts| - 1].wallet == wallet then Some(ts[|ts| - 1].id)
    else
      var r := LastOfWallet(ts[..|ts| - 1], wallet);
      assert forall t :: t in ts ==> t in ts[..|ts| - 1] || t == ts[|ts| - 1];
      r
  }

  /** The money the ledger accounts for: every wallet balance plus every
      completed transaction. A debit moves an amount from the first part to
      the second. */
  function Balances(ws: seq<Wallet>): real {
    Seqs.Sum(ws, (x: Wallet) => x.currentBalance)
  }

  function CompletedAmount(t: Transaction): real {
    if t.status == Completed then t.amount else 0.0
  }

  function Settled(ts: seq<Transaction>): real {
    Seqs.Sum(ts, CompletedAmount)
  }

  function Holdings(w: World): real {
    Balances(w.wallets) + Settled(w.transactions)
  }

  /** Only the ledger tables may differ. */
  predicate SameCatalog(a: World, b: World) {
    a.users == b.users && a.roles == b.roles && a.userRoles == b.userRoles
    && a.buildings == b.buildings && a.units == b.units && a.profiles == b.profiles
    && a.packages == b.packages && a.links == b.links && a.maintenance == b.maintenance
    && a.listings == b.listings && a.resetCodes == b.resetCodes
  }

  /** The identifying columns of a package invoice; settlement never changes
      them. */
  datatype InvoiceKey = InvoiceKey(package: nat, building: nat, resident: Option<nat>, dueDate: Date)

  function KeyOf(inv: PackageInvoice): InvoiceKey {
    InvoiceKey(inv.package, inv.building, inv.resident, inv.dueDate)
  }

  function KeysOf(invs: seq<PackageInvoice>): (r: seq<InvoiceKey>)
    ensures |r| == |invs|
    ensures forall i :: 0 <= i < |invs| ==> r[i] == KeyOf(invs[i])
  {
    seq(|invs|, i requires 0 <= i < |invs| => KeyOf(invs[i]))
  }

  /** Every row of `a` is still at its place in `b`, with its key and amount;
      `b` may hold more rows after them. */
  predicate KeepsRows(a: seq<PackageInvoice>, b: seq<PackageInvoice>) {
    |a| <= |b| && forall j :: 0 <= j < |a| ==> KeyOf(b[j]) == KeyOf(a[j]) && b[j].amount == a[j].amount
  }

  /** Some invoice carries the key `k` and the amount `amount`. */
  predicate HasInvoice(invs: seq<PackageInvoice>, k: InvoiceKey, amount: real) {
    exists j :: 0 <= j < |invs| && KeyOf(invs[j]) == k && invs[j].amount == amount
  }

  /** The debit itself: the wallet at `k` pays `amount` for the invoice at
      `at`, which records the new transaction. */
  function Debit(w: World, at: nat, k: nat, payer: nat, amount: real, now: Instant): (r: World)
    requires at < |w.invoices| && k < |w.wallets|
    ensures SameCatalog(w, r)
    ensures |r.wallets| == |w.wallets| && r.wallets[k].currentBalance == w.wallets[k].currentBalance - amount
    ensures forall j :: 0 <= j < |w.wallets| && j != k ==> r.wallets[j] == w.wallets[j]
    ensures r.wallets[k].id == w.wallets[k].id && r.wallets[k].ownerType == w.wallets[k].ownerType
            && r.wallets[k].ownerId == w.wallets[k].ownerId
    ensures |r.transactions| == |w.transactions| + 1 && r.transactions[..|w.transactions|] == w.transactions
    ensures var t := r.transactions[|w.transactions|];
            t.wallet == w.wallets[k].id && t.amount == amount && t.status == Completed && t.via == "wallet"
            && t.invoice.None? && t.createdAt == now
            && forall prior :: prior in w.transactions ==> prior.id < t.id
    ensures |r.invoices| == |w.invoices| && KeysOf(r.invoices) == KeysOf(w.invoices)
    ensures forall i :: 0 <= i < |w.invoices| && i != at ==> r.invoices[i] == w.invoices[i]
    ensures forall i :: 0 <= i < |w.invoices| ==> r.invoices[i].amount == w.invoices[i].amount
    ensures r.invoices[at].status == InvoicePaid && r.invoices[at].paymentMethod == Some(WalletMethod)
            && r.invoices[at].amount == w.invoices[at].amount
            && r.invoices[at].transaction == Some(r.transactions[|w.transactions|].id)
    ensures r.notices == w.notices + [Notice(payer, Debited)]
    ensures Holdings(r) == Holdings(w)
  {
    var wal := w.wallets[k];
    var tid := NextId(TransactionIds(w.transactions));
    var t := Transaction(tid, wal.id, None, amount, "wallet", Completed, now);
    var ts := w.transactions + [t];
    var inv := w.invoices[at].(status := InvoicePaid, paymentMethod := Some(WalletMethod),
                               transaction := LastOfWallet(ts, wal.id));
    var ws := w.wallets[k := wal.(currentBalance := wal.currentBalance - amount)];
    Seqs.SumUpdate(w.wallets, k, wal.(currentBalance := wal.currentBalance - amount), (x: Wallet) => x.currentBalance);
    Seqs.SumAppend(w.transactions, [t], CompletedAmount);
    assert Seqs.Sum([t], CompletedAmount) == amount;
    assert forall prior :: prior in w.transactions ==> prior.id < tid by {
      forall prior | prior in w.transactions ensures prior.id < tid {
        var i :| 0 <= i < |w.transactions| && w.transactions[i] == prior;
        assert TransactionIds(w.transactions)[i] == prior.id;
      }
    }
    assert KeysOf(w.invoices[at := inv]) == KeysOf(w.invoices);
    w.(wallets := ws, transactions := ts, invoices := w.invoices[at := inv],
       notices := w.notices + [Notice(payer, Debited)])
  }

  /** Settles the invoice at `at` for `payer` (apps/packages/tasks.py:65-99,
      apps/packages/signals.py:60-94). */
  function Settle(w: World, at: nat, payer: nat, amount: real, now: Instant): (r: Outcome)
    requires at < |w.invoices|
    ensures SameCatalog(w, r.w)
    ensures Holdings(r.w) == Holdings(w)
    ensures |r.w.invoices| == |w.invoices| && KeysOf(r.w.invoices) == KeysOf(w.invoices)
    // settling changes a status, never what is owed
    ensures forall i :: 0 <= i < |w.invoices| ==> r.w.invoices[i].amount == w.invoices[i].amount
    ensures r.Crashed? <==> FindUserWallet(w.wallets, payer).Duplicated?
    ensures r.Crashed? ==> r.w == w
    // A missing wallet or a short balance tells the payer and changes nothing else.
    ensures FindUserWallet(w.wallets, payer).Missing? ==>
              r == Done(w.(notices := w.notices + [Notice(payer, NoWallet)]))
    ensures var l := FindUserWallet(w.wallets, payer);
            l.Unique? && w.wallets[l.index].currentBalance < amount ==>
              r == Done(w.(notices := w.notices + [Notice(payer, Shortfall)]))
    // A covering balance drops by exactly the amount, and the invoice is paid.
    ensures var l := FindUserWallet(w.wallets, payer);
            l.Unique? && w.wallets[l.index].currentBalance >= amount ==>
              r.Done? && |r.w.wallets| == |w.wallets|
              && r.w.wallets[l.index].currentBalance == w.wallets[l.index].currentBalance - amount
              && r.w.invoices[at].status == InvoicePaid
              && r.w.invoices[at].paymentMethod == Some(WalletMethod)
              && |r.w.transactions| == |w.transactions| + 1
              && r.w.invoices[at].transaction == Some(r.w.transactions[|w.transactions|].id)
              && r.w.notices == w.notices + [Notice(payer, Debited)]
    // Whatever happens, the payer hears about it exactly once.
    ensures r.Done? ==> |r.w.notices| == |w.notices| + 1 && r.w.notices[|w.notices|].recipient == payer
  {
    match FindUserWallet(w.wallets, payer)
    case Missing => Done(w.(notices := w.notices + [Notice(payer, NoWallet)]))
    case Duplicated => Crashed(w)
    case Unique(k) =>
      if w.wallets[k].currentBalance >= amount then Done(Debit(w, at, k, payer, amount, now))
      else Done(w.(notices := w.notices + [Notice(payer, Shortfall)]))
  }
}
