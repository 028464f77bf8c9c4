/**
 Monthly invoices: the generator pass, paying and verifying, and what every run of them keeps.

 Invoice ids are positions in the sequence of rows; rows are never removed by these steps.
 Lists are complete, and months stand for the year-month of `period_start`.
 */
module Invoicing {
  import opened Sequences
  import opened Wrappers

  datatype Status = Draft | Pending | Paid | Failed

  datatype LineItem = LineItem(deployment: string, name: string, template: string, cents: int)

  datatype Invoice = Invoice(user: int, month: string, items: seq<LineItem>, subtotal: int, total: int,
                             status: Status, session: Option<string>)

  /** A running deployment with the template row its `template_id` leads to, if any. */
  datatype Deployment = Deployment(ref: string, name: string, customer: int, template: Option<Template>)

  datatype Template = Template(name: string, priceCents: int)

  datatype Bill = Bill(items: seq<LineItem>, total: int)

  // ----- One generator pass: grouping by owner

  function PriceOf(d: Deployment): int {
    if d.template.Some? then d.template.value.priceCents else 0
  }

  function ItemOf(d: Deployment): LineItem {
    LineItem(d.ref, d.name, if d.template.Some? then d.template.value.name else "", PriceOf(d))
  }

  /** The bill of one user: one item per running deployment of theirs, in list order. */
  function ItemsOf(ds: seq<Deployment>, user: int): seq<LineItem> {
    if ds == [] then []
    else
      var last := ds[|ds| - 1];
      ItemsOf(ds[..|ds| - 1], user) + if last.customer == user then [ItemOf(last)] else []
  }

  function SumCents(items: seq<LineItem>): int {
    if items == [] then 0 else SumCents(items[..|items| - 1]) + items[|items| - 1].cents
  }

  ghost function Owners(ds: seq<Deployment>): (owners: set<int>)
    ensures 0 !in owners
  {
    if ds == [] then {}
    else
      var last := ds[|ds| - 1];
      Owners(ds[..|ds| - 1]) + if last.customer == 0 then {} else {last.customer}
  }

  ghost predicate BillsFor(ds: seq<Deployment>, bills: map<int, Bill>) {
    && bills.Keys == Owners(ds)
    && forall u :: u in bills ==> bills[u] == Bill(ItemsOf(ds, u), SumCents(ItemsOf(ds, u)))
  }

  lemma SumAppend(items: seq<LineItem>, i: LineItem)
    ensures SumCents(items + [i]) == SumCents(items) + i.cents
  {
    assert (items + [i])[..|items|] == items;
  }

  lemma NextItems(ds: seq<Deployment>, d: Deployment, u: int)
    ensures ItemsOf(ds + [d], u) == if d.customer == u then ItemsOf(ds, u) + [ItemOf(d)] else ItemsOf(ds, u)
  {
    assert (ds + [d])[..|ds|] == ds;
  }

  lemma {:induction false} NoItemsWithoutDeployment(ds: seq<Deployment>, u: int)
    requires u != 0 && u !in Owners(ds)
    ensures ItemsOf(ds, u) == []
  {
    if ds != [] {
      NoItemsWithoutDeployment(ds[..|ds| - 1], u);
    }
  }

  function AddTo(bills: map<int, Bill>, d: Deployment): map<int, Bill> {
    var bill := if d.customer in bills then bills[d.customer] else Bill([], 0);
    bills[d.customer := Bill(bill.items + [ItemOf(d)], bill.total + PriceOf(d))]
  }

  lemma OwnersAppend(ds: seq<Deployment>, d: Deployment)
    ensures Owners(ds + [d]) == Owners(ds) + if d.customer == 0 then {} else {d.customer}
  {
    assert (ds + [d])[..|ds|] == ds;
  }

  lemma BillAppend(ds: seq<Deployment>, bills: map<int, Bill>, d: Deployment)
    requires BillsFor(ds, bills) && d.customer != 0
    ensures AddTo(bills, d)[d.customer] == Bill(ItemsOf(ds + [d], d.customer), SumCents(ItemsOf(ds + [d], d.customer)))
  {
    var u := d.customer;
    NextItems(ds, d, u);
    SumAppend(ItemsOf(ds, u), ItemOf(d));
    if u !in bills {
      NoItemsWithoutDeployment(ds, u);
    }
  }

  lemma AddToBill(ds: seq<Deployment>, bills: map<int, Bill>, d: Deployment)
    requires BillsFor(ds, bills)
    ensures BillsFor(ds + [d], if d.customer == 0 then bills else AddTo(bills, d))
  {
    OwnersAppend(ds, d);
    var after := if d.customer == 0 then bills else AddTo(bills, d);
    forall u | u in after ensures after[u] == Bill(ItemsOf(ds + [d], u), SumCents(ItemsOf(ds + [d], u))) {
      NextItems(ds, d, u);
      if d.customer == u {
        BillAppend(ds, bills, d);
      }
    }
  }

  method GroupByOwner(ds: seq<Deployment>) returns (bills: map<int, Bill>)
    ensures BillsFor(ds, bills)
  {
    bills := map[];
    for i := 0 to |ds|
      invariant BillsFor(ds[..i], bills)
    {
      var d := ds[i];
      assert ds[..i + 1] == ds[..i] + [d];
      AddToBill(ds[..i], bills, d);
      if d.customer == 0 {
        continue;
      }
      var bill := Bill([], 0);
      if d.customer in bills {
        bill := bills[d.customer];
      }
      bills := bills[d.customer := Bill(bill.items + [ItemOf(d)], bill.total + PriceOf(d))];
    }
    assert ds[..|ds|] == ds;
  }

  // ----- Money is conserved

  function OwnedCents(ds: seq<Deployment>): int {
    if ds == [] then 0
    else
      var last := ds[|ds| - 1];
      OwnedCents(ds[..|ds| - 1]) + if last.customer == 0 then 0 else PriceOf(last)
  }

  function TotalOver(ds: seq<Deployment>, users: seq<int>): int {
    if users == [] then 0
    else TotalOver(ds, users[..|users| - 1]) + SumCents(ItemsOf(ds, users[|users| - 1]))
  }

  lemma SumAfterOneMore(init: seq<Deployment>, d: Deployment, u: int)
    ensures SumCents(ItemsOf(init + [d], u)) == SumCents(ItemsOf(init, u)) + if d.customer == u then PriceOf(d) else 0
  {
    NextItems(init, d, u);
    SumAppend(ItemsOf(init, u), ItemOf(d));
  }

  lemma {:induction false} TotalAfterOneMore(init: seq<Deployment>, d: Deployment, users: seq<int>)
    requires NoDuplicates(users)
    ensures TotalOver(init + [d], users) == TotalOver(init, users) + if d.customer in users then PriceOf(d) else 0
  {
    if users != [] {
      var rest, u := users[..|users| - 1], users[|users| - 1];
      TotalAfterOneMore(init, d, rest);
      SumAfterOneMore(init, d, u);
      assert d.customer in users <==> d.customer in rest || d.customer == u;
      assert u !in rest;
    }
  }

  /** Over any listing of the owners, the sums of their items add up to all owned prices. */
  lemma {:induction false} ItemsConserveMoney(ds: seq<Deployment>, users: seq<int>)
    requires NoDuplicates(users) && 0 !in users
    requires forall u :: u in Owners(ds) ==> u in users
    ensures TotalOver(ds, users) == OwnedCents(ds)
  {
    if ds == [] {
      NothingToBill(users);
    } else {
      var init, last := ds[..|ds| - 1], ds[|ds| - 1];
      assert ds == init + [last];
      ItemsConserveMoney(init, users);
      TotalAfterOneMore(init, last, users);
    }
  }

  lemma {:induction false} NothingToBill(users: seq<int>)
    ensures TotalOver([], users) == 0
  {
    if users != [] {
      NothingToBill(users[..|users| - 1]);
    }
  }

  /** What the bills of the listed users come to. */
  ghost function BillTotals(bills: map<int, Bill>, users: seq<int>): int
    requires forall u :: u in users ==> u in bills
  {
    if users == [] then 0
    else
      var last := users[|users| - 1];
      assert last in users;
      BillTotals(bills, users[..|users| - 1]) + bills[last].total
  }

  lemma {:induction false} TotalsOfBills(ds: seq<Deployment>, bills: map<int, Bill>, users: seq<int>)
    requires BillsFor(ds, bills) && forall u :: u in users ==> u in bills
    ensures BillTotals(bills, users) == TotalOver(ds, users)
  {
    if users != [] {
      TotalsOfBills(ds, bills, users[..|users| - 1]);
    }
  }

  /** The totals of the bills that grouping returns, visited in any order, add up to all owned prices. */
  lemma BillsConserveMoney(ds: seq<Deployment>, bills: map<int, Bill>, users: seq<int>)
    requires BillsFor(ds, bills) && NoDuplicates(users) && Elements(users) == bills.Keys
    ensures (forall u :: u in users ==> u in bills) && BillTotals(bills, users) == OwnedCents(ds)
  {
    forall u ensures u in users <==> u in bills {
      assert u in Elements(users) <==> u in bills.Keys;
    }
    TotalsOfBills(ds, bills, users);
    ItemsConserveMoney(ds, users);
  }

  function CountItems(items: seq<LineItem>, ref: string): nat {
    if items == [] then 0
    else CountItems(items[..|items| - 1], ref) + if items[|items| - 1].deployment == ref then 1 else 0
  }

  function CountOwned(ds: seq<Deployment>, user: int, ref: string): nat {
    if ds == [] then 0
    else
      var last := ds[|ds| - 1];
      CountOwned(ds[..|ds| - 1], user, ref) + if last.customer == user && last.ref == ref then 1 else 0
  }

  lemma CountAppend(items: seq<LineItem>, i: LineItem, ref: string)
    ensures CountItems(items + [i], ref) == CountItems(items, ref) + if i.deployment == ref then 1 else 0
  {
    assert (items + [i])[..|items|] == items;
  }

  lemma CountAfterOneMore(init: seq<Deployment>, d: Deployment, user: int, ref: string)
    ensures CountItems(ItemsOf(init + [d], user), ref)
         == CountItems(ItemsOf(init, user), ref) + if d.customer == user && d.ref == ref then 1 else 0
  {
    NextItems(init, d, user);
    CountAppend(ItemsOf(init, user), ItemOf(d), ref);
  }

  /** A deployment is a line item of a user's bill exactly as often as it is listed under that user. */
  lemma {:induction false} ItemsMatchDeployments(ds: seq<Deployment>, user: int, ref: string)
    ensures CountItems(ItemsOf(ds, user), ref) == CountOwned(ds, user, ref)
  {
    if ds != [] {
      var init, last := ds[..|ds| - 1], ds[|ds| - 1];
      ItemsMatchDeployments(init, user, ref);
      CountAfterOneMore(init, last, user, ref);
      assert init + [last] == ds;
    }
  }

  /** With distinct references: once in the owner's bill, never in another. */
  lemma {:induction false} BilledOnceToOwner(ds: seq<Deployment>, i: nat, user: int)
    requires i < |ds| && forall j, k :: 0 <= j < k < |ds| ==> ds[j].ref != ds[k].ref
    ensures CountItems(ItemsOf(ds, user), ds[i].ref) == if ds[i].customer == user then 1 else 0
  {
    ItemsMatchDeployments(ds, user, ds[i].ref);
    CountDistinct(ds, i, user);
  }

  lemma {:induction false} CountDistinct(ds: seq<Deployment>, i: nat, user: int)
    requires i < |ds| && forall j, k :: 0 <= j < k < |ds| ==> ds[j].ref != ds[k].ref
    ensures CountOwned(ds, user, ds[i].ref) == if ds[i].customer == user then 1 else 0
  {
    if i == |ds| - 1 {
      CountAbsent(ds[..i], user, ds[i].ref);
    } else {
      CountDistinct(ds[..|ds| - 1], i, user);
    }
  }

  lemma {:induction false} CountAbsent(ds: seq<Deployment>, user: int, ref: string)
    requires forall d :: d in ds ==> d.ref != ref
    ensures CountOwned(ds, user, ref) == 0
  {
    if ds != [] {
      CountAbsent(ds[..|ds| - 1], user, ref);
    }
  }

  // ----- One generator pass: creating and refreshing invoices

  predicate Settled(i: Invoice) {
    i.status == Paid || i.status == Pending
  }

  predicate Billable(ds: seq<Deployment>, user: int) {
    user != 0 && SumCents(ItemsOf(ds, user)) != 0
  }

  ghost predicate HasInvoice(rows: seq<Invoice>, month: string, user: int) {
    exists i :: 0 <= i < |rows| && rows[i].user == user && rows[i].month == month
  }

  ghost predicate UniquePerMonth(rows: seq<Invoice>) {
    forall i, j :: 0 <= i < j < |rows| && rows[i].user == rows[j].user ==> rows[i].month != rows[j].month
  }

  /** An open invoice of the month takes over the latest costs, unless they are zero. */
  function Refreshed(i: Invoice, month: string, ds: seq<Deployment>): Invoice {
    if i.month == month && Billable(ds, i.user) && !Settled(i) then
      var items := ItemsOf(ds, i.user);
      i.(items := items, subtotal := SumCents(items), total := SumCents(items))
    else i
  }

  function NewInvoice(user: int, month: string, ds: seq<Deployment>): Invoice {
    var items := ItemsOf(ds, user);
    Invoice(user, month, items, SumCents(items), SumCents(items), Draft, None)
  }

  ghost predicate NeedsInvoice(rows: seq<Invoice>, month: string, ds: seq<Deployment>, user: int) {
    Billable(ds, user) && !HasInvoice(rows, month, user)
  }

  /**
   The rows after the bills of `users` were handled: old rows are refreshed in place, and each
   of the users without an invoice for the month got exactly one.
   */
  ghost predicate Generated(before: seq<Invoice>, month: string, ds: seq<Deployment>, users: set<int>,
                            after: seq<Invoice>)
  {
    && |before| <= |after|
    && (forall i :: 0 <= i < |before| ==>
          after[i] == if before[i].user in users then Refreshed(before[i], month, ds) else before[i])
    && (forall i :: |before| <= i < |after| ==>
          && after[i] == NewInvoice(after[i].user, month, ds)
          && after[i].user in users
          && NeedsInvoice(before, month, ds, after[i].user))
    && (forall i, j :: |before| <= i < j < |after| ==> after[i].user != after[j].user)
    && (forall u :: u in users && NeedsInvoice(before, month, ds, u) ==> AddedFor(|before|, after, u))
  }

  ghost predicate AddedFor(from: nat, rows: seq<Invoice>, user: int) {
    exists i :: from <= i < |rows| && rows[i].user == user
  }

  /** The index holds an invoice of the month for exactly the users that have one. */
  ghost predicate IndexesMonth(existing: map<int, nat>, rows: seq<Invoice>, month: string) {
    && (forall u :: u in existing <==> HasInvoice(rows, month, u))
    && (forall u :: u in existing ==>
          existing[u] < |rows| && rows[existing[u]].user == u && rows[existing[u]].month == month)
  }

  /** Newest first; a settled invoice is never replaced as the month's invoice of its user. */
  method ExistingByUser(rows: seq<Invoice>, month: string) returns (existing: map<int, nat>)
    ensures IndexesMonth(existing, rows, month)
    ensures forall i :: 0 <= i < |rows| && rows[i].month == month && Settled(rows[i]) ==>
      rows[i].user in existing && Settled(rows[existing[rows[i].user]])
  {
    existing := map[];
    for i := |rows| downto 0
      invariant forall u :: u in existing ==>
        i <= existing[u] < |rows| && rows[existing[u]].user == u && rows[existing[u]].month == month
      invariant forall j :: i <= j < |rows| && rows[j].month == month ==>
        rows[j].user in existing && (Settled(rows[j]) ==> Settled(rows[existing[rows[j].user]]))
    {
      var inv := rows[i];
      if inv.month == month {
        if inv.user in existing && Settled(rows[existing[inv.user]]) {
          continue;
        }
        existing := existing[inv.user := i];
      }
    }
  }

  lemma HandleUser(before: seq<Invoice>, month: string, ds: seq<Deployment>, users: set<int>, rows: seq<Invoice>,
                   u: int, after: seq<Invoice>)
    requires Generated(before, month, ds, users, rows) && u !in users && UniquePerMonth(before)
    requires if !Billable(ds, u) then after == rows
             else if !HasInvoice(before, month, u) then after == rows + [NewInvoice(u, month, ds)]
             else exists k :: 0 <= k < |before| && before[k].user == u && before[k].month == month
                           && after == rows[k := Refreshed(before[k], month, ds)]
    ensures Generated(before, month, ds, users + {u}, after)
  {
    if Billable(ds, u) && !HasInvoice(before, month, u) {
      assert after[|rows|].user == u;
      forall v | v in users + {u} && NeedsInvoice(before, month, ds, v) ensures AddedFor(|before|, after, v) {
        if v != u {
          assert AddedFor(|before|, rows, v);
          var i :| |before| <= i < |rows| && rows[i].user == v;
          assert after[i].user == v;
        }
      }
    } else {
      forall v | v in users + {u} && NeedsInvoice(before, month, ds, v) ensures AddedFor(|before|, after, v) {
        assert v != u && AddedFor(|before|, rows, v);
        var i :| |before| <= i < |rows| && rows[i].user == v;
        assert after[i].user == v;
      }
      forall i | 0 <= i < |before|
        ensures after[i] == if before[i].user in users + {u} then Refreshed(before[i], month, ds) else before[i]
      {
      }
    }
  }

  lemma GeneratedKeepsUnique(before: seq<Invoice>, month: string, ds: seq<Deployment>, users: set<int>,
                             after: seq<Invoice>)
    requires Generated(before, month, ds, users, after) && UniquePerMonth(before)
    ensures UniquePerMonth(after)
  {
    forall i, j | 0 <= i < j < |after| && after[i].user == after[j].user ensures after[i].month != after[j].month {
      if i < |before| <= j {
        assert !HasInvoice(before, month, after[j].user);
        assert before[i].user == after[j].user;
      }
    }
  }

  lemma NobodyIsLeftWithout(before: seq<Invoice>, month: string, ds: seq<Deployment>, users: set<int>,
                            after: seq<Invoice>, u: int)
    requires Generated(before, month, ds, users, after) && u in users && Billable(ds, u)
    ensures HasInvoice(after, month, u)
  {
    if i :| 0 <= i < |before| && before[i].user == u && before[i].month == month {
      assert after[i].user == u && after[i].month == month;
    } else {
      assert NeedsInvoice(before, month, ds, u);
      var i :| |before| <= i < |after| && after[i].user == u;
      assert after[i].month == month;
    }
  }

  /** A second pass over the same deployments changes no row and adds none. */
  lemma SecondPassChangesNothing(before: seq<Invoice>, month: string, ds: seq<Deployment>,
                                 first: seq<Invoice>, second: seq<Invoice>)
    requires Generated(before, month, ds, Owners(ds), first)
    requires Generated(first, month, ds, Owners(ds), second)
    ensures second == first
  {
    forall i | 0 <= i < |first| ensures second[i] == first[i] {
      if i < |before| {
        assert first[i].user == before[i].user;
      }
    }
    if |second| > |first| {
      NobodyIsLeftWithout(before, month, ds, Owners(ds), first, second[|first|].user);
    }
  }

  // ----- Runs of generate, pay and verify

  /** A checkout session that was created for an amount. */
  datatype Checkout = Checkout(invoice: nat, session: string, amount: int)

  datatype Ledger = Ledger(rows: seq<Invoice>, checkouts: seq<Checkout>)

  /** `created` and `paid` are the payment provider's answers; None is a failed request. */
  datatype Step =
    | Generate(month: string, deployments: seq<Deployment>)
    | Pay(id: nat, user: int, created: Option<string>)
    | Verify(session: string, user: int, paid: Option<bool>)

  predicate Payable(rows: seq<Invoice>, id: nat, user: int) {
    id < |rows| && rows[id].user == user && !Settled(rows[id]) && rows[id].total > 0
  }

  /** The newest invoice of the user with the session. */
  function FindBySession(rows: seq<Invoice>, session: string, user: int): (r: Option<nat>)
    ensures r.Some? ==> r.value < |rows| && rows[r.value].session == Some(session) && rows[r.value].user == user
  {
    if rows == [] then None
    else if rows[|rows| - 1].session == Some(session) && rows[|rows| - 1].user == user then Some(|rows| - 1)
    else FindBySession(rows[..|rows| - 1], session, user)
  }

  ghost predicate Next(s: Ledger, step: Step, t: Ledger) {
    match step
    case Generate(month, ds) =>
      Generated(s.rows, month, ds, Owners(ds), t.rows) && t.checkouts == s.checkouts
    case Pay(id, user, session) =>
      if Payable(s.rows, id, user) && session.Some?
      then t == Ledger(s.rows[id := s.rows[id].(status := Pending, session := session)],
                       s.checkouts + [Checkout(id, session.value, s.rows[id].total)])
      else t == s
    case Verify(session, user, paid) =>
      var found := FindBySession(s.rows, session, user);
      if session != "" && found.Some? && paid == Some(true) && s.rows[found.value].status == Pending
      then t == s.(rows := s.rows[found.value := s.rows[found.value].(status := Paid)])
      else t == s
  }

  function LastCheckout(checkouts: seq<Checkout>, id: nat): Option<Checkout> {
    if checkouts == [] then None
    else if checkouts[|checkouts| - 1].invoice == id then Some(checkouts[|checkouts| - 1])
    else LastCheckout(checkouts[..|checkouts| - 1], id)
  }

  /** The last session created for the invoice is the stored one, and was for its present total. */
  ghost predicate MatchesCheckout(s: Ledger, i: nat)
    requires i < |s.rows|
  {
    && s.rows[i].session.Some?
    && LastCheckout(s.checkouts, i) == Some(Checkout(i, s.rows[i].session.value, s.rows[i].total))
  }

  /** The stored session of a settled invoice was created for its total, which is the sum of its items. */
  ghost predicate Invariant(s: Ledger) {
    && UniquePerMonth(s.rows)
    && (forall i :: 0 <= i < |s.rows| ==> s.rows[i].total == s.rows[i].subtotal == SumCents(s.rows[i].items))
    && (forall i :: 0 <= i < |s.rows| && Settled(s.rows[i]) ==> MatchesCheckout(s, i))
  }

  lemma PayKeepsInvariant(s: Ledger, id: nat, session: string)
    requires Invariant(s) && id < |s.rows|
    ensures Invariant(Ledger(s.rows[id := s.rows[id].(status := Pending, session := Some(session))],
                             s.checkouts + [Checkout(id, session, s.rows[id].total)]))
  {
    var c := Checkout(id, session, s.rows[id].total);
    assert (s.checkouts + [c])[..|s.checkouts|] == s.checkouts;
    forall i | 0 <= i < |s.rows| && i != id
      ensures LastCheckout(s.checkouts + [c], i) == LastCheckout(s.checkouts, i)
    {
    }
  }

  lemma NextKeepsInvariant(s: Ledger, step: Step, t: Ledger)
    requires Invariant(s) && Next(s, step, t)
    ensures Invariant(t)
  {
    match step
    case Generate(month, ds) =>
      GeneratedKeepsUnique(s.rows, month, ds, Owners(ds), t.rows);
    case Pay(id, user, session) =>
      if t != s {
        PayKeepsInvariant(s, id, session.value);
      }
    case Verify(session, user, paid) =>
  }

  /** What may become of one row: pending only turns paid, and paid is final. */
  ghost predicate Progress(a: Invoice, b: Invoice) {
    && a.user == b.user && a.month == b.month
    && (a.status == Paid ==> b == a)
    && (a.status == Pending ==> b == a || b == a.(status := Paid))
  }

  ghost predicate AllProgress(s: Ledger, t: Ledger) {
    |s.rows| <= |t.rows| && forall i :: 0 <= i < |s.rows| ==> Progress(s.rows[i], t.rows[i])
  }

  lemma NextIsProgress(s: Ledger, step: Step, t: Ledger)
    requires Next(s, step, t)
    ensures AllProgress(s, t)
  {
  }

  ghost predicate IsRun(trace: seq<Ledger>, steps: seq<Step>) {
    |trace| == |steps| + 1 && forall i :: 0 <= i < |steps| ==> Next(trace[i], steps[i], trace[i + 1])
  }

  /** At every point of every run: one invoice per user and month, and checkouts match totals. */
  lemma {:induction false} EveryRunKeepsInvariant(trace: seq<Ledger>, steps: seq<Step>, i: nat)
    requires IsRun(trace, steps) && Invariant(trace[0]) && i < |trace|
    ensures Invariant(trace[i])
  {
    if i > 0 {
      EveryRunKeepsInvariant(trace, steps, i - 1);
      NextKeepsInvariant(trace[i - 1], steps[i - 1], trace[i]);
    }
  }

  /** Between any two points of a run: pending and paid invoices keep items, amounts and session; paid is final. */
  lemma {:induction false} SettledInvoicesNeverChange(trace: seq<Ledger>, steps: seq<Step>, i: nat, j: nat)
    requires IsRun(trace, steps) && i <= j < |trace|
    ensures AllProgress(trace[i], trace[j])
  {
    if i < j {
      SettledInvoicesNeverChange(trace, steps, i, j - 1);
      NextIsProgress(trace[j - 1], steps[j - 1], trace[j]);
    }
  }

  // ----- The handlers

  datatype PayResponse =
    | CheckoutCreated(session: string)
    | InvoiceNotFound
    | NotAuthorized
    | NotPayable
    | NoAmount
    | ProviderError

  datatype VerifyResponse = Verified(paid: bool) | SessionRequired | SessionNotFound | VerificationFailed

  class InvoiceStore {
    var rows: seq<Invoice>
    ghost var checkouts: seq<Checkout>

    ghost function Contents(): Ledger
      reads this
    {
      Ledger(rows, checkouts)
    }

    constructor ()
      ensures Contents() == Ledger([], [])
    {
      rows, checkouts := [], [];
    }

    /** Bills are handled in an arbitrary order of users. */
    method GenerateAll(month: string, deployments: seq<Deployment>)
      requires UniquePerMonth(rows)
      modifies this
      ensures Next(old(Contents()), Generate(month, deployments), Contents())
    {
      if |deployments| == 0 {
        return;
      }
      var bills := GroupByOwner(deployments);
      var existing := ExistingByUser(rows, month);
      ghost var before, done := rows, {};
      var remaining := bills.Keys;
      while remaining != {}
        invariant remaining <= bills.Keys && done == bills.Keys - remaining && checkouts == old(checkouts)
        invariant Generated(before, month, deployments, done, rows)
      {
        ghost var someone := SomeUser(remaining);
        var user :| user in remaining;
        BillUser(month, deployments, user, bills[user], existing, before, done);
        remaining := remaining - {user};
        done := done + {user};
      }
    }

    /** One round of the loop over the bills. */
    method BillUser(month: string, ghost ds: seq<Deployment>, user: int, bill: Bill, existing: map<int, nat>,
                    ghost before: seq<Invoice>, ghost done: set<int>)
      requires Generated(before, month, ds, done, rows) && UniquePerMonth(before)
      requires user != 0 && user !in done && bill == Bill(ItemsOf(ds, user), SumCents(ItemsOf(ds, user)))
      requires IndexesMonth(existing, before, month)
      modifies this
      ensures Generated(before, month, ds, done + {user}, rows) && checkouts == old(checkouts)
    {
      ghost var now := rows;
      if bill.total != 0 {
        if user in existing {
          var id := existing[user];
          if rows[id].status != Paid && rows[id].status != Pending {
            rows := rows[id := rows[id].(items := bill.items, subtotal := bill.total, total := bill.total)];
          }
          assert rows == now[id := Refreshed(before[id], month, ds)];
        } else {
          rows := rows + [Invoice(user, month, bill.items, bill.total, bill.total, Draft, None)];
        }
      }
      HandleUser(before, month, ds, done, now, user, rows);
    }

    method PayInvoice(id: nat, user: int, provider: Option<string>) returns (response: PayResponse)
      modifies this
      ensures Next(old(Contents()), Pay(id, user, provider), Contents())
      ensures response.CheckoutCreated? <==> Payable(old(rows), id, user) && provider.Some?
      ensures response == if id >= |old(rows)| then InvoiceNotFound
                          else if old(rows)[id].user != user then NotAuthorized
                          else if old(rows)[id].status == Pending || old(rows)[id].status == Paid then NotPayable
                          else if old(rows)[id].total <= 0 then NoAmount
                          else if provider.None? then ProviderError
                          else CheckoutCreated(provider.value)
    {
      if id >= |rows| {
        return InvoiceNotFound;
      }
      var invoice := rows[id];
      if invoice.user != user {
        return NotAuthorized;
      }
      if invoice.status != Draft && invoice.status != Failed {
        return NotPayable;
      }
      if invoice.total <= 0 {
        return NoAmount;
      }
      if provider.None? {
        return ProviderError;
      }
      checkouts := checkouts + [Checkout(id, provider.value, invoice.total)];
      rows := rows[id := invoice.(session := provider)];
      if CanTransition(rows[id].status, Pending) {
        rows := rows[id := rows[id].(status := Pending)];
      }
      return CheckoutCreated(provider.value);
    }

    method VerifyPayment(session: string, user: int, provider: Option<bool>) returns (response: VerifyResponse)
      modifies this
      ensures Next(old(Contents()), Verify(session, user, provider), Contents())
      ensures provider != Some(true) ==> Contents() == old(Contents())
      ensures response == if session == "" then SessionRequired
                          else if FindBySession(old(rows), session, user).None? then SessionNotFound
                          else if provider.None? then VerificationFailed
                          else Verified(provider.value)
    {
      if session == "" {
        return SessionRequired;
      }
      var i := |rows|;
      assert rows[..i] == rows;
      while i > 0
        invariant 0 <= i <= |rows|
        invariant FindBySession(rows[..i], session, user) == FindBySession(rows, session, user)
      {
        assert rows[..i][..i - 1] == rows[..i - 1];
        if rows[i - 1].session == Some(session) && rows[i - 1].user == user {
          break;
        }
        i := i - 1;
      }
      if i == 0 {
        return SessionNotFound;
      }
      if provider.None? {
        return VerificationFailed;
      }
      if provider.value && rows[i - 1].status == Pending {
        if CanTransition(rows[i - 1].status, Paid) {
          rows := rows[i - 1 := rows[i - 1].(status := Paid)];
        }
      }
      return Verified(provider.value);
    }
  }

  lemma SomeUser(users: set<int>) returns (u: int)
    requires users != {}
    ensures u in users
  {
    assert (forall v :: v !in users) ==> users == {};
    u :| u in users;
  }

  /** The state machine of the invoices resource. */
  predicate CanTransition(from: Status, to: Status) {
    match from
    case Draft => to == Pending
    case Pending => to == Paid || to == Failed
    case Failed => to == Pending
    case Paid => false
  }
}
