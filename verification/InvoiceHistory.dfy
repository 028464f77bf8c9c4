/**
 Invoicing seen from its results: which deployments a bill and an invoice list and at what price, and which
 step of a run put an invoice into the state it is in.
 */
module InvoiceHistory {
  import opened Invoicing
  import opened Sequences
  import opened Wrappers

  // ----- What a bill lists

  /** What the deployments of one user cost together. */
  function CentsOf(ds: seq<Deployment>, user: int): int {
    if ds == [] then 0
    else
      var last := ds[|ds| - 1];
      CentsOf(ds[..|ds| - 1], user)
        + if last.customer == user && last.template.Some? then last.template.value.priceCents else 0
  }

  /** The line carries the deployment's names and its template's name and price, if it has one. */
  ghost predicate IsLineOf(item: LineItem, d: Deployment) {
    && item.deployment == d.ref && item.name == d.name
    && match d.template
       case Some(t) => item.template == t.name && item.cents == t.priceCents
       case None => item.template == "" && item.cents == 0
  }

  /** Line `k` is for deployment `at[k]`, in list order; each deployment of the user has one, and no other has. */
  ghost predicate ListsDeployments(items: seq<LineItem>, ds: seq<Deployment>, user: int, at: seq<nat>) {
    && |at| == |items|
    && (forall k :: 0 <= k < |at| ==> at[k] < |ds| && ds[at[k]].customer == user && IsLineOf(items[k], ds[at[k]]))
    && (forall k, l :: 0 <= k < l < |at| ==> at[k] < at[l])
    && (forall i :: 0 <= i < |ds| && ds[i].customer == user ==> i in at)
  }

  lemma {:induction false} ItemsListDeployments(ds: seq<Deployment>, user: int) returns (at: seq<nat>)
    ensures ListsDeployments(ItemsOf(ds, user), ds, user, at)
  {
    if ds == [] {
      at := [];
    } else {
      var n := |ds| - 1;
      at := ItemsListDeployments(ds[..n], user);
      assert forall k :: 0 <= k < |at| ==> ds[..n][at[k]] == ds[at[k]];
      forall i | 0 <= i < n && ds[i].customer == user ensures i in at {
        assert ds[..n][i] == ds[i];
      }
      if ds[n].customer == user {
        assert IsLineOf(ItemOf(ds[n]), ds[n]);
        at := at + [n];
      }
    }
  }

  lemma {:induction false} ItemsCost(ds: seq<Deployment>, user: int)
    ensures SumCents(ItemsOf(ds, user)) == CentsOf(ds, user)
  {
    if ds != [] {
      var init, last := ds[..|ds| - 1], ds[|ds| - 1];
      ItemsCost(init, user);
      SumAfterOneMore(init, last, user);
      assert ds == init + [last];
    }
  }

  lemma {:induction false} OwnersAreCustomers(ds: seq<Deployment>, user: int)
    ensures user in Owners(ds) <==> user != 0 && exists i :: 0 <= i < |ds| && ds[i].customer == user
  {
    if ds != [] {
      var n := |ds| - 1;
      OwnersAreCustomers(ds[..n], user);
      if i :| 0 <= i < |ds| && ds[i].customer == user {
        assert i < n ==> ds[..n][i] == ds[i];
      }
    }
  }

  /** Grouping bills each owner of a deployment, for exactly their deployments, at the price of the templates. */
  lemma BillsListDeployments(ds: seq<Deployment>, bills: map<int, Bill>, user: int) returns (at: seq<nat>)
    requires BillsFor(ds, bills)
    ensures user in bills <==> user != 0 && exists i :: 0 <= i < |ds| && ds[i].customer == user
    ensures user in bills ==>
      ListsDeployments(bills[user].items, ds, user, at) && bills[user].total == CentsOf(ds, user)
  {
    OwnersAreCustomers(ds, user);
    ItemsCost(ds, user);
    at := ItemsListDeployments(ds, user);
  }

  // ----- What a generator pass leaves

  ghost predicate ForDeployments(i: Invoice, ds: seq<Deployment>) {
    && i.total == i.subtotal == CentsOf(ds, i.user)
    && exists at :: ListsDeployments(i.items, ds, i.user, at)
  }

  lemma ItemsAreForDeployments(i: Invoice, ds: seq<Deployment>)
    requires i.items == ItemsOf(ds, i.user) && i.total == i.subtotal == SumCents(i.items)
    ensures ForDeployments(i, ds)
  {
    ItemsCost(ds, i.user);
    var at := ItemsListDeployments(ds, i.user);
  }

  /** An invoice of another month, one in payment or paid, or one of a user who owes nothing is left alone. */
  ghost predicate LeftAlone(i: Invoice, month: string, ds: seq<Deployment>) {
    i.month != month || i.status == Pending || i.status == Paid || i.user == 0 || CentsOf(ds, i.user) == 0
  }

  /** Any other old invoice takes over the present deployments, and nothing else changes in it. */
  lemma OldInvoicesAfterPass(before: seq<Invoice>, month: string, ds: seq<Deployment>, after: seq<Invoice>, i: nat)
    requires Generated(before, month, ds, Owners(ds), after) && i < |before|
    ensures i < |after|
    ensures LeftAlone(before[i], month, ds) ==> after[i] == before[i]
    ensures !LeftAlone(before[i], month, ds) ==>
      && after[i].user == before[i].user && after[i].month == month
      && after[i].status == before[i].status && after[i].session == before[i].session
      && ForDeployments(after[i], ds)
  {
    ItemsCost(ds, before[i].user);
    if !LeftAlone(before[i], month, ds) {
      if before[i].user !in Owners(ds) {
        NoItemsWithoutDeployment(ds, before[i].user);
      }
      ItemsAreForDeployments(after[i], ds);
    }
  }

  /** A new invoice is a draft for a user who owes something and had none for the month. */
  lemma NewInvoicesAfterPass(before: seq<Invoice>, month: string, ds: seq<Deployment>, after: seq<Invoice>, i: nat)
    requires Generated(before, month, ds, Owners(ds), after) && |before| <= i < |after|
    ensures after[i].month == month && after[i].status == Draft && after[i].session == None && after[i].user != 0
    ensures after[i].total != 0 && ForDeployments(after[i], ds)
    ensures forall j :: 0 <= j < |before| && before[j].user == after[i].user ==> before[j].month != month
  {
    ItemsAreForDeployments(after[i], ds);
    assert !HasInvoice(before, month, after[i].user);
  }

  /** After a pass everyone who owes something has an invoice for the month. */
  lemma EveryoneIsInvoiced(before: seq<Invoice>, month: string, ds: seq<Deployment>, after: seq<Invoice>, user: int)
    returns (i: nat)
    requires Generated(before, month, ds, Owners(ds), after) && user != 0 && CentsOf(ds, user) != 0
    ensures i < |after| && after[i].user == user && after[i].month == month
  {
    ItemsCost(ds, user);
    if user !in Owners(ds) {
      NoItemsWithoutDeployment(ds, user);
    }
    NobodyIsLeftWithout(before, month, ds, Owners(ds), after, user);
    i :| 0 <= i < |after| && after[i].user == user && after[i].month == month;
  }

  // ----- How an invoice becomes pending and paid

  /** The user's newest invoice with the session. */
  ghost predicate NewestWithSession(rows: seq<Invoice>, i: nat, session: string, user: int) {
    && i < |rows| && rows[i].session == Some(session) && rows[i].user == user
    && forall j :: i < j < |rows| ==> !(rows[j].session == Some(session) && rows[j].user == user)
  }

  lemma {:induction false} FindsNewest(rows: seq<Invoice>, session: string, user: int)
    ensures match FindBySession(rows, session, user)
            case Some(i) => NewestWithSession(rows, i, session, user)
            case None => forall j :: 0 <= j < |rows| ==> !(rows[j].session == Some(session) && rows[j].user == user)
  {
    if rows != [] && !(rows[|rows| - 1].session == Some(session) && rows[|rows| - 1].user == user) {
      FindsNewest(rows[..|rows| - 1], session, user);
      assert forall j :: 0 <= j < |rows| - 1 ==> rows[..|rows| - 1][j] == rows[j];
    }
  }

  /** A step that makes an invoice paid verified its own session for its user, and the provider said paid. */
  lemma PaidOnlyByVerify(s: Ledger, step: Step, t: Ledger, i: nat)
    requires Next(s, step, t) && i < |t.rows| && t.rows[i].status == Paid
    requires i < |s.rows| ==> s.rows[i].status != Paid
    ensures i < |s.rows| && s.rows[i].status == Pending
    ensures step.Verify? && step.paid == Some(true) && step.session != ""
    ensures NewestWithSession(s.rows, i, step.session, step.user)
    ensures t == s.(rows := s.rows[i := s.rows[i].(status := Paid)])
  {
    match step
    case Generate(month, ds) =>
      if i < |s.rows| {
        OldInvoicesAfterPass(s.rows, month, ds, t.rows, i);
      } else {
        NewInvoicesAfterPass(s.rows, month, ds, t.rows, i);
      }
      assert false;
    case Pay(id, user, session) =>
    case Verify(session, user, paid) =>
      FindsNewest(s.rows, session, user);
  }

  /** And such a verification does make it paid. */
  lemma VerifyPays(s: Ledger, session: string, user: int, t: Ledger, i: nat)
    requires Next(s, Verify(session, user, Some(true)), t) && session != ""
    requires NewestWithSession(s.rows, i, session, user) && s.rows[i].status == Pending
    ensures t == s.(rows := s.rows[i := s.rows[i].(status := Paid)])
  {
    FindsNewest(s.rows, session, user);
  }

  /** Any other verification changes nothing. */
  lemma VerifyOtherwiseChangesNothing(s: Ledger, session: string, user: int, paid: Option<bool>, t: Ledger)
    requires Next(s, Verify(session, user, paid), t)
    requires session == "" || paid != Some(true)
          || forall i: nat :: NewestWithSession(s.rows, i, session, user) ==> s.rows[i].status != Pending
    ensures t == s
  {
    FindsNewest(s.rows, session, user);
  }

  /** A step that makes an invoice pending is its owner's payment of its positive total. */
  lemma PendingOnlyByPay(s: Ledger, step: Step, t: Ledger, i: nat)
    requires Next(s, step, t) && i < |t.rows| && t.rows[i].status == Pending
    requires i < |s.rows| ==> s.rows[i].status != Pending
    ensures i < |s.rows| && s.rows[i].status in {Draft, Failed} && s.rows[i].total > 0
    ensures step.Pay? && step.id == i && step.user == s.rows[i].user && step.created.Some?
    ensures t.rows == s.rows[i := s.rows[i].(status := Pending, session := step.created)]
    ensures t.checkouts == s.checkouts + [Checkout(i, step.created.value, s.rows[i].total)]
  {
    match step
    case Generate(month, ds) =>
      if i < |s.rows| {
        OldInvoicesAfterPass(s.rows, month, ds, t.rows, i);
      } else {
        NewInvoicesAfterPass(s.rows, month, ds, t.rows, i);
      }
      assert false;
    case Pay(id, user, session) =>
    case Verify(session, user, paid) =>
  }

  /** And such a payment does make it pending; any other changes nothing. */
  lemma PayMakesPending(s: Ledger, id: nat, user: int, created: Option<string>, t: Ledger)
    requires Next(s, Pay(id, user, created), t)
    ensures if id < |s.rows| && s.rows[id].user == user && s.rows[id].status in {Draft, Failed}
               && s.rows[id].total > 0 && created.Some?
            then && t.rows == s.rows[id := s.rows[id].(status := Pending, session := created)]
                 && t.checkouts == s.checkouts + [Checkout(id, created.value, s.rows[id].total)]
            else t == s
  {
  }

  /** In every run, between a point where an invoice is not paid and one where it is, its session was verified. */
  lemma {:induction false} PaidWasVerified(trace: seq<Ledger>, steps: seq<Step>, i: nat, j: nat, id: nat)
    returns (k: nat)
    requires IsRun(trace, steps) && i <= j < |trace|
    requires id < |trace[j].rows| && trace[j].rows[id].status == Paid
    requires id < |trace[i].rows| ==> trace[i].rows[id].status != Paid
    ensures i <= k < j && steps[k].Verify? && steps[k].paid == Some(true) && steps[k].session != ""
    ensures id < |trace[k].rows| && trace[k].rows[id].status == Pending && trace[k].rows[id].user == steps[k].user
    ensures trace[k].rows[id].session == Some(steps[k].session)
  {
    assert i < j;
    k := j - 1;
    if id < |trace[k].rows| && trace[k].rows[id].status == Paid {
      k := PaidWasVerified(trace, steps, i, j - 1, id);
    } else {
      PaidOnlyByVerify(trace[k], steps[k], trace[j], id);
    }
  }

  /** In every run from an empty ledger, a paid invoice was sent to checkout for its total in that very session. */
  lemma PaidWasCheckedOut(trace: seq<Ledger>, steps: seq<Step>, j: nat, id: nat) returns (k: nat)
    requires IsRun(trace, steps) && trace[0] == Ledger([], []) && j < |trace|
    requires id < |trace[j].rows| && trace[j].rows[id].status == Paid
    ensures k < j && steps[k].Verify? && steps[k].paid == Some(true)
    ensures Checkout(id, steps[k].session, trace[j].rows[id].total) in trace[j].checkouts
  {
    k := PaidWasVerified(trace, steps, 0, j, id);
    EveryRunKeepsInvariant(trace, steps, j);
    SettledInvoicesNeverChange(trace, steps, k, j);
    assert Progress(trace[k].rows[id], trace[j].rows[id]);
    assert MatchesCheckout(trace[j], id);
    LastCheckoutIsListed(trace[j].checkouts, id);
  }

  lemma {:induction false} LastCheckoutIsListed(checkouts: seq<Checkout>, id: nat)
    ensures LastCheckout(checkouts, id).Some? ==> LastCheckout(checkouts, id).value in checkouts
  {
    if checkouts != [] {
      LastCheckoutIsListed(checkouts[..|checkouts| - 1], id);
      assert checkouts == checkouts[..|checkouts| - 1] + [checkouts[|checkouts| - 1]];
    }
  }
}
