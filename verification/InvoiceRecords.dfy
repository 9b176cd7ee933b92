/** What is recorded on payments and orders, field by field, and which payments are picked up. */
module InvoiceRecords {
  import opened Prelude
  import opened InvoiceRetry
  import opened InvoiceRuns

  function OneMore(retry: Option<nat>): nat {
    match retry
    case None => 1
    case Some(n) => n + 1
  }

  /** The notes with a status, a count that is one higher, and nothing else changed. */
  ghost predicate NotesOf(was: Notes, now: Notes, status: Option<string>, times: nat) {
    && now.status == status && now.skip == was.skip && now.invoices == was.invoices
    && now.retry == Some(OneMore(was.retry) + times - 1)
  }

  /** Status and count, an issue time if there is one, and no other column. */
  ghost predicate PaymentOf(was: Payment, now: Payment, status: Option<string>, issued: Option<int>, times: nat) {
    && NotesOf(was.notes, now.notes, status, times)
    && now.issuedAt == (if issued.Some? then issued else was.issuedAt)
    && now.orderId == was.orderId && now.price == was.price && now.status == was.status
    && now.gateway == was.gateway && now.paidAt == was.paidAt
  }

  ghost predicate OrderOf(was: Order, now: Order, status: Option<string>, issued: Option<int>) {
    NotesOf(was.notes, now.notes, status, 1) && now.issuedAt == if issued.Some? then issued else was.issuedAt
  }

  /** Payment `no` and its order got this record, and nobody else did. */
  ghost predicate OnlyRecorded(w: World, w': World, no: string, status: Option<string>, issued: Option<int>)
    requires no in w.payments
  {
    var id := w.payments[no].orderId;
    && w'.payments.Keys == w.payments.Keys && w'.orders.Keys == w.orders.Keys
    && PaymentOf(w.payments[no], w'.payments[no], status, issued, 1)
    && (id in w.orders ==> OrderOf(w.orders[id], w'.orders[id], status, issued))
    && (forall x | x in w.payments && x != no :: w'.payments[x] == w.payments[x])
    && (forall x | x in w.orders && x != id :: w'.orders[x] == w.orders[x])
  }

  function IssuedAt(a: Attempt): Option<int> {
    if a.Answered? && a.status == Some("SUCCESS") then Some(a.at) else None
  }

  // ----- one invoice for a payment -----

  /** The gateway answers: its status, one more attempt, and the time when it issued the invoice. */
  lemma AnswerRecorded(w: World, no: string, a: Attempt)
    requires no in w.payments && a.Answered? && !a.broken
    requires a.status == Some("SUCCESS") ==> w.payments[no].orderId in w.orders
    ensures OnlyRecorded(w, IssueByPayment(w, no, a).0, no, a.status, IssuedAt(a)) && !IssueByPayment(w, no, a).1
  {
  }

  /** Something throws before the answer: a failure of our own is recorded. */
  lemma ThrownRecorded(w: World, no: string)
    requires no in w.payments
    ensures OnlyRecorded(w, IssueByPayment(w, no, Thrown).0, no, Some("LODESTAR_FAIL"), None)
    ensures IssueByPayment(w, no, Thrown).1
  {
  }

  /** Issued, but there is no order: the issue time stays under a failure that counts twice. */
  lemma OrphanRecorded(w: World, no: string, a: Attempt)
    requires no in w.payments && a.Answered? && !a.broken && a.status == Some("SUCCESS")
    requires w.payments[no].orderId !in w.orders
    ensures var w' := IssueByPayment(w, no, a).0;
            && w'.payments.Keys == w.payments.Keys && w'.orders == w.orders && IssueByPayment(w, no, a).1
            && PaymentOf(w.payments[no], w'.payments[no], Some("LODESTAR_FAIL"), Some(a.at), 2)
            && forall x | x in w.payments && x != no :: w'.payments[x] == w.payments[x]
  {
    var w1 := Update(w, no, a.status, Some(a.at));
    assert w1.orders == w.orders && Update(w1, no, Some(FAIL), None).orders == w.orders;
  }

  // ----- one of several invoices, and the endpoint -----

  /** An answer is recorded as for a single invoice; whatever goes wrong leaves no record. */
  lemma DirectRecorded(w: World, no: string, a: Attempt)
    requires no in w.payments
    ensures var (w', threw) := IssueDirectly(w, no, a);
            if a.Answered? && !a.broken then OnlyRecorded(w, w', no, a.status, IssuedAt(a)) && !threw
            else w' == w && threw
  {
  }

  /** The endpoint: every payment of the order and the order itself, and nobody else. */
  lemma EndpointRecorded(w: World, orderId: string, a: Attempt)
    ensures var (w', threw) := IssueForOrder(w, orderId, a);
            if a.Answered? && !a.broken && orderId in w.orders then
              && !threw && w'.payments.Keys == w.payments.Keys && w'.orders.Keys == w.orders.Keys
              && OrderOf(w.orders[orderId], w'.orders[orderId], a.status, IssuedAt(a))
              && (forall x | x in w.orders && x != orderId :: w'.orders[x] == w.orders[x])
              && (forall x | x in w.payments && w.payments[x].orderId != orderId :: w'.payments[x] == w.payments[x])
              && (forall x | x in w.payments && w.payments[x].orderId == orderId ::
                    PaymentOf(w.payments[x], w'.payments[x], a.status, IssuedAt(a), 1))
            else w' == w && threw
  {
  }

  // ----- a committed success -----

  /** An order that has an issue time keeps one, unless the orders are edited. */
  predicate LeavesOrders(i: Item) {
    i.Meanwhile? ==> !i.change.EditOrders?
  }

  ghost predicate OrderIssued(w: World, id: string) {
    id in w.orders && w.orders[id].issuedAt.Some?
  }

  lemma {:induction false} DirectlyKeeps(w: World, no: string, attempts: seq<Attempt>, id: string)
    requires no in w.payments && OrderIssued(w, id)
    ensures OrderIssued(Directly(w, no, attempts).0, id)
  {
    if attempts == [] {
    } else {
      DirectlyKeeps(w, no, attempts[..|attempts| - 1], id);
    }
  }

  lemma ItemKeepsOrder(t: Transaction, i: Item, id: string)
    requires !t.aborted && OrderIssued(t.seen, id) && LeavesOrders(i) && (i.Turn? ==> !JobAborts(i.job))
    ensures OrderIssued(DoItem(t, i).seen, id) && !DoItem(t, i).aborted
  {
    if i.Turn? && In(t, i.job.no) && i.job.ForInvoices? {
      DirectlyKeeps(t.seen, i.job.no, i.job.attempts, id);
    }
  }

  lemma {:induction false} ItemsKeepOrder(t: Transaction, items: seq<Item>, id: string)
    requires !t.aborted && OrderIssued(t.seen, id) && !SomeAborts(Jobs(items))
    requires forall i | 0 <= i < |items| :: LeavesOrders(items[i])
    ensures OrderIssued(DoItems(t, items).seen, id)
    decreases |items|
  {
    if items == [] {
    } else {
      JobsStep(items);
      ItemKeepsOrder(t, items[0], id);
      forall i | 0 <= i < |items| - 1
        ensures LeavesOrders(items[1..][i])
      {
        assert items[1..][i] == items[i + 1];
      }
      ItemsKeepOrder(DoItem(t, items[0]), items[1..], id);
    }
  }

  /** Both the payment and its order have an issue time. */
  ghost predicate BothIssued(w: World, no: string) {
    no in w.payments && w.payments[no].issuedAt.Some? && OrderIssued(w, w.payments[no].orderId)
  }

  lemma OwnSuccess(t: Transaction, j: Job)
    requires In(t, j.no) && !t.aborted && j.ForPayment? && !Aborts(j.attempt) && Success(j.attempt)
    requires t.seen.payments[j.no].orderId in t.seen.orders
    ensures BothIssued(DoItem(t, Turn(j)).seen, j.no)
  {
    AnswerRecorded(t.seen, j.no, j.attempt);
  }

  lemma {:induction false} BothStay(t: Transaction, items: seq<Item>, no: string)
    requires In(t, no) && !t.aborted && !SomeAborts(Jobs(items)) && Orderly(items, no)
    requires Recorded(t.seen.payments[no]) && BothIssued(t.seen, no)
    requires forall i | 0 <= i < |items| :: LeavesOrders(items[i])
    ensures BothIssued(DoItems(t, items).seen, no)
  {
    CommittedGains(t, items, no);
    ItemsKeepOrder(t, items, t.seen.payments[no].orderId);
  }

  /** A success of a committed execution leaves the payment and its order with an issue time. */
  lemma {:induction false} SuccessIssuesBoth(t: Transaction, items: seq<Item>, no: string)
    requires In(t, no) && !t.aborted && !SomeAborts(Jobs(items)) && Orderly(items, no)
    requires Recorded(t.seen.payments[no]) && t.seen.payments[no].orderId in t.seen.orders
    requires forall i | 0 <= i < |items| :: LeavesOrders(items[i])
    requires Made(Jobs(items), no, false, Success) > 0
    ensures BothIssued(DoItems(t, items).seen, no)
    decreases |items|
  {
    JobsStep(items);
    MadeStep(items, no, Success);
    var t', rest := DoItem(t, items[0]), items[1..];
    forall i | 0 <= i < |rest|
      ensures LeavesOrders(rest[i])
    {
      assert rest[i] == items[i + 1];
    }
    OrdersStay(t, items[0], t.seen.payments[no].orderId);
    if items[0].Meanwhile? {
      MeanwhileFollows(t, items[0].change, no);
      SuccessIssuesBoth(t', rest, no);
    } else if items[0].job.no == no {
      OwnTurn(t, items[0].job);
      NoTurn(rest, no, false, Success);
      OwnSuccess(t, items[0].job);
      BothStay(t', rest, no);
    } else {
      TurnElsewhere(t, items[0].job, no);
      SuccessIssuesBoth(t', rest, no);
    }
  }

  lemma OrdersStay(t: Transaction, i: Item, id: string)
    requires !t.aborted && id in t.seen.orders && LeavesOrders(i) && (i.Turn? ==> !JobAborts(i.job))
    ensures id in DoItem(t, i).seen.orders
  {
    if i.Turn? && In(t, i.job.no) && i.job.ForInvoices? {
      DirectlyOrders(t.seen, i.job.no, i.job.attempts);
    }
  }

  // ----- which payments are picked up -----

  /** What a payment must be like, column by column: three days are 259200000 milliseconds. */
  ghost predicate Due(now: int, p: Payment) {
    && p.issuedAt == None && p.status == Some("SUCCESS") && !p.notes.skip
    && (exists price: real :: p.price == Some(price) && price > 0.0)
    && (exists paid: int :: p.paidAt == Some(paid) && now - 259200000 < paid < now)
    && p.gateway != None && p.gateway != Some("lodestar") && p.gateway != Some("manual")
    && (p.notes.status == None
        || (p.notes.status != Some("SUCCESS") && exists n: nat :: p.notes.retry == Some(n) && n < 5))
  }

  lemma DueIff(now: int, p: Payment)
    ensures Selected(now, p) <==> Due(now, p)
  {
    if Selected(now, p) {
      assert p.price == Some(p.price.value) && p.paidAt == Some(p.paidAt.value) && p.gateway == Some(p.gateway.value);
      assert p.notes.status.Some? ==> p.notes.status == Some(p.notes.status.value);
      assert p.notes.retry.Some? ==> p.notes.retry == Some(p.notes.retry.value);
    }
  }

  /**
   An execution has a turn only for payments that are due when it begins, and, when it picks fewer than its limit, for
   all of them.
   */
  lemma PickedAreDue(w: World, e: Event, no: string)
    requires e.Batch? && Allowed(w, e)
    ensures HasTurn(e.items, no) ==> no in w.payments && Due(e.now, w.payments[no])
    ensures |Jobs(e.items)| <= e.limit
    ensures |Jobs(e.items)| < e.limit && no in w.payments && Due(e.now, w.payments[no]) ==> HasTurn(e.items, no)
  {
    if HasTurn(e.items, no) {
      PickedSelected(w, e, no);
      DueIff(e.now, w.payments[no]);
    }
    if |Jobs(e.items)| < e.limit && no in w.payments && Due(e.now, w.payments[no]) {
      DueIff(e.now, w.payments[no]);
      assert no in Numbers(Jobs(e.items));
      var k :| 0 <= k < |Jobs(e.items)| && Numbers(Jobs(e.items))[k] == no;
      JobIsTurn(e.items, k);
    }
  }

  lemma {:induction false} JobIsTurn(items: seq<Item>, k: nat)
    requires k < |Jobs(items)|
    ensures HasTurn(items, Jobs(items)[k].no)
    decreases |items|
  {
    JobsStep(items);
    if items[0].Meanwhile? {
      JobIsTurn(items[1..], k);
    } else if k > 0 {
      assert Jobs(items)[k] == Jobs(items[1..])[k - 1];
      JobIsTurn(items[1..], k - 1);
    }
  }
}
