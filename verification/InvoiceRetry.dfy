/**
 Which payments the invoice runner picks up, what one attempt at an invoice leaves behind, and how often a payment is
 attempted. Of the notes kept as JSON only the fields that decide this are here.
 */
module InvoiceRetry {
  import opened Prelude

  /** `invoices` is the number of separate invoices asked for; without any there is one for the whole payment. */
  datatype Notes = Notes(status: Option<string>, retry: Option<nat>, skip: bool, invoices: nat)

  datatype Payment = Payment(
    orderId: string,
    price: Option<real>,
    status: Option<string>,
    gateway: Option<string>,
    paidAt: Option<int>,
    issuedAt: Option<int>,
    notes: Notes
  )

  datatype Order = Order(issuedAt: Option<int>, notes: Notes)

  datatype World = World(payments: map<string, Payment>, orders: map<string, Order>)

  const SUCCESS := "SUCCESS"
  const FAIL := "LODESTAR_FAIL"
  const MAX_RETRY := 5
  const THREE_DAYS := 3 * 24 * 60 * 60 * 1000

  // ----- the selector -----

  /** The part of the query that looks at the notes: with a status a missing retry count compares as unknown. */
  predicate Pending(n: Notes) {
    n.status.None? || (n.status.value != SUCCESS && n.retry.Some? && n.retry.value < MAX_RETRY)
  }

  /** The rest of the query: a column that is null fails every comparison, `NOT IN` among them. */
  predicate Eligible(now: int, p: Payment) {
    && p.price.Some? && p.price.value > 0.0
    && p.status == Some("SUCCESS")
    && p.paidAt.Some? && now - THREE_DAYS < p.paidAt.value < now
    && p.gateway.Some? && p.gateway.value != "lodestar" && p.gateway.value != "manual"
    && !p.notes.skip
  }

  predicate Selected(now: int, p: Payment) {
    Eligible(now, p) && p.issuedAt.None? && Pending(p.notes)
  }

  /** A possible answer of the database: distinct selected rows, all of them when the limit is not reached. */
  ghost predicate Answer(payments: map<string, Payment>, now: int, limit: nat, picked: seq<string>) {
    && |picked| <= limit
    && (forall i, j | 0 <= i < j < |picked| :: picked[i] != picked[j])
    && (forall i | 0 <= i < |picked| :: picked[i] in payments && Selected(now, payments[picked[i]]))
    && (|picked| < limit ==> forall no | no in payments && Selected(now, payments[no]) :: no in picked)
  }

  // ----- one attempt -----

  function NextRetry(n: Notes): nat {
    if n.retry.Some? then n.retry.value + 1 else 1
  }

  /** A status that is undefined is dropped when the notes are stored, and with it the one that was there. */
  function Noted(n: Notes, status: Option<string>): Notes {
    n.(status := status, retry := Some(NextRetry(n)))
  }

  /** Saving without an issue time leaves the column alone. */
  function MarkPayment(p: Payment, status: Option<string>, issued: Option<int>): Payment {
    p.(notes := Noted(p.notes, status), issuedAt := if issued.Some? then issued else p.issuedAt)
  }

  function MarkOrder(o: Order, status: Option<string>, issued: Option<int>): Order {
    o.(notes := Noted(o.notes, status), issuedAt := if issued.Some? then issued else o.issuedAt)
  }

  function OrdersOf(w: World, no: string): seq<string>
    requires no in w.payments
  {
    if w.payments[no].orderId in w.orders then [w.payments[no].orderId] else []
  }

  function Update(w: World, no: string, status: Option<string>, issued: Option<int>): World
    requires no in w.payments
  {
    var ids := OrdersOf(w, no);
    World(w.payments[no := MarkPayment(w.payments[no], status, issued)],
          map id | id in w.orders :: if id in ids then MarkOrder(w.orders[id], status, issued) else w.orders[id])
  }

  /**
   What the outside does to an attempt: something other than the database throws before the gateway has answered, a
   statement fails before it has, or the gateway answers. The answer is not checked, and may have no status; `broken`
   says that a statement fails after it, when it is recorded or the invoice is stored.
   */
  datatype Attempt = Thrown | Broken | Answered(status: Option<string>, at: int, broken: bool)

  predicate Success(a: Attempt) {
    a.Answered? && a.status == Some(SUCCESS)
  }

  /** A failed statement aborts the transaction it is in: nothing later can be recorded there. */
  predicate Aborts(a: Attempt) {
    a.Broken? || (a.Answered? && a.broken)
  }

  /**
   One invoice for the payment, on the transaction of the execution: unless that is aborted every way the attempt ends
   is recorded. A success without an order row throws, and the error is recorded on top of it.
   */
  function IssueByPayment(w: World, no: string, a: Attempt): (World, bool)
    requires no in w.payments && !Aborts(a)
  {
    match a
    case Thrown => (Update(w, no, Some(FAIL), None), true)
    case Answered(status, at, _) =>
      var w' := Update(w, no, status, if status == Some(SUCCESS) then Some(at) else None);
      if status == Some(SUCCESS) && OrdersOf(w, no) == [] then (Update(w', no, Some(FAIL), None), true)
      else (w', false)
  }

  /** One of several invoices, in a transaction of its own: any error rolls its record back as well. */
  function IssueDirectly(w: World, no: string, a: Attempt): (World, bool)
    requires no in w.payments
  {
    if a.Thrown? || Aborts(a) then (w, true)
    else (Update(w, no, a.status, if a.status == Some(SUCCESS) then Some(a.at) else None), false)
  }

  // ----- the issue endpoint -----

  /** The record of a request that names an order only: every payment of the order is marked, and the order itself. */
  function UpdateOrder(w: World, orderId: string, status: Option<string>, issued: Option<int>): World
    requires orderId in w.orders
  {
    World(map no | no in w.payments ::
            if w.payments[no].orderId == orderId then MarkPayment(w.payments[no], status, issued) else w.payments[no],
          w.orders[orderId := MarkOrder(w.orders[orderId], status, issued)])
  }

  /** A transaction of its own: without a row for the order it throws when the gateway has answered. */
  function IssueForOrder(w: World, orderId: string, a: Attempt): (World, bool) {
    if a.Thrown? || Aborts(a) || orderId !in w.orders then (w, true)
    else (UpdateOrder(w, orderId, a.status, if a.status == Some(SUCCESS) then Some(a.at) else None), false)
  }

  /** The rows of the payments of an order, in the order in which the database gives them. */
  ghost predicate PaymentsOf(payments: map<string, Payment>, orderId: string, rows: seq<string>) {
    && (forall i, j | 0 <= i < j < |rows| :: rows[i] != rows[j])
    && (forall no :: no in rows <==> no in payments && payments[no].orderId == orderId)
  }

  // ----- one execution of the runner -----

  /** What there is to do for a picked row: one invoice for the payment, or one attempt for each of its invoices. */
  datatype Job = ForPayment(no: string, attempt: Attempt) | ForInvoices(no: string, attempts: seq<Attempt>)

  predicate Fits(payments: map<string, Payment>, j: Job)
    requires j.no in payments
  {
    if payments[j.no].notes.invoices == 0 then j.ForPayment?
    else j.ForInvoices? && |j.attempts| == payments[j.no].notes.invoices
  }

  function Directly(w: World, no: string, attempts: seq<Attempt>): (r: (World, seq<string>))
    requires no in w.payments
    ensures r.0.payments.Keys == w.payments.Keys
  {
    if attempts == [] then (w, [])
    else
      var (w', errors) := Directly(w, no, attempts[..|attempts| - 1]);
      var (w'', threw) := IssueDirectly(w', no, attempts[|attempts| - 1]);
      (w'', errors + if threw then [no] else [])
  }

  /** The tables as the execution's transaction has them, and as a rollback of it would leave them. */
  datatype Transaction = Transaction(seen: World, kept: World, aborted: bool)

  predicate JobAborts(j: Job) {
    j.ForPayment? && Aborts(j.attempt)
  }

  /**
   Invoices issued directly are committed whatever becomes of the execution. A statement that fails for a payment undoes
   the other payments of the execution, and the payments that follow fail before they reach the gateway.
   */
  function DoJob(t: Transaction, j: Job): (Transaction, seq<string>)
    requires j.no in t.seen.payments && j.no in t.kept.payments
  {
    match j
    case ForInvoices(no, attempts) =>
      var (seen, errors) := Directly(t.seen, no, attempts);
      (Transaction(seen, Directly(t.kept, no, attempts).0, t.aborted), errors)
    case ForPayment(no, attempt) =>
      if t.aborted then (t, [no])
      else if Aborts(attempt) then (Transaction(t.kept, t.kept, true), [no])
      else
        var (seen, threw) := IssueByPayment(t.seen, no, attempt);
        (t.(seen := seen), if threw then [no] else [])
  }

  function Numbers(jobs: seq<Job>): (r: seq<string>)
    ensures |r| == |jobs|
    ensures forall i | 0 <= i < |jobs| :: r[i] == jobs[i].no
  {
    seq(|jobs|, i requires 0 <= i < |jobs| => jobs[i].no)
  }

  /** The jobs are those of distinct rows of the table. */
  ghost predicate Ready(payments: map<string, Payment>, jobs: seq<Job>) {
    && (forall i | 0 <= i < |jobs| :: jobs[i].no in payments && Fits(payments, jobs[i]))
    && (forall i, j | 0 <= i < j < |jobs| :: jobs[i].no != jobs[j].no)
  }

  ghost predicate Known(t: Transaction, jobs: seq<Job>) {
    forall i | 0 <= i < |jobs| :: jobs[i].no in t.seen.payments && jobs[i].no in t.kept.payments
  }

  lemma DoJobKeys(t: Transaction, j: Job)
    requires j.no in t.seen.payments && j.no in t.kept.payments && t.seen.payments.Keys == t.kept.payments.Keys
    ensures var t' := DoJob(t, j).0; t'.seen.payments.Keys == t'.kept.payments.Keys == t.seen.payments.Keys
  {
  }

  lemma StillKnown(t: Transaction, jobs: seq<Job>)
    requires jobs != [] && Known(t, jobs) && t.seen.payments.Keys == t.kept.payments.Keys
    ensures Known(DoJob(t, jobs[0]).0, jobs[1..])
  {
    DoJobKeys(t, jobs[0]);
    forall i | 0 <= i < |jobs| - 1
      ensures jobs[1..][i].no in t.seen.payments
    {
      assert jobs[1..][i] == jobs[i + 1];
    }
  }

  /** The rows picked at the start are worked through one after the other; an error is kept and the loop goes on. */
  function DoJobs(t: Transaction, jobs: seq<Job>): (Transaction, seq<string>)
    requires Known(t, jobs) && t.seen.payments.Keys == t.kept.payments.Keys
    decreases |jobs|
  {
    if jobs == [] then (t, [])
    else
      var (t', errors) := DoJob(t, jobs[0]);
      StillKnown(t, jobs);
      DoJobKeys(t, jobs[0]);
      var (t'', more) := DoJobs(t', jobs[1..]);
      (t'', errors + more)
  }

  function Started(w: World): Transaction {
    Transaction(w, w, false)
  }

  // ----- the methods -----

  class InvoiceService {
    var payments: map<string, Payment>
    var orders: map<string, Order>

    function Contents(): World
      reads this
    {
      World(payments, orders)
    }

    method UpdateOrderAndPaymentLogInvoiceOptionsByPaymentNo(no: string, status: Option<string>, issued: Option<int>)
      returns (orderLogs: seq<string>)
      requires no in payments
      modifies this
      ensures Contents() == Update(old(Contents()), no, status, issued)
      ensures orderLogs == OrdersOf(old(Contents()), no)
    {
      orderLogs := OrdersOf(Contents(), no);
      ghost var was := orders;
      var i := 0;
      while i < |orderLogs|
        invariant 0 <= i <= |orderLogs| && payments == old(payments)
        invariant orders == map id | id in was ::
                    if id in orderLogs[..i] then MarkOrder(was[id], status, issued) else was[id]
      {
        var id := orderLogs[i];
        orders := orders[id := MarkOrder(orders[id], status, issued)];
        i := i + 1;
      }
      assert orderLogs[..i] == orderLogs;
      payments := payments[no := MarkPayment(payments[no], status, issued)];
    }

    /** `aborted`: a statement failed, and with it every later one on this transaction. */
    method IssueInvoiceByPayment(no: string, a: Attempt) returns (threw: bool, aborted: bool)
      requires no in payments
      modifies this
      ensures aborted <==> Aborts(a)
      ensures aborted ==> threw
      ensures !aborted ==> Contents() == IssueByPayment(old(Contents()), no, a).0
      ensures !aborted ==> threw == IssueByPayment(old(Contents()), no, a).1
    {
      match a {
      case Thrown =>
        threw, aborted := true, false;
      case Broken =>
        threw, aborted := true, true;
      case Answered(status, at, broken) =>
        var issued := if status == Some(SUCCESS) then Some(at) else None;
        var orderLogs := UpdateOrderAndPaymentLogInvoiceOptionsByPaymentNo(no, status, issued);
        threw, aborted := broken || (status == Some(SUCCESS) && orderLogs == []), broken;
      }
      if threw && !aborted {
        var _ := UpdateOrderAndPaymentLogInvoiceOptionsByPaymentNo(no, Some(FAIL), None);
      }
    }

    /** A transaction of its own: on an error the tables are put back. */
    method IssueInvoiceDirectly(no: string, a: Attempt) returns (threw: bool)
      requires no in payments
      modifies this
      ensures Contents() == IssueDirectly(old(Contents()), no, a).0
      ensures threw == IssueDirectly(old(Contents()), no, a).1
    {
      var payments', orders' := payments, orders;
      match a {
      case Thrown =>
        threw := true;
      case Broken =>
        threw := true;
      case Answered(status, at, broken) =>
        var issued := if status == Some(SUCCESS) then Some(at) else None;
        var _ := UpdateOrderAndPaymentLogInvoiceOptionsByPaymentNo(no, status, issued);
        threw := broken;
      }
      if threw {
        payments, orders := payments', orders';
      }
    }

    method UpdateOrderAndPaymentLogInvoiceOptionsByOrderId(orderId: string, paymentLogs: seq<string>,
                                                           status: Option<string>, issued: Option<int>)
      requires orderId in orders && PaymentsOf(payments, orderId, paymentLogs)
      modifies this
      ensures Contents() == UpdateOrder(old(Contents()), orderId, status, issued)
    {
      ghost var was := payments;
      var i := 0;
      while i < |paymentLogs|
        invariant 0 <= i <= |paymentLogs| && orders == old(orders)
        invariant payments == map no | no in was ::
                    if no in paymentLogs[..i] then MarkPayment(was[no], status, issued) else was[no]
      {
        var no := paymentLogs[i];
        payments := payments[no := MarkPayment(payments[no], status, issued)];
        i := i + 1;
      }
      assert paymentLogs[..i] == paymentLogs;
      orders := orders[orderId := MarkOrder(orders[orderId], status, issued)];
    }

    /** The request names the order only; `paymentLogs` are the rows that are found for it. */
    method IssueInvoiceForOrder(orderId: string, paymentLogs: seq<string>, a: Attempt) returns (threw: bool)
      requires PaymentsOf(payments, orderId, paymentLogs)
      modifies this
      ensures Contents() == IssueForOrder(old(Contents()), orderId, a).0
      ensures threw == IssueForOrder(old(Contents()), orderId, a).1
    {
      var payments', orders' := payments, orders;
      match a {
      case Thrown =>
        threw := true;
      case Broken =>
        threw := true;
      case Answered(status, at, broken) =>
        threw := orderId !in orders;
        if !threw {
          var issued := if status == Some(SUCCESS) then Some(at) else None;
          UpdateOrderAndPaymentLogInvoiceOptionsByOrderId(orderId, paymentLogs, status, issued);
          threw := broken;
        }
      }
      if threw {
        payments, orders := payments', orders';
      }
    }

    method IssueEach(no: string, attempts: seq<Attempt>, before: seq<string>) returns (errors: seq<string>)
      requires no in payments
      modifies this
      ensures Contents() == Directly(old(Contents()), no, attempts).0
      ensures errors == before + Directly(old(Contents()), no, attempts).1
    {
      errors := before;
      var i := 0;
      while i < |attempts|
        invariant 0 <= i <= |attempts| && no in payments
        invariant Contents() == Directly(old(Contents()), no, attempts[..i]).0
        invariant errors == before + Directly(old(Contents()), no, attempts[..i]).1
      {
        assert attempts[..i + 1][..i] == attempts[..i];
        var threw := IssueInvoiceDirectly(no, attempts[i]);
        if threw {
          errors := errors + [no];
        }
        i := i + 1;
      }
      assert attempts[..i] == attempts;
    }
  }

  /** Some jobs are done and these are left: together they come to the whole. */
  ghost predicate Halfway(t: Transaction, left: seq<Job>, errors: seq<string>, whole: (Transaction, seq<string>)) {
    && Known(t, left) && t.seen.payments.Keys == t.kept.payments.Keys
    && whole.0 == DoJobs(t, left).0 && whole.1 == errors + DoJobs(t, left).1
  }

  lemma NextJob(t: Transaction, jobs: seq<Job>, i: nat, errors: seq<string>, whole: (Transaction, seq<string>))
    requires i < |jobs| && Halfway(t, jobs[i..], errors, whole)
    ensures jobs[i].no in t.seen.payments && jobs[i].no in t.kept.payments
    ensures Halfway(DoJob(t, jobs[i]).0, jobs[i + 1..], errors + DoJob(t, jobs[i]).1, whole)
  {
    var left := jobs[i..];
    assert left[0] == jobs[i] && left[1..] == jobs[i + 1..];
    StillKnown(t, left);
    DoJobKeys(t, jobs[i]);
    var (t', own) := DoJob(t, jobs[i]);
    var more := DoJobs(t', jobs[i + 1..]).1;
    assert errors + (own + more) == errors + own + more;
  }

  class InvoiceRunner {
    const service: InvoiceService
    var kept: World
    var aborted: bool

    constructor (service: InvoiceService)
      ensures this.service == service
    {
      this.service := service;
      kept, aborted := World(map[], map[]), false;
    }

    /** The transaction of the execution that is under way. */
    ghost function Current(): Transaction
      reads this, service
    {
      Transaction(service.Contents(), kept, aborted)
    }

    method IssueOne(j: Job, before: seq<string>) returns (errors: seq<string>)
      requires j.no in service.payments && j.no in kept.payments
      modifies this, service
      ensures Current() == DoJob(old(Current()), j).0
      ensures errors == before + DoJob(old(Current()), j).1
    {
      match j {
      case ForInvoices(no, attempts) =>
        errors := service.IssueEach(no, attempts, before);
        kept := Directly(kept, no, attempts).0;
      case ForPayment(no, attempt) =>
        var failed := true;
        if !aborted {
          failed, aborted := service.IssueInvoiceByPayment(no, attempt);
          if aborted {
            service.payments, service.orders := kept.payments, kept.orders;
          }
        }
        errors := before + if failed then [no] else [];
      }
    }

    /** One execution over the rows that were picked, in one transaction. It throws exactly when some job did. */
    method Execute(now: int, limit: nat, jobs: seq<Job>) returns (errors: seq<string>, threw: bool)
      requires Ready(service.payments, jobs) && Answer(service.payments, now, limit, Numbers(jobs))
      modifies this, service
      ensures Current() == DoJobs(Started(old(service.Contents())), jobs).0
      ensures errors == DoJobs(Started(old(service.Contents())), jobs).1
      ensures threw <==> errors != []
    {
      errors := [];
      kept, aborted := service.Contents(), false;
      ghost var whole := DoJobs(Current(), jobs);
      var i := 0;
      assert jobs[0..] == jobs && whole.1 == [] + whole.1;
      while i < |jobs|
        invariant 0 <= i <= |jobs|
        invariant Halfway(Current(), jobs[i..], errors, whole)
      {
        NextJob(Current(), jobs, i, errors, whole);
        errors := IssueOne(jobs[i], errors);
        i := i + 1;
      }
      threw := |errors| > 0;
    }
  }
}
