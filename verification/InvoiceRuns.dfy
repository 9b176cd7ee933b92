/**
 How often a payment is attempted by the invoice runner, and how often it succeeds, over any run of its executions and
 of what the rest of the program does between them and while they are under way.
 */
module InvoiceRuns {
  import opened Prelude
  import opened InvoiceRetry

  // ----- what the rest of the program does -----

  /**
   A request at the issue endpoint, an edit that leaves the records of invoices alone, new orders, or a record whose
   retry count was read before somebody else's record and that now overwrites it.
   */
  datatype Change =
    | Issue(orderId: string, attempt: Attempt)
    | Edit(no: string, payment: Payment)
    | EditOrders(orders: map<string, Order>)
    | Stale(no: string, status: Option<string>, retry: pos, at: int)

  /** The other columns of `q`, with the order, the issue time and the records of `p`. */
  function Keep(p: Payment, q: Payment): Payment {
    q.(orderId := p.orderId, issuedAt := p.issuedAt, notes := p.notes.(skip := q.notes.skip))
  }

  function Overwritten(p: Payment, status: Option<string>, retry: pos, at: int): Payment {
    p.(notes := p.notes.(status := status, retry := Some(retry)),
       issuedAt := if status == Some(SUCCESS) then Some(at) else p.issuedAt)
  }

  function Changed(w: World, c: Change): World {
    match c
    case Issue(orderId, attempt) => IssueForOrder(w, orderId, attempt).0
    case Edit(no, q) => w.(payments := w.payments[no := if no in w.payments then Keep(w.payments[no], q) else q])
    case EditOrders(orders) => w.(orders := orders)
    case Stale(no, status, retry, at) =>
      if no in w.payments then w.(payments := w.payments[no := Overwritten(w.payments[no], status, retry, at)]) else w
  }

  // ----- runs -----

  /** A step of an execution: the next of its jobs, or a change that is committed while it is under way. */
  datatype Item = Turn(job: Job) | Meanwhile(change: Change)

  datatype Event = Batch(now: int, limit: nat, items: seq<Item>) | Outside(change: Change)

  function Jobs(items: seq<Item>): seq<Job> {
    if items == [] then []
    else if items[0].Turn? then [items[0].job] + Jobs(items[1..]) else Jobs(items[1..])
  }

  /**
   What is committed meanwhile stays when the execution is rolled back. A change that has to wait for a row that the
   execution has written comes after it, and reads what is there then.
   */
  function DoItem(t: Transaction, i: Item): Transaction {
    match i
    case Turn(j) => if j.no in t.seen.payments && j.no in t.kept.payments then DoJob(t, j).0 else t
    case Meanwhile(c) => t.(seen := Changed(t.seen, c), kept := Changed(t.kept, c))
  }

  function DoItems(t: Transaction, items: seq<Item>): Transaction
    decreases |items|
  {
    if items == [] then t else DoItems(DoItem(t, items[0]), items[1..])
  }

  /** The rows are picked when the execution begins, and not read again before their turn. */
  ghost predicate Allowed(w: World, e: Event) {
    e.Batch? ==> Ready(w.payments, Jobs(e.items)) && Answer(w.payments, e.now, e.limit, Numbers(Jobs(e.items)))
  }

  function After(w: World, e: Event): World {
    match e
    case Batch(_, _, items) => DoItems(Started(w), items).seen
    case Outside(c) => Changed(w, c)
  }

  ghost predicate Valid(w: World, events: seq<Event>)
    decreases |events|
  {
    events == [] || (Allowed(w, events[0]) && Valid(After(w, events[0]), events[1..]))
  }

  function Final(w: World, events: seq<Event>): World
    decreases |events|
  {
    if events == [] then w else Final(After(w, events[0]), events[1..])
  }

  function Turns(jobs: seq<Job>): (items: seq<Item>)
    ensures |items| == |jobs|
  {
    seq(|jobs|, i requires 0 <= i < |jobs| => Turn(jobs[i]))
  }

  /** With nothing in between an execution is the method of the runner. */
  lemma {:induction false} AloneIsExecute(t: Transaction, jobs: seq<Job>)
    requires Known(t, jobs) && t.seen.payments.Keys == t.kept.payments.Keys
    ensures Jobs(Turns(jobs)) == jobs && DoItems(t, Turns(jobs)) == DoJobs(t, jobs).0
    decreases |jobs|
  {
    if jobs == [] {
    } else {
      assert Turns(jobs)[1..] == Turns(jobs[1..]);
      StillKnown(t, jobs);
      DoJobKeys(t, jobs[0]);
      AloneIsExecute(DoJob(t, jobs[0]).0, jobs[1..]);
    }
  }

  // ----- counting -----

  /** The execution is aborted at one of these jobs, and rolled back in the end. */
  predicate SomeAborts(jobs: seq<Job>) {
    jobs != [] && (JobAborts(jobs[0]) || SomeAborts(jobs[1..]))
  }

  /** The gateway answers without a status. */
  predicate Silent(a: Attempt) {
    a.Answered? && a.status.None?
  }

  predicate Any(a: Attempt) {
    true
  }

  /** How many attempts have a property. */
  function Number(attempts: seq<Attempt>, p: Attempt -> bool): nat {
    if attempts == [] then 0 else (if p(attempts[0]) then 1 else 0) + Number(attempts[1..], p)
  }

  /** The attempts of a job that reach the gateway: none for a payment once the execution is aborted. */
  function Reaching(j: Job, aborted: bool): seq<Attempt> {
    match j
    case ForInvoices(_, attempts) => attempts
    case ForPayment(_, attempt) => if aborted then [] else [attempt]
  }

  function Made(jobs: seq<Job>, no: string, aborted: bool, p: Attempt -> bool): nat {
    if jobs == [] then 0
    else
      (if jobs[0].no == no then Number(Reaching(jobs[0], aborted), p) else 0)
      + Made(jobs[1..], no, aborted || JobAborts(jobs[0]), p)
  }

  predicate Committed(e: Event) {
    e.Batch? && !SomeAborts(Jobs(e.items))
  }

  /** Those in the executions that were committed, or in those that were rolled back. */
  function Total(events: seq<Event>, no: string, rolledBack: bool, p: Attempt -> bool): nat {
    if events == [] then 0
    else
      var e := events[0];
      (if e.Batch? && Committed(e) == !rolledBack then Made(Jobs(e.items), no, false, p) else 0)
      + Total(events[1..], no, rolledBack, p)
  }

  function Attempts(events: seq<Event>, no: string, rolledBack: bool): nat {
    Total(events, no, rolledBack, Any)
  }

  function Successes(events: seq<Event>, no: string, rolledBack: bool): nat {
    Total(events, no, rolledBack, Success)
  }

  /** How many attempts of committed executions were answered without a status. */
  function Silences(events: seq<Event>, no: string): nat {
    Total(events, no, false, Silent)
  }

  // ----- the measure -----

  /** How many attempts a payment still has. Without a status it has one however often it was tried. */
  function Budget(p: Payment): (n: nat)
    ensures n <= MAX_RETRY
  {
    if p.issuedAt.Some? || p.notes.status == Some(SUCCESS) then 0
    else if p.notes.retry.None? then if p.notes.status.None? then MAX_RETRY else 0
    else Max(if p.notes.status.None? then 1 else 0, MAX_RETRY - p.notes.retry.value)
  }

  /** The query picks up an eligible payment exactly as long as it has attempts left. */
  lemma SelectedIff(now: int, p: Payment)
    ensures Eligible(now, p) ==> (Selected(now, p) <==> Budget(p) > 0)
  {
    var status := p.notes.status;
    assert status.Some? ==> status == Some(status.value);
  }

  /** Every record writes a retry count with its status, and an issue time with a success. */
  predicate Recorded(p: Payment) {
    && (p.notes.status.Some? ==> p.notes.retry.Some?)
    && (p.notes.status == Some(SUCCESS) ==> p.issuedAt.Some?)
  }

  ghost predicate Open(p: Payment) {
    p.issuedAt.None? && Pending(p.notes)
  }

  function Issued(p: Payment): nat {
    Unit(p.issuedAt.Some?)
  }

  /** `q` is what became of `p`: the same order and number of invoices, and an issue time stays. */
  predicate Follows(p: Payment, q: Payment) {
    q.orderId == p.orderId && q.notes.invoices == p.notes.invoices && (p.issuedAt.Some? ==> q.issuedAt.Some?)
      && (Recorded(p) ==> Recorded(q))
  }

  function Try(p: Payment, hasOrder: bool, a: Attempt): Payment {
    match a
    case Answered(status, at, _) =>
      var q := MarkPayment(p, status, if status == Some(SUCCESS) then Some(at) else None);
      if status == Some(SUCCESS) && !hasOrder then MarkPayment(q, Some(FAIL), None) else q
    case _ => MarkPayment(p, Some(FAIL), None)
  }

  /**
   An attempt costs at least one, unless its answer has no status. When the payment has none left, because something
   has used it up since it was picked, the attempt gives it none.
   */
  lemma TryLowers(p: Payment, hasOrder: bool, a: Attempt)
    requires Recorded(p) && !Aborts(a)
    ensures 1 + Budget(Try(p, hasOrder, a)) <= Max(1, Budget(p)) + Unit(Silent(a))
    ensures Success(a) ==> Try(p, hasOrder, a).issuedAt.Some?
    ensures Follows(p, Try(p, hasOrder, a))
  {
  }

  lemma IssueIsTry(w: World, no: string, a: Attempt)
    requires no in w.payments && !Aborts(a)
    ensures IssueByPayment(w, no, a).0.payments[no] == Try(w.payments[no], OrdersOf(w, no) != [], a)
    ensures forall x | x in w.payments && x != no :: IssueByPayment(w, no, a).0.payments[x] == w.payments[x]
  {
  }

  /** By how much a change raises what the payment has left. */
  function Rise(w: World, c: Change, no: string): nat {
    if no in w.payments && no in Changed(w, c).payments
    then Max(0, Budget(Changed(w, c).payments[no]) - Budget(w.payments[no])) else 0
  }

  lemma ChangedFollows(w: World, c: Change, no: string)
    requires no in w.payments
    ensures no in Changed(w, c).payments && Follows(w.payments[no], Changed(w, c).payments[no])
  {
  }

  /** What the changes during an execution add to what its transaction sees. */
  function RaisedIn(t: Transaction, items: seq<Item>, no: string): nat
    decreases |items|
  {
    if items == [] then 0
    else
      (if items[0].Meanwhile? then Rise(t.seen, items[0].change, no) else 0)
      + RaisedIn(DoItem(t, items[0]), items[1..], no)
  }

  /** The tables after the changes made while an execution is under way, on their own. */
  function AfterChange(w: World, i: Item): World {
    if i.Meanwhile? then Changed(w, i.change) else w
  }

  function Others(w: World, items: seq<Item>): World
    decreases |items|
  {
    if items == [] then w else Others(AfterChange(w, items[0]), items[1..])
  }

  function RaisedAlone(w: World, items: seq<Item>, no: string): nat
    decreases |items|
  {
    if items == [] then 0
    else
      (if items[0].Meanwhile? then Rise(w, items[0].change, no) else 0)
      + RaisedAlone(AfterChange(w, items[0]), items[1..], no)
  }

  function RaisedBy(w: World, e: Event, no: string): nat {
    match e
    case Batch(_, _, items) => if Committed(e) then RaisedIn(Started(w), items, no) else RaisedAlone(w, items, no)
    case Outside(c) => Rise(w, c, no)
  }

  /** What the rest of the program adds to the attempts that the payment has. */
  function Raised(w: World, events: seq<Event>, no: string): nat
    decreases |events|
  {
    if events == [] then 0 else RaisedBy(w, events[0], no) + Raised(After(w, events[0]), events[1..], no)
  }

  // ----- one execution -----

  lemma {:induction false} DirectlyElsewhere(w: World, no: string, attempts: seq<Attempt>, other: string)
    requires no in w.payments && other in w.payments && other != no
    ensures Directly(w, no, attempts).0.payments[other] == w.payments[other]
  {
    if attempts == [] {
    } else {
      DirectlyElsewhere(w, no, attempts[..|attempts| - 1], other);
    }
  }

  lemma {:induction false} DirectlyFollows(w: World, no: string, attempts: seq<Attempt>)
    requires no in w.payments
    ensures Follows(w.payments[no], Directly(w, no, attempts).0.payments[no])
  {
    if attempts == [] {
    } else {
      DirectlyFollows(w, no, attempts[..|attempts| - 1]);
    }
  }

  ghost predicate In(t: Transaction, no: string) {
    no in t.seen.payments && no in t.kept.payments
  }

  lemma TurnElsewhere(t: Transaction, j: Job, other: string)
    requires In(t, other) && other != j.no
    ensures var t' := DoItem(t, Turn(j));
            && In(t', other) && t'.kept.payments[other] == t.kept.payments[other]
            && t'.seen.payments[other]
               == (if In(t, j.no) && JobAborts(j) && !t.aborted then t.kept else t.seen).payments[other]
            && t'.aborted == (t.aborted || (In(t, j.no) && JobAborts(j)))
  {
    if In(t, j.no) {
      match j
      case ForInvoices(no, attempts) =>
        DirectlyElsewhere(t.seen, no, attempts, other);
        DirectlyElsewhere(t.kept, no, attempts, other);
      case ForPayment(no, attempt) =>
        if !t.aborted && !Aborts(attempt) {
          IssueIsTry(t.seen, no, attempt);
        }
    }
  }

  /** The payment's own job, when it has one invoice. */
  lemma OwnTurn(t: Transaction, j: Job)
    requires In(t, j.no) && j.ForPayment? && Recorded(t.seen.payments[j.no])
    ensures var t' := DoItem(t, Turn(j));
            && In(t', j.no) && t'.kept == t.kept && t'.aborted == (t.aborted || JobAborts(j))
            && (t.aborted ==> t' == t) && (JobAborts(j) && !t.aborted ==> t'.seen == t.kept)
            && (!t'.aborted ==>
                  && Follows(t.seen.payments[j.no], t'.seen.payments[j.no])
                  && 1 + Budget(t'.seen.payments[j.no])
                     <= Max(1, Budget(t.seen.payments[j.no])) + Unit(Silent(j.attempt))
                  && (Success(j.attempt) ==> t'.seen.payments[j.no].issuedAt.Some?))
  {
    if !t.aborted && !Aborts(j.attempt) {
      IssueIsTry(t.seen, j.no, j.attempt);
      TryLowers(t.seen.payments[j.no], OrdersOf(t.seen, j.no) != [], j.attempt);
    }
  }

  lemma MeanwhileFollows(t: Transaction, c: Change, no: string)
    requires In(t, no)
    ensures var t' := DoItem(t, Meanwhile(c));
            && In(t', no) && t'.aborted == t.aborted
            && Follows(t.seen.payments[no], t'.seen.payments[no]) && Follows(t.kept.payments[no], t'.kept.payments[no])
  {
    ChangedFollows(t.seen, c, no);
    ChangedFollows(t.kept, c, no);
  }

  predicate HasTurn(items: seq<Item>, no: string) {
    items != [] && ((items[0].Turn? && items[0].job.no == no) || HasTurn(items[1..], no))
  }

  /** The payment has at most one turn, for its one invoice. */
  predicate Orderly(items: seq<Item>, no: string) {
    items == []
    || (Orderly(items[1..], no)
        && (items[0].Turn? && items[0].job.no == no ==> items[0].job.ForPayment? && !HasTurn(items[1..], no)))
  }

  /** The jobs after a turn, and after a change. */
  lemma JobsStep(items: seq<Item>)
    requires items != []
    ensures items[0].Turn? ==> Jobs(items)[0] == items[0].job && Jobs(items)[1..] == Jobs(items[1..])
    ensures items[0].Turn? ==> SomeAborts(Jobs(items)) == (JobAborts(items[0].job) || SomeAborts(Jobs(items[1..])))
    ensures items[0].Meanwhile? ==> Jobs(items) == Jobs(items[1..])
  {
    if items[0].Turn? {
      assert Jobs(items) == [items[0].job] + Jobs(items[1..]);
      assert Jobs(items)[1..] == Jobs(items[1..]);
    }
  }

  lemma {:induction false} TurnIsJob(items: seq<Item>, no: string) returns (k: nat)
    requires HasTurn(items, no)
    ensures k < |Jobs(items)| && Jobs(items)[k].no == no
    decreases |items|
  {
    JobsStep(items);
    if items[0].Turn? && items[0].job.no == no {
      k := 0;
    } else {
      k := TurnIsJob(items[1..], no);
      if items[0].Turn? {
        assert Jobs(items)[k + 1] == Jobs(items[1..])[k];
        k := k + 1;
      }
    }
  }

  lemma {:induction false} NoTurn(items: seq<Item>, no: string, aborted: bool, p: Attempt -> bool)
    requires !HasTurn(items, no)
    ensures Made(Jobs(items), no, aborted, p) == 0
    decreases |items|
  {
    if items == [] {
    } else {
      JobsStep(items);
      NoTurn(items[1..], no, aborted || (items[0].Turn? && JobAborts(items[0].job)), p);
    }
  }

  lemma {:induction false} ReadyOrderly(items: seq<Item>, no: string)
    requires forall i, j | 0 <= i < j < |Jobs(items)| :: Jobs(items)[i].no != Jobs(items)[j].no
    requires forall i | 0 <= i < |Jobs(items)| && Jobs(items)[i].no == no :: Jobs(items)[i].ForPayment?
    ensures Orderly(items, no)
    decreases |items|
  {
    if items == [] {
    } else {
      JobsStep(items);
      var jobs, rest := Jobs(items), Jobs(items[1..]);
      var d := if items[0].Turn? then 1 else 0;
      assert forall i | 0 <= i < |rest| :: rest[i] == jobs[i + d];
      ReadyOrderly(items[1..], no);
      if items[0].Turn? && items[0].job.no == no && HasTurn(items[1..], no) {
        var _ := TurnIsJob(items[1..], no);
      }
    }
  }

  lemma OneAttempt(a: Attempt, p: Attempt -> bool)
    ensures Number([a], p) == Unit(p(a))
  {
    assert [a][1..] == [];
  }

  /** How the turn counts. */
  lemma MadeStep(items: seq<Item>, no: string, p: Attempt -> bool)
    requires items != [] && Orderly(items, no) && !SomeAborts(Jobs(items))
    ensures Made(Jobs(items), no, false, p)
            == (if items[0].Turn? && items[0].job.no == no then Unit(p(items[0].job.attempt)) else 0)
               + Made(Jobs(items[1..]), no, false, p)
  {
    JobsStep(items);
    if items[0].Turn? && items[0].job.no == no {
      OneAttempt(items[0].job.attempt, p);
    }
  }

  /** What is left at the end, and the attempts made, come out of what is in the bank and what is added to it. */
  ghost predicate PaidFor(t: Transaction, items: seq<Item>, no: string, bank: nat) {
    var q := DoItems(t, items).seen.payments;
    && no in q
    && Made(Jobs(items), no, false, Any) + Budget(q[no])
       <= bank + Made(Jobs(items), no, false, Silent) + RaisedIn(t, items, no)
  }

  lemma PaidByTurn(t: Transaction, items: seq<Item>, no: string, bank: nat, bank': nat)
    requires items != [] && Orderly(items, no) && !SomeAborts(Jobs(items)) && items[0].Turn?
    requires PaidFor(DoItem(t, items[0]), items[1..], no, bank')
    requires bank' == if items[0].job.no == no then bank - 1 + Unit(Silent(items[0].job.attempt)) else bank
    ensures PaidFor(t, items, no, bank)
  {
    MadeStep(items, no, Any);
    MadeStep(items, no, Silent);
  }

  lemma PaidByChange(t: Transaction, items: seq<Item>, no: string, bank: nat)
    requires items != [] && items[0].Meanwhile?
    requires PaidFor(DoItem(t, items[0]), items[1..], no, bank + Rise(t.seen, items[0].change, no))
    ensures PaidFor(t, items, no, bank)
  {
    JobsStep(items);
  }

  /** In an execution that is committed the payment was picked with something in the bank, which pays for its turn. */
  lemma {:induction false} CommittedPays(t: Transaction, items: seq<Item>, no: string, bank: nat)
    requires In(t, no) && !t.aborted && !SomeAborts(Jobs(items)) && Orderly(items, no)
    requires Recorded(t.seen.payments[no])
    requires Budget(t.seen.payments[no]) <= bank && (HasTurn(items, no) ==> bank >= 1)
    ensures PaidFor(t, items, no, bank)
    decreases |items|
  {
    if items == [] {
    } else {
      JobsStep(items);
      var t', rest := DoItem(t, items[0]), items[1..];
      if items[0].Meanwhile? {
        MeanwhileFollows(t, items[0].change, no);
        CommittedPays(t', rest, no, bank + Rise(t.seen, items[0].change, no));
        PaidByChange(t, items, no, bank);
      } else if items[0].job.no == no {
        OwnTurn(t, items[0].job);
        CommittedPays(t', rest, no, bank - 1 + Unit(Silent(items[0].job.attempt)));
        PaidByTurn(t, items, no, bank, bank - 1 + Unit(Silent(items[0].job.attempt)));
      } else {
        TurnElsewhere(t, items[0].job, no);
        CommittedPays(t', rest, no, bank);
        PaidByTurn(t, items, no, bank, bank);
      }
    }
  }

  /** A committed success leaves an issue time, and an issue time stays. */
  lemma {:induction false} CommittedGains(t: Transaction, items: seq<Item>, no: string)
    requires In(t, no) && !t.aborted && !SomeAborts(Jobs(items)) && Orderly(items, no)
    requires Recorded(t.seen.payments[no])
    ensures var q := DoItems(t, items).seen.payments;
            && no in q && Follows(t.seen.payments[no], q[no])
            && Made(Jobs(items), no, false, Success) <= Issued(q[no])
    decreases |items|
  {
    if items == [] {
    } else {
      JobsStep(items);
      var t', rest := DoItem(t, items[0]), items[1..];
      MadeStep(items, no, Success);
      if items[0].Meanwhile? {
        MeanwhileFollows(t, items[0].change, no);
      } else if items[0].job.no == no {
        OwnTurn(t, items[0].job);
        NoTurn(rest, no, false, Success);
      } else {
        TurnElsewhere(t, items[0].job, no);
      }
      CommittedGains(t', rest, no);
    }
  }

  /** Two states of the tables that agree on the payment and on which orders there are. */
  ghost predicate Agree(v: World, w: World, no: string) {
    no in v.payments && no in w.payments && v.payments[no] == w.payments[no] && v.orders.Keys == w.orders.Keys
  }

  lemma ChangesAgree(v: World, w: World, c: Change, no: string)
    requires Agree(v, w, no)
    ensures Agree(Changed(v, c), Changed(w, c), no) && Rise(v, c, no) == Rise(w, c, no)
  {
  }

  lemma {:induction false} DirectlyOrders(w: World, no: string, attempts: seq<Attempt>)
    requires no in w.payments
    ensures Directly(w, no, attempts).0.orders.Keys == w.orders.Keys
  {
    if attempts == [] {
    } else {
      DirectlyOrders(w, no, attempts[..|attempts| - 1]);
    }
  }

  lemma AbortedAgree(t: Transaction, c: Change, no: string)
    requires In(t, no) && t.seen.payments[no] == t.kept.payments[no] && t.seen.orders.Keys == t.kept.orders.Keys
    ensures var t' := DoItem(t, Meanwhile(c));
            t'.seen.payments[no] == t'.kept.payments[no] && t'.seen.orders.Keys == t'.kept.orders.Keys
  {
    ChangesAgree(t.seen, t.kept, c, no);
  }

  lemma StayIn(t: Transaction, i: Item, no: string)
    requires In(t, no)
    ensures In(DoItem(t, i), no)
  {
    if i.Turn? && i.job.no != no {
      TurnElsewhere(t, i.job, no);
    }
  }

  lemma JobsStayIn(t: Transaction, items: seq<Item>)
    requires items != [] && forall i | 0 <= i < |Jobs(items)| :: In(t, Jobs(items)[i].no)
    ensures forall i | 0 <= i < |Jobs(items[1..])| :: In(DoItem(t, items[0]), Jobs(items[1..])[i].no)
  {
    JobsStep(items);
    var d := if items[0].Turn? then 1 else 0;
    forall i | 0 <= i < |Jobs(items[1..])|
      ensures In(DoItem(t, items[0]), Jobs(items[1..])[i].no)
    {
      assert Jobs(items[1..])[i] == Jobs(items)[i + d];
      StayIn(t, items[0], Jobs(items[1..])[i].no);
    }
  }

  /** The same orders are there for the transaction and for a rollback of it. */
  lemma SameOrders(t: Transaction, i: Item)
    requires t.seen.orders.Keys == t.kept.orders.Keys
    ensures DoItem(t, i).seen.orders.Keys == DoItem(t, i).kept.orders.Keys
    ensures i.Turn? ==> DoItem(t, i).kept.orders.Keys == t.kept.orders.Keys
  {
    if i.Turn? && In(t, i.job.no) && i.job.ForInvoices? {
      DirectlyOrders(t.seen, i.job.no, i.job.attempts);
      DirectlyOrders(t.kept, i.job.no, i.job.attempts);
    }
  }

  /** A payment in an execution that is, or will be, rolled back; `w` has the changes of others only. */
  ghost predicate Doomed(t: Transaction, w: World, items: seq<Item>, no: string) {
    && In(t, no) && Agree(t.kept, w, no) && t.seen.orders.Keys == t.kept.orders.Keys
    && Recorded(t.seen.payments[no]) && Recorded(t.kept.payments[no])
    && Orderly(items, no) && (t.aborted || SomeAborts(Jobs(items)))
    && (t.aborted ==> t.seen.payments[no] == t.kept.payments[no])
    && forall i | 0 <= i < |Jobs(items)| :: In(t, Jobs(items)[i].no)
  }

  lemma DoomedOn(t: Transaction, w: World, items: seq<Item>, no: string)
    requires items != [] && Doomed(t, w, items, no)
    ensures Doomed(DoItem(t, items[0]), AfterChange(w, items[0]), items[1..], no)
  {
    JobsStep(items);
    JobsStayIn(t, items);
    SameOrders(t, items[0]);
    if items[0].Meanwhile? {
      MeanwhileFollows(t, items[0].change, no);
      ChangesAgree(t.kept, w, items[0].change, no);
      if t.aborted {
        AbortedAgree(t, items[0].change, no);
      }
    } else {
      assert In(t, Jobs(items)[0].no);
      if items[0].job.no == no {
        OwnTurn(t, items[0].job);
      } else {
        TurnElsewhere(t, items[0].job, no);
      }
    }
  }

  lemma {:induction false} RollbackLeaves(t: Transaction, w: World, items: seq<Item>, no: string)
    requires Doomed(t, w, items, no)
    ensures var q := DoItems(t, items).seen.payments;
            no in q && no in Others(w, items).payments && q[no] == Others(w, items).payments[no]
    decreases |items|
  {
    if items == [] {
    } else {
      DoomedOn(t, w, items, no);
      RollbackLeaves(DoItem(t, items[0]), AfterChange(w, items[0]), items[1..], no);
    }
  }

  lemma {:induction false} OthersRaise(w: World, items: seq<Item>, no: string)
    requires no in w.payments
    ensures var q := Others(w, items).payments;
            && no in q && Follows(w.payments[no], q[no])
            && Budget(q[no]) <= Budget(w.payments[no]) + RaisedAlone(w, items, no)
    decreases |items|
  {
    if items == [] {
    } else {
      if items[0].Meanwhile? {
        ChangedFollows(w, items[0].change, no);
      }
      OthersRaise(AfterChange(w, items[0]), items[1..], no);
    }
  }

  // ----- the start of an execution -----

  /** A payment with a single invoice, and with the records that the program writes. */
  predicate Single(w: World, no: string) {
    no in w.payments && w.payments[no].notes.invoices == 0 && Recorded(w.payments[no])
  }

  lemma PickedSelected(w: World, e: Event, no: string)
    requires e.Batch? && Allowed(w, e) && HasTurn(e.items, no)
    ensures no in w.payments && Selected(e.now, w.payments[no])
  {
    var k := TurnIsJob(e.items, no);
    assert Numbers(Jobs(e.items))[k] == no;
  }

  lemma StartOrderly(w: World, e: Event, no: string)
    requires e.Batch? && Allowed(w, e) && Single(w, no)
    ensures Orderly(e.items, no)
    ensures HasTurn(e.items, no) ==> Budget(w.payments[no]) >= 1 && w.payments[no].issuedAt.None?
  {
    var jobs := Jobs(e.items);
    forall i | 0 <= i < |jobs| && jobs[i].no == no
      ensures jobs[i].ForPayment?
    {
      assert Fits(w.payments, jobs[i]);
    }
    ReadyOrderly(e.items, no);
    if HasTurn(e.items, no) {
      PickedSelected(w, e, no);
      SelectedIff(e.now, w.payments[no]);
    }
  }

  /**
   Whatever the gateway answered: an execution that is rolled back leaves of a payment with one invoice what the changes
   of others alone would have left; without any, the payment as it was.
   */
  lemma RolledBackLeaves(w: World, e: Event, no: string)
    requires e.Batch? && Allowed(w, e) && !Committed(e) && Single(w, no)
    ensures no in After(w, e).payments && no in Others(w, e.items).payments
    ensures After(w, e).payments[no] == Others(w, e.items).payments[no]
  {
    StartOrderly(w, e, no);
    forall i | 0 <= i < |Jobs(e.items)|
      ensures In(Started(w), Jobs(e.items)[i].no)
    {
      assert Fits(w.payments, Jobs(e.items)[i]);
    }
    RollbackLeaves(Started(w), w, e.items, no);
  }

  /**
   What an event may do to one payment: each attempt costs at least one, unless its answer has no status; a success is
   recorded.
   */
  ghost predicate Accounted(w: World, e: Event, no: string)
    requires no in w.payments
  {
    var p, q := w.payments[no], After(w, e).payments;
    var jobs := if Committed(e) then Jobs(e.items) else [];
    && no in q && Follows(p, q[no])
    && Made(jobs, no, false, Any) + Budget(q[no]) <= Budget(p) + Made(jobs, no, false, Silent) + RaisedBy(w, e, no)
    && Made(jobs, no, false, Success) + Issued(p) <= Issued(q[no])
  }

  lemma EventAccounted(w: World, e: Event, no: string)
    requires Allowed(w, e) && Single(w, no)
    ensures Accounted(w, e, no)
  {
    if e.Outside? {
      ChangedFollows(w, e.change, no);
    } else {
      StartOrderly(w, e, no);
      if Committed(e) {
        CommittedPays(Started(w), e.items, no, Budget(w.payments[no]));
        CommittedGains(Started(w), e.items, no);
        if !HasTurn(e.items, no) {
          NoTurn(e.items, no, false, Success);
        }
      } else {
        RolledBackLeaves(w, e, no);
        OthersRaise(w, e.items, no);
      }
    }
  }

  // ----- any run -----

  /**
   A payment with a single invoice, whatever the rest of the program does: every attempt in a committed execution,
   however it ends, is paid for from a budget of at most five and from what others have added to it, unless its answer
   has no status. A success that is committed is the only one.
   */
  lemma {:induction false} AttemptsBounded(w: World, events: seq<Event>, no: string)
    requires Valid(w, events) && Single(w, no)
    ensures Single(Final(w, events), no)
    ensures Attempts(events, no, false) + Budget(Final(w, events).payments[no])
            <= Budget(w.payments[no]) + Silences(events, no) + Raised(w, events, no)
    ensures Successes(events, no, false) + Issued(w.payments[no]) <= Issued(Final(w, events).payments[no])
    decreases |events|
  {
    if events == [] {
    } else {
      EventAccounted(w, events[0], no);
      AttemptsBounded(After(w, events[0]), events[1..], no);
    }
  }

  // ----- what the issue endpoint adds -----

  /** The endpoint records an answer without a status for the order. */
  predicate SilentIssue(c: Change, orderId: string) {
    c.Issue? && c.orderId == orderId && Silent(c.attempt) && !Aborts(c.attempt)
  }

  predicate Overwrites(c: Change, no: string) {
    c.Stale? && c.no == no
  }

  function Counted(items: seq<Item>, p: Change -> bool): nat {
    if items == [] then 0
    else (if items[0].Meanwhile? then Unit(p(items[0].change)) else 0) + Counted(items[1..], p)
  }

  /** How many changes have a property, between the executions and during them. */
  function Changes(events: seq<Event>, p: Change -> bool): nat {
    if events == [] then 0
    else
      (match events[0] case Batch(_, _, items) => Counted(items, p) case Outside(c) => Unit(p(c)))
      + Changes(events[1..], p)
  }

  /** The answers without a status at the endpoint that are about this order. */
  function IssueSilences(events: seq<Event>, orderId: string): nat {
    Changes(events, (c: Change) => SilentIssue(c, orderId))
  }

  /** How many records of the payment overwrite a record that they have not read. */
  function LostRecords(events: seq<Event>, no: string): nat {
    Changes(events, (c: Change) => Overwrites(c, no))
  }

  /** A stale record counts one attempt at least. */
  const LOST := MAX_RETRY - 1

  /** An answer without a status at the endpoint adds one attempt at most, and a stale record not more than four. */
  function Price(c: Change, no: string, orderId: string): nat {
    Unit(SilentIssue(c, orderId)) + LOST * Unit(Overwrites(c, no))
  }

  lemma RisePriced(w: World, c: Change, no: string)
    requires no in w.payments && Recorded(w.payments[no])
    ensures Rise(w, c, no) <= Price(c, no, w.payments[no].orderId)
  {
  }

  function Priced(items: seq<Item>, no: string, orderId: string): nat {
    Counted(items, (c: Change) => SilentIssue(c, orderId))
    + LOST * Counted(items, (c: Change) => Overwrites(c, no))
  }

  lemma {:induction false} AlonePriced(w: World, items: seq<Item>, no: string)
    requires no in w.payments && Recorded(w.payments[no])
    ensures RaisedAlone(w, items, no) <= Priced(items, no, w.payments[no].orderId)
    decreases |items|
  {
    if items == [] {
    } else {
      if items[0].Meanwhile? {
        ChangedFollows(w, items[0].change, no);
        RisePriced(w, items[0].change, no);
      }
      AlonePriced(AfterChange(w, items[0]), items[1..], no);
    }
  }

  lemma {:induction false} CommittedPriced(t: Transaction, items: seq<Item>, no: string)
    requires In(t, no) && !t.aborted && !SomeAborts(Jobs(items)) && Orderly(items, no)
    requires Recorded(t.seen.payments[no])
    ensures RaisedIn(t, items, no) <= Priced(items, no, t.seen.payments[no].orderId)
    decreases |items|
  {
    if items == [] {
    } else {
      JobsStep(items);
      if items[0].Meanwhile? {
        MeanwhileFollows(t, items[0].change, no);
        RisePriced(t.seen, items[0].change, no);
      } else if items[0].job.no == no {
        OwnTurn(t, items[0].job);
      } else {
        TurnElsewhere(t, items[0].job, no);
      }
      CommittedPriced(DoItem(t, items[0]), items[1..], no);
    }
  }

  lemma EventPriced(w: World, e: Event, no: string)
    requires Allowed(w, e) && Single(w, no)
    ensures RaisedBy(w, e, no)
            <= IssueSilences([e], w.payments[no].orderId) + LOST * LostRecords([e], no)
  {
    assert [e][1..] == [];
    if e.Outside? {
      RisePriced(w, e.change, no);
    } else {
      StartOrderly(w, e, no);
      if Committed(e) {
        CommittedPriced(Started(w), e.items, no);
      } else {
        AlonePriced(w, e.items, no);
      }
    }
  }

  lemma ChangesStep(events: seq<Event>, p: Change -> bool)
    requires events != []
    ensures Changes(events, p) == Changes([events[0]], p) + Changes(events[1..], p)
  {
    assert [events[0]][1..] == [];
  }

  /** What the rest of the program adds comes from answers without a status at the endpoint and from stale records. */
  lemma {:induction false} RaisedByIssues(w: World, events: seq<Event>, no: string)
    requires Valid(w, events) && Single(w, no)
    ensures Raised(w, events, no)
            <= IssueSilences(events, w.payments[no].orderId) + LOST * LostRecords(events, no)
    decreases |events|
  {
    if events == [] {
    } else {
      var orderId := w.payments[no].orderId;
      ChangesStep(events, (c: Change) => SilentIssue(c, orderId));
      ChangesStep(events, (c: Change) => Overwrites(c, no));
      EventPriced(w, events[0], no);
      EventAccounted(w, events[0], no);
      RaisedByIssues(After(w, events[0]), events[1..], no);
    }
  }

  /**
   In committed executions at most five attempts, when every answer has a status and no record is lost, and at most one
   success in any case.
   */
  lemma FiveAttempts(w: World, events: seq<Event>, no: string)
    requires Valid(w, events) && Single(w, no)
    ensures var silences := Silences(events, no) + IssueSilences(events, w.payments[no].orderId);
            && Attempts(events, no, false) <= MAX_RETRY + silences + LOST * LostRecords(events, no)
            && (silences == 0 && LostRecords(events, no) == 0 ==> Attempts(events, no, false) <= MAX_RETRY)
    ensures Successes(events, no, false) <= 1
  {
    AttemptsBounded(w, events, no);
    RaisedByIssues(w, events, no);
  }

  // ----- once an issue time is recorded -----

  lemma {:induction false} ItemsFollow(t: Transaction, items: seq<Item>, no: string)
    requires In(t, no) && !HasTurn(items, no)
    requires t.seen.payments[no].issuedAt.Some? && t.kept.payments[no].issuedAt.Some?
    ensures var q := DoItems(t, items).seen.payments; no in q && q[no].issuedAt.Some?
    decreases |items|
  {
    if items == [] {
    } else {
      if items[0].Meanwhile? {
        MeanwhileFollows(t, items[0].change, no);
      } else {
        TurnElsewhere(t, items[0].job, no);
      }
      ItemsFollow(DoItem(t, items[0]), items[1..], no);
    }
  }

  /** A payment with an issue time is not picked, however many invoices it has, and keeps an issue time. */
  lemma IssuedUntouched(w: World, e: Event, no: string)
    requires Allowed(w, e) && no in w.payments && w.payments[no].issuedAt.Some?
    ensures no in After(w, e).payments && After(w, e).payments[no].issuedAt.Some?
    ensures e.Batch? ==> !HasTurn(e.items, no)
  {
    if e.Batch? {
      if HasTurn(e.items, no) {
        PickedSelected(w, e, no);
      }
      ItemsFollow(Started(w), e.items, no);
    } else {
      ChangedFollows(w, e.change, no);
    }
  }

  /** Executions that begin after an issue time is recorded, by whomever, do not attempt the payment. */
  lemma {:induction false} NeverAgain(w: World, events: seq<Event>, no: string, rolledBack: bool)
    requires Valid(w, events) && no in w.payments && w.payments[no].issuedAt.Some?
    ensures Attempts(events, no, rolledBack) == 0
    decreases |events|
  {
    if events == [] {
    } else {
      IssuedUntouched(w, events[0], no);
      if events[0].Batch? {
        NoTurn(events[0].items, no, false, Any);
      }
      NeverAgain(After(w, events[0]), events[1..], no, rolledBack);
    }
  }

  // ----- the bound is reached, and needs its hypotheses -----

  /** Every attempt of the payment's job ends the same way. */
  function Alike(p: Payment, no: string, a: Attempt): Job {
    if p.notes.invoices == 0 then ForPayment(no, a) else ForInvoices(no, seq(p.notes.invoices, _ => a))
  }

  function OneJob(now: int, p: Payment, no: string, a: Attempt): Event {
    Batch(now, 1, [Turn(Alike(p, no, a))])
  }

  lemma OneJobAllowed(w: World, now: int, no: string, a: Attempt)
    requires no in w.payments && Selected(now, w.payments[no])
    ensures var e, j := OneJob(now, w.payments[no], no, a), Alike(w.payments[no], no, a);
            && Allowed(w, e) && After(w, e) == DoJob(Started(w), j).0.seen
            && Committed(e) == !JobAborts(j)
            && forall p :: Made(Jobs(e.items), no, false, p) == Number(Reaching(j, false), p)
  {
    var j := Alike(w.payments[no], no, a);
    var items := [Turn(j)];
    JobsStep(items);
    assert items[1..] == [] && Jobs(items) == [j] && [j][1..] == [];
    assert Numbers([j]) == [no];
    assert DoItems(Started(w), items) == DoItems(DoItem(Started(w), items[0]), []);
  }

  /** One committed attempt at a payment with a single invoice. */
  lemma OneCommitted(w: World, now: int, no: string, a: Attempt)
    requires no in w.payments && Selected(now, w.payments[no]) && w.payments[no].notes.invoices == 0 && !Aborts(a)
    ensures var p, e := w.payments[no], OneJob(now, w.payments[no], no, a);
            && Allowed(w, e) && Committed(e) && no in After(w, e).payments
            && After(w, e).payments[no] == Try(p, OrdersOf(w, no) != [], a)
            && Made(Jobs(e.items), no, false, Any) == 1
            && Made(Jobs(e.items), no, false, Silent) == Unit(Silent(a))
            && forall p :: Changes([e], p) == 0
  {
    OneJobAllowed(w, now, no, a);
    IssueIsTry(w, no, a);
    OneAttempt(a, Any);
    OneAttempt(a, Silent);
    NoChanges(OneJob(now, w.payments[no], no, a));
  }

  lemma NoChanges(e: Event)
    requires e.Batch? && |e.items| == 1 && e.items[0].Turn?
    ensures forall p :: Changes([e], p) == 0
  {
    forall p: Change -> bool
      ensures Changes([e], p) == 0
    {
      assert [e][1..] == [] && e.items[1..] == [];
      assert Counted(e.items, p) == Counted(e.items[1..], p) == 0;
      assert Changes([e], p) == Counted(e.items, p) + Changes([e][1..], p);
    }
  }

  const FAILED := Thrown
  const SILENCE := Answered(None, 0, false)
  const SOME_ORDER := Order(None, Notes(None, None, false, 0))

  /** Waste no attempt: an answer without a status comes when only one is left. */
  function NextAttempt(p: Payment, silences: nat): Attempt {
    if Budget(p) == 1 && silences > 0 then SILENCE else FAILED
  }

  /** The payment could be picked but for its records, and has not been issued. */
  ghost predicate Waiting(w: World, now: int, no: string) {
    Single(w, no) && Eligible(now, w.payments[no]) && w.payments[no].issuedAt.None?
  }

  lemma NextCosts(p: Payment, hasOrder: bool, silences: nat)
    requires Open(p) && Budget(p) > 0
    ensures var q, a := Try(p, hasOrder, NextAttempt(p, silences)), NextAttempt(p, silences);
            && Budget(q) + 1 == Budget(p) + Unit(Silent(a)) && q.issuedAt == p.issuedAt && Follows(p, q)
            && forall now :: Eligible(now, q) <==> Eligible(now, p)
  {
  }

  function Ordered(w: World, orderId: string): Change {
    EditOrders(w.orders[orderId := SOME_ORDER])
  }

  /** Once the order is there, an answer without a status at the endpoint gives the payment another attempt. */
  function Reopening(w: World, orderId: string): World {
    Changed(Changed(w, Ordered(w, orderId)), Issue(orderId, SILENCE))
  }

  lemma Reopened(w: World, now: int, no: string)
    requires Waiting(w, now, no) && Budget(w.payments[no]) == 0
    ensures var orderId := w.payments[no].orderId; var w' := Reopening(w, orderId);
            && Waiting(w', now, no) && w'.payments[no].orderId == orderId && Budget(w'.payments[no]) == 1
  {
  }

  /** Answers without a status in the executions and at the endpoint, and lost records. */
  datatype Extra = Extra(silences: nat, issues: nat, losses: nat)

  /** How many attempts they are worth. */
  function Worth(x: Extra): nat {
    x.silences + x.issues + LOST * x.losses
  }

  /** What a run that was built so far adds up to. */
  ghost predicate Sums(w: World, events: seq<Event>, no: string, attempts: nat, extra: Extra) {
    && Valid(w, events) && no in w.payments
    && Attempts(events, no, false) == attempts && Silences(events, no) == extra.silences
    && IssueSilences(events, w.payments[no].orderId) == extra.issues && LostRecords(events, no) == extra.losses
  }

  lemma SumsAfterJob(w: World, now: int, no: string, a: Attempt, rest: seq<Event>, n: nat, x: Extra)
    requires Waiting(w, now, no) && Selected(now, w.payments[no]) && !Aborts(a)
    requires var w' := After(w, OneJob(now, w.payments[no], no, a));
             Sums(w', rest, no, n, x) && w'.payments[no].orderId == w.payments[no].orderId
    ensures Sums(w, [OneJob(now, w.payments[no], no, a)] + rest, no, n + 1,
                 x.(silences := x.silences + Unit(Silent(a))))
  {
    OneCommitted(w, now, no, a);
    var e, orderId := OneJob(now, w.payments[no], no, a), w.payments[no].orderId;
    var events := [e] + rest;
    assert events[1..] == rest && events[0] == e;
    ChangesStep(events, (c: Change) => SilentIssue(c, orderId));
    ChangesStep(events, (c: Change) => Overwrites(c, no));
  }

  lemma SumsAfterChange(w: World, c: Change, no: string, rest: seq<Event>, n: nat, x: Extra)
    requires no in w.payments && Sums(Changed(w, c), rest, no, n, x)
    requires Changed(w, c).payments[no].orderId == w.payments[no].orderId
    ensures Sums(w, [Outside(c)] + rest, no, n,
                 x.(issues := x.issues + Unit(SilentIssue(c, w.payments[no].orderId)),
                    losses := x.losses + Unit(Overwrites(c, no))))
  {
    var events := [Outside(c)] + rest;
    assert events[1..] == rest && events[0] == Outside(c);
  }

  lemma SumsAfterIssue(w: World, now: int, no: string, rest: seq<Event>, n: nat, x: Extra) returns (events: seq<Event>)
    requires Waiting(w, now, no) && Budget(w.payments[no]) == 0
    requires Sums(Reopening(w, w.payments[no].orderId), rest, no, n, x)
    ensures Sums(w, events, no, n, x.(issues := x.issues + 1))
  {
    var orderId := w.payments[no].orderId;
    var c, c' := Ordered(w, orderId), Issue(orderId, SILENCE);
    Reopened(w, now, no);
    SumsAfterChange(Changed(w, c), c', no, rest, n, x);
    SumsAfterChange(w, c, no, [Outside(c')] + rest, n, x.(issues := x.issues + 1));
    events := [Outside(c)] + ([Outside(c')] + rest);
  }

  lemma Forgotten(w: World, now: int, no: string)
    requires Waiting(w, now, no)
    ensures var w' := Changed(w, Stale(no, Some(FAIL), 1, 0));
            Waiting(w', now, no) && Budget(w'.payments[no]) == LOST && w'.payments[no].orderId == w.payments[no].orderId
  {
  }

  /**
   A payment is attempted as often as its budget says, once more for every answer without a status, in the executions
   and at the issue endpoint, and four times more for every lost record.
   */
  lemma {:induction false} BoundReached(w: World, now: int, no: string, x: Extra) returns (events: seq<Event>)
    requires Waiting(w, now, no) && (x.silences > 0 ==> Selected(now, w.payments[no]))
    ensures Sums(w, events, no, Budget(w.payments[no]) + Worth(x), x)
    decreases x.issues + x.losses, Budget(w.payments[no]) + x.silences
  {
    events := [];
    var p := w.payments[no];
    SelectedIff(now, p);
    if Budget(p) > 0 {
      var a := NextAttempt(p, x.silences);
      var w', left := After(w, OneJob(now, p, no, a)), x.(silences := x.silences - Unit(Silent(a)));
      OneCommitted(w, now, no, a);
      NextCosts(p, OrdersOf(w, no) != [], x.silences);
      SelectedIff(now, w'.payments[no]);
      var rest := BoundReached(w', now, no, left);
      SumsAfterJob(w, now, no, a, rest, Budget(w'.payments[no]) + Worth(left), left);
      events := [OneJob(now, p, no, a)] + rest;
    } else if x.issues > 0 {
      Reopened(w, now, no);
      var left := x.(issues := x.issues - 1);
      var rest := BoundReached(Reopening(w, p.orderId), now, no, left);
      events := SumsAfterIssue(w, now, no, rest, 1 + Worth(left), left);
    } else if x.losses > 0 {
      Forgotten(w, now, no);
      var c, left := Stale(no, Some(FAIL), 1, 0), x.(losses := x.losses - 1);
      var rest := BoundReached(Changed(w, c), now, no, left);
      SumsAfterChange(w, c, no, rest, LOST + Worth(left), left);
      events := [Outside(c)] + rest;
    }
  }

  ghost predicate Within(w: World, events: seq<Event>, no: string, x: Extra)
    requires no in w.payments
  {
    && Valid(w, events) && Silences(events, no) <= x.silences
    && IssueSilences(events, w.payments[no].orderId) <= x.issues && LostRecords(events, no) <= x.losses
  }

  /**
   With so many answers without a status, in the executions and at the endpoint, and so many lost records, the payment
   is attempted no more often than this in committed executions.
   */
  ghost predicate AtMost(w: World, no: string, x: Extra, limit: nat)
    requires no in w.payments
  {
    forall events | Within(w, events, no, x) :: Attempts(events, no, false) <= limit
  }

  /** The exact limit: what is left of the budget, one for every answer without a status, four for every lost record. */
  lemma LimitIff(w: World, now: int, no: string, x: Extra, limit: nat)
    requires Single(w, no) && Selected(now, w.payments[no])
    ensures AtMost(w, no, x, limit) <==> Budget(w.payments[no]) + x.silences + x.issues + 4 * x.losses <= limit
  {
    forall events | Within(w, events, no, x)
      ensures Attempts(events, no, false) <= Budget(w.payments[no]) + Worth(x)
    {
      AttemptsBounded(w, events, no);
      RaisedByIssues(w, events, no);
    }
    var events := BoundReached(w, now, no, x);
    assert Sums(w, events, no, Budget(w.payments[no]) + Worth(x), x);
    assert Within(w, events, no, x);
  }

  // ----- an invoice issued while an execution is under way -----

  /** The endpoint issues an invoice for the order of a payment that was picked and has not had its turn. */
  function Overtaken(now: int, orderId: string, no: string, at: int): Event {
    Batch(now, 1, [Meanwhile(Issue(orderId, Answered(Some(SUCCESS), at, false))),
                   Turn(ForPayment(no, Answered(Some(SUCCESS), at, false)))])
  }

  lemma OvertakenItems(w: World, now: int, no: string, at: int)
    requires no in w.payments && Selected(now, w.payments[no]) && w.payments[no].notes.invoices == 0
    ensures var e := Overtaken(now, w.payments[no].orderId, no, at);
            && Jobs(e.items) == [e.items[1].job] && Allowed(w, e) && Committed(e)
  {
    var e := Overtaken(now, w.payments[no].orderId, no, at);
    assert e.items[1..] == [e.items[1]] && e.items[1..][1..] == [];
    assert Jobs(e.items) == Jobs(e.items[1..]) == [e.items[1].job];
    assert Numbers([e.items[1].job]) == [no] && [e.items[1].job][1..] == [];
  }

  /**
   The execution does not read the payment again: with an issue time already committed by the endpoint, it gets a second
   invoice, and one issue time is left.
   */
  lemma IssuedTwice(w: World, now: int, no: string, at: int)
    requires no in w.payments && Selected(now, w.payments[no]) && w.payments[no].notes.invoices == 0
    requires w.payments[no].orderId in w.orders
    ensures var e := Overtaken(now, w.payments[no].orderId, no, at);
            && Allowed(w, e) && Committed(e)
            && no in Others(w, e.items).payments && Others(w, e.items).payments[no].issuedAt == Some(at)
            && no in After(w, e).payments && After(w, e).payments[no].issuedAt == Some(at)
            && Successes([e], no, false) == 1
  {
    var e := Overtaken(now, w.payments[no].orderId, no, at);
    OvertakenItems(w, now, no, at);
    assert e.items[1..] == [e.items[1]] && e.items[1..][1..] == [];
    var w1 := Changed(w, e.items[0].change);
    assert w1 == UpdateOrder(w, w.payments[no].orderId, Some(SUCCESS), Some(at));
    assert Others(w, e.items) == Others(w1, e.items[1..]) == Others(w1, []);
    var t1 := DoItem(Started(w), e.items[0]);
    assert DoItems(Started(w), e.items) == DoItems(t1, e.items[1..]) == DoItems(DoItem(t1, e.items[1]), []);
    IssueIsTry(w1, no, e.items[1].job.attempt);
    OneSuccess(e, e.items[1].job, no);
  }

  lemma OneSuccess(e: Event, j: Job, no: string)
    requires Committed(e) && Jobs(e.items) == [j] && j.ForPayment? && j.no == no && Success(j.attempt)
    ensures Successes([e], no, false) == 1
  {
    assert [e][1..] == [] && [j][1..] == [];
    OneAttempt(j.attempt, Success);
    assert Made([j], no, false, Success) == Number([j.attempt], Success) + Made([], no, JobAborts(j), Success);
    assert Total([e], no, false, Success) == Made([j], no, false, Success) + Total([], no, false, Success);
  }

  // ----- attempts without a limit -----

  lemma {:induction false} AllSilent(w: World, no: string, attempts: seq<Attempt>)
    requires no in w.payments && forall i | 0 <= i < |attempts| :: attempts[i] == SILENCE
    ensures var p, q := w.payments[no], Directly(w, no, attempts).0.payments[no];
            && q.issuedAt == p.issuedAt && q.notes.invoices == p.notes.invoices
            && (attempts != [] ==> q.notes.status == None)
            && (forall now :: Eligible(now, q) <==> Eligible(now, p))
  {
    if attempts == [] {
    } else {
      AllSilent(w, no, attempts[..|attempts| - 1]);
    }
  }

  lemma SilentOnce(w: World, now: int, no: string)
    requires no in w.payments && Selected(now, w.payments[no])
    ensures var e := OneJob(now, w.payments[no], no, SILENCE);
            && Allowed(w, e) && Committed(e) && Made(Jobs(e.items), no, false, Any) >= 1
            && no in After(w, e).payments && Selected(now, After(w, e).payments[no])
  {
    var p := w.payments[no];
    OneJobAllowed(w, now, no, SILENCE);
    var j := Alike(p, no, SILENCE);
    assert Any(Reaching(j, false)[0]);
    if p.notes.invoices > 0 {
      AllSilent(w, no, j.attempts);
    } else {
      IssueIsTry(w, no, SILENCE);
    }
  }

  /**
   A payment that is answered without a status is picked up again, whatever its retry count: any number of times, in
   executions that are all committed.
   */
  lemma {:induction false} SilentUnbounded(w: World, now: int, no: string, n: nat) returns (events: seq<Event>)
    requires no in w.payments && Selected(now, w.payments[no])
    ensures Valid(w, events) && Attempts(events, no, false) >= n
    ensures no in Final(w, events).payments && Selected(now, Final(w, events).payments[no])
    decreases n
  {
    events := [];
    if n > 0 {
      var e := OneJob(now, w.payments[no], no, SILENCE);
      SilentOnce(w, now, no);
      var rest := SilentUnbounded(After(w, e), now, no, n - 1);
      events := [e] + rest;
      assert events[1..] == rest;
    }
  }

  /**
   The attempt is not recorded: for a payment when it aborts the execution, for one of several invoices when it throws.
   */
  predicate Unrecorded(p: Payment, a: Attempt) {
    Aborts(a) || (p.notes.invoices > 0 && a.Thrown?)
  }

  lemma {:induction false} RolledBack(w: World, no: string, attempts: seq<Attempt>, a: Attempt)
    requires (a.Thrown? || Aborts(a)) && no in w.payments && forall i | 0 <= i < |attempts| :: attempts[i] == a
    ensures Directly(w, no, attempts).0 == w
  {
    if attempts == [] {
    } else {
      RolledBack(w, no, attempts[..|attempts| - 1], a);
    }
  }

  lemma UnrecordedOnce(w: World, now: int, no: string, a: Attempt)
    requires no in w.payments && Selected(now, w.payments[no]) && Unrecorded(w.payments[no], a)
    ensures var e := OneJob(now, w.payments[no], no, a);
            && Allowed(w, e) && After(w, e) == w && Made(Jobs(e.items), no, false, Any) >= 1
            && (Success(a) ==> Made(Jobs(e.items), no, false, Success) >= 1)
            && (Committed(e) <==> w.payments[no].notes.invoices > 0)
  {
    var p := w.payments[no];
    OneJobAllowed(w, now, no, a);
    var j := Alike(p, no, a);
    assert Reaching(j, false)[0] == a;
    if p.notes.invoices > 0 {
      RolledBack(w, no, j.attempts, a);
    }
  }

  /**
   Attempts that are not recorded have no limit, and neither has the number of successes among them: the payment is
   picked up again as if nothing had happened. With a single invoice these are the attempts whose statement fails and
   takes the whole execution with it; with several invoices every error counts for nothing.
   */
  lemma {:induction false} UnrecordedUnbounded(w: World, now: int, no: string, a: Attempt, n: nat)
    returns (events: seq<Event>)
    requires no in w.payments && Selected(now, w.payments[no]) && Unrecorded(w.payments[no], a)
    ensures Valid(w, events) && Final(w, events) == w
    ensures Attempts(events, no, w.payments[no].notes.invoices == 0) >= n
    ensures Success(a) ==> Successes(events, no, w.payments[no].notes.invoices == 0) >= n
    decreases n
  {
    events := [];
    if n > 0 {
      UnrecordedOnce(w, now, no, a);
      var rest := UnrecordedUnbounded(w, now, no, a, n - 1);
      events := [OneJob(now, w.payments[no], no, a)] + rest;
      assert events[1..] == rest;
    }
  }
}
