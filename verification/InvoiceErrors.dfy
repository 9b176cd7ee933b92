/** Which errors an execution ends with, told from the attempts alone. */
module InvoiceErrors {
  import opened Prelude
  import opened InvoiceRetry

  /** Anything but an answer that could be recorded. */
  predicate Bad(a: Attempt) {
    match a
    case Thrown => true
    case Broken => true
    case Answered(_, _, broken) => broken
  }

  function EachBad(no: string, attempts: seq<Attempt>): seq<string> {
    if attempts == [] then []
    else EachBad(no, attempts[..|attempts| - 1]) + if Bad(attempts[|attempts| - 1]) then [no] else []
  }

  /**
   The errors of a job: one for every bad attempt at one of several invoices; one for a single invoice that comes after
   an aborted statement, is bad itself, or is issued although the payment has no order.
   */
  function OwnErrors(w: World, j: Job, aborted: bool): seq<string>
    requires j.no in w.payments
  {
    match j
    case ForInvoices(no, attempts) => EachBad(no, attempts)
    case ForPayment(no, a) =>
      if aborted || Bad(a) || (a.status == Some("SUCCESS") && w.payments[no].orderId !in w.orders) then [no] else []
  }

  /** A single invoice whose statement fails aborts the transaction. */
  predicate AbortsAfter(j: Job, aborted: bool) {
    aborted || (j.ForPayment? && (j.attempt.Broken? || (j.attempt.Answered? && j.attempt.broken)))
  }

  function Errors(w: World, jobs: seq<Job>, aborted: bool): seq<string>
    requires forall i | 0 <= i < |jobs| :: jobs[i].no in w.payments
    decreases |jobs|
  {
    if jobs == [] then []
    else OwnErrors(w, jobs[0], aborted) + Errors(w, jobs[1..], AbortsAfter(jobs[0], aborted))
  }

  // ----- the execution agrees -----

  /** The same rows, and every payment with its order. */
  ghost predicate SameRows(w: World, w': World) {
    && w.payments.Keys == w'.payments.Keys && w.orders.Keys == w'.orders.Keys
    && forall no | no in w.payments :: w.payments[no].orderId == w'.payments[no].orderId
  }

  lemma UpdateRows(w: World, no: string, status: Option<string>, issued: Option<int>)
    requires no in w.payments
    ensures SameRows(w, Update(w, no, status, issued))
  {
  }

  lemma IssueRows(w: World, no: string, a: Attempt)
    requires no in w.payments && !Aborts(a)
    ensures SameRows(w, IssueByPayment(w, no, a).0)
    ensures IssueByPayment(w, no, a).1
            <==> a.Thrown? || (a.status == Some("SUCCESS") && w.payments[no].orderId !in w.orders)
  {
  }

  lemma {:induction false} DirectlyErrors(w: World, no: string, attempts: seq<Attempt>)
    requires no in w.payments
    ensures SameRows(w, Directly(w, no, attempts).0) && Directly(w, no, attempts).1 == EachBad(no, attempts)
  {
    if attempts == [] {
    } else {
      var init, a := attempts[..|attempts| - 1], attempts[|attempts| - 1];
      DirectlyErrors(w, no, init);
      var w' := Directly(w, no, init).0;
      if !Bad(a) {
        UpdateRows(w', no, a.status, if a.status == Some(SUCCESS) then Some(a.at) else None);
      }
    }
  }

  lemma JobErrors(w: World, t: Transaction, j: Job)
    requires SameRows(w, t.seen) && SameRows(w, t.kept) && j.no in w.payments
    ensures DoJob(t, j).1 == OwnErrors(w, j, t.aborted)
    ensures var t' := DoJob(t, j).0;
            SameRows(w, t'.seen) && SameRows(w, t'.kept) && t'.aborted == AbortsAfter(j, t.aborted)
  {
    match j
    case ForInvoices(no, attempts) =>
      DirectlyErrors(t.seen, no, attempts);
      DirectlyErrors(t.kept, no, attempts);
    case ForPayment(no, a) =>
      if !t.aborted && !Aborts(a) {
        IssueRows(t.seen, no, a);
      }
  }

  lemma {:induction false} JobsErrors(w: World, t: Transaction, jobs: seq<Job>)
    requires SameRows(w, t.seen) && SameRows(w, t.kept) && forall i | 0 <= i < |jobs| :: jobs[i].no in w.payments
    ensures DoJobs(t, jobs).1 == Errors(w, jobs, t.aborted)
    decreases |jobs|
  {
    if jobs == [] {
    } else {
      JobErrors(w, t, jobs[0]);
      JobsErrors(w, DoJob(t, jobs[0]).0, jobs[1..]);
    }
  }

  /** The errors of an execution, in order. */
  lemma ErrorsAre(w: World, jobs: seq<Job>)
    requires Ready(w.payments, jobs)
    ensures DoJobs(Started(w), jobs).1 == Errors(w, jobs, false)
  {
    JobsErrors(w, Started(w), jobs);
  }

  lemma {:induction false} ClearJob(w: World, jobs: seq<Job>, aborted: bool, i: nat)
    requires forall i | 0 <= i < |jobs| :: jobs[i].no in w.payments
    requires Errors(w, jobs, aborted) == [] && i < |jobs|
    ensures OwnErrors(w, jobs[i], false) == []
    decreases |jobs|
  {
    if i > 0 {
      var rest := jobs[1..];
      assert rest[i - 1] == jobs[i];
      ClearJob(w, rest, AbortsAfter(jobs[0], aborted), i - 1);
    }
  }

  lemma {:induction false} NoErrors(w: World, jobs: seq<Job>)
    requires forall i | 0 <= i < |jobs| :: jobs[i].no in w.payments && OwnErrors(w, jobs[i], false) == []
    ensures Errors(w, jobs, false) == []
    decreases |jobs|
  {
    if jobs == [] {
    } else {
      assert !AbortsAfter(jobs[0], false);
      NoErrors(w, jobs[1..]);
    }
  }

  /** An execution ends without an error exactly when every job on its own does. */
  lemma CleanIff(w: World, jobs: seq<Job>)
    requires Ready(w.payments, jobs)
    ensures DoJobs(Started(w), jobs).1 == []
            <==> forall i | 0 <= i < |jobs| :: OwnErrors(w, jobs[i], false) == []
  {
    ErrorsAre(w, jobs);
    if Errors(w, jobs, false) == [] {
      forall i | 0 <= i < |jobs|
        ensures OwnErrors(w, jobs[i], false) == []
      {
        ClearJob(w, jobs, false, i);
      }
    } else if forall i | 0 <= i < |jobs| :: OwnErrors(w, jobs[i], false) == [] {
      NoErrors(w, jobs);
    }
  }
}
