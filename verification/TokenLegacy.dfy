/** The single legacy key of a member's reset tokens: it holds the newest token only. */
module TokenLegacy {
  import opened Prelude
  import opened AuthKeys
  import opened AuthLimits
  import opened RedisStore
  import opened TokenIssue

  /** `i` made the latest legacy write of its member. */
  ghost predicate LatestLegacy(reqs: seq<Req>, i: nat)
    requires i < |reqs|
  {
    && reqs[i].pc == Finished
    && forall j | 0 <= j < |reqs| && reqs[j].pc == Finished && reqs[j].memberId == reqs[i].memberId ::
      reqs[j].order <= reqs[i].order
  }

  /** When a write at place `p` of the run expires. */
  function ExpiresAt(trace: seq<Command>, p: nat): nat
    requires p <= |trace|
  {
    Run(EMPTY, trace[..p]).now + RESET_TOKEN_TTL
  }

  /** The entry under the legacy key is the one that the request wrote, unless it was deleted since. */
  ghost predicate HoldsLatest(sys: Sys, r: Req) {
    var k, s := ResetLegacy(r.memberId), StoreOf(sys);
    && r.order < |sys.trace|
    && (k in s.docs <==> !ComesAfter(sys.trace, DeleteDoc(k), r.order))
    && (k in s.docs ==> s.docs[k] == Entry(TokenDoc(r.tokenHash, r.appId), Some(ExpiresAt(sys.trace, r.order))))
  }

  ghost predicate LegacyNewest(sys: Sys) {
    && (forall i | 0 <= i < |sys.reqs| && sys.reqs[i].pc == Finished :: sys.reqs[i].order < |sys.trace|)
    && (forall i | 0 <= i < |sys.reqs| && LatestLegacy(sys.reqs, i) :: HoldsLatest(sys, sys.reqs[i]))
  }

  lemma NotDeletedLonger(trace: seq<Command>, c: Command, k: Key, p: nat)
    requires p < |trace|
    ensures ComesAfter(trace + [c], DeleteDoc(k), p) <==> ComesAfter(trace, DeleteDoc(k), p) || c == DeleteDoc(k)
  {
    if ComesAfter(trace, DeleteDoc(k), p) {
      var j :| p < j < |trace| && trace[j] == DeleteDoc(k);
      assert (trace + [c])[j] == DeleteDoc(k);
    }
    if c == DeleteDoc(k) {
      assert (trace + [c])[|trace|] == DeleteDoc(k);
    }
  }

  /** A command that does not write the legacy key of the request keeps what the key holds, or deletes it. */
  lemma CommandKeepsLatest(sys: Sys, reqs': seq<Req>, c: Command, r: Req)
    requires HoldsLatest(sys, r)
    requires (c.Write? || c.WriteNew?) ==> c.key != ResetLegacy(r.memberId)
    ensures HoldsLatest(Sys(sys.trace + [c], reqs'), r)
  {
    TraceStep(sys, c);
    NotDeletedLonger(sys.trace, c, ResetLegacy(r.memberId), r.order);
    assert (sys.trace + [c])[..r.order] == sys.trace[..r.order];
  }

  /** Requests that had not finished may go on without finishing; the finished ones stay as they are. */
  ghost predicate SameFinished(reqs: seq<Req>, reqs': seq<Req>) {
    && |reqs| <= |reqs'|
    && (forall i | 0 <= i < |reqs'| && reqs'[i].pc == Finished :: i < |reqs| && reqs'[i] == reqs[i])
    && (forall i | 0 <= i < |reqs| && reqs[i].pc == Finished :: reqs'[i] == reqs[i])
  }

  lemma LatestBefore(reqs: seq<Req>, reqs': seq<Req>, i: nat)
    requires SameFinished(reqs, reqs') && i < |reqs'| && LatestLegacy(reqs', i)
    ensures i < |reqs| && reqs'[i] == reqs[i] && LatestLegacy(reqs, i)
  {
    forall j | 0 <= j < |reqs| && reqs[j].pc == Finished && reqs[j].memberId == reqs[i].memberId
      ensures reqs[j].order <= reqs[i].order
    {
      assert reqs'[j] == reqs[j];
    }
  }

  lemma LegacyKept(sys: Sys, reqs': seq<Req>)
    requires LegacyNewest(sys) && SameFinished(sys.reqs, reqs')
    ensures LegacyNewest(sys.(reqs := reqs'))
  {
    forall i | 0 <= i < |reqs'| && LatestLegacy(reqs', i)
      ensures HoldsLatest(sys.(reqs := reqs'), reqs'[i])
    {
      LatestBefore(sys.reqs, reqs', i);
      assert HoldsLatest(sys, sys.reqs[i]);
    }
  }

  lemma LegacyKeptBy(sys: Sys, reqs': seq<Req>, c: Command)
    requires LegacyNewest(sys) && SameFinished(sys.reqs, reqs')
    requires (c.Write? || c.WriteNew?) ==> !c.key.ResetLegacy?
    ensures LegacyNewest(Sys(sys.trace + [c], reqs'))
  {
    forall i | 0 <= i < |reqs'| && LatestLegacy(reqs', i)
      ensures HoldsLatest(Sys(sys.trace + [c], reqs'), reqs'[i])
    {
      LatestBefore(sys.reqs, reqs', i);
      CommandKeepsLatest(sys, reqs', c, sys.reqs[i]);
    }
  }

  lemma WrittenHolds(sys: Sys, i: nat)
    requires Running(sys, i) && sys.reqs[i].pc == AtLegacy
    ensures HoldsLatest(Next(sys, Advance(i)), Next(sys, Advance(i)).reqs[i])
  {
    Move(sys, i);
    var r := Next(sys, Advance(i)).reqs[i];
    assert r.order == |sys.trace|;
    assert (sys.trace + [CommandAt(sys.reqs[i])])[..r.order] == sys.trace;
    assert !ComesAfter(sys.trace + [CommandAt(sys.reqs[i])], DeleteDoc(ResetLegacy(r.memberId)), r.order);
  }

  /** The request of another member that was the latest is so still. */
  lemma OtherLatest(sys: Sys, i: nat, j: nat)
    requires LegacyNewest(sys) && Running(sys, i) && sys.reqs[i].pc == AtLegacy && j != i
    requires var reqs' := Next(sys, Advance(i)).reqs; j < |reqs'| && LatestLegacy(reqs', j)
    ensures sys.reqs[j].memberId != sys.reqs[i].memberId && LatestLegacy(sys.reqs, j)
  {
    var reqs' := Next(sys, Advance(i)).reqs;
    assert reqs'[i].order == |sys.trace| > reqs'[j].order;
    forall l | 0 <= l < |sys.reqs| && sys.reqs[l].pc == Finished && sys.reqs[l].memberId == sys.reqs[j].memberId
      ensures sys.reqs[l].order <= sys.reqs[j].order
    {
      assert reqs'[l] == sys.reqs[l];
    }
  }

  lemma LegacyWritten(sys: Sys, i: nat)
    requires LegacyNewest(sys) && Running(sys, i) && sys.reqs[i].pc == AtLegacy
    ensures LegacyNewest(Next(sys, Advance(i)))
  {
    var sys' := Next(sys, Advance(i));
    forall j | 0 <= j < |sys'.reqs| && LatestLegacy(sys'.reqs, j)
      ensures HoldsLatest(sys', sys'.reqs[j])
    {
      if j == i {
        WrittenHolds(sys, i);
      } else {
        OtherLatest(sys, i, j);
        CommandKeepsLatest(sys, sys'.reqs, CommandAt(sys.reqs[i]), sys.reqs[j]);
      }
    }
  }

  lemma NextKeepsLegacy(sys: Sys, step: Step)
    requires LegacyNewest(sys)
    ensures LegacyNewest(Next(sys, step))
  {
    match step
    case Begin(_, _, _) => LegacyKept(sys, Next(sys, step).reqs);
    case Abandon(i) => LegacyKept(sys, Next(sys, step).reqs);
    case Advance(i) =>
      if Running(sys, i) {
        if sys.reqs[i].pc == AtLegacy {
          LegacyWritten(sys, i);
        } else {
          LegacyKeptBy(sys, Next(sys, step).reqs, CommandAt(sys.reqs[i]));
        }
      }
    case Elsewhere(c) =>
      if Foreign(c) {
        LegacyKeptBy(sys, sys.reqs, c);
      }
  }

  lemma {:induction false} ExecKeepsLegacy(steps: seq<Step>)
    ensures LegacyNewest(Exec(steps))
  {
    if steps == [] {
    } else {
      ExecKeepsLegacy(steps[..|steps| - 1]);
      NextKeepsLegacy(Exec(steps[..|steps| - 1]), steps[|steps| - 1]);
    }
  }

  /**
   In every run: what is read from the legacy key of a member is the token of the issue that finished last, for one hour
   from its write and unless the key was deleted after it.
   */
  lemma LegacyHoldsNewest(steps: seq<Step>, i: nat)
    requires i < |Exec(steps).reqs| && LatestLegacy(Exec(steps).reqs, i)
    ensures var sys, r := Exec(steps), Exec(steps).reqs[i]; var k := ResetLegacy(r.memberId);
            && r.order < |sys.trace|
            && GetDoc(StoreOf(sys), k)
               == if ComesAfter(sys.trace, DeleteDoc(k), r.order) then None
                  else if StoreOf(sys).now >= ExpiresAt(sys.trace, r.order) then None
                  else Some(TokenDoc(r.tokenHash, r.appId))
  {
    ExecKeepsLegacy(steps);
  }
}
