/**
 The index set of a member's reset tokens. It is meant to list every token that can still be used, so that all of them
 can be revoked. A request adds its hash in one round trip and extends the index in the next; in between the index may
 expire or be deleted.
 */
module TokenIndex {
  import opened Prelude
  import opened AuthKeys
  import opened RedisStore
  import opened AuthLimits
  import opened TokenIssue

  // ----- one set in a run of commands -----

  ghost predicate LiveAt(cs: seq<Command>, k: Key, j: nat)
    requires j <= |cs|
  {
    LiveSet(Run(EMPTY, cs[..j]), k)
  }

  /** The set is live after every command from place `p` on. */
  ghost predicate LiveSince(cs: seq<Command>, k: Key, p: nat) {
    forall j | p < j <= |cs| :: LiveAt(cs, k, j)
  }

  /** Place `p` adds `h`, and nothing adds it again. */
  ghost predicate AddedAt(cs: seq<Command>, k: Key, h: string, p: nat) {
    p < |cs| && cs[p] == AddMember(k, h) && forall j | p < j < |cs| :: cs[j] != AddMember(k, h)
  }

  lemma SetStep(s: Store, c: Command, k: Key, h: string)
    requires c != AddMember(k, h)
    ensures h in SetMembers(Apply(s, c), k) <==> h in SetMembers(s, k) && LiveSet(Apply(s, c), k)
  {
  }

  lemma LiveAtPrefix(cs: seq<Command>, k: Key, e: nat)
    requires e <= |cs|
    ensures forall j | 0 <= j <= e :: LiveAt(cs[..e], k, j) <==> LiveAt(cs, k, j)
  {
    forall j | 0 <= j <= e
      ensures LiveAt(cs[..e], k, j) <==> LiveAt(cs, k, j)
    {
      assert cs[..e][..j] == cs[..j];
    }
  }

  lemma LiveAtEnd(cs: seq<Command>, k: Key)
    ensures LiveAt(cs, k, |cs|) <==> LiveSet(Run(EMPTY, cs), k)
  {
    assert cs[..|cs|] == cs;
  }

  lemma LiveSinceSnoc(cs: seq<Command>, k: Key, p: nat)
    requires p < |cs| - 1
    ensures LiveSince(cs, k, p) <==> LiveSince(cs[..|cs| - 1], k, p) && LiveAt(cs, k, |cs|)
  {
    LiveAtPrefix(cs, k, |cs| - 1);
  }

  /** What was added once is a member exactly when the set has been live all the time since. */
  lemma {:induction false} MemberIff(cs: seq<Command>, k: Key, h: string, p: nat)
    requires AddedAt(cs, k, h, p)
    ensures h in SetMembers(Run(EMPTY, cs), k) <==> LiveSince(cs, k, p)
    decreases |cs|
  {
    var n := |cs| - 1;
    if p == n {
      LiveAtEnd(cs, k);
    } else {
      MemberIff(cs[..n], k, h, p);
      SetStep(Run(EMPTY, cs[..n]), cs[n], k, h);
      LiveSinceSnoc(cs, k, p);
      LiveAtEnd(cs, k);
    }
  }

  lemma {:induction false} TimeGrows(cs: seq<Command>, j: nat)
    requires j <= |cs|
    ensures Run(EMPTY, cs[..j]).now <= Run(EMPTY, cs).now
  {
    if j == |cs| {
      assert cs[..j] == cs;
    } else {
      var n := |cs| - 1;
      TimeGrows(cs[..n], j);
      assert cs[..n][..j] == cs[..j];
      ApplyTime(Run(EMPTY, cs[..n]), cs[n]);
    }
  }

  ghost predicate OneTtl(cs: seq<Command>, k: Key, ttl: pos) {
    forall j | 0 <= j < |cs| && cs[j].ExpireMembers? && cs[j].key == k :: cs[j].ttl == ttl
  }

  ghost predicate ListedUntil(s: Store, k: Key, h: string, end: int) {
    h in SetMembers(s, k) && s.sets[k].expiry.Some? && s.sets[k].expiry.value >= end
  }

  lemma KeepsListed(s: Store, c: Command, k: Key, h: string, end: int)
    requires ListedUntil(s, k, h, end) && c != DeleteSet(k) && Apply(s, c).now < end
    requires c.ExpireMembers? && c.key == k ==> s.now + c.ttl >= end
    ensures ListedUntil(Apply(s, c), k, h, end)
  {
  }

  /** A member at the time of an EXPIRE stays one for that time to live, unless the set is deleted. */
  lemma {:induction false} StaysListed(cs: seq<Command>, k: Key, h: string, e: nat, ttl: pos)
    requires e < |cs| && cs[e] == ExpireMembers(k, ttl) && OneTtl(cs, k, ttl) && !ComesAfter(cs, DeleteSet(k), e)
    requires h in SetMembers(Run(EMPTY, cs[..e]), k)
    requires Run(EMPTY, cs).now < Run(EMPTY, cs[..e]).now + ttl
    ensures ListedUntil(Run(EMPTY, cs), k, h, Run(EMPTY, cs[..e]).now + ttl)
    decreases |cs|
  {
    var n := |cs| - 1;
    var init := cs[..n];
    if e < n {
      assert init[..e] == cs[..e];
      assert forall j | 0 <= j < n :: init[j] == cs[j];
      assert !ComesAfter(init, DeleteSet(k), e);
      ApplyTime(Run(EMPTY, init), cs[n]);
      TimeGrows(init, e);
      StaysListed(init, k, h, e, ttl);
      KeepsListed(Run(EMPTY, init), cs[n], k, h, Run(EMPTY, cs[..e]).now + ttl);
    }
  }

  lemma DeletedNotLive(cs: seq<Command>, k: Key, p: nat)
    requires ComesAfter(cs, DeleteSet(k), p)
    ensures !LiveSince(cs, k, p)
  {
    var j :| p < j < |cs| && cs[j] == DeleteSet(k);
    assert cs[..j + 1][..j] == cs[..j];
    assert !LiveAt(cs, k, j + 1);
  }

  lemma LiveSincePrefix(cs: seq<Command>, k: Key, p: nat, e: nat)
    requires p <= e <= |cs| && LiveSince(cs, k, p)
    ensures LiveSince(cs[..e], k, p) && LiveSince(cs, k, e)
  {
    LiveAtPrefix(cs, k, e);
  }

  lemma AddedPrefix(cs: seq<Command>, k: Key, h: string, p: nat, e: nat)
    requires AddedAt(cs, k, h, p) && p < e <= |cs|
    ensures AddedAt(cs[..e], k, h, p)
  {
  }

  /**
   Added once at `p` and extended at `e`: still a member exactly when it was one at `e` and no deletion came after.
   */
  lemma ExtendedIff(cs: seq<Command>, k: Key, h: string, p: nat, e: nat, ttl: pos)
    requires AddedAt(cs, k, h, p) && p < e < |cs| && cs[e] == ExpireMembers(k, ttl) && OneTtl(cs, k, ttl)
    requires Run(EMPTY, cs).now < Run(EMPTY, cs[..e]).now + ttl
    ensures h in SetMembers(Run(EMPTY, cs), k)
            <==> h in SetMembers(Run(EMPTY, cs[..e]), k) && !ComesAfter(cs, DeleteSet(k), e)
  {
    MemberIff(cs, k, h, p);
    AddedPrefix(cs, k, h, p, e);
    MemberIff(cs[..e], k, h, p);
    if LiveSince(cs, k, p) {
      LiveSincePrefix(cs, k, p, e);
    }
    if ComesAfter(cs, DeleteSet(k), e) {
      DeletedNotLive(cs, k, e);
    } else if h in SetMembers(Run(EMPTY, cs[..e]), k) {
      StaysListed(cs, k, h, e, ttl);
    }
  }

  // ----- where the requests' commands are -----

  ghost predicate Placed(trace: seq<Command>, r: Req) {
    && (r.added.Some? ==>
         r.added.value < |trace| && trace[r.added.value] == AddMember(ResetIndex(r.memberId), r.tokenHash))
    && (r.extended.Some? ==>
         && r.added.Some? && r.added.value < r.extended.value < |trace|
         && trace[r.extended.value] == ExpireMembers(ResetIndex(r.memberId), RESET_TOKEN_TTL)
         && r.writtenAt.Some? && r.writtenAt.value <= Run(EMPTY, trace[..r.extended.value]).now)
  }

  predicate Progress(r: Req) {
    && (r.pc in {AtExpire, AtLegacy, Finished} ==> r.added.Some?)
    && (r.pc in {AtLegacy, Finished} ==> r.extended.Some?)
    && (r.pc in {AtCooldown, AtCount, AtToken, AtIndex, Refused} ==> r.added == None)
    && (r.pc in {AtCooldown, AtCount, AtToken, AtIndex, AtExpire, Refused} ==> r.extended == None)
  }

  ghost predicate AllPlaced(sys: Sys) {
    forall i | 0 <= i < |sys.reqs| :: Placed(sys.trace, sys.reqs[i]) && Progress(sys.reqs[i])
  }

  ghost predicate OwnedBy(reqs: seq<Req>, p: nat, c: Command)
    requires c.AddMember?
  {
    exists i :: 0 <= i < |reqs| && reqs[i].added == Some(p)
      && c == AddMember(ResetIndex(reqs[i].memberId), reqs[i].tokenHash)
  }

  /** Every SADD to an index is some request's. */
  ghost predicate AddsOwned(sys: Sys) {
    forall p | 0 <= p < |sys.trace| && sys.trace[p].AddMember? && sys.trace[p].key.ResetIndex? ::
      OwnedBy(sys.reqs, p, sys.trace[p])
  }

  ghost predicate IndexTtl(trace: seq<Command>) {
    forall p | 0 <= p < |trace| && trace[p].ExpireMembers? && trace[p].key.ResetIndex? ::
      trace[p].ttl == RESET_TOKEN_TTL
  }

  ghost predicate IndexInvariant(sys: Sys) {
    AllPlaced(sys) && AddsOwned(sys) && IndexTtl(sys.trace)
  }

  lemma PlacedLonger(trace: seq<Command>, c: Command, r: Req)
    requires Placed(trace, r)
    ensures Placed(trace + [c], r)
  {
    if r.extended.Some? {
      assert (trace + [c])[..r.extended.value] == trace[..r.extended.value];
    }
  }

  lemma AfterPlaced(trace: seq<Command>, r: Req)
    requires r.pc !in {Finished, Refused, Abandoned}
    requires Placed(trace, r) && Progress(r) && TimesOf(r, Run(EMPTY, trace).now)
    ensures var r' := After(Run(EMPTY, trace), r, |trace|); Placed(trace + [CommandAt(r)], r') && Progress(r')
  {
    var trace' := trace + [CommandAt(r)];
    PlacedLonger(trace, CommandAt(r), r);
    assert trace'[..|trace|] == trace;
  }

  lemma OwnedLonger(sys: Sys, reqs': seq<Req>, c: Command)
    requires AddsOwned(sys) && |sys.reqs| <= |reqs'|
    requires forall i | 0 <= i < |sys.reqs| && sys.reqs[i].added.Some? ::
               && reqs'[i].added == sys.reqs[i].added
               && reqs'[i].memberId == sys.reqs[i].memberId && reqs'[i].tokenHash == sys.reqs[i].tokenHash
    requires c.AddMember? && c.key.ResetIndex? ==> OwnedBy(reqs', |sys.trace|, c)
    ensures AddsOwned(Sys(sys.trace + [c], reqs')) && AddsOwned(Sys(sys.trace, reqs'))
  {
    forall p | 0 <= p < |sys.trace| && sys.trace[p].AddMember? && sys.trace[p].key.ResetIndex?
      ensures OwnedBy(reqs', p, sys.trace[p])
    {
      assert OwnedBy(sys.reqs, p, sys.trace[p]);
      var i :| 0 <= i < |sys.reqs| && sys.reqs[i].added == Some(p)
               && sys.trace[p] == AddMember(ResetIndex(sys.reqs[i].memberId), sys.reqs[i].tokenHash);
      assert reqs'[i].added == Some(p);
    }
  }

  lemma AdvancePlaced(sys: Sys, i: nat)
    requires AllPlaced(sys) && TimesOrdered(sys) && Running(sys, i)
    ensures AllPlaced(Next(sys, Advance(i)))
  {
    var r, sys' := sys.reqs[i], Next(sys, Advance(i));
    AfterPlaced(sys.trace, r);
    forall j | 0 <= j < |sys.reqs| && j != i
      ensures Placed(sys'.trace, sys'.reqs[j]) && Progress(sys'.reqs[j])
    {
      PlacedLonger(sys.trace, CommandAt(r), sys.reqs[j]);
      assert sys'.reqs[j] == sys.reqs[j];
    }
  }

  lemma AdvanceOwned(sys: Sys, i: nat)
    requires AllPlaced(sys) && AddsOwned(sys) && Running(sys, i)
    ensures AddsOwned(Next(sys, Advance(i)))
  {
    var r, c, reqs' := sys.reqs[i], CommandAt(sys.reqs[i]), Next(sys, Advance(i)).reqs;
    if c.AddMember? {
      assert reqs'[i].added == Some(|sys.trace|);
      assert OwnedBy(reqs', |sys.trace|, c);
    }
    OwnedLonger(sys, reqs', c);
  }

  lemma AdvanceKeepsPlaces(sys: Sys, i: nat)
    requires IndexInvariant(sys) && TimesOrdered(sys) && Running(sys, i)
    ensures IndexInvariant(Next(sys, Advance(i)))
  {
    AdvancePlaced(sys, i);
    AdvanceOwned(sys, i);
  }

  lemma ForeignKeepsPlaces(sys: Sys, c: Command)
    requires IndexInvariant(sys) && Foreign(c)
    ensures IndexInvariant(Next(sys, Step.Elsewhere(c)))
  {
    forall j | 0 <= j < |sys.reqs|
      ensures Placed(sys.trace + [c], sys.reqs[j])
    {
      PlacedLonger(sys.trace, c, sys.reqs[j]);
    }
    OwnedLonger(sys, sys.reqs, c);
  }

  lemma NextKeepsPlaces(sys: Sys, step: Step)
    requires IndexInvariant(sys) && TimesOrdered(sys)
    ensures IndexInvariant(Next(sys, step))
  {
    match step
    case Begin(_, _, _) => OwnedLonger(sys, Next(sys, step).reqs, Wait(0));
    case Advance(i) =>
      if Running(sys, i) {
        AdvanceKeepsPlaces(sys, i);
      }
    case Abandon(i) => OwnedLonger(sys, Next(sys, step).reqs, Wait(0));
    case Elsewhere(c) =>
      if Foreign(c) {
        ForeignKeepsPlaces(sys, c);
      }
  }

  lemma {:induction false} PlacesHold(steps: seq<Step>)
    ensures IndexInvariant(Exec(steps))
  {
    if steps == [] {
    } else {
      var init := steps[..|steps| - 1];
      PlacesHold(init);
      ExecKeepsInvariant(init);
      NextKeepsPlaces(Exec(init), steps[|steps| - 1]);
    }
  }

  // ----- which tokens are listed -----

  /** No other request of the member has the same hash. */
  ghost predicate OwnHash(sys: Sys, i: nat)
    requires i < |sys.reqs|
  {
    forall j | 0 <= j < |sys.reqs| && j != i ::
      sys.reqs[j].memberId != sys.reqs[i].memberId || sys.reqs[j].tokenHash != sys.reqs[i].tokenHash
  }

  lemma AddsOnce(sys: Sys, i: nat)
    requires IndexInvariant(sys) && i < |sys.reqs| && OwnHash(sys, i) && sys.reqs[i].added.Some?
    ensures var r := sys.reqs[i]; AddedAt(sys.trace, ResetIndex(r.memberId), r.tokenHash, r.added.value)
  {
    var r := sys.reqs[i];
    forall p | r.added.value < p < |sys.trace|
      ensures sys.trace[p] != AddMember(ResetIndex(r.memberId), r.tokenHash)
    {
      if sys.trace[p].AddMember? && sys.trace[p].key.ResetIndex? {
        assert OwnedBy(sys.reqs, p, sys.trace[p]);
        var j :| 0 <= j < |sys.reqs| && sys.reqs[j].added == Some(p)
                 && sys.trace[p] == AddMember(ResetIndex(sys.reqs[j].memberId), sys.reqs[j].tokenHash);
        assert j != i;
      }
    }
  }

  /** The index as the request's own EXPIRE found it. */
  function AtOwnExpire(sys: Sys, r: Req): Store
    requires r.extended.Some? && r.extended.value <= |sys.trace|
  {
    Run(EMPTY, sys.trace[..r.extended.value])
  }

  /** The request finished, and its token can still be used by the clock. */
  predicate Usable(sys: Sys, i: nat) {
    && i < |sys.reqs| && sys.reqs[i].pc == Finished && sys.reqs[i].writtenAt.Some?
    && StoreOf(sys).now < sys.reqs[i].writtenAt.value + RESET_TOKEN_TTL
  }

  lemma UsableTimes(sys: Sys, i: nat)
    requires IndexInvariant(sys) && Usable(sys, i)
    ensures var r := sys.reqs[i];
            && r.added.Some? && r.extended.Some? && r.added.value < r.extended.value < |sys.trace|
            && StoreOf(sys).now < AtOwnExpire(sys, r).now + RESET_TOKEN_TTL
  {
  }

  /**
   Whatever other requests and other members do: a token that the index listed when its own EXPIRE ran stays listed, in
   an index that does not expire before the token, unless the index is deleted.
   */
  lemma LiveTokensIndexed(steps: seq<Step>, i: nat, e: nat)
    requires Usable(Exec(steps), i) && Exec(steps).reqs[i].extended == Some(e) && e <= |Exec(steps).trace|
    requires var r := Exec(steps).reqs[i]; r.tokenHash in SetMembers(AtOwnExpire(Exec(steps), r),
                                                                     ResetIndex(r.memberId))
    requires !ComesAfter(Exec(steps).trace, DeleteSet(ResetIndex(Exec(steps).reqs[i].memberId)), e)
    ensures var r := Exec(steps).reqs[i];
            ListedUntil(StoreOf(Exec(steps)), ResetIndex(r.memberId), r.tokenHash, r.writtenAt.value + RESET_TOKEN_TTL)
  {
    var sys, r := Exec(steps), Exec(steps).reqs[i];
    PlacesHold(steps);
    UsableTimes(sys, i);
    StaysListed(sys.trace, ResetIndex(r.memberId), r.tokenHash, e, RESET_TOKEN_TTL);
  }

  /**
   In every run: a usable token of a finished request is listed exactly when the index was live after every command from
   its SADD to its EXPIRE and has not been deleted since.
   */
  lemma ListedIff(steps: seq<Step>, i: nat)
    requires Usable(Exec(steps), i) && OwnHash(Exec(steps), i)
    ensures var sys, r := Exec(steps), Exec(steps).reqs[i]; var k := ResetIndex(r.memberId);
            && r.added.Some? && r.extended.Some? && r.added.value < r.extended.value < |sys.trace|
            && (r.tokenHash in SetMembers(AtOwnExpire(sys, r), k)
                <==> LiveSince(sys.trace[..r.extended.value], k, r.added.value))
            && (r.tokenHash in SetMembers(StoreOf(sys), k)
                <==> (LiveSince(sys.trace[..r.extended.value], k, r.added.value)
                      && !ComesAfter(sys.trace, DeleteSet(k), r.extended.value)))
  {
    var sys, r := Exec(steps), Exec(steps).reqs[i];
    PlacesHold(steps);
    UsableTimes(sys, i);
    var k, h, p, e := ResetIndex(r.memberId), r.tokenHash, r.added.value, r.extended.value;
    AddsOnce(sys, i);
    AddedPrefix(sys.trace, k, h, p, e);
    MemberIff(sys.trace[..e], k, h, p);
    ExtendedIff(sys.trace, k, h, p, e, RESET_TOKEN_TTL);
  }

  /** The same for token keys: a live key is that of a usable token. */
  lemma LiveKeysIndexed(steps: seq<Step>, i: nat)
    requires i < |Exec(steps).reqs| && Exec(steps).reqs[i].pc == Finished && OwnHash(Exec(steps), i)
    requires var r := Exec(steps).reqs[i]; LiveDoc(StoreOf(Exec(steps)), ResetToken(r.memberId, r.tokenHash))
    ensures var sys, r := Exec(steps), Exec(steps).reqs[i]; var k := ResetIndex(r.memberId);
            && r.added.Some? && r.extended.Some? && r.extended.value < |sys.trace|
            && (r.tokenHash in SetMembers(StoreOf(sys), k)
                <==> (LiveSince(sys.trace[..r.extended.value], k, r.added.value)
                      && !ComesAfter(sys.trace, DeleteSet(k), r.extended.value)))
  {
    var sys, r := Exec(steps), Exec(steps).reqs[i];
    var k := ResetToken(r.memberId, r.tokenHash);
    ExecKeepsInvariant(steps);
    var j: nat :| j < |sys.reqs| && WrittenBy(sys.reqs[j], k, StoreOf(sys));
    assert j == i;
    ListedIff(steps, i);
  }

  /**
   An index deleted between a request's SADD and its EXPIRE never lists the token again: EXPIRE does not bring it back.
   */
  lemma DeletedBetween(steps: seq<Step>, i: nat)
    requires i < |Exec(steps).reqs| && OwnHash(Exec(steps), i) && Exec(steps).reqs[i].added.Some?
    requires var r := Exec(steps).reqs[i];
             ComesAfter(Exec(steps).trace, DeleteSet(ResetIndex(r.memberId)), r.added.value)
    ensures var r := Exec(steps).reqs[i]; r.tokenHash !in SetMembers(StoreOf(Exec(steps)), ResetIndex(r.memberId))
  {
    var sys, r := Exec(steps), Exec(steps).reqs[i];
    PlacesHold(steps);
    AddsOnce(sys, i);
    MemberIff(sys.trace, ResetIndex(r.memberId), r.tokenHash, r.added.value);
    DeletedNotLive(sys.trace, ResetIndex(r.memberId), r.added.value);
  }

  // ----- a run in which a token is lost from the index -----

  lemma ExecStep(steps: seq<Step>, step: Step)
    ensures Exec(steps + [step]) == Next(Exec(steps), step)
  {
    assert (steps + [step])[..|steps|] == steps;
  }

  function Moves(i: nat, n: nat): seq<Step> {
    if n == 0 then [] else Moves(i, n - 1) + [Advance(i)]
  }

  lemma MovesSnoc(steps: seq<Step>, i: nat, n: nat)
    ensures n > 0 ==> steps + Moves(i, n) == steps + Moves(i, n - 1) + [Advance(i)]
    ensures steps + Moves(i, 0) == steps
  {
  }

  /** One more move at the end. */
  lemma MoveAfter(steps: seq<Step>, i: nat, n: nat)
    requires Exec(steps + Moves(i, n)) == Solo(Exec(steps), i, n)
    ensures Exec(steps + Moves(i, n + 1)) == Solo(Exec(steps), i, n + 1)
  {
    MovesSnoc(steps, i, n + 1);
    ExecStep(steps + Moves(i, n), Advance(i));
  }

  lemma ExecMoves(steps: seq<Step>, i: nat, n: nat)
    ensures Exec(steps + Moves(i, n)) == Solo(Exec(steps), i, n)
  {
    MovesSnoc(steps, i, 0);
    for k := 0 to n
      invariant Exec(steps + Moves(i, k)) == Solo(Exec(steps), i, k)
    {
      MoveAfter(steps, i, k);
    }
  }

  const PAUSE := Step.Elsewhere(Wait(RESET_TOKEN_TTL - 1))
  const EXPIRY := Step.Elsewhere(Wait(1))

  /**
   One issue complete at time 0; a second one that starts just before the index expires and adds its hash in time ...
   */
  function FirstIssue(): seq<Step> {
    [Begin("m", "app", "a")] + Moves(0, 2) + Moves(0, 4)
  }

  function LateAdd(): seq<Step> {
    FirstIssue() + [PAUSE] + [Begin("m", "app", "b")] + Moves(1, 2) + Moves(1, 2)
  }

  /** ... and the index expires before the second issue extends it. */
  function GapRun(): seq<Step> {
    LateAdd() + [EXPIRY] + Moves(1, 2)
  }

  ghost predicate FirstIssued(sys: Sys) {
    var s := StoreOf(sys);
    && |sys.reqs| == 1 && s.now == 0
    && ReadCounter(s, IssueCount(ResetPasswordApp, "m")) == 1
    && LiveDoc(s, IssueCooldown(ResetPasswordApp, "m"))
    && s.docs[IssueCooldown(ResetPasswordApp, "m")].expiry == Some(ISSUE_COOLDOWN_TTL)
    && SetMembers(s, ResetIndex("m")) == {"a"} && s.sets[ResetIndex("m")].expiry == Some(RESET_TOKEN_TTL)
  }

  ghost predicate SecondAdded(sys: Sys) {
    var s := StoreOf(sys);
    && |sys.reqs| == 2 && sys.reqs[1].pc == AtExpire && sys.reqs[1].memberId == "m" && sys.reqs[1].tokenHash == "b"
    && s.now == RESET_TOKEN_TTL - 1
    && LiveDoc(s, ResetToken("m", "b")) && s.docs[ResetToken("m", "b")].expiry == Some(2 * RESET_TOKEN_TTL - 1)
    && LiveSet(s, ResetIndex("m")) && s.sets[ResetIndex("m")].expiry == Some(RESET_TOKEN_TTL)
  }

  lemma FirstPart()
    ensures FirstIssued(Solo(Solo(Sys([], [Arrive("m", "app", "a")]), 0, 2), 0, 4))
  {
    var sys0 := Sys([], [Arrive("m", "app", "a")]);
    SoloGate(sys0, 0);
    SoloIssue(Solo(sys0, 0, 2), 0);
  }

  lemma GateFacts(s: Store, memberId: string)
    ensures IssueGate(s, memberId).now == s.now && IssueGate(s, memberId).sets == s.sets
  {
  }

  lemma SecondOpen(sys: Sys)
    requires FirstIssued(sys)
    ensures var sys0 := Next(Next(sys, PAUSE), Begin("m", "app", "b"));
            StoreOf(sys0) == Tick(StoreOf(sys), RESET_TOKEN_TTL - 1) && IssueOpen(StoreOf(sys0), "m")
  {
    TraceStep(sys, Wait(RESET_TOKEN_TTL - 1));
  }

  lemma SecondStore(s: Store)
    requires s.now == RESET_TOKEN_TTL - 1
    requires ResetIndex("m") in s.sets && s.sets[ResetIndex("m")].expiry == Some(RESET_TOKEN_TTL)
    ensures var t := Sadd(SetEx(s, ResetToken("m", "b"), TokenDoc("b", "app"), RESET_TOKEN_TTL), ResetIndex("m"), "b");
            && t.now == s.now
            && LiveDoc(t, ResetToken("m", "b")) && t.docs[ResetToken("m", "b")].expiry == Some(2 * RESET_TOKEN_TTL - 1)
            && LiveSet(t, ResetIndex("m")) && t.sets[ResetIndex("m")].expiry == Some(RESET_TOKEN_TTL)
  {
  }

  lemma SecondPart(sys: Sys)
    requires FirstIssued(sys)
    ensures SecondAdded(Solo(Solo(Next(Next(sys, PAUSE), Begin("m", "app", "b")), 1, 2), 1, 2))
  {
    SecondOpen(sys);
    var sys0 := Next(Next(sys, PAUSE), Begin("m", "app", "b"));
    assert Running(sys0, 1) && sys0.reqs[1] == Arrive("m", "app", "b");
    SoloGate(sys0, 1);
    var sys2 := Solo(sys0, 1, 2);
    GateFacts(StoreOf(sys0), "m");
    assert |sys2.reqs| == 2 && sys2.reqs[1].pc == AtToken;
    assert StoreOf(sys2).now == RESET_TOKEN_TTL - 1 && StoreOf(sys2).sets == StoreOf(sys).sets;
    SecondStore(StoreOf(sys2));
    SoloAdd(sys2, 1);
  }

  lemma ThirdPart(sys: Sys)
    requires SecondAdded(sys)
    ensures var sys' := Solo(Next(sys, EXPIRY), 1, 2); var s := StoreOf(sys');
            (|sys'.reqs| == 2 && sys'.reqs[1].pc == Finished
             && LiveDoc(s, ResetToken("m", "b")) && SetMembers(s, ResetIndex("m")) == {})
  {
    TraceStep(sys, Wait(1));
    SoloExtend(Next(sys, EXPIRY), 1);
  }

  lemma FirstBegins()
    ensures Exec([Begin("m", "app", "a")]) == Sys([], [Arrive("m", "app", "a")])
  {
    ExecStep([], Begin("m", "app", "a"));
  }

  lemma FirstIssueRun()
    ensures FirstIssued(Exec(FirstIssue()))
  {
    FirstBegins();
    SoloRun([Begin("m", "app", "a")], 0);
    FirstPart();
  }

  lemma SoloRun(steps: seq<Step>, i: nat)
    ensures Exec(steps + Moves(i, 2) + Moves(i, 4)) == Solo(Solo(Exec(steps), i, 2), i, 4)
  {
    ExecMoves(steps, i, 2);
    ExecMoves(steps + Moves(i, 2), i, 4);
  }

  lemma LateAddAfter(first: seq<Step>)
    requires FirstIssued(Exec(first))
    ensures SecondAdded(Exec(first + [PAUSE] + [Begin("m", "app", "b")] + Moves(1, 2) + Moves(1, 2)))
  {
    ExecStep(first, PAUSE);
    ExecStep(first + [PAUSE], Begin("m", "app", "b"));
    ExecMoves(first + [PAUSE] + [Begin("m", "app", "b")], 1, 2);
    ExecMoves(first + [PAUSE] + [Begin("m", "app", "b")] + Moves(1, 2), 1, 2);
    SecondPart(Exec(first));
  }

  lemma GapAfter(late: seq<Step>)
    requires SecondAdded(Exec(late))
    ensures Exec(late + [EXPIRY] + Moves(1, 2)) == Solo(Next(Exec(late), EXPIRY), 1, 2)
  {
    ExecStep(late, EXPIRY);
    ExecMoves(late + [EXPIRY], 1, 2);
  }

  /** The second token is live for another hour and not listed: the index expired between its SADD and its EXPIRE. */
  lemma GapLosesToken()
    ensures var sys, s := Exec(GapRun()), StoreOf(Exec(GapRun()));
            && |sys.reqs| == 2 && sys.reqs[1].pc == Finished
            && LiveDoc(s, ResetToken("m", "b")) && SetMembers(s, ResetIndex("m")) == {}
  {
    FirstIssueRun();
    LateAddAfter(FirstIssue());
    GapAfter(LateAdd());
    ThirdPart(Exec(LateAdd()));
  }
}
