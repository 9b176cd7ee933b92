/** Nine live tokens of one member: a run of tries that sends nine mails within one hour, carried out by requests. */
module TokenSurge {
  import opened Prelude
  import opened AuthKeys
  import opened RedisStore
  import opened AuthLimits
  import opened SendWindows
  import opened TokenIssue

  ghost predicate Reachable(sys: Sys) {
    exists steps :: sys == Exec(steps)
  }

  lemma NextReachable(sys: Sys, step: Step)
    requires Reachable(sys)
    ensures Reachable(Next(sys, step))
  {
    var steps :| sys == Exec(steps);
    assert (steps + [step])[..|steps|] == steps;
    assert Next(sys, step) == Exec(steps + [step]);
  }

  // ----- what the gate sees of a store -----

  function Limited(memberId: string): Limits {
    TokenLimits(ResetPasswordApp, memberId)
  }

  ghost predicate SameGate(s: Store, t: Store, g: Limits) {
    && t.now == s.now
    && (g.cooldown in t.docs <==> g.cooldown in s.docs)
    && (g.cooldown in s.docs ==> t.docs[g.cooldown].expiry == s.docs[g.cooldown].expiry)
    && (g.count in t.counters <==> g.count in s.counters)
    && (g.count in s.counters ==> t.counters[g.count].expiry == s.counters[g.count].expiry
                                  && t.counters[g.count].value == s.counters[g.count].value)
  }

  lemma SameOpen(s: Store, t: Store, g: Limits)
    requires SameGate(s, t, g)
    ensures LiveDoc(t, g.cooldown) <==> LiveDoc(s, g.cooldown)
    ensures GateOpen(t, g.cooldown, g.count, g.cap) <==> GateOpen(s, g.cooldown, g.count, g.cap)
  {
  }

  lemma TrySame(s: Store, t: Store, g: Limits)
    requires SameGate(s, t, g)
    ensures SameGate(Do(g, s, Try), Do(g, t, Try), g)
  {
    SameOpen(s, t, g);
  }

  // ----- tokens written from some time on -----

  ghost function Since(s: Store, memberId: string, from: nat): set<string> {
    set k | k in s.docs && k.ResetToken? && k.memberId == memberId
            && s.docs[k].expiry.Some? && s.docs[k].expiry.value >= from + RESET_TOKEN_TTL :: k.tokenHash
  }

  lemma SinceIff(s: Store, memberId: string, from: nat, h: string)
    ensures var k := ResetToken(memberId, h);
            h in Since(s, memberId, from)
            <==> k in s.docs && s.docs[k].expiry.Some? && s.docs[k].expiry.value >= from + RESET_TOKEN_TTL
  {
  }

  lemma IssueDocs(s: Store, memberId: string, tokenHash: string, k: Key)
    requires k.ResetToken?
    ensures var own, docs := ResetToken(memberId, tokenHash), Issue(s, memberId, "app", tokenHash).docs;
            && (k == own ==> k in docs && docs[k].expiry == Some(s.now + RESET_TOKEN_TTL))
            && (k != own ==> (k in docs <==> k in s.docs) && (k in docs ==> docs[k] == s.docs[k]))
  {
  }

  lemma IssueSince(s: Store, memberId: string, tokenHash: string, from: nat, h: string)
    ensures h in Since(Issue(s, memberId, "app", tokenHash), memberId, from)
            <==> if h == tokenHash then from <= s.now else h in Since(s, memberId, from)
  {
    IssueDocs(s, memberId, tokenHash, ResetToken(memberId, h));
    SinceIff(s, memberId, from, h);
    SinceIff(Issue(s, memberId, "app", tokenHash), memberId, from, h);
  }

  lemma OneElement(a: set<string>, b: set<string>, x: string, added: bool)
    requires x !in a && forall h :: h in b <==> if h == x then added else h in a
    ensures |b| == |a| + Unit(added)
  {
    assert b == if added then a + {x} else a;
  }

  lemma IssueAdds(s: Store, memberId: string, tokenHash: string, from: nat)
    requires ResetToken(memberId, tokenHash) !in s.docs
    ensures |Since(Issue(s, memberId, "app", tokenHash), memberId, from)|
            == |Since(s, memberId, from)| + Unit(from <= s.now)
  {
    SinceIff(s, memberId, from, tokenHash);
    forall h
      ensures h in Since(Issue(s, memberId, "app", tokenHash), memberId, from)
              <==> if h == tokenHash then from <= s.now else h in Since(s, memberId, from)
    {
      IssueSince(s, memberId, tokenHash, from, h);
    }
    OneElement(Since(s, memberId, from), Since(Issue(s, memberId, "app", tokenHash), memberId, from), tokenHash,
               from <= s.now);
  }

  lemma SinceLive(s: Store, memberId: string, from: nat)
    requires s.now < from + RESET_TOKEN_TTL
    ensures |Since(s, memberId, from)| <= |LiveTokens(s, memberId)|
  {
    SubsetCard(Since(s, memberId, from), LiveTokens(s, memberId));
  }

  // ----- requests carry out a run of tries -----

  /** The hash of the token of request `n`. */
  function Hash(n: nat): (h: string)
    ensures |h| == n
  {
    if n == 0 then "" else Hash(n - 1) + "x"
  }

  /** The tokens so far are those of requests that are there. */
  ghost predicate Known(s: Store, n: nat) {
    forall k | k in s.docs && k.ResetToken? :: |k.tokenHash| < n
  }

  ghost predicate Follows(sys: Sys, s: Store, g: Limits) {
    Reachable(sys) && WritesWithin(sys, 0) && SameGate(s, StoreOf(sys), g) && Known(StoreOf(sys), |sys.reqs|)
  }

  /** A move of a request that is not about to write its token later than it was let through. */
  lemma MoveWithin(sys: Sys, i: nat)
    requires Reachable(sys) && WritesWithin(sys, 0) && Running(sys, i)
    requires sys.reqs[i].pc == AtToken ==> sys.reqs[i].checkedAt == Some(StoreOf(sys).now)
    requires sys.reqs[i].pc in {AtCooldown, AtCount} ==> sys.reqs[i].writtenAt == None
    ensures Reachable(Next(sys, Advance(i))) && WritesWithin(Next(sys, Advance(i)), 0)
  {
    NextReachable(sys, Advance(i));
    var sys' := Next(sys, Advance(i));
    forall r | r in sys'.reqs && r.writtenAt.Some? && r.checkedAt.Some?
      ensures r.writtenAt.value <= r.checkedAt.value
    {
      var j :| 0 <= j < |sys'.reqs| && sys'.reqs[j] == r;
      assert sys.reqs[j] in sys.reqs;
    }
  }

  lemma Arrives(sys: Sys, memberId: string) returns (sys': Sys)
    requires Reachable(sys) && WritesWithin(sys, 0)
    ensures Reachable(sys') && WritesWithin(sys', 0) && StoreOf(sys') == StoreOf(sys)
    ensures sys'.reqs == sys.reqs + [Arrive(memberId, "app", Hash(|sys.reqs|))]
  {
    var step := Begin(memberId, "app", Hash(|sys.reqs|));
    NextReachable(sys, step);
    sys' := Next(sys, step);
  }

  lemma TwoWithin(sys: Sys, i: nat)
    requires Reachable(sys) && WritesWithin(sys, 0) && Running(sys, i)
    requires sys.reqs[i].pc in {AtCooldown, AtToken, AtExpire}
    requires sys.reqs[i].pc == AtToken ==> sys.reqs[i].checkedAt == Some(StoreOf(sys).now)
    requires sys.reqs[i].pc == AtCooldown ==> sys.reqs[i].writtenAt == None
    ensures Reachable(Solo(sys, i, 2)) && WritesWithin(Solo(sys, i, 2), 0)
  {
    MoveWithin(sys, i);
    Move(sys, i);
    var sys1 := Next(sys, Advance(i));
    if Running(sys1, i) {
      MoveWithin(sys1, i);
    }
    SoloTwo(sys, i);
  }

  lemma Gates(sys: Sys, i: nat) returns (sys': Sys)
    requires Reachable(sys) && WritesWithin(sys, 0) && Running(sys, i) && sys.reqs[i].pc == AtCooldown
    requires sys.reqs[i].writtenAt == None
    ensures sys' == Solo(sys, i, 2) && Reachable(sys') && WritesWithin(sys', 0)
    ensures StoreOf(sys') == IssueGate(StoreOf(sys), sys.reqs[i].memberId) && |sys'.reqs| == |sys.reqs|
    ensures sys'.reqs[i] == if IssueOpen(StoreOf(sys), sys.reqs[i].memberId)
                            then sys.reqs[i].(pc := AtToken, checkedAt := Some(StoreOf(sys).now))
                            else sys.reqs[i].(pc := Refused)
  {
    TwoWithin(sys, i);
    SoloGate(sys, i);
    sys' := Solo(sys, i, 2);
  }

  lemma Issues(sys: Sys, i: nat) returns (sys': Sys)
    requires Reachable(sys) && WritesWithin(sys, 0) && Running(sys, i) && sys.reqs[i].pc == AtToken
    requires sys.reqs[i].checkedAt == Some(StoreOf(sys).now) && sys.reqs[i].appId == "app"
    ensures Reachable(sys') && WritesWithin(sys', 0) && |sys'.reqs| == |sys.reqs|
    ensures StoreOf(sys') == Issue(StoreOf(sys), sys.reqs[i].memberId, "app", sys.reqs[i].tokenHash)
  {
    TwoWithin(sys, i);
    SoloAdd(sys, i);
    TwoWithin(Solo(sys, i, 2), i);
    SoloFour(sys, i);
    SoloIssue(sys, i);
    sys' := Solo(sys, i, 4);
  }

  /** A try: one more token when the gate is open. */
  lemma OneTry(sys: Sys, s: Store, memberId: string, from: nat) returns (sys': Sys)
    requires Follows(sys, s, Limited(memberId))
    ensures Follows(sys', Do(Limited(memberId), s, Try), Limited(memberId))
    ensures |Since(StoreOf(sys'), memberId, from)|
            == |Since(StoreOf(sys), memberId, from)|
               + Unit(Passes(Limited(memberId), s, Try, from, s.now + 1))
  {
    var i, g := |sys.reqs|, Limited(memberId);
    var sys1 := Arrives(sys, memberId);
    var sys2 := Gates(sys1, i);
    SameOpen(s, StoreOf(sys), g);
    TrySame(s, StoreOf(sys), g);
    GateKeepsTokens(StoreOf(sys), memberId, from);
    if IssueOpen(StoreOf(sys), memberId) {
      sys' := Issues(sys2, i);
      IssueKeepsGate(StoreOf(sys2), memberId, Hash(i), i);
      IssueAdds(StoreOf(sys2), memberId, Hash(i), from);
    } else {
      sys' := sys2;
    }
  }

  lemma GateKeepsTokens(s: Store, memberId: string, from: nat)
    ensures var s' := IssueGate(s, memberId);
            && s' == Do(Limited(memberId), s, Try) && s'.now == s.now
            && Since(s', memberId, from) == Since(s, memberId, from)
            && forall n :: Known(s, n) ==> Known(s', n)
  {
  }

  lemma IssueKeepsGate(s: Store, memberId: string, tokenHash: string, n: nat)
    requires Known(s, n) && |tokenHash| == n
    ensures var s' := Issue(s, memberId, "app", tokenHash);
            && Known(s', n + 1) && ResetToken(memberId, tokenHash) !in s.docs
            && forall t :: SameGate(t, s, Limited(memberId)) ==> SameGate(t, s', Limited(memberId))
  {
  }

  lemma OneWait(sys: Sys, s: Store, memberId: string, d: nat, from: nat) returns (sys': Sys)
    requires Follows(sys, s, Limited(memberId))
    ensures Follows(sys', Do(Limited(memberId), s, Other(Wait(d))), Limited(memberId))
    ensures Since(StoreOf(sys'), memberId, from) == Since(StoreOf(sys), memberId, from)
  {
    NextReachable(sys, Step.Elsewhere(Wait(d)));
    sys' := Next(sys, Step.Elsewhere(Wait(d)));
    TraceStep(sys, Wait(d));
  }

  /** As many tokens are written from `from` on as tries pass. */
  lemma {:induction false} AllTries(sys: Sys, s: Store, ops: seq<Op>, memberId: string, from: nat, to: int)
    returns (sys': Sys)
    requires Follows(sys, s, Limited(memberId)) && Plain(ops)
    ensures Follows(sys', Play(Limited(memberId), s, ops), Limited(memberId))
    ensures |Since(StoreOf(sys'), memberId, from)|
            >= |Since(StoreOf(sys), memberId, from)| + Sends(Limited(memberId), s, ops, from, to)
    decreases |ops|
  {
    if ops == [] {
      sys' := sys;
    } else {
      var sys1 := sys;
      assert ops[0].Try? || ops[0].command.Wait?;
      if ops[0].Try? {
        sys1 := OneTry(sys, s, memberId, from);
      } else {
        sys1 := OneWait(sys, s, memberId, ops[0].command.d, from);
      }
      sys' := AllTries(sys1, Do(Limited(memberId), s, ops[0]), ops[1..], memberId, from, to);
    }
  }

  lemma StartFollows(memberId: string)
    ensures Follows(START, EMPTY, Limited(memberId)) && StoreOf(START) == EMPTY
  {
    assert START == Exec([]);
  }

  /** The bound of `NineLiveTokens` is met: every member can have nine live tokens. */
  lemma NineTokensLive(memberId: string) returns (steps: seq<Step>)
    ensures WritesWithin(Exec(steps), 0) && |LiveTokens(StoreOf(Exec(steps)), memberId)| == 9
  {
    var ops, from := SurgeRun(Limited(memberId), 240 * SECOND);
    StartFollows(memberId);
    var sys := AllTries(START, EMPTY, ops, memberId, from, from + ISSUE_COUNT_TTL);
    SinceLive(StoreOf(sys), memberId, from);
    steps :| sys == Exec(steps);
    NineLiveTokens(steps, memberId);
  }
}
