/**
 Issuing reset-password tokens: any number of requests, interleaved at every round trip to Redis.
 A request passes the cooldown, then the counter, and then writes the token key, the index set, the expiry of
 the index set and the legacy key.
 */
module TokenIssue {
  import opened Prelude
  import opened AuthKeys
  import opened RedisStore
  import opened FixedWindow
  import opened AuthLimits

  // ----- the four writes of one issue -----

  /** The writes of one issue with nothing in between. */
  function Issue(s: Store, memberId: string, appId: string, tokenHash: string): Store {
    var s1 := SetEx(s, ResetToken(memberId, tokenHash), TokenDoc(tokenHash, appId), RESET_TOKEN_TTL);
    var s2 := Sadd(s1, ResetIndex(memberId), tokenHash);
    var s3 := ExpireSet(s2, ResetIndex(memberId), RESET_TOKEN_TTL);
    SetEx(s3, ResetLegacy(memberId), TokenDoc(tokenHash, appId), RESET_TOKEN_TTL)
  }

  /** `tokenHash` is the hash of the token the generator returned; the token itself only goes into the mail. */
  method IssueResetPasswordAppToken(redis: Redis, memberId: string, appId: string, tokenHash: string)
    modifies redis
    ensures redis.store == Issue(old(redis.store), memberId, appId, tokenHash)
    ensures var s := redis.store;
            && GetDoc(s, ResetToken(memberId, tokenHash)) == Some(TokenDoc(tokenHash, appId))
            && GetDoc(s, ResetLegacy(memberId)) == Some(TokenDoc(tokenHash, appId))
            && SetMembers(s, ResetIndex(memberId)) == SetMembers(old(redis.store), ResetIndex(memberId)) + {tokenHash}
            && s.sets[ResetIndex(memberId)].expiry == Some(s.now + 3600000)
            && s.docs[ResetToken(memberId, tokenHash)].expiry == Some(s.now + 3600000)
            && s.docs[ResetLegacy(memberId)].expiry == Some(s.now + 3600000)
  {
    var value := TokenDoc(tokenHash, appId);
    redis.Set(ResetToken(memberId, tokenHash), value, RESET_TOKEN_TTL);
    redis.SetAdd(ResetIndex(memberId), tokenHash);
    redis.Expire(ResetIndex(memberId), RESET_TOKEN_TTL);
    redis.Set(ResetLegacy(memberId), value, RESET_TOKEN_TTL);
  }

  // ----- interleaved requests -----

  /** The round trip a request makes next, or how it ended. */
  datatype Pc = AtCooldown | AtCount | AtToken | AtIndex | AtExpire | AtLegacy | Finished | Refused | Abandoned

  /**
   `checkedAt` is when the counter let the request pass, `writtenAt` when the token key was written. `added`, `extended`
   and `order` are the places among all commands of its SADD, its EXPIRE and its legacy write.
   */
  datatype Req = Req(
    memberId: string, appId: string, tokenHash: string, pc: Pc,
    checkedAt: Option<nat>, writtenAt: Option<nat>, added: Option<nat>, extended: Option<nat>, order: nat
  )

  function Arrive(memberId: string, appId: string, tokenHash: string): Req {
    Req(memberId, appId, tokenHash, AtCooldown, None, None, None, None, 0)
  }

  /** The commands executed so far, and the requests. */
  datatype Sys = Sys(trace: seq<Command>, reqs: seq<Req>)

  datatype Step =
    | Begin(memberId: string, appId: string, tokenHash: string)
    | Advance(i: nat)
    | Abandon(i: nat)
    | Elsewhere(command: Command)

  const START := Sys([], [])

  function StoreOf(sys: Sys): Store {
    Run(EMPTY, sys.trace)
  }

  function CommandAt(r: Req): Command
    requires r.pc !in {Finished, Refused, Abandoned}
  {
    match r.pc
    case AtCooldown => WriteNew(IssueCooldown(ResetPasswordApp, r.memberId), ISSUE_COOLDOWN_TTL)
    case AtCount => Increment(IssueCount(ResetPasswordApp, r.memberId), ISSUE_COUNT_TTL)
    case AtToken => Write(ResetToken(r.memberId, r.tokenHash), TokenDoc(r.tokenHash, r.appId), RESET_TOKEN_TTL)
    case AtIndex => AddMember(ResetIndex(r.memberId), r.tokenHash)
    case AtExpire => ExpireMembers(ResetIndex(r.memberId), RESET_TOKEN_TTL)
    case AtLegacy => Write(ResetLegacy(r.memberId), TokenDoc(r.tokenHash, r.appId), RESET_TOKEN_TTL)
  }

  /** The request after its command was executed in store `s`; `order` is the position of the command in the trace. */
  function After(s: Store, r: Req, order: nat): Req {
    match r.pc
    case AtCooldown => r.(pc := if LiveDoc(s, IssueCooldown(ResetPasswordApp, r.memberId)) then Refused else AtCount)
    case AtCount =>
      if IncrReply(s, IssueCount(ResetPasswordApp, r.memberId)) <= ISSUE_COUNT_CAP
      then r.(pc := AtToken, checkedAt := Some(s.now)) else r.(pc := Refused)
    case AtToken => r.(pc := AtIndex, writtenAt := Some(s.now))
    case AtIndex => r.(pc := AtExpire, added := Some(order))
    case AtExpire => r.(pc := AtLegacy, extended := Some(order))
    case AtLegacy => r.(pc := Finished, order := order)
    case _ => r
  }

  predicate Running(sys: Sys, i: nat) {
    i < |sys.reqs| && sys.reqs[i].pc !in {Finished, Refused, Abandoned}
  }

  /**
   What the backend does to a member's tokens when a password was reset: token keys, legacy key and index are deleted.
   */
  predicate Revokes(c: Command) {
    (c.DeleteDoc? && (c.key.ResetToken? || c.key.ResetLegacy?)) || (c.DeleteSet? && c.key.ResetIndex?)
  }

  /** Commands of the rest of the service: apart from revoking tokens they stay away from the keys of this protocol. */
  predicate Foreign(c: Command) {
    && Issued(c)
    && (!c.Wait? && !Revokes(c) ==>
         && !c.key.ResetToken? && !c.key.ResetLegacy? && !c.key.ResetIndex?
         && !(c.key.IssueCount? && c.key.kind == ResetPasswordApp)
         && !(c.key.IssueCooldown? && c.key.kind == ResetPasswordApp))
  }

  function Next(sys: Sys, step: Step): Sys {
    match step
    case Begin(memberId, appId, tokenHash) =>
      sys.(reqs := sys.reqs + [Arrive(memberId, appId, tokenHash)])
    case Advance(i) =>
      if Running(sys, i) then
        Sys(sys.trace + [CommandAt(sys.reqs[i])], sys.reqs[i := After(StoreOf(sys), sys.reqs[i], |sys.trace|)])
      else sys
    case Abandon(i) =>
      if Running(sys, i) then sys.(reqs := sys.reqs[i := sys.reqs[i].(pc := Abandoned)]) else sys
    case Elsewhere(c) =>
      if Foreign(c) then sys.(trace := sys.trace + [c]) else sys
  }

  /** The command comes after place `p` of the run. */
  ghost predicate ComesAfter(cs: seq<Command>, c: Command, p: nat) {
    exists j :: p < j < |cs| && cs[j] == c
  }

  function Exec(steps: seq<Step>): Sys {
    if steps == [] then START else Next(Exec(steps[..|steps| - 1]), steps[|steps| - 1])
  }

  lemma TraceStep(sys: Sys, c: Command)
    ensures Run(EMPTY, sys.trace + [c]) == Apply(StoreOf(sys), c)
  {
    assert (sys.trace + [c])[..|sys.trace|] == sys.trace;
  }

  /** `n` moves of request `i` with nothing in between. */
  function Solo(sys: Sys, i: nat, n: nat): Sys {
    if n == 0 then sys else Next(Solo(sys, i, n - 1), Advance(i))
  }

  function IssueGate(s: Store, memberId: string): Store {
    Gate(s, IssueCooldown(ResetPasswordApp, memberId), ISSUE_COOLDOWN_TTL, IssueCount(ResetPasswordApp, memberId),
         ISSUE_COUNT_TTL)
  }

  predicate IssueOpen(s: Store, memberId: string) {
    GateOpen(s, IssueCooldown(ResetPasswordApp, memberId), IssueCount(ResetPasswordApp, memberId), ISSUE_COUNT_CAP)
  }

  lemma Move(sys: Sys, i: nat)
    requires Running(sys, i)
    ensures StoreOf(Next(sys, Advance(i))) == Apply(StoreOf(sys), CommandAt(sys.reqs[i]))
    ensures |Next(sys, Advance(i)).reqs| == |sys.reqs|
    ensures Next(sys, Advance(i)).reqs[i] == After(StoreOf(sys), sys.reqs[i], |sys.trace|)
  {
    TraceStep(sys, CommandAt(sys.reqs[i]));
  }

  lemma SoloTwo(sys: Sys, i: nat)
    ensures Solo(sys, i, 2) == Next(Next(sys, Advance(i)), Advance(i))
  {
    assert Solo(sys, i, 1) == Next(Solo(sys, i, 0), Advance(i));
  }

  lemma SoloFour(sys: Sys, i: nat)
    ensures Solo(sys, i, 4) == Solo(Solo(sys, i, 2), i, 2)
  {
    SoloTwo(sys, i);
    SoloTwo(Solo(sys, i, 2), i);
    assert Solo(sys, i, 4) == Next(Solo(sys, i, 3), Advance(i));
    assert Solo(sys, i, 3) == Next(Solo(sys, i, 2), Advance(i));
  }

  /** Two moves are the gate, and decide whether the request goes on. */
  lemma SoloGate(sys: Sys, i: nat)
    requires Running(sys, i) && sys.reqs[i].pc == AtCooldown
    ensures var sys', m := Solo(sys, i, 2), sys.reqs[i].memberId;
            && StoreOf(sys') == IssueGate(StoreOf(sys), m)
            && |sys'.reqs| == |sys.reqs|
            && sys'.reqs[i] == if IssueOpen(StoreOf(sys), m)
                               then sys.reqs[i].(pc := AtToken, checkedAt := Some(StoreOf(sys).now))
                               else sys.reqs[i].(pc := Refused)
  {
    var sys1 := Next(sys, Advance(i));
    Move(sys, i);
    if sys1.reqs[i].pc == AtCount {
      Move(sys1, i);
    }
    SoloTwo(sys, i);
  }

  lemma MoveToken(sys: Sys, i: nat)
    requires Running(sys, i) && sys.reqs[i].pc == AtToken
    ensures var r, sys' := sys.reqs[i], Next(sys, Advance(i));
            && |sys'.reqs| == |sys.reqs| && |sys'.trace| == |sys.trace| + 1
            && sys'.reqs[i] == r.(pc := AtIndex, writtenAt := Some(StoreOf(sys).now))
            && StoreOf(sys') == SetEx(StoreOf(sys), ResetToken(r.memberId, r.tokenHash),
                                      TokenDoc(r.tokenHash, r.appId), RESET_TOKEN_TTL)
  {
    Move(sys, i);
  }

  lemma MoveIndex(sys: Sys, i: nat)
    requires Running(sys, i) && sys.reqs[i].pc == AtIndex
    ensures var r, sys' := sys.reqs[i], Next(sys, Advance(i));
            && |sys'.reqs| == |sys.reqs|
            && sys'.reqs[i] == r.(pc := AtExpire, added := Some(|sys.trace|))
            && StoreOf(sys') == Sadd(StoreOf(sys), ResetIndex(r.memberId), r.tokenHash)
  {
    Move(sys, i);
  }

  lemma SoloAdd(sys: Sys, i: nat)
    requires Running(sys, i) && sys.reqs[i].pc == AtToken
    ensures var r, sys' := sys.reqs[i], Solo(sys, i, 2);
            && |sys'.reqs| == |sys.reqs|
            && sys'.reqs[i] == r.(pc := AtExpire, writtenAt := Some(StoreOf(sys).now), added := Some(|sys.trace| + 1))
            && StoreOf(sys') == Sadd(SetEx(StoreOf(sys), ResetToken(r.memberId, r.tokenHash),
                                           TokenDoc(r.tokenHash, r.appId), RESET_TOKEN_TTL),
                                     ResetIndex(r.memberId), r.tokenHash)
  {
    MoveToken(sys, i);
    MoveIndex(Next(sys, Advance(i)), i);
    SoloTwo(sys, i);
  }

  lemma MoveExpire(sys: Sys, i: nat)
    requires Running(sys, i) && sys.reqs[i].pc == AtExpire
    ensures var r, sys' := sys.reqs[i], Next(sys, Advance(i));
            && |sys'.reqs| == |sys.reqs| && sys'.reqs[i] == r.(pc := AtLegacy, extended := Some(|sys.trace|))
            && StoreOf(sys') == ExpireSet(StoreOf(sys), ResetIndex(r.memberId), RESET_TOKEN_TTL)
  {
    Move(sys, i);
  }

  lemma MoveLegacy(sys: Sys, i: nat)
    requires Running(sys, i) && sys.reqs[i].pc == AtLegacy
    ensures var r, sys' := sys.reqs[i], Next(sys, Advance(i));
            && |sys'.reqs| == |sys.reqs| && sys'.reqs[i].pc == Finished
            && StoreOf(sys') == SetEx(StoreOf(sys), ResetLegacy(r.memberId), TokenDoc(r.tokenHash, r.appId),
                                      RESET_TOKEN_TTL)
  {
    Move(sys, i);
  }

  lemma SoloExtend(sys: Sys, i: nat)
    requires Running(sys, i) && sys.reqs[i].pc == AtExpire
    ensures var r, sys' := sys.reqs[i], Solo(sys, i, 2);
            && |sys'.reqs| == |sys.reqs|
            && sys'.reqs[i].pc == Finished
            && StoreOf(sys') == SetEx(ExpireSet(StoreOf(sys), ResetIndex(r.memberId), RESET_TOKEN_TTL),
                                      ResetLegacy(r.memberId), TokenDoc(r.tokenHash, r.appId), RESET_TOKEN_TTL)
  {
    MoveExpire(sys, i);
    MoveLegacy(Next(sys, Advance(i)), i);
    SoloTwo(sys, i);
  }

  /** Four more moves of a request that passed are the serial issue. */
  lemma SoloIssue(sys: Sys, i: nat)
    requires Running(sys, i) && sys.reqs[i].pc == AtToken
    ensures var sys', r := Solo(sys, i, 4), sys.reqs[i];
            && StoreOf(sys') == Issue(StoreOf(sys), r.memberId, r.appId, r.tokenHash)
            && |sys'.reqs| == |sys.reqs| && sys'.reqs[i].pc == Finished
  {
    SoloAdd(sys, i);
    SoloExtend(Solo(sys, i, 2), i);
    SoloFour(sys, i);
  }

  // ----- how many tokens can be live -----

  predicate GrantedIn(r: Req, memberId: string, from: nat, to: nat) {
    r.memberId == memberId && r.checkedAt.Some? && from <= r.checkedAt.value < to
  }

  /** The requests of a member that the counter let through in the window. */
  ghost function GrantedSet(reqs: seq<Req>, memberId: string, from: nat, to: nat): set<nat> {
    set i: nat | i < |reqs| && GrantedIn(reqs[i], memberId, from, to)
  }

  ghost predicate GrantsCounted(sys: Sys, memberId: string, from: nat, to: nat) {
    |GrantedSet(sys.reqs, memberId, from, to)|
      <= Admitted(sys.trace, IssueCount(ResetPasswordApp, memberId), ISSUE_COUNT_CAP, from, to)
  }

  lemma GrantedSetUpdate(reqs: seq<Req>, i: nat, r: Req, memberId: string, from: nat, to: nat)
    requires i < |reqs| && !GrantedIn(reqs[i], memberId, from, to)
    ensures |GrantedSet(reqs[i := r], memberId, from, to)|
         == |GrantedSet(reqs, memberId, from, to)| + if GrantedIn(r, memberId, from, to) then 1 else 0
  {
    if GrantedIn(r, memberId, from, to) {
      assert GrantedSet(reqs[i := r], memberId, from, to) == GrantedSet(reqs, memberId, from, to) + {i};
    } else {
      assert GrantedSet(reqs[i := r], memberId, from, to) == GrantedSet(reqs, memberId, from, to);
    }
  }

  lemma GrantedSetKept(reqs: seq<Req>, i: nat, r: Req, memberId: string, from: nat, to: nat)
    requires i < |reqs| && r.memberId == reqs[i].memberId && r.checkedAt == reqs[i].checkedAt
    ensures GrantedSet(reqs[i := r], memberId, from, to) == GrantedSet(reqs, memberId, from, to)
  {
  }

  lemma GrantedSetAppend(reqs: seq<Req>, r: Req, memberId: string, from: nat, to: nat)
    requires r.checkedAt == None
    ensures GrantedSet(reqs + [r], memberId, from, to) == GrantedSet(reqs, memberId, from, to)
  {
  }

  /** Times are in order, and a request that has not passed the counter carries no time. */
  predicate TimesOf(r: Req, now: nat) {
    && (r.pc in {AtCooldown, AtCount, Refused} ==> r.checkedAt == None)
    && (r.pc in {AtToken, AtIndex, AtExpire, AtLegacy, Finished} ==> r.checkedAt.Some?)
    && (r.pc in {AtIndex, AtExpire, AtLegacy, Finished} ==> r.writtenAt.Some?)
    && (r.pc in {AtCooldown, AtCount, AtToken, Refused} ==> r.writtenAt == None)
    && (r.checkedAt.Some? ==> r.checkedAt.value <= now)
    && (r.writtenAt.Some? ==> r.checkedAt.Some? && r.checkedAt.value <= r.writtenAt.value <= now)
  }

  ghost predicate TimesOrdered(sys: Sys) {
    forall i | 0 <= i < |sys.reqs| :: TimesOf(sys.reqs[i], StoreOf(sys).now)
  }

  lemma ApplyTime(s: Store, c: Command)
    ensures s.now <= Apply(s, c).now
    ensures !c.Wait? ==> Apply(s, c).now == s.now
  {
  }

  lemma AfterTimes(s: Store, r: Req, order: nat)
    requires TimesOf(r, s.now)
    ensures TimesOf(After(s, r, order), s.now)
  {
  }

  lemma NextKeepsTimes(sys: Sys, step: Step)
    requires TimesOrdered(sys)
    ensures TimesOrdered(Next(sys, step))
  {
    if step.Advance? && Running(sys, step.i) {
      var c := CommandAt(sys.reqs[step.i]);
      TraceStep(sys, c);
      ApplyTime(StoreOf(sys), c);
      AfterTimes(StoreOf(sys), sys.reqs[step.i], |sys.trace|);
    } else if step.Elsewhere? && Foreign(step.command) {
      TraceStep(sys, step.command);
      ApplyTime(StoreOf(sys), step.command);
    }
  }

  lemma NextKeepsIssued(sys: Sys, step: Step)
    requires AllIssued(sys.trace)
    ensures AllIssued(Next(sys, step).trace)
  {
  }

  lemma AdvanceKeepsGrants(sys: Sys, i: nat, memberId: string, from: nat, to: nat)
    requires TimesOrdered(sys) && Running(sys, i) && GrantsCounted(sys, memberId, from, to)
    ensures GrantsCounted(Next(sys, Advance(i)), memberId, from, to)
  {
    var r, c, s := sys.reqs[i], CommandAt(sys.reqs[i]), StoreOf(sys);
    var r' := After(s, r, |sys.trace|);
    SnocRun(sys.trace, c, IssueCount(ResetPasswordApp, memberId), ISSUE_COUNT_CAP, from, to);
    if r.pc == AtCount {
      GrantedSetUpdate(sys.reqs, i, r', memberId, from, to);
    } else {
      GrantedSetKept(sys.reqs, i, r', memberId, from, to);
    }
  }

  lemma NextKeepsGrants(sys: Sys, step: Step, memberId: string, from: nat, to: nat)
    requires TimesOrdered(sys) && GrantsCounted(sys, memberId, from, to)
    ensures GrantsCounted(Next(sys, step), memberId, from, to)
  {
    match step
    case Begin(m, appId, tokenHash) =>
      GrantedSetAppend(sys.reqs, Arrive(m, appId, tokenHash), memberId, from, to);
    case Advance(i) =>
      if Running(sys, i) {
        AdvanceKeepsGrants(sys, i, memberId, from, to);
      }
    case Abandon(i) =>
      if Running(sys, i) {
        GrantedSetKept(sys.reqs, i, sys.reqs[i].(pc := Abandoned), memberId, from, to);
      }
    case Elsewhere(c) =>
      SnocRun(sys.trace, c, IssueCount(ResetPasswordApp, memberId), ISSUE_COUNT_CAP, from, to);
  }

  /** Every token key was written by some request, and expires one hour after that write. */
  ghost predicate WrittenBy(r: Req, k: Key, s: Store)
    requires k in s.docs && k.ResetToken?
  {
    && r.memberId == k.memberId && r.tokenHash == k.tokenHash
    && r.writtenAt.Some? && s.docs[k].expiry == Some(r.writtenAt.value + RESET_TOKEN_TTL)
  }

  ghost predicate TokensWritten(s: Store, reqs: seq<Req>) {
    forall k | k in s.docs && k.ResetToken? :: exists i: nat :: i < |reqs| && WrittenBy(reqs[i], k, s)
  }

  lemma TokensWrittenKept(s: Store, s': Store, reqs: seq<Req>, reqs': seq<Req>)
    requires TokensWritten(s, reqs)
    requires forall k | k in s'.docs && k.ResetToken? :: k in s.docs && s'.docs[k] == s.docs[k]
    requires |reqs| <= |reqs'|
    requires forall i | 0 <= i < |reqs| && reqs[i].writtenAt.Some? ::
      reqs'[i].memberId == reqs[i].memberId && reqs'[i].tokenHash == reqs[i].tokenHash
        && reqs'[i].writtenAt == reqs[i].writtenAt
    ensures TokensWritten(s', reqs')
  {
    forall k | k in s'.docs && k.ResetToken?
      ensures exists i: nat :: i < |reqs'| && WrittenBy(reqs'[i], k, s')
    {
      var i: nat :| i < |reqs| && WrittenBy(reqs[i], k, s);
      assert WrittenBy(reqs'[i], k, s');
    }
  }

  lemma WriteTokenKept(s: Store, reqs: seq<Req>, i: nat)
    requires TokensWritten(s, reqs) && i < |reqs| && reqs[i].pc == AtToken && reqs[i].writtenAt == None
    ensures TokensWritten(Apply(s, CommandAt(reqs[i])), reqs[i := After(s, reqs[i], 0)])
  {
    var r, r' := reqs[i], After(s, reqs[i], 0);
    var s', reqs' := Apply(s, CommandAt(r)), reqs[i := r'];
    forall k | k in s'.docs && k.ResetToken?
      ensures exists j: nat :: j < |reqs'| && WrittenBy(reqs'[j], k, s')
    {
      if k == ResetToken(r.memberId, r.tokenHash) {
        assert WrittenBy(reqs'[i], k, s');
      } else {
        var j: nat :| j < |reqs| && WrittenBy(reqs[j], k, s);
        assert WrittenBy(reqs'[j], k, s');
      }
    }
  }

  lemma AdvanceKeepsTokens(s: Store, reqs: seq<Req>, i: nat, order: nat)
    requires TokensWritten(s, reqs) && i < |reqs| && TimesOf(reqs[i], s.now)
    requires reqs[i].pc !in {Finished, Refused, Abandoned}
    ensures TokensWritten(Apply(s, CommandAt(reqs[i])), reqs[i := After(s, reqs[i], order)])
  {
    if reqs[i].pc == AtToken {
      WriteTokenKept(s, reqs, i);
      assert After(s, reqs[i], order) == After(s, reqs[i], 0);
    } else {
      TokensWrittenKept(s, Apply(s, CommandAt(reqs[i])), reqs, reqs[i := After(s, reqs[i], order)]);
    }
  }

  lemma ForeignKeepsTokens(s: Store, reqs: seq<Req>, c: Command)
    requires TokensWritten(s, reqs) && Foreign(c)
    ensures TokensWritten(Apply(s, c), reqs)
  {
    TokensWrittenKept(s, Apply(s, c), reqs, reqs);
  }

  lemma NextKeepsTokens(sys: Sys, step: Step)
    requires TimesOrdered(sys) && TokensWritten(StoreOf(sys), sys.reqs)
    ensures TokensWritten(StoreOf(Next(sys, step)), Next(sys, step).reqs)
  {
    var s, sys' := StoreOf(sys), Next(sys, step);
    if step.Advance? && Running(sys, step.i) {
      TraceStep(sys, CommandAt(sys.reqs[step.i]));
      AdvanceKeepsTokens(s, sys.reqs, step.i, |sys.trace|);
    } else if step.Elsewhere? && Foreign(step.command) {
      TraceStep(sys, step.command);
      ForeignKeepsTokens(s, sys.reqs, step.command);
    } else {
      assert sys'.trace == sys.trace;
      TokensWrittenKept(s, s, sys.reqs, sys'.reqs);
    }
  }

  ghost predicate IssueInvariant(sys: Sys) {
    AllIssued(sys.trace) && TimesOrdered(sys) && TokensWritten(StoreOf(sys), sys.reqs)
  }

  lemma {:induction false} ExecKeepsInvariant(steps: seq<Step>)
    ensures IssueInvariant(Exec(steps))
  {
    if steps == [] {
    } else {
      var init, step := steps[..|steps| - 1], steps[|steps| - 1];
      ExecKeepsInvariant(init);
      NextKeepsIssued(Exec(init), step);
      NextKeepsTimes(Exec(init), step);
      NextKeepsTokens(Exec(init), step);
    }
  }

  lemma {:induction false} ExecKeepsGrants(steps: seq<Step>, memberId: string, from: nat, to: nat)
    ensures GrantsCounted(Exec(steps), memberId, from, to)
  {
    if steps == [] {
      assert GrantedSet([], memberId, from, to) == {};
    } else {
      var init, step := steps[..|steps| - 1], steps[|steps| - 1];
      ExecKeepsGrants(init, memberId, from, to);
      ExecKeepsInvariant(init);
      NextKeepsGrants(Exec(init), step, memberId, from, to);
    }
  }

  /** The hashes of the tokens of a member that can still be used. */
  ghost function LiveTokens(s: Store, memberId: string): set<string> {
    set k | k in s.docs && k.ResetToken? && k.memberId == memberId && LiveDoc(s, k) :: k.tokenHash
  }

  /** No request took longer than `delay` between passing the counter and writing its token. */
  ghost predicate WritesWithin(sys: Sys, delay: nat) {
    forall r | r in sys.reqs && r.writtenAt.Some? && r.checkedAt.Some? :: r.writtenAt.value <= r.checkedAt.value + delay
  }

  lemma {:induction false} ImageCard(xs: set<nat>, reqs: seq<Req>)
    requires forall i | i in xs :: i < |reqs|
    ensures |set i | i in xs :: reqs[i].tokenHash| <= |xs|
  {
    if xs == {} {
    } else {
      var x :| x in xs;
      ImageCard(xs - {x}, reqs);
      assert (set i | i in xs :: reqs[i].tokenHash)
               == (set i | i in xs - {x} :: reqs[i].tokenHash) + {reqs[x].tokenHash};
    }
  }

  /** A live token was let through less than `delay` plus one hour ago. */
  lemma LiveTokensGranted(sys: Sys, memberId: string, delay: nat, from: nat)
    requires IssueInvariant(sys) && WritesWithin(sys, delay)
    requires from == 0 || from + RESET_TOKEN_TTL + delay <= StoreOf(sys).now + 1
    ensures var xs := GrantedSet(sys.reqs, memberId, from, StoreOf(sys).now + 1);
            LiveTokens(StoreOf(sys), memberId) <= set i | i in xs :: sys.reqs[i].tokenHash
  {
    var s := StoreOf(sys);
    var xs := GrantedSet(sys.reqs, memberId, from, s.now + 1);
    forall h | h in LiveTokens(s, memberId)
      ensures h in set i | i in xs :: sys.reqs[i].tokenHash
    {
      var k := ResetToken(memberId, h);
      var i: nat :| i < |sys.reqs| && WrittenBy(sys.reqs[i], k, s);
      assert i in xs;
    }
  }

  lemma LiveTokensAdmitted(sys: Sys, memberId: string, delay: nat, from: nat)
    requires IssueInvariant(sys) && WritesWithin(sys, delay)
    requires from == 0 || from + RESET_TOKEN_TTL + delay <= StoreOf(sys).now + 1
    requires GrantsCounted(sys, memberId, from, StoreOf(sys).now + 1)
    ensures |LiveTokens(StoreOf(sys), memberId)|
         <= Admitted(sys.trace, IssueCount(ResetPasswordApp, memberId), ISSUE_COUNT_CAP, from, StoreOf(sys).now + 1)
  {
    var xs := GrantedSet(sys.reqs, memberId, from, StoreOf(sys).now + 1);
    LiveTokensGranted(sys, memberId, delay, from);
    ImageCard(xs, sys.reqs);
    SubsetCard(LiveTokens(StoreOf(sys), memberId), set i | i in xs :: sys.reqs[i].tokenHash);
  }

  lemma AdmittedInSpan(cs: seq<Command>, memberId: string, from: nat, to: nat, span: nat)
    requires AllIssued(cs) && from < to <= from + span
    ensures Admitted(cs, IssueCount(ResetPasswordApp, memberId), ISSUE_COUNT_CAP, from, to)
         <= 5 * (Cover(span, ISSUE_COUNT_TTL) + 1) - 1
  {
    CountWindows(cs, ResetPasswordApp, "", memberId, from, to);
    CoverMonotone(to - from, span, ISSUE_COUNT_TTL);
  }

  lemma LiveTokensBounded(sys: Sys, memberId: string, delay: nat)
    requires IssueInvariant(sys) && WritesWithin(sys, delay)
    requires forall from: nat, to: nat :: GrantsCounted(sys, memberId, from, to)
    ensures |LiveTokens(StoreOf(sys), memberId)| <= 5 * (Cover(RESET_TOKEN_TTL + delay, ISSUE_COUNT_TTL) + 1) - 1
  {
    var now, span := StoreOf(sys).now, RESET_TOKEN_TTL + delay;
    var from := if now + 1 >= span then now + 1 - span else 0;
    LiveTokensAdmitted(sys, memberId, delay, from);
    AdmittedInSpan(sys.trace, memberId, from, now + 1, span);
  }

  /**
   Over every interleaving: with at most `delay` between the check and the write of each issue, a member never
   has more than 5 * (ceiling((1 h + delay) / 1 h) + 1) - 1 live tokens.
   */
  lemma LiveTokenBound(steps: seq<Step>, memberId: string, delay: nat)
    requires WritesWithin(Exec(steps), delay)
    ensures |LiveTokens(StoreOf(Exec(steps)), memberId)|
              <= 5 * (Cover(RESET_TOKEN_TTL + delay, ISSUE_COUNT_TTL) + 1) - 1
  {
    ExecKeepsInvariant(steps);
    forall from: nat, to: nat
      ensures GrantsCounted(Exec(steps), memberId, from, to)
    {
      ExecKeepsGrants(steps, memberId, from, to);
    }
    LiveTokensBounded(Exec(steps), memberId, delay);
  }

  /** With check and write stamped at one instant there are never more than nine. */
  lemma NineLiveTokens(steps: seq<Step>, memberId: string)
    requires WritesWithin(Exec(steps), 0)
    ensures |LiveTokens(StoreOf(Exec(steps)), memberId)| <= 9
  {
    LiveTokenBound(steps, memberId, 0);
    assert Cover(ISSUE_COUNT_TTL, ISSUE_COUNT_TTL) == 1 + Cover(0, ISSUE_COUNT_TTL);
  }
}
