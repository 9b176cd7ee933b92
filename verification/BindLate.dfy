/**
 The bound of `WrongGuessBound` is reached for every number of strays: each decrement that comes after the counter in
 which its attempt was counted lets one more guess into a later life.
 */
module BindLate {
  import opened Prelude
  import opened AuthKeys
  import opened RedisStore
  import opened AuthLimits
  import opened BindTables
  import opened BindCodes
  import opened BindInterleaved
  import opened Places

  ghost predicate Reachable(m: Machine) {
    exists steps :: m == Exec(START, steps)
  }

  lemma StartReachable()
    ensures Reachable(START)
  {
    assert START == Exec(START, []);
  }

  lemma NextReachable(m: Machine, step: Step)
    requires Reachable(m)
    ensures Reachable(Next(m, step))
  {
    var steps :| m == Exec(START, steps);
    assert (steps + [step])[..|steps|] == steps;
    assert Next(m, step) == Exec(START, steps + [step]);
  }

  // ----- one guess -----

  const GUESS := Query("app", "e", "m", BIND_DEVICE_LIMIT, "0001")

  function FailCounter(): Key {
    FailKey(GUESS)
  }

  ghost predicate ChallengeUp(s: Store) {
    ChallengeMember(s, "app", "e") == Some("m")
  }

  /** A request being checked, or on its way after it. */
  ghost predicate Counted(r: Req, pc: Pc, life: nat) {
    r.q == GUESS && r.pc == pc && r.attempts <= DEVICE_BIND_FAIL_CAP && r.life == Some(life) && r.gaveTo == None
    && !r.wrong
  }

  lemma Challenge(m: Machine) returns (m': Machine)
    requires Reachable(m)
    ensures Reachable(m') && m'.reqs == m.reqs && ChallengeUp(m'.sys.store)
    ensures m'.sys == m.sys.(store := m.sys.store.(docs := m'.sys.store.docs))
  {
    var step := Step.Elsewhere(Write(DeviceBind("app", Normalize("e")), BindChallenge("m"), DEVICE_BIND_TTL));
    NextReachable(m, step);
    m' := Next(m, step);
  }

  /** Two round trips: the member is not locked and has a challenge. */
  lemma Arrives(m: Machine) returns (m': Machine)
    requires Reachable(m) && ChallengeUp(m.sys.store) && ReadCounter(m.sys.store, FailCounter()) < DEVICE_BIND_FAIL_CAP
    ensures Reachable(m') && m' == m.(reqs := m.reqs + [Arrive(GUESS).(pc := AtCount)])
  {
    var j := |m.reqs|;
    NextReachable(m, Begin(GUESS));
    var m1 := Next(m, Begin(GUESS));
    NextReachable(m1, Advance(j, true));
    var m2 := Next(m1, Advance(j, true));
    assert m2 == m.(reqs := m.reqs + [Arrive(GUESS).(pc := AtChallenge)]);
    NextReachable(m2, Advance(j, true));
    m' := Next(m2, Advance(j, true));
  }

  /** A new request is counted, and its code is being checked. */
  lemma Guess(m: Machine) returns (m': Machine)
    requires Reachable(m) && ChallengeUp(m.sys.store) && ReadCounter(m.sys.store, FailCounter()) < DEVICE_BIND_FAIL_CAP
    ensures Reachable(m') && m'.sys == m.sys.(store := Incr(m.sys.store, FailCounter(), DEVICE_BIND_FAIL_TTL))
    ensures |m'.reqs| == |m.reqs| + 1 && m'.reqs[..|m.reqs|] == m.reqs
    ensures Counted(m'.reqs[|m.reqs|], AtCompare, m'.sys.store.counters[FailCounter()].born)
  {
    var m1 := Arrives(m);
    NextReachable(m1, Advance(|m.reqs|, true));
    m' := Next(m1, Advance(|m.reqs|, true));
  }

  // ----- a correct code, up to its decrement -----

  const OLD_DEVICE := Device("d", "m", 0)

  function GoodCode(now: nat): CodeRow {
    CodeRow(0, "app", "e", BIND_DEVICE_LIMIT, "0001", now + CODE_LIFETIME - 1)
  }

  lemma GoodNow(now: nat)
    ensures CodeGood([GoodCode(now)], "app", "e", BIND_DEVICE_LIMIT, "0001", now)
    ensures MemberDevices([OLD_DEVICE], "m") == [OLD_DEVICE]
  {
    assert UnexpiredRows([GoodCode(now)], "app", "e", BIND_DEVICE_LIMIT, now) == [GoodCode(now)] by {
      assert [GoodCode(now)][..0] == [];
    }
    assert [OLD_DEVICE][..0] == [];
  }

  /** Only this request has moved, and only the tables have changed. */
  ghost predicate Moved(m: Machine, m': Machine, i: nat)
    requires i < |m.reqs|
  {
    && Reachable(m') && m'.sys.store == m.sys.store
    && |m'.reqs| == |m.reqs| && forall j | 0 <= j < |m.reqs| && j != i :: m'.reqs[j] == m.reqs[j]
  }

  lemma MoveOn(m: Machine, i: nat, pc: Pc, life: nat) returns (m': Machine)
    requires Reachable(m) && i < |m.reqs| && Counted(m.reqs[i], pc, life)
    requires pc.AtCompare? || pc.AtDevices? || pc.AtDelete? || pc.AtReread? || pc.AtExpire?
    ensures Moved(m, m', i) && m' == Next(m, Advance(i, true))
  {
    NextReachable(m, Advance(i, true));
    m' := Next(m, Advance(i, true));
    QuietNow(m.sys, m.reqs[i]);
  }

  lemma QuietNow(sys: Sys, r: Req)
    requires InFlight(r)
    ensures Effect(sys, r, true).0.store == sys.store
  {
  }

  lemma FindsDevice(m: Machine, i: nat, life: nat) returns (m': Machine)
    requires Reachable(m) && i < |m.reqs| && Counted(m.reqs[i], AtCompare, life)
    requires m.sys.codes == [GoodCode(m.sys.store.now)] && m.sys.devices == [OLD_DEVICE]
    ensures Moved(m, m', i) && Counted(m'.reqs[i], AtDelete("d"), life)
  {
    GoodNow(m.sys.store.now);
    var m1 := MoveOn(m, i, AtCompare, life);
    assert m1.sys == m.sys;
    m' := MoveOn(m1, i, AtDevices, life);
  }

  lemma DropsCodes(m: Machine, i: nat, life: nat) returns (m': Machine)
    requires Reachable(m) && i < |m.reqs| && Counted(m.reqs[i], AtDelete("d"), life)
    ensures Moved(m, m', i) && Counted(m'.reqs[i], AtGiveBack, life)
  {
    var m1 := MoveOn(m, i, AtDelete("d"), life);
    var m2 := MoveOn(m1, i, AtReread, life);
    m' := MoveOn(m2, i, m2.reqs[i].pc, life);
  }

  /** The tables are such that the code is correct: five round trips take the request to its decrement. */
  lemma Succeeds(m: Machine, i: nat, life: nat) returns (m': Machine)
    requires Reachable(m) && i < |m.reqs| && Counted(m.reqs[i], AtCompare, life)
    ensures Moved(m, m', i) && Counted(m'.reqs[i], AtGiveBack, life)
  {
    var step := TablesChange([GoodCode(m.sys.store.now)], [OLD_DEVICE]);
    NextReachable(m, step);
    var m1 := Next(m, step);
    var m2 := FindsDevice(m1, i, life);
    m' := DropsCodes(m2, i, life);
  }

  // ----- n requests wait with their decrements, each counted in a life of its own -----

  /** The first `n` requests are about to give back what was counted in lives 0 to `n - 1`. */
  ghost predicate Late(m: Machine, n: nat) {
    n <= |m.reqs| && forall j: nat | j < n :: Counted(m.reqs[j], AtGiveBack, j)
  }

  ghost predicate Waiting(m: Machine, n: nat) {
    && Reachable(m) && Late(m, n) && |m.reqs| == n
    && m.sys.store.births == n && !LiveCounter(m.sys.store, FailCounter())
  }

  lemma Pauses(m: Machine) returns (m': Machine)
    requires Reachable(m) && FailCounter() in m.sys.store.counters
    requires m.sys.store.counters[FailCounter()].expiry == Some(m.sys.store.now + DEVICE_BIND_FAIL_TTL)
    ensures Reachable(m') && m'.reqs == m.reqs && m'.sys.store.births == m.sys.store.births
    ensures !LiveCounter(m'.sys.store, FailCounter())
  {
    var step := Step.Elsewhere(Wait(DEVICE_BIND_FAIL_TTL));
    NextReachable(m, step);
    m' := Next(m, step);
  }

  lemma OneMoreWaits(m: Machine, n: nat) returns (m': Machine)
    requires Waiting(m, n)
    ensures Waiting(m', n + 1)
  {
    var m1 := Challenge(m);
    var m2 := Guess(m1);
    var m3 := Succeeds(m2, n, n);
    m' := Pauses(m3);
    forall j: nat | j < n
      ensures Counted(m'.reqs[j], AtGiveBack, j)
    {
      assert m'.reqs[j] == m3.reqs[j] == m2.reqs[j] == m2.reqs[..n][j] == m.reqs[j];
    }
  }

  lemma {:induction false} AllWait(n: nat) returns (m: Machine)
    ensures Waiting(m, n)
  {
    if n == 0 {
      StartReachable();
      m := START;
    } else {
      var before := AllWait(n - 1);
      m := OneMoreWaits(before, n - 1);
    }
  }

  // ----- ten guesses in the next life, and then one for every late decrement -----

  /** `c` of the attempts count at present, of `g` guesses being checked in life `n`. */
  ghost predicate Guessing(m: Machine, n: nat, g: nat, c: nat) {
    && Reachable(m) && ChallengeUp(m.sys.store) && |m.reqs| == n + g
    && ReadCounter(m.sys.store, FailCounter()) == c
    && (if g == 0 then m.sys.store.births == n && !LiveCounter(m.sys.store, FailCounter())
        else LiveCounter(m.sys.store, FailCounter()) && m.sys.store.counters[FailCounter()].born == n)
    && forall j: nat | n <= j < n + g :: Counted(m.reqs[j], AtCompare, n)
  }

  lemma OneJoins(m: Machine, n: nat, g: nat, c: nat) returns (m': Machine)
    requires Guessing(m, n, g, c) && c < DEVICE_BIND_FAIL_CAP
    ensures Guessing(m', n, g + 1, c + 1) && m'.reqs[..|m.reqs|] == m.reqs
  {
    m' := Guess(m);
    forall j: nat | n <= j < n + g
      ensures Counted(m'.reqs[j], AtCompare, n)
    {
      assert m'.reqs[j] == m'.reqs[..|m.reqs|][j];
    }
  }

  lemma {:induction false} Crowd(n: nat, g: nat) returns (m: Machine)
    requires g <= DEVICE_BIND_FAIL_CAP
    ensures Guessing(m, n, g, g) && Late(m, n)
  {
    if g == 0 {
      var waiting := AllWait(n);
      m := Challenge(waiting);
    } else {
      var before := Crowd(n, g - 1);
      m := OneJoins(before, n, g - 1, g - 1);
      forall j: nat | j < n
        ensures Counted(m.reqs[j], AtGiveBack, j)
      {
        assert m.reqs[j] == m.reqs[..|before.reqs|][j];
      }
    }
  }

  /** The first `k` of the late requests have given back to life `n`, and as many new guesses have joined there. */
  ghost predicate Returned(m: Machine, n: nat, k: nat) {
    && k <= n && Guessing(m, n, 10 + k, 10)
    && (forall j: nat | j < k :: m.reqs[j].pc == AtClear && m.reqs[j].life == Some(j) && m.reqs[j].gaveTo == Some(n)
                                 && !m.reqs[j].wrong)
    && forall j: nat | k <= j < n :: Counted(m.reqs[j], AtGiveBack, j)
  }

  lemma GivesBack(m: Machine, n: nat, k: nat) returns (m': Machine)
    requires Returned(m, n, k) && k < n
    ensures Guessing(m', n, 10 + k, 9)
    ensures forall j: nat | j < |m.reqs| && j != k :: m'.reqs[j] == m.reqs[j]
    ensures m'.reqs[k].pc == AtClear && m'.reqs[k].life == Some(k) && m'.reqs[k].gaveTo == Some(n) && !m'.reqs[k].wrong
  {
    NextReachable(m, Advance(k, true));
    m' := Next(m, Advance(k, true));
  }

  lemma OneReturns(m: Machine, n: nat, k: nat) returns (m': Machine)
    requires Returned(m, n, k) && k < n
    ensures Returned(m', n, k + 1)
  {
    var m1 := GivesBack(m, n, k);
    m' := OneJoins(m1, n, 10 + k, 9);
    forall j: nat | j < n
      ensures m'.reqs[j] == m1.reqs[j]
    {
      assert m'.reqs[j] == m'.reqs[..|m1.reqs|][j];
    }
  }

  lemma {:induction false} AllReturn(n: nat, k: nat) returns (m: Machine)
    requires k <= n
    ensures Returned(m, n, k)
  {
    if k == 0 {
      m := Crowd(n, 10);
    } else {
      var before := AllReturn(n, k - 1);
      m := OneReturns(before, n, k - 1);
    }
  }

  lemma CountsOf(reqs: seq<Req>, n: nat, life: nat)
    requires |reqs| == 2 * n + 10
    requires forall j: nat | j < n :: StrayInto(life)(reqs[j]) && !WrongOrInFlight(life)(reqs[j])
    requires forall j: nat | n <= j < |reqs| :: !StrayInto(life)(reqs[j]) && WrongOrInFlight(life)(reqs[j])
    ensures |Where(reqs, StrayInto(life))| == n && |Where(reqs, WrongOrInFlight(life))| == 10 + n
  {
    SpanIs(0, n);
    SpanIs(n, |reqs|);
    assert Where(reqs, StrayInto(life)) == Span(0, n);
    assert Where(reqs, WrongOrInFlight(life)) == Span(n, |reqs|);
  }

  /** For every number of strays there is a run that meets the bound: the hypothesis of `WrongGuessCap` is needed. */
  lemma LateDecrementsAddGuesses(n: nat) returns (steps: seq<Step>, life: nat)
    ensures var reqs := Exec(START, steps).reqs;
            |Where(reqs, StrayInto(life))| == n && |Where(reqs, WrongOrInFlight(life))| == 10 + n
  {
    var m := AllReturn(n, n);
    life := n;
    CountsOf(m.reqs, n, n);
    steps :| m == Exec(START, steps);
  }
}
