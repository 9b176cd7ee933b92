/** Runs of the device-bind flow in which a comment of the code does not hold. */
module BindRuns {
  import opened Prelude
  import opened AuthKeys
  import opened RedisStore
  import opened AuthLimits
  import opened BindTables
  import opened BindCodes
  import opened BindSerial

  lemma PlayOne(emailOf: (string, string) -> string, sys: Sys, ops: seq<Op>, op: Op)
    ensures Play(emailOf, sys, ops + [op]) == Do(emailOf, Play(emailOf, sys, ops), op)
    ensures Play(emailOf, sys, [op]) == Do(emailOf, sys, op)
  {
    assert (ops + [op])[..|ops|] == ops;
    assert [op][..0] == [];
  }

  lemma {:induction false} PlayAppend(emailOf: (string, string) -> string, sys: Sys, ops: seq<Op>, more: seq<Op>)
    ensures Play(emailOf, sys, ops + more) == Play(emailOf, Play(emailOf, sys, ops), more)
  {
    if more == [] {
      assert ops + more == ops;
    } else {
      var init, op := more[..|more| - 1], more[|more| - 1];
      PlayAppend(emailOf, sys, ops, init);
      PlayOne(emailOf, sys, ops + init, op);
      assert ops + init + [op] == ops + more;
    }
  }

  lemma PlayThree(emailOf: (string, string) -> string, sys: Sys, a: Op, b: Op, c: Op)
    ensures Play(emailOf, sys, [a, b, c]) == Do(emailOf, Do(emailOf, Do(emailOf, sys, a), b), c)
  {
    PlayOne(emailOf, sys, [], a);
    PlayOne(emailOf, sys, [a], b);
    PlayOne(emailOf, sys, [a, b], c);
    assert [] + [a] == [a] && [a] + [b] == [a, b] && [a, b] + [c] == [a, b, c];
  }

  // ----- without exact spelling a code survives the lock -----

  function Guesses(q: Query, n: nat): seq<Op> {
    if n == 0 then [] else Guesses(q, n - 1) + [VerifyCode(q)]
  }

  /** Only the fail counter moves, by `n`. */
  ghost predicate Guessed(s: Sys, t: Sys, q: Query, n: nat) {
    && t.codes == s.codes && t.devices == s.devices && t.store.docs == s.store.docs && t.store.now == s.store.now
    && ReadCounter(t.store, FailKey(q)) == ReadCounter(s.store, FailKey(q)) + n
  }

  lemma OneWrongGuess(s: Sys, t: Sys, q: Query, n: nat)
    requires Guessed(s, t, q, n) && Challenged(s.store, q)
    requires !CodeGood(s.codes, q.appId, q.email, q.typ, q.code, s.store.now)
    requires ReadCounter(s.store, FailKey(q)) + n + 1 < DEVICE_BIND_FAIL_CAP
    ensures Guessed(s, Verify(t, q).0, q, n + 1)
  {
  }

  function Iterate<S>(step: S -> S, s: S, n: nat): S {
    if n == 0 then s else step(Iterate(step, s, n - 1))
  }

  lemma {:induction false} IterateKeeps<S(!new)>(step: S -> S, keeps: (S, nat) -> bool, s: S, n: nat)
    requires keeps(s, 0) && forall t, k: nat | k < n && keeps(t, k) :: keeps(step(t), k + 1)
    ensures keeps(Iterate(step, s, n), n)
  {
    if n == 0 {
    } else {
      IterateKeeps(step, keeps, s, n - 1);
    }
  }

  function Guess(q: Query): Sys -> Sys {
    (t: Sys) => Verify(t, q).0
  }

  lemma {:induction false} GuessesIterate(emailOf: (string, string) -> string, sys: Sys, q: Query, n: nat)
    ensures Play(emailOf, sys, Guesses(q, n)) == Iterate(Guess(q), sys, n)
  {
    if n == 0 {
    } else {
      GuessesIterate(emailOf, sys, q, n - 1);
      PlayOne(emailOf, sys, Guesses(q, n - 1), VerifyCode(q));
    }
  }

  ghost function GuessedFrom(s: Sys, q: Query): (Sys, nat) -> bool {
    (t: Sys, n: nat) => Guessed(s, t, q, n)
  }

  ghost predicate KeptByGuesses(sys: Sys, q: Query, n: nat) {
    forall t, k: nat | k < n && GuessedFrom(sys, q)(t, k) :: GuessedFrom(sys, q)(Guess(q)(t), k + 1)
  }

  lemma GuessesCount(sys: Sys, q: Query, n: nat)
    requires Challenged(sys.store, q) && !CodeGood(sys.codes, q.appId, q.email, q.typ, q.code, sys.store.now)
    requires ReadCounter(sys.store, FailKey(q)) + n < DEVICE_BIND_FAIL_CAP
    ensures KeptByGuesses(sys, q, n)
  {
    forall t, k: nat | k < n && GuessedFrom(sys, q)(t, k)
      ensures GuessedFrom(sys, q)(Guess(q)(t), k + 1)
    {
      OneWrongGuess(sys, t, q, k);
    }
  }

  lemma WrongGuesses(emailOf: (string, string) -> string, sys: Sys, q: Query, n: nat)
    requires KeptByGuesses(sys, q, n)
    ensures GuessedFrom(sys, q)(Play(emailOf, sys, Guesses(q, n)), n)
  {
    GuessesIterate(emailOf, sys, q, n);
    IterateKeeps(Guess(q), GuessedFrom(sys, q), sys, n);
  }

  const SPELLED := Query("app", "x@y", "m", BIND_DEVICE_LIMIT, "0000")
  const RESPELLED := Query("app", "X@y", "m", BIND_DEVICE_LIMIT, "0000")
  const FIRST_CODE := CodeRow(0, "app", "x@y", BIND_DEVICE_LIMIT, "0001", CODE_LIFETIME)

  /** `n` wrong guesses after the first login of member "m" with email "x@y". */
  ghost predicate AfterGuesses(sys: Sys, n: nat) {
    && sys.codes == [FIRST_CODE] && sys.store.now == 0
    && ReadCounter(sys.store, DeviceBindFail("app", "m")) == n
    && ChallengeMember(sys.store, "app", "x@y") == Some("m")
  }

  lemma NineGuesses(email: (string, string) -> string) returns (t: Sys)
    ensures t == Play(email, Login(INIT, "app", "m", "x@y", [1]), Guesses(SPELLED, 9)) && AfterGuesses(t, 9)
  {
    var login := Login(INIT, "app", "m", "x@y", [1]);
    FirstLogin();
    NoSuchCode(login, SPELLED);
    GuessesCount(login, SPELLED, 9);
    WrongGuesses(email, login, SPELLED, 9);
    t := Play(email, login, Guesses(SPELLED, 9));
  }

  lemma TenthGuess(tenth: Sys) returns (locked: Sys)
    requires AfterGuesses(tenth, 9)
    ensures locked == Verify(tenth, RESPELLED).0
    ensures BindLocked(locked.store, "app", "m") && !NoLiveCode(locked, "app", "x@y")
  {
    locked := Verify(tenth, RESPELLED).0;
    SameNormal();
    NoSuchCode(tenth, RESPELLED);
    assert Challenged(tenth.store, RESPELLED);
    UnexpiredRowsIff(tenth.codes, "app", "x@y", BIND_DEVICE_LIMIT, 0, FIRST_CODE);
    VerifyTrueIff(tenth, RESPELLED);
    FalseVerification(tenth, RESPELLED);
    LockDropsCodesIff(tenth, RESPELLED, "x@y");
  }

  lemma SameNormal()
    ensures Normalize("X@y") == Normalize("x@y") && "X@y" != "x@y"
  {
    assert TrimStart("X@y") == "X@y" && TrimStart("x@y") == "x@y";
    assert TrimEnd("X@y") == "X@y" && TrimEnd("x@y") == "x@y";
    assert forall i | 0 <= i < 3 :: Lower("X@y")[i] == Lower("x@y")[i];
    assert "X@y"[0] != "x@y"[0];
  }

  lemma FirstLogin()
    ensures AfterGuesses(Login(INIT, "app", "m", "x@y", [1]), 0)
  {
    assert FourDigits(1) == "0001";
    LoginSends(INIT, "app", "m", "x@y", [1]);
    assert ExpireLive([], "app", "x@y", BIND_DEVICE_LIMIT, 0) == [];
    assert FirstFree([1], []) == Some(1);
  }

  lemma NoSuchCode(sys: Sys, q: Query)
    requires sys.codes == [CodeRow(0, "app", "x@y", BIND_DEVICE_LIMIT, "0001", CODE_LIFETIME)] && q.code == "0000"
    ensures !CodeGood(sys.codes, q.appId, q.email, q.typ, q.code, sys.store.now)
  {
    var live := UnexpiredRows(sys.codes, q.appId, q.email, q.typ, sys.store.now);
    forall r | r in live
      ensures r in sys.codes
    {
      UnexpiredRowsIff(sys.codes, q.appId, q.email, q.typ, sys.store.now, r);
    }
    TakenIff(live, "0000");
    assert "0001"[3] != "0000"[3];
  }

  /**
   A member whose email is "x@y" logs in, nine wrong guesses use that spelling and the tenth writes "X@y": the member
   is locked, and the code sent to "x@y" is still live.
   */
  lemma VariantSpellingKeepsCode(email: (string, string) -> string) returns (locked: Sys)
    requires email("app", "m") == "x@y"
    ensures locked == Play(email, INIT, [LoginAtLimit("app", "m", [1])] + Guesses(SPELLED, 9) + [VerifyCode(RESPELLED)])
    ensures BindLocked(locked.store, "app", "m") && !NoLiveCode(locked, "app", "x@y")
  {
    var first, guesses := [LoginAtLimit("app", "m", [1])], Guesses(SPELLED, 9);
    var tenth := NineGuesses(email);
    PlayOne(email, INIT, [], LoginAtLimit("app", "m", [1]));
    PlayAppend(email, INIT, first, guesses);
    PlayOne(email, INIT, first + guesses, VerifyCode(RESPELLED));
    locked := TenthGuess(tenth);
  }

  // ----- a window that starts again -----

  /** After a true verification a counter that was dead before is live and at 0. */
  lemma TrueLeavesZero(sys: Sys, q: Query)
    requires Verify(sys, q).1 && !LiveCounter(sys.store, FailKey(q))
    ensures var t := Verify(sys, q).0.store;
            && t.now == sys.store.now && LiveCounter(t, FailKey(q)) && t.counters[FailKey(q)].value == 0
            && t.counters[FailKey(q)].expiry == Some(sys.store.now + DEVICE_BIND_FAIL_TTL)
  {
    TrueStore(sys, q);
  }

  /** A wrong code then finds a live counter, and sets its expiry anew. */
  lemma ZeroStartsAgain(sys: Sys, q: Query)
    requires Challenged(sys.store, q) && !Verify(sys, q).1
    requires LiveCounter(sys.store, FailKey(q)) && sys.store.counters[FailKey(q)].value == 0
    ensures var t := Verify(sys, q).0.store;
            && LiveCounter(t, FailKey(q)) && t.counters[FailKey(q)].value == 1
            && t.counters[FailKey(q)].born == sys.store.counters[FailKey(q)].born
            && t.counters[FailKey(q)].expiry == Some(sys.store.now + DEVICE_BIND_FAIL_TTL)
  {
  }

  lemma NoEmptyCode(rows: seq<CodeRow>, appId: string, email: string, now: nat)
    requires var live := UnexpiredRows(rows, appId, email, BIND_DEVICE_LIMIT, now);
             live == [] || (|live| == 1 && |live[0].code| == 4)
    ensures !CodeGood(rows, appId, email, BIND_DEVICE_LIMIT, "", now)
  {
    var live := UnexpiredRows(rows, appId, email, BIND_DEVICE_LIMIT, now);
    TakenIff(live, "");
  }

  /** A login in between writes the challenge and leaves the fail counter ... */
  lemma ChallengedAgain(sys: Sys, appId: string, memberId: string, email: string, draws: seq<Draw>)
    requires appId != "" && memberId != "" && email != "" && !BindLocked(sys.store, appId, memberId)
    requires DeviceBindFail(appId, memberId) in sys.store.counters
    ensures var t, k := Login(sys, appId, memberId, email, draws), DeviceBindFail(appId, memberId);
            && ChallengeMember(t.store, appId, email) == Some(memberId)
            && t.store.now == sys.store.now && k in t.store.counters && t.store.counters[k] == sys.store.counters[k]
  {
    var store := SetEx(sys.store, DeviceBind(appId, Normalize(email)), BindChallenge(memberId), DEVICE_BIND_TTL);
    GateFrame(store, appId, memberId, DeviceBind(appId, Normalize(email)), DeviceBindFail(appId, memberId));
    assert ChallengeMember(store, appId, email) == Some(memberId);
    SendTime(sys.(store := store), appId, email, BIND_DEVICE_LIMIT, draws);
  }

  /** ... and at most one code, which has four digits. */
  lemma NoEmptyCodeAfter(sys: Sys, appId: string, email: string, draws: seq<Draw>)
    requires NoLiveCode(sys, appId, email)
    ensures var t := Send(sys, appId, email, BIND_DEVICE_LIMIT, draws);
            t.store.now == sys.store.now && !CodeGood(t.codes, appId, email, BIND_DEVICE_LIMIT, "", sys.store.now)
  {
    RenewLeavesOne(sys.codes, appId, email, BIND_DEVICE_LIMIT, draws, sys.store.now);
    SendTime(sys, appId, email, BIND_DEVICE_LIMIT, draws);
    NoEmptyCode(Send(sys, appId, email, BIND_DEVICE_LIMIT, draws).codes, appId, email, sys.store.now);
  }

  lemma WrongAgain(sys: Sys, appId: string, memberId: string, email: string, draws: seq<Draw>)
    requires appId != "" && memberId != "" && email != "" && !BindLocked(sys.store, appId, memberId)
    requires NoLiveCode(sys, appId, email) && DeviceBindFail(appId, memberId) in sys.store.counters
    ensures var t, q := Login(sys, appId, memberId, email, draws), Query(appId, email, memberId, BIND_DEVICE_LIMIT, "");
            Challenged(t.store, q) && !Verify(t, q).1
  {
    ChallengedAgain(sys, appId, memberId, email, draws);
    var store := SetEx(sys.store, DeviceBind(appId, Normalize(email)), BindChallenge(memberId), DEVICE_BIND_TTL);
    NoEmptyCodeAfter(sys.(store := store), appId, email, draws);
    VerifyTrueIff(Login(sys, appId, memberId, email, draws), Query(appId, email, memberId, BIND_DEVICE_LIMIT, ""));
  }

  const TWO_DEVICES := [Device("d", "m", 0), Device("e", "m", 1)]

  const DEVICES := DevicesChange(TWO_DEVICES)
  const RIGHT := Query("app", "x@y", "m", BIND_DEVICE_LIMIT, "0001")
  const WRONG := Query("app", "x@y", "m", BIND_DEVICE_LIMIT, "")

  /** A login and a millisecond; then the correct code, another millisecond and a second login. */
  const FIRST := [DEVICES, LoginAtLimit("app", "m", [1]), TimePasses(1)]
  const SECOND := [VerifyCode(RIGHT), TimePasses(1), LoginAtLimit("app", "m", [2])]

  lemma CodeOne()
    ensures FirstFree([1], []) == Some(1) && FourDigits(1) == "0001"
  {
  }

  lemma NothingYet(sys: Sys)
    requires sys.store == EMPTY && sys.codes == []
    ensures !BindLocked(sys.store, "app", "m") && BindSendOpen(sys.store, "app", "m")
    ensures UnexpiredRows(sys.codes, "app", "x@y", BIND_DEVICE_LIMIT, sys.store.now) == []
  {
  }

  lemma StillNoCounter(sys: Sys, sent: Sys)
    requires sys.store == EMPTY && Sent(sys, sent, "app", "m", "x@y", [1])
    ensures !LiveCounter(Later(sent, 1).store, FailKey(RIGHT)) && Later(sent, 1).store.now == 1
  {
  }

  lemma RightCode(sys: Sys, later: Sys)
    requires sys.store == EMPTY && sys.codes == [] && sys.devices == TWO_DEVICES
    requires later == Later(Login(sys, "app", "m", "x@y", [1]), 1)
    ensures Verify(later, RIGHT).1 && later.store.now == 1 && !LiveCounter(later.store, FailKey(RIGHT))
  {
    NothingYet(sys);
    LoginSends(sys, "app", "m", "x@y", [1]);
    StillNoCounter(sys, Login(sys, "app", "m", "x@y", [1]));
    CodeOne();
    assert TWO_DEVICES[0] in sys.devices;
    SentCodeVerifies(sys, "app", "m", "x@y", [1], 1, 1);
  }

  /** Live, at `value`, until `end`. */
  ghost predicate CounterIs(s: Store, value: int, end: nat) {
    var k := FailKey(WRONG);
    LiveCounter(s, k) && s.counters[k].value == value && s.counters[k].expiry == Some(end)
  }

  lemma SecondLogin(later: Sys) returns (again: Sys)
    requires Verify(later, RIGHT).1 && later.store.now == 1 && !LiveCounter(later.store, FailKey(RIGHT))
    ensures again == Login(Later(Verify(later, RIGHT).0, 1), "app", "m", "x@y", [2])
    ensures Challenged(again.store, WRONG) && !Verify(again, WRONG).1 && again.store.now == 2
    ensures CounterIs(again.store, 0, 1 + DEVICE_BIND_FAIL_TTL)
  {
    TrueLeavesZero(later, RIGHT);
    TrueLeavesNothing(later, RIGHT);
    var done := Verify(later, RIGHT).0;
    OneRowLater(done.codes, "app", "x@y", BIND_DEVICE_LIMIT, 1, 1);
    ChallengedAgain(Later(done, 1), "app", "m", "x@y", [2]);
    WrongAgain(Later(done, 1), "app", "m", "x@y", [2]);
    again := Login(Later(done, 1), "app", "m", "x@y", [2]);
  }

  lemma FirstThree(email: (string, string) -> string) returns (later: Sys)
    requires email("app", "m") == "x@y"
    ensures later == Play(email, INIT, FIRST)
    ensures later == Later(Login(INIT.(devices := TWO_DEVICES), "app", "m", "x@y", [1]), 1)
  {
    PlayThree(email, INIT, FIRST[0], FIRST[1], FIRST[2]);
    later := Later(Login(INIT.(devices := TWO_DEVICES), "app", "m", "x@y", [1]), 1);
  }

  lemma LastThree(email: (string, string) -> string, later: Sys, again: Sys)
    requires email("app", "m") == "x@y"
    requires again == Login(Later(Verify(later, RIGHT).0, 1), "app", "m", "x@y", [2])
    ensures again == Play(email, later, SECOND)
  {
    PlayThree(email, later, SECOND[0], SECOND[1], SECOND[2]);
  }

  /** A correct code leaves the counter live at 0; the next wrong one moves the expiry of that same life. */
  lemma WindowStartsAgain(email: (string, string) -> string) returns (before: Sys, after: Sys)
    requires email("app", "m") == "x@y"
    ensures before == Play(email, INIT, FIRST + SECOND)
            && after == Play(email, INIT, FIRST + SECOND + [VerifyCode(WRONG)])
    ensures CounterIs(before.store, 0, 1 + DEVICE_BIND_FAIL_TTL)
    ensures CounterIs(after.store, 1, 2 + DEVICE_BIND_FAIL_TTL)
    ensures before.store.counters[FailKey(WRONG)].born == after.store.counters[FailKey(WRONG)].born
  {
    var later := FirstThree(email);
    RightCode(INIT.(devices := TWO_DEVICES), later);
    before := SecondLogin(later);
    LastThree(email, later, before);
    PlayAppend(email, INIT, FIRST, SECOND);
    PlayOne(email, INIT, FIRST + SECOND, VerifyCode(WRONG));
    after := Verify(before, WRONG).0;
    ZeroStartsAgain(before, WRONG);
  }
}
