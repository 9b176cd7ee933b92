/**
 What the device-bind flow guarantees when requests run one after the other: every member has one fixed email,
 time passes between requests, and other parts of the service may change the device table.
 */
module BindSerial {
  import opened Prelude
  import opened AuthKeys
  import opened RedisStore
  import opened AuthLimits
  import opened BindTables
  import opened BindCodes

  datatype Op =
    | LoginAtLimit(appId: string, memberId: string, draws: seq<Draw>)
    | SendCode(appId: string, email: string, typ: string, draws: seq<Draw>)
    | VerifyCode(q: Query)
    | TimePasses(d: nat)
    | DevicesChange(devices: seq<Device>)

  const INIT := Sys(EMPTY, [], [])

  function Later(sys: Sys, d: nat): Sys {
    sys.(store := Tick(sys.store, d))
  }

  function Do(emailOf: (string, string) -> string, sys: Sys, op: Op): Sys {
    match op
    case LoginAtLimit(appId, memberId, draws) => Login(sys, appId, memberId, emailOf(appId, memberId), draws)
    case SendCode(appId, email, typ, draws) => Send(sys, appId, email, typ, draws)
    case VerifyCode(q) => Verify(sys, q).0
    case TimePasses(d) => Later(sys, d)
    case DevicesChange(devices) => sys.(devices := devices)
  }

  function Play(emailOf: (string, string) -> string, sys: Sys, ops: seq<Op>): Sys {
    if ops == [] then sys else Do(emailOf, Play(emailOf, sys, ops[..|ops| - 1]), ops[|ops| - 1])
  }

  /** Device ids are a primary key, whoever writes the table. */
  ghost predicate KeyedDevices(ops: seq<Op>) {
    forall op | op in ops && op.DevicesChange? :: DistinctIds(op.devices)
  }

  // ----- at most one live code -----

  ghost predicate OneLiveCode(sys: Sys) {
    forall appId, email, typ :: |UnexpiredRows(sys.codes, appId, email, typ, sys.store.now)| <= 1
  }

  /** After a renewal exactly the new code is live for (app, email, type), and everything else is as before. */
  lemma RenewLeavesOne(rows: seq<CodeRow>, appId: string, email: string, typ: string, draws: seq<Draw>, now: nat)
    ensures var live := UnexpiredRows(rows, appId, email, typ, now);
            var live' := UnexpiredRows(Renew(rows, appId, email, typ, draws, now), appId, email, typ, now);
            match FirstFree(draws, live)
            case None => live' == []
            case Some(n) => live' == [CodeRow(|rows|, appId, email, typ, FourDigits(n), now + CODE_LIFETIME)]
  {
    ExpireLiveClears(rows, appId, email, typ, now);
    var rows1 := ExpireLive(rows, appId, email, typ, now);
    var rows2 := Renew(rows, appId, email, typ, draws, now);
    if |rows2| > |rows1| {
      assert rows2[..|rows2| - 1] == rows1;
    }
  }

  lemma RenewElsewhere(
    rows: seq<CodeRow>, appId: string, email: string, typ: string, draws: seq<Draw>, now: nat,
    appId': string, email': string, typ': string
  )
    requires (appId, email, typ) != (appId', email', typ')
    ensures UnexpiredRows(Renew(rows, appId, email, typ, draws, now), appId', email', typ', now)
              == UnexpiredRows(rows, appId', email', typ', now)
  {
    var rows1 := ExpireLive(rows, appId, email, typ, now);
    var rows2 := Renew(rows, appId, email, typ, draws, now);
    ExpireRowsElsewhere(rows, Ids(UnexpiredRows(rows, appId, email, typ, now)), appId, email, typ, now, appId', email',
                        typ');
    if |rows2| > |rows1| {
      assert rows2[..|rows2| - 1] == rows1;
    }
  }

  lemma RenewKeepsOne(sys: Sys, appId: string, email: string, typ: string, draws: seq<Draw>)
    requires OneLiveCode(sys)
    ensures OneLiveCode(sys.(codes := Renew(sys.codes, appId, email, typ, draws, sys.store.now)))
  {
    forall appId', email', typ'
      ensures |UnexpiredRows(Renew(sys.codes, appId, email, typ, draws, sys.store.now), appId', email', typ',
                             sys.store.now)| <= 1
    {
      if (appId, email, typ) == (appId', email', typ') {
        RenewLeavesOne(sys.codes, appId, email, typ, draws, sys.store.now);
      } else {
        RenewElsewhere(sys.codes, appId, email, typ, draws, sys.store.now, appId', email', typ');
      }
    }
  }

  lemma ExpireKeepsOne(sys: Sys, appId: string, email: string, typ: string)
    requires OneLiveCode(sys)
    ensures OneLiveCode(sys.(codes := ExpireLive(sys.codes, appId, email, typ, sys.store.now)))
  {
    var now := sys.store.now;
    forall appId', email', typ'
      ensures |UnexpiredRows(ExpireLive(sys.codes, appId, email, typ, now), appId', email', typ', now)| <= 1
    {
      if (appId, email, typ) == (appId', email', typ') {
        ExpireLiveClears(sys.codes, appId, email, typ, now);
      } else {
        ExpireRowsElsewhere(sys.codes, Ids(UnexpiredRows(sys.codes, appId, email, typ, now)), appId, email, typ, now,
                            appId', email', typ');
      }
    }
  }

  lemma SendTime(sys: Sys, appId: string, email: string, typ: string, draws: seq<Draw>)
    ensures Send(sys, appId, email, typ, draws).store.now == sys.store.now
    ensures Send(sys, appId, email, typ, draws).devices == sys.devices
    ensures Send(sys, appId, email, typ, draws).codes
         == if SendAllowed(sys.store, appId, email, typ) then Renew(sys.codes, appId, email, typ, draws, sys.store.now)
           else sys.codes
  {
  }

  lemma VerifyCodes(sys: Sys, q: Query)
    ensures Verify(sys, q).0.store.now == sys.store.now
    ensures var codes := Verify(sys, q).0.codes;
            codes == sys.codes || codes == ExpireLive(sys.codes, q.appId, q.email, q.typ, sys.store.now)
  {
  }

  lemma DoKeepsOne(emailOf: (string, string) -> string, sys: Sys, op: Op)
    requires OneLiveCode(sys)
    ensures OneLiveCode(Do(emailOf, sys, op))
  {
    match op
    case LoginAtLimit(appId, memberId, draws) =>
      var store := SetEx(sys.store, DeviceBind(appId, Normalize(emailOf(appId, memberId))), BindChallenge(memberId),
                         DEVICE_BIND_TTL);
      SendTime(sys.(store := store), appId, emailOf(appId, memberId), BIND_DEVICE_LIMIT, draws);
      RenewKeepsOne(sys, appId, emailOf(appId, memberId), BIND_DEVICE_LIMIT, draws);
    case SendCode(appId, email, typ, draws) =>
      SendTime(sys, appId, email, typ, draws);
      RenewKeepsOne(sys, appId, email, typ, draws);
    case VerifyCode(q) =>
      VerifyCodes(sys, q);
      ExpireKeepsOne(sys, q.appId, q.email, q.typ);
    case TimePasses(d) =>
      var later := sys.store.now + d;
      forall appId, email, typ
        ensures |UnexpiredRows(sys.codes, appId, email, typ, later)| <= 1
      {
        UnexpiredLater(sys.codes, appId, email, typ, sys.store.now, later);
      }
    case DevicesChange(devices) =>
  }

  /** Every reachable state has at most one live code for each app, email and type. */
  lemma {:induction false} AtMostOneLiveCode(emailOf: (string, string) -> string, ops: seq<Op>)
    ensures OneLiveCode(Play(emailOf, INIT, ops))
  {
    if ops == [] {
    } else {
      AtMostOneLiveCode(emailOf, ops[..|ops| - 1]);
      DoKeepsOne(emailOf, Play(emailOf, INIT, ops[..|ops| - 1]), ops[|ops| - 1]);
    }
  }

  /**
   A send that is allowed and draws a free code leaves exactly one live code: four digits, not 0000, valid for half
   an hour, and different from every code that was live before.
   */
  lemma SendLeavesOneFreshCode(sys: Sys, appId: string, email: string, typ: string, draws: seq<Draw>)
    requires SendAllowed(sys.store, appId, email, typ)
    requires exists d :: d in draws && !Taken(UnexpiredRows(sys.codes, appId, email, typ, sys.store.now), FourDigits(d))
    ensures var before := UnexpiredRows(sys.codes, appId, email, typ, sys.store.now);
            var sys' := Send(sys, appId, email, typ, draws);
            var after := UnexpiredRows(sys'.codes, appId, email, typ, sys'.store.now);
            (&& |after| == 1
             && (exists n: Draw :: after[0].code == FourDigits(n))
             && after[0].expiredAt == sys.store.now + 1800000
             && forall r | r in before :: r.code != after[0].code)
  {
    var before := UnexpiredRows(sys.codes, appId, email, typ, sys.store.now);
    FirstFreeFound(draws, before);
    SendTime(sys, appId, email, typ, draws);
    RenewLeavesOne(sys.codes, appId, email, typ, draws, sys.store.now);
    TakenIff(before, FourDigits(FirstFree(draws, before).value));
  }

  lemma {:induction false} FirstFreeFound(draws: seq<Draw>, live: seq<CodeRow>)
    requires exists d :: d in draws && !Taken(live, FourDigits(d))
    ensures FirstFree(draws, live).Some?
  {
    if Taken(live, FourDigits(draws[0])) {
      var d :| d in draws && !Taken(live, FourDigits(d));
      assert d in draws[1..];
      FirstFreeFound(draws[1..], live);
    }
  }

  // ----- a true verification -----

  lemma VerifyDevices(sys: Sys, q: Query)
    requires Verify(sys, q).1
    ensures MemberDevices(sys.devices, q.memberId) != []
    ensures var oldest := Earliest(MemberDevices(sys.devices, q.memberId));
            && Verify(sys, q).0.devices == RemoveDevice(sys.devices, oldest.id)
            && oldest in sys.devices && oldest.memberId == q.memberId
  {
    MemberDevicesIff(sys.devices, q.memberId, Earliest(MemberDevices(sys.devices, q.memberId)));
  }

  lemma VerifyKeepsDistinct(sys: Sys, q: Query)
    requires DistinctIds(sys.devices)
    ensures DistinctIds(Verify(sys, q).0.devices)
  {
    if Verify(sys, q).1 {
      VerifyDevices(sys, q);
      var d := Earliest(MemberDevices(sys.devices, q.memberId));
      assert d in sys.devices;
      var i :| 0 <= i < |sys.devices| && sys.devices[i] == d;
      RemoveDeviceExactly(sys.devices, i);
      RemoveKeepsDistinct(sys.devices, i);
    } else {
      FalseVerification(sys, q);
    }
  }

  lemma DoKeepsDistinct(emailOf: (string, string) -> string, sys: Sys, op: Op)
    requires DistinctIds(sys.devices) && (op.DevicesChange? ==> DistinctIds(op.devices))
    ensures DistinctIds(Do(emailOf, sys, op).devices)
  {
    match op
    case VerifyCode(q) => VerifyKeepsDistinct(sys, q);
    case SendCode(appId, email, typ, draws) => SendTime(sys, appId, email, typ, draws);
    case LoginAtLimit(appId, memberId, draws) => LoginDevices(sys, appId, memberId, emailOf(appId, memberId), draws);
    case TimePasses(d) =>
    case DevicesChange(devices) =>
  }

  lemma LoginDevices(sys: Sys, appId: string, memberId: string, email: string, draws: seq<Draw>)
    ensures Login(sys, appId, memberId, email, draws).devices == sys.devices
    ensures Login(sys, appId, memberId, email, draws).store.now == sys.store.now
  {
  }

  lemma {:induction false} DevicesStayDistinct(emailOf: (string, string) -> string, ops: seq<Op>)
    requires KeyedDevices(ops)
    ensures DistinctIds(Play(emailOf, INIT, ops).devices)
  {
    if ops == [] {
    } else {
      DevicesStayDistinct(emailOf, ops[..|ops| - 1]);
      DoKeepsDistinct(emailOf, Play(emailOf, INIT, ops[..|ops| - 1]), ops[|ops| - 1]);
    }
  }

  /** The member is challenged and not locked, the code is good, and there is a device to remove. */
  ghost predicate Verifies(sys: Sys, q: Query) {
    && Challenged(sys.store, q)
    && CodeGood(sys.codes, q.appId, q.email, q.typ, q.code, sys.store.now)
    && exists d :: d in sys.devices && d.memberId == q.memberId
  }

  /** When a verification succeeds. */
  lemma VerifyTrueIff(sys: Sys, q: Query)
    ensures Verify(sys, q).1 <==> Verifies(sys, q)
  {
    var mine := MemberDevices(sys.devices, q.memberId);
    forall d
      ensures d in mine <==> d in sys.devices && d.memberId == q.memberId
    {
      MemberDevicesIff(sys.devices, q.memberId, d);
    }
    if mine != [] {
      assert mine[0] in mine;
    }
  }

  lemma RemovesOldest(sys: Sys, q: Query)
    requires DistinctIds(sys.devices) && Verify(sys, q).1
    ensures exists i ::
              && 0 <= i < |sys.devices| && sys.devices[i].memberId == q.memberId
              && (forall d | d in sys.devices && d.memberId == q.memberId :: sys.devices[i].createdAt <= d.createdAt)
              && Verify(sys, q).0.devices == sys.devices[..i] + sys.devices[i + 1..]
  {
    VerifyDevices(sys, q);
    var mine := MemberDevices(sys.devices, q.memberId);
    var oldest := Earliest(mine);
    assert oldest in sys.devices && oldest.memberId == q.memberId;
    var i :| 0 <= i < |sys.devices| && sys.devices[i] == oldest;
    RemoveDeviceExactly(sys.devices, i);
    forall d | d in sys.devices && d.memberId == q.memberId
      ensures oldest.createdAt <= d.createdAt
    {
      MemberDevicesIff(sys.devices, q.memberId, d);
    }
  }

  lemma TrueLeavesNoCode(sys: Sys, q: Query)
    requires Verify(sys, q).1
    ensures UnexpiredRows(Verify(sys, q).0.codes, q.appId, q.email, q.typ, Verify(sys, q).0.store.now) == []
  {
    ExpireLiveClears(sys.codes, q.appId, q.email, q.typ, sys.store.now);
  }

  lemma TrueStore(sys: Sys, q: Query)
    requires Verify(sys, q).1
    ensures Challenged(sys.store, q)
    ensures Verify(sys, q).0.store
              == ClearChallenge(Decr(Incr(sys.store, FailKey(q), DEVICE_BIND_FAIL_TTL), FailKey(q)), q.appId, q.email)
  {
  }

  /** Counting an attempt and giving it back. */
  lemma IncrDecr(s: Store, k: Key, ttl: pos)
    ensures ReadCounter(Decr(Incr(s, k, ttl), k), k) == ReadCounter(s, k)
    ensures Decr(Incr(s, k, ttl), k).docs == s.docs
  {
  }

  lemma TrueLeavesNothing(sys: Sys, q: Query)
    requires Verify(sys, q).1
    ensures var sys' := Verify(sys, q).0;
            && UnexpiredRows(sys'.codes, q.appId, q.email, q.typ, sys'.store.now) == []
            && ChallengeMember(sys'.store, q.appId, q.email) == None
            && ReadCounter(sys'.store, FailKey(q)) == ReadCounter(sys.store, FailKey(q))
  {
    TrueLeavesNoCode(sys, q);
    TrueStore(sys, q);
    IncrDecr(sys.store, FailKey(q), DEVICE_BIND_FAIL_TTL);
  }

  /**
   A true verification takes out exactly one device, one of the member's with the least creation time, leaves no live
   code and no challenge, and leaves the fail counter where it was.
   */
  lemma TrueVerification(emailOf: (string, string) -> string, ops: seq<Op>, q: Query)
    requires KeyedDevices(ops) && Verify(Play(emailOf, INIT, ops), q).1
    ensures var sys := Play(emailOf, INIT, ops); var sys' := Verify(sys, q).0;
            (&& (exists i ::
                  && 0 <= i < |sys.devices| && sys.devices[i].memberId == q.memberId
                  && (forall d | d in sys.devices && d.memberId == q.memberId ::
                    sys.devices[i].createdAt <= d.createdAt)
                  && sys'.devices == sys.devices[..i] + sys.devices[i + 1..])
             && UnexpiredRows(sys'.codes, q.appId, q.email, q.typ, sys'.store.now) == []
             && ChallengeMember(sys'.store, q.appId, q.email) == None
             && ReadCounter(sys'.store, FailKey(q)) == ReadCounter(sys.store, FailKey(q)))
  {
    DevicesStayDistinct(emailOf, ops);
    RemovesOldest(Play(emailOf, INIT, ops), q);
    TrueLeavesNothing(Play(emailOf, INIT, ops), q);
  }

  /** A false verification leaves the devices alone, and counts at most one more failure of this member. */
  lemma FalseVerification(sys: Sys, q: Query)
    requires !Verify(sys, q).1
    ensures var sys' := Verify(sys, q).0;
            && sys'.devices == sys.devices
            && ReadCounter(sys'.store, FailKey(q))
              == ReadCounter(sys.store, FailKey(q)) + (if Challenged(sys.store, q) then 1 else 0)
            && (ReadCounter(sys'.store, FailKey(q)) < 10
              ==> sys'.codes == sys.codes && sys'.store.docs == sys.store.docs)
  {
  }

  // ----- the lock -----

  /** Challenges are only ever found under the email of the member they name. */
  ghost predicate ChallengesAtHome(emailOf: (string, string) -> string, s: Store) {
    forall k | k in s.docs && k.DeviceBind? && s.docs[k].value.BindChallenge? ::
      k.email == Normalize(emailOf(k.appId, s.docs[k].value.memberId))
  }

  /** No live challenge names a locked member. */
  ghost predicate LockedUnchallenged(s: Store) {
    forall k | k in s.docs && k.DeviceBind? && s.docs[k].value.BindChallenge? && LiveDoc(s, k) ::
      !BindLocked(s, k.appId, s.docs[k].value.memberId)
  }

  ghost predicate LockInvariant(emailOf: (string, string) -> string, s: Store) {
    ChallengesAtHome(emailOf, s) && LockedUnchallenged(s)
  }

  lemma SendKeepsLock(emailOf: (string, string) -> string, sys: Sys, appId: string, email: string, typ: string,
                      draws: seq<Draw>)
    requires LockInvariant(emailOf, sys.store)
    ensures LockInvariant(emailOf, Send(sys, appId, email, typ, draws).store)
  {
    var s, s' := sys.store, Send(sys, appId, email, typ, draws).store;
    forall k | k in s'.docs && k.DeviceBind?
      ensures k in s.docs && s'.docs[k] == s.docs[k]
      ensures forall m :: BindLocked(s', k.appId, m) <==> BindLocked(s, k.appId, m)
    {
    }
  }

  lemma LoginKeepsLock(emailOf: (string, string) -> string, sys: Sys, appId: string, memberId: string, draws: seq<Draw>)
    requires LockInvariant(emailOf, sys.store)
    ensures LockInvariant(emailOf, Login(sys, appId, memberId, emailOf(appId, memberId), draws).store)
  {
    var email := emailOf(appId, memberId);
    if email != "" && !BindLocked(sys.store, appId, memberId) {
      var store := SetEx(sys.store, DeviceBind(appId, Normalize(email)), BindChallenge(memberId), DEVICE_BIND_TTL);
      assert forall m, a :: BindLocked(store, a, m) <==> BindLocked(sys.store, a, m);
      assert LockInvariant(emailOf, store);
      SendKeepsLock(emailOf, sys.(store := store), appId, email, BIND_DEVICE_LIMIT, draws);
    }
  }

  lemma OthersFail(s: Store, s': Store, q: Query)
    requires s'.now == s.now
    requires forall k | k != FailKey(q) ::
               (k in s'.counters <==> k in s.counters) && (k in s.counters ==> s'.counters[k] == s.counters[k])
    ensures forall a, m | (a, m) != (q.appId, q.memberId) :: BindLocked(s', a, m) <==> BindLocked(s, a, m)
  {
  }

  /** A verification writes no document. */
  lemma VerifyDocs(sys: Sys, q: Query)
    ensures var s, s' := sys.store, Verify(sys, q).0.store;
            s'.now == s.now && forall k | k in s'.docs :: k in s.docs && s'.docs[k] == s.docs[k]
  {
    VerifyStore(sys, q);
  }

  lemma CapDropsChallenge(sys: Sys, q: Query)
    requires Challenged(sys.store, q) && BindLocked(Verify(sys, q).0.store, q.appId, q.memberId)
    ensures DeviceBind(q.appId, Normalize(q.email)) !in Verify(sys, q).0.store.docs
  {
  }

  /** A verification that reaches the cap removes the one challenge that named the member. */
  lemma VerifyKeepsLock(emailOf: (string, string) -> string, sys: Sys, q: Query)
    requires LockInvariant(emailOf, sys.store)
    ensures LockInvariant(emailOf, Verify(sys, q).0.store)
  {
    var s, s' := sys.store, Verify(sys, q).0.store;
    VerifyDocs(sys, q);
    if Challenged(s, q) {
      var home := DeviceBind(q.appId, Normalize(q.email));
      assert home in s.docs && s.docs[home].value == BindChallenge(q.memberId);
      forall k | k in s'.docs && k.DeviceBind? && s'.docs[k].value.BindChallenge? && LiveDoc(s', k)
        ensures !BindLocked(s', k.appId, s'.docs[k].value.memberId)
      {
        if (k.appId, s'.docs[k].value.memberId) == (q.appId, q.memberId) {
          assert k == home;
          if BindLocked(s', q.appId, q.memberId) {
            CapDropsChallenge(sys, q);
          }
        } else {
          VerifyOthersLock(sys, q, k.appId, s'.docs[k].value.memberId);
        }
      }
    }
  }

  lemma VerifyOthersLock(sys: Sys, q: Query, appId: string, memberId: string)
    requires (appId, memberId) != (q.appId, q.memberId)
    ensures BindLocked(Verify(sys, q).0.store, appId, memberId) <==> BindLocked(sys.store, appId, memberId)
  {
    VerifyStore(sys, q);
  }

  lemma DoKeepsLock(emailOf: (string, string) -> string, sys: Sys, op: Op)
    requires LockInvariant(emailOf, sys.store)
    ensures LockInvariant(emailOf, Do(emailOf, sys, op).store)
  {
    match op
    case LoginAtLimit(appId, memberId, draws) => LoginKeepsLock(emailOf, sys, appId, memberId, draws);
    case SendCode(appId, email, typ, draws) => SendKeepsLock(emailOf, sys, appId, email, typ, draws);
    case VerifyCode(q) => VerifyKeepsLock(emailOf, sys, q);
    case TimePasses(d) =>
    case DevicesChange(devices) =>
  }

  lemma {:induction false} LockInvariantHolds(emailOf: (string, string) -> string, ops: seq<Op>)
    ensures LockInvariant(emailOf, Play(emailOf, INIT, ops).store)
  {
    if ops == [] {
    } else {
      LockInvariantHolds(emailOf, ops[..|ops| - 1]);
      DoKeepsLock(emailOf, Play(emailOf, INIT, ops[..|ops| - 1]), ops[|ops| - 1]);
    }
  }

  /**
   While the fail counter of a member is at the cap: no email leads to a challenge for the member, a verification for
   the member is false and changes nothing, and neither does a login.
   */
  lemma LockedIsShut(emailOf: (string, string) -> string, ops: seq<Op>, appId: string, memberId: string)
    requires BindLocked(Play(emailOf, INIT, ops).store, appId, memberId)
    ensures var sys := Play(emailOf, INIT, ops);
            (&& (forall email :: ChallengeMember(sys.store, appId, email) != Some(memberId))
             && (forall q: Query | q.appId == appId && q.memberId == memberId :: Verify(sys, q) == (sys, false))
             && (forall draws :: Login(sys, appId, memberId, emailOf(appId, memberId), draws) == sys))
  {
    var sys := Play(emailOf, INIT, ops);
    LockInvariantHolds(emailOf, ops);
    forall email
      ensures ChallengeMember(sys.store, appId, email) != Some(memberId)
    {
      var k := DeviceBind(appId, Normalize(email));
      if LiveDoc(sys.store, k) && sys.store.docs[k].value == BindChallenge(memberId) {
        assert false;
      }
    }
  }

  // ----- the lock lasts until the counter expires -----

  lemma {:induction false} OthersDevices(devices: seq<Device>, id: string, memberId: string)
    requires forall d | d in devices && d.id == id :: d.memberId != memberId
    ensures MemberDevices(RemoveDevice(devices, id), memberId) == MemberDevices(devices, memberId)
  {
    if devices == [] {
    } else {
      var init, d := devices[..|devices| - 1], devices[|devices| - 1];
      assert d in devices && forall e | e in init :: e in devices;
      OthersDevices(init, id, memberId);
      assert MemberDevices(init, memberId) + [] == MemberDevices(init, memberId);
      assert RemoveDevice(init, id) + [] == RemoveDevice(init, id);
      assert (RemoveDevice(init, id) + [d])[..|RemoveDevice(init, id)|] == RemoveDevice(init, id);
    }
  }

  /** `t` still has the fail counter of `s`. */
  predicate SameCounter(s: Sys, t: Sys, appId: string, memberId: string) {
    var k := DeviceBindFail(appId, memberId);
    && s.store.now <= t.store.now
    && k in s.store.counters && k in t.store.counters && t.store.counters[k] == s.store.counters[k]
  }

  lemma VerifyOthersDevices(sys: Sys, q: Query, memberId: string)
    requires DistinctIds(sys.devices) && q.memberId != memberId
    ensures MemberDevices(Verify(sys, q).0.devices, memberId) == MemberDevices(sys.devices, memberId)
  {
    if Verify(sys, q).1 {
      VerifyDevices(sys, q);
      var d := Earliest(MemberDevices(sys.devices, q.memberId));
      assert d in sys.devices && d.memberId == q.memberId;
      forall e | e in sys.devices && e.id == d.id
        ensures e.memberId != memberId
      {
        var i :| 0 <= i < |sys.devices| && sys.devices[i] == e;
        var j :| 0 <= j < |sys.devices| && sys.devices[j] == d;
        assert i == j;
      }
      OthersDevices(sys.devices, d.id, memberId);
    } else {
      FalseVerification(sys, q);
    }
  }

  lemma VerifyStore(sys: Sys, q: Query)
    ensures var s, s' := sys.store, Verify(sys, q).0.store; var s1 := Incr(s, FailKey(q), DEVICE_BIND_FAIL_TTL);
            s' in {s, s1, ClearChallenge(s1, q.appId, q.email), ClearChallenge(Decr(s1, FailKey(q)), q.appId, q.email)}
  {
  }

  lemma VerifyOthersCounter(sys: Sys, q: Query, k: Key)
    requires k != FailKey(q) && k in sys.store.counters
    ensures k in Verify(sys, q).0.store.counters && Verify(sys, q).0.store.counters[k] == sys.store.counters[k]
    ensures Verify(sys, q).0.store.now == sys.store.now
  {
    VerifyStore(sys, q);
  }

  lemma SendOthersCounter(sys: Sys, appId: string, email: string, typ: string, draws: seq<Draw>, k: Key)
    requires k.DeviceBindFail? && k in sys.store.counters
    ensures k in Send(sys, appId, email, typ, draws).store.counters
    ensures Send(sys, appId, email, typ, draws).store.counters[k] == sys.store.counters[k]
  {
  }

  lemma DoKeepsCounter(emailOf: (string, string) -> string, sys: Sys, op: Op, appId: string, memberId: string)
    requires BindLocked(sys.store, appId, memberId)
    ensures SameCounter(sys, Do(emailOf, sys, op), appId, memberId)
  {
    var k := DeviceBindFail(appId, memberId);
    match op
    case LoginAtLimit(a, m, draws) =>
      LoginDevices(sys, a, m, emailOf(a, m), draws);
      var store := SetEx(sys.store, DeviceBind(a, Normalize(emailOf(a, m))), BindChallenge(m), DEVICE_BIND_TTL);
      SendOthersCounter(sys.(store := store), a, emailOf(a, m), BIND_DEVICE_LIMIT, draws, k);
    case SendCode(a, email, typ, draws) =>
      SendTime(sys, a, email, typ, draws);
      SendOthersCounter(sys, a, email, typ, draws, k);
    case VerifyCode(q) =>
      if FailKey(q) != k {
        VerifyOthersCounter(sys, q, k);
      }
    case TimePasses(d) =>
    case DevicesChange(devices) =>
  }

  lemma DoTime(emailOf: (string, string) -> string, sys: Sys, op: Op)
    ensures sys.store.now <= Do(emailOf, sys, op).store.now
  {
    match op
    case LoginAtLimit(a, m, draws) => LoginDevices(sys, a, m, emailOf(a, m), draws);
    case SendCode(a, email, typ, draws) => SendTime(sys, a, email, typ, draws);
    case VerifyCode(q) => VerifyCodes(sys, q);
    case TimePasses(d) =>
    case DevicesChange(devices) =>
  }

  /** Once locked, a member stays locked until the counter expires, whatever happens. */
  lemma {:induction false} LockLasts(emailOf: (string, string) -> string, sys: Sys, ops: seq<Op>,
                                     appId: string, memberId: string)
    requires BindLocked(sys.store, appId, memberId)
    requires Unexpired(sys.store.counters[DeviceBindFail(appId, memberId)].expiry, Play(emailOf, sys, ops).store.now)
    ensures SameCounter(sys, Play(emailOf, sys, ops), appId, memberId)
    ensures BindLocked(Play(emailOf, sys, ops).store, appId, memberId)
  {
    if ops == [] {
    } else {
      var init, op := ops[..|ops| - 1], ops[|ops| - 1];
      var mid := Play(emailOf, sys, init);
      DoTime(emailOf, mid, op);
      LockLasts(emailOf, sys, init, appId, memberId);
      DoKeepsCounter(emailOf, mid, op, appId, memberId);
    }
  }

  /** A rewrite of the table from elsewhere, or the member's own verification in another app. */
  predicate MayTouchDevices(op: Op, appId: string, memberId: string) {
    op.DevicesChange? || (op.VerifyCode? && op.q.memberId == memberId && op.q.appId != appId)
  }

  lemma DoKeepsDevices(emailOf: (string, string) -> string, sys: Sys, op: Op, appId: string, memberId: string)
    requires BindLocked(sys.store, appId, memberId) && DistinctIds(sys.devices) && !MayTouchDevices(op, appId, memberId)
    ensures MemberDevices(Do(emailOf, sys, op).devices, memberId) == MemberDevices(sys.devices, memberId)
  {
    match op
    case LoginAtLimit(a, m, draws) => LoginDevices(sys, a, m, emailOf(a, m), draws);
    case SendCode(a, email, typ, draws) => SendTime(sys, a, email, typ, draws);
    case VerifyCode(q) =>
      if q.memberId != memberId {
        VerifyOthersDevices(sys, q, memberId);
      }
    case TimePasses(d) =>
  }

  /** As long as the counter of a locked member has not expired, no request has removed any of the member's devices. */
  lemma {:induction false} LockedDevicesStay(emailOf: (string, string) -> string, sys: Sys, ops: seq<Op>,
                                             appId: string, memberId: string)
    requires BindLocked(sys.store, appId, memberId) && DistinctIds(sys.devices)
    requires forall i | 0 <= i < |ops| :: !MayTouchDevices(ops[i], appId, memberId)
    requires Unexpired(sys.store.counters[DeviceBindFail(appId, memberId)].expiry, Play(emailOf, sys, ops).store.now)
    ensures MemberDevices(Play(emailOf, sys, ops).devices, memberId) == MemberDevices(sys.devices, memberId)
    ensures DistinctIds(Play(emailOf, sys, ops).devices)
  {
    if ops == [] {
    } else {
      var init, op := ops[..|ops| - 1], ops[|ops| - 1];
      var mid := Play(emailOf, sys, init);
      DoTime(emailOf, mid, op);
      LockLasts(emailOf, sys, init, appId, memberId);
      LockedDevicesStay(emailOf, sys, init, appId, memberId);
      DoKeepsDevices(emailOf, mid, op, appId, memberId);
      DoKeepsDistinct(emailOf, mid, op);
    }
  }

  // ----- the codes of a locked member -----

  /** No two members of an app have the same email; any number may have none. */
  ghost predicate DistinctEmails(emailOf: (string, string) -> string) {
    forall a, m, n :: emailOf(a, m) != "" && emailOf(a, m) == emailOf(a, n) ==> m == n
  }

  /** The request spells an email as the records of the app do, when it is a member's email at all. */
  ghost predicate ExactEmail(emailOf: (string, string) -> string, appId: string, email: string) {
    forall m :: Normalize(email) == Normalize(emailOf(appId, m)) ==> email == emailOf(appId, m)
  }

  ghost predicate ExactEmails(emailOf: (string, string) -> string, op: Op) {
    match op
    case SendCode(appId, email, _, _) => ExactEmail(emailOf, appId, email)
    case VerifyCode(q) => ExactEmail(emailOf, q.appId, q.email)
    case _ => true
  }

  predicate NoLiveCode(sys: Sys, appId: string, email: string) {
    UnexpiredRows(sys.codes, appId, email, BIND_DEVICE_LIMIT, sys.store.now) == []
  }

  ghost predicate LockedCodeless(emailOf: (string, string) -> string, sys: Sys) {
    forall appId, memberId | BindLocked(sys.store, appId, memberId) :: NoLiveCode(sys, appId, emailOf(appId, memberId))
  }

  /**
   A verification that brings the counter to the cap leaves a live code for an email only if it was asked under another
   spelling.
   */
  lemma LockDropsCodesIff(sys: Sys, q: Query, email: string)
    requires Challenged(sys.store, q) && !Verify(sys, q).1 && BindLocked(Verify(sys, q).0.store, q.appId, q.memberId)
    ensures NoLiveCode(Verify(sys, q).0, q.appId, email) <==> q.email == email || NoLiveCode(sys, q.appId, email)
  {
    var now := sys.store.now;
    if q.email == email {
      ExpireLiveClears(sys.codes, q.appId, email, q.typ, now);
    } else {
      ExpireRowsElsewhere(sys.codes, Ids(UnexpiredRows(sys.codes, q.appId, q.email, q.typ, now)), q.appId, q.email,
                          q.typ, now,
                          q.appId, email, BIND_DEVICE_LIMIT);
    }
  }

  /** The live challenge under this email names a member whose record spells it so. */
  ghost predicate SpelledAtHome(emailOf: (string, string) -> string, s: Store, appId: string, email: string) {
    forall c :: ChallengeMember(s, appId, email) == Some(c) ==> email == emailOf(appId, c)
  }

  lemma ExactIsHome(emailOf: (string, string) -> string, s: Store, appId: string, email: string)
    requires LockInvariant(emailOf, s) && ExactEmail(emailOf, appId, email)
    ensures SpelledAtHome(emailOf, s, appId, email)
  {
    forall c | ChallengeMember(s, appId, email) == Some(c)
      ensures email == emailOf(appId, c)
    {
      var k := DeviceBind(appId, Normalize(email));
      assert LiveDoc(s, k) && s.docs[k].value == BindChallenge(c);
    }
  }

  lemma ChallengedNotLocked(emailOf: (string, string) -> string, s: Store, appId: string, email: string,
                            memberId: string)
    requires DistinctEmails(emailOf) && LockInvariant(emailOf, s)
    requires ChallengeMember(s, appId, email).Some? && SpelledAtHome(emailOf, s, appId, email)
    ensures emailOf(appId, memberId) == email ==> !BindLocked(s, appId, memberId)
  {
    var k, c := DeviceBind(appId, Normalize(email)), ChallengeMember(s, appId, email).value;
    assert LiveDoc(s, k) && s.docs[k].value == BindChallenge(c);
    assert ChallengeMember(s, appId, email) == Some(c);
  }

  lemma SendKeepsCodeless(emailOf: (string, string) -> string, sys: Sys, appId: string, email: string, typ: string,
                          draws: seq<Draw>)
    requires DistinctEmails(emailOf) && SpelledAtHome(emailOf, sys.store, appId, email)
    requires LockInvariant(emailOf, sys.store) && LockedCodeless(emailOf, sys)
    ensures LockedCodeless(emailOf, Send(sys, appId, email, typ, draws))
  {
    var sys' := Send(sys, appId, email, typ, draws);
    SendTime(sys, appId, email, typ, draws);
    forall a, m | BindLocked(sys'.store, a, m)
      ensures NoLiveCode(sys', a, emailOf(a, m))
    {
      assert BindLocked(sys.store, a, m);
      if SendAllowed(sys.store, appId, email, typ) {
        ChallengedNotLocked(emailOf, sys.store, appId, email, m);
        RenewElsewhere(sys.codes, appId, email, typ, draws, sys.store.now, a, emailOf(a, m), BIND_DEVICE_LIMIT);
      }
    }
  }

  lemma LoginKeepsCodeless(emailOf: (string, string) -> string, sys: Sys, appId: string, memberId: string,
                           draws: seq<Draw>)
    requires DistinctEmails(emailOf)
    requires LockInvariant(emailOf, sys.store) && LockedCodeless(emailOf, sys)
    ensures LockedCodeless(emailOf, Login(sys, appId, memberId, emailOf(appId, memberId), draws))
  {
    var email := emailOf(appId, memberId);
    if email != "" && !BindLocked(sys.store, appId, memberId) {
      var store := SetEx(sys.store, DeviceBind(appId, Normalize(email)), BindChallenge(memberId), DEVICE_BIND_TTL);
      assert forall m, a :: BindLocked(store, a, m) <==> BindLocked(sys.store, a, m);
      assert LockInvariant(emailOf, store);
      forall a, m | BindLocked(store, a, m)
        ensures NoLiveCode(sys.(store := store), a, emailOf(a, m))
      {
        assert NoLiveCode(sys, a, emailOf(a, m));
      }
      assert SpelledAtHome(emailOf, store, appId, email);
      SendKeepsCodeless(emailOf, sys.(store := store), appId, email, BIND_DEVICE_LIMIT, draws);
    }
  }

  lemma VerifyKeepsCodeless(emailOf: (string, string) -> string, sys: Sys, q: Query)
    requires ExactEmail(emailOf, q.appId, q.email)
    requires LockInvariant(emailOf, sys.store) && LockedCodeless(emailOf, sys)
    ensures LockedCodeless(emailOf, Verify(sys, q).0)
  {
    var sys' := Verify(sys, q).0;
    if Challenged(sys.store, q) {
      OthersFail(sys.store, sys'.store, q);
      VerifyCodes(sys, q);
      var home := DeviceBind(q.appId, Normalize(q.email));
      assert home in sys.store.docs && sys.store.docs[home].value == BindChallenge(q.memberId);
      assert q.email == emailOf(q.appId, q.memberId);
      forall a, m | BindLocked(sys'.store, a, m)
        ensures NoLiveCode(sys', a, emailOf(a, m))
      {
        if (a, emailOf(a, m)) == (q.appId, q.email) && sys'.codes != sys.codes {
          ExpireLiveClears(sys.codes, q.appId, q.email, q.typ, sys.store.now);
        } else if (a, m) == (q.appId, q.memberId) {
          LockDropsCodesIff(sys, q, q.email);
        } else if sys'.codes != sys.codes {
          ExpireRowsElsewhere(sys.codes, Ids(UnexpiredRows(sys.codes, q.appId, q.email, q.typ, sys.store.now)),
                              q.appId, q.email, q.typ, sys.store.now, a, emailOf(a, m), BIND_DEVICE_LIMIT);
        }
      }
    }
  }

  lemma DoKeepsCodeless(emailOf: (string, string) -> string, sys: Sys, op: Op)
    requires DistinctEmails(emailOf) && ExactEmails(emailOf, op)
    requires LockInvariant(emailOf, sys.store) && LockedCodeless(emailOf, sys)
    ensures LockedCodeless(emailOf, Do(emailOf, sys, op))
  {
    match op
    case LoginAtLimit(appId, memberId, draws) => LoginKeepsCodeless(emailOf, sys, appId, memberId, draws);
    case SendCode(appId, email, typ, draws) =>
      ExactIsHome(emailOf, sys.store, appId, email);
      SendKeepsCodeless(emailOf, sys, appId, email, typ, draws);
    case VerifyCode(q) => VerifyKeepsCodeless(emailOf, sys, q);
    case TimePasses(d) =>
      forall a, m | BindLocked(Tick(sys.store, d), a, m)
        ensures NoLiveCode(sys.(store := Tick(sys.store, d)), a, emailOf(a, m))
      {
        assert BindLocked(sys.store, a, m);
        UnexpiredLater(sys.codes, a, emailOf(a, m), BIND_DEVICE_LIMIT, sys.store.now, sys.store.now + d);
      }
    case DevicesChange(devices) =>
      forall a, m | BindLocked(sys.store, a, m)
        ensures NoLiveCode(sys.(devices := devices), a, emailOf(a, m))
      {
        assert NoLiveCode(sys, a, emailOf(a, m));
      }
  }

  /** When every request spells emails exactly, a locked member has no live code either. */
  lemma {:induction false} LockedHasNoCode(emailOf: (string, string) -> string, ops: seq<Op>)
    requires DistinctEmails(emailOf) && forall i | 0 <= i < |ops| :: ExactEmails(emailOf, ops[i])
    ensures LockedCodeless(emailOf, Play(emailOf, INIT, ops))
  {
    if ops == [] {
    } else {
      var init := ops[..|ops| - 1];
      LockedHasNoCode(emailOf, init);
      LockInvariantHolds(emailOf, init);
      DoKeepsCodeless(emailOf, Play(emailOf, INIT, init), ops[|ops| - 1]);
    }
  }

  // ----- from login to verification -----

  /** The gate moves only its own two keys. */
  lemma GateFrame(s: Store, appId: string, memberId: string, k: Key, f: Key)
    requires k.DeviceBind? && f.DeviceBindFail?
    ensures var s' := BindSendGate(s, appId, memberId);
            && s'.now == s.now
            && (k in s'.docs <==> k in s.docs) && (k in s.docs ==> s'.docs[k] == s.docs[k])
            && (f in s'.counters <==> f in s.counters) && (f in s.counters ==> s'.counters[f] == s.counters[f])
  {
  }

  ghost predicate Sent(sys: Sys, sys': Sys, appId: string, memberId: string, email: string, draws: seq<Draw>) {
    var k, f := DeviceBind(appId, Normalize(email)), DeviceBindFail(appId, memberId);
    && sys'.codes == Renew(sys.codes, appId, email, BIND_DEVICE_LIMIT, draws, sys.store.now)
    && sys'.devices == sys.devices && sys'.store.now == sys.store.now
    && k in sys'.store.docs && sys'.store.docs[k]
      == Entry(BindChallenge(memberId), Some(sys.store.now + DEVICE_BIND_TTL))
    && (f in sys'.store.counters <==> f in sys.store.counters)
    && (f in sys.store.counters ==> sys'.store.counters[f] == sys.store.counters[f])
  }

  /** A login that may send leaves the challenge, the renewed codes, and the fail counter as it was. */
  lemma LoginSends(sys: Sys, appId: string, memberId: string, email: string, draws: seq<Draw>)
    requires appId != "" && memberId != "" && email != ""
    requires !BindLocked(sys.store, appId, memberId) && BindSendOpen(sys.store, appId, memberId)
    ensures Sent(sys, Login(sys, appId, memberId, email, draws), appId, memberId, email, draws)
  {
    var k := DeviceBind(appId, Normalize(email));
    var store := SetEx(sys.store, k, BindChallenge(memberId), DEVICE_BIND_TTL);
    assert ChallengeMember(store, appId, email) == Some(memberId);
    assert BindSendOpen(store, appId, memberId);
    GateFrame(store, appId, memberId, k, DeviceBindFail(appId, memberId));
    SendTime(sys.(store := store), appId, email, BIND_DEVICE_LIMIT, draws);
  }

  lemma LaterChallenged(sys: Sys, sent: Sys, appId: string, memberId: string, email: string, draws: seq<Draw>, d: nat,
                        code: string)
    requires appId != "" && memberId != "" && email != ""
    requires !BindLocked(sys.store, appId, memberId) && Sent(sys, sent, appId, memberId, email, draws)
    ensures Challenged(Tick(sent.store, d), Query(appId, email, memberId, BIND_DEVICE_LIMIT, code))
            <==> d < DEVICE_BIND_TTL
  {
  }

  lemma FindInOne(row: CodeRow)
    ensures FindCode([row], row.code) == Some(row) && FindCode([], row.code) == None
  {
  }

  lemma GoodWhileLive(rows: seq<CodeRow>, row: CodeRow, now: nat, later: nat)
    requires UnexpiredRows(rows, row.appId, row.email, row.typ, now) == [row] && row.expiredAt == now + CODE_LIFETIME
             && now <= later
    ensures CodeGood(rows, row.appId, row.email, row.typ, row.code, later) <==> now < later < now + CODE_LIFETIME
  {
    OneRowLater(rows, row.appId, row.email, row.typ, now, later - now);
    FindInOne(row);
  }

  lemma LaterGood(rows: seq<CodeRow>, rows': seq<CodeRow>, appId: string, email: string, draws: seq<Draw>, now: nat,
                  later: nat, n: Draw)
    requires FirstFree(draws, UnexpiredRows(rows, appId, email, BIND_DEVICE_LIMIT, now)) == Some(n)
    requires rows' == Renew(rows, appId, email, BIND_DEVICE_LIMIT, draws, now) && now <= later
    ensures CodeGood(rows', appId, email, BIND_DEVICE_LIMIT, FourDigits(n), later)
            <==> now < later < now + CODE_LIFETIME
  {
    RenewLeavesOne(rows, appId, email, BIND_DEVICE_LIMIT, draws, now);
    GoodWhileLive(rows', CodeRow(|rows|, appId, email, BIND_DEVICE_LIMIT, FourDigits(n), now + CODE_LIFETIME), now,
                  later);
  }

  lemma SentVerifies(sys: Sys, sent: Sys, appId: string, memberId: string, email: string, draws: seq<Draw>, d: nat,
                     code: string)
    requires appId != "" && memberId != "" && email != ""
    requires !BindLocked(sys.store, appId, memberId) && Sent(sys, sent, appId, memberId, email, draws)
    requires exists device :: device in sys.devices && device.memberId == memberId
    ensures Verifies(Later(sent, d), Query(appId, email, memberId, BIND_DEVICE_LIMIT, code))
            <==> CodeGood(sent.codes, appId, email, BIND_DEVICE_LIMIT, code, sys.store.now + d) && d < DEVICE_BIND_TTL
  {
    LaterChallenged(sys, sent, appId, memberId, email, draws, d, code);
  }

  lemma SentCodeGood(sys: Sys, sent: Sys, appId: string, memberId: string, email: string, draws: seq<Draw>, n: Draw,
                     d: nat)
    requires appId != "" && memberId != "" && email != ""
    requires !BindLocked(sys.store, appId, memberId) && Sent(sys, sent, appId, memberId, email, draws)
    requires FirstFree(draws, UnexpiredRows(sys.codes, appId, email, BIND_DEVICE_LIMIT, sys.store.now)) == Some(n)
    requires exists device :: device in sys.devices && device.memberId == memberId
    ensures Verifies(Later(sent, d), Query(appId, email, memberId, BIND_DEVICE_LIMIT, FourDigits(n)))
            <==> 0 < d < CODE_LIFETIME
  {
    LaterGood(sys.codes, sent.codes, appId, email, draws, sys.store.now, sys.store.now + d, n);
    SentVerifies(sys, sent, appId, memberId, email, draws, d, FourDigits(n));
  }

  /**
   The code a login sends verifies for its member exactly while its half hour runs, and not in the very millisecond
   in which it was made: the check asks for less than the full lifetime to be left.
   */
  lemma SentCodeVerifies(sys: Sys, appId: string, memberId: string, email: string, draws: seq<Draw>, n: Draw, d: nat)
    requires appId != "" && memberId != "" && email != ""
    requires !BindLocked(sys.store, appId, memberId) && BindSendOpen(sys.store, appId, memberId)
    requires FirstFree(draws, UnexpiredRows(sys.codes, appId, email, BIND_DEVICE_LIMIT, sys.store.now)) == Some(n)
    requires exists device :: device in sys.devices && device.memberId == memberId
    ensures var sent := Login(sys, appId, memberId, email, draws);
            Verify(Later(sent, d), Query(appId, email, memberId, BIND_DEVICE_LIMIT, FourDigits(n))).1
            <==> 0 < d < 1800000
  {
    LoginSends(sys, appId, memberId, email, draws);
    var sent := Login(sys, appId, memberId, email, draws);
    SentCodeGood(sys, sent, appId, memberId, email, draws, n, d);
    VerifyTrueIff(Later(sent, d), Query(appId, email, memberId, BIND_DEVICE_LIMIT, FourDigits(n)));
  }

  /** A single live row stays the only one until it expires. */
  lemma {:induction false} OneRowLater(rows: seq<CodeRow>, appId: string, email: string, typ: string, now: nat, d: nat)
    requires |UnexpiredRows(rows, appId, email, typ, now)| <= 1
    ensures var live := UnexpiredRows(rows, appId, email, typ, now);
            UnexpiredRows(rows, appId, email, typ, now + d)
            == if live != [] && now + d < live[0].expiredAt then live else []
  {
    if rows == [] {
    } else {
      OneRowLater(rows[..|rows| - 1], appId, email, typ, now, d);
    }
  }
}
