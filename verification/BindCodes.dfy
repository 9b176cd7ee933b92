/**
 Device-bind codes: a login that meets the device limit writes a challenge and sends a code; a correct code removes
 the member's oldest device. The service's methods, and one function per method that says what it does when nothing
 else runs in between and no database or Redis call fails.
 */
module BindCodes {
  import opened Prelude
  import opened AuthKeys
  import opened RedisStore
  import opened AuthLimits
  import opened BindTables

  const BIND_DEVICE_LIMIT := "bind-device-limit"

  datatype Sys = Sys(store: Store, codes: seq<CodeRow>, devices: seq<Device>)

  /** The member named by the live challenge of this email. */
  function ChallengeMember(s: Store, appId: string, email: string): Option<string> {
    if appId == "" || email == "" then None
    else
      match GetDoc(s, DeviceBind(appId, Normalize(email)))
      case Some(BindChallenge(memberId)) => if memberId == "" then None else Some(memberId)
      case _ => None
  }

  predicate BindLocked(s: Store, appId: string, memberId: string) {
    ReadCounter(s, DeviceBindFail(appId, memberId)) >= DEVICE_BIND_FAIL_CAP
  }

  function ClearChallenge(s: Store, appId: string, email: string): Store {
    DelDoc(s, DeviceBind(appId, Normalize(email)))
  }

  // ----- sending -----

  /**
   Expire what is live, then insert the first draw that was not among it. Nothing is inserted while every draw is taken.
   */
  function Renew(rows: seq<CodeRow>, appId: string, email: string, typ: string, draws: seq<Draw>,
                 now: nat): seq<CodeRow> {
    var live := UnexpiredRows(rows, appId, email, typ, now);
    var rows1 := ExpireLive(rows, appId, email, typ, now);
    match FirstFree(draws, live)
    case Some(n) => InsertRow(rows1, appId, email, typ, FourDigits(n), now + CODE_LIFETIME)
    case None => rows1
  }

  predicate SendAllowed(s: Store, appId: string, email: string, typ: string) {
    && typ == BIND_DEVICE_LIMIT
    && ChallengeMember(s, appId, email).Some?
    && BindSendOpen(s, appId, ChallengeMember(s, appId, email).value)
  }

  function Send(sys: Sys, appId: string, email: string, typ: string, draws: seq<Draw>): Sys {
    if typ != BIND_DEVICE_LIMIT then sys
    else
      match ChallengeMember(sys.store, appId, email)
      case None => sys
      case Some(memberId) =>
        var store := BindSendGate(sys.store, appId, memberId);
        if BindSendOpen(sys.store, appId, memberId)
        then Sys(store, Renew(sys.codes, appId, email, typ, draws, store.now), sys.devices)
        else sys.(store := store)
  }

  /** The login step for a member whose device limit is reached. */
  function Login(sys: Sys, appId: string, memberId: string, email: string, draws: seq<Draw>): Sys {
    if email == "" || BindLocked(sys.store, appId, memberId) then sys
    else
      var store := SetEx(sys.store, DeviceBind(appId, Normalize(email)), BindChallenge(memberId), DEVICE_BIND_TTL);
      Send(sys.(store := store), appId, email, BIND_DEVICE_LIMIT, draws)
  }

  // ----- verifying -----

  datatype Query = Query(appId: string, email: string, memberId: string, typ: string, code: string)

  /** The check of the code itself: on success the oldest device goes and the live codes expire. */
  function Redeem(sys: Sys, q: Query): (Sys, bool) {
    var mine := MemberDevices(sys.devices, q.memberId);
    if CodeGood(sys.codes, q.appId, q.email, q.typ, q.code, sys.store.now) && mine != [] then
      (Sys(sys.store, ExpireLive(sys.codes, q.appId, q.email, q.typ, sys.store.now),
           RemoveDevice(sys.devices, Earliest(mine).id)), true)
    else (sys, false)
  }

  /** The request gets to count an attempt. */
  predicate Challenged(s: Store, q: Query) {
    && q.typ == BIND_DEVICE_LIMIT && q.memberId != ""
    && !BindLocked(s, q.appId, q.memberId)
    && ChallengeMember(s, q.appId, q.email) == Some(q.memberId)
  }

  function FailKey(q: Query): Key {
    DeviceBindFail(q.appId, q.memberId)
  }

  function Counted(sys: Sys, q: Query): Sys {
    sys.(store := Incr(sys.store, FailKey(q), DEVICE_BIND_FAIL_TTL))
  }

  function Verify(sys: Sys, q: Query): (Sys, bool) {
    if !Challenged(sys.store, q) then (sys, false)
    else
      var attempts := IncrReply(sys.store, FailKey(q));
      var (sys1, verified) := Redeem(Counted(sys, q), q);
      if verified then
        (sys1.(store := ClearChallenge(Decr(sys1.store, FailKey(q)), q.appId, q.email)), true)
      else if attempts >= DEVICE_BIND_FAIL_CAP then
        (Sys(ClearChallenge(sys1.store, q.appId, q.email),
             ExpireLive(sys1.codes, q.appId, q.email, q.typ, sys1.store.now), sys1.devices), false)
      else (sys1, false)
  }

  // ----- the service -----

  class MailVerificationCodeService {
    const redis: Redis
    var codes: seq<CodeRow>
    var devices: seq<Device>

    constructor (redis: Redis)
      ensures this.redis == redis && codes == [] && devices == []
    {
      this.redis := redis;
      codes, devices := [], [];
    }

    ghost function State(): Sys
      reads this, redis
    {
      Sys(redis.store, codes, devices)
    }

    method UpdateMailVerificationCodesToNow(ids: seq<nat>, appId: string, email: string, typ: string)
      modifies this`codes
      ensures codes == ExpireRows(old(codes), ids, appId, email, typ, redis.store.now)
    {
      codes := ExpireRows(codes, ids, appId, email, typ, redis.store.now);
    }

    method ExpireOldVerificationCodesByEmail(appId: string, email: string, typ: string)
      modifies this`codes
      ensures codes == ExpireLive(old(codes), appId, email, typ, redis.store.now)
      ensures UnexpiredRows(codes, appId, email, typ, redis.store.now) == []
    {
      ExpireLiveClears(codes, appId, email, typ, redis.store.now);
      var ids := Ids(UnexpiredRows(codes, appId, email, typ, redis.store.now));
      UpdateMailVerificationCodesToNow(ids, appId, email, typ);
    }

    /** `draws` is what the generator returns, call by call; `sent` is false when it never returns a free code. */
    method ExpireOldAndSendVerificationCode(appId: string, email: string, typ: string, draws: seq<Draw>)
      returns (sent: bool)
      modifies this`codes
      ensures codes == Renew(old(codes), appId, email, typ, draws, redis.store.now)
      ensures sent <==> FirstFree(draws, UnexpiredRows(old(codes), appId, email, typ, redis.store.now)).Some?
    {
      var now := redis.store.now;
      var live := UnexpiredRows(codes, appId, email, typ, now);
      UpdateMailVerificationCodesToNow(Ids(live), appId, email, typ);
      var i := 0;
      while i < |draws| && Taken(live, FourDigits(draws[i]))
        invariant 0 <= i <= |draws|
        invariant FirstFree(draws, live) == FirstFree(draws[i..], live)
      {
        assert draws[i..][1..] == draws[i + 1..];
        i := i + 1;
      }
      sent := i < |draws|;
      if sent {
        codes := InsertRow(codes, appId, email, typ, FourDigits(draws[i]), now + CODE_LIFETIME);
      }
    }

    method SendDeviceBindCode(appId: string, email: string, typ: string, draws: seq<Draw>) returns (allowed: bool)
      modifies this`codes, redis
      ensures State() == Send(old(State()), appId, email, typ, draws)
      ensures allowed <==> SendAllowed(old(redis.store), appId, email, typ)
    {
      if typ != BIND_DEVICE_LIMIT {
        return false;
      }
      var memberId := ChallengeMember(redis.store, appId, email);
      if memberId.None? {
        return false;
      }
      var open := AllowDeviceBindSend(redis, appId, memberId.value);
      if !open {
        return false;
      }
      var sent := ExpireOldAndSendVerificationCode(appId, email, typ, draws);
      return true;
    }

    /**
     `reduce` over the member's devices, delete the result, expire the live codes. No device at all counts as a wrong
     code.
     */
    method VerifyMailVerificationCode(q: Query) returns (verified: bool)
      modifies this`codes, this`devices
      ensures (State(), verified) == Redeem(old(State()), q)
    {
      var now := redis.store.now;
      if !CodeGood(codes, q.appId, q.email, q.typ, q.code, now) {
        return false;
      }
      var memberDevices := MemberDevices(devices, q.memberId);
      if memberDevices == [] {
        return false;
      }
      devices := RemoveDevice(devices, Earliest(memberDevices).id);
      var live := UnexpiredRows(codes, q.appId, q.email, q.typ, now);
      UpdateMailVerificationCodesToNow(Ids(live), q.appId, q.email, q.typ);
      return true;
    }

    method VerifyDeviceBindCode(q: Query) returns (verified: bool)
      modifies this`codes, this`devices, redis
      ensures (State(), verified) == Verify(old(State()), q)
    {
      if q.typ != BIND_DEVICE_LIMIT || q.memberId == "" || BindLocked(redis.store, q.appId, q.memberId) {
        return false;
      }
      var challengeMember := ChallengeMember(redis.store, q.appId, q.email);
      if challengeMember != Some(q.memberId) {
        return false;
      }
      ghost var before := redis.store;
      var limits := [Limit(FailKey(q), DEVICE_BIND_FAIL_TTL)];
      IncrAllEach(before, limits, 0);
      assert limits[..0] == [];
      var values := redis.IncrementWithTtl(limits);
      assert redis.store == Incr(before, FailKey(q), DEVICE_BIND_FAIL_TTL);
      var attempts := values[0];
      if attempts > DEVICE_BIND_FAIL_CAP {
        return false;
      }
      verified := VerifyMailVerificationCode(q);
      if verified {
        var left := redis.DecrementIfExists(FailKey(q));
        redis.DelOne(DeviceBind(q.appId, Normalize(q.email)));
        return true;
      }
      if attempts >= DEVICE_BIND_FAIL_CAP {
        redis.DelOne(DeviceBind(q.appId, Normalize(q.email)));
        ExpireOldVerificationCodesByEmail(q.appId, q.email, q.typ);
      }
      return false;
    }
  }
}
