/** The limits on logins, token mails and device-bind mails, and what they guarantee over all runs. */
module AuthLimits {
  import opened Prelude
  import opened AuthKeys
  import opened RedisStore
  import opened FixedWindow

  const DEVICE_BIND_TTL: pos := 1800 * SECOND
  const DEVICE_BIND_FAIL_TTL: pos := 3600 * SECOND
  const DEVICE_BIND_FAIL_CAP: pos := 10
  const DEVICE_BIND_SEND_COOLDOWN_TTL: pos := 60 * SECOND
  const DEVICE_BIND_SEND_COUNT_TTL: pos := 3600 * SECOND
  const DEVICE_BIND_SEND_COUNT_CAP: pos := 5
  const LOGIN_FAIL_TTL: pos := 900 * SECOND
  const LOGIN_FAIL_ACCOUNT_IP_CAP: pos := 10
  const LOGIN_FAIL_ACCOUNT_CAP: pos := 50
  const LOGIN_FAIL_IP_CAP: pos := 200
  const ISSUE_COOLDOWN_TTL: pos := 60 * SECOND
  const ISSUE_COUNT_TTL: pos := 3600 * SECOND
  const ISSUE_COUNT_CAP: pos := 5
  const RESET_TOKEN_TTL: pos := 3600 * SECOND

  // ----- gates: cooldown first, then the counter -----

  /** The store after one try at a gate; the try passes when `GateOpen` held before. */
  function Gate(s: Store, cooldown: Key, cooldownTtl: pos, count: Key, countTtl: pos): Store {
    if LiveDoc(s, cooldown) then s else Incr(SetNx(s, cooldown, cooldownTtl), count, countTtl)
  }

  predicate GateOpen(s: Store, cooldown: Key, count: Key, cap: pos) {
    !LiveDoc(s, cooldown) && ReadCounter(s, count) < cap
  }

  function BindSendGate(s: Store, appId: string, memberId: string): Store {
    Gate(s, DeviceBindSendCooldown(appId, memberId), DEVICE_BIND_SEND_COOLDOWN_TTL,
         DeviceBindSendCount(appId, memberId), DEVICE_BIND_SEND_COUNT_TTL)
  }

  predicate BindSendOpen(s: Store, appId: string, memberId: string) {
    GateOpen(s, DeviceBindSendCooldown(appId, memberId), DeviceBindSendCount(appId, memberId),
             DEVICE_BIND_SEND_COUNT_CAP)
  }

  method TryGate(redis: Redis, cooldown: Key, cooldownTtl: pos, count: Key, countTtl: pos, cap: pos)
    returns (passed: bool)
    modifies redis
    ensures redis.store == Gate(old(redis.store), cooldown, cooldownTtl, count, countTtl)
    ensures passed <==> GateOpen(old(redis.store), cooldown, count, cap)
  {
    var cooled := redis.AcquireCooldown(cooldown, cooldownTtl);
    if !cooled {
      return false;
    }
    ghost var between := redis.store;
    var values := redis.IncrementWithTtl([Limit(count, countTtl)]);
    IncrAllEach(between, [Limit(count, countTtl)], 0);
    assert IncrAll(between, [Limit(count, countTtl)]) == Incr(between, count, countTtl) by {
      assert [Limit(count, countTtl)][..0] == [];
    }
    passed := values[0] <= cap;
  }

  method AllowDeviceBindSend(redis: Redis, appId: string, memberId: string) returns (passed: bool)
    modifies redis
    ensures redis.store == BindSendGate(old(redis.store), appId, memberId)
    ensures passed <==> BindSendOpen(old(redis.store), appId, memberId)
  {
    passed := TryGate(redis, DeviceBindSendCooldown(appId, memberId), DEVICE_BIND_SEND_COOLDOWN_TTL,
                      DeviceBindSendCount(appId, memberId), DEVICE_BIND_SEND_COUNT_TTL, DEVICE_BIND_SEND_COUNT_CAP);
  }

  method AllowTokenIssue(redis: Redis, kind: IssueKind, memberId: string) returns (passed: bool)
    modifies redis
    ensures redis.store == Gate(old(redis.store), IssueCooldown(kind, memberId), ISSUE_COOLDOWN_TTL,
                                IssueCount(kind, memberId), ISSUE_COUNT_TTL)
    ensures passed <==> GateOpen(old(redis.store), IssueCooldown(kind, memberId), IssueCount(kind, memberId),
                                 ISSUE_COUNT_CAP)
  {
    passed := TryGate(redis, IssueCooldown(kind, memberId), ISSUE_COOLDOWN_TTL,
                      IssueCount(kind, memberId), ISSUE_COUNT_TTL, ISSUE_COUNT_CAP);
  }

  /** Only SET NX with this time to live ever writes the key, and nothing deletes it. */
  ghost predicate OnlyCooldown(cs: seq<Command>, k: Key, ttl: pos) {
    forall i | 0 <= i < |cs| ::
      (cs[i].Write? || cs[i].WriteNew? || cs[i].DeleteDoc?) && cs[i].key == k ==> cs[i] == WriteNew(k, ttl)
  }

  /** The `i`-th command of the run creates the cooldown key. */
  ghost predicate Acquires(cs: seq<Command>, i: nat, k: Key, ttl: pos)
    requires i < |cs|
  {
    cs[i] == WriteNew(k, ttl) && !LiveDoc(Run(EMPTY, cs[..i]), k)
  }

  ghost predicate CoolingUntil(t: Store, k: Key, end: nat) {
    t.now < end ==> LiveDoc(t, k) && t.docs[k].expiry == Some(end)
  }

  lemma CommandKeepsCooling(t: Store, c: Command, k: Key, ttl: pos, end: nat)
    requires CoolingUntil(t, k, end)
    requires (c.Write? || c.WriteNew? || c.DeleteDoc?) && c.key == k ==> c == WriteNew(k, ttl) && t.now < end
    ensures CoolingUntil(Apply(t, c), k, end) && t.now <= Apply(t, c).now
  {
    if !c.Write? && !c.WriteNew? && !c.DeleteDoc? {
      assert Apply(t, c).docs == t.docs;
    }
  }

  lemma StateAfter(cs: seq<Command>, j: nat)
    requires j < |cs|
    ensures Run(EMPTY, cs[..j + 1]) == Apply(Run(EMPTY, cs[..j]), cs[j])
  {
    assert cs[..j + 1][..j] == cs[..j];
  }

  lemma StepKeepsCooling(t: Store, c: Command, k: Key, ttl: pos, end: nat)
    requires CoolingUntil(t, k, end)
    requires (c.Write? || c.WriteNew? || c.DeleteDoc?) && c.key == k ==> c == WriteNew(k, ttl)
    ensures CoolingUntil(Apply(t, c), k, end) && t.now <= Apply(t, c).now
  {
    if t.now < end {
      CommandKeepsCooling(t, c, k, ttl, end);
    }
  }

  lemma AcquiringCools(t: Store, k: Key, ttl: pos)
    requires !LiveDoc(t, k)
    ensures CoolingUntil(Apply(t, WriteNew(k, ttl)), k, t.now + ttl) && Apply(t, WriteNew(k, ttl)).now == t.now
  {
  }

  lemma {:induction false} CooldownHolds(cs: seq<Command>, i: nat, j: nat, k: Key, ttl: pos)
    requires OnlyCooldown(cs, k, ttl) && i <= j < |cs| && Acquires(cs, i, k, ttl)
    ensures Run(EMPTY, cs[..i]).now <= Run(EMPTY, cs[..j + 1]).now
    ensures CoolingUntil(Run(EMPTY, cs[..j + 1]), k, Run(EMPTY, cs[..i]).now + ttl)
  {
    var t := Run(EMPTY, cs[..j]);
    StateAfter(cs, j);
    if i < j {
      CooldownHolds(cs, i, j - 1, k, ttl);
      StepKeepsCooling(t, cs[j], k, ttl, Run(EMPTY, cs[..i]).now + ttl);
    } else {
      AcquiringCools(t, k, ttl);
    }
  }

  /** A cooldown is acquired at most once per time to live, whoever tries: "at most once per minute". */
  lemma CooldownSpacing(cs: seq<Command>, i: nat, j: nat, k: Key, ttl: pos)
    requires OnlyCooldown(cs, k, ttl) && i < j < |cs| && Acquires(cs, i, k, ttl) && Acquires(cs, j, k, ttl)
    ensures Run(EMPTY, cs[..j]).now >= Run(EMPTY, cs[..i]).now + ttl
  {
    CooldownHolds(cs, i, j - 1, k, ttl);
  }

  // ----- the commands of the service -----

  /** The time to live the service always uses for a counter. */
  function CounterTtl(k: Key): pos {
    match k
    case LoginFailAccountIp(_, _, _, _) => LOGIN_FAIL_TTL
    case LoginFailAccount(_, _, _) => LOGIN_FAIL_TTL
    case LoginFailIp(_) => LOGIN_FAIL_TTL
    case IssueCount(_, _) => ISSUE_COUNT_TTL
    case DeviceBindSendCount(_, _) => DEVICE_BIND_SEND_COUNT_TTL
    case _ => DEVICE_BIND_FAIL_TTL
  }

  /** What the service ever does to counters; documents and sets are free. */
  predicate Issued(c: Command) {
    match c
    case Increment(k, ttl) => ttl == CounterTtl(k)
    case Decrement(k) => k.DeviceBindFail?
    case DeleteCounter(k) => k.LoginFailAccountIp? || k.LoginFailAccount?
    case _ => true
  }

  ghost predicate AllIssued(cs: seq<Command>) {
    forall i | 0 <= i < |cs| :: Issued(cs[i])
  }

  /** A counter that is neither decremented nor cleared is only ever counted up. */
  lemma IssuedOnlyCounts(cs: seq<Command>, k: Key)
    requires AllIssued(cs) && (k.LoginFailIp? || k.IssueCount? || k.DeviceBindSendCount?)
    ensures OnlyCounts(cs, k, CounterTtl(k))
  {
  }

  lemma IssuedCountsOrClears(cs: seq<Command>, k: Key)
    requires AllIssued(cs) && !k.DeviceBindFail?
    ensures CountsOrClears(cs, k)
  {
  }

  /**
   What the counters alone guarantee, wherever other requests come in between cooldown and counter: at most
   5 * (ceiling(L / 1 h) + 1) - 1 token mails and as many bind mails per member in any window of length L.
   */
  lemma CountWindows(cs: seq<Command>, kind: IssueKind, appId: string, memberId: string, from: nat, to: nat)
    requires AllIssued(cs) && from < to
    ensures Admitted(cs, IssueCount(kind, memberId), ISSUE_COUNT_CAP, from, to)
              <= 5 * (Cover(to - from, ISSUE_COUNT_TTL) + 1) - 1
    ensures Admitted(cs, DeviceBindSendCount(appId, memberId), DEVICE_BIND_SEND_COUNT_CAP, from, to)
         <= 5 * (Cover(to - from, DEVICE_BIND_SEND_COUNT_TTL) + 1) - 1
  {
    IssuedOnlyCounts(cs, IssueCount(kind, memberId));
    IssuedOnlyCounts(cs, DeviceBindSendCount(appId, memberId));
    WindowBound(cs, IssueCount(kind, memberId), ISSUE_COUNT_TTL, ISSUE_COUNT_CAP, from, to);
    WindowBound(cs, DeviceBindSendCount(appId, memberId), DEVICE_BIND_SEND_COUNT_TTL, DEVICE_BIND_SEND_COUNT_CAP, from,
                to);
  }

  // ----- login attempts -----

  function LoginLimits(scope: LoginScope, id: string, account: string, ip: string): seq<Limit> {
    [ Limit(LoginFailAccountIp(scope, id, Normalize(account), ip), LOGIN_FAIL_TTL),
      Limit(LoginFailAccount(scope, id, Normalize(account)), LOGIN_FAIL_TTL),
      Limit(LoginFailIp(ip), LOGIN_FAIL_TTL) ]
  }

  predicate LoginOpen(s: Store, scope: LoginScope, id: string, account: string, ip: string) {
    && ReadCounter(s, LoginFailAccountIp(scope, id, Normalize(account), ip)) < LOGIN_FAIL_ACCOUNT_IP_CAP
    && ReadCounter(s, LoginFailAccount(scope, id, Normalize(account))) < LOGIN_FAIL_ACCOUNT_CAP
    && ReadCounter(s, LoginFailIp(ip)) < LOGIN_FAIL_IP_CAP
  }

  /** Every attempt is counted on all three counters, whether or not it passes. */
  method RegisterLoginAttempt(redis: Redis, scope: LoginScope, id: string, account: string, ip: string)
    returns (passed: bool)
    modifies redis
    ensures redis.store == IncrAll(old(redis.store), LoginLimits(scope, id, account, ip))
    ensures passed <==> LoginOpen(old(redis.store), scope, id, account, ip)
  {
    var limits := LoginLimits(scope, id, account, ip);
    IncrAllEach(redis.store, limits, 0);
    IncrAllEach(redis.store, limits, 1);
    IncrAllEach(redis.store, limits, 2);
    var values := redis.IncrementWithTtl(limits);
    passed := values[0] <= LOGIN_FAIL_ACCOUNT_IP_CAP && values[1] <= LOGIN_FAIL_ACCOUNT_CAP
      && values[2] <= LOGIN_FAIL_IP_CAP;
  }

  function Cleared(s: Store, scope: LoginScope, id: string, account: string, ip: string): Store {
    DelCounter(DelCounter(s, LoginFailAccountIp(scope, id, Normalize(account), ip)),
               LoginFailAccount(scope, id, Normalize(account)))
  }

  /** After a success the two account counters read 0 and the ip counter is kept. */
  method ClearLoginAttempts(redis: Redis, scope: LoginScope, id: string, account: string, ip: string)
    modifies redis
    ensures redis.store == Cleared(old(redis.store), scope, id, account, ip)
    ensures ReadCounter(redis.store, LoginFailAccountIp(scope, id, Normalize(account), ip)) == 0
    ensures ReadCounter(redis.store, LoginFailAccount(scope, id, Normalize(account))) == 0
    ensures ReadCounter(redis.store, LoginFailIp(ip)) == ReadCounter(old(redis.store), LoginFailIp(ip))
  {
    redis.DelCounters(LoginFailAccountIp(scope, id, Normalize(account), ip),
                      LoginFailAccount(scope, id, Normalize(account)));
  }

  /** A run of logins, successes and anything else the service does to the store. */
  datatype LoginOp =
    | Attempt(scope: LoginScope, id: string, account: string, ip: string)
    | Success(scope: LoginScope, id: string, account: string, ip: string)
    | Elsewhere(command: Command)

  function Commands(op: LoginOp): seq<Command> {
    match op
    case Attempt(scope, id, account, ip) =>
      var limits := LoginLimits(scope, id, account, ip);
      [Increment(limits[0].key, limits[0].ttl), Increment(limits[1].key, limits[1].ttl),
       Increment(limits[2].key, limits[2].ttl)]
    case Success(scope, id, account, ip) =>
      [DeleteCounter(LoginFailAccountIp(scope, id, Normalize(account), ip)),
       DeleteCounter(LoginFailAccount(scope, id, Normalize(account)))]
    case Elsewhere(c) => [c]
  }

  function Flatten(ops: seq<LoginOp>): seq<Command> {
    if ops == [] then [] else Flatten(ops[..|ops| - 1]) + Commands(ops[|ops| - 1])
  }

  ghost predicate ServiceOps(ops: seq<LoginOp>) {
    forall i | 0 <= i < |ops| :: ops[i].Elsewhere? ==> Issued(ops[i].command)
  }

  lemma CommandsIssued(op: LoginOp)
    requires op.Elsewhere? ==> Issued(op.command)
    ensures AllIssued(Commands(op))
  {
  }

  lemma {:induction false} FlattenIssued(ops: seq<LoginOp>)
    requires ServiceOps(ops)
    ensures AllIssued(Flatten(ops))
  {
    if ops == [] {
    } else {
      FlattenIssued(ops[..|ops| - 1]);
      CommandsIssued(ops[|ops| - 1]);
    }
  }

  /** How many attempts from `ip` in the window get to the password check. */
  function LoginsLetThrough(ops: seq<LoginOp>, ip: string, from: nat, to: nat): nat {
    if ops == [] then 0
    else
      var init, op := ops[..|ops| - 1], ops[|ops| - 1];
      var s := Run(EMPTY, Flatten(init));
      LoginsLetThrough(init, ip, from, to) +
      if op.Attempt? && op.ip == ip && from <= s.now < to && LoginOpen(s, op.scope, op.id, op.account, ip) then 1 else 0
  }

  /** The attempt as commands is the attempt as one script. */
  lemma AttemptIsScript(cs: seq<Command>, scope: LoginScope, id: string, account: string, ip: string)
    ensures Run(EMPTY, cs + Commands(Attempt(scope, id, account, ip)))
         == IncrAll(Run(EMPTY, cs), LoginLimits(scope, id, account, ip))
  {
    var limits, c := LoginLimits(scope, id, account, ip), Commands(Attempt(scope, id, account, ip));
    SnocRun(cs, c[0], limits[0].key, 1, 0, 0);
    SnocRun(cs + [c[0]], c[1], limits[0].key, 1, 0, 0);
    SnocRun(cs + [c[0]] + [c[1]], c[2], limits[0].key, 1, 0, 0);
    assert cs + [c[0]] + [c[1]] + [c[2]] == cs + c;
    var s := Run(EMPTY, cs);
    assert limits[..2][..1] == limits[..1] && limits[..1][..0] == [];
    assert IncrAll(s, limits[..1]) == Incr(s, limits[0].key, limits[0].ttl);
    assert IncrAll(s, limits[..2]) == Incr(IncrAll(s, limits[..1]), limits[1].key, limits[1].ttl);
  }

  lemma AttemptAdmitted(cs: seq<Command>, op: LoginOp, from: nat, to: nat)
    requires op.Attempt?
    ensures Admitted(cs + Commands(op), LoginFailIp(op.ip), LOGIN_FAIL_IP_CAP, from, to)
         == Admitted(cs, LoginFailIp(op.ip), LOGIN_FAIL_IP_CAP, from, to)
            + (if from <= Run(EMPTY, cs).now < to && ReadCounter(Run(EMPTY, cs), LoginFailIp(op.ip)) < LOGIN_FAIL_IP_CAP
               then 1 else 0)
  {
    var c, k := Commands(op), LoginFailIp(op.ip);
    SnocRun(cs, c[0], k, LOGIN_FAIL_IP_CAP, from, to);
    SnocRun(cs + [c[0]], c[1], k, LOGIN_FAIL_IP_CAP, from, to);
    SnocRun(cs + [c[0]] + [c[1]], c[2], k, LOGIN_FAIL_IP_CAP, from, to);
    assert cs + [c[0]] + [c[1]] + [c[2]] == cs + c;
  }

  lemma {:induction false} AdmittedGrows(cs: seq<Command>, more: seq<Command>, k: Key, cap: pos, from: nat, to: nat)
    ensures Admitted(cs, k, cap, from, to) <= Admitted(cs + more, k, cap, from, to)
  {
    if more == [] {
      assert cs + more == cs;
    } else {
      var init := more[..|more| - 1];
      AdmittedGrows(cs, init, k, cap, from, to);
      assert (cs + more)[..|cs + more| - 1] == cs + init;
    }
  }

  lemma {:induction false} LetThroughAreAdmitted(ops: seq<LoginOp>, ip: string, from: nat, to: nat)
    ensures LoginsLetThrough(ops, ip, from, to) <= Admitted(Flatten(ops), LoginFailIp(ip), LOGIN_FAIL_IP_CAP, from, to)
  {
    if ops == [] {
    } else {
      var init, op := ops[..|ops| - 1], ops[|ops| - 1];
      LetThroughAreAdmitted(init, ip, from, to);
      if op.Attempt? && op.ip == ip {
        AttemptAdmitted(Flatten(init), op, from, to);
      } else {
        AdmittedGrows(Flatten(init), Commands(op), LoginFailIp(ip), LOGIN_FAIL_IP_CAP, from, to);
      }
    }
  }

  /**
   However many logins succeed and clear the other two counters, one ip gets at most
   200 * (ceiling(L / 15 min) + 1) - 1 attempts to the password check in any window of length L.
   */
  lemma LoginIpWindow(ops: seq<LoginOp>, ip: string, from: nat, to: nat)
    requires ServiceOps(ops) && from < to
    ensures LoginsLetThrough(ops, ip, from, to) <= 200 * (Cover(to - from, LOGIN_FAIL_TTL) + 1) - 1
  {
    FlattenIssued(ops);
    LetThroughAreAdmitted(ops, ip, from, to);
    IssuedOnlyCounts(Flatten(ops), LoginFailIp(ip));
    WindowBound(Flatten(ops), LoginFailIp(ip), LOGIN_FAIL_TTL, LOGIN_FAIL_IP_CAP, from, to);
  }

  /** Between clears and expiries an account gets 10 attempts from one ip, 50 in all, and an ip gets 200. */
  lemma LoginLives(ops: seq<LoginOp>, scope: LoginScope, id: string, account: string, ip: string, life: nat)
    requires ServiceOps(ops)
    ensures var accountIp := RepliesInLife(Flatten(ops), LoginFailAccountIp(scope, id, account, ip), life);
            CountsUp(accountIp) && AtMost(accountIp, LOGIN_FAIL_ACCOUNT_IP_CAP) <= 10
    ensures var accountOnly := RepliesInLife(Flatten(ops), LoginFailAccount(scope, id, account), life);
            CountsUp(accountOnly) && AtMost(accountOnly, LOGIN_FAIL_ACCOUNT_CAP) <= 50
    ensures var ipOnly := RepliesInLife(Flatten(ops), LoginFailIp(ip), life);
            CountsUp(ipOnly) && AtMost(ipOnly, LOGIN_FAIL_IP_CAP) <= 200
  {
    FlattenIssued(ops);
    IssuedCountsOrClears(Flatten(ops), LoginFailAccountIp(scope, id, account, ip));
    IssuedCountsOrClears(Flatten(ops), LoginFailAccount(scope, id, account));
    IssuedCountsOrClears(Flatten(ops), LoginFailIp(ip));
    OneLifeBound(Flatten(ops), LoginFailAccountIp(scope, id, account, ip), LOGIN_FAIL_ACCOUNT_IP_CAP, life);
    OneLifeBound(Flatten(ops), LoginFailAccount(scope, id, account), LOGIN_FAIL_ACCOUNT_CAP, life);
    OneLifeBound(Flatten(ops), LoginFailIp(ip), LOGIN_FAIL_IP_CAP, life);
  }
}
