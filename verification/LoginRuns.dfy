/** Which login attempts get to the password check, counted in the attempts of the run. */
module LoginRuns {
  import opened Prelude
  import opened AuthKeys
  import opened RedisStore
  import opened FixedWindow
  import opened AuthLimits

  // ----- counting attempts in a run -----

  /** How long an operation takes. */
  function Passing(op: LoginOp): nat {
    if op.Elsewhere? && op.command.Wait? then op.command.d else 0
  }

  /** The time at the end of a run. */
  function Clock(ops: seq<LoginOp>): nat {
    if ops == [] then 0 else Clock(ops[..|ops| - 1]) + Passing(ops[|ops| - 1])
  }

  /** `n` attempts in a life that ends at `until`. */
  datatype Tally = Tally(n: nat, until: nat)

  /** The first attempt after a life begins the next one, of a quarter of an hour; a clear ends it. */
  function NextTally(t: Tally, now: nat, counts: bool, clears: bool): Tally {
    if counts then if now < t.until then Tally(t.n + 1, t.until) else Tally(1, now + 900000)
    else if clears then Tally(0, 0)
    else t
  }

  function TallyOf(ops: seq<LoginOp>, counts: LoginOp -> bool, clears: LoginOp -> bool): Tally {
    if ops == [] then Tally(0, 0)
    else
      var init, op := ops[..|ops| - 1], ops[|ops| - 1];
      NextTally(TallyOf(init, counts, clears), Clock(init), counts(op), clears(op))
  }

  /** How many attempts count at the end of the run. */
  function Current(ops: seq<LoginOp>, counts: LoginOp -> bool, clears: LoginOp -> bool): nat {
    var t := TallyOf(ops, counts, clears);
    if Clock(ops) < t.until then t.n else 0
  }

  predicate ForAccount(op: LoginOp, scope: LoginScope, id: string, account: string) {
    !op.Elsewhere? && op.scope == scope && op.id == id && Normalize(op.account) == Normalize(account)
  }

  function TriedFrom(scope: LoginScope, id: string, account: string, ip: string): LoginOp -> bool {
    (op: LoginOp) => op.Attempt? && ForAccount(op, scope, id, account) && op.ip == ip
  }

  function ClearedFrom(scope: LoginScope, id: string, account: string, ip: string): LoginOp -> bool {
    (op: LoginOp) => op.Success? && ForAccount(op, scope, id, account) && op.ip == ip
  }

  function TriedOn(scope: LoginScope, id: string, account: string): LoginOp -> bool {
    (op: LoginOp) => op.Attempt? && ForAccount(op, scope, id, account)
  }

  function ClearedOn(scope: LoginScope, id: string, account: string): LoginOp -> bool {
    (op: LoginOp) => op.Success? && ForAccount(op, scope, id, account)
  }

  function TriedBy(ip: string): LoginOp -> bool {
    (op: LoginOp) => op.Attempt? && op.ip == ip
  }

  function Never(): LoginOp -> bool {
    (op: LoginOp) => false
  }

  /** Attempts on the account from one address since it was last cleared from there. */
  function FromAddress(ops: seq<LoginOp>, scope: LoginScope, id: string, account: string, ip: string): nat {
    Current(ops, TriedFrom(scope, id, account, ip), ClearedFrom(scope, id, account, ip))
  }

  /** Attempts on the account from anywhere since it was last cleared. */
  function OnAccount(ops: seq<LoginOp>, scope: LoginScope, id: string, account: string): nat {
    Current(ops, TriedOn(scope, id, account), ClearedOn(scope, id, account))
  }

  /** Attempts on any account from one address. */
  function OfAddress(ops: seq<LoginOp>, ip: string): nat {
    Current(ops, TriedBy(ip), Never())
  }

  predicate LoginKey(k: Key) {
    k.LoginFailAccountIp? || k.LoginFailAccount? || k.LoginFailIp?
  }

  /** Nothing else counts or clears login attempts. */
  ghost predicate LoginsOnly(ops: seq<LoginOp>) {
    forall i | 0 <= i < |ops| && ops[i].Elsewhere? ::
      var c := ops[i].command; (c.Increment? || c.Decrement? || c.DeleteCounter?) ==> !LoginKey(c.key)
  }

  // ----- the counters hold the tallies -----

  ghost predicate Holds(s: Store, k: Key, t: Tally) {
    if LiveCounter(s, k) then s.counters[k].value == t.n >= 1 && s.counters[k].expiry == Some(t.until)
    else s.now >= t.until
  }

  /** What an operation does to the store. */
  function AfterOp(s: Store, op: LoginOp): Store {
    match op
    case Attempt(scope, id, account, ip) =>
      Incr(Incr(Incr(s, LoginFailAccountIp(scope, id, Normalize(account), ip), 900000),
                LoginFailAccount(scope, id, Normalize(account)), 900000), LoginFailIp(ip), 900000)
    case Success(scope, id, account, ip) =>
      DelCounter(DelCounter(s, LoginFailAccountIp(scope, id, Normalize(account), ip)),
                 LoginFailAccount(scope, id, Normalize(account)))
    case Elsewhere(c) => Apply(s, c)
  }

  lemma RunOne(cs: seq<Command>, c: Command)
    ensures Run(EMPTY, cs + [c]) == Apply(Run(EMPTY, cs), c)
  {
    assert (cs + [c])[..|cs|] == cs;
  }

  lemma ThenRun(cs: seq<Command>, more: seq<Command>, c: Command, s: Store)
    requires Run(EMPTY, cs + more) == s
    ensures Run(EMPTY, cs + (more + [c])) == Apply(s, c)
  {
    assert cs + (more + [c]) == cs + more + [c];
    RunOne(cs + more, c);
  }

  lemma RunsAttempt(cs: seq<Command>, s: Store, a: Key, b: Key, c: Key)
    requires s == Run(EMPTY, cs)
    ensures Run(EMPTY, cs + [Increment(a, 900000), Increment(b, 900000), Increment(c, 900000)])
            == Incr(Incr(Incr(s, a, 900000), b, 900000), c, 900000)
  {
    var x, y, z := Increment(a, 900000), Increment(b, 900000), Increment(c, 900000);
    RunOne(cs, x);
    ThenRun(cs, [x], y, Incr(s, a, 900000));
    assert [x] + [y] == [x, y];
    ThenRun(cs, [x, y], z, Incr(Incr(s, a, 900000), b, 900000));
    assert [x, y] + [z] == [x, y, z];
  }

  lemma RunsSuccess(cs: seq<Command>, s: Store, a: Key, b: Key)
    requires s == Run(EMPTY, cs)
    ensures Run(EMPTY, cs + [DeleteCounter(a), DeleteCounter(b)]) == DelCounter(DelCounter(s, a), b)
  {
    RunOne(cs, DeleteCounter(a));
    ThenRun(cs, [DeleteCounter(a)], DeleteCounter(b), DelCounter(s, a));
    assert [DeleteCounter(a)] + [DeleteCounter(b)] == [DeleteCounter(a), DeleteCounter(b)];
  }

  lemma RunsOp(cs: seq<Command>, op: LoginOp)
    ensures Run(EMPTY, cs + Commands(op)) == AfterOp(Run(EMPTY, cs), op)
  {
    match op
    case Attempt(scope, id, account, ip) =>
      RunsAttempt(cs, Run(EMPTY, cs), LoginFailAccountIp(scope, id, Normalize(account), ip),
                  LoginFailAccount(scope, id, Normalize(account)), LoginFailIp(ip));
    case Success(scope, id, account, ip) =>
      RunsSuccess(cs, Run(EMPTY, cs), LoginFailAccountIp(scope, id, Normalize(account), ip),
                  LoginFailAccount(scope, id, Normalize(account)));
    case Elsewhere(c) => RunOne(cs, c);
  }

  lemma Counts(s: Store, k: Key, t: Tally)
    requires Holds(s, k, t)
    ensures Holds(Incr(s, k, 900000), k, if s.now < t.until then Tally(t.n + 1, t.until) else Tally(1, s.now + 900000))
  {
  }

  lemma CountsOther(s: Store, k: Key, other: Key, t: Tally)
    requires Holds(s, k, t) && other != k
    ensures Holds(Incr(s, other, 900000), k, t)
  {
  }

  lemma ClearsOther(s: Store, k: Key, other: Key, t: Tally)
    requires Holds(s, k, t)
    ensures Holds(DelCounter(s, other), k, if other == k then Tally(0, 0) else t)
  {
  }

  lemma Leaves(s: Store, k: Key, c: Command, t: Tally)
    requires Holds(s, k, t) && !Touches(c, k)
    ensures Holds(Apply(s, c), k, t)
    ensures Apply(s, c).now == s.now + if c.Wait? then c.d else 0
  {
    if !c.Wait? {
      assert Apply(s, c).now == s.now && (k in Apply(s, c).counters <==> k in s.counters);
      assert k in s.counters ==> Apply(s, c).counters[k] == s.counters[k];
    }
  }

  /** The attempt counts on `k`. */
  predicate AttemptOn(op: LoginOp, k: Key) {
    && op.Attempt?
    && (|| k == LoginFailAccountIp(op.scope, op.id, Normalize(op.account), op.ip)
        || k == LoginFailAccount(op.scope, op.id, Normalize(op.account))
        || k == LoginFailIp(op.ip))
  }

  /** The success clears `k`. */
  predicate SuccessOn(op: LoginOp, k: Key) {
    && op.Success?
    && (|| k == LoginFailAccountIp(op.scope, op.id, Normalize(op.account), op.ip)
        || k == LoginFailAccount(op.scope, op.id, Normalize(op.account)))
  }

  /** These are the operations that count on `k` and that clear it. */
  ghost predicate Watches(k: Key, counts: LoginOp -> bool, clears: LoginOp -> bool) {
    forall op: LoginOp :: counts(op) == AttemptOn(op, k) && clears(op) == SuccessOn(op, k)
  }

  lemma AttemptHolds(s: Store, a: Key, b: Key, c: Key, k: Key, t: Tally)
    requires Holds(s, k, t) && a != b && b != c && a != c
    ensures Holds(Incr(Incr(Incr(s, a, 900000), b, 900000), c, 900000), k,
                  if k != a && k != b && k != c then t
                  else if s.now < t.until then Tally(t.n + 1, t.until) else Tally(1, s.now + 900000))
  {
    var s1 := Incr(s, a, 900000);
    var s2 := Incr(s1, b, 900000);
    if k == a {
      Counts(s, k, t);
      var t' := if s.now < t.until then Tally(t.n + 1, t.until) else Tally(1, s.now + 900000);
      CountsOther(s1, k, b, t');
      CountsOther(s2, k, c, t');
    } else {
      CountsOther(s, k, a, t);
      if k == b {
        Counts(s1, k, t);
        CountsOther(s2, k, c, if s.now < t.until then Tally(t.n + 1, t.until) else Tally(1, s.now + 900000));
      } else {
        CountsOther(s1, k, b, t);
        if k == c {
          Counts(s2, k, t);
        } else {
          CountsOther(s2, k, c, t);
        }
      }
    }
  }

  lemma SuccessHolds(s: Store, a: Key, b: Key, k: Key, t: Tally)
    requires Holds(s, k, t)
    ensures Holds(DelCounter(DelCounter(s, a), b), k, if k == a || k == b then Tally(0, 0) else t)
  {
    ClearsOther(s, k, a, t);
    ClearsOther(DelCounter(s, a), k, b, if a == k then Tally(0, 0) else t);
  }

  lemma OpHolds(s: Store, op: LoginOp, k: Key, t: Tally)
    requires Holds(s, k, t) && LoginKey(k) && LoginsOnly([op])
    ensures Holds(AfterOp(s, op), k, NextTally(t, s.now, AttemptOn(op, k), SuccessOn(op, k)))
    ensures AfterOp(s, op).now == s.now + Passing(op)
  {
    match op
    case Attempt(scope, id, account, ip) =>
      AttemptHolds(s, LoginFailAccountIp(scope, id, Normalize(account), ip),
                   LoginFailAccount(scope, id, Normalize(account)), LoginFailIp(ip), k, t);
    case Success(scope, id, account, ip) =>
      SuccessHolds(s, LoginFailAccountIp(scope, id, Normalize(account), ip),
                   LoginFailAccount(scope, id, Normalize(account)), k, t);
    case Elsewhere(c) =>
      assert [op][0] == op;
      Leaves(s, k, c, t);
  }

  ghost predicate Kept(s: Store, now: nat, k: Key, t: Tally) {
    s.now == now && Holds(s, k, t)
  }

  lemma TallyHolds(s: Store, now: nat, op: LoginOp, k: Key, t: Tally, counts: bool, clears: bool)
    requires Kept(s, now, k, t) && LoginKey(k) && LoginsOnly([op])
    requires counts == AttemptOn(op, k) && clears == SuccessOn(op, k)
    ensures Kept(AfterOp(s, op), now + Passing(op), k, NextTally(t, now, counts, clears))
  {
    OpHolds(s, op, k, t);
  }

  lemma FlattenStep(ops: seq<LoginOp>)
    requires ops != []
    ensures Run(EMPTY, Flatten(ops)) == AfterOp(Run(EMPTY, Flatten(ops[..|ops| - 1])), ops[|ops| - 1])
  {
    RunsOp(Flatten(ops[..|ops| - 1]), ops[|ops| - 1]);
  }

  lemma {:induction false} TalliesHold(ops: seq<LoginOp>, k: Key, counts: LoginOp -> bool, clears: LoginOp -> bool)
    returns (s: Store)
    requires LoginsOnly(ops) && LoginKey(k) && Watches(k, counts, clears)
    ensures s == Run(EMPTY, Flatten(ops)) && Kept(s, Clock(ops), k, TallyOf(ops, counts, clears))
  {
    if ops == [] {
      s := EMPTY;
    } else {
      var init, op := ops[..|ops| - 1], ops[|ops| - 1];
      var before := TalliesHold(init, k, counts, clears);
      assert counts(op) == AttemptOn(op, k) && clears(op) == SuccessOn(op, k);
      TallyHolds(before, Clock(init), op, k, TallyOf(init, counts, clears), counts(op), clears(op));
      FlattenStep(ops);
      s := AfterOp(before, op);
    }
  }

  lemma CounterIs(ops: seq<LoginOp>, k: Key, counts: LoginOp -> bool, clears: LoginOp -> bool)
    requires LoginsOnly(ops) && LoginKey(k) && Watches(k, counts, clears)
    ensures ReadCounter(Run(EMPTY, Flatten(ops)), k) == Current(ops, counts, clears)
  {
    var _ := TalliesHold(ops, k, counts, clears);
  }

  lemma FromAddressIs(ops: seq<LoginOp>, scope: LoginScope, id: string, account: string, ip: string)
    requires LoginsOnly(ops)
    ensures ReadCounter(Run(EMPTY, Flatten(ops)), LoginFailAccountIp(scope, id, Normalize(account), ip))
            == FromAddress(ops, scope, id, account, ip)
  {
    CounterIs(ops, LoginFailAccountIp(scope, id, Normalize(account), ip), TriedFrom(scope, id, account, ip),
              ClearedFrom(scope, id, account, ip));
  }

  lemma OnAccountIs(ops: seq<LoginOp>, scope: LoginScope, id: string, account: string)
    requires LoginsOnly(ops)
    ensures ReadCounter(Run(EMPTY, Flatten(ops)), LoginFailAccount(scope, id, Normalize(account)))
            == OnAccount(ops, scope, id, account)
  {
    CounterIs(ops, LoginFailAccount(scope, id, Normalize(account)), TriedOn(scope, id, account),
              ClearedOn(scope, id, account));
  }

  lemma OfAddressIs(ops: seq<LoginOp>, ip: string)
    requires LoginsOnly(ops)
    ensures ReadCounter(Run(EMPTY, Flatten(ops)), LoginFailIp(ip)) == OfAddress(ops, ip)
  {
    CounterIs(ops, LoginFailIp(ip), TriedBy(ip), Never());
  }

  // ----- who passes -----

  /**
   An attempt passes exactly when fewer than 10 attempts on the account from its address, fewer than 50 on the account
   and fewer than 200 from the address count at that moment.
   */
  lemma PassesIff(ops: seq<LoginOp>, scope: LoginScope, id: string, account: string, ip: string)
    requires LoginsOnly(ops)
    ensures LoginOpen(Run(EMPTY, Flatten(ops)), scope, id, account, ip)
            <==> FromAddress(ops, scope, id, account, ip) < 10 && OnAccount(ops, scope, id, account) < 50
                 && OfAddress(ops, ip) < 200
  {
    FromAddressIs(ops, scope, id, account, ip);
    OnAccountIs(ops, scope, id, account);
    OfAddressIs(ops, ip);
  }

  function Attempts(scope: LoginScope, id: string, account: string, ips: seq<string>): seq<LoginOp> {
    if ips == [] then []
    else Attempts(scope, id, account, ips[..|ips| - 1]) + [Attempt(scope, id, account, ips[|ips| - 1])]
  }

  function Times(ips: seq<string>, ip: string): nat {
    if ips == [] then 0 else Times(ips[..|ips| - 1], ip) + if ips[|ips| - 1] == ip then 1 else 0
  }

  lemma {:induction false} AttemptsTally(scope: LoginScope, id: string, account: string, ips: seq<string>, ip: string,
                                         counts: LoginOp -> bool, clears: LoginOp -> bool, n: nat)
    requires forall a :: counts(Attempt(scope, id, account, a)) <==> (n == 0 || a == ip)
    requires forall a :: !clears(Attempt(scope, id, account, a))
    ensures LoginsOnly(Attempts(scope, id, account, ips)) && Clock(Attempts(scope, id, account, ips)) == 0
    ensures var k := if n == 0 then |ips| else Times(ips, ip);
            TallyOf(Attempts(scope, id, account, ips), counts, clears) == Tally(k, if k == 0 then 0 else 900000)
    decreases |ips|
  {
    if ips == [] {
    } else {
      var init := ips[..|ips| - 1];
      AttemptsTally(scope, id, account, init, ip, counts, clears, n);
      var ops := Attempts(scope, id, account, ips);
      assert ops[..|ops| - 1] == Attempts(scope, id, account, init);
    }
  }

  /**
   Attempts on one account in one quarter of an hour, from the addresses listed: the next one, from `ip`, passes exactly
   when there were fewer than 10 from there and fewer than 50 in all. So from one address the tenth passes and the
   eleventh is refused, and from ever new addresses the fiftieth passes and the fifty-first is refused.
   */
  lemma NextPassesIff(scope: LoginScope, id: string, account: string, ips: seq<string>, ip: string)
    ensures LoginOpen(Run(EMPTY, Flatten(Attempts(scope, id, account, ips))), scope, id, account, ip)
            <==> Times(ips, ip) < 10 && |ips| < 50
  {
    AttemptsCurrent(scope, id, account, ips, ip);
    TimesAtMost(ips, ip);
    PassesIff(Attempts(scope, id, account, ips), scope, id, account, ip);
  }

  lemma AttemptsCurrent(scope: LoginScope, id: string, account: string, ips: seq<string>, ip: string)
    ensures var ops := Attempts(scope, id, account, ips);
            && LoginsOnly(ops) && FromAddress(ops, scope, id, account, ip) == Times(ips, ip)
            && OnAccount(ops, scope, id, account) == |ips| && OfAddress(ops, ip) == Times(ips, ip)
  {
    AttemptsTally(scope, id, account, ips, ip, TriedFrom(scope, id, account, ip),
                  ClearedFrom(scope, id, account, ip), 1);
    AttemptsTally(scope, id, account, ips, ip, TriedOn(scope, id, account), ClearedOn(scope, id, account), 0);
    AttemptsTally(scope, id, account, ips, ip, TriedBy(ip), Never(), 1);
  }

  lemma {:induction false} TimesAtMost(ips: seq<string>, ip: string)
    ensures Times(ips, ip) <= |ips|
  {
    if ips == [] {
    } else {
      TimesAtMost(ips[..|ips| - 1], ip);
    }
  }

  /** What a login does to the store, attempt by attempt and success by success, is a run of these operations. */
  lemma LoginIsOps(cs: seq<Command>, scope: LoginScope, id: string, account: string, ip: string)
    ensures Run(EMPTY, cs + Commands(Attempt(scope, id, account, ip)))
            == IncrAll(Run(EMPTY, cs), LoginLimits(scope, id, account, ip))
    ensures Run(EMPTY, cs + Commands(Success(scope, id, account, ip)))
            == Cleared(Run(EMPTY, cs), scope, id, account, ip)
  {
    AttemptIsScript(cs, scope, id, account, ip);
    RunsOp(cs, Success(scope, id, account, ip));
  }
}
