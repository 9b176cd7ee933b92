/**
 Any number of code verifications at once, interleaved at every round trip, with failures, and with the rest of the
 service doing whatever it does in between: how many wrong codes one life of a fail counter can absorb.
 */
module BindInterleaved {
  import opened Prelude
  import opened AuthKeys
  import opened RedisStore
  import opened AuthLimits
  import opened BindTables
  import opened BindCodes
  import opened Places

  /** The round trip a verification makes next. */
  datatype Pc =
    | AtLock | AtChallenge | AtCount
    | AtCompare | AtDevices | AtDelete(id: string) | AtReread | AtExpire(ids: seq<nat>)
    | AtGiveBack | AtClear
    | AtWrongClear | AtWrongReread | AtWrongExpire(ids: seq<nat>)
    | Done(result: bool) | Abandoned

  /**
   `life` is the life of the fail counter in which the attempt was counted, `due` when that counter was to expire then,
   `attempts` the reply, `gaveTo` the life that a correct code's decrement went to, `gaveAt` the time of that decrement,
   and `wrong` records that the check of the code has failed.
   */
  datatype Req = Req(
    q: Query, pc: Pc, attempts: int,
    life: Option<nat>, due: Option<nat>, gaveTo: Option<nat>, gaveAt: Option<nat>, wrong: bool
  )

  function Arrive(q: Query): Req {
    var pc := if q.typ != BIND_DEVICE_LIMIT || q.memberId == "" then Done(false) else AtLock;
    Req(q, pc, 0, None, None, None, None, false)
  }

  /** The check of the code failed, by a wrong code or by an error. */
  function Wrong(r: Req): Req {
    r.(wrong := true, pc := if r.attempts >= DEVICE_BIND_FAIL_CAP then AtWrongClear else Done(false))
  }

  /** One round trip. `ok` is false when a database call fails; its error is caught where the code catches it. */
  function Effect(sys: Sys, r: Req, ok: bool): (Sys, Req) {
    var q, s := r.q, sys.store;
    match r.pc
    case AtLock => (sys, r.(pc := if BindLocked(s, q.appId, q.memberId) then Done(false) else AtChallenge))
    case AtChallenge =>
      (sys, r.(pc := if ChallengeMember(s, q.appId, q.email) == Some(q.memberId) then AtCount else Done(false)))
    case AtCount =>
      var s' := Incr(s, FailKey(q), DEVICE_BIND_FAIL_TTL);
      var attempts := IncrReply(s, FailKey(q));
      (sys.(store := s'),
       r.(attempts := attempts, life := Some(s'.counters[FailKey(q)].born), due := s'.counters[FailKey(q)].expiry,
          pc := if attempts > DEVICE_BIND_FAIL_CAP then Done(false) else AtCompare))
    case AtCompare =>
      (sys, if ok && CodeGood(sys.codes, q.appId, q.email, q.typ, q.code, s.now) then r.(pc := AtDevices) else Wrong(r))
    case AtDevices =>
      var mine := MemberDevices(sys.devices, q.memberId);
      (sys, if ok && mine != [] then r.(pc := AtDelete(Earliest(mine).id)) else Wrong(r))
    case AtDelete(id) =>
      if ok then (sys.(devices := RemoveDevice(sys.devices, id)), r.(pc := AtReread)) else (sys, Wrong(r))
    case AtReread =>
      (sys, if ok then r.(pc := AtExpire(Ids(UnexpiredRows(sys.codes, q.appId, q.email, q.typ, s.now)))) else Wrong(r))
    case AtExpire(ids) =>
      if ok then (sys.(codes := ExpireRows(sys.codes, ids, q.appId, q.email, q.typ, s.now)), r.(pc := AtGiveBack))
      else (sys, Wrong(r))
    case AtGiveBack =>
      (sys.(store := Decr(s, FailKey(q))),
       r.(pc := AtClear, gaveAt := Some(s.now),
          gaveTo := if LiveCounter(s, FailKey(q)) then Some(s.counters[FailKey(q)].born) else None))
    case AtClear => (sys.(store := ClearChallenge(s, q.appId, q.email)), r.(pc := Done(true)))
    case AtWrongClear => (sys.(store := ClearChallenge(s, q.appId, q.email)), r.(pc := AtWrongReread))
    case AtWrongReread =>
      (sys, r.(pc := if ok then AtWrongExpire(Ids(UnexpiredRows(sys.codes, q.appId, q.email, q.typ, s.now)))
        else Done(false)))
    case AtWrongExpire(ids) =>
      (if ok then sys.(codes := ExpireRows(sys.codes, ids, q.appId, q.email, q.typ, s.now))
        else sys, r.(pc := Done(false)))
    case Done(_) => (sys, r)
    case Abandoned => (sys, r)
  }

  datatype Machine = Machine(sys: Sys, reqs: seq<Req>)

  datatype Step =
    | Begin(q: Query)
    | Advance(i: nat, ok: bool)
    | Abandon(i: nat)
    | Elsewhere(command: Command)
    | TablesChange(codes: seq<CodeRow>, devices: seq<Device>)

  const START := Machine(Sys(EMPTY, [], []), [])

  /** Commands of logins, sends and everything else: they never touch a fail counter. */
  predicate Foreign(c: Command) {
    (c.Increment? || c.Decrement? || c.DeleteCounter?) ==> !c.key.DeviceBindFail?
  }

  function Next(m: Machine, step: Step): Machine {
    match step
    case Begin(q) => m.(reqs := m.reqs + [Arrive(q)])
    case Advance(i, ok) =>
      if i < |m.reqs| then
        var (sys, r) := Effect(m.sys, m.reqs[i], ok);
        Machine(sys, m.reqs[i := r])
      else m
    case Abandon(i) => if i < |m.reqs| && !m.reqs[i].pc.Done? then m.(reqs := m.reqs[i := m.reqs[i].(pc := Abandoned)])
      else m
    case Elsewhere(c) => if Foreign(c) then m.(sys := m.sys.(store := Apply(m.sys.store, c))) else m
    case TablesChange(codes, devices) => m.(sys := m.sys.(codes := codes, devices := devices))
  }

  function Exec(m: Machine, steps: seq<Step>): Machine {
    if steps == [] then m else Next(Exec(m, steps[..|steps| - 1]), steps[|steps| - 1])
  }

  // ----- requests in one life -----

  /** Counted on the fail counter in this life. */
  function CountedIn(life: nat): Req -> bool {
    (r: Req) => r.life == Some(life)
  }

  /** Gave its attempt back to this life. */
  function GivenTo(life: nat): Req -> bool {
    (r: Req) => r.gaveTo == Some(life)
  }

  /** Gave back to a life in which it was not counted: a decrement that came after the counter had expired. */
  function StrayInto(life: nat): Req -> bool {
    (r: Req) => r.gaveTo == Some(life) && r.life != Some(life)
  }

  function OwnGiven(life: nat): Req -> bool {
    (r: Req) => r.gaveTo == Some(life) && r.life == Some(life)
  }

  /** Let through in this life and not given back to it. */
  function HeldIn(life: nat): Req -> bool {
    (r: Req) => r.life == Some(life) && r.attempts <= DEVICE_BIND_FAIL_CAP && r.gaveTo != Some(life)
  }

  predicate InFlight(r: Req) {
    r.pc.AtCompare? || r.pc.AtDevices? || r.pc.AtDelete? || r.pc.AtReread? || r.pc.AtExpire?
  }

  /** The code was found wrong, or its check is still under way. */
  function WrongOrInFlight(life: nat): Req -> bool {
    (r: Req) => r.life == Some(life) && (r.wrong || InFlight(r))
  }

  // ----- invariants -----

  predicate Early(r: Req) {
    r.pc.AtLock? || r.pc.AtChallenge? || r.pc.AtCount?
  }

  /** What the fields of a request say at each point. */
  predicate Consistent(r: Req, births: nat) {
    && (r.life.Some? ==> r.life.value < births)
    && (r.gaveTo.Some? ==> r.gaveTo.value < births)
    && (Early(r) ==> r.life == None && !r.wrong)
    && (!r.pc.AtClear? && !r.pc.Done? && !r.pc.Abandoned? ==> r.gaveTo == None)
    && (r.wrong || InFlight(r) ==> r.life.Some? && r.attempts <= DEVICE_BIND_FAIL_CAP && r.gaveTo == None)
    && (InFlight(r) || r.pc.AtGiveBack? || r.pc.AtClear? ==> !r.wrong)
  }

  ghost predicate AllConsistent(m: Machine) {
    forall i | 0 <= i < |m.reqs| :: Consistent(m.reqs[i], m.sys.store.births)
  }

  /** A fail counter holds the attempts counted in its life minus those given back to it. */
  ghost predicate Accounted(m: Machine) {
    forall k | k in m.sys.store.counters && k.DeviceBindFail? ::
      var c := m.sys.store.counters[k];
      c.value == |Where(m.reqs, CountedIn(c.born))| - |Where(m.reqs, GivenTo(c.born))|
  }

  ghost predicate Capped(m: Machine) {
    forall life: nat :: |Where(m.reqs, HeldIn(life))| <= DEVICE_BIND_FAIL_CAP + |Where(m.reqs, StrayInto(life))|
  }

  ghost predicate Inv(m: Machine) {
    EveryCounterExpires(m.sys.store) && LivesNumbered(m.sys.store) && AllConsistent(m) && Accounted(m) && Capped(m)
  }

  /** Nothing that the accounting looks at has moved. */
  ghost predicate SameAccount(s: Store, s': Store) {
    && s.births <= s'.births
    && (forall k: Key | k.DeviceBindFail? ::
      (k in s'.counters <==> k in s.counters) && (k in s.counters ==> s'.counters[k] == s.counters[k]))
  }

  predicate SameFields(r: Req, r': Req) {
    r'.life == r.life && r'.attempts == r.attempts && r'.gaveTo == r.gaveTo
  }

  lemma QuietStore(sys: Sys, r: Req, ok: bool)
    requires !r.pc.AtCount? && !r.pc.AtGiveBack?
    ensures Effect(sys, r, ok).0.store.counters == sys.store.counters
            && Effect(sys, r, ok).0.store.births == sys.store.births
  {
  }

  lemma QuietFields(sys: Sys, r: Req, ok: bool)
    requires !r.pc.AtCount? && !r.pc.AtGiveBack? && Consistent(r, sys.store.births)
    ensures SameFields(r, Effect(sys, r, ok).1)
  {
  }

  lemma QuietConsistent(sys: Sys, r: Req, ok: bool)
    requires !r.pc.AtCount? && !r.pc.AtGiveBack? && Consistent(r, sys.store.births)
    ensures Consistent(Effect(sys, r, ok).1, sys.store.births)
  {
  }

  lemma QuietEffect(sys: Sys, r: Req, ok: bool)
    requires Consistent(r, sys.store.births) && !r.pc.AtCount? && !r.pc.AtGiveBack?
    ensures var (sys', r') := Effect(sys, r, ok);
            && sys'.store.counters == sys.store.counters && sys'.store.births == sys.store.births
            && SameFields(r, r') && Consistent(r', sys.store.births)
  {
    QuietStore(sys, r, ok);
    QuietFields(sys, r, ok);
    QuietConsistent(sys, r, ok);
  }

  lemma QuietReplace(m: Machine, m': Machine, i: nat, r: Req)
    requires Accounted(m) && Capped(m) && i < |m.reqs| && SameFields(m.reqs[i], r)
    requires m'.reqs == m.reqs[i := r] && SameAccount(m.sys.store, m'.sys.store)
    ensures Accounted(m') && Capped(m')
  {
    forall k | k in m'.sys.store.counters && k.DeviceBindFail?
      ensures var c := m'.sys.store.counters[k];
              c.value == |Where(m'.reqs, CountedIn(c.born))| - |Where(m'.reqs, GivenTo(c.born))|
    {
      var c := m'.sys.store.counters[k];
      WhereUpdate(m.reqs, i, r, CountedIn(c.born));
      WhereUpdate(m.reqs, i, r, GivenTo(c.born));
    }
    forall life: nat
      ensures |Where(m'.reqs, HeldIn(life))| <= DEVICE_BIND_FAIL_CAP + |Where(m'.reqs, StrayInto(life))|
    {
      WhereUpdate(m.reqs, i, r, HeldIn(life));
      WhereUpdate(m.reqs, i, r, StrayInto(life));
    }
  }

  lemma BeginKeeps(m: Machine, q: Query)
    requires Inv(m)
    ensures Inv(Next(m, Begin(q)))
  {
    var m', r := Next(m, Begin(q)), Arrive(q);
    forall k | k in m'.sys.store.counters && k.DeviceBindFail?
      ensures var c := m'.sys.store.counters[k];
              c.value == |Where(m'.reqs, CountedIn(c.born))| - |Where(m'.reqs, GivenTo(c.born))|
    {
      var c := m'.sys.store.counters[k];
      WhereAppend(m.reqs, r, CountedIn(c.born));
      WhereAppend(m.reqs, r, GivenTo(c.born));
    }
    forall life: nat
      ensures |Where(m'.reqs, HeldIn(life))| <= DEVICE_BIND_FAIL_CAP + |Where(m'.reqs, StrayInto(life))|
    {
      WhereAppend(m.reqs, r, HeldIn(life));
      WhereAppend(m.reqs, r, StrayInto(life));
    }
  }

  lemma NoneYet(m: Machine, life: nat)
    requires AllConsistent(m) && life >= m.sys.store.births
    ensures Where(m.reqs, CountedIn(life)) == {} && Where(m.reqs, GivenTo(life)) == {}
  {
  }

  lemma CountAccounted(m: Machine, i: nat, ok: bool)
    requires AllConsistent(m) && Accounted(m) && LivesNumbered(m.sys.store) && i < |m.reqs| && m.reqs[i].pc.AtCount?
    ensures Accounted(Next(m, Advance(i, ok)))
  {
    var m', r := Next(m, Advance(i, ok)), m.reqs[i];
    var key, r' := FailKey(r.q), m'.reqs[i];
    forall k | k in m'.sys.store.counters && k.DeviceBindFail?
      ensures var c := m'.sys.store.counters[k];
              c.value == |Where(m'.reqs, CountedIn(c.born))| - |Where(m'.reqs, GivenTo(c.born))|
    {
      var c := m'.sys.store.counters[k];
      WhereUpdate(m.reqs, i, r', CountedIn(c.born));
      WhereUpdate(m.reqs, i, r', GivenTo(c.born));
      if k == key && !LiveCounter(m.sys.store, key) {
        NoneYet(m, c.born);
      }
    }
  }

  /** Let through in a life: held there or given back there, and those are different requests. */
  lemma HeldWithinCounted(reqs: seq<Req>, life: nat)
    ensures |Where(reqs, HeldIn(life))| + |Where(reqs, OwnGiven(life))| <= |Where(reqs, CountedIn(life))|
    ensures |Where(reqs, GivenTo(life))| == |Where(reqs, OwnGiven(life))| + |Where(reqs, StrayInto(life))|
  {
    WhereApart(reqs, HeldIn(life), OwnGiven(life), CountedIn(life));
    WhereSplit(reqs, OwnGiven(life), StrayInto(life), GivenTo(life));
  }

  /** A request let through at the counter: the cap on the counter is the cap on what is held. */
  lemma CountCapped(m: Machine, i: nat, ok: bool)
    requires Capped(m) && i < |m.reqs| && m.reqs[i].pc.AtCount? && Consistent(m.reqs[i], m.sys.store.births)
    requires Accounted(Next(m, Advance(i, ok)))
    ensures Capped(Next(m, Advance(i, ok)))
  {
    var m', r := Next(m, Advance(i, ok)), m.reqs[i];
    var r' := m'.reqs[i];
    forall life: nat
      ensures |Where(m'.reqs, HeldIn(life))| <= DEVICE_BIND_FAIL_CAP + |Where(m'.reqs, StrayInto(life))|
    {
      WhereUpdate(m.reqs, i, r', HeldIn(life));
      WhereUpdate(m.reqs, i, r', StrayInto(life));
      if HeldIn(life)(r') {
        var c := m'.sys.store.counters[FailKey(r.q)];
        assert c.born == life && c.value == r'.attempts;
        HeldWithinCounted(m'.reqs, life);
      }
    }
  }

  lemma GiveBackAccounted(m: Machine, i: nat, ok: bool)
    requires Accounted(m) && LivesNumbered(m.sys.store) && i < |m.reqs| && m.reqs[i].pc.AtGiveBack?
             && m.reqs[i].gaveTo == None
    ensures Accounted(Next(m, Advance(i, ok)))
  {
    var m', r := Next(m, Advance(i, ok)), m.reqs[i];
    forall k | k in m'.sys.store.counters && k.DeviceBindFail?
      ensures var c := m'.sys.store.counters[k];
              c.value == |Where(m'.reqs, CountedIn(c.born))| - |Where(m'.reqs, GivenTo(c.born))|
    {
      var c := m'.sys.store.counters[k];
      WhereUpdate(m.reqs, i, m'.reqs[i], CountedIn(c.born));
      WhereUpdate(m.reqs, i, m'.reqs[i], GivenTo(c.born));
    }
  }

  lemma GiveBackCapped(m: Machine, i: nat, ok: bool)
    requires Capped(m) && i < |m.reqs| && m.reqs[i].pc.AtGiveBack? && m.reqs[i].gaveTo == None
    ensures Capped(Next(m, Advance(i, ok)))
  {
    var m' := Next(m, Advance(i, ok));
    forall life: nat
      ensures |Where(m'.reqs, HeldIn(life))| <= DEVICE_BIND_FAIL_CAP + |Where(m'.reqs, StrayInto(life))|
    {
      WhereUpdate(m.reqs, i, m'.reqs[i], HeldIn(life));
      WhereUpdate(m.reqs, i, m'.reqs[i], StrayInto(life));
    }
  }

  lemma EffectStore(sys: Sys, r: Req, ok: bool)
    requires EveryCounterExpires(sys.store) && LivesNumbered(sys.store) && Consistent(r, sys.store.births)
    ensures var (sys', r') := Effect(sys, r, ok);
            && EveryCounterExpires(sys'.store) && LivesNumbered(sys'.store)
            && sys.store.births <= sys'.store.births && Consistent(r', sys'.store.births)
  {
    if r.pc.AtCount? {
      IncrKeepsCounters(sys.store, FailKey(r.q), DEVICE_BIND_FAIL_TTL);
    } else if r.pc.AtGiveBack? {
      ApplyKeepsCounters(sys.store, Decrement(FailKey(r.q)));
    } else {
      QuietEffect(sys, r, ok);
    }
  }

  lemma AdvanceKeeps(m: Machine, i: nat, ok: bool)
    requires Inv(m) && i < |m.reqs|
    ensures Inv(Next(m, Advance(i, ok)))
  {
    var m', r := Next(m, Advance(i, ok)), m.reqs[i];
    EffectStore(m.sys, r, ok);
    if r.pc.AtCount? {
      CountAccounted(m, i, ok);
      CountCapped(m, i, ok);
    } else if r.pc.AtGiveBack? {
      GiveBackAccounted(m, i, ok);
      GiveBackCapped(m, i, ok);
    } else {
      QuietEffect(m.sys, r, ok);
      QuietReplace(m, m', i, m'.reqs[i]);
    }
  }

  lemma ForeignAccount(s: Store, c: Command)
    requires Foreign(c)
    ensures SameAccount(s, Apply(s, c))
  {
  }

  lemma SameAccountKeeps(m: Machine, m': Machine)
    requires AllConsistent(m) && Accounted(m) && Capped(m)
    requires m'.reqs == m.reqs && SameAccount(m.sys.store, m'.sys.store)
    ensures AllConsistent(m') && Accounted(m') && Capped(m')
  {
  }

  lemma NextKeeps(m: Machine, step: Step)
    requires Inv(m)
    ensures Inv(Next(m, step))
  {
    match step
    case Begin(q) => BeginKeeps(m, q);
    case Advance(i, ok) =>
      if i < |m.reqs| {
        AdvanceKeeps(m, i, ok);
      }
    case Abandon(i) =>
      if i < |m.reqs| && !m.reqs[i].pc.Done? {
        QuietReplace(m, Next(m, step), i, m.reqs[i].(pc := Abandoned));
      }
    case Elsewhere(c) =>
      if Foreign(c) {
        ForeignAccount(m.sys.store, c);
        ApplyKeepsCounters(m.sys.store, c);
        SameAccountKeeps(m, Next(m, step));
      }
    case TablesChange(codes, devices) => SameAccountKeeps(m, Next(m, step));
  }

  lemma {:induction false} ExecKeeps(m: Machine, steps: seq<Step>)
    requires Inv(m)
    ensures Inv(Exec(m, steps))
  {
    if steps == [] {
    } else {
      ExecKeeps(m, steps[..|steps| - 1]);
      NextKeeps(Exec(m, steps[..|steps| - 1]), steps[|steps| - 1]);
    }
  }

  lemma StartInv()
    ensures Inv(START)
  {
    forall life: nat
      ensures |Where([], HeldIn(life))| == 0
    {
      assert Where([], HeldIn(life)) == {};
    }
  }

  /**
   Under every interleaving, in every life of a fail counter, the wrong codes plus the codes still being checked are at
   most 10 plus the number of decrements that strayed into that life from an earlier one.
   */
  lemma WrongGuessBound(steps: seq<Step>, life: nat)
    ensures var reqs := Exec(START, steps).reqs;
            |Where(reqs, WrongOrInFlight(life))| <= 10 + |Where(reqs, StrayInto(life))|
  {
    StartInv();
    ExecKeeps(START, steps);
    WhereWeaker(Exec(START, steps).reqs, WrongOrInFlight(life), HeldIn(life));
  }

  /** When no decrement strays into a life, the bound there is 10, whatever happens in other lives. */
  lemma WrongGuessCap(steps: seq<Step>, life: nat)
    requires forall r | r in Exec(START, steps).reqs && r.gaveTo == Some(life) :: r.life == Some(life)
    ensures |Where(Exec(START, steps).reqs, WrongOrInFlight(life))| <= 10
  {
    WrongGuessBound(steps, life);
    var reqs := Exec(START, steps).reqs;
    forall i | 0 <= i < |reqs|
      ensures !StrayInto(life)(reqs[i])
    {
      assert reqs[i] in reqs;
    }
    assert Where(reqs, StrayInto(life)) == {};
  }

  // ----- when a decrement strays -----

  /** The decrement came before the counter was due to expire when the attempt was counted. */
  predicate InTime(r: Req) {
    r.due.Some? && r.gaveAt.Some? && r.gaveAt.value < r.due.value
  }

  /** No fail counter lasts longer than its time to live from now. */
  ghost predicate Short(s: Store) {
    forall k | k in s.counters && k.DeviceBindFail? ::
      s.counters[k].expiry.Some? && s.counters[k].expiry.value <= s.now + DEVICE_BIND_FAIL_TTL
  }

  /** A fail counter lives on, no shorter than before, or it has expired and a new life has begun. */
  ghost predicate LivesOn(s: Store, s': Store, k: Key)
    requires k in s.counters && s.counters[k].expiry.Some?
  {
    && k in s'.counters && s'.counters[k].expiry.Some?
    && if s'.counters[k].born == s.counters[k].born
       then s.counters[k].expiry.value <= s'.counters[k].expiry.value
       else s.births <= s'.counters[k].born && s.counters[k].expiry.value <= s'.now
  }

  ghost predicate Evolves(s: Store, s': Store) {
    && s.now <= s'.now && s.births <= s'.births
    && forall k | k in s.counters && k.DeviceBindFail? :: s.counters[k].expiry.Some? && LivesOn(s, s', k)
  }

  /** The counter of the request is in the life it was counted in, and no shorter, or that life was over by now. */
  ghost predicate Tracked(s: Store, r: Req) {
    var k := FailKey(r.q);
    if r.life.None? then r.due.None?
    else
      && r.due.Some? && r.life.value < s.births && k in s.counters && s.counters[k].expiry.Some?
      && if Some(s.counters[k].born) == r.life then r.due.value <= s.counters[k].expiry.value
         else r.due.value <= s.now
  }

  predicate Punctual(r: Req) {
    r.gaveTo.Some? && InTime(r) ==> r.gaveTo == r.life
  }

  ghost predicate Timed(m: Machine) {
    Short(m.sys.store) && forall i | 0 <= i < |m.reqs| :: Tracked(m.sys.store, m.reqs[i]) && Punctual(m.reqs[i])
  }

  lemma TrackedOn(s: Store, s': Store, r: Req)
    requires Evolves(s, s') && Tracked(s, r)
    ensures Tracked(s', r)
  {
  }

  lemma CountEvolves(s: Store, k: Key)
    requires Short(s) && k.DeviceBindFail?
    ensures Short(Incr(s, k, DEVICE_BIND_FAIL_TTL)) && Evolves(s, Incr(s, k, DEVICE_BIND_FAIL_TTL))
  {
  }

  lemma GiveBackEvolves(s: Store, k: Key)
    requires Short(s)
    ensures Short(Decr(s, k)) && Evolves(s, Decr(s, k))
  {
  }

  lemma ForeignEvolves(s: Store, c: Command)
    requires Short(s) && Foreign(c)
    ensures Short(Apply(s, c)) && Evolves(s, Apply(s, c))
  {
    ForeignAccount(s, c);
  }

  lemma QuietTimes(sys: Sys, r: Req, ok: bool)
    requires !r.pc.AtCount? && !r.pc.AtGiveBack?
    ensures var r' := Effect(sys, r, ok).1; r'.q == r.q && r'.due == r.due && r'.gaveAt == r.gaveAt
    ensures Effect(sys, r, ok).0.store.now == sys.store.now
  {
  }

  lemma EffectTimed(sys: Sys, r: Req, ok: bool)
    requires LivesNumbered(sys.store) && Short(sys.store) && Consistent(r, sys.store.births)
    requires Tracked(sys.store, r) && Punctual(r)
    ensures var (sys', r') := Effect(sys, r, ok);
            Short(sys'.store) && Evolves(sys.store, sys'.store) && Tracked(sys'.store, r') && Punctual(r')
  {
    if r.pc.AtCount? {
      CountEvolves(sys.store, FailKey(r.q));
    } else if r.pc.AtGiveBack? {
      GiveBackEvolves(sys.store, FailKey(r.q));
    } else {
      QuietEffect(sys, r, ok);
      QuietTimes(sys, r, ok);
    }
  }

  lemma NextKeepsTimed(m: Machine, step: Step)
    requires LivesNumbered(m.sys.store) && AllConsistent(m) && Timed(m)
    ensures Timed(Next(m, step))
  {
    var m' := Next(m, step);
    if step.Advance? && step.i < |m.reqs| {
      EffectTimed(m.sys, m.reqs[step.i], step.ok);
    } else if step.Elsewhere? && Foreign(step.command) {
      ForeignEvolves(m.sys.store, step.command);
    }
    forall i | 0 <= i < |m'.reqs|
      ensures Tracked(m'.sys.store, m'.reqs[i]) && Punctual(m'.reqs[i])
    {
      if i < |m.reqs| && Evolves(m.sys.store, m'.sys.store) {
        TrackedOn(m.sys.store, m'.sys.store, m.reqs[i]);
      }
    }
  }

  lemma {:induction false} ExecKeepsTimed(steps: seq<Step>)
    ensures Timed(Exec(START, steps))
  {
    if steps == [] {
    } else {
      var init := steps[..|steps| - 1];
      StartInv();
      ExecKeeps(START, init);
      ExecKeepsTimed(init);
      NextKeepsTimed(Exec(START, init), steps[|steps| - 1]);
    }
  }

  /** A decrement that comes in time goes back to the life in which the attempt was counted. */
  lemma InTimeNoStray(steps: seq<Step>, i: nat)
    requires i < |Exec(START, steps).reqs|
    requires var r := Exec(START, steps).reqs[i]; r.gaveTo.Some? && InTime(r)
    ensures var r := Exec(START, steps).reqs[i]; r.gaveTo == r.life
  {
    ExecKeepsTimed(steps);
  }

  /** When the decrements that reach a life were made in time, the bound there is 10. */
  lemma WrongGuessInTime(steps: seq<Step>, life: nat)
    requires forall r | r in Exec(START, steps).reqs && r.gaveTo == Some(life) :: InTime(r)
    ensures |Where(Exec(START, steps).reqs, WrongOrInFlight(life))| <= 10
  {
    ExecKeepsTimed(steps);
    WrongGuessCap(steps, life);
  }

  // ----- running alone is the serial method -----

  /** The next `n` round trips of one request, with nothing in between and no failure. */
  function Alone(sys: Sys, r: Req, n: nat): (Sys, Req)
    decreases n
  {
    if n == 0 then (sys, r)
    else
      var (sys', r') := Effect(sys, r, true);
      Alone(sys', r', n - 1)
  }

  lemma Go(sys: Sys, r: Req, sys': Sys, r': Req, n: pos)
    requires Effect(sys, r, true) == (sys', r')
    ensures Alone(sys, r, n) == Alone(sys', r', n - 1)
  {
  }

  lemma {:induction false} Stop(sys: Sys, r: Req, n: nat)
    requires r.pc.Done?
    ensures Alone(sys, r, n) == (sys, r)
  {
    if n > 0 {
      Stop(sys, r, n - 1);
    }
  }

  lemma AloneWrong(sys: Sys, r: Req, n: nat)
    requires r.pc.AtWrongClear? && n >= 3
    ensures Alone(sys, r, n) == (Sys(ClearChallenge(sys.store, r.q.appId, r.q.email),
                                     ExpireLive(sys.codes, r.q.appId, r.q.email, r.q.typ, sys.store.now), sys.devices),
                                 r.(pc := Done(false)))
  {
    var q, now := r.q, sys.store.now;
    var sys1 := sys.(store := ClearChallenge(sys.store, q.appId, q.email));
    var ids := Ids(UnexpiredRows(sys.codes, q.appId, q.email, q.typ, now));
    var sys2 := sys1.(codes := ExpireRows(sys.codes, ids, q.appId, q.email, q.typ, now));
    Go(sys, r, sys1, r.(pc := AtWrongReread), n);
    Go(sys1, r.(pc := AtWrongReread), sys1, r.(pc := AtWrongExpire(ids)), n - 1);
    Go(sys1, r.(pc := AtWrongExpire(ids)), sys2, r.(pc := Done(false)), n - 2);
    Stop(sys2, r.(pc := Done(false)), n - 3);
  }

  /** From the delete on: the device goes, and the live codes expire. */
  lemma AloneDelete(sys: Sys, r: Req, id: string, n: nat)
    requires r.pc == AtDelete(id) && n >= 3
    ensures var q := r.q;
            Alone(sys, r, n) == Alone(Sys(sys.store, ExpireLive(sys.codes, q.appId, q.email, q.typ, sys.store.now),
                                          RemoveDevice(sys.devices, id)), r.(pc := AtGiveBack), n - 3)
  {
    var q, now := r.q, sys.store.now;
    var sys1 := sys.(devices := RemoveDevice(sys.devices, id));
    var ids := Ids(UnexpiredRows(sys.codes, q.appId, q.email, q.typ, now));
    var sys2 := sys1.(codes := ExpireRows(sys.codes, ids, q.appId, q.email, q.typ, now));
    Go(sys, r, sys1, r.(pc := AtReread), n);
    Go(sys1, r.(pc := AtReread), sys1, r.(pc := AtExpire(ids)), n - 1);
    Go(sys1, r.(pc := AtExpire(ids)), sys2, r.(pc := AtGiveBack), n - 2);
  }

  /** The check of the code takes one round trip, two or five. */
  lemma AloneRedeem(sys: Sys, r: Req, n: nat) returns (left: nat)
    requires r.pc.AtCompare? && n >= 5
    ensures n - 5 <= left && (!Redeem(sys, r.q).1 ==> n - 2 <= left)
    ensures Alone(sys, r, n)
         == Alone(Redeem(sys, r.q).0, if Redeem(sys, r.q).1 then r.(pc := AtGiveBack) else Wrong(r), left)
  {
    var q := r.q;
    var mine := MemberDevices(sys.devices, q.memberId);
    if !CodeGood(sys.codes, q.appId, q.email, q.typ, q.code, sys.store.now) {
      left := n - 1;
      Go(sys, r, sys, Wrong(r), n);
    } else {
      Go(sys, r, sys, r.(pc := AtDevices), n);
      if mine == [] {
        left := n - 2;
        Go(sys, r.(pc := AtDevices), sys, Wrong(r.(pc := AtDevices)), n - 1);
      } else {
        left := n - 5;
        var id := Earliest(mine).id;
        Go(sys, r.(pc := AtDevices), sys, r.(pc := AtDelete(id)), n - 1);
        AloneDelete(sys, r.(pc := AtDelete(id)), id, n - 2);
      }
    }
  }

  lemma GiveBackEffect(sys: Sys, r: Req)
    requires r.pc.AtGiveBack?
    ensures Effect(sys, r, true).0 == sys.(store := Decr(sys.store, FailKey(r.q)))
    ensures Effect(sys, r, true).1.pc == AtClear && Effect(sys, r, true).1.q == r.q
  {
  }

  lemma ClearEffect(sys: Sys, r: Req)
    requires r.pc.AtClear?
    ensures Effect(sys, r, true)
              == (sys.(store := ClearChallenge(sys.store, r.q.appId, r.q.email)), r.(pc := Done(true)))
  {
  }

  lemma AloneGiveBack(sys: Sys, r: Req, n: nat)
    requires r.pc.AtGiveBack? && n >= 2
    ensures Alone(sys, r, n).0 == sys.(store := ClearChallenge(Decr(sys.store, FailKey(r.q)), r.q.appId, r.q.email))
    ensures Alone(sys, r, n).1.pc == Done(true)
  {
    var sys1, r1 := sys.(store := Decr(sys.store, FailKey(r.q))), Effect(sys, r, true).1;
    GiveBackEffect(sys, r);
    Go(sys, r, sys1, r1, n);
    ClearEffect(sys1, r1);
    var sys2 := sys1.(store := ClearChallenge(sys1.store, r.q.appId, r.q.email));
    Go(sys1, r1, sys2, r1.(pc := Done(true)), n - 1);
    Stop(sys2, r1.(pc := Done(true)), n - 2);
  }

  /** What the serial method does from the check of the code on. */
  function Checking(sys: Sys, q: Query, attempts: int): (Sys, bool) {
    var (sys1, verified) := Redeem(sys, q);
    if verified then
      (sys1.(store := ClearChallenge(Decr(sys1.store, FailKey(q)), q.appId, q.email)), true)
    else if attempts >= DEVICE_BIND_FAIL_CAP then
      (Sys(ClearChallenge(sys1.store, q.appId, q.email),
           ExpireLive(sys1.codes, q.appId, q.email, q.typ, sys1.store.now), sys1.devices), false)
    else (sys1, false)
  }

  lemma AloneCheck(sys: Sys, r: Req, n: nat)
    requires r.pc.AtCompare? && n >= 7
    ensures Alone(sys, r, n).0 == Checking(sys, r.q, r.attempts).0
    ensures Alone(sys, r, n).1.pc == Done(Checking(sys, r.q, r.attempts).1)
  {
    var left := AloneRedeem(sys, r, n);
    var (sys', verified) := Redeem(sys, r.q);
    if verified {
      AloneGiveBack(sys', r.(pc := AtGiveBack), left);
    } else if r.attempts >= DEVICE_BIND_FAIL_CAP {
      AloneWrong(sys, Wrong(r), left);
    } else {
      Stop(sys, Wrong(r), left);
    }
  }

  lemma AloneCount(sys: Sys, r: Req, n: nat)
    requires r.pc.AtCount? && IncrReply(sys.store, FailKey(r.q)) <= DEVICE_BIND_FAIL_CAP && n >= 8
    ensures var out := Checking(Counted(sys, r.q), r.q, IncrReply(sys.store, FailKey(r.q)));
            Alone(sys, r, n).0 == out.0 && Alone(sys, r, n).1.pc == Done(out.1)
  {
    var (sys1, r1) := Effect(sys, r, true);
    Go(sys, r, sys1, r1, n);
    AloneCheck(sys1, r1, n - 1);
  }

  lemma VerifyIsChecking(sys: Sys, q: Query)
    requires Challenged(sys.store, q)
    ensures Verify(sys, q) == Checking(Counted(sys, q), q, IncrReply(sys.store, FailKey(q)))
    ensures IncrReply(sys.store, FailKey(q)) <= DEVICE_BIND_FAIL_CAP
  {
  }

  lemma AloneArrival(sys: Sys, q: Query, n: nat)
    requires n >= 2
    ensures if Challenged(sys.store, q)
            then Alone(sys, Arrive(q), n) == Alone(sys, Arrive(q).(pc := AtCount), n - 2)
            else Alone(sys, Arrive(q), n).0 == sys && Alone(sys, Arrive(q), n).1.pc == Done(false)
  {
    var r := Arrive(q);
    if !r.pc.AtLock? {
      Stop(sys, r, n);
    } else if BindLocked(sys.store, q.appId, q.memberId) {
      Go(sys, r, sys, r.(pc := Done(false)), n);
      Stop(sys, r.(pc := Done(false)), n - 1);
    } else {
      Go(sys, r, sys, r.(pc := AtChallenge), n);
      if ChallengeMember(sys.store, q.appId, q.email) == Some(q.memberId) {
        Go(sys, r.(pc := AtChallenge), sys, r.(pc := AtCount), n - 1);
      } else {
        Go(sys, r.(pc := AtChallenge), sys, r.(pc := Done(false)), n - 1);
        Stop(sys, r.(pc := Done(false)), n - 2);
      }
    }
  }

  /** A verification that runs alone takes at most ten round trips and does exactly what the serial method does. */
  lemma SoloIsSerial(sys: Sys, q: Query, n: nat)
    requires n >= 10
    ensures Alone(sys, Arrive(q), n).0 == Verify(sys, q).0
    ensures Alone(sys, Arrive(q), n).1.pc == Done(Verify(sys, q).1)
  {
    AloneArrival(sys, q, n);
    if Challenged(sys.store, q) {
      VerifyIsChecking(sys, q);
      AloneCount(sys, Arrive(q).(pc := AtCount), n - 2);
    }
  }
}
