/** Runs of overlapping tries that meet the limits of `PassedWindow`: tries with the cooldown wait for the counter. */
module GatePeak {
  import opened Prelude
  import opened AuthKeys
  import opened RedisStore
  import opened SendWindows
  import opened Places
  import opened GateRuns

  ghost predicate Reachable(g: Limits, m: Machine) {
    exists steps :: m == Exec(g, steps)
  }

  lemma NextReachable(g: Limits, m: Machine, step: Step)
    requires Reachable(g, m)
    ensures Reachable(g, Next(g, m, step))
  {
    var steps :| m == Exec(g, steps);
    assert (steps + [step])[..|steps|] == steps;
    assert Next(g, m, step) == Exec(g, steps + [step]);
  }

  lemma Pause(g: Limits, m: Machine, d: nat) returns (m': Machine)
    requires Reachable(g, m)
    ensures Reachable(g, m') && m' == m.(store := Tick(m.store, d))
  {
    NextReachable(g, m, Step.Elsewhere(Wait(d)));
    m' := Next(g, m, Step.Elsewhere(Wait(d)));
  }

  // ----- tries that got the cooldown, one after the other -----

  /** `n` tries got the cooldown, a cooldown apart; none has been counted. */
  ghost predicate Held(g: Limits, m: Machine, n: nat) {
    && Reachable(g, m) && |m.reqs| == n && g.count !in m.store.counters
    && (forall j: nat | j < n :: m.reqs[j] == Req(AtCount, Some(j * g.every), None))
    && if n == 0 then m.store == EMPTY
       else m.store.now == (n - 1) * g.every && g.cooldown in m.store.docs
            && m.store.docs[g.cooldown].expiry == Some(m.store.now + g.every)
  }

  lemma Cools(g: Limits, m: Machine) returns (m': Machine)
    requires Reachable(g, m) && !LiveDoc(m.store, g.cooldown)
    ensures Reachable(g, m') && m'.store == SetNx(m.store, g.cooldown, g.every)
    ensures m'.reqs == m.reqs + [Req(AtCount, Some(m.store.now), None)]
  {
    NextReachable(g, m, Begin);
    var m1 := Next(g, m, Begin);
    NextReachable(g, m1, Advance(|m.reqs|));
    m' := Next(g, m1, Advance(|m.reqs|));
  }

  lemma OneHeld(g: Limits, m: Machine, n: nat) returns (m': Machine)
    requires Held(g, m, n)
    ensures Held(g, m', n + 1)
  {
    var m1 := m;
    if n > 0 {
      m1 := Pause(g, m, g.every);
      TimesMore(n - 1, g.every);
    }
    m' := Cools(g, m1);
  }

  lemma {:induction false} AllHeld(g: Limits, n: nat) returns (m: Machine)
    ensures Held(g, m, n)
  {
    if n == 0 {
      m := START;
      assert m == Exec(g, []);
    } else {
      var before := AllHeld(g, n - 1);
      m := OneHeld(g, before, n - 1);
    }
  }

  // ----- and are counted at once -----

  /** The tries from `a` to `b` were let pass, with nothing else changed and no time gone by. */
  ghost predicate LetPass(g: Limits, m: Machine, m': Machine, a: nat, b: nat) {
    && a <= b <= |m.reqs| && Reachable(g, m') && |m'.reqs| == |m.reqs| && m'.store.now == m.store.now
    && (a == b ==> m' == m)
    && (forall j: nat | j < |m.reqs| :: m'.reqs[j] ==
          if a <= j < b then m.reqs[j].(pc := Passed, passedAt := Some(m.store.now)) else m.reqs[j])
    && (b > a ==> LiveCounter(m'.store, g.count))
    && ReadCounter(m'.store, g.count) == ReadCounter(m.store, g.count) + b - a
    && (b > a ==> m'.store.counters[g.count].expiry
                  == if LiveCounter(m.store, g.count) then m.store.counters[g.count].expiry
                     else Some(m.store.now + g.window))
  }

  lemma CountsOne(g: Limits, m: Machine, i: nat) returns (m': Machine)
    requires Reachable(g, m) && i < |m.reqs| && m.reqs[i].pc == AtCount && ReadCounter(m.store, g.count) < g.cap
    requires LiveCounter(m.store, g.count) ==>
               m.store.counters[g.count].value >= 1 && m.store.counters[g.count].expiry.Some?
    ensures LetPass(g, m, m', i, i + 1)
  {
    NextReachable(g, m, Advance(i));
    m' := Next(g, m, Advance(i));
  }

  lemma {:induction false} CountsAll(g: Limits, m: Machine, a: nat, b: nat) returns (m': Machine)
    requires Reachable(g, m) && a <= b <= |m.reqs| && forall j: nat | a <= j < b :: m.reqs[j].pc == AtCount
    requires ReadCounter(m.store, g.count) + b - a <= g.cap
    requires LiveCounter(m.store, g.count) ==>
               m.store.counters[g.count].value >= 1 && m.store.counters[g.count].expiry.Some?
    ensures LetPass(g, m, m', a, b)
    decreases b
  {
    if a == b {
      m' := m;
    } else {
      var m1 := CountsAll(g, m, a, b - 1);
      m' := CountsOne(g, m1, b - 1);
    }
  }

  lemma PassedOnly(reqs: seq<Req>, a: nat, b: nat, from: nat, to: nat)
    requires a <= b <= |reqs|
    requires forall j: nat | j < |reqs| :: PassedIn(from, to)(reqs[j]) <==> a <= j < b
    ensures |Where(reqs, PassedIn(from, to))| == b - a
  {
    SpanIs(a, b);
    assert Where(reqs, PassedIn(from, to)) == Span(a, b);
  }

  // ----- the limit by the cooldown -----

  lemma CoverSteps(n: pos, t: pos)
    ensures Cover(1 + (n - 1) * t, t) == n
  {
    CoverOf(1 + (n - 1) * t, t, n);
    CoverOf(1 + (n - 1) * t, t, n - 1);
    TimesMore(n - 1, t);
  }

  /**
   Tries that take up to `delay` from cooldown to counter: as many pass in a single instant as there are cooldowns in
   that time, which is what the limit allows.
   */
  lemma CooldownLimitMet(g: Limits, n: pos) returns (steps: seq<Step>, from: nat, delay: nat)
    requires n <= g.cap
    ensures delay == (n - 1) * g.every && CountsWithin(Exec(g, steps), delay)
    ensures |Where(Exec(g, steps).reqs, PassedIn(from, from + 1))| == n == Cover(1 + delay, g.every)
  {
    var m := AllHeld(g, n);
    var m' := CountsAll(g, m, 0, n);
    from, delay := m.store.now, (n - 1) * g.every;
    PassedOnly(m'.reqs, 0, n, from, from + 1);
    HeldWithin(g, m, m', n);
    CoverSteps(n, g.every);
    steps :| m' == Exec(g, steps);
  }

  lemma HeldWithin(g: Limits, m: Machine, m': Machine, n: pos)
    requires Held(g, m, n) && LetPass(g, m, m', 0, n)
    ensures CountsWithin(m', (n - 1) * g.every)
  {
    forall i | 0 <= i < |m'.reqs|
      ensures m'.reqs[i].passedAt.value <= m'.reqs[i].cooledAt.value + (n - 1) * g.every
    {
      assert i * g.every >= 0;
    }
  }

  // ----- the limit by the counter -----

  /** One try has begun a life of the counter, which is in its last millisecond; the others wait. */
  ghost predicate LifeEnds(g: Limits, m: Machine) {
    && Reachable(g, m) && |m.reqs| == 2 * g.cap
    && LiveCounter(m.store, g.count) && m.store.counters[g.count].value == 1
    && m.store.counters[g.count].expiry == Some(m.store.now + 1)
    && m.reqs[0].pc == Passed && m.reqs[0].passedAt.Some? && m.reqs[0].passedAt.value < m.store.now
    && forall j: nat | 1 <= j < 2 * g.cap :: m.reqs[j].pc == AtCount && m.reqs[j].passedAt.None?
  }

  lemma LifeBegun(g: Limits) returns (m: Machine)
    requires g.window >= 2
    ensures LifeEnds(g, m)
  {
    var held := AllHeld(g, 2 * g.cap);
    var begun := CountsAll(g, held, 0, 1);
    m := Pause(g, begun, g.window - 1);
  }

  /** What was let pass in the last millisecond of one life and the first of the next. */
  ghost predicate BothPass(g: Limits, m: Machine, from: nat) {
    && Reachable(g, m) && |m.reqs| == 2 * g.cap && !PassedIn(from, from + 2)(m.reqs[0])
    && forall j: nat | 1 <= j < 2 * g.cap :: PassedIn(from, from + 2)(m.reqs[j])
  }

  lemma CapInLife(g: Limits, m: Machine) returns (m': Machine)
    requires LifeEnds(g, m)
    ensures Reachable(g, m') && m'.store.now == m.store.now + 1 && !LiveCounter(m'.store, g.count)
    ensures |m'.reqs| == |m.reqs| && m'.reqs[0] == m.reqs[0]
    ensures forall j: nat | 1 <= j < g.cap :: m'.reqs[j].passedAt == Some(m.store.now)
    ensures forall j: nat | g.cap <= j < 2 * g.cap :: m'.reqs[j] == m.reqs[j]
  {
    var full := CountsAll(g, m, 1, g.cap);
    m' := Pause(g, full, 1);
  }

  lemma CapInNext(g: Limits, m: Machine) returns (m': Machine)
    requires LifeEnds(g, m)
    ensures BothPass(g, m', m.store.now)
  {
    var m1 := CapInLife(g, m);
    m' := CountsAll(g, m1, g.cap, 2 * g.cap);
  }

  /**
   With the cooldowns long over: one try begins a life of the counter, the rest of the cap passes in its last
   millisecond and a whole cap in the next, which is what the limit allows for two milliseconds.
   */
  lemma CounterLimitMet(g: Limits) returns (steps: seq<Step>, from: nat)
    requires g.window >= 2
    ensures |Where(Exec(g, steps).reqs, PassedIn(from, from + 2))| == 2 * g.cap - 1
    ensures 2 * g.cap - 1 == g.cap * (Cover(2, g.window) + 1) - 1
  {
    var m := LifeBegun(g);
    var m' := CapInNext(g, m);
    from := m.store.now;
    PassedOnly(m'.reqs, 1, 2 * g.cap, from, from + 2);
    assert Cover(2 - g.window, g.window) == 0;
    steps :| m' == Exec(g, steps);
  }
}
