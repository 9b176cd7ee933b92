/**
 A gate under any interleaving: each try makes two round trips, one to the cooldown and one to the counter, and tries of
 other requests and the rest of the service come in between.
 */
module GateRuns {
  import opened Prelude
  import opened AuthKeys
  import opened RedisStore
  import opened FixedWindow
  import opened AuthLimits
  import opened SendWindows
  import opened Places

  datatype Pc = AtCooldown | AtCount | Passed | Refused

  /** When the try got the cooldown and when the counter let it pass. */
  datatype Req = Req(pc: Pc, cooledAt: Option<nat>, passedAt: Option<nat>)

  datatype Machine = Machine(store: Store, reqs: seq<Req>)

  datatype Step = Begin | Advance(i: nat) | Elsewhere(command: Command)

  const START := Machine(EMPTY, [])

  function Effect(g: Limits, s: Store, r: Req): (Store, Req) {
    match r.pc
    case AtCooldown =>
      (SetNx(s, g.cooldown, g.every),
       if LiveDoc(s, g.cooldown) then r.(pc := Refused) else r.(pc := AtCount, cooledAt := Some(s.now)))
    case AtCount =>
      (Incr(s, g.count, g.window),
       if IncrReply(s, g.count) <= g.cap then r.(pc := Passed, passedAt := Some(s.now)) else r.(pc := Refused))
    case _ => (s, r)
  }

  function Next(g: Limits, m: Machine, step: Step): Machine {
    match step
    case Begin => m.(reqs := m.reqs + [Req(AtCooldown, None, None)])
    case Advance(i) =>
      if i < |m.reqs| then
        var (s, r) := Effect(g, m.store, m.reqs[i]);
        Machine(s, m.reqs[i := r])
      else m
    case Elsewhere(c) => if Apart(g, c) then m.(store := Apply(m.store, c)) else m
  }

  function Exec(g: Limits, steps: seq<Step>): Machine {
    if steps == [] then START else Next(g, Exec(g, steps[..|steps| - 1]), steps[|steps| - 1])
  }

  function CooledIn(from: int, to: int): Req -> bool {
    (r: Req) => r.cooledAt.Some? && from <= r.cooledAt.value < to
  }

  function PassedIn(from: int, to: int): Req -> bool {
    (r: Req) => r.passedAt.Some? && from <= r.passedAt.value < to
  }

  // ----- the fields of a request -----

  predicate Consistent(r: Req, now: nat) {
    && (r.pc.AtCooldown? ==> r.cooledAt.None?)
    && (r.pc.AtCount? ==> r.cooledAt.Some?)
    && (r.pc.AtCooldown? || r.pc.AtCount? ==> r.passedAt.None?)
    && (r.cooledAt.Some? ==> r.cooledAt.value <= now)
    && (r.passedAt.Some? ==> r.cooledAt.Some? && r.cooledAt.value <= r.passedAt.value <= now)
  }

  ghost predicate AllConsistent(m: Machine) {
    forall i | 0 <= i < |m.reqs| :: Consistent(m.reqs[i], m.store.now)
  }

  lemma NextConsistent(g: Limits, m: Machine, step: Step)
    requires AllConsistent(m)
    ensures AllConsistent(Next(g, m, step)) && m.store.now <= Next(g, m, step).store.now
  {
  }

  // ----- the cooldown -----

  /** The tries that got the cooldown in a window are a cooldown apart, and the last of them is still in the store. */
  ghost predicate Spaced(g: Limits, m: Machine, from: int, to: int) {
    var n := |Where(m.reqs, CooledIn(from, to))|;
    n > 0 ==>
      && g.cooldown in m.store.docs && m.store.docs[g.cooldown].expiry.Some?
      && from + n * g.every <= m.store.docs[g.cooldown].expiry.value
      && (n - 1) * g.every < to - from
  }

  lemma CoolsOne(g: Limits, m: Machine, i: nat, from: int, to: int)
    requires AllConsistent(m) && Spaced(g, m, from, to) && i < |m.reqs| && m.reqs[i].pc.AtCooldown?
    requires !LiveDoc(m.store, g.cooldown)
    ensures Spaced(g, Next(g, m, Advance(i)), from, to)
  {
    var m', n := Next(g, m, Advance(i)), |Where(m.reqs, CooledIn(from, to))|;
    WhereUpdate(m.reqs, i, m'.reqs[i], CooledIn(from, to));
    TimesMore(n, g.every);
    if from <= m.store.now < to {
      assert from + n * g.every <= m.store.now;
    }
  }

  lemma SpacedOn(g: Limits, m: Machine, m': Machine, from: int, to: int)
    requires Spaced(g, m, from, to)
    requires |Where(m'.reqs, CooledIn(from, to))| == |Where(m.reqs, CooledIn(from, to))|
    requires g.cooldown in m.store.docs ==>
               g.cooldown in m'.store.docs && m'.store.docs[g.cooldown] == m.store.docs[g.cooldown]
    ensures Spaced(g, m', from, to)
  {
  }

  lemma NextSpaced(g: Limits, m: Machine, step: Step, from: int, to: int)
    requires AllConsistent(m) && Spaced(g, m, from, to)
    ensures Spaced(g, Next(g, m, step), from, to)
  {
    var m' := Next(g, m, step);
    match step
    case Begin =>
      WhereAppend(m.reqs, Req(AtCooldown, None, None), CooledIn(from, to));
    case Advance(i) =>
      if i < |m.reqs| {
        if m.reqs[i].pc.AtCooldown? && !LiveDoc(m.store, g.cooldown) {
          CoolsOne(g, m, i, from, to);
        } else {
          WhereUpdate(m.reqs, i, m'.reqs[i], CooledIn(from, to));
          SpacedOn(g, m, m', from, to);
        }
      }
    case Elsewhere(c) => SpacedOn(g, m, m', from, to);
  }

  // ----- the counter -----

  ghost predicate Metered(g: Limits, m: Machine, from: nat, to: nat)
    requires from <= to
  {
    Balanced(m.store, |Where(m.reqs, PassedIn(from, to))|, g.count, g.window, g.cap, from, to)
  }

  lemma AdvanceMetered(g: Limits, m: Machine, i: nat, from: nat, to: nat)
    requires AllConsistent(m) && from < to && Metered(g, m, from, to) && i < |m.reqs|
    ensures Metered(g, Next(g, m, Advance(i)), from, to)
  {
    var m', spent := Next(g, m, Advance(i)), |Where(m.reqs, PassedIn(from, to))|;
    WhereUpdate(m.reqs, i, m'.reqs[i], PassedIn(from, to));
    if m.reqs[i].pc.AtCount? {
      AttemptKeepsBalance(m.store, spent, g.count, g.window, g.cap, from, to);
    } else if m.reqs[i].pc.AtCooldown? {
      OthersKeepBalance(m.store, WriteNew(g.cooldown, g.every), spent, g.count, g.window, g.cap, from, to);
    }
  }

  lemma NextMetered(g: Limits, m: Machine, step: Step, from: nat, to: nat)
    requires AllConsistent(m) && from < to && Metered(g, m, from, to)
    ensures Metered(g, Next(g, m, step), from, to)
  {
    match step
    case Begin => WhereAppend(m.reqs, Req(AtCooldown, None, None), PassedIn(from, to));
    case Advance(i) =>
      if i < |m.reqs| {
        AdvanceMetered(g, m, i, from, to);
      }
    case Elsewhere(c) =>
      if Apart(g, c) {
        OthersKeepBalance(m.store, c, |Where(m.reqs, PassedIn(from, to))|, g.count, g.window, g.cap, from, to);
      }
  }

  // ----- any run -----

  lemma {:induction false} ExecSpaced(g: Limits, steps: seq<Step>, from: int, to: int)
    ensures AllConsistent(Exec(g, steps)) && Spaced(g, Exec(g, steps), from, to)
  {
    if steps == [] {
      assert Where(START.reqs, CooledIn(from, to)) == {};
    } else {
      var init, step := steps[..|steps| - 1], steps[|steps| - 1];
      ExecSpaced(g, init, from, to);
      NextConsistent(g, Exec(g, init), step);
      NextSpaced(g, Exec(g, init), step, from, to);
    }
  }

  lemma {:induction false} ExecMetered(g: Limits, steps: seq<Step>, from: nat, to: nat)
    requires from < to
    ensures AllConsistent(Exec(g, steps)) && Metered(g, Exec(g, steps), from, to)
  {
    if steps == [] {
      assert Where(START.reqs, PassedIn(from, to)) == {};
      RunKeepsBalance([], g.count, g.window, g.cap, from, to);
    } else {
      var init, step := steps[..|steps| - 1], steps[|steps| - 1];
      ExecMetered(g, init, from, to);
      NextConsistent(g, Exec(g, init), step);
      NextMetered(g, Exec(g, init), step, from, to);
    }
  }

  /** No try took longer than `delay` from the cooldown to the counter. */
  ghost predicate CountsWithin(m: Machine, delay: nat) {
    forall i | 0 <= i < |m.reqs| && m.reqs[i].passedAt.Some? && m.reqs[i].cooledAt.Some? ::
      m.reqs[i].passedAt.value <= m.reqs[i].cooledAt.value + delay
  }

  lemma SpacedCover(n: nat, every: pos, length: int)
    requires n > 0 ==> (n - 1) * every < length
    ensures n <= Cover(length, every)
  {
    if n > 0 {
      CoverOf(length, every, n - 1);
    }
  }

  /**
   Over every interleaving, in any window of length L: the counter lets at most cap * (ceiling(L / ttl) + 1) - 1 tries
   pass, and with at most `delay` from cooldown to counter there is one cooldown for each, begun in L + delay.
   */
  lemma PassedWindow(g: Limits, steps: seq<Step>, from: nat, to: nat, delay: nat)
    requires from < to && CountsWithin(Exec(g, steps), delay)
    ensures |Where(Exec(g, steps).reqs, PassedIn(from, to))| <= g.cap * (Cover(to - from, g.window) + 1) - 1
    ensures |Where(Exec(g, steps).reqs, PassedIn(from, to))| <= Cover(to - from + delay, g.every)
  {
    var reqs := Exec(g, steps).reqs;
    ExecMetered(g, steps, from, to);
    MeteredBound(g, Exec(g, steps), from, to);
    ExecSpaced(g, steps, from - delay, to);
    WhereWeaker(reqs, PassedIn(from, to), CooledIn(from - delay, to));
    SpacedCover(|Where(reqs, CooledIn(from - delay, to))|, g.every, to - from + delay);
  }

  lemma MeteredBound(g: Limits, m: Machine, from: nat, to: nat)
    requires from < to && Metered(g, m, from, to)
    ensures |Where(m.reqs, PassedIn(from, to))| <= g.cap * (Cover(to - from, g.window) + 1) - 1
  {
    ScaledCover(g.cap, 1, Cover(to - from, g.window) + 1);
  }

  /** Token mails and bind mails of one member, with both round trips. */
  lemma MailsInterleaved(kind: IssueKind, appId: string, memberId: string, steps: seq<Step>, from: nat, to: nat,
                         delay: nat)
    requires from < to
    ensures var m := Exec(TokenLimits(kind, memberId), steps);
            CountsWithin(m, delay) ==>
              && |Where(m.reqs, PassedIn(from, to))| <= 5 * (Cover(to - from, 3600 * SECOND) + 1) - 1
              && |Where(m.reqs, PassedIn(from, to))| <= Cover(to - from + delay, 60 * SECOND)
    ensures var m := Exec(BindLimits(appId, memberId), steps);
            CountsWithin(m, delay) ==>
              && |Where(m.reqs, PassedIn(from, to))| <= 5 * (Cover(to - from, 3600 * SECOND) + 1) - 1
              && |Where(m.reqs, PassedIn(from, to))| <= Cover(to - from + delay, 60 * SECOND)
  {
    if CountsWithin(Exec(TokenLimits(kind, memberId), steps), delay) {
      PassedWindow(TokenLimits(kind, memberId), steps, from, to, delay);
    }
    if CountsWithin(Exec(BindLimits(appId, memberId), steps), delay) {
      PassedWindow(BindLimits(appId, memberId), steps, from, to, delay);
    }
  }
}
