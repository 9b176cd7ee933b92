/**
 How many mails a gate lets through in a window, when every try is one step: the cooldown comes before the counter, and
 a try that is refused by the counter has used up the cooldown all the same.
 */
module SendWindows {
  import opened Prelude
  import opened AuthKeys
  import opened RedisStore
  import opened AuthLimits

  /** A cooldown of `every`, and at most `cap` per life of a counter that lives for `window`. */
  datatype Limits = Limits(cooldown: Key, count: Key, every: pos, window: pos, cap: pos)

  function TokenLimits(kind: IssueKind, memberId: string): Limits {
    Limits(IssueCooldown(kind, memberId), IssueCount(kind, memberId), ISSUE_COOLDOWN_TTL, ISSUE_COUNT_TTL,
           ISSUE_COUNT_CAP)
  }

  function BindLimits(appId: string, memberId: string): Limits {
    Limits(DeviceBindSendCooldown(appId, memberId), DeviceBindSendCount(appId, memberId),
           DEVICE_BIND_SEND_COOLDOWN_TTL, DEVICE_BIND_SEND_COUNT_TTL, DEVICE_BIND_SEND_COUNT_CAP)
  }

  /** A whole cap fits into one life of the counter. */
  ghost predicate Roomy(g: Limits) {
    g.cap * g.every <= g.window
  }

  // ----- tries -----

  datatype Op = Try | Other(command: Command)

  /** The command leaves the two keys of the gate alone. */
  predicate Apart(g: Limits, c: Command) {
    && (c.Increment? || c.Decrement? || c.DeleteCounter? ==> c.key != g.count)
    && (c.Write? || c.WriteNew? || c.DeleteDoc? ==> c.key != g.cooldown)
  }

  function Do(g: Limits, s: Store, op: Op): Store {
    match op
    case Try => Gate(s, g.cooldown, g.every, g.count, g.window)
    case Other(c) => if Apart(g, c) then Apply(s, c) else s
  }

  function Play(g: Limits, s: Store, ops: seq<Op>): Store
    decreases |ops|
  {
    if ops == [] then s else Play(g, Do(g, s, ops[0]), ops[1..])
  }

  predicate Passes(g: Limits, s: Store, op: Op, from: int, to: int) {
    op.Try? && GateOpen(s, g.cooldown, g.count, g.cap) && from <= s.now < to
  }

  /** How many tries pass in the window. */
  function Sends(g: Limits, s: Store, ops: seq<Op>, from: int, to: int): nat
    decreases |ops|
  {
    if ops == [] then 0
    else (if Passes(g, s, ops[0], from, to) then 1 else 0) + Sends(g, Do(g, s, ops[0]), ops[1..], from, to)
  }

  // ----- the most that can pass -----

  function Min(a: int, b: int): int {
    if a < b then a else b
  }

  /** With a dead counter, from `c` on: up to `cap` in the new life, then the same again. */
  function Rest(g: Limits, c: int, to: int): nat
    decreases Max(to - c, 0)
  {
    if c >= to then 0 else Min(g.cap, Cover(to - c, g.every)) + Rest(g, c + g.window, to)
  }

  /** How many more pass in the life that ends at `e`, with `left` still to go and the cooldown over at `c`. */
  function InThisLife(g: Limits, c: int, left: nat, e: int, to: int): nat {
    Min(left, Cover(Min(e, to) - c, g.every))
  }

  function Most(g: Limits, c: int, left: nat, e: int, to: int): nat {
    var k := InThisLife(g, c, left, e, to);
    k + Rest(g, Max(e, c + g.every * k), to)
  }

  lemma CoverStep(x: int, t: pos)
    ensures Cover(x, t) <= 1 + Cover(x - t, t)
    ensures x > 0 ==> Cover(x, t) == 1 + Cover(x - t, t)
    ensures x <= 0 ==> Cover(x, t) == 0
  {
  }

  lemma {:induction false} CoverOf(x: int, t: pos, n: nat)
    ensures Cover(x, t) <= n <==> x <= n * t
    decreases n
  {
    if n > 0 {
      CoverOf(x - t, t, n - 1);
      assert n * t == (n - 1) * t + t;
    }
  }

  lemma {:induction false} RestStep(g: Limits, c: int, to: int)
    requires Roomy(g)
    ensures Rest(g, c, to) <= 1 + Rest(g, c + g.every, to)
    decreases Max(to - c, 0)
  {
    if c < to {
      CoverStep(to - c, g.every);
      RestStep(g, c + g.window, to);
      if Cover(to - c, g.every) <= g.cap {
        CoverOf(to - c, g.every, g.cap);
      }
    }
  }

  lemma {:induction false} RestMonotone(g: Limits, c: int, c': int, to: int)
    requires c <= c'
    ensures Rest(g, c', to) <= Rest(g, c, to)
    decreases Max(to - c, 0)
  {
    if c' < to {
      CoverMonotone(to - c', to - c, g.every);
      RestMonotone(g, c + g.window, c' + g.window, to);
    }
  }

  /** Nothing more passes in a life that is over, or used up. */
  lemma LifeOver(g: Limits, c: int, left: nat, e: int, to: int)
    ensures e <= c || left == 0 ==> Most(g, c, left, e, to) == Rest(g, Max(e, c), to)
  {
  }

  /** A try that passes at `c` costs exactly one. */
  lemma PassInLife(g: Limits, c: int, left: pos, e: int, to: int)
    requires c < e && c < to
    ensures Most(g, c, left, e, to) == 1 + Most(g, c + g.every, left - 1, e, to)
  {
    CoverStep(Min(e, to) - c, g.every);
    var k := InThisLife(g, c, left, e, to);
    assert InThisLife(g, c + g.every, left - 1, e, to) == k - 1;
    assert c + g.every + g.every * (k - 1) == c + g.every * k;
  }

  lemma NewLifeCutShort(g: Limits, c: int, to: int)
    requires c < to <= c + g.window
    ensures Rest(g, c, to) == 1 + Most(g, c + g.every, g.cap - 1, c + g.window, to)
  {
    CoverStep(to - c, g.every);
    assert Rest(g, c + g.window, to) == 0;
  }

  lemma WholeNewLife(g: Limits, c: int, to: int)
    requires Roomy(g) && c + g.window < to
    ensures Rest(g, c, to) == 1 + Most(g, c + g.every, g.cap - 1, c + g.window, to)
  {
    var n := g.cap - 1;
    assert n * g.every == g.cap * g.every - g.every == g.every * n;
    NotCovered(g.window - g.every, g.every, n);
    NotCovered(to - c, g.every, g.cap);
    assert InThisLife(g, c + g.every, n, c + g.window, to) == n;
  }

  /** So does one that begins a new life. */
  lemma PassNewLife(g: Limits, c: int, to: int)
    requires Roomy(g) && c < to
    ensures Rest(g, c, to) == 1 + Most(g, c + g.every, g.cap - 1, c + g.window, to)
  {
    if to <= c + g.window {
      NewLifeCutShort(g, c, to);
    } else {
      WholeNewLife(g, c, to);
    }
  }

  lemma NotCovered(x: int, t: pos, n: nat)
    requires x >= n * t
    ensures Cover(x, t) >= n
  {
    if n > 0 {
      CoverOf(x, t, n - 1);
      assert (n - 1) * t == n * t - t;
    }
  }

  /** Waiting never helps. */
  lemma MostMonotone(g: Limits, c: int, c': int, left: nat, e: int, to: int)
    requires Roomy(g) && c <= c'
    ensures Most(g, c', left, e, to) <= Most(g, c, left, e, to)
  {
    var k, k' := InThisLife(g, c, left, e, to), InThisLife(g, c', left, e, to);
    CoverMonotone(Min(e, to) - c', Min(e, to) - c, g.every);
    if k' == k {
      RestMonotone(g, Max(e, c + g.every * k), Max(e, c' + g.every * k), to);
    } else {
      LifeUsed(g, c, c', left, e, to);
    }
  }

  /** When waiting loses a place in this life, the next life begins within one cooldown of where it would have. */
  lemma LifeUsed(g: Limits, c: int, c': int, left: nat, e: int, to: int)
    requires Roomy(g) && c <= c' && InThisLife(g, c', left, e, to) < InThisLife(g, c, left, e, to)
    ensures Most(g, c', left, e, to) <= Most(g, c, left, e, to)
  {
    var k, k' := InThisLife(g, c, left, e, to), InThisLife(g, c', left, e, to);
    CoverOf(Min(e, to) - c', g.every, k');
    CoverOf(Min(e, to) - c, g.every, k - 1);
    assert k' * g.every == g.every * k' && (k - 1) * g.every == g.every * k - g.every;
    var next, next' := Max(e, c + g.every * k), Max(e, c' + g.every * k');
    if e <= to {
      assert next <= next' + g.every;
      RestStep(g, next', to);
      RestMonotone(g, next, next' + g.every, to);
    }
  }

  // ----- the same for a store -----

  /** What the gate's own commands leave: live entries end within their times to live, a live counter has counted. */
  ghost predicate Fits(g: Limits, s: Store) {
    && (LiveDoc(s, g.cooldown)
      ==> s.docs[g.cooldown].expiry.Some? && s.docs[g.cooldown].expiry.value <= s.now + g.every)
    && (LiveCounter(s, g.count) ==>
         && s.counters[g.count].expiry.Some? && s.counters[g.count].expiry.value <= s.now + g.window
         && s.counters[g.count].value >= 1)
  }

  function Ready(g: Limits, s: Store): nat {
    if LiveDoc(s, g.cooldown) && s.docs[g.cooldown].expiry.Some? then s.docs[g.cooldown].expiry.value else s.now
  }

  function Left(g: Limits, s: Store): nat {
    if LiveCounter(s, g.count) then Max(0, g.cap - s.counters[g.count].value) else 0
  }

  function End(g: Limits, s: Store): nat {
    if LiveCounter(s, g.count) && s.counters[g.count].expiry.Some? then s.counters[g.count].expiry.value else s.now
  }

  /** The most that can pass from now until `to`. */
  function MostSends(g: Limits, s: Store, to: int): nat {
    Most(g, Ready(g, s), Left(g, s), End(g, s), to)
  }

  lemma TryKeepsFit(g: Limits, s: Store)
    requires Fits(g, s)
    ensures Fits(g, Do(g, s, Try)) && Do(g, s, Try).now == s.now
  {
  }

  lemma OpenTry(g: Limits, s: Store)
    requires Fits(g, s) && !LiveDoc(s, g.cooldown)
    ensures var s' := Do(g, s, Try);
            && Ready(g, s') == s.now + g.every
            && (LiveCounter(s, g.count) ==>
                 End(g, s') == End(g, s) > s.now && Left(g, s') == Max(0, Left(g, s) - 1))
            && (!LiveCounter(s, g.count) ==> End(g, s') == s.now + g.window && Left(g, s') == g.cap - 1)
  {
  }

  /** The cost of a try at `now`, when the cooldown is over. */
  lemma MostAfterTry(g: Limits, now: int, live: bool, left: nat, e: int, left': nat, e': int, to: int)
    requires Roomy(g)
    requires if live then now < e == e' && left' == Max(0, left - 1)
             else left == 0 && e == now && left' == g.cap - 1 && e' == now + g.window
    ensures Most(g, now + g.every, left', e', to) <= Most(g, now, left, e, to)
    ensures now < to && (live ==> left > 0) ==> Most(g, now + g.every, left', e', to) + 1 == Most(g, now, left, e, to)
  {
    if now >= to {
      MostLate(g, now + g.every, left', e', to);
    } else if !live {
      LifeOver(g, now, left, e, to);
      PassNewLife(g, now, to);
    } else if left > 0 {
      PassInLife(g, now, left, e, to);
    } else {
      LifeOver(g, now, left, e, to);
      LifeOver(g, now + g.every, 0, e, to);
      RestMonotone(g, Max(e, now), Max(e, now + g.every), to);
    }
  }

  lemma TryCosts(g: Limits, s: Store, to: int)
    requires Roomy(g) && Fits(g, s)
    ensures MostSends(g, Do(g, s, Try), to) + (if Passes(g, s, Try, s.now, to) then 1 else 0) <= MostSends(g, s, to)
    ensures Passes(g, s, Try, s.now, to) ==> MostSends(g, Do(g, s, Try), to) + 1 == MostSends(g, s, to)
  {
    if !LiveDoc(s, g.cooldown) {
      OpenTry(g, s);
      var s' := Do(g, s, Try);
      MostAfterTry(g, s.now, LiveCounter(s, g.count), Left(g, s), End(g, s), Left(g, s'), End(g, s'), to);
    } else {
      assert Do(g, s, Try) == s;
    }
  }

  lemma MostLate(g: Limits, c: int, left: nat, e: int, to: int)
    requires c >= to
    ensures Most(g, c, left, e, to) == 0
  {
  }

  lemma OtherNeverHelps(g: Limits, s: Store, c: Command, to: int)
    requires Roomy(g) && Fits(g, s)
    ensures Fits(g, Do(g, s, Other(c))) && s.now <= Do(g, s, Other(c)).now
    ensures MostSends(g, Do(g, s, Other(c)), to) <= MostSends(g, s, to)
  {
    var s' := Do(g, s, Other(c));
    if Apart(g, c) && c.Wait? {
      var ready, ready', left, e := Ready(g, s), Ready(g, s'), Left(g, s), End(g, s);
      assert ready <= ready';
      MostMonotone(g, ready, ready', left, e, to);
      if !LiveCounter(s', g.count) {
        LifeOver(g, ready', left, e, to);
        LifeOver(g, ready', 0, s'.now, to);
      }
    } else {
      OtherCommand(g, s, c);
    }
  }

  lemma OtherCommand(g: Limits, s: Store, c: Command)
    requires !Apart(g, c) || !c.Wait?
    ensures var s' := Do(g, s, Other(c));
            && s'.now == s.now && Ready(g, s') == Ready(g, s) && Left(g, s') == Left(g, s) && End(g, s') == End(g, s)
            && (Fits(g, s) ==> Fits(g, s'))
  {
  }

  lemma DoCosts(g: Limits, s: Store, op: Op, to: int)
    requires Roomy(g) && Fits(g, s)
    ensures Fits(g, Do(g, s, op)) && s.now <= Do(g, s, op).now
    ensures MostSends(g, Do(g, s, op), to) + (if Passes(g, s, op, s.now, to) then 1 else 0) <= MostSends(g, s, to)
  {
    match op
    case Try =>
      TryKeepsFit(g, s);
      TryCosts(g, s, to);
    case Other(c) => OtherNeverHelps(g, s, c, to);
  }

  /** No run lets more through. */
  lemma {:induction false} NeverMore(g: Limits, s: Store, ops: seq<Op>, from: int, to: int)
    requires Roomy(g) && Fits(g, s)
    ensures Sends(g, s, ops, from, to) <= MostSends(g, s, to)
    decreases |ops|
  {
    if ops == [] {
    } else {
      DoCosts(g, s, ops[0], to);
      NeverMore(g, Do(g, s, ops[0]), ops[1..], from, to);
    }
  }

  // ----- and that many do pass -----

  lemma WaitInLife(g: Limits, s: Store, to: int)
    requires Roomy(g) && Fits(g, s) && InThisLife(g, Ready(g, s), Left(g, s), End(g, s), to) > 0
    ensures var s' := Tick(s, Ready(g, s) - s.now);
            Fits(g, s') && Passes(g, s', Try, s.now, to) && MostSends(g, s', to) == MostSends(g, s, to)
  {
    CoverStep(Min(End(g, s), to) - Ready(g, s), g.every);
  }

  lemma WaitForLife(g: Limits, s: Store, to: int)
    requires Roomy(g) && Fits(g, s) && InThisLife(g, Ready(g, s), Left(g, s), End(g, s), to) == 0
    requires MostSends(g, s, to) > 0
    ensures var s' := Tick(s, Max(End(g, s), Ready(g, s)) - s.now);
            Fits(g, s') && Passes(g, s', Try, s.now, to) && MostSends(g, s', to) == MostSends(g, s, to)
  {
    var next := Max(End(g, s), Ready(g, s));
    assert MostSends(g, s, to) == Rest(g, next, to);
    LifeOver(g, next, 0, next, to);
  }

  /** Waiting for the next try that can pass loses nothing. */
  lemma WaitForNext(g: Limits, s: Store, to: int) returns (d: nat)
    requires Roomy(g) && Fits(g, s) && MostSends(g, s, to) > 0
    ensures var s' := Do(g, s, Other(Wait(d)));
            && Fits(g, s') && Passes(g, s', Try, s.now, to) && MostSends(g, s', to) == MostSends(g, s, to)
  {
    if InThisLife(g, Ready(g, s), Left(g, s), End(g, s), to) > 0 {
      d := Ready(g, s) - s.now;
      WaitInLife(g, s, to);
    } else {
      d := Max(End(g, s), Ready(g, s)) - s.now;
      WaitForLife(g, s, to);
    }
  }

  /** Nothing but tries and waits. */
  ghost predicate Plain(ops: seq<Op>) {
    forall i | 0 <= i < |ops| :: ops[i].Try? || ops[i].command.Wait?
  }

  /** A run of tries and waits that sends so many, and ends before `to`. */
  lemma {:induction false} ThatManyPass(g: Limits, s: Store, to: int) returns (ops: seq<Op>)
    requires Roomy(g) && Fits(g, s)
    ensures Sends(g, s, ops, s.now, to) == MostSends(g, s, to)
    ensures Plain(ops) && (s.now < to ==> Play(g, s, ops).now < to)
    decreases MostSends(g, s, to)
  {
    ops := [];
    if MostSends(g, s, to) > 0 {
      var d := WaitForNext(g, s, to);
      var s1 := Do(g, s, Other(Wait(d)));
      TryKeepsFit(g, s1);
      TryCosts(g, s1, to);
      var rest := ThatManyPass(g, Do(g, s1, Try), to);
      SendsEarlier(g, Do(g, s1, Try), rest, s.now, s1.now, to);
      ops := [Other(Wait(d)), Try] + rest;
      assert ops[1..] == [Try] + rest && ops[1..][1..] == rest;
    }
  }

  /** Before the run begins nothing passes. */
  lemma {:induction false} SendsEarlier(g: Limits, s: Store, ops: seq<Op>, from: int, from': int, to: int)
    requires Roomy(g) && Fits(g, s) && from <= from' <= s.now
    ensures Sends(g, s, ops, from, to) == Sends(g, s, ops, from', to)
    decreases |ops|
  {
    if ops == [] {
    } else {
      DoCosts(g, s, ops[0], to);
      SendsEarlier(g, Do(g, s, ops[0]), ops[1..], from, from', to);
    }
  }

  // ----- when the cap is the limit for the window that opens now -----

  /**
   Either nothing more passes in the life of the counter that is running, or so late that the next life cannot make up
   more than the cap before the window closes.
   */
  predicate CapHolds(g: Limits, s: Store) {
    var to := s.now + g.window;
    var k := InThisLife(g, Ready(g, s), Left(g, s), End(g, s), to);
    k == 0 || k + Cover(to - Max(End(g, s), Ready(g, s) + g.every * k), g.every) <= g.cap
  }

  lemma WithinOneLife(g: Limits, c: int, to: int)
    requires to <= c + g.window
    ensures Rest(g, c, to) == Min(g.cap, Cover(to - c, g.every))
  {
  }

  ghost predicate NeverOver(g: Limits, s: Store, to: int, n: int) {
    forall ops :: Sends(g, s, ops, s.now, to) <= n
  }

  lemma NeverOverIff(g: Limits, s: Store, to: int, n: int)
    requires Roomy(g) && Fits(g, s)
    ensures NeverOver(g, s, to, n) <==> MostSends(g, s, to) <= n
  {
    forall ops
      ensures Sends(g, s, ops, s.now, to) <= MostSends(g, s, to)
    {
      NeverMore(g, s, ops, s.now, to);
    }
    var ops := ThatManyPass(g, s, to);
    assert Sends(g, s, ops, s.now, to) == MostSends(g, s, to);
  }

  /**
   At most `cap` pass in the time to live that begins now, however the run goes on, exactly when `CapHolds` now; it does
   when the counter is dead or used up.
   */
  lemma CapHoldsIff(g: Limits, s: Store)
    requires Roomy(g) && Fits(g, s)
    ensures CapHolds(g, s) <==> NeverOver(g, s, s.now + g.window, g.cap)
    ensures !LiveCounter(s, g.count) || ReadCounter(s, g.count) >= g.cap ==> CapHolds(g, s)
  {
    var to := s.now + g.window;
    var k := InThisLife(g, Ready(g, s), Left(g, s), End(g, s), to);
    WithinOneLife(g, Max(End(g, s), Ready(g, s) + g.every * k), to);
    NeverOverIff(g, s, to, g.cap);
  }

  // ----- windows over whole runs -----

  /** The first `n` steps of a cover. */
  lemma {:induction false} CoverSplit(x: int, t: pos, n: nat)
    ensures n <= Cover(x, t) ==> Cover(x - t * n, t) == Cover(x, t) - n
    ensures n >= Cover(x, t) ==> Cover(x - t * n, t) == 0
    decreases n
  {
    if n > 0 {
      CoverStep(x, t);
      CoverSplit(x - t, t, n - 1);
      assert x - t - t * (n - 1) == x - t * n;
      CoverStep(x - t * n, t);
    }
  }

  lemma {:induction false} RestByCooldown(g: Limits, c: int, to: int)
    requires Roomy(g)
    ensures Rest(g, c, to) <= Cover(to - c, g.every)
    decreases Max(to - c, 0)
  {
    if c < to {
      RestByCooldown(g, c + g.window, to);
      CoverSplit(to - c, g.every, g.cap);
      CoverMonotone(to - c - g.window, to - c - g.every * g.cap, g.every);
    }
  }

  lemma {:induction false} RestByWindow(g: Limits, c: int, to: int)
    ensures Rest(g, c, to) <= g.cap * Cover(to - c, g.window)
    decreases Max(to - c, 0)
  {
    if c < to {
      RestByWindow(g, c + g.window, to);
      var n := Cover(to - c - g.window, g.window);
      assert Cover(to - c, g.window) == 1 + n && g.cap * (1 + n) == g.cap + g.cap * n;
    }
  }

  lemma ScaledCover(cap: pos, x: nat, y: nat)
    requires x <= y
    ensures cap * x <= cap * y
  {
  }

  lemma MostByCooldown(g: Limits, c: int, left: nat, e: int, to: int)
    requires Roomy(g)
    ensures Most(g, c, left, e, to) <= Cover(to - c, g.every)
  {
    var k := InThisLife(g, c, left, e, to);
    var next := Max(e, c + g.every * k);
    RestByCooldown(g, next, to);
    CoverMonotone(Min(e, to) - c, to - c, g.every);
    CoverSplit(to - c, g.every, k);
    CoverMonotone(to - next, to - c - g.every * k, g.every);
  }

  lemma MostByWindow(g: Limits, c: int, left: nat, e: int, to: int, from: int)
    requires from <= e && left < g.cap
    ensures Most(g, c, left, e, to) <= g.cap * (Cover(to - from, g.window) + 1) - 1
  {
    var next := Max(e, c + g.every * InThisLife(g, c, left, e, to));
    RestByWindow(g, next, to);
    CoverMonotone(to - next, to - from, g.window);
    ScaledCover(g.cap, Cover(to - next, g.window), Cover(to - from, g.window));
    assert g.cap * (Cover(to - from, g.window) + 1) == g.cap * Cover(to - from, g.window) + g.cap;
  }

  lemma MostSendsBounds(g: Limits, s: Store, from: int, to: int)
    requires Roomy(g) && Fits(g, s) && from <= s.now
    ensures MostSends(g, s, to) <= Cover(to - from, g.every)
    ensures MostSends(g, s, to) <= g.cap * (Cover(to - from, g.window) + 1) - 1
  {
    MostByCooldown(g, Ready(g, s), Left(g, s), End(g, s), to);
    CoverMonotone(to - Ready(g, s), to - from, g.every);
    MostByWindow(g, Ready(g, s), Left(g, s), End(g, s), to, from);
  }

  /** Both limits in any window of any run: one for each cooldown begun, and the cap once more than there are lives. */
  lemma {:induction false} WindowSends(g: Limits, s: Store, ops: seq<Op>, from: int, to: int)
    requires Roomy(g) && Fits(g, s)
    ensures Sends(g, s, ops, from, to) <= Cover(to - from, g.every)
    ensures Sends(g, s, ops, from, to) <= g.cap * (Cover(to - from, g.window) + 1) - 1
    decreases |ops|
  {
    if from <= s.now {
      NeverMore(g, s, ops, from, to);
      MostSendsBounds(g, s, from, to);
    } else if ops != [] {
      DoCosts(g, s, ops[0], to);
      WindowSends(g, Do(g, s, ops[0]), ops[1..], from, to);
    } else {
      ScaledCover(g.cap, 1, Cover(to - from, g.window) + 1);
    }
  }

  /**
   Token mails and bind mails of one member in a window of length L: at most ceiling(L / 1 min) and 5 * (ceiling(L / 1
   h) + 1) - 1.
   */
  lemma MailWindows(kind: IssueKind, appId: string, memberId: string, ops: seq<Op>, from: int, to: int)
    ensures var n := Sends(TokenLimits(kind, memberId), EMPTY, ops, from, to);
            n <= Cover(to - from, 60 * SECOND) && n <= 5 * (Cover(to - from, 3600 * SECOND) + 1) - 1
    ensures var n := Sends(BindLimits(appId, memberId), EMPTY, ops, from, to);
            n <= Cover(to - from, 60 * SECOND) && n <= 5 * (Cover(to - from, 3600 * SECOND) + 1) - 1
  {
    WindowSends(TokenLimits(kind, memberId), EMPTY, ops, from, to);
    WindowSends(BindLimits(appId, memberId), EMPTY, ops, from, to);
  }

  // ----- an hour with nine mails -----

  lemma {:induction false} PlayThen(g: Limits, s: Store, ops: seq<Op>, more: seq<Op>, from: int, to: int)
    ensures Play(g, s, ops + more) == Play(g, Play(g, s, ops), more)
    ensures Sends(g, s, ops + more, from, to) == Sends(g, s, ops, from, to) + Sends(g, Play(g, s, ops), more, from, to)
    decreases |ops|
  {
    if ops == [] {
      assert ops + more == more;
    } else {
      assert (ops + more)[1..] == ops[1..] + more;
      PlayThen(g, Do(g, s, ops[0]), ops[1..], more, from, to);
    }
  }

  /** One try, and then a wait. */
  function Opening(d: nat): seq<Op> {
    [Try, Other(Wait(d))]
  }

  lemma PlayTwo(g: Limits, s: Store, a: Op, b: Op, from: int, to: int)
    ensures Play(g, s, [a, b]) == Do(g, Do(g, s, a), b)
    ensures Sends(g, s, [a, b], from, to)
         == (if Passes(g, s, a, from, to) then 1 else 0) + if Passes(g, Do(g, s, a), b, from, to) then 1 else 0
  {
    var s1 := Do(g, s, a);
    assert [a, b][1..] == [b] && [b][1..] == [];
    assert Play(g, s1, [b]) == Do(g, s1, b);
    assert Sends(g, s1, [b], from, to) == if Passes(g, s1, b, from, to) then 1 else 0;
  }

  lemma AfterOpening(g: Limits, d: pos, to: int)
    requires g.every <= d < g.window
    ensures var s := Play(g, EMPTY, Opening(d));
            Fits(g, s) && s.now == d && Ready(g, s) == d && Left(g, s) == g.cap - 1 && End(g, s) == g.window
    ensures Sends(g, EMPTY, Opening(d), d, to) == 0
  {
    PlayTwo(g, EMPTY, Try, Other(Wait(d)), d, to);
  }

  /** From `cap - 1` cooldowns before the counter expires on, `cap - 1` pass before it does, and another `cap` after. */
  lemma SurgeMost(g: Limits, d: int, before: int)
    requires before == (g.cap - 1) * g.every && d == g.window - before
    requires before + g.every <= d
    ensures Most(g, d, g.cap - 1, g.window, d + g.window) == 2 * g.cap - 1
  {
    var n, to := g.cap - 1, d + g.window;
    NotCovered(before, g.every, n);
    assert InThisLife(g, d, n, g.window, to) == n;
    assert g.every * n == before && d + before == g.window;
    WithinOneLife(g, g.window, to);
    assert g.cap * g.every == before + g.every;
    NotCovered(d, g.every, g.cap);
  }

  /** A run of tries, cooldown included, that sends `2 * cap - 1` in one time to live of the counter. */
  lemma SurgeRun(g: Limits, before: pos) returns (ops: seq<Op>, from: nat)
    requires Roomy(g) && before == (g.cap - 1) * g.every && before + g.every <= g.window - before
    ensures Sends(g, EMPTY, ops, from, from + g.window) == 2 * g.cap - 1
    ensures Plain(ops) && Play(g, EMPTY, ops).now < from + g.window
  {
    from := g.window - before;
    AfterOpening(g, from, from + g.window);
    SurgeMost(g, from, before);
    var s := Play(g, EMPTY, Opening(from));
    var surge := ThatManyPass(g, s, from + g.window);
    ops := Opening(from) + surge;
    PlayThen(g, EMPTY, Opening(from), surge, from, from + g.window);
  }

  /** "Five per hour" is not a limit for every hour: nine token mails, or nine bind mails, can fall within one. */
  lemma NineInOneHour(kind: IssueKind, appId: string, memberId: string)
    ensures exists ops: seq<Op>, from: nat, to: nat ::
              to == from + 3600 * SECOND && Sends(TokenLimits(kind, memberId), EMPTY, ops, from, to) == 9
    ensures exists ops: seq<Op>, from: nat, to: nat ::
              to == from + 3600 * SECOND && Sends(BindLimits(appId, memberId), EMPTY, ops, from, to) == 9
  {
    var ops, from := SurgeRun(TokenLimits(kind, memberId), 240 * SECOND);
    assert Sends(TokenLimits(kind, memberId), EMPTY, ops, from, from + 3600 * SECOND) == 9;
    var ops', from' := SurgeRun(BindLimits(appId, memberId), 240 * SECOND);
    assert Sends(BindLimits(appId, memberId), EMPTY, ops', from', from' + 3600 * SECOND) == 9;
  }
}
