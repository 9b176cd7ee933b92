/** Which tries at a gate pass, told from the tries of the run and not from what the store holds. */
module SendTries {
  import opened Prelude
  import opened AuthKeys
  import opened RedisStore
  import opened AuthLimits
  import opened SendWindows
  import opened TokenIssue

  /** The cooldown is over at `cool`; `n` tries were counted in the life that ends at `until`. */
  datatype Gauge = Gauge(now: nat, cool: nat, n: nat, until: nat)

  function Next(t: Gauge, op: SendWindows.Op, every: pos, window: pos): Gauge {
    match op
    case Try =>
      if t.now < t.cool then t
      else if t.now < t.until then Gauge(t.now, t.now + every, t.n + 1, t.until)
      else Gauge(t.now, t.now + every, 1, t.now + window)
    case Other(c) => if c.Wait? then t.(now := t.now + c.d) else t
  }

  function Read(t: Gauge, ops: seq<SendWindows.Op>, every: pos, window: pos): Gauge
    decreases |ops|
  {
    if ops == [] then t else Read(Next(t, ops[0], every, window), ops[1..], every, window)
  }

  const FRESH := Gauge(0, 0, 0, 0)

  predicate Lets(t: Gauge, cap: pos) {
    t.now >= t.cool && (t.now < t.until ==> t.n < cap)
  }

  ghost predicate Shows(g: Limits, s: Store, t: Gauge) {
    && s.now == t.now
    && (if LiveDoc(s, g.cooldown) then s.docs[g.cooldown].expiry == Some(t.cool) else t.now >= t.cool)
    && (if LiveCounter(s, g.count) then s.counters[g.count].value == t.n >= 1
                                        && s.counters[g.count].expiry == Some(t.until)
        else t.now >= t.until)
  }

  lemma TryShows(g: Limits, s: Store, t: Gauge)
    requires Shows(g, s, t)
    ensures Shows(g, Do(g, s, Try), Next(t, Try, g.every, g.window))
    ensures GateOpen(s, g.cooldown, g.count, g.cap) <==> Lets(t, g.cap)
  {
  }

  lemma OtherShows(g: Limits, s: Store, c: Command, t: Gauge)
    requires Shows(g, s, t)
    ensures Shows(g, Do(g, s, Other(c)), Next(t, Other(c), g.every, g.window))
  {
    if Apart(g, c) && !c.Wait? {
      OtherCommand(g, s, c);
      var s' := Apply(s, c);
      assert s'.now == s.now && (LiveDoc(s', g.cooldown) <==> LiveDoc(s, g.cooldown));
      assert LiveCounter(s', g.count) <==> LiveCounter(s, g.count);
    }
  }

  lemma {:induction false} RunShows(g: Limits, s: Store, ops: seq<SendWindows.Op>, t: Gauge)
    requires Shows(g, s, t)
    ensures Shows(g, Play(g, s, ops), Read(t, ops, g.every, g.window))
    decreases |ops|
  {
    if ops == [] {
    } else {
      match ops[0] {
      case Try => TryShows(g, s, t);
      case Other(c) => OtherShows(g, s, c, t);
      }
      RunShows(g, Do(g, s, ops[0]), ops[1..], Next(t, ops[0], g.every, g.window));
    }
  }

  lemma PassesIff(g: Limits, ops: seq<SendWindows.Op>)
    ensures GateOpen(Play(g, EMPTY, ops), g.cooldown, g.count, g.cap)
            <==> Lets(Read(FRESH, ops, g.every, g.window), g.cap)
  {
    RunShows(g, EMPTY, ops, FRESH);
    TryShows(g, Play(g, EMPTY, ops), Read(FRESH, ops, g.every, g.window));
  }

  /**
   A bind mail passes exactly when a minute has gone since the last try that was not refused by the cooldown, and fewer
   than five were counted in the hour of the counter.
   */
  lemma BindPassesIff(appId: string, memberId: string, ops: seq<SendWindows.Op>)
    ensures BindSendOpen(Play(BindLimits(appId, memberId), EMPTY, ops), appId, memberId)
            <==> Lets(Read(FRESH, ops, 60000, 3600000), 5)
  {
    PassesIff(BindLimits(appId, memberId), ops);
  }

  /** The same for the token mails of password resets. */
  lemma TokenPassesIff(memberId: string, ops: seq<SendWindows.Op>)
    ensures IssueOpen(Play(TokenLimits(ResetPasswordApp, memberId), EMPTY, ops), memberId)
            <==> Lets(Read(FRESH, ops, 60000, 3600000), 5)
  {
    PassesIff(TokenLimits(ResetPasswordApp, memberId), ops);
  }

  /** The gates themselves are those of the windows. */
  lemma GatesAre(s: Store, appId: string, memberId: string)
    ensures BindSendGate(s, appId, memberId) == Do(BindLimits(appId, memberId), s, Try)
    ensures IssueGate(s, memberId) == Do(TokenLimits(ResetPasswordApp, memberId), s, Try)
  {
  }

  // ----- one try a minute -----

  function EachMinute(n: nat): seq<SendWindows.Op> {
    if n == 0 then [] else [Try, Other(Wait(60000))] + EachMinute(n - 1)
  }

  lemma {:induction false} MinutesRead(t: Gauge, n: nat)
    requires t.now >= t.cool && t.now < t.until && t.now + n * 60000 < t.until
    ensures var u := Read(t, EachMinute(n), 60000, 3600000);
            u.now == t.now + n * 60000 && u.now >= u.cool && u.n == t.n + n && u.until == t.until
    decreases n
  {
    if n > 0 {
      var ops := EachMinute(n);
      assert ops[1..] == [Other(Wait(60000))] + EachMinute(n - 1) && ops[1..][1..] == EachMinute(n - 1);
      var t1 := Next(t, Try, 60000, 3600000);
      MinutesRead(Next(t1, Other(Wait(60000)), 60000, 3600000), n - 1);
    }
  }

  /** One try a minute: within the hour the first five are let pass, and from the sixth on all are refused. */
  lemma SixthRefused(appId: string, memberId: string, n: nat)
    requires n < 60
    ensures BindSendOpen(Play(BindLimits(appId, memberId), EMPTY, EachMinute(n)), appId, memberId) <==> n < 5
    ensures IssueOpen(Play(TokenLimits(ResetPasswordApp, memberId), EMPTY, EachMinute(n)), memberId) <==> n < 5
  {
    BindPassesIff(appId, memberId, EachMinute(n));
    TokenPassesIff(memberId, EachMinute(n));
    if n > 0 {
      var ops := EachMinute(n);
      assert ops[1..] == [Other(Wait(60000))] + EachMinute(n - 1) && ops[1..][1..] == EachMinute(n - 1);
      var t := Next(Next(FRESH, Try, 60000, 3600000), Other(Wait(60000)), 60000, 3600000);
      MinutesRead(t, n - 1);
    }
  }
}
