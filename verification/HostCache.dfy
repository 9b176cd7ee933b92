/**
 The host names of an app, cached in Redis for five minutes. Every `await` of a call is a point where other calls, edits
 of the host table, the clock and the loss of the cached key may come in between.
 */
module HostCache {
  import opened Prelude
  import opened AuthKeys
  import opened RedisStore

  const CACHE_TTL: pos := 5 * 60 * SECOND

  /** Host names in order of priority. */
  type Table = map<string, seq<string>>

  /** A call after its first step: nothing was cached, rows were read, an answer or the database's error was given. */
  datatype Call =
    | Missed(appId: string)
    | Holding(appId: string, hosts: seq<string>, at: nat)
    | Answered(appId: string, hosts: seq<string>, at: nat)
    | Failed(appId: string)

  datatype Machine = Machine(store: Store, table: Table, calls: map<nat, Call>)

  /** `up` says whether Redis or the database answers; a fill that reports an error may have been applied or not. */
  datatype Event =
    | Begin(call: nat, appId: string, up: bool, reply: seq<string>)
    | Query(call: nat, up: bool)
    | Fill(call: nat, applied: bool)
    | Edit(table: Table)
    | Lose(appId: string)
    | Pass(d: nat)

  function Hosts(table: Table, appId: string): seq<string> {
    if appId in table then table[appId] else []
  }

  function SetOf(hosts: seq<string>): set<string> {
    set h | h in hosts
  }

  /** The hosts bound to the app, as the rows of the table say. */
  ghost function Bound(table: Table, appId: string): set<string> {
    set h | appId in table && h in table[appId]
  }

  /** SMEMBERS answers with the members in any order. */
  predicate Lists(reply: seq<string>, members: set<string>) {
    SetOf(reply) == members
  }

  function SaddAll(s: Store, k: Key, members: seq<string>): Store {
    if members == [] then s else Sadd(SaddAll(s, k, members[..|members| - 1]), k, members[|members| - 1])
  }

  /** The transaction DEL, SADD, EXPIRE. */
  function Refill(s: Store, appId: string, hosts: seq<string>): Store {
    ExpireSet(SaddAll(DelSet(s, AppHosts(appId)), AppHosts(appId), hosts), AppHosts(appId), CACHE_TTL)
  }

  /** A step that is not due leaves everything as it is. */
  function Step(m: Machine, e: Event): Machine {
    match e
    case Begin(i, appId, up, reply) =>
      if i in m.calls || (up && !Lists(reply, SetMembers(m.store, AppHosts(appId)))) then m
      else m.(calls := m.calls[i := if up && reply != [] then Answered(appId, reply, m.store.now) else Missed(appId)])
    case Query(i, up) =>
      if i !in m.calls || !m.calls[i].Missed? then m
      else
        var appId := m.calls[i].appId;
        var hosts := Hosts(m.table, appId);
        m.(calls := m.calls[i :=
          if !up then Failed(appId)
          else if hosts == [] then Answered(appId, [], m.store.now)
          else Holding(appId, hosts, m.store.now)])
    case Fill(i, applied) =>
      if i !in m.calls || !m.calls[i].Holding? then m
      else
        var c := m.calls[i];
        m.(store := if applied then Refill(m.store, c.appId, c.hosts) else m.store,
           calls := m.calls[i := Answered(c.appId, c.hosts, m.store.now)])
    case Edit(table) => m.(table := table)
    case Lose(appId) => m.(store := DelSet(m.store, AppHosts(appId)))
    case Pass(d) => m.(store := Tick(m.store, d))
  }

  function Exec(m: Machine, events: seq<Event>): Machine {
    if events == [] then m else Step(Exec(m, events[..|events| - 1]), events[|events| - 1])
  }

  // ----- the transaction -----

  lemma {:induction false} SaddAllIs(s: Store, k: Key, members: seq<string>)
    requires members != [] && k !in s.sets
    ensures SaddAll(s, k, members) == s.(sets := s.sets[k := Entry(SetOf(members), None)])
  {
    var n := |members| - 1;
    if n == 0 {
      assert SetOf(members) == {members[0]};
      assert members[..0] == [];
    } else {
      SaddAllIs(s, k, members[..n]);
      assert SetOf(members) == SetOf(members[..n]) + {members[n]};
    }
  }

  /** Whatever was under the key before, the transaction leaves just these hosts, for five minutes from now. */
  lemma RefillIs(s: Store, appId: string, hosts: seq<string>)
    requires hosts != []
    ensures Refill(s, appId, hosts)
         == s.(sets := s.sets[AppHosts(appId) := Entry((set h | h in hosts), Some(s.now + 300000))])
  {
    var k := AppHosts(appId);
    SaddAllIs(DelSet(s, k), k, hosts);
    assert s.sets - {k} + map[k := Entry(SetOf(hosts), Some(s.now + CACHE_TTL))]
        == s.sets[k := Entry(SetOf(hosts), Some(s.now + CACHE_TTL))];
  }

  // ----- what the table has been -----

  /** At some point of the run, not before `since`, these were the hosts of the app. */
  ghost predicate Was(m: Machine, events: seq<Event>, appId: string, hosts: set<string>, since: int) {
    exists j :: 0 <= j <= |events| && HadAt(m, events[..j], appId, hosts, since)
  }

  ghost predicate HadAt(m: Machine, events: seq<Event>, appId: string, hosts: set<string>, since: int) {
    var at := Exec(m, events);
    at.store.now >= since && Bound(at.table, appId) == hosts
  }

  lemma WasLonger(m: Machine, events: seq<Event>, e: Event, appId: string, hosts: set<string>, since: int)
    requires Was(m, events, appId, hosts, since)
    ensures Was(m, events + [e], appId, hosts, since)
  {
    var j :| 0 <= j <= |events| && HadAt(m, events[..j], appId, hosts, since);
    assert (events + [e])[..j] == events[..j];
  }

  lemma IsNow(m: Machine, events: seq<Event>, appId: string)
    ensures Was(m, events, appId, Bound(Exec(m, events).table, appId), Exec(m, events).store.now)
  {
    assert events[..|events|] == events;
    assert HadAt(m, events[..|events|], appId, Bound(Exec(m, events).table, appId), Exec(m, events).store.now);
  }

  lemma WasEarlier(m: Machine, events: seq<Event>, appId: string, hosts: set<string>, since: int, earlier: int)
    requires Was(m, events, appId, hosts, since) && earlier <= since
    ensures Was(m, events, appId, hosts, earlier)
  {
    var j :| 0 <= j <= |events| && HadAt(m, events[..j], appId, hosts, since);
    assert HadAt(m, events[..j], appId, hosts, earlier);
  }

  lemma ExecSnoc(m: Machine, events: seq<Event>, e: Event)
    ensures Exec(m, events + [e]) == Step(Exec(m, events), e)
  {
    assert (events + [e])[..|events|] == events;
  }

  // ----- the invariant -----

  /** A write to the cache comes at most `delay` after its call read the table. */
  predicate InTime(before: Machine, e: Event, delay: nat) {
    e.Fill? && e.call in before.calls && before.calls[e.call].Holding? ==>
      before.store.now - before.calls[e.call].at <= delay
  }

  predicate Prompt(m: Machine, events: seq<Event>, delay: nat) {
    events == [] || (
      && Prompt(m, events[..|events| - 1], delay)
      && InTime(Exec(m, events[..|events| - 1]), events[|events| - 1], delay))
  }

  ghost predicate CacheTrue(m: Machine, events: seq<Event>, s: Store, appId: string, delay: nat) {
    var k := AppHosts(appId);
    k in s.sets ==>
      s.sets[k].expiry.Some? && Was(m, events, appId, s.sets[k].value, s.sets[k].expiry.value - CACHE_TTL - delay)
  }

  ghost predicate CallTrue(m: Machine, events: seq<Event>, now: nat, c: Call, delay: nat) {
    match c
    case Missed(_) => true
    case Holding(appId, hosts, at) => hosts != [] && at <= now && Was(m, events, appId, SetOf(hosts), at)
    case Answered(appId, hosts, at) => at <= now && Was(m, events, appId, SetOf(hosts), at - CACHE_TTL - delay)
    case Failed(_) => true
  }

  ghost predicate AllTrue(m: Machine, events: seq<Event>, delay: nat) {
    var at := Exec(m, events);
    && (forall appId :: CacheTrue(m, events, at.store, appId, delay))
    && (forall i | i in at.calls :: CallTrue(m, events, at.store.now, at.calls[i], delay))
  }

  lemma CacheStays(m: Machine, events: seq<Event>, e: Event, s: Store, appId: string, delay: nat)
    requires CacheTrue(m, events, s, appId, delay)
    ensures CacheTrue(m, events + [e], s, appId, delay)
  {
    var k := AppHosts(appId);
    if k in s.sets {
      WasLonger(m, events, e, appId, s.sets[k].value, s.sets[k].expiry.value - CACHE_TTL - delay);
    }
  }

  lemma CallStays(m: Machine, events: seq<Event>, e: Event, now: nat, later: nat, c: Call, delay: nat)
    requires CallTrue(m, events, now, c, delay) && now <= later
    ensures CallTrue(m, events + [e], later, c, delay)
  {
    match c
    case Missed(_) =>
    case Failed(_) =>
    case Holding(appId, hosts, at) => WasLonger(m, events, e, appId, SetOf(hosts), at);
    case Answered(appId, hosts, at) => WasLonger(m, events, e, appId, SetOf(hosts), at - CACHE_TTL - delay);
  }

  /** What the step makes of the cached key of one app. */
  lemma StepCache(m: Machine, events: seq<Event>, e: Event, appId: string, delay: nat)
    requires AllTrue(m, events, delay) && Prompt(m, events + [e], delay)
    ensures CacheTrue(m, events + [e], Step(Exec(m, events), e).store, appId, delay)
  {
    var before := Exec(m, events);
    CacheStays(m, events, e, before.store, appId, delay);
    assert (events + [e])[..|events|] == events;
    if e.Fill? && e.call in before.calls && before.calls[e.call].Holding? && e.applied {
      var c := before.calls[e.call];
      assert CallTrue(m, events, before.store.now, c, delay);
      RefillIs(before.store, c.appId, c.hosts);
      WasLonger(m, events, e, c.appId, SetOf(c.hosts), c.at);
      WasEarlier(m, events + [e], c.appId, SetOf(c.hosts), c.at, before.store.now - delay);
    }
  }

  lemma BeginTrue(m: Machine, events: seq<Event>, e: Event, delay: nat)
    requires AllTrue(m, events, delay) && e.Begin? && e.up && e.reply != []
    requires Lists(e.reply, SetMembers(Exec(m, events).store, AppHosts(e.appId)))
    ensures Was(m, events, e.appId, SetOf(e.reply), Exec(m, events).store.now - CACHE_TTL - delay)
  {
    var s := Exec(m, events).store;
    var k := AppHosts(e.appId);
    assert e.reply[0] in SetOf(e.reply);
    assert LiveSet(s, k);
    assert CacheTrue(m, events, s, e.appId, delay);
    WasEarlier(m, events, e.appId, SetOf(e.reply), s.sets[k].expiry.value - CACHE_TTL - delay,
               s.now - CACHE_TTL - delay);
  }

  /** What the step makes of the call that takes it. */
  lemma StepCall(m: Machine, events: seq<Event>, e: Event, i: nat, delay: nat)
    requires AllTrue(m, events, delay) && Prompt(m, events + [e], delay)
    requires i in Step(Exec(m, events), e).calls
    ensures CallTrue(m, events + [e], Step(Exec(m, events), e).store.now, Step(Exec(m, events), e).calls[i], delay)
  {
    var before := Exec(m, events);
    var after := Step(before, e);
    assert (events + [e])[..|events|] == events;
    if e.Fill? && e.call in before.calls && before.calls[e.call].Holding? {
      RefillIs(before.store, before.calls[e.call].appId, before.calls[e.call].hosts);
    }
    if i in before.calls && after.calls[i] == before.calls[i] {
      CallStays(m, events, e, before.store.now, after.store.now, before.calls[i], delay);
    } else if e.Begin? {
      if after.calls[i].Answered? {
        BeginTrue(m, events, e, delay);
        WasLonger(m, events, e, e.appId, SetOf(e.reply), before.store.now - CACHE_TTL - delay);
      }
    } else if e.Query? {
      var appId := before.calls[i].appId;
      IsNow(m, events, appId);
      WasLonger(m, events, e, appId, Bound(before.table, appId), before.store.now);
      WasEarlier(m, events + [e], appId, Bound(before.table, appId), before.store.now,
                 before.store.now - CACHE_TTL - delay);
    } else {
      var c := before.calls[i];
      assert CallTrue(m, events, before.store.now, c, delay);
      WasLonger(m, events, e, c.appId, SetOf(c.hosts), c.at);
      WasEarlier(m, events + [e], c.appId, SetOf(c.hosts), c.at, before.store.now - CACHE_TTL - delay);
    }
  }

  ghost predicate Fresh(m: Machine) {
    m.calls == map[] && forall appId: string :: AppHosts(appId) !in m.store.sets
  }

  lemma {:induction false} AlwaysTrue(m: Machine, events: seq<Event>, delay: nat)
    requires Fresh(m) && Prompt(m, events, delay)
    ensures AllTrue(m, events, delay)
  {
    if events == [] {
    } else {
      var init, e := events[..|events| - 1], events[|events| - 1];
      AlwaysTrue(m, init, delay);
      assert events == init + [e];
      ExecSnoc(m, init, e);
      forall appId: string
        ensures CacheTrue(m, events, Exec(m, events).store, appId, delay)
      {
        StepCache(m, init, e, appId, delay);
      }
      forall i | i in Exec(m, events).calls
        ensures CallTrue(m, events, Exec(m, events).store.now, Exec(m, events).calls[i], delay)
      {
        StepCall(m, init, e, i, delay);
      }
    }
  }

  // ----- staleness -----

  ghost predicate AnsweredIn(m: Machine, i: nat) {
    i in m.calls && m.calls[i].Answered?
  }

  /** The answer of call `i` is given by step number `k`. */
  ghost predicate AnswersAt(m: Machine, events: seq<Event>, i: nat, k: nat) {
    0 < k <= |events| && AnsweredIn(Exec(m, events[..k]), i) && !AnsweredIn(Exec(m, events[..k - 1]), i)
  }

  lemma AnswerStays(m: Machine, e: Event, i: nat)
    requires AnsweredIn(m, i)
    ensures AnsweredIn(Step(m, e), i) && Step(m, e).calls[i] == m.calls[i]
  {
  }

  /** An answer is given once, and stays what it is. */
  lemma {:induction false} AnswerGiven(m: Machine, events: seq<Event>, i: nat) returns (k: nat)
    requires Fresh(m) && AnsweredIn(Exec(m, events), i)
    ensures AnswersAt(m, events, i, k) && Exec(m, events[..k]).calls[i] == Exec(m, events).calls[i]
  {
    assert events != [];
    var n := |events| - 1;
    if AnsweredIn(Exec(m, events[..n]), i) {
      k := AnswerGiven(m, events[..n], i);
      assert events[..n][..k] == events[..k] && events[..n][..k - 1] == events[..k - 1];
      AnswerStays(Exec(m, events[..n]), events[n], i);
    } else {
      k := |events|;
      assert events[..k] == events;
    }
  }

  lemma {:induction false} PromptSoFar(m: Machine, events: seq<Event>, delay: nat, k: nat)
    requires Prompt(m, events, delay) && k <= |events|
    ensures Prompt(m, events[..k], delay)
  {
    if k == |events| {
      assert events[..k] == events;
    } else {
      PromptSoFar(m, events[..|events| - 1], delay, k);
      assert events[..|events| - 1][..k] == events[..k];
    }
  }

  /**
   Under any interleaving, edit and failure: an answer lists the hosts the app had at some point of the run up to the
   step that gives the answer, at most five minutes plus the longest delay between a read of the table and its write to
   the cache before it.
   */
  lemma BoundedStaleness(m: Machine, events: seq<Event>, delay: nat, i: nat) returns (k: nat)
    requires Fresh(m) && Prompt(m, events, delay) && AnsweredIn(Exec(m, events), i)
    ensures AnswersAt(m, events, i, k)
    ensures var c := Exec(m, events).calls[i];
            && c.at <= Exec(m, events[..k]).store.now
            && Was(m, events[..k], c.appId, (set h | h in c.hosts), c.at - 300000 - delay)
  {
    k := AnswerGiven(m, events, i);
    PromptSoFar(m, events, delay, k);
    AlwaysTrue(m, events[..k], delay);
    var now := Exec(m, events[..k]).store.now;
    assert CallTrue(m, events[..k], now, Exec(m, events[..k]).calls[i], delay);
  }

  /** Once the hosts of an app have been the same for that long, they are the answer. */
  lemma SettledAnswer(m: Machine, events: seq<Event>, delay: nat, i: nat, k: nat, hosts: set<string>)
    requires Fresh(m) && Prompt(m, events, delay) && AnswersAt(m, events, i, k)
    requires var c := Exec(m, events[..k]).calls[i];
             forall j | 0 <= j <= k && Exec(m, events[..j]).store.now >= c.at - 300000 - delay ::
               Bound(Exec(m, events[..j]).table, c.appId) == hosts
    ensures (set h | h in Exec(m, events[..k]).calls[i].hosts) == hosts
  {
    var c := Exec(m, events[..k]).calls[i];
    PromptSoFar(m, events, delay, k);
    AlwaysTrue(m, events[..k], delay);
    assert CallTrue(m, events[..k], Exec(m, events[..k]).store.now, c, delay);
    var since := c.at - CACHE_TTL - delay;
    var j :| 0 <= j <= k && HadAt(m, events[..k][..j], c.appId, SetOf(c.hosts), since);
    assert events[..k][..j] == events[..j];
  }

  // ----- the bound is reached -----

  /** A slow call reads the old host, the host is replaced, and only then the old one is cached. */
  function SlowEvent(k: nat, delay: nat): Event {
    if k == 0 then Begin(0, "app", true, [])
    else if k == 1 then Query(0, true)
    else if k == 2 then Edit(map["app" := ["new"]])
    else if k == 3 then Pass(delay)
    else if k == 4 then Fill(0, true)
    else if k == 5 then Pass(CACHE_TTL - 1)
    else Begin(1, "app", true, ["old"])
  }

  function SlowFill(n: nat, delay: nat): seq<Event> {
    if n == 0 then [] else SlowFill(n - 1, delay) + [SlowEvent(n - 1, delay)]
  }

  function SlowStore(k: nat, delay: nat): Store {
    EMPTY.(now := if k < 4 then 0 else if k < 6 then delay else delay + CACHE_TTL - 1,
           sets := if k < 5 then map[] else map[AppHosts("app") := Entry({"old"}, Some(delay + CACHE_TTL))])
  }

  function SlowCalls(k: nat, delay: nat): map<nat, Call> {
    if k == 0 then map[]
    else if k == 1 then map[0 := Missed("app")]
    else if k < 5 then map[0 := Holding("app", ["old"], 0)]
    else if k < 7 then map[0 := Answered("app", ["old"], delay)]
    else map[0 := Answered("app", ["old"], delay)][1 := Answered("app", ["old"], delay + CACHE_TTL - 1)]
  }

  function SlowMachine(k: nat, delay: nat): Machine {
    Machine(SlowStore(k, delay), map["app" := [if k < 3 then "old" else "new"]], SlowCalls(k, delay))
  }

  lemma SlowStep(k: nat, delay: nat)
    requires k < 7
    ensures Step(SlowMachine(k, delay), SlowEvent(k, delay)) == SlowMachine(k + 1, delay)
  {
    assert SetOf(["old"]) == {"old"};
    if k == 4 {
      RefillIs(SlowStore(4, delay), "app", ["old"]);
    }
  }

  lemma SlowInTime(k: nat, delay: nat)
    requires k < 7
    ensures InTime(SlowMachine(k, delay), SlowEvent(k, delay), delay)
  {
  }

  lemma PromptSnoc(m: Machine, events: seq<Event>, e: Event, delay: nat)
    requires Prompt(m, events, delay) && InTime(Exec(m, events), e, delay)
    ensures Prompt(m, events + [e], delay)
  {
    assert (events + [e])[..|events|] == events;
  }

  lemma {:induction false} SlowRun(n: nat, delay: nat)
    requires n <= 7
    ensures Exec(SlowMachine(0, delay), SlowFill(n, delay)) == SlowMachine(n, delay)
    ensures Prompt(SlowMachine(0, delay), SlowFill(n, delay), delay)
  {
    if n == 0 {
    } else {
      var m, events, e := SlowMachine(0, delay), SlowFill(n - 1, delay), SlowEvent(n - 1, delay);
      SlowRun(n - 1, delay);
      SlowStep(n - 1, delay);
      SlowInTime(n - 1, delay);
      ExecSnoc(m, events, e);
      PromptSnoc(m, events, e, delay);
    }
  }

  lemma {:induction false} SlowPrefix(n: nat, j: nat, delay: nat)
    requires j <= n
    ensures |SlowFill(n, delay)| == n && SlowFill(n, delay)[..j] == SlowFill(j, delay)
  {
    if j < n {
      SlowPrefix(n - 1, j, delay);
      assert SlowFill(n, delay)[..j] == SlowFill(n - 1, delay)[..j];
    } else if n > 0 {
      SlowPrefix(n - 1, 0, delay);
    }
  }

  lemma NotOld(k: nat, delay: nat)
    requires k <= 7
    ensures SlowMachine(k, delay).store.now >= 1 ==> Bound(SlowMachine(k, delay).table, "app") != {"old"}
  {
    if k >= 3 {
      assert "new" in SetOf(["new"]) && "new" !in {"old"};
    }
  }

  /**
   The staleness allowed is met to the last millisecond: after the start the old host was never in the table again.
   */
  lemma StalenessReached(delay: nat)
    ensures var m, events := SlowMachine(0, delay), SlowFill(7, delay);
            && Fresh(m) && Prompt(m, events, delay)
            && 1 in Exec(m, events).calls
            && Exec(m, events).calls[1] == Answered("app", ["old"], CACHE_TTL + delay - 1)
            && !Was(m, events, "app", {"old"}, 1)
  {
    var m, events := SlowMachine(0, delay), SlowFill(7, delay);
    SlowRun(7, delay);
    SlowPrefix(7, 7, delay);
    forall j | 0 <= j <= 7
      ensures !HadAt(m, events[..j], "app", {"old"}, 1)
    {
      SlowPrefix(7, j, delay);
      SlowRun(j, delay);
      NotOld(j, delay);
    }
  }

  // ----- one call on its own -----

  class AppService {
    var store: Store
    var table: Table

    /** The machine in which call 0 is the only one. */
    ghost function Alone(calls: map<nat, Call>): Machine
      reads this
    {
      Machine(store, table, calls)
    }

    /**
     `readUp` and `fillApplied` say how Redis behaves, `queryUp` whether the database answers: its error goes to the
     caller. The call takes the machine's three steps one after the other.
     */
    method GetAppHostNames(appId: string, readUp: bool, reply: seq<string>, queryUp: bool, fillApplied: bool)
      returns (hosts: Option<seq<string>>)
      requires readUp ==> Lists(reply, SetMembers(store, AppHosts(appId)))
      modifies this
      ensures var m := Exec(old(Alone(map[])),
                            [Begin(0, appId, readUp, reply), Query(0, queryUp), Fill(0, fillApplied)]);
              && store == m.store && table == m.table && 0 in m.calls
              && (hosts.Some? ==> m.calls[0] == Answered(appId, hosts.value, store.now))
              && (hosts.None? <==> m.calls[0] == Failed(appId))
      ensures readUp && reply != [] ==> hosts == Some(reply)
      ensures (!readUp || reply == []) && queryUp ==>
                hosts == Some(if appId in old(table) then old(table)[appId] else [])
    {
      ghost var m := Alone(map[]);
      Steps(m, Begin(0, appId, readUp, reply), Query(0, queryUp), Fill(0, fillApplied));
      if readUp {
        var cached := reply;
        if |cached| > 0 {
          return Some(cached);
        }
      }
      if !queryUp {
        return None;
      }
      var rows := Hosts(table, appId);
      if |rows| > 0 {
        if fillApplied {
          store := Refill(store, appId, rows);
          RefillIs(m.store, appId, rows);
        }
      }
      return Some(rows);
    }
  }

  lemma Steps(m: Machine, a: Event, b: Event, c: Event)
    ensures Exec(m, [a, b, c]) == Step(Step(Step(m, a), b), c)
  {
    ExecSnoc(m, [], a);
    ExecSnoc(m, [a], b);
    ExecSnoc(m, [a, b], c);
    assert [a, b] + [c] == [a, b, c] && [a] + [b] == [a, b] && [] + [a] == [a];
  }
}
