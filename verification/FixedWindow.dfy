/**
 How many attempts a fixed-window counter lets through in any stretch of time, over all runs of the store.
 The counter is incremented before the attempt and the attempt passes when the reply is at most the cap.
 */
module FixedWindow {
  import opened Prelude
  import opened AuthKeys
  import opened RedisStore

  /** The last command of the run is an attempt on `k` in the window [from, to) that passes. */
  predicate Passes(s: Store, c: Command, k: Key, cap: pos, from: nat, to: nat) {
    c.Increment? && c.key == k && from <= s.now < to && IncrReply(s, k) <= cap
  }

  function Admitted(cs: seq<Command>, k: Key, cap: pos, from: nat, to: nat): nat {
    if cs == [] then 0
    else
      var init, c := cs[..|cs| - 1], cs[|cs| - 1];
      Admitted(init, k, cap, from, to) + if Passes(Run(EMPTY, init), c, k, cap, from, to) then 1 else 0
  }

  /** The counter is never decremented or deleted, and always incremented with the same time to live. */
  ghost predicate OnlyCounts(cs: seq<Command>, k: Key, ttl: pos) {
    forall i | 0 <= i < |cs| :: Touches(cs[i], k) ==> cs[i] == Increment(k, ttl)
  }

  ghost predicate Counting(s: Store, k: Key) {
    k in s.counters ==> s.counters[k].value >= 1 && s.counters[k].expiry.Some?
  }

  /** How many more attempts can still pass before `to`. */
  ghost function Room(s: Store, k: Key, ttl: pos, cap: pos, to: nat): nat
    requires Counting(s, k)
  {
    if LiveCounter(s, k) then
      Max(0, cap - s.counters[k].value) + cap * Cover(to - s.counters[k].expiry.value, ttl)
    else
      cap * Cover(to - s.now, ttl)
  }

  /** An attempt uses up room: one unit when it passes. */
  lemma AttemptUsesRoom(s: Store, k: Key, ttl: pos, cap: pos, to: nat)
    requires Counting(s, k) && s.now < to
    ensures Counting(Incr(s, k, ttl), k)
    ensures Room(Incr(s, k, ttl), k, ttl, cap, to) + (if IncrReply(s, k) <= cap then 1 else 0)
              <= Room(s, k, ttl, cap, to)
  {
    if !LiveCounter(s, k) {
      var c := Cover(to - s.now - ttl, ttl);
      assert Cover(to - s.now, ttl) == 1 + c;
      assert cap * (1 + c) == cap + cap * c;
    }
  }

  lemma CoverScaled(cap: pos, x: int, y: int, t: pos)
    requires x <= y
    ensures cap * Cover(x, t) <= cap * Cover(y, t)
  {
    CoverMonotone(x, y, t);
    assert cap * (Cover(y, t) - Cover(x, t)) >= 0;
  }

  /** Waiting never makes room. */
  lemma WaitKeepsRoom(s: Store, d: nat, k: Key, ttl: pos, cap: pos, to: nat)
    requires Counting(s, k)
    ensures Room(Tick(s, d), k, ttl, cap, to) <= Room(s, k, ttl, cap, to)
  {
    if LiveCounter(s, k) && !LiveCounter(Tick(s, d), k) {
      CoverScaled(cap, to - s.now - d, to - s.counters[k].expiry.value, ttl);
    } else if !LiveCounter(s, k) {
      CoverScaled(cap, to - s.now - d, to - s.now, ttl);
    }
  }

  ghost function Most(ttl: pos, cap: pos, length: nat): int {
    cap * (Cover(length, ttl) + 1) - 1
  }

  /** When the window opens, a life begun before it has already spent at least one attempt. */
  lemma RoomAtOpening(s: Store, k: Key, ttl: pos, cap: pos, from: nat, to: nat)
    requires Counting(s, k) && from <= s.now && from <= to
    ensures Room(s, k, ttl, cap, to) <= Most(ttl, cap, to - from)
  {
    var x := if LiveCounter(s, k) then s.counters[k].expiry.value else s.now;
    CoverScaled(cap, to - x, to - from, ttl);
    assert cap * (Cover(to - from, ttl) + 1) == cap * Cover(to - from, ttl) + cap;
  }

  /** A command that does not touch the counter leaves its room alone, apart from waiting. */
  lemma OthersKeepRoom(s: Store, c: Command, k: Key, ttl: pos, cap: pos, to: nat)
    requires Counting(s, k) && !Touches(c, k)
    ensures Counting(Apply(s, c), k)
    ensures Room(Apply(s, c), k, ttl, cap, to) <= Room(s, k, ttl, cap, to)
  {
    if c.Wait? {
      WaitKeepsRoom(s, c.d, k, ttl, cap, to);
    } else {
      assert Apply(s, c).now == s.now;
      assert k in Apply(s, c).counters <==> k in s.counters;
      assert k in s.counters ==> Apply(s, c).counters[k] == s.counters[k];
    }
  }

  /** What has passed in the window and what can still pass stay within the bound. */
  ghost predicate Balanced(s: Store, spent: nat, k: Key, ttl: pos, cap: pos, from: nat, to: nat)
    requires from <= to
  {
    && Counting(s, k)
    && (s.now < from ==> spent == 0)
    && (from <= s.now < to ==> spent + Room(s, k, ttl, cap, to) <= Most(ttl, cap, to - from))
    && (s.now >= to ==> spent <= Most(ttl, cap, to - from))
  }

  lemma AttemptKeepsBalance(s: Store, spent: nat, k: Key, ttl: pos, cap: pos, from: nat, to: nat)
    requires from < to && Balanced(s, spent, k, ttl, cap, from, to)
    ensures var passes := Passes(s, Increment(k, ttl), k, cap, from, to);
            Balanced(Incr(s, k, ttl), spent + if passes then 1 else 0, k, ttl, cap, from, to)
  {
    if s.now < to {
      AttemptUsesRoom(s, k, ttl, cap, to);
    }
  }

  lemma OthersKeepBalance(s: Store, c: Command, spent: nat, k: Key, ttl: pos, cap: pos, from: nat, to: nat)
    requires from < to && Balanced(s, spent, k, ttl, cap, from, to) && !Touches(c, k)
    ensures Balanced(Apply(s, c), spent, k, ttl, cap, from, to)
  {
    OthersKeepRoom(s, c, k, ttl, cap, to);
    if from <= Apply(s, c).now {
      RoomAtOpening(Apply(s, c), k, ttl, cap, from, to);
    }
  }

  lemma {:induction false} RunKeepsBalance(cs: seq<Command>, k: Key, ttl: pos, cap: pos, from: nat, to: nat)
    requires OnlyCounts(cs, k, ttl) && from < to
    ensures Balanced(Run(EMPTY, cs), Admitted(cs, k, cap, from, to), k, ttl, cap, from, to)
  {
    if cs == [] {
      if from == 0 {
        RoomAtOpening(EMPTY, k, ttl, cap, from, to);
      }
    } else {
      var init, c := cs[..|cs| - 1], cs[|cs| - 1];
      RunKeepsBalance(init, k, ttl, cap, from, to);
      if Touches(c, k) {
        AttemptKeepsBalance(Run(EMPTY, init), Admitted(init, k, cap, from, to), k, ttl, cap, from, to);
      } else {
        OthersKeepBalance(Run(EMPTY, init), c, Admitted(init, k, cap, from, to), k, ttl, cap, from, to);
      }
    }
  }

  /**
   Over every run, at most cap * (ceiling(L / ttl) + 1) - 1 attempts pass in any window of length L.
   */
  lemma WindowBound(cs: seq<Command>, k: Key, ttl: pos, cap: pos, from: nat, to: nat)
    requires OnlyCounts(cs, k, ttl) && from < to
    ensures Admitted(cs, k, cap, from, to) <= cap * (Cover(to - from, ttl) + 1) - 1
  {
    RunKeepsBalance(cs, k, ttl, cap, from, to);
  }

  // ----- the bound is reached -----

  function Repeat(c: Command, n: nat): (cs: seq<Command>)
    ensures |cs| == n
  {
    if n == 0 then [] else Repeat(c, n - 1) + [c]
  }

  /** One attempt, then the rest of the cap just before the window turns over, then a whole cap just after. */
  function Peak(k: Key, ttl: pos, cap: pos): seq<Command> {
    [Increment(k, ttl), Wait(ttl - 1)] + Repeat(Increment(k, ttl), cap - 1) + [Wait(1)] + Repeat(Increment(k, ttl), cap)
  }

  lemma SnocRun(cs: seq<Command>, c: Command, k: Key, cap: pos, from: nat, to: nat)
    ensures Run(EMPTY, cs + [c]) == Apply(Run(EMPTY, cs), c)
    ensures Admitted(cs + [c], k, cap, from, to)
         == Admitted(cs, k, cap, from, to) + if Passes(Run(EMPTY, cs), c, k, cap, from, to) then 1 else 0
  {
    assert (cs + [c])[..|cs|] == cs;
  }

  /** `t` is `s` after `n` more attempts in the same instant. */
  ghost predicate AfterBurst(s: Store, t: Store, n: nat, k: Key) {
    && t.now == s.now
    && Counting(t, k)
    && ReadCounter(t, k) == ReadCounter(s, k) + n
    && (LiveCounter(s, k) ==> LiveCounter(t, k) && t.counters[k].expiry == s.counters[k].expiry)
  }

  lemma OneMore(s: Store, t: Store, n: nat, k: Key, ttl: pos)
    requires AfterBurst(s, t, n, k)
    ensures AfterBurst(s, Incr(t, k, ttl), n + 1, k)
  {
  }

  lemma RepeatSnoc(cs: seq<Command>, c: Command, n: nat)
    ensures n > 0 ==> cs + Repeat(c, n) == cs + Repeat(c, n - 1) + [c]
    ensures cs + Repeat(c, 0) == cs
  {
  }

  lemma BurstStep(cs: seq<Command>, head: seq<Command>, n: nat, k: Key, ttl: pos, cap: pos, from: nat, to: nat)
    requires AfterBurst(Run(EMPTY, cs), Run(EMPTY, head), n, k)
    requires from <= Run(EMPTY, cs).now < to && ReadCounter(Run(EMPTY, cs), k) + n + 1 <= cap
    ensures AfterBurst(Run(EMPTY, cs), Run(EMPTY, head + [Increment(k, ttl)]), n + 1, k)
    ensures Admitted(head + [Increment(k, ttl)], k, cap, from, to) == Admitted(head, k, cap, from, to) + 1
  {
    SnocRun(head, Increment(k, ttl), k, cap, from, to);
    OneMore(Run(EMPTY, cs), Run(EMPTY, head), n, k, ttl);
  }

  /** Attempts in a row while the counter has room all pass; a dead counter starts from 0. */
  lemma {:induction false} BurstPasses(cs: seq<Command>, n: nat, k: Key, ttl: pos, cap: pos, from: nat, to: nat)
    requires Counting(Run(EMPTY, cs), k) && from <= Run(EMPTY, cs).now < to && ReadCounter(Run(EMPTY, cs), k) + n <= cap
    ensures AfterBurst(Run(EMPTY, cs), Run(EMPTY, cs + Repeat(Increment(k, ttl), n)), n, k)
    ensures Admitted(cs + Repeat(Increment(k, ttl), n), k, cap, from, to) == Admitted(cs, k, cap, from, to) + n
  {
    if n == 0 {
      RepeatSnoc(cs, Increment(k, ttl), n);
    } else {
      BurstPasses(cs, n - 1, k, ttl, cap, from, to);
      var head := cs + Repeat(Increment(k, ttl), n - 1);
      RepeatSnoc(cs, Increment(k, ttl), n);
      BurstStep(cs, head, n - 1, k, ttl, cap, from, to);
    }
  }

  /** Up to the moment before the first window turns over. */
  lemma FirstHalf(k: Key, ttl: pos, cap: pos)
    requires ttl >= 2
    ensures var cs := [Increment(k, ttl), Wait(ttl - 1)] + Repeat(Increment(k, ttl), cap - 1);
            var s := Run(EMPTY, cs);
            && s.now == ttl - 1 && LiveCounter(s, k) && Counting(s, k) && s.counters[k].expiry == Some(ttl)
            && Admitted(cs, k, cap, ttl - 1, ttl + 1) == cap - 1
  {
    var inc := Increment(k, ttl);
    SnocRun([], inc, k, cap, ttl - 1, ttl + 1);
    SnocRun([inc], Wait(ttl - 1), k, cap, ttl - 1, ttl + 1);
    assert [] + [inc] == [inc] && [inc] + [Wait(ttl - 1)] == [inc, Wait(ttl - 1)];
    BurstPasses([inc, Wait(ttl - 1)], cap - 1, k, ttl, cap, ttl - 1, ttl + 1);
  }

  lemma {:induction false} RepeatOnly(c: Command, n: nat)
    ensures forall i | 0 <= i < n :: Repeat(c, n)[i] == c
  {
    if n > 0 {
      RepeatOnly(c, n - 1);
    }
  }

  lemma PeakOnlyCounts(k: Key, ttl: pos, cap: pos)
    ensures OnlyCounts(Peak(k, ttl, cap), k, ttl)
  {
    RepeatOnly(Increment(k, ttl), cap);
    RepeatOnly(Increment(k, ttl), cap - 1);
  }

  /** The counter expires, and a whole cap passes in the new life. */
  lemma SecondHalf(half: seq<Command>, k: Key, ttl: pos, cap: pos)
    requires var s := Run(EMPTY, half);
             s.now == ttl - 1 && LiveCounter(s, k) && Counting(s, k) && s.counters[k].expiry == Some(ttl)
    ensures Admitted(half + [Wait(1)] + Repeat(Increment(k, ttl), cap), k, cap, ttl - 1, ttl + 1)
         == Admitted(half, k, cap, ttl - 1, ttl + 1) + cap
  {
    SnocRun(half, Wait(1), k, cap, ttl - 1, ttl + 1);
    BurstPasses(half + [Wait(1)], cap, k, ttl, cap, ttl - 1, ttl + 1);
  }

  /**
   The bound is met by a counter on its own: without a cooldown `2 * cap - 1` attempts pass within two milliseconds.
   */
  lemma BoundReached(k: Key, ttl: pos, cap: pos)
    requires ttl >= 2
    ensures OnlyCounts(Peak(k, ttl, cap), k, ttl)
    ensures Admitted(Peak(k, ttl, cap), k, cap, ttl - 1, ttl + 1) == 2 * cap - 1
  {
    PeakOnlyCounts(k, ttl, cap);
    FirstHalf(k, ttl, cap);
    SecondHalf([Increment(k, ttl), Wait(ttl - 1)] + Repeat(Increment(k, ttl), cap - 1), k, ttl, cap);
  }

  // ----- one life of a counter that is also deleted -----

  /** The counter is never decremented; it may be deleted. */
  ghost predicate CountsOrClears(cs: seq<Command>, k: Key) {
    forall i | 0 <= i < |cs| :: Touches(cs[i], k) ==> cs[i].Increment? || cs[i].DeleteCounter?
  }

  /** The replies of the attempts counted in one life of the key, in order. */
  function RepliesInLife(cs: seq<Command>, k: Key, life: nat): seq<int> {
    if cs == [] then []
    else
      var init, c := cs[..|cs| - 1], cs[|cs| - 1];
      var s := Run(EMPTY, init);
      RepliesInLife(init, k, life) +
      if c.Increment? && c.key == k && Incr(s, k, c.ttl).counters[k].born == life then [IncrReply(s, k)] else []
  }

  ghost predicate CountsUp(replies: seq<int>) {
    forall i | 0 <= i < |replies| :: replies[i] == i + 1
  }

  ghost predicate LifeCounted(s: Store, replies: seq<int>, k: Key, life: nat) {
    && CountsUp(replies)
    && (life >= s.births ==> replies == [])
    && (k in s.counters ==> s.counters[k].born < s.births)
    && (k in s.counters && s.counters[k].born == life ==> s.counters[k].value == |replies| && |replies| > 0)
  }

  lemma {:induction false} LifeCountsUp(cs: seq<Command>, k: Key, life: nat)
    requires CountsOrClears(cs, k)
    ensures LifeCounted(Run(EMPTY, cs), RepliesInLife(cs, k, life), k, life)
  {
    if cs == [] {
    } else {
      var init, c := cs[..|cs| - 1], cs[|cs| - 1];
      LifeCountsUp(init, k, life);
      CommandKeepsLife(Run(EMPTY, init), c, RepliesInLife(init, k, life), k, life);
    }
  }

  lemma CommandKeepsLife(s: Store, c: Command, replies: seq<int>, k: Key, life: nat)
    requires LifeCounted(s, replies, k, life)
    requires Touches(c, k) ==> c.Increment? || c.DeleteCounter?
    ensures var counted := c.Increment? && c.key == k && Incr(s, k, c.ttl).counters[k].born == life;
            LifeCounted(Apply(s, c), replies + (if counted then [IncrReply(s, k)] else []), k, life)
  {
    if !Touches(c, k) {
      assert replies + [] == replies;
      assert k in Apply(s, c).counters <==> k in s.counters;
      assert k in s.counters ==> Apply(s, c).counters[k] == s.counters[k];
    } else if c.DeleteCounter? {
      assert replies + [] == replies;
    } else if Incr(s, k, c.ttl).counters[k].born != life {
      assert replies + [] == replies;
    }
  }

  function AtMost(replies: seq<int>, cap: nat): nat {
    if replies == [] then 0 else AtMost(replies[..|replies| - 1], cap) + if replies[|replies| - 1] <= cap then 1 else 0
  }

  lemma {:induction false} AtMostOfCountUp(replies: seq<int>, cap: nat)
    requires CountsUp(replies)
    ensures AtMost(replies, cap) == if |replies| <= cap then |replies| else cap
  {
    if replies == [] {
    } else {
      AtMostOfCountUp(replies[..|replies| - 1], cap);
    }
  }

  /** In one life of a key the attempts are numbered 1, 2, 3, ..., so exactly the first `cap` of them pass. */
  lemma OneLifeBound(cs: seq<Command>, k: Key, cap: nat, life: nat)
    requires CountsOrClears(cs, k)
    ensures var replies := RepliesInLife(cs, k, life);
            CountsUp(replies) && AtMost(replies, cap) == if |replies| <= cap then |replies| else cap
  {
    LifeCountsUp(cs, k, life);
    AtMostOfCountUp(RepliesInLife(cs, k, life), cap);
  }
}
