/**
 The part of Redis the service relies on: counters, documents and sets under keys that may expire.
 Every function below is one Redis command or one Lua script, and so one atomic step. Time is in milliseconds.
 */
module RedisStore {
  import opened Prelude
  import opened AuthKeys

  const SECOND := 1000

  /** What the service stores under a string key, with its JSON already read. */
  datatype Doc =
    | Flag
    | BindChallenge(memberId: string)
    | TokenDoc(tokenHash: string, appId: string)

  /** `born` numbers the lives of counters: a key that is created again gets a new number. */
  datatype Counter = Counter(value: int, expiry: Option<nat>, born: nat)

  datatype Entry<+V> = Entry(value: V, expiry: Option<nat>)

  datatype Store = Store(
    now: nat,
    births: nat,
    counters: map<Key, Counter>,
    docs: map<Key, Entry<Doc>>,
    sets: map<Key, Entry<set<string>>>
  )

  const EMPTY := Store(0, 0, map[], map[], map[])

  predicate Unexpired(expiry: Option<nat>, now: nat) {
    expiry.Some? ==> now < expiry.value
  }

  predicate LiveCounter(s: Store, k: Key) {
    k in s.counters && Unexpired(s.counters[k].expiry, s.now)
  }

  predicate LiveDoc(s: Store, k: Key) {
    k in s.docs && Unexpired(s.docs[k].expiry, s.now)
  }

  predicate LiveSet(s: Store, k: Key) {
    k in s.sets && Unexpired(s.sets[k].expiry, s.now)
  }

  // ----- commands -----

  function ReadCounter(s: Store, k: Key): int {
    if LiveCounter(s, k) then s.counters[k].value else 0
  }

  function GetDoc(s: Store, k: Key): Option<Doc> {
    if LiveDoc(s, k) then Some(s.docs[k].value) else None
  }

  function SetMembers(s: Store, k: Key): set<string> {
    if LiveSet(s, k) then s.sets[k].value else {}
  }

  /** INCR, then EXPIRE when the new value is 1. */
  function Incr(s: Store, k: Key, ttl: pos): Store {
    if LiveCounter(s, k) then
      var n := s.counters[k].value + 1;
      var expiry := if n == 1 then Some(s.now + ttl) else s.counters[k].expiry;
      s.(counters := s.counters[k := Counter(n, expiry, s.counters[k].born)])
    else
      s.(counters := s.counters[k := Counter(1, Some(s.now + ttl), s.births)], births := s.births + 1)
  }

  function IncrReply(s: Store, k: Key): int {
    ReadCounter(s, k) + 1
  }

  /** DECR of a key that exists; otherwise nothing. */
  function Decr(s: Store, k: Key): Store {
    if LiveCounter(s, k) then s.(counters := s.counters[k := s.counters[k].(value := s.counters[k].value - 1)])
    else s
  }

  function SetEx(s: Store, k: Key, doc: Doc, ttl: pos): Store {
    s.(docs := s.docs[k := Entry(doc, Some(s.now + ttl))])
  }

  /** SET NX EX: writes only when the key does not exist. */
  function SetNx(s: Store, k: Key, ttl: pos): Store {
    if LiveDoc(s, k) then s else SetEx(s, k, Flag, ttl)
  }

  function DelCounter(s: Store, k: Key): Store {
    s.(counters := s.counters - {k})
  }

  function DelDoc(s: Store, k: Key): Store {
    s.(docs := s.docs - {k})
  }

  /** SADD creates the set without an expiry and keeps the expiry of one that exists. */
  function Sadd(s: Store, k: Key, member: string): Store {
    if LiveSet(s, k) then s.(sets := s.sets[k := s.sets[k].(value := s.sets[k].value + {member})])
    else s.(sets := s.sets[k := Entry({member}, None)])
  }

  function DelSet(s: Store, k: Key): Store {
    s.(sets := s.sets - {k})
  }

  /** EXPIRE does nothing to a key that does not exist. */
  function ExpireSet(s: Store, k: Key, ttl: pos): Store {
    if LiveSet(s, k) then s.(sets := s.sets[k := s.sets[k].(expiry := Some(s.now + ttl))]) else s
  }

  function Tick(s: Store, d: nat): Store {
    s.(now := s.now + d)
  }

  // ----- runs of commands -----

  datatype Command =
    | Increment(key: Key, ttl: pos)
    | Decrement(key: Key)
    | Write(key: Key, doc: Doc, ttl: pos)
    | WriteNew(key: Key, ttl: pos)
    | DeleteCounter(key: Key)
    | DeleteDoc(key: Key)
    | AddMember(key: Key, member: string)
    | ExpireMembers(key: Key, ttl: pos)
    | DeleteSet(key: Key)
    | Wait(d: nat)

  function Apply(s: Store, c: Command): Store {
    match c
    case Increment(k, ttl) => Incr(s, k, ttl)
    case Decrement(k) => Decr(s, k)
    case Write(k, doc, ttl) => SetEx(s, k, doc, ttl)
    case WriteNew(k, ttl) => SetNx(s, k, ttl)
    case DeleteCounter(k) => DelCounter(s, k)
    case DeleteDoc(k) => DelDoc(s, k)
    case AddMember(k, member) => Sadd(s, k, member)
    case ExpireMembers(k, ttl) => ExpireSet(s, k, ttl)
    case DeleteSet(k) => DelSet(s, k)
    case Wait(d) => Tick(s, d)
  }

  function Run(s: Store, cs: seq<Command>): Store {
    if cs == [] then s else Apply(Run(s, cs[..|cs| - 1]), cs[|cs| - 1])
  }

  /** The command may change what the counter under `k` holds. */
  predicate Touches(c: Command, k: Key) {
    (c.Increment? || c.Decrement? || c.DeleteCounter?) && c.key == k
  }

  // ----- what the scripts promise -----

  /**
   The script sets the expiry when INCR returns 1. That is the case for a key that does not exist, as its
   comment says, and also for a live key that was decremented to 0: then the window starts again.
   */
  lemma RearmsIff(s: Store, k: Key, ttl: pos)
    requires LiveCounter(s, k) ==> s.counters[k].expiry != Some(s.now + ttl)
    ensures Incr(s, k, ttl).counters[k].expiry == Some(s.now + ttl)
            <==> !LiveCounter(s, k) || s.counters[k].value == 0
    ensures LiveCounter(Incr(s, k, ttl), k)
    ensures Incr(s, k, ttl).counters[k].born == s.births <==> !LiveCounter(s, k) || s.counters[k].born == s.births
  {
  }

  /** No counter is ever left without an expiry, whatever is incremented, decremented or removed. */
  ghost predicate EveryCounterExpires(s: Store) {
    forall k | k in s.counters :: s.counters[k].expiry.Some?
  }

  /** The lives handed out so far are numbered below `births`, and no two keys share one. */
  ghost predicate LivesNumbered(s: Store) {
    && (forall k | k in s.counters :: s.counters[k].born < s.births)
    && (forall k, l | k in s.counters && l in s.counters && k != l :: s.counters[k].born != s.counters[l].born)
  }

  lemma IncrKeepsCounters(s: Store, k: Key, ttl: pos)
    requires EveryCounterExpires(s) && LivesNumbered(s)
    ensures EveryCounterExpires(Incr(s, k, ttl)) && LivesNumbered(Incr(s, k, ttl))
  {
  }

  lemma ApplyKeepsCounters(s: Store, c: Command)
    requires EveryCounterExpires(s) && LivesNumbered(s)
    ensures EveryCounterExpires(Apply(s, c)) && LivesNumbered(Apply(s, c))
  {
    if c.Increment? {
      IncrKeepsCounters(s, c.key, c.ttl);
    } else if c.Decrement? || c.DeleteCounter? {
    } else {
      assert Apply(s, c).counters == s.counters && Apply(s, c).births == s.births;
    }
  }

  lemma {:induction false} RunKeepsCounters(cs: seq<Command>)
    ensures EveryCounterExpires(Run(EMPTY, cs)) && LivesNumbered(Run(EMPTY, cs))
  {
    if cs == [] {
    } else {
      RunKeepsCounters(cs[..|cs| - 1]);
      ApplyKeepsCounters(Run(EMPTY, cs[..|cs| - 1]), cs[|cs| - 1]);
    }
  }

  // ----- the script that increments several keys -----

  datatype Limit = Limit(key: Key, ttl: pos)

  function IncrAll(s: Store, limits: seq<Limit>): Store {
    if limits == [] then s else Incr(IncrAll(s, limits[..|limits| - 1]), limits[|limits| - 1].key,
                                     limits[|limits| - 1].ttl)
  }

  function IncrReplies(s: Store, limits: seq<Limit>): (values: seq<int>)
    ensures |values| == |limits|
  {
    if limits == [] then []
    else
      var init := limits[..|limits| - 1];
      IncrReplies(s, init) + [IncrReply(IncrAll(s, init), limits[|limits| - 1].key)]
  }

  predicate DistinctKeys(limits: seq<Limit>) {
    forall i, j | 0 <= i < j < |limits| :: limits[i].key != limits[j].key
  }

  lemma {:induction false} IncrAllFrame(s: Store, limits: seq<Limit>, k: Key)
    requires forall i | 0 <= i < |limits| :: limits[i].key != k
    ensures k in IncrAll(s, limits).counters <==> k in s.counters
    ensures k in s.counters ==> IncrAll(s, limits).counters[k] == s.counters[k]
    ensures IncrAll(s, limits).now == s.now
  {
    if limits == [] {
    } else {
      IncrAllFrame(s, limits[..|limits| - 1], k);
    }
  }

  /** The keys of one call do not disturb each other: each reply is what incrementing that key alone would give. */
  lemma {:induction false} IncrAllEach(s: Store, limits: seq<Limit>, i: nat)
    requires DistinctKeys(limits) && i < |limits|
    ensures IncrReplies(s, limits)[i] == IncrReply(s, limits[i].key)
    ensures ReadCounter(IncrAll(s, limits), limits[i].key) == IncrReply(s, limits[i].key)
    decreases |limits|
  {
    var n := |limits| - 1;
    var init := limits[..n];
    if i < n {
      IncrAllEach(s, init, i);
      assert limits[n].key != limits[i].key;
    } else {
      IncrAllFrame(s, init, limits[i].key);
    }
  }

  /** A connection to the store. Each method is one round trip. */
  class Redis {
    var store: Store

    constructor ()
      ensures store == EMPTY
    {
      store := EMPTY;
    }

    /** The script INCR_WITH_TTL: one loop over the keys, one atomic step for the caller. */
    method IncrementWithTtl(limits: seq<Limit>) returns (values: seq<int>)
      modifies this
      ensures store == IncrAll(old(store), limits)
      ensures values == IncrReplies(old(store), limits)
    {
      values := [];
      var i := 0;
      while i < |limits|
        invariant 0 <= i <= |limits|
        invariant store == IncrAll(old(store), limits[..i])
        invariant values == IncrReplies(old(store), limits[..i])
      {
        assert limits[..i + 1][..i] == limits[..i];
        values := values + [IncrReply(store, limits[i].key)];
        store := Incr(store, limits[i].key, limits[i].ttl);
        i := i + 1;
      }
      assert limits[..i] == limits;
    }

    /** Never creates a key; a live counter loses one and keeps its life and its expiry. */
    method DecrementIfExists(key: Key) returns (value: int)
      modifies this
      ensures store == Decr(old(store), key)
      ensures !LiveCounter(old(store), key) ==> store == old(store) && value == 0
      ensures LiveCounter(old(store), key) ==>
                && value == ReadCounter(store, key) == ReadCounter(old(store), key) - 1
                && store.counters[key] == old(store).counters[key].(value := value)
      ensures store.counters.Keys == old(store).counters.Keys
    {
      value := if LiveCounter(store, key) then store.counters[key].value - 1 else 0;
      store := Decr(store, key);
    }

    /** True for the one caller that finds no live key; everybody else changes nothing. */
    method AcquireCooldown(key: Key, ttl: pos) returns (created: bool)
      modifies this
      ensures store == SetNx(old(store), key, ttl)
      ensures created <==> !LiveDoc(old(store), key)
      ensures !created ==> store == old(store)
      ensures LiveDoc(store, key) && (created ==> store.docs[key].expiry == Some(store.now + ttl))
    {
      created := !LiveDoc(store, key);
      store := SetNx(store, key, ttl);
    }

    method Set(key: Key, doc: Doc, ttl: pos)
      modifies this
      ensures store == SetEx(old(store), key, doc, ttl)
    {
      store := SetEx(store, key, doc, ttl);
    }

    method DelOne(key: Key)
      modifies this
      ensures store == DelDoc(old(store), key)
    {
      store := DelDoc(store, key);
    }

    /** One DEL command with two keys. */
    method DelCounters(key1: Key, key2: Key)
      modifies this
      ensures store == DelCounter(DelCounter(old(store), key1), key2)
    {
      store := DelCounter(DelCounter(store, key1), key2);
    }

    method SetAdd(key: Key, member: string)
      modifies this
      ensures store == Sadd(old(store), key, member)
    {
      store := Sadd(store, key, member);
    }

    method Expire(key: Key, ttl: pos)
      modifies this
      ensures store == ExpireSet(old(store), key, ttl)
    {
      store := ExpireSet(store, key, ttl);
    }
  }
}
