/**
 When a verification is true, told from the rows of the tables and from the verifications of the run: the failed ones
 that count are counted here, not read from their counter.
 */
module BindVerify {
  import opened Prelude
  import opened AuthKeys
  import opened RedisStore
  import opened AuthLimits
  import opened BindTables
  import opened BindCodes
  import opened BindSerial

  // ----- the row that decides -----

  predicate LiveFor(r: CodeRow, q: Query, now: nat) {
    r.appId == q.appId && r.email == q.email && r.typ == q.typ && now < r.expiredAt
  }

  /** Row `i` is live, has the code, and is the first such row. */
  ghost predicate FirstWith(rows: seq<CodeRow>, q: Query, now: nat, i: nat) {
    && i < |rows| && LiveFor(rows[i], q, now) && rows[i].code == q.code
    && forall j | 0 <= j < i :: !(LiveFor(rows[j], q, now) && rows[j].code == q.code)
  }

  lemma {:induction false} FindSnoc(live: seq<CodeRow>, r: CodeRow, code: string)
    ensures FindCode(live + [r], code)
            == if FindCode(live, code).Some? then FindCode(live, code) else if r.code == code then Some(r) else None
  {
    if live == [] {
      assert [] + [r] == [r];
    } else {
      assert (live + [r])[1..] == live[1..] + [r];
      FindSnoc(live[1..], r, code);
    }
  }

  /** The code that is found is that of the first row, and none is when there is no such row. */
  lemma {:induction false} FoundIs(rows: seq<CodeRow>, q: Query, now: nat)
    ensures var found := FindCode(UnexpiredRows(rows, q.appId, q.email, q.typ, now), q.code);
            && (forall i: nat :: FirstWith(rows, q, now, i) ==> found == Some(rows[i]))
            && (found.Some? ==> exists i: nat :: FirstWith(rows, q, now, i))
  {
    if rows != [] {
      var n := |rows| - 1;
      FoundIs(rows[..n], q, now);
      FindSnoc(UnexpiredRows(rows[..n], q.appId, q.email, q.typ, now), rows[n], q.code);
      var before := FindCode(UnexpiredRows(rows[..n], q.appId, q.email, q.typ, now), q.code);
      if before.Some? {
        var i: nat :| FirstWith(rows[..n], q, now, i);
        assert FirstWith(rows, q, now, i);
      } else if LiveFor(rows[n], q, now) && rows[n].code == q.code {
        assert FirstWith(rows, q, now, n) by {
          NoneBefore(rows[..n], q, now);
        }
      }
      forall i: nat | FirstWith(rows, q, now, i) && i < n
        ensures FirstWith(rows[..n], q, now, i)
      {
      }
    }
  }

  lemma {:induction false} NoneBefore(rows: seq<CodeRow>, q: Query, now: nat)
    requires FindCode(UnexpiredRows(rows, q.appId, q.email, q.typ, now), q.code) == None
    ensures forall j | 0 <= j < |rows| :: !(LiveFor(rows[j], q, now) && rows[j].code == q.code)
  {
    if rows != [] {
      var n := |rows| - 1;
      FindSnoc(UnexpiredRows(rows[..n], q.appId, q.email, q.typ, now), rows[n], q.code);
      NoneBefore(rows[..n], q, now);
    }
  }

  /** The first row with the code is younger than half an hour and not expired. */
  ghost predicate RightCode(rows: seq<CodeRow>, q: Query, now: nat) {
    exists i: nat :: FirstWith(rows, q, now, i) && 0 < rows[i].expiredAt - now < 1800000
  }

  lemma CodeGoodIff(rows: seq<CodeRow>, q: Query, now: nat)
    ensures CodeGood(rows, q.appId, q.email, q.typ, q.code, now) <==> RightCode(rows, q, now)
  {
    FoundIs(rows, q, now);
  }

  // ----- the verifications that count -----

  /** A live challenge for the email names the member. */
  ghost predicate Named(s: Store, q: Query) {
    var k := DeviceBind(q.appId, Normalize(q.email));
    && q.appId != "" && q.email != "" && q.memberId != ""
    && LiveDoc(s, k) && s.docs[k].value == BindChallenge(q.memberId)
  }

  /** `n` failed verifications count until `until`. */
  datatype Fails = Fails(n: nat, until: nat)

  function Failures(f: Fails, now: nat): nat {
    if now < f.until then f.n else 0
  }

  /** The first one to count begins an hour; one that is right is taken back. */
  function NextFails(f: Fails, now: nat, right: bool): Fails {
    if Failures(f, now) > 0 then (if right then f else Fails(f.n + 1, f.until))
    else Fails(if right then 0 else 1, now + 3600000)
  }

  /** The request is checked: the member is challenged, and fewer than ten failures count. */
  ghost predicate Checked(s: Store, f: Fails, q: Query) {
    q.typ == "bind-device-limit" && Named(s, q) && Failures(f, s.now) < 10
  }

  ghost function FailsOf(emailOf: (string, string) -> string, ops: seq<Op>, appId: string, memberId: string): Fails {
    if ops == [] then Fails(0, 0)
    else
      var init, op := ops[..|ops| - 1], ops[|ops| - 1];
      var sys, f := Play(emailOf, INIT, init), FailsOf(emailOf, init, appId, memberId);
      if op.VerifyCode? && op.q.appId == appId && op.q.memberId == memberId && Checked(sys.store, f, op.q)
      then NextFails(f, sys.store.now, Verify(sys, op.q).1)
      else f
  }

  // ----- their counter -----

  ghost predicate Shows(s: Store, k: Key, f: Fails) {
    if LiveCounter(s, k) then s.counters[k].value == f.n && s.counters[k].expiry == Some(f.until)
    else s.now >= f.until
  }

  lemma ShowsRead(s: Store, k: Key, f: Fails)
    requires Shows(s, k, f)
    ensures ReadCounter(s, k) == Failures(f, s.now)
  {
  }

  lemma CheckedIff(s: Store, f: Fails, q: Query)
    requires Shows(s, FailKey(q), f)
    ensures Challenged(s, q) <==> Checked(s, f, q)
  {
    ShowsRead(s, FailKey(q), f);
  }

  /** The same counter at the same time or later. */
  ghost predicate Kept(s: Store, s': Store, k: Key) {
    && s.now <= s'.now && (k in s'.counters <==> k in s.counters)
    && (k in s.counters ==> s'.counters[k] == s.counters[k])
  }

  lemma KeptShows(s: Store, s': Store, k: Key, f: Fails)
    requires Shows(s, k, f) && Kept(s, s', k)
    ensures Shows(s', k, f)
  {
  }

  lemma CountsOne(s: Store, k: Key, f: Fails)
    requires Shows(s, k, f)
    ensures Shows(Incr(s, k, 3600000), k, NextFails(f, s.now, false))
    ensures Shows(Decr(Incr(s, k, 3600000), k), k, NextFails(f, s.now, true))
  {
  }

  lemma VerifyShows(sys: Sys, q: Query, f: Fails)
    requires Shows(sys.store, FailKey(q), f)
    ensures Shows(Verify(sys, q).0.store, FailKey(q),
                  if Challenged(sys.store, q) then NextFails(f, sys.store.now, Verify(sys, q).1) else f)
  {
    CountsOne(sys.store, FailKey(q), f);
  }

  lemma SendKeeps(sys: Sys, a: string, email: string, typ: string, draws: seq<Draw>, k: Key)
    requires k.DeviceBindFail?
    ensures Kept(sys.store, Send(sys, a, email, typ, draws).store, k)
  {
  }

  lemma VerifyOtherKeeps(sys: Sys, q: Query, k: Key)
    requires k != FailKey(q)
    ensures Kept(sys.store, Verify(sys, q).0.store, k)
  {
    VerifyStore(sys, q);
  }

  lemma OpShows(emailOf: (string, string) -> string, sys: Sys, op: Op, appId: string, memberId: string, f: Fails)
    requires Shows(sys.store, DeviceBindFail(appId, memberId), f)
    requires op.VerifyCode? ==> op.q.appId != appId || op.q.memberId != memberId
    ensures Shows(Do(emailOf, sys, op).store, DeviceBindFail(appId, memberId), f)
  {
    var k := DeviceBindFail(appId, memberId);
    match op
    case LoginAtLimit(a, m, draws) =>
      var email := emailOf(a, m);
      var store := SetEx(sys.store, DeviceBind(a, Normalize(email)), BindChallenge(m), DEVICE_BIND_TTL);
      SendKeeps(sys.(store := store), a, email, BIND_DEVICE_LIMIT, draws, k);
      KeptShows(sys.store, Login(sys, a, m, email, draws).store, k, f);
    case SendCode(a, email, typ, draws) =>
      SendKeeps(sys, a, email, typ, draws, k);
      KeptShows(sys.store, Send(sys, a, email, typ, draws).store, k, f);
    case VerifyCode(q) =>
      VerifyOtherKeeps(sys, q, k);
      KeptShows(sys.store, Verify(sys, q).0.store, k, f);
    case TimePasses(d) => KeptShows(sys.store, Tick(sys.store, d), k, f);
    case DevicesChange(_) =>
  }

  lemma {:induction false} FailsShown(emailOf: (string, string) -> string, ops: seq<Op>, appId: string,
                                      memberId: string)
    ensures Shows(Play(emailOf, INIT, ops).store, DeviceBindFail(appId, memberId),
                  FailsOf(emailOf, ops, appId, memberId))
  {
    if ops == [] {
    } else {
      var init, op := ops[..|ops| - 1], ops[|ops| - 1];
      FailsShown(emailOf, init, appId, memberId);
      var sys, f := Play(emailOf, INIT, init), FailsOf(emailOf, init, appId, memberId);
      if op.VerifyCode? && op.q.appId == appId && op.q.memberId == memberId {
        VerifyShows(sys, op.q, f);
        CheckedIff(sys.store, f, op.q);
      } else {
        OpShows(emailOf, sys, op, appId, memberId, f);
      }
    }
  }

  // ----- the results -----

  /** How many failed verifications of the member count at the end of the run. */
  ghost function FailuresIn(emailOf: (string, string) -> string, ops: seq<Op>, appId: string, memberId: string): nat {
    Failures(FailsOf(emailOf, ops, appId, memberId), Play(emailOf, INIT, ops).store.now)
  }

  /** A member is locked exactly when ten failed verifications count. */
  lemma LockedIff(emailOf: (string, string) -> string, ops: seq<Op>, appId: string, memberId: string)
    ensures BindLocked(Play(emailOf, INIT, ops).store, appId, memberId)
            <==> FailuresIn(emailOf, ops, appId, memberId) >= 10
  {
    FailsShown(emailOf, ops, appId, memberId);
    ShowsRead(Play(emailOf, INIT, ops).store, DeviceBindFail(appId, memberId), FailsOf(emailOf, ops, appId, memberId));
  }

  /**
   After any run a verification is true exactly when its type is that of devices, a live challenge for the email names
   the member, fewer than ten failures count, the first live row with the code is younger than half an hour, and the
   member has a device to give up.
   */
  lemma VerifiedIff(emailOf: (string, string) -> string, ops: seq<Op>, q: Query)
    ensures var sys := Play(emailOf, INIT, ops);
            Verify(sys, q).1
            <==> (&& q.typ == "bind-device-limit" && Named(sys.store, q)
                  && FailuresIn(emailOf, ops, q.appId, q.memberId) < 10
                  && RightCode(sys.codes, q, sys.store.now)
                  && exists d :: d in sys.devices && d.memberId == q.memberId)
  {
    var sys := Play(emailOf, INIT, ops);
    FailsShown(emailOf, ops, q.appId, q.memberId);
    CheckedIff(sys.store, FailsOf(emailOf, ops, q.appId, q.memberId), q);
    CodeGoodIff(sys.codes, q, sys.store.now);
    VerifyTrueIff(sys, q);
  }
}
