/** The mails of the device-bind flow are the passing tries of a gate: a serial run as one member's send keys see it. */
module BindSends {
  import opened Prelude
  import opened AuthKeys
  import opened RedisStore
  import opened AuthLimits
  import opened BindTables
  import opened BindCodes
  import opened BindSerial
  import SW = SendWindows
  import ST = SendTries

  function Gate(appId: string, memberId: string): SW.Limits {
    SW.BindLimits(appId, memberId)
  }

  // ----- what each request is for the gate of one member -----

  /** The gate of member (a, m) as the gate of (appId, memberId) sees it. */
  function GateTries(s: Store, a: string, m: string, appId: string, memberId: string): seq<SW.Op> {
    if a == appId && m == memberId then [SW.Try]
    else if LiveDoc(s, DeviceBindSendCooldown(a, m)) then []
    else [SW.Other(WriteNew(DeviceBindSendCooldown(a, m), 60000)),
          SW.Other(Increment(DeviceBindSendCount(a, m), 3600000))]
  }

  function SendTries(s: Store, a: string, email: string, typ: string, appId: string, memberId: string): seq<SW.Op> {
    if typ != BIND_DEVICE_LIMIT then []
    else
      match ChallengeMember(s, a, email)
      case None => []
      case Some(m) => GateTries(s, a, m, appId, memberId)
  }

  function Challenge(s: Store, a: string, m: string, email: string): Store {
    SetEx(s, DeviceBind(a, Normalize(email)), BindChallenge(m), 1800000)
  }

  function LoginTries(s: Store, a: string, m: string, email: string, appId: string, memberId: string): seq<SW.Op> {
    if email == "" || BindLocked(s, a, m) then []
    else
      [SW.Other(Write(DeviceBind(a, Normalize(email)), BindChallenge(m), 1800000))]
      + SendTries(Challenge(s, a, m, email), a, email, BIND_DEVICE_LIMIT, appId, memberId)
  }

  function VerifyTries(sys: Sys, q: Query): seq<SW.Op> {
    if !Challenged(sys.store, q) then []
    else
      [SW.Other(Increment(FailKey(q), 3600000))]
      + (if Verify(sys, q).1
         then [SW.Other(Decrement(FailKey(q))), SW.Other(DeleteDoc(DeviceBind(q.appId, Normalize(q.email))))]
         else if ReadCounter(sys.store, FailKey(q)) + 1 >= 10
         then [SW.Other(DeleteDoc(DeviceBind(q.appId, Normalize(q.email))))] else [])
  }

  function Tries(emailOf: (string, string) -> string, sys: Sys, op: Op, appId: string, memberId: string): seq<SW.Op> {
    match op
    case LoginAtLimit(a, m, _) => LoginTries(sys.store, a, m, emailOf(a, m), appId, memberId)
    case SendCode(a, email, typ, _) => SendTries(sys.store, a, email, typ, appId, memberId)
    case VerifyCode(q) => VerifyTries(sys, q)
    case TimePasses(d) => [SW.Other(Wait(d))]
    case DevicesChange(_) => []
  }

  function AllTries(emailOf: (string, string) -> string, ops: seq<Op>, appId: string, memberId: string): seq<SW.Op> {
    if ops == [] then []
    else
      var init := ops[..|ops| - 1];
      AllTries(emailOf, init, appId, memberId)
      + Tries(emailOf, Play(emailOf, INIT, init), ops[|ops| - 1], appId, memberId)
  }

  // ----- mails -----

  /** A request that queues a mail with a code for the member. */
  predicate Mails(emailOf: (string, string) -> string, sys: Sys, op: Op, appId: string, memberId: string) {
    match op
    case SendCode(a, email, typ, _) =>
      a == appId && ChallengeMember(sys.store, a, email) == Some(memberId) && SendAllowed(sys.store, a, email, typ)
    case LoginAtLimit(a, m, _) =>
      && a == appId && m == memberId && emailOf(a, m) != "" && !BindLocked(sys.store, a, m)
      && SendAllowed(Challenge(sys.store, a, m, emailOf(a, m)), a, emailOf(a, m), BIND_DEVICE_LIMIT)
    case _ => false
  }

  function Mailed(emailOf: (string, string) -> string, ops: seq<Op>, appId: string, memberId: string, from: int,
                  to: int): nat {
    if ops == [] then 0
    else
      var init := ops[..|ops| - 1];
      var sys := Play(emailOf, INIT, init);
      Mailed(emailOf, init, appId, memberId, from, to)
      + Unit(Mails(emailOf, sys, ops[|ops| - 1], appId, memberId) && from <= sys.store.now < to)
  }

  // ----- the steps agree -----

  /** The steps lead from `s` to `s'`, and let `n` pass in the window. */
  ghost predicate Leads(g: SW.Limits, s: Store, ops: seq<SW.Op>, s': Store, from: int, to: int, n: nat) {
    SW.Play(g, s, ops) == s' && SW.Sends(g, s, ops, from, to) == n
  }

  lemma LeadsOne(g: SW.Limits, s: Store, op: SW.Op, from: int, to: int)
    ensures Leads(g, s, [op], SW.Do(g, s, op), from, to, Unit(SW.Passes(g, s, op, from, to)))
  {
    assert [op][1..] == [];
  }

  lemma LeadsOther(g: SW.Limits, s: Store, c: Command, from: int, to: int)
    requires SW.Apart(g, c)
    ensures Leads(g, s, [SW.Other(c)], Apply(s, c), from, to, 0)
  {
    LeadsOne(g, s, SW.Other(c), from, to);
  }

  lemma LeadsBoth(g: SW.Limits, s: Store, a: seq<SW.Op>, s1: Store, b: seq<SW.Op>, s2: Store, from: int, to: int,
                  m: nat, n: nat)
    requires Leads(g, s, a, s1, from, to, m) && Leads(g, s1, b, s2, from, to, n)
    ensures Leads(g, s, a + b, s2, from, to, m + n)
  {
    SW.PlayThen(g, s, a, b, from, to);
  }

  lemma LeadsNowhere(g: SW.Limits, s: Store, from: int, to: int)
    ensures Leads(g, s, [], s, from, to, 0)
  {
  }

  lemma GateLeads(s: Store, a: string, m: string, appId: string, memberId: string, from: int, to: int)
    ensures Leads(Gate(appId, memberId), s, GateTries(s, a, m, appId, memberId), BindSendGate(s, a, m), from, to,
                  Unit(a == appId && m == memberId && BindSendOpen(s, a, m) && from <= s.now < to))
  {
    var g := Gate(appId, memberId);
    if a == appId && m == memberId {
      LeadsOne(g, s, SW.Try, from, to);
    } else if LiveDoc(s, DeviceBindSendCooldown(a, m)) {
      LeadsNowhere(g, s, from, to);
    } else {
      var c, d := WriteNew(DeviceBindSendCooldown(a, m), 60000), Increment(DeviceBindSendCount(a, m), 3600000);
      LeadsOther(g, s, c, from, to);
      LeadsOther(g, Apply(s, c), d, from, to);
      LeadsBoth(g, s, [SW.Other(c)], Apply(s, c), [SW.Other(d)], Apply(Apply(s, c), d), from, to, 0, 0);
      assert [SW.Other(c)] + [SW.Other(d)] == [SW.Other(c), SW.Other(d)];
    }
  }

  lemma SendStore(sys: Sys, a: string, email: string, typ: string, draws: seq<Draw>)
    ensures Send(sys, a, email, typ, draws).store
            == if typ == BIND_DEVICE_LIMIT && ChallengeMember(sys.store, a, email).Some?
               then BindSendGate(sys.store, a, ChallengeMember(sys.store, a, email).value) else sys.store
  {
  }

  lemma SendLeads(sys: Sys, a: string, email: string, typ: string, draws: seq<Draw>, appId: string, memberId: string,
                  from: int, to: int)
    ensures Leads(Gate(appId, memberId), sys.store, SendTries(sys.store, a, email, typ, appId, memberId),
                  Send(sys, a, email, typ, draws).store, from, to,
                  Unit(a == appId && ChallengeMember(sys.store, a, email) == Some(memberId)
                       && SendAllowed(sys.store, a, email, typ) && from <= sys.store.now < to))
  {
    SendStore(sys, a, email, typ, draws);
    var found := ChallengeMember(sys.store, a, email);
    if typ == BIND_DEVICE_LIMIT && found.Some? {
      GateLeads(sys.store, a, found.value, appId, memberId, from, to);
    } else {
      LeadsNowhere(Gate(appId, memberId), sys.store, from, to);
    }
  }

  lemma OwnChallenge(s: Store, a: string, m: string, email: string)
    ensures ChallengeMember(Challenge(s, a, m, email), a, email)
            == if a == "" || email == "" || m == "" then None else Some(m)
  {
  }

  lemma LoginLeads(sys: Sys, a: string, m: string, email: string, draws: seq<Draw>, appId: string, memberId: string,
                   from: int, to: int)
    requires appId != "" && memberId != ""
    ensures Leads(Gate(appId, memberId), sys.store, LoginTries(sys.store, a, m, email, appId, memberId),
                  Login(sys, a, m, email, draws).store, from, to,
                  Unit(a == appId && m == memberId && email != "" && !BindLocked(sys.store, a, m)
                       && SendAllowed(Challenge(sys.store, a, m, email), a, email, BIND_DEVICE_LIMIT)
                       && from <= sys.store.now < to))
  {
    var g, s := Gate(appId, memberId), sys.store;
    if email == "" || BindLocked(s, a, m) {
      LeadsNowhere(g, s, from, to);
    } else {
      var c, s1 := Write(DeviceBind(a, Normalize(email)), BindChallenge(m), 1800000), Challenge(s, a, m, email);
      LeadsOther(g, s, c, from, to);
      OwnChallenge(s, a, m, email);
      SendLeads(sys.(store := s1), a, email, BIND_DEVICE_LIMIT, draws, appId, memberId, from, to);
      LeadsBoth(g, s, [SW.Other(c)], s1, SendTries(s1, a, email, BIND_DEVICE_LIMIT, appId, memberId),
                Login(sys, a, m, email, draws).store, from, to, 0,
                Unit(a == appId && ChallengeMember(s1, a, email) == Some(memberId)
                     && SendAllowed(s1, a, email, BIND_DEVICE_LIMIT) && from <= s1.now < to));
    }
  }

  lemma VerifyStore(sys: Sys, q: Query)
    ensures var s, k := sys.store, DeviceBind(q.appId, Normalize(q.email));
            Verify(sys, q).0.store
            == if !Challenged(s, q) then s
               else if Verify(sys, q).1 then DelDoc(Decr(Incr(s, FailKey(q), 3600000), FailKey(q)), k)
               else if ReadCounter(s, FailKey(q)) + 1 >= 10 then DelDoc(Incr(s, FailKey(q), 3600000), k)
               else Incr(s, FailKey(q), 3600000)
  {
  }

  lemma VerifyLeads(sys: Sys, q: Query, appId: string, memberId: string, from: int, to: int)
    ensures Leads(Gate(appId, memberId), sys.store, VerifyTries(sys, q), Verify(sys, q).0.store, from, to, 0)
  {
    VerifyStore(sys, q);
    var g, s, k := Gate(appId, memberId), sys.store, DeviceBind(q.appId, Normalize(q.email));
    var counted, clear := Increment(FailKey(q), 3600000), [SW.Other(DeleteDoc(k))];
    if !Challenged(s, q) {
      LeadsNowhere(g, s, from, to);
    } else {
      LeadsOther(g, s, counted, from, to);
      var s1 := Apply(s, counted);
      var s2 := if Verify(sys, q).1 then Decr(s1, FailKey(q)) else s1;
      LeadsOther(g, s2, DeleteDoc(k), from, to);
      LeadsNowhere(g, s1, from, to);
      if Verify(sys, q).1 {
        LeadsOther(g, s1, Decrement(FailKey(q)), from, to);
        LeadsBoth(g, s1, [SW.Other(Decrement(FailKey(q)))], s2, clear, DelDoc(s2, k), from, to, 0, 0);
        assert [SW.Other(Decrement(FailKey(q)))] + clear == VerifyTries(sys, q)[1..];
      }
      LeadsBoth(g, s, [SW.Other(counted)], s1, VerifyTries(sys, q)[1..], Verify(sys, q).0.store, from, to, 0, 0);
      assert [SW.Other(counted)] + VerifyTries(sys, q)[1..] == VerifyTries(sys, q);
    }
  }

  lemma OpLeads(emailOf: (string, string) -> string, sys: Sys, op: Op, appId: string, memberId: string, from: int,
                to: int)
    requires appId != "" && memberId != ""
    ensures Leads(Gate(appId, memberId), sys.store, Tries(emailOf, sys, op, appId, memberId),
                  Do(emailOf, sys, op).store, from, to,
                  Unit(Mails(emailOf, sys, op, appId, memberId) && from <= sys.store.now < to))
  {
    match op
    case LoginAtLimit(a, m, draws) => LoginLeads(sys, a, m, emailOf(a, m), draws, appId, memberId, from, to);
    case SendCode(a, email, typ, draws) => SendLeads(sys, a, email, typ, draws, appId, memberId, from, to);
    case VerifyCode(q) => VerifyLeads(sys, q, appId, memberId, from, to);
    case TimePasses(d) => LeadsOther(Gate(appId, memberId), sys.store, Wait(d), from, to);
    case DevicesChange(_) => LeadsNowhere(Gate(appId, memberId), sys.store, from, to);
  }

  /** In every serial run the mails of a member are the tries that pass in a run of the gate with its keys. */
  lemma {:induction false} MailsAreTries(emailOf: (string, string) -> string, ops: seq<Op>, appId: string,
                                         memberId: string, from: int, to: int)
    requires appId != "" && memberId != ""
    ensures var tries := AllTries(emailOf, ops, appId, memberId);
            && SW.Play(Gate(appId, memberId), EMPTY, tries) == Play(emailOf, INIT, ops).store
            && SW.Sends(Gate(appId, memberId), EMPTY, tries, from, to)
               == Mailed(emailOf, ops, appId, memberId, from, to)
  {
    if ops == [] {
    } else {
      var init, op := ops[..|ops| - 1], ops[|ops| - 1];
      var sys := Play(emailOf, INIT, init);
      MailsAreTries(emailOf, init, appId, memberId, from, to);
      OpLeads(emailOf, sys, op, appId, memberId, from, to);
      LeadsBoth(Gate(appId, memberId), EMPTY, AllTries(emailOf, init, appId, memberId), sys.store,
                Tries(emailOf, sys, op, appId, memberId), Do(emailOf, sys, op).store, from, to,
                Mailed(emailOf, init, appId, memberId, from, to),
                Unit(Mails(emailOf, sys, op, appId, memberId) && from <= sys.store.now < to));
    }
  }

  /** So a member gets at most one bind mail a minute, and at most 5 * (ceiling(L / 1 h) + 1) - 1 in any time L. */
  lemma MailLimits(emailOf: (string, string) -> string, ops: seq<Op>, appId: string, memberId: string, from: int,
                   to: int)
    requires appId != "" && memberId != ""
    ensures var n := Mailed(emailOf, ops, appId, memberId, from, to);
            n <= Cover(to - from, 60000) && n <= 5 * (Cover(to - from, 3600000) + 1) - 1
  {
    MailsAreTries(emailOf, ops, appId, memberId, from, to);
    SW.MailWindows(ResetPasswordApp, appId, memberId, AllTries(emailOf, ops, appId, memberId), from, to);
  }

  /**
   After any serial run a request for a code of a challenged member is granted exactly when a minute has gone since the
   member's last try that the cooldown let through and fewer than five were counted in the hour of the counter.
   */
  lemma SendGrantedIff(emailOf: (string, string) -> string, ops: seq<Op>, appId: string, email: string,
                       memberId: string)
    requires ChallengeMember(Play(emailOf, INIT, ops).store, appId, email) == Some(memberId)
    ensures SendAllowed(Play(emailOf, INIT, ops).store, appId, email, BIND_DEVICE_LIMIT)
            <==> ST.Lets(ST.Read(ST.FRESH, AllTries(emailOf, ops, appId, memberId), 60000, 3600000), 5)
  {
    MailsAreTries(emailOf, ops, appId, memberId, 0, 0);
    ST.BindPassesIff(appId, memberId, AllTries(emailOf, ops, appId, memberId));
  }
}
