/** The Redis keys of the login limits, the device flow, the reset tokens and the host list. */
module AuthKeys {
  import opened Joined

  datatype LoginScope = App | Org

  datatype IssueKind = ResetPasswordApp | ResetPasswordOrg | VerifyEmail

  /** One constructor per key builder. The fields `email` and `account` hold normalised identifiers. */
  datatype Key =
    | DeviceLoginLimit(appId: string, memberId: string)
    | DeviceBind(appId: string, email: string)
    | DeviceBindFail(appId: string, memberId: string)
    | DeviceBindSendCooldown(appId: string, memberId: string)
    | DeviceBindSendCount(appId: string, memberId: string)
    | LoginFailAccountIp(scope: LoginScope, id: string, account: string, ip: string)
    | LoginFailAccount(scope: LoginScope, id: string, account: string)
    | LoginFailIp(ip: string)
    | IssueCooldown(kind: IssueKind, memberId: string)
    | IssueCount(kind: IssueKind, memberId: string)
    | ResetToken(memberId: string, tokenHash: string)
    | ResetLegacy(memberId: string)
    | ResetIndex(memberId: string)
    | AppHosts(appId: string)

  // ----- identifiers -----

  /** What `trim` takes off: the white space and the line ends of JavaScript. */
  predicate IsSpace(c: char) {
    || '\t' <= c <= '\r' || c == ' ' || c == '\U{A0}' || c == '\U{1680}'
    || '\U{2000}' <= c <= '\U{200A}' || '\U{2028}' <= c <= '\U{2029}'
    || c == '\U{202F}' || c == '\U{205F}' || c == '\U{3000}' || c == '\U{FEFF}'
  }

  function TrimStart(s: string): (r: string)
    ensures r != "" ==> !IsSpace(r[0])
    ensures |r| <= |s|
  {
    if s != "" && IsSpace(s[0]) then TrimStart(s[1..]) else s
  }

  function TrimEnd(s: string): (r: string)
    ensures r != "" ==> !IsSpace(r[|r| - 1])
    ensures r <= s
  {
    if s != "" && IsSpace(s[|s| - 1]) then TrimEnd(s[..|s| - 1]) else s
  }

  function LowerChar(c: char): char {
    if 'A' <= c <= 'Z' then c - 'A' + 'a' else c
  }

  function Lower(s: string): (r: string)
    ensures |r| == |s|
    ensures forall i | 0 <= i < |s| :: r[i] == LowerChar(s[i])
  {
    if s == "" then "" else [LowerChar(s[0])] + Lower(s[1..])
  }

  /** `x.trim().toLowerCase()`; the hash that follows is one-to-one and is applied in `Text`. */
  function Normalize(s: string): string {
    Lower(TrimEnd(TrimStart(s)))
  }

  lemma LowerIdempotent(s: string)
    ensures Lower(Lower(s)) == Lower(s)
  {
  }

  lemma LowerKeepsSpaces(c: char)
    ensures IsSpace(LowerChar(c)) <==> IsSpace(c)
  {
  }

  lemma TrimmedEnds(s: string)
    ensures var t := TrimEnd(TrimStart(s)); t != "" ==> !IsSpace(t[0]) && !IsSpace(t[|t| - 1])
  {
    var u := TrimStart(s);
    assert TrimEnd(u) <= u;
  }

  /** A normalised identifier normalises to itself, so a stored key can be looked up again. */
  lemma NormalizeIdempotent(s: string)
    ensures Normalize(Normalize(s)) == Normalize(s)
  {
    var t := TrimEnd(TrimStart(s));
    TrimmedEnds(s);
    if t != "" {
      LowerKeepsSpaces(t[0]);
      LowerKeepsSpaces(t[|t| - 1]);
    }
    LowerIdempotent(t);
  }

  // ----- the text of a key -----

  function ScopeText(scope: LoginScope): string {
    match scope
    case App => "app"
    case Org => "org"
  }

  function KindSegments(kind: IssueKind): seq<string> {
    match kind
    case ResetPasswordApp => ["reset-password", "app"]
    case ResetPasswordOrg => ["reset-password", "org"]
    case VerifyEmail => ["verify-email"]
  }

  /** The segments before the last one. */
  function Stem(k: Key, hash: string -> string): seq<string> {
    match k
    case DeviceLoginLimit(appId, _) => ["auth", "device-login-limit", appId]
    case DeviceBind(appId, _) => ["auth", "device-bind", appId]
    case DeviceBindFail(appId, _) => ["auth", "device-bind-fail", appId]
    case DeviceBindSendCooldown(appId, _) => ["auth", "device-bind-send-cooldown", appId]
    case DeviceBindSendCount(appId, _) => ["auth", "device-bind-send-count", appId]
    case LoginFailAccountIp(scope, id, account, _) => ["auth", "login-fail", ScopeText(scope), id, hash(account)]
    case LoginFailAccount(scope, id, _) => ["auth", "login-fail", ScopeText(scope), id]
    case LoginFailIp(_) => ["auth", "login-fail", "ip"]
    case IssueCooldown(kind, _) => ["auth", "issue-cooldown"] + KindSegments(kind)
    case IssueCount(kind, _) => ["auth", "issue-count"] + KindSegments(kind)
    case ResetToken(memberId, _) => ["auth", "reset-password", "app", memberId]
    case ResetLegacy(_) => ["auth", "reset-password", "app"]
    case ResetIndex(_) => ["auth", "reset-password", "app-tokens"]
    case AppHosts(appId) => ["app", appId]
  }

  function Last(k: Key, hash: string -> string): string {
    match k
    case DeviceLoginLimit(_, memberId) => memberId
    case DeviceBind(_, email) => hash(email)
    case DeviceBindFail(_, memberId) => memberId
    case DeviceBindSendCooldown(_, memberId) => memberId
    case DeviceBindSendCount(_, memberId) => memberId
    case LoginFailAccountIp(_, _, _, ip) => ip
    case LoginFailAccount(_, _, account) => hash(account)
    case LoginFailIp(ip) => ip
    case IssueCooldown(_, memberId) => memberId
    case IssueCount(_, memberId) => memberId
    case ResetToken(_, tokenHash) => tokenHash
    case ResetLegacy(memberId) => memberId
    case ResetIndex(memberId) => memberId
    case AppHosts(_) => "hosts"
  }

  /** The key as Redis sees it. */
  function Text(k: Key, hash: string -> string): string {
    Join(Stem(k, hash) + [Last(k, hash)], ':')
  }

  /** The ids and hashes inside the key contain no colon. An ip address may (IPv6 addresses do). */
  predicate PlainIds(k: Key) {
    match k
    case LoginFailAccountIp(_, id, _, _) => ':' !in id
    case LoginFailAccount(_, id, _) => ':' !in id
    case LoginFailIp(_) => true
    case DeviceBind(appId, _) => ':' !in appId
    case ResetToken(memberId, tokenHash) => ':' !in memberId && ':' !in tokenHash
    case IssueCooldown(_, memberId) => ':' !in memberId
    case IssueCount(_, memberId) => ':' !in memberId
    case ResetLegacy(memberId) => ':' !in memberId
    case ResetIndex(memberId) => ':' !in memberId
    case AppHosts(appId) => ':' !in appId
    case DeviceLoginLimit(appId, memberId) => ':' !in appId && ':' !in memberId
    case DeviceBindFail(appId, memberId) => ':' !in appId && ':' !in memberId
    case DeviceBindSendCooldown(appId, memberId) => ':' !in appId && ':' !in memberId
    case DeviceBindSendCount(appId, memberId) => ':' !in appId && ':' !in memberId
  }

  /** The hash is one-to-one and prints without a colon, as lower-case hexadecimal does. */
  ghost predicate GoodHash(hash: string -> string) {
    && (forall x :: ':' !in hash(x))
    && (forall x, y :: hash(x) == hash(y) ==> x == y)
  }

  /** The second segment tells the families apart. */
  function Family(k: Key): string {
    match k
    case DeviceLoginLimit(_, _) => "device-login-limit"
    case DeviceBind(_, _) => "device-bind"
    case DeviceBindFail(_, _) => "device-bind-fail"
    case DeviceBindSendCooldown(_, _) => "device-bind-send-cooldown"
    case DeviceBindSendCount(_, _) => "device-bind-send-count"
    case LoginFailAccountIp(_, _, _, _) => "login-fail"
    case LoginFailAccount(_, _, _) => "login-fail"
    case LoginFailIp(_) => "login-fail"
    case IssueCooldown(_, _) => "issue-cooldown"
    case IssueCount(_, _) => "issue-count"
    case ResetToken(_, _) => "reset-password"
    case ResetLegacy(_) => "reset-password"
    case ResetIndex(_) => "reset-password"
    case AppHosts(appId) => appId
  }

  lemma FamilyFree(k: Key)
    requires PlainIds(k)
    ensures ':' !in Family(k)
  {
  }

  lemma FixedFree(scope: LoginScope, kind: IssueKind)
    ensures ':' !in ScopeText(scope) && ':' !in "ip" && ':' !in "app" && ':' !in "app-tokens"
    ensures Free(KindSegments(kind), ':')
  {
  }

  lemma TailFree(k: Key, hash: string -> string)
    requires GoodHash(hash) && PlainIds(k)
    ensures Free(Stem(k, hash)[2..], ':')
  {
    if k.IssueCooldown? || k.IssueCount? {
      FixedFree(App, k.kind);
      assert Stem(k, hash)[2..] == KindSegments(k.kind);
    } else if k.LoginFailAccountIp? || k.LoginFailAccount? {
      FixedFree(k.scope, VerifyEmail);
    } else {
      FixedFree(App, VerifyEmail);
    }
  }

  lemma StemFree(k: Key, hash: string -> string)
    requires GoodHash(hash) && PlainIds(k)
    ensures Free(Stem(k, hash), ':')
  {
    FamilyFree(k);
    TailFree(k, hash);
    var stem := Stem(k, hash);
    assert stem[1] == Family(k) && stem == [stem[0], stem[1]] + stem[2..];
  }

  /** The text cut at every colon. */
  function Segments(k: Key, hash: string -> string): seq<string> {
    Stem(k, hash) + Split(Last(k, hash), ':')
  }

  lemma SplitText(k: Key, hash: string -> string)
    requires GoodHash(hash) && PlainIds(k)
    ensures Split(Text(k, hash), ':') == Segments(k, hash)
  {
    StemFree(k, hash);
    SplitJoinLast(Stem(k, hash), Last(k, hash), ':');
  }

  lemma SplitInjective(a: string, b: string)
    requires Split(a, ':') == Split(b, ':')
    ensures a == b
  {
    JoinSplit(a, ':');
    JoinSplit(b, ':');
  }

  /** Same stem and equal segments: the last parts agree. */
  lemma LastAgrees(k1: Key, k2: Key, hash: string -> string)
    requires Segments(k1, hash) == Segments(k2, hash)
    requires |Stem(k1, hash)| == |Stem(k2, hash)|
    ensures Stem(k1, hash) == Stem(k2, hash) && Last(k1, hash) == Last(k2, hash)
  {
    var n := |Stem(k1, hash)|;
    assert Stem(k1, hash) == Segments(k1, hash)[..n] && Stem(k2, hash) == Segments(k2, hash)[..n];
    assert Split(Last(k1, hash), ':') == Segments(k1, hash)[n..];
    assert Split(Last(k2, hash), ':') == Segments(k2, hash)[n..];
    SplitInjective(Last(k1, hash), Last(k2, hash));
  }

  lemma FamilyAgrees(k1: Key, k2: Key, hash: string -> string)
    requires Segments(k1, hash) == Segments(k2, hash)
    ensures k1.AppHosts? == k2.AppHosts? && Family(k1) == Family(k2)
  {
    assert Segments(k1, hash)[0] == Stem(k1, hash)[0] && Segments(k2, hash)[0] == Stem(k2, hash)[0];
    assert Segments(k1, hash)[1] == Stem(k1, hash)[1] && Segments(k2, hash)[1] == Stem(k2, hash)[1];
    assert |"auth"| != |"app"|;
  }

  lemma KindsDiffer()
    ensures "app" != "org" && "app" != "ip" && "org" != "ip" && "app" != "app-tokens"
    ensures "reset-password" != "verify-email"
  {
    assert "app"[0] != "org"[0] && |"ip"| == 2 && |"app"| == 3 && |"org"| == 3;
  }

  lemma FamiliesDiffer()
    ensures var names := ["device-login-limit", "device-bind", "device-bind-fail", "device-bind-send-cooldown",
      "device-bind-send-count", "login-fail", "issue-cooldown", "issue-count", "reset-password"];
      forall i, j | 0 <= i < j < |names| :: names[i] != names[j]
  {
    assert |"issue-cooldown"| == 14 && |"reset-password"| == 14 && "issue-cooldown"[0] != "reset-password"[0];
    assert |"device-bind"| == 11 && |"issue-count"| == 11 && "device-bind"[0] != "issue-count"[0];
  }

  /** Two keys with the same text are the same key: the builders never collide across or within families. */
  lemma TextInjective(k1: Key, k2: Key, hash: string -> string)
    requires GoodHash(hash) && PlainIds(k1) && PlainIds(k2)
    requires Text(k1, hash) == Text(k2, hash)
    ensures k1 == k2
  {
    SplitText(k1, hash);
    SplitText(k2, hash);
    FamilyAgrees(k1, k2, hash);
    FamiliesDiffer();
    KindsDiffer();
    var s1, s2 := Segments(k1, hash), Segments(k2, hash);
    assert s1[2] == s2[2] by {
      assert s1 == s2;
    }
    if |Stem(k1, hash)| == |Stem(k2, hash)| {
      LastAgrees(k1, k2, hash);
      var t1, t2 := Stem(k1, hash), Stem(k2, hash);
      assert |t1| > 2 ==> t1[2] == t2[2];
      assert |t1| > 3 ==> t1[3] == t2[3];
      assert |t1| > 4 ==> t1[4] == t2[4];
    } else {
      LastWhole(k1, hash);
      LastWhole(k2, hash);
      assert false;
    }
  }

  lemma LastWhole(k: Key, hash: string -> string)
    requires GoodHash(hash) && PlainIds(k)
    ensures !k.LoginFailAccountIp? && !k.LoginFailIp? ==> |Segments(k, hash)| == |Stem(k, hash)| + 1
  {
    if !k.LoginFailAccountIp? && !k.LoginFailIp? {
      assert ':' !in "hosts";
      SplitWhole(Last(k, hash), ':');
    }
  }
}
