/** The keys letter by letter, as another service writes and reads them, and the identifiers inside them. */
module KeyTexts {
  import opened Joined
  import opened AuthKeys

  // ----- identifiers -----

  lemma {:induction false} StartOf(s: string) returns (i: nat)
    ensures i <= |s| && TrimStart(s) == s[i..] && forall k | 0 <= k < i :: IsSpace(s[k])
  {
    i := 0;
    if s != "" && IsSpace(s[0]) {
      var j := StartOf(s[1..]);
      i := j + 1;
      forall k | 0 <= k < i
        ensures IsSpace(s[k])
      {
        assert k > 0 ==> s[1..][k - 1] == s[k];
      }
    }
  }

  lemma {:induction false} EndOf(s: string) returns (j: nat)
    ensures j <= |s| && TrimEnd(s) == s[..j] && forall k | j <= k < |s| :: IsSpace(s[k])
  {
    j := |s|;
    if s != "" && IsSpace(s[|s| - 1]) {
      j := EndOf(s[..|s| - 1]);
      forall k | j <= k < |s|
        ensures IsSpace(s[k])
      {
        assert k < |s| - 1 ==> s[..|s| - 1][k] == s[k];
      }
    }
  }

  /**
   White space goes at both ends and nowhere else, capital letters become small, and every other character stays in its
   place.
   */
  lemma NormalizeIs(s: string) returns (i: nat, j: nat)
    ensures i <= j <= |s| && |Normalize(s)| == j - i
    ensures forall k | 0 <= k < i || j <= k < |s| :: IsSpace(s[k])
    ensures i < j ==> !IsSpace(s[i]) && !IsSpace(s[j - 1])
    ensures forall k | i <= k < j ::
      Normalize(s)[k - i] == if 'A' <= s[k] <= 'Z' then s[k] + ('a' - 'A') else s[k]
  {
    i := StartOf(s);
    var n := EndOf(s[i..]);
    j := i + n;
    forall k | j <= k < |s|
      ensures IsSpace(s[k])
    {
      assert s[i..][k - i] == s[k];
    }
    TrimmedEnds(s);
    assert forall k | i <= k < j :: TrimEnd(TrimStart(s))[k - i] == s[k];
  }

  /** What counts as white space. */
  lemma Spaces()
    ensures IsSpace(' ') && IsSpace('\t') && IsSpace('\n') && IsSpace('\r') && IsSpace('\U{A0}') && IsSpace('\U{3000}')
    ensures forall c: char | '!' <= c <= '~' :: !IsSpace(c)
  {
  }

  // ----- keys -----

  lemma JoinSnoc(parts: seq<string>, last: string)
    requires parts != []
    ensures Join(parts + [last], ':') == Join(parts, ':') + ":" + last
  {
    if |parts| == 1 {
      assert (parts + [last])[1..] == [last];
    } else {
      assert (parts + [last])[1..] == parts[1..] + [last];
      JoinSnoc(parts[1..], last);
    }
  }

  lemma JoinThree(a: string, b: string, c: string)
    ensures Join([a, b, c], ':') == a + ":" + b + ":" + c
  {
    assert Join([a], ':') == a;
    JoinSnoc([a], b);
    JoinSnoc([a, b], c);
    assert [a] + [b] == [a, b] && [a, b] + [c] == [a, b, c];
  }

  lemma JoinFour(a: string, b: string, c: string, d: string)
    ensures Join([a, b, c] + [d], ':') == a + ":" + b + ":" + c + ":" + d
  {
    JoinThree(a, b, c);
    JoinSnoc([a, b, c], d);
  }

  lemma JoinFive(a: string, b: string, c: string, d: string, e: string)
    ensures Join([a, b, c, d] + [e], ':') == a + ":" + b + ":" + c + ":" + d + ":" + e
  {
    JoinFour(a, b, c, d);
    JoinSnoc([a, b, c, d], e);
    assert [a, b, c] + [d] == [a, b, c, d];
  }

  lemma DeviceTexts(appId: string, memberId: string, hash: string -> string)
    ensures Text(DeviceLoginLimit(appId, memberId), hash)
            == "auth" + ":" + "device-login-limit" + ":" + appId + ":" + memberId
    ensures Text(DeviceBindFail(appId, memberId), hash)
            == "auth" + ":" + "device-bind-fail" + ":" + appId + ":" + memberId
    ensures Text(DeviceBindSendCooldown(appId, memberId), hash)
            == "auth" + ":" + "device-bind-send-cooldown" + ":" + appId + ":" + memberId
    ensures Text(DeviceBindSendCount(appId, memberId), hash)
            == "auth" + ":" + "device-bind-send-count" + ":" + appId + ":" + memberId
  {
    JoinFour("auth", "device-login-limit", appId, memberId);
    JoinFour("auth", "device-bind-fail", appId, memberId);
    JoinFour("auth", "device-bind-send-cooldown", appId, memberId);
    JoinFour("auth", "device-bind-send-count", appId, memberId);
  }

  lemma BindText(appId: string, email: string, hash: string -> string)
    ensures Text(DeviceBind(appId, email), hash) == "auth" + ":" + "device-bind" + ":" + appId + ":" + hash(email)
  {
    JoinFour("auth", "device-bind", appId, hash(email));
  }

  lemma LoginTexts(id: string, account: string, ip: string, hash: string -> string)
    ensures Text(LoginFailAccountIp(App, id, account, ip), hash)
            == "auth" + ":" + "login-fail" + ":" + "app" + ":" + id + ":" + hash(account) + ":" + ip
    ensures Text(LoginFailAccountIp(Org, id, account, ip), hash)
            == "auth" + ":" + "login-fail" + ":" + "org" + ":" + id + ":" + hash(account) + ":" + ip
    ensures Text(LoginFailAccount(App, id, account), hash)
            == "auth" + ":" + "login-fail" + ":" + "app" + ":" + id + ":" + hash(account)
    ensures Text(LoginFailAccount(Org, id, account), hash)
            == "auth" + ":" + "login-fail" + ":" + "org" + ":" + id + ":" + hash(account)
    ensures Text(LoginFailIp(ip), hash) == "auth" + ":" + "login-fail" + ":" + "ip" + ":" + ip
  {
    LoginText("app", id, hash(account), ip);
    LoginText("org", id, hash(account), ip);
    JoinFour("auth", "login-fail", "ip", ip);
  }

  lemma LoginText(scope: string, id: string, account: string, ip: string)
    ensures Join(["auth", "login-fail", scope, id] + [account], ':')
            == "auth" + ":" + "login-fail" + ":" + scope + ":" + id + ":" + account
    ensures Join(["auth", "login-fail", scope, id, account] + [ip], ':')
            == "auth" + ":" + "login-fail" + ":" + scope + ":" + id + ":" + account + ":" + ip
  {
    JoinFive("auth", "login-fail", scope, id, account);
    JoinSnoc(["auth", "login-fail", scope, id, account], ip);
    assert ["auth", "login-fail", scope, id] + [account] == ["auth", "login-fail", scope, id, account];
  }

  lemma IssueTexts(memberId: string, hash: string -> string)
    ensures Text(IssueCooldown(ResetPasswordApp, memberId), hash)
            == "auth" + ":" + "issue-cooldown" + ":" + "reset-password" + ":" + "app" + ":" + memberId
    ensures Text(IssueCount(ResetPasswordApp, memberId), hash)
            == "auth" + ":" + "issue-count" + ":" + "reset-password" + ":" + "app" + ":" + memberId
    ensures Text(IssueCount(VerifyEmail, memberId), hash)
            == "auth" + ":" + "issue-count" + ":" + "verify-email" + ":" + memberId
  {
    JoinFive("auth", "issue-cooldown", "reset-password", "app", memberId);
    JoinFive("auth", "issue-count", "reset-password", "app", memberId);
    JoinFour("auth", "issue-count", "verify-email", memberId);
    var kind := ["reset-password", "app"];
    assert ["auth", "issue-cooldown"] + kind == ["auth", "issue-cooldown", "reset-password", "app"];
    assert ["auth", "issue-count"] + kind == ["auth", "issue-count", "reset-password", "app"];
    assert ["auth", "issue-count"] + ["verify-email"] == ["auth", "issue-count", "verify-email"];
  }

  lemma TokenTexts(memberId: string, tokenHash: string, hash: string -> string)
    ensures Text(ResetToken(memberId, tokenHash), hash)
            == "auth" + ":" + "reset-password" + ":" + "app" + ":" + memberId + ":" + tokenHash
    ensures Text(ResetLegacy(memberId), hash) == "auth" + ":" + "reset-password" + ":" + "app" + ":" + memberId
    ensures Text(ResetIndex(memberId), hash) == "auth" + ":" + "reset-password" + ":" + "app-tokens" + ":" + memberId
    ensures Text(AppHosts(memberId), hash) == "app" + ":" + memberId + ":" + "hosts"
  {
    JoinFive("auth", "reset-password", "app", memberId, tokenHash);
    JoinFour("auth", "reset-password", "app", memberId);
    JoinFour("auth", "reset-password", "app-tokens", memberId);
    JoinThree("app", memberId, "hosts");
    assert ["app", memberId] + ["hosts"] == ["app", memberId, "hosts"];
  }
}
