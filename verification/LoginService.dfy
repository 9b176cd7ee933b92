/**
 One general login: which steps are taken, in which order, and what they leave in the store. What the database and the
 password comparisons say is a parameter; the session token that a success is given is not part of this.
 */
module LoginService {
  import opened Prelude
  import opened AuthKeys
  import opened RedisStore
  import opened AuthLimits
  import opened TokenIssue

  datatype LoginStatus = TooManyAttempts | NoMember | ResetPassword | WrongPassword | LoggedIn

  /** `temporary`: the temporary password fits. `password`: none is stored, or whether the stored one fits. */
  datatype Lookup = Nobody | Found(memberId: string, appId: string, temporary: bool, password: Option<bool>)

  /** The store after a reset mail was asked for: the token is issued only when the gate lets it through. */
  function Mailed(s: Store, memberId: string, appId: string, tokenHash: string): Store {
    if IssueOpen(s, memberId) then Issue(IssueGate(s, memberId), memberId, appId, tokenHash) else IssueGate(s, memberId)
  }

  method SendResetPasswordEmail(redis: Redis, memberId: string, appId: string, tokenHash: string) returns (sent: bool)
    modifies redis
    ensures redis.store == Mailed(old(redis.store), memberId, appId, tokenHash)
    ensures sent <==> IssueOpen(old(redis.store), memberId)
  {
    sent := AllowTokenIssue(redis, ResetPasswordApp, memberId);
    if sent {
      IssueResetPasswordAppToken(redis, memberId, appId, tokenHash);
    }
  }

  /**
   The attempt is counted before anything is looked up or compared, so a refused attempt learns nothing: its answer is
   the same whatever the lookup says. Only a success clears counters, and only a member without a password gets a mail.
   */
  method GeneralLogin(redis: Redis, appId: string, account: string, ip: string, lookup: Lookup, tokenHash: string)
    returns (status: LoginStatus)
    modifies redis
    ensures status.TooManyAttempts? <==> !LoginOpen(old(redis.store), App, appId, account, ip)
    ensures status.LoggedIn? <==>
              LoginOpen(old(redis.store), App, appId, account, ip) && lookup.Found?
                && (lookup.temporary || lookup.password == Some(true))
    ensures status.NoMember? <==> LoginOpen(old(redis.store), App, appId, account, ip) && lookup.Nobody?
    ensures status.ResetPassword? <==>
              LoginOpen(old(redis.store), App, appId, account, ip) && lookup.Found? && !lookup.temporary
                && lookup.password.None?
    ensures status.WrongPassword? <==>
              && LoginOpen(old(redis.store), App, appId, account, ip)
              && lookup.Found? && !lookup.temporary && lookup.password == Some(false)
    ensures var counted := IncrAll(old(redis.store), LoginLimits(App, appId, account, ip));
            redis.store == match status
                           case LoggedIn => Cleared(counted, App, appId, account, ip)
                           case ResetPassword => Mailed(counted, lookup.memberId, lookup.appId, tokenHash)
                           case _ => counted
  {
    var passed := RegisterLoginAttempt(redis, App, appId, account, ip);
    if !passed {
      return TooManyAttempts;
    }
    if lookup.Nobody? {
      return NoMember;
    }
    if !lookup.temporary {
      if lookup.password.None? {
        var _ := SendResetPasswordEmail(redis, lookup.memberId, lookup.appId, tokenHash);
        return ResetPassword;
      }
      if !lookup.password.value {
        return WrongPassword;
      }
    }
    ClearLoginAttempts(redis, App, appId, account, ip);
    return LoggedIn;
  }
}
