/** What asking for a reset mail leaves in the store, key by key. */
module ResetMails {
  import opened Prelude
  import opened AuthKeys
  import opened RedisStore
  import opened AuthLimits
  import opened TokenIssue
  import opened LoginService

  /** The five keys of one request. */
  predicate OwnDoc(k: Key, memberId: string, tokenHash: string) {
    || k == ResetToken(memberId, tokenHash) || k == ResetLegacy(memberId)
    || k == IssueCooldown(ResetPasswordApp, memberId)
  }

  /** Whether a mail may go out: no mail in the last minute, and fewer than five in the hour of the counter. */
  predicate MayMail(s: Store, memberId: string) {
    && !LiveDoc(s, IssueCooldown(ResetPasswordApp, memberId))
    && ReadCounter(s, IssueCount(ResetPasswordApp, memberId)) < 5
  }

  /** A document that is there now until the given time. */
  ghost predicate DocUntil(s: Store, k: Key, doc: Doc, end: nat) {
    LiveDoc(s, k) && s.docs[k] == Entry(doc, Some(end))
  }

  /** Each entry under `k` is the same in both stores. */
  ghost predicate SameDoc(s: Store, s': Store, k: Key) {
    (k in s'.docs <==> k in s.docs) && (k in s.docs ==> s'.docs[k] == s.docs[k])
  }

  ghost predicate SameSet(s: Store, s': Store, k: Key) {
    (k in s'.sets <==> k in s.sets) && (k in s.sets ==> s'.sets[k] == s.sets[k])
  }

  ghost predicate SameCount(s: Store, s': Store, k: Key) {
    (k in s'.counters <==> k in s.counters) && (k in s.counters ==> s'.counters[k] == s.counters[k])
  }

  /** The token under its key and the legacy key for an hour, and listed in an index that lasts an hour. */
  ghost predicate Issued(s: Store, s': Store, memberId: string, appId: string, tokenHash: string) {
    var value, end := TokenDoc(tokenHash, appId), s.now + 3600000;
    && DocUntil(s', ResetToken(memberId, tokenHash), value, end) && DocUntil(s', ResetLegacy(memberId), value, end)
    && LiveSet(s', ResetIndex(memberId)) && s'.sets[ResetIndex(memberId)].expiry == Some(end)
    && SetMembers(s', ResetIndex(memberId)) == SetMembers(s, ResetIndex(memberId)) + {tokenHash}
  }

  /** One issue and the keys it leaves alone. */
  lemma IssueIs(s: Store, memberId: string, appId: string, tokenHash: string)
    ensures var s' := Issue(s, memberId, appId, tokenHash);
            && Issued(s, s', memberId, appId, tokenHash) && s'.now == s.now && s'.counters == s.counters
            && (forall k | k != ResetToken(memberId, tokenHash) && k != ResetLegacy(memberId) :: SameDoc(s, s', k))
            && (forall k | k != ResetIndex(memberId) :: SameSet(s, s', k))
  {
  }

  /** The gate on its own. */
  lemma GateIs(s: Store, memberId: string)
    ensures var s', k, c := IssueGate(s, memberId), IssueCooldown(ResetPasswordApp, memberId),
                            IssueCount(ResetPasswordApp, memberId);
            && s'.now == s.now && s'.sets == s.sets
            && (LiveDoc(s, k) ==> s' == s)
            && (!LiveDoc(s, k) ==> DocUntil(s', k, Flag, s.now + 60000) && ReadCounter(s', c) == ReadCounter(s, c) + 1)
            && (forall k' | k' != k :: SameDoc(s, s', k')) && (forall c' | c' != c :: SameCount(s, s', c'))
  {
  }

  /**
   The token is stored exactly when a mail may go out; otherwise no token, legacy key or index changes. The try is
   counted whenever no mail went out in the last minute.
   */
  lemma MailedIs(s: Store, memberId: string, appId: string, tokenHash: string)
    ensures var s' := Mailed(s, memberId, appId, tokenHash);
            var k, c := IssueCooldown(ResetPasswordApp, memberId), IssueCount(ResetPasswordApp, memberId);
            && (MayMail(s, memberId) ==> Issued(s, s', memberId, appId, tokenHash))
            && (!MayMail(s, memberId) ==> s'.sets == s.sets && forall k' | k' != k :: SameDoc(s, s', k'))
            && (LiveDoc(s, k) ==> s' == s)
            && (!LiveDoc(s, k) ==> DocUntil(s', k, Flag, s.now + 60000) && ReadCounter(s', c) == ReadCounter(s, c) + 1)
  {
    GateIs(s, memberId);
    IssueIs(IssueGate(s, memberId), memberId, appId, tokenHash);
    MailedOpen(s, memberId, appId, tokenHash);
  }

  lemma MailedOpen(s: Store, memberId: string, appId: string, tokenHash: string)
    ensures Mailed(s, memberId, appId, tokenHash)
            == if MayMail(s, memberId) then Issue(IssueGate(s, memberId), memberId, appId, tokenHash)
               else IssueGate(s, memberId)
  {
  }

  /** No other document, no other index and no other counter is touched. */
  lemma MailedSpares(s: Store, memberId: string, appId: string, tokenHash: string)
    ensures var s' := Mailed(s, memberId, appId, tokenHash);
            && s'.now == s.now
            && (forall k | !OwnDoc(k, memberId, tokenHash) :: SameDoc(s, s', k))
            && (forall k | k != ResetIndex(memberId) :: SameSet(s, s', k))
            && (forall k | k != IssueCount(ResetPasswordApp, memberId) :: SameCount(s, s', k))
  {
    GateIs(s, memberId);
    IssueIs(IssueGate(s, memberId), memberId, appId, tokenHash);
  }
}
