# Verification of the limits, challenges and invoices of the Lodestar server

This project models, in Dafny 4.11, the parts of the server whose promises span many calls, and proves them over all
inputs, runs and interleavings.

**Limits and challenges in Redis.** `AuthKeys` has the keys, `RedisStore` the commands and the two Lua scripts as atomic
steps on a store with expiring entries, `FixedWindow` the theorem about counters with a time to live, and `AuthLimits`,
`LoginService` and `TokenIssue` what it means for mails, logins and reset tokens. `LoginRuns` and `SendTries` say which
attempt and which try passes, counted in the run itself, `ResetMails` what a reset mail leaves, and `KeyTexts` has the
keys letter by letter. `SendWindows` has cooldown and counter together and the exact number of mails a member can get,
`GateRuns` the same two limits with the round trips of all tries interleaved and `GatePeak` runs that meet them.
`TokenIndex` and `TokenLegacy` have what the index and the legacy key hold while other requests and revocations come in
between, and `TokenSurge` a run with as many live tokens as there can be. Device-bind codes come twice: `BindTables`,
`BindCodes` and `BindSerial` have the service's methods and all serial runs of them, with single runs in `BindRuns`;
`BindVerify` says when a verification is true, counted in the run, and `BindSends` shows that the mails are tries of a
gate; `BindInterleaved` lets any number of verifications run at once, interrupted at every `await`, and shows that one
that runs alone is the serial method; `BindLate` has the runs that meet its bound.

**Invoices.** `Joined` and `LineCodec` have the columns separated by '|', `Rounding` the rounding of the lines with the
line for the surplus, `InvoicePipeline` both together, `InvoiceSent` the texts that are sent, `InvoiceAmounts` the
amounts and columns made from an order, and `InvoiceLines` what stands in each line. `InvoiceRetry` has the payments the
runner picks up, the transaction of an execution, the issue endpoint and what an attempt leaves behind, `InvoiceRecords`
that field by field, `InvoiceErrors` the errors of an execution, `InvoiceRuns` how often a payment is attempted whatever
happens in between.

**Two fast forms.** `HostCache` compares the cached host list with the table over any interleaving, `PodcastProgress`
the batch with one event at a time, and `PodcastRecords` has what a batch stores.

A method is proved equal to a function of the state before it; the theorems are about these functions. Where a promise
needs a hypothesis there is a run that breaks it without one.

## Where the code and its words differ

- `src/auth/auth-limits.ts:71`: the time to live is set only when a key is created. It is also set again when a
  counter that was decremented to 0 is incremented (`RedisStore.RearmsIff`, `BindRuns.WindowStartsAgain`).
- `src/mailVerificationCode/mailVerificationCode.service.ts:36` and `src/auth/auth.service.ts:270`: five times per
  hour. That holds for each life of the counter; nine can fall within one hour, a minute apart
  (`SendWindows.NineInOneHour`). It holds for the hour that begins now exactly under a condition on the two keys now
  (`SendWindows.CapHoldsIff`).
- `src/mailVerificationCode/mailVerificationCode.service.ts:59-60`: at the cap the outstanding codes are dropped. They
  are dropped for the spelling of the email in that request, while the challenge is found under any spelling
  (`BindSerial.LockDropsCodesIff`, `BindRuns.VariantSpellingKeepsCode`).
- `src/mailVerificationCode/mailVerificationCode.service.ts:75-76`: concurrent requests cannot exceed the cap. A
  request that outlives the counter in which it was counted gives its attempt back to the next one
  (`BindInterleaved.WrongGuessBound`, `BindLate.LateDecrementsAddGuesses`). It does not when the decrement comes in
  time (`BindInterleaved.WrongGuessInTime`).
- `src/payment/payment.infra.ts:18-21`: the query leaves a payment out after five failed attempts. It looks at the
  count only where there is a status, and the status of the gateway's answer is stored unchecked: when it is missing,
  from the runner or the issue endpoint, the payment is picked up again (`InvoiceRuns.SilentUnbounded`,
  `InvoiceRuns.LimitIff`). Attempts are counted in the transaction of the execution: those of one that is rolled back
  are not, and an invoice the gateway issued in it is issued again (`InvoiceRuns.UnrecordedUnbounded`).
- `src/payment/payment.infra.ts:17`: a payment with an issue time is left out. The rows are picked when an execution
  begins, so one that the issue endpoint serves in the meantime gets two invoices (`InvoiceRuns.IssuedTwice`).
- `src/utils.ts:93-126`: the compensation is added to a list that already comes to the rounded total, so the list does
  not come to the raw total (`Rounding.FinalTotal`).

## Model

| member | source | states |
|---|---|---|
| `AuthKeys.NormalizeIdempotent` | src/auth/auth-limits.ts:36-41 | a normalised identifier normalises to itself, for strings whose letters are ASCII |
| `AuthKeys.TextInjective` | src/auth/auth-limits.ts:56-69 | over all key builders, those of the reset tokens and of the host list included: equal texts come from equal keys, when the ids have no colon and the hash is one-to-one |
| `KeyTexts.NormalizeIs` | src/auth/auth-limits.ts:36-41 | white space goes at both ends and nowhere else, capital letters become small, every other character stays in its place |
| `KeyTexts.Spaces` | src/auth/auth-limits.ts:36-41 | what counts as white space, and that no printable ASCII character does |
| `KeyTexts.DeviceTexts` | src/auth/auth-limits.ts:57-61 | the keys of the device flow letter by letter |
| `KeyTexts.BindText` | src/auth/auth-limits.ts:58 | the challenge key with the hash of the email |
| `KeyTexts.LoginTexts` | src/auth/auth-limits.ts:62-66 | the three login counters letter by letter, for apps and organisations |
| `KeyTexts.IssueTexts` | src/auth/auth-limits.ts:67-68 | cooldown and counter of the token mails letter by letter |
| `KeyTexts.TokenTexts` | src/auth/auth-token.ts:41-46 | token key, legacy key and index as the other services read them, and the key of the host list |
| `BindRuns.WindowStartsAgain` | src/auth/auth-limits.ts:71-78 | a run in which the expiry of a live counter moves: a true verification leaves it at 0, the next wrong one starts the window of that same life again |
| `BindRuns.TrueLeavesZero` | src/mailVerificationCode/mailVerificationCode.service.ts:82-88 | every true verification that found no live fail counter leaves one that is live and at 0 |
| `BindRuns.ZeroStartsAgain` | src/mailVerificationCode/mailVerificationCode.service.ts:75-81 | every wrong one that finds a live fail counter at 0 sets its expiry anew, in the same life |
| `RedisStore.RunKeepsCounters` | src/auth/auth-limits.ts:71-82 | over every run of commands no counter is left without an expiry, and every life of a counter has its own number |
| `RedisStore.IncrAllEach` | src/auth/auth-limits.ts:93-104 | in one call with distinct keys each reply is what incrementing that key alone would give |
| `RedisStore.Redis.IncrementWithTtl` | src/auth/auth-limits.ts:71-104 | the script's loop over the keys: new store and replies |
| `RedisStore.Redis.DecrementIfExists` | src/auth/auth-limits.ts:80-82 | no key is created and the store is unchanged when the counter is dead; a live one loses one and keeps its life and its expiry |
| `RedisStore.Redis.AcquireCooldown` | src/auth/auth-limits.ts:109-111 | SET NX EX: true exactly when no live key was there; then it lives for the time to live, and otherwise nothing changes |
| `FixedWindow.WindowBound` | src/auth/auth-limits.ts:72-78 | over every run, a counter that is only counted up lets at most cap * (ceiling(L / ttl) + 1) - 1 attempts through in any window of length L |
| `FixedWindow.BoundReached` | src/auth/auth-limits.ts:72-78 | the bound is met by a counter on its own: 2 * cap - 1 increments let through within two milliseconds |
| `FixedWindow.OneLifeBound` | src/auth/auth-limits.ts:72-78 | in one life of a key the replies are 1, 2, 3, ..., so the first cap attempts pass and no others, whatever clears come between lives |
| `AuthLimits.TryGate` | src/auth/auth-limits.ts:174-201 | cooldown first, then the counter: the new store, and true exactly when the cooldown was free and the counter below its cap |
| `AuthLimits.AllowDeviceBindSend` | src/auth/auth-limits.ts:173-187 | the gate of device-bind mails |
| `AuthLimits.AllowTokenIssue` | src/auth/auth-limits.ts:191-201 | the gate of token mails |
| `SendTries.BindPassesIff` | src/auth/auth-limits.ts:173-187 | over every run, with literal 60 s, 1 h and 5: a try for a bind mail passes exactly when the cooldown of the last try that got to the counter is over and fewer than five were counted in the running hour |
| `SendTries.TokenPassesIff` | src/auth/auth-limits.ts:191-201 | the same for token mails |
| `SendTries.GatesAre` | src/auth/auth-limits.ts:173-201 | a try of such a run is what the two gates do to the store |
| `SendTries.SixthRefused` | src/auth/auth-limits.ts:14-21 | of one try a minute the first five pass and the sixth and all later ones in that hour do not, for both kinds of mail |
| `BindSends.MailsAreTries` | src/mailVerificationCode/mailVerificationCode.service.ts:38-55 | in every serial run of logins, sends and verifications the mails of a member are exactly the passing tries of a gate with that member's keys, and the store is the same |
| `BindSends.MailLimits` | src/mailVerificationCode/mailVerificationCode.service.ts:34-37 | so a member gets at most one bind mail a minute and at most 5 * (ceiling(L / 1 h) + 1) - 1 in any time L of any serial run |
| `BindSends.SendGrantedIff` | src/mailVerificationCode/mailVerificationCode.service.ts:38-55 | after every serial run: a request for a code is granted exactly when a minute has gone since the last counted try of the challenged member and fewer than five were counted in that hour |
| `AuthLimits.CooldownSpacing` | src/auth/auth-limits.ts:109-111 | two acquisitions of one cooldown key are at least its time to live apart, in every run |
| `AuthLimits.CountWindows` | src/auth/auth-limits.ts:173-201 | what the counters alone give, wherever other requests come in between cooldown and counter: at most 5 * (ceiling(L / 1 h) + 1) - 1 mails of each kind per member in any window of length L |
| `SendWindows.NeverOverIff` | src/auth/auth-limits.ts:174-201 | `MostSends` is the exact maximum: no run of tries and other commands sends more until the given time, and one sends that many |
| `SendWindows.CapHoldsIff` | src/mailVerificationCode/mailVerificationCode.service.ts:34-37 | at most five are sent in the hour that begins now, in every run, exactly when `CapHolds` now: nothing more passes in the running life, or so late that the next life cannot make up for it; a dead or used-up counter is such a case |
| `SendWindows.WindowSends` | src/auth/auth-limits.ts:174-201 | in any window of length L of any run at most ceiling(L / cooldown) and cap * (ceiling(L / ttl) + 1) - 1 tries pass |
| `SendWindows.MailWindows` | src/auth/auth-limits.ts:173-201 | both limits for token mails and bind mails of one member, from the empty store |
| `SendWindows.NineInOneHour` | src/auth/auth.service.ts:270-273 | a run of tries, cooldown included, that sends nine within one hour, for token mails and for bind mails |
| `GateRuns.PassedWindow` | src/auth/auth-limits.ts:173-201 | with both round trips of every try and anything in between: in any window of length L the counter lets at most cap * (ceiling(L / ttl) + 1) - 1 tries pass, and at most ceiling((L + d) / cooldown) when none takes longer than d from cooldown to counter |
| `GateRuns.MailsInterleaved` | src/auth/auth-limits.ts:173-201 | both limits for token mails and bind mails of one member under any interleaving |
| `GatePeak.CooldownLimitMet` | src/auth/auth-limits.ts:173-201 | for every n up to the cap a run of overlapping tries in which n pass in one instant, as many as there are cooldowns in the delay: the limit by the cooldown is met and needs its delay |
| `GatePeak.CounterLimitMet` | src/auth/auth-limits.ts:173-201 | a run of overlapping tries in which 2 * cap - 1 pass within two milliseconds: the limit by the counter is met |
| `AuthLimits.RegisterLoginAttempt` | src/auth/auth-limits.ts:205-226 | all three counters are counted whether or not the attempt passes; it passes exactly when all are below their caps |
| `AuthLimits.ClearLoginAttempts` | src/auth/auth-limits.ts:228-230 | both account counters read 0 afterwards, the ip counter is kept |
| `AuthLimits.AttemptIsScript` | src/auth/auth-limits.ts:216-220 | an attempt as three commands in a run is the attempt as one script |
| `AuthLimits.LoginIpWindow` | src/auth/auth-limits.ts:205-230 | however many logins succeed and clear counters, an ip gets at most 200 * (ceiling(L / 15 min) + 1) - 1 attempts through in any window of length L |
| `AuthLimits.LoginLives` | src/auth/auth-limits.ts:205-230 | between clears and expiries: at most 10 per account and ip, 50 per account, 200 per ip, numbered upwards from 1 |
| `LoginRuns.PassesIff` | src/auth/auth-limits.ts:205-230 | after every run of attempts and successes an attempt passes exactly when fewer than 10 attempts on the account from this address, fewer than 50 on the account and fewer than 200 from the address count in their quarter of an hour, clears taken into account; counted from the run, with literal numbers |
| `LoginRuns.NextPassesIff` | src/auth/auth-limits.ts:216-226 | after n attempts on one account from any addresses the next passes exactly when fewer than 10 came from its address and n < 50: the 10th passes, the 11th does not |
| `LoginRuns.LoginIsOps` | src/auth/auth.service.ts:70-121 | the operations of such a run are what the login does to the store: an attempt, and on success the clear |
| `LoginService.GeneralLogin` | src/auth/auth.service.ts:70-121 | when each of the five answers is given, both ways; the attempt is counted before lookup and comparison, a refused one is answered alike whatever they would say; counters are cleared exactly on success |
| `LoginService.SendResetPasswordEmail` | src/auth/auth.service.ts:264-296 | a token is issued and a mail sent exactly when the gate is open |
| `ResetMails.MailedIs` | src/auth/auth.service.ts:270-281 | what asking for a reset mail leaves, key by key and with numbers: the token stored, listed and under the legacy key for one hour exactly when no mail went out in the last minute and fewer than five count; otherwise none of these changes, and the try is counted unless the cooldown refused it |
| `ResetMails.MailedSpares` | src/auth/auth.service.ts:264-296 | no other document, index or counter is touched |
| `TokenIssue.IssueResetPasswordAppToken` | src/auth/auth-token.ts:49-63 | after the four writes token key and legacy key hold the hash, and the index set has it added and lasts one hour from now |
| `TokenIssue.SoloGate` | src/auth/auth.service.ts:270-273 | two uninterrupted steps of a request are the gate |
| `TokenIssue.SoloIssue` | src/auth/auth-token.ts:57-61 | four uninterrupted steps of a request are the issue method |
| `TokenIssue.LiveTokenBound` | src/auth/auth-token.ts:49-63 | over every interleaving, with at most d between check and write, a member has at most 5 * (ceiling((1 h + d) / 1 h) + 1) - 1 live tokens |
| `TokenIssue.NineLiveTokens` | src/auth/auth-token.ts:13-17 | with check and write at one instant there are at most nine |
| `TokenSurge.NineTokensLive` | src/auth/auth-token.ts:13-17 | and every member can have nine: a run that meets the bound |
| `TokenIndex.LiveTokensIndexed` | src/auth/auth-token.ts:57-59 | whatever other requests and members do: a live token that the index listed when its own EXPIRE ran stays listed, in an index that does not expire before it, unless the index is deleted |
| `TokenIndex.ListedIff` | src/auth/auth-token.ts:57-59 | in every run: a live token of a finished issue is listed exactly when the index was live from its SADD to its EXPIRE and has not been deleted since |
| `TokenIndex.LiveKeysIndexed` | src/auth/auth-token.ts:57-59 | the same for the live token keys |
| `TokenIndex.DeletedBetween` | src/auth/auth-token.ts:58-59 | an index deleted after a token's SADD, before its EXPIRE or later, never lists that token again |
| `TokenIndex.GapLosesToken` | src/auth/auth-token.ts:58-59 | the other case of `ListedIff`: a run in which the index expires between SADD and EXPIRE, and a live token is in no index |
| `TokenLegacy.LegacyHoldsNewest` | src/auth/auth-token.ts:60-61 | in every run, revocations included: reading the legacy key gives the token of the issue that finished last for one hour from its write, unless the key was deleted after it, and otherwise nothing |
| `BindTables.ExpireLiveClears` | src/mailVerificationCode/mailVerificationCode.infra.ts:36-69 | expiring what was read leaves nothing live for (app, email, type) |
| `BindTables.ExpireLiveIs` | src/mailVerificationCode/mailVerificationCode.infra.ts:36-69 | row by row: the live rows end now, and when none is live all rows for (app, email, type) are stamped with now; nothing else changes |
| `BindTables.ExpireRowsElsewhere` | src/mailVerificationCode/mailVerificationCode.infra.ts:36-56 | rows of other apps, emails and types are untouched |
| `BindTables.FourDigitsInjective` | src/utils.ts:52-56 | a padded code stands for one number |
| `BindTables.FourDigitsIs` | src/utils.ts:52-56 | a code is four decimal digits, and read as a number it is the number drawn |
| `BindTables.FirstFreeIs` | src/mailVerificationCode/mailVerificationCode.service.ts:202-208 | the loop ends with the first draw that is not live, and finds none exactly when all are |
| `BindTables.Earliest` | src/mailVerificationCode/mailVerificationCode.service.ts:123-127 | the reduce finds a device with the least creation time |
| `BindTables.EarliestIsFirst` | src/mailVerificationCode/mailVerificationCode.service.ts:123-126 | of several oldest devices it is the first that the table gives |
| `BindTables.RemoveDeviceExactly` | src/auth/device/device.infra.ts:27-30 | deleting by id takes out one row and keeps the order of the others |
| `BindCodes.MailVerificationCodeService.ExpireOldVerificationCodesByEmail` | src/mailVerificationCode/mailVerificationCode.service.ts:155-174 | the new code table as a function of the old one |
| `BindCodes.MailVerificationCodeService.ExpireOldAndSendVerificationCode` | src/mailVerificationCode/mailVerificationCode.service.ts:176-235 | read, expire, draw until the code is free, insert; without a free draw nothing is inserted (partial correctness of the loop) |
| `BindCodes.MailVerificationCodeService.SendDeviceBindCode` | src/mailVerificationCode/mailVerificationCode.service.ts:38-55 | challenge, gate, renewal: the whole new state and the answer |
| `BindCodes.MailVerificationCodeService.VerifyMailVerificationCode` | src/mailVerificationCode/mailVerificationCode.service.ts:118-153 | the check of the code with its effect on devices and codes |
| `BindCodes.MailVerificationCodeService.VerifyDeviceBindCode` | src/mailVerificationCode/mailVerificationCode.service.ts:57-95 | the whole verification: the new state of Redis, codes and devices, and the answer |
| `BindSerial.RenewLeavesOne` | src/mailVerificationCode/mailVerificationCode.service.ts:186-216 | after a renewal exactly the new code is live, or none when no draw was free |
| `BindSerial.AtMostOneLiveCode` | src/mailVerificationCode/mailVerificationCode.service.ts:176-216 | every reachable state has at most one live code per app, email and type |
| `BindSerial.SendLeavesOneFreshCode` | src/mailVerificationCode/mailVerificationCode.service.ts:186-216 | an allowed send leaves one code in 0001..9999, live for half an hour, different from all codes live before |
| `BindSerial.VerifyTrueIff` | src/mailVerificationCode/mailVerificationCode.service.ts:62-95 | exactly when a verification is true |
| `BindVerify.VerifiedIff` | src/mailVerificationCode/mailVerificationCode.service.ts:62-127 | after every run, told from the rows: a verification is true exactly when its type is that of devices, a live challenge for the email names the member, fewer than ten failed ones count in their hour, the first live row with the code is older than 0 and younger than 30 min, and the member has a device |
| `BindVerify.LockedIff` | src/auth/auth-limits.ts:155-156 | in every run a member is locked exactly when ten failed verifications count, counted in the run and not read from the counter |
| `BindSerial.TrueVerification` | src/mailVerificationCode/mailVerificationCode.service.ts:82-88 | a true verification removes one device, one of the member's with the least creation time, leaves no live code and no challenge, and the fail counter as it was |
| `BindSerial.FalseVerification` | src/mailVerificationCode/mailVerificationCode.service.ts:75-94 | a false one leaves the devices alone and counts one failure exactly when the member was challenged; below the cap nothing else changes |
| `BindSerial.LockInvariantHolds` | src/auth/auth.controller.ts:117-127 | in every reachable state a challenge for a member is under the member's own email, and a member at the cap has none |
| `BindSerial.LockedIsShut` | src/mailVerificationCode/mailVerificationCode.service.ts:62-69 | at the cap: no challenge, every verification is false and changes nothing, and so does a login |
| `BindSerial.LockLasts` | src/auth/auth-limits.ts:155-156 | for any requests of any app: the same counter stays, and the lock with it, until it expires |
| `BindSerial.LockedDevicesStay` | src/mailVerificationCode/mailVerificationCode.service.ts:62-69 | meanwhile the member's devices are the same, unless the table is rewritten from elsewhere or the member verifies in another app |
| `BindSerial.LockDropsCodesIff` | src/mailVerificationCode/mailVerificationCode.service.ts:90-93 | the attempt that reaches the cap drops the live code of an email exactly when it was spelled that way (or none was live) |
| `BindSerial.LockedHasNoCode` | src/mailVerificationCode/mailVerificationCode.service.ts:57-61 | a member at the cap never has a live code, when no two members of an app have the same email and requests spell a member's email as its record does; members without email and one email in two apps are included |
| `BindRuns.VariantSpellingKeepsCode` | src/mailVerificationCode/mailVerificationCode.service.ts:57-61 | a run with another spelling after which the member is locked and the code still live: the doc comment's claim fails |
| `BindSerial.SentCodeVerifies` | src/mailVerificationCode/mailVerificationCode.service.ts:110-115 | the code a login sends verifies exactly while 0 < age < 30 min |
| `BindInterleaved.WrongGuessBound` | src/mailVerificationCode/mailVerificationCode.service.ts:75-94 | under every interleaving and in every life of the fail counter: wrong codes plus codes being checked are at most 10 plus the decrements that strayed into that life |
| `BindInterleaved.WrongGuessCap` | src/mailVerificationCode/mailVerificationCode.service.ts:75-81 | when no decrement strays into this life, at most 10 in it, whatever happens to other members and in other lives |
| `BindInterleaved.InTimeNoStray` | src/mailVerificationCode/mailVerificationCode.service.ts:75-85 | a decrement made before its counter was due to expire, as of the count, goes back to the life of the count |
| `BindInterleaved.WrongGuessInTime` | src/mailVerificationCode/mailVerificationCode.service.ts:75-85 | so when the decrements that reach a life are made in time there are at most 10 in it |
| `BindInterleaved.SoloIsSerial` | src/mailVerificationCode/mailVerificationCode.service.ts:62-95 | a request that runs alone is the serial method, in at most ten round trips |
| `BindLate.LateDecrementsAddGuesses` | src/mailVerificationCode/mailVerificationCode.service.ts:84-85 | for every n a run with n late decrements and 10 + n guesses in one life: the bound is met whatever the number of strays |
| `Joined.JoinSplit` | src/utils.ts:128-129 | joining what was split gives the string back |
| `Joined.SplitJoin` | src/utils.ts:128-129 | splitting what was joined gives the parts back when none has the separator |
| `Joined.FieldCount` | src/utils.ts:128-129 | a joined column has at least as many fields as parts, and as many exactly when no part has the separator |
| `LineCodec.ParseGenerate` | src/invoice/invoice.service.ts:282-295 | parsing what was generated gives back any non-empty list of rows whose fields have no separator |
| `LineCodec.NoRowsDoNotReturn` | src/invoice/invoice.service.ts:327-340 | no rows come back as one row |
| `LineCodec.GenerateParseIff` | src/invoice/invoice.service.ts:327-340 | generating what was parsed gives the columns back exactly when all have the same number of fields |
| `LineCodec.InvoiceRoundTrips` | src/invoice/invoice.service.ts:282-340 | both directions for the five invoice columns |
| `Rounding.CompensationIsSurplus` | src/utils.ts:113-115 | the compensation is a whole number |
| `Rounding.SurplusBounds` | src/utils.ts:113-120 | for non-negative rows it is never negative, and at most the number of units sold when quantities are whole |
| `Rounding.FinalTotal` | src/invoice/invoice.service.ts:297-325 | a row is added exactly when the surplus R - round(T) is positive, the list then comes to 2R - round(T), and it comes to round(T) exactly when none is added |
| `Rounding.RoundTwice` | src/invoice/invoice.service.ts:297-325 | rounding its own output changes nothing and adds nothing |
| `InvoicePipeline.SentIsRounded` | src/invoice/invoice.service.ts:81-91 | for all columns, uneven ones included: what is read from the columns that are sent is the rounded list of what was read from the caller's, with missing fields filled in |
| `InvoicePipeline.RoundInvoiceTwiceIff` | src/invoice/invoice.service.ts:81-91 | sending the sent columns through again gives the same columns exactly when at most one of the caller's columns was short |
| `InvoicePipeline.NumericRounded` | src/invoice/invoice.service.ts:297-325 | where every field is a number the list is the one `Rounding` is about |
| `InvoiceSent.LineSent` | src/invoice/invoice.service.ts:81-91 | from columns with equally many fields, text by text: every line is sent in its place with its own name and unit, count and price rounded up, and their product for an amount; what is not a number stays none |
| `InvoiceSent.SurplusSent` | src/invoice/invoice.service.ts:297-340 | one more line is sent exactly when all counts and prices are numbers and rounding up exceeds the rounded sum: its five texts, and the number of fields in every column |
| `InvoiceAmounts.TaxSplit` | src/invoice/invoice.service.ts:392-405 | net amount plus tax is the total for every amount; at five percent 21 * tax is within 10 of a whole amount; free of duty there is no tax |
| `InvoiceAmounts.ConsumerLines` | src/invoice/invoice.service.ts:413-429 | unless it is for a company the lines come to the order plus the excess of rounding, and to the order exactly when every product price is whole |
| `InvoiceAmounts.CompanyLines` | src/invoice/invoice.service.ts:392-429 | for a company the lines differ from the net amount by at most (n + 1) / 2, apart from the excess without tax, which is nothing exactly when every price is whole |
| `InvoiceAmounts.LinesMultiply` | src/invoice/invoice.service.ts:415-449 | the amount of every line is its price times its count |
| `InvoiceLines.ProductLines` | src/invoice/invoice.service.ts:415-453 | line j is product j: name cut to 25 and its quantity behind it, its own price and count rounded up, the tax taken off for a company, the same amount, and its unit, all at one place |
| `InvoiceLines.SurplusLine` | src/utils.ts:113-120 | after the products, when the surplus is positive, the line for it |
| `InvoiceLines.DiscountLines` | src/invoice/invoice.service.ts:419-453 | then the discounts in order: name cut to 30, negative price, count 1 |
| `InvoiceLines.ShippingLines` | src/invoice/invoice.service.ts:422-458 | then shipping, when there is a way of shipping: its own unit, its fee, count 1 |
| `InvoiceLines.LineCount` | src/invoice/invoice.service.ts:415-458 | how many lines there are of each kind, and no others |
| `InvoiceLines.TotalsAre` | src/invoice/invoice.service.ts:392-405 | total, tax and the rest, each rounded by itself |
| `InvoiceLines.CategoryIs` | src/invoice/invoice.service.ts:350-390 | which kind of invoice it is: for a company exactly when there is neither a donation nor a phone carrier before its number |
| `InvoiceLines.FinishedAt` | src/invoice/invoice.service.ts:297-325 | the rounded list row by row, and the row for the surplus field by field |
| `InvoiceLines.OrderAt` | src/invoice/invoice.service.ts:171-198 | what an order hands on: names without separator, prices, quantity 1, in order |
| `InvoiceAmounts.ColumnsFitIff` | src/invoice/invoice.service.ts:415-460 | an invoice with lines has five columns of equal length, and survives parsing and generating, exactly when no name that is sent has the separator |
| `InvoiceAmounts.Sanitize` | src/invoice/invoice.service.ts:176-190 | no separator is left and every other character stays in place |
| `InvoiceAmounts.OrderColumnsFit` | src/invoice/invoice.service.ts:171-198 | for an order the columns always fit, whatever its names |
| `InvoiceRetry.InvoiceService.UpdateOrderAndPaymentLogInvoiceOptionsByPaymentNo` | src/invoice/invoice.service.ts:486-515 | the loop over the orders and the payment: both tables as a function of the old ones; a status that is undefined removes the one stored |
| `InvoiceRetry.InvoiceService.IssueInvoiceByPayment` | src/invoice/invoice.service.ts:155-242 | every way an attempt ends is recorded, an answer without a status among them, unless a statement failed and aborted the transaction |
| `InvoiceRetry.InvoiceService.IssueInvoiceDirectly` | src/invoice/invoice.service.ts:47-153 | a transaction of its own: an error rolls back what was recorded |
| `InvoiceRetry.InvoiceService.UpdateOrderAndPaymentLogInvoiceOptionsByOrderId` | src/invoice/invoice.service.ts:517-545 | the loop over all payments of the order, and the order: both tables as a function of the old ones |
| `InvoiceRetry.InvoiceService.IssueInvoiceForOrder` | src/invoice/invoice.controller.ts:21-33 | a request at the issue endpoint names no payment: its answer is recorded on every payment of the order, and nothing is on an error or without the order's row |
| `InvoiceRetry.InvoiceRunner.Execute` | src/runner/invoice.runner.ts:39-90 | one transaction around the loop over the picked payments: once a statement failed the later jobs on it fail too, and everything on it is put back; the errors in order, and it throws exactly when there are any |
| `InvoiceErrors.ErrorsAre` | src/runner/invoice.runner.ts:48-80 | the errors of an execution in order, told from the attempts alone: one for every failed invoice of several, and one for a payment after an aborted statement, with an attempt that failed, or issued without an order |
| `InvoiceErrors.CleanIff` | src/runner/invoice.runner.ts:87-89 | an execution throws nothing exactly when every job on its own does |
| `InvoiceRecords.AnswerRecorded` | src/invoice/invoice.service.ts:201-225 | an answer is recorded field by field on the payment and on its order: its status, one attempt more (1 when there was none), the issue time when it is a success; nothing else changes and nobody else's row |
| `InvoiceRecords.ThrownRecorded` | src/invoice/invoice.service.ts:230-241 | the same for an error before the answer: a failure of our own without issue time |
| `InvoiceRecords.OrphanRecorded` | src/invoice/invoice.service.ts:223-240 | a success without an order row keeps its issue time under a failure that counts twice |
| `InvoiceRecords.DirectRecorded` | src/invoice/invoice.service.ts:91-153 | one of several invoices: an answer is recorded field by field as for a single one, and an error leaves no record |
| `InvoiceRecords.EndpointRecorded` | src/invoice/invoice.service.ts:517-545 | an answer at the issue endpoint is recorded field by field on the order and on every payment of it, and on no other row |
| `InvoiceRecords.SuccessIssuesBoth` | src/runner/invoice.runner.ts:45-90 | a committed success leaves both the payment and its order with an issue time, when nobody else edits orders during the execution |
| `InvoiceRecords.PickedAreDue` | src/payment/payment.infra.ts:11-34 | which payments are picked up, column by column: an execution has a turn only for payments that are due when it begins, and below its limit for all of them |
| `InvoiceRuns.SelectedIff` | src/payment/payment.infra.ts:11-34 | an eligible payment is selected exactly as long as it has attempts left, with SQL's nulls |
| `InvoiceRuns.AloneIsExecute` | src/runner/invoice.runner.ts:39-90 | an execution with nothing in between is the runner's method |
| `InvoiceRuns.RolledBackLeaves` | src/runner/invoice.runner.ts:85-90 | a rolled-back execution leaves of a payment with one invoice what the changes committed meanwhile alone would leave, whatever the gateway answered |
| `InvoiceRuns.AttemptsBounded` | src/invoice/invoice.service.ts:201-240 | any run, single invoice, whatever the issue endpoint and others do between executions and during them: the attempts of committed executions plus what is left of the budget never exceed the budget plus one for every answer without a status plus what others have added; a committed success is the only one |
| `InvoiceRuns.RaisedByIssues` | src/invoice/invoice.service.ts:517-545 | others add at most one for every answer without a status at the endpoint and four for every record that overwrites one it has not read |
| `InvoiceRuns.FiveAttempts` | src/payment/payment.infra.ts:18-21 | over any run at most one committed success and, when every answer has a status, at the endpoint too, and no record is lost, at most five attempts in committed executions |
| `InvoiceRuns.NeverAgain` | src/payment/payment.infra.ts:11-34 | executions that begin after an issue time is recorded, by whomever, do not attempt the payment, committed or not, however many invoices it has |
| `InvoiceRuns.IssuedTwice` | src/runner/invoice.runner.ts:45-71 | an issue time committed by the endpoint while an execution is under way does not stop it: for every picked payment a run with a second invoice |
| `InvoiceRuns.LimitIff` | src/payment/payment.infra.ts:18-21 | the exact limit for a payment that is picked up: with at most s answers without a status in executions, r at the endpoint and l lost records no run has more than n committed attempts if and only if its budget plus s plus r plus 4 l is at most n |
| `InvoiceRuns.BoundReached` | src/payment/payment.infra.ts:18-21 | for all of these numbers a run that meets the limit |
| `InvoiceRuns.SilentUnbounded` | src/invoice/ezpay_client.ts:117-125 | a payment answered without a status is picked up again whatever its retry count, any number of times, in executions that are all committed |
| `InvoiceRuns.UnrecordedUnbounded` | src/invoice/invoice.service.ts:139-152 | what is not recorded has no limit: attempts with one invoice whose statement aborts the execution, and any error with several, repeat any number of times, successes among them |
| `HostCache.RefillIs` | src/app/app.service.ts:193-199 | the transaction leaves just these hosts for five minutes, whatever was there |
| `HostCache.BoundedStaleness` | src/app/app.service.ts:177-205 | under any interleaving, edit and failure an answer is the app's hosts at some point of the run before that answer, at most five minutes plus the longest read-to-write delay earlier |
| `HostCache.SettledAnswer` | src/app/app.service.ts:177-205 | when the hosts have been the same for that long up to the answer, they are the answer |
| `HostCache.StalenessReached` | src/app/app.service.ts:190-199 | the bound is met to the last millisecond |
| `HostCache.AppService.GetAppHostNames` | src/app/app.service.ts:179-205 | a call on its own takes the machine's steps one after the other |
| `PodcastProgress.PodcastService.ProcessPodcastProgramProgress` | src/podcast/podcast.service.ts:42-74 | the loop that updates records in place: the records returned and the table stored |
| `PodcastProgress.KeyInjective` | src/podcast/podcast.service.ts:49 | the joined key is one-to-one when program ids have no underscore |
| `PodcastProgress.BatchIsSerialIff` | src/podcast/podcast.service.ts:42-74 | a batch stores what its events would store one at a time, for every table, exactly when no two of its records share a key |
| `PodcastProgress.ProgramBatches` | src/podcast/podcast.service.ts:42-74 | for program ids without underscore each record is saved once, and as one event at a time would leave it |
| `PodcastProgress.CreationTime` | src/podcast/podcast.service.ts:52-63 | a stored record keeps its creation time, a new one has that of the first event about it |
| `PodcastRecords.BatchStores` | src/podcast/podcast.service.ts:42-74 | after a batch without a key clash each record holds the last event about it: its progress and last progress when given and not zero and 1 otherwise, its album when that has more than white space, its time; and it was created when it was before, or at the first event |
| `PodcastRecords.BatchSpares` | src/podcast/podcast.service.ts:42-74 | records that no event is about are as before |

## Left out

- Hashing is a parameter that is one-to-one and prints without a colon; codes and passwords are compared as oracles.
- `AuthKeys.NormalizeIdempotent`: trimming is JavaScript's, but only ASCII letters are lowered; Unicode lower case is not modelled.
- Numbers are exact: floating-point rounding, infinities and negative zero are not modelled.
- Strings are sequences of code points; cutting a name in the middle of a surrogate pair is not modelled.
- One clock serves Redis, the database and the process, in milliseconds; the serial runs of the bind codes let time pass only between operations.
- Redis keys have one type each (counter, document or set): replies of the kind WRONGTYPE cannot occur.
- Malformed JSON under a challenge key is read as no challenge, and no other writer of these keys is assumed; the backend's revocations are deletions of token keys, legacy keys and indexes at any point.
- Two devices of equal creation time come in table order; the database may choose either.
- `BindCodes.MailVerificationCodeService.ExpireOldAndSendVerificationCode`: the generator is a finite list of draws, so that the retry loop ends with probability one is not stated; queueing the mail is left out.
- `BindSerial.TrueVerification`: for serial runs only; two correct codes at once can both pass and remove two devices.
- `BindInterleaved.WrongGuessBound`: the code and device tables may change in any way between two steps, so the bound does not rest on them.
- `InvoiceRuns.AttemptsBounded`: for payments with a single invoice whose status, when there is one, has a retry count, and whose success has an issue time, as every record of the program leaves them; the read and the write of one record are one step, and a record whose read came earlier is a change that overwrites (`Stale`).
- `InvoiceRuns.NeverAgain`: payments with several invoices are recorded in transactions of their own, and their waiting for rows that the execution has locked is not modelled.
- `SendWindows.NeverOverIff`: a try, cooldown and counter together, is one step, so the exact maximum is that of tries that do not overlap.
- `SendWindows.CapHoldsIff`: likewise exact for tries that do not overlap.
- `SendWindows.WindowSends`: likewise; `GateRuns.PassedWindow` has both limits for tries that do, and `GatePeak` runs that meet them.
- `SendWindows.MailWindows`: likewise; `GateRuns.MailsInterleaved` has both limits for tries that do.
- `InvoiceRuns.FiveAttempts`: counts the answers that were seen; a gateway that issues an invoice and loses its answer is an attempt that threw.
- `LoginRuns.PassesIff`: for runs in which nothing else counts or clears login attempts, as nothing else in the program does.
- `InvoiceRecords.SuccessIssuesBoth`: a change from elsewhere to the orders during the execution is not considered; one to payments is.
- `InvoiceRetry.Update`: of the notes only the fields that decide whether a payment is picked again are kept; the gateway's numbers, its message and the row of the invoice table are not.
- `HostCache.BoundedStaleness`: an answer is stamped with the step that decides it, not with its later arrival at the caller; a write that Redis carries out after its caller has given up is one that comes late.
- `PodcastProgress.PodcastService.ProcessPodcastProgramProgress`: the generated id of a new row is left out, rows are told apart by member and program, with program ids compared as strings although the database takes two spellings of an id that differ in case for one row; other writers between lookup and save are not modelled.
- `InvoicePipeline.RoundInvoice`: all five columns are there; in a request one can be missing, and splitting it throws before the gateway is reached.
- `LoginService.GeneralLogin`: session token, last-login job and the text of the mail.
- `InvoiceAmounts.Issue`: buyer, carrier and comment fields, and the order number made from the payment number.
- The device-login challenge: only its key (`AuthKeys.Text`) is here.
- Mail, JWT, AES, S3, queues, the runner's lock, the full app cache, CSV import and export, guards, DTOs and the query builders of the other services.
