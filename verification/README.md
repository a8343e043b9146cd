# Verified model of grafana-mcp-setup

grafana-mcp-setup is a small web server that gives every signed-in user one Grafana service account token
for MCP clients. This project models its core in Dafny and proves what the core is meant to guarantee. Check all
of it with `dafny verify dfyconfig.toml`.

The model has six parts.

**The rotation Lease.** Pods compete for one Kubernetes Lease. `LeaseProtocol` is a state machine in which every
GET, decision, PUT, commit, answer, timer tick and Release is a step of its own; requests may be lost, answered late
or land after their sender gave up, pods may pause, and the API server compares resource versions. `LeaseInvariant`
is what every step keeps. `LeaseSafety` has mutual exclusion, the bound on overlaps, and what Release guarantees;
`LeaseStamps` is about its stamps, `LeaseOverlap` shows that the clock condition of mutual exclusion is exact from any initial Lease. `SerialOrder` and
`Operations` put the guarded Grafana mutations of all pods into one serial order, under the same exact condition, and
`SerialOrder` bounds the calls out of turn on any clocks. `LeaseRecord` and `LeaseGuard` are the code of one pod, branch
by branch; `LeaseAttempts` and `LeaseRounds` show that acquiring and renewing in the protocol are the loops of that code.

**The in-process lock.** `LocalLock` has the reference-counted locks as a class whose methods are the atomic steps of
goroutines, taken in any order.

**Rotation against a faulty Grafana.** `Remote` is one identity's account and tokens behind calls that may be done,
refused, or fail with an effect that has happened, has not, or is still to come; its trace shows every Check, every
mutation with its answer and the tokens it leaves, every late landing, and everything else that failed. `Traces` says
what a trace shows. `Rotation` is `issue` with `newToken` and its cleanup in both API modes, `Delivery` seals its
cookies, and `Cleanup` is `revoke`, `reconcileOne`, `Offboard` and `liveToken`. What an earlier operation left
outstanding may land during a later one, so the statements hold over retries: `Remote.watched` are any tokens that
nothing outstanding can delete, and they are what an operation may leave missing only as its statement says. Only exact
outcomes ask for a start with nothing outstanding (`Store.Quiet`).

**Lookups.** `Paging` is about pages chained by continuation tokens, `PagedLookup` shows that both account lookups
refine the search of one list, `TokenListing` has both token listings and what they mean, and `Names` says that random
names do not collide.

**Codecs and sign-in.** `SessionCodec`, `FlashCodec` and `Login` are the cookies, the CSRF token and the sign-in
server, over concrete base64url and decimal text (`Base64`, `Text`) and an ideal cipher and MAC (`IdealCrypto`);
`Clock` has the units of time.

**Configurations and their painting.** `Painting` and `Highlight` are the painter and the two scanners, `JsonText` is
the JSON that Go writes, `Formats` and `Codex` are the generated configurations, `Masking` is about replacing a word
in text, and `Spans` counts the token spans of the HTML. `JsonReading` and `TomlReading` are readers of those formats,
`Clients` says what they find in the configurations, and `Colours` which parts are coloured how.

## Assumptions

- Lease: holder strings differ (`Names.HoldersDistinct` for different random bytes), nobody deletes the Lease or writes
  it by hand, the lease duration is a positive whole number of seconds, a pod's clock does not run backwards and is
  within `skew` of real time. `Check` and the start of the call it guards are one step. Where `Exclusive` is asked
  for, clocks show whole microseconds and are off by less than half of one; one shared clock has `skew == 0`.
- Grafana: a DELETE that reports success removed the token, a 4xx answer had no effect, a creation creates at most
  one token, token IDs are not used twice, the new token name is not in use, and no outside actor changes the account
  meanwhile. When an issue starts, no deletion of the whole account is outstanding.
- Cookies: AES-GCM opens exactly what was sealed under the same nonce and associated data, nonces are distinct, and a
  MAC verifies exactly when it was computed for that message. Reading the JSON of a payload gives back what was
  written. An ID token that verifies is given as such.
- Text is valid UTF-8 and a Dafny `char` is one code point. What Go's unicode package says of characters beyond ASCII
  is a parameter (`Highlight.Unicode`).

## Model

| member | source | states |
|---|---|---|
| LeaseRecord.DecideUpdate | internal/server/lock.go:286-309 | a Lease is written exactly when its renewTime is unset or parses and the pod is the holder, or is acquiring and the Lease is free or expired; a renewal keeps acquireTime and transitions, a takeover stamps acquireTime and adds one transition with int32 wrap-around |
| LeaseInvariant.StepKeeps | internal/server/lock.go:254-374 | every step inside a pod, of the acquiring loop, the renewing loop or Release, keeps the process invariant and does not touch the stored stamp |
| LeaseInvariant.AdvanceKeeps | internal/server/lock.go:350-357 | the passing of time keeps the invariant of every process |
| LeaseInvariant.CreateKeeps | internal/server/lock.go:112-131 | creating the empty Lease, or the conflict when it exists, keeps the invariant of every process |
| LeaseInvariant.ClaimKeepsSender | internal/server/lock.go:307-314 | a claim that lands, even late, leaves its sender with a stored stamp that its local deadline does not exceed by a microsecond |
| LeaseInvariant.ClaimKeepsOther | internal/server/lock.go:281-315 | a claim that lands leaves every other process right: a holder it displaces has run out or vacated |
| LeaseInvariant.VacateKeepsSender | internal/server/lock.go:359-374 | the PUT of Release, landing or rejected, keeps the invariant of its sender |
| LeaseInvariant.VacateKeepsOther | internal/server/lock.go:359-374 | the PUT of Release takes nothing from any other process |
| LeaseInvariant.ClaimKeepsHistory | internal/server/lock.go:303-310 | a committed claim is a new acquisition exactly when it changes the holder, and then counts one transition |
| LeaseInvariant.EventKeeps | internal/server/lock.go:96-374 | every event of the protocol keeps the invariant |
| LeaseInvariant.RunKeeps | internal/server/lock.go:96-374 | the invariant holds after every run |
| LeaseSafety.OustedWindow | internal/server/lock.go:262-309 | a guard that passes Check without holding the Lease does so at earliest one skew before its stored expiry and less than a microsecond plus one skew after it |
| LeaseSafety.EventKeepsCoarse | internal/server/lock.go:262-344 | with clocks of whole microseconds every local deadline and stamp stays one |
| LeaseSafety.PassesOnlyAsHolder | internal/server/lock.go:350-357 | on such clocks, off by less than half a microsecond, only the holder of the Lease passes Check |
| LeaseSafety.MutualExclusion | internal/server/lock.go:254-374 | in every reachable state at most one unreleased guard passes Check |
| LeaseSafety.OustedStays | internal/server/lock.go:317-348 | a process that wrote the Lease and is not its holder never becomes it again by any event |
| LeaseSafety.OustedForever | internal/server/lock.go:317-348 | nor by any run, and its stored stamp stays |
| LeaseSafety.OverlapBound | internal/server/lock.go:262-357 | two moments of a run at which two unreleased guards both pass Check are less than twice the skew plus one microsecond apart |
| LeaseSafety.ReleaseIsHarmless | internal/server/lock.go:359-374 | the PUT of Release commits only while its own guard is the holder and then clears the holder; otherwise the Lease is unchanged |
| LeaseSafety.ReleaseIsFinal | internal/server/lock.go:359-374 | after that commit the guard is the holder in no later state, whatever renewals land |
| LeaseSafety.TransitionsCountAcquisitions | internal/server/lock.go:303-306 | leaseTransitions is the initial value plus the number of committed acquisitions, wrapped to int32; nobody acquires twice; labels, annotations, finalizers and owner references survive |
| LeaseStamps.ClaimWrites | internal/server/lock.go:281-315 | a claim that commits is a renewal that moves renewTime alone, or a takeover that also stamps acquireTime and counts one transition; one that does not commit changes nothing |
| LeaseStamps.VacateWrites | internal/server/lock.go:359-374 | the PUT of Release that commits clears the holder and stamps renewTime, and leaves duration, acquireTime, transitions and metadata |
| LeaseStamps.EventKeepsStamps | internal/server/lock.go:254-374 | every event keeps each process from sending a stamp older than one it has stored, and acquireTime from passing renewTime |
| LeaseStamps.AcquiredBeforeWritten | internal/server/lock.go:303-308 | in every run, from the first acquisition on, acquireTime is never after renewTime, whatever lands late |
| LeaseStamps.StampsAdvance | internal/server/lock.go:303-373 | no write of the holder, also a late one, takes renewTime back |
| LeaseOverlap.AcquireRun | internal/server/lock.go:254-315 | a fresh process that finds the Lease available, whatever it holds, has a run in which it acquires it with one attempt |
| LeaseOverlap.Readings | internal/server/lock.go:262-309 | without the clock condition there is a moment at which one pod's clock is short of the local deadline and another's is at the stored expiry |
| LeaseOverlap.Overlap | internal/server/lock.go:262-309 | from any readable initial Lease, or none, with fractions of a microsecond or a skew of half of one, there is a run in which two guards pass Check together |
| LeaseOverlap.NobodyHolds | internal/server/lock.go:288-292 | when the renewTime of the Lease does not parse, no guard is ever held, no guarded call starts and the Lease never changes, in any run |
| LeaseOverlap.FirstHolder | internal/server/lock.go:254-279 | from any readable initial Lease there is a run after which one guard holds it, with the stamp of its earliest moment |
| LeaseOverlap.ExclusiveIsExact | internal/server/lock.go:254-374 | from any initial Lease, a run in which two guards pass Check together exists if and only if clocks show fractions of a microsecond or are off by half of one, and the Lease can be read |
| SerialOrder.PassesOnlyAsLast | internal/server/lock.go:350-357 | a guard that passes Check belongs to the last acquirer |
| SerialOrder.EventKeepsSerial | internal/server/server.go:446-500 | every event keeps the started calls lying operation by operation |
| SerialOrder.SerialOrder | internal/server/server.go:446-500 | in every run the guarded calls, as started, are those of one operation after another in the order of acquisition |
| SerialOrder.SerialEffect | internal/server/server.go:545-555 | so their combined effect, whatever a call does, is that of whole operations one after another |
| SerialOrder.SerialIsExact | internal/server/server.go:446-500 | from any initial Lease, a run in which guarded calls start out of turn exists if and only if clocks show fractions of a microsecond or are off by half of one, and the Lease can be read |
| SerialOrder.Interleaving | internal/server/server.go:488-499 | without that clock condition there is a run in which two operations start calls in turns |
| SerialOrder.OustedStartsNoMore | internal/server/lock.go:317-357 | on any clocks, a process that wrote the Lease and is not its holder passes Check for less than twice the skew plus one microsecond more |
| SerialOrder.StartsSoonEnd | internal/server/lock.go:254-357 | on any clocks, in every run, once a claim has landed an earlier acquirer starts no guarded call as late as twice the skew plus one microsecond after it |
| Operations.AllGuardedIsGuarded | internal/server/reconcile.go:115-127 | an operation all of whose mutations follow a Check has no mutation to excuse |
| Operations.Perform | internal/server/server.go:424-557 | each of issue, revoke, reconcile and offboard, in any state and whatever was left outstanding, yields a trace in which every mutation directly follows a passed Check or deletes a token with the operation's own new name; of the tokens that nothing outstanding can delete, issue leaves no gap without its replacement, reconcile never misses an unplanned one, and a dry offboard none; without an error, and with nothing outstanding at its start, the operation achieves its purpose |
| Operations.SerialOperations | internal/server/reconcile.go:115-127 | when the calls that a run started under each guard are the guarded mutations of that guard's operation, all of them together are those of one whole operation after another, in the order of acquisition |
| Operations.Realized | internal/server/lock.go:254-357 | for every operation there is a run of the Lease protocol in which its guard starts exactly its guarded mutations |
| Operations.AnyMutations | internal/server/server.go:545-555 | and every sequence of mutations at all is that of the guarded mutations of some operation |
| LeaseGuards.KeptExactlyInTime | internal/server/lock.go:317-348 | the renewing loop keeps its guard exactly when every renewal was tried before the deadline and succeeded, and the deadline counts from the last attempt |
| LeaseRounds.OneMoreRound | internal/server/lock.go:321-347 | a loop that got through its rounds sees the next one from the guard they left |
| LeaseRounds.GuardFollowsRounds | internal/server/lock.go:317-348 | in every run of the protocol a held guard is what the renewing loop makes of the rounds that the run's events spell out since its acquisition, where a renewal succeeded exactly if its PUT was answered as committed |
| LeaseGuards.LeaseGuard.constructor | internal/server/lock.go:266 | a new guard is not lost and counts from the time before the acquiring GET |
| LeaseGuards.LeaseGuard.Check | internal/server/lock.go:350-357 | Check passes exactly when the guard is not lost and its deadline lies ahead |
| LeaseGuards.LeaseGuard.Renew | internal/server/lock.go:317-348 | the loop leaves the guard as the rounds it saw prescribe; the rounds of a run are given by LeaseRounds |
| LeaseGuards.LeaseGuard.Release | internal/server/lock.go:359-374 | only the first Release sends a PUT, only while the Lease names this guard, and the PUT clears the holder and stamps renewTime |
| LeaseGuards.EndIsFirst | internal/server/lock.go:261-278 | the loop ends with a guard exactly at the first attempt that reads a readable Lease, may write it and commits; with an error exactly at one that gets no answer, cannot read the renewTime or fails to write; every attempt before was refused or met a conflict, and its wait was not cancelled |
| LeaseGuards.Acquire | internal/server/lock.go:254-279 | the same of the loop itself, and its guard counts from before the GET of the attempt that committed |
| LeaseAttempts.OneMoreAttempt | internal/server/lock.go:261-278 | a loop that still tries meets its next attempt: it gets a guard, an error, is cancelled, or tries on |
| LeaseAttempts.StepKeepsTries | internal/server/lock.go:254-315 | each step of a pod takes the loop to where the attempts so far take it |
| LeaseAttempts.LoopFollowsAttempts | internal/server/lock.go:254-315 | in every run of the protocol a process holds a guard exactly if the loop ends with one on the attempts that the run's events spell out, namely at the last of them, from whose reading the guard then counts; it gave up if the loop ended with an error or was cancelled; otherwise the loop is still trying |
| LocalLocks.Entered | internal/server/lock.go:59-68 | a goroutine that joins a lock is counted, and the token is in the channel or with exactly one goroutine |
| LocalLocks.Moved | internal/server/lock.go:70-76 | taking the token, cancelling and putting it back keep that count and that token |
| LocalLocks.Left | internal/server/lock.go:83-89 | the count reaches zero exactly when the last goroutine leaves |
| LocalLocks.LocalLocker.Enter | internal/server/lock.go:59-68 | the first critical section finds or makes the entry of the key and leaves all others alone |
| LocalLocks.LocalLocker.Take | internal/server/lock.go:74-75 | the select that takes the token makes the goroutine the holder |
| LocalLocks.LocalLocker.Cancel | internal/server/lock.go:71-73 | the select that takes the cancellation leaves the token |
| LocalLocks.LocalLocker.PutBack | internal/server/lock.go:79-82 | the channel is empty when the token is returned, so the send does not block |
| LocalLocks.LocalLocker.DropRef | internal/server/lock.go:83-89 | the entry is deleted exactly when no goroutine refers to it |
| LocalLocks.LocalLocker.Interleave | internal/server/lock.go:59-94 | every interleaving of the steps keeps the lock's invariant |
| LocalLocks.AtMostOneGuard | internal/server/lock.go:59-94 | at most one guard per key is held, and meanwhile the channel is empty |
| LocalLocks.EntryExactlyWhileUsed | internal/server/lock.go:59-94 | the entry of a key exists exactly while some goroutine refers to its lock, refs counts them, and it is the lock they all have |
| LocalLocks.TokenOrHolder | internal/server/lock.go:70-82 | the token can be taken exactly when nobody holds the guard |
| Names.HoldersDistinct | internal/server/lock.go:246-252 | a holder string determines the pod name and the random bytes |
| Names.HolderParts | internal/server/lock.go:246-252 | a holder is the pod's name, a dash and 24 hexadecimal digits |
| Names.TokenNamesDistinct | internal/server/grafana.go:354-356 | a token name determines the second and the random bytes |
| Names.TokenNameParts | internal/server/grafana.go:354-356 | a token name has three parts between dashes: a word, the second in base 36, and the bytes in hexadecimal |
| Text.ParseFormat | internal/server/stash.go:156-167 | parsing a printed int64 gives it back |
| Text.FormatInjective | internal/server/grafana.go:354-356 | printing in base 10 or 36 loses nothing |
| Text.Utf8Reads | internal/server/server.go:178-181 | UTF-8 (RFC 3629) has one length for every character, and a reader gets it back |
| Base64.Encode | internal/server/session.go:75 | the encoding of n bytes has the length of unpadded base64 and uses its alphabet only |
| Base64.DecodeEncode | internal/server/session.go:75-86 | decoding undoes encoding, for all bytes |
| Base64.DecodedLength | internal/server/session.go:82-90 | four characters never decode to more than three bytes, line breaks or not |
| Remotes.QuietStays | internal/server/grafana.go:295-303 | nothing changes on its own when no effect is outstanding |
| Remotes.SafeStays | internal/server/grafana.go:295-303 | tokens that nothing outstanding can delete or overwrite stay, whatever of the rest lands |
| Remotes.SafeDelete | internal/server/grafana.go:295-303 | a delete of another token, however it is answered, leaves them so |
| Remotes.Remote.CreateAccount | internal/server/grafana.go:220-236 | the account may have been created even if the answer is an error, or may still be; its tokens are not touched |
| Remotes.Remote.ListTokens | internal/server/grafana.go:253-293 | a listing names every token once as it stood when read |
| Remotes.Remote.CreateToken | internal/server/grafana.go:312-340 | a creation is done, refused without effect, or unclear: with no effect, a token, or a token that lands late; the trace shows the secret and the name it was answered with |
| Remotes.Remote.DeleteToken | internal/server/grafana.go:295-303 | a delete reports success only if it removed the token; otherwise it had no effect, its effect, or one that lands late |
| Remotes.Remote.DeleteAccount | internal/server/grafana.go:238-243 | deleting the account takes its tokens with it, on success, or after an unclear answer now, later or never |
| Traces.NoGapNeverEmpty | internal/server/server.go:460-499 | an account that started with tokens holds at least one at every step of a run without gaps |
| Traces.SentOn | internal/server/server.go:545-555 | what was sent by a longer trace is what its parts sent, in order |
| Traces.AppliedNext | internal/server/reconcile.go:115-127 | one more round sends at most the next delete, and ends the trace if it fails |
| Traces.TakenBack | internal/server/server.go:481-486 | a token that was answered for and is then cleaned up leaves an error that is marked exactly when the cleanup failed |
| Rotation.OwnStays | internal/server/grafana.go:326-332 | whatever lands late, the run's own token is the only one that can have the requested name, and stays if it is there |
| Rotation.PendingStays | internal/server/grafana.go:326-332 | while a creation is unresolved, nothing but that one token can appear |
| Rotation.MatchesOf | internal/server/grafana_legacy.go:203-211 | the loop finds one match exactly when one listed token has the name |
| Rotation.FindOwn | internal/server/grafana_legacy.go:196-211 | the legacy cleanup aims at a listed token only if it is the one with the requested name; it gives up only after a failed listing or one that was shown without exactly one such token |
| Rotation.DeleteOwn | internal/server/grafana.go:342-352 | a cleanup aims at the run's own token alone and fails exactly when its delete does; one that succeeds, with nothing else outstanding, leaves exactly the old tokens with nothing outstanding |
| Rotation.Cleanup | internal/server/grafana_legacy.go:196-216 | the same for both API modes: success means that the delete of the run's own token was answered with success, and failure that it was not, or that the legacy lookup failed or was ambiguous |
| Rotation.RequestToken | internal/server/grafana.go:324-331 | one creation adds at most the one token that was asked for, at once or late; when it is answered, that token is safe |
| Rotation.NewTokenFor | internal/server/grafana.go:312-352 | success returns the very secret that Grafana answered the creation of the requested name with, dated as answered, and that token is safe; after a refusal nothing more is sent and the error is not marked; after any other failure a cleanup is made, and the error is marked for reconciliation exactly when it failed or the token got another name; one not marked leaves the tokens as they were, even when the POST lands late |
| Delivery.SealBoth | internal/server/server.go:479-480 | whatever ciphertexts the cipher answers with, each of the two cookies shows the secret, its dates and its own flag to this email until its prepared expiry, and nothing to anyone else, however many cookies are sealed afterwards |
| Delivery.SealOne | internal/server/stash.go:100-116 | the same for one cookie, with nothing but its own nonce added to what was sealed |
| Delivery.DeliversLater | internal/server/stash.go:126-149 | what a cookie delivers it still delivers after more was sealed |
| Rotation.DeleteStops | internal/server/server.go:494-498 | whatever the delete of old token k answers, at worst the loop stops at k, and the replacement stays |
| Rotation.LeftAll | internal/server/server.go:488-499 | deleting all listed tokens leaves exactly the replacement |
| Rotation.StoppedStays | internal/server/server.go:488-499 | after a stop at old token k, a late delete of that token changes nothing else |
| Rotation.DeleteNext | internal/server/server.go:488-499 | one round deletes the next old token after a Check, or stops, because of a failed Check or delete, with everything after it still there; a token with the new name is there throughout |
| Rotation.DeleteOld | internal/server/server.go:488-499 | a full pass has deleted every listed token in order and leaves the replacement alone; only a failed Check or delete stops it, nothing is sent after that, and a stop at k leaves at least the replacement and old tokens k+1 on, and at most also k; a token with the new name is there at every step, whatever lands late |
| Rotation.DeletedOneMore | internal/server/server.go:488-499 | one more round carries on what the loop has shown, or ends it |
| Rotation.CreateMissing | internal/server/server.go:446-453 | a missing account is created only after a passed Check, and its tokens stay as they are |
| Rotation.LocateAccount | internal/server/server.go:442-459 | only an enabled Viewer account is used, it is created only after a Check, tokens stay as they are, and an error has its cause in the trace |
| Rotation.Survey | internal/server/server.go:442-468 | everything before the creation leaves the tokens as they are, lists them exactly, and stops only for a cause that the trace shows |
| Rotation.CreateReplacement | internal/server/server.go:469-477 | the creation follows a Check directly, and returns the secret that Grafana answered it with |
| Rotation.Replace | internal/server/server.go:442-477 | up to the new token nothing aims at an old one, the listing names exactly the tokens from before, and the secret is the one Grafana answered with |
| Rotation.Issue | internal/server/server.go:424-501 | on success the token is the secret that Grafana answered the creation of the new name with, both sealed cookies show it, its dates and their own flag to this email alone until their prepared expiry, and the one returned is that of the result; an error has its cause in the trace, or the two cookies of the created secret do not both fit; it is marked for reconciliation exactly when a token was created under another name or could not be cleaned up; of all tokens that nothing outstanding can delete at the start, none is missing at any step unless a token with the new name is there, and none at all when there is an error; every mutation is guarded or the run's own cleanup; full success has deleted every listed token; with nothing outstanding at the start, an error that is not marked leaves the tokens as they were, full success leaves exactly the new token, and a stop, which only a failed Check or delete causes and which ends the run, the partial set |
| Rotation.Deliver | internal/server/server.go:479-500 | a cookie over the limit takes the new token back and keeps the old ones, with an error that is marked exactly when the cleanup failed; otherwise the old ones go, and the cookie returned is that of a full or of a partial result |
| Rotation.PrepareAndIssue | internal/server/server.go:413-422 | without randomness for both cookies nothing is touched; otherwise the result is that of Issue, and both cookies last until the expiry that was fixed before anything was issued |
| Cleanups.CheckedDelete | internal/server/server.go:545-555 | a delete follows a passed Check directly and has at most the effect of that delete |
| Cleanups.ProgressStays | internal/server/server.go:545-555 | late effects touch only tokens whose delete was tried |
| Cleanups.RevokingNext | internal/server/server.go:545-555 | whatever a delete answers and whatever lands, tokens deleted since the listing stay gone, and only creations outstanding at the listing add any |
| Cleanups.RevokeOne | internal/server/server.go:545-555 | one round tries one more token; only a failed Check stops the loop, and a token that was not deleted is an error; deleted tokens never come back |
| Cleanups.RevokeAt | internal/server/server.go:545-555 | the round for token k sends its delete, counts it if it was answered with success, and takes the loop from before k to after it, or stops it at a failed Check |
| Cleanups.RevokeAll | internal/server/server.go:545-557 | deletes are sent for the listed tokens in order, also after one that failed, for all of them unless a Check fails, which is then the last thing that happens; attempted and deleted count those sent and those answered with success, and the result is an error exactly when fewer tokens were deleted than listed |
| Cleanups.ListViewer | internal/server/server.go:533-543 | only the tokens of a Viewer are listed, nothing is asked to change, and an error has its cause in the trace |
| Cleanups.Revoke | internal/server/server.go:503-557 | every token of the listing that was read has its delete sent, in order, unless a Check fails, which ends it; the reported counts are those of the deletes sent and of those answered with success; success leaves no token but what a creation outstanding at the start brings; a missing or non-Viewer account is not touched; an error has its cause in the trace; with nothing outstanding at the start the counts are those of the tokens tried and gone |
| Cleanups.RevokedAll | internal/server/server.go:503-557 | with nothing outstanding at the start, success leaves no token |
| Cleanups.WhatRemains | internal/server/reconcile.go:96-110 | with a token to keep only tokens of that name remain, when expired ones are deleted none that was revoked, is called expired or whose time has come, and nothing else goes |
| Cleanups.ChosenExactly | internal/server/reconcile.go:96-110 | the candidates are exactly the listed tokens that the options ask to delete, each once |
| Cleanups.MakePlan | internal/server/reconcile.go:93-110 | the loop computes these candidates, counts as expired exactly the listed tokens that have expired and as active all others, and finds the token to keep exactly if it is live |
| Cleanups.ReconcileNext | internal/server/reconcile.go:115-127 | one delete, however it is answered, keeps every unplanned token, and a success takes exactly its candidate |
| Cleanups.DeleteAt | internal/server/reconcile.go:118-125 | the round for candidate k deletes it after a Check, or is an error that ends the loop |
| Cleanups.DeleteAll | internal/server/reconcile.go:115-127 | candidates are deleted in order, all of them without an error; an error is a failed Check or delete, and nothing is sent after it; with nothing outstanding no unplanned token goes |
| Cleanups.PlanFor | internal/server/reconcile.go:78-113 | planning asks for no change and succeeds only for an enabled Viewer with a live token to keep; an error has its cause in the trace |
| Cleanups.ReconcileOne | internal/server/reconcile.go:77-129 | whatever was left outstanding, no unplanned token that was safe at the start is missing at any step, also of a run that fails; a dry run and a run without a live token to keep ask for no change; an apply deletes exactly the planned candidates in order, and fails only on a failed Check or delete, after which nothing is sent; every other error is a failed read, an account that is not an enabled Viewer, or a listing without the token to keep; with nothing outstanding a completed apply leaves exactly the unplanned tokens |
| Cleanups.LiveIsUnplanned | internal/server/reconcile.go:96-110 | a live token is never planned when it is the one to keep, or when none is named |
| Cleanups.Survivors | internal/server/reconcile.go:115-128 | when all candidates are gone exactly the unplanned tokens remain |
| Cleanups.PlanAgain | internal/server/reconcile.go:93-113 | planning again at the same instant finds nothing to delete and still finds the token to keep |
| Cleanups.OffboardOne | internal/server/reconcile.go:141-175 | only a Viewer account is deleted or has a delete outstanding, only when applying and directly after a Check; success of an apply means that there was no account or that it is gone; an error has its cause in the trace |
| Cleanups.CheckedOffboard | internal/server/reconcile.go:165-174 | the deletion follows a passed Check directly, and success means that the account is gone |
| Cleanups.LiveToken | internal/server/server.go:385-396 | the newest live token, the first listed among equals, and none exactly when none is live |
| Cleanups.ExpiredOrLive | internal/server/server.go:391 | a reconcile counts as expired exactly the tokens that are not live for the page, and those that expire at that very moment |
| Paging.ChainNext | internal/server/grafana.go:180-212 | every way to read the list begins with the pages read so far |
| Paging.ChainDistinct | internal/server/grafana.go:206-211 | a list that ends never repeats a continuation token |
| Paging.Circle | internal/server/grafana.go:206-208 | a repeated token means that the list has no end |
| Paging.LastPage | internal/server/grafana.go:203-205 | a page without continuation completes the only list there is |
| Paging.ReadAll | internal/server/grafana.go:253-293 | the loop returns every item of the one chain of pages in order, or an error exactly when there is no such chain, and ends when tokens come from a finite set |
| PagedLookup.SearchFinds | internal/server/grafana.go:194-202 | the search of a list finds an account exactly when it alone has the title, and nothing exactly when none has it |
| PagedLookup.SearchPage | internal/server/grafana.go:194-202 | the loop over one page continues the search of everything read before and stops at a second match |
| PagedLookup.FindIam | internal/server/grafana.go:173-213 | for every split of a list into pages the answer is nil, the account or an error for zero, one or several matches; an answer comes only from such a list |
| PagedLookup.NumericIdCanonical | internal/server/grafana_legacy.go:48-54 | exactly the decimal forms of positive int64 numbers are IDs, those that the lookup produces are accepted as they are, and the canonical form names the same number |
| PagedLookup.Consider | internal/server/grafana_legacy.go:82-94 | one account is skipped if it has another name, ends the search if it is the second or has no positive ID, and is otherwise taken with its number, role and state; on a faithful page this is what the search of the whole list does |
| PagedLookup.SearchLegacyPage | internal/server/grafana_legacy.go:82-94 | one faithful page continues the search of all accounts before it |
| PagedLookup.ReadLegacyPage | internal/server/grafana_legacy.go:69-98 | one request on faithful pages is the last one exactly when the whole list was read |
| PagedLookup.SearchDescribes | internal/server/grafana_legacy.go:36-46 | the search of the normalised list answers nothing exactly when no account has the name, an error exactly when several have it, and otherwise the one that has it, with its number, name, role and state |
| PagedLookup.ReadLegacy | internal/server/grafana_legacy.go:65-101 | on faithful pages of 100 with positive IDs the requests end with the search of the whole list up to 1,000,000 entries and with an error beyond |
| PagedLookup.FindLegacy | internal/server/grafana_legacy.go:65-101 | the same in the terms of Grafana's accounts: the one account of that name with its number, role and state; and whatever the server does, an answer comes only after at most 10,000 pages without failure |
| TokenListing.ListIam | internal/server/grafana.go:253-293 | the listing has every token of the one chain of pages, each judged at its own reading of the clock, and is an error exactly when there is no such chain |
| TokenListing.IamMeaning | internal/server/grafana.go:273-281 | a token listed by the IAM API is named by its title, live until its expiry if it has one unless it was revoked, and expired for a reconcile from that moment on |
| TokenListing.ListLegacy | internal/server/grafana_legacy.go:124-148 | the listing has every answered token, each judged at its own reading of the clock, and is an error exactly when the account name is no ID, the call failed or some token ID is not positive |
| TokenListing.LegacyMeaning | internal/server/grafana_legacy.go:135-146 | a token listed by the legacy API has its number as ID and its name as title, is live before its expiry unless Grafana calls it expired, and expired for a reconcile from that moment on |
| TokenListing.ListsTokens | internal/server/grafana.go:272-281 | a listing with distinct IDs names every token once |
| TokenListing.LegacyIdsDistinct | internal/server/grafana_legacy.go:137-160 | distinct legacy token IDs stay distinct, and a delete by a listed ID goes to that ID |
| SessionCodecs.FrameOpens | internal/server/session.go:82-106 | a sealed cookie opens under its own kind and under no other |
| SessionCodecs.OpensOnlySealed | internal/server/session.go:82-99 | whatever opens was sealed under the same kind |
| SessionCodecs.OpensOnlyFitting | internal/server/session.go:65-99 | whatever opens had at most 2822 payload bytes, the most that any cookie is given for |
| SessionCodecs.KindsApart | internal/server/session.go:82-106 | no value at all opens under two kinds |
| SessionCodecs.SessionOpens | internal/server/session.go:115-124 | a sealed session opens to itself until its expiry and never as a login state, however much is sealed afterwards |
| SessionCodecs.StateOpens | internal/server/session.go:139-148 | a sealed login state opens to itself until its expiry and never as a session, however much is sealed afterwards |
| SessionCodecs.SessionCodec.Seal | internal/server/session.go:65-80 | given randomness, sealing succeeds exactly when the marshalled payload has at most 2822 bytes |
| SessionCodecs.SessionCodec.SealSession | internal/server/session.go:108-124 | a sealed session opens to the same payload until its expiry and never as a login state, in every later state of the codec |
| SessionCodecs.SessionCodec.SealState | internal/server/session.go:126-148 | a sealed login state opens to the same payload for ten minutes from the second it was sealed in and never as a session, in every later state of the codec |
| FlashCodecs.SealedOpens | internal/server/stash.go:126-149 | a sealed flash payload opens for its own email alone until its expiry |
| FlashCodecs.FlashCodec.SealPrepared | internal/server/stash.go:100-149 | from then on a prepared cookie shows its token, flag, creation and expiry to its email until the prepared expiry, and nothing to anyone else |
| FlashCodecs.FlashCodec.Csrf | internal/server/stash.go:151-179 | a printed CSRF token is accepted for its email exactly until its expiry |
| FlashCodecs.CsrfSplits | internal/server/stash.go:156-163 | a printed token always splits into its expiry, its nonce and its code |
| FlashCodecs.CsrfAccepted | internal/server/stash.go:162-179 | acceptance depends on nothing but the expiry when the code is the one computed |
| FlashCodecs.CsrfOnlyPrinted | internal/server/stash.go:162-179 | an accepted value carries an expiry and nonce that were printed for that very email, for emails without NUL |
| FlashCodecs.CsrfForNoOther | internal/server/stash.go:151-179 | with distinct nonces a printed token is accepted for no other email |
| FlashCodecs.FlashIsNoSession | internal/server/stash.go:76 | flash and native cookies have different associated data under any base paths |
| Logins.SignIn.HandleLogin | internal/server/native.go:63-98 | a login sets a cookie exactly when it redirects, and the cookie opens to its state, nonce and code verifier; only then does the login count |
| Logins.SignIn.OpenedState | internal/server/session.go:139-148 | a state that opens was sealed by a login less than ten minutes before whose cookie was set |
| Logins.EmailDivides | internal/server/server.go:178-187 | counting and cutting accept exactly the addresses with one at sign that has something on both sides, no blanks or NUL, and at most 254 bytes of UTF-8 |
| Logins.HasGroup | internal/server/server.go:169-171 | a group is missing exactly when some are required and the identity has none of them |
| Logins.SignIn.Expires | internal/server/native.go:153-156 | a session expires with the earlier of its own lifetime and the ID token |
| Logins.SignIn.CheckCallback | internal/server/native.go:100-152 | a callback goes through exactly with an unexpired state that is the requested one, a code, an ID token with that state's nonce, a valid email and a required group; it is forbidden exactly when only the group is missing; the state is then that of a login |
| Logins.SignIn.SetSession | internal/server/native.go:153-164 | the session of an accepted callback is sealed to the earlier expiry and rests on the login of its state |
| Logins.SignIn.HandleCallback | internal/server/native.go:100-164 | a session cookie is set exactly when the callback is accepted and the session fits the cookie limit; it opens to the ID token until its expiry, ever after, and every session stays justified |
| Logins.SignIn.ServeOne | internal/server/native.go:63-164 | one login or callback, with any cookie and any verified ID token, keeps every session justified and sets one exactly when a callback redirects |
| Logins.SignIn.Serve | internal/server/native.go:63-186 | any sequence of logins and callbacks leaves each session resting on a login less than ten minutes before with the same state, nonce and code verifier, expiring no later than now plus TTL and the ID token |
| Logins.SignInRun | internal/server/native.go:63-186 | the same for every run of a server from its start, with one session per callback that redirected; every login is that of a request answered with a cookie, and when random states differ, the one a session rests on is the only one with that state |
| Painting.UnescapeEscape | internal/server/highlight_test.go:70-73 | unescaping gives back escaped text without NUL |
| Painting.EscapedStrips | internal/server/highlight_test.go:54-68 | escaped text has no tags to strip |
| Painting.PaintedVisible | internal/server/highlight.go:21-43 | stripping tags and unescaping what was painted leaves exactly what the pieces show |
| Spans.SpansAreSecrets | internal/server/highlight.go:33-43 | the painted HTML has exactly one token span per masked string, whatever the text and the mask contain |
| Painting.Painter.PaintSpan | internal/server/highlight.go:21-25 | a span adds one coloured piece |
| Painting.Painter.PaintPlain | internal/server/highlight.go:27-29 | plain text adds one plain piece |
| Painting.Painter.PaintString | internal/server/highlight.go:33-43 | a quoted string adds itself, or the quoted mask when it holds the sentinel |
| Highlight.FirstJson | internal/server/highlight.go:49-87 | the next piece is a non-empty beginning of the source; a secret holds the sentinel, and a string shown as a value does not |
| Highlight.FindClose | internal/server/highlight.go:52-61 | the loop ends at the first quote that no backslash escapes, or at the end of the text, also after a trailing backslash |
| Highlight.ClassAfter | internal/server/highlight.go:64-74 | a string is a key exactly when the next thing that is not a space is a colon |
| Highlight.ColonLeads | internal/server/highlight.go:64-74 | a string is a key exactly when the first character after it that is not a space is a colon |
| Highlight.FindNumberEnd | internal/server/highlight.go:78-82 | the loop ends after the digits and dots |
| Highlight.NumberRun | internal/server/highlight.go:78-82 | a number is the longest run of digits and dots |
| Highlight.HighlightJson | internal/server/highlight.go:45-93 | the scanner ends on every source and paints exactly its pieces |
| Highlight.NextQuoted | internal/server/highlight.go:123-137 | the next quoted part starts at the first quote and ends with the very next one |
| Highlight.QuotedEnds | internal/server/highlight.go:123-137 | a quoted part goes from the first quote to the next one, and there is none exactly with fewer than two quotes |
| Highlight.PlainOrStrings | internal/server/highlight.go:123-141 | the loop paints the quoted parts of a value and the rest between them |
| Highlight.PaintLine | internal/server/highlight.go:102-117 | one line is painted as a header, a key with its value, or as it is |
| Highlight.HeaderLeads | internal/server/highlight.go:100-104 | a line is a header exactly when a bracket is its first character that is not a space |
| Highlight.HighlightToml | internal/server/highlight.go:95-119 | the scanner paints the pieces of every line with the line breaks between them |
| Highlight.JsonPiecesCover | internal/server/highlight.go:45-93 | the pieces of a JSON text are the text, in order and without gap |
| Highlight.TomlPiecesCover | internal/server/highlight.go:95-141 | the pieces of a TOML text are the text, in order and without gap |
| Highlight.JsonPreservesText | internal/server/highlight_test.go:13-37 | a reader of painted JSON sees the source, except that pieces with the sentinel are the quoted mask |
| Highlight.TomlPreservesText | internal/server/highlight_test.go:13-37 | the same for TOML |
| Colours.TokensColoured | internal/server/highlight.go:47-87 | in any text of layout and strings, exactly the strings before a colon are coloured as keys, exactly the others as strings, and nothing else is coloured |
| Colours.DocumentColoured | internal/server/highlight_test.go:39-58 | in every painted document whose strings are the placeholder or lack it, the keys are its names in order, and the strings its texts in order |
| Colours.TomlColoured | internal/server/highlight.go:98-117 | in every TOML text the table colour is on exactly the header lines, and the key colour on exactly what stands before the first equals sign of the others |
| Colours.Tags | internal/server/highlight.go:21-25 | the classes of the spans are those of the style sheet and the copy handler |
| JsonText.ScannerAgrees | internal/server/highlight.go:52-61 | wherever a JSON string ends by section 7 of RFC 8259, the scanner stops |
| JsonText.ReadsBack | internal/server/formats.go:243-249 | a JSON reader gets every string back from what is written and stops right after it |
| JsonText.StopsAtQuote | internal/server/highlight.go:52-61 | the scanner stops exactly at the closing quote of every encoded string, whatever follows |
| JsonText.ContainsBody | internal/server/formats.go:10-14 | encoding does not make the placeholder appear in a string that lacks it |
| JsonText.WrittenAsIs | internal/server/formats.go:243-249 | exactly control characters, quotes, backslashes, angle brackets, ampersands and the two line separators are escaped |
| JsonText.EncodedSafe | internal/server/formats.go:243-249 | no encoded string holds an angle bracket, an ampersand or a line separator |
| Formats.LaunchCommand | internal/server/formats.go:133-152 | the command line for every mode, with and without direnv |
| Formats.LaunchPlain | internal/server/formats.go:133-152 | nothing on any command line can be taken for the placeholder |
| Formats.LaunchRuns | internal/server/formats.go:133-152 | every mode runs the same pinned server without write access, as a program, by uvx or in a container given both variables; direnv runs that very command line |
| JsonReading.ReadsValue | internal/server/formats.go:235-241 | a JSON reader (sections 2, 4, 5 and 7 of RFC 8259) gets every printed value back, and stops right after it |
| JsonReading.ReadsEntry | internal/server/formats.go:235-241 | it gets the entries of every printed list and object back, with their names and in order |
| JsonReading.PrintReadsBack | internal/server/formats.go:235-241 | what is printed for any document reads back as that very document |
| Clients.McpServersFound | internal/server/formats.go:154-168 | a reader of the printed configuration finds the server under mcpServers, or servers, alone, with its command line, the URL, and the placeholder unless direnv provides the token; the type is there if asked for |
| Clients.ZedFound | internal/server/formats.go:170-180 | the same for Zed, under a custom source |
| Formats.PrintsJson | internal/server/formats.go:235-241 | an indented document is layout characters and strings, with as many placeholders as the document has |
| Formats.TokensShown | internal/server/highlight.go:45-93 | painting any sequence of layout and strings shows it with every placeholder string masked and nothing else changed |
| Formats.PaintedDocument | internal/server/highlight_test.go:13-37 | for every JSON document whose strings are the placeholder or lack it, a reader sees the printed text with the placeholder replaced by the mask, and the HTML has as many token spans as there are placeholders |
| Formats.McpServersPainted | internal/server/formats.go:154-168 | for every key, mode and URL without the placeholder this holds of the mcpServers and servers configurations, with one token span, or none in the env variant |
| Formats.ZedPainted | internal/server/formats.go:170-180 | the same for Zed |
| Codex.TomlStringArray | internal/server/formats.go:251-257 | the loop writes the encoded strings in order, separated by commas |
| TomlReading.ReadsArray | internal/server/formats.go:251-257 | a reader of the array gets the strings back, in order |
| TomlReading.CodexFound | internal/server/formats.go:182-194 | a TOML reader of the printed configuration finds exactly the command, its arguments, the URL and, unless direnv provides it, the placeholder, each in its table |
| Codex.CodexPainted | internal/server/formats.go:182-194 | for every mode and URL without the placeholder, a reader of the painted TOML sees the generated text with the placeholder replaced by the mask, with one token span, or none in the env variant |

## Left out

- LeaseProtocol: deletion of the Lease, hand-written Leases, and HTTP details; a request is an event between two steps.
- LeaseProtocol: a PUT that changes nothing still raises the version; whole resource versions are numbers.
- Operations.SerialOperations: that the calls a run starts under a guard are those in the trace of that guard's operation is its hypothesis, since the two models run side by side; Realized shows that every trace has such a run.
- Remotes: one service account per identity; the lookup by title stands for PagedLookup and the listing for TokenListing.
- Rotation.Issue: calls already under way when the Lease is lost are not fenced, as docs/deployment.md says; only their start is guarded.
- Rotation.Issue: audit records, metrics and the account and token names in the result.
- Cleanups.ReconcileOne: target normalisation, the loop over several emails and the two checks of the options before it (internal/server/reconcile.go:28-75).
- Cleanups.LiveToken: at its very expiry a token counts as live here and as expired in reconcileOne, as in the code.
- SessionCodecs: the JSON text of payloads is a function with an inverse; key sizes and cipher construction.
- Base64.Decode: accepts line breaks and spare bits as Go does, so only that decoding undoes encoding is claimed.
- Logins: the provider's redirects, token exchange, JWKS and signature checks, and the hash of the code challenge; logout.
- Formats: names, notes, icons and files of the clients, and the page that shows the snippets.
- JsonReading: numbers, booleans and null, which no configuration has; and how deep lines are indented, which is whitespace to a reader.
- TomlReading: inline tables, dotted keys, comments and other values, which the configuration has not.
- JsonText.ReadString: refuses escapes of surrogate halves, which the printer never writes.
- Configuration parsing, origin normalisation, security headers, readiness caching, metrics, assets and the command line: one-branch checks or foreign libraries.
