# Agent Locksmith: a Dafny model of its protocols and algorithms

Agent Locksmith is a credential proxy: agents call it with their own bearer token and it injects the real upstream
credential. This project models the parts of it that are hard to get right and proves what they keep:

- the OAuth session refresh protocol, where proxy requests, background ticks, operator bootstraps and lock-free revokes
  share one table (`OauthTable.dfy`, `OauthProtocol.dfy`);
- registration with single-use bootstrap tokens and compare-and-set secret rotation (`AgentTables.dfy`,
  `Enrollment.dfy`, `Rotation.dfy`);
- the shutdown latch (`Shutdown.dfy`) and the size-capped response stream (`SizeCap.dfy`);
- the hand-written algorithms: civil-from-days (`CivilDate.dfy`), the glob matcher (`Glob.dfy`), the `${VAR}` expander
  (`EnvExpand.dfy`) and the token codec over base64url (`TokenCodec.dfy`);
- the registrations table, its seed loader and the in-memory catalog (`Registrations.dfy`, `RegistrationRuntime.dfy`);
- the rotating JSONL audit sink (`AuditSink.dfy`) and header rewriting on the proxy path (`Headers.dfy`).

A protocol is a state machine: `Event` lists its atomic steps (one SQL statement, one atomic load or store, one half of
a network exchange), `Enabled` and `Apply` say what a step needs and does, and `Admits`/`Exec` extend them to every
finite interleaving of any number of actors. Its theorems quantify over all such interleavings. Code that updates an
object in place is a class whose methods are tied to functions of the old state.

`dafny verify dfyconfig.toml` checks the whole project.

## Assumptions

- Handlers run to completion, database statements are atomic and succeed, and there are no crashes or cancellations.
- Sealing is an inverse pair, so tokens are held in the clear; hashing is collision-free and verifies exactly the hashed
  secret; generated public ids and secrets are fresh; the account-id claim of a token is an arbitrary function of it.
- Clocks, token-endpoint answers, directory listings and the outcomes of file operations are inputs, and every value of
  them is covered. Reading a file's metadata and removing a file succeed.
- A `Notified` future sees every `notify_waiters` call made after it was created, as tokio documents.
- Text is ASCII where the code lower-cases it.

## What does not hold, and exactly when it does

- A registration in progress when an operator revokes its bootstrap token can still succeed, because the guarded update
  does not look at `revoked_at` again: if and only if it had already made the check in `consume` and a single-use token
  is still unused (`Enrollment.RevokedTokenStillRegisters`). Such a state comes about
  (`Enrollment.RevokedPastTheCheckIsReachable`).
- A registration that fails, say for a wrong secret, keeps the name it asked for if and only if it got past its insert:
  `UNIQUE(name)` covers revoked rows (`Enrollment.NameHeldIffInserted`, `Enrollment.HeldNameStaysTaken`).
- The upstream request depends on a stripped header if and only if the target is a codex upstream whose own credential
  header is `originator` (`Headers.RequestIndependentOfStripped`, `Headers.DependsOnOriginator`).
- The `${VAR}` expander does not return for a value that refers to its own variable where that reference stays the
  leftmost: where no `${` comes together before it, in the input or in the value (`EnvExpand.SelfReferenceLoops`). An
  earlier `${` can swallow the reference, and then it returns (`EnvExpand.SwallowedReferenceSettles`). Banning a set of
  characters from all values makes it return on every input if and only if the set holds one of `$`, `{` and `}`
  (`EnvExpand.EndsIffStructuralBanned`).
- `src/proxy.rs:571-573` says that a disabled registration surfaces as not found. It does unless the configuration file
  has an active tool of that name, which then answers: one without auth or with an auth value that looks present
  (`RegistrationRuntime.DisabledStillResolves`, and `RegistrationRuntime.DisabledIsReachable` for a run).
- A refresh token can be presented twice for one session if and only if some answer to a session that was not revoked
  meanwhile does not rotate it: it carries no refresh token, or one already presented
  (`OauthProtocol.SentOnceIffAnswerRotates`, and `OauthProtocol.ResendIsReachable` for a run).
- `docs/user/concepts/oauth-flow.md:393-404` says that agents cannot pass their own `ChatGPT-Account-ID`. The proxy alone
  speaks for a header name if and only if it strips it (`Headers.OnlyInjectedIffStripped`), and it strips that one only
  where it is the target's own credential header (`Headers.AccountIdIsForwarded`, `Headers.BothAccountIdsGoOut`).
- The date is wrong exactly when its year does not fit an i32 (`CivilDate.YmdIsUtcDate`), as for one instant within an
  i64 (`CivilDate.FarFutureDateIsWrong`).
- The audit sink takes a non-empty file past the cap exactly when the line does not fit the open file, the primary name
  and all 10 000 overflow names of the day are taken, and the primary file has no room either
  (`AuditSink.CapExceededIffNamesExhausted`, `AuditSink.CapCanBeExceeded`). With pruning on, `keep_files` at most 10 000
  and no more audit files than that at the start, this never happens (`AuditSink.PruningSinkStaysCapped`).
- Pruning is sure to keep the file just created if and only if `keep_files` is zero or fewer than `keep_files` audit
  files are dated at or after the clock, and can keep it if and only if `keep_files` is zero or fewer are dated after it
  (`AuditSink.FreshFileKeepsNameIff`).
- `src/audit_sink.rs:91-93` says that the next append recovers from an error: it does only if it rotates
  (`AuditSink.ClosedSinkReopensIff`).

## Model

| member | source | states |
|---|---|---|
| OauthTable.OauthSessionRepository.constructor | src/oauth/session.rs:141-143 | an empty table, coherent and valid |
| OauthTable.OauthSessionRepository.Create | src/oauth/session.rs:161-213 | inserts exactly when the key is free, otherwise changes nothing; the new row is healthy, holds what was passed and the account id of its token, and is of a generation no row had; token and expiry stay coherent when they come together |
| OauthTable.OauthSessionRepository.Update | src/oauth/session.rs:218-278 | the keyed row takes the token, its expiry and its account id, the new refresh token if one came, and is no longer degraded; age and generation stay, and so does every other row |
| OauthTable.OauthSessionRepository.Degrade | src/oauth/session.rs:283-298 | marks exactly the keyed row, keeps coherence |
| OauthTable.OauthSessionRepository.Get | src/oauth/session.rs:303-363 | finds the stored row, or nothing exactly when there is none |
| OauthTable.OauthSessionRepository.Remove | src/oauth/session.rs:368-375 | deletes exactly the keyed row and reports whether there was one |
| OauthProtocol.Exclusion | src/oauth/refresh.rs:110-116 | two actors inside the critical section of one `(name, label)` are the same actor |
| OauthProtocol.LocksDistinguishSessions | src/oauth/refresh.rs:110-116 | two labels under one name, and any two sessions whose names do not contain the separator, have locks of their own |
| OauthProtocol.StepKeepsInv | src/oauth/refresh.rs:308-359 | every step keeps: locks have critical holders, rows are coherent, and a lock holder's row is the one it read, that row refreshed by its own grant, or gone |
| OauthProtocol.RunKeepsInv | src/oauth/refresh.rs:280-366 | the invariant over every interleaving |
| OauthProtocol.StepFrame | src/proxy.rs:1502-1613 | a step moves its own actor only and changes no row but its own key's, and that one only under the lock |
| OauthProtocol.DegradedSticks | src/oauth/session.rs:218-298 | after any interleaving, a row under a key that was degraded is still degraded or belongs to a later bootstrap, although an update clears the flag |
| OauthProtocol.RefreshTouchesOwnSession | src/oauth/refresh.rs:205-228 | once an actor read or inserted a row, none of its later steps changes or deletes a row of another generation, even if a revoke and a new bootstrap came in between |
| OauthProtocol.FailedBootstrapLeavesNoRow | src/oauth/admin.rs:110-175 | a bootstrap whose exchange failed leaves its key without a row |
| OauthProtocol.ServedTokensAreGood | src/proxy.rs:1565-1613 | in every reachable state rows have a token iff an expiry and the account id of that very token, and a token handed to a proxy request carries its own account id and, if not just refreshed, more than 60 seconds of life |
| OauthProtocol.RefreshesIffDue | src/oauth/refresh.rs:317-334 | a request or tick refreshes exactly a healthy row that is due: without a token or within 60 seconds of expiry for a request, without an expiry or with one at or below the threshold for a tick; otherwise a tick skips, and a request reports a missing or degraded session or serves what is stored |
| OauthProtocol.RefreshedIffWasDue | src/proxy.rs:1522-1601 | in every run, a request or tick has set out to refresh if and only if its first read under the lock found the row due, and has left without if and only if that read found it not due |
| OauthProtocol.PresentsOnlyWhenDue | src/oauth/refresh.rs:313-358 | in every run, whoever is about to present a refresh token is a bootstrap or had found its row due |
| OauthProtocol.BootstrapStoresItsToken | src/oauth/admin.rs:110-145 | a bootstrap is refused exactly when the key is taken; otherwise its token is stored in a healthy row of a new generation |
| OauthProtocol.RefreshServesItsGrant | src/oauth/refresh.rs:205-228 | a refreshing request returns the token of its own grant, or fails exactly when its row was revoked meanwhile |
| OauthProtocol.UndisturbedGrant | src/oauth/refresh.rs:136-229 | with nobody in between, a grant is presented for, stored in full and reported, the lock is free again, and no other row changed |
| OauthProtocol.UndisturbedFailure | src/oauth/admin.rs:110-175 | with nobody in between, a failed exchange degrades the row, or deletes it for a bootstrap |
| OauthProtocol.UndisturbedAbort | src/oauth/refresh.rs:143-161 | a registration that is gone fails the refresh in the same way without presenting the token |
| OauthProtocol.RevokeDeletesRow | src/oauth/admin.rs:286-301 | a revoke is always possible and deletes exactly its row |
| OauthProtocol.RefreshTokensSentOnce | src/oauth/refresh.rs:136-229 | with a rotating provider no refresh token value is presented twice for one session, under any number of concurrent requests and ticks |
| OauthProtocol.UnrotatedTokenIsResent | src/oauth/session.rs:218-278 | an answer without a refresh token, or with one already presented, lets the session's token be presented again, whatever lifetime it grants and whenever it is read |
| OauthProtocol.SentOnceIffAnswerRotates | src/oauth/refresh.rs:136-229 | in any state reached while the provider rotated, no later rotating run presents a token of the session twice if and only if the coming answer rotates too or the session was revoked meanwhile |
| OauthProtocol.ResendIsReachable | src/oauth/session.rs:218-278 | a run from a daemon start presents one value twice |
| OauthProtocol.RetiredPresentsNothing | src/oauth/admin.rs:286-301 | a session without a row and without a pending refresh presents no token any more, whatever runs next |
| OauthProtocol.StepsAreBounded | src/proxy.rs:1502-1613 | whatever the endpoint answers and whoever interferes, an actor takes at most eight steps |
| OauthProtocol.NoDeadlock | src/oauth/refresh.rs:313-358 | an unfinished actor can step, or waits for a lock whose holder can |
| AgentTables.AgentRepository.Create | src/repo/agent.rs:68-122 | inserts an active agent under the next id exactly when the name is free; ids and names stay unique |
| AgentTables.AgentRepository.Revoke | src/repo/agent.rs:210-221 | the agent is inactive afterwards; reports whether it exists |
| AgentTables.AgentRepository.UpdatePolicy | src/repo/agent.rs:282-341 | sets exactly the policy columns given (allowlist, denylist, metadata, expiry) and leaves every agent's identity, secret and revocation alone; fails exactly when columns are given for an unknown agent |
| AgentTables.AgentRepository.Rotate | src/repo/agent.rs:225-265 | undisturbed, succeeds exactly for the current secret of an active agent, after which exactly the new secret verifies |
| AgentTables.BootstrapTokenRepository.Mint | src/repo/bootstrap.rs:53-79 | the token can be presented exactly until it expires, for the minted scope and secret; no other token is affected |
| AgentTables.BootstrapTokenRepository.PreviewScope | src/repo/bootstrap.rs:121-146 | the minted scope, exactly for an unused, unrevoked, unexpired token |
| AgentTables.BootstrapTokenRepository.Consume | src/repo/bootstrap.rs:177-236 | undisturbed, succeeds exactly for a presentable token with the right secret; a consumed single-use token is never presentable again |
| AgentTables.BootstrapTokenRepository.Revoke | src/repo/bootstrap.rs:158-169 | the token can be presented at no time any more, its use stays on record, and no other token is affected |
| Enrollment.StepExtends | src/repo/bootstrap.rs:177-236 | no step takes back a used or revoked mark, a token's hash or scope, or an agent's identity or revocation; an agent's allowlist changes only when an operator amends it |
| Enrollment.StepKeepsInv | src/admin/service.rs:314-361 | every step keeps: an inserted agent is being worked on, was returned, or is revoked; a consumed token names a registration that succeeded; a call past the check presented the token's secret |
| Enrollment.RunKeepsInv | src/admin/service.rs:314-361 | the invariant over every interleaving, with nothing taken back |
| Enrollment.AtMostOneRegistered | src/admin/service.rs:314-361 | two registrations that succeeded with one single-use token are the same registration |
| Enrollment.RegisteredHadTheSecret | src/repo/bootstrap.rs:203-210 | in every run, a registration that succeeded had presented the secret its token was minted with |
| Enrollment.WrongSecretNeverRegisters | src/repo/bootstrap.rs:203-210 | a call with another secret succeeds in no continuation |
| Enrollment.AtMostOneActive | src/admin/service.rs:314-361 | once their registrations are over, two active agents created through one single-use token are the same agent, that registration succeeded and returned the allowlist the token was minted with, and the agent carries it unless an operator amended it since |
| Enrollment.OnlySuccessConsumes | src/repo/bootstrap.rs:177-236 | the only step of a registration that writes the token table makes it succeed, and it writes its own token's row only |
| Enrollment.FailedCallWritesNoToken | src/admin/service.rs:314-361 | in every interleaving, no step of a registration that does not succeed, by name conflict or otherwise, writes the token table, also when another registration with the token succeeds |
| Enrollment.TokenUsedIffRegistered | src/repo/bootstrap.rs:177-236 | a token names a consumer if and only if a registration with it succeeded, and a single-use one is marked used exactly then |
| Enrollment.FailuresLeaveTokenUnused | src/admin/service.rs:314-361 | a token whose registrations all failed, by name conflict or otherwise, is unused and names no agent |
| Enrollment.UndisturbedRegistration | src/admin/service.rs:314-361 | how every request ends alone: refused for an unpresentable token or a taken name with nothing changed, for a wrong secret with the new agent revoked and the token as it was, else with an active agent, the minted allowlist and the token consumed by it |
| Enrollment.OperatorStepsTakeEffect | src/admin/service.rs:493-735 | what mint, revoke, create, rotate and policy steps do to their own row, and that they leave the others alone |
| Enrollment.NameHeldIffInserted | src/repo/agent.rs:97-121 | in every run, a registration's row holds the name it asked for, however the registration ended, if and only if it got past its insert |
| Enrollment.HeldNameStaysTaken | src/repo/agent.rs:97-121 | a name once held is never free again: in every continuation each registration that asks for it ends in a name conflict |
| Enrollment.RevokedTokenStillRegisters | src/repo/bootstrap.rs:177-236 | a registration whose token was revoked can still succeed if and only if it had passed the check of `consume` and the guarded update still applies |
| Enrollment.RevokedPastTheCheckIsReachable | src/repo/bootstrap.rs:158-236 | for every token that does not expire, a run from an empty database ends in such a state |
| Rotation.StepKeepsInv | src/repo/agent.rs:225-265 | every step keeps the chain: the stored hash is the last issued, secrets are distinct, each link was made by one rotation that presented the secret before it |
| Rotation.RunKeepsInv | src/repo/agent.rs:225-265 | the chain over every interleaving of rotations, creations, policy changes and revocations; chains only grow |
| Rotation.RotationsFormChain | src/admin/service.rs:375-406 | every successful rotation is one link of its agent's chain, and no two successful rotations spent the same secret |
| Rotation.OnlyLatestSecretAuthenticates | src/auth_v2/agent.rs:132-193 | at every point a secret authenticates if and only if it is the last one issued to an unrevoked, unexpired agent; it then authenticates as that agent with its row's lists, and otherwise the error says which |
| Rotation.ReadAcceptsIff | src/repo/agent.rs:225-265 | a rotation passes its read exactly with the current secret of an active agent |
| Rotation.UndisturbedRotation | src/admin/service.rs:375-406 | with nobody in between, the new secret authenticates as the same agent, the old one no more, and no other agent changes |
| Rotation.CreateAndRevokeTakeEffect | src/repo/agent.rs:68-122 | a created agent authenticates with its secret and lists until it expires; a revoked one with none |
| Rotation.PolicyTakesEffect | src/repo/agent.rs:282-341 | the next authentication carries the lists given, and a policy change shuts out or lets in no one but by the expiry given |
| Rotation.RevocationIsFinal | src/repo/agent.rs:210-221 | nothing authenticates a revoked agent again and no rotation adds to its chain |
| Rotation.ConflictMeansProgress | src/repo/agent.rs:225-265 | a rotation that read the current hash ends in a conflict if and only if the agent was revoked or another rotation succeeded since |
| Shutdown.RunKeepsInv | src/shutdown.rs:72-96 | over every interleaving, an awaiting waiter was notified, or the flag is unset, or a notification is still owed |
| Shutdown.NoLostWakeup | src/shutdown.rs:72-96 | once every started trigger has notified, a waiter that reached its await can wake |
| Shutdown.NoEarlyReturn | src/shutdown.rs:112-151 | no waiter returns, and no drain starts, ends or times out, before the flag was set |
| Shutdown.DrainReportsWhatHappened | src/shutdown.rs:112-126 | in every run a drain reports completion exactly when its task finished, and a timeout exactly when the window elapsed |
| Shutdown.WaiterReturns | src/shutdown.rs:72-89 | from any stage a waiter needs at most two steps of its own to return, once every started trigger has notified |
| Shutdown.WaitAndDrain | src/shutdown.rs:144-151 | a caller before the trigger awaits, wakes on the notification, and drains to either outcome |
| SizeCap.SizeCappedStream.constructor | src/response_controls.rs:235-244 | the initial state |
| SizeCap.SizeCappedStream.Truncate | src/response_controls.rs:246-257 | reports the bytes seen on the first truncation and nothing on a further one; the next poll gives the marker and the one after it the end |
| SizeCap.SizeCappedStream.Poll | src/response_controls.rs:263-299 | one poll, with no slice out of range under saturating counts; the callback fires at most once, with the cap, at truncation |
| SizeCap.DrainIsCut | src/response_controls.rs:263-299 | polling to the end yields the chunks cut at the remaining budget, and calls back exactly when the rest of the body exceeds it |
| SizeCap.CutBytes | src/response_controls.rs:263-299 | the cut's bytes are the body when it fits and otherwise its first bytes followed by the marker |
| SizeCap.UncappedPassesThrough | src/response_controls.rs:263-299 | without a cap, or with the largest one, the stream is unchanged |
| SizeCap.CappedResponse | src/response_controls.rs:83-91 | for every cap and chunking, the stream truncates, marks and calls back once exactly when the buffered check would say the same body is too large |
| SizeCap.ChunkingIrrelevant | src/response_controls.rs:263-299 | two chunkings of one body give the same bytes and the same callbacks |
| CivilDate.YearOfEraInverts | src/audit_sink.rs:269-287 | the closed formulas recover the March-based year and the day in it, for every day of the 400-year era |
| CivilDate.CivilSteps | src/audit_sink.rs:269-287 | every computed date is valid and the next day's is its calendar successor |
| CivilDate.CivilIsCalendarWalk | src/audit_sink.rs:269-287 | the computed date is the one reached by walking the calendar day by day from 1970-01-01, in both directions |
| CivilDate.LaterDaysHaveLaterDates | src/audit_sink.rs:269-287 | the calendar walk is strictly increasing |
| CivilDate.YmdIsUtcDate | src/audit_sink.rs:269-287 | the result is the UTC date if and only if its year fits an i32 |
| CivilDate.FarFutureDateIsWrong | src/audit_sink.rs:269-287 | an instant within an i64 whose computed date is wrong |
| CivilDate.SameDateIffSameDay | src/audit_sink.rs:269-287 | among such instants two get the same date exactly when they share a UTC day |
| CivilDate.SameTextIffSameDay | src/audit_sink.rs:255-264 | the same for the zero-padded text the sink compares and names files by |
| CivilDate.DateTextShape | src/audit_sink.rs:255-264 | for a four-digit year the text is year, month and day at fixed places |
| Glob.LanguageIsSegmented | src/kamiwaza.rs:321-354 | a name is in the glob language of a pattern exactly when the pattern's segments occur in it in order, anchored at both ends |
| Glob.LeftmostIsBest | src/kamiwaza.rs:321-354 | taking a segment's leftmost occurrence never loses a match |
| Glob.LastSegment | src/kamiwaza.rs:321-354 | the last segment matches exactly when the rest ends with it |
| Glob.ExtensionNameMatches | src/kamiwaza.rs:321-354 | the greedy loop returns true if and only if the lower-cased name is in the declarative glob language of the lower-cased pattern |
| EnvExpand.ExpandEnvVars | src/config.rs:628-645 | for every input and every number of rounds: what the loop holds by then; it has ended exactly when no `${` has a later `}`, and then with what the rewriting settles on |
| EnvExpand.IrreducibleMeansNoReference | src/config.rs:628-645 | the loop stops exactly on such strings |
| EnvExpand.StepConsumes | src/config.rs:628-645 | a step strictly lowers the count of a structural character no value contains |
| EnvExpand.Terminates | src/config.rs:628-645 | the loop ends on every input when one of `$`, `{`, `}` is absent from all values |
| EnvExpand.SelfReferenceLoops | src/secret/env.rs:64-81 | the loop never ends on a reference to a variable whose value refers to itself, when no `${` comes together before the reference in the input or in the repeated value |
| EnvExpand.SwallowedReferenceSettles | src/secret/env.rs:64-81 | a value that refers to its own variable after an earlier `${` can still settle |
| EnvExpand.EndsIffStructuralBanned | src/config.rs:628-645 | over all environments a process can have, keeping a set of characters out of all values makes the loop end on every input if and only if the set holds one of `$`, `{`, `}` |
| EnvExpand.ReferenceStep | src/config.rs:628-645 | a step replaces the leftmost reference by its value |
| EnvExpand.ExpansionIsOnePass | src/secret/env.rs:64-81 | with plain values and no `$${` in the input, rewriting settles on a single left-to-right pass |
| EnvExpand.ResultUnique | src/config.rs:628-645 | a string settles on at most one result |
| TokenCodec.EncodeShape | src/token.rs:104-111 | the length of an encoding, which never contains the separator |
| TokenCodec.QuadIsBigEndian | src/token.rs:104-111 | four groups are the base-64 digits of three bytes, most significant first (section 4 of RFC 4648) |
| TokenCodec.SymbolIsUrlSafe | src/token.rs:104-111 | the alphabet of section 5 of RFC 4648 |
| TokenCodec.DecodeEncode | src/token.rs:151-171 | strict base64url decodes what it encodes, for all bytes |
| TokenCodec.EncodeDecode | src/token.rs:151-171 | whatever strict decoding accepts is the encoding of what it returns (section 3.5 of RFC 4648) |
| TokenCodec.PrefixRoundTrip | src/token.rs:33-48 | the three prefixes; a namespace is recovered from its prefix and from nothing else |
| TokenCodec.RoundTrip | src/token.rs:151-171 | every namespace, 16-byte id and 32-byte secret parses back from its wire form, also when the id contains an underscore |
| TokenCodec.AcceptedIsWireForm | src/token.rs:151-171 | every accepted string is the wire form of such a triple |
| TokenCodec.ParseErrors | src/token.rs:151-171 | which error each rejected string gets, in the order of the checks |
| TokenCodec.WireFormInjective | src/token.rs:104-111 | of exactly one |
| Registrations.EntriesRespectRows | src/registrations/seed_loader.rs:125-217 | loading, even when it stops midway, changes no operator row, no kind, no creation time and no disabled flag |
| Registrations.CatalogRespectsRows | src/registrations/seed_loader.rs:125-217 | the same for a whole catalog, accepted or not |
| Registrations.LoadInstallsEntries | src/registrations/seed_loader.rs:230-265 | after a complete load every named entry has a row: the operator's untouched, or a seed row carrying the last entry of that name, enabled and as of now if it is new |
| Registrations.EntriesFrame | src/registrations/seed_loader.rs:125-217 | a row no entry names is unchanged |
| Registrations.UpsertKeepsKindAndAge | src/registrations/repo.rs:170-212 | an existing row keeps kind and creation time whatever is passed and takes the rest; a new row is what is passed; no other row changes |
| Registrations.VersionOrder | src/registrations/seed_loader.rs:269-278 | a higher patch, minor or major number is newer whatever follows it; the order is irreflexive, transitive and total |
| Registrations.ParseVersionOfNumerals | src/registrations/seed_loader.rs:269-278 | three decimal numerals joined by dots read as those three numbers |
| Registrations.ShortVersions | src/registrations/seed_loader.rs:269-278 | missing parts and parts that are no number count as zero, further parts are ignored |
| Registrations.AppliedIffNewer | src/registrations/seed_loader.rs:125-217 | a catalog is applied and recorded if and only if it is newer, valid and no entry is refused; one that is not newer or not valid changes nothing; which result each case gives |
| Registrations.ValidEntryIff | src/registrations/validators.rs:9-42 | exactly which names and entries are valid |
| Registrations.LegacyOnlyAdds | src/registrations/legacy_bootstrap.rs:49-106 | existing rows are unchanged; added ones are enabled operator tools |
| Registrations.LegacyInstallsTools | src/registrations/legacy_bootstrap.rs:49-106 | a new name gets a row exactly when a tool of that name has a translatable auth, and the row is the first such tool's |
| RegistrationRuntime.ListPublicEntries | src/registrations/api.rs:38-57 | the list holds exactly the enabled rows the identity may use |
| RegistrationRuntime.FindTool | src/config.rs:593-601 | the fallback finds a tool of the name exactly when the configuration has an active one |
| RegistrationRuntime.AllowsToolIff | src/auth_v2/agent.rs:50-62 | the four cases of the two lists, a denied name being refused even when it is allowed |
| RegistrationRuntime.RegistrationService.LoadCatalog | src/registrations/seed_loader.rs:125-217 | the loop over entries, with its early exits, has the effect and result that `Registrations.AppliedIffNewer` and `Registrations.LoadInstallsEntries` characterise |
| RegistrationRuntime.RegistrationService.BootstrapFromConfigTools | src/registrations/legacy_bootstrap.rs:49-106 | the loop has the specified effect; its three counters add up to the tools offered, and the first is the growth of the table |
| RegistrationRuntime.RegistrationService.RefreshRuntime | src/registrations/api.rs:202-230 | the catalog equals the table afterwards |
| RegistrationRuntime.RegistrationService.OpPut | src/registrations/api.rs:273-343 | the specified row and result; the catalog equals the table after a success and is unchanged after a refusal |
| RegistrationRuntime.RegistrationService.OpDelete | src/registrations/api.rs:347-376 | a seed row is disabled and an operator row deleted, and the catalog follows |
| RegistrationRuntime.RegistrationService.OpEnable | src/registrations/api.rs:380-404 | the row is enabled, and the catalog follows |
| RegistrationRuntime.StepKeepsInv | src/daemon.rs:511-541 | starts, stops and operator writes keep names, catalog and recorded version in agreement |
| RegistrationRuntime.RunKeepsInv | src/daemon.rs:511-541 | the invariant over every sequence of starts and writes |
| RegistrationRuntime.RecordedVersionIsMaximum | src/registrations/seed_loader.rs:269-278 | the recorded seed version is one of the catalogs offered without error, and none of those is newer in the order of `Registrations.VersionOrder` |
| RegistrationRuntime.StepKeepsRow | src/registrations/repo.rs:170-241 | a step that does not delete a row keeps its kind and age, keeps it disabled unless it enables it, and keeps an operator row unless it names it |
| RegistrationRuntime.RowHistory | src/registrations/repo.rs:170-241 | the same over every run: disabled until enabled or deleted, operator rows untouched by any seed loading |
| RegistrationRuntime.SeedTakesPrecedence | src/daemon.rs:511-541 | a start takes the seed catalog before the configured tools, so a new name offered by both becomes the catalog's |
| RegistrationRuntime.PutSurvivesUpgrades | src/registrations/api.rs:273-343 | a successful write takes the row over with what was asked for, keeping its age and disabled flag, and no later start, seed upgrade or write to another row changes it |
| RegistrationRuntime.RemoveFreesName | src/registrations/api.rs:347-376 | removing an operator's row deletes it and only it, and the name can be taken anew by any kind |
| RegistrationRuntime.RefusedWrites | src/registrations/api.rs:273-404 | exactly which writes are refused and how; a refused write leaves the table alone |
| RegistrationRuntime.EnableUndoesRemove | src/registrations/api.rs:347-404 | removing a seed row hides it from lookups and enabling gives it back unchanged but for its update time |
| RegistrationRuntime.CatalogAgreesWithTable | src/registrations/catalog.rs:29-44 | in every reachable running state the catalog is the table, and a lookup succeeds exactly for an existing enabled row |
| RegistrationRuntime.PublicListIsUsable | src/registrations/api.rs:38-57 | a name is listed for an identity if and only if its lookup succeeds, its kind matches and the identity may use it; a listed name resolves through the catalog |
| RegistrationRuntime.DisabledStillResolves | src/proxy.rs:570-588 | a disabled registration resolves if and only if the configuration has an active tool of that name |
| RegistrationRuntime.DisabledIsReachable | src/registrations/api.rs:347-376 | for every valid name a run from an empty database ends with a disabled row under it |
| AuditSink.TargetIsFree | src/audit_sink.rs:196-214 | the next file name is unused if and only if the primary or one of the 10 000 overflow names of the day is, and it is the first such; otherwise it is the primary |
| AuditSink.PruneKeepsNewest | src/audit_sink.rs:218-253 | pruning leaves as many audit files as allowed, none older than a removed one, and touches neither contents nor other files |
| AuditSink.SurvivesPruneIffAmongNewest | src/audit_sink.rs:218-253 | a file survives however the sort breaks ties if and only if fewer than `keep_files` others are as new, and under some breaking of ties if and only if fewer are newer |
| AuditSink.StepKeepsValid | src/audit_sink.rs:94-117 | `written` is the open file's length after every append, whatever failed |
| AuditSink.CapExceededIffNamesExhausted | src/audit_sink.rs:94-117 | a write takes a non-empty file past the cap if and only if the line did not fit, the day's names were exhausted and the primary file has no room |
| AuditSink.CapCanBeExceeded | src/audit_sink.rs:196-214 | a sink opened on a directory with all of the day's names over full files writes past its cap |
| AuditSink.StepAccounted | src/audit_sink.rs:94-157 | an append puts its line, as far as it gets, at the end of one file and changes no other |
| AuditSink.WriteOutcome | src/audit_sink.rs:107-116 | a whole write extends and dates the open file and keeps it open; a failed one leaves the part that got out and closes the sink |
| AuditSink.RunAccountsForEveryByte | src/audit_sink.rs:94-157 | over every run with any failures, each file holds what it held at the start followed by the writes logged for it |
| AuditSink.RotatesIffNeeded | src/audit_sink.rs:94-106 | an append rotates exactly when the day changed or the line does not fit, and leaves the sink on its day |
| AuditSink.NewDayNewFile | src/audit_sink.rs:97-101 | when the day changed and has a name left, the line goes to a file this append created under a name of the new day, never to one that was there |
| AuditSink.LinesAreInTheirDaysFiles | src/audit_sink.rs:94-157 | from any start over every run, each line whose file is still named is in a file of the day of its append, and the sink is on the day of the last append |
| AuditSink.RunKeepsFilesCapped | src/audit_sink.rs:94-157 | while names are left, every file written to is within the cap or holds a single line, and every line is whole except that a file's last may be torn by a failed write |
| AuditSink.RunLeavesNames | src/audit_sink.rs:133-157 | in every such run each rotation finds the day an unused name |
| AuditSink.PruningSinkStaysCapped | src/audit_sink.rs:67-157 | from configuration and directory alone: with `keep_files` between 1 and 10 000 and no more audit files than that once the sink is open, in every run every file written to is within the cap or holds a single line, and every line is whole except that a file's last may be torn by a failed write |
| AuditSink.ClosedSinkReopensIff | src/audit_sink.rs:94-117 | after an error a line is written if and only if its append rotates and the open succeeds |
| AuditSink.ClosedSinkDropsLines | src/audit_sink.rs:94-157 | until then every line is dropped and nothing changes |
| AuditSink.FailedRotationDropsTheDay | src/audit_sink.rs:133-157 | after a rotation whose open failed, every line is dropped until the day changes |
| AuditSink.FreshFileKeepsNameIff | src/audit_sink.rs:133-157 | a new file stays in the directory however ties are broken if and only if fewer than `keep_files` audit files are dated at or after the clock, and under some breaking of ties if and only if fewer are dated after it |
| AuditSink.RunKeepsOpenFileLinked | src/audit_sink.rs:133-157 | while the clock stays ahead of the kept files, the open file is always in the directory |
| AuditSink.JsonlSink.constructor | src/audit_sink.rs:67-89 | opens the day's primary file with its length and leaves every other file alone; the run invariants hold |
| AuditSink.JsonlSink.NextTarget | src/audit_sink.rs:196-214 | the loop finds the specified name |
| AuditSink.JsonlSink.PruneOldest | src/audit_sink.rs:218-253 | the loop removes the specified files |
| AuditSink.JsonlSink.RotateTo | src/audit_sink.rs:133-157 | close, open and prune in place |
| AuditSink.JsonlSink.Append | src/audit_sink.rs:94-117 | daily check, cap check and write in place, keeping `written` exact and ending on the append's day |
| Headers.BuildUpstreamRequest | src/proxy.rs:640-805 | the header loop and the injections build the request that `Headers.SentUnder`, `Headers.CredentialInjection` and `Headers.RestIsForwarded` characterise name by name |
| Headers.SentUnder | src/proxy.rs:674-805 | for every name: under a stripped name exactly the injected values go out, under any other the agent's come first and unchanged |
| Headers.CredentialInjection | src/proxy.rs:705-777 | what each kind of auth injects under each name, and nothing when the credential is absent |
| Headers.CodexInjection | src/proxy.rs:794-800 | the beta flag always, the originator unless the agent sent one, and only for codex |
| Headers.CredentialGoesOut | src/proxy.rs:705-777 | whatever the agent sends, exactly one `authorization` value goes out for a bearer or OAuth token, and exactly one under the header of a header credential that codex does not use; none without a credential |
| Headers.StrippedNames | src/proxy.rs:684-702 | the stripped names one by one, and that no other is stripped |
| Headers.RestIsForwarded | src/proxy.rs:640-805 | method and URL are the caller's, and the body unless it is empty |
| Headers.CodexIff | src/proxy.rs:617-619 | a codex upstream is one with the codex path anywhere in it, in any case |
| Headers.KeptPositions | src/proxy.rs:674-702 | the agent's headers that are forwarded are exactly the unstripped ones, each once and in order |
| Headers.KeptMentions | src/proxy.rs:679-702 | stripping does not hide a header whose name is not stripped |
| Headers.DependsOnOriginator | src/proxy.rs:679-702 | with `originator` as codex credential, two lists that agree after stripping build different requests |
| Headers.RequestIndependentOfStripped | src/proxy.rs:674-805 | for a target, all lists that agree after stripping build equal requests if and only if `originator` is not its codex credential |
| Headers.KeptIsUnstripped | src/proxy.rs:208-215 | no header of the agent's goes out under a stripped name |
| Headers.AuthorizationIsConfigured | src/proxy.rs:674-805 | every `Authorization` header sent is a configured one |
| Headers.OnlyInjectedIffStripped | src/proxy.rs:684-805 | for every name, all headers sent under it are the proxy's own, whatever the agent sends, if and only if the name is stripped |
| Headers.AccountIdIsForwarded | src/proxy.rs:684-775 | an account-id header of the agent's can go out, unless the name is the target's credential header; so for every OAuth target |
| Headers.BothAccountIdsGoOut | src/proxy.rs:684-775 | for a codex OAuth target with an account id, every account-id header of the agent's goes out, before the injected one |

## Left out

- TLS, mTLS, certificate handling, listeners, routing, the CLI, and the network clients for Kamiwaza and MCP.
- argon2, AES-GCM, SHA-256, regex redaction, JSON and YAML parsing: abstract, with the laws listed under Assumptions.
- Failed database statements, crashes and cancelled requests in the OAuth, registration and rotation protocols.
- Which sessions a background tick lists and in what order: a tick may visit any session, which covers every listing.
- `refresh_safety_margin_secs`, which the background loop does not call.
- Certificate identities, descriptions and `last_used_at` of agents, which no theorem here depends on.
- Concurrent operator writes to registrations, and stale entries of the resolved-credential map.
- How a legacy auth block is translated and which credential an override selects: both are inputs.
- The content-type and redaction checks on responses, and upstream errors inside a streamed body beyond passing them on.
- Request bodies rewritten for codex, client pooling, deprecations and audit queries: short case splits.
- A sink path without a parent directory, for which the sink never prunes.
- EnvExpand.ExpandEnvVars: follows the loop for any given number of rounds, because on some inputs it has no last one.
- OauthProtocol.RefreshTokensSentOnce: for providers that rotate, and within one session's lifetime; a re-bootstrapped session may be given an old token by its operator.
