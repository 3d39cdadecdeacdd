# Copylocker, verified

A model in Dafny of the parts of Copylocker whose promises range over whole runs or over all
inputs, with proofs of those promises. `dafny verify dfyconfig.toml` checks everything.

**License keys** (`Digits`, `Crc`, `CrcOrbit`, `KeyChecksum`, `LicenseKey`, `Typos`). 88 bits of key
and a 12-bit checksum, written as twenty Crockford base-32 characters and read back by a parser that
forgives case, separators and confusable letters. The checksum is treated as a linear map over GF(2):
bursts of twelve bits, odd numbers of flips, and any two flips are all detected.

**The license state machine** (`Saturating`, `Clock`, `StateMachine`, `MachineRuns`, `MachineMoves`,
`Ticket`). Eight states, eleven events, a clock that cannot be turned back, saturating deadlines.
`LicenseMachine.Handle` is written state by state as the code is and proved against a transition
function written event by event; `MachineMoves` says what each event does in plain comparisons, and the
theorems in `MachineRuns` are about every sequence of events and clock readings.

**Trust** (`Artifacts`, `Chain`, `Trust`). Epoch certificates under pinned roots, a revocation view that
only moves forward, and exactly what a verified keyset contains.

**The client as a concurrent protocol** (`Client`, `ClientInvariant`, `ClientTheorems`,
`RevokedEpochs`, `KeyDerivation`, `HeldLicence`, `SegmentEffects`, `Restarts`, `ClientExample`,
`ClientRuntime`, `Revocations`, `Validation`). One mutex, released around every request, so that
operations interleave as atomic lock-held segments. `Client` says on values what each segment does;
`ClientRuntime.Guarded` does it in place, field by field, and is proved equal to it; `ClientInvariant`
proves what every interleaving keeps, and the modules beside it what follows for revoked epochs, for
key derivation and for what is held; `SegmentEffects` says what pages, tickets, installations and kill
orders bring about and for how long, `Restarts` what a client that stops and starts again finds;
`Revocations` holds the paging loop and `Validation` a whole online validation, with other operations
running between their segments. Signatures, decoding, unsealing and the network are function-valued
fields and parameters, so every statement holds whatever they answer.

**Catalog push** (`Groups`, `Tiers`). The order in which feature groups are sent, and the two-phase
tier push with its bridges, idempotency keys and counters.

**Retry schedule and admin tokens** (`Scheduler`, `Token`). Jitter and capped exponential backoff over
saturating integers; the wire format of tokens against base64url as RFC 4648 defines it (sections 3.2,
3.5 and 5).

Classes and methods mirror the imperative code; the functions they are proved against carry the
theorems. Integers are unbounded in Dafny, so widths and saturation are written out: `I64`, `U64`,
`U32` and `U8` are subset types and every saturating operation is `SatAdd`, `SatSub` or an explicit
minimum.

## Where the code and its own documents differ

The model follows the code.

- The comment on the checksum constant (crates/copylocker-proto/src/license_key.rs:43) gives a
  polynomial that is not 0xF13; the proofs are about 0xF13.
- The transition table (crates/copylocker-core/src/state.rs:17) sends an active machine past its grace
  deadline to Locked at once. The code goes through NeedsRevalidation first;
  `MachineRuns.FirstTickLocks` says exactly when one time event is enough, and
  `MachineRuns.FirstTickSpares` is a run in which it is not.
- Tests call Revoked and Tampered terminal except for an activation. A rollback past the threshold
  locks them too; `MachineRuns.StepTerminal` says exactly when, and `MachineRuns.RevokedThenActive` is such
  a run.
- Key material does not imply the credential flag of the machine: Locked ignores a verified activation.
  `ClientTheorems.InstalledFlag` gives the exact condition. The client derives keys from its material and
  the state of its machine and never asks the flag, so a ticket then gives it keys that the permission of
  the machine alone would deny; `ClientExample.KeysWithoutFlag` is such an execution. The theorems of
  `KeyDerivation` are therefore about the client, those of `MachineRuns` about the machine.
- A key typed without its prefix is not always forgiven its confusable letters: one whose typed form
  itself begins with the prefix letters is read as prefixed. `Typos.UnprefixedTyping` gives the exact
  condition and `Typos.ConfusedTypingRefused` the family that fails.
- A restart is not neutral: a stored credential or license is refused once either stored watermark has
  risen above its own, so a client that has applied a page of revocations cannot start on the licence it
  still holds. `Restarts.RestartsExactly` gives the exact condition and `Restarts.PageBlocksRestart` the
  family that fails.
- Idempotency keys of a tier push can collide when identifiers contain colons;
  `Tiers.KeysDistinctExactly` says exactly when, and `Tiers.KeysCollide` shows a catalog.
- After a recorded failure the scheduler may have no time to sleep: `record_failure` leaves the attempt
  due at startup pending. `Scheduler.SleepsAfterFailure` gives the exact condition.

## Model

| member | source | states |
|---|---|---|
| `KeyChecksum.Crc12` | crates/copylocker-proto/src/license_key.rs:231-242 | the loop over the 88 checked bits computes the remainder of the register machine over GF(2) |
| `KeyChecksum.Turn` | crates/copylocker-proto/src/license_key.rs:234-240 | one turn of that loop makes the register machine take in one bit, and stays within twelve bits |
| `KeyChecksum.NextCrcSteps` | crates/copylocker-proto/src/license_key.rs:234-240 | a turn on numbers is a turn on bits |
| `KeyChecksum.ChecksumBound` | crates/copylocker-proto/src/license_key.rs:231-242 | the checksum fits twelve bits |
| `Crc.FeedLinear` | crates/copylocker-proto/src/license_key.rs:231-242 | the checksum loop is linear: feeding the exclusive or of two messages gives the exclusive or of their registers |
| `Crc.FeedKernel` | crates/copylocker-proto/src/license_key.rs:231-242 | reading zeros never empties a register that is not empty already |
| `Crc.CodeWordDivides` | crates/copylocker-proto/src/license_key.rs:231-242 | a word ends in its own checksum if and only if the whole word leaves the register empty |
| `Crc.BurstDetected` | crates/copylocker-proto/src/license_key.rs:231-242 | a code word altered inside twelve consecutive bits is a code word again only if nothing changed |
| `Crc.FeedOdd` | crates/copylocker-proto/src/license_key.rs:231-242 | the parity of the register is the parity of the bits consumed |
| `Crc.CodeWordEven` | crates/copylocker-proto/src/license_key.rs:98-106 | every code word has an even number of ones |
| `Crc.OddErrorDetected` | crates/copylocker-proto/src/license_key.rs:231-242 | every odd number of flipped bits is detected |
| `CrcOrbit.PowersApart` | crates/copylocker-proto/src/license_key.rs:44 | multiplying by x modulo the polynomial does not come back to 1 within 99 steps |
| `CrcOrbit.TwoBitErrorDetected` | crates/copylocker-proto/src/license_key.rs:231-242 | in words of up to 100 bits every two flipped bits are detected, wherever they are |
| `CrcOrbit.FewErrorsDetected` | crates/copylocker-proto/src/license_key.rs:231-242 | one, two or three flipped bits are detected: the code of a key has minimum distance at least four |
| `LicenseKey.PayloadBits` | crates/copylocker-proto/src/license_key.rs:98-106 | the accumulator holds the key number followed by its checksum, in 100 of its 128 bits |
| `LicenseKey.PayloadExact` | crates/copylocker-proto/src/license_key.rs:98-106 | a payload splits back into exactly its key number and its checksum |
| `LicenseKey.EncodeSymbols` | crates/copylocker-proto/src/license_key.rs:110-134 | the twenty characters are the base-32 digits of the payload, most significant first |
| `LicenseKey.SymbolsExact` | crates/copylocker-proto/src/license_key.rs:110-134 | twenty symbols are those of a key if and only if their number carries its own checksum; and they determine the key |
| `LicenseKey.DecodeLetters` | crates/copylocker-proto/src/license_key.rs:213-228 | O is read as 0, I and L as 1, and U is refused |
| `LicenseKey.DecodeOwn` | crates/copylocker-proto/src/license_key.rs:213-228 | every other character is read as its place in the Crockford alphabet, or refused if it has none |
| `LicenseKey.ToStringGrouped` | crates/copylocker-proto/src/license_key.rs:110-134 | the text is the prefix, the version digit, and the symbols in groups of five |
| `LicenseKey.DecodeChar` | crates/copylocker-proto/src/license_key.rs:222-228 | a character decodes exactly if it is in the alphabet after the confusable substitution, to its position there |
| `LicenseKey.DecodeExact` | crates/copylocker-proto/src/license_key.rs:213-228 | which characters decode, and to what, character by character |
| `LicenseKey.FoldCase` | crates/copylocker-proto/src/license_key.rs:142-148 | separators are dropped and case is folded |
| `LicenseKey.DecodeBody` | crates/copylocker-proto/src/license_key.rs:170-173 | the accumulator holds the number the body spells, or the body has a character outside the alphabet |
| `LicenseKey.ExtractKey` | crates/copylocker-proto/src/license_key.rs:175-190 | the product byte and the ten random bytes are the bytes of the key number |
| `LicenseKey.Parse` | crates/copylocker-proto/src/license_key.rs:141-191 | for every text: a key is returned if and only if the text, normalised and with confusables replaced, is its canonical payload; the version error appears exactly when another version is named |
| `LicenseKey.RoundTrip` | crates/copylocker-proto/src/license_key.rs:110-191 | every one of the 2^88 keys is what its own rendering presents |
| `LicenseKey.PresentsUnique` | crates/copylocker-proto/src/license_key.rs:141-191 | no text presents two keys |
| `Typos.LookAlikesForgiven` | crates/copylocker-proto/src/license_key.rs:141-228 | two texts that differ only in confusable letters present the same keys, unless only one of them has the letters of the prefix; then they are never both keys |
| `Typos.ConfusableForgiven` | crates/copylocker-proto/src/license_key.rs:213-228 | one letter typed for a confusable one, in either case and anywhere, changes nothing unless it makes or breaks the prefix |
| `Typos.LetterForgiven` | crates/copylocker-proto/src/license_key.rs:213-228 | O and o may be typed for 0, and I, i, L and l for 1, anywhere they do not make or break the prefix |
| `Typos.UnprefixedTyping` | crates/copylocker-proto/src/license_key.rs:141-191 | without the prefix the same holds if and only if what was typed does not itself begin with the prefix letters |
| `Typos.ConfusedTypingRefused` | crates/copylocker-proto/src/license_key.rs:155-164 | the family for which it fails: a key whose unprefixed spelling begins C1, typed with an L for the 1, is refused as any key |
| `Typos.ConfusedKey` | crates/copylocker-proto/src/license_key.rs:213-219 | and such keys exist |
| `Typos.SeparatorForgiven` | crates/copylocker-proto/src/license_key.rs:142-148 | anything but an ASCII letter or digit may be inserted or dropped anywhere |
| `Typos.CaseForgiven` | crates/copylocker-proto/src/license_key.rs:142-148 | a small letter may be typed for its capital anywhere |
| `Typos.AcceptedIffCodeWord` | crates/copylocker-proto/src/license_key.rs:141-191 | typed symbols are accepted if and only if their 100 bits are a code word |
| `Typos.KeyEven` | crates/copylocker-proto/src/license_key.rs:98-106 | every key has an even number of ones among its 100 payload bits |
| `Typos.BurstRejected` | crates/copylocker-proto/src/license_key.rs:141-242 | an accepted typing altered only within twelve consecutive bits is rejected |
| `Typos.OddFlipsRejected` | crates/copylocker-proto/src/license_key.rs:141-242 | an accepted typing with an odd number of bits flipped is rejected |
| `Typos.FewFlipsRejected` | crates/copylocker-proto/src/license_key.rs:141-242 | an accepted typing with up to three bits flipped, anywhere, is rejected |
| `Typos.AdjacentTypoRejected` | crates/copylocker-proto/src/license_key.rs:141-242 | any change confined to two neighbouring characters, a transposition included, is rejected |
| `Groups.Collect` | crates/copylocker-cli/src/admin_cli.rs:920-924 | the map of groups holds exactly the listed groups, under their own identifiers |
| `Groups.CollectLast` | crates/copylocker-cli/src/admin_cli.rs:920-924 | of several groups with one identifier the last one counts |
| `Groups.Traversal.Visit` | crates/copylocker-cli/src/admin_cli.rs:889-918 | depth-first visiting ends, keeps the order topological, and reports only undefined groups and real cycles |
| `Groups.CycleOnStack` | crates/copylocker-cli/src/admin_cli.rs:905-910 | meeting a group that is being visited means the stack closes into a cycle of includes |
| `Groups.OrderedMeansAcyclic` | crates/copylocker-cli/src/admin_cli.rs:888-932 | a topological order of all groups exists only if the includes are defined and acyclic |
| `Groups.OrderedGroups` | crates/copylocker-cli/src/admin_cli.rs:888-932 | succeeds if and only if every include is defined and there is no cycle; then every group is listed once, after all it includes; an error names a real undefined group or a group on a real cycle |
| `Clock.EffectiveNow` | crates/copylocker-core/src/clock.rs:106-112 | the effective time is never below the high-water mark nor the reading |
| `Clock.ClockState.constructor` | crates/copylocker-core/src/clock.rs:55-61 | a fresh clock |
| `Clock.ClockState.Check` | crates/copylocker-core/src/clock.rs:115-126 | a reading raises the mark, or counts as a rollback when it is more than 300 s behind it |
| `Clock.ClockState.CheckAgainstMonotonic` | crates/copylocker-core/src/clock.rs:133-149 | a rollback is reported as such; otherwise a wall clock more than the tolerance ahead of monotonic time is reported with how far ahead it is |
| `Clock.ClockState.ObserveServerTime` | crates/copylocker-core/src/clock.rs:155-160 | the server time is recorded and raises the mark |
| `Clock.ClockState.Merge` | crates/copylocker-core/src/clock.rs:167-175 | two copies merge into the larger of each mark |
| `Clock.ReplayMeaning` | crates/copylocker-core/src/clock.rs:55-160 | after any history the mark is the maximum of the seed and every reading, the count is the saturated number of readings more than 300 s below the running maximum, and the server time is the last one told |
| `Clock.ReplayRestores` | crates/copylocker-core/src/clock.rs:68-81 | every reachable clock is accepted when read back, and restored exactly |
| `Clock.MergeIsJoin` | crates/copylocker-core/src/clock.rs:167-175 | merging is the least upper bound of the two copies |
| `StateMachine.LicenseMachine.constructor` | crates/copylocker-core/src/state.rs:145-154 | a fresh machine is unlicensed |
| `StateMachine.LicenseMachine.Transition` | crates/copylocker-core/src/state.rs:495-501 | a move is announced exactly when the state changes |
| `StateMachine.LicenseMachine.AcceptTicket` | crates/copylocker-core/src/state.rs:503-509 | an accepted ticket leads to Active and schedules the next wake |
| `StateMachine.LicenseMachine.DenyTicket` | crates/copylocker-core/src/state.rs:511-518 | a denied ticket locks, with the reason of its verdict |
| `StateMachine.LicenseMachine.Revoke` | crates/copylocker-core/src/state.rs:520-529 | a kill order wipes |
| `StateMachine.LicenseMachine.Tamper` | crates/copylocker-core/src/state.rs:531-540 | a failed verification wipes |
| `StateMachine.LicenseMachine.Wipe` | crates/copylocker-core/src/state.rs:542-549 | a deactivation wipes |
| `StateMachine.LicenseMachine.SetDeadlines` | crates/copylocker-core/src/state.rs:184-186 | only the deadlines change |
| `StateMachine.LicenseMachine.NoteValidationAttempt` | crates/copylocker-core/src/state.rs:491-493 | only the attempt time changes |
| `StateMachine.LicenseMachine.Handle` | crates/copylocker-core/src/state.rs:198-470 | the code, written state by state, does for every state, event and clock reading what a transition function written event by event says |
| `MachineRuns.RunKeeps` | crates/copylocker-core/src/state.rs:198-470 | over every run a credential implies a licensed state, and neither the high-water mark nor the rollback count falls |
| `MachineRuns.RunAnnounced` | crates/copylocker-core/src/state.rs:198-501 | folding the announced state changes over any run reproduces the state |
| `MachineRuns.RunLosesCredential` | crates/copylocker-core/src/state.rs:503-549 | a run that loses the credential emits a wipe |
| `MachineRuns.RunWipesForCause` | crates/copylocker-core/src/state.rs:503-549 | a wipe in a run has a kill order, a failed verification or a deactivation in that run; time and network failures never wipe |
| `MachineRuns.RunGainsForCause` | crates/copylocker-core/src/state.rs:198-470 | a run that gains a credential has an activation or a load in it |
| `MachineRuns.WipedStaysDark` | crates/copylocker-core/src/state.rs:476-549 | after a wipe no key can be derived until a later activation or load |
| `MachineRuns.LeavingLocked` | crates/copylocker-core/src/state.rs:405-430 | every run from Locked to key derivation contains a verified ticket, or a wipe followed by an activation or load |
| `MachineRuns.StepTerminal` | crates/copylocker-core/src/state.rs:209-215 | Revoked and Tampered are left if and only if an activation is verified or a rollback passes the threshold |
| `MachineRuns.TerminalUntilActivation` | crates/copylocker-core/src/state.rs:432-466 | while rollbacks stay within the threshold, only an activation leaves Revoked or Tampered |
| `MachineRuns.TerminalEscaped` | crates/copylocker-core/src/state.rs:203-230 | past the threshold any terminal state turns Locked, and a ticket then makes it read Active, still without the permission to derive keys |
| `MachineRuns.RevokedThenActive` | crates/copylocker-core/src/state.rs:203-230 | a run from a fresh machine that does so: a kill order, one rollback more than the threshold, a ticket |
| `MachineRuns.ActivationTakesEffect` | crates/copylocker-core/src/state.rs:426-430 | a verified activation gives a credential if and only if no licensed state stands in its way |
| `MachineRuns.ActivationIgnored` | crates/copylocker-core/src/state.rs:209-215 | a machine that never held anything, locked by one rollback more than the threshold, ignores an activation |
| `MachineRuns.BoundedLockout` | crates/copylocker-core/src/state.rs:289-430 | once the high-water mark has reached the grace deadline, two time events end key derivation whatever the clock reads, and no time, network, load, activation or denial brings it back |
| `MachineRuns.FirstTickLocks` | crates/copylocker-core/src/state.rs:289-300 | one time event is enough exactly on hard expiry without a rollback, or when a rollback passes the threshold |
| `MachineRuns.FirstTickSpares` | crates/copylocker-core/src/state.rs:294-300 | a run to an active machine past its grace deadline that the first tick leaves in NeedsRevalidation |
| `MachineRuns.GraceHonoured` | crates/copylocker-core/src/state.rs:289-404 | from Active, NeedsRevalidation or Grace, no outage ends key derivation before the grace deadline while rollbacks stay within the threshold |
| `MachineMoves.TicketRestores` | crates/copylocker-core/src/state.rs:308-411 | a verified ticket makes each of the four licensed states Active and schedules the refresh; elsewhere it does nothing |
| `MachineMoves.TicketLocks` | crates/copylocker-core/src/state.rs:311-412 | a denied ticket locks each of them, for the reason its verdict gives |
| `MachineMoves.LoadActivates` | crates/copylocker-core/src/state.rs:234-241 | a credential from the store activates an unlicensed machine and no other |
| `MachineMoves.ActivationActivates` | crates/copylocker-core/src/state.rs:234-458 | a verified activation activates each unlicensed state and changes no licensed one |
| `MachineMoves.KillOrderWipes` | crates/copylocker-core/src/state.rs:253-419 | a kill order wipes from every state but Revoked and Tampered |
| `MachineMoves.FailureTampers` | crates/copylocker-core/src/state.rs:242-422 | a failed verification leads to Tampered from every state but those two, and wipes what a licensed machine held |
| `MachineMoves.DeactivationWipes` | crates/copylocker-core/src/state.rs:283-425 | a deactivation wipes a licensed or activating machine and no other |
| `MachineMoves.NetworkReturns` | crates/copylocker-core/src/state.rs:302-416 | a network that comes back asks for a validation in exactly the states that wait for one |
| `MachineMoves.NetworkFails` | crates/copylocker-core/src/state.rs:265-392 | a failure opens the grace window while a validation is due, or locks once that window has closed |
| `MachineMoves.TimePasses` | crates/copylocker-core/src/state.rs:198-386 | what a time event does, by rollbacks and deadlines alone |
| `MachineMoves.TicketEndsRun` | crates/copylocker-core/src/state.rs:198-470 | after any run in which a licensed machine is not wiped or tampered with, a verified ticket makes it Active |
| `MachineMoves.ActiveUntilRefresh` | crates/copylocker-core/src/state.rs:288-316 | whatever time and the network do before the refresh date, an Active machine stays Active and asks for nothing, unless the clock is turned back |
| `Ticket.FirstFaultAt` | crates/copylocker-core/src/ticket.rs:51-109 | the first failing check decides the error |
| `Ticket.EachCheckMatters` | crates/copylocker-core/src/ticket.rs:51-109 | a ticket that fails exactly one check is refused with the error of that check |
| `Ticket.AcceptedTicket` | crates/copylocker-core/src/ticket.rs:51-109 | a ticket passes if and only if version and suite are supported, it answers this request for this machine under the epoch that signed it, moves neither watermark back, and its refresh is after its server time |
| `Ticket.ComparableExact` | crates/copylocker-core/src/ticket.rs:85 | the absolute difference is representable if and only if the local clock is less than 2^63 s ahead |
| `Ticket.CheckTicket` | crates/copylocker-core/src/ticket.rs:51-109 | accepts if and only if no check fails; a refusal leaves the clock alone, an acceptance sets it and reports a large divergence |
| `Chain.MergeRevokedExact` | crates/copylocker-proto/src/chain.rs:74-85 | merging keeps the old list as a prefix, adds exactly the new epochs, and keeps it free of duplicates |
| `Chain.AdvancedExactly` | crates/copylocker-proto/src/chain.rs:74-85 | a view moves if and only if the new epoch is not behind it, and then knows the old and the new revoked epochs and no others |
| `Chain.ReplacedIsUpdate` | crates/copylocker-proto/src/chain.rs:144-182 | the epoch list with replacement is a map with update: lookups of other epochs are unchanged and identifiers stay distinct |
| `Chain.Lookup` | crates/copylocker-proto/src/chain.rs:180-182 | a lookup finds a listed epoch of that identifier, or there is none |
| `Chain.UsableEpoch` | crates/copylocker-proto/src/chain.rs:195-206 | an artifact is verified only under the epoch it names, held, unrevoked and within its window |
| `Chain.VerifiedExactly` | crates/copylocker-proto/src/chain.rs:195-236 | on either path an artifact verifies if and only if version and kind fit, it decodes, and an epoch that vouches for it signed it |
| `Chain.VerifiedChain.Advance` | crates/copylocker-proto/src/chain.rs:74-85 | the revocation view moves forward and learns the new epochs, or refuses to move back |
| `Chain.VerifiedChain.AddEpoch` | crates/copylocker-proto/src/chain.rs:144-176 | an epoch is added, replacing one of the same identifier, exactly when no check fails |
| `Trust.VerifyKeyset` | crates/copylocker-client/src/trust.rs:36-85 | the loop over certificates builds the chain of the specification, or reports its first error |
| `Trust.LastAdmittedExact` | crates/copylocker-client/src/trust.rs:57-83 | the certificate that counts for an epoch is the last admitted one |
| `Trust.KeysetAccepted` | crates/copylocker-client/src/trust.rs:36-85 | a keyset is accepted if and only if its version and watermark fit, every in-scope certificate is good |
| `Trust.KeysetContents` | crates/copylocker-client/src/trust.rs:36-95 | the chain holds exactly the in-scope, in-window certificates, the last one per epoch, each under the pinned root it names, none revoked |
| `Artifacts.GraceEnd` | crates/copylocker-proto/src/artifacts.rs:206-215 | the grace period ends neither after its seconds past the refresh date nor after the hard expiry, and earlier than the former only because of the latter or of saturation |
| `Client.OpenMachineCredential` | crates/copylocker-client/src/client.rs:2048-2124 | an opened credential is below neither watermark, under an epoch that is not revoked, and yields its own key material |
| `Client.OpenOfflineLicense` | crates/copylocker-client/src/client.rs:1966-2032 | an opened offline license is below neither watermark, under an epoch that is not revoked, and yields its own key material |
| `ClientInvariant.KeptErased` | crates/copylocker-client/src/client.rs:1877-1933 | failing closed, revoking and deactivating keep the client coherent and move no watermark back |
| `ClientInvariant.KeptImportResponse` | crates/copylocker-client/src/client.rs:476-603 | so does importing an offline response |
| `ClientInvariant.KeptImportOlk` | crates/copylocker-client/src/client.rs:609-722 | so does importing an offline license |
| `ClientInvariant.KeptInstallActivation` | crates/copylocker-client/src/client.rs:839-911 | so does installing an activation |
| `ClientInvariant.KeptCommitTicket` | crates/copylocker-client/src/client.rs:1026-1115 | so does committing a ticket |
| `ClientInvariant.KeptApplyKillOrder` | crates/copylocker-client/src/client.rs:1117-1167 | so does a kill order |
| `ClientInvariant.KeptInstallKeyset` | crates/copylocker-client/src/client.rs:1689-1716 | so does installing a keyset, whose rebuilt chain knows the revoked epochs of the snapshot |
| `ClientInvariant.KeptApplyBatch` | crates/copylocker-client/src/client.rs:1591-1674 | so does a page of revocations |
| `ClientInvariant.AdvanceNeverFails` | crates/copylocker-client/src/client.rs:1654-1660 | moving the revocation view never fails inside the paging loop |
| `ClientInvariant.KeptExecute` | crates/copylocker-client/src/client.rs:444-1254 | so does every lock-held segment |
| `ClientInvariant.InterleaveKeeps` | crates/copylocker-client/src/client.rs:444-1933 | in every interleaving of segments: credential and license are never both held, key material exists exactly when one is, it is backed by a stored envelope and a chain, the flag of the machine implies it, both copies of the revoked epochs agree, and no watermark or clock mark falls |
| `ClientTheorems.FirstStartSound` | crates/copylocker-client/src/client.rs:199-238 | a first start is coherent |
| `ClientTheorems.RestartSound` | crates/copylocker-client/src/client.rs:199-429 | a start from any stored record that succeeds is coherent, with watermarks, clock mark and rollback count no lower than the stored ones |
| `Restarts.BackedRun` | crates/copylocker-client/src/client.rs:444-1726 | in every execution the client runs on the credential or license its snapshot holds, by the deadlines of the credential or of the last ticket recorded |
| `Restarts.RestartState` | crates/copylocker-client/src/client.rs:294-382 | a start on a stored credential finds that credential, on the terms of the last ticket if there is one; it comes up Locked if that ticket denied it, and otherwise by its marks and dates; entitlements of an earlier ticket are not kept |
| `Restarts.RestartLicenseState` | crates/copylocker-client/src/client.rs:249-293 | a start on a stored offline license comes up by the end of the license and the marks of the clock alone |
| `Restarts.SavedRestart` | crates/copylocker-client/src/client.rs:199-429 | save, stop and start: the same licence on the same deadlines, and no mark or watermark lower than the running client had |
| `Restarts.RestartsExactly` | crates/copylocker-client/src/client.rs:294-382 | a client on a credential may start again from what it saves if and only if its keys decode, its chain rebuilds, the credential verifies and fits at the stored watermarks, and its last ticket still verifies and fits |
| `Restarts.RestartAtWatermark` | crates/copylocker-client/src/client.rs:2073-2074 | so it starts again only while credential or license stand at the very watermarks stored |
| `Restarts.PageBlocksRestart` | crates/copylocker-client/src/client.rs:1559-1676 | after any page of revocations that leaves the licence alone and is saved, no start from the store succeeds |
| `ClientTheorems.StoredClockRestores` | crates/copylocker-core/src/clock.rs:68-81 | a record left by any execution never fails to restore its clock |
| `RevokedEpochs.RevokedOnlyGrows` | crates/copylocker-client/src/client.rs:1643-1666 | until the client is erased, its list of revoked epochs only gets longer |
| `RevokedEpochs.UnderRevokedRefused` | crates/copylocker-client/src/client.rs:476-1674 | with or without a chain, every segment that brings in a response, credential, offline license, ticket, kill order or page signed under a revoked epoch is refused: it has no effect, or fails closed |
| `RevokedEpochs.RevocationPermanent` | crates/copylocker-client/src/client.rs:1643-1716 | so is every such segment at any later point of any execution until the client is erased, keyset refreshes and imports with their own chains included; and no key material under that epoch is held |
| `RevokedEpochs.AppliedBatch` | crates/copylocker-client/src/client.rs:1591-1674 | a page that is applied starts one past the watermark, makes every epoch it names known to the client and to its store, and named nothing held |
| `RevokedEpochs.RevocationSurvivesRestart` | crates/copylocker-client/src/client.rs:199-429 | a revocation that was saved is known to every later start from the store, failed wipes included, until an erased client starts over |
| `ClientTheorems.InstalledFlag` | crates/copylocker-client/src/client.rs:839-911 | an installed activation sets the flag of the machine if and only if no licensed state stood in its way |
| `ClientExample.KeysWithoutFlag` | crates/copylocker-client/src/client.rs:839-911 | a client, from its first start: rollbacks lock it, an activation gives it key material and no flag, and a ticket then lets it derive keys without the permission of its machine |
| `HeldLicence.FirstStartOurs` | crates/copylocker-client/src/client.rs:2048-2080 | after a first start and any execution, the credential or offline license held is of this suite, product, build, variant and device, and dated sensibly |
| `HeldLicence.RestartOurs` | crates/copylocker-client/src/client.rs:199-429 | likewise after a start from any stored record, also one written elsewhere |
| `KeyDerivation.ClientLockout` | crates/copylocker-client/src/client.rs:1260-1288 | every reachable client whose high-water mark has reached its grace deadline derives no key after its second clock tick, whatever else happens, unless it installs a credential or commits a good ticket |
| `KeyDerivation.LockedUntilRenewed` | crates/copylocker-client/src/client.rs:1260-1288 | every execution from Locked to derivable keys commits a good ticket, or loses what was held and installs something after that |
| `KeyDerivation.DarkUntilInstalled` | crates/copylocker-client/src/client.rs:1877-1933 | a client without key material has none until something is installed |
| `ClientRuntime.Guarded.constructor` | crates/copylocker-client/src/client.rs:199-238 | the guarded state of a first start |
| `ClientRuntime.Guarded.PersistLocked` | crates/copylocker-client/src/client.rs:1830-1849 | what is written is the snapshot, the clock and both watermarks |
| `ClientRuntime.Guarded.EraseLocked` | crates/copylocker-client/src/client.rs:1895-1933 | the machine is told why, and everything held is dropped |
| `ClientRuntime.Guarded.FailClosedLocked` | crates/copylocker-client/src/client.rs:1877-1893 | failing closed erases |
| `ClientRuntime.Guarded.EnsureDeviceKeys` | crates/copylocker-client/src/client.rs:1530-1541 | a missing snapshot is generated |
| `ClientRuntime.Guarded.BuildRequest` | crates/copylocker-client/src/client.rs:444-473 | a pending nonce is recorded, or nothing changes |
| `ClientRuntime.Guarded.CheckResponse` | crates/copylocker-client/src/client.rs:490-560 | every check on an offline response is made before anything changes |
| `ClientRuntime.Guarded.ImportOfflineResponse` | crates/copylocker-client/src/client.rs:476-603 | the segment does what its specification says, field by field |
| `ClientRuntime.Guarded.ImportOfflineLicense` | crates/copylocker-client/src/client.rs:609-722 | the segment does what its specification says, field by field |
| `ClientRuntime.Guarded.InstallLocked` | crates/copylocker-client/src/client.rs:563-598 | a license is swapped in under the lock |
| `ClientRuntime.Guarded.InstallActivated` | crates/copylocker-client/src/client.rs:839-911 | the segment does what its specification says, field by field |
| `ClientRuntime.Guarded.StartValidation` | crates/copylocker-client/src/client.rs:914-941 | only the attempt time changes |
| `ClientRuntime.Guarded.ReadTicket` | crates/copylocker-client/src/client.rs:986-1021 | a ticket is verified, then checked; the clock it is checked against moves only on success |
| `ClientRuntime.Guarded.Preview` | crates/copylocker-client/src/client.rs:986-1021 | the first look at a ticket works on a copy of the clock |
| `ClientRuntime.Guarded.RecordLocked` | crates/copylocker-client/src/client.rs:1050-1115 | an accepted ticket raises the watermarks, replaces entitlements, rotates the session and sets the deadlines |
| `ClientRuntime.Guarded.Commit` | crates/copylocker-client/src/client.rs:1026-1115 | the ticket is checked again under the lock before it is recorded |
| `ClientRuntime.Guarded.Kill` | crates/copylocker-client/src/client.rs:1117-1167 | a good kill order erases, a bad one fails closed |
| `ClientRuntime.Guarded.InstallFetchedKeyset` | crates/copylocker-client/src/client.rs:1689-1716 | the chain is rebuilt from the keyset and the revoked epochs of the snapshot |
| `ClientRuntime.Guarded.Merge` | crates/copylocker-client/src/client.rs:1643-1653 | epochs not known yet are appended |
| `ClientRuntime.Guarded.ApplyPage` | crates/copylocker-client/src/client.rs:1591-1674 | a page is applied only if the watermark is still the one the request was made for |
| `ClientRuntime.Guarded.SettleLocked` | crates/copylocker-client/src/client.rs:1668-1674 | a page that names what is held erases, any other is written down |
| `ClientRuntime.Guarded.ApplyTransientFailure` | crates/copylocker-client/src/client.rs:1718-1726 | a transient failure only drives the machine |
| `ClientRuntime.Guarded.Beat` | crates/copylocker-client/src/client.rs:1425-1450 | a scheduler cycle only drives the machine |
| `ClientRuntime.Guarded.Dispatch` | crates/copylocker-client/src/client.rs:444-1254 | every segment of the guarded state is the segment of the specification |
| `ClientRuntime.Guarded.RunOthers` | crates/copylocker-client/src/client.rs:1559-1676 | other operations running while one waits are an interleaving of segments |
| `Revocations.TilesCover` | crates/copylocker-client/src/client.rs:1559-1676 | pages that tile a range hold every epoch of it exactly once |
| `Revocations.PageOutcome` | crates/copylocker-client/src/client.rs:1591-1674 | an answered page leaves the watermark alone, or moves it from the requested cursor to the end of a page that fits |
| `Revocations.TakePage` | crates/copylocker-client/src/client.rs:1591-1674 | a page is applied only at the watermark one below its first epoch; a superseded one changes nothing |
| `Revocations.OnePass` | crates/copylocker-client/src/client.rs:1560-1675 | one pass ends the loop or moves the watermark strictly towards the target; the cursor never overflows |
| `Revocations.BystandersRun` | crates/copylocker-client/src/client.rs:1559-1676 | whatever else runs, short of an installation, a committed ticket or another page, moves no revocation watermark and leaves what is held the same or gone |
| `SegmentEffects.PageTaken` | crates/copylocker-client/src/client.rs:1588-1676 | a page takes effect if and only if it verifies, is the next one up to the target, does not revoke its own signer and meets the watermark it was asked for at; otherwise nothing changes |
| `SegmentEffects.PageObeyed` | crates/copylocker-client/src/client.rs:1620-1676 | a page that lists the license, machine or epoch held ends it and says which, in that order; any other leaves everything held as it was |
| `SegmentEffects.TicketOpensExactly` | crates/copylocker-client/src/client.rs:985-1075 | a ticket is accepted if and only if it verifies under the chain and passes each of eight checks |
| `SegmentEffects.TicketRenews` | crates/copylocker-client/src/client.rs:1026-1115 | an accepted ticket brings its own refresh date, its own end and the grace of the credential cut off by that end, its watermarks, server time and entitlements; a good verdict leaves the client able to derive keys |
| `SegmentEffects.ResponseTaken` | crates/copylocker-client/src/client.rs:476-607 | an offline response is installed only if it echoes the pending nonce and has not run out; it brings the credential and certificates it carries, on the terms of that credential, and clears the pending request |
| `SegmentEffects.ActivationTaken` | crates/copylocker-client/src/client.rs:840-911 | an activation installs the credential it carries, on its own terms, under the chain at hand |
| `SegmentEffects.BundleTaken` | crates/copylocker-client/src/client.rs:609-722 | an offline bundle installs its license and certificates, with no refresh and no grace but the end of the license |
| `SegmentEffects.ResponseAnswersRequest` | crates/copylocker-client/src/client.rs:444-607 | in any execution a response is installed only after a request with the nonce it echoes was built |
| `SegmentEffects.KillOrderObeyed` | crates/copylocker-client/src/client.rs:1117-1174 | a kill order empties the client; it is obeyed if and only if it is for this machine and request and not behind the watermark, and any other fails closed |
| `SegmentEffects.KeysetTaken` | crates/copylocker-client/src/client.rs:1689-1716 | a keyset that verifies becomes the chain and the stored certificates; any other changes nothing |
| `SegmentEffects.DeactivationObeyed` | crates/copylocker-client/src/client.rs:1918-1934 | a deactivation leaves nothing and succeeds if and only if the store was wiped |
| `SegmentEffects.FailureCloses` | crates/copylocker-client/src/client.rs:1869-1893 | failing closed leaves nothing and ends in Tampered, or stays Revoked |
| `SegmentEffects.RequestBuilt` | crates/copylocker-client/src/client.rs:444-473 | a request is built if and only if no licence is held and it can be saved; then its nonce is the pending one, stored too, and nothing else changed |
| `SegmentEffects.FailureFelt` | crates/copylocker-client/src/client.rs:1718-1726 | a transient failure while a validation is due opens the grace window, or locks once that has closed; it costs nothing else |
| `SegmentEffects.PulseFelt` | crates/copylocker-client/src/client.rs:1425-1450 | a scheduler cycle ages the machine by its deadlines, or with a network notes the validation it asks for, and saves the clock it has seen |
| `SegmentEffects.TermHonoured` | crates/copylocker-client/src/client.rs:1260-1476 | a client able to derive keys goes on being able to, in every execution in which it hears nothing, until its grace deadline or hard end |
| `SegmentEffects.TicketHonoured` | crates/copylocker-client/src/client.rs:985-1115 | so a good ticket buys keys until the refresh date it sets and the grace after it |
| `SegmentEffects.InstallHonoured` | crates/copylocker-client/src/client.rs:476-911 | and so does an installation, until the end of the term it brings |
| `Revocations.SyncRevocations` | crates/copylocker-client/src/client.rs:1559-1676 | the loop ends against any server and any interleaving; pages are applied in order; beside such bystanders only they tile the range from the old watermark; success means the watermark is the target and no page listed the license, machine or epoch then held |
| `Validation.CatchUp` | crates/copylocker-client/src/client.rs:1022-1025 | a sync inside another operation ends at its target with its pages in order, or ends the operation |
| `Validation.Refresh` | crates/copylocker-client/src/client.rs:970-982 | the operation goes on only if the client knows the epoch of the reply, or the fetched keyset was installed and the watermark reached the epoch it speaks of; a fatal error on the way leaves nothing |
| `Validation.TakeTicket` | crates/copylocker-client/src/client.rs:985-1115 | a ticket is committed only by a client that has caught up with exactly the revocation epoch the ticket speaks of, whatever ran since it was first read; it passed every check at the watermarks it met |
| `Validation.Validate` | crates/copylocker-client/src/client.rs:914-1174 | whatever the server answers and whatever runs between its segments, validation keeps the client coherent and moving forward; success means such a ticket with a good verdict, saved, or a kill order that emptied client and store; a fatal result leaves nothing, unless the request could not be built or the reply names no epoch |
| `Tiers.TierBridge` | crates/copylocker-cli/src/admin_cli.rs:811-817 | the bridge is the proposed tier with the limits it would drop put back |
| `Tiers.Bridge` | crates/copylocker-cli/src/admin_cli.rs:811-817 | a bridge is the proposed tier but for its limits: their keys are those of both tiers, and proposed values win |
| `Tiers.FirstPhase` | crates/copylocker-cli/src/admin_cli.rs:727-780 | after the first loop every tier the server had is the bridge, and every new tier is there |
| `Tiers.SecondPhase` | crates/copylocker-cli/src/admin_cli.rs:782-807 | after the second loop every local tier is on the server as proposed, and nothing else changed |
| `Tiers.PlanArrives` | crates/copylocker-cli/src/admin_cli.rs:715-809 | the whole push leaves every local tier on the server exactly as proposed, and no other tier touched |
| `Tiers.AdditionsFirst` | crates/copylocker-cli/src/admin_cli.rs:715-809 | a write creates exactly when the server lacks the tier; every write of the first loop only adds limit keys to its tier and every write of the second only removes them, so all additions precede any removal |
| `Tiers.UnchangedNotSent` | crates/copylocker-cli/src/admin_cli.rs:743-745 | a tier the server already has as proposed is never sent |
| `Tiers.EveryWriteLegal` | crates/copylocker-server-core/src/catalog.rs:375-384 | every single write of the push meets the limit-key rule of the server: no limit key vanishes from the catalog at any point |
| `Tiers.DirectPushIllegal` | crates/copylocker-server-core/src/catalog.rs:375-384 | sending the same tiers directly is refused for some catalogs, which is what the bridge is for |
| `Tiers.KeysDistinctExactly` | crates/copylocker-cli/src/admin_cli.rs:856-861 | the idempotency keys of a push are pairwise distinct if and only if no tier is named like another followed by a phase |
| `Tiers.KeysCollide` | crates/copylocker-cli/src/admin_cli.rs:856-861 | a catalog with distinct identifiers that drops no tier and no limit key, passes the check of its keys with any valid prefix of up to 106 characters, and whose keys collide |
| `Tiers.ColonFreeDistinct` | crates/copylocker-cli/src/admin_cli.rs:856-861 | the keys are distinct when no identifier contains a colon |
| `Tiers.TierPush.constructor` | crates/copylocker-cli/src/admin_cli.rs:715-726 | nothing sent, nothing counted |
| `Tiers.TierPush.MutateItem` | crates/copylocker-cli/src/admin_cli.rs:820-886 | a tier known to be there is counted and not sent; any other is sent under its key, unless the key is malformed or the server refuses |
| `Tiers.TierPush.Widen` | crates/copylocker-cli/src/admin_cli.rs:727-780 | a turn of the first loop sends what the plan says and counts the tier once |
| `Tiers.TierPush.Cut` | crates/copylocker-cli/src/admin_cli.rs:782-807 | a turn of the second loop sends what the plan says and counts it once |
| `Tiers.TierPush.WidenAll` | crates/copylocker-cli/src/admin_cli.rs:727-780 | the first loop, stopped anywhere by an error, has sent a beginning of the first half of the plan |
| `Tiers.TierPush.CutAll` | crates/copylocker-cli/src/admin_cli.rs:782-807 | the second loop, stopped anywhere by an error, has sent a beginning of the second half |
| `Tiers.TierPush.MutateCatalogTiers` | crates/copylocker-cli/src/admin_cli.rs:715-809 | whatever the server answers, what was sent is a beginning of the plan; a push that succeeds has sent all of it, and its counters account for every write and for every local tier exactly once |
| `Scheduler.JitterExact` | crates/copylocker-client/src/scheduler.rs:110-115 | the 128-bit product never saturates |
| `Scheduler.JitterRange` | crates/copylocker-client/src/scheduler.rs:110-115 | jitter stays within 85 to 115 per cent up to truncation, until milliseconds run out |
| `Scheduler.JitterMonotone` | crates/copylocker-client/src/scheduler.rs:110-115 | jitter preserves order |
| `Scheduler.BackoffExact` | crates/copylocker-client/src/scheduler.rs:83-87 | saturation of the doubled wait is invisible behind the cap |
| `Scheduler.BackoffGrows` | crates/copylocker-client/src/scheduler.rs:75-91 | the nominal wait lies between the base and the cap, never shrinks, and is constant from the seventh failure |
| `Scheduler.RetriesGrow` | crates/copylocker-client/src/scheduler.rs:75-91 | so is the jittered delay for a fixed sample |
| `Scheduler.RetryWindow` | crates/copylocker-client/src/scheduler.rs:75-91 | a retry comes at least the least wait after now and at most 115 per cent of the cap after it, up to saturation of time |
| `Scheduler.RefreshExact` | crates/copylocker-client/src/scheduler.rs:56-73 | a refresh lands at the sampled fraction of its interval in whole seconds, cut off where milliseconds run out |
| `Scheduler.DelayExact` | crates/copylocker-client/src/scheduler.rs:93-101 | the scheduler sleeps for the poll interval or until the next attempt, whichever is shorter |
| `Scheduler.SleepsAfterSuccess` | crates/copylocker-client/src/scheduler.rs:56-101 | right after a success the delay is zero if and only if time is at its last second |
| `Scheduler.SleepsAfterFailure` | crates/copylocker-client/src/scheduler.rs:75-101 | right after a failure it is zero if and only if the attempt due at startup is still pending or time is at its last second |
| `Scheduler.PolledUntilDue` | crates/copylocker-client/src/scheduler.rs:27-50 | polls without hint or request change nothing before the attempt that is due, and the first one then attempts |
| `Scheduler.SuccessWaits` | crates/copylocker-client/src/scheduler.rs:56-73 | after a success that attempt is due at the sampled fraction of the refresh interval, at least a second away |
| `Scheduler.FailureWaits` | crates/copylocker-client/src/scheduler.rs:75-91 | after a failure it is due when the wait is over |
| `Scheduler.DisabledQuiet` | crates/copylocker-client/src/scheduler.rs:27-50 | after a poll without a credential plain polls never attempt |
| `Scheduler.StartupStillPending` | crates/copylocker-client/src/scheduler.rs:75-101 | a failure recorded before the first cycle is such a case |
| `Scheduler.LastAttemptRecorded` | crates/copylocker-client/src/scheduler.rs:27-54 | over any run the recorded moment is that of the last attempt |
| `Scheduler.HintsSpaced` | crates/copylocker-client/src/scheduler.rs:27-54 | over any run an attempt explained only by an online hint comes at least the minimum interval after the attempt before it, saturation included |
| `Scheduler.StartupOnce` | crates/copylocker-client/src/scheduler.rs:27-50 | after any attempt asked for, the attempt due at startup is never pending again |
| `Scheduler.OutageThrottled` | crates/copylocker-client/src/scheduler.rs:27-91 | however often it is polled and hinted at, a client whose requests all fail makes at most one attempt that nobody requested per least wait or minimum interval, whichever is shorter |
| `Scheduler.SchedulerState.constructor` | crates/copylocker-client/src/scheduler.rs:18-25 | a fresh schedule |
| `Scheduler.SchedulerState.ShouldAttempt` | crates/copylocker-client/src/scheduler.rs:27-50 | the answer and the new state are those of the specification |
| `Scheduler.SchedulerState.MarkAttempt` | crates/copylocker-client/src/scheduler.rs:52-54 | only the last attempt changes |
| `Scheduler.SchedulerState.RecordSuccess` | crates/copylocker-client/src/scheduler.rs:56-73 | failures are forgotten and the next attempt is set |
| `Scheduler.SchedulerState.RecordFailure` | crates/copylocker-client/src/scheduler.rs:75-91 | the failure is counted, saturating, and the next attempt is set |
| `Scheduler.SchedulerState.Disable` | crates/copylocker-client/src/scheduler.rs:103-107 | nothing is due any more |
| `Token.ValidTokenFormat` | crates/copylocker-cli/src/remote.rs:416-429 | accepts exactly the prefix followed by the unpadded base64url text of some 32 bytes |
| `Token.LetterValue` | crates/copylocker-cli/src/remote.rs:431-440 | the value table is the inverse of the base64url alphabet |
| `Token.LetterInOrder` | crates/copylocker-cli/src/remote.rs:431-440 | the alphabet is A to Z, a to z, 0 to 9, hyphen and underscore, in this order |
| `Token.EncodedThenDecoded` | crates/copylocker-cli/src/bootstrap.rs:147 | base64url text of any length decodes to the bytes it came from, and its padding bits are zero |
| `Token.DecodedThenEncoded` | crates/copylocker-cli/src/remote.rs:416-429 | canonical text of any length is the text of the bytes it decodes to |
| `Token.Generated` | crates/copylocker-cli/src/bootstrap.rs:147-150 | a generated token has the length, the prefix and the last letter the format asks for |
| `Token.TokenUnique` | crates/copylocker-cli/src/remote.rs:416-429 | two secrets never share a token |

## Left out

- Ticket.CheckTicket: requires the saturated clock difference to have a representable absolute value,
  as the source's `abs` does; `Ticket.ComparableExact` says when that fails. The methods of
  `ClientRuntime.Guarded` that read tickets carry the same requirement.
- Groups.OrderedGroups: visits the identifiers in any order, while the source visits them sorted; the
  result is stated for every order, not the particular one.
- Tiers.TierPush.MutateItem: the JSON body, the catalog version in the reply and retries of one request
  are not modelled; a server is assumed to overwrite a tier on write.
- Tiers.TierPush.MutateCatalogTiers: counters are unbounded, while the source saturates them at 64 bits.
- ClientTheorems.RestartSound: `construct` is modelled on values only, as the function `Restart`; key
  unsealing is a parameter of the host.
- Tiers.EveryWriteLegal: covers the limit-key rule of a catalog evolution, not the validation of groups
  and features or the advance of the version, which a tier push does not touch.
- Scheduler.OutageThrottled: attempts requested by the application or the state machine are not bounded,
  as the source does not bound them.
- Client.OpenMachineCredential: wrapped feature keys inside a credential are not modelled; material is
  its identifiers and session. `Client.OpenOfflineLicense` keeps the names of its wrapped keys only.
- Validation.Validate: requires, like the ticket check, a representable clock difference for the ticket in
  the reply; the flag that admits one validation at a time and the scheduler's bookkeeping are not modelled.
- Activation and deactivation as whole operations: their segments are modelled, their composition is not.
- Signature, KEM, AEAD and KDF internals, key wrapping and the key hierarchy: primitives.
- The CBOR codec and the offline armor: their decoders are parameters.
- HTTP transport, file storage, watch channels, timers and atomics around the scheduler: plumbing; their
  outcomes are parameters.
- `Effect::Persist`: never emitted by the state machine.
- Key derivation itself, unsealing and challenges: only when the client may derive is modelled.
- Pushing features, limits and groups themselves, and the retention check before a push: one write per
  item, easy.
- Server-side policy, seats and storage: only the catalog evolution rule that the tier push has to meet.
- Foreign-function bindings, the dashboard, TypeScript and build tooling: no algorithmic core.
