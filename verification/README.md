# Verified models of the app's protocols and byte-level code

The app keeps SSH sessions, shared bastion connections, VPN tunnels, a local SOCKS proxy and a CI
runner behind one desktop process. This project models the parts of it that hold state across
goroutines and windows or that work on bytes, and proves what they keep.

Each module follows one part of the program. Where the program updates an object in place, a class
with the same fields does so here, one method per critical section of its lock; the method is proved
to take exactly one step of a transition system, and the lemmas are about every run of that system,
that is, about every interleaving of the critical sections with timers, ended connections and closes
that happen after the lock is released.

| module | part |
|---|---|
| JumpPoolModel, JumpPoolProofs, JumpPoolTimers, JumpPool | the pool of shared bastion connections: reference counts, single-flight builds, waiters, idle linger, watcher, shutdown |
| TabDragModel, TabDragProofs, TabDragSlot, TabDrag | moving a tab's sessions between windows |
| CiRunnerModel, CiRunnerProofs, CiRunner | saving the CI runner settings (journalled vault writes, ids, secrets behind markers) and building the runner's config from them |
| Socks, DialBudget, CollapseRoutes | the SOCKS5 server side, the time shares of its dial loop, route collapsing |
| LoginHold | the hold on VPN logins asked for by proxy clients |
| Batcher | the ring buffers of the tcpdump and log-tail streams |
| ShellQuote, JumpChain | quoting for `bash -c` against POSIX word splitting; the `-J` chain and its hop parser |
| Utf8 | text of a capped read, against RFC 3629 |
| Closure | folders under a folder, three ways |
| FleetDirs, FileNames | one download folder per host; cleaned file names and what the platforms make of them |
| Wrappers, Text | option and result types; trimming and decimal numbers |

## What the proofs found

- **Bastion pool.** Cleanup runs at most once for every built chain, `stopAll` anywhere. A failed build
  deletes its key without looking whose entry the key holds now (app_jumppool.go:152). A step leaves a
  built chain outside the pool open until its own connection ends exactly when that delete hits another
  build's usable entry (LeaksExactlyByForeignDrop); it cannot happen before `stopAll`, and LeakAfterStopAll
  is a run in which it does. Once that connection ends, its watcher cleans the chain up exactly once
  (EndedChainsAreCleanedUp). Two builds of one key are in flight exactly after a look-up that finds the key
  missing while one is (OneBuildRunExactly), which takes a `stopAll` too. Who joins an idle chain stops its
  linger for good (ReacquireCancelsLinger), unless the callback runs already: waiting for the lock while a rider
  comes and goes, it closes the chain although its new linger has only begun. An idle chain is closed early
  exactly like that (ClosesEarlyExactly, LateCallbackClosesEarly).
- **Tab drag.** Accepting a drag keeps every session with one owner exactly when the drag's sessions are
  still with its source or with main (AcceptKeepsOwnershipExactly). The code refuses only sessions still in
  flight. Dragging a tab again during its transfer leaves a second drag pending; once the first is done and the
  session has moved on, accepting the second lets a closing window end a session in flight
  (ClosingEndsInFlight), or a session end twice (EndedTwice). A run is safe exactly when all its accepts meet
  the guard (SingleOwner), as they do when nothing cuts across a pending drag (UndisturbedRunsAreOwned). That
  each accepted drag is settled at most once holds in every run (DragsSettleOnce). A tab sent to a window whose
  close has just taken its sessions stays with that window; no other step does this (GoneRunExactly, SentToGone).
- **CI runner.** A cache marker with space around it is taken for the marker when saving, which trims, and
  not when building, which compares exactly: the runner then gets the padded marker as its secret. The round
  trip of cache secrets holds exactly when no marker is padded (SecretRoundTrip, PaddedMarkerReachesRunner). When the token is emptied and the
  delete after the save fails, the old token stays in the vault and is used; in all other cases the runner gets
  exactly the promised token (TokenRoundTrip, EmptiedTokenStaysInUse).
- **Jump chain.** A hop with the default port whose host ends in a colon and a number, such as `::1`, is read
  back with that number as its port. The round trip holds exactly when no hop is like that (ChainRoundTrip).
- **Download folders.** The cleaned names are meant to be legal on Windows too. They are exactly when the part
  before the first dot is no device name missing from the list: one with a space behind it, `CONIN$`, `CONOUT$`,
  or one with a superscript digit (SafeOnWindows, ConWithSpace). Nothing limits their length (AnyLengthStays).
- **SOCKS.** The server does not look at VER and RSV of the request; ServeDecodes and ServeOnlyAdmitted hold
  for every value of both.

## Model

| member | source | states |
|---|---|---|
| JumpPool.JumpEntry.Close | app_jumppool.go:55-61 | the close-once guard is spent, and cleanup ran now only if the guard was unused and there was one |
| JumpPool.JumpPool.LookUp | app_jumppool.go:138-172 | the first critical section of an acquire takes the model's step: wait for the key's entry or enter a new one to build |
| JumpPool.JumpPool.FailBuild | app_jumppool.go:147-156 | a failed or jump-less build records its error, whether its caller cancelled it, and drops whatever the key holds |
| JumpPool.JumpPool.PublishBuild | app_jumppool.go:157-169 | a built chain becomes usable and ridden by its builder, or is refused when the entry has left the pool |
| JumpPool.JumpPool.CleanUpOrphan | app_jumppool.go:157-163 | the builder that found its entry gone runs the cleanup itself |
| JumpPool.JumpPool.Join | app_jumppool.go:180-202 | a waiter gets the client of an entry in the pool and stops its linger timer, or gets the build's error, or another round |
| JumpPool.JumpPool.Leave | app_jumppool.go:212-236 | one reference less; the last rider of an entry in the pool arms a new linger timer |
| JumpPool.JumpPool.Release | app_jumppool.go:204-212 | called again, release changes nothing |
| JumpPool.JumpPool.Fire | app_jumppool.go:223-225 | a timer's callback starts; from then on stopping it has no effect |
| JumpPool.JumpPool.RunLinger | app_jumppool.go:223-235 | the linger callback drops and closes its entry only if it is idle and still in the pool |
| JumpPool.JumpPool.DropEnded | app_jumppool.go:243-260 | an ended bastion leaves the pool, its timer stopped, and is closed after unlock |
| JumpPool.JumpPool.StopAll | app_jumppool.go:281-292 | shutdown takes the whole map and has every entry in it closed |
| JumpPool.JumpPool.CloseEntry | app_jumppool.go:55-61 | a close after unlock counts one cleanup only for a built chain whose guard was unused; stopAll's stops the entry's timer first |
| JumpPool.JumpPool.Peek | app_jumppool.go:263-277 | gives a client exactly for a key whose entry is usable, and changes nothing |
| JumpPoolProofs.InvStep | app_jumppool.go:127-292 | every step of every goroutine keeps the pool's invariant |
| JumpPoolProofs.InvRun | app_jumppool.go:127-292 | the invariant holds after every run, shutdown at any point included |
| JumpPoolProofs.CleanupAtMostOnce | app_jumppool.go:55-61 | in every run each chain is cleaned up at most once, only if it was built, and refs is the number of riders that have not released |
| JumpPoolProofs.LastsRun | app_jumppool.go:137-202 | a finished build's outcome never changes, an entry that left the pool never comes back and only loses riders |
| JumpPoolProofs.LingerCloseIsFinal | app_jumppool.go:223-236 | a linger callback that closes, stale or not, finds no rider, and nobody rides that entry ever after |
| JumpPoolProofs.WaiterOutcome | app_jumppool.go:173-197 | the only ways out of waiting: a ride on an entry in the pool, the build's outcome, the waiter's own cancel, or another round after a cancelled build or when the built entry has left the pool |
| JumpPoolProofs.BuildOutcomeReachesAll | app_jumppool.go:147-185 | however late they look, builder and waiters get exactly what the build returned; a cancelled build ends only its builder |
| JumpPoolProofs.LeaksExactlyByForeignDrop | app_jumppool.go:147-156 | a step leaves a built chain outside the pool open until its connection ends, nobody being about to close it, if and only if it is a failed build deleting another build's usable entry |
| JumpPoolProofs.LeakFreeExactly | app_jumppool.go:147-156 | a whole run is free of such leaks if and only if no failed build of it deletes another build's usable entry |
| JumpPoolProofs.EndedChainsAreCleanedUp | app_jumppool.go:243-260 | for every run: a chain whose connection has ended and been dropped is cleaned up exactly once, the ones a foreign delete took out of the pool included |
| JumpPoolProofs.BeforeStopAll | app_jumppool.go:137-156 | before shutdown no chain leaks, every build in flight has its entry in the pool, and there is one build per key |
| JumpPoolProofs.OneBuildExactly | app_jumppool.go:139-146 | a step keeps at most one build per key in flight if and only if it is not a look-up of a key missing from the map while a build of it is in flight |
| JumpPoolProofs.OneBuildRunExactly | app_jumppool.go:139-146 | and so for every state of every run, shutdown anywhere |
| JumpPoolProofs.EveryChainAccountedFor | app_jumppool.go:186-236 | before shutdown a built chain is in the pool with riders, idle there with a timer armed or fired, or out of it and closed or about to be |
| JumpPoolProofs.ExactlyOneCleanup | app_jumppool.go:55-61 | for every run, once closers are done: an orphaned chain and one whose connection has ended were cleaned up exactly once, one in the pool is open, and without a foreign delete every chain outside the pool was cleaned up exactly once |
| JumpPoolProofs.TwoBuildsAfterStopAll | app_jumppool.go:281-286 | a run after which two builds of one key are in flight |
| JumpPoolProofs.LeakAfterStopAll | app_jumppool.go:152 | a run that ends with an idle open chain outside the pool that only its watcher will close, once the connection ends |
| JumpPoolTimers.TimerMovesExactly | app_jumppool.go:191-260 | what every step does to every timer: it fires and runs by its own steps, is stopped if and only if its idle entry is joined, ends, or is closed by shutdown, and nothing else touches it |
| JumpPoolTimers.TimerStartsExactly | app_jumppool.go:212-223 | a timer starts if and only if the last rider leaves an entry in the pool, for that entry |
| JumpPoolTimers.NoTimerWhileRidden | app_jumppool.go:191-223 | in every run an armed timer is its entry's own and only one, and nobody rides that entry |
| JumpPoolTimers.ReacquireCancelsLinger | app_jumppool.go:191-194 | a timer that was armed when a waiter joined its entry never fires in any later run |
| JumpPoolTimers.ClosesEarlyExactly | app_jumppool.go:223-236 | a linger callback closes an idle entry while a linger of it still runs if and only if it is not the entry's current timer and that one has not fired |
| JumpPoolTimers.LateCallbackClosesEarly | app_jumppool.go:223-236 | a run in which that happens |
| TabDrag.TabWindows.RemoveStrings | app.go:8141-8156 | the list without the dropped elements, in order |
| TabDrag.TabWindows.DetachTabAt | app.go:7788-7796 | the new window owns the detached tab's sessions |
| TabDrag.TabWindows.StartTabDrag | app.go:7925-7930 | the drag replaces whatever was pending |
| TabDrag.TabWindows.AcceptTabDrag | app.go:7934-7974 | empties the slot, refused or not; takes a drag out of its source into flight under its id, or refuses it when a session of it is in flight; a sent tab is handed over with nothing moved |
| TabDrag.TabWindows.TabDragDone | app.go:7980-7990 | settles an accepted drag once; its sessions are main's |
| TabDrag.TabWindows.TabDragFailed | app.go:7996-8015 | sessions go back to the open source, or are to be ended once |
| TabDrag.TabWindows.CancelTabDrag | app.go:8026-8036 | clears exactly the drag with this id and says whether it did; otherwise the slot is as it was |
| TabDrag.TabWindows.DropTabDragFrom | app.go:7912-7918 | clears a pending drag of a closing window and no sent tab |
| TabDrag.TabWindows.BeginClose | app.go:7804-7810 | the first half of the closing handler |
| TabDrag.TabWindows.TakeClosed | app.go:7811-7817 | ends exactly the sessions in the window's list |
| TabDrag.TabWindows.BeginCloseSelf | app.go:7894-7900 | a redocked window gives up its list without ending anything |
| TabDrag.TabWindows.SendMove | app.go:8115-8128 | the sent sessions leave the caller's list and join the target's |
| TabDrag.TabWindows.SendStash | app.go:8129-8131 | the sent tab waits in the pending slot without a drag id |
| TabDragProofs.MovesExactly | app.go:7804-8138 | every step moves exactly its own sessions to exactly one place and no other session anywhere |
| TabDragProofs.MainMovesExactly | app.go:7804-8138 | the same for what main holds by nobody else holding it |
| TabDragProofs.OwnedStep | app.go:7804-8138 | a step keeps every session in one place and ended at most once; an accept does under its guard |
| TabDragProofs.SettledStep | app.go:7934-8036 | every step, an unguarded accept included, leaves each accepted drag uncancelled and in flight, done or failed, one of the three |
| TabDragProofs.DragsSettleOnce | app.go:7934-8036 | in every run accept and cancel exclude each other per drag id, each accepted drag is settled at most once, and what is settled stays settled |
| TabDragProofs.AcceptKeepsOwnershipExactly | app.go:7934-7974 | accepting keeps single ownership if and only if the drag's sessions are with its source or main |
| TabDragProofs.SingleOwner | app.go:7804-8138 | for every run: each session has one owner in all its states if and only if all its accepts meet that guard |
| TabDragProofs.QuietStep | app.go:7804-8138 | a step that does not cut across the pending drag keeps the guard true |
| TabDragProofs.UndisturbedDragsAreGuarded | app.go:7934-7974 | in a run where nothing cuts across a pending drag every accept meets the guard |
| TabDragProofs.UndisturbedRunsAreOwned | app.go:7804-8138 | in a run where nothing cuts across a pending drag each session has one owner in every state |
| TabDragProofs.GoneRunExactly | app.go:8107-8128 | in every state of a run no window whose close took its sessions holds any, if and only if no tab is sent to one |
| TabDragProofs.SentToGone | app.go:8107-8128 | a run in which a tab is sent to a window just closed and its session stays with it |
| TabDragProofs.DraggedTwiceIsReachable | app.go:7954-7966 | a tab can be dragged again while its transfer is under way |
| TabDragProofs.ClosingEndsInFlight | app.go:7804-7817 | from there a run in which closing a window ends a session in flight |
| TabDragProofs.EndedTwice | app.go:7996-8015 | and one in which a session is ended twice |
| TabDragModel.RemoveInOrder | app.go:8141-8156 | what is left of a list keeps its order |
| TabDragSlot.SlotExactly | app.go:7908-8132 | what every step leaves in the pending slot: a newer tab, nothing when the tab is taken, cancelled by its own id or its source closes, else what was there |
| TabDragSlot.OtherCancelChangesNothing | app.go:8026-8033 | cancelling a drag that is not the pending one changes nothing at all |
| TabDragSlot.DragIsHandedOver | app.go:7925-7974 | over runs: a started drag is what an accept gets, late cancels of other drags included, until a newer tab, another accept, its own cancel or the close of its source; the accept takes exactly its sessions out of the source |
| TabDragSlot.SentTabIsHandedOver | app.go:8115-8132 | over runs: the accept gets the sent sessions, which are with the target before and after it, whatever windows close and drags are cancelled in between |
| TabDragSlot.FailedTransferReturns | app.go:7996-8015 | over runs: a transfer that fails any time after its accept gives exactly the drag's sessions back to its source, behind those it shows, or ends exactly them when it has closed |
| TabDragSlot.ListedExactly | app.go:7788-8128 | a window has a list from opening with sessions or being sent a tab until its close takes it, an empty list included |
| CiRunnerModel.KeyInjective | app_cirunner.go:116-298 | vault keys of different runners or different secrets differ, whatever the ids contain |
| CiRunner.VaultJournal.Put | app_cirunner.go:251-267 | the journal remembers the first earlier value of every key it may have changed, failing writes included |
| CiRunner.VaultJournal.Rollback | app_cirunner.go:269-281 | in any order, every key whose restoring call works holds exactly what it held before, and no key that existed is deleted |
| CiRunner.App.CopySecrets | app_cirunner.go:216-238 | puts every secret of one runner under another id and reports the keys copied |
| CiRunner.App.StashCacheSecrets | app_cirunner.go:313-347 | typed secrets go to the vault trimmed, markers stay only for secrets it holds, emptied ones' keys are reported |
| CiRunner.App.SaveBlock | app_cirunner.go:537-587 | one block of a save does what the model says, id, takeover, token and cache |
| CiRunner.App.SaveBlocks | app_cirunner.go:535-587 | the same for the whole file, in order |
| CiRunner.App.PutTokens | app_cirunner.go:604-608 | all typed tokens are in the vault, in whatever order |
| CiRunner.App.SaveSetting | app_cirunner.go:609-612 | the setting changes only by a write before which nothing was deleted from the vault |
| CiRunner.App.CleanUp | app_cirunner.go:613-617 | a failed delete leaves its key, others are gone, nothing else changes; without a failure all are gone |
| CiRunner.App.TrySet | app_cirunner.go:474-622 | a save completes, or leaves the setting as it was with nothing deleted; it fails without a vault failure only for an unacceptable config or a missing new id |
| CiRunner.App.CIRunnerSet | app_cirunner.go:461-622 | a failed save restores setting and vault; a successful one leaves the saved blocks and the vault the lemmas speak of; while no vault call and no new id fails, exactly the acceptable saves go through and everything to delete is deleted |
| CiRunner.App.FillCacheSecrets | app_cirunner.go:367-387 | exact markers are replaced by the vault's value, everything else is kept; only a vault failure makes it fail |
| CiRunner.App.BuildToml | app_cirunner.go:1179-1235 | every block is built with its own id's token and secrets, exactly when the config is usable, every docker block's token is held and no vault call fails; without an imported file it is the form's one runner, url and name in their places |
| CiRunnerProofs.FinalIdsDistinct | app_cirunner.go:537-560 | after a save all runner ids differ, copied blocks included |
| CiRunnerProofs.SavedBlock | app_cirunner.go:537-587 | what each saved block holds, from the block typed and the vault before, a token's marker exactly for a token the runner has |
| CiRunnerProofs.WrittenSlot | app_cirunner.go:537-608 | what the vault holds for each secret of each block after all puts |
| CiRunnerProofs.CleanupSparesUsed | app_cirunner.go:613-617 | no cleanup delete hits a key a saved block still uses |
| CiRunnerProofs.DeletesExactly | app_cirunner.go:550-617 | the keys a save deletes are exactly those of emptied tokens, of emptied cache secrets the vault held, and of secrets taken over from an index |
| CiRunnerProofs.OtherKeysStay | app_cirunner.go:604-617 | every key of the vault that is none of the saved runners' and was not taken over is as it was, the form's token included |
| CiRunnerProofs.FinalSlot | app_cirunner.go:537-617 | whichever deletes worked, a secret not emptied is in the vault with its promised value |
| CiRunnerProofs.TokenRoundTrip | app_cirunner.go:1215-1235 | save then build, whatever cleanup deletes failed: a docker block gets exactly the token typed or held, or none, if and only if no emptied token stays in the vault; one that stays is the token it gets |
| CiRunnerProofs.CleanSaveKeepsPromises | app_cirunner.go:604-617 | when the cleanup deletes all it should, every docker block is built with exactly the promised token |
| CiRunnerProofs.CleanSaveForgets | app_cirunner.go:550-617 | and then no emptied secret is left in the vault, nor any key of an index a block took over |
| CiRunnerProofs.BuiltAsSaved | app_cirunner.go:1179-1235 | url, name and executor reach the built runner as they were typed |
| CiRunnerProofs.StrangerGetsNothing | app_cirunner.go:502-556 | a block without an id of its own that differs in url, name or place from the stored one inherits nothing: it is built only with a typed token, and with no cache secret but typed ones |
| CiRunnerProofs.CopiedBlockLosesMarkers | app_cirunner.go:540-545 | a block copied with its id keeps no marker, whatever the vault holds under its new id |
| CiRunnerProofs.MigrationKeepsRunners | app_cirunner.go:548-556 | a config stored before ids, saved again as it is, builds every runner exactly as before |
| CiRunnerProofs.EmptiedTokenStaysInUse | app_cirunner.go:613-617 | a save whose emptied token stays in use because its delete failed |
| CiRunnerProofs.SecretRoundTrip | app_cirunner.go:367-387 | and with exactly its typed or earlier cache secrets, if and only if no marker was padded with space |
| CiRunnerProofs.PaddedMarkerReachesRunner | app_cirunner.go:320-329 | a save whose runner is built with the padded marker in place of its key |
| CiRunnerProofs.SecretsStayTrimmed | app_cirunner.go:320-343 | the secrets stay trimmed from save to save |
| CiRunnerProofs.RunnersReadOwnKeys | app_cirunner.go:187-192 | no two built runners read the same vault key |
| CiRunnerProofs.RearrangingChangesNothing | app_cirunner.go:537-617 | reordering or removing saved blocks and saving again builds every remaining runner as before |
| CiRunnerProofs.FormRoundTrip | app_cirunner.go:600-608 | without an imported file the typed token reaches the form's runner |
| Socks.Conn.ReadSOCKSAuth | app_localproxy.go:608-626 | reads exactly one RFC 1929 request, or stops where the input ends or is wrong |
| Socks.Conn.Handshake | app_localproxy.go:394-430 | greeting and login: what is read, what is written, when it goes on |
| Socks.Conn.Request | app_localproxy.go:431-472 | the request: destination, bytes read, refusal replies 7 and 8 |
| Socks.Conn.ServeSOCKS | app_localproxy.go:394-476 | the handler up to the pick does exactly what Serve says of the stream |
| Socks.ServeDecodes | app_localproxy.go:394-476 | a well-formed client with the offered method and right credentials gets its exact IPv4, IPv6 or named host and port recovered, payload untouched |
| Socks.ServeOnlyAdmitted | app_localproxy.go:394-476 | pick is reached only for a stream that begins with such a client's handshake |
| Socks.MethodRefused | app_localproxy.go:404-417 | a client that does not offer the method is sent 5 255, and nothing more is read |
| Socks.WrongVersion | app_localproxy.go:396-399 | a greeting of another version is not answered |
| Socks.LoginRefused | app_localproxy.go:419-428 | wrong credentials are sent failure, 1 1, and nothing more is read |
| Socks.LoginVersionRefused | app_localproxy.go:608-612 | a login of another version is not answered |
| Socks.CommandRefused | app_localproxy.go:431-439 | any command but CONNECT is refused with reply 7 after the login's replies |
| Socks.AddressTypeRefused | app_localproxy.go:441-465 | an unknown address type is refused with reply 8 |
| Socks.CutShort | app_localproxy.go:394-470 | a client cut off at any byte of its handshake is sent exactly what the part before earns, and pick is not asked |
| DialBudget.NextBudget | app_localproxy.go:531-543 | an attempt that ends by its deadline leaves at least as large a share to the next |
| DialBudget.SomeIsLeft | app_localproxy.go:531-543 | while another address is left, an attempt cannot use up all the time |
| DialBudget.DialInTurn | app_localproxy.go:531-543 | stops at the first address that answers, and connects if and only if one does while there is time; each attempt's budget is its share of the time really left, shares never decrease, each is at least the n-th part of the total, which is never exceeded, and without an answer every address is tried |
| CollapseRoutes.CollapseRoutes | app_localproxy.go:728-752 | returns the prefixes no other input prefix covers, ordered by their text |
| CollapseRoutes.WithinMeansCovers | app_localproxy.go:739-743 | the loop's test of length and address holds exactly when every address of the one prefix is in the other |
| CollapseRoutes.SameAddresses | app_localproxy.go:739-746 | the kept prefixes cover exactly the addresses the input covered |
| CollapseRoutes.KeptAreApart | app_localproxy.go:739-746 | no two kept prefixes share an address |
| CollapseRoutes.KeptAreFewest | app_localproxy.go:725-752 | no other choice of input prefixes with the same addresses has fewer |
| CollapseRoutes.CollapsingAgainChangesNothing | app_localproxy.go:728-752 | collapsing the result of a collapse gives the same list |
| CollapseRoutes.OrderedUnique | app_localproxy.go:747-752 | the result depends only on which prefixes the input names, not on order or duplicates |
| LoginHold.LoginHolds.StartMutex | app_loginhold.go:67-73 | every profile has one start mutex, its own and always the same |
| LoginHold.LoginHolds.LoginUps | app_loginhold.go:87-91 | reads the number of successful starts: the start's next step in its profile's system |
| LoginHold.LoginHolds.LoginHeld | app_loginhold.go:95-108 | takes the hold check's step for its profile and counts a refusal |
| LoginHold.LoginHolds.HoldAfterLogin | app_loginhold.go:112-135 | takes the step of a failed login for its profile, touches no other hold, and tells the user exactly when it sets a new one, for a login error no success came after |
| LoginHold.LoginHolds.TunnelStarted | app_loginhold.go:138-147 | takes the step of a successful start: one more success, and the hold is gone |
| LoginHold.LoginHolds.EnsureTunnelFromProxy | app_loginhold.go:63-85 | a start nothing comes between is refused exactly when the tunnel is down and the profile held, leaves a hold exactly when its login did not finish, and touches no other profile |
| LoginHold.InvStep | app_loginhold.go:63-147 | every step of proxy starts, successes and losses keeps the hold's invariant |
| LoginHold.OneFailedLoginPerInterval | app_loginhold.go:63-85 | between two successes at most one serialized start that found the tunnel down fails its login; a failure older than a success leaves no hold |
| LoginHold.RefusedWhileHeld | app_loginhold.go:63-85 | for every run without a success from a held profile: it stays held, no start still to come or not past the hold check logs in after finding the tunnel down, and one that found it down is waiting at the check or refused |
| LoginHold.RefusedExactly | app_loginhold.go:63-85 | for every run: a proxy start is refused if and only if it found the tunnel down under the mutex and then the profile held; one that finds it running never is |
| LoginHold.FailureCounts | app_loginhold.go:112-124 | a login that did not finish holds the profile exactly when no start succeeded since it began, and is counted when it ran wholly since the last one |
| LoginHold.TurnsWhileDown | app_loginhold.go:63-75 | once the tunnel is lost, every client before the next successful start takes the mutex |
| LoginHold.FastWhileUp | app_loginhold.go:63-66 | from a success until the tunnel is lost, every client goes ahead without it |
| LoginHold.NoLoginAfterFailure | app_loginhold.go:63-135 | after the one failure of an interval and until the next success, only a start of an earlier interval that was logging in already still is |
| Batcher.BatchRing.OnLine | app.go:8572-8583 | one arrival takes the capture's step, indices in bounds |
| Batcher.BatchRing.ReadBack | app.go:8590-8595 | the ring reads back the kept items oldest first |
| Batcher.BatchRing.Flush | app.go:8869-8891 | a flush sends exactly the newest items that fit, the count of the others and the total, or nothing when nothing arrived; nothing is left pending |
| Batcher.CountsAddUp | app.go:8572-8607 | emitted, skipped and pending items are all that arrived |
| Batcher.TotalsAreCumulative | app.go:8596-8606 | each batch's total counts everything up to its flush |
| Batcher.BatchesAreTails | app.go:8552-8607 | each batch is, in order, the newest items that fit of exactly those that arrived between its flush and the one before, the rest counted as skipped |
| ShellQuote.Quote | app.go:5054-5063 | the loop builds the quoted line |
| ShellQuote.EscapedReadsBack | app.go:5060 | inside single quotes the escaped argument is read as the argument |
| ShellQuote.ShellReadsBack | app.go:5054-5063 | POSIX word splitting of the quoted line gives back exactly the arguments, empty ones and quotes included |
| JumpChain.FormatJumpChain | app.go:5088-5101 | the loop prints the chain's pieces joined by commas |
| JumpChain.BuildJumpChainFromHops | app.go:1117-1147 | the right-to-left loop builds the chain of the parsed hops |
| JumpChain.SplitJoin | app.go:5100 | splitting at the commas gives the printed pieces back |
| JumpChain.PieceReadsBack | app.go:1152-1166 | a printed hop is parsed to the same user, host and port if and only if its port is printed or its host does not end like a port |
| JumpChain.ChainRoundTrip | app.go:1117-1166 | printing, splitting and parsing a chain of any length gives the same hops in the same order, exactly when no hop is ambiguous |
| JumpChain.HopReads | app.go:1152-1166 | in a hop the user ends at the first at sign, and a number behind the last colon is the port if and only if it is from 1 to 65535; otherwise it stays with the host |
| JumpChain.SpaceAroundHop | app.go:1153 | space around a hop makes no difference |
| JumpChain.SignedPort | app.go:1159-1160 | a plus sign before the port is read over, a negative number is no port |
| JumpChain.BareColonHostBreaks | app.go:1159-1163 | the chain of one host `::1` does not come back |
| Utf8.ValidMeansEncoded | app_mcp_files.go:288 | the byte test accepts exactly the RFC 3629 encodings of sequences of characters |
| Utf8.DecodeEncoded | app_mcp_files.go:288 | text is the encoding of one sequence of characters only |
| Utf8.TextPrefix | app_mcp_files.go:287-300 | reported text is the longest valid prefix, at most 3 bytes short and only for a truncated read; none is reported exactly when there is none that close |
| Utf8.WholeIsLongest | app_mcp_files.go:284-286 | the whole characters in the first n bytes are the longest valid prefix and at most 3 bytes short of n |
| Utf8.CappedReadKeepsWholeCharacters | app_mcp_files.go:284-300 | a capped read of text gives exactly its whole characters |
| Closure.Subtree | app.go:1787-1804 | the breadth-first search ends on any data and finds exactly the folders reachable by child edges |
| Closure.GrowSensitive | app_mcp.go:955-964 | so does the grow-until-stable loop of the sensitivity test |
| Closure.GrowFacts | app_mcp_facts.go:132-141 | and that of the facts scope |
| Closure.ClosedIsBelow | app.go:1793-1804 | a set with the root, closed under children and holding only reachable folders is the reachable set |
| Closure.BelowByParent | app_mcp.go:957-963 | a folder is under root exactly when it is root or one of its parents is under root |
| FleetDirs.FirstFreeName | app_fleet_transfer.go:181-184 | the suffix loop ends and gives the first candidate nobody has, ignoring case |
| FleetDirs.FleetHostDirs | app_fleet_transfer.go:175-188 | every id gets the first free name in host order; names of different ids differ ignoring case and are cleaned |
| FleetDirs.AssignedDistinct | app_fleet_transfer.go:181-185 | no two assigned names are equal ignoring case |
| FleetDirs.AssignedOnce | app_fleet_transfer.go:175-188 | the names are determined by the hosts and their order |
| FleetDirs.AssignedFor | app_fleet_transfer.go:175-188 | a host gets its cleaned connection name, else its cleaned host name, else `host`: bare if no earlier folder has it, else with the first of -2, -3 and so on that none has |
| FleetDirs.AssignedCleaned | internal/ssh/fleetdownload.go:291-316 | every assigned name, suffixed ones too, has no reserved character, no dot or space at its end, and a stem that is none of the listed device names |
| FleetDirs.AssignedOnWindows | internal/ssh/fleetdownload.go:307-316 | Windows takes an assigned name as an ordinary one if and only if the host's name is no device name the list lacks, or a suffix without a dot before it saves it |
| FileNames.SafeIsCleaned | internal/ssh/fleetdownload.go:295-316 | the same three rules for every single name |
| FileNames.SafeExactly | internal/ssh/fleetdownload.go:295-316 | reserved characters become underscores in place, only dots and spaces are cut off the end, and an underscore is put in front exactly of a listed device name in any case, or of nothing |
| FileNames.CleanedStays | internal/ssh/fleetdownload.go:295-316 | a cleaned name stays as it is |
| FileNames.SafeOnWindows | internal/ssh/fleetdownload.go:291-316 | against Windows' own rule for device names: the result is an ordinary name if and only if the compared stem is no device name the list lacks |
| FileNames.SuffixOnWindows | app_fleet_transfer.go:182 | a number suffix takes a stem without a dot away from every device name and changes nothing behind a dot |
| FileNames.CleanedOnPosix | internal/ssh/fleetdownload.go:291-316 | the result is an ordinary name on POSIX systems |
| FileNames.ConWithSpace | internal/ssh/fleetdownload.go:309-311 | `CON .txt` passes the list and is a device to Windows |
| FileNames.AnyLengthStays | internal/ssh/fleetdownload.go:295-316 | names of any length are left as long as they are |

## Left out

Assumptions the lemmas state as hypotheses or as enabling conditions:

- Tab drag: drag ids are used once, a window moves only sessions it holds that are not in flight, drags only
  tabs it shows, a closing window starts no drag, and a window's name is used again only after its close.
- CI runner: new ids are fresh and 16 characters long, no id in the file is a block index such as `0`, and
  secrets found in the vault are trimmed.
- Fleet folders: lower-casing maps character by character and leaves digits and the hyphen alone.

Weaker than the program, or abstracted:

- CiRunner.VaultJournal.Rollback: a restoring call that itself fails leaves its key open, as in the program,
  which only logs it.
- CiRunner.App.BuildToml: the docker section, extra hosts, network mode and the hosts that stay direct are not
  modelled; a config.toml is its parsed runners, so TOML and JSON text are not part of this model.
- CiRunner.App.SaveBlock: the draft it passes on carries a copy of the vault for the specification only; the
  program reads the vault itself.
- LoginHold.OneFailedLoginPerInterval: speaks of serialized starts that find the tunnel down; a start that
  found it running goes ahead without the mutex, as in the program.
- CollapseRoutes.CollapseRoutes: parsing and printing prefixes is outside; the order of texts is a parameter,
  and the two sorts are by insertion, since the result does not depend on how they sort.
- Batcher.BatchRing.Flush: totals are unbounded where the program has 64-bit counters.
- ShellQuote.ShellReadsBack: the shell's reading covers one simple command line; expansions cannot occur,
  because no unquoted special character does.
- FileNames.SafeOnWindows: the length of a name is not part of being an ordinary one, since the program sets no
  limit.
- FleetDirs.FleetHostDirs: host names are sequences of characters; invalid UTF-8 in them is not modelled.
- Socks.Conn.Handshake: a failing write is ignored, as in the program, and deadlines are not modelled.

Not modelled:

- The acquire loop is its critical sections: which of them runs next is up to the run, so that a waiter is
  eventually served is not stated. The empty prefix key never enters the pool.
- Real time: timers fire at any moment after they are armed; only the dial shares use durations.
- The half second before a new window's closing handler is installed, events, notifications and log lines.
- The tab id and layout of a drag, and the splitting of session lists at commas.
- The relay after a SOCKS connect, the choice of a network for a host, and the tunnel start itself.
- Deleting the credentials of the folders found, and what the two folder scopes are used for.
- Adopting vault keys of older versions, and starting, stopping and routing the runner's containers.
- SSH, SFTP, SQLite, the vault's encryption and the window system, as effects outside the model.
- MCP, host-key and prompt replies: a reply slot can accept a second answer until it is unregistered, so
  there is no first-answer-wins law to state.
- Route synchronisation of the CI gateway after failed container commands, whose partial effects break its
  tidy invariants.
