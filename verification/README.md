# Linger client: a verified model

Linger is a self-hosted chat and voice program. Its desktop and phone clients keep
a sign-in alive, keep a gateway connection alive, keep small pieces of state across
crashes and refused writes, and edit a few files and lists. This project models that
logic in Dafny and proves what it is for.

The modules, by what they model:

- **The token source** (`client/src/lib/api.ts`, `RotatingTokens`). `Tokens` is the
  protocol: rotations, password changes and share-window asks as tasks, one step per
  stretch between two awaits, with a server that has one current refresh token and
  takes a spent one for a replay. `TokensSafety` has mutual exclusion, the absence of
  circular waits and settling; `TokensCoherence` has agreement with the server and
  the sign-out theorems, with the runs that show what the assumptions are for;
  `TokensOutcomes` has what each promise settles with.
  `TokenSource` is the object itself.
- **The gateway client** (`client/src-tauri/src/gateway.rs`). `Gateway` is `apply`,
  the backoff and the connection loop as a state machine over inputs. `GatewayRuns`
  has what every run keeps, `GatewayLoop` how the loop goes on, told from the inputs,
  `Replay` the replay marks, `GatewayRunner` the object.
- **Catching up** (`client/src/lib/catchup.ts`). `CatchUp`, and `GatewayViewer`,
  which composes it with the gateway: whatever a server sends, a late window ends at
  the owner's list of frames.
- **State that survives** crashes, refusals and a second program: `Seats`
  (`voice_away.rs`), `GpuProbe` (`linux_startup.rs`, `graphics.rs`), `Keyring`
  (`secrets.rs`), `ShareTable` (`share_window.rs`), `UpdateStore` (`updates.rs`).
- **Transformations**: `Rooms` (`host.ts`), `ExecLine` (`desktop_entry.rs`), and
  `missing` in `scripts/linux-audio-check.py`, samples as real numbers: `Audio` is what it
  computes and `AudioCheck` how; `AudioRead` is about reading faint stretches and
  `AudioSplice` about the walk over a cut recording; `AudioWhole`, `AudioLosses`, `AudioSeam`, `AudioDropout`,
  `AudioTail` and `AudioCrackle` have its answers for each kind of recording it is meant to
  tell apart, `AudioSound` and `AudioAnswer` what an answer says of any recording.

Where the source changes an object in place there is a class whose methods are proved
equal to a step of the specification, and the theorems are about runs of that
specification. `TokenSource.RotatingTokens` and `GatewayRunner.Runner` carry their run as
a ghost trace, so the theorems are stated of the objects as well (`Exclusive`,
`HeldIsTheServers`, `SignOutIsEarned`, `Guarantees`). `dafny verify dfyconfig.toml`
checks the whole project.

## What is assumed

- `TokensCoherence.Fair`: the server answers a refresh as its protocol says or fails
  without taking it; an answer that grants a pair arrives; a password change begins
  only when no other is under way (`OverlapLoses` is why). `MutualExclusion`,
  `NoCircularWait`, `Progress`, `EverythingSettles` and `SignsOutOverTheHeldToken` need
  none of this.
- `CatchUp.FreshIds`: no two `ready` frames carry the same session id. Delivery is in
  order, so listening from frame i, a snapshot at n and an answer at m have i <= n <= m.
- `GpuProbe.Fair`: the writes of a launch succeed, and draws are of the right launches
  (`DrawsWell`, which `DrawKeepsExactlyWhen` shows to be exact).
- `Keyring.Tidy`: the store is one the client's own saves and forgets left, with no entry
  from before the server list; `RunIsTidy` shows that every run leaves it so.

## Where the code does not do what a reader may expect

Each has a run that shows it and the exact condition under which the property holds.

- A renewal that resolves with nothing renewed, if `#changing` still held a change long
  over when its request failed: `LateCallbackResolves` is the run, `ResolvesExactlyWhen`
  the condition, and `PromptlyResolvesExactlyWhen` shows that callbacks on time, as promises
  have them, rule it out.
- A sign-out beside a password change that brings a pair, with never more than one change
  under way: a rotation refused while a change was out waits for that change, and if the
  change is refused too and a second one begins before the rotation wakes, the rotation
  signs out over it (`client/src/lib/api.ts:567-581` looks at the change it waited for, and
  not again at `#changing`). `SecondChangeTooSoon` is the run. `WrongSignOutExactlyWhen`
  is the condition: a fair run comes to where a rotation would sign out wrongly exactly
  when some change was begun while a rotation was about to sign out, refused the token
  still held and with the change it waited for over and nothing brought.
  `NoFalseSignOut` and `WrongExactlyWhen` say which sign-outs those are.
- Two password changes at once: from every coherent state with a change under way whose
  pair may still come, beginning another can leave the client holding a pair of a family
  the server has ended (`OverlapLoses`). With one at a time it never does (`AlwaysCoherent`).
- `graphics_started` clears the probe whatever its launch tried, and does not look at
  whether it could (`client/src-tauri/src/graphics.rs:59-64`), so "each WebKit dies at most
  once" is false for launches whose setting was made by hand: `HandSetLaunchForgets` is the
  run, `DrawKeepsExactlyWhen` the condition, `OtherDrawsShow` what every other draw leads to.
- An index the keyring cannot read counts as an empty one
  (`client/src-tauri/src/secrets.rs:202-207`). A save can then drop every other server
  (`UnreadableIndexForgets`), and a save that says Unavailable can have replaced the token
  that loads. `SaveSparesExactlyWhen` and `UnavailableChangesNothingExactlyWhen` give both
  conditions, `LoadsWhatWasPromised` the one for whole runs. A forget is not affected.
- `adopt_legacy` deletes the old entry even when the rewrite was refused
  (`client/src-tauri/src/secrets.rs:272-273`), so a sign-in can be lost on upgrade:
  `LegacyCarriesOver` says exactly when it is not.
- A save to a share table that could not be read, and that is not empty, loses the
  tokens in it: `ConservesExactlyUnless` for one change, `TokensConserved` for whole runs.
- `while_locked` goes on without a lock (`client/src-tauri/src/share_window.rs:128-130`):
  `WithoutTheLockAChangeIsLost` is the run, `SequentialExactlyWhen` the condition.
- `keep` does not look at whether the old record was removed
  (`client/src-tauri/src/updates.rs:327`): `UnremovedRecordLies` is the run,
  `KeepIsWholeExactlyWhen` the condition for one call, `AnsweredIsWhole` for whole runs.
- An `Exec=` line with settings in front goes through `env`, which takes a path with
  `=` in it for one more setting: `StartsTheProgram`.

## Model

| member | source | states |
|---|---|---|
| `TokensSafety.Always` | client/src/lib/api.ts:496-588 | Every interleaving, against any server: each wait is well placed, the one open rotation is the one `#refreshing` holds, asks settle oldest first, and a rotation and an open ask are always one behind the other |
| `TokensSafety.MutualExclusion` | client/src/lib/api.ts:496-588 | In every interleaving at most one refresh is in flight, never beside a share ask, and at most one ask is in flight |
| `TokensSafety.NoCircularWait` | client/src/lib/api.ts:500-568 | In every reachable state, following awaits from task to task goes strictly down a rank (changes lowest, then rotations and asks by age, then the renewals that follow one), so no chain of awaits comes back to where it began |
| `TokensSafety.Progress` | client/src/lib/api.ts:496-588 | In every reachable state with something unsettled, some task can go on or the server owes an answer |
| `TokensSafety.EveryStepCounts` | client/src/lib/api.ts:496-588 | Every step but a new call or an expiry strictly lowers a rank of the work outstanding |
| `TokensSafety.WindsDown` | client/src/lib/api.ts:496-588 | A run without new calls is no longer than that rank, and is itself a run of the protocol |
| `TokensSafety.EverythingSettles` | client/src/lib/api.ts:496-588 | With no new calls, once nobody can go on and nothing is at the server, every promise has settled |
| `TokensCoherence.ServeRotationKeeps` | crates/linger-server/src/auth.rs:400-484 | The server spending a refresh token, or refusing it, keeps client and server coherent |
| `TokensCoherence.ServeAskKeeps` | crates/linger-server/src/auth.rs:502-564 | The server proving a token without spending it keeps them coherent |
| `TokensCoherence.ServeChangeKeeps` | crates/linger-server/src/auth.rs:589-606 | A password change that ends every family and begins a new one keeps them coherent |
| `TokensCoherence.AlwaysCoherent` | client/src/lib/api.ts:496-588 | In every fair run the server's current token is the held one, the one a taken refresh brings, or the one a taken change brings, and every request out carries the held token or one of an older family |
| `TokensCoherence.HeldIsCurrent` | client/src/lib/api.ts:521-588 | In every fair run no spent token of the standing sign-in is ever presented, and with no refresh in flight and no change open the held token is the server's current one |
| `TokensCoherence.PresentsTheCurrentToken` | client/src/lib/api.ts:533-554 | With no change open, every refresh or ask at the server carries its current token, or one of a family already over |
| `TokensCoherence.NoFalseSignOut` | client/src/lib/api.ts:564-581 | In a fair run `onSignedOut` is called over the token still held; the sign-in is still alive at the server, or a change under way, exactly when the rotation has yet to wake from an earlier change than the one under way; and if alive, the pair on its way is the server's current one |
| `TokensCoherence.WrongExactlyWhen` | client/src/lib/api.ts:564-581 | After a fair run, waking a rotation would sign out wrongly, with the sign-in alive at the server or a change under way, exactly when it was refused the token still held, the change it waited for is over and brought nothing, and a later change is under way |
| `TokensCoherence.WrongSignOutExactlyWhen` | client/src/lib/api.ts:505-581 | A fair run comes to where a rotation would sign out wrongly exactly when some password change was begun while a rotation was about to sign out |
| `TokensCoherence.ReplaceCoheresExactlyWhen` | client/src/lib/api.ts:505-519 | Beginning a change keeps the invariant of the coherence theorems exactly when no other is under way |
| `TokensCoherence.OverlapLoses` | client/src/lib/api.ts:505-519 | From any coherent state with a change under way whose pair may still come, beginning a second can end with both over, the sign-in alive, and the held token of a family the server has ended |
| `TokensCoherence.SignsOutOverTheHeldToken` | client/src/lib/api.ts:564-581 | Against any server, `onSignedOut` is called only by the one rotation there is, on a refusal of the token still held, with no change pending or with one that brought nothing |
| `TokensCoherence.StepReplaces` | client/src/lib/api.ts:505-519 | A step replaces the held token only within its family by the rotation that spent it, or by a newer family |
| `TokensCoherence.PairNeverOverwritten` | client/src/lib/api.ts:552-563 | Over a fair run the family held never goes back: a change's pair is never overwritten by a rotation that spent an earlier token |
| `TokensCoherence.LostAnswerReplays` | client/src/lib/api.ts:551-563 | A run in which an accepted refresh's answer is lost ends with a replay and the sign-in revoked |
| `TokensCoherence.SecondChangeTooSoon` | client/src/lib/api.ts:567-581 | A fair run, with one change under way at a time, that is about to sign out with the second change's pair on its way |
| `TokensOutcomes.RejectsEmptyHanded` | client/src/lib/api.ts:544-588 | Against any server, a rotation rejects only with the held token still the one it spent, and no pair kept or reported |
| `TokensOutcomes.ResolvesWithAPair` | client/src/lib/api.ts:544-588 | Against any server, a rotation resolves only with a pair it just kept, one that came meanwhile, or one the change it waited for brought |
| `TokensOutcomes.ResolvesExactlyWhen` | client/src/lib/api.ts:544-588 | In a fair run a rotation resolves exactly when the token held just after is not the one it spent, or the change it waited for had brought that very one |
| `TokensOutcomes.PromptlyResolvesExactlyWhen` | client/src/lib/api.ts:544-588 | With promise callbacks on time: exactly when the token held just after is not the one it spent |
| `TokensOutcomes.LateCallbackResolves` | client/src/lib/api.ts:567-568 | A fair run in which a late callback lets a renewal resolve with nothing renewed |
| `TokensOutcomes.RenewalSettles` | client/src/lib/api.ts:500-501 | A renewal behind a change resolves with the change's pair, or settles as the rotation it followed did |
| `TokensOutcomes.RenewalGoesOn` | client/src/lib/api.ts:501 | It rotates, or joins the rotation out, exactly when the change brought nothing |
| `TokensOutcomes.ChangeSettles` | client/src/lib/api.ts:506-518 | A change settles with a pair exactly when its answer was one, which is then held and reported |
| `TokensOutcomes.AskSettles` | client/src/lib/api.ts:533-535 | An ask settles with the answer it got, and changes nothing else |
| `TokensOutcomes.AskIsGrantedExactlyWhen` | client/src/lib/api.ts:521-542 | In a fair run with no change under way, an ask of the standing family is granted exactly when the sign-in is alive |
| `TokensOutcomes.RenewSendsNothingDuringAChange` | client/src/lib/api.ts:498-501 | While a change is out a renewal sends nothing, and waits for it |
| `TokensOutcomes.RenewSendsAtOnce` | client/src/lib/api.ts:547-554 | With nothing out, a renewal sends the held token at once |
| `TokensOutcomes.AskWaitsForTheChange` | client/src/lib/api.ts:526-533 | An ask sends the held token, only after the change that was out when it had waited for the rest |
| `TokensOutcomes.HeldIsReported` | client/src/lib/api.ts:509-510 | Over every run, the token held is the last one reported to be saved |
| `TokenSource.RotatingTokens.Renew` | client/src/lib/api.ts:496-503 | Adds the renewal to the object's run, and hands back the rotation out, or the newest task |
| `TokenSource.RotatingTokens.Rotate` | client/src/lib/api.ts:544-588 | Starts a rotation behind the newest ask or spends at once; one already out is shared |
| `TokenSource.RotatingTokens.Replace` | client/src/lib/api.ts:505-519 | Starts a change and makes it the one `#changing` holds |
| `TokenSource.RotatingTokens.ShareSignIn` | client/src/lib/api.ts:521-542 | Queues an ask behind the ask and the rotation out at the call |
| `TokenSource.RotatingTokens.AskSettled` | client/src/lib/api.ts:538-540 | A settled ask clears `#asking`, as the protocol's event, only if the field still holds it |
| `TokenSource.RotatingTokens.ChangeSettled` | client/src/lib/api.ts:515-517 | A settled change clears `#changing`, as the protocol's event, only if the field still holds it |
| `TokenSource.RotatingTokens.RequestOver` | client/src/lib/api.ts:533-554 | Whatever the network and the server did to a request is the protocol's event |
| `TokenSource.RotatingTokens.ContinueRotation` | client/src/lib/api.ts:546-585 | One stretch of `#rotate` is the protocol's step, and signs out over the token held, if at all |
| `TokenSource.RotatingTokens.FailRotation` | client/src/lib/api.ts:569-583 | A rotation that ends without a pair signs out only on a refusal of the held token |
| `TokenSource.RotatingTokens.ContinueAsk` | client/src/lib/api.ts:526-535 | One stretch of an ask is the protocol's step |
| `TokenSource.RotatingTokens.ContinueChange` | client/src/lib/api.ts:506-512 | A change's answer is the protocol's step: its pair is kept, or nothing is |
| `TokenSource.RotatingTokens.ContinueRenewal` | client/src/lib/api.ts:500-502 | A renewal behind a change rotates only if the change brought no pair |
| `TokenSource.RotatingTokens.Exclusive` | client/src/lib/api.ts:469-588 | Of the object, whatever was called and answered: one refresh at most in flight, never beside an ask, and one ask at most |
| `TokenSource.RotatingTokens.HeldIsTheServers` | client/src/lib/api.ts:453-588 | Of the object after a fair run, with all settled: the held token is the server's current one and was never taken for a replay |
| `TokenSource.RotatingTokens.SignOutIsEarned` | client/src/lib/api.ts:564-581 | Of the object after a fair run: waking a rotation signs out wrongly exactly when a later change is under way |
| `GatewayRuns.ApplyCounts` | client/src-tauri/src/gateway.rs:546-653 | One frame counts nothing and keeps the place, or counts one number: a `ready`'s, or one more than the last, handed on unless its op is unknown |
| `GatewayRuns.EveryRunAccounts` | client/src-tauri/src/gateway.rs:313-653 | Over any number of sockets, against any server: an open session has a last sequence, the counted numbers are contiguous from each `ready`, and what was handed on is exactly what was counted less the unknown ops |
| `Gateway.Jittered` | client/src-tauri/src/gateway.rs:717-718 | The drawn delay lies between half of the base and all of it |
| `GatewayRuns.BaseDoubles` | client/src-tauri/src/gateway.rs:712-716 | The base is min(500 * 2^(attempt-1), 30000) ms, although the doublings stop at 16 |
| `GatewayRuns.DelayInBounds` | client/src-tauri/src/gateway.rs:708-718 | The delay is zero exactly at attempt 0, and otherwise between half of and all of min(500 * 2^(attempt-1), 30000) ms |
| `GatewayRuns.QuickRedialsBounded` | client/src-tauri/src/gateway.rs:313-539 | Over any run, redials without a delay number at most 1 + 2 readies + resumes + 2 retries |
| `GatewayRuns.StepKeeps` | client/src-tauri/src/gateway.rs:436-487 | A step keeps every leave in hand, or writes them all over a socket that is `ready` or `resumed`; only that clears the latch |
| `GatewayRuns.LeavesAreKept` | client/src-tauri/src/gateway.rs:442-526 | In every reachable state an accepted `leave_voice` is queued, latched or written |
| `GatewayLoop.AnswersExactly` | client/src-tauri/src/gateway.rs:546-653 | A frame ends its connection exactly when it is a hole or an `invalid_session`, and completes the handshake exactly when it is a numbered `ready` or a `resumed` |
| `GatewayLoop.SessionEndsExactlyWhen` | client/src-tauri/src/gateway.rs:351-372 | The session goes exactly with a hole, a refusal to resume, or a refusal for another reason than the token |
| `GatewayLoop.HoleRestarts` | client/src-tauri/src/gateway.rs:634-642 | After a hole there is no session, the loop is at its top, and nothing of the frame was handed on or counted |
| `GatewayLoop.RefusalKeeps` | client/src-tauri/src/gateway.rs:567-584 | What a refused session leaves: no session when resuming, no token after "unauthenticated", and otherwise no session |
| `GatewayLoop.NothingUntilReady` | client/src-tauri/src/gateway.rs:602-629 | Without a session, nothing is handed on until the next `ready`, over any run |
| `GatewayLoop.TokenForgottenExactlyWhen` | client/src-tauri/src/gateway.rs:317-322 | The token is forgotten exactly when the clock or the server, on an identify, refused it |
| `GatewayLoop.TokenComesExactlyWhen` | client/src-tauri/src/gateway.rs:515-521 | A token comes exactly with the frontend's command |
| `GatewayLoop.DialsWithAToken` | client/src-tauri/src/gateway.rs:317-326 | Over any run, a dial is made only with a token, and one is waited for only without |
| `GatewayLoop.EndsExactlyWhen` | client/src-tauri/src/gateway.rs:466-471 | The loop ends exactly on a shutdown taken or a handle dropped |
| `GatewayLoop.AttemptCountsFailures` | client/src-tauri/src/gateway.rs:495-539 | Over any run, the attempt the delay doubles with counts the failures since the last `ready`, `resumed` or honoured retry |
| `GatewayLoop.StepTries` | client/src-tauri/src/gateway.rs:495-507 | A failure counts one more and waits, unless it is the first since |
| `GatewayLoop.SocketIsAsTold` | client/src-tauri/src/gateway.rs:427-465 | Over any run, an open socket is live exactly since a `ready` or `resumed` on it, and has the heartbeats unanswered that the inputs say, never more than two |
| `GatewayLoop.TakenInOrder` | client/src-tauri/src/gateway.rs:146-182 | Over any run, commands are taken in the order they were posted, 32 waiting at most |
| `GatewayRunner.Runner.Post` | client/src-tauri/src/gateway.rs:146-182 | A full queue answers false and takes nothing |
| `GatewayRunner.Runner.ApplyFrame` | client/src-tauri/src/gateway.rs:546-625 | Folding a frame in place is `Apply` |
| `GatewayRunner.Runner.CountFrame` | client/src-tauri/src/gateway.rs:627-652 | A sequenced frame is counted once, in order, without a hole; `previous + 1` never overflows |
| `GatewayRunner.Runner.Pause` | client/src-tauri/src/gateway.rs:495-507 | Waits exactly when the delay is not zero, and counts the attempt, saturating |
| `GatewayRunner.Runner.EndConnection` | client/src-tauri/src/gateway.rs:351-372 | What the loop does with each way a connection ends |
| `GatewayRunner.Runner.SendLeave` | client/src-tauri/src/gateway.rs:445-450 | The latch clears only when the leave was written |
| `GatewayRunner.Runner.Incoming` | client/src-tauri/src/gateway.rs:436-454 | The incoming branch adds its input to the object's run |
| `GatewayRunner.Runner.TakeFrame` | client/src-tauri/src/gateway.rs:436-454 | The incoming branch, on the fields, is the machine's step |
| `GatewayRunner.Runner.WentLive` | client/src-tauri/src/gateway.rs:442-451 | A handshake starts the backoff over and sends a latched leave |
| `GatewayRunner.Runner.BeatDue` | client/src-tauri/src/gateway.rs:455-464 | Two unanswered heartbeats, or one that can't be written, end the connection; a heartbeat carries the session's last number |
| `GatewayRunner.Runner.Command` | client/src-tauri/src/gateway.rs:465-489 | The command branch with a socket open adds its input to the run |
| `GatewayRunner.Runner.TakeCommand` | client/src-tauri/src/gateway.rs:465-489 | What each command does with a socket open |
| `GatewayRunner.Runner.CommandWaiting` | client/src-tauri/src/gateway.rs:510-540 | A command served while waiting adds its input to the run |
| `GatewayRunner.Runner.TakeWaiting` | client/src-tauri/src/gateway.rs:515-536 | What each command does while waiting, for a token or between tries |
| `GatewayRunner.Runner.TokenChecked` | client/src-tauri/src/gateway.rs:317-326 | Only a usable token is dialled with; another is forgotten and asked for |
| `GatewayRunner.Runner.WaitOver` | client/src-tauri/src/gateway.rs:513-514 | A wait that runs out goes back to the top of the loop |
| `GatewayRunner.Runner.Dialed` | client/src-tauri/src/gateway.rs:328-349 | A dial that fails or times out pauses |
| `GatewayRunner.Runner.Greeted` | client/src-tauri/src/gateway.rs:384-415 | No hello, or an opener that can't be written, drops the connection; the opener resumes the session from its last number, or identifies without one |
| `GatewayRunner.Runner.ConnectionLost` | client/src-tauri/src/gateway.rs:437-439 | A lost connection is dropped |
| `GatewayRunner.Runner.HandleDropped` | client/src-tauri/src/gateway.rs:466-471 | A closed channel ends the loop |
| `GatewayRunner.Runner.Guarantees` | client/src-tauri/src/gateway.rs:313-653 | Of the object, whatever the server and the frontend did: an open session has a last number, what was handed on is numbered and contiguous less unknown ops, quick redials are bounded, and every leave taken is queued, latched or written |
| `Replay.MarkedExactly` | client/src-tauri/src/gateway.rs:585-652 | Against a server that keeps its word, a frame is marked replayed exactly when the server had numbered it before accepting that resume, over any drops and resumes and with unknown ops among the replayed |
| `CatchUp.OwnReady` | client/src/lib/catchup.ts:61-64 | The first buffered `ready` of the snapshot's session, or -1 when there is none |
| `CatchUp.Catch` | client/src/lib/catchup.ts:54-83 | The loop gives the frames and the position of the fold that the theorems are about |
| `CatchUp.FoldsExactly` | client/src/lib/catchup.ts:66-83 | After any prefix of the buffer: nothing applied while the snapshot has it all, and from there exactly the frames since the snapshot, at the owner's position |
| `CatchUp.CatchesUp` | client/src/lib/catchup.ts:41-83 | For i <= n <= m, catching up on F[i..m] from a snapshot at n applies exactly F[n..m] and ends at the owner's position after m |
| `CatchUp.AdmitsOnce` | client/src/lib/catchup.ts:85-97 | From there the next frame is admitted, and a frame of the current session already applied is refused |
| `CatchUp.LiveAppliesOnce` | client/src/lib/catchup.ts:85-97 | With every delivery the next frame or a repeat from the session the stream has come to, the viewer applies each frame of the stream once, in order, and stands where the owner stands |
| `CatchUp.OwnerStands` | client/src/lib/catchup.ts:34-39 | The owner's position is the last `ready`'s session and the last frame's number |
| `GatewayViewer.BooksAreOrdered` | client/src-tauri/src/gateway.rs:602-652 | What the gateway hands on begins with a `ready`, is numbered throughout, and grows within each session |
| `GatewayViewer.LateWindowAgrees` | client/src/lib/catchup.ts:35-97 | End to end: for every run of the gateway and every i <= n <= m, a late window applies exactly F[n..m], stands where the owner stands, admits the next frame and refuses repeats |
| `GatewayViewer.LateWindowKeepsUp` | client/src/lib/catchup.ts:35-97 | End to end, the catch-up and the live frames after it: for every run of the gateway, the late window has applied exactly F[n..r], each frame once and in order, and stands where the owner stands after r |
| `Seats.BookTells` | client/src-tauri/src/voice_away.rs:59-112 | After any history, a seat is held exactly when the page joined and nothing since ended or moved it, and is owed to the page exactly when the window went with it held and nobody was told since |
| `Seats.Seats.FrameSent` | client/src-tauri/src/voice_away.rs:62-72 | A join takes or moves the seat, a leave gives it up |
| `Seats.Seats.ServerSaid` | client/src-tauri/src/voice_away.rs:75-87 | A fresh session ends the seat; being taken out ends it only in that room |
| `Seats.Seats.ConnectionGone` | client/src-tauri/src/voice_away.rs:91-93 | The seat goes with its connection |
| `Seats.Seats.LetGo` | client/src-tauri/src/voice_away.rs:98-103 | Names exactly the servers whose seat the history says is held, each once |
| `Seats.Seats.TakeAll` | client/src-tauri/src/voice_away.rs:106-111 | Answers exactly what is owed, and clears it |
| `GpuProbe.StateFolder.ProbeState` | client/src-tauri/src/linux_startup.rs:198-226 | The folder is given exactly to a launch that has one and is not started beside a copy that holds the lock |
| `GpuProbe.StateFolder.ChooseGbm` | client/src-tauri/src/linux_startup.rs:142-180 | The choice and the folder afterwards, with any of the writes refused; the GPU path is tried only with its probe left and no record against this WebKit |
| `GpuProbe.StateFolder.GraphicsStarted` | client/src-tauri/src/graphics.rs:59-64 | Drawing clears the probe, or leaves it where the removal is refused |
| `GpuProbe.DiesAtMostOnce` | client/src-tauri/src/linux_startup.rs:142-226 | Over any fair run of launches, with second copies at any point, each WebKit version dies on the GPU path at most once, and is recorded off only if it did |
| `GpuProbe.TriesUnlessItDied` | client/src-tauri/src/linux_startup.rs:142-180 | After any such run, a launch that decides by itself tries the GPU path exactly when its WebKit never died there |
| `GpuProbe.DrawKeepsExactlyWhen` | client/src-tauri/src/graphics.rs:59-64 | A draw keeps the records sound exactly when it removed a probe and its launch decided by itself, or there was none, or it couldn't remove one and its launch had none to clear |
| `GpuProbe.OtherDrawsShow` | client/src-tauri/src/graphics.rs:59-64 | Every other draw leads, with the next ordinary launch, to a version that has died twice, or to a record against one that never died |
| `GpuProbe.HandSetLaunchForgets` | client/src-tauri/src/graphics.rs:59-64 | A run in which a launch set by hand draws, and the same version dies twice |
| `GpuProbe.PaddedVersionReads` | client/src-tauri/src/linux_startup.rs:152-155 | A version padded with white space is read as the version |
| `GpuProbe.BlankProbeIsHeldAgainstThis` | client/src-tauri/src/linux_startup.rs:150-163 | A probe that says nothing is held against the WebKit that finds it, from then on |
| `GpuProbe.OldRecordGoes` | client/src-tauri/src/linux_startup.rs:149 | The record without a version counts for nothing, and goes |
| `Keyring.AccountsApart` | client/src-tauri/src/secrets.rs:54-66 | No two accounts share a name |
| `Keyring.SaveKeeps` | client/src-tauri/src/secrets.rs:279-302 | For any refusals, of reads as well: Done loads back exactly once, and at the end for a new server; the exact conditions under which nobody else's token or order changes, and under which Unavailable changes nothing that loads |
| `Keyring.SaveSparesExactlyWhen` | client/src-tauri/src/secrets.rs:279-302 | A save spares the others exactly unless the list couldn't be read, was written anew, and there were others |
| `Keyring.UnavailableChangesNothingExactlyWhen` | client/src-tauri/src/secrets.rs:288-301 | Unavailable changed nothing that loads exactly unless the list couldn't be read and the token written is a listed server's new one |
| `Keyring.ForgetDrops` | client/src-tauri/src/secrets.rs:304-321 | For any refusals, of reads as well: what loads loses exactly its server, or nothing changes at all, which is when the entry couldn't be deleted; Done means removed |
| `Keyring.LoadsWhatWasPromised` | client/src-tauri/src/secrets.rs:202-321 | Over any run of saves and forgets, with reads and writes refused anywhere: each server loads at every moment exactly what was promised for it, if and only if no save that couldn't read the list wrote over somebody |
| `Keyring.LoadsInOrder` | client/src-tauri/src/secrets.rs:236-321 | And the whole list that loads after such a run, in its order: what was promised for each server, by the lines the calls left |
| `Keyring.LinesAreTheIndex` | client/src-tauri/src/secrets.rs:279-321 | The stored list after any run is the one told from the calls: listed at the end, keeping its place until a forget drops it or a save that couldn't read the list replaces it |
| `Keyring.StartLoadsAll` | client/src-tauri/src/secrets.rs:236-260 | After any run without a save that wrote over somebody, a start answers with all that was promised, in order, or that there is nothing, or that it can't read, and changes nothing |
| `Keyring.LastForgetLeavesNothing` | client/src-tauri/src/secrets.rs:304-321 | Forgetting the only server leaves neither its entry nor the list, and nothing new |
| `Keyring.RunIsTidy` | client/src-tauri/src/secrets.rs:202-321 | Every run leaves the list free of repeats and each entry under its own server |
| `Keyring.UnreadableIndexForgets` | client/src-tauri/src/secrets.rs:202-207 | With the index unreadable and written anew, only the saved server loads |
| `Keyring.LegacyCarriesOver` | client/src-tauri/src/secrets.rs:262-277 | A sign-in from before the list is handed back whatever is refused; the next start has it exactly when both writes went through or the old entry stayed |
| `Keyring.Secrets.SaveIn` | client/src-tauri/src/secrets.rs:279-302 | Token first, index second: the store and the answer of `Save` |
| `Keyring.Secrets.ForgetIn` | client/src-tauri/src/secrets.rs:304-321 | Entry first, list second: the store and the answer of `Forget` |
| `Keyring.Secrets.LoadIn` | client/src-tauri/src/secrets.rs:236-260 | Sessions of the listed servers in order, skipping those whose entry has gone |
| `Keyring.Secrets.AdoptLegacy` | client/src-tauri/src/secrets.rs:265-277 | Saves and deletes the old entry, and answers with it either way |
| `ShareTable.ReadableConserves` | client/src-tauri/src/share_window.rs:75-116 | A change of a readable table conserves tokens, refused or not |
| `ShareTable.ConservesExactlyUnless` | client/src-tauri/src/share_window.rs:75-116 | A change conserves tokens exactly unless it is a save that could not read a table with something in it and still wrote |
| `ShareTable.TokensConserved` | client/src-tauri/src/share_window.rs:75-116 | Over any run, with reads and writes refused anywhere: the tokens kept are at every moment, as a multiset, those in the table plus those handed back, if and only if no save wrote over a table it couldn't read |
| `ShareTable.TableTells` | client/src-tauri/src/share_window.rs:94-116 | Over any run, the table has for every server the token and time of the last save written, unless it was forgotten or written over since |
| `ShareTable.AnswerTells` | client/src-tauri/src/share_window.rs:94-116 | A change answers with the token it takes out of the table, if it could read it and its write was taken |
| `ShareTable.ServesExactlyWhen` | client/src-tauri/src/share_window.rs:94-116 | A change written back from a table read earlier is the change to the table as it is exactly when the server is kept alike in both and, if it is written over, so is everybody else |
| `ShareTable.SequentialExactlyWhen` | client/src-tauri/src/share_window.rs:121-146 | With locks or without: every moment of an interleaving is the changes made in the order of their write-backs, if and only if no program wrote back from a table that no longer served |
| `ShareTable.LockedIsNeverStale` | client/src-tauri/src/share_window.rs:130-146 | Under the lock no program writes back from a table that no longer serves |
| `ShareTable.AlwaysSerial` | client/src-tauri/src/share_window.rs:121-146 | So at every moment of every interleaving under the lock, the table and the answers are those of the changes so far made in turn |
| `ShareTable.EveryInterleavingIsSequential` | client/src-tauri/src/share_window.rs:121-146 | Every finished interleaving of any number of programs, under the lock or without a stale write-back, is some sequential order, with the same table and answers |
| `ShareTable.WithoutTheLockAChangeIsLost` | client/src-tauri/src/share_window.rs:121-146 | Without the lock, two programs can lose a change that both orders keep |
| `ShareTable.Store.SaveSignIn` | client/src-tauri/src/share_window.rs:94-108 | The table and the answer of `Apply` for a save |
| `ShareTable.Store.ForgetSignIn` | client/src-tauri/src/share_window.rs:112-116 | The table and the answer of `Apply` for a forget |
| `UpdateStore.AnsweredIsWhole` | client/src-tauri/src/updates.rs:325-349 | At every crash point of any number of keeps, with forgets in between anything and removals refused: whatever `kept` answers is always the record and the whole bytes of one call of `keep`, if and only if no keep moved other bytes in under a record still there |
| `UpdateStore.RemovedIsWhole` | client/src-tauri/src/updates.rs:325-349 | Where every removal of an old record went through, `kept` always answers whole |
| `UpdateStore.KeepIsWholeExactlyWhen` | client/src-tauri/src/updates.rs:325-336 | One call stopped anywhere keeps the folder whole exactly when the old record was removed or didn't read, or it stopped before its bytes were in or after its record was, or the bytes are the same |
| `UpdateStore.KeptIsAnswered` | client/src-tauri/src/updates.rs:325-343 | A keep nobody interrupts is answered, with its bytes |
| `UpdateStore.KeepIsTheSteps` | client/src-tauri/src/updates.rs:325-336 | `keep` stopped before any step is that prefix of the events of a run |
| `UpdateStore.UnremovedRecordLies` | client/src-tauri/src/updates.rs:325-336 | A run in which the old record stays, and is answered over the new bytes |
| `UpdateStore.UpdateFolder.Keep` | client/src-tauri/src/updates.rs:325-336 | The folder after any number of its steps; whole and answered at the end |
| `UpdateStore.UpdateFolder.Kept` | client/src-tauri/src/updates.rs:339-343 | A record only if it reads and there are bytes beside it |
| `UpdateStore.UpdateFolder.Forget` | client/src-tauri/src/updates.rs:345-349 | Nothing is answered afterwards if either removal went through, and what was before if neither did |
| `Rooms.MoveRoom` | client/src/lib/host.ts:151-171 | The sort, swap and renumbering give the list the theorems are about |
| `Rooms.RailOrders` | client/src/lib/host.ts:155 | The rail is in order by position then slug, and has the same rooms |
| `Rooms.OrderIsUnique` | client/src/lib/host.ts:155 | Two lists in that order with the same rooms are the same list |
| `Rooms.ListsExactly` | client/src/lib/host.ts:166-170 | Exactly the rooms whose number changes are listed, each with its place |
| `Rooms.PatchedRail` | client/src/lib/host.ts:151-171 | Sending the answer and sorting again gives the intended order, numbered 0..n-1 |
| `Rooms.MoveSwaps` | client/src/lib/host.ts:151-171 | The old order with the room and its neighbour swapped; the answer is empty exactly when there is no such room or neighbour |
| `Rooms.MovesBack` | client/src/lib/host.ts:151-171 | Moving the room back restores the order |
| `ExecLine.EnvPrefix` | client/src-tauri/src/desktop_entry.rs:148-165 | The loop gives the assignments that `AssignsExactly` is about, each followed by a space |
| `ExecLine.BuildLine` | client/src-tauri/src/desktop_entry.rs:123-132 | The line the theorems are about, or nothing for a path that can't be on one line |
| `ExecLine.ChainIsEscape` | client/src-tauri/src/desktop_entry.rs:188-193 | The four chained replaces equal one escape of each character |
| `ExecLine.PathReads` | client/src-tauri/src/desktop_entry.rs:181-199 | A quoted path is one argument by the Exec quoting rule, which wants a backslash before every `"`, backtick, `$` and backslash in quotes, and reads back as the path |
| `ExecLine.OnlyEscapedReads` | client/src-tauri/src/desktop_entry.rs:187-194 | The reader accepts nothing but such an escaped text: what it reads is that text escaped again |
| `ExecLine.LineReadsBack` | client/src-tauri/src/desktop_entry.rs:123-199 | Every accepted line reads back as `env`, the assignments and the path, or as the path alone |
| `ExecLine.ChoicesRead` | client/src-tauri/src/desktop_entry.rs:123-165 | Reading a line gives the choices kept in front of the program |
| `ExecLine.AssignsExactly` | client/src-tauri/src/desktop_entry.rs:148-179 | Of the line read back, for each key by name: assigned exactly what was set, if that is a plain word and not a workaround's `1` |
| `ExecLine.NothingElseStands` | client/src-tauri/src/desktop_entry.rs:148-165 | Every other argument in front of the program assigns one of the four keys such a value |
| `ExecLine.RefusedExactlyWhen` | client/src-tauri/src/desktop_entry.rs:181-184 | A path is refused exactly when it is empty or has a line break or a NUL |
| `ExecLine.PlainLineIsThePath` | client/src-tauri/src/desktop_entry.rs:123-199 | A path without reserved characters or `%`, and nothing to repeat, is the whole line |
| `ExecLine.RebuiltIsTheSame` | client/src-tauri/src/desktop_entry.rs:123-165 | Building the line again from what reading it gives, the program and the choices, gives the same line |
| `ExecLine.StartsTheProgram` | client/src-tauri/src/desktop_entry.rs:123-132 | The line starts the program exactly when it needs no `env` or the path has no `=` in it |
| `AudioWhole.CutOffAnswer` | scripts/linux-audio-check.py:154-366 | The exact answer for any recording that is the start of its reference |
| `AudioWhole.WholeIsZero` | scripts/linux-audio-check.py:154-366 | A whole, audible recording is missing 0 |
| `AudioWhole.CutOffIsMissed` | scripts/linux-audio-check.py:154-366 | One cut off at k of n, with more than 48 audible samples to come, is missing between n-k-48 (not reached) and n-k |
| `AudioSplice.WalkIs` | scripts/linux-audio-check.py:218-258 | A recording with whole milliseconds left out, or silence put in, at one place is walked with everything before the cut in place and everything after it at one other shift |
| `AudioLosses.PauseIsMissed` | scripts/linux-audio-check.py:154-366 | A sound that pauses for whole milliseconds and carries on is missing exactly the pause |
| `AudioLosses.SkipIsMissed` | scripts/linux-audio-check.py:154-366 | A sound that skips whole milliseconds is missing what it skipped, exactly or to within the last, overlapping millisecond |
| `AudioLosses.DropoutIsMissed` | scripts/linux-audio-check.py:154-366 | Silence in the place of whole milliseconds is missing those where the reference is mostly sound, and 0 if there are none |
| `AudioSeam.SkipInsideIsMissed` | scripts/linux-audio-check.py:154-366 | A skip inside a millisecond makes that one a seam on the cut: missing is what was skipped and that millisecond |
| `AudioSeam.NotPlacedIs` | scripts/linux-audio-check.py:233-251 | What is not looked for further: a millisecond that matches nowhere, or has silence at an edge, or begins as the reference does here |
| `AudioDropout.DropoutInsideIsMissed` | scripts/linux-audio-check.py:154-366 | Silence from inside one millisecond to inside another: missing are those two, as seams on the edges of the silence, and every one between where the reference is mostly sound |
| `AudioTail.BrokenOffIsMissed` | scripts/linux-audio-check.py:154-366 | A recording that stops short with a broken last millisecond is missing that one and all that follows |
| `AudioCrackle.CrackleIsNoLoss` | scripts/linux-audio-check.py:154-366 | A millisecond of something else, on no cut, gets no answer at all |
| `AudioAnswer.FadeIsMissed` | scripts/linux-audio-check.py:269-281 | A recording of which every millisecond is the reference's or faint is missing exactly those that faded away, by silence or by a quarter of the energy |
| `AudioAnswer.AnswerCounts` | scripts/linux-audio-check.py:356-366 | Of any recording: an answer but 0 is the reference less the milliseconds that arrived inside it, and every jump back on top; matches really match, and no three seams stand in a row |
| `AudioAnswer.CutInsideHasSound` | scripts/linux-audio-check.py:309-326 | A cut inside a millisecond is silence at its start or end where the reference has sound, and the rest is the reference's |
| `AudioSound.ZeroIsEarned` | scripts/linux-audio-check.py:154-366 | For any recording: an answer of 0 means every millisecond is the reference's or as quiet, the shifts never jump by more than 24 samples, and no more than 48 audible samples come after |
| `AudioSound.BestIsLeast` | scripts/linux-audio-check.py:182-189 | The shift found differs least of all tried, and is the first that does; with none found, the block is the reference's at none of them |
| `AudioSound.SplitsWhereLeastIsLost` | scripts/linux-audio-check.py:300 | A faint stretch is split at the first place where it loses least |
| `AudioSound.NeverRepeats` | scripts/linux-audio-check.py:210-258 | For any recording: each match comes at least 32 samples after the one before it in the reference too, but for the last, overlapping millisecond |
| `AudioCheck.Error` | scripts/linux-audio-check.py:170-180 | A sum given up once over its bound answers nothing exactly when the whole difference is over it |
| `AudioCheck.MatchesHere` | scripts/linux-audio-check.py:230-231 | The early exit does not change which blocks match |
| `AudioCheck.FindShift` | scripts/linux-audio-check.py:182-189 | The search with a falling bound finds the first of the best shifts |
| `AudioCheck.BeginsHere` | scripts/linux-audio-check.py:191-208 | Whether some long enough start of the block is the reference's |
| `AudioCheck.FindNearby` | scripts/linux-audio-check.py:238-241 | Near first, then back by the quiet before |
| `AudioCheck.PlaceBlock` | scripts/linux-audio-check.py:236-251 | Where a block that stopped matching went, if anywhere |
| `AudioCheck.MarkOne` | scripts/linux-audio-check.py:225-258 | What one millisecond is, and the fault of three seams in a row |
| `AudioCheck.MarkNext` | scripts/linux-audio-check.py:224-258 | The running marks, shift and held quiet after one more millisecond |
| `AudioCheck.MarkAll` | scripts/linux-audio-check.py:218-258 | The walk over the recording, with its running shift and held quiet |
| `AudioCheck.EndOfRun` | scripts/linux-audio-check.py:292-294 | Where a run of one kind of mark ends |
| `AudioCheck.ReadOne` | scripts/linux-audio-check.py:289-303 | What one mark, or one faint stretch, is read as, and what is left to read |
| `AudioCheck.Overwrite` | scripts/linux-audio-check.py:301-303 | The stretch is written over, and nothing else |
| `AudioCheck.ReadFaint` | scripts/linux-audio-check.py:287-304 | Rewriting the faint stretches in place reads each the way that loses least |
| `AudioCheck.CheckSeams` | scripts/linux-audio-check.py:335-355 | Every run of seams is two at most and sits on a cut |
| `AudioCheck.Judge` | scripts/linux-audio-check.py:335-366 | What the marks amount to |
| `AudioCheck.CountMissing` | scripts/linux-audio-check.py:154-366 | The whole loop gives the answer the theorems are about |

## Left out

- BorrowedTokens, `AuthedApi.#withAuth` and the lending of access tokens: one promise each, easy beside `RotatingTokens`.
- The access token and expiry that travel with a refresh token: they play no part in the protocol.
- The order of promise callbacks within one turn of JavaScript's event loop: any order is a run; `Prompt` names the one place where it matters.
- What a client goes on to do after two password changes overlapped: `#changing` keeps only the newest, and coherence then ends (`OverlapLoses`).
- The server's rate limits, expiry times and database: an expiry is an event, everything else an answer that takes nothing.
- Sockets, TLS, JSON, status events, latency, handshake timeouts and when a heartbeat falls due: inputs of the gateway machine, in any order.
- `gateway_url` and the clamp of the hello interval: easy.
- The rounding of `f64` and of durations in the backoff: delays are real numbers.
- JavaScript's numbers: sequence numbers in the catch-up are 64-bit integers.
- The frontend's own fold of frames: the catch-up theorems are about lists of frames.
- The key order of the lists `window_gone` and `take_ended` answer with: their contents are modelled, each once.
- A crash in the middle of `choose_gbm`, a probe that is not UTF-8, and Unicode white space in it: a launch's choice is one step.
- `configure`, the other environment variables, GPU counting and the menu entry's file: no state to speak of.
- Entries a keyring can't read one by one, the iPhone's Keychain code and `to_move`: calls into systems that can't be seen.
- The share window's list files, and its Swift side: its changes are those of one more program under the lock.
- `kept` reading its two files at once, and what a power cut undoes of a rename: a crash is of the process.
- Signature checks, the feed, `mark` and when an update may be installed: library calls and easy predicates.
- Non-UTF-8 program paths, and the desktop file's own string escapes: the round trip is of the Exec quoting.
- `localeCompare` itself: any ranking that tells the slugs apart.
- `segments`, `resample`, `judge` and `lost` of the audio script, and what 32-bit floats round away: samples are real numbers.
