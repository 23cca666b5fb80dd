# Verified models of cosca's protocols

A Dafny model of the parts of this repository whose promises range over every interleaving, every
failure point or every string. `dafny verify dfyconfig.toml` checks all of it.

## What is modelled

**The macOS guest lifecycle** (`scripts/devvm_macos.py`).

- `SignalGate`: signals as data, and the exit status that names the first one.
- `Lifecycle`: `up` and `destroy` as a transition system over one Mac. Any number of processes in any
  number of worktrees share the VM table, the claim and identity files, the worktree and cap locks, and
  the lock waiters that cancelled waits leave behind. Every call may succeed, fail, or be cut short by a
  signal; the link of the claim, the `tart` commands (the spawn of `tart run` included) and a cancelled lock
  wait may have done their work all the same. `LifecycleLocal` and `LifecycleProofs` build the invariant of
  every run; `LifecycleTheorems` states the promises; `LifecycleVerdicts` what the end of a process says about
  its run; `LifecycleProgress` that processes get to their end; `LifecycleSuccess` how an undisturbed `up` ends,
  and `LifecycleRecovery` what `destroy` can do with a claim that is left; `LifecycleWitness` has the runs that
  show where a promise stops.
- `VmListing`: the count the cap is checked against.
- `LockHandoff`: the hand-off of a file lock between the caller and its helper thread.
- `ChildRunner`: the child runner with one observer and one reaper.

**The executable resolver** (`src/resolve.rs`, and the joins of `src/resolve/join.rs`). Names are bytes.

- `WindowsNames`: path types, prefix parser, final component, candidate rule; `Wtf8`: the byte reading
  against the UTF-16 reading; `PathVar`: the two `PATH` splitters.
- `Resolve`: the refusals and the nested search. `ResolveTheorems`: first match, elevated against ordinary
  searches, what the answer depends on. `ResolveOrder`: where it looks, in which order. `ResolveJoin`: what a
  join keeps. `ResolveErrors`: which error kind means what.

**Ownership.**

- `RelayedProbe` (`src/relayed_probe.rs`): guards that own disjoint slots.
- `OneShotHook` (`src/oneshot_hook.rs`): generation-tagged hooks.
- `HandleLedger`, `WinJob`, `JobProcesses` (`scripts/devvm_winjob.py`): kernel handles under failure at
  every call, from `popen` to the end of the `with` block.

Objects that the source changes in place are classes whose methods are proved against specification
functions (`Gate`, `ThreadSlots`, `Slot`, `Ledger`, `JobProcess`), and its loops are loops. The protocols
between several processes or threads are transition systems over values, since what matters there is the
interleaving.

## Assumptions about the environment

- `tart list` is truthful. VM names made by `up` are fresh. Only `up` starts VMs, and a guest may stop at any time.
- `tart clone`, `stop` and `delete` each take effect at one instant or not at all, whatever they report.
  Ending the process's own `tart run` stops its VM. `tart exec` answers only from a running guest.
- `Host.prompt` says whether a spawned VM is listed as running at once. It is a parameter, not an assumption:
  the cap is shown to hold on every run exactly if it is true.
- A process can kill its own child. No grandchild keeps a pipe of the child open. Creating the pipe and the
  thread inside `flock` succeeds.
- The disk is a function from paths to present, absent or undeterminable, fixed during one `resolve`.
- The host's `Path::is_absolute`, the rebuilding of verbatim paths and Win32's completion are arbitrary
  functions, so the theorems hold for all of them.
- A failing `open(fd)` leaves the descriptor open, as `popen` takes for granted. Thread starts may fail.

## Where the code and its promises part

- **The cap.** If a spawned VM is not listed at once, `up` fails while it is starting, and the `tart list` in
  its removal fails too, the cap lock is released with the VM still coming up, and a later `up` counts too few.
  `CapCanBeExceeded` has the run; `CapHoldsExactlyWhenListedAtOnce` says exactly when the cap holds, and
  `CapNeverExceeded` that otherwise a failed removal is to blame.
- **A claim without a VM.** In `_claim` the link can succeed and the removal of the temporary file still raise,
  before `_claimed` is set. `up` then cleans nothing and leaves its claim to `destroy` (`ClaimCanBeLeft`);
  `UpOutcome` says that this happens exactly when it had created the file.
- **A failed removal without a claim.** When the call that fails is the unlink of the identity file, claim and
  VM are gone already and that file stays as it was, alone. `UpOutcome` says that this is the one stage of the
  removal whose failure does not keep the claim, and `IdentityCanBeLeft` has a run.
- **A claim kept for `destroy` that no `destroy` can act on.** If a clone fails or is cut short after it made
  the VM, or the identity cannot be written after it, and the removal then fails too, `up` points to `destroy`;
  but the VM has no recorded disk, and every `destroy` refuses. `DestroyCanBeHelpless` has a run. `UpOutcome`
  says that once the identity is written what `up` leaves can be acted on, and `DestroyRecovers` exactly which
  claims can.
- **Error kinds.** `src/resolve.rs:47-63` promises `InvalidInput` exactly for strings no disk could satisfy.
  A verbatim UNC name whose share is set off by `/`, such as `\\?\UNC\s/h/a`, is not refused, and is never
  found on a host whose own `Path::is_absolute` rejects it, as a POSIX host's does. Where the host accepts
  verbatim prefixes, as Windows does, the name is probed like any other and the exception does not arise.
  `ErrorKindLaw` shows it to be the only one among located names on a fully qualified plain base, and
  `BareNameLaw` that there is none among bare names.
- **Refusals inside the search.** On a verbatim base a name that is not refused on its shape can still be
  refused when Win32 completes it to a path without a file name, as `..\t.exe` on the share `\\?\UNC\s\h` is
  (`CompletionCanRefuse`); `RefusedOnShape` has the exact condition.
- **A name lost in a join.** `join` promises the name under the base. A single name joined to a device root, as
  `t.exe` to `\\.\`, becomes part of the prefix and is no file name any more; `JoinKeepsName` shows this to be
  the only case on a plain base.
- **`returncode`.** The class comment promises an exit code after every `communicate` that returned. After
  `close`, or after a failed wait, there is none; `CommunicateOnce` says exactly when.
- **The attribute list.** `popen` deletes it on every way out but one: when building the command line or the
  environment block raises (`AttributeListCanBeLeft`; `Popen` has the exact condition).
- **The extension test.** The whole-string extension test differs from the one on the final component exactly
  for the names that pass it and name no file (`LoadableJudgesFinal`; `LoadableMisjudgesPrefix` is one).

## Model

| member | source | states |
|---|---|---|
| `SignalGate.DeliverKeeps` | scripts/devvm_macos.py:208-236 | A signal that arrives, recorded or dropped by a full pipe, never displaces the first one, and a cancel keeps carrying the head of `pending`. |
| `SignalGate.DrainKeeps` | scripts/devvm_macos.py:248-256 | A drain appends and empties: afterwards `pending` is everything ever recorded, in order. |
| `SignalGate.StatusNamesFirstSignal` | scripts/devvm_macos.py:641-654 | After the last drain the status is 128 plus the first signal delivered if there was one, else 1 or 0. |
| `SignalGate.Gate.Wake` | scripts/devvm_macos.py:231-236 | The wake-up write adds the signal if the pipe has room and otherwise changes nothing but history. |
| `SignalGate.Gate.Drain` | scripts/devvm_macos.py:248-256 | The loop of 64-byte reads moves the whole pipe to `pending` in order. |
| `SignalGate.Gate.Check` | scripts/devvm_macos.py:258-261 | Raises the first signal ever delivered, exactly if there was one. |
| `LifecycleProofs.AlwaysInv` | scripts/devvm_macos.py:586-716 | The invariant of flags, knowledge, locks, names, claims and the cap holds at every point of every run of any number of processes. |
| `LifecycleProofs.StepKeeps` | scripts/devvm_macos.py:553-600 | Any step of `up` or `destroy`, however its call turns out, keeps that invariant for every process. |
| `LifecycleProofs.EnvironmentKeeps` | scripts/devvm_macos.py:326-369 | So do signals, guests stopping or being listed, and abandoned waiters taking, closing and ending. |
| `LifecycleTheorems.CapNeverExceeded` | scripts/devvm_macos.py:662-699 | In every reachable state no more than the cap run, apart from VMs left starting by a failed removal; so with prompt listing, or without a failed removal, no more than the cap run. |
| `LifecycleTheorems.VmsOnlyWhileClaimed` | scripts/devvm_macos.py:503-520 | In every reachable state a VM made by `up` exists only while its worktree's claim names it. |
| `LifecycleTheorems.UpOutcome` | scripts/devvm_macos.py:571-600 | When `up` lets its worktree go: done with VM, claim and identity recorded; or all three gone; or a removal failed and the claim is kept, unless the call that failed was the unlink of the identity file, and then that file is as it was and nothing else is left; what it leaves after it wrote the identity is something `destroy` can act on; and an `up` that did not claim leaves its claim exactly if it made the file. |
| `LifecycleTheorems.DestroyOutcome` | scripts/devvm_macos.py:864-885 | A `destroy` that fails at nothing leaves no claim, and of a claim it read neither VM nor identity. |
| `LifecycleTheorems.DestroyTouchesOnlyItsOwn` | scripts/devvm_macos.py:874-885 | A step of `destroy` changes only the VM its worktree's claim names, a name of the tool's, whose disk identity is the recorded one. |
| `LifecycleTheorems.AtMostOneRemoval` | scripts/devvm_macos.py:586-600 | `_cleanup` gets past its guard at most once per `up`, though two handlers call it. |
| `LifecycleTheorems.DeletedOnlyOnceStopped` | scripts/devvm_macos.py:553-569 | An `up` that started its VM deletes it only once its `tart run` is over and the VM stopped. |
| `LifecycleTheorems.LocksAreSound` | scripts/devvm_macos.py:522-530 | No process asks for the cap lock while it holds it, and one that ended holds no lock. |
| `LifecycleTheorems.ExitStatusNamesFirstSignal` | scripts/devvm_macos.py:839-862 | The exit status of `up` and `destroy` is 128 plus the first signal that arrived inside the gate, at whatever step; else success exactly if `up` was done, or `destroy` did not fail. |
| `LifecycleVerdicts.EndsWellExactlyWithoutTrouble` | scripts/devvm_macos.py:635-654 | In every run a process that ended met no trouble (no call of it failed or was cut short, no checkpoint found a signal, there was no claim, room, a free name, an own claim with the recorded disk, no list that contradicts) if and only if it ended well: without signals with status 0, and an `up` done. |
| `LifecycleSuccess.UpSucceeds` | scripts/devvm_macos.py:656-716 | In every reachable state an undisturbed `up` that has the worktree and no signal, finds no claim, a free cap lock and room, and whose calls succeed, waits for its guest, and once that is listed ends with 0, its VM there, its claim naming it and its disk recorded. |
| `LifecycleSuccess.UpCleansUp` | scripts/devvm_macos.py:571-600 | In every reachable state an undisturbed `up` in a handler, or in the removal one began, whose calls succeed ends with 1 or its first signal's status, its VM gone, and if it claimed, claim and identity too. |
| `LifecycleProgress.NoDeadlock` | scripts/devvm_macos.py:522-530 | A process that has not ended can take a step nearer to its end, or the holder of a lock it needs can, or an abandoned waiter is about to let that lock go. |
| `LifecycleProgress.BoundedSteps` | scripts/devvm_macos.py:656-716 | In every run a process takes at most 53 steps besides polling the guest's agent. |
| `LifecycleProgress.AllCanEnd` | scripts/devvm_macos.py:611-716 | From every reachable state a run without new processes brings every process to its end, by steps of the processes and closes of abandoned waiters alone. |
| `LifecycleRecovery.DestroyRecovers` | scripts/devvm_macos.py:839-885 | In every reachable state an undisturbed `destroy` that has the worktree and whose calls succeed ends: with 0, and claim, identity and VM gone, if it can act on the claim; with 1 and nothing changed if it cannot; with 0 and nothing changed without a claim; or with the status of its first signal. It can act exactly on an empty claim, and on one of the tool's whose VM is gone or has the recorded disk. |
| `LifecycleRecovery.RemovalGoes` | scripts/devvm_macos.py:553-584 | From any stage a removal whose calls succeed, by either verb, gets as far as the identity file and leaves that as it was. |
| `LifecycleWitness.CapCanBeExceeded` | scripts/devvm_macos.py:553-600 | A run in which three VMs run, on a host that does not list a spawned VM at once. |
| `LifecycleWitness.CapHoldsExactlyWhenListedAtOnce` | scripts/devvm_macos.py:681-699 | Over all hosts and runs the cap holds if and only if a spawned VM is listed at once. |
| `LifecycleWitness.ClaimCanBeLeft` | scripts/devvm_macos.py:503-516 | A run after which `up` made no VM and failed at no removal, and its claim stays. |
| `LifecycleWitness.IdentityCanBeLeft` | scripts/devvm_macos.py:518-520 | A run after which `up` leaves the identity file and neither VM nor claim, its unlink having failed. |
| `LifecycleWitness.DestroyCanBeHelpless` | scripts/devvm_macos.py:571-584 | A run from a host without claims after which an `up` that could neither write the identity nor remove its VM has left its claim, and a `destroy` of that worktree whose calls all succeed ends with 1 and changes nothing. |
| `LifecycleWitness.DestroyStopsItsVm` | scripts/devvm_macos.py:553-562 | A run whose next step is a `destroy` stopping the VM its claim names, so that what confines such steps is not empty. |
| `VmListing.CountIsCardinality` | scripts/devvm_macos.py:87-92 | The sum over the list is the number of distinct local names shown as running by either field. |
| `VmListing.ListCountsTheHost` | scripts/devvm_macos.py:87-101 | On any truthful list, in any order, the cap check passes exactly if the host has room for one more VM. |
| `LockHandoff.EachClosedOnce` | scripts/devvm_macos.py:326-369 | In every interleaving no descriptor is closed twice and nothing is written into a closed pipe; in the end `f` and both pipe ends were each closed once and the lock is free. |
| `LockHandoff.ReturnsWithTheLock` | scripts/devvm_macos.py:372-392 | `flock` returns only with the lock, alone; a cancelled wait leaves it held only by a waiter that has not finished. |
| `LockHandoff.WhatEndsTheWait` | scripts/devvm_macos.py:353-369 | In every interleaving a caller that is through raised the cancel exactly if a signal interrupted it, raised the waiter's error exactly if the lock failed and no signal did, and had the lock and left exactly if neither happened. |
| `LockHandoff.NeverStuck` | scripts/devvm_macos.py:326-369 | Only a lock held elsewhere can hold the two up; neither waits for the other in vain. |
| `LockHandoff.BoundedMoves` | scripts/devvm_macos.py:326-369 | The two parties make at most 14 moves, so they get to their end once the lock is free. |
| `ChildRunner.ReapedExactlyOnce` | scripts/devvm_macos.py:275-324 | In every interleaving the child is reaped once before `run` returns or raises, is killed exactly if it raises, and no signal goes to a pid that is no longer the child. |
| `ChildRunner.RaisesExactlyIfInterrupted` | scripts/devvm_macos.py:303-324 | In every interleaving `run` raises exactly if a signal interrupted it and returns exactly if none did, and without one the child is never signalled. |
| `ChildRunner.OnlyTheCallerReaps` | scripts/devvm_macos.py:298-324 | Only the caller's own wait consumes the exit; the observer's `WNOWAIT` leaves the child as it was. |
| `ChildRunner.NeverStuck` | scripts/devvm_macos.py:275-324 | The caller can go on, is through, or waits for a child that is alive. |
| `ChildRunner.BoundedMoves` | scripts/devvm_macos.py:275-324 | There are at most 10 moves and one for each reader, so `run` gets to its end once the child exits. |
| `WindowsNames.BareIsRelative` | src/resolve.rs:258-283 | A bare name is of relative type and every rooted name needs a base. |
| `WindowsNames.ShapesPartition` | src/resolve.rs:211-349 | The classifiers divide all Windows names into six kinds, of which each name is exactly one. |
| `WindowsNames.PrefixOfDrive` | src/resolve.rs:370-378 | The prefix of a name on a drive is the drive. |
| `WindowsNames.PrefixOfShare` | src/resolve.rs:402-415 | The prefix of a name on a share is server and share, whatever separators set them off. |
| `WindowsNames.PrefixOfVerbatimShare` | src/resolve.rs:386-394 | The prefix of a verbatim name on a share is the marker, server and share. |
| `WindowsNames.PrefixOfNamespace` | src/resolve.rs:386-402 | The prefix of any other verbatim name, and of a device, is the marker and one component; a verbatim `UNC` marks a share only before `\`. |
| `WindowsNames.ShareIsMissing` | src/resolve.rs:308-326 | After a verbatim share's marker, server and share are what `\` alone sets off, and the share is missing exactly if either is empty or no `\` follows the first. |
| `WindowsNames.PrefixOfExtended` | src/resolve.rs:370-416 | A plain suffix on a name that names a file leaves the parsed prefix as it was. |
| `WindowsNames.FinalOfExtended` | src/resolve.rs:456-465 | It extends the final component by exactly that suffix. |
| `WindowsNames.WhatNamesNoFile` | src/resolve.rs:418-465 | A name names no file exactly if what follows its prefix is nothing, or ends in a separator, in `.` or in `..`. |
| `WindowsNames.ExeCandidateIsSibling` | src/resolve.rs:575-633 | Every candidate has the written name's bytes up to the final component, which is the old one or the old one plus `.exe`. |
| `WindowsNames.WhatIsTried` | src/resolve.rs:575-633 | A name of a file is tried as written if it ends in `.exe` or `.com` in any case, or on POSIX; any other bare one with `.exe` added; a located one as written, and with `.exe` added too exactly if its final component has no `.` after its first byte. |
| `WindowsNames.LoadableJudgesFinal` | src/resolve.rs:635-649 | For every name the whole-string `.exe`/`.com` test is the test on the final component if and only if the name names a file or fails it. |
| `WindowsNames.LoadableMisjudgesPrefix` | src/resolve.rs:688-695 | A share root that passes the one and fails the other. |
| `Wtf8.TypeOfEncoded` | src/resolve.rs:192-228 | For every sequence of UTF-16 units, lone surrogates included, the path type of its bytes is Win32's reading of the units. |
| `Wtf8.DriveIsOneUnit` | src/resolve.rs:230-239 | A drive in the bytes is one unit and a colon, and splits off exactly those units' bytes. |
| `Wtf8.PairIsNoDrive` | src/resolve.rs:192-239 | A surrogate pair is never a drive. |
| `Wtf8.RoundTrip` | src/resolve.rs:192-239 | The encoding the byte readings are judged against loses nothing: every sequence of units, lone surrogates included, is read back from its bytes. |
| `PathVar.SplitWindows` | src/resolve.rs:751-769 | The quote-toggling loop splits exactly at the semicolons an even number of quotes precedes. |
| `PathVar.PartsAreQuoteFree` | src/resolve.rs:711-769 | No part has a quote. |
| `PathVar.SplitLosesOnlyQuotes` | src/resolve.rs:751-769 | Joining the parts again gives the variable without its quotes. |
| `PathVar.QuotedJoinRoundTrip` | src/resolve.rs:711-769 | Splitting the quoted join of any non-empty list of quote-free directories returns the list. |
| `PathVar.PartsJoined` | src/resolve.rs:751-769 | Two values set off by a `;` outside quotes split into the parts of the one, then those of the other. |
| `PathVar.SplitPosixLosesNothing` | src/resolve.rs:741-749 | Joining the POSIX parts gives the variable back, and no part has a colon. |
| `PathVar.SplitPosixJoined` | src/resolve.rs:741-749 | The same at every `:` on POSIX. |
| `Resolve.Resolve` | src/resolve.rs:897-1073 | The refusals and the nested loops with their early returns compute `Answer`: the verdict of the first deciding probe. |
| `ResolveTheorems.SearchIsFirstMatch` | src/resolve.rs:1008-1073 | For every base, `NotFound` exactly when no pair of directory and candidate decides, and else the first deciding pair's verdict. |
| `ResolveTheorems.OrdinarySearch` | src/resolve.rs:1008-1073 | On every base an ordinary search answers with a path if and only if the first stopping pair comes to it and it is present, is refused if and only if that pair completes to a path without a file name, and says `NotFound` exactly if no pair is of either kind. |
| `ResolveTheorems.LoadableSearch` | src/resolve.rs:1050-1063 | On every base a `loadable_only` search does the same, and stops as well, if and only if the first stopping pair is one whose presence nobody can tell. |
| `ResolveTheorems.NotFoundMeansAllTried` | src/resolve.rs:1068-1073 | After `NotFound` no pair is present, none would have been refused, and for a `loadable_only` search none is in doubt. |
| `ResolveTheorems.ElevatedAgreesOnBareNames` | src/resolve.rs:575-597 | For every bare Windows name the two searches give the same outcome exactly when the `loadable_only` one did not stop at an undeterminable path. |
| `ResolveTheorems.ElevatedAgreesOnSureDisks` | src/resolve.rs:575-597 | They agree entirely on a disk where nothing is undeterminable. |
| `ResolveTheorems.ElevatedOnLocatedNames` | src/resolve.rs:950-966 | For every located Windows name on every base, exactly when the two searches agree. |
| `ResolveTheorems.ElevatedDiffersOnLocatedNames` | src/resolve.rs:950-966 | On a plain base the two searches of an unrefused located name agree if and only if it ends in `.exe` or `.com` and is not in doubt, or takes the fallback, is not itself present, and its `.exe` is not in doubt. |
| `ResolveTheorems.ElevatedPrefersLoadable` | src/resolve.rs:575-597 | Where `C:\t` and `C:\t.exe` are both present the ordinary search takes the first and the elevated one the second. |
| `ResolveTheorems.NoBaseNoCwd` | src/resolve.rs:968-1006 | A name that needs no base has the same outcome for every cwd, the child's and the process's. |
| `ResolveTheorems.BaseNoSearch` | src/resolve.rs:968-1006 | A name that needs a base has the same outcome for every `PATH` and every answer about system directories. |
| `ResolveTheorems.LocatedNoSearch` | src/resolve.rs:968-1006 | So has every located name, absolute ones included. |
| `ResolveOrder.SystemDirsComeFirst` | src/resolve.rs:985-1004 | For every bare Windows name the answer is the one the system directories give alone, and only if they give none, the one `PATH` gives alone. |
| `ResolveOrder.SystemDirsInOrder` | src/resolve.rs:996-1008 | The system directories are searched in the order given. |
| `ResolveOrder.PathInOrder` | src/resolve.rs:1003-1008 | `PATH` is searched in the order written, in either grammar, at every separator outside quotes. |
| `ResolveOrder.InOneDirectory` | src/resolve.rs:1008-1066 | In one directory a bare name is found under its file name, exactly if that joins to an accepted path which is present, and a `loadable_only` search stops exactly if nobody can tell. |
| `ResolveOrder.LocatedAtBase` | src/resolve.rs:968-984 | A located name is looked for at itself, or at the child's cwd, made absolute by the process's where it is not: as written, then with `.exe` if it takes the fallback, and loadable images only where those are asked for. |
| `ResolveOrder.QueryFailsExactly` | src/resolve.rs:968-1004 | A query fails exactly if an unrefused bare Windows name has no answer about system directories, or an unrefused located one no base to read. |
| `ResolveOrder.RefusedNames` | src/resolve.rs:908-945 | A name that names no file, is drive-relative, is UNC without a share, or is rooted on a verbatim base, is refused on every disk. |
| `ResolveErrors.RefusedOnShape` | src/resolve.rs:897-966 | On every base the refusals are those on shape, whatever is on the disk, if and only if no reachable pair completes to a path without a file name. |
| `ResolveErrors.CompletionCanRefuse` | src/resolve.rs:1032-1046 | A name on a verbatim share that is not refused on its shape, and is refused on every disk once it is completed to a share root. |
| `ResolveErrors.PlainNeverRefuses` | src/resolve.rs:1008-1048 | No pair does on a plain base, or for a bare name. |
| `ResolveErrors.RefusalIgnoresPath` | src/resolve.rs:968-1006 | On every base being refused is the same for every `PATH` and every system-directory answer. |
| `ResolveErrors.AnswerIsAccepted` | src/resolve.rs:873-878 | On every base an answer is present, and is an accepted path or what Win32 completes one to; on a plain base it is accepted. |
| `ResolveErrors.SearchCanSucceed` | src/resolve.rs:1008-1048 | On every base some disk makes a search succeed exactly when some pair that can be reached joins to an accepted path which, completed, names a file. |
| `ResolveErrors.CanSucceedExactly` | src/resolve.rs:897-1073 | For every name and base some disk makes it succeed exactly when nothing is refused on shape, no query fails, and some pair can be reached and used. |
| `ResolveErrors.JoinIsAbsolute` | src/resolve/join.rs:54-71 | A rooted or relative name joined to a fully qualified base that is not verbatim is fully qualified. |
| `ResolveJoin.JoinKeepsName` | src/resolve/join.rs:22-71 | On a fully qualified plain base the name stays whole at the end of the join, after the base's drive or share if rooted, after the base and a separator if relative, and is read as the same final component if and only if it is not a single component on a device root. |
| `ResolveJoin.PosixJoinKeepsName` | src/resolve.rs:863-866 | On POSIX a relative name stays whole after base and separator and keeps its final component; an absolute one, or any on no base, is the join. |
| `ResolveErrors.AbsoluteOfExtended` | src/resolve.rs:296-326 | Appending `.exe` to a name that names a file does not change whether it is fully qualified. |
| `ResolveErrors.ErrorKindLaw` | src/resolve.rs:47-63 | A located name on a fully qualified plain base succeeds on some disk if and only if it is neither refused nor a verbatim UNC name without a share that the host does not call absolute either; so `NotFound` is one a disk could lift, with that exception only. |
| `ResolveErrors.BareNameLaw` | src/resolve.rs:47-63 | A bare name, in either grammar and for either search, succeeds for some `PATH`, system-directory answer and disk if and only if it is not refused. |
| `ResolveErrors.StrandedNameIsNeverFound` | src/resolve.rs:310-326 | One such name is not refused; it is `NotFound` on every disk if the host calls neither it nor its `.exe` absolute, and succeeds on some disk if the host does. |
| `RelayedProbe.PlaceFillsVacant` | src/relayed_probe.rs:42-54 | However far it got, an insert loop filled vacant slots only, each once, and left every other entry. |
| `RelayedProbe.PlaceFillsAll` | src/relayed_probe.rs:123-136 | Unless it panics, a reinstall fills every vacant slot the relay names with the first entry named for it, and no other. |
| `RelayedProbe.PlaceThenRemove` | src/relayed_probe.rs:123-151 | Reinstalling and dropping the guard restores the slots, also when a panic stopped it partway. |
| `RelayedProbe.PanicsOnNesting` | src/relayed_probe.rs:42-54 | A reinstall panics exactly if, in a debug build, an id is occupied or repeated. |
| `RelayedProbe.CaptureCarriesAll` | src/relayed_probe.rs:112-136 | A capture reinstalled on a bare thread gives it exactly the captured slots, in either build and any order. |
| `RelayedProbe.GuardListsItsEntries` | src/relayed_probe.rs:123-151 | The ids a guard lists are those its loop added, so its drop removes just those. |
| `RelayedProbe.AlwaysOwned` | src/relayed_probe.rs:42-151 | After any sequence of installs, reinstalls and drops the occupied slots are the disjoint union of what the live guards installed, entries included. |
| `RelayedProbe.InstallFillsOrRejects` | src/relayed_probe.rs:73-81 | A rejected install changes no slot, an accepted one only its own. |
| `RelayedProbe.DropTakesOnlyItsOwn` | src/relayed_probe.rs:65-71 | In any history a guard's drop removes all it installed, and every other live guard keeps all its entries. |
| `RelayedProbe.NoGuardsNoProbes` | src/relayed_probe.rs:138-151 | Once every guard is gone no probe is left. |
| `RelayedProbe.ThreadSlots.Insert` | src/relayed_probe.rs:42-54 | Fills the slot exactly if it was vacant, and else changes nothing. |
| `RelayedProbe.ThreadSlots.InstallProbe` | src/relayed_probe.rs:73-81 | Fills the slot exactly if it was vacant; a rejection leaves the slots alone, and gives a guard that removes nothing or, in a debug build, none. |
| `RelayedProbe.ThreadSlots.DropGuard` | src/relayed_probe.rs:142-151 | The loop removes exactly the listed ids. |
| `RelayedProbe.ThreadSlots.Capture` | src/relayed_probe.rs:112-121 | Lists every installed probe once with its entry, and changes nothing. |
| `RelayedProbe.ThreadSlots.ReinstallRelay` | src/relayed_probe.rs:123-136 | The loop leaves the slots and guard of `Place`, and after a panic the slots it found. |
| `OneShotHook.FateOfEachHook` | src/oneshot_hook.rs:37-80 | In every history each hook ends as exactly one of fired, cleared by its own guard, replaced or still armed, as the first later event that concerns it says, and has been run at most once. |
| `OneShotHook.LateDropIsHarmless` | src/oneshot_hook.rs:62-80 | Dropping a guard whose hook has left the slot changes nothing, whatever is armed there. |
| `OneShotHook.GenerationCounts` | src/oneshot_hook.rs:37-49 | The generation counts the armings, so no two hooks share one. |
| `OneShotHook.Slot.ArmWith` | src/oneshot_hook.rs:37-49 | The new hook is in the slot under a generation of its own, in either build; a debug build returns no guard exactly if a hook was still armed. |
| `OneShotHook.Slot.FireWith` | src/oneshot_hook.rs:57-60 | The armed hook, if any, answers the argument and leaves the slot. |
| `OneShotHook.Slot.Drop` | src/oneshot_hook.rs:69-80 | The slot is cleared exactly if it holds this guard's hook. |
| `HandleLedger.LiveOrClosedOnce` | scripts/devvm_winjob.py:192-200 | Every handle ever opened is live or was closed exactly once. |
| `HandleLedger.Ledger.CloseAll` | scripts/devvm_winjob.py:198-200 | Closes each listed handle once, in order. |
| `WinJob.ChildEnd` | scripts/devvm_winjob.py:402-417 | One standard handle of the child: what was opened is in the list to close or is the recorded read end, also when a call fails partway. |
| `WinJob.MakeAttributeList` | scripts/devvm_winjob.py:214-239 | Leaves one attribute list exactly if no call failed, and none otherwise. |
| `WinJob.OpenStreams` | scripts/devvm_winjob.py:452-470 | If a read end cannot become a stream, the process is terminated or refused that, and its handle and all ends but those handed back are closed. |
| `WinJob.Popen` | scripts/devvm_winjob.py:396-476 | Succeeds exactly if the arguments can be rendered and no call fails, and then only the process and the pipes asked for stay open, the child writing to the pipes the streams read; on any failure nothing stays open. |
| `WinJob.AttributeListCanBeLeft` | scripts/devvm_winjob.py:426-433 | Arguments that cannot be rendered leave an attribute list though no call fails. |
| `JobProcesses.JobProcess.Shut` | scripts/devvm_winjob.py:271-279 | `close` releases the process handle and every stream no started reader owns, and touches no other. |
| `JobProcesses.JobProcess.CommunicateOnce` | scripts/devvm_winjob.py:289-317 | Ends as `Expected` says, with the exit code the process ended with exactly if its readers were joined and its handle was held; gives the process handle up unless it times out, and then keeps it; a return owns nothing. |
| `JobProcesses.ReturnsExactly` | scripts/devvm_winjob.py:289-317 | A call returns exactly if no read failed before, every stream is read in time and without an error, and the process, where its handle is still held, has exited. |
| `JobProcesses.JobProcess.Await` | scripts/devvm_winjob.py:319-333 | Times out, fails or goes on as the wait does; when it goes on with a handle it has set the code the process exited with and closed the handle, and otherwise it changes nothing. |
| `JobProcesses.CommunicateAfterClose` | scripts/devvm_winjob.py:242-249 | After `close` it never gets an exit code: without pipes it returns all the same, and with pipes and no reader made before it does not return but fails to read. |
| `JobProcesses.Drive` | scripts/devvm_winjob.py:251-333 | Over any sequence of `communicate`, `close` and ends of readers the process handle is closed once if any completed, failed other than by timeout or closed, and else not at all; an exit code is that of some wait, and once set never changes. |
| `JobProcesses.PopenWithin` | scripts/devvm_winjob.py:260-279 | From `popen` through any operations to the end of the `with` block the process handle is closed once, and nothing more is open than before except streams still being read. |

## Left out

- Crashes of the tool itself (SIGKILL, power loss) and signals outside the gate: a process of the model stops only at its end.
- Update in place between processes and threads: the lifecycle, the lock hand-off and the child runner are transition systems over values, so a step is atomic where the source makes one call; the signal gate's own object is a class.
- `append_verbatim` and Win32's completion (`normalise`) are arbitrary functions, so what they compute is not stated.
- ResolveErrors.ErrorKindLaw: for located names on a fully qualified base that is not verbatim; BareNameLaw has the bare names, and on other bases whether some disk helps depends on what Win32 completes the name to, as CanSucceedExactly says.
- ResolveTheorems.ElevatedDiffersOnLocatedNames: the form for bases that are not verbatim; ElevatedOnLocatedNames is for all.
- LifecycleRecovery.DestroyRecovers: for a `destroy` that nothing else disturbs; DestroyOutcome holds with any others at work.
- HandleLedger.LiveOrClosedOnce: handle values are never reused in the model, so the kernel's recycling of them is not there.
- OneShotHook.GenerationCounts: the generation is unbounded, where the source counts in 64 bits.
- The job object's own handle (`KillOnCloseJob.__enter__` and `__exit__`) and `terminate`: one open and one close.
- What a child writes to its pipes and what `communicate` hands back of it: the model has who reads and closes them, and whether reading succeeded.
- Reading a guest's output, archives, provisioning, and the texts of logs and errors: no state that matters here.
- The verbs `sync`, `run` and `ssh`, the Windows guest, and the argument handling of the scripts: only easy members.
- `src/child.rs`, `src/signal.rs`, `src/containment.rs`, `src/command.rs` and the smaller modules: one branch per case.
- The file-system and permission calls behind `is_execable`: the disk is a function with three values.
