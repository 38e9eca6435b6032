# Humanitl, modelled and proved in Dafny

Humanitl runs an agent in a sandbox whose only door is a proxy socket. This project
models the parts of it whose correctness is hardest to see, and proves what they are
for:

- **The sandbox filter** (`Bpf`, `Seccomp`, `SeccompProgram`, `SeccompGates`,
  `SeccompPolicy`, `SeccompProbes`, `SeccompNumbers`, `SeccompTexts`): a small compiler
  turns an ordered rule table into relative-jump BPF. An interpreter gives programs their
  meaning; the compiled program decides every call as the first matching row of the table
  does, for any policy and either gate; the calls that probe a filter tell what they are
  to tell; and the policy is what the texts of the environment name.
- **Start-up** (`Startup`, `StartupGate`, `StartupPremises`, `StartupQuiet`,
  `StartupRefusals`, `StartupProgress`): fork, hand-over of the listener, probes, marker,
  gate and exec, with the thread that answers parked calls. One transition system; the
  kernel's and the scheduler's choices are in the events, so a statement about all event
  sequences is one about all interleavings.
- **The tally of refused calls** (`RefusalTally`, `RefusalEntries`, `RefusalFlush`):
  bounded memory, exact numbers, and two threads that report them.
- **Further shells** (`Shells`, `ShellRequest`, `ShellBytes`): a table shared by the thread
  that starts shells and the one that reaps them, and the wire format of a request.
- **The bridge** (`BridgeList`, `BridgeJson`, `BridgeGrammar`, `BridgeMeaning`,
  `BridgeFaults`, `BridgeServe`): a hand-written JSON reader, proved exact against a
  grammar, what its texts say and which of their mistakes is named, and an accept loop
  with a limit on connections.
- **Evidence** (`SocketWalk`, `Descriptors`): the bounded walk for Unix sockets, and
  the closing of inherited descriptors.
- **The exit log** (`Civil`, `Decimal`, `ExitLog`, `ExitLogReads`, `ExitLogOrder`,
  `ExitLogFiles`, `ExitLogRace`): a calendar in integer arithmetic, a line written into a
  fixed buffer, two files that rotate, and threads that rotate them at once.
- **The audit log** (`AuditSink`, `AuditConservation`, `AuditRecords`, `AuditArrivals`,
  `AuditDecisions`, `AuditMeaning`, `Csv`, `AuditExport`, `AuditExportReads`,
  `AuditExportFiles`): events become records and numbers; an export copies a range of them
  and never overwrites a file.
- **The terminal prompt** (`Moderator`, `ModeratorTurns`, `PromptBox`, `PromptReads`,
  `PlainText`, `PlainWords`): the queue behind the box, the turns of the command line that
  drives it, what the box says, and the cleaning of foreign text.
- **The offline check** (`Offline`).

`Wrappers`, `Lists`, `Texts`, `Sorting` and `Bits` are shared. `dafny verify dfyconfig.toml`
checks the whole project.

## How to read it

Code that updates state in place is a class or a method with loops, and its contract
ties the new state to a function of the old one; the lemmas then speak about that
function, over whole runs. What a function computes is said a second time without it: by
reading back what was written, by numbers and bytes, or by counting events; modules that
do little else are `SeccompNumbers`, `SeccompTexts`, `StartupPremises`, `RefusalEntries`,
`ShellBytes`, `BridgeMeaning`, `BridgeFaults`, `ExitLogReads`, `AuditMeaning`,
`AuditExportReads`, `PromptReads` and `PlainWords`. Protocols are a function `Step` on a state and an event,
and a run is a sequence of events. Numbers of fixed width are modelled where the width
shows: 32-bit words and 8-bit jumps in `Bpf`, saturating 64-bit counts in
`RefusalTally` and `AuditSink`, casts in `ExitLog`. Texts are sequences of Unicode
characters.

What the model takes from outside comes as a parameter: the seccompiler suffix by its
contract (architecture check, listed numbers refused, everything else allowed; a
program that meets it is given), the parsing of a socket address and of an audit
record, the file system, clocks, and which of several system calls fails.

## Where the code and its promises part

Each is a proved statement: the run or input that shows it, and exactly when the
promise holds.

- **The gate.** `wait_at_gate` also returns when its read fails or the parent dies
  (`StartupGate.WaysAroundTheGate`). When an agent's child left the gate, the premises
  held exactly if the parent had read its flag back, which it had whenever the gate was
  open; and the gate was open unless the read failed or the parent was dead
  (`StartupGate.AgentStartsBehindTheGate`).
- **The refusal count.** A probe of the shim is counted as the agent's if the child is
  killed between the receipt of its probe and the marker check
  (`StartupProgress.ProbeCountedAfterKill`); the count is exact in exactly the other
  runs (`StartupRefusals.ExactUnlessAProbeDiesInHand`).
- **The last word on refusals.** The main thread's last flush finds nothing changed when
  the other thread has just taken the entries; the process then ends before they are
  written (`RefusalFlush.LastWordIsLost`). The host ends with the totals exactly if
  nothing was counted after the entries were last taken and the other thread had no news
  left to write (`RefusalFlush.TheLastWord`).
- **Waiting.** If every message of the child is lost, child and parent wait for each
  other for ever (`StartupProgress.LostMessagesDeadlock`); and so they do if the parent's
  `recvmsg` fails, since the listener then stays in a pair that the parent keeps open
  (`StartupProgress.StrandedListenerDeadlock`). There is no third deadlock
  (`StartupProgress.NoDeadlock`).
- **The probe of a shell.** `socket(AF_UNIX, SOCK_STREAM)` is to be refused by the agent's
  filter and by no other. With the Unix family in the profile no shell ever starts
  (`SeccompProbes.UnixProfileStartsNoShell`); without the stream type the inherited filter
  refuses it too, and a refusal proves nothing
  (`SeccompProbes.DatagramProfileProvesNothing`). The probe does what it is for exactly if
  the policy names the stream type, not the Unix family, and does not deny `socket`
  (`SeccompProbes.UnixProbeProvesTheAgentFilter`).
- **Shell exits.** If the kernel gives a new shell the process id of an orphan whose
  exit is reaped but not yet reported, the exit goes to the wrong shell
  (`Shells.OrphanPidReused`); there is one wrong exit for each such clash and no other
  (`Shells.WrongExitsAreClashes`).
- **Bridge threads.** The comment on `serve` promises a bound on threads. The counter
  bounds the workers; the second thread of a connection outlives its worker when the
  proxy's side ends first, and the number of those has no bound
  (`BridgeServe.SecondThreadsAreUnbounded`). Two threads for each connection within the
  limit is what all runs keep exactly if no worker leaves its second thread behind
  (`BridgeServe.ThreadPromiseIsExact`).
- **Order of output.** Order is kept if and only if no output passes what is held behind
  a box that is gone (`Moderator.OutputKeepsItsOrder`). It is kept if each turn that
  leaves no box behind is followed by a drain (`ModeratorTurns.DrainingTurnsKeepOrder`);
  the command line drains at its end only, so closing a box lets later output overtake
  (`Moderator.OutputOvertakes`, a run of turns by `ModeratorTurns.TurnsOvertake`).
- **Key rows.** In a box of 40 columns, the narrowest one, the first key row is cut
  (`PromptBox.FortyColumnsCutAKey`); in every other box no key is, since the runs of
  spaces in a row fold before it is drawn (`PromptBox.KeysAreWhole`).
- **`until` in an export.** The end is looked at only between two lines. The export is the
  range up to `until` exactly unless the log begins behind a non-zero `until` with a
  record in the range of times (`AuditExport.ExportIsTheRange`).
- **One rotation at a time.** The mark in `emit` is to keep a second thread from moving a
  file that holds one line only. It does not, since the size was looked at before
  (`ExitLogRace.JustRotatedIsLost`). If no thread renamed since that look, the file moved
  is full and the one it replaces was there before; if one did, the file moved is full
  exactly if what was written since the rename has filled it
  (`ExitLogRace.RotationIsDue`).
- **Time stamps.** They sort as times do up to the end of 9999 and no longer
  (`ExitLogOrder.SortedExactlyTo9999`).

## Promises that rest on the caller

- **Place in the queue.** The comment in `decided` rules out a box headed "(2 of 1)". In
  every run of the command line's turns the box shows a waiting flow, the one at the
  cursor, and its head names a place in the queue
  (`ModeratorTurns.BoxStandsAtItsFlow`): what is fetched is shown before the next event.
  The type alone does not promise it. A caller that shows a flow which does not wait can
  get "(2 of 1)" (`Moderator.SecondOfOne`) or a cursor at another flow
  (`Moderator.HeldAnewLosesTheCursor`); `Moderator.PlaceIsExact` and
  `Moderator.BoxAndCursorAgree` say of arbitrary callers exactly when.
- **Keeping a descriptor.** `close_inherited` would close a descriptor it was to keep if
  its number were the largest `c_int` (`Descriptors.LeftIsWanted`). No kernel hands that
  number out, so this does not arise.

## Model

| member | source | states |
|---|---|---|
| Bpf.Evaluate | daemon/bin/humanitl-shim/src/seccomp.rs:1194-1238 | The interpreter's loop over program counter and accumulator computes the recursive meaning of every program whose run takes at most the bound of its steps, and gives up on exactly the others |
| Bpf.LoadableReturns | daemon/bin/humanitl-shim/src/seccomp.rs:1194-1238 | A program whose jumps stay inside and whose paths end in a return answers every call from every position |
| Bpf.Relocation | daemon/bin/humanitl-shim/src/seccomp.rs:541-562 | A program put behind another means at its offset what it means alone |
| Bpf.LadderIsMembership | daemon/bin/humanitl-shim/src/seccomp.rs:930-941 | A ladder of equality tests with shrinking jumps is a membership test |
| Seccomp.BuildPrelude | daemon/bin/humanitl-shim/src/seccomp.rs:900-943 | The prelude exists exactly for at most 250 families and types together, and then has the documented layout slot by slot, every jump at its absolute target |
| Seccomp.DecideUnfolds | daemon/bin/humanitl-shim/src/seccomp.rs:497-537 | The first matching row of the table, in the order architecture, x32, own listener, socket gate, deny list |
| SeccompProgram.ProgramIsTable | daemon/bin/humanitl-shim/src/seccomp.rs:491-562 | Compiler correctness: prelude and suffix, run on any call, answer as the first matching row of the table, or allow |
| SeccompProgram.WholeIsLoadable | daemon/bin/humanitl-shim/src/seccomp.rs:541-562 | Every jump of the whole program stays inside it and every path returns |
| SeccompProgram.ContractIsMet | daemon/bin/humanitl-shim/src/seccomp.rs:541-562 | The contract the suffix is taken by is met by a program for every deny list |
| SeccompProgram.Program | daemon/bin/humanitl-shim/src/seccomp.rs:541-562 | A program comes out exactly when the policy fits one jump and the suffix was generated; it is loadable and is the table |
| SeccompNumbers.DecideInNumbers | daemon/bin/humanitl-shim/src/seccomp.rs:491-562 | The answer to every call in the kernel's return values, by the numbers in the policy and single bits of the arguments: `seccomp` is refused exactly with bit 3 of its flags set, every call with bit 30 of its number |
| SeccompNumbers.ProgramInNumbers | daemon/bin/humanitl-shim/src/seccomp.rs:541-562 | The compiled program, run on any call, returns that number |
| SeccompNumbers.BridgeInNumbers | daemon/bin/humanitl-shim/src/seccomp.rs:471-477 | The bridge's policy names family 1 more, and no other family, type or call |
| SeccompGates.GatesDifferInTwoSlots | daemon/bin/humanitl-shim/src/seccomp.rs:900-943 | The silent and the reported program of a policy differ in the two refusing slots and in no other |
| SeccompGates.GatesRefuseTheSame | daemon/bin/humanitl-shim/src/seccomp.rs:255-269 | Both gates refuse and kill the same calls; only refused socket calls are answered differently |
| SeccompGates.BridgeWidensOnlyUnix | daemon/bin/humanitl-shim/src/seccomp.rs:471-477 | The bridge policy allows `socket(AF_UNIX, an allowed type)`, which the agent's policy refuses, and changes nothing else |
| SeccompGates.ForBridgeIsIdempotent | daemon/bin/humanitl-shim/src/seccomp.rs:471-477 | Widening twice is widening once, and widening a policy that has the family changes nothing |
| SeccompGates.ShellIsHeldLikeTheAgent | daemon/bin/humanitl-shim/src/exec.rs:443-507 | The agent's silent filter stacked on the inherited bridge filter, under the kernel's strictest-wins rule, decides as the agent's filter alone |
| SeccompGates.StackingIsStrictest | daemon/bin/humanitl-shim/src/exec.rs:5-12 | Stacking is symmetric and allows only what both filters allow |
| SeccompPolicy.CollectAll | daemon/bin/humanitl-shim/src/seccomp.rs:833-846 | Looking items up one by one and pushing each once gives the collected list, or the first failure |
| SeccompPolicy.CollectMeaning | daemon/bin/humanitl-shim/src/seccomp.rs:825-846 | The list holds exactly the entries of its items, none twice; a failure is that of the first item that fails |
| SeccompPolicy.CollectKeepsOrder | daemon/bin/humanitl-shim/src/seccomp.rs:825-846 | More items only append to the list |
| SeccompPolicy.ParseList | daemon/bin/humanitl-shim/src/seccomp.rs:833-846 | A list of the environment is split, trimmed and looked up; a list that is set but empty is an error |
| SeccompPolicy.FromEnv | daemon/bin/humanitl-shim/src/seccomp.rs:433-460 | The loops over the three variables give `PolicyOf` of their texts, errors in the source's order; the next three rows say what that is of any text |
| SeccompTexts.EveryTextIsWritten | daemon/bin/humanitl-shim/src/seccomp.rs:825-846 | Every text is a list of names, with whitespace around them and commas between, some of them missing |
| SeccompTexts.PolicyIsWhatTheTextsName | daemon/bin/humanitl-shim/src/seccomp.rs:433-460 | For every three texts: there is a policy exactly if each list that is set names something and every name is known; it then has the families and types of those names, each once in the order of their first mention, and the calls of the floor and of the deny list and no other; else the error names the first unknown name, or the list that is empty |
| SeccompTexts.NamedCallsAreDenied | daemon/bin/humanitl-shim/src/seccomp.rs:450-460 | A call whose name is in the text of the deny list is never allowed by the filter of its policy, whatever else the texts say |
| SeccompPolicy.FloorHoldsInEveryPolicy | daemon/bin/humanitl-shim/src/seccomp.rs:433-460 | Whatever the environment says, the deny list begins with the whole floor, holds nothing twice, and no call on the floor is allowed |
| SeccompProbes.SocketProbeDecides | daemon/bin/humanitl-shim/src/seccomp.rs:676-711 | What the filter says to a socket probe, by its family, the low byte of its type and its number, for every policy and either gate |
| SeccompProbes.ProbesAreRefused | daemon/bin/humanitl-shim/src/linux.rs:739-801 | Whatever the policy, the refused family, the refused type, the x32 number and `io_uring_setup` are each refused under its filter |
| SeccompProbes.FloorRefusesIoUring | daemon/bin/humanitl-shim/src/seccomp.rs:87-106 | The last of them is denied by every policy the environment can describe |
| SeccompProbes.ControlPasses | daemon/bin/humanitl-shim/src/linux.rs:803-806 | The positive control passes exactly if the policy does not deny `socket` by name |
| SeccompProbes.UnixProbeAnswers | daemon/bin/humanitl-shim/src/exec.rs:492-498 | What both filters together and the inherited one alone answer to a Unix socket of any type, for every policy |
| SeccompProbes.UnixProbeProvesTheAgentFilter | daemon/bin/humanitl-shim/src/exec.rs:489-498 | For every policy when a shell with the agent's filter starts, when one without it would not, and that both hold exactly if the policy names the stream type, not the Unix family, and does not deny `socket` |
| SeccompProbes.UnixProfileStartsNoShell | daemon/bin/humanitl-shim/src/exec.rs:496-498 | A profile with the Unix family starts no shell |
| SeccompProbes.DatagramProfileProvesNothing | daemon/bin/humanitl-shim/src/exec.rs:496-498 | With datagrams alone the shell starts with either filter |
| RefusalTally.Tally.Record | daemon/bin/humanitl-shim/src/refusals.rs:200-225 | One more attempt is in the tally, which is the replay of all attempts |
| RefusalTally.Tally.TakeChanged | daemon/bin/humanitl-shim/src/refusals.rs:227-239 | All entries when something changed since the last call, and nothing otherwise |
| RefusalTally.TallyIsExact | daemon/bin/humanitl-shim/src/refusals.rs:200-262 | At most 16 pairs and one overflow entry; each entry has the exact count, first and last time of the attempts it speaks for, and overflow speaks for exactly the pairs never admitted |
| RefusalEntries.EntryInWords | daemon/bin/humanitl-shim/src/refusals.rs:200-262 | An entry's reason is the type exactly if the policy allows its family, the overflow has its own; its count, first and last time are those of the calls it speaks for, by family and low byte of the type; and there is an overflow only behind sixteen pairs |
| RefusalTally.CountsSumToCalls | daemon/bin/humanitl-shim/src/refusals.rs:200-225 | Below saturation the counts add up to the number of calls |
| RefusalTally.HostKeepsTheTotals | daemon/bin/humanitl-shim/src/refusals.rs:249-278 | The largest count for each key over the lines of all flushes, in any order, is the tally at the last one |
| RefusalFlush.InvHolds | daemon/bin/humanitl-shim/src/refusals.rs:264-278 | With two threads that flush, in every interleaving each entry last taken is written or in the hands of a thread |
| RefusalFlush.TheLastWord | daemon/bin/humanitl-shim/src/linux.rs:1054-1058 | At the end of the process the host has the totals if and only if nothing was counted after the entries were last taken and the cut-off thread had no news left |
| RefusalFlush.LastWordIsLost | daemon/bin/humanitl-shim/src/linux.rs:1054-1058 | A run in which the host never hears of the only attempt |
| StartupGate.GateInvHolds | daemon/bin/humanitl-shim/src/linux.rs:373-480 | What every step of the start-up keeps about the gate, in all interleavings |
| StartupGate.AgentStartsBehindTheGate | daemon/bin/humanitl-shim/src/linux.rs:576-697 | When the agent runs, its filter is on and its probes passed; when its child left the gate, the premises held if and only if the parent had read its flag back, certainly if the gate was open, and it was open unless its read failed or the parent was dead |
| StartupPremises.AgentStartsAfterItsChecks | daemon/bin/humanitl-shim/src/linux.rs:576-697 | If an agent has started, the run holds its filter's installation, one reading of the status, which was right, as many probes as were to be made, each of them refused, and no call that found its listener gone |
| StartupPremises.GateOpensAfterItsSteps | daemon/bin/humanitl-shim/src/linux.rs:956-1060 | If the parent opened the gate, or the child left it with its premises, the run holds each of the parent's steps done: flag cleared, bridge filter on, hand-over tried, bridges started, flag read back; and if it opened the gate, none of them failed |
| StartupQuiet.NothingFailsNobodyDies | daemon/bin/humanitl-shim/src/linux.rs:373-480 | In every run in which no step fails and nobody is killed from outside, the child lives, no probe counts as failed, the parent never kills and lets go of the gate only to open it, and a reported filter keeps a listener |
| StartupGate.FailureReapsBeforeTheGateDrops | daemon/bin/humanitl-shim/src/linux.rs:1086-1094 | On every failure of a living parent the child is reaped before the last write end of the gate is gone |
| StartupGate.WaysAroundTheGate | daemon/bin/humanitl-shim/src/linux.rs:558-571 | Two runs in which the agent starts without the parent's checks: a failed read, and the parent's death |
| StartupRefusals.InvHolds | daemon/bin/humanitl-shim/src/refusals.rs:319-376 | What every step keeps about queue, listener, parked calls, answers and counts |
| StartupRefusals.TallyCountsTheAgent | daemon/bin/humanitl-shim/src/refusals.rs:335-376 | In every interleaving the counted calls are exactly the agent's, and what is counted in the one exception |
| StartupRefusals.ExactUnlessAProbeDiesInHand | daemon/bin/humanitl-shim/src/channel.rs:183-195 | With every received call checked against the marker, the count is exact if and only if no probe died between its receipt and that check |
| StartupRefusals.EveryCallIsAnsweredOnce | daemon/bin/humanitl-shim/src/refusals.rs:383-397 | Answers follow the received calls in order, each exactly once |
| StartupProgress.NoDeadlock | daemon/bin/humanitl-shim/src/linux.rs:956-1060 | Until the agent starts no step is possible, in any run, if and only if every message of the child was lost or its listener was left in the pair |
| StartupProgress.StartUpEnds | daemon/bin/humanitl-shim/src/linux.rs:956-1060 | Every schedule of the processes' own steps comes, after finitely many, to the agent's start, to the parent's end or to one of the two deadlocks |
| StartupProgress.LostMessagesDeadlock | daemon/bin/humanitl-shim/src/channel.rs:97-158 | A run in which the messages are lost |
| StartupProgress.StrandedListenerDeadlock | daemon/bin/humanitl-shim/src/channel.rs:142-147 | A run in which receiving fails and the listener stays behind |
| StartupProgress.ProbeCountedAfterKill | daemon/bin/humanitl-shim/src/refusals.rs:335-376 | A run in which a probe of the shim is counted |
| Shells.Table.Spawn | daemon/bin/humanitl-shim/src/exec.rs:257-293 | One reply for each request: -1 with four shells alive, -2 for an id that lives, the error of a failed fork, else the start; the table grows by exactly the started shell |
| Shells.Table.Reaped | daemon/bin/humanitl-shim/src/exec.rs:233-246 | The oldest shell of that process id leaves the table, with one reply; an unknown process changes nothing |
| Shells.AtMostFourDistinct | daemon/bin/humanitl-shim/src/exec.rs:257-293 | In every interleaving at most four shells live and their ids differ |
| Shells.RequestsAreAnswered | daemon/bin/humanitl-shim/src/exec.rs:257-293 | In every run a checked request is answered with its shell's start exactly if fewer than four live, none has its id and the fork gave a child; with -1 at four, with -2 for an id that lives, with the fork's own error otherwise |
| Shells.MalformedIsRefused | daemon/bin/humanitl-shim/src/exec.rs:216-231 | A malformed request is answered with -2 under the id it got to, and changes no shell |
| Shells.EndReachesItsShell | daemon/bin/humanitl-shim/src/exec.rs:233-246 | An exit is reported to the shell that ended, even if its process id is in use again |
| Shells.WrongExitsAreClashes | daemon/bin/humanitl-shim/src/linux.rs:1207-1234 | Exits that go to the wrong shell are exactly the clashes with an orphan's pending exit |
| Shells.RepliesTellTheTruth | daemon/bin/humanitl-shim/src/exec.rs:216-293 | Every request gets exactly one started or refused; for each id started and exited alternate, and a shell that lives is one that was started and has not exited |
| Shells.OrphanPidReused | daemon/bin/humanitl-shim/src/exec.rs:233-246 | A run in which the kernel reuses an orphan's process id too early and the exit goes to the wrong shell |
| ShellRequest.ParseOfRender | daemon/bin/humanitl-shim/src/exec.rs:121-156 | What was rendered parses back, descriptor and all |
| ShellRequest.RenderOfParse | daemon/bin/humanitl-shim/src/exec.rs:121-156 | An accepted message is the rendering of what it was accepted as |
| ShellRequest.RefusedExactlyWhenNotRendered | daemon/bin/humanitl-shim/src/exec.rs:121-156 | A message is refused exactly when it renders no well-formed request |
| ShellRequest.IncomingIsExact | daemon/bin/humanitl-shim/src/exec.rs:295-354 | A request is taken exactly from a message that arrived whole and renders it, and a refusal names its id whenever that came |
| ShellBytes.MessagesByteByByte | daemon/bin/humanitl-shim/src/exec.rs:121-156 | A message of at most 16384 bytes that arrived whole is a request exactly if it is an `S`, a non-zero id in four bytes, lowest first, and 1 to 256 arguments, each ended by a NUL, the first not empty, with one descriptor; else it is refused by its first fault |
| BridgeList.Validate | daemon/bin/humanitl-shim/src/bridge.rs:301-316 | A list is accepted exactly if it is one bridge inwards on the port; the refusal names the first bridge outwards, then the count, then the port |
| BridgeJson.Parse | daemon/bin/humanitl-shim/src/bridge.rs:263-288 | The reader with its moving position ends and returns what the reading functions say of the text, errors and their byte offsets included; `BridgeMeaning` and `BridgeFaults` say what that is |
| BridgeJson.Parser.Object | daemon/bin/humanitl-shim/src/bridge.rs:548-588 | One object, its four slots filled in any order, or the first error |
| BridgeJson.Parser.String | daemon/bin/humanitl-shim/src/bridge.rs:590-602 | One string literal with its escapes decoded |
| BridgeJson.Parser.Escape | daemon/bin/humanitl-shim/src/bridge.rs:604-631 | One escape, surrogate pairs included |
| BridgeJson.Parser.Hex4 | daemon/bin/humanitl-shim/src/bridge.rs:633-643 | Four hexadecimal digits as a number |
| BridgeGrammar.HexReads | daemon/bin/humanitl-shim/src/bridge.rs:633-643 | Four digits are read as the number they write, and nothing else is |
| BridgeGrammar.ParsedIsWritten | daemon/bin/humanitl-shim/src/bridge.rs:263-288 | What the reader accepts is the text of a document that means it |
| BridgeGrammar.WrittenIsParsed | daemon/bin/humanitl-shim/src/bridge.rs:263-288 | Every document that means a list is read as that list, whatever its whitespace, key order and escapes |
| BridgeGrammar.ParsingIsExact | daemon/bin/humanitl-shim/src/bridge.rs:515-643 | The reader returns a list if and only if the text writes that list |
| BridgeGrammar.ObjectMeaning | daemon/bin/humanitl-shim/src/bridge.rs:548-588 | An object makes a bridge exactly if the four keys are there, each once and no other, and their values make it |
| BridgeMeaning.BridgesAreReadAsSaid | daemon/bin/humanitl-shim/src/bridge.rs:263-288 | A text is read as a list of bridges if and only if it writes, in any whitespace, key order and escapes, one object for each with exactly its name, "in" for inward or "out" for outward, a text that is read as its address, and its socket, the name not empty and the socket absolute |
| BridgeMeaning.CanBeSaid | daemon/bin/humanitl-shim/src/bridge.rs:230-252 | Every list of such bridges whose addresses have a text can be written |
| BridgeMeaning.CharactersOfJson | daemon/bin/humanitl-shim/src/bridge.rs:590-643 | Whitespace, short escapes, hexadecimal digits and control characters by their code points |
| BridgeMeaning.UnitOfDigits | daemon/bin/humanitl-shim/src/bridge.rs:633-643 | Four digits stand in the order of their weight |
| BridgeMeaning.BitsOfPairs | daemon/bin/humanitl-shim/src/bridge.rs:617-626 | A surrogate pair holds twenty bits, the high ten first |
| BridgeMeaning.BytesHoldTheCharacter | daemon/bin/humanitl-shim/src/bridge.rs:515-521 | In the offset of an error each character counts the fewest bytes of UTF-8 that hold it |
| BridgeFaults.BridgeOrFault | daemon/bin/humanitl-shim/src/bridge.rs:548-588 | Every object makes a bridge or has a fault: its first wrong key, else the first missing of name, dir, listen and socket, else the first wrong value |
| BridgeFaults.FirstFaultIsNamed | daemon/bin/humanitl-shim/src/bridge.rs:263-288 | A list whose first faulty object stands anywhere is refused by that object's fault |
| BridgeFaults.DocumentIsAnswered | daemon/bin/humanitl-shim/src/bridge.rs:263-288 | Every well-formed list of objects is read as the bridges it says or refused by its first fault |
| BridgeGrammar.PairsAreABijection | daemon/bin/humanitl-shim/src/bridge.rs:617-626 | Surrogate pairs and the characters from U+10000 to U+10FFFF correspond one to one |
| BridgeGrammar.Spelling | daemon/bin/humanitl-shim/src/bridge.rs:590-602 | Every string can be written, with any choice of escapes that covers quote, backslash and every control character |
| BridgeServe.TheLimitHolds | daemon/bin/humanitl-shim/src/bridge.rs:405-441 | In all interleavings the counter is the workers plus a pending accept, workers stay within the limit, every connection is forwarded, refused or failed, and n refusals print floor(log2 n) + 1 lines |
| BridgeServe.RefusedOnlyAtTheLimit | daemon/bin/humanitl-shim/src/bridge.rs:405-425 | A connection is refused exactly when as many workers as the limit run |
| BridgeServe.ThreadsWithinTheBound | daemon/bin/humanitl-shim/src/bridge.rs:396-404 | Two threads for each connection within the limit, and one more for each worker that left its second thread behind |
| BridgeServe.TheBoundIsReached | daemon/bin/humanitl-shim/src/bridge.rs:396-441 | Every such number is reached by a run |
| BridgeServe.ThreadPromiseIsExact | daemon/bin/humanitl-shim/src/bridge.rs:396-404 | All runs with n such workers stay within the promised bound if and only if n is zero |
| BridgeServe.SecondThreadsAreUnbounded | daemon/bin/humanitl-shim/src/bridge.rs:470-486 | For every limit and number, a run with that many second threads and the counter at zero |
| BridgeServe.OneMoreRefusal | daemon/bin/humanitl-shim/src/bridge.rs:443-460 | A line at the first refusal and at every doubling is floor(log2 n) + 1 lines for n |
| BridgeServe.Counters.Refuse | daemon/bin/humanitl-shim/src/bridge.rs:448-460 | The counters go the protocol's step of a refusal, with a line if the number is a power of two |
| BridgeServe.Counters.Serve | daemon/bin/humanitl-shim/src/bridge.rs:405-430 | One connection of the accept loop takes the counters through the protocol's steps |
| SocketWalk.Sockets | daemon/bin/humanitl-shim/src/report.rs:329-378 | The walk ends and looks at no more than 2000 entries in any file system, a changing one too; in a fixed one it reports exactly the sockets among what it looked at, sorted and each once: all entries of the first three levels, unless it names the entries as its limit, and then there are more; level by level from its two starts, in sorted order, so that none left out is nearer |
| SocketWalk.Walk.Look | daemon/bin/humanitl-shim/src/report.rs:352-375 | The entries of one directory, all or as many as are still allowed: what was looked at, the sockets found, and the directories queued |
| SocketWalk.PrintedReads | daemon/bin/humanitl-shim/src/report.rs:369-369 | The components of a reported path can be read off it |
| SocketWalk.ReportIsExact | daemon/bin/humanitl-shim/src/report.rs:329-378 | A walk whose entries sufficed looked at exactly the entries of the first three levels, and names the depth as its limit exactly if a directory of the third level exists |
| Sorting.SortSorts | daemon/bin/humanitl-shim/src/report.rs:350-376 | The sorted list is in order |
| Descriptors.Process.CloseInherited | daemon/bin/humanitl-shim/src/linux.rs:832-850 | By range or by listing, exactly the standard and the kept descriptors stay open, and the kept ones are marked to close on exec |
| Descriptors.LeftIsWanted | daemon/bin/humanitl-shim/src/linux.rs:832-877 | They do, if and only if the largest number is not an open descriptor to keep under `close_range`; where nothing can close, everything stays |
| Civil.Epoch | app/linux/runner/exit_log.cc:97-118 | Day 0 is the first of January 1970 |
| Civil.IsCalendarDate | app/linux/runner/exit_log.cc:97-118 | Every day number has a date of the proleptic Gregorian calendar |
| Civil.NextDayIsTomorrow | app/linux/runner/exit_log.cc:97-118 | The next day number has the next date |
| Civil.CountInverts | app/linux/runner/exit_log.cc:97-118 | Counting days from the leap rule inverts any numbering that starts at the epoch and follows the calendar |
| Civil.RoundTrip | app/linux/runner/exit_log.cc:97-118 | The conversion is inverted by that count, on both sides of the epoch |
| Decimal.PaddedOrders | app/linux/runner/exit_log.cc:71-91 | Numbers of one width sort as strings as they do as numbers |
| ExitLog.AppendText | app/linux/runner/exit_log.cc:53-69 | The buffer holds what it held and the text, control characters as spaces, as far as there is room, and ends in NUL |
| ExitLog.AppendUint | app/linux/runner/exit_log.cc:72-91 | The same for a number in decimal, with leading zeros up to any width as far as 24 digits go |
| ExitLog.MakeDigits | app/linux/runner/exit_log.cc:74-79 | The digits of any 64-bit number, last one first, in at most 20 of the 24 bytes |
| ExitLog.Format | app/linux/runner/exit_log.cc:298-348 | The buffer holds as much of the whole line as it takes, and the length is returned |
| ExitLog.EmitLine | app/linux/runner/exit_log.cc:172-182 | What is written is the line, cut if need be, and one line break |
| ExitLog.AnEntryIsOneLine | app/linux/runner/exit_log.cc:51-69 | Whatever kind, key and value are, an entry holds no line break of its own |
| ExitLogReads.StampReads | app/linux/runner/exit_log.cc:298-334 | Read back, a stamp is a date of the calendar and a time of day that together are the clock's seconds, those before the epoch as zero, and its whole milliseconds |
| ExitLogReads.LineReads | app/linux/runner/exit_log.cc:335-348 | Behind the stamp stand the kind or `note`, the process id in decimal and, if both are given, the key and its value |
| ExitLogOrder.DatesKeepOrder | app/linux/runner/exit_log.cc:97-118 | Dates compare as their day numbers do |
| ExitLogOrder.FourDigitYears | app/linux/runner/exit_log.cc:97-118 | The year has at most four digits exactly before day 2932897 |
| ExitLogOrder.StampsKeepOrder | app/linux/runner/exit_log.cc:298-335 | From 1970 to the end of 9999 stamps have 25 characters and compare as the times do to the millisecond |
| ExitLogOrder.EntriesSortByTime | app/linux/runner/exit_log.cc:298-348 | So entries sort by time whatever else they say, if the buffer took the stamp |
| ExitLogOrder.TheYearTenThousandSortsFirst | app/linux/runner/exit_log.cc:298-335 | One second later it ends |
| ExitLogOrder.SortedExactlyTo9999 | app/linux/runner/exit_log.cc:298-335 | The stamps of all times before a bound sort as the times do if and only if the bound is not behind the end of 9999 |
| ExitLogFiles.Log.Emit | app/linux/runner/exit_log.cc:145-170 | A line is appended, after the full file took the place of the other one |
| ExitLogFiles.FilesHoldTheEnd | app/linux/runner/exit_log.cc:138-170 | The two files always hold, in order, the end of all that was written |
| ExitLogFiles.FilesStayBounded | app/linux/runner/exit_log.cc:20-27 | Neither file outgrows its bound in a run in which every rotation that was due happened |
| ExitLogFiles.UnrotatedGrows | app/linux/runner/exit_log.cc:145-170 | A line that needed the rotation keeps the bound if and only if it happened |
| ExitLogRace.RotationIsDue | app/linux/runner/exit_log.cc:145-170 | In every interleaving of threads, a thread about to rename replaces the file that was there when it looked if none renamed since; the file it moves is full if and only if none did or what was written since the last rename and its line exceed the bound |
| ExitLogRace.JustRotatedIsLost | app/linux/runner/exit_log.cc:151-162 | A run in which a second thread moves one line over the file just rotated |
| AuditSink.Tally.Apply | daemon/bin/humanitld/src/audit_sink.rs:156-227 | One event changes entries, counters and log as the reference step does |
| AuditSink.Tally.Decide | daemon/bin/humanitld/src/audit_sink.rs:229-264 | A first word and a retraction count; every other word about a decided flow does not |
| AuditSink.Tally.Finish | daemon/bin/humanitld/src/audit_sink.rs:293-300 | Every arrival still to come is written, in any order, and the end with the session's numbers |
| AuditConservation.CountersCountLives | daemon/bin/humanitld/src/audit_sink.rs:229-316 | After any stream each counter is the number of lives whose standing decision is in its class, and the entries are the open lives |
| AuditConservation.CountersAddUp | daemon/bin/humanitld/src/audit_sink.rs:229-316 | The decision counters add up to the lives that were decided |
| AuditMeaning.CountersInWords | daemon/bin/humanitld/src/audit_sink.rs:229-334 | After any stream each of the seven counters is the number of lives whose standing word was of its kind, by who said it and what; a word stands if it was the first, or the system's block behind one that let the flow out |
| AuditMeaning.TotalsCountEvents | daemon/bin/humanitld/src/audit_sink.rs:156-187 | The two totals are the numbers of arrivals and of holds in the stream |
| AuditConservation.SaturationIsNeverNeeded | daemon/bin/humanitld/src/audit_sink.rs:246-249 | A counter that gives up a life is at least one |
| AuditRecords.FlowsDoNotMix | daemon/bin/humanitld/src/audit_sink.rs:156-290 | What the sink holds and wrote about a flow is what it would with that flow's events alone |
| AuditRecords.EntryTellsTheLife | daemon/bin/humanitld/src/audit_sink.rs:201-213 | An entry holds the life's saturating sum of response bytes, its last status and its last forwarding time |
| AuditRecords.ResponseTellsTheLife | daemon/bin/humanitld/src/audit_sink.rs:266-290 | A response is written at the recording exactly if the life brought a status, and carries that sum, status and time |
| AuditMeaning.DurationInWords | daemon/bin/humanitld/src/audit_sink.rs:274-279 | The duration is the whole milliseconds between the two times, at most what 64 bits hold, and zero without a start or with one behind the end |
| AuditMeaning.ArrivalSaysWhatIsKnown | daemon/bin/humanitld/src/audit_sink.rs:145-200 | An arrival is written at the flow's next reporting event, with its number and request, and with findings exactly if that event is the analysis |
| AuditMeaning.BlocksAreExplained | daemon/bin/humanitld/src/audit_sink.rs:255-263 | In the log the reason of a block stands behind each decision that is the system's block, with its words, and nowhere else |
| AuditMeaning.PausesAreTold | daemon/bin/humanitld/src/audit_sink.rs:214-220 | The log tells every pause and every resumption, in their order |
| AuditRecords.ArrivalIsReportedOnce | daemon/bin/humanitld/src/audit_sink.rs:145-154 | A flow that arrives once, before anything else happens to it, is reported once, ahead of every other record of it |
| AuditArrivals.EachArrivalIsReported | daemon/bin/humanitld/src/audit_sink.rs:145-182 | For any stream a flow is reported as often as it arrived, less the arrivals that another replaced before they were reported |
| AuditDecisions.LogSaysWhatCounted | daemon/bin/humanitld/src/audit_sink.rs:229-264 | The decisions in the log are exactly those that counted, life by life, and at most two for each |
| AuditDecisions.AtMostTwo | daemon/bin/humanitld/src/audit_sink.rs:319-334 | A second decision in one life is a block by the system |
| Csv.FieldReads | daemon/crates/audit/src/export.rs:90-96 | A field is read back whatever it holds |
| Csv.DocumentReads | daemon/crates/audit/src/export.rs:62-96 | A reader of section 2 of RFC 4180 gives back every row of every document |
| Csv.OverviewReads | daemon/crates/audit-log/src/export.rs:111-162 | The overview gives back the header and the twelve fields of every record |
| Csv.RowsAreInjective | daemon/crates/audit/src/export.rs:62-96 | Different fields make different rows |
| Csv.RowNamesItsRecord | daemon/crates/audit/src/export.rs:62-86 | Equal rows belong to records of one number, time, session, kind and hash |
| AuditExport.WriteExport | daemon/crates/audit-log/src/export.rs:100-170 | Reading line by line to the reported end gives the content and count of the reference, or the first line that is no record |
| AuditExport.ExportOfALog | daemon/crates/audit-log/src/export.rs:100-170 | How many lines of any log of consecutive records are read for any `until`, and that the export is those of them in the range, each once and in order; what stands behind is not read |
| AuditExport.ExportIsTheRange | daemon/crates/audit-log/src/export.rs:100-170 | For every such log and every `until` the export is the records in the range up to `until` if and only if there is no `until`, the log does not begin behind it, it is zero, or the first record is not in the range |
| AuditExport.JsonlIsTheLog | daemon/crates/audit-log/src/export.rs:146-153 | With every record in the range the JSONL export is the log byte for byte |
| AuditExportReads.JsonlReads | daemon/crates/audit-log/src/export.rs:100-170 | A finished JSON export is the lines in the range as they stand in the log, without a header, up to the end of the log or the first record that reaches `until` |
| AuditExportReads.CsvReads | daemon/crates/audit-log/src/export.rs:100-170 | A finished table reads back as the twelve column names and one row for each such line; in it each cell, found by its column's name, is that field of the record, missing and null ones empty |
| AuditExportReads.BadLineIsNamed | daemon/crates/audit-log/src/export.rs:136-148 | A failed export names the first line before that end that is no record, counted from one |
| AuditExportReads.LinesOfText | daemon/crates/audit-log/src/export.rs:122-140 | The lines of a log are what stands between its line breaks, and the last may lack its own |
| AuditExportFiles.InvHolds | daemon/crates/audit-log/src/export.rs:70-193 | What every step keeps about the side file and the target, with a crash anywhere and other processes creating files |
| AuditExportFiles.NothingIsOverwritten | daemon/crates/audit-log/src/export.rs:172-193 | No file that was there is ever changed or replaced |
| AuditExportFiles.TargetIsComplete | daemon/crates/audit-log/src/export.rs:172-193 | The target is the export's own file only as the complete document on the disk |
| AuditExportFiles.SideFileGoes | daemon/crates/audit-log/src/export.rs:249-255 | At the end success means published and failure means not, and the side file is gone exactly unless its removal failed |
| AuditExportFiles.PublishedIsTheExport | daemon/crates/audit-log/src/export.rs:70-193 | Whatever crashes or comes between, a target that was published holds the content the loop makes of the log, and a log with a bad line publishes none |
| AuditExportFiles.NothingFailsItIsPublished | daemon/crates/audit-log/src/export.rs:70-193 | An export in which nothing fails and whose target nobody else creates ends only with the target as the complete document on the disk |
| Moderator.Moderator.NewHeld | daemon/bin/humanitl/src/ask_terminal.rs:537-547 | A held flow waits once, and is fetched if no box stands |
| Moderator.Moderator.NowDecided | daemon/bin/humanitl/src/ask_terminal.rs:563-593 | A decided flow waits no more; a box about it gives way to the first that waits |
| Moderator.Moderator.TakeQueue | daemon/bin/humanitl/src/ask_terminal.rs:601-617 | The box stays if its flow still waits, and gives way otherwise |
| Moderator.Moderator.Press | daemon/bin/humanitl/src/ask_terminal.rs:625-666 | What each key does, with and without a box: it decides exactly if a box stands and the byte is one of three letters in either case, about the flow of the box, `a` allowing, `s` for the session, `b` refusing |
| Moderator.Moderator.Write | daemon/bin/humanitl/src/ask_terminal.rs:683-693 | Output passes, is held, or goes out with all that was held |
| Moderator.KeysOfABox | daemon/bin/humanitl/src/ask_terminal.rs:625-666 | For every state with a box and every byte, exactly which one decides, asks, goes on or closes, and what becomes of the state |
| Moderator.KeysWithoutABox | daemon/bin/humanitl/src/ask_terminal.rs:625-640 | Without a box only the byte of Ctrl+C does anything, and ends the session |
| Moderator.EventsAskFor | daemon/bin/humanitl/src/ask_terminal.rs:537-617 | What is fetched, drawn or closed when a flow is held or decided or the queue is read anew |
| Moderator.OutputIsHeld | daemon/bin/humanitl/src/ask_terminal.rs:683-706 | Output is held exactly while a box stands and 262144 bytes are not reached; what flows over goes out in one piece |
| Moderator.CursorStep | daemon/bin/humanitl/src/ask_terminal.rs:550-617 | For any caller of the type each event keeps the cursor on the shown flow if and only if it does not hold a shown flow anew |
| Moderator.BoxAndCursorAgree | daemon/bin/humanitl/src/ask_terminal.rs:507-706 | For any caller of the type the cursor stands at the shown flow throughout a run, whenever that flow waits, if and only if no shown flow is held anew in it |
| Moderator.HeldAnewLosesTheCursor | daemon/bin/humanitl/src/ask_terminal.rs:537-555 | A run of a caller that shows a flow before it is held |
| Moderator.PlaceStep | daemon/bin/humanitl/src/ask_terminal.rs:519-593 | For any caller of the type, from a box headed by a possible place every event leads to one if and only if it is not one of two, both about a shown flow that does not wait |
| Moderator.PlaceIsExact | daemon/bin/humanitl/src/ask_terminal.rs:527-593 | For any caller of the type a run never shows a place behind the end if and only if none of those events is in it |
| Moderator.RoundsVisitInTurn | daemon/bin/humanitl/src/ask_terminal.rs:658-665 | After n presses of the key the box shows the flow n places further |
| Moderator.EachFlowIsShownOnce | daemon/bin/humanitl/src/ask_terminal.rs:658-665 | In as many presses as flows wait each is shown exactly once |
| Moderator.BufferStaysBelow | daemon/bin/humanitl/src/ask_terminal.rs:683-700 | The buffer is below its cap after every call |
| Moderator.OutputKeepsItsOrder | daemon/bin/humanitl/src/ask_terminal.rs:683-700 | What went out and what is held are, throughout a run, what the agent wrote, in order, if and only if no output passes a held buffer that it can be told from |
| Moderator.DrainingKeepsOrder | daemon/bin/humanitl/src/ask_terminal.rs:697-706 | A box that goes away and is followed by the drain or the next box leaves nothing held behind it, and the order is kept |
| Moderator.OutputOvertakes | daemon/bin/humanitl/src/ask_terminal.rs:683-700 | Held, shown, output, closed by its key, output: the second output goes out first |
| Moderator.SecondOfOne | daemon/bin/humanitl/src/ask_terminal.rs:563-593 | A run of a caller that shows a decided flow, which ends in a box headed second of one |
| ModeratorTurns.Moderation.Take | daemon/bin/humanitl/src/cmd/moderate.rs:147-306 | One turn of the command line: the event, and the details it asked for shown at once or not at all |
| ModeratorTurns.BoxStandsAtItsFlow | daemon/bin/humanitl/src/cmd/moderate.rs:267-306 | In every run of turns, whatever comes and whichever fetches fail, a box shows a waiting flow, the one at the cursor, and is headed by a place in the queue |
| ModeratorTurns.RunOfTurns | daemon/bin/humanitl/src/cmd/moderate.rs:147-306 | One turn more is one more step of the prompt |
| ModeratorTurns.DrainingTurnsKeepOrder | daemon/bin/humanitl/src/cmd/moderate.rs:132-144 | If each turn that leaves no box behind is followed by the drain, the order of output is kept |
| ModeratorTurns.TurnsOvertake | daemon/bin/humanitl/src/cmd/moderate.rs:723-733 | The run in which output overtakes is one of turns, since the drain comes at the end only |
| PromptBox.PromptLines | daemon/bin/humanitl/src/ask_terminal.rs:311-337 | Whatever the request holds, every line of the box has the window's width |
| PromptBox.FieldsArePrintable | daemon/bin/humanitl/src/ask_terminal.rs:400-416 | Whatever a text is, its line shows nothing but printable ASCII between the frame |
| PromptBox.KeysAreWhole | daemon/bin/humanitl/src/ask_terminal.rs:340-361 | Of the key rows as they are drawn none is cut if and only if the box has at least 41 columns |
| PromptBox.FortyColumnsCutAKey | daemon/bin/humanitl/src/ask_terminal.rs:340-405 | The line drawn at 40 columns |
| PromptReads.LinesByName | daemon/bin/humanitl/src/ask_terminal.rs:311-337 | The lines of a box: the request, then origin, size, findings and catalog by name where they are known, an empty line and the keys |
| PromptReads.ShortLine | daemon/bin/humanitl/src/ask_terminal.rs:400-416 | A printable text that fits stands in its line as it is |
| PromptReads.ForeignCharacters | daemon/bin/humanitl/src/ask_terminal.rs:407-416 | A character beyond ASCII stands in its line as a question mark |
| PromptReads.LongLine | daemon/bin/humanitl/src/ask_terminal.rs:418-433 | One that does not is cut before the last column, which holds a tilde |
| PromptReads.KeysByRow | daemon/bin/humanitl/src/ask_terminal.rs:340-361 | Each key stands in the box with what it does |
| PromptReads.HeadReads | daemon/bin/humanitl/src/ask_terminal.rs:363-398 | In a box wide enough for them, the head is the place and the length of the queue and the minutes and seconds that are left |
| PlainText.SanitizeNote | daemon/crates/core-types/src/block.rs:79-111 | The loop drops control and invisible characters and marks beyond two in a row, and folds spaces, as the scan does |
| PlainText.PlainIsTidy | daemon/bin/humanitl/src/render.rs:260-286 | Whatever the text, what is left is clean, with single spaces inside and none at the ends, no three marks in a row, at most 500 characters and no longer than it was |
| PlainText.PlainIsFixedOnTidy | daemon/bin/humanitl/src/render.rs:260-286 | A text is left as it is if and only if it is such a one, so cleaning twice is cleaning once |
| PlainText.PlainOfTwo | daemon/bin/humanitl/src/render.rs:260-286 | A run of spaces between two such texts folds to one |
| PlainWords.WordsAreKept | daemon/crates/core-types/src/block.rs:79-111 | Of a text with at most 500 visible characters and no three marks in a row exactly the words remain, one space between them: line breaks and spaces end a word, control characters and those without width are no part of one |
| PlainWords.LongTextsAreCut | daemon/crates/core-types/src/block.rs:109-111 | A longer tidy text is cut behind 500 characters |
| Offline.NormalClosure | tools/check_offline.py:36-50 | For every graph, cycles included, exactly the packages the root reaches over normal dependencies, each with the names along a route no other is shorter than |
| Offline.Look | tools/check_offline.py:44-49 | The dependencies of one package, each new one queued behind the nearer ones |
| Offline.NoRouteIsShorter | tools/check_offline.py:36-50 | When nothing waits, every route is matched by one found that is no longer |

## Left out

- System calls, signals, control messages and threads are steps of a transition system
  with small contracts; message layouts, timeouts and memory safety are not modelled.
- The seccompiler library, `SocketAddr` parsing, `AuditRecord::from_line` and
  `TimeRange::contains` are not part of this model; each is a parameter with the facts the
  code relies on.
- ModeratorTurns.BoxStandsAtItsFlow: the daemon's answer is taken to be about the flow that
  was asked for; the second questions, the pager and the editor do not touch the queue and
  are not modelled, and a list that could not be read is no turn.
- The 64-bit arguments of a call are two 32-bit words, since the filter only loads words.
- RefusalTally.Tally.TakeChanged: the order of the lines is not modelled; entries are a
  map, and the statement about the host holds for every order.
- RefusalTally.CountsSumToCalls: stated below saturation of the 64-bit counts, since a
  saturated count no longer adds up.
- Shells: `kill_all` and the setting up of the shell's process are not modelled; the code of
  an exit is taken from the kernel's status as given.
- StartupProgress.StartUpEnds: is about steps of the program alone; that the scheduler takes one when it can is its premise.
- BridgeServe: the copying of bytes, half-closing and the backing off after a failed
  `accept` are not modelled; nor is the wrapping of the counters.
- BridgeJson.Parser.Object: positions count characters; byte offsets appear in errors only.
- BridgeJson.Parse: for a text that is no list of objects the message and its offset are
  stated by the reading functions only; which of its mistakes comes first is said of lists of
  objects (`BridgeFaults`).
- ExitLog.AppendText: a null pointer, which no call of the log passes, is not modelled.
- ExitLogFiles.FilesStayBounded: for one writer; several can exceed the bound by the lines
  that each had looked at before the others wrote.
- Civil: the wrap-around of day numbers near the ends of a 64-bit integer is not
  modelled; the log's times are far from it.
- ExitLogOrder.EntriesSortByTime: times before the epoch all count as the epoch, so they
  have no order among themselves.
- AuditSink: the broadcast channel and the writer are a list of events and a list of
  records; a dropped event is one that is not in the list. Counters are unbounded.
- AuditExport.WriteExport: failures of the disk are steps of `AuditExportFiles`, not of
  the loop.
- AuditExportFiles.NothingIsOverwritten: a left-over side file of an earlier export may
  be swept, which the statement excepts by its name; the age, owner and lock that the
  sweep checks first are not modelled.
- SocketWalk.Sockets: paths are lists of components; how one is printed when it is not
  UTF-8 is not modelled.
- Offline.NormalClosure: the scan of source text for network APIs and the comparison with the
  list of forbidden crates are not modelled; whether a dependency is normal is part of the
  graph.
- The hash chain and the keys of the audit log, retention, the command line, the user
  interfaces, packaging, and the probes of other platforms.
