# A verified model of the guesthopper command channel

guesthopper runs one session per vsock connection inside a guest and is driven from the
host over a length-prefixed frame protocol.  This Dafny project models the agent's session
protocol, the three frame codecs, the telnet and SSH gateways and the accept loop, and
proves what they keep over every run.  `dafny verify dfyconfig.toml` checks it.

| file | models |
|---|---|
| `Codec.dfy`, `Readers.dfy`, `Control.dfy` | frames, the three readers under arbitrary short reads, `_collect_result` |
| `Telnet.dfy` | `TelnetInbound` as a byte fold, its token grammar, and the class |
| `Cancel.dfy` | `Cancel` at the grain of its atomic operations |
| `Session.dfy` | one agent session (exec and open-pty) as a labelled transition system with a clock |
| `SessionSafety.dfy`, `SessionTime.dfy`, `SessionProgress.dfy` | its invariants, its time bounds, what ends it |
| `SessionCauses.dfy`, `SessionTimers.dfy`, `SessionRequest.dfy`, `SessionOutput.dfy` | what each fact about a session says of its run, when its timers fire, what answers its first frame, where the child's output goes |
| `EndToEnd.dfy`, `InputPath.dfy` | child to host and SSH client to child, across components |
| `LostOutput.dfy` | a run in which a clean exit loses output |
| `PtyDescriptors.dfy`, `PtyWrite.dfy` | open_pty's descriptors and `write_all_fd` |
| `SshGateway.dfy`, `ShellClient.dfy`, `AcceptLoop.dfy` | backpressure and writer order, `run_shell`, permits |

## How the session model is built

`Session.State` holds where each task is parked; `Session.Step` is a step of the
environment (peer, child, transport), of one task, or a tick of the clock in milliseconds.
Every interleaving is allowed.  Three facts of the runtime are used: the current-thread
flavour (src/main.rs:32) makes each poll atomic, an aborted task is never polled again, and
time passes only when no task can run, so an armed timer cannot be passed unfired.

- `WriterReady`/`WriterApply`: the writer task, src/session.rs:205-231.
- `PumpReady`/`PumpApply`: `pump` and the pty's output task, src/session.rs:372-379, 696-727, 891-903.
- `InputReady`/`InputApply`: stdin_task and input_task, src/session.rs:382-443, 731-770; the biased select decides `InputTurn`.
- `MainReady`/`MainApply`: `drive`, the select loops, the reaps, the drains and the EXIT, src/session.rs:244-290, 449-524, 674-691, 778-819.
- `ExitFields`: src/session.rs:115-133.

`cancel` is a flag in this model; `Cancel.dfy` justifies that by showing that no waiter can
stay parked after a completed `fire`.

## Where the code and its comments differ

The model follows the code.

- src/frame.rs:87-93 promises None at a frame boundary but returns it for any EOF inside the five header bytes, as ssh_gateway.py:84 does; guest_cmd.py:91-93 raises.  `Codec.StreamSync` states both.
- telnet_gateway.py:64-67 says the cap keeps memory bounded, but line 146 appends an escaped 0xFF without checking it.  `Telnet.SubnegBound` gives the exact condition, `Telnet.CapCanBePassed` a witness for every excess.
- src/session.rs:413 ends exec's stdin forwarder without firing `cancel`; after that nobody reads the transport and neither the idle timeout nor EOF detection works.  `SessionProgress.StaysForeverIffRefused` shows this is exactly the case the silent-peer bound misses, `RefusedStdinIsDeaf` reaches it.
- src/session.rs:109-111 says an override wins; a failed reap reports "error" even so (line 131).
- src/session.rs:507-519 aborts a pump that is still parked 250 ms after the child ended, losing the chunk it holds.  `EndToEnd.DeliveredInFull` says precisely when and what is lost; `LostOutput.CleanExitLosesOutput` reaches it, with an EXIT that reports code 0 and "exited".

## Model

| member | source | states |
|---|---|---|
| Codec.StreamRoundTrip | src/frame.rs:89-137 | any frame list within the reader's cap comes back exactly from its encoding, followed by a clean close |
| Codec.WireLayout | src/frame.rs:112-137 | a frame is its type, its length most significant byte first, its payload |
| Codec.ReaderLimits | src/frame.rs:89-110 | for every byte string, which of the four outcomes each reader gives, in terms of the wire: the agent's limit is its configured cap, the hosts' is 16 MiB |
| Codec.StreamSync | guest_cmd.py:85-112 | on arbitrary bytes every decode starts on a frame boundary, and the last read is a clean close exactly when nothing (guest_cmd) or less than a header (agent, SSH) is left |
| Codec.DecodePrefix | src/frame.rs:89-110 | a stream cut anywhere decodes to a prefix of its frames |
| Codec.DecodeMonotone | src/frame.rs:89-110 | bytes that arrive later never revise frames already returned |
| Codec.DecodeTooBig | src/frame.rs:97-104 | a frame over the cap is refused from its header alone and ends the reads |
| Codec.WritersAgree | ssh_gateway.py:65-72 | the three writers emit identical bytes up to MAX_FRAME_LEN, every reader whose cap admits them reads them back, the guarded writers refuse exactly what guest_cmd could not read and guest_cmd's only what 32 bits cannot express |
| Codec.ClampIsNearest | src/frame.rs:65-67 | the clamped cap is the admissible value nearest to the one requested |
| Codec.InboundCap.Set | src/frame.rs:72-74 | the stored cap is the clamped request and stays within the bounds |
| Readers.RecvExact | guest_cmd.py:85-95 | whatever pieces recv() returns: the next n bytes, or None exactly at EOF with nothing read, or the mid-frame error; an OSError comes out if and only if a recv() raised one |
| Readers.ReadFrameGuestCmd | guest_cmd.py:98-112 | unless a recv() failed, and only then an error, the outcome and the stream position are the dialect's, independent of the pieces |
| Readers.ReadExact | src/frame.rs:90-95 | the caller's buffer is filled in place with exactly the next bytes, or the stream was too short, or a read failed |
| Readers.ReadFrameAgent | src/frame.rs:89-110 | the same as for guest_cmd, for the agent's reader and its configurable cap |
| Readers.ReadFrameSsh | ssh_gateway.py:80-96 | the same for the asyncio reader |
| Readers.ReadFrames | src/session.rs:731-770 | repeated reads by any of the three readers return exactly what the bytes decode to on a stream that does not fail, and a prefix of it, with the error, on one that does |
| Readers.RecvLine | guest_cmd.py:72-82 | the handshake read takes the line through its newline (or the limit) and nothing more, unless a recv() failed |
| Readers.LineLenMeans | guest_cmd.py:72-82 | that line ends with its first newline, or where the limit or the stream does |
| Readers.HandshakeKeepsSync | guest_cmd.py:148-153 | an OK line followed at once by frame bytes is split exactly between them |
| Readers.CollectResult | guest_cmd.py:175-224 | unless a recv() failed, the result is a function of the bytes alone; one PING goes out per quiet interval |
| Readers.CollectMeaning | guest_cmd.py:196-217 | a result is returned only for a well-formed EXIT reached before any ERROR, with exactly the STDOUT and STDERR payloads before it |
| Telnet.ChunkIndependence | telnet_gateway.py:99-112 | however the stream is cut into chunks, the calls to feed together emit the same and end in the same state |
| Telnet.FeedTokens | telnet_gateway.py:108-152 | for every token list and every chunking of its spelling, feed emits exactly the data, resizes and replies the tokens denote; the replies are stated by OptionIsAnswered, the resizes by ResizesExactly |
| Telnet.OptionIsAnswered | telnet_gateway.py:154-170 | agreement to one of the three opening offers is answered by nothing, any other DO by WONT and any other WILL by DONT of the same option, and a refusal by nothing, for every option and chunking |
| Telnet.EveryStreamIsTokens | telnet_gateway.py:108-152 | every byte stream is the spelling of a token list and one unfinished token, and the shipped parser's outputs and state are theirs, the accumulator up to the cap |
| Telnet.ResizesExactly | telnet_gateway.py:172-181 | a finished subnegotiation reports (rows, cols) if and only if it starts with the RFC 1073 encoding of that size and both are nonzero |
| Telnet.NawsRoundTrip | telnet_gateway.py:135-181 | a window size encoded, escaped, sent and cut into any chunks arrives as exactly that resize, or as nothing when a dimension is zero, with no data and no reply |
| Telnet.CapRefines | telnet_gateway.py:135-151 | the capped parser emits what an unbounded one emits on every stream from every state |
| Telnet.SubnegBound | telnet_gateway.py:135-146 | the accumulator exceeds MAX_SUBNEG_LEN exactly when escaped IACs arrived while it was full, and by their number |
| Telnet.CapCanBePassed | telnet_gateway.py:145-147 | for every n some stream leaves the accumulator n bytes over the cap |
| Telnet.EscapeIsTransparent | telnet_gateway.py:82-85 | escaped bytes parse back to themselves with no resize and no reply, under any chunking |
| Telnet.RepliesAreMute | telnet_gateway.py:154-170 | the replies of any feed, option 255 included, re-parse to nothing at all |
| Telnet.NegotiationQuiesces | telnet_gateway.py:154-170 | from any two parser states and any bytes in flight, two such endpoints over FIFO byte channels exchange at most a number of bytes known in advance, in any interleaving, and exactly that many when both run dry, less what an endpoint stopped inside a negotiation still owes |
| Telnet.TelnetInbound.FeedByte | telnet_gateway.py:113-151 | one byte changes the parser's fields and outputs as the machine prescribes |
| Telnet.TelnetInbound.EndSubneg | telnet_gateway.py:172-181 | the one resize appended is the size whose report the accumulator holds (`Reports`, stated by encoding, as in ResizesExactly); without a report nothing is; the accumulator is cleared |
| Telnet.TelnetInbound.FeedChunk | telnet_gateway.py:108-152 | the stateful method computes the fold over the chunk from the state it was left in |
| Cancel.NoLostWakeup | src/session.rs:67-94 | with any number of waiters and firers in any interleaving, no waiter is parked unnotified after a completed fire, and wait returns only if a fire has begun |
| Cancel.FireReleasesAll | src/session.rs:77-93 | after a completed fire every present and future waiter can step and has returned after two steps of its own |
| SessionSafety.TraceGrammar | src/session.rs:265-289 | the frames queued are data then at most the one EXIT, or a lone ERROR, or nothing; the wire is always a byte prefix of their encoding |
| SessionSafety.NothingAfterTeardown | src/session.rs:205-231 | once cancel has fired no further byte reaches the client, and the writer's task can do nothing but stop |
| SessionSafety.StreamsConserved | src/session.rs:372-379 | what the channel accepted of a stream is a prefix of what its pump read, and once an EXIT is queued nothing is missing but an aborted pump's parked chunk |
| SessionOutput.ReadsAllWritten | src/session.rs:891-903 | what a pump has read is what the child wrote to its pipe |
| SessionOutput.OutputFlows | src/session.rs:700-726 | until its pipe is closed or its drain is over a pump takes whatever the child writes next, or can hand over the chunk it has, or finds the queue full |
| SessionOutput.FinishedIsDelivered | src/session.rs:205-241 | a session that returns without teardown has put every frame it queued on the wire, and if it ran a verb the last is its EXIT |
| SessionCauses.FactsHaveCauses | src/session.rs:372-524 | on every run: a pump is over if and only if its pipe was closed (or the pty's found the writer gone); a chunk is lost iff a drain ran out on a full queue; cancel has fired, and the watch is over, iff a timeout, a failed write or the peer's end came; the child was started, hung up, killed, timed out or given up for its peer iff the run took the step where the source does it |
| SessionRequest.FirstFrameIsAnswered | src/session.rs:261-289 | the first frame decides: the verb served, or the one ERROR that is due to it and nothing else (on the wire in full unless cancel fires), or nothing for a peer that closes |
| SessionRequest.SilenceGetsNothing | src/session.rs:261-264 | a peer that sends no REQUEST in time gets no verb, no frame and no byte |
| SessionSafety.NoAbandonedChild | src/session.rs:463-505 | a finished session's child was waited for, or its wait failed, or its group was killed and REAP_GRACE elapsed; including pty set-up failures after the spawn |
| SessionSafety.KidReason | src/session.rs:109-133 | the reported code is the child's own, and -1 whenever it was not reaped or left no status; "timeout" and "disconnected" are exactly those ends of a reaped child, "exited"/"signaled" imply that no signal was sent, "error" is exactly a failed reap |
| SessionSafety.ReasonsAreTrue | src/session.rs:521-523 | the EXIT on every run carries that code and reason |
| SessionSafety.ChildStdinFidelity | src/session.rs:382-443 | the child's stdin is a prefix of the STDIN payloads sent after the request, up to exec's first STDIN_EOF, for any frames in between, and all of them once every frame is read and no write is pending |
| SessionTime.SessionTimeBound | src/session.rs:449-523 | with an effective deadline d the session has returned by idle + d + REAP_GRACE + 2*250 ms + (CHANNEL_BOUND+2)*write_timeout, whatever the peer, the child and the transport do; a session without a verb by idle + REAP_GRACE + (CHANNEL_BOUND+2)*write_timeout |
| SessionTime.HorizonHolds | src/session.rs:233-241 | from every bounded state the session returns within its remaining budget |
| SessionTime.TimeoutIsOnTime | src/session.rs:482-492 | exec never runs past its armed deadline, and "timeout" means the kill was sent at the moment it fell due |
| SessionTimers.DeadlineIsThePromised | src/session.rs:455-492 | that moment is the REQUEST's serving time plus the deadline it names, or the agent's default if it names none; with 0, or without a default, no exec is ever timed out |
| SessionTimers.ExecSelectIsBiased | src/session.rs:461-505 | in exec's select cancel comes before the deadline, the deadline before the child and the client's input last |
| SessionTimers.TimersAreExact | src/session.rs:205-231 | no timer fires early or late, or after what it waits for has come: write_timeout counts from the frame taken, idle_timeout from the last frame read or write to the child completed, and the waits for the REQUEST, the reap, the hangup and the drains from the step that began them |
| SessionTime.TeardownTimeBound | src/session.rs:798-819 | from the firing of cancel, exec ends within REAP_GRACE + 2*250 ms and open-pty within 2 s + REAP_GRACE + 200 ms |
| SessionProgress.SilentPeerIsNoticed | src/session.rs:731-783 | while the input task is watching, a silent peer ends the watch within 2*idle_timeout and the session a bounded teardown later, deadline or not, unless exec's child refuses its stdin |
| SessionProgress.StallIsNoticed | src/session.rs:192-201 | a peer that takes none of the frame being written is given up after write_timeout, and a child that takes none of its stdin after idle_timeout, whatever the peer keeps sending, and the session returns a bounded teardown later |
| SessionProgress.StaysForeverIffRefused | src/session.rs:408-417 | a parked exec without a deadline and with a silent peer can stay forever if and only if its child has refused its stdin |
| SessionProgress.DeafForever | src/session.rs:413 | in that case time passes without end and nothing happens |
| SessionProgress.RefusedStdinIsDeaf | src/session.rs:389-417 | such a state is reached, with the peer's close unread |
| SessionProgress.NeverResumed | src/session.rs:389-393 | once the input task is done or the select is left, no further frame is taken from the transport |
| SessionProgress.RunLength | src/session.rs:205-241 | a run is no longer than its initial work plus six steps per environment step plus the time it takes |
| SessionProgress.ReturnsUnaided | src/session.rs:233-241 | from every bounded state the session's own tasks and the clock bring it to its return without any step of the peer, the child or the transport |
| SessionProgress.ExecReturns | src/session.rs:449-523 | a deadline-bounded exec run that has not returned is shorter than a bound in the environment's steps alone, and can be continued to its return without any |
| EndToEnd.HostOutputIsPrefix | guest_cmd.py:184-214 | at every moment, for every part of the wire the host has read, its stdout and stderr are prefixes of what the child wrote |
| EndToEnd.DeliveredInFull | src/session.rs:507-523 | when the host gets a result, each stream is exactly what the child wrote short of an aborted pump's parked chunk: complete if and only if no drain ran out with that pump parked on a full queue, and to the end of the pipe if it was closed |
| EndToEnd.EverythingArrives | src/session.rs:205-241 | every session that ran a verb and returned without teardown leaves a host that reads to the end its code, its reason and everything the child wrote to each pipe that was closed |
| LostOutput.CleanExitLosesOutput | src/session.rs:513-519 | for every write_timeout of at least a drain some run gives the host a result with code 0 and reason "exited" whose stdout lacks the last bytes the agent read |
| EndToEnd.ResultIsTheSessions | guest_cmd.py:204-210 | the host's code and reason are those the session derived from the child |
| EndToEnd.DisconnectedIsSilent | src/session.rs:468-481 | exec never delivers an EXIT with reason "disconnected"; open-pty only when its input ended without firing cancel |
| EndToEnd.PtyReportsDisconnected | src/session.rs:766-783 | that exception is reached: a half-closing pty peer does receive it |
| InputPath.KeystrokesArrive | ssh_gateway.py:257-275 | across gateway, wire and agent, the child's stdin is a prefix of the data the SSH client sent |
| InputPath.KeystrokesAllArrive | ssh_gateway.py:257-275 | once all is heard and read and no write is pending, the child's stdin is exactly that data |
| PtyDescriptors.OpenAndSpawn | src/session.rs:549-668 | every exit before the shell runs leaves all five descriptors closed exactly as often as opened |
| PtyDescriptors.DupThree | src/session.rs:605-620 | all three dups are attempted whichever fail and, if one does, exactly those that succeeded are closed |
| PtyDescriptors.OpenPty | src/session.rs:533-796 | on every path, and for every interleaving of the two tasks' uses and ends, master, slave and dups are each closed exactly once and never used outside; a child is spawned at most once, with all five open; one that runs is not killed there, and one that cannot be run is killed and reaped |
| PtyDescriptors.DropOutTask | src/session.rs:789-791 | dropping the aborted output task closes the master and restores the open set |
| PtyDescriptors.LinearMeans | src/session.rs:585-592 | in a linear log every use of a descriptor lies between its one open and its one close |
| PtyWrite.WriteAllFd | src/session.rs:854-889 | exactly the input in order under short writes and would-blocks; an error, after a proper prefix, if and only if a call failed or wrote zero bytes; the loop ends when would-blocks are finite |
| SshGateway.Backpressure | ssh_gateway.py:180-190 | paused implies above the low mark, unpaused below the high one, at most INBOUND_HIGH_WATER data events are queued, and the pump never waits on an empty queue while reading is paused |
| SshGateway.FlagIsLatched | ssh_gateway.py:257-267 | on every run the pause flag is exactly the latch of the queue's length: on at the high mark, off at the low mark, kept between |
| SshGateway.FlagKeptBetweenMarks | ssh_gateway.py:257-267 | while the length stays strictly between the marks reading is neither paused nor resumed |
| SshGateway.AgentReadsInOrder | ssh_gateway.py:225-287 | the agent reads whole frames: REQUEST first, then the queued events once each in FIFO order, with PINGs between them |
| SshGateway.EventsKeepTheirMeaning | ssh_gateway.py:268-275 | the frame forwarded for the k-th event has that event's type and content |
| SshGateway.TasksRunUntilFailure | ssh_gateway.py:239-240 | from the REQUEST on the keepalive and the pump can always take their next turn until a write of theirs fails |
| SshGateway.FailedWriteIsFinal | ssh_gateway.py:279-287 | a failed write is its task's last |
| SshGateway.VsockShellSession.EnqueueEvent | ssh_gateway.py:180-190 | the event is appended and the flag set when the high mark is reached and the pause succeeds |
| SshGateway.VsockShellSession.PumpInbound | ssh_gateway.py:257-277 | one event leaves the queue, the flag clears at the low mark, and the event's frame is written, or the pump ends on an oversized payload or failed write |
| SshGateway.VsockShellSession.SendRequest | ssh_gateway.py:233-240 | the REQUEST is the first frame and the sibling tasks start after it |
| SshGateway.VsockShellSession.Keepalive | ssh_gateway.py:279-287 | one PING per turn, or the task ends |
| ShellClient.RunShell | guest_cmd.py:323-365 | the loop computes the specified run of every sequence of polls, which RunMeans and StdinOnce are about |
| ShellClient.RunMeans | guest_cmd.py:348-365 | the loop ends at the first EXIT, ERROR, close or fault, with the EXIT's integer code (0 without one), 1, 0 or an error; it has shown exactly the STDOUT and STDERR frames before that, in order, and sent one PING per poll that found nothing ready |
| ShellClient.StdinOnce | guest_cmd.py:326-347 | STDIN_EOF is sent exactly once, when stdin ends, and the STDIN payloads are what was typed before it |
| AcceptLoop.PermitsConserved | src/main.rs:146-188 | available permits, the acceptor's and the live sessions always add up to the cap, failed accepts included |
| AcceptLoop.SlotsComeBack | src/main.rs:146-188 | a session that awaits its request, runs no verb or runs exec under a deadline never holds its permit beyond its time limit |
| AcceptLoop.ReturnFreesPermit | src/main.rs:170-187 | a session that has returned can end at once, and its permit is then free for the next accept |
| AcceptLoop.SlotIsFreed | src/main.rs:146-188 | from every reachable state of the agent, a session whose end depends only on its own timers gives its permit back by what the sessions and the clock do themselves, whatever other peers and children are up to |

## Left out

- Real I/O: vsock, fork, openpty, ioctl, fcntl and kill are nondeterministic outcomes or log entries.  Spawning and openpty take no time.
- JSON, shlex, UTF-8 and floating-point durations: control payloads are parsed by parameters of the model, and a deadline is absent, zero, a number of milliseconds or unconvertible.
- Which process group members a signal reaches; a child that escapes its group shows up as a pipe that stays open.
- Terminal raw mode, window-size ioctls, signal handlers, argument parsing, environment variables, logging, `find_vsocket`, `prepare_command`, `warn_long_command`, src/portalcall.rs: they would add only easy members.
- asyncssh itself, its authentication and the TCP accept threads; what the guest-to-SSH pump does with the frames it reads, and the telnet `bridge` loop.
- Multi-threaded runtimes: main.rs fixes the current-thread flavour and the abort before EXIT relies on it.
- The session is a transition system over values, not a class: its tasks interleave, which methods with frames would hide.  The gateway, parser, reader and descriptor objects are classes.
- Backpressure: assumes that pause_reading and resume_reading succeed and that a paused channel delivers no data; resume_reading delivering buffered data from inside the call is not modelled.
- SessionTimeBound: covers exec with an effective deadline and sessions without a verb; open-pty has no deadline in the source and is bounded by SilentPeerIsNoticed, StallIsNoticed and TeardownTimeBound instead.
- SlotsComeBack: gives no limit for open-pty or for exec with deadline 0, for the same reason.
- KeystrokesArrive: relates the SSH client to the child; the same path from telnet is not composed.
