# ttyforge: verified model

ttyforge forges virtual serial ports. This project models the parts of it that carry
protocol, timing or parsing logic, and proves what those parts promise.

| module | models | proves |
|---|---|---|
| `TelnetFraming`, `TelnetNegotiation`, `TelnetCodec`, `OptionRules`, `TelnetBytes` | the RFC 2217 client's telnet codec (RFC 854, RFC 855) | framing is a bijection between event lists and byte streams; decoding does not depend on how reads split; replies are the received verdicts without repeats, option by option and in the protocol's numbers; control sequences leave no trace in the data |
| `Quiescence` | two codecs joined by FIFO channels | the exact condition under which negotiation dies out |
| `PortSettings` | line settings relayed as COM-PORT-OPTION commands (RFC 2217) | the relay rebuilds the port's settings; what a server that reads 0 as a query ends up driving |
| `Rng`, `Noise`, `Wire`, `WireRuns`, `WireSchedule` | the wire: generator, noise, pacing, cells | generators start apart and never die; which draw decides what; the schedule of a call written out; noise is independent of data, segmentation and speed; the pacing cursor in closed form; throughput and order under sleep-then-write; what latency costs, exactly |
| `LineDiscipline`, `Screen`, `Consoles`, `ConsoleTranscript` | the simulated console's line editing and a terminal that renders it | the two-pass specification of lines; exactly what a console writes for any sitting; the screen always agrees with the device |
| `SimLoop` | a simulated device between its two wires | what the user reads back is one noisy copy of the device's answers to one noisy copy of the typing, whatever the pacing and the reads; over quiet wires the terminal shows the device's line; everything typed is answered |
| `ShellWords`, `ShellHandler`, `ShellCommands`, `ExecWrapper`, `OpenQuotes` | the shell and U-Boot presets | quoting round trip; environment round trip; what each command prints and leaves; the exec wrapper's output is faithful exactly for balanced text; the echoed line never shows the marker |
| `BridgeSession`, `RelayLatch`, `SessionRest` | one RFC 2217 session: two concurrent activities, one locked writer | the peer recovers data, commands and settings from every interleaving; settings precede their data; exactly which streams relaying survives however they are cut into reads; a refusal silences the relay, an open latch relays every poll; everything read is dealt with in the end |
| `BridgeLoop` | peer after peer: drain, session, abort-then-await | one reader of the port in every run; every byte accounted for; the loop never gets stuck |
| `MuxRing`, `MuxFanout`, `MuxMerge`, `MuxBacklog` | the mux: bounded ring with cursors, bounded queue to the device | fan-out is faithful from the device's first read, gaps are reported exactly, every receive makes progress, a consumer has the whole stream exactly when it keeps up, consumers are isolated; merging keeps chunks in arrival order, and whole unless their write failed; when the queue's bound is one on bytes |

Code that updates state in place is a class here (`TelnetCodec.Telnet`, `Rng.Generator`,
`Wire.PacedWire`, `LineDiscipline.LineDevice`, `ShellHandler.Handler`, `MuxRing.Ring`), each
method proved against a specification function over values; the theorems are about those
functions. The concurrent parts are machines of steps, and their theorems hold for every
sequence of steps. `Common` holds the shared vocabulary.

Time is in integer nanoseconds. Probabilities are thresholds on the 53-bit draw: a float
draw/2^53 is below p exactly when the draw is below the ceiling of p * 2^53.

## Where code and comments differ

- The comment on unknown options says they are refused once (src/forge/rfc2217.rs:218-219).
  The code refuses every such command, including a refusal, so two such peers bounce one
  refusal for ever: `Quiescence.UnknownRefusalBounces`.
- Crossing verdicts for one known option also never die out:
  `Quiescence.OppositeVerdictsChase`. `Quiescence.QuietExactlyWhenFlushedIsPeaceful` says
  exactly which nets go quiet.
- Relaying stops when a read ends with COM-PORT refused, so it can depend on where reads
  split although the decoder never does (src/forge/bridge.rs:337-338). The cutting is
  immaterial exactly for streams whose COM-PORT verdicts hold no refusal or end in one:
  `RelayLatch.CuttingIsImmaterialExactly`; one stream for which it matters:
  `RelayLatch.LatchDependsOnBoundaries`.
- A port whose speed goes back to 0 sends SET-BAUDRATE 0, which RFC 2217 reads as a query.
  The server's record of commands is exact; the line it drives keeps the last chosen speed.
  `PortSettings.LineMatchesExactly` says when they agree, `PortSettings.SpeedZeroIsMissed`
  is a run where they do not.
- Latency is said to leave throughput alone (src/forge/wire.rs:339-355). Within one call it
  does: `WireRuns.LatencyShiftsOneCall`. Callers sleep through a plan before making the
  next (src/forge/wire.rs:188-198), so on a line that drops nothing a busy caller pays one
  latency per call, and nothing else: `WireRuns.BusyCallerPays`; it is free exactly when it
  is 0: `WireRuns.LatencyIsFreeExactly`. Under drops it pays for each call of which anything
  arrives, and never more than without drops: `WireRuns.NoisyCallerPays`.
- The queue towards the device is said to count bytes (src/forge/mux.rs:51-54). It counts
  chunks of one cell each, so what it bounds is 64 cells of bytes: `MuxBacklog.QueueIsBounded`.
  On lines that drop nothing, 64 bytes is the bound exactly when a cell is a single byte,
  that is, below 4000 simulated baud; otherwise one consumer typing two bytes at a time
  queues 128: `MuxBacklog.QueueCountsBytesExactly`.

## Model

| member | source | states |
|---|---|---|
| TelnetFraming.ScanConcat | src/forge/rfc2217.rs:151-211 | parsing a stream in two goes gives the parser state and events of parsing it in one |
| TelnetFraming.Escape | src/forge/rfc2217.rs:284-296 | the escaper, fast path included, doubles exactly the 0xFF bytes |
| TelnetFraming.ScanInvertsEncode | src/forge/rfc2217.rs:151-211 | every list of data bytes, negotiations, subnegotiations, ignored and broken sequences survives encoding and parsing, and leaves the parser clean |
| TelnetFraming.EncodeInvertsScan | src/forge/rfc2217.rs:151-211 | every byte stream is the encoding of the events parsed from it, in order, plus the bytes of one unfinished event: nothing is lost or invented |
| TelnetNegotiation.AnswersNeverMultiply | src/forge/rfc2217.rs:215-255 | a codec never sends more commands than it receives |
| TelnetNegotiation.RepliesAreDedupedVerdicts | src/forge/rfc2217.rs:213-255 | for each slot, and so for COM-PORT in both directions together, the replies are the verdicts received with consecutive repeats removed |
| TelnetNegotiation.SlotHoldsLastVerdict | src/forge/rfc2217.rs:225-253 | each slot ends at the last verdict it was told |
| TelnetNegotiation.DedupAlternates | src/forge/rfc2217.rs:213-214 | those replies alternate, beginning with the opposite of the slot's initial verdict, hence with a refusal from a fresh codec |
| TelnetNegotiation.UnknownAlwaysRefused | src/forge/rfc2217.rs:216-224 | each command for an unknown option draws one refusal in the matching direction, with no state change |
| OptionRules.DirectionsAreIndependent | src/forge/rfc2217.rs:225-253 | for BINARY (0) and SGA (3), WILL and WONT are answered by DO and DONT and DO and DONT by WILL and WONT, each change of verdict once and nothing else; each of the four slots ends at the last verdict spoken about it |
| OptionRules.ComPortByTheBook | src/forge/rfc2217.rs:225-253 | the replies about COM-PORT (44) are exactly its changes of verdict, whichever side they are about, each by the other side's verb |
| OptionRules.OptionsAreIndependent | src/forge/rfc2217.rs:215-255 | what is answered about one option is what would be answered to the commands about that option alone |
| OptionRules.OthersAreRefused | src/forge/rfc2217.rs:216-224 | every other option is refused each time it is mentioned, DONT against WILL and WONT and WONT against DO and DONT, whatever comes between |
| OptionRules.RepliesByTheBook | src/forge/rfc2217.rs:151-255 | so the reply bytes to any input bytes, parsed back, obey these rules for every option |
| OptionRules.OpeningBytes | src/forge/rfc2217.rs:129-141 | the opening bytes, one by one |
| TelnetCodec.DecodingIsSplitIndependent | src/forge/rfc2217.rs:148-211 | data, replies, notices and final codec are the same for every way of cutting the input into reads |
| TelnetCodec.DecodingIsExact | src/forge/rfc2217.rs:151-211 | a stream of framed events decodes to exactly their data, answers and notices; subnegotiation bytes, complete or broken, never reach the data |
| TelnetCodec.DecodingIsMonotone | src/forge/rfc2217.rs:148-150 | a prefix of the stream has already yielded a prefix of the data |
| TelnetCodec.EscapeRoundTrip | src/forge/rfc2217.rs:283-296 | any bytes, escaped, come out of a clean codec unchanged, with no reply and no notice |
| TelnetCodec.ReplyNeverOutgrowsInput | src/forge/rfc2217.rs:176-181 | reply bytes never exceed input bytes, counting a command already begun |
| TelnetBytes.ControlIsWorth | src/forge/rfc2217.rs:151-211 | a negotiation, a subnegotiation, a broken one or another command yields no data; only the first draws a reply, only a complete subnegotiation a notice |
| TelnetBytes.ControlLeavesNoData | src/forge/rfc2217.rs:148-211 | put between any two stretches of a stream, it leaves the data as it was |
| TelnetBytes.NoticesByTheBook | src/forge/rfc2217.rs:257-280 | a subnegotiation is reported if and only if it is about option 44, numbered 101 to 105 and carries a value; four bytes count big-endian, otherwise the first |
| TelnetBytes.CommandsByTheBook | src/forge/rfc2217.rs:361-381 | each settings command is 44, the field's number 1 to 5 in rising order, and the new value of a field that moved, the speed in four bytes big-endian |
| TelnetBytes.FrameInBytes | src/forge/rfc2217.rs:298-305 | its frame is 255 250, the payload with every 255 doubled, 255 240 |
| TelnetCodec.RepliesOverAnyInput | src/forge/rfc2217.rs:176-255 | the reply bytes to any raw input are command bytes obeying the per-slot rule |
| TelnetCodec.CmdBytesEvents | src/forge/rfc2217.rs:176-181 | reply and offer bytes parse back to the same commands and to nothing else |
| TelnetCodec.Telnet.constructor | src/forge/rfc2217.rs:113-125 | a new codec is clean and believes every known option agreed |
| TelnetCodec.Telnet.Start | src/forge/rfc2217.rs:129-141 | the opening bytes are the five offers, in order |
| TelnetCodec.Telnet.Negotiate | src/forge/rfc2217.rs:215-255 | one command moves only its own slot, and is answered only if that changes it or the option is unknown |
| TelnetCodec.Telnet.Decode | src/forge/rfc2217.rs:151-211 | the mutable byte-at-a-time loop computes the parse-then-act specification, from any reachable state |
| Quiescence.DeliveryLowersMeasure | src/forge/rfc2217.rs:215-255 | on a net where all verdicts still to be answered on a lane agree, each delivery keeps that and lowers (commands in flight + disagreeing slots) by exactly one |
| Quiescence.UniformIsSettled | src/forge/rfc2217.rs:215-255 | in-flight commands carrying one verdict per known option make such a net |
| Quiescence.QuietExactlyWhenNotQuarrelling | src/forge/rfc2217.rs:213-255 | where each side's last command in flight is what its slot holds, negotiation dies out under every delivery order if and only if no unknown option is in flight and no lane has both verdicts still to be answered |
| Quiescence.CoherenceIsKept | src/forge/rfc2217.rs:225-253 | a codec's own answers keep that premise |
| Quiescence.QuietSurvivesDelivery | src/forge/rfc2217.rs:213-255 | going quiet does not depend on which delivery happens first |
| Quiescence.QuietExactlyWhenFlushedIsPeaceful | src/forge/rfc2217.rs:213-255 | for any net at all: it goes quiet if and only if nothing quarrels once what is in flight has been delivered once each way |
| Quiescence.OppositeVerdictsChase | src/forge/rfc2217.rs:227-253 | a crossed offer and refusal return to the same state after four deliveries, and never go quiet |
| Quiescence.OpeningOffersDrawNoReply | src/forge/rfc2217.rs:113-141 | a fresh codec that decodes another's opening offers replies nothing and does not change |
| Quiescence.OpeningOffersGoQuiet | src/forge/rfc2217.rs:113-141 | two fresh codecs exchanging offers fall silent under every delivery order |
| Quiescence.UnknownRefusalBounces | src/forge/rfc2217.rs:216-224 | a refusal of an unknown option between two such codecs comes back unchanged after two deliveries, for ever |
| PortSettings.SubnegBytes | src/forge/rfc2217.rs:298-305 | the framed command is the encoding of its unescaped payload, so 0xFF parameters survive |
| PortSettings.CommandsTo | src/forge/rfc2217.rs:361-381 | the pushed commands are the frames of the moved fields' payloads, in field order |
| PortSettings.FramedEvents | src/forge/rfc2217.rs:298-305 | framed commands parse back to their payloads as subnegotiations, with no data and no negotiation |
| PortSettings.ChangesRebuild | src/forge/rfc2217.rs:361-381 | a server holding the old settings that hears the commands holds the new ones; no commands exactly when nothing moved |
| PortSettings.AnswersAreReported | src/forge/rfc2217.rs:257-280 | each server answer is reported under the setting it answers, with its one-byte or big-endian value |
| PortSettings.CommandsAreNotAnswers | src/forge/rfc2217.rs:260-268 | a client command is never reported as a server answer |
| PortSettings.RelayRunRebuilds | src/forge/bridge.rs:383-409 | over any run of snapshots the server's record ends at the last one |
| PortSettings.LineFollowsRun | src/forge/rfc2217.rs:313-324 | with 0 read as a query, the driven line follows every field except that a baud rate of 0 leaves the last chosen one |
| PortSettings.LineMatchesExactly | src/forge/rfc2217.rs:313-324 | so the driven line equals the port's settings if and only if the last baud rate is not 0 or none was ever chosen |
| PortSettings.SpeedZeroIsMissed | src/forge/rfc2217.rs:313-324 | a port set from 0 to 9600 and back leaves the driven line at 9600 |
| Rng.UndoMix | src/forge/wire.rs:270-278 | seeding is invertible: the seed can be read back from the mixed word |
| Rng.SeededInjective | src/forge/wire.rs:270-278 | two seeds share a state only if equal, or one mixes to 0 and the other to 1 |
| Rng.MixesToZeroOnce | src/forge/wire.rs:270-278 | exactly one seed mixes to 0 |
| Rng.WiresStartApart | src/forge/wire.rs:75-78 | under one seed, wires of sessions below 2^63 share an initial state if and only if they are the same wire or the 0-to-1 exception applies |
| Rng.SessionsWrap | src/forge/wire.rs:75-78 | sessions 2^63 apart are handed the same wires |
| Rng.UndoShifted | src/forge/wire.rs:280-287 | a generator step is invertible |
| Rng.NeverDead | src/forge/wire.rs:280-287 | no run of any length reaches state 0 from another state |
| Rng.Generator.constructor | src/forge/wire.rs:270-278 | the seeded state, never 0 |
| Rng.Generator.Next | src/forge/wire.rs:280-287 | one step of the state, its output word, and a state still not 0 |
| Rng.ReferenceValues | src/forge/wire.rs:270-287 | seed 0 and state 1 give the published values of splitmix64 and xorshift64* |
| Rng.ReferenceWires | src/forge/wire.rs:75-78 | the first states of three wires of one seed: which session and direction gets which |
| Noise.FlipChangesOneBit | src/forge/wire.rs:164-165 | a corrupted byte differs from its input in exactly one bit |
| Noise.NoiseIgnoresData | src/forge/wire.rs:155-171 | streams of one length leave the same generator state and equally many survivors |
| Noise.FatesFollowDraws | src/forge/wire.rs:155-171 | a byte is dropped exactly when its draw is below the drop rate, flipped exactly when it survives and its next draw is below the corrupt rate, at the bit a further draw names; a rate of 0 costs no draw |
| Noise.CertainDrop | src/forge/wire.rs:162-163 | a drop rate of 1 loses everything |
| Noise.CertainFlip | src/forge/wire.rs:164-165 | a corrupt rate of 1 alters every byte |
| Noise.WeightsDouble | src/forge/wire.rs:165 | bit k is worth 2 to the k |
| Noise.SurvivorsComeFromOrigins | src/forge/wire.rs:158-170 | each byte out is the byte at its origin, or that byte with the fated bit flipped |
| Noise.OriginsOrdered | src/forge/wire.rs:158-170 | origins are strictly increasing positions of the input |
| Noise.NoDropKeepsLength | src/forge/wire.rs:162-163 | drop rate 0 loses no byte |
| Noise.NoCorruptIsSubsequence | src/forge/wire.rs:164-168 | corrupt rate 0 delivers a plain subsequence |
| Noise.QuietLine | src/forge/wire.rs:156-158 | with both rates 0 the line is transparent and draws nothing |
| Noise.NoiseKeepsAlive | src/forge/wire.rs:155-171 | noise never drives the generator to 0 |
| Wire.PacedWire.constructor | src/forge/wire.rs:103-122 | a wire starts idle at the current time with its own session's and direction's seed |
| Wire.PacedWire.Plan | src/forge/wire.rs:126-145 | the planning loop computes the schedule, cursor and generator of the specification |
| Wire.PacedWire.SampleJitter | src/forge/wire.rs:147-153 | one draw per call when jitter is on, none when it is off |
| Wire.PacedWire.Transform | src/forge/wire.rs:155-171 | the loop applies to each byte the fate its own draws decide |
| WireSchedule.PlanIsEven | src/forge/wire.rs:103-153 | on a line without noise a call's bytes are cut in order into cells of one size (1 below 4000 baud, else baud / 2000, or everything on a free line); each is due when its last byte is through at the configured byte time, from when the line is free, plus latency and one draw of jitter |
| WireSchedule.JitterIsBounded | src/forge/wire.rs:147-153 | jitter delays a call by no more than asked for |
| WireRuns.RunTransforms | src/forge/wire.rs:126-171 | without jitter a whole run delivers one transformation of the whole stream |
| WireRuns.NoiseIgnoresSegmentation | src/forge/wire.rs:103-171 | jitter-free wires with equal rates and generator deliver the same bytes whatever their baud, latency, clock and the cutting of the stream into calls |
| WireRuns.QuietRunDelivers | src/forge/wire.rs:126-171 | without noise any run, jittery or not, delivers the very bytes it was handed |
| WireRuns.JitterCountsCalls | src/forge/wire.rs:131-153 | with jitter on, even a noiseless run advances the generator once per call |
| WireRuns.CursorClosedForm | src/forge/wire.rs:126-145 | after any calls the cursor is the maximum of the initial cursor plus all line time and, per call, its time plus the line time from it on |
| WireRuns.DeliveriesKeepLineRate | src/forge/wire.rs:178-228 | under sleep-then-write, with any jitter and failures, two deliveries are at least the line time of the bytes delivered between them apart, so due times never go back |
| WireRuns.JitterFreeKeepsLineRate | src/forge/wire.rs:126-145 | without jitter the bound also counts dropped bytes and needs no protocol |
| WireRuns.LatencyShiftsOneCall | src/forge/wire.rs:126-145 | within one call each cell is due at the line time of the bytes crossed so far, dropped ones included, plus one and the same latency |
| WireRuns.LatencyIsPaidPerCall | src/forge/wire.rs:178-228 | a delivery is due at least one latency, and its own line time, after every delivery of any earlier call |
| WireRuns.BusyCallerPays | src/forge/wire.rs:126-228 | on a line that drops nothing, non-empty calls made back to back end exactly when the line is first free plus the line time of all bytes plus one latency, jitter included, per call |
| WireRuns.NoisyCallerPays | src/forge/wire.rs:126-228 | under any noise such calls end no later than that, and no earlier than the start plus the line time of what arrives plus the latency of each call of which anything does |
| WireRuns.LatencyIsFreeExactly | src/forge/wire.rs:126-228 | without jitter and drops such a run costs its line time alone if and only if the latency is 0, and one latency more if and only if the latency is 0 or there is one call; with drops a latency of 0 costs at most the line time |
| WireRuns.CellsAreBounded | src/forge/wire.rs:105-143 | no cell is empty or larger than the cell size |
| LineDiscipline.FeedingIsSplitIndependent | src/forge/sim.rs:314-344 | device state and output are the same for every cutting of the typing into reads |
| LineDiscipline.LinesAreTwoPass | src/forge/sim.rs:294-344 | from a fresh device the handler gets exactly the segments between folded line ends, each edited as a stack of pushes, rub-outs and clears; the rest is the line in progress |
| LineDiscipline.EveryLineEndsOnce | src/forge/sim.rs:317-326 | any unambiguous mix of CR, LF and CRLF ends each line exactly once |
| LineDiscipline.LineDevice.Feed | src/forge/sim.rs:314-344 | the mutable one-pass loop computes the two-pass specification, echo included |
| ConsoleTranscript.EditingIsEchoed | src/forge/sim.rs:327-341 | typing without line ends edits the line (0x08 and 0x7F take its last character, 0x03 all of it) and is echoed, rub-outs by BS SP BS and 0x03 by ^C and a new prompt |
| ConsoleTranscript.ConsoleWritesTranscript | src/forge/sim.rs:309-344 | any lines, with any editing and any unambiguous ends, typed in any reads, put exactly this on the line: for each its echo, CR LF, the handler's answer to the edited line, and the prompt |
| ConsoleTranscript.PlainLineIsAnswered | src/forge/sim.rs:314-344 | a line without editing keys and Return gives the text, CR LF, the answer to that text and the prompt |
| ConsoleTranscript.ConsoleRunsWrapper | src/forge/sim.rs:314-615 | typed at either shell, the exec wrapper is echoed and answered by begin marker, the user's own output, end marker with status and prompt, if and only if the user's text closes its quotes |
| ConsoleTranscript.ModemAnswers | src/forge/sim.rs:353-364 | the modem answers OK to a line that begins, after blanks, with `at` in either case, ERROR to any other, and nothing to a blank one |
| Screen.PressKeepsScreen | src/forge/sim.rs:318-341 | each key keeps the cursor row equal to prompt and line, blank after it |
| Screen.ScreenAgrees | src/forge/sim.rs:309-344 | for any console with tidy answers, the rendered greeting and output show prompt and current line up to the cursor and blanks after it, for any typing in any reads |
| SimLoop.LinePresetStreams | src/forge/sim.rs:98-105 | every line console, byte by byte, is a device that does not see how its input is cut |
| SimLoop.LoopIsTwoTransformations | src/forge/sim.rs:117-160 | in every jitter-free run the device was fed one noisy copy of the typing, and the user was written one noisy copy of greeting and answers, each short only of the cells on their way |
| SimLoop.PacingDoesNotShow | src/forge/sim.rs:117-160 | two idle jitter-free loops with the same noise that were typed the same have written the same, whatever their speed, latency and reads |
| SimLoop.QuietLoopAnswers | src/forge/sim.rs:117-160 | without noise, with any jitter, an idle loop has written the greeting and the device's answers to the very typing |
| SimLoop.EverythingIsAnswered | src/forge/sim.rs:117-160 | from any state the cells on their way lead to an idle loop, which has then written one noisy copy of the answers to one noisy copy of everything typed |
| SimLoop.EchoReturnsTyping | src/forge/sim.rs:274-280 | over quiet wires an idle echo preset has written back exactly what was typed |
| SimLoop.TerminalShowsTheLine | src/forge/sim.rs:117-344 | over wires without noise an idle console's bytes, rendered, show the prompt and the device's line up to the cursor and blanks after it |
| Consoles.ShellNeat | src/forge/sim.rs:404-502 | the shell and U-Boot handlers answer printable input in whole printable lines and keep their environment printable |
| Consoles.ShellScreenAgrees | src/forge/sim.rs:309-502 | screen agreement for both shells from power-up |
| Consoles.AtScreenAgrees | src/forge/sim.rs:353-364 | screen agreement for the AT modem |
| ShellWords.SplitCommands | src/forge/sim.rs:505-528 | the quote-tracking loop computes the non-blank pieces between unquoted semicolons |
| ShellWords.CommandsJoin | src/forge/sim.rs:505-528 | splitting distributes over balanced text joined by a semicolon |
| ShellWords.ExpandWords | src/forge/sim.rs:530-615 | the nested tokenizer loops compute the mode-by-mode word specification |
| ShellWords.ExpandDollar | src/forge/sim.rs:546-567 | the lookahead consumes the status mark or the longest name, and yields its text |
| ShellWords.QuotedVariable | src/forge/sim.rs:586-595 | a quoted variable is one word, its value taken literally |
| ShellWords.BareVariable | src/forge/sim.rs:596-604 | a bare variable is its value as one word, and no word if that is empty |
| ShellWords.QuotingRoundTrip | src/forge/sim.rs:507-615 | any script of non-empty commands over arbitrary words, quoted and joined, splits and expands back to the same words under any environment and status |
| ShellHandler.InsertOrdered | src/forge/sim.rs:462-464 | the environment stays in strict name order when a name is set |
| ShellHandler.RemoveOrdered | src/forge/sim.rs:459-461 | and when one is removed |
| ShellHandler.Handler.RunOne | src/forge/sim.rs:404-485 | one command's output, status and environment change are those of its expanded words |
| ShellHandler.Handler.PrintNames | src/forge/sim.rs:440-454 | one line or error per name, and status 1 exactly if some name is undefined |
| ShellHandler.Handler.OnLine | src/forge/sim.rs:496-502 | commands run in order, each expanded with the state the one before left |
| ShellHandler.SetenvPrintenv | src/forge/sim.rs:427-468 | after setting a name through the console, printing any name shows the new value for it and the old answer for every other, with the right status |
| ShellHandler.SetenvUndefines | src/forge/sim.rs:457-461 | setting a name to nothing undefines it and only it |
| ShellCommands.EchoLine | src/forge/sim.rs:413-418 | `echo` prints its words on one line and succeeds |
| ShellCommands.JoinedConcat | src/forge/sim.rs:415 | words are joined by single spaces |
| ShellCommands.TrueAndFalse | src/forge/sim.rs:419-426 | `true` and `false` print nothing and leave 0 and 1 |
| ShellCommands.UnknownCommand | src/forge/sim.rs:473-482 | any command a shell does not have is named in its complaint and leaves 127 at the POSIX shell, 1 at U-Boot |
| ShellCommands.VersionLine | src/forge/sim.rs:469-472 | `version` prints the version and an empty line |
| ShellCommands.SetenvLine | src/forge/sim.rs:456-468 | `setenv` with values defines the name as the values joined, leaves every other name, prints nothing and succeeds |
| ShellCommands.SetenvAlone | src/forge/sim.rs:456-468 | `setenv` alone changes nothing |
| ShellCommands.PrintenvAlone | src/forge/sim.rs:427-439 | `printenv` lists every entry in order, and a size that counts each line end once |
| ShellCommands.PrintenvNames | src/forge/sim.rs:440-454 | `printenv` with names prints for each, in order, its value or an error, and leaves 0 if and only if all are defined, 1 otherwise |
| ShellCommands.StatusIsShown | src/forge/sim.rs:546-550 | `echo $?` shows the last status in decimal, and succeeds |
| ShellCommands.NoWordsNoCommand | src/forge/sim.rs:404-411 | a line that expands to no words prints nothing and changes nothing |
| ShellCommands.LoneDollar | src/forge/sim.rs:552-567 | a `$` that names nothing stands for itself, bare or in double quotes |
| ShellCommands.DecimalReadsBack | src/forge/sim.rs:549 | a number is written in digits that read back as it, without leading zeros |
| ShellCommands.NameCharactersAre | src/forge/sim.rs:551 | names are made of ASCII letters, digits and the underscore |
| ShellCommands.BlanksSeparate | src/forge/sim.rs:571-577 | any run of blanks ends a word, and more of them begin none |
| ExecWrapper.WrapperIsFaithful | src/forge/sim.rs:496-615 | for balanced user text the console prints the joined begin marker, exactly the user commands' own output, and the end marker with their status |
| OpenQuotes.FaithfulExactlyWhenBalanced | src/forge/sim.rs:404-615 | whatever the shell's state, the console prints the begin marker, the user's own output and the end marker with its status if and only if the user text closes its quotes |
| ExecWrapper.WrappedSplitsExactly | src/forge/sim.rs:505-528 | the wrapper splits into its three parts if and only if the user text is balanced |
| ExecWrapper.EchoStaysSplit | src/forge/sim.rs:653-667 | the typed line contains the joined begin marker if and only if the user's text does |
| BridgeSession.PeerRecoversMessages | src/forge/bridge.rs:270-351 | whatever order whole messages are written in, a telnet peer recovers data, commands and subnegotiations, each in order |
| BridgeSession.SessionIsTransparent | src/forge/bridge.rs:269-366 | in every run the peer's data is what the wire made of the port's bytes, its commands are the offers and the codec's answers, and the port is owed the decoded bytes |
| BridgeSession.NoiselessSessionIsLossless | src/forge/bridge.rs:283-326 | over a noiseless wire the peer's data with what is in hand is the port's own bytes |
| SessionRest.OwnStepsOweLess | src/forge/bridge.rs:278-366 | every step of either task that reads nothing new lowers what the session still owes |
| SessionRest.SessionPaysUp | src/forge/bridge.rs:269-366 | from any reached state such steps lead to rest, where the peer has been sent all the wire made of every byte the port was read and every answer, and the port has been handed every byte of data the peer sent |
| SessionRest.NoiselessSessionDeliversAll | src/forge/bridge.rs:278-326 | over a noiseless wire the peer ends up with every byte the port was read |
| SessionRest.OffersComeFirst | src/forge/bridge.rs:269-272 | in every run the socket begins with the fifteen bytes of the opening offers |
| SessionRest.NeverDeaf | src/forge/bridge.rs:288-336 | a waiting task takes any bytes and any settings that come |
| BridgeSession.PeerHoldsLastSettings | src/forge/bridge.rs:383-409 | in every run the decoded commands applied to the pristine settings give the last relayed snapshot, unless its commands still wait for the lock |
| BridgeSession.SettingsPrecedeData | src/forge/bridge.rs:285-307 | the bytes before a cell already tell the peer the snapshot its chunk was synced to |
| BridgeSession.ChunkFollowsItsSnapshot | src/forge/bridge.rs:285-307 | over runs: once a chunk is read while COM-PORT is accepted and the sync reads a snapshot, the bytes before every cell of the chunk already decode to that snapshot, whatever both tasks do meanwhile |
| BridgeSession.LatchIsPerRead | src/forge/bridge.rs:336-343 | relaying has stopped exactly if some read ended with COM-PORT refused |
| RelayLatch.CuttingIsImmaterialExactly | src/forge/bridge.rs:336-343 | every cutting of a stream into reads leaves the same latch if and only if the stream's COM-PORT verdicts hold no refusal or end in one |
| RelayLatch.CutThatMatters | src/forge/bridge.rs:336-343 | for every other stream, one read keeps relaying on and some cut into two non-empty reads stops it |
| RelayLatch.RelayingFollowsVerdicts | src/forge/bridge.rs:336-343 | in every session, relaying is on if what was read holds no refusal of COM-PORT and off if it ends refused |
| RelayLatch.RefusalSilencesTheRelay | src/forge/bridge.rs:389-391 | from any reached state with the latch closed, every continuation relays nothing but the commands already waiting for the lock |
| RelayLatch.RefusedPeerHearsNoMore | src/forge/bridge.rs:336-409 | once the bytes read end in a refusal of COM-PORT, the peer decodes no further settings command |
| RelayLatch.PollTellsThePeer | src/forge/bridge.rs:392-408 | while the latch is open, a poll that reads some settings, on the tick or before a chunk, brings the peer's record to them by exactly the commands that changed, whatever the other task does |
| RelayLatch.LatchDependsOnBoundaries | src/forge/bridge.rs:336-343 | one such stream: read at once or in two reads, it leaves one codec but different latches |
| BridgeLoop.OneReader | src/forge/bridge.rs:153-159 | in every run, however late aborts take effect, at most one live reader of the port exists |
| BridgeLoop.PortBytesAccounted | src/forge/bridge.rs:145-245 | the bytes read split in order into drained spells and numbered sessions; each session planned its chunks through its own wire and left at most its last chunk unfinished |
| BridgeLoop.NoiselessPeerGetsPrefix | src/forge/bridge.rs:181-245 | over a noiseless wire each peer received a prefix of the bytes its session read |
| BridgeLoop.LoopMovesOn | src/forge/bridge.rs:152-177 | in every reachable state two steps at most lead on to the next phase: whoever is waited for has been told to stop, a drain is running while there is no peer, and no task outlives its session |
| BridgeLoop.ForwarderFinishes | src/forge/bridge.rs:189-206 | a live forwarder's own steps plan and write all it has read |
| MuxRing.Ring.constructor | src/forge/mux.rs:94 | the ring starts empty, with room for BACKLOG reads |
| MuxRing.Ring.Send | src/forge/mux.rs:145-156 | publishing appends to the stream and keeps every retained read readable |
| MuxRing.Ring.Subscribe | src/forge/mux.rs:105-110 | a new cursor stands at the end of the published stream |
| MuxRing.Ring.Recv | src/forge/mux.rs:184-198 | a receive yields the next read, or the exact number of reads overwritten and a cursor at the oldest retained one, or nothing |
| MuxFanout.FanoutIsFaithful | src/forge/mux.rs:94-201 | in every run every device read is published, and each consumer's log is that stream from the very first read in order, minus reported gaps that reach exactly to the oldest retained read; device reads are received plus lost plus pending |
| MuxFanout.WholeStreamExactlyWhenKeepingUp | src/forge/mux.rs:16-22 | what a consumer was given is the whole device stream up to its cursor if and only if it never received while more than BACKLOG reads behind |
| MuxFanout.ReceivingMovesOn | src/forge/mux.rs:177-201 | in every run a receive tells a consumer nothing if and only if it stands at the end of what the device has sent, and otherwise moves it on |
| MuxFanout.KeepingUpGetsEverything | src/forge/mux.rs:16-22 | a consumer that kept up and receives until nothing comes has every device read, in order |
| MuxFanout.ConsumersAreIsolated | src/forge/mux.rs:19-22 | a consumer's history is what it would be with no other consumer |
| MuxMerge.MergeIsFaithful | src/forge/mux.rs:165-223 | in every run the device holds one unbroken stretch per chunk in arrival order, never more than the chunk, nothing is lost before the writer, the queue keeps its bound, and each consumer's chunks are what its wire made of its bytes |
| MuxBacklog.QueueIsBounded | src/forge/mux.rs:203-223 | in every run, under any noise, at most 64 cells of bytes are queued towards the device |
| MuxBacklog.QueueCountsBytesExactly | src/forge/mux.rs:51-54 | with consumers on lines that drop nothing, every run keeps at most 64 bytes queued if and only if a cell is one byte, that is, below 4000 baud |
| MuxMerge.OutcomesFollowWrites | src/forge/mux.rs:165-175 | the k-th chunk off the queue was written whole if the k-th write succeeded, and exactly as far as it got if it failed |
| MuxMerge.UnfailingMergeIsWhole | src/forge/mux.rs:165-175 | when no write fails, the device holds the queued chunks whole and in arrival order, short of the one in hand and those still queued |
| MuxMerge.EverythingIsWritten | src/forge/mux.rs:165-223 | if no write has failed, the chunks on their way lead to rest, where the device holds chunks whole of which each consumer's add up to what its wire made of all it typed |

## Left out

- Other schedulers: the mux runs on a single-threaded runtime and awaits nothing between spawning its reader and the last subscription (src/main.rs:169-170, src/forge/mux.rs:97-115), so a run of `MuxFanout` starts with every consumer subscribed and nothing read.
- MuxBacklog.QueueCountsBytesExactly: the converse is stated for lines that drop nothing, because what else fits in the queue then depends on the generator's draws; the bound itself holds under any noise.
- WireRuns.LatencyIsFreeExactly: the equivalences are stated for lines that drop nothing, because under drops a call can end before its last byte; `WireRuns.NoisyCallerPays` bounds it both ways.
- Pty creation, termios calls, real serial ports, link claims and signals: calls into the operating system; a termios snapshot is an input here.
- Float arithmetic: byte time is a given constant, and the scaling of jitter by a draw is a given function (the source rounds a float product).
- Duration overflow and the narrowing of a chunk length to 32 bits: a throttled cell is far below both limits.
- Non-ASCII console bytes: lines are strings, lossy UTF-8 decoding and byte lengths of non-ASCII names are not modelled; neither is the AT preset's slicing of non-ASCII text.
- TAB and other control characters on the screen: the terminal model covers printable ASCII, CR, LF, BS, DEL and Ctrl-C.
- Partial socket writes: a failed write ends its session, so a session run is any sequence of completed steps. `TelnetCodec.DecodingIsMonotone` covers a peer that has read only part of the stream.
- Delivery into the port: the decoded bytes of a session are counted when handed to the wire towards the port; that wire is `Wire` again.
- Fairness and liveness of the runtime: steps may stop anywhere; only `Quiescence` bounds how long something can go on.
- Notices are a name and a value; their wording is not modelled.
- The baud table, reading a termios into settings, reconnect back-off, endpoint and option parsing, JSON and log output, exit codes, the exec backend's child process.
