# Reentry, verified

Reentry builds CCSDS Space Packets, retargets them to a target's APID, sends each one between two readings of
the target's housekeeping counters over a lossy datagram channel, and turns the readings into verdicts. This
project models that loop together with the packet codec, the checksum, the case generator, the mock target and
the baseline comparison, and proves what a run is worth.

`dafny verify dfyconfig.toml` checks everything.

## How the model is laid out

| file | models |
|---|---|
| `Bits.dfy` | Python's `&`, `\|`, `^`, `<<`, `>>` on unbounded integers, defined bit by bit, and the arithmetic they amount to |
| `Ccsds.dfy` | the primary header and Space Packet codec of CCSDS 133.0-B-2, section 4.1.3 |
| `Checksum.dfy` | the command checksum, computed and repaired in place in a bytearray |
| `Target.dfy` | the mock target: acceptance, counters, housekeeping telemetry, the buggy crash |
| `Transport.dfy` | the network (clock, event schedule, target) and the UDP transport over it |
| `Cases.dfy`, `Generator.dfy` | test cases and the boundary-value builders |
| `Selection.dfy` | retargeting and category filters |
| `Oracles.dfy` | the counter oracle and the liveness oracle |
| `Harness.dfy` | the run loop |
| `Freshness.dfy` | what one reading of the counters is decided by, and exactly when it is fresh |
| `ClosedLoop.dfy` | the pure specification of a run over any channel and the refinement proof |
| `RunProperties.dfy` | what follows for sound and buggy targets, over dependable and lossy channels |
| `AnyChannel.dfy` | what holds whatever the channel does: what findings rest on, and exactly when a run is lost |
| `CounterVerdicts.dfy` | what comparing two counter readings can and cannot tell |
| `Counterexamples.dfy` | schedules that mislead the oracle or lose the run |
| `Suite.dfy`, `SuiteContents.dfy`, `SuiteRuns.dfy` | the generated suite: what is in it, the acceptance of every case, and its runs |
| `Names.dfy` | the generated names are distinct |
| `Baseline.dfy`, `Pipeline.dfy` | report loading and comparison, and the way from a run to a report and its comparison |

Objects whose methods change fields (network, transport, target, health check, oracles, runner) are classes; the
loops are loops. Each method is proved equal to a step function on the abstract state, and the theorems are
about the step functions. Inputs nobody controls are arbitrary: for the n-th send of a payload, whether it is
refused, lost or delivered, how long it takes, and when or whether a reply comes back; every foreign datagram
and socket error, at any time; how every run of the health command ends.

The suite's own APID, 42 in the code, is a parameter (`home`) of the generator; every theorem holds for all of them.

The main results, in words:

* As long as no stale or foreign datagram or socket error gets between a request and its answer, a run has exactly
  the findings of a specification that knows no sockets, schedules or clocks, however sends fail and replies
  vanish or are late (`ClosedLoop.RunRefines`). That no reading is disturbed follows from a condition that can be
  checked beforehand: whatever could pass for a reply is already queued, no reply is late, and a case that is itself
  a housekeeping request has its reply by the time its send returns; what the filter rejects may arrive at any time
  (`ClosedLoop.QuietRunUndisturbed`).
* A live target whose housekeeping answers are in time is judged, case by case, exactly as its acceptance predicate
  would judge each packet, whatever the initial counters, wrap-around included (`RunProperties.SoundTargetRun`).
  When housekeeping traffic is refused, lost or late instead, a case is a hang or a crash iff one of its own
  exchanges went unanswered, and no unexpected accept is made up (`RunProperties.LossyChannelRun`).
* A buggy target is reported like a sound one up to the first case that kills it. From that case on a finding is
  inconclusive iff the housekeeping request it waits on was refused, and otherwise unsafe. This holds over every
  channel on which no reading of either run is disturbed (`RunProperties.CrashedTargetRun`); where a live target's
  answers are in time, the killing case is the first oversized packet delivered (`RunProperties.BuggyTargetRun`).
  The liveness oracle's verdicts are given in the same generality (`RunProperties.LossyLivenessRun`).
* Over any channel whatever, a finding's error is the first failure its judgement met with and makes it
  inconclusive; it is a crash or a hang iff a request met silence, and a crash iff the health command was then run
  and said dead; its counters are those of the replies received (`AnyChannel.EveryFindingJustified`).
* Retargeting isolates the defect a case is about (`Selection.RetargetIsolatesDefect`), and the comparison of
  two reports is a correct patch (`Baseline.DiffIsPatch`).

## What is not true of the code

The test suite promises that a well-behaved target yields no unsafe finding
(tests/test_runner.py:37). Run as generated that is so (`SuiteRuns.UntargetedSuiteRun`). With retargeting it fails
for eight APIDs: 0x025, 0x124, 0x227, 0x326, 0x421, 0x520, 0x623 and 0x722. The case
`sec_hdr_flag_set_but_absent` keeps its checksum octet, and at these APIDs, whose two octets differ by exactly
0x25, the rewritten addressing octets complete a valid checksum, so the target rightly accepts a case expected
to be rejected and the run reports an unexpected accept. `SuiteRuns.SuiteRun` gives the exact condition,
`Suite.CollidingApids` the list, `Suite.FlagSetWitness` one packet, and `SuiteRuns.FalseAccusation` a run over a
perfect channel that accuses a fresh target. A caller can check the APID beforehand.

A reading need not be fresh: the drain removes what has arrived, not what is in flight. A prompt reading of a live
target shows its present counters iff nothing left after the drain that is an error or passes the filter arrives
by the time of the answer, or what does reads the same (`Freshness.FreshIff`). A reply in flight at the drain is
believed iff it does not arrive later than the answer (`Freshness.StragglerBelievedIff`).
`Counterexamples.StragglerHidesRejection` is a schedule on which every request is answered in time and a rejected
case is nevertheless judged inconclusive.

A run need not return its findings: parsing raises on a reply below 28 octets and nothing catches it. A run is
lost iff one of the readings it takes is decided by such a datagram (`AnyChannel.RunRaisesIff`);
`Counterexamples.ShortDatagramLosesRun` loses a run to one empty datagram, and runs of the liveness oracle are
never lost (`AnyChannel.LivenessNeverRaises`).

The repository's README describes the verdicts by counters going up by one (README.md:254-258), without an order
among them or an unexpected accept. The code compares for inequality, in an order. With the code's order, the two
agree iff the first counter to have moved went up by one (`CounterVerdicts.DocumentedIff`); a target restarted between the readings, its command counter falling from
five to zero, is accused of an unexpected accept (`CounterVerdicts.FallingCounterIsAnAccept`).

`SpacePacket.validate` inspects the header's own length field and ignores the one that will be written. It agrees
with validating the octets written iff the version and idle-APID checks do not change by reducing the fields and
both length fields are right or both wrong (`Ccsds.ValidateAgreesIff`). A packet of 2 to 65536 payload
octets whose length is left to be derived, its length field still zero, is faulted although its octets are in
order (`Ccsds.ValidateDisagrees`).

## Model

| member | source | states |
|---|---|---|
| Bits.AndMask | src/reentry/ccsds/packet.py:26-35 | masking with k ones is reduction modulo 2^k for every integer, negative and oversized included |
| Ccsds.PrimaryHeader.PackBits | src/reentry/ccsds/packet.py:26-35 | the masked, shifted and or-ed words are the octets the section 4.1.3 layout prescribes |
| Ccsds.UnpackBits | src/reentry/ccsds/packet.py:37-52 | the shifts and masks read the fields the section 4.1.3 layout assigns; fails below six octets |
| Ccsds.HeaderRoundTrip | src/reentry/ccsds/packet.py:26-52 | unpacking a packed header gives every field modulo two to its width, for all integers and whatever follows |
| Ccsds.OctetsRoundTrip | src/reentry/ccsds/packet.py:26-52 | packing an unpacked header gives back the six octets |
| Ccsds.PackInjective | src/reentry/ccsds/packet.py:26-35 | two headers pack alike iff they agree modulo the widths; in range, iff they are equal |
| Ccsds.HeaderOctets | src/reentry/ccsds/packet.py:26-35 | which bits of which octet each field is written to |
| Ccsds.HeaderOfOctets | src/reentry/ccsds/packet.py:37-52 | which bits of which octet each field is read from |
| Ccsds.PacketRoundTrip | src/reentry/ccsds/packet.py:76-98 | what survives serialising and parsing a packet, field by field |
| Ccsds.PacketOctets | src/reentry/ccsds/packet.py:76-93 | octets 4 and 5 carry the declared length modulo 65536, however false, or else the payload's length less one; the payload follows |
| Ccsds.BytesRoundTrip | src/reentry/ccsds/packet.py:76-98 | re-serialising parsed octets is the identity iff the length field equals max(n - 7, 0) mod 65536 |
| Ccsds.HeaderRewriteKeepsBytes | src/reentry/harness/runner.py:87-92 | unpacking and repacking the header alone keeps every octet, lying lengths included |
| Ccsds.LengthValidation | src/reentry/ccsds/packet.py:76-111 | on wire images the length, size, version and idle-APID issues are reported exactly when they should be |
| Ccsds.IssuesOf | src/reentry/ccsds/packet.py:59-111 | what validating a packet reports, each issue at most once and in a fixed order |
| Ccsds.ValidateAgreesIff | src/reentry/ccsds/packet.py:76-111 | exactly when validating a packet and validating its own octets give the same issues |
| Ccsds.ValidateDisagrees | src/reentry/ccsds/packet.py:100-106 | good packets faulted before serialising and not after |
| Checksum.ResidueLoop | src/reentry/harness/runner.py:33-36 | the xor loop over the bytearray computes the residue |
| Checksum.WithCommandChecksum | src/reentry/harness/runner.py:29-38 | the in-place helper equals the repair function; packets below eight octets pass through |
| Checksum.WithCommandChecksumUnguarded | src/reentry/generator/boundary.py:22-29 | the generator's helper equals the runner's from eight octets on and fails below |
| Checksum.RepairCharacterised | src/reentry/harness/runner.py:29-38 | only octet 7 changes, and its value is the only one giving residue zero |
| Checksum.RepairIsSound | src/reentry/harness/runner.py:29-38 | a repaired packet has residue zero |
| Checksum.RepairIdempotent | src/reentry/harness/runner.py:29-38 | repair is idempotent and blind to the old checksum octet |
| Checksum.ResidueOfDisturbed | src/reentry/harness/runner.py:29-38 | the residue is linear in an error pattern of equal length |
| Checksum.ErrorDetection | src/reentry/harness/runner.py:29-38 | an error goes unnoticed iff it folds to zero; every single damaged octet is noticed |
| Checksum.DamageIsDetected | src/reentry/harness/runner.py:95-98 | flipping the low bit of a sound checksum octet leaves residue one |
| Target.MockTarget.IsWellFormed | tests/fixtures/mock_target.py:45-63 | the loop and the field tests decide the acceptance predicate |
| Target.MockTarget.HandleCommand | tests/fixtures/mock_target.py:65-71 | exactly one counter goes up by one, unless buggy mode dies on an oversized command |
| Target.MockTarget.ServeOne | tests/fixtures/mock_target.py:73-88 | one turn of the loop is one step of the target's transition function |
| Target.AcceptsOctets | tests/fixtures/mock_target.py:45-63 | acceptance in terms of the octets, the size from 8 to 2048 included |
| Target.SizeLimit | tests/fixtures/mock_target.py:41-47 | a command right in everything else is accepted iff it has at most 2048 octets |
| Target.HkAnswered | tests/fixtures/mock_target.py:76-87 | the octets `HK?` are answered, and nothing counted, with 28 octets that report the true counts modulo 256 and parse to them |
| Target.CommandServed | tests/fixtures/mock_target.py:65-71 | everything else is counted once, by acceptance, or kills a buggy target from 2049 octets on |
| Target.HkRoundTrip | src/reentry/oracle/ci_lab.py:39-56 | the parser inverts the encoder behind any 16-octet header and before any trailing octets |
| Target.HkParseIsFaithful | src/reentry/oracle/ci_lab.py:39-56 | the parsed counters are octets 16, 17, 20-23 and 24-27, and re-encode to the payload |
| Target.ParseHkCounters | src/reentry/oracle/ci_lab.py:41-43 | parsing fails exactly below 28 octets |
| Target.HkReplyParses | tests/fixtures/mock_target.py:76-86 | the target's reply parses to its counters modulo 256 |
| Transport.Network.SendTo | src/reentry/transport/udp.py:44 | a send is refused, lost, or served at once with the reply queued in arrival order |
| Transport.Network.RecvFrom | src/reentry/transport/udp.py:62-66 | the next event if it is queued or arrives within the timeout, else a timeout |
| Transport.UDPTransport.Send | src/reentry/transport/udp.py:41-53 | the error field is cleared, or set by a refused send, and the channel moves accordingly |
| Transport.UDPTransport.Receive | src/reentry/transport/udp.py:55-80 | the deadline loop computes the bounded, filtered wait |
| Transport.ReceiveDecidedBy | src/reentry/transport/udp.py:55-80 | on raw octets: everything read before the deciding event comes from another host than the allowed one, is too short for a header, or has another APID than the allowed one; the deciding event is none of these, and its octets, cut to the receive buffer, are returned, or its error recorded |
| Transport.AwaitExact | src/reentry/transport/udp.py:55-80 | on every time-ordered schedule the wait returns the first decisive event before one fixed deadline, else times out at it having read exactly the earlier events; only an OS error is recorded |
| Transport.UDPTransport.DrainStaleReplies | src/reentry/transport/udp.py:89-95 | the drain loop empties the queue up to the first error |
| Transport.DrainExact | src/reentry/transport/udp.py:89-95 | without an error a drain removes exactly what is queued |
| Transport.DrainStopsAtFault | src/reentry/transport/udp.py:89-95 | with one it stops there and leaves the rest queued |
| Transport.UDPTransport.Probe | src/reentry/transport/udp.py:82-87 | drain, send, and wait unless the send was refused |
| Oracles.HealthCheck.Check | src/reentry/harness/health.py:22-37 | one run of the health command: alive iff it exited with status zero, dead on any other status, a timeout or an OS error |
| Oracles.JudgeUnanswered | src/reentry/oracle/ci_lab.py:117-127 | a silent target is a crash iff the next run of the health command does not end with exit status zero, and that is the evidence; without a command it is a hang without evidence |
| Oracles.CiLabOracle.ReadCounters | src/reentry/oracle/ci_lab.py:89-102 | drain, request, receive, parse: the reading and the transport state are those of the step function |
| Oracles.CiLabOracle.Judge | src/reentry/oracle/ci_lab.py:104-206 | the step-by-step judgement is the step function, evidence and health calls included |
| Oracles.LivenessOracle.Judge | src/reentry/oracle/liveness.py:29-64 | likewise for the liveness oracle, which re-reads the transport's error field |
| Harness.Runner.Run | src/reentry/harness/runner.py:124-144 | the run loop over the mutable transport yields the findings and final state of the step-by-step run; a finding is a crash iff its evidence is a run of the health command, made in this run, that did not end with exit status zero |
| Harness.HealthWasReported | src/reentry/harness/health.py:22-37 | health evidence is the answer of a health check made in this very run, and a crash is a finding it calls dead |
| ClosedLoop.AskOutcome | src/reentry/oracle/ci_lab.py:89-102 | an undisturbed exchange ends as the fates of its own request say: the reply composed for this very request, silence, or the refused send |
| ClosedLoop.ReadOutcome | src/reentry/oracle/ci_lab.py:89-102 | likewise for a reading of the counters: the target's present ones, no reply, or the error |
| ClosedLoop.CountersTellVerdict | src/reentry/oracle/ci_lab.py:162-192 | comparing the two readings gives the verdict of the acceptance predicate, at every counter value |
| ClosedLoop.CiLabRefines | src/reentry/oracle/ci_lab.py:104-206 | one undisturbed counter judgement, over any channel, is that of the pure specification |
| ClosedLoop.LivenessRefines | src/reentry/oracle/liveness.py:29-64 | one undisturbed liveness judgement, over any channel, is that of the pure specification |
| ClosedLoop.RunRefines | src/reentry/harness/runner.py:124-144 | a whole undisturbed run, either oracle, sound or buggy, live or dead target, sends and replies refused, lost, late or delivered, never raises and has the findings, target counters, sends and health calls of the pure specification |
| ClosedLoop.QuietRunUndisturbed | src/reentry/transport/udp.py:82-95 | if whatever could pass for a reply is queued when the run starts, no reply is late, and a case that is itself a housekeeping request has its reply by the time its send returns, no reading of the run is disturbed |
| RunProperties.DependableIsReliable | src/reentry/transport/udp.py:82-95 | housekeeping requests answered in time and the conditions of `ClosedLoop.QuietRunUndisturbed`, which a caller can check, meet the hypothesis of the run theorems |
| RunProperties.SoundTargetRun | src/reentry/harness/runner.py:124-144 | one finding per case in order, verdicts equal to the acceptance predicate's, true counters up by exactly the delivered commands |
| RunProperties.SoundTargetEvidence | tests/test_runner.py:53-54 | the evidence of finding j is the initial true counts plus what the cases before it, or up to it, added, modulo 256 |
| RunProperties.FirstFatalIsFirst | tests/fixtures/mock_target.py:65-67 | the first fatal case is the first oversized packet actually delivered |
| RunProperties.BuggyTargetRun | src/reentry/oracle/ci_lab.py:104-158 | where a live target's answers are in time: agreement with the sound target up to the first fatal case, from it on crash if the health command says dead and hang otherwise |
| RunProperties.CrashIsReported | src/reentry/oracle/ci_lab.py:146-158 | the trace of an actual crash, nothing coming back after the fatal packet, meets that theorem's hypothesis and is reported |
| RunProperties.AliveUntilKill | tests/fixtures/mock_target.py:65-67 | over any channel the target dies of exactly the first case judged as far as delivering its oversized packet |
| RunProperties.CrashedTargetRun | src/reentry/oracle/ci_lab.py:104-158 | the same over any undisturbed channel, housekeeping refused, lost or late: agreement up to the first case that kills the target, from it on inconclusive iff the housekeeping request waited on was refused, otherwise crash or hang by the health command's next answer |
| RunProperties.LossyLivenessRun | src/reentry/oracle/liveness.py:29-64 | the exact verdict over any undisturbed channel and against any target: crash or hang, by the health command's next answer, iff the send was not refused and the probe went unheard |
| RunProperties.LivenessRun | src/reentry/oracle/liveness.py:29-64 | where a live target's answers are in time: inconclusive if the send was refused or no case so far killed the target, otherwise crash or hang by the health command's answer, numbered by the probes unanswered so far |
| RunProperties.LossyChannelRun | src/reentry/oracle/ci_lab.py:104-206 | a live target over a channel that loses, delays or refuses housekeeping: hang or crash iff an exchange of this case went unanswered, a counter verdict only from two answers and then the acceptance predicate's |
| CounterVerdicts.WraparoundBound | src/reentry/oracle/ci_lab.py:162-200 | the verdict from any two true counts, grown or fallen: a difference is missed iff it is a multiple of its counter's modulus |
| CounterVerdicts.ForeignCommands | src/reentry/oracle/ci_lab.py:162-192 | when other senders' commands reach the target between the readings, exactly when the verdict is still the acceptance predicate's |
| CounterVerdicts.DocumentedIff | README.md:254-258 | with precedence and the unexpected accept as in the code, the verdict by inequality is the documented one by "+1" iff the counter that decides went up by one |
| CounterVerdicts.FallingCounterIsAnAccept | src/reentry/oracle/ci_lab.py:162-176 | a counter that falls is judged an unexpected accept, where the documented rule is inconclusive |
| AnyChannel.EveryFindingJustified | src/reentry/oracle/ci_lab.py:104-206 | over any channel, each finding's error, health answer, counters and verdict are those the failures, silences, health runs and replies of its own judgement determine; it is unsafe iff a request met silence or an expected rejection moved the command counter |
| AnyChannel.RunRaisesIff | src/reentry/oracle/ci_lab.py:41-43 | a run loses its findings iff a reading it takes is decided by a datagram too short to parse |
| AnyChannel.LivenessNeverRaises | src/reentry/oracle/liveness.py:29-64 | runs of the liveness oracle finish over every channel |
| AnyChannel.RunNeverRaises | src/reentry/oracle/ci_lab.py:41-43 | a counter run finishes if no datagram too short to parse passes the filter; a liveness run always |
| Counterexamples.ShortDatagramLosesRun | src/reentry/oracle/ci_lab.py:41-43 | one empty datagram that passes the filter loses every finding of a run against a live target |
| Freshness.ReadingIsFirstDecisive | src/reentry/oracle/ci_lab.py:89-102 | on any schedule and with any timeout a reading is decided by its refused send or the first error or passing datagram before the deadline |
| Freshness.UnparsableIffShort | src/reentry/oracle/ci_lab.py:41-43 | a reading raises iff the datagram that decides it is below 28 octets |
| Freshness.FreshIff | src/reentry/oracle/ci_lab.py:92-102 | a prompt reading shows the target's present counters iff nothing left after the drain overtakes the answer, or it reads the same |
| Freshness.StragglerBelievedIff | src/reentry/oracle/ci_lab.py:92-102 | an earlier reply in flight at the drain is taken for the answer iff it does not arrive later |
| Counterexamples.StragglerHidesRejection | src/reentry/oracle/ci_lab.py:104-206 | a concrete schedule on which one straggler turns a rejection into an inconclusive verdict |
| Generator.BuildKnownGood | src/reentry/generator/boundary.py:32-44 | the sealed NOOP command |
| Generator.BuildMalformed | src/reentry/generator/boundary.py:47-85 | the three commands with one defect each, edited in place |
| Generator.GenerateAll | src/reentry/generator/boundary.py:287-303 | the ten families in order |
| Selection.RetargetOne | src/reentry/harness/runner.py:83-108 | one turn of the retargeting loop |
| Selection.SelectCases | src/reentry/harness/runner.py:79-117 | retarget everything, then filter by profile, include and exclude lists |
| Selection.SelectionSpelledOut | src/reentry/harness/runner.py:79-117 | which generated cases are selected, by the configuration's fields, in what order and how retargeted |
| Selection.RetargetPreserves | src/reentry/harness/runner.py:83-108 | only APID, type, secondary header flag (unless under test) and octet 7 change; outside the secondary-header cases octet 7 makes the checksum right, or wrong by one bit where the case asks for it, whatever else is wrong with the packet |
| Selection.RetargetIsolatesDefect | src/reentry/harness/runner.py:83-108 | exact acceptance of a retargeted packet by a target expecting any APID, in terms of what retargeting leaves alone |
| Selection.RetargetSecondaryHeader | src/reentry/harness/runner.py:91-94 | the same for secondary-header cases, whose checksum is not repaired |
| Selection.RetargetLastWins | src/reentry/harness/runner.py:83-108 | retargeting twice is retargeting to the last APID, for every category and length |
| Selection.RetargetCommutesWithFilter | src/reentry/harness/runner.py:79-117 | filtering and retargeting commute |
| Selection.KeptInOrder | src/reentry/harness/runner.py:113-116 | the filtered list is an order-preserving selection of the input |
| Selection.KeptComplete | src/reentry/harness/runner.py:113-116 | a case is kept iff its category matches |
| Selection.SelectedNames | src/reentry/harness/runner.py:79-117 | selection keeps names distinct and invents none |
| Suite.BuiltAndRetargeted | src/reentry/generator/boundary.py:88-284 | exact acceptance of any built and retargeted case, from its fields, written length and payload |
| SuiteContents.SuiteSpelledOut | src/reentry/generator/boundary.py:287-303 | the suite is these ten families in this order |
| SuiteContents.ControlSpelledOut | src/reentry/generator/boundary.py:32-44 | the control's octets, and that its checksum is right |
| SuiteContents.MalformedSpelledOut | src/reentry/generator/boundary.py:47-85 | each malformed command has one defect: the checksums of two are right and of one wrong, and undoing the defect gives the control back |
| SuiteContents.LengthsSpelledOut | src/reentry/generator/boundary.py:146-166 | the lengths claimed, on the wire, for four octets sent |
| SuiteContents.DegeneratesSpelledOut | src/reentry/generator/boundary.py:264-284 | the degenerate payloads, on the wire |
| SuiteContents.AcceptedCases | src/reentry/generator/boundary.py:287-303 | exactly which generated cases a target accepts after retargeting: the control, unsegmented flags and the all-zero payload, and at a colliding APID the flag-set case |
| Suite.FlagSetAccepted | src/reentry/generator/boundary.py:169-181 | the flag-set case is accepted iff the APID matches and collides |
| Suite.CollidingApids | src/reentry/harness/runner.py:91-94 | the colliding APIDs are exactly eight listed ones |
| Suite.FlagSetWitness | src/reentry/generator/boundary.py:169-181 | at APID 0x25 the target accepts the flag-set case, which is expected to be rejected |
| Suite.SuiteAcceptance | src/reentry/generator/boundary.py:287-303 | no generated case meant to be rejected is accepted after retargeting but that one; the control is accepted by exactly the addressed target |
| Suite.SuiteUntargeted | src/reentry/generator/boundary.py:287-303 | as generated, only the control is accepted, and only at the suite's own APID |
| SuiteRuns.SuiteRun | tests/test_runner.py:37-41 | a retargeted run reports a case unsafe iff it is the flag-set one, the APID collides and the packet gets through, and then as an unexpected accept; the control is a clean accept |
| SuiteRuns.SuiteVerdicts | tests/test_runner.py:37-41 | every verdict of a retargeted run, case by case |
| SuiteRuns.CollidingRun | tests/test_runner.py:37-41 | a selection that keeps the flag-set case, retargeted to a colliding APID, has it and reports it an unexpected accept when delivered |
| SuiteRuns.FalseAccusation | tests/test_runner.py:37-41 | a concrete run over a perfect channel in which a fresh, sound target is accused |
| SuiteRuns.SuiteIsReliable | src/reentry/transport/udp.py:82-95 | a dependable channel and a quiet queue meet the hypothesis of the suite's run theorems, for every selection |
| SuiteRuns.UntargetedSuiteRun | tests/test_runner.py:37-54 | an untargeted run's verdicts, case by case; none is unsafe |
| SuiteRuns.RunGenerated | src/reentry/harness/runner.py:124-144 | generator, selection, runner, oracle, transport and target as objects: one finding per selected case, in order, each with the acceptance predicate's verdict, and no unsafe one unless the APID collides |
| Baseline.FindingsByName | src/reentry/report/baseline.py:6-28 | loads iff all names and verdicts are non-empty and names distinct; otherwise names the first offending finding and why |
| Baseline.LoadingSpelledOut | src/reentry/report/baseline.py:6-28 | by the JSON fields: a load fails iff a name or verdict is absent, not a text or empty, or a name repeats; otherwise it maps names to verdicts |
| Baseline.ErrorSpelledOut | src/reentry/report/baseline.py:13-26 | each error names a finding that fails just that check and no earlier one |
| Baseline.OneExplanation | src/reentry/report/baseline.py:11-28 | the reported error is the only one that fits: the first offender and what is wrong with it |
| Baseline.VerdictsOfLoadable | src/reentry/report/baseline.py:11-28 | the loaded map has exactly one entry per finding |
| Baseline.LoadIgnoresOrder | src/reentry/report/baseline.py:6-28 | reordering a report changes neither whether it loads nor the loaded map |
| Baseline.SortNames | src/reentry/report/baseline.py:37 | the ascending enumeration of a set of names |
| Baseline.LessSpelledOut | src/reentry/report/baseline.py:37 | the order is by code point at the first difference, a proper prefix first |
| Baseline.EnumerationUnique | src/reentry/report/baseline.py:37 | there is only one, so the comparison is deterministic |
| Baseline.CompareReports | src/reentry/report/baseline.py:31-67 | errors of either report, baseline first, or the three-segment difference list |
| Baseline.ComparisonSpelledOut | src/reentry/report/baseline.py:31-67 | by the contents of the reports alone: the missing, new and changed cases, in this order, each kind complete and in the code point order of the names |
| Baseline.ComparisonDetermined | src/reentry/report/baseline.py:31-67 | a comparison has one outcome, refusals included |
| Baseline.ComparisonIgnoresOrder | src/reentry/report/baseline.py:31-67 | reordering both reports changes neither the differences nor which report is refused |
| Baseline.DiffIsPatch | src/reentry/report/baseline.py:31-67 | applied to the baseline's verdicts the differences give the actual ones |
| Baseline.DiffEmptyIffSame | src/reentry/report/baseline.py:31-67 | the list is empty iff the verdict maps are equal |
| Baseline.DiffSegments | src/reentry/report/baseline.py:37-66 | every entry states a real difference and names strictly ascend within each segment |
| Baseline.DiffSwapped | src/reentry/report/baseline.py:31-67 | swapping the reports exchanges missing and new and the two verdict columns |
| Names.GeneratedNamesDistinct | tests/test_generator.py:23-26 | the suite's names are pairwise distinct and not empty |
| Pipeline.ReportsCompare | src/reentry/report/baseline.py:31-67 | comparing two reports over the same distinctly named cases refuses neither, and finds no difference iff every verdict agrees |
| Pipeline.VerdictTexts | src/reentry/oracle/base.py:14-21 | the keys and verdict texts a report is written with |
| Pipeline.PipelineReports | src/reentry/report/json_report.py:20-34 | comparing the reports of two finished runs of one selection from distinctly named cases refuses neither, and finds no difference iff every case got the same verdict |

## Left out

- Transport.UDPTransport.Receive: time passes only while waiting for an event or inside a send; the processing time between two iterations of the loop is not modelled.
- Transport.Network.SendTo: a delivered packet is served before the next operation; the channel towards the target loses packets but does not reorder or delay them.
- Harness.Runner.Run: the three plugin hooks are fixed to the two built-in oracles and the UDP transport; dynamic import, adapter contracts and profile capability checks are not part of this model.
- Commands from other senders: within a run the target's counters move only by the run's own packets; what others' commands between two readings do to a verdict is `CounterVerdicts.ForeignCommands`.
- Target.MockTarget.ServeOne: replies come back on the one queue the transport reads; a separate listen port is not modelled.
- Sockets, name resolution, binding and closing: only the queue, the clock, the outcome of a send and the recorded error remain.
- The health command's execution: how its runs end (exit status, timeout, OS error) is an arbitrary input.
- Detail strings and error messages: error kinds and indices only.
- TOML and range validation of the configuration, the command line, JUnit output, timestamps and provenance: library plumbing.
- The Docker and shell helpers, whose checksum is a copy of the one modelled.
- `parse_command_counters` and `parse_ingest_counters`: projections of the parser that is modelled.
