# PacketForge in Dafny

PacketForge compiles a description of network flows into a packet capture and claims that an independent
reader of the capture recovers exactly what was described. This project models the parts of it that decide
bytes, sequence numbers, time order and accounting, and proves that claim, or the exact condition under
which it holds.

Every draw from a random source is an arbitrary input, so each theorem holds for all seeds. Times, weights
and probabilities are real numbers. A packet is a record of time, addresses, flags, sequence and
acknowledgment numbers, payload and the timestamp option.

## How the modules fit

* `Seqs`, `Numbers`, `Bytes`, `Sorting`: sequences, bounds, integer encodings, and Python's stable sort with what it preserves.
* `Segmentation`: cutting a payload into segments.
* `TcpModel`: the conversation as a function of the connection, the messages and the draws.
  `TcpMonitors`: four readers that see only packets (a reassembling receiver, a Zeek-like observer, a
  sequence auditor, a timestamp auditor), written from RFC 9293, RFC 7323 and Zeek's history letters, not
  from the builder. `TcpProofs`: the invariant each step of the conversation keeps with all four readers.
  `TcpTheorems`: what the readers conclude about whole conversations. `TcpBuilder`: the builder as classes
  with mutable clock, packet list and history recorder, proved to produce the function.
* `Timeline`, `TimelineTheorems`, `Permutation`: duration rescale in place, the merge by stable sort, and
  what survives both.
* `Pcapng`, `PcapngTheorems`, `Tls`, `Ja3`, `Ssh`: printers, the parsers the repository does not have, and
  round trips, for TLS and SSH through the merged capture.
* `Markings`, `Warrant`, `WarrantTheorems`, `WarrantGate`: selectors and marks, the gate's findings, a
  declarative meaning of PASS, and the gate's loops. `Scoring`: Murphy's decomposition.
* `Compose`, `Sampling`, `Ingest`, `Signatures`: allotment of arrivals, round-robin sampling, conversion
  counters, and rule inversion.
* `Examples`: the concrete inputs on which the code does less than it promises.

## What the code does not quite do

Each of these is a theorem below, with the exact condition and a concrete input.

* A negative `seg_bytes` makes segmentation return no chunks, so payloads vanish (`Segmentation.SegmentLossless`,
  `TcpTheorems.StreamRecovered`, `Examples.NegativeSizeDropsPayload`).
* Sequence numbers are not reduced modulo 2^32 (`TcpTheorems.FieldsFit`, `Examples.SequenceOverflows`).
* The summary's packet counts go by IP address, so they are wrong between two ports of one address
  (`TcpTheorems.ConnLogAgrees`, `Examples.OneAddressMiscounts`).
* A negative `rtt` puts packets out of order, and a negative `duration` reverses a flow
  (`TcpTheorems.ClockDiscipline`, `TimelineTheorems.RescaleOrder`, `Examples.NegativeRttReorders`,
  `Examples.NegativeDurationReverses`).
* A `duration` is honoured only for a flow with packets at two different times: an unanswered SYN is logged
  with duration zero whatever was asked for, and so is a refusal with rtt zero (`TimelineTheorems.DurationHonoured`,
  `Examples.UnansweredDurationIgnored`).
* With weights that are all zero, arrivals beyond one per phase are lost (`Compose.AllotmentTotal`,
  `Examples.ZeroWeightLosesArrival`).
* A TLS 1.3 hello, or an ALPN extension the profile lacks, changes the JA3 that was asked for
  (`Ja3.DeclaredIsRequested`, `Examples.Tls13ChangesFingerprint`); a line feed inside an SSH version string breaks
  the stream (`Ssh.SideReads`, `Examples.LineFeedBreaksBanner`).
* The two censuses of field classes disagree on facts that are both aleatoric and marked, or whose mark was
  refused (`Markings.CensusesAgree`, `Examples.DisputedFact`). No selector can single out a flow whose id contains
  a dot or is `*` (`Markings.AddressableIds`); the ingest's fallback id contains dots
  (`Examples.PrintedTupleUnaddressable`).
* The census counts as unmodelled the open questions that carry a reason, which the list of declared gaps
  leaves out (`WarrantTheorems.GapsListed`, `Examples.OpenQuestionUnlisted`).
* The counter of substituted connection states misses ssh, ftp, ldap and smb flows (`Ingest.ConvertAll`,
  `Ingest.SshRewriteUnreported`).
* A path built from several URI fragments loses slashes that the path before them does not supply, and then need
  not contain the rule's contents (`Signatures.PathContainsFragments`, `Signatures.InnerSlashGone`).

## Model

| member | source | states |
|---|---|---|
| Segmentation.SegmentPayload | src/packetforge/compile/tcp.py:125-136 | the chop-and-splice loop computes the specified segmentation; termination included |
| Segmentation.SegmentContract | src/packetforge/compile/tcp.py:125-136 | chunks concatenate to the payload, each is nonempty and at most mss, and there are exactly max(ceil(n/mss), min(minimum, n)) of them |
| Segmentation.SegmentLossless | src/packetforge/compile/tcp.py:125-136 | the chunks carry the payload if and only if the size is positive or the payload empty |
| TcpProofs.SyncMessages | src/packetforge/compile/tcp.py:257-295 | the joint invariant of builder, receiver, observer, auditor and clock is kept by any list of messages, retransmissions and duplicate acknowledgments |
| TcpTheorems.StreamRecovered | src/packetforge/compile/tcp.py:260-295 | in SF, RSTO and RSTR a receiver that discards old sequence space recovers each direction's payloads, without gap or conflict, if and only if the segment size is not negative or nothing was sent |
| TcpTheorems.ConnLogAgrees | src/packetforge/compile/tcp.py:240-338 | an observer that sees only flags, sequence numbers and lengths writes the summary's state, history, byte counts and duration in all five states; it writes the same packet counts if and only if the two IP addresses differ (S0 aside) |
| TcpTheorems.SequencesAudited | src/packetforge/compile/tcp.py:242-311 | every segment starts where the previous one ended or repeats old space, acknowledgments never exceed what was sent nor go back, the space used is ISN+1+bytes (+FIN), and after SF both FINs are acknowledged |
| TcpTheorems.AuditBounds | src/packetforge/compile/tcp.py:242-311 | any audited traffic stays within the sequence space it has used, in both fields |
| TcpTheorems.FieldsFit | src/packetforge/compile/tcp.py:152-153 | all fields fit 32 bits if and only if both directions' used space stays below 2^32 (S0 always fits) |
| TcpTheorems.ClockDiscipline | src/packetforge/compile/tcp.py:166-232 | packet times never decrease if and only if rtt is not negative (S0 aside); with timestamps negotiated every TSecr is the peer's latest TSval, otherwise no packet carries one |
| TcpBuilder.HistoryRecorder.Note | src/packetforge/compile/tcp.py:103-122 | recording a letter appends it unless that letter and direction was already recorded |
| TcpBuilder.FlowBuilder.MakeFrame | src/packetforge/compile/tcp.py:203-227 | the frame, and the stored TSval the peer will echo |
| TcpBuilder.FlowBuilder.SendFrame | src/packetforge/compile/tcp.py:229-232 | the new packet list, clock and history are those of one emission step |
| TcpBuilder.FlowBuilder.Open | src/packetforge/compile/tcp.py:240-255 | the three openings, one per kind of connection state |
| TcpBuilder.FlowBuilder.SendSegment | src/packetforge/compile/tcp.py:269-283 | one segment, its possible single retransmission, and spacing, as the specified step |
| TcpBuilder.FlowBuilder.SendOne | src/packetforge/compile/tcp.py:262-295 | one message with its acknowledgment; both next sequence numbers |
| TcpBuilder.FlowBuilder.Close | src/packetforge/compile/tcp.py:297-311 | linger and teardown of the established states |
| TcpBuilder.BuildTcpFlow | src/packetforge/compile/tcp.py:139-338 | an error exactly for an unsupported state; otherwise the specified packets and a summary that the observer of those packets also writes, and streams the receiver recovers |
| Timeline.RescaleInPlace | src/packetforge/compile/timeline.py:102-111 | rewrites the times in the packet array to the specified rescale |
| Timeline.CompileFlowset | src/packetforge/compile/timeline.py:66-127 | refuses exactly a flow with no renderer; otherwise returns the sorted merge of all rescaled flows |
| TimelineTheorems.RescaleSpan | src/packetforge/compile/timeline.py:99-111 | a nonempty flow with a target spans exactly it if and only if it is rescaled and the target is not negative, or it is left alone and spanned the target already |
| TimelineTheorems.RescaleOrder | src/packetforge/compile/timeline.py:102-111 | an ordered flow stays ordered if and only if no rescale happens or its target is not negative |
| TimelineTheorems.ReadersIgnoreTime | src/packetforge/compile/timeline.py:99-111 | rewriting times changes nothing any of the four readers concludes |
| TimelineTheorems.Demultiplex | src/packetforge/compile/timeline.py:66-79 | one connection's packets, selected from the capture, are its emission in order if and only if that emission was in time order |
| TimelineTheorems.DistinctConnectionsSeparate | src/packetforge/compile/timeline.py:112-127 | flows with different endpoint pairs never share packets |
| TimelineTheorems.StreamSurvivesMerge | src/packetforge/compile/timeline.py:66-127 | the payloads of a flow are recovered from the merged, rescaled capture |
| TimelineTheorems.RecordSurvivesMerge | src/packetforge/compile/timeline.py:66-127 | the observer of the merged capture writes the flow's summary, with the target as duration where the flow could be rescaled and the summary's own duration otherwise |
| TimelineTheorems.DurationHonoured | src/packetforge/compile/timeline.py:99-111 | the logged duration is the one asked for if and only if the flow could be rescaled or lasted that long already: always for an answered conversation with a positive rtt, and for an unanswered SYN only if zero was asked for |
| TimelineTheorems.EveryStreamRecovered | src/packetforge/compile/timeline.py:66-127 | in one capture of TCP flows between different endpoint pairs, and any other flows that stay off those pairs, every stream of every established TCP flow is recovered |
| Permutation.FlowOrderIrrelevant | src/packetforge/compile/timeline.py:61-79 | permuting the flows permutes the packets, and gives the identical capture when no two flows have a packet at the same time |
| Pcapng.TicksExact | src/packetforge/compile/pcapng.py:78-82 | seconds, microseconds and carry are together the nearest microsecond, ties to even |
| Pcapng.TicksMonotone | src/packetforge/compile/pcapng.py:78-82 | written timestamps are in packet order |
| PcapngTheorems.ForwardRead | src/packetforge/compile/pcapng.py:36-43 | reading blocks forwards by their lengths recovers every block |
| PcapngTheorems.BackwardRead | src/packetforge/compile/pcapng.py:40-43 | walking backwards by trailing lengths visits the same blocks in reverse |
| PcapngTheorems.OptionsRead | src/packetforge/compile/pcapng.py:46-51 | the comment option reads back |
| PcapngTheorems.PacketReads | src/packetforge/compile/pcapng.py:78-86 | an enhanced packet block reads back to its ticks, bytes, length and comment |
| PcapngTheorems.FileRoundTrip | src/packetforge/compile/pcapng.py:54-89 | a whole file reads back to its comment, link type and packets in order, forwards and backwards |
| PcapngTheorems.WritePcapng | src/packetforge/compile/pcapng.py:54-89 | writes exactly what can be written, and what it writes reads back |
| Tls.RecordLengthLimit | src/packetforge/renderers/tls.py:124-131 | a single record reads back if and only if its payload fits the 16-bit length it is masked into |
| Tls.FragmentsRead | src/packetforge/renderers/tls.py:134-142 | data of any size reads back as records of at most 2^14 bytes, exactly max(1, ceil(n/2^14)) of them, whose bodies concatenate to it |
| Tls.RenderMessages | src/packetforge/renderers/tls.py:202-253 | the message list of either version, and each direction's byte stream |
| Tls.LayeredFraming | src/packetforge/renderers/tls.py:250-257 | application data behind the handshake, through TCP and the merge, deframes to the original bytes |
| Ja3.GreaseValues | src/packetforge/fingerprints/ja3.py:16-18 | the test holds for exactly the sixteen values of RFC 8701 |
| Ja3.PrintedParses | src/packetforge/fingerprints/ja3.py:21-33 | parsing a printed JA3 gives the lists without GREASE, and what is printed is canonical |
| Ja3.ParsedPrints | src/packetforge/fingerprints/ja3.py:42-67 | printing a parsed string gives it back if and only if it was canonical and GREASE-free |
| Ja3.HelloLists | src/packetforge/renderers/tls.py:149-170 | the in-place list building gives the specified version, ciphers and extensions |
| Ja3.GreaseInvisible | src/packetforge/renderers/tls.py:168-170 | a GREASE-sending profile declares the fingerprint of the same profile without GREASE |
| Ja3.DeclaredIsRequested | src/packetforge/renderers/tls.py:259-260 | the declared fingerprint is the requested string if and only if TLS 1.2, canonical and GREASE-free, and no ALPN extension had to be added |
| Ssh.PadLength | src/packetforge/renderers/ssh.py:33-36 | padding is between 4 and 11 and completes a multiple of eight |
| Ssh.PacketsRead | src/packetforge/renderers/ssh.py:31-37 | a stream of packets reads back as exactly its payloads, whatever the padding bytes |
| Ssh.RenderKexinit | src/packetforge/renderers/ssh.py:40-45 | the accumulating loop builds the payload that parses back |
| Ssh.KexinitReads | src/packetforge/renderers/ssh.py:40-45 | the ten name-lists parse back, whatever the cookie |
| Ssh.SideReads | src/packetforge/renderers/ssh.py:48-60 | a side's stream reads back if and only if its version string holds no line feed |
| Ssh.SshSurvivesMerge | src/packetforge/renderers/ssh.py:48-62 | the same, from the merged capture |
| Scoring.GroupsPartition | src/packetforge/warrant.py:1072-1074 | groups have distinct values and hold exactly the outcomes forecast with their value |
| Scoring.MurphyIdentity | src/packetforge/warrant.py:1075-1085 | 2(REL - RES + UNC) equals the mean Brier score, exactly, for every nonempty register |
| Scoring.Score | src/packetforge/warrant.py:1011-1085 | counts add up, and whenever anything resolved the identity flag is true |
| Scoring.BinsAccountForAll | src/packetforge/warrant.py:990-1008 | every forecast lands in exactly one bin of the table |
| Markings.SelectorMeaning | src/packetforge/warrant.py:367-375 | a selector matches if and only if it is `*` or the flow's id, alone or with a whole-component prefix of the fact's path |
| Markings.AddressableIds | src/packetforge/warrant.py:369-371 | some selector singles out a flow's facts if and only if its id holds no dot and is not `*` |
| Markings.TiesNameTheSame | src/packetforge/warrant.py:374-375 | two matching selectors of equal specificity name the same path in the same way |
| Markings.ResolveIsMostSpecific | src/packetforge/warrant.py:378-389 | none exactly when nothing matches; otherwise the earliest mark of maximal specificity |
| Markings.ResolveMarking | src/packetforge/warrant.py:378-389 | the nested loops return that mark |
| Markings.ClassesAgree | src/packetforge/warrant.py:657-674 | the two censuses class a fact alike if and only if it is not both aleatoric and marked and its mark was not refused |
| Markings.MixIsTotal | src/packetforge/warrant.py:606-674 | the field class mix sums to the number of facts |
| Markings.PerFlowFieldMix | src/packetforge/warrant.py:1178-1192 | the entries are exactly those of the flow ids, each with the counts of the last flow that has the id |
| Markings.CensusesAgree | src/packetforge/warrant.py:1178-1192 | with distinct flow ids the entries sum to the report's mix in every class if and only if no single fact is disputed |
| WarrantTheorems.StructureFails | src/packetforge/warrant.py:435-454 | the structural section is clean if and only if claim ids are unique, citations are as the stance demands and rendered flows exist |
| WarrantTheorems.ForwardFails | src/packetforge/warrant.py:456-481 | the forward section is clean if and only if flow ids are unique and every flow is licensed or illustrative, never both |
| WarrantTheorems.ClaimsFail | src/packetforge/warrant.py:483-580 | the claim sections are clean if and only if every claim is accounted for, its expectations hold and are not vacuous, and its floors and ceilings are met |
| WarrantTheorems.MarkFails | src/packetforge/warrant.py:612-655 | a mark raises a failure if and only if it addresses nothing or is not as well sourced as it says |
| WarrantTheorems.ObservationsMean | src/packetforge/warrant.py:657-674 | with well-sourced marks, the observed count is positive if and only if some fact resolves to an observed mark |
| WarrantTheorems.AssumptionNamed | src/packetforge/warrant.py:582-591 | a flow is named as resting on assumption if and only if some assumption and nothing better licenses it |
| WarrantTheorems.GapsListed | src/packetforge/warrant.py:483-493 | the listed gaps number what the census calls unmodelled if and only if no open question carries a reason |
| WarrantTheorems.PassMeansWarranted | src/packetforge/warrant.py:428-741 | the gate passes if and only if the claim set is an exercise or the flows are warranted |
| WarrantGate.License | src/packetforge/warrant.py:457-460 | the table of licensing claims, and a flow is in it exactly when some claim renders it |
| WarrantGate.WarrantedCensus | src/packetforge/warrant.py:743-782 | a warranted census has no UNLICENSED key, no flow on an open question, no unaccounted claim and an observed fact |
| WarrantGate.Check | src/packetforge/warrant.py:428-782 | the report: its findings, its verdict, and a census that adds up to facts and, on PASS, to flows |
| Compose.AllotmentTotal | src/packetforge/compose.py:135-140 | the counts sum to n if and only if some weight is positive or n does not exceed the number of phases |
| Compose.AllotmentQuota | src/packetforge/compose.py:135-140 | each count is the floor or the ceiling of its quota |
| Compose.AllotmentFair | src/packetforge/compose.py:139-140 | no phase with a smaller remainder is rounded up while one with a larger remainder is not |
| Compose.Allot | src/packetforge/compose.py:134-140 | the in-place counts are the specified allotment |
| Compose.BurstyTimes | src/packetforge/compose.py:117-152 | sorted times, exactly n of them under the allotment's condition, all in the window if and only if the duration is not negative or there are none |
| Sampling.GroupConns | src/packetforge/ingest/evidenceforge.py:195-199 | one group per key seen, holding that key's records in file order |
| Sampling.Select | src/packetforge/ingest/evidenceforge.py:201-212 | everything without a limit; otherwise exactly min(limit, total) records, a time-ordered prefix of each group, and no group more than one ahead of another that is not exhausted |
| Ingest.MapConnState | src/packetforge/ingest/evidenceforge.py:73-78 | the result is always a state the compiler supports, and is flagged if and only if it differs |
| Ingest.StatesCompile | src/packetforge/ingest/evidenceforge.py:88-179 | every TCP record becomes a flow the compiler accepts, with its own state if and only if that is supported; a record is skipped exactly for analyzer-backed UDP; every flow keeps its record's 5-tuple (ICMP without ports) and time |
| Ingest.VolumesKept | src/packetforge/ingest/evidenceforge.py:167-179 | the opaque flows carry all the bytes of their records if and only if no record with bytes was rendered structure-only |
| Ingest.KindsPartition | src/packetforge/ingest/evidenceforge.py:49-50 | the eleven kinds partition the converted records |
| Ingest.IngestStats.FlowFromConn | src/packetforge/ingest/evidenceforge.py:88-179 | the flow decided on (kind, ends, time, state, opaque volumes) and the exact change of every counter |
| Ingest.ConvertAll | src/packetforge/ingest/evidenceforge.py:213-226 | by-kind counts sum to emitted, emitted plus skipped to the records selected, and substitutions are all reported if and only if none fell on ssh, ftp, ldap or smb |
| Ingest.SshRewriteUnreported | src/packetforge/ingest/evidenceforge.py:153-156 | a concrete record whose state is rewritten without being counted |
| Ingest.FlowsetFromEvidenceforge | src/packetforge/ingest/evidenceforge.py:182-227 | sampling and conversion together |
| Signatures.InvertLabels | src/packetforge/signatures.py:196-252 | a flow is made if and only if the rule is renderable and offers something to satisfy, and it carries that rule's SID only |
| Signatures.PathCarriesFragments | src/packetforge/signatures.py:217-222 | the path ends with all the URI fragments, back to back, if and only if at most the slash that starts the first was taken off |
| Signatures.FragmentInPlace | src/packetforge/signatures.py:219-220 | a fragment is in the path where it was placed if and only if the path before it ends with at least as many slashes as it lost |
| Signatures.PathContainsFragments | src/packetforge/signatures.py:217-222 | all fragments are in place if and only if each finds its slashes, and then the path contains every one |
| Signatures.UriRuleCarried | src/packetforge/signatures.py:217-222 | the request rendered for a URI rule contains every positive URI content that finds its slashes |
| Signatures.InnerSlashGone | src/packetforge/signatures.py:219-220 | fragments "/a" and "/b" give the path "/ab", which does not contain "/b" |
| Signatures.RepeatedFragment | src/packetforge/signatures.py:219-220 | fragments "/a" and "/a" give "/aa": the second is not in place, and yet contained |
| Signatures.MakeFor | src/packetforge/signatures.py:290-307 | one signature gets as many flows as asked for while there is room, if its rule can be inverted, and none otherwise; each is recorded under it and labelled with its rule |
| Signatures.SumsFollow | src/packetforge/signatures.py:277-309 | per SID and in total made plus unmatched is what was asked for, from the account of each signature |
| Signatures.ConditionedFpFlows | src/packetforge/signatures.py:277-309 | for each signature made plus unmatched is what was asked for, every flow is recorded under a requested signature and labelled with its rule, and nothing foreign is reported; each signature gets all it asks for while the cap lasts; distinct ids and time order |
| Examples.NegativeSizeDropsPayload | src/packetforge/compile/tcp.py:267-268 | one byte sent with a segment size of -1 never arrives |
| Examples.SequenceOverflows | src/packetforge/compile/tcp.py:152-153 | with the largest initial sequence number some field does not fit 32 bits |
| Examples.NegativeRttReorders | src/packetforge/compile/tcp.py:246-249 | with a negative rtt a refusal precedes its SYN |
| Examples.OneAddressMiscounts | src/packetforge/compile/tcp.py:314-318 | between two ports of one address the summary is not what the observer writes |
| Examples.UnansweredDurationIgnored | src/packetforge/compile/timeline.py:102-105 | an unanswered SYN that should last five seconds is logged with duration zero |
| Examples.NegativeDurationReverses | src/packetforge/compile/timeline.py:107-111 | a duration of -1 turns two packets round |
| Examples.ZeroWeightLosesArrival | src/packetforge/compose.py:135-140 | two arrivals over one phase of weight zero are not both allotted |
| Examples.DisputedFact | src/packetforge/warrant.py:1178-1192 | one aleatoric fact under a wildcard mark is counted differently by the two censuses |
| Examples.PrintedTupleUnaddressable | src/packetforge/ingest/evidenceforge.py:96 | a printed 5-tuple as flow id is addressed by wildcards only |
| Examples.OpenQuestionUnlisted | src/packetforge/warrant.py:483-493 | an open question with a reason is counted as unmodelled and not listed |
| Examples.Tls13ChangesFingerprint | src/packetforge/renderers/tls.py:160-165 | a TLS 1.3 hello never declares the fingerprint that was asked for |
| Examples.LineFeedBreaksBanner | src/packetforge/renderers/ssh.py:52-53 | a version string of one line feed is not read back |

## Left out

- Packet construction below the transport layer: IP identification, TTL, window, MAC addresses, SYN options other than timestamps, checksums and the IP byte counts of the summary.
- `round(...)` of durations, start times, scores and fractions: an arbitrary rounding where it is sorted by, absent where it is only displayed. Floating-point error is not modelled.
- Log scores, and the shape of the distributions draws come from: draws are arbitrary numbers in their documented range.
- Seeding a flow's random source from a hash of its identity and the salt: a flow brings its source with it.
- The rewrite to Linux cooked capture, and everything scapy serialises, including TLS handshake bodies and certificates: their record bodies are arbitrary bytes.
- UTF-8 encoding of comments and names: byte strings are given encoded.
- Ja3.ParsedPrints: what Python's `int` accepts beyond plain digits (signs, spaces, underscores) counts as unparsable.
- Regular expressions, address classes, case folding and the resolver, broadcast and listed-host addresses of `invert`: arbitrary functions.
- `_dns_qname` and `_parse_rule`: the choice of query name and rule parsing are inputs; dot stripping and anchors allow no general claim.
- The order of names in `sorted` and of iteration over Python sets: any order on names, first-listed order for sets.
- Reading files, and the five-tuple table of original records kept for later correlation.
- Compose.BurstyTimes: weights are not negative; the only caller draws them from a Pareto distribution.
- Ingest.FlowsetFromEvidenceforge: byte counts are not negative, and a record's logs are summarised by what the branches ask of them (a dns entry, a safe method, a known version).
- Ingest.IngestStats.FlowFromConn: the layer-7 fields copied from the dns, http and ssl logs, and the sizes of ssh and icmp flows.
- Signatures.ConditionedFpFlows: needs at least one client, as the source's remainder by their number does.
- TcpTheorems.StreamRecovered: like every theorem about the readers, needs two distinct endpoints; a connection from an endpoint to itself is not defined by the code.
- Subprocess validation, scenario builders, renderers that are thin wrappers over other libraries, and HTML or Markdown output.
- In the gate, texts of findings, the counts of content-checked flows and the displayed fractions of the census.
