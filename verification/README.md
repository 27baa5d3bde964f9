# eUPF in Dafny

eUPF is a 5G user-plane function. A Go control plane answers PFCP session messages (TS 29.244
sections 7.5.2, 7.5.4 and 7.5.6) and fills tables; an XDP program reads those tables and forwards
packets. This project models both halves and the tables between them, and proves what they promise.

**Control plane.** `RuleTables`, `Trackers` and `Resources` hold the storage: the id tracker with its
BPF array (one generic table for FARs, QERs and URRs), and the TEID and UE-address queues.
`Rules`, `PdrRecords` and `SdfParser` hold the records and how an information element changes them.
`SessionSpec` says on values what one IE, and a list of IEs, does to a session and to the shared
tables; `World` says it for a whole message and for association pruning. `Handlers` and `Connection`
are the objects the source has (tables, trackers, pools, session, PDR creation context, connection);
each of their methods is proved to do to the heap exactly what `SessionSpec` or `World` says, so the
theorems about those functions hold of the methods. `Ownership`, `SessionLemmas` and `Runs` carry one
invariant through every handler, every early error return and pruning, over every run; `SharedRuns` carries
what holds of TEIDs and stored records even for requests that are not well formed, and `QerMirror` that every
QER in force is the one its session remembers. `Isolation`, `Resolution`, `Restore`, `Deletion`, `StoredKeys`,
`StoredKeyEvents` and `TeidRelease` build on them.

**Packet plane.** `RateLimiter` is the sliding window in 64-bit arithmetic, `PeerRates` the 32-bit conversion of
the rate it runs on, and `SlotRate` the two limiters of one QER slot over whatever frames the program sees, with
messages for other sessions between them. `Checksum`,
`Icmp` and `Echo` are the Internet checksum, full and incremental, and the two replies built in place.
`Packets`, `Tunnel` and `XdpProgram` are the headers, the parsers and GTP-U encapsulation and
decapsulation on a byte array with headroom; `TunnelPayload` is what a GTP-U message carries by TS 29.281, walked
header by header, against the program's fixed skip. `SdfRoundTrip` and `SdfMatch` relate the text of a flow
rule to the packets the kernel selects. `Pipeline` is where the dispatch sends an ingress frame and what it
counts; `Dataplane` is the whole program of one frame, dispatch and session handlers together.

**Where they meet.** `Forwarding` and `Uplink` run the downlink and uplink handlers on the tables the control
plane wrote, and `EndToEnd` joins them with the dispatch: its theorems start at a PFCP establishment request and
end at what the whole program does with a frame, at once and after any run of other sessions and traffic. An IPv4
frame for a UE that its PDR wants leaves in the GTP-U tunnel the Create FAR asks for if it is ICMP, TCP or UDP,
and is passed up untouched otherwise (`DownlinkReachesItsTunnel`; `DownlinkIp6ReachesItsTunnel` for an IPv6 address
and a PDR without flow description). The T-PDU a G-PDU for the program carries under a PDR's TEID, by TS 29.281 and
behind an outer IPv4 header without options, comes out unchanged exactly when the GTP flags announce nothing or
there is one extension header of 4 bytes and no other (`UplinkDeliversInner`); towards another user plane the message
goes on in the next tunnel with everything behind its 8 GTP bytes (`UplinkReachesNextTunnel`). In all of them,
whether the rate limiter lets the frame pass is decided by the window in the QER's own slot.

## What the proofs found

Each of these is a lemma with the exact condition under which the code does what it should.

- Two PDRs of a session on one UE address, an SDF filter and its default for instance, make its deletion fail,
  every time and in any state: the second key delete finds the key gone, so the session stays and its rule ids
  stay taken (`SharedDownlinkIsRefused`). With all keys present and no refused write, a deletion is accepted
  exactly when the session's PDRs have distinct downlink keys (`DeleteAcceptedIff`).
- An IPv4 frame that is not ICMP, TCP or UDP goes to the kernel before any table is read, so no PDR ever sees it,
  whatever its flow rule says (`Ip4Dispatch`); the same holds of IPv6 frames in which neither TCP nor UDP follows the
  header at once (`Ip6Dispatch`), and of every GTP-U message but a G-PDU (`GtpuDispatch`).
- Decapsulation skips 8 bytes as soon as one of the flags E, S and PN is set, whatever follows. It finds the T-PDU of
  TS 29.281 exactly without these flags, or with one extension header of 4 bytes and no other
  (`CursorIsPayloadIff`, `StrippedIsUnwrappedIff`); in all other cases the T-PDU never comes out
  (`MissedPayloadIsLost`). With a sequence number alone the packet loses its first four bytes, or the frame is
  aborted (`SequenceNumberCutsPacket`).
- Decapsulation also takes the outer IPv4 header to have 20 bytes: with options it strips at another place than the
  one `parse_gtp` found (`StripPointIsCursorIff`).
- Deleting a session remembers deleted uplink keys by the low byte of the TEID only, so of two TEIDs that
  agree in it one key stays behind (`PdrTablesRestoredIff`, `DeleteUndoesEstablish`).
- A stored key loses its last PDR exactly when an Update PDR, or a Create PDR with an id in use, gives that PDR
  another key, or a Remove PDR finds the low byte of its TEID cached, by a choose id of the same request for
  instance, or is refused by the kernel (`IeCoversIff`). A rejected establishment leaves behind every key it had
  stored that no other session has (`EstablishLeavesNoneIff`); an accepted deletion leaves each uplink key whose TEID
  is not the first with its low byte in iteration order (`DeleteLeavesNoneIff`); pruning leaves some exactly when a
  session has congruent TEIDs (`PruneLeavesNoneIff`). Without all this none stays over any run
  (`RunLeavesNoOrphans`).
- After a modification with a new CP F-SEID the TEIDs the session took before stay booked under the old SEID, and its
  deletion does not release them, unless the old SEID happens to equal the local one (`MovedSessionLosesTeidsIff`).
- URR slots keep their volumes while they are free, so deleting a session gives its URR slots back as they were
  exactly when they held no volume before (`DeleteUndoesEstablish`).
- Removing one PDR keeps the TEIDs booked for the session's peer exactly when that PDR has none; otherwise they
  all join the queue, those of the remaining PDRs included, and can be handed out again
  (`RemovePdrKeepsTeidsIff`). An accepted deletion keeps another peer's TEIDs exactly when that peer's SEID is
  not the local SEID deleted (`OtherPeersTeidsKeptIff`).
- A Remove FAR, QER or URR for an id the session does not have resolves to the zero record, so it frees
  global id 0, whoever holds it; an Update claims global id 0 (`RemoveUnknownSoundIff`,
  `UpdateUnknownSoundIff`, `RemoveUnknownFarIff`).
- A PDR that names no QER or no FAR is treated by slot 0, whichever session owns it (`RulesOfPdrAreOwnIff`).
- No stored PDR record ever names a URR (`ReachableTables`), so the bytes of every admitted frame are added
  twice to URR slot 0 (`DownlinkCharges`, `UplinkCharges`), and the URR a PDR names sees its packets exactly
  when its global id is 0 (`OwnUrrSeesPacketIff`).
- Two SDF puts on a key that never had a plain put leave mode 2 with a zero default, so a packet the second
  filter refuses uses FAR 0 and QER 0 (`ClassifiesAsIntendedIff`, `TwoFiltersMisroute`).
- A prefix length above 32 is accepted and yields a record without address and mask (`PrefixWordReads`); an
  address with prefix length n makes the kernel accept every packet exactly when n is 0 or above 32
  (`PrefixMatchesAllIff`).
- A stored rate does not limit at all exactly when it is 0 or above 10^9 bit/s, because the division then yields 0
  (`FastRatesAreUnlimited`). The stored rate is the peer's exactly up to 4294967 kbit/s (`StoredRateIff`); above,
  the multiplication wraps, so 4294968 kbit/s limits to 704 bit/s (`WrappedRateIsLimited`) and multiples of 2^29
  kbit/s do not limit (`PeerRateUnlimitedIff`).
- A TEID allocation keeps every TEID accounted for exactly when the pool is empty or the PDR had none
  (`AllocateKeepsCompleteIff`).
- The reply to an ICMP echo request verifies exactly when identifier, sequence number and data are not all
  zero (`ReplyVerifiesIff`).
- The checksum of an echo response covers 20 bytes, so IPv4 options are outside it (`OptionsVerifyIff`).

## How the source is read

- Requests are datatypes of decoded IEs. A field the decoder may miss is an `Option`; an IE that does not
  decode has its own constructor.
- What the code cannot choose is an oracle, `SessionSpec.Choices`: which hash-table writes succeed, in which
  order a Go map iteration visits its keys, and the UE-IP feature flag. Every theorem holds for all oracles.
  Writes to BPF arrays succeed exactly for indices in range; lookups do not fail for other reasons.
- The three PDR hash tables are one map with tagged keys. An association's `NextSessionID` and `Sessions` are
  two maps of the connection, keyed by the association's address. The handlers' loops run one after the other
  over the IE kinds, which is one loop over the concatenated list (`ApplyAllConcat`).
- Ids are unbounded; 64-bit SEIDs, 32-bit bit rates, the `uint8` conversion of a TEID, the limiter's 64-bit
  words and all 16-bit header fields wrap as in the source. Counters are unbounded.
- The assumption on requests is explicit (`WellFormed`): Update and Remove IEs name rules the session has when
  they are processed. Association pruning is for an existing association.
- `Traffic` events let the data plane move the limiter windows of QERs with a rate and change any URR volume
  between messages.
- The host is little-endian. Bitwise "and" is defined bit by bit. `bpf_csum_diff` returns any 32-bit number
  congruent to the 16-bit word sum modulo 65535 that is zero only for all-zero words.
- Where code and comment disagree the code is followed: the association setup handler is commented as
  overwriting an existing association, but keeps it.

## Model

| member | source | states |
|---|---|---|
| `Trackers.IdTracker.constructor` | cmd/ebpf/objects.go:308-316 | all ids below the size are free |
| `Trackers.IdTracker.GetNext` | cmd/ebpf/objects.go:318-328 | removes and returns the least free id, or fails on an empty bitmap |
| `Trackers.IdTracker.Release` | cmd/ebpf/objects.go:330-336 | an id in range becomes free, any other is ignored |
| `Trackers.RuleTable.New` | cmd/ebpf/pdr.go:174-181 | the record goes into the slot of the least free id, which leaves the free set; a failing one loses that id |
| `Trackers.RuleTable.Update` | cmd/ebpf/pdr.go:183-186 | overwrites a slot in range and fails otherwise |
| `Trackers.RuleTable.Delete` | cmd/ebpf/pdr.go:188-192 | frees the id and clears its slot, or fails with nothing changed |
| `Trackers.RuleTable.DeleteReading` | cmd/ebpf/pdr.go:244-256 | the same for URRs, returning the volumes that were in the slot |
| `RuleTables.CreateKeepsSound` | cmd/core/pfcp_session_handlers.go:48-63 | creating a rule keeps ids owned once, touches no other session's slot and makes no id available; a failed one may lose an id |
| `RuleTables.UpdateKeepsSound` | cmd/core/pfcp_session_handlers.go:281-299 | so does updating a rule the session has, and it succeeds |
| `RuleTables.RemoveKeepsSound` | cmd/core/pfcp_session_handlers.go:301-309 | so does removing one |
| `RuleTables.RemoveUnknownSoundIff` | cmd/core/session.go:67-75 | removing an id the session lacks keeps single ownership exactly when nobody holds global id 0 |
| `RuleTables.UpdateUnknownSoundIff` | cmd/core/session.go:61-65 | updating one keeps it exactly when global id 0 is neither held nor free |
| `Resources.QueueLaw` | cmd/core/service/resource_manager.go:87-126 | over any run, TEIDs handed out followed by those free at the end are those free at the start followed by those given back |
| `Resources.ReleasedTeidWaitsItsTurn` | cmd/core/service/resource_manager.go:87-126 | the TEID at position i of the queue is the i-th one handed out, or still waits i minus that many places back |
| `Resources.RunKeepsDistinct` | cmd/core/service/resource_manager.go:87-126 | over any run of the pool free and busy TEIDs are pairwise distinct and in 1..N |
| `Resources.AllocateKeepsCompleteIff` | cmd/core/service/resource_manager.go:87-105 | an allocation keeps every TEID accounted for exactly when the pool is empty or the (session, PDR) pair held none |
| `Resources.RunKeepsPartition` | cmd/core/service/resource_manager.go:87-126 | without such double allocation free and busy TEIDs partition 1..N over every run |
| `Resources.FTEIDM.constructor` | cmd/core/service/resource_manager.go:51-65 | the queue is 1..N in order and nothing is busy |
| `Resources.FTEIDM.AllocateTEID` | cmd/core/service/resource_manager.go:87-105 | takes the head of the queue and books it under the session and PDR |
| `Resources.FTEIDM.ReleaseTEID` | cmd/core/service/resource_manager.go:116-126 | appends the session's TEIDs to the queue in iteration order and forgets the session |
| `Resources.IPAM.AllocateIP` | cmd/core/service/resource_manager.go:73-85 | takes the head of the address queue |
| `Resources.IPAM.ReleaseIP` | cmd/core/service/resource_manager.go:107-114 | appends the session's address to the queue |
| `Handlers.BpfObjects.PutPdr` | cmd/ebpf/pdr.go:54-80 | an accepted put stores the record built over what is present; a refused one changes nothing |
| `Handlers.BpfObjects.DeletePdr` | cmd/ebpf/pdr.go:110-118 | removes a present key; fails for an absent one |
| `Handlers.Session.constructor` | cmd/core/session.go:18-27 | a session without rules |
| `Handlers.Context.CreateFar` | cmd/core/pfcp_session_handlers.go:48-63 | composes, takes an id and records it, with both error returns |
| `Handlers.Context.UpdateFar` | cmd/core/pfcp_session_handlers.go:281-299 | composes over the session's record, stores it there and in the slot of its global id |
| `Handlers.Context.RemoveFar` | cmd/core/pfcp_session_handlers.go:301-309 | removes the session's record, frees its global id and clears the slot |
| `Handlers.Context.CreateQer` | cmd/core/pfcp_session_handlers.go:65-80 | as for FARs; a missing id is an error |
| `Handlers.Context.UpdateQer` | cmd/core/pfcp_session_handlers.go:328-342 | merges the IE into the record and restarts the limiter windows |
| `Handlers.Context.RemoveQer` | cmd/core/pfcp_session_handlers.go:344-355 | as for FARs; a missing id is an error |
| `Handlers.Context.CreateUrr` | cmd/core/pfcp_session_handlers.go:82-97 | as for QERs |
| `Handlers.Context.UpdateUrr` | cmd/core/pfcp_session_handlers.go:374-388 | stores the record unchanged, overwriting the volumes in the slot |
| `Handlers.Context.RemoveUrr` | cmd/core/pfcp_session_handlers.go:390-413 | as for QERs, and appends a report with the volumes that were in the slot |
| `Handlers.Context.ResolvePdrIds` | cmd/core/pdr_creation_context.go:66-85 | rule ids become the session's global ids, 0 for unknown ones; absent ids keep what is there |
| `Handlers.Context.TakeTeid` | cmd/core/pdr_creation_context.go:102-131 | an explicit TEID, the cached one of a choose id, or the head of the pool, booked and cached |
| `Handlers.Context.TakeUeIp` | cmd/core/pdr_creation_context.go:133-158 | an allocated address, or the IE's, IPv4 before IPv6, or an error |
| `Handlers.Context.Extract` | cmd/core/pdr_creation_context.go:66-163 | the whole of extractPDR with all its error returns and what they leave behind |
| `Handlers.Context.CreatePdr` | cmd/core/pfcp_session_handlers.go:99-117 | extracts, stores in the session and the table, and reports the PDR only if the table took it |
| `Handlers.Context.UpdatePdr` | cmd/core/pfcp_session_handlers.go:437-453 | extracts over the session's PDR and stores the result |
| `Handlers.Context.DropPdrKey` | cmd/core/pdr_creation_context.go:166-182 | deletes the PDR's key, skipping uplink keys whose low TEID byte is cached |
| `Handlers.Context.DeletePdrKeys` | cmd/core/pdr_creation_context.go:165-187 | then gives back all TEIDs of the peer if the PDR has one |
| `Handlers.Context.RemovePdr` | cmd/core/pfcp_session_handlers.go:455-465 | removes a PDR the session has, and ignores any other |
| `Handlers.Context.ProcessAll` | cmd/core/pfcp_session_handlers.go:258-467 | the loops stop at the first error and keep what was done |
| `SessionSpec.ApplyAllConcat` | cmd/core/pfcp_session_handlers.go:258-467 | loops one after the other do what one loop over the concatenated IEs does |
| `Connection.DropRules` | cmd/core/pfcp_session_handlers.go:175-186 | drops slots in iteration order up to the first error |
| `Connection.DropRulesAnyway` | cmd/core/pfcp_connection.go:194-199 | drops every slot it can |
| `Connection.DropReporting` | cmd/core/pfcp_session_handlers.go:187-202 | one report per URR that could be read, with the volumes before clearing |
| `Connection.ProcessCreatedPDRs` | cmd/core/pdr.go:33-47 | Created PDR IEs in order, none for IPv6 |
| `World.CreatedIesReport` | cmd/core/pdr.go:33-47 | an IE is among them exactly when it reports the address or TEID chosen for one of the PDRs |
| `Resolution.ChosenTeidIsReportedIff` | cmd/core/pdr_creation_context.go:102-131 | an accepted establishment reports a TEID for a PDR exactly when its F-TEID asks the user plane to choose, and the TEID reported is the key its packets are found by |
| `Connection.PfcpConnection.HandleSetup` | cmd/core/pfcp_handlers.go:104-121 | a new association starts at session id 1; an existing one is kept |
| `Connection.PfcpConnection.NewLocalSEID` | cmd/core/node_association.go:37-40 | increments the association's 64-bit counter and returns it |
| `Connection.PfcpConnection.HandleEstablishment` | cmd/core/pfcp_session_handlers.go:20-146 | response, tables and sessions after an establishment, whatever it is and wherever it stops; a rejected one stores no session and gives nothing back |
| `Connection.PfcpConnection.HandleModification` | cmd/core/pfcp_session_handlers.go:219-484 | the same for a modification; a new CP F-SEID takes effect first and stays on rejection |
| `Connection.PfcpConnection.HandleDeletion` | cmd/core/pfcp_session_handlers.go:148-217 | the same for a deletion; a failing PDR keeps the session and its rules |
| `Connection.DeleteSession` | cmd/core/pfcp_connection.go:193-204 | FARs, QERs and PDRs go, errors are ignored, URRs stay |
| `Connection.PfcpConnection.FreeResources` | cmd/core/pfcp_connection.go:218-230 | releases the address and the TEIDs booked under one SEID |
| `Connection.PfcpConnection.HandlePrune` | cmd/core/pfcp_connection.go:182-191 | every session of the association is deleted in iteration order, then the association |
| `SessionLemmas.ApplyKept` | cmd/core/pfcp_session_handlers.go:258-467 | one IE, accepted or not, keeps single ownership and leaves other sessions' ids and slots alone |
| `SessionLemmas.ApplyAllKept` | cmd/core/pfcp_session_handlers.go:258-467 | so does a request's list of IEs, wherever it stops |
| `SessionLemmas.ApplyAllTouchesFootprint` | cmd/core/pdr.go:13-31 | it writes no PDR key beyond those its session's PDRs carry meanwhile |
| `Runs.EstablishKeepsInv` | cmd/core/pfcp_session_handlers.go:46-126 | an establishment, accepted or rejected part way, keeps the global invariant |
| `Runs.ModifyKeepsInv` | cmd/core/pfcp_session_handlers.go:258-467 | so does a modification that names only rules of its session |
| `Runs.DeleteKeepsInv` | cmd/core/pfcp_session_handlers.go:165-212 | so does a deletion, including one that fails at a PDR |
| `Runs.PruneKeepsInv` | cmd/core/pfcp_connection.go:182-204 | so does pruning an association |
| `Runs.RunKeepsInv` | cmd/core/pfcp_session_handlers.go:20-484 | so does every well-formed run of messages, pruning and traffic |
| `QerMirror.EveryQerIsEnforced` | cmd/ebpf/pdr.go:204-216 | in every state reached from fresh tables by a well-formed run with traffic, the slot of each QER of each session holds the rates, gates and QFI the session remembers |
| `Runs.EveryIdHasOneOwner` | cmd/core/pfcp_session_handlers.go:20-484 | in every state reachable from fresh tables each FAR, QER and URR id has at most one live owner, no owned id is free, and each FAR slot in use holds what its session remembers |
| `SharedRuns.RunKeeps` | cmd/core/pfcp_session_handlers.go:20-484 | over any run, well formed or not, distinct TEIDs stay distinct and records that name no URR stay so |
| `SharedRuns.ReachableTables` | cmd/ebpf/pdr.go:309-315 | in every state reached from fresh tables free and booked TEIDs are pairwise distinct and in 1..N, and no stored record names a URR |
| `Isolation.StepIsolates` | cmd/core/pfcp_session_handlers.go:258-466 | a message or pruning leaves every session it is not about, and all slots that session owns, unchanged |
| `Isolation.StepTouchesOwnKeys` | cmd/core/pdr.go:13-31 | it changes no PDR key except those the sessions it is about carry |
| `Isolation.RunOfOthers` | cmd/core/pfcp_session_handlers.go:20-484 | over any run of other sessions, with traffic, a session, its FAR slots, its QER slots up to their limiter windows, and a PDR key only it carries stay as they are |
| `Resolution.EstablishedPdr` | cmd/core/pfcp_session_handlers.go:99-117 | each created PDR has the ids the session's rules were given and the filter its text describes, and is what its key holds unless a later one replaced it |
| `Resolution.EstablishedQer` | cmd/core/pfcp_session_handlers.go:65-80 | with distinct QER ids each Create QER's record is in the session |
| `Resolution.EstablishedQersMirrored` | cmd/ebpf/pdr.go:204-211 | and in the slot of its global id |
| `Resolution.PdrsStored` | cmd/core/pfcp_session_handlers.go:99-117 | the j-th created PDR, if last on its key, is what the key's record was last put for |
| `Resolution.OwnsItsFar` | cmd/core/pdr_creation_context.go:66-75 | that FAR id is the one the new session owns for the Create FAR |
| `Resolution.EstablishedPdrResolves` | cmd/core/pfcp_session_handlers.go:48-117 | after an accepted establishment with distinct FAR ids, a created PDR last on its key leads through its key, FAR id and FAR slot to exactly the record composed from the Create FAR it names |
| `Resolution.ResolutionPersists` | cmd/core/pfcp_session_handlers.go:20-484 | and still does after any run in which only other sessions act, on other keys |
| `Restore.DeleteAcceptedIff` | cmd/core/pdr_creation_context.go:166-170 | with single ownership, present keys and hash writes that succeed, a deletion is accepted exactly when no two of the session's PDRs share a downlink key |
| `Restore.SharedDownlinkIsRefused` | cmd/core/pfcp_session_handlers.go:175-180 | in any state that keeps the invariant, whatever the tables hold, deleting a session with two PDRs on one downlink key is refused and leaves sessions and rule pools as they are |
| `Restore.DeleteUndoesEstablish` | cmd/core/pfcp_session_handlers.go:20-217 | after an accepted establishment on new keys, in any state of the invariant whatever traffic left in URR slots, the deletion of its session is accepted exactly when its downlink keys are distinct, and then FAR and QER tables, free URR ids, the TEID pool as a multiset, and the sessions are restored; the URR slots exactly when those the session took held no volume, and the PDR tables exactly when no two uplink TEIDs of the session differ but agree modulo 256 |
| `Restore.PoolsRestored` | cmd/core/pfcp_session_handlers.go:175-202 | the tear-down brings the FAR and QER tables and the free URR ids back and clears the session's URR slots, which restores the URR table exactly when they were clear |
| `Restore.PdrTablesRestoredIff` | cmd/core/pdr_creation_context.go:166-182 | the PDR loop brings the tables back exactly when no two uplink TEIDs are congruent modulo 256 |
| `Restore.DeletePdrsLeavesOne` | cmd/core/pdr_creation_context.go:176-181 | of two congruent TEIDs one key survives any deletion order |
| `Restore.TeidsRestored` | cmd/core/pdr_creation_context.go:183-185 | all TEIDs the session took are back in the queue |
| `Deletion.AcceptedGivesBack` | cmd/core/pfcp_session_handlers.go:148-217 | in any state of the invariant an accepted deletion frees exactly the session's ids, clears exactly their slots, forgets exactly that session, writes no key but its own, and releases its peer's TEIDs if a PDR had one; its stored keys are all gone exactly when no two uplink TEIDs are congruent |
| `Deletion.DeleteAfterRun` | cmd/core/pfcp_session_handlers.go:20-217 | after an accepted establishment and any run of other sessions on other keys, with traffic, deleting the session is accepted exactly when its downlink keys are distinct and then gives all that back to the state the run has reached |
| `StoredKeys.IeCoversIff` | cmd/core/pfcp_session_handlers.go:437-465 | where every stored key had a PDR, one does not after an IE exactly when the IE moves the last PDR on it to another key, or removes that PDR while the cache holds its low byte or the kernel refuses |
| `StoredKeyEvents.EstablishLeavesNoneIff` | cmd/core/pfcp_session_handlers.go:46-126 | an establishment with different PDR ids under a SEID not in use leaves a stored key without a PDR exactly when it is rejected after it stored a PDR on a key no other session has |
| `StoredKeyEvents.DeleteLeavesNoneIff` | cmd/core/pdr_creation_context.go:166-182 | a deletion does so exactly when it is accepted and some stored uplink key of the session, no other session's, has a TEID that is not the first with its low byte in the iteration order |
| `StoredKeyEvents.PruneLeavesNoneIff` | cmd/core/pfcp_connection.go:182-204 | where its sessions have their keys to themselves and the kernel refuses nothing, pruning an association does so exactly when one of them has congruent TEIDs |
| `StoredKeys.RunLeavesNoOrphans` | cmd/core/pfcp_session_handlers.go:20-484 | over any run of messages, pruning and traffic in which no IE does so, sessions that go have no congruent TEIDs, rejected establishments reach no PDR and pruning meets no refusal, every stored PDR key is the key of a PDR some session has |
| `TeidRelease.RemovePdrFreesAll` | cmd/core/pdr_creation_context.go:183-185 | removing one PDR that has a TEID frees every TEID booked for the peer, those of remaining PDRs included |
| `TeidRelease.RemovePdrKeepsTeidsIff` | cmd/core/pdr_creation_context.go:183-185 | a TEID booked for the peer stays booked, and out of the queue, exactly when the PDR removed has no TEID; the other PDRs stay as they are |
| `TeidRelease.OtherPeersTeidsKeptIff` | cmd/core/pfcp_session_handlers.go:212 | a deletion keeps the TEIDs of another peer SEID exactly when that SEID is not the local SEID deleted |
| `TeidRelease.MovedSessionLosesTeidsIff` | cmd/core/pfcp_session_handlers.go:239-249 | a modification with another CP F-SEID keeps the TEIDs booked under the old SEID, and the session's deletion leaves them booked exactly when the old SEID is not, as a number, its local SEID |
| `TeidRelease.RemoveUnknownFarIff` | cmd/core/pfcp_session_handlers.go:301-309 | a modification that removes an unknown FAR keeps single ownership exactly when no session holds global id 0 |
| `SdfRoundTrip.PrintParses` | cmd/core/sdf_filter_parser.go:13-138 | every rule with "any" or IPv4 networks and ordered port ranges, printed with or without its optional parts, parses to the filter it means |
| `SdfRoundTrip.AcceptedReparses` | cmd/core/sdf_filter_parser.go:13-138 | every accepted text has ordered 16-bit port ranges, and unless it names IPv6 or a prefix above 32 printing its filter and parsing gives it back |
| `SdfRoundTrip.AcceptedPortsAreOrdered` | cmd/core/sdf_filter_parser.go:108-127 | an accepted port range has lower at most upper at most 65535 |
| `SdfMatch.MaskValue` | cmd/core/sdf_filter_parser.go:90-98 | the mask of an IPv4 prefix is that many ones followed by zeros |
| `SdfRoundTrip.PrefixWordReads` | cmd/core/sdf_filter_parser.go:81-106 | the word a.b.c.d/n is an address exactly for n below 2^64; up to 32 it is that network, above 32 and only there the record without address and mask |
| `SdfMatch.SamePrefixIff` | cmd/ebpf/xdp/sdf_filter.h:98-99 | two addresses agree under a mask of n ones exactly when they agree divided by 2^(32-n) |
| `SdfMatch.AddressAgrees` | cmd/ebpf/pdr.go:317-333 | the kernel's masked comparison on the byte-reversed, byte-swapped record is membership in the network |
| `SdfMatch.KernelAgreesWithRule` | cmd/ebpf/xdp/sdf_filter.h:58-111 | the kernel match on the stored record holds exactly when protocol, both prefixes and both port intervals contain the packet |
| `SdfMatch.PrintedRuleSelects` | cmd/ebpf/pdr.go:279-307 | the same from the text the peer sends to the packets selected |
| `SdfMatch.PrefixMatchesAllIff` | cmd/core/sdf_filter_parser.go:90-98 | the record of a.b.c.d/n makes the kernel accept every address exactly when n is 0 or above 32 |
| `PdrRecords.RecordIsHistory` | cmd/ebpf/pdr.go:279-315 | the stored record as a function of the puts since the last delete: default half of the last plain put, filter of the last put, mode by their number |
| `PdrRecords.ClassifiesAsIntendedIff` | cmd/ebpf/xdp/n3n6_entrypoint.c:76-89 | the kernel treats a packet as the puts ask exactly when there was a plain put, at most one put, or the filter accepts it |
| `PdrRecords.TwoFiltersMisroute` | cmd/ebpf/pdr.go:279-290 | two filters without a default send a refused packet to rule 0 |
| `RateLimiter.Window.Admit` | cmd/ebpf/xdp/qer.h:67-90 | verdict and window start of the limiter, in 64-bit arithmetic |
| `RateLimiter.StepExact` | cmd/ebpf/xdp/qer.h:74-88 | for packets up to 65535 bytes and clocks below 2^62 nothing wraps, over any run |
| `RateLimiter.AdmittedTimeBound` | cmd/ebpf/xdp/qer.h:74-88 | transmission time admitted from packet i to packet j is at most now_j - now_i + max(5000000, tx_j) |
| `RateLimiter.AdmittedBitsBound` | cmd/ebpf/xdp/qer.h:68-79 | in bits that is at most twice the rate, and at most the rate itself when it divides 10^9 |
| `RateLimiter.DroppedIff` | cmd/ebpf/xdp/qer.h:78-88 | a packet is dropped exactly when what was admitted since the last window reset plus its own time exceeds the time since then plus one window |
| `RateLimiter.FastRatesAreUnlimited` | cmd/ebpf/xdp/qer.h:69-75 | a stored rate drops no packet of any sequence exactly when it is 0 or above 10^9 bit/s |
| `PeerRates.StoredRateIff` | cmd/core/pfcp_session_handlers.go:616-623 | the rate stored for a peer's bit rate is that rate exactly up to 4294967 kbit/s |
| `PeerRates.PeerRateUnlimitedIff` | cmd/core/pfcp_session_handlers.go:616-623 | a peer's bit rate does not limit at all exactly when it is a multiple of 2^29 kbit/s or its stored rate is above 10^9 bit/s; up to 4294967 kbit/s, exactly when it is 0 or above 10^6 kbit/s |
| `PeerRates.WrappedRateIsLimited` | cmd/core/pfcp_session_handlers.go:616-623 | the first rate that wraps is stored as 704 bit/s, and that limits |
| `SlotRate.WindowFollowsVisits` | cmd/ebpf/xdp/qer.h:67-90 | over any sequence of frames of any kind, with messages that leave the slot alone between them, the uplink and the downlink window of a fresh QER slot are those of the limiter on the packets that met it, at the slot's unchanged rate |
| `SlotRate.OtherMessageKeepsSlot` | cmd/core/pfcp_session_handlers.go:258-466 | messages for other sessions are such messages, for every slot a session's QERs own |
| `SlotRate.FrameIsLimitedIff` | cmd/ebpf/xdp/n3n6_entrypoint.c:118-120 | after any such sequence a downlink frame that meets the slot's limiter is dropped exactly when the limiter drops it after those packets |
| `SlotRate.GpduIsLimitedIff` | cmd/ebpf/xdp/n3n6_entrypoint.c:312-315 | likewise a G-PDU that meets the uplink limiter: it is dropped with the tables unchanged, or policed and forwarded |
| `SlotRate.SlotVerdicts` | cmd/ebpf/xdp/qer.h:67-90 | the verdicts the slot's limiter gives with the window and rate in the tables are those of one limiter started at 0 on the packets that met the slot |
| `SlotRate.SlotBitsBound` | cmd/ebpf/xdp/qer.h:68-79 | over such a sequence, for stored rates up to 10^9, the bits either limiter of the slot lets through from one packet it lets through to another are at most twice the rate over that span, and at most the rate itself when it divides 10^9 |
| `Checksum.FoldHelper` | cmd/ebpf/xdp/utils/csum.h:23-30 | the complement of the representative of the accumulator modulo 65535 |
| `Checksum.FourFoldsSuffice` | cmd/ebpf/xdp/utils/csum.h:23-30 | for every 64-bit accumulator four folds leave its 16-bit representative, zero only for zero |
| `Checksum.ThreeFoldsDoNot` | cmd/ebpf/xdp/utils/csum.h:23-30 | three folds may leave 17 bits |
| `Checksum.Ipv4Csum` | cmd/ebpf/xdp/utils/csum.h:32-35 | the complement of the RFC 1071 sum, whatever representative the kernel helper returns |
| `Checksum.OnesSumIsResidue` | cmd/ebpf/xdp/utils/csum.h:23-35 | the ones' complement sum is the representative of the plain sum |
| `Checksum.ChecksumVerifies` | cmd/ebpf/xdp/utils/csum.h:32-35 | a zeroed checksum word filled with it makes the message verify |
| `Checksum.CsumReplace` | cmd/ebpf/xdp/utils/csum.h:37-45 | its two carry tests are ones' complement addition: RFC 1624 equation 3 |
| `Checksum.ReplaceVerifiesIff` | cmd/ebpf/xdp/utils/csum.h:37-45 | replacing a word and updating the checksum keeps a verifying message verifying, except exactly when the message becomes all zero |
| `Icmp.PrepareIcmpEchoReply` | cmd/ebpf/xdp/utils/icmp.h:81-109 | the frame and verdict of the in-place reply; the swaps stay even when the message is refused |
| `Icmp.ReplyVerifiesIff` | cmd/ebpf/xdp/utils/icmp.h:99-106 | the reply to a verifying request of any length, odd ones padded, verifies exactly when some byte behind its checksum is nonzero |
| `Icmp.SwapKeepsHeaderSum` | cmd/ebpf/xdp/utils/parsers.h:126-133 | swapping the addresses keeps the header checksum right, or wrong |
| `Echo.HandleEchoRequest` | cmd/ebpf/xdp/utils/gtp_utils.h:43-72 | the frame handle_echo_request leaves, for any position of its headers |
| `Echo.InsertRecovery` | cmd/ebpf/xdp/utils/gtpu.h:83-101 | the Recovery element goes behind the GTP header and its optional word if the frame reaches that far |
| `Echo.ResponseTurnsAround` | cmd/ebpf/xdp/utils/gtp_utils.h:43-53 | the response has MAC addresses, IP addresses and ports exchanged, type 2 and the request's TEID and flags |
| `Echo.EchoLengthsNestIff` | cmd/ebpf/xdp/utils/gtp_utils.h:57-62 | nesting lengths stay nesting exactly when no Recovery element is added or the IPv4 length does not wrap |
| `Echo.EchoHeaderVerifiesIff` | cmd/ebpf/xdp/utils/gtp_utils.h:57-67 | the response's header verifies over 20 bytes exactly when a Recovery element was added or the request's did |
| `Echo.OptionsVerifyIff` | cmd/ebpf/xdp/utils/gtp_utils.h:63-64 | a header with options whose first 20 bytes verify verifies as a whole exactly when the options sum to a multiple of 65535 |
| `Echo.RequesterSeesResponseIff` | cmd/ebpf/xdp/n3n6_entrypoint.c:375-392 | a requester with the same dispatch sees an echo response exactly when its request came from port 2152 |
| `XdpProgram.XdpBuffer.AdjustHead` | cmd/ebpf/xdp/utils/gtp_utils.h:201-203 | bpf_xdp_adjust_head moves the frame start within the headroom, or fails and changes nothing |
| `XdpProgram.PacketContext.ParseEth` | cmd/ebpf/xdp/utils/parsers.h:33-43 | ethertype, cursor and pointer, or a frame too short |
| `XdpProgram.PacketContext.ParseIpv4` | cmd/ebpf/xdp/utils/parsers.h:48-60 | protocol, and the cursor behind header and options |
| `XdpProgram.PacketContext.ParseIpv6` | cmd/ebpf/xdp/utils/parsers.h:62-72 | next header, and the cursor 40 bytes on |
| `XdpProgram.PacketContext.ParseUdpHeader` | cmd/ebpf/xdp/utils/parsers.h:74-82 | destination port, and the cursor 8 bytes on |
| `XdpProgram.PacketContext.ParseGtpHeader` | cmd/ebpf/xdp/utils/gtp_utils.h:31-41 | message type, and the cursor behind the optional words |
| `XdpProgram.PacketContext.ContextReinit` | cmd/ebpf/xdp/utils/parsers.h:145-181 | all pointers as parsed afresh, and success exactly for a frame with a whole IP header |
| `XdpProgram.PacketContext.AddGtpOverIp4Headers` | cmd/ebpf/xdp/utils/gtp_utils.h:186-262 | succeeds exactly with an IP header and 44 bytes of headroom, and then the frame is the encapsulated one although its front overwrites the old Ethernet header |
| `XdpProgram.PacketContext.RemoveGtpHeader` | cmd/ebpf/xdp/utils/gtp_utils.h:90-139 | the stripped frame with pointers parsed afresh, or failure with nothing changed |
| `Tunnel.RoundTripIff` | cmd/ebpf/xdp/utils/gtp_utils.h:90-262 | decapsulating an encapsulated frame gives back the identical frame exactly when its ethertype agrees with its IP version nibble |
| `Tunnel.ParsesBack` | cmd/ebpf/xdp/utils/parsers.h:33-82 | the parsers find IPv4, UDP 2152 and a G-PDU with the same TEID, addresses and QFI, and the cursor on the inner packet |
| `Tunnel.LengthsNestIff` | cmd/ebpf/xdp/utils/gtp_utils.h:186-250 | IP, UDP and GTP lengths nest around the inner packet exactly up to 65491 bytes |
| `Tunnel.OuterHeaderVerifies` | cmd/ebpf/xdp/utils/gtp_utils.h:141-153 | the outer IPv4 header of every encapsulated frame verifies |
| `Tunnel.StripPointIsCursorIff` | cmd/ebpf/xdp/utils/gtp_utils.h:96-101 | where remove_gtp_header strips is where parse_gtp stopped exactly when the outer header has no options |
| `TunnelPayload.EncapsulatedCarriesIff` | cmd/ebpf/xdp/utils/gtp_utils.h:186-250 | by the header walk of TS 29.281 an encapsulated frame carries its packet behind byte 58, and exactly that packet when the length the packet claims is its length and the message length does not wrap |
| `TunnelPayload.CursorIsPayloadIff` | cmd/ebpf/xdp/utils/gtp_utils.h:31-41 | parse_gtp's cursor is where TS 29.281 puts the T-PDU exactly without the flags E, S and PN, or with one extension header of 4 bytes and no other |
| `TunnelPayload.StrippedIsUnwrappedIff` | cmd/ebpf/xdp/utils/gtp_utils.h:90-139 | for every outer header length from 20 bytes on, remove_gtp_header leaves the frame with that T-PDU exactly when it strips there: without options as for the cursor, with one option word when the optional word is all that follows, never with more |
| `Dataplane.Statistic.Dispatch` | cmd/ebpf/xdp/n3n6_entrypoint.c:375-478 | the path of a frame follows from its bytes alone, the receive counters from the path, and the context points at the headers the handler uses |
| `Dataplane.Statistic.ProcessPacket` | cmd/ebpf/xdp/n3n6_entrypoint.c:459-478 | tables, frame, action and counters of any frame on any tables: those of the handler its path ends in |
| `Dataplane.Statistic.EntryPoint` | cmd/ebpf/xdp/n3n6_entrypoint.c:480-508 | and exactly one action counter moves |
| `Dataplane.CountersAlwaysBalance` | cmd/ebpf/xdp/n3n6_entrypoint.c:375-508 | over any packet sequence, whatever tables each frame meets, rx_ip4 + rx_ip6 is the sum of the transport counters, rx_n3 the four GTP counters plus echo responses, no more is sent than was handed to the tables nor to N6 than G-PDUs came in, and the action counters add up to the packets processed |
| `Dataplane.OnlyPdusLeaveOnN6` | cmd/ebpf/xdp/n3n6_entrypoint.c:58-373 | only a G-PDU is ever sent to N6 |
| `Dataplane.ProgramIsTraffic` | cmd/ebpf/xdp/n3n6_entrypoint.c:459-478 | whatever the program does to the tables with any frame is one of the Traffic events of the control plane's runs |
| `Dataplane.ProgramCharges` | cmd/ebpf/xdp/n3n6_entrypoint.c:459-478 | while records name no URR, no frame of any kind changes a URR slot other than 0 |
| `Pipeline.EncapsulatedIsGtpPdu` | cmd/ebpf/xdp/n3n6_entrypoint.c:375-428 | a frame encapsulated towards a local address is dispatched as a G-PDU |
| `Forwarding.PolicePacket` | cmd/ebpf/xdp/n3n6_entrypoint.c:91-124 | FAR and QER of the selected ids admit the packet, or nothing changes; an admitted one moves the QER's downlink window and the slots of the record's URR ids |
| `Forwarding.SendToGtpTunnel` | cmd/ebpf/xdp/n3n6_entrypoint.c:58-65 | the frame encapsulated with the FAR's address, TEID and marking and the QER's QFI, or left as it is without headroom |
| `Forwarding.HandleN6PacketIpv4` | cmd/ebpf/xdp/n3n6_entrypoint.c:68-129 | tables, frame and fate of a downlink frame for all tables and frames |
| `Forwarding.HandleN6PacketIpv6` | cmd/ebpf/xdp/n3n6_entrypoint.c:132-189 | the same for an IPv6 frame, given the matcher's answer |
| `Forwarding.DownlinkIsTraffic` | cmd/ebpf/xdp/n3n6_entrypoint.c:68-129 | what it does to the tables is one of the Traffic events of the control plane's runs |
| `Forwarding.AddressBytesBack` | cmd/core/pfcp_session_handlers.go:591 | the little-endian number in a FAR is, in memory, the address of the IE |
| `Forwarding.WantedPacketsSelect` | cmd/core/pfcp_session_handlers.go:48-117 | after an accepted establishment, packets a PDR wants select the FAR and QER it names, by the global ids the session has for them |
| `Forwarding.RulesPersist` | cmd/core/pfcp_session_handlers.go:20-484 | those ids, the FAR record, the QER settings and the key's record survive every run of other sessions and traffic |
| `Forwarding.DownlinkCharges` | cmd/ebpf/xdp/n3n6_entrypoint.c:119-124 | while records name no URR an admitted frame is added to URR slot 0 twice and to no other |
| `Forwarding.OwnUrrSeesPacketIff` | cmd/core/pdr_creation_context.go:76-85 | at once and after any run, an admitted frame changes the slot of the first URR a PDR names exactly when that is slot 0 |
| `Forwarding.RulesOfPdrAreOwnIff` | cmd/core/pdr_creation_context.go:66-75 | the QER and the FAR applied to a PDR's packets are the session's own exactly when the PDR names one it has, or the session holds global id 0 |
| `Uplink.SelectOnInner` | cmd/ebpf/xdp/n3n6_entrypoint.c:214-282 | selection on the inner packet, with the branches for short, foreign and IPv6 packets |
| `Uplink.PoliceUplinkPacket` | cmd/ebpf/xdp/n3n6_entrypoint.c:287-318 | as for downlink, with the uplink gate, rate and window, and for any FAR that forwards |
| `Uplink.UpdateGtpTunnel` | cmd/ebpf/xdp/utils/gtp_utils.h:264-277 | TEID and addresses replaced in place, header checksum recomputed, UDP checksum cleared |
| `Uplink.HandleGtpPacket` | cmd/ebpf/xdp/n3n6_entrypoint.c:194-373 | tables, frame and fate of a G-PDU for all tables and frames, through re-tunnelling, decapsulation, the ping reply and its way back |
| `Uplink.UplinkIsTraffic` | cmd/ebpf/xdp/n3n6_entrypoint.c:194-373 | what it does to the tables is a Traffic event |
| `Uplink.UplinkCharges` | cmd/ebpf/xdp/n3n6_entrypoint.c:313-318 | while records name no URR an admitted frame is added to URR slot 0 twice, and no other slot ever changes, on a ping's way back neither |
| `Uplink.RetunnelledIsSent` | cmd/ebpf/xdp/n3n6_entrypoint.c:322-326 | a re-tunnelled frame is routed with the FAR's TEID and peer, a verifying outer header and its inner packet unchanged |
| `EndToEnd.Ip4Dispatch` | cmd/ebpf/xdp/n3n6_entrypoint.c:402-430 | on an IPv4 frame that is no GTP-U for the program, the whole program is the downlink handler if the protocol is ICMP, TCP or UDP, and otherwise passes the frame up with frame and tables unchanged |
| `EndToEnd.Ip6Dispatch` | cmd/ebpf/xdp/n3n6_entrypoint.c:432-458 | on an IPv6 frame it is the downlink handler if TCP or UDP follows the header, and otherwise passes it up unchanged |
| `EndToEnd.GtpuDispatch` | cmd/ebpf/xdp/n3n6_entrypoint.c:375-428 | on GTP-U for the program behind 20 outer bytes it is the uplink handler for a G-PDU, and leaves the tables alone for any other message |
| `EndToEnd.DownlinkReachesItsTunnel` | cmd/ebpf/xdp/n3n6_entrypoint.c:58-478 | after an accepted establishment and any run of other sessions and traffic, the whole program sends every ICMP, TCP or UDP frame for the UE that the PDR's rule accepts to the address and TEID of the Create FAR with the QFI of the Create QER, if the limiter with the downlink window of the QER's slot admits it and there is headroom, and passes up those of other protocols |
| `EndToEnd.DownlinkIp6ReachesItsTunnel` | cmd/ebpf/xdp/n3n6_entrypoint.c:132-478 | the same for IPv6 frames to a UE with an IPv6 address and a PDR without flow description: TCP and UDP leave in the tunnel, all else is passed up |
| `EndToEnd.RefusedFramesPass` | cmd/ebpf/xdp/n3n6_entrypoint.c:68-478 | a frame the rule of the only PDR on a new address refuses is passed up by the whole program, with frame and tables unchanged, still after any such run |
| `EndToEnd.MissedPayloadIsLost` | cmd/ebpf/xdp/utils/gtp_utils.h:90-139 | where the skip of 8 bytes misses the T-PDU, the whole program never sends the frame with the T-PDU to N6, whatever the tables hold |
| `EndToEnd.SequenceNumberCutsPacket` | cmd/ebpf/xdp/utils/gtp_utils.h:96-101 | a G-PDU with only a sequence number on a PDR that forwards without filter or limit: its T-PDU begins at byte 54, but the frame routed begins at byte 58, or none is routed |
| `EndToEnd.UplinkDeliversInner` | cmd/ebpf/xdp/n3n6_entrypoint.c:194-478 | likewise, if the frame with the T-PDU that a G-PDU for the program carries by TS 29.281 under the PDR's TEID, behind an outer IPv4 header without options, is routable and wanted by the PDR, and the limiter with the uplink window of the QER's slot admits the message, that frame, with its padding, comes out identical and is sent on exactly when no flag announces optional fields or there is one extension header of 4 bytes; other messages leave the tables alone |
| `EndToEnd.UplinkReachesNextTunnel` | cmd/ebpf/xdp/n3n6_entrypoint.c:194-478 | likewise, for a FAR that asks for a tunnel every G-PDU on a PDR without flow description, and on one with it every G-PDU whose T-PDU is found and wanted, leaves between the N9 address and the FAR's peer, under the FAR's TEID, with everything behind its 8 GTP bytes unchanged |

## Left out

- Sockets, PFCP wire decoding, logging, metrics, the REST API and configuration: input and output, and libraries whose code is not part of this model. A deletion that fails also returns a Go error, which is not modelled.
- BPF loading, pinning and map resizing; the separate zero, N3 and N6 entry points.
- FIB lookup and the route cache: opaque kernel calls; a frame handed to routing counts as sent, and the action routing ends in is a parameter.
- IPv6 SDF matching: a 32-bit byte swap is applied to a 128-bit address, so the IPv4 agreement does not carry over. The IPv6 matcher's answer is a parameter of `Forwarding` and `Uplink`; an IPv6 filter against an IPv4 packet has no intended meaning here.
- Usage reports beyond their volumes: `ReportSeqNumber` is not stored back and always reported as 1.
- Session-level release of UE addresses: allocation is keyed by the remote SEID and release by the local one; addresses are modelled in the pool only, and no restoration is claimed for them.
- Runs.PruneKeepsInv: about URRs it says only that no id gets a second owner, because pruning does not visit them and their ids stay taken.
- Heartbeats, association requests sent by the UPF, association update and release, the echo path manager, `limit_rate_simple`.
- Restore.TeidsRestored: the TEIDs come back as a multiset, because the order in which the released ones rejoin the queue is the map iteration's.
- RateLimiter.AdmittedTimeBound: for one CPU and one reader and writer of the window; races between CPUs are not modelled.
- StoredKeys.RunLeavesNoOrphans: one direction over runs, because a later Create PDR may take up a key left behind; both directions are proved for one IE (`IeCoversIff`) and for one establishment, deletion or pruning (`StoredKeyEvents`).
- Echo.RequesterSeesResponseIff: for requests whose IPv4 header length field is at least 5, as RFC 791 section 3.1 demands; the parsers do not test it.
- A configuration without resource manager: `ResourceManager`, `FTEIDM` and `IPAM` are always present here.
