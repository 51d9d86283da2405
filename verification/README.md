# A verified model of the TLS and Disguise layers

This project models the TLS stack of the repository and its Disguise cell layer in Dafny, and proves
what they are for. Every module says at its head which part it models.

**The TLS 1.3 handshake** (`Symbolic`, `Tls13Config`, `Tls13Client`, `Tls13Server`, `Tls13Run`,
`Tls13Proofs`, `Tls13ClientConn`, `Tls13ServerConn`). Client and server are step functions over their own
state; a run is a schedule of reads over two in-order channels, each message tagged with the secret it is
protected under. Hashes, HKDF, HMAC, signatures and tickets are free constructors, Diffie-Hellman is one
that commutes. All branches are there: HelloRetryRequest or none, PSK or certificate, client certificate
or none, tickets before or after the client's Finished. That two finished sides agree holds whatever is in
the client's session cache; that no side ever objects to the other needs a cache that holds only what this
server issued (`GoodCache`), and `RunIssuesSessions` shows that runs store nothing else. The classes of the
two `Conn` modules are the handshakes as the source has them, methods that read, loop and write as they go;
on every input they end where the step functions end.

**The TLS 1.0-1.2 handshake** (`Tls12Terms`, `Tls12Client`, `Tls12Server`, `Tls12Run`, `Tls12Proofs`,
`HandshakeHashes`, `Tls12ClientConn`, `Tls12ServerConn`) is the second instance, in the same style: full and
resumed, RSA and ECDHE, with or without ticket, status message and client certificate. Versions come from
the configured bounds, so that the downgrade canaries are part of it; keys are slices of the key block;
change_cipher_spec is a record of its own. `FinishedHash` keeps the running hashes and the buffer of the
source and is proved equal to the hash the step functions use. That its buffer is never asked for once it
is discarded holds against any peer, not only this one. `IssuedTicketAge` says how long an issued ticket is
good for: a ticket that opened but was refused for its age still passes its creation time on.

**The record layer** (`RecordProtection`, `RecordRuns`, `RecordLayer`, `Padding`, `RecordReading`,
`RecordReader`, `RecordWriting`, `RecordWriter`). The functions say what encrypt, decrypt, the reading
loop and the writing loop do to a state; the classes hold the buffers and counters of the source and are
proved equal to the functions; the lemmas are about the functions. Ciphers and MACs are parameters of
which only inverse and length laws are used. The lockstep of the two counters is stated per epoch,
because without a cipher encrypt does not count records and decrypt does. A run of the record layer has
at most 2^64-1 events, which is where the source panics.

**The message formats** (`Codec`, `ClientHelloCodec`, `ClientHelloRoundTrip`, `ClientHelloMessage`,
`ServerHelloCodec`, `CertificateMessages`, `CertificateRequests`, `CertificateEntries`, `SessionStates`,
`Tickets`). Round trips are stated exactly: for every message whose lengths fit their prefixes, what
the parser makes of the encoding, and for which messages that is the message itself. A list that is nil
and one that is empty are the same where the source treats them alike, and an option where it does not.

**Ticket keys and the session cache** (`TicketKeys`, `LruCache`). Rotation takes several clock readings
in one call, and calls of several connections interleave between the fast check and the slow path; both
are modelled. The documentation of the cache says that Put with nil removes the entry; for an absent key
the code adds one, and `NilRemovesOnlyPresentKeys` gives the exact condition.

**The Disguise layer** (`Viterbi`, `Classifier`, `Framing`, `CellFramer`, `Reassembly`, `Scheduling`,
`Pipeline`, `DisguiseManager`). The classifier is modelled over real numbers with an abstract logarithm;
`Viterbi.Bounded` says that no sum of logarithms is as low as the start value of the maximum. Dynamic
is no state of the classifier: training with it skips a single observation and panics on more. EncodeCell
writes 22 octets of header, while DecodeCell takes the content to begin after 20, so that every encoded
cell is refused. The model keeps both numbers: `EncodedCellsAreRefused` and `SourceDeliversOnlyNothing`
say what the code does, `DecodeUndoesEncode` that 22 is the one length that works, and
`EverythingArrivesInOrder` what the pipeline does with it. Its hypotheses are that every message
overshoots its last sampled length (or it is not flagged), that every window offset lies in the padding
(or encoding panics), and that clock readings strictly increase (or data cells may tie in the heap).

`dafny verify dfyconfig.toml` checks the whole project.

## Model

| member | source | states |
|---|---|---|
| `Tls13Proofs.FinishedRunsAgree` | handshake_client_tls13.go:41-106 | whatever session the client offered, on every branch and schedule in which both sides finish: equal transcripts, suite, PSK use and ALPN; each side writes under what the other reads; equal master and exporter secrets; the resumption secret the client keeps is the one in the ticket |
| `Tls13Proofs.FinishedTranscriptsBegin` | handshake_client_tls13.go:177-200 | both finished transcripts begin with the first hello when the client sent no other, and else with message_hash of it under the hash of the suite, the HelloRetryRequest and the second hello (section 4.4.1 of RFC 8446) |
| `Tls13Proofs.NoProtocolFailure` | handshake_server_tls13.go:45-84 | in no run of this client against this server does either side object to a message: runs fail for configuration only (no common suite, rejected certificate, and so on) |
| `Tls13Proofs.OnlyBindersFail` | handshake_server_tls13.go:225-317 | with a session of any origin in the cache one failure more is possible: that the server refuses the binder |
| `Tls13Proofs.RunsComplete` | handshake_client_tls13.go:41-106 | every reachable state extends to both sides finished, or to a failure of the kind allowed, within one read more than its rank |
| `Tls13Proofs.NoDeadlock` | handshake_server_tls13.go:45-84 | a run that has neither failed nor finished always has a message to read |
| `Tls13Proofs.StepsEnd` | handshake_client_tls13.go:41-106 | every message read fails the run, lowers a rank, or is the ticket of an established client, so that runs end |
| `Tls13Proofs.StepKeeps` | handshake_server_tls13.go:45-84 | one step of either side keeps the invariant that ties the two states, the channels and the phase together |
| `Tls13Proofs.RunIssuesSessions` | handshake_server_tls13.go:706-763 | a session the client stores is one the server will recognise: its ticket decrypts, and holds the PSK the client derives |
| `Tls13Proofs.FirstHelloAnswered` | handshake_server_tls13.go:86-223 | the server answers a first hello with a flight the client accepts, or with a HelloRetryRequest the client finds necessary, or fails for configuration |
| `Tls13Proofs.RetryTaken` | handshake_client_tls13.go:177-285 | a HelloRetryRequest of this server is never rejected as unnecessary or malformed, and the second hello is the first with nothing but the share, the PSK identities and the binders replaced |
| `Tls13Proofs.SecondHelloAnswered` | handshake_server_tls13.go:396-512 | the second hello passes illegalClientHelloChange and the key-share check, and is answered |
| `Tls13Proofs.RetriedBinders` | handshake_client_tls13.go:225-261 | the binder of the second hello is the MAC over message_hash, HelloRetryRequest and the truncated second hello |
| `Tls13Proofs.ResumptionAgrees` | handshake_server_tls13.go:225-320 | for a ticket this server issued the binder comparison never fails; whenever it succeeds, for any ticket, both sides hold the same early secret; when no PSK is taken nothing changes |
| `Tls13Proofs.KeysEstablished` | handshake_client_tls13.go:344-382 | the client derives the handshake traffic secrets that the server installed |
| `Tls13Proofs.ServerHelloProcessed` | handshake_client_tls13.go:287-342 | the ServerHello of this server is accepted, whether it follows a retry or not |
| `Tls13Proofs.ServerHelloAccepted` | handshake_client_tls13.go:287-382 | after it the rest of the server's flight is exactly what the client will accept, message by message |
| `Tls13Proofs.FinishedAccepted` | handshake_client_tls13.go:497-541 | the server's Finished verifies and both sides install the same application secrets |
| `Tls13Proofs.SecondFlightCloses` | handshake_client_tls13.go:612-632 | the client's last flight, with or without certificate, is what the server waits for |
| `Tls13Proofs.ClientFinishedRead` | handshake_server_tls13.go:850-872 | the client's Finished verifies whether tickets were sent before or are sent after it |
| `Tls13Proofs.TicketRead` | handshake_client_tls13.go:634-682 | a ticket read after the handshake stores the PSK that the server sealed |
| `Tls13Proofs.AcceptedServerFinishedBinds` | handshake_client_tls13.go:497-541 | for endpoints that derived their handshake keys from secrets of their own, and for nothing else assumed: a server Finished that verifies forces equal secrets, transcripts and application keys |
| `Tls13Proofs.AcceptedClientFinishedBinds` | handshake_server_tls13.go:850-872 | a server that computed the client's Finished over its transcript accepts only that of a client with the same transcript and secret |
| `Tls13Proofs.OwnSignatureVerifies` | handshake_server_tls13.go:574-642 | a CertificateVerify made over a transcript verifies over that transcript |
| `Symbolic.DiffieHellmanCommutes` | key_schedule.go:104-199 | both sides of a key exchange in one group compute the same secret |
| `Tls13Config.NegotiateAlpn` | handshake_server.go:257-283 | the nested search returns the first server protocol the client offers, none for the h2 to http/1.1 fallback, and an error otherwise |
| `Tls13Config.IllegalClientHelloChange` | handshake_server_tls13.go:459-512 | the comparison loops report a change exactly when the second hello is not the first with key shares, early data, PSK identities and binders replaced; a changed cookie is illegal |
| `RecordRuns.ReceiverFollowsSender` | conn.go:338-561 | over every run of sends, key changes and deliveries, for all cipher shapes: received is a prefix of sent, counters of an epoch differ by the records in flight, AEAD nonces of an epoch are pairwise distinct |
| `RecordRuns.DeliveryNeverFails` | conn.go:338-460 | no record of such a run is ever rejected |
| `RecordRuns.RoundTrip` | conn.go:478-561 | decrypt undoes encrypt for a receiver in step, for each shape, with type and payload intact |
| `RecordProtection.DecryptKeepsKeys` | conn.go:338-460 | decrypt keeps version, kind of cipher and all key material; it changes the counter, the stream position and the chained IV only |
| `RecordLayer.XorNonceAead.Seal` | cipher_suites.go:482-492 | seals under the mask xored with the nonce and leaves the mask as it was |
| `RecordLayer.XorNonceAead.Open` | cipher_suites.go:494-504 | opens under the same nonce and leaves the mask as it was |
| `RecordLayer.MaskRestored` | cipher_suites.go:482-504 | xoring a nonce in twice restores the mask |
| `RecordLayer.HalfConn.IncSeq` | conn.go:238-250 | the carry loop over eight octets adds one, or reports that the counter would wrap |
| `RecordLayer.HalfConn.ChangeCipherSpec` | conn.go:214-226 | installs the prepared cipher with counter zero, or changes nothing |
| `RecordLayer.HalfConn.SetTrafficSecret` | conn.go:228-235 | installs a TLS 1.3 cipher with counter zero |
| `RecordLayer.HalfConn.Encrypt` | conn.go:478-561 | the record and the new state are those of the specification, for every shape |
| `RecordLayer.HalfConn.Decrypt` | conn.go:338-460 | result and new state are those of the specification, for every shape and every input |
| `Padding.ExtractPadding` | conn.go:279-324 | the masked bit arithmetic decides the plain rule: (p+1, 255) exactly when the last p+1 octets exist and equal p, (1, 0) for any other non-empty input |
| `RecordReading.OneOutcome` | conn.go:594-765 | a call of readRecordOrCCS has exactly one of the outcomes its comment lists, with all else unchanged; the recursion ends because the retry count grows to 17 |
| `RecordReading.ReadHandshakeCuts` | conn.go:1020-1100 | readHandshake returns what is cut from the octets of the stream, or the error that stops there |
| `RecordReading.SplitDoesNotMatter` | conn.go:1020-1100 | two readers of the same handshake octets read the same messages, however the octets were split into records and protected |
| `RecordReader.ConnReader.ReadRecordOrCcs` | conn.go:606-765 | the object reaches the state of the specification |
| `RecordReader.ConnReader.RetryReadRecord` | conn.go:769-776 | counts an ignored record, gives up beyond the limit, else reads on |
| `RecordReader.ConnReader.ReadHandshake` | conn.go:1020-1100 | message and state are those of the specification |
| `RecordWriting.PiecesAreTheData` | conn.go:951-998 | the pieces of a write, joined, are the data; those of a failed write are a proper prefix |
| `RecordWriting.PiecesInRange` | conn.go:965-969 | every piece has 1 to 16384 octets |
| `RecordWriting.RecordsFitInSegments` | conn.go:872-917 | in the growth phase packet number k goes out as a record of at most k*1208 octets, for every cipher shape with a power-of-two block size |
| `RecordWriting.RecordsAreNotOversized` | conn.go:951-998 | no record is longer than a reader accepts |
| `RecordWriting.AndNotRoundsDown` | conn.go:893 | clearing low bits rounds down to a multiple of a power of two |
| `RecordWriter.ConnWriter.MaxPayloadSizeForWrite` | conn.go:872-917 | the size is that of the specification, and the packet is counted exactly while sizes grow |
| `RecordWriter.ConnWriter.WriteRecordLocked` | conn.go:951-1007 | what is written, counted and installed is what the specification says |
| `RecordWriter.ConnWriter.Flush` | conn.go:930-940 | buffered octets leave in order; buffering ends only when there were some |
| `ClientHelloRoundTrip.UnmarshalOfMarshal` | handshake_messages.go:97-301 | for every message whose lengths fit: what unmarshal makes of its encoding, refusal included |
| `ClientHelloRoundTrip.RoundTrip` | handshake_messages.go:346-589 | all fields come back exactly when flags agree with their data, inner items are not empty, no name ends in a dot, and the signalling suite comes with its flag; the dropped extension block included |
| `ClientHelloMessage.ClientHelloMsg.Unmarshal` | handshake_messages.go:346-589 | the cursor and loops accept and return what the specification does |
| `ClientHelloMessage.ClientHelloMsg.Marshal` | handshake_messages.go:97-101 | encodes once and hands out the cached octets after that |
| `ClientHelloMessage.ClientHelloMsg.MarshalWithoutBinders` | handshake_messages.go:306-315 | the encoding less the binders list |
| `ClientHelloMessage.ClientHelloMsg.UpdateBinders` | handshake_messages.go:320-344 | rewritten in place, the cached octets are a fresh encoding of the new fields, and what binders are computed over is unchanged |
| `ClientHelloMessage.BindersReplaced` | handshake_messages.go:306-344 | binders of the same lengths change the end of the encoding and nothing else |
| `ClientHelloMessage.ReceivedEndsWithBinders` | handshake_messages.go:306-315 | an accepted message with pre-shared keys, whoever sent it, ends with exactly the binders returned |
| `ServerHelloCodec.UnmarshalOfMarshal` | handshake_messages.go:615-729 | for every message whose lengths fit: what unmarshal makes of its encoding |
| `ServerHelloCodec.RoundTrip` | handshake_messages.go:731-839 | all fields come back exactly when flags agree with their data and no timestamp is empty |
| `Codec.ReadBlockBack` | handshake_messages.go:374-586 | reading a block of extensions is folding over them in order |
| `Codec.ReadItemsBack` | handshake_messages.go:358-368 | a list without a count comes back exactly when each item is acceptable |
| `CertificateMessages.Unmarshal` | handshake_messages.go:1242-1277 | counting pass and slicing pass visit the same certificates and stay in bounds on every input of any length |
| `CertificateMessages.Marshal` | handshake_messages.go:1207-1240 | the octets written into place are the encoding of the list |
| `CertificateMessages.CertificatesRoundTrip` | handshake_messages.go:1207-1277 | the list comes back exactly when its last certificate is not empty, and is refused otherwise |
| `CertificateRequests.Unmarshal` | handshake_messages.go:1632-1706 | the nested loops accept and return what the specification does, on every input |
| `CertificateRequests.Marshal` | handshake_messages.go:1577-1630 | the octets written into place are the encoding |
| `CertificateRequests.RequestRoundTrip` | handshake_messages.go:1577-1706 | refused exactly when no certificate type is listed; else all comes back but the algorithms of a version that does not send them |
| `CertificateEntries.CertificateBack` | handshake_messages.go:1310-1423 | the TLS 1.3 list with its staple and timestamps comes back exactly when nothing stapled is empty |
| `CertificateEntries.MessageBack` | handshake_messages.go:1286-1363 | the peer gets what the flags allowed, with the flags set for what it got |
| `SessionStates.StateBack` | ticket.go:35-75 | the state comes back exactly when it has a master secret |
| `SessionStates.StateBackTls13` | ticket.go:89-117 | the state comes back exactly when it has a secret and nothing stapled is empty |
| `Tickets.EncryptTicket` | ticket.go:119-145 | the buffer filled in place is name, IV, ciphertext and MAC under the first key; an error exactly without keys |
| `Tickets.DecryptTicket` | ticket.go:147-185 | the loop finds the first key of that name; the result is that of the specification |
| `Tickets.TicketBack` | ticket.go:119-185 | a sealed state opens under every list that still holds its key, with the flag set unless the key is first |
| `Tickets.SessionBack` | ticket.go:102-185 | a TLS 1.3 session state survives marshal, seal, open and unmarshal |
| `TicketKeys.RunKeeps` | common.go:891-917 | over every run with a monotone clock: keys newest first, at least 24 hours apart, at most 7 |
| `TicketKeys.ReturnedHeadIsFresh` | common.go:891-917 | a returned list has a head under 24 hours old at the reading that checked it |
| `TicketKeys.KeptWhileYoung` | common.go:909-914 | a key is dropped only by a reading that finds it past 7 days |
| `TicketKeys.TicketsOpenForSixDays` | common.go:891-917 | a ticket sealed under the head of a returned list opens to its state under the list at any time in the next 6 days, whatever other calls did |
| `TicketKeys.Config.FreshKeys` | common.go:891-894 | the fast path returns the list exactly when its head is fresh |
| `TicketKeys.Config.RotateKeys` | common.go:896-917 | the slow path's loop rotates exactly when still needed, each key compared with a reading of its own |
| `LruCache.StoredSessionsStay` | common.go:1420-1462 | a stored session stays, with its state, through any run that leaves its key alone and touches fewer other keys than the capacity |
| `LruCache.NilRemovesOnlyPresentKeys` | common.go:1420-1449 | after Put with nil the key is gone exactly when it was there before; an absent key gets an entry that holds nil |
| `LruCache.LruSessionCache.Put` | common.go:1420-1449 | map, list and reused elements hold what the specification says |
| `LruCache.LruSessionCache.Get` | common.go:1453-1462 | finds the state and makes the key the most recent |
| `LruCache.LruSessionCache.constructor` | common.go:1405-1416 | empty, with 64 entries when the capacity asked for is less than one |
| `Viterbi.FinalEndsBestPath` | disguise/classifier.go:87-140 | the dynamic program ends in the last state of a path no other path beats, the lowest such state on ties |
| `Viterbi.NoPathIsBetter` | disguise/classifier.go:113-128 | no path into a state scores more than the table entry |
| `Viterbi.TraceIsBest` | disguise/classifier.go:113-128 | the back pointers give a path that scores that much |
| `Classifier.HmmClassifier.Predict` | disguise/classifier.go:87-140 | the nested loops return that state; an error exactly for no observations |
| `Classifier.HmmClassifier.Train` | disguise/classifier.go:143-171 | no observations are refused; Dynamic with more than one makes the source panic, and exactly that does; otherwise the counts of the given state, if it has any, change as specified, every row is renormalized, every probability is in (0, 1] |
| `Classifier.NormalizedIs` | disguise/classifier.go:173-201 | a renormalized row lies in (0, 1] and sums to one exactly when something was counted |
| `Classifier.CountEmissionsIs` | disguise/classifier.go:155-160 | no observation is lost or counted twice; those outside the table are skipped |
| `Classifier.RowsAfterTraining` | disguise/classifier.go:143-201 | after any run of training: all in (0, 1], and a state's emissions sum to one exactly when one of its observations was seen |
| `Classifier.HmmClassifier.constructor` | disguise/classifier.go:30-84 | the initial rows are probabilities that sum to one |
| `Framing.EncodedCellsAreRefused` | disguise/framing/framing.go:210-226 | every cell EncodeCell writes is refused by DecodeCell, whose header length is two less than what is written |
| `Framing.DecodeUndoesEncode` | disguise/framing/framing.go:187-239 | a decoder that skips h octets undoes the encoder exactly when h is 22 |
| `Framing.FragmentIs` | disguise/framing/framing.go:62-118 | the cells carry the message in order and completely, numbered consecutively modulo 2^32, no payload empty, no flag but on the last |
| `Framing.FlaggedWhenOvershot` | disguise/framing/framing.go:79-82 | a message is flagged exactly when its last sampled length exceeds what was left |
| `CellFramer.Framer.Fragment` | disguise/framing/framing.go:62-118 | the loop makes the cells of the specification and counts them |
| `CellFramer.Framer.EncodeCell` | disguise/framing/framing.go:187-207 | payload and padding are copied to their places around the window |
| `CellFramer.Framer.DecodeCell` | disguise/framing/framing.go:210-239 | the result is that of the specification on every input |
| `Reassembly.InterleavedMessagesArrive` | disguise/framing/reassembler.go:31-64 | any interleaving of flagged messages with distinct identifiers delivers of each exactly its payload, once |
| `Reassembly.OnlySentMessagesArrive` | disguise/framing/reassembler.go:31-64 | and nothing that was not sent |
| `Reassembly.UnflaggedMessagesStay` | disguise/framing/reassembler.go:56-60 | a message is delivered exactly when its last cell is flagged |
| `Reassembly.Projected` | disguise/framing/reassembler.go:36-49 | each stream sees only its own cells; a rejected cell changes no stream |
| `Reassembly.Reassembler.ProcessCell` | disguise/framing/reassembler.go:31-64 | streams and result are those of the specification |
| `Scheduling.Scheduler.Push` | disguise/scheduler/scheduler.go:37-42 | the array stays a heap with correct indices and one item more |
| `Scheduling.Scheduler.Pop` | disguise/scheduler/scheduler.go:44-51 | the array stays a heap with correct indices, less its root and nothing else |
| `Scheduling.Scheduler.GetNextCell` | disguise/scheduler/scheduler.go:98-113 | a due cell of least priority leaves, or nothing is due |
| `Scheduling.Scheduler.ScheduleCell` | disguise/scheduler/scheduler.go:80-95 | a dummy is due only after the probing interval |
| `Scheduling.RootIsLeast` | disguise/scheduler/scheduler.go:27-29 | the root of a heap has the least priority of all |
| `Pipeline.EverythingArrivesInOrder` | disguise/manager.go:73-147 | with a decoder that skips 22 octets, what is read is always a prefix of what was queued, and all of it once no data is on the way, whatever cover traffic is mixed in |
| `Pipeline.SourceDeliversOnlyNothing` | disguise/manager.go:109-133 | with the source's 20, a drained pipeline has delivered what was queued exactly when that was nothing |
| `Pipeline.NothingArrives` | disguise/manager.go:109-133 | with any header length but 22 nothing is ever read |
| `Pipeline.TakenInOrder` | disguise/scheduler/scheduler.go:98-113 | with a strictly increasing clock data cells leave first in, first out |
| `Pipeline.NothingDueMeansNoData` | disguise/scheduler/scheduler.go:106-109 | when nothing is due no data cell is left in the scheduler |
| `DisguiseManager.Manager.QueueApplicationData` | disguise/manager.go:73-88 | the cells of the message are scheduled in order and each is observed |
| `DisguiseManager.Manager.GetOutboundTraffic` | disguise/manager.go:91-106 | the encoding of a due cell of least priority, or none when nothing is due |
| `DisguiseManager.Manager.ProcessInboundTraffic` | disguise/manager.go:109-133 | data is observed, even when the reassembler then refuses it, and goes through the reassembler to the inbound queue; what does not decode changes nothing |
| `Tls12Proofs.FinishedRunsAgree` | handshake_client.go:381-456 | TLS 1.0-1.2, full or resumed, with or without ticket, status message or client certificate: when both sides finish, equal transcripts, version, suite, ALPN and master secret, mirrored cipher specs, equal exporters, empty channels, and a stored session that is the one in the ticket |
| `Tls12Proofs.NoProtocolFailure` | handshake_server.go:65-128 | no such run fails because one side objects to a message, suspects a downgrade or panics: only configurations stop it |
| `Tls12Proofs.NoDeadlock` | handshake_server.go:65-128 | a run that has neither failed nor finished has a record to read |
| `Tls12Proofs.StepKeeps` | handshake_server.go:65-128 | one read of either side keeps the invariant that ties both states, the channels and the phase together, or ends in a configuration failure |
| `Tls12Proofs.StepsEnd` | handshake_client.go:381-456 | every record read fails the run or lowers its rank |
| `Tls12Proofs.RunsComplete` | handshake_client.go:381-456 | every reachable state extends to both sides finished or a configuration failure, within one read more than its rank |
| `Tls12Proofs.RunIssuesSessions` | handshake_server.go:739-780 | a stored session's ticket opens under the server's keys and holds the client's master secret, version and suite |
| `Tls12Proofs.IssuedTicketAge` | handshake_server.go:397-424 | the ticket of a finished run dates from the hello's ticket if that opened, refused or not; so, as long as a fresh one would be, it is accepted exactly when none opened or the one that did is young, and a full handshake forced by an expired ticket issues an expired one |
| `Tls12Proofs.StartedClientNeverPanics` | prf.go:218-244 | whatever records a server sends, the client never asks for hashForClientCertificate after discarding the buffer |
| `Tls12Proofs.StartedServerNeverPanics` | prf.go:218-244 | the same for the server, whatever a client sends |
| `Tls12Proofs.NoDowngradeSignalled` | handshake_client.go:192-204 | between these endpoints the canary in the server's random is never taken for an attack |
| `Tls12Proofs.DowngradeRefusedExactly` | handshake_server.go:190-201 | whatever hello the server was shown: the client refuses its version for the canary exactly when both could do better and both know TLS 1.2 |
| `Tls12Proofs.HelloAnswered` | handshake_server.go:131-257 | an offered hello is answered with a full flight or a resumption the client accepts, or fails for configuration |
| `Tls12Proofs.KeyExchangeAccepted` | key_agreement.go:168-349 | the client accepts the server's signed parameters, and what it answers leads the server to the same premaster secret |
| `Tls12Proofs.VerifyAccepted` | handshake_server.go:610-653 | a CertificateVerify over the client's transcript is accepted over the server's |
| `Tls12Proofs.FinalSent` | handshake_server.go:739-799 | ticket, change_cipher_spec and Finished leave in the order and over the transcript the client expects |
| `Tls12Proofs.AcceptedServerFinishedBinds` | handshake_client.go:767-793 | whatever the network did: a client that accepts the Finished this server makes has its master secret and transcript |
| `Tls12Proofs.AcceptedClientFinishedBinds` | handshake_server.go:710-737 | the same for the client's Finished at the server |
| `Tls12Terms.SharedSecretsAgree` | key_agreement.go:257-268 | both sides of an ECDHE exchange compute the same premaster secret |
| `Tls12Terms.ChooseSigning` | auth.go:98-151 | what a signer chooses is what a verifier of the announced scheme, or of the key before TLS 1.2, works out; it suits the key and is among the peer's algorithms |
| `HandshakeHashes.FinishedHash.constructor` | prf.go:143-156 | two hashes, two more before TLS 1.2, and a buffer from TLS 1.2 on, all empty |
| `HandshakeHashes.FinishedHash.Write` | prf.go:174-188 | every hash in use and the buffer, if kept, get the message |
| `HandshakeHashes.FinishedHash.Sum` | prf.go:190-198 | the digest of what was written, MD5 and SHA-1 before TLS 1.2 |
| `HandshakeHashes.FinishedHash.ClientSum` | prf.go:202-206 | the client's verify_data over what was written |
| `HandshakeHashes.FinishedHash.ServerSum` | prf.go:210-214 | the server's verify_data over what was written |
| `HandshakeHashes.FinishedHash.HashForClientCertificate` | prf.go:218-238 | what the certificate's key signs, from the buffer or a running hash; a panic exactly when the buffer is needed and gone |
| `HandshakeHashes.FinishedHash.DiscardHandshakeBuffer` | prf.go:242-244 | only the buffer goes |
| `Tls12ClientConn.ClientHandshake.ClientHandshake` | handshake_client.go:145-237 | on any incoming records the method ends where the step functions end: blocked, stopped with the same error, or complete with the same state and output |
| `Tls12ClientConn.ClientHandshake.RunHandshake` | handshake_client.go:381-452 | the same from an accepted version on, full or resumed |
| `Tls12ClientConn.ClientHandshake.BeginHash` | handshake_client.go:389-401 | the hash holds both hellos, without a buffer on resumption or when no certificate can follow |
| `Tls12ClientConn.ClientHandshake.Resume` | handshake_client.go:405-427 | the abbreviated handshake read and written in the source's order has the outcome of the step functions |
| `Tls12ClientConn.ClientHandshake.DoFull` | handshake_client.go:428-449 | the same for the full handshake |
| `Tls12ClientConn.ClientHandshake.DoFullHandshake` | handshake_client.go:468-653 | reading the flight message by message, with its optional ones, ends where the step functions do |
| `Tls12ClientConn.ClientHandshake.ReadParameters` | handshake_client.go:510-553 | certificate check and key exchange, whichever message comes |
| `Tls12ClientConn.ClientHandshake.ReadRequest` | handshake_client.go:555-581 | the optional request and ServerHelloDone |
| `Tls12ClientConn.ClientHandshake.SendFlight` | handshake_client.go:583-606 | certificate, key exchange and verify written one by one are the flight of the step functions |
| `Tls12ClientConn.ClientHandshake.SignHandshake` | handshake_client.go:608-637 | the signature over the buffered transcript, or the reason there is none |
| `Tls12ClientConn.ClientHandshake.SendCertificateVerify` | handshake_client.go:608-650 | a verify exactly when a certificate was sent, then the master secret |
| `Tls12ClientConn.ClientHandshake.MakeMasterSecret` | handshake_client.go:645-652 | the master secret is set and the buffer discarded |
| `Tls12ClientConn.ClientHandshake.ReadFinal` | handshake_client.go:767-825 | optional ticket, change_cipher_spec and the server's Finished |
| `Tls12ClientConn.ClientHandshake.ReadChangeCipherSpec` | conn.go:590-592 | installs the pending spec, or fails as the step functions do |
| `Tls12ClientConn.ClientHandshake.SendFinished` | handshake_client.go:827-842 | change_cipher_spec under the old spec, Finished under the new, and the transcript one message longer |
| `Tls12ClientConn.ClientHandshake.ReadHandshake` | conn.go:1020-1100 | the next message under the current spec, or waiting, or the error |
| `Tls12ClientConn.ClientHandshake.WriteHandshake` | handshake_client.go:589-592 | the message is hashed and written under the current spec |
| `Tls12ServerConn.ServerHandshake.ServerHandshake` | handshake_server.go:42-63 | on any incoming records the method ends where the step functions end |
| `Tls12ServerConn.ServerHandshake.ReadClientHello` | handshake_server.go:131-169 | version and parameters, or the error |
| `Tls12ServerConn.ServerHandshake.TakeClientHello` | handshake_server.go:171-257 | what processClientHello settles |
| `Tls12ServerConn.ServerHandshake.RunHandshake` | handshake_server.go:65-128 | resumes exactly when the step functions do, and remembers a ticket that opened |
| `Tls12ServerConn.ServerHandshake.Resume` | handshake_server.go:74-98 | the abbreviated handshake in the source's order |
| `Tls12ServerConn.ServerHandshake.DoResumeHandshake` | handshake_server.go:455-488 | ServerHello with the echoed session id, the certificates of the ticket, its master secret |
| `Tls12ServerConn.ServerHandshake.BeginHash` | handshake_server.go:501-508 | the hash holds both hellos, without a buffer when no client certificate is asked for |
| `Tls12ServerConn.ServerHandshake.SendTicketAndFinished` | handshake_server.go:739-799 | optional ticket, change_cipher_spec, Finished |
| `Tls12ServerConn.ServerHandshake.ReadFinished` | handshake_server.go:710-737 | change_cipher_spec and the client's Finished |
| `Tls12ServerConn.ServerHandshake.ReadChangeCipherSpec` | conn.go:590-592 | installs the pending spec, or fails as the step functions do |
| `Tls12ServerConn.ServerHandshake.DoFull` | handshake_server.go:99-124 | the full handshake in the source's order |
| `Tls12ServerConn.ServerHandshake.DoFullHandshake` | handshake_server.go:490-683 | both flights and both Finished messages |
| `Tls12ServerConn.ServerHandshake.CloseFull` | handshake_server.go:109-123 | the client's Finished, then ticket and Finished of the server |
| `Tls12ServerConn.ServerHandshake.ChooseSuite` | handshake_server.go:335-373 | the first preferred suite that fits, unless the client falls back without need |
| `Tls12ServerConn.ServerHandshake.Emit` | handshake_server.go:512-515 | one message more is hashed and written |
| `Tls12ServerConn.ServerHandshake.WriteFlight` | handshake_server.go:490-581 | the flight written message by message is that of the step functions |
| `Tls12ServerConn.ServerHandshake.WriteHello` | handshake_server.go:493-511 | ServerHello and the begun hash |
| `Tls12ServerConn.ServerHandshake.MakeKeyExchange` | key_agreement.go:168-255 | the key exchange depends on nothing hashed in between |
| `Tls12ServerConn.ServerHandshake.WriteCertificate` | handshake_server.go:512-528 | the chain and, if there is one to staple, the status |
| `Tls12ServerConn.ServerHandshake.WriteRest` | handshake_server.go:530-575 | key exchange, request and ServerHelloDone as far as they apply |
| `Tls12ServerConn.ServerHandshake.ReadClientFlight` | handshake_server.go:583-683 | certificate as asked for, key exchange, verify exactly for a certificate, master secret |
| `Tls12ServerConn.ServerHandshake.ReadKeyExchange` | handshake_server.go:624-683 | key exchange and what follows it |
| `Tls12ServerConn.ServerHandshake.TakeKeyExchange` | handshake_server.go:617-641 | the premaster secret and the master secret from it |
| `Tls12ServerConn.ServerHandshake.ReadVerify` | handshake_server.go:643-680 | a verify is read exactly when the client sent a certificate; then the buffer goes |
| `Tls12ServerConn.ServerHandshake.CheckVerify` | handshake_server.go:655-678 | the announced scheme, the key and the signature over the buffered transcript are checked as specified |
| `Tls12ServerConn.ServerHandshake.ReadHandshake` | conn.go:1020-1100 | the next message under the current spec, or waiting, or the error |
| `Tls12ServerConn.ServerHandshake.WriteHandshake` | handshake_server.go:512-515 | the message is hashed and written under the current spec |
| `Tls13ClientConn.ClientHandshake.Handshake` | handshake_client_tls13.go:41-106 | on any incoming records the method ends where the TLS 1.3 step functions end: blocked, stopped with the same error, or complete with the same state and output |
| `Tls13ClientConn.ClientHandshake.RunHandshake` | handshake_client_tls13.go:60-106 | the same from a checked ServerHello or HelloRetryRequest on |
| `Tls13ClientConn.ClientHandshake.ProcessHelloRetry` | handshake_client_tls13.go:177-285 | the retry is answered and the ServerHello that follows is checked |
| `Tls13ClientConn.ClientHandshake.SendRetried` | handshake_client_tls13.go:199-236 | cookie and key share of the second hello |
| `Tls13ClientConn.ClientHandshake.SendSecond` | handshake_client_tls13.go:238-270 | the binders of the second hello, or none when the hash does not fit |
| `Tls13ClientConn.ClientHandshake.ReadSecondServerHello` | handshake_client_tls13.go:267-283 | the answer to the second hello |
| `Tls13ClientConn.ClientHandshake.CheckSecond` | handshake_client_tls13.go:278-282 | the checks on it, the suite unchanged |
| `Tls13ClientConn.ClientHandshake.TakeServerHello` | handshake_client_tls13.go:287-342 | key share and PSK selection, then the keys |
| `Tls13ClientConn.ClientHandshake.EstablishKeys` | handshake_client_tls13.go:344-382 | both handshake secrets and the master secret, installed in the source's order |
| `Tls13ClientConn.ClientHandshake.ReadServerFlight` | handshake_client_tls13.go:80-99 | parameters, certificate and Finished, then the client's flight |
| `Tls13ClientConn.ClientHandshake.ReadServerParameters` | handshake_client_tls13.go:384-406 | EncryptedExtensions and its protocol |
| `Tls13ClientConn.ClientHandshake.ReadServerCertificate` | handshake_client_tls13.go:408-495 | nothing under a PSK, else an optional request, the chain and its verify |
| `Tls13ClientConn.ClientHandshake.TakeCertificate` | handshake_client_tls13.go:446-460 | the chain, refused when empty or not verified |
| `Tls13ClientConn.ClientHandshake.ReadCertificateVerify` | handshake_client_tls13.go:462-494 | the signature over the transcript before it |
| `Tls13ClientConn.ClientHandshake.ReadServerFinished` | handshake_client_tls13.go:497-541 | Finished, and the application secrets over the transcript with it |
| `Tls13ClientConn.ClientHandshake.SendSecondFlight` | handshake_client_tls13.go:92-99 | what goes out after the server's Finished is what the step functions send at once |
| `Tls13ClientConn.ClientHandshake.SendCertificate` | handshake_client_tls13.go:543-610 | nothing unasked, else the chain and, if there is one, its verify |
| `Tls13ClientConn.ClientHandshake.SendFinished` | handshake_client_tls13.go:612-632 | Finished under the handshake secret, then the application secret and the resumption secret |
| `Tls13ClientConn.ClientHandshake.ReadHandshake` | conn.go:1020-1100 | the next message under the current secret, or waiting, or the error |
| `Tls13ClientConn.ClientHandshake.WriteHandshake` | handshake_client_tls13.go:569-572 | the message is hashed and written under the current secret |
| `Tls13ServerConn.ServerHandshake.Handshake` | handshake_server_tls13.go:45-84 | on any incoming records the method ends where the TLS 1.3 step functions end |
| `Tls13ServerConn.ServerHandshake.ProcessClientHello` | handshake_server_tls13.go:86-223 | parameters and group, then an answer or a retry |
| `Tls13ServerConn.ServerHandshake.Negotiate` | handshake_server_tls13.go:86-162 | the checks of the hello in the source's order and the suite |
| `Tls13ServerConn.ServerHandshake.ChooseSuite` | handshake_server_tls13.go:148-158 | the loop finds the first preferred suite the client offers |
| `Tls13ServerConn.ServerHandshake.FindShare` | handshake_server_tls13.go:170-176 | the inner loop finds the first share of the group |
| `Tls13ServerConn.ServerHandshake.ChooseGroup` | handshake_server_tls13.go:164-187 | the labelled loops prefer a group with a share to an earlier one without |
| `Tls13ServerConn.ServerHandshake.CheckIdentities` | handshake_server_tls13.go:250-314 | the loop over identities skips what cannot be resumed and decides on the first that can |
| `Tls13ServerConn.ServerHandshake.TakeIdentity` | handshake_server_tls13.go:287-313 | binder check, certificates, selected identity |
| `Tls13ServerConn.ServerHandshake.ResumptionCheck` | handshake_server_tls13.go:225-317 | tickets, mode, counts, then the loop |
| `Tls13ServerConn.ServerHandshake.RetryHello` | handshake_server_tls13.go:396-457 | the retry and the second hello |
| `Tls13ServerConn.ServerHandshake.WriteRetry` | handshake_server_tls13.go:399-424 | message_hash and the retry, hashed and written |
| `Tls13ServerConn.ServerHandshake.TakeSecondHello` | handshake_server_tls13.go:435-456 | share, early data and illegal changes are checked, then the answer |
| `Tls13ServerConn.ServerHandshake.RespondTo` | handshake_server_tls13.go:205-220 | the shared key and the server's share |
| `Tls13ServerConn.ServerHandshake.RunHandshake` | handshake_server_tls13.go:51-84 | resumption, certificate, flight, and the client's flight |
| `Tls13ServerConn.ServerHandshake.WriteFlight` | handshake_server_tls13.go:57-70 | parameters, certificate and Finished written one after the other are the flight sent at once |
| `Tls13ServerConn.ServerHandshake.WriteFromCertificate` | handshake_server_tls13.go:60-66 | the same from the certificate on |
| `Tls13ServerConn.ServerHandshake.WriteParameters` | handshake_server_tls13.go:514-568 | ServerHello, both handshake secrets over it, EncryptedExtensions |
| `Tls13ServerConn.ServerHandshake.WriteCertificate` | handshake_server_tls13.go:574-642 | nothing under a PSK, else an optional request, the chain and its verify |
| `Tls13ServerConn.ServerHandshake.WriteFinished` | handshake_server_tls13.go:644-690 | Finished, the application secrets over it, and tickets unless a certificate is awaited |
| `Tls13ServerConn.ServerHandshake.WriteTickets` | handshake_server_tls13.go:706-763 | the client's Finished ahead of its arrival, and the ticket over the transcript with it |
| `Tls13ServerConn.ServerHandshake.ReadSecondFlight` | handshake_server_tls13.go:71-77 | the client's certificate as asked for, then its Finished |
| `Tls13ServerConn.ServerHandshake.ReadCertificate` | handshake_server_tls13.go:765-848 | chain, verify exactly for a chain, and the tickets that waited |
| `Tls13ServerConn.ServerHandshake.FinishCertificate` | handshake_server_tls13.go:841-846 | the tickets that waited for the certificate |
| `Tls13ServerConn.ServerHandshake.ReadVerify` | handshake_server_tls13.go:806-838 | the signature over the transcript before it |
| `Tls13ServerConn.ServerHandshake.ReadFinished` | handshake_server_tls13.go:850-872 | only the Finished computed ahead is accepted; then the client's application secret |
| `Tls13ServerConn.ServerHandshake.ReadHandshake` | conn.go:1020-1100 | the next message under the current secret, or waiting, or the error |
| `Tls13ServerConn.ServerHandshake.WriteHandshake` | handshake_server_tls13.go:596-599 | the message is hashed and written under the current secret |

## Left out

- A run of the handshake halts at the first failure of either side; alerts, and what sending one does to the other direction, are not modelled.
- Dummy change_cipher_spec records of TLS 1.3 compatibility mode: they carry no handshake state.
- The handshake state of an endpoint class is one record that its methods update, and its transcript a value: aliasing of the source's hash objects is not captured.
- What a handshake had already written when it failed, and the fields it had already set.
- TLS 1.0-1.2: renegotiation and HelloRequest, SCTs beyond their presence, malformed key exchange octets (parameters are structured values), and what an RSA decryption failure yields beyond its being none of the client's secrets.
- Deleting the cached session after a failed handshake that offered it.
- X.509 parsing and verification are fields of the configurations that accept or reject a chain; signatures are checked symbolically.
- KeyUpdate, early data, renegotiation, exporters beyond the exporter secret, and key logging.
- A TLS 1.0-1.2 session that the cache offers appears in the TLS 1.3 ClientHello only as its ticket.
- The struct of ClientHello fields is one datatype value inside `ClientHelloMsg`; the builders are functions, and only the cached octets are an array.
- Encodings whose lengths do not fit their prefixes: the source panics.
- Network errors of reads and writes, temporary errors among them, and the scratch buffer pool of writeRecordLocked.
- Constant-time claims, and the primitives themselves.
- Explicit session ticket keys, the legacy SessionTicketKey field, and ConfigForClient.
- Map iteration order in reNormalizeProbabilities: the rows do not depend on it.
- Rounding in the classifier: arithmetic is over the reals.
- Sampling in the traffic profiles, and the content of padding: lengths, cell sizes, offsets, identifiers and padding octets are inputs.
- The mutexes and ticker loops of the manager: a cover cell is an event, a profile switch is not modelled.
- ReadApplicationData hands out a slice of a buffer that is written again later; the model returns a copy.
- Conn.Read, Conn.Write and readAndDecryptRecord.
