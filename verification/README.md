# Shotover: request and reply pairing, verified in Dafny

Shotover is a database proxy. A client's requests go through a chain of transforms to a server, and every
request is to get exactly one reply, paired with it correctly, and in order where the protocol is in order.
Several state machines keep that promise together; they share only queues, counters and wake-ups. This
project models those state machines and proves what they keep over whole runs and interleavings.

`dafny verify dfyconfig.toml` checks everything (Dafny 4.11).

| files | part of Shotover |
|---|---|
| `ByteOrder`, `Messages` | bytes; requests and replies; a reply to no request (a push or an event) has no request id |
| `DummyInserter`, `DummyPlacement`, `InserterRuns` | the sink connection's merging of dummy replies into the reply stream |
| `SinkProtocol` | the sink connection's handle, reader task and writer task |
| `CassandraHeaders`, `CassandraFrames`, `CassandraEnvelopes`, `CassandraStream`, `CassandraSequences`, `CassandraCodec` | version 5 framing of section 2 of the CQL binary protocol v5 specification, plain and LZ4 |
| `CassandraStreamIds` | pairing Cassandra replies by stream id |
| `KafkaFraming`, `KafkaCodec`, `KafkaSink` | the Kafka codec, and a Kafka sink connection end to end |
| `ValkeyPubsub`, `ValkeyDummies` | the Valkey codec against a server with subscriptions, and what dummies do to it |
| `TeeReplies`, `TeeInOrder`, `TeeInOrderMismatch`, `TeeOutOfOrder`, `TeeMismatch` | Tee's matching of the replies of two chains |
| `Coalesce` | the Coalesce transform and its timer task |
| `FairReplies` | a sink connection to a server that answers in any order |
| `QueryFilter`, `FilteredSink`, `FilteredOrder`, `FilteredValkey` | the query type filter, alone, on top of a sink connection, of one whose server answers in order, and of a Valkey one |
| `PendingRequests`, `Shutdown` | the source task's error replies and its gradual shutdown |

Tasks are modelled as atomic steps in any interleaving, a `Notify` as one stored permit, and a checksum or
compressor as any function (a compressor must undo itself). Code that updates fields in loops is a class whose
methods are proved equal to functions, and the properties are proved of those functions over all runs.

## What turned out different from what one would expect

The code is modelled as it is written. Where a natural property fails, the exact condition is proved.

- A dummy reply lands behind a reply it should precede when a push in the same batch is miscounted
  (`connection.rs:510` adds where raw positions would subtract). For the k-th dummy with r real requests ahead
  this happens exactly when some push has more than r and at most r + 2k solicited replies ahead of it
  (`OrderExactlyWhenUnclashed`, `ClashExample`), and over a run the replies leave in request order exactly when it
  never happens (`RunInOrderExactly`). What is emitted, and in which call, is always right.
- The pending counter also counts dummies, which the reader never takes off again. With nothing outstanding the read
  timeout is armed exactly when a dummy was ever sent, and can end the connection (`IdleTimeoutExactly`,
  `DummyTimesOut`).
- The call that brings an error to light leaves queued replies behind for good exactly when it is a `send` or a
  `get_error` and replies are queued at that moment (`ErrorLosesExactly`, `LostForGood`, `SendLosesReplies`); a
  receive hands over all of them first (`RepliesBeforeError`).
- A Cassandra envelope round-trips exactly when its length is good: not of exactly 2^17 bytes unsplit, not split into
  a single fragment (possible only with LZ4), and from the third fragment on not with a last fragment of 1 to 9
  bytes (`RoundTripExactly`). In a sequence two envelopes that are each a single fragment free each other if they
  come right behind one another, and a self-contained one overtakes one that is stuck; the sequences that come out
  whole and in order are described exactly (`SequenceExactly`, `Overtakes`).
- The Valkey decoder stays in step exactly while no dummy is sent through it and no unsubscribe-all happens with a
  name on its list twice (`RightExactlyWhenSound`).
- So a query filter above a Valkey sink makes tags wrong: from a denied query on, replies carry the ids of earlier
  queries (`DeniedQueryMistags`). A Valkey client goes by position, and by position every reply is still the right
  one, because a tag never names a query behind the one it should name (`DeniedQueriesDoNoHarm`). That holds while
  only ordinary requests follow. The first other one makes `connection.rs:536` subtract below zero exactly if it has
  more than one reply, since more replies then count as solicited than requests wait for one; with one reply, the
  first push behind it does so exactly if nothing was subscribed to before (`RequestUnderflowsExactly`,
  `PushUnderflowsExactly`, `DeniedThenSubscribe`).
- A transform may drop a SASL handshake if it drops its raw messages too; dropping only some of a group puts the two
  Kafka decoders out of step, and nothing else does (`SaslInStepExactly`).
- Tee can leave a push at the front of a queue until a later call, although a comment says none lingers. It does so
  under different conditions for the two queues (`PushLingersExactly`). It keeps every request whose replies match
  for ever (`RemovalNeverMisses`, `RemovalNeverMissesInOrder`).
- A dummy that reaches a query filter makes it panic, so two filters in one chain are not modelled as working
  (`FilterRequests`).

## Model

| member | source | states |
|---|---|---|
| `DummyInserter.DummyResponseInserter.constructor` | shotover/src/connection.rs:475-480 | no request is pending |
| `DummyInserter.DummyResponseInserter.ProcessRequests` | shotover/src/connection.rs:484-494 | the new requests are pending behind the old; the stored indexes are exactly the positions of the unanswered dummies |
| `DummyInserter.DummyResponseInserter.FixUpIndexes` | shotover/src/connection.rs:501-516 | the stored indexes move along by the pushes counted against each, and no other |
| `DummyInserter.DummyResponseInserter.InsertDue` | shotover/src/connection.rs:518-530 | exactly the due dummies are woven into the batch at their marks, in bounds, and the rest is kept |
| `DummyInserter.DummyResponseInserter.Rebase` | shotover/src/connection.rs:532-536 | no subtraction underflows; the kept indexes become positions among the requests still waiting |
| `DummyInserter.DummyResponseInserter.ProcessResponses` | shotover/src/connection.rs:499-537 | for every batch, pushes anywhere: the part before `start_at` is untouched, the requests answered are the longest prefix the replies allow, and the stored indexes are the positions of what is left |
| `DummyInserter.ReadySplits` | shotover/src/connection.rs:499-537 | the answered prefix takes exactly as many replies as came, and what waits starts with a real request |
| `DummyPlacement.DummyLands` | shotover/src/connection.rs:502-516 | a dummy never lands early, and lands where it belongs if and only if no push clashes with it |
| `DummyPlacement.OrderExactlyWhenUnclashed` | shotover/src/connection.rs:499-537 | one call answers its requests in request order if and only if no push clashes |
| `DummyPlacement.SolicitedUnclashed` | shotover/src/connection.rs:499-537 | without pushes nothing clashes |
| `DummyPlacement.CallConserves` | shotover/src/connection.rs:499-537 | with pushes or without: received replies keep their order, and the dummies emitted are those of the requests due, once each and in order |
| `DummyPlacement.ClashExample` | shotover/src/connection.rs:510-512 | two dummies, a request, and a reply followed by a push: the second dummy comes out behind the reply |
| `InserterRuns.RunConserves` | shotover/src/connection.rs:484-537 | over every run: answered plus pending are the requests sent, all replies are out in order, every dummy is out exactly once, in the call that completed the replies ahead of it |
| `InserterRuns.RunInOrderExactly` | shotover/src/connection.rs:484-537 | over every run the replies to requests have come out in request order if and only if no push was ever miscounted |
| `DummyPlacement.CountLeftExactly` | shotover/src/connection.rs:501-536 | for any requests and any batch: what the last line leaves of the pending count, which is below zero if and only if more replies came than requests wait for one |
| `InserterRuns.UnderflowsExactly` | shotover/src/connection.rs:484-537 | over every run no call takes the count below zero if and only if the server never answered more requests than it was sent |
| `InserterRuns.RunIsLongestPrefix` | shotover/src/connection.rs:132-194 | without pushes the whole output is the replies to the longest prefix of the requests the received replies allow |
| `InserterRuns.BatchingIrrelevant` | shotover/src/connection.rs:132-194 | two runs with the same requests and replies, batched differently, end in the same state and output |
| `InserterRuns.RepliesPairWithRequests` | shotover/src/connection.rs:484-537 | against an in-order server, reply i that leaves carries the id of request i |
| `SinkProtocol.StepKeepsInv` | shotover/src/connection.rs:310-460 | every step of handle, reader and writer, a cancelled receive included, keeps the handshake, the order of replies, the wake-ups and the count |
| `SinkProtocol.CloseAlwaysHasAReason` | shotover/src/connection.rs:94-122 | in every reachable state a closed channel means an error is waiting: the unwrap never fails, and runs at most once |
| `SinkProtocol.NothingDecodedIsLost` | shotover/src/connection.rs:374-421 | over every run, while there is a handle, the batches the reader decoded are exactly those handed over, those queued, and the one in its hand, in order |
| `SinkProtocol.RepliesBeforeError` | shotover/src/connection.rs:132-212 | a receive that reports the error has handed over every reply the reader ever decoded |
| `SinkProtocol.RequestsWrittenInOrder` | shotover/src/connection.rs:431-460 | over every run what is written is a prefix of the requests sent, and while the writer runs the rest is in its hand or queued, in order |
| `SinkProtocol.FirstErrorWins` | shotover/src/connection.rs:310-352 | the error the handle gets is that of the task that was first to report one, whatever the other ran into |
| `SinkProtocol.EverythingCaused` | shotover/src/connection.rs:132-194 | over every run no timeout comes without one configured, no forced chain run that was not asked for, and no receive waits once it has taken a reply |
| `SinkProtocol.ErrorEndsDelivery` | shotover/src/connection.rs:94-212 | once the error is known no reply is handed over, and the error stays the same |
| `SinkProtocol.ErrorLosesExactly` | shotover/src/connection.rs:94-212 | the call that brings the error to light leaves replies behind if and only if it is a `send` or a `get_error` and replies are queued |
| `SinkProtocol.LostForGood` | shotover/src/connection.rs:94-212 | however the connection goes on after that, nothing more is handed over |
| `SinkProtocol.NothingStranded` | shotover/src/connection.rs:310-421 | queued replies, or the end of the connection, always have a chain run requested or about to be |
| `SinkProtocol.TimeoutArmed` | shotover/src/connection.rs:356-439 | with a written request unanswered, a waiting reader has its timeout armed or a wake-up stored, and arms it when it next looks |
| `SinkProtocol.CountNeverNegative` | shotover/src/connection.rs:237-250 | the pending counter never goes below zero |
| `SinkProtocol.IdleTimeoutExactly` | shotover/src/connection.rs:364-372 | with all requests written and all written ones answered, the count is the number of dummies ever sent, and the reader arms its timeout if and only if there was one |
| `SinkProtocol.SendLosesReplies` | shotover/src/connection.rs:101-122 | for `send` and for `get_error`, a run in which it finds the error and a queued reply can no longer be received |
| `SinkProtocol.DummyTimesOut` | shotover/src/connection.rs:431-439 | a run in which a dummy request alone ends the connection with a read timeout |
| `CassandraFrames.PlainHeaderFields` | shotover/src/codec/cassandra.rs:834-883 | the 17-bit length and the self-contained flag do not overlap |
| `CassandraFrames.CompressedHeaderFields` | shotover/src/codec/cassandra.rs:884-945 | both 17-bit lengths and the self-contained flag do not overlap, and stay clear of the checksum |
| `CassandraFrames.PlainFrameLayout` | shotover/src/codec/cassandra.rs:862-882 | byte for byte, where length, flag, payload and checksums of a plain frame go |
| `CassandraFrames.CompressedFrameLayout` | shotover/src/codec/cassandra.rs:918-945 | byte for byte, the same for an LZ4 frame, and that a block that would grow is sent raw under an announced length of zero |
| `CassandraFrames.PlainAcceptedExactly` | shotover/src/codec/cassandra.rs:263-290 | a complete frame is taken if and only if both its checksums are right |
| `CassandraFrames.CompressedAcceptedExactly` | shotover/src/codec/cassandra.rs:302-361 | the same, and its block decompresses to the length announced |
| `CassandraFrames.BlockFits` | shotover/src/codec/cassandra.rs:961-984 | raw fallback or not: the block fits its length field, and leads back to the payload, a zero uncompressed length meaning raw |
| `CassandraFrames.ParseFrame` | shotover/src/codec/cassandra.rs:263-361 | every frame with a payload below the limit parses back, whatever follows it |
| `CassandraFrames.ParseStable` | shotover/src/codec/cassandra.rs:391-437 | bytes that come later never change what a complete frame parses to |
| `CassandraEnvelopes.ParsesExactly` | shotover/src/codec/cassandra.rs:498-537 | a payload is its envelopes if nothing is behind them, an error if a longer one is begun, and a panic if a piece of a header or a length of -9 to -1 is |
| `CassandraEnvelopes.RunFragments` | shotover/src/codec/cassandra.rs:472-545 | what becomes of every split envelope: delivered, stuck in the buffer, or an error, by its length |
| `CassandraStream.DecodeResumes` | shotover/src/codec/cassandra.rs:585-632 | decoding can stop at any byte and go on later |
| `CassandraStream.ChunkingIrrelevant` | shotover/src/codec/cassandra.rs:585-632 | the result does not depend on how the bytes were split into reads |
| `CassandraStream.StreamRoundTrip` | shotover/src/codec/cassandra.rs:809-945 | any sequence of envelopes of good lengths, over any chunking, plain or LZ4, comes out as it went in |
| `CassandraStream.EncodedWhole` | shotover/src/codec/cassandra.rs:862-945 | an envelope of at most 2^17 bytes, with LZ4 one that compresses to at most 2^17 bytes at worst, goes out as one self-contained frame |
| `CassandraStream.EncodedInPieces` | shotover/src/codec/cassandra.rs:839-916 | any other goes out in pieces of 2^17 - 1 bytes and a last one, piece i holding exactly its share, none self-contained |
| `CassandraStream.WholeComesBack` | shotover/src/codec/cassandra.rs:862-945 | one that goes out whole, below 2^17 bytes, is decoded at once |
| `CassandraStream.RoundTripExactly` | shotover/src/codec/cassandra.rs:839-916 | one envelope survives encoding and decoding if and only if its length, with LZ4 also its worst compressed length, is good, in numbers |
| `CassandraStream.ShortLastFragmentFails` | shotover/src/codec/cassandra.rs:539-545 | three or more fragments, the last of 1 to 9 bytes: decoding fails |
| `CassandraStream.SingleFragmentStalls` | shotover/src/codec/cassandra.rs:887-916 | an LZ4 envelope split into one fragment stays in the buffer |
| `CassandraStream.LimitIsLost` | shotover/src/codec/cassandra.rs:839-860 | an unsplit envelope of exactly the limit is lost, whatever the checksums |
| `CassandraSequences.DecodeFates` | shotover/src/codec/cassandra.rs:472-545 | what becomes of any sequence of envelopes, those of exactly the limit included: which come out, in which order, what is held, and where it fails |
| `CassandraSequences.SequenceExactly` | shotover/src/codec/cassandra.rs:809-945 | over any chunking a sequence comes out whole and in order if and only if single fragments come in adjacent pairs and every other length is good |
| `CassandraSequences.LimitFails` | shotover/src/codec/cassandra.rs:263-290 | an unsplit envelope of exactly the limit ends the connection, whatever follows it, unless its first four bytes are the checksum of nothing |
| `CassandraSequences.Lz4Sendable` | shotover/src/codec/cassandra.rs:884-945 | with LZ4 no envelope of the limit or above goes into a self-contained frame, so the theorem covers every well-formed sequence |
| `CassandraSequences.Overtakes` | shotover/src/codec/cassandra.rs:472-496 | a self-contained envelope comes out ahead of one that is held |
| `CassandraCodec.CassandraDecoder.ParseFullEnvelopes` | shotover/src/codec/cassandra.rs:498-537 | the loop gives the envelopes of the payload, or the error or panic of the first bad one |
| `CassandraCodec.CassandraDecoder.ExtractEnvelopes` | shotover/src/codec/cassandra.rs:472-496 | result and new state are those of the reassembly function |
| `CassandraCodec.CassandraDecoder.DecodeOnce` | shotover/src/codec/cassandra.rs:253-389 | what one call returns followed by decoding the rest is decoding the whole |
| `CassandraCodec.EncodeEnvelope` | shotover/src/codec/cassandra.rs:834-945 | the loop appends exactly the encoding of the envelope, which is the one self-contained frame for a small one |
| `CassandraStreamIds.ReplyTagger.TagBatch` | shotover/src/codec/cassandra.rs:604-632 | the map and the tags after draining the channel and tagging a batch |
| `CassandraStreamIds.TaggingExact` | shotover/src/codec/cassandra.rs:611-631 | after a batch the map knows exactly what is still in flight, and beyond that only requests whose reply could not be read |
| `CassandraStreamIds.TagsRightly` | shotover/src/codec/cassandra.rs:611-631 | each reply gets its own request's id; events and unreadable messages get none |
| `CassandraStreamIds.PairingHolds` | shotover/src/codec/cassandra.rs:604-632 | in every interleaving without reuse of a stream id in flight, unreadable replies included: map plus channel hold exactly the pairs in flight, each once, and beyond them only what unreadable replies left; every tag given was right |
| `CassandraStreamIds.ReuseMistags` | shotover/src/codec/cassandra.rs:822-831 | with reuse there is a run in which the first reply gets the second request's id and the second none |
| `KafkaFraming.TakeMessage` | shotover/src/codec/kafka.rs:110-130 | one call takes the first message if all of it is there, and what it leaves is read the same way |
| `KafkaFraming.PiecesIrrelevant` | shotover/src/codec/kafka.rs:110-130 | the pieces in which the bytes arrive make no difference |
| `KafkaFraming.FramingRoundTrip` | shotover/src/codec/kafka.rs:110-130 | messages written one after the other are read back one by one, over any pieces |
| `KafkaFraming.FramedExactly` | shotover/src/codec/kafka.rs:110-130 | the length is in front, most significant byte first, and does not count itself |
| `KafkaCodec.KafkaEncoder.Encode` | shotover/src/codec/kafka.rs:262-361 | up to the first message that cannot be encoded, all but dummies are written and exactly the ones that expect a reply are queued; what the failed message leaves behind depends on where it failed |
| `KafkaCodec.KafkaEncoder.EncodeOne` | shotover/src/codec/kafka.rs:263-360 | one message, by kind: an unknown mechanism leaves nothing, an unknown API key leaves bytes, a failed frame encoding leaves bytes and a header; only a produce with acks=0 gets no header; dummies and raw SASL never fail |
| `KafkaCodec.KafkaDecoder.DecodeRequest` | shotover/src/codec/kafka.rs:145-229 | how a source reads a request, and its next raw SASL state, or the error for an unknown mechanism |
| `KafkaCodec.KafkaDecoder.DecodeReply` | shotover/src/codec/kafka.rs:133-205 | how a sink reads a reply, its tag, and its next raw SASL state, a handshake's own coming first |
| `KafkaCodec.RawMessagesFollow` | shotover/src/codec/kafka.rs:145-229 | one raw message follows a PLAIN handshake of version 0, two follow a SCRAM one of either kind, none follows anything else, and an unknown mechanism closes |
| `KafkaCodec.SaslInStepExactly` | shotover/src/codec/kafka.rs:145-229 | over every run, any requests turned into dummies: the sink decoder reads each reply as raw SASL exactly when the source decoder read its request so, and is where the source decoder is or outside raw SASL, if and only if every handshake was dropped together with all its raw messages or not at all |
| `KafkaCodec.DroppedScramDesynchronises` | shotover/src/codec/kafka.rs:196-205 | a raw SASL request replaced by a dummy puts the two decoders out of step |
| `KafkaSink.MoveKeeps` | shotover/src/codec/kafka.rs:133-182 | sending, encoding, serving, decoding and receiving each keep queue, tags and SASL state |
| `KafkaSink.DummyExactly` | shotover/src/message/mod.rs:508-528 | of what is sent, exactly the requests a broker does not answer, produces with acks=0, are taken to get no reply |
| `KafkaSink.QueueHoldsUnanswered` | shotover/src/codec/kafka.rs:320-349 | in every run against a broker that is sent every request and answers all but acks=0 produces, the header queue holds exactly the headers of the replies on the wire and of those the broker will still send, and is not empty when a reply is read |
| `KafkaSink.RepliesInRequestOrder` | shotover/src/connection.rs:132-194 | in every run, acks=0 produces and dummies included, a receive taking all or part of what is queued, what left the connection is exactly the replies to a prefix of the requests, in order, each its own; what is left waits for the server |
| `KafkaSink.SaslEndToEnd` | shotover/src/codec/kafka.rs:270-347 | under that condition, through a whole connection, replies are read as raw SASL exactly when their requests were |
| `ValkeyPubsub.ValkeyDecoder.Retained` | shotover/src/codec/valkey.rs:245-246 | the names not unsubscribed from are kept, in order |
| `ValkeyPubsub.ValkeyDecoder.Track` | shotover/src/codec/valkey.rs:218-274 | the lists and the number of extra replies after a request's first reply |
| `ValkeyPubsub.ValkeyDecoder.Decode` | shotover/src/codec/valkey.rs:187-277 | state, tag and queue after one frame |
| `ValkeyPubsub.TrackingMirrors` | shotover/src/codec/valkey.rs:218-274 | the lists, as sets, always equal the server's subscriptions |
| `ValkeyPubsub.ReadReplies` | shotover/src/codec/valkey.rs:205-277 | all replies to one request are tagged rightly, and exactly as many extra replies stay expected as names are doubled |
| `ValkeyPubsub.StaysInStep` | shotover/src/codec/valkey.rs:187-277 | over every sound session first replies get their request's id, pushes and extra replies none, lists mirror the server, no header is missing or left over |
| `ValkeyPubsub.NoResubscriptionIsSound` | shotover/src/codec/valkey.rs:218-274 | sessions without dummies and without subscribing to a held name are sound |
| `ValkeyPubsub.RightExactlyWhenSound` | shotover/src/codec/valkey.rs:187-343 | all tags up to the next request the server sees are right if and only if the session before it was sound |
| `ValkeyPubsub.HeadersAheadIrrelevant` | shotover/src/codec/valkey.rs:323-343 | headers queued by an encoder that runs ahead change nothing |
| `ValkeyPubsub.StaysInStepAhead` | shotover/src/codec/valkey.rs:187-343 | a sound session stays in step with all its headers, and any later ones, queued before its first frame is read |
| `ValkeyPubsub.DuplicateBreaks` | shotover/src/codec/valkey.rs:238-243 | whenever a name is on the list twice, unsubscribing from all makes the next request's tag wrong |
| `ValkeyPubsub.TwiceSubscribed` | shotover/src/codec/valkey.rs:238-243 | subscribing to one name twice and then unsubscribing from all is such a session |
| `TeeInOrder.IncomingResponses.NewResponses` | shotover/src/transforms/tee.rs:395-438 | the queues after a call, and its results and handler calls, are those of the matching function |
| `TeeInOrder.RunConserves` | shotover/src/transforms/tee.rs:395-438 | over every run every reply is accounted for or queued, one queue is empty, and pairs follow the choice of their call |
| `TeeInOrder.RunBalanced` | shotover/src/transforms/tee.rs:395-438 | over every run pairs come out in order as chosen, handlers are called on unequal pairs, and each chain's pushes come out in the order they came in |
| `TeeInOrder.SentOnInPairs` | shotover/src/transforms/tee.rs:402-430 | the replies sent on number the lesser of the two totals, and number i settles reply i of one chain against reply i of the other |
| `TeeInOrder.SelectedIsSent` | shotover/src/transforms/tee.rs:402-430 | over every run reply i sent on is reply i of the chain selected, or an error with its id if the two differ and that is to fail; the handler gets the selected reply and the other, for exactly the pairs that differ, in order |
| `TeeInOrder.HandlerCalledExactly` | shotover/src/transforms/tee.rs:414-429 | the handler was called for exactly the unequal pairs, once each and in order, with the selected and the other reply |
| `TeeInOrder.UnequalExactly` | shotover/src/transforms/tee.rs:414-429 | a pair is among those if and only if the contents of its two replies differ |
| `TeeInOrder.PushLingersExactly` | shotover/src/transforms/tee.rs:395-438 | for any queues and batches, a push stays in front of the tee's queue iff nothing of the chain and two pushes of the tee lie behind the last pair, and in front of the chain's iff no further tee reply and two chain pushes do |
| `TeeOutOfOrder.IncomingResponses.NewResponses` | shotover/src/transforms/tee.rs:439-502 | a call is its arrivals one after the other, the tee's first |
| `TeeOutOfOrder.PairedOnSecondHalf` | shotover/src/transforms/tee.rs:439-502 | however replies are batched: the maps are disjoint and equal the two differences of what the chains answered, and what both answered was sent on exactly once, settled from its two replies |
| `TeeOutOfOrder.SelectedIsSent` | shotover/src/transforms/tee.rs:439-502 | after every arrival: pairs went out in the order they were completed, each as the reply of the chain selected then or an error with its id; the handler got the selected reply and the other for exactly the pairs that differ; and only the selected chain's pushes went out |
| `TeeMismatch.RemovalNeverMisses` | shotover/src/transforms/tee.rs:306-337 | out of order: over every run the request of a mismatch is there to be removed, and the requests kept are those asked minus those mismatched |
| `TeeInOrderMismatch.RemovalNeverMissesInOrder` | shotover/src/transforms/tee.rs:306-337 | in order: the same, when both chains answer in request order |
| `Coalesce.Transform.Run` | shotover/src/transforms/coalesce.rs:189-233 | what went down followed by the buffer is what was held followed by what came; it all goes down if and only if a flush is asked for, or there is something and it reaches the count or the interval is over; when the clock restarts |
| `Coalesce.MoveKeepsInv` | shotover/src/transforms/coalesce.rs:115-134 | every step of timer, source and clock keeps the invariant |
| `Coalesce.ThresholdKept` | shotover/src/transforms/coalesce.rs:211-233 | in every run fewer requests than the count, or none, are held between calls |
| `Coalesce.FailureEnds` | shotover/src/transforms/coalesce.rs:219-222 | a failed call below is the last one, and does not restart the clock |
| `Coalesce.ForcedCallsAskedFor` | shotover/src/transforms/coalesce.rs:115-134 | in every run the clock is as it was last restarted, and each forced call was asked for by the timer |
| `Coalesce.NoLostWakeUp` | shotover/src/transforms/coalesce.rs:115-134 | between calls the timer runs, or a restart is stored, or the interval is over and a chain run was asked for; requests passed down followed by the buffer are the requests received |
| `Coalesce.WakeUpComes` | shotover/src/transforms/coalesce.rs:115-134 | once the interval is over, every run of the timer alone has at most seven moves, and where it can go no further a chain run has been asked for |
| `Coalesce.WakeUpReached` | shotover/src/transforms/coalesce.rs:115-134 | so there is a run of the timer alone, of at most seven moves, that asks for the chain run |
| `Coalesce.ForcedCallFlushes` | shotover/src/transforms/coalesce.rs:193-233 | the chain run asked for sends the whole buffer down, or restarts the clock |
| `QueryFilter.QueryTypeFilter.FilterRequests` | shotover/src/transforms/filter.rs:86-104 | under an allow list exactly the types not listed go down as dummies, under a deny list exactly those listed, with an error held for each, up to the first that goes wrong; a dummy panics, a denied request without an error reply fails |
| `QueryFilter.QueryTypeFilter.FilterResponses` | shotover/src/transforms/filter.rs:106-113 | replies to denied requests are replaced by the held errors, one for one |
| `QueryFilter.OneReplyEach` | shotover/src/transforms/filter.rs:82-116 | over every run above a sink that answers dummies with dummies: the errors held are those of the denied, unanswered requests, every reply goes up once, a denied request's as its error, and no denied request goes down as a real one |
| `FairReplies.FairIsLegal` | shotover/src/connection.rs:484-537 | a server that answers each request once, in any order, never answers more than it was sent |
| `FairReplies.OutputOneEach` | shotover/src/connection.rs:484-537 | over every run against such a server, pushes and clashes anywhere, each reply that leaves has its own request, a dummy exactly for each dummy |
| `FairReplies.AllAnswered` | shotover/src/connection.rs:484-537 | once nothing is pending every request has been answered |
| `FilteredSink.SinkKeepsPromise` | shotover/src/message/mod.rs:501-505 | every run of a sink connection, the server answering in any order, keeps the promise the filter relies on |
| `FilteredSink.ClientSeesOneReplyEach` | shotover/src/transforms/filter.rs:86-115 | filter and sink connection together: every reply to the client answers the query it names, with its error if denied; no query is answered twice; once nothing is pending each has been answered |
| `FilteredOrder.FilterByPosition` | shotover/src/transforms/filter.rs:86-115 | when replies come from below in the order of the queries and none names a query behind its own, each denied query's place is taken by its error and every other reply goes up as it is, whatever id it carries |
| `FilteredOrder.ClientSeesRepliesInOrder` | shotover/src/transforms/filter.rs:86-115 | over every run against a server that answers in order, no push miscounted: the client has been sent the right replies to a prefix of its queries, in order; with right ids if the server's replies had right ids; and after a receive the next query is one that waits for the server |
| `ValkeyDummies.TagsInHeaderOrder` | shotover/src/codec/valkey.rs:205-343 | in any session, in step or not, the ids given out and those still queued are those of the requests, dummies included, in order |
| `ValkeyDummies.CalmLags` | shotover/src/codec/valkey.rs:187-343 | as long as only ordinary requests follow a dummy, exactly the first replies are tagged, and one header stays queued for each dummy |
| `ValkeyDummies.TooManyExactly` | shotover/src/codec/valkey.rs:205-277 | after such a session the tagged replies come to outnumber the requests sent to the server if and only if there was a dummy and the next request has more than one reply |
| `ValkeyDummies.PushTooManyExactly` | shotover/src/codec/valkey.rs:180-205 | and with a push behind a request with one reply, if and only if there was a dummy and nothing was subscribed to before |
| `FilteredValkey.DeniedQueryMistags` | shotover/src/codec/valkey.rs:323-343 | after any session, a denied query makes the decoder mistag the first reply to the next one |
| `FilteredValkey.TaggedWithDenied` | shotover/src/codec/valkey.rs:323-343 | on a new connection that reply gets the denied query's id |
| `FilteredValkey.DeniedQueriesDoNoHarm` | shotover/src/transforms/filter.rs:86-115 | filter, connection and decoder together, over every run of such a session, no push miscounted: reply i to the client is the error of query i if it was denied, and the server's reply to query i otherwise |
| `FilteredValkey.UnderflowsWhenTooMany` | shotover/src/connection.rs:532-536 | over a whole connection the pending count goes below zero in some call if and only if the tagged replies outnumber the requests |
| `FilteredValkey.RequestUnderflowsExactly` | shotover/src/connection.rs:532-536 | behind such a session a request makes it go below zero if and only if a query was denied before and the request has more than one reply |
| `FilteredValkey.PushUnderflowsExactly` | shotover/src/connection.rs:532-536 | a push behind a request with one reply does so if and only if a query was denied before and nothing was subscribed to until then |
| `FilteredValkey.DeniedThenSubscribe` | shotover/src/codec/valkey.rs:205-220 | a denied query and a subscription to two names: both replies are tagged, and one request waits for a reply |
| `PendingRequests.PendingRequests.ProcessRequests` | shotover/src/source_task.rs:911-923 | the requests are recorded, in order or by id |
| `PendingRequests.PendingRequests.ProcessResponses` | shotover/src/source_task.rs:925-951 | as many as were answered are taken off the front, or those answered by id; too many replies drop the record |
| `PendingRequests.ToErrors` | shotover/src/source_task.rs:953-1012 | one error for each recorded request that parses, in order or each id once |
| `PendingRequests.OrderedHoldsRest` | shotover/src/source_task.rs:781-824 | over every run the ordered record is the requests behind as many as were answered |
| `PendingRequests.OrderedOneReplyEach` | shotover/src/source_task.rs:781-824 | when an ordered chain fails, the errors answer, in order, exactly the requests behind those answered, except those that do not parse |
| `PendingRequests.UnorderedHoldsRest` | shotover/src/source_task.rs:781-824 | over every run the unordered record is exactly the unanswered requests |
| `PendingRequests.UnorderedOneReplyEach` | shotover/src/source_task.rs:953-1012 | when an unordered chain fails, the errors' ids are exactly those of the unanswered requests that parse, each once |
| `Shutdown.GradualShutdown` | shotover/src/source_task.rs:349-399 | every connection is told to close once and in order, in at most `num_chunks` rounds; each round tells at least one and no more than the connections divided by the duration in chunks of 200 ms, rounded up; and the sleeps never exceed the duration |

## Left out

- Sockets, TLS, the tokio runtime, metrics, tracing and the HTTP switch: I/O; tasks end only through their return paths.
- Parsing and printing of CQL, Kafka and RESP bodies: bodies are opaque; only the fields the state machines look at are kept.
- CRC polynomials and LZ4 internals: checksums are any functions, a compressor is any that undoes itself and whose output bound exceeds its input.
- `PAYLOAD_SIZE_LIMIT` comes from a library that is not part of this model; it is taken as 2^17, which fits the 17-bit fields and the split at one below it.
- Cassandra versions 3 and 4, the startup handshake, keyspace tracking and envelope compression below version 5: no hard state of their own.
- CassandraCodec.CassandraDecoder.ParseFullEnvelopes: a body length of -9 to -1 is modelled as the overflow panic of a debug build; a release build would wrap.
- KafkaSink.QueueHoldsUnanswered: every request but a dummy is taken to write at least one byte; a raw SASL message with no bytes at all would not be queued.
- ValkeyPubsub.ValkeyDecoder.Decode: asks that a header be queued when one is needed, as the source waits for it; that it always is queued is a theorem about sessions.
- CassandraSequences.SequenceExactly: leaves out plain envelopes of exactly 2^17 bytes whose first four bytes are the checksum of nothing; what follows then depends on the checksum functions. The CRC-32 of the CQL specification gives 0xD3 as the first of these bytes, which is no version byte.
- KafkaCodec.KafkaEncoder.Encode: messages are units; how many bytes of a failed one were written is not modelled, and fewer than eight would panic.
- The Valkey encoder's recognition of command names in RESP arrays: commands are given as a datatype.
- Tee's `Ignore` behaviour, its timeout and its buffered subchain: no pairing takes place there.
- QueryFilter.OneReplyEach: is about runs in which no call goes wrong; after a failed call the connection is closed.
- Coalesce.WakeUpComes: says how the timer can move and how often, not that the scheduler lets it.
- FilteredValkey.DeniedQueriesDoNoHarm: is about sessions in which only ordinary requests follow a denied query; of others the model says when the first step beyond that does harm.
- Shutdown.GradualShutdown: the quotient of durations is exact where the source uses a 64-bit float, and waiting for connections to finish takes no modelled time.
- PendingRequests.OrderedOneReplyEach: is about chains that never return more replies than requests; otherwise the record is dropped, as `ProcessResponses` states.
- `RequestThrottling`, the OpenSearch codec, hot reload, configuration, `parallel_map`, `load_balance`, `null`, `loopback`, `query_counter`, `printer` and tooling: little state, or state kept by libraries.
