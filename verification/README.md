# An MQTT broker and client for a microcontroller, modelled and proved in Dafny

The project models the core of an MQTT 3.1.1 broker and client: how messages are framed and
queued, how packets are built, read and reassembled from TCP chunks, how topic filters match,
how retained messages are kept and stored, and how the broker as a whole moves from one state
to the next. All `.dfy` files belong together: `dafny verify dfyconfig.toml`.

Code that works in place is modelled in place: ring buffer, parser, queue, packet builders,
slot arrays, the client and the server are classes whose methods change their fields and
arrays. Each such method is proved against a function of its inputs or of the old state, and
what the code is for is proved about those functions.

| file | subject |
|---|---|
| `Bytes.dfy` | bytes, 16-bit words, C strings |
| `Ring.dfy`, `Proto.dfy`, `MessageQueue.dfy` | ring buffer, byte stuffing, the outbound queue as a FIFO of whole messages |
| `DropOldest.dfy` | the retry loop of the client: drop the oldest message until the new one fits |
| `Packet.dfy`, `Reader.dfy` | packet builders and readers |
| `Reassembly.dfy` | packets out of a byte stream, however TCP cuts it |
| `Topics.dfy`, `TopicLaws.dfy` | valid names and matching; what matching means, and where it departs from section 4.7.1 of MQTT 3.1.1 |
| `TopicList.dfy` | the subscription slots |
| `Retained.dfy`, `RetainedStore.dfy` | retained messages as a bounded map, and their serialization |
| `Broker.dfy` | the broker as a step system: connect, chunk, TCP drop, timer, send, local calls |
| `BrokerInvariant.dfy`, `BrokerQueues.dfy`, `Publishing.dfy`, `Wills.dfy`, `Sessions.dfy`, `Streams.dfy`, `Subscribing.dfy`, `Connecting.dfy`, `Removals.dfy` | what holds in every run of it, what the client's packets mean to it, and what the end of a connection does to the others |
| `Answers.dfy` | the answer to a CONNECT, byte for byte, which comes before any other message |
| `Effects.dfy` | what a stream of packets does, however it is cut and whatever shares the buffer with a packet |
| `Sending.dfy`, `KeepAlive.dfy` | what the send task writes and loses; when the timer ends a connection |
| `Faults.dfy` | a run from the start that ends in a write through a null pointer: the will of a connection that subscribed to it |
| `SharedOutput.dfy` | one static output buffer for all clients |
| `Server.dfy` | the broker's callbacks on mutable state, each proved to do the step that it stands for |
| `MqttClient.dfy` | the client: queueing and receiving |

## How the broker is modelled

`Broker.Broker` holds what the globals hold: the client list (newest first), the subscription
slots and the retained slots. A client's record has the fields of the source, and beside them
a history that no step reads: the messages queued, taken and written, and the packets
dispatched. The broker's history has the deliveries to the local callback and the connections
whose will was published. A run is any sequence of events, with any chunk contents and sizes,
any answers of the authentication callback, any free space in the socket and any pattern of
allocation failures in the retained list.

A run stops in two ways. `stuck` says that READPACKET does not come back. `fault` says that the
code has written or read through a null pointer, or gone on with a freed record; what the rest
of the state holds then is where the model stops and no claim about the code, so the theorems
about wills ask for a step without a fault.

## What the code turned out to do

Each of these is a lemma below, with the exact condition where there is one.

- The will of a dying connection is published after its buffer pointer is cleared and before its
  subscriptions are removed. If it matches a filter of its own, the packet is written through a
  null pointer, exactly then (`Publishing.DeleteFaults`). A client that has subscribed to its
  own will topic is such a case (`Faults.FaultIsReachable`). A PUBLISH whose topic cannot be read copies
  from a null pointer (`Publishing.UnreadableTopicFaults`).
- Client ids stay distinct exactly as long as each CONNECT that stores an id compares that id on
  takeover, or nobody else has it (`Sessions.ConnectExact`, `Sessions.IdsExact`). The id compared
  is the stored one exactly when a zero byte is in it or right behind it (`Sessions.KeyIsId`); a
  PINGREQ in the same chunk is enough for two connections with one id (`Connecting.TwoWithOneId`).
- An announced length of zero modulo 65536 makes READPACKET handle the same bytes for ever. It
  takes a length field of three bytes (`Reassembly.ZeroHead`), and hangs the broker exactly on a
  refused connection, or past CONNECT on a packet that does not end the connection
  (`Streams.ZeroHeadHangs`, `Streams.HangsExactly`).
- Bytes left over between two chunks are taken for a packet exactly when the length field is
  cut off and what it has so far is worth zero; one byte is always such a case
  (`Reassembly.LeftoverIsTight`).
- A put that fails leaves a torn frame; the drop-oldest loop can therefore refuse a message
  that the emptied ring has room for (`DropOldest.RefusedThoughItFits`). It succeeds exactly
  when the frame fits at once or one single drop frees enough (`DropOldest.RetryKeepsSuffix`).
- Matching departs from section 4.7.1 of MQTT 3.1.1, on names without empty levels, exactly for
  a topic whose leading separator the filter lacks and for `+` first on a `$` topic, where the
  rest matches (`TopicLaws.AgreesWithStandard`); empty levels are not seen at all.
- The id of a PUBLISH with QoS and no payload is lost exactly at the packet's own length
  (`Reader.PublishReadsBack`); ids of SUBSCRIBE, UNSUBSCRIBE and acknowledgements are lost
  exactly when the Remaining Length takes two bytes (`Reader.IdReadsBack`).
- An empty string at the very end of a packet is not read at all (`Subscribing.StrReadsBack`,
  `Subscribing.EmptyLastFilterFails`), so a CONNECT that ends with its empty client id is
  refused although section 3.1.3.1 allows it (`Connecting.LastEmptyIdIsRefused`).
- A CONNECT of this client is accepted by this broker exactly under the conditions of
  `Connecting.ConnectRoundTrip`; among them is a Remaining Length below 128, because the broker
  looks for the protocol name behind a one-byte length field. With an empty client id, which
  the client encodes as two bytes, the newest nameless connection is removed; when that is the
  new one itself, the code goes on with a freed record (`Connecting.EmptyIdExact`).
- Of one SUBSCRIBE sixteen filters are taken; those behind them are neither stored nor answered,
  against section 3.9.3 of MQTT 3.1.1 (`Subscribing.SubscribeIsAnswered`).
- A message that does not fit the room in the socket is taken from the queue and lost, and for
  five ticks nothing is written. A refused client whose CONNACK is lost in that way is not told
  why, and stays until the task runs again (`Sending.TaskExactly`).
- A CONNECT that is malformed behind its client id has its will published although it was
  never accepted, exactly when the will topic could be read (`Wills.RejectedWill`).
- Only the last filter of a SUBSCRIBE has its retained messages sent. That is all of those due
  exactly when it matches whatever the others match (`Subscribing.AllSentExactly`).
- MQTT_Subscribe and MQTT_UnSubscribe queue an empty message when the topic does not fit
  (`MqttClient.Client.Subscribe`).
- Storing and loading the retained messages restores the map exactly when none is on the empty
  topic; otherwise it restores the slots before that one and loses it and all behind it
  (`Retained.RoundTrip`).

## Model

| member | source | states |
|---|---|---|
| Ring.RingBuf.constructor | src/ringbuf_mqtt.c:15-31 | a fresh ring of the given size is empty |
| Ring.RingBuf.Init | src/ringbuf_mqtt.c:15-31 | fails exactly for fewer than two bytes |
| Ring.RingBuf.Put | src/ringbuf_mqtt.c:32-51 | appends exactly when a byte is free, else changes nothing of the contents, across the wrap-around |
| Ring.RingBuf.Get | src/ringbuf_mqtt.c:52-64 | takes the oldest byte; none exactly when the ring is empty |
| Proto.StuffIsClean | src/proto.c:106-132 | stuffing leaves no delimiter; a frame has 2 + length + number of special bytes |
| Proto.FeedConcat | src/proto.c:48-52 | parsing a stream in two parts is parsing it at once |
| Proto.FeedStuff | src/proto.c:12-46 | inside a frame, stuffed bytes come out unstuffed, cut at the buffer size |
| Proto.FrameResynchronises | src/proto.c:12-46 | from any parser state, even in mid-escape, a whole frame yields its packet and nothing else |
| Proto.Parser.constructor | src/proto.c:3-10 | everything is initialised but isBegin, which keeps whatever was in memory |
| Proto.Parser.ParseByte | src/proto.c:12-46 | one transition of the parser; 0 exactly at an end byte; never writes past the buffer size |
| Proto.Parser.Parse | src/proto.c:48-52 | the transitions for all bytes in order |
| Proto.PutFrameByte | src/proto.c:107-109 | one more byte of the frame is in the ring, or the ring is full |
| Proto.PutStuffed | src/proto.c:110-126 | one byte of the packet, stuffed, or a torn frame in a full ring |
| Proto.AddRb | src/proto.c:106-132 | succeeds exactly when the frame fits the free space, and returns its size; otherwise the ring is filled up with the start of the frame |
| Proto.AddByte | src/proto.c:77-96 | writes a stuffed byte, or nothing when the room left is too small for it |
| Proto.Add | src/proto.c:67-104 | writes the same frame as AddRb, exactly when it fits, to the right place and nowhere else |
| Proto.ParseNext | src/proto.c:58-63 | one round of the decoder loop |
| Proto.ParseRb | src/proto.c:54-66 | takes the ring's bytes up to the first end byte, all of them when there is none, and gives what the parser made of them |
| MessageQueue.DecodeEndsWithFrame | src/proto.c:12-46 | behind anything, a whole frame decodes to its message |
| MessageQueue.MessagesAppend | src/proto.c:54-66 | what is added to a ring cannot change the messages in front of it |
| MessageQueue.WholeFrameAppends | src/proto.c:106-132 | a successful put appends its message, behind torn frames too |
| MessageQueue.TornFrameAddsNothing | src/proto.c:106-132 | a torn frame is no message and disturbs none |
| MessageQueue.PutKeepsAligned | src/proto.c:106-109 | the ring, and what follows each end byte, always starts with a start byte |
| MessageQueue.PutAppendsOrTears | src/queue.c:41-43 | a put appends its message exactly when the frame fits; otherwise the ring is full and the messages are as before |
| MessageQueue.DecodeFromAnyState | src/proto.c:3-10 | the uninitialised isBegin makes no difference; a short buffer only cuts the message |
| MessageQueue.GetTakesFirst | src/proto.c:54-66 | a get yields the first message, cut to the buffer, and leaves the others |
| MessageQueue.ExecIsFifoStep | src/queue.c:41-47 | each call is a step of a FIFO; -1 exactly without an end byte in the ring, which is empty then |
| MessageQueue.RunRefinesFifo | src/queue.c:37-47 | every run of puts and gets, of any sizes, is a run of a FIFO of whole messages |
| MessageQueue.EmptyQueueRefinesFifo | src/queue.c:37-47 | the same from QUEUE_Init on |
| MessageQueue.Queue.constructor | src/queue.c:37-40 | a new queue is valid and empty |
| MessageQueue.Queue.Puts | src/queue.c:41-43 | appends the message or leaves the pending ones; returns the frame size or -1 |
| MessageQueue.Queue.Gets | src/queue.c:44-47 | gives the oldest pending message cut to maxLen; -1 exactly when there is none, and the ring is then empty |
| MessageQueue.Queue.IsEmpty | src/queue.c:49-53 | tells whether the ring, torn frames included, is empty |
| DropOldest.DropFrees | src/mqtt.c:582-590 | a failed put and a drop free exactly the dropped frame and the torn ones before it |
| DropOldest.RetryKeepsSuffix | src/mqtt.c:582-592 | TRUE exactly when the frame fits at once or some drop frees enough by itself; then the queue is the old one from just after that drop, and the new message. FALSE leaves queue and ring empty |
| DropOldest.RefusedThoughItFits | src/mqtt.c:582-590 | a message refused although the emptied ring has room for it |
| DropOldest.PutOrDrop | src/mqtt.c:582-590 | one round: done as specified, or one message fewer |
| DropOldest.PutDroppingOldest | src/mqtt.c:582-592 | the loop ends, with the outcome that RetryKeepsSuffix describes |
| Packet.Connection.constructor | src/mqtt_msg.c:99-103 | a cleared connection over the given buffer |
| Packet.Connection.AppendString | src/mqtt_msg.c:41-51 | appends the length-prefixed string exactly when it fits |
| Packet.NextId | src/mqtt_msg.c:53-57 | the assigned id is never zero, across the 16-bit wrap |
| Packet.FirstBytes | src/mqtt/mqtt_msg.h:51-67 | the first byte of each packet has the type code of section 2.2.1 of MQTT 3.1.1 |
| Packet.Connection.AppendMessageId | src/mqtt_msg.c:53-66 | appends the given id, or the next one that is not zero, exactly when it fits; the counter moves even when it does not |
| Packet.Connection.InitMessage | src/mqtt_msg.c:68-71 | the body starts empty behind three reserved bytes |
| Packet.Connection.FailMessage | src/mqtt_msg.c:73-77 | an empty message |
| Packet.Connection.FiniMessage | src/mqtt_msg.c:79-97 | header right in front of the body for a one-byte and a two-byte length field |
| Packet.Connection.MsgConnect | src/mqtt_msg.c:263-338 | the CONNECT with header, id, will and credentials in order and the flags for those that are there, or the empty message exactly when the id is null or it does not fit |
| Packet.Connection.MsgPublish | src/mqtt_msg.c:348-370 | the PUBLISH with these fields, or the empty message exactly when it does not fit or the topic is empty |
| Packet.Connection.MsgSubscribe | src/mqtt_msg.c:400-418 | the SUBSCRIBE with a fresh id, or the empty message |
| Packet.Connection.MsgUnsubscribe | src/mqtt_msg.c:435-449 | the UNSUBSCRIBE with a fresh id, whose bytes ClientDrops gives, or the empty message |
| Packet.Connection.MsgAck | src/mqtt_msg.c:420-433 | an acknowledgement with its id and return codes in order, or the empty message when there is no room for the id |
| Packet.Connection.MsgEmpty | src/mqtt_msg.c:462-475 | a packet without body |
| Packet.Connection.MsgConnack | src/mqtt_msg.c:340-346 | the CONNACK with this return code |
| Reader.ScanHeader | src/mqtt_msg.c:105-119 | the length field's value and end by section 2.2.3 of MQTT 3.1.1, for any bytes |
| Reader.GetStr | src/mqtt_msg.c:121-135 | a string that is found lies within the bytes given |
| Reader.GetPublishTopic | src/mqtt_msg.c:137-161 | the topic of a PUBLISH, or none |
| Reader.GetPublishData | src/mqtt_msg.c:163-203 | the payload of a PUBLISH, or none |
| Reader.GetMessageId | src/mqtt_msg.c:205-261 | the id, or zero |
| Reader.HeaderReadsBack | src/mqtt_msg.c:79-119 | type, QoS, retain flag, total length and body of a built packet read back below 16384 bytes, at any read length that covers it, whatever follows |
| Reader.PublishReadsBack | src/mqtt_msg.c:137-240 | a built PUBLISH reads back in all fields, but its id is lost exactly without payload at the packet's own length |
| Reader.IdReadsBack | src/mqtt_msg.c:242-260 | the id of an acknowledgement, SUBSCRIBE or UNSUBSCRIBE reads back exactly when the Remaining Length takes one byte |
| Reassembly.WholeThenLeft | src/mqtt_server.cpp:473-489 | the first bytes of a stream split into its complete packets and the rest |
| Reassembly.HeaderIsLocal | src/mqtt_msg.c:105-119 | a complete length field reads the same however many bytes follow |
| Reassembly.FirstPacket | src/mqtt_server.cpp:476-489 | the first packet of a stream is dispatched as it is |
| Reassembly.WholePacketsFirst | src/mqtt_server.cpp:951-959 | the loop takes the complete packets off and then sees what is left |
| Reassembly.DispatchIsExact | src/mqtt_server.cpp:465-489 | one call dispatches exactly the packets now complete and keeps the rest if and only if the rest announces more than it holds |
| Reassembly.LeftoverIsTight | src/mqtt_msg.c:105-119 | a leftover fails that exactly when its length field is cut off and worth zero; it is then taken for a packet |
| Reassembly.AnyCutDispatchesTheSame | src/mqtt_server.cpp:465-489 | for every good cut the packets dispatched depend on the number of bytes that arrived, not on the cut |
| Reassembly.WholeStream | src/mqtt_server.cpp:951-959 | a whole stream gives all of its packets and leaves nothing |
| Reassembly.ZeroHead | src/mqtt_msg.c:105-119 | the announced length is zero in 16 bits exactly for a positive multiple of 65536, which takes at least three length bytes |
| Reassembly.StuckWitness | src/mqtt_server.cpp:482-489 | a four-byte packet on which the loop does not end |
| Topics.StrChr | src/mqtt_topics.c:60-95 | the first occurrence from a position on |
| Topics.AllAlone | src/mqtt_topics.c:60-95 | a scan is passed exactly when each such wildcard has separators or ends around it |
| Topics.IsValidName | src/mqtt_topics.c:60-95 | the position scans decide ValidName |
| TopicLaws.ValidByLevels | src/mqtt_topics.c:60-95 | valid means: each wildcard has its level to itself, and `#` is only in the last or only in the first level |
| Topics.StrTokR | src/mqtt_topics.c:182-200 | the next token and the position after it |
| Topics.TokensAreNonEmptyLevels | src/mqtt_topics.c:182-200 | the tokens are the levels without the empty ones |
| Topics.StrRev | src/mqtt_topics.c:97-109 | the in-place swap loop reverses the string |
| Topics.TokensReversed | src/mqtt_topics.c:97-109 | the tokens of the reversed string are the reversed tokens in reverse order |
| Topics.MatchTokens | src/mqtt_topics.c:182-207 | the token loop decides the walk over both lists of tokens |
| Topics.TopicsMatch | src/mqtt_topics.c:126-214 | the branches in their order decide Matches |
| TopicLaws.WalkIsFrontMatch | src/mqtt_topics.c:186-207 | the walk is level-wise matching from the front, where a last `#` stands for any rest |
| TopicLaws.ReversedFrontIsBack | src/mqtt_topics.c:173-176 | matching the reversed levels from the front is matching from the back |
| TopicLaws.HashFirst | src/mqtt_topics.c:173-176 | a valid filter with `#` first has, reversed, `#` as its last token and nowhere else |
| TopicLaws.MatchesIsDeclarative | src/mqtt_topics.c:126-214 | for valid filters outside the special cases, matching is prefix-style, or suffix-style for `#` first, on lists of non-empty levels |
| TopicLaws.AgreesWithStandard | src/mqtt_topics.c:149-207 | on clean names, agreement with section 4.7.1 of MQTT 3.1.1 if and only if the pair is not mismatched or its mismatch comes to nothing |
| TopicLaws.LeadingSlashIsNeeded | src/mqtt_topics.c:167-171 | every topic with a leading separator is matched by itself without it, against the standard |
| TopicLaws.DollarIsNeeded | src/mqtt_topics.c:154-171 | every `$` topic is matched by `+` for its first level, against the standard |
| TopicLaws.EmptyLevelsAreNeeded | src/mqtt_topics.c:182-200 | of two names, one with `//` for `/`, each matches the other, against the standard |
| TopicLaws.TrailingSlashIsNeeded | src/mqtt_topics.c:182-200 | a name and the same with a separator at its end match each other, against the standard |
| TopicList.Subscriptions.AddTopic | src/mqtt_topiclist.cpp:23-43 | a valid filter goes to the first free slot; otherwise nothing changes |
| TopicList.Unsubscribe | src/mqtt_topiclist.cpp:45-61 | exactly the slots of that owner and filter are freed, a missing one standing for all |
| TopicList.Subscriptions.DeleteTopic | src/mqtt_topiclist.cpp:45-61 | the loop frees exactly those slots |
| Retained.UpdateRefinesMap | src/mqtt_retainedlist.c:25-97 | under any allocation failures an update is a put or a delete on the bounded map, or nothing; success exactly when there is room; only a failed data allocation removes, and only that topic; topics stay unique and a slot is occupied exactly when it has data of positive length |
| RetainedStore.Store.UpdateTopic | src/mqtt_retainedlist.c:25-97 | the in-place update does what UpdateRefinesMap is about |
| RetainedStore.Store.ClearTopics | src/mqtt_retainedlist.c:117-138 | the map is empty afterwards although each update happens during the iteration |
| RetainedStore.Store.WriteRecord | src/mqtt_retainedlist.c:150-160 | the fields written one after the other make up the record behind what was there, and a zero |
| RetainedStore.Store.Serialize | src/mqtt_retainedlist.c:140-169 | succeeds exactly when the records leave three bytes free, and writes the records in slot order; the returned length leaves out the last zero; an empty list gives one zero byte |
| RetainedStore.Store.TakeRecord | src/mqtt_retainedlist.c:174-186 | one round of the cursor: the record read and stored, and where the next one starts |
| RetainedStore.Store.Deserialize | src/mqtt_retainedlist.c:171-188 | stores the records one by one until one is cut short or cannot be stored |
| Retained.RecordReadsBack | src/mqtt_retainedlist.c:150-186 | a written record reads back, whatever follows it |
| Retained.ParseRecords | src/mqtt_retainedlist.c:171-188 | reading records of distinct topics, up to the end or an empty topic, fills blank slots with them in order |
| Retained.RoundTrip | src/mqtt_retainedlist.c:140-188 | reading what was written restores the slots before the first one with the empty topic, in order, and the same map if and only if there is no such slot |
| Retained.EmptyTopicIsLost | src/mqtt_retainedlist.c:174 | whatever the bytes, an empty topic is never read back |
| BrokerInvariant.DeleteKeeps | src/mqtt_server.cpp:283-378 | removing a connection keeps the invariant although its slots dangle while its will is published; others only get messages, and a fault stays one |
| BrokerInvariant.HandleSound | src/mqtt_server.cpp:499-947 | each packet keeps the invariant, moves the state forward only, and enters MQTT_DATA exactly by an acceptable CONNECT |
| BrokerInvariant.StepKeeps | src/mqtt_server.cpp:392-1096 | each step of the broker keeps the invariant and treats other connections as it may |
| BrokerInvariant.RunKeeps | src/mqtt_server.cpp:440-1166 | so does every run |
| BrokerInvariant.EverySlotIsOwned | src/mqtt_topiclist.cpp:23-61 | in every run each occupied slot belongs to the local client or to a listed connection in MQTT_DATA |
| BrokerInvariant.OnlyConnectEntersData | src/mqtt_server.cpp:499-757 | MQTT_DATA is entered only from TCP_CONNECTED, by the connection's own chunk whose first packet is an accepted CONNECT |
| BrokerInvariant.ReadsPastHeader | src/mqtt_server.cpp:520-533 | moving the header fields of MQTT 3.1 in place leaves will and credentials as they were |
| BrokerQueues.EnqueueKeeps | src/queue.c:41-43 | queueing keeps: queued is taken and then pending, whole and in order |
| BrokerQueues.StepQ | src/mqtt_server.cpp:1062-1096 | every step keeps this for every client |
| BrokerQueues.WrittenAreWholeMessages | src/mqtt_server.cpp:1062-1096 | over any run the bytes written to a client are whole messages, an in-order selection of those queued for it; none is cut |
| Sending.AttemptExactly | src/mqtt_server.cpp:1064-1085 | with a message pending and no pause, the first one is taken; it is written, and nothing else is, if and only if it is smaller than the room; otherwise it is lost and a pause of five ticks begins |
| Sending.TaskExactly | src/mqtt_server.cpp:1062-1096 | that, for every run of the task past CONNECT; a connection that awaits its end is gone if and only if nothing was tried or the message was written; before CONNECT nothing happens |
| Sending.TasksWriteInOrder | src/mqtt_server.cpp:1062-1096 | n runs of the task with enough room write exactly the first n pending messages, in order, and nothing else changes |
| Sending.PauseEnds | src/mqtt_server.cpp:413-425 | each tick takes one off the pause, which ends at zero, and one off the connection's timeout, and changes nothing else |
| KeepAlive.ChunkRenews | src/mqtt_server.cpp:949 | a chunk in which a packet is handled and that leaves the connection sets its timeout to 2 * keep-alive + 10; one that completes no packet leaves it; whether it does is told by the bytes alone |
| KeepAlive.LastsExactly | src/mqtt_server.cpp:949 | from its last packet on a connection that falls silent lasts exactly 2 * keep-alive + 10 ticks |
| KeepAlive.NewcomerLasts | src/mqtt_server.cpp:1032 | a new connection that sends nothing lasts exactly 40 ticks |
| KeepAlive.RunObserved | src/mqtt_server.cpp:413-425 | over any run that leaves a connection past CONNECT, its timeout is what its own chunks and ticks tell, and no tick came when none was left |
| KeepAlive.TimerRemovesExactly | src/mqtt_server.cpp:413-425 | after any such run the next tick removes it if and only if its own chunks and ticks leave none |
| KeepAlive.PunctualStays | src/mqtt_server.cpp:413-425 | a connection past CONNECT whose packets are completed at most 2 * keep-alive + 10 ticks apart is never removed by its timer, whatever else happens |
| SharedOutput.Undisturbed | src/mqtt_server.cpp:223-252 | on values: a client ends with the ring and id counter that its own actions alone give; DoAll and DoRun carry this to the objects that share the buffer |
| SharedOutput.Outlet.constructor | src/mqtt_server.cpp:225-252 | a new client shares the output buffer and has its own queue |
| SharedOutput.Outlet.Do | src/mqtt_server.cpp:180-188 | building into the shared buffer and queueing depends only on what the client has for itself |
| SharedOutput.DoAll | src/mqtt_server.cpp:223-244 | the objects, with the one buffer between them, end as Undisturbed describes |
| SharedOutput.BrokerActs | src/mqtt_server.cpp:166-189 | the broker's queueing and taking steps are such actions; StepTurns uses this |
| SharedOutput.StepTurns | src/mqtt_server.cpp:868-888 | a local publication, a PUBLISH that arrives whole, or a send step is a list of such actions, one for each matching slot |
| SharedOutput.RunTurns | src/mqtt_topiclist.cpp:63-79 | so is every run of those steps |
| SharedOutput.RunUndisturbed | src/mqtt_server.cpp:223-244 | over such a run of the broker each client ends with what its own share of it gives |
| SharedOutput.DoRun | src/mqtt_server.cpp:223-244 | the objects with one buffer between them carry out such a run and end with the rings and counters of the broker's records |
| Publishing.FanoutServes | src/mqtt_topiclist.cpp:63-79 | one publication makes exactly one put per matching slot, for each client and the local callback, and changes nothing else; it faults exactly when it is written for an owner that is not listed |
| Publishing.OwnedSlotsAreSafe | src/mqtt_topiclist.cpp:63-79 | while nobody is being removed a publication does not fault |
| Publishing.QueuedTimes | src/mqtt_server.cpp:166-189 | each put appends the message or finds the queue full and keeps what it held |
| Publishing.CopyFits | src/mqtt_msg.c:348-370 | what fits the input buffer fits the output buffer with QoS 0, so re-encoding does not fail |
| Publishing.PublishIsPassedOn | src/mqtt_server.cpp:868-888 | an incoming PUBLISH of any QoS is passed on as PUBLISH(topic, data, QoS 0, retain 0) and stored if it asks for that |
| Publishing.PublishServesSubscribers | src/mqtt_server.cpp:868-888 | what one PUBLISH packet does to every client's queue, to the slots and to the wills |
| Publishing.LocalPublishServes | src/mqtt_server.cpp:1151-1158 | a local publication is served to every matching slot, updates the retained map if and only if it is to be retained, and changes nothing else |
| Publishing.UnreadableTopicFaults | src/mqtt_server.cpp:868-871 | a PUBLISH faults exactly when its topic cannot be read |
| Publishing.DeleteFaults | src/mqtt_server.cpp:322-353 | a removal faults exactly when the will is written for a slot of the dying connection itself |
| Publishing.DeletePublishesWill | src/mqtt_server.cpp:349-374 | a removal whose will does not hit itself publishes it once to every other client's matching slots, stores it if it is to be retained, and frees exactly its own slots; one that hits itself is a fault |
| Wills.HandleWill | src/mqtt_server.cpp:499-947 | packet by packet, which wills are published |
| Wills.RemovalPublishesWill | src/mqtt_server.cpp:349-374 | whatever step without a fault removes a connection past CONNECT, its will is published if and only if it has one and the step is not its own DISCONNECT |
| Removals.TimelyRemovalServes | src/mqtt_server.cpp:413-425 | a connection that ends by TCP drop, timeout or after a refusal: the others are served its will from the very state before the step, and nothing else happens to them |
| Removals.ChunkRemovalServes | src/mqtt_server.cpp:466-471 | a connection that ends by its own chunk is removed from the state its last packet has come to, with the will that packet leaves, and the others are served that |
| Removals.TakeoverServes | src/mqtt_server.cpp:427-438 | a connection that is taken over is removed with record and slots as before the step, the others are served its will, and the rest of the chunk only feeds them |
| Faults.SubscribesToItself | src/mqtt_server.cpp:764-801 | a SUBSCRIBE to the own will topic, with a slot left, makes the will hit its own connection |
| Faults.FaultIsReachable | src/mqtt_server.cpp:322-353 | from the start of the broker: for every ordinary topic, connecting with it as the will, subscribing to it and dropping the connection is a fault |
| Wills.RejectedWill | src/mqtt_server.cpp:595-722 | a CONNECT malformed behind its client id closes the connection, and its will is published exactly when the will topic was read |
| Wills.NoWillTwice | src/mqtt_server.cpp:349-362 | in no run is a will published twice, or while its connection is listed |
| Connecting.FlagsReadBack | src/mqtt_msg.c:286-335 | each connect flag and the will's QoS read back as the broker reads them |
| Answers.ConnectIsAnswered | src/mqtt_server.cpp:502-757 | a CONNECT that does not end its connection has exactly the bytes 20 02 00 k queued for it, if they fit: k is 1 without a known protocol, 2 without a usable id, 5 when the callback says no, and else 0; the connection is in MQTT_DATA if and only if k is 0, has no will topic if k is 5, and has the header's keep-alive and clean-session flag |
| Answers.AnswerIsQueued | src/mqtt_server.cpp:738-757 | with ten bytes of room in the ring the answer comes last in the queue |
| Answers.TakeoverPassesBy | src/mqtt_server.cpp:427-438 | the will that a takeover publishes does not reach the connection that takes over |
| Answers.OldHeaderReads | src/mqtt_server.cpp:520-545 | flags and keep-alive of an MQTT 3.1 header are the bytes 9 to 11 of its body |
| Answers.ConnackComesFirst | src/mqtt_server.cpp:738-757 | in every run nothing is queued for a connection before its CONNECT is answered, and the CONNACK is the first message queued, with code 0 if and only if the connection is in MQTT_DATA (sections 3.1.4 and 3.2 of MQTT 3.1.1) |
| Connecting.WillReads | src/mqtt_server.cpp:595-663 | an encoded will is taken exactly when its topic has no wildcard and no `$` first and its data is not an empty string at the end |
| Connecting.NoWillReads | src/mqtt_server.cpp:595-663 | without the will flag there is no will, and the packet is malformed exactly when the will's QoS or retain flag is set (section 3.1.2.6 of MQTT 3.1.1) |
| Connecting.MissingFields | src/mqtt_server.cpp:595-722 | a will topic, will message, user name or password that its flag announces and that is not there makes the packet malformed |
| Connecting.CredentialsRead | src/mqtt_server.cpp:665-722 | encoded credentials are well-formed exactly when a password comes with a user name |
| Connecting.ConnectRoundTrip | src/mqtt_server.cpp:502-757 | a CONNECT of mqtt_msg_connect with an id is accepted with code 0 if and only if the callback agrees, its Remaining Length takes one byte, the id has at most 80 bytes, and will and credentials are of those kinds; the broker then has the id, will, keep-alive and clean-session flag of the packet; otherwise it is refused with code 1, 2 or 5, or closed unanswered, as stated |
| Connecting.AnsweredExactly | src/mqtt_server.cpp:502-722 | a CONNECT is answered if and only if it has 13 bytes and, as far as protocol and id can be read, will and credentials are well-formed and the connection is not itself the first with the id it takes over; otherwise it is closed unanswered |
| Connecting.EmptyIdExact | src/mqtt_msg.c:296-299 | with an empty id a CONNECT of mqtt_msg_connect removes the newest connection without an id; it is answered with 0 or 5, as the callback says, if and only if that is a newer one, and will and credentials are in order; when it is itself, that is a fault |
| Connecting.EmptyIdRead | src/mqtt_server.cpp:554-575 | an empty id is read exactly when something follows it, the session is clean and the version is 3.1.1 |
| Connecting.LastEmptyIdIsRefused | src/mqtt_server.cpp:554-560 | the CONNECT that ends with its empty id is refused with code 2, whatever its flags |
| Connecting.TwoWithOneId | src/mqtt_server.cpp:577-591 | a CONNECT with a PINGREQ behind it in one chunk, and an id that another connection has: both connections end with that id |
| Sessions.KeyIsId | src/mqtt_server.cpp:577-591 | the id compared is the id stored if and only if a zero byte is in it or right behind it |
| Sessions.FirstMatchIsEnough | src/mqtt_server.cpp:427-438 | removing the first match leaves no other connection with that id, by the invariant itself |
| Sessions.TakeoverExact | src/mqtt_server.cpp:427-438 | after a takeover nobody else has the id if and only if it was the one compared, or nobody had it before |
| Sessions.ConnectExact | src/mqtt_server.cpp:577-591 | a CONNECT keeps the ids distinct if and only if its id is not stored, or empty, or the one compared, or nobody else had it before the packet |
| Sessions.ReadPacketsExact | src/mqtt_server.cpp:473-489 | READPACKET does if and only if its first packet does or the connection is gone in the end |
| Sessions.StepIds | src/mqtt_server.cpp:427-438 | a step keeps the ids distinct if and only if the CONNECT in it, if any, does, or the connection is gone in the end |
| Sessions.IdsExact | src/mqtt_server.cpp:427-438 | the ids are distinct at every boundary of a run if and only if every step of it keeps them so |
| Sessions.IdsStayDistinct | src/mqtt_server.cpp:427-438 | in particular in every run in which each compared id is the stored one |
| Sessions.NamelessStays | src/mqtt_server.cpp:225-232 | in every run a connection before its CONNECT has the empty id |
| Streams.ReadPacketsDispatches | src/mqtt_server.cpp:473-489 | the broker's loop dispatches what Reassembly says and keeps the rest in in_buffer |
| Streams.ChunkDispatches | src/mqtt_server.cpp:465-489 | so does a whole callback |
| Streams.ZeroHeadHangs | src/mqtt_server.cpp:482-489 | with a length of zero at the head the loop hangs exactly on a refused connection, or past CONNECT on a packet other than SUBSCRIBE, UNSUBSCRIBE and DISCONNECT |
| Streams.HangsExactly | src/mqtt_server.cpp:951-959 | the loop hangs exactly when the bytes received lead to a length of zero and the connection lasts until then |
| Streams.WholeChunk | src/mqtt_server.cpp:473-491 | a chunk that is one whole packet is handled once and leaves the buffer empty |
| Streams.SilenceEndsIt | src/mqtt_server.cpp:413-425 | without anything received a connection lasts exactly connectionTimeout ticks |
| Streams.NeverBack | src/mqtt_server.cpp:283-378 | a connection that is gone does not come back |
| Streams.RunDispatches | src/mqtt_server.cpp:440-966 | over any run, a connection's dispatched packets depend on its own chunks alone |
| Streams.WholeStreamDispatched | src/mqtt_server.cpp:951-959 | a well-cut stream is dispatched packet by packet whatever else happens |
| Effects.ChunkOfPackets | src/mqtt_server.cpp:759-957 | a chunk that completes PUBLISH, SUBSCRIBE, UNSUBSCRIBE and PINGREQ packets does what they are to do, one after the other, and nothing else: copies per matching slot, local deliveries, retained updates, stored and dropped filters, SUBACK with retained messages, UNSUBACK, PINGRESP |
| Effects.ChunkThenBye | src/mqtt_server.cpp:902-911 | with a DISCONNECT behind them, and anything behind that, the packets do the same, and then connection and slots are gone and no will is published |
| Effects.AnyCutDoesTheSame | src/mqtt_server.cpp:951-957 | for every good cut of a stream of such packets the state after it is given by the packets completed; the cut makes no difference |
| Effects.AnyCutThenBye | src/mqtt_server.cpp:951-957 | the same with a DISCONNECT at the end |
| Subscribing.StrReadsBack | src/mqtt_msg.c:121-135 | an encoded string is read back, unless it is empty and ends the packet |
| Subscribing.WalkReadsRequests | src/mqtt_server.cpp:774-801 | the SUBSCRIBE walk recovers the encoded filters in order, up to the sixteenth; with no more than that it ends at message_length |
| Subscribing.CodeOfEach | src/mqtt_server.cpp:799 | the code for each filter is 0 exactly when it is valid and a slot is left, else 0x80 |
| Subscribing.SubscribeIsAnswered | src/mqtt_server.cpp:764-814 | the first sixteen filters are stored in order, and the SUBACK has the same id and one code for each of them in order (section 3.9.3 of MQTT 3.1.1); behind it, whatever its code, the last of them has one PUBLISH attempted for each retained entry that it matches |
| Subscribing.ShortSubscribeCloses | src/mqtt_server.cpp:767-771 | a SUBSCRIBE of less than eight bytes ends the connection; the one for the empty filter alone has seven |
| Subscribing.MissingQosFails | src/mqtt_server.cpp:786-790 | a filter without its QoS byte makes the walk fail |
| Subscribing.SendRetainedExact | src/mqtt_retainedlist.c:99-115 | exactly one attempt for each matching entry, in slot order, with its QoS and the retain flag |
| Subscribing.AttemptsQueue | src/mqtt_server.cpp:191-208 | those that find room are queued whole and in order behind what there was, and nothing else changes |
| Subscribing.AllSentExactly | src/mqtt_server.cpp:812 | all retained messages due are sent if and only if the last filter matches every entry that some filter matches |
| Subscribing.FirstFilterGetsNothing | src/mqtt_server.cpp:812 | of two plain filters, what is retained under the first is not sent |
| Subscribing.WalkReadsFilters | src/mqtt_server.cpp:827-843 | the UNSUBSCRIBE walk recovers the encoded filters and frees exactly this client's slots for them |
| Subscribing.EmptyLastFilterFails | src/mqtt_msg.c:121-135 | an empty filter at the end makes the walk fail |
| Subscribing.UnsubscribeIsAnswered | src/mqtt_server.cpp:816-852 | the UNSUBACK has the same id, and nothing but those slots and this queue changes |
| Subscribing.ClientRequests | src/mqtt_msg.c:400-418 | what mqtt_msg_subscribe builds, byte for byte, is the request for that filter with its QoS |
| Subscribing.ClientSubscribes | src/mqtt_server.cpp:764-814 | this client's SUBSCRIBE at this broker: the filter goes to the first free slot if it is valid, and the SUBACK has the id and says whether it did |
| Subscribing.ClientDrops | src/mqtt_msg.c:435-449 | what mqtt_msg_unsubscribe builds, byte for byte, is an UNSUBSCRIBE of that topic |
| Subscribing.ClientUnsubscribes | src/mqtt_server.cpp:816-852 | this client's UNSUBSCRIBE at this broker frees exactly the connection's slots for the topic, and the UNSUBACK has its id |
| Subscribing.DropUndoesSubscribe | src/mqtt_topiclist.cpp:23-61 | the two together leave the slots as they were, if the filter was not there before |
| Subscribing.LocalSlots | src/mqtt_server.cpp:1160-1166 | the slots after a local subscription and after a local unsubscription |
| MqttClient.BatchIsDelivered | src/mqtt.c:285-430 | a chunk of complete PUBLISH packets calls the callback once for each in order, queues the bytes 40 02 and the id for QoS 1 and 50 02 and the id for QoS 2, and the loop ends |
| MqttClient.Client.Publish | src/mqtt.c:570-593 | nothing changes when the packet cannot be built; else the drop-oldest outcome for it |
| MqttClient.Client.Subscribe | src/mqtt.c:602-627 | the drop-oldest outcome, for the empty message when the topic does not fit |
| MqttClient.Client.Unsubscribe | src/mqtt.c:629-651 | the same for the UNSUBSCRIBE of ClientDrops |
| MqttClient.Client.Ping | src/mqtt.c:653-674 | the drop-oldest outcome for a PINGREQ |
| MqttClient.Client.DeliverPublish | src/mqtt.c:103-115 | one call of the callback with topic and payload |
| MqttClient.Client.Acknowledge | src/mqtt.c:357-369 | PUBACK or PUBREC with the packet's id for QoS 1 or 2, as BatchIsDelivered spells out, else nothing |
| MqttClient.Client.Receive | src/mqtt.c:285-430 | the loop over the chunk does what BatchIsDelivered is about, for any chunk |
| Server.MqttServer.PublishTopic | src/mqtt_server.cpp:166-189 | one slot's copy goes to its owner |
| Server.MqttServer.FindTopic | src/mqtt_topiclist.cpp:63-79 | the slot loop does the fan-out that FanoutServes is about |
| Server.MqttServer.DeleteClientCon | src/mqtt_server.cpp:283-378 | the removal step |
| Server.MqttServer.DeleteClientById | src/mqtt_server.cpp:427-438 | the takeover step: the first client with that id is removed |
| Server.MqttServer.OnConnect | src/mqtt_server.cpp:502-743 | the CONNECT step, accepted, refused or dropped, that ConnectIsAnswered and ConnectRoundTrip are about |
| Server.MqttServer.OnSubscribe | src/mqtt_server.cpp:764-814 | the SUBSCRIBE step |
| Server.MqttServer.OnUnsubscribe | src/mqtt_server.cpp:816-852 | the UNSUBSCRIBE step |
| Server.MqttServer.OnPublish | src/mqtt_server.cpp:854-890 | the PUBLISH step |
| Server.MqttServer.OnPacket | src/mqtt_server.cpp:499-947 | the step for one packet in each connection state, whose effect in any stream AnyCutDoesTheSame gives |
| Server.MqttServer.RecvCallback | src/mqtt_server.cpp:440-966 | the step for one chunk, the goto loop as a loop, that ChunkOfPackets and ChunkRenews are about |
| Server.MqttServer.ConnectedCallback | src/mqtt_server.cpp:998-1035 | the step that adds a connection |
| Server.MqttServer.TimerCallback | src/mqtt_server.cpp:413-425 | the timer step |
| Server.MqttServer.ServerTask | src/mqtt_server.cpp:1037-1096 | the send step that TaskExactly is about |
| Server.MqttServer.PublishLocally | src/mqtt_server.cpp:1151-1158 | the local publication step |
| Server.MqttServer.SubscribeLocally | src/mqtt_server.cpp:1160-1162 | the local subscription step |
| Server.MqttServer.UnsubscribeLocally | src/mqtt_server.cpp:1164-1166 | the local unsubscription step |

## Left out

- Proto.AddRb: lengths are unbounded; the sign and 16-bit wrap of lengths and returned sizes are not modelled. PROTO_PARSER's callback, which is always null, is left out.
- Reader.ScanHeader: a length field of more than four bytes shifts by 32 or more, which C leaves undefined; the model takes the exact number, cut to 16 bits where it is stored.
- Proto.Parser.constructor: the model has the queue's parser start with isBegin false or true as the caller says; the broker's steps fix it, which DecodeFromAnyState shows to be without effect.
- RetainedStore.Store.Deserialize: the 16-bit wrap of the cursor is not modelled; it cannot occur on what Serialize writes.
- RetainedStore.Store.Serialize: the buffer has 1 to 65535 bytes, as the 16-bit cursor needs.
- Packet.Connection.MsgConnect: built for MQTT 3.1.1, the configured version; a null will_data is not modelled.
- Packet.Connection.MsgAck: return codes that do not fit behind the id are written past the buffer in the code; the model asks for a buffer that holds them, which the broker's 512 bytes do.
- MessageQueue.Queue.constructor: QUEUE_Init does not look at RINGBUF_Init, which refuses fewer than two bytes; the uninitialised ring of such a queue is not modelled. Both queue sizes are far larger.
- TopicList.Subscriptions.AddTopic: allocation of the filter's copy does not fail. Allocation failures are modelled in the retained list only; CONNECT's refusals for lack of memory are left out.
- Topics.StrTokR: the zero bytes that strtok_r writes into a private copy are not modelled, only the position it keeps.
- Server.MqttServer.PublishTopic: a client's record is a value in a list, named by a handle that is never reused, and holds its ring by contents; Queue and Outlet show that ring buffer and shared output buffer do the same. Pointers, freeing and lifetimes are left out.
- Server.MqttServer.OnConnect: user name and password are read only for being well-formed, and the authentication callback's answer is an input; connect and disconnect callbacks are left out. Reads behind the 512 bytes of in_buffer, which only a 13-byte MQTT 3.1 CONNECT with a wrapped length reaches, count as malformed. When takeover removes the connection itself, what the code does with the freed record is left at a fault.
- Server.MqttServer.RecvCallback: a loop that does not end, and a fault, are recorded as states in which nothing happens any more.
- SharedOutput.RunUndisturbed: of the broker's steps, those that publish, take and send; SUBACK and the like are single actions, and CONNACK and PINGRESP are left to Outlet's methods.
- Server.MqttServer.ConnectedCallback: a connection that is refused at once never enters the list.
- MqttClient.Client.Receive: state MQTT_DATA, and of the packet kinds PUBLISH; the others end the loop without effect here. QoS 1 and 2 handshakes beyond queueing PUBACK and PUBREC are left out.
- Effects.AnyCutDoesTheSame: of the packets, those past CONNECT that are well-formed and, for SUBSCRIBE and UNSUBSCRIBE, have a one-byte Remaining Length; a longer one loses its id, as IdReadsBack says. What others do between the chunks is not interleaved.
- Data that arrives for a connection already removed (the dummy record), and MQTT_server_cleanupClientCons, whose effect depends on dangling pointers.
- The client's connection life cycle: reconnecting, keep-alive, pending message bookkeeping.
- Sockets, TLS, DNS, timers and posting between OS activities: available space, chunks, ticks and drops are inputs.
- Flash storage of the retained list, its change callback, printing, and the C++ wrappers uMQTTBroker and MQTT.
