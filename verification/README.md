# Diamond Apparatus: a verified model of the broker, its clients and the wire

Diamond Apparatus is a topic-based publish/subscribe broker. A broker process keeps the last
value of every topic and the list of subscribers to each; clients publish and subscribe over
TCP, and keep a cache that a receiver thread fills and an application thread reads with
`get`. This project models the four stateful parts of the system, in the form the C++ code
has, and the system they make together, and proves what the broker and its documentation
promise.

| file | what it models |
|---|---|
| `Types.dfy`, `Ordering.dfy` | bytes, C strings, data items, constants; the iteration order of `std::set` and `std::map` |
| `Codec.dfy`, `Messages.dfy`, `Wire.dfy` | the Data message layout; `toMessage` and `fromMessage` over buffers; which bytes carry which request or reply |
| `Framing.dfy`, `Receiver.dfy` | length-prefixed frames; `TCPReceiver::update` over reads of any size |
| `Broker.dfy`, `BrokerLaws.dfy`, `BrokerRuns.dfy`, `BrokerEffects.dfy` | the broker as a state machine; its invariant; theorems about all its runs; what each request does, told from the events alone |
| `Server.dfy` | `MyServer` and the connection bookkeeping as a class, on bytes, proved to make the steps of that state machine |
| `LoopSpec.dfy`, `ServerLoop.dfy` | what rounds over ready descriptors do; the rounds of `TCPServer::update` and the loop of `server()` over any number of connections, proved to do exactly that, and to be runs of that state machine |
| `Client.dfy`, `ClientLaws.dfy`, `ClientRuns.dfy`, `ClientEffects.dfy` | the client's two threads as interleaved steps; their invariant; theorems about all interleavings; what each call does, told from the trace alone |
| `ClientClass.dfy` | `MyClient`, its requests, the stretches of `get` and `waitForAny` under the mutex, and the receiver loop with the application thread's steps in between, as a class, proved to be those steps and their runs |
| `System.dfy`, `SystemLaws.dfy`, `SystemRuns.dfy`, `Delivery.dfy` | broker, any number of clients, and a FIFO channel each way for each, also for connections since closed; theorems about all runs of the whole |
| `Projections.dfy` | a run of the whole is a run of the broker and one of each client; what follows for the whole |
| `Channel.dfy` | what the server object writes to a connection is what its channel holds, and a client can read it; what a client object writes is what the broker's loop takes |

The layers meet. `ServerLoop.Serve` takes the bytes of any number of connections to a legal
run of the broker's state machine, and `ClientClass.MyClient.ThreadFunc` takes the bytes of one
to a legal run of the client's, whether or not those bytes end inside a frame; the composed
system is made of exactly those steps, and `Projections.ReachableRuns` says that its broker and
its clients only go through such runs. `Channel.ChannelCarries` shows that the packets the
server object wrote to a connection since accepting it carry, one by one, the replies of its
channel, and `Channel.ReadableOverRuns` that a client can read them, which is what `ThreadFunc`
is given in any cut of their stream; `Channel.RequestsSent` shows the same of the packets a
client object wrote and the requests `Serve` is given.

Values written by the broker carry, in the model only, their place in the history of values
stored for their topic. Order and completeness of delivery are stated by those places, and
tied to the data by the history itself, which `BrokerRuns.HistoryIsPublished` shows to be what
clients published.

Where the code and the repository's own documentation differ, the model follows the code:

- A `get` that does not wait gives NOTFOUND, not NODATA, when there is no data yet.
- The "subscriber count" of the statistics is the number of topics that have a subscriber
  list (`server.cpp:72`).
- A waiting `get` is said to abort if the server exits. It does if a kill message is handled
  while it waits unsignalled. It waits for ever if the stream just ends while it waits, or if
  the connection ends, by a kill or not, after `get` has tested `running` and before it has the
  mutex (`waitForAny` does not test it at all): `ClientRuns.StrandedIff` says exactly which steps strand the thread,
  `ClientRuns.StrandedForEver` that nothing then wakes it but a spurious wakeup, and
  `ClientRuns.StrandedByEnd` and `ClientRuns.StrandedByKill` show a run of each kind.
- The topic "topics" is said to list all published topics. A client may publish under that
  name: `BrokerRuns.AgreementStep` says exactly which steps keep the list right, and
  `BrokerRuns.TopicListCanBeOverwritten` shows a run that does not.
- A frame with no bytes is never delivered, nor is anything after it: the next call of
  `update` takes no byte and returns false, so the broker closes the connection, or the
  client's thread ends. `Framing.AllDeliveredIff` says that the packets sent are all delivered
  if and only if none is empty. No client or broker sends one. This takes `malloc(0)` at
  `tcp.h:143` to give a buffer; where it gives none, the receiver skips the frame.
- The name length in a packet is capped at 128, but the name is copied whole:
  `Messages.ToMessage` says when the copy stays inside the buffer and what the packet then is,
  `Codec.NameRestoredIff` exactly when its name is read back, and `Codec.LongNameLost` shows
  one that is not.

## Model

| member | source | states |
|---|---|---|
| Types.UpToNul | data.h:37-47 | A decoded string is cut at its first terminator when it is copied into the topic |
| Codec.BigEndianRoundTrip | data.cpp:69-70 | A number written in any number of bytes that can hold it, most significant first, reads back as itself |
| Codec.ValueRoundTrip | data.cpp:99-100 | Any bytes are those of the number they stand for |
| Codec.WordRoundTrip | data.cpp:69-70 | A word written in network order reads back as itself |
| Codec.BytesRoundTrip | data.cpp:99-100 | Any four bytes are those of the word read from them |
| Codec.DataRoundTrip | data.cpp:109-132 | Items encoded anywhere in a packet decode to themselves, and the position after them is where the encoding ends |
| Codec.HeaderFields | data.cpp:69-73 | The type, the item count, the length byte and what is kept of the name stand where the reader looks for them |
| Codec.NameRestoredIff | data.cpp:40-42 | For a name of any length, it is read back if and only if it is within the limit, or the encoded data happen to continue the part kept |
| Codec.LongNameLost | data.cpp:40-42 | A name of 130 bytes whose packet fits its buffer comes back without its last byte |
| Codec.DecodeEncode | data.cpp:97-133 | For every type, list of data, and name of any length, decoding the encoded packet restores the data and uses every byte |
| Codec.RoundTrip | data.cpp:39-133 | For every type, name within the limit and list of data, all three can be read back from the packet |
| Codec.EncodeInjective | data.cpp:39-95 | Different types, names within the limit, or data never give the same packet |
| Codec.ReencodeIff | data.cpp:97-133 | For every decodable packet, re-encoding what was decoded equals overwriting the type in place if and only if the packet is laid out canonically |
| Codec.ThrowsIff | data.cpp:109-132 | Reading throws exactly if, after some items that can be read, there is a tag that is neither of the two |
| Codec.SampleBytes | data.cpp:64-94 | The bytes of one whole packet with an item of each kind |
| Codec.EncodeReads | data.cpp:33-36 | An encoded packet reads as what was encoded |
| Codec.ReadsFits | data.cpp:97-132 | The items read from any packet a frame can carry fit the 32-bit fields when encoded again |
| Codec.RetypedReads | server.cpp:143-148 | In any readable packet, however laid out, overwriting the type in place leaves the name and data a reader finds |
| Codec.LiveEqualsRetained | server.cpp:141-148 | For a publication as `toMessage` lays it out, live subscribers and later subscribers get the same bytes |
| Messages.MessageSize | data.cpp:44-62 | The first pass computes the length of the packet |
| Messages.ToMessage | data.cpp:39-95 | Every store of the second pass is inside the buffer, for every name whose copy fits; the buffer has the computed size and ends up holding exactly the packet |
| Messages.FromMessage | data.cpp:97-133 | The reading loop gives the packet's data, or the exception for a bad item type |
| Wire.AsksKind | server.cpp:187-208 | The type word tells which request a packet carries, whatever follows what is read |
| Wire.AsksUnique | messages.h:12-36 | No packet carries two different requests |
| Wire.WireBytes | messages.h:12-36 | The bytes of one packet of each kind |
| Wire.TellsReads | client.cpp:63-75 | A client reads the topic's name and value in whatever the broker writes for a notification |
| Wire.TellsUnique | messages.h:23-31 | No packet carries two different replies |
| Framing.StreamAppend | tcp.h:54-65 | Frames written one after the other make one stream |
| Framing.FrameBytes | tcp.h:54-65 | The bytes of one frame |
| Framing.ExplainsUnique | tcp.h:120-182 | The bytes received determine the packets delivered and the partial state, however they were cut into reads |
| Framing.DeliveredArePrefix | tcp.h:120-182 | The packets delivered from any part of a stream are the first ones sent |
| Framing.AllDeliveredIff | tcp.h:148-175 | A receiver that can take no more has delivered all packets sent if and only if none is empty, and else those before the first empty one |
| Receiver.Socket.Read | tcp.h:128-132 | A read gives an error, the end of the stream, or any number of bytes up to the number asked for |
| Receiver.TCPReceiver.constructor | tcp.h:96-103 | A new receiver stands at the start of a frame |
| Receiver.TCPReceiver.ReadSize | tcp.h:124-147 | One read of the size phase loses and invents no byte |
| Receiver.TCPReceiver.ReadData | tcp.h:148-161 | One read of the data phase loses and invents no byte, and a full buffer is the whole frame |
| Receiver.TCPReceiver.Update | tcp.h:120-182 | Terminates on any input; hands over at most one packet, only a whole one; old state and bytes taken equal the packet's frame or the new state; stops without a packet only if nothing is left, a read failed or it is told to exit, which it then does after one read of each phase; returns false, unless told to exit, exactly if it took no byte; counts the port as closed exactly if a read failed |
| Receiver.UpdateExplains | tcp.h:120-182 | Each call keeps the explanation of all bytes received so far |
| Receiver.ReceiveAll | client.cpp:167-170 | Any number of calls over any reads deliver the first packets sent, even if the stream ends inside a frame; if it does not and no read fails, all of them if and only if none is empty |
| Receiver.FirstFrame | tcp.h:161-173 | A packet delivered is the first sent, and what is unread is the frames of the rest, up to where the stream ends |
| Receiver.AllRead | tcp.h:124-161 | A receiver that can take no more of nonempty frames has taken every byte and holds less than a frame |
| Ordering.ListingSpec | server.cpp:62-65 | Iterating a set visits exactly its elements, strictly ascending |
| Ordering.NameOrder | server.cpp:62-65 | Byte-wise comparison of names is a strict total order |
| Ordering.BytesLessIff | server.cpp:62-65 | One name is less than another exactly if, at the first place where they differ, it has the lesser byte or has ended |
| Ordering.ListingUnique | server.cpp:62-65 | There is only one ascending listing of a set |
| BrokerSpec.InitRebuilt | server.cpp:165-171 | Rebuilding the statistics and then the topic list on a store holding only "version" gives the initial state, written out: three topics, their list in order, nothing sent |
| BrokerSpec.InitialStore | server.cpp:165-171 | The three topics a broker starts with and their data, in full |
| BrokerSpec.BroadcastTo | server.cpp:45-53 | A publish loop sends each subscriber one copy and nobody else any |
| BrokerLaws.ApplyInv | server.cpp:79-126 | Every event of the broker keeps the relations inverse, retained values the last stored, and counters equal to what they count |
| BrokerLaws.RunInv | server.cpp:179-225 | So does every run |
| BrokerLaws.InitInv | server.cpp:165-171 | The constructor establishes it |
| BrokerLaws.DeleteTopicInverse | server.cpp:114-126 | Deleting a topic also keeps the relations inverse, and removes only that topic's subscriptions |
| BrokerRuns.RelationsOverRuns | server.cpp:79-112 | After any run the two subscription relations are inverse, hold only for open connections, and a reused descriptor starts with none |
| BrokerRuns.CountersOverRuns | server.cpp:179-185 | After any run the counters equal the number of sends made and of packets processed |
| BrokerRuns.StatsAreFresh | server.cpp:69-77 | Each packet makes the broker store and broadcast statistics with the counters just before that broadcast |
| BrokerRuns.PublishSends | server.cpp:129-162 | What a publication sends to each descriptor: statistics, the value exactly once, and the topic list if the topic is new |
| BrokerRuns.DomainOverRuns | server.cpp:69-85 | After any run the topics with a subscriber list are exactly the broker's two and all ever published or subscribed to |
| BrokerRuns.DomainGrows | server.cpp:69-85 | Their number, which the statistics report first, never decreases along a run |
| BrokerRuns.StatsNeverDecrease | server.cpp:69-77 | For any two packets of a run, the first fields of the statistics stored are conversions of two numbers that do not decrease |
| BrokerRuns.ApplyHistory | server.cpp:129-141 | No event takes a value out of a topic's history |
| BrokerRuns.HistoryIsPublished | server.cpp:129-141 | The history of a topic other than the broker's two is exactly the data published under its name, in order |
| BrokerRuns.AgreementStep | server.cpp:129-162 | Exactly when a step leaves the topic list agreeing with the store |
| BrokerRuns.TopicListOverRuns | server.cpp:59-67 | In runs where no client publishes under "topics", that topic, if it exists, is the strictly ascending list of all topics, also after a clear |
| BrokerRuns.TopicListCanBeOverwritten | server.cpp:129-141 | A client publishing under "topics" makes the list wrong |
| BrokerEffects.KilledIff | server.cpp:198-200 | The kill flag is set exactly by a request to kill |
| BrokerEffects.ClearEmpties | server.cpp:201-207 | A clear leaves nothing retained |
| BrokerEffects.RetainedIff | server.cpp:129-162 | After any run a topic other than the broker's two is retained exactly if it was published after the last clear (or is the version and there was none), with the last value published |
| BrokerEffects.OwnTopics | server.cpp:59-77 | When the broker's two topics are retained after a packet, and that the statistics are the fresh ones |
| BrokerEffects.OpenIff | tcp.h:279-303 | A descriptor is open exactly if it was accepted and not closed since |
| BrokerEffects.SubscribedIff | server.cpp:79-112 | After any run a descriptor subscribes to a topic exactly if it asked to and was not closed since |
| BrokerEffects.RequestSends | server.cpp:179-209 | What any packet but a publication sends to each descriptor: statistics, and for a subscription the retained value to whoever asked; nothing else |
| Server.EraseFromEach | server.cpp:100-112 | The loop that erases one element from each of several sets |
| Server.ListTopics | server.cpp:62-65 | The loop that lists the topics |
| Server.MyServer.constructor | server.cpp:165-171 | The constructed broker is the machine's initial state |
| Server.MyServer.SendEach | server.cpp:152-156 | The publish loops send in the set's order and count each send |
| Server.MyServer.PushOn | server.cpp:148-157 | Sends a stored value on to the topic's subscribers, creating the subscriber list if missing |
| Server.MyServer.PublishInternal | server.cpp:40-56 | Broadcasts a topic the broker has rebuilt |
| Server.MyServer.RebuildTopicsTopic | server.cpp:59-67 | Rebuilds and broadcasts the topic list |
| Server.MyServer.RebuildStatsTopic | server.cpp:69-77 | Rebuilds and broadcasts the statistics |
| Server.MyServer.Subscribe | server.cpp:79-98 | Enrols both ways round and answers with the retained value |
| Server.MyServer.Unsubscribe | server.cpp:100-112 | Takes a connection out of all its topics |
| Server.MyServer.DeleteTopic | server.cpp:114-126 | Takes a topic out of all its subscribers' lists |
| Server.MyServer.Publish | server.cpp:129-162 | Stores the data of any readable publication, and in what goes out, the packet overwritten in place, a client reads the stored value; an item of unknown type throws, and nothing goes out |
| Server.MyServer.DispatchPacket | server.cpp:190-208 | The cases of a packet's type, unknown ones ignored |
| Server.MyServer.Process | server.cpp:179-209 | A packet's bytes make exactly the machine's step for the request they carry, and keep the invariant; or reading it throws, and only the statistics have been sent |
| Server.MyServer.Shutdown | server.cpp:214-224 | Sends every client a kill |
| Server.MyServer.AcceptClient | tcp.h:279-291 | A new connection starts with an empty receiver |
| Server.MyServer.CloseClient | tcp.h:295-303 | A closed connection leaves the clients and the subscriptions |
| Server.MyServer.Service | tcp.h:292-304 | One ready descriptor, whose stream may end inside a frame: its first request is processed, or part of it read, or, if a read failed or nothing is left, the connection closed; nothing else; the receiver is ready for its next turn |
| ServerLoop.Peer.constructor | tcp.h:279-291 | A connection just accepted has had none of its requests processed |
| ServerLoop.Peer.Turn | tcp.h:292-304 | A turn keeps a connection's bytes accounted for: frames of the requests processed, what is held, what is unread |
| ServerLoop.PeerWhole | tcp.h:124-161 | A connection with all its bytes read has had every request whose frame arrived whole processed |
| ServerLoop.ServeReady | tcp.h:276-304 | One ready descriptor of a round: somebody accepted, or a connection's turn, in which something is read and at most its next request processed, or it is closed, and that only as a read failed, on a connection where one can, or nothing was left; all other connections untouched |
| ServerLoop.Update | tcp.h:268-308 | A round does exactly what its ready descriptors do one after the other, and leaves the broker where the events lead |
| ServerLoop.Serve | server.cpp:246-263 | The loop serves the given rounds, one after the other, none after a client has asked for a kill, and shuts down, at the end, exactly if one has; their events are a legal run of the broker; of every connection, open or closed, the first requests sent are processed, in order, and every whole one if all its bytes were read |
| LoopSpec.RoundAccepts | tcp.h:276-291 | In a round whoever arrives is accepted, unless the descriptor is in use |
| LoopSpec.RoundAccounts | tcp.h:276-304 | Whatever a round's descriptors are, the requests processed of every connection, open or closed, stay the first of those sent on it, in order |
| LoopSpec.RoundReads | tcp.h:276-304 | In a round in which nobody is closed, a connection has at least as many bytes read as it has turns |
| ClientLaws.StepInv | client.cpp:242-309 | Every step of either thread keeps cache, `waittopic` and the waiting thread in agreement, and every result justified |
| ClientRuns.ResultsOverRuns | client.cpp:242-309 | In every interleaving every result of `get` is right about all that went before it |
| ClientRuns.FreshnessOverRuns | client.cpp:263-307 | While connected, CHANGED exactly if something was applied since; waiting for new data gives only CHANGED or NOTCONNECTED; never NODATA |
| ClientRuns.NothingAppliedAfterKill | client.cpp:89-97 | No packet changes the cache after a kill or the end of the stream |
| ClientRuns.NoLostWakeup | client.cpp:77-80 | A waiting `get` is always one that the next notification of its topic, or a kill, will signal, and has nothing to return yet |
| ClientRuns.NoLostWakeupForAny | client.cpp:312-320 | A thread waiting for any topic is signalled by exactly the notifications of topics it has, and by a kill |
| ClientRuns.WakeupDelivers | client.cpp:267-308 | Once signalled by a notification, whatever the receiver does before it runs, `get` returns CHANGED with the last payload, or NOTCONNECTED just if the connection ended |
| ClientRuns.StrandedIff | client.cpp:242-320 | In every interleaving, a step leaves the application thread waiting after the connection has ended exactly if the stream ends while it waits, or it goes on to wait when `running` is already false |
| ClientRuns.StrandedForEver | client.cpp:167-173 | For a thread so left only a spurious wakeup of `get` is possible |
| ClientRuns.StrandedByEnd | client.cpp:167-173 | A run in which the end of the stream does it |
| ClientRuns.StrandedByKill | client.cpp:244-249 | A run in which a kill does it, between the test of `running` and the mutex |
| ClientEffects.CallDecides | client.cpp:242-249 | In every interleaving a call of `get` fails at once exactly if the connection has ended, and else asks for the mutex |
| ClientEffects.GetDecides | client.cpp:250-308 | In every interleaving `get`, from the mutex on, gives or waits for exactly what the events so far say |
| ClientEffects.GetDecidesAgain | client.cpp:271-308 | So it does after a wait |
| ClientEffects.CallGoesOn | client.cpp:242-320 | With the mutex obtained, every call goes on as it was made |
| ClientEffects.SignalledIff | client.cpp:77-97 | In every interleaving a waiting `get` is signalled by exactly a kill and the notifications of its topic |
| ClientEffects.AnyWaitIff | client.cpp:312-320 | In every interleaving exactly a kill, or a notification of a topic the client has, handled while it waits, gets `waitForAny` out of its wait |
| ClientEffects.WaitForAnyWaits | client.cpp:312-320 | In every interleaving a call of `waitForAny` has not returned before such a packet |
| ClientClass.MyClient.Notify | client.cpp:63-81 | A notification's bytes make exactly the model's step |
| ClientClass.MyClient.Process | client.cpp:83-107 | So do those of any packet |
| ClientClass.MyClient.Subscribe | client.cpp:109-121 | The topic is made, and a packet asking for it written after all those before |
| ClientClass.SubscribeMessage | client.cpp:116-119 | The fixed-size message carries the subscription whatever follows the name in it |
| ClientClass.MyClient.Publish | client.cpp:123-130 | The encoded publication is written, for every name whose copy fits; within the limits it asks for just that |
| ClientClass.MyClient.SimpleMsg | client.cpp:132-138 | A packet asking for a kill or a clear is written |
| ClientClass.MyClient.GetCall | client.cpp:242-249 | `get` up to asking for the mutex |
| ClientClass.MyClient.GetLocked | client.cpp:249-309 | `get` from the mutex to its result or its wait |
| ClientClass.MyClient.GetWoken | client.cpp:271-308 | `get` after a wait, to its result or the next wait |
| ClientClass.MyClient.WaitForAnyLocked | client.cpp:313-317 | `waitForAny` up to its wait |
| ClientClass.MyClient.WaitForAnyWoken | client.cpp:317-320 | `waitForAny` after its wait |
| ClientClass.MyClient.AnyStep | client.cpp:242-320 | What the application thread does next, from wherever it is, is a step of the model |
| ClientClass.MyClient.ThreadFunc | client.cpp:164-174 | The receiver loop, with any steps of the application thread in between, is a legal run of the model, in which the packets handled are the first sent, in order, up to a kill or the end, over any reads; only whole ones, and, unless a read failed, every whole one, even if the stream ends inside a frame |
| SystemLaws.AnnounceConverges | server.cpp:40-56 | Storing and broadcasting a value keeps every cache converging to the retained one |
| SystemLaws.SubscribeConverges | server.cpp:79-98 | Serving a subscription makes the cache converge to the retained value |
| SystemLaws.LocalConverges | client.cpp:63-81 | So do all steps of the client |
| SystemLaws.ProcessLink | server.cpp:179-209 | Processing any packet keeps all that a connection promises |
| SystemRuns.NextInv | server.cpp:179-225 | Every happening of the composed system keeps its invariant |
| SystemRuns.Convergence | server.cpp:79-98 | In every reachable state a subscribed client's cached topic, after what is in flight, is exactly the broker's retained value |
| SystemRuns.WakeupInFlight | client.cpp:263-280 | In every reachable state, a subscribed client waiting for a retained topic's first data has a notification of it in flight, and, if still connected, handling what is in flight up to that is possible and leaves the thread signalled |
| SystemRuns.NewDataInFlight | client.cpp:286-303 | In every reachable state, a client waiting for new data has the last value stored, or one is in flight, and, if still connected, handling what is in flight up to that is possible and leaves the thread signalled |
| SystemRuns.OrderedDelivery | server.cpp:129-162 | Values sent to a connection follow the topic's history in order with none left out, through re-subscription and clears, up to the last stored |
| Delivery.GaplessDelivery | server.cpp:79-98 | For a connection that subscribes once, they are exactly the history from the value retained at that moment, or the next stored |
| SystemRuns.DeliveryBeforeClose | server.cpp:129-162 | Those sent to a connection since closed follow it in order too, none left out |
| SystemRuns.MonotoneReads | client.cpp:242-309 | Every valid result of `get`, also after the broker closed the connection, was really stored, and later results are never earlier values |
| SystemRuns.EveryNotificationExpected | client.cpp:67-70 | No client ever has a notification to ignore, also after the broker closed its connection |
| SystemRuns.OrderlyKill | server.cpp:214-224 | A kill is sent once, last, to every client connected at shutdown, and a client that handles it has nothing left to handle |
| Projections.ReachableRuns | server.cpp:246-263 | In every reachable state the broker is where a legal run from its construction leads, and the client of each connection, open or closed, where a legal run from its start does |
| Projections.TopicListSettles | server.cpp:59-67 | If no client publishes under "topics", every subscriber's cached copy settles on the ascending list of all topics |
| Projections.ReadsArePublications | client.cpp:242-309 | Every valid result of `get` for a topic not the broker's own is the data of a publication |
| Channel.ChannelCarries | tcp.h:54-65 | The packets written to a connection since the moment of accepting it carry, one by one, the replies of its channel |
| Channel.ReadableOverRuns | data.cpp:97-133 | Everything sent in a run can be read by a client, if what was published fits the fields of a packet and the run is too short for the topics to outgrow the list's count |
| Channel.RequestsSent | client.cpp:109-138 | What a client object wrote is what the broker's loop takes for its requests |

## Left out

- Sockets, `select`, `connect`, daemonising and environment variables; what remains of them is
  a stream of bytes, reads of any size, and accept and close events.
- In the state machines each ready descriptor is one event, in any order, and shutting down
  is an event that can happen at any time, as the signal handler may call for it; a signal that
  interrupts another event is not modelled. The rule of the server loop, that a kill ends the
  round with a shutdown, is stated by `ServerLoop.Serve`.
- Retries and short writes in `basesend`: every frame is taken to be written completely.
- Messages.ToMessage: takes names whose copy stays inside the buffer; beyond that the source
  writes outside it. Lengths of 2^32 or more are cut to their 32-bit field as in the source,
  but the total size is an unbounded integer.
- Messages.FromMessage: takes packets whose own lengths stay inside them, as the source does
  without checking.
- Server.MyServer.Process: takes any packet of four bytes or more whose own lengths and strings
  stay inside it, as the source does not check them. It keeps the invariant only for published
  names of at most 128 bytes, as a longer one that is retained cannot be sent in full. What is
  left of a topic when reading throws is not modelled: the exception ends the program.
- ServerLoop.Serve: takes connections whose packets can all be read without an exception, and
  publish names of at most 128 bytes.
- ClientClass.MyClient.GetWoken: takes the topic to be in the cache still, which the client's
  invariant gives for one application thread.
- Overflow of the `int` counters, and the rounding of counters to floats: the conversion is a
  parameter of the broker, and floats are opaque 32-bit patterns.
- Waking of `waitForAny` without a signal: it does not re-test, and is taken not to happen.
- Several application threads on one client: there is a single `waittopic`.
- The race between `running` being tested and the mutex being taken in `subscribe`, and use of
  a client already deleted.
- `init` and `destroy`, and `ClientState`, which has only one value.
- Topic objects are values here; pointers, copying and freeing are not modelled.
- Time, `Topic::age`, the CSV output, the C and Python bindings and the command-line programs.
