# eau2: a verified model of the store, its network protocol and its applications

eau2 is a distributed store of dataframes. Every node holds frames under string keys, tells its
peers which keys it holds, and answers their requests for values; applications such as Linus,
WordCount and the demo run on top of it. This project models the parts of eau2 in which a wrong
step is hard to see, and proves that they do what they are there for.

* **Values and bytes.** `Bytes`, `Frames`, `Serializable`, `NullableArrays`, `Schemas`,
  `DataFrames`: the encoders and decoders with a moving cursor, the bit-packed vectors, the
  two-vector nullable array, and frames with typed columns. Each class method is proved against
  a function on values; the round trips are proved about those functions, at any offset and with
  any bytes behind. `WireFormat` says what the bytes are, place by place and for one packet with a
  frame in full, and which bytes the decoders refuse.
* **Packets and the byte stream.** `Packets`, `Connections`: the type-length-value packets, the
  resumable reader, and the 4096-byte receive buffer that is shifted, zeroed and refilled.
  `Messages` puts the payloads of the protocol into packets, and shows that the bytes on a socket
  behave as the queue of messages that the protocol takes them for.
* **The remote-value protocol.** `Protocol` is a transition system with any number of nodes,
  connections and requester threads. A step is one action of one thread between two points at
  which another thread may run: taking or releasing a mutex, one queue or list operation, one
  packet sent or received. `EndpointInvariant`, `ProtocolInvariant` and `NetworkInvariant`
  establish an invariant of every reachable state; `ProtocolTheorems` draws from it that the
  protocol cannot deadlock although two mutexes are taken in opposite orders, that no wake-up is
  lost and no request is answered twice, and that remote reads are linearizable;
  `ProtocolLiveness` that from every reachable state every request that was made can return.
  `RequestOrder` proves that requests are answered first in, first out. `Announcements` says what a
  node knows of its peers' keys: every key of a list it has taken, and nothing else.
  `ProtocolAvailability` proves that this is enough: from every reachable state a peer's key can be
  heard of, asked for and read. `CtCConnections` has the two loops over the request queue and the
  waiting list as one thread executes them; `UninterruptedWorkers` proves that a worker's steps in a
  row do the same, and what a whole turn of `run` does; `WorkerMessages` that its packets are the
  messages of the connection's functions.
* **The local store.** `KVStores`: the local map, and the set of remote keys that are found by
  name and moved to another node in place.
* **Parallel map.** `ParallelMap`: the ranges of rows, and `pmap` for rowers that are cloned and
  joined, under a scheduler that lets any worker make the next step. `SharedFilters`: `pmap` for
  filters whose clones append to one frame under a mutex. `WordCounts` and `Demo` are instances
  of the first. `FilterOutputs` counts what the filters append, and says in which order `map` does.
* **Linus.** `Collaboration` defines walks between users who touched a common project, and proves
  that turning users into projects and back d times reaches exactly the ends of walks of d steps.
  `LinusLogs` says which keys the nodes set, in which order and to which frames; `Linus` is what
  the commits node and the users node execute, proved to set exactly these. `LinusTheorems`
  composes them with the protocol: a run of the application is one in which the sets of the two
  nodes are a beginning of such a log, and in which the frames they go by were returned by remote
  reads of that run. It leads from the users and the commits frame to what any node reads, each
  value as often as it occurs. `LinusLiveness` proves that such runs exist and can always be brought
  to their end.

How the source's features appear here:

* A thread interleaving is a sequence of steps (`Protocol`), or a loop that picks any worker with
  work left (`ParallelMap`, `SharedFilters`). Nothing is assumed about the choice.
* An assertion of the source is a precondition (`KVStore.Set`), a failure value (`Broken`, for
  assertions on data that was read), or is proved (`end <= n` in `Split`). The exception for data
  that is too short is `Short`.
* `size_t` values that are encoded are below 2^64 (`U64`), `int` values have 32 bits. Lengths,
  row numbers and counts are natural numbers: they are bounded by the size of objects in memory.
* A `double` is its 64-bit pattern. The demo is given a function from patterns to numbers and
  a rounding function about which only one thing is known: integers up to 2^53 are doubles, and
  rounding leaves them alone.
* `receive_data` delivers what a list of grants says; `grants` and `incoming` stand for the
  socket. A grant of zero bytes, and any grant when the peer has sent nothing more, is five calls
  of `recv` that would have to wait, and -1; with a full buffer `recv` is asked for no bytes and
  0 is returned. `UnpackNext` goes on in any case: with a grant of zero it is the `unpack` that
  follows another one in `receive_and_parse` without a receive.
* The network thread of a Linus node may record any keys of its peers between any two steps.
* In `Protocol`, the tag of a request, the version at which a value was looked up, and the list
  of all versions of a node's map record what happened; no guard looks at them.

Where the code and its own comments differ, the model follows the code:

* `Packet::unpack` is documented to reset the packet when it fails (`include/network/packet.h:80`).
  It resets the type and the value. Of the remaining length it keeps what the header announces
  (`src/network/packet.cpp:49-57`), or, with fewer than nine bytes, what was there before
  (`src/network/packet.cpp:35-48`). `Packets.FailedUnpackResetsIff` is the exact condition for a
  reset, and `Packets.FailedUnpackKeepsLength` a failure without one.
* `partial_unpack` is documented to read what the buffer contains
  (`include/network/packet.h:83-88`); `Connection::unpack` passes it the size of the buffer and not
  the number of bytes received (`src/network/connection.cpp:148`). Hence it reads the packet from
  received bytes alone and leaves the buffer position exact if and only if the receives keep up
  with the packet; `Connections.ReadsExactlyWhenFilled` is that condition for the whole call, the
  refills included. `Connections.ZeroTakenForData` is a packet that is read wrongly, and
  `Connections.RightByAccident` one that is right although its last byte had not come: only the
  buffer position is wrong.
* It is also documented to read a packet over several buffers, without a condition on where the packet
  is cut. A buffer that ends inside the header loses it: the next call makes an empty packet of it
  (`src/network/packet.cpp:76-91`). `Packets.ChunkingIff` is the exact condition,
  `Packets.CutHeaderIsLost` what comes out otherwise.
* The schema constructor is documented to take one character for each type
  (`src/data/schema.cpp:11-14`); it drops spaces and stops at a NUL, so that a schema grown by
  `add_column` with such a character does not survive its own encoding. `Schemas.SchemaRoundTripIff`
  is the exact condition.

## Model

| member | source | states |
|---|---|---|
| Bytes.LittleEndianRoundTrip | include/util/serializable.h:33-55 | a number written in k bytes, low byte first, is read back |
| Bytes.LittleEndianDigits | include/util/serializable.h:45-55 | byte i is the digit of weight 256^i, so that the low byte comes first |
| Bytes.LittleEndianOnto | include/util/serializable.h:33-43 | any k bytes are those of the number they are read as |
| Serializable.SizeRoundTrip | include/util/serializable.h:33-55 | a size_t anywhere in the data is read back and the cursor moves by 8 |
| Serializable.IntRoundTrip | include/util/serializable.h:33-55 | every int, negative ones included, is read back from its four bytes |
| Serializable.StringRoundTrip | include/util/serializable.h:66-84 | a string at any offset is read back, and the cursor stands behind it |
| Serializable.SerializeString | include/util/serializable.h:67-74 | the loop over the characters writes the length and the string |
| Serializable.DeserializeString | include/util/serializable.h:77-84 | the loop reads what the length announces, or fails as soon as the data ends |
| Serializable.BoolsRoundTrip | include/util/serializable.h:91-132 | a vector of bools at any offset is read back and the cursor moves by 8 plus a byte for every eight elements begun |
| Serializable.BitOfByteAt | include/util/serializable.h:95-106 | element 8j+k is bit k of payload byte j, and bits behind the end are zero |
| Serializable.SerializeBools | include/util/serializable.h:92-109 | the accumulator and its bit position write exactly that payload, for lengths divisible by eight and for the empty vector too |
| Serializable.DeserializeBools | include/util/serializable.h:112-132 | the inner bit position and the cursor read exactly the announced bits, or the assertion on the data's end fails |
| WireFormat.IntBytes | include/util/serializable.h:48-55 | the four bytes of an int are those of its two's complement, the lowest first |
| WireFormat.IntIsRead | include/util/serializable.h:33-43 | any four bytes are read as the int that has these bytes; fewer are refused as too short |
| WireFormat.SizeIsRead | include/util/serializable.h:33-43 | and any eight as a size_t |
| WireFormat.StringIsRead | include/util/serializable.h:77-84 | what is read as a string is its encoding; it is refused exactly if the length or the announced characters are not all there |
| WireFormat.BoolBytes | include/util/serializable.h:92-109 | payload byte j is the sum of elements 8j to 8j+7, weighted 1 to 128 |
| WireFormat.BoolsAreRead | include/util/serializable.h:112-132 | a vector is read exactly if a byte is there for every eight elements begun; otherwise the assertion fails, or the length is too short |
| NullableArrays.CanonicalIsUnique | include/data/nullable_array.h:99-110 | with a default value in every missing slot, two arrays have equal vectors if and only if they show the same optional values |
| NullableArrays.FromCellsIsCanonical | include/data/nullable_array.h:37-50 | every sequence of optional values of one type has a canonical array |
| NullableArrays.NullableRoundTrip | include/data/nullable_array.h:130-175 | an encoded canonical array is read back equal, although missing values of types other than bool are not written |
| NullableArrays.NullableArray.PushBack | include/data/nullable_array.h:42-50 | appends one optional value and keeps the array canonical |
| NullableArrays.NullableArray.Get | include/data/nullable_array.h:54-60 | yields the optional value at the position |
| NullableArrays.NullableArray.Set | include/data/nullable_array.h:65-76 | replaces the optional value, returns the old one, keeps the array canonical |
| NullableArrays.NullableArray.Pop | include/data/nullable_array.h:81-90 | removes one position and returns what was there |
| NullableArrays.NullableArray.Equal | include/data/nullable_array.h:107-110 | holds if and only if the optional values are the same |
| NullableArrays.NullableArray.Serialize | include/data/nullable_array.h:131-154 | writes the bitmap, and then the data as bits or only the existing values |
| NullableArrays.NullableArray.Deserialize | include/data/nullable_array.h:160-175 | reads the bitmap and the values and puts defaults into missing slots |
| WireFormat.MissingSlots | include/data/nullable_array.h:42-50 | a missing slot holds 0, 0.0, false or the empty string |
| WireFormat.BoolColumnBytes | include/data/nullable_array.h:131-139 | a bool column is the vector of which cells exist and the vector of which are true |
| WireFormat.OtherColumnBytes | include/data/nullable_array.h:131-153 | any other column is the vector of which cells exist and the values of those, in order |
| WireFormat.ColumnIsRead | include/data/nullable_array.h:160-175 | what is accepted as a column is, up to the bits behind a vector, the encoding of the cells that come out; a bool column has as many bits as cells |
| Schemas.SchemaRoundTripIff | src/data/schema.cpp:17-27 | a schema survives encoding and decoding if and only if it has no space and no NUL |
| Schemas.SpaceIsLost | src/data/schema.cpp:36-43 | a schema whose one type is a space is read back empty |
| Schemas.Schema.FromString | src/data/schema.cpp:17-27 | the constructor keeps what stands before the first NUL, without spaces |
| Schemas.Schema.AddColumn | src/data/schema.cpp:39-43 | appends one type and keeps the width |
| Schemas.Schema.Serialize | src/data/schema.cpp:149-158 | writes the width and the types |
| Schemas.Schema.Deserialize | include/data/schema.h:107-115 | reads the width and the characters and hands them to the constructor |
| Schemas.KeptNext | src/data/schema.cpp:17-27 | read from the left, a character is kept unless it is a space, or a NUL is it or before it |
| WireFormat.TypeLetters | include/data/dataframe.h:229-243 | the types are written I, F, B and S, and no other character is a type |
| DataFrames.FrameRoundTrip | include/data/dataframe.h:221-247 | decoding an encoded frame at any offset and with any suffix gives the same types and cells and leaves the cursor at the suffix |
| DataFrames.ColumnsRoundTrip | include/data/column.h:104-306 | the columns are read back one after the other, each with the decoder of its type |
| DataFrames.EncodingIsPrefixFree | src/data/dataframe.cpp:363-373 | frames whose encodings begin the same bytes are equal, and so is what follows |
| WireFormat.FrameIsRead | include/data/dataframe.h:222-243 | what is accepted as a frame begins with its type letters and the number of its columns; with another number the assertion fails |
| WireFormat.CutOffIsRefused | include/data/dataframe.h:221-247 | no frame of which bytes are missing at the end is ever accepted |
| WireFormat.SampleFrame | src/data/dataframe.cpp:363-373 | the 87 bytes of a frame with a column of each type and a missing cell in each |
| WireFormat.SamplePacket | src/network/ctc_connection.cpp:192-206 | the 19 bytes before it when that frame answers a request |
| WireFormat.ShortPackets | src/network/ctc_connection.cpp:49-57 | the 18 bytes of a request, and the 19 of a failure response |
| WireFormat.ListPacket | src/network/ctc_connection.cpp:105-117 | the 28 bytes of a list of two keys |
| DataFrames.WithRowAppends | src/data/dataframe.cpp:203-223 | adding a cell to every column adds one row to the table and keeps it rectangular |
| DataFrames.DataFrame.AddColumn | src/data/dataframe.cpp:117-124 | the column and its type become the last of the frame |
| DataFrames.DataFrame.RowTotal | src/data/dataframe.cpp:225-231 | the length of the first column, or without columns the rows the schema has counted; that many rows can be filled |
| DataFrames.DataFrame.FillRow | src/data/dataframe.cpp:180-201 | the row has the cells of all columns at that index |
| DataFrames.DataFrame.FromSchema | src/data/dataframe.cpp:87-92 | an empty column for each type of the schema |
| DataFrames.DataFrame.AddRow | src/data/dataframe.cpp:203-223 | every column gets its cell of the row and nothing else changes |
| DataFrames.DataFrame.Serialize | src/data/dataframe.cpp:363-373 | writes the encoding of the table the frame shows |
| DataFrames.DataFrame.DeserializeColumn | include/data/column.h:104-116 | the column that is rebuilt through `push_back` shows the decoded cells |
| DataFrames.DataFrame.Deserialize | include/data/dataframe.h:221-247 | the loop builds a frame that shows the decoded table; it fails when the data is too short, the counts differ, a type is unknown, or the two vectors of a bool column differ in length, and only then |
| Packets.UnpackPack | src/network/packet.cpp:11-65 | packing and reading back gives the packet, whatever follows it |
| Packets.FirstPacketIff | src/network/packet.cpp:28-65 | the packet that is read from a buffer is the one whose bytes the buffer begins with |
| Packets.Packet.Pack | src/network/packet.cpp:11-26 | one byte of type, eight of length, the value |
| Packets.Packet.Unpack | src/network/packet.cpp:28-65 | fields and result are those of the reader on values, after a failure too |
| Packets.UnpackTakesFirst | src/network/packet.cpp:28-65 | it succeeds exactly when the buffer holds the whole packet at its front, and gives that packet |
| Packets.FailedUnpackResetsIff | src/network/packet.cpp:35-57 | a failure leaves the packet as new if and only if there is no whole header and nothing was left to read before |
| Packets.FailedUnpackKeepsLength | src/network/packet.cpp:49-57 | nine bytes that announce five more: the failed packet keeps the five |
| Packets.Packet.ReadPart | src/network/packet.cpp:67-117 | fields, consumed bytes and `finished` are those of the reader on values, also for buffers shorter than the header |
| Packets.ChunkingIsIrrelevant | src/network/packet.cpp:67-117 | cutting the bytes anywhere behind the header gives the packet and the consumed bytes of one read; `finished` turns true exactly at the last byte, and before that each buffer is used up |
| Packets.ChunkingIff | src/network/packet.cpp:67-117 | a packet that is cut into several buffers is read as in one if and only if its header is in the first |
| Packets.CutHeaderIsLost | src/network/packet.cpp:76-91 | otherwise an empty packet of type 0 comes out, after at most one byte |
| Packets.RefillCount | src/network/connection.cpp:145-161 | whatever the buffers hold, a packet of length len takes ceil((len+9)/4096)-1 refills and every earlier call uses its whole buffer |
| Connections.Connection.ReceiveData | src/network/connection.cpp:123-143 | moves bytes from the socket to the end of the buffer, none lost; 0 with a full buffer, -1 when nothing comes |
| Connections.Connection.Discard | src/network/connection.cpp:151-158 | shifts the leftover to the front, zeroes the tail, and keeps the position exact |
| Connections.Connection.Unpack | src/network/connection.cpp:145-172 | terminates, and takes exactly what the reads on values take; it stops, and says so, exactly when a read would take bytes that have not been received |
| Connections.ReadsExactlyWhenFilled | src/network/connection.cpp:145-172 | the whole call, refills included, yields the packet at the front of the stream, with exactly its bytes gone and the buffer position exact, if and only if at each read the buffer holds the rest of the packet or is full |
| Connections.Connection.UnpackAll | src/network/connection.cpp:123-172 | as long as the receives keep up, reading again and again yields exactly the packets that were sent, in order |
| Connections.EagerReceivesKeepUp | src/network/connection.cpp:123-172 | if everything has been sent and each receive takes all that fits into the buffer, the receives keep up with packets of any sizes |
| Connections.OnlyRealBytesIffFilled | src/network/connection.cpp:145-148 | the first read of a packet uses received bytes only if and only if the buffer holds all of the packet or is full |
| Connections.ZeroTakenForData | src/network/connection.cpp:148 | a packet of eleven bytes of which ten have come is taken to be complete, with a zero at its end |
| Connections.RightByAccident | src/network/connection.cpp:145-172 | if the missing byte is a zero the packet is right all the same, and the position is wrong |
| Messages.MessageRoundTrip | src/network/ctc_connection.cpp:105-206 | each of the three messages is understood as it was sent, frames included |
| Messages.KeysRoundTrip | src/network/ctc_connection.cpp:105-170 | a list of keys of any length, without a count, is read back |
| Messages.KeysCutOff | src/network/ctc_connection.cpp:159-170 | a list that is cut off anywhere is read up to the string that is cut, and accepted only between two strings |
| Messages.ReadReply | src/network/ctc_connection.cpp:135-144 | reads the key and the frame of a response, or fails as the decoder on values |
| Messages.SendKeys | src/network/ctc_connection.cpp:105-121 | the list has every local key once, in the order of the hash set |
| Messages.UpdateKeys | src/network/ctc_connection.cpp:159-170 | records every key of the list for the sender, up to the first that is cut off |
| Messages.GetRequestedValue | src/network/ctc_connection.cpp:192-206 | the answer holds what the local map has, or says that it has nothing |
| Messages.SendAppends | src/network/connection.cpp:70-95 | putting a packet on the wire appends its bytes |
| Messages.ReceiveTakesOldest | src/network/ctc_connection.cpp:123-133 | the first packet of the bytes means the oldest message of the wire, and the bytes behind it are the rest of the wire |
| Messages.BytesDetermineContents | src/network/packet.cpp:11-26 | the same bytes cannot be two different sequences of messages |
| Messages.ReceiveMessages | src/network/connection.cpp:123-172 | a node understands exactly the messages on the wire, in order |
| KVStores.KVStore.GetLocal | src/data/kvstore.cpp:71-78 | what the local map holds |
| KVStores.KVStore.Locate | src/data/kvstore.cpp:80-97 | a local value wins; otherwise the recorded node; otherwise nothing |
| KVStores.KVStore.Set | src/data/kvstore.cpp:114-122 | replaces one entry of the local map; the key must not be known to be remote |
| KVStores.KVStore.AddNonlocal | src/data/kvstore.cpp:124-137 | names stay unique, and the index from names to nodes gets one new or changed entry |
| KVStores.KVStore.GetLocalKeys | src/data/kvstore.cpp:140-147 | exactly the keys of the local map |
| CtCConnections.CtCConnection.AddRequest | src/network/ctc_connection.cpp:37-40 | the request goes to the end of the queue, and is nowhere twice |
| CtCConnections.CtCConnection.CheckRequests | src/network/ctc_connection.cpp:42-65 | one request for each queued key is sent, in order and after what was sent before; all go to the end of the waiting list in that order, and the queue is empty |
| CtCConnections.CtCConnection.ParseRequestResponse | src/network/ctc_connection.cpp:146-156 | the first waiting request for the key gets the value, is notified and leaves the list, and no other one changes; with none the response is a parse error and nothing changes |
| UninterruptedWorkers.DrainIsLoop | src/network/ctc_connection.cpp:42-65 | a worker that is not interrupted does to its end what the loop of `_check_requests` does, in eight steps for each request |
| UninterruptedWorkers.ScanIsLoop | src/network/ctc_connection.cpp:146-156 | and what the search of `_parse_request_response` does, wherever the request is in the list |
| UninterruptedWorkers.TurnIsLoop | src/network/ctc_connection.cpp:74-83 | a turn of `run`: a request is answered from the local map and the worker receives again; after anything else it sends the keys and then the queue, a response being matched before |
| WorkerMessages.DrainSendsAsks | src/network/ctc_connection.cpp:42-65 | the packets it sends for its queue mean what `CheckRequests` sends for requests with these keys |
| WorkerMessages.ScanFindsFirst | src/network/ctc_connection.cpp:146-156 | the request it answers is the one that `ParseRequestResponse` answers |
| WorkerMessages.WorkerReplies | src/network/ctc_connection.cpp:172-206 | it answers a request with one packet of type 8 that means the local lookup of the key |
| WorkerMessages.WorkerAnnounces | src/network/ctc_connection.cpp:105-121 | it sends its keys in one packet of type 9 with exactly their encodings |
| WorkerMessages.WorkerUnderstands | src/network/ctc_connection.cpp:123-133 | it goes on with what the bytes of the packet mean |
| NetworkInvariant.StepKeepsInv | src/network/ctc_connection.cpp:37-206 | every step of every thread of the network keeps the invariant |
| NetworkInvariant.RunHasInv | src/network/ctc_connection.cpp:37-206 | every state of every run has the invariant |
| EndpointInvariant.RequesterKeepsEndInv | src/network/client.cpp:59-65 | who holds each mutex, and where each unanswered request is, stays right when a requester moves |
| EndpointInvariant.WorkerKeepsEndInv | src/network/ctc_connection.cpp:42-65 | and when the worker moves |
| EndpointInvariant.LockedIsSettled | src/network/ctc_connection.cpp:146-155 | the worker holds the mutex of a request only when its owner is past its own critical section |
| ProtocolInvariant.MyStepKeepsOrder | src/network/ctc_connection.cpp:57-62 | the waiting list stays equal to the round trips under way when this end's worker moves |
| ProtocolInvariant.InFlightAtPeerStep | src/network/ctc_connection.cpp:172-206 | and when the worker at the other end does |
| ProtocolTheorems.NoDeadlock | src/network/client.cpp:59-65 | in every reachable state a thread that is neither asleep in wait nor done can run, or waits for one that can, or waits for the worker, which waits for a requester that can |
| ProtocolTheorems.WorkerProgress | src/network/ctc_connection.cpp:42-65 | a worker can run, or waits for a requester that can |
| ProtocolTheorems.EachRequestInOnePlace | src/network/ctc_connection.cpp:37-65 | an unanswered request is exactly once in the queue, in the worker's hand or on the waiting list; an answered one nowhere |
| ProtocolTheorems.WaitingIsInFlight | src/network/ctc_connection.cpp:57-62 | the waiting list is the sequence of requests unsent, on a wire, being answered, or answered and not yet matched |
| ProtocolTheorems.WaitingKeysAreInFlight | src/network/ctc_connection.cpp:49-62 | the keys of the waiting requests are, in order, those in the response being matched, the responses and requests on the two wires, the request being answered and the one still to be sent |
| ProtocolTheorems.ResponseIsForOldest | src/network/ctc_connection.cpp:135-156 | a response answers the oldest waiting request, the very one it was sent for, and has its key |
| ProtocolTheorems.NoLostWakeUp | src/network/ctc_connection.cpp:146-156 | the response is matched at the head of the list and its notify finds the owner blocked in wait |
| ProtocolTheorems.AnsweredOnce | src/network/ctc_connection.cpp:149-153 | an answered request keeps its value |
| RequestOrder.AnsweredInPushOrder | src/network/ctc_connection.cpp:37-65 | first in, first out: whenever a request has its value, every request pushed before it on the connection has its own |
| ProtocolTheorems.RemoteReadIsLinearizable | src/network/client.cpp:59-65 | the frame that is returned is what the peer's map held for the key at a moment between the push and the return, and never a failure |
| ProtocolTheorems.OwnKeyIsNeverRemote | src/data/kvstore.cpp:114-119 | with one writer for each key, the assertion in `set` holds in every run |
| ProtocolTheorems.AnnouncedKeysAreHeld | src/network/ctc_connection.cpp:105-121 | each remote key, and each key in a list on a wire, is held by the node that announced it |
| Announcements.ListIsLearned | src/network/ctc_connection.cpp:159-170 | when a worker has done with a list, every key of it is known to be the peer's, and every other key has the entry it had, unless another worker of the node has recorded it meanwhile |
| Announcements.LearningIsUpdateKeys | src/network/ctc_connection.cpp:159-170 | if none has recorded anything, the remote keys are those that `UpdateKeys` leaves |
| Announcements.RemoteKeyWasAnnounced | src/data/kvstore.cpp:124-137 | a node knows a key to be remote only from a list that came over the connection to the node recorded for it |
| Announcements.ListsAreComplete | src/network/ctc_connection.cpp:105-121 | a list on a wire has exactly the keys that its sender held at some time |
| ProtocolTheorems.ResponsesSucceed | src/network/ctc_connection.cpp:192-206 | no failure response is ever on a wire |
| ProtocolTheorems.WrittenOnceReadExactly | src/data/kvstore.cpp:80-97 | a remote read of a key that is only set to one frame returns that frame |
| ProtocolTheorems.ReadWasPut | src/data/kvstore.cpp:71-122 | what a remote read returns was set by the peer under that key, earlier in the run |
| ProtocolLiveness.NextStep | src/network/ctc_connection.cpp:42-65 | in every reachable state some step brings a request that has not returned nearer to its return |
| ProtocolLiveness.RequestCanReturn | src/network/client.cpp:59-65 | from every reachable state a continuation, in which nothing is set and nothing new is asked, ends with the request returned with a value |
| ProtocolAvailability.HeldKeyCanBeRead | src/data/kvstore.cpp:80-97 | from every reachable state, for every key a peer holds, a continuation without sets asks the peer for it and returns the frame the peer has held all the time |
| ProtocolAvailability.SetKeyCanBeRead | src/data/kvstore.cpp:114-122 | from every reachable state the owner of a key can set it to any frame, and a continuation returns that frame to any node connected to it |
| ParallelMap.Split | src/data/dataframe.cpp:262-305 | two to eight ranges partition the rows in order; all but the last have the step size, and the last is below 10000 rows for fewer than 45000 and at most seven longer than the step from there |
| ParallelMap.LawfulOnRows | src/data/dataframe.cpp:312-315 | the law of a clone-and-join rower holds at every cut of every frame |
| ParallelMap.Map | src/data/dataframe.cpp:237-243 | the rower accepts every row in order |
| ParallelMap.RunWorkers | src/data/dataframe.cpp:254-310 | in any interleaving each worker's rower ends up having accepted exactly its range |
| ParallelMap.ParallelIsSequential | src/data/dataframe.cpp:312-315 | under the law at the cuts of these rows, joining the clones in row order is the same as accepting all rows |
| ParallelMap.Pmap | src/data/dataframe.cpp:262-316 | for every rower, frame and interleaving the result is that of joining the ranges in row order; for a rower that obeys the law it is what `map` leaves |
| SharedFilters.UnorderedFilter.AddToDf | src/util/linus_rowers.cpp:59-71 | one critical section appends one cell to the shared frame |
| SharedFilters.UnorderedFilter.Accept | src/util/linus_rowers.cpp:108-175 | appends what the filter yields for the row, two cells in two critical sections for projects to users |
| SharedFilters.UnorderedFilter.FinishFilter | src/util/linus_rowers.cpp:73-79 | hands over the frame with everything appended, and starts an empty one |
| SharedFilters.OneAppends | src/util/linus_rowers.cpp:59-63 | a step of one worker adds exactly its cell to what all workers have appended |
| SharedFilters.Map | src/data/dataframe.cpp:237-243 | appends what the filter yields, row after row |
| SharedFilters.Pmap | src/data/dataframe.cpp:262-316 | appends the same cells as `map`, each as often, in every interleaving of the critical sections |
| FilterOutputs.ProjectsCounted | src/util/linus_rowers.cpp:108-114 | a project is appended as often as there are commits to it with a listed author or committer |
| FilterOutputs.UsersCounted | src/util/linus_rowers.cpp:138-145 | a user is appended as often as there are commits to listed projects with them as author, plus those with them as committer |
| FilterOutputs.OneColumnInOrder | src/util/linus_rowers.cpp:108-175 | `map` appends the projects, or the names, of exactly the matching rows in the order of the rows |
| FilterOutputs.UsersInOrder | src/util/linus_rowers.cpp:138-145 | and for each matching commit, in order, the author and then the committer |
| SharedFilters.IntSetGenerator.Accept | src/util/linus_rowers.cpp:9-17 | adds the ints of the row's int columns |
| SharedFilters.CollectInts | src/util/linus_rowers.cpp:96-101 | the set is that of all ints in the frame |
| SharedFilters.IntSetMembers | src/util/linus_rowers.cpp:9-17 | an int is in the set if and only if some cell of some row holds it |
| WordCounts.CounterRower.Accept | src/util/wordcount.cpp:10-25 | counts every existing string of the row's string columns |
| WordCounts.CounterRower.Join | src/util/wordcount.cpp:27-40 | the counts are added, whatever order the other map is visited in |
| WordCounts.CountingIsLawful | src/util/wordcount.cpp:27-51 | joining the clone that counted the next rows is the same as counting them |
| WordCounts.RowsCounted | src/util/wordcount.cpp:10-25 | a word's count is the number of positions in the table that hold it |
| WordCounts.CountWords | src/util/wordcount.cpp:10-51 | parallel word count is exact, and holds no other word |
| Demo.SumRower.Accept | src/util/demo.cpp:13-21 | adds the existing doubles of the row's double columns, rounding each time |
| Demo.SumRower.Join | src/util/demo.cpp:23-28 | adds the other sum, rounding once |
| Demo.TotalOfParts | src/util/demo.cpp:13-21 | the total counts each double once, wherever it stands, and nothing else |
| Demo.PartialSum | src/util/demo.cpp:13-21 | on a frame of integer doubles whose absolute values add up to at most 2^53 every sum is an integer, and exact |
| Demo.SummingLaw | src/util/demo.cpp:13-32 | so that summing obeys the law of `pmap` there, although rounding is not associative |
| Demo.Producer | src/util/demo.cpp:45-52 | the values are the doubles 0 to n-1, and the sequential sum is n(n-1)/2 |
| Demo.FromArray | src/data/dataframe.cpp:18-28 | one column with these doubles |
| Demo.Counter | src/util/demo.cpp:59-69 | on such a frame the parallel sum is the exact sum |
| Demo.RunDemo | src/util/demo.cpp:45-69 | the counter's parallel sum over the producer's frame, sent as bytes, is the producer's sequential sum |
| Demo.DemoIsExact | src/util/demo.cpp:47 | the demo's 100000 numbers are within the bound |
| Demo.PmapDiffersBeyond | src/util/demo.cpp:23-28 | a frame of 10000 rows, with absolute values that add up to 2^53 + 2, on which `pmap` gives 2^53 + 2 and `map` 2^53 |
| Collaboration.ProjectsAreTouched | src/util/linus_rowers.cpp:108-114 | the filter yields a project if and only if one of the users touched it |
| Collaboration.UsersTouched | src/util/linus_rowers.cpp:138-145 | the filter yields a user if and only if they touched one of the projects |
| Collaboration.OneRound | src/util/linus.cpp:95-113 | one round yields a user if and only if they touched a common project with one of the users before |
| Collaboration.ReachIsWalks | src/util/linus.cpp:85-113 | the users after d rounds are those at the end of a walk of d steps from a seed |
| Collaboration.ReachIsBall | src/util/linus.cpp:85-113 | if the seed is in some commit they are those at most d steps away |
| Collaboration.NestedIffActive | src/util/linus.cpp:85-113 | the seed is still there after one round if and only if it is in some commit; then the sets are nested, otherwise they are all empty |
| Collaboration.Stabilises | src/util/linus.cpp:95-113 | once two consecutive sets are equal all later ones are |
| LinusLogs.KeysAreDisjoint | src/util/linus.cpp:22-113 | no key is set by two of the users, commits and projects nodes; the one of the projects node is "projects" |
| LinusLogs.CommitsNamesDiffer | src/util/linus.cpp:85-113 | the commits node sets no key twice |
| LinusLogs.UsersNamesDiffer | src/util/linus.cpp:32-66 | nor does the users node |
| LinusLogs.ReplayHolds | src/data/kvstore.cpp:114-122 | an entry of a log whose key is not set again is in the map |
| LinusLogs.ReplayKeeps | src/data/kvstore.cpp:114-122 | a key that is not set keeps its value, and no other one appears |
| FilterOutputs.NamesCounted | src/util/linus_rowers.cpp:169-175 | a name is appended as often as there are users with that name and a listed uuid |
| Linus.OutputIds | src/util/linus_rowers.cpp:9-17 | the ids of a filter's output do not depend on the order in which the threads appended |
| Linus.RunFilter | src/util/linus.cpp:97-99 | making a filter, mapping it and finishing it gives one column with the filter's cells in some order |
| Linus.Fetch | src/data/kvstore.cpp:80-97 | the frame read from a peer's answer is the one the peer sent |
| Linus.SetUsers | src/util/linus.cpp:96-101 | generates and sets the users of one degree |
| Linus.SetProjects | src/util/linus.cpp:106-111 | generates and sets the projects of these users |
| Linus.CommitsNode | src/util/linus.cpp:74-113 | sets the fifteen keys "commits", "linus_projects", "uuids_degree_1", "projects_degree_1" to "uuids_degree_7", each once and in this order: the commits, and the outputs of the filters from the uuid that was read; the local map is the replay of these sets, whatever the network and `pmap` threads do |
| Linus.FindLinus | src/util/linus.cpp:40-49 | the uuid of the first user named "torvalds", if there is one |
| Linus.SetNames | src/util/linus.cpp:55-66 | reads the users of one degree and sets their names |
| Linus.UsersNode | src/util/linus.cpp:32-69 | sets "users", "linus_uuid" if he is found, and "degree1" to "degree7" with the names of the users that were read, each once and in this order |
| LinusTheorems.OneWriter | src/util/linus.cpp:22-113 | the application gives every key exactly one writer |
| LinusTheorems.PeersAnnounceTheirOwn | src/util/linus.cpp:22-113 | in every reachable state of the application's network, a node knows only other nodes' keys to be remote |
| LinusTheorems.StoredDegreeIsWalks | src/util/linus.cpp:95-101 | after the commits node has finished, the frame stored for degree d holds exactly the users at the end of a walk of d steps |
| LinusTheorems.ReadIsLogged | src/data/kvstore.cpp:80-97 | what any node reads under an application key is an entry in the log of the key's writer |
| LinusTheorems.LocalIsReplay | src/data/kvstore.cpp:114-122 | in every run a node's map is the replay of its sets |
| LinusTheorems.CommitsFrameIsRead | src/util/linus.cpp:80-113 | a read of any frame of the commits node after the first returns the output of its filter for the ids that lead there from Linus |
| LinusTheorems.UuidIsRead | src/util/linus.cpp:40-49 | in a run of the application, a read of linus_uuid returns the uuid of the first user of that name |
| LinusTheorems.DegreeIsRead | src/util/linus.cpp:80-101 | a read of uuids_degree_d returns a frame with exactly the users after d rounds from that uuid |
| LinusTheorems.DegreeIsWalks | src/util/linus.cpp:80-101 | that is, exactly the users at the end of a walk of d steps from Linus |
| LinusTheorems.DegreeIsBall | src/util/linus.cpp:80-101 | it is the ball of radius d if Linus is in some commit, and empty otherwise |
| LinusTheorems.DegreeIsCounted | src/util/linus.cpp:95-101 | in it a user occurs once for each commit, as author or as committer, to a project that someone at the end of a walk of d-1 steps touched |
| LinusTheorems.ProjectsAreRead | src/util/linus.cpp:85-111 | a read of linus_projects, or of projects_degree_d, returns exactly the projects that someone at the end of a walk of no, or d, steps touched |
| LinusTheorems.ProjectsAreCounted | src/util/linus.cpp:85-111 | in it a project occurs once for each commit to it by such a user |
| LinusTheorems.NamesAreRead | src/util/linus.cpp:55-66 | a read of degree_d returns the output of the name filter for these users |
| LinusTheorems.NamesAreWalks | src/util/linus.cpp:32-69 | in it a name occurs as often as there are users of that name at the end of a walk of d steps from Linus |
| LinusLiveness.CanFinish | src/util/linus.cpp:32-113 | from every reachable state of the application, with a Linus among the users, a continuation sets all fifteen and all nine keys, after all seven degrees have been read |
| LinusLiveness.CanStart | src/util/linus.cpp:32-113 | every network that connects the nodes has such runs to begin with, for any users and commits |

## Left out

- Sockets, `select`, watchdogs, printing, argument parsing, the server, registration and shutdown packets, and the parser of input files.
- A short `send` that is taken for success, and a `send` that blocks because the peer does not read: sending appends a whole packet.
- Closing a connection: the destructor that answers the requests left over, and what a requester sees when its connection ends. The theorems are about connections that stay open.
- Spurious wake-ups of the condition variable: `wait` returns only after a notify. The notify is taken to act on the request, which the code reaches through a list iterator it has just erased.
- Several connections between the same two nodes, and the scan of the connection list in `get_value`: a link is named by its two ends.
- `get` looks into the local map and then into the remote keys; in `Protocol` a request starts in one step in which both are as they must be. `get_or_wait` is the repetition of `get`.
- `receive_and_parse` and its dispatch on the packet type: reading a message is one receive, one `unpack` and one handler.
- Packets whose announced length makes nine plus the length exceed 2^64, and values of more than 2^31 bytes for the `int` that `unpack` returns.
- Connections.Connection.Unpack: stops where the code would go on with bytes that were not received; what the code does from there, with zeros for data and a position below zero, is not modelled.
- NaN and the two zeros: doubles are compared by their bit patterns.
- The stores hold frames as values and not by reference; a frame is not changed after it is set.
- Row and column names, lookup by name, `equals` of schemas and frames, hash functions, and the variadic constructors of columns.
- The four column classes: they differ in the element type of their array, so that one class with a type stands for them.
- `DataFrame::filter`, whose loop runs over the schema's row count, which `add_row` never changes.
- The fallback of `pmap` when cloning fails, and the reference counts that `finish_set` and `finish_filter` assert.
- Deserialising a key of the store: the cursor and the assertion do not fit its encoder.
- The tokenizer of WordCount, and the counters' wrap-around at 2^64.
- Sums of doubles that are not integers, or whose absolute values add up to more than 2^53.
- The update counters of the server, which may count a connection twice.
