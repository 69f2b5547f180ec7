# mediasoup: the worker channel, codec negotiation, id allocation, dispatch and wrapping numbers

A Dafny model of the parts of mediasoup in which several functions, or both processes, have to agree.

- **The channel between Node and the worker.** Messages travel as netstrings. The worker parses them
  in place in a fixed buffer, Node in a growing one, the payload channel pairs header and payload
  frames on top. `Netstring`, `FrameStream`, `WorkerChannel`, `WorkerDelivery`, `NodeReceiver`,
  `PayloadChannel`. The measure is the same throughout: the concatenation of the frames that were
  sent, cut into arbitrary reads.
- **Requests and replies.** `ChannelRpc` is Node's request map with its ids, timers and closing, put
  beside a worker and the messages under way. `WorkerDispatch` is the worker's half: which request gets
  which reply, and what happens to the router map. `RpcEndToEnd` puts the two together over pipes that
  keep their messages in order.
- **ORTC negotiation.** `Codecs`, `RouterCapabilities`, `Negotiation`, `Consumable`, `Consumer`, `Pipe`,
  `SecondRouter` follow the codec list from the media codecs a router is created with, through a
  producer's mapping and its consumable parameters, to a consumer or into a second router. `Routers`
  states the results for routers made from the actual table of supported codecs, `CanConsumeExample` is
  a concrete case. `MappingExact`, `RouterNumbers` and `CodecLists` say what each of these steps gives in
  terms of its inputs alone: which producers are accepted and what is mapped to what, which payload types
  and parameters the router's codecs have, and which codecs are consumable, consumed and piped.
- **Id allocators.** `SctpStreams` (stream ids of data consumers, one table per transport) and `UsrSctp`
  (association ids and their registry).
- **Wrapping numbers.** `Time` (serial timestamps, NTP, absolute send time), and `SeqSet`, `SeqManager`,
  `SeqRuns` (renumbering RTP packets around dropped ones: the set of dropped numbers, the operations,
  whole runs).

Code that loops or updates fields is a method or a class whose `ensures` equates its result or new
state with a specification function; the properties are then lemmas about that function, over
all inputs, all chunkings or all interleavings. `Octets`, `Sequences`, `Options` and `Cyclic` hold
general types and helpers.

## Where the code falls short of what it seems to promise

Each of these has the exact condition under which the property holds.

- Both sides call 4194313 the netstring length of a maximal payload, and the worker accepts such
  a frame (`WorkerDelivery.WorkerDeliversSent`). Node compares its receive buffer with the payload limit
  4194304 instead, so a frame on its own gets through if and only if its payload has at most 4194295 bytes
  (`NodeReceiver.NodeTakesFrameIff`); a stream gets through if and only if no read makes the remainder and
  the new bytes exceed that limit (`NodeReceiver.ChannelDeliversAllIff`).
- On the payload channel nothing catches what processing a frame throws, so the frame stays in the buffer
  and is processed again with every read. The receiver is blocked if and only if some header frame parses
  to null or some listener throws (`PayloadChannel.PayloadEndToEnd`), and stays so until the limit discards
  everything (`NodeReceiver.BlockedStays`).
- `canConsume` can say no where `getConsumerRtpParameters` succeeds
  (`CanConsumeExample.CanConsumeIncomplete`). For what comes out of the negotiation this happens if and
  only if the peer supports some media codec and the first of the producer's codecs of which it supports
  anything is a video codec that it supports only the RTX codec of (`Consumer.RefusedIff`).
- A request followed by `Channel.close` leaves a promise unsettled if and only if the request drew an id
  that was still pending (`ChannelRpc.ReusedIdOrphans`), which takes a full cycle of 4294967295 ids and is
  reached from a new channel (`ChannelRpc.ReuseReached`).
- `SeqManager::Input` asks `lower_bound(input - MaxValue / 2)` for the old entries, although the set can
  hold numbers ahead of the input that the comparison takes to be older still. What is found then depends
  on the tree that the set is kept in: an input gets what is due to it if and only if the first entry met
  on the way down that is not old is not ahead of it (`SeqManager.InputIff`, and
  `SeqRuns.RunNumbers` over runs). That holds for every tree if and only if no remembered drop is
  ahead of an input (`SeqManager.InputEveryTree`, `SeqRuns.RunEveryTree`). Otherwise all drops are
  forgotten (`SeqRuns.MisledForgets`), so that numbers are given twice and dropped inputs are let through:
  with a single drop ahead always (`SeqRuns.OverrunDuplicates`), with two depending on their order
  (`SeqRuns.OrderMatters`).
- `TimeMs2Ntp` keeps 32 bits of seconds, so the way back is exact below 1000 * 2^32 ms and not from
  there on (`Time.NtpRoundTripIff`).

## What stands for code outside the model

- A read of the pipe is a `seq` of bytes of any size up to the free space; closing by the listener is a
  function of the messages delivered so far (`Closer`).
- `NodeReceiver.NsPayload` and `nsLength` follow the definition of the netstring format, because the npm
  package is not part of this model. `netstring_read` is modelled statement by statement.
- `JSON.parse` is a function that throws, gives null or gives the fields that are looked at, and whether a
  listener throws is a function of what it is told (`PayloadChannel.Env`); a message of the worker channel
  is given by the fields that are looked at.
- `h264-profile-level-id` is a pair of functions, `Codecs.H264`. Lemmas that need it ask for `Stable`:
  agreement of two parameter sets is symmetric and transitive, and storing the selected profile-level-id
  does not change with whom one agrees.
- `Router::HandleRequest`, `Settings::HandleRequest` and `FillJsonResourceUsage` reply once or throw
  before replying (`WorkerDispatch.Env`).
- The random first SSRC is a parameter. `ceil(log10(n + 1))`, and the `double` arithmetic of the NTP
  conversions, are exact mathematics over integers and `real`.
- `uintptr_t` has 64 bits. `SeqManager` is the `uint16_t` instance. Its `std::set` is a search tree,
  `lower_bound` the descent, and insertion is at the place that the descent finds; how the set arranges
  its elements after a change is a parameter of each operation (`SeqSet.Shape`), any tree with the same
  traversal.
- Time-outs, replies and closing are events that may happen in any order.

## Model

| member | source | states |
|---|---|---|
| `Netstring.DigitsOfNat` | deps/netstring/netstring-c/netstring.c:76-79 | The decimal numeral of n reads back as n, has no leading zero, and its length is the least k with n + 1 <= 10^k, which is what ceil(log10(n + 1)) reserves |
| `Netstring.DigitsOfValue` | deps/netstring/netstring-c/netstring.c:44-57 | A numeral without leading zero is the numeral of its value: the leading-zero check makes the length prefix unique |
| `Netstring.NumeralLength` | deps/netstring/netstring-c/netstring.c:51-57 | The nine-digit limit admits exactly the lengths up to 999999999 |
| `Netstring.NetstringRead` | deps/netstring/netstring-c/netstring.c:33-72 | The digit loop and the checks after it, on a slice of a buffer, give the verdict of `Read` for that slice, with the same precedence among the six errors |
| `Netstring.ReadExact` | deps/netstring/netstring-c/netstring.c:33-72 | A buffer is accepted if and only if it begins with a frame of the format whose length has at most nine digits |
| `Netstring.ReadComplete` | deps/netstring/netstring-c/netstring.c:33-72 | A complete frame is recognised whatever follows it, with its payload and its end |
| `Netstring.ReadIncomplete` | deps/netstring/netstring-c/netstring.c:41-62 | Every strict prefix of a frame is answered with "too short", never with an error |
| `Netstring.ReadSound` | deps/netstring/netstring-c/netstring.c:33-72 | What is accepted re-encodes to exactly the bytes it was read from |
| `Netstring.ReadStable` | deps/netstring/netstring-c/netstring.c:33-72 | No verdict but "too short" changes when more bytes arrive |
| `WorkerChannel.ConsumerSocket.constructor` | src/Channel/ChannelSocket.cpp:169-173 | A new consumer socket is open, empty and has delivered nothing |
| `WorkerChannel.ConsumerSocket.OnUvRead` | src/handles/UnixStreamSocket.cpp:224-263 | Storing a chunk behind the data and parsing takes the observable state to `Receive` of the old one; an empty read changes nothing |
| `WorkerChannel.ConsumerSocket.UserOnUnixStreamRead` | src/Channel/ChannelSocket.cpp:175-298 | The parse loop over buffer, msgStart and bufferDataLen, with compaction, discard, exact-fill reset and closing in the middle, ends in the state that draining the pending bytes frame by frame gives |
| `WorkerChannel.ConsumerSocket.OnReadError` | src/Channel/ChannelSocket.cpp:191-266 | More input wanted: the unfinished message is kept, moved to the front or, if it fills the whole buffer, discarded; malformed data empties the buffer |
| `WorkerChannel.ConsumerSocket.TakeMessage` | src/Channel/ChannelSocket.cpp:268-287 | One message goes to the listener, the rest stays pending, a message that ends at the buffer's end empties it, and the pending part shrinks |
| `WorkerChannel.ConsumerSocket.OnConsumerSocketMessage` | src/Channel/ChannelSocket.cpp:273-273 | The payload is appended to what was delivered, and the socket is closed if handling it closes it |
| `WorkerChannel.ConsumerSocket.Memmove` | src/Channel/ChannelSocket.cpp:204-204 | The overlapping move brings the unfinished message, unchanged, to the start of the buffer |
| `WorkerChannel.CeilLog10Plus1` | src/Channel/ChannelSocket.cpp:115-115 | The digits reserved for n > 0 are the least k with n + 1 <= 10^k |
| `WorkerChannel.ProducerSide.constructor` | src/Channel/ChannelSocket.cpp:25-31 | The write buffer has 4194313 bytes and nothing has been written |
| `WorkerChannel.ProducerSide.Send` | src/Channel/ChannelSocket.cpp:63-80 | The pipe gets one frame of the format, or nothing when closed or the message exceeds 4194304 bytes |
| `WorkerChannel.ProducerSide.SendImpl` | src/Channel/ChannelSocket.cpp:100-124 | Filling the write buffer in place, the NUL of sprintf included, writes exactly the frame of the payload and never overflows |
| `WorkerChannel.EmptyFrame` | src/Channel/ChannelSocket.cpp:106-112 | The three bytes written for the empty payload are its frame |
| `WorkerChannel.MaxFrame` | src/Channel/ChannelSocket.cpp:20-22 | No frame of an admitted payload is longer than the buffer, and the largest payload fills it exactly |
| `WorkerDelivery.WorkerFollowsStream` | src/Channel/ChannelSocket.cpp:175-298 | For every stream of frames that fit the buffer and every way of cutting it into reads: at every moment the messages delivered are the frames that have fully arrived, once each and in order, the pending bytes are exactly those after them, and nothing is discarded |
| `WorkerDelivery.RoomToRead` | src/Channel/ChannelSocket.cpp:195-223 | Whatever bytes arrive, an open socket always has room for the next read: pending <= bufferDataLen < bufferSize |
| `WorkerDelivery.WorkerStopsAtClose` | src/Channel/ChannelSocket.cpp:180-183 | Messages behind the one whose handling closes the socket are never delivered, even when they came in the same read |
| `WorkerDelivery.MalformedResets` | src/Channel/ChannelSocket.cpp:225-265 | Malformed data behind complete frames: those are delivered, the rest of the read is thrown away, and the open socket goes on with an empty buffer |
| `WorkerDelivery.DeliveredBounded` | src/Channel/ChannelSocket.cpp:195-223 | Whatever bytes arrive, no message whose frame exceeds the buffer is delivered |
| `WorkerDelivery.WorkerDeliversAllIff` | src/Channel/ChannelSocket.cpp:175-298 | A whole stream gets through, under every chunking, if and only if each of its frames fits the buffer |
| `WorkerDelivery.WorkerDeliversSent` | src/Channel/ChannelSocket.cpp:100-124 | With the actual constants, every sequence of payloads up to 4194304 bytes framed by the writer is delivered exactly, for every chunking, and leaves nothing pending |
| `NodeReceiver.NsPayloadExact` | mediasouptestcase/src/Channel.ts:94-112 | The reader says "payload" if and only if the buffer begins with that payload's frame, and "incomplete" if and only if some frame strictly extends the buffer |
| `NodeReceiver.Channel.constructor` | mediasouptestcase/src/Channel.ts:58-67 | A new channel has an empty buffer and has handled nothing |
| `NodeReceiver.Channel.OnData` | mediasouptestcase/src/Channel.ts:67-170 | The handler takes buffer and payloads to `OnChunk` of the old ones, in which nothing gets stuck: an exception is caught and the payload removed all the same, so later frames do not shift |
| `NodeReceiver.Channel.ProcessPayload` | mediasouptestcase/src/Channel.ts:114-157 | Each payload leaves one entry: processed, thrown, or logged by its first byte (`ChannelHandles`); and it is known whether it threw |
| `NodeReceiver.NodeFollowsStream` | mediasouptestcase/src/Channel.ts:67-170 | While the bytes not yet taken and the chunk stay within the limit, the payloads taken are those that have fully arrived, in order and up to the first that gets stuck, and the buffer is the bytes after them |
| `NodeReceiver.RunAccounts` | mediasouptestcase/src/Channel.ts:80-88 | Payloads taken and buffer never account for more bytes than were received, and for strictly fewer once the limit has been exceeded |
| `NodeReceiver.NodeDeliversAllIff` | mediasouptestcase/src/PayloadChannel.ts:68-128 | For the handler with or without the catch: a whole stream gets through if and only if every read fits the limit and no payload gets stuck |
| `NodeReceiver.NodeBlockedIff` | mediasouptestcase/src/PayloadChannel.ts:91-127 | Reached by a whole stream in reads that fit, the receiver has taken exactly the payloads before the first that gets stuck, holds the rest, and is blocked if and only if there is one |
| `NodeReceiver.BlockedStays` | mediasouptestcase/src/PayloadChannel.ts:68-115 | Once blocked it takes nothing more: every read is only added to the buffer, and it stays blocked until the limit discards everything |
| `NodeReceiver.ChannelDeliversAllIff` | mediasouptestcase/src/Channel.ts:67-170 | On the main channel, whatever processing throws, a whole stream gets through if and only if every read fits the limit: after one discard the payloads taken never again equal those sent |
| `NodeReceiver.ChannelHandles` | mediasouptestcase/src/Channel.ts:114-157 | Reached by a whole stream in reads that fit, the channel has one entry for each payload, in order: one that begins with "{" is processed whole or threw, one that begins with D, W, E or X is logged at that level without the letter, any other without level |
| `NodeReceiver.MalformedResets` | mediasouptestcase/src/Channel.ts:94-108 | Malformed data behind complete frames: those are taken, the rest of the buffer is thrown away |
| `NodeReceiver.NodeTakesFrameIff` | mediasouptestcase/src/Channel.ts:80-88 | A frame on its own is processed, however it is cut, if and only if its payload has at most 4194304 - 9 bytes |
| `PayloadChannel.Receiver.constructor` | mediasouptestcase/src/PayloadChannel.ts:41-45 | An empty buffer, and no notification waits for its payload |
| `PayloadChannel.Receiver.OnData` | mediasouptestcase/src/PayloadChannel.ts:68-128 | The handler takes buffer and frames to `OnChunk` of the old ones, in which a frame whose processing throws gets stuck; the outputs are at all times those of the frames taken, and the handler throws if and only if it ends up blocked |
| `PayloadChannel.Receiver.ProcessData` | mediasouptestcase/src/PayloadChannel.ts:301-394 | One frame takes the automaton to `Step` of its state: payload of the waiting header, response, header, or skipped; it throws if and only if a header parses to null or a listener throws, and then the state is as before |
| `PayloadChannel.PairsItems` | mediasouptestcase/src/PayloadChannel.ts:301-394 | For every stream of responses and notifications, whatever bytes the payloads hold: one output each, in order, every payload with its own header, exactly the frames that are not payloads are given to JSON.parse, and none throws |
| `PayloadChannel.Decompose` | mediasouptestcase/src/PayloadChannel.ts:301-394 | Every frame sequence is such a stream, then possibly a header that waits, then possibly a frame that throws and what follows it |
| `PayloadChannel.PairsAnyFrames` | mediasouptestcase/src/PayloadChannel.ts:301-394 | So for arbitrary frames it is known how many are processed before one throws, what they put out, which were parsed and which header waits |
| `PayloadChannel.SendNotification` | src/PayloadChannel/PayloadChannelSocket.cpp:65-89 | Header and payload are both framed and written, or neither: a size limit never breaks a pair |
| `PayloadChannel.PayloadEndToEnd` | mediasouptestcase/src/PayloadChannel.ts:68-128 | Any frames, sent and cut into any reads that fit, are processed as far as the first that throws, with the outputs of those before it; that is a header that parses to null, or a payload of the waiting header whose listener throws; and the receiver is blocked, with that frame and all later ones in its buffer, if and only if there is one |
| `PayloadChannel.ItemsEndToEnd` | mediasouptestcase/src/PayloadChannel.ts:68-128 | Responses and notifications that do not throw all get through, with their outputs, if and only if every read fits the limit |
| `Codecs.MatchSymmetric` | mediasouptestcase/src/ortc.ts:1187-1263 | Codec matching, as `MatchExact` has it, does not depend on the order of its arguments, strict or not |
| `Codecs.MatchTransitive` | mediasouptestcase/src/ortc.ts:1187-1263 | Strict matching, as `MatchExact` has it, is transitive |
| `Codecs.MatchStable` | mediasouptestcase/src/ortc.ts:1216-1241 | After a strict match has rewritten the profile-level-id, the codec carried on under the capability's mime type matches exactly what it matched before |
| `Codecs.MatchRtx` | mediasouptestcase/src/ortc.ts:1182-1204 | RTX codecs match only RTX codecs, across upper and lower case |
| `Codecs.MatchExact` | mediasouptestcase/src/ortc.ts:1187-1263 | Strict matching holds if and only if mime types (lower-cased), clock rates and channels are equal, for H264 the packetization modes too and the profiles agree, for VP9 the profile ids too, where an absent, zero or empty value counts as 0; matching that is not strict leaves the profiles out |
| `Codecs.ValidateExact` | mediasouptestcase/src/ortc.ts:87-140 | A capability is accepted if and only if its mime type names a kind, its parameters are numbers, strings or absent and apt is a number; it gets that kind, one channel if it is audio and names none, no channels if it is video, and empty strings for parameters without a value; everything else is kept |
| `Codecs.ValidateIdempotent` | mediasouptestcase/src/ortc.ts:87-151 | Validating a validated capability changes nothing: kind, channels and missing parameter values are filled in once, and what was accepted is accepted again |
| `Codecs.ValidateAll` | mediasouptestcase/src/ortc.ts:65-68 | The list is accepted entry by entry, and refused only if some entry is |
| `RouterCapabilities.GenerateRouterRtpCapabilities` | mediasouptestcase/src/ortc.ts:569-674 | The loop that shifts and splices the dynamic payload types returns `Generate` of the media codecs, the first error included; `RouterNumbers.GenerateIff` says which lists that are |
| `RouterCapabilities.AddMediaCodec` | mediasouptestcase/src/ortc.ts:588-671 | One turn of that loop is `AddCodec`, with its four error exits in order; `RouterNumbers.AddCodecIff` and `PlaceErrors` say what it adds and when it fails |
| `RouterCapabilities.GenerateShape` | mediasouptestcase/src/ortc.ts:588-671 | For every list of media codecs: all payload types are distinct, every video codec is directly followed by exactly one RTX codec whose apt is its payload type and whose clock rate it shares, RTX payload types lie in 96..127, and no dynamic type still to be handed out is in use |
| `RouterCapabilities.AddCodecKeeps` | mediasouptestcase/src/ortc.ts:588-671 | One media codec more keeps that shape, whether its payload type is given, fixed by the table or dynamic |
| `RouterCapabilities.GenerateLists` | mediasouptestcase/src/ortc.ts:588-671 | The result lists the media codecs in order with their mime type, clock rate, channels, requested payload type and all their parameters, and nothing else but the RTX codecs |
| `RouterCapabilities.GenerateErr` | mediasouptestcase/src/ortc.ts:588-591 | An error on a prefix of the media codecs is the error of the whole list |
| `RouterCapabilities.DynamicDistinct` | mediasouptestcase/src/ortc.ts:42-47 | The dynamic payload types are distinct and lie in 96..127 |
| `RouterCapabilities.SupportedOk` | mediasouptestcase/src/supportedRtpCapabilities.ts:5-247 | The table of supported codecs is normalised, has no RTX codec, and none of its fixed payload types is dynamic |
| `RouterNumbers.UnusedDynamic` | mediasouptestcase/src/ortc.ts:42-47 | The list of dynamic payload types is at every moment those of 100..127, 96..99 that no entry has: it begins with the first such, and is empty if and only if there is none |
| `RouterNumbers.ChooseExact` | mediasouptestcase/src/ortc.ts:601-621 | A media codec gets the payload type it asks for, else the fixed one of its table entry, else the first dynamic one in the order 100..127, 96..99 that no entry has; it fails only when none is left |
| `RouterNumbers.AddCodecIff` | mediasouptestcase/src/ortc.ts:588-671 | For every state of the loop and every media codec: what is appended is exactly the first table entry with its mime type, clock rate, channels (and packetization mode for H264) under that payload type, provided it is unused, with the table's parameters overridden by the media codec's, and for video an RTX codec with the next unused dynamic type, the same clock rate and apt; nothing else is ever appended |
| `RouterNumbers.PlaceErrors` | mediasouptestcase/src/ortc.ts:612-662 | "Cannot allocate" when no dynamic type is left for the codec or for its RTX codec, a type error when the payload type is taken already |
| `RouterNumbers.GenerateIff` | mediasouptestcase/src/ortc.ts:569-674 | For every list of media codecs and every list of entries: this list is returned if and only if it consists, in order, of what each media codec adds to those before it |
| `RouterNumbers.FixedTypes` | mediasouptestcase/src/supportedRtpCapabilities.ts:5-247 | With the actual table a media codec that asks for no payload type gets 0 for PCMU, 8 for PCMA, 9 for G722, 13 for CN, and otherwise the first unused dynamic one |
| `Negotiation.LookupExact` | mediasouptestcase/src/ortc.ts:702-705 | The capability found is the first one in the codec's format with an agreeing profile, none only if there is none |
| `Negotiation.GetProducerRtpParametersMapping` | mediasouptestcase/src/ortc.ts:682-758 | The three loops over codecToCapCodec return `MapProducer`: the rewritten codecs and the entries in insertion order, media before RTX, or the error; the `MappingExact` members say what these are |
| `Negotiation.MapMediaCodecs` | mediasouptestcase/src/ortc.ts:696-714 | Every media codec gets the first capability it strictly matches and its rewritten parameters, or the whole mapping is refused |
| `Negotiation.MapRtxCodecs` | mediasouptestcase/src/ortc.ts:717-748 | Every RTX codec gets the RTX capability of its associated codec's capability; the first failure is the result; `MappingExact.RtxCapsExact` says when there is one |
| `Negotiation.MapRtx` | mediasouptestcase/src/ortc.ts:722-747 | One RTX codec: no associated codec, associated codec without capability, no RTX capability, in that order; `MappingExact.RtxStepFinds` and `RtxStepOnly` say what is found |
| `Negotiation.RtxCapsTotal` | mediasouptestcase/src/ortc.ts:717-758 | Mapping the RTX codecs leaves the media codecs' capabilities alone, and afterwards every codec has one, so the entry loop never meets a missing value |
| `MappingExact.RtxStepFinds` | mediasouptestcase/src/ortc.ts:722-747 | An RTX codec that names a media codec whose first compatible capability is video finds the capability directly after that one, which is an RTX capability |
| `MappingExact.RtxStepOnly` | mediasouptestcase/src/ortc.ts:722-747 | No other RTX codec finds anything: not one that names nothing, an RTX codec or an audio codec |
| `MappingExact.RtxCapsExact` | mediasouptestcase/src/ortc.ts:717-748 | So for all RTX codecs of a producer, in whatever order they and the media codecs come |
| `MappingExact.MappingIff` | mediasouptestcase/src/ortc.ts:682-748 | With the router's capabilities and distinct payload types a producer is accepted if and only if every media codec is compatible with some capability and every RTX codec names a media codec whose first compatible capability is video |
| `MappingExact.MediaMapsTo` | mediasouptestcase/src/ortc.ts:696-758 | The payload type of a media codec is mapped to that of the first capability it is compatible with, and to nothing else |
| `MappingExact.RtxMapsTo` | mediasouptestcase/src/ortc.ts:717-758 | The payload type of an RTX codec is mapped to that of the capability directly after the one of the codec it names, an RTX capability, and to nothing else |
| `MappingExact.EntriesInOrder` | mediasouptestcase/src/ortc.ts:750-758 | There is one entry for each codec, the media codecs in order and then the RTX codecs in order |
| `Consumable.GetConsumableCodecs` | mediasouptestcase/src/ortc.ts:801-844 | The loop returns `ConsumableCodecs`, in which both unchecked lookups can fail |
| `Consumable.NeverMisses` | mediasouptestcase/src/ortc.ts:806-811 | After a successful mapping neither lookup fails, whatever the payload types |
| `Consumable.EntryFound` | mediasouptestcase/src/ortc.ts:806-808 | Every codec finds a mapping entry whose payload type some capability has, and with distinct payload types it is the codec's own |
| `Consumable.ConsumableIsBlocks` | mediasouptestcase/src/ortc.ts:801-844 | With distinct payload types on both sides the consumable codecs are, in the producer's order, one block for each media codec: its chosen capability with the producer's rewritten parameters, then that capability's RTX codec |
| `Consumable.ChoiceStable` | mediasouptestcase/src/ortc.ts:702-705 | A consumable codec finds again the capability that the producer's codec was matched to |
| `Consumable.ChoicesChosen` | mediasouptestcase/src/ortc.ts:696-714 | So do all of them, and there is one if and only if the producer has a media codec |
| `Consumable.RtxIsNext` | mediasouptestcase/src/ortc.ts:825-829 | In the router's list the RTX lookup finds the entry after a video codec, and nothing for audio |
| `Consumable.MapEncodings` | mediasouptestcase/src/ortc.ts:760-777 | Encoding i gets the i-th SSRC from the first one on, all distinct, and keeps rid, ssrc and scalability mode unless empty or zero |
| `Consumable.ConsumableEncodings` | mediasouptestcase/src/ortc.ts:869-886 | Encoding i carries mapped SSRC i; rid, rtx and codec payload type are gone, the rest is kept |
| `Consumer.MatchingCodecs` | mediasouptestcase/src/ortc.ts:960-971 | The loop keeps, in order, the codecs that some capability strictly matches |
| `Consumer.SupportsExact` | mediasouptestcase/src/ortc.ts:911-920 | A peer supports a codec if and only if one of its capabilities has the codec's format and an agreeing profile |
| `Consumer.CanConsumeProducer` | mediasouptestcase/src/ortc.ts:901-927 | canConsume returns `CanConsume`, which refuses invalid capabilities and otherwise looks at the first matching codec |
| `Consumer.RemoveUselessRtx` | mediasouptestcase/src/ortc.ts:973-989 | The backward splice loop returns `Sweep`, and rtxSupported holds if and only if an RTX codec is left |
| `Consumer.GetConsumerCodecs` | mediasouptestcase/src/ortc.ts:950-995 | The codec part returns `ConsumerCodecs`, or the error; on success rtxSupported holds if and only if the result has an RTX codec |
| `Consumer.ConsumerFormats` | mediasouptestcase/src/ortc.ts:958-989 | For every codec list and every peer, each codec that a consumer gets was consumable and has a capability of the peer with equal mime type, clock rate, channels and packetization mode or VP9 profile, and an agreeing H264 profile |
| `Consumer.SweepKept` | mediasouptestcase/src/ortc.ts:973-989 | When no RTX codec names an RTX codec, removing while looking gives the same as one filter over the original list |
| `Consumer.UselessRtxRemoved` | mediasouptestcase/src/ortc.ts:958-989 | For negotiated codecs and any peer, exactly the RTX codecs whose media codec did not match are removed, and every RTX codec left has its media codec in the result |
| `Consumer.CanConsumeSound` | mediasouptestcase/src/ortc.ts:901-927 | For every codec list and every capabilities: if canConsume is true, getConsumerRtpParameters does not refuse |
| `Consumer.CanConsumeIff` | mediasouptestcase/src/ortc.ts:901-995 | For every codec list that getConsumerRtpParameters accepts, canConsume is true if and only if the first codec that the peer supports is not an RTX codec |
| `Consumer.RtxHeads` | mediasouptestcase/src/ortc.ts:911-923 | For negotiated codecs the first one that a peer supports is an RTX codec if and only if, of the first choice that it supports anything of, it supports the RTX codec only |
| `Consumer.RefusedIff` | mediasouptestcase/src/ortc.ts:901-995 | For negotiated codecs canConsume refuses what getConsumerRtpParameters accepts if and only if the peer supports some media codec and the first choice that it supports anything of is a video codec that it does not support |
| `Consumer.ConsumerOkIff` | mediasouptestcase/src/ortc.ts:955-995 | For negotiated codecs getConsumerRtpParameters succeeds if and only if the peer supports some media codec |
| `Consumer.SingleCodecAgrees` | mediasouptestcase/src/ortc.ts:901-995 | For a producer with one media codec the two agree |
| `Consumer.SameSupport` | mediasouptestcase/src/ortc.ts:911-920 | A peer that supports a codec that came through a capability supports every codec that did |
| `Consumer.RouterConsumesOwn` | mediasouptestcase/src/ortc.ts:901-927 | The router's own capabilities can consume negotiated codecs if and only if there are any |
| `CanConsumeExample.CanConsumeIncomplete` | mediasouptestcase/src/ortc.ts:922-924 | A router created for VP8 and VP9, a producer of both, and a peer with VP9 and RTX: of what the negotiation makes of it, canConsume is false and the consumer's codecs are VP9 with its RTX codec |
| `Pipe.GetPipeConsumerCodecs` | mediasouptestcase/src/ortc.ts:1137-1150 | The loop keeps all codecs, or all but RTX, in order |
| `Pipe.BlocksAnchored` | mediasouptestcase/src/ortc.ts:801-844 | Every consumable RTX codec names a consumable media codec |
| `Pipe.ConsumablesAre` | mediasouptestcase/src/ortc.ts:682-844 | Mapping and consumable codecs composed: never a failed lookup, one block per media codec, each finding its capability again |
| `Pipe.PipedMapsToItself` | mediasouptestcase/src/ortc.ts:682-758 | A piped list is accepted by the mapping of the same capabilities and every payload type maps to itself |
| `Pipe.PipePreservesPayloadTypes` | mediasouptestcase/src/ortc.ts:1121-1150 | From any accepted producer with distinct payload types: consumable codecs exist, and piped into a router with the same capabilities they are accepted with every payload type mapped to itself, RTX on or off |
| `Pipe.ProducibleIsConsumable` | mediasouptestcase/src/ortc.ts:901-927 | canConsume against the router's own capabilities is true if and only if the accepted producer has a media codec |
| `Pipe.ConsumableMirrors` | mediasouptestcase/src/ortc.ts:801-823 | What getConsumableRtpParameters returns has, one for one and in order, the producer's media codecs, each in the format and under the payload type of the first capability it is compatible with, with its own parameters and, for H264, with the profile-level-id that was answered, or none |
| `CodecLists.ConsumableLaid` | mediasouptestcase/src/ortc.ts:801-844 | The consumable codecs entry by entry: for each media codec of the producer, in order, what `ConsumableMirrors` says and, for video, directly after it the RTX codec of the next capability, with that one's payload type, clock rate and parameters, its apt naming the codec before it; nothing else |
| `CodecLists.ConsumerGets` | mediasouptestcase/src/ortc.ts:950-995 | For any accepted producer and any valid peer a consumer gets, in order, exactly the consumable codecs that the peer has a compatible capability for, an RTX codec only if that also holds for the media codec it names; it gets any if and only if that holds for some media codec |
| `CodecLists.PipePicks` | mediasouptestcase/src/ortc.ts:1137-1150 | What is piped is, in order, all codecs, or exactly those that are not RTX |
| `SecondRouter.BlocksAgain` | mediasouptestcase/src/ortc.ts:682-844 | Whatever was piped, with RTX or without, the second router's consumable codecs are the blocks of the same capabilities, in the same order |
| `SecondRouter.SecondRouterRestores` | mediasouptestcase/src/ortc.ts:682-896 | The consumable codecs of a second router with the same capabilities equal the first one's, position by position, in mime type, payload type, clock rate, channels and parameters, RTX codecs restored even when they were not piped; only the profile-level-id of H264 codecs may differ |
| `Routers.RoutersPipe` | mediasouptestcase/src/ortc.ts:569-896 | For two routers created from the same media codecs with the actual table: piping keeps every payload type, the second router offers what the first does, and the first can consume the producer if and only if it has a media codec |
| `Routers.RoutersConsume` | mediasouptestcase/src/ortc.ts:569-995 | For a router created with the actual table, any producer that it accepts and any valid peer: the consumable codecs mirror the producer's; a consumer gets the supported ones without RTX codecs that lost their media codec; it gets any if and only if a media codec is supported; when canConsume refuses nonetheless; and that it never does for a single media codec |
| `ChannelRpc.Channel.constructor` | mediasouptestcase/src/Channel.ts:26-42 | A new channel is open, with no pending request |
| `ChannelRpc.Channel.SendRequest` | mediasouptestcase/src/Channel.ts:230-290 | An id is drawn even when the call fails; the promise is rejected at once if the channel is closed or the message cannot be sent, otherwise pending with a timer and in the map |
| `ChannelRpc.Channel.ProcessMessage` | mediasouptestcase/src/Channel.ts:292-336 | A response settles the promise under its id and removes entry and timer; an unknown id or a response that is neither accepted nor an error changes nothing; `DeliverSettles` says which promise is settled how |
| `ChannelRpc.Channel.OnTimeout` | mediasouptestcase/src/Channel.ts:273-279 | The timer rejects the promise only if the id is still in the map |
| `ChannelRpc.Channel.CloseChannel` | mediasouptestcase/src/Channel.ts:192-205 | Closing rejects every promise in the map and stops its timer; the map itself is not emptied |
| `ChannelRpc.SameId` | mediasouptestcase/src/Channel.ts:232-234 | An id comes back only after a full cycle of 4294967295 calls |
| `ChannelRpc.StepKeeps` | mediasouptestcase/src/Channel.ts:192-336 | Every event keeps: ids in flight are distinct, a promise settled by a reply was settled by the reply to its own request, pending promises are exactly those with a timer and in the map, and none is pending once closed |
| `ChannelRpc.StepSettles` | mediasouptestcase/src/Channel.ts:257-284 | No event changes a settled promise |
| `ChannelRpc.DeliverSettles` | mediasouptestcase/src/Channel.ts:292-336 | Among requests and replies in flight, the reply to a pending call resolves its promise if the worker accepted and rejects it if not, takes its id and its timer away and leaves everything else alone; a reply without a verdict changes nothing, a late one no promise and no timer |
| `ChannelRpc.ExpireSettles` | mediasouptestcase/src/Channel.ts:273-279 | A timeout finds its promise pending, rejects it, takes its id and its timer away and leaves everything else alone |
| `ChannelRpc.ShutSettles` | mediasouptestcase/src/Channel.ts:192-205 | Closing rejects exactly the promises that are pending and stops every timer |
| `ChannelRpc.CallPends` | mediasouptestcase/src/Channel.ts:230-290 | A request that could be sent is pending under an id that no other has, with a timer; one on a closed channel or too big to send is rejected as such; no other promise changes |
| `ChannelRpc.AwaitsStep` | mediasouptestcase/src/Channel.ts:192-336 | A call whose request or reply is under way stays pending through every event but its own reply, its own timeout and close |
| `ChannelRpc.RunKeeps` | mediasouptestcase/src/Channel.ts:192-336 | In every interleaving of requests, answers, deliveries, timeouts and close in which nothing outlives a full cycle of ids: a promise settles at most once, if by a reply then by that of its own request, and after close every promise is settled |
| `ChannelRpc.StartInv` | mediasouptestcase/src/Channel.ts:26-42 | A new channel satisfies what the events keep |
| `ChannelRpc.ReusedIdOrphans` | mediasouptestcase/src/Channel.ts:287-288 | A request followed by close leaves everything settled if and only if the id it drew was not pending |
| `ChannelRpc.ReuseReached` | mediasouptestcase/src/Channel.ts:230-245 | That happens: after one request that stays unanswered and 4294967294 calls too big to send, the next request takes its id, and close leaves the first promise pending with only its timer left to settle it |
| `RpcEndToEnd.StepRefines` | mediasouptestcase/src/Channel.ts:230-336 | With the worker's dispatcher at the other end every step is one that Node's half allows for: a request is answered at most once, with its id, or not at all |
| `RpcEndToEnd.StepKeeps` | mediasouptestcase/src/Channel.ts:192-336 | Every step keeps: requests and replies under way carry the ids of their calls, no call is answered twice, promises are settled as the worker answered, and what Node's half keeps |
| `RpcEndToEnd.RunEndToEnd` | mediasouptestcase/src/Channel.ts:192-336 | Through both pipes and the dispatcher, in every interleaving in which nothing in flight outlives a cycle of ids: a promise settles at most once, resolves only if the worker accepted its own request, is rejected by a reply only if the worker refused it, and after close every promise is settled |
| `RpcEndToEnd.ReplyDecides` | mediasouptestcase/src/Channel.ts:230-336 | Over every run: once the reply to a call has been delivered, with no timeout of it and no close before, its promise is for good resolved if the worker accepted that request and rejected with the worker's error if not |
| `RpcEndToEnd.TimerDecides` | mediasouptestcase/src/Channel.ts:192-284 | Over every run: a timeout decides its promise for good, and close every promise that is pending then |
| `RpcEndToEnd.StartInv` | mediasouptestcase/src/Channel.ts:26-42 | A new channel and a new worker satisfy what the steps keep, and every call may still be decided by its reply |
| `SctpStreams.Transport.constructor` | mediasouptestcase/src/Transport.ts:141-145 | No table yet, cursor at 0 |
| `SctpStreams.Transport.GetNextSctpStreamId` | mediasouptestcase/src/Transport.ts:836-866 | The search loop over the table returns the slot of `Allocate` and moves the cursor, allocating the table on first use; without MIS or free slot it throws |
| `SctpStreams.Transport.TakeStreamId` | mediasouptestcase/src/Transport.ts:756-760 | Drawing and marking together are `Allocate` |
| `SctpStreams.AllocateExact` | mediasouptestcase/src/Transport.ts:836-866 | The slot drawn is free and the first free one in cyclic order from the cursor, is marked then, with the cursor behind it and all else as before; without MIS it is a type error, and drawing fails if and only if every slot is marked |
| `SctpStreams.ReleasedIsLast` | mediasouptestcase/src/Transport.ts:855-859 | A slot released right after it was taken is drawn again if and only if all others are marked |
| `SctpStreams.Transport.OnConsumerClosed` | mediasouptestcase/src/Transport.ts:802-815 | The handlers clear the slot of their data consumer and no other |
| `SctpStreams.DataConsumer.constructor` | mediasouptestcase/src/DataConsumer.ts:88-89 | A new data consumer is open |
| `SctpStreams.DataConsumer.Close` | mediasouptestcase/src/DataConsumer.ts:222-242 | It is closed afterwards and emits "@close" only the first time |
| `SctpStreams.DataConsumer.DataProducerClosed` | mediasouptestcase/src/DataConsumer.ts:365-383 | It is closed afterwards and emits "@dataproducerclose" only if it was open |
| `SctpStreams.DataConsumer.TransportClosed` | mediasouptestcase/src/DataConsumer.ts:249-266 | It is closed afterwards, with nothing emitted to the transport |
| `SctpStreams.Transport.CloseDataConsumer` | mediasouptestcase/src/Transport.ts:802-808 | Closing a data consumer releases its slot once: a second close leaves the table alone |
| `SctpStreams.Transport.CloseByDataProducer` | mediasouptestcase/src/Transport.ts:809-815 | Likewise when the data producer closes |
| `SctpStreams.StepKeeps` | mediasouptestcase/src/Transport.ts:756-815 | Every event keeps: holders have distinct slots below MIS, and the marked slots are exactly those held or leaked, none both |
| `SctpStreams.HoldersKeepTheirSlots` | mediasouptestcase/src/Transport.ts:802-815 | No event but its own end takes the slot of an open or in-flight data consumer, clears its mark or moves it |
| `SctpStreams.RunKeeps` | mediasouptestcase/src/Transport.ts:756-815 | In every run of consumeData, succeeding or failing, and of closing by application, data producer or transport, stream ids held are pairwise distinct and below MIS |
| `SctpStreams.CloseFrees` | mediasouptestcase/src/Transport.ts:802-815 | Closing an open data consumer, from either side, frees its slot and leaks nothing |
| `SctpStreams.ExhaustedIff` | mediasouptestcase/src/Transport.ts:853-865 | With nothing leaked, drawing an id fails if and only if every id below MIS is held |
| `SctpStreams.NothingLeaks` | mediasouptestcase/src/Transport.ts:756-815 | In every run in which no consumeData fails and the transport stays open, slots never leak: ids run out if and only if every one is held by a data consumer that is open or in flight |
| `SctpStreams.StartInv` | mediasouptestcase/src/Transport.ts:141-145 | A new transport satisfies what the events keep |
| `UsrSctp.Registry.constructor` | src/DepUsrSCTP.cpp:56-58 | Nothing registered, count 0, checker stopped |
| `UsrSctp.Registry.GetNextSctpAssociationId` | src/DepUsrSCTP.cpp:125-147 | Whenever some nonzero id is free, the loop ends and returns the first free id from the cursor on, skipping 0 at the wrap, and leaves the cursor behind it |
| `UsrSctp.Registry.RegisterSctpAssociation` | src/DepUsrSCTP.cpp:149-167 | The association is added under its id; ids and associations stay in one-to-one correspondence, the count stays the size of the map and the checker runs exactly when it is not empty |
| `UsrSctp.Registry.DeregisterSctpAssociation` | src/DepUsrSCTP.cpp:169-184 | The association is removed and no other; the count was positive and stays the size of the map, and the checker stops exactly when it becomes empty |
| `UsrSctp.Registry.RetrieveSctpAssociation` | src/DepUsrSCTP.cpp:186-198 | For the id that a callback was given, an association comes back if and only if it is registered and this is its id |
| `UsrSctp.DrawIsFree` | src/DepUsrSCTP.cpp:131-146 | If any nonzero id is free, one is found within one cycle of the cursor, and it is free and nonzero |
| `UsrSctp.StandsNext` | src/DepUsrSCTP.cpp:131-144 | Incrementing modulo 2^64 and skipping 0 visits the nonzero ids in order and starts again after the last |
| `UsrSctp.NeverAborts` | src/RTC/SctpAssociation.cpp:123-285 | Over every run of creating, failing to create and destroying associations: registering never finds its id taken, deregistering always finds it, and the ids of the associations that exist are pairwise distinct and exactly those in the map |
| `UsrSctp.StartInv` | src/DepUsrSCTP.cpp:56-58 | The initial registry satisfies what the events keep |
| `UsrSctp.RunIncreasing` | src/DepUsrSCTP.cpp:125-147 | Over every run of creating, failed creating and destroying, ids are handed out at strictly increasing positions of the cursor |
| `UsrSctp.NoEarlyReuse` | src/DepUsrSCTP.cpp:125-147 | So no id is handed out twice before the cursor has passed all nonzero values |
| `WorkerDispatch.ChannelSocket.constructor` | src/Channel/ChannelSocket.cpp:25-31 | Open, nothing replied or sent |
| `WorkerDispatch.ChannelSocket.Send` | src/Channel/ChannelSocket.cpp:63-80 | A reply reaches the wire unless the channel is closed or the reply too big |
| `WorkerDispatch.ChannelRequest.constructor` | src/Channel/ChannelRequest.cpp:74-117 | A request starts out not replied to |
| `WorkerDispatch.ChannelRequest.Accept` | src/Channel/ChannelRequest.cpp:124-157 | Marks the request replied and makes one accepting reply with its id |
| `WorkerDispatch.ChannelRequest.Refuse` | src/Channel/ChannelRequest.cpp:159-195 | Marks the request replied and makes one error reply of the given kind with its id |
| `WorkerDispatch.Worker.constructor` | src/Worker.cpp:14-45 | Open, without routers |
| `WorkerDispatch.Worker.Close` | src/Worker.cpp:55-84 | Closes the channel and empties the router map, once |
| `WorkerDispatch.Worker.Delegate` | src/Worker.cpp:300-319 | Code outside the dispatcher either replies once, and then nothing is thrown, or throws and nothing was replied |
| `WorkerDispatch.Worker.OnChannelRequest` | src/Worker.cpp:202-321 | Every branch replies once or throws without having replied, changes the router map as `Respond` says, and only worker.close does neither; `RepliesExact` says which request gets which reply |
| `WorkerDispatch.Worker.OnMessage` | src/Channel/ChannelSocket.cpp:126-160 | One message takes worker and channel to `Handle` of their state, and the assertion "request already replied" never fires, not for an unknown method either, which is replied to before the request's constructor throws |
| `WorkerDispatch.OneReplyEach` | src/Channel/ChannelSocket.cpp:126-160 | Over every sequence of messages: the replies made are exactly one for each request with a non-negative integer id and a string method, with its id and in order, none for worker.close and none for anything else |
| `WorkerDispatch.WireExact` | src/Channel/ChannelSocket.cpp:63-80 | Of the replies made over a run exactly those that are not too big reach the wire, in order: a request stays unanswered if and only if it is worker.close or its reply exceeds the limit |
| `WorkerDispatch.OnlyCloseIsSilent` | src/Worker.cpp:211-221 | worker.close is the only request without a reply, and the only one that closes all routers |
| `WorkerDispatch.IdSurvives` | src/Channel/ChannelRequest.cpp:84-84 | Ids that Node draws survive the conversion to 32 bits |
| `WorkerDispatch.RouterStep` | src/Worker.cpp:252-298 | One message puts a router in the map or takes it out exactly as its reply says |
| `WorkerDispatch.RoutersExact` | src/Worker.cpp:252-298 | Over every sequence of messages a router is in the map if and only if some worker.createRouter for it was accepted and no accepted router.close of it and no worker.close came after |
| `WorkerDispatch.AcceptedExactly` | src/Worker.cpp:168-200 | A worker.createRouter is accepted if and only if no such router exists in that sense, a router.close if and only if one does |
| `WorkerDispatch.RepliesExact` | src/Worker.cpp:168-321 | Over every sequence of messages, each one by its method name: worker.close is silent; worker.dump is accepted; worker.getResourceUsage and worker.updateSettings get what the code behind them replies or throws; worker.createRouter is accepted if and only if it names a router that is not alive, router.close if and only if it names one that is; a request for a router gets what the router replies or throws if that router is alive, and an error if it is not or none is named; an unknown name gets an error; what is not a request or comes after closing gets nothing; and which of these replies are sent |
| `WorkerDispatch.ClosedExactly` | src/Worker.cpp:211-221 | The worker has closed if and only if a worker.close was among the messages |
| `Time.ExactlyOneNewer` | include/Utils.hpp:351-362 | Of two distinct timestamps exactly one is newer, at distance 0x80000000 too |
| `Time.AgreesWithRfc1982` | include/Utils.hpp:351-362 | The comparison is that of section 3.2 of RFC 1982; at distance 2^31, which the RFC leaves undefined, the greater number is the newer |
| `Time.NewerIsLater` | include/Utils.hpp:351-362 | Less than 2^31 apart, the wrapped comparison is the comparison of the true values |
| `Time.LatestIsMax` | include/Utils.hpp:364-367 | Folding LatestTimestamp over any sequence whose true values lie in a window of 2^31 gives the wrap of their maximum |
| `Time.FractionRoundTrip` | include/Utils.hpp:334-346 | The milliseconds of a second survive truncation to 2^-32 s and rounding back |
| `Time.NtpExact` | include/Utils.hpp:330-349 | The seconds are those of the time modulo 2^32, and the fraction is the number of whole units of 2^-32 s in its milliseconds |
| `Time.NtpRoundTripIff` | include/Utils.hpp:330-349 | To NTP and back is exact if and only if ms < 1000 * 2^32, and otherwise ms modulo that |
| `Time.AbsSendTimeIsNearest` | include/Utils.hpp:369-372 | Below 2^46 ms the result is the nearest 6.18 fixed-point number of seconds, modulo 64 s |
| `Time.AbsSendTimePeriod` | include/Utils.hpp:369-372 | It repeats every 64000 ms |
| `Time.AbsSendTimeInjective` | include/Utils.hpp:369-372 | Within a period distinct milliseconds have distinct values |
| `Time.Set3Bytes` | include/Utils.hpp:179-184 | The three bytes are the value modulo 2^24, most significant first, Get3Bytes reads it back, and no other byte changes |
| `Time.WriteAbsSendTime` | include/Utils.hpp:153-156 | An absolute send time survives being written to and read from a packet |
| `SeqSet.LowerExact` | src/RTC/SeqManager.cpp:10-22 | What the wrapping comparisons say of true values: right up to distance 32767, reversed from 32769 on, at 32768 decided by the wrapped values |
| `SeqSet.LowerBoundSplits` | src/RTC/SeqManager.cpp:88-88 | When the elements lower than the key come first in the traversal, lower_bound finds where they end in every tree |
| `SeqManager.Renumbering.constructor` | include/RTC/SeqManager.hpp:46-50 | All counters 0, nothing dropped |
| `SeqManager.Renumbering.Sync` | src/RTC/SeqManager.cpp:42-53 | The new state is `Synced` of the old one |
| `SeqManager.Renumbering.Drop` | src/RTC/SeqManager.cpp:55-63 | A number higher than the highest input is inserted where the descent finds its place, once; any other is ignored |
| `SeqManager.Renumbering.Take` | src/RTC/SeqManager.cpp:71-126 | New state and output are those of `Input` |
| `SeqManager.Renumbering.LookAtDropped` | src/RTC/SeqManager.cpp:76-104 | Erasing up to what lower_bound finds and counting by distance from the end give the offset and the tree of `Looked` |
| `SeqManager.RankStep` | src/RTC/SeqManager.cpp:86-103 | Ranks are consecutive on the numbers that are not dropped |
| `SeqManager.RankGrows` | src/RTC/SeqManager.cpp:86-103 | Ranks never fall, rise no faster than the numbers, and rise past every number that is not dropped |
| `SeqManager.PurgeBound` | src/RTC/SeqManager.cpp:79-84 | In any tree, lower_bound(input - MaxValue / 2) counts the entries more than 32767 behind, unless the first other entry met on the way is ahead of the input: then it is the end |
| `SeqManager.NoneAheadIsRight` | src/RTC/SeqManager.cpp:79-84 | With no remembered drop ahead of the input no tree misleads the descent |
| `SeqManager.OverrunMisleads` | src/RTC/SeqManager.cpp:79-84 | With a drop ahead and none among the last 32767 numbers every tree does |
| `SeqManager.LookedRight` | src/RTC/SeqManager.cpp:76-104 | A lookup that is not misled recognises an input as dropped if and only if it was, and otherwise reduces the offset by the number of all dropped numbers below it, remembered or forgotten |
| `SeqManager.LookedWrong` | src/RTC/SeqManager.cpp:76-104 | A lookup that is misled forgets every drop and reduces the offset by all of them, which is too much by 1 to 32768 |
| `SeqManager.InputIff` | src/RTC/SeqManager.cpp:71-126 | For the tree that the set is in: a dropped input gets nothing and any other its rank among those not dropped, if and only if the first entry met on the way to input - 32767 that is not older is not ahead of the input |
| `SeqManager.InputEveryTree` | src/RTC/SeqManager.cpp:71-126 | That is so for every tree with these elements if and only if none of them is ahead of the input |
| `SeqRuns.DropTracks` | src/RTC/SeqManager.cpp:55-63 | Drop keeps the set in step with the true numbers dropped, however it is rearranged |
| `SeqRuns.InputTracks` | src/RTC/SeqManager.cpp:71-126 | So does an Input that is not misled, across the wrap and across forgetting, and its output is the rank |
| `SeqRuns.RunNumbers` | src/RTC/SeqManager.cpp:55-126 | Over every run of drops and inputs within the window, in or out of order, with the set kept in any trees: each input let through gets its rank with respect to everything dropped in the run, before or after it, and dropped inputs get nothing, if and only if no lookup is misled |
| `SeqRuns.RunEveryTree` | src/RTC/SeqManager.cpp:55-126 | From a manager that remembers no drops, a run is numbered so whatever trees the set is kept in, if and only if no input has a remembered drop ahead of it |
| `SeqRuns.MisledForgets` | src/RTC/SeqManager.cpp:79-84 | After a misled lookup the manager numbers as one to which nothing was ever dropped, with all the dropped numbers taken off, those ahead as well |
| `SeqRuns.HighKeeps` | src/RTC/SeqManager.cpp:108-123 | Drop, and Input that is not misled, keep maxOutput the output of the highest input, across the wrap and for inputs out of order |
| `SeqRuns.MaxOutputIsHighest` | src/RTC/SeqManager.cpp:118-123 | Over every run in which no lookup is misled maxOutput is the highest number given, or the one it started with if no higher input came |
| `SeqRuns.NewTracks` | src/RTC/SeqManager.cpp:71-106 | A new manager numbers inputs as they are |
| `SeqRuns.SyncTracks` | src/RTC/SeqManager.cpp:42-53 | Sync starts a new numbering, with nothing dropped, in which the synchronised input stands for maxOutput |
| `SeqRuns.SyncContinues` | src/RTC/SeqManager.cpp:42-53 | So the input after the synchronised one gets the number after the highest one given before |
| `SeqRuns.OverrunDuplicates` | src/RTC/SeqManager.cpp:79-84 | Input 0, drop 3, input 1, input 3: inputs 0 and 1 both get output 0, and the dropped 3 gets 2 |
| `SeqRuns.OrderMatters` | src/RTC/SeqManager.cpp:79-84 | Input 0, drop 5, drop 1, input 2: with 5 at the root both drops are lost and inputs 0 and 2 both get output 0; with the same elements and 1 at the root input 2 gets its rank 1 |

## Left out

- RunNumbers: asks that numbers stay within 32767 of the highest input and of the remembered drops, and that no input is older than what was forgotten, because outside that window the comparison does not order what is inserted and what is looked up.
- InputIff: asks for the same window.
- RunEveryTree: its trees are all search trees; a red-black tree has not all of these shapes, and for the shape that it has RunNumbers is exact.
- GetNextSctpAssociationId: asks for a free id, because the source assumes that there always is one and would not return otherwise.
- RegisterSctpAssociation: asks that the id is new, which the source asserts, and that the association is not yet registered, because only its constructor calls it; NeverAborts shows that the id is new.
- DeregisterSctpAssociation: asks that the association is registered under its id, which the source asserts; NeverAborts shows that it is.
- AbsSendTimeIsNearest: below 2^46 ms only, because the 64-bit shift wraps from there on.
- StepKeeps: for ChannelRpc and RpcEndToEnd a call is made only while nothing in flight is older than a cycle of ids; ReusedIdOrphans shows why. The SctpStreams member of that name has no such condition.
- ValidateIdempotent: mime type, clock rate and payload type are typed, so their absence or wrong type is not refused here, and RTCP feedback is not modelled; lower-casing is ASCII only.
- ProcessData: when a listener throws, listeners called before it have seen the event, each time again; the model records what was emitted without an exception. A response is recorded whether or not a request with its id is pending.
- RTP header extensions, RTCP feedback reduction, the encodings of consumers and pipe consumers, scalability modes and rtcp parameters of the negotiation: filters and copies that would only add easy members.
- validateRtpParameters, SCTP parameter validation and every other validator than that of codec capabilities.
- The text of messages: JSON, UTF-8, log strings, error reasons, and notifications of the main channel.
- PayloadChannel.ts requests: the map of pending requests repeats that of Channel.ts without settling anything on close.
- The worker's receiving side of the payload channel (its parser is the same as ChannelSocket's), its notifications and requests.
- What happens on end of file or an error of the pipe, on write errors, and when the socket is destroyed 200 ms after closing.
- When timers fire: a timeout may come at any time here.
- DirectTransport, on which data consumers have no SCTP stream; the other fields and events of Transport and DataConsumer.
- Several Workers sharing the counters of DepUsrSCTP, its checker's timer, locks, ClassInit and ClassDestroy.
- What routers, transports, producers and consumers do with a request, and their closing and pausing.
- Utils.hpp apart from Time and the three-byte accessors: random numbers, CRC, strings, IP addresses.
- SeqManager::Offset, and the uint8_t and uint32_t instances.
- The other RTC classes (RTP streams, NACK, bandwidth estimation, ICE, DTLS, SRTP, simulcast), and mediasouptestcase/lib, which repeats mediasouptestcase/src in compiled form.
