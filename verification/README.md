# Verification of the RPC, option-map and provider protocols

This project models four components of the repository in Dafny and proves what they are for. `dafny verify dfyconfig.toml` checks everything.

**RPC** (`rpc_*.dfy`). Bytes arrive in chunks of any size, are reassembled by a chunk stream and cut into frames with a 13-byte header; values travel in a tagged, length-prefixed format; a persistent protocol numbers, acknowledges, replays and throttles; a client matches responses with requests. Proved: nothing sent is lost on its way to the listener over any run of two endpoints whose sockets are cut at will, and what a reconnect delivers a second time, exactly; framing does not depend on chunking; serialization and framing round trips; the flow-control invariant, exactly for the limits under which it can hold, and exactly when a session is saturated, silent or given up; one settlement for each request.

**Option maps** (`cel_*.dfy`, `merge_patch.dfy`, `json_values.dfy`). A small expression language is tokenized, parsed and evaluated into a JSON Merge Patch, and the patches of several options are merged into a request body unless they write overlapping paths. Proved: compiling undoes printing, however the text is spaced and its strings are escaped, exactly for the trees the parser does not misread; operators group as their classes say; what choices, comparisons and connectives mean; an arithmetic expression is refused exactly for an unsafe part; compiled maps are type-sound; the caches are invisible; the order of patches matters neither for the conflict check nor for the result.

**Provider refresh** (`provider_*.dfy`, `account_*.dfy`, `refresh_waiters.dfy`). Two services coalesce refresh requests in one loop each, discard rounds that were overtaken, and publish snapshots; a resolver orders and filters what is published; a registry indexes it. Proved: every request is answered at most once and by a round that began after it, no wakeup is lost, what is published is coherent, an entitlement and a state always have a source, and the published list offers exactly the enabled complete models of usable, entitled providers.

**Shared files** (`refresh_lease.dfy`, `personal_config.dfy`, `builtin_release.dfy`). Processes share a lease with back-off, a file that is polled without a lock, and a cached release. Proved: exactly when the lease excludes, fencing and back-off; when the observed version can and cannot go back; the cache is a monotone, confluent maximum.

An algorithm that changes state is a class or a method with loops, proved equal to a function of its inputs or its old state; the theorems are about those functions and about the invariants (`Valid`) that every method keeps. Where a program awaits, its segments between two awaits are the methods, in any order the state allows. Fields marked `ghost` record histories: clocks, what was settled, sent or published.

Where the code and a claim about it part ways, the model follows the code:

- Delivery is not exactly once: a replay can repeat messages, and `incomingAckId` can go back (`TwoEndpoints.ReplayDeliversAgain`). A reconnect repeats a message exactly if it was delivered but had not left the sender's queue (`Redelivery.WhatAReconnectRepeats`); until the first reconnect delivery is exactly once (`Redelivery.FirstSocketIsExactlyOnce`), and acks catch up on any socket that is read to its end (`Redelivery.AcksCatchUp`).
- The limits of the persistent protocol are not checked; the watermarks work exactly for sensible ones (`PersistentProtocols.FlowControlExactlyWhenSensible`).
- The parser compares the text of a token and not its kind, so the string "]" at the start of an array and a first key "}" are taken for brackets (`CelCompileRoundTrip.ClosingTextsAreMisread`).
- A comment in the account resolution says that `current` always comes from this round; an unknown result keeps the old one (`AccountResolution.CurrentComesFromTheRound`).
- A disposed account service may still set its first snapshot (`AccountService.SnapshotAfterDisposal`).
- A registry request can be left waiting while there is no snapshot (`RegistryService.ParkedRequest`).
- The lease does not exclude even holders of the same endpoint once another endpoint has taken over the file (`RefreshLease.TwoEndpointsOverlap`). Exclusion is lost exactly by a try for an endpoint that has a live holder while the file is another endpoint's (`RefreshLease.ExclusionExactly`).
- The observed version of the personal config can go back, if an update fails before anything was observed (`PersonalConfig.VersionGoesBack`).

## Model

| member | source | states |
|---|---|---|
| `TwoEndpoints.NothingLostOverEveryRun` | packages/rpc/src/persistent-protocol.ts:123-227 | Over every run of two endpoints, with sockets cut and replaced at any time on either side: the first deliveries of ids are the messages sent, in order and without a gap; a repeated id repeats its body; every message sent is delivered or still queued for replay; and once a common socket is read to its end everything sent has been delivered. |
| `Listeners.ListenersHaveAllOverEveryRun` | packages/rpc/src/persistent-protocol.ts:200-211 | What the message listeners are told, over every run and on both sides: each body told is the message sent under its id; repeats of ids left out, the bodies told are the first messages sent, in order and without a gap; and all of them once a common socket has been read to its end. |
| `Listeners.ListenedOnceOnFirstSocket` | packages/rpc/src/persistent-protocol.ts:200-211 | While the reader has its first socket, the listener has been told a prefix of the messages sent, each once. |
| `Listeners.ToldOverEveryRun` | packages/rpc/src/persistent-protocol.ts:204-207 | In every reachable state the bodies of the message events are those of the messages read, in order. |
| `TwoEndpoints.InvariantOverEveryRun` | packages/rpc/src/persistent-protocol.ts:123-227 | Every reachable state satisfies the two-way invariant: unread bytes never skip an id, acks never exceed what was delivered, queues hold exactly the end of what was sent. |
| `TwoEndpoints.StepKeepsInvariant` | packages/rpc/src/persistent-protocol.ts:123-275 | Sending, replacing the socket, reading a frame and both timers keep the two-way invariant. |
| `TwoEndpoints.ArrivedBytesAreMessages` | packages/rpc/src/persistent-protocol.ts:149-221 | At the level of bytes, in either direction: any part of a socket's bytes that arrived contains exactly a prefix of the messages written to it. |
| `TwoEndpoints.ReplayDeliversAgain` | packages/rpc/src/persistent-protocol.ts:149-160 | A run in which a message is delivered a second time and the acknowledged id goes back: delivery is not exactly once. |
| `Redelivery.WhatAReconnectRepeats` | packages/rpc/src/persistent-protocol.ts:149-160 | Exactly when a reconnect repeats: from any state of any run, the fresh socket carries the queue, and its message at index i has been delivered before if and only if i is below the highest delivered id minus the number of messages that have left the queue; so nothing is repeated if and only if every delivered message has left the queue. |
| `Redelivery.OnOneSocket` | packages/rpc/src/persistent-protocol.ts:200-211 | Between any two states of a run on one socket of the reader: the ids delivered count up one by one, the acknowledged id is the last of them, and a delivery repeats an earlier one if and only if its id is at most the highest delivered before. |
| `Redelivery.FirstSocketIsExactlyOnce` | packages/rpc/src/persistent-protocol.ts:123-221 | While the reader has its first socket, the deliveries are the messages sent, each once and in order, and the acknowledged id counts them. |
| `Redelivery.AckNeverGoesBackOnFirstSocket` | packages/rpc/src/persistent-protocol.ts:203-206 | On the first socket the acknowledged id never goes back. |
| `Redelivery.AcksCatchUp` | packages/rpc/src/persistent-protocol.ts:200-228 | In any state of any run in which the reader has read a common socket to its end, its ack covers the whole queue of the sender: the next frame with that ack empties the queue, every delivered message has then left it, and a reconnect repeats nothing. |
| `Redelivery.NextFrameConfirms` | packages/rpc/src/persistent-protocol.ts:251-262 | In such a state whatever the reader writes next on its socket empties the sender's queue once it is read, and its keep-alive timer makes it write. |
| `Redelivery.WrittenCarryTheAck` | packages/rpc/src/persistent-protocol.ts:123-262 | Every frame that a send, a read or a timer writes carries the ack of that time. |
| `Redelivery.MirroredIsRun` | packages/rpc/src/persistent-protocol.ts:123-227 | A run with its two sides exchanged is a run, so what is proved of one reader holds of the other. |
| `PersistentProtocols.FlowControlExactlyWhenSensible` | packages/rpc/src/persistent-protocol.ts:123-143 | The watermark invariant holds on every run if and only if low <= high or cap <= high, which the constructor does not check. |
| `PersistentProtocols.SteadyOverEveryRun` | packages/rpc/src/persistent-protocol.ts:123-249 | For such limits, after any inputs: unackBytes is the size of the queue, ids are consecutive, saturation and the cap are respected, Saturated and Drained alternate, and the session is abandoned at most once. |
| `EndpointHistory.ToldExactlyWhatArrived` | packages/rpc/src/persistent-protocol.ts:200-220 | After any inputs: the listener was told exactly the bodies of the Regular frames, in order; the ack is the id of the last of them; the time of the last activity is that of the last frame of any kind. |
| `EndpointHistory.QueueIsWhatWasSent` | packages/rpc/src/persistent-protocol.ts:123-143 | After any inputs, for any limits: the queue holds sendings as they were made, with their time, numbered without a gap up to the last one, and unackBytes counts their bytes. |
| `EndpointHistory.SaturatedExactly` | packages/rpc/src/persistent-protocol.ts:131-143 | For any limits: saturated if and only if some send left more than high bytes queued, but no more than cap, and no frame since has left low or fewer. |
| `EndpointHistory.AbandonedExactly` | packages/rpc/src/persistent-protocol.ts:240-275 | For any limits: given up if and only if some send left more than cap bytes queued, or some check found the oldest queued message sent longer ago than grace. |
| `EndpointHistory.SilenceExactly` | packages/rpc/src/persistent-protocol.ts:264-275 | The socket is reported closed by exactly those checks that come with something queued and more than 20 seconds after the last frame; the peer is reported gone by exactly the Disconnect frames. |
| `PersistentProtocols.DropAckedIsSuffix` | packages/rpc/src/persistent-protocol.ts:224-228 | An ack removes exactly the leading messages it covers. |
| `PersistentProtocols.PersistentProtocol.DoSend` | packages/rpc/src/persistent-protocol.ts:123-143 | Refines the specification of send: numbering, queueing, writing, and the overflow and saturation branches. |
| `PersistentProtocols.PersistentProtocol.DoReplaceSocket` | packages/rpc/src/persistent-protocol.ts:149-160 | The new socket gets exactly the unacknowledged messages, in order, and an empty input stream. |
| `PersistentProtocols.PersistentProtocol.OnData` | packages/rpc/src/persistent-protocol.ts:166-221 | For any chunk: the endpoint becomes what receiving the newly completed frames one by one makes of it; the incomplete tail stays buffered. |
| `PersistentProtocols.PersistentProtocol.DoProcessAck` | packages/rpc/src/persistent-protocol.ts:224-234 | Refines the specification of an ack, with the drained edge. |
| `PersistentProtocols.PersistentProtocol.AbandonSession` | packages/rpc/src/persistent-protocol.ts:240-249 | Writes one Disconnect and closes, the first time only. |
| `PersistentProtocols.PersistentProtocol.OnKeepAliveTimer` | packages/rpc/src/persistent-protocol.ts:251-262 | Writes a KeepAlive that carries the current ack. |
| `PersistentProtocols.PersistentProtocol.OnAckCheckTimer` | packages/rpc/src/persistent-protocol.ts:264-275 | Reports a silent socket, and abandons the session when the oldest message is past the grace period. |
| `Framing.FramesOfTwoParts` | packages/rpc/src/protocol.ts:260-297 | Where the input is cut does not matter: the frames and the tail of two parts are those of the whole. |
| `Framing.FirstFrameRoundTrip` | packages/rpc/src/protocol.ts:222-230 | A written frame in front of any bytes is read back exactly when its fields fit their widths. |
| `Framing.ReadingInvertsWriting` | packages/rpc/src/protocol.ts:222-297 | Any sequence of written messages is read back, followed by the frames of whatever comes behind. |
| `Framing.PartialArrival` | packages/rpc/src/protocol.ts:260-297 | From any prefix of a written stream a prefix of the messages is read, and all of them from the whole stream. |
| `Framing.TailIsIncomplete` | packages/rpc/src/protocol.ts:272-277 | What stays buffered is a suffix of the input that holds no complete frame. |
| `Framing.WriteProtocolMessage` | packages/rpc/src/protocol.ts:222-230 | The buffer written field by field is the encoding of the message. |
| `Framing.WireLayout` | packages/rpc/src/protocol.ts:222-230 | The bytes of a message by position: kind, then id, ack and length with the most significant byte first, then the data from byte 13 on. |
| `Framing.SocketProtocol.OnData` | packages/rpc/src/protocol.ts:243-250 | For every history of chunks, empty ones included: the emitted bodies are the Regular bodies of the complete frames of all bytes received, and the stream holds the tail. |
| `Framing.OnlyRegularIsEmitted` | packages/rpc/src/protocol.ts:260-297 | Of the messages read, exactly those of kind 1 are emitted, in order. |
| `Framing.SocketProtocol.ReadMessages` | packages/rpc/src/protocol.ts:260-297 | The read loop consumes all complete frames and nothing of an incomplete one. |
| `ChunkStreams.ChunkStream.AcceptChunk` | packages/rpc/src/protocol.ts:93-96 | Appends to the contents. |
| `ChunkStreams.ChunkStream.Peek` | packages/rpc/src/protocol.ts:106-129 | The first bytes of the contents, unless there are too few; nothing is consumed. |
| `ChunkStreams.ChunkStream.Read` | packages/rpc/src/protocol.ts:140-176 | In all four branches: takes exactly the first bytes off the contents, or nothing if there are too few. |
| `ChunkStreams.ChunkStream.Skip` | packages/rpc/src/protocol.ts:132-137 | Drops exactly the first bytes of the contents. |
| `Buffers.UInt32RoundTrip` | packages/rpc/src/buffer.ts:72-87 | What writeUInt32BE writes, readUInt32BE reads back, modulo 2^32. |
| `Buffers.Set` | packages/rpc/src/buffer.ts:59-62 | Copies the source into its place and leaves the other bytes alone. |
| `Buffers.Concat` | packages/rpc/src/buffer.ts:36-45 | The result is the buffers one after the other. |
| `Serialization.RoundTrip` | packages/rpc/src/serialization.ts:152-218 | Every value of any depth is read back wherever it stands, and the reader stops right behind it. |
| `Serialization.HeaderThenBody` | packages/rpc/src/serialization.ts:148-151 | A header and a body written one after the other are read back separately. |
| `Serialization.IntegerRoundTrip` | packages/rpc/src/serialization.ts:67-103 | A written integer is read back exactly if it is an int32, negative ones included; the reader stops behind it in any case. |
| `Serialization.AtMostFiveBytes` | packages/rpc/src/serialization.ts:84-103 | An integer takes at most five bytes. |
| `Serialization.FormatIs` | packages/rpc/src/serialization.ts:84-188 | The format in numbers: the seven tags, the length prefixes, and seven bits a byte with the low ones first. |
| `Serialization.OtherwiseUndefined` | packages/rpc/src/serialization.ts:193-218 | Unknown tags and the end of the input read as undefined, using one byte and none. |
| `Serialization.SliceTakes` | packages/rpc/src/serialization.ts:36-40 | How many bytes a read takes for a count that is small, large, negative, or negative past the start. |
| `Serialization.WriteInt32VQL` | packages/rpc/src/serialization.ts:84-103 | The length loop and the writing loop produce the variable-length form of the number's low 32 bits. |
| `Serialization.ReadIntVQL` | packages/rpc/src/serialization.ts:67-76 | The reading loop computes the specified value and advances the reader by the bytes it used, also past the end of the buffer. |
| `Serialization.BufferReader.Read` | packages/rpc/src/serialization.ts:36-40 | The slice from the position on, cut at the end of the buffer; the position moves by what was read. |
| `Serialization.DoSerialize` | packages/rpc/src/serialization.ts:152-188 | Appends the serialized form of the value to what was written. |
| `Serialization.DoDeserialize` | packages/rpc/src/serialization.ts:193-218 | Refines the specified decoding for any bytes and any reader position. |
| `ChannelClients.OrderlyMeans` | packages/rpc/src/channelClient.ts:54-147 | In the history of a client no request is settled twice or sent twice; none is sent before Initialize, or after its settlement, its cancel or the disposal; a response settles only what was sent. |
| `ChannelClients.ChannelClient.Call` | packages/rpc/src/channelClient.ts:54-139 | A new id; rejected at once, sent at once or queued, and pending exactly if unsettled. |
| `ChannelClients.ChannelClient.DoRequest` | packages/rpc/src/channelClient.ts:69-121 | A queued request is sent only if it is still pending and the client is not disposed. |
| `ChannelClients.ChannelClient.OnResponse` | packages/rpc/src/channelClient.ts:232-240 | Settles its own id if that was sent and is pending; late, repeated and foreign responses settle nothing. |
| `ChannelClients.ChannelClient.OnCancellationRequested` | packages/rpc/src/channelClient.ts:129-137 | Cancels and rejects a pending request, once; a settled one is left alone. |
| `ChannelClients.ChannelClient.Dispose` | packages/rpc/src/channelClient.ts:249-274 | Rejects every unsettled request, sent or queued, and nothing else; afterwards every request issued is settled. |
| `CelCompileRoundTrip.CompilingUndoesPrinting` | packages/model-option-map/src/compiler.ts:17-33 | Printing a tree with only the parentheses that precedence and associativity require, without any white space, and compiling the text gives the tree back, exactly for the trees that do not start an array with the string "]" or an object with the key "}". |
| `CelCompileRoundTrip.AnySpellingCompiles` | packages/model-option-map/src/compiler.ts:17-65 | The same for every text that spells the tree's tokens: any white space or none between them and around them, any mix of string escapes and quotes. As an option map the text compiles exactly if, moreover, the tree passes the static object check. |
| `CelCompileRoundTrip.TrimDrops` | packages/model-option-map/src/compiler.ts:59-65 | Normalizing takes all white space around a text and nothing else. |
| `CelSourceText.AnySpellingParses` | packages/model-option-map/src/parser.ts:61-77 | The same for the parser, which does not trim: white space may also stand at the end. |
| `CelSourceText.RenderIsOperand` | packages/model-option-map/src/tokenizer.ts:22-81 | In a printed tree no token can be read on into the next one, so none needs white space behind it. |
| `CelCompileRoundTrip.ClosingTextsAreMisread` | packages/model-option-map/src/parser.ts:182-229 | Two trees that are not given back, because a token's text is compared and not its kind. |
| `CelRoundTrip.ParsingUndoesPrinting` | packages/model-option-map/src/parser.ts:79-214 | The same on tokens, in the presence of whatever the parser makes of misread brackets. |
| `CelGrouping.OperatorsGroup` | packages/model-option-map/src/parser.ts:88-128 | With the operators spelled out in their six classes and any operands x, y, z, in parentheses unless they are primary: x a y b z parses to a grouping on the right if b is of a tighter class than a, and on the left otherwise. |
| `CelGrouping.PrefixBindsTightest` | packages/model-option-map/src/parser.ts:130-145 | A prefix operator !, - or + takes the operand next to it and leaves the binary operator behind it alone. |
| `CelGrouping.ConditionalsAreLoosest` | packages/model-option-map/src/parser.ts:79-86 | x a y ? z : w ? u : v parses with the operator inside the condition and the second conditional inside the last branch of the first. |
| `CelRoundTrip.Reads` | packages/model-option-map/src/parser.ts:79-145 | Every printed expression, wherever it stands and whatever stops behind it, is read back by the level of the ladder it was printed for, or parsing goes astray on a closing text. |
| `CelSpelling.SourceReadsBack` | packages/model-option-map/src/tokenizer.ts:22-81 | A text written token by token is tokenized into those tokens, where two tokens may touch unless the second starts with something that would go on the first. |
| `CelSpelling.StringReadsBack` | packages/model-option-map/src/tokenizer.ts:83-135 | A string literal, each unit written plainly or by any escape that stands for it, has the value that was written. |
| `CelSpelling.EveryUnitCanBeWritten` | packages/model-option-map/src/tokenizer.ts:112-119 | Every code unit has a spelling in every string. |
| `CelLexicon.OneEscape` | packages/model-option-map/src/tokenizer.ts:106-135 | A string literal of one escape has the listed value, or is an error; both for each possible character and quote. |
| `CelLexicon.NumbersAre` | packages/model-option-map/src/tokenizer.ts:76-81 | An integer part without a leading zero, an optional fraction and an optional exponent together are one number token. |
| `CelLexicon.NumbersHaveParts` | packages/model-option-map/src/tokenizer.ts:76-81 | And every number token has such parts. |
| `CelLexicon.WordsAre` | packages/model-option-map/src/tokenizer.ts:50-55 | Letters, digits and underscores that do not start with a digit are one identifier. |
| `CelLexicon.WordsMean` | packages/model-option-map/src/parser.ts:158-171 | As an operand a word is the input, true, false or null, or an error. |
| `CelTokenizer.Tokenize` | packages/model-option-map/src/tokenizer.ts:22-73 | The loop computes the token stream, or the first error. |
| `CelTokenizer.ReadString` | packages/model-option-map/src/tokenizer.ts:83-124 | The loop computes the value and the end of a string, or its error. |
| `CelTokenizer.Tokens` | packages/model-option-map/src/tokenizer.ts:22-73 | A successful result has exactly one end marker, at its end. |
| `CelParser.Parser.ParseAll` | packages/model-option-map/src/parser.ts:61-77 | The class with its moving index computes the grammar's result and error for every token stream. |
| `CelParser.Parser.ParseConditional` | packages/model-option-map/src/parser.ts:79-86 | Refines the grammar and ends, on success, at the position the grammar gives. |
| `CelParser.Parser.ParseBinary` | packages/model-option-map/src/parser.ts:88-128 | The loop groups the operators of one level to the left, as the grammar does. |
| `CelParser.Parser.ParseUnary` | packages/model-option-map/src/parser.ts:130-145 | Refines the grammar of prefix operators. |
| `CelParser.Parser.ParsePrimary` | packages/model-option-map/src/parser.ts:147-180 | Refines the grammar of literals, names and brackets, with every error. |
| `CelParser.Parser.ParseArray` | packages/model-option-map/src/parser.ts:182-190 | The do-while loop refines the grammar of arrays. |
| `CelParser.Parser.ParseObject` | packages/model-option-map/src/parser.ts:192-214 | The do-while loop refines the grammar of objects, repeated keys being refused. |
| `CelParser.ConditionalAt` | packages/model-option-map/src/parser.ts:79-214 | Every successful parse moves on and stays before the end marker, which is why parsing terminates. |
| `CelEvaluator.ParserBuildsOnlyBuildable` | packages/model-option-map/src/parser.ts:147-214 | Whatever the tokens, a tree the parser returns has only known operators, JSON-safe numbers and no repeated key. |
| `CelEvaluator.EvaluationIsSafe` | packages/model-option-map/src/evaluator.ts:17-166 | For such a tree and any arithmetic, the value has only JSON-safe numbers at any depth, or the error is one of four; never an unsupported operator. |
| `CelEvaluator.EveryEntryIsKept` | packages/model-option-map/src/evaluator.ts:25-36 | An object literal yields exactly its entries, each key with the value of its own expression. |
| `CelEvaluator.EqualityIsStructural` | packages/model-option-map/src/evaluator.ts:180-199 | jsonEquals is structural equality, whatever the order of keys and whatever shares memory. |
| `CelEvaluator.RefusedExactlyForUnsafeParts` | packages/model-option-map/src/evaluator.ts:52-120 | On every platform, whatever its five operations compute: an arithmetic expression is refused as unsafe if and only if one of its parts, at any depth, has a value that is not JSON-safe; otherwise checking changes nothing. |
| `CelMeaning.ChoiceByText` | packages/model-option-map/src/evaluator.ts:45-48 | input == k ? x : y has the value or error of x on the string k, and of y on every other string. |
| `CelMeaning.OptionMapChooses` | packages/model-option-map/src/compiler.ts:46-53 | An option map of that shape gives the first patch on the string k and the second on every other. |
| `CelMeaning.ChoiceOfTruthValues` | packages/model-option-map/src/evaluator.ts:45-48 | c ? true : false is c, where a boolean is wanted, with the same error otherwise. |
| `CelMeaning.ConnectivesChoose` | packages/model-option-map/src/evaluator.ts:62-72 | x && y is x ? y : false and x &#124;&#124; y is x ? true : y, with a boolean wanted of every operand that is evaluated. |
| `CelMeaning.ChoiceByConnectives` | packages/model-option-map/src/evaluator.ts:62-72 | Where a boolean is wanted, c ? x : y and (c && x) &#124;&#124; (!c && y) have the same value or the same error, for all c, x and y. |
| `CelMeaning.EqualComparesValues` | packages/model-option-map/src/evaluator.ts:76-79 | == is true exactly for equal values, and != exactly for different ones. |
| `CelMeaning.ComparisonsCompare` | packages/model-option-map/src/evaluator.ts:122-145 | The four comparisons of finite numbers are those of the reals, and those of strings the dictionary order by code units. |
| `CelMeaning.SignsAndJoins` | packages/model-option-map/src/evaluator.ts:52-85 | Negation, the two signs, and + of two strings and of a string and something else. |
| `CelMeaning.WrongOperands` | packages/model-option-map/src/evaluator.ts:52-159 | Operands of the wrong kind are refused, each operator with its own error. |
| `CelMeaning.SafeNumbers` | packages/model-option-map/src/evaluator.ts:161-166 | The safe numbers are the integers up to 2^53 - 1 either way and all fractions. |
| `CelMeaning.ArrayHasItsElements` | packages/model-option-map/src/evaluator.ts:23-24 | An array literal has the values of its elements in order, or the error of the first element that fails. |
| `CelMeaning.ObjectFailsFirst` | packages/model-option-map/src/evaluator.ts:25-36 | An object literal that fails has the error of its first entry that fails. |
| `CelMeaning.CheckedExactly` | packages/model-option-map/src/compiler.ts:80-88 | The static check passes exactly if every expression that may be the result, at any depth of conditionals, is an object literal. |
| `CelMeaning.RunsOnScalars` | packages/model-option-map/src/evaluator.ts:9-15 | Programs run on strings and safe numbers only, and then give what evaluation gives. |
| `CelEvaluator.DeMorgan` | packages/model-option-map/src/evaluator.ts:52-72 | !(a && b) and !a &#124;&#124; !b have the same value or the same error, for all expressions. |
| `CelEvaluator.ComparisonsAgree` | packages/model-option-map/src/evaluator.ts:122-145 | Of two numbers or two strings exactly one is less, or they are equal; the four operators agree with each other and with equality. |
| `CelEvaluator.StringsAreOrdered` | packages/model-option-map/src/evaluator.ts:136-140 | The order of strings is total. |
| `CelEvaluator.StringOrderIsTransitive` | packages/model-option-map/src/evaluator.ts:136-140 | The order of strings is transitive. |
| `CelCompiler.CompiledMapsAreSafe` | packages/model-option-map/src/compiler.ts:35-57 | A compiled option map gives an object with JSON-safe numbers or one of the operand and input errors: the run-time object check and the unsupported-operator branch are never reached. |
| `CelCompiler.TrimDropsOnlySpace` | packages/model-option-map/src/compiler.ts:59-65 | Normalizing a source drops white space from both ends and nothing else. |
| `CelCompiler.CacheKeyIsInjective` | packages/model-option-map/src/compiler.ts:76-78 | Cache keys of different sources or names differ, whatever the sources contain. |
| `CelCompiler.Compiler.CompileModelOptionMap` | packages/model-option-map/src/compiler.ts:35-57 | The caches are invisible: in every reachable state the result is that of compiling anew. |
| `CelCompiler.Compiler.CompileRestrictedCel` | packages/model-option-map/src/compiler.ts:17-33 | Likewise for programs. |
| `CelCompiler.ApplyOptions` | packages/model-option-map/src/option-maps.ts:20-42 | Both maps applied to a body: the result is that of either order, or a conflict, exactly if they write overlapping paths. |
| `MergePatch.OrderDoesNotMatter` | packages/model-option-map/src/merge-patch.ts:13-33 | For every permutation of a patch list the verdict of the conflict check is the same, and if it accepts, so is the resulting JSON. |
| `MergePatch.ApplyOrderedJsonMergePatches` | packages/model-option-map/src/merge-patch.ts:13-33 | Merges in order if and only if no two patches write overlapping paths; a reported conflict names real writers of overlapping paths. |
| `MergePatch.MergeCommutes` | packages/model-option-map/src/merge-patch.ts:63-78 | Two patches that do not clash commute. |
| `MergePatch.EveryPatchTakesEffect` | packages/model-option-map/src/merge-patch.ts:13-33 | In the result of an accepted list, every written path has what its patch asked for. |
| `MergePatch.ListLeavesAlone` | packages/model-option-map/src/merge-patch.ts:63-78 | Every path that overlaps no written path looks up the same before and after the whole list. |
| `MergePatch.PrefixFree` | packages/model-option-map/src/merge-patch.ts:35-57 | The written paths of one patch are prefix-free, so it never conflicts with itself. |
| `MergePatch.MergeIsIdempotent` | packages/model-option-map/src/merge-patch.ts:63-78 | Merging a patch twice is merging it once. |
| `MergePatch.MergeFollowsRfc` | packages/model-option-map/src/merge-patch.ts:63-78 | The merge is that of section 2 of RFC 7396. |
| `MergePatch.CollectWrittenPaths` | packages/model-option-map/src/merge-patch.ts:35-49 | Collects every written path, once, in whatever order keys are visited. |
| `MergePatch.PathsOverlap` | packages/model-option-map/src/merge-patch.ts:51-57 | One path is a prefix of the other. |
| `MergePatch.MergeObject` | packages/model-option-map/src/merge-patch.ts:63-78 | The loop over keys, in whatever order, computes the merge. |
| `RegistryService.ProviderRegistryService.ReadsSucceeded` | packages/provider/src/registry-service.ts:202-253 | A round that was overtaken, or a disposed service, publishes and settles nothing. Otherwise, if the two sources are based on one built-in revision, every waiter is settled, whoever gets a snapshot gets one with the two revisions read, and a snapshot with exactly what was read is published if and only if a revision is new and the resolver succeeds; if they are not, nothing is published, and the waiters get the old snapshot or stay parked if there is none. |
| `RegistryService.ProviderRegistryService.ReadsFailed` | packages/provider/src/registry-service.ts:194-200 | An overtaken round starts over; another rejects all waiters. |
| `RegistryService.ProviderRegistryService.RequestRefresh` | packages/provider/src/registry-service.ts:150-172 | A new generation and waiter; the loop runs afterwards. |
| `RegistryService.ProviderRegistryService.BeginRound` | packages/provider/src/registry-service.ts:180-192 | From the head of the loop on, the invariant holds: each request is waiting or settled, fairly and once, and outstanding requests keep the loop going. |
| `RegistryService.ProviderRegistryService.LoopSettled` | packages/provider/src/registry-service.ts:165-178 | Requests that arrived after the last round restart the loop; the rejection handler never rejects anyone. |
| `RegistryService.ProviderRegistryService.Dispose` | packages/provider/src/registry-service.ts:133-141 | Every waiter is rejected once; by ReadsSucceeded nothing is published afterwards. |
| `RegistryService.ProviderRegistryService.Publish` | packages/provider/src/registry-service.ts:232-246 | The published snapshot pairs the overlay with its built-in revision and carries the current view, whose indexes agree. |
| `RegistryService.NobodyHangs` | packages/provider/src/registry-service.ts:150-178 | In every reachable state a waiting request has a loop at work, or there never was a snapshot; its round began to read after it was issued. |
| `RegistryService.ResolvedSawTheSources` | packages/provider/src/registry-service.ts:202-253 | In every reachable state, for every request that got a snapshot: both sources were read after it was issued, and if they were based on one built-in revision, the snapshot has the revisions read. |
| `RegistryService.EventNamesItsRequests` | packages/provider/src/registry-service.ts:181-185 | The event of a publishing round names the reasons of the requests it answers. |
| `RegistryService.ParkedRequest` | packages/provider/src/registry-service.ts:205-212 | A request that is left waiting with no loop running: the sources disagreed before there was any snapshot. |
| `RegistryService.TheResolverNeverRepeats` | packages/provider/src/registry-service.ts:221-232 | The registry never refuses what the resolver publishes; where the resolver throws, nothing is published. |
| `RefreshWaiters.WaitersAfter` | packages/provider/src/registry-service.ts:257-273 | Settling keeps exactly the waiters of later generations, in order. |
| `RefreshWaiters.SettledAccounted` | packages/provider/src/registry-service.ts:257-273 | Settling the waiters up to a generation keeps every request either waiting or settled, and every settlement fair. |
| `AccountService.AccountProviderService.ConfigReread` | packages/provider/src/account-provider-service.ts:171-198 | A round overtaken by a request or a built-in change leaves no trace and starts over; another becomes the snapshot and answers everybody. |
| `AccountService.AccountProviderService.ConnectionsResolved` | packages/provider/src/account-provider-service.ts:159-169 | An unacceptable connection or disposal fails the round; otherwise the round goes on with what the connections make of the previous overlay. |
| `AccountService.AccountProviderService.FailRound` | packages/provider/src/account-provider-service.ts:199-213 | A failed first round gives the fail-closed snapshot, disposed or not; a later one rejects exactly the requests made before it began. |
| `AccountService.AccountProviderService.RequestRefresh` | packages/provider/src/account-provider-service.ts:112-134 | Starts the loop only if none is at work; otherwise the reason is pending. |
| `AccountService.AccountProviderService.Read` | packages/provider/src/account-provider-service.ts:64-71 | The snapshot, the outcome of the loop at work, or a new request; a first read does not queue a second round. |
| `AccountService.AccountProviderService.BeginRound` | packages/provider/src/account-provider-service.ts:148-155 | The loop never ends without a snapshot, and after its head all requests so far are covered. |
| `AccountService.AccountProviderService.LoopSettled` | packages/provider/src/account-provider-service.ts:136-146 | Requests that arrived while a round failed get a new loop. |
| `AccountService.AccountProviderService.Dispose` | packages/provider/src/account-provider-service.ts:91-100 | Every waiter is rejected once. |
| `AccountService.NobodyHangs` | packages/provider/src/account-provider-service.ts:112-217 | In every reachable state a waiting request has a loop at work and is covered by its round or by pending reasons. |
| `AccountService.EntitlementsAreExplained` | packages/provider/src/account-provider-service.ts:157-208 | In every reachable state a provider is entitled exactly if an accepted round reported it available and every accepted round since kept it; discarded rounds do not count. |
| `AccountService.StatesAreExplained` | packages/provider/src/account-provider-service.ts:157-208 | In every reachable state there is a state for a provider exactly if some round said something of it and all since were silent, and it says what these rounds said. |
| `AccountService.SnapshotAfterDisposal` | packages/provider/src/account-provider-service.ts:199-208 | A disposed service may still set its first snapshot. |
| `AccountResolution.EntitlementHasASource` | packages/provider/src/account-provider-resolution.ts:92-141 | Over any sequence of accepted rounds: entitled if and only if some round granted it and all since kept it; the overlay is then that of the granting round. |
| `AccountResolution.RevocationLasts` | packages/provider/src/account-provider-resolution.ts:105-138 | What a round revoked or dropped stays so until a later round grants it. |
| `AccountResolution.NotGranted` | packages/provider/src/account-provider-resolution.ts:105-138 | A pending provider has its models but no entitlement; one made unavailable or forgotten has neither. |
| `AccountResolution.StateHasASource` | packages/provider/src/account-provider-resolution.ts:61-86 | Over any rounds: availability and reason are those of the last round that knew something, asked to forget, or followed one without a result; current and effectiveAt are the last ones given since; the connection key is that of the last round. |
| `AccountResolution.ResolveAccountProviderConfigs` | packages/provider/src/account-provider-resolution.ts:92-141 | Fails exactly on unacceptable connections; otherwise computes the overlay of every configured account provider and of no other. |
| `AccountResolution.IndexConnections` | packages/provider/src/account-provider-resolution.ts:147-170 | Fails exactly on repeated, unconfigured or non-account results; otherwise indexes them. |
| `AccountResolution.AcceptableMeans` | packages/provider/src/account-provider-resolution.ts:147-170 | Acceptable connections are results for configured account providers, at most one for each. |
| `AccountResolution.NormalizeModelIds` | packages/provider/src/account-provider-resolution.ts:172-180 | The loop trims each id and keeps the others' order, leaving out the empty ones. |
| `AccountResolution.NormalizedIds` | packages/provider/src/account-provider-resolution.ts:172-180 | The normalized ids are exactly the trimmed ones that are not empty. |
| `AccountResolution.NormalizedOfTwoParts` | packages/provider/src/account-provider-resolution.ts:172-180 | Normalizing keeps the order. |
| `AccountResolution.StatesAgreeWithOverlays` | packages/provider/src/account-provider-resolution.ts:66-80 | A state says entitled exactly if the overlay of its round does. |
| `AccountResolution.ResolveRound` | packages/provider/src/account-provider-resolution.ts:47-89 | Overlay and states of a round. |
| `AccountResolution.StatesFollowConnections` | packages/provider/src/account-provider-resolution.ts:61-86 | There is a state for exactly the providers with a connection result. |
| `AccountResolution.CurrentComesFromTheRound` | packages/provider/src/account-provider-resolution.ts:67-84 | `current` is the value of this round, except exactly when the round knows nothing, does not reset, and an old value survives. |
| `ProviderRegistries.ProviderRegistry.Replace` | packages/provider/src/registry.ts:94-99 | The view is replaced in any case; the indexes agree with it exactly when accepted, that is, if no id repeats. |
| `ProviderRegistries.ProviderRegistry.RebuildIndexes` | packages/provider/src/registry.ts:106-125 | The nested loops build indexes that agree with a linear scan, or leave the old ones and fail on a repeated id. |
| `ProviderRegistries.ProviderRegistry.GetModel` | packages/provider/src/registry.ts:70-72 | Finds what a linear scan finds. |
| `ProviderRegistries.ProviderRegistry.ValidateSelection` | packages/provider/src/registry.ts:74-92 | Valid exactly if the view lists the provider, the model there, and the model supports the level; otherwise the first thing missing. |
| `ProviderResolver.ResolvedProvidersOfferTheExecutable` | packages/provider/src/resolver.ts:217-334 | The published list repeats no id and offers exactly the executable models of the effective providers, each with its own configuration. |
| `ProviderEntitlement.PublishedModelsAre` | packages/provider/src/resolver.ts:249-333 | On the fields of the input: a model is published, with its own configuration and levels, if and only if it is an enabled complete model of a provider that is current, complete, of a known template if of any, and entitled if it is an account provider or not switched off if it is another. |
| `ProviderEntitlement.PublishedProvidersAre` | packages/provider/src/resolver.ts:249-333 | A provider is published if and only if it is such a provider and has such a model. |
| `ProviderEntitlement.RevokingRemovesIt` | packages/provider/src/resolver.ts:249-255 | Taking the entitlement from an account provider takes its models from every lookup and changes no other. |
| `ProviderEntitlement.GrantingOffersIt` | packages/provider/src/resolver.ts:249-255 | Granting it to one that lacks nothing else offers exactly its enabled complete models and changes no other lookup. |
| `ProviderEntitlement.PublishedWereGranted` | packages/provider/src/resolver.ts:249-255 | With the entitlements of any rounds of account queries: a published account provider was reported available by some round and kept by every round since. |
| `ProviderEntitlement.FailClosedPublishesNone` | packages/provider/src/resolver.ts:249-255 | With the entitlements of a fail-closed start no account provider is published. |
| `ProviderEntitlement.ModelsInTheirOrder` | packages/provider/src/resolver.ts:237-248 | The models of a published provider come in its model order: unordered built-in ones, ordered ones, other personal ones. |
| `ProviderEntitlement.ProvidersInTheirOrder` | packages/provider/src/resolver.ts:355-376 | Of any two published providers the first belongs there: families in effective order, then the others by the requested order. |
| `ProviderResolver.PublishedInOrder` | packages/provider/src/resolver.ts:217-334 | Published providers keep the order of all providers. |
| `ProviderResolver.Resolve` | packages/provider/src/resolver.ts:217-334 | The loop computes the published list. |
| `ProviderResolver.ResolveModels` | packages/provider/src/resolver.ts:237-323 | The executable models of a provider in its model order. |
| `ProviderOrder.ProviderOrderIsAPermutation` | packages/provider/src/resolver.ts:355-376 | The provider order is a permutation of the effective keys, whatever order is requested. |
| `ProviderOrder.FamiliesComeFirst` | packages/provider/src/resolver.ts:355-376 | The families come first in effective order; the others are sorted by rank and position. |
| `ProviderOrder.OwnedOrderIsOrdered` | packages/provider/src/owned-order.ts:7-23 | Every member once: unordered built-in ones, then ordered ones, then the other personal ones, each class in the order of its list. |
| `ProviderOrder.OrderedIsUnique` | packages/provider/src/owned-order.ts:7-23 | No other list is in that order. |
| `ProviderOrder.OrderIsStable` | packages/provider/src/owned-order.ts:7-23 | Requesting the order one has changes nothing. |
| `ProviderOrder.UniqueInOrder` | packages/provider/src/owned-order.ts:25-34 | The loop keeps the first occurrences. |
| `RefreshLease.ExclusionExactly` | packages/provider-node/src/zcode-builtin-remote-synchronizer.ts:81-168 | Over any run of any processes with any endpoints: no two holders of one endpoint are within their lease time in any state up to the k-th, if and only if no step up to there was a try for an endpoint that has a live holder while the file was another endpoint's. |
| `RefreshLease.StepKeepsExclusion` | packages/provider-node/src/zcode-builtin-remote-synchronizer.ts:86-101 | One step from a state with exclusion: exclusion is kept if and only if the step is not such a try, and a live holder of the file's endpoint then has the lease in the file. |
| `RefreshLease.AtMostOneLiveHolder` | packages/provider-node/src/zcode-builtin-remote-synchronizer.ts:81-168 | Without such a try each endpoint has at most one live holder, and the one of the file's endpoint has the lease there. |
| `RefreshLease.OneEndpointExcludes` | packages/provider-node/src/zcode-builtin-remote-synchronizer.ts:81-168 | Processes with one endpoint never make such a try, so at most one holder is within its lease time. |
| `RefreshLease.AcquiredOnlyWhenFree` | packages/provider-node/src/zcode-builtin-remote-synchronizer.ts:86-101 | A live holder whose lease is in the file keeps out exactly the tries for its endpoint, forced or not. As long as exclusion was never broken, a live holder whose lease has left the file keeps nobody out: a try for its endpoint succeeds, and is the one that breaks the exclusion. |
| `RefreshLease.AcquiredExactly` | packages/provider-node/src/zcode-builtin-remote-synchronizer.ts:86-101 | In any state of any run: a try succeeds if and only if it is for another endpoint than the file's, or the lease in the file is past its time and the try is forced or the delay called for by the last outcome is over; it then has the lease for its duration, and changes nothing otherwise. |
| `RefreshLease.TwoEndpointsOverlap` | packages/provider-node/src/zcode-builtin-remote-synchronizer.ts:86-101 | A run with a try of the kind that ExclusionExactly names: two holders of one endpoint are within their time at once, because another endpoint took over the file in between. |
| `RefreshLease.ReplacedHoldersAreFenced` | packages/provider-node/src/zcode-builtin-remote-synchronizer.ts:141-168 | A holder whose lease left the file never gets it back, and its finish changes nothing. |
| `RefreshLease.NoEarlyRefresh` | packages/provider-node/src/zcode-builtin-remote-synchronizer.ts:86-101 | A refresh that is not forced never starts before the delay called for by the last effective finish is over. |
| `RefreshLease.StepKeepsRecord` | packages/provider-node/src/zcode-builtin-remote-synchronizer.ts:141-168 | failureCount is the run of effective failures since the last success, and nextEligibleAt the time of the last effective finish plus its delay. |
| `RefreshLease.DelayGrows` | packages/provider-node/src/zcode-builtin-remote-synchronizer.ts:151-159 | The failure delay grows with the failures and never exceeds the maximum. |
| `RefreshLease.DelayDoubles` | packages/provider-node/src/zcode-builtin-remote-synchronizer.ts:151-159 | The first failure costs the base delay and every further one twice the delay before, both up to the maximum. |
| `RefreshLease.RemoteSynchronizer.TryAcquire` | packages/provider-node/src/zcode-builtin-remote-synchronizer.ts:86-108 | The locked segment is a step Try of the system of all processes; the process gets a lease exactly if that step makes a holder of it, and one disposed by then goes on to give it back as cancelled. |
| `RefreshLease.RemoteSynchronizer.FinishLease` | packages/provider-node/src/zcode-builtin-remote-synchronizer.ts:141-168 | The locked segment is a step Complete of the system for the lease the process has, fencing included. |
| `RefreshLease.OthersKeepValid` | packages/provider-node/src/zcode-builtin-remote-synchronizer.ts:81-168 | Whatever step other processes and the clock take between two segments, a process with a lease remains an unfinished holder of its endpoint. |
| `RefreshLease.SegmentKeepsApart` | packages/provider-node/src/zcode-builtin-remote-synchronizer.ts:81-168 | Whatever segment a process runs: every other process remains an unfinished holder of what it holds, and no two processes have the same lease. |
| `RefreshLease.AcquireAmong` | packages/provider-node/src/zcode-builtin-remote-synchronizer.ts:86-108 | A process object among any others tries for the lease: their leases remain different, and exclusion is kept if and only if the try does not break it. |
| `RefreshLease.FinishAmong` | packages/provider-node/src/zcode-builtin-remote-synchronizer.ts:141-168 | A process object among any others finishes its lease and nobody else's; exclusion is kept. |
| `RefreshLease.NotBothLive` | packages/provider-node/src/zcode-builtin-remote-synchronizer.ts:81-168 | While exclusion holds, of two process objects with leases of one endpoint at most one is within its time. |
| `RefreshLease.RemoteSynchronizer.EndpointResolvedAgain` | packages/provider-node/src/zcode-builtin-remote-synchronizer.ts:109-120 | A release is applied only for the endpoint whose lease the process has in the system; otherwise it keeps the lease and goes on to finish it. |
| `PersonalConfig.PersonalConfigRepository.PollRead` | packages/provider-node/src/personal-provider-config-repository.ts:190-217 | A poll begun before a write that was counted leaves no trace; the version observed goes back exactly if the poll was at risk and read something earlier. |
| `PersonalConfig.PersonalConfigRepository.ReadFinished` | packages/provider-node/src/personal-provider-config-repository.ts:54-67 | Only a first observation during a poll that began before it puts that poll at risk; polling goes on afterwards, as the invariant says. |
| `PersonalConfig.PersonalConfigRepository.ObserveWrite` | packages/provider-node/src/personal-provider-config-repository.ts:83-91 | A local write is observed as the latest version, never an earlier one, and leaves no poll at risk; polling goes on afterwards. |
| `PersonalConfig.PersonalConfigRepository.ReadLocked` | packages/provider-node/src/personal-provider-config-repository.ts:74-75 | Under the lock the latest version is read, and it is remembered which one it was. |
| `PersonalConfig.PersonalConfigRepository.Commit` | packages/provider-node/src/personal-provider-config-repository.ts:76-83 | Whatever happened since the locked read, the version read is still the latest when the file is replaced by its transform: no other process's write is lost. |
| `PersonalConfig.PersonalConfigRepository.CountWrite` | packages/provider-node/src/personal-provider-config-repository.ts:143-151 | Counting a write overtakes the poll at work. |
| `PersonalConfig.PersonalConfigRepository.Release` | packages/provider-node/src/personal-provider-config-repository.ts:69-95 | Only a failed update before any observation starts polling with nothing observed. |
| `PersonalConfig.PersonalConfigRepository.PollFailed` | packages/provider-node/src/personal-provider-config-repository.ts:201-213 | Only the first failure in a row is reported, and none of an overtaken poll. |
| `PersonalConfig.OthersWrite` | packages/provider-node/src/personal-provider-config-repository.ts:190-200 | Writes of other processes at any time keep the invariant. |
| `PersonalConfig.NothingIsTakenBack` | packages/provider-node/src/personal-provider-config-repository.ts:190-200 | Unless an update failed before anything was observed, no poll can take an observed version back. |
| `PersonalConfig.VersionGoesBack` | packages/provider-node/src/personal-provider-config-repository.ts:54-95 | Otherwise one can: a run in which the observed version goes back. |
| `BuiltinRelease.RunIsMonotone` | packages/provider-node/src/zcode-builtin-provider-config-source.ts:64-113 | Over every sequence of locked steps the current revision never decreases and is at least the bundled one. |
| `BuiltinRelease.EndsAtTheNewest` | packages/provider-node/src/zcode-builtin-provider-config-source.ts:64-84 | Applying releases with one content per revision ends at the newest of them and of what was current. |
| `BuiltinRelease.NoStepConflicts` | packages/provider-node/src/zcode-builtin-provider-config-source.ts:64-84 | No step of such a run reports a conflict. |
| `BuiltinRelease.OrderDoesNotMatter` | packages/provider-node/src/zcode-builtin-provider-config-source.ts:64-84 | Any order, with repetitions and reads in between, ends with the same release. |
| `BuiltinRelease.StepIsMonotone` | packages/provider-node/src/zcode-builtin-provider-config-source.ts:64-113 | A step changes what is current only to a newer release, the one applied; the active file then holds what is current. |
| `BuiltinRelease.CurrentIs` | packages/provider-node/src/zcode-builtin-provider-config-source.ts:180-206 | Of two releases the newer one is current, the bundled one if they are of one revision, and the readable one if only one is. |
| `BuiltinRelease.VerdictsMean` | packages/provider-node/src/zcode-builtin-provider-config-source.ts:64-84 | Updated, stale, unchanged and conflict each hold exactly when the release stands so to the current one. |
| `BuiltinRelease.BundledWinsConflicts` | packages/provider-node/src/zcode-builtin-provider-config-source.ts:180-193 | A cached release that contradicts the bundled one of its revision is replaced by it in any step, or by the newer release that the step applies. |
| `BuiltinRelease.BuiltinConfigSource.ApplyRemoteRelease` | packages/provider-node/src/zcode-builtin-provider-config-source.ts:64-84 | Refines the specification, with its verdict; only an update is observed and reported. |
| `BuiltinRelease.BuiltinConfigSource.Read` | packages/provider-node/src/zcode-builtin-provider-config-source.ts:49-62 | The current release, or the bundled one if the cache is not usable; the first is observed. |
| `BuiltinRelease.BuiltinConfigSource.WatchRefresh` | packages/provider-node/src/zcode-builtin-provider-config-source.ts:133-147 | Reports a change only if what is current is not what was observed. |

## Left out

- VSBuffer sharing: slices and chunks are values, so a later write through a shared buffer is not modelled.
- Sockets, timers, file watching, locks and clocks: only the steps they cause, in any order; one clock for all processes of the lease, which does not run backwards.
- Reentrant listeners: a listener only records; it does not call send, refresh or dispose from inside an event, and does not throw.
- UTF-8, JSON text and hashes: parameters of the model, with the round trips a theorem needs in its requires.
- Object JSON with nested byte arrays, and -0: the marker and the sign of zero are not modelled.
- Rounding: the five arithmetic operations are parameters, so every result holds for any five operations and nothing is said about which numbers they give.
- Offsets and messages of errors: an error is known by its kind.
- JSON key order: objects are maps, so the order of keys in a result, and which of several conflicts is reported first, is not modelled.
- Serialization.RoundTrip: a string or buffer of 2^31 bytes or more is not covered, because its length is written as a signed 32-bit number.
- TwoEndpoints.NothingLostOverEveryRun: covers fewer than 2^32 messages a side, because ids are 32 bits wide on the wire.
- RegistryService.ProviderRegistryService.Publish: requires providers without repeated ids; that the resolver never repeats one is proved separately.
- PersonalConfig.NothingIsTakenBack: excludes runs in which an update failed before anything was observed, because there the code does take versions back.
- Decoding and canonical form of the personal config file: a version is its revision.
- BuiltinRelease.BuiltinConfigSource.Read: the locked read and write is one step, so disposal in its middle is not modelled.
- Provider config overlays: ProviderConfig, ProviderConfigMap and ModelConfigRules are not part of this model; the resolver starts from what overlaying makes of a provider.
- ResolvedProvider lists for settings: only what goes to the registry is modelled.
- Event subscriptions of the RPC client: an event takes an id and a handler; listening and unlistening messages are not modelled.
- The RPC server, IPC, proxies, routing and middleware: wiring around the client and the protocols.
- Release downloading and schema decoding: I/O and data tables.
- dispose of protocols and emitters: no behaviour beyond silence.
