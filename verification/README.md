# Verified model of the session core of the `ibapi` client

`ibapi` is a Rust client for the TWS and IB Gateway API. This project models the parts
of it where a mistake outlives the call that makes it, and proves what they keep:

- **The session.** A blocking and an asynchronous connection greet the gateway, read one
  raw reply, apply a version gate, send StartApi, and read frames until they know the next
  order id and the managed accounts. Reconnecting replays all of it. `SyncConnection` and
  `AsyncConnection` are the two connections in their own form, with their own fields;
  `SessionModel` says what both compute, for any script of inbound frames, read errors,
  write errors that may accept part of their bytes, and socket failures. `LoopTheorems`,
  `SessionTheorems`, `SuccessTheorems`, `RunTheorems`, `HearingTheorems` and `DispatchTheorems`
  prove what that means over whole connections and whole runs of them; `Lockstep` drives the two connections
  side by side.
- **The wire.** Frames, message ids, NUL-delimited fields, decimal numbers, the protobuf and
  the two text forms, both error layouts, and what the write gate is told of a message.
- **The calendar.** Day numbers of the proleptic Gregorian calendar, next and third Fridays,
  contract months, and the timestamp fields of messages.
- **Ids and retries.** Order and request ids under any interleaving of threads, the retry
  loop that draws a fresh one for each attempt, and the seed the handshake leaves.

The code outside the model is a record of arbitrary functions, `Platform`: text decoding, the
protobuf and order decoders, and the time zone table. The theorems hold for all of them, but
for these: the laws of the legacy text form take a text decoding that keeps ASCII bytes, a
request's moments read back with a table that knows UTC, and `SomeGatewayConnects` names a
gateway with decoders of its own.

Rust's fixed widths are written out: ids and lengths wrap, a year is cast to 16 bits, and a
value out of range fails to parse. Sums that overflow (`msg_id + 200`, `current_year + 1`)
wrap, as they do in a release build; a debug build panics there instead. Where the original
panics on a date past the last one the model returns `None`. Reading past the end of the
peer's script gives the end of the stream.

Some facts the proofs bring out, which a reader of the code may not expect:

- The account-info loop succeeds after 101 frames even if a value never came. The next order
  id is then 0, or whatever the metadata held before.
- A reply that names an unknown time zone fails the handshake, but its server version stays
  in the metadata.
- Reconnecting retries socket failures only. The first socket that opens decides, and the
  metadata is reset after it has opened, so a reconnection that never opens one leaves the
  old metadata in place.
- A timestamp whose eight digits form a date is read as that date's midnight when the session
  has a time zone, and as seconds when it has none.
- The two time parsers disagree on zone names with a blank, such as "China Standard Time":
  the reply's parser takes the whole name, the one for timestamp fields cuts inside it and
  reads nothing.
- An expiration date before year 0 changes its year when it is cast. `next_quarter_from` and
  `front_from` go back to year 0 in late December 65535.

## Model

| member | source | states |
|---|---|---|
| `Lockstep.RunFresh` | src/connection/async.rs:115-320 | For every script of frames and I/O outcomes and every sequence of connect and reconnect calls, both connections give the same results, bytes sent, sleeps and attempts to open a socket, notices, callbacks and metadata as read |
| `Lockstep.RunBoth` | src/connection/async.rs:128-175 | The same from any two states that stand for one session, stale metadata and cached version included; the asynchronous one tells the gate of handshake writes only and ends with its flag down |
| `Lockstep.PerformSync` | src/connection/sync.rs:115-156 | A call to the blocking connection is one step of the session model |
| `Lockstep.PerformAsync` | src/connection/async.rs:128-175 | A call to the asynchronous one is the same step of the session it stands for |
| `SyncConnection.Connection.WithSocket` | src/connection/sync.rs:73-92 | A new connection holds the client id and otherwise empty metadata |
| `SyncConnection.Connection.ConnectionMetadata` | src/connection/sync.rs:102-105 | What is read is the stored metadata |
| `SyncConnection.Connection.TakeHandshakeReply` | src/connection/sync.rs:203-221 | The reply is read raw, never through the version of the session before; a version stays when the zone behind it is refused |
| `SyncConnection.Connection.DoHandshake` | src/connection/sync.rs:195-232 | One prefix written, one reply read; the end of the stream is a rejected connection, other errors pass through |
| `SyncConnection.Connection.StartApi` | src/connection/sync.rs:235-240 | One framed StartApi with the client id, nothing else changed |
| `SyncConnection.Connection.MergeFrame` | src/connection/sync.rs:251-267 | One turn advances the loop by one frame: read, refused or parsed, merged |
| `SyncConnection.Connection.CollectAccountInfo` | src/connection/sync.rs:243-273 | The bounded loop computes the recursive one, and ends |
| `SyncConnection.Connection.ReceiveAccountInfo` | src/connection/sync.rs:243-285 | On success only the values known are stored; on failure no field of the metadata changes |
| `SyncConnection.Connection.EstablishConnection` | src/connection/sync.rs:150-156 | Handshake, gate, StartApi and account info in this order, each only after the one before succeeded |
| `SyncConnection.Connection.DoReconnect` | src/connection/sync.rs:115-139 | The bounded retry loop: sleep, open, reset once open, replay |
| `SyncConnection.Connection.ResetConnectionMetadata` | src/connection/sync.rs:141-147 | All metadata but the client id is cleared |
| `AsyncConnection.Connection.WithSocket` | src/connection/async.rs:76-96 | A new connection stands for the same session as a new blocking one |
| `AsyncConnection.Connection.ConnectionMetadata` | src/connection/async.rs:115-119 | The version in the atomic cell is laid over the stored metadata |
| `AsyncConnection.Connection.WriteRawFor` | src/connection/async.rs:216-225 | The frame is written whole, and the gate is told its opcode, its order id and whether the handshake is on |
| `AsyncConnection.Connection.TakeHandshakeReply` | src/connection/async.rs:238-256 | The version goes to the cell, time and zone to the metadata; together they are the blocking step |
| `AsyncConnection.Connection.DoHandshake` | src/connection/async.rs:228-267 | The blocking handshake step, its write told to the gate as part of the handshake |
| `AsyncConnection.Connection.CollectAccountInfo` | src/connection/async.rs:278-308 | The same loop as the blocking copy, reading under the cached version |
| `AsyncConnection.Connection.EstablishConnection` | src/connection/async.rs:164-175 | Every write is tagged as handshake: the prefix, and the opcode 71 exactly when the handshake allows StartApi; the flag is down after every outcome |
| `AsyncConnection.Connection.ResetConnectionMetadata` | src/connection/async.rs:153-161 | The cell and the metadata are both cleared |
| `AsyncConnection.Connection.DoReconnect` | src/connection/async.rs:128-151 | The same reconnection, with all it writes tagged as handshake |
| `SessionTheorems.ReconnectForgets` | src/connection/sync.rs:115-147 | After two successful reconnections over the same frames the metadata is equal, whatever the old metadata, earlier failures, writes, listeners or callbacks were |
| `SessionTheorems.ReconnectIgnoresPast` | src/connection/async.rs:128-161 | With the same peer and listeners the whole outcome is independent of the old metadata, unless no socket opens, and then the metadata is untouched |
| `SessionTheorems.ReconnectBound` | src/connection/sync.rs:115-139 | From its start to its end a reconnection with k failures before the first success makes k+1 attempts, or 20 if none succeeds, each a sleep of the next delay and then a try, and takes exactly the connect outcomes of those attempts |
| `SessionTheorems.ReconnectOutcome` | src/connection/async.rs:128-151 | It returns what the replayed connection returns on the reset metadata; after 20 failures it returns `ConnectionFailed`, and nothing but the attempts has happened |
| `SessionTheorems.EstablishOpensNothing` | src/connection/sync.rs:150-156 | Connecting opens no socket and never sleeps, however it ends |
| `SessionTheorems.ReconnectAttempts` | src/connection/async.rs:131-150 | The same from any attempt, limit and replay |
| `SessionTheorems.EstablishedMetadata` | src/connection/common.rs:201-231 | Every metadata field of an established session: version, time and zone from the raw reply, id and accounts from the shortest frame prefix behind it, and no later frame read |
| `SessionTheorems.EstablishesAgree` | src/connection/sync.rs:150-156 | Two successful connections of one client from the same metadata over the same frames leave the same metadata and the same frames, with or without a callback |
| `SessionTheorems.EstablishSends` | src/connection/sync.rs:150-156 | When the writes it makes succeed, the bytes sent are the prefix, or the prefix and one StartApi; the latter exactly when the reply parses, its version is at least 210 and its zone is known |
| `SessionTheorems.EstablishWrites` | src/connection/sync.rs:150-156 | It makes two writes after a greeting that was written to a peer that welcomes it, and one otherwise |
| `SessionTheorems.HelloReads` | src/connection/common.rs:201-231 | A gateway reads a whole hello as the bytes `API` and 0 and exactly two frames: the text `v210..221`, and a StartApi whose bytes are the id 271, the tag 8 and this client's id as a varint |
| `SessionTheorems.GreetingIs` | src/connection/common.rs:201-208 | All bytes of the greeting: `API`, 0, the length 0 0 0 9 and `v210..221` |
| `Handshake.KnownVarints` | src/connection/common.rs:225-230 | The varints of 1, 300 and 2^64 - 1 |
| `SessionTheorems.EstablishSucceedsIff` | src/connection/sync.rs:150-285 | For every script a connection succeeds exactly when its two writes do, the reply is a welcome and some prefix of the frames behind it is one at which the loop stops |
| `SessionTheorems.EstablishFailsEarly` | src/connection/sync.rs:195-240 | For every script it reads a frame of the loop exactly when its writes succeed and the reply is a welcome; otherwise its error is the first of the greeting's, the reply's (fields, then zone, then version) and StartApi's |
| `SessionTheorems.EstablishFailureKeeps` | src/connection/sync.rs:243-285 | A connection that fails, wherever, leaves the order id, the accounts and the client id as they were |
| `SessionTheorems.UnknownZoneKeepsVersion` | src/connection/async.rs:248-256 | A reply that names an unknown zone fails the connection with that name, sends nothing after the prefix, and leaves its version and nothing else in the metadata |
| `Handshake.ConnectionTimeReads` | src/connection/common.rs:386-421 | A civil time and any zone's name, blanks and all, give the time in that zone, or an error for the zone alone |
| `Handshake.UnreadableTimeKeepsZone` | src/connection/common.rs:416-419 | A known zone is kept behind a date or time of day that cannot be read |
| `Handshake.ShortTimeReads` | src/connection/common.rs:389-392 | A time of fewer than three parts gives neither time nor zone, and no error |
| `Handshake.ReplyReads` | src/connection/common.rs:210-220 | The reply's first field is its version and its second its time |
| `Handshake.ReplyRefused` | src/connection/common.rs:210-220 | It is refused exactly when one of them is missing or the version is no number, with that field's error |
| `Handshake.TimePartsRead` | src/connection/common.rs:387-405 | The reply's time splits at its first two blanks, and the zone's name keeps the rest |
| `SuccessTheorems.SomeGatewayConnects` | src/connection/common.rs:198-273 | For every client id and first order id there are a gateway's frames, and decoders, that bring a connection to success with that id as the next order id |
| `SuccessTheorems.NextIdFrame` | src/connection/common.rs:244-255 | A protobuf next-id frame off the wire gives the session the decoded id, or the decoder's error |
| `SuccessTheorems.AccountsFrame` | src/connection/common.rs:256-267 | A protobuf managed-accounts frame off the wire gives it the decoded list, or the decoder's error |
| `SuccessTheorems.NextIdTextFrame` | src/connection/common.rs:250-254 | The same frame as text gives the id in the field behind the version |
| `SuccessTheorems.AccountsTextFrame` | src/connection/common.rs:262-266 | And the account list from there, whole and unsplit |
| `SuccessTheorems.ErrorFrame` | src/connection/common.rs:25-37 | A protobuf error frame off the wire gives the notice of its envelope, or one that says nothing is known, and ends the handshake exactly when the code is 326 |
| `SuccessTheorems.ErrorTextFrame` | src/messages.rs:1495-1516 | An error frame as text off the wire gives one notice with the gateway's code, words, time and reject payload, and ends the handshake exactly when the code is 326 |
| `SuccessTheorems.ErrorFields` | src/messages.rs:1223-1285 | The same of any message with such fields |
| `SessionTheorems.EstablishSendsWithinHello` | src/connection/sync.rs:188-240 | Whatever fails, what is sent is the beginning of prefix and StartApi, and no byte of StartApi goes to a peer that has not welcomed the client |
| `RunTheorems.RunSends` | src/connection/sync.rs:115-156 | Over any run each call sends one part, between the sessions before and after it, and nothing else is sent: the beginning of the prefix and StartApi, StartApi only to a peer that welcomes the client, and nothing when no socket opens; the whole of that when the writes of this call succeed, whatever becomes of others' |
| `RunTheorems.RunKeepsClient` | src/connection/common.rs:365-377 | Through any run the metadata names the client, and whenever the last call succeeded its version passes the gate |
| `LoopTheorems.LoopSucceedsIff` | src/connection/sync.rs:243-285 | The loop succeeds exactly when a shortest prefix holds both values, or 101 frames do not, with nothing fatal in it; it reads exactly that prefix and keeps the last value of each kind |
| `LoopTheorems.LoopFailsIff` | src/connection/sync.rs:250-259 | It fails with an error exactly when the first read among at most 101 to end it, before both values are known, yields that error; it reads nothing after that one |
| `LoopTheorems.TalkativePeerSucceeds` | src/connection/sync.rs:269-272 | After 101 frames without either value the loop succeeds, knowing nothing |
| `LoopTheorems.LoopMeaning` | src/connection/async.rs:278-320 | For every script there is one number of frames read, and the notices, callbacks and values are those of that many frames in arrival order |
| `LoopTheorems.EndingIsUnique` | src/connection/async.rs:304-307 | No two prefixes of one script can both be where the loop ends |
| `SessionTheorems.LoopConserves` | src/connection/common.rs:233-355 | Frames read are as many as account data, new notices, new callbacks, dropped frames and the fatal one together: none is lost or heard twice |
| `HearingTheorems.RunHears` | src/connection/sync.rs:115-285 | Over any run each call, failed ones included, consumes its reply and its frames and no others, starting where the call before stopped; notices and callbacks over the run are those of all these frames, in order |
| `HearingTheorems.RunConserves` | src/connection/common.rs:233-355 | Over a whole run everything read is a reply, account data, one notice, one callback, a dropped frame or the read that ended its call; none is lost or heard twice |
| `HearingTheorems.EstablishHears` | src/connection/sync.rs:150-285 | What a connection consumes and hears, whether it succeeds or fails: the reply exactly when the greeting is written, frames exactly when the peer also welcomes it and StartApi is written, up to the one that settles the result; what stops it before is the result |
| `HearingTheorems.PerformHears` | src/connection/async.rs:128-320 | The same of a reconnection, which consumes nothing when no socket opens |
| `HearingTheorems.RefusalEndsLoop` | src/connection/sync.rs:250-259 | An error frame with code 326 is the last frame read, its notice is the last told and the error returned, and no other notice of the loop has code 326; without such a frame none has |
| `HearingTheorems.RefusalConcludes` | src/connection/common.rs:31-37 | The same for any frames at which a connection concludes, so for every call of a run |
| `HearingTheorems.RefusalEffect` | src/connection/async.rs:287-293 | A frame is taken as a refusal exactly when it is an error with code 326, and no other frame gives a notice with that code |
| `SessionTheorems.RefusalIsLast` | src/connection/async.rs:287-293 | In the effects of any finished loop a refusal can only be the last |
| `SessionTheorems.FrameLaws` | src/connection/common.rs:84-105 | A callback's `message_type` is its frame's kind; values and fatal errors come from the two account frames alone; an error frame always gives its notice, and is a refusal exactly when the code is 326 |
| `SessionTheorems.DispatchLaws` | src/connection/common.rs:285-355 | Exactly the typed and marker kinds are dropped, and only without a callback; with one, markers are always called, typed frames exactly when they decode and else give a notice; unknown kinds always give one |
| `DispatchTheorems.TypedFrames` | src/connection/common.rs:328-342 | With a callback, each typed kind that decodes is handed over in its own variant with the decoded payload |
| `DispatchTheorems.UndecodableFrames` | src/connection/common.rs:299-306 | One that does not decode becomes a notice with code -4, its kind and the decoder's cause |
| `DispatchTheorems.MarkerFrames` | src/connection/common.rs:309-344 | Each kind without a payload is handed over as its own marker |
| `DispatchTheorems.UnheardFrames` | src/connection/common.rs:299-315 | Without a callback all of these are dropped |
| `DispatchTheorems.UnknownFrames` | src/connection/common.rs:345-353 | Any other kind becomes a notice with code -3 and that kind, callback or none |
| `DispatchTheorems.MalformedNextId` | src/connection/common.rs:250-254 | A next-id frame as text that ends too soon, or whose id is no number, ends the handshake with that field's error |
| `DispatchTheorems.MalformedAccounts` | src/connection/common.rs:262-266 | A managed-accounts frame as text that ends too soon does likewise |
| `DispatchTheorems.EmptyAccountFrames` | src/connection/common.rs:244-261 | A protobuf account frame without a payload gives no value and is no error |
| `DispatchTheorems.FrameOfRun` | src/connection/common.rs:285-355 | In every call of a run each frame has the effect of its kind, and what it makes heard stands at its place among all that the call heard |
| `DispatchTheorems.TypedFramesOfRun` | src/connection/common.rs:293-307 | Over a whole run every typed frame that decodes reaches the callback, in its variant, with its payload and in its place |
| `DispatchTheorems.UndecodableFramesOfRun` | src/connection/common.rs:302-305 | And every one that does not reaches the notice sink, with its kind and cause, in its place |
| `SessionTheorems.YieldIgnoresCallback` | src/connection/common.rs:285-355 | Installing a callback changes what is heard and nothing the session learns |
| `Handshake.TakeMessage` | src/connection/sync.rs:255-259 | Refusal before dispatch: one effect for each frame, with its notice, callback and yield |
| `Handshake.ParseAccountInfo` | src/connection/common.rs:233-272 | Next-id and accounts frames yield their value, in protobuf or text; every other frame is dispatched and yields nothing |
| `Handshake.ParseNextValidId` | src/connection/common.rs:244-255 | The id is field 2, behind type and version, or the protobuf's, which may be absent |
| `Handshake.ParseManagedAccounts` | src/connection/common.rs:256-267 | The account list, likewise |
| `Handshake.DispatchUnsolicitedMessage` | src/connection/common.rs:317-354 | Each kind gives its one notice or callback, or is dropped |
| `Handshake.DispatchTyped` | src/connection/common.rs:293-307 | Decoded for the callback if there is one; a decoder's failure becomes a notice |
| `Handshake.ParseHandshakeResponse` | src/connection/common.rs:210-220 | Version then time, with the errors of the fields that are missing or malformed |
| `Handshake.StartApiCarriesClientId` | src/connection/common.rs:222-231 | StartApi messages of different clients differ |
| `Handshake.VarintReadsBack` | src/connection/common.rs:225-230 | The client id's encoding is decodable, whatever follows it |
| `Backoff.FibonacciBackoff.NextDelay` | src/transport/common.rs:49-59 | The k-th delay is Fibonacci number k+2, capped at the maximum |
| `Backoff.DelaysAre` | src/transport/common.rs:40-60 | The delays before the attempts are 1, 2, 3, 5, 8, 13 and 21 seconds, and 30 from then on |
| `Framing.EncodeRawLength` | src/messages.rs:778-785 | A four-byte big-endian length, modulo 2^32, then the body |
| `Framing.ReadFramedIff` | src/transport/sync/mod.rs:856-869 | A frame reads back as its body, leaving what follows, exactly when the body is shorter than 2^32 bytes |
| `Framing.ReadAllWritten` | src/messages.rs:778-785 | A stream of such frames reads back as the list of bodies |
| `Framing.FramedRead` | src/transport/sync/mod.rs:864-869 | Whatever reads as a frame is one that the writer would have written |
| `Framing.WriteAllRead` | src/transport/sync/mod.rs:856-869 | Whatever reads as a list of frames is what writing that list gives |
| `Framing.FramesUniquelyDecodable` | src/messages.rs:778-785 | Equal concatenations of frames come from equal lists |
| `Messages.EncodeProtobufMessage` | src/messages.rs:770-775 | The first four bytes read back as the id plus 200, wrapped, and all behind them is the payload |
| `CodecTheorems.ProtobufBodyReadsBackIff` | src/connection/common.rs:427-449 | Under a version from 201 on a body reads as protobuf exactly for ids 1 to 2^31-201, and then with its payload, kind and version |
| `CodecTheorems.TextFormsAgreeIff` | src/messages.rs:894-905 | The binary-id and the legacy text form of a message decode to the same fields exactly for ids up to 200, negatives included, and the id survives as its kind |
| `CodecTheorems.AsciiTextReadsAscii` | src/connection/common.rs:438 | What that law asks of text decoding, that it keeps ASCII bytes, can be met: reading byte by byte meets it |
| `CodecTheorems.BinaryTextReads` | src/connection/common.rs:428-442 | A binary-id body is protobuf above 200 and text up to it |
| `CodecTheorems.LegacyTextReads` | src/connection/common.rs:443-448 | Under an older version the digits before the first NUL become the first field |
| `CodecTheorems.EncodedTextReadsBackIff` | src/messages.rs:1321-1325 | Reading what `encode` printed restores the fields exactly when there is one and none holds a NUL |
| `CodecTheorems.ReadTextPrintsBack` | src/messages.rs:1288-1296 | Printing what `from` read restores the text but for a missing last NUL, so normalising is idempotent |
| `CodecTheorems.OldErrorReads` | src/messages.rs:1223-1285 | Below version 194 an error's id, code and text are read from behind the version field, and it has no time and no reject payload |
| `CodecTheorems.NewErrorReads` | src/messages.rs:1223-1285 | From 194 on they are read one field earlier, with the reject payload and, when it fits 64 bits, the time |
| `CodecTheorems.PrintedErrorReads` | src/messages.rs:1232-1255 | A printed request id and code read back in either layout |
| `CodecTheorems.MissingErrorFields` | src/messages.rs:1223-1285 | What an error that ends too soon is read as: id -1, code 0, "Unknown error", no payload and no time |
| `CodecTheorems.KindlessMessage` | src/messages.rs:947-954 | A message whose first field is missing or no number is of no known kind |
| `Messages.ResponseMessage.NextInt` | src/messages.rs:1062-1075 | The field at the cursor as an integer; the cursor moves past a field that does not parse, and stays at the end |
| `Messages.ResponseMessage.NextString` | src/messages.rs:1168-1176 | The field at the cursor as text, with the same cursor rule |
| `MessageKinds.KindOfIdIsExact` | src/messages.rs:302-395 | Exactly the ids -2, 1 to 21, 45 to 47, 49 to 59 and 61 to 111 have a kind, with that discriminant; all others are `NotValid` |
| `MessageKinds.KnownKinds` | src/messages.rs:302-395 | The ids of the kinds that the handshake tells apart |
| `MessageKinds.ParsePrintOutgoing` | src/messages.rs:656-762 | Printing an opcode and parsing it is the identity on 1 to 25, 49 to 59 and 61 to 109, and no other number parses |
| `WriteGate.ProtobufIsRecognised` | src/transport/write_gate.rs:142-179 | The gate is told the opcode of every protobuf message, whatever its payload |
| `WriteGate.OrderIsRecognised` | src/transport/write_gate.rs:121-140 | It is told the order id of exactly the protobuf placements and cancels, as their payload decodes |
| `WriteGate.BinaryLegacyIsRecognised` | src/transport/write_gate.rs:159-179 | Likewise for a binary legacy id |
| `WriteGate.TextIsRecognised` | src/transport/write_gate.rs:170-179 | Likewise for an id in digits before the first NUL |
| `Delimited.SplitTerminateIff` | src/messages.rs:1288-1325 | Terminating and splitting restores a list exactly when it has a piece and none holds the separator |
| `Delimited.SplitConcat` | src/messages.rs:1288-1296 | A separator between two texts separates their pieces |
| `Decimal.ParsePrintInt` | src/messages.rs:1062-1075 | Decimal printing and parsing are inverse exactly on the values of the type |
| `Decimal.ParsesIff` | src/messages.rs:1062-1075 | What parses as an integer is digits behind at most one sign, and its value is theirs when it fits the type |
| `Decimal.UnsignedParsesIff` | examples/sync/options_exercise.rs:126-128 | As unsigned, the same without a minus sign |
| `Accounts.SplitAccountsConcat` | src/connection.rs:12-18 | Splitting two lists joined by a comma is splitting each |
| `Accounts.SplitAccountsAreAccounts` | src/connection.rs:10-18 | No entry is empty, holds a comma or has outer blanks |
| `Blanks.TrimTakesBlanks` | src/connection.rs:14 | Trimming takes the blanks off both ends and nothing else |
| `Blanks.BlanksAre` | src/connection.rs:14 | The blanks, one by one |
| `Accounts.SplitJoinedAccountsIff` | src/connection.rs:12-18 | Joining and splitting restores a list exactly when all its entries are such names |
| `Calendar.DayNumberOrders` | src/contracts/types.rs:340-361 | Day numbers order dates as dates are ordered, and tell them apart |
| `Calendar.DateOf` | src/contracts/types.rs:326 | Every day number of the calendar is that of a date |
| `Calendar.DateOfDayNumber` | src/contracts/types.rs:326 | The two conversions are inverse |
| `Calendar.DayNumberIs` | src/contracts/types.rs:326 | The day number of every date in closed form, years counted from March |
| `Calendar.DatesAre` | src/contracts/types.rs:345 | Which dates there are: the days of each month, and 29 February by the rule of leap years |
| `Calendar.KnownWeek` | src/contracts/types_tests.rs:225-234 | The weekdays of 17 to 23 March 2025, which fix that of every day number |
| `Expirations.NextFridayIsLeast` | src/contracts/types.rs:321-333 | The least Friday strictly after the date, one to seven days on, in its year, month and day (a year before 0 comes out 65536 later); it is missing only where no later Friday exists |
| `Expirations.ThirdFridayIsLeast` | src/contracts/types.rs:340-375 | The least Friday with day 15 to 21 not before the date, in its year, month and day, over the end of the year too; missing only where none is left |
| `Expirations.ThirdFridayFound` | src/contracts/types.rs:344-349 | Two weeks past the first Friday of any month is its third Friday |
| `Expirations.ChosenIsLeast` | src/contracts/types.rs:351-374 | Between this month's and the next month's, the choice made is the least not before the date |
| `Expirations.TruncatedKeepsIff` | src/contracts/types.rs:328-332 | The cast keeps month and day, and the year exactly when it is not negative |
| `Expirations.ExpirationReadsBackIff` | src/contracts/types.rs:378-382 | A printed expiration date reads back exactly when its year is at most 9999 and its month and day at most 99 |
| `Expirations.PrintedExpiration` | src/contracts/types.rs:378-382 | Its eight digits are four of the year, two of the month and two of the day, in this order |
| `Expirations.PaddedReadsBack` | examples/sync/options_exercise.rs:122-130 | A zero-padded number reads back as itself |
| `Expirations.NextQuarterIsLeastIff` | src/contracts/types.rs:424-450 | The least quarterly month not before the front month; that one is not before the date's month exactly when the year does not wrap |
| `Expirations.FrontIs` | src/contracts/types.rs:404-416 | The front month is the date's own to the 15th and the next from the 16th on, in every month; late in December of the last year it is January of year 0 |
| `Expirations.FrontIsMonotone` | src/contracts/types.rs:404-416 | A later date has no earlier front month, for years below 65535 |
| `Expirations.NextQuarterIsMonotone` | src/contracts/types.rs:424-450 | Nor an earlier quarterly month, for years below 65535 |
| `DateTimes.FormsApart` | src/messages.rs:1336-1373 | At most one of the five timestamp forms accepts a field, except that an eight-digit date is also a timestamp |
| `DateTimes.SessionZoneMatters` | src/messages.rs:1353-1370 | The session's zone changes the result for the double-space and the date form alone; what it is with and without a zone |
| `DateTimes.ReadsExactlyPrinted` | src/messages.rs:1337-1358 | An unsigned text is read as a civil time exactly when it is that time printed: nothing else is accepted |
| `DateTimes.SignedReads` | src/messages.rs:1337-1363 | A sign before the year is read: a minus negates it and a plus changes nothing |
| `DateTimes.LocalReadsBack` | src/messages.rs:1353-1358 | A double-space time is resolved in the session's zone, and unreadable without one |
| `DateTimes.DayReadsBack` | src/messages.rs:1360-1370 | An eight-digit date is its midnight in the session's zone, and a number of seconds without one |
| `DateTimes.KnownMoment` | src/messages/tests.rs:1641-1648 | "20260328-12:34:56" is 1774701296 seconds from the epoch |
| `DateTimes.ToFieldReadsBack` | src/market_data/historical/common/encoders.rs:13-19 | A moment printed into a request, fraction and all, reads back as the second it lies in, so as itself exactly when it has no fraction: for every moment the calendar has and any session zone, with a table that knows UTC |
| `DateTimes.UtcReadsBack` | src/messages.rs:1337-1340 | Every second the calendar has, in the UTC form, reads back as itself |
| `DateTimes.CivilOfSeconds` | src/messages.rs:1368-1370 | Every date and time the calendar has is that of its own timestamp, and that timestamp is in range |
| `DateTimes.ZonedReadsBack` | src/messages.rs:1342-1351 | A time with a zone's name behind it, any name, is resolved in that zone or refused for it exactly when the name holds no blank; with one the field is unreadable, whatever the session's zone |
| `DateTimes.TimestampReadsBack` | src/messages.rs:1368-1370 | A printed timestamp in the range of the calendar reads back unless the session has a zone and the digits are a date, and then as that midnight |
| `DateTimes.DistantTimestamp` | src/messages.rs:1368-1372 | A number with no moment in the calendar is out of range, and past 64 bits unreadable |
| `Ids.ClientIdManager.Perform` | src/client/id_generator.rs:71-93 | Steps of any threads, in the order the atomics see them, are a run of the counters |
| `Ids.IdGenerator.Next` | src/client/id_generator.rs:36-38 | Returns the counter and wraps its successor |
| `Ids.RequestIdsAreConsecutive` | src/client/id_generator.rs:36-83 | Request ids are consecutive modulo 2^32 in any interleaving, order-id updates included |
| `Ids.OrderIdsAreConsecutive` | src/client/id_generator.rs:86-88 | So are order ids until one is set |
| `Ids.OrderIdsAfterSet` | src/client/id_generator.rs:91-93 | After a set they start again from its value |
| `Ids.RequestIdsDistinctIff` | src/client/id_generator.rs:36-38 | Two request ids are equal exactly when a multiple of 2^32 draws lies between them |
| `Ids.OrderIdsDistinctIff` | src/client/id_generator.rs:86-93 | Two order ids with no set between their draws are equal exactly when a multiple of 2^32 draws lies between them, wherever in the run they are |
| `Retry.RetryOnConnectionResetWithLimit` | src/common/retry.rs:18-32 | The result is the first outcome that is not a reset, or the last allowed; exactly that many calls, whose encoder gets exactly that many consecutive request ids; a message behind resets in sending or replying is processed |
| `Retry.RetryOnConnectionReset` | src/common/retry.rs:35-39 | The same with at most four calls |
| `Retry.Operation.Call` | src/common/request_helpers.rs:98-115 | One attempt draws one id, gives exactly it to the encoder, sends and takes the reply; a failure to encode, to send or in the reply comes back as itself, a message is processed, silence is `onNone` |
| `Retry.AnsweredDecides` | src/common/request_helpers.rs:98-115 | When resets in sending or in the reply come before a message, their attempts reset and the message's outcome is its processing |
| `Retry.OneDecides` | src/common/retry.rs:23-31 | For any outcomes and limit exactly one attempt decides |
| `Client.ConnectWithPieces` | src/client/sync.rs:98-128 | A client holds what its handshake left, its order ids start there, its request ids at 9000; a failed handshake is returned as is, and then a message bus that does not start |
| `Client.SeedOfHandshake` | src/client/sync.rs:116-128 | The next order id is the last one given by exactly the frames consumed behind the reply, read under the session's version, or 0 after 101 frames without one |
| `Client.OrderIdsFollowHandshake` | src/client/sync.rs:149-159 | After connecting, until a set, the k-th order id is that seed plus k, for any threads; the seed is that of the frames consumed |

## Left out

- Sockets, TLS and TCP options, threads, tokio tasks, cancellation and lock poisoning: the peer is a script of outcomes.
- A write gate that refuses or delays a write; the model has the description the gate is given.
- Logging, the message recorder and the trace sink.
- The message bus, routing and shutdown: `Retry` takes what the bus does with each request as given.
- `Client.ConnectWithPieces`: of the message bus, only whether it starts, as a parameter.
- `RetryOnConnectionResetWithLimit`: the ids are consecutive when no other thread draws between attempts; with others, `Ids.RequestIdsDistinctIff` is what remains true.
- `one_shot_request`, whose blocking copy maps an error to the default where the asynchronous one returns it.
- Protobuf decoding, the order, execution and account decoders, and UTF-8 decoding: functions of `Platform`. StartApi's one field is encoded in full. The laws of the text forms ask of UTF-8 decoding only that it keeps ASCII bytes.
- The time zone table and the offsets of zones: functions of `Platform` and `DateTimes.Zones`.
- The `time` crate itself: the field grammar (an optional sign and four digits of year, two digits for the rest) is written out in `DateTimes`.
- The text of errors: a notice the client composes keeps its kind and cause, a parse error its position and field.
- The callback runs code of the user's; here it records what it was given.
- Floating-point fields, optional fields, the request-id and order-id index tables, notice categories, contract builders and the feature tables: easy or finite.
- Examples other than `parse_yyyymmdd`.
