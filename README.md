# tvsocket in Dafny

A model of the protocol core of tvsocket, a Go client for a market-data
websocket. The model covers:

- the `~m~<length>~m~<payload>` framing;
- the splitting of a received packet into frames;
- the classification of each frame's JSON envelope (`qsd` quotes, `timescale_update` bars, remote errors, ignored kinds);
- the duplicate filter applied to the quotes of one packet;
- the socket's close flag and its connection handshake;
- the random session ids.

Modules, one file each:

- `outcomes.dfy` (`Outcomes`): the three ways a Go call ends — a value, an `error`, or a panic — the error kinds, and the context strings passed to the error callback.
- `json.dfy` (`JsonModel`): the values `json.Unmarshal` produces into `any`.
- `decimal.dfy` (`Decimal`): `strconv.Itoa` and `strconv.Atoi` on 64-bit ints.
- `framing.dfy` (`Framing`): the frame encoder of `sendSocketMessage`, the two header scanners `getPayloadStartingIndex` and `getPayloadLength`, and `isKeepAliveMsg`.
- `series.dfy` (`Series`): `parseTimeScaleUpdate`.
- `envelope.dfy` (`Envelope`): `parseJSON`.
- `dedup.dfy` (`Dedup`): the nested duplicate loop at the end of `parsePacket`.
- `packet.dfy` (`Packet`): `parsePacket` as a whole, the events it makes visible, and the frame round trip across a packet.
- `random.dfy` (`RandomLetters`): `GetRandomString`, rejection sampling of letters from 6-bit chunks of random words.
- `connection.dfy` (`Connection`): the `Socket` class, with `Init`, `Close`, `onError`, `sendSocketMessage`, the setup messages, the first-message check, `generateSessionID`, and the dispatch in `connectionLoop`.

Each method that walks a loop is proved equal to a specification function.
The properties are proved about those functions:

- frame round trips;
- all-or-nothing parsing of bars;
- exactly which envelopes yield a quote;
- which duplicates survive;
- what `Init` has written when it succeeds;
- that a second `Close` does nothing;
- that session ids are "qs_" or "cs_" followed by 12 ASCII letters.

A Go panic is the result `Panicked`, not a precondition. Nothing in the
client recovers from a panic, so wherever one happens it ends the process. Websocket I/O enters as
parameters:

- whether the dial succeeds;
- the first message read;
- whether the k-th write on a connection is accepted;
- whether `conn.Close` succeeds.

`json.Unmarshal`, `json.Marshal` and `GetStringRepresentation` enter as
function parameters as well.

Some behaviour of the code that a caller might not expect, kept by the model:

- Most frame-local failures call `onError`, which closes the connection: a bad envelope, a remote error, a missing `p`, and a field decode or validation failure. A `qsd` envelope whose `p` is not a two-element array, and a `timescale_update` shape error, are dropped without any report (`ParseJsonBadPayloadShape`, `ParseJsonSeries`).
- `isKeepAliveMsg` looks only at the byte after the first frame's header. A message whose first frame is empty is therefore judged by the next frame's leading `~`: the whole message is echoed as a heartbeat and none of its frames is parsed (`EmptyFirstFrameEchoed`).
- A bad length later in a packet drops the quotes already gathered from that packet.
- Most shape faults in a `timescale_update` payload panic (failed type assertions) rather than return an error.
- `Init` ignores a refused `quote_set_fields` write. It reports that write, closes the connection and still returns nil with the socket open, so a later `Close` closes the connection a second time (`InitWrites`, `CloseIdempotent`).

## Model

| member | source | states |
|---|---|---|
| Decimal.Itoa | socket.go:208 | the text is non-empty; it is all digits for n >= 0, and a '-' followed by digits for n < 0 |
| Decimal.Atoi | socket.go:475 | a result is within the 64-bit int range; the only errors are a syntax error and a range error; Atoi never panics |
| Decimal.AtoiItoa | socket.go:475 | Atoi inverts Itoa on every 64-bit int |
| Decimal.AtoiAcceptsLongerForms | socket.go:267-268 | Atoi reads the same value from a leading-zero or '+' form, which is one character longer than Itoa's text |
| Framing.EncodeFrame | socket.go:207-208 | the frame is header plus payload, and the payload sits unchanged after a header of 6 plus the digits of its length |
| Framing.FirstTilde | socket.go:456-459 | the index found holds '~', and none before it from the start does; None means there is no '~' from the start on |
| Framing.GetPayloadStartingIndex | socket.go:453-462 | the scan returns the index of the first '~' from index 3 on, plus 3, so at least 6; it panics when there is no such '~' |
| Framing.GetPayloadLength | socket.go:464-477 | the result is Atoi of the text from index 3 up to the first '~' after it; it panics when there is no such '~' |
| Framing.PayloadStartOfFrame | socket.go:453-462 | on an encoded frame, whatever follows it, the scanned start is the frame's header length |
| Framing.PayloadLengthOfFrame | socket.go:464-477 | round trip: the length read from an encoded frame is the length of its payload, whatever follows the frame |
| Framing.KeepAliveOfFrame | socket.go:449-451 | a frame with a non-empty payload is a keep-alive exactly when its payload starts with '~' |
| Framing.EmptyFrameKeepAlive | socket.go:449-451 | after an empty frame isKeepAliveMsg reads the first byte of the rest of the message: it indexes past the end when there is no rest, and otherwise answers whether that byte is '~' |
| Framing.LeadingZeroMisaligns | socket.go:267-268 | with a zero-padded length field, the length still reads back, but the real payload starts one later than the recomputed header length, so the slice taken starts with the header's last '~' and drops the payload's last character |
| Series.Truncate | socket.go:406 | int64 of a float rounds toward zero, for positive and negative values alike |
| Series.ParseTimeScaleUpdate | socket.go:372-424 | the loops give exactly SeriesBars of the decoded object: a "p" shorter than two elements, or a missing or null "price" or "s", is the parsing error; a missing "p" or another wrong shape on the path panics; and otherwise it gives one bar per element |
| Series.BarsOfElementwise | socket.go:397-422 | parsing is all or nothing: it succeeds exactly when every element of price.s gives a bar, bar i then comes from element i, and it never returns an error, only panics |
| Series.BarFromPositions | socket.go:401-419 | a bar exists exactly when the positions below 6 of "v" hold numbers; it is then (time, open, high, low, close, volume) with time and volume truncated, missing positions zero and later positions ignored |
| Envelope.DecodeEnvelope | socket.go:310-316 | only a JSON object decodes to an envelope; exactly null panics (the nil pointer is dereferenced); every other failure is a decode error |
| Envelope.ParseJson | socket.go:309-370 | a quote always has a non-empty symbol and comes with no error report; a panic comes with no report; an error comes with at most one report |
| Envelope.ParseJsonQuote | socket.go:328-369 | parseJSON yields the quote (symbol, data) exactly when the payload decodes to a "qsd" envelope whose p is a two-element array with status "ok", that non-empty symbol, and a "v" object decoding to that data |
| Envelope.QuotePayloadDeliverable | socket.go:333-369 | the "qsd" branch yields the quote exactly for a deliverable payload |
| Envelope.ParseJsonOtherKind | socket.go:318-331 | an envelope of any kind other than "qsd" never yields a quote |
| Envelope.ParseJsonMissingPayload | socket.go:333-337 | a "qsd" envelope with no or a null "p" is reported once under its context and returns an error |
| Envelope.ParseJsonBadPayloadShape | socket.go:338-353 | a "qsd" envelope whose "p" is not an array of two elements returns an error and reports nothing |
| Envelope.ParseJsonInvalidQuote | socket.go:362-366 | a quote message that decodes but has a status other than "ok", an empty symbol or no data yields no quote and exactly one report, under the missing-properties context, with a validation error |
| Envelope.ParseJsonRemoteError | socket.go:318-322 | an "error" or "critical_error" envelope is reported once under its context and returns an error |
| Envelope.ParseJsonIgnored | socket.go:328-331 | an envelope of an unknown kind returns no data and no report |
| Envelope.ParseJsonSeries | socket.go:324-326 | a "timescale_update" envelope succeeds exactly when the series parser does, returns its bars with an empty symbol, and reports nothing |
| Dedup.Kept | socket.go:295-306 | the kept indices are ascending and in range, and index i is kept exactly when no later entry has its key |
| Dedup.HasLaterDuplicate | socket.go:296-302 | the inner loop finds a duplicate exactly when some later entry has the key of entry i |
| Dedup.DeliverSurvivors | socket.go:295-306 | the nested loop delivers exactly the entries that no later entry duplicates, in packet order |
| Dedup.SurvivorKeysDistinct | socket.go:295-306 | no two delivered entries share a key |
| Dedup.LastOccurrenceSurvives | socket.go:295-306 | every key present in the packet is delivered, by an occurrence at or after any given one |
| Dedup.IdenticalEntries | socket.go:295-306 | of k identical entries exactly one, the last, is delivered |
| Packet.NextFrame | socket.go:259-269 | a cut advances the cursor and stays inside the packet; the step fails exactly when the length reader fails |
| Packet.NextPayload | socket.go:260-269 | the loop head (length read, header length recomputed, payload sliced) computes NextFrame with getPayloadLength |
| Packet.Handle | socket.go:272-290 | the loop body after parseJSON records the reports, delivers a series when a series callback is set, keeps a quote, skips an error or no data, and stops on a panic |
| Packet.ParsePacket | socket.go:254-307 | the cursor loop and the duplicate loop produce exactly the events of PacketSpec: the frame events in order, then the surviving quotes; a bad length gives one report and no quotes; a panic cuts the events short |
| Packet.FailedFrameSkipped | socket.go:272-276 | a frame whose parse fails adds only its reports; the quotes and the panic outcome are as if the frame were absent |
| Packet.RunCrashedStays | socket.go:272 | after a payload panics, no later payload is processed |
| Packet.PayloadLengthReadsFrames | socket.go:464-477 | getPayloadLength recovers the encoded length of any frame, whatever follows it |
| Packet.SplitEncoded | socket.go:258-269 | splitting the concatenation of encoded frames yields exactly their payloads, in order, and ends at the packet's end |
| Packet.SplitStopsAtBadLength | socket.go:259-265 | a length that cannot be read after encoded frames stops the split there, after exactly the payloads before it |
| Packet.PacketOfFrames | socket.go:254-307 | a packet of encoded frames gives the events of its payloads, then the surviving quotes, or the events so far when a payload panics |
| Packet.RunDeliversNoQuote | socket.go:272-291 | the frame loop itself delivers no quote: quotes are delivered only after the duplicate filter |
| Packet.BadLengthDropsQuotes | socket.go:259-265 | a bad length after valid frames aborts the packet: one report is added, and none of the quotes gathered is delivered |
| Packet.DataKeyDropsSymbol | socket.go:298 | as written, the filter compares the data alone, so two different symbols with equal data in one packet deliver only the second |
| Packet.SymbolDataKeyKeepsEverySymbol | socket.go:298 | comparing symbol and data, every update is delivered by itself or by a later identical update of the same symbol |
| RandomLetters.GetRandomString | utils.go:22-43 | the loop, which writes the array from its last position down, returns exactly RandomString of the words drawn |
| RandomLetters.RandomStringLetters | utils.go:22-43 | the result has the requested length and holds only the 52 letters; position length-1-k holds the letter of the k-th accepted chunk |
| RandomLetters.FillPositions | utils.go:30-37 | the k-th accepted chunk fills position n-1-k, so the string fills from n-1 down |
| RandomLetters.DrawnLast | utils.go:34-37 | a chunk below 52 is appended to the accepted ones; a chunk of 52 or more is discarded |
| RandomLetters.AcceptedMembers | utils.go:34 | a value is accepted exactly when it occurs in the chunk stream and is below 52 |
| RandomLetters.AcceptedAppend | utils.go:30-40 | acceptance works chunk by chunk: accepting a concatenation is concatenating the accepted parts |
| RandomLetters.ChunkBounds | utils.go:34 | every chunk is at most letterIdxMask, 63 |
| RandomLetters.ChunksLength | utils.go:27-32 | each word yields letterIdxMax, 10, chunks |
| RandomLetters.ChunksOfWord | utils.go:30-33 | word j supplies chunks 10j to 10j+9 of the stream, the low six bits first |
| Connection.GenerateSessionId | socket.go:170-177 | the id is the kind's prefix followed by the 12 random letters |
| Connection.SessionIdFormat | socket.go:170-177 | an id has 15 characters: "qs_" or "cs_" by kind, then 12 letters, so a quote and a chart session id never collide |
| Connection.SetupFields | socket.go:194-199 | the loop builds the field list of "quote_set_fields" |
| Connection.FieldListLayout | socket.go:194-199 | the list is the quote session id, then lp, lp_time, ch, ch_time, then the caller's fields in order |
| Connection.DispatchFrame | socket.go:232-243 | a text frame whose payload starts with '~' is echoed back unchanged; a text frame with any other non-empty payload goes whole to parsePacket |
| Connection.DispatchEmptyFrame | socket.go:232-243 | a text message whose first frame is empty crashes when nothing follows, is echoed whole when a '~' follows, and goes whole to parsePacket otherwise |
| Connection.EmptyFirstFrameEchoed | socket.go:232-243 | an empty frame followed by any frame is echoed back as a keep-alive, so none of that message's frames reach parsePacket |
| Connection.Socket.constructor | socket.go:35-38 | a new socket records whether an error callback is given and has every other field at its zero value |
| Connection.Socket.OnError | socket.go:426-434 | the connection is closed if there is one, and the context is reported |
| Connection.Socket.SendSocketMessage | socket.go:206-216 | the encoded frame is written; a refused write is reported with the frame and closes the connection; writing with no connection panics |
| Connection.Socket.SendConnectionSetupMessages | socket.go:179-204 | the four setup frames are sent in order, stopping at the first refused one of the first three; the result of the fourth is ignored |
| Connection.Socket.CheckFirstReceivedMessage | socket.go:143-168 | the first message must decode from its payload start to an object with a non-nil session_id; each failure is reported under its own context |
| Connection.Socket.Init | socket.go:45-78 | the new state and result are InitOf the old state and the two drawn ids: the flag is set, the ids and chart name are set, then dial, check and setup run, and only full success clears the flag |
| Connection.Socket.Connected | socket.go:60-74 | on the new connection: the first-message check, then the setup; a failure is reported under the init context when a callback is set; success clears the flag |
| Connection.Socket.Close | socket.go:81-87 | a closed socket returns nil untouched; otherwise the flag is set and the connection closed once |
| Connection.SendAllWrites | socket.go:185-190 | a run of sends succeeds exactly when there is a connection and every write is accepted; it then writes exactly its frames, in order, and changes nothing else |
| Connection.SendAllKeeps | socket.go:185-190 | sending never changes the close flag, the connection, the callback or the session ids |
| Connection.SendAllFails | socket.go:185-190 | on a connection, a run of sends that does not succeed has failed, not panicked |
| Connection.CloseIdempotent | socket.go:81-87 | after Close the socket is closed, and a second Close returns nil and changes nothing; the first closes the connection once unless the socket was already closed, and succeeds exactly when the socket was closed or the connection closed cleanly |
| Connection.CheckFirstKeeps | socket.go:143-168 | the handshake check changes only the error trace and the close count, and nothing at all when it succeeds |
| Connection.SetupWrites | socket.go:179-204 | the setup succeeds exactly when the first three writes are accepted; then the four frames are written in order, and a refused fourth write is reported and closes the connection yet the result is nil |
| Connection.InitOpenIffOk | socket.go:45-78 | after Init the socket is open exactly when Init returned nil, an open socket has a connection, and the ids and the chart name are set |
| Connection.InitWrites | socket.go:45-78 | a successful Init wrote exactly the four setup frames on its new connection, its first three writes were accepted, and a refused fourth write left one close and one report |

## Left out

- Network I/O: the websocket dial, reads, writes and close are parameters (`dialOk`, `first`, `accepts`, `closeOk`). `getHeaders` and the server URL are not modelled.
- `connectionLoop`'s goroutines and the data races on `isClosed` are not modelled. Only the reaction to one read message is modelled (`Dispatch`); the echo's write error and the loop's termination are not.
- `json.Unmarshal`, `json.Marshal`, mapstructure and `GetStringRepresentation` are function parameters or reduced to the shapes the client inspects. Both encoding/json and mapstructure fall back to case-insensitive key matching (for the envelope's `m` and `p`, the series keys `n`, `s` and `v`, and the quote fields); the model matches keys exactly.
- Floating-point values are kept opaque as `real`.
- Envelope.DecodeQuoteData: `regular_close_time`, `open_time` and `lp_time` are `*int64` in Go. mapstructure truncates a JSON number into them, but the model keeps the number as it came. Two quotes whose times differ only in the fraction therefore have equal Go dedup keys but may have different model data. The dedup key is a parameter, so no proof depends on this.
- Decimal.Atoi: a digit string that leaves the 64-bit range before a non-digit is a range error in Go's `strconv.Atoi` but a syntax error in the model. Nothing in the model looks at the error kind.
- Strings are sequences of Dafny `char`, each standing for one Go byte. Lengths count bytes, as in the source. There is no UTF-8 decoding.
- Series.Truncate: the int64 conversion of floats outside the int64 range is not modelled (Go leaves its result implementation-defined).
- `fmt.Printf` output is not modelled.
- `DateTimeStr`, `AddSymbol`, `RemoveSymbol` and `RequestQuotes` are not part of this model.
- Connection.Socket.Init: only the `OnErrorCallback` setting is modelled. The model takes `OnReceiveMarketDataCallback` to be set, since `parsePacket` calls it without a nil check. It does not track `OnReceiveQuoteCallback` beyond whether one is set.
- RandomLetters.GetRandomString: the time-seeded source is a finite sequence of 63-bit words. The model requires that sequence to hold at least one word and enough accepted chunks; the source would keep drawing.
- RandomLetters.CacheChunks: the mask `& 63` and the shift `>> 6` are written as `% 64` and `/ 64`. They agree because the cache is never negative.
- Packet.ParsePacket: the capacity of the packet slice is taken to be its length. The Go slice `packet[a:b]` may reach into spare capacity; in the model, slicing past the length panics. The parallel `symbolsArr` and `dataArr` are one sequence of `Quote`.
- Connection.Socket.Connected is not a function of the source. It is the part of `Init` after a successful dial, split out to keep the proof small.

## Findings

| source | as written | input that shows it | evidently intended | confidence | as-written member | corrected member |
|---|---|---|---|---|---|---|
| socket.go:298 | the duplicate filter compares `GetStringRepresentation(dataArr[i])`, the JSON of the quote data alone; the symbol is not part of `QuoteData` | one packet with updates for two different symbols that carry equal data, e.g. both only `{"lp_time": 1700000000}`: the first symbol's update is suppressed | suppress only repeats of the same update: compare symbol and data | not executed | Packet.DataKeyDropsSymbol | Packet.SymbolDataKeyKeepsEverySymbol |

`PacketSpec` and `ParsePacket` take the comparison as a parameter. `DataKey`
instantiates it as written, and `SymbolDataKey` instantiates the corrected
comparison, for which every symbol's update reaches the callback.
