# mpd-http, modelled in Dafny

mpd-http is a small Node.js bridge. It answers `GET /status` with the music
player daemon's (MPD's) current status and current song, as JSON. For each
request it connects to the daemon and reads the greeting `OK MPD <version>`.
Then it sends `status`, then `currentsong`, parsing each `key: value` reply
into a record. Last it sends `close` and hands both records to the one
pending HTTP response.

This project models the core of `server.js`:

- `text.dfy`, module `Text`: `String.prototype.split` with one separator
  character, as applied to every chunk received from the daemon, with `Join`
  as its inverse.
- `response_parser.dfy`, module `ResponseParser`: `parseResponse`. It is a
  method with the source's `for` loop, `break` and `continue`
  (`ParseResponse`). It is proved equal to a recursive specification
  (`Parse`), and the parser's properties are lemmas about that specification.
  The regular expression `/^([a-z_-]+): (.*)$/i` is spelled out as predicates:
  - the key is a non-empty run of ASCII letters of either case, `_` or `-`;
  - then comes exactly `": "`;
  - the value is the rest of the line and holds none of the four characters
    JavaScript's `.` rejects (`\n`, `\r`, U+2028, U+2029).
- `session.dfy`, module `Session`: the socket's `data`, `close` and `error`
  handlers, `sendResponse` and the `/status` route handler. They form one
  transition function `Next` over the module-level variables `clientState`,
  `mpdVersion`, `mpdStatus`, `mpdSong` and `response`. `Run` applies a
  sequence of events. Lemmas cover single transitions, whole sessions, and
  at-most-once delivery.
- `server.dfy`, module `Server`: class `Bridge`. Its fields are those
  variables plus an effect log, and its methods update them in place the
  way the handlers do. Each handler is proved to match `Next`, and
  `SendResponse` to match `Respond`. `ServeStatus`
  drives one fresh object through a successful request.
- `padding.dfy`, module `Padding`: `leadingZero` over natural numbers, with
  numbers rendered as plain decimal digits (as JavaScript renders integers
  below 10^21).
- `wrappers.dfy`, module `Wrappers`: `Option`, which stands for `null` and
  for a failed regular-expression match.

How the outside world appears in the model:

- Each event (`Data`, `Closed`, `Failed`, `Get`) is one method call on
  `Bridge`, or one element of the event sequence given to `Run`.
- Every effect on the outside world is appended to one ordered log,
  `effects`:
  - `Connect` is `socket.connect`;
  - `Write(text)` is `socket.write`;
  - `Destroy` is `socket.destroy()`;
  - `Deliver(res, payload)` is `writeHead(200)` followed by
    `end(JSON.stringify(payload))`.
- An HTTP response object is an opaque `ResponseId`.
- `Payload` is `Ok(status, currentSong)` or `Err(message)`, standing for the
  two JSON objects the program sends.

Semantics made explicit:

- `parsed[key] = value` on a plain JavaScript object does not create an
  entry for the key `__proto__`. The assignment goes to the prototype setter,
  which ignores strings. `Store` skips that key, so no record ever holds it.
- A chunk is split on `"\n"` before anything else. `split` always yields at
  least one piece, so `lines[0]` always exists and the greeting test needs
  no precondition.
- Above 9, `leadingZero` returns the number itself, not a string. Its only
  caller concatenates the result into a string, so the model returns the
  decimal rendering in both branches.
- Dafny strings are sequences of Unicode scalar values, while JavaScript
  strings are UTF-16. The patterns test only ASCII characters and the four
  line terminators. Each of these is a single UTF-16 code unit, so the two
  representations agree on everything the patterns test.

Behaviour of the code worth knowing:

- A greeting that does not match destroys the socket and delivers nothing.
  The state stays 0 and nobody is answered.
- After the current-song reply the state stays 3. It goes back to 0 only
  when the socket's `close` event arrives.
- A second `/status` request while one is pending overwrites the slot.
  The earlier caller is never answered (`EarlierCallerOrphaned`).
- A non-matching line is skipped and scanning continues. The parser never
  stops early on such a line.

## Model

| member | source | states |
|---|---|---|
| `Text.Split` | server.js:78 | `data.split('\n')` always yields at least one piece, and no piece contains a newline |
| `Text.JoinSplit` | server.js:78 | joining the pieces of a split with the separator gives back the received text |
| `Text.SplitJoin` | server.js:78 | splitting a join of newline-free pieces gives back exactly those pieces |
| `Text.SplitNoSeparator` | server.js:78 | text without a newline is one piece |
| `Text.SplitAfterPiece` | server.js:78 | the first piece ends at the first newline; the rest is split on its own |
| `ResponseParser.MatchLine` | server.js:54 | a match yields a key of letters, `_` and `-`, and a value free of line terminators; the line is exactly key, `": "`, value |
| `ResponseParser.MatchLineComplete` | server.js:54 | every well-formed `key: value` line matches and splits back into exactly that key and value |
| `ResponseParser.MatchLineNeedsColon` | server.js:54-58 | a line without a colon never matches |
| `ResponseParser.Block` | server.js:47-52 | the scanned lines are the longest prefix free of a line exactly `OK`; they are followed by `OK` or by nothing |
| `ResponseParser.Store` | server.js:60 | no contract: the definition of `parsed[key] = value`, skipping `__proto__`; its properties are `ParseKeys`, `ParseLastWins` and `ParseBlockEntry` |
| `ResponseParser.Step` | server.js:54-60 | no contract: the definition of one loop pass after the terminator test; its properties are `ParseSkipsUnmatched` and `ParseBlockEntry` |
| `ResponseParser.ParseBlock` | server.js:54-60 | every key in the record is a well-formed name other than `__proto__`, and every value is free of line terminators |
| `ResponseParser.Parse` | server.js:44-64 | no contract: the definition of `parseResponse`; its properties are `ParseStopsAtTerminator`, `ParseKeys`, `ParseLastWins`, `ParseEmpty`, `ParseRenderRoundTrip` and `ParseIdempotent` |
| `ResponseParser.ParseResponse` | server.js:44-64 | the loop with `break` and `continue` returns exactly `Parse(lines)` |
| `ResponseParser.ParseStopsAtTerminator` | server.js:47-52 | the first `OK` line and every line after it contribute nothing, whatever they hold |
| `ResponseParser.ParseContinuesPastNonTerminator` | server.js:50-52 | any line other than exactly `OK` (such as `OK ` or `ok`) does not end the scan |
| `ResponseParser.ParseSkipsUnmatched` | server.js:54-58 | a line that is neither `OK` nor a match can be removed without changing the result; scanning continues past it |
| `ResponseParser.ParseKeys` | server.js:54-60 | a key is in the record if and only if it is not `__proto__` and some line before the first `OK` sets it |
| `ResponseParser.ParseLastWins` | server.js:60 | a key's value is the text after `": "` on the last line before the first `OK` that sets it |
| `ResponseParser.ParseEmpty` | server.js:45-63 | the record is empty if and only if no line before the first `OK` sets a key other than `__proto__`; empty input gives the empty record |
| `ResponseParser.ParseBlockEntry` | server.js:60 | one more well-formed entry line stores its key and value, overwriting an earlier value |
| `ResponseParser.ParseTwoEntries` | server.js:44-64 | two entry lines, `OK` and anything after it give the first entry updated by the second, so the later line wins on a shared key |
| `ResponseParser.ParseSingleEntry` | server.js:44-64 | a reply of one entry line and `OK` gives a record with just that entry |
| `ResponseParser.ParseBlockRender` | server.js:54-60 | the entry lines of a valid record parse back to that record and never contain `OK` |
| `ResponseParser.ParseRenderRoundTrip` | server.js:44-64 | a valid record written out as a reply ending in `OK` parses back to itself |
| `ResponseParser.ParseIdempotent` | server.js:44-64 | parsing, writing the record back out and parsing again gives the same record |
| `ResponseParser.ExampleTerminator` | server.js:47-52 | `["artist: A", "title: B", "OK", "ignored: C"]` gives `{artist: A, title: B}` |
| `ResponseParser.ExampleDuplicate` | server.js:60 | `["volume: 1", "volume: 2", "OK"]` gives `{volume: 2}` |
| `ResponseParser.ExampleGarbage` | server.js:56-58 | `["garbage", "title: X", "OK"]` gives `{title: X}` |
| `Padding.Decimal` | server.js:20 | a number renders as at least one digit, with no leading zero unless it is 0; one digit exactly below 10, at most two below 100 |
| `Padding.DecimalRoundTrip` | server.js:20 | reading back the decimal rendering of a number gives the number |
| `Padding.LeadingZero` | server.js:18-24 | the result is digits denoting `n`; above 9 it is `n` unpadded; below 10 it starts with `0`; below 100 it is exactly two characters |
| `Session.Respond` | server.js:125-137 | no contract: the definition of `sendResponse`; its properties are `RespondAtMostOnce`, `ErrorDelivers` and `NextAccounting` |
| `Session.DataStep` | server.js:77-115 | no contract: the definition of the `data` handler; its properties are `GreetingAccepted`, `GreetingChunkAccepted`, `GreetingRejected`, `GreetingOnlyFirstLine`, `StatusReceived`, `SongReceived` and `DoneIgnoresData` |
| `Session.Next` | server.js:66-142 | no contract: the definition of every handler and the route handler as one transition; its properties are the single-step lemmas, `HappySession`, `RunAccounting` and `EarlierCallerOrphaned` |
| `Session.MatchGreeting` | server.js:82 | a match yields a non-empty version of digits and dots, and the line is exactly `OK MPD ` followed by it |
| `Session.MatchGreetingComplete` | server.js:82 | every `OK MPD <digits and dots>` line matches and yields exactly its version |
| `Session.GreetingAccepted` | server.js:81-90 | in state 0 a well-formed greeting moves to state 1, records the version, writes exactly `status\n` and ignores the later lines |
| `Session.GreetingChunkAccepted` | server.js:78-90 | in state 0 a chunk that is a well-formed greeting line, alone or followed by a newline and anything, moves to state 1, records the version and writes exactly `status\n` |
| `Session.GreetingRejected` | server.js:91-93 | in state 0 any other first line destroys the socket, keeps every variable, writes nothing and answers nobody |
| `Session.GreetingOnlyFirstLine` | server.js:82 | in state 0 only the first line of the chunk decides the transition |
| `Session.StatusReceived` | server.js:96-102 | state 1 stores the parsed chunk as the status, moves to 2 and writes exactly `currentsong\n` |
| `Session.SongReceived` | server.js:103-113 | state 2 stores the parsed chunk as the song, moves to 3, writes `close\n` and then answers the pending response, if any, with both records |
| `Session.DoneIgnoresData` | server.js:80-114 | in state 3 any sequence of data chunks changes no variable and has no effect |
| `Session.CloseResets` | server.js:66-69 | `close` sets the state to 0 and touches nothing else |
| `Session.ErrorDelivers` | server.js:71-75 | `error` answers the pending response with the message, clears the slot, and keeps the state |
| `Session.RespondAtMostOnce` | server.js:125-137 | after one `sendResponse` a second one finds the slot empty and does nothing |
| `Session.GetOverwritesSlot` | server.js:139-142 | a request overwrites the slot, whatever it held, and connects |
| `Session.HappySession` | server.js:77-142 | from state 0, a request with a good greeting and two replies writes exactly `status`, `currentsong`, `close`, then answers once with both parsed records, leaving state 3 and an empty slot |
| `Session.HappySessionThenClose` | server.js:66-142 | after a successful session, stray data does nothing and `close` returns the state to 0, with still one answer and one `close` |
| `Session.ExampleStatusLines` | server.js:78 | `"volume: 50\nstate: play\nOK\n"` splits into `["volume: 50", "state: play", "OK", ""]`: the final newline leaves an empty piece |
| `Session.ExampleStatusReply` | server.js:44-64 | that reply, split and parsed as the `data` handler does, gives `{volume: 50, state: play}` |
| `Session.NextAccounting` | server.js:125-142 | one event answers a response only by emptying the slot that held it, and only a request fills the slot |
| `Session.RunAccounting` | server.js:125-142 | over any events, the answers to a response plus its presence in the slot never exceed its requests plus its initial presence |
| `Session.AtMostOnceDelivery` | server.js:125-142 | from an empty slot, each response is answered at most as often as it was requested |
| `Session.EarlierCallerOrphaned` | server.js:139-142 | a second request while the first is pending means the first caller is never answered, unless it asks again |
| `Server.Bridge.constructor` | server.js:12-16 | the variables start as declared, with an empty effect log |
| `Server.Bridge.SendResponse` | server.js:125-137 | `sendResponse` in place: does nothing when the slot is null, otherwise logs one delivery and clears the slot |
| `Server.Bridge.OnData` | server.js:77-115 | the `data` handler in place: the new variables and the appended effects are those of `Next` |
| `Server.Bridge.OnClose` | server.js:66-69 | the `close` handler in place, as `Next` says |
| `Server.Bridge.OnError` | server.js:71-75 | the `error` handler in place, as `Next` says |
| `Server.Bridge.GetSong` | server.js:117-123 | `getSong` logs one connection and changes no variable |
| `Server.Bridge.HandleGet` | server.js:139-142 | the route handler in place: stores the response and connects |
| `Server.ServeStatus` | server.js:77-142 | a fresh bridge serving one request from a well-behaved daemon logs exactly connect, `status`, `currentsong`, `close` and one delivery of both parsed replies |

## Left out

- Loading `config.json` (server.js:8) is file I/O. The daemon's host and port appear only as the `Connect` effect.
- Opening the socket and its `connect` callback (server.js:9, 117-123) are network I/O. The callback only logs, so `Connect` is a recorded effect with no state change.
- The socket's `destroy()` also raises `close` later. The model does not raise it by itself; the caller sends `Closed` as a separate event.
- TCP chunking is not modelled: each `Data` event carries one whole reply. Decoding a `Buffer` to a string (server.js:78) is left out too.
- The HTTP server, `HttpDispatcher` routing and the `try`/`catch` around `dispatch` (server.js:139, 144-158) are foreign library calls. Only the slot assignment of the route handler is modelled.
- `JSON.stringify`, `writeHead` and `end` (server.js:130-134) become one `Deliver` entry carrying a `Payload` value. Records are maps, so the key order of the JSON body (first insertion order) is not kept.
- `logger` (server.js:26-42) reads the clock and writes to the console. Only `leadingZero` is kept, and no log lines are recorded.
- The event loop is not modelled, nor is real concurrency. Events are a sequence of calls.
- `Padding.LeadingZero`: negative and fractional numbers are not modelled, nor numbers from 10^21 up, which JavaScript writes in exponent form, nor the loss of exactness above 2^53. Its only caller passes calendar fields, which are non-negative integers.
