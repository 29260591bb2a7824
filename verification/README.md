# sylar in Dafny

A model of the hard parts of the sylar coroutine server framework and of the JWT utility of its blog application, with
proofs. Where the C++ code updates an object in place, the model is a class whose methods are proved against a
specification function; the properties are lemmas about those functions, over every input, every run or every
reachable state. `dafny verify dfyconfig.toml` checks everything.

## The five parts

**ByteArray** (`Bytes`, `Codec`, `FlatBuffer`, `ByteArray`, `TypedIO`, `StreamIO`). `ByteArrays.ByteArray` is the
linked list of blocks with its cursor, capacity and current node. It refines one flat sequence with a position and a
size (`FlatBuffer.Flat`), for every block size above 0. On top of it are the fixed-width, varint, zigzag and string
codecs, and the socket loops over its gather and scatter slices. Reading 0 bytes when the position equals the capacity
dereferences the null current node (bytearray.cc:386); the model returns `NullNode` there, and it is what decides the
typed round trip: a sequence of writes reads back exactly when every 16- or 32-bit length field can hold its string's
length and the sequence does not end with an empty string at a block boundary.

**Timers** (`TimerSpec`, `TimerProperties`, `Timer`). The ordered set is a sorted list of timer addresses; the objects
are mutable, and the proofs show that a key only changes while its timer is out of the set. `refresh`, `reset` and
`getNextTimer` read the clock under the lock; `addTimer` and `listExpiredCb` read it before they take it, so two
readings can reach the set in the wrong order. `detectClockRollover` subtracts an hour in unsigned arithmetic
(timer.cc:194-197), so in the first hour of uptime any backward reading at all looks like a rollover, and every timer
fires. `RolloverExactly`, `OnlyDueFireExactly` and `EarlyFiringExists` say exactly when. An expiry that sees a
rollover can also lose a wake-up (`RolloverLosesWakeUp`); `NoLostWakeUp` is about all runs and says exactly which
expiries do. The clock is monotone, `now + ms` does not wrap, and callbacks are not null.

**HTTP bodies and URLs** (`HttpBody`, `HttpExecute`, `HttpMessages`, `HttpFraming`, `UrlParser`, `UrlLoops`,
`UrlProperties`, `UrlGrammar`, `Uri`). `HttpBody.Step` is `http_parser_execute` one byte at a time from the end of the
headers on, in strict mode with callbacks that return 0; `HttpExecute.HttpParser` is the loop with its bulk skips,
marks and callbacks. `HttpFraming` says which body follows the end of the headers, by its length, in chunks, up to the
end of file or none, and where the parser stands behind the message. A byte for the header code (a start line, a
trailer field) ends the modelled run (`Left`). The URL parser is its two character machines and its two loops, and a
declarative grammar of layouts; field offsets and lengths are 16 bits wide as in the source, and the machines'
theorems hold for texts of any length. `Uri` prints a URI without the brackets of an IPv6 host, and up to three bytes
longer than the URL it came from; so it reads back exactly when the host is a name and no part that counts is printed
behind the first 65536 bytes. `std::stoi` on the port and its exception are modelled; `CreateParts` says that it never
throws below 65536 bytes.

**Coroutines** (`EventSpec`, `Runtime`, `RuntimeInvariant`, `RuntimeProperties`, `RuntimeProgress`, `IoManager`,
`Hook`, `HookRuntime`, `OwnTimers`, `LeftoverTimeout`). `Runtime` is the scheduler, the fibers, the event
registrations and the timers as a machine of atomic steps, with any number of threads. `IoManager` has the objects:
the IO manager's methods are proved against the functions of `EventSpec`, the registration layer that the machine also
uses, and those of the scheduler and its fibers against the machine's steps, whose invariant also gives what
`Fiber::resume` asserts. `Hook` is `do_io`, and `HookRuntime` runs it on the machine one step at a time, between any
steps of everybody else, with the callbacks of its timers and the field `cancelled` that all its turns share. A timer
and its callback are new objects that nobody else has; a callback sets `cancelled` and cancels the event, unless it
finds `cancelled` set or the call ended. So a turn that epoll's report ends can leave behind a callback that ends a
later turn as timed out. `OwnTimers` and `LeftoverTimeout` say when: `TimedOutByLateTimer` that only a timer of the
call does so whose `cancel()` came too late, and `EarlierTimerExactly` that an earlier turn's does if and only if its
callback has set `cancelled` already or is still to run when the next turn begins.

**JWT** (`Base64Url`, `Decimals`, `Claims`, `Token`). The base64url codec, the claims printer and its find-based
parser, and the token builder, splitter and verifier. HMAC is any function to 32 bytes; secrets, clock, jti and the
blacklist's answers are inputs. Strings are bytes: where a theorem is about decoding them back, characters are below
256.

## Assumptions of the coroutine machine

- Every block under a mutex is one step, and so is `Fiber::yield`: the source leaves a window between its state change
  and its `swapcontext`.
- `IOManager::stopping` is not one block. Its three reads, of the timers, of the pending count and of the queue, are
  three steps, and so are taking expired callbacks and scheduling each of them. Therefore `stopping()` can return true
  too early. `StopsForGood` says exactly when the answer is right, for every fixed set of threads, of which those that
  have been told so are gone: if and only if at the third read there is no timer, nothing pending and no expired
  callback still to be scheduled. `StopsWithTimerArmed`, `StopsWithEventPending` and `StopsBeforeCallback` are runs in
  which each of the three is otherwise.
- An epoll report that reaches the handler is not stale in a way that trips the assertion in `triggerEvent`
  (iomanager.cc:86). `ReportCorrect` says exactly which reports would, and `StaleReportAborts` that a cancelled event
  can leave one behind.
- An event is added only where none is registered (the source asserts it), a fiber that has arranged its wake-up
  yields next (`do_io` does: `DoIoIsDisciplined`), and a fiber is scheduled by hand only when it is new, or has no
  wake-up outstanding and is ready or the caller itself.
- A descriptor is not closed while an event is registered on it, a failing `epoll_ctl` changes nothing in the kernel,
  and `contextResize` never shrinks the table (iomanager.cc:160-164 drops one lock before it takes the other).

## Model

| member | source | states |
|---|---|---|
| ByteArrays.ByteArray.AddCapacity | sylar/bytearray.cc:499-528 | capacity grows by the least number of blocks that makes room at the cursor; contents, size and position stay, and a null current node becomes the first new block |
| ByteArrays.ByteArray.Write | sylar/bytearray.cc:345-378 | for every block size the bytes are patched into the flat sequence at the position, growing first when they do not fit; position and size follow |
| ByteArrays.ByteArray.Read | sylar/bytearray.cc:380-407 | returns the bytes at the position and moves past them, or throws without any change when fewer are left, or hits the null node exactly for an empty read at capacity |
| ByteArrays.ByteArray.SetPosition | sylar/bytearray.cc:439-455 | any position up to the capacity, with the size raised to it and the current node found again; out_of_range and no change beyond |
| ByteArrays.ByteArray.Clear | sylar/bytearray.cc:332-343 | back to the first block alone, position and size 0 |
| ByteArrays.ByteArray.NullAtCapacity | sylar/bytearray.cc:439-455 | in every valid state the current node is null exactly when the position equals the capacity |
| ByteArrays.ByteArray.CursorIsQuotient | sylar/bytearray.cc:345-378 | the current node is node number position / block size, and the offset in it is the remainder |
| ByteArrays.ByteArray.GetReadBuffers | sylar/bytearray.cc:556-585 | slices of distinct blocks whose concatenation is the first min(len, readable) unread bytes |
| ByteArrays.ByteArray.GetWriteBuffers | sylar/bytearray.cc:624-652 | slices of distinct blocks that cover exactly the positions [position, position + len), after growing like addCapacity |
| ByteArrays.ByteArray.SlicesGather | sylar/bytearray.cc:556-585 | gathering the slices of consecutive blocks gives the flat bytes from the first to the last position |
| ByteArrays.ByteArray.SlicesDisjoint | sylar/bytearray.cc:624-652 | no two slices come from the same block |
| FlatBuffer.WroteEffect | sylar/bytearray.cc:345-378 | a write leaves the bytes before it, and within the old capacity those behind it, untouched; at the end it appends, inside it overwrites |
| FlatBuffer.BlocksForIsCeiling | sylar/bytearray.cc:507-509 | the number of blocks added is the exact ceiling of the quotient |
| Codec.ByteSwapTwice | sylar/endian.h:24-46 | swapping the octets of a 2-, 4- or 8-octet word twice gives it back |
| Codec.FixedBytesPortable | sylar/bytearray.cc:64-111 | what a fixed-width write stores depends on the array's byte order only, not on the machine's |
| Codec.FixedRoundTrip | sylar/bytearray.cc:204-248 | a fixed-width read gives back the word for either byte order on either machine |
| Codec.Zigzag32Bijection | sylar/bytearray.cc:113-131 | encode and decode are inverse bijections between all of int32 and uint32, the minimum included |
| Codec.Zigzag64Bijection | sylar/bytearray.cc:121-136 | the same for int64 and uint64 |
| Codec.VarintDecodes | sylar/bytearray.cc:254-284 | from any text that starts with the varint of a value the reading loop takes exactly its groups and gets the value |
| Codec.Varint32RoundTrip | sylar/bytearray.cc:142-151 | every uint32 comes back from its 1 to 5 octets, and nothing behind them is consumed |
| Codec.Varint64RoundTrip | sylar/bytearray.cc:157-166 | every uint64 comes back from its 1 to 10 octets, and nothing behind them is consumed |
| Codec.EncodeVarint | sylar/bytearray.cc:142-151 | the writing loop produces the seven-bit groups, low first, every one but the last marked |
| Codec.VarintBytesAre | sylar/bytearray.cc:142-166 | the groups are the shortest LEB128 form: bit 7 on all octets but the last, the low seven bits adding up to the value, least significant first |
| TypedIO.WriteItem | sylar/bytearray.cc:64-202 | every typed write is the write of its item's bytes, length prefix first, and moves the position by exactly that many |
| TypedIO.ItemOnWire | sylar/bytearray.cc:64-202 | what is stored: a fixed-width number as its octets in the array's order, two's complement; a varint of the number or of its zigzag place; a string as its length in 2, 4 or 8 octets modulo 2^16, 2^32 or 2^64, or as a varint of 1 to 10 octets, and then its text |
| TypedIO.ItemWritten | sylar/bytearray.cc:345-378 | the octets of an item stand between the old position and the new one, and what is before them is untouched |
| TypedIO.ReadVarint | sylar/bytearray.cc:254-284 | the reading loop is the varint reader of the flat sequence, failures in the middle included |
| TypedIO.ReadTyped | sylar/bytearray.cc:204-330 | every typed read is the reader of its kind on the flat sequence, thrown errors and the null node included |
| TypedIO.RoundTrip | sylar/bytearray.cc:64-330 | any mixed typed writes to a fresh array, setPosition(0), and the same reads give the same values with nothing left to read if and only if every length field fits its string and the sequence does not end with an empty string at a block boundary |
| TypedIO.WriteThenRead | tests/test_bytearray.cc:19-40 | the object itself, new, written item by item, rewound and read kind by kind: the values come back and getReadSize() is 0 under exactly that condition, for every block size and byte order |
| TypedIO.WriteAll | tests/test_bytearray.cc:19-28 | the loop of writes leaves what the flat writes leave, one after the other |
| TypedIO.ReadSequence | tests/test_bytearray.cc:30-33 | the loop of reads gives what the flat reads give, and stops at the first one that throws or fails |
| StreamIO.SocketStream.Read | sylar/streams/socket_stream.cc:28-39 | one receive into fresh room moves the position over exactly the bytes that arrived |
| StreamIO.SocketStream.Write | sylar/streams/socket_stream.cc:48-59 | one gather send hands out the unread bytes from the position on and moves over those accepted |
| StreamIO.SocketStream.ReadFixSize | sylar/stream.cc:19-29 | over any sequence of short receives the loop ends, and the array has received exactly the first n bytes of the stream: all that were wanted, with the length converted to int as result, or fewer, with the non-positive result of the last receive; lengths from 2^63 on want nothing, as the loop counts in int64 |
| StreamIO.SocketStream.WriteFixSize | sylar/stream.cc:46-56 | likewise the peer gets exactly the first n unread bytes, with the same results |
| StreamIO.ReceivedAppends | sylar/stream.cc:19-29 | bytes received at the end of an array are appended to its contents |
| TimerSpec.FindFinds | sylar/timer.cc:7-25 | in a sorted set the comparator's find finds the timer itself, and only if it is in the set |
| TimerSpec.InsertSorts | sylar/timer.cc:179-190 | inserting keeps the order by deadline and address and adds just this timer |
| TimerSpec.DueExactly | sylar/timer.cc:137-161 | lower_bound of the probe timer and the walk behind it delimit exactly the timers due by now, whatever the probe's address |
| TimerProperties.CancelKeeps | sylar/timer.cc:41-50 | cancelling succeeds exactly on a pending timer, takes just it out of the set and clears its callback |
| TimerProperties.CancelKeyUnchanged | sylar/timer.cc:41-50 | clearing the callback before the search does not disturb the search, as the key does not change |
| TimerProperties.RefreshKeeps | sylar/timer.cc:52-65 | refreshing succeeds exactly on a pending timer; membership, order and m_next >= m_ms are kept |
| TimerProperties.ResetKeeps | sylar/timer.cc:67-91 | reset succeeds exactly when there is nothing to change or the timer is pending; membership and order are kept, as the timer is out of the set while its key changes |
| TimerProperties.ExpireExactly | sylar/timer.cc:137-177 | the callbacks returned are those of the selected timers, once each, by deadline; one-shot timers leave with a cleared callback, recurring ones go back at now + ms, nothing else changes |
| TimerProperties.OnlyDueFireExactly | sylar/timer.cc:137-177 | only timers with deadline <= now are handed out if and only if no rollover is seen or everything is due |
| TimerSpec.RolloverExactly | sylar/timer.cc:192-200 | the unsigned test sees a rollover exactly when the reading went back by more than an hour, or at all in the first hour of uptime |
| TimerProperties.EarlyFiringExists | sylar/timer.cc:192-200 | two readings in the wrong order at uptime 101 ms fire a timer that is due at 5000 ms |
| TimerProperties.StepWakesExactly | sylar/timer.cc:100-190 | one operation of any thread leaves a wait right exactly when it is not an expiry that sees a rollover and brings a recurring timer forward to before the end of the wait, while its owner has not been told |
| TimerProperties.NoLostWakeUp | sylar/timer.cc:121-190 | after getNextTimer reported a wait, in every run of add, cancel, refresh, reset, next and expire: after every step nothing is due before the end of the wait or onTimerInsertedAtFront was called since, if and only if every expiry of the run meets that condition |
| TimerProperties.RolloverLosesWakeUp | sylar/timer.cc:162-174 | with a rollover a re-armed timer can come due earlier without anyone being told |
| TimerProperties.AddedFires | sylar/timer.cc:28-35 | a timer added at now: an expiry at t without a rollover hands its callback out, once, if and only if t >= now + ms; afterwards it is armed if and only if it was too early or the timer recurs, and then for t + ms |
| TimerProperties.RefreshedFires | sylar/timer.cc:52-65 | refresh at now: the callback is handed out at t if and only if t >= now + the period; the other timers stay |
| TimerProperties.ResetFires | sylar/timer.cc:67-91 | reset: it is handed out at t if and only if the new period has passed since now, or since the present period began when from_now is false; the other timers stay |
| TimerProperties.AddedThenReset | sylar/timer.cc:67-91 | added at one time and reset without from_now: due the new period after it was added |
| TimerProperties.CancelledNeverFires | sylar/timer.cc:41-50 | a cancelled timer is handed out by no expiry; the other timers stay |
| TimerProperties.IdleStaysIdle | sylar/timer.cc:52-91 | refresh and reset of a timer that is not pending change nothing |
| TimerProperties.AddNotifiesExactly | sylar/timer.cc:179-190 | adding notifies exactly when the timer comes before all others and nobody was told since the last getNextTimer |
| TimerProperties.NextTimerExactly | sylar/timer.cc:121-135 | getNextTimer says never exactly when nothing is pending, and otherwise how long it is to the first deadline |
| Timers.TimerManager.AddTimer | sylar/timer.cc:100-106 | the object is the machine's addTimer, notification included |
| Timers.TimerManager.Cancel | sylar/timer.cc:41-50 | the object is the machine's cancel, result included |
| Timers.TimerManager.Refresh | sylar/timer.cc:52-65 | the object is the machine's refresh, result included |
| Timers.TimerManager.Reset | sylar/timer.cc:67-91 | the object is the machine's reset, result and notification included |
| Timers.TimerManager.GetNextTimer | sylar/timer.cc:121-135 | the object is the machine's getNextTimer; it clears m_tickled |
| Timers.TimerManager.HasTimer | sylar/timer.cc:202-205 | true exactly when some timer has a callback |
| Timers.TimerManager.ListExpired | sylar/timer.cc:137-177 | the object is the machine's expiry, callbacks in order included |
| HttpBody.StepKeepsValid | sylar/http/http-parser/http_parser.c:1826-2045 | every byte keeps what the next state asserts: content_length is positive and off the sentinel in body states, chunk states have the chunked flag, chunk_size_start starts at nread 1 |
| HttpBody.HexGuard | sylar/http/http-parser/http_parser.c:1959-1974 | the guard before a hex digit rules out the 64-bit wrap and the no-length sentinel |
| HttpBody.RunAppend | sylar/http/http-parser/http_parser.c:650-2076 | running on a text and then on another is running on both, state, callbacks, count and exit alike |
| HttpExecute.BodyRun | sylar/http/http-parser/http_parser.c:1873-1914 | a bulk skip over body bytes is as many single steps |
| HttpExecute.HttpParser.ExecuteEof | sylar/http/http-parser/http_parser.c:660-680 | an empty buffer completes an eof-delimited body, is ignored between messages, and is an error elsewhere |
| HttpExecute.HttpParser.Execute | sylar/http/http-parser/http_parser.c:650-2076 | one call with its bulk skips and marks ends in the state of the one-byte run, and its callbacks cut into single bytes are the run's, except body bytes it has marked and not handed out; there are such bytes exactly when it fails at the byte behind a chunk's data of which it took the end itself |
| HttpExecute.HttpParser.Call | sylar/http/http-parser/http_parser.c:650-680 | the whole entry point with its callbacks: a parser in error does nothing, an empty buffer reports end of file in its three ways, and any other is the one-byte run up to lost body bytes |
| HttpExecute.HttpParser.ExecuteAll | sylar/http/http-parser/http_parser.c:650-2076 | any split of a body into non-empty fragments gives the state, flags, content_length, errno and notifications of one run on the whole, and on error-free runs the same body bytes |
| HttpMessages.ContentLength | sylar/http/http-parser/http_parser.c:1529-1557 | a header value is accepted exactly when it is digits, then spaces, and denotes a number of at most 18446744073709551609; the result is that number |
| HttpMessages.HexRun | sylar/http/http-parser/http_parser.c:1941-1976 | hex digits of any length leave content_length at the number they denote, and fail exactly above 2^64 - 17 |
| HttpMessages.ChunkRuns | sylar/http/http-parser/http_parser.c:1925-2045 | a chunk with any spelling of its size and any extension makes one chunk_header, its bytes, one chunk_complete |
| HttpMessages.ChunkedDecodes | sylar/http/http-parser/http_parser.c:1757-1767 | section 4.1 of RFC 7230: the encoding of any list of non-empty blocks ends with exactly these callbacks and is consumed whole |
| HttpMessages.ChunkEventsAmount | sylar/http/http-parser/http_parser.c:1989-2045 | those callbacks hand out the concatenation of the blocks, with one header and one complete a block and no message_complete among them |
| HttpMessages.HexDigits | sylar/http/http-parser/http_parser.c:224-241 | the hex digits of a chunk size and what each stands for |
| HttpMessages.BrokenChunk | sylar/http/http-parser/http_parser.c:1925-2045 | a byte that breaks the framing of a chunk stops the parser in front of it, without a callback |
| HttpFraming.LengthMessage | sylar/http/http-parser/http_parser.c:1757-1923 | from the end of the headers on, a length n > 0 without chunks, an upgraded CONNECT or skipBody: LF and n bytes give headers_complete, exactly those bytes and one message_complete, fewer give none |
| HttpFraming.ChunkedMessage | sylar/http/http-parser/http_parser.c:1826-1870 | a chunked message decodes as its chunks whatever content_length holds |
| HttpFraming.EmptyMessage | sylar/http/http-parser/http_parser.c:1826-1870 | skipBody, length 0, a request or a bodiless response without a length, and an upgrade without a body complete with the headers |
| HttpFraming.EofMessage | sylar/http/http-parser/http_parser.c:2089-2109 | only a response that nothing else delimits takes all bytes as body, and completes at the end of file |
| HttpFraming.RefusedHeaders | sylar/http/http-parser/http_parser.c:1757-1775 | chunks together with a length, and anything but an LF, are refused without a callback |
| HttpFraming.BareLineFeed | sylar/http/http-parser/http_parser.c:1198-1212 | a bare LF ends the headers as CR LF does |
| HttpFraming.BetweenMessages | sylar/http/http-parser/http_parser.c:716-725 | between messages CR and LF are skipped; anything else is the next message's, or an error when the connection is not to go on, which behind a message is so exactly when version and flags say it |
| HttpFraming.HeaderLimit | sylar/http/http-parser/http_parser.c:154-162 | the header limit is 80 KiB, to the byte |
| UrlLoops.HttpParserUrl.ParseHost | sylar/http/http-parser/http_parser.c:2258-2337 | the host loop is the second machine's fold, error ends included |
| UrlLoops.HttpParserUrl.ParseUrl | sylar/http/http-parser/http_parser.c:2345-2466 | the URL loop with its field changes, host pass and checks is the specification ParseUrl |
| UrlLoops.HttpParserUrl.ParsePort | sylar/http/http-parser/http_parser.c:2441-2463 | the loop over the port's characters, which adds the distance of each from '0' and stops as soon as the value leaves 0 to 65535, is its fold |
| UrlParser.PortValueOfDigits | sylar/http/http-parser/http_parser.c:2441-2463 | of digits that fold is their value, refused exactly above 65535 |
| UrlProperties.CharacterClasses | sylar/http/http-parser/http_parser.c:243-433 | the character classes of the two machines, character by character |
| UrlProperties.ScanLayout | sylar/http/http-parser/http_parser.c:490-636 | whatever state parse_url_char reaches on a text of any length, the fields so far are the parts of one layout of the text read, cut to 16 bits |
| UrlProperties.ParsedLayout | sylar/http/http-parser/http_parser.c:2345-2466 | below 65536 bytes every successful parse is of a text of the grammar, and its fields are that text's parts |
| UrlProperties.ParsedFieldsAreRanges | sylar/http/http-parser/http_parser.c:2345-2466 | on success every field is a non-empty range inside the text, fields are disjoint and in the order scheme, user information, host, port, path, query, fragment, a scheme comes with a host, and port is the value of its digits and at most 65535 |
| UrlGrammar.GrammarIsParsed | sylar/http/http-parser/http_parser.c:2345-2466 | every text of the grammar whose authority and port start and fit below 65536 is parsed, whatever its length, into its parts cut to 16 bits |
| UrlGrammar.ParsesExactlyTheGrammar | sylar/http/http-parser/http_parser.c:2345-2466 | below 65536 bytes the parser accepts exactly the texts of the grammar and finds exactly their parts, for URLs and for CONNECT |
| UrlGrammar.HostScanIs | sylar/http/http-parser/http_parser.c:2176-2256 | the host machine's state and fields at every position of an authority, named or bracketed |
| Uris.Uri.Create | sylar/uri.cc:14-74 | the object has exactly the parts of the parsed URL, with port 80 for http and ws and 443 for https when there is none; or it is null, or std::stoi throws |
| Uris.CreateParts | sylar/uri.cc:14-74 | below 65536 bytes Create never throws, is null exactly when the parser refuses, and otherwise has the parts of the text's layout, the port being the value of its digits |
| Uris.PortInUse | sylar/uri.cc:79-129 | createAddress uses the port of the URL unless it is missing or 0, else 80 for http and ws, 443 for https and wss, and 0 for others |
| Uris.PortIsKept | sylar/uri.cc:14-74 | a port in the URL is kept, and without one it is 80 for http and ws, 443 for https, and 0 otherwise |
| Uris.StoiReads | sylar/uri.cc:40-50 | std::stoi reads digits behind white space and a sign, and throws without digits or beyond 32 bits |
| Uris.PrintedText | sylar/uri.cc:91-121 | section 5.3 of RFC 3986: the parts with their delimiters, always with a path, and with a port unless it is 80 for http or ws or 443 for https |
| Uris.PrintedIsUrl | sylar/uri.cc:106-121 | a printed Uri with a name as host is a text of the grammar, with the Uri's parts |
| Uris.ReadsBackCut | sylar/uri.cc:14-121 | also beyond 65536 bytes: with a path that starts below that, reading a printed Uri gives everything but query and fragment, and these from where their 16-bit offsets point |
| Uris.RoundTrip | sylar/uri.cc:14-121 | for every URL below 65536 bytes with a scheme, reading the printed Uri gives the same scheme, user information, host, port, getPath, query and fragment if and only if the host is a name, the path is printed below offset 65536, and so are query and fragment unless they are empty or repeat the text 65536 bytes before them |
| Uris.PrintedLength | sylar/uri.cc:106-121 | printing adds at most three bytes to the URL |
| Uris.RoundTripOfShortUrls | sylar/uri.cc:14-121 | so up to 65532 bytes the host alone decides |
| Uris.LongUrlLosesQuery | sylar/uri.cc:14-121 | a URL of 65535 bytes whose printed query starts at offset 65536 and comes back as another text |
| EventSpec.AddEventCorrect | sylar/iomanager.cc:153-208 | the operation chosen is always legal, so addEvent fails only when the kernel refuses; a failure registers nothing, a success exactly this work |
| EventSpec.RemoveCorrect | sylar/iomanager.cc:210-282 | delEvent and cancelEvent succeed exactly on a registered event that is not refused, and take just it; cancelling wakes who waited |
| EventSpec.CancelAllCorrect | sylar/iomanager.cc:284-324 | cancelAll takes and wakes everything on the descriptor, reader first, or changes nothing |
| EventSpec.ReportCorrect | sylar/iomanager.cc:407-462 | a report trips the assertion if and only if it names an event that is no longer registered while another is and the kernel does not refuse; otherwise exactly the reported registrations go and are woken |
| EventSpec.StaleReportAborts | sylar/iomanager.cc:407-462 | cancelling the reader between the report and the handler is such a case |
| RuntimeInvariant.StepKeepsInv | sylar/scheduler.cc:138-223 | every step of every thread keeps the invariant of tasks, fibers, registrations and the log |
| RuntimeProperties.OnePlaceEach | sylar/scheduler.cc:138-220 | in every run a scheduled task is in exactly one of the queue, one thread's hand and the finished ones, and the active count is the number in hand |
| RuntimeProperties.StoppingMeansDone | sylar/scheduler.cc:84-87 | when Scheduler::stopping() is true every task scheduled so far has completed its slice |
| RuntimeProperties.ExitsExactly | sylar/scheduler.cc:84-87 | in every reachable state the third read of stopping() lets a thread exit if and only if the scheduler was told to stop and every task scheduled so far is done |
| RuntimeProperties.ExitedHasRead | sylar/iomanager.cc:349-354 | in every run a thread exits only by three reads, one after the other, that found no timer, nothing pending, and everything done after a stop |
| RuntimeProperties.ResumeIsSafe | sylar/fiber.cc:149-153 | resume is never called on a RUNNING or TERM fiber, even when the event fires before the fiber yields |
| RuntimeProperties.WakeUpIsUnique | sylar/scheduler.cc:155-190 | a fiber is in at most one queue entry or registration, and runs on at most one thread |
| RuntimeProperties.NoWakeUpLost | sylar/hook.cc:106-148 | from a successful park on, in every run in which the fiber is not resumed and no delEvent takes its registration, it is in the queue, in a thread's hand or registered |
| RuntimeProperties.EachParkQueuedOnce | sylar/hook.cc:106-148 | from one park to the next a fiber is put on the queue exactly once once it no longer waits, whichever of report, timeout and cancelAll wins, and it does not run before |
| RuntimeProperties.EpollMirrorsContexts | sylar/iomanager.cc:153-324 | in every reachable state the interest set is the table of events, contexts are filled exactly for set bits, the pending count is their sum, and every operation asked of epoll is legal |
| RuntimeProperties.TriggersQueue | sylar/iomanager.cc:84-101 | triggering several events queues their waiters in order and nothing else |
| RuntimeProgress.ActingCan | sylar/iomanager.cc:153-324 | exactly what the fiber on a thread can do next: all calls, with an event only where none is registered |
| RuntimeProgress.IdleCan | sylar/iomanager.cc:363-462 | exactly what an idle thread can do next: take a task it may run, collect armed timers, look whether to stop, handle a report that does not trip the assertion |
| RuntimeProgress.NoThreadSticks | sylar/scheduler.cc:138-223 | in every reachable state each thread that has not exited has a step to take |
| RuntimeProgress.ScheduleQueues | sylar/scheduler.h:66-135 | schedule puts one task at the end of the queue, for the thread asked for |
| RuntimeProgress.CollectTakes | sylar/iomanager.cc:387-405 | the callbacks of the expired timers are taken in their order, and only recurring ones stay armed |
| RuntimeProgress.SubmitQueues | sylar/iomanager.cc:387-405 | they are scheduled one by one, in order and for any thread |
| RuntimeProgress.BoundTasksStay | sylar/scheduler.cc:155-166 | in every run a task scheduled for a thread is taken by that thread only |
| RuntimeProgress.FinishedForGood | sylar/fiber.cc:149-201 | a fiber that has finished is finished in every run from there on, and is not resumed again |
| RuntimeProperties.QuietIsFinal | sylar/iomanager.cc:349-354 | with no timer, nothing pending, an empty queue, nothing active and no expired callback held by an idle fiber, no further step of the scheduler's threads ever creates a task |
| RuntimeProperties.ReachableHoldsCallbacks | sylar/iomanager.cc:387-405 | in every reachable state an idle fiber that holds expired callbacks holds at least one |
| RuntimeProperties.ReachableGuarded | sylar/iomanager.cc:349-354 | in every run of a fixed set of threads, a thread is in one of run, the scheduling of expired callbacks and stopping() at a time; one of them has not seen that no timer is armed if one is, and one has not seen that nothing is pending if something is |
| RuntimeProperties.StopsForGood | sylar/iomanager.cc:349-354 | for every fixed set of threads, those told to stop being gone: when the third read lets stopping() return true, no further step of these threads ever creates a task if and only if at that moment no timer is armed, nothing is pending and no idle fiber holds an expired callback |
| RuntimeProperties.StoppingIsFinal | sylar/iomanager.cc:349-354 | that is so when no slice ended and nobody outside scheduled during the three reads, and no expired callback was in flight at the first |
| RuntimeProperties.StopsWithTimerArmed | sylar/iomanager.cc:349-354 | a run in which stopping() returns true while a timer is armed |
| RuntimeProperties.StopsWithEventPending | sylar/iomanager.cc:349-354 | a run in which stopping() returns true while an event is registered |
| RuntimeProperties.StopsBeforeCallback | sylar/iomanager.cc:349-354 | a run in which stopping() returns true although another thread is about to schedule an expired callback |
| IoManagers.Scheduler.ScheduleNoLock | sylar/scheduler.h:128-135 | the task goes to the end of the queue, a null one does not, and the answer is whether the queue was empty |
| IoManagers.Scheduler.PickTask | sylar/scheduler.cc:155-190 | the first task this thread may run is taken and counted active, the others keep their order; others are tickled when a task for another thread was passed over or any is left behind |
| IoManagers.Scheduler.PicksLikeTheMachine | sylar/scheduler.cc:155-190 | what the object picks is what the machine's Pick step picks, and queue and fibers stay in step |
| IoManagers.Scheduler.TakeTask | sylar/scheduler.cc:155-190 | from an object that reflects a machine state the locked block takes a task exactly when the machine's Pick step can happen, and then reflects the state after it |
| IoManagers.Scheduler.NothingToPick | sylar/scheduler.cc:155-190 | when the object finds no task, the machine's Pick step cannot happen |
| IoManagers.Scheduler.EnterFiber | sylar/fiber.cc:149-153 | resuming the picked fiber meets resume's assertion in every reachable state, and is the machine's Resume step |
| IoManagers.Scheduler.EnterCallback | sylar/scheduler.cc:200-208 | resuming a new fiber for a picked callback is the machine's Resume step with a new fiber number |
| IoManagers.Scheduler.YieldOn | sylar/fiber.cc:166-187 | the running fiber's yield meets its assertion and is the machine's Yield step; the thread is back at its main fiber |
| IoManagers.Scheduler.CompleteOn | sylar/fiber.cc:190-201 | the end of the callback, with the yield behind it, is the machine's Finish step |
| IoManagers.Scheduler.Release | sylar/scheduler.cc:194-212 | the end of a slice is the machine's Release step |
| IoManagers.Scheduler.Reuse | sylar/fiber.cc:133-147 | resetting a finished fiber and scheduling it is the machine's PostFiber step of a new fiber |
| IoManagers.Scheduler.Stopping | sylar/scheduler.cc:84-87 | for an object that reflects a machine state the answer is the machine's stopping condition; when true in a reachable state, every task scheduled so far is done |
| IoManagers.FdContext.TriggerEvent | sylar/iomanager.cc:84-101 | the event's bit and context are reset and its waiter is scheduled |
| IoManagers.IoManager.AddEvent | sylar/iomanager.cc:153-208 | the object is the specification's addEvent, table growth included |
| IoManagers.IoManager.DelEvent | sylar/iomanager.cc:210-246 | the object is the specification's delEvent, and schedules nothing |
| IoManagers.IoManager.CancelEvent | sylar/iomanager.cc:248-282 | the object is the specification's cancelEvent, waiter queued last |
| IoManagers.IoManager.CancelAll | sylar/iomanager.cc:284-324 | the object is the specification's cancelAll, waiters queued in order |
| IoManagers.IoManager.HandleReport | sylar/iomanager.cc:407-462 | the object is the specification's turn of the report loop |
| IoManagers.Fiber.Complete | sylar/fiber.cc:190-201 | the callback is dropped and the fiber has finished |
| Hook.DoIo | sylar/hook.cc:82-149 | the retry loop takes the steps and gives the outcome of its specification, answer by answer |
| Hook.DoIoIsDisciplined | sylar/hook.cc:106-148 | it yields right after every successful park, disarms every timer it arms, and parks once for every call that would block |
| Hook.DoIoOutcome | sylar/hook.cc:106-148 | the first answer that is not to be tried again decides: its value, a refused registration, or the timeout |
| Hook.DoIoGoesOn | sylar/hook.cc:106-148 | it goes on exactly as long as every answer is one to be tried again |
| HookRuntime.DoIoOnRuntime | sylar/hook.cc:106-148 | on the runtime, whatever everybody else does in between, the steps taken and the outcome are those of the specification for the answers got; before the end they are a beginning of it |
| HookRuntime.DoIoCanGoOn | sylar/hook.cc:106-148 | its next step is always possible when its fiber runs, except that addEvent needs the event to be free, exactly |
| OwnTimers.MoveKeepsOwn | sylar/hook.cc:113-141 | every move keeps: a timer of the call is armed in the present turn only, its callback is queued, in hand or listed only once it has expired, and a timer that was cancelled in time never expires |
| OwnTimers.MoveKeepsLambda | sylar/hook.cc:116-127 | every move keeps: the callbacks of the call are tasks for any thread and run on fibers of their own that do not park |
| OwnTimers.TimesOutExactly | sylar/hook.cc:113-141 | a turn ends in a timeout if and only if by the time it looks some timer has been armed by the call, then has expired, and then its callback has set cancelled |
| OwnTimers.TimedOutByLateTimer | sylar/hook.cc:113-141 | a call ends as timed out only if it has a timeout, by a timer of its own whose cancel() came too late; if the timers of all earlier turns were cancelled in time it is the timer of the turn that it ends with |
| LeftoverTimeout.EarlierTimerExactly | sylar/hook.cc:106-145 | when the original function is about to be called, and nobody is registered for the event (addEvent asserts it), a timer of an earlier turn can end a later turn as timed out if and only if cancelled is set already or the callback of such a timer is still queued, in hand or to be scheduled; the cancel() of that timer came too late; the threads that have something in hand are enough |
| LeftoverTimeout.LeftoverStrikes | sylar/hook.cc:113-141 | this happens: a run in which the timer of the first turn ends the second one, whose own timer is still armed when it is cancelled |
| Base64Url.RoundTrip | blog/src/util/jwt_util.cc:53-163 | section 5 of RFC 4648: decoding undoes encoding for every byte string, and the encoding has URL-safe characters only, so no dot |
| Base64Url.EncodeInjective | blog/src/util/jwt_util.cc:53-105 | different byte strings have different encodings |
| Base64Url.EncodesBits | blog/src/util/jwt_util.cc:47-105 | sections 4 and 5 of RFC 4648: character k stands for the six bits from 6k on, in the URL-safe alphabet and without padding |
| Base64Url.DecodesBits | blog/src/util/jwt_util.cc:107-163 | for every text: characters of either alphabet are taken up to the first foreign one, and octet k is the eight bits from 8k on of their values |
| Base64Url.Base64UrlEncode | blog/src/util/jwt_util.cc:53-105 | the loop, the two replacements and the erased padding give the encoding |
| Base64Url.Base64UrlDecode | blog/src/util/jwt_util.cc:107-163 | the replacements, the padding and the loop up to the first foreign character give the decoding, for every text |
| Claims.StollPrinted | blog/src/util/jwt_util.cc:174-291 | every int64 that was printed is parsed back |
| Claims.StollReads | blog/src/util/jwt_util.cc:199-291 | std::stoll reads digits behind white space and a sign, and throws without digits or beyond 64 bits |
| Claims.SerializesJson | blog/src/util/jwt_util.cc:174-197 | the printed claims are a JSON object with sub, username, nickname, jti, iat, exp, iss and, unless empty, roles, each with its value |
| Claims.ParseExactly | blog/src/util/jwt_util.cc:199-261 | parsing succeeds exactly on the texts that hold the six mandatory fields in this order, with numbers in range where they are due, and the claims have those values |
| Claims.OptionalExactly | blog/src/util/jwt_util.cc:246-286 | what becomes of a missing or unclosed issuer and where the roles are sought |
| Claims.RolesExactly | blog/src/util/jwt_util.cc:255-286 | roles are added when their list is found, else the claims stay |
| Claims.ParsedIsClean | blog/src/util/jwt_util.cc:199-291 | no parsed string contains a quote and no parsed role a bracket |
| Claims.ReadsBack | blog/src/util/jwt_util.cc:174-291 | clean claims read back into any claims object, with the roles appended |
| Claims.RoundTrip | blog/src/util/jwt_util.cc:174-291 | printed claims read back into a fresh object if and only if the strings have no quote and the roles no quote or closing bracket |
| Claims.RolesLoop | blog/src/util/jwt_util.cc:264-282 | the loop over the roles is the recursive reader |
| Claims.PrintRolesLoop | blog/src/util/jwt_util.cc:184-192 | the loop prints the roles quoted and separated by commas |
| Token.GeneratedIsAccepted | blog/src/util/jwt_util.cc:314-433 | section 7.1 of RFC 7515: a token under the current or previous secret is accepted and gives its claims back if and only if they are structurally valid, unexpired, not blacklisted and clean |
| Token.NewTokenIsAccepted | blog/src/util/jwt_util.cc:314-349 | for the token that generateToken makes this comes down to its arguments, the jti and the clocks; the issuer it adds is always clean |
| Token.AcceptedIsGenuine | blog/src/util/jwt_util.cc:384-433 | a token is accepted if and only if it is not blacklisted and has exactly two dots, its third segment is the MAC of everything before the last dot under an accepted secret, and its claims are those of the second segment, valid and unexpired |
| Token.AcceptedExactly | blog/src/util/jwt_util.cc:384-433 | in terms of the octets: accepted with these claims if and only if the third segment is the base64url text of the MAC of everything before the last dot under the current or a non-empty previous secret, and decodes to it, the first decodes to a header for HS256, the second reads as the claims, every claim is there, it is unexpired and its jti is not blacklisted |
| Token.TokenSegments | blog/src/util/jwt_util.cc:330-343 | a made token's segments decode to the header, the printed claims and the MAC of the first two with the dot between them |
| Token.NewTokenReadsBack | blog/src/util/jwt_util.cc:314-343 | an accepted new token gives back each argument, the jti, the two times and the issuer in its own field |
| Token.Splits | blog/src/util/jwt_util.cc:351-382 | splitting at the second dot and at the last is the same for three dot-free segments |

## Left out

- ByteArray: the three-argument `read`, `toString`, `getReadBuffers` with a position, file input and output, floats, and the wrap of size_t; block size 0.
- ByteArray varint loops: `result |= b << i` is modelled as an addition, which is the same as the bits do not overlap.
- Timers: addConditionTimer's weak pointer test (for do_io's timers it is in HookRuntime), and callbacks running.
- HTTP: request and status lines, header fields and trailers, paused parsers and callbacks that return non-zero; the sylar callbacks of http_parser.cc.
- HTTP: body fragments that end in an upgrade stop there; what follows is another protocol.
- HttpExecute.HttpParser.Execute: a failing call does not hand out the body bytes it has marked; they are its ghost result `lost`.
- URL: non-strict mode, and Uri::createAddress.
- Uris.RoundTrip: is about URLs below 65536 bytes, whose offsets the parser's 16-bit fields can hold.
- Scheduler: threads and their start and join, use_caller's root fiber, the idle thread count and the tickle pipe; PickTask says when others are to be tickled.
- IOManager: a second scheduler as the target of an event, the 5-second rounding of epoll_wait and its 256 entries, and fairness or liveness between threads.
- Fiber: stacks and context switches, and exceptions in callbacks; run never reuses a thread's callback fiber, as it drops it after every task.
- Hooks: sleep, connect and the descriptor manager; the race of two callbacks of the same call on `cancelled`, which has no lock: one of them sets it, and both may cancel the event.
- RuntimeProperties.EachParkQueuedOnce: a park that another fiber removes with delEvent is dropped, not woken; the framework itself never calls delEvent.
- JWT: the RNG, the blacklist stores, secret loading and rotation, and locales other than "C".
- The blog's servlets, services and storage, connection pools, logging, configuration, address helpers and daemon code: database and library plumbing.
