# A verified model of the HTTP stack

The project models the HTTP/1.x stack of `anet/` and proves what it is for:

* the incremental parser `http_parser_execute`, fed with arbitrary buffers (`Execute.dfy`, `Stream.dfy`), against a
  machine that looks at one byte at a time (`Machine.dfy`);
* the URL decomposer `http_parser_parse_url` and the class `Url` with its query scanner (`UrlRecord.dfy`, `UrlObject.dfy`),
  against grammars (`UrlGrammar.dfy`, `HostGrammar.dfy`, `Decompose.dfy`, `Query.dfy`);
* the packet printer `Packet::Serialize`, the packet parser `http::Parser` and the session that drives it (`Packet.dfy`,
  `PacketParser.dfy`, `Session.dfy`), up to the round trip between them (`RoundTrip.dfy`).

The configuration is that of the build: `HTTP_PARSER_STRICT` is 1, the parser is created as `HTTP_BOTH`, and callbacks return 0
and leave the C parser alone, except where `http::Parser` itself is modelled. Bytes are `char`s with codes below 256.

How the pieces fit:

* One trip through the big switch for one byte is a `Pass`: the new record, what happens to the marks, which callback is made,
  and whether the byte is consumed, looked at again, the end of the call, or an error. `Run` folds passes over a buffer.
* The class `HttpParser` is the C function: an index into the buffer, five marks, the inner loops over header names and values,
  the `memchr` jump, the jumps over body data, `goto reexecute` and `--p`, and the byte count with its early exits. Its method
  `Execute` is proved to make the same callbacks as `Run`, with the same record, return value and error, unless the header
  budget is exceeded.
* `Spend` (`Budget.dfy`) is the header budget of a call: where the code counts, where it looks at the count, and where it counts a
  byte twice. So an overflow is exact too: its place, its callbacks, its return value. It is then compared with a plain count of
  the header bytes.
* Everything else about streams is proved about `Run`: any cut into buffers is harmless (with the exception below), the callbacks
  follow a grammar, methods and header names are recognised exactly, numbers are exact or refused, bodies are conserved, chunks are
  put together again. `Message.dfy` puts the parts together: whole messages and streams of them, in any partition.
* The tables and classes at the bottom are stated a second time, with their letters, names, numbers and errors written out:
  `Alphabets.dfy` (character classes, case, digits), the maps of the methods and of the status names (`Http.dfy`, `Packet.dfy`),
  the bytes each component of a URL may hold (`UrlClasses.dfy`), the bytes each state refuses and with which error
  (`Refusals.dfy`), and the byte count (`Counting.dfy`, `HeadSize.dfy`). `Delivery.dfy` and `Requests.dfy` say what a new session makes of
  whole messages and of requests written out; `VideoList.dfy` does so for the packet the application sends.

Where the code does something its users may not expect, the model keeps it and the project says exactly when:

* A cut between two bytes of an unrecognised header value exposes the second one to a character check that the `memchr` jump
  skips when the two come together. This is the only way in which cutting a stream can matter (`Split.SplitBuffer`), and an
  input gets there (`Inputs.ExposureReached`).
* The elements of a `Connection` list are not all looked at. `Connections.LookedAt` says which, and each flag is set if and only
  if its keyword is among them (`Connections.ConnectionExact`). A proper beginning of a keyword swallows its comma, so that the
  next element is skipped; an element after the first that is empty, or that begins with a byte whose `LOWER` is no token
  character, ends the list. A request with the list "clo,close", "x,clo,close" or "x,,close" leaves the connection open, one with
  "clo,x,close" ends it (`Inputs.CloseOverlooked`).
* A header that exceeds the budget is not always an error for `Parser::Parse`: the C function may return the length of the whole
  buffer. It does so if and only if the overflow is silent (`Overflow.Silent`): the limit is reached in a name or value that
  begins, or goes on, within the limit and whose end is not seen, because the buffer ends first, or because it is an unrecognised
  value and its next `HTTP_MAX_HEADER_SIZE` bytes hold no line end. The status is then no error, unless a callback has failed
  (`Sessions.OverflowStatus`), and an input gets there (`Inputs.OverflowReached`).
* A header that goes on in further lines makes one value callback for each line, the blank included, and `http::Parser` keeps only
  the last. A `Transfer-Encoding` that goes on is not taken note of. A `Connection` list goes on only where the next line begins where
  an element is awaited; else the element before it and the rest are lost (`HeaderLines.LookedIn`, `HeaderLines.FoldedAlone`).
* A body that ends with the stream is refused by `http::Parser`, which has no buffer for it; but the status of the call that
  brings it is no error (`Deliveries.NewSession`).
* A query that ends in `=` or `&` after a key, and no other, stores that key with a value that runs over delimiters
  (`Query.ScannedExact`, `Query.DanglingValue`).
* In `s_start_res` every stray CR or LF makes an `on_message_begin` callback. Nothing else repeats it, and after a repetition
  only a status follows (`Grammar.BeginsAgain`, `Grammar.Step`).

## Model

| member | source | states |
|---|---|---|
| Execute.HttpParser.Execute | anet/extra/http_parser.c:632-2046 | One call on any buffer, from any reachable record, exactly: its callbacks, its return value and its error are those of `CallOf`, that is, of the byte machine, of the end of the stream for an empty buffer, or of an exceeded budget; without an error it ends in the record of the machine, and its byte count is that of the machine, plus one where a loop ended with the buffer. After an error it does nothing. |
| Budget.SpendCuts | anet/extra/http_parser.c:150-157 | If the budget is exceeded, the callbacks made by then are the first of the machine's callbacks, and a plain count of the header bytes passes the limit; or just reaches it, in a name or value at the end of the buffer. |
| Budget.SpendKeeps | anet/extra/http_parser.c:150-157 | If it is not exceeded, a plain count of the header bytes never rises above the limit in a call that does not fail otherwise. |
| Budget.NameSpending | anet/extra/http_parser.c:1230-1357 | Name bytes beyond the limit are reported where the name ends: with the last byte of the buffer, and the call then returns the whole length; or at the byte that ends the name. |
| Overflow.SilentOverflow | anet/extra/http_parser.c:1230-1642 | Over all states and buffers: a call exceeds the budget and still returns the length of its buffer if and only if the overflow is silent, a condition on the state before the call and the text: a name or value begins, or goes on, with a byte within the limit, and from there it runs to the end of the buffer, with the limit reached, or to a byte of an unrecognised value whose next HTTP_MAX_HEADER_SIZE bytes hold no line end. |
| Overflow.OverflowExact | anet/extra/http_parser.c:150-157 | A call that does not fail for another reason exceeds the budget if and only if a plain count of the header bytes passes the limit or the overflow is silent. |
| Execute.HttpParser.ScanField | anet/extra/http_parser.c:1230-1357 | The inner loop over a header name, with its count and its `--p` at the end of the buffer, does what the passes over its bytes and the budget do. |
| Execute.HttpParser.ScanValue | anet/extra/http_parser.c:1439-1642 | The inner loop over a header value, with the `memchr` jump, does what the passes over its bytes and the budget do; a CR delivers the value before the bytes are counted, an LF after; a jump to the end of the buffer exceeds the budget. |
| Execute.HttpParser.TakeContent | anet/extra/http_parser.c:1837-1871 | The jump over body data delivers the same bytes, counts them down, and reads the last byte twice as the machine does. |
| Execute.HttpParser.TakeChunk | anet/extra/http_parser.c:1970-1991 | The jump over chunk data delivers the same bytes and counts them down. |
| Execute.HttpParser.AtEof | anet/extra/http_parser.c:652-672 | The end of the stream completes a message whose body it delimits, is ignored between messages, and is an error anywhere else. |
| Execute.HttpParser.CountHeaderSize | anet/extra/http_parser.c:150-157 | The byte count grows by the given size and the call fails exactly when it passes the limit. |
| Machine.PassOf | anet/extra/http_parser.c:700-2024 | Every `goto reexecute` lowers the rank of the state, so that a byte is looked at finitely often. |
| Invariant.PassKeepsSane | anet/extra/http_parser.c:700-2024 | The reachable-state invariant: header state and index fit the state, the index lies inside the keyword or method, chunk states have the chunked flag, lengths in bodies are neither 0 nor the sentinel, the sentinel stands for an absent length, and a chunk size starts with a fresh byte count. |
| Marks.PassSuits | anet/extra/http_parser.c:675-698 | At most the datum being collected is marked: every pass leads between states whose data fit its effect on the marks. |
| Scan.JumpLeads | anet/extra/http_parser.c:1460-1491 | Passing over the bytes of an unrecognised value one by one is the jump over them, if only the first is checked. |
| Split.SplitBuffer | anet/extra/http_parser.c:675-698 | Parsing a and then b is parsing a and b together: same record, outcome and merged callbacks; with one exact exception, where the second call is rejected at its first byte. |
| Split.ExposedByte | anet/extra/http_parser.c:1460-1491 | An illegal byte of an unrecognised value at the start of a buffer is rejected, and jumped over after such a byte. |
| Inputs.ExposureReached | anet/extra/http_parser.c:1460-1491 | The exception is real: a request cut before an illegal byte of a header value fails at that byte in the second buffer, and is taken to its end in one buffer, by a fresh parser. |
| Split.Partition | anet/extra/http_parser.c:2026-2038 | Any partition of a stream gives the record, outcome and merged callbacks of one buffer, unless it fails by exposing an illegal header value byte. |
| Reading.ReadInPieces | anet/extra/http_parser.c:675-698 | A stream that passes every check is completed in every partition, with the same record and merged callbacks. |
| Reading.StopsInPieces | anet/extra/http_parser.c:675-698 | A stream that passes every check up to a byte that ends the run is stopped at that byte in every partition, with the same outcome, record and merged callbacks. |
| Stream.Feed | anet/extra/http_parser.c:632-2046 | Calls of Execute on the pieces of a stream, up to an error or an upgrade: the callbacks, record and outcome of the byte machine on the pieces fed, which are those of one buffer unless a cut exposes an illegal byte; or an overflow after the first of its callbacks; and callbacks that obey the grammar in every case. The byte count is that of the header bytes, plus at most one for each call, and only that may make a call overflow when the header bytes do not. |
| Stream.RunAhead | anet/extra/http_parser.c:150-157 | The byte count a run starts with decides about nothing but the byte count it ends with. |
| Grammar.PassAdvances | anet/extra/http_parser.c:700-2024 | Every pass from a state that agrees with a phase of the callback grammar makes a callback the grammar allows there and leads to an agreeing state. |
| Grammar.CallbacksObeyGrammar | anet/extra/http_parser.c:700-2038 | Over every stream, cut anywhere, failed or not, the callbacks are a prefix of messages: begin, URL or status, fields and values, headers complete once, body or chunks and trailers, message complete once. Stream.Feed says the same of the class, with its budget. |
| Grammar.BeginsAgain | anet/extra/http_parser.c:756-781 | In a message that has begun on_message_begin is made again exactly in s_start_res, for the byte after a stray line end. |
| Grammar.EofCompletes | anet/extra/http_parser.c:655-660 | The end of a stream that delimits a body completes the message in the grammar. |
| Grammar.DeadIsSilent | anet/extra/http_parser.c:707-717 | After a message that ends the connection no continuation makes another callback; anything but CR and LF is an error. |
| Methods.MethodExact | anet/extra/http_parser.c:918-1012 | Over all first tokens: the request line reaches its target exactly when the token is the name of a method, and then with that method. |
| Methods.AssumedNext | anet/extra/http_parser.c:961-1001 | The next letter of a method either continues the method assumed so far or redirects to the one that shares the letters read. |
| Methods.RedirectSound | anet/extra/http_parser.c:976-1001 | The method switch only jumps to a method that begins with the letters read so far. |
| Http.MethodNames | anet/extra/http_parser.h:163-205 | Each of the 34 methods has the name of the method map. |
| Http.EveryMethod | anet/extra/http_parser.h:163-205 | There is no other method. |
| Requests.MethodTaken | anet/extra/http_parser.c:718-1012 | For each pair of the method map the request line with that name, given to a new session, delivers a packet with that method. |
| Names.NameExact | anet/extra/http_parser.c:1180-1357 | A header name is accepted exactly when it consists of token characters, is delivered whole, and its header state at the colon is special exactly when it is, letter by letter in one of two alphabets written out, "content-length", "transfer-encoding", "upgrade", "connection" or "proxy-connection". |
| Alphabets.Classes | anet/extra/http_parser.c:405-436 | Letters, digits, hexadecimal digits, and the bytes of user information, host names, addresses, zones, tokens and URLs are those of alphabets written out. |
| Alphabets.HeaderBytes | anet/extra/http_parser.c:438-443 | A header value may hold any byte but the control bytes and DEL, given by their codes, with HT allowed. |
| Alphabets.Letters | anet/extra/http_parser.c:185-217 | Both case tables take the i-th capital to the i-th small letter and leave small letters alone. |
| Alphabets.NoLetter | anet/extra/http_parser.c:185-217 | The token table leaves every byte that is no capital as it is. |
| Alphabets.LowerBit | anet/extra/http_parser.c:408 | LOWER sets the bit of value 32 of any byte. |
| Alphabets.DigitValues | anet/extra/http_parser.c:220-229 | The i-th digit denotes i, decimal or hexadecimal, in small letters or capitals. |
| Lists.SpelledWords | anet/extra/http_parser.c:1374-1682 | The words looked for in values are "chunked", "keep-alive", "close" and "upgrade", in any case, and spaces. |
| HeaderLines.SaysInLetters | anet/extra/http_parser.c:1180-1720 | What a header says, in plain letters: each of the six things it can say, by its name and its value or elements. |
| Values.ContentLengthExact | anet/extra/http_parser.c:1398-1531 | A Content-Length value is accepted exactly when it is the only one and is digits of value at most 2^64 - 7 followed by spaces; the stored length is that value and never the sentinel. |
| Lists.ChunkedExact | anet/extra/http_parser.c:1374-1682 | A Transfer-Encoding value sets the chunked flag exactly when it is "chunked", in any case, and spaces. |
| Connections.ConnectionExact | anet/extra/http_parser.c:1374-1682 | Over all values: each of the three Connection flags is set if and only if it was before, or one of the elements that are looked at is its keyword, in any case. |
| Connections.LookedAtElements | anet/extra/http_parser.c:1569-1627 | Only elements are looked at; so a flag is set only if some element is its keyword. |
| Connections.OrdinaryList | anet/extra/http_parser.c:1569-1627 | Every element is looked at in a list whose elements but the last are neither proper beginnings of keywords nor empty nor begin with no token. |
| Connections.ClassMeaning | anet/extra/http_parser.c:1543-1604 | The two conditions in plain words: a proper beginning of a keyword, in any case; and an element that is empty or whose first byte, after LOWER, is no token character. |
| Connections.ElementsJoin | anet/extra/http_parser.c:1600-1627 | The elements are the pieces of the value between its commas. |
| Connections.SwallowedComma | anet/extra/http_parser.c:1569-1604 | An element that is looked at and is a proper beginning of a keyword swallows its comma, wherever it stands: the next element is not looked at, the one after it is. |
| Connections.EndedList | anet/extra/http_parser.c:1569-1604 | After a later element that is empty or begins with no token nothing is looked at. |
| Connections.SwallowedClose | anet/extra/http_parser.c:1569-1604 | In "clo,close" the element "close" is not looked at. |
| Inputs.ConnectingInPieces | anet/extra/http_parser.c:2050-2089 | For every list: a request with it in a Connection header, given to a fresh parser in any partition, is taken, and the connection ends with it if and only if "close" is looked at. |
| Inputs.CloseOverlooked | anet/extra/http_parser.c:1569-1604 | Such requests with "clo,close", "x,clo,close" and "x,,close" leave the connection open although "close" is an element; with "clo,x,close" it ends. |
| Connections.LaterSwallowedClose | anet/extra/http_parser.c:1569-1604 | Nor is it in "x,clo,close". |
| Connections.CloseAfterTheEnd | anet/extra/http_parser.c:1569-1604 | Nor is it in "x,,close". |
| Connections.SeenClose | anet/extra/http_parser.c:1569-1604 | In "clo,x,close" it is. |
| Framing.HeadDecision | anet/extra/http_parser.c:1722-1835 | What follows a head, over its text (section 3.3.3 of RFC 7230): for every list of header lines, with any blanks and either line end, each of rejection, chunks, n bytes of body, a body to the end of the stream, no body, and another protocol follows if and only if the headers, the type, the version, the status and the method say so; with the length a Content-Length says and the callbacks that go with it. |
| Framing.OneFollows | anet/extra/http_parser.c:1733-1835 | Exactly one of the six follows: a chunked Transfer-Encoding with a Content-Length is rejected, and the order of the other cases is that of the standard. |
| Framing.DoneDecision | anet/extra/http_parser.c:1791-1835 | The same over the flags, length, type and status of a record. |
| Framing.SkippedBody | anet/extra/http_parser.c:1791-1812 | A message whose body is to be skipped ends with its head, whatever its headers say, and the call ends too if another protocol follows. |
| Framing.ConnectionDecision | anet/extra/http_parser.c:1873-1887 | After a chunked body or one with a length the message is complete, and the next one follows exactly when the connection persists. |
| Framing.PersistsAsSaid | anet/extra/http_parser.c:2050-2089 | The connection persists exactly when the headers say so: by version 1.1 without a "close" that is looked at, or by such a "keep-alive". |
| HeaderLines.ReadHeader | anet/extra/http_parser.c:1180-1720 | A header, with any gap after its colon (blanks, and line ends that a blank follows), any further lines and either line end, is delivered as its name and, line by line, its values, and changes length and flags exactly as it says: further lines keep a length and an upgrade, lose a transfer coding, and go on with a list only where an element is awaited. |
| HeaderLines.ReadHeaders | anet/extra/http_parser.c:1180-1720 | A list of headers, with any gaps, further lines and either line end, is delivered in order; each of the six flags is set if and only if it was before or some header of the list says so, and the length is what a Content-Length says, or as before. |
| HeaderLines.FoldedAlone | anet/extra/http_parser.c:1655-1689 | A header in several lines whose first line has no comma sets neither a Connection flag nor the chunked flag. |
| HeaderLines.FoldedList | anet/extra/http_parser.c:1655-1689 | A list whose first line ends in a comma after an element goes on in the next line, and all of its elements are looked at as if there were one line. |
| Content.ReadPartOfBody | anet/extra/http_parser.c:1837-1871 | Inside a body delivered and remaining bytes together stay the same. |
| Content.BodyConserved | anet/extra/http_parser.c:1791-1887 | With n bytes to come, exactly the next n bytes of the stream are delivered as body, in any partition and whatever comes after: piece by piece up to the piece that holds the last, after which the message is complete; the rest of that piece is read from the next start state or the dead state, or the call ends because another protocol follows. |
| Content.BodyInOneBuffer | anet/extra/http_parser.c:1791-1887 | In one buffer: byte n+1 is the first one given to that state. |
| Content.BodyInPieces | anet/extra/http_parser.c:1837-1887 | A body that comes in its own buffers is delivered buffer by buffer, none of them empty, and then complete. |
| Chunked.ChunkLineExact | anet/extra/http_parser.c:1889-1968 | A chunk header is accepted exactly when it is hexadecimal digits of value at most 2^64 - 17 with an optional extension; the announced size is that value. |
| Chunked.HexPrinted | anet/extra/http_parser.c:220-229 | Every n printed in base 16 with the digits "0123456789abcdef", or with capitals, is read as n. |
| Chunked.ReadPrintedSize | anet/extra/http_parser.c:1889-1968 | For every n up to 2^64 - 17 the line with n printed so makes exactly the chunk header n. |
| Chunked.ReadChunked | anet/extra/http_parser.c:1889-2007 | Chunks, the last chunk, trailers and the blank line make exactly their callbacks, in order; the trailers set flags like headers, and the run stops exactly if another protocol follows; the byte count starts again after each line with a size and is that of the trailers in the end. |
| Chunked.ChunkedDelivered | anet/extra/http_parser.c:1970-2007 | For n chunks the body data is that of the chunks joined, with n+1 headers, n+1 completions and one end of message. |
| Chunked.ChunkedRoundTrip | anet/extra/http_parser.c:1726-2007 | The chunked round trip of section 4.1 of RFC 7230, in any partition of the stream. |
| Chunked.PrintedRoundTrip | anet/extra/http_parser.c:1889-2007 | Any data cut in any way into non-empty chunks, each printed with its size in base 16, then "0" and a blank line, comes out whole in any partition of the stream. |
| Messages.ReadMessage | anet/extra/http_parser.c:700-2024 | A whole message (request or status line, any header lines, blank line, and what the head says: nothing, n bytes, chunks with trailers, or bytes to the end of the stream) makes exactly its callbacks, in order, and leaves the parser at the next message if the connection goes on, by headers and trailers, else dead; a rejected head fails, and another protocol stops the run, with the last byte. |
| Messages.MessageInPieces | anet/extra/http_parser.c:632-2046 | The same in any partition of the stream into buffers, cuts in the head included, and whatever follows a message that stops the run. |
| Messages.StreamInPieces | anet/extra/http_parser.c:632-2046 | Requests, or responses, sent one after the other over a connection: in any partition of the stream the merged callbacks are those of the messages, in order. |
| Counting.ReadCounts | anet/extra/http_parser.c:150-157 | In a head, in the line with the size of a chunk, and in trailers every byte is counted once, up to the callback that ends the part. |
| HeadSizes.HeadBound | anet/extra/http_parser.h:63 | A message given to a fresh parser in one buffer exceeds the budget if and only if its head has more than 81920 bytes, or, in a chunked body, a line with a size or the trailers with their blank line do; nothing else counts. |
| Refusals.Refuses | anet/extra/http_parser.c:700-2024 | For every state and byte: the byte is refused if and only if a table of alphabets and bounds written out refuses it there, and then with the error of the table, over all re-executions. In a method the error is that of a bad method. |
| UrlGrammar.UrlScanSound | anet/extra/http_parser.c:484-630 | What the outer URL automaton reads is in the grammar and prints as what was read. |
| UrlGrammar.UrlScanComplete | anet/extra/http_parser.c:484-630 | Everything in the grammar is read as it was written. |
| HostGrammar.HostScanSound | anet/extra/http_parser.c:2128-2208 | What the authority automaton reads is in its grammar and prints as what was read. |
| HostGrammar.HostScanComplete | anet/extra/http_parser.c:2128-2208 | Every authority in the grammar (names, bracketed addresses with zones, user information, ports) is read as it was written. |
| Decompose.UrlExact | anet/extra/http_parser.c:2297-2414 | The decomposer finds d exactly when d is well formed, prints as the input and has a port of at most 65535: nothing is lost, everything printed is read back, and only the port refuses a well-formed URL. |
| Decompose.WholeHostExact | anet/extra/http_parser.c:2128-2290 | What a whole authority consists of, part by part: no part that is announced is empty, brackets are closed, and every part has its bytes. |
| Decompose.HostScanChars | anet/extra/http_parser.c:2310-2336 | Every authority the inner automaton takes is one the outer one takes, with at most one at sign, always recognised. |
| UrlClasses.HostTaken | anet/extra/http_parser.c:2142-2157 | A text without delimiters is taken as a host name if and only if all of its bytes are letters, digits, dots or hyphens. |
| UrlClasses.AddressTaken | anet/extra/http_parser.c:2159-2180 | One between brackets if and only if they are hexadecimal digits, colons or dots. |
| UrlClasses.ZoneTaken | anet/extra/http_parser.c:2182-2194 | One after a percent sign if and only if they are letters, digits or one of "%.-_~". |
| UrlClasses.PortTaken | anet/extra/http_parser.c:2196-2204 | One after a colon if and only if they are digits that denote at most 65535. |
| UrlClasses.UserinfoTaken | anet/extra/http_parser.c:2131-2140 | One before an at sign if and only if they are in the alphabet of user information. |
| UrlClasses.PathTaken | anet/extra/http_parser.c:564-577 | One after a slash if and only if they are visible bytes. |
| UrlClasses.QueryTaken | anet/extra/http_parser.c:579-594 | One after a question mark, likewise, question marks included. |
| UrlClasses.FragmentTaken | anet/extra/http_parser.c:596-626 | One after a number sign, likewise, number signs included. |
| UrlClasses.SchemaTaken | anet/extra/http_parser.c:513-522 | One before "://" if and only if they are letters. |
| UrlClasses.ServiceUrl | anet/http/url.cc:35-53 | Every URL "http://name:port/path" over the alphabets of its parts, with a port of at most 65535, is found part by part. |
| UrlClasses.TvUrl | anet/http/url.cc:35-53 | "http://my-tv:8001/api/" has the schema "http", the host "my-tv", the port 8001 and the path "/api/". |
| UrlRecord.UrlSlices.constructor | anet/extra/http_parser.c:2292-2295 | A new record has no field set. |
| UrlRecord.UrlSlices.ScanFields | anet/extra/http_parser.c:2302-2370 | The loop over the URL records every field as the slice the automaton has found, and dies exactly when the automaton does. |
| UrlRecord.UrlSlices.ParseHost | anet/extra/http_parser.c:2210-2290 | The loop over the authority narrows the host to its name or address with zone and records user information and port; it fails exactly when the authority is not whole. |
| UrlRecord.UrlSlices.PortValue | anet/extra/http_parser.c:2386-2411 | The port is the number of its digits, or refused above 65535. |
| UrlRecord.UrlSlices.Parse | anet/extra/http_parser.c:2297-2414 | The method fails exactly when the buffer has no decomposition, and otherwise its record is that decomposition: fields, slices and port. |
| UrlRecord.SliceContents | anet/extra/http_parser.c:2297-2414 | Every set field is a slice inside the input that holds its component. |
| UrlRecord.SlicesInOrder | anet/extra/http_parser.c:2297-2414 | The set fields are disjoint, in the order of the grammar. |
| UrlObject.Url.Parse | anet/http/url.cc:35-53 | The object takes over the components of the decomposition, or stays as it was if there is none; the empty string throws. |
| UrlObject.Url.GetString | anet/http/url.cc:55-67 | A field that is set gives its component, any other the empty string. |
| UrlObject.Url.ParseQuery | anet/http/url.cc:69-106 | The four-iterator scanner stores what the specification function says, dangling delimiters included. |
| Query.ScannedExact | anet/http/url.cc:69-106 | On a fresh object the scanner stores the last-wins map of the segments split at their last equals sign exactly when the query does not end in a delimiter that follows a key. |
| Query.DanglingValue | anet/http/url.cc:69-106 | "a=1&b=" gives b the value "1&b=". |
| Query.NoDelimiterAtEnd | anet/http/url.cc:69-106 | On any object it does so for every query that does not end in a delimiter. |
| Query.JoinThenScan | anet/http/url.cc:69-106 | Joining any list of non-empty keys and values without delimiters and scanning gives the map of the list. |
| Targets.ReadTarget | anet/extra/http_parser.c:1014-1085 | The request line and the decomposer read a target with the same automaton, to the same state. |
| Targets.TargetsAgree | anet/extra/http_parser.c:1014-1085 | Every delivered target, ended by a space or by a line end as in HTTP/0.9, is read by the loop of the decomposer; if it is not that of CONNECT and starts with a slash or an asterisk, it is accepted, with a path and without schema, host or port; any other can only be refused for its authority. |
| HeadReading.ReadCode | anet/extra/http_parser.c:841-884 | A status code of at most 999 is read as its number. |
| HeadReading.ReadOpening | anet/extra/http_parser.c:718-1180 | A request line, of HTTP/0.9 too, or a status line with or without a reason, after any line ends and with any spaces between its parts, makes its callbacks and sets type, method or status, and version; the next message begins with fresh flags and length. |
| HeadReading.ReadLead | anet/extra/http_parser.c:718-800 | Line ends before a message are passed over, and make a begin callback each where only a response may come. |
| Packets.Packet.Init | anet/http/packet.cc:23-31 | Version, status, method and type are replaced and nothing else. |
| Packets.Packet.SetUrl | anet/http/packet.cc:33-35 | The URL is replaced and nothing else. |
| Packets.Packet.AddHeaderField | anet/http/packet.cc:37-40 | The header map has the key with the value and is otherwise unchanged. |
| Packets.Packet.RemoveHeaderField | anet/http/packet.cc:42-44 | The header map has lost the key and is otherwise unchanged. |
| Packets.Packet.AssignBody | anet/http/packet.cc:46-48 | The body is replaced and nothing else. |
| Packets.Packet.HeaderLines | anet/http/packet.cc:71-76 | The loop over the header map prints every header once, in the order of the keys. |
| Packets.Packet.Serialize | anet/http/packet.cc:50-95 | The buffer is start line with the name of the status, headers in order of their keys, blank line and body; null before initialisation; an exception for an empty body. |
| Packets.StatusNameExact | anet/extra/http_parser.h:92-153 | Each code of the status map, written out, has its name, and every other code that for an invalid status. |
| Packets.PrintedResponse | anet/http/packet.cc:50-107 | For every code of the map a response without headers prints as its version, code and name, written out. |
| Packets.PrintedOk | anet/http/packet.cc:50-107 | A response with status 200 and nothing else prints as "HTTP/1.1 200 OK" and a blank line. |
| Packets.PrintedRequest | anet/http/packet.cc:50-95 | A request with a header and a body prints as its request line, the header, a blank line and the body. |
| Packets.PrintedUnknown | anet/http/packet.cc:55-67 | A request without a method prints "<unknown>", a response without a status -1. |
| Packets.SortedAscends | anet/http/packet.cc:71-76 | The headers are printed in ascending order of their names, no name twice. |
| Packets.FirstDifference | anet/http/packet.cc:71-76 | Of two names the one that has the smaller byte where they first differ comes first. |
| Packets.BeginningFirst | anet/http/packet.cc:71-76 | A name comes before those it is a beginning of. |
| Packets.NoLeadingZero | anet/http/packet.cc:55-67 | Printed numbers have no leading zero. |
| Packets.AddSorted | anet/http/packet.cc:71-76 | Adding the headers that are printed to a map gives it the whole header map. |
| Packets.DecimalText | anet/http/packet.cc:55-67 | Printed numbers are non-empty digit strings of that value. |
| PrintedHead.GoodPrinted | anet/http/packet.cc:50-95 | Every packet that can be sent prints as a message that the parser takes. |
| PrintedHead.ReadPrinted | anet/http/packet.cc:50-95 | The parser reads the printed head of every packet that can be sent, makes the callbacks of its parts in order, and then waits for exactly its body, or for the next message. |
| Assembling.HandleHeaders | anet/http/parser.cc:127-159 | Name and value callbacks add the headers to the packet; of a header in several lines, the last line. |
| Assembling.HandlePiece | anet/http/parser.cc:195-236 | A piece of the body that fits is put behind the pieces before it. |
| Assembling.BodyFits | anet/http/parser.cc:195-236 | A body in pieces is taken if and only if all of it fits into the announced length and that is at most 65535. |
| Assembling.WholeBodyFits | anet/http/parser.cc:161-236 | The whole body of a message is taken exactly when its announced 64-bit length is at most 65535, although only 32 bits are kept; a body without a length (chunked, or ended by the stream) never is. |
| Assembling.HandleEnd | anet/http/parser.cc:238-250 | The end of the message hands the body to the packet. |
| PacketParsers.PacketParser.HandleBody | anet/http/parser.cc:195-236 | The body buffer is allocated once, filled in place behind its index and never beyond its end. |
| PacketParsers.PacketParser.HandleEvent | anet/http/parser.cc:98-258 | Every callback changes the assembled fields as its specification says, and nothing else. |
| PacketParsers.PacketParser.Parse | anet/http/parser.cc:38-55 | A call on any buffer handles the callbacks of the call of the C parser (budget and end of stream included) in order, up to the first that fails; its status, the fields and whether an error is left are exact, and so is the C parser for the next call. |
| Sessions.SessionObserver.HandleData | anet/http/session_observer.cc:20-42 | Any buffer goes to the current parser, or to a new one; the status is that of its call; a complete packet is delivered once and the parser dropped; an error status drops the parser and closes the session; else the session waits with exactly what the call left. |
| Deliveries.NewSession | anet/http/session_observer.cc:20-42 | A whole message given to a new session in one buffer: the packet that is delivered, exactly, or the refusal, for each of the six things that may follow its head; a body with a length is taken up to 65535 bytes, data in chunks never. |
| Deliveries.ChunkCallbacks | anet/http/parser.cc:98-258 | The callbacks of an empty chunked body change nothing in the packet but add its trailers. |
| Requests.BodyPosted | anet/http/parser.cc:195-236 | For every non-empty body a request with its Content-Length, the name in any spelling, is delivered with the body if and only if that has at most 65535 bytes, and is an error otherwise. |
| Sessions.OverflowStatus | anet/http/parser.cc:38-55 | Over all sessions and buffers: when a call exceeds the budget, the C parser has an error and takes nothing more, and the status is no error if and only if the overflow is silent and no callback before the last has failed. |
| Sessions.NameOverflow | anet/http/parser.cc:38-55 | Name bytes that exceed the budget with the end of a buffer leave the session waiting; the same bytes and a colon are an error. |
| Sessions.ValueOverflow | anet/extra/http_parser.c:1460-1491 | A buffer that begins with HTTP_MAX_HEADER_SIZE bytes of an unrecognised value leaves the session waiting, whatever follows them. |
| Inputs.OverflowReached | anet/http/session_observer.cc:20-42 | The same from a new session: a first buffer that ends in a header value, and then any such buffer. |
| RoundTrips.RunFirst | anet/http/session_observer.cc:20-42 | The callbacks, byte count and record after a buffer with a printed head and a first part of its body. |
| RoundTrips.FirstCall | anet/http/session_observer.cc:20-42 | After that buffer the packet is complete, or the session waits for the rest of the body. |
| RoundTrips.FurtherCall | anet/http/session_observer.cc:20-42 | Every further buffer brings one more piece; the packet is complete exactly with the last. |
| RoundTrips.Transmit | anet/http/session_observer.cc:20-42 | The print and parse round trip: every packet that can be sent, printed and cut anywhere after its blank line, is delivered exactly once, equal to the packet sent, with the last buffer and not before. |
| VideoList.VideoSendable | app_ctrl.cc:214-240 | That packet is one that can be sent, for every body of 1 to 65535 bytes, so that the round trip is about it. |
| VideoList.VideoPrinted | app_ctrl.cc:214-240 | What the application answers with its list of videos prints, byte for byte, with a head that is within the budget. |

## Left out

- Execute.HttpParser.Execute: buffers are shorter than 2^31 bytes, because `Parser::Parse` keeps the returned count in an `int`; so the 32-bit byte count cannot wrap and is a natural number.
- Execute.HttpParser.Switch: outside the inner loops the per-byte cases are the same functions for the class and for the byte machine; what is proved between the two is everything around them (loops, jumps, marks, re-execution, counting, early returns).
- Stream.Feed: runs that end in an upgrade are the end of the stream; bytes after it belong to another protocol.
- Reading.ReadInPieces: `Read` checks every header value byte, as if each came in its own buffer; the lemmas about values therefore speak of values whose bytes are legal, or of a lenient parser.
- Refusals.Refuses: within a method only the error is stated; which letters are taken is in Methods.MethodExact.
- UrlRecord.UrlSlices.ScanFields: inputs are at most 65535 bytes, because the fields hold 16-bit offsets and lengths.
- UrlRecord.UrlSlices.ParseHost: inputs are at most 65535 bytes, for the same reason.
- UrlRecord.UrlSlices.Parse: inputs are at most 65535 bytes, which `Url::Parse` enforces by cutting the length to 16 bits; the record after a failure is not specified.
- UrlObject.Url.Parse: `std::string::at` on the empty string is a result value, not an exception.
- Packets.Packet.Serialize: packets print to fewer than 2^32 bytes; a byte vector's exception for an empty body is a result value.
- PacketParsers.PacketParser.HandleBody: a second message in one buffer whose body would start beyond its buffer counts as a failed callback (the original throws or wraps around there).
- PacketParsers.PacketParser.Parse: buffers are shorter than 2^31 bytes; the state of the C parser after a failed callback is not specified beyond its error.
- RoundTrips.Transmit: the printed head has at most `HTTP_MAX_HEADER_SIZE` bytes, more being an overflow; and the whole head comes in the first buffer, because the callbacks of `http::Parser` overwrite URL, field and value instead of appending to them.
- Sessions.SessionObserver.HandleData: buffers are shorter than 2^31 bytes, and the observer is a list of the packets it was given; the network session is a flag.
- Callbacks that return a value or change the parser, other than those of `http::Parser`; `http_parser_pause`; the lenient flag is a field that nothing sets.
- Non-strict mode, version and error-name lookup, logging, constructors that only log.
- Sockets, session pools, timers, the two control programs (but for the packet of `VideoList.dfy`) and everything else outside `anet/http` and `anet/extra`.
