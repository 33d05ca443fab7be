# evhttpclient in Dafny

A model of the asynchronous HTTP/1.1 client `EvHttpClient` together with its
URL splitter `Url_`. It covers:

- the request text the client builds (`buildRequest`);
- the parser callbacks of `HttpConn`, which assemble a response's headers and
  body;
- the pool of reusable connections (`getConn`, `returnConn`, `initConnPool`,
  `resetState`);
- the write and read progress of one request on one connection;
- the terminal paths of a request: error, timeout, completion and retry;
- `difftime`;
- `Url_::parse`.

The model replaces the outside world by the outcomes it reports:

- the number a `send` or `recv` returned;
- whether a new connection could be created;
- the sequence of callbacks the HTTP tokenizer made;
- the time the clock read.

Modules:

- `Text` (`text.dfy`) holds the C and C++ library behaviour the code relies
  on:
  - `tolower`/`toupper` in the "C" locale;
  - truncation at the first NUL, which copying through a C string causes
    (`strncpy`, `strlen`);
  - `std::find` and `std::search`;
  - decimal output with `ostream <<`;
  - extraction of a `short` with `istream >>`.
- `TimeDiff` (`timediff.dfy`) holds `difftime`. It returns the microsecond
  difference together with the two `timeval`s the C function rewrites.
- `Url` (`url.dfy`) holds `Url_::parse`:
  - a specification function, `ParseUrl`, and its properties;
  - the URL object as a class, whose `Parse` appends to the scheme and
    the host and assigns the port, path and query, in the source's order
    but with the path assigned once, its "/" default already applied (the
    source assigns the path and then replaces an empty one); the port
    colon is searched for only before the path start (see Findings);
  - the scans as methods with loops, proved against the corrected
    `ParseUrl`;
  - a formatter, with the round trip `ParseUrl(Format(c))` for well-formed
    components;
  - the source's own parse, `ParseUrlAsWritten`, which is undefined on some
    inputs (see Findings).
- `RequestText` (`request_text.dfy`) holds `buildRequest` as a function.
  `std::map<string, string>` is a sequence of entries whose keys strictly
  ascend.
- `Assembler` (`assembler.dfy`) holds the parser callbacks as pure steps over
  the connection's parse state. It also defines `Run`, which models the
  tokenizer delivering callbacks until one refuses, and the lemmas about
  header and body assembly.
- `HttpClient` (`client.dfy`) holds the classes `RequestInfo`, `HttpConn` and
  `EvHttpClient`:
  - their methods change fields in place. Most frames name single fields;
    the parser callbacks, `ReadCb`, `RetryRequest` and `TimeoutCb` frame
    a request or connection object as a whole, and their `ensures` state
    the fields of it that callers rely on;
  - the callback methods of `HttpConn` are proved against the `Assembler`
    steps;
  - every call of a request's callback is recorded in `calls`, so each
    terminal path states the single call it makes;
  - each call records whether the request's timer was still armed when it was
    made;
  - the libev watchers and timers are the flags `writeArmed`, `readArmed` and
    `timerArmed`;
  - `open` stands for the socket and the connection object;
  - `live` stands for the request object: it is cleared when the request is
    deleted.

## Model

| member | source | states |
|---|---|---|
| Text.ToLowerNoUpper | url.h:52-54 | lower-casing leaves no upper-case ASCII letter and keeps every other character |
| Text.TakeUntilNulPrefix | evhttpclient.cpp:765-767 | the text a C string copy keeps is a prefix of the fragment, and it stops only at a NUL or at the end |
| Text.DecimalRoundTrip | evhttpclient.cpp:627 | the decimal text written for a number reads back as that number |
| Text.ExtractShort | url.h:71 | a value extracted into the `short` port lies within the range of `short` |
| Text.ExtractShortOfDecimal | url.h:64-71 | the decimal text of a port within `short` range is extracted as that port |
| Text.ExtractShortBlank | url.h:71 | nothing is extracted exactly when the port text is all white space |
| Text.ExtractShortReadsLeadingDigits | url.h:71 | port text of white space, digits and then a non-digit is read as the value of the digits, clamped to `short`; whatever follows them is ignored |
| TimeDiff.DiffTime | evhttpclient.cpp:102-119 | in both the borrow and the no-borrow branch the result is the exact microsecond difference of the two instants; `start`'s microseconds become 0; the rewritten `end` stands for `end` moved back by `start`'s microseconds and stays normalised when both inputs are |
| Url.SchemeOnlyWithoutSeparator | url.h:48-56 | the parse returns after the scheme exactly when "://" occurs nowhere, and the scheme is then the whole lower-cased input |
| Url.SchemeBeforeFirstSeparator | url.h:48-54 | with "://", the scheme is the lower-cased text before its first occurrence |
| Url.ParsedComponents | url.h:58-90 | with "://", the host is the lower-cased text from after it to the port colon or the path, and is host text; the port is 80 without a ':' before the path and is otherwise extracted from the text between the first such ':' and the path; the path starts with '/', holds no '?', is the text up to the first '?' and "/" when that text is empty; the query is everything after the first '?' |
| Url.PortFromColon | url.h:59-76 | the port is 80 when no ':' lies between the host start and the path; otherwise it is extracted from the text between the first such ':' and the path |
| Url.HostBetweenSchemeAndPort | url.h:59-81 | the host is the lower-cased text from after "://" to the port colon, or to the path without one; it holds no ':', '/', '?' or upper-case letter |
| Url.PathAndQueryShape | url.h:82-90 | the path is never empty, starts with '/' and holds no '?'; it is the text from the path start to the first '?', and exactly "/" when that text is empty; the query is the text after the first '?' from the path start, and empty without one |
| Url.SplitAsWrittenAgrees | url.h:59-70 | the source's split fails exactly when the first ':' lies past the path start, and otherwise equals the corrected split |
| Url.AsWrittenAgrees | url.h:46-91 | wherever the source's parse is defined it writes what the corrected parse writes |
| Url.AsWrittenUndefined | url.h:59-70 | the source's parse is undefined exactly when "://" occurs and the first ':' after it lies past the path start |
| Url.ColonInPathOverruns | url.h:64-70 | on "http://h/a:b" the source's port loop starts past the path start, while the corrected parse gives host "h", port 80 and path "/a:b" |
| Url.ParseFormat | url.h:46-91 | splitting the text of well-formed components gives back every component |
| Url.UrlObject.constructor | url.h:12-14 | a default-constructed URL object has empty strings; its port is left unset |
| Url.UrlObject.Parse | url.h:46-91 | scheme and host are appended to the fields, path and query assigned, and the port assigned when text is extracted; without "://" only the scheme is appended |
| Url.Scan | url.h:48-90 | the scans of `parse` compute exactly `ParseUrl` |
| Url.ScanAfterScheme | url.h:58-90 | the scans after "://" compute the scheme and `SplitAfterScheme` of the rest |
| Url.ScanRest | url.h:59-90 | host, port, path and query computed by the scans are those of `SplitAfterScheme` |
| Url.ReadPort | url.h:62-71 | the port characters copied one by one until the path start are extracted as a `short` |
| Url.LowerRange | url.h:52-54 | the character-by-character `tolower` transform of a range is `ToLower` of that slice |
| RequestText.RequestLayout | evhttpclient.cpp:591-633 | the request is the request line, one "k: v" line per header field in the order written, an empty line and the body |
| RequestText.RequestStartsWithVerb | evhttpclient.cpp:596-607 | the request starts with the upper-cased method, which holds no lower-case letter, followed by a space |
| RequestText.RequestTargetAfterVerb | evhttpclient.cpp:598-607 | after the method comes the path or, for an empty path, the URL's path, '?' and query, then " HTTP/1.1\r\n" |
| RequestText.EndsWithBody | evhttpclient.cpp:630 | the request ends with "\r\n" followed by the body |
| RequestText.CallerHeadersInOrder | evhttpclient.cpp:609-612 | the caller's headers follow the request line in map order, each as "k: v\r\n" |
| RequestText.CountKeyOfMap | evhttpclient.cpp:614 | a map holds a key at most once, and once exactly when `find` succeeds |
| RequestText.HostExactlyOnce | evhttpclient.cpp:614-623 | "Host" is written exactly once: the caller's when the map has it, the synthesised one otherwise, and then nothing follows the caller's headers but a possible Content-Length |
| RequestText.ContentLengthOnce | evhttpclient.cpp:625-628 | "Content-Length" is written at most once, synthesised exactly for a non-empty body without the caller's, and its value reads back as the body length |
| RequestText.HostValuePort | evhttpclient.cpp:616-621 | the Host value is the host, followed by ':' and the decimal port exactly when the port is neither 80 nor 443 |
| Assembler.RunAppend | evhttpclient.cpp:546-547 | delivering two event sequences runs the second from where the first left off, unless the first was refused |
| Assembler.FieldFragmentsJoin | evhttpclient.cpp:763-783 | consecutive field fragments concatenate onto the pending field |
| Assembler.ValueFragmentsJoin | evhttpclient.cpp:785-800 | consecutive value fragments concatenate onto the pending value |
| Assembler.BodyFragmentsJoin | evhttpclient.cpp:809-816 | body fragments concatenate onto the body |
| Assembler.NextHeader | evhttpclient.cpp:756-800 | a whole header after a value stores the previous pair and leaves the new field and value pending |
| Assembler.FirstHeader | evhttpclient.cpp:763-800 | the first header leaves its joined field and value pending and stores nothing |
| Assembler.HeadersPending | evhttpclient.cpp:756-800 | after one or more headers every earlier pair is stored in order and the last is pending |
| Assembler.HeadersAssembled | evhttpclient.cpp:756-807 | a header block and headers-complete leave DONE, empty buffers and every pair stored with the last value winning; with no headers the empty key is stored with the empty value |
| Assembler.CompleteAfterHeaders | evhttpclient.cpp:802-807 | headers-complete after one or more headers stores every pair |
| Assembler.LastValueWins | evhttpclient.cpp:758 | a stored key maps to the value of the last pair that carries it |
| Assembler.UntouchedKey | evhttpclient.cpp:758 | a key no pair carries keeps whatever the map held |
| Assembler.LateHeaderRejected | evhttpclient.cpp:763-800 | a field or value after DONE returns 1 and stops delivery; earlier body fragments are kept and the map is untouched |
| Assembler.BegunSticky | evhttpclient.cpp:738-754 | begin succeeds exactly when no message began and a request is bound; once set, `messageBegun` stays set and a second begin is refused |
| HttpClient.StoredCallback | evhttpclient.cpp:233-240 | the stored callback is never NULL: NULL becomes the no-op and any other callback is kept |
| HttpClient.NullCallbackKept | evhttpclient.cpp:233-241 | as written, a NULL callback is stored as NULL, while the corrected store gives the no-op; both agree for any other callback |
| HttpClient.RequestInfo.constructor | evhttpclient.cpp:230-246 | a new request holds an empty response, the stored callback, the request text and the start time, with no connection and the timer not started |
| HttpClient.HttpConn.constructor | evhttpclient.cpp:667-687 | a new connection is unbound, reset, marked new, with both watchers stopped and the socket open |
| HttpClient.HttpConn.ResetState | evhttpclient.cpp:693-717 | the connection is unbound, the sent count is 0, the parse state is FIELD with empty buffers, every flag is cleared and `isNew` is false; watchers and socket are untouched |
| HttpClient.HttpConn.MessageBeginCb | evhttpclient.cpp:738-754 | the callback does what `Assembler.OnBegin` does to the connection's parse state |
| HttpClient.HttpConn.FlushHeaders | evhttpclient.cpp:756-761 | the pending pair is stored in the bound response's header map and both buffers are emptied; nothing else in the response changes |
| HttpClient.HttpConn.HeaderFieldCb | evhttpclient.cpp:763-783 | the callback does what `Assembler.OnField` does, touching only the response's header map |
| HttpClient.HttpConn.HeaderValueCb | evhttpclient.cpp:785-800 | the callback does what `Assembler.OnValue` does |
| HttpClient.HttpConn.HeadersCompleteCb | evhttpclient.cpp:802-807 | the callback does what `Assembler.OnHeadersComplete` does |
| HttpClient.HttpConn.BodyCb | evhttpclient.cpp:809-816 | the callback does what `Assembler.OnBody` does |
| HttpClient.HttpConn.Dispatch | evhttpclient.cpp:171-178 | each event reaches the callback the parser settings register for it |
| HttpClient.HttpConn.Execute | evhttpclient.cpp:546-547 | delivering a block's events leaves the state `Assembler.Run` gives and reports whether a callback refused; only the response's header map changes |
| HttpClient.EvHttpClient.constructor | evhttpclient.cpp:129-182 | the URL is what one `parse` writes into a default-constructed object; when the host resolves the pool holds `min(init_num_conns, creatable)` fresh connections, otherwise none |
| HttpClient.EvHttpClient.SetTimeout | evhttpclient.cpp:201-204 | later requests use the new timeout |
| HttpClient.EvHttpClient.InitConnPool | evhttpclient.cpp:574-585 | at most `init_num_conns` fresh connections are appended, stopping at the first creation failure; the earlier pool is kept |
| HttpClient.EvHttpClient.GetConn | evhttpclient.cpp:398-418 | a non-empty pool gives up its front connection, reset with `isNew` false; an empty pool gives a fresh connection with `isNew` true, or NULL when none can be created |
| HttpClient.EvHttpClient.ReturnConn | evhttpclient.cpp:425-431 | both watchers are stopped and the connection goes to the back of the pool |
| HttpClient.EvHttpClient.DestroyConn | evhttpclient.cpp:383-392 | the socket is closed and both watchers are stopped |
| HttpClient.EvHttpClient.FinalizeError | evhttpclient.cpp:456-462 | the timer is stopped, then the callback is called once with NULL, and the request is freed |
| HttpClient.EvHttpClient.FinalizeTimeout | evhttpclient.cpp:436-451 | the timer is stopped, and the response is marked timed out with code 0 and the elapsed microseconds; then the callback is called once with it |
| HttpClient.EvHttpClient.RetryRequest | evhttpclient.cpp:319-336 | any bound connection is destroyed; the request is then bound to the pool's front or a fresh connection with only its write watcher started, or it fails with NULL |
| HttpClient.EvHttpClient.MakeRequest | evhttpclient.cpp:221-257 | without an obtainable connection it returns -1 and calls nothing; otherwise it returns 0 with a new request bound to the connection, the write watcher started, and the timer armed exactly when the timeout is positive |
| HttpClient.EvHttpClient.MakeRequestFrom | evhttpclient.cpp:263-270 | everything `MakeRequest` promises, with `buildRequest`'s text as the request text: -1 and an unchanged pool without an obtainable connection; otherwise a new request with the stored callback, start time and empty response, bound to the pool's front or a fresh connection, with the timer armed exactly when the timeout is positive |
| HttpClient.EvHttpClient.Abandon | evhttpclient.cpp:484-499 | on failure the connection is destroyed and unbound; a fresh connection fails the request with NULL, a reused one has the request retried |
| HttpClient.EvHttpClient.WriteCb | evhttpclient.cpp:467-508 | a failed send abandons the connection; otherwise the sent count grows by what was sent and never passes the text's length, and exactly when it reaches that length the write watcher stops and the read watcher starts; the request stays bound, with its timer as it was |
| HttpClient.EvHttpClient.MessageCompleteCb | evhttpclient.cpp:818-843 | the timer is stopped and the response completed with body, status and latency; the callback is called once, then the request is unbound and the connection returned to the pool |
| HttpClient.EvHttpClient.ReadCb | evhttpclient.cpp:513-548 | a failed or closed `recv` abandons the connection; otherwise the block's callbacks are delivered, and the request completes only when the message completes without a refusal; a block that does not complete it changes only the parse state and the response's header map, leaving the request's timer, start, callback and text and the connection's `isNew`, sent count and write watcher as they were; on every branch the request keeps its callback, text and timer delay, so any call made is to the registered callback |
| HttpClient.EvHttpClient.TimeoutCb | evhttpclient.cpp:553-569 | any bound connection is stopped, destroyed and unbound; the request is then finalized as timed out with one callback |
| HttpClient.NulStallsWrite | evhttpclient.cpp:478-481 | with a NUL in the unsent text, no allowed send result carries the sent count past it, so the read watcher is never started |

## Left out

- Sockets, name resolution and `connect` (`createConn`, the resolution in the constructor) are not modelled. Their outcomes are inputs: `resolved`, `available` and `canCreate`.
- The libev event loop is not modelled. Watchers and timers are the flags `writeArmed`, `readArmed` and `timerArmed`; the timer's delay is the stored `timerSeconds`.
- The tokenizer (`http_parser_execute`, `http_parser_init`) is foreign code and is not modelled. Its output is the sequence of callbacks it makes, and its report that the message is complete, with the status code.
- `http_parser_pause` in `timeoutCb` is not modelled. The connection is destroyed right after it, so no further callback can follow.
- The clock is an input (`now`). The latency is kept in whole microseconds; the conversion to seconds as a `double` is floating point and is not modelled.
- Logging to `cout` and `perror` is not modelled.
- The static trampolines `writeCbWrapper` … `messageCompleteCb`, `HttpConn::writeCb`/`readCb` and `RequestInfo::timeoutCb` only forward. The model calls the methods directly.
- The `EV_ERROR` early returns of `writeCb` and `readCb` are not modelled.
- `readCb`'s stack buffer and `block_size` are not modelled. The received count and the events are independent inputs.
- The user data pointers passed to requests and callbacks, and the response object handed over, are not modelled beyond the `Response` value.
- `makeGet`, `makePost`, `makePut` and `makeDelete` are not modelled: each only forwards to `MakeRequestFrom` with a fixed method.
- The destructor and `Url_::toString` are not modelled.
- `Url_`'s accessors are not modelled as members. They return the fields unchanged, so the model reads the fields.
- HttpClient.EvHttpClient.MessageCompleteCb: stores the status code as reported, without the conversion to the `short` field. Three-digit codes convert unchanged.
- HttpClient.EvHttpClient.ReadCb: takes message-complete as the last callback of its block. Callbacks the tokenizer would make after it in the same block, such as a second response, are not delivered.
- HttpClient.HttpConn.ResetState: deleting a bound request is not modelled, because pooled connections never hold one.
- A request object that completes is marked with `live` cleared rather than freed.
- TimeDiff.DiffTime: uses unbounded integers. Where `long` is 32 bits, the product of the seconds difference and 1000000 overflows for differences above about 2147 seconds; that wrap-around is not modelled.
- Text.LowerChar: models `tolower`/`toupper` for ASCII letters only, as in the "C" locale.
- Url.UrlObject.Parse: searches for the port colon only before the path start, as the corrected `ParseUrl` does, and so do `Url.Scan`, `Url.ScanRest` and the client's constructor. The source searches the whole rest of the URL and overruns the string when the first ':' lies in the path or query (see Findings); that case is shown only by `Url.ParseUrlAsWritten`.
- Url.UrlObject.Parse: port text of nothing but white space leaves the port unwritten. For the first parse on a default-constructed object this means the port is indeterminate, and the model leaves it unconstrained. The port fields are unbounded integers rather than `short`: every extracted port lies in the `short` range (`Text.ExtractShort`), but the indeterminate one is not bounded, so the client's Host value could show a port outside it.
- A refused callback does not fail the request: the tokenizer stops delivering the block, and the request stays bound until a later read fails or its timer fires (`ReadCb`).
- Any negative `send` result, a would-block one included, abandons the connection; there is no retry of the same send (`WriteCb`).
- HttpClient.EvHttpClient.MakeRequest: stores the callback through the corrected `StoredCallback`, so a NULL callback becomes the no-op. The NULL store as written is shown only by `HttpClient.NullCallbackKept` (see Findings); the same holds for `HttpClient.RequestInfo.constructor` and `HttpClient.EvHttpClient.MakeRequestFrom`.
- Strings are byte strings, one `char` per byte, as `std::string` is. Lengths such as `body.size()` and `requestString.size()` count bytes; no multi-byte encoding is modelled.

## Findings

| source | as written | input that shows it | evidently intended | confidence | as-written member | corrected member |
|---|---|---|---|---|---|---|
| url.h:59-70 | the port colon is the first ':' anywhere after "://", and the digit loop runs until it meets the path start | "http://h/a:b": the ':' lies after the path start, so the loop walks past the end of the string | a ':' counts as the port colon only before the path start | not executed | Url.ColonInPathOverruns | Url.ParseUrl |
| evhttpclient.cpp:233-241 | the no-op substitution for a NULL callback is overwritten by `request->cb = cb` | a NULL callback: every terminal path calls through a null pointer | a NULL callback is replaced by the no-op | not executed | HttpClient.NullCallbackKept | HttpClient.StoredCallback |
