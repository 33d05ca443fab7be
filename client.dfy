/**
 * `EvHttpClient`, `HttpConn` and `RequestInfo`: the connection pool, the
 * write/read progress of one request on one connection, the parser
 * callbacks that assemble the response, and the terminal paths that hand
 * the request's callback exactly one result. Sockets, the event loop and
 * the HTTP tokenizer are replaced by the outcomes they report: how much a
 * `send` or `recv` moved, whether a connection could be created, which
 * callbacks the parser made, and what the clock read.
 */
module HttpClient {
  import opened Wrappers
  import opened Text
  import opened TimeDiff
  import Url
  import RequestText
  import opened Assembler

  function Min(a: int, b: int): int { if a <= b then a else b }
  function Max(a: int, b: int): int { if a >= b then a else b }

  /** The function pointer a request is made with: NULL, the library's no-op, or one of the caller's. */
  datatype Callback = Null | NoOp | User(id: nat)

  /** `ResponseInfo`; the latency is kept in whole microseconds. */
  datatype Response = Response(
    timeout: bool,
    code: int,
    latencyMicros: int,
    headers: map<string, string>,
    body: string)

  /** A value-initialised `ResponseInfo`. */
  const EmptyResponse := Response(false, 0, 0, map[], "")

  /**
   * One call of a request's callback: the function called, the response
   * it was handed (None for NULL) and whether the request's timer was
   * still armed at that moment.
   */
  datatype Call = Call(cb: Callback, response: Option<Response>, timerArmed: bool)

  /**
   * What `makeRequest` stores as the request's callback, as written: the
   * no-op substitution for NULL is overwritten by the plain assignment
   * that follows it.
   */
  function StoredCallbackAsWritten(cb: Callback): Callback {
    var substituted := if cb == Null then NoOp else cb;
    cb
  }

  /** What the documentation promises: a NULL callback is replaced by the no-op. */
  function StoredCallback(cb: Callback): (r: Callback)
    ensures r != Null
    ensures cb != Null ==> r == cb
    ensures cb == Null ==> r == NoOp
  {
    if cb == Null then NoOp else cb
  }

  /**
   * A request made with a NULL callback keeps NULL as written, so every
   * terminal path would call through a null pointer; the corrected store
   * calls the no-op instead. For any other callback the two agree.
   */
  lemma NullCallbackKept(cb: Callback)
    ensures StoredCallbackAsWritten(Null) == Null
    ensures StoredCallback(Null) == NoOp
    ensures cb != Null ==> StoredCallbackAsWritten(cb) == StoredCallback(cb)
  {
  }

  /** `RequestInfo`. */
  class RequestInfo {
    var response: Response
    var conn: HttpConn?
    var cb: Callback
    var requestString: string
    var start: TimeVal
    /** The request's timer is started on the event loop. */
    var timerArmed: bool
    /** The timer's delay, in seconds. */
    var timerSeconds: real
    /** The object is still allocated: no terminal path has run yet. */
    var live: bool

    /** Every field but the response. */
    function Others(): (HttpConn?, Callback, string, TimeVal, bool, real, bool)
      reads this
    {
      (conn, cb, requestString, start, timerArmed, timerSeconds, live)
    }

    constructor (cb: Callback, requestString: string, start: TimeVal, timerSeconds: real)
      ensures this.response == EmptyResponse && this.conn == null
      ensures this.cb == StoredCallback(cb) && this.requestString == requestString
      ensures this.start == start && this.timerSeconds == timerSeconds
      ensures !this.timerArmed && this.live
    {
      this.response := EmptyResponse;
      this.conn := null;
      this.cb := StoredCallback(cb);
      this.requestString := requestString;
      this.start := start;
      this.timerArmed := false;
      this.timerSeconds := timerSeconds;
      this.live := true;
    }
  }

  /** `HttpConn`. */
  class HttpConn {
    var request: RequestInfo?
    var requestBytesSent: nat
    var headerState: HeaderState
    var headerField: string
    var headerValue: string
    var body: string
    var messageBegun: bool
    var messageComplete: bool
    var responseSent: bool
    var isNew: bool
    /** The write and read watchers are started on the event loop. */
    var writeArmed: bool
    var readArmed: bool
    /** The socket is open and the object allocated: `destroyConn` has not run. */
    var open: bool

    /** The parse state the callbacks work on, with the header map `headers`. */
    function View(headers: map<string, string>): Assembly
      reads this
    {
      Assembly(headerState, headerField, headerValue, body, messageBegun, headers)
    }

    /** The header map the pairs are flushed into: the bound request's response's. */
    function Headers(): map<string, string>
      reads this, request
    {
      if request == null then map[] else request.response.headers
    }

    /** The state `resetState` leaves behind (watchers and socket aside). */
    predicate Reset()
      reads this
    {
      && request == null && requestBytesSent == 0
      && View(map[]) == Assembly(FieldState, "", "", "", false, map[])
      && !messageComplete && !responseSent
    }

    /** A connection in the pool: unbound, both watchers stopped, socket open. */
    predicate Idle()
      reads this
    {
      request == null && !writeArmed && !readArmed && open
    }

    /**
     * Bound to `r` and reset, with only the write watcher started: the
     * state `makeRequest` and `retryRequest` leave a connection in.
     */
    predicate Started(r: RequestInfo)
      reads this, r
    {
      && request == r && r.conn == this
      && requestBytesSent == 0
      && View(map[]) == Assembly(FieldState, "", "", "", false, map[])
      && !messageComplete && !responseSent
      && writeArmed && !readArmed && open
    }

    /** A freshly created connection (`createConn` succeeding). */
    constructor ()
      ensures Reset() && isNew && Idle()
    {
      request := null;
      requestBytesSent := 0;
      headerField, headerValue, body := "", "", "";
      headerState := FieldState;
      messageBegun, messageComplete, responseSent := false, false, false;
      isNew := true;
      writeArmed, readArmed := false, false;
      open := true;
    }

    /** `resetState`, for a connection taken from the pool. */
    method ResetState()
      modifies this
      ensures Reset() && !isNew
      ensures writeArmed == old(writeArmed) && readArmed == old(readArmed) && open == old(open)
    {
      request := null;
      requestBytesSent := 0;
      headerState := FieldState;
      headerField, headerValue, body := "", "", "";
      messageBegun, messageComplete, responseSent := false, false, false;
      isNew := false;
    }

    /** `messageBeginCb`. */
    method MessageBeginCb() returns (rc: int)
      modifies this`messageBegun
      ensures var s := OnBegin(old(View(Headers())), request != null);
        View(Headers()) == s.next && rc == s.rc
    {
      if messageBegun {
        return 1;
      }
      if request == null {
        return 1;
      }
      messageBegun := true;
      return 0;
    }

    /** `flushHeaders`. */
    method FlushHeaders()
      requires request != null
      modifies this`headerField, this`headerValue, request`response
      ensures View(Headers()) == Flush(old(View(Headers())))
      ensures request.response == old(request.response).(headers := request.response.headers)
    {
      request.response := request.response.(headers := request.response.headers[headerField := headerValue]);
      headerField := "";
      headerValue := "";
    }

    /** `headerFieldCb`; a field after a value flushes, which needs the bound request. */
    method HeaderFieldCb(fragment: string) returns (rc: int)
      requires headerState == ValueState ==> request != null
      modifies this`headerState, this`headerField, this`headerValue, request
      ensures var s := OnField(old(View(Headers())), fragment);
        View(Headers()) == s.next && rc == s.rc
      ensures request != null ==> request.response == old(request.response).(headers := request.response.headers)
      ensures request != null ==> request.Others() == old(request.Others())
    {
      var text := TakeUntilNul(fragment);
      if headerState == Done {
        return 1;
      }
      if headerState == ValueState {
        FlushHeaders();
        headerState := FieldState;
      }
      headerField := headerField + text;
      return 0;
    }

    /** `headerValueCb`. */
    method HeaderValueCb(fragment: string) returns (rc: int)
      modifies this`headerState, this`headerValue
      ensures var s := OnValue(old(View(Headers())), fragment);
        View(Headers()) == s.next && rc == s.rc
    {
      var text := TakeUntilNul(fragment);
      if headerState == Done {
        return 1;
      }
      headerState := ValueState;
      headerValue := headerValue + text;
      return 0;
    }

    /** `headersCompleteCb`. */
    method HeadersCompleteCb() returns (rc: int)
      requires request != null
      modifies this`headerState, this`headerField, this`headerValue, request`response
      ensures var s := OnHeadersComplete(old(View(Headers())));
        View(Headers()) == s.next && rc == s.rc
      ensures request.response == old(request.response).(headers := request.response.headers)
    {
      headerState := Done;
      FlushHeaders();
      return 0;
    }

    /** `bodyCb`. */
    method BodyCb(fragment: string) returns (rc: int)
      modifies this`body
      ensures var s := OnBody(old(View(Headers())), fragment);
        View(Headers()) == s.next && rc == s.rc
    {
      body := body + TakeUntilNul(fragment);
      return 0;
    }

    /** One parser callback for `e`. */
    method Dispatch(e: Event) returns (rc: int)
      requires request != null
      modifies this`headerState, this`headerField, this`headerValue, this`body, this`messageBegun, request
      ensures var s := Apply(old(View(Headers())), e, true);
        View(Headers()) == s.next && rc == s.rc
      ensures request.response == old(request.response).(headers := request.response.headers)
      ensures request.Others() == old(request.Others())
    {
      match e
      case Begin => rc := MessageBeginCb();
      case Field(t) => rc := HeaderFieldCb(t);
      case Value(t) => rc := HeaderValueCb(t);
      case HeadersComplete => rc := HeadersCompleteCb();
      case Body(t) => rc := BodyCb(t);
    }

    /**
     * `http_parser_execute` on one received block, seen from the callbacks:
     * the events are delivered in order until a callback refuses one.
     */
    method Execute(events: seq<Event>) returns (stopped: bool)
      requires request != null
      modifies this`headerState, this`headerField, this`headerValue, this`body, this`messageBegun, request
      ensures (View(Headers()), stopped) == Run(old(View(Headers())), events, true)
      ensures request.response == old(request.response).(headers := request.response.headers)
      ensures request.Others() == old(request.Others())
    {
      ghost var start := View(Headers());
      var i := 0;
      stopped := false;
      while i < |events|
        invariant 0 <= i <= |events|
        invariant Run(start, events[..i], true) == (View(Headers()), false)
        invariant request.response == old(request.response).(headers := request.response.headers)
        invariant request.Others() == old(request.Others())
      {
        ghost var before := View(Headers());
        var rc := Dispatch(events[i]);
        RunAppend(start, events[..i], [events[i]], true);
        RunOne(before, events[i], true);
        assert events[..i + 1] == events[..i] + [events[i]];
        i := i + 1;
        if rc != 0 {
          stopped := true;
          break;
        }
      }
      assert events == events[..i] + events[i..];
      RunAppend(start, events[..i], events[i..], true);
      if !stopped {
        assert events[i..] == [];
      }
    }
  }

  /** `EvHttpClient`. */
  class EvHttpClient {
    /** The connection pool, front first. */
    var connections: seq<HttpConn>
    /** The timeout for new requests, in seconds; 0 means none. */
    var timeout: real
    var initNumConns: int
    var url: Url.Fields
    /** Every call of a request callback so far, in order. */
    var calls: seq<Call>

    /** Pooled connections are distinct and idle. */
    predicate PoolValid()
      reads this`connections, connections
    {
      && (forall i, j :: 0 <= i < j < |connections| ==> connections[i] != connections[j])
      && (forall i :: 0 <= i < |connections| ==> connections[i].Idle())
    }

    /** The connection `getConn` would take from the pool. */
    function Front(): set<HttpConn>
      reads this`connections
    {
      if connections == [] then {} else {connections[0]}
    }

    /**
     * The outcome of re-acquiring a connection for `request`: the pool's
     * front connection, reset and bound; otherwise a new one when it can be
     * created; otherwise the request fails with a NULL response.
     */
    twostate predicate Rebound(request: RequestInfo, canCreate: bool)
      reads this, request, request.conn
    {
      if old(connections) != [] then
        && request.conn == old(connections[0]) && connections == old(connections[1..])
        && !request.conn.isNew && request.conn.Started(request)
        && calls == old(calls) && request.live && request.timerArmed == old(request.timerArmed)
      else if canCreate then
        && request.conn != null && fresh(request.conn) && request.conn.isNew && request.conn.Started(request)
        && connections == [] && calls == old(calls) && request.live && request.timerArmed == old(request.timerArmed)
      else
        && request.conn == null && connections == []
        && calls == old(calls) + [Call(request.cb, None, false)]
        && !request.live && !request.timerArmed
    }

    /**
     * The constructor. The URL is parsed into a default-constructed URL
     * object; when the host resolves, the pool is filled, with `available`
     * connections creatable before the first failure.
     */
    constructor (urlString: string, timeout: real, initNumConns: int, resolved: bool, available: nat)
      ensures this.url == Url.Written(Url.Fields("", "", this.url.port, "", ""), Url.ParseUrl(urlString))
      ensures this.timeout == timeout && this.initNumConns == initNumConns && calls == []
      ensures |connections| == if resolved then Min(Max(initNumConns, 0), available) else 0
      ensures forall i :: 0 <= i < |connections| ==> fresh(connections[i]) && connections[i].isNew && connections[i].Reset()
      ensures PoolValid()
    {
      var u := new Url.UrlObject();
      u.Parse(urlString);
      this.url := u.Current();
      this.timeout := timeout;
      this.initNumConns := initNumConns;
      this.connections := [];
      this.calls := [];
      new;
      if resolved {
        InitConnPool(available);
      }
    }

    /** `setTimeout`: later requests use the new timeout. */
    method SetTimeout(seconds: real)
      modifies this`timeout
      ensures timeout == seconds
    {
      timeout := seconds;
    }

    /** `initConnPool`: creates connections until `initNumConns` exist or creation fails. */
    method InitConnPool(available: nat)
      requires PoolValid()
      modifies this`connections
      ensures |connections| == |old(connections)| + Min(Max(initNumConns, 0), available)
      ensures connections[..|old(connections)|] == old(connections)
      ensures forall i :: |old(connections)| <= i < |connections| ==>
        fresh(connections[i]) && connections[i].isNew && connections[i].Reset()
      ensures PoolValid()
    {
      var i := 0;
      while i < initNumConns
        invariant 0 <= i <= available && i <= Max(initNumConns, 0)
        invariant |connections| == |old(connections)| + i
        invariant connections[..|old(connections)|] == old(connections)
        invariant forall k :: |old(connections)| <= k < |connections| ==>
          fresh(connections[k]) && connections[k].isNew && connections[k].Reset()
        invariant PoolValid()
      {
        if i == available {
          break;
        }
        var conn := new HttpConn();
        connections := connections + [conn];
        i := i + 1;
      }
    }

    /** `getConn`: the pool's front connection, reset; a new one when the pool is empty. */
    method GetConn(canCreate: bool) returns (conn: HttpConn?)
      requires PoolValid()
      modifies this`connections, Front()
      ensures PoolValid()
      ensures old(connections) != [] ==>
        && conn == old(connections[0]) && connections == old(connections[1..])
        && conn.Reset() && !conn.isNew && !conn.writeArmed && !conn.readArmed && conn.open
      ensures old(connections) == [] ==>
        && connections == [] && (conn != null <==> canCreate)
        && (conn != null ==> fresh(conn) && conn.Reset() && conn.isNew && conn.Idle())
    {
      if connections == [] {
        if !canCreate {
          return null;
        }
        conn := new HttpConn();
      } else {
        conn := connections[0];
        connections := connections[1..];
        conn.ResetState();
      }
    }

    /** `returnConn`: stop both watchers and put the connection at the back of the pool. */
    method ReturnConn(conn: HttpConn)
      requires PoolValid() && conn !in connections && conn.request == null && conn.open
      modifies this`connections, conn`writeArmed, conn`readArmed
      ensures connections == old(connections) + [conn]
      ensures !conn.writeArmed && !conn.readArmed
      ensures PoolValid()
    {
      conn.writeArmed := false;
      conn.readArmed := false;
      connections := connections + [conn];
    }

    /** `destroyConn`: close the socket and stop both watchers. */
    method DestroyConn(conn: HttpConn)
      modifies conn`open, conn`writeArmed, conn`readArmed
      ensures !conn.open && !conn.writeArmed && !conn.readArmed
    {
      conn.open := false;
      conn.writeArmed := false;
      conn.readArmed := false;
    }

    /** `finalizeError`: stop the timer, then call the callback once with NULL. */
    method FinalizeError(request: RequestInfo)
      requires request.live && request.cb != Null
      modifies this`calls, request`timerArmed, request`live
      ensures calls == old(calls) + [Call(request.cb, None, false)]
      ensures !request.timerArmed && !request.live
    {
      request.timerArmed := false;
      calls := calls + [Call(request.cb, None, request.timerArmed)];
      request.live := false;
    }

    /**
     * `finalizeTimeout`: stop the timer, mark the response as timed out
     * with code 0 and the elapsed time, then call the callback once.
     */
    method FinalizeTimeout(request: RequestInfo, now: TimeVal)
      requires request.live && request.cb != Null
      modifies this`calls, request`timerArmed, request`live, request`response, request`start
      ensures var d := DiffTime(now, old(request.start));
        && request.response == old(request.response).(timeout := true, code := 0, latencyMicros := d.micros)
        && request.start == d.start
        && calls == old(calls) + [Call(request.cb, Some(request.response), false)]
      ensures !request.timerArmed && !request.live
    {
      request.timerArmed := false;
      request.response := request.response.(timeout := true, code := 0, latencyMicros := 0);
      var d := DiffTime(now, request.start);
      request.start := d.start;
      request.response := request.response.(latencyMicros := d.micros);
      calls := calls + [Call(request.cb, Some(request.response), request.timerArmed)];
      request.live := false;
    }

    /** `retryRequest`: drop any bound connection and re-acquire one from the pool. */
    method RetryRequest(request: RequestInfo, canCreate: bool)
      requires PoolValid() && request.live && request.cb != Null
      requires request.conn != null ==> request.conn !in connections
      modifies this`connections, this`calls, request`conn, request`timerArmed, request`live, request.conn, Front()
      ensures old(request.conn) != null ==>
        !old(request.conn).open && !old(request.conn).writeArmed && !old(request.conn).readArmed
      ensures Rebound(request, canCreate)
      ensures PoolValid()
    {
      if request.conn != null {
        DestroyConn(request.conn);
        request.conn := null;
      }
      var conn := GetConn(canCreate);
      request.conn := conn;
      if conn == null {
        FinalizeError(request);
        return;
      }
      conn.request := request;
      conn.writeArmed := true;
    }

    /**
     * `makeRequest` with a ready request text: take a connection, bind a
     * new request to it, start its write watcher, and start the request's
     * timer when the timeout is positive. Without a connection it returns
     * -1 and calls nothing.
     */
    method MakeRequest(cb: Callback, requestString: string, canCreate: bool, now: TimeVal)
      returns (rc: int, request: RequestInfo?)
      requires PoolValid()
      modifies this`connections, Front()
      ensures PoolValid() && calls == old(calls)
      ensures rc == -1 <==> old(connections) == [] && !canCreate
      ensures rc == -1 ==> request == null && connections == old(connections)
      ensures rc != -1 ==>
        && rc == 0 && request != null && fresh(request)
        && request.conn != null && request.conn.Started(request)
        && request.cb == StoredCallback(cb) && request.requestString == requestString
        && request.response == EmptyResponse && request.start == now && request.live
        && request.timerSeconds == timeout && request.timerArmed == (timeout > 0.0)
        && (old(connections) != [] ==>
              request.conn == old(connections[0]) && !request.conn.isNew && connections == old(connections[1..]))
        && (old(connections) == [] ==> fresh(request.conn) && request.conn.isNew && connections == [])
    {
      var conn := GetConn(canCreate);
      if conn == null {
        return -1, null;
      }
      request := new RequestInfo(cb, requestString, now, timeout);
      request.conn := conn;
      conn.request := request;
      conn.writeArmed := true;
      if timeout > 0.0 {
        request.timerArmed := true;
      }
      rc := 0;
    }

    /** `makeRequest` from a path, method, header map and body: the text `buildRequest` gives. */
    method MakeRequestFrom(cb: Callback, path: string, verb: string, headers: seq<RequestText.Entry>,
                           body: string, canCreate: bool, now: TimeVal)
      returns (rc: int, request: RequestInfo?)
      requires PoolValid()
      modifies this`connections, Front()
      ensures PoolValid() && calls == old(calls)
      ensures rc == -1 <==> old(connections) == [] && !canCreate
      ensures rc == -1 ==> request == null && connections == old(connections)
      ensures rc != -1 ==>
        && rc == 0 && request != null && fresh(request)
        && request.conn != null && request.conn.Started(request)
        && request.cb == StoredCallback(cb)
        && request.requestString == RequestText.BuildRequest(path, verb, headers, body, url)
        && request.response == EmptyResponse && request.start == now && request.live
        && request.timerSeconds == timeout && request.timerArmed == (timeout > 0.0)
        && (old(connections) != [] ==>
              request.conn == old(connections[0]) && !request.conn.isNew && connections == old(connections[1..]))
        && (old(connections) == [] ==> fresh(request.conn) && request.conn.isNew && connections == [])
    {
      rc, request := MakeRequest(cb, RequestText.BuildRequest(path, verb, headers, body, url), canCreate, now);
    }

    /**
     * The failure branch `writeCb` and `readCb` share: destroy the
     * connection and unbind it; a fresh connection fails the request with
     * NULL, a reused one has the request retried.
     */
    method Abandon(conn: HttpConn, canCreate: bool)
      requires PoolValid() && conn.request != null && conn.request.conn == conn
      requires conn.request.live && conn.request.cb != Null
      modifies this`connections, this`calls, conn`open, conn`writeArmed, conn`readArmed
      modifies conn.request`conn, conn.request`timerArmed, conn.request`live, Front()
      ensures !conn.open && !conn.writeArmed && !conn.readArmed
      ensures old(conn.isNew) ==>
        var request := old(conn.request);
        && request.conn == null && connections == old(connections)
        && calls == old(calls) + [Call(request.cb, None, false)]
        && !request.live && !request.timerArmed
      ensures !old(conn.isNew) ==> Rebound(old(conn.request), canCreate)
      ensures PoolValid()
    {
      var request := conn.request;
      DestroyConn(conn);
      request.conn := null;
      if conn.isNew {
        FinalizeError(request);
      } else {
        RetryRequest(request, canCreate);
      }
    }

    /**
     * `writeCb`: send what is left of the request text up to its first
     * NUL. A failed send abandons the connection; otherwise the sent count
     * grows by what was sent, and exactly when it reaches the text's length
     * the write watcher is stopped and the read watcher started.
     */
    method WriteCb(conn: HttpConn, sent: int, canCreate: bool)
      requires PoolValid() && conn.request != null && conn.request.conn == conn && conn.open && conn.writeArmed
      requires conn.request.live && conn.request.cb != Null
      requires conn.requestBytesSent <= |conn.request.requestString|
      requires sent <= |TakeUntilNul(conn.request.requestString[conn.requestBytesSent..])|
      modifies this`connections, this`calls, conn`open, conn`writeArmed, conn`readArmed, conn`requestBytesSent
      modifies conn.request`conn, conn.request`timerArmed, conn.request`live, Front()
      ensures sent >= 0 ==>
        && conn.requestBytesSent == old(conn.requestBytesSent) + sent
        && conn.requestBytesSent <= |conn.request.requestString|
        && (conn.requestBytesSent == |conn.request.requestString| ==> !conn.writeArmed && conn.readArmed)
        && (conn.requestBytesSent < |conn.request.requestString| ==> conn.writeArmed && conn.readArmed == old(conn.readArmed))
        && conn.open && conn.request.conn == conn && conn.request.live
        && conn.request.timerArmed == old(conn.request.timerArmed)
        && connections == old(connections) && calls == old(calls)
      ensures sent < 0 ==> !conn.open && !conn.writeArmed && !conn.readArmed
      ensures sent < 0 && old(conn.isNew) ==>
        var request := old(conn.request);
        && request.conn == null && connections == old(connections)
        && calls == old(calls) + [Call(request.cb, None, false)] && !request.live
      ensures sent < 0 && !old(conn.isNew) ==> Rebound(old(conn.request), canCreate)
      ensures PoolValid()
    {
      var request := conn.request;
      var rest := TakeUntilNul(request.requestString[conn.requestBytesSent..]);
      if sent < 0 {
        Abandon(conn, canCreate);
        return;
      }
      conn.requestBytesSent := conn.requestBytesSent + sent;
      if conn.requestBytesSent == |request.requestString| {
        conn.writeArmed := false;
        conn.readArmed := true;
      }
    }

    /**
     * `HttpConn::messageCompleteCb`: stop the timer, complete the response
     * with the body, the status code and the latency, call the callback
     * once, unbind the request and put the connection back in the pool.
     */
    method MessageCompleteCb(conn: HttpConn, status: int, now: TimeVal)
      requires PoolValid() && conn.request != null && conn.request.conn == conn && conn.open
      requires conn.request.live && conn.request.cb != Null
      modifies this`connections, this`calls, conn`messageComplete, conn`responseSent, conn`request
      modifies conn`writeArmed, conn`readArmed
      modifies conn.request`timerArmed, conn.request`response, conn.request`start, conn.request`live
      ensures var request := old(conn.request); var d := DiffTime(now, old(request.start));
        && request.response == old(request.response).(body := old(conn.body), timeout := false, code := status, latencyMicros := d.micros)
        && request.start == d.start
        && calls == old(calls) + [Call(request.cb, Some(request.response), false)]
        && !request.live && !request.timerArmed
      ensures conn.request == null && conn.messageComplete && conn.responseSent
      ensures connections == old(connections) + [conn] && !conn.writeArmed && !conn.readArmed
      ensures PoolValid()
    {
      var request := conn.request;
      request.timerArmed := false;
      conn.messageComplete := true;
      request.response := request.response.(body := conn.body, timeout := false, code := status);
      var d := DiffTime(now, request.start);
      request.start := d.start;
      request.response := request.response.(latencyMicros := d.micros);
      calls := calls + [Call(request.cb, Some(request.response), request.timerArmed)];
      conn.responseSent := true;
      request.live := false;
      conn.request := null;
      ReturnConn(conn);
    }

    /**
     * `readCb`: a failed or closed `recv` abandons the connection;
     * otherwise the parser delivers its callbacks for the block, and when
     * it reports the message complete without having been refused, the
     * request completes.
     */
    method ReadCb(conn: HttpConn, received: int, events: seq<Event>, complete: Option<int>,
                  canCreate: bool, now: TimeVal)
      requires PoolValid() && conn.request != null && conn.request.conn == conn && conn.open && conn.readArmed
      requires conn.request.live && conn.request.cb != Null
      modifies this`connections, this`calls, conn, conn.request, Front()
      ensures var request := old(conn.request);
        && request.cb == old(request.cb) && request.requestString == old(request.requestString)
        && request.timerSeconds == old(request.timerSeconds)
      ensures received <= 0 ==> !conn.open && !conn.writeArmed && !conn.readArmed
      ensures received <= 0 && old(conn.isNew) ==>
        var request := old(conn.request);
        && request.conn == null && connections == old(connections)
        && calls == old(calls) + [Call(request.cb, None, false)] && !request.live
      ensures received <= 0 && !old(conn.isNew) ==> Rebound(old(conn.request), canCreate)
      ensures received > 0 ==>
        && conn.isNew == old(conn.isNew) && conn.requestBytesSent == old(conn.requestBytesSent) && conn.open
      ensures received > 0 ==>
        var request := old(conn.request);
        var r := Run(old(conn.View(conn.Headers())), events, true);
        if r.1 || complete.None? then
          && conn.request == request && request.conn == conn && request.live
          && conn.readArmed && conn.writeArmed == old(conn.writeArmed)
          && request.Others() == old(request.Others())
          && conn.View(request.response.headers) == r.0
          && request.response == old(request.response).(headers := r.0.headers)
          && calls == old(calls) && connections == old(connections)
        else
          var d := DiffTime(now, old(request.start));
          var response := old(request.response).(headers := r.0.headers, body := r.0.body, timeout := false,
                                                 code := complete.value, latencyMicros := d.micros);
          && calls == old(calls) + [Call(request.cb, Some(response), false)]
          && !request.live && !request.timerArmed && conn.request == null
          && connections == old(connections) + [conn]
      ensures PoolValid()
    {
      if received <= 0 {
        Abandon(conn, canCreate);
        return;
      }
      assert conn !in connections;
      var stopped := conn.Execute(events);
      if !stopped && complete.Some? {
        MessageCompleteCb(conn, complete.value, now);
      }
    }

    /**
     * `timeoutCb`: stop and destroy any bound connection, unbind it, then
     * finalize the request as timed out.
     */
    method TimeoutCb(request: RequestInfo, now: TimeVal)
      requires PoolValid() && request.live && request.cb != Null && request.timerArmed
      requires request.conn != null ==> request.conn.request == request
      modifies this`calls, request`conn, request`timerArmed, request`live, request`response, request`start
      modifies request.conn
      ensures old(request.conn) != null ==>
        !old(request.conn).open && !old(request.conn).writeArmed && !old(request.conn).readArmed
      ensures var d := DiffTime(now, old(request.start));
        && request.conn == null
        && request.response == old(request.response).(timeout := true, code := 0, latencyMicros := d.micros)
        && calls == old(calls) + [Call(request.cb, Some(request.response), false)]
        && !request.live && !request.timerArmed
      ensures PoolValid()
    {
      var conn := request.conn;
      if conn != null {
        assert conn !in connections;
        conn.writeArmed := false;
        conn.readArmed := false;
        DestroyConn(conn);
        request.conn := null;
      }
      FinalizeTimeout(request, now);
    }
  }

  /**
   * A NUL in the request text stalls the write: no send result the
   * source allows carries the sent count past the NUL, so it never reaches
   * the text's length and the read watcher is never started.
   */
  lemma NulStallsWrite(text: string, sentSoFar: nat, nul: nat, sent: nat)
    requires sentSoFar <= nul < |text| && text[nul] == '\0'
    requires sent <= |TakeUntilNul(text[sentSoFar..])|
    ensures sentSoFar + sent <= nul < |text|
  {
    TakeUntilNulPrefix(text[sentSoFar..]);
    assert text[sentSoFar..][nul - sentSoFar] == '\0';
  }
}
