/** The adapter of queue/queue.go: the gRPC handler that forwards Pop and
    Peek to a queue, and the conversion of an incoming HTTP request into a
    WebRequest message.

    The queue behind the handler is an interface; a handler call is
    modelled as the call it makes on the queue together with the reply the
    queue gives, which is an input. The HTTP request is an object whose
    body the conversion reads and then replaces with a fresh reader holding
    the same bytes. Converting the arrival time into a protobuf timestamp
    is done by the protobuf library and is an input too. */
module Adapter {
  import opened Common
  import opened Messages

  // ---------------------------------------------------------------- gRPC

  /** time.Second, in nanoseconds. */
  const Second: int := 1_000_000_000

  /** The duration GRPCHandler.Pop passes on: nil is 0; otherwise
      Duration(nanos) + Duration(seconds) * time.Second in int64
      arithmetic, so the product and the sum each wrap around. */
  function TimeoutNanos(timeout: Option<Duration>): (d: Int64)
    ensures timeout.None? ==> d == 0
    ensures timeout.Some? ==>
              var exact := timeout.value.seconds * Second + timeout.value.nanos;
              && (exact - d) % TwoTo64 == 0
              && (MinInt64 <= timeout.value.seconds * Second <= MaxInt64 && MinInt64 <= exact <= MaxInt64 ==> d == exact)
  {
    if timeout.None? then 0
    else
      var d := Wrap64(timeout.value.nanos + Wrap64(timeout.value.seconds * Second));
      WrapTwice(timeout.value.seconds * Second, timeout.value.nanos);
      d
  }

  /** Wrapping the product and then the sum is congruent to the exact sum. */
  lemma WrapTwice(p: int, n: int)
    ensures (p + n - Wrap64(n + Wrap64(p))) % TwoTo64 == 0
  {
    var w1 := Wrap64(p);
    var w2 := Wrap64(n + w1);
    var x, y := p - w1, n + w1 - w2;
    assert x % TwoTo64 == 0 && y % TwoTo64 == 0;
    assert x == TwoTo64 * (x / TwoTo64);
    assert y == TwoTo64 * (y / TwoTo64);
    assert x + y == TwoTo64 * (x / TwoTo64 + y / TwoTo64);
  }

  /** The calls the handlers make on the queue interface. */
  datatype Call =
    | PopCall(queueName: string, timeout: Int64)
    | PeekCall(queueName: string, count: Int64)
    | PushCall(queueName: string, webRequests: seq<WebRequest>)

  /** A handler call: what it asked the queue, what it answered, its error. */
  datatype Handled<R> = Handled(call: Call, response: R, err: Option<Error>)

  /** GRPCHandler.Pop, given the queue's reply (record, error). The request
      may be nil: its getters then give "" and no timeout. */
  function GrpcPop(request: Option<PopRequest>, reply: (Option<WebRequest>, Option<Error>)): (r: Handled<PopResponse>)
    ensures r.call == PopCall(GetPopQueueName(request), TimeoutNanos(GetTimeout(request)))
    ensures GetPopped(Some(r.response)) == reply.0 && r.err == reply.1
  {
    Handled(PopCall(GetPopQueueName(request), TimeoutNanos(GetTimeout(request))), PopResponse(reply.0), reply.1)
  }

  /** GRPCHandler.Peek, given the queue's reply: the name and count go to
      the queue unchanged, and the records and error come back unchanged. */
  function GrpcPeek(request: Option<PeekRequest>, reply: (GoSlice<WebRequest>, Option<Error>)): (r: Handled<PeekResponse>)
    ensures r.call == PeekCall(GetPeekQueueName(request), GetCount(request))
    ensures GetPeeked(Some(r.response)) == reply.0 && r.err == reply.1
  {
    Handled(PeekCall(GetPeekQueueName(request), GetCount(request)), PeekResponse(reply.0), reply.1)
  }

  /** A Pop request for queue "asdf" with a 12-second timeout asks the queue
      for exactly 12 seconds and returns the popped record. */
  lemma GrpcPopTwelveSeconds(w: WebRequest)
    ensures var r := GrpcPop(Some(PopRequest("asdf", Some(Duration(12, 0)))), (Some(w), None));
            r.call == PopCall("asdf", 12 * Second) && GetPopped(Some(r.response)) == Some(w) && r.err == None
  {
  }

  /** A negative timeout within the int64 range of nanoseconds passes
      through exactly, as a negative duration, which Pop treats as no
      deadline. This holds even when only the sum, and
      not the product seconds * time.Second, is in range. */
  lemma NegativeTimeoutPassesThrough(t: Duration)
    requires MinInt64 <= t.seconds * Second + t.nanos < 0
    ensures TimeoutNanos(Some(t)) == t.seconds * Second + t.nanos
    ensures TimeoutNanos(Some(t)) < 0
  {
    var exact := t.seconds * Second + t.nanos;
    CongruentInRange(exact, TimeoutNanos(Some(t)));
  }

  /** Two int64 values congruent modulo 2^64 are equal. */
  lemma CongruentInRange(a: Int64, b: Int64)
    requires (a - b) % TwoTo64 == 0
    ensures a == b
  {
    var x := a - b;
    var q := x / TwoTo64;
    assert x == TwoTo64 * q && -TwoTo64 < x < TwoTo64;
  }

  /** -1 s gives -10^9 ns and -5 ns gives -5. */
  lemma NegativeTimeoutSamples()
    ensures TimeoutNanos(Some(Duration(-1, 0))) == -Second
    ensures TimeoutNanos(Some(Duration(0, -5))) == -5
  {
    NegativeTimeoutPassesThrough(Duration(-1, 0));
    NegativeTimeoutPassesThrough(Duration(0, -5));
  }

  /** A whole-second timeout below the int64 minimum of nanoseconds, by at
      most 2^64, comes out 2^64 larger: positive unless the exact value is
      -2^64 ns or below. */
  lemma NegativeHugeTimeoutWraps(seconds: Int64)
    requires MinInt64 - TwoTo64 <= seconds * Second < MinInt64
    ensures TimeoutNanos(Some(Duration(seconds, 0))) == seconds * Second + TwoTo64
    ensures TimeoutNanos(Some(Duration(seconds, 0))) > 0 <==> seconds * Second > -TwoTo64
  {
    var exact := seconds * Second;
    WrapsUp(exact);
    assert Wrap64(0 + Wrap64(exact)) == Wrap64(exact);
  }

  /** Wrap64 adds 2^64 once to a value below the int64 range by at most
      2^64. */
  lemma WrapsUp(x: int)
    requires MinInt64 - TwoTo64 <= x < MinInt64
    ensures Wrap64(x) == x + TwoTo64
  {
    var y := x - MinInt64;
    assert -TwoTo64 <= y < 0;
    assert y % TwoTo64 == y + TwoTo64 by {
      assert y == TwoTo64 * -1 + (y + TwoTo64);
    }
  }

  /** -10^10 s, that is -10^19 ns, wraps to +8_446_744_073_709_551_616 ns. */
  lemma NegativeHugeTimeoutSample()
    ensures TimeoutNanos(Some(Duration(-10_000_000_000, 0))) == 8_446_744_073_709_551_616
  {
    NegativeHugeTimeoutWraps(-10_000_000_000);
  }

  /** A whole-second timeout whose nanoseconds exceed the int64 maximum,
      by at most 2^64, comes out 2^64 smaller: negative up to 2^64 nanoseconds (about
      584 years), positive beyond. */
  lemma HugeTimeoutWraps(seconds: Int64)
    requires MaxInt64 < seconds * Second <= MaxInt64 + TwoTo64
    ensures TimeoutNanos(Some(Duration(seconds, 0))) == seconds * Second - TwoTo64
    ensures TimeoutNanos(Some(Duration(seconds, 0))) < 0 <==> seconds * Second < TwoTo64
  {
    var exact := seconds * Second;
    WrapsOnce(exact);
    assert Wrap64(0 + Wrap64(exact)) == Wrap64(exact);
  }

  /** Wrap64 subtracts 2^64 once from a value above the int64 range by
      at most 2^64. */
  lemma WrapsOnce(x: int)
    requires MaxInt64 < x <= MaxInt64 + TwoTo64
    ensures Wrap64(x) == x - TwoTo64
  {
    var y := x - MinInt64;
    assert TwoTo64 <= y < 2 * TwoTo64;
    assert y % TwoTo64 == y - TwoTo64 by {
      assert y == TwoTo64 * 1 + (y - TwoTo64);
    }
  }

  /** 9.3e9 seconds wrap to a negative duration, 18_446_744_074 seconds to
      a positive 290_448_384 nanoseconds. */
  lemma HugeTimeoutSamples()
    ensures TimeoutNanos(Some(Duration(9_300_000_000, 0))) < 0
    ensures TimeoutNanos(Some(Duration(18_446_744_074, 0))) == 290_448_384
  {
    HugeTimeoutWraps(9_300_000_000);
    HugeTimeoutWraps(18_446_744_074);
  }

  // ---------------------------------------------------------------- HTTP

  /** An io.ReadCloser: the bytes it yields, the error (if any) that ends
      ReadAll instead, and whether it was closed. */
  datatype Body = Body(content: string, failure: Option<Error>, closed: bool)

  /** The parts of an *http.Request the conversion reads. */
  class HttpRequest {
    var header: map<string, GoSlice<string>>
    var host: string
    var body: Body

    constructor (header: map<string, GoSlice<string>>, host: string, body: Body)
      ensures this.header == header && this.host == host && this.body == body
    {
      this.header, this.host, this.body := header, host, body;
    }
  }

  predicate DistinctNames(headers: seq<Header>) {
    forall i, j :: 0 <= i < j < |headers| ==> headers[i].name != headers[j].name
  }

  /** `headers` lists every entry of the header map once, in some order. */
  predicate ListsHeaderMap(headers: seq<Header>, m: map<string, GoSlice<string>>) {
    && DistinctNames(headers)
    && (forall i :: 0 <= i < |headers| ==> headers[i].name in m && m[headers[i].name] == headers[i].value)
    && (forall k :: k in m ==> exists i :: 0 <= i < |headers| && headers[i].name == k)
  }

  /** The map a header list describes (the last entry for a name wins). */
  function HeaderMap(headers: seq<Header>): map<string, GoSlice<string>>
    decreases |headers|
  {
    if headers == [] then map[]
    else HeaderMap(headers[..|headers| - 1])[headers[|headers| - 1].name := headers[|headers| - 1].value]
  }

  /** Turning the header map into a list loses nothing: the list describes
      exactly the original map. */
  lemma {:induction false} HeaderListRoundTrip(headers: seq<Header>, m: map<string, GoSlice<string>>)
    requires ListsHeaderMap(headers, m)
    ensures HeaderMap(headers) == m
    decreases |headers|
  {
    if headers == [] {
      assert forall k :: k !in m;
    } else {
      var n := |headers| - 1;
      var last := headers[n];
      ListsAllButLast(headers, m);
      HeaderListRoundTrip(headers[..n], Without(m, last.name));
      RestoreEntry(m, last.name);
    }
  }

  /** The map without the entry for k. */
  function Without(m: map<string, GoSlice<string>>, k: string): (r: map<string, GoSlice<string>>)
    ensures k !in r && forall j :: j in r <==> j in m && j != k
    ensures forall j :: j in r ==> r[j] == m[j]
  {
    map j | j in m && j != k :: m[j]
  }

  /** Putting back a removed entry gives the map back. */
  lemma RestoreEntry(m: map<string, GoSlice<string>>, k: string)
    requires k in m
    ensures Without(m, k)[k := m[k]] == m
  {
  }

  /** Without its last header, the list describes the map without that
      header's name. */
  lemma ListsAllButLast(headers: seq<Header>, m: map<string, GoSlice<string>>)
    requires headers != [] && ListsHeaderMap(headers, m)
    ensures var n := |headers| - 1;
            && headers[n].name in m && m[headers[n].name] == headers[n].value
            && ListsHeaderMap(headers[..n], Without(m, headers[n].name))
  {
    var n := |headers| - 1;
    var last := headers[n];
    var rest := headers[..n];
    var m' := Without(m, last.name);
    forall k | k in m' ensures exists i :: 0 <= i < |rest| && rest[i].name == k {
      var i :| 0 <= i < |headers| && headers[i].name == k;
      assert i != n;
      assert rest[i].name == k;
    }
    forall i | 0 <= i < |rest| ensures rest[i].name in m' && m'[rest[i].name] == rest[i].value {
      assert rest[i] == headers[i] && headers[i].name != last.name;
    }
  }

  /** getHeadersFromHttpRequest: one entry per header name, in the order the
      map is ranged over (which Go leaves unspecified), in a non-nil slice;
      a nil request gives an empty list. */
  method GetHeaders(req: HttpRequest?) returns (headers: GoSlice<Header>)
    ensures headers.Made?
    ensures req == null ==> headers.items == []
    ensures req != null ==> ListsHeaderMap(headers.items, req.header)
  {
    var items: seq<Header> := [];
    if req != null {
      var left := req.header.Keys;
      while left != {}
        invariant left <= req.header.Keys
        invariant DistinctNames(items)
        invariant forall i :: 0 <= i < |items| ==>
                    items[i].name in req.header && items[i].name !in left && req.header[items[i].name] == items[i].value
        invariant forall k :: k in req.header && k !in left ==> exists i :: 0 <= i < |items| && items[i].name == k
        decreases left
      {
        var k :| k in left;
        ghost var before := items;
        items := items + [Header(k, req.header[k])];
        left := left - {k};
        forall k2 | k2 in req.header && k2 !in left
          ensures exists i :: 0 <= i < |items| && items[i].name == k2
        {
          if k2 == k {
            assert items[|items| - 1].name == k2;
          } else {
            var i :| 0 <= i < |before| && before[i].name == k2;
            assert items[i].name == k2;
          }
        }
      }
    }
    headers := Made(items);
  }

  /** readBodyFromHttpRequest: read the body to the end and close it; on
      success put back a fresh reader over the same bytes, so the body can
      be read again. */
  method ReadBody(req: HttpRequest?) returns (body: string, err: Option<Error>)
    modifies req
    ensures req == null ==> body == "" && err == Some(NilRequest)
    ensures req != null && old(req.body.failure).Some? ==>
              && body == "" && err == Some(Wrapped("failed reading body", old(req.body.failure).value))
              && req.body == old(req.body).(closed := true)
    ensures req != null && old(req.body.failure).None? ==>
              body == old(req.body.content) && err == None && req.body == Body(body, None, false)
    ensures req != null ==> req.header == old(req.header) && req.host == old(req.host)
  {
    if req == null {
      return "", Some(NilRequest);
    }
    var read := req.body;
    req.body := req.body.(closed := true);
    if read.failure.Some? {
      return "", Some(Wrapped("failed reading body", read.failure.value));
    }
    req.body := Body(read.content, None, false);
    return read.content, None;
  }

  /** Reading the body twice gives the same bytes both times. */
  method ReadBodyTwice(req: HttpRequest)
    returns (first: string, second: string)
    requires req.body.failure.None?
    modifies req
    ensures first == second == old(req.body.content)
  {
    var err;
    first, err := ReadBody(req);
    second, err := ReadBody(req);
  }

  /** NewWebRequestFromHttpRequest: a nil request, a body that cannot be
      read, or an arrival time without a timestamp is an error; otherwise
      the record holds the timestamp, every header, the body and the host. */
  method NewWebRequestFromHttpRequest(req: HttpRequest?, receivedAt: Result<Timestamp>)
    returns (webRequest: Option<WebRequest>, err: Option<Error>)
    modifies req
    ensures req == null ==> webRequest == None && err == Some(NilRequest)
    ensures req != null && old(req.body.failure).Some? ==>
              && webRequest == None
              && err == Some(Wrapped("failed reading request body", Wrapped("failed reading body", old(req.body.failure).value)))
    ensures req != null && old(req.body.failure).None? && receivedAt.Err? ==>
              webRequest == None && err == Some(receivedAt.error)
    ensures req != null && old(req.body.failure).None? && receivedAt.Ok? ==>
              && err == None && webRequest.Some?
              && webRequest.value.receivedAt == Some(receivedAt.value)
              && webRequest.value.header.Made? && ListsHeaderMap(webRequest.value.header.items, old(req.header))
              && webRequest.value.body == old(req.body.content)
              && webRequest.value.host == old(req.host)
    ensures req != null && old(req.body.failure).None? ==> req.body == Body(old(req.body.content), None, false)
    ensures req != null && old(req.body.failure).Some? ==> req.body == old(req.body).(closed := true)
    ensures req != null ==> req.header == old(req.header) && req.host == old(req.host)
  {
    if req == null {
      return None, Some(NilRequest);
    }
    var body, readErr := ReadBody(req);
    if readErr.Some? {
      return None, Some(Wrapped("failed reading request body", readErr.value));
    }
    if receivedAt.Err? {
      return None, Some(receivedAt.error);
    }
    var headers := GetHeaders(req);
    webRequest := Some(WebRequest(Some(receivedAt.value), headers, req.host, body));
    err := None;
  }
}
