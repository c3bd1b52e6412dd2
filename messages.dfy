/** The protocol-buffer message types of queue/queue.pb.go, their nil-safe
    getters and their Reset methods.

    A reference to a message that may be nil is an `Option` (nil is `None`); a
    repeated field is a `GoSlice`, so that a nil list and an empty one stay
    distinct. `Reset` overwrites the pointed-to struct in place, so each
    message also has a small cell class that holds the struct a reference
    points to. */
module Messages {
  import opened Common

  datatype Timestamp = Timestamp(seconds: Int64, nanos: Int32)
  datatype Duration = Duration(seconds: Int64, nanos: Int32)

  datatype Header = Header(name: string, value: GoSlice<string>)

  datatype WebRequest = WebRequest(
    receivedAt: Option<Timestamp>,
    header: GoSlice<Header>,
    host: string,
    body: string)

  datatype PopRequest = PopRequest(queueName: string, timeout: Option<Duration>)
  datatype PopResponse = PopResponse(webRequest: Option<WebRequest>)
  datatype PeekRequest = PeekRequest(queueName: string, count: Int64)
  datatype PeekResponse = PeekResponse(webRequest: GoSlice<WebRequest>)

  // The zero value of each message: what `T{}` builds in Go.
  const ZeroHeader: Header := Header("", Nil)
  const ZeroWebRequest: WebRequest := WebRequest(None, Nil, "", "")
  const ZeroPopRequest: PopRequest := PopRequest("", None)
  const ZeroPopResponse: PopResponse := PopResponse(None)
  const ZeroPeekRequest: PeekRequest := PeekRequest("", 0)
  const ZeroPeekResponse: PeekResponse := PeekResponse(Nil)

  // Getters. On a nil receiver each returns the zero value of the field's
  // type, which is the field of the zero message; otherwise the field.

  function GetName(m: Option<Header>): (r: string)
    ensures m.None? ==> r == ZeroHeader.name
    ensures m.Some? ==> r == m.value.name
  {
    if m.Some? then m.value.name else ""
  }

  function GetValue(m: Option<Header>): (r: GoSlice<string>)
    ensures m.None? ==> r == ZeroHeader.value
    ensures m.Some? ==> r == m.value.value
  {
    if m.Some? then m.value.value else Nil
  }

  function GetReceivedAt(m: Option<WebRequest>): (r: Option<Timestamp>)
    ensures m.None? ==> r == ZeroWebRequest.receivedAt
    ensures m.Some? ==> r == m.value.receivedAt
  {
    if m.Some? then m.value.receivedAt else None
  }

  function GetHeader(m: Option<WebRequest>): (r: GoSlice<Header>)
    ensures m.None? ==> r == ZeroWebRequest.header
    ensures m.Some? ==> r == m.value.header
  {
    if m.Some? then m.value.header else Nil
  }

  function GetHost(m: Option<WebRequest>): (r: string)
    ensures m.None? ==> r == ZeroWebRequest.host
    ensures m.Some? ==> r == m.value.host
  {
    if m.Some? then m.value.host else ""
  }

  function GetBody(m: Option<WebRequest>): (r: string)
    ensures m.None? ==> r == ZeroWebRequest.body
    ensures m.Some? ==> r == m.value.body
  {
    if m.Some? then m.value.body else ""
  }

  function GetPopQueueName(m: Option<PopRequest>): (r: string)
    ensures m.None? ==> r == ZeroPopRequest.queueName
    ensures m.Some? ==> r == m.value.queueName
  {
    if m.Some? then m.value.queueName else ""
  }

  function GetTimeout(m: Option<PopRequest>): (r: Option<Duration>)
    ensures m.None? ==> r == ZeroPopRequest.timeout
    ensures m.Some? ==> r == m.value.timeout
  {
    if m.Some? then m.value.timeout else None
  }

  function GetPopped(m: Option<PopResponse>): (r: Option<WebRequest>)
    ensures m.None? ==> r == ZeroPopResponse.webRequest
    ensures m.Some? ==> r == m.value.webRequest
  {
    if m.Some? then m.value.webRequest else None
  }

  function GetPeekQueueName(m: Option<PeekRequest>): (r: string)
    ensures m.None? ==> r == ZeroPeekRequest.queueName
    ensures m.Some? ==> r == m.value.queueName
  {
    if m.Some? then m.value.queueName else ""
  }

  function GetCount(m: Option<PeekRequest>): (r: Int64)
    ensures m.None? ==> r == ZeroPeekRequest.count
    ensures m.Some? ==> r == m.value.count
  {
    if m.Some? then m.value.count else 0
  }

  function GetPeeked(m: Option<PeekResponse>): (r: GoSlice<WebRequest>)
    ensures m.None? ==> r == ZeroPeekResponse.webRequest
    ensures m.Some? ==> r == m.value.webRequest
  {
    if m.Some? then m.value.webRequest else Nil
  }

  // The struct a non-nil reference to a message denotes; Reset is `*m = T{}`.

  class HeaderCell {
    var m: Header
    constructor (m: Header) ensures this.m == m { this.m := m; }
    method Reset()
      modifies this
      ensures m == ZeroHeader
      ensures GetName(Some(m)) == GetName(None) && GetValue(Some(m)) == GetValue(None)
    {
      m := Header("", Nil);
    }
  }

  class WebRequestCell {
    var m: WebRequest
    constructor (m: WebRequest) ensures this.m == m { this.m := m; }
    method Reset()
      modifies this
      ensures m == ZeroWebRequest
      ensures GetReceivedAt(Some(m)) == GetReceivedAt(None) && GetHeader(Some(m)) == GetHeader(None)
      ensures GetHost(Some(m)) == GetHost(None) && GetBody(Some(m)) == GetBody(None)
    {
      m := WebRequest(None, Nil, "", "");
    }
  }

  class PopRequestCell {
    var m: PopRequest
    constructor (m: PopRequest) ensures this.m == m { this.m := m; }
    method Reset()
      modifies this
      ensures m == ZeroPopRequest
      ensures GetPopQueueName(Some(m)) == GetPopQueueName(None) && GetTimeout(Some(m)) == GetTimeout(None)
    {
      m := PopRequest("", None);
    }
  }

  class PopResponseCell {
    var m: PopResponse
    constructor (m: PopResponse) ensures this.m == m { this.m := m; }
    method Reset()
      modifies this
      ensures m == ZeroPopResponse
      ensures GetPopped(Some(m)) == GetPopped(None)
    {
      m := PopResponse(None);
    }
  }

  class PeekRequestCell {
    var m: PeekRequest
    constructor (m: PeekRequest) ensures this.m == m { this.m := m; }
    method Reset()
      modifies this
      ensures m == ZeroPeekRequest
      ensures GetPeekQueueName(Some(m)) == GetPeekQueueName(None) && GetCount(Some(m)) == GetCount(None)
    {
      m := PeekRequest("", 0);
    }
  }

  class PeekResponseCell {
    var m: PeekResponse
    constructor (m: PeekResponse) ensures this.m == m { this.m := m; }
    method Reset()
      modifies this
      ensures m == ZeroPeekResponse
      ensures GetPeeked(Some(m)) == GetPeeked(None)
    {
      m := PeekResponse(Nil);
    }
  }
}
