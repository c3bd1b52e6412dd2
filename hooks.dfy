/** The web-hook HTTP service of services/hooks/hooks.go: POST /{key}
    stores the incoming request on the queue, GET /{key} shows what is
    queued there, and /_ping answers "pong".

    Each handler is modelled as a decision from the route key, the request
    and the replies of the calls it makes (to the queue, to the response
    writer and to the JSON encoder) to the response it writes and the
    queue calls it made. */
module Hooks {
  import opened Common
  import opened Messages
  import opened Adapter

  const StatusOK: int := 200
  const StatusNoContent: int := 204
  const StatusBadRequest: int := 400
  const StatusInternalServerError: int := 500

  /** What a handler writes: plain text, or the JSON encoding of a list of
      records (the encoding itself is the protobuf JSON marshaller's). */
  datatype Payload = Text(text: string) | JsonArray(records: seq<WebRequest>)

  datatype Response = Response(status: int, payload: Payload)

  /** http.Error: the status, and the message followed by a newline. */
  function HttpError(message: string, status: int): (r: Response)
    ensures r.status == status && r.payload.Text? && r.payload.text == message + "\n"
    ensures |r.payload.text| == |message| + 1 && r.payload.text[|message|] == '\n'
  {
    Response(status, Text(message + "\n"))
  }

  /** receivedAt: the override when one is set, the current time otherwise. */
  function ReceivedAt<T>(override: Option<T>, now: T): (t: T)
    ensures override.Some? ==> t == override.value
    ensures override.None? ==> t == now
  {
    match override
    case Some(fixed) => fixed
    case None => now
  }

  /** pingHandler, given whether writing "pong" failed. */
  function PingHandler(writeError: Option<Error>): (r: Response)
    ensures writeError.None? ==> r == Response(StatusOK, Text("pong"))
    ensures writeError.Some? ==> r == HttpError("", StatusInternalServerError)
  {
    if writeError.None? then Response(StatusOK, Text("pong"))
    else HttpError("", StatusInternalServerError)
  }

  /** postHandler: an empty key is a bad request; otherwise the request is
      converted to a record (a failure is a bad request) and pushed alone
      onto the key's queue, whose error is an internal error. */
  method PostHandler(key: string, req: HttpRequest?, receivedAt: Result<Timestamp>, pushError: Option<Error>)
    returns (response: Response, calls: seq<Call>)
    modifies req
    ensures key == "" ==> response == HttpError("", StatusBadRequest) && calls == [] && (req != null ==> unchanged(req))
    ensures key != "" && (req == null || old(req.body.failure).Some? || receivedAt.Err?) ==>
              response == HttpError("", StatusBadRequest) && calls == []
    ensures key != "" && req != null && old(req.body.failure).None? && receivedAt.Ok? ==>
              && |calls| == 1 && calls[0].PushCall? && calls[0].queueName == key
              && |calls[0].webRequests| == 1
              && calls[0].webRequests[0].body == old(req.body.content)
              && calls[0].webRequests[0].host == old(req.host)
              && calls[0].webRequests[0].receivedAt == Some(receivedAt.value)
              && calls[0].webRequests[0].header.Made?
              && ListsHeaderMap(calls[0].webRequests[0].header.items, old(req.header))
              && response == (if pushError.Some? then HttpError("failed adding to queue", StatusInternalServerError)
                              else Response(StatusOK, Text("")))
  {
    if key == "" {
      return HttpError("", StatusBadRequest), [];
    }
    var webRequest, err := NewWebRequestFromHttpRequest(req, receivedAt);
    if err.Some? {
      return HttpError("", StatusBadRequest), [];
    }
    calls := [PushCall(key, [webRequest.value])];
    if pushError.Some? {
      response := HttpError("failed adding to queue", StatusInternalServerError);
    } else {
      response := Response(StatusOK, Text(""));
    }
  }

  /** peekHandler as written: an empty key is a bad request; otherwise the
      queue is peeked with count 0 (its default), a Peek error is an
      internal error, and only a nil result gives 204 No Content. Any other
      result, an empty one included, is encoded as JSON (an encoder error
      is an internal error). */
  function PeekHandlerAsWritten(key: string, reply: (GoSlice<WebRequest>, Option<Error>), encodeError: Option<Error>)
    : (r: (Response, seq<Call>))
    ensures key == "" ==> r == (HttpError("", StatusBadRequest), [])
    ensures key != "" ==> r.1 == [PeekCall(key, 0)]
    ensures key != "" && reply.1.Some? ==> r.0 == HttpError("failed querying queue", StatusInternalServerError)
    ensures r.0.status == StatusNoContent <==> key != "" && reply.1.None? && reply.0.Nil?
    ensures key != "" && reply.1.None? && reply.0.Made? && encodeError.None? ==>
              r.0 == Response(StatusOK, JsonArray(reply.0.items))
    ensures key != "" && reply.1.None? && reply.0.Made? && encodeError.Some? ==>
              r.0 == HttpError("failed encoding json", StatusInternalServerError)
  {
    if key == "" then (HttpError("", StatusBadRequest), [])
    else
      var calls := [PeekCall(key, 0)];
      if reply.1.Some? then (HttpError("failed querying queue", StatusInternalServerError), calls)
      else if reply.0.Nil? then (Response(StatusNoContent, Text("")), calls)
      else if encodeError.Some? then (HttpError("failed encoding json", StatusInternalServerError), calls)
      else (Response(StatusOK, JsonArray(reply.0.items)), calls)
  }

  /** Against a queue whose Peek always returns a made slice, as the Redis
      queue's does, the handler as written never answers 204: an empty
      queue is answered 200 with an empty JSON array. */
  lemma AsWrittenNeverNoContentForMadeSlices(key: string, items: seq<WebRequest>, encodeError: Option<Error>)
    requires key != ""
    ensures PeekHandlerAsWritten(key, (Made(items), None), encodeError).0.status != StatusNoContent
    ensures encodeError.None? ==>
              PeekHandlerAsWritten(key, (Made([]), None), encodeError).0 == Response(StatusOK, JsonArray([]))
  {
  }

  /** peekHandler as the service intends it: an empty queue, whether the
      queue reports it as a nil or an empty slice, is 204 No Content. */
  function PeekHandler(key: string, reply: (GoSlice<WebRequest>, Option<Error>), encodeError: Option<Error>)
    : (r: (Response, seq<Call>))
    ensures key == "" ==> r == (HttpError("", StatusBadRequest), [])
    ensures key != "" ==> r.1 == [PeekCall(key, 0)]
    ensures key != "" && reply.1.Some? ==> r.0 == HttpError("failed querying queue", StatusInternalServerError)
    ensures r.0.status == StatusNoContent <==> key != "" && reply.1.None? && reply.0.Contents() == []
    ensures r.0.status == StatusNoContent ==> r.0.payload == Text("")
    ensures key != "" && reply.1.None? && reply.0.Contents() != [] && encodeError.None? ==>
              r.0 == Response(StatusOK, JsonArray(reply.0.Contents()))
    ensures key != "" && reply.1.None? && reply.0.Contents() != [] && encodeError.Some? ==>
              r.0 == HttpError("failed encoding json", StatusInternalServerError)
  {
    if key == "" then (HttpError("", StatusBadRequest), [])
    else
      var calls := [PeekCall(key, 0)];
      if reply.1.Some? then (HttpError("failed querying queue", StatusInternalServerError), calls)
      else if reply.0.Contents() == [] then (Response(StatusNoContent, Text("")), calls)
      else if encodeError.Some? then (HttpError("failed encoding json", StatusInternalServerError), calls)
      else (Response(StatusOK, JsonArray(reply.0.Contents())), calls)
  }

  /** The intended handler differs from the one as written exactly on an
      empty, non-nil result, and agrees everywhere else. */
  lemma PeekHandlerDiffersOnlyOnEmptySlice(key: string, reply: (GoSlice<WebRequest>, Option<Error>), encodeError: Option<Error>)
    ensures PeekHandler(key, reply, encodeError) != PeekHandlerAsWritten(key, reply, encodeError)
            <==> key != "" && reply.1.None? && reply.0 == Made([])
  {
  }
}
