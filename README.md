# xqsmee: a verified model of the queue core

xqsmee ("excuse me") accepts web hooks over HTTP and puts each incoming
request on a named queue. Clients take requests off the queue over gRPC.
Each request is delivered to at most one client, in arrival order. This
project models the program's core in Dafny and proves properties of it:

| file | module | what it models |
|---|---|---|
| common.dfy | `Common` | `Option`, `Result`, the program's error values, int64 wrap-around, Go slices that may be nil |
| messages.dfy | `Messages` | the protobuf message types of queue/queue.pb.go, their nil-safe getters and `Reset` |
| redisqueue.dfy | `RedisQueue` | the Redis queue engine of queue/redisqueue/redisqueue.go, over an in-memory store: `key`, `validate`, `Push`, `lpop`, `Peek`, `blpop` |
| popsession.dfy | `PopSession` | the blocking `Pop` with its `doPop` closure and the event handling of `listenPubSubChannel` |
| idcheck.dfy | `IdCheck` | the ID checksum of the vendored idcheck package: table construction, hash, `setHash`, `ValidID`, `NewID`, the length check of `FromBase64` |
| adapter.dfy | `Adapter` | queue/queue.go: the gRPC handler's `Pop` and `Peek`, and the conversion of an `*http.Request` into a `WebRequest` |
| hooks.dfy | `Hooks` | the HTTP handlers of services/hooks/hooks.go |
| docgen.dfy | `DocGen` | `indent` of script/docgen/docgen.go |

**The store.** Redis is replaced by the class `RedisQueue.Store`. It holds
one list of entries per key, plus a count of PUBLISH notifications per key.
An `Entry` stands for the protobuf bytes of one record:

- `Encoded(r)` decodes back to `r`.
- `Malformed(partial, failure)` makes `proto.Unmarshal` fail after it has
  filled in `partial`.

The failure of every Redis command, of `proto.Marshal` and of every other
collaborator is an input of the operation that calls it.

**Pop.** Pop's goroutines become a trace of events, each of which is
delivered to the call in turn:

- the subscription was confirmed, with its count;
- a wake message arrived;
- the receive failed;
- the health ticker fired;
- the deadline passed;
- the caller cancelled.

The trace may also contain pushes by other clients. `doPop` runs under a
mutex and LPOP is atomic, so each `doPop` is one atomic step on the store.

The call's shared variables are modelled twice:

- as the value `Session`, whose step function `Next` and trace runner
  `RunTrace` carry the proofs;
- as the class `PendingPop`, whose `Handle` method is proved to do what
  `Next` says.

The `Pop` method drives a `PendingPop` over a trace against the real store.
Its result is proved to be the one `RunTrace` predicts. `RunShared`
interleaves several calls on one key with pushes.

## Model

| member | source | states |
|---|---|---|
| Common.Wrap64 | queue/queue.go:42 | the result is the unique int64 congruent to the argument modulo 2^64, and in-range values are unchanged |
| Messages.GetName | queue/queue.pb.go:50-55 | nil gives the empty name of the zero Header, otherwise the stored name |
| Messages.GetValue | queue/queue.pb.go:57-62 | nil gives the nil value list, otherwise the stored list |
| Messages.GetReceivedAt | queue/queue.pb.go:76-81 | nil gives no timestamp, otherwise the stored one |
| Messages.GetHeader | queue/queue.pb.go:83-88 | nil gives a nil header list, otherwise the stored list |
| Messages.GetHost | queue/queue.pb.go:90-95 | nil gives "", otherwise the stored host |
| Messages.GetBody | queue/queue.pb.go:97-102 | nil gives "", otherwise the stored body |
| Messages.GetPopQueueName | queue/queue.pb.go:114-119 | nil gives "", otherwise the stored queue name |
| Messages.GetTimeout | queue/queue.pb.go:121-126 | nil gives no timeout, otherwise the stored one |
| Messages.GetPopped | queue/queue.pb.go:137-142 | nil gives no record, otherwise the stored record |
| Messages.GetPeekQueueName | queue/queue.pb.go:154-159 | nil gives "", otherwise the stored queue name |
| Messages.GetCount | queue/queue.pb.go:161-166 | nil gives 0, otherwise the stored count |
| Messages.GetPeeked | queue/queue.pb.go:177-182 | nil gives a nil list, otherwise the stored list |
| Messages.HeaderCell.Reset | queue/queue.pb.go:45 | the message becomes the zero Header, and every getter then answers as on nil |
| Messages.WebRequestCell.Reset | queue/queue.pb.go:71 | the message becomes the zero WebRequest, and every getter then answers as on nil |
| Messages.PopRequestCell.Reset | queue/queue.pb.go:109 | the message becomes the zero PopRequest, and every getter then answers as on nil |
| Messages.PopResponseCell.Reset | queue/queue.pb.go:132 | the message becomes the zero PopResponse, and its getter then answers as on nil |
| Messages.PeekRequestCell.Reset | queue/queue.pb.go:149 | the message becomes the zero PeekRequest, and every getter then answers as on nil |
| Messages.PeekResponseCell.Reset | queue/queue.pb.go:172 | the message becomes the zero PeekResponse, and its getter then answers as on nil |
| RedisQueue.EncodeAll | queue/redisqueue/redisqueue.go:31 | marshalling a batch gives one decodable entry per record, in order |
| RedisQueue.Store.RPush | queue/redisqueue/redisqueue.go:35 | RPUSH appends one entry at the tail of one key and changes no other list and no notification count |
| RedisQueue.Store.Publish | queue/redisqueue/redisqueue.go:39 | PUBLISH adds one notification to one key and changes no list |
| RedisQueue.Store.LPop | queue/redisqueue/redisqueue.go:178 | LPOP on an empty list gives nothing and changes nothing; otherwise it gives the head and leaves exactly the tail, and no other key changes |
| RedisQueue.Key | queue/redisqueue/redisqueue.go:256-258 | the key is the prefix, then ':', then the queue name |
| RedisQueue.KeyInjective | queue/redisqueue/redisqueue.go:256-258 | under one prefix, different queue names give different keys |
| RedisQueue.Validate | queue/redisqueue/redisqueue.go:260-268 | no error if and only if the prefix is non-empty and the pool is present; an empty prefix is reported before a missing pool |
| RedisQueue.PushAccounting | queue/redisqueue/redisqueue.go:30-43 | a Push without error appends and announces every record; a failed Push appends a strict prefix, unless PUBLISH failed; one notification is published per appended record, except that a failed PUBLISH leaves its record unannounced |
| RedisQueue.Push | queue/redisqueue/redisqueue.go:23-45 | a validation error is returned and the store is untouched; otherwise the key's list gains the appended prefix of the records, in order, at its tail, with nothing rolled back; the notification count grows by one per announced record; every other key is unchanged |
| RedisQueue.LPopRecord | queue/redisqueue/redisqueue.go:177-189 | a failing LPOP gives its error and changes nothing; an empty list gives no record and no error; otherwise the head is removed and decoded, a malformed head gives the partial record and the unmarshal error, and exactly the tail is left |
| RedisQueue.PeekWindowIsPrefix | queue/redisqueue/redisqueue.go:226-230 | a positive count reads the first min(count, len) entries, and a count of 0 the first min(10, len). A negative count above the int64 minimum drops the last -count entries. At the int64 minimum, count-1 wraps to the maximum, so the whole list is read |
| RedisQueue.FirstMalformed | queue/redisqueue/redisqueue.go:238-245 | the decode loop stops at the first malformed entry, or at the end when every entry decodes |
| RedisQueue.DecodeEncodeAll | queue/redisqueue/redisqueue.go:238-245 | the entries Push stores decode back to the same records, with no error |
| RedisQueue.PushedRecordsPeekBack | queue/redisqueue/redisqueue.go:219-247 | on a list filled by Push, Peek with a positive count returns the first count records in push order |
| RedisQueue.Peek | queue/redisqueue/redisqueue.go:219-247 | the result is never nil; a validation or LRANGE error gives an empty result and that error; a nil reply gives an empty result and no error; otherwise the result is the decoded window up to the first entry that fails to unmarshal, with that entry's error; the store is not modified |
| RedisQueue.BLPop | queue/redisqueue/redisqueue.go:191-217 | validation and connection errors are returned and nothing changes; a negative timeout is refused; an empty list gives no record after a positive timeout and blocks with timeout 0; otherwise the head is removed and decoded, exactly the tail is left, and no other key changes |
| PopSession.Start | queue/redisqueue/redisqueue.go:129-132 | a new call holds no record, has not finished, and sets a deadline if and only if the timeout is positive |
| PopSession.DoPop | queue/redisqueue/redisqueue.go:153-171 | doPop removes at most the head, and the removed entries followed by the new list give the old list. Once a record is held it removes and changes nothing. Otherwise: a failing LPOP removes nothing and ends the call with that error; an empty list changes nothing; a decodable head is removed and held, cancelChan is closed and the select loop ends; a malformed head is removed, its partial record is held and the call ends with the unmarshalling error |
| PopSession.DoPopAsWritten | queue/redisqueue/redisqueue.go:153-171 | like DoPop while no record is held; once a record is held it removes nothing, leaves the list alone and closes cancelChan again, and it panics (None) exactly when cancelChan is already closed |
| PopSession.StopLoop | queue/redisqueue/redisqueue.go:101-120 | the select loop is left, Unsubscribe is sent if the loop was still running, and nothing else changes |
| PopSession.Next | queue/redisqueue/redisqueue.go:72-123 | one event removes at most the head of the list, and only while no record is held. A finished call ignores every event, and a call that removes nothing keeps its record. A subscription count of 1 and a wake message run doPop (with DoPop's outcomes); every other event changes only the session, as Quiet says. The deadline flag never changes |
| PopSession.RunIsFifo | queue/redisqueue/redisqueue.go:153-171 | over a whole call, the removed entries followed by what is left equal the original list followed by everything pushed meanwhile |
| PopSession.RunRemovesAtMostOne | queue/redisqueue/redisqueue.go:156-159 | a call removes at most one entry, none once it holds a record, and the record it returns is the one it removed |
| PopSession.CleanRunHasNoError | queue/redisqueue/redisqueue.go:111-123 | with no receive error, no failing LPOP and only decodable entries, a call never ends with an error, whether it ends on a record, a timeout, a cancellation or a failed ping |
| PopSession.NoDeadlineWithoutTimeout | queue/redisqueue/redisqueue.go:129-132 | with a timeout of 0 or less, a deadline event changes nothing, so the call keeps waiting |
| PopSession.FirstAttemptTakesPresentItem | queue/redisqueue/redisqueue.go:83-89 | an entry already present when the subscription is confirmed is taken by the first attempt, and the select loop then unsubscribes |
| PopSession.StoppedCallReturnsAbsent | queue/redisqueue/redisqueue.go:90-123 | while no record is held, a deadline that was set, a cancellation or a failed ping, followed by the confirmation of the Unsubscribe, ends the call with no record and no error, whatever follows; nothing is removed |
| PopSession.LPopFailureIsReturned | queue/redisqueue/redisqueue.go:160-185 | a failing LPOP while no record is held ends the call with that error, with no record and the list unchanged, whatever follows |
| PopSession.MalformedHeadIsReturned | queue/redisqueue/redisqueue.go:163-188 | a head that fails to unmarshal is removed and ends the call with its partial record and the unmarshalling error, whatever follows |
| PopSession.ReceiveErrorIsReturned | queue/redisqueue/redisqueue.go:74-77 | an error from receiving on the subscription ends the call with that error, whatever follows |
| PopSession.CancelledPopReturnsAbsent | queue/redisqueue/redisqueue.go:111-123 | on an empty key, a call the caller cancels returns no record and no error, whatever its timeout |
| PopSession.TimeoutReturnsAbsent | queue/redisqueue/redisqueue_test.go:137-142 | on an empty key with a positive timeout, the call returns no record and no error after the deadline |
| PopSession.BlockedPopReceivesPush | queue/redisqueue/redisqueue_test.go:119-135 | a call started on an empty key with timeout 0 returns the record that is pushed while it waits, and the list ends empty |
| PopSession.AsWrittenDoPopPanicsAfterSuccess | queue/redisqueue/redisqueue.go:156-159 | doPop as written agrees with the corrected doPop while no record is held; after a successful removal, a further wake message makes it close cancelChan a second time |
| PopSession.SharedIsFifo | queue/redisqueue/redisqueue.go:153-171 | however several calls on one key interleave with pushes, removal is FIFO across all of them |
| PopSession.SharedKeepsServed | queue/redisqueue/redisqueue.go:156-159 | a caller that holds a record keeps it, whatever the others do |
| PopSession.SharedDeliveryIsExclusive | queue/redisqueue/redisqueue.go:153-171 | however the calls interleave, no caller removes twice, so no entry goes to two callers; only callers without a record remove; each taker ends holding the record of the entry it removed |
| PopSession.PendingPop.constructor | queue/redisqueue/redisqueue.go:126-151 | a new call's shared variables are the start state for its timeout |
| PopSession.PendingPop.EndLoop | queue/redisqueue/redisqueue.go:119-120 | leaving the select loop sends Unsubscribe once |
| PopSession.PendingPop.Attempt | queue/redisqueue/redisqueue.go:153-171 | the closure's variables and the key's list change exactly as DoPop says; no other key and no notification count changes |
| PopSession.PendingPop.Handle | queue/redisqueue/redisqueue.go:72-123 | handling one event changes the variables and the key's list exactly as Next says, and nothing else in the store |
| PopSession.Quiet | queue/redisqueue/redisqueue.go:72-117 | an event that does not call doPop leaves the held record and the deadline flag alone. A subscription count of 0 ends the call with no error, and other counts change nothing. A receive error ends the call with that error. A deadline that was set, a cancellation or a failed ping ends the select loop and sends Unsubscribe. A successful ping, or a deadline when none was set, changes nothing |
| PopSession.Apply | queue/redisqueue/redisqueue.go:153-171 | one step, an event or another client's push, is FIFO: what it removed followed by the new list is the old list followed by what it pushed |
| PopSession.Perform | queue/redisqueue/redisqueue.go:72-123 | one step changes the call's variables, the key's list and the key's notification count exactly as Apply says, and no other key |
| PopSession.Follow | queue/redisqueue/redisqueue.go:101-123 | following a trace changes the call's variables, the key's list and its notification count as RunTrace predicts, and no other key |
| PopSession.Pop | queue/redisqueue/redisqueue.go:126-175 | a validation or subscribe error is returned and nothing changes; otherwise the outcome, the key's list and the notification count are those RunTrace predicts for the trace, and every other key is unchanged |
| IdCheck.XorInjective | vendor/github.com/WillAbides/idcheck/idcheck.go:136 | exclusive or with a fixed byte is injective, on either side |
| IdCheck.XorSamples | vendor/github.com/WillAbides/idcheck/idcheck.go:136 | 0x0f ^ 0xff is 0xf0, a ^ a is 0, and a ^ 0 is a |
| IdCheck.SwapKeepsPermutation | vendor/github.com/WillAbides/idcheck/idcheck.go:23 | swapping two entries keeps the multiset of values and keeps them distinct |
| IdCheck.Swap | vendor/github.com/WillAbides/idcheck/idcheck.go:23 | exactly the two entries are exchanged, and the table stays a permutation |
| IdCheck.BuildHashTable | vendor/github.com/WillAbides/idcheck/idcheck.go:17-27 | the table has 256 entries and is a permutation of 0..255 |
| IdCheck.PermutationCoversEveryByte | vendor/github.com/WillAbides/idcheck/idcheck.go:17-27 | every byte value occurs in the table |
| IdCheck.FoldAppend | vendor/github.com/WillAbides/idcheck/idcheck.go:135-136 | the hash over the salt followed by the ID bytes is the hash over the ID bytes, started from the hash of the salt |
| IdCheck.FoldInjective | vendor/github.com/WillAbides/idcheck/idcheck.go:134-139 | with a permutation table, different starting values hash to different results over the same bytes |
| IdCheck.OneByteChangesFold | vendor/github.com/WillAbides/idcheck/idcheck.go:134-139 | changing any one hashed byte changes the hash |
| IdCheck.SingleByteChangeIsDetected | vendor/github.com/WillAbides/idcheck/idcheck.go:134-139 | a valid ID with any one of bytes 0..14 changed is no longer valid |
| IdCheck.ChecksumByteChangeIsDetected | vendor/github.com/WillAbides/idcheck/idcheck.go:107-109 | a valid ID with its checksum byte changed is no longer valid |
| IdCheck.Filled | vendor/github.com/WillAbides/idcheck/idcheck.go:93-94 | the 16-byte buffer holds the bytes read, then zeros |
| IdCheck.IdChecker.constructor | vendor/github.com/WillAbides/idcheck/idcheck.go:69-88 | a new checker holds the given salt, and its table is a permutation |
| IdCheck.IdChecker.SetSalt | vendor/github.com/WillAbides/idcheck/idcheck.go:51-53 | the salt is replaced |
| IdCheck.IdChecker.CalculateHash | vendor/github.com/WillAbides/idcheck/idcheck.go:134-139 | the hash is the fold from 0 over the salt and then bytes 0..14; byte 15 is not read |
| IdCheck.IdChecker.SetHash | vendor/github.com/WillAbides/idcheck/idcheck.go:130-132 | bytes 0..14 are unchanged, byte 15 becomes the checksum, and the ID is then valid |
| IdCheck.IdChecker.ValidID | vendor/github.com/WillAbides/idcheck/idcheck.go:107-109 | true if and only if byte 15 equals the checksum of the salt and bytes 0..14 |
| IdCheck.IdChecker.NewID | vendor/github.com/WillAbides/idcheck/idcheck.go:92-103 | a read error gives no ID and that error; otherwise a fresh 16-byte ID whose bytes 0..14 are the first 15 bytes of the buffer, and which is valid |
| IdCheck.FromDecoded | vendor/github.com/WillAbides/idcheck/idcheck.go:117-128 | an ID results if and only if decoding succeeded and gave 16 bytes, and it then holds exactly those bytes; a decode error is passed on; any other length is rejected |
| Adapter.TimeoutNanos | queue/queue.go:39-43 | no timeout gives 0; otherwise the result is congruent modulo 2^64 to seconds·10⁹ + nanos, and equal to it when no int64 overflow occurs |
| Adapter.GrpcPop | queue/queue.go:38-46 | the queue is asked for the request's queue name and converted timeout, and its record and error come back unchanged |
| Adapter.GrpcPeek | queue/queue.go:48-51 | the queue name and count go to the queue unchanged, and its slice and error come back unchanged |
| Adapter.GrpcPopTwelveSeconds | queue/queue_test.go:42-51 | a request for "asdf" with 12 s asks the queue for exactly 12·10⁹ ns and returns its record |
| Adapter.NegativeTimeoutPassesThrough | queue/queue.go:42 | a negative timeout whose exact nanoseconds are within the int64 range passes through exactly, so it stays negative. This holds even when only the sum, and not the product seconds · 10⁹, is in range |
| Adapter.NegativeTimeoutSamples | queue/queue.go:42 | -1 s gives -10⁹ ns, and -5 ns gives -5 |
| Adapter.NegativeHugeTimeoutWraps | queue/queue.go:42 | a whole-second timeout (nanos 0) whose nanoseconds are below the int64 minimum by at most 2^64 comes out exactly 2^64 larger. It is positive if and only if the exact value is above -2^64 ns |
| Adapter.NegativeHugeTimeoutSample | queue/queue.go:42 | -10¹⁰ s, that is -10¹⁹ ns, wraps to +8 446 744 073 709 551 616 ns |
| Adapter.HugeTimeoutWraps | queue/queue.go:42 | a whole-second timeout (nanos 0) whose nanoseconds exceed the int64 maximum by at most 2^64 comes out exactly 2^64 smaller. It is negative if and only if the exact value is below 2^64 ns |
| Adapter.HugeTimeoutSamples | queue/queue.go:42 | 9.3·10⁹ s wraps to a negative duration, and 18 446 744 074 s to +290 448 384 ns |
| Adapter.HeaderListRoundTrip | queue/queue.go:53-61 | the header list describes exactly the original header map |
| Adapter.GetHeaders | queue/queue.go:53-61 | the result is a non-nil slice; a nil request gives no headers; otherwise one header per map entry, each with its value list unchanged |
| Adapter.ReadBody | queue/queue.go:63-74 | a nil request gives ErrNilReq; a read failure gives the wrapped error and leaves the body closed; otherwise the whole body is returned and replaced by a fresh reader over the same bytes; header and host are unchanged |
| Adapter.ReadBodyTwice | queue/queue.go:72 | reading the body twice gives the same bytes both times |
| Adapter.NewWebRequestFromHttpRequest | queue/queue.go:76-94 | a nil request gives ErrNilReq; a body read failure gives the doubly wrapped error; a timestamp conversion error is passed on; otherwise the record holds the timestamp, every header, the full body and the host. The request's header and host are unchanged. After a read failure its body is the old one, closed; otherwise a fresh reader over the same bytes |
| Hooks.HttpError | services/hooks/hooks.go:49 | the response has the given status and the message followed by a newline |
| Hooks.ReceivedAt | services/hooks/hooks.go:23-28 | the override when it is set, the current time otherwise |
| Hooks.PingHandler | services/hooks/hooks.go:39-44 | a successful write answers 200 "pong"; a failed one is answered through http.Error: 500 with an empty message and its newline |
| Hooks.PostHandler | services/hooks/hooks.go:46-64 | an empty key gives 400 with no queue call; a failed conversion gives 400 with no queue call; otherwise exactly one record is pushed to the key, holding the request's body, host and headers, and the answer is 500 on a push error and 200 otherwise |
| Hooks.PeekHandlerAsWritten | services/hooks/hooks.go:66-89 | an empty key gives 400 with no call; otherwise one Peek with count 0; a Peek error gives 500; 204 if and only if the key is non-empty, Peek succeeded and returned nil; a non-nil slice is encoded, and an encoding failure gives 500 "failed encoding json" |
| Hooks.AsWrittenNeverNoContentForMadeSlices | services/hooks/hooks.go:79-81 | with a queue that returns non-nil slices, the handler as written never answers 204, and an empty queue gives 200 with an empty array |
| Hooks.PeekHandler | services/hooks/hooks.go:66-89 | as above, except that 204, with no body, is answered if and only if the queue is empty, whether it returned nil or an empty slice; an encoding failure on a non-empty result gives 500 "failed encoding json" |
| Hooks.PeekHandlerDiffersOnlyOnEmptySlice | services/hooks/hooks.go:79-81 | the corrected handler differs from the one as written exactly when Peek succeeds with an empty, non-nil slice |
| DocGen.Indent | script/docgen/docgen.go:49-52 | the prefix, then the input, with every newline replaced by a newline and the prefix (for a prefix without newlines) |
| DocGen.IndentStartsWithPrefix | script/docgen/docgen.go:50 | the output starts with the prefix |
| DocGen.IndentLines | script/docgen/docgen.go:49-52 | splitting the output on newlines gives the prefix followed by each line of the input, in order |
| DocGen.IndentIsPrefixedLines | script/docgen/docgen.go:50-51 | the output is the input's lines, each prefixed, joined by newlines, and nothing else changes |
| DocGen.IndentLength | script/docgen/docgen.go:49-52 | the output is longer than the input by one prefix per line |
| DocGen.IndentEmptyPrefix | script/docgen/docgen.go:49-52 | with an empty prefix the output is the input |
| DocGen.IndentSingleLine | script/docgen/docgen.go:49-52 | an input without a newline is just prefixed, and stays a single line |
| DocGen.IndentUsageSample | script/docgen/docgen.go:59 | the two-space indentation of a two-line usage text |
| DocGen.JoinLines | script/docgen/docgen.go:49-52 | joining the lines of a text by newlines gives the text back |
| DocGen.ReplaceNewlinesLength | script/docgen/docgen.go:51 | each newline replaced by r adds |r| - 1 to the length |

## Left out

- Concurrency in Pop. The goroutines, channels, mutex, health ticker and context of `listenPubSubChannel` and `Pop` become a sequential trace of events. Scheduling and timing are not modelled; only the order of events is.
- Redis. The connection pool, `conn.Do`, the pub/sub protocol and the server's blocking are replaced by the in-memory `Store`. Command failures are inputs.
- Protobuf encoding. `proto.Marshal` and `proto.Unmarshal` are abstracted as `Entry`. Marshalling a record never fails unless a `PushFault` says so.
- `RedisQueue.DecodeEncodeAll`: `Encoded(r)` decodes back to exactly `r`, including the nil-or-empty distinction of its header list and value lists. Protobuf gives an empty repeated field back as nil, so that distinction does not survive a real round trip.
- Go's `[]*Header` and `[]*WebRequest` may hold nil elements. The model's sequences hold values only, so it does not represent such slices.
- `PopSession.Pop`: the wake messages are events of the trace. They are not derived from the PUBLISH notifications that `Push` counts.
- `PopSession.DoPop`: the model uses the corrected doPop. The one as written is `DoPopAsWritten` (see Findings).
- A timeout of 0 or less sets no deadline (queue/redisqueue/redisqueue.go:129-132). Pop then waits until a record arrives, the caller cancels or the connection fails.
- A failed health ping ends the select loop and sends Unsubscribe. The call then returns what the receive goroutine reports, so the ping error itself is never returned. The code is followed here.
- `RedisQueue.BLPop`: the in-memory store cannot block. An empty list with timeout 0 is reported as `Waiting`. The `len(values) < 2` check of a malformed reply is not modelled.
- `RedisQueue.Peek`: negative counts are modelled with Redis's negative-index rule for LRANGE. The count-1 computation wraps in int64, so no precondition on the count is needed.
- `New` of queue/redisqueue/redisqueue.go and of services/hooks/hooks.go only build a struct. They are the datatype constructors `Queue(prefix, pool)` and the handlers' parameters.
- Pop2 only calls blpop, so it is `BLPop`.
- Message types follow queue/queue.go and queue/queue_test.go. `ReceivedAt` is a timestamp and `Timeout` is a (seconds, nanos) duration. queue/queue.pb.go declares both as int64, but that file is older than queue/queue.go.
- The generated gRPC glue of queue/queue.pb.go is not modelled: registration, client stubs and the file descriptor. Neither are `String`, `ProtoMessage` and `Descriptor`.
- The JSON marshalling of records (`MarshalJSON`, `UnmarshalJSON`, `json.Encoder`) is the `JsonArray` payload. Its encoding error is an input.
- `ptypes.TimestampProto`, `time.Now` and `ioutil.ReadAll` are inputs: the conversion result, the current time and the body's content and failure.
- Routing with gorilla mux (`Router`) is out of scope. The route key is a parameter of each handler.
- The `http.ResponseWriter` is reduced to the status and payload a handler writes. The 500 after a failed write (in `pingHandler`, and after a failed JSON write in `peekHandler`) is the status the handler asks for. In net/http a status cannot be changed once the body has started, so a client may still see the 200 that was already sent.
- Go's iteration order over the header map is unspecified. `GetHeaders` picks any order, and its contract holds for every order.
- `IdCheck.IdChecker.constructor`: the table is built per checker. The global `hashTable` is built once, by the same code, so each checker holds a copy of that table.
- The package-level `global` checker and its wrappers (`SetSalt`, `NewID`, `ValidID` at package level) are left out. So are `SetIDReader`, the `Reader` option, and `NewIDChecker`, which only converts to the interface.
- `IdCheck.IdChecker.ValidID`, `IdCheck.IdChecker.SetHash` and `IdCheck.IdChecker.CalculateHash`: their `*ID` argument may be nil in Go, and idcheck.go dereferences it without a check, so a nil ID panics. The model's IDs are non-null arrays, so this panic is not represented.
- The salt is a string in Go and is converted with `[]byte(salt)`. Here the salt is its byte sequence.
- `IdCheck.IdChecker.NewID`: the reader is its input bytes, at most 16, plus an optional error. `crypto/rand` itself is out of scope.
- `Base64` and the decoding step of `FromBase64` (base64url without padding, RFC 4648 section 5) are `encoding/base64`'s. `FromDecoded` models what follows the decoding.
- `DocGen.Indent`: the replacement string is taken literally. Go's `ReplaceAllString` would expand `$` in the prefix; the prefix used is two spaces.
- The properties of `indent` need a prefix without newlines, since newlines inside the prefix would themselves be replaced.
- The rest of script/docgen/docgen.go is left out. `whiteLineRe` depends on regular-expression semantics, and `main`, `cmdUsage` and `ioutil.WriteFile` are I/O.
- server/server.go, client/client.go and the commands under cmd/ only start servers, parse flags and run a network client.

## Findings

| source | as written | input that shows it | evidently intended | confidence | as-written member | corrected member |
|---|---|---|---|---|---|---|
| queue/redisqueue/redisqueue.go:156-159 | when doPop runs again after it has already set webRequest, it closes cancelChan a second time, and closing a closed channel panics | a Pop whose first attempt removes a record, and a wake message, from a push by another client, that arrives before the unsubscription is confirmed | a later doPop does nothing once a record is held | not executed | PopSession.AsWrittenDoPopPanicsAfterSuccess | PopSession.RunRemovesAtMostOne |
| services/hooks/hooks.go:79-81 | 204 No Content is answered only when Peek returns a nil slice, but the Redis queue's Peek always returns a non-nil slice (queue/redisqueue/redisqueue.go:220) | GET /{key} on an empty queue: Peek returns an empty, non-nil slice and the handler answers 200 with `[]` | an empty queue is answered 204 No Content | not executed | Hooks.AsWrittenNeverNoContentForMadeSlices | Hooks.PeekHandler |
