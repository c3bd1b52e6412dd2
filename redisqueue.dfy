/** The Redis-backed queue engine of queue/redisqueue/redisqueue.go, with
    Redis replaced by an in-memory store: one list of entries per key and a
    count of PUBLISH notifications per key (the wake channel has the same
    name as the list).

    A stored entry stands for the protobuf bytes of one record: `Encoded`
    bytes decode back to the record; `Malformed` bytes (written by someone
    other than Push) make proto.Unmarshal fail after it has filled in
    `partial`. Failures of Redis commands are inputs of each operation. */
module RedisQueue {
  import opened Common
  import opened Messages

  datatype Entry = Encoded(record: WebRequest) | Malformed(partial: WebRequest, failure: Error)

  /** The message proto.Unmarshal leaves behind, and its error. */
  function Decoded(e: Entry): WebRequest {
    if e.Encoded? then e.record else e.partial
  }

  function DecodeError(e: Entry): Option<Error> {
    if e.Encoded? then None else Some(e.failure)
  }

  function EncodeAll(rs: seq<WebRequest>): (es: seq<Entry>)
    ensures |es| == |rs|
    ensures forall i :: 0 <= i < |rs| ==> es[i] == Encoded(rs[i])
  {
    if rs == [] then [] else [Encoded(rs[0])] + EncodeAll(rs[1..])
  }

  /** Encoding commutes with taking a prefix. */
  lemma EncodeAllTake(rs: seq<WebRequest>, m: nat)
    requires m <= |rs|
    ensures EncodeAll(rs)[..m] == EncodeAll(rs[..m])
  {
    var es := EncodeAll(rs);
    var a, b := es[..m], EncodeAll(rs[..m]);
    forall i | 0 <= i < m ensures a[i] == b[i] {
      assert a[i] == es[i] == Encoded(rs[i]);
      assert b[i] == Encoded(rs[..m][i]);
    }
  }

  /** Encoding one more record appends its entry. */
  lemma EncodeAllSnoc(rs: seq<WebRequest>, m: nat)
    requires m < |rs|
    ensures EncodeAll(rs[..m + 1]) == EncodeAll(rs[..m]) + [Encoded(rs[m])]
  {
    var a, b := EncodeAll(rs[..m + 1]), EncodeAll(rs[..m]) + [Encoded(rs[m])];
    forall i | 0 <= i < m + 1 ensures a[i] == b[i] {
      assert a[i] == Encoded(rs[..m + 1][i]);
      if i < m {
        assert b[i] == EncodeAll(rs[..m])[i] == Encoded(rs[..m][i]);
      }
    }
  }

  /** The in-memory stand-in for the Redis server. A key that was never
      written holds the empty list. */
  class Store {
    var lists: map<string, seq<Entry>>
    var published: map<string, nat>

    constructor ()
      ensures lists == map[] && published == map[]
    {
      lists, published := map[], map[];
    }

    function List(key: string): seq<Entry>
      reads this
    {
      if key in lists then lists[key] else []
    }

    function Published(key: string): nat
      reads this
    {
      if key in published then published[key] else 0
    }

    /** RPUSH key e */
    method RPush(key: string, e: Entry)
      modifies this
      ensures List(key) == old(List(key)) + [e]
      ensures forall k :: k != key ==> List(k) == old(List(k))
      ensures published == old(published)
    {
      lists := lists[key := List(key) + [e]];
    }

    /** PUBLISH key "new" */
    method Publish(key: string)
      modifies this
      ensures Published(key) == old(Published(key)) + 1
      ensures forall k :: k != key ==> Published(k) == old(Published(k))
      ensures lists == old(lists)
    {
      published := published[key := Published(key) + 1];
    }

    /** LPOP key: atomically removes and returns the head, or nothing. */
    method LPop(key: string) returns (e: Option<Entry>)
      modifies this
      ensures old(List(key)) == [] ==> e == None && unchanged(this)
      ensures old(List(key)) != [] ==> e == Some(old(List(key))[0]) && List(key) == old(List(key))[1..]
      ensures forall k :: k != key ==> List(k) == old(List(k))
      ensures published == old(published)
    {
      var l := List(key);
      if l == [] {
        e := None;
      } else {
        e := Some(l[0]);
        lists := lists[key := l[1..]];
      }
    }
  }

  /** The engine's configuration: a key prefix and a connection pool, which
      here is the store itself (nil when absent). */
  datatype Queue = Queue(prefix: string, pool: Store?)

  /** q.key(queueName) */
  function Key(prefix: string, queueName: string): (k: string)
    ensures |k| == |prefix| + 1 + |queueName|
    ensures k[..|prefix|] == prefix && k[|prefix|] == ':' && k[|prefix| + 1..] == queueName
  {
    prefix + ":" + queueName
  }

  /** Under one prefix, distinct queue names never share a store key. */
  lemma {:induction false} KeyInjective(prefix: string, a: string, b: string)
    requires Key(prefix, a) == Key(prefix, b)
    ensures a == b
  {
    var k := Key(prefix, a);
    calc {
      a;
      k[|prefix| + 1..];
      b;
    }
  }

  /** q.validate(): the empty prefix is reported before the missing pool. */
  function Validate(q: Queue): (err: Option<Error>)
    ensures err == None <==> q.prefix != "" && q.pool != null
    ensures q.prefix == "" ==> err == Some(EmptyPrefix)
    ensures q.prefix != "" && q.pool == null ==> err == Some(NilPool)
  {
    if q.prefix == "" then Some(EmptyPrefix)
    else if q.pool == null then Some(NilPool)
    else None
  }

  // ---------------------------------------------------------------- Push

  /** Which command of a Push call fails, if any: proto.Marshal, RPUSH or
      PUBLISH, for the record at `index`. */
  datatype PushFault =
    | NoFault
    | MarshalFails(index: nat, failure: Error)
    | RPushFails(index: nat, failure: Error)
    | PublishFails(index: nat, failure: Error)

  /** How many of `n` records a Push leaves appended under `fault`. */
  function Appended(n: nat, fault: PushFault): (a: nat)
    ensures a <= n
  {
    match fault
    case NoFault => n
    case MarshalFails(i, _) => if i < n then i else n
    case RPushFails(i, _) => if i < n then i else n
    case PublishFails(i, _) => if i < n then i + 1 else n
  }

  /** How many wake notifications a Push publishes under `fault`. */
  function Notified(n: nat, fault: PushFault): (p: nat)
    ensures p <= n
  {
    match fault
    case NoFault => n
    case MarshalFails(i, _) => if i < n then i else n
    case RPushFails(i, _) => if i < n then i else n
    case PublishFails(i, _) => if i < n then i else n
  }

  /** The error a Push returns under `fault` once validation passed. */
  function PushError(n: nat, fault: PushFault): (err: Option<Error>)
  {
    match fault
    case NoFault => None
    case MarshalFails(i, e) => if i < n then Some(Wrapped("failed marshaling protobuf", e)) else None
    case RPushFails(i, e) => if i < n then Some(e) else None
    case PublishFails(i, e) => if i < n then Some(e) else None
  }

  /** A Push leaves appended either every record or, after a failure, a
      prefix of them; it publishes one notification per appended record,
      except that a failed PUBLISH leaves its record appended unannounced. */
  lemma {:induction false} PushAccounting(n: nat, fault: PushFault)
    ensures PushError(n, fault).None? ==> Appended(n, fault) == n && Notified(n, fault) == n
    ensures PushError(n, fault).Some? ==> Appended(n, fault) < n || fault.PublishFails?
    ensures Notified(n, fault) == Appended(n, fault)
            || (fault.PublishFails? && fault.index < n && Notified(n, fault) + 1 == Appended(n, fault))
  {
    match fault
    case NoFault =>
    case MarshalFails(i, _) =>
    case RPushFails(i, _) =>
    case PublishFails(i, _) =>
  }

  /** Push: for each record in order, marshal, RPUSH and PUBLISH; the first
      failure stops the loop and records already appended stay appended. */
  method Push(q: Queue, queueName: string, webRequests: seq<WebRequest>, fault: PushFault)
    returns (err: Option<Error>)
    modifies q.pool
    ensures Validate(q).Some? ==> err == Validate(q)
    ensures Validate(q).Some? && q.pool != null ==> unchanged(q.pool)
    ensures Validate(q).None? ==>
              var key := Key(q.prefix, queueName);
              var n := |webRequests|;
              && err == PushError(n, fault)
              && q.pool.List(key) == old(q.pool.List(key)) + EncodeAll(webRequests[..Appended(n, fault)])
              && q.pool.Published(key) == old(q.pool.Published(key)) + Notified(n, fault)
              && (forall k :: k != key ==> q.pool.List(k) == old(q.pool.List(k)))
              && (forall k :: k != key ==> q.pool.Published(k) == old(q.pool.Published(k)))
  {
    err := Validate(q);
    if err.Some? {
      return;
    }
    var store := q.pool;
    var key := Key(q.prefix, queueName);
    ghost var list0 := store.List(key);
    ghost var count0 := store.Published(key);
    var i := 0;
    while i < |webRequests|
      invariant 0 <= i <= |webRequests|
      invariant fault.MarshalFails? || fault.RPushFails? || fault.PublishFails? ==> i <= fault.index
      invariant store.List(key) == list0 + EncodeAll(webRequests[..i])
      invariant store.Published(key) == count0 + i
      invariant forall k :: k != key ==> store.List(k) == old(store.List(k))
      invariant forall k :: k != key ==> store.Published(k) == old(store.Published(k))
    {
      if fault.MarshalFails? && fault.index == i {
        assert Appended(|webRequests|, fault) == i && Notified(|webRequests|, fault) == i;
        return Some(Wrapped("failed marshaling protobuf", fault.failure));
      }
      if fault.RPushFails? && fault.index == i {
        assert Appended(|webRequests|, fault) == i && Notified(|webRequests|, fault) == i;
        return Some(fault.failure);
      }
      store.RPush(key, Encoded(webRequests[i]));
      EncodeAllSnoc(webRequests, i);
      if fault.PublishFails? && fault.index == i {
        assert Appended(|webRequests|, fault) == i + 1 && Notified(|webRequests|, fault) == i;
        return Some(fault.failure);
      }
      store.Publish(key);
      i := i + 1;
    }
    assert webRequests[..i] == webRequests;
    err := None;
  }

  // ---------------------------------------------------------------- lpop

  /** lpop(key, conn): LPOP, then unmarshal. `lpopError` is the failure of
      the LPOP command itself, if it fails. An empty list is not an error.
      A malformed entry is still removed, and the partially filled message
      is returned together with the unmarshal error. */
  method LPopRecord(store: Store, key: string, lpopError: Option<Error>)
    returns (webRequest: Option<WebRequest>, err: Option<Error>)
    modifies store
    ensures lpopError.Some? ==> webRequest == None && err == lpopError && unchanged(store)
    ensures lpopError.None? && old(store.List(key)) == [] ==>
              webRequest == None && err == None && unchanged(store)
    ensures lpopError.None? && old(store.List(key)) != [] ==>
              var head := old(store.List(key))[0];
              && webRequest == Some(Decoded(head)) && err == DecodeError(head)
              && store.List(key) == old(store.List(key))[1..]
              && (forall k :: k != key ==> store.List(k) == old(store.List(k)))
              && store.published == old(store.published)
  {
    if lpopError.Some? {
      return None, lpopError;
    }
    var e := store.LPop(key);
    if e.None? {
      return None, None;
    }
    webRequest, err := Some(Decoded(e.value)), DecodeError(e.value);
  }

  // ---------------------------------------------------------------- Peek

  /** How a range command's reply came back: with values, as a nil reply
      (redis.ErrNil), or as a failure. */
  datatype Reply = Values | NilReply | Failure(error: Error)

  /** LRANGE list start stop, with Redis's index rules: a negative index
      counts from the end, an out-of-range stop is clamped to the last
      element, and an empty range gives the empty list. */
  function Range(list: seq<Entry>, start: int, stop: int): (r: seq<Entry>)
    ensures |r| <= |list|
  {
    var n := |list|;
    var s := if start < 0 then (if n + start < 0 then 0 else n + start) else start;
    var e := if stop < 0 then n + stop else (if stop >= n then n - 1 else stop);
    if s > e || s >= n then [] else list[s..e + 1]
  }

  /** `count == 0` means the default of 10. */
  function EffectiveCount(count: Int64): Int64 {
    if count == 0 then 10 else count
  }

  /** The entries Peek asks LRANGE for: indices 0 .. count-1, where count-1
      is computed in int64 arithmetic. */
  function PeekWindow(list: seq<Entry>, count: Int64): seq<Entry> {
    Range(list, 0, Wrap64(EffectiveCount(count) - 1))
  }

  /** For a non-negative count Peek reads the first min(count, len) entries
      (the first 10 for count 0); for a negative count above the int64
      minimum, Redis's negative-index rule drops the last -count entries;
      for the int64 minimum, count-1 wraps to the maximum and Peek reads
      the whole list (up to 2^63 entries). */
  lemma PeekWindowIsPrefix(list: seq<Entry>, count: Int64)
    ensures count > 0 ==> PeekWindow(list, count) == list[..if count < |list| then count else |list|]
    ensures count == 0 ==> PeekWindow(list, count) == list[..if 10 < |list| then 10 else |list|]
    ensures MinInt64 < count < 0 ==>
              PeekWindow(list, count) == if |list| + count <= 0 then [] else list[..|list| + count]
    ensures count == MinInt64 ==> PeekWindow(list, count) == list[..if |list| <= MaxInt64 then |list| else MaxInt64 + 1]
  {
    if count == MinInt64 {
      assert Wrap64(MinInt64 - 1) == MaxInt64;
    }
  }

  /** The position of the first entry that fails to unmarshal, or the
      length when every entry decodes. */
  function FirstMalformed(es: seq<Entry>): (k: nat)
    ensures k <= |es|
    ensures forall j :: 0 <= j < k ==> es[j].Encoded?
    ensures k < |es| ==> es[k].Malformed?
  {
    if es == [] then 0
    else if es[0].Malformed? then 0
    else 1 + FirstMalformed(es[1..])
  }

  /** The records Peek decodes from a window, in order, stopping at the
      first entry that fails to unmarshal (which is not included), and the
      error of that entry. */
  function DecodePrefix(es: seq<Entry>): (r: (seq<WebRequest>, Option<Error>))
  {
    var k := FirstMalformed(es);
    (seq(k, j requires 0 <= j < k => es[j].record), if k < |es| then Some(es[k].failure) else None)
  }

  /** What Push stores decodes back to the same records, with no error. */
  lemma DecodeEncodeAll(rs: seq<WebRequest>)
    ensures DecodePrefix(EncodeAll(rs)) == (rs, None)
  {
    var es := EncodeAll(rs);
    var k := FirstMalformed(es);
    assert k == |rs|;
    var decoded := seq(k, j requires 0 <= j < k => es[j].record);
    assert forall j :: 0 <= j < k ==> decoded[j] == rs[j];
    assert decoded == rs;
  }

  /** Peeking a queue filled only by Push, with a positive count, gives back
      the first count records in the order they were pushed. */
  lemma PushedRecordsPeekBack(rs: seq<WebRequest>, count: Int64)
    requires count > 0
    ensures var m := if count < |rs| then count else |rs|;
            DecodePrefix(PeekWindow(EncodeAll(rs), count)) == (rs[..m], None)
  {
    var m := if count < |rs| then count else |rs|;
    var es := EncodeAll(rs);
    PeekWindowIsPrefix(es, count);
    assert PeekWindow(es, count) == es[..m];
    EncodeAllTake(rs, m);
    DecodeEncodeAll(rs[..m]);
  }

  /** Peek: LRANGE the head window, then unmarshal each entry in order. The
      response is always a non-nil slice; nothing in the store changes. */
  method Peek(q: Queue, queueName: string, count: Int64, reply: Reply)
    returns (response: GoSlice<WebRequest>, err: Option<Error>)
    ensures response.Made?
    ensures Validate(q).Some? ==> response == Made([]) && err == Validate(q)
    ensures Validate(q).None? && reply.Failure? ==> response == Made([]) && err == Some(reply.error)
    ensures Validate(q).None? && reply.NilReply? ==> response == Made([]) && err == None
    ensures Validate(q).None? && reply.Values? ==>
              var window := PeekWindow(q.pool.List(Key(q.prefix, queueName)), count);
              (response.items, err) == DecodePrefix(window)
  {
    response := Made([]);
    err := Validate(q);
    if err.Some? {
      return;
    }
    var key := Key(q.prefix, queueName);
    match reply
    case Failure(e) => return response, Some(e);
    case NilReply => return response, None;
    case Values =>
    var values := PeekWindow(q.pool.List(key), count);
    var out: seq<WebRequest> := [];
    var i := 0;
    while i < |values|
      invariant 0 <= i <= |values|
      invariant forall j :: 0 <= j < i ==> values[j].Encoded?
      invariant out == seq(i, j requires 0 <= j < i => values[j].record)
    {
      if values[i].Malformed? {
        assert FirstMalformed(values) == i;
        return Made(out), Some(values[i].failure);
      }
      out := out + [values[i].record];
      i := i + 1;
    }
    assert FirstMalformed(values) == i;
    response := Made(out);
  }

  // --------------------------------------------------------------- blpop

  /** The outcome of a pop call: it returned, or it is still blocked. */
  datatype PopOutcome = Returned(webRequest: Option<WebRequest>, err: Option<Error>) | Waiting

  /** blpop (and Pop2, which only delegates to it): a single BLPOP with a
      timeout in seconds. On the in-memory store a non-empty list yields its
      head at once; an empty list yields the nil reply after a positive
      timeout and blocks for good with timeout 0, since nothing else runs
      during the call. Redis refuses a negative timeout. */
  method BLPop(q: Queue, queueName: string, timeout: Int64, connError: Option<Error>)
    returns (outcome: PopOutcome)
    modifies q.pool
    ensures Validate(q).Some? ==> outcome == Returned(None, Validate(q))
    ensures Validate(q).Some? && q.pool != null ==> unchanged(q.pool)
    ensures Validate(q).None? ==>
              var list := old(q.pool.List(Key(q.prefix, queueName)));
              if connError.Some? then outcome == Returned(None, connError) && unchanged(q.pool)
              else if timeout < 0 then outcome == Returned(None, Some(Foreign("ERR timeout is negative"))) && unchanged(q.pool)
              else if list == [] then outcome == (if timeout == 0 then Waiting else Returned(None, None)) && unchanged(q.pool)
              else
                && outcome == Returned(Some(Decoded(list[0])), DecodeError(list[0]))
                && q.pool.List(Key(q.prefix, queueName)) == list[1..]
                && (forall k :: k != Key(q.prefix, queueName) ==> q.pool.List(k) == old(q.pool.List(k)))
                && q.pool.published == old(q.pool.published)
  {
    var err := Validate(q);
    if err.Some? {
      return Returned(None, err);
    }
    if connError.Some? {
      return Returned(None, connError);
    }
    if timeout < 0 {
      return Returned(None, Some(Foreign("ERR timeout is negative")));
    }
    var key := Key(q.prefix, queueName);
    if q.pool.List(key) == [] {
      return if timeout == 0 then Waiting else Returned(None, None);
    }
    var e := q.pool.LPop(key);
    outcome := Returned(Some(Decoded(e.value)), DecodeError(e.value));
  }
}
