/** The blocking Pop of queue/redisqueue/redisqueue.go, modelled as a
    session that reacts to one event at a time.

    In the source, Pop subscribes to the key's wake channel and runs two
    loops concurrently: a receive goroutine that calls doPop when the
    subscription is confirmed (count 1) and on every wake message, and a
    select loop that ends on a failed health ping, on the context being
    done (deadline, caller cancellation, or doPop closing cancelChan after
    a successful removal), or when the receive goroutine reports on `done`.
    Here those loops become a trace of events; each doPop is one atomic
    step against the shared store, as it runs under a mutex and LPOP is
    atomic. Every event that would trigger a doPop carries the failure, if
    any, of the LPOP command it would issue. */
module PopSession {
  import opened Common
  import opened Messages
  import opened RedisQueue

  datatype Event =
    | Subscription(count: int, lpopError: Option<Error>)  // a redis.Subscription reply
    | Message(lpopError: Option<Error>)                   // a wake message on the channel
    | ReceiveError(error: Error)                          // psc.Receive returned an error
    | Tick(pingError: Option<Error>)                      // the health-check ticker fired
    | Deadline                                            // the timeout elapsed
    | Cancelled                                           // the caller cancelled the context

  /** The variables one Pop call shares between its goroutines:
      webRequest (set by doPop), whether cancelChan was closed, whether a
      deadline was set (timeout > 0), whether the select loop still runs,
      whether Unsubscribe was sent, and what the receive goroutine sent on
      `done` (once it has, the call returns). */
  datatype Session = Session(
    webRequest: Option<WebRequest>,
    cancelClosed: bool,
    hasDeadline: bool,
    looping: bool,
    unsubscribed: bool,
    done: Option<Option<Error>>)

  predicate Finished(s: Session) {
    s.done.Some?
  }

  /** The state once the subscription request was sent. */
  function Start(timeout: Int64): (s: Session)
    ensures s.webRequest == None && !Finished(s) && s.looping && !s.unsubscribed
    ensures s.hasDeadline <==> timeout > 0
  {
    Session(None, false, timeout > 0, true, false, None)
  }

  /** What one step does: the new session, the new list at the key, and
      the entries it removed from the head of that list. */
  datatype Effect = Effect(session: Session, list: seq<Entry>, removed: seq<Entry>)

  /** The select loop leaves and sends Unsubscribe. */
  function StopLoop(s: Session): (s': Session)
    ensures !s'.looping && (s.looping ==> s'.unsubscribed) && s'.unsubscribed == (s.unsubscribed || s.looping)
    ensures s'.webRequest == s.webRequest && s'.cancelClosed == s.cancelClosed && s'.done == s.done
    ensures s'.hasDeadline == s.hasDeadline
  {
    if s.looping then s.(looping := false, unsubscribed := true) else s
  }

  /** doPop, without the second close of cancelChan (see DoPopAsWritten).
      Once webRequest is set it removes nothing; otherwise it removes at
      most the head, and what it removed is what webRequest now holds. */
  function DoPop(s: Session, list: seq<Entry>, lpopError: Option<Error>): (r: Effect)
    ensures r.removed + r.list == list
    ensures |r.removed| <= 1
    ensures s.webRequest.Some? ==> r == Effect(s, list, [])
    ensures r.removed != [] ==> list != [] && r.removed == [list[0]] && r.session.webRequest == Some(Decoded(list[0]))
    ensures r.removed == [] ==> r.session.webRequest == s.webRequest
    ensures lpopError.Some? ==> r.removed == []
    ensures s.webRequest.None? && lpopError.None? && list != [] ==> r.removed == [list[0]]
    ensures s.webRequest.None? && lpopError.Some? ==> r == Effect(s.(done := Some(lpopError)), list, [])
    ensures s.webRequest.None? && lpopError.None? && list == [] ==> r == Effect(s, list, [])
    ensures s.webRequest.None? && lpopError.None? && list != [] && list[0].Encoded? ==>
              r.session == StopLoop(s.(webRequest := Some(list[0].record), cancelClosed := true))
    ensures s.webRequest.None? && lpopError.None? && list != [] && list[0].Malformed? ==>
              r.session == s.(webRequest := Some(list[0].partial), done := Some(Some(list[0].failure)))
  {
    if s.webRequest.Some? then Effect(s, list, [])
    else if lpopError.Some? then Effect(s.(done := Some(lpopError)), list, [])
    else if list == [] then Effect(s, list, [])
    else
      var e := list[0];
      match e
      case Encoded(record) =>
        Effect(StopLoop(s.(webRequest := Some(record), cancelClosed := true)), list[1..], [e])
      case Malformed(partial, failure) =>
        Effect(s.(webRequest := Some(partial), done := Some(Some(failure))), list[1..], [e])
  }

  /** doPop exactly as written: when webRequest is already set it closes
      cancelChan again, and closing a closed channel panics in Go (None). */
  function DoPopAsWritten(s: Session, list: seq<Entry>, lpopError: Option<Error>): (r: Option<Effect>)
    ensures s.webRequest.None? ==> r == Some(DoPop(s, list, lpopError))
    ensures s.webRequest.Some? ==> (r.None? <==> s.cancelClosed)
    ensures s.webRequest.Some? && r.Some? ==>
              && r.value.list == list && r.value.removed == [] && r.value.session.cancelClosed
              && !r.value.session.looping && r.value.session.webRequest == s.webRequest
  {
    if s.webRequest.Some? then
      if s.cancelClosed then None
      else Some(Effect(StopLoop(s.(cancelClosed := true)), list, []))
    else Some(DoPop(s, list, lpopError))
  }

  /** One event, as the receive goroutine and the select loop handle it. A
      finished call ignores everything; a subscription count of 1 triggers
      a doPop, a count of 0 ends the goroutine; a deadline matters only
      when one was set. */
  function Next(s: Session, list: seq<Entry>, e: Event): (r: Effect)
    ensures r.removed + r.list == list
    ensures |r.removed| <= 1
    ensures Finished(s) ==> r == Effect(s, list, [])
    ensures r.removed != [] ==> s.webRequest.None? && r.session.webRequest == Some(Decoded(list[0]))
    ensures r.removed == [] ==> r.session.webRequest == s.webRequest
    ensures s.hasDeadline == r.session.hasDeadline
    ensures !Finished(s) && Triggers(e) ==> r == DoPop(s, list, e.lpopError)
    ensures !Finished(s) && !Triggers(e) ==> r == Effect(Quiet(s, e), list, [])
  {
    if Finished(s) then Effect(s, list, [])
    else if Triggers(e) then DoPop(s, list, e.lpopError)
    else Effect(Quiet(s, e), list, [])
  }

  /** The events that make the receive goroutine call doPop. */
  predicate Triggers(e: Event) {
    (e.Subscription? && e.count == 1) || e.Message?
  }

  /** Every other event changes only the session: a subscription count of 0
      ends the goroutine (other counts are ignored), a receive error ends it
      with that error, a failed ping or the context being done ends the
      select loop, and a deadline matters only when one was set. */
  function Quiet(s: Session, e: Event): (s': Session)
    requires !Triggers(e)
    ensures s'.webRequest == s.webRequest && s'.hasDeadline == s.hasDeadline
    ensures e.Subscription? ==> s' == (if e.count == 0 then s.(done := Some(None)) else s)
    ensures e.ReceiveError? ==> s' == s.(done := Some(Some(e.error)))
    ensures e.Cancelled? || (e.Deadline? && s.hasDeadline) || (e.Tick? && e.pingError.Some?) ==> s' == StopLoop(s)
    ensures (e.Deadline? && !s.hasDeadline) || (e.Tick? && e.pingError.None?) ==> s' == s
  {
    match e
    case Subscription(count, _) => if count == 0 then s.(done := Some(None)) else s
    case ReceiveError(err) => s.(done := Some(Some(err)))
    case Tick(pingError) => if pingError.Some? then StopLoop(s) else s
    case Deadline => if s.hasDeadline then StopLoop(s) else s
    case Cancelled => StopLoop(s)
  }

  /** What happens while one Pop call is in progress: an event reaches the
      call, or another client pushes records onto the same key. */
  datatype Step = Deliver(e: Event) | ConcurrentPush(records: seq<WebRequest>)

  datatype Run = Run(session: Session, list: seq<Entry>, removed: seq<Entry>, pushed: seq<Entry>)

  /** The steps of a trace up to the point where the call returns. */
  function RunTrace(s: Session, list: seq<Entry>, trace: seq<Step>): Run
    decreases |trace|
  {
    if trace == [] || Finished(s) then Run(s, list, [], [])
    else
      match trace[0]
      case Deliver(e) =>
        var o := Next(s, list, e);
        var r := RunTrace(o.session, o.list, trace[1..]);
        Run(r.session, r.list, o.removed + r.removed, r.pushed)
      case ConcurrentPush(records) =>
        var r := RunTrace(s, list + EncodeAll(records), trace[1..]);
        Run(r.session, r.list, r.removed, EncodeAll(records) + r.pushed)
  }

  /** One step of a trace, for an unfinished call. */
  function Apply(s: Session, list: seq<Entry>, step: Step): (r: Run)
    ensures r.removed + r.list == list + r.pushed
  {
    match step
    case Deliver(e) =>
      var o := Next(s, list, e);
      Run(o.session, o.list, o.removed, [])
    case ConcurrentPush(records) =>
      Run(s, list + EncodeAll(records), [], EncodeAll(records))
  }

  /** RunTrace takes one Apply step, then runs the rest of the trace. */
  lemma RunTraceApply(s: Session, list: seq<Entry>, trace: seq<Step>)
    requires trace != [] && !Finished(s)
    ensures var a := Apply(s, list, trace[0]);
            var r := RunTrace(a.session, a.list, trace[1..]);
            RunTrace(s, list, trace) == Run(r.session, r.list, a.removed + r.removed, a.pushed + r.pushed)
  {
    match trace[0]
    case Deliver(e) =>
      var r := RunTrace(Next(s, list, e).session, Next(s, list, e).list, trace[1..]);
      assert [] + r.pushed == r.pushed;
    case ConcurrentPush(records) =>
      var r := RunTrace(s, list + EncodeAll(records), trace[1..]);
      assert [] + r.removed == r.removed;
  }

  /** FIFO: the entries the call removed, followed by what is left, are the
      entries that were there, followed by those pushed meanwhile. */
  lemma {:induction false} RunIsFifo(s: Session, list: seq<Entry>, trace: seq<Step>)
    ensures var r := RunTrace(s, list, trace); r.removed + r.list == list + r.pushed
    decreases |trace|
  {
    if trace != [] && !Finished(s) {
      var a := Apply(s, list, trace[0]);
      RunTraceApply(s, list, trace);
      RunIsFifo(a.session, a.list, trace[1..]);
      var r := RunTrace(a.session, a.list, trace[1..]);
      Regroup(list, a.removed, a.list, a.pushed, r.removed, r.list, r.pushed);
    }
  }

  /** Two FIFO steps make one. */
  lemma Regroup(l0: seq<Entry>, removed1: seq<Entry>, l1: seq<Entry>, pushed1: seq<Entry>,
                removed2: seq<Entry>, l2: seq<Entry>, pushed2: seq<Entry>)
    requires removed1 + l1 == l0 + pushed1 && removed2 + l2 == l1 + pushed2
    ensures (removed1 + removed2) + l2 == l0 + (pushed1 + pushed2)
  {
    calc {
      (removed1 + removed2) + l2;
      removed1 + (removed2 + l2);
      removed1 + (l1 + pushed2);
      (removed1 + l1) + pushed2;
    }
  }

  /** A Pop call removes at most one entry, none once webRequest is set,
      and the entry it removed is what it returns. */
  lemma {:induction false} RunRemovesAtMostOne(s: Session, list: seq<Entry>, trace: seq<Step>)
    ensures var r := RunTrace(s, list, trace);
            && |r.removed| <= (if s.webRequest.None? then 1 else 0)
            && (r.removed != [] ==> r.session.webRequest == Some(Decoded(r.removed[0])))
            && (r.removed == [] ==> r.session.webRequest == s.webRequest)
    decreases |trace|
  {
    if trace != [] && !Finished(s) {
      match trace[0]
      case Deliver(e) =>
        var o := Next(s, list, e);
        RunRemovesAtMostOne(o.session, o.list, trace[1..]);
      case ConcurrentPush(records) =>
        RunRemovesAtMostOne(s, list + EncodeAll(records), trace[1..]);
    }
  }

  /** Events that carry no failure: no receive error, no failing LPOP. */
  predicate Clean(trace: seq<Step>) {
    forall i :: 0 <= i < |trace| && trace[i].Deliver? ==>
      !trace[i].e.ReceiveError? && (trace[i].e.Subscription? ==> trace[i].e.lpopError.None?)
      && (trace[i].e.Message? ==> trace[i].e.lpopError.None?)
  }

  predicate AllEncoded(es: seq<Entry>) {
    forall i :: 0 <= i < |es| ==> es[i].Encoded?
  }

  /** Without failures, a call that returns returns no error; this covers
      its ending on a timeout, a cancellation or a failed ping, where it
      returns no record either unless one was removed. */
  lemma {:induction false} CleanRunHasNoError(s: Session, list: seq<Entry>, trace: seq<Step>)
    requires Clean(trace) && AllEncoded(list) && (s.done.None? || s.done == Some(None))
    ensures var r := RunTrace(s, list, trace);
            r.session.done.None? || r.session.done == Some(None)
    decreases |trace|
  {
    if trace != [] && !Finished(s) {
      assert Clean(trace[1..]) by {
        forall i | 0 <= i < |trace[1..]| && trace[1..][i].Deliver?
          ensures !trace[1..][i].e.ReceiveError?
        {
          assert trace[1..][i] == trace[i + 1];
        }
      }
      match trace[0]
      case Deliver(e) =>
        var o := Next(s, list, e);
        assert AllEncoded(o.list) by {
          forall i | 0 <= i < |o.list| ensures o.list[i].Encoded? {
            assert o.list[i] == (o.removed + o.list)[|o.removed| + i];
          }
        }
        if o.removed != [] {
          assert o.removed[0] == list[0];
        }
        CleanRunHasNoError(o.session, o.list, trace[1..]);
      case ConcurrentPush(records) =>
        var l := list + EncodeAll(records);
        assert AllEncoded(l) by {
          forall i | 0 <= i < |l| ensures l[i].Encoded? {
            if i >= |list| { assert l[i] == EncodeAll(records)[i - |list|]; }
          }
        }
        CleanRunHasNoError(s, l, trace[1..]);
    }
  }

  /** With a timeout of 0 (or less) no deadline is set: a Deadline event
      changes nothing, so the call keeps waiting for a push. */
  lemma NoDeadlineWithoutTimeout(timeout: Int64, list: seq<Entry>)
    requires timeout <= 0
    ensures Next(Start(timeout), list, Deadline) == Effect(Start(timeout), list, [])
  {
  }

  /** An entry already present when the subscription is confirmed is taken
      by the first doPop, and the select loop then unsubscribes. */
  lemma FirstAttemptTakesPresentItem(timeout: Int64, r: WebRequest, rest: seq<Entry>)
    ensures var o := Next(Start(timeout), [Encoded(r)] + rest, Subscription(1, None));
            && o.session.webRequest == Some(r) && o.list == rest && o.removed == [Encoded(r)]
            && o.session.unsubscribed && !o.session.looping && !Finished(o.session)
  {
  }

  /** Scenario: a Pop with a positive timeout on an empty key returns no
      record and no error once the deadline passes and the unsubscription
      is confirmed. */
  lemma TimeoutReturnsAbsent(timeout: Int64)
    requires timeout > 0
    ensures var r := RunTrace(Start(timeout), [],
                              [Deliver(Subscription(1, None)), Deliver(Deadline), Deliver(Subscription(0, None))]);
            r.session.webRequest == None && r.session.done == Some(None) && r.session.unsubscribed
            && r.removed == []
  {
  }

  /** A finished call ignores the rest of the trace. */
  lemma FinishedIgnoresRest(s: Session, list: seq<Entry>, rest: seq<Step>)
    requires Finished(s)
    ensures RunTrace(s, list, rest) == Run(s, list, [], [])
  {
  }

  /** A deadline that was set, a cancellation or a failed ping, while no
      record is held, ends the select loop; once the Unsubscribe is
      confirmed (count 0) the call returns no record and no error, whatever
      follows, having removed nothing. */
  lemma {:induction false} StoppedCallReturnsAbsent(s: Session, list: seq<Entry>, stop: Event, lpopError: Option<Error>, rest: seq<Step>)
    requires !Finished(s) && s.webRequest.None?
    requires stop == Cancelled || (stop == Deadline && s.hasDeadline) || (stop.Tick? && stop.pingError.Some?)
    ensures var r := RunTrace(s, list, [Deliver(stop), Deliver(Subscription(0, lpopError))] + rest);
            && r.session.done == Some(None) && r.session.webRequest == None
            && r.session.unsubscribed == (s.unsubscribed || s.looping) && !r.session.looping
            && r.list == list && r.removed == [] && r.pushed == []
  {
    var t := [Deliver(stop), Deliver(Subscription(0, lpopError))] + rest;
    assert t[0] == Deliver(stop) && t[1..][0] == Deliver(Subscription(0, lpopError)) && t[1..][1..] == rest;
    var s1 := Next(s, list, stop).session;
    assert s1 == StopLoop(s);
    var s2 := Next(s1, list, Subscription(0, lpopError)).session;
    assert s2 == s1.(done := Some(None));
    FinishedIgnoresRest(s2, list, rest);
  }

  /** A failing LPOP while no record is held ends the call with that
      error, whatever follows. */
  lemma {:induction false} LPopFailureIsReturned(s: Session, list: seq<Entry>, e: Event, rest: seq<Step>)
    requires !Finished(s) && s.webRequest.None? && Triggers(e) && e.lpopError.Some?
    ensures var r := RunTrace(s, list, [Deliver(e)] + rest);
            && r.session.done == Some(e.lpopError) && r.session.webRequest == None
            && r.list == list && r.removed == [] && r.pushed == []
  {
    var t := [Deliver(e)] + rest;
    assert t[0] == Deliver(e) && t[1..] == rest;
    FinishedIgnoresRest(Next(s, list, e).session, list, rest);
  }

  /** A head that fails to unmarshal is removed and ends the call with
      the partial record and the unmarshalling error, whatever follows. */
  lemma {:induction false} MalformedHeadIsReturned(s: Session, list: seq<Entry>, e: Event, rest: seq<Step>)
    requires !Finished(s) && s.webRequest.None? && Triggers(e) && e.lpopError.None?
    requires list != [] && list[0].Malformed?
    ensures var r := RunTrace(s, list, [Deliver(e)] + rest);
            && r.session.done == Some(Some(list[0].failure)) && r.session.webRequest == Some(list[0].partial)
            && r.list == list[1..] && r.removed == [list[0]] && r.pushed == []
  {
    var t := [Deliver(e)] + rest;
    assert t[0] == Deliver(e) && t[1..] == rest;
    var o := Next(s, list, e);
    FinishedIgnoresRest(o.session, o.list, rest);
    assert o.removed + [] == [list[0]];
  }

  /** An error from receiving on the subscription ends the call with that
      error, whatever follows. */
  lemma {:induction false} ReceiveErrorIsReturned(s: Session, list: seq<Entry>, err: Error, rest: seq<Step>)
    requires !Finished(s)
    ensures var r := RunTrace(s, list, [Deliver(ReceiveError(err))] + rest);
            && r.session.done == Some(Some(err)) && r.session.webRequest == s.webRequest
            && r.list == list && r.removed == [] && r.pushed == []
  {
    var t := [Deliver(ReceiveError(err))] + rest;
    assert t[0] == Deliver(ReceiveError(err)) && t[1..] == rest;
    FinishedIgnoresRest(Next(s, list, ReceiveError(err)).session, list, rest);
  }

  /** Scenario: a Pop on an empty key that the caller cancels returns no
      record and no error, whatever its timeout. */
  lemma CancelledPopReturnsAbsent(timeout: Int64)
    ensures var r := RunTrace(Start(timeout), [],
                              [Deliver(Subscription(1, None)), Deliver(Cancelled), Deliver(Subscription(0, None))]);
            r.session.webRequest == None && r.session.done == Some(None) && r.session.unsubscribed
            && r.removed == []
  {
  }

  /** Scenario: a Pop that started on an empty key with timeout 0 returns
      the record pushed while it waited. */
  lemma BlockedPopReceivesPush(r: WebRequest)
    ensures var run := RunTrace(Start(0), [],
              [Deliver(Subscription(1, None)), ConcurrentPush([r]), Deliver(Message(None)), Deliver(Subscription(0, None))]);
            run.session.webRequest == Some(r) && run.session.done == Some(None) && run.list == []
  {
    var t := [Deliver(Subscription(1, None)), ConcurrentPush([r]), Deliver(Message(None)), Deliver(Subscription(0, None))];
    assert t[1..] == [ConcurrentPush([r]), Deliver(Message(None)), Deliver(Subscription(0, None))];
    assert t[1..][1..] == [Deliver(Message(None)), Deliver(Subscription(0, None))];
    assert t[1..][1..][1..] == [Deliver(Subscription(0, None))];
    assert t[1..][1..][1..][1..] == [];
    var s1 := Next(Start(0), [], Subscription(1, None)).session;
    assert s1 == Start(0);
    assert EncodeAll([r]) == [Encoded(r)];
    var s2 := Next(s1, [Encoded(r)], Message(None)).session;
    assert s2.webRequest == Some(r) && !Finished(s2);
    var s3 := Next(s2, [], Subscription(0, None)).session;
    assert s3.done == Some(None);
    var r3 := RunTrace(s3, [], []);
    var r2 := RunTrace(s2, [], t[1..][1..][1..]);
    assert r2.session == r3.session && r2.list == r3.list;
    assert Next(s1, [Encoded(r)], Message(None)).list == [];
    var r1 := RunTrace(s1, [Encoded(r)], t[1..][1..]);
    assert r1.session == r2.session && r1.list == r2.list;
    assert [] + EncodeAll([r]) == [Encoded(r)] && !Finished(s1);
    var r0 := RunTrace(s1, [], t[1..]);
    assert r0.session == r1.session && r0.list == r1.list;
  }

  /** doPop as written agrees with DoPop until webRequest is set. After a
      successful removal the receive goroutine is still running, and a
      further wake message makes doPop as written close cancelChan twice,
      which panics. */
  lemma AsWrittenDoPopPanicsAfterSuccess(timeout: Int64, a: WebRequest, b: WebRequest)
    ensures forall s: Session, l: seq<Entry>, err: Option<Error> ::
              s.webRequest.None? ==> DoPopAsWritten(s, l, err) == Some(DoPop(s, l, err))
    ensures var first := Next(Start(timeout), [Encoded(a), Encoded(b)], Subscription(1, None));
            && !Finished(first.session) && first.list == [Encoded(b)]
            && DoPopAsWritten(first.session, first.list, None).None?
            && DoPop(first.session, first.list, None) == Effect(first.session, [Encoded(b)], [])
  {
  }

  // ------------------------------------------------ several callers, one key

  /** An interleaving of several Pop calls on one key with pushes. */
  datatype Action = Act(caller: nat, e: Event) | PushRecords(records: seq<WebRequest>)

  /** The outcome of an interleaving: the callers' sessions, the list, the
      removed entries in removal order, who removed each, and what was
      pushed. */
  datatype Shared = Shared(sessions: seq<Session>, list: seq<Entry>, removed: seq<Entry>, takers: seq<nat>, pushed: seq<Entry>)

  function RunShared(ss: seq<Session>, list: seq<Entry>, schedule: seq<Action>): (r: Shared)
    ensures |r.sessions| == |ss| && |r.takers| == |r.removed|
    decreases |schedule|
  {
    if schedule == [] then Shared(ss, list, [], [], [])
    else
      match schedule[0]
      case Act(c, e) =>
        if c < |ss| then
          var o := Next(ss[c], list, e);
          var r := RunShared(ss[c := o.session], o.list, schedule[1..]);
          Shared(r.sessions, r.list, o.removed + r.removed, (if o.removed == [] then [] else [c]) + r.takers, r.pushed)
        else RunShared(ss, list, schedule[1..])
      case PushRecords(records) =>
        var r := RunShared(ss, list + EncodeAll(records), schedule[1..]);
        Shared(r.sessions, r.list, r.removed, r.takers, EncodeAll(records) + r.pushed)
  }

  /** However the calls interleave, removal is FIFO across all callers. */
  lemma {:induction false} SharedIsFifo(ss: seq<Session>, list: seq<Entry>, schedule: seq<Action>)
    ensures var r := RunShared(ss, list, schedule); r.removed + r.list == list + r.pushed
    decreases |schedule|
  {
    if schedule != [] {
      match schedule[0]
      case Act(c, e) =>
        if c < |ss| {
          var o := Next(ss[c], list, e);
          SharedIsFifo(ss[c := o.session], o.list, schedule[1..]);
          var r := RunShared(ss[c := o.session], o.list, schedule[1..]);
          calc {
            (o.removed + r.removed) + r.list;
            o.removed + (r.removed + r.list);
            o.removed + (o.list + r.pushed);
            (o.removed + o.list) + r.pushed;
          }
        } else {
          SharedIsFifo(ss, list, schedule[1..]);
        }
      case PushRecords(records) =>
        SharedIsFifo(ss, list + EncodeAll(records), schedule[1..]);
    }
  }

  /** A caller that has been served keeps its record. */
  lemma {:induction false} SharedKeepsServed(ss: seq<Session>, list: seq<Entry>, schedule: seq<Action>, k: nat)
    requires k < |ss| && ss[k].webRequest.Some?
    ensures RunShared(ss, list, schedule).sessions[k].webRequest == ss[k].webRequest
    decreases |schedule|
  {
    if schedule != [] {
      match schedule[0]
      case Act(c, e) =>
        if c < |ss| {
          var o := Next(ss[c], list, e);
          SharedKeepsServed(ss[c := o.session], o.list, schedule[1..], k);
        } else {
          SharedKeepsServed(ss, list, schedule[1..], k);
        }
      case PushRecords(records) =>
        SharedKeepsServed(ss, list + EncodeAll(records), schedule[1..], k);
    }
  }

  predicate Distinct(takers: seq<nat>) {
    forall i, j :: 0 <= i < j < |takers| ==> takers[i] != takers[j]
  }

  /** Every taker is a caller that had no record yet. */
  predicate AllUnserved(ss: seq<Session>, takers: seq<nat>) {
    forall i :: 0 <= i < |takers| ==> takers[i] < |ss| && ss[takers[i]].webRequest.None?
  }

  /** The i-th taker holds the record of the i-th removed entry. */
  predicate Served(sessions: seq<Session>, takers: seq<nat>, removed: seq<Entry>)
    requires |takers| == |removed|
  {
    forall i :: 0 <= i < |takers| ==> takers[i] < |sessions| && sessions[takers[i]].webRequest == Some(Decoded(removed[i]))
  }

  /** However the calls interleave, no caller removes twice (so no entry
      goes to two callers), only a caller not yet served removes, and each
      caller that removed an entry ends holding exactly that entry's record. */
  lemma {:induction false} SharedDeliveryIsExclusive(ss: seq<Session>, list: seq<Entry>, schedule: seq<Action>)
    ensures var r := RunShared(ss, list, schedule);
            && Distinct(r.takers)
            && AllUnserved(ss, r.takers)
            && Served(r.sessions, r.takers, r.removed)
    decreases |schedule|
  {
    if schedule != [] {
      match schedule[0]
      case Act(c, e) =>
        if c < |ss| {
          var o := Next(ss[c], list, e);
          var ss' := ss[c := o.session];
          SharedDeliveryIsExclusive(ss', o.list, schedule[1..]);
          var r' := RunShared(ss', o.list, schedule[1..]);
          if o.removed != [] {
            SharedKeepsServed(ss', o.list, schedule[1..], c);
          }
          CallerStep(ss, c, o, r');
        } else {
          SharedDeliveryIsExclusive(ss, list, schedule[1..]);
          assert RunShared(ss, list, schedule) == RunShared(ss, list, schedule[1..]);
        }
      case PushRecords(records) =>
        SharedDeliveryIsExclusive(ss, list + EncodeAll(records), schedule[1..]);
    }
  }

  /** The inductive step of SharedDeliveryIsExclusive for a step `o` of
      caller c (removing at most one entry, and only while c has no record),
      in front of the outcome r of the rest of the schedule. */
  lemma CallerStep(ss: seq<Session>, c: nat, o: Effect, r: Shared)
    requires c < |ss| && |r.sessions| == |ss| && |r.takers| == |r.removed| && |o.removed| <= 1
    requires o.removed != [] ==> ss[c].webRequest.None? && o.session.webRequest == Some(Decoded(o.removed[0]))
    requires o.removed == [] ==> o.session.webRequest == ss[c].webRequest
    requires && Distinct(r.takers) && AllUnserved(ss[c := o.session], r.takers)
             && Served(r.sessions, r.takers, r.removed)
             && (o.removed != [] ==> r.sessions[c].webRequest == o.session.webRequest)
    ensures var takers := (if o.removed == [] then [] else [c]) + r.takers;
            && |takers| == |o.removed + r.removed|
            && Distinct(takers) && AllUnserved(ss, takers)
            && Served(r.sessions, takers, o.removed + r.removed)
  {
    var ss' := ss[c := o.session];
    if o.removed != [] {
      assert o.removed == [o.removed[0]];
      PrependTaker(ss, ss', c, r.sessions, r.takers, r.removed, o.removed[0]);
    } else {
      assert [] + r.takers == r.takers && o.removed + r.removed == r.removed;
      SameRecordsKeepUnserved(ss, ss', r.takers);
    }
  }

  /** A caller without a record that takes entry x goes in front of the
      takers of the rest of the schedule. */
  lemma PrependTaker(ss: seq<Session>, ss': seq<Session>, c: nat, sessions: seq<Session>,
                     takers: seq<nat>, removed: seq<Entry>, x: Entry)
    requires c < |ss| == |ss'| && ss[c].webRequest.None? && ss'[c].webRequest.Some?
    requires forall i :: 0 <= i < |ss| && i != c ==> ss'[i] == ss[i]
    requires |takers| == |removed|
    requires Distinct(takers) && AllUnserved(ss', takers) && Served(sessions, takers, removed)
    requires c < |sessions| && sessions[c].webRequest == Some(Decoded(x))
    ensures Distinct([c] + takers) && AllUnserved(ss, [c] + takers)
    ensures Served(sessions, [c] + takers, [x] + removed)
  {
    var t, rm := [c] + takers, [x] + removed;
    forall i | 0 <= i < |takers| ensures takers[i] != c && ss[takers[i]].webRequest.None? {
      assert ss'[takers[i]].webRequest.None?;
    }
    forall i | 0 <= i < |t| ensures t[i] < |ss| && ss[t[i]].webRequest.None? {
      if i > 0 { assert t[i] == takers[i - 1]; }
    }
    forall i, j | 0 <= i < j < |t| ensures t[i] != t[j] {
      assert t[j] == takers[j - 1];
      if i > 0 { assert t[i] == takers[i - 1]; }
    }
    forall i | 0 <= i < |t| ensures t[i] < |sessions| && sessions[t[i]].webRequest == Some(Decoded(rm[i])) {
      if i > 0 { assert t[i] == takers[i - 1] && rm[i] == removed[i - 1]; }
    }
  }

  /** A step that changes no caller's record keeps every taker unserved
      before it. */
  lemma SameRecordsKeepUnserved(ss: seq<Session>, ss': seq<Session>, takers: seq<nat>)
    requires |ss| == |ss'| && forall i :: 0 <= i < |ss| ==> ss'[i].webRequest == ss[i].webRequest
    requires AllUnserved(ss', takers)
    ensures AllUnserved(ss, takers)
  {
    forall i | 0 <= i < |takers| ensures takers[i] < |ss| && ss[takers[i]].webRequest.None? {
      assert ss'[takers[i]].webRequest.None?;
    }
  }

  // ------------------------------------------------ the session as an object

  /** One Pop call in progress: the variables that Pop's closures share. */
  class PendingPop {
    const key: string
    var webRequest: Option<WebRequest>
    var cancelClosed: bool
    const hasDeadline: bool
    var looping: bool
    var unsubscribed: bool
    var done: Option<Option<Error>>

    ghost function Snapshot(): Session
      reads this
    {
      Session(webRequest, cancelClosed, hasDeadline, looping, unsubscribed, done)
    }

    constructor (key: string, timeout: Int64)
      ensures this.key == key && Snapshot() == Start(timeout)
    {
      this.key := key;
      webRequest, cancelClosed, hasDeadline := None, false, timeout > 0;
      looping, unsubscribed, done := true, false, None;
    }

    /** The select loop leaves and sends Unsubscribe. */
    method EndLoop()
      modifies this
      ensures Snapshot() == StopLoop(old(Snapshot()))
    {
      if looping {
        looping, unsubscribed := false, true;
      }
    }

    /** doPop (corrected): one atomic step against the store. */
    method Attempt(store: Store, lpopError: Option<Error>)
      modifies this, store
      ensures var o := DoPop(old(Snapshot()), old(store.List(key)), lpopError);
              && Snapshot() == o.session && store.List(key) == o.list
              && (forall k :: k != key ==> store.List(k) == old(store.List(k)))
              && store.published == old(store.published)
    {
      if webRequest.Some? {
        return;
      }
      var wr, err := LPopRecord(store, key, lpopError);
      webRequest := wr;
      if err.Some? {
        done := Some(err);
        return;
      }
      if webRequest.Some? {
        cancelClosed := true;
        EndLoop();
      }
    }

    /** The handling of one event by the receive goroutine or the select loop. */
    method Handle(store: Store, e: Event)
      modifies this, store
      ensures var o := Next(old(Snapshot()), old(store.List(key)), e);
              && Snapshot() == o.session && store.List(key) == o.list
              && (forall k :: k != key ==> store.List(k) == old(store.List(k)))
              && store.published == old(store.published)
    {
      if done.Some? {
        return;
      }
      match e
      case Subscription(count, lpopError) =>
        if count == 1 {
          Attempt(store, lpopError);
        } else if count == 0 {
          done := Some(None);
        }
      case Message(lpopError) => Attempt(store, lpopError);
      case ReceiveError(err) => done := Some(Some(err));
      case Tick(pingError) =>
        if pingError.Some? {
          EndLoop();
        }
      case Deadline =>
        if hasDeadline {
          EndLoop();
        }
      case Cancelled => EndLoop();
    }
  }

  /** One step of a Pop in progress: the event reaches the call, or another
      client pushes the records onto the same key. */
  method Perform(q: Queue, queueName: string, session: PendingPop, step: Step)
    requires Validate(q).None? && session.key == Key(q.prefix, queueName)
    modifies q.pool, session
    ensures var a := Apply(old(session.Snapshot()), old(q.pool.List(session.key)), step);
            && session.Snapshot() == a.session && q.pool.List(session.key) == a.list
            && q.pool.Published(session.key) == old(q.pool.Published(session.key)) + |a.pushed|
            && (forall k :: k != session.key ==> q.pool.List(k) == old(q.pool.List(k)))
            && (forall k :: k != session.key ==> q.pool.Published(k) == old(q.pool.Published(k)))
  {
    match step
    case Deliver(e) =>
      session.Handle(q.pool, e);
    case ConcurrentPush(records) =>
      var _ := Push(q, queueName, records, NoFault);
      assert records[..|records|] == records;
  }

  /** Pop: validate, subscribe (which may fail), then follow the trace
      until the receive goroutine reports on `done`. Returns what Pop
      returns, or Waiting when the trace ends with the call still blocked. */
  method Pop(q: Queue, queueName: string, timeout: Int64, subscribeError: Option<Error>, trace: seq<Step>)
    returns (outcome: PopOutcome)
    modifies q.pool
    ensures Validate(q).Some? ==> outcome == Returned(None, Validate(q))
    ensures Validate(q).Some? && q.pool != null ==> unchanged(q.pool)
    ensures Validate(q).None? && subscribeError.Some? ==>
              outcome == Returned(None, subscribeError) && unchanged(q.pool)
    ensures Validate(q).None? && subscribeError.None? ==>
              var key := Key(q.prefix, queueName);
              var r := RunTrace(Start(timeout), old(q.pool.List(key)), trace);
              && outcome == (if Finished(r.session) then Returned(r.session.webRequest, r.session.done.value) else Waiting)
              && q.pool.List(key) == r.list
              && q.pool.Published(key) == old(q.pool.Published(key)) + |r.pushed|
              && (forall k :: k != key ==> q.pool.List(k) == old(q.pool.List(k)))
              && (forall k :: k != key ==> q.pool.Published(k) == old(q.pool.Published(k)))
  {
    var err := Validate(q);
    if err.Some? {
      return Returned(None, err);
    }
    if subscribeError.Some? {
      return Returned(None, subscribeError);
    }
    var session := new PendingPop(Key(q.prefix, queueName), timeout);
    Follow(q, queueName, session, trace);
    if session.done.Some? {
      outcome := Returned(session.webRequest, session.done.value);
    } else {
      outcome := Waiting;
    }
  }

  /** The loops of a Pop call in progress, following the trace until the
      receive goroutine reports on `done` or the trace ends. */
  method Follow(q: Queue, queueName: string, session: PendingPop, trace: seq<Step>)
    requires Validate(q).None? && session.key == Key(q.prefix, queueName)
    modifies q.pool, session
    ensures var key := session.key;
            var r := RunTrace(old(session.Snapshot()), old(q.pool.List(key)), trace);
            && session.Snapshot() == r.session
            && q.pool.List(key) == r.list
            && q.pool.Published(key) == old(q.pool.Published(key)) + |r.pushed|
            && (forall k :: k != key ==> q.pool.List(k) == old(q.pool.List(k)))
            && (forall k :: k != key ==> q.pool.Published(k) == old(q.pool.Published(k)))
  {
    var store := q.pool;
    var key := session.key;
    ghost var total := RunTrace(session.Snapshot(), store.List(key), trace);
    ghost var pushedSoFar: seq<Entry> := [];
    TracksStart(session.Snapshot(), store.List(key), trace);
    var i := 0;
    while i < |trace| && session.done.None?
      invariant 0 <= i <= |trace|
      invariant Tracks(session.Snapshot(), store.List(key), trace[i..], pushedSoFar, total)
      invariant store.Published(key) == old(store.Published(key)) + |pushedSoFar|
      invariant forall k :: k != key ==> store.List(k) == old(store.List(k))
      invariant forall k :: k != key ==> store.Published(k) == old(store.Published(k))
      decreases |trace| - i
    {
      ghost var s0, l0 := session.Snapshot(), store.List(key);
      Perform(q, queueName, session, trace[i]);
      ghost var a := Apply(s0, l0, trace[i]);
      TracksStep(s0, l0, trace[i..], pushedSoFar, total);
      assert trace[i..][1..] == trace[i + 1..];
      pushedSoFar := pushedSoFar + a.pushed;
      i := i + 1;
    }
    TracksEnd(session.Snapshot(), store.List(key), trace[i..], pushedSoFar, total);
  }

  /** What is left of the trace leads from (s, list) to the end state of the
      whole trace, with `pushedSoFar` already pushed. */
  ghost predicate Tracks(s: Session, list: seq<Entry>, rest: seq<Step>, pushedSoFar: seq<Entry>, total: Run) {
    var r := RunTrace(s, list, rest);
    r.session == total.session && r.list == total.list && pushedSoFar + r.pushed == total.pushed
  }

  lemma TracksStart(s: Session, list: seq<Entry>, trace: seq<Step>)
    ensures Tracks(s, list, trace, [], RunTrace(s, list, trace))
  {
    assert [] + RunTrace(s, list, trace).pushed == RunTrace(s, list, trace).pushed;
  }

  lemma TracksStep(s: Session, list: seq<Entry>, rest: seq<Step>, pushedSoFar: seq<Entry>, total: Run)
    requires rest != [] && !Finished(s) && Tracks(s, list, rest, pushedSoFar, total)
    ensures var a := Apply(s, list, rest[0]);
            Tracks(a.session, a.list, rest[1..], pushedSoFar + a.pushed, total)
  {
    RunTraceApply(s, list, rest);
    var a := Apply(s, list, rest[0]);
    var r := RunTrace(a.session, a.list, rest[1..]);
    var whole := RunTrace(s, list, rest);
    assert whole.session == r.session && whole.list == r.list && whole.pushed == a.pushed + r.pushed;
    Associates(pushedSoFar, a.pushed, r.pushed);
  }

  lemma Associates(x: seq<Entry>, y: seq<Entry>, z: seq<Entry>)
    ensures x + (y + z) == (x + y) + z
  {
  }

  lemma TracksEnd(s: Session, list: seq<Entry>, rest: seq<Step>, pushedSoFar: seq<Entry>, total: Run)
    requires (rest == [] || Finished(s)) && Tracks(s, list, rest, pushedSoFar, total)
    ensures s == total.session && list == total.list && pushedSoFar == total.pushed
  {
    assert pushedSoFar + [] == pushedSoFar;
  }
}
