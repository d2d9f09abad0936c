/**
 * The event half of the in-process client worker: a bounded queue towards a consumer that may take
 * events or close at any moment, a counter of skipped events, and the markers that report it.
 */
module Forwarding {
  import opened Protocol
  import opened Seqs

  datatype Notification =
    | TurnCompleted(params: string)
    | ItemCompleted(params: string)
    | AgentMessageDelta(params: string)
    | PlanDelta(params: string)
    | ReasoningSummaryTextDelta(params: string)
    | ReasoningTextDelta(params: string)
    | OtherNotification(name: string, params: string)

  datatype Request =
    | ChatgptAuthTokensRefresh(id: RequestId)
    | OtherRequest(id: RequestId, name: string)

  datatype Event = Lagged(skipped: nat) | ServerNotification(notification: Notification) | ServerRequest(request: Request)

  predicate RequiresDelivery(e: Event) {
    e.ServerNotification? && !e.notification.OtherNotification?
  }

  predicate IsTokenRefresh(e: Event) {
    e.ServerRequest? && e.request.ChatgptAuthTokensRefresh?
  }

  const USIZE_MAX := 0xFFFF_FFFF_FFFF_FFFF

  function SaturatingIncrement(n: nat): nat {
    if n < USIZE_MAX then n + 1 else n
  }

  /** An error answer to a server request. */
  datatype Failure = Failure(request: Request, code: int)

  const UNSUPPORTED := -32000
  const OVERLOADED := -32001

  // ----- what a run leaves behind

  /** What enters the queue: a marker of the forwarder's own, or an event of the server. */
  datatype Out = Marker(skipped: nat) | Forwarded(event: Event)

  /** What becomes of an event taken from the server. A marker may be flushed ahead of it. */
  datatype Fate = Refused | Sent(flushed: bool) | Dropped(flushed: bool)

  datatype Ledger = Ledger(sent: seq<Out>, skipped: nat, failures: seq<Failure>)

  const EMPTY := Ledger([], 0, [])

  function Flush(v: Ledger, flushed: bool): Ledger {
    if flushed then v.(sent := v.sent + [Marker(v.skipped)], skipped := 0) else v
  }

  function Overload(e: Event): seq<Failure> {
    if e.ServerRequest? then [Failure(e.request, OVERLOADED)] else []
  }

  function Recorded(v: Ledger, e: Event, f: Fate): Ledger {
    match f
    case Refused => if e.ServerRequest? then v.(failures := v.failures + [Failure(e.request, UNSUPPORTED)]) else v
    case Sent(flushed) =>
      var w := Flush(v, flushed);
      w.(sent := w.sent + [Forwarded(e)])
    case Dropped(flushed) =>
      var w := Flush(v, flushed);
      w.(skipped := SaturatingIncrement(w.skipped), failures := w.failures + Overload(e))
  }

  /** The fates open to an event: which of them happens is up to the consumer. */
  predicate Legal(v: Ledger, e: Event, f: Fate) {
    match f
    case Refused => IsTokenRefresh(e)
    case Sent(flushed) => !IsTokenRefresh(e) && flushed == (v.skipped > 0)
    case Dropped(flushed) => !IsTokenRefresh(e) && !RequiresDelivery(e) && (flushed ==> v.skipped > 0)
  }

  function Play(events: seq<Event>, fates: seq<Fate>): Ledger
    requires |events| == |fates|
  {
    if events == [] then EMPTY
    else Recorded(Play(events[..|events| - 1], fates[..|fates| - 1]), events[|events| - 1], fates[|fates| - 1])
  }

  predicate LegalRun(events: seq<Event>, fates: seq<Fate>) {
    |events| == |fates| &&
    (events != [] ==>
       && LegalRun(events[..|events| - 1], fates[..|fates| - 1])
       && Legal(Play(events[..|events| - 1], fates[..|fates| - 1]), events[|events| - 1], fates[|fates| - 1]))
  }

  lemma RunSnoc(events: seq<Event>, fates: seq<Fate>, e: Event, f: Fate)
    requires LegalRun(events, fates) && Legal(Play(events, fates), e, f)
    ensures LegalRun(events + [e], fates + [f])
    ensures Play(events + [e], fates + [f]) == Recorded(Play(events, fates), e, f)
  {
  }

  // ----- lag accounting

  /** The events the forwarder is asked to deliver. */
  function Offered(events: seq<Event>): seq<Event> {
    Filter(events, IsOffered)
  }

  predicate IsOffered(e: Event) {
    !IsTokenRefresh(e)
  }

  lemma OfferedSnoc(events: seq<Event>, e: Event)
    ensures Offered(events + [e]) == Offered(events) + if IsTokenRefresh(e) then [] else [e]
  {
    FilterAppend(events, [e], IsOffered);
  }

  /** How many offered events a stretch of the queue's history accounts for. */
  function Covered(sent: seq<Out>): nat {
    if sent == [] then 0
    else
      var last := sent[|sent| - 1];
      Covered(sent[..|sent| - 1]) + if last.Marker? then last.skipped else 1
  }

  /** How often an event was dropped while the counter stood at its maximum. */
  function Overflow(events: seq<Event>, fates: seq<Fate>): nat
    requires |events| == |fates|
  {
    if events == [] then 0
    else
      var es, fs, f := events[..|events| - 1], fates[..|fates| - 1], fates[|fates| - 1];
      Overflow(es, fs) + if f.Dropped? && Flush(Play(es, fs), f.flushed).skipped >= USIZE_MAX then 1 else 0
  }

  lemma CoveredStep(v: Ledger, e: Event, f: Fate)
    requires Legal(v, e, f)
    ensures var w := Recorded(v, e, f);
            Covered(w.sent) + w.skipped + (if f.Dropped? && Flush(v, f.flushed).skipped >= USIZE_MAX then 1 else 0) ==
            Covered(v.sent) + v.skipped + (if IsTokenRefresh(e) then 0 else 1)
  {
  }

  /** Every offered event is forwarded, told by a marker, still in the counter, or lost to its saturation. */
  lemma {:induction false} InputsAreConserved(events: seq<Event>, fates: seq<Fate>)
    requires LegalRun(events, fates)
    ensures Covered(Play(events, fates).sent) + Play(events, fates).skipped + Overflow(events, fates) == |Offered(events)|
  {
    if events != [] {
      var es, fs, e, f := events[..|events| - 1], fates[..|fates| - 1], events[|events| - 1], fates[|fates| - 1];
      InputsAreConserved(es, fs);
      OfferedSnoc(es, e);
      assert es + [e] == events;
      CoveredStep(Play(es, fs), e, f);
    }
  }

  lemma {:induction false} SkippedIsBounded(events: seq<Event>, fates: seq<Fate>)
    requires LegalRun(events, fates)
    ensures Play(events, fates).skipped <= |events|
    ensures |events| <= 18446744073709551615 ==> Overflow(events, fates) == 0
  {
    if events != [] {
      SkippedIsBounded(events[..|events| - 1], fates[..|fates| - 1]);
    }
  }

  /** An entry that forwards an event stands at that event's own input position. */
  ghost predicate InPlace(sent: seq<Out>, offered: seq<Event>, i: nat)
    requires i < |sent|
  {
    sent[i].Forwarded? ==> Covered(sent[..i]) < |offered| && offered[Covered(sent[..i])] == sent[i].event
  }

  lemma InPlaceExtends(sent: seq<Out>, more: seq<Out>, offered: seq<Event>, rest: seq<Event>, i: nat)
    requires i < |sent| && InPlace(sent, offered, i)
    ensures InPlace(sent + more, offered + rest, i)
  {
    assert (sent + more)[..i] == sent[..i];
  }

  lemma NewEntryInPlace(v: Ledger, e: Event, f: Fate, offered: seq<Event>, i: nat)
    requires Legal(v, e, f) && Covered(v.sent) + v.skipped == |offered|
    requires |v.sent| <= i < |Recorded(v, e, f).sent|
    ensures InPlace(Recorded(v, e, f).sent, offered + [e], i)
  {
  }

  /**
   * The input index of every forwarded event is the number of events forwarded before it plus the sum of
   * the markers before it, unless the counter has ever saturated.
   */
  lemma {:induction false} PositionsAreExact(events: seq<Event>, fates: seq<Fate>, i: nat)
    requires LegalRun(events, fates) && Overflow(events, fates) == 0 && i < |Play(events, fates).sent|
    ensures InPlace(Play(events, fates).sent, Offered(events), i)
  {
    var es, fs, e, f := events[..|events| - 1], fates[..|fates| - 1], events[|events| - 1], fates[|fates| - 1];
    var v, now := Play(es, fs), Play(events, fates);
    OfferedSnoc(es, e);
    assert es + [e] == events;
    if i < |v.sent| {
      PositionsAreExact(es, fs, i);
      InPlaceExtends(v.sent, now.sent[|v.sent|..], Offered(es), if IsTokenRefresh(e) then [] else [e], i);
      assert now.sent == v.sent + now.sent[|v.sent|..];
    } else {
      InputsAreConserved(es, fs);
      NewEntryInPlace(v, e, f, Offered(es), i);
    }
  }

  // ----- the lossless tier and the disposition of requests

  /** The server's events that entered the queue. */
  function Delivered(sent: seq<Out>): seq<Event> {
    if sent == [] then []
    else
      var last := sent[|sent| - 1];
      Delivered(sent[..|sent| - 1]) + if last.Forwarded? then [last.event] else []
  }

  lemma DeliveredSnoc(sent: seq<Out>, o: Out)
    ensures Delivered(sent + [o]) == Delivered(sent) + if o.Forwarded? then [o.event] else []
  {
  }

  function IfSent(e: Event, f: Fate): seq<Event> {
    if f.Sent? then [e] else []
  }

  lemma DeliveredStep(v: Ledger, e: Event, f: Fate)
    ensures Delivered(Recorded(v, e, f).sent) == Delivered(v.sent) + IfSent(e, f)
  {
  }

  /** The notifications that make up the transcript or end a turn. */
  predicate IsLossless(e: Event) {
    && e.ServerNotification?
    && (|| e.notification.TurnCompleted? || e.notification.ItemCompleted? || e.notification.AgentMessageDelta?
        || e.notification.PlanDelta? || e.notification.ReasoningSummaryTextDelta? || e.notification.ReasoningTextDelta?)
  }

  lemma LosslessStep(v: Ledger, e: Event, f: Fate)
    requires Legal(v, e, f)
    ensures Filter(IfSent(e, f), IsLossless) == Filter([e], IsLossless)
  {
    assert IsLossless(e) ==> RequiresDelivery(e);
    assert !IsLossless(e) ==> Filter([e], IsLossless) == [] && Filter(IfSent(e, f), IsLossless) == [];
  }

  lemma DeliveredAppends(events: seq<Event>, fates: seq<Fate>)
    requires events != [] && |events| == |fates|
    ensures Delivered(Play(events, fates).sent) ==
            Delivered(Play(events[..|events| - 1], fates[..|fates| - 1]).sent) + IfSent(events[|events| - 1], fates[|fates| - 1])
  {
    DeliveredStep(Play(events[..|events| - 1], fates[..|fates| - 1]), events[|events| - 1], fates[|fates| - 1]);
  }

  /** Every one of the six transcript and completion notifications is delivered, once and in input order. */
  lemma {:induction false} LosslessTierIsDelivered(events: seq<Event>, fates: seq<Fate>)
    requires LegalRun(events, fates)
    ensures Filter(Delivered(Play(events, fates).sent), IsLossless) == Filter(events, IsLossless)
  {
    if events != [] {
      var es, fs, e, f := events[..|events| - 1], fates[..|fates| - 1], events[|events| - 1], fates[|fates| - 1];
      LosslessTierIsDelivered(es, fs);
      LosslessStep(Play(es, fs), e, f);
      DeliveredAppends(events, fates);
      FilterAppend(Delivered(Play(es, fs).sent), IfSent(e, f), IsLossless);
      assert es + [e] == events;
      FilterAppend(es, [e], IsLossless);
    }
  }

  /** Any other event but the refused one can be dropped: it then counts as skipped, and is in the queue neither now nor later. */
  lemma OthersMayBeDropped(events: seq<Event>, fates: seq<Fate>, e: Event)
    requires LegalRun(events, fates) && !IsLossless(e) && !(e.ServerRequest? && e.request.ChatgptAuthTokensRefresh?)
    ensures LegalRun(events + [e], fates + [Dropped(false)])
    ensures Play(events + [e], fates + [Dropped(false)]).sent == Play(events, fates).sent
  {
    RunSnoc(events, fates, e, Dropped(false));
  }

  function Requests(events: seq<Event>): seq<Request> {
    if events == [] then []
    else Requests(events[..|events| - 1]) + RequestIn(events[|events| - 1])
  }

  function RequestIn(e: Event): seq<Request> {
    if e.ServerRequest? then [e.request] else []
  }

  lemma RequestsSnoc(events: seq<Event>, e: Event)
    ensures Requests(events + [e]) == Requests(events) + RequestIn(e)
  {
  }

  function Failed(failures: seq<Failure>): seq<Request> {
    if failures == [] then [] else Failed(failures[..|failures| - 1]) + [failures[|failures| - 1].request]
  }

  lemma FailedSnoc(failures: seq<Failure>, x: Failure)
    ensures Failed(failures + [x]) == Failed(failures) + [x.request]
  {
  }

  /** The requests that a ledger accounts for. */
  function Disposed(v: Ledger): multiset<Request> {
    multiset(Requests(Delivered(v.sent))) + multiset(Failed(v.failures))
  }

  lemma Exchange(a: multiset<Request>, b: multiset<Request>, c: multiset<Request>)
    ensures (a + b) + c == (a + c) + b
  {
  }

  lemma SentRequest(v: Ledger, e: Event, flushed: bool)
    ensures Disposed(Recorded(v, e, Sent(flushed))) == Disposed(v) + multiset(RequestIn(e))
  {
    var w := Recorded(v, e, Sent(flushed));
    DeliveredStep(v, e, Sent(flushed));
    RequestsSnoc(Delivered(v.sent), e);
    assert Requests(Delivered(w.sent)) == Requests(Delivered(v.sent)) + RequestIn(e);
    assert w.failures == v.failures;
    Exchange(multiset(Requests(Delivered(v.sent))), multiset(RequestIn(e)), multiset(Failed(v.failures)));
  }

  lemma FailedRequest(v: Ledger, e: Event, f: Fate)
    requires !f.Sent? && e.ServerRequest?
    ensures Disposed(Recorded(v, e, f)) == Disposed(v) + multiset(RequestIn(e))
  {
    DeliveredStep(v, e, f);
    assert Delivered(Recorded(v, e, f).sent) == Delivered(v.sent);
    FailedSnoc(v.failures, Failure(e.request, if f.Refused? then UNSUPPORTED else OVERLOADED));
  }

  lemma NoRequest(v: Ledger, e: Event, f: Fate)
    requires !f.Sent? && !e.ServerRequest?
    ensures Disposed(Recorded(v, e, f)) == Disposed(v)
  {
    DeliveredStep(v, e, f);
    assert Delivered(Recorded(v, e, f).sent) == Delivered(v.sent);
    assert Recorded(v, e, f).failures == v.failures;
  }

  lemma RequestStep(v: Ledger, e: Event, f: Fate)
    ensures Disposed(Recorded(v, e, f)) == Disposed(v) + multiset(RequestIn(e))
  {
    if f.Sent? {
      SentRequest(v, e, f.flushed);
    } else if e.ServerRequest? {
      FailedRequest(v, e, f);
    } else {
      NoRequest(v, e, f);
    }
  }

  /** Every server request is either in the queue's history or failed, never both and never neither. */
  lemma {:induction false} RequestsAreDisposed(events: seq<Event>, fates: seq<Fate>)
    requires LegalRun(events, fates)
    ensures multiset(Requests(events)) == Disposed(Play(events, fates))
  {
    if events != [] {
      var es, fs, e, f := events[..|events| - 1], fates[..|fates| - 1], events[|events| - 1], fates[|fates| - 1];
      RequestsAreDisposed(es, fs);
      RequestStep(Play(es, fs), e, f);
    }
  }

  /** Token refreshes, and only they, are failed as unsupported; all other failures report the overload. */
  lemma {:induction false} FailureCodes(events: seq<Event>, fates: seq<Fate>, x: Failure)
    requires LegalRun(events, fates) && x in Play(events, fates).failures
    ensures x.code == if x.request.ChatgptAuthTokensRefresh? then -32000 else -32001
    ensures x.request in Requests(events)
  {
    var es, fs, e := events[..|events| - 1], fates[..|fates| - 1], events[|events| - 1];
    if x in Play(es, fs).failures {
      FailureCodes(es, fs, x);
    }
  }

  // ----- the worker

  /** The event that the consumer reads for an entry. */
  function Shown(o: Out): Event {
    match o
    case Marker(n) => Lagged(n)
    case Forwarded(e) => e
  }

  function ShownAll(sent: seq<Out>): (events: seq<Event>)
    ensures |events| == |sent|
    ensures forall i :: 0 <= i < |sent| ==> events[i] == Shown(sent[i])
  {
    seq(|sent|, i requires 0 <= i < |sent| => Shown(sent[i]))
  }

  lemma ShownSnoc(sent: seq<Out>, o: Out)
    ensures ShownAll(sent + [o]) == ShownAll(sent) + [Shown(o)]
  {
  }

  /** Markers stand for no transcript or completion notification. */
  lemma {:induction false} ShownTier(sent: seq<Out>)
    ensures Filter(ShownAll(sent), IsLossless) == Filter(Delivered(sent), IsLossless)
  {
    if sent == [] {
      assert ShownAll(sent) == [];
    } else {
      var init, o := sent[..|sent| - 1], sent[|sent| - 1];
      ShownTier(init);
      assert sent == init + [o];
      ShownSnoc(init, o);
      DeliveredSnoc(init, o);
      FilterAppend(ShownAll(init), [Shown(o)], IsLossless);
      if o.Forwarded? {
        FilterAppend(Delivered(init), [o.event], IsLossless);
      } else {
        assert Filter([Shown(o)], IsLossless) == [];
        assert Delivered(sent) == Delivered(init);
      }
    }
  }

  /** Markers stand for no request. */
  lemma {:induction false} ShownRequests(sent: seq<Out>)
    ensures Requests(ShownAll(sent)) == Requests(Delivered(sent))
  {
    if sent == [] {
      assert ShownAll(sent) == [];
    } else {
      var init, o := sent[..|sent| - 1], sent[|sent| - 1];
      ShownRequests(init);
      assert sent == init + [o];
      ShownSnoc(init, o);
      DeliveredSnoc(init, o);
      RequestsSnoc(ShownAll(init), Shown(o));
      if o.Forwarded? {
        RequestsSnoc(Delivered(init), o.event);
      } else {
        assert Requests(ShownAll(sent)) == Requests(ShownAll(init));
        assert Delivered(sent) == Delivered(init);
      }
    }
  }

  datatype SendResult = Accepted | Full | Closed

  datatype ForwardEventResult = Continue | DisableStream

  class Worker {
    const capacity: nat
    var queue: seq<Event>
    var open: bool
    var enabled: bool
    var skipped: nat
    var failures: seq<Failure>
    ghost var received: seq<Event>
    ghost var sent: seq<Out>
    ghost var events: seq<Event>
    ghost var fates: seq<Fate>

    /** The queue is bounded, and it and what the consumer has read are everything that was ever sent. */
    ghost predicate ChannelValid()
      reads this
    {
      1 <= capacity && |queue| <= capacity && ShownAll(sent) == received + queue
    }

    /**
     * All state follows from the events taken and their fates. A stream that was disabled may
     * have put out one more marker, for an event that found the channel closed.
     */
    ghost predicate Valid()
      reads this
    {
      && ChannelValid() && LegalRun(events, fates) && (!enabled ==> !open)
      && (Ledger(sent, skipped, failures) == Play(events, fates)
          || (!enabled && Ledger(sent, skipped, failures) == Flush(Play(events, fates), true)))
    }

    constructor (channelCapacity: nat)
      ensures Valid() && open && enabled && events == [] && queue == [] && failures == []
      ensures capacity == if channelCapacity < 1 then 1 else channelCapacity
    {
      capacity := if channelCapacity < 1 then 1 else channelCapacity;
      queue, open, enabled, skipped, failures := [], true, true, 0, [];
      received, sent, events, fates := [], [], [], [];
    }

    /** At any moment the consumer may read some events, and may close the channel for good. */
    method ConsumerMoves()
      requires ChannelValid()
      modifies `queue, `open, `received
      ensures ChannelValid() && received + queue == old(received + queue)
      ensures open ==> old(open)
    {
      assert 0 <= 0 <= |queue|;
      var k :| 0 <= k <= |queue|;
      received, queue := received + queue[..k], queue[k..];
      var closes: bool := *;
      open := open && !closes;
    }

    /** What a full channel waits for: the consumer reads an event or closes. */
    method ConsumerYields()
      requires ChannelValid() && |queue| == capacity
      modifies `queue, `open, `received
      ensures ChannelValid() && received + queue == old(received + queue)
      ensures open ==> old(open) && |queue| < capacity
    {
      var closes: bool := *;
      if closes {
        open := false;
      } else {
        received, queue := received + queue[..1], queue[1..];
      }
    }

    method Push(o: Out)
      requires ChannelValid() && |queue| < capacity
      modifies `queue, `sent
      ensures ChannelValid() && sent == old(sent) + [o]
    {
      queue := queue + [Shown(o)];
      sent := sent + [o];
      assert ShownAll(sent) == old(ShownAll(sent)) + [Shown(o)];
    }

    method TrySend(o: Out) returns (result: SendResult)
      requires ChannelValid()
      modifies `queue, `open, `received, `sent
      ensures ChannelValid() && (open ==> old(open))
      ensures result.Accepted? ==> sent == old(sent) + [o]
      ensures !result.Accepted? ==> sent == old(sent)
      ensures result.Closed? ==> !open
      ensures result.Full? ==> open && |queue| == capacity
    {
      ConsumerMoves();
      if !open {
        return Closed;
      }
      if |queue| == capacity {
        return Full;
      }
      Push(o);
      return Accepted;
    }

    /** Waits until there is room, or the channel is closed. */
    method Send(o: Out) returns (result: SendResult)
      requires ChannelValid()
      modifies `queue, `open, `received, `sent
      ensures ChannelValid() && (open ==> old(open))
      ensures result.Accepted? ==> sent == old(sent) + [o]
      ensures !result.Accepted? ==> result.Closed? && sent == old(sent) && !open
    {
      ConsumerMoves();
      if open && |queue| == capacity {
        ConsumerYields();
      }
      if !open {
        return Closed;
      }
      Push(o);
      return Accepted;
    }

    method Drop(event: Event)
      modifies `skipped, `failures
      ensures skipped == SaturatingIncrement(old(skipped)) && failures == old(failures) + Overload(event)
    {
      skipped := SaturatingIncrement(skipped);
      if event.ServerRequest? {
        failures := failures + [Failure(event.request, OVERLOADED)];
      }
    }

    /** The marker for a gap, ahead of an event. Without room for it, a best-effort event is dropped too. */
    method FlushMarker(event: Event) returns (result: SendResult)
      requires ChannelValid() && skipped > 0
      modifies `queue, `open, `received, `sent, `skipped
      ensures ChannelValid() && (open ==> old(open))
      ensures result.Accepted? ==> sent == old(sent) + [Marker(old(skipped))] && skipped == 0
      ensures !result.Accepted? ==> sent == old(sent) && skipped == old(skipped)
      ensures result.Full? ==> !RequiresDelivery(event) && open && |queue| == capacity
      ensures result.Closed? ==> !open
    {
      if RequiresDelivery(event) {
        result := Send(Marker(skipped));
      } else {
        result := TrySend(Marker(skipped));
      }
      if result.Accepted? {
        skipped := 0;
      }
    }

    ghost method Settle(event: Event, fate: Fate)
      requires LegalRun(events, fates) && Legal(Play(events, fates), event, fate) && ChannelValid() && enabled
      requires Ledger(sent, skipped, failures) == Recorded(Play(events, fates), event, fate)
      modifies `events, `fates
      ensures Valid() && events == old(events) + [event] && fates == old(fates) + [fate]
    {
      RunSnoc(events, fates, event, fate);
      events, fates := events + [event], fates + [fate];
    }

    method ForwardInProcessEvent(event: Event) returns (result: ForwardEventResult)
      requires Valid() && enabled && !IsTokenRefresh(event)
      modifies this
      ensures enabled && (open ==> old(open))
      ensures result.Continue? ==> Valid() && events == old(events) + [event] && |fates| == |events|
      ensures result.Continue? && fates[|fates| - 1].Dropped? ==> open && |queue| == capacity
      ensures result.DisableStream? ==> ChannelValid() && !open && events == old(events) && fates == old(fates)
      ensures result.DisableStream? ==>
                || Ledger(sent, skipped, failures) == Play(events, fates)
                || Ledger(sent, skipped, failures) == Flush(Play(events, fates), true)
    {
      ghost var flushed := false;
      if skipped > 0 {
        var marker := FlushMarker(event);
        if marker.Full? {
          Drop(event);
          Settle(event, Dropped(false));
          return Continue;
        }
        if marker.Closed? {
          return DisableStream;
        }
        flushed := true;
      }
      if RequiresDelivery(event) {
        var sending := Send(Forwarded(event));
        if sending.Closed? {
          return DisableStream;
        }
        Settle(event, Sent(flushed));
        return Continue;
      }
      var sending := TrySend(Forwarded(event));
      match sending
      case Accepted =>
        Settle(event, Sent(flushed));
        return Continue;
      case Full =>
        Drop(event);
        Settle(event, Dropped(flushed));
        return Continue;
      case Closed =>
        return DisableStream;
    }

    /** One event in the worker loop. */
    method TakeEvent(event: Event)
      requires Valid() && enabled
      modifies this
      ensures Valid() && (open ==> enabled && old(open))
      ensures events == if enabled then old(events) + [event] else old(events)
    {
      if IsTokenRefresh(event) {
        failures := failures + [Failure(event.request, UNSUPPORTED)];
        Settle(event, Refused);
      } else {
        var result := ForwardInProcessEvent(event);
        if result.DisableStream? {
          enabled := false;
        }
      }
    }

    /** The worker over any stream of events. What it promises holds as long as the consumer has not closed. */
    method TakeEvents(source: seq<Event>)
      requires Valid() && enabled && events == []
      modifies this
      ensures Valid() && (open ==> events == source)
      ensures open ==> Filter(received + queue, IsLossless) == Filter(source, IsLossless)
      ensures open ==> multiset(Requests(source)) == multiset(Requests(received + queue)) + multiset(Failed(failures))
      ensures open && |source| <= 18446744073709551615 ==>
                && Covered(sent) + skipped == |Offered(source)|
                && forall i :: 0 <= i < |sent| ==> InPlace(sent, Offered(source), i)
    {
      var n := 0;
      while n < |source| && enabled
        invariant n <= |source| && Valid()
        invariant enabled ==> events == source[..n]
        invariant open ==> enabled
      {
        TakeEvent(source[n]);
        n := n + 1;
      }
      if enabled {
        assert source[..n] == source;
        InputsAreConserved(events, fates);
        SkippedIsBounded(events, fates);
        LosslessTierIsDelivered(events, fates);
        RequestsAreDisposed(events, fates);
        ShownTier(sent);
        ShownRequests(sent);
        if |source| <= USIZE_MAX {
          forall i | 0 <= i < |sent|
            ensures InPlace(sent, Offered(source), i)
          {
            PositionsAreExact(events, fates, i);
          }
        }
      }
    }
  }
}
