/**
 The bookkeeping of `EventBus` in core/infrastructure/event_system.py:
 subscriber lists per event type, the bounded publication history, and
 which callbacks a publication dispatches to. Running the callbacks
 (concurrently, on an executor, swallowing their errors) is not modelled;
 a callback is represented by its identity.
 */
module Events {
  import opened Common

  /** `EventBus._max_history` */
  const MaxHistory := 1000
  /** Default `Event.source`. */
  const DefaultSource := "system"

  datatype Priority = Low | Medium | High | Critical

  /** The numeric value of each `EventPriority` member. */
  function Level(p: Priority): (n: nat)
    ensures n <= 3
  {
    match p
    case Low => 0
    case Medium => 1
    case High => 2
    case Critical => 3
  }

  /** The levels order the priorities LOW < MEDIUM < HIGH < CRITICAL and
      tell them apart. */
  lemma PriorityOrder()
    ensures Level(Low) < Level(Medium) < Level(High) < Level(Critical)
    ensures forall p, q :: Level(p) == Level(q) ==> p == q
  {
  }

  datatype Event = Event(eventType: string, timestamp: int, data: map<string, string>,
                         priority: Priority, source: string)

  /** `Event(event_type, timestamp, data)` with the dataclass defaults. */
  function NewEvent(eventType: string, timestamp: int, data: map<string, string>): (e: Event)
    ensures e.eventType == eventType && e.timestamp == timestamp && e.data == data
    ensures e.priority == Medium && e.source == DefaultSource
  {
    Event(eventType, timestamp, data, Medium, DefaultSource)
  }

  /** The identity of a subscribed callable; Python compares callbacks with `==`. */
  datatype Callback = Callback(id: string)

  datatype EventBus = EventBus(subscribers: map<string, seq<Callback>>, history: seq<Event>)

  function NewBus(): (b: EventBus)
    ensures b.subscribers == map[] && b.history == []
  {
    EventBus(map[], [])
  }

  /** The callbacks subscribed to `eventType`, in subscription order. */
  function SubscribersOf(b: EventBus, eventType: string): seq<Callback> {
    if eventType in b.subscribers then b.subscribers[eventType] else []
  }

  /** `subscribe`: append to the type's list (created if needed); a
      callback subscribed twice is called twice. */
  function Subscribe(b: EventBus, eventType: string, cb: Callback): (r: EventBus)
    ensures SubscribersOf(r, eventType) == SubscribersOf(b, eventType) + [cb]
    ensures eventType in r.subscribers
    ensures r.subscribers - {eventType} == b.subscribers - {eventType}
    ensures r.history == b.history
  {
    b.(subscribers := b.subscribers[eventType := SubscribersOf(b, eventType) + [cb]])
  }

  /** The position of the first occurrence of `x` in `s`. */
  function IndexOf<T(==)>(s: seq<T>, x: T): (i: nat)
    requires x in s
    ensures i < |s| && s[i] == x
    ensures forall j :: 0 <= j < i ==> s[j] != x
  {
    if s[0] == x then 0 else 1 + IndexOf(s[1..], x)
  }

  /** `list.remove(x)`: drop the first occurrence of `x`. */
  function RemoveFirst<T(==)>(s: seq<T>, x: T): (r: seq<T>)
    requires x in s
    ensures |r| == |s| - 1
    ensures multiset(r) == multiset(s) - multiset{x}
    ensures var i := IndexOf(s, x); r[..i] == s[..i] && r[i..] == s[i + 1..]
  {
    var i := IndexOf(s, x);
    assert s == s[..i] + [x] + s[i + 1..];
    s[..i] + s[i + 1..]
  }

  /** `list.remove` raises `ValueError` when the callback is absent. */
  datatype BusError = NotSubscribed(eventType: string, cb: Callback)

  /** `unsubscribe`: a type without a list is left alone; otherwise the
      first occurrence of the callback is removed, and an absent callback
      is an error. */
  function Unsubscribe(b: EventBus, eventType: string, cb: Callback): (r: Result<EventBus, BusError>)
    ensures eventType !in b.subscribers ==> r == Ok(b)
    ensures eventType in b.subscribers && cb !in b.subscribers[eventType] ==>
      r == Err(NotSubscribed(eventType, cb))
    ensures eventType in b.subscribers && cb in b.subscribers[eventType] ==>
      && r.Ok?
      && eventType in r.value.subscribers
      && r.value.subscribers[eventType] == RemoveFirst(b.subscribers[eventType], cb)
      && multiset(r.value.subscribers[eventType]) == multiset(b.subscribers[eventType]) - multiset{cb}
      && r.value.subscribers - {eventType} == b.subscribers - {eventType}
      && r.value.history == b.history
  {
    if eventType !in b.subscribers then Ok(b)
    else if cb !in b.subscribers[eventType] then Err(NotSubscribed(eventType, cb))
    else Ok(b.(subscribers := b.subscribers[eventType := RemoveFirst(b.subscribers[eventType], cb)]))
  }

  datatype Publication = Publication(bus: EventBus, dispatched: seq<Callback>)

  /** The history after recording `e`: appended, and the oldest entry
      dropped when the history would exceed `MaxHistory`. */
  function Record(history: seq<Event>, e: Event): (r: seq<Event>)
    ensures |history| <= MaxHistory ==> |r| <= MaxHistory
    ensures |r| > 0 && r[|r| - 1] == e
    // a suffix of the old history followed by `e`, losing at most the oldest event
    ensures |history| < MaxHistory ==> r == history + [e]
    ensures |history| >= MaxHistory ==> r == history[1..] + [e]
  {
    var h := history + [e];
    if |h| > MaxHistory then h[1..] else h
  }

  /** `publish`: record the event in the history, with or without
      subscribers, and dispatch it to the callbacks subscribed to its type,
      in subscription order. */
  function Publish(b: EventBus, e: Event): (r: Publication)
    ensures r.dispatched == SubscribersOf(b, e.eventType)
    ensures r.bus.subscribers == b.subscribers
    ensures r.bus.history == Record(b.history, e)
  {
    Publication(EventBus(b.subscribers, Record(b.history, e)), SubscribersOf(b, e.eventType))
  }

  /** Whether an event has the given type. */
  function OfType(eventType: string): Event -> bool {
    (e: Event) => e.eventType == eventType
  }

  /** `get_event_history`: the events of one type in history order; a
      falsy (`None` or empty) type gives the whole history. */
  function History(b: EventBus, eventType: Option<string>): (r: seq<Event>)
    ensures !Truthy(eventType) ==> r == b.history
    ensures Truthy(eventType) ==>
      && (forall i :: 0 <= i < |r| ==> r[i] in b.history && r[i].eventType == eventType.value)
      && (forall i :: 0 <= i < |b.history| && b.history[i].eventType == eventType.value ==> b.history[i] in r)
  {
    if Truthy(eventType) then
      FilterMembers(b.history, OfType(eventType.value));
      Filter(b.history, OfType(eventType.value))
    else b.history
  }

  // ---- properties of the bus ----

  /** Publishing while the history has room adds the event at the end of
      the history of its own type and of the whole history, and leaves the
      history of every other type as it was. */
  lemma PublishThenHistory(b: EventBus, e: Event, t: string)
    requires |b.history| < MaxHistory && t != ""
    ensures History(Publish(b, e).bus, Some(t))
         == History(b, Some(t)) + (if e.eventType == t then [e] else [])
  {
    FilterAppend(b.history, [e], OfType(t));
    assert [e][..0] == [];
  }

  /** The filtered history of a history made of two stretches is that of the
      first stretch followed by that of the second: `get_event_history`
      keeps history order and every occurrence. */
  lemma HistoryAppend(subscribers: map<string, seq<Callback>>, h1: seq<Event>, h2: seq<Event>, t: Option<string>)
    ensures History(EventBus(subscribers, h1 + h2), t)
         == History(EventBus(subscribers, h1), t) + History(EventBus(subscribers, h2), t)
  {
    if Truthy(t) {
      FilterAppend(h1, h2, OfType(t.value));
    }
  }

  /** A one-event history yields that event exactly when it matches the type. */
  lemma HistoryOfOne(subscribers: map<string, seq<Callback>>, e: Event, t: Option<string>)
    ensures History(EventBus(subscribers, [e]), t) == (if !Truthy(t) || e.eventType == t.value then [e] else [])
  {
    assert [e][..0] == [];
  }

  /** The history never grows past `MaxHistory`, however many events are published. */
  lemma {:induction false} HistoryStaysBounded(b: EventBus, es: seq<Event>)
    requires |b.history| <= MaxHistory
    ensures |PublishAll(b, es).history| <= MaxHistory
    decreases |es|
  {
    if |es| > 0 {
      HistoryStaysBounded(Publish(b, es[0]).bus, es[1..]);
    }
  }

  /** Publishes each event of `es` in turn. */
  function PublishAll(b: EventBus, es: seq<Event>): EventBus
    decreases |es|
  {
    if |es| == 0 then b else PublishAll(Publish(b, es[0]).bus, es[1..])
  }

  /** A publication reaches a new subscriber of its type last, and a
      subscriber of another type not at all. */
  lemma SubscribeThenPublish(b: EventBus, t: string, cb: Callback, e: Event)
    ensures var d := Publish(Subscribe(b, t, cb), e).dispatched;
      && (e.eventType == t ==> d == SubscribersOf(b, t) + [cb])
      && (e.eventType != t ==> d == SubscribersOf(b, e.eventType))
  {
  }

  /** Unsubscribing a callback subscribed once restores the type's list. */
  lemma SubscribeThenUnsubscribe(b: EventBus, t: string, cb: Callback)
    requires cb !in SubscribersOf(b, t)
    ensures var r := Unsubscribe(Subscribe(b, t, cb), t, cb);
      r.Ok? && SubscribersOf(r.value, t) == SubscribersOf(b, t)
  {
    var s := SubscribersOf(b, t);
    var s' := s + [cb];
    assert IndexOf(s', cb) == |s| by {
      assert forall j :: 0 <= j < |s| ==> s'[j] != cb;
    }
    assert s'[..|s|] == s;
  }
}
