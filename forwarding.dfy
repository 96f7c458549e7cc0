/** Event forwarding: what the wrapper registered for an application listener
    hands that listener when the socket fires, and the session's bookkeeping of
    the application listeners per event type. */
module Forwarding {
  import opened Interceptors
  import opened Pipeline

  const MessageType: string := "message"

  /** An application listener: a plain function, or an object that may or
      may not carry a `handleEvent` method. `id` stands for its identity. */
  datatype Listener =
    | FunctionListener(id: nat)
    | ObjectListener(id: nat, hasHandleEvent: bool)

  /** An event as the listener sees it: the payload and every other field. */
  datatype Event = Event(data: string, fields: map<string, string>)

  datatype CallStyle = Called | HandleEvent

  /** One delivery of one event to one listener. */
  datatype Invocation = Invocation(listener: Listener, event: Event, style: CallStyle)

  /** Whether a listener can be reached at all: an object without
      `handleEvent` is silently skipped. */
  predicate Reachable(l: Listener) {
    l.FunctionListener? || l.hasHandleEvent
  }

  function Invoke(l: Listener, e: Event): (d: Option<Invocation>)
    ensures d.Some? <==> Reachable(l)
    ensures d.Some? ==> d.value.listener == l && d.value.event == e
    ensures d.Some? ==> (d.value.style == Called <==> l.FunctionListener?)
  {
    match l
    case FunctionListener(_) => Some(Invocation(l, e, Called))
    case ObjectListener(_, hasHandleEvent) =>
      if hasHandleEvent then Some(Invocation(l, e, HandleEvent)) else None
  }

  /** The wrapper's decision for one native event fired at it: a "message"
      event goes through the inbound pipeline of the bound interceptors and is
      handed on, carrying the transformed payload, only if that payload is
      non-empty; any other event is handed on as it is. */
  function Deliver(bound: seq<Interceptor>, eventType: string, l: Listener, e: Event): (d: Option<Invocation>)
    ensures d.Some? ==> d.value.listener == l && Reachable(l)
    ensures d.Some? && eventType != MessageType ==> d.value.event == e
    ensures d.Some? && eventType == MessageType ==> d.value.event.fields == e.fields && d.value.event.data != ""
  {
    if eventType == MessageType then
      var payload := Transform(HooksOf(bound, Incoming), e.data);
      if payload != "" then Invoke(l, e.(data := payload)) else None
    else Invoke(l, e)
  }

  /** Events other than "message" never touch the pipeline: their delivery
      is the same whatever interceptors are bound. */
  lemma OtherEventsPassThrough(bound: seq<Interceptor>, eventType: string, l: Listener, e: Event)
    requires eventType != MessageType
    ensures Deliver(bound, eventType, l, e) == Deliver([], eventType, l, e)
    ensures Deliver(bound, eventType, l, e) == Invoke(l, e)
  {
  }

  /** A "message" event reaches a reachable listener exactly when the
      pipeline's payload is non-empty, and then with that payload in place of
      the original one and every other field kept. */
  lemma MessageDelivery(bound: seq<Interceptor>, l: Listener, e: Event)
    ensures var payload := LastHookOutput(HooksOf(bound, Incoming), e.data);
            var d := Deliver(bound, MessageType, l, e);
            && (d.Some? <==> Reachable(l) && payload != "")
            && (d.Some? ==> d.value.event == Event(payload, e.fields))
  {
    TransformIsLastHook(HooksOf(bound, Incoming), e.data);
  }

  /** A failing `message` hook leaves the payload as it was: the listener is
      handed an event equal to the native one, as events are represented
      here, or nothing when its own payload is empty. */
  lemma FailingHookDeliversOriginal(bound: seq<Interceptor>, l: Listener, e: Event, k: nat)
    requires k < |bound| && bound[k].message.Some? && bound[k].message.value(e.data).Fail?
    ensures Deliver(bound, MessageType, l, e) == if e.data != "" then Invoke(l, e) else None
  {
    FailureFallsBackToOriginal(HooksOf(bound, Incoming), e.data, k);
  }

  /** With no bound `message` hook, an empty message is still dropped. */
  lemma EmptyMessageDroppedWithoutHooks(bound: seq<Interceptor>, l: Listener, e: Event)
    requires forall k :: 0 <= k < |bound| ==> bound[k].message.None?
    requires e.data == ""
    ensures Deliver(bound, MessageType, l, e) == None
  {
    NoHookIsIdentity(HooksOf(bound, Incoming), e.data);
  }

  // The listener bookkeeping: a map from event type to the set of
  // application listeners registered for it.

  type ListenerMap = map<string, set<Listener>>

  /** No type is kept with an empty set. */
  predicate NoEmptySets(m: ListenerMap) {
    forall t :: t in m ==> m[t] != {}
  }

  /** `addEventListener`'s effect on the map. */
  function AddListener(m: ListenerMap, t: string, l: Listener): (r: ListenerMap)
    ensures r.Keys == m.Keys + {t}
    ensures l in r[t]
    ensures r[t] == if t in m then m[t] + {l} else {l}
    ensures forall u :: u in m && u != t ==> r[u] == m[u]
    ensures NoEmptySets(m) ==> NoEmptySets(r)
  {
    m[t := (if t in m then m[t] else {}) + {l}]
  }

  /** `removeEventListener`'s effect on the map. */
  function RemoveListener(m: ListenerMap, t: string, l: Listener): (r: ListenerMap)
    ensures t in r <==> t in m && m[t] - {l} != {}
    ensures t in r ==> r[t] == m[t] - {l} && l !in r[t]
    ensures forall u :: u != t ==> (u in r <==> u in m)
    ensures forall u :: u in m && u != t ==> r[u] == m[u]
    ensures NoEmptySets(m) ==> NoEmptySets(r)
  {
    if t !in m then m
    else if m[t] - {l} == {} then m - {t}
    else m[t := m[t] - {l}]
  }

  /** The map keeps one entry per listener however often it is added. */
  lemma AddListenerIdempotent(m: ListenerMap, t: string, l: Listener)
    ensures AddListener(AddListener(m, t, l), t, l) == AddListener(m, t, l)
  {
  }

  /** Removing a listener undoes adding it, when it was not there before. */
  lemma RemoveUndoesAdd(m: ListenerMap, t: string, l: Listener)
    requires NoEmptySets(m)
    requires t in m ==> l !in m[t]
    ensures RemoveListener(AddListener(m, t, l), t, l) == m
  {
  }
}
