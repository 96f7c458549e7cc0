/** The real socket a session owns, seen only through the calls the session
    makes on it, and the host's rule for which listener registrations are live
    (an add inserts the pair of type and callback, a remove takes out the pair
    that is identical to the one it names). */
module Socket {
  import opened Interceptors
  import opened Forwarding

  /** The `protocols` argument: absent, one name, or a list of names. */
  datatype Protocols = NoProtocols | Protocol(name: string) | ProtocolList(names: seq<string>)

  /** An argument passed through to `socket.close`. */
  datatype Value = Num(n: int) | Str(s: string) | Undefined

  /** What a session hands the socket as a listener: the wrapper it creates
      on each `addEventListener` (`serial` tells apart wrappers created for the
      same pair, `eventType` and `listener` are what the wrapper closes over),
      or an application listener itself. */
  datatype Callback =
    | Wrapped(serial: nat, eventType: string, listener: Listener)
    | Plain(listener: Listener)

  datatype SocketCall =
    | Opened(url: string, protocols: Protocols)
    | Sent(data: string)
    | Added(eventType: string, callback: Callback)
    | Removed(eventType: string, callback: Callback)
    | Closed(args: seq<Value>)

  datatype Registration = Registration(eventType: string, callback: Callback)

  /** The registrations the socket holds after the calls of `log`. */
  function Live(log: seq<SocketCall>): set<Registration>
    decreases |log|
  {
    if log == [] then {}
    else
      var before := Live(log[..|log| - 1]);
      match log[|log| - 1]
      case Added(t, cb) => before + {Registration(t, cb)}
      case Removed(t, cb) => before - {Registration(t, cb)}
      case _ => before
  }

  /** Every registration ever added by the calls of `log`. */
  function EverAdded(log: seq<SocketCall>): set<Registration>
    decreases |log|
  {
    if log == [] then {}
    else
      var before := EverAdded(log[..|log| - 1]);
      match log[|log| - 1]
      case Added(t, cb) => before + {Registration(t, cb)}
      case _ => before
  }

  /** The shape of a session's calls at position `k` of its log: it adds only
      a fresh wrapper (numbered by its position) for the type it names, and
      removes only application listeners. */
  predicate CallShape(c: SocketCall, k: nat) {
    match c
    case Added(t, cb) => cb == Wrapped(k, t, cb.listener)
    case Removed(_, cb) => cb.Plain?
    case _ => true
  }

  predicate WellFormedLog(log: seq<SocketCall>) {
    forall k :: 0 <= k < |log| ==> CallShape(log[k], k)
  }

  /** Every registration a session ever made is one of its wrappers, numbered
      below the length of the log. */
  lemma {:induction false} AddedAreWrappers(log: seq<SocketCall>)
    requires WellFormedLog(log)
    ensures forall r :: r in EverAdded(log) ==> r.callback.Wrapped? && r.callback.serial < |log|
    decreases |log|
  {
    if log != [] {
      var prefix := log[..|log| - 1];
      assert forall k :: 0 <= k < |prefix| ==> prefix[k] == log[k];
      AddedAreWrappers(prefix);
    }
  }

  /** A session's removals never take a registration off the socket: what is
      live is everything it ever added. */
  lemma {:induction false} WrappersStayLive(log: seq<SocketCall>)
    requires WellFormedLog(log)
    ensures Live(log) == EverAdded(log)
    decreases |log|
  {
    if log != [] {
      var prefix := log[..|log| - 1];
      assert forall k :: 0 <= k < |prefix| ==> prefix[k] == log[k];
      WrappersStayLive(prefix);
      AddedAreWrappers(prefix);
      match log[|log| - 1]
      case Removed(t, cb) =>
        assert Registration(t, cb) !in EverAdded(prefix);
      case _ =>
    }
  }

  /** Every `Added` entry of `calls` for type `t` is live in `live` and is a
      wrapper made for `t`. */
  predicate AllWrappersLive(calls: seq<SocketCall>, live: set<Registration>, t: string) {
    forall k :: 0 <= k < |calls| && calls[k].Added? && calls[k].eventType == t ==>
      calls[k].callback.Wrapped? && calls[k].callback.eventType == t
      && Registration(t, calls[k].callback) in live
  }

  /** The deliveries owed to the registrations for type `t` in `calls`: one per
      `Added` entry, in registration order, with no filtering at all. */
  function Deliveries(calls: seq<SocketCall>, bound: seq<Interceptor>, t: string, e: Event): seq<Option<Invocation>>
    decreases |calls|
  {
    if calls == [] then []
    else
      var rest := Deliveries(calls[1..], bound, t, e);
      if calls[0].Added? && calls[0].eventType == t
      then [Deliver(bound, t, calls[0].callback.listener, e)] + rest
      else rest
  }

  /** The host firing one native event of type `t`: every registration in
      `calls` for `t` that is in `live` is handed the event, in registration
      order, and each wrapper decides its delivery on its own. When every
      such registration is a live wrapper, that is every delivery owed. */
  function Dispatch(calls: seq<SocketCall>, live: set<Registration>, bound: seq<Interceptor>,
                    t: string, e: Event): (fired: seq<Option<Invocation>>)
    ensures |fired| <= |calls|
    ensures AllWrappersLive(calls, live, t) ==> fired == Deliveries(calls, bound, t, e)
    decreases |calls|
  {
    if calls == [] then []
    else
      assert AllWrappersLive(calls, live, t) ==> AllWrappersLive(calls[1..], live, t) by {
        assert forall k :: 0 <= k < |calls| - 1 ==> calls[1..][k] == calls[k + 1];
      }
      var rest := Dispatch(calls[1..], live, bound, t, e);
      match calls[0]
      case Added(u, cb) =>
        if u == t && cb.Wrapped? && Registration(u, cb) in live
        then [Deliver(bound, cb.eventType, cb.listener, e)] + rest
        else rest
      case _ => rest
  }

  /** In a session's log, every registration ever made is still live and is
      a wrapper made for the type it was registered for. */
  lemma EveryAddedIsLive(log: seq<SocketCall>, t: string)
    requires WellFormedLog(log)
    ensures AllWrappersLive(log, Live(log), t)
  {
    WrappersStayLive(log);
    forall k | 0 <= k < |log| && log[k].Added? && log[k].eventType == t
      ensures log[k].callback.Wrapped? && log[k].callback.eventType == t
      ensures Registration(t, log[k].callback) in Live(log)
    {
      assert CallShape(log[k], k);
      AddedEntryInEverAdded(log, k);
    }
  }

  /** One native event of type `t` reaching a socket after the calls of
      `log`: for a session's log, every registration made for `t` delivers,
      in registration order, removals notwithstanding. */
  function Fire(log: seq<SocketCall>, bound: seq<Interceptor>, t: string, e: Event): (fired: seq<Option<Invocation>>)
    ensures WellFormedLog(log) ==> fired == Deliveries(log, bound, t, e)
  {
    if WellFormedLog(log) then
      EveryAddedIsLive(log, t);
      Dispatch(log, Live(log), bound, t, e)
    else
      Dispatch(log, Live(log), bound, t, e)
  }

  /** The number of registrations for type `t` in `calls`. */
  function CountAdded(calls: seq<SocketCall>, t: string): nat
    decreases |calls|
  {
    if calls == [] then 0
    else (if calls[0].Added? && calls[0].eventType == t then 1 else 0) + CountAdded(calls[1..], t)
  }

  lemma {:induction false} AddedEntryInEverAdded(log: seq<SocketCall>, k: nat)
    requires k < |log| && log[k].Added?
    ensures Registration(log[k].eventType, log[k].callback) in EverAdded(log)
    decreases |log|
  {
    if k < |log| - 1 {
      var prefix := log[..|log| - 1];
      assert prefix[k] == log[k];
      AddedEntryInEverAdded(prefix, k);
    }
  }

  lemma {:induction false} DeliveriesCount(calls: seq<SocketCall>, bound: seq<Interceptor>, t: string, e: Event)
    ensures |Deliveries(calls, bound, t, e)| == CountAdded(calls, t)
    decreases |calls|
  {
    if calls != [] {
      DeliveriesCount(calls[1..], bound, t, e);
    }
  }

  /** Each native event reaches every wrapper the session ever registered for
      its type, once per wrapper and in registration order: a listener added
      n times for a type is handed each event of that type n times. */
  lemma {:induction false} FireReachesEveryWrapper(log: seq<SocketCall>, bound: seq<Interceptor>, t: string, e: Event)
    requires WellFormedLog(log)
    ensures Fire(log, bound, t, e) == Deliveries(log, bound, t, e)
    ensures |Fire(log, bound, t, e)| == CountAdded(log, t)
  {
    DeliveriesCount(log, bound, t, e);
  }
}
