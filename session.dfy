/** A session (`ProxyWebSocket`): the object the application gets in place
    of a real socket. It binds its interceptors once, owns one socket, keeps
    the application listeners per event type, and runs the pipelines. */
module Sessions {
  import opened Interceptors
  import opened Pipeline
  import opened Forwarding
  import opened Socket

  class Session {
    const url: string
    const protocols: Protocols
    /** The bound interceptors, fixed at construction. */
    const listeners: seq<Interceptor>
    /** The application listeners per event type. */
    var eventListeners: ListenerMap
    /** Every call made on the real socket, oldest first. */
    var socketLog: seq<SocketCall>

    ghost predicate Valid()
      reads this
    {
      && |socketLog| > 0
      && socketLog[0] == Opened(url, protocols)
      && WellFormedLog(socketLog)
      && NoEmptySets(eventListeners)
    }

    /** `new WebSocket(url, protocols)`: binds the matching interceptors of
        the registry as it is now, then opens the socket with the same
        arguments. */
    constructor (registry: Registry, url: string, protocols: Protocols)
      ensures this.url == url && this.protocols == protocols
      ensures listeners == Bound(registry.interceptors, url)
      ensures eventListeners == map[]
      ensures socketLog == [Opened(url, protocols)]
      ensures Valid()
    {
      this.url := url;
      this.protocols := protocols;
      listeners := Bound(registry.interceptors, url);
      socketLog := [Opened(url, protocols)];
      eventListeners := map[];
    }

    /** The loop shared by both pipelines: every hook of direction `dir` is
        handed the original `data`; the first failure abandons the loop and
        yields `data`. */
    method RunPipeline(dir: Direction, data: string) returns (r: string)
      ensures r == Transform(HooksOf(listeners, dir), data)
    {
      ghost var hooks := HooksOf(listeners, dir);
      var modifiedData := data;
      var i := 0;
      while i < |listeners|
        invariant 0 <= i <= |listeners|
        invariant RunHooks(hooks, data, data) == RunHooks(hooks[i..], data, modifiedData)
      {
        assert hooks[i..][1..] == hooks[i + 1..];
        var hook := HookOf(listeners[i], dir);
        if hook.Some? {
          var result := hook.value(data);
          if result.Fail? {
            return data;
          }
          modifiedData := result.out;
        }
        i := i + 1;
      }
      assert hooks[i..] == [];
      r := modifiedData;
    }

    /** `modifyIncomingMessage`. */
    method ModifyIncomingMessage(data: string) returns (r: string)
      ensures r == LastHookOutput(HooksOf(listeners, Incoming), data)
    {
      r := RunPipeline(Incoming, data);
      TransformIsLastHook(HooksOf(listeners, Incoming), data);
    }

    /** `modifyOutgoingMessage`. */
    method ModifyOutgoingMessage(data: string) returns (r: string)
      ensures r == LastHookOutput(HooksOf(listeners, Outgoing), data)
    {
      r := RunPipeline(Outgoing, data);
      TransformIsLastHook(HooksOf(listeners, Outgoing), data);
    }

    /** `send`: exactly one send on the socket, with the pipeline's payload. */
    method Send(data: string)
      requires Valid()
      modifies this
      ensures Valid()
      ensures eventListeners == old(eventListeners)
      ensures socketLog == old(socketLog) + [Sent(LastHookOutput(HooksOf(listeners, Outgoing), data))]
    {
      var modifiedData := ModifyOutgoingMessage(data);
      socketLog := socketLog + [Sent(modifiedData)];
    }

    /** The wrapper `addEventListener` registers for `listener` and `eventType`,
        fired by the socket with `event`. */
    method WrappedListener(eventType: string, listener: Listener, event: Event) returns (d: Option<Invocation>)
      ensures d == Deliver(listeners, eventType, listener, event)
    {
      if eventType == MessageType {
        var modifiedData := ModifyIncomingMessage(event.data);
        TransformIsLastHook(HooksOf(listeners, Incoming), event.data);
        if modifiedData != "" {
          d := Invoke(listener, event.(data := modifiedData));
        } else {
          d := None;
        }
      } else {
        d := Invoke(listener, event);
      }
    }

    /** `addEventListener`: records the listener and hands the socket a new
        wrapper, even when the listener was recorded already. */
    method AddEventListener(eventType: string, listener: Listener)
      requires Valid()
      modifies this
      ensures Valid()
      ensures eventListeners == AddListener(old(eventListeners), eventType, listener)
      ensures socketLog == old(socketLog) + [Added(eventType, Wrapped(|old(socketLog)|, eventType, listener))]
      ensures Registration(eventType, Wrapped(|old(socketLog)|, eventType, listener)) !in old(Live(socketLog))
      ensures Live(socketLog)
           == old(Live(socketLog)) + {Registration(eventType, Wrapped(|old(socketLog)|, eventType, listener))}
    {
      WrappersStayLive(socketLog);
      AddedAreWrappers(socketLog);
      eventListeners := AddListener(eventListeners, eventType, listener);
      var wrapped := Wrapped(|socketLog|, eventType, listener);
      socketLog := socketLog + [Added(eventType, wrapped)];
      assert socketLog[..|socketLog| - 1] == old(socketLog);
    }

    /** `removeEventListener`: forgets the listener and asks the socket to
        remove the listener itself, which it never holds, so no wrapper is
        ever taken off the socket. */
    method RemoveEventListener(eventType: string, listener: Listener)
      requires Valid()
      modifies this
      ensures Valid()
      ensures eventListeners == RemoveListener(old(eventListeners), eventType, listener)
      ensures socketLog == old(socketLog) + [Removed(eventType, Plain(listener))]
      ensures Live(socketLog) == old(Live(socketLog))
    {
      WrappersStayLive(socketLog);
      AddedAreWrappers(socketLog);
      eventListeners := RemoveListener(eventListeners, eventType, listener);
      socketLog := socketLog + [Removed(eventType, Plain(listener))];
      assert socketLog[..|socketLog| - 1] == old(socketLog);
    }

    /** The `close` the get trap hands out: the arguments go to the socket unchanged. */
    method Close(args: seq<Value>)
      requires Valid()
      modifies this
      ensures Valid()
      ensures eventListeners == old(eventListeners)
      ensures socketLog == old(socketLog) + [Closed(args)]
    {
      socketLog := socketLog + [Closed(args)];
    }
  }

  /** Two interceptors matching everything, both with a `send` hook: a
      session opened after both were registered sends the second hook's
      output on the original payload. A session opened before the second
      registration keeps the first alone. */
  method SendScenario(first: Hook, second: Hook, x: string)
    returns (early: seq<SocketCall>, late: seq<SocketCall>)
    requires first(x).Ok? && second(x).Ok?
    ensures early == [Opened("wss://x", NoProtocols), Sent(first(x).out)]
    ensures late == [Opened("wss://x", NoProtocols), Sent(second(x).out)]
  {
    var registry := new Registry();
    var all := (u: string) => true;
    registry.Use(Interceptor(all, None, Some(first)));
    var s1 := new Session(registry, "wss://x", NoProtocols);
    registry.Use(Interceptor(all, None, Some(second)));
    var s2 := new Session(registry, "wss://x", NoProtocols);
    assert s1.listeners == [Interceptor(all, None, Some(first))];
    assert s2.listeners == [Interceptor(all, None, Some(first)), Interceptor(all, None, Some(second))];
    s1.Send(x);
    s2.Send(x);
    LastHookWins(HooksOf(s1.listeners, Outgoing), x, 0);
    assert !SomeHookFails(HooksOf(s2.listeners, Outgoing), x);
    LastHookWins(HooksOf(s2.listeners, Outgoing), x, 1);
    early, late := s1.socketLog, s2.socketLog;
  }

  function UpperChar(c: char): char {
    if 'a' <= c <= 'z' then (c as int - 32) as char else c
  }

  function UpperCase(s: string): string {
    seq(|s|, i requires 0 <= i < |s| => UpperChar(s[i]))
  }

  /** One matching interceptor whose `message` hook upper-cases: a listener
      registered for "message" receives "HI" for a native "hi". */
  method UpperCaseScenario(app: Listener)
    returns (d: Option<Invocation>)
    requires app.FunctionListener?
    ensures d == Some(Invocation(app, Event("HI", map[]), Called))
  {
    var registry := new Registry();
    var upper: Hook := (m: string) => Ok(UpperCase(m));
    var config := Interceptor((u: string) => u == "wss://x", Some(upper), None);
    registry.Use(config);
    var s := new Session(registry, "wss://x", NoProtocols);
    assert s.listeners == [config];
    s.AddEventListener(MessageType, app);
    d := s.WrappedListener(MessageType, app, Event("hi", map[]));
    assert !SomeHookFails(HooksOf(s.listeners, Incoming), "hi");
    LastHookWins(HooksOf(s.listeners, Incoming), "hi", 0);
    assert UpperCase("hi") == "HI";
  }

  /** A listener added twice for a type and removed once: the session
      forgets it, yet the socket still holds both wrappers made for it, so one
      native event of that type reaches the listener twice. With no
      interceptor bound, each delivery is the event itself, when non-empty
      for "message". */
  method DuplicateAddScenario(eventType: string, app: Listener, e: Event)
    returns (recorded: ListenerMap, live: set<Registration>, fired: seq<Option<Invocation>>)
    ensures recorded == map[]
    ensures live == {Registration(eventType, Wrapped(1, eventType, app)),
                     Registration(eventType, Wrapped(2, eventType, app))}
    ensures fired == [Deliver([], eventType, app, e), Deliver([], eventType, app, e)]
    ensures Reachable(app) && (eventType != MessageType || e.data != "")
            ==> fired == [Invoke(app, e), Invoke(app, e)] && fired[0].Some?
  {
    var registry := new Registry();
    var s := new Session(registry, "wss://x", NoProtocols);
    assert Live(s.socketLog) == {} by {
      assert s.socketLog[..0] == [];
    }
    s.AddEventListener(eventType, app);
    s.AddEventListener(eventType, app);
    s.RemoveEventListener(eventType, app);
    recorded, live := s.eventListeners, Live(s.socketLog);
    fired := Fire(s.socketLog, s.listeners, eventType, e);
    var log := s.socketLog;
    var r1, r2 := Registration(eventType, Wrapped(1, eventType, app)), Registration(eventType, Wrapped(2, eventType, app));
    assert log == [Opened("wss://x", NoProtocols), Added(r1.eventType, r1.callback),
                   Added(r2.eventType, r2.callback), Removed(eventType, Plain(app))];
    assert Dispatch(log[3..], live, [], eventType, e) == [] by {
      assert log[3..][1..] == [];
    }
    assert Dispatch(log[2..], live, [], eventType, e) == [Deliver([], eventType, app, e)] by {
      assert log[2..][1..] == log[3..];
    }
    assert Dispatch(log[1..], live, [], eventType, e) == [Deliver([], eventType, app, e), Deliver([], eventType, app, e)] by {
      assert log[1..][1..] == log[2..];
    }
    assert s.listeners == [];
    if eventType == MessageType {
      NoHookIsIdentity(HooksOf([], Incoming), e.data);
    }
  }
}
