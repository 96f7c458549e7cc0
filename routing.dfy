/** The get and set traps of the Proxy a session hides behind: for each
    property name they decide who serves the access. `inTarget` is the set of
    names `prop in target` holds for: the session's own fields and methods and
    those of its prototype chain. The set trap writes onto the session only
    names already in it, so the set never grows through the set trap. */
module Routing {

  /** Who serves an access: one of the three names the get trap intercepts,
      the session object itself, or the real socket. */
  datatype Destination =
    | BoundAddEventListener
    | BoundRemoveEventListener
    | CloseForwarder
    | OnWrapper
    | OnSocket

  const Intercepted: set<string> := {"addEventListener", "removeEventListener", "close"}

  /** The names declared by the session class itself. */
  const SessionMembers: set<string> :=
    {"socket", "listeners", "eventListeners", "modifyIncomingMessage",
     "modifyOutgoingMessage", "send", "addEventListener", "removeEventListener", "constructor"}

  predicate ServedByWrapper(d: Destination) {
    d.BoundAddEventListener? || d.BoundRemoveEventListener? || d.CloseForwarder?
  }

  /** The get trap. */
  function RouteGet(prop: string, inTarget: set<string>): (d: Destination)
    ensures ServedByWrapper(d) <==> prop in Intercepted
    ensures d == BoundAddEventListener <==> prop == "addEventListener"
    ensures d == BoundRemoveEventListener <==> prop == "removeEventListener"
    ensures d == CloseForwarder <==> prop == "close"
    ensures d == OnWrapper <==> prop !in Intercepted && prop in inTarget
    ensures d == OnSocket <==> prop !in Intercepted && prop !in inTarget
  {
    if prop == "addEventListener" then BoundAddEventListener
    else if prop == "removeEventListener" then BoundRemoveEventListener
    else if prop == "close" then CloseForwarder
    else if prop in inTarget then OnWrapper
    else OnSocket
  }

  /** The set trap: it intercepts nothing by name. */
  function RouteSet(prop: string, inTarget: set<string>): (d: Destination)
    ensures d == OnWrapper || d == OnSocket
    ensures d == OnWrapper <==> prop in inTarget
  {
    if prop in inTarget then OnWrapper else OnSocket
  }

  /** Every name outside the three intercepted ones is read where it is
      written, so the session and its socket each keep a consistent view of
      their own properties. */
  lemma ReadWhereWritten(prop: string, inTarget: set<string>)
    requires prop !in Intercepted
    ensures RouteGet(prop, inTarget) == RouteSet(prop, inTarget)
  {
  }

  /** `send` is a member of the session, so reading it yields the session's
      own `send` (`Sessions.Session.Send`), not the socket's. */
  lemma SendIsTheSessions(inTarget: set<string>)
    requires SessionMembers <= inTarget
    ensures RouteGet("send", inTarget) == OnWrapper
  {
    assert "send" in SessionMembers;
  }

  /** Assigning `onmessage` lands on the socket: a handler installed that way
      is called by the socket directly, with no inbound pipeline. */
  lemma OnMessageBypassesPipeline(inTarget: set<string>)
    requires "onmessage" !in inTarget
    ensures RouteSet("onmessage", inTarget) == OnSocket
    ensures RouteGet("onmessage", inTarget) == OnSocket
  {
  }

  /** Writing `close` reaches the socket, while reading it yields the
      forwarder, which then calls whatever the socket holds under that name. */
  lemma CloseWrittenToSocket(inTarget: set<string>)
    requires "close" !in inTarget
    ensures RouteSet("close", inTarget) == OnSocket
    ensures RouteGet("close", inTarget) == CloseForwarder
  {
  }
}
