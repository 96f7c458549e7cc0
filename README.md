# smock interception engine, modelled in Dafny

smock replaces the global `WebSocket` constructor with `ProxyWebSocket`. This
wrapper is a session: it stands in for a real socket, and any number of
interceptors ("smock listeners") can rewrite its traffic. An interceptor is
registered with `smock.use`. It carries a URL predicate `match` and optional
hooks. The model covers the engine in `mod.ts`:

- the append-only registry, and the binding of matching interceptors when a session is constructed (module `Interceptors`);
- the outbound and inbound transform pipelines (module `Pipeline`, and the class methods);
- the forwarding wrapper registered for each application listener, which decides what that listener receives (module `Forwarding`);
- the per-type bookkeeping of application listeners (module `Forwarding`);
- the calls made on the real socket, with the host's add/remove rule for listener registrations (module `Socket`);
- the Proxy's get/set routing decision (module `Routing`);
- the session itself, as the class `Sessions.Session`.

The socket is modelled as `socketLog`, the sequence of calls the session makes
on it: open, send, add a listener, remove a listener, close. A hook is a total
function from the payload to `Ok(payload')` or `Fail` (the hook throws).

## Behaviour of the code worth knowing

The model follows the code in each of these cases, where a reader might expect otherwise.

- The pipelines do not chain. Every hook receives the original payload, not
  the previous hook's output (mod.ts:65-66, mod.ts:83). With no failure, the
  result is the last defined hook's output on the original payload.
  `Pipeline.ChainingDiffersForTwoHooks` shows the difference with chaining,
  and `Pipeline.ChainingAgreesForOneHook` shows that the two agree when at
  most one bound interceptor defines the hook.
- A duplicate `addEventListener` is not a no-op. Every call registers a new
  wrapper on the socket (mod.ts:107-134). So a listener added twice for a type
  is handed each native event of that type twice
  (`Socket.FireReachesEveryWrapper`, `Sessions.DuplicateAddScenario`).
- `removeEventListener` passes the application listener to the socket, never
  the wrapper (mod.ts:148). So no wrapper is ever removed
  (`Socket.WrappersStayLive`, `Sessions.DuplicateAddScenario`).
- The `open`, `error` and `close` hooks are declared (mod.ts:7-11) but never
  invoked anywhere in the code. The model therefore has no lifecycle hooks.
- An inbound message whose payload is empty is dropped even when no hook is
  bound (`Forwarding.EmptyMessageDroppedWithoutHooks`). The truthiness test at
  mod.ts:113 applies to the untransformed payload too.
- A handler assigned as `onmessage` is written through to the socket
  (mod.ts:48-53). The inbound pipeline never sees it
  (`Routing.OnMessageBypassesPipeline`).

## Model

| member | source | states |
|---|---|---|
| `Interceptors.HooksOf` | mod.ts:63-64 | one slot per bound interceptor, in order, holding its `message` hook (inbound) or `send` hook (outbound), empty where it defines none |
| `Interceptors.Bound` | mod.ts:29 | every bound interceptor accepts the URL, and the bound list is no longer than the registry |
| `Interceptors.BoundAppend` | mod.ts:29 | binding distributes over concatenation of the registry, so registration order is kept |
| `Interceptors.BoundAfterUse` | mod.ts:154-156 | after one more `use`, a URL's bound list grows by that interceptor, at the end, exactly when it matches |
| `Interceptors.NonMatchingIsUnbound` | mod.ts:29 | an interceptor whose `match` rejects the URL can be dropped from the registry without changing the bound list, so none of its hooks ever runs for that session |
| `Interceptors.AllMatchingAreBound` | mod.ts:29 | when every interceptor matches, the whole registry is bound, in order |
| `Interceptors.Registry.constructor` | mod.ts:17 | the registry starts empty |
| `Interceptors.Registry.Use` | mod.ts:154-156 | `use` appends the interceptor at the end and changes nothing else |
| `Pipeline.RunHooks` | mod.ts:61-70 | the loop fails only if some defined hook fails on the original payload; otherwise its result is the starting value or some defined hook's output on the original payload |
| `Pipeline.Transform` | mod.ts:78-91 | the try/catch result is the original payload or some defined hook's output on the original payload, never anything else |
| `Pipeline.LastDefinedIndex` | mod.ts:63-70 | the position of the last defined hook: every later slot is undefined, and -1 means no hook is defined |
| `Pipeline.RunHooksIsLastHook` | mod.ts:61-75 | the loop fails iff some defined hook fails on the original payload; otherwise it yields the last defined hook's output, or the starting value if no hook is defined |
| `Pipeline.TransformIsLastHook` | mod.ts:78-91 | the pipeline's payload is the original if any hook fails, else the last defined hook's output on the original, else the original |
| `Pipeline.FailureFallsBackToOriginal` | mod.ts:87-90 | one failing hook anywhere makes the pipeline yield the original payload |
| `Pipeline.NoHookIsIdentity` | mod.ts:79-86 | with no defined hook the payload passes unchanged |
| `Pipeline.LastHookWins` | mod.ts:81-86 | with no failure, the result is the output of the last defined hook, whatever the earlier hooks returned |
| `Pipeline.ChainingAgreesForOneHook` | mod.ts:83 | with at most one defined hook, the code's result equals that of a chained fold (each hook fed the previous hook's output) |
| `Pipeline.ChainingDiffersForTwoHooks` | mod.ts:83 | hooks appending "a" then "b" turn "x" into "xb", where the chained fold would give "xab" |
| `Forwarding.Invoke` | mod.ts:119-130 | a function listener is called; an object listener is reached through `handleEvent` if it has one and skipped otherwise; the event is passed unchanged |
| `Forwarding.Deliver` | mod.ts:107-131 | a delivery reaches only the wrapped listener; a non-message event is delivered unchanged; a message is delivered with a non-empty payload and all other fields kept |
| `Forwarding.OtherEventsPassThrough` | mod.ts:125-131 | delivery of a non-"message" event does not depend on the bound interceptors and hands on the original event |
| `Forwarding.MessageDelivery` | mod.ts:108-124 | one wrapper hands a "message" event to its listener at most once, exactly when the inbound pipeline's payload is non-empty, and carries that payload with every other field kept |
| `Forwarding.FailingHookDeliversOriginal` | mod.ts:72-75 | when a `message` hook fails, the listener receives an event equal to the native one, as the model represents events, or nothing if its payload is empty |
| `Forwarding.EmptyMessageDroppedWithoutHooks` | mod.ts:113 | an empty message is dropped even when no bound interceptor has a `message` hook |
| `Forwarding.AddListener` | mod.ts:102-105 | the listener is in the type's set afterwards, the set grows by exactly it, no other key changes, and no set is left empty |
| `Forwarding.RemoveListener` | mod.ts:141-147 | the listener leaves the type's set, the key is deleted exactly when the set becomes empty, and no other key changes |
| `Forwarding.AddListenerIdempotent` | mod.ts:105 | adding the same listener twice leaves the same map as adding it once |
| `Forwarding.RemoveUndoesAdd` | mod.ts:137-147 | removing a listener that was not registered before undoes its addition |
| `Socket.AddedAreWrappers` | mod.ts:134 | every registration a session ever hands the socket is one of its wrappers, numbered below the log's length |
| `Socket.Dispatch` | mod.ts:134 | the host hands an event to the live registrations for its type, in registration order; when every registration for the type is a live wrapper, the result is exactly the deliveries owed to them (`Deliveries`) |
| `Socket.Fire` | mod.ts:134 | for a session's log, one native event of a type yields one delivery per registration made for that type at mod.ts:134, in registration order, whatever removals followed |
| `Socket.FireReachesEveryWrapper` | mod.ts:134 | one native event of a type reaches every wrapper ever registered for that type, in order and once per wrapper, so once per `addEventListener` call |
| `Socket.WrappersStayLive` | mod.ts:148 | the session's removals never take a registration off the socket: every wrapper ever added stays live |
| `Routing.RouteGet` | mod.ts:34-47 | reads of `addEventListener` yield exactly the bound `addEventListener`, reads of `removeEventListener` exactly the bound `removeEventListener`, and reads of `close` exactly the forwarder; other names on the wrapper are read there; all the rest are read from the socket |
| `Routing.RouteSet` | mod.ts:48-54 | writes go to the wrapper exactly for names on it, and to the socket otherwise; no name is intercepted |
| `Routing.ReadWhereWritten` | mod.ts:42-53 | outside the three intercepted names, a property is read where it is written |
| `Routing.SendIsTheSessions` | mod.ts:42-43 | reading `send` yields the session's own `send` (`Sessions.Session.Send`), not the socket's |
| `Routing.OnMessageBypassesPipeline` | mod.ts:48-53 | `onmessage` is written to and read from the socket |
| `Routing.CloseWrittenToSocket` | mod.ts:39-52 | writing `close` reaches the socket, while reading it yields the forwarder |
| `Sessions.Session.constructor` | mod.ts:27-32 | the session binds the registry's matching interceptors as the registry is at that moment, opens the socket with the same URL and protocols, and starts with no listeners |
| `Sessions.Session.RunPipeline` | mod.ts:61-70 | the loop, with its early exit on a failing hook, computes the pipeline's result |
| `Sessions.Session.ModifyIncomingMessage` | mod.ts:58-76 | returns the original payload if any `message` hook fails, else the last `message` hook's output on the original payload, else the original |
| `Sessions.Session.ModifyOutgoingMessage` | mod.ts:78-91 | the same, for the `send` hooks |
| `Sessions.Session.Send` | mod.ts:93-96 | exactly one call to the socket's `send`, carrying the outbound pipeline's payload; the listener map is unchanged |
| `Sessions.Session.WrappedListener` | mod.ts:107-132 | the wrapper's effect when the socket fires an event is the delivery decision `Deliver` |
| `Sessions.Session.AddEventListener` | mod.ts:98-135 | the listener map gains the listener for the type; the socket gets one new wrapper registration, which was not live before, even for a duplicate |
| `Sessions.Session.RemoveEventListener` | mod.ts:137-149 | the listener map loses the listener (and the key when its set empties); the socket is asked to remove the listener itself, and its live registrations do not change |
| `Sessions.Session.Close` | mod.ts:39-41 | the arguments of `close` reach the socket's `close` unchanged, and nothing else changes |
| `Sessions.SendScenario` | mod.ts:78-96 | with two matching `send` hooks, the socket receives the second hook's output on the original payload; a session built before the second `use` receives the first hook's output |
| `Sessions.UpperCaseScenario` | mod.ts:107-124 | a matching upper-casing `message` hook turns a native "hi" into a delivered "HI" |
| `Sessions.DuplicateAddScenario` | mod.ts:98-149 | after adding a listener twice for a type and removing it once, the map is empty, both wrappers stay live on the socket, and one native event of that type is delivered to the listener twice |

## Left out

- Creating the real `WebSocket` and its networking (mod.ts:30): the socket is the log of calls the session makes on it.
- Promises and `await` (mod.ts:58-96, mod.ts:107): each hook is a synchronous call returning `Ok` or `Fail`. The code does not queue sends or deliveries: two `send` calls whose hooks take different times can reach the socket in the reverse order (mod.ts:93-95), and two inbound messages can likewise reach the listener reversed. The model does not capture that reordering.
- Sessions.Session.Send: the socket's `send` runs only after the awaited pipeline (mod.ts:94), even with no hook bound, while `close` reaches the socket at once (mod.ts:41). So `send(x)` followed by `close()` reaches the socket as close, then send. The model appends `Sent` at once, so its log does not capture that reordering.
- Sessions.Session.WrappedListener: a "message" delivery likewise happens only after the awaited inbound pipeline (mod.ts:110), after any synchronous calls made meanwhile; the model delivers at once.
- Interceptors.Bound: a `match` that throws, or an interceptor registered without `match`, makes the `filter` at mod.ts:29 throw, so `new WebSocket(url)` throws to the application. The model's predicates are total functions, so construction never fails.
- Sessions.Session.ModifyIncomingMessage: hooks are pure functions of the payload. The socket argument they receive is dropped, and so is any state they keep between calls.
- Sessions.Session.ModifyOutgoingMessage: the same abstraction of the `send` hooks.
- Hook results that are not strings, and inbound payloads that are not strings (Blob, ArrayBuffer): payloads are strings, so "truthy" means non-empty.
- `console.log` and `console.error` diagnostics (mod.ts:28, mod.ts:73, mod.ts:88).
- Installing the globals `WebSocket` and `smock` (mod.ts:152, mod.ts:158-162), a one-time host side effect.
- How the `MessageEvent` is built (mod.ts:114-118). An event is a record whose `data` field is replaced and whose other fields are kept. The code always builds a new event, and the object spread copies only the native event's own enumerable properties. So the prototype accessors `origin`, `lastEventId` and `source` fall back to their defaults in the delivered event; the model does not capture that loss.
- Forwarding.Invoke: `handleEvent` is looked up once per listener, not at each event. The `this` a function listener is called with is not modelled.
- The JavaScript semantics of `Proxy` and `Reflect` beyond the routing decision. Property names are strings; symbols are not modelled. The Proxy's effect on the properties themselves is not modelled either.
- The socket's own behaviour beyond which registrations are live and how one event is dispatched to them: when and why it fires an event (`Socket.Fire` takes the event as an input), ready states, errors.
- Routing.RouteSet: writes to `listeners`, `socket` and `eventListeners` through the Proxy land on the session, since TypeScript's `private` does not stop them at run time. The model's `listeners` is a constant and its other fields change only through the session's methods, so such writes are not modelled.
- Routing: there is no `defineProperty` trap, so `Object.defineProperty` on the Proxy still adds properties to the session; only the set trap is modelled.
