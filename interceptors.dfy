/** Interceptors ("smock listeners") and the process-wide registry they are
    registered in. A session binds, once and for its whole lifetime, the
    interceptors of the registry whose URL predicate accepts its URL. */
module Interceptors {

  datatype Option<+T> = None | Some(value: T)

  /** What one transform hook does with a payload: it yields a new payload,
      or it throws (the promise rejects). */
  datatype HookResult = Ok(out: string) | Fail

  /** A transform hook (`message` or `send`), as a total function of the payload. */
  type Hook = string -> HookResult

  /** A registered interceptor: the URL predicate `match` and the two
      optional transform hooks the engine calls. */
  datatype Interceptor = Interceptor(
    matches: string -> bool,
    message: Option<Hook>,
    send: Option<Hook>)

  /** Which pipeline a hook belongs to: inbound (`message`) or outbound (`send`). */
  datatype Direction = Incoming | Outgoing

  function HookOf(i: Interceptor, dir: Direction): Option<Hook> {
    match dir
    case Incoming => i.message
    case Outgoing => i.send
  }

  /** The hooks of one direction, one slot per bound interceptor, in order;
      a slot is empty where the interceptor does not define that hook. */
  function HooksOf(bound: seq<Interceptor>, dir: Direction): (hooks: seq<Option<Hook>>)
    ensures |hooks| == |bound|
    ensures forall k :: 0 <= k < |bound| ==>
              hooks[k] == if dir == Incoming then bound[k].message else bound[k].send
  {
    seq(|bound|, k requires 0 <= k < |bound| => HookOf(bound[k], dir))
  }

  /** The interceptors of `registry` whose predicate accepts `url`, in
      registration order (the constructor's `filter`). */
  function Bound(registry: seq<Interceptor>, url: string): (b: seq<Interceptor>)
    ensures |b| <= |registry|
    ensures forall k :: 0 <= k < |b| ==> b[k].matches(url)
  {
    if registry == [] then []
    else (if registry[0].matches(url) then [registry[0]] else []) + Bound(registry[1..], url)
  }

  /** Binding distributes over concatenation: the bound list of a registry is
      the bound list of its front followed by the bound list of its back, so
      registration order is kept. */
  lemma {:induction false} BoundAppend(front: seq<Interceptor>, back: seq<Interceptor>, url: string)
    ensures Bound(front + back, url) == Bound(front, url) + Bound(back, url)
  {
    if front == [] {
      assert front + back == back;
    } else {
      assert (front + back)[1..] == front[1..] + back;
      BoundAppend(front[1..], back, url);
    }
  }

  /** Registering one more interceptor extends the bound list of a URL by that
      interceptor exactly when it matches, at the end. */
  lemma BoundAfterUse(registry: seq<Interceptor>, config: Interceptor, url: string)
    ensures Bound(registry + [config], url)
         == Bound(registry, url) + (if config.matches(url) then [config] else [])
  {
    BoundAppend(registry, [config], url);
    assert [config][1..] == [];
  }

  /** An interceptor that does not match a URL has no influence on a session
      opened for that URL: removing it from the registry leaves the bound list
      as it is, so none of its hooks can ever run there. */
  lemma NonMatchingIsUnbound(front: seq<Interceptor>, x: Interceptor, back: seq<Interceptor>, url: string)
    requires !x.matches(url)
    ensures Bound(front + [x] + back, url) == Bound(front + back, url)
  {
    BoundAppend(front + [x], back, url);
    BoundAppend(front, [x], url);
    BoundAppend(front, back, url);
    assert [x][1..] == [];
  }

  /** A registry whose every interceptor matches is bound in full. */
  lemma {:induction false} AllMatchingAreBound(registry: seq<Interceptor>, url: string)
    requires forall k :: 0 <= k < |registry| ==> registry[k].matches(url)
    ensures Bound(registry, url) == registry
  {
    if registry != [] {
      AllMatchingAreBound(registry[1..], url);
      assert [registry[0]] + registry[1..] == registry;
    }
  }

  /** The registry behind `smock.use`: append-only, no removal. */
  class Registry {
    var interceptors: seq<Interceptor>

    constructor ()
      ensures interceptors == []
    {
      interceptors := [];
    }

    /** `smock.use(config)`: appends, never validates, never fails. */
    method Use(config: Interceptor)
      modifies this
      ensures interceptors == old(interceptors) + [config]
    {
      interceptors := interceptors + [config];
    }
  }
}
