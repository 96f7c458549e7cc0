/** The transform pipelines behind `modifyIncomingMessage` and
    `modifyOutgoingMessage`. Each bound interceptor's hook of the pipeline's
    direction runs in registration order, and each is handed the ORIGINAL
    payload, not the previous hook's output. The pipeline yields the last
    output, or the original payload when some hook fails. */
module Pipeline {
  import opened Interceptors

  /** The loop of the source as a recursion: `current` is `modifiedData`,
      `data` the untouched original every hook receives. */
  function RunHooks(hooks: seq<Option<Hook>>, data: string, current: string): (r: HookResult)
    ensures r.Fail? ==> SomeHookFails(hooks, data)
    ensures r.Ok? ==> r.out == current || ProducedBy(hooks, data, r.out)
    decreases |hooks|
  {
    if hooks == [] then Ok(current)
    else match hooks[0]
      case None => RunHooks(hooks[1..], data, current)
      case Some(h) =>
        match h(data)
        case Fail => Fail
        case Ok(out) => RunHooks(hooks[1..], data, out)
  }

  /** The payload the pipeline hands on: the fold's result, or `data` on
      failure. It is never anything but the original payload or the output
      of one of the hooks on it. */
  function Transform(hooks: seq<Option<Hook>>, data: string): (r: string)
    ensures r == data || ProducedBy(hooks, data, r)
  {
    match RunHooks(hooks, data, data)
    case Ok(out) => out
    case Fail => data
  }

  /** Some defined hook yields `out` when handed the original payload. */
  predicate ProducedBy(hooks: seq<Option<Hook>>, data: string, out: string) {
    exists k :: 0 <= k < |hooks| && hooks[k].Some? && hooks[k].value(data) == Ok(out)
  }

  // An independent description of the same result.

  predicate SomeHookFails(hooks: seq<Option<Hook>>, data: string) {
    exists k :: 0 <= k < |hooks| && hooks[k].Some? && hooks[k].value(data).Fail?
  }

  /** The position of the last defined hook, or -1 when there is none. */
  function LastDefinedIndex(hooks: seq<Option<Hook>>): (k: int)
    ensures -1 <= k < |hooks|
    ensures k >= 0 ==> hooks[k].Some?
    ensures forall j :: k < j < |hooks| ==> hooks[j].None?
    decreases |hooks|
  {
    if hooks == [] then -1
    else
      var rest := LastDefinedIndex(hooks[1..]);
      if rest >= 0 then rest + 1
      else if hooks[0].Some? then 0
      else -1
  }

  /** What the pipeline is meant to produce: the original payload if any hook
      fails, else the output of the last defined hook applied to the original
      payload, else the original payload unchanged. */
  function LastHookOutput(hooks: seq<Option<Hook>>, data: string): string {
    if SomeHookFails(hooks, data) then data
    else
      var k := LastDefinedIndex(hooks);
      if k < 0 then data
      else
        assert hooks[k].Some? && !hooks[k].value(data).Fail?;
        hooks[k].value(data).out
  }

  lemma {:induction false} RunHooksIsLastHook(hooks: seq<Option<Hook>>, data: string, current: string)
    ensures RunHooks(hooks, data, current)
         == if SomeHookFails(hooks, data) then Fail
            else if LastDefinedIndex(hooks) < 0 then Ok(current)
            else Ok(LastHookOutput(hooks, data))
    decreases |hooks|
  {
    if hooks != [] {
      var tail := hooks[1..];
      assert forall j :: 0 <= j < |tail| ==> tail[j] == hooks[j + 1];
      assert SomeHookFails(hooks, data)
         <==> (hooks[0].Some? && hooks[0].value(data).Fail?) || SomeHookFails(tail, data) by {
        if SomeHookFails(tail, data) {
          var j :| 0 <= j < |tail| && tail[j].Some? && tail[j].value(data).Fail?;
          assert hooks[j + 1] == tail[j];
        }
        if SomeHookFails(hooks, data) && !(hooks[0].Some? && hooks[0].value(data).Fail?) {
          var j :| 0 <= j < |hooks| && hooks[j].Some? && hooks[j].value(data).Fail?;
          assert tail[j - 1] == hooks[j];
        }
      }
      match hooks[0]
      case None =>
        RunHooksIsLastHook(tail, data, current);
      case Some(h) =>
        match h(data)
        case Fail =>
        case Ok(out) =>
          RunHooksIsLastHook(tail, data, out);
    }
  }

  /** The pipeline's result, stated without the loop. */
  lemma TransformIsLastHook(hooks: seq<Option<Hook>>, data: string)
    ensures Transform(hooks, data) == LastHookOutput(hooks, data)
  {
    RunHooksIsLastHook(hooks, data, data);
  }

  /** Fallback: one failing hook anywhere makes the pipeline yield the original payload. */
  lemma FailureFallsBackToOriginal(hooks: seq<Option<Hook>>, data: string, k: nat)
    requires k < |hooks| && hooks[k].Some? && hooks[k].value(data).Fail?
    ensures Transform(hooks, data) == data
  {
    TransformIsLastHook(hooks, data);
  }

  /** No bound interceptor defines the hook: the payload passes unchanged. */
  lemma NoHookIsIdentity(hooks: seq<Option<Hook>>, data: string)
    requires forall k :: 0 <= k < |hooks| ==> hooks[k].None?
    ensures Transform(hooks, data) == data
  {
    TransformIsLastHook(hooks, data);
  }

  /** With no failure, only the last defined hook decides the result; every
      defined hook before it is run for its failure alone. */
  lemma LastHookWins(hooks: seq<Option<Hook>>, data: string, k: nat)
    requires k < |hooks| && hooks[k].Some?
    requires forall j :: k < j < |hooks| ==> hooks[j].None?
    requires !SomeHookFails(hooks, data)
    ensures Transform(hooks, data) == hooks[k].value(data).out
  {
    TransformIsLastHook(hooks, data);
    var last := LastDefinedIndex(hooks);
    assert last == k;
  }

  // A chained fold (each hook fed the previous hook's output), kept here to
  // state where the code departs from it.

  function RunChained(hooks: seq<Option<Hook>>, current: string): HookResult
    decreases |hooks|
  {
    if hooks == [] then Ok(current)
    else match hooks[0]
      case None => RunChained(hooks[1..], current)
      case Some(h) =>
        match h(current)
        case Fail => Fail
        case Ok(out) => RunChained(hooks[1..], out)
  }

  function Chained(hooks: seq<Option<Hook>>, data: string): string {
    match RunChained(hooks, data)
    case Ok(out) => out
    case Fail => data
  }

  predicate AtMostOneHook(hooks: seq<Option<Hook>>) {
    forall i, j :: 0 <= i < j < |hooks| ==> hooks[i].None? || hooks[j].None?
  }

  lemma {:induction false} RunAgreesWithChained(hooks: seq<Option<Hook>>, data: string)
    requires AtMostOneHook(hooks)
    ensures RunHooks(hooks, data, data) == RunChained(hooks, data)
    decreases |hooks|
  {
    if hooks != [] {
      var tail := hooks[1..];
      assert AtMostOneHook(tail) by {
        forall i, j | 0 <= i < j < |tail| ensures tail[i].None? || tail[j].None? {
          assert tail[i] == hooks[i + 1] && tail[j] == hooks[j + 1];
        }
      }
      match hooks[0]
      case None =>
        RunAgreesWithChained(tail, data);
      case Some(h) =>
        match h(data)
        case Fail =>
        case Ok(out) =>
          assert forall j :: 0 <= j < |tail| ==> tail[j] == hooks[j + 1] && hooks[j + 1].None?;
          RunNoHooks(tail, data, out);
          RunChainedNoHooks(tail, out);
    }
  }

  lemma {:induction false} RunNoHooks(hooks: seq<Option<Hook>>, data: string, current: string)
    requires forall j :: 0 <= j < |hooks| ==> hooks[j].None?
    ensures RunHooks(hooks, data, current) == Ok(current)
    decreases |hooks|
  {
    if hooks != [] {
      RunNoHooks(hooks[1..], data, current);
    }
  }

  lemma {:induction false} RunChainedNoHooks(hooks: seq<Option<Hook>>, current: string)
    requires forall j :: 0 <= j < |hooks| ==> hooks[j].None?
    ensures RunChained(hooks, current) == Ok(current)
    decreases |hooks|
  {
    if hooks != [] {
      RunChainedNoHooks(hooks[1..], current);
    }
  }

  /** With at most one bound interceptor defining the hook, the code and a
      chained fold cannot be told apart. */
  lemma ChainingAgreesForOneHook(hooks: seq<Option<Hook>>, data: string)
    requires AtMostOneHook(hooks)
    ensures Transform(hooks, data) == Chained(hooks, data)
  {
    RunAgreesWithChained(hooks, data);
  }

  function Append(suffix: string): Hook {
    d => Ok(d + suffix)
  }

  /** Two interceptors appending "a" then "b" to "x": the code hands "xb" on,
      a chained fold would hand "xab" on. */
  lemma ChainingDiffersForTwoHooks()
    ensures Transform([Some(Append("a")), Some(Append("b"))], "x") == "xb"
    ensures Chained([Some(Append("a")), Some(Append("b"))], "x") == "xab"
  {
  }
}
