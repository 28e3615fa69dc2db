/** `CommandBus::execute` and `BasicCommandBus::handle` are the same dispatch
    when the latter's `checkTypeOfCommand` accepts everything: same handlers
    run, same saves, same follow-ups, same handler objects afterwards, and
    the same outcome except that the wrapper class of a handler failure is
    named differently. */
module BusEquivalence {
  import opened Wrappers
  import opened Requests
  import opened Errors
  import opened Handler
  import Registry
  import opened Dispatcher
  import opened BusProperties

  /** A trace with the type-check events removed, order kept. */
  function WithoutTypeChecks(t: seq<Event>): (r: seq<Event>)
    ensures |r| <= |t|
    ensures forall i :: 0 <= i < |r| ==> !r[i].TypeChecked?
    decreases |t|
  {
    if |t| == 0 then []
    else if t[0].TypeChecked? then WithoutTypeChecks(t[1..])
    else [t[0]] + WithoutTypeChecks(t[1..])
  }

  lemma {:induction false} WithoutTypeChecksConcat(a: seq<Event>, b: seq<Event>)
    ensures WithoutTypeChecks(a + b) == WithoutTypeChecks(a) + WithoutTypeChecks(b)
    decreases |a|
  {
    if |a| > 0 {
      assert (a + b)[0] == a[0];
      assert (a + b)[1..] == a[1..] + b;
      WithoutTypeChecksConcat(a[1..], b);
    } else {
      assert a + b == b;
    }
  }

  /** A trace with no type-check events is left as it is. */
  lemma {:induction false} WithoutTypeChecksKeeps(t: seq<Event>)
    requires forall i :: 0 <= i < |t| ==> !t[i].TypeChecked?
    ensures WithoutTypeChecks(t) == t
    decreases |t|
  {
    if |t| > 0 {
      WithoutTypeChecksKeeps(t[1..]);
    }
  }

  /** Names the `BasicCommandBus` wrapper as the `CommandBus` one. */
  function RelabelError(e: Error): (r: Error)
    ensures r.message == e.message && r.previous == e.previous
    ensures r.kind != CannotHandleTheCommandException
    ensures e.kind != CannotHandleTheCommandException ==> r == e
  {
    if e.kind == CannotHandleTheCommandException then e.(kind := CannotExecuteTheCommandException) else e
  }

  function Relabel(s: Status): (r: Status)
    ensures r.Returned? <==> s.Returned?
    ensures s.Returned? ==> r == s
  {
    if s.Threw? then Threw(RelabelError(s.error)) else s
  }

  /** The two variants, sharing hooks and registry. */
  function BasicBus(hooks: Hooks, registry: Registry.Table): (b: Bus)
  {
    Bus(Basic, hooks, registry)
  }

  function PlainBus(hooks: Hooks, registry: Registry.Table): (b: Bus)
  {
    Bus(Plain, hooks, registry)
  }

  /** `b` (from the basic bus) and `p` (from the plain one) agree. */
  ghost predicate Agree(b: Outcome, p: Outcome)
  {
    Relabel(b.status) == Relabel(p.status) && WithoutTypeChecks(b.trace) == p.trace && b.heap == p.heap
  }

  ghost predicate AcceptsAll(hooks: Hooks)
  {
    forall r :: hooks.checkType(r) == None
  }

  lemma StepsAgree(hooks: Hooks, registry: Registry.Table, heap: Heap, h: HandlerId, req: Request)
    requires h in heap
    ensures var b := TryToHandleCommand(BasicBus(hooks, registry), heap, h, req);
      var p := TryToHandleCommand(PlainBus(hooks, registry), heap, h, req);
      && b.trace == p.trace && b.heap == p.heap && b.result.Success? == p.result.Success?
      && (b.result.Success? ==> b.result.value == p.result.value)
      && (b.result.Failure? ==> RelabelError(b.result.error) == RelabelError(p.result.error))
  {
  }

  /** With an accept-all type check the two entry points agree on every
      request, at every depth of cascade. */
  lemma {:induction false} BusesAgree(hooks: Hooks, registry: Registry.Table, heap: Heap, req: Request, fuel: nat)
    requires AcceptsAll(hooks) && registry.Values <= heap.Keys
    ensures Agree(Dispatch(BasicBus(hooks, registry), heap, req, fuel),
                  Dispatch(PlainBus(hooks, registry), heap, req, fuel))
    decreases fuel, 2
  {
    if fuel > 0 {
      AcceptedDispatchesAgree(hooks, registry, heap, req, fuel - 1);
    }
  }

  /** Past the type check, both dispatches are their checks followed by
      agreeing query or command paths. */
  lemma {:induction false} AcceptedDispatchesAgree(hooks: Hooks, registry: Registry.Table, heap: Heap, req: Request, fuel: nat)
    requires AcceptsAll(hooks) && registry.Values <= heap.Keys
    ensures Agree(Dispatch(BasicBus(hooks, registry), heap, req, fuel + 1),
                  Dispatch(PlainBus(hooks, registry), heap, req, fuel + 1))
    decreases fuel + 1, 1
  {
    var basic := BasicBus(hooks, registry);
    var plain := PlainBus(hooks, registry);
    assert hooks.checkType(req) == None;
    var ob := if req.kind == Query then HandleQuery(basic, heap, req) else HandleCommand(basic, heap, req, fuel);
    var op := if req.kind == Query then HandleQuery(plain, heap, req) else HandleCommand(plain, heap, req, fuel);
    if req.kind == Query {
      QueriesAgree(hooks, registry, heap, req);
    } else {
      CommandsAgree(hooks, registry, heap, req, fuel);
    }
    assert Agree(ob, op);
    DispatchUnfolds(basic, heap, req, fuel);
    DispatchUnfolds(plain, heap, req, fuel);
    WithoutTypeChecksConcat([TypeChecked(req)], ob.trace);
    assert WithoutTypeChecks([TypeChecked(req)]) == [];
  }

  lemma QueriesAgree(hooks: Hooks, registry: Registry.Table, heap: Heap, req: Request)
    requires registry.Values <= heap.Keys
    ensures Agree(HandleQuery(BasicBus(hooks, registry), heap, req),
                  HandleQuery(PlainBus(hooks, registry), heap, req))
  {
    var b := HandleQuery(BasicBus(hooks, registry), heap, req);
    if req.className in registry {
      var h := registry[req.className];
      assert h in registry.Values;
      StepsAgree(hooks, registry, heap, h, req);
    }
    WithoutTypeChecksKeeps(b.trace);
  }

  lemma {:induction false} CommandsAgree(hooks: Hooks, registry: Registry.Table, heap: Heap, req: Request, fuel: nat)
    requires AcceptsAll(hooks) && registry.Values <= heap.Keys
    ensures Agree(HandleCommand(BasicBus(hooks, registry), heap, req, fuel),
                  HandleCommand(PlainBus(hooks, registry), heap, req, fuel))
    decreases fuel + 1, 0
  {
    var basic := BasicBus(hooks, registry);
    var plain := PlainBus(hooks, registry);
    if req.className in registry {
      var h := registry[req.className];
      assert h in registry.Values;
      StepsAgree(hooks, registry, heap, h, req);
      var sb := TryToHandleCommand(basic, heap, h, req);
      var pre := [LookedUp(req)] + sb.trace;
      WithoutTypeChecksKeeps(pre);
      if sb.result.Success? && hooks.saveData(sb.result.value).None? {
        var list := GetNextCommands(sb.heap[h]);
        var cb := PassNextCommandsToTheBus(basic, sb.heap, list, fuel);
        var cp := PassNextCommandsToTheBus(plain, sb.heap, list, fuel);
        CascadesAgree(hooks, registry, sb.heap, list, fuel);
        WithoutTypeChecksConcat(pre + [Saved(sb.result.value)], cb.trace);
        WithoutTypeChecksKeeps(pre + [Saved(sb.result.value)]);
      } else if sb.result.Success? {
        WithoutTypeChecksKeeps(pre + [Saved(sb.result.value)]);
      }
    }
  }

  lemma {:induction false} CascadesAgree(hooks: Hooks, registry: Registry.Table, heap: Heap, commands: seq<Request>, fuel: nat)
    requires AcceptsAll(hooks) && registry.Values <= heap.Keys
    ensures Agree(PassNextCommandsToTheBus(BasicBus(hooks, registry), heap, commands, fuel),
                  PassNextCommandsToTheBus(PlainBus(hooks, registry), heap, commands, fuel))
    decreases fuel, |commands| + 3
  {
    if |commands| > 0 {
      var basic := BasicBus(hooks, registry);
      var plain := PlainBus(hooks, registry);
      var fb := Dispatch(basic, heap, commands[0], fuel);
      var fp := Dispatch(plain, heap, commands[0], fuel);
      BusesAgree(hooks, registry, heap, commands[0], fuel);
      if fb.status.Returned? {
        CascadesAgree(hooks, registry, fb.heap, commands[1..], fuel);
        var rb := PassNextCommandsToTheBus(basic, fb.heap, commands[1..], fuel);
        WithoutTypeChecksConcat(fb.trace, rb.trace);
      }
    }
  }
}
