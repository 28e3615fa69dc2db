/** What one dispatch does on each of its paths, and how a cascade of
    follow-ups composes. Throughout, `h` is the handler registered for the
    request's class and `run` is what that handler's `handle` does. */
module BusProperties {
  import opened Wrappers
  import opened Requests
  import opened Errors
  import opened Handler
  import Registry
  import opened Dispatcher

  /** The heap after `h` has run once on `req`: its follow-ups appended. */
  function AfterRun(bus: Bus, heap: Heap, h: HandlerId, req: Request): (r: Heap)
    requires h in heap
  {
    heap[h := AddNextCommands(heap[h], bus.hooks.behave(h, req).appended)]
  }

  /** `BasicCommandBus::handle` calls `checkTypeOfCommand` before anything
      else; when it throws, nothing is looked up, run or saved. */
  lemma TypeCheckFailureStopsDispatch(bus: Bus, heap: Heap, req: Request, fuel: nat)
    requires bus.Wired(heap) && fuel > 0
    requires bus.flavour == Basic && bus.hooks.checkType(req).Some?
    ensures Dispatch(bus, heap, req, fuel)
         == Outcome(Threw(bus.hooks.checkType(req).value), [TypeChecked(req)], heap)
  {
  }

  /** A request whose exact class has no registry entry fails with
      `CannotFindHandlerException` naming the class, before any handler,
      failure hook or save runs. */
  lemma UnregisteredRequestFails(bus: Bus, heap: Heap, req: Request, fuel: nat)
    requires bus.Wired(heap) && fuel > 0 && Accepts(bus, req)
    requires req.className !in bus.registry
    ensures var r := Dispatch(bus, heap, req, fuel);
      && r.status.Threw?
      && r.status.error.kind == CannotFindHandlerException
      && r.status.error.message == Format(NotFoundTemplate, req.className)
      && r.status.error.previous == None
      && r.trace == Checks(bus, req) + [LookedUp(req)]
      && r.heap == heap
  {
  }

  /** A query returns exactly its handler's value and makes no save and no
      cascade; the only trace of the handler is its own invocation. */
  lemma QueryReturnsHandlerValue(bus: Bus, heap: Heap, req: Request, fuel: nat)
    requires bus.Wired(heap) && fuel > 0 && Accepts(bus, req)
    requires req.kind == Query && req.className in bus.registry
    requires bus.hooks.behave(bus.registry[req.className], req).result.Returns?
    ensures var h := bus.registry[req.className];
      var r := Dispatch(bus, heap, req, fuel);
      && r.status == Returned(bus.hooks.behave(h, req).result.value)
      && r.trace == Checks(bus, req) + [LookedUp(req), Invoked(h, req)]
      && r.heap == AfterRun(bus, heap, h, req)
  {
    var h := bus.registry[req.className];
    assert h in bus.registry.Values;
  }

  /** A command whose handler returns `v` has `v` saved once, right after the
      handler, and only then cascades the handler's WHOLE follow-up list:
      what was pending from earlier calls first, then what this call
      appended. The caller gets nothing back. */
  lemma CommandSavesThenCascades(bus: Bus, heap: Heap, req: Request, fuel: nat)
    requires bus.Wired(heap) && Accepts(bus, req)
    requires req.kind == Command && req.className in bus.registry
    requires bus.hooks.behave(bus.registry[req.className], req).result.Returns?
    requires bus.hooks.saveData(bus.hooks.behave(bus.registry[req.className], req).result.value) == None
    ensures var h := bus.registry[req.className];
      var run := bus.hooks.behave(h, req);
      var heap1 := AfterRun(bus, heap, h, req);
      var cascade := PassNextCommandsToTheBus(bus, heap1, heap[h].nextCommands + run.appended, fuel);
      var r := Dispatch(bus, heap, req, fuel + 1);
      && r.trace == Checks(bus, req) + [LookedUp(req), Invoked(h, req), Saved(run.result.value)] + cascade.trace
      && r.heap == cascade.heap
      && r.status == (if cascade.status.Returned? then Returned(Null) else cascade.status)
  {
    var h := bus.registry[req.className];
    assert h in bus.registry.Values;
    var run := bus.hooks.behave(h, req);
    var v := run.result.value;
    var heap1 := AfterRun(bus, heap, h, req);
    var step := TryToHandleCommand(bus, heap, h, req);
    assert step == Step(Success(v), [Invoked(h, req)], heap1);
    var list := GetNextCommands(heap1[h]);
    assert list == heap[h].nextCommands + run.appended;
    var cascade := PassNextCommandsToTheBus(bus, heap1, list, fuel);
    CommandPathUnfolds(bus, heap, req, fuel);
    DispatchUnfolds(bus, heap, req, fuel);
    Regroup(Checks(bus, req), LookedUp(req), Invoked(h, req), Saved(v), cascade.trace);
  }

  lemma Regroup(pre: seq<Event>, a: Event, b: Event, c: Event, rest: seq<Event>)
    ensures pre + ([a] + [b] + [c] + rest) == pre + [a, b, c] + rest
  {
    assert [a] + [b] + [c] == [a, b, c];
  }

  /** A dispatch that passes its type check is its checks followed by the
      query or command path. */
  lemma DispatchUnfolds(bus: Bus, heap: Heap, req: Request, fuel: nat)
    requires bus.Wired(heap) && Accepts(bus, req)
    ensures var o := if req.kind == Query then HandleQuery(bus, heap, req) else HandleCommand(bus, heap, req, fuel);
      Dispatch(bus, heap, req, fuel + 1) == Outcome(o.status, Checks(bus, req) + o.trace, o.heap)
  {
  }

  /** The command path when the handler returns and the save succeeds. */
  lemma CommandPathUnfolds(bus: Bus, heap: Heap, req: Request, fuel: nat)
    requires bus.Wired(heap) && req.className in bus.registry
    requires bus.hooks.behave(bus.registry[req.className], req).result.Returns?
    requires bus.hooks.saveData(bus.hooks.behave(bus.registry[req.className], req).result.value) == None
    ensures var h := bus.registry[req.className];
      var step := TryToHandleCommand(bus, heap, h, req);
      var cascade := PassNextCommandsToTheBus(bus, step.heap, GetNextCommands(step.heap[h]), fuel);
      HandleCommand(bus, heap, req, fuel)
      == Outcome(cascade.status, [LookedUp(req)] + step.trace + [Saved(step.result.value)] + cascade.trace, cascade.heap)
  {
    assert bus.registry[req.className] in bus.registry.Values;
  }

  /** A throwing `saveDataInRepository` propagates unchanged and stops the
      command before any follow-up is dispatched. */
  lemma SaveFailurePropagates(bus: Bus, heap: Heap, req: Request, fuel: nat)
    requires bus.Wired(heap) && fuel > 0 && Accepts(bus, req)
    requires req.kind == Command && req.className in bus.registry
    requires bus.hooks.behave(bus.registry[req.className], req).result.Returns?
    requires bus.hooks.saveData(bus.hooks.behave(bus.registry[req.className], req).result.value).Some?
    ensures var h := bus.registry[req.className];
      var v := bus.hooks.behave(h, req).result.value;
      Dispatch(bus, heap, req, fuel)
      == Outcome(Threw(bus.hooks.saveData(v).value),
                 Checks(bus, req) + [LookedUp(req), Invoked(h, req), Saved(v)],
                 AfterRun(bus, heap, h, req))
  {
    var h := bus.registry[req.className];
    assert h in bus.registry.Values;
  }

  /** A `HandlerException` (or subclass) from the handler, on either path:
      `handleHandlerException(h)` is called exactly once, then the bus throws
      its wrapper "Command '<class>' cannot be handled." with the original as
      cause, unless the hook itself throws, in which case that propagates.
      Nothing is saved and nothing cascades. */
  lemma HandlerExceptionIsWrapped(bus: Bus, heap: Heap, req: Request, fuel: nat)
    requires bus.Wired(heap) && fuel > 0 && Accepts(bus, req)
    requires req.className in bus.registry
    requires bus.hooks.behave(bus.registry[req.className], req).result.Throws?
    requires bus.hooks.behave(bus.registry[req.className], req).result.error.kind.HandlerException?
    ensures var h := bus.registry[req.className];
      var cause := bus.hooks.behave(h, req).result.error;
      var r := Dispatch(bus, heap, req, fuel);
      && r.trace == Checks(bus, req) + [LookedUp(req), Invoked(h, req), HandlerExceptionHooked(h)]
      && r.heap == AfterRun(bus, heap, h, req)
      && r.status == Threw(match bus.hooks.onHandlerException(h)
                           case Some(hookError) => hookError
                           case None => CannotBeHandled(bus.WrapperKind(), req.className, cause))
  {
    var h := bus.registry[req.className];
    assert h in bus.registry.Values;
  }

  /** Anything else the handler throws is not caught: it reaches the caller
      unchanged, with no failure hook, no save and no cascade. */
  lemma OtherHandlerErrorPropagates(bus: Bus, heap: Heap, req: Request, fuel: nat)
    requires bus.Wired(heap) && fuel > 0 && Accepts(bus, req)
    requires req.className in bus.registry
    requires bus.hooks.behave(bus.registry[req.className], req).result.Throws?
    requires !bus.hooks.behave(bus.registry[req.className], req).result.error.kind.HandlerException?
    ensures var h := bus.registry[req.className];
      Dispatch(bus, heap, req, fuel)
      == Outcome(Threw(bus.hooks.behave(h, req).result.error),
                 Checks(bus, req) + [LookedUp(req), Invoked(h, req)],
                 AfterRun(bus, heap, h, req))
  {
    var h := bus.registry[req.className];
    assert h in bus.registry.Values;
  }

  /** A cascade over `a + b` is the cascade over `a` followed, only if every
      follow-up in `a` returned, by the cascade over `b` on the handlers `a`
      left behind: list order, depth first, and the first failure ends it. */
  lemma {:induction false} CascadeSplits(bus: Bus, heap: Heap, a: seq<Request>, b: seq<Request>, fuel: nat)
    requires bus.Wired(heap)
    ensures var ra := PassNextCommandsToTheBus(bus, heap, a, fuel);
      PassNextCommandsToTheBus(bus, heap, a + b, fuel)
      == if ra.status.Returned? then
           var rb := PassNextCommandsToTheBus(bus, ra.heap, b, fuel);
           Outcome(rb.status, ra.trace + rb.trace, rb.heap)
         else ra
    decreases |a|
  {
    if |a| == 0 {
      assert a + b == b;
    } else {
      assert (a + b)[0] == a[0];
      assert (a + b)[1..] == a[1..] + b;
      var first := Dispatch(bus, heap, a[0], fuel);
      if first.status.Returned? {
        CascadeSplits(bus, first.heap, a[1..], b, fuel);
        var ra' := PassNextCommandsToTheBus(bus, first.heap, a[1..], fuel);
        if ra'.status.Returned? {
          var rb := PassNextCommandsToTheBus(bus, ra'.heap, b, fuel);
          assert first.trace + (ra'.trace + rb.trace) == (first.trace + ra'.trace) + rb.trace;
        }
      }
    }
  }

  /** A cascade of one follow-up is one dispatch through the entry point,
      with its return value dropped. */
  lemma CascadeOfOne(bus: Bus, heap: Heap, c: Request, fuel: nat)
    requires bus.Wired(heap)
    ensures var d := Dispatch(bus, heap, c, fuel);
      PassNextCommandsToTheBus(bus, heap, [c], fuel)
      == if d.status.Returned? then Outcome(Returned(Null), d.trace, d.heap) else d
  {
    var d := Dispatch(bus, heap, c, fuel);
    if d.status.Returned? {
      var rest := PassNextCommandsToTheBus(bus, d.heap, [c][1..], fuel);
      assert [c][1..] == [];
      assert d.trace + rest.trace == d.trace;
    }
  }

  /** An empty follow-up list dispatches nothing and changes nothing. */
  lemma EmptyCascadeDoesNothing(bus: Bus, heap: Heap, fuel: nat)
    requires bus.Wired(heap)
    ensures PassNextCommandsToTheBus(bus, heap, [], fuel) == Outcome(Returned(Null), [], heap)
  {
  }
}
