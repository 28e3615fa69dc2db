/** Properties of whole cascades: where the type check sits in the trace,
    what a reused handler re-offers, and the missing depth bound. */
module Cascade {
  import opened Wrappers
  import opened Requests
  import opened Errors
  import opened Handler
  import Registry
  import opened Dispatcher
  import opened BusProperties

  /** Every `findHandler` call is immediately preceded by
      `checkTypeOfCommand` on the same request: no lookup opens the trace,
      and each adjacent pair ending in a lookup starts with its check. */
  ghost predicate ChecksBeforeLookups(t: seq<Event>)
  {
    (t == [] || !t[0].LookedUp?) && LookupsFollowChecks(t)
  }

  ghost predicate LookupsFollowChecks(t: seq<Event>)
    decreases |t|
  {
    |t| < 2 || ((t[1].LookedUp? ==> t[0] == TypeChecked(t[1].request)) && LookupsFollowChecks(t[1..]))
  }

  /** The adjacency condition, read position by position. */
  lemma {:induction false} LookupsFollowChecksAt(t: seq<Event>)
    ensures LookupsFollowChecks(t) <==>
      forall i, j :: 0 <= i && j == i + 1 && j < |t| && t[j].LookedUp? ==> t[i] == TypeChecked(t[j].request)
    decreases |t|
  {
    if |t| >= 2 {
      LookupsFollowChecksAt(t[1..]);
      var u := t[1..];
      assert forall j :: 0 <= j < |u| ==> u[j] == t[j + 1];
    }
  }

  lemma ConcatChecksBeforeLookups(a: seq<Event>, b: seq<Event>)
    requires ChecksBeforeLookups(a) && ChecksBeforeLookups(b)
    ensures ChecksBeforeLookups(a + b)
  {
    ConcatLookupsFollowChecks(a, b);
    if a == [] {
      assert a + b == b;
    }
  }

  /** Gluing two traces cannot break the adjacency condition unless the
      second one opens with a lookup. */
  lemma {:induction false} ConcatLookupsFollowChecks(a: seq<Event>, b: seq<Event>)
    requires LookupsFollowChecks(a) && LookupsFollowChecks(b)
    requires b == [] || !b[0].LookedUp?
    ensures LookupsFollowChecks(a + b)
    decreases |a|
  {
    if |a| > 1 {
      ConcatLookupsFollowChecks(a[1..], b);
      assert (a + b)[1..] == a[1..] + b;
    } else if |a| == 1 {
      assert (a + b)[1..] == b;
    } else {
      assert a + b == b;
    }
  }

  /** A dispatch's own check followed by its handling, whose lookup comes
      first. */
  lemma PrependCheck(req: Request, t: seq<Event>)
    requires t != [] && t[0] == LookedUp(req)
    requires ChecksBeforeLookups(t[1..])
    ensures ChecksBeforeLookups([TypeChecked(req)] + t)
  {
    assert ChecksBeforeLookups([TypeChecked(req), LookedUp(req)]);
    ConcatChecksBeforeLookups([TypeChecked(req), LookedUp(req)], t[1..]);
    assert [TypeChecked(req)] + t == [TypeChecked(req), LookedUp(req)] + t[1..];
  }

  lemma StepHasNoLookups(bus: Bus, heap: Heap, h: HandlerId, req: Request)
    requires h in heap
    ensures ChecksBeforeLookups(TryToHandleCommand(bus, heap, h, req).trace)
  {
  }

  /** In `BasicCommandBus`, every dispatch (the top-level one and every
      cascaded follow-up) runs the type check right before its lookup. */
  lemma {:induction false} DispatchChecksFirst(bus: Bus, heap: Heap, req: Request, fuel: nat)
    requires bus.Wired(heap) && bus.flavour == Basic
    ensures var t := Dispatch(bus, heap, req, fuel).trace;
      ChecksBeforeLookups(t) && (t == [] || t[0] == TypeChecked(req))
    decreases fuel, 3
  {
    if fuel > 0 && bus.hooks.checkType(req).None? {
      FirstEvent(bus, heap, req, fuel - 1);
      if req.kind == Query {
        QueryChecksFirst(bus, heap, req, fuel - 1);
      } else {
        CommandChecksFirst(bus, heap, req, fuel - 1);
      }
    } else if fuel > 0 {
      TypeCheckFailureStopsDispatch(bus, heap, req, fuel);
    }
  }

  lemma QueryChecksFirst(bus: Bus, heap: Heap, req: Request, fuel: nat)
    requires bus.Wired(heap) && bus.flavour == Basic
    requires req.kind == Query && bus.hooks.checkType(req).None?
    ensures ChecksBeforeLookups(Dispatch(bus, heap, req, fuel + 1).trace)
  {
    var t := HandleQuery(bus, heap, req).trace;
    if req.className in bus.registry {
      var h := bus.registry[req.className];
      assert h in bus.registry.Values;
      StepHasNoLookups(bus, heap, h, req);
      assert t[1..] == TryToHandleCommand(bus, heap, h, req).trace;
    }
    PrependCheck(req, t);
    DispatchUnfolds(bus, heap, req, fuel);
  }

  lemma {:induction false} CommandChecksFirst(bus: Bus, heap: Heap, req: Request, fuel: nat)
    requires bus.Wired(heap) && bus.flavour == Basic
    requires req.kind == Command && bus.hooks.checkType(req).None?
    ensures ChecksBeforeLookups(Dispatch(bus, heap, req, fuel + 1).trace)
    decreases fuel + 1, 2
  {
    CommandTailChecksFirst(bus, heap, req, fuel);
    PrependCheck(req, HandleCommand(bus, heap, req, fuel).trace);
    DispatchUnfolds(bus, heap, req, fuel + 1);
  }

  lemma {:induction false} CommandTailChecksFirst(bus: Bus, heap: Heap, req: Request, fuel: nat)
    requires bus.Wired(heap) && bus.flavour == Basic
    ensures var t := HandleCommand(bus, heap, req, fuel).trace;
      ChecksBeforeLookups(t[1..])
    decreases fuel + 1, 1
  {
    if req.className in bus.registry {
      var h := bus.registry[req.className];
      assert h in bus.registry.Values;
      var step := TryToHandleCommand(bus, heap, h, req);
      StepHasNoLookups(bus, heap, h, req);
      if step.result.Success? && bus.hooks.saveData(step.result.value).None? {
        SavedCommandChecksFirst(bus, heap, req, fuel);
      } else {
        var tail := step.trace;
        if step.result.Success? {
          tail := step.trace + [Saved(step.result.value)];
          SavedThenCascade(step.trace, step.result.value, []);
          assert tail == step.trace + [Saved(step.result.value)] + [];
        }
        var t := HandleCommand(bus, heap, req, fuel).trace;
        assert t == [LookedUp(req)] + tail;
        assert t[1..] == tail;
      }
    }
  }

  lemma {:induction false} SavedCommandChecksFirst(bus: Bus, heap: Heap, req: Request, fuel: nat)
    requires bus.Wired(heap) && bus.flavour == Basic && req.className in bus.registry
    requires var step := TryToHandleCommand(bus, heap, bus.registry[req.className], req);
      step.result.Success? && bus.hooks.saveData(step.result.value).None?
    ensures var t := HandleCommand(bus, heap, req, fuel).trace;
      ChecksBeforeLookups(t[1..])
    decreases fuel + 1, 0
  {
    var h := bus.registry[req.className];
    assert h in bus.registry.Values;
    var step := TryToHandleCommand(bus, heap, h, req);
    StepHasNoLookups(bus, heap, h, req);
    var cascade := PassNextCommandsToTheBus(bus, step.heap, GetNextCommands(step.heap[h]), fuel);
    CascadeChecksFirst(bus, step.heap, GetNextCommands(step.heap[h]), fuel);
    var tail := step.trace + [Saved(step.result.value)] + cascade.trace;
    SavedThenCascade(step.trace, step.result.value, cascade.trace);
    var t := HandleCommand(bus, heap, req, fuel).trace;
    assert t == [LookedUp(req)] + tail;
    assert t[1..] == tail;
  }

  lemma SavedThenCascade(step: seq<Event>, v: Value, cascade: seq<Event>)
    requires ChecksBeforeLookups(step) && ChecksBeforeLookups(cascade)
    ensures ChecksBeforeLookups(step + [Saved(v)] + cascade)
  {
    ConcatChecksBeforeLookups(step, [Saved(v)]);
    ConcatChecksBeforeLookups(step + [Saved(v)], cascade);
  }

  lemma {:induction false} CascadeChecksFirst(bus: Bus, heap: Heap, commands: seq<Request>, fuel: nat)
    requires bus.Wired(heap) && bus.flavour == Basic
    ensures var t := PassNextCommandsToTheBus(bus, heap, commands, fuel).trace;
      ChecksBeforeLookups(t) && (t == [] || t[0].TypeChecked?)
    decreases fuel, |commands| + 3
  {
    if |commands| > 0 {
      var first := Dispatch(bus, heap, commands[0], fuel);
      DispatchChecksFirst(bus, heap, commands[0], fuel);
      if first.status.Returned? {
        var rest := PassNextCommandsToTheBus(bus, first.heap, commands[1..], fuel);
        CascadeChecksFirst(bus, first.heap, commands[1..], fuel);
        ConcatChecksBeforeLookups(first.trace, rest.trace);
      }
    }
  }

  /** Because the follow-up list is never cleared, a command routed to a
      handler that still holds follow-ups from earlier calls dispatches the
      oldest of them first, right after the save. */
  lemma ReusedHandlerReoffers(bus: Bus, heap: Heap, req: Request, fuel: nat)
    requires bus.Wired(heap) && Accepts(bus, req)
    requires req.kind == Command && req.className in bus.registry
    requires bus.hooks.behave(bus.registry[req.className], req).result.Returns?
    requires bus.hooks.saveData(bus.hooks.behave(bus.registry[req.className], req).result.value) == None
    requires heap[bus.registry[req.className]].nextCommands != []
    ensures var earlier := heap[bus.registry[req.className]].nextCommands[0];
      var t := Dispatch(bus, heap, req, fuel + 2).trace;
      var k := |Checks(bus, req)| + 3;
      |t| > k && t[k] == (if bus.flavour == Basic then TypeChecked(earlier) else LookedUp(earlier))
  {
    var h := bus.registry[req.className];
    assert h in bus.registry.Values;
    var run := bus.hooks.behave(h, req);
    var heap1 := AfterRun(bus, heap, h, req);
    var list := heap[h].nextCommands + run.appended;
    CommandSavesThenCascades(bus, heap, req, fuel + 1);
    var earlier := heap[h].nextCommands[0];
    assert list[0] == earlier;
    CascadeBeginsWithFirst(bus, heap1, list, fuel + 1);
    FirstEvent(bus, heap1, earlier, fuel);
    var c := PassNextCommandsToTheBus(bus, heap1, list, fuel + 1).trace;
    IndexPastPrefix(Checks(bus, req), LookedUp(req), Invoked(h, req), Saved(run.result.value), c);
  }

  lemma IndexPastPrefix(a: seq<Event>, x: Event, y: Event, z: Event, c: seq<Event>)
    requires c != []
    ensures |a + [x, y, z] + c| > |a| + 3 && (a + [x, y, z] + c)[|a| + 3] == c[0]
  {
  }

  /** A dispatch with fuel left starts with its type check (`handle`) or its
      lookup (`execute`). */
  lemma FirstEvent(bus: Bus, heap: Heap, req: Request, fuel: nat)
    requires bus.Wired(heap)
    ensures var t := Dispatch(bus, heap, req, fuel + 1).trace;
      t != [] && t[0] == (if bus.flavour == Basic then TypeChecked(req) else LookedUp(req))
  {
    if Accepts(bus, req) {
      DispatchUnfolds(bus, heap, req, fuel);
    }
  }

  /** A non-empty cascade's trace begins with the whole trace of its first
      follow-up's dispatch. */
  lemma CascadeBeginsWithFirst(bus: Bus, heap: Heap, commands: seq<Request>, fuel: nat)
    requires bus.Wired(heap) && commands != []
    ensures var first := Dispatch(bus, heap, commands[0], fuel).trace;
      var t := PassNextCommandsToTheBus(bus, heap, commands, fuel).trace;
      |first| <= |t| && t[..|first|] == first
  {
    var first := Dispatch(bus, heap, commands[0], fuel);
    if first.status.Returned? {
      var rest := PassNextCommandsToTheBus(bus, first.heap, commands[1..], fuel);
      assert (first.trace + rest.trace)[..|first.trace|] == first.trace;
    }
  }

  /** The handler `h` handles every request of class `n`, returns without
      throwing, and the hooks accept and save whatever it returns. */
  ghost predicate AlwaysSucceeds(bus: Bus, h: HandlerId, n: ClassName)
  {
    forall r: Request | r.className == n ::
      && Accepts(bus, r)
      && bus.hooks.behave(h, r).result.Returns?
      && bus.hooks.saveData(bus.hooks.behave(h, r).result.value) == None
  }

  /** After handling `req`, the handler's list starts with a command that is
      routed back to that same handler. */
  ghost predicate LoopsBack(bus: Bus, heap: Heap, h: HandlerId, req: Request)
    requires h in heap
  {
    var l := heap[h].nextCommands + bus.hooks.behave(h, req).appended;
    l != [] && l[0].kind == Command && l[0].className == req.className
  }

  /** Neither bus bounds the cascade depth or detects cycles: once a
      successful handler's list starts with a command of its own class, the
      dispatch recurses without end, whatever fuel the model is given. */
  lemma {:induction false} SelfRoutedFollowUpNeverEnds(bus: Bus, heap: Heap, req: Request, fuel: nat)
    requires bus.Wired(heap)
    requires req.kind == Command && req.className in bus.registry
    requires AlwaysSucceeds(bus, bus.registry[req.className], req.className)
    requires bus.registry[req.className] in heap
    requires LoopsBack(bus, heap, bus.registry[req.className], req)
    ensures Dispatch(bus, heap, req, fuel).status == OutOfFuel
    decreases fuel, 1
  {
    if fuel > 0 {
      SelfRoutedStep(bus, heap, req, fuel - 1);
    }
  }

  /** One turn of the loop: the command saves, then its cascade re-enters
      the same handler with one level less. */
  lemma {:induction false} SelfRoutedStep(bus: Bus, heap: Heap, req: Request, fuel: nat)
    requires bus.Wired(heap)
    requires req.kind == Command && req.className in bus.registry
    requires AlwaysSucceeds(bus, bus.registry[req.className], req.className)
    requires bus.registry[req.className] in heap
    requires LoopsBack(bus, heap, bus.registry[req.className], req)
    ensures Dispatch(bus, heap, req, fuel + 1).status == OutOfFuel
    decreases fuel + 1, 0
  {
    var h := bus.registry[req.className];
    assert Accepts(bus, req) && bus.hooks.behave(h, req).result.Returns?;
    CommandSavesThenCascades(bus, heap, req, fuel);
    var heap1 := AfterRun(bus, heap, h, req);
    var list := heap[h].nextCommands + bus.hooks.behave(h, req).appended;
    var next := list[0];
    assert heap1[h].nextCommands == list;
    assert LoopsBack(bus, heap1, h, next);
    SelfRoutedFollowUpNeverEnds(bus, heap1, next, fuel);
  }
}
