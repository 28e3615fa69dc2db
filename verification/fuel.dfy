/** The fuel argument only bounds how deep the model looks: a dispatch that
    finished within some fuel finishes the same way, with the same trace and
    the same handler objects, given any more. */
module FuelAdequacy {
  import opened Wrappers
  import opened Requests
  import opened Errors
  import opened Handler
  import Registry
  import opened Dispatcher
  import opened BusProperties

  /** One more level of fuel changes nothing once a dispatch finishes. */
  lemma {:induction false} DispatchFuelMonotone(bus: Bus, heap: Heap, req: Request, fuel: nat)
    requires bus.Wired(heap)
    requires Dispatch(bus, heap, req, fuel).status != OutOfFuel
    ensures Dispatch(bus, heap, req, fuel + 1) == Dispatch(bus, heap, req, fuel)
    decreases fuel, 3
  {
    if !Accepts(bus, req) {
      TypeCheckFailureStopsDispatch(bus, heap, req, fuel);
      TypeCheckFailureStopsDispatch(bus, heap, req, fuel + 1);
    } else {
      AcceptedFuelMonotone(bus, heap, req, fuel - 1);
    }
  }

  lemma {:induction false} AcceptedFuelMonotone(bus: Bus, heap: Heap, req: Request, fuel: nat)
    requires bus.Wired(heap) && Accepts(bus, req)
    requires Dispatch(bus, heap, req, fuel + 1).status != OutOfFuel
    ensures Dispatch(bus, heap, req, fuel + 2) == Dispatch(bus, heap, req, fuel + 1)
    decreases fuel + 1, 2
  {
    DispatchUnfolds(bus, heap, req, fuel);
    DispatchUnfolds(bus, heap, req, fuel + 1);
    if req.kind == Command {
      CommandFuelMonotone(bus, heap, req, fuel);
    }
  }

  lemma {:induction false} CommandFuelMonotone(bus: Bus, heap: Heap, req: Request, fuel: nat)
    requires bus.Wired(heap)
    requires HandleCommand(bus, heap, req, fuel).status != OutOfFuel
    ensures HandleCommand(bus, heap, req, fuel + 1) == HandleCommand(bus, heap, req, fuel)
    decreases fuel + 1, 1
  {
    if req.className in bus.registry {
      var h := bus.registry[req.className];
      assert h in bus.registry.Values;
      var step := TryToHandleCommand(bus, heap, h, req);
      if step.result.Success? && bus.hooks.saveData(step.result.value).None? {
        CommandPathUnfolds(bus, heap, req, fuel);
        CommandPathUnfolds(bus, heap, req, fuel + 1);
        CascadeFuelMonotone(bus, step.heap, GetNextCommands(step.heap[h]), fuel);
      }
    }
  }

  lemma {:induction false} CascadeFuelMonotone(bus: Bus, heap: Heap, commands: seq<Request>, fuel: nat)
    requires bus.Wired(heap)
    requires PassNextCommandsToTheBus(bus, heap, commands, fuel).status != OutOfFuel
    ensures PassNextCommandsToTheBus(bus, heap, commands, fuel + 1)
         == PassNextCommandsToTheBus(bus, heap, commands, fuel)
    decreases fuel, |commands| + 3
  {
    if |commands| > 0 {
      var first := Dispatch(bus, heap, commands[0], fuel);
      DispatchFuelMonotone(bus, heap, commands[0], fuel);
      if first.status.Returned? {
        CascadeFuelMonotone(bus, first.heap, commands[1..], fuel);
      }
    }
  }

  /** Hence any two fuels at which a dispatch finishes give the same result. */
  lemma {:induction false} FuelIrrelevant(bus: Bus, heap: Heap, req: Request, fuel: nat, more: nat)
    requires bus.Wired(heap) && fuel <= more
    requires Dispatch(bus, heap, req, fuel).status != OutOfFuel
    ensures Dispatch(bus, heap, req, more) == Dispatch(bus, heap, req, fuel)
    decreases more - fuel
  {
    if fuel < more {
      DispatchFuelMonotone(bus, heap, req, fuel);
      FuelIrrelevant(bus, heap, req, fuel + 1, more);
    }
  }
}
