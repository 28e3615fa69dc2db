/** The dispatch logic shared by `BasicCommandBus` and `CommandBus`, written
    once and parametrised by which of the two buses is meant. The entry point
    `handle` / `execute` is `Dispatch`; the other dispatch methods keep their
    `BasicCommandBus` names. The constructor is `Registry.Empty`, the three
    abstract hooks are the `checkType`, `saveData` and `onHandlerException`
    fields of `Hooks`, the handlers' business logic is `behave`, and what
    they are asked to do is recorded as a trace of events. */
module Dispatcher {
  import opened Wrappers
  import opened Requests
  import opened Errors
  import opened Handler
  import Registry

  /** Which of the two near-identical buses: `Basic` is `BasicCommandBus`
      (entry point `handle`, runs `checkTypeOfCommand` first, wraps handler
      failures in `CannotHandleTheCommandException`); `Plain` is `CommandBus`
      (entry point `execute`, no type check, wraps in
      `CannotExecuteTheCommandException`). */
  datatype Flavour = Basic | Plain

  /** The code the bus calls but does not contain. A hook returning
      `Some(e)` throws `e`. */
  datatype Hooks = Hooks(
    behave: (HandlerId, Request) -> HandlerRun,     // CommandHandler::handle
    checkType: Request -> Option<Error>,            // checkTypeOfCommand
    saveData: Value -> Option<Error>,               // saveDataInRepository
    onHandlerException: HandlerId -> Option<Error>) // handleHandlerException

  /** The bus object: its variant, its hooks and its registry. */
  datatype Bus = Bus(flavour: Flavour, hooks: Hooks, registry: Registry.Table)
  {
    /** Every registered handler object exists. */
    predicate Wired(heap: Heap)
    {
      registry.Values <= heap.Keys
    }

    /** The exception class this variant wraps handler failures in. */
    function WrapperKind(): (k: ErrorKind)
    {
      if flavour == Basic then CannotHandleTheCommandException
      else CannotExecuteTheCommandException
    }
  }

  /** The live handler objects: each one's follow-up list. */
  type Heap = map<HandlerId, HandlerState>

  /** One call the bus makes to code outside it, or to `findHandler`. */
  datatype Event =
    | TypeChecked(request: Request)            // checkTypeOfCommand($command)
    | LookedUp(request: Request)               // findHandler($command)
    | Invoked(handler: HandlerId, request: Request) // $handler->handle($command)
    | HandlerExceptionHooked(handler: HandlerId)    // handleHandlerException($handler)
    | Saved(data: Value)                       // saveDataInRepository($data)

  /** How a dispatch ends. `OutOfFuel` is not a behaviour of the buses: it
      only marks a cascade deeper than the fuel the model was given. */
  datatype Status = Returned(value: Value) | Threw(error: Error) | OutOfFuel

  /** A finished dispatch: its status, the calls it made in order, and the
      handler objects afterwards. */
  datatype Outcome = Outcome(status: Status, trace: seq<Event>, heap: Heap)

  /** The part of a dispatch inside `tryToHandleCommand`. */
  datatype Step = Step(result: Result<Value, Error>, trace: seq<Event>, heap: Heap)

  /** `heap'` keeps the same handler objects, and each one's follow-up list
      is an extension of what it was. */
  ghost predicate Grows(heap: Heap, heap': Heap)
  {
    heap'.Keys == heap.Keys
    && forall h :: h in heap ==> heap[h].nextCommands <= heap'[h].nextCommands
  }

  /** The type check lets `req` through: it is absent (`CommandBus`) or it
      does not throw. */
  predicate Accepts(bus: Bus, req: Request)
  {
    bus.flavour == Plain || bus.hooks.checkType(req) == None
  }

  /** No `checkTypeOfCommand` call anywhere in `t`. */
  predicate NoTypeChecks(t: seq<Event>)
  {
    forall i :: 0 <= i < |t| ==> !t[i].TypeChecked?
  }

  /** The events a dispatch begins with before `findHandler`. */
  function Checks(bus: Bus, req: Request): (r: seq<Event>)
  {
    if bus.flavour == Basic then [TypeChecked(req)] else []
  }

  /** `tryToHandleCommand`: run the handler; a `HandlerException` makes the
      bus call `handleHandlerException` and then throw its wrapper with the
      original as cause; anything else the handler throws passes through. */
  function TryToHandleCommand(bus: Bus, heap: Heap, h: HandlerId, req: Request): (r: Step)
    requires h in heap
    ensures r.heap == heap[h := AddNextCommands(heap[h], bus.hooks.behave(h, req).appended)]
    ensures r.result.Success? <==> bus.hooks.behave(h, req).result.Returns?
    ensures r.result.Success? ==> r.result.value == bus.hooks.behave(h, req).result.value
    ensures r.trace != [] && r.trace[0] == Invoked(h, req)
    ensures forall i :: 0 <= i < |r.trace| ==> !r.trace[i].Saved? && !r.trace[i].LookedUp?
    ensures NoTypeChecks(r.trace)
  {
    var run := bus.hooks.behave(h, req);
    var heap' := heap[h := AddNextCommands(heap[h], run.appended)];
    match run.result
    case Returns(v) => Step(Success(v), [Invoked(h, req)], heap')
    case Throws(e) =>
      if e.kind.HandlerException? then
        var hooked := [Invoked(h, req), HandlerExceptionHooked(h)];
        match bus.hooks.onHandlerException(h)
        case Some(hookError) => Step(Failure(hookError), hooked, heap')
        case None => Step(Failure(CannotBeHandled(bus.WrapperKind(), req.className, e)), hooked, heap')
      else Step(Failure(e), [Invoked(h, req)], heap')
  }

  /** `handle` (BasicCommandBus) / `execute` (CommandBus): the single entry
      point, also used for every cascaded follow-up. */
  function Dispatch(bus: Bus, heap: Heap, req: Request, fuel: nat): (r: Outcome)
    requires bus.Wired(heap)
    ensures Grows(heap, r.heap) && bus.Wired(r.heap)
    ensures req.kind == Command && r.status.Returned? ==> r.status.value == Null
    ensures r.trace == [] <==> fuel == 0
    ensures bus.flavour == Plain ==> NoTypeChecks(r.trace)
    ensures fuel == 0 ==> r.status == OutOfFuel
    decreases fuel, 1
  {
    if fuel == 0 then Outcome(OutOfFuel, [], heap)
    else
      var checked := if bus.flavour == Basic then bus.hooks.checkType(req) else None;
      if checked.Some? then Outcome(Threw(checked.value), Checks(bus, req), heap)
      else
        var o := if req.kind == Query then HandleQuery(bus, heap, req)
                 else HandleCommand(bus, heap, req, fuel - 1);
        Outcome(o.status, Checks(bus, req) + o.trace, o.heap)
  }

  /** `handleQuery` / `executeQuery`: look up, run, and hand back the
      handler's value (the `output` slot); no save and no cascade. */
  function HandleQuery(bus: Bus, heap: Heap, req: Request): (r: Outcome)
    requires bus.Wired(heap)
    ensures Grows(heap, r.heap)
    ensures r.trace != [] && r.trace[0] == LookedUp(req)
    ensures NoTypeChecks(r.trace)
    ensures r.status != OutOfFuel
    ensures forall i :: 0 <= i < |r.trace| ==> !r.trace[i].Saved?
    ensures forall i :: 1 <= i < |r.trace| ==> !r.trace[i].LookedUp?
    ensures r.status.Returned? ==>
      && req.className in bus.registry
      && bus.hooks.behave(bus.registry[req.className], req).result.Returns?
      && r.status.value == bus.hooks.behave(bus.registry[req.className], req).result.value
    ensures req.className !in bus.registry ==> r.heap == heap
  {
    match Registry.FindHandler(bus.registry, req)
    case Failure(e) => Outcome(Threw(e), [LookedUp(req)], heap)
    case Success(h) =>
      var step := TryToHandleCommand(bus, heap, h, req);
      var status := if step.result.Success? then Returned(step.result.value) else Threw(step.result.error);
      Outcome(status, [LookedUp(req)] + step.trace, step.heap)
  }

  /** `handleCommand` / `executeCommand`: look up, run, save the handler's
      value, then cascade the handler's whole follow-up list. */
  function HandleCommand(bus: Bus, heap: Heap, req: Request, fuel: nat): (r: Outcome)
    requires bus.Wired(heap)
    ensures Grows(heap, r.heap)
    ensures r.status.Returned? ==> r.status.value == Null
    ensures r.trace != [] && r.trace[0] == LookedUp(req)
    ensures bus.flavour == Plain ==> NoTypeChecks(r.trace)
    decreases fuel + 1, 0
  {
    match Registry.FindHandler(bus.registry, req)
    case Failure(e) => Outcome(Threw(e), [LookedUp(req)], heap)
    case Success(h) =>
      var step := TryToHandleCommand(bus, heap, h, req);
      var pre := [LookedUp(req)] + step.trace;
      if step.result.Failure? then Outcome(Threw(step.result.error), pre, step.heap)
      else
        var data := step.result.value;
        match bus.hooks.saveData(data)
        case Some(e) => Outcome(Threw(e), pre + [Saved(data)], step.heap)
        case None =>
          var cascade := PassNextCommandsToTheBus(bus, step.heap, GetNextCommands(step.heap[h]), fuel);
          Outcome(cascade.status, pre + [Saved(data)] + cascade.trace, cascade.heap)
  }

  /** `passNextCommandsToTheBus` / `executeNextCommands`: dispatch each
      follow-up through the entry point, in list order; the first one that
      does not return ends the cascade with its status. Follow-ups' own
      return values are dropped. */
  function PassNextCommandsToTheBus(bus: Bus, heap: Heap, commands: seq<Request>, fuel: nat): (r: Outcome)
    requires bus.Wired(heap)
    ensures Grows(heap, r.heap) && bus.Wired(r.heap)
    ensures r.status.Returned? ==> r.status.value == Null
    ensures commands == [] ==> r.trace == []
    ensures bus.flavour == Plain ==> NoTypeChecks(r.trace)
    decreases fuel, |commands| + 2
  {
    if |commands| == 0 then Outcome(Returned(Null), [], heap)
    else
      var first := Dispatch(bus, heap, commands[0], fuel);
      if !first.status.Returned? then first
      else
        var rest := PassNextCommandsToTheBus(bus, first.heap, commands[1..], fuel);
        Outcome(rest.status, first.trace + rest.trace, rest.heap)
  }
}
