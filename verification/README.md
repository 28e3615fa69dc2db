# CQRS command bus: a Dafny model of dispatch and cascading

This project models the in-process CQRS command bus of the PHP library
`BartoszBartniczak\CQRS`. It covers the two near-identical dispatchers,
`BasicCommandBus` and `CommandBus`, and the follow-up list that every
`CommandHandler` owns. It then proves what the dispatchers promise: routing,
error wrapping, saving, and how follow-ups cascade.

How the model is built:

- **Requests** (`requests.dfy`). A request is a class name plus a kind, `Command` or `Query`. In PHP the kind is `instanceof Query`. Handlers return opaque values. `Null` stands for a `void` result.
- **Errors** (`errors.dfy`). An exception is a kind, a message and an optional cause, which is PHP's `$previous`. The two messages the bus formats with `sprintf` are templates split at `%s`. Formatting and parsing a message are proved to be inverse.
- **Handlers** (`handler.dfy`). A handler's state is its list of follow-up commands. `New`, `GetNextCommands` and `AddNextCommand` are the constructor and the two methods. One run of the abstract `handle` is a `HandlerRun`: the follow-ups it appended, then the value it returned or the error it threw.
- **Registry** (`registry.dfy`). The handler table maps an exact class name to a handler identity.
- **Dispatch** (`bus.dfy`, module `Dispatcher`). Both buses are one set of pure functions parametrised by a `Flavour`:
  - `Basic` is `BasicCommandBus`. Its entry point is `handle`. It runs `checkTypeOfCommand` first and wraps handler failures in `CannotHandleTheCommandException`.
  - `Plain` is `CommandBus`. Its entry point is `execute`. It runs no type check and wraps handler failures in `CannotExecuteTheCommandException`.
- **Inputs and results of a dispatch.**
  - The abstract hooks and the handlers' business logic are function parameters in `Hooks`. A hook that returns `Some(e)` throws `e`.
  - Handler objects are a heap from identity to state. The heap is threaded through every call, because the bus reads each handler's live, never-cleared list.
  - A dispatch yields an `Outcome`: how it ended, the ordered trace of calls the bus made (type check, lookup, handler, failure hook, save), and the heap afterwards.
- **Fuel.** Dispatch recurses through the follow-up cascade and carries a fuel argument so that the recursion terminates. Fuel is a proof device only. `OutOfFuel` marks a cascade deeper than the model was asked to look, and `FuelAdequacy` proves that more fuel never changes a finished dispatch.
- **Properties.**
  - `BusProperties`: one lemma per path through a dispatch.
  - `Cascade`: whole-cascade properties. The type check comes right before every lookup. A reused handler re-offers old follow-ups. A self-routed follow-up recurses forever.
  - `BusEquivalence`: the two buses agree when the type check accepts everything.
  - `Scenarios`: concrete runs, including the repository's cascade test.

The handler's list is read with `getNextCommands` and is never drained or
cleared after a dispatch. A reused handler therefore dispatches its old
follow-ups again on every later command (`Cascade.ReusedHandlerReoffers`,
`Scenarios.SecondDepositResendsNotification`).

## Model

| member | source | states |
|---|---|---|
| Errors.Format | src/Command/Bus/BasicCommandBus.php:107 | a formatted message is the template's text up to `%s`, then exactly the class name, then the rest of the template; `Errors.ParseFormat` inverts it |
| Errors.CannotFindHandler | src/Command/Bus/BasicCommandBus.php:107 | the not-found exception has kind CannotFindHandlerException and no cause, and its message names exactly the request's class |
| Errors.CannotBeHandled | src/Command/Bus/BasicCommandBus.php:124 | the wrapper exception has the bus's wrapper kind, keeps the handler's exception as its cause, and its message names exactly the request's class |
| Errors.ParseFormat | src/Command/Bus/CommandBus.php:98 | the class name can be read back from every message the bus formats |
| Errors.FormatParse | src/Command/Bus/CommandBus.php:115 | every message of the template's shape is the formatting of the name it carries |
| Errors.FormatInjective | src/Command/Bus/BasicCommandBus.php:124 | distinct class names never give the same message |
| Registry.RegisterHandler | src/Command/Bus/BasicCommandBus.php:49-52 | registering adds the name (or keeps it), maps it to the new handler, and leaves every other name's handler as it was |
| Registry.FindHandler | src/Command/Bus/BasicCommandBus.php:100-108 | lookup succeeds exactly when the exact class name is registered and then yields that registered handler; otherwise it fails with CannotFindHandlerException whose message names the class |
| Registry.FindAfterRegister | src/Command/Bus/CommandBus.php:49-52 | after registering n, lookup of class n yields the new handler (last registration wins) and lookup of any other class is unchanged |
| Registry.EmptyFindsNothing | src/Command/Bus/CommandBus.php:31-35 | a freshly constructed bus finds no handler for any request |
| Handler.New | src/Command/Handler/CommandHandler.php:24-27 | a freshly constructed handler has no follow-ups |
| Handler.AddNextCommand | src/Command/Handler/CommandHandler.php:45-48 | the list grows by one, the new command is last, and all earlier entries are unchanged |
| Handler.AddNextCommands | src/Command/Handler/CommandHandler.php:45-48 | a handler run that adds several follow-ups leaves the old list followed by exactly those commands in order |
| Handler.DuplicatesAreKept | tests/unit-tests/Command/Handler/CommandHandlerTest.php:62-72 | adding the same command twice gives a list of length 2 that holds the command twice |
| Handler.GetReturnsEverythingAdded | src/Command/Handler/CommandHandler.php:37-40 | `getNextCommands` returns every command added since the handler was constructed, in the order added, with nothing removed by earlier reads or earlier calls |
| Handler.RunAppendsOnly | src/Command/Handler/CommandHandler.php:37-48 | over any sequence of reads and additions the list is the initial list followed by the added commands; reads change nothing and nothing is ever removed |
| Dispatcher.TryToHandleCommand | src/Command/Bus/BasicCommandBus.php:117-126 | succeeds exactly when the handler returns, and then with its value; the handler's appended follow-ups are kept either way; the bus itself never saves or looks up here |
| Dispatcher.Dispatch | src/Command/Bus/BasicCommandBus.php:60-69 | a dispatch keeps the same handler objects and only extends their lists, a command returns nothing to its caller, and `execute` never runs a type check |
| Dispatcher.HandleQuery | src/Command/Bus/CommandBus.php:75-84 | the query path looks up once, at the start, and never again (so it dispatches no follow-up), runs no type check, saves nothing and always finishes; a returned value is exactly what the registered handler returned, and an unregistered class leaves every handler untouched |
| Dispatcher.HandleCommand | src/Command/Bus/CommandBus.php:146-154 | the command path starts with the lookup, returns nothing, and only extends handler lists |
| Dispatcher.PassNextCommandsToTheBus | src/Command/Bus/CommandBus.php:164-170 | an empty list dispatches nothing; a cascade returns nothing and only extends handler lists |
| BusProperties.TypeCheckFailureStopsDispatch | src/Command/Bus/BasicCommandBus.php:60-62 | when checkTypeOfCommand throws, its exception propagates and nothing is looked up, run or saved |
| BusProperties.UnregisteredRequestFails | src/Command/Bus/CommandBus.php:91-99 | an unregistered class fails with CannotFindHandlerException "Cannot find handler for command: '<class>'." before any handler, failure hook or save |
| BusProperties.QueryReturnsHandlerValue | src/Command/Bus/BasicCommandBus.php:84-93 | a query returns exactly its handler's value, with no save and no cascade |
| BusProperties.CommandSavesThenCascades | src/Command/Bus/BasicCommandBus.php:147-155 | a successful command saves its handler's value once, right after the handler, then cascades the handler's whole list (old follow-ups first), and returns nothing |
| BusProperties.SaveFailurePropagates | src/Command/Bus/CommandBus.php:151 | a throwing save hook propagates unchanged and no follow-up is dispatched |
| BusProperties.HandlerExceptionIsWrapped | src/Command/Bus/CommandBus.php:108-117 | a HandlerException calls handleHandlerException once and then throws the bus's wrapper "Command '<class>' cannot be handled." with the original as cause, unless the hook throws first; no save, no cascade |
| BusProperties.OtherHandlerErrorPropagates | src/Command/Bus/BasicCommandBus.php:119-125 | any other handler exception reaches the caller unchanged, with no failure hook, save or cascade |
| BusProperties.CascadeSplits | src/Command/Bus/BasicCommandBus.php:165-171 | follow-ups run in list order and depth first; the rest of the list runs only if everything before it returned, so the first failure ends the cascade |
| BusProperties.CascadeOfOne | src/Command/Bus/BasicCommandBus.php:168-169 | a one-element cascade is one dispatch through the entry point, with its return value dropped |
| BusProperties.EmptyCascadeDoesNothing | src/Command/Bus/BasicCommandBus.php:167 | an empty follow-up list makes no call and changes nothing |
| BusEquivalence.StepsAgree | src/Command/Bus/CommandBus.php:108-117 | both buses run the handler identically, except for the class name of the wrapper exception |
| BusEquivalence.BusesAgree | src/Command/Bus/CommandBus.php:60-67 | with a type check that accepts everything, `execute` and `handle` agree at every depth: same status (up to the wrapper's class), same calls apart from the type checks, same handler objects |
| BusEquivalence.AcceptedDispatchesAgree | src/Command/Bus/BasicCommandBus.php:60-69 | past an accepting type check, both entry points agree |
| BusEquivalence.QueriesAgree | src/Command/Bus/BasicCommandBus.php:84-93 | the two query paths agree |
| BusEquivalence.CommandsAgree | src/Command/Bus/BasicCommandBus.php:147-155 | the two command paths agree |
| BusEquivalence.CascadesAgree | src/Command/Bus/BasicCommandBus.php:165-171 | the two cascades agree |
| Cascade.DispatchChecksFirst | src/Command/Bus/BasicCommandBus.php:62 | in `handle`, every lookup in the whole cascade comes right after the type check of the same request, and a dispatch's first call is its type check |
| Cascade.QueryChecksFirst | src/Command/Bus/BasicCommandBus.php:64-65 | a query's check-then-lookup order holds through its query path |
| Cascade.CommandChecksFirst | src/Command/Bus/BasicCommandBus.php:66-67 | a command's check-then-lookup order holds through its command path and cascade |
| Cascade.CommandTailChecksFirst | src/Command/Bus/BasicCommandBus.php:147-155 | after its own lookup, the command path calls findHandler only right after a type check |
| Cascade.SavedCommandChecksFirst | src/Command/Bus/BasicCommandBus.php:152-154 | the cascade that follows a save keeps every lookup right after its type check |
| Cascade.CascadeChecksFirst | src/Command/Bus/BasicCommandBus.php:169 | each cascaded follow-up goes through the full `handle` entry point, type check first |
| Cascade.LookupsFollowChecksAt | src/Command/Bus/BasicCommandBus.php:60-62 | the recursive adjacency condition says the same as "the event before every lookup is the type check of the same request" |
| Cascade.FirstEvent | src/Command/Bus/CommandBus.php:60-66 | a dispatch with fuel left begins with its type check (`handle`) or its lookup (`execute`) |
| Cascade.CascadeBeginsWithFirst | src/Command/Bus/CommandBus.php:167-168 | a cascade's calls begin with all of the first follow-up's calls |
| Cascade.ReusedHandlerReoffers | src/Command/Bus/BasicCommandBus.php:154 | a handler that still holds follow-ups from earlier calls dispatches the oldest of them first, right after this command's save |
| Cascade.SelfRoutedFollowUpNeverEnds | src/Command/Bus/BasicCommandBus.php:165-171 | with no depth bound or cycle detection, a successful handler whose list starts with a command of its own class recurses without end, whatever the fuel |
| Cascade.SelfRoutedStep | src/Command/Bus/CommandBus.php:164-170 | for such a handler, a dispatch given one more level of fuel still ends `OutOfFuel`, whatever the fuel |
| FuelAdequacy.DispatchFuelMonotone | src/Command/Bus/BasicCommandBus.php:60-69 | a dispatch that finishes within some fuel finishes identically with one more |
| FuelAdequacy.AcceptedFuelMonotone | src/Command/Bus/CommandBus.php:60-67 | the same for a dispatch past its type check |
| FuelAdequacy.CommandFuelMonotone | src/Command/Bus/CommandBus.php:146-154 | the same for the command path |
| FuelAdequacy.CascadeFuelMonotone | src/Command/Bus/CommandBus.php:164-170 | the same for a cascade |
| FuelAdequacy.FuelIrrelevant | src/Command/Bus/CommandBus.php:164-169 | any two fuels at which a dispatch finishes give the same status, calls and handler objects |
| Scenarios.NotifyRun | src/Command/Bus/CommandBus.php:146-153 | a handler with nothing pending: one lookup, one handler call, one save, no cascade |
| Scenarios.DepositThenNotify | src/Command/Bus/CommandBus.php:153 | a deposit whose handler enqueues a notification saves the deposit, then dispatches and saves the notification, and returns nothing |
| Scenarios.TwoNotifications | src/Command/Bus/CommandBus.php:166-168 | two pending notifications are sent one after the other, in list order |
| Scenarios.DepositWithOnePending | src/Command/Handler/CommandHandler.php:45-48 | a second deposit on a handler still holding the first deposit's notification sends that one, then its own, leaving both pending |
| Scenarios.SecondDepositResendsNotification | src/Command/Handler/CommandHandler.php:37-40 | a second, distinct deposit through the same handler object looks up the first deposit's notification again, before its own (two different requests), leaving both pending |
| Scenarios.NextRun | src/Command/Bus/BasicCommandBus.php:147-154 | a follow-up on a handler with nothing pending is type check, lookup, handler, save |
| Scenarios.LookupOrderOfCascade | tests/unit-tests/Command/Bus/BasicCommandBusTest.php:172-223 | handling c1 whose handler enqueues c2 and c3 makes findHandler see c1, c2, c3 in that order, each right after its type check |
| Scenarios.NextCascade | tests/unit-tests/Command/Bus/BasicCommandBusTest.php:189-191 | the cascade over [c2, c3] handles c2 fully, then c3 |

## Left out

- Hook bodies. `checkTypeOfCommand`, `saveDataInRepository` and `handleHandlerException` are abstract. They are modelled as pure functions that either succeed or throw, and each call is recorded as a trace event. Because they are pure functions of their argument, a hook whose answer depends on its own earlier calls is not modelled.
- Handler business logic. The abstract `CommandHandler::handle` is a parameter `behave` from handler and request to the follow-ups it appends and its return or throw. It cannot depend on the handler's earlier state.
- `CommandList`. It wraps a library class that is not part of this model, so it is a `seq<Request>`. The cascade iterates over the list as read right after `handle` returned. A follow-up that appends to the list being iterated would, in PHP, depend on that library's iterator, and this is not modelled.
- The `output` slot and `clearOutput`, `saveOutput` and `getOutput`. They only carry a query's value back to the caller, so they are the returned value. A nested query inside a cascade overwrites the slot, but the slot is read only immediately after it is written, so this cannot be observed.
- The `instanceof CommandHandler` test in `findHandler`. `registerHandler` only accepts `CommandHandler` objects, so the test always holds.
- The PHP exception hierarchy. An exception is a kind, a message and a cause. "`Handler\Exception` or a subclass" is the `HandlerException` kind.
- The link between a request's class and its kind. In PHP one class is always a `Query` or never one. Here each request carries its kind, and the model does not require two requests of one class to agree.
- Recursion depth. Neither bus bounds it. The fuel argument only makes the model's recursion terminate. `OutOfFuel` is not something the buses do. `FuelAdequacy` shows it never changes a dispatch that finishes.
- Errors.Parse: its contract only relates the lengths. Its meaning is given by `Errors.ParseFormat` and `Errors.FormatParse`.
- Dispatcher.Dispatch: its own contract does not state where the type check sits. That property is `Cascade.DispatchChecksFirst`, stated for the whole cascade.
- Source inconsistencies:
  - `tests/unit-tests/Command/Bus/CommandBusTest.php` calls `handle` and covers `CommandBus::handleCommand`. The class has `execute` and `executeCommand`, so the model follows `src/Command/Bus/CommandBus.php`.
  - `BasicCommandBus` is declared to `implement` the abstract class `CommandBus`. The model treats the two as independent parametrisations of one dispatch, with no inheritance.
- The cascade test. In `testPassNextCommandsToTheBus` all three commands share one class and one mocked handler, and the mock returns the follow-up list only once. With a real handler, whose list is never cleared, that set-up would loop (`Cascade.SelfRoutedFollowUpNeverEnds`). So `Scenarios.LookupOrderOfCascade` routes c2 and c3 to a second handler. The order of lookups it proves is the test's.
