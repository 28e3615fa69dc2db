/** Concrete runs of the model that mirror the repository's unit tests and
    the deposit/notify cascade, including what a reused handler does on its
    second command. */
module Scenarios {
  import opened Wrappers
  import opened Requests
  import opened Errors
  import opened Handler
  import Registry
  import opened Dispatcher
  import BusProperties

  const CommandMock := Request("CommandMock", Command, 1)

  /** Two deposits of the same class, told apart by their ids. */
  const Deposit := Request("Deposit", Command, 10)
  const Deposit2 := Request("Deposit", Command, 12)

  /** The notification handler 1 enqueues for deposit `d`. */
  function NotifyOf(d: Request): (n: Request)
    ensures n.className == "Notify" && n.kind == Command
  {
    Request("Notify", Command, d.id + 100)
  }

  const Notify1 := NotifyOf(Deposit)
  const Notify2 := NotifyOf(Deposit2)

  /** Handler 1 handles deposits and enqueues the deposit's notification;
      handler 2 handles notifications; both return a value and every hook
      succeeds. */
  function DepositBus(flavour: Flavour): (b: Bus)
    ensures b.registry == map["Deposit" := 1, "Notify" := 2]
  {
    var behave := (h: HandlerId, r: Request) =>
      if h == 1 then HandlerRun([NotifyOf(r)], Returns(Data(7))) else HandlerRun([], Returns(Data(8)));
    var hooks := Hooks(behave, (r: Request) => None, (v: Value) => None, (h: HandlerId) => None);
    Bus(flavour, hooks,
        Registry.RegisterHandler(Registry.RegisterHandler(Registry.Empty, "Deposit", 1), "Notify", 2))
  }

  const FreshHandlers: Heap := map[1 := New(), 2 := New()]

  /** What handling one deposit or one notification makes the bus call. */
  function DepositEvents(d: Request): (r: seq<Event>)
    ensures |r| == 3 && r[0] == LookedUp(d)
  {
    [LookedUp(d), Invoked(1, d), Saved(Data(7))]
  }

  function NotifyEvents(n: Request): (r: seq<Event>)
    ensures |r| == 3 && r[0] == LookedUp(n)
  {
    [LookedUp(n), Invoked(2, n), Saved(Data(8))]
  }

  /** `execute` runs no type check, so the events are the command path's. */
  lemma PlainHandling(c: Request, h: HandlerId, v: Value)
    ensures Checks(DepositBus(Plain), c) + [LookedUp(c), Invoked(h, c), Saved(v)] == [LookedUp(c), Invoked(h, c), Saved(v)]
  {
  }

  /** A notification on handlers where 2 has nothing pending: one save, no
      cascade, nothing changed. */
  lemma NotifyRun(heap: Heap, n: Request, fuel: nat)
    requires DepositBus(Plain).Wired(heap) && heap[2] == New()
    requires n.className == "Notify" && n.kind == Command
    ensures Dispatch(DepositBus(Plain), heap, n, fuel + 1)
         == Outcome(Returned(Null), NotifyEvents(n), heap)
  {
    var bus := DepositBus(Plain);
    BusProperties.CommandSavesThenCascades(bus, heap, n, fuel);
    PlainHandling(n, 2, Data(8));
    assert heap[2 := AddNextCommands(heap[2], [])] == heap;
    assert heap[2].nextCommands + [] == [];
  }

  /** The deposit/notify cascade: two saves, deposit's first, and nothing
      returned to the caller. Handler 1 keeps the notification pending. */
  lemma DepositThenNotify(fuel: nat)
    ensures var r := Dispatch(DepositBus(Plain), FreshHandlers, Deposit, fuel + 2);
      && r.status == Returned(Null)
      && r.trace == DepositEvents(Deposit) + NotifyEvents(Notify1)
      && r.heap == OnePending
  {
    var bus := DepositBus(Plain);
    DepositOnFresh();
    BusProperties.CommandSavesThenCascades(bus, FreshHandlers, Deposit, fuel + 1);
    NotifyRun(OnePending, Notify1, fuel);
    PlainHandling(Deposit, 1, Data(7));
    BusProperties.CascadeOfOne(bus, OnePending, Notify1, fuel + 1);
  }

  /** Running handler 1 on a deposit over fresh handlers leaves
      `OnePending`. */
  lemma DepositOnFresh()
    ensures var bus := DepositBus(Plain);
      && bus.Wired(FreshHandlers)
      && BusProperties.AfterRun(bus, FreshHandlers, 1, Deposit) == OnePending
      && FreshHandlers[1].nextCommands + bus.hooks.behave(1, Deposit).appended == [Notify1]
  {
    assert AddNextCommands(FreshHandlers[1], [Notify1]).nextCommands == [] + [Notify1] == [Notify1];
    assert OnePending == FreshHandlers[1 := AddNextCommands(FreshHandlers[1], [Notify1])];
  }

  /** Two pending notifications are sent one after the other, in list
      order. */
  lemma TwoNotifications(heap: Heap, a: Request, b: Request, fuel: nat)
    requires DepositBus(Plain).Wired(heap) && heap[2] == New()
    requires a.className == "Notify" && a.kind == Command
    requires b.className == "Notify" && b.kind == Command
    ensures PassNextCommandsToTheBus(DepositBus(Plain), heap, [a, b], fuel + 1)
         == Outcome(Returned(Null), NotifyEvents(a) + NotifyEvents(b), heap)
  {
    var bus := DepositBus(Plain);
    assert [a] + [b] == [a, b];
    BusProperties.CascadeSplits(bus, heap, [a], [b], fuel + 1);
    NotifyRun(heap, a, fuel);
    NotifyRun(heap, b, fuel);
    BusProperties.CascadeOfOne(bus, heap, a, fuel + 1);
    BusProperties.CascadeOfOne(bus, heap, b, fuel + 1);
  }

  /** A second deposit dispatched while handler 1 still holds the first
      deposit's notification. */
  lemma DepositWithOnePending(fuel: nat)
    ensures var r := Dispatch(DepositBus(Plain), OnePending, Deposit2, fuel + 2);
      && r.status == Returned(Null)
      && r.trace == DepositEvents(Deposit2) + (NotifyEvents(Notify1) + NotifyEvents(Notify2))
      && r.heap == TwoPending
  {
    var bus := DepositBus(Plain);
    DepositOnPending();
    BusProperties.CommandSavesThenCascades(bus, OnePending, Deposit2, fuel + 1);
    TwoNotifications(TwoPending, Notify1, Notify2, fuel);
    PlainHandling(Deposit2, 1, Data(7));
  }

  const OnePending: Heap := map[1 := HandlerState([Notify1]), 2 := New()]
  const TwoPending: Heap := map[1 := HandlerState([Notify1, Notify2]), 2 := New()]

  /** Running handler 1 on the second deposit over `OnePending` leaves
      `TwoPending`. */
  lemma DepositOnPending()
    ensures var bus := DepositBus(Plain);
      && bus.Wired(OnePending)
      && BusProperties.AfterRun(bus, OnePending, 1, Deposit2) == TwoPending
      && OnePending[1].nextCommands + bus.hooks.behave(1, Deposit2).appended == [Notify1, Notify2]
  {
    assert AddNextCommands(OnePending[1], [Notify2]).nextCommands == [Notify1] + [Notify2] == [Notify1, Notify2];
    assert TwoPending == OnePending[1 := AddNextCommands(OnePending[1], [Notify2])];
  }

  /** The same handler object dispatches a second deposit: its list was
      never cleared, so the first deposit's notification is sent again, and
      before the second deposit's own; three saves in all. */
  lemma SecondDepositResendsNotification(fuel: nat)
    ensures Notify1 != Notify2
    ensures var first := Dispatch(DepositBus(Plain), FreshHandlers, Deposit, fuel + 2);
      var r := Dispatch(DepositBus(Plain), first.heap, Deposit2, fuel + 2);
      && r.status == Returned(Null)
      && r.trace == DepositEvents(Deposit2) + NotifyEvents(Notify1) + NotifyEvents(Notify2)
      && r.trace[3] == LookedUp(Notify1) && r.trace[6] == LookedUp(Notify2)
      && r.heap[1].nextCommands == [Notify1, Notify2]
  {
    DepositThenNotify(fuel);
    DepositWithOnePending(fuel);
    var t := DepositEvents(Deposit2) + NotifyEvents(Notify1) + NotifyEvents(Notify2);
    assert DepositEvents(Deposit2) + (NotifyEvents(Notify1) + NotifyEvents(Notify2)) == t;
    assert t[3] == NotifyEvents(Notify1)[0];
    assert t[6] == NotifyEvents(Notify2)[0];
  }

  const Next2 := Request("NextMock", Command, 2)
  const Next3 := Request("NextMock", Command, 3)

  /** The bus of `testPassNextCommandsToTheBus`, with the follow-ups routed
      to a handler of their own: handler 1 enqueues c2 and c3. */
  function PassNextBus(): (b: Bus)
  {
    var behave := (h: HandlerId, r: Request) =>
      if h == 1 then HandlerRun([Next2, Next3], Returns(Null)) else HandlerRun([], Returns(Null));
    var hooks := Hooks(behave, (r: Request) => None, (v: Value) => None, (h: HandlerId) => None);
    Bus(Basic, hooks,
        Registry.RegisterHandler(Registry.RegisterHandler(Registry.Empty, "CommandMock", 1), "NextMock", 2))
  }

  /** What `BasicCommandBus` calls to handle `c` with handler `h`. */
  function HandledBy(c: Request, h: HandlerId): (r: seq<Event>)
  {
    [TypeChecked(c), LookedUp(c), Invoked(h, c), Saved(Null)]
  }

  /** `HandledBy` is the bus's checks followed by the command path. */
  lemma BasicHandling(c: Request, h: HandlerId)
    ensures Checks(PassNextBus(), c) + [LookedUp(c), Invoked(h, c), Saved(Null)] == HandledBy(c, h)
  {
  }

  lemma NextRun(heap: Heap, c: Request, fuel: nat)
    requires PassNextBus().Wired(heap) && heap[2] == New()
    requires c.className == "NextMock" && c.kind == Command
    ensures Dispatch(PassNextBus(), heap, c, fuel + 1)
         == Outcome(Returned(Null), HandledBy(c, 2), heap)
  {
    var bus := PassNextBus();
    assert bus.registry == map["CommandMock" := 1, "NextMock" := 2];
    BusProperties.CommandSavesThenCascades(bus, heap, c, fuel);
    assert heap[2 := AddNextCommands(heap[2], [])] == heap;
    assert heap[2].nextCommands + [] == [];
    BasicHandling(c, 2);
  }

  /** `findHandler` sees c1, c2, c3 in that order, each right after the type
      check of the same command. */
  lemma LookupOrderOfCascade(fuel: nat)
    ensures var r := Dispatch(PassNextBus(), FreshHandlers, CommandMock, fuel + 2);
      && r.status == Returned(Null)
      && r.trace == HandledBy(CommandMock, 1) + (HandledBy(Next2, 2) + HandledBy(Next3, 2))
  {
    var bus := PassNextBus();
    MockOnFresh();
    BusProperties.CommandSavesThenCascades(bus, FreshHandlers, CommandMock, fuel + 1);
    NextCascade(fuel);
    BasicHandling(CommandMock, 1);
  }

  /** c2 then c3, each handled by handler 2, which enqueues nothing. */
  lemma NextCascade(fuel: nat)
    ensures PassNextCommandsToTheBus(PassNextBus(), NextPending, [Next2] + [Next3], fuel + 1)
         == Outcome(Returned(Null), HandledBy(Next2, 2) + HandledBy(Next3, 2), NextPending)
  {
    var bus := PassNextBus();
    MockOnFresh();
    BusProperties.CascadeSplits(bus, NextPending, [Next2], [Next3], fuel + 1);
    NextRun(NextPending, Next2, fuel);
    NextRun(NextPending, Next3, fuel);
    BusProperties.CascadeOfOne(bus, NextPending, Next2, fuel + 1);
    BusProperties.CascadeOfOne(bus, NextPending, Next3, fuel + 1);
  }

  const NextPending: Heap := map[1 := HandlerState([Next2, Next3]), 2 := New()]

  /** Running handler 1 on c1 over fresh handlers leaves c2 and c3 pending. */
  lemma MockOnFresh()
    ensures var bus := PassNextBus();
      && bus.Wired(FreshHandlers)
      && bus.registry == map["CommandMock" := 1, "NextMock" := 2]
      && BusProperties.AfterRun(bus, FreshHandlers, 1, CommandMock) == NextPending
      && FreshHandlers[1].nextCommands + bus.hooks.behave(1, CommandMock).appended == [Next2] + [Next3]
  {
    assert AddNextCommands(FreshHandlers[1], [Next2, Next3]).nextCommands == [] + [Next2, Next3] == [Next2, Next3];
    assert NextPending == FreshHandlers[1 := AddNextCommands(FreshHandlers[1], [Next2, Next3])];
  }
}
