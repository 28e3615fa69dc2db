/** `CommandHandler`: the follow-up list every handler owns, and the shape of
    one run of a handler's (abstract) `handle` method. */
module Handler {
  import opened Requests
  import opened Errors

  /** Identity of a handler object; the bus stores handlers by reference. */
  type HandlerId = nat

  /** The state the base class keeps: the pending follow-up commands. */
  datatype HandlerState = HandlerState(nextCommands: seq<Request>)

  /** How one call of `handle` ends. */
  datatype HandlerResult = Returns(value: Value) | Throws(error: Error)

  /** One call of `handle`: the follow-ups it appended (in order, before it
      returned or threw) and how it ended. */
  datatype HandlerRun = HandlerRun(appended: seq<Request>, result: HandlerResult)

  /** The constructor: a fresh handler has nothing pending. */
  function New(): (h: HandlerState)
    ensures |h.nextCommands| == 0
  {
    HandlerState([])
  }

  /** `getNextCommands`: a plain read of the live list. */
  function GetNextCommands(h: HandlerState): (r: seq<Request>)
  {
    h.nextCommands
  }

  /** `addNextCommand`: one more entry at the end, earlier entries kept. */
  function AddNextCommand(h: HandlerState, c: Request): (r: HandlerState)
    ensures |r.nextCommands| == |h.nextCommands| + 1
    ensures r.nextCommands[..|h.nextCommands|] == h.nextCommands
    ensures r.nextCommands[|h.nextCommands|] == c
  {
    HandlerState(h.nextCommands + [c])
  }

  /** The effect on the list of one `handle` call that calls `addNextCommand`
      once for each entry of `cs`, in order. */
  function AddNextCommands(h: HandlerState, cs: seq<Request>): (r: HandlerState)
    ensures r.nextCommands == h.nextCommands + cs
    decreases |cs|
  {
    if |cs| == 0 then h
    else
      var h' := AddNextCommand(h, cs[0]);
      assert h'.nextCommands + cs[1..] == h.nextCommands + cs;
      AddNextCommands(h', cs[1..])
  }

  /** Adding the same command twice keeps both copies. */
  lemma DuplicatesAreKept(c: Request)
    ensures |GetNextCommands(AddNextCommand(AddNextCommand(New(), c), c))| == 2
    ensures multiset(GetNextCommands(AddNextCommand(AddNextCommand(New(), c), c)))[c] == 2
  {
    var l := GetNextCommands(AddNextCommand(AddNextCommand(New(), c), c));
    assert l == [c, c];
  }

  /** The public operations a handler object sees over its lifetime. */
  datatype Operation = Add(command: Request) | Get

  /** The commands the `Add` operations of `ops` contribute, in order. */
  function Added(ops: seq<Operation>): (r: seq<Request>)
  {
    if |ops| == 0 then []
    else (if ops[0].Add? then [ops[0].command] else []) + Added(ops[1..])
  }

  /** A handler's state after a sequence of operations. */
  function Run(h: HandlerState, ops: seq<Operation>): (r: HandlerState)
    decreases |ops|
  {
    if |ops| == 0 then h
    else if ops[0].Add? then Run(AddNextCommand(h, ops[0].command), ops[1..])
    else Run(h, ops[1..])
  }

  /** Over any lifetime the list is the starting list followed by exactly the
      added commands: reads change nothing and nothing is ever removed. */
  lemma {:induction false} RunAppendsOnly(h: HandlerState, ops: seq<Operation>)
    ensures Run(h, ops).nextCommands == h.nextCommands + Added(ops)
    ensures h.nextCommands <= Run(h, ops).nextCommands
    decreases |ops|
  {
    if |ops| > 0 {
      if ops[0].Add? {
        RunAppendsOnly(AddNextCommand(h, ops[0].command), ops[1..]);
        assert h.nextCommands + [ops[0].command] + Added(ops[1..])
            == h.nextCommands + Added(ops);
      } else {
        RunAppendsOnly(h, ops[1..]);
      }
    }
  }

  /** What `getNextCommands` returns on a handler at any point of its life:
      every command added since construction, in the order added, including
      those from earlier calls of `handle`. */
  lemma {:induction false} GetReturnsEverythingAdded(ops: seq<Operation>)
    ensures GetNextCommands(Run(New(), ops)) == Added(ops)
  {
    RunAppendsOnly(New(), ops);
    assert New().nextCommands + Added(ops) == Added(ops);
  }
}
