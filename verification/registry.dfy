/** The handler registry both buses keep: a PHP array from exact class name to
    handler object. */
module Registry {
  import opened Wrappers
  import opened Requests
  import opened Errors
  import opened Handler

  type Table = map<ClassName, HandlerId>

  /** What a freshly constructed bus holds. */
  const Empty: Table := map[]

  /** `registerHandler`: add the entry, or silently overwrite the earlier one. */
  function RegisterHandler(reg: Table, name: ClassName, h: HandlerId): (r: Table)
    ensures r.Keys == reg.Keys + {name}
    ensures r[name] == h
    ensures forall n :: n in reg && n != name ==> r[n] == reg[n]
  {
    reg[name := h]
  }

  /** `findHandler`: lookup by the request's exact class name. */
  function FindHandler(reg: Table, req: Request): (r: Result<HandlerId, Error>)
    ensures r.Success? <==> req.className in reg
    ensures r.Success? ==> r.value == reg[req.className] && r.value in reg.Values
    ensures r.Failure? ==> r.error.kind == CannotFindHandlerException && r.error.previous == None
    ensures r.Failure? ==> Parse(NotFoundTemplate, r.error.message) == Some(req.className)
  {
    if req.className in reg then Success(reg[req.className])
    else Failure(CannotFindHandler(req.className))
  }

  /** Registration is last-wins for its own name and invisible to every other
      name. */
  lemma FindAfterRegister(reg: Table, name: ClassName, h: HandlerId, req: Request)
    ensures FindHandler(RegisterHandler(reg, name, h), req)
         == if req.className == name then Success(h) else FindHandler(reg, req)
  {
  }

  /** A bus with nothing registered finds no handler for any request. */
  lemma EmptyFindsNothing(req: Request)
    ensures FindHandler(Empty, req) == Failure(CannotFindHandler(req.className))
  {
  }
}
