/** What the two enhancers exchange and share: actions, the delta they carry,
    the broadcast transfer, and the guarded dispatch (`doDispatch`) both sides
    wrap around the underlying store. */
module Protocol {
  import opened Values

  /** `data` of a broadcast action: the projected delta. */
  datatype Data = Data(updated: Option<Value>, deleted: Option<Value>)

  /** A redux action. `source` is "" while unset. */
  datatype Action = Action(actionType: string, payload: Option<Value>, source: string, data: Option<Data>)

  /** `{action, sourceClientId}` as sent to a renderer; the action carries only
      `type`, `payload` and `data`. */
  datatype Transfer = Transfer(action: Action, sourceClientId: string)

  /** A transfer addressed to one renderer (one `webContents.send`). */
  datatype Envelope = Envelope(to: nat, transfer: Transfer)

  /** The pre- and post-dispatch callbacks; each tells whether it throws for an
      action. */
  datatype Hooks = Hooks(preThrows: Action -> bool, postThrows: Action -> bool)

  /** How a dispatch ended. */
  datatype Outcome = Completed | Threw(error: Error)

  /** `doDispatch(action)`: the pre-hook, the underlying reduction, the
      post-hook, in that order; the first to throw ends the dispatch. Gives the
      store's state afterwards and how the dispatch ended. */
  function Guarded<S>(hooks: Hooks, reduce: S -> Result<S>, state: S, action: Action): (r: (S, Outcome))
    ensures r.0 == state || reduce(state) == Ok(r.0)
    ensures r.1.Completed? <==> !hooks.preThrows(action) && reduce(state).Ok? && !hooks.postThrows(action)
    ensures r.1.Completed? ==> reduce(state) == Ok(r.0)
    ensures hooks.preThrows(action) ==> r == (state, Threw(CallbackThrew))
    ensures !hooks.preThrows(action) && reduce(state).Ok? ==> r.0 == reduce(state).value
    ensures !hooks.preThrows(action) && reduce(state).Throws? ==> r == (state, Threw(reduce(state).error))
  {
    if hooks.preThrows(action) then (state, Threw(CallbackThrew))
    else
      match reduce(state)
      case Throws(e) => (state, Threw(e))
      case Ok(s) => (s, if hooks.postThrows(action) then Threw(CallbackThrew) else Completed)
  }
}
