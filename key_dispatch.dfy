/** The key-down rule of `_wrapKeyDownHandler`: a handler registered for the
    key takes priority over the declarative `onKeyDown` prop. */
module KeyDispatch {
  import opened Values

  /** `keys[keyName] || keys[which]`: the handler for the key name, else the
      one for the key code. Property names are strings in JavaScript, so both
      arrive here already converted; every registered handler is a function
      and so truthy. */
  function LookupKey(keys: map<string, Handler>, keyName: string, which: string): (h: Option<Handler>)
    ensures keyName in keys ==> h == Some(keys[keyName])
    ensures keyName !in keys && which in keys ==> h == Some(keys[which])
    ensures h.None? <==> keyName !in keys && which !in keys
  {
    if keyName in keys then Some(keys[keyName])
    else if which in keys then Some(keys[which])
    else None
  }

  /** What the wrapped handler returns: the original event (after marking it
      cancelled), the result of the `onKeyDown` prop, or `undefined` when
      there is no prop. */
  datatype Returned = OriginalEvent | PropResult(prop: Handler) | NoResult

  /** One key-down event: the handlers called, in call order, whether the
      original event is marked cancelled, and what is returned. */
  datatype Dispatch = Dispatch(calls: seq<Handler>, cancel: bool, returned: Returned)

  /** The body of the function `_wrapKeyDownHandler` returns. `accepts`
      abstracts the truthiness of what a registered handler returns, since
      those handlers are user code. The registered handler is called first,
      exactly when one is found; a falsy result cancels the event, returns it
      and skips the prop; otherwise (also when nothing is registered) the
      prop is called after it, if there is one, and its result returned. */
  function KeyDown(keys: map<string, Handler>, onKeyDown: Option<Handler>,
                   keyName: string, which: string, accepts: Handler -> bool): (d: Dispatch)
    ensures var found := LookupKey(keys, keyName, which);
            d.cancel <==> found.Some? && !accepts(found.value)
    ensures var found := LookupKey(keys, keyName, which);
            d.cancel ==> d.returned == OriginalEvent && d.calls == [found.value]
    ensures var found := LookupKey(keys, keyName, which);
            !d.cancel ==> d.calls == (if found.Some? then [found.value] else [])
                                     + (if onKeyDown.Some? then [onKeyDown.value] else [])
    ensures !d.cancel ==> d.returned == if onKeyDown.Some? then PropResult(onKeyDown.value) else NoResult
  {
    var found := LookupKey(keys, keyName, which);
    if found.Some? && !accepts(found.value) then
      Dispatch([found.value], true, OriginalEvent)
    else
      var registered := if found.Some? then [found.value] else [];
      match onKeyDown
      case Some(prop) => Dispatch(registered + [prop], false, PropResult(prop))
      case None => Dispatch(registered, false, NoResult)
  }

  /** After `registerKeyHandler(key, h)`, a key-down whose key name is `key`
      calls `h` before anything else, whatever the key code, and is cancelled
      exactly when `h` returns a falsy result. */
  lemma RegisteredHandlerFirst(keys: map<string, Handler>, key: string, h: Handler,
                               onKeyDown: Option<Handler>, which: string, accepts: Handler -> bool)
    ensures var d := KeyDown(keys[key := h], onKeyDown, key, which, accepts);
      && |d.calls| > 0 && d.calls[0] == h
      && (d.cancel <==> !accepts(h))
      && (!accepts(h) ==> onKeyDown.Some? ==> onKeyDown.value !in d.calls[1..])
  {
  }
}
