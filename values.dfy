/** JavaScript values as the wrapper sees them: option values, handlers, props. */
module Values {

  datatype Option<+T> = None | Some(value: T)

  datatype Result<+T, +E> = Success(value: T) | Failure(error: E)

  datatype Outcome<+E> = Pass | Fail(error: E)

  /** A callable the wrapper stores: one the caller handed over (identified
      opaquely), or the one `_addAction` derives from the action
      configuration of the named event. */
  datatype Handler = Given(id: nat) | FromOption(event: string)

  /** The JavaScript values that the option bag and the props may hold.
      `Undefined` and `Null` are kept apart because the defaulting rule
      treats them differently; `Other` stands for any value (number, DOM
      node, ref object, ...) whose content the wrapper never inspects. */
  datatype Value =
    | Undefined
    | Null
    | Str(s: string)
    | Fn(h: Handler)
    | Obj(fields: map<string, Value>)
    | Other(id: nat)

  /** An option bag or a props object: property name to value. */
  type Props = map<string, Value>

  /** The errors the wrapper raises. */
  datatype Error =
    | TypeError(message: string)
    | DeprecatedApi(message: string)
}
