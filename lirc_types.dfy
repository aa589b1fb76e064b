/** Values shared by every part of the lirc_client binding: the slot contents of
    the config table, the JavaScript values the binding classifies, and the
    errors it reports. */
module LircTypes {

  /** MAX_CONFIGS: the number of slots in the config table. */
  const MaxConfigs: nat := 20

  datatype Option<T> = None | Some(value: T)

  /** A loaded `lirc_config` table, opaque to the binding. `mode` is the table's
      current mode, the state that `lirc_getmode` reads and `lirc_setmode` writes. */
  datatype Table = Table(id: nat, mode: Option<string>)

  /** An occupied slot: the table and the config file name it was loaded from. */
  datatype Slot = Slot(table: Table, path: string)

  type Slots = seq<Option<Slot>>

  /** An opaque JavaScript function handle (the registered event callback). */
  type FunctionId = nat

  /** The JavaScript values the binding tells apart, in the order it tests them. */
  datatype JsValue =
    | JsString(s: string)
    | JsBool(b: bool)
    | JsFunction(f: FunctionId)
    | JsArray(elems: seq<JsValue>)
    | JsOther

  /** Every error the binding throws. Throwing does not unwind the C++ code,
      so an operation may report an error and still go on. */
  datatype Error =
    | TooManyArguments
    | TooManyStrings
    | TooManyBooleans
    | TooManyCallbacks
    | TooManyArrays
    | ProgramNameRequired
    | CallbackRequired
    | VerboseAfterConfig
    | ConfigBeforeProgramName
    | VerboseBeforeProgramName
    | InitFailed
    | ReadConfigFailed(file: string)
    | ConfigBufferFull
    | NotAString(element: JsValue)
    | AddConfigArgCount
    | AddConfigArgType
    | ModeNotAString
    | EmptyConfigMode
}
