/** Values and failures shared by every part of the model.

    Lutris is written in Python: configuration values are dynamically typed
    and failures are exceptions. Here a configuration value is a `Value`, and
    an operation that can raise returns a `Result` whose `Err` names the
    exception class. */
module PyValues {

  datatype Option<+T> = None | Some(value: T) {
    function GetOr(default: T): T {
      match this
      case Some(v) => v
      case None => default
    }
  }

  /** The Python exceptions the modelled code can raise or catches. */
  datatype PyError =
    | TypeError         // e.g. os.path.join(None, ...), dict.update(None)
    | IndexError        // e.g. [][0]
    | ValueError        // e.g. options_as_dict with an unknown option type
    | FileNotFound      // open() of a file that does not exist
    | MissingDependency // MissingGameDependencyError raised by an install

  datatype Result<+T> = Ok(value: T) | Err(error: PyError)

  /** A configuration value as read from YAML or JSON. */
  datatype Value =
    | Null
    | Bool(b: bool)
    | Int(i: int)
    | Str(s: string)
    | List(items: seq<Value>)

  /** Python truthiness of a value (`if v:`). */
  predicate Truthy(v: Value) {
    match v
    case Null => false
    case Bool(b) => b
    case Int(i) => i != 0
    case Str(s) => s != ""
    case List(items) => items != []
  }

  /** Python truthiness of an optional string (`if s:` with s possibly None). */
  predicate TruthyString(s: Option<string>) {
    s.Some? && s.value != ""
  }
}
