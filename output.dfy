/** What `process_results` prints: one `Line` per `print` call (linter.py:46,
    64, 66, 68, 69), and a transcript that also records whether the run was cut
    short by an uncaught exception. */
module Output {
  import opened Options
  import opened JsonTree
  import opened Traversal
  import PyInt

  datatype Line =
    | Header(count: nat, message: string)  // "\n{n} occurrences of: {message}"
    | NameLine(name: Json)                 // "Name: {name}"
    | PathLine(dotted: string)             // "Path: {'.'.join(path)}"
    | ErrorLine(failure: Failure)          // "Error accessing path: {e}"

  /** The lines printed so far; `abort` holds the segment whose `ValueError`
      ended the run, if one did. */
  datatype Transcript = Transcript(lines: seq<Line>, abort: Option<string>)

  /** Printing `u` after `t`: nothing more is printed once `t` has aborted. */
  function Then(t: Transcript, u: Transcript): Transcript {
    if t.abort.Some? then t else Transcript(t.lines + u.lines, u.abort)
  }

  /** `str(v)` of a `name` value. Scalars are rendered as Python does; a list or
      dict is shown as a placeholder. */
  function Show(v: Json): string {
    match v
    case JNull => "None"
    case JBool(b) => if b then "True" else "False"
    case JNum(n) => PyInt.IntToString(n)
    case JStr(s) => s
    case JArr(_) => "[...]"
    case JObj(_) => "{...}"
  }

  /** `str(e)` of a caught exception, in the wording of Python 3.11. */
  function Describe(e: Failure): string {
    match e
    case MissingKey(key) => "'" + key + "'"
    case IndexOutOfRange(_, _) => "list index out of range"
    case IndexNotSsize(_) => "cannot fit 'int' into an index-sized integer"
    case NotSubscriptable(kind) =>
      match kind
      case NoneKind => "'NoneType' object is not subscriptable"
      case BoolKind => "'bool' object is not subscriptable"
      case IntKind => "'int' object is not subscriptable"
      case StrKind => "string indices must be integers, not 'str'"
  }

  /** The text handed to `print` for a line. */
  function Text(l: Line): string {
    match l
    case Header(count, message) => "\n" + PyInt.NatToString(count) + " occurrences of: " + message
    case NameLine(name) => "Name: " + Show(name)
    case PathLine(dotted) => "Path: " + dotted
    case ErrorLine(e) => "Error accessing path: " + Describe(e)
  }
}
