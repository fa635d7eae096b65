/** Small value types shared by the list screens, the task view and the slice. */
module Common {

  /** A value that may be absent: JavaScript's `null`/`undefined` for a field or a selection. */
  datatype Option<+T> = None | Some(value: T) {
    /** `x || d` on a present-or-absent value. */
    function GetOr(default: T): T {
      match this
      case Some(v) => v
      case None => default
    }
  }

  /** The terminal result of a request sent to the store: the promise resolved or it rejected. */
  datatype Outcome = Succeeded | Failed

  /** The `sortDirection` state of a list screen: `"asc"` or `"desc"`. */
  datatype Direction = Asc | Desc {
    /** `sortDirection === "asc" ? "desc" : "asc"`. */
    function Flip(): (d: Direction)
      ensures d != this
    {
      if this == Asc then Desc else Asc
    }
  }
}
