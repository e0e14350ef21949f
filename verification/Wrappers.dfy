/** What every module shares: session uids and optional values. */
module Wrappers {
  /** A session's uid. Pane ids are uids too: a pane with no id of its own is named by its session. */
  type Uid = nat

  datatype Option<+T> = None | Some(value: T) {
    function UnwrapOr(default: T): T {
      match this
      case Some(v) => v
      case None => default
    }
  }
}
