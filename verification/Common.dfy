/** The one helper type the protocol machines share. */
module Common {

  /** The outcome of a step that may not be enabled, or of a lookup that may fail. */
  datatype Option<+T> = None | Some(value: T)
}
