/** A value that may be absent: a JSON property that is missing, or a field
    check that found nothing to report. */
module Wrappers {
  datatype Option<+T> = None | Some(value: T)
}
