/** A missing value: pandas' NaN for a lookup that found nothing. */
module Wrappers {

  datatype Option<+T> = None | Some(value: T)
}
