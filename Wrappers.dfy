/** The optional-value wrapper used for lookups that may find nothing
    and for readers that may reject their input. */
module Wrappers {

  datatype Option<+T> = None | Some(value: T)
}
