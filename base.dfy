/** The optional-value wrapper used throughout the model (JavaScript's null/undefined). */
module Base {
  datatype Option<T> = None | Some(value: T)
}
