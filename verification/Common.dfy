/** Values and idioms shared by the other modules. */
module Common {
  datatype Option<+T> = None | Some(value: T)

  datatype Result<+T, +E> = Ok(value: T) | Err(error: E)

  /** An unordered query or collection delivers its elements in any order. */
  method AnyOf<T>(elements: set<T>) returns (element: T)
    requires elements != {}
    ensures element in elements
  {
    element :| element in elements;
  }
}
