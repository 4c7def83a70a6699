/** Small value types shared by the modules of this model. */
module Wrappers {
  datatype Option<T> = None | Some(value: T)

  /** What a handler leaves behind: go on with the next event, or the
      process ends with the given exit status (an `assert` ends it with
      status 255 in this code base; a nested `<c>` ends it with status 3),
      or the code does something whose behaviour is undefined (it hands
      a null pointer to a C library function, or it writes past the end
      of a fixed buffer): the model stops there with `Fault`. */
  datatype Status = Continue | Exit(code: int) | Fault
}
