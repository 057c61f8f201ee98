/** A value that may be missing: a cache lookup that finds no document, or a
    search that finds no occurrence. */
module Optional {

  datatype Option<+T> = None | Some(value: T)

}
