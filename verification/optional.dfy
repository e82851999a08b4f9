/** A minimal Some/None datatype, used for optional enumerator initializers,
    possibly-null group references and partial lookups. */
module Optional {

  datatype Option<+T> = None | Some(value: T)
}
