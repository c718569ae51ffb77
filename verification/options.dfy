/** An optional value: a lookup that may find nothing, an enemy that may not exist yet. */
module Options {

  datatype Option<+T> = None | Some(value: T)
}
