/** An optional value: the model's stand-in for a nullable reference. */
module Optional {

  datatype Option<+T> = None | Some(value: T)
}
