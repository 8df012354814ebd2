/** A nullable value: `None` stands for Ruby's `nil`. */
module Optional {
  datatype Option<+T> = None | Some(value: T)
}
