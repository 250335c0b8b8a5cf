/** Small types shared by every module. */
module Common {
  datatype Option<+T> = None | Some(value: T)
}
