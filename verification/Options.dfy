/** The optional value the source writes `Option<T>` (Rust) or `T | undefined` (TypeScript). */
module Options {
  datatype Option<+T> = None | Some(value: T)
}
