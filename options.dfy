/** An optional value: the engine's active piece is absent between a lock and the next spawn. */
module Options {
  datatype Option<T> = None | Some(value: T)
}
