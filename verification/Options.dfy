/** Results that may be absent: null pointers, empty queues, failed allocations. */
module Options {
  datatype Option<+T> = None | Some(value: T)
}
