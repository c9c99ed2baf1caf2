/** The result of a driver that can fail: `None` stands where the source
    panics for want of a winning board. */
module Options {

  datatype Option<T> = None | Some(value: T)
}
