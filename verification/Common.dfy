/** What several parts of the system share. */
module Common {

  datatype Option<T> = None | Some(value: T)

  const SYSERR := -1

  /** Unsigned words have 32 bits. */
  const WORD := 0x1_0000_0000
}
