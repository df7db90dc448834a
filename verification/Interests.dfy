/** The interest bits of lib/selector.h. */
module Interests {
  datatype Interest = Interest(read: bool, write: bool)

  const OP_NOOP := Interest(false, false)
  const OP_READ := Interest(true, false)
  const OP_WRITE := Interest(false, true)
}
