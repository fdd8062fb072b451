/** The countdown latch, as far as its count goes. */
module Latches {

  function Lower(count: nat): nat {
    if count > 0 then count - 1 else 0
  }
}
