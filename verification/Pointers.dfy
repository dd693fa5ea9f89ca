/** References to pool objects: an index into the pool's storage, or null. */
module Pointers {
  datatype Pointer = Null | At(index: nat)
}
