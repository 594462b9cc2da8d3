/** The identifiers that travel between nodes, all opaque text, and 64-bit epochs. */
module Ids {
  type NodeId = string

  type Endpoint = string

  type Pid = string

  type GroupId = string

  type ChainId = string

  type Name = string

  /** Incrementing an unsigned 64-bit counter. */
  function NextEpoch(e: nat): nat {
    (e + 1) % 0x1_0000_0000_0000_0000
  }
}
