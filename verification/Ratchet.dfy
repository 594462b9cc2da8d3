/** The mutation ratchet over any key-derivation function and any message authentication code. */
module Ratchet {
  import opened Wrappers
  import opened Ids
  import opened Shamir

  /** `hkdf(ikm, salt, info)` derives a key; `mac(seed, pid)` is the text of the truncated code. */
  datatype Primitives = Primitives(hkdf: (Bytes, Bytes, string) -> Bytes, mac: (Bytes, Pid) -> Pid)

  /** The next key needs a current key, a seed and local entropy, all of them nonempty. */
  function Advance(p: Primitives, currentKey: Bytes, serverSeed: Bytes, localEntropy: Bytes): Option<Bytes> {
    if |currentKey| == 0 || |serverSeed| == 0 || |localEntropy| == 0 then None
    else Some(p.hkdf(serverSeed + localEntropy, currentKey, "mutant-db/ratchet-step"))
  }

  function NextPseudoID(p: Primitives, prevPseudoID: Pid, serverSeed: Bytes): Pid {
    p.mac(serverSeed, prevPseudoID)
  }
}
