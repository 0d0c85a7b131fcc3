/** The command codes of the LD07 protocol (the `CmdCode` enumeration).
    A received frame keeps its command byte raw: it is never checked
    against this list. */
module CmdCode {
  import opened Bytes

  /** Fetch distance data. */
  const PackGetDistance: byte := 0x02
  /** Stop distance data transmission. */
  const PackStop: byte := 0x0F
  /** Acquisition of correction parameters. */
  const PackGetCoe: byte := 0x12
  /** Address configuration; the reply carries the number of devices. */
  const PackConfigAddress: byte := 0x16
  /** Answer-back code. */
  const PackAck: byte := 0x10

  /** Whether `b` is one of the enumerated command codes. */
  predicate IsCmdCode(b: int)
  {
    b in {PackGetDistance, PackStop, PackGetCoe, PackConfigAddress, PackAck}
  }

  /** The five codes are distinct command bytes, each one enumerated. */
  lemma CmdCodesDistinct()
    ensures IsCmdCode(PackGetDistance) && IsCmdCode(PackStop) && IsCmdCode(PackGetCoe)
    ensures IsCmdCode(PackConfigAddress) && IsCmdCode(PackAck)
    ensures |{PackGetDistance, PackStop, PackGetCoe, PackConfigAddress, PackAck}| == 5
  {
  }
}
