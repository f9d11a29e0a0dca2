/** Test cases as the generator produces them. */
module Cases {
  import opened Bits

  datatype Category =
    | KnownGood | CommandMalformed | VersionField | ApidField | SeqFlagsField
    | PacketLength | SecondaryHeader | Truncation | Oversized | DegeneratePayload

  datatype PacketCase = PacketCase(
    name: string,
    category: Category,
    packet: Bytes,
    expectSafeReject: bool,
    expectAccept: bool,
    checksumValid: bool)
}
