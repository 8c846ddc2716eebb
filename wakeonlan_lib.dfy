/** The `wakeonlan` library crate, the earlier copy of the packet builder.
    Its builder has the same code as the `waker` crate's; its MAC parser
    differs (the 5-group string is rejected as `InvalidMacAddress`). Sending
    the packet over UDP is not modelled. */
module WakeOnLan {
  import opened MacTypes
  import opened MagicPacketFormat

  /** `create_magic_packet_impl`: grows the buffer from the six 0xFF bytes by
      one copy of the address per round, sixteen rounds. */
  method CreateMagicPacketImpl(addr: MacBytes) returns (packet: seq<u8>)
    ensures packet == MagicPacket(addr)
  {
    packet := SYNC_STREAM;
    for round := 0 to REPETITIONS
      invariant packet == SYNC_STREAM + Repeat(addr, round)
    {
      packet := packet + addr;
    }
  }

  /** `create_magic_packet`: only the conversion step can fail, and its error
      is returned unchanged; once six bytes are available the packet is
      always built. */
  function CreateMagicPacket(input: MacInput, parse: MacParser): (r: Result<seq<u8>, MacAddressError>)
    ensures r.Err? <==> AsMacBytes(input, parse).Err?
    ensures r.Err? ==> r.error == AsMacBytes(input, parse).error
    ensures r.Ok? ==> |r.value| == PACKET_LENGTH
    ensures r.Ok? ==> MacOfPacket(r.value) == Some(AsMacBytes(input, parse).value)
  {
    match AsMacBytes(input, parse)
    case Err(e) => Err(e)
    case Ok(addr) =>
      MacOfPacketRoundTrip(addr);
      Ok(MagicPacket(addr))
  }

  /** Whatever form the address comes in, the same six bytes give the same
      packet: the string and the byte form of an address are interchangeable
      once the string parses to those bytes. */
  lemma SameBytesSamePacket(text: string, bytes: MacBytes, parse: MacParser)
    requires parse(text) == Ok(bytes)
    ensures CreateMagicPacket(FromText(text), parse) == CreateMagicPacket(FromArray(bytes), parse)
    ensures CreateMagicPacket(FromArray(bytes), parse) == CreateMagicPacket(FromSlice(bytes), parse)
    ensures CreateMagicPacket(FromSlice(bytes), parse) == CreateMagicPacket(FromMac(bytes), parse)
  {
  }

  /** The crate's tests, given the parser's answers on the two strings they
      use: string and array forms of 01:23:45:67:89:AB give the expected
      packet, a 5-byte slice fails with `InvalidLength(5)`, and the parser's
      `InvalidMacAddress` for the 5-group string is passed on. */
  lemma WakeOnLanTestVectors(parse: MacParser)
    requires parse("01:23:45:67:89:AB") == Ok(EXAMPLE_MAC)
    requires parse("01:23:45:67:89") == Err(InvalidMacAddress("01:23:45:67:89"))
    ensures CreateMagicPacket(FromText("01:23:45:67:89:AB"), parse) == Ok(EXPECTED_PACKET)
    ensures CreateMagicPacket(FromArray(EXAMPLE_MAC), parse) == Ok(EXPECTED_PACKET)
    ensures CreateMagicPacket(FromSlice(EXAMPLE_MAC[..5]), parse) == Err(InvalidLength(5))
    ensures CreateMagicPacket(FromText("01:23:45:67:89"), parse) == Err(InvalidMacAddress("01:23:45:67:89"))
  {
    ExamplePacket();
  }

  /** The loopback send test builds its packet from a `Mac`: for
      01:23:45:67:89:AB that is the expected packet, whatever the parser. */
  lemma WakeOnLanMacVector(parse: MacParser)
    ensures CreateMagicPacket(FromMac(EXAMPLE_MAC), parse) == Ok(EXPECTED_PACKET)
  {
    ExamplePacket();
  }
}
