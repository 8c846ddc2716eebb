/** The `waker` library crate: building the magic packet for an address given
    in any accepted form, and the hand-written hexadecimal digit decoder used
    by its MAC parser. Sending the packet over UDP is not modelled. */
module Waker {
  import opened MacTypes
  import opened MagicPacketFormat

  /** `create_magic_packet_impl`: starts from the six 0xFF bytes and appends
      the address sixteen times. */
  method CreateMagicPacketImpl(addr: MacBytes) returns (packet: seq<u8>)
    ensures packet == MagicPacket(addr)
  {
    packet := [0xFF, 0xFF, 0xFF, 0xFF, 0xFF, 0xFF];
    for n := 0 to REPETITIONS
      invariant packet == SYNC_STREAM + Repeat(addr, n)
    {
      packet := packet + addr;
    }
  }

  /** `create_magic_packet`: fails exactly when converting the input to
      address bytes fails, with that same error; otherwise the packet is the
      102-byte magic packet from which those bytes read back. */
  function CreateMagicPacket(input: MacInput, parse: MacParser): (r: Result<seq<u8>, MacAddressError>)
    ensures r.Err? <==> AsMacBytes(input, parse).Err?
    ensures r.Err? ==> r.error == AsMacBytes(input, parse).error
    ensures r.Ok? ==> |r.value| == PACKET_LENGTH
    ensures r.Ok? ==> MacOfPacket(r.value) == Some(AsMacBytes(input, parse).value)
  {
    var addr :- AsMacBytes(input, parse);
    MacOfPacketRoundTrip(addr);
    Ok(MagicPacket(addr))
  }

  predicate IsHexDigit(c: char) {
    c in LOWER_HEX_DIGITS || c in UPPER_HEX_DIGITS
  }

  const LOWER_HEX_DIGITS: string := "0123456789abcdef"
  const UPPER_HEX_DIGITS: string := "0123456789ABCDEF"

  /** `hex_val`: the value of one hexadecimal digit of either case, or an
      `InvalidByteInMac` error carrying the offending character. */
  function HexVal(c: char): (r: Result<u8, MacAddressError>)
    ensures r.Ok? <==> IsHexDigit(c)
    ensures r.Ok? ==> r.value < 16
    ensures r.Err? ==> r.error == InvalidByteInMac([c])
  {
    if '0' <= c <= '9' then Ok((c as int - '0' as int) as u8)
    else if 'a' <= c <= 'f' then Ok((c as int - 'a' as int + 10) as u8)
    else if 'A' <= c <= 'F' then Ok((c as int - 'A' as int + 10) as u8)
    else Err(InvalidByteInMac([c]))
  }

  /** Decoding inverts formatting: the digit written for `v`, in either case,
      decodes to `v`. */
  lemma HexValOfDigit(v: u8)
    requires v < 16
    ensures HexVal(LOWER_HEX_DIGITS[v]) == Ok(v)
    ensures HexVal(UPPER_HEX_DIGITS[v]) == Ok(v)
  {
    if v < 10 {
      assert LOWER_HEX_DIGITS[v] == UPPER_HEX_DIGITS[v] == ('0' as int + v as int) as char;
    } else {
      assert LOWER_HEX_DIGITS[v] == ('a' as int + v as int - 10) as char;
      assert UPPER_HEX_DIGITS[v] == ('A' as int + v as int - 10) as char;
    }
  }

  /** Formatting inverts decoding: a digit that decodes to `v` is the digit
      written for `v` in lower or in upper case. Together with `HexValOfDigit`
      this makes the decoder case-insensitive. */
  lemma DigitOfHexVal(c: char)
    requires HexVal(c).Ok?
    ensures c == LOWER_HEX_DIGITS[HexVal(c).value] || c == UPPER_HEX_DIGITS[HexVal(c).value]
  {
    var v := HexVal(c).value;
    if '0' <= c <= '9' {
      assert LOWER_HEX_DIGITS[v] == ('0' as int + v as int) as char;
    } else if 'a' <= c <= 'f' {
      assert LOWER_HEX_DIGITS[v] == ('a' as int + v as int - 10) as char;
    } else {
      assert UPPER_HEX_DIGITS[v] == ('A' as int + v as int - 10) as char;
    }
  }

  /** The crate's tests: the string and the byte-array form of 01:23:45:67:89:AB
      both give the expected packet, a 5-byte slice fails with
      `InvalidLength(5)`, and the 5-group string fails with whatever error the
      parser gives it (this crate's tests expect `InvalidLength(14)`). */
  lemma WakerTestVectors(parse: MacParser)
    requires parse("01:23:45:67:89:AB") == Ok(EXAMPLE_MAC)
    requires parse("01:23:45:67:89") == Err(InvalidLength(14))
    ensures CreateMagicPacket(FromText("01:23:45:67:89:AB"), parse) == Ok(EXPECTED_PACKET)
    ensures CreateMagicPacket(FromArray(EXAMPLE_MAC), parse) == Ok(EXPECTED_PACKET)
    ensures CreateMagicPacket(FromSlice(EXAMPLE_MAC[..5]), parse) == Err(InvalidLength(5))
    ensures CreateMagicPacket(FromText("01:23:45:67:89"), parse) == Err(InvalidLength(14))
  {
    ExamplePacket();
  }
}
