/** The Wake-on-LAN magic packet (AMD Magic Packet format): a synchronisation
    stream of six 0xFF bytes followed by the target's hardware address sixteen
    times, 102 bytes in all. This module is the reference definition both
    library crates are proved against. */
module MagicPacketFormat {
  import opened MacTypes

  const SYNC_STREAM: seq<u8> := [0xFF, 0xFF, 0xFF, 0xFF, 0xFF, 0xFF]
  const REPETITIONS: nat := 16
  const PACKET_LENGTH: nat := 102

  /** `n` copies of `addr` back to back, each appended after the previous one. */
  function Repeat(addr: MacBytes, n: nat): (r: seq<u8>)
    ensures |r| == 6 * n
    ensures forall i :: 0 <= i < |r| ==> r[i] == addr[i % 6]
  {
    if n == 0 then [] else Repeat(addr, n - 1) + addr
  }

  /** The magic packet for `addr`. */
  function MagicPacket(addr: MacBytes): (p: seq<u8>)
    ensures |p| == PACKET_LENGTH
    ensures forall i :: 0 <= i < 6 ==> p[i] == 0xFF
    ensures forall i :: 6 <= i < |p| ==> p[i] == addr[(i - 6) % 6]
  {
    SYNC_STREAM + Repeat(addr, REPETITIONS)
  }

  /** Copy `k` of the address sits at bytes 6 + 6k .. 12 + 6k. */
  lemma PacketBlock(addr: MacBytes, k: nat)
    requires k < REPETITIONS
    ensures MagicPacket(addr)[6 + 6 * k .. 12 + 6 * k] == addr
  {
    var p := MagicPacket(addr);
    forall j | 0 <= j < 6
      ensures p[6 + 6 * k + j] == addr[j]
    {
      assert (6 + 6 * k + j - 6) % 6 == j;
    }
  }

  /** Reads the address back out of a packet: `Some(a)` exactly when the bytes
      are the magic packet for `a`. */
  function MacOfPacket(p: seq<u8>): (r: Option<MacBytes>)
    ensures r.Some? ==> MagicPacket(r.value) == p
  {
    if |p| == PACKET_LENGTH && MagicPacket(p[6..12]) == p then Some(p[6..12]) else None
  }

  /** The address can always be recovered from its packet. */
  lemma MacOfPacketRoundTrip(addr: MacBytes)
    ensures MacOfPacket(MagicPacket(addr)) == Some(addr)
  {
    PacketBlock(addr, 0);
  }

  /** Different addresses never share a packet. */
  lemma MagicPacketInjective(a: MacBytes, b: MacBytes)
    requires MagicPacket(a) == MagicPacket(b)
    ensures a == b
  {
    MacOfPacketRoundTrip(a);
    MacOfPacketRoundTrip(b);
  }

  /** The address 01:23:45:67:89:AB used by the repository's tests. */
  const EXAMPLE_MAC: MacBytes := [0x01, 0x23, 0x45, 0x67, 0x89, 0xAB]

  /** The 102-byte packet the tests expect for `EXAMPLE_MAC`, byte for byte as
      the tests spell it out in decimal, grouped here six bytes per group. */
  const EXPECTED_PACKET: seq<u8> :=
    [255, 255, 255, 255, 255, 255] + (
    [1, 35, 69, 103, 137, 171] + [1, 35, 69, 103, 137, 171] + [1, 35, 69, 103, 137, 171] + [1, 35, 69, 103, 137, 171] +
    [1, 35, 69, 103, 137, 171] + [1, 35, 69, 103, 137, 171] + [1, 35, 69, 103, 137, 171] + [1, 35, 69, 103, 137, 171] +
    [1, 35, 69, 103, 137, 171] + [1, 35, 69, 103, 137, 171] + [1, 35, 69, 103, 137, 171] + [1, 35, 69, 103, 137, 171] +
    [1, 35, 69, 103, 137, 171] + [1, 35, 69, 103, 137, 171] + [1, 35, 69, 103, 137, 171] + [1, 35, 69, 103, 137, 171])

  /** The packet for 01:23:45:67:89:AB is the tests' expected packet. */
  lemma ExamplePacket()
    ensures MagicPacket(EXAMPLE_MAC) == EXPECTED_PACKET
  {
    var a: seq<u8> := EXAMPLE_MAC;
    assert Repeat(EXAMPLE_MAC, 1) == a;
    assert Repeat(EXAMPLE_MAC, 2) == a + a;
    assert Repeat(EXAMPLE_MAC, 3) == a + a + a;
    assert Repeat(EXAMPLE_MAC, 4) == a + a + a + a;
    assert Repeat(EXAMPLE_MAC, 5) == a + a + a + a + a;
    assert Repeat(EXAMPLE_MAC, 6) == a + a + a + a + a + a;
    assert Repeat(EXAMPLE_MAC, 7) == a + a + a + a + a + a + a;
    assert Repeat(EXAMPLE_MAC, 8) == a + a + a + a + a + a + a + a;
    assert Repeat(EXAMPLE_MAC, 9) == a + a + a + a + a + a + a + a + a;
    assert Repeat(EXAMPLE_MAC, 10) == a + a + a + a + a + a + a + a + a + a;
    assert Repeat(EXAMPLE_MAC, 11) == a + a + a + a + a + a + a + a + a + a + a;
    assert Repeat(EXAMPLE_MAC, 12) == a + a + a + a + a + a + a + a + a + a + a + a;
    assert Repeat(EXAMPLE_MAC, 13) == a + a + a + a + a + a + a + a + a + a + a + a + a;
    assert Repeat(EXAMPLE_MAC, 14) == a + a + a + a + a + a + a + a + a + a + a + a + a + a;
    assert Repeat(EXAMPLE_MAC, 15) == a + a + a + a + a + a + a + a + a + a + a + a + a + a + a;
    assert Repeat(EXAMPLE_MAC, 16) == a + a + a + a + a + a + a + a + a + a + a + a + a + a + a + a;
  }
}
