/** The phase-bit table of the Pulsar phase shifter, and the byte operations
    the driver applies to its register with it. */
module PhaseBits {

  /** One unsigned byte: the width of the device register and of every transfer. */
  type Byte = bv8

  /** The eight entries of the table, one per phase increment
      (1.4, 2.8, 5.6, 11.2, 22.5, 45, 90 and 180 degrees). */
  datatype PhaseBit = P1_4 | P2_8 | P5_6 | P11_2 | P22_5 | P45 | P90 | P180

  /** The `mux` value of an entry: the register bit that switches it. The
      degree values of the table are used by no logic and are not modelled. */
  function MuxOf(b: PhaseBit): Byte {
    match b
    case P1_4 => 0x01
    case P2_8 => 0x02
    case P5_6 => 0x04
    case P11_2 => 0x08
    case P22_5 => 0x10
    case P45 => 0x20
    case P90 => 0x40
    case P180 => 0x80
  }

  /** The table's keys: the bit names the driver accepts. */
  const Table: map<string, PhaseBit> := map[
    "1_4" := P1_4, "2_8" := P2_8, "5_6" := P5_6, "11_2" := P11_2,
    "22_5" := P22_5, "45" := P45, "90" := P90, "180" := P180]

  /** The table key of an entry. */
  function NameOf(b: PhaseBit): string {
    match b
    case P1_4 => "1_4"
    case P2_8 => "2_8"
    case P5_6 => "5_6"
    case P11_2 => "11_2"
    case P22_5 => "22_5"
    case P45 => "45"
    case P90 => "90"
    case P180 => "180"
  }

  /** The table is one-to-one: every key names the entry whose key it is,
      and every entry's key leads back to it. */
  lemma NameRoundTrip(name: string, b: PhaseBit)
    ensures name in Table ==> NameOf(Table[name]) == name
    ensures NameOf(b) in Table && Table[NameOf(b)] == b
  {
  }

  /** Every entry, in table order. */
  const AllBits: seq<PhaseBit> := [P1_4, P2_8, P5_6, P11_2, P22_5, P45, P90, P180]

  /** Exactly one bit of `b` is set. */
  predicate IsSingleBit(b: Byte) {
    b != 0 && b & (b - 1) == 0
  }

  /** The register after `mask |= bit` (on) or `mask &= ~bit & 0xFF` (off):
      the bits of `bit` are all set or all clear, every other bit is kept. */
  function Switch(mask: Byte, on: bool, bit: Byte): (r: Byte)
    ensures r & bit == (if on then bit else 0)
    ensures r & !bit == mask & !bit
  {
    if on then mask | bit else mask & !bit
  }

  /** Switching one single bit on or off decides that bit. */
  lemma SwitchDecides(mask: Byte, on: bool, bit: Byte)
    requires IsSingleBit(bit)
    ensures (Switch(mask, on, bit) & bit != 0) == on
  {
  }

  /** Switching a bit keeps every bit disjoint from it. */
  lemma SwitchKeeps(mask: Byte, on: bool, bit: Byte, other: Byte)
    requires bit & other == 0
    ensures Switch(mask, on, bit) & other == mask & other
  {
  }

  /** A bit of an OR is the OR of that bit of the operands. */
  lemma OrAtBit(a: Byte, b: Byte, bit: Byte)
    ensures (a | b) & bit == (a & bit) | (b & bit)
  {
  }

  /** Python's `~bit & 0xFF` on a non-negative integer: `~bit` is `-bit - 1`,
      and `& 0xFF` keeps its low eight bits, which is the floor remainder mod 256. */
  function PyComplementByte(bit: int): (r: int)
    ensures 0 <= r < 256
  {
    (-bit - 1) % 256
  }

  /** The 8-bit complement `!bit` used by `Switch` is Python's `~bit & 0xFF`. */
  lemma ComplementMatchesPython(bit: Byte)
    ensures (!bit) as int == PyComplementByte(bit as int)
    ensures (!bit) as int == 255 - bit as int
  {
  }

  /** Every `mux` value of the table is a single bit. */
  lemma MuxIsSingleBit(b: PhaseBit)
    ensures IsSingleBit(MuxOf(b))
  {
  }

  /** Two different entries switch disjoint bits, so the eight `mux` values
      are distinct. */
  lemma MuxDisjoint(a: PhaseBit, b: PhaseBit)
    requires a != b
    ensures MuxOf(a) & MuxOf(b) == 0
  {
  }

  /** `AllBits` lists every entry, and every entry has a name in the table. */
  lemma AllBitsComplete(b: PhaseBit)
    ensures b in AllBits
    ensures exists name :: name in Table && Table[name] == b
  {
    match b
    case P1_4 => assert Table["1_4"] == b;
    case P2_8 => assert Table["2_8"] == b;
    case P5_6 => assert Table["5_6"] == b;
    case P11_2 => assert Table["11_2"] == b;
    case P22_5 => assert Table["22_5"] == b;
    case P45 => assert Table["45"] == b;
    case P90 => assert Table["90"] == b;
    case P180 => assert Table["180"] == b;
  }

  /** The eight bits cover the byte: two registers that agree on every
      entry's bit are the same register. */
  lemma MuxCoversByte(a: Byte, b: Byte)
    requires forall p: PhaseBit :: a & MuxOf(p) == b & MuxOf(p)
    ensures a == b
  {
    assert a & 0x01 == b & 0x01 by { assert MuxOf(P1_4) == 0x01; }
    assert a & 0x02 == b & 0x02 by { assert MuxOf(P2_8) == 0x02; }
    assert a & 0x04 == b & 0x04 by { assert MuxOf(P5_6) == 0x04; }
    assert a & 0x08 == b & 0x08 by { assert MuxOf(P11_2) == 0x08; }
    assert a & 0x10 == b & 0x10 by { assert MuxOf(P22_5) == 0x10; }
    assert a & 0x20 == b & 0x20 by { assert MuxOf(P45) == 0x20; }
    assert a & 0x40 == b & 0x40 by { assert MuxOf(P90) == 0x40; }
    assert a & 0x80 == b & 0x80 by { assert MuxOf(P180) == 0x80; }
  }
}
