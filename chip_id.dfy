/** The ESP32 chip identifier of lib/getChipId/getChipId.cpp: the three upper
    bytes of the 48-bit factory MAC address, taken in reverse order into a
    32-bit word. The hardware call that reads the MAC is replaced by a
    parameter holding its 64-bit value. */
module ChipId {

  /** Byte `k` (0 = least significant) of the MAC word. */
  function MacByte(mac: bv64, k: nat): (b: bv64)
    requires k < 8
    ensures b < 0x100
  {
    var shifted :=
      if k == 0 then mac else if k == 1 then mac >> 8 else if k == 2 then mac >> 16
      else if k == 3 then mac >> 24 else if k == 4 then mac >> 32 else if k == 5 then mac >> 40
      else if k == 6 then mac >> 48 else mac >> 56;
    shifted & 0xff
  }

  /** Byte `k` of the 32-bit identifier. */
  function IdByte(id: bv32, k: nat): (b: bv32)
    requires k < 4
    ensures b < 0x100
  {
    var shifted := if k == 0 then id else if k == 1 then id >> 8 else if k == 2 then id >> 16 else id >> 24;
    shifted & 0xff
  }

  /** The loop of getChipId: for i = 0, 8, 16 it ORs byte (5 - i/8) of the
      MAC into bits i..i+7 of the result. The OR is done on 64 bits and
      stored back into the 32-bit accumulator, as the C conversion does. */
  method GetChipId(mac: bv64) returns (chipId: bv32)
    ensures chipId == ChipIdOf(mac)
  {
    chipId := 0;
    var i := 0;
    while i < 17
      invariant i == 0 || i == 8 || i == 16 || i == 24
      invariant i == 0 ==> chipId == 0
      invariant i == 8 ==> chipId as bv64 == (mac >> 40) & 0xff
      invariant i == 16 ==> chipId as bv64 == ((mac >> 40) & 0xff) | (((mac >> 32) & 0xff) << 8)
      invariant i == 24 ==> chipId as bv64 == ((mac >> 40) & 0xff) | (((mac >> 32) & 0xff) << 8) | (((mac >> 24) & 0xff) << 16)
    {
      var lane: bv64 := ((mac >> (40 - i)) & 0xff) << i;
      chipId := (((chipId as bv64) | lane) & 0xffff_ffff) as bv32;
      i := i + 8;
    }
    OrIsSum(mac);
    WidenIsInjective(chipId, ChipIdOf(mac));
  }

  lemma WidenIsInjective(x: bv32, y: bv32)
    requires x as bv64 == y as bv64
    ensures x == y
  {
  }

  /** The identifier as a function of the MAC, written as the sum of the
      three bytes at their places (an independent statement of what the loop
      ORs together). */
  function ChipIdOf(mac: bv64): (id: bv32)
    ensures id < 0x100_0000
  {
    Assemble(MacByte(mac, 5), MacByte(mac, 4), MacByte(mac, 3))
  }

  /** Places three byte values at bits 0-7, 8-15 and 16-23. */
  function Assemble(low: bv64, mid: bv64, high: bv64): (id: bv32)
    requires low < 0x100 && mid < 0x100 && high < 0x100
    ensures id < 0x100_0000
  {
    (low + (mid << 8) + (high << 16)) as bv32
  }

  /** The three bytes the loop writes are disjoint, so OR-accumulating them
      gives their sum. */
  lemma OrIsSum(mac: bv64)
    ensures ChipIdOf(mac) as bv64 == MacByte(mac, 5) | (MacByte(mac, 4) << 8) | (MacByte(mac, 3) << 16)
  {
  }

  /** Bits 0-7 of the identifier are MAC bits 40-47, bits 8-15 are MAC bits
      32-39 and bits 16-23 are MAC bits 24-31: bytes 3..5 in reverse order. */
  lemma ChipIdBytes(mac: bv64)
    ensures IdByte(ChipIdOf(mac), 0) as bv64 == MacByte(mac, 5)
    ensures IdByte(ChipIdOf(mac), 1) as bv64 == MacByte(mac, 4)
    ensures IdByte(ChipIdOf(mac), 2) as bv64 == MacByte(mac, 3)
    ensures IdByte(ChipIdOf(mac), 3) == 0
  {
  }

  /** The identifier depends only on bits 24-47 of the MAC. */
  lemma DependsOnlyOnUpperBytes(mac1: bv64, mac2: bv64)
    requires (mac1 >> 24) & 0xff_ffff == (mac2 >> 24) & 0xff_ffff
    ensures ChipIdOf(mac1) == ChipIdOf(mac2)
  {
    assert MacByte(mac1, 3) == MacByte(mac2, 3);
    assert MacByte(mac1, 4) == MacByte(mac2, 4);
    assert MacByte(mac1, 5) == MacByte(mac2, 5);
  }
}
