/**
 * CRC-16/XMODEM, the checksum the uploader appends to every SDATA frame
 * (the `CRC_16` constant, built from the `crc` crate's CRC_16_XMODEM
 * parameters): polynomial 0x1021 (the ITU-T V.41 polynomial), initial
 * register 0x0000, input and output not reflected, no final XOR.
 *
 * The crate computes it with a lookup table; here it is defined bit by bit,
 * which is the definition the table is derived from.
 */
module Crc16 {

  const Polynomial: bv16 := 0x1021
  const Initial: bv16 := 0x0000

  /** One step of the polynomial division: shift left, and subtract the
      polynomial when a one is shifted out of the top bit. */
  function Shift(crc: bv16): bv16
  {
    if crc & 0x8000 == 0 then crc << 1 else (crc << 1) ^ Polynomial
  }

  /** Feeds one byte, most significant bit first. */
  function Update(crc: bv16, b: bv8): bv16
  {
    var c := crc ^ ((b as bv16) << 8);
    Shift(Shift(Shift(Shift(Shift(Shift(Shift(Shift(c))))))))
  }

  /** Feeds the bytes of `data` in order, starting from register `crc`. */
  function Fold(crc: bv16, data: seq<bv8>): bv16
    decreases |data|
  {
    if data == [] then crc else Fold(Update(crc, data[0]), data[1..])
  }

  /** The checksum of a whole buffer. */
  function Checksum(data: seq<bv8>): bv16
  {
    Fold(Initial, data)
  }

  /** High byte of a 16-bit value, `(crc >> 8) & 0xFF`. */
  function Hi(crc: bv16): bv8
  {
    (crc >> 8) as bv8
  }

  /** Low byte of a 16-bit value, `crc & 0xFF`. */
  function Lo(crc: bv16): bv8
  {
    (crc & 0xFF) as bv8
  }

  /** Reads two bytes big-endian, `(hi << 8) | lo`. */
  function Join(hi: bv8, lo: bv8): (crc: bv16)
    ensures Hi(crc) == hi && Lo(crc) == lo
  {
    ((hi as bv16) << 8) | (lo as bv16)
  }

  /** Splitting a value into its two bytes and joining them gives it back. */
  lemma SplitJoin(crc: bv16)
    ensures Join(Hi(crc), Lo(crc)) == crc
  {
  }

  /** Checksumming a concatenation is checksumming the second part from
      the register the first part left behind. */
  lemma {:induction false} FoldAppend(crc: bv16, a: seq<bv8>, b: seq<bv8>)
    ensures Fold(crc, a + b) == Fold(Fold(crc, a), b)
    decreases |a|
  {
    if a == [] {
      assert a + b == b;
    } else {
      assert (a + b)[1..] == a[1..] + b;
      FoldAppend(Update(crc, a[0]), a[1..], b);
    }
  }

  /** Feeding a register its own value, high byte first, clears it. */
  lemma UpdateResidue(crc: bv16)
    ensures Update(Update(crc, Hi(crc)), Lo(crc)) == 0
  {
  }

  /** A buffer followed by its big-endian checksum has checksum zero: this
      is how a receiver that runs the same CRC over the payload and the two
      trailing bytes recognises an intact frame. */
  lemma {:induction false} Residue(data: seq<bv8>)
    ensures Checksum(data + [Hi(Checksum(data)), Lo(Checksum(data))]) == 0
  {
    var c := Checksum(data);
    FoldAppend(Initial, data, [Hi(c), Lo(c)]);
    assert [Hi(c), Lo(c)][1..] == [Lo(c)];
    assert [Lo(c)][1..] == [];
    calc {
      Fold(c, [Hi(c), Lo(c)]);
      Fold(Update(c, Hi(c)), [Lo(c)]);
      Fold(Update(Update(c, Hi(c)), Lo(c)), []);
      { UpdateResidue(c); }
      0;
    }
  }

  /** The check value of CRC-16/XMODEM: the checksum of the ASCII digits
      "123456789" is 0x31C3. */
  lemma CheckValue()
    ensures Checksum([0x31, 0x32, 0x33, 0x34, 0x35, 0x36, 0x37, 0x38, 0x39]) == 0x31C3
  {
    var digits: seq<bv8> := [0x31, 0x32, 0x33, 0x34, 0x35, 0x36, 0x37, 0x38, 0x39];
    assert Update(0x0000, 0x31) == 0x2672;
    assert Update(0x2672, 0x32) == 0x20B5;
    assert Update(0x20B5, 0x33) == 0x9752;
    assert Update(0x9752, 0x34) == 0xD789;
    assert Update(0xD789, 0x35) == 0x546C;
    assert Update(0x546C, 0x36) == 0x20E4;
    assert Update(0x20E4, 0x37) == 0x86D6;
    assert Update(0x86D6, 0x38) == 0x9015;
    assert Update(0x9015, 0x39) == 0x31C3;
    calc {
      Checksum(digits);
      Fold(0x2672, digits[1..]);
      Fold(0x20B5, digits[2..]);
      Fold(0x9752, digits[3..]);
      Fold(0xD789, digits[4..]);
      Fold(0x546C, digits[5..]);
      Fold(0x20E4, digits[6..]);
      Fold(0x86D6, digits[7..]);
      Fold(0x9015, digits[8..]);
      Fold(0x31C3, digits[9..]);
      0x31C3;
    }
  }
}
