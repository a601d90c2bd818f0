/**
  QuickXorHash as Microsoft defines it, bit by bit: a register of 160 bits that is a ring, each
  byte 11 bits further on than the one before, and the length over the end of it.
*/
module QuickXorRegister {
  const WIDTH_BITS: nat := 160
  const SHIFT: nat := 11
  const LEN: nat := 20

  type Byte = bv8

  /** The byte with only this bit set. */
  function Mask(bit: nat): Byte
    requires bit < 8
  {
    match bit
    case 0 => 1
    case 1 => 2
    case 2 => 4
    case 3 => 8
    case 4 => 16
    case 5 => 32
    case 6 => 64
    case _ => 128
  }

  predicate Bit(value: Byte, bit: nat)
    requires bit < 8
  {
    value & Mask(bit) != 0
  }

  lemma BitOfXor(x: Byte, y: Byte, bit: nat)
    requires bit < 8
    ensures Bit(x ^ y, bit) <==> (Bit(x, bit) != Bit(y, bit))
  {
    match bit
    case 0 =>
    case 1 =>
    case 2 =>
    case 3 =>
    case 4 =>
    case 5 =>
    case 6 =>
    case _ =>
  }

  lemma BitOfMask(set_: nat, bit: nat)
    requires set_ < 8 && bit < 8
    ensures Bit(Mask(set_), bit) <==> set_ == bit
  {
  }

  lemma SameBitsSameByte(x: Byte, y: Byte)
    requires forall bit: nat :: bit < 8 ==> Bit(x, bit) == Bit(y, bit)
    ensures x == y
  {
    assert Bit(x, 0) == Bit(y, 0) && Bit(x, 1) == Bit(y, 1) && Bit(x, 2) == Bit(y, 2) && Bit(x, 3) == Bit(y, 3);
    assert Bit(x, 4) == Bit(y, 4) && Bit(x, 5) == Bit(y, 5) && Bit(x, 6) == Bit(y, 6) && Bit(x, 7) == Bit(y, 7);
  }

  /** The register, bit by bit. */
  type Register = r: seq<bool> | |r| == WIDTH_BITS witness seq(WIDTH_BITS, _ => false)

  function Empty(): Register {
    seq(WIDTH_BITS, _ => false)
  }

  /** Where bit p of the register lies behind `offset`, round the register. */
  function Behind(p: nat, offset: nat): (b: nat)
    requires p < WIDTH_BITS && offset < WIDTH_BITS
    ensures b < WIDTH_BITS
  {
    (p + WIDTH_BITS - offset) % WIDTH_BITS
  }

  /** The lowest `n` bits of a byte are XORed into the register at a bit offset. */
  function PlacedBits(register: Register, offset: nat, value: Byte, n: nat): Register
    requires offset < WIDTH_BITS && n <= 8
  {
    seq(WIDTH_BITS, p requires 0 <= p < WIDTH_BITS => register[p] != (Behind(p, offset) < n && Bit(value, Behind(p, offset))))
  }

  function Placed(register: Register, offset: nat, value: Byte): Register
    requires offset < WIDTH_BITS
  {
    PlacedBits(register, offset, value, 8)
  }

  /** The content's bytes in the register, each where it is published to be. */
  function ContentPlaced(content: seq<Byte>): Register {
    if content == [] then Empty()
    else Placed(ContentPlaced(content[..|content| - 1]), (SHIFT * (|content| - 1)) % WIDTH_BITS, content[|content| - 1])
  }

  function Pow256(i: nat): (p: nat)
    ensures p > 0
  {
    if i == 0 then 1 else 256 * Pow256(i - 1)
  }

  /** Byte `i` of a length, the lowest first. */
  function LengthByte(length: nat, i: nat): Byte {
    ((length / Pow256(i)) % 256) as Byte
  }

  /** The first `n` bytes of the length in the last 8 bytes of the register. */
  function LengthPlaced(register: Register, length: nat, n: nat): Register
    requires n <= 8
  {
    if n == 0 then register
    else Placed(LengthPlaced(register, length, n - 1), 8 * (LEN - 8 + n - 1), LengthByte(length, n - 1))
  }

  /** The hash as it is published. */
  function Published(content: seq<Byte>): Register {
    LengthPlaced(ContentPlaced(content), |content|, 8)
  }

  // ---------------------------------------------------------------- bit by bit

  /** Bit b of the byte, the lowest first. */
  ghost predicate IsSet(value: Byte, b: nat)
    requires b < 8
  {
    (value >> b) & 1 == 1
  }

  lemma BitIsShifted(value: Byte, b: nat)
    requires b < 8
    ensures Bit(value, b) <==> IsSet(value, b)
  {
    if b < 4 {
      LowIsShifted(value, b);
    } else {
      HighIsShifted(value, b);
    }
    hide Bit, IsSet;
  }

  lemma LowIsShifted(value: Byte, b: nat)
    requires b < 4
    ensures Bit(value, b) <==> IsSet(value, b)
  {
    match b
    case 0 =>
    case 1 =>
    case 2 =>
    case _ =>
  }

  lemma HighIsShifted(value: Byte, b: nat)
    requires 4 <= b < 8
    ensures Bit(value, b) <==> IsSet(value, b)
  {
    match b
    case 4 =>
    case 5 =>
    case 6 =>
    case _ =>
  }

  /** Bit b of a byte at a place, both counted from 0, is set and stands for bit p of the ring of 160. */
  ghost predicate Turns(value: Byte, place: nat, p: nat, b: nat) {
    b < 8 && (place + b) % 160 == p && IsSet(value, b)
  }

  lemma PlacedAt(register: Register, offset: nat, value: Byte, p: nat)
    requires offset < 160 && p < 160
    ensures Placed(register, offset, value)[p] == (register[p] != exists b: nat :: Turns(value, offset, p, b))
  {
    forall b: nat
      ensures Turns(value, offset, p, b) <==> b < 8 && Behind(p, offset) == b && Bit(value, b)
    {
      if b < 8 {
        BitIsShifted(value, b);
      }
    }
    hide Bit, Turns, IsSet;
  }

  /** Without content no bit is set. With one byte more, the k-th counted from 0, the bits are turned over that its set bits stand for from bit 11k modulo 160 on. */
  lemma OneByteMore(content: seq<Byte>, value: Byte, p: nat)
    requires p < 160
    ensures !ContentPlaced([])[p]
    ensures ContentPlaced(content + [value])[p] == (ContentPlaced(content)[p] != exists b: nat :: Turns(value, (11 * |content|) % 160, p, b))
  {
    hide Placed, Turns;
    assert (content + [value])[..|content|] == content && (content + [value])[|content|] == value;
    PlacedAt(ContentPlaced(content), (11 * |content|) % 160, value, p);
  }

  /** The bytes of a length are its digits to the base 256, the lowest first. */
  lemma LengthBytesAre(length: nat, i: nat)
    ensures LengthByte(length, 0) == (length % 256) as Byte
    ensures LengthByte(length, i + 1) == LengthByte(length / 256, i)
  {
    DigitsAre(length, i);
  }

  lemma DigitsAre(length: nat, i: nat)
    ensures length / Pow256(0) == length
    ensures length / Pow256(i + 1) == (length / 256) / Pow256(i)
  {
    var p := Pow256(i);
    var q, r := (length / 256) / p, (length / 256) % p;
    assert length == 256 * (q * p + r) + length % 256;
    assert 256 * (q * p + r) == q * (256 * p) + 256 * r;
    QuotientIs(length, 256 * p, q, 256 * r + length % 256);
  }

  lemma QuotientIs(n: nat, d: nat, q: nat, r: nat)
    requires n == q * d + r && r < d
    ensures n / d == q
  {
    var k, m := n / d, n % d;
    assert n == k * d + m;
    if k > q {
      MoreTimes(k, q, d);
    } else if k < q {
      MoreTimes(q, k, d);
    }
  }

  lemma MoreTimes(k: int, q: int, d: nat)
    requires k > q
    ensures k * d >= q * d + d
  {
    assert k * d == q * d + (k - q) * d;
    assert (k - q) * d == (k - q - 1) * d + d;
    assert (k - q - 1) * d >= 0;
  }

  /** Byte i of the length, the lowest first, turns bits 96 + 8i to 103 + 8i over, and no others are. */
  lemma {:induction false} LengthIsLast(register: Register, length: nat, n: nat, p: nat)
    requires n <= 8 && p < 160
    ensures LengthPlaced(register, length, n)[p] ==
            (register[p] != (96 <= p < 96 + 8 * n && IsSet(LengthByte(length, (p - 96) / 8), p % 8)))
  {
    hide LengthByte, Placed, IsSet, Turns;
    if n > 0 {
      LengthIsLast(register, length, n - 1, p);
      var value := LengthByte(length, n - 1);
      var place := 96 + 8 * (n - 1);
      PlacedAt(LengthPlaced(register, length, n - 1), place, value, p);
      LastTurns(value, place, p);
      if place <= p < place + 8 {
        assert (p - 96) / 8 == n - 1;
      }
    }
  }

  lemma LastTurns(value: Byte, place: nat, p: nat)
    requires place % 8 == 0 && place <= 152 && p < 160
    ensures (exists b: nat :: Turns(value, place, p, b)) <==> place <= p < place + 8 && IsSet(value, p % 8)
  {
    hide IsSet;
    if b: nat :| Turns(value, place, p, b) {
      assert (place + b) % 160 == place + b && p % 8 == b;
    }
    if place <= p < place + 8 && IsSet(value, p % 8) {
      assert p % 8 == p - place;
      assert Turns(value, place, p, p % 8);
    }
  }

  // ---------------------------------------------------------------- XOR is linear

  lemma PlacedCommute(register: Register, o: nat, v: Byte, p: nat, w: Byte)
    requires o < WIDTH_BITS && p < WIDTH_BITS
    ensures Placed(Placed(register, o, v), p, w) == Placed(Placed(register, p, w), o, v)
  {
  }

  lemma PlacedXor(register: Register, o: nat, v: Byte, w: Byte)
    requires o < WIDTH_BITS
    ensures Placed(register, o, v ^ w) == Placed(Placed(register, o, v), o, w)
  {
    forall p | 0 <= p < WIDTH_BITS
      ensures Placed(register, o, v ^ w)[p] == Placed(Placed(register, o, v), o, w)[p]
    {
      if Behind(p, o) < 8 {
        BitOfXor(v, w, Behind(p, o));
      }
    }
  }

  lemma PlacedNothing(register: Register, o: nat)
    requires o < WIDTH_BITS
    ensures Placed(register, o, 0) == register
  {
    forall p | 0 <= p < WIDTH_BITS
      ensures Placed(register, o, 0)[p] == register[p]
    {
      if Behind(p, o) < 8 {
        NoBitOfZero(Behind(p, o));
      }
    }
  }

  lemma NoBitOfZero(bit: nat)
    requires bit < 8
    ensures !Bit(0, bit)
  {
  }

  // ---------------------------------------------------------------- the register in bytes

  type Bytes = b: seq<Byte> | |b| == LEN witness seq(LEN, _ => 0)

  function Bits(bytes: Bytes): Register {
    seq(WIDTH_BITS, p requires 0 <= p < WIDTH_BITS => Bit(bytes[p / 8], p % 8))
  }

  /** The bits say all: two hashes of the same bits are the same bytes. */
  lemma SameBitsSameBytes(a: Bytes, b: Bytes)
    requires Bits(a) == Bits(b)
    ensures a == b
  {
    forall i: nat | i < LEN
      ensures a[i] == b[i]
    {
      forall bit: nat | bit < 8
        ensures Bit(a[i], bit) == Bit(b[i], bit)
      {
        assert (8 * i + bit) / 8 == i && (8 * i + bit) % 8 == bit;
        assert Bits(a)[8 * i + bit] == Bits(b)[8 * i + bit];
      }
      SameBitsSameByte(a[i], b[i]);
    }
  }

  /** The register with one bit turned over. */
  function Flipped(register: Register, position: nat): Register
    requires position < WIDTH_BITS
  {
    register[position := !register[position]]
  }

  /** A bit XORed into its byte is that bit of the register turned over. */
  lemma BitFlips(bytes: Bytes, position: nat)
    requires position < WIDTH_BITS
    ensures Bits(bytes[position / 8 := bytes[position / 8] ^ Mask(position % 8)]) == Flipped(Bits(bytes), position)
  {
    hide Bit, Mask, Bits;
    forall p: nat | p < WIDTH_BITS
      ensures Bits(bytes[position / 8 := bytes[position / 8] ^ Mask(position % 8)])[p] == Flipped(Bits(bytes), position)[p]
    {
      BitFlipsAt(bytes, position, p);
    }
  }

  lemma BitFlipsAt(bytes: Bytes, position: nat, p: nat)
    requires position < WIDTH_BITS && p < WIDTH_BITS
    ensures Bits(bytes[position / 8 := bytes[position / 8] ^ Mask(position % 8)])[p] == (if p == position then !Bits(bytes)[p] else Bits(bytes)[p])
  {
    hide Bit, Mask, Bits;
    BitOfByteXored(bytes, position / 8, Mask(position % 8), p);
    BitOfMask(position % 8, p % 8);
    SamePlace(p, position);
  }

  lemma SamePlace(p: nat, position: nat)
    ensures p / 8 == position / 8 && p % 8 == position % 8 <==> p == position
  {
  }

  lemma BitOfByteXored(bytes: Bytes, i: nat, value: Byte, p: nat)
    requires i < LEN && p < WIDTH_BITS
    ensures Bits(bytes[i := bytes[i] ^ value])[p] == (Bits(bytes)[p] != (p / 8 == i && Bit(value, p % 8)))
  {
    hide Bit;
    if p / 8 == i {
      BitOfXor(bytes[i], value, p % 8);
    }
  }

  /** One more bit of a byte placed is one bit of the register turned over, when it is set. */
  lemma OneMoreBit(register: Register, offset: nat, value: Byte, bit: nat)
    requires offset < WIDTH_BITS && bit < 8
    ensures var position := (offset + bit) % WIDTH_BITS;
            PlacedBits(register, offset, value, bit + 1) ==
            if Bit(value, bit) then Flipped(PlacedBits(register, offset, value, bit), position) else PlacedBits(register, offset, value, bit)
  {
    var position := (offset + bit) % WIDTH_BITS;
    forall p: nat | p < WIDTH_BITS
      ensures Behind(p, offset) == bit <==> p == position
    {
    }
  }

  /** The bits of a byte of the register are the eight behind its first. */
  lemma BehindFirst(p: nat, i: nat)
    requires i < LEN && p < WIDTH_BITS
    ensures if p / 8 == i then Behind(p, 8 * i) == p % 8 else Behind(p, 8 * i) >= 8
  {
  }

  /** A byte of the register XORed with another is that other placed at its first bit. */
  lemma ByteXored(bytes: Bytes, i: nat, value: Byte)
    requires i < LEN
    ensures Bits(bytes[i := bytes[i] ^ value]) == Placed(Bits(bytes), 8 * i, value)
  {
    forall p: nat | p < WIDTH_BITS
      ensures Bits(bytes[i := bytes[i] ^ value])[p] == Placed(Bits(bytes), 8 * i, value)[p]
    {
      BitOfByteXored(bytes, i, value, p);
      BehindFirst(p, i);
      hide Bit, Behind, Bits;
    }
  }
}
