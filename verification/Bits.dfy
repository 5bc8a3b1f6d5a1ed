/** Bits of bytes and of code values, most significant first. */
module Bits {
  import opened Haar
  import opened Sequences

  // ---------------------------------------------------------------- bytes

  predicate Bit(b: bv8, i: nat)
    requires i < 8
  {
    (b >> (7 - i)) & 1 == 1
  }

  function SetBit(b: bv8, i: nat): bv8
    requires i < 8
  {
    b | (1 << (7 - i))
  }

  /** The first bit of a byte in the stream is its most significant one. */
  const MASKS: seq<bv8> := [0x80, 0x40, 0x20, 0x10, 0x08, 0x04, 0x02, 0x01]

  lemma BitMask(b: bv8, i: nat)
    requires i < 8
    ensures Bit(b, i) <==> b & MASKS[i] != 0
    ensures SetBit(b, i) == b | MASKS[i]
  {
    if i == 0 || i == 1 || i == 2 || i == 3 {
      HighMask(b, i);
    } else {
      LowMask(b, i);
    }
  }

  lemma HighMask(b: bv8, i: nat)
    requires i < 4
    ensures Bit(b, i) <==> b & MASKS[i] != 0
    ensures SetBit(b, i) == b | MASKS[i]
  {
  }

  lemma LowMask(b: bv8, i: nat)
    requires 4 <= i < 8
    ensures Bit(b, i) <==> b & MASKS[i] != 0
    ensures SetBit(b, i) == b | MASKS[i]
  {
  }

  lemma SetBitOnly(b: bv8, i: nat, j: nat)
    requires i < 8 && j < 8
    ensures Bit(SetBit(b, i), j) <==> Bit(b, j) || i == j
  {
    var m: bv8 := 1 << (7 - i);
    assert m == 128 || m == 64 || m == 32 || m == 16 || m == 8 || m == 4 || m == 2 || m == 1;
  }

  /** A byte is its eight bits. */
  lemma SameByte(b: bv8, c: bv8)
    requires forall j :: 0 <= j < 8 ==> Bit(b, j) == Bit(c, j)
    ensures b == c
  {
    assert Bit(b, 0) == Bit(c, 0) && Bit(b, 1) == Bit(c, 1) && Bit(b, 2) == Bit(c, 2) && Bit(b, 3) == Bit(c, 3);
    assert Bit(b, 4) == Bit(c, 4) && Bit(b, 5) == Bit(c, 5) && Bit(b, 6) == Bit(c, 6) && Bit(b, 7) == Bit(c, 7);
  }

  // ---------------------------------------------------------------- buffers

  /** The bits of a buffer in stream order. */
  function BitsOf(buf: seq<bv8>): (r: seq<bool>)
    ensures |r| == 8 * |buf|
  {
    Tabulate(8 * |buf|, (p: nat) requires p < 8 * |buf| => Bit(buf[p / 8], p % 8))
  }

  lemma BitsOfEntries(buf: seq<bv8>)
    ensures forall p :: 0 <= p < 8 * |buf| ==> BitsOf(buf)[p] == Bit(buf[p / 8], p % 8)
  {
    TabulateEntries(8 * |buf|, (p: nat) requires p < 8 * |buf| => Bit(buf[p / 8], p % 8));
  }

  /** Bit `p` of a buffer is under the mask of its place in byte `p / 8`. */
  lemma BitsInOrder(buf: seq<bv8>, p: nat)
    requires p < 8 * |buf|
    ensures BitsOf(buf)[p] <==> buf[p / 8] & MASKS[p % 8] != 0
  {
    BitsOfEntries(buf);
    BitMask(buf[p / 8], p % 8);
  }

  predicate OredAt(bits: seq<bool>, at: nat, code: seq<bool>, p: nat)
    requires p < |bits|
  {
    bits[p] || (at <= p < at + |code| && code[p - at])
  }

  /** `bits` with `code` OR-ed in from position `at` on. */
  function OrInto(bits: seq<bool>, at: nat, code: seq<bool>): (r: seq<bool>)
    requires at + |code| <= |bits|
    ensures |r| == |bits|
  {
    Tabulate(|bits|, (p: nat) requires p < |bits| => OredAt(bits, at, code, p))
  }

  lemma OrIntoEntries(bits: seq<bool>, at: nat, code: seq<bool>)
    requires at + |code| <= |bits|
    ensures forall p :: 0 <= p < |bits| ==> OrInto(bits, at, code)[p] == OredAt(bits, at, code, p)
  {
    TabulateEntries(|bits|, (p: nat) requires p < |bits| => OredAt(bits, at, code, p));
  }

  lemma OrIntoNothing(bits: seq<bool>, at: nat)
    requires at <= |bits|
    ensures OrInto(bits, at, []) == bits
  {
    OrIntoEntries(bits, at, []);
  }

  lemma OrIntoNext(bits: seq<bool>, at: nat, x: seq<bool>, y: seq<bool>)
    requires at + |x| + |y| <= |bits|
    ensures OrInto(OrInto(bits, at, x), at + |x|, y) == OrInto(bits, at, x + y)
  {
    OrIntoEntries(bits, at, x);
    OrIntoEntries(OrInto(bits, at, x), at + |x|, y);
    OrIntoEntries(bits, at, x + y);
  }

  /** Behind `prefix` as much of `next` as fits. */
  lemma OrIntoAppend(bits: seq<bool>, at: nat, prefix: seq<bool>, next: seq<bool>, fits: nat,
                     before: seq<bool>, after: seq<bool>)
    requires fits <= |next| && at + |prefix| + fits <= |bits|
    requires before == OrInto(bits, at, prefix)
    requires after == OrInto(before, at + |prefix|, next[..fits])
    ensures after == OrInto(bits, at, (prefix + next)[..|prefix| + fits])
    ensures fits == |next| ==> after == OrInto(bits, at, prefix + next)
  {
    OrIntoNext(bits, at, prefix, next[..fits]);
    assert (prefix + next)[..|prefix| + fits] == prefix + next[..fits];
    if fits == |next| {
      assert next[..fits] == next;
    }
  }

  predicate ZeroFrom(bits: seq<bool>, at: nat) {
    forall p :: at <= p < |bits| ==> !bits[p]
  }

  /** On a clear stretch OR-ing in is writing. */
  lemma OrIntoClear(bits: seq<bool>, at: nat, code: seq<bool>)
    requires at + |code| <= |bits| && ZeroFrom(bits, at)
    ensures OrInto(bits, at, code) == bits[..at] + code + bits[at + |code|..]
    ensures ZeroFrom(OrInto(bits, at, code), at + |code|)
  {
    OrIntoEntries(bits, at, code);
  }

  /** Setting one bit of one byte changes that bit of the stream. */
  lemma SetBitInBuffer(before: seq<bv8>, after: seq<bv8>, p: nat, bit: bool)
    requires |before| == |after| && p < 8 * |before|
    requires after == if bit then before[p / 8 := SetBit(before[p / 8], p % 8)] else before
    ensures BitsOf(after) == OrInto(BitsOf(before), p, [bit])
  {
    BitsOfEntries(before);
    BitsOfEntries(after);
    OrIntoEntries(BitsOf(before), p, [bit]);
    if bit {
      forall q | 0 <= q < 8 * |before|
        ensures Bit(after[q / 8], q % 8) <==> Bit(before[q / 8], q % 8) || q == p
      {
        if q / 8 == p / 8 {
          SetBitOnly(before[p / 8], p % 8, q % 8);
        }
      }
    }
  }

  // ---------------------------------------------------------------- code values

  /** The `len` low bits of `v`. */
  function CodeBits(v: nat, len: nat): (r: seq<bool>)
    ensures |r| == len
  {
    if len == 0 then [] else CodeBits(v / 2, len - 1) + [v % 2 == 1]
  }

  function Value(bits: seq<bool>): nat {
    if bits == [] then 0 else 2 * Value(bits[..|bits| - 1]) + (if bits[|bits| - 1] then 1 else 0)
  }

  lemma {:induction false} ValueOfCodeBits(v: nat, len: nat)
    requires v < Pow2(len)
    ensures Value(CodeBits(v, len)) == v
  {
    if len > 0 {
      ValueOfCodeBits(v / 2, len - 1);
      assert CodeBits(v, len)[..len - 1] == CodeBits(v / 2, len - 1);
    }
  }

  lemma ValueNext(bits: seq<bool>, i: nat)
    requires i < |bits|
    ensures Value(bits[..i + 1]) == 2 * Value(bits[..i]) + (if bits[i] then 1 else 0)
  {
    assert bits[..i + 1][..i] == bits[..i];
  }

  /** A byte is the number its eight bits in the stream stand for, the first of them for 128. */
  lemma ByteValue(b: bv8)
    ensures Value(BitsOf([b])) == b as int
  {
    var bits := BitsOf([b]);
    forall p | 0 <= p < 8 ensures bits[p] <==> b & MASKS[p] != 0 {
      BitsInOrder([b], p);
    }
    ValueOfEight(bits);
    SumOfMasks(b);
  }

  lemma ValueOfEight(bits: seq<bool>)
    requires |bits| == 8
    ensures Value(bits) ==
      (if bits[0] then 128 else 0) + (if bits[1] then 64 else 0) + (if bits[2] then 32 else 0) + (if bits[3] then 16 else 0)
      + (if bits[4] then 8 else 0) + (if bits[5] then 4 else 0) + (if bits[6] then 2 else 0) + (if bits[7] then 1 else 0)
  {
    forall i | 0 <= i < 8 ensures Value(bits[..i + 1]) == 2 * Value(bits[..i]) + (if bits[i] then 1 else 0) {
      ValueNext(bits, i);
    }
    assert bits[..0] == [] && bits[..8] == bits;
    assert Value(bits[..4]) == 2 * Value(bits[..3]) + (if bits[3] then 1 else 0);
  }

  lemma SumOfMasks(b: bv8)
    ensures b as int ==
      (if b & 0x80 != 0 then 128 else 0) + (if b & 0x40 != 0 then 64 else 0) + (if b & 0x20 != 0 then 32 else 0)
      + (if b & 0x10 != 0 then 16 else 0) + (if b & 0x08 != 0 then 8 else 0) + (if b & 0x04 != 0 then 4 else 0)
      + (if b & 0x02 != 0 then 2 else 0) + (if b & 0x01 != 0 then 1 else 0)
  {
  }

  /** `(v >> (len - 1 - i)) & 1`. */
  function ShiftOut(v: nat, len: nat, i: nat): (bit: nat)
    requires i < len
    ensures bit < 2
  {
    (v / Pow2(len - 1 - i)) % 2
  }

  /** The bits of a code value in the stream, most significant first. */
  lemma CodeBitAt(v: nat, len: nat, i: nat)
    requires i < len
    ensures CodeBits(v, len)[i] <==> (v / Pow2(len - 1 - i)) % 2 == 1
  {
    ShiftedOut(v, len, i);
  }

  lemma {:induction false} ShiftedOut(v: nat, len: nat, i: nat)
    requires i < len
    ensures CodeBits(v, len)[i] <==> ShiftOut(v, len, i) == 1
  {
    if i < len - 1 {
      ShiftedOut(v / 2, len - 1, i);
      DivDouble(v, Pow2(len - 2 - i));
    }
  }

  // ---------------------------------------------------------------- 16-bit symbols

  predicate Int16(x: int) {
    -32768 <= x <= 32767
  }

  /** `(uint16_t)x`. */
  function ToUint16(x: int): (u: nat)
    requires Int16(x)
    ensures u < 65536
  {
    if x < 0 then x + 65536 else x
  }

  /** The int16_t with the bit pattern `u`. */
  function FromUint16(u: nat): (x: int)
    requires u < 65536
    ensures Int16(x) && ToUint16(x) == u
  {
    if u >= 32768 then u - 65536 else u
  }

  /** The cast keeps the value modulo 2^16, and so does the cast back. */
  lemma CastsAreModulo(x: int, u: nat)
    requires Int16(x) && u < 65536
    ensures ToUint16(x) == x % 65536 && FromUint16(u) % 65536 == u
  {
  }

  lemma {:induction false} ValueBound(bits: seq<bool>)
    ensures Value(bits) < Pow2(|bits|)
  {
    if bits != [] {
      ValueBound(bits[..|bits| - 1]);
    }
  }

  lemma Pow16()
    ensures Pow2(16) == 65536
  {
    assert Pow2(8) == 256;
  }
}
