/** The bit cursor both Huffman directions share. */
module BitStream {
  import opened Bits
  import opened Haar

  function Min(x: nat, y: nat): nat {
    if x < y then x else y
  }

  class Bitstream {
    const buffer: array<bv8>
    var byteIndex: nat
    var bitOffset: nat

    ghost predicate Valid()
      reads this
    {
      && bitOffset < 8
      && byteIndex <= buffer.Length
      && (byteIndex == buffer.Length ==> bitOffset == 0)
    }

    ghost function Cursor(): nat
      reads this
    {
      8 * byteIndex + bitOffset
    }

    ghost function Capacity(): nat {
      8 * buffer.Length
    }

    ghost function Content(): (r: seq<bool>)
      reads buffer
      ensures |r| == Capacity()
    {
      BitsOf(buffer[..])
    }

    constructor (buffer: array<bv8>, byteIndex: nat, bitOffset: nat)
      requires bitOffset < 8 && byteIndex <= buffer.Length
      requires byteIndex == buffer.Length ==> bitOffset == 0
      ensures Valid()
      ensures this.buffer == buffer && this.byteIndex == byteIndex && this.bitOffset == bitOffset
    {
      this.buffer := buffer;
      this.byteIndex := byteIndex;
      this.bitOffset := bitOffset;
    }

    method Advance()
      requires Valid() && byteIndex < buffer.Length
      modifies this
      ensures Valid() && Cursor() == old(Cursor()) + 1
    {
      bitOffset := bitOffset + 1;
      if bitOffset == 8 {
        bitOffset := 0;
        byteIndex := byteIndex + 1;
      }
    }

    /** ORs one bit in at the cursor and moves on. */
    method WriteBit(bit: nat)
      requires Valid() && byteIndex < buffer.Length && bit < 2
      modifies this, buffer
      ensures Valid() && Cursor() == old(Cursor()) + 1
      ensures Content() == OrInto(old(Content()), old(Cursor()), [bit == 1])
      ensures buffer[old(byteIndex)] ==
        if bit == 1 then old(buffer[byteIndex]) | MASKS[old(bitOffset)] else old(buffer[byteIndex])
    {
      ghost var before := buffer[..];
      ghost var p := Cursor();
      assert p / 8 == byteIndex && p % 8 == bitOffset;
      if bit == 1 {
        buffer[byteIndex] := SetBit(buffer[byteIndex], bitOffset);
      }
      BitMask(before[byteIndex], bitOffset);
      SetBitInBuffer(before, buffer[..], p, bit == 1);
      Advance();
    }

    /** Writes the `len` low bits of `codeVal`, as many as there is room for; -1 when some did not fit. */
    method WriteCodeValue(codeVal: nat, len: nat) returns (ret: int, ghost written: nat)
      requires Valid()
      modifies this, buffer
      ensures Valid()
      ensures
        && written == Min(len, old(Capacity() - Cursor()))
        && Cursor() == old(Cursor()) + written
        && Content() == OrInto(old(Content()), old(Cursor()), CodeBits(codeVal, len)[..written])
      ensures ret == if written == len then 0 else -1
    {
      ghost var before, start, code := Content(), Cursor(), CodeBits(codeVal, len);
      var i := 0;
      OrIntoNothing(before, start);
      assert code[..0] == [];
      while i < len
        invariant 0 <= i <= len
        invariant Valid() && Cursor() == start + i <= |before|
        invariant Content() == OrInto(before, start, code[..i])
      {
        if byteIndex >= buffer.Length {
          return -1, i;
        }
        ShiftedOut(codeVal, len, i);
        OrIntoPrefix(before, start, code, i);
        WriteBit(ShiftOut(codeVal, len, i));
        i := i + 1;
      }
      return 0, i;
    }

    /** The bit under the cursor, or -1 at the end of the buffer. */
    method ReadBit() returns (bit: int)
      requires Valid()
      modifies this
      ensures Valid()
      ensures bit == -1 || bit == 0 || bit == 1
      ensures bit == -1 <==> old(Cursor()) == Capacity()
      ensures if bit == -1 then Cursor() == old(Cursor())
        else Cursor() == old(Cursor()) + 1 && (bit == 1 <==> Content()[old(Cursor())])
      ensures bit != -1 ==> (bit == 1 <==> buffer[old(byteIndex)] & MASKS[old(bitOffset)] != 0)
    {
      if byteIndex >= buffer.Length {
        return -1;
      }
      BitsOfEntries(buffer[..]);
      ghost var p := Cursor();
      assert p / 8 == byteIndex && p % 8 == bitOffset && p < Capacity();
      BitMask(buffer[byteIndex], bitOffset);
      bit := if Bit(buffer[byteIndex], bitOffset) then 1 else 0;
      Advance();
    }

    /** Sixteen bits as an int16_t; -1 when the buffer ends first. */
    method ReadRawSymbol() returns (symbol: int, ret: int)
      requires Valid()
      modifies this
      ensures Valid()
      ensures Int16(symbol)
      ensures if old(Cursor()) + 16 <= Capacity() then
          && ret == 0 && Cursor() == old(Cursor()) + 16
          && ToUint16(symbol) == Value(Content()[old(Cursor())..old(Cursor()) + 16])
        else ret == -1 && Cursor() == Capacity()
    {
      var pattern := 0;
      ghost var start, bits := Cursor(), Content();
      var i := 0;
      NoValue(bits, start);
      while i < 16
        invariant 0 <= i <= 16
        invariant Valid() && Cursor() == start + i <= |bits|
        invariant pattern == Shifted(bits, start, i)
        invariant Content() == bits
      {
        var bit := ReadBit();
        if bit == -1 {
          return 0, -1;
        }
        NextValue(bits, start, i);
        if bit == 1 {
          pattern := pattern + Pow2(15 - i);  // |=, as this bit of the pattern is still clear
        }
        i := i + 1;
      }
      AllShifted(bits, start);
      return FromUint16(pattern), 0;
    }
  }

  /** The pattern after `i` bits have been read from `start` on. */
  ghost function Shifted(bits: seq<bool>, start: nat, i: nat): nat
    requires start + i <= |bits| && i <= 16
  {
    ShiftUp(Value(bits[start..start + i]), 16 - i)
  }

  lemma NoValue(bits: seq<bool>, start: nat)
    requires start <= |bits|
    ensures Shifted(bits, start, 0) == 0
  {
    assert bits[start..start] == [];
    ShiftUpOne(16);
  }

  lemma AllShifted(bits: seq<bool>, start: nat)
    requires start + 16 <= |bits|
    ensures Shifted(bits, start, 16) == Value(bits[start..start + 16]) < 65536
  {
    Pow16();
    ValueBound(bits[start..start + 16]);
  }

  lemma OrIntoPrefix(bits: seq<bool>, at: nat, code: seq<bool>, i: nat)
    requires i < |code| && at + i < |bits|
    ensures OrInto(OrInto(bits, at, code[..i]), at + i, [code[i]]) == OrInto(bits, at, code[..i + 1])
  {
    OrIntoNext(bits, at, code[..i], [code[i]]);
    assert code[..i] + [code[i]] == code[..i + 1];
  }

  /** `x << k`. */
  function ShiftUp(x: nat, k: nat): nat
    decreases k
  {
    if k == 0 then x else ShiftUp(2 * x, k - 1)
  }

  lemma {:induction false} ShiftUpSum(x: nat, y: nat, k: nat)
    ensures ShiftUp(x + y, k) == ShiftUp(x, k) + ShiftUp(y, k)
    decreases k
  {
    if k > 0 {
      ShiftUpSum(2 * x, 2 * y, k - 1);
    }
  }

  lemma {:induction false} ShiftUpOne(k: nat)
    ensures ShiftUp(1, k) == Pow2(k) && ShiftUp(0, k) == 0
  {
    if k > 0 {
      ShiftUpOne(k - 1);
      ShiftUpSum(1, 1, k - 1);
    }
  }

  lemma NextValue(bits: seq<bool>, start: nat, i: nat)
    requires start + i < |bits| && i < 16
    ensures Shifted(bits, start, i + 1) == Shifted(bits, start, i) + (if bits[start + i] then Pow2(15 - i) else 0)
  {
    var v := bits[start..start + i + 1];
    assert v[..|v| - 1] == bits[start..start + i];
    var x := Value(bits[start..start + i]);
    ShiftUpSum(2 * x, if bits[start + i] then 1 else 0, 15 - i);
    ShiftUpOne(15 - i);
  }
}
