/** The bytes of a stored stream: which bit of which byte each bit of the code is. */
module StoredBytes {
  import opened Bits
  import opened ChunkedEncoder
  import opened HuffmanTable
  import opened HuffmanTree
  import opened OutputRoom

  /** Bit `8 * i + p` of the code is under mask `p` of byte `i`, and what the last byte has left over is zero. */
  lemma StoredByte(encoded: seq<bv8>, code: seq<bool>, i: nat, p: nat)
    requires Stored(encoded, code) && i < Bytes(|code|) && p < 8
    ensures encoded[i] & MASKS[p] != 0 <==> 8 * i + p < |code| && code[8 * i + p]
  {
    var q := 8 * i + p;
    assert q / 8 == i && q % 8 == p;
    BitsInOrder(encoded, q);
    assert BitsOf(encoded)[q] == Pad(code, q);
  }

  lemma StoredBit(encoded: seq<bv8>, code: seq<bool>, i: nat, p: nat)
    requires Stored(encoded, code) && i < Bytes(|code|) && p < 8 && 8 * i + p < |code|
    ensures BitsOf([encoded[i]])[p] == code[8 * i + p]
  {
    StoredByte(encoded, code, i, p);
    BitsInOrder([encoded[i]], p);
  }

  /** So a full byte is the number that its eight bits of the code stand for. */
  lemma StoredValue(encoded: seq<bv8>, code: seq<bool>, i: nat)
    requires Stored(encoded, code) && 8 * i + 8 <= |code|
    ensures i < Bytes(|code|) && encoded[i] as int == Value(code[8 * i..8 * i + 8])
  {
    var b, part := encoded[i], code[8 * i..8 * i + 8];
    forall p | 0 <= p < 8 ensures BitsOf([b])[p] == part[p] {
      StoredBit(encoded, code, i, p);
    }
    SameBits(b, part);
  }

  lemma SameBits(b: bv8, bits: seq<bool>)
    requires |bits| == 8 && forall p :: 0 <= p < 8 ==> BitsOf([b])[p] == bits[p]
    ensures b as int == Value(bits)
  {
    assert BitsOf([b]) == bits;
    ByteValue(b);
  }

  // ---------------------------------------------------------------- a known answer

  lemma FourSymbols(table: Table, a: int, b: int, c: int, d: int)
    requires HasEscape(table) && Int16(a) && Int16(b) && Int16(c) && Int16(d)
    ensures AllInt16([a, b, c, d])
    ensures EncodeBits(table, [a, b, c, d]) ==
      SymbolBits(table, a) + SymbolBits(table, b) + SymbolBits(table, c) + SymbolBits(table, d)
  {
    EncodeBitsSingle(table, a);
    EncodeBitsSingle(table, b);
    EncodeBitsSingle(table, c);
    EncodeBitsSingle(table, d);
    EncodeBitsConcat(table, [a], [b]);
    EncodeBitsConcat(table, [a, b], [c]);
    EncodeBitsConcat(table, [a, b, c], [d]);
    assert [a] + [b] == [a, b] && [a, b] + [c] == [a, b, c] && [a, b, c] + [d] == [a, b, c, d];
  }

  lemma RawBits(v: nat, len: nat, b: bool, bits: seq<bool>)
    requires CodeBits(v, len) == bits
    ensures CodeBits(2 * v + (if b then 1 else 0), len + 1) == bits + [b]
  {
  }

  lemma KnownRaw(v: nat)
    requires v == 65496
    ensures CodeBits(v, 16) == Ones(8) + [true, true, false, true, true, false, false, false]
  {
    OnesBits(8);
    var ones := Ones(8);
    RawBits(255, 8, true, ones);
    RawBits(511, 9, true, ones + [true]);
    RawBits(1023, 10, false, ones + [true] + [true]);
    RawBits(2046, 11, true, ones + [true] + [true] + [false]);
    RawBits(4093, 12, true, ones + [true] + [true] + [false] + [true]);
    RawBits(8187, 13, false, ones + [true] + [true] + [false] + [true] + [true]);
    RawBits(16374, 14, false, ones + [true] + [true] + [false] + [true] + [true] + [false]);
    RawBits(32748, 15, false, ones + [true] + [true] + [false] + [true] + [true] + [false] + [false]);
    Flat(ones);
  }

  lemma KnownCast(x: int)
    requires x == -40
    ensures x % 65536 == 65496
  {
  }

  lemma Flat(s: seq<bool>)
    ensures s + [true] + [true] + [false] + [true] + [true] + [false] + [false] + [false] ==
      s + [true, true, false, true, true, false, false, false]
  {
  }

  /** The codes of four symbols, the last of them raw, as they follow each other in the stream. */
  lemma KnownCode(table: Table, a: int, b: int, c: int, d: int)
    requires table == PDM_STATIC_TABLE && a == 5 && b == 0 && c == -7 && d == -40
    ensures HasEscape(table) && AllInt16([a, b, c, d])
    ensures EncodeBits(table, [a, b, c, d]) ==
      Ones(1) + [false, false] + [false] + (Ones(3) + [false, true])
      + (Ones(7) + (Ones(8) + [true, true, false, true, true, false, false, false]))
  {
    SymbolCode(table, a);
    SymbolCode(table, b);
    SymbolCode(table, c);
    SymbolCode(table, d);
    KnownCast(d);
    KnownRaw(d % 65536);
    FourSymbols(table, a, b, c, d);
  }

  lemma FourBytes(encoded: seq<bv8>, code: seq<bool>)
    requires Stored(encoded, code)
    requires code == Ones(1) + [false, false] + [false] + (Ones(3) + [false, true])
      + (Ones(7) + (Ones(8) + [true, true, false, true, true, false, false, false]))
    ensures |encoded| >= 4 && encoded[..4] == [0x8E, 0xFF, 0xFF, 0xD8]
  {
    ValueOfEight(code[0..8]);
    ValueOfEight(code[8..16]);
    ValueOfEight(code[16..24]);
    ValueOfEight(code[24..32]);
    StoredValue(encoded, code, 0);
    StoredValue(encoded, code, 1);
    StoredValue(encoded, code, 2);
    StoredValue(encoded, code, 3);
  }

  /** Those symbols are stored as the bytes 8E FF FF D8: the first code from the top of the first byte on, the high byte
      of the raw value first. */
  lemma KnownBytes(encoded: seq<bv8>, symbols: seq<int>)
    requires symbols == [5, 0, -7, -40] && AllInt16(symbols) && Stored(encoded, StaticBits(symbols))
    ensures |encoded| >= 4 && encoded[..4] == [0x8E, 0xFF, 0xFF, 0xD8]
  {
    KnownCode(PDM_STATIC_TABLE, 5, 0, -7, -40);
    FourBytes(encoded, StaticBits(symbols));
  }
}
