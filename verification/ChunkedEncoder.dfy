/** Encoding a long sequence through a small buffer, a hundred symbols at a time, carrying the last partial byte
    from one chunk to the next. */
module ChunkedEncoder {
  import opened Bits
  import opened BitStream
  import opened HuffmanCodec
  import opened HuffmanTable
  import opened Memory
  import opened OutputRoom
  import opened Sequences

  /** Bit `p` of a stream followed by zeros. */
  predicate Pad(code: seq<bool>, p: nat) {
    p < |code| && code[p]
  }

  /** `bits` shows the stream `code` from position `base` on. */
  predicate Shows(bits: seq<bool>, base: nat, code: seq<bool>) {
    forall q :: 0 <= q < |bits| ==> bits[q] == Pad(code, base + q)
  }

  /** The first bytes of `encoded` are the stream `code`, padded with zeros to a whole byte. */
  predicate Stored(encoded: seq<bv8>, code: seq<bool>) {
    Bytes(|code|) <= |encoded| &&
    forall p :: 0 <= p < 8 * Bytes(|code|) ==> BitsOf(encoded)[p] == Pad(code, p)
  }

  // ---------------------------------------------------------------- one chunk

  lemma AfterEncode(before: seq<bool>, after: seq<bool>, base: nat, code: seq<bool>, chunk: seq<bool>)
    requires base <= |code| && |code| - base + |chunk| <= |before|
    requires Shows(before, base, code)
    requires after == OrInto(before, |code| - base, chunk)
    ensures Shows(after, base, code + chunk)
  {
    OrIntoEntries(before, |code| - base, chunk);
  }

  lemma AfterCopy(before: seq<bv8>, after: seq<bv8>, buffer: seq<bv8>, b: nat, count: nat, code: seq<bool>,
                  more: seq<bool>)
    requires |before| == |after| && b == |code| / 8 && b + count <= |after| && count <= |buffer|
    requires Stored(before, code) && code <= more && Shows(BitsOf(buffer), 8 * b, more)
    requires forall k :: 0 <= k < b ==> after[k] == before[k]
    requires forall k :: 0 <= k < count ==> after[b + k] == buffer[k]
    requires Bytes(|more|) <= b + count
    ensures Stored(after, more)
  {
    BitsOfEntries(before);
    BitsOfEntries(after);
    BitsOfEntries(buffer);
    forall p | 0 <= p < 8 * Bytes(|more|)
      ensures BitsOf(after)[p] == Pad(more, p)
    {
      if p < 8 * b {
        assert BitsOf(before)[p] == Pad(code, p);
      } else {
        var q := p - 8 * b;
        assert p / 8 == b + q / 8 && p % 8 == q % 8;
        assert after[b + q / 8] == buffer[q / 8];
        assert BitsOf(buffer)[q] == Pad(more, 8 * b + q);
      }
    }
  }

  lemma AfterShift(before: seq<bv8>, after: seq<bv8>, base: nat, k: nat, code: seq<bool>)
    requires |before| == |after| && k < |before| && base % 8 == 0
    requires Shows(BitsOf(before), base, code)
    requires after[0] == before[k] && forall j :: 1 <= j < |after| ==> after[j] == 0
    requires base + 8 * k <= |code| < base + 8 * k + 8
    ensures Shows(BitsOf(after), base + 8 * k, code)
  {
    BitsOfEntries(before);
    BitsOfEntries(after);
    forall q | 0 <= q < 8 * |after|
      ensures BitsOf(after)[q] == Pad(code, base + 8 * k + q)
    {
      if q < 8 {
        assert (8 * k + q) / 8 == k && (8 * k + q) % 8 == q;
        assert BitsOf(before)[8 * k + q] == Pad(code, base + (8 * k + q));
      } else {
        assert after[q / 8] == 0;
      }
    }
  }

  /** Copies out the bytes a chunk has changed, unless the copy would leave the output. */
  method CopyOut(encoded: array<bv8>, bs: Bitstream, totalBits: nat, bits: nat, ghost code: seq<bool>,
                 ghost more: seq<bool>)
    returns (fits: bool)
    requires encoded != bs.buffer && bs.buffer.Length == 1024
    requires totalBits == |code| && |more| == totalBits + bits && bits <= 2300 && code <= more
    requires Stored(encoded[..], code) && Shows(bs.Content(), 8 * (totalBits / 8), more)
    modifies encoded
    ensures fits <==> totalBits / 8 + CopyCount(totalBits, bits) <= encoded.Length
    ensures fits ==> Stored(encoded[..], more)
  {
    var start, count := totalBits / 8, bits / 8 + 1 + (if (totalBits % 8 + bits) % 8 != 0 then 1 else 0);
    CopyCovers(totalBits, bits);
    fits := start + count <= encoded.Length;
    if fits {
      CopyBytes(encoded, bs.buffer, start, count, code, more);
    }
  }

  method CopyBytes(encoded: array<bv8>, buffer: array<bv8>, start: nat, count: nat, ghost code: seq<bool>,
                   ghost more: seq<bool>)
    requires encoded != buffer && count <= buffer.Length && start + count <= encoded.Length
    requires start == |code| / 8 && code <= more && Bytes(|more|) <= start + count
    requires Stored(encoded[..], code) && Shows(BitsOf(buffer[..]), 8 * start, more)
    modifies encoded
    ensures Stored(encoded[..], more)
  {
    ghost var before := encoded[..];
    Memcpy(encoded, start, buffer, 0, count);
    AfterCopy(before, encoded[..], buffer[..], start, count, code, more);
  }

  method CarryOver(bs: Bitstream, ghost base: nat, ghost code: seq<bool>)
    requires bs.Valid() && bs.byteIndex < bs.buffer.Length
    requires base % 8 == 0 && |code| == base + bs.Cursor() && Shows(bs.Content(), base, code)
    modifies bs, bs.buffer
    ensures bs.Valid() && bs.byteIndex == 0 && bs.bitOffset == |code| % 8
    ensures Shows(bs.Content(), 8 * (|code| / 8), code)
  {
    ghost var before, k := bs.buffer[..], bs.byteIndex;
    KeepLastByte(bs.buffer, bs.byteIndex);
    bs.byteIndex := 0;
    AfterShift(before, bs.buffer[..], base, k, code);
    assert base == 8 * (base / 8);
  }

  /** Moves a byte to the front and clears the others. */
  method KeepLastByte(buffer: array<bv8>, k: nat)
    requires k < buffer.Length
    modifies buffer
    ensures buffer[..][0] == old(buffer[..])[k] && forall j :: 1 <= j < buffer.Length ==> buffer[..][j] == 0
  {
    buffer[0] := buffer[k];
    Memset(buffer, 1, 0, buffer.Length - 1);
  }

  // ---------------------------------------------------------------- all chunks

  /** A chunk always fits the buffer, in check mode and when written. */
  method CountChunk(table: Table, data: array<int>, i: nat, len: nat, bs: Bitstream) returns (bits: nat, ret: int)
    requires Narrow(table) && len <= CHUNK && i + len <= data.Length && AllInt16(data[i..i + len])
    requires bs.Valid() && bs.buffer.Length == 1024 && data as object != bs.buffer
    modifies bs, bs.buffer
    ensures bs.Valid()
    ensures ret == 0 && bits == |EncodeBits(table, old(data[i..i + len]))|
  {
    NarrowLength(table, data[i..i + len]);
    bits, ret := HuffmanEncodeStatic(table, data, i, len, bs, true);
  }

  method WriteChunk(table: Table, data: array<int>, i: nat, len: nat, bs: Bitstream) returns (bits: nat, ret: int)
    requires Narrow(table) && len <= CHUNK && i + len <= data.Length && AllInt16(data[i..i + len])
    requires bs.Valid() && bs.buffer.Length == 1024 && bs.byteIndex == 0 && data as object != bs.buffer
    modifies bs, bs.buffer
    ensures bs.Valid()
    ensures var chunk := EncodeBits(table, old(data[i..i + len]));
      && ret == 0 && bits == |chunk| <= 2300 && bs.Cursor() == old(bs.Cursor()) + bits
      && bs.Content() == OrInto(old(bs.Content()), old(bs.Cursor()), chunk)
  {
    NarrowLength(table, data[i..i + len]);
    ghost var chunk := EncodeBits(table, data[i..i + len]);
    assert chunk[..|chunk|] == chunk;
    bits, ret := HuffmanEncodeStatic(table, data, i, len, bs, false);
  }

  lemma Counting(counted: seq<nat>, bits: nat, left: seq<nat>, rest: seq<nat>) returns (more: seq<nat>)
    requires left == [bits] + rest
    ensures more == counted + [bits] && more + rest == counted + left
  {
    more := counted + [bits];
  }

  /** The code of the first `i` symbols is `code`, and the other chunks count `left`. */
  ghost predicate CodedTo(table: Table, s: seq<int>, i: nat, code: seq<bool>, left: seq<nat>)
    requires HasEscape(table) && AllInt16(s)
  {
    i <= |s| && AllInt16(s[..i]) && code == EncodeBits(table, s[..i]) && left == ChunkBits(table, s, i)
  }

  ghost predicate IsChunk(table: Table, s: seq<int>, i: nat, chunk: seq<bool>)
    requires HasEscape(table) && AllInt16(s) && i <= |s|
  {
    chunk == EncodeBits(table, s[i..i + ChunkLength(|s|, i)])
  }

  lemma CodedNext(table: Table, s: seq<int>, i: nat, code: seq<bool>, left: seq<nat>)
    returns (next: nat, chunk: seq<bool>, code': seq<bool>, left': seq<nat>)
    requires HasEscape(table) && AllInt16(s) && i < |s|
    requires CodedTo(table, s, i, code, left)
    ensures next == i + ChunkLength(|s|, i) && IsChunk(table, s, i, chunk)
    ensures code' == code + chunk && left == [|chunk|] + left'
    ensures CodedTo(table, s, next, code', left')
  {
    var len := ChunkLength(|s|, i);
    NextChunk(table, s, i, len);
    NextChunkBits(table, s, i, len);
    next, chunk, left' := i + len, EncodeBits(table, s[i..i + len]), ChunkBits(table, s, i + len);
    code' := code + chunk;
  }

  lemma CodedNothing(table: Table, s: seq<int>)
    requires HasEscape(table) && AllInt16(s)
    ensures CodedTo(table, s, 0, [], ChunkBits(table, s, 0))
  {
    assert s[..0] == [] && EncodeBits(table, []) == [];
  }

  lemma CodedAll(table: Table, s: seq<int>, i: nat, code: seq<bool>, left: seq<nat>)
    requires HasEscape(table) && AllInt16(s) && i >= |s| && CodedTo(table, s, i, code, left)
    ensures code == EncodeBits(table, s) && left == []
  {
    assert s[..i] == s;
  }

  /** The first pass: counts the bits of every chunk without writing. */
  method CheckChunks(table: Table, data: array<int>, n: nat, bs: Bitstream)
    returns (totalBits: nat, ret: int, ghost counted: seq<nat>)
    requires Narrow(table) && n <= data.Length && AllInt16(data[..n])
    requires bs.Valid() && bs.buffer.Length == 1024 && data as object != bs.buffer
    modifies bs, bs.buffer
    ensures bs.Valid()
    ensures ret == 0 && totalBits == |EncodeBits(table, old(data[..n]))|
    ensures counted == ChunkBits(table, old(data[..n]), 0) && Sum(counted) == totalBits
  {
    ghost var s, code := data[..n], [];
    ghost var left := ChunkBits(table, s, 0);
    totalBits, ret, counted := 0, 0, [];
    ghost var all := left;
    CodedNothing(table, s);
    ChunksAddUp(table, s, 0);
    var i := 0;
    while i < n
      invariant ret == 0 && bs.Valid() && data[..n] == s
      invariant CodedTo(table, s, i, code, left) && totalBits == |code|
      invariant counted + left == all
    {
      ghost var counting := left;
      ghost var next, chunk;
      next, chunk, code, left := CodedNext(table, s, i, code, left);
      var bits;
      i, bits, ret := CountTurn(table, data, n, i, bs, chunk, s, next);
      if ret != 0 {
        return;
      }
      totalBits := totalBits + bits;
      counted := Counting(counted, bits, counting, left);
    }
    CodedAll(table, s, i, code, left);
  }

  /** One turn of the loop. */
  method CountTurn(table: Table, data: array<int>, n: nat, i: nat, bs: Bitstream, ghost chunk: seq<bool>,
                   ghost s: seq<int>, ghost next: nat)
    returns (i': nat, bits: nat, ret: int)
    requires Narrow(table) && n <= data.Length && AllInt16(s) && data[..n] == s && i < n
    requires next == i + ChunkLength(n, i) && IsChunk(table, s, i, chunk)
    requires bs.Valid() && bs.buffer.Length == 1024 && data as object != bs.buffer
    modifies bs, bs.buffer
    ensures ret == 0 && bs.Valid() && i < i' == next <= n && data[..n] == s && bits == |chunk|
  {
    var len := ChunkLength(n, i);
    SamePart(data, s, i, len);
    bits, ret := CountChunk(table, data, i, len, bs);
    i' := i + len;
  }

  lemma SamePart(data: array<int>, s: seq<int>, i: nat, len: nat)
    requires |s| <= data.Length && data[..|s|] == s && i + len <= |s|
    ensures data[i..i + len] == s[i..i + len]
  {
    SliceOfSlice(data[..], 0, |s|, i, i + len);
    assert data[..][0..|s|] == s && data[..][i..i + len] == data[i..i + len];
  }

  /** The state between chunks: `code` is stored, and its last partial byte is the first of the buffer. */
  ghost predicate BetweenChunks(bs: Bitstream, encoded: array<bv8>, totalBits: nat, code: seq<bool>)
    reads bs, bs.buffer, encoded
  {
    && bs.Valid() && bs.buffer.Length == 1024
    && totalBits == |code|
    && bs.byteIndex == 0 && bs.bitOffset == totalBits % 8
    && Shows(bs.Content(), 8 * (totalBits / 8), code)
    && Stored(encoded[..], code)
  }

  /** One turn of the second pass: encode, copy out, carry over; it stops where the copy would leave the output. */
  method EncodeChunk(table: Table, data: array<int>, i: nat, len: nat, bs: Bitstream, encoded: array<bv8>,
                     totalBits: nat, ghost code: seq<bool>, ghost chunk: seq<bool>)
    returns (total': nat, ret: int, fits: bool)
    requires Narrow(table) && len <= CHUNK && i + len <= data.Length && AllInt16(data[i..i + len])
    requires chunk == EncodeBits(table, data[i..i + len])
    requires encoded != bs.buffer && data as object != bs.buffer && data as object != encoded
    requires BetweenChunks(bs, encoded, totalBits, code)
    modifies bs, bs.buffer, encoded
    ensures ret == 0 && bs.Valid() && total' == totalBits + |chunk|
    ensures fits <==> totalBits / 8 + CopyCount(totalBits, |chunk|) <= encoded.Length
    ensures fits ==> BetweenChunks(bs, encoded, total', code + chunk)
  {
    var bits;
    bits, ret := AppendChunk(table, data, i, len, bs, totalBits, code, chunk);
    total' := totalBits + bits;
    fits := CopyOut(encoded, bs, totalBits, bits, code, code + chunk);
    if fits {
      CarryOver(bs, 8 * (totalBits / 8), code + chunk);
    }
  }

  /** Writes a chunk behind the partial byte of the stream so far. */
  method AppendChunk(table: Table, data: array<int>, i: nat, len: nat, bs: Bitstream, totalBits: nat,
                     ghost code: seq<bool>, ghost chunk: seq<bool>)
    returns (bits: nat, ret: int)
    requires Narrow(table) && len <= CHUNK && i + len <= data.Length && AllInt16(data[i..i + len])
    requires chunk == EncodeBits(table, data[i..i + len])
    requires bs.Valid() && bs.buffer.Length == 1024 && data as object != bs.buffer
    requires totalBits == |code| && bs.byteIndex == 0 && bs.bitOffset == totalBits % 8
    requires Shows(bs.Content(), 8 * (totalBits / 8), code)
    modifies bs, bs.buffer
    ensures ret == 0 && bs.Valid() && bits == |chunk| <= 2300
    ensures 8 * (totalBits / 8) + bs.Cursor() == |code + chunk|
    ensures Shows(bs.Content(), 8 * (totalBits / 8), code + chunk)
  {
    ghost var before, base := bs.Content(), 8 * (totalBits / 8);
    bits, ret := WriteChunk(table, data, i, len, bs);
    AfterEncode(before, bs.Content(), base, code, chunk);
  }

  method ClearStream(bs: Bitstream, encoded: array<bv8>)
    requires bs.buffer.Length == 1024 && encoded != bs.buffer
    modifies bs, bs.buffer
    ensures BetweenChunks(bs, encoded, 0, [])
  {
    bs.bitOffset := 0;
    bs.byteIndex := 0;
    Memset(bs.buffer, 0, 0, bs.buffer.Length);
    ClearBuffer(bs.buffer[..]);
  }

  /** Encodes `data[..n]` into `encoded`, chunk by chunk. The program does not look at the size of `encoded`; where a
      copy would leave it, the model stops and says so. */
  method EncodeChunks(table: Table, data: array<int>, n: nat, bs: Bitstream, encoded: array<bv8>)
    returns (totalBits: nat, ret: int, fits: bool)
    requires Narrow(table) && n <= data.Length && AllInt16(data[..n])
    requires bs.Valid() && bs.buffer.Length == 1024 && encoded != bs.buffer
    requires data as object != bs.buffer && data as object != encoded
    modifies bs, bs.buffer, encoded
    ensures bs.Valid() && ret == 0
    ensures fits <==> CopiesFit(ChunkBits(table, old(data[..n]), 0), 0, encoded.Length)
    ensures fits ==> totalBits == |EncodeBits(table, old(data[..n]))|
    ensures fits ==> Stored(encoded[..], EncodeBits(table, old(data[..n])))
  {
    ghost var s, code := data[..n], [];
    ghost var left := ChunkBits(table, s, 0);
    ghost var room := encoded.Length;
    ghost var fine := CopiesFit(left, 0, room);
    totalBits, ret, fits := 0, 0, true;
    ClearStream(bs, encoded);
    CodedNothing(table, s);
    var i := 0;
    while i < n
      invariant fits && ret == 0 && data[..n] == s
      invariant CodedTo(table, s, i, code, left)
      invariant BetweenChunks(bs, encoded, totalBits, code)
      invariant CopiesFit(left, totalBits, room) == fine
    {
      ghost var before, rest := code, left;
      ghost var next, chunk;
      next, chunk, code, left := CodedNext(table, s, i, before, rest);
      ghost var out := totalBits;
      i, totalBits, ret, fits := EncodeTurn(table, data, n, i, bs, encoded, totalBits, before, chunk, s, next);
      CopiesFitUnfold(rest, |chunk|, left, out, totalBits, room, fits);
      if ret != 0 || !fits {
        return;
      }
    }
    CodedAll(table, s, i, code, left);
  }

  /** One turn of the loop. */
  method EncodeTurn(table: Table, data: array<int>, n: nat, i: nat, bs: Bitstream, encoded: array<bv8>,
                    totalBits: nat, ghost code: seq<bool>, ghost chunk: seq<bool>, ghost s: seq<int>,
                    ghost next: nat)
    returns (i': nat, total': nat, ret: int, fits: bool)
    requires Narrow(table) && n <= data.Length && AllInt16(s) && data[..n] == s && i < n
    requires next == i + ChunkLength(n, i)
    requires IsChunk(table, s, i, chunk) && BetweenChunks(bs, encoded, totalBits, code)
    requires encoded != bs.buffer && data as object != bs.buffer && data as object != encoded
    modifies bs, bs.buffer, encoded
    ensures ret == 0 && bs.Valid() && i < i' == next <= n && data[..n] == s && total' == totalBits + |chunk|
    ensures fits <==> totalBits / 8 + CopyCount(totalBits, |chunk|) <= encoded.Length
    ensures fits ==> BetweenChunks(bs, encoded, total', code + chunk)
  {
    var len := ChunkLength(n, i);
    SamePart(data, s, i, len);
    total', ret, fits := EncodeChunk(table, data, i, len, bs, encoded, totalBits, code, chunk);
    i' := i + len;
  }

  lemma ClearBuffer(buffer: seq<bv8>)
    requires forall k :: 0 <= k < |buffer| ==> buffer[k] == 0
    ensures Shows(BitsOf(buffer), 0, []) && ZeroFrom(BitsOf(buffer), 0)
  {
    BitsOfEntries(buffer);
  }

  // ---------------------------------------------------------------- the one-shot encoding

  /** Bytes are determined by their bits. */
  lemma SameBytes(a: seq<bv8>, b: seq<bv8>, n: nat)
    requires n <= |a| && n <= |b|
    requires forall p :: 0 <= p < 8 * n ==> BitsOf(a)[p] == BitsOf(b)[p]
    ensures a[..n] == b[..n]
  {
    BitsOfEntries(a);
    BitsOfEntries(b);
    forall k | 0 <= k < n
      ensures a[k] == b[k]
    {
      forall j | 0 <= j < 8
        ensures Bit(a[k], j) == Bit(b[k], j)
      {
        var p := 8 * k + j;
        assert p / 8 == k && p % 8 == j;
        assert BitsOf(a)[p] == BitsOf(b)[p];
      }
      SameByte(a[k], b[k]);
    }
  }

  /** The chunked encoder stores the very bytes that encoding everything at once into a clear buffer gives. */
  lemma ChunkedIsOneShot(encoded: seq<bv8>, clear: seq<bv8>, oneShot: seq<bv8>, code: seq<bool>)
    requires Stored(encoded, code)
    requires |clear| == |oneShot| && 8 * |clear| >= |code| && ZeroFrom(BitsOf(clear), 0)
    requires BitsOf(oneShot) == OrInto(BitsOf(clear), 0, code)
    ensures encoded[..Bytes(|code|)] == oneShot[..Bytes(|code|)]
  {
    OrIntoEntries(BitsOf(clear), 0, code);
    SameBytes(encoded, oneShot, Bytes(|code|));
  }
}
