/** Decoding a long stream through a small buffer: shift out what was read, refill, decode a hundred symbols. */
module SlidingDecoder {
  import opened Bits
  import opened BitStream
  import opened DecodingProperties
  import opened HuffmanCodec
  import opened HuffmanNodes
  import opened HuffmanTable
  import opened HuffmanTree
  import opened Memory
  import opened OutputRoom
  import opened Sequences

  /** The buffer from `from` on shows the stream from byte `base` on, as far as the stream goes. */
  predicate Window(buffer: seq<bv8>, from: nat, stream: seq<bv8>, base: nat) {
    forall k :: from <= k < |buffer| && base + (k - from) < |stream| ==> buffer[k] == stream[base + (k - from)]
  }

  /** The bytes of the stream read into the buffer when byte `base` is at `from`. */
  function ReadSoFar(size: nat, from: nat, length: nat, base: nat): nat
    requires from <= size
  {
    Min(base + (size - from), length)
  }

  /** Shifting and refilling keeps the window. */
  lemma Refilled(before: seq<bv8>, after: seq<bv8>, from: nat, stream: seq<bv8>, base: nat, read: nat, fill: nat)
    requires |before| == |after| && from <= |before| && Window(before, from, stream, base)
    requires read == ReadSoFar(|before|, from, |stream|, base) && fill == Min(from, |stream| - read)
    requires after[..|before| - from] == before[from..]
    requires after[|before| - from..|before| - from + fill] == stream[read..read + fill]
    ensures Window(after, 0, stream, base)
  {
    var kept := |before| - from;
    forall k | 0 <= k < |after| && base + k < |stream|
      ensures after[k] == stream[base + k]
    {
      if k < kept {
        assert after[k] == after[..kept][k] == before[from + k];
      } else {
        assert after[k] == after[kept..kept + fill][k - kept] == stream[read..read + fill][k - kept];
      }
    }
  }

  lemma WindowMoves(buffer: seq<bv8>, stream: seq<bv8>, base: nat, k: nat)
    requires Window(buffer, 0, stream, base) && k <= |buffer|
    ensures Window(buffer, k, stream, base + k)
  {
  }

  /** Bit for bit the window is the stream. */
  lemma WindowBits(buffer: seq<bv8>, stream: seq<bv8>, base: nat, offset: nat, len: nat)
    requires Window(buffer, 0, stream, base)
    requires offset + len <= 8 * |buffer| && 8 * base + offset + len <= 8 * |stream|
    ensures Agree(BitsOf(stream), 8 * base + offset, BitsOf(buffer), offset, len)
  {
    var x := BitsOf(stream)[8 * base + offset..8 * base + offset + len];
    var y := BitsOf(buffer)[offset..offset + len];
    forall i | 0 <= i < len
      ensures x[i] == y[i]
    {
      WindowBit(buffer, stream, base, offset + i);
    }
  }

  lemma WindowBit(buffer: seq<bv8>, stream: seq<bv8>, base: nat, q: nat)
    requires Window(buffer, 0, stream, base) && q < 8 * |buffer| && 8 * base + q < 8 * |stream|
    ensures BitsOf(stream)[8 * base + q] == BitsOf(buffer)[q]
  {
    BitsOfEntries(stream);
    BitsOfEntries(buffer);
    assert (8 * base + q) / 8 == base + q / 8 && (8 * base + q) % 8 == q % 8;
    assert buffer[q / 8] == stream[base + q / 8];
  }

  /** What can be decoded can be decoded in part. */
  lemma {:induction false} DecodePart(root: Tree, cur: Tree, bits: seq<bool>, pos: nat, n: nat, max: nat)
    requires root.Node? && cur.Node? && pos <= |bits| && n <= max
    requires DecodeFrom(root, cur, bits, pos, max).status == 0
    ensures DecodeFrom(root, cur, bits, pos, n).status == 0
    decreases |bits| - pos
  {
    if n > 0 {
      var next := Child(cur, bits[pos]);
      if next.symbol == INTERNAL_SYMBOL {
        DecodePart(root, next, bits, pos + 1, n, max);
      } else if next.symbol == ESCAPE_SYMBOL {
        DecodePart(root, root, bits, pos + 17, n - 1, max - 1);
      } else {
        DecodePart(root, root, bits, pos + 1, n - 1, max - 1);
      }
    }
  }

  /** What is delivered before the bits run out can be decoded for itself. */
  lemma {:induction false} DeliveredPart(root: Tree, cur: Tree, bits: seq<bool>, pos: nat, max: nat)
    requires root.Node? && cur.Node? && pos <= |bits|
    ensures var d := DecodeFrom(root, cur, bits, pos, max);
      var part := DecodeFrom(root, cur, bits, pos, |d.symbols|);
      part.status == 0 && part.symbols == d.symbols
    decreases |bits| - pos
  {
    if max > 0 && pos < |bits| && Child(cur, bits[pos]).Node? {
      var next := Child(cur, bits[pos]);
      if next.symbol == INTERNAL_SYMBOL {
        DeliveredPart(root, next, bits, pos + 1, max);
        assert [] + DecodeFrom(root, next, bits, pos + 1, max).symbols == DecodeFrom(root, next, bits, pos + 1, max).symbols;
      } else if next.symbol != ESCAPE_SYMBOL {
        DeliveredPart(root, root, bits, pos + 1, max - 1);
      } else if pos + 17 <= |bits| {
        DeliveredPart(root, root, bits, pos + 17, max - 1);
      }
    }
  }

  /** Moves the unread bytes to the front and copies the next ones in behind them. */
  method ShiftAndFill(buffer: array<bv8>, from: nat, encoded: array<bv8>, read: nat, lenBs: nat)
    requires buffer != encoded && from <= buffer.Length && lenBs <= from && read + lenBs <= encoded.Length
    modifies buffer
    ensures buffer[..buffer.Length - from] == old(buffer[from..])
    ensures buffer[buffer.Length - from..buffer.Length - from + lenBs] == encoded[read..read + lenBs]
  {
    Memmove(buffer, 0, from, buffer.Length - from);
    assert buffer[..buffer.Length - from] == old(buffer[from..]);
    Memcpy(buffer, buffer.Length - from, encoded, read, lenBs);
  }

  method Refill(bs: Bitstream, encoded: array<bv8>, length: nat, read: nat, ghost base: nat) returns (read': nat)
    requires bs.Valid() && encoded != bs.buffer && length <= encoded.Length
    requires read == ReadSoFar(bs.buffer.Length, bs.byteIndex, length, base)
    requires Window(bs.buffer[..], bs.byteIndex, encoded[..length], base)
    requires bs.buffer.Length > 0
    modifies bs, bs.buffer
    ensures bs.Valid() && bs.byteIndex == 0 && bs.bitOffset == old(bs.bitOffset)
    ensures read' == ReadSoFar(bs.buffer.Length, 0, length, base)
    ensures Window(bs.buffer[..], 0, encoded[..length], base)
  {
    ghost var before, from := bs.buffer[..], bs.byteIndex;
    var lenBs := if bs.byteIndex < length - read then bs.byteIndex else length - read;
    ShiftAndFill(bs.buffer, bs.byteIndex, encoded, read, lenBs);
    FilledFromStream(bs.buffer[..], from, encoded[..], length, read, lenBs);
    Refilled(before, bs.buffer[..], from, encoded[..length], base, read, lenBs);
    bs.byteIndex := 0;
    read' := read + lenBs;
  }

  lemma FilledFromStream(buffer: seq<bv8>, from: nat, encoded: seq<bv8>, length: nat, read: nat, fill: nat)
    requires read + fill <= length <= |encoded| && fill <= from <= |buffer|
    ensures encoded[read..read + fill] == encoded[..length][read..read + fill]
  {
  }

  /** What decoding the whole stream at once has delivered after `count` symbols, or at all, if that is less. */
  ghost predicate InStep(t: Tree, stream: seq<bv8>, n: nat, count: nat, pos: nat, decoded: seq<int>, start: seq<int>)
    requires t.Node? && count <= n <= |start| == |decoded|
  {
    var whole := Decode(t, BitsOf(stream), 0, n).symbols;
    if count <= |whole| then
      var d := Decode(t, BitsOf(stream), 0, count);
      d.status == 0 && d.used == pos && |d.symbols| == count && decoded == Splice(start, 0, d.symbols)
    else decoded[..|whole|] == whole
  }

  /** A turn on the window is a turn on the stream, as far as the stream goes. */
  lemma TurnInStep(t: Tree, stream: seq<bv8>, buffer: seq<bv8>, base: nat, offset: nat, n: nat, count: nat,
                   len: nat, before: seq<int>, after: seq<int>, start: seq<int>)
    requires Complete(t) && Cost(t) * len + offset <= 8 * |buffer|
    requires Window(buffer, 0, stream, base)
    requires count + len <= n <= |start| == |before| == |after| && len > 0
    requires InStep(t, stream, n, count, 8 * base + offset, before, start)
    requires after == Splice(before, count, Decode(t, BitsOf(buffer), offset, len).symbols)
    ensures var d := Decode(t, BitsOf(buffer), offset, len); d.status == 0 && |d.symbols| == len
    ensures InStep(t, stream, n, count + len, 8 * base + offset + Decode(t, BitsOf(buffer), offset, len).used, after, start)
  {
    var whole := Decode(t, BitsOf(stream), 0, n).symbols;
    DecoderDelivers(t, t, BitsOf(buffer), offset, len);
    BudgetOfRoot(t, len);
    if count > |whole| {
      BehindSplice(before, count, Decode(t, BitsOf(buffer), offset, len).symbols, |whole|);
    } else if count + len <= |whole| {
      DeliveredPart(t, t, BitsOf(stream), 0, n);
      WholeTurn(t, stream, buffer, base, offset, |whole|, count, len, before, after, start);
    } else {
      LastTurn(t, stream, buffer, base, offset, n, count, len, before, after, start);
    }
  }

  lemma BehindSplice<T>(s: seq<T>, at: nat, part: seq<T>, k: nat)
    requires k <= at && at + |part| <= |s|
    ensures Splice(s, at, part)[..k] == s[..k]
  {
    SpliceEntries(s, at, part);
  }

  /** All symbols of the turn are in the stream. */
  lemma WholeTurn(t: Tree, stream: seq<bv8>, buffer: seq<bv8>, base: nat, offset: nat, n: nat, count: nat,
                  len: nat, before: seq<int>, after: seq<int>, start: seq<int>)
    requires Complete(t) && offset <= 8 * |buffer| && Cost(t) * len + offset <= 8 * |buffer|
    requires Window(buffer, 0, stream, base)
    requires count + len <= n && n <= |start| == |before| == |after| && len > 0
    requires Decode(t, BitsOf(stream), 0, n).status == 0
    requires var d := Decode(t, BitsOf(stream), 0, count);
      d.status == 0 && d.used == 8 * base + offset && |d.symbols| == count && before == Splice(start, 0, d.symbols)
    requires var e := Decode(t, BitsOf(buffer), offset, len).symbols; |e| == len && after == Splice(before, count, e)
    ensures var d := Decode(t, BitsOf(stream), 0, count + len);
      d.status == 0 && d.used == 8 * base + offset + Decode(t, BitsOf(buffer), offset, len).used
      && |d.symbols| == count + len && after == Splice(start, 0, d.symbols)
  {
    var bits := BitsOf(stream);
    var d := Decode(t, bits, 0, count);
    NextTurn(t, bits, n, count, len);
    var e := Decode(t, bits, d.used, len);
    SameOnWindow(t, stream, buffer, base, offset, len);
    SpliceTwice(start, 0, d.symbols, e.symbols);
    assert Decode(t, bits, 0, count + len) == Prefixed(d.symbols, d.used, e);
  }

  /** The stream ends within the turn: what it still holds is delivered first. */
  lemma LastTurn(t: Tree, stream: seq<bv8>, buffer: seq<bv8>, base: nat, offset: nat, n: nat, count: nat,
                 len: nat, before: seq<int>, after: seq<int>, start: seq<int>)
    requires Complete(t) && offset <= 8 * |buffer| && Cost(t) * len + offset <= 8 * |buffer|
    requires Window(buffer, 0, stream, base)
    requires count + len <= n <= |start| == |before| == |after| && len > 0
    requires var whole := Decode(t, BitsOf(stream), 0, n).symbols; count <= |whole| < count + len
    requires var d := Decode(t, BitsOf(stream), 0, count);
      d.status == 0 && d.used == 8 * base + offset && |d.symbols| == count && before == Splice(start, 0, d.symbols)
    requires var e := Decode(t, BitsOf(buffer), offset, len).symbols; |e| == len && after == Splice(before, count, e)
    ensures var whole := Decode(t, BitsOf(stream), 0, n).symbols; after[..|whole|] == whole
  {
    var bits := BitsOf(stream);
    var whole, d := Decode(t, bits, 0, n).symbols, Decode(t, bits, 0, count).symbols;
    var left := |whole| - count;
    DeliveredPart(t, t, bits, 0, n);
    NextTurn(t, bits, |whole|, count, left);
    var first := Decode(t, bits, 8 * base + offset, left).symbols;
    assert whole == d + first;
    LeftOnWindow(t, stream, buffer, base, offset, left, len);
    SpliceTwo(start, d, Decode(t, BitsOf(buffer), offset, len).symbols, first);
  }

  /** What the window delivers begins with what is left of the stream. */
  lemma LeftOnWindow(t: Tree, stream: seq<bv8>, buffer: seq<bv8>, base: nat, offset: nat, left: nat, len: nat)
    requires Complete(t) && Window(buffer, 0, stream, base) && 8 * base + offset <= 8 * |stream|
    requires left < len && offset <= 8 * |buffer| && Cost(t) * len + offset <= 8 * |buffer|
    requires Decode(t, BitsOf(stream), 8 * base + offset, left).status == 0
    ensures var first := Decode(t, BitsOf(stream), 8 * base + offset, left).symbols;
      first <= Decode(t, BitsOf(buffer), offset, len).symbols
  {
    if left > 0 {
      CostGrows(Cost(t), left, len);
      SameOnWindow(t, stream, buffer, base, offset, left);
      PartIsPrefix(t, BitsOf(buffer), offset, left, len);
    }
  }

  lemma CostGrows(cost: nat, left: nat, len: nat)
    requires left <= len
    ensures cost * left <= cost * len
  {
  }

  lemma PartIsPrefix(t: Tree, bits: seq<bool>, pos: nat, left: nat, len: nat)
    requires t.Node? && pos <= |bits| && left <= len && Decode(t, bits, pos, left).status == 0
    ensures Decode(t, bits, pos, left).symbols <= Decode(t, bits, pos, len).symbols
  {
    DecodeInTurns(t, t, bits, pos, left, len - left);
    assert left + (len - left) == len;
  }

  lemma SpliceTwo<T>(s: seq<T>, x: seq<T>, y: seq<T>, first: seq<T>)
    requires |x| + |y| <= |s| && first <= y
    ensures Splice(Splice(s, 0, x), |x|, y)[..|x| + |first|] == x + first
  {
    SpliceEntries(s, 0, x);
    SpliceEntries(Splice(s, 0, x), |x|, y);
  }

  /** The next turn of a decoding that succeeds as a whole succeeds, and continues it. */
  lemma NextTurn(t: Tree, bits: seq<bool>, n: nat, count: nat, len: nat)
    requires Complete(t) && count + len <= n && Decode(t, bits, 0, n).status == 0
    requires Decode(t, bits, 0, count).status == 0
    ensures var d := Decode(t, bits, 0, count);
      var e := Decode(t, bits, d.used, len);
      e.status == 0 && |e.symbols| == len && Decode(t, bits, 0, count + len) == Prefixed(d.symbols, d.used, e)
  {
    var d := Decode(t, bits, 0, count);
    DecodePart(t, t, bits, 0, count + len, n);
    DecodeInTurns(t, t, bits, 0, count, len);
    DecoderDelivers(t, t, bits, d.used, len);
  }

  /** A turn that succeeds on the stream gives the same on the window. */
  lemma SameOnWindow(t: Tree, stream: seq<bv8>, buffer: seq<bv8>, base: nat, offset: nat, len: nat)
    requires Complete(t) && Window(buffer, 0, stream, base) && 8 * base + offset <= 8 * |stream|
    requires len > 0 && offset <= 8 * |buffer| && Cost(t) * len + offset <= 8 * |buffer|
    requires Decode(t, BitsOf(stream), 8 * base + offset, len).status == 0
    ensures Decode(t, BitsOf(buffer), offset, len) == Decode(t, BitsOf(stream), 8 * base + offset, len)
  {
    var bits, p := BitsOf(stream), 8 * base + offset;
    DecoderDelivers(t, t, bits, p, len);
    BudgetOfRoot(t, len);
    WindowBits(buffer, stream, base, offset, Decode(t, bits, p, len).used);
    DecoderReadsOnly(t, t, bits, p, BitsOf(buffer), offset, len);
  }

  lemma BudgetOfRoot(t: Tree, max: nat)
    requires max > 0
    ensures Budget(t, t, max) == Cost(t) * max
  {
    assert Cost(t) * max == Cost(t) + Cost(t) * (max - 1);
  }

  /** Decodes `len` symbols from the window. */
  method DecodeWindow(bs: Bitstream, root: HuffmanNode, decoded: array<int>, count: nat, len: nat,
                      ghost nodes: NodeMap, ghost t: Tree, ghost base: nat, ghost n: nat, ghost start: seq<int>,
                      ghost stream: seq<bv8>)
    returns (count': nat, ret: int)
    requires bs.Valid() && bs.buffer.Length == 1024 && bs.byteIndex == 0 && decoded as object != bs.buffer
    requires Represents(nodes, t) && nodes[[]] == root && Complete(t) && Cost(t) == 23
    requires 0 < len <= CHUNK && count + len <= n <= decoded.Length == |start|
    requires Window(bs.buffer[..], 0, stream, base)
    requires InStep(t, stream, n, count, 8 * base + bs.bitOffset, decoded[..], start)
    modifies bs, decoded
    ensures bs.Valid() && ret == 0 && count' == len
    ensures InStep(t, stream, n, count + len, 8 * base + bs.Cursor(), decoded[..], start)
  {
    ghost var buffer, before, offset := bs.buffer[..], decoded[..], bs.bitOffset;
    count', ret := HuffmanDecodeStatic(bs, root, decoded, count, len, nodes, t);
    TurnInStep(t, stream, buffer, base, offset, n, count, len, before, decoded[..], start);
  }

  /** One turn: refill, decode `len` symbols, and note where the window now stands. */
  method DecodeTurn(bs: Bitstream, root: HuffmanNode, encoded: array<bv8>, length: nat, read: nat,
                    decoded: array<int>, count: nat, len: nat, ghost nodes: NodeMap, ghost t: Tree, ghost base: nat,
                    ghost n: nat, ghost start: seq<int>, ghost stream: seq<bv8>)
    returns (count': nat, read': nat, ret: int, ghost base': nat)
    requires bs.Valid() && bs.buffer.Length == 1024 && encoded != bs.buffer && length <= encoded.Length
    requires decoded as object != bs.buffer && decoded as object != encoded
    requires Represents(nodes, t) && nodes[[]] == root && Complete(t) && Cost(t) == 23
    requires 0 < len <= CHUNK && count + len <= n <= decoded.Length == |start|
    requires stream == encoded[..length] && read == ReadSoFar(1024, bs.byteIndex, length, base)
    requires Window(bs.buffer[..], bs.byteIndex, stream, base)
    requires InStep(t, stream, n, count, 8 * base + bs.bitOffset, decoded[..], start)
    modifies bs, bs.buffer, decoded
    ensures bs.Valid() && ret == 0 && count' == len
    ensures stream == encoded[..length] && read' == ReadSoFar(1024, bs.byteIndex, length, base')
    ensures Window(bs.buffer[..], bs.byteIndex, stream, base')
    ensures InStep(t, stream, n, count + len, 8 * base' + bs.bitOffset, decoded[..], start)
  {
    read' := Refill(bs, encoded, length, read, base);
    ghost var buffer := bs.buffer[..];
    count', ret := DecodeWindow(bs, root, decoded, count, len, nodes, t, base, n, start, stream);
    base' := base + bs.byteIndex;
    WindowMoves(buffer, stream, base, bs.byteIndex);
  }

  /** Decodes `n` symbols from the first `length` bytes of `encoded`. It never fails, and delivers what decoding
      the whole stream at once delivers; a stream that is too short is followed by whatever the buffer held. */
  method DecodeStream(bs: Bitstream, root: HuffmanNode, encoded: array<bv8>, length: nat, decoded: array<int>,
                      n: nat, ghost nodes: NodeMap, ghost t: Tree)
    returns (ret: int)
    requires bs.Valid() && bs.buffer.Length == 1024 && encoded != bs.buffer && length <= encoded.Length
    requires decoded as object != bs.buffer && decoded as object != encoded
    requires bs.byteIndex == bs.buffer.Length
    requires Represents(nodes, t) && nodes[[]] == root && Complete(t) && Cost(t) == 23
    requires n <= decoded.Length
    modifies bs, bs.buffer, decoded
    ensures bs.Valid() && ret == 0
    ensures var d := Decode(t, BitsOf(encoded[..length]), 0, n);
      && decoded[..|d.symbols|] == d.symbols
      && (d.status == 0 ==> decoded[..] == Splice(old(decoded[..]), 0, d.symbols))
  {
    ghost var stream: seq<bv8>, start: seq<int>, base: nat := encoded[..length], decoded[..], 0;
    var streamLengthRead, decodedCount := 0, 0;
    SpliceNothing(start, 0);
    ret := 0;
    var i := 0;
    while i < n
      invariant 0 <= i <= n && i == decodedCount
      invariant bs.Valid() && ret == 0 && stream == encoded[..length]
      invariant streamLengthRead == ReadSoFar(1024, bs.byteIndex, length, base)
      invariant Window(bs.buffer[..], bs.byteIndex, stream, base)
      invariant InStep(t, stream, n, decodedCount, 8 * base + bs.bitOffset, decoded[..], start)
      invariant Represents(nodes, t)
    {
      var len := ChunkLength(n, i);
      var count;
      count, streamLengthRead, ret, base :=
        DecodeTurn(bs, root, encoded, length, streamLengthRead, decoded, decodedCount, len, nodes, t, base, n, start,
          stream);
      if ret != 0 {
        return -1;
      }
      if count != len {
        return -2;
      }
      decodedCount := decodedCount + count;
      i := i + len;
    }
    AllInStep(t, stream, n, 8 * base + bs.bitOffset, decoded[..], start);
  }

  lemma AllInStep(t: Tree, stream: seq<bv8>, n: nat, pos: nat, decoded: seq<int>, start: seq<int>)
    requires Complete(t) && n <= |start| == |decoded| && InStep(t, stream, n, n, pos, decoded, start)
    ensures var d := Decode(t, BitsOf(stream), 0, n);
      decoded[..|d.symbols|] == d.symbols && (d.status == 0 ==> decoded == Splice(start, 0, d.symbols))
  {
    var d := Decode(t, BitsOf(stream), 0, n);
    DecoderDelivers(t, t, BitsOf(stream), 0, n);
    if |d.symbols| == n {
      SpliceEntries(start, 0, d.symbols);
    }
  }
}
