/** The room the chunked encoder takes in its output: each chunk's copy can reach one byte past the stream. */
module OutputRoom {
  import opened Bits
  import opened HuffmanTable

  const CHUNK: nat := 100

  /** The bytes a stream of `bits` bits takes. */
  function Bytes(bits: nat): nat {
    bits / 8 + (if bits % 8 == 0 then 0 else 1)
  }

  /** Every symbol takes between 1 and 23 bits. */
  ghost predicate Narrow(table: Table) {
    HasEscape(table) && forall x :: Int16(x) ==> 1 <= |SymbolBits(table, x)| <= 23
  }

  lemma StaticTableNarrow()
    ensures Narrow(PDM_STATIC_TABLE)
  {
    StaticTable();
    forall x | Int16(x)
      ensures 1 <= |SymbolBits(PDM_STATIC_TABLE, x)| <= 23
    {
      SymbolBitsLength(x);
    }
  }

  lemma NarrowLength(table: Table, symbols: seq<int>)
    requires Narrow(table) && AllInt16(symbols)
    ensures |symbols| <= |EncodeBits(table, symbols)| <= 23 * |symbols|
  {
    EncodeBitsBetween(table, symbols, 1, 23);
  }

  // ---------------------------------------------------------------- the chunks of a sequence

  function ChunkLength(n: nat, i: nat): (len: nat)
    requires i <= n
    ensures i + len <= n && (i < n ==> len > 0)
  {
    if CHUNK < n - i then CHUNK else n - i
  }

  /** The bits of each chunk, as the checking pass counts them. */
  function ChunkBits(table: Table, s: seq<int>, i: nat): seq<nat>
    requires HasEscape(table) && AllInt16(s) && i <= |s|
    decreases |s| - i
  {
    if i == |s| then []
    else
      var len := ChunkLength(|s|, i);
      [|EncodeBits(table, s[i..i + len])|] + ChunkBits(table, s, i + len)
  }

  function Sum(bits: seq<nat>): nat {
    if bits == [] then 0 else bits[0] + Sum(bits[1..])
  }

  lemma NextChunk(table: Table, s: seq<int>, i: nat, len: nat)
    requires HasEscape(table) && AllInt16(s) && i + len <= |s|
    ensures AllInt16(s[..i]) && AllInt16(s[i..i + len]) && AllInt16(s[..i + len])
    ensures EncodeBits(table, s[..i + len]) == EncodeBits(table, s[..i]) + EncodeBits(table, s[i..i + len])
  {
    assert s[..i + len] == s[..i] + s[i..i + len];
    EncodeBitsConcat(table, s[..i], s[i..i + len]);
  }

  lemma NextChunkBits(table: Table, s: seq<int>, i: nat, len: nat)
    requires HasEscape(table) && AllInt16(s) && i < |s| && len == ChunkLength(|s|, i)
    ensures ChunkBits(table, s, i) == [|EncodeBits(table, s[i..i + len])|] + ChunkBits(table, s, i + len)
  {
  }

  /** The chunks' bits add up to the bits of the whole. */
  lemma {:induction false} ChunksAddUp(table: Table, s: seq<int>, i: nat)
    requires HasEscape(table) && AllInt16(s) && i <= |s|
    ensures AllInt16(s[..i])
    ensures |EncodeBits(table, s[..i])| + Sum(ChunkBits(table, s, i)) == |EncodeBits(table, s)|
    decreases |s| - i
  {
    if i == |s| {
      assert s[..i] == s;
    } else {
      var len := ChunkLength(|s|, i);
      NextChunk(table, s, i, len);
      ChunksAddUp(table, s, i + len);
      assert ChunkBits(table, s, i)[1..] == ChunkBits(table, s, i + len);
    }
  }

  /** Chunk `k` holds the hundred symbols from `i + 100 * k` on, the last one what is left. */
  lemma {:induction false} ChunkAt(table: Table, s: seq<int>, i: nat, k: nat, at: nat)
    requires HasEscape(table) && AllInt16(s) && i <= |s| && k < |ChunkBits(table, s, i)| && at == i + 100 * k
    ensures at < |s| && (k == |ChunkBits(table, s, i)| - 1 <==> |s| - at <= 100)
    ensures ChunkBits(table, s, i)[k] == |EncodeBits(table, s[at..if |s| - at <= 100 then |s| else at + 100])|
    decreases k
  {
    var len := ChunkLength(|s|, i);
    assert k > 0 ==> ChunkBits(table, s, i + len)[k - 1] == ChunkBits(table, s, i)[k];
    if k > 0 {
      ChunkAt(table, s, i + len, k - 1, at);
    }
  }

  /** All chunks but the last hold a hundred symbols. */
  ghost predicate FullChunks(bits: seq<nat>) {
    forall k :: 0 <= k < |bits| - 1 ==> bits[k] >= CHUNK
  }

  lemma {:induction false} ChunksAreFull(table: Table, s: seq<int>, i: nat)
    requires Narrow(table) && AllInt16(s) && i <= |s|
    ensures FullChunks(ChunkBits(table, s, i)) && (ChunkBits(table, s, i) == [] <==> i == |s|)
    decreases |s| - i
  {
    if i < |s| {
      var len := ChunkLength(|s|, i);
      ChunksAreFull(table, s, i + len);
      NarrowLength(table, s[i..i + len]);
      assert ChunkBits(table, s, i)[1..] == ChunkBits(table, s, i + len);
    }
  }

  // ---------------------------------------------------------------- the copies

  /** The number of bytes copied out after a chunk. */
  function CopyCount(total: nat, bits: nat): nat {
    bits / 8 + 1 + (if (total % 8 + bits) % 8 != 0 then 1 else 0)
  }

  /** The copy reaches one byte past the stream, unless the chunk's last bits carry over a byte end. */
  predicate Spills(total: nat, bits: nat) {
    total % 8 + bits % 8 < 8
  }

  /** The bytes copied out always cover the bytes written; where the copy ends. */
  lemma CopyCovers(total: nat, bits: nat)
    ensures total / 8 + CopyCount(total, bits) == Bytes(total + bits) + if Spills(total, bits) then 1 else 0
  {
  }

  /** Where it ends, by arithmetic: behind the last byte of the stream, and a byte further unless the bits left over from
      before and those of the chunk make up a byte. */
  lemma CopyEnds(total: nat, bits: nat)
    ensures total / 8 + CopyCount(total, bits) == (total + bits + 7) / 8 + if total % 8 + bits % 8 < 8 then 1 else 0
  {
    CopyCovers(total, bits);
  }

  /** Every copy of the second pass stays within the room, if `total` bits are out already. */
  predicate CopiesFit(bits: seq<nat>, total: nat, room: nat) {
    bits != [] ==> total / 8 + CopyCount(total, bits[0]) <= room && CopiesFit(bits[1..], total + bits[0], room)
  }

  lemma CopiesFitUnfold(bits: seq<nat>, first: nat, rest: seq<nat>, total: nat, next: nat, room: nat, fits: bool)
    requires bits == [first] + rest && next == total + first
    requires fits <==> total / 8 + CopyCount(total, first) <= room
    ensures CopiesFit(bits, total, room) <==> fits && CopiesFit(rest, next, room)
  {
    assert bits[1..] == rest;
  }

  /** The condition on the counted bits: the stream leaves a byte of the room free; or it takes all the room, and neither
      the last copy nor one that already ended there reaches past it. */
  predicate LeavesRoom(bits: seq<nat>, total: nat, room: nat) {
    bits != [] ==>
      var all, last := total + Sum(bits), bits[|bits| - 1];
      || Bytes(all) < room
      || (&& Bytes(all) == room && last <= all && !Spills(all - last, last)
          && (|bits| > 1 && Bytes(all - last) == room ==>
                var previous := bits[|bits| - 2];
                previous <= all - last && !Spills(all - last - previous, previous)))
  }

  lemma BytesGrow(a: nat, b: nat)
    ensures a <= b ==> Bytes(a) <= Bytes(b)
    ensures a + 8 <= b ==> Bytes(a) + 1 <= Bytes(b)
  {
  }

  /** With one chunk: its copy. With two: the first copy, or the second, may be the one that reaches further. */
  lemma OneCopyExactlyWhen(bits: seq<nat>, total: nat, room: nat)
    requires |bits| == 1
    ensures CopiesFit(bits, total, room) <==> LeavesRoom(bits, total, room)
  {
    CopyCovers(total, bits[0]);
    assert CopiesFit(bits[1..], total + bits[0], room);
    assert Sum(bits) == bits[0] + Sum(bits[1..]);
  }

  lemma TwoCopiesExactlyWhen(bits: seq<nat>, total: nat, room: nat)
    requires |bits| == 2
    ensures CopiesFit(bits, total, room) <==> LeavesRoom(bits, total, room)
  {
    CopyCovers(total, bits[0]);
    OneCopyExactlyWhen(bits[1..], total + bits[0], room);
    assert Sum(bits) == bits[0] + Sum(bits[1..]) && Sum(bits[1..]) == bits[1] + Sum(bits[1..][1..]);
    BytesGrow(total + bits[0], total + bits[0] + bits[1]);
  }

  /** With more chunks, the first copy never reaches furthest. */
  lemma FirstCopyIsCovered(bits: seq<nat>, total: nat, room: nat)
    requires FullChunks(bits) && |bits| > 2
    ensures LeavesRoom(bits, total, room) <==> LeavesRoom(bits[1..], total + bits[0], room)
    ensures LeavesRoom(bits, total, room) ==> total / 8 + CopyCount(total, bits[0]) <= room
  {
    var rest := bits[1..];
    assert rest[|rest| - 1] == bits[|bits| - 1] && rest[|rest| - 2] == bits[|bits| - 2];
    assert Sum(bits) == bits[0] + Sum(rest) && Sum(rest) == rest[0] + Sum(rest[1..]);
    CopyCovers(total, bits[0]);
    BytesGrow(total + bits[0], total + Sum(bits));
  }

  /** Every copy of the second pass stays within the room exactly if the bits counted before it leave room. */
  lemma {:induction false} CopiesFitExactlyWhen(bits: seq<nat>, total: nat, room: nat)
    requires FullChunks(bits)
    ensures CopiesFit(bits, total, room) <==> LeavesRoom(bits, total, room)
  {
    if |bits| == 1 {
      OneCopyExactlyWhen(bits, total, room);
    } else if |bits| == 2 {
      TwoCopiesExactlyWhen(bits, total, room);
    } else if |bits| > 2 {
      RestIsFull(bits);
      CopiesFitExactlyWhen(bits[1..], total + bits[0], room);
      FirstCopyIsCovered(bits, total, room);
    }
  }

  lemma RestIsFull(bits: seq<nat>)
    requires FullChunks(bits) && bits != []
    ensures FullChunks(bits[1..])
  {
    assert forall k :: 0 <= k < |bits| - 2 ==> bits[1..][k] == bits[k + 1];
  }
}
