/** The whole codec: transform, quantise, code, decode, dequantise, invert. */
module WaveSnap {
  import opened Bits
  import opened BitStream
  import opened ChunkedEncoder
  import opened DecodingProperties
  import opened Haar
  import opened HuffmanCodec
  import opened HuffmanNodes
  import opened HuffmanProperties
  import opened HuffmanTable
  import opened HuffmanTree
  import opened Options
  import opened OutputRoom
  import opened Quantizer
  import opened Reconstruction
  import opened Rounding
  import opened Sequences
  import opened SlidingDecoder

  const DWT_QUANT_THRESHOLD := 200
  const DWT_QUANT_STEP := 5
  const MAX_ERROR := 997

  /** The symbols a wave is coded as. */
  function Symbols(wave: seq<int>): (r: seq<int>)
    ensures |r| == |wave|
  {
    Quantized(Forward(wave, |wave|, DWT_LEVELS), |wave|, DWT_QUANT_THRESHOLD, DWT_QUANT_STEP)
  }

  /** The wave symbols are decoded to. */
  function Restored(symbols: seq<int>): (r: seq<int>)
    ensures |r| == |symbols|
  {
    Inverse(Dequantized(symbols, |symbols|, DWT_QUANT_STEP), |symbols|, DWT_LEVELS)
  }

  // ---------------------------------------------------------------- the symbols fit the coder

  /** Quantised coefficients of 16-bit samples stay far inside 16 bits, so that none is the escape symbol. */
  lemma SymbolRange(wave: seq<int>)
    requires AllInt16(wave)
    ensures forall k :: 0 <= k < |wave| ==> -6554 <= Symbols(wave)[k] <= 6554
    ensures AllInt16(Symbols(wave)) && ESCAPE_SYMBOL !in Symbols(wave)
  {
    var n := |wave|;
    var c := Forward(wave, n, DWT_LEVELS);
    CoefficientRange(wave, n, DWT_LEVELS);
    QuantizedEntries(c, n, DWT_QUANT_THRESHOLD, DWT_QUANT_STEP);
    forall k | 0 <= k < n
      ensures -6554 <= Symbols(wave)[k] <= 6554
    {
      QuotientRange(Kept(c[k], k >= Averages(n), DWT_QUANT_THRESHOLD));
    }
  }

  lemma QuotientRange(x: int)
    requires -32768 <= x <= 32768
    ensures -6554 <= RoundDiv(x, 5) <= 6554
  {
  }

  // ---------------------------------------------------------------- the error bound

  lemma FiveLevels()
    ensures Pow2(DWT_LEVELS) == 32
    ensures ErrorBound(DWT_LEVELS, DWT_QUANT_THRESHOLD, DWT_QUANT_STEP) == MAX_ERROR
  {
    assert Pow2(3) == 8;
    assert ErrorBound(3, 200, 5) == 2 + 3 * 199;
  }

  lemma DeepestLength(n: nat)
    ensures Halved(n, DWT_LEVELS) == Averages(n)
  {
    ShiftIsHalving(n, DWT_LEVELS);
    FiveLevels();
  }

  /** From 32 samples on, every sample comes back within 997. */
  lemma WaveError(wave: seq<int>)
    requires |wave| >= 32
    ensures Within(Restored(Symbols(wave)), wave, MAX_ERROR)
  {
    var n := |wave|;
    var c := Forward(wave, n, DWT_LEVELS);
    var c' := Dequantized(Symbols(wave), n, DWT_QUANT_STEP);
    FiveLevels();
    DeepestLength(n);
    forall k | 0 <= k < n
      ensures if k < Averages(n) then NearAverage(c[k], c'[k], DWT_QUANT_STEP)
        else NearDetail(c[k], c'[k], DWT_QUANT_THRESHOLD, DWT_QUANT_STEP)
    {
      QuantizationError(c, n, DWT_QUANT_THRESHOLD, DWT_QUANT_STEP, k);
    }
    DisturbedReconstruction(wave, n, DWT_LEVELS, c', DWT_QUANT_THRESHOLD, DWT_QUANT_STEP);
  }

  // ---------------------------------------------------------------- the bound is tight

  /** One deepest average of 2 and, on each level, a first difference of 199: the largest values that the
      quantiser drops. */
  function SpikeAt(k: nat): int {
    if k == 0 then 2 else if k == 1 || k == 2 || k == 4 || k == 8 || k == 16 then 199 else 0
  }

  function Spike(n: nat): (c: seq<int>)
    ensures |c| == n
  {
    Tabulate(n, SpikeAt)
  }

  lemma SpikeEntries(n: nat)
    ensures forall k :: 0 <= k < n ==> Spike(n)[k] == SpikeAt(k)
  {
    TabulateEntries(n, SpikeAt);
  }

  /** The first sample adds up the first coefficients of all levels, and no sample exceeds 200 a level. */
  lemma {:induction false} SpikeWave(n: nat, m: nat, levels: nat)
    requires m == Pow2(levels) <= n == 32 && levels <= 5
    ensures Unwind(Spike(n), m, levels)[0] == 2 + 199 * levels
    ensures forall k :: 0 <= k < n ==> Abs(Unwind(Spike(n), m, levels)[k]) <= 200 + 200 * levels
    decreases levels
  {
    SpikeEntries(n);
    if levels > 0 {
      SpikeWave(n, m / 2, levels - 1);
      UnwindTail(Spike(n), m / 2, levels - 1);
      SpikeRest(n, Unwind(Spike(n), m / 2, levels - 1), levels - 1);
      SpikeLevel(Unwind(Spike(n), m / 2, levels - 1), m, 2 + 199 * (levels - 1), 200 + 200 * (levels - 1));
    }
  }

  lemma SpikeRest(n: nat, u: seq<int>, l: nat)
    requires n == 32 == |u| && l < 5 && forall k :: Pow2(l) <= k < n ==> u[k] == Spike(n)[k]
    ensures Pow2(l) < n && u[Pow2(l)] == 199 && forall k :: Pow2(l) <= k < n ==> Abs(u[k]) <= 200
  {
    SpikePosition(l);
    SpikeEntries(n);
  }

  lemma SpikeLevel(u: seq<int>, m: nat, first: int, most: int)
    requires 2 <= m <= |u| && u[0] == first && u[m / 2] == 199 && most >= 0
    requires forall k :: 0 <= k < |u| ==> Abs(u[k]) <= most
    requires forall k :: m / 2 <= k < |u| ==> Abs(u[k]) <= 200
    ensures Unlevel(u, m)[0] == first + 199
    ensures forall k :: 0 <= k < |u| ==> Abs(Unlevel(u, m)[k]) <= most + 200
  {
    UnlevelEntry(u, m, 0);
    forall k | 0 <= k < |u|
      ensures Abs(Unlevel(u, m)[k]) <= most + 200
    {
      UnlevelEntry(u, m, k);
    }
  }

  lemma SpikePosition(l: nat)
    requires l < 5
    ensures Pow2(l) < 32 && SpikeAt(Pow2(l)) == 199
  {
    assert Pow2(0) == 1 && Pow2(1) == 2 && Pow2(2) == 4 && Pow2(3) == 8 && Pow2(4) == 16;
    assert l == 0 || l == 1 || l == 2 || l == 3 || l == 4;
  }

  lemma SpikeLost(n: nat)
    requires n == 32
    ensures forall k :: 0 <= k < n ==> Quantized(Spike(n), n, DWT_QUANT_THRESHOLD, DWT_QUANT_STEP)[k] == 0
  {
    FiveLevels();
    SpikeEntries(n);
    QuantizedEntries(Spike(n), n, DWT_QUANT_THRESHOLD, DWT_QUANT_STEP);
    forall k | 0 <= k < n
      ensures Quantized(Spike(n), n, DWT_QUANT_THRESHOLD, DWT_QUANT_STEP)[k] == 0
    {
      SpikeIsSmall(k);
    }
  }

  lemma SpikeIsSmall(k: nat)
    ensures RoundDiv(Kept(SpikeAt(k), k >= 1, DWT_QUANT_THRESHOLD), DWT_QUANT_STEP) == 0
  {
    assert RoundDiv(2, 5) == 0 && RoundDiv(0, 5) == 0;
  }

  lemma {:induction false} UnwindZero(c: seq<int>, m: nat, levels: nat)
    requires m <= |c| && forall k :: 0 <= k < |c| ==> c[k] == 0
    ensures Unwind(c, m, levels) == c
    decreases levels
  {
    if levels > 0 {
      UnwindZero(c, m / 2, levels - 1);
      UnlevelEntries(c, m);
    }
  }

  lemma SpikeForgotten(wave: seq<int>, n: nat, levels: nat)
    requires |wave| == n == 32 && Forward(wave, n, levels) == Spike(n) && Pow2(levels) <= n
    ensures var symbols := Quantized(Forward(wave, n, levels), n, DWT_QUANT_THRESHOLD, DWT_QUANT_STEP);
      Inverse(Dequantized(symbols, n, DWT_QUANT_STEP), n, levels)[0] == 0
  {
    SpikeLost(n);
    var symbols := Quantized(Spike(n), n, DWT_QUANT_THRESHOLD, DWT_QUANT_STEP);
    NothingDequantized(symbols, n);
    UnwindZero(Dequantized(symbols, n, DWT_QUANT_STEP), n, levels);
  }

  lemma NothingDequantized(symbols: seq<int>, n: nat)
    requires |symbols| == n && forall k :: 0 <= k < n ==> symbols[k] == 0
    ensures forall k :: 0 <= k < n ==> Dequantized(symbols, n, DWT_QUANT_STEP)[k] == 0
  {
    DequantizedEntries(symbols, n, DWT_QUANT_STEP);
  }

  lemma SpikeWaveFound(n: nat, levels: nat) returns (wave: seq<int>)
    requires n == 32 == Pow2(levels) && levels == 5
    ensures |wave| == n && AllInt16(wave) && wave[0] == 997
    ensures Forward(wave, n, levels) == Spike(n)
  {
    wave := Unwind(Spike(n), n, levels);
    SpikeWave(n, n, levels);
    SmallIsInt16(wave);
    ForwardUnwind(Spike(n), n, levels);
  }

  lemma SmallIsInt16(wave: seq<int>)
    requires forall k :: 0 <= k < |wave| ==> Abs(wave[k]) <= 1200
    ensures AllInt16(wave)
  {
  }

  /** The bound cannot be improved: there is a 16-bit wave of 32 samples whose first sample is off by 997. */
  lemma BoundIsTight(n: nat) returns (wave: seq<int>)
    requires n == 32
    ensures |wave| == n && AllInt16(wave)
    ensures Abs(Restored(Symbols(wave))[0] - wave[0]) == MAX_ERROR
  {
    FiveLevels();
    wave := SpikeWaveFound(n, DWT_LEVELS);
    SpikeForgotten(wave, n, DWT_LEVELS);
  }

  // ---------------------------------------------------------------- exactly when it holds

  /** Every 16-bit wave of `n` samples comes back within the bound. */
  ghost predicate Bounded(n: nat) {
    forall wave: seq<int> | |wave| == n && AllInt16(wave) :: Within(Restored(Symbols(wave)), wave, MAX_ERROR)
  }

  lemma BoundedExactlyWhen(n: nat)
    ensures Bounded(n) <==> n < 2 || n >= 32
  {
    if n >= 32 {
      forall wave: seq<int> | |wave| == n && AllInt16(wave)
        ensures Within(Restored(Symbols(wave)), wave, MAX_ERROR)
      {
        WaveError(wave);
      }
    } else if n < 2 {
      forall wave: seq<int> | |wave| == n && AllInt16(wave)
        ensures Within(Restored(Symbols(wave)), wave, MAX_ERROR)
      {
        SingleSample(wave);
      }
    } else {
      var wave := Constant(n, 2000);
      ShortFlatWave(n);
      assert !Within(Restored(Symbols(wave)), wave, MAX_ERROR);
    }
  }

  lemma SingleSample(wave: seq<int>)
    requires |wave| < 2
    ensures Within(Restored(Symbols(wave)), wave, 199)
  {
    FiveLevels();
    assert Forward(wave, |wave|, DWT_LEVELS) == wave;
    forall k | 0 <= k < |wave|
      ensures Abs(Restored(Symbols(wave))[k] - wave[k]) <= 199
    {
      QuantizationError(wave, |wave|, DWT_QUANT_THRESHOLD, DWT_QUANT_STEP, k);
    }
  }

  /** A flat wave of fewer than 32 samples: the inverse transform gives up, and a zero difference is taken for
      a sample. */
  lemma ShortFlatWave(n: nat)
    requires 2 <= n < 32
    ensures AllInt16(Constant(n, 2000))
    ensures Restored(Symbols(Constant(n, 2000)))[n / 2] == 0
  {
    FiveLevels();
    var wave := Constant(n, 2000);
    FlatWaveLost(n, DWT_LEVELS, 2000);
    var c := Forward(wave, n, DWT_LEVELS);
    QuantizedEntries(c, n, DWT_QUANT_THRESHOLD, DWT_QUANT_STEP);
    DequantizedEntries(Symbols(wave), n, DWT_QUANT_STEP);
    assert RoundDiv(0, 5) == 0;
  }

  // ---------------------------------------------------------------- the program

  /** The bits of each chunk of a wave's symbols, as the checking pass counts them. */
  function Counted(wave: seq<int>): seq<nat>
    requires AllInt16(wave)
  {
    SymbolRange(wave);
    StaticTable();
    ChunkBits(PDM_STATIC_TABLE, Symbols(wave), 0)
  }

  /** Transforms, quantises, counts and encodes. What is counted tells whether the encoder stays within its output. */
  method Compress(original: array<int>, bs: Bitstream, encoded: array<bv8>)
    returns (totalBits: nat, ret: int, fits: bool)
    requires AllInt16(original[..])
    requires bs.Valid() && bs.buffer.Length == 1024 && encoded != bs.buffer
    requires original as object != bs.buffer && original as object != encoded
    modifies bs, bs.buffer, encoded
    ensures bs.Valid() && ret == 0
    ensures fits <==> LeavesRoom(Counted(old(original[..])), 0, encoded.Length)
    ensures AllInt16(Symbols(old(original[..])))
    ensures var code := StaticBits(Symbols(old(original[..])));
      fits ==> totalBits == |code| && Stored(encoded[..], code)
  {
    var n := original.Length;
    ghost var wave := original[..];
    var data := new int[n];
    Copy(original, data);
    HaarTransform(data, n, DWT_LEVELS);
    QuantizeAndThreshold(data, n, DWT_QUANT_THRESHOLD, DWT_QUANT_STEP);
    SymbolRange(wave);
    StaticTableNarrow();
    assert data[..n] == data[..] == Symbols(wave);
    ghost var counted;
    fits := false;
    totalBits, ret, counted := CheckChunks(PDM_STATIC_TABLE, data, n, bs);
    if ret != 0 {
      return;
    }
    ChunksAreFull(PDM_STATIC_TABLE, Symbols(wave), 0);
    CopiesFitExactlyWhen(counted, 0, encoded.Length);
    totalBits, ret, fits := EncodeChunks(PDM_STATIC_TABLE, data, n, bs, encoded);
  }

  method Copy(source: array<int>, target: array<int>)
    requires source.Length == target.Length && source != target
    modifies target
    ensures target[..] == source[..]
  {
    var i := 0;
    while i < source.Length
      invariant 0 <= i <= source.Length
      invariant target[..i] == source[..i]
    {
      target[i] := source[i];
      i := i + 1;
    }
  }

  /** The stored stream, read back, decodes to the symbols. */
  lemma StoredDecodes(table: Table, t: Tree, encoded: seq<bv8>, symbols: seq<int>)
    requires HasEscape(table) && t.Node? && CodesLead(table, t)
    requires AllInt16(symbols) && ESCAPE_SYMBOL !in symbols
    requires Stored(encoded, EncodeBits(table, symbols))
    ensures var length := Bytes(|EncodeBits(table, symbols)|);
      var d := Decode(t, BitsOf(encoded[..length]), 0, |symbols|);
      d.status == 0 && d.symbols == symbols
  {
    var code := EncodeBits(table, symbols);
    var length := Bytes(|code|);
    var bits := BitsOf(encoded[..length]);
    StreamHolds(encoded, code);
    RoundTrip(table, t, bits, 0, symbols, 0);
    assert symbols + [] == symbols;
  }

  lemma StreamHolds(encoded: seq<bv8>, code: seq<bool>)
    requires Stored(encoded, code)
    ensures HoldsAt(BitsOf(encoded[..Bytes(|code|)]), 0, code)
  {
    var stream := encoded[..Bytes(|code|)];
    BitsOfEntries(encoded);
    BitsOfEntries(stream);
    forall p | 0 <= p < |code|
      ensures BitsOf(stream)[0..|code|][p] == code[p]
    {
      assert BitsOf(encoded)[p] == Pad(code, p);
    }
  }

  /** What decoding relies on: the table's tree is complete, no symbol takes more than 23 bits, and each code
      leads to its leaf. */
  predicate Decodable(table: Table) {
    var t := DecodingTree(table);
    HasEscape(table) && CodesLead(table, t) && Complete(t) && Cost(t) == 23
  }

  lemma StaticTableDecodable()
    ensures Decodable(PDM_STATIC_TABLE)
  {
    StaticTable();
    StaticTreeComplete();
    StaticCodesLead();
  }

  method DecodeStored(table: Table, bs: Bitstream, encoded: array<bv8>, totalBits: nat, n: nat, decoded: array<int>,
                      ghost symbols: seq<int>)
    returns (ret: int)
    requires Decodable(table) && |symbols| == n == decoded.Length && AllInt16(symbols) && ESCAPE_SYMBOL !in symbols
    requires bs.Valid() && bs.buffer.Length == 1024 && encoded != bs.buffer
    requires decoded as object != bs.buffer && decoded as object != encoded
    requires totalBits == |EncodeBits(table, symbols)| && Stored(encoded[..], EncodeBits(table, symbols))
    modifies bs, bs.buffer, decoded
    ensures ret == 0 && decoded[..] == symbols
  {
    var root, nodes := BuildDecodingTree(table);
    ghost var t, start := DecodingTree(table), decoded[..];
    bs.bitOffset := 0;
    bs.byteIndex := bs.buffer.Length;
    var streamLength := totalBits / 8 + (if totalBits % 8 == 0 then 0 else 1);
    StoredDecodes(table, t, encoded[..], symbols);
    ret := DecodeStream(bs, root, encoded, streamLength, decoded, n, nodes, t);
    WholeSplice(start, symbols);
  }

  method Decompress(table: Table, bs: Bitstream, encoded: array<bv8>, totalBits: nat, n: nat, decoded: array<int>,
                    ghost symbols: seq<int>)
    returns (ret: int)
    requires Decodable(table) && |symbols| == n == decoded.Length && AllInt16(symbols) && ESCAPE_SYMBOL !in symbols
    requires bs.Valid() && bs.buffer.Length == 1024 && encoded != bs.buffer
    requires decoded as object != bs.buffer && decoded as object != encoded
    requires totalBits == |EncodeBits(table, symbols)| && Stored(encoded[..], EncodeBits(table, symbols))
    modifies bs, bs.buffer, decoded
    ensures ret == 0 && decoded[..] == Restored(symbols)
  {
    ret := DecodeStored(table, bs, encoded, totalBits, n, decoded, symbols);
    if ret != 0 {
      return;
    }
    InverseQuantize(decoded, n, DWT_QUANT_STEP);
    InverseHaarTransform(decoded, n, DWT_LEVELS);
  }

  lemma WholeSplice<T>(s: seq<T>, part: seq<T>)
    requires |s| == |part|
    ensures Splice(s, 0, part) == part
  {
    SpliceEntries(s, 0, part);
  }

  /** The program: compress a wave into two bytes a sample, decompress it, and compare. If the counted bits leave room,
      coding loses nothing, and from 32 samples on no sample is off by more than the bound; if not, the encoder writes
      past its output, and the model stops there. */
  method Run(original: array<int>) returns (decoded: array<int>, ret: int, fits: bool)
    requires AllInt16(original[..])
    ensures fits <==> LeavesRoom(Counted(original[..]), 0, 2 * original.Length)
    ensures fits ==> ret == 0 && decoded[..] == Restored(Symbols(original[..]))
    ensures fits && original.Length >= 32 ==> Within(decoded[..], original[..], MAX_ERROR)
  {
    var encoded := new bv8[2 * original.Length];
    decoded := new int[original.Length];
    var buffer := new bv8[1024];
    var bs := new Bitstream(buffer, 0, 0);
    ghost var wave := original[..];
    var totalBits;
    totalBits, ret, fits := Compress(original, bs, encoded);
    if ret != 0 || !fits {
      return;
    }
    SymbolRange(wave);
    StaticTableDecodable();
    ret := Decompress(PDM_STATIC_TABLE, bs, encoded, totalBits, original.Length, decoded, Symbols(wave));
    if original.Length >= 32 {
      WaveError(wave);
    }
  }

  // ---------------------------------------------------------------- a wave that does not fit

  lemma {:induction false} ConstantUnwindRange(c: seq<int>, m: nat, levels: nat, most: nat)
    requires m <= |c| && forall k :: 0 <= k < |c| ==> Abs(c[k]) <= most
    ensures forall k :: 0 <= k < |c| ==> Abs(Unwind(c, m, levels)[k]) <= most + levels * most
    decreases levels
  {
    if levels > 0 {
      ConstantUnwindRange(c, m / 2, levels - 1, most);
      UnwindTail(c, m / 2, levels - 1);
      var u := Unwind(c, m / 2, levels - 1);
      forall k | 0 <= k < |c|
        ensures Abs(Unlevel(u, m)[k]) <= most + levels * most
      {
        UnlevelEntry(u, m, k);
      }
    }
  }

  /** A wave all of whose coefficients are 200: as symbols they are all 40. */
  lemma LoudWave(n: nat, levels: nat) returns (wave: seq<int>)
    requires n == 32 == Pow2(levels) && levels == 5
    ensures |wave| == n && AllInt16(wave)
    ensures forall k :: 0 <= k < n ==>
      Quantized(Forward(wave, n, levels), n, DWT_QUANT_THRESHOLD, DWT_QUANT_STEP)[k] == 40
  {
    var c := Constant(n, 200);
    wave := Unwind(c, n, levels);
    ConstantUnwindRange(c, n, levels, 200);
    SmallIsInt16(wave);
    ForwardUnwind(c, n, levels);
    ConstantQuantized(n);
  }

  lemma ConstantQuantized(n: nat)
    requires n == 32
    ensures forall k :: 0 <= k < n ==> Quantized(Constant(n, 200), n, DWT_QUANT_THRESHOLD, DWT_QUANT_STEP)[k] == 40
  {
    QuantizedEntries(Constant(n, 200), n, DWT_QUANT_THRESHOLD, DWT_QUANT_STEP);
    assert RoundDiv(200, 5) == 40;
  }

  lemma RawLength(symbols: seq<int>)
    requires forall k :: 0 <= k < |symbols| ==> symbols[k] == 40
    ensures AllInt16(symbols) && |StaticBits(symbols)| == 23 * |symbols|
  {
    StaticTable();
    NoEntryFor(PDM_STATIC_TABLE, 40);
    EncodeBitsBetween(PDM_STATIC_TABLE, symbols, 23, 23);
  }

  lemma NoEntryFor(table: Table, symbol: int)
    requires table == PDM_STATIC_TABLE && symbol == 40
    ensures FindFrom(table, symbol, 0) == None
  {
    assert forall e <- table :: e.symbol != symbol;
  }

  lemma OneChunk(table: Table, symbols: seq<int>)
    requires HasEscape(table) && AllInt16(symbols) && 0 < |symbols| <= CHUNK
    ensures ChunkBits(table, symbols, 0) == [|EncodeBits(table, symbols)|]
  {
    assert symbols[0..|symbols|] == symbols;
    assert ChunkLength(|symbols|, 0) == |symbols| && ChunkBits(table, symbols, |symbols|) == [];
  }

  /** The room is not always there: a 16-bit wave of 32 samples whose stream takes 92 bytes, where the program has 64. */
  lemma LoudWaveDoesNotFit(n: nat) returns (wave: seq<int>)
    requires n == 32
    ensures |wave| == n && AllInt16(wave)
    ensures Counted(wave) == [736] && !LeavesRoom(Counted(wave), 0, 2 * |wave|)
  {
    FiveLevels();
    wave := LoudWave(n, DWT_LEVELS);
    SymbolRange(wave);
    var symbols := Symbols(wave);
    RawLength(symbols);
    StaticTable();
    OneChunk(PDM_STATIC_TABLE, symbols);
    var counted := Counted(wave);
    assert counted == [736] && counted[1..] == [];
    assert Sum(counted) == 736;
  }
}
