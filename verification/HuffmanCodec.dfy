/** The Huffman encoder and decoder over a bit cursor. */
module HuffmanCodec {
  import opened Bits
  import opened BitStream
  import opened HuffmanNodes
  import opened HuffmanTable
  import opened HuffmanTree
  import opened Options
  import opened Sequences

  // ---------------------------------------------------------------- encoding

  /** Encodes `symbols[from..from + n]` at the cursor, or with `check` only counts the bits. */
  method HuffmanEncodeStatic(table: Table, symbols: array<int>, from: nat, n: nat, bs: Bitstream, check: bool)
    returns (totalBits: nat, ret: int)
    requires bs.Valid() && from + n <= symbols.Length && AllInt16(symbols[from..from + n])
    requires symbols as object != bs.buffer
    modifies bs, bs.buffer
    ensures bs.Valid()
    ensures !HasEscape(table) ==>
      && totalBits == 0 && ret == 0
      && bs.Cursor() == old(bs.Cursor()) && bs.Content() == old(bs.Content())
    ensures HasEscape(table) ==>
      var code := EncodeBits(table, old(symbols[from..from + n]));
      if check then
        && totalBits == |code|
        && ret == (if |code| <= bs.Capacity() then 0 else -1)
        && bs.Cursor() == old(bs.Cursor()) && bs.Content() == old(bs.Content())
      else
        var written := Min(|code|, old(bs.Capacity() - bs.Cursor()));
        && ret == (if written == |code| then 0 else -1)
        && (ret == 0 ==> totalBits == |code|)
        && bs.Cursor() == old(bs.Cursor()) + written
        && bs.Content() == OrInto(old(bs.Content()), old(bs.Cursor()), code[..written])
  {
    totalBits, ret := 0, 0;
    var escape := FindCode(table, ESCAPE_SYMBOL);
    if escape.None? {
      return;
    }
    if check {
      totalBits := CountBits(table, escape.value, symbols, from, n);
      if totalBits > bs.buffer.Length * 8 {
        ret := -1;
      }
    } else {
      totalBits, ret := WriteSymbols(table, escape.value, symbols, from, n, bs);
    }
  }

  method CountBits(table: Table, escape: Code, symbols: array<int>, from: nat, n: nat) returns (totalBits: nat)
    requires HasEscape(table) && escape == Escape(table)
    requires from + n <= symbols.Length && AllInt16(symbols[from..from + n])
    ensures totalBits == |EncodeBits(table, symbols[from..from + n])|
  {
    totalBits := 0;
    ghost var s := symbols[from..from + n];
    ghost var prefix := [];
    CodedNothing(table, s);
    var i := 0;
    while i < n
      invariant 0 <= i <= n && Coded(table, s, i, prefix) && totalBits == |prefix|
    {
      var symbol := symbols[from + i];
      ghost var next := CodedNext(table, s, i, prefix);
      var entry := FindCode(table, symbol);
      if entry.Some? {
        totalBits := totalBits + entry.value.len;
      } else {
        totalBits := totalBits + escape.len;
        totalBits := totalBits + RAW_SYMBOL_BITS;
      }
      prefix := prefix + next;
      i := i + 1;
    }
    CodedAll(table, s, prefix);
  }

  lemma NextSymbol(table: Table, s: seq<int>, i: nat)
    requires HasEscape(table) && i < |s| && AllInt16(s)
    ensures AllInt16(s[..i]) && AllInt16(s[..i + 1]) && Int16(s[i])
    ensures EncodeBits(table, s[..i + 1]) == EncodeBits(table, s[..i]) + SymbolBits(table, s[i])
    ensures EncodeBits(table, s[..i + 1]) <= EncodeBits(table, s)
  {
    assert s[..i + 1] == s[..i] + [s[i]];
    EncodeBitsConcat(table, s[..i], [s[i]]);
    EncodeBitsSingle(table, s[i]);
    assert s == s[..i + 1] + s[i + 1..];
    EncodeBitsConcat(table, s[..i + 1], s[i + 1..]);
  }

  /** The code went in at `start` as far as there was room, and `ret` says whether all of it did. */
  predicate Wrote(code: seq<bool>, before: seq<bool>, start: nat, after: seq<bool>, cursor: nat, ret: int)
    requires start <= |before|
  {
    var written := Min(|code|, |before| - start);
    ret == (if written == |code| then 0 else -1) && cursor == start + written
    && after == OrInto(before, start, code[..written])
  }

  method WriteSymbols(table: Table, escape: Code, symbols: array<int>, from: nat, n: nat, bs: Bitstream)
    returns (totalBits: nat, ret: int)
    requires HasEscape(table) && escape == Escape(table)
    requires bs.Valid() && from + n <= symbols.Length && AllInt16(symbols[from..from + n])
    requires symbols as object != bs.buffer
    modifies bs, bs.buffer
    ensures bs.Valid()
    ensures Wrote(EncodeBits(table, old(symbols[from..from + n])), old(bs.Content()), old(bs.Cursor()), bs.Content(),
      bs.Cursor(), ret)
    ensures ret == 0 ==> totalBits == |EncodeBits(table, old(symbols[from..from + n]))|
  {
    totalBits, ret := 0, 0;
    ghost var s := symbols[from..from + n];
    ghost var code, prefix := EncodeBits(table, s), [];
    ghost var before, start := bs.Content(), bs.Cursor();
    OrIntoNothing(before, start);
    CodedNothing(table, s);
    var i := 0;
    while i < n
      invariant 0 <= i <= n && bs.Valid()
      invariant Coded(table, s, i, prefix) && totalBits == |prefix|
      invariant bs.Cursor() == start + |prefix| <= |before| && bs.Content() == OrInto(before, start, prefix)
    {
      var bits;
      bits, ret, prefix := WriteNext(table, escape, symbols[from + i], bs, before, start, prefix, s, i);
      if ret != 0 {
        return;
      }
      totalBits := totalBits + bits;
      i := i + 1;
    }
    CodedAll(table, s, prefix);
    WroteAll(before, start, code);
  }

  /** The code of the first `i` symbols. */
  ghost predicate Coded(table: Table, s: seq<int>, i: nat, prefix: seq<bool>)
    requires HasEscape(table) && AllInt16(s)
  {
    i <= |s| && AllInt16(s[..i]) && prefix == EncodeBits(table, s[..i])
  }

  lemma CodedNothing(table: Table, s: seq<int>)
    requires HasEscape(table) && AllInt16(s)
    ensures Coded(table, s, 0, [])
  {
    assert s[..0] == [] && EncodeBits(table, []) == [];
  }

  lemma CodedNext(table: Table, s: seq<int>, i: nat, prefix: seq<bool>) returns (next: seq<bool>)
    requires HasEscape(table) && AllInt16(s) && i < |s| && Coded(table, s, i, prefix)
    ensures Int16(s[i]) && next == SymbolBits(table, s[i])
    ensures Coded(table, s, i + 1, prefix + next) && prefix + next <= EncodeBits(table, s)
  {
    NextSymbol(table, s, i);
    next := SymbolBits(table, s[i]);
  }

  lemma CodedAll(table: Table, s: seq<int>, prefix: seq<bool>)
    requires HasEscape(table) && AllInt16(s) && Coded(table, s, |s|, prefix)
    ensures prefix == EncodeBits(table, s)
  {
    assert s[..|s|] == s;
  }

  lemma WroteAll(before: seq<bool>, start: nat, code: seq<bool>)
    requires start + |code| <= |before|
    ensures Wrote(code, before, start, OrInto(before, start, code), start + |code|, 0)
  {
    assert code[..|code|] == code;
  }

  /** One turn of the loop. */
  method WriteNext(table: Table, escape: Code, symbol: int, bs: Bitstream, ghost before: seq<bool>, ghost start: nat,
                   ghost prefix: seq<bool>, ghost s: seq<int>, ghost i: nat)
    returns (bits: nat, ret: int, ghost prefix': seq<bool>)
    requires HasEscape(table) && escape == Escape(table) && AllInt16(s) && i < |s| && s[i] == symbol
    requires bs.Valid() && Coded(table, s, i, prefix)
    requires bs.Cursor() == start + |prefix| <= |before| && bs.Content() == OrInto(before, start, prefix)
    modifies bs, bs.buffer
    ensures bs.Valid() && (ret == 0 || ret == -1)
    ensures ret == 0 ==>
      && Coded(table, s, i + 1, prefix') && |prefix'| == |prefix| + bits
      && bs.Cursor() == start + |prefix'| <= |before| && bs.Content() == OrInto(before, start, prefix')
    ensures ret == -1 ==> Wrote(EncodeBits(table, s), before, start, bs.Content(), bs.Cursor(), ret)
  {
    ghost var next, fits;
    next := CodedNext(table, s, i, prefix);
    bits, ret, fits := AppendSymbol(table, escape, symbol, bs, before, start, prefix, next, EncodeBits(table, s));
    prefix' := prefix + next;
  }

  /** Writes the bits of a symbol behind `prefix`, as part of `code`. */
  method AppendSymbol(table: Table, escape: Code, symbol: int, bs: Bitstream, ghost before: seq<bool>,
                      ghost start: nat, ghost prefix: seq<bool>, ghost next: seq<bool>, ghost code: seq<bool>)
    returns (bits: nat, ret: int, ghost fits: nat)
    requires HasEscape(table) && escape == Escape(table)
    requires bs.Valid() && Int16(symbol) && next == SymbolBits(table, symbol) && prefix + next <= code
    requires bs.Cursor() == start + |prefix| <= |before| && bs.Content() == OrInto(before, start, prefix)
    modifies bs, bs.buffer
    ensures bs.Valid()
    ensures fits == Min(|next|, |before| - (start + |prefix|)) && ret == (if fits == |next| then 0 else -1)
    ensures ret == 0 ==> bits == |next| && bs.Content() == OrInto(before, start, prefix + next)
    ensures bs.Cursor() == start + |prefix| + fits
    ensures bs.Content() == OrInto(before, start, code[..|prefix| + fits])
  {
    ghost var now := bs.Content();
    bits, ret, fits := WriteSymbol(table, escape, symbol, bs);
    AppendPart(before, start, prefix, next, fits, now, bs.Content(), code);
  }

  lemma AppendPart(bits: seq<bool>, at: nat, prefix: seq<bool>, next: seq<bool>, fits: nat, before: seq<bool>,
                   after: seq<bool>, code: seq<bool>)
    requires fits <= |next| && at + |prefix| + fits <= |bits| && prefix + next <= code
    requires before == OrInto(bits, at, prefix) && after == OrInto(before, at + |prefix|, next[..fits])
    ensures after == OrInto(bits, at, code[..|prefix| + fits])
    ensures fits == |next| ==> after == OrInto(bits, at, prefix + next)
  {
    OrIntoAppend(bits, at, prefix, next, fits, before, after);
    Cut(code, prefix + next, |prefix| + fits);
  }

  lemma Cut(code: seq<bool>, prefix: seq<bool>, k: nat)
    requires prefix <= code && k <= |prefix|
    ensures prefix[..k] == code[..k]
  {
  }

  method WriteSymbol(table: Table, escape: Code, symbol: int, bs: Bitstream)
    returns (bits: nat, ret: int, ghost written: nat)
    requires HasEscape(table) && escape == Escape(table)
    requires bs.Valid() && Int16(symbol)
    modifies bs, bs.buffer
    ensures bs.Valid()
    ensures var code := SymbolBits(table, symbol);
      && written == Min(|code|, old(bs.Capacity() - bs.Cursor()))
      && ret == (if written == |code| then 0 else -1)
      && (ret == 0 ==> bits == |code|)
      && bs.Cursor() == old(bs.Cursor()) + written
      && bs.Content() == OrInto(old(bs.Content()), old(bs.Cursor()), code[..written])
  {
    var entry := FindCode(table, symbol);
    if entry.Some? {
      ret, written := bs.WriteCodeValue(entry.value.value, entry.value.len);
      bits := entry.value.len;
    } else {
      bits, ret, written := WriteEscaped(escape, symbol, bs);
    }
  }

  /** Writes the escape code and the raw value behind it. */
  method WriteEscaped(escape: Code, symbol: int, bs: Bitstream) returns (bits: nat, ret: int, ghost written: nat)
    requires bs.Valid() && Int16(symbol)
    modifies bs, bs.buffer
    ensures bs.Valid()
    ensures var code := PathOf(escape) + CodeBits(ToUint16(symbol), RAW_SYMBOL_BITS);
      && written == Min(|code|, old(bs.Capacity() - bs.Cursor()))
      && ret == (if written == |code| then 0 else -1)
      && (ret == 0 ==> bits == |code|)
      && bs.Cursor() == old(bs.Cursor()) + written
      && bs.Content() == OrInto(old(bs.Content()), old(bs.Cursor()), code[..written])
  {
    ghost var before, start := bs.Content(), bs.Cursor();
    ghost var first, second := PathOf(escape), CodeBits(ToUint16(symbol), RAW_SYMBOL_BITS);
    bits := 0;
    ret, written := bs.WriteCodeValue(escape.value, escape.len);
    if ret != 0 {
      Cut(first + second, first, written);
      return;
    }
    bits := escape.len;
    ghost var now, fits := bs.Content(), 0;
    Cut(first + second, first, written);
    assert first[..written] == first;
    ret, fits := bs.WriteCodeValue(ToUint16(symbol), RAW_SYMBOL_BITS);
    AppendPart(before, start, first, second, fits, now, bs.Content(), first + second);
    written := written + fits;
    bits := bits + RAW_SYMBOL_BITS;
  }

  // ---------------------------------------------------------------- decoding

  /** What a decoder delivers: the symbols, the bits it has read, and 0, -1 (the bits ran out) or -2 (no such
      code). */
  datatype Decoded = Decoded(symbols: seq<int>, used: nat, status: int)

  function Prefixed(symbols: seq<int>, used: nat, d: Decoded): Decoded {
    Decoded(symbols + d.symbols, used + d.used, d.status)
  }

  lemma PrefixedTwice(a: seq<int>, m: nat, b: seq<int>, n: nat, d: Decoded)
    ensures Prefixed(a, m, Prefixed(b, n, d)) == Prefixed(a + b, m + n, d)
  {
    assert a + (b + d.symbols) == (a + b) + d.symbols;
  }

  /** Decoding up to `max` symbols from position `pos` of `bits`, standing at the node `cur` of the tree. */
  function DecodeFrom(root: Tree, cur: Tree, bits: seq<bool>, pos: nat, max: nat): (d: Decoded)
    requires cur.Node? && root.Node? && pos <= |bits|
    ensures pos + d.used <= |bits| && |d.symbols| <= max
    decreases |bits| - pos
  {
    if max == 0 then Decoded([], 0, 0)
    else if pos == |bits| then Decoded([], 0, -1)
    else
      var next := Child(cur, bits[pos]);
      if next.Nil? then Decoded([], 1, -2)
      else if next.symbol == INTERNAL_SYMBOL then Prefixed([], 1, DecodeFrom(root, next, bits, pos + 1, max))
      else if next.symbol == ESCAPE_SYMBOL then
        if pos + 17 > |bits| then Decoded([], |bits| - pos, -1)
        else Prefixed([RawAt(bits, pos + 1)], 17, DecodeFrom(root, root, bits, pos + 17, max - 1))
      else Prefixed([next.symbol], 1, DecodeFrom(root, root, bits, pos + 1, max - 1))
  }

  /** The 16-bit symbol at a position. */
  function RawAt(bits: seq<bool>, pos: nat): (x: int)
    requires pos + 16 <= |bits|
  {
    RawFits(bits[pos..pos + 16]);
    FromUint16(Value(bits[pos..pos + 16]))
  }

  lemma RawFits(bits: seq<bool>)
    requires |bits| == 16
    ensures Value(bits) < 65536
  {
    ValueBound(bits);
    Pow16();
  }

  function Decode(root: Tree, bits: seq<bool>, pos: nat, max: nat): (d: Decoded)
    requires root.Node? && pos <= |bits|
    ensures pos + d.used <= |bits| && |d.symbols| <= max
  {
    DecodeFrom(root, root, bits, pos, max)
  }

  /** The symbol of the leaf just reached: the leaf's own, or the raw one that follows an escape. */
  method LeafSymbol(leaf: int, bs: Bitstream) returns (symbol: int, ret: int)
    requires bs.Valid()
    modifies bs
    ensures bs.Valid() && (ret == 0 || ret == -1)
    ensures leaf != ESCAPE_SYMBOL ==> ret == 0 && symbol == leaf && bs.Cursor() == old(bs.Cursor())
    ensures leaf == ESCAPE_SYMBOL ==>
      if old(bs.Cursor()) + 16 <= bs.Capacity() then
        ret == 0 && bs.Cursor() == old(bs.Cursor()) + 16 && symbol == RawAt(bs.Content(), old(bs.Cursor()))
      else ret == -1 && bs.Cursor() == bs.Capacity()
  {
    symbol, ret := leaf, 0;
    if leaf == ESCAPE_SYMBOL {
      symbol, ret := bs.ReadRawSymbol();
      if ret == 0 {
        RawFits(bs.Content()[old(bs.Cursor())..old(bs.Cursor()) + 16]);
        SameInt16(symbol, RawAt(bs.Content(), old(bs.Cursor())));
      }
    }
  }

  lemma SameInt16(x: int, y: int)
    requires Int16(x) && Int16(y) && ToUint16(x) == ToUint16(y)
    ensures x == y
  {
  }

  /** One bit of decoding: an error, a step inside the tree, or a symbol and back to the root. */
  method DecodeBit(bs: Bitstream, root: HuffmanNode, current: HuffmanNode, ghost nodes: NodeMap, ghost t: Tree,
                   ghost path: seq<bool>, ghost max: nat)
    returns (ret: int, symbol: Option<int>, next: HuffmanNode, ghost path': seq<bool>, ghost left: nat, ghost rest: Decoded)
    requires bs.Valid() && max > 0
    requires Represents(nodes, t) && nodes[[]] == root && path in nodes && nodes[path] == current
    modifies bs
    ensures bs.Valid() && old(bs.Cursor()) <= bs.Cursor()
    ensures path in nodes && At(t, path).Node?
    ensures path' in nodes && nodes[path'] == next && At(t, path').Node?
    ensures ret == 0 ==> old(bs.Cursor()) < bs.Cursor()
    ensures rest ==
      if ret != 0 then Decoded([], 0, ret)
      else DecodeFrom(t, At(t, path'), bs.Content(), bs.Cursor(), left)
    ensures left == if symbol.Some? then max - 1 else max
    ensures ret != 0 ==> symbol == None
    ensures DecodeFrom(t, At(t, path), bs.Content(), old(bs.Cursor()), max) ==
      Prefixed(Emitted(symbol), bs.Cursor() - old(bs.Cursor()), rest)
  {
    ret, symbol, next := 0, None, current;
    path', left, rest := path, max, Decoded([], 0, -1);
    var bit := bs.ReadBit();
    assert At(t, path).Node? by {
      assert NodeAt(nodes, t, path) && NodeAt(nodes, t, []);
    }
    if bit == -1 {
      ret := -1;
      return;
    }
    var child := Follow(current, bit, nodes, t, path);
    if child == null {
      ret, rest := -2, Decoded([], 0, -2);
    } else {
      ret, symbol, next, path', left, rest := Arrive(bs, root, child, nodes, t, path + [bit == 1], At(t, path), max);
    }
  }

  /** A leaf delivers its symbol, and decoding is back at the root. */
  method Arrive(bs: Bitstream, root: HuffmanNode, child: HuffmanNode, ghost nodes: NodeMap, ghost t: Tree,
                ghost path: seq<bool>, ghost parent: Tree, ghost max: nat)
    returns (ret: int, symbol: Option<int>, next: HuffmanNode, ghost path': seq<bool>, ghost left: nat, ghost rest: Decoded)
    requires bs.Valid() && max > 0
    requires Represents(nodes, t) && nodes[[]] == root && path in nodes && nodes[path] == child
    requires t.Node? && At(t, path).Node? && At(t, path).symbol == child.symbol
    requires parent.Node? && bs.Cursor() > 0 && At(t, path) == Child(parent, bs.Content()[bs.Cursor() - 1])
    modifies bs
    ensures bs.Valid() && old(bs.Cursor()) <= bs.Cursor()
    ensures path' in nodes && nodes[path'] == next && At(t, path').Node?
    ensures rest ==
      if ret != 0 then Decoded([], 0, ret)
      else DecodeFrom(t, At(t, path'), bs.Content(), bs.Cursor(), left)
    ensures left == if symbol.Some? then max - 1 else max
    ensures ret != 0 ==> symbol == None
    ensures DecodeFrom(t, parent, bs.Content(), old(bs.Cursor()) - 1, max) ==
      Prefixed(Emitted(symbol), bs.Cursor() - old(bs.Cursor()) + 1, rest)
  {
    ret, symbol, next := 0, None, child;
    path', left, rest := path, max, Decoded([], 0, -1);
    if child.symbol != INTERNAL_SYMBOL {
      var leaf;
      leaf, ret := LeafSymbol(child.symbol, bs);
      if ret == 0 {
        symbol, next, path', left := Some(leaf), root, [], max - 1;
        rest := DecodeFrom(t, t, bs.Content(), bs.Cursor(), max - 1);
      }
    } else {
      rest := DecodeFrom(t, At(t, path), bs.Content(), bs.Cursor(), max);
    }
  }

  function Emitted(symbol: Option<int>): seq<int> {
    match symbol
    case None => []
    case Some(x) => [x]
  }

  method HuffmanDecodeStatic(bs: Bitstream, root: HuffmanNode, decoded: array<int>, from: nat, max: nat,
                             ghost nodes: NodeMap, ghost t: Tree)
    returns (count: nat, ret: int)
    requires bs.Valid() && from + max <= decoded.Length
    requires decoded as object != bs.buffer
    requires Represents(nodes, t) && nodes[[]] == root
    modifies bs, decoded
    ensures bs.Valid()
    ensures var d := Decode(t, bs.Content(), old(bs.Cursor()), max);
      && ret == d.status && count == |d.symbols|
      && decoded[..] == Splice(old(decoded[..]), from, d.symbols)
      && bs.Cursor() == old(bs.Cursor()) + d.used
  {
    ghost var bits, start, before := bs.Content(), bs.Cursor(), decoded[..];
    ghost var result := Decode(t, bits, start, max);
    ghost var done, path, pos, left, rest := [], [], start, max, result;
    var current := root;
    count, ret := 0, 0;
    SpliceNothing(before, from);
    PrefixedNothing(result);
    while count < max
      invariant bs.Valid() && start <= pos == bs.Cursor() <= |bits| && bs.Content() == bits
      invariant left == max - count && count == |done| && decoded[..] == Splice(before, from, done)
      invariant Represents(nodes, t) && path in nodes && nodes[path] == current && At(t, path).Node?
      invariant rest == DecodeFrom(t, At(t, path), bits, pos, left)
      invariant result == Prefixed(done, pos - start, rest)
      decreases |bits| - pos
    {
      var symbol;
      ret, symbol, current, path, left, rest := DecodeBit(bs, root, current, nodes, t, path, left);
      PrefixedTwice(done, pos - start, Emitted(symbol), bs.Cursor() - pos, rest);
      pos := bs.Cursor();
      if ret != 0 {
        assert done + [] + [] == done;
        return;
      }
      if symbol.Some? {
        count, done := Store(decoded, from, count, symbol.value, before, done);
      } else {
        assert done + [] == done;
      }
    }
    assert done + [] == done;
  }

  method Store(decoded: array<int>, from: nat, count: nat, symbol: int, ghost before: seq<int>, ghost done: seq<int>)
    returns (count': nat, ghost done': seq<int>)
    requires count == |done| && from + count < decoded.Length == |before|
    requires decoded[..] == Splice(before, from, done)
    modifies decoded
    ensures count' == count + 1 && done' == done + [symbol]
    ensures decoded[..] == Splice(before, from, done')
  {
    SpliceNext(before, from, done, symbol);
    decoded[from + count] := symbol;
    count', done' := count + 1, done + [symbol];
  }

  lemma PrefixedNothing(d: Decoded)
    ensures Prefixed([], 0, d) == d
  {
    assert [] + d.symbols == d.symbols;
  }
}
