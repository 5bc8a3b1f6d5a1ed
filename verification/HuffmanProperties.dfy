/** What the static table's decoding tree guarantees: decoding undoes encoding, and every bit stream decodes. */
module HuffmanProperties {
  import opened Bits
  import opened Haar
  import opened HuffmanCodec
  import opened HuffmanTable
  import opened HuffmanTree

  // ---------------------------------------------------------------- the codes in the tree

  /** Following `path` from `t` passes internal nodes only and ends at a node labelled `symbol`. */
  predicate LeadsTo(t: Tree, path: seq<bool>, symbol: int)
    decreases |path|
  {
    && t.Node? && path != []
    && var next := Child(t, path[0]);
      && next.Node?
      && if |path| == 1 then next.symbol == symbol
         else next.symbol == INTERNAL_SYMBOL && LeadsTo(next, path[1..], symbol)
  }

  lemma {:induction false} LeadsDownSpine(j: nat, i: nat, n: nat, tail: Tree, path: seq<bool>, symbol: int)
    requires j <= i <= n && path != []
    requires LeadsTo(Spine(i, n, tail), path, symbol)
    ensures LeadsTo(Spine(j, n, tail), Ones(i - j) + path, symbol)
    decreases i - j
  {
    var p := Ones(i - j) + path;
    if j == i {
      assert p == path;
    } else {
      LeadsDownSpine(j + 1, i, n, tail, path, symbol);
      assert p[1..] == Ones(i - j - 1) + path;
      assert Spine(j + 1, n, tail).Node? && Spine(j + 1, n, tail).symbol == INTERNAL_SYMBOL;
    }
  }

  lemma LeadsDownRows(i: nat, n: nat, tail: Tree, path: seq<bool>, symbol: int)
    requires 1 <= i <= n && path != []
    requires LeadsTo(Spine(i, n, tail), path, symbol)
    ensures LeadsTo(Rows(n, tail), Ones(i) + path, symbol)
  {
    LeadsDownSpine(1, i, n, tail, path, symbol);
    var p := Ones(i) + path;
    assert p[1..] == Ones(i - 1) + path;
    assert Spine(1, n, tail).Node? && Spine(1, n, tail).symbol == INTERNAL_SYMBOL;
  }

  lemma LeadsToRowEntry(i: nat, b: bool)
    requires 1 <= i <= 6
    ensures LeadsTo(Rows(6, Leaf(ESCAPE_SYMBOL)), Ones(i) + [false, b], if b then -4 - i else 4 + i)
  {
    var tail := Leaf(ESCAPE_SYMBOL);
    assert [false, b][1..] == [b];
    var pair := Spine(i, 6, tail).left;
    assert pair == Inner(Leaf(4 + i), Leaf(-4 - i));
    assert LeadsTo(pair, [b], if b then -4 - i else 4 + i);
    LeadsDownRows(i, 6, tail, [false, b], if b then -4 - i else 4 + i);
  }

  /** Each code of a table leads to its own leaf of the tree. */
  predicate CodesLead(table: Table, t: Tree) {
    forall k :: 0 <= k < |table| ==>
      LeadsTo(t, PathOf(table[k]), table[k].symbol) && table[k].symbol != INTERNAL_SYMBOL
  }

  lemma EscapeLeads()
    ensures LeadsTo(Rows(6, Leaf(ESCAPE_SYMBOL)), Ones(7), ESCAPE_SYMBOL)
  {
    var tail := Leaf(ESCAPE_SYMBOL);
    assert Spine(6, 6, tail).right == tail;
    assert LeadsTo(Spine(6, 6, tail), [true], ESCAPE_SYMBOL);
    LeadsDownRows(6, 6, tail, [true], ESCAPE_SYMBOL);
    assert Ones(6) + [true] == Ones(7);
  }

  lemma RowEntryLeads(e: Code, i: nat, b: nat)
    requires 1 <= i <= 6 && b < 2
    requires e == Code(if b == 1 then -4 - i else 4 + i, 4 * (Pow2(i) - 1) + b, i + 2)
    ensures LeadsTo(Rows(6, Leaf(ESCAPE_SYMBOL)), PathOf(e), e.symbol)
  {
    RowPath(e, i, b);
    LeadsToRowEntry(i, b == 1);
  }

  lemma StaticCodesLead()
    ensures CodesLead(PDM_STATIC_TABLE, DecodingTree(PDM_STATIC_TABLE))
  {
    FinishedTree();
    var table, t := PDM_STATIC_TABLE, Rows(6, Leaf(ESCAPE_SYMBOL));
    forall k | 0 <= k < |table|
      ensures LeadsTo(t, PathOf(table[k]), table[k].symbol) && table[k].symbol != INTERNAL_SYMBOL
    {
      StaticCodeLeads(k);
    }
  }

  lemma StaticCodeLeads(k: nat)
    requires k < |PDM_STATIC_TABLE|
    ensures var e := PDM_STATIC_TABLE[k];
      LeadsTo(Rows(6, Leaf(ESCAPE_SYMBOL)), PathOf(e), e.symbol) && e.symbol != INTERNAL_SYMBOL
  {
    var e := PDM_STATIC_TABLE[k];
    if k == 0 {
      assert PathOf(e) == [false] by { assert CodeBits(0, 1) == [false]; }
    } else if k == 13 {
      EscapePath();
      EscapeLeads();
    } else {
      TableRow((k + 1) / 2);
      RowEntryLeads(e, (k + 1) / 2, (k + 1) % 2);
    }
  }

  // ---------------------------------------------------------------- decoding what was encoded

  predicate HoldsAt(bits: seq<bool>, pos: nat, part: seq<bool>) {
    pos + |part| <= |bits| && bits[pos..pos + |part|] == part
  }

  lemma HoldsParts(bits: seq<bool>, pos: nat, x: seq<bool>, y: seq<bool>)
    ensures HoldsAt(bits, pos, x + y) <==> HoldsAt(bits, pos, x) && HoldsAt(bits, pos + |x|, y)
  {
    if pos + |x| + |y| <= |bits| {
      var all := bits[pos..pos + |x + y|];
      assert all[..|x|] == bits[pos..pos + |x|] && all[|x|..] == bits[pos + |x|..pos + |x| + |y|];
      assert (x + y)[..|x|] == x && (x + y)[|x|..] == y;
      assert all == all[..|x|] + all[|x|..];
    }
  }

  /** A path that lies in the bits is walked to its end. */
  lemma {:induction false} WalkPath(root: Tree, cur: Tree, bits: seq<bool>, pos: nat, max: nat, path: seq<bool>,
                                    symbol: int)
    requires root.Node? && max > 0 && LeadsTo(cur, path, symbol) && HoldsAt(bits, pos, path)
    requires symbol != INTERNAL_SYMBOL
    requires symbol == ESCAPE_SYMBOL ==> pos + |path| + 16 <= |bits|
    ensures DecodeFrom(root, cur, bits, pos, max) ==
      if symbol == ESCAPE_SYMBOL then
        Prefixed([RawAt(bits, pos + |path|)], |path| + 16,
          DecodeFrom(root, root, bits, pos + |path| + 16, max - 1))
      else Prefixed([symbol], |path|, DecodeFrom(root, root, bits, pos + |path|, max - 1))
    decreases |path|
  {
    assert bits[pos] == bits[pos..pos + |path|][0] == path[0];
    if |path| > 1 {
      assert bits[pos + 1..pos + |path|] == bits[pos..pos + |path|][1..] == path[1..];
      WalkPath(root, Child(cur, path[0]), bits, pos + 1, max, path[1..], symbol);
      if symbol == ESCAPE_SYMBOL {
        PrefixedTwice([], 1, [RawAt(bits, pos + |path|)], |path| + 15,
          DecodeFrom(root, root, bits, pos + |path| + 16, max - 1));
        assert [] + [RawAt(bits, pos + |path|)] == [RawAt(bits, pos + |path|)];
      } else {
        PrefixedTwice([], 1, [symbol], |path| - 1, DecodeFrom(root, root, bits, pos + |path|, max - 1));
        assert [] + [symbol] == [symbol];
      }
    }
  }

  lemma RawRoundTrip(bits: seq<bool>, pos: nat, symbol: int)
    requires Int16(symbol) && HoldsAt(bits, pos, CodeBits(ToUint16(symbol), 16))
    ensures RawAt(bits, pos) == symbol
  {
    Pow16();
    ValueOfCodeBits(ToUint16(symbol), 16);
  }

  /** One encoded symbol decodes to itself, unless it is the escape symbol. */
  lemma SymbolRoundTrip(table: Table, t: Tree, bits: seq<bool>, pos: nat, max: nat, symbol: int)
    requires HasEscape(table) && t.Node? && CodesLead(table, t)
    requires Int16(symbol) && symbol != ESCAPE_SYMBOL && max > 0
    requires HoldsAt(bits, pos, SymbolBits(table, symbol))
    ensures var len := |SymbolBits(table, symbol)|;
      Decode(t, bits, pos, max) == Prefixed([symbol], len, Decode(t, bits, pos + len, max - 1))
  {
    match FindFrom(table, symbol, 0)
    case Some(e) =>
      WalkPath(t, t, bits, pos, max, PathOf(e), symbol);
    case None =>
      var e := Escape(table);
      HoldsParts(bits, pos, PathOf(e), CodeBits(ToUint16(symbol), 16));
      RawRoundTrip(bits, pos + e.len, symbol);
      WalkPath(t, t, bits, pos, max, PathOf(e), ESCAPE_SYMBOL);
  }

  /** Decoding undoes encoding: wherever the code of a sequence without the escape symbol lies in the bits, the
      decoder delivers the sequence, reads exactly its code, and goes on behind it. */
  lemma {:induction false} RoundTrip(table: Table, t: Tree, bits: seq<bool>, pos: nat, symbols: seq<int>, more: nat)
    requires HasEscape(table) && t.Node? && CodesLead(table, t)
    requires AllInt16(symbols) && ESCAPE_SYMBOL !in symbols
    requires HoldsAt(bits, pos, EncodeBits(table, symbols))
    ensures var len := |EncodeBits(table, symbols)|;
      Decode(t, bits, pos, |symbols| + more) == Prefixed(symbols, len, Decode(t, bits, pos + len, more))
    decreases |symbols|
  {
    if symbols == [] {
      PrefixedNothing(Decode(t, bits, pos, more));
    } else {
      var n := |symbols| - 1;
      var front, last := symbols[..n], symbols[n];
      assert symbols == front + [last];
      EncodeBitsConcat(table, front, [last]);
      HoldsParts(bits, pos, EncodeBits(table, front), EncodeBits(table, [last]));
      RoundTrip(table, t, bits, pos, front, more + 1);
      LastRoundTrip(table, t, bits, pos, front, last, more);
      assert |symbols| + more == |front| + (more + 1);
    }
  }

  lemma LastRoundTrip(table: Table, t: Tree, bits: seq<bool>, pos: nat, front: seq<int>, last: int, more: nat)
    requires HasEscape(table) && t.Node? && CodesLead(table, t)
    requires AllInt16(front) && Int16(last) && last != ESCAPE_SYMBOL
    requires var x := EncodeBits(table, front);
      HoldsAt(bits, pos, x) && HoldsAt(bits, pos + |x|, EncodeBits(table, [last])) &&
      Decode(t, bits, pos, |front| + (more + 1)) == Prefixed(front, |x|, Decode(t, bits, pos + |x|, more + 1))
    ensures var x, y := EncodeBits(table, front), EncodeBits(table, [last]);
      Decode(t, bits, pos, |front| + (more + 1)) ==
        Prefixed(front + [last], |x| + |y|, Decode(t, bits, pos + |x| + |y|, more))
  {
    var x, y := EncodeBits(table, front), EncodeBits(table, [last]);
    EncodeBitsSingle(table, last);
    SymbolRoundTrip(table, t, bits, pos + |x|, more + 1, last);
    PrefixedTwice(front, |x|, [last], |y|, Decode(t, bits, pos + |x| + |y|, more));
  }
}
