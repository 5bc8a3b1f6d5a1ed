/** Every bit stream decodes: the decoder delivers what it is asked for or runs out of bits, within a known
    number of bits, and looks at no others. */
module DecodingProperties {
  import opened HuffmanCodec
  import opened HuffmanTable
  import opened HuffmanTree
  import opened Rounding
  import opened Sequences

  /** Every node is a leaf with a symbol, or internal with two children. */
  predicate Full(t: Tree) {
    t.Node? &&
    if t.symbol == INTERNAL_SYMBOL then Full(t.left) && Full(t.right) else t.left.Nil? && t.right.Nil?
  }

  /** The most bits from a node to the end of a symbol. */
  function Cost(t: Tree): nat {
    if t.Nil? then 0
    else if t.symbol == INTERNAL_SYMBOL then 1 + Max(Cost(t.left), Cost(t.right))
    else if t.symbol == ESCAPE_SYMBOL then 16
    else 0
  }

  predicate Complete(t: Tree) {
    Full(t) && t.symbol == INTERNAL_SYMBOL
  }

  lemma {:induction false} SpineComplete(j: nat)
    requires 1 <= j <= 7
    ensures Full(Spine(j, 6, Leaf(ESCAPE_SYMBOL))) && Cost(Spine(j, 6, Leaf(ESCAPE_SYMBOL))) == 23 - j
    decreases 7 - j
  {
    if j <= 6 {
      SpineComplete(j + 1);
    }
  }

  /** The static table's tree is complete, and no symbol takes more than 23 bits. */
  lemma StaticTreeComplete()
    ensures Complete(DecodingTree(PDM_STATIC_TABLE)) && Cost(DecodingTree(PDM_STATIC_TABLE)) == 23
  {
    FinishedTree();
    SpineComplete(1);
  }

  /** The bits `max` symbols may take from a node. */
  function Budget(root: Tree, cur: Tree, max: nat): nat {
    if max == 0 then 0 else Cost(cur) + Cost(root) * (max - 1)
  }

  /** In a complete tree no bit stream is invalid: the decoder delivers all the symbols asked for, or has used
      up the bits; it delivers them whenever their budget of bits is there. */
  lemma {:induction false} DecoderDelivers(root: Tree, cur: Tree, bits: seq<bool>, pos: nat, max: nat)
    requires Complete(root) && Complete(cur) && pos <= |bits|
    ensures var d := DecodeFrom(root, cur, bits, pos, max);
      && (d.status == 0 || d.status == -1)
      && (d.status == 0 <==> |d.symbols| == max)
      && (d.status == -1 ==> pos + d.used == |bits|)
      && d.used <= Budget(root, cur, max)
      && (pos + Budget(root, cur, max) <= |bits| ==> d.status == 0)
    decreases |bits| - pos
  {
    if max > 0 && pos < |bits| {
      var next := Child(cur, bits[pos]);
      assert Full(next) && Cost(next) + 1 <= Cost(cur);
      if next.symbol == INTERNAL_SYMBOL {
        DecoderDelivers(root, next, bits, pos + 1, max);
      } else {
        BudgetNext(root, max);
        if next.symbol != ESCAPE_SYMBOL {
          DecoderDelivers(root, root, bits, pos + 1, max - 1);
        } else if pos + 17 <= |bits| {
          DecoderDelivers(root, root, bits, pos + 17, max - 1);
        }
      }
    }
  }

  lemma BudgetNext(root: Tree, max: nat)
    requires max > 0
    ensures Budget(root, root, max - 1) == Cost(root) * (max - 1)
  {
    if max > 1 {
      assert Cost(root) * (max - 1) == Cost(root) + Cost(root) * (max - 2);
    }
  }

  predicate Agree(a: seq<bool>, p: nat, b: seq<bool>, q: nat, len: nat)
    requires p + len <= |a| && q + len <= |b|
  {
    a[p..p + len] == b[q..q + len]
  }

  lemma AgreePart(a: seq<bool>, p: nat, b: seq<bool>, q: nat, len: nat, j: nat, k: nat)
    requires j <= k <= len && p + len <= |a| && q + len <= |b| && Agree(a, p, b, q, len)
    ensures Agree(a, p + j, b, q + j, k - j)
    ensures j < k ==> a[p + j] == b[q + j]
  {
    var x, y := a[p..p + len], b[q..q + len];
    SliceOfSlice(a, p, p + len, j, k);
    SliceOfSlice(b, q, q + len, j, k);
    if j < k {
      assert x[j] == a[p + j] && y[j] == b[q + j];
    }
  }

  /** What agrees in one step of the decoder, and behind it. */
  lemma AgreeBehind(a: seq<bool>, p: nat, b: seq<bool>, q: nat, len: nat, k: nat)
    requires (k == 1 || k == 17) && k <= len && p + len <= |a| && q + len <= |b| && Agree(a, p, b, q, len)
    ensures a[p] == b[q] && (k == 17 ==> RawAt(a, p + 1) == RawAt(b, q + 1))
    ensures Agree(a, p + k, b, q + k, len - k)
  {
    AgreePart(a, p, b, q, len, 0, 1);
    AgreePart(a, p, b, q, len, k, len);
    if k == 17 {
      AgreePart(a, p, b, q, len, 1, 17);
    }
  }

  /** The same step on both sides, and the same from there. */
  lemma SameStep(root: Tree, cur: Tree, a: seq<bool>, p: nat, b: seq<bool>, q: nat, max: nat, at: Tree, n: nat, k: nat)
    requires root.Node? && cur.Node? && at.Node? && max > 0
    requires p + k <= |a| && q + k <= |b| && k > 0 && a[p] == b[q] && Child(cur, a[p]).Node?
    requires var next := Child(cur, a[p]);
      if next.symbol == INTERNAL_SYMBOL then at == next && n == max && k == 1
      else if next.symbol == ESCAPE_SYMBOL then at == root && n == max - 1 && k == 17 && RawAt(a, p + 1) == RawAt(b, q + 1)
      else at == root && n == max - 1 && k == 1
    requires DecodeFrom(root, at, a, p + k, n) == DecodeFrom(root, at, b, q + k, n)
    ensures DecodeFrom(root, cur, b, q, max) == DecodeFrom(root, cur, a, p, max)
  {
  }

  /** What the decoder delivers depends on the bits it reads and on no others. */
  lemma {:induction false} DecoderReadsOnly(root: Tree, cur: Tree, a: seq<bool>, p: nat, b: seq<bool>, q: nat,
                                            max: nat)
    requires root.Node? && cur.Node? && p <= |a| && q <= |b|
    requires var d := DecodeFrom(root, cur, a, p, max);
      d.status == 0 && q + d.used <= |b| && Agree(a, p, b, q, d.used)
    ensures DecodeFrom(root, cur, b, q, max) == DecodeFrom(root, cur, a, p, max)
    decreases |a| - p
  {
    if max > 0 {
      var used := DecodeFrom(root, cur, a, p, max).used;
      var next := Child(cur, a[p]);
      var at := if next.symbol == INTERNAL_SYMBOL then next else root;
      var n := if next.symbol == INTERNAL_SYMBOL then max else max - 1;
      var k := if next.symbol == ESCAPE_SYMBOL then 17 else 1;
      AgreeBehind(a, p, b, q, used, k);
      DecoderReadsOnly(root, at, a, p + k, b, q + k, n);
      SameStep(root, cur, a, p, b, q, max, at, n, k);
    }
  }

  /** Decoding in two turns is decoding at once. */
  lemma {:induction false} DecodeInTurns(root: Tree, cur: Tree, bits: seq<bool>, pos: nat, n: nat, more: nat)
    requires root.Node? && cur.Node? && pos <= |bits|
    requires n == 0 ==> cur == root
    requires DecodeFrom(root, cur, bits, pos, n).status == 0
    ensures var d := DecodeFrom(root, cur, bits, pos, n);
      DecodeFrom(root, cur, bits, pos, n + more) ==
        Prefixed(d.symbols, d.used, Decode(root, bits, pos + d.used, more))
    decreases |bits| - pos
  {
    if n == 0 {
      PrefixedNothing(Decode(root, bits, pos, more));
    } else {
      var next := Child(cur, bits[pos]);
      var step := if next.symbol == INTERNAL_SYMBOL then []
        else if next.symbol == ESCAPE_SYMBOL then [RawAt(bits, pos + 1)] else [next.symbol];
      var at := if next.symbol == INTERNAL_SYMBOL then next else root;
      var k := if next.symbol == ESCAPE_SYMBOL then 17 else 1;
      var n' := n - |step|;
      DecodeInTurns(root, at, bits, pos + k, n', more);
      var d := DecodeFrom(root, at, bits, pos + k, n');
      PrefixedTwice(step, k, d.symbols, d.used, Decode(root, bits, pos + k + d.used, more));
    }
  }
}
