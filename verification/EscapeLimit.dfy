/** Exactly which sequences survive the coder: those without the escape symbol. Into a clear buffer the encoder
    writes fewer ones than any reading of a sequence with the escape symbol would need. */
module EscapeLimit {
  import opened Bits
  import opened Haar
  import opened HuffmanCodec
  import opened HuffmanProperties
  import opened HuffmanTable
  import opened HuffmanTree
  import opened Options

  /** The number of ones. */
  function Weight(bits: seq<bool>): nat {
    if bits == [] then 0 else Weight(bits[..|bits| - 1]) + (if bits[|bits| - 1] then 1 else 0)
  }

  lemma {:induction false} WeightConcat(a: seq<bool>, b: seq<bool>)
    ensures Weight(a + b) == Weight(a) + Weight(b)
    decreases |b|
  {
    if b == [] {
      assert a + b == a;
    } else {
      assert (a + b)[..|a + b| - 1] == a + b[..|b| - 1];
      WeightConcat(a, b[..|b| - 1]);
    }
  }

  lemma WeightSlices(bits: seq<bool>, i: nat, j: nat, k: nat)
    requires i <= j <= k <= |bits|
    ensures Weight(bits[i..k]) == Weight(bits[i..j]) + Weight(bits[j..k])
  {
    assert bits[i..k] == bits[i..j] + bits[j..k];
    WeightConcat(bits[i..j], bits[j..k]);
  }

  lemma {:induction false} WeightZero(bits: seq<bool>)
    requires ZeroFrom(bits, 0)
    ensures Weight(bits) == 0
  {
    if bits != [] {
      WeightZero(bits[..|bits| - 1]);
    }
  }

  lemma {:induction false} WeightOnes(n: nat)
    ensures Weight(Ones(n)) == n
  {
    if n > 0 {
      WeightOnes(n - 1);
      WeightConcat(Ones(n - 1), [true]);
      assert [true][..0] == [];
    }
  }

  // ---------------------------------------------------------------- tables and trees

  /** No code has more ones than the escape code. */
  predicate EscapeHeaviest(table: Table)
    requires HasEscape(table)
  {
    forall k :: 0 <= k < |table| ==> Weight(PathOf(table[k])) <= Weight(PathOf(Escape(table)))
  }

  /** The ones a decoder must read to deliver a symbol: those the encoder writes for it, and for the escape
      symbol at least one more. */
  function Needs(table: Table, x: int): nat
    requires HasEscape(table)
  {
    if Int16(x) then Weight(SymbolBits(table, x)) + (if x == ESCAPE_SYMBOL then 1 else 0) else 0
  }

  lemma EscapePatternWeight()
    ensures Weight(CodeBits(ESCAPE_SYMBOL, 16)) >= 1
  {
    assert CodeBits(ESCAPE_SYMBOL, 16) == CodeBits(16383, 15) + [true];
    WeightConcat(CodeBits(16383, 15), [true]);
    assert [true][..0] == [];
  }

  /** A raw symbol behind an escape code has the ones needed for it. */
  lemma RawWeight(table: Table, raw: seq<bool>)
    requires HasEscape(table) && EscapeHeaviest(table) && |raw| == 16
    ensures Value(raw) < 65536
    ensures Needs(table, FromUint16(Value(raw))) <= Weight(PathOf(Escape(table))) + Weight(raw)
  {
    RawFits(raw);
    CodeBitsOfValue(raw);
    var x := FromUint16(Value(raw));
    var code := CodeBits(ToUint16(x), 16);
    assert code == raw;
    match FindFrom(table, x, 0)
    case Some(e) =>
      var k :| 0 <= k < |table| && table[k] == e;
      if x == ESCAPE_SYMBOL {
        EscapePatternWeight();
      }
    case None =>
      WeightConcat(PathOf(Escape(table)), code);
  }

  lemma {:induction false} CodeBitsOfValue(bits: seq<bool>)
    ensures CodeBits(Value(bits), |bits|) == bits
  {
    if bits != [] {
      CodeBitsOfValue(bits[..|bits| - 1]);
    }
  }

  // ---------------------------------------------------------------- what decoding reads

  /** The ones among the bits from `i` to `j`. */
  function CountIn(bits: seq<bool>, i: nat, j: nat): nat
    requires i <= j <= |bits|
    decreases j - i
  {
    if i == j then 0 else (if bits[i] then 1 else 0) + CountIn(bits, i + 1, j)
  }

  lemma {:induction false} CountIsWeight(bits: seq<bool>, i: nat, j: nat)
    requires i <= j <= |bits|
    ensures CountIn(bits, i, j) == Weight(bits[i..j])
    decreases j - i
  {
    if i < j {
      CountIsWeight(bits, i + 1, j);
      assert bits[i..j] == [bits[i]] + bits[i + 1..j];
      WeightConcat([bits[i]], bits[i + 1..j]);
      assert [bits[i]][..0] == [];
    }
  }

  lemma CountParts(bits: seq<bool>, i: nat, j: nat, k: nat)
    requires i <= j <= k <= |bits|
    ensures CountIn(bits, i, k) == CountIn(bits, i, j) + CountIn(bits, j, k)
  {
    CountIsWeight(bits, i, j);
    CountIsWeight(bits, j, k);
    CountIsWeight(bits, i, k);
    WeightSlices(bits, i, j, k);
  }

  lemma CountSome(bits: seq<bool>, i: nat, j: nat)
    requires i <= j <= |bits|
    ensures CountIn(bits, i, j) <= Weight(bits[i..])
  {
    CountParts(bits, i, j, |bits|);
    CountIsWeight(bits, i, |bits|);
    assert bits[i..|bits|] == bits[i..];
  }

  function Total(need: int -> nat, symbols: seq<int>): nat {
    if symbols == [] then 0 else need(symbols[0]) + Total(need, symbols[1..])
  }

  /** Every leaf is reached by the ones its symbol needs, an escape leaf by `e` ones; `w` ones lie above. */
  predicate LeavesWeigh(need: int -> nat, e: nat, t: Tree, w: nat) {
    t.Node? &&
    if t.symbol == INTERNAL_SYMBOL then LeavesWeigh(need, e, t.left, w) && LeavesWeigh(need, e, t.right, w + 1)
    else t.left.Nil? && t.right.Nil? && (if t.symbol == ESCAPE_SYMBOL then e <= w else need(t.symbol) <= w)
  }

  /** Sixteen raw bits and `e` ones before them suffice for the symbol they spell. */
  predicate RawSuffices(need: int -> nat, e: nat, raw: seq<bool>)
    requires |raw| == 16
  {
    Value(raw) < 65536 && need(FromUint16(Value(raw))) <= e + Weight(raw)
  }

  /** One step of the decoder to the node `next` takes `k` bits and delivers `got`. */
  predicate Stepping(next: Tree, bits: seq<bool>, pos: nat, k: nat, got: seq<int>) {
    && next.Node? && pos + k <= |bits|
    && if next.symbol == INTERNAL_SYMBOL then k == 1 && got == []
       else if next.symbol == ESCAPE_SYMBOL then k == 17 && got == [RawAt(bits, pos + 1)]
       else k == 1 && got == [next.symbol]
  }

  lemma StepDecodes(root: Tree, cur: Tree, bits: seq<bool>, pos: nat, max: nat, k: nat, got: seq<int>)
    requires root.Node? && cur.Node? && pos < |bits| && max > 0 && Stepping(Child(cur, bits[pos]), bits, pos, k, got)
    ensures var next := Child(cur, bits[pos]);
      var rest := DecodeFrom(root, if next.symbol == INTERNAL_SYMBOL then next else root, bits, pos + k, max - |got|);
      DecodeFrom(root, cur, bits, pos, max) == Decoded(got + rest.symbols, k + rest.used, rest.status)
  {
  }

  /** The ones above a leaf, and those of raw bits, suffice for its symbol. */
  lemma StepWeighs(need: int -> nat, e: nat, next: Tree, w: nat, bits: seq<bool>, pos: nat, k: nat, got: seq<int>)
    requires Stepping(next, bits, pos, k, got) && LeavesWeigh(need, e, next, w)
    requires k == 17 ==> RawSuffices(need, e, bits[pos + 1..pos + 17])
    ensures Total(need, got) <= (if next.symbol == INTERNAL_SYMBOL then 0 else w) + CountIn(bits, pos + 1, pos + k)
  {
    if next.symbol == ESCAPE_SYMBOL {
      CountIsWeight(bits, pos + 1, pos + 17);
    }
    if got != [] {
      TotalSingle(need, got[0]);
    }
  }

  lemma WeightAdds(need: int -> nat, bits: seq<bool>, pos: nat, k: nat, end: nat, got: seq<int>, rest: seq<int>, w: nat,
                   w': nat)
    requires 1 <= k && pos + k <= end <= |bits|
    requires Total(need, got) + w' <= w + (if bits[pos] then 1 else 0) + CountIn(bits, pos + 1, pos + k)
    requires Total(need, rest) <= w' + CountIn(bits, pos + k, end)
    ensures Total(need, got + rest) <= w + CountIn(bits, pos, end)
  {
    TotalConcat(need, got, rest);
    CountParts(bits, pos + 1, pos + k, end);
  }

  ghost predicate RawsSuffice(need: int -> nat, e: nat) {
    forall raw: seq<bool> {:trigger RawSuffices(need, e, raw)} :: |raw| == 16 ==> RawSuffices(need, e, raw)
  }

  lemma FirstStep(need: int -> nat, e: nat, root: Tree, cur: Tree, w: nat, bits: seq<bool>, pos: nat, max: nat)
    returns (k: nat, got: seq<int>, at: Tree, w': nat)
    requires RawsSuffice(need, e) && LeavesWeigh(need, e, root, 0) && root.symbol == INTERNAL_SYMBOL
    requires LeavesWeigh(need, e, cur, w) && cur.symbol == INTERNAL_SYMBOL
    requires max > 0 && pos <= |bits| && DecodeFrom(root, cur, bits, pos, max).status == 0
    ensures 1 <= k && pos + k <= |bits| && |got| <= max
    ensures LeavesWeigh(need, e, at, w') && at.symbol == INTERNAL_SYMBOL
    ensures Total(need, got) + w' <= w + (if bits[pos] then 1 else 0) + CountIn(bits, pos + 1, pos + k)
    ensures var rest := DecodeFrom(root, at, bits, pos + k, max - |got|);
      rest.status == 0 && DecodeFrom(root, cur, bits, pos, max) == Decoded(got + rest.symbols, k + rest.used, 0)
  {
    var next := Child(cur, bits[pos]);
    var above := if bits[pos] then w + 1 else w;
    k, got, at, w' := 1, [next.symbol], root, 0;
    if next.symbol == INTERNAL_SYMBOL {
      got, at, w' := [], next, above;
    } else if next.symbol == ESCAPE_SYMBOL {
      k, got := 17, [RawAt(bits, pos + 1)];
      assert RawSuffices(need, e, bits[pos + 1..pos + 17]);
    }
    StepDecodes(root, cur, bits, pos, max, k, got);
    StepWeighs(need, e, next, above, bits, pos, k, got);
  }

  /** Whatever the decoder delivers, it has read the ones needed for it. */
  lemma {:induction false} DecodedWeight(need: int -> nat, e: nat, root: Tree, cur: Tree, w: nat, bits: seq<bool>,
                                         pos: nat, max: nat)
    requires RawsSuffice(need, e) && LeavesWeigh(need, e, root, 0) && root.symbol == INTERNAL_SYMBOL
    requires LeavesWeigh(need, e, cur, w) && cur.symbol == INTERNAL_SYMBOL
    requires pos <= |bits| && DecodeFrom(root, cur, bits, pos, max).status == 0
    ensures var d := DecodeFrom(root, cur, bits, pos, max);
      Total(need, d.symbols) <= w + CountIn(bits, pos, pos + d.used)
    decreases |bits| - pos
  {
    if max > 0 {
      var k, got, at, w' := FirstStep(need, e, root, cur, w, bits, pos, max);
      var rest := DecodeFrom(root, at, bits, pos + k, max - |got|);
      DecodedWeight(need, e, root, at, w', bits, pos + k, max - |got|);
      WeightAdds(need, bits, pos, k, pos + k + rest.used, got, rest.symbols, w, w');
    }
  }

  lemma TotalSingle(need: int -> nat, x: int)
    ensures Total(need, [x]) == need(x)
  {
    assert [x][1..] == [];
  }

  lemma {:induction false} TotalConcat(need: int -> nat, a: seq<int>, b: seq<int>)
    ensures Total(need, a + b) == Total(need, a) + Total(need, b)
    decreases |a|
  {
    if a == [] {
      assert a + b == b;
    } else {
      assert (a + b)[1..] == a[1..] + b;
      TotalConcat(need, a[1..], b);
    }
  }

  lemma OneMoreNeeds(table: Table, front: seq<int>, last: int, need: int -> nat)
    requires HasEscape(table) && AllInt16(front) && Int16(last) && need(last) == Needs(table, last)
    ensures Weight(EncodeBits(table, front + [last])) + (if last == ESCAPE_SYMBOL then 1 else 0) - need(last) <=
      Weight(EncodeBits(table, front))
    ensures Total(need, front + [last]) == Total(need, front) + need(last)
  {
    EncodeBitsConcat(table, front, [last]);
    EncodeBitsSingle(table, last);
    WeightConcat(EncodeBits(table, front), SymbolBits(table, last));
    TotalConcat(need, front, [last]);
    TotalSingle(need, last);
  }

  /** Delivering `symbols` needs at least the ones the encoder writes, and more if the escape is among them. */
  lemma {:induction false} TotalNeeds(table: Table, symbols: seq<int>, need: int -> nat)
    requires HasEscape(table) && AllInt16(symbols)
    requires forall x :: need(x) == Needs(table, x)
    ensures Total(need, symbols) >=
      Weight(EncodeBits(table, symbols)) + (if ESCAPE_SYMBOL in symbols then 1 else 0)
    decreases |symbols|
  {
    if symbols == [] {
      assert EncodeBits(table, symbols) == [];
    } else {
      var n := |symbols| - 1;
      var front, last := symbols[..n], symbols[n];
      assert symbols == front + [last];
      TotalNeeds(table, front, need);
      OneMoreNeeds(table, front, last, need);
    }
  }

  lemma Behind(x: seq<bool>, y: seq<bool>, z: seq<bool>)
    ensures (x + y + z)[|x|..] == y + z
    ensures (x + y + z)[|x|..|x| + |y|] == y
  {
  }

  /** The bits of a clear stretch with `code` written into it: everything from `at` on is the code's ones. */
  lemma ClearWeight(before: seq<bool>, at: nat, code: seq<bool>)
    requires at + |code| <= |before| && ZeroFrom(before, at)
    ensures HoldsAt(OrInto(before, at, code), at, code)
    ensures Weight(OrInto(before, at, code)[at..]) == Weight(code)
  {
    var bits := OrInto(before, at, code);
    OrIntoClear(before, at, code);
    var tail := before[at + |code|..];
    Behind(before[..at], code, tail);
    assert ZeroFrom(tail, 0);
    WeightZero(tail);
    WeightConcat(code, tail);
  }

  function NeedsOf(table: Table): int -> nat
    requires HasEscape(table)
  {
    x => Needs(table, x)
  }

  /** The escape code is the heaviest, and every leaf is reached by the ones its symbol needs. */
  predicate Weighed(table: Table, t: Tree)
    requires HasEscape(table)
  {
    && EscapeHeaviest(table)
    && LeavesWeigh(NeedsOf(table), Weight(PathOf(Escape(table))), t, 0)
    && t.symbol == INTERNAL_SYMBOL
  }

  /** A decoder cannot deliver more than the ones left in the bits allow. */
  lemma DeliveredWeight(need: int -> nat, e: nat, t: Tree, bits: seq<bool>, at: nat, max: nat)
    requires RawsSuffice(need, e) && LeavesWeigh(need, e, t, 0) && t.symbol == INTERNAL_SYMBOL
    requires at <= |bits| && Decode(t, bits, at, max).status == 0
    ensures Total(need, Decode(t, bits, at, max).symbols) <= Weight(bits[at..])
  {
    DecodedWeight(need, e, t, t, 0, bits, at, max);
    CountSome(bits, at, at + Decode(t, bits, at, max).used);
  }

  /** The coder's exact limit: a sequence encoded into a clear stretch decodes to itself if and only if it does
      not contain the escape symbol. */
  lemma SurvivesExactlyWhen(table: Table, t: Tree, before: seq<bool>, at: nat, symbols: seq<int>)
    requires HasEscape(table) && Weighed(table, t) && CodesLead(table, t)
    requires AllInt16(symbols) && at + |EncodeBits(table, symbols)| <= |before| && ZeroFrom(before, at)
    ensures var code := EncodeBits(table, symbols);
      var d := Decode(t, OrInto(before, at, code), at, |symbols|);
      && (d.status == 0 && d.symbols == symbols <==> ESCAPE_SYMBOL !in symbols)
      && (ESCAPE_SYMBOL !in symbols ==> d == Decoded(symbols, |code|, 0))
  {
    var code := EncodeBits(table, symbols);
    var bits := OrInto(before, at, code);
    ClearWeight(before, at, code);
    var d := Decode(t, bits, at, |symbols|);
    if ESCAPE_SYMBOL !in symbols {
      RoundTrip(table, t, bits, at, symbols, 0);
      assert symbols + [] == symbols;
    } else {
      var need, e := NeedsOf(table), Weight(PathOf(Escape(table)));
      forall raw: seq<bool> {:trigger RawSuffices(need, e, raw)} | |raw| == 16
        ensures RawSuffices(need, e, raw)
      {
        RawWeight(table, raw);
      }
      TotalNeeds(table, symbols, need);
      if d.status == 0 {
        DeliveredWeight(need, e, t, bits, at, |symbols|);
      }
    }
  }

  // ---------------------------------------------------------------- the static table

  lemma EntryWeight(e: Code, i: nat, b: nat)
    requires b < 2 && e.value == 4 * (Pow2(i) - 1) + b && e.len == i + 2
    ensures Weight(PathOf(e)) == i + b
  {
    RowPath(e, i, b);
    WeightOnes(i);
    WeightConcat(Ones(i), [false, b == 1]);
    assert [false, b == 1] == [false] + [b == 1];
    WeightConcat([false], [b == 1]);
    assert [false][..0] == [] && [b == 1][..0] == [];
  }

  /** The symbol of entry `k` of the static table, and the ones in its code. */
  function StaticSymbol(k: nat): int {
    if k == 0 then 0 else if k == 13 then ESCAPE_SYMBOL else if k % 2 == 1 then 4 + (k + 1) / 2 else -4 - k / 2
  }

  function StaticOnes(k: nat): nat {
    if k == 0 then 0 else if k == 13 then 7 else if k % 2 == 1 then (k + 1) / 2 else k / 2 + 1
  }

  lemma StaticSymbolAt(k: nat)
    requires k < |PDM_STATIC_TABLE|
    ensures PDM_STATIC_TABLE[k].symbol == StaticSymbol(k)
  {
    if 0 < k < 13 {
      TableRow((k + 1) / 2);
    }
  }

  lemma StaticWeightAt(k: nat)
    requires k < |PDM_STATIC_TABLE|
    ensures Weight(PathOf(PDM_STATIC_TABLE[k])) == StaticOnes(k)
  {
    if k == 0 {
      FirstWeight();
    } else if k == 13 {
      EscapePath();
      WeightOnes(7);
    } else {
      TableRow((k + 1) / 2);
      EntryWeight(PDM_STATIC_TABLE[k], (k + 1) / 2, (k + 1) % 2);
    }
  }

  lemma FirstWeight()
    ensures Weight(PathOf(PDM_STATIC_TABLE[0])) == 0
  {
    assert CodeBits(0, 1) == [false];
    assert [false][..0] == [];
  }

  predicate DistinctSymbols(table: Table) {
    forall j, k :: 0 <= j < |table| && 0 <= k < |table| && table[j].symbol == table[k].symbol ==> j == k
  }

  lemma FoundAgain(table: Table, k: nat)
    requires k < |table| && DistinctSymbols(table)
    ensures FindFrom(table, table[k].symbol, 0) == Some(table[k])
  {
    var r := FindFrom(table, table[k].symbol, 0);
    if r.Some? {
      var j :| 0 <= j < |table| && table[j] == r.value;
    }
  }

  lemma StaticDistinct()
    ensures DistinctSymbols(PDM_STATIC_TABLE)
  {
    forall j, k | 0 <= j < |PDM_STATIC_TABLE| && 0 <= k < |PDM_STATIC_TABLE|
      && PDM_STATIC_TABLE[j].symbol == PDM_STATIC_TABLE[k].symbol
      ensures j == k
    {
      StaticSymbolAt(j);
      StaticSymbolAt(k);
    }
  }

  /** What entry `k` of the static table needs. */
  lemma StaticNeeds(k: nat, symbol: int, ones: nat)
    requires k < 13 && symbol == StaticSymbol(k) && ones == StaticOnes(k)
    ensures HasEscape(PDM_STATIC_TABLE) && Needs(PDM_STATIC_TABLE, symbol) == ones
  {
    StaticEscape();
    StaticSymbolAt(k);
    StaticWeightAt(k);
    StaticDistinct();
    FoundAgain(PDM_STATIC_TABLE, k);
  }

  /** Row `i` of the table needs no more ones than its codes have. */
  predicate RowNeeds(need: int -> nat, i: nat) {
    need(4 + i) <= i && need(-4 - i) <= i + 1
  }

  lemma {:induction false} SpineWeighs(need: int -> nat, j: nat)
    requires 1 <= j <= 7
    requires forall i: nat {:trigger RowNeeds(need, i)} :: 1 <= i <= 6 ==> RowNeeds(need, i)
    ensures LeavesWeigh(need, 7, Spine(j, 6, Leaf(ESCAPE_SYMBOL)), j)
    decreases 7 - j
  {
    if j <= 6 {
      SpineWeighs(need, j + 1);
      assert RowNeeds(need, j);
      assert LeavesWeigh(need, 7, Leaf(4 + j), j) && LeavesWeigh(need, 7, Leaf(-4 - j), j + 1);
      assert LeavesWeigh(need, 7, Inner(Leaf(4 + j), Leaf(-4 - j)), j);
    }
  }

  lemma StaticEscape()
    ensures HasEscape(PDM_STATIC_TABLE) && Escape(PDM_STATIC_TABLE) == PDM_STATIC_TABLE[13]
    ensures EscapeHeaviest(PDM_STATIC_TABLE)
  {
    StaticDistinct();
    StaticSymbolAt(13);
    StaticWeightAt(13);
    FoundAgain(PDM_STATIC_TABLE, 13);
    forall k | 0 <= k < |PDM_STATIC_TABLE|
      ensures Weight(PathOf(PDM_STATIC_TABLE[k])) <= 7
    {
      StaticWeightAt(k);
    }
  }

  lemma RowsWeigh(need: int -> nat)
    requires forall i: nat {:trigger RowNeeds(need, i)} :: 1 <= i <= 6 ==> RowNeeds(need, i)
    requires need(0) == 0
    ensures LeavesWeigh(need, 7, Rows(6, Leaf(ESCAPE_SYMBOL)), 0)
  {
    SpineWeighs(need, 1);
    assert LeavesWeigh(need, 7, Leaf(0), 0);
  }

  lemma RowNeedsIntro(table: Table, i: nat)
    requires HasEscape(table) && Needs(table, 4 + i) == i && Needs(table, -4 - i) == i + 1
    ensures RowNeeds(NeedsOf(table), i)
  {
  }

  lemma StaticRowSymbols(i: nat)
    requires 1 <= i <= 6
    ensures StaticSymbol(2 * i - 1) == 4 + i && StaticOnes(2 * i - 1) == i
    ensures StaticSymbol(2 * i) == -4 - i && StaticOnes(2 * i) == i + 1
  {
  }

  lemma StaticRowNeeds(i: nat)
    requires 1 <= i <= 6
    ensures HasEscape(PDM_STATIC_TABLE)
    ensures RowNeeds(NeedsOf(PDM_STATIC_TABLE), i)
  {
    StaticRowSymbols(i);
    StaticNeeds(2 * i - 1, 4 + i, i);
    StaticNeeds(2 * i, -4 - i, i + 1);
    RowNeedsIntro(PDM_STATIC_TABLE, i);
  }

  lemma StaticWeighed()
    ensures HasEscape(PDM_STATIC_TABLE)
    ensures Weighed(PDM_STATIC_TABLE, DecodingTree(PDM_STATIC_TABLE))
  {
    StaticEscape();
    StaticWeightAt(13);
    FinishedTree();
    var need := NeedsOf(PDM_STATIC_TABLE);
    forall i: nat {:trigger RowNeeds(need, i)} | 1 <= i <= 6
      ensures RowNeeds(need, i)
    {
      StaticRowNeeds(i);
    }
    StaticNeeds(0, 0, 0);
    RowsWeigh(need);
  }

  /** So it is with the table and the tree of the program. */
  lemma StaticSurvivesExactlyWhen(before: seq<bool>, at: nat, symbols: seq<int>)
    requires AllInt16(symbols) && ZeroFrom(before, at) && at + |StaticBits(symbols)| <= |before|
    ensures DecodingTree(PDM_STATIC_TABLE).Node?
    ensures var code := StaticBits(symbols);
      var d := Decode(DecodingTree(PDM_STATIC_TABLE), OrInto(before, at, code), at, |symbols|);
      && (d.status == 0 && d.symbols == symbols <==> ESCAPE_SYMBOL !in symbols)
      && (ESCAPE_SYMBOL !in symbols ==> d == Decoded(symbols, |code|, 0))
  {
    StaticWeighed();
    StaticCodesLead();
    SurvivesExactlyWhen(PDM_STATIC_TABLE, DecodingTree(PDM_STATIC_TABLE), before, at, symbols);
  }

  /** What the coder loses, on the smallest input: the escape symbol alone is written as a bare escape code, and
      comes back as the sixteen bits behind it. */
  lemma EscapeLost(table: Table, t: Tree, before: seq<bool>)
    requires HasEscape(table) && t.Node? && CodesLead(table, t)
    requires |before| >= Escape(table).len + 16 && ZeroFrom(before, 0)
    ensures EncodeBits(table, [ESCAPE_SYMBOL]) == PathOf(Escape(table))
    ensures Decode(t, OrInto(before, 0, PathOf(Escape(table))), 0, 1) == Decoded([0], Escape(table).len + 16, 0)
  {
    var e := Escape(table);
    var bits := OrInto(before, 0, PathOf(e));
    EncodeBitsSingle(table, ESCAPE_SYMBOL);
    ClearWeight(before, 0, PathOf(e));
    WalkPath(t, t, bits, 0, 1, PathOf(e), ESCAPE_SYMBOL);
    OrIntoClear(before, 0, PathOf(e));
    ZeroValue(bits[e.len..e.len + 16]);
  }

  lemma {:induction false} ZeroValue(bits: seq<bool>)
    requires ZeroFrom(bits, 0)
    ensures Value(bits) == 0
  {
    if bits != [] {
      ZeroValue(bits[..|bits| - 1]);
    }
  }
}
