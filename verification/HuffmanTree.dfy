/** The decoding tree: as a value, and as the linked nodes the source builds. */
module HuffmanTree {
  import opened Bits
  import opened Haar
  import opened HuffmanTable
  import opened Options

  datatype Tree = Nil | Node(symbol: int, left: Tree, right: Tree)

  const EMPTY := Node(INTERNAL_SYMBOL, Nil, Nil)

  function Child(t: Tree, bit: bool): Tree
    requires t.Node?
  {
    if bit then t.right else t.left
  }

  /** The subtree at the end of a path; Nil when the path leaves the tree. */
  function At(t: Tree, path: seq<bool>): Tree {
    if path == [] || t.Nil? then t else At(Child(t, path[0]), path[1..])
  }

  /** The tree with a node at every point of `path`; new ones are internal. */
  function Extend(t: Tree, path: seq<bool>): (r: Tree)
    ensures r.Node?
    decreases |path|
  {
    var n := if t.Nil? then EMPTY else t;
    if path == [] then n
    else if path[0] then n.(right := Extend(n.right, path[1..]))
    else n.(left := Extend(n.left, path[1..]))
  }

  /** The tree with a node at every point of `path` and `symbol` at its end. */
  function Insert(t: Tree, path: seq<bool>, symbol: int): (r: Tree)
    ensures r.Node?
    decreases |path|
  {
    var n := if t.Nil? then EMPTY else t;
    if path == [] then n.(symbol := symbol)
    else if path[0] then n.(right := Insert(n.right, path[1..], symbol))
    else n.(left := Insert(n.left, path[1..], symbol))
  }

  /** The tree after the first `k` entries of the table. */
  function TreeOf(table: Table, k: nat): (t: Tree)
    requires k <= |table|
    ensures t.Node?
  {
    if k == 0 then EMPTY else Insert(TreeOf(table, k - 1), PathOf(table[k - 1]), table[k - 1].symbol)
  }

  function DecodingTree(table: Table): (t: Tree)
    ensures t.Node?
  {
    TreeOf(table, |table|)
  }

  // ---------------------------------------------------------------- the finished tree

  function Leaf(symbol: int): Tree {
    Node(symbol, Nil, Nil)
  }

  function Inner(left: Tree, right: Tree): Tree {
    Node(INTERNAL_SYMBOL, left, right)
  }

  /** The tree below `1...1` (`j` ones): a pair of leaves on the left of each further one, down to the `i`-th,
      then `tail`. */
  function Spine(j: nat, i: nat, tail: Tree): Tree
    decreases i + 1 - j
  {
    if j > i then tail else Inner(Inner(Leaf(4 + j), Leaf(-4 - j)), Spine(j + 1, i, tail))
  }

  function Ones(n: nat): (r: seq<bool>)
    ensures |r| == n && forall k :: 0 <= k < n ==> r[k]
  {
    if n == 0 then [] else Ones(n - 1) + [true]
  }

  /** The tree after the first `i` rows of the table. */
  function Rows(i: nat, tail: Tree): Tree {
    Inner(Leaf(0), Spine(1, i, tail))
  }

  lemma {:induction false} InsertBelowSpine(j: nat, i: nat, tail: Tree, path: seq<bool>, symbol: int)
    requires j <= i + 1
    ensures Insert(Spine(j, i, tail), Ones(i + 1 - j) + path, symbol) == Spine(j, i, Insert(tail, path, symbol))
    decreases i + 1 - j
  {
    var p := Ones(i + 1 - j) + path;
    if j > i {
      assert p == path;
    } else {
      InsertBelowSpine(j + 1, i, tail, path, symbol);
      assert p[1..] == Ones(i - j) + path;
    }
  }

  lemma InsertBelowRows(i: nat, tail: Tree, path: seq<bool>, symbol: int)
    ensures Insert(Rows(i, tail), Ones(i + 1) + path, symbol) == Rows(i, Insert(tail, path, symbol))
  {
    var p := Ones(i + 1) + path;
    assert p[1..] == Ones(i) + path;
    InsertBelowSpine(1, i, tail, path, symbol);
  }

  lemma {:induction false} SpineGrows(j: nat, i: nat, tail: Tree)
    requires j <= i + 1
    ensures Spine(j, i, Spine(i + 1, i + 1, tail)) == Spine(j, i + 1, tail)
    decreases i + 1 - j
  {
    if j <= i {
      SpineGrows(j + 1, i, tail);
    }
  }

  lemma {:induction false} OnesBits(n: nat)
    ensures CodeBits(Pow2(n) - 1, n) == Ones(n)
  {
    if n > 0 {
      OnesBits(n - 1);
      assert (Pow2(n) - 1) / 2 == Pow2(n - 1) - 1;
    }
  }

  /** Row `i` of the table: the symbols `4 + i` and `-4 - i`. */
  lemma TableRow(i: nat)
    requires 1 <= i <= 6
    ensures PDM_STATIC_TABLE[2 * i - 1] == Code(4 + i, 4 * (Pow2(i) - 1), i + 2)
    ensures PDM_STATIC_TABLE[2 * i] == Code(-4 - i, 4 * (Pow2(i) - 1) + 1, i + 2)
  {
    assert Pow2(1) == 2 && Pow2(2) == 4 && Pow2(3) == 8;
    assert Pow2(4) == 16 && Pow2(5) == 32 && Pow2(6) == 64;
    assert i == 1 || i == 2 || i == 3 || i == 4 || i == 5 || i == 6;
  }

  /** The code of a row's entry: `i` ones, a zero, and the sign. */
  lemma RowPath(e: Code, i: nat, b: nat)
    requires b < 2 && e.value == 4 * (Pow2(i) - 1) + b && e.len == i + 2
    ensures PathOf(e) == Ones(i) + [false, b == 1]
  {
    ShiftedOnes(i, b);
  }

  lemma ShiftedOnes(i: nat, b: nat)
    requires b < 2
    ensures CodeBits(4 * (Pow2(i) - 1) + b, i + 2) == Ones(i) + [false, b == 1]
  {
    OnesBits(i);
    var x := Pow2(i) - 1;
    assert (4 * x + b) / 2 == 2 * x && (2 * x) / 2 == x;
    assert CodeBits(2 * x, i + 1) == CodeBits(x, i) + [false];
    assert CodeBits(4 * x + b, i + 2) == CodeBits(2 * x, i + 1) + [b == 1];
  }

  lemma EscapePath()
    ensures PathOf(PDM_STATIC_TABLE[13]) == Ones(7)
  {
    OnesBits(7);
    assert Pow2(7) == 128;
  }

  lemma RowBelow(i: nat)
    ensures Insert(Insert(Nil, [false, false], 4 + i), [false, true], -4 - i) == Spine(i, i, Nil)
  {
    assert [false, false][1..] == [false] && [false, true][1..] == [true];
    assert [false][1..] == [] && [true][1..] == [];
    var once := Insert(Nil, [false, false], 4 + i);
    assert once == Inner(Inner(Leaf(4 + i), Nil), Nil);
    assert Insert(once.left, [true], -4 - i) == Inner(Leaf(4 + i), Leaf(-4 - i));
    assert Spine(i + 1, i, Nil) == Nil;
  }

  lemma NextRow(t: Tree, i: nat, e: Code, f: Code)
    requires i >= 1 && t == Rows(i - 1, Nil)
    requires e == Code(4 + i, 4 * (Pow2(i) - 1), i + 2)
    requires f == Code(-4 - i, 4 * (Pow2(i) - 1) + 1, i + 2)
    ensures Insert(Insert(t, PathOf(e), e.symbol), PathOf(f), f.symbol) == Rows(i, Nil)
  {
    RowPath(e, i, 0);
    RowPath(f, i, 1);
    var once := Insert(Nil, [false, false], 4 + i);
    InsertBelowRows(i - 1, Nil, [false, false], 4 + i);
    InsertBelowRows(i - 1, once, [false, true], -4 - i);
    RowBelow(i);
    SpineGrows(1, i - 1, Nil);
  }

  lemma FirstEntry()
    ensures TreeOf(PDM_STATIC_TABLE, 1) == Rows(0, Nil)
  {
    assert CodeBits(0, 1) == [false];
    assert TreeOf(PDM_STATIC_TABLE, 1) == Insert(TreeOf(PDM_STATIC_TABLE, 0), [false], 0);
    assert Insert(Nil, [], 0) == Leaf(0);
  }

  lemma {:induction false} TreeAfterRows(i: nat)
    requires i <= 6
    ensures TreeOf(PDM_STATIC_TABLE, 1 + 2 * i) == Rows(i, Nil)
  {
    if i == 0 {
      FirstEntry();
    } else {
      TreeAfterRows(i - 1);
      TableRow(i);
      NextRow(TreeOf(PDM_STATIC_TABLE, 2 * i - 1), i, PDM_STATIC_TABLE[2 * i - 1], PDM_STATIC_TABLE[2 * i]);
      assert TreeOf(PDM_STATIC_TABLE, 2 * i) ==
        Insert(TreeOf(PDM_STATIC_TABLE, 2 * i - 1), PathOf(PDM_STATIC_TABLE[2 * i - 1]), PDM_STATIC_TABLE[2 * i - 1].symbol);
      assert TreeOf(PDM_STATIC_TABLE, 2 * i + 1) ==
        Insert(TreeOf(PDM_STATIC_TABLE, 2 * i), PathOf(PDM_STATIC_TABLE[2 * i]), PDM_STATIC_TABLE[2 * i].symbol);
    }
  }

  lemma FinishedTree()
    ensures DecodingTree(PDM_STATIC_TABLE) == Rows(6, Leaf(ESCAPE_SYMBOL))
  {
    TreeAfterRows(6);
    EscapePath();
    assert Ones(7) + [] == Ones(7);
    InsertBelowRows(6, Nil, [], ESCAPE_SYMBOL);
  }

  // ---------------------------------------------------------------- the codes in the stream

  /** The code of every symbol: one zero for zero; for 5 to 10 and their negatives a one for each step past 4, a zero,
      and the sign; else seven ones and the sixteen bits of the symbol, but for 32767 only the seven ones. */
  lemma SymbolCode(table: Table, x: int)
    requires table == PDM_STATIC_TABLE && Int16(x)
    ensures HasEscape(table)
    ensures SymbolBits(table, x) ==
      if x == 0 then [false]
      else if 5 <= x <= 10 then Ones(x - 4) + [false, false]
      else if -10 <= x <= -5 then Ones(-x - 4) + [false, true]
      else if x == 32767 then Ones(7)
      else Ones(7) + CodeBits(x % 65536, 16)
  {
    EscapeCode(table);
    if x == 0 {
      ZeroCode(table);
    } else if 5 <= x <= 10 {
      RowCode(table, x - 4, 0);
    } else if -10 <= x <= -5 {
      RowCode(table, -x - 4, 1);
    } else if x != 32767 {
      Escaped(table, x);
      CastsAreModulo(x, 0);
    }
  }

  lemma EscapeCode(table: Table)
    requires table == PDM_STATIC_TABLE
    ensures HasEscape(table) && PathOf(Escape(table)) == Ones(7)
  {
    EscapePath();
    OthersDiffer(table, 13);
    FindsFirst(table, 0, 13);
  }

  lemma ZeroCode(table: Table)
    requires table == PDM_STATIC_TABLE
    ensures FindFrom(table, 0, 0).Some? && PathOf(FindFrom(table, 0, 0).value) == [false]
  {
    assert table[0] == Code(0, 0, 1) && CodeBits(0, 1) == [false];
  }

  lemma RowCode(table: Table, i: nat, b: nat)
    requires table == PDM_STATIC_TABLE && 1 <= i <= 6 && b < 2
    ensures var x := if b == 0 then 4 + i else -4 - i;
      FindFrom(table, x, 0).Some? && PathOf(FindFrom(table, x, 0).value) == Ones(i) + [false, b == 1]
  {
    var j := 2 * i - 1 + b;
    TableRow(i);
    RowPath(table[j], i, b);
    OthersDiffer(table, j);
    FindsFirst(table, 0, j);
  }

  lemma SymbolAt(table: Table, m: nat)
    requires table == PDM_STATIC_TABLE && m < |table|
    ensures table[m].symbol ==
      if m == 0 then 0 else if m == 13 then 32767 else if m % 2 == 1 then 4 + (m + 1) / 2 else -4 - m / 2
  {
    if 0 < m < 13 {
      TableRow((m + 1) / 2);
    }
  }

  lemma OthersDiffer(table: Table, j: nat)
    requires table == PDM_STATIC_TABLE && j < |table|
    ensures forall m :: 0 <= m < j ==> table[m].symbol != table[j].symbol
  {
    forall m | 0 <= m < j ensures table[m].symbol != table[j].symbol {
      SymbolAt(table, m);
      SymbolAt(table, j);
    }
  }

  lemma Escaped(table: Table, x: int)
    requires table == PDM_STATIC_TABLE && (-5 < x < 5 || x < -10 || x > 10) && x != 0 && x != 32767
    ensures FindFrom(table, x, 0).None?
  {
    forall m | 0 <= m < |table| ensures table[m].symbol != x {
      SymbolAt(table, m);
    }
  }

  lemma {:induction false} FindsFirst(table: Table, k: nat, j: nat)
    requires k <= j < |table| && forall m :: k <= m < j ==> table[m].symbol != table[j].symbol
    ensures FindFrom(table, table[j].symbol, k) == Some(table[j])
    decreases j - k
  {
    if k < j {
      FindsFirst(table, k + 1, j);
    }
  }
}
