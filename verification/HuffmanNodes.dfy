/** The decoding tree as linked nodes on the heap, built by following and creating links. */
module HuffmanNodes {
  import opened Bits
  import opened HuffmanTable
  import opened HuffmanTree

  class HuffmanNode {
    var symbol: int
    var left: HuffmanNode?
    var right: HuffmanNode?

    constructor (symbol: int)
      ensures this.symbol == symbol && left == null && right == null
    {
      this.symbol := symbol;
      left, right := null, null;
    }
  }

  type NodeMap = map<seq<bool>, HuffmanNode>

  /** The node a link should hold: the one at the end of the path, if any. */
  ghost function Target(nodes: NodeMap, path: seq<bool>): HuffmanNode? {
    if path in nodes then nodes[path] else null
  }

  ghost predicate NodeAt(nodes: NodeMap, t: Tree, path: seq<bool>)
    requires path in nodes
    reads nodes[path]
  {
    && At(t, path).Node?
    && nodes[path].symbol == At(t, path).symbol
    && nodes[path].left == Target(nodes, path + [false])
    && nodes[path].right == Target(nodes, path + [true])
  }

  ghost predicate Listed(nodes: NodeMap, t: Tree, path: seq<bool>) {
    path in nodes <==> At(t, path).Node?
  }

  ghost predicate Distinct(nodes: NodeMap, p: seq<bool>, q: seq<bool>)
    requires p in nodes && q in nodes
  {
    nodes[p] == nodes[q] ==> p == q
  }

  /** `nodes` lists the linked nodes by their paths from the root, and together they are `t`. */
  ghost predicate Represents(nodes: NodeMap, t: Tree)
    reads nodes.Values
  {
    && t.Node?
    && [] in nodes
    && (forall path {:trigger Listed(nodes, t, path)} :: Listed(nodes, t, path))
    && (forall path {:trigger NodeAt(nodes, t, path)} :: path in nodes ==> NodeAt(nodes, t, path))
    && (forall p, q {:trigger Distinct(nodes, p, q)} :: p in nodes && q in nodes ==> Distinct(nodes, p, q))
  }

  // ---------------------------------------------------------------- paths in trees

  lemma {:induction false} AtConcat(t: Tree, p: seq<bool>, q: seq<bool>)
    ensures At(t, p + q) == At(At(t, p), q)
    decreases |p|
  {
    if p == [] {
      assert p + q == q;
    } else if t.Node? {
      assert (p + q)[1..] == p[1..] + q;
      AtConcat(Child(t, p[0]), p[1..], q);
    }
  }

  /** Extending a tree along `q` adds internal nodes at the missing points of `q` and changes nothing else. */
  lemma {:induction false} ExtendAt(t: Tree, q: seq<bool>, p: seq<bool>)
    ensures At(Extend(t, q), p).Node? <==> At(t, p).Node? || p <= q
    ensures At(Extend(t, q), p).Node? ==>
      At(Extend(t, q), p).symbol == if At(t, p).Node? then At(t, p).symbol else INTERNAL_SYMBOL
    decreases |q|
  {
    if p != [] && q != [] {
      var n := if t.Nil? then EMPTY else t;
      if p[0] == q[0] {
        ExtendAt(Child(n, q[0]), q[1..], p[1..]);
        assert p <= q <==> p[1..] <= q[1..] by {
          assert q == [q[0]] + q[1..] && p == [p[0]] + p[1..];
        }
      }
    }
  }

  /** Inserting a symbol along `q` also labels the end of `q`. */
  lemma {:induction false} InsertAt(t: Tree, q: seq<bool>, symbol: int, p: seq<bool>)
    ensures At(Insert(t, q, symbol), p).Node? <==> At(Extend(t, q), p).Node?
    ensures At(Insert(t, q, symbol), p).Node? ==>
      At(Insert(t, q, symbol), p).symbol == if p == q then symbol else At(Extend(t, q), p).symbol
    decreases |q|
  {
    if p != [] && q != [] {
      var n := if t.Nil? then EMPTY else t;
      if p[0] == q[0] {
        InsertAt(Child(n, q[0]), q[1..], symbol, p[1..]);
        assert p == q <==> p[1..] == q[1..] by {
          assert q == [q[0]] + q[1..] && p == [p[0]] + p[1..];
        }
      }
    }
  }

  // ---------------------------------------------------------------- following

  /** The child a bit leads to, or null. */
  method Follow(current: HuffmanNode, bit: nat, ghost nodes: NodeMap, ghost t: Tree, ghost path: seq<bool>)
    returns (next: HuffmanNode?)
    requires bit < 2 && Represents(nodes, t) && path in nodes && nodes[path] == current
    ensures At(t, path).Node?
    ensures next == null <==> Child(At(t, path), bit == 1).Nil?
    ensures next != null ==>
      && path + [bit == 1] in nodes && nodes[path + [bit == 1]] == next
      && At(t, path + [bit == 1]) == Child(At(t, path), bit == 1)
      && next.symbol == Child(At(t, path), bit == 1).symbol
  {
    ghost var path' := path + [bit == 1];
    assert NodeAt(nodes, t, path) && Listed(nodes, t, path');
    AtConcat(t, path, [bit == 1]);
    next := if bit == 0 then current.left else current.right;
    if next != null {
      assert NodeAt(nodes, t, path');
    }
  }

  // ---------------------------------------------------------------- building

  /** One step down the tree being built, creating the child if it is missing. */
  method Descend(current: HuffmanNode, bit: nat, ghost nodes: NodeMap, ghost t: Tree, ghost q: seq<bool>)
    returns (next: HuffmanNode, ghost nodes': NodeMap)
    requires bit < 2
    requires Represents(nodes, Extend(t, q))
    requires q in nodes && nodes[q] == current
    modifies current
    ensures Represents(nodes', Extend(t, q + [bit == 1]))
    ensures q + [bit == 1] in nodes' && nodes'[q + [bit == 1]] == next
    ensures nodes.Keys <= nodes'.Keys
    ensures forall p :: p in nodes' ==> if p in nodes then nodes'[p] == nodes[p] else fresh(nodes'[p])
  {
    ghost var q' := q + [bit == 1];
    assert NodeAt(nodes, Extend(t, q), q);
    nodes' := nodes;
    if bit == 0 {
      if current.left == null {
        current.left := new HuffmanNode(INTERNAL_SYMBOL);
        nodes' := nodes[q' := current.left];
      }
      next := current.left;
    } else {
      if current.right == null {
        current.right := new HuffmanNode(INTERNAL_SYMBOL);
        nodes' := nodes[q' := current.right];
      }
      next := current.right;
    }
    forall path
      ensures Listed(nodes', Extend(t, q'), path)
    {
      assert Listed(nodes, Extend(t, q), path);
      ExtendedPaths(t, q, bit == 1, path);
    }
    forall path, path' | path in nodes' && path' in nodes'
      ensures Distinct(nodes', path, path')
    {
      if path in nodes && path' in nodes {
        assert Distinct(nodes, path, path');
      }
    }
    forall path | path in nodes'
      ensures NodeAt(nodes', Extend(t, q'), path)
    {
      assert Listed(nodes', Extend(t, q'), path);
      if path in nodes {
        assert Distinct(nodes, path, q);
      }
      ExtendedPaths(t, q, bit == 1, path);
      SameChild(path, q, false);
      SameChild(path, q, true);
      if path in nodes {
        assert old(NodeAt(nodes, Extend(t, q), path));
      } else {
        AtConcat(Extend(t, q), q', [false]);
        AtConcat(Extend(t, q), q', [true]);
        assert Listed(nodes, Extend(t, q), q') && Listed(nodes, Extend(t, q), q' + [false]);
        assert Listed(nodes, Extend(t, q), q' + [true]);
      }
    }
  }

  lemma SameChild(p: seq<bool>, q: seq<bool>, bit: bool)
    ensures p + [bit] == q + [bit] ==> p == q
    ensures p + [bit] != q + [!bit]
  {
    if p + [bit] == q + [bit] {
      assert p == (p + [bit])[..|p|] == q;
    }
    assert (p + [bit])[|p|] == bit && (q + [!bit])[|q|] == !bit;
  }

  /** Extending one bit further adds one point at most. */
  lemma ExtendedPaths(t: Tree, q: seq<bool>, bit: bool, path: seq<bool>)
    ensures At(Extend(t, q + [bit]), path).Node? <==> At(Extend(t, q), path).Node? || path == q + [bit]
    ensures At(Extend(t, q), path).Node? ==>
      At(Extend(t, q + [bit]), path).symbol == At(Extend(t, q), path).symbol
    ensures path == q + [bit] && At(Extend(t, q), path).Nil? ==>
      At(Extend(t, q + [bit]), path).symbol == INTERNAL_SYMBOL
  {
    ExtendAt(t, q, path);
    ExtendAt(t, q + [bit], path);
    if path <= q + [bit] && |path| <= |q| {
      assert path == (q + [bit])[..|path|] == q[..|path|];
    }
  }

  /** Labels the end of a path that has been followed. */
  method LabelNode(node: HuffmanNode, symbol: int, ghost nodes: NodeMap, ghost t: Tree, ghost q: seq<bool>)
    requires Represents(nodes, Extend(t, q))
    requires q in nodes && nodes[q] == node
    modifies node
    ensures Represents(nodes, Insert(t, q, symbol))
  {
    node.symbol := symbol;
    forall path
      ensures Listed(nodes, Insert(t, q, symbol), path)
    {
      assert Listed(nodes, Extend(t, q), path);
      InsertAt(t, q, symbol, path);
    }
    forall path | path in nodes
      ensures NodeAt(nodes, Insert(t, q, symbol), path)
    {
      assert old(NodeAt(nodes, Extend(t, q), path));
      assert Distinct(nodes, path, q);
      InsertAt(t, q, symbol, path);
    }
  }

  /** Follows and completes the path of one table entry. */
  method InsertEntry(root: HuffmanNode, entry: Code, ghost nodes: NodeMap, ghost t: Tree)
    returns (ghost nodes': NodeMap)
    requires Represents(nodes, t) && nodes[[]] == root
    modifies nodes.Values
    ensures Represents(nodes', Insert(t, PathOf(entry), entry.symbol)) && [] in nodes' && nodes'[[]] == root
    ensures forall p :: p in nodes' ==> nodes'[p] in nodes.Values || fresh(nodes'[p])
  {
    ghost var path := PathOf(entry);
    nodes' := nodes;
    var current := root;
    var j := 0;
    assert path[..0] == [];
    while j < entry.len
      invariant 0 <= j <= entry.len
      invariant Represents(nodes', Extend(t, path[..j])) && [] in nodes' && nodes'[[]] == root
      invariant path[..j] in nodes' && nodes'[path[..j]] == current
      invariant forall p :: p in nodes' ==> nodes'[p] in nodes.Values || fresh(nodes'[p])
    {
      ShiftedOut(entry.value, entry.len, j);
      var bit := ShiftOut(entry.value, entry.len, j);
      assert path[..j] + [bit == 1] == path[..j + 1];
      current, nodes' := Descend(current, bit, nodes', t, path[..j]);
      j := j + 1;
    }
    assert path[..j] == path;
    LabelNode(current, entry.symbol, nodes', t, path);
  }

  method BuildDecodingTree(table: Table) returns (root: HuffmanNode, ghost nodes: NodeMap)
    ensures Represents(nodes, DecodingTree(table)) && nodes[[]] == root
    ensures forall p :: p in nodes ==> fresh(nodes[p])
  {
    root := new HuffmanNode(INTERNAL_SYMBOL);
    nodes := map[[] := root];
    OnlyRoot(root);
    ghost var t := EMPTY;
    var i := 0;
    while i < |table|
      invariant 0 <= i <= |table|
      invariant t == TreeOf(table, i)
      invariant Represents(nodes, t) && [] in nodes && nodes[[]] == root
      invariant forall p :: p in nodes ==> fresh(nodes[p])
    {
      var entry := table[i];
      nodes := InsertEntry(root, entry, nodes, t);
      t := Insert(t, PathOf(entry), entry.symbol);
      i := i + 1;
    }
  }

  lemma OnlyRoot(root: HuffmanNode)
    requires root.symbol == INTERNAL_SYMBOL && root.left == null && root.right == null
    ensures Represents(map[[] := root], EMPTY)
  {
    var nodes: NodeMap := map[[] := root];
    forall path
      ensures Listed(nodes, EMPTY, path)
    {
    }
    assert NodeAt(nodes, EMPTY, []);
  }
}
