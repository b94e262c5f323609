/**
 The memory of a unit number space: list nodes and bitmaps are blocks of one size, and a block that
 was a node can become a bitmap.  This module holds the primitive updates of the list, each specified
 by what it does to the sequence of elements and to the blocks in use.
 */
module UnitAllocator {
  import opened Bitstring
  import BitCount
  import opened UnitSpec
  import opened UnitUpdate

  /** What the ptr field of a struct unr holds: NULL, the header itself, or a bitmap. */
  datatype Ptr = Null | Header | ToBitmap(ub: Block)

  /** One allocation: a struct unr or, when it serves as a struct unrb, the words. */
  class Block {
    var len: nat
    var ptr: Ptr
    const words: array<bv64>

    constructor ()
      ensures fresh(words) && words.Length == NWORDS
    {
      len, ptr := 0, Null;
      words := new bv64[NWORDS];
    }
  }

  datatype Node = Node(len: nat, ptr: Ptr)

  ghost predicate Distinct(s: seq<Block>) {
    forall i, j | 0 <= i < j < |s| :: s[i] != s[j]
  }

  ghost predicate IsBitmapOf(nodes: seq<Node>, b: Block) {
    exists i :: 0 <= i < |nodes| && nodes[i].ptr == ToBitmap(b)
  }

  /** Each block has its own words. */
  ghost predicate OwnWords(blocks: set<Block>) {
    && (forall b | b in blocks :: b.words.Length == NWORDS)
    && (forall b, c | b in blocks && c in blocks && b != c :: b.words != c.words)
  }

  /** Every block is exactly one of: a list node, a bitmap of one node, waiting to be freed. */
  ghost predicate Structured(head: seq<Block>, nodes: seq<Node>, ppfree: seq<Block>, blocks: set<Block>) {
    && |nodes| == |head|
    && Distinct(head) && Distinct(ppfree) && OwnWords(blocks)
    && (forall i | 0 <= i < |head| :: head[i] in blocks)
    && (forall i | 0 <= i < |ppfree| :: ppfree[i] in blocks && ppfree[i] !in head)
    && (forall i | 0 <= i < |nodes| && nodes[i].ptr.ToBitmap? ::
          nodes[i].len <= NBITS && nodes[i].ptr.ub in blocks && nodes[i].ptr.ub !in head && nodes[i].ptr.ub !in ppfree)
    && (forall i, j | 0 <= i < j < |nodes| && nodes[i].ptr.ToBitmap? && nodes[j].ptr.ToBitmap? ::
          nodes[i].ptr.ub != nodes[j].ptr.ub)
    && (forall b | b in blocks :: b in head || b in ppfree || IsBitmapOf(nodes, b))
  }

  function Without<T>(s: seq<T>, k: nat): (r: seq<T>)
    requires k < |s|
    ensures |r| == |s| - 1
    ensures forall i | 0 <= i < |r| :: r[i] == s[if i < k then i else i + 1]
    ensures forall i | 0 <= i < |s| && i != k :: s[i] == r[if i < k then i else i - 1]
  {
    s[..k] + s[k + 1..]
  }

  /** Moving a node without a bitmap from the list to the blocks waiting to be freed. */
  lemma StructuredDelete(head: seq<Block>, nodes: seq<Node>, ppfree: seq<Block>, blocks: set<Block>, k: nat)
    requires Structured(head, nodes, ppfree, blocks) && k < |head| && !nodes[k].ptr.ToBitmap?
    ensures Structured(Without(head, k), Without(nodes, k), ppfree + [head[k]], blocks)
  {
    hide Without, OwnWords;
    var head', nodes' := Without(head, k), Without(nodes, k);
    assert forall i | 0 <= i < |head| && i != k :: head[i] in head' by {
      assert forall i | 0 <= i < |head| && i != k :: head[i] == head'[if i < k then i else i - 1];
    }
    forall b | b in blocks && b !in head' && b !in ppfree + [head[k]] ensures IsBitmapOf(nodes', b) {
      assert b !in head;
      assert IsBitmapOf(nodes, b);
      var i :| 0 <= i < |nodes| && nodes[i].ptr == ToBitmap(b);
      assert nodes'[if i < k then i else i - 1] == nodes[i];
    }
    assert forall i | 0 <= i < |head'| :: head'[i] in head;
    assert head[k] !in head';
  }

  /** A bitmap goes to the blocks waiting to be freed; its node becomes a run. */
  lemma StructuredRetire(head: seq<Block>, nodes: seq<Node>, ppfree: seq<Block>, blocks: set<Block>, k: nat, node: Node)
    requires Structured(head, nodes, ppfree, blocks) && k < |head| && nodes[k].ptr.ToBitmap? && !node.ptr.ToBitmap?
    ensures Structured(head, nodes[k := node], ppfree + [nodes[k].ptr.ub], blocks)
  {
    hide OwnWords;
    var ub := nodes[k].ptr.ub;
    forall b | b in blocks && b !in head && b !in ppfree + [ub] ensures IsBitmapOf(nodes[k := node], b) {
      assert IsBitmapOf(nodes, b);
      var i :| 0 <= i < |nodes| && nodes[i].ptr == ToBitmap(b);
      assert nodes[k := node][i] == nodes[i];
    }
  }

  /** A new block enters the list as the node of a run. */
  lemma StructuredInsert(head: seq<Block>, nodes: seq<Node>, ppfree: seq<Block>, blocks: set<Block>, k: nat, p: Block, node: Node)
    requires Structured(head, nodes, ppfree, blocks) && k <= |head| && !node.ptr.ToBitmap?
    requires p !in blocks && OwnWords(blocks + {p})
    ensures Structured(Insert(head, k, p), Insert(nodes, k, node), ppfree, blocks + {p})
  {
    hide Insert, OwnWords;
    var head', nodes' := Insert(head, k, p), Insert(nodes, k, node);
    InsertAt(head, k, p);
    InsertAt(nodes, k, node);
    forall b | b in blocks + {p} && b !in head' && b !in ppfree ensures IsBitmapOf(nodes', b) {
      assert b !in head;
      assert IsBitmapOf(nodes, b);
      var i :| 0 <= i < |nodes| && nodes[i].ptr == ToBitmap(b);
      assert nodes'[if i < k then i else i + 1] == nodes[i];
    }
    assert forall i | 0 <= i < |head'| :: i == k || head'[i] in head;
  }

  function Insert<T>(s: seq<T>, k: nat, x: T): (r: seq<T>)
    requires k <= |s|
    ensures |r| == |s| + 1
  {
    s[..k] + [x] + s[k..]
  }

  lemma InsertAt<T>(s: seq<T>, k: nat, x: T)
    requires k <= |s|
    ensures var r := Insert(s, k, x);
      && r[k] == x && (forall i | 0 <= i < |r| && i != k :: r[i] == s[if i < k then i else i - 1])
      && (forall i | 0 <= i < |s| :: s[i] == r[if i < k then i else i + 1])
      && x in r && forall y | y in s :: y in r
  {
    var r := Insert(s, k, x);
    assert forall i | 0 <= i < |s| :: s[i] == r[if i < k then i else i + 1];
    assert r[k] == x;
  }

  /** A node leaves the list and becomes the bitmap of its successor, whose own bitmap, if any, is retired. */
  lemma StructuredConvert(head: seq<Block>, nodes: seq<Node>, ppfree: seq<Block>, blocks: set<Block>, k: nat, node: Node)
    requires Structured(head, nodes, ppfree, blocks) && k + 1 < |head| && !nodes[k].ptr.ToBitmap?
    requires node.ptr == ToBitmap(head[k]) && node.len <= NBITS
    ensures Structured(Without(head, k), Without(nodes, k)[k := node],
                       if nodes[k + 1].ptr.ToBitmap? then ppfree + [nodes[k + 1].ptr.ub] else ppfree, blocks)
  {
    hide Without, OwnWords;
    var head', nodes' := Without(head, k), Without(nodes, k)[k := node];
    var ppfree' := if nodes[k + 1].ptr.ToBitmap? then ppfree + [nodes[k + 1].ptr.ub] else ppfree;
    assert forall i | 0 <= i < |head| && i != k :: head[i] in head' by {
      assert forall i | 0 <= i < |head| && i != k :: head[i] == head'[if i < k then i else i - 1];
    }
    assert forall i | 0 <= i < |head'| :: head'[i] in head;
    assert head[k] !in head';
    assert nodes'[k].ptr == ToBitmap(head[k]);
    forall b | b in blocks && b !in head' && b !in ppfree' ensures IsBitmapOf(nodes', b) {
      if b != head[k] {
        assert b !in head;
        assert IsBitmapOf(nodes, b);
        var i :| 0 <= i < |nodes| && nodes[i].ptr == ToBitmap(b);
        assert nodes'[if i < k then i else i - 1] == nodes[i];
      }
    }
  }

  /** A node and its bitmap both go to the blocks waiting to be freed. */
  lemma StructuredDrop(head: seq<Block>, nodes: seq<Node>, ppfree: seq<Block>, blocks: set<Block>, k: nat)
    requires Structured(head, nodes, ppfree, blocks) && k < |head| && nodes[k].ptr.ToBitmap?
    ensures Structured(Without(head, k), Without(nodes, k), ppfree + [nodes[k].ptr.ub] + [head[k]], blocks)
  {
    assert |nodes| == |head|;
    hide Structured;
    var node := Node(0, Null);
    StructuredRetire(head, nodes, ppfree, blocks, k, node);
    StructuredDelete(head, nodes[k := node], ppfree + [nodes[k].ptr.ub], blocks, k);
    assert Without(nodes[k := node], k) == Without(nodes, k);
  }

  ghost function ElemOf(n: Node): Elem
    reads if n.ptr.ToBitmap? then {n.ptr.ub.words} else {}
  {
    match n.ptr
    case Null => Run(false, n.len)
    case Header => Run(true, n.len)
    case ToBitmap(ub) => Map(if n.len <= 64 * ub.words.Length then BitsOf(ub.words[..])[..n.len] else [])
  }

  ghost function NodesOf(head: seq<Block>): (r: seq<Node>)
    reads head
    ensures |r| == |head|
  {
    seq(|head|, i requires 0 <= i < |head| reads head => Node(head[i].len, head[i].ptr))
  }

  ghost function MapsOf(head: seq<Block>): set<array<bv64>>
    reads head
  {
    set i | 0 <= i < |head| && head[i].ptr.ToBitmap? :: head[i].ptr.ub.words
  }

  ghost function ElemsOf(head: seq<Block>): (r: seq<Elem>)
    reads head, MapsOf(head)
    ensures |r| == |head|
  {
    seq(|head|, i requires 0 <= i < |head| reads head, MapsOf(head) => ElemOf(Node(head[i].len, head[i].ptr)))
  }

  /** The objects that make up blocks. */
  ghost function Memory(blocks: set<Block>): set<object> {
    (set b: Block | b in blocks :: b as object) + (set b: Block | b in blocks :: b.words as object)
  }

  /** The spare blocks that new_unr can hand out. */
  ghost function SpareSet(p1: Block?, p2: Block?): set<Block> {
    (if p1 != null then {p1} else {}) + (if p2 != null then {p2} else {})
  }

  ghost predicate SparesOk(blocks: set<Block>, p1: Block?, p2: Block?) {
    SpareSet(p1, p2) !! blocks && OwnWords(blocks + SpareSet(p1, p2)) && (p1 != null ==> p1 != p2)
  }

  class UnrHdr {
    var low: nat
    var high: nat
    var busy: int
    var alloc: int
    var first: nat
    var last: nat
    /** the list of elements */
    var head: seq<Block>
    /** blocks to be freed after the lock is dropped */
    var ppfree: seq<Block>
    /** every block handed to this space and not yet given back */
    ghost var blocks: set<Block>

    ghost function Nodes(): (r: seq<Node>)
      reads this`head, head
      ensures |r| == |head|
    {
      NodesOf(head)
    }

    ghost function Elems(): (r: seq<Elem>)
      reads this`head, head, MapsOf(head)
      ensures |r| == |head|
    {
      ElemsOf(head)
    }

    ghost predicate Valid()
      reads this`head, this`ppfree, this`blocks, head
    {
      Structured(head, Nodes(), ppfree, blocks)
    }

    // ---------- bits ----------

    method SetMapBit(k: nat, y: nat, b: bool)
      requires Valid() && k < |head| && Elems()[k].Map? && head[k].ptr.ToBitmap? && y < |Elems()[k].bits|
      modifies head[k].ptr.ub.words
      ensures Valid()
      ensures Elems() == old(Elems())[k := Map(old(Elems())[k].bits[y := b])]
    {
      BitmapLength(k);
      BitmapsApart(k);
      hide Structured;
      var ub := head[k].ptr.ub;
      if b { BitSet(ub.words, y); } else { BitClear(ub.words, y); }
    }

    // ---------- nodes ----------

    /** Assigns len and ptr of a run; it stays a run. */
    method SetRun(k: nat, used: bool, len: nat)
      requires Valid() && k < |head| && !head[k].ptr.ToBitmap?
      modifies head[k]
      ensures Valid()
      ensures Elems() == old(Elems())[k := Run(used, len)]
    {
      ghost var nodes := Nodes();
      DistinctNodes();
      NodesOfHead();
      hide Structured;
      StructuredRun(head, nodes, ppfree, blocks, k, Node(len, if used then Header else Null));
      head[k].len, head[k].ptr := len, if used then Header else Null;
      assert Nodes() == nodes[k := Node(head[k].len, head[k].ptr)];
    }

    /** delete_unr of a list node that has no bitmap, after TAILQ_REMOVE. */
    method DeleteNode(k: nat)
      requires Valid() && k < |head| && !head[k].ptr.ToBitmap?
      modifies this`head, this`ppfree, this`alloc
      ensures Valid()
      ensures Elems() == Without(old(Elems()), k) && alloc == old(alloc) - 1
      ensures head == Without(old(head), k) && ppfree == old(ppfree) + [old(head)[k]]
    {
      hide Structured, OwnWords, Without;
      StructuredDelete(head, Nodes(), ppfree, blocks, k);
      ghost var nodes := Nodes();
      var up := head[k];
      head := Without(head, k);
      alloc := alloc - 1;
      ppfree := ppfree + [up];
      assert Nodes() == Without(nodes, k);
    }
  
    /** delete_unr of a bitmap; its node becomes a run of the same length. */
    method BitmapToRun(k: nat, used: bool)
      requires Valid() && k < |head| && head[k].ptr.ToBitmap?
      modifies head[k], this`ppfree, this`alloc
      ensures Valid()
      ensures Elems() == old(Elems())[k := Run(used, Len(old(Elems())[k]))] && alloc == old(alloc) - 1
    {
      hide Structured, OwnWords;
      ghost var nodes := Nodes();
      BitmapLength(k);
      NodesOfHead();
      DistinctNodes();
      StructuredRetire(head, nodes, ppfree, blocks, k, Node(head[k].len, if used then Header else Null));
      alloc := alloc - 1;
      ppfree := ppfree + [head[k].ptr.ub];
      head[k].ptr := if used then Header else Null;
      assert Nodes() == nodes[k := Node(head[k].len, head[k].ptr)];
    }

    lemma BitmapLength(k: nat)
      requires Valid() && k < |head|
      ensures Len(Elems()[k]) == head[k].len
      ensures head[k].ptr.ToBitmap? ==> head[k].ptr.ub.words.Length == NWORDS && head[k].len <= NBITS
    {
      assert Nodes()[k] == Node(head[k].len, head[k].ptr);
    }

    /** new_unr's block p enters the list as a run. */
    method InsertRun(k: nat, used: bool, len: nat, p: Block)
      requires Valid() && k <= |head| && p !in blocks && OwnWords(blocks + {p})
      modifies this`head, this`alloc, this`blocks, p
      ensures Valid()
      ensures Elems() == Insert(old(Elems()), k, Run(used, len)) && alloc == old(alloc) + 1
      ensures blocks == old(blocks) + {p} && ppfree == old(ppfree)
    {
      hide Structured, OwnWords, Insert, ElemOf;
      RunElem(len, used);
      InsertNode(k, Node(len, if used then Header else Null), p);
    }

    method InsertNode(k: nat, node: Node, p: Block)
      requires Valid() && k <= |head| && p !in blocks && OwnWords(blocks + {p}) && !node.ptr.ToBitmap?
      modifies this`head, this`alloc, this`blocks, p
      ensures Valid()
      ensures alloc == old(alloc) + 1
      ensures Elems() == Insert(old(Elems()), k, ElemOf(node))
      ensures blocks == old(blocks) + {p} && ppfree == old(ppfree)
    {
      NotABitmap(p);
      hide Structured, OwnWords, Insert, ElemOf;
      StructuredInsert(head, Nodes(), ppfree, blocks, k, p, node);
      FillNode(p, node);
      Link(k, p);
    }

    method FillNode(p: Block, node: Node)
      requires p !in head
      modifies p
      ensures Node(p.len, p.ptr) == node
      ensures Nodes() == old(Nodes()) && Elems() == old(Elems())
    {
      p.len, p.ptr := node.len, node.ptr;
    }

    static lemma ListedInsert(head: seq<Block>, k: nat, p: Block)
      requires k <= |head|
      ensures NodesOf(Insert(head, k, p)) == Insert(NodesOf(head), k, Node(p.len, p.ptr))
      ensures ElemsOf(Insert(head, k, p)) == Insert(ElemsOf(head), k, ElemOf(Node(p.len, p.ptr)))
    {
      hide Insert, ElemOf;
      InsertAt(head, k, p);
      InsertAt(NodesOf(head), k, Node(p.len, p.ptr));
      InsertAt(ElemsOf(head), k, ElemOf(Node(p.len, p.ptr)));
    }

    /** TAILQ_INSERT of a new block */
    method Link(k: nat, p: Block)
      requires k <= |head|
      modifies this`head, this`alloc, this`blocks
      ensures head == Insert(old(head), k, p) && alloc == old(alloc) + 1 && blocks == old(blocks) + {p}
      ensures Nodes() == Insert(old(Nodes()), k, Node(p.len, p.ptr))
      ensures Elems() == Insert(old(Elems()), k, ElemOf(Node(p.len, p.ptr)))
    {
      hide ElemOf, Insert, NodesOf, ElemsOf;
      ListedInsert(head, k, p);
      ghost var maps: set<array<bv64>> := MapsOf(Insert(head, k, p));
      head, alloc, blocks := Insert(head, k, p), alloc + 1, blocks + {p};
    }

    static lemma MapElem(len: nat, ub: Block)
      requires len <= 64 * ub.words.Length
      ensures ElemOf(Node(len, ToBitmap(ub))) == Map(BitsOf(ub.words[..])[..len])
    {}

    static lemma RunElem(len: nat, used: bool)
      ensures ElemOf(Node(len, if used then Header else Null)) == Run(used, len)
    {}

    lemma NotABitmap(p: Block)
      requires Valid() && p !in blocks
      ensures p !in head && forall i | 0 <= i < |head| && head[i].ptr.ToBitmap? :: head[i].ptr.ub != p
    {
      assert forall i | 0 <= i < |head| :: Nodes()[i].ptr == head[i].ptr;
    }

    // ---------- growing a bitmap ----------

    /** Bits appended to a bitmap by filling a range. */
    method FillTail(k: nat, n: nat, used: bool)
      requires Valid() && k < |head| && head[k].ptr.ToBitmap? && 0 < n && head[k].len + n <= NBITS
      modifies head[k], head[k].ptr.ub.words
      ensures Valid()
      ensures Elems() == old(Elems())[k := Map(old(Elems())[k].bits + Repeat(used, n))]
      ensures head[k].ptr == old(head[k].ptr)
    {
      BitmapLength(k);
      hide Structured, OwnWords, ElemOf;
      var ub, len := head[k].ptr.ub, head[k].len;
      MapElem(len, ub);
      ghost var bits, elems := BitsOf(ub.words[..]), Elems();
      FillBits(k, len, n, used);
      assert Filled(bits, len, len + n - 1, used)[..len + n] == bits[..len] + Repeat(used, n);
      SetLength(k, len + n);
    }

    method FillBits(k: nat, start: nat, n: nat, used: bool)
      requires Valid() && k < |head| && head[k].ptr.ToBitmap? && 0 < n && start + n <= NBITS
      requires head[k].ptr.ub.words.Length == NWORDS
      modifies head[k].ptr.ub.words
      ensures BitsOf(head[k].ptr.ub.words[..]) == Filled(old(BitsOf(head[k].ptr.ub.words[..])), start, start + n - 1, used)
      ensures forall i | 0 <= i < |head| && i != k :: Elems()[i] == old(Elems())[i]
    {
      BitmapsApart(k);
      hide Structured, OwnWords;
      var ub := head[k].ptr.ub;
      if used { BitNset(ub.words, start, start + n - 1); } else { BitNclear(ub.words, start, start + n - 1); }
    }

    method SetLength(k: nat, len: nat)
      requires Valid() && k < |head| && head[k].ptr.ToBitmap? && len <= NBITS == 64 * head[k].ptr.ub.words.Length
      modifies head[k]
      ensures Valid() && head[k].ptr == old(head[k].ptr)
      ensures Elems() == old(Elems())[k := Map(BitsOf(head[k].ptr.ub.words[..])[..len])]
    {
      hide Structured, OwnWords, ElemOf;
      ghost var nodes := Nodes();
      Lengthened(k, len);
      head[k].len := len;
      assert Nodes() == nodes[k := Node(len, nodes[k].ptr)];
      MapElem(len, head[k].ptr.ub);
    }

    lemma Lengthened(k: nat, len: nat)
      requires Valid() && k < |head| && head[k].ptr.ToBitmap? && len <= NBITS
      ensures Structured(head, Nodes()[k := Node(len, head[k].ptr)], ppfree, blocks)
      ensures Nodes()[k] == Node(head[k].len, head[k].ptr) && Distinct(head)
    {
      DistinctNodes();
      hide Structured, OwnWords;
      NodesOfHead();
      StructuredGrow(head, Nodes(), ppfree, blocks, k, len);
    }

    lemma DistinctNodes()
      requires Valid()
      ensures Distinct(head)
    {}

    // ---------- copying and rebuilding ----------

    /** The bits of to with the first n bits of from copied in at the given place. */
    static function Copied(from: seq<bool>, n: nat, to: seq<bool>, at: nat): (r: seq<bool>)
      requires n <= |from| && at + n <= |to|
      ensures |r| == |to| && r[..at] == to[..at] && r[at..at + n] == from[..n] && r[at + n..] == to[at + n..]
      ensures r[..at + n] == to[..at] + from[..n]
    {
      to[..at] + from[..n] + to[at + n..]
    }

    /** The bit-by-bit copy loops of optimize_unr. */
    static method CopyBits(from: array<bv64>, n: nat, to: array<bv64>, at: nat)
      requires from != to && from.Length == to.Length == NWORDS && n <= NBITS && at + n <= NBITS
      modifies to
      ensures BitsOf(to[..]) == Copied(BitsOf(from[..]), n, old(BitsOf(to[..])), at)
    {
      hide BitsOf, Copied;
      var l, a := 0, at;
      while l < n
        invariant 0 <= l <= n && a == at + l
        invariant BitsOf(to[..]) == Copied(BitsOf(from[..]), l, old(BitsOf(to[..])), at)
      {
        CopyOne(BitsOf(from[..]), l, old(BitsOf(to[..])), at);
        var bit := BitTest(from, l);
        if bit { BitSet(to, a); } else { BitClear(to, a); }
        l, a := l + 1, a + 1;
      }
    }

    static lemma CopyOne(from: seq<bool>, n: nat, to: seq<bool>, at: nat)
      requires n < |from| && at + n < |to|
      ensures Copied(from, n + 1, to, at) == Copied(from, n, to, at)[at + n := from[n]]
    {}

    /** Appends the bitmap of element k + 1 to the bitmap of element k. */
    method CopyTail(k: nat)
      requires Valid() && k + 1 < |head| && head[k].ptr.ToBitmap? && head[k + 1].ptr.ToBitmap?
      requires head[k].len + head[k + 1].len <= NBITS
      modifies head[k], head[k].ptr.ub.words
      ensures Valid() && head[k].ptr == old(head[k].ptr)
      ensures Elems() == old(Elems())[k := Map(old(Elems())[k].bits + old(Elems())[k + 1].bits)]
    {
      BitmapLength(k);
      BitmapLength(k + 1);
      BitmapsApart(k);
      hide Structured, OwnWords, ElemOf;
      var ub, ubf, len, n := head[k].ptr.ub, head[k + 1].ptr.ub, head[k].len, head[k + 1].len;
      MapElem(len, ub);
      MapElem(n, ubf);
      CopyInto(k, ubf, n, len);
      SetLength(k, len + n);
    }

    method CopyInto(k: nat, ubf: Block, n: nat, len: nat)
      requires Valid() && k < |head| && head[k].ptr.ToBitmap? && head[k].ptr.ub.words.Length == NWORDS
      requires ubf.words != head[k].ptr.ub.words && ubf.words.Length == NWORDS && len + n <= NBITS
      modifies head[k].ptr.ub.words
      ensures BitsOf(head[k].ptr.ub.words[..])[..len + n]
        == old(BitsOf(head[k].ptr.ub.words[..]))[..len] + old(BitsOf(ubf.words[..]))[..n]
      ensures forall i | 0 <= i < |head| && i != k :: Elems()[i] == old(Elems())[i]
    {
      BitmapsApart(k);
      hide Structured, OwnWords, BitsOf;
      CopyBits(ubf.words, n, head[k].ptr.ub.words, len);
    }

    /** TAILQ_REMOVE of a node with a bitmap, and delete_unr of both blocks. */
    method DropBitmapNode(k: nat)
      requires Valid() && k < |head| && head[k].ptr.ToBitmap?
      modifies this`head, this`ppfree, this`alloc
      ensures Valid()
      ensures Elems() == Without(old(Elems()), k) && alloc == old(alloc) - 2
      ensures head == Without(old(head), k)
    {
      hide Structured, OwnWords, Without;
      NodesOfHead();
      StructuredDrop(head, Nodes(), ppfree, blocks, k);
      ghost var nodes := Nodes();
      var up := head[k];
      head := Without(head, k);
      alloc := alloc - 2;
      ppfree := ppfree + [up.ptr.ub] + [up];
      assert Nodes() == Without(nodes, k);
    }

    lemma NodesOfHead()
      ensures |Nodes()| == |head| && forall i | 0 <= i < |head| :: Nodes()[i] == Node(head[i].len, head[i].ptr)
    {}

    /**
     Rebuilds block ub, no longer a node, as the bitmap of a run of a units followed by the units of uf.
     Setting bits 0 to a sets one bit too many; the units of uf overwrite it.
     */
    static method BuildBitmap(ub: Block, a: nat, used: bool, uf: Block)
      requires ub.words.Length == NWORDS && ub != uf && 0 < uf.len && a + uf.len <= NBITS
      requires uf.ptr.ToBitmap? ==> uf.ptr.ub.words.Length == NWORDS && uf.ptr.ub.words != ub.words
      modifies ub, ub.words
      ensures BitsOf(ub.words[..])[..a + uf.len] == Repeat(used, a) + old(Bits(ElemOf(Node(uf.len, uf.ptr))))
    {
      ClearAndSet(ub, a, used);
      hide BitsOf;
      if uf.ptr.Null? {
        BitNclear(ub.words, a, a + uf.len - 1);
      } else if uf.ptr.Header? {
        BitNset(ub.words, a, a + uf.len - 1);
      } else {
        CopyBits(uf.ptr.ub.words, uf.len, ub.words, a);
      }
    }

    static method ClearAndSet(ub: Block, a: nat, used: bool)
      requires ub.words.Length == NWORDS && a < NBITS
      modifies ub, ub.words
      ensures BitsOf(ub.words[..])[..a] == Repeat(used, a)
    {
      // the list node is reused: what it held is lost
      ub.len, ub.ptr := *, *;
      BitNclear(ub.words, 0, NBITS - 1);
      if used {
        BitNset(ub.words, 0, a);
      }
    }

    /** Turns a run into a bitmap that it shares with its successor. */
    method Convert(k: nat)
      requires Valid() && k + 1 < |head| && !head[k].ptr.ToBitmap?
      requires 0 < head[k + 1].len && head[k].len + head[k + 1].len <= NBITS
      modifies this`head, this`ppfree, this`alloc, head[k], head[k + 1], head[k].words
      ensures Valid()
      ensures alloc == old(alloc) - (if old(Nodes()[k + 1].ptr.ToBitmap?) then 1 else 0)
      ensures Elems() == Without(old(Elems()), k)[k := Map(Bits(old(Elems())[k]) + Bits(old(Elems())[k + 1]))]
    {
      var us, uf := head[k], head[k + 1];
      var len := us.len + uf.len;
      ConvertFacts(k);
      hide Structured, OwnWords, Without, ElemOf;
      StructuredConvert(head, Nodes(), ppfree, blocks, k, Node(len, ToBitmap(us)));
      DetachAndBuild(k);
      AttachBitmap(k, us, len);
    }

    /** Gives the node at k a new bitmap and retires the one it had. */
    method AttachBitmap(k: nat, ub: Block, len: nat)
      requires k < |head| && Distinct(head) && len <= NBITS == 64 * ub.words.Length
      requires Structured(head, Nodes()[k := Node(len, ToBitmap(ub))],
                          if Nodes()[k].ptr.ToBitmap? then ppfree + [Nodes()[k].ptr.ub] else ppfree, blocks)
      modifies this`ppfree, this`alloc, head[k]
      ensures Valid()
      ensures alloc == old(alloc) - (if old(Nodes()[k].ptr.ToBitmap?) then 1 else 0)
      ensures Elems() == old(Elems())[k := Map(BitsOf(ub.words[..])[..len])]
    {
      hide Structured, ElemOf;
      var uf := head[k];
      ghost var nodes := Nodes();
      if uf.ptr.ToBitmap? {
        alloc := alloc - 1;
        ppfree := ppfree + [uf.ptr.ub];
      }
      PointToBitmap(k, ub, len);
      assert Nodes() == nodes[k := Node(len, ToBitmap(ub))];
    }

    method DetachAndBuild(k: nat)
      requires k + 1 < |head| && !head[k].ptr.ToBitmap? && Distinct(head) && head[k].words.Length == NWORDS
      requires 0 < head[k + 1].len && head[k].len + head[k + 1].len <= NBITS
      requires forall i | 0 <= i < |head| && head[i].ptr.ToBitmap? ::
        head[i].ptr.ub.words.Length == NWORDS && head[i].ptr.ub.words != head[k].words
      modifies this`head, head[k], head[k].words
      ensures head == Without(old(head), k) && Nodes() == Without(old(Nodes()), k)
      ensures Elems() == Without(old(Elems()), k)
      ensures BitsOf(old(head[k]).words[..])[..old(head[k].len) + old(head[k + 1].len)]
        == Bits(old(Elems())[k]) + Bits(old(Elems())[k + 1])
    {
      hide Without, ElemOf;
      var us, uf := head[k], head[k + 1];
      RunElem(us.len, us.ptr.Header?);
      NodesOfHead();
      Unlink(k);
      BuildBitmap(us, us.len, us.ptr.Header?, uf);
    }

    /** TAILQ_REMOVE */
    method Unlink(k: nat)
      requires k < |head|
      modifies this`head
      ensures head == Without(old(head), k)
      ensures Nodes() == Without(old(Nodes()), k) && Elems() == Without(old(Elems()), k)
    {
      hide ElemOf, Without;
      NodesOfHead();
      head := Without(head, k);
    }

    /** Makes the node at k a bitmap node. */
    method PointToBitmap(k: nat, ub: Block, len: nat)
      requires k < |head| && Distinct(head) && len <= NBITS == 64 * ub.words.Length
      modifies head[k]
      ensures Nodes() == old(Nodes())[k := Node(len, ToBitmap(ub))] && head[k].ptr == ToBitmap(ub)
      ensures Elems() == old(Elems())[k := Map(BitsOf(ub.words[..])[..len])]
    {
      ghost var nodes := Nodes();
      hide ElemOf;
      MapElem(len, ub);
      head[k].len, head[k].ptr := len, ToBitmap(ub);
      assert Nodes() == nodes[k := Node(len, ToBitmap(ub))];
    }

    lemma ConvertFacts(k: nat)
      requires Valid() && k + 1 < |head| && !head[k].ptr.ToBitmap?
      ensures Distinct(head) && head[k].words.Length == NWORDS
      ensures forall i | 0 <= i < |head| && head[i].ptr.ToBitmap? ::
        head[i].ptr.ub.words.Length == NWORDS && head[i].ptr.ub.words != head[k].words
    {
      NodesOfHead();
      forall i | 0 <= i < |head| && head[i].ptr.ToBitmap? ensures
        head[i].ptr.ub.words.Length == NWORDS && head[i].ptr.ub.words != head[k].words
      {
        assert Nodes()[i].ptr == head[i].ptr;
      }
    }

    /** The words of one bitmap are not those of another. */
    lemma BitmapsApart(k: nat)
      requires Valid() && k < |head| && head[k].ptr.ToBitmap?
      ensures forall i | 0 <= i < |head| && i != k && head[i].ptr.ToBitmap? ::
        head[i].ptr.ub.words != head[k].ptr.ub.words
    {
      forall i | 0 <= i < |head| && i != k && head[i].ptr.ToBitmap? ensures head[i].ptr.ub.words != head[k].ptr.ub.words {
        assert Nodes()[i].ptr == head[i].ptr && Nodes()[k].ptr == head[k].ptr;
      }
    }
  
    // ---------- reading the list ----------

    ghost function Footprint(): set<object>
      reads this`blocks
    {
      Memory(blocks)
    }

    lemma ElemsMatch()
      requires Valid()
      ensures forall i | 0 <= i < |head| :: Len(Elems()[i]) == head[i].len
      ensures forall i | 0 <= i < |head| :: Elems()[i].Map? <==> head[i].ptr.ToBitmap?
      ensures forall i | 0 <= i < |head| :: IsRun(Elems()[i], true) <==> head[i].ptr.Header?
      ensures forall i | 0 <= i < |head| :: IsRun(Elems()[i], false) <==> head[i].ptr.Null?
      ensures forall i | 0 <= i < |head| :: head[i] in Footprint() && head[i].words in Footprint()
      ensures forall i | 0 <= i < |head| && head[i].ptr.ToBitmap? :: head[i].ptr.ub.words in Footprint()
    {
      NodesOfHead();
      forall i | 0 <= i < |head| && head[i].ptr.ToBitmap? ensures
        head[i].ptr.ub in blocks && head[i].ptr.ub.words.Length == NWORDS && head[i].len <= NBITS
      {
        assert Nodes()[i].ptr == head[i].ptr;
      }
    }

    // ---------- optimize_unr ----------

    /** What would be saved by a bitmap that starts at element f. */
    method WindowCost(f: nat) returns (a: nat)
      requires Valid() && f < |head|
      ensures a == Window(Elems(), f)
    {
      hide Structured, ElemOf, ElemsOf, NodesOf, MapsOf;
      ghost var es := Elems();
      ElemsMatch();
      var uf := head[f];
      if uf.len >= NBITS { return 0; }
      a := if uf.ptr.ToBitmap? then 2 else 1;
      var l: nat, p: nat := uf.len, f + 1;
      while p < |head| && head[p].len + l <= NBITS
        invariant f < p <= |head|
        invariant a + WindowRest(es, p, l) == Window(es, f)
      {
        a := a + if head[p].ptr.ToBitmap? then 2 else 1;
        l := l + head[p].len;
        p := p + 1;
      }
    }

    /** The first pass of optimize_unr: the stretch that saves most memory, the earliest if several do. */
    method FindBest() returns (us: nat, ba: nat)
      requires Valid()
      ensures forall f | 0 <= f < |head| :: Window(Elems(), f) <= ba
      ensures ba > 0 ==> us < |head| && Window(Elems(), us) == ba && forall f | 0 <= f < us :: Window(Elems(), f) < ba
    {
      hide Structured, ElemOf, Window;
      ghost var es := Elems();
      us, ba := 0, 0;
      var f := 0;
      while f < |head|
        invariant 0 <= f <= |head|
        invariant Elems() == es
        invariant forall g | 0 <= g < f :: Window(es, g) <= ba
        invariant ba > 0 ==> us < f && Window(es, us) == ba && forall g | 0 <= g < us :: Window(es, g) < ba
      {
        var a := WindowCost(f);
        assert Elems() == es;
        if a > ba { us, ba := f, a; }
        f := f + 1;
      }
    }
  
    /** Appends the units of the next element to a bitmap and removes that element. */
    method AbsorbNext(k: nat)
      requires Valid() && k + 1 < |head| && head[k].ptr.ToBitmap?
      requires 0 < head[k + 1].len && head[k].len + head[k + 1].len <= NBITS
      modifies this`head, this`ppfree, this`alloc, Footprint()
      ensures Valid() && Elems() == Merged(old(Elems()), k)
      ensures alloc == old(alloc) - Cost(old(Elems())[k + 1])
    {
      hide Structured, ElemOf, ElemsOf, NodesOf, MapsOf;
      ElemsMatch();
      ghost var es := Elems();
      var uf := head[k + 1];
      if !uf.ptr.ToBitmap? {
        FillTail(k, uf.len, uf.ptr.Header?);
        ElemsMatch();
        DeleteNode(k + 1);
      } else {
        CopyTail(k);
        ElemsMatch();
        DropBitmapNode(k + 1);
      }
      MergedIs(es, k);
    }

    static lemma MergedIs(es: seq<Elem>, k: nat)
      requires k + 1 < |es|
      ensures var m := Map(Bits(es[k]) + Bits(es[k + 1]));
        Merged(es, k) == Without(es[k := m], k + 1) && Merged(es, k) == Without(es, k)[k := m]
    {
      hide Merged, Bits;
      var m := Map(Bits(es[k]) + Bits(es[k + 1]));
      MergedAt(es, k);
      assert Without(es[k := m], k + 1) == Merged(es, k);
      assert Without(es, k)[k := m] == Merged(es, k);
    }

    method ConvertNext(k: nat)
      requires Valid() && k + 1 < |head| && !head[k].ptr.ToBitmap?
      requires 0 < head[k + 1].len && head[k].len + head[k + 1].len <= NBITS
      modifies this`head, this`ppfree, this`alloc, Footprint()
      ensures Valid() && Elems() == Merged(old(Elems()), k)
      ensures alloc == old(alloc) + 1 - Cost(old(Elems())[k + 1])
    {
      hide Structured, ElemOf, ElemsOf, NodesOf, MapsOf;
      ElemsMatch();
      NodesOfHead();
      ghost var es := Elems();
      Convert(k);
      MergedIs(es, k);
    }

    /** The elements describe the space, and alloc counts their memory exactly. */
    ghost predicate ListOk()
      reads this`head, this`ppfree, this`blocks, this`alloc, head, MapsOf(head)
    {
      Valid() && AllGood(Elems()) && NoEqualNeighbours(Elems()) && alloc == CostSum(Elems())
    }

    /** Elements k and k + 1 become one bitmap. */
    method MergeNext(k: nat)
      requires ListOk() && k + 1 < |head| && Len(Elems()[k]) + Len(Elems()[k + 1]) <= NBITS
      modifies this`head, this`ppfree, this`alloc, Footprint()
      ensures ListOk() && Elems() == Merged(old(Elems()), k) && Flat(Elems()) == Flat(old(Elems()))
      ensures EndsOk(old(Elems())) ==> EndsOk(Elems())
      ensures alloc == old(alloc) + 2 - Cost(old(Elems())[k]) - Cost(old(Elems())[k + 1])
    {
      hide Structured, ElemOf, ElemsOf, NodesOf, MapsOf, AllGood, NoEqualNeighbours, EndsOk;
      ElemsMatch();
      MergedOk(Elems(), k);
      MergedSame(Elems(), k);
      GoodLength(Elems(), k + 1);
      if head[k].ptr.ToBitmap? { AbsorbNext(k); } else { ConvertNext(k); }
    }

    /**
     optimize_unr: turns the stretch that saves most memory into one bitmap.  No unit changes, and
     every success lowers alloc.
     */
    method OptimizeUnr() returns (more: bool)
      requires ListOk()
      modifies this`head, this`ppfree, this`alloc, Footprint()
      ensures ListOk() && Flat(Elems()) == Flat(old(Elems()))
      ensures EndsOk(old(Elems())) ==> EndsOk(Elems())
      ensures !more ==> Elems() == old(Elems()) && alloc == old(alloc) && NoGain(Elems())
      ensures more ==> alloc < old(alloc)
    {
      hide Structured, ElemOf, AllGood, NoEqualNeighbours, EndsOk, CostSum, Flat;
      ghost var es := Elems();
      var us, ba := FindBest();
      assert Elems() == es;
      if ba < 3 {
        return false;
      }
      more := true;
      ElemsMatch();
      WindowCases(es, us);
      if !head[us].ptr.ToBitmap? {
        MergedAt(es, us);
        MergeNext(us);
      }
      GrowBitmap(us);
    }

    /** The second pass of optimize_unr: appends neighbours to the bitmap as long as they fit. */
    method GrowBitmap(us: nat)
      requires ListOk() && us < |head| && Elems()[us].Map?
      modifies this`head, this`ppfree, this`alloc, Footprint()
      ensures ListOk() && Flat(Elems()) == Flat(old(Elems()))
      ensures EndsOk(old(Elems())) ==> EndsOk(Elems())
      ensures alloc <= old(alloc)
      ensures us + 1 < |old(Elems())| && Len(old(Elems())[us]) + Len(old(Elems())[us + 1]) <= NBITS ==> alloc < old(alloc)
    {
      hide Structured, ElemOf, ElemsOf, NodesOf, MapsOf, AllGood, NoEqualNeighbours, EndsOk, CostSum, Flat;
      ghost var es, alloc0 := Elems(), alloc;
      ElemsMatch();
      while us + 1 < |head| && head[us].len + head[us + 1].len <= NBITS
        invariant ListOk() && Flat(Elems()) == Flat(es) && (EndsOk(es) ==> EndsOk(Elems()))
        invariant us < |head| && Elems()[us].Map?
        invariant alloc < alloc0 || (alloc == alloc0 && Elems() == es)
        decreases |head|
      {
        ElemsMatch();
        MergedAt(Elems(), us);
        MergeNext(us);
      }
      ElemsMatch();
    }
  
    // ---------- collapse_unr ----------

    /** The list while element i is being changed. */
    ghost predicate HotList(i: nat)
      reads this`head, this`ppfree, this`blocks, this`alloc, head, MapsOf(head)
    {
      Valid() && HotOk(Elems(), i) && alloc == CostSum(Elems())
    }

    /** ub_full and ub_empty: is the bitmap free of bits that are not b? */
    method UbAll(k: nat, b: bool) returns (all: bool)
      requires Valid() && k < |head| && head[k].ptr.ToBitmap?
      ensures all == (!b !in Elems()[k].bits)
    {
      BitSearch(k);
      var found: int;
      if b {
        found := BitFfc(head[k].ptr.ub.words, head[k].len);
      } else {
        found := BitFfs(head[k].ptr.ub.words, head[k].len);
      }
      all := found == -1;
    }

    lemma BitSearch(k: nat)
      requires Valid() && k < |head| && head[k].ptr.ToBitmap?
      ensures head[k].len <= NBITS == 64 * head[k].ptr.ub.words.Length
      ensures forall b :: FirstIn(BitsOf(head[k].ptr.ub.words[..]), 0, head[k].len, b) == -1 <==> b !in Elems()[k].bits
    {
      BitmapLength(k);
      var all, len := BitsOf(head[k].ptr.ub.words[..]), head[k].len;
      assert Elems()[k].bits == all[..len];
      forall b ensures FirstIn(all, 0, len, b) == -1 <==> b !in all[..len] {
        var r := FirstIn(all, 0, len, b);
        if r != -1 { assert all[..len][r] == b; }
      }
    }

    /** A bitmap whose bits agree turns into a run. */
    method CollapseBitmap(i: nat)
      requires HotList(i)
      modifies this`ppfree, this`alloc, Footprint()
      ensures HotList(i) && Flat(Elems()) == Flat(old(Elems()))
      ensures i < |head| && (Len(Elems()[i]) > 0 ==> Good(Elems()[i]))
    {
      hide Structured, ElemOf, CostSum, Flat;
      ElemsMatch();
      if head[i].ptr.ToBitmap? {
        ghost var es := Elems();
        var full := UbAll(i, true);
        var empty := UbAll(i, false);
        assert Elems() == es && HotList(i);
        if full || empty {
          UnmixedToRun(i, full);
        } else {
          MixedIsGood(es, i);
        }
      }
    }

    static lemma MixedIsGood(es: seq<Elem>, i: nat)
      requires HotOk(es, i) && es[i].Map? && Mixed(es[i].bits)
      ensures Good(es[i])
    {}

    method UnmixedToRun(i: nat, used: bool)
      requires HotList(i) && head[i].ptr.ToBitmap? && Elems()[i].Map? && !used !in Elems()[i].bits
      modifies this`ppfree, this`alloc, Footprint()
      ensures HotList(i) && Flat(Elems()) == Flat(old(Elems()))
      ensures Elems()[i].Run?
    {
      hide Structured, ElemOf, ElemsOf, NodesOf, MapsOf, CostSum, Flat;
      ElemsMatch();
      UnmixedIsRun(Elems()[i].bits, used);
      UpdateSame(Elems(), i, Run(used, Len(Elems()[i])));
      HotUpdate(Elems(), i, Run(used, Len(Elems()[i])));
      BitmapToRun(i, used);
    }

    /** An empty run leaves the list; the hot spot then is a neighbour, or -1 without one. */
    method DropEmpty(i: nat) returns (hot: int)
      requires HotList(i) && (Len(Elems()[i]) > 0 ==> Good(Elems()[i]))
      modifies this`head, this`ppfree, this`alloc
      ensures Valid() && AllGood(Elems()) && alloc == CostSum(Elems()) && Flat(Elems()) == Flat(old(Elems()))
      ensures hot == -1 ==> Elems() == []
      ensures hot != -1 ==> 0 <= hot && HotOk(Elems(), hot)
    {
      hide Structured, ElemOf, ElemsOf, NodesOf, MapsOf, CostSum, Flat;
      ElemsMatch();
      if head[i].len != 0 {
        return i;
      }
      hot := if i > 0 then i - 1 else if |head| > 1 then 0 else -1;
      EmptyRemoved(Elems(), i);
      DeleteNode(i);
    }

    static lemma EmptyRemoved(es: seq<Elem>, i: nat)
      requires HotOk(es, i) && Len(es[i]) == 0
      ensures var es' := Without(es, i);
        && AllGood(es') && Flat(es') == Flat(es) && CostSum(es') == CostSum(es) - 1
        && (i > 0 ==> HotOk(es', i - 1)) && (i == 0 && |es| > 1 ==> HotOk(es', 0))
    {
      hide Splice, Flat, CostSum;
      RemoveEmpty(es, i);
      WithoutIsSplice(es, i);
      EmptyRemovedOk(es, i, Without(es, i));
    }

    static lemma WithoutIsSplice(es: seq<Elem>, i: nat)
      requires i < |es|
      ensures Without(es, i) == Splice(es, i, i + 1, [])
    {}

    /** Pointer equality of the ptr fields means equal runs: no two nodes share a bitmap. */
    lemma SamePtr(i: nat, j: nat)
      requires Valid() && i < j < |head|
      ensures head[i].ptr == head[j].ptr <==> SameRun(Elems()[i], Elems()[j])
    {
      assert Nodes()[i].ptr == head[i].ptr && Nodes()[j].ptr == head[j].ptr;
    }

    /** Joins element k + 1 into element k, or k into k + 1. */
    method Join(k: nat, keepLeft: bool)
      requires Valid() && k + 1 < |head| && SameRun(Elems()[k], Elems()[k + 1])
      modifies this`head, this`ppfree, this`alloc, Footprint()
      ensures Valid() && Elems() == Joined(old(Elems()), k) && alloc == old(alloc) - 1
    {
      hide Structured, ElemOf, ElemsOf, NodesOf, MapsOf, Without, Joined;
      if keepLeft { JoinInto(k, k, k + 1); } else { JoinInto(k, k + 1, k); }
    }

    method JoinInto(k: nat, kept: nat, other: nat)
      requires Valid() && k + 1 < |head| && SameRun(Elems()[k], Elems()[k + 1])
      requires (kept == k && other == k + 1) || (kept == k + 1 && other == k)
      modifies this`head, this`ppfree, this`alloc, Footprint()
      ensures Valid() && Elems() == Joined(old(Elems()), k) && alloc == old(alloc) - 1
    {
      hide Valid, ElemOf, ElemsOf, NodesOf, MapsOf, Without, Joined;
      ghost var es := Elems();
      JoinedIs(es, k);
      AddLength(kept, other);
      assert Elems() == es[kept := Run(es[k].used, es[k].length + es[k + 1].length)];
      DeleteNode(other);
    }

    method AddLength(up: nat, other: nat)
      requires Valid() && up < |head| && other < |head| && up != other && Elems()[up].Run? && Elems()[other].Run?
      modifies Footprint()
      ensures Valid() && !head[other].ptr.ToBitmap?
      ensures Elems() == old(Elems())[up := Run(old(Elems())[up].used, old(Elems())[up].length + old(Elems())[other].length)]
    {
      hide Structured, ElemOf, ElemsOf, NodesOf, MapsOf;
      ElemsMatch();
      SetRun(up, head[up].ptr.Header?, head[up].len + head[other].len);
      ElemsMatch();
    }

    static lemma JoinedIs(es: seq<Elem>, k: nat)
      requires k + 1 < |es| && SameRun(es[k], es[k + 1])
      ensures var r := Run(es[k].used, es[k].length + es[k + 1].length);
        Without(es[k := r], k + 1) == Joined(es, k) && Without(es[k + 1 := r], k) == Joined(es, k)
    {
      hide Joined;
      JoinedAt(es, k);
      var r := Run(es[k].used, es[k].length + es[k + 1].length);
      assert Without(es[k := r], k + 1) == Joined(es, k);
      assert Without(es[k + 1 := r], k) == Joined(es, k);
    }

    /** Merges elements k and k + 1 if they are equal runs. */
    method JoinIfEqual(k: nat, keepLeft: bool) returns (joined: bool)
      requires Valid() && k + 1 < |head| && AllGood(Elems()) && alloc == CostSum(Elems())
      modifies this`head, this`ppfree, this`alloc, Footprint()
      ensures Valid() && AllGood(Elems()) && alloc == CostSum(Elems()) && Flat(Elems()) == Flat(old(Elems()))
      ensures joined == SameRun(old(Elems())[k], old(Elems())[k + 1])
      ensures Elems() == if joined then Joined(old(Elems()), k) else old(Elems())
    {
      hide Structured, ElemOf, ElemsOf, NodesOf, MapsOf, CostSum, Flat;
      SamePtr(k, k + 1);
      joined := head[k].ptr == head[k + 1].ptr;
      if joined {
        JoinedSame(Elems(), k);
        JoinedAt(Elems(), k);
        Join(k, keepLeft);
      }
    }

    /** The element at the hot spot and runs of its kind next to it become one. */
    method MergeNeighbours(hot: nat)
      requires HotList(hot) && AllGood(Elems())
      modifies this`head, this`ppfree, this`alloc, Footprint()
      ensures ListOk() && Flat(Elems()) == Flat(old(Elems()))
    {
      hide Structured, ElemOf, ElemsOf, NodesOf, MapsOf, CostSum, Flat, Valid;
      var up := hot;
      ghost var es := Elems();
      if up > 0 {
        if SameRun(es[up - 1], es[up]) { JoinedHot(es, up - 1, up); }
        var joined := JoinIfEqual(up - 1, false);
        if joined { up := up - 1; }
      }
      ghost var es1 := Elems();
      if up + 1 < |head| {
        if SameRun(es1[up], es1[up + 1]) { JoinedHot(es1, up, up); }
        var joined := JoinIfEqual(up, true);
      }
      HotSettled(Elems(), up);
    }

    static lemma HotSettled(es: seq<Elem>, i: nat)
      requires HotOk(es, i) && Apart(es, i - 1) && Apart(es, i)
      ensures NoEqualNeighbours(es)
    {}

    /** After joining, only the right neighbour can still be equal; after that, none. */
    static lemma JoinedHot(es: seq<Elem>, k: nat, hot: nat)
      requires HotOk(es, hot) && AllGood(es) && (hot == k || hot == k + 1) && k + 1 < |es| && SameRun(es[k], es[k + 1])
      ensures HotOk(Joined(es, k), k)
      ensures hot == k + 1 && k > 0 ==> !SameRun(Joined(es, k)[k - 1], Joined(es, k)[k])
      ensures hot == k && k > 0 && !SameRun(es[k - 1], es[k]) ==> !SameRun(Joined(es, k)[k - 1], Joined(es, k)[k])
      ensures hot == k ==> Apart(Joined(es, k), k)
    {
      hide Joined;
      JoinedAt(es, k);
      var es' := Joined(es, k);
      forall i | 0 <= i < |es'| - 1 && (i < k - 1 || i > k) ensures Apart(es', i) {
        assert Apart(es, if i < k then i else i + 1);
      }
      if k > 0 { assert hot == k + 1 ==> Apart(es, k - 1); }
      assert hot == k ==> Apart(es, k + 1);
    }
  
    /** The whole space, one boolean per unit. */
    ghost function Space(): seq<bool>
      reads this`head, this`first, this`last, head, MapsOf(head)
    {
      Units(first, Elems(), last)
    }

    /** A used run at the head is absorbed by first, and the list then starts with something else. */
    method MergeIntoFirst()
      requires ListOk()
      modifies this`head, this`ppfree, this`alloc, this`first
      ensures ListOk() && Space() == old(Space())
      ensures head != [] ==> !IsRun(Elems()[0], true)
    {
      hide Structured, ElemOf, CostSum, Flat, Units, AllGood, NoEqualNeighbours;
      ElemsMatch();
      if head != [] && head[0].ptr.Header? {
        ghost var es := Elems();
        ShiftFirst(first, es, last);
        assert Without(es, 0) == es[1..];
        first := first + head[0].len;
        assert Elems() == es;
        assert Valid();
        DeleteNode(0);
        assert Elems() == es[1..];
        assert ListOk();
        assert Units(first, Elems(), last) == old(Space());
      }
    }

    /** A free run at the tail is absorbed by last, and the list then ends with something else. */
    method MergeIntoLast()
      requires ListOk() && (head != [] ==> !IsRun(Elems()[0], true))
      modifies this`head, this`ppfree, this`alloc, this`last
      ensures ListOk() && Space() == old(Space()) && EndsOk(Elems())
    {
      hide Structured, ElemOf, CostSum, Flat, Units, AllGood, NoEqualNeighbours;
      ElemsMatch();
      if head != [] && head[|head| - 1].ptr.Null? {
        ghost var es := Elems();
        ShiftLast(first, es, last);
        assert Without(es, |es| - 1) == es[..|es| - 1];
        last := last + head[|head| - 1].len;
        assert Elems() == es;
        assert Valid();
        DeleteNode(|head| - 1);
        assert Elems() == es[..|es| - 1];
        assert ListOk();
        assert Units(first, Elems(), last) == old(Space());
      }
    }

    /** collapse_unr: puts the list back in order around element i without changing any unit. */
    method CollapseUnr(i: nat)
      requires HotList(i)
      modifies this`head, this`ppfree, this`alloc, this`first, this`last, Footprint()
      ensures ListOk() && EndsOk(Elems()) && NoGain(Elems())
      ensures Space() == old(Space())
    {
      hide Structured, ElemOf, CostSum, Flat, AllGood, NoEqualNeighbours, HotOk, EndsOk, NoGain;
      CollapseBitmap(i);
      var hot := DropEmpty(i);
      if hot != -1 {
        MergeNeighbours(hot);
      } else {
        EmptyIsOk(Elems());
      }
      MergeIntoFirst();
      MergeIntoLast();
      var more := true;
      while more
        invariant ListOk() && EndsOk(Elems()) && Space() == old(Space())
        invariant !more ==> NoGain(Elems())
        decreases more, alloc
      {
        CostIsNat(Elems());
        more := OptimizeUnr();
      }
    }

    static lemma EmptyIsOk(es: seq<Elem>)
      ensures es == [] ==> AllGood(es) && NoEqualNeighbours(es)
    {}

    static lemma CostIsNat(es: seq<Elem>)
      ensures CostSum(es) >= 0
    {}
    // ---------- init_unrhdr ----------

    /** The space satisfies its invariant, the one every operation starts from and leaves. */
    ghost predicate Consistent()
      reads this, head, MapsOf(head)
    {
      Valid() && low <= high && SpaceOk(first, Elems(), last, high - low + 1, busy, alloc)
    }

    /** init_unrhdr: every unit from low to high is free. */
    constructor (low: nat, high: nat)
      requires low <= high
      ensures Consistent() && this.low == low && this.high == high
      ensures Space() == Repeat(false, high - low + 1) && blocks == {} && ppfree == []
    {
      this.low, this.high := low, high;
      busy, alloc := 0, 0;
      head, ppfree, blocks := [], [], {};
      first, last := 0, 1 + (high - low);
      new;
      CountRepeat(false, last);
      assert Space() == Repeat(false, last);
    }

    // ---------- check_unrhdr ----------

    /**
     check_unrhdr: the three consistency assertions hold.  Each bitmap has at most NBITS units, the
     units counted are busy, and the blocks counted are alloc.
     */
    method CheckUnrhdr() returns (y: nat, z: nat)
      requires Consistent()
      ensures y == busy && z == alloc
      ensures Consistent() && Space() == old(Space())
    {
      hide Structured, ElemOf, Flat, CostSum, CountTrue;
      ghost var es := Elems();
      ElemsMatch();
      y, z := first, 0;
      var k := 0;
      CountPrefixStart(es);
      while k < |head|
        invariant 0 <= k <= |head|
        invariant Valid() && Elems() == es
        invariant y == first + CountTrue(Flat(es[..k])) && z == CostSum(es[..k])
      {
        ElemsMatch();
        CountPrefix(es, k);
        z := z + 1;
        if head[k].ptr.ToBitmap? {
          BitmapLength(k);
          assert head[k].len <= NBITS;
          z := z + 1;
          var w := CountMap(k);
          y := y + w;
        } else if head[k].ptr.Header? {
          y := y + head[k].len;
        }
        k := k + 1;
      }
      CountWhole(first, es, last);
      assert es[..k] == es;
    }

    method CountMap(k: nat) returns (w: nat)
      requires Valid() && k < |head| && head[k].ptr.ToBitmap?
      ensures w == CountTrue(Bits(Elems()[k]))
    {
      BitmapLength(k);
      var ub, len := head[k].ptr.ub, head[k].len;
      w := BitCount.BitCount(ub.words, 0, len);
      CountsAgree(BitsOf(ub.words[..]), len);
      MapElem(len, ub);
      assert ElemsOf(head)[k] == ElemOf(Node(len, head[k].ptr));
    }

    /** The count of bitstring.h is the count of used units. */
    static lemma {:induction false} CountsAgree(bits: seq<bool>, n: nat)
      requires n <= |bits|
      ensures BitCount.CountIn(bits, 0, n) == CountTrue(bits[..n])
    {
      if n > 0 {
        CountsAgree(bits, n - 1);
        assert bits[..n] == bits[..n - 1] + [bits[n - 1]];
        CountAppend(bits[..n - 1], [bits[n - 1]]);
      }
    }

    static lemma CountPrefixStart(es: seq<Elem>)
      ensures CountTrue(Flat(es[..0])) == 0 && CostSum(es[..0]) == 0
    {}

    static lemma CountPrefix(es: seq<Elem>, k: nat)
      requires k < |es|
      ensures CountTrue(Flat(es[..k + 1])) == CountTrue(Flat(es[..k])) + CountTrue(Bits(es[k]))
      ensures CostSum(es[..k + 1]) == CostSum(es[..k]) + Cost(es[k])
      ensures es[k].Run? ==> CountTrue(Bits(es[k])) == if es[k].used then es[k].length else 0
    {
      assert es[..k + 1] == es[..k] + [es[k]];
      FlatAppend(es[..k], [es[k]]);
      CostAppend(es[..k], [es[k]]);
      FlatOne(es[k]);
      CountAppend(Flat(es[..k]), Bits(es[k]));
      if es[k].Run? { CountRepeat(es[k].used, es[k].length); }
    }

    static lemma CountWhole(first: nat, es: seq<Elem>, last: nat)
      ensures CountTrue(Units(first, es, last)) == first + CountTrue(Flat(es))
    {
      CountAppend(Repeat(true, first) + Flat(es), Repeat(false, last));
      CountAppend(Repeat(true, first), Flat(es));
      CountRepeat(true, first);
      CountRepeat(false, last);
    }

    // ---------- alloc_unr ----------

    /** An element was changed in place: the list has one hot element. */
    lemma HotAgain(i: nat)
      requires Valid() && HotOk(Elems(), i) && alloc == CostSum(Elems())
      ensures HotList(i)
    {}

    /** The end of both operations: collapse the list; the count of units in use follows the space. */
    method Settle(i: nat, ghost was: seq<bool>, ghost unit: nat)
      requires HotList(i) && low <= high
      requires unit < |was| == high - low + 1 && Space() == was[unit := !was[unit]]
      requires busy == CountTrue(was) + (if was[unit] then -1 else 1)
      modifies this`head, this`ppfree, this`alloc, this`first, this`last, Footprint()
      ensures Consistent() && Space() == was[unit := !was[unit]]
    {
      hide HotList, ListOk, Units, CountTrue, Structured, MapsOf, ElemsOf;
      CountUpdate(was, unit, !was[unit]);
      CollapseUnr(i);
      InOrder();
    }

    lemma InOrder()
      requires ListOk() && EndsOk(Elems()) && NoGain(Elems()) && low <= high
      requires |Space()| == high - low + 1 && busy == CountTrue(Space())
      ensures Consistent()
    {}

    lemma ConsistentIs()
      requires Consistent()
      ensures ListOk() && EndsOk(Elems()) && NoGain(Elems()) && low <= high
      ensures |Space()| == high - low + 1 && busy == CountTrue(Space())
    {}

    /** An ideal split: the list is empty and only first and last change. */
    method TakeFromLast() returns (x: int)
      requires Consistent() && head == [] && last > 0
      modifies this`first, this`last, this`busy
      ensures Consistent() && x == low + old(first) && FirstFree(old(Space()), old(first))
      ensures Space() == old(Space())[old(first) := true]
    {
      FirstOfRun(first, [], last);
      SplitMoves(first, last);
      CountUpdate(Space(), first, true);
      x := low + first;
      first, last, busy := first + 1, last - 1, busy + 1;
      assert Elems() == [];
      assert Space() == old(Space())[old(first) := true];
    }

    /** The first element is a free run. */
    method TakeFromRun() returns (x: int)
      requires Consistent() && head != [] && head[0].ptr.Null?
      modifies this`head, this`ppfree, this`alloc, this`first, this`last, this`busy, Footprint()
      ensures Consistent() && low <= x && FirstFree(old(Space()), x - low)
      ensures Space() == old(Space())[x - low := true]
    {
      hide Consistent, Structured, Units, ElemsOf, NodesOf, MapsOf, HotOk, AllGood, NoEqualNeighbours, EndsOk, NoGain, HotList;
      ConsistentIs();
      ghost var was, unit := Space(), first;
      x := low + first;
      ShrinkFirstRun();
      Settle(0, was, unit);
    }

    method ShrinkFirstRun()
      requires ListOk() && head != [] && head[0].ptr.Null?
      modifies this`first, this`busy, Footprint()
      ensures HotList(0) && busy == old(busy) + 1
      ensures FirstFree(old(Space()), old(first)) && Space() == old(Space())[old(first) := true]
    {
      hide Structured, Units, ElemOf, ElemsOf, NodesOf, MapsOf, HotOk, AllGood, NoEqualNeighbours, FirstFree;
      ghost var es := Elems();
      ElemsMatch();
      RunShrinks(first, es, last);
      FirstOfRun(first, es, last);
      SetRun(0, false, head[0].len - 1);
      HotAgain(0);
      Advance(0);
    }

    /** One more unit before the list, one more in use. */
    method Advance(i: nat)
      requires HotList(i)
      modifies this`first, this`busy
      ensures HotList(i) && Elems() == old(Elems()) && first == old(first) + 1 && busy == old(busy) + 1
    {
      hide Structured, ElemOf, HotOk, CostSum;
      ghost var es := Elems();
      first, busy := first + 1, busy + 1;
      assert Elems() == es;
      assert Valid();
    }

    /** The first element is a bitmap. */
    method TakeFromBitmap() returns (x: int)
      requires Consistent() && head != [] && head[0].ptr.ToBitmap?
      modifies this`head, this`ppfree, this`alloc, this`first, this`last, this`busy, Footprint()
      ensures Consistent() && low <= x && FirstFree(old(Space()), x - low)
      ensures Space() == old(Space())[x - low := true]
    {
      ConsistentIs();
      hide Consistent, Structured, Units, ElemsOf, NodesOf, MapsOf, HotOk, AllGood, NoEqualNeighbours, EndsOk, NoGain, HotList, FirstFree;
      ghost var was := Space();
      var y := SetFirstClear();
      FirstFreeIn(was, first + y);
      x := low + first + y;
      ghost var unit := first + y;
      CountBusy(0, 1);
      Settle(0, was, unit);
    }

    method CountBusy(i: nat, d: int)
      requires HotList(i)
      modifies this`busy
      ensures HotList(i) && Space() == old(Space()) && busy == old(busy) + d
    {
      hide Structured, ElemOf, HotOk, CostSum, Units;
      ghost var es := Elems();
      busy := busy + d;
      assert Elems() == es;
      assert Valid();
    }

    method SetFirstClear() returns (y: nat)
      requires ListOk() && head != [] && head[0].ptr.ToBitmap?
      modifies Footprint()
      ensures HotList(0) && FirstFree(old(Space()), first + y) && Space() == old(Space())[first + y := true]
    {
      hide Structured, Units, ElemOf, HotOk, AllGood, NoEqualNeighbours, FirstFree;
      ghost var es := Elems();
      y := FirstClear();
      assert Elems() == es && Valid();
      ElemsMatch();
      FirstOfMap(first, es, last, y);
      FirstFreeIn(es[0].bits, y);
      MapUpdates(es, 0, y, true);
      UnitsUpdate(first, es, es[0 := Map(es[0].bits[y := true])], last, y, true);
      SetMapBit(0, y, true);
      HotAgain(0);
    }

    static lemma FirstFreeIn(s: seq<bool>, i: int)
      requires FirstFree(s, i)
      ensures 0 <= i < |s| && !s[i] && false in s
    {}

    /** A bitmap of the list has a clear bit: that it has none is never reported. */
    method FirstClear() returns (y: nat)
      requires Valid() && AllGood(Elems()) && head != [] && head[0].ptr.ToBitmap?
      ensures Elems()[0].Map? && y < |Elems()[0].bits| && FirstFree(Elems()[0].bits, y)
    {
      BitmapLength(0);
      GoodLength(Elems(), 0);
      assert Elems()[0].bits == BitsOf(head[0].ptr.ub.words[..])[..head[0].len];
      BitSearch(0);
      var found := BitFfc(head[0].ptr.ub.words, head[0].len);
      assert found != -1;
      y := found;
    }

    /** alloc_unrl: the least free unit, or -1 exactly when every unit is in use. */
    method AllocUnrl() returns (x: int)
      requires Consistent()
      modifies this`head, this`ppfree, this`alloc, this`first, this`last, this`busy, Footprint()
      ensures Consistent()
      ensures x == -1 <==> false !in old(Space())
      ensures x == -1 ==> Space() == old(Space())
      ensures x != -1 ==> low <= x && FirstFree(old(Space()), x - low) && Space() == old(Space())[x - low := true]
    {
      hide Structured, Units, ElemOf, Consistent, FirstFree;
      ghost var was := Space();
      var y, z := CheckUnrhdr();
      if head == [] && last > 0 {
        x := TakeFromLast();
      } else if head == [] {
        NoneFree(first);
        assert Elems() == [];
        x := -1;
      } else {
        HeadNotUsed();
        assert !head[0].ptr.Header?;
        if head[0].ptr.Null? {
          x := TakeFromRun();
        } else {
          x := TakeFromBitmap();
        }
      }
      if x != -1 { FirstFreeIn(was, x - low); }
    }

    lemma HeadNotUsed()
      requires Consistent() && head != []
      ensures !head[0].ptr.Header?
    {
      ElemsMatch();
    }

    // ---------- free_unr ----------

    static lemma SpareTaken(blocks: set<Block>, p1: Block?, p2: Block?, p: Block, q1: Block?, q2: Block?)
      requires SparesOk(blocks, p1, p2) && (p1 != null || p2 != null)
      requires if p1 != null then p == p1 && q1 == null && q2 == p2 else p == p2 && q1 == null && q2 == null
      ensures p !in blocks && OwnWords(blocks + {p}) && p in SpareSet(p1, p2)
      ensures SparesOk(blocks + {p}, q1, q2) && blocks + {p} + SpareSet(q1, q2) == blocks + SpareSet(p1, p2)
    {
      assert blocks + {p} + SpareSet(q1, q2) == blocks + SpareSet(p1, p2);
    }

    /** new_unr, and the used run made from the block: the spare blocks never run out. */
    method NewRun(k: nat, len: nat, p1: Block?, p2: Block?) returns (q1: Block?, q2: Block?)
      requires Valid() && k <= |head| && SparesOk(blocks, p1, p2) && (p1 != null || p2 != null)
      modifies this`head, this`alloc, this`blocks, SpareSet(p1, p2)
      ensures Valid() && Elems() == Insert(old(Elems()), k, Run(true, len)) && alloc == old(alloc) + 1
      ensures SparesOk(blocks, q1, q2) && blocks + SpareSet(q1, q2) == old(blocks) + SpareSet(p1, p2)
      ensures q1 == null && (p1 != null ==> q2 == p2) && ppfree == old(ppfree)
    {
      hide Structured, OwnWords, Insert, ElemsOf, NodesOf, MapsOf, SparesOk, SpareSet;
      var p: Block;
      if p1 != null {
        p, q1, q2 := p1, null, p2;
      } else {
        p, q1, q2 := p2, null, null;
      }
      SpareTaken(blocks, p1, p2, p, q1, q2);
      InsertRun(k, true, len, p);
    }

    static lemma MemoryGrows(a: set<Block>, b: set<Block>)
      requires a <= b
      ensures Memory(a) <= Memory(b)
    {}

    /** The list is empty and the greatest used unit is freed: first shrinks and last grows. */
    method GiveToLast()
      requires Consistent() && head == [] && first > 0
      modifies this`first, this`last, this`busy
      ensures Consistent() && Space() == old(Space())[old(first) - 1 := false]
    {
      SplitMovesBack(first, last);
      CountUpdate(Space(), first - 1, false);
      last, first, busy := last + 1, first - 1, busy - 1;
      assert Elems() == [];
      assert Space() == old(Space())[old(first) - 1 := false];
    }

    /** The units below first are shortened to end before the one freed; the rest of them becomes a used run. */
    method OpenFirst(item: nat, p1: Block?, p2: Block?) returns (q1: Block?, q2: Block?)
      requires ListOk() && EndsOk(Elems()) && item < first && SparesOk(blocks, p1, p2) && p1 != null
      modifies this`head, this`alloc, this`blocks, this`first, SpareSet(p1, p2)
      ensures ListOk() && Space() == old(Space()) && first == item
      ensures SparesOk(blocks, q1, q2) && blocks + SpareSet(q1, q2) == old(blocks) + SpareSet(p1, p2) && q2 == p2
    {
      hide Structured, OwnWords, ElemsOf, NodesOf, MapsOf, SparesOk, SpareSet, Units, AllGood, NoEqualNeighbours, EndsOk, CostSum, Insert;
      FirstBecomesRun(first, Elems(), last, item);
      InsertFront(Elems(), Run(true, first - item));
      q1, q2 := NewRun(0, first - item, p1, p2);
      LowerFirst(item);
    }

    static lemma InsertFront(es: seq<Elem>, e: Elem)
      ensures Insert(es, 0, e) == [e] + es
    {}

    method LowerFirst(item: nat)
      requires ListOk()
      modifies this`first
      ensures ListOk() && Elems() == old(Elems()) && first == item
    {
      hide Structured, ElemOf, AllGood, NoEqualNeighbours, CostSum;
      ghost var es := Elems();
      first := item;
      assert Elems() == es;
      assert Valid();
    }

    /** Finds the element that holds a unit, and the place of the unit in it. */
    method FindElement(item: nat) returns (k: nat, off: nat)
      requires Valid() && item < |Flat(Elems())|
      ensures k < |head| && off < Len(Elems()[k]) && Start(Elems(), k) + off == item
      ensures Valid() && Elems() == old(Elems())
    {
      hide Structured, ElemOf, Start, Flat;
      ghost var es := Elems();
      ElemsMatch();
      k, off := 0, item;
      StartZero(es);
      StartEnd(es);
      while head[k].len <= off
        invariant Valid() && Elems() == es
        invariant k < |head| && Start(es, k) + off == item
        decreases |head| - k
      {
        ElemsMatch();
        StartNext(es, k);
        off := off - head[k].len;
        k := k + 1;
      }
      ElemsMatch();
    }

    /** The unit is in a bitmap. */
    method FreeInBitmap(k: nat, off: nat)
      requires ListOk() && k < |head| && head[k].ptr.ToBitmap? && Elems()[k].Map? && off < |Elems()[k].bits|
      requires Start(Elems(), k) + off < |Flat(Elems())|
      modifies Footprint()
      ensures HotList(k) && Space() == old(Space())[first + old(Start(Elems(), k)) + off := false]
    {
      hide Structured, Units, ElemOf, ElemsOf, NodesOf, MapsOf, HotOk, AllGood, NoEqualNeighbours, Start;
      ghost var es := Elems();
      ElemsMatch();
      MapUpdates(es, k, off, false);
      UnitsUpdate(first, es, es[k := Map(es[k].bits[off := false])], last, Start(es, k) + off, false);
      SetMapBit(k, off, false);
      HotAgain(k);
    }

    /** The unit is in a used run; afterwards element hot is out of order. */
    method FreeInRun(k: nat, off: nat, p1: Block?, p2: Block?) returns (hot: nat, q1: Block?, q2: Block?)
      requires ListOk() && k < |head| && head[k].ptr.Header? && IsRun(Elems()[k], true) && off < Elems()[k].length
      requires Start(Elems(), k) + off < |Flat(Elems())|
      requires SparesOk(blocks, p1, p2) && p2 != null && (off > 0 ==> p1 != null)
      modifies this`head, this`alloc, this`blocks, Memory(blocks + SpareSet(p1, p2))
      ensures HotList(hot) && Space() == old(Space())[first + old(Start(Elems(), k)) + off := false]
      ensures SparesOk(blocks, q1, q2) && blocks + SpareSet(q1, q2) == old(blocks) + SpareSet(p1, p2)
    {
      hide Structured, OwnWords, ElemsOf, NodesOf, MapsOf, SparesOk, SpareSet, Units, HotOk, AllGood, NoEqualNeighbours, CostSum, Start;
      q1, q2 := p1, p2;
      ElemsMatch();
      MemoryGrows(blocks, blocks + SpareSet(p1, p2));
      hot := k;
      if head[k].len == 1 {
        FreeLone(k);
      } else if off == 0 && k > 0 && head[k - 1].ptr.Null? {
        FreeToPrevious(k);
      } else if off == head[k].len - 1 && k + 1 < |head| && head[k + 1].ptr.Null? {
        FreeToNext(k);
      } else {
        hot, q1, q2 := FreeBySplit(k, off, p1, p2);
      }
    }

    /** A run of the one unit freed only changes its kind. */
    method FreeLone(k: nat)
      requires ListOk() && k < |head| && Elems()[k] == Run(true, 1)
      modifies Footprint()
      ensures HotList(k) && 0 <= first + old(Start(Elems(), k)) < |old(Space())|
      ensures Space() == old(Space())[first + old(Start(Elems(), k)) := false]
    {
      hide Structured, ElemOf, ElemsOf, NodesOf, MapsOf, Units, HotOk, AllGood, NoEqualNeighbours, CostSum, Start;
      ghost var es := Elems();
      ElemsMatch();
      LoneFreed(es, k);
      UnitsUpdate(first, es, es[k := Run(false, 1)], last, Start(es, k), false);
      SetRun(k, false, 1);
      HotAgain(k);
    }

    /** Shift the unit into the previous free run. */
    method FreeToPrevious(k: nat)
      requires ListOk() && 0 < k < |head| && IsRun(Elems()[k], true) && Elems()[k].length > 1 && IsRun(Elems()[k - 1], false)
      modifies Footprint()
      ensures HotList(k) && 0 <= first + old(Start(Elems(), k)) < |old(Space())|
      ensures Space() == old(Space())[first + old(Start(Elems(), k)) := false]
    {
      hide Structured, ElemOf, ElemsOf, NodesOf, MapsOf, Units, HotOk, AllGood, NoEqualNeighbours, CostSum, Start;
      ghost var es := Elems();
      ElemsMatch();
      ShiftedLeft(es, k - 1);
      UnitsUpdate(first, es, Shifted(es, k - 1, es[k - 1].length + 1, es[k].length - 1), last, Start(es, k), false);
      MoveBoundary(k - 1, head[k - 1].len + 1, head[k].len - 1);
      HotAgain(k);
    }

    /** Shift the unit to the next free run. */
    method FreeToNext(k: nat)
      requires ListOk() && k + 1 < |head| && IsRun(Elems()[k], true) && Elems()[k].length > 1 && IsRun(Elems()[k + 1], false)
      modifies Footprint()
      ensures HotList(k) && 0 <= first + old(Start(Elems(), k) + Elems()[k].length) - 1 < |old(Space())|
      ensures Space() == old(Space())[first + old(Start(Elems(), k) + Elems()[k].length) - 1 := false]
    {
      hide Structured, ElemOf, ElemsOf, NodesOf, MapsOf, Units, HotOk, AllGood, NoEqualNeighbours, CostSum, Start;
      ghost var es := Elems();
      ElemsMatch();
      ShiftedRight(es, k);
      UnitsUpdate(first, es, Shifted(es, k, es[k].length - 1, es[k + 1].length + 1), last, Start(es, k) + es[k].length - 1, false);
      MoveBoundary(k, head[k].len - 1, head[k + 1].len + 1);
      HotAgain(k);
    }

    method FreeBySplit(k: nat, off: nat, p1: Block?, p2: Block?) returns (hot: nat, q1: Block?, q2: Block?)
      requires ListOk() && k < |head| && IsRun(Elems()[k], true) && off < Elems()[k].length
      requires SparesOk(blocks, p1, p2) && p2 != null && (off > 0 ==> p1 != null)
      modifies this`head, this`alloc, this`blocks, Memory(blocks + SpareSet(p1, p2))
      ensures HotList(hot) && 0 <= first + old(Start(Elems(), k)) + off < |old(Space())|
      ensures Space() == old(Space())[first + old(Start(Elems(), k)) + off := false]
      ensures SparesOk(blocks, q1, q2) && blocks + SpareSet(q1, q2) == old(blocks) + SpareSet(p1, p2)
    {
      hide Structured, OwnWords, ElemOf, ElemsOf, NodesOf, MapsOf, SparesOk, SpareSet, Units, HotOk, AllGood, NoEqualNeighbours,
           CostSum, Start, Splice, Pieces;
      ghost var es := Elems();
      Divided(es, k, off);
      UnitsUpdate(first, es, Splice(es, k, k + 1, Pieces(es[k].length, off)), last, Start(es, k) + off, false);
      hot, q1, q2 := Split(k, off, p1, p2);
      HotAgain(hot);
    }

    /** One unit moves between two neighbouring runs. */
    method MoveBoundary(k: nat, n: nat, m: nat)
      requires Valid() && k + 1 < |head| && Elems()[k].Run? && Elems()[k + 1].Run?
      modifies Footprint()
      ensures Valid() && Elems() == Shifted(old(Elems()), k, n, m)
    {
      hide Structured, ElemOf, ElemsOf, NodesOf, MapsOf;
      ElemsMatch();
      SetRun(k, head[k].ptr.Header?, n);
      ElemsMatch();
      SetRun(k + 1, head[k + 1].ptr.Header?, m);
    }

    /** Splits a used run around the unit that becomes free. */
    method Split(k: nat, off: nat, p1: Block?, p2: Block?) returns (hot: nat, q1: Block?, q2: Block?)
      requires Valid() && k < |head| && IsRun(Elems()[k], true) && off < Elems()[k].length
      requires SparesOk(blocks, p1, p2) && p2 != null && (off > 0 ==> p1 != null)
      modifies this`head, this`alloc, this`blocks, Memory(blocks + SpareSet(p1, p2))
      ensures Valid() && hot == (if off > 0 then k + 1 else k)
      ensures Elems() == Splice(old(Elems()), k, k + 1, Pieces(old(Elems())[k].length, off))
      ensures alloc == old(alloc) + (if off > 0 then 1 else 0) + (if off + 1 < old(Elems())[k].length then 1 else 0)
      ensures SparesOk(blocks, q1, q2) && blocks + SpareSet(q1, q2) == old(blocks) + SpareSet(p1, p2)
    {
      hide Structured, OwnWords, ElemsOf, NodesOf, MapsOf, SparesOk, SpareSet, ElemOf, Insert, Splice, Pieces;
      ghost var es, all := Elems(), blocks + SpareSet(p1, p2);
      SpareMemory(blocks, p1, p2);
      q1, q2 := SplitTail(k, off, p1, p2);
      ghost var es1 := Elems();
      BlocksGrow(blocks, SpareSet(q1, q2), all);
      SpareMemory(blocks, q1, q2);
      hot, q1, q2 := SplitHead(k, off, q1, q2);
      SplitIsSplice(es, k, off, es1, Elems());
      ElemsMatch();
      BlocksGrow(blocks, SpareSet(q1, q2), all);
      SetRun(hot, false, 1);
    }

    /** The units after the one freed get a run of their own, unless there are none. */
    method SplitTail(k: nat, off: nat, p1: Block?, p2: Block?) returns (q1: Block?, q2: Block?)
      requires Valid() && k < |head| && IsRun(Elems()[k], true) && off < Elems()[k].length
      requires SparesOk(blocks, p1, p2) && p2 != null
      modifies this`head, this`alloc, this`blocks, SpareSet(p1, p2)
      ensures Valid() && var pl := old(Elems())[k].length - (1 + off);
        && Elems() == (if pl > 0 then Insert(old(Elems()), k + 1, Run(true, pl)) else old(Elems()))
        && alloc == old(alloc) + if pl > 0 then 1 else 0
      ensures SparesOk(blocks, q1, q2) && blocks + SpareSet(q1, q2) == old(blocks) + SpareSet(p1, p2)
      ensures p1 != null ==> q2 == p2
    {
      hide Structured, OwnWords, ElemsOf, NodesOf, MapsOf, SparesOk, SpareSet, ElemOf, Insert;
      ElemsMatch();
      q1, q2 := p1, p2;
      var pl := head[k].len - (1 + off);
      if pl > 0 {
        q1, q2 := NewRun(k + 1, pl, p1, p2);
      }
    }

    /** The units before the one freed get a run of their own, unless there are none. */
    method SplitHead(k: nat, off: nat, p1: Block?, p2: Block?) returns (hot: nat, q1: Block?, q2: Block?)
      requires Valid() && k < |head| && SparesOk(blocks, p1, p2) && (off > 0 ==> p2 != null)
      modifies this`head, this`alloc, this`blocks, SpareSet(p1, p2)
      ensures Valid() && Elems() == (if off > 0 then Insert(old(Elems()), k, Run(true, off)) else old(Elems()))
      ensures alloc == old(alloc) + (if off > 0 then 1 else 0) && hot == if off > 0 then k + 1 else k
      ensures SparesOk(blocks, q1, q2) && blocks + SpareSet(q1, q2) == old(blocks) + SpareSet(p1, p2)
    {
      hide Structured, OwnWords, ElemsOf, NodesOf, MapsOf, SparesOk, SpareSet, ElemOf, Insert;
      hot, q1, q2 := k, p1, p2;
      if off > 0 {
        q1, q2 := NewRun(k, off, p1, p2);
        hot := k + 1;
      }
    }

    static lemma SpareMemory(blocks: set<Block>, p1: Block?, p2: Block?)
      ensures (set p: Block | p in SpareSet(p1, p2) :: p as object) <= Memory(blocks + SpareSet(p1, p2))
    {}

    static lemma SplitIsSplice(es: seq<Elem>, k: nat, off: nat, es1: seq<Elem>, es2: seq<Elem>)
      requires k < |es| && es[k].Run? && IsRun(es[k], true) && off < es[k].length
      requires es1 == if off + 1 < es[k].length then Insert(es, k + 1, Run(true, es[k].length - (1 + off))) else es
      requires es2 == if off > 0 then Insert(es1, k, Run(true, off)) else es1
      ensures var hot := if off > 0 then k + 1 else k;
        hot < |es2| && es2[hot] == es[k] && es2[hot := Run(false, 1)] == Splice(es, k, k + 1, Pieces(es[k].length, off))
    {
      hide *;
      var n := es[k].length;
      var left, right := UsedRun(off), UsedRun(n - off - 1);
      UsedRunIs(off);
      UsedRunIs(n - off - 1);
      CutOne(es, k);
      SplitMid(es[..k], es[k], es[k + 1..], left, right, es, es1, es2);
      SpliceIs(es, k, off);
    }

    static lemma CutOne(es: seq<Elem>, k: nat)
      requires k < |es|
      ensures es == es[..k] + [es[k]] + es[k + 1..]
    {}

    static lemma SpliceIs(es: seq<Elem>, k: nat, off: nat)
      requires k < |es| && es[k].Run? && off < es[k].length
      ensures Splice(es, k, k + 1, Pieces(es[k].length, off)) == es[..k] + UsedRun(off) + [Run(false, 1)] + (UsedRun(es[k].length - off - 1) + es[k + 1..])
    {
      hide UsedRun;
      Regrouped(es[..k], UsedRun(off), [Run(false, 1)], UsedRun(es[k].length - off - 1), es[k + 1..]);
    }

    static lemma SplitMid(a: seq<Elem>, e: Elem, b: seq<Elem>, left: seq<Elem>, right: seq<Elem>, es: seq<Elem>, es1: seq<Elem>, es2: seq<Elem>)
      requires es == a + [e] + b && |left| <= 1 && |right| <= 1
      requires es1 == if right != [] then Insert(es, |a| + 1, right[0]) else es
      requires es2 == if left != [] then Insert(es1, |a|, left[0]) else es1
      ensures |a| + |left| < |es2| && es2[|a| + |left|] == e
      ensures es2[|a| + |left| := Run(false, 1)] == a + left + [Run(false, 1)] + (right + b)
    {
      hide Insert;
      TailParts(a, e, b, right, es1);
      HeadParts(a, [e] + right + b, left, es2);
      Regrouped2(a, left, [e], right, b);
      MidUpdated(a + left, e, Run(false, 1), right + b);
    }

    static lemma UsedRunIs(n: nat)
      ensures UsedRun(n) == if n == 0 then [] else [Run(true, n)]
    {}

    static lemma TailParts(a: seq<Elem>, e: Elem, b: seq<Elem>, right: seq<Elem>, es1: seq<Elem>)
      requires |right| <= 1 && es1 == if right != [] then Insert(a + [e] + b, |a| + 1, right[0]) else a + [e] + b
      ensures es1 == a + ([e] + right + b)
    {
      hide Insert;
      if right != [] {
        Inserted(a + [e], right[0], b);
        assert right == [right[0]];
      }
    }

    static lemma HeadParts(a: seq<Elem>, b: seq<Elem>, left: seq<Elem>, es2: seq<Elem>)
      requires |left| <= 1 && es2 == if left != [] then Insert(a + b, |a|, left[0]) else a + b
      ensures es2 == a + left + b
    {
      hide Insert;
      if left != [] {
        Inserted(a, left[0], b);
        assert left == [left[0]];
      }
    }

    static lemma Regrouped2(a: seq<Elem>, l: seq<Elem>, m: seq<Elem>, r: seq<Elem>, b: seq<Elem>)
      ensures a + l + (m + r + b) == (a + l) + m + (r + b)
    {}

    static lemma Inserted(a: seq<Elem>, x: Elem, b: seq<Elem>)
      ensures Insert(a + b, |a|, x) == a + [x] + b
    {}

    static lemma MidUpdated(a: seq<Elem>, x: Elem, y: Elem, b: seq<Elem>)
      ensures (a + [x] + b)[|a| := y] == a + [y] + b && (a + [x] + b)[|a|] == x
    {}

    static lemma Regrouped(a: seq<Elem>, l: seq<Elem>, m: seq<Elem>, r: seq<Elem>, b: seq<Elem>)
      ensures (a + l) + m + (r + b) == a + (l + m + r) + b
    {}

    /**
     free_unrl: exactly the given unit becomes free.  Two spare blocks are always enough, and those
     not used come back to the caller.
     */
    method FreeUnrl(unit: nat, p1: Block, p2: Block) returns (q1: Block?, q2: Block?)
      requires Consistent() && low <= unit <= high && Space()[unit - low]
      requires SparesOk(blocks, p1, p2)
      modifies this, Memory(blocks + SpareSet(p1, p2))
      ensures Consistent() && low == old(low) && high == old(high)
      ensures Space() == old(Space())[unit - low := false]
      ensures SparesOk(blocks, q1, q2) && blocks + SpareSet(q1, q2) == old(blocks) + SpareSet(p1, p2)
    {
      hide Structured, OwnWords, ElemOf, SparesOk, SpareSet, HotList, Consistent, Start, Units, AllGood, NoEqualNeighbours, EndsOk, NoGain, CostSum, CountTrue, Flat;
      var y, z := CheckUnrhdr();
      q1, q2 := p1, p2;
      var item := unit - low;
      if item + 1 == first && head == [] {
        GiveToLast();
        return;
      }
      var hot: nat;
      ghost var was := Space();
      ghost var all := blocks + SpareSet(p1, p2);
      ConsistentIs();
      hot, q1, q2 := FreeUnit(item, p1, p2);
      CountBusy(hot, -1);
      BlocksGrow(blocks, SpareSet(q1, q2), all);
      Settle(hot, was, item);
    }

    /** Finds the element of a unit in use; if it was among the first, they get an element of their own. */
    method Locate(item: nat, p1: Block, p2: Block) returns (k: nat, off: nat, q1: Block?, q2: Block?)
      requires ListOk() && EndsOk(Elems()) && SparesOk(blocks, p1, p2)
      requires item < |Space()| && Space()[item]
      modifies this`head, this`alloc, this`blocks, this`first, SpareSet(p1, p2)
      ensures ListOk() && Space() == old(Space())
      ensures k < |head| && off < Len(Elems()[k]) && first + Start(Elems(), k) + off == item
      ensures Bits(Elems()[k])[off] && Start(Elems(), k) + off < |Flat(Elems())|
      ensures SparesOk(blocks, q1, q2) && blocks + SpareSet(q1, q2) == old(blocks) + SpareSet(p1, p2)
      ensures q2 == p2 && (q1 == p1 || off == 0)
    {
      hide Structured, OwnWords, SparesOk, SpareSet, Start, Units, EndsOk, ElemOf, AllGood, NoEqualNeighbours, CostSum, Flat;
      q1, q2 := p1, p2;
      var inFirst := item < first;
      if inFirst {
        q1, q2 := OpenFirst(item, p1, p2);
      }
      ghost var es := Elems();
      InList(first, es, last, item);
      k, off := FindElement(item - first);
      UnitAt(es, k, off);
      if inFirst { NonEmptyBefore(es, k, off); }
    }

    static lemma {:induction false} NonEmptyBefore(es: seq<Elem>, k: nat, off: nat)
      requires AllGood(es) && k < |es| && Start(es, k) + off == 0
      ensures k == 0 && off == 0
    {
      if k > 0 {
        GoodLength(es, k - 1);
        StartNext(es, k - 1);
      }
    }

    /** Takes one unit out of use in the list; element hot is then out of order. */
    method FreeUnit(item: nat, p1: Block, p2: Block) returns (hot: nat, q1: Block?, q2: Block?)
      requires ListOk() && EndsOk(Elems()) && SparesOk(blocks, p1, p2)
      requires item < |Space()| && Space()[item]
      modifies this`head, this`alloc, this`blocks, this`first, Memory(blocks + SpareSet(p1, p2))
      ensures HotList(hot) && Space() == old(Space())[item := false]
      ensures SparesOk(blocks, q1, q2) && blocks + SpareSet(q1, q2) == old(blocks) + SpareSet(p1, p2)
    {
      hide Structured, OwnWords, SparesOk, SpareSet, HotList, Start, Units, EndsOk, ElemOf, AllGood, NoEqualNeighbours, CostSum, Flat;
      ghost var all := blocks + SpareSet(p1, p2);
      SpareMemory(blocks, p1, p2);
      var k: nat, off: nat;
      k, off, q1, q2 := Locate(item, p1, p2);
      ElemsMatch();
      BlocksGrow(blocks, SpareSet(q1, q2), all);
      if head[k].ptr.ToBitmap? {
        hot := k;
        FreeInBitmap(k, off);
      } else {
        assert head[k].ptr.Header?;
        hot, q1, q2 := FreeInRun(k, off, q1, q2);
      }
    }

    static lemma InList(first: nat, es: seq<Elem>, last: nat, item: nat)
      requires first <= item < |Units(first, es, last)| && Units(first, es, last)[item]
      ensures item - first < |Flat(es)| && Flat(es)[item - first]
    {}

    static lemma StartZero(es: seq<Elem>)
      ensures Start(es, 0) == 0
    {}

    static lemma BlocksGrow(a: set<Block>, b: set<Block>, all: set<Block>)
      requires a + b == all
      ensures Memory(a) <= Memory(all)
    {
      assert a <= all;
    }
  }

  lemma StructuredRun(head: seq<Block>, nodes: seq<Node>, ppfree: seq<Block>, blocks: set<Block>, k: nat, node: Node)
    requires Structured(head, nodes, ppfree, blocks) && k < |head| && !nodes[k].ptr.ToBitmap? && !node.ptr.ToBitmap?
    ensures Structured(head, nodes[k := node], ppfree, blocks)
  {
    hide OwnWords;
    forall b | b in blocks && b !in head && b !in ppfree ensures IsBitmapOf(nodes[k := node], b) {
      assert IsBitmapOf(nodes, b);
      var i :| 0 <= i < |nodes| && nodes[i].ptr == ToBitmap(b);
      assert nodes[k := node][i] == nodes[i];
    }
  }

  lemma StructuredGrow(head: seq<Block>, nodes: seq<Node>, ppfree: seq<Block>, blocks: set<Block>, k: nat, len: nat)
    requires Structured(head, nodes, ppfree, blocks) && k < |head| && len <= NBITS
    ensures Structured(head, nodes[k := Node(len, nodes[k].ptr)], ppfree, blocks)
  {
    hide OwnWords;
    var nodes' := nodes[k := Node(len, nodes[k].ptr)];
    forall b | b in blocks && b !in head && b !in ppfree ensures IsBitmapOf(nodes', b) {
      assert IsBitmapOf(nodes, b);
      var i :| 0 <= i < |nodes| && nodes[i].ptr == ToBitmap(b);
      assert nodes'[i].ptr == nodes[i].ptr;
    }
  }
}
