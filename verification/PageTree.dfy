/**
The four-level page tree as it lies in physical memory (section 4.5 of the Intel SDM,
Volume 3A), and the plain map from virtual page to leaf entry that it represents.
*/
module PageTree {
  import opened Bytes

  /** The number of 4 KiB pages in the 48-bit virtual address space. */
  const VPAGES: nat := 0x10_0000_0000

  /** A table's place in the tree. A table of level `l` and prefix `p` covers the virtual pages `v` with `v / 512^l == p`. */
  datatype Node = Node(level: nat, prefix: nat) {
    function Parent(): Node { Node(level + 1, prefix / 512) }
    function Child(i: nat): Node
      requires level > 0
    {
      Node(level - 1, prefix * 512 + i)
    }
  }

  /** Which frame holds which table. */
  type Tables = map<Node, nat>

  const ROOT := Node(4, 0)

  predicate HasFrame(m: seq<byte>, f: nat) { (f + 1) * 4096 <= |m| }

  /** Entry `i` of the table in frame `f`. */
  function Entry(m: seq<byte>, f: nat, i: nat): nat
    requires HasFrame(m, f) && i < 512
  {
    Load64(m, f * 4096 + i * 8)
  }

  function SetEntry(m: seq<byte>, f: nat, i: nat, e: nat): (r: seq<byte>)
    requires HasFrame(m, f) && i < 512
    ensures |r| == |m|
  {
    Store64(m, f * 4096 + i * 8, e)
  }

  /** A table that is there is pointed to by an entry that carries present, write and user; where none is there the entry is zero. */
  ghost predicate Link(m: seq<byte>, t: Tables, n: Node, i: nat)
    requires n in t && n.level > 1 && HasFrame(m, t[n]) && i < 512
  {
    var e := Entry(m, t[n], i);
    if n.Child(i) in t then e / 4096 == t[n.Child(i)] && e % 8 == 7 else e == 0
  }

  ghost predicate HasParent(t: Tables, n: Node) {
    n.level < 4 ==> n.Parent() in t
  }

  ghost predicate Apart(t: Tables, a: Node, b: Node)
    requires a in t && b in t
  {
    t[a] != t[b]
  }

  /** The shape of the tree: tables sit in distinct frames and are linked exactly by their parents' entries. */
  ghost predicate TreeOk(m: seq<byte>, root: nat, t: Tables) {
    && ROOT in t && t[ROOT] == root
    && (forall n :: n in t ==> 1 <= n.level <= 4 && (n.level == 4 ==> n == ROOT) && HasFrame(m, t[n]))
    && (forall n {:trigger HasParent(t, n)} :: n in t ==> HasParent(t, n))
    && (forall a, b {:trigger Apart(t, a, b)} :: a in t && b in t && a != b ==> Apart(t, a, b))
    && (forall n, i {:trigger Link(m, t, n, i)} :: n in t && n.level > 1 && 0 <= i < 512 ==> Link(m, t, n, i))
  }

  /** The leaf entry the tree holds for virtual page `v`, zero when it holds none. */
  ghost function Leaf(m: seq<byte>, t: Tables, v: nat): nat
    requires forall n :: n in t ==> HasFrame(m, t[n])
  {
    if Node(1, v / 512) in t then Entry(m, t[Node(1, v / 512)], v % 512) else 0
  }

  /** The walk of the hardware and of `virt_to_phys`: follow the entries from the root, give up at a zero entry. */
  ghost function Walk(m: seq<byte>, f: nat, level: nat, v: nat): nat
    requires level >= 1
    decreases level
  {
    if !HasFrame(m, f) then 0
    else
      var e := Entry(m, f, Index(level, v));
      if level == 1 || e == 0 then e else Walk(m, e / 4096, level - 1, v)
  }

  /** `v / 512^l`. */
  function Up(l: nat, v: nat): nat {
    if l == 0 then v else Up(l - 1, v) / 512
  }

  /** The place of the table of level `l` on the path of page `v`. */
  function On(l: nat, v: nat): Node {
    Node(l, Up(l, v))
  }

  /** The index the walk uses in the table of level `l`. */
  function Index(l: nat, v: nat): (i: nat)
    requires l >= 1
    ensures i < 512
  {
    Up(l - 1, v) % 512
  }

  lemma PathStep(l: nat, v: nat)
    requires l >= 1
    ensures On(l, v).Child(Index(l, v)) == On(l - 1, v)
    ensures On(l - 1, v).Parent() == On(l, v)
  {
  }

  lemma PathTop(v: nat)
    requires v < VPAGES
    ensures On(4, v) == ROOT && On(1, v) == Node(1, v / 512) && Index(1, v) == v % 512
  {
    assert Up(1, v) == v / 512;
    assert Up(2, v) == v / 512 / 512;
    assert Up(4, v) == v / 512 / 512 / 512 / 512;
  }

  /** Without a table there is none below it either. */
  lemma MissingBelow(m: seq<byte>, root: nat, t: Tables, v: nat)
    requires TreeOk(m, root, t) && v < VPAGES
    ensures On(3, v) !in t ==> On(2, v) !in t
    ensures On(2, v) !in t ==> On(1, v) !in t
  {
    PathStep(3, v);
    PathStep(2, v);
    assert On(2, v) in t ==> HasParent(t, On(2, v));
    assert On(1, v) in t ==> HasParent(t, On(1, v));
  }

  lemma Descend(m: seq<byte>, root: nat, t: Tables, l: nat, v: nat)
    requires TreeOk(m, root, t) && v < VPAGES && 2 <= l <= 4 && On(l, v) in t
    ensures Walk(m, t[On(l, v)], l, v) == if On(l - 1, v) in t then Walk(m, t[On(l - 1, v)], l - 1, v) else 0
  {
    PathStep(l, v);
    assert Link(m, t, On(l, v), Index(l, v));
  }

  /** The tree in memory refines the map of leaf entries: walking it finds exactly the leaf entry of the page. */
  lemma WalkFindsLeaf(m: seq<byte>, root: nat, t: Tables, v: nat)
    requires TreeOk(m, root, t) && v < VPAGES
    ensures Walk(m, root, 4, v) == Leaf(m, t, v)
  {
    PathTop(v);
    MissingBelow(m, root, t, v);
    Descend(m, root, t, 4, v);
    if On(3, v) in t {
      Descend(m, root, t, 3, v);
      if On(2, v) in t {
        Descend(m, root, t, 2, v);
      }
    }
  }

  // ----- effective rights (section 4.6 of the Intel SDM, Volume 3A) -----------------

  datatype Right = Present | Write | User

  predicate Grants(e: nat, r: Right) {
    match r
    case Present => e % 2 == 1
    case Write => e / 2 % 2 == 1
    case User => e / 4 % 2 == 1
  }

  /** Every entry on the walk from the table in frame `f` grants the right. */
  ghost predicate WalkGrants(m: seq<byte>, f: nat, level: nat, v: nat, r: Right)
    requires level >= 1
    decreases level
  {
    HasFrame(m, f) &&
    var e := Entry(m, f, Index(level, v));
    Grants(e, r) && (level == 1 || WalkGrants(m, e / 4096, level - 1, v, r))
  }

  lemma FullEntryGrants(e: nat, r: Right)
    ensures e % 8 == 7 ==> Grants(e, r)
    ensures e == 0 ==> !Grants(e, r)
  {
    if e % 8 == 7 {
      LowBits(e, e / 8);
    }
  }

  lemma LowBits(e: nat, q: nat)
    requires e == 8 * q + 7
    ensures e % 2 == 1 && e / 2 == 4 * q + 3 && e / 4 == 2 * q + 1
    ensures e / 2 % 2 == 1 && e / 4 % 2 == 1
  {
  }

  lemma DescendRights(m: seq<byte>, root: nat, t: Tables, l: nat, v: nat, r: Right)
    requires TreeOk(m, root, t) && v < VPAGES && 2 <= l <= 4 && On(l, v) in t
    ensures On(l - 1, v) in t ==> (WalkGrants(m, t[On(l, v)], l, v, r) <==> WalkGrants(m, t[On(l - 1, v)], l - 1, v, r))
    ensures On(l - 1, v) !in t ==> !WalkGrants(m, t[On(l, v)], l, v, r)
  {
    PathStep(l, v);
    assert Link(m, t, On(l, v), Index(l, v));
    FullEntryGrants(Entry(m, t[On(l, v)], Index(l, v)), r);
    hide Grants, Entry;
  }

  /** A page's effective rights are exactly the flags of its leaf entry. */
  lemma RightsAreLeafFlags(m: seq<byte>, root: nat, t: Tables, v: nat, r: Right)
    requires TreeOk(m, root, t) && v < VPAGES
    ensures WalkGrants(m, root, 4, v, r) <==> Grants(Leaf(m, t, v), r)
  {
    PathTop(v);
    MissingBelow(m, root, t, v);
    DescendRights(m, root, t, 4, v, r);
    if On(3, v) in t {
      DescendRights(m, root, t, 3, v, r);
      if On(2, v) in t {
        DescendRights(m, root, t, 2, v, r);
      }
    }
  }

  // ----- the two ways a tree changes ------------------------------------------------

  lemma EntryAfter(m: seq<byte>, f: nat, i: nat, e: nat, g: nat, j: nat)
    requires HasFrame(m, f) && HasFrame(m, g) && i < 512 && j < 512 && e < TWO64
    ensures Entry(SetEntry(m, f, i, e), g, j) == if g == f && j == i then e else Entry(m, g, j)
  {
    LoadStore(m, f * 4096 + i * 8, e, g * 4096 + j * 8);
  }

  lemma EntrySame(m: seq<byte>, r: seq<byte>, f: nat, j: nat)
    requires HasFrame(m, f) && j < 512 && Same(m, r, f * 4096, 4096)
    ensures Entry(r, f, j) == Entry(m, f, j)
  {
    LoadSame(m, r, f * 4096 + j * 8);
  }

  ghost predicate TablesSame(m: seq<byte>, r: seq<byte>, t: Tables) {
    forall n :: n in t ==> HasFrame(m, t[n]) && Same(m, r, t[n] * 4096, 4096)
  }

  /** The tree depends only on the frames of its tables. */
  lemma KeepTree(m: seq<byte>, r: seq<byte>, root: nat, t: Tables)
    requires TreeOk(m, root, t) && TablesSame(m, r, t)
    ensures TreeOk(r, root, t)
    ensures forall v :: 0 <= v < VPAGES ==> Leaf(r, t, v) == Leaf(m, t, v)
  {
    forall n, i | n in t && n.level > 1 && 0 <= i < 512
      ensures Link(r, t, n, i)
    {
      assert Link(m, t, n, i);
      EntrySame(m, r, t[n], i);
    }
    forall v | 0 <= v < VPAGES
      ensures Leaf(r, t, v) == Leaf(m, t, v)
    {
      if Node(1, v / 512) in t {
        EntrySame(m, r, t[Node(1, v / 512)], v % 512);
      }
    }
  }

  /** Frame `f` is zero and no table of `t` lies in it. */
  ghost predicate Fresh(m: seq<byte>, t: Tables, f: nat) {
    && HasFrame(m, f)
    && (forall x :: x in t ==> t[x] != f)
    && ZeroFrame(m, f)
  }

  ghost predicate ZeroFrame(m: seq<byte>, f: nat)
    requires HasFrame(m, f)
  {
    forall x :: f * 4096 <= x < (f + 1) * 4096 ==> m[x] == 0
  }

  lemma ZeroEntry(m: seq<byte>, t: Tables, f: nat, j: nat)
    requires Fresh(m, t, f) && j < 512
    ensures Entry(m, f, j) == 0
  {
    LoadZero(m, f * 4096 + j * 8);
  }

  lemma ChildInjective(a: Node, j: nat, b: Node, i: nat)
    requires a.level > 0 && b.level > 0 && i < 512 && j < 512
    ensures a.Child(j) == b.Child(i) <==> a == b && j == i
    ensures a.Child(j).Parent() == a
  {
  }

  lemma AddTableLink(m: seq<byte>, root: nat, t: Tables, n: Node, i: nat, f: nat, e: nat, a: Node, j: nat)
    requires TreeOk(m, root, t) && n in t && n.level > 1 && i < 512 && n.Child(i) !in t
    requires Fresh(m, t, f) && e / 4096 == f && e % 8 == 7 && e < TWO64
    requires a in t[n.Child(i) := f] && a.level > 1 && j < 512
    ensures Link(SetEntry(m, t[n], i, e), t[n.Child(i) := f], a, j)
  {
    var u := t[n.Child(i) := f];
    EntryAfter(m, t[n], i, e, u[a], j);
    ChildInjective(a, j, n, i);
    ChildInjective(n, i, n, i);
    hide Entry, SetEntry;
    if a == n.Child(i) {
      ZeroEntry(m, t, f, j);
      assert a.Child(j) in t ==> HasParent(t, a.Child(j));
    } else {
      assert Link(m, t, a, j);
      assert a != n ==> Apart(t, a, n);
    }
  }

  lemma AddTableLeaf(m: seq<byte>, root: nat, t: Tables, n: Node, i: nat, f: nat, e: nat, v: nat)
    requires TreeOk(m, root, t) && n in t && n.level > 1 && i < 512 && n.Child(i) !in t
    requires Fresh(m, t, f) && e < TWO64
    ensures Leaf(SetEntry(m, t[n], i, e), t[n.Child(i) := f], v) == Leaf(m, t, v)
  {
    var u := t[n.Child(i) := f];
    var b := Node(1, v / 512);
    assert b in t ==> Apart(t, b, n);
    if b in u {
      EntryAfter(m, t[n], i, e, u[b], v % 512);
      if b == n.Child(i) {
        ZeroEntry(m, t, f, v % 512);
      }
    }
  }

  /** Linking a zeroed frame into an empty slot keeps the shape and every leaf entry. */
  lemma AddTable(m: seq<byte>, root: nat, t: Tables, n: Node, i: nat, f: nat, e: nat)
    requires TreeOk(m, root, t) && n in t && n.level > 1 && i < 512 && n.Child(i) !in t
    requires Fresh(m, t, f) && e / 4096 == f && e % 8 == 7 && e < TWO64
    ensures TreeOk(SetEntry(m, t[n], i, e), root, t[n.Child(i) := f])
    ensures forall v :: 0 <= v < VPAGES ==>
      Leaf(SetEntry(m, t[n], i, e), t[n.Child(i) := f], v) == Leaf(m, t, v)
  {
    var r := SetEntry(m, t[n], i, e);
    var u := t[n.Child(i) := f];
    ChildInjective(n, i, n, i);
    forall a | a in u
      ensures HasParent(u, a)
    {
      assert a in t ==> HasParent(t, a);
    }
    forall a, b | a in u && b in u && a != b
      ensures Apart(u, a, b)
    {
      assert a in t && b in t ==> Apart(t, a, b);
    }
    forall a, j | a in u && a.level > 1 && 0 <= j < 512
      ensures Link(r, u, a, j)
    {
      AddTableLink(m, root, t, n, i, f, e, a, j);
    }
    forall v | 0 <= v < VPAGES
      ensures Leaf(r, u, v) == Leaf(m, t, v)
    {
      AddTableLeaf(m, root, t, n, i, f, e, v);
    }
  }

  /** Writing a leaf entry keeps the shape and changes the leaf entry of one page. */
  lemma SetLeaf(m: seq<byte>, root: nat, t: Tables, n: Node, i: nat, e: nat)
    requires TreeOk(m, root, t) && n in t && n.level == 1 && i < 512 && e < TWO64
    ensures TreeOk(SetEntry(m, t[n], i, e), root, t)
    ensures forall v :: 0 <= v < VPAGES ==>
      Leaf(SetEntry(m, t[n], i, e), t, v) == if v == n.prefix * 512 + i then e else Leaf(m, t, v)
  {
    var r := SetEntry(m, t[n], i, e);
    forall a, j | a in t && a.level > 1 && 0 <= j < 512
      ensures Link(r, t, a, j)
    {
      EntryAfter(m, t[n], i, e, t[a], j);
      assert Apart(t, a, n);
      assert Link(m, t, a, j);
      assert a != n ==> Apart(t, a, n);
    }
    forall v | 0 <= v < VPAGES
      ensures Leaf(r, t, v) == if v == n.prefix * 512 + i then e else Leaf(m, t, v)
    {
      var b := Node(1, v / 512);
      if b in t {
        EntryAfter(m, t[n], i, e, t[b], v % 512);
        assert b != n ==> Apart(t, b, n);
      }
    }
  }
}
