/** The B+ tree of novadb/btree.py: nodes with parent and sibling links, split in place,
    holding an ordered relation between keys and row positions. */
module BTree {

  /** Index keys are strings; any countable total order sits inside the rationals. */
  type Key = real

  type Pair = (Key, int)

  // ---------------------------------------------------------------- sorted sequences

  ghost predicate Ascending(s: seq<Key>) {
    forall i, j | 0 <= i < j < |s| :: s[i] < s[j]
  }

  ghost predicate AscendingInts(s: seq<int>) {
    forall i, j | 0 <= i < j < |s| :: s[i] < s[j]
  }

  /** bisect_right: how many keys are at most `key`. */
  function BisectRight(s: seq<Key>, key: Key): (r: nat)
    ensures r <= |s|
    ensures Ascending(s) ==> (forall i | 0 <= i < r :: s[i] <= key) && (forall i | r <= i < |s| :: key < s[i])
  {
    if s == [] || key < s[0] then 0 else 1 + BisectRight(s[1..], key)
  }

  /** bisect_left: how many keys are below `key`. */
  function BisectLeft(s: seq<Key>, key: Key): (r: nat)
    ensures r <= |s|
    ensures Ascending(s) ==> (forall i | 0 <= i < r :: s[i] < key) && (forall i | r <= i < |s| :: key <= s[i])
  {
    if s == [] || key <= s[0] then 0 else 1 + BisectLeft(s[1..], key)
  }

  /** The ascending positions with one more in its place. */
  function Insorted(s: seq<int>, x: int): (r: seq<int>)
    ensures |r| == |s| + 1
    ensures multiset(r) == multiset(s) + multiset{x}
  {
    if s == [] || x <= s[0] then [x] + s
    else
      assert s == [s[0]] + s[1..];
      [s[0]] + Insorted(s[1..], x)
  }

  lemma {:induction false} InsortedAscending(s: seq<int>, x: int)
    requires AscendingInts(s) && x !in s
    ensures AscendingInts(Insorted(s, x))
    ensures forall y :: y in Insorted(s, x) <==> y in s || y == x
  {
    if s == [] || x <= s[0] {
    } else {
      var rest := Insorted(s[1..], x);
      assert s == [s[0]] + s[1..];
      assert Insorted(s, x) == [s[0]] + rest;
      InsortedAscending(s[1..], x);
      hide Insorted;
      forall j | 0 <= j < |rest| ensures s[0] < rest[j] {
        assert rest[j] in rest;
      }
    }
  }

  // ---------------------------------------------------------------- a leaf's entries

  ghost predicate EntriesOk(keys: seq<Key>, values: seq<seq<int>>) {
    && |values| == |keys| && Ascending(keys)
    && (forall i | 0 <= i < |values| :: values[i] != [] && AscendingInts(values[i]))
  }

  /** For these keys, the entries say exactly what the relation says. */
  ghost predicate EntriesHold(keys: seq<Key>, values: seq<seq<int>>, s: set<Pair>) {
    |values| == |keys| && forall i, p | 0 <= i < |keys| :: p in values[i] <==> (keys[i], p) in s
  }

  /** One more position under a key that is there. */
  lemma PositionAdded(keys: seq<Key>, values: seq<seq<int>>, index: nat, value: int, s: set<Pair>)
    requires EntriesOk(keys, values) && EntriesHold(keys, values, s)
    requires index < |keys| && value !in values[index]
    ensures var values' := values[index := Insorted(values[index], value)];
            EntriesOk(keys, values') && EntriesHold(keys, values', s + {(keys[index], value)})
  {
    InsortedAscending(values[index], value);
  }

  /** A new key with its first position, in its place. */
  lemma KeyAdded(keys: seq<Key>, values: seq<seq<int>>, index: nat, key: Key, value: int, s: set<Pair>)
    requires EntriesOk(keys, values) && EntriesHold(keys, values, s)
    requires index <= |keys| && (forall i | 0 <= i < index :: keys[i] < key) && (forall i | index <= i < |keys| :: key < keys[i])
    requires forall p :: (key, p) !in s
    ensures var keys' := keys[..index] + [key] + keys[index..];
            var values' := values[..index] + [[value]] + values[index..];
            && EntriesOk(keys', values') && EntriesHold(keys', values', s + {(key, value)})
            && (forall k :: k in keys' <==> k in keys || k == key)
  {
    hide Ascending;
    var keys' := keys[..index] + [key] + keys[index..];
    var values' := values[..index] + [[value]] + values[index..];
    assert keys == keys[..index] + keys[index..];
    KeyPlaced(keys, index, key);
    forall i, p | 0 <= i < |keys'| ensures p in values'[i] <==> (keys'[i], p) in s + {(key, value)} {
      var j := if i < index then i else i - 1;
      assert i != index ==> keys'[i] == keys[j] && values'[i] == values[j] && (p in values[j] <==> (keys[j], p) in s);
    }
  }

  lemma KeyPlaced(keys: seq<Key>, index: nat, key: Key)
    requires Ascending(keys)
    requires index <= |keys| && (forall i | 0 <= i < index :: keys[i] < key) && (forall i | index <= i < |keys| :: key < keys[i])
    ensures Ascending(keys[..index] + [key] + keys[index..])
  {
  }

  // ---------------------------------------------------------------- nodes

  /** The end of a key interval; Open is unbounded. */
  datatype Bound = Open | At(key: Key)

  predicate From(lo: Bound, key: Key) { lo.At? ==> lo.key <= key }

  ghost predicate Above(lo: Bound, key: Key) { lo.At? ==> lo.key < key }

  /** Interval start `a` comes before interval start `b`. */
  predicate Before(a: Bound, b: Bound) { b.At? && (a.At? ==> a.key < b.key) }

  predicate Below(hi: Bound, key: Key) { hi.At? ==> key < hi.key }

  class TreeNode {
    var leaf: bool
    var keys: seq<Key>
    var values: seq<seq<int>>
    var children: seq<TreeNode>
    var parent: TreeNode?
    var next: TreeNode?
    /** The keys this node answers for: from `lo`, below `hi`; its height above the leaves. */
    ghost var lo: Bound
    ghost var hi: Bound
    ghost var level: nat

    constructor (leaf: bool, keys: seq<Key>, values: seq<seq<int>>, children: seq<TreeNode>, parent: TreeNode?, next: TreeNode?,
                 ghost lo: Bound, ghost hi: Bound, ghost level: nat)
      ensures this.leaf == leaf && this.keys == keys && this.values == values && this.children == children
      ensures this.parent == parent && this.next == next && this.lo == lo && this.hi == hi && this.level == level
    {
      this.leaf, this.keys, this.values, this.children := leaf, keys, values, children;
      this.parent, this.next, this.lo, this.hi, this.level := parent, next, lo, hi, level;
    }

    ghost predicate Covers(key: Key)
      reads this
    {
      From(lo, key) && Below(hi, key)
    }

    /** The interval of child `i`. */
    ghost function ChildLo(i: nat): Bound
      reads this
      requires i <= |keys|
    {
      if i == 0 then lo else At(keys[i - 1])
    }

    ghost function ChildHi(i: nat, end: Bound): Bound
      reads this
      requires i <= |keys|
    {
      if i == |keys| then end else At(keys[i])
    }

    ghost predicate LeafOk()
      reads this
    {
      level == 0 && children == [] && EntriesOk(keys, values) && (forall i | 0 <= i < |keys| :: Covers(keys[i]))
    }

    ghost predicate InnerOk()
      reads this
    {
      && level > 0 && |children| == |keys| + 1 && Ascending(keys) && values == [] && keys != []
      && (forall i | 0 <= i < |keys| :: Above(lo, keys[i]) && Below(hi, keys[i]))
    }

    ghost predicate ShapeOk()
      reads this
    {
      if leaf then LeafOk() else InnerOk()
    }
  }

  // ---------------------------------------------------------------- listings

  type Entry = (Key, seq<int>)

  ghost predicate HasKey(items: seq<Entry>, key: Key) {
    exists i :: 0 <= i < |items| && items[i].0 == key
  }

  ghost predicate AllBefore(items: seq<Entry>, lo: Bound) {
    forall j | 0 <= j < |items| :: lo.At? && items[j].0 < lo.key
  }

  ghost predicate KeysAscend(items: seq<Entry>) {
    forall i, j | 0 <= i < j < |items| :: items[i].0 < items[j].0
  }

  /** `items` is the relation `s`, key by key in ascending order, each with its ascending positions. */
  ghost predicate Lists(items: seq<Entry>, s: set<Pair>) {
    && KeysAscend(items)
    && (forall i | 0 <= i < |items| :: items[i].1 != [] && AscendingInts(items[i].1))
    && (forall i, p | 0 <= i < |items| :: p in items[i].1 <==> (items[i].0, p) in s)
    && (forall k, p | (k, p) in s :: HasKey(items, k))
  }

  ghost function Between(s: set<Pair>, start: Bound, end: Bound): set<Pair> {
    set pair | pair in s && From(start, pair.0) && Below(end, pair.0)
  }

  class BPlusTree {
    const maxKeys: nat
    var root: TreeNode
    var firstLeaf: TreeNode
    var size: nat
    ghost var Repr: set<TreeNode>
    /** What the tree holds, and the leaf each key is in. */
    ghost var pairs: set<Pair>
    ghost var home: map<Key, TreeNode>
    /** The node holding one key too many, if any. While a split climbs, `lower` has given its upper part
        to `upper`, which no parent lists yet: seen from above, `lower` still answers for both. */
    ghost var over: TreeNode?
    ghost var lower: TreeNode?
    ghost var upper: TreeNode?

    ghost function EndOf(n: TreeNode): Bound
      reads this, n, upper
    {
      if n == lower && upper != null then upper.hi else n.hi
    }

    ghost predicate ShapesOk()
      reads this, Repr
    {
      root in Repr && forall n | n in Repr :: n.ShapeOk() && n.level <= root.level
    }

    ghost predicate EdgeOk(n: TreeNode, i: nat)
      requires i < |n.children| && |n.children| == |n.keys| + 1
      reads this, n, n.children[i], upper
    {
      var c := n.children[i];
      && c in Repr && c != upper && c.parent == n && c.level == n.level - 1
      && c.lo == n.ChildLo(i) && EndOf(c) == n.ChildHi(i, n.hi)
    }

    ghost predicate EdgesOk()
      reads this, Repr, upper
      requires ShapesOk()
      requires forall n | n in Repr :: forall c | c in n.children :: c in Repr
    {
      forall n | n in Repr && !n.leaf :: forall i | 0 <= i < |n.children| :: EdgeOk(n, i)
    }

    ghost predicate Closed()
      reads this, Repr
    {
      forall n | n in Repr :: forall c | c in n.children :: c in Repr
    }

    ghost predicate ParentsOk()
      reads this, Repr
    {
      && root in Repr && root.parent == null
      && forall n | n in Repr && n != root && n != upper ::
           n.parent != null && n.parent in Repr && !n.parent.leaf && n in n.parent.children
    }

    ghost predicate ChainOk()
      reads this, Repr
    {
      && firstLeaf in Repr && firstLeaf.leaf && firstLeaf.lo == Open
      && forall n | n in Repr && n.leaf ::
           if n.next == null then n.hi == Open
           else n.next in Repr && n.next.leaf && n.hi.At? && n.next.lo == n.hi
    }

    ghost predicate FillOk()
      reads this, Repr
    {
      forall n | n in Repr ::
        |n.keys| <= maxKeys + (if n == over then 1 else 0) && (n != root || n == lower ==> |n.keys| >= maxKeys / 2)
    }

    ghost predicate DataOk()
      reads this, Repr
      requires ShapesOk()
    {
      && (forall n | n in Repr && n.leaf :: EntriesHold(n.keys, n.values, pairs))
      && (forall k, p | (k, p) in pairs :: k in home)
      && (forall k | k in home :: home[k] in Repr && home[k].leaf && k in home[k].keys)
      && size == |pairs|
    }

    ghost predicate SplitOk()
      reads this, lower, upper
    {
      if lower == null then upper == null
      else
        && upper != null && lower in Repr && upper in Repr && lower != upper && upper != root && over == null
        && lower.level == upper.level && lower.leaf == upper.leaf && upper.parent == lower.parent
        && lower.hi.At? && lower.hi == upper.lo && Above(lower.lo, lower.hi.key) && Below(upper.hi, lower.hi.key)
    }

    ghost predicate TreeOk()
      reads this, Repr, lower, upper
    {
      && maxKeys >= 3
      && ShapesOk() && Closed() && SplitOk() && EdgesOk() && ParentsOk()
      && root.lo == Open && EndOf(root) == Open
      && ChainOk() && FillOk() && DataOk()
    }

    ghost predicate Valid()
      reads this, Repr
    {
      over == null && lower == null && upper == null && TreeOk()
    }

    constructor (maxKeys: nat)
      requires maxKeys >= 3
      ensures Valid() && fresh(Repr) && pairs == {} && this.maxKeys == maxKeys
    {
      this.maxKeys := maxKeys;
      var leaf := new TreeNode(true, [], [], [], null, null, Open, Open, 0);
      root, firstLeaf, size := leaf, leaf, 0;
      Repr, pairs, home := {leaf}, {}, map[];
      over, lower, upper := null, null, null;
    }

    method Clear()
      requires maxKeys >= 3
      modifies this
      ensures Valid() && fresh(Repr) && pairs == {}
    {
      root := new TreeNode(true, [], [], [], null, null, Open, Open, 0);
      firstLeaf, size := root, 0;
      Repr, pairs, home := {root}, {}, map[];
      over, lower, upper := null, null, null;
      OneLeafIsValid();
      hide TreeOk;
    }

    lemma OneLeafIsValid()
      requires maxKeys >= 3 && over == null && lower == null && upper == null && Repr == {root} && firstLeaf == root
      requires root.leaf && root.keys == [] && root.values == [] && root.children == [] && root.level == 0
      requires root.parent == null && root.next == null && root.lo == Open && root.hi == Open
      requires size == 0 && pairs == {} && home == map[]
      ensures Valid()
    {
    }

    // ---------------------------------------------------------------- where a key lives

    /** A node below the root sits one level under its parent, inside its parent's interval. */
    lemma UnderParent(n: TreeNode)
      requires Valid() && n in Repr && n != root
      ensures n.parent in Repr && n.parent.InnerOk() && n.level < n.parent.level == n.level + 1 <= root.level
      ensures forall key | n.Covers(key) :: n.parent.Covers(key)
      ensures exists i :: 0 <= i < |n.parent.children| && n.parent.children[i] == n && EdgeOk(n.parent, i)
    {
      var i :| 0 <= i < |n.parent.children| && n.parent.children[i] == n;
      assert EdgeOk(n.parent, i);
    }

    /** On each level at most one node answers for a key. */
    lemma {:induction false} OneNodePerLevel(a: TreeNode, b: TreeNode, key: Key)
      requires Valid() && a in Repr && b in Repr && a.level == b.level && a.Covers(key) && b.Covers(key)
      ensures a == b
      decreases root.level - a.level
    {
      hide TreeOk;
      if a != root && b != root {
        UnderParent(a);
        UnderParent(b);
        OneNodePerLevel(a.parent, b.parent, key);
      } else if a != root {
        UnderParent(a);
      } else if b != root {
        UnderParent(b);
      }
    }

    /** Every leaf but a lone root holds a key, so its interval is not empty. */
    lemma LeafNonempty(n: TreeNode)
      requires Valid() && n in Repr && n.leaf && n.hi.At?
      ensures Before(n.lo, n.hi)
    {
      assert n != root;
      assert n.Covers(n.keys[0]);
    }

    /** What a walk along the leaves may rely on. */
    lemma LeafFacts(n: TreeNode)
      requires Valid() && n in Repr && n.leaf
      ensures |n.keys| <= maxKeys && n.LeafOk() && (n.hi.At? ==> Before(n.lo, n.hi))
      ensures EntriesHold(n.keys, n.values, pairs)
      ensures if n.next == null then n.hi == Open else n.next in Repr && n.next.leaf && n.hi.At? && n.next.lo == n.hi
    {
      if n.hi.At? { LeafNonempty(n); }
    }

    lemma FirstLeafFacts()
      requires Valid()
      ensures firstLeaf in Repr && firstLeaf.leaf && firstLeaf.lo == Open
    {
    }

    /** A leaf that answers for a key has all its positions. */
    lemma LeafHolds(leaf: TreeNode, key: Key, p: int)
      requires Valid() && leaf in Repr && leaf.leaf && leaf.Covers(key)
      ensures (key, p) in pairs ==> key in leaf.keys
      ensures key in home ==> home[key] == leaf
    {
      if key in home {
        OneNodePerLevel(leaf, home[key], key);
      }
    }

    /** Balance: every way down from the root to a leaf passes the same number of nodes. */
    lemma {:induction false} Balanced(path: seq<TreeNode>)
      requires Valid() && path != [] && path[0] in Repr && path[|path| - 1].leaf
      requires forall i | 0 <= i < |path| - 1 :: path[i + 1] in path[i].children
      ensures |path| == path[0].level + 1
    {
      assert path[0].ShapeOk();
      if |path| > 1 {
        var i :| 0 <= i < |path[0].children| && path[0].children[i] == path[1];
        assert EdgeOk(path[0], i);
        Balanced(path[1..]);
      }
    }

    method LeafFor(key: Key) returns (leaf: TreeNode)
      requires Valid()
      ensures leaf in Repr && leaf.leaf && leaf.Covers(key)
    {
      leaf := root;
      while !leaf.leaf
        invariant leaf in Repr && leaf.Covers(key)
        decreases leaf.level
      {
        var i := BisectRight(leaf.keys, key);
        assert EdgeOk(leaf, i);
        leaf := leaf.children[i];
      }
    }

    ghost predicate Collected(out: seq<Entry>, start: Bound, end: Bound)
      reads this
    {
      && KeysAscend(out)
      && (forall j | 0 <= j < |out| :: out[j].1 != [] && AscendingInts(out[j].1) && From(start, out[j].0) && Below(end, out[j].0))
      && (forall j, p | 0 <= j < |out| :: p in out[j].1 <==> (out[j].0, p) in pairs)
    }

    lemma CollectedIsAll(out: seq<Entry>, start: Bound, end: Bound)
      requires Collected(out, start, end)
      requires forall k, p | (k, p) in pairs && From(start, k) && Below(end, k) :: HasKey(out, k)
      ensures Lists(out, Between(pairs, start, end))
    {
    }

    /** find: the ascending positions of a key. */
    method Find(key: Key) returns (positions: seq<int>)
      requires Valid()
      ensures AscendingInts(positions) && forall p :: p in positions <==> (key, p) in pairs
    {
      var leaf := LeafFor(key);
      var index := BisectLeft(leaf.keys, key);
      if index >= |leaf.keys| || leaf.keys[index] != key {
        assert key !in leaf.keys;
        forall p ensures (key, p) !in pairs {
          LeafHolds(leaf, key, p);
        }
        return [];
      }
      positions := leaf.values[index];
    }

    /** One leaf's share of a range; `stopped` once a key reaches the end. */
    method ScanLeaf(leaf: TreeNode, before: seq<Entry>, start: Bound, end: Bound) returns (out: seq<Entry>, stopped: bool)
      requires Valid() && leaf in Repr && leaf.leaf && Collected(before, start, end)
      requires AllBefore(before, leaf.lo)
      ensures Collected(out, start, end) && before <= out
      ensures forall j | 0 <= j < |out| :: Below(leaf.hi, out[j].0)
      ensures forall k, p | (k, p) in pairs && From(start, k) && Below(end, k) && leaf.Covers(k) :: HasKey(out, k)
      ensures stopped ==> forall k | !Below(leaf.hi, k) :: !Below(end, k)
    {
      hide TreeOk;
      LeafFacts(leaf);
      out, stopped := before, false;
      for i := 0 to |leaf.keys|
        invariant Collected(out, start, end) && before <= out && !stopped
        invariant forall j, m | 0 <= j < |out| && i <= m < |leaf.keys| :: out[j].0 < leaf.keys[m]
        invariant forall j | 0 <= j < |out| :: Below(leaf.hi, out[j].0)
        invariant forall j | 0 <= j < i && From(start, leaf.keys[j]) :: HasKey(out, leaf.keys[j])
      {
        var key := leaf.keys[i];
        if From(start, key) {
          if !Below(end, key) {
            stopped := true;
            break;
          }
          ghost var shorter := out;
          out := out + [(key, leaf.values[i])];
          assert out[|shorter|].0 == key;
          forall j | 0 <= j < i && From(start, leaf.keys[j]) ensures HasKey(out, leaf.keys[j]) {
            HasKeyLonger(shorter, out, leaf.keys[j]);
          }
        }
      }
      forall k, p | (k, p) in pairs && From(start, k) && Below(end, k) && leaf.Covers(k) ensures HasKey(out, k) {
        LeafHolds(leaf, k, p);
      }
    }

    /** The entries with `start` <= key < `end`, walking the leaf chain. */
    method Range(start: Bound, end: Bound) returns (out: seq<Entry>)
      requires Valid()
      ensures Lists(out, Between(pairs, start, end))
    {
      hide TreeOk;
      FirstLeafFacts();
      out := [];
      var leaf: TreeNode? := firstLeaf;
      if start.At? {
        leaf := LeafFor(start.key);
      }
      ghost var unseen := Repr;
      while leaf != null
        invariant unseen <= Repr && (leaf != null ==> leaf in Repr && leaf.leaf)
        invariant leaf != null ==> forall n | n in Repr && n.leaf && !Before(n.lo, leaf.lo) :: n in unseen
        invariant Collected(out, start, end)
        invariant leaf != null ==> AllBefore(out, leaf.lo)
        invariant forall k, p | (k, p) in pairs && From(start, k) && Below(end, k) && (leaf != null ==> leaf.lo.At? && k < leaf.lo.key) :: HasKey(out, k)
        decreases unseen
      {
        ghost var before := out;
        var stopped;
        out, stopped := ScanLeaf(leaf, out, start, end);
        forall k, p | (k, p) in pairs && From(start, k) && Below(end, k) && Below(leaf.hi, k) ensures HasKey(out, k) {
          if !leaf.Covers(k) { HasKeyLonger(before, out, k); }
        }
        if stopped {
          break;
        }
        LeafFacts(leaf);
        unseen := unseen - {leaf};
        leaf := leaf.next;
      }
      CollectedIsAll(out, start, end);
    }

    /** The whole tree in key order. */
    method Items() returns (out: seq<Entry>)
      requires Valid()
      ensures Lists(out, pairs)
    {
      out := Range(Open, Open);
      assert Between(pairs, Open, Open) == pairs;
    }

    // ---------------------------------------------------------------- insertion

    /** insert: one pair more, whatever splits it takes. */
    method Insert(key: Key, value: int)
      requires Valid()
      modifies this, Repr
      ensures Valid() && fresh(Repr - old(Repr))
      ensures pairs == old(pairs) + {(key, value)}
    {
      hide TreeOk;
      var leaf := LeafFor(key);
      LeafFacts(leaf);
      var index := BisectLeft(leaf.keys, key);
      if index < |leaf.keys| && leaf.keys[index] == key {
        if value !in leaf.values[index] {
          AddPosition(leaf, index, value);
        } else {
          assert (key, value) in pairs;
          assert pairs + {(key, value)} == pairs;
        }
        return;
      }
      AddKey(leaf, index, key, value);
      if |leaf.keys| > maxKeys {
        SplitLeaf(leaf);
      }
    }

    /** Only one leaf's keys and values change. */
    twostate predicate LeafEdited(leaf: TreeNode)
      reads this, Repr
    {
      && root == old(root) && firstLeaf == old(firstLeaf) && Repr == old(Repr) && leaf in Repr
      && lower == null && upper == null && old(lower == null && upper == null)
      && (forall n | n in Repr && n != leaf :: unchanged(n))
      && leaf.leaf && old(leaf.leaf) && leaf.children == old(leaf.children) && leaf.parent == old(leaf.parent)
      && leaf.next == old(leaf.next) && leaf.lo == old(leaf.lo) && leaf.hi == old(leaf.hi) && leaf.level == old(leaf.level)
    }

    twostate lemma LeafEditKeepsShapes(leaf: TreeNode)
      requires LeafEdited(leaf) && old(ShapesOk() && Closed()) && leaf.LeafOk()
      ensures ShapesOk() && Closed()
    {
    }

    twostate lemma LeafEditKeepsParents(leaf: TreeNode)
      requires LeafEdited(leaf) && old(ParentsOk())
      ensures ParentsOk()
    {
    }

    twostate lemma LeafEditKeepsChain(leaf: TreeNode)
      requires LeafEdited(leaf) && old(ChainOk())
      ensures ChainOk()
    {
    }

    twostate lemma LeafEditKeepsEdges(leaf: TreeNode)
      requires LeafEdited(leaf) && old(ShapesOk() && Closed() && EdgesOk()) && ShapesOk() && Closed()
      ensures EdgesOk()
    {
      hide Ascending, EntriesOk;
      forall n, i | n in Repr && !n.leaf && 0 <= i < |n.children| ensures EdgeOk(n, i) {
        assert old(EdgeOk(n, i));
      }
    }

    twostate lemma LeafEditKeepsFill(leaf: TreeNode)
      requires LeafEdited(leaf) && old(FillOk() && over == null)
      requires old(|leaf.keys|) <= |leaf.keys| <= maxKeys + (if over == leaf then 1 else 0)
      ensures FillOk()
    {
    }

    /** The relation only changes at keys of `leaf`. */
    twostate predicate DataEdited(leaf: TreeNode)
      reads this, Repr, leaf
    {
      && (forall n, k, p | n in Repr && n.leaf && n != leaf && k in n.keys :: (k, p) in pairs <==> (k, p) in old(pairs))
      && EntriesHold(leaf.keys, leaf.values, pairs)
      && (forall k | k in old(leaf.keys) :: k in leaf.keys)
      && (forall k, p | (k, p) in pairs :: k in home)
      && (forall k | k in home :: (k in old(home) && home[k] == old(home[k])) || (home[k] == leaf && k in leaf.keys))
      && size == |pairs|
    }

    twostate lemma LeafEditKeepsData(leaf: TreeNode)
      requires LeafEdited(leaf) && DataEdited(leaf) && old(ShapesOk() && DataOk()) && ShapesOk()
      ensures DataOk()
    {
      forall n | n in Repr && n.leaf && n != leaf ensures EntriesHold(n.keys, n.values, pairs) {
        assert old(EntriesHold(n.keys, n.values, pairs));
        forall i | 0 <= i < |n.keys| ensures n.keys[i] in n.keys {
        }
      }
    }

    twostate lemma LeafEditKeepsTree(leaf: TreeNode)
      requires LeafEdited(leaf) && DataEdited(leaf) && old(TreeOk() && over == null) && leaf.LeafOk()
      requires old(|leaf.keys|) <= |leaf.keys| <= maxKeys + (if over == leaf then 1 else 0)
      ensures TreeOk()
    {
      hide ShapesOk, Closed, EdgesOk, ParentsOk, ChainOk, FillOk, DataOk, DataEdited;
      LeafEditKeepsShapes(leaf);
      LeafEditKeepsEdges(leaf);
      LeafEditKeepsParents(leaf);
      LeafEditKeepsChain(leaf);
      LeafEditKeepsFill(leaf);
      LeafEditKeepsData(leaf);
    }

    lemma OnlyHere(leaf: TreeNode, key: Key)
      requires Valid() && leaf in Repr && leaf.leaf && leaf.Covers(key)
      ensures forall n | n in Repr && n.leaf && n != leaf :: key !in n.keys
    {
      forall n | n in Repr && n.leaf && n != leaf ensures key !in n.keys {
        if key in n.keys {
          OneNodePerLevel(n, leaf, key);
        }
      }
    }

    lemma DataParts()
      requires Valid()
      ensures size == |pairs|
      ensures forall k, p | (k, p) in pairs :: k in home
    {
    }

    method AddPosition(leaf: TreeNode, index: nat, value: int)
      requires Valid() && leaf in Repr && leaf.leaf && index < |leaf.keys|
      requires value !in leaf.values[index]
      modifies this`size, this`pairs, this`home, leaf`values
      ensures Valid()
      ensures pairs == old(pairs) + {(leaf.keys[index], value)}
    {
      hide TreeOk, EntriesOk, EntriesHold;
      LeafFacts(leaf);
      DataParts();
      var key := leaf.keys[index];
      OnlyHere(leaf, key);
      PositionAdded(leaf.keys, leaf.values, index, value, pairs);
      assert (key, value) !in pairs;
      leaf.values := leaf.values[index := Insorted(leaf.values[index], value)];
      size := size + 1;
      pairs := pairs + {(key, value)};
      home := home[key := leaf];
      LeafEditKeepsTree(leaf);
    }

    /** A new key goes in its place in the leaf, which may then hold one too many. */
    method AddKey(leaf: TreeNode, index: nat, key: Key, value: int)
      requires Valid() && leaf in Repr && leaf.leaf && leaf.Covers(key)
      requires index <= |leaf.keys| && (forall i | 0 <= i < index :: leaf.keys[i] < key) && (forall i | index <= i < |leaf.keys| :: key < leaf.keys[i])
      modifies this`size, this`pairs, this`home, this`over, leaf`keys, leaf`values
      ensures TreeOk() && lower == null && leaf in Repr && leaf.leaf
      ensures |leaf.keys| == old(|leaf.keys|) + 1
      ensures over == if |leaf.keys| > maxKeys then leaf else null
      ensures pairs == old(pairs) + {(key, value)}
    {
      hide TreeOk, TreeNode.LeafOk, LeafEdited, DataEdited;
      LeafFacts(leaf);
      EditLeaf(leaf, index, key, value);
      LeafEditKeepsTree(leaf);
    }

    method EditLeaf(leaf: TreeNode, index: nat, key: Key, value: int)
      requires Valid() && leaf in Repr && leaf.leaf && leaf.Covers(key)
      requires index <= |leaf.keys| && (forall i | 0 <= i < index :: leaf.keys[i] < key) && (forall i | index <= i < |leaf.keys| :: key < leaf.keys[i])
      modifies this`size, this`pairs, this`home, this`over, leaf`keys, leaf`values
      ensures LeafEdited(leaf) && DataEdited(leaf) && leaf.LeafOk()
      ensures lower == null && leaf in Repr && |leaf.keys| == old(|leaf.keys|) + 1
      ensures over == if |leaf.keys| > maxKeys then leaf else null
      ensures pairs == old(pairs) + {(key, value)}
    {
      hide TreeOk, EntriesOk, EntriesHold, Ascending;
      LeafFacts(leaf);
      DataParts();
      OnlyHere(leaf, key);
      NewKey(leaf, key);
      KeyAdded(leaf.keys, leaf.values, index, key, value, pairs);
      PutKey(leaf, index, key, value);
    }

    method PutKey(leaf: TreeNode, index: nat, key: Key, value: int)
      requires index <= |leaf.keys| == |leaf.values|
      modifies this`size, this`pairs, this`home, this`over, leaf`keys, leaf`values
      ensures leaf.keys == old(leaf.keys)[..index] + [key] + old(leaf.keys)[index..]
      ensures leaf.values == old(leaf.values)[..index] + [[value]] + old(leaf.values)[index..]
      ensures size == old(size) + 1 && pairs == old(pairs) + {(key, value)} && home == old(home)[key := leaf]
      ensures over == if |leaf.keys| > maxKeys then leaf else null
    {
      leaf.keys := leaf.keys[..index] + [key] + leaf.keys[index..];
      leaf.values := leaf.values[..index] + [[value]] + leaf.values[index..];
      size := size + 1;
      pairs := pairs + {(key, value)};
      home := home[key := leaf];
      over := if |leaf.keys| > maxKeys then leaf else null;
    }

    lemma NewKey(leaf: TreeNode, key: Key)
      requires Valid() && leaf in Repr && leaf.leaf && leaf.Covers(key) && key !in leaf.keys
      ensures forall p :: (key, p) !in pairs
    {
      forall p ensures (key, p) !in pairs { LeafHolds(leaf, key, p); }
    }

    // ---------------------------------------------------------------- splitting

    /** The overfull node keeps its lower part; a new node `upper` takes the rest. */
    /** Other nodes change in this alone: the children that moved have their new parent. */
    twostate predicate OthersRelinked()
      requires upper != null && old(Repr) <= Repr
      reads this, Repr, upper
    {
      forall n | n in old(Repr) && n != old(over) ::
        && n.leaf == old(n.leaf) && n.keys == old(n.keys) && n.values == old(n.values) && n.children == old(n.children)
        && n.next == old(n.next) && n.lo == old(n.lo) && n.hi == old(n.hi) && n.level == old(n.level)
        && n.parent == if n in upper.children then upper else old(n.parent)
    }

    twostate predicate NodeSplit()
      reads this, Repr, lower, upper
    {
      var node := old(over);
      && node != null && node in old(Repr) && old(lower == null && upper == null)
      && over == null && lower == node && upper != null && upper !in old(Repr) && Repr == old(Repr) + {upper}
      && root == old(root) && firstLeaf == old(firstLeaf) && pairs == old(pairs) && size == old(size)
      && OthersRelinked()
      && node.leaf == old(node.leaf) && node.parent == old(node.parent) && node.lo == old(node.lo) && node.level == old(node.level)
      && upper.leaf == node.leaf && upper.parent == node.parent && upper.level == node.level
      && node.hi.At? && upper.lo == node.hi && upper.hi == old(node.hi)
    }

    /** The keys from `sep` on have moved from `leaf` to `right`. */
    ghost function Rehomed(home: map<Key, TreeNode>, leaf: TreeNode, right: TreeNode, sep: Key): map<Key, TreeNode> {
      map k | k in home :: if home[k] == leaf && sep <= k then right else home[k]
    }

    twostate predicate LeafSplit()
      reads this, Repr, lower, upper
    {
      NodeSplit() && LeafHalves()
    }

    twostate predicate LeafHalves()
      requires old(over) != null && upper != null && old(over) in Repr
      reads this, Repr, upper
    {
      var node := old(over);
      var m := old(|node.keys| / 2);
      && node.leaf && old(|node.values| == |node.keys| > 0)
      && node.keys == old(node.keys)[..m] && node.values == old(node.values)[..m] && node.children == [] && node.next == upper
      && upper.keys == old(node.keys)[m..] && upper.values == old(node.values)[m..] && upper.children == [] && upper.next == old(node.next)
      && node.hi == At(upper.keys[0]) && home == Rehomed(old(home), node, upper, upper.keys[0])
    }

    twostate predicate InnerSplit()
      reads this, Repr, lower, upper
    {
      NodeSplit() && InnerHalves()
    }

    twostate predicate InnerHalves()
      requires old(over) != null && upper != null && old(over) in Repr
      reads this, Repr, upper
    {
      var node := old(over);
      var m := old(|node.keys| / 2);
      && !node.leaf && old(|node.children| == |node.keys| + 1 && |node.keys| > 0)
      && node.keys == old(node.keys)[..m] && node.values == [] && node.children == old(node.children)[..m + 1] && node.next == old(node.next)
      && upper.keys == old(node.keys)[m + 1..] && upper.values == [] && upper.children == old(node.children)[m + 1..]
      && node.hi == At(old(node.keys)[m]) && home == old(home)
    }

    twostate lemma SplitKeepsShapes()
      requires LeafSplit() || InnerSplit()
      requires old(maxKeys >= 3 && ShapesOk() && Closed() && |over.keys| == maxKeys + 1)
      ensures ShapesOk() && Closed() && SplitOk()
    {
      SplitKeepsHalves();
      assert old(over.ShapeOk());
      hide LeafHalves, InnerHalves;
      forall n | n in old(Repr) && n != old(over) ensures n.ShapeOk() && n.level <= root.level {
        assert old(n.ShapeOk());
      }
    }

    twostate lemma SplitKeepsHalves()
      requires LeafSplit() || InnerSplit()
      requires old(maxKeys >= 3 && ShapesOk() && Closed() && |over.keys| == maxKeys + 1)
      ensures lower.ShapeOk() && upper.ShapeOk() && SplitOk()
      ensures forall c | c in lower.children || c in upper.children :: c in Repr
    {
      if LeafSplit() {
        SplitKeepsLeaves();
      } else {
        SplitKeepsInners();
      }
      hide LeafHalves, TreeNode.ShapeOk;
    }

    twostate lemma SplitKeepsLeaves()
      requires LeafSplit()
      requires old(maxKeys >= 3 && ShapesOk() && |over.keys| == maxKeys + 1)
      ensures lower.ShapeOk() && upper.ShapeOk() && SplitOk()
    {
      var node := old(over);
      var m := old(|node.keys| / 2);
      assert old(node.ShapeOk());
      assert old(node.keys[0] < node.keys[m] && node.Covers(node.keys[0]) && node.Covers(node.keys[m]));
    }

    twostate lemma SplitKeepsInners()
      requires InnerSplit()
      requires old(maxKeys >= 3 && ShapesOk() && |over.keys| == maxKeys + 1)
      ensures lower.ShapeOk() && upper.ShapeOk() && SplitOk()
    {
      var node := old(over);
      var m := old(|node.keys| / 2);
      assert old(node.ShapeOk());
      assert old(node.keys[0] < node.keys[m]);
    }

    twostate lemma SplitKeepsFill()
      requires LeafSplit() || InnerSplit()
      requires old(maxKeys >= 3 && FillOk() && |over.keys| == maxKeys + 1)
      ensures FillOk()
    {
    }

    twostate lemma SplitKeepsChain()
      requires LeafSplit() || InnerSplit()
      requires old(ShapesOk() && ChainOk())
      ensures ChainOk()
    {
    }

    twostate lemma SplitKeepsParents()
      requires LeafSplit() || InnerSplit()
      requires old(ShapesOk() && Closed() && EdgesOk() && ParentsOk())
      ensures ParentsOk()
    {
      var node := old(over);
      OverChildren();
    }

    twostate lemma OverChildren()
      requires old(over in Repr && ShapesOk() && Closed() && EdgesOk())
      ensures forall c | c in old(over.children) :: c in old(Repr) && old(c.parent) == old(over) && c != old(over) && c != old(root)
    {
      var node := old(over);
      forall c | c in old(node.children) ensures c in old(Repr) && old(c.parent) == node && c != node && c != old(root) {
        var i :| 0 <= i < old(|node.children|) && c == old(node.children)[i];
        assert old(EdgeOk(node, i));
      }
    }

    twostate lemma SplitKeepsOthersEdges()
      requires LeafSplit() || InnerSplit()
      requires old(ShapesOk() && Closed() && EdgesOk())
      requires ShapesOk() && Closed()
      ensures forall n | n in Repr && !n.leaf && n != lower && n != upper :: forall i | 0 <= i < |n.children| :: EdgeOk(n, i)
    {
      hide Ascending, EntriesOk;
      OverChildren();
      forall n, i: nat | n in Repr && !n.leaf && n != lower && n != upper && i < |n.children| ensures EdgeOk(n, i) {
        assert old(EdgeOk(n, i));
      }
    }

    twostate lemma SplitKeepsHalvesEdges()
      requires InnerSplit() && old(ShapesOk() && Closed() && EdgesOk())
      requires ShapesOk() && Closed()
      ensures forall i | 0 <= i < |lower.children| :: EdgeOk(lower, i)
      ensures forall i | 0 <= i < |upper.children| :: EdgeOk(upper, i)
    {
      SplitKeepsLowerEdges();
      SplitKeepsUpperEdges();
      hide NodeSplit, InnerHalves, TreeNode.ShapeOk;
    }

    twostate lemma SplitKeepsLowerEdges()
      requires InnerSplit() && old(ShapesOk() && Closed() && EdgesOk())
      requires ShapesOk() && Closed()
      ensures forall i | 0 <= i < |lower.children| :: EdgeOk(lower, i)
    {
      hide Ascending, EntriesOk;
      var node := old(over);
      OverChildren();
      OldEdges(node);
      forall i: nat | i < |lower.children| ensures EdgeOk(lower, i) {
        assert old(EdgeOk(node, i));
      }
    }

    twostate lemma SplitKeepsUpperEdges()
      requires InnerSplit() && old(ShapesOk() && Closed() && EdgesOk())
      requires ShapesOk() && Closed()
      ensures forall i | 0 <= i < |upper.children| :: EdgeOk(upper, i)
    {
      hide Ascending, EntriesOk;
      var node := old(over);
      var m := old(|node.keys| / 2);
      OverChildren();
      OldEdges(node);
      forall i: nat | i < |upper.children| ensures EdgeOk(upper, i) {
        assert old(EdgeOk(node, i + m + 1));
      }
    }

    twostate lemma SplitKeepsEdges()
      requires LeafSplit() || InnerSplit()
      requires old(ShapesOk() && Closed() && EdgesOk())
      requires ShapesOk() && Closed()
      ensures EdgesOk() && EndOf(root) == old(EndOf(root))
    {
      SplitKeepsOthersEdges();
      if InnerSplit() {
        SplitKeepsHalvesEdges();
      }
    }

    twostate lemma OldEdges(n: TreeNode)
      requires old(n in Repr && !n.leaf && ShapesOk() && Closed() && EdgesOk())
      ensures forall i, j | 0 <= i < j < old(|n.children|) :: old(n.children)[i] != old(n.children)[j]
    {
      forall i, j | 0 <= i < j < old(|n.children|) ensures old(n.children)[i] != old(n.children)[j] {
        assert old(EdgeOk(n, i) && EdgeOk(n, j));
      }
    }

    twostate lemma SplitKeepsData()
      requires LeafSplit() || InnerSplit()
      requires old(ShapesOk() && DataOk()) && ShapesOk()
      ensures DataOk()
    {
      var node := old(over);
      var m := old(|node.keys| / 2);
      forall n | n in Repr && n.leaf ensures EntriesHold(n.keys, n.values, pairs) {
        assert n != upper ==> old(EntriesHold(n.keys, n.values, pairs));
        assert upper.leaf ==> old(EntriesHold(node.keys, node.values, pairs));
      }
      forall k | k in home ensures home[k] in Repr && home[k].leaf && k in home[k].keys {
        var n := old(home[k]);
        if n == node {
          var i :| 0 <= i < old(|node.keys|) && old(node.keys)[i] == k;
          assert old(node.ShapeOk());
          if i < m {
            assert k == lower.keys[i];
          } else {
            assert k == upper.keys[i - m];
          }
        }
      }
    }

    twostate lemma SplitKeepsTree()
      requires LeafSplit() || InnerSplit()
      requires old(TreeOk() && over in Repr && |over.keys| == maxKeys + 1)
      ensures TreeOk()
    {
      hide ShapesOk, Closed, EdgesOk, ParentsOk, ChainOk, FillOk, DataOk, SplitOk;
      SplitKeepsShapes();
      SplitKeepsEdges();
      SplitKeepsParents();
      SplitKeepsChain();
      SplitKeepsFill();
      SplitKeepsData();
    }

    lemma SplitFacts(n: TreeNode)
      requires TreeOk() && n in Repr
      ensures maxKeys >= 3
      ensures upper == null <==> lower == null
      ensures if n.leaf then n.level == 0 && |n.values| == |n.keys| && n.children == [] else |n.children| == |n.keys| + 1 && n.values == []
    {
      assert n.ShapeOk();
    }

    twostate lemma OverAscends()
      requires old(TreeOk() && over in Repr && over.leaf)
      ensures old(forall j | 0 < j < |over.keys| :: over.keys[0] < over.keys[j])
    {
      assert old(over.ShapeOk());
    }

    /** _split_leaf, up to its call of InsertInParent. */
    method DivideLeaf(leaf: TreeNode) returns (right: TreeNode)
      requires TreeOk() && lower == null && over == leaf && leaf in Repr && leaf.leaf && |leaf.keys| == maxKeys + 1
      modifies this, Repr
      ensures LeafSplit() && lower == leaf && upper == right && fresh(right)
    {
      hide TreeOk, Rehomed;
      SplitFacts(leaf);
      var midpoint := |leaf.keys| / 2;
      ghost var sep := leaf.keys[midpoint];
      right := new TreeNode(true, leaf.keys[midpoint..], leaf.values[midpoint..], [], leaf.parent, leaf.next, At(sep), leaf.hi, 0);
      KeepLeaf(leaf, midpoint, right);
      Enter(leaf, right);
      home := Rehomed(home, leaf, right, sep);
      if leaf == firstLeaf && right.keys[0] < leaf.keys[0] {
        firstLeaf := right;
      }
      OverAscends();
    }

    method SplitLeaf(leaf: TreeNode)
      requires TreeOk() && lower == null && over == leaf && leaf in Repr && leaf.leaf && |leaf.keys| == maxKeys + 1
      modifies this, Repr
      ensures Valid() && fresh(Repr - old(Repr)) && pairs == old(pairs)
    {
      hide TreeOk, EntriesOk, EntriesHold, TreeNode.Covers;
      var right := DivideLeaf(leaf);
      SplitKeepsTree();
      SplitLevel();
      InsertInParent(leaf, right.keys[0], right);
    }

    method KeepLeaf(leaf: TreeNode, midpoint: nat, right: TreeNode)
      requires midpoint < |leaf.keys| == |leaf.values|
      modifies leaf`keys, leaf`values, leaf`next, leaf`hi
      ensures leaf.keys == old(leaf.keys)[..midpoint] && leaf.values == old(leaf.values)[..midpoint]
      ensures leaf.next == right && leaf.hi == At(old(leaf.keys)[midpoint])
    {
      leaf.hi := At(leaf.keys[midpoint]);
      leaf.keys, leaf.values := leaf.keys[..midpoint], leaf.values[..midpoint];
      leaf.next := right;
    }

    method Relink(right: TreeNode)
      modifies (set c | c in right.children)`parent
      ensures forall c | c in right.children :: c.parent == right
    {
      for i := 0 to |right.children|
        invariant forall j | 0 <= j < i :: right.children[j].parent == right
      {
        right.children[i].parent := right;
      }
    }

    /** _split_internal, up to its call of InsertInParent. */
    method DivideInternal(node: TreeNode) returns (separator: Key, right: TreeNode)
      requires TreeOk() && lower == null && over == node && node in Repr && !node.leaf && |node.keys| == maxKeys + 1
      modifies this, Repr
      ensures InnerSplit() && lower == node && upper == right && fresh(right) && node.hi == At(separator)
    {
      hide TreeOk, Ascending, TreeNode.ShapeOk, TreeNode.Covers;
      SplitFacts(node);
      var midpoint := |node.keys| / 2;
      separator := node.keys[midpoint];
      UpperChildren(node, midpoint + 1);
      right := UpperInner(node, midpoint, node.children[midpoint + 1..]);
      KeepInner(node, midpoint);
      Enter(node, right);
    }

    method UpperInner(node: TreeNode, midpoint: nat, children: seq<TreeNode>) returns (right: TreeNode)
      requires midpoint < |node.keys|
      modifies (set c | c in children)`parent
      ensures fresh(right) && !right.leaf && right.keys == node.keys[midpoint + 1..] && right.values == []
      ensures right.children == children && right.parent == old(node.parent) && right.next == null
      ensures right.lo == At(node.keys[midpoint]) && right.hi == node.hi && right.level == node.level
      ensures forall c | c in right.children :: c.parent == right
    {
      right := new TreeNode(false, node.keys[midpoint + 1..], [], children, node.parent, null,
                        At(node.keys[midpoint]), node.hi, node.level);
      Relink(right);
    }

    method KeepInner(node: TreeNode, midpoint: nat)
      requires midpoint < |node.keys| && midpoint < |node.children|
      modifies node`keys, node`children, node`hi
      ensures node.keys == old(node.keys)[..midpoint] && node.children == old(node.children)[..midpoint + 1]
      ensures node.hi == At(old(node.keys)[midpoint])
    {
      node.keys, node.children, node.hi := node.keys[..midpoint], node.children[..midpoint + 1], At(node.keys[midpoint]);
    }

    /** The new half joins the tree, not yet linked. */
    ghost method Enter(left: TreeNode, right: TreeNode)
      modifies this`Repr, this`lower, this`upper, this`over
      ensures Repr == old(Repr) + {right} && lower == left && upper == right && over == null
    {
      Repr, lower, upper, over := Repr + {right}, left, right, null;
    }

    method SplitInternal(node: TreeNode)
      requires TreeOk() && lower == null && over == node && node in Repr && !node.leaf && |node.keys| == maxKeys + 1
      requires node.level <= root.level
      modifies this, Repr
      ensures Valid() && fresh(Repr - old(Repr)) && pairs == old(pairs)
      decreases root.level - node.level, 1
    {
      hide TreeOk, Ascending;
      var separator, right := DivideInternal(node);
      SplitKeepsTree();
      SplitLevel();
      InsertInParent(node, separator, right);
    }

    twostate lemma SplitLevel()
      requires NodeSplit() && old(TreeOk())
      ensures lower.level <= root.level == old(root.level)
    {
      assert old(root in Repr);
    }

    lemma UpperChildren(node: TreeNode, from: nat)
      requires TreeOk() && node in Repr && !node.leaf && from <= |node.children|
      ensures forall c | c in node.children[from..] :: c in Repr && c != node
    {
      forall c | c in node.children[from..] ensures c in Repr && c != node {
        var i :| from <= i < |node.children| && node.children[i] == c;
        assert EdgeOk(node, i);
      }
    }

    // ---------------------------------------------------------------- linking the new node

    function IndexOf(nodes: seq<TreeNode>, n: TreeNode): (i: nat)
      requires n in nodes
      ensures i < |nodes| && nodes[i] == n
    {
      if nodes[0] == n then 0 else 1 + IndexOf(nodes[1..], n)
    }

    /** list.index, which compares nodes by value: the first with the same kind and the same keys. */
    function IndexByValue(nodes: seq<TreeNode>, n: TreeNode): (i: nat)
      reads nodes, n
      requires n in nodes
      ensures i < |nodes|
    {
      if nodes[0] == n || (nodes[0].leaf == n.leaf && nodes[0].keys == n.keys) then 0 else 1 + IndexByValue(nodes[1..], n)
    }

    /** A child below a split, or not, holds a key, and its first key is in its interval. */
    lemma ChildHasKey(n: TreeNode, i: nat)
      requires TreeOk() && n in Repr && !n.leaf && i < |n.children|
      ensures |n.children| == |n.keys| + 1 && n.children[i].keys != []
      ensures From(n.ChildLo(i), n.children[i].keys[0]) && Below(n.ChildHi(i, n.hi), n.children[i].keys[0])
    {
      assert EdgeOk(n, i);
      var c := n.children[i];
      assert c.ShapeOk();
    }

    /** Siblings differ in their keys. */
    lemma SiblingsDiffer(n: TreeNode, i: nat, j: nat)
      requires TreeOk() && n in Repr && !n.leaf && i < j < |n.children|
      ensures n.children[i].keys != n.children[j].keys
    {
      ChildHasKey(n, i);
      ChildHasKey(n, j);
      assert n.ShapeOk();
    }

    lemma {:induction false} SkipsOthers(nodes: seq<TreeNode>, n: TreeNode)
      requires n in nodes && forall i | 0 <= i < |nodes| && nodes[i] != n :: nodes[i].keys != n.keys
      ensures IndexByValue(nodes, n) == IndexOf(nodes, n)
    {
      if nodes[0] != n {
        SkipsOthers(nodes[1..], n);
      }
    }

    /** So comparing by value finds the very node. */
    lemma IndexByValueFinds(n: TreeNode, child: TreeNode)
      requires TreeOk() && n in Repr && !n.leaf && child in n.children
      ensures IndexByValue(n.children, child) == IndexOf(n.children, child)
    {
      var k :| 0 <= k < |n.children| && n.children[k] == child;
      forall i | 0 <= i < |n.children| && n.children[i] != child ensures n.children[i].keys != child.keys {
        if i < k { SiblingsDiffer(n, i, k); } else { SiblingsDiffer(n, k, i); }
      }
      SkipsOthers(n.children, child);
    }

    /** The parent now lists `upper` right after `lower`. */
    twostate predicate Adopted(parent: TreeNode)
      reads this, Repr
    {
      var left, right := old(lower), old(upper);
      && left != null && right != null && parent == old(left.parent) && parent in old(Repr) && lower == null && upper == null
      && Repr == old(Repr) && root == old(root) && firstLeaf == old(firstLeaf)
      && pairs == old(pairs) && size == old(size) && home == old(home)
      && (forall n | n in Repr && n != parent :: unchanged(n))
      && parent.leaf == old(parent.leaf) && parent.values == old(parent.values) && parent.parent == old(parent.parent)
      && parent.next == old(parent.next) && parent.lo == old(parent.lo) && parent.hi == old(parent.hi) && parent.level == old(parent.level)
      && old(left in parent.children) && old(left.hi.At?)
      && old(|parent.children| == |parent.keys| + 1)
      && var i := IndexOf(old(parent.children), left);
      && parent.keys == old(parent.keys)[..i] + [old(left.hi.key)] + old(parent.keys)[i..]
      && parent.children == old(parent.children)[..i + 1] + [right] + old(parent.children)[i + 1..]
      && over == if |parent.keys| > maxKeys then parent else null
    }

    twostate lemma AdoptKeepsInner(parent: TreeNode)
      requires Adopted(parent) && old(ShapesOk() && Closed() && SplitOk() && EdgesOk() && ParentsOk())
      ensures parent.InnerOk() && !parent.leaf
    {
      var i := IndexOf(old(parent.children), old(lower));
      assert old(EdgeOk(parent, i));
      assert old(parent.ShapeOk());
    }

    twostate lemma AdoptKeepsShapes(parent: TreeNode)
      requires Adopted(parent) && old(ShapesOk() && Closed() && SplitOk() && EdgesOk() && ParentsOk())
      ensures ShapesOk() && Closed() && SplitOk()
    {
      AdoptKeepsInner(parent);
      hide TreeNode.InnerOk, TreeNode.LeafOk;
    }

    twostate lemma AdoptKeepsOthersEdges(parent: TreeNode)
      requires Adopted(parent) && old(ShapesOk() && Closed() && SplitOk() && EdgesOk() && ParentsOk())
      requires ShapesOk() && Closed()
      ensures forall n | n in Repr && !n.leaf && n != parent :: forall i | 0 <= i < |n.children| :: EdgeOk(n, i)
    {
      hide Ascending, EntriesOk, IndexOf;
      forall n, i: nat | n in Repr && !n.leaf && n != parent && i < |n.children| ensures EdgeOk(n, i) {
        assert old(EdgeOk(n, i));
      }
    }

    /** The parent's edges up to the lower half, and from the upper half on. */
    twostate lemma AdoptKeepsLeftEdges(parent: TreeNode)
      requires Adopted(parent) && old(ShapesOk() && Closed() && SplitOk() && EdgesOk() && ParentsOk())
      requires ShapesOk() && Closed() && !parent.leaf
      ensures forall i | 0 <= i <= IndexOf(old(parent.children), old(lower)) :: EdgeOk(parent, i)
    {
      hide Ascending, EntriesOk, TreeNode.ShapeOk;
      OldEdges(parent);
      forall i: nat | i <= IndexOf(old(parent.children), old(lower)) ensures EdgeOk(parent, i) {
        assert old(EdgeOk(parent, i));
      }
    }

    twostate lemma AdoptKeepsRightEdges(parent: TreeNode)
      requires Adopted(parent) && old(ShapesOk() && Closed() && SplitOk() && EdgesOk() && ParentsOk())
      requires ShapesOk() && Closed() && !parent.leaf
      ensures forall i | IndexOf(old(parent.children), old(lower)) < i < |parent.children| :: EdgeOk(parent, i)
    {
      hide Ascending, EntriesOk, TreeNode.ShapeOk;
      OldEdges(parent);
      var at := IndexOf(old(parent.children), old(lower));
      assert old(EdgeOk(parent, at));
      forall i: nat | at < i < |parent.children| ensures EdgeOk(parent, i) {
        assert old(EdgeOk(parent, i - 1));
      }
    }

    twostate lemma AdoptKeepsEdges(parent: TreeNode)
      requires Adopted(parent) && old(ShapesOk() && Closed() && SplitOk() && EdgesOk() && ParentsOk())
      requires ShapesOk() && Closed()
      ensures EdgesOk()
    {
      AdoptKeepsOthersEdges(parent);
      if !parent.leaf {
        AdoptKeepsLeftEdges(parent);
        AdoptKeepsRightEdges(parent);
      }
    }

    twostate lemma AdoptKeepsTop(parent: TreeNode)
      requires Adopted(parent) && old(SplitOk() && ParentsOk() && root.lo == Open && EndOf(root) == Open)
      ensures root.lo == Open && EndOf(root) == Open
    {
    }

    twostate lemma AdoptKeepsRest(parent: TreeNode)
      requires Adopted(parent) && old(ShapesOk() && SplitOk() && ParentsOk() && ChainOk() && FillOk() && DataOk() && over == null)
      requires ShapesOk()
      ensures ChainOk() && FillOk() && DataOk()
    {
    }

    twostate lemma AdoptKeepsParents(parent: TreeNode)
      requires Adopted(parent) && old(SplitOk() && ParentsOk() && over == null)
      ensures ParentsOk()
    {
      var i := IndexOf(old(parent.children), old(lower));
      forall n | n in old(parent.children) ensures n in parent.children {
        var j :| 0 <= j < old(|parent.children|) && n == old(parent.children)[j];
        assert n == parent.children[if j <= i then j else j + 1];
      }
      assert parent.children[i + 1] == old(upper);
    }

    /** The root was split: a new root lists both halves. */
    twostate predicate Raised()
      reads this, Repr
    {
      var left, right := old(lower), old(upper);
      && left != null && right != null && left in old(Repr) && right in old(Repr) && lower == null && upper == null && over == null
      && left == old(root) && root !in old(Repr) && Repr == old(Repr) + {root} && firstLeaf == old(firstLeaf)
      && pairs == old(pairs) && size == old(size) && home == old(home)
      && (forall n | n in old(Repr) ::
            && n.leaf == old(n.leaf) && n.keys == old(n.keys) && n.values == old(n.values) && n.children == old(n.children)
            && n.next == old(n.next) && n.lo == old(n.lo) && n.hi == old(n.hi) && n.level == old(n.level)
            && n.parent == if n == left || n == right then root else old(n.parent))
      && left.hi.At? && !root.leaf && root.keys == [left.hi.key] && root.children == [left, right] && root.values == []
      && root.parent == null && root.lo == Open && root.hi == Open && root.level == left.level + 1
    }

    twostate lemma RaiseKeepsLinks()
      requires Raised() && old(ShapesOk() && Closed() && SplitOk() && EdgesOk() && ParentsOk() && root.lo == Open && EndOf(root) == Open)
      ensures ShapesOk() && Closed() && SplitOk() && EdgesOk() && ParentsOk()
    {
      assert root.ShapeOk();
      forall n, i: nat | n in Repr && !n.leaf && i < |n.children| ensures n.children[i] in Repr && EdgeOk(n, i) {
        if n != root {
          assert old(EdgeOk(n, i));
        }
      }
    }

    twostate lemma RaiseKeepsRest()
      requires Raised() && old(maxKeys >= 3 && ShapesOk() && SplitOk() && ChainOk() && FillOk() && DataOk() && over == null)
      requires ShapesOk()
      ensures ChainOk() && FillOk() && DataOk()
    {
    }

    twostate lemma AdoptKeepsTree(parent: TreeNode)
      requires Adopted(parent) && old(TreeOk() && over == null)
      ensures TreeOk()
    {
      hide ShapesOk, Closed, EdgesOk, ParentsOk, ChainOk, FillOk, DataOk, SplitOk;
      AdoptKeepsShapes(parent);
      AdoptKeepsEdges(parent);
      AdoptKeepsRest(parent);
      AdoptKeepsParents(parent);
      AdoptKeepsTop(parent);
    }

    twostate lemma RaiseKeepsTree()
      requires Raised() && old(TreeOk() && over == null)
      ensures TreeOk()
    {
      hide ShapesOk, Closed, EdgesOk, ParentsOk, ChainOk, FillOk, DataOk, SplitOk;
      RaiseKeepsLinks();
      RaiseKeepsRest();
    }

    lemma ParentFacts(n: TreeNode)
      requires TreeOk() && n in Repr && n == lower
      ensures upper in Repr && upper != n && upper != root && upper.parent == n.parent && root in Repr
      ensures n.parent == null <==> n == root
      ensures n != root ==>
        && n.parent in Repr && !n.parent.leaf && n in n.parent.children && n.level < n.parent.level <= root.level
        && |n.parent.keys| <= maxKeys && |n.parent.children| == |n.parent.keys| + 1 && n.parent != upper
    {
      if n != root {
        var i :| 0 <= i < |n.parent.children| && n.parent.children[i] == n;
        assert EdgeOk(n.parent, i);
        assert n.parent.ShapeOk();
      }
    }

    method Adopt(parent: TreeNode, left: TreeNode, separator: Key, right: TreeNode)
      requires TreeOk() && over == null && left == lower && right == upper && left in Repr && left != root && parent == left.parent
      requires left.hi == At(separator)
      modifies this, Repr
      ensures Adopted(parent)
    {
      hide TreeOk;
      ParentFacts(left);
      IndexByValueFinds(parent, left);
      var index := IndexByValue(parent.children, left);
      parent.keys := parent.keys[..index] + [separator] + parent.keys[index..];
      parent.children := parent.children[..index + 1] + [right] + parent.children[index + 1..];
      right.parent := parent;
      lower, upper, over := null, null, if |parent.keys| > maxKeys then parent else null;
    }

    method RaiseRoot(left: TreeNode, separator: Key, right: TreeNode)
      requires TreeOk() && over == null && left == lower && right == upper && left in Repr && left == root
      requires left.hi == At(separator)
      modifies this, Repr
      ensures Raised() && fresh(root)
    {
      hide TreeOk;
      ParentFacts(left);
      root := new TreeNode(false, [separator], [], [left, right], null, null, Open, Open, left.level + 1);
      left.parent := root;
      right.parent := root;
      Repr, lower, upper := Repr + {root}, null, null;
    }

    method InsertInParent(left: TreeNode, separator: Key, right: TreeNode)
      requires TreeOk() && over == null && left == lower && right == upper && left in Repr && left.level <= root.level
      requires left.hi == At(separator)
      modifies this, Repr
      ensures Valid() && fresh(Repr - old(Repr)) && pairs == old(pairs)
      decreases root.level - left.level, 0
    {
      hide TreeOk, TreeNode.InnerOk;
      ParentFacts(left);
      var parent := left.parent;
      if parent == null {
        RaiseRoot(left, separator, right);
        RaiseKeepsTree();
        return;
      }
      Adopt(parent, left, separator, right);
      AdoptKeepsTree(parent);
      if |parent.keys| > maxKeys {
        SplitInternal(parent);
      }
    }
  }

  // ---------------------------------------------------------------- a listing is unique

  lemma FirstIsMember<T>(s: seq<T>)
    ensures s == [] || s[0] in s
  {
  }

  lemma {:induction false} AscendingUnique(a: seq<int>, b: seq<int>)
    requires AscendingInts(a) && AscendingInts(b)
    requires forall x :: x in a <==> x in b
    ensures a == b
  {
    if a == [] {
      FirstIsMember(b);
    } else {
      assert a[0] in b && b[0] in a;
      forall x ensures x in a[1..] <==> x in b[1..] {
        assert x in a[1..] <==> x in a && x != a[0];
        assert x in b[1..] <==> x in b && x != b[0];
      }
      AscendingUnique(a[1..], b[1..]);
    }
  }

  /** The entry a listing must have for a key. */
  lemma ListedOnce(a: seq<Entry>, b: seq<Entry>, s: set<Pair>, i: nat) returns (j: nat)
    requires Lists(a, s) && Lists(b, s) && i < |a|
    ensures j < |b| && b[j] == a[i]
  {
    var p := a[i].1[0];
    assert p in a[i].1 && (a[i].0, p) in s;
    assert HasKey(b, a[i].0);
    j :| 0 <= j < |b| && b[j].0 == a[i].0;
    AscendingUnique(b[j].1, a[i].1);
  }

  lemma {:induction false} SameEntries(a: seq<Entry>, b: seq<Entry>)
    requires KeysAscend(a) && KeysAscend(b)
    requires forall e :: e in a <==> e in b
    ensures a == b
  {
    if a == [] {
      FirstIsMember(b);
    } else {
      assert a[0] in b && b[0] in a;
      forall e ensures e in a[1..] <==> e in b[1..] {
        assert e in a[1..] <==> e in a && e != a[0];
        assert e in b[1..] <==> e in b && e != b[0];
      }
      SameEntries(a[1..], b[1..]);
    }
  }

  /** Two trees with the same relation list the same entries in the same order. */
  lemma ListingUnique(a: seq<Entry>, b: seq<Entry>, s: set<Pair>)
    requires Lists(a, s) && Lists(b, s)
    ensures a == b
  {
    forall e ensures e in a <==> e in b {
      if e in a {
        var i :| 0 <= i < |a| && a[i] == e;
        var j := ListedOnce(a, b, s, i);
      } else if e in b {
        var i :| 0 <= i < |b| && b[i] == e;
        var j := ListedOnce(b, a, s, i);
      }
    }
    SameEntries(a, b);
  }

  lemma HasKeyLonger(a: seq<Entry>, b: seq<Entry>, key: Key)
    requires a <= b && HasKey(a, key)
    ensures HasKey(b, key)
  {
    var i :| 0 <= i < |a| && a[i].0 == key;
    assert b[i].0 == key;
  }
}
