/**
 The pairing heap of All_Summer2017/testProject/data_structures/PairingHeap.h.

 Nodes live in a store keyed by address and are relinked in place through their child, sibling and
 prev pointers. `Tree` is the mathematical view of such a structure: `left` is the list of children
 and `sib` the siblings that follow, so `prev` is always the node one step up in this binary tree.
 */
module PairingHeap {
  import opened Options
  import PQ = PriorityQueue
  import Slots

  type Ptr = nat

  datatype PairNode = PairNode(element: int, leftChild: Option<Ptr>, nextSibling: Option<Ptr>, prev: Option<Ptr>)

  type Store = map<Ptr, PairNode>

  datatype Tree = Nil | Bin(n: Ptr, key: int, left: Tree, sib: Tree)

  ghost function Nodes(t: Tree): set<Ptr> {
    if t.Nil? then {} else {t.n} + Nodes(t.left) + Nodes(t.sib)
  }

  ghost function Keys(t: Tree): multiset<int> {
    if t.Nil? then multiset{} else multiset{t.key} + Keys(t.left) + Keys(t.sib)
  }

  /** No node occurs twice. */
  ghost predicate Distinct(t: Tree) {
    t.Bin? ==>
      && t.n !in Nodes(t.left) && t.n !in Nodes(t.sib) && Nodes(t.left) !! Nodes(t.sib)
      && Distinct(t.left) && Distinct(t.sib)
  }

  /** Heap order below a parent with key `lo`. */
  ghost predicate Ordered(t: Tree, lo: int) {
    t.Bin? ==> lo <= t.key && Ordered(t.left, t.key) && Ordered(t.sib, lo)
  }

  /** The pointers from `p`, reached from `up`, spell out `t`. */
  ghost predicate Shape(m: Store, p: Option<Ptr>, up: Option<Ptr>, t: Tree)
    decreases t
  {
    match t
    case Nil => p == None
    case Bin(n, key, left, sib) =>
      && p == Some(n) && n in m && m[n].element == key && m[n].prev == up
      && Shape(m, m[n].leftChild, Some(n), left) && Shape(m, m[n].nextSibling, Some(n), sib)
  }

  /** As `Shape`, for a node whose own `prev` means nothing. */
  ghost predicate Top(m: Store, p: Ptr, t: Tree) {
    && t.Bin? && p == t.n && p in m && m[p].element == t.key
    && Shape(m, m[p].leftChild, Some(p), t.left) && Shape(m, m[p].nextSibling, Some(p), t.sib)
  }

  /** A tree on its own: a root without siblings. */
  ghost predicate Single(t: Tree) { t.Bin? && t.sib.Nil? }

  /** A well-formed heap-ordered tree. */
  ghost predicate Heap(t: Tree) { Single(t) && Distinct(t) && Ordered(t.left, t.key) }

  lemma {:induction false} OrderedBound(t: Tree, lo: int)
    requires Ordered(t, lo)
    ensures forall k :: k in Keys(t) ==> lo <= k
  {
    if t.Bin? {
      OrderedBound(t.left, t.key);
      OrderedBound(t.sib, lo);
    }
  }

  /** The two stores agree on `s`. */
  ghost predicate Same(m: Store, m': Store, s: set<Ptr>) {
    forall x :: x in s && x in m ==> x in m' && m'[x] == m[x]
  }

  lemma {:induction false} ShapeFrame(m: Store, m': Store, p: Option<Ptr>, up: Option<Ptr>, t: Tree)
    requires Shape(m, p, up, t) && Same(m, m', Nodes(t))
    ensures Shape(m', p, up, t)
    decreases t
  {
    if t.Bin? {
      ShapeFrame(m, m', m[t.n].leftChild, Some(t.n), t.left);
      ShapeFrame(m, m', m[t.n].nextSibling, Some(t.n), t.sib);
    }
  }

  lemma TopFrame(m: Store, m': Store, p: Ptr, t: Tree)
    requires Top(m, p, t) && Same(m, m', Nodes(t))
    ensures Top(m', p, t)
  {
    ShapeFrame(m, m', m[p].leftChild, Some(p), t.left);
    ShapeFrame(m, m', m[p].nextSibling, Some(p), t.sib);
  }

  /** Redirecting the topmost `prev` of a structure. */
  lemma ShapeRehung(m: Store, m': Store, p: Option<Ptr>, up: Option<Ptr>, up': Option<Ptr>, t: Tree)
    requires Shape(m, p, up, t) && Distinct(t)
    requires t.Bin? ==> t.n in m' && m'[t.n] == m[t.n].(prev := up')
    requires t.Bin? ==> Same(m, m', Nodes(t) - {t.n})
    ensures Shape(m', p, up', t)
  {
    if t.Bin? {
      ShapeFrame(m, m', m[t.n].leftChild, Some(t.n), t.left);
      ShapeFrame(m, m', m[t.n].nextSibling, Some(t.n), t.sib);
    }
  }

  // ---------------------------------------------------------------- linking two trees

  /** The tree with the larger root becomes the first child of the other, ties keeping `a` on top;
      the result stands where `b` stood among its siblings. */
  ghost function Link(a: Tree, b: Tree): Tree
    requires a.Bin? && b.Bin?
  {
    if b.key < a.key then Bin(b.n, b.key, Bin(a.n, a.key, a.left, b.left), b.sib)
    else Bin(a.n, a.key, Bin(b.n, b.key, b.left, a.left), b.sib)
  }

  lemma LinkHeap(a: Tree, b: Tree)
    requires Heap(a) && Heap(b) && Nodes(a) !! Nodes(b)
    ensures Heap(Link(a, b)) && Nodes(Link(a, b)) == Nodes(a) + Nodes(b) && Keys(Link(a, b)) == Keys(a) + Keys(b)
  {
  }

  /** The pointer writes of lines 57-63 turn `a` and `b` into `Link(a, b)` with `b`'s root on top. */
  lemma LinkedBelowSecond(m: Store, m': Store, a: Tree, b: Tree)
    requires a.Bin? && b.Bin? && Top(m, a.n, a) && Top(m, b.n, b) && Single(a) && Distinct(a) && Distinct(b)
    requires Nodes(a) !! Nodes(b) && b.key < a.key
    requires a.n in m' && m'[a.n] == m[a.n].(prev := Some(b.n), nextSibling := m[b.n].leftChild)
    requires b.n in m' && m'[b.n] == m[b.n].(prev := m[a.n].prev, leftChild := Some(a.n))
    requires b.left.Bin? ==> b.left.n in m && b.left.n in m' && m'[b.left.n] == m[b.left.n].(prev := Some(a.n))
    requires Same(m, m', Nodes(a.left) + Nodes(b.sib)) && (b.left.Bin? ==> Same(m, m', Nodes(b.left) - {b.left.n}))
    ensures Top(m', b.n, Link(a, b))
  {
    ShapeFrame(m, m', m[a.n].leftChild, Some(a.n), a.left);
    ShapeFrame(m, m', m[b.n].nextSibling, Some(b.n), b.sib);
    ShapeRehung(m, m', m[b.n].leftChild, Some(b.n), Some(a.n), b.left);
  }

  /** The pointer writes of lines 65-73, with `a`'s root on top. */
  lemma LinkedBelowFirst(m: Store, m': Store, a: Tree, b: Tree)
    requires a.Bin? && b.Bin? && Top(m, a.n, a) && Top(m, b.n, b) && Single(a) && Distinct(a) && Distinct(b)
    requires Nodes(a) !! Nodes(b) && a.key <= b.key
    requires a.n in m' && m'[a.n] == m[a.n].(nextSibling := m[b.n].nextSibling, leftChild := Some(b.n))
    requires b.n in m' && m'[b.n] == m[b.n].(prev := Some(a.n), nextSibling := m[a.n].leftChild)
    requires a.left.Bin? ==> a.left.n in m && a.left.n in m' && m'[a.left.n] == m[a.left.n].(prev := Some(b.n))
    requires b.sib.Bin? ==> b.sib.n in m && b.sib.n in m' && m'[b.sib.n] == m[b.sib.n].(prev := Some(a.n))
    requires Same(m, m', Nodes(b.left)) && (a.left.Bin? ==> Same(m, m', Nodes(a.left) - {a.left.n}))
    requires b.sib.Bin? ==> Same(m, m', Nodes(b.sib) - {b.sib.n})
    ensures Top(m', a.n, Link(a, b))
  {
    ShapeFrame(m, m', m[b.n].leftChild, Some(b.n), b.left);
    ShapeRehung(m, m', m[a.n].leftChild, Some(a.n), Some(b.n), a.left);
    ShapeRehung(m, m', m[b.n].nextSibling, Some(b.n), Some(a.n), b.sib);
  }

  // ---------------------------------------------------------------- merging siblings

  /** The trees of a sibling list, each on its own. */
  ghost function Trees(t: Tree): (ts: seq<Tree>)
    ensures (ts == [] <==> t.Nil?) && forall i :: 0 <= i < |ts| ==> Single(ts[i])
  {
    if t.Nil? then [] else [Bin(t.n, t.key, t.left, Nil)] + Trees(t.sib)
  }

  /** First pass: link neighbours left to right, an odd one out stays alone. */
  ghost function PairUp(ts: seq<Tree>): (ps: seq<Tree>)
    requires forall i :: 0 <= i < |ts| ==> Single(ts[i])
    ensures |ps| == (|ts| + 1) / 2 && forall i :: 0 <= i < |ps| ==> Single(ps[i])
  {
    if |ts| < 2 then ts else assert Single(ts[0]) && Single(ts[1]); [Link(ts[0], ts[1])] + PairUp(ts[2..])
  }

  /** Second pass: link right to left into one tree. */
  ghost function MergeRight(ps: seq<Tree>): (t: Tree)
    requires |ps| > 0 && forall i :: 0 <= i < |ps| ==> Single(ps[i])
    ensures Single(t)
  {
    if |ps| == 1 then ps[0] else assert Single(ps[0]); Link(ps[0], MergeRight(ps[1..]))
  }

  /** Both passes over a sibling list. */
  ghost function Combined(t: Tree): (r: Tree)
    requires t.Bin?
    ensures Single(r)
  {
    MergeRight(PairUp(Trees(t)))
  }

  ghost function AllNodes(ts: seq<Tree>): set<Ptr> {
    if ts == [] then {} else Nodes(ts[0]) + AllNodes(ts[1..])
  }

  ghost function AllKeys(ts: seq<Tree>): multiset<int> {
    if ts == [] then multiset{} else Keys(ts[0]) + AllKeys(ts[1..])
  }

  /** Heap-ordered trees without common nodes. */
  ghost predicate Forest(ts: seq<Tree>) {
    ts != [] ==> Heap(ts[0]) && Nodes(ts[0]) !! AllNodes(ts[1..]) && Forest(ts[1..])
  }

  lemma ForestCons(t: Tree, ts: seq<Tree>)
    ensures Forest([t] + ts) <==> Heap(t) && Nodes(t) !! AllNodes(ts) && Forest(ts)
    ensures AllNodes([t] + ts) == Nodes(t) + AllNodes(ts) && AllKeys([t] + ts) == Keys(t) + AllKeys(ts)
  {
    assert ([t] + ts)[1..] == ts;
  }

  lemma {:induction false} TreesForest(t: Tree, lo: int)
    requires Distinct(t) && Ordered(t, lo)
    ensures Forest(Trees(t)) && AllNodes(Trees(t)) == Nodes(t) && AllKeys(Trees(t)) == Keys(t)
  {
    if t.Bin? {
      TreesForest(t.sib, lo);
      ForestCons(Bin(t.n, t.key, t.left, Nil), Trees(t.sib));
    }
  }

  lemma {:induction false} ForestSingles(ts: seq<Tree>)
    requires Forest(ts)
    ensures forall i :: 0 <= i < |ts| ==> Single(ts[i]) && Heap(ts[i])
  {
    if ts != [] { ForestSingles(ts[1..]); }
  }

  lemma LinkFront(a: Tree, b: Tree, ps: seq<Tree>)
    requires Heap(a) && Heap(b) && Nodes(a) !! Nodes(b) !! AllNodes(ps) && Forest(ps)
    ensures Forest([Link(a, b)] + ps)
    ensures AllNodes([Link(a, b)] + ps) == Nodes(a) + Nodes(b) + AllNodes(ps)
    ensures AllKeys([Link(a, b)] + ps) == Keys(a) + Keys(b) + AllKeys(ps)
  {
    LinkHeap(a, b);
    ForestCons(Link(a, b), ps);
  }

  lemma SplitTwo(ts: seq<Tree>)
    requires Forest(ts) && |ts| >= 2
    ensures Heap(ts[0]) && Heap(ts[1]) && Nodes(ts[0]) !! Nodes(ts[1]) !! AllNodes(ts[2..]) && Forest(ts[2..])
    ensures AllNodes(ts) == Nodes(ts[0]) + Nodes(ts[1]) + AllNodes(ts[2..])
    ensures AllKeys(ts) == Keys(ts[0]) + Keys(ts[1]) + AllKeys(ts[2..])
  {
    assert ts[1..][1..] == ts[2..] && ts[1..][0] == ts[1];
  }

  lemma {:induction false} PairUpForest(ts: seq<Tree>)
    requires Forest(ts)
    ensures forall i :: 0 <= i < |ts| ==> Single(ts[i])
    ensures Forest(PairUp(ts)) && AllNodes(PairUp(ts)) == AllNodes(ts) && AllKeys(PairUp(ts)) == AllKeys(ts)
  {
    ForestSingles(ts);
    if |ts| >= 2 {
      SplitTwo(ts);
      PairUpForest(ts[2..]);
      LinkFront(ts[0], ts[1], PairUp(ts[2..]));
      assert PairUp(ts) == [Link(ts[0], ts[1])] + PairUp(ts[2..]);
    }
  }

  lemma {:induction false} MergeRightHeap(ps: seq<Tree>)
    requires |ps| > 0 && Forest(ps)
    ensures forall i :: 0 <= i < |ps| ==> Single(ps[i])
    ensures Heap(MergeRight(ps)) && Nodes(MergeRight(ps)) == AllNodes(ps) && Keys(MergeRight(ps)) == AllKeys(ps)
  {
    ForestSingles(ps);
    if |ps| > 1 {
      MergeRightHeap(ps[1..]);
      LinkHeap(ps[0], MergeRight(ps[1..]));
    } else {
      assert ps[1..] == [];
    }
  }

  /** Merging any number of siblings, odd or even, gives one heap of exactly their nodes and keys. */
  lemma CombineHeap(t: Tree, lo: int)
    requires t.Bin? && Distinct(t) && Ordered(t, lo)
    ensures Heap(Combined(t)) && Nodes(Combined(t)) == Nodes(t) && Keys(Combined(t)) == Keys(t)
  {
    TreesForest(t, lo);
    PairUpForest(Trees(t));
    MergeRightHeap(PairUp(Trees(t)));
  }

  // ---------------------------------------------------------------- the passes by array index

  /** What index `j` (even) of the array holds after the first pass. */
  ghost function Paired(ts: seq<Tree>, j: nat): (t: Tree)
    requires j < |ts| && forall i :: 0 <= i < |ts| ==> Single(ts[i])
    ensures Single(t)
  {
    assert Single(ts[j]);
    if j + 1 < |ts| then assert Single(ts[j + 1]); Link(ts[j], ts[j + 1]) else ts[j]
  }

  /** What index `j` (even) holds when the second pass has come down to it. */
  ghost function Merged(ts: seq<Tree>, j: nat): (t: Tree)
    requires j < |ts| && forall i :: 0 <= i < |ts| ==> Single(ts[i])
    ensures Single(t)
    decreases |ts| - j
  {
    if j + 2 < |ts| then Link(Paired(ts, j), Merged(ts, j + 2)) else Paired(ts, j)
  }

  lemma {:induction false} PairUpAt(ts: seq<Tree>, m: nat)
    requires 2 * m < |ts| && forall i :: 0 <= i < |ts| ==> Single(ts[i])
    ensures PairUp(ts)[m] == Paired(ts, 2 * m)
  {
    if |ts| >= 2 && m > 0 {
      PairUpAt(ts[2..], m - 1);
    }
  }

  lemma {:induction false} MergedIs(ts: seq<Tree>, m: nat)
    requires 2 * m < |ts| && forall i :: 0 <= i < |ts| ==> Single(ts[i])
    ensures Merged(ts, 2 * m) == MergeRight(PairUp(ts)[m..])
    decreases |ts| - m
  {
    PairUpAt(ts, m);
    if 2 * m + 2 < |ts| {
      MergedIs(ts, m + 1);
      assert PairUp(ts)[m..][1..] == PairUp(ts)[m + 1..];
    }
  }

  /** Trees without common nodes, by index. */
  ghost predicate Apart(ts: seq<Tree>) {
    && (forall i :: 0 <= i < |ts| ==> Single(ts[i]) && Distinct(ts[i]))
    && (forall i, j :: 0 <= i < j < |ts| ==> Nodes(ts[i]) !! Nodes(ts[j]))
  }

  ghost function Members(ts: seq<Tree>): set<Ptr> {
    set i, x | 0 <= i < |ts| && x in Nodes(ts[i]) :: x
  }

  lemma LinkNodes(a: Tree, b: Tree)
    requires Single(a) && Single(b)
    ensures Nodes(Link(a, b)) == Nodes(a) + Nodes(b)
    ensures Distinct(a) && Distinct(b) && Nodes(a) !! Nodes(b) ==> Distinct(Link(a, b))
  {
  }

  lemma PairedNodes(ts: seq<Tree>, j: nat)
    requires Apart(ts) && j < |ts|
    ensures Distinct(Paired(ts, j))
    ensures Nodes(Paired(ts, j)) == Nodes(ts[j]) + if j + 1 < |ts| then Nodes(ts[j + 1]) else {}
  {
    if j + 1 < |ts| { LinkNodes(ts[j], ts[j + 1]); }
  }

  ghost function MembersFrom(ts: seq<Tree>, j: nat): set<Ptr> {
    set i, x | j <= i < |ts| && x in Nodes(ts[i]) :: x
  }

  /** The merged tree holds nodes of the trees from `j` on. */
  lemma {:induction false} MergedNodes(ts: seq<Tree>, j: nat)
    requires Apart(ts) && j < |ts|
    ensures Distinct(Merged(ts, j)) && Nodes(Merged(ts, j)) <= MembersFrom(ts, j)
    decreases |ts| - j
  {
    PairedNodes(ts, j);
    if j + 2 < |ts| {
      MergedNodes(ts, j + 2);
      PairedBefore(ts, j, j + 2);
      LinkNodes(Paired(ts, j), Merged(ts, j + 2));
    }
  }

  lemma PairedBefore(ts: seq<Tree>, i: nat, j: nat)
    requires Apart(ts) && i + 1 < j <= |ts|
    ensures Nodes(Paired(ts, i)) !! MembersFrom(ts, j)
  {
    PairedNodes(ts, i);
  }

  lemma {:induction false} ForestApart(ts: seq<Tree>)
    requires Forest(ts)
    ensures Apart(ts) && Members(ts) == AllNodes(ts)
  {
    ForestSingles(ts);
    if ts != [] {
      var rest := ts[1..];
      ForestApart(rest);
      assert forall i :: 0 < i < |ts| ==> ts[i] == rest[i - 1];
      forall i, j | 0 <= i < j < |ts| ensures Nodes(ts[i]) !! Nodes(ts[j]) {
        assert Nodes(ts[j]) <= Members(rest) by { assert rest[j - 1] == ts[j]; }
        if i > 0 { assert rest[i - 1] == ts[i]; }
      }
      forall x | x in Members(rest) ensures x in Members(ts) {
        var i :| 0 <= i < |rest| && x in Nodes(rest[i]);
        assert ts[i + 1] == rest[i];
      }
    }
  }

  /** `rs[i]` is the sibling list from place `i` on and `ts[i]` the tree at that place. */
  ghost predicate Listing(ts: seq<Tree>, rs: seq<Tree>) {
    && |rs| == |ts| + 1 && rs[|ts|].Nil?
    && (forall i :: 0 <= i < |ts| ==>
          rs[i].Bin? && ts[i] == Bin(rs[i].n, rs[i].key, rs[i].left, Nil) && rs[i + 1] == rs[i].sib)
    && (forall i, k :: 0 <= k < i <= |ts| ==> Nodes(ts[k]) !! Nodes(rs[i]))
    && (forall i :: 0 <= i <= |ts| ==> Distinct(rs[i]) && Nodes(rs[i]) <= Nodes(rs[0]))
  }

  lemma {:induction false} ListingOf(t: Tree) returns (rs: seq<Tree>)
    requires Distinct(t)
    ensures Listing(Trees(t), rs) && rs[0] == t
  {
    if t.Nil? {
      rs := [Nil];
    } else {
      var us := ListingOf(t.sib);
      rs := [t] + us;
      ListingCons(t, Trees(t.sib), us, Trees(t), rs);
    }
  }

  ghost predicate Shifted(t: Tree, ts: seq<Tree>, ts': seq<Tree>) {
    |ts'| == |ts| + 1 && ts'[0] == t && forall i :: 0 < i < |ts'| ==> ts'[i] == ts[i - 1]
  }

  lemma RestCons(t: Tree, ts: seq<Tree>, rs: seq<Tree>, i: nat)
    requires t.Bin? && Distinct(t) && Listing(ts, rs) && rs[0] == t.sib && i <= |ts|
    ensures Distinct(rs[i]) && Nodes(rs[i]) <= Nodes(t.sib) <= Nodes(t)
  {
  }

  lemma BeforeCons(t: Tree, ts: seq<Tree>, rs: seq<Tree>, i: nat)
    requires t.Bin? && Distinct(t) && Listing(ts, rs) && rs[0] == t.sib && i <= |ts|
    ensures Nodes(Bin(t.n, t.key, t.left, Nil)) !! Nodes(rs[i])
  {
    RestCons(t, ts, rs, i);
    SingleParts(t.n, t.key, t.left);
  }

  lemma ListingCons(t: Tree, ts: seq<Tree>, rs: seq<Tree>, ts': seq<Tree>, rs': seq<Tree>)
    requires t.Bin? && Distinct(t) && Listing(ts, rs) && rs[0] == t.sib
    requires Shifted(Bin(t.n, t.key, t.left, Nil), ts, ts') && Shifted(t, rs, rs')
    ensures Listing(ts', rs')
  {
    forall i, k | 0 <= k < i <= |ts'| ensures Nodes(ts'[k]) !! Nodes(rs'[i]) {
      if k == 0 {
        BeforeCons(t, ts, rs, i - 1);
      } else {
        assert Nodes(ts[k - 1]) !! Nodes(rs[i - 1]);
      }
    }
    forall i | 0 <= i <= |ts'| ensures Distinct(rs'[i]) && Nodes(rs'[i]) <= Nodes(rs'[0]) {
      if i > 0 { RestCons(t, ts, rs, i - 1); }
    }
    forall i | 0 <= i < |ts'|
      ensures rs'[i].Bin? && ts'[i] == Bin(rs'[i].n, rs'[i].key, rs'[i].left, Nil) && rs'[i + 1] == rs'[i].sib
    {
      if i > 0 { assert rs[i - 1].Bin? && rs[i] == rs[i - 1].sib; }
    }
  }

  /** The walk of lines 94-99 has come to place `k`: every earlier tree but the last is cut off, the
      last still points on to `curr`, where the rest of the list starts. */
  ghost predicate Walk(m: Store, ts: seq<Tree>, rs: seq<Tree>, up: Ptr, k: nat, curr: Option<Ptr>)
    requires Listing(ts, rs)
  {
    && k <= |ts| && up in m && up !in Nodes(rs[0])
    && (forall i :: 0 <= i < k - 1 ==> Top(m, ts[i].n, ts[i]))
    && (k == 0 ==> Shape(m, curr, Some(up), rs[0]))
    && (k > 0 ==>
        var l := ts[k - 1];
        && l.n in m && m[l.n].element == l.key && m[l.n].nextSibling == curr
        && Shape(m, m[l.n].leftChild, Some(l.n), l.left) && Shape(m, curr, Some(l.n), rs[k]))
  }

  lemma WalkOn(m: Store, m': Store, ts: seq<Tree>, rs: seq<Tree>, up: Ptr, k: nat, curr: Ptr)
    requires Listing(ts, rs) && Apart(ts) && Walk(m, ts, rs, up, k, Some(curr))
    requires var last := if k == 0 then up else ts[k - 1].n; m' == m[last := m[last].(nextSibling := None)]
    ensures k < |ts| && curr == ts[k].n && curr in m'
    ensures m[curr].prev == Some(if k == 0 then up else ts[k - 1].n)
    ensures Walk(m', ts, rs, up, k + 1, m'[curr].nextSibling)
  {
    var r := rs[k];
    var last := if k == 0 then up else ts[k - 1].n;
    assert k < |ts| && r.Bin? && curr == r.n && rs[k + 1] == r.sib;
    assert last !in Nodes(r) by {
      if k > 0 { assert last in Nodes(ts[k - 1]); } else { assert last == up; }
    }
    ShapeFrame(m, m', m[curr].leftChild, Some(curr), r.left);
    ShapeFrame(m, m', m[curr].nextSibling, Some(curr), r.sib);
    if k > 0 {
      assert Distinct(ts[k - 1]);
      ShapeFrame(m, m', m[last].leftChild, Some(last), ts[k - 1].left);
      forall i | 0 <= i < k - 1 ensures Top(m', ts[i].n, ts[i]) {
        assert last in Nodes(ts[k - 1]);
        TopFrame(m, m', ts[i].n, ts[i]);
      }
    }
  }

  lemma WalkEnd(m: Store, ts: seq<Tree>, rs: seq<Tree>, up: Ptr, k: nat)
    requires Listing(ts, rs) && Apart(ts) && Walk(m, ts, rs, up, k, None)
    ensures k == |ts| && forall i :: 0 <= i < |ts| ==> Top(m, ts[i].n, ts[i])
  {
    assert rs[k].Nil?;
    if k > 0 { assert Single(ts[k - 1]); }
  }

  /** The keys that the nodes of a store hold. */
  ghost function Elements(m: Store): map<Ptr, int> { map x | x in m :: m[x].element }

  lemma SameNodes(m: Store, m': Store)
    requires Elements(m') == Elements(m)
    ensures m'.Keys == m.Keys && forall x :: x in m ==> m'[x].element == m[x].element
  {
    assert Elements(m).Keys == m.Keys && Elements(m').Keys == m'.Keys;
    forall x | x in m ensures m'[x].element == m[x].element { assert Elements(m)[x] == Elements(m')[x]; }
  }

  /** Outside the given trees the two stores agree. */
  ghost predicate OnlyTouches(m: Store, m': Store, a: Tree, b: Tree) {
    m'.Keys == m.Keys && forall x :: x in m && x !in Nodes(a) && x !in Nodes(b) ==> m'[x] == m[x]
  }

  /** The first pass has come to index `i`. */
  ghost predicate HalfPaired(m: Store, ts: seq<Tree>, i: nat)
    requires Apart(ts)
  {
    && (forall j :: 0 <= j < i && j < |ts| && j % 2 == 0 ==> Top(m, Paired(ts, j).n, Paired(ts, j)))
    && (forall j :: i <= j < |ts| ==> Top(m, ts[j].n, ts[j]))
  }

  lemma PairMore(m: Store, m': Store, ts: seq<Tree>, i: nat)
    requires Apart(ts) && HalfPaired(m, ts, i) && i % 2 == 0 && i + 1 < |ts|
    requires OnlyTouches(m, m', ts[i], ts[i + 1]) && Top(m', Paired(ts, i).n, Paired(ts, i))
    ensures HalfPaired(m', ts, i + 2)
  {
    forall j | 0 <= j < i && j % 2 == 0 ensures Top(m', Paired(ts, j).n, Paired(ts, j)) {
      PairedNodes(ts, j);
      TopFrame(m, m', Paired(ts, j).n, Paired(ts, j));
    }
    forall j | i + 2 <= j < |ts| ensures Top(m', ts[j].n, ts[j]) {
      TopFrame(m, m', ts[j].n, ts[j]);
    }
  }

  /** `ps[j]` and `ms[j]` are what an even index `j` holds before and after the second pass reaches it. */
  ghost predicate Plan(ps: seq<Tree>, ms: seq<Tree>) {
    && |ps| == |ms| > 1
    && (forall j :: 0 <= j < |ps| ==> Single(ps[j]) && Distinct(ps[j]))
    && (forall j :: 0 <= j < |ps| ==> Single(ms[j]) && Distinct(ms[j]))
    && (forall j :: 0 <= j < |ps| - 2 && j % 2 == 0 ==> ms[j] == Link(ps[j], ms[j + 2]))
    && (forall j :: |ps| - 2 <= j < |ps| && j % 2 == 0 ==> ms[j] == ps[j])
    && (forall i, j :: 0 <= i < j < |ps| && i % 2 == 0 && j % 2 == 0 ==> Nodes(ps[i]) !! Nodes(ps[j]))
    && (forall i, j :: 0 <= i < j < |ps| && i % 2 == 0 && j % 2 == 0 ==> Nodes(ps[i]) !! Nodes(ms[j]))
  }

  lemma PairedApart(ts: seq<Tree>, i: nat, j: nat)
    requires Apart(ts) && i % 2 == 0 && j % 2 == 0 && i < j < |ts|
    ensures Nodes(Paired(ts, i)) !! Nodes(Paired(ts, j))
  {
    PairedNodes(ts, i);
    PairedNodes(ts, j);
  }

  lemma MergedApart(ts: seq<Tree>, i: nat, j: nat)
    requires Apart(ts) && i % 2 == 0 && j % 2 == 0 && i < j < |ts|
    ensures Nodes(Paired(ts, i)) !! Nodes(Merged(ts, j))
  {
    var p, s, f := Nodes(Paired(ts, i)), Nodes(Merged(ts, j)), MembersFrom(ts, j);
    assert p !! f by { PairedBefore(ts, i, j); }
    assert s <= f by { MergedNodes(ts, j); }
  }

  lemma PlanOf(ts: seq<Tree>) returns (ps: seq<Tree>, ms: seq<Tree>)
    requires Apart(ts) && |ts| > 1
    ensures Plan(ps, ms) && |ps| == |ts|
    ensures forall j :: 0 <= j < |ts| ==> ps[j] == Paired(ts, j)
    ensures ms[0] == Merged(ts, 0)
  {
    ps := seq(|ts|, j requires 0 <= j < |ts| => Paired(ts, j));
    ms := seq(|ts|, j requires 0 <= j < |ts| => Merged(ts, j));
    forall j | 0 <= j < |ts| ensures Distinct(ps[j]) && Distinct(ms[j]) {
      PairedNodes(ts, j);
      MergedNodes(ts, j);
    }
    forall i, j | 0 <= i < j < |ts| && i % 2 == 0 && j % 2 == 0
      ensures Nodes(ps[i]) !! Nodes(ps[j]) && Nodes(ps[i]) !! Nodes(ms[j])
    {
      PairedApart(ts, i, j);
      MergedApart(ts, i, j);
    }
  }

  /** The second pass has come down to index `j`. */
  ghost predicate HalfMerged(m: Store, ps: seq<Tree>, ms: seq<Tree>, j: nat)
    requires Plan(ps, ms)
  {
    && j < |ps| && Top(m, ms[j].n, ms[j])
    && (forall i :: 0 <= i < j && i % 2 == 0 ==> Top(m, ps[i].n, ps[i]))
  }

  lemma MergeMore(m: Store, m': Store, ps: seq<Tree>, ms: seq<Tree>, j: nat)
    requires Plan(ps, ms) && j % 2 == 0 && j + 2 < |ps| && HalfMerged(m, ps, ms, j + 2)
    requires OnlyTouches(m, m', ps[j], ms[j + 2]) && Top(m', ms[j].n, ms[j])
    ensures HalfMerged(m', ps, ms, j)
  {
    forall i | 0 <= i < j && i % 2 == 0 ensures Top(m', ps[i].n, ps[i]) {
      assert Nodes(ps[i]) !! Nodes(ps[j]) && Nodes(ps[i]) !! Nodes(ms[j + 2]);
      TopFrame(m, m', ps[i].n, ps[i]);
    }
  }

  /** After the first pass the last even index starts the second. */
  lemma PassesMeet(m: Store, ts: seq<Tree>, ps: seq<Tree>, ms: seq<Tree>, i: nat)
    requires Apart(ts) && |ts| >= 2 && i % 2 == 0 && i <= |ts| <= i + 1 && HalfPaired(m, ts, i)
    requires Plan(ps, ms) && |ps| == |ts| && forall j :: 0 <= j < |ts| ==> ps[j] == Paired(ts, j)
    ensures HalfMerged(m, ps, ms, if i < |ts| then i else i - 2)
  {
  }

  // ---------------------------------------------------------------- taking a subtree out

  /** The subtree rooted at `p`, with the siblings after it. */
  ghost function Sub(t: Tree, p: Ptr): (s: Tree)
    requires p in Nodes(t)
    ensures s.Bin? && s.n == p
  {
    if t.n == p then t else if p in Nodes(t.left) then Sub(t.left, p) else Sub(t.sib, p)
  }

  /** The tree after `p` and its children are taken out; the siblings after `p` move up. */
  ghost function Without(t: Tree, p: Ptr): Tree {
    if t.Nil? then Nil else if t.n == p then t.sib else Bin(t.n, t.key, Without(t.left, p), Without(t.sib, p))
  }

  lemma {:induction false} WithoutSame(t: Tree, p: Ptr)
    requires p !in Nodes(t)
    ensures Without(t, p) == t
  {
    if t.Bin? {
      WithoutSame(t.left, p);
      WithoutSame(t.sib, p);
    }
  }

  lemma {:induction false} WithoutNodes(t: Tree, p: Ptr)
    requires Distinct(t) && p in Nodes(t)
    ensures var s, w := Sub(t, p), Without(t, p);
      && Distinct(w) && Distinct(s) && Nodes(w) !! Nodes(s.left) && p !in Nodes(w)
      && Nodes(t) == Nodes(w) + {p} + Nodes(s.left)
  {
    if t.n == p {
    } else if p in Nodes(t.left) {
      WithoutNodes(t.left, p);
      WithoutSame(t.sib, p);
    } else {
      WithoutNodes(t.sib, p);
      WithoutSame(t.left, p);
    }
  }

  lemma {:induction false} WithoutKeys(t: Tree, p: Ptr)
    requires Distinct(t) && p in Nodes(t)
    ensures Keys(t) == Keys(Without(t, p)) + multiset{Sub(t, p).key} + Keys(Sub(t, p).left)
  {
    var k, x, s := multiset{t.key}, multiset{Sub(t, p).key}, Keys(Sub(t, p).left);
    if t.n == p {
    } else if p in Nodes(t.left) {
      WithoutKeys(t.left, p);
      WithoutSame(t.sib, p);
      SumMoved(k, Keys(t.left), Keys(t.sib), Keys(Without(t.left, p)), x, s);
    } else {
      WithoutKeys(t.sib, p);
      WithoutSame(t.left, p);
      SumMoved(k, Keys(t.sib), Keys(t.left), Keys(Without(t.sib, p)), x, s);
    }
  }

  lemma SumMoved(k: multiset<int>, a: multiset<int>, b: multiset<int>, w: multiset<int>, x: multiset<int>,
                 s: multiset<int>)
    requires a == w + x + s
    ensures k + a + b == k + w + b + x + s && k + b + a == k + b + w + x + s
  {
  }

  lemma {:induction false} WithoutOrdered(t: Tree, lo: int, p: Ptr)
    requires Ordered(t, lo) && p in Nodes(t)
    ensures Ordered(Without(t, p), lo) && lo <= Sub(t, p).key && Ordered(Sub(t, p).left, Sub(t, p).key)
  {
    if t.n != p {
      if p in Nodes(t.left) { WithoutOrdered(t.left, t.key, p); } else { WithoutSame(t.left, p); }
      if p in Nodes(t.sib) { WithoutOrdered(t.sib, lo, p); } else { WithoutSame(t.sib, p); }
    }
  }

  lemma {:induction false} OrderedWeaken(t: Tree, lo: int, lo': int)
    requires Ordered(t, lo) && lo' <= lo
    ensures Ordered(t, lo')
  {
    if t.Bin? { OrderedWeaken(t.sib, lo, lo'); }
  }

  /** Where `p`'s own pointers lead: `prev` to the node above it, the others into its subtree. */
  lemma {:induction false} Located(m: Store, q: Option<Ptr>, up: Option<Ptr>, t: Tree, p: Ptr)
    requires Shape(m, q, up, t) && Distinct(t) && p in Nodes(t) && (up.Some? ==> up.value !in Nodes(t))
    ensures p in m && m[p].element == Sub(t, p).key
    ensures if t.n == p then m[p].prev == up
      else m[p].prev.Some? && m[p].prev.value in Nodes(t) && m[p].prev.value in m && m[p].prev.value != p
    ensures t.n != p ==> m[p].prev.value in Nodes(Without(t, p))
    ensures m[p].nextSibling.Some? ==>
      m[p].nextSibling.value in Nodes(t) && m[p].nextSibling.value in m && m[p].nextSibling.value != p
    ensures m[p].nextSibling.Some? ==>
      m[p].nextSibling.value in Nodes(Without(t, p)) && Some(m[p].nextSibling.value) != m[p].prev
    ensures Shape(m, m[p].leftChild, Some(p), Sub(t, p).left) && Shape(m, m[p].nextSibling, Some(p), Sub(t, p).sib)
    decreases t
  {
    if t.n == p {
    } else if p in Nodes(t.left) {
      Located(m, m[t.n].leftChild, Some(t.n), t.left, p);
    } else {
      Located(m, m[t.n].nextSibling, Some(t.n), t.sib, p);
    }
  }

  /** The pointer writes of lines 133-138, as far as nodes other than `p` are concerned. */
  ghost predicate Unhooked(m: Store, m': Store, p: Ptr) {
    && p in m && m'.Keys == m.Keys && m[p].prev.Some?
    && var par, c := m[p].prev.value, m[p].nextSibling;
    && par in m && par != p && (c.Some? ==> c.value in m && c.value != p && c.value != par)
    && m'[par] == (if m[par].leftChild == Some(p) then m[par].(leftChild := c) else m[par].(nextSibling := c))
    && (c.Some? ==> m'[c.value] == m[c.value].(prev := Some(par)))
    && (forall x :: x in m && x != p && x != par && c != Some(x) ==> m'[x] == m[x])
  }

  /** Those writes take `p` out of the structure and leave everything else in place. */
  lemma {:induction false} UnhookShape(m: Store, m': Store, q: Option<Ptr>, up: Option<Ptr>, t: Tree, p: Ptr)
    requires Shape(m, q, up, t) && Distinct(t) && p in Nodes(t) && Unhooked(m, m', p)
    requires up.Some? ==> up.value !in Nodes(t)
    ensures Shape(m', if t.n == p then m[p].nextSibling else q, up, Without(t, p))
    decreases t
  {
    Located(m, q, up, t, p);
    if t.n == p {
      ShapeRehung(m, m', m[p].nextSibling, Some(p), up, t.sib);
    } else if p in Nodes(t.left) {
      Located(m, m[t.n].leftChild, Some(t.n), t.left, p);
      UnhookShape(m, m', m[t.n].leftChild, Some(t.n), t.left, p);
      WithoutSame(t.sib, p);
      ShapeFrame(m, m', m[t.n].nextSibling, Some(t.n), t.sib);
    } else {
      Located(m, m[t.n].nextSibling, Some(t.n), t.sib, p);
      UnhookShape(m, m', m[t.n].nextSibling, Some(t.n), t.sib, p);
      WithoutSame(t.left, p);
      ShapeFrame(m, m', m[t.n].leftChild, Some(t.n), t.left);
    }
  }

  /** Lines 131-140 leave two trees: the old one without `p`'s subtree, and that subtree with its new key. */
  lemma DecreasedShape(m: Store, m': Store, t: Tree, p: Ptr, newVal: int)
    requires Heap(t) && Top(m, t.n, t) && p in Nodes(t.left) && Unhooked(m, m', p)
    requires m'[p] == m[p].(element := newVal, nextSibling := None)
    ensures Top(m', t.n, Bin(t.n, t.key, Without(t.left, p), Nil))
    ensures Top(m', p, Bin(p, newVal, Sub(t.left, p).left, Nil))
  {
    Located(m, m[t.n].leftChild, Some(t.n), t.left, p);
    WithoutNodes(t.left, p);
    UnhookShape(m, m', m[t.n].leftChild, Some(t.n), t.left, p);
    ShapeFrame(m, m', m[p].leftChild, Some(p), Sub(t.left, p).left);
  }

  lemma SingleParts(n: Ptr, key: int, left: Tree)
    ensures Keys(Bin(n, key, left, Nil)) == multiset{key} + Keys(left)
    ensures Nodes(Bin(n, key, left, Nil)) == {n} + Nodes(left)
  {
  }

  /** A heap split into a root with `w` below it and another with `s` below it. */
  lemma TwoHeaps(n: Ptr, key: int, l: Tree, w: Tree, p: Ptr, v: int, s: Tree)
    requires n !in Nodes(l) && Nodes(l) == Nodes(w) + {p} + Nodes(s) && Nodes(w) !! Nodes(s) && p !in Nodes(w)
    requires p !in Nodes(s)
    requires Distinct(w) && Distinct(s) && Ordered(w, key) && Ordered(s, v)
    ensures var a, b := Bin(n, key, w, Nil), Bin(p, v, s, Nil);
      Heap(a) && Heap(b) && Nodes(a) !! Nodes(b) && {n} + Nodes(l) == Nodes(a) + Nodes(b)
  {
    assert Heap(Bin(n, key, w, Nil)) && Nodes(Bin(n, key, w, Nil)) == {n} + Nodes(w) by { SingleParts(n, key, w); }
    assert Heap(Bin(p, v, s, Nil)) && Nodes(Bin(p, v, s, Nil)) == {p} + Nodes(s) by { SingleParts(p, v, s); }
  }

  lemma DecreasedHeap(t: Tree, p: Ptr, newVal: int)
    requires Heap(t) && p in Nodes(t.left) && newVal <= Sub(t.left, p).key
    ensures var a, b := Bin(t.n, t.key, Without(t.left, p), Nil), Bin(p, newVal, Sub(t.left, p).left, Nil);
      Heap(a) && Heap(b) && Nodes(a) !! Nodes(b) && {t.n} + Nodes(t.left) == Nodes(a) + Nodes(b)
  {
    WithoutNodes(t.left, p);
    WithoutOrdered(t.left, t.key, p);
    OrderedWeaken(Sub(t.left, p).left, Sub(t.left, p).key, newVal);
    TwoHeaps(t.n, t.key, t.left, Without(t.left, p), p, newVal, Sub(t.left, p).left);
  }

  lemma DecreasedKeys(t: Tree, p: Ptr, newVal: int)
    requires Heap(t) && p in Nodes(t.left)
    ensures Keys(Bin(t.n, t.key, Without(t.left, p), Nil)) + Keys(Bin(p, newVal, Sub(t.left, p).left, Nil))
      == Keys(t) - multiset{Sub(t.left, p).key} + multiset{newVal}
  {
    WithoutKeys(t.left, p);
    SingleParts(t.n, t.key, t.left);
    SingleParts(t.n, t.key, Without(t.left, p));
    SingleParts(p, newVal, Sub(t.left, p).left);
  }

  lemma DecreasedRoot(m: Store, m': Store, p: Ptr, t: Tree, newVal: int) returns (b: Tree)
    requires Heap(t) && Top(m, p, t) && newVal <= t.key && m' == m[p := m[p].(element := newVal)]
    ensures b.Bin? && Top(m', p, b) && Heap(b) && Nodes(b) == Nodes(t)
    ensures Keys(b) == Keys(t) - multiset{t.key} + multiset{newVal}
  {
    ShapeFrame(m, m', m[p].leftChild, Some(p), t.left);
    OrderedWeaken(t.left, t.key, newVal);
    b := Bin(p, newVal, t.left, Nil);
  }

  // ---------------------------------------------------------------- which node holds which key

  ghost function Restrict(e: map<Ptr, int>, s: set<Ptr>): map<Ptr, int> { map x | x in e && x in s :: e[x] }

  lemma RestrictSet(e: map<Ptr, int>, s: set<Ptr>, p: Ptr, v: int)
    ensures Restrict(e[p := v], s + {p}) == Restrict(e, s)[p := v]
  {
  }

  lemma RestrictDrop(e: map<Ptr, int>, s: set<Ptr>, p: Ptr)
    ensures Restrict(e, s - {p}) == Restrict(e, s) - {p}
  {
  }

  lemma Written(m: Store, p: Ptr, node: PairNode)
    ensures Elements(m[p := node]) == Elements(m)[p := node.element]
  {
  }

  /** Every node of a structure is allocated, and holds a key of the structure. */
  lemma {:induction false} ShapeKeys(m: Store, p: Option<Ptr>, up: Option<Ptr>, t: Tree)
    requires Shape(m, p, up, t)
    ensures forall x :: x in Nodes(t) ==> x in m && m[x].element in Keys(t)
    decreases t
  {
    if t.Bin? {
      ShapeKeys(m, m[t.n].leftChild, Some(t.n), t.left);
      ShapeKeys(m, m[t.n].nextSibling, Some(t.n), t.sib);
    }
  }

  lemma TopKeys(m: Store, p: Ptr, t: Tree)
    requires Top(m, p, t)
    ensures forall x :: x in Nodes(t) ==> x in m && m[x].element in Keys(t)
  {
    ShapeKeys(m, m[p].leftChild, Some(p), t.left);
    ShapeKeys(m, m[p].nextSibling, Some(p), t.sib);
  }

  lemma ElementsAt(m: Store)
    ensures Elements(m).Keys == m.Keys && forall x :: x in m ==> Elements(m)[x] == m[x].element
  {
  }

  /** The root of a heap holds the least key. */
  lemma LeastAtRoot(m: Store, p: Ptr, t: Tree)
    requires Top(m, p, t) && Heap(t)
    ensures Least(Restrict(Elements(m), Nodes(t)), p, m[p].element)
  {
    var held := Restrict(Elements(m), Nodes(t));
    TopKeys(m, p, t);
    OrderedBound(t.left, t.key);
    SingleParts(t.n, t.key, t.left);
    forall x | x in held ensures t.key <= held[x] {
      assert held[x] == m[x].element && m[x].element in Keys(t);
    }
  }

  /** A heap has no nodes exactly when it has no keys. */
  lemma EmptyTogether(m: Store, p: Option<Ptr>, t: Tree)
    requires if p.Some? then Top(m, p.value, t) else t.Nil?
    ensures p.None? <==> Restrict(Elements(m), Nodes(t)) == map[]
    ensures p.None? <==> Keys(t) == multiset{}
  {
    var held := Restrict(Elements(m), Nodes(t));
    if p.Some? {
      assert p.value in held;
      assert t.key in Keys(t);
    } else {
      assert Nodes(t) == {};
      assert held == map[];
    }
  }

  /** The nodes that hold `k`. */
  ghost function With(t: Tree, k: int): set<Ptr> {
    if t.Nil? then {} else (if t.key == k then {t.n} else {}) + With(t.left, k) + With(t.sib, k)
  }

  lemma {:induction false} WithCount(t: Tree, k: int)
    requires Distinct(t)
    ensures With(t, k) <= Nodes(t) && |With(t, k)| == Keys(t)[k]
  {
    if t.Bin? {
      WithCount(t.left, k);
      WithCount(t.sib, k);
      var here := if t.key == k then {t.n} else {};
      assert |here + With(t.left, k)| == |here| + |With(t.left, k)|;
      assert |here + With(t.left, k) + With(t.sib, k)| == |here + With(t.left, k)| + |With(t.sib, k)|;
    }
  }

  lemma {:induction false} WithShape(m: Store, p: Option<Ptr>, up: Option<Ptr>, t: Tree, k: int)
    requires Shape(m, p, up, t) && Distinct(t)
    ensures forall x :: x in With(t, k) <==> x in Nodes(t) && x in m && m[x].element == k
    decreases t
  {
    if t.Bin? {
      WithShape(m, m[t.n].leftChild, Some(t.n), t.left, k);
      WithShape(m, m[t.n].nextSibling, Some(t.n), t.sib, k);
      WithCount(t.left, k);
      WithCount(t.sib, k);
    }
  }

  lemma WithTop(m: Store, p: Ptr, t: Tree, k: int)
    requires Top(m, p, t) && Heap(t)
    ensures forall x :: x in With(t, k) <==> x in Nodes(t) && x in m && m[x].element == k
  {
    WithShape(m, m[p].leftChild, Some(p), t.left, k);
    WithCount(t.left, k);
  }

  /** The keys of a tree, with their multiplicities, are the keys that its nodes hold. */
  lemma HeldKeys(m: Store, p: Ptr, t: Tree, k: int)
    requires Top(m, p, t) && Heap(t)
    ensures Keys(t)[k] == |Holding(Restrict(Elements(m), Nodes(t)), k)|
  {
    WithCount(t, k);
    WithTop(m, p, t, k);
    SameHolders(m, Nodes(t), With(t, k), k);
  }

  ghost function Holding(held: map<Ptr, int>, k: int): set<Ptr> { set x | x in held && held[x] == k }

  lemma SameHolders(m: Store, s: set<Ptr>, w: set<Ptr>, k: int)
    requires forall x :: x in w <==> x in s && x in m && m[x].element == k
    ensures w == Holding(Restrict(Elements(m), s), k)
  {
  }

  /** What the heap stands for: the keys by node, and the keys alone. */
  datatype Queue = Queue(held: map<Ptr, int>, keys: multiset<int>)

  /** Operations with the address that `new` returns, and the node whose key goes down. */
  datatype HeapOp = Insert(v: int, addr: Ptr) | DeleteMin | Decrease(p: Ptr, v: int)

  /** Node `r` holds `a`, and no node holds less. */
  ghost predicate Least(held: map<Ptr, int>, r: Ptr, a: int) {
    r in held && held[r] == a && forall x :: x in held ==> a <= held[x]
  }

  ghost predicate MinLeaves(held: map<Ptr, int>, held': map<Ptr, int>, a: int) {
    exists r :: Least(held, r, a) && held' == held - {r}
  }

  /** The sequential priority queue with handles. A node that is not in the queue has no key to decrease. */
  ghost predicate QueueStep(q: Queue, op: HeapOp, q': Queue, a: int) {
    match op
    case Insert(v, addr) => q' == Queue(q.held[addr := v], q.keys + multiset{v}) && a == 0
    case DeleteMin =>
      && (q'.keys, a) == PQ.Apply(q.keys, Slots.Remove)
      && (q.held == map[] <==> q.keys == multiset{})
      && if q.held == map[] then q' == q else MinLeaves(q.held, q'.held, a)
    case Decrease(p, v) =>
      && a == 0
      && q' == if p in q.held && v <= q.held[p]
               then Queue(q.held[p := v], q.keys - multiset{q.held[p]} + multiset{v}) else q
  }

  /** The states and answers of the queue while the operations are carried out one after the other. */
  ghost predicate Follows(states: seq<Queue>, ops: seq<HeapOp>, answers: seq<int>) {
    && |answers| <= |ops| && |states| == |answers| + 1
    && forall i :: 0 <= i < |answers| ==> StepAt(states, ops, answers, i)
  }

  ghost predicate StepAt(states: seq<Queue>, ops: seq<HeapOp>, answers: seq<int>, i: nat) {
    && i < |ops| && i < |answers| && i + 1 < |states|
    && QueueStep(states[i], ops[i], states[i + 1], answers[i])
  }

  lemma FollowsMore(states: seq<Queue>, ops: seq<HeapOp>, answers: seq<int>, q: Queue, a: int)
    requires Follows(states, ops, answers) && |answers| < |ops| && QueueStep(states[|answers|], ops[|answers|], q, a)
    ensures Follows(states + [q], ops, answers + [a])
  {
    var states', answers' := states + [q], answers + [a];
    forall i | 0 <= i < |answers'| ensures StepAt(states', ops, answers', i) {
      if i < |answers| { assert StepAt(states, ops, answers, i); }
    }
  }

  function Plain(op: HeapOp): Slots.Op { if op.Insert? then Slots.Add(op.v) else Slots.Remove }

  lemma PlainStep(q: Queue, op: HeapOp, q': Queue, a: int)
    requires QueueStep(q, op, q', a) && !op.Decrease?
    ensures (q'.keys, a) == PQ.Apply(q.keys, Plain(op))
  {
  }

  /** Without decreased keys the answers are those of the queue of bare keys. */
  lemma {:induction false} PlainAnswers(states: seq<Queue>, ops: seq<HeapOp>, answers: seq<int>, plain: seq<Slots.Op>)
    requires Follows(states, ops, answers) && |answers| == |ops| == |plain|
    requires forall i :: 0 <= i < |ops| ==> !ops[i].Decrease? && plain[i] == Plain(ops[i])
    ensures PQ.RunOps(states[0].keys, plain) == (states[|ops|].keys, answers)
  {
    var ks := seq(|states|, i requires 0 <= i < |states| => states[i].keys);
    forall i | 0 <= i < |ops| ensures PQ.AppliedAt(ks, plain, answers, i) {
      assert StepAt(states, ops, answers, i);
      PlainStep(states[i], ops[i], states[i + 1], answers[i]);
    }
    assert plain[..|ops|] == plain && answers[..|ops|] == answers;
    PQ.RunByStep(ks, plain, answers, |ops|, plain, answers);
  }

  lemma MinLeft(q: Queue, p: Option<Ptr>, q': Queue, a: int)
    requires (p.None? <==> q.held == map[]) && (p.None? <==> q.keys == multiset{})
    requires (q'.keys, a) == PQ.Apply(q.keys, Slots.Remove)
    requires q'.held == if p.None? then map[] else q.held - {p.value}
    requires p.Some? ==> Least(q.held, p.value, a)
    ensures QueueStep(q, DeleteMin, q', a)
  {
  }

  /** What `new` returns is not in use, and never the same twice. */
  ghost predicate NewAddresses(ops: seq<HeapOp>, used: set<Ptr>) {
    && (forall i :: 0 <= i < |ops| && ops[i].Insert? ==> ops[i].addr !in used)
    && (forall i, j :: 0 <= i < j < |ops| && ops[i].Insert? && ops[j].Insert? ==> ops[i].addr != ops[j].addr)
  }

  // ---------------------------------------------------------------- the heap object

  class PairHeap {
    var mem: Store
    var root: Option<Ptr>
    var treeArray: array<Option<Ptr>>
    var treeArySize: int
    ghost var tree: Tree

    ghost predicate ArrayOk()
      reads this
    {
      0 < treeArySize == treeArray.Length
    }

    ghost predicate Valid()
      reads this
    {
      && ArrayOk()
      && (root == None <==> tree.Nil?)
      && (root.Some? ==> Top(mem, root.value, tree) && Heap(tree))
    }

    constructor ()
      ensures Valid() && tree == Nil && mem == map[] && fresh(treeArray)
    {
      mem := map[];
      root := None;
      treeArySize := 5;
      treeArray := new Option<Ptr>[5](i => None);
      tree := Nil;
    }

    /** New pointers for a node that keeps its key. */
    method Relink(p: Ptr, node: PairNode)
      requires p in mem && node.element == mem[p].element
      modifies this`mem
      ensures mem == old(mem)[p := node] && Elements(mem) == old(Elements(mem))
    {
      mem := mem[p := node];
    }

    /** Lines 57-63: `second` has the smaller key. */
    method LinkBelowSecond(first: Ptr, second: Ptr, ghost a: Tree, ghost b: Tree)
      requires Top(mem, first, a) && Single(a) && Distinct(a) && Top(mem, second, b) && Distinct(b)
      requires Nodes(a) !! Nodes(b) && b.key < a.key
      modifies this`mem
      ensures Top(mem, second, Link(a, b))
      ensures OnlyTouches(old(mem), mem, a, b) && Elements(mem) == old(Elements(mem))
    {
      Relink(second, mem[second].(prev := mem[first].prev));
      Relink(first, mem[first].(prev := Some(second)));
      Relink(first, mem[first].(nextSibling := mem[second].leftChild));
      if mem[first].nextSibling.Some? {
        var c := mem[first].nextSibling.value;
        Relink(c, mem[c].(prev := Some(first)));
      }
      Relink(second, mem[second].(leftChild := Some(first)));
      LinkedBelowSecond(old(mem), mem, a, b);
    }

    /** Lines 65-73: `first` stays on top. */
    method LinkBelowFirst(first: Ptr, second: Ptr, ghost a: Tree, ghost b: Tree)
      requires Top(mem, first, a) && Single(a) && Distinct(a) && Top(mem, second, b) && Distinct(b)
      requires Nodes(a) !! Nodes(b) && a.key <= b.key
      modifies this`mem
      ensures Top(mem, first, Link(a, b))
      ensures OnlyTouches(old(mem), mem, a, b) && Elements(mem) == old(Elements(mem))
    {
      Relink(second, mem[second].(prev := Some(first)));
      Relink(first, mem[first].(nextSibling := mem[second].nextSibling));
      if mem[first].nextSibling.Some? {
        var c := mem[first].nextSibling.value;
        Relink(c, mem[c].(prev := Some(first)));
      }
      Relink(second, mem[second].(nextSibling := mem[first].leftChild));
      if mem[second].nextSibling.Some? {
        var c := mem[second].nextSibling.value;
        Relink(c, mem[c].(prev := Some(second)));
      }
      Relink(first, mem[first].(leftChild := Some(second)));
      LinkedBelowFirst(old(mem), mem, a, b);
    }

    /** Only the nodes of the two trees are written. */
    method CompareAndLink(first: Ptr, second: Option<Ptr>, ghost a: Tree, ghost b: Tree) returns (r: Ptr)
      requires Top(mem, first, a) && Single(a) && Distinct(a)
      requires second.Some? ==> Top(mem, second.value, b) && Distinct(b) && Nodes(a) !! Nodes(b)
      modifies this`mem
      ensures second.None? ==> r == first && mem == old(mem)
      ensures second.Some? ==> Top(mem, r, Link(a, b))
      ensures Elements(mem) == old(Elements(mem)) && (second.Some? ==> OnlyTouches(old(mem), mem, a, b))
    {
      if second.None? { return first; }
      if mem[second.value].element < mem[first].element {
        LinkBelowSecond(first, second.value, a, b);
        r := second.value;
      } else {
        LinkBelowFirst(first, second.value, a, b);
        r := first;
      }
    }

    method DoubleIfFull(inAry: array<Option<Ptr>>, index: int) returns (r: array<Option<Ptr>>)
      requires 0 < treeArySize == inAry.Length && 0 <= index <= treeArySize
      modifies this`treeArySize
      ensures index < treeArySize == r.Length && treeArySize >= old(treeArySize)
      ensures r == inAry || fresh(r)
      ensures forall i :: 0 <= i < index ==> r[i] == inAry[i]
    {
      r := inAry;
      if index == treeArySize {
        treeArySize := 2 * index;
        r := new Option<Ptr>[2 * index](i => None);
        for i := 0 to index
          invariant forall k :: 0 <= k < i ==> r[k] == inAry[k]
          invariant fresh(r) && treeArySize == r.Length == 2 * index
        {
          r[i] := inAry[i];
        }
      }
    }

    /** Lines 95-96: room is made first, so the store is in bounds. */
    method StoreAt(index: int, p: Option<Ptr>)
      requires ArrayOk() && 0 <= index <= treeArySize
      modifies this`treeArray, this`treeArySize, treeArray
      ensures ArrayOk() && index < treeArySize && treeArray[index] == p
      ensures treeArray == old(treeArray) || fresh(treeArray)
      ensures forall i :: 0 <= i < index ==> treeArray[i] == old(treeArray[i])
    {
      treeArray := DoubleIfFull(treeArray, index);
      treeArray[index] := p;
    }

    /** Lines 97-98. */
    method CutOne(curr: Ptr, ghost up: Ptr, ghost ts: seq<Tree>, ghost rs: seq<Tree>, ghost k: nat)
      returns (next: Option<Ptr>)
      requires Listing(ts, rs) && Apart(ts) && Walk(mem, ts, rs, up, k, Some(curr))
      modifies this`mem
      ensures k < |ts| && curr == ts[k].n && Walk(mem, ts, rs, up, k + 1, next) && Elements(mem) == old(Elements(mem))
    {
      ghost var last := if k == 0 then up else ts[k - 1].n;
      WalkOn(mem, mem[last := mem[last].(nextSibling := None)], ts, rs, up, k, curr);
      var prev := mem[curr].prev.value;
      Relink(prev, mem[prev].(nextSibling := None));
      next := mem[curr].nextSibling;
    }

    /** Lines 93-102: the siblings into the array, each cut off from the next. */
    method Collect(firstSibling: Ptr, ghost up: Ptr, ghost ts: seq<Tree>, ghost rs: seq<Tree>)
      returns (numSiblings: int)
      requires ArrayOk() && Listing(ts, rs) && Apart(ts) && Walk(mem, ts, rs, up, 0, Some(firstSibling))
      modifies this`mem, this`treeArray, this`treeArySize, treeArray
      ensures ArrayOk() && numSiblings == |ts| < treeArray.Length
      ensures treeArray == old(treeArray) || fresh(treeArray)
      ensures forall i :: 0 <= i < |ts| ==> treeArray[i] == Some(ts[i].n) && Top(mem, ts[i].n, ts[i])
      ensures Elements(mem) == old(Elements(mem))
    {
      var curr := Some(firstSibling);
      numSiblings := 0;
      while curr.Some?
        invariant ArrayOk() && (treeArray == old(treeArray) || fresh(treeArray)) && Elements(mem) == old(Elements(mem))
        invariant 0 <= numSiblings <= treeArray.Length && numSiblings <= |ts|
        invariant Walk(mem, ts, rs, up, numSiblings, curr)
        invariant forall i :: 0 <= i < numSiblings ==> treeArray[i] == Some(ts[i].n)
        decreases |ts| - numSiblings
      {
        StoreAt(numSiblings, curr);
        curr := CutOne(curr.value, up, ts, rs, numSiblings);
        numSiblings := numSiblings + 1;
      }
      WalkEnd(mem, ts, rs, up, numSiblings);
      StoreAt(numSiblings, None);
    }

    /** Line 106: one link of the first pass. */
    method PairOne(i: int, ghost ts: seq<Tree>)
      requires Apart(ts) && 0 <= i && i % 2 == 0 && i + 1 < |ts| < treeArray.Length && HalfPaired(mem, ts, i)
      requires treeArray[i] == Some(ts[i].n) && treeArray[i + 1] == Some(ts[i + 1].n)
      modifies this`mem, treeArray
      ensures HalfPaired(mem, ts, i + 2) && Elements(mem) == old(Elements(mem))
      ensures treeArray[i] == Some(Paired(ts, i).n)
      ensures forall k :: 0 <= k < treeArray.Length && k != i ==> treeArray[k] == old(treeArray[k])
    {
      assert Top(mem, ts[i].n, ts[i]) && Top(mem, ts[i + 1].n, ts[i + 1]);
      var r := CompareAndLink(treeArray[i].value, treeArray[i + 1], ts[i], ts[i + 1]);
      treeArray[i] := Some(r);
      PairMore(old(mem), mem, ts, i);
    }

    /** Lines 104-107: link neighbours left to right. */
    method PairPass(numSiblings: int, ghost ts: seq<Tree>) returns (i: int)
      requires ArrayOk() && Apart(ts) && 2 <= numSiblings == |ts| < treeArray.Length && HalfPaired(mem, ts, 0)
      requires forall j :: 0 <= j < |ts| ==> treeArray[j] == Some(ts[j].n)
      modifies this`mem, treeArray
      ensures i % 2 == 0 && i <= numSiblings <= i + 1 && HalfPaired(mem, ts, i) && Elements(mem) == old(Elements(mem))
      ensures forall j :: 0 <= j < |ts| && j % 2 == 0 ==> treeArray[j] == Some(Paired(ts, j).n)
    {
      i := 0;
      while i + 1 < numSiblings
        invariant 0 <= i <= numSiblings && i % 2 == 0 && HalfPaired(mem, ts, i) && Elements(mem) == old(Elements(mem))
        invariant forall j :: 0 <= j < i && j % 2 == 0 ==> treeArray[j] == Some(Paired(ts, j).n)
        invariant forall j :: i <= j < |ts| ==> treeArray[j] == Some(ts[j].n)
      {
        PairOne(i, ts);
        i := i + 2;
      }
    }

    /** Lines 111 and 115: one link of the second pass. */
    method MergeOne(j: int, ghost ps: seq<Tree>, ghost ms: seq<Tree>)
      requires Plan(ps, ms) && 0 <= j && j % 2 == 0 && j + 2 < |ps| < treeArray.Length && HalfMerged(mem, ps, ms, j + 2)
      requires treeArray[j] == Some(ps[j].n) && treeArray[j + 2] == Some(ms[j + 2].n)
      modifies this`mem, treeArray
      ensures HalfMerged(mem, ps, ms, j) && Elements(mem) == old(Elements(mem))
      ensures treeArray[j] == Some(ms[j].n) && forall k :: 0 <= k < j ==> treeArray[k] == old(treeArray[k])
    {
      var r := CompareAndLink(treeArray[j].value, treeArray[j + 2], ps[j], ms[j + 2]);
      treeArray[j] := Some(r);
      MergeMore(old(mem), mem, ps, ms, j);
    }

    /** Lines 109-118: link right to left, an odd tree at the end first. */
    method MergePass(i: int, numSiblings: int, ghost ps: seq<Tree>, ghost ms: seq<Tree>) returns (r: Ptr)
      requires Plan(ps, ms) && numSiblings == |ps| < treeArray.Length
      requires i % 2 == 0 && i <= numSiblings <= i + 1 && HalfMerged(mem, ps, ms, if i < numSiblings then i else i - 2)
      requires forall j :: 0 <= j < |ps| && j % 2 == 0 ==> treeArray[j] == Some(ps[j].n)
      modifies this`mem, treeArray
      ensures Top(mem, r, ms[0]) && Elements(mem) == old(Elements(mem))
    {
      var j := i - 2;
      if j == numSiblings - 3 {
        MergeOne(j, ps, ms);
      }
      while j >= 2
        invariant 0 <= j < numSiblings && j % 2 == 0 && HalfMerged(mem, ps, ms, j)
        invariant Elements(mem) == old(Elements(mem))
        invariant treeArray[j] == Some(ms[j].n)
        invariant forall k :: 0 <= k < j && k % 2 == 0 ==> treeArray[k] == Some(ps[k].n)
      {
        MergeOne(j - 2, ps, ms);
        j := j - 2;
      }
      r := treeArray[0].value;
    }

    /** Lines 93-118: at least two siblings. */
    method CombineMany(firstSibling: Ptr, ghost up: Ptr, ghost ts: seq<Tree>, ghost rs: seq<Tree>) returns (r: Ptr)
      requires ArrayOk() && Listing(ts, rs) && Apart(ts) && |ts| > 1 && Walk(mem, ts, rs, up, 0, Some(firstSibling))
      modifies this`mem, this`treeArray, this`treeArySize, treeArray
      ensures ArrayOk() && Elements(mem) == old(Elements(mem)) && Top(mem, r, Merged(ts, 0))
      ensures treeArray == old(treeArray) || fresh(treeArray)
    {
      var numSiblings := Collect(firstSibling, up, ts, rs);
      var i := PairPass(numSiblings, ts);
      ghost var ps, ms := PlanOf(ts);
      PassesMeet(mem, ts, ps, ms, i);
      r := MergePass(i, numSiblings, ps, ms);
    }

    /** Any number of siblings, odd or even, into one tree. */
    method CombineSiblings(firstSibling: Ptr, ghost up: Ptr, ghost t: Tree, ghost lo: int) returns (r: Ptr)
      requires ArrayOk() && Shape(mem, Some(firstSibling), Some(up), t) && Distinct(t) && Ordered(t, lo) && up in mem
      requires up !in Nodes(t)
      modifies this`mem, this`treeArray, this`treeArySize, treeArray
      ensures ArrayOk() && Elements(mem) == old(Elements(mem)) && t.Bin? && Top(mem, r, Combined(t))
      ensures treeArray == old(treeArray) || fresh(treeArray)
    {
      if mem[firstSibling].nextSibling.None? {
        assert Trees(t) == [t];
        return firstSibling;
      }
      TreesForest(t, lo);
      ForestApart(Trees(t));
      ghost var rs := ListingOf(t);
      r := CombineMany(firstSibling, up, Trees(t), rs);
      MergedIs(Trees(t), 0);
      assert PairUp(Trees(t))[0..] == PairUp(Trees(t));
    }

    ghost function Contents(): multiset<int>
      reads this
    {
      Keys(tree)
    }

    /** The keys of the nodes that are in the heap. */
    ghost function Held(): map<Ptr, int>
      reads this
    {
      Restrict(Elements(mem), Nodes(tree))
    }

    /** The tree of a valid heap. */
    ghost function View(): Option<Tree>
      reads this
    {
      if Valid() then Some(tree) else None
    }

    /** Lines 141 and 162: link another tree with the root. */
    method LinkWithRoot(p: Ptr, ghost a: Tree, ghost b: Tree)
      requires ArrayOk() && root.Some? && Top(mem, root.value, a) && Top(mem, p, b) && Heap(a) && Heap(b)
      requires Nodes(a) !! Nodes(b)
      modifies this`mem, this`root, this`tree
      ensures View() == Some(tree) && Contents() == Keys(a) + Keys(b) && Nodes(tree) == Nodes(a) + Nodes(b)
      ensures Elements(mem) == old(Elements(mem))
    {
      var r := CompareAndLink(root.value, Some(p), a, b);
      root := Some(r);
      tree := Link(a, b);
      LinkHeap(a, b);
    }

    /** The new node beside or above the old root. */
    method Add(addr: Ptr, x: int)
      requires Valid() && addr !in mem
      modifies this`mem, this`root, this`tree
      ensures View() == Some(tree) && Contents() == old(Contents()) + multiset{x}
      ensures Nodes(tree) == old(Nodes(tree)) + {addr}
      ensures Elements(mem) == old(Elements(mem))[addr := x]
    {
      ghost var t, single := tree, Bin(addr, x, Nil, Nil);
      SingleParts(addr, x, Nil);
      Written(mem, addr, PairNode(x, None, None, None));
      mem := mem[addr := PairNode(x, None, None, None)];
      if root.None? {
        root := Some(addr);
        tree := single;
        assert Nodes(t) == {} && Keys(t) == multiset{};
        assert Valid();
      } else {
        NewBeside(old(mem), mem, root.value, t, addr);
        LinkWithRoot(addr, t, single);
      }
    }

    /** `addr` is the address `new` returns; the node there holds `x`, and all others hold what they held. */
    method Insert(x: int, addr: Ptr) returns (newNode: Ptr)
      requires Valid() && addr !in mem
      modifies this`mem, this`root, this`tree
      ensures Valid() && Contents() == old(Contents()) + multiset{x}
      ensures newNode == addr && Nodes(tree) == old(Nodes(tree)) + {addr} && mem.Keys == old(mem.Keys) + {addr}
      ensures Held() == old(Held())[addr := x] && mem[addr].element == x
    {
      newNode := addr;
      Add(addr, x);
      RestrictSet(old(Elements(mem)), old(Nodes(tree)), addr, x);
      ElementsAt(mem);
      ElementsAt(old(mem));
    }

    /** Line 174. */
    method CombineChildren(ghost t: Tree, ghost lo: int)
      requires ArrayOk() && root.Some? && root.value in mem && mem[root.value].leftChild.Some?
      requires Shape(mem, mem[root.value].leftChild, root, t) && Distinct(t) && Ordered(t, lo)
      requires root.value !in Nodes(t)
      modifies this`mem, this`root, this`tree, this`treeArray, this`treeArySize, treeArray
      ensures View() == Some(tree) && Elements(mem) == old(Elements(mem))
      ensures treeArray == old(treeArray) || fresh(treeArray)
      ensures Nodes(tree) == Nodes(t) && Keys(tree) == Keys(t)
    {
      var r := CombineSiblings(mem[root.value].leftChild.value, root.value, t, lo);
      CombineHeap(t, lo);
      root := Some(r);
      tree := Combined(t);
    }

    /** Lines 167-175: the root of a heap that is not empty leaves. */
    method TakeRoot() returns (x: int)
      requires Valid() && root.Some?
      modifies this`mem, this`root, this`tree, this`treeArray, this`treeArySize, treeArray
      ensures View() == Some(tree) && Elements(mem) == old(Elements(mem))
      ensures treeArray == old(treeArray) || fresh(treeArray)
      ensures x == old(mem[root.value].element) && (Contents(), x) == PQ.Apply(old(Contents()), Slots.Remove)
      ensures Nodes(tree) == old(Nodes(tree)) - {old(root).value}
    {
      ghost var t := tree;
      x := mem[root.value].element;
      DeleteRoot(t);
      if mem[root.value].leftChild.None? {
        root := None;
        tree := Nil;
      } else {
        CombineChildren(t.left, t.key);
      }
    }

    /** The minimum leaves with its node, and all others keep their keys; an empty heap answers null, that is 0, and
        stays as it is. */
    method DeleteMin() returns (x: int)
      requires Valid()
      modifies this`mem, this`root, this`tree, this`treeArray, this`treeArySize, treeArray
      ensures Valid() && mem.Keys == old(mem.Keys) && (treeArray == old(treeArray) || fresh(treeArray))
      ensures (Contents(), x) == PQ.Apply(old(Contents()), Slots.Remove)
      ensures Nodes(tree) == if old(root).None? then {} else old(Nodes(tree)) - {old(root).value}
      ensures Held() == if old(root).None? then map[] else old(Held()) - {old(root).value}
      ensures old(root).Some? ==> Least(old(Held()), old(root).value, x)
    {
      EmptyTogether(mem, root, tree);
      if root.None? {
        return PQ.EMPTY;
      }
      LeastAtRoot(mem, root.value, tree);
      x := TakeRoot();
      RestrictDrop(old(Elements(mem)), old(Nodes(tree)), old(root).value);
      SameNodes(old(mem), mem);
    }

    /** Lines 131-140: a node below the root gets its new key and is cut out with its children. */
    method CutOut(p: Ptr, newVal: int, ghost t: Tree)
      requires Heap(t) && Top(mem, t.n, t) && p in Nodes(t.left)
      modifies this`mem
      ensures mem.Keys == old(mem.Keys) && Elements(mem) == old(Elements(mem))[p := newVal]
      ensures Top(mem, t.n, Bin(t.n, t.key, Without(t.left, p), Nil))
      ensures Top(mem, p, Bin(p, newVal, Sub(t.left, p).left, Nil))
    {
      Located(mem, mem[t.n].leftChild, Some(t.n), t.left, p);
      Written(mem, p, mem[p].(element := newVal));
      mem := mem[p := mem[p].(element := newVal)];
      if mem[p].nextSibling.Some? {
        var c := mem[p].nextSibling.value;
        Relink(c, mem[c].(prev := mem[p].prev));
      }
      var par := mem[p].prev.value;
      if mem[par].leftChild == Some(p) {
        Relink(par, mem[par].(leftChild := mem[p].nextSibling));
      } else {
        Relink(par, mem[par].(nextSibling := mem[p].nextSibling));
      }
      Relink(p, mem[p].(nextSibling := None));
      DecreasedShape(old(mem), mem, t, p, newVal);
    }

    method DecreaseAtRoot(newVal: int)
      requires Valid() && root.Some? && newVal <= mem[root.value].element
      modifies this`mem, this`tree
      ensures View() == Some(tree) && Nodes(tree) == old(Nodes(tree))
      ensures Elements(mem) == old(Elements(mem))[root.value := newVal]
      ensures Contents() == old(Contents()) - multiset{old(mem[root.value].element)} + multiset{newVal}
    {
      ghost var t, m, p := tree, mem, root.value;
      assert p == t.n && m[p].element == t.key;
      Written(m, p, m[p].(element := newVal));
      mem := mem[root.value := mem[root.value].(element := newVal)];
      ghost var b := DecreasedRoot(m, mem, p, t, newVal);
      tree := b;
    }

    method DecreaseBelow(p: Ptr, newVal: int)
      requires Valid() && p in mem && root.Some? && p in Nodes(tree.left) && newVal <= mem[p].element
      modifies this`mem, this`root, this`tree
      ensures View() == Some(tree) && Nodes(tree) == old(Nodes(tree))
      ensures Elements(mem) == old(Elements(mem))[p := newVal]
      ensures Contents() == old(Contents()) - multiset{old(mem[p].element)} + multiset{newVal}
    {
      ghost var t := tree;
      Located(mem, mem[t.n].leftChild, Some(t.n), t.left, p);
      CutOut(p, newVal, t);
      DecreasedHeap(t, p, newVal);
      DecreasedKeys(t, p, newVal);
      SingleParts(t.n, t.key, t.left);
      LinkWithRoot(p, Bin(t.n, t.key, Without(t.left, p), Nil), Bin(p, newVal, Sub(t.left, p).left, Nil));
    }

    /** Lines 128-141, for a key that does go down. */
    method Lower(p: Ptr, newVal: int)
      requires Valid() && p in Nodes(tree) && p in mem && newVal <= mem[p].element
      modifies this`mem, this`root, this`tree
      ensures View() == Some(tree) && Nodes(tree) == old(Nodes(tree))
      ensures Elements(mem) == old(Elements(mem))[p := newVal]
      ensures Contents() == old(Contents()) - multiset{old(mem[p].element)} + multiset{newVal}
    {
      if root == Some(p) {
        DecreaseAtRoot(newVal);
      } else {
        assert p in Nodes(tree.left) by { SingleParts(tree.n, tree.key, tree.left); }
        DecreaseBelow(p, newVal);
      }
    }

    /** A key may only go down; a larger `newVal` changes nothing. No other node's key changes. */
    method DecreaseKey(p: Ptr, newVal: int)
      requires Valid() && p in Nodes(tree) && p in mem
      modifies this`mem, this`root, this`tree
      ensures Valid() && Nodes(tree) == old(Nodes(tree)) && mem.Keys == old(mem.Keys)
      ensures Contents() == if old(mem[p].element) < newVal then old(Contents())
        else old(Contents()) - multiset{old(mem[p].element)} + multiset{newVal}
      ensures Held() == if old(mem[p].element) < newVal then old(Held()) else old(Held())[p := newVal]
      ensures mem[p].element == if old(mem[p].element) < newVal then old(mem[p].element) else newVal
    {
      if mem[p].element < newVal {
        return;
      }
      Lower(p, newVal);
      RestrictSet(old(Elements(mem)), old(Nodes(tree)), p, newVal);
      assert old(Nodes(tree)) + {p} == old(Nodes(tree));
      ElementsAt(mem);
      ElementsAt(old(mem));
    }

    /** `deleteMin` until `isEmpty`: the heap comes out sorted, and complete. */
    method Drain() returns (out: seq<int>)
      requires Valid()
      modifies this`mem, this`root, this`tree, this`treeArray, this`treeArySize, treeArray
      ensures Valid() && root.None?
      ensures multiset(out) == old(Contents()) && forall i, j :: 0 <= i < j < |out| ==> out[i] <= out[j]
    {
      out := [];
      ghost var start := Contents();
      while root.Some?
        invariant Valid() && (treeArray == old(treeArray) || fresh(treeArray))
        invariant Drained(start, out, Contents())
        decreases |Contents()|
      {
        ghost var before := Contents();
        RootHasKey(tree);
        var x := DeleteMin();
        DrainMore(start, out, before, x, Contents());
        out := out + [x];
      }
    }

    /** What a valid heap stands for. */
    ghost function State(): Option<Queue>
      reads this
    {
      if Valid() then Some(Queue(Held(), Contents())) else None
    }

    method PlayInsert(v: int, addr: Ptr)
      requires State().Some? && addr !in mem
      modifies this`mem, this`root, this`tree
      ensures var q := old(State()).value; State() == Some(Queue(q.held[addr := v], q.keys + multiset{v}))
      ensures mem.Keys == old(mem.Keys) + {addr}
    {
      var newNode := Insert(v, addr);
    }

    method PlayDeleteMin() returns (a: int)
      requires State().Some?
      modifies this`mem, this`root, this`tree, this`treeArray, this`treeArySize, treeArray
      ensures State().Some? && mem.Keys == old(mem.Keys) && (treeArray == old(treeArray) || fresh(treeArray))
      ensures QueueStep(old(State()).value, HeapOp.DeleteMin, State().value, a)
      ensures State().value.held == if old(root).None? then map[] else old(State()).value.held - {old(root).value}
    {
      EmptyTogether(mem, root, tree);
      a := DeleteMin();
      MinLeft(old(State()).value, old(root), State().value, a);
    }

    method PlayDecrease(p: Ptr, v: int)
      requires State().Some? && p in State().value.held
      modifies this`mem, this`root, this`tree
      ensures State().Some? && mem.Keys == old(mem.Keys)
      ensures QueueStep(old(State()).value, Decrease(p, v), State().value, 0)
    {
      DecreaseKey(p, v);
    }

    /** One operation; `live` are the nodes that are in the heap, so that no other is handed to `DecreaseKey`. */
    method Play(op: HeapOp, live: set<Ptr>) returns (a: int, live': set<Ptr>)
      requires State().Some? && live == State().value.held.Keys && (op.Insert? ==> op.addr !in mem)
      modifies this`mem, this`root, this`tree, this`treeArray, this`treeArySize, treeArray
      ensures State().Some? && live' == State().value.held.Keys && QueueStep(old(State()).value, op, State().value, a)
      ensures mem.Keys == if op.Insert? then old(mem.Keys) + {op.addr} else old(mem.Keys)
      ensures treeArray == old(treeArray) || fresh(treeArray)
    {
      a, live' := 0, live;
      match op {
        case Insert(v, addr) =>
          PlayInsert(v, addr);
          live' := live + {addr};
        case DeleteMin =>
          live' := if root.Some? then live - {root.value} else {};
          a := PlayDeleteMin();
        case Decrease(p, v) =>
          if p in live {
            PlayDecrease(p, v);
          }
      }
    }

    /** Any sequence of insertions, removals and decreased keys answers as the sequential priority queue does; `handles`
        are the nodes in the heap at the start. */
    method Replay(ops: seq<HeapOp>, handles: set<Ptr>) returns (answers: seq<int>, ghost states: seq<Queue>)
      requires State().Some? && handles == State().value.held.Keys && NewAddresses(ops, mem.Keys)
      modifies this`mem, this`root, this`tree, this`treeArray, this`treeArySize, treeArray
      ensures |answers| == |ops| && Follows(states, ops, answers)
      ensures old(State()) == Some(states[0]) && State() == Some(states[|ops|])
    {
      var live := handles;
      answers, states := [], [State().value];
      for i := 0 to |ops|
        invariant |answers| == i && Follows(states, ops, answers) && states[0] == old(State()).value
        invariant State() == Some(states[i]) && live == states[i].held.Keys
        invariant treeArray == old(treeArray) || fresh(treeArray)
        invariant forall k :: i <= k < |ops| && ops[k].Insert? ==> ops[k].addr !in mem
      {
        var a;
        a, live := Play(ops[i], live);
        FollowsMore(states, ops, answers, State().value, a);
        answers, states := answers + [a], states + [State().value];
      }
    }
  }

  lemma RootHasKey(t: Tree)
    requires t.Bin?
    ensures Keys(t) != multiset{}
  {
    assert t.key in Keys(t);
  }

  /** `out` came out of `start` in order, `rest` is still inside. */
  ghost predicate Drained(start: multiset<int>, out: seq<int>, rest: multiset<int>) {
    && multiset(out) + rest == start
    && (forall i, j :: 0 <= i < j < |out| ==> out[i] <= out[j])
    && (forall i, k :: 0 <= i < |out| && k in rest ==> out[i] <= k)
  }

  /** One more minimum behind the ones already taken. */
  lemma DrainMore(start: multiset<int>, out: seq<int>, before: multiset<int>, x: int, after: multiset<int>)
    requires before != multiset{} && (after, x) == PQ.Apply(before, Slots.Remove)
    requires Drained(start, out, before)
    ensures Drained(start, out + [x], after) && |after| < |before|
  {
    assert PQ.IsMin(before, x);
    assert before == after + multiset{x};
    assert multiset(out + [x]) == multiset(out) + multiset{x};
  }

  lemma NewBeside(m: Store, m': Store, p: Ptr, t: Tree, addr: Ptr)
    requires Top(m, p, t) && addr !in m && addr in m' && m' == m[addr := m'[addr]]
    ensures addr !in Nodes(t) && Top(m', p, t)
  {
    InMemory(m, m[p].leftChild, Some(p), t.left);
    InMemory(m, m[p].nextSibling, Some(p), t.sib);
    TopFrame(m, m', p, t);
  }

  /** Every node of a structure is allocated. */
  lemma {:induction false} InMemory(m: Store, p: Option<Ptr>, up: Option<Ptr>, t: Tree)
    requires Shape(m, p, up, t)
    ensures Nodes(t) <= m.Keys
    decreases t
  {
    if t.Bin? {
      InMemory(m, m[t.n].leftChild, Some(t.n), t.left);
      InMemory(m, m[t.n].nextSibling, Some(t.n), t.sib);
    }
  }

  /** Taking the root off a heap takes off its minimum; its children's trees remain. */
  lemma DeleteRoot(t: Tree)
    requires Heap(t)
    ensures PQ.Apply(Keys(t), Slots.Remove) == (Keys(t.left), t.key)
    ensures Nodes(t) - {t.n} == Nodes(t.left) && t.n !in Nodes(t.left) && Distinct(t.left) && Ordered(t.left, t.key)
  {
    SingleParts(t.n, t.key, t.left);
    OrderedBound(t.left, t.key);
    MinOnTop(t.key, Keys(t.left));
  }

  lemma MinOnTop(key: int, rest: multiset<int>)
    requires forall k :: k in rest ==> key <= k
    ensures PQ.Apply(multiset{key} + rest, Slots.Remove) == (rest, key)
  {
    var s := multiset{key} + rest;
    PQ.MinUnique(s, key);
    assert s - multiset{key} == rest;
  }
}
