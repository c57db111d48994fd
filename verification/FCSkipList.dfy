/**
 The flat-combining skip list of All_Summer2017/testProject/data_structures/FCSkipList.h: one combining pass.

 Nodes live in a store keyed by address. `l` lists them from `_head` to `_tail`; a node takes part in
 the levels below its `topLevel`, so level L is the sublist of nodes whose `topLevel` exceeds L.
 A new node has `next` fields for these levels only, since its allocation may cut off the others; the
 random level that a pass draws for its new nodes is a parameter.
 */
module FCSkipList {
  import opened Options
  import opened Slots
  import PQ = PriorityQueue

  const MAX_LEVEL: nat := 20

  type Ptr = nat

  datatype Node = Node(key: int, topLevel: nat, counter: nat, next: seq<Ptr>)

  type Store = map<Ptr, Node>

  // ---------------------------------------------------------------- counted multisets

  datatype Entry = Entry(key: int, count: nat)

  /** How often `x` occurs in the first `n` entries. */
  function CountIn(es: seq<Entry>, x: int, n: nat): nat
    requires n <= |es|
  {
    if n == 0 then 0 else CountIn(es, x, n - 1) + if es[n - 1].key == x then es[n - 1].count else 0
  }

  function BagUpto(es: seq<Entry>, n: nat): multiset<int>
    requires n <= |es|
  {
    if n == 0 then multiset{} else
    var b := BagUpto(es, n - 1);
    b[es[n - 1].key := b[es[n - 1].key] + es[n - 1].count]
  }

  /** The multiset that the entries count. */
  function Bag(es: seq<Entry>): multiset<int> { BagUpto(es, |es|) }

  /** What is left when `k` minima are removed, or all. */
  ghost function WithoutSmallest(s: multiset<int>, k: nat): multiset<int> {
    if k == 0 then s else PQ.Apply(WithoutSmallest(s, k - 1), Slots.Remove).0
  }

  lemma {:induction false} BagCounts(es: seq<Entry>, n: nat, x: int)
    requires n <= |es|
    ensures BagUpto(es, n)[x] == CountIn(es, x, n)
  {
    if n > 0 {
      BagCounts(es, n - 1, x);
    }
  }

  /** Two multisets that count alike are equal. */
  lemma SameBag(es: seq<Entry>, t: multiset<int>)
    requires forall x :: CountIn(es, x, |es|) == t[x]
    ensures Bag(es) == t
  {
    forall x ensures Bag(es)[x] == t[x] { BagCounts(es, |es|, x); }
  }

  ghost predicate Recounted(es: seq<Entry>, es': seq<Entry>, i: nat, n: nat) {
    && i < |es| == |es'| && es'[i] == Entry(es[i].key, n)
    && forall k :: 0 <= k < |es| && k != i ==> es'[k] == es[k]
  }

  /** Changing one count. */
  lemma {:induction false} CountRecount(es: seq<Entry>, es': seq<Entry>, i: nat, c: nat, x: int, n: nat)
    requires Recounted(es, es', i, c) && n <= |es|
    ensures if n <= i || es[i].key != x then CountIn(es', x, n) == CountIn(es, x, n)
      else CountIn(es', x, n) + es[i].count == CountIn(es, x, n) + c
  {
    if n > 0 {
      CountRecount(es, es', i, c, x, n - 1);
    }
  }

  lemma BagUp(es: seq<Entry>, es': seq<Entry>, i: nat)
    requires i < |es| && Recounted(es, es', i, es[i].count + 1)
    ensures Bag(es') == Bag(es) + multiset{es[i].key}
  {
    forall x ensures CountIn(es', x, |es'|) == (Bag(es) + multiset{es[i].key})[x] {
      CountRecount(es, es', i, es[i].count + 1, x, |es|);
      BagCounts(es, |es|, x);
    }
    SameBag(es', Bag(es) + multiset{es[i].key});
  }

  lemma BagDown(es: seq<Entry>, es': seq<Entry>, i: nat)
    requires i < |es| && es[i].count > 0 && Recounted(es, es', i, es[i].count - 1)
    ensures Bag(es') == Bag(es) - multiset{es[i].key}
  {
    forall x ensures CountIn(es', x, |es'|) == (Bag(es) - multiset{es[i].key})[x] {
      CountRecount(es, es', i, es[i].count - 1, x, |es|);
      BagCounts(es, |es|, x);
    }
    SameBag(es', Bag(es) - multiset{es[i].key});
  }

  /** `es'` is `es` with `e` put in at `i`. */
  ghost predicate EntryPut(es: seq<Entry>, es': seq<Entry>, i: nat, e: Entry) {
    && i <= |es| && |es'| == |es| + 1 && es'[i] == e
    && (forall k :: 0 <= k < i ==> es'[k] == es[k])
    && (forall k :: i < k < |es'| ==> es'[k] == es[k - 1])
  }

  lemma {:induction false} CountPut(es: seq<Entry>, es': seq<Entry>, i: nat, e: Entry, x: int, n: nat)
    requires EntryPut(es, es', i, e) && n <= |es'|
    ensures CountIn(es', x, n) == if n <= i then CountIn(es, x, n) else CountIn(es, x, n - 1) + if e.key == x
      then e.count else 0
  {
    if n > 0 {
      CountPut(es, es', i, e, x, n - 1);
    }
  }

  lemma BagPut(es: seq<Entry>, es': seq<Entry>, i: nat, key: int)
    requires EntryPut(es, es', i, Entry(key, 1))
    ensures Bag(es') == Bag(es) + multiset{key}
  {
    forall x ensures CountIn(es', x, |es'|) == (Bag(es) + multiset{key})[x] {
      CountPut(es, es', i, Entry(key, 1), x, |es'|);
      BagCounts(es, |es|, x);
    }
    SameBag(es', Bag(es) + multiset{key});
  }

  /** Entries that count nothing add nothing. */
  lemma {:induction false} CountZeros(es: seq<Entry>, x: int, n: nat)
    requires n <= |es| && forall i :: 0 <= i < n ==> es[i].count == 0
    ensures CountIn(es, x, n) == 0
  {
    if n > 0 {
      CountZeros(es, x, n - 1);
    }
  }

  lemma {:induction false} CountTail(es: seq<Entry>, es': seq<Entry>, r: nat, x: int, n: nat)
    requires r <= |es| && |es'| == |es| - r && (forall k :: 0 <= k < |es'| ==> es'[k] == es[k + r]) && n <= |es'|
    ensures CountIn(es, x, n + r) == CountIn(es, x, r) + CountIn(es', x, n)
  {
    if n > 0 {
      CountTail(es, es', r, x, n - 1);
    }
  }

  lemma BagTail(es: seq<Entry>, es': seq<Entry>, r: nat)
    requires r <= |es| && |es'| == |es| - r && (forall k :: 0 <= k < |es'| ==> es'[k] == es[k + r])
    requires forall i :: 0 <= i < r ==> es[i].count == 0
    ensures Bag(es') == Bag(es)
  {
    forall x ensures CountIn(es', x, |es'|) == Bag(es)[x] {
      CountTail(es, es', r, x, |es'|);
      CountZeros(es, x, r);
      BagCounts(es, |es|, x);
    }
    SameBag(es', Bag(es));
  }

  lemma {:induction false} CountMember(es: seq<Entry>, x: int, n: nat)
    requires n <= |es|
    ensures CountIn(es, x, n) > 0 <==> exists i :: 0 <= i < n && es[i].key == x && es[i].count > 0
  {
    if n > 0 {
      CountMember(es, x, n - 1);
    }
  }

  ghost predicate Increasing(es: seq<Entry>) {
    forall i, j :: 0 <= i < j < |es| ==> es[i].key < es[j].key
  }

  /** The first entry that still counts is the minimum. */
  lemma FirstIsMin(es: seq<Entry>, r: nat)
    requires Increasing(es) && r < |es| && es[r].count > 0 && forall i :: 0 <= i < r ==> es[i].count == 0
    ensures PQ.IsMin(Bag(es), es[r].key)
  {
    CountMember(es, es[r].key, |es|);
    BagCounts(es, |es|, es[r].key);
    forall x | x in Bag(es) ensures es[r].key <= x {
      CountMember(es, x, |es|);
      BagCounts(es, |es|, x);
      var i :| 0 <= i < |es| && es[i].key == x && es[i].count > 0;
      assert i == r || i > r;
    }
  }

  /** Taking one off it is a removal of the minimum. */
  lemma TakeFirst(es: seq<Entry>, es': seq<Entry>, r: nat)
    requires Increasing(es) && r < |es| && es[r].count > 0 && forall i :: 0 <= i < r ==> es[i].count == 0
    requires Recounted(es, es', r, es[r].count - 1)
    ensures PQ.Apply(Bag(es), Slots.Remove).0 == Bag(es')
  {
    FirstIsMin(es, r);
    PQ.MinUnique(Bag(es), es[r].key);
    BagDown(es, es', r);
  }

  // ---------------------------------------------------------------- levels

  /** The next position after `i` that takes part in level `lv`. */
  function NextAt(tops: seq<nat>, i: nat, lv: nat): (j: nat)
    requires i + 1 < |tops| && tops[|tops| - 1] > lv
    ensures i < j < |tops| && tops[j] > lv && forall k :: i < k < j ==> tops[k] <= lv
    decreases |tops| - i
  {
    if tops[i + 1] > lv then i + 1 else NextAt(tops, i + 1, lv)
  }

  /** The last position before `p` that takes part in level `lv`. */
  function PrevAt(tops: seq<nat>, p: nat, lv: nat): (i: nat)
    requires 0 < p <= |tops| && tops[0] > lv
    ensures i < p && tops[i] > lv && forall k :: i < k < p ==> tops[k] <= lv
  {
    if tops[p - 1] > lv then p - 1 else PrevAt(tops, p - 1, lv)
  }

  lemma NextIs(tops: seq<nat>, i: nat, lv: nat, j: nat)
    requires i < j < |tops| && tops[|tops| - 1] > lv && tops[j] > lv && forall k :: i < k < j ==> tops[k] <= lv
    ensures NextAt(tops, i, lv) == j
  {
  }

  lemma PrevIs(tops: seq<nat>, p: nat, lv: nat, i: nat)
    requires i < p <= |tops| && tops[0] > lv && tops[i] > lv && forall k :: i < k < p ==> tops[k] <= lv
    ensures PrevAt(tops, p, lv) == i
  {
  }

  /** A hop of level `lv` over position `p` runs between its two neighbours on that level. */
  lemma Straddles(tops: seq<nat>, p: nat, i: nat, lv: nat)
    requires i < p < |tops| && tops[|tops| - 1] > lv && tops[0] > lv && tops[i] > lv && NextAt(tops, i, lv) >= p
    ensures PrevAt(tops, p, lv) == i && NextAt(tops, p - 1, lv) == NextAt(tops, i, lv)
  {
    PrevIs(tops, p, lv, i);
    NextIs(tops, p - 1, lv, NextAt(tops, i, lv));
  }

  /** `s'` is `s` with `x` put in at `p`. */
  ghost predicate Inserted<T>(s: seq<T>, s': seq<T>, p: nat, x: T) {
    && 0 < p < |s| && |s'| == |s| + 1
    && (forall k :: 0 <= k < p ==> s'[k] == s[k])
    && s'[p] == x
    && (forall k :: p < k < |s'| ==> s'[k] == s[k - 1])
  }

  lemma PutIn<T>(s: seq<T>, p: nat, x: T) returns (s': seq<T>)
    requires 0 < p < |s|
    ensures Inserted(s, s', p, x)
  {
    s' := s[..p] + [x] + s[p..];
  }

  /** Where a hop from before `p` leads once a node of height `top` has been put in at `p`. */
  lemma NextBefore(tops: seq<nat>, tops': seq<nat>, p: nat, top: nat, i: nat, lv: nat)
    requires Inserted(tops, tops', p, top) && i < p && tops[|tops| - 1] > lv && tops[0] > lv && tops[i] > lv
    ensures var j := NextAt(tops, i, lv);
      NextAt(tops', i, lv) == if lv < top && i == PrevAt(tops, p, lv) then p else if j < p then j else j + 1
  {
    var j := NextAt(tops, i, lv);
    if j < p {
      NextIs(tops', i, lv, j);
    } else {
      Straddles(tops, p, i, lv);
      NextIs(tops', i, lv, if lv < top then p else j + 1);
    }
  }

  lemma NextAfter(tops: seq<nat>, tops': seq<nat>, p: nat, top: nat, i: nat, lv: nat)
    requires Inserted(tops, tops', p, top) && p <= i + 1 < |tops| && tops[|tops| - 1] > lv
    ensures NextAt(tops', i + 1, lv) == NextAt(tops, i, lv) + 1
  {
    NextIs(tops', i + 1, lv, NextAt(tops, i, lv) + 1);
  }

  // ---------------------------------------------------------------- the list in the store

  /** `l` runs from head to tail with strictly increasing keys, and `tops` gives the heights. */
  ghost predicate Ranked(m: Store, l: seq<Ptr>, tops: seq<nat>) {
    && |l| == |tops| >= 2
    && (forall i :: 0 <= i < |l| ==>
          l[i] in m && m[l[i]].topLevel == tops[i] && 0 < tops[i] <= MAX_LEVEL && tops[i] <= |m[l[i]].next|)
    && (forall i, j :: 0 <= i < j < |l| ==> m[l[i]].key < m[l[j]].key)
    && m[l[0]].key == INT_MIN && m[l[|l| - 1]].key == INT_MAX
    && tops[0] == tops[|l| - 1] == MAX_LEVEL
  }

  /** On every level a node points to the next node of that level, so each level is a sorted sublist of the one
      below. */
  ghost predicate Shape(m: Store, l: seq<Ptr>, tops: seq<nat>) {
    && Ranked(m, l, tops)
    && (forall i, lv :: 0 <= i < |l| - 1 && 0 <= lv < tops[i] ==> m[l[i]].next[lv] == l[NextAt(tops, i, lv)])
  }

  ghost predicate Positive(m: Store, l: seq<Ptr>) {
    forall i :: 0 <= i < |l| ==> l[i] in m && m[l[i]].counter > 0
  }

  ghost function Entries(m: Store, l: seq<Ptr>): (es: seq<Entry>)
    requires |l| >= 2 && forall i :: 0 <= i < |l| ==> l[i] in m
    ensures |es| == |l| - 2
  {
    seq(|l| - 2, i requires 0 <= i < |l| - 2 => Entry(m[l[i + 1]].key, m[l[i + 1]].counter))
  }

  /** The whole list: from `head` to `tail`, in a store of used addresses. */
  ghost predicate Formed(m: Store, brk: Ptr, head: Ptr, tail: Ptr, l: seq<Ptr>, tops: seq<nat>) {
    Shape(m, l, tops) && head == l[0] && tail == l[|l| - 1] && forall p :: p in m ==> p < brk
  }

  /** The values, each as often as its counter says, if the list is well formed and has no used-up node in it. */
  ghost function ViewOf(m: Store, brk: Ptr, head: Ptr, tail: Ptr, l: seq<Ptr>, tops: seq<nat>): Option<multiset<int>> {
    if Formed(m, brk, head, tail, l, tops) && Positive(m, l) then Some(Bag(Entries(m, l))) else None
  }

  lemma Position(m: Store, l: seq<Ptr>, tops: seq<nat>, key: int) returns (p: nat)
    requires Ranked(m, l, tops) && INT_MIN < key <= INT_MAX
    ensures 0 < p < |l| && m[l[p - 1]].key < key <= m[l[p]].key
  {
    p := 1;
    while m[l[p]].key < key
      invariant 0 < p < |l| && m[l[p - 1]].key < key
      decreases |l| - p
    {
      p := p + 1;
    }
  }

  /** A search that has stopped between `i` and its level neighbour has straddled the position of the key. */
  lemma Stopped(m: Store, l: seq<Ptr>, tops: seq<nat>, key: int, p: nat, i: nat, lv: nat)
    requires Ranked(m, l, tops) && 0 < p < |l| && m[l[p - 1]].key < key <= m[l[p]].key && lv < MAX_LEVEL
    requires i < |l| - 1 && tops[i] > lv && m[l[i]].key < key <= m[l[NextAt(tops, i, lv)]].key
    ensures i < p && PrevAt(tops, p, lv) == i && NextAt(tops, p - 1, lv) == NextAt(tops, i, lv)
    ensures m[l[NextAt(tops, i, lv)]].key == key <==> NextAt(tops, i, lv) == p && m[l[p]].key == key
    ensures lv == 0 ==> NextAt(tops, i, lv) == p
  {
    Straddles(tops, p, i, lv);
  }

  // ---------------------------------------------------------------- what the shape says of a level

  /** The nodes from position `i` on that take part in level `lv`. */
  function LevelFrom(l: seq<Ptr>, tops: seq<nat>, lv: nat, i: nat): seq<Ptr>
    requires |l| == |tops| && i <= |l|
    decreases |l| - i
  {
    if i == |l| then [] else (if tops[i] > lv then [l[i]] else []) + LevelFrom(l, tops, lv, i + 1)
  }

  lemma {:induction false} SkipToNext(l: seq<Ptr>, tops: seq<nat>, lv: nat, i: nat)
    requires |l| == |tops| && i < |l| - 1 && tops[|l| - 1] > lv
    ensures LevelFrom(l, tops, lv, i + 1) == LevelFrom(l, tops, lv, NextAt(tops, i, lv))
    decreases |l| - i
  {
    if tops[i + 1] <= lv {
      SkipToNext(l, tops, lv, i + 1);
    }
  }

  /** `c` is what following `next[lv]` visits, in strictly increasing key order. */
  ghost predicate Followed(m: Store, lv: nat, c: seq<Ptr>) {
    && |c| > 0 && c[0] in m
    && (|c| > 1 ==>
        && c[1] in m && lv < |m[c[0]].next| && m[c[0]].next[lv] == c[1] && m[c[0]].key < m[c[1]].key
        && Followed(m, lv, c[1..]))
  }

  lemma FollowedMore(m: Store, lv: nat, q: Ptr, c: seq<Ptr>)
    requires Followed(m, lv, c) && q in m && lv < |m[q].next| && m[q].next[lv] == c[0] && m[q].key < m[c[0]].key
    ensures Followed(m, lv, [q] + c)
  {
    assert ([q] + c)[1..] == c;
  }

  /** Following `next[lv]` from a node of the level visits exactly the rest of the level and ends at the tail. */
  lemma {:induction false} LevelChain(m: Store, l: seq<Ptr>, tops: seq<nat>, lv: nat, i: nat)
    requires Shape(m, l, tops) && lv < MAX_LEVEL && i < |l| && tops[i] > lv
    ensures var c := LevelFrom(l, tops, lv, i);
      |c| > 0 && c[0] == l[i] && c[|c| - 1] == l[|l| - 1] && Followed(m, lv, c)
    decreases |l| - i
  {
    if i < |l| - 1 {
      var j := NextAt(tops, i, lv);
      LevelChain(m, l, tops, lv, j);
      SkipToNext(l, tops, lv, i);
      assert m[l[i]].next[lv] == l[j];
      FollowedMore(m, lv, l[i], LevelFrom(l, tops, lv, j));
    } else {
      assert LevelFrom(l, tops, lv, i + 1) == [];
    }
  }

  predicate Sublist(a: seq<Ptr>, b: seq<Ptr>) {
    if a == [] then true else b != [] && if a[0] == b[0] then Sublist(a[1..], b[1..]) else Sublist(a, b[1..])
  }

  lemma {:induction false} LevelMembers(l: seq<Ptr>, tops: seq<nat>, lv: nat, i: nat)
    requires |l| == |tops| && i <= |l|
    ensures forall q :: q in LevelFrom(l, tops, lv, i) ==> exists j :: i <= j < |l| && l[j] == q
    decreases |l| - i
  {
    if i < |l| {
      LevelMembers(l, tops, lv, i + 1);
    }
  }

  lemma SublistSame(x: Ptr, a: seq<Ptr>, b: seq<Ptr>)
    requires Sublist(a, b)
    ensures Sublist([x] + a, [x] + b)
  {
    assert ([x] + a)[1..] == a && ([x] + b)[1..] == b;
  }

  lemma SublistSkip(x: Ptr, a: seq<Ptr>, b: seq<Ptr>)
    requires Sublist(a, b) && x !in a
    ensures Sublist(a, [x] + b)
  {
    assert ([x] + b)[1..] == b;
    assert a != [] ==> a[0] in a;
  }

  /** Every level is a sublist of the one below. */
  lemma {:induction false} LevelSublist(l: seq<Ptr>, tops: seq<nat>, lv: nat, i: nat)
    requires |l| == |tops| && i <= |l| && forall j, k :: 0 <= j < k < |l| ==> l[j] != l[k]
    ensures Sublist(LevelFrom(l, tops, lv + 1, i), LevelFrom(l, tops, lv, i))
    decreases |l| - i
  {
    if i < |l| {
      var a, b := LevelFrom(l, tops, lv + 1, i + 1), LevelFrom(l, tops, lv, i + 1);
      LevelSublist(l, tops, lv, i + 1);
      LevelMembers(l, tops, lv + 1, i + 1);
      assert [] + a == a && [] + b == b;
      if tops[i] > lv + 1 {
        SublistSame(l[i], a, b);
      } else if tops[i] > lv {
        SublistSkip(l[i], a, b);
      }
    }
  }

  // ---------------------------------------------------------------- putting a node in

  /** The `next` fields of `q` once the levels below `k` have been relinked around `nn`. */
  ghost predicate Relinked(next: seq<Ptr>, next': seq<Ptr>, q: Ptr, nn: Ptr, ps: seq<Ptr>, ss: seq<Ptr>, k: nat)
    requires k <= |ps| && k <= |ss|
  {
    && |next'| == |next|
    && forall lv :: 0 <= lv < |next| ==>
         next'[lv] == if lv >= k || (q != nn && ps[lv] != q) then next[lv] else if q == nn then ss[lv] else nn
  }

  ghost predicate Spliced(m: Store, m': Store, nn: Ptr, ps: seq<Ptr>, ss: seq<Ptr>, k: nat) {
    && nn in m && m'.Keys == m.Keys && k <= MAX_LEVEL <= |ps| && MAX_LEVEL <= |ss|
    && (forall q :: q in m ==>
          m'[q].key == m[q].key && m'[q].topLevel == m[q].topLevel && m'[q].counter == m[q].counter)
    && (forall q :: q in m ==> Relinked(m[q].next, m'[q].next, q, nn, ps, ss, k))
  }

  lemma RelinkMore(next: seq<Ptr>, next1: seq<Ptr>, next2: seq<Ptr>, q: Ptr, nn: Ptr, ps: seq<Ptr>, ss: seq<Ptr>,
                   k: nat)
    requires k < |ps| && k < |ss| && Relinked(next, next1, q, nn, ps, ss, k) && (q == nn || q == ps[k] ==> k < |next|)
    requires next2 == if q == nn then next1[k := ss[k]] else if q == ps[k] then next1[k := nn] else next1
    ensures Relinked(next, next2, q, nn, ps, ss, k + 1)
  {
  }

  lemma SpliceMore(m: Store, m1: Store, m2: Store, nn: Ptr, ps: seq<Ptr>, ss: seq<Ptr>, k: nat)
    requires Spliced(m, m1, nn, ps, ss, k) && k < MAX_LEVEL && ps[k] in m && ps[k] != nn
    requires k < |m[nn].next| == |m1[nn].next| && k < |m[ps[k]].next| == |m1[ps[k]].next|
    requires m2 == m1[nn := m1[nn].(next := m1[nn].next[k := ss[k]])][ps[k] :=
      m1[ps[k]].(next := m1[ps[k]].next[k := nn])]
    ensures Spliced(m, m2, nn, ps, ss, k + 1)
  {
    forall q | q in m ensures Relinked(m[q].next, m2[q].next, q, nn, ps, ss, k + 1) {
      assert Relinked(m[q].next, m1[q].next, q, nn, ps, ss, k);
      RelinkMore(m[q].next, m1[q].next, m2[q].next, q, nn, ps, ss, k);
    }
  }

  /** `ps` and `ss` hold the neighbours of position `p` on the levels from `from` up. */
  ghost predicate SidesFrom(l: seq<Ptr>, tops: seq<nat>, p: nat, ps: seq<Ptr>, ss: seq<Ptr>, from: nat) {
    && 0 < p < |l| == |tops| && MAX_LEVEL <= |ps| && MAX_LEVEL <= |ss| && tops[0] == tops[|tops| - 1] == MAX_LEVEL
    && (forall lv :: from <= lv < MAX_LEVEL ==> ps[lv] == l[PrevAt(tops, p, lv)])
    && (forall lv :: from <= lv < MAX_LEVEL ==> ss[lv] == l[NextAt(tops, p - 1, lv)])
  }

  ghost predicate Sides(l: seq<Ptr>, tops: seq<nat>, p: nat, ps: seq<Ptr>, ss: seq<Ptr>) {
    SidesFrom(l, tops, p, ps, ss, 0)
  }

  lemma SidesMore(l: seq<Ptr>, tops: seq<nat>, p: nat, ps: seq<Ptr>, ss: seq<Ptr>, level: nat, pred: Ptr, succ: Ptr)
    requires level < MAX_LEVEL && SidesFrom(l, tops, p, ps, ss, level + 1)
    requires pred == l[PrevAt(tops, p, level)] && succ == l[NextAt(tops, p - 1, level)]
    ensures SidesFrom(l, tops, p, ps[level := pred], ss[level := succ], level)
  {
  }

  /** The new node fits between its neighbours. */
  ghost predicate Fits(m: Store, l: seq<Ptr>, tops: seq<nat>, p: nat, nn: Ptr) {
    && Ranked(m, l, tops) && 0 < p < |l| && nn in m && nn !in l
    && m[l[p - 1]].key < m[nn].key < m[l[p]].key
    && 0 < m[nn].topLevel < MAX_LEVEL && m[nn].topLevel <= |m[nn].next|
  }

  lemma PutRanked(m: Store, l: seq<Ptr>, tops: seq<nat>, p: nat, nn: Ptr, l': seq<Ptr>, tops': seq<nat>)
    requires Fits(m, l, tops, p, nn) && Inserted(l, l', p, nn) && Inserted(tops, tops', p, m[nn].topLevel)
    ensures Ranked(m, l', tops')
  {
    forall i | 0 <= i < |l'|
      ensures l'[i] in m && m[l'[i]].topLevel == tops'[i] && 0 < tops'[i] <= MAX_LEVEL && tops'[i] <= |m[l'[i]].next|
    {
      assert i == p || (i < p && l'[i] == l[i]) || (i > p && l'[i] == l[i - 1]);
    }
    forall i, j | 0 <= i < j < |l'| ensures m[l'[i]].key < m[l'[j]].key {
      KeysOrdered(m, l, tops, p, nn, l', i, j);
    }
  }

  lemma KeysOrdered(m: Store, l: seq<Ptr>, tops: seq<nat>, p: nat, nn: Ptr, l': seq<Ptr>, i: nat, j: nat)
    requires Fits(m, l, tops, p, nn) && Inserted(l, l', p, nn) && i < j < |l'|
    requires l'[i] in m && l'[j] in m
    ensures m[l'[i]].key < m[l'[j]].key
  {
    if i == p {
      assert l'[j] == l[j - 1];
      assert j - 1 == p || m[l[p]].key < m[l[j - 1]].key;
    } else if j == p {
      assert l'[i] == l[i];
      assert i == p - 1 || m[l[i]].key < m[l[p - 1]].key;
    }
  }

  lemma RankedKept(m: Store, m': Store, l: seq<Ptr>, tops: seq<nat>, nn: Ptr, ps: seq<Ptr>, ss: seq<Ptr>, k: nat)
    requires Ranked(m, l, tops) && Spliced(m, m', nn, ps, ss, k)
    ensures Ranked(m', l, tops)
  {
  }

  /** The `next` field of an old node: the neighbour before the new node points to it, the others are as they were. */
  lemma OldNext(m: Store, m': Store, l: seq<Ptr>, tops: seq<nat>, p: nat, nn: Ptr, ps: seq<Ptr>, ss: seq<Ptr>, i: nat,
                lv: nat)
    requires Shape(m, l, tops) && nn !in l && Sides(l, tops, p, ps, ss) && nn in m
    requires Spliced(m, m', nn, ps, ss, m[nn].topLevel)
    requires i < |l| - 1 && lv < tops[i]
    ensures m'[l[i]].next[lv] == if lv < m[nn].topLevel && i == PrevAt(tops, p, lv) then nn else l[NextAt(tops, i, lv)]
  {
    assert m[l[i]].next[lv] == l[NextAt(tops, i, lv)];
    assert Relinked(m[l[i]].next, m'[l[i]].next, l[i], nn, ps, ss, m[nn].topLevel);
    var j := PrevAt(tops, p, lv);
    assert ps[lv] == l[j] && (i != j ==> m[l[i]].key != m[l[j]].key);
  }

  lemma Hop(l: seq<Ptr>, tops: seq<nat>, p: nat, nn: Ptr, top: nat, l': seq<Ptr>, tops': seq<nat>, i: nat, lv: nat)
    requires |l| == |tops| && Inserted(l, l', p, nn) && Inserted(tops, tops', p, top) && tops[0] > lv
    requires tops[|tops| - 1] > lv
    requires i < |l| - 1 && lv < tops[i]
    ensures (if lv < top && i == PrevAt(tops, p, lv) then nn else l[NextAt(tops, i, lv)])
      == l'[NextAt(tops', if i < p then i else i + 1, lv)]
  {
    if i < p {
      NextBefore(tops, tops', p, top, i, lv);
    } else {
      NextAfter(tops, tops', p, top, i, lv);
    }
  }

  lemma HopFromNew(l: seq<Ptr>, tops: seq<nat>, p: nat, nn: Ptr, top: nat, l': seq<Ptr>, tops': seq<nat>, lv: nat)
    requires |l| == |tops| && Inserted(l, l', p, nn) && Inserted(tops, tops', p, top) && tops[|tops| - 1] > lv
    ensures l[NextAt(tops, p - 1, lv)] == l'[NextAt(tops', p, lv)]
  {
    NextAfter(tops, tops', p, top, p - 1, lv);
  }

  lemma NewNext(m: Store, m': Store, nn: Ptr, ps: seq<Ptr>, ss: seq<Ptr>, lv: nat)
    requires nn in m && Spliced(m, m', nn, ps, ss, m[nn].topLevel) && lv < m[nn].topLevel && lv < |m[nn].next|
    ensures |m'[nn].next| == |m[nn].next| && m'[nn].next[lv] == ss[lv]
  {
    assert Relinked(m[nn].next, m'[nn].next, nn, nn, ps, ss, m[nn].topLevel);
  }

  lemma HopOld(m: Store, m': Store, l: seq<Ptr>, tops: seq<nat>, p: nat, nn: Ptr, ps: seq<Ptr>, ss: seq<Ptr>,
               l': seq<Ptr>, tops': seq<nat>, i: nat, lv: nat)
    requires Shape(m, l, tops) && nn !in l && Sides(l, tops, p, ps, ss) && nn in m
    requires Spliced(m, m', nn, ps, ss, m[nn].topLevel)
    requires Inserted(l, l', p, nn) && Inserted(tops, tops', p, m[nn].topLevel) && i < |l| - 1 && lv < tops[i]
    ensures m'[l[i]].next[lv] == l'[NextAt(tops', if i < p then i else i + 1, lv)]
  {
    OldNext(m, m', l, tops, p, nn, ps, ss, i, lv);
    Hop(l, tops, p, nn, m[nn].topLevel, l', tops', i, lv);
  }

  /** Where entry `i` of the longer list comes from. */
  lemma OldEntry(l: seq<Ptr>, tops: seq<nat>, p: nat, nn: Ptr, top: nat, l': seq<Ptr>, tops': seq<nat>, i: nat)
    returns (j: nat)
    requires Inserted(l, l', p, nn) && Inserted(tops, tops', p, top) && |tops| == |l| && i < |l'| - 1 && i != p
    ensures j < |l| - 1 && l'[i] == l[j] && tops'[i] == tops[j] && i == if j < p then j else j + 1
  {
    j := if i < p then i else i - 1;
  }

  lemma PutHop(m: Store, m': Store, l: seq<Ptr>, tops: seq<nat>, p: nat, nn: Ptr, ps: seq<Ptr>, ss: seq<Ptr>,
               l': seq<Ptr>, tops': seq<nat>, i: nat, lv: nat)
    requires Shape(m, l, tops) && Fits(m, l, tops, p, nn) && Sides(l, tops, p, ps, ss)
    requires Spliced(m, m', nn, ps, ss, m[nn].topLevel) && Ranked(m', l', tops')
    requires Inserted(l, l', p, nn) && Inserted(tops, tops', p, m[nn].topLevel) && i < |l'| - 1 && lv < tops'[i]
    ensures m'[l'[i]].next[lv] == l'[NextAt(tops', i, lv)]
  {
    if i == p {
      NewNext(m, m', nn, ps, ss, lv);
      HopFromNew(l, tops, p, nn, m[nn].topLevel, l', tops', lv);
    } else {
      var j := OldEntry(l, tops, p, nn, m[nn].topLevel, l', tops', i);
      HopOld(m, m', l, tops, p, nn, ps, ss, l', tops', j, lv);
    }
  }

  lemma PutShape(m: Store, m': Store, l: seq<Ptr>, tops: seq<nat>, p: nat, nn: Ptr, ps: seq<Ptr>, ss: seq<Ptr>,
                 l': seq<Ptr>, tops': seq<nat>)
    requires Shape(m, l, tops) && Fits(m, l, tops, p, nn) && Sides(l, tops, p, ps, ss)
    requires Spliced(m, m', nn, ps, ss, m[nn].topLevel)
    requires Inserted(l, l', p, nn) && Inserted(tops, tops', p, m[nn].topLevel)
    ensures Shape(m', l', tops')
  {
    assert Ranked(m', l', tops') by {
      PutRanked(m, l, tops, p, nn, l', tops');
      RankedKept(m, m', l', tops', nn, ps, ss, m[nn].topLevel);
    }
    forall i, lv | 0 <= i < |l'| - 1 && 0 <= lv < tops'[i] ensures m'[l'[i]].next[lv] == l'[NextAt(tops', i, lv)] {
      PutHop(m, m', l, tops, p, nn, ps, ss, l', tops', i, lv);
    }
  }

  lemma PutEntries(m: Store, m': Store, l: seq<Ptr>, p: nat, nn: Ptr, l': seq<Ptr>)
    requires Inserted(l, l', p, nn) && nn in m' && m'[nn].counter == 1
    requires forall i :: 0 <= i < |l| ==> l[i] in m && l[i] in m'
    requires forall i :: 0 <= i < |l| ==> m'[l[i]].key == m[l[i]].key && m'[l[i]].counter == m[l[i]].counter
    ensures |l'| >= 2 && (forall i :: 0 <= i < |l'| ==> l'[i] in m')
    ensures Bag(Entries(m', l')) == Bag(Entries(m, l)) + multiset{m'[nn].key}
  {
    forall i | 0 <= i < |l'| ensures l'[i] in m' && (i != p ==> l'[i] == l[if i < p then i else i - 1]) {}
    var es, es' := Entries(m, l), Entries(m', l');
    forall k | 0 <= k < |es'|
      ensures es'[k] == if k < p - 1 then es[k] else if k == p - 1 then Entry(m'[nn].key, 1) else es[k - 1]
    {
    }
    BagPut(es, es', p - 1, m'[nn].key);
  }

  // ---------------------------------------------------------------- counting and taking away

  lemma CounterShape(m: Store, l: seq<Ptr>, tops: seq<nat>, p: nat, n: nat)
    requires Shape(m, l, tops) && p < |l|
    ensures Shape(m[l[p] := m[l[p]].(counter := n)], l, tops)
  {
  }

  lemma Distinct(m: Store, l: seq<Ptr>, tops: seq<nat>, i: nat, j: nat)
    requires Ranked(m, l, tops) && i < |l| && j < |l| && l[i] == l[j]
    ensures i == j
  {
  }

  lemma CounterEntries(m: Store, l: seq<Ptr>, tops: seq<nat>, p: nat, n: nat)
    requires Ranked(m, l, tops) && 0 < p < |l|
    ensures var es, es' := Entries(m, l), Entries(m[l[p] := m[l[p]].(counter := n)], l);
      if p < |l| - 1 then Recounted(es, es', p - 1, n) else es' == es
  {
    forall i | 0 <= i < |l| && l[i] == l[p] ensures i == p { Distinct(m, l, tops, i, p); }
  }

  lemma EntriesIncrease(m: Store, l: seq<Ptr>, tops: seq<nat>)
    requires Ranked(m, l, tops)
    ensures Increasing(Entries(m, l))
  {
  }

  /** Only the last node has the largest key. */
  lemma LastKey(m: Store, l: seq<Ptr>, tops: seq<nat>, p: nat)
    requires Ranked(m, l, tops) && p < |l|
    ensures m[l[p]].key == INT_MAX <==> p == |l| - 1
  {
  }

  lemma CountUp(m: Store, l: seq<Ptr>, tops: seq<nat>, p: nat)
    requires Ranked(m, l, tops) && 0 < p < |l|
    ensures var key := m[l[p]].key;
      Bag(Entries(m[l[p] := m[l[p]].(counter := m[l[p]].counter + 1)], l)) == Bag(Entries(m, l)) + if key < INT_MAX
          then multiset{key} else multiset{}
  {
    var n := m[l[p]].counter;
    CounterEntries(m, l, tops, p, n + 1);
    LastKey(m, l, tops, p);
    if p < |l| - 1 {
      BagUp(Entries(m, l), Entries(m[l[p] := m[l[p]].(counter := n + 1)], l), p - 1);
    }
  }

  /** The nodes before `r` are used up, the others are not. */
  ghost predicate UsedUp(m: Store, l: seq<Ptr>, r: nat) {
    && 0 < r < |l|
    && (forall i :: 0 <= i < |l| ==> l[i] in m)
    && (forall i :: 0 < i < r ==> m[l[i]].counter == 0)
    && (forall i :: r <= i < |l| ==> m[l[i]].counter > 0)
  }

  lemma CountDown(m: Store, m': Store, l: seq<Ptr>, tops: seq<nat>, r: nat)
    requires Ranked(m, l, tops) && UsedUp(m, l, r) && r < |l| - 1
    requires m' == m[l[r] := m[l[r]].(counter := m[l[r]].counter - 1)]
    ensures Bag(Entries(m', l)) == PQ.Apply(Bag(Entries(m, l)), Slots.Remove).0
  {
    CounterEntries(m, l, tops, r, m[l[r]].counter - 1);
    EntriesIncrease(m, l, tops);
    TakeFirst(Entries(m, l), Entries(m', l), r - 1);
  }

  lemma NothingLeft(m: Store, l: seq<Ptr>)
    requires |l| >= 2 && UsedUp(m, l, |l| - 1)
    ensures Bag(Entries(m, l)) == multiset{}
  {
    var es := Entries(m, l);
    forall x ensures CountIn(es, x, |es|) == multiset{}[x] { CountZeros(es, x, |es|); }
    SameBag(es, multiset{});
  }

  /** The list without the positions before `r`, the head excepted. */
  function Rest<T>(s: seq<T>, r: nat): seq<T>
    requires 0 < r <= |s|
  {
    [s[0]] + s[r..]
  }

  /** `s'` is `Rest(s, r)`, said by index. */
  ghost predicate RestAt<T>(s: seq<T>, s': seq<T>, r: nat) {
    && 0 < r < |s| && |s'| == |s| - r + 1
    && s'[0] == s[0] && forall k :: 0 < k < |s'| ==> s'[k] == s[k + r - 1]
  }

  lemma RestBag(m: Store, l: seq<Ptr>, r: nat, l': seq<Ptr>)
    requires |l| >= 2 && UsedUp(m, l, r) && RestAt(l, l', r)
    ensures |l'| >= 2 && (forall i :: 0 <= i < |l'| ==> l'[i] in m) && Bag(Entries(m, l')) == Bag(Entries(m, l))
  {
    forall i | 0 <= i < |l'| ensures l'[i] == l[if i == 0 then 0 else i + r - 1] {}
    BagTail(Entries(m, l), Entries(m, l'), r - 1);
  }

  /** Only `next` fields of the head differ; each of them leads to the first node at or after `r` on its level. */
  ghost predicate HeadRelinked(m: Store, m': Store, l: seq<Ptr>, tops: seq<nat>, r: nat, from: int)
    requires |l| == |tops| && 0 < r < |l| && tops[|l| - 1] == MAX_LEVEL && l[0] in m && l[0] in m' && 0 <= from
  {
    && m' == m[l[0] := m'[l[0]]]
    && m'[l[0]] == m[l[0]].(next := m'[l[0]].next) && |m'[l[0]].next| == |m[l[0]].next| >= MAX_LEVEL
    && (forall lv :: from <= lv < MAX_LEVEL ==> m'[l[0]].next[lv] == l[NextAt(tops, r - 1, lv)])
    && (forall lv :: 0 <= lv < from && lv < MAX_LEVEL ==> m'[l[0]].next[lv] == m[l[0]].next[lv])
  }

  /** Above every used-up node the head already points past them. */
  lemma HighLevels(tops: seq<nat>, r: nat, lv: nat)
    requires 0 < r < |tops| && tops[|tops| - 1] > lv && forall i :: 0 < i < r ==> tops[i] <= lv
    ensures NextAt(tops, 0, lv) == NextAt(tops, r - 1, lv)
  {
    NextIs(tops, 0, lv, NextAt(tops, r - 1, lv));
  }

  lemma RestRanked(m: Store, l: seq<Ptr>, tops: seq<nat>, r: nat, l': seq<Ptr>, tops': seq<nat>)
    requires Ranked(m, l, tops) && RestAt(l, l', r) && RestAt(tops, tops', r)
    ensures Ranked(m, l', tops')
  {
    assert l'[|l'| - 1] == l[|l| - 1] && tops'[|l'| - 1] == tops[|l| - 1];
  }

  lemma RestHop(l: seq<Ptr>, tops: seq<nat>, r: nat, l': seq<Ptr>, tops': seq<nat>, i: nat, lv: nat)
    requires |l| == |tops| && RestAt(l, l', r) && RestAt(tops, tops', r) && tops[|l| - 1] > lv && i < |l'| - 1
    ensures l'[NextAt(tops', i, lv)] == l[NextAt(tops, i + r - 1, lv)]
  {
    NextIs(tops', i, lv, NextAt(tops, i + r - 1, lv) - r + 1);
  }

  lemma RestNext(m: Store, m': Store, l: seq<Ptr>, tops: seq<nat>, r: nat, i: nat, lv: nat)
    requires Shape(m, l, tops) && 0 < r < |l| && l[0] in m' && HeadRelinked(m, m', l, tops, r, 0)
    requires (i == 0 || r <= i < |l| - 1) && lv < tops[i]
    ensures l[i] in m' && lv < |m'[l[i]].next| && m'[l[i]].next[lv] == l[NextAt(tops, if i == 0 then r - 1 else i, lv)]
  {
    if i > 0 {
      assert l[i] != l[0] && m[l[i]].next[lv] == l[NextAt(tops, i, lv)];
    }
  }

  lemma RestShape(m: Store, m': Store, l: seq<Ptr>, tops: seq<nat>, r: nat, l': seq<Ptr>, tops': seq<nat>)
    requires Shape(m, l, tops) && RestAt(l, l', r) && RestAt(tops, tops', r) && l[0] in m'
    requires HeadRelinked(m, m', l, tops, r, 0)
    ensures Shape(m', l', tops')
  {
    assert Ranked(m', l, tops);
    RestRanked(m', l, tops, r, l', tops');
    forall i, lv | 0 <= i < |l'| - 1 && 0 <= lv < tops'[i] ensures m'[l'[i]].next[lv] == l'[NextAt(tops', i, lv)] {
      RestNext(m, m', l, tops, r, if i == 0 then 0 else i + r - 1, lv);
      RestHop(l, tops, r, l', tops', i, lv);
    }
  }

  /** The highest level of a used-up node. */
  ghost predicate TopOf(tops: seq<nat>, r: nat, maxLevel: int) {
    && r <= |tops| && maxLevel <= MAX_LEVEL
    && (if r == 1 then maxLevel == -1 else maxLevel > 0)
    && forall i :: 0 < i < r ==> tops[i] <= maxLevel
  }

  lemma KeyBelow(m: Store, l: seq<Ptr>, tops: seq<nat>, p: nat, key: int)
    requires Ranked(m, l, tops) && p < |l| && key < m[l[p]].key
    ensures key < INT_MAX
  {
    if p < |l| - 1 { assert m[l[p]].key < m[l[|l| - 1]].key; }
  }

  lemma NewFits(m: Store, m': Store, l: seq<Ptr>, tops: seq<nat>, p: nat, nn: Ptr, key: int, top: nat)
    requires Shape(m, l, tops) && 0 < p < |l| && nn !in m && m[l[p - 1]].key < key < m[l[p]].key && 0 < top < MAX_LEVEL
    requires nn in m' && m' == m[nn := m'[nn]] && m'[nn] == Node(key, top, 1, m'[nn].next) && top <= |m'[nn].next|
    ensures Shape(m', l, tops) && Fits(m', l, tops, p, nn)
  {
    assert nn !in l;
  }

  lemma SidesInStore(m: Store, l: seq<Ptr>, tops: seq<nat>, p: nat, nn: Ptr, ps: seq<Ptr>, ss: seq<Ptr>)
    requires Fits(m, l, tops, p, nn) && Sides(l, tops, p, ps, ss)
    ensures forall lv :: 0 <= lv < MAX_LEVEL ==> ps[lv] != nn && ps[lv] in m && lv < |m[ps[lv]].next|
  {
    forall lv | 0 <= lv < MAX_LEVEL ensures ps[lv] != nn && ps[lv] in m && lv < |m[ps[lv]].next| {
      assert ps[lv] == l[PrevAt(tops, p, lv)];
    }
  }

  lemma PutPositive(m: Store, m': Store, l: seq<Ptr>, p: nat, nn: Ptr, l': seq<Ptr>)
    requires Positive(m, l) && Inserted(l, l', p, nn) && nn in m' && m'[nn].counter > 0
    requires forall i :: 0 <= i < |l| ==> l[i] in m' && m'[l[i]].counter == m[l[i]].counter
    ensures Positive(m', l')
  {
    forall i | 0 <= i < |l'| ensures l'[i] in m' && m'[l'[i]].counter > 0 {
      assert i == p || (i < p && l'[i] == l[i]) || (i > p && l'[i] == l[i - 1]);
    }
  }

  lemma PutFormed(m': Store, brk: Ptr, l: seq<Ptr>, p: nat, nn: Ptr, l': seq<Ptr>, tops': seq<nat>)
    requires Shape(m', l', tops') && Inserted(l, l', p, nn) && forall q :: q in m' ==> q < brk
    ensures Formed(m', brk, l[0], l[|l| - 1], l', tops')
  {
    assert l'[0] == l[0] && l'[|l'| - 1] == l[|l| - 1];
  }

  lemma PutKept(m0: Store, m: Store, m': Store, l: seq<Ptr>, tops: seq<nat>, nn: Ptr, ps: seq<Ptr>, ss: seq<Ptr>)
    requires Ranked(m, l, tops) && nn in m && nn !in l && nn !in m0 && m == m0[nn := m[nn]]
    requires Spliced(m, m', nn, ps, ss, m[nn].topLevel)
    ensures forall i :: 0 <= i < |l| ==> l[i] in m0 && l[i] in m'
    ensures forall i :: 0 <= i < |l| ==> m'[l[i]].key == m0[l[i]].key && m'[l[i]].counter == m0[l[i]].counter
    ensures m'[nn].key == m[nn].key && m'[nn].counter == m[nn].counter
  {
  }

  lemma PutCounts(m0: Store, m: Store, m': Store, l: seq<Ptr>, tops: seq<nat>, p: nat, nn: Ptr, ps: seq<Ptr>,
                  ss: seq<Ptr>, l': seq<Ptr>)
    requires Ranked(m, l, tops) && nn in m && nn !in l && nn !in m0 && m == m0[nn := m[nn]]
    requires Spliced(m, m', nn, ps, ss, m[nn].topLevel)
    requires m[nn].counter == 1 && Positive(m0, l) && Inserted(l, l', p, nn)
    ensures Positive(m', l') && Bag(Entries(m', l')) == Bag(Entries(m0, l)) + multiset{m[nn].key}
  {
    PutKept(m0, m, m', l, tops, nn, ps, ss);
    PutPositive(m0, m', l, p, nn, l');
    PutEntries(m0, m', l, p, nn, l');
  }

  lemma PutDone(m0: Store, m: Store, m': Store, l: seq<Ptr>, tops: seq<nat>, p: nat, nn: Ptr, ps: seq<Ptr>,
                ss: seq<Ptr>, brk: Ptr) returns (l': seq<Ptr>, tops': seq<nat>)
    requires Shape(m, l, tops) && Fits(m, l, tops, p, nn) && Sides(l, tops, p, ps, ss)
    requires Spliced(m, m', nn, ps, ss, m[nn].topLevel)
    requires nn !in m0 && m == m0[nn := m[nn]] && m[nn].counter == 1 && Positive(m0, l)
    requires forall q :: q in m ==> q < brk
    ensures ViewOf(m', brk, l[0], l[|l| - 1], l', tops') == Some(Bag(Entries(m0, l)) + multiset{m[nn].key})
  {
    l' := PutIn(l, p, nn);
    tops' := PutIn(tops, p, m[nn].topLevel);
    PutShape(m, m', l, tops, p, nn, ps, ss, l', tops');
    PutFormed(m', brk, l, p, nn, l', tops');
    PutCounts(m0, m, m', l, tops, p, nn, ps, ss, l');
  }

  /** After one count down the front is used up to `r`, or one node further. */
  /** Counting a node down to 0 uses up one node more. */
  lemma CountedUse(m: Store, m': Store, l: seq<Ptr>, tops: seq<nat>, r: nat)
    requires Shape(m, l, tops) && UsedUp(m, l, r) && r < |l| - 1
    requires m' == m[l[r] := m[l[r]].(counter := m[l[r]].counter - 1)]
    ensures UsedUp(m', l, if m'[l[r]].counter == 0 then r + 1 else r) && (r > 0 ==> l[r] != l[0])
  {
    forall i | 0 <= i < |l| && l[i] == l[r] ensures i == r { Distinct(m, l, tops, i, r); }
  }

  lemma Counted(m: Store, m': Store, brk: Ptr, head: Ptr, tail: Ptr, l: seq<Ptr>, tops: seq<nat>, r: nat)
    requires Formed(m, brk, head, tail, l, tops) && UsedUp(m, l, r) && r < |l| - 1
    requires m' == m[l[r] := m[l[r]].(counter := m[l[r]].counter - 1)]
    ensures Formed(m', brk, head, tail, l, tops) && UsedUp(m', l, if m'[l[r]].counter == 0 then r + 1 else r)
    ensures l[r] != l[0] && m'[l[r]].next[0] == l[r + 1] && 0 < m'[l[r]].topLevel == tops[r] <= MAX_LEVEL
  {
    CountedUse(m, m', l, tops, r);
    CounterShape(m, l, tops, r, m[l[r]].counter - 1);
    NextIs(tops, r, 0, r + 1);
    assert m[l[r]].next[0] == l[NextAt(tops, r, 0)];
  }

  lemma HeadStart(m: Store, l: seq<Ptr>, tops: seq<nat>, r: nat, maxLevel: nat)
    requires Shape(m, l, tops) && 0 < r < |l| && TopOf(tops, r, maxLevel)
    ensures HeadRelinked(m, m, l, tops, r, maxLevel)
  {
    forall lv | maxLevel <= lv < MAX_LEVEL ensures m[l[0]].next[lv] == l[NextAt(tops, r - 1, lv)] {
      HighLevels(tops, r, lv);
      assert m[l[0]].next[lv] == l[NextAt(tops, 0, lv)];
    }
    assert m == m[l[0] := m[l[0]]];
  }

  /** The next node of the level, and whether it is used up. */
  lemma HeadRead(m: Store, m': Store, l: seq<Ptr>, tops: seq<nat>, r: nat, i: nat, level: nat)
    requires Shape(m, l, tops) && UsedUp(m, l, r) && level < MAX_LEVEL && l[0] in m'
    requires HeadRelinked(m, m', l, tops, r, level + 1)
    requires i < r && tops[i] > level
    ensures l[i] in m' && level < |m'[l[i]].next| && m'[l[i]].next[level] == l[NextAt(tops, i, level)]
    ensures l[NextAt(tops, i, level)] in m'
    ensures m'[l[NextAt(tops, i, level)]].counter == 0 <==> NextAt(tops, i, level) < r
    ensures NextAt(tops, i, level) >= r ==> NextAt(tops, r - 1, level) == NextAt(tops, i, level)
  {
    var c := NextAt(tops, i, level);
    assert m[l[i]].next[level] == l[c];
    assert m'[l[c]].counter == m[l[c]].counter;
    if c >= r { NextIs(tops, r - 1, level, c); }
  }

  lemma HeadWrite(m: Store, m1: Store, m2: Store, l: seq<Ptr>, tops: seq<nat>, r: nat, level: nat, curr: Ptr)
    requires |l| == |tops| && 0 < r < |l| && tops[|l| - 1] == MAX_LEVEL && l[0] in m && l[0] in m1 && level < MAX_LEVEL
    requires HeadRelinked(m, m1, l, tops, r, level + 1) && curr == l[NextAt(tops, r - 1, level)]
    requires m2 == m1[l[0] := m1[l[0]].(next := m1[l[0]].next[level := curr])]
    ensures HeadRelinked(m, m2, l, tops, r, level)
  {
  }

  lemma RestPositive(m: Store, m': Store, l: seq<Ptr>, r: nat, l': seq<Ptr>)
    requires UsedUp(m, l, r) && m[l[0]].counter > 0 && RestAt(l, l', r) && m'.Keys == m.Keys
    requires forall q :: q in m ==> m'[q].key == m[q].key && m'[q].counter == m[q].counter
    ensures Positive(m', l') && Entries(m', l') == Entries(m, l')
  {
    forall i | 0 <= i < |l'| ensures l'[i] in m' && m'[l'[i]].counter > 0 {
      assert l'[i] == l[if i == 0 then 0 else i + r - 1];
    }
  }

  lemma RestDone(m: Store, m': Store, l: seq<Ptr>, tops: seq<nat>, r: nat, brk: Ptr)
    returns (l': seq<Ptr>, tops': seq<nat>)
    requires |l| > 0 && Formed(m, brk, l[0], l[|l| - 1], l, tops)
    requires UsedUp(m, l, r) && m[l[0]].counter > 0 && l[0] in m' && HeadRelinked(m, m', l, tops, r, 0)
    ensures ViewOf(m', brk, l[0], l[|l| - 1], l', tops') == Some(Bag(Entries(m, l)))
  {
    l', tops' := Rest(l, r), Rest(tops, r);
    RestShape(m, m', l, tops, r, l', tops');
    RestBag(m, l, r, l');
    assert m'.Keys == m.Keys;
    RestPositive(m, m', l, r, l');
    assert Formed(m', brk, l[0], l[|l| - 1], l', tops');
  }

  // ---------------------------------------------------------------- what the scans of a pass ask for

  /** The additions, but for the largest integer. */
  function Kept(xs: seq<int>): multiset<int> { multiset(Enqs(xs))[INT_MAX := 0] }

  /** The word `a` that is left where `x` was read: 0 for an addition, -5 for a removal; other words stay. */
  predicate Answers(x: int, a: int) {
    (x > 0 ==> a == 0) && (x == DEQ_VALUE ==> a == -5) && (x <= 0 && x != DEQ_VALUE ==> a == x)
  }

  predicate Answered(slots: seq<int>, answers: seq<int>) {
    |answers| == |slots| && forall k :: 0 <= k < |slots| ==> Answers(slots[k], answers[k])
  }

  /** No word that a scan leaves is a request: what it leaves, the next scan passes over. */
  lemma NothingAsked(slots: seq<int>, answers: seq<int>, again: seq<int>)
    requires Answered(slots, answers) && Answered(answers, again)
    ensures (forall k :: 0 <= k < |answers| ==> !IsRequest(answers[k])) && again == answers
    ensures Enqs(answers) == [] && Deqs(answers) == 0
  {
    forall k | 0 <= k < |answers| ensures !IsRequest(answers[k]) && again[k] == answers[k] {
      assert Answers(slots[k], answers[k]) && Answers(answers[k], again[k]);
    }
    NoneAsked(answers);
  }

  lemma {:induction false} NoneAsked(xs: seq<int>)
    requires forall k :: 0 <= k < |xs| ==> !IsRequest(xs[k])
    ensures Enqs(xs) == [] && Deqs(xs) == 0
  {
    if xs != [] {
      NoneAsked(xs[..|xs| - 1]);
    }
  }

  predicate AllAnswered(scans: seq<seq<int>>, answers: seq<seq<int>>) {
    |answers| == |scans| && forall i :: 0 <= i < |scans| ==> Answered(scans[i], answers[i])
  }

  lemma AnsweredMore(scans: seq<seq<int>>, i: nat, answers: seq<seq<int>>, a: seq<int>)
    requires i < |scans| && AllAnswered(scans[..i], answers) && Answered(scans[i], a)
    ensures AllAnswered(scans[..i + 1], answers + [a])
  {
    forall j | 0 <= j < i + 1 ensures Answered(scans[..i + 1][j], (answers + [a])[j]) {
      if j < i { assert Answered(scans[..i][j], answers[j]); }
    }
  }

  lemma KeptAdd(e: seq<int>, x: int)
    ensures multiset(e + [x])[INT_MAX := 0] == if x != INT_MAX then multiset(e)[INT_MAX := 0] + multiset{x}
      else multiset(e)[INT_MAX := 0]
  {
    assert multiset(e + [x]) == multiset(e) + multiset{x};
    var a, b := multiset(e + [x])[INT_MAX := 0], if x != INT_MAX then multiset(e)[INT_MAX := 0] + multiset{x}
      else multiset(e)[INT_MAX := 0];
    forall k ensures a[k] == b[k] {}
  }

  lemma KeptSnoc(xs: seq<int>, x: int)
    ensures Kept(xs + [x]) == if NULL_VALUE < x != INT_MAX then Kept(xs) + multiset{x} else Kept(xs)
    ensures Deqs(xs + [x]) == Deqs(xs) + if x == DEQ_VALUE then 1 else 0
  {
    Snoc(xs, x);
    if x > NULL_VALUE { KeptAdd(Enqs(xs), x); }
  }

  lemma KeptNone(s: multiset<int>, xs: seq<int>)
    requires xs == []
    ensures s + Kept(xs) == s && Deqs(xs) == 0
  {
  }

  lemma KeptMore(s: multiset<int>, slots: seq<int>, k: nat, answers: seq<int>, a: int)
    requires k < |slots| && Answered(slots[..k], answers) && Answers(slots[k], a)
    ensures var x := slots[k];
      && (x > NULL_VALUE ==> s + Kept(slots[..k + 1]) == (s + Kept(slots[..k])) + (if x != INT_MAX then multiset{x}
         else multiset{}))
      && (x <= NULL_VALUE ==> s + Kept(slots[..k + 1]) == s + Kept(slots[..k]))
      && Deqs(slots[..k + 1]) == Deqs(slots[..k]) + (if x == DEQ_VALUE then 1 else 0)
      && Answered(slots[..k + 1], answers + [a])
  {
    assert slots[..k + 1] == slots[..k] + [slots[k]];
    KeptSnoc(slots[..k], slots[k]);
  }

  lemma KeptConcat(s: multiset<int>, scans: seq<seq<int>>, i: nat)
    requires i < |scans|
    ensures s + Kept(Flat(scans[..i + 1])) == (s + Kept(Flat(scans[..i]))) + Kept(scans[i])
    ensures Deqs(Flat(scans[..i + 1])) == Deqs(Flat(scans[..i])) + Deqs(scans[i])
  {
    assert scans[..i + 1][..i] == scans[..i];
    Concat(Flat(scans[..i]), scans[i]);
  }

  class SkipList {
    var mem: Store
    var brk: Ptr                 // addresses from here on have never been used
    const head: Ptr
    const tail: Ptr
    const preds: array<Ptr>
    const succs: array<Ptr>
    ghost var list: seq<Ptr>
    ghost var tops: seq<nat>

    predicate ArraysOk() { preds != succs && preds.Length == succs.Length == MAX_LEVEL + 1 }

    ghost predicate Core()
      reads this
    {
      ArraysOk() && Formed(mem, brk, head, tail, list, tops)
    }

    ghost function Contents(): multiset<int>
      reads this
      requires Core()
    {
      Bag(Entries(mem, list))
    }

    /** What the list holds, if it is well formed. */
    ghost function View(): Option<multiset<int>>
      reads this
    {
      if ArraysOk() then ViewOf(mem, brk, head, tail, list, tops) else None
    }

    ghost predicate Valid()
      reads this
    {
      View().Some?
    }

    constructor ()
      ensures View() == Some(multiset{}) && fresh(preds) && fresh(succs)
    {
      var next := seq(MAX_LEVEL + 1, i => 1);
      var garbage := new Ptr[MAX_LEVEL + 1];
      mem := map[0 := Node(INT_MIN, MAX_LEVEL, 1, next), 1 := Node(INT_MAX, MAX_LEVEL, 1, garbage[..])];
      brk, head, tail := 2, 0, 1;
      preds := new Ptr[MAX_LEVEL + 1];
      succs := new Ptr[MAX_LEVEL + 1];
      list, tops := [0, 1], [MAX_LEVEL, MAX_LEVEL];
    }

    /** Lines 106-111: along one level, up to the last node with a smaller key. */
    method Walk(from: Ptr, level: nat, key: int, ghost start: nat, ghost p: nat)
      returns (pred: Ptr, curr: Ptr, ghost i: nat)
      requires Core() && level < MAX_LEVEL && 0 < p < |list|
      requires mem[list[p - 1]].key < key <= mem[list[p]].key <= INT_MAX
      requires start < |list| - 1 && from == list[start] && mem[from].key < key && tops[start] > level
      ensures i < p && pred == list[i] && tops[i] > level && PrevAt(tops, p, level) == i && mem[pred].key < key
      ensures curr == list[NextAt(tops, p - 1, level)] && curr in mem
      ensures if level == 0 then curr == list[p] else mem[curr].key == key ==> curr == list[p]
    {
      i := start;
      pred := from;
      curr := mem[pred].next[level];
      while key > mem[curr].key
        invariant 0 <= i < |list| - 1 && pred == list[i] && mem[list[i]].key < key && tops[i] > level
        invariant curr == list[NextAt(tops, i, level)]
        decreases |list| - i
      {
        i := NextAt(tops, i, level);
        pred := curr;
        curr := mem[pred].next[level];
      }
      Stopped(mem, list, tops, key, p, i, level);
    }

    /** Lines 106-118: one level. */
    method FindLevel(from: Ptr, level: nat, key: int, found: Option<Ptr>, ghost start: nat, ghost p: nat)
      returns (pred: Ptr, found': Option<Ptr>, ghost i: nat)
      requires Core() && level < MAX_LEVEL && 0 < p < |list|
      requires mem[list[p - 1]].key < key <= mem[list[p]].key <= INT_MAX
      requires start < |list| - 1 && from == list[start] && mem[from].key < key && tops[start] > level
      requires SidesFrom(list, tops, p, preds[..], succs[..], level + 1)
      requires found.Some? ==> mem[list[p]].key == key && found == Some(list[p])
      modifies preds, succs
      ensures SidesFrom(list, tops, p, preds[..], succs[..], level)
      ensures i < |list| - 1 && pred == list[i] && tops[i] > level && mem[pred].key < key
      ensures found'.Some? ==> mem[list[p]].key == key && found' == Some(list[p])
      ensures level == 0 && found'.None? ==> mem[list[p]].key != key
    {
      var curr;
      pred, curr, i := Walk(from, level, key, start, p);
      found' := if found.None? && key == mem[curr].key then Some(curr) else found;
      ghost var ps, ss := preds[..], succs[..];
      SidesMore(list, tops, p, ps, ss, level, pred, curr);
      preds[level] := pred;
      succs[level] := curr;
      assert preds[..] == ps[level := pred] && succs[..] == ss[level := curr];
    }

    /** Lines 98-122: the neighbours of `key` on every level, and its node if there is one. */
    method Find(key: int) returns (found: Option<Ptr>, ghost p: nat)
      requires Core() && INT_MIN < key <= INT_MAX
      modifies preds, succs
      ensures 0 < p < |list| && mem[list[p - 1]].key < key <= mem[list[p]].key
      ensures found == if mem[list[p]].key == key then Some(list[p]) else None
      ensures Sides(list, tops, p, preds[..], succs[..])
    {
      p := Position(mem, list, tops, key);
      var pred := head;
      ghost var i := 0;
      found := None;
      var level := MAX_LEVEL - 1;
      while level >= 0
        invariant -1 <= level < MAX_LEVEL
        invariant 0 <= i < |list| - 1 && pred == list[i] && mem[pred].key < key && (level >= 0 ==> tops[i] > level)
        invariant found.Some? ==> mem[list[p]].key == key && found == Some(list[p])
        invariant found.None? && level < 0 ==> mem[list[p]].key != key
        invariant SidesFrom(list, tops, p, preds[..], succs[..], level + 1)
      {
        pred, found, i := FindLevel(pred, level, key, found, i, p);
        level := level - 1;
      }
    }

    /** `Node::getNewNode(key, height)`. Only the `next` fields below the height are there, and they are whatever the
        memory held; so no access is at or above a node's height. */
    method GetNewNode(key: int, height: nat) returns (nn: Ptr)
      requires forall p :: p in mem ==> p < brk
      modifies this`mem, this`brk
      ensures nn == old(brk) && nn !in old(mem) && brk == nn + 1
      ensures exists g: seq<Ptr> :: |g| == height && mem == old(mem)[nn := Node(key, height, 1, g)]
    {
      var garbage := new Ptr[height];
      nn := brk;
      brk := brk + 1;
      mem := mem[nn := Node(key, height, 1, garbage[..])];
    }

    /** Lines 158-164: relink around the new node, level by level. */
    method Splice(nn: Ptr, topLevel: nat)
      requires topLevel < MAX_LEVEL && nn in mem && topLevel <= |mem[nn].next|
      requires preds.Length == succs.Length == MAX_LEVEL + 1
      requires forall lv :: 0 <= lv < topLevel ==> preds[lv] != nn && preds[lv] in mem && lv < |mem[preds[lv]].next|
      modifies this`mem
      ensures Spliced(old(mem), mem, nn, preds[..], succs[..], topLevel)
    {
      for level := 0 to topLevel
        invariant Spliced(old(mem), mem, nn, preds[..], succs[..], level)
      {
        ghost var m := mem;
        mem := mem[nn := mem[nn].(next := mem[nn].next[level := succs[level]])];
        mem := mem[preds[level] := mem[preds[level]].(next := mem[preds[level]].next[level := nn])];
        SpliceMore(old(mem), m, mem, nn, preds[..], succs[..], level);
      }
    }

    method NewNode(key: int, topLevel: nat, ghost p: nat) returns (nn: Ptr)
      requires Core() && 0 < topLevel < MAX_LEVEL && 0 < p < |list| && mem[list[p - 1]].key < key < mem[list[p]].key
      modifies this`mem, this`brk
      ensures Core() && nn !in old(mem) && Fits(mem, list, tops, p, nn) && mem == old(mem)[nn := mem[nn]]
      ensures mem[nn] == Node(key, topLevel, 1, mem[nn].next)
    {
      nn := GetNewNode(key, topLevel);
      NewFits(old(mem), mem, list, tops, p, nn, key, topLevel);
    }

    /** Lines 153-164: a new node of the pass's height, on all its levels. */
    method Insert(key: int, topLevel: nat, ghost p: nat)
      requires Valid() && 0 < topLevel < MAX_LEVEL && 0 < p < |list| && mem[list[p - 1]].key < key < mem[list[p]].key
      requires Sides(list, tops, p, preds[..], succs[..])
      modifies this`mem, this`brk, this`list, this`tops
      ensures View() == Some(old(Contents()) + multiset{key}) && key < INT_MAX
    {
      ghost var ps, ss := preds[..], succs[..];
      KeyBelow(mem, list, tops, p, key);
      var nn := NewNode(key, topLevel, p);
      ghost var m := mem;
      SidesInStore(m, list, tops, p, nn, ps, ss);
      Splice(nn, topLevel);
      ghost var l', tops' := PutDone(old(mem), m, mem, list, tops, p, nn, ps, ss, brk);
      list, tops := l', tops';
    }

    /** Line 146. */
    method CountMore(q: Ptr, ghost p: nat)
      requires Valid() && 0 < p < |list| && q == list[p]
      modifies this`mem
      ensures View() == Some(old(Contents()) + if old(mem)[q].key < INT_MAX then multiset{old(mem)[q].key}
        else multiset{})
    {
      CounterShape(mem, list, tops, p, mem[q].counter + 1);
      CountUp(mem, list, tops, p);
      mem := mem[q := mem[q].(counter := mem[q].counter + 1)];
    }

    /** Lines 144-167. The largest integer is the key of the tail: adding it counts there and is lost. */
    method Add(key: int, topLevel: nat)
      requires View().Some? && 0 < topLevel < MAX_LEVEL && NULL_VALUE < key <= INT_MAX
      modifies this`mem, this`brk, this`list, this`tops, preds, succs
      ensures View() == Some(old(View().value) + if key < INT_MAX then multiset{key} else multiset{})
    {
      ghost var p;
      var found;
      found, p := Find(key);
      if found.Some? {
        CountMore(found.value, p);
      } else {
        Insert(key, topLevel, p);
      }
    }

    /** Line 198. */
    method CountOff(node: Ptr, ghost r: nat)
      requires Core() && UsedUp(mem, list, r) && r < |list| - 1 && node == list[r]
      modifies this`mem
      ensures Core() && node in mem && UsedUp(mem, list, if mem[node].counter == 0 then r + 1 else r)
      ensures mem[node].next[0] == list[r + 1] && 0 < mem[node].topLevel == tops[r] <= MAX_LEVEL
      ensures mem[head].counter == old(mem[head].counter) && Contents() == PQ.Apply(old(Contents()), Slots.Remove).0
    {
      var m' := mem[node := mem[node].(counter := mem[node].counter - 1)];
      CountDown(mem, m', list, tops, r);
      Counted(mem, m', brk, head, tail, list, tops, r);
      mem := m';
    }

    /** Lines 197-205: one removal. */
    method TakeOne(node: Ptr, maxLevel: int, ghost r: nat) returns (node': Ptr, maxLevel': int, ghost r': nat)
      requires Core() && UsedUp(mem, list, r) && node == list[r] && TopOf(tops, r, maxLevel)
      modifies this`mem
      ensures Core() && UsedUp(mem, list, r') && node' == list[r'] && TopOf(tops, r', maxLevel')
      ensures mem[head].counter == old(mem[head].counter) && Contents() == PQ.Apply(old(Contents()), Slots.Remove).0
    {
      node', maxLevel', r' := node, maxLevel, r;
      if tail != node {
        CountOff(node, r);
        if 0 == mem[node].counter {
          if mem[node].topLevel > maxLevel {
            maxLevel' := mem[node].topLevel;
          }
          node' := mem[node].next[0];
          r' := r + 1;
        }
      } else {
        Distinct(mem, list, tops, r, |list| - 1);
        NothingLeft(mem, list);
      }
    }

    /** Lines 193-206: count down from the front. */
    method CountDownFront(numRemoved: nat) returns (maxLevel: int, ghost r: nat)
      requires Valid()
      modifies this`mem
      ensures Core() && UsedUp(mem, list, r) && TopOf(tops, r, maxLevel)
      ensures mem[head].counter > 0 && Contents() == WithoutSmallest(old(Contents()), numRemoved)
    {
      var node := mem[head].next[0];
      r := 1;
      maxLevel := -1;
      for k := 0 to numRemoved
        invariant Core() && UsedUp(mem, list, r) && node == list[r] && TopOf(tops, r, maxLevel) && mem[head].counter > 0
        invariant Contents() == WithoutSmallest(old(Contents()), k)
      {
        node, maxLevel, r := TakeOne(node, maxLevel, r);
      }
    }

    /** Lines 208-224: down from the highest used-up level, the head is linked to the first node that still counts. */
    method UnlinkFront(maxLevel: nat, ghost r: nat)
      requires Core() && UsedUp(mem, list, r) && TopOf(tops, r, maxLevel)
      modifies this`mem
      ensures head in mem && HeadRelinked(old(mem), mem, list, tops, r, 0)
    {
      var pred, level := head, maxLevel - 1;
      ghost var i := 0;
      HeadStart(mem, list, tops, r, maxLevel);
      while level >= 0
        invariant -1 <= level < MAX_LEVEL && head in mem && HeadRelinked(old(mem), mem, list, tops, r, level + 1)
        invariant 0 <= i < r && pred == list[i] && (level >= 0 ==> tops[i] > level)
        decreases level, r - i
      {
        HeadRead(old(mem), mem, list, tops, r, i, level);
        var curr := mem[pred].next[level];
        if 0 != mem[curr].counter {
          ghost var m := mem;
          mem := mem[head := mem[head].(next := mem[head].next[level := curr])];
          HeadWrite(old(mem), m, mem, list, tops, r, level, curr);
          level := level - 1;
        } else {
          pred := curr;
          i := NextAt(tops, i, level);
        }
      }
    }

    /** Lines 208-224, and the list that is left. */
    method Unlink(maxLevel: nat, ghost r: nat)
      requires Core() && UsedUp(mem, list, r) && TopOf(tops, r, maxLevel) && mem[head].counter > 0
      modifies this`mem, this`list, this`tops
      ensures View() == Some(old(Contents()))
    {
      ghost var m := mem;
      UnlinkFront(maxLevel, r);
      ghost var l', tops' := RestDone(m, mem, list, tops, r, brk);
      list, tops := l', tops';
    }

    /** Lines 193-225: the removals of the pass, in one sweep from the front. */
    method RemoveFront(numRemoved: nat)
      requires View().Some?
      modifies this`mem, this`list, this`tops
      ensures View() == Some(WithoutSmallest(old(View().value), numRemoved))
    {
      var maxLevel;
      ghost var r;
      maxLevel, r := CountDownFront(numRemoved);
      if -1 != maxLevel {
        Unlink(maxLevel, r);
      }
    }

    /** Lines 131-186: one scan of the slots. */
    method Scan(slots: seq<Int32>, topLevel: nat, numRemoved: nat) returns (answers: seq<int>, numRemoved': nat)
      requires View().Some? && 0 < topLevel < MAX_LEVEL
      modifies this`mem, this`brk, this`list, this`tops, preds, succs
      ensures View() == Some(old(View().value) + Kept(slots)) && numRemoved' == numRemoved + Deqs(slots)
      ensures Answered(slots, answers)
    {
      answers, numRemoved' := [], numRemoved;
      ghost var start := View().value;
      KeptNone(start, slots[..0]);
      for k := 0 to |slots|
        invariant View() == Some(start + Kept(slots[..k])) && numRemoved' == numRemoved + Deqs(slots[..k])
        invariant Answered(slots[..k], answers)
      {
        var x := slots[k];
        var a := if x > NULL_VALUE then NULL_VALUE else if x == DEQ_VALUE then -5 else x;
        KeptMore(start, slots, k, answers, a);
        if x > NULL_VALUE {
          Add(x, topLevel);
        } else if x == DEQ_VALUE {
          numRemoved' := numRemoved' + 1;
        }
        answers := answers + [a];
      }
      assert slots[..|slots|] == slots;
    }

    /** Lines 129-190: all scans of the pass. */
    method Scans(scans: seq<seq<Int32>>, topLevel: nat) returns (answers: seq<seq<int>>, numRemoved: nat)
      requires View().Some? && 0 < topLevel < MAX_LEVEL
      modifies this`mem, this`brk, this`list, this`tops, preds, succs
      ensures View() == Some(old(View().value) + Kept(Flat(scans))) && numRemoved == Deqs(Flat(scans))
      ensures AllAnswered(scans, answers)
    {
      answers, numRemoved := [], 0;
      ghost var start := View().value;
      KeptNone(start, Flat(scans[..0]));
      for i := 0 to |scans|
        invariant View() == Some(start + Kept(Flat(scans[..i]))) && numRemoved == Deqs(Flat(scans[..i]))
        invariant AllAnswered(scans[..i], answers)
      {
        var a;
        a, numRemoved := Scan(scans[i], topLevel, numRemoved);
        KeptConcat(start, scans, i);
        AnsweredMore(scans, i, answers, a);
        answers := answers + [a];
      }
      assert scans[..|scans|] == scans;
    }

    /** The pass: whatever the scans read, all additions but those of the largest integer come in, then as many of
        the smallest values leave as removals were read, or all. `topLevel` is what `randomLevel` returned. */
    method FlatCombining(scans: seq<seq<Int32>>, topLevel: nat) returns (answers: seq<seq<int>>)
      requires View().Some? && 0 < topLevel < MAX_LEVEL
      modifies this`mem, this`brk, this`list, this`tops, preds, succs
      ensures View() == Some(WithoutSmallest(old(View().value) + Kept(Flat(scans)), Deqs(Flat(scans))))
      ensures AllAnswered(scans, answers)
    {
      var numRemoved;
      answers, numRemoved := Scans(scans, topLevel);
      RemoveFront(numRemoved);
    }
  }
}
