/**
 The sequential sorted linked list of All_Summer2017/Linked_List_b/00mine/LinkedList.h, the kind of list
 that the trace checker replays logs on.

 Nodes live in a store keyed by address; `delete` takes an address out of the store, so every access
 below is proved to hit a live node. The loops are bounded by `listSize`, as in the source, and never
 run off the end because `listSize` is the length of the list.
 */
module SortedList {
  import opened Options

  type Ptr = nat

  datatype Node = Node(data: int, next: Option<Ptr>)

  type Store = map<Ptr, Node>

  /** The pointer to the i-th node, or null at the end. */
  function LinkTo(ps: seq<Ptr>, i: nat): Option<Ptr> { if i < |ps| then Some(ps[i]) else None }

  ghost predicate Sorted(xs: seq<int>) { forall i, j :: 0 <= i < j < |xs| ==> xs[i] < xs[j] }

  ghost predicate Distinct(ps: seq<Ptr>) { forall i, j :: 0 <= i < j < |ps| ==> ps[i] != ps[j] }

  ghost predicate NodeAt(m: Store, ps: seq<Ptr>, xs: seq<int>, i: nat)
    requires i < |ps| == |xs|
  {
    ps[i] in m && m[ps[i]] == Node(xs[i], LinkTo(ps, i + 1))
  }

  ghost predicate Linked(m: Store, head: Option<Ptr>, ps: seq<Ptr>, xs: seq<int>) {
    && |ps| == |xs| && head == LinkTo(ps, 0)
    && (forall i {:trigger NodeAt(m, ps, xs, i)} :: 0 <= i < |ps| ==> NodeAt(m, ps, xs, i))
  }

  /** `ps` are the nodes and `xs` their values, strictly increasing. */
  ghost predicate Shape(m: Store, head: Option<Ptr>, ps: seq<Ptr>, xs: seq<int>) {
    Linked(m, head, ps, xs) && Distinct(ps) && Sorted(xs)
  }

  ghost function Elems(xs: seq<int>): set<int> { set x | x in xs }

  /** `s'` is `s` with `x` put in at `i`. */
  ghost predicate PutAt<T>(s: seq<T>, s': seq<T>, i: nat, x: T) {
    && i <= |s| && |s'| == |s| + 1 && s'[i] == x
    && (forall k :: 0 <= k < i ==> s'[k] == s[k])
    && (forall k :: i < k < |s'| ==> s'[k] == s[k - 1])
  }

  /** `s'` is `s` without position `i`. */
  ghost predicate CutAt<T>(s: seq<T>, s': seq<T>, i: nat) {
    && i < |s| && |s'| == |s| - 1
    && (forall k :: 0 <= k < i ==> s'[k] == s[k])
    && (forall k :: i <= k < |s'| ==> s'[k] == s[k + 1])
  }

  /** The store with a new node in front of position `i`. */
  function LinkedIn(m: Store, ps: seq<Ptr>, i: nat, nn: Ptr, x: int): Store
    requires i <= |ps| && (i > 0 ==> ps[i - 1] in m)
  {
    var m' := m[nn := Node(x, LinkTo(ps, i))];
    if i == 0 then m' else m'[ps[i - 1] := m[ps[i - 1]].(next := Some(nn))]
  }

  lemma PutLink(m: Store, ps: seq<Ptr>, xs: seq<int>, i: nat, nn: Ptr, x: int, ps': seq<Ptr>, xs': seq<int>, k: nat)
    requires |ps| == |xs| && Distinct(ps) && nn !in m && PutAt(ps, ps', i, nn) && PutAt(xs, xs', i, x) && k < |ps'|
    requires i > 0 ==> NodeAt(m, ps, xs, i - 1)
    requires k != i ==> NodeAt(m, ps, xs, if k < i then k else k - 1)
    ensures NodeAt(LinkedIn(m, ps, i, nn, x), ps', xs', k)
  {
    if k + 1 < |ps'| && k + 1 > i { assert ps'[k + 1] == ps[k]; }
  }

  lemma PutShape(m: Store, head: Option<Ptr>, ps: seq<Ptr>, xs: seq<int>, i: nat, nn: Ptr, x: int, ps': seq<Ptr>,
                 xs': seq<int>)
    requires Shape(m, head, ps, xs) && nn !in m && PutAt(ps, ps', i, nn) && PutAt(xs, xs', i, x) && Fits(xs, i, x)
    ensures (i > 0 ==> ps[i - 1] in m) && Linked(LinkedIn(m, ps, i, nn, x), if i == 0 then Some(nn) else head, ps', xs')
    ensures Distinct(ps')
  {
    if i > 0 { assert NodeAt(m, ps, xs, i - 1); }
    var m' := LinkedIn(m, ps, i, nn, x);
    forall k | 0 <= k < |ps'| ensures NodeAt(m', ps', xs', k) {
      if k != i { assert NodeAt(m, ps, xs, if k < i then k else k - 1); }
      PutLink(m, ps, xs, i, nn, x, ps', xs', k);
    }
    forall k | 0 <= k < |ps| ensures ps[k] != nn { assert NodeAt(m, ps, xs, k); }
  }

  /** The place of `x` in the order. */
  ghost predicate Fits(xs: seq<int>, i: nat, x: int) {
    i <= |xs| && (i > 0 ==> xs[i - 1] < x) && (i < |xs| ==> x < xs[i])
  }

  lemma PutSorted(xs: seq<int>, i: nat, x: int, xs': seq<int>)
    requires Sorted(xs) && PutAt(xs, xs', i, x) && Fits(xs, i, x)
    ensures Sorted(xs')
  {
    forall j, k | 0 <= j < k < |xs'| ensures xs'[j] < xs'[k] {
      if j == i {
        assert k - 1 == i || xs[i] < xs[k - 1];
      } else if k == i {
        assert j == i - 1 || xs[j] < xs[i - 1];
      }
    }
  }

  lemma PutElems<T>(s: seq<T>, i: nat, x: T, s': seq<T>)
    requires PutAt(s, s', i, x)
    ensures forall y :: y in s' <==> y in s || y == x
  {
    forall y | y in s ensures y in s' {
      var k :| 0 <= k < |s| && s[k] == y;
      assert s'[if k < i then k else k + 1] == y;
    }
  }

  /** The store without the node at position `i`. */
  function LinkedOut(m: Store, ps: seq<Ptr>, i: nat): Store
    requires i < |ps| && (i > 0 ==> ps[i - 1] in m)
  {
    (if i == 0 then m else m[ps[i - 1] := m[ps[i - 1]].(next := LinkTo(ps, i + 1))]) - {ps[i]}
  }

  lemma CutLink(m: Store, ps: seq<Ptr>, xs: seq<int>, i: nat, ps': seq<Ptr>, xs': seq<int>, k: nat)
    requires |ps| == |xs| && Distinct(ps) && CutAt(ps, ps', i) && CutAt(xs, xs', i) && k < |ps'|
    requires NodeAt(m, ps, xs, if k < i then k else k + 1) && (i > 0 ==> NodeAt(m, ps, xs, i - 1))
    ensures NodeAt(LinkedOut(m, ps, i), ps', xs', k)
  {
    if k + 1 < |ps'| && k + 1 >= i { assert ps'[k + 1] == ps[k + 2]; }
  }

  lemma CutShape(m: Store, head: Option<Ptr>, ps: seq<Ptr>, xs: seq<int>, i: nat, ps': seq<Ptr>, xs': seq<int>)
    requires Shape(m, head, ps, xs) && CutAt(ps, ps', i) && CutAt(xs, xs', i)
    ensures (i > 0 ==> ps[i - 1] in m) && Shape(LinkedOut(m, ps, i), if i == 0 then LinkTo(ps, 1) else head, ps', xs')
  {
    if i > 0 { assert NodeAt(m, ps, xs, i - 1); }
    var m' := LinkedOut(m, ps, i);
    forall k | 0 <= k < |ps'| ensures NodeAt(m', ps', xs', k) {
      assert NodeAt(m, ps, xs, if k < i then k else k + 1);
      CutLink(m, ps, xs, i, ps', xs', k);
    }
  }

  lemma CutElems<T>(s: seq<T>, i: nat, s': seq<T>)
    requires CutAt(s, s', i) && forall j, k :: 0 <= j < k < |s| ==> s[j] != s[k]
    ensures forall y :: y in s' <==> y in s && y != s[i]
  {
    forall y | y in s && y != s[i] ensures y in s' {
      var k :| 0 <= k < |s| && s[k] == y;
      assert s'[if k < i then k else k - 1] == y;
    }
  }

  /** The value is nowhere, once it would have had to come earlier. */
  lemma Absent(xs: seq<int>, i: nat, x: int)
    requires Sorted(xs) && Fits(xs, i, x)
    ensures x !in Elems(xs)
  {
    forall k | 0 <= k < |xs| ensures xs[k] != x {
      if k < i { assert k == i - 1 || xs[k] < xs[i - 1]; } else { assert k == i || xs[i] < xs[k]; }
    }
  }

  /** The set a list stands for, if it is well formed; exactly the nodes of the list are allocated. */
  ghost predicate Formed(m: Store, brk: Ptr, head: Option<Ptr>, listSize: int, ps: seq<Ptr>, xs: seq<int>) {
    && Shape(m, head, ps, xs) && listSize == |xs|
    && (forall p :: p in m <==> p in ps) && (forall p :: p in m ==> p < brk)
  }

  ghost function ViewOf(m: Store, brk: Ptr, head: Option<Ptr>, listSize: int, ps: seq<Ptr>,
                        xs: seq<int>): Option<set<int>> {
    if Formed(m, brk, head, listSize, ps, xs) then Some(Elems(xs)) else None
  }

  lemma PutIs<T>(s: seq<T>, i: nat, x: T)
    requires i <= |s|
    ensures PutAt(s, s[..i] + [x] + s[i..], i, x)
  {
  }

  lemma CutIs<T>(s: seq<T>, i: nat)
    requires i < |s|
    ensures CutAt(s, s[..i] + s[i + 1..], i)
  {
  }

  lemma PutFormed(m: Store, brk: Ptr, head: Option<Ptr>, n: int, ps: seq<Ptr>, xs: seq<int>, i: nat, x: int,
                  ps': seq<Ptr>, xs': seq<int>)
    requires Formed(m, brk, head, n, ps, xs) && Fits(xs, i, x) && PutAt(ps, ps', i, brk) && PutAt(xs, xs', i, x)
    ensures (i > 0 ==> ps[i - 1] in m)
    ensures Formed(LinkedIn(m, ps, i, brk, x), brk + 1, if i == 0 then Some(brk) else head, n + 1, ps', xs')
  {
    PutShape(m, head, ps, xs, i, brk, x, ps', xs');
    PutSorted(xs, i, x, xs');
    PutElems(ps, i, brk, ps');
  }

  lemma PutDone(m: Store, brk: Ptr, head: Option<Ptr>, n: int, ps: seq<Ptr>, xs: seq<int>, i: nat, x: int)
    returns (ps': seq<Ptr>, xs': seq<int>)
    requires Formed(m, brk, head, n, ps, xs) && Fits(xs, i, x)
    ensures i > 0 ==> ps[i - 1] in m
    ensures ViewOf(LinkedIn(m, ps, i, brk, x), brk + 1, if i == 0 then Some(brk) else head, n + 1, ps', xs')
      == Some(Elems(xs) + {x})
  {
    ps', xs' := ps[..i] + [brk] + ps[i..], xs[..i] + [x] + xs[i..];
    PutIs(ps, i, brk);
    PutIs(xs, i, x);
    PutFormed(m, brk, head, n, ps, xs, i, x, ps', xs');
    assert Elems(xs') == Elems(xs) + {x} by { PutElems(xs, i, x, xs'); }
  }

  lemma CutFormed(m: Store, brk: Ptr, head: Option<Ptr>, n: int, ps: seq<Ptr>, xs: seq<int>, i: nat, ps': seq<Ptr>,
                  xs': seq<int>)
    requires Formed(m, brk, head, n, ps, xs) && CutAt(ps, ps', i) && CutAt(xs, xs', i)
    ensures (i > 0 ==> ps[i - 1] in m)
    ensures Formed(LinkedOut(m, ps, i), brk, if i == 0 then LinkTo(ps, 1) else head, n - 1, ps', xs')
  {
    CutShape(m, head, ps, xs, i, ps', xs');
    CutElems(ps, i, ps');
  }

  lemma CutDone(m: Store, brk: Ptr, head: Option<Ptr>, n: int, ps: seq<Ptr>, xs: seq<int>, i: nat)
    returns (ps': seq<Ptr>, xs': seq<int>)
    requires Formed(m, brk, head, n, ps, xs) && i < |xs|
    ensures i > 0 ==> ps[i - 1] in m
    ensures ViewOf(LinkedOut(m, ps, i), brk, if i == 0 then LinkTo(ps, 1) else head, n - 1, ps', xs')
      == Some(Elems(xs) - {xs[i]})
  {
    ps', xs' := ps[..i] + ps[i + 1..], xs[..i] + xs[i + 1..];
    CutIs(ps, i);
    CutIs(xs, i);
    CutFormed(m, brk, head, n, ps, xs, i, ps', xs');
    assert Elems(xs') == Elems(xs) - {xs[i]} by { CutElems(xs, i, xs'); }
  }

  class LinkedList {
    var mem: Store
    var brk: Ptr                // addresses from here on have never been used
    var head: Option<Ptr>
    var listSize: int
    ghost var ps: seq<Ptr>
    ghost var xs: seq<int>

    ghost predicate Valid()
      reads this
    {
      Formed(mem, brk, head, listSize, ps, xs)
    }

    ghost function View(): Option<set<int>>
      reads this
    {
      ViewOf(mem, brk, head, listSize, ps, xs)
    }

    constructor ()
      ensures View() == Some({})
    {
      mem, brk := map[], 0;
      listSize := 0;
      head := None;
      ps, xs := [], [];
      new;
      assert Elems(xs) == {};
    }

    method Contains(x: int) returns (r: bool)
      requires View().Some?
      ensures r <==> x in View().value
    {
      if listSize == 0 {
        return false;
      }
      var curr := head;
      var i := 0;
      while i < listSize
        invariant 0 <= i <= listSize && curr == LinkTo(ps, i)
        invariant i > 0 ==> xs[i - 1] < x
      {
        assert NodeAt(mem, ps, xs, i);
        var node := mem[curr.value];
        if node.data > x {
          Absent(xs, i, x);
          return false;
        }
        if node.data == x {
          assert xs[i] in Elems(xs);
          return true;
        }
        curr := node.next;
        i := i + 1;
      }
      Absent(xs, i, x);
      return false;
    }

    /** Lines 90-95, 101-106 and 122-127: a new node in front of position `i`. */
    method Link(x: int, pred: Option<Ptr>, curr: Option<Ptr>, ghost i: nat)
      requires Valid() && Fits(xs, i, x)
      requires curr == LinkTo(ps, i) && (if i == 0 then pred.None? else pred == Some(ps[i - 1]))
      modifies this
      ensures View() == Some(Elems(old(xs)) + {x})
    {
      var nn := brk;
      ghost var ps', xs' := PutDone(mem, brk, head, listSize, ps, xs, i, x);
      brk := brk + 1;
      mem := mem[nn := Node(x, curr)];
      if pred.None? {
        head := Some(nn);
      } else {
        mem := mem[pred.value := mem[pred.value].(next := Some(nn))];
      }
      ps, xs := ps', xs';
      listSize := listSize + 1;
    }

    /** Lines 141-143 and 154-156: take out position `i` and free its node. */
    method Unlink(pred: Option<Ptr>, curr: Ptr, ghost i: nat)
      requires Valid() && i < |xs| && curr == ps[i] && (if i == 0 then pred.None? else pred == Some(ps[i - 1]))
      modifies this
      ensures View() == Some(Elems(old(xs)) - {old(xs[i])}) && curr !in mem
    {
      ghost var ps', xs' := CutDone(mem, brk, head, listSize, ps, xs, i);
      assert NodeAt(mem, ps, xs, i);
      if pred.None? {
        head := mem[curr].next;
      } else {
        mem := mem[pred.value := mem[pred.value].(next := mem[curr].next)];
      }
      mem := mem - {curr};
      ps, xs := ps', xs';
      listSize := listSize - 1;
    }

    method Add(x: int) returns (r: bool)
      requires View().Some?
      modifies this
      ensures r <==> x !in old(View().value)
      ensures View() == Some(old(View().value) + {x})
    {
      if listSize == 0 {
        Link(x, None, None, 0);
        return true;
      }
      assert NodeAt(mem, ps, xs, 0);
      if x == mem[head.value].data {
        Present(xs, 0);
        return false;
      }
      if x < mem[head.value].data {
        Absent(xs, 0, x);
        Link(x, None, head, 0);
        return true;
      }
      r := AddBehind(x);
    }

    /** Lines 108-127. */
    method AddBehind(x: int) returns (r: bool)
      requires Valid() && listSize > 0 && xs[0] < x
      modifies this
      ensures r <==> x !in Elems(old(xs))
      ensures View() == Some(Elems(old(xs)) + {x})
    {
      assert NodeAt(mem, ps, xs, 0);
      var pred := head.value;
      var curr := mem[head.value].next;
      var i := 1;
      while i < listSize
        invariant 1 <= i <= listSize && curr == LinkTo(ps, i) && pred == ps[i - 1] && xs[i - 1] < x
      {
        assert NodeAt(mem, ps, xs, i);
        if mem[curr.value].data > x {
          break;
        }
        if mem[curr.value].data == x {
          Present(xs, i);
          return false;
        }
        pred := curr.value;
        curr := mem[curr.value].next;
        i := i + 1;
      }
      assert i < listSize ==> NodeAt(mem, ps, xs, i);
      Absent(xs, i, x);
      Link(x, Some(pred), curr, i);
      return true;
    }

    method Remove(x: int) returns (r: bool)
      requires View().Some?
      modifies this
      ensures r <==> x in old(View().value)
      ensures View() == Some(old(View().value) - {x})
    {
      if listSize == 0 {
        assert Elems(xs) - {x} == Elems(xs);
        return false;
      }
      assert NodeAt(mem, ps, xs, 0);
      if mem[head.value].data == x {
        Present(xs, 0);
        Unlink(None, head.value, 0);
        return true;
      }
      r := RemoveBehind(x);
    }

    /** Lines 146-163. */
    method RemoveBehind(x: int) returns (r: bool)
      requires Valid() && listSize > 0 && xs[0] != x
      modifies this
      ensures r <==> x in Elems(old(xs))
      ensures View() == Some(Elems(old(xs)) - {x})
    {
      assert NodeAt(mem, ps, xs, 0);
      var pred := head.value;
      var curr := mem[head.value].next;
      var i := 1;
      while i < listSize
        invariant 1 <= i <= listSize && curr == LinkTo(ps, i) && pred == ps[i - 1]
        invariant forall k :: 0 <= k < i ==> xs[k] != x
      {
        assert NodeAt(mem, ps, xs, i);
        var node := mem[curr.value];
        if node.data > x {
          Gone(xs, i, x);
          return false;
        }
        if node.data == x {
          Present(xs, i);
          Unlink(Some(pred), curr.value, i);
          return true;
        }
        pred := curr.value;
        curr := node.next;
        i := i + 1;
      }
      assert Elems(xs) - {x} == Elems(xs);
      return false;
    }
  }

  lemma Present(xs: seq<int>, i: nat)
    requires i < |xs|
    ensures xs[i] in Elems(xs) && Elems(xs) + {xs[i]} == Elems(xs)
  {
  }

  /** Past a larger value there is no equal one. */
  lemma Gone(xs: seq<int>, i: nat, x: int)
    requires Sorted(xs) && i < |xs| && x < xs[i]
    requires forall k :: 0 <= k < i ==> xs[k] != x
    ensures x !in Elems(xs) && Elems(xs) - {x} == Elems(xs)
  {
    forall k | i <= k < |xs| ensures xs[k] != x { assert k == i || xs[i] < xs[k]; }
  }
}
