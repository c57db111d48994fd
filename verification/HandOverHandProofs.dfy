/** Safety, linearizability and deadlock freedom of the hand-over-hand list. */
module HandOverHandProofs {
  import opened Linearizability
  import opened Options
  import opened HandOverHandList

  // ---------------------------------------------------------------- one kind of step at a time

  lemma Updates(threads: seq<Thread>, t: nat, th: Thread)
    requires t < |threads|
    ensures HeldBy(threads[t := th]) == HeldBy(threads)[t := Held(th)]
    ensures PrivateTo(threads[t := th]) == PrivateTo(threads)[t := Private(th)]
  {
  }

  /** Lock fields play no part in the chain or in what is below a node. */
  lemma SameShape(heap: map<Ptr, Node>, c: seq<Ptr>, heap': map<Ptr, Node>)
    requires Chain(heap, c)
    requires forall p :: p in c ==> p in heap' && heap'[p].next == heap[p].next && heap'[p].data == heap[p].data
    ensures Chain(heap', c) && Keys(heap', c) == Keys(heap, c)
    ensures forall p, x :: AllBelow(heap, c, p, x) ==> AllBelow(heap', c, p, x)
  {
    forall i | 0 < i < |c| - 1 ensures heap'[c[i]].data == heap[c[i]].data {}
  }

  lemma ShapeKeepsThread(heap: map<Ptr, Node>, c: seq<Ptr>, heap': map<Ptr, Node>, th: Thread)
    requires Chain(heap, c) && heap'.Keys >= heap.Keys
    requires forall p :: p in heap ==> heap'[p].next == heap[p].next && heap'[p].data == heap[p].data
    requires ThreadOk(heap, c, th)
    ensures Chain(heap', c) && ThreadOk(heap', c, th)
  {
    SameShape(heap, c, heap');
  }

  lemma ShapeKeepsThreads(heap: map<Ptr, Node>, c: seq<Ptr>, heap': map<Ptr, Node>, threads: seq<Thread>)
    requires Chain(heap, c) && heap'.Keys >= heap.Keys
    requires forall p :: p in heap ==> heap'[p].next == heap[p].next && heap'[p].data == heap[p].data
    requires ThreadsOk(heap, c, threads)
    ensures Chain(heap', c) && ThreadsOk(heap', c, threads)
  {
    SameShape(heap, c, heap');
    forall t | 0 <= t < |threads| ensures ThreadOk(heap', c, threads[t]) {
      ShapeKeepsThread(heap, c, heap', threads[t]);
    }
  }

  /** A step that touches only the thread's own variables. */
  lemma Move(s: State, c: seq<Ptr>, s': State, t: nat, th: Thread)
    requires Inv(s, c) && t < |s.threads|
    requires s'.heap == s.heap && s'.threads == s.threads[t := th] && !s'.fault
    requires Held(th) == Held(s.threads[t]) && Private(th) == Private(s.threads[t])
    requires ThreadOk(s.heap, c, th)
    ensures Inv(s', c)
  {
    Updates(s.threads, t, th);
    assert HeldBy(s'.threads) == HeldBy(s.threads);
    assert PrivateTo(s'.threads) == PrivateTo(s.threads);
  }

  lemma LocksTake(heap: map<Ptr, Node>, held: seq<set<Ptr>>, t: nat, p: Ptr)
    requires LocksOk(heap, held) && t < |held| && p in heap && heap[p].lock.None?
    ensures LocksOk(heap[p := heap[p].(lock := Some(t))], held[t := held[t] + {p}])
  {
  }

  lemma LocksGive(heap: map<Ptr, Node>, held: seq<set<Ptr>>, t: nat, p: Ptr)
    requires LocksOk(heap, held) && t < |held| && p in held[t]
    ensures LocksOk(heap[p := heap[p].(lock := None)], held[t := held[t] - {p}])
  {
  }

  lemma PrivateKept(heap: map<Ptr, Node>, c: seq<Ptr>, heap': map<Ptr, Node>, held: seq<set<Ptr>>, priv: seq<set<Ptr>>,
                    t: nat, h: set<Ptr>)
    requires PrivateOk(heap, c, held, priv) && heap'.Keys == heap.Keys && t < |held|
    requires forall p :: p in h ==> p in held[t] || p in c
    ensures PrivateOk(heap', c, held[t := h], priv)
  {
  }

  /** Lock and unlock steps: only lock fields of the heap change. */
  lemma LockStep(s: State, c: seq<Ptr>, s': State, t: nat, th: Thread)
    requires Inv(s, c) && t < |s.threads|
    requires s'.threads == s.threads[t := th] && !s'.fault
    requires s'.heap.Keys == s.heap.Keys
    requires forall p :: p in s.heap ==> s'.heap[p].next == s.heap[p].next && s'.heap[p].data == s.heap[p].data
    requires LocksOk(s'.heap, HeldBy(s.threads)[t := Held(th)])
    requires Private(th) == Private(s.threads[t]) && forall p :: p in Held(th) ==> p in Held(s.threads[t]) || p in c
    requires ThreadOk(s.heap, c, th)
    ensures Inv(s', c) && Keys(s'.heap, c) == Keys(s.heap, c)
  {
    Updates(s.threads, t, th);
    assert forall p :: p in c ==> p in s.heap;
    SameShape(s.heap, c, s'.heap);
    assert PrivateTo(s'.threads) == PrivateTo(s.threads);
    PrivateKept(s.heap, c, s'.heap, HeldBy(s.threads), PrivateTo(s.threads), t, Held(th));
    ThreadsUpdate(s.heap, c, s.threads, t, th);
    ShapeKeepsThreads(s.heap, c, s'.heap, s'.threads);
  }

  lemma ThreadsUpdate(heap: map<Ptr, Node>, c: seq<Ptr>, threads: seq<Thread>, t: nat, th: Thread)
    requires Chain(heap, c) && ThreadsOk(heap, c, threads) && t < |threads| && ThreadOk(heap, c, th)
    ensures ThreadsOk(heap, c, threads[t := th])
  {
  }

  // ---------------------------------------------------------------- allocation and deletion

  lemma AllocStep(s: State, c: seq<Ptr>, s': State, t: nat, op: Op, pred: Ptr, curr: Ptr, addr: Ptr)
    requires Inv(s, c) && t < |s.threads| && s.threads[t] == In(op, Alloc(pred, curr)) && addr !in s.heap
    requires s'.heap == s.heap[addr := Node(op.x, Some(curr), None)] && !s'.fault
    requires s'.threads == s.threads[t := In(op, Link(pred, curr, addr))]
    ensures Inv(s', c) && Keys(s'.heap, c) == Keys(s.heap, c)
  {
    var held, priv := HeldBy(s.threads), PrivateTo(s.threads);
    assert held[t] == {pred, curr} && priv[t] == {};
    assert ThreadOk(s.heap, c, s.threads[t]);
    FreshNode(s.heap, c, s'.heap, held, priv, t, addr);
    FreshFrames(s.heap, c, s'.heap, held, priv, t, addr);
    assert held[t := {pred, curr}] == held;
    Rebuild(s, c, s', c, t, In(op, Link(pred, curr, addr)));
  }

  lemma FreshFrames(heap: map<Ptr, Node>, c: seq<Ptr>, heap': map<Ptr, Node>, held: seq<set<Ptr>>, priv: seq<set<Ptr>>,
                    t: nat, addr: Ptr)
    requires Chain(heap, c) && LocksOk(heap, held) && PrivateOk(heap, c, held, priv) && t < |held|
    requires addr !in heap && addr in heap' && heap' == heap[addr := heap'[addr]]
    ensures Chain(heap', c) && Keys(heap', c) == Keys(heap, c)
    ensures forall u :: 0 <= u < |held| && u != t ==> Frame(heap, c, heap', c, held[u], priv[u])
  {
    SameShape(heap, c, heap');
  }

  lemma FreshNode(heap: map<Ptr, Node>, c: seq<Ptr>, heap': map<Ptr, Node>, held: seq<set<Ptr>>, priv: seq<set<Ptr>>,
                  t: nat, addr: Ptr)
    requires LocksOk(heap, held) && PrivateOk(heap, c, held, priv) && t < |held|
    requires addr !in heap && addr !in c && priv[t] == {}
    requires heap'.Keys == heap.Keys + {addr} && heap' == heap[addr := heap'[addr]] && heap'[addr].lock.None?
    ensures LocksOk(heap', held) && PrivateOk(heap', c, held, priv[t := {addr}])
  {
  }

  lemma Rebuild(s: State, c: seq<Ptr>, s': State, c': seq<Ptr>, t: nat, th: Thread)
    requires Inv(s, c) && t < |s.threads|
    requires s'.threads == s.threads[t := th] && !s'.fault && Chain(s'.heap, c')
    requires forall u :: 0 <= u < |s.threads| && u != t ==> Frame(s.heap, c, s'.heap, c', HeldBy(s.threads)[u],
      PrivateTo(s.threads)[u])
    requires LocksOk(s'.heap, HeldBy(s.threads)[t := Held(th)])
    requires PrivateOk(s'.heap, c', HeldBy(s.threads)[t := Held(th)], PrivateTo(s.threads)[t := Private(th)])
    requires ThreadOk(s'.heap, c', th)
    ensures Inv(s', c')
  {
    Updates(s.threads, t, th);
    OthersUndisturbed(s.heap, c, s'.heap, c', s.threads, t, th);
  }

  lemma FreeStep(s: State, c: seq<Ptr>, s': State, t: nat, op: Op, pred: Ptr, p: Ptr)
    requires Inv(s, c) && t < |s.threads| && s.threads[t] == In(op, Free(pred, p))
    requires s'.heap == s.heap - {p} && s'.threads == s.threads[t := In(op, UnlockLast(pred, true))] && !s'.fault
    ensures p in s.heap && s.heap[p].lock.None?
    ensures Inv(s', c) && Keys(s'.heap, c) == Keys(s.heap, c)
  {
    var held, priv := HeldBy(s.threads), PrivateTo(s.threads);
    assert held[t] == {pred} && priv[t] == {p};
    DropNode(s.heap, c, held, priv, t, p);
    DropFrames(s.heap, c, held, priv, t, p);
    assert held[t := {pred}] == held;
    Rebuild(s, c, s', c, t, In(op, UnlockLast(pred, true)));
  }

  lemma DropNode(heap: map<Ptr, Node>, c: seq<Ptr>, held: seq<set<Ptr>>, priv: seq<set<Ptr>>, t: nat, p: Ptr)
    requires LocksOk(heap, held) && PrivateOk(heap, c, held, priv) && t < |held|
    requires priv[t] == {p} && p !in held[t]
    ensures p in heap && heap[p].lock.None?
    ensures LocksOk(heap - {p}, held) && PrivateOk(heap - {p}, c, held, priv[t := {}])
    ensures forall u :: 0 <= u < |held| ==> p !in held[u]
  {
  }

  lemma DropFrames(heap: map<Ptr, Node>, c: seq<Ptr>, held: seq<set<Ptr>>, priv: seq<set<Ptr>>, t: nat, p: Ptr)
    requires Chain(heap, c) && LocksOk(heap, held) && PrivateOk(heap, c, held, priv) && t < |held|
    requires priv[t] == {p} && p !in held[t]
    ensures Chain(heap - {p}, c) && Keys(heap - {p}, c) == Keys(heap, c)
    ensures forall u :: 0 <= u < |held| && u != t ==> Frame(heap, c, heap - {p}, c, held[u], priv[u])
  {
    SameShape(heap, c, heap - {p});
  }

  // ---------------------------------------------------------------- linking and unlinking

  ghost function Position(c: seq<Ptr>, p: Ptr): (k: nat)
    requires p in c
    ensures k < |c| && c[k] == p
  {
    var k :| 0 <= k < |c| && c[k] == p;
    k
  }

  ghost predicate Inserted(c: seq<Ptr>, k: nat, node: Ptr, c': seq<Ptr>) {
    && k < |c| - 1 && |c'| == |c| + 1
    && (forall i :: 0 <= i <= k ==> c'[i] == c[i])
    && c'[k + 1] == node
    && (forall i :: k + 1 < i < |c'| ==> c'[i] == c[i - 1])
  }

  lemma LinkChain(heap: map<Ptr, Node>, heap': map<Ptr, Node>, c: seq<Ptr>, k: nat, node: Ptr, x: nat, c': seq<Ptr>)
    requires Chain(heap, c) && Inserted(c, k, node, c')
    requires node in heap && node !in c && heap[node].data == x && heap[node].next == Some(c[k + 1])
    requires k == 0 || heap[c[k]].data < x
    requires c[k + 1] == TAIL || x < heap[c[k + 1]].data
    requires heap' == heap[c[k] := heap[c[k]].(next := Some(node))]
    ensures Chain(heap', c')
  {
    forall i | 0 <= i < |c'| - 1 ensures heap'[c'[i]].next == Some(c'[i + 1]) {
      if i > k + 1 { assert c'[i] == c[i - 1] && c'[i + 1] == c[i]; }
    }
    forall i, j | 0 <= i < j < |c'| ensures c'[i] != c'[j] {}
    forall i, j | 0 < i < j < |c'| - 1 ensures heap'[c'[i]].data < heap'[c'[j]].data {
      if j == k + 1 {
        assert i < k ==> heap[c[i]].data < heap[c[k]].data;
      } else if i == k + 1 {
        assert j > k + 2 ==> heap[c[k + 1]].data < heap[c[j - 1]].data;
      }
    }
  }

  lemma LinkKeys(heap: map<Ptr, Node>, heap': map<Ptr, Node>, c: seq<Ptr>, k: nat, node: Ptr, x: nat, c': seq<Ptr>)
    requires Chain(heap, c) && Inserted(c, k, node, c') && Chain(heap', c')
    requires node in heap && heap[node].data == x
    requires forall p :: p in heap ==> p in heap' && heap'[p].data == heap[p].data
    ensures Keys(heap', c') == Keys(heap, c) + {x}
  {
    forall y | y in Keys(heap, c) ensures y in Keys(heap', c') {
      var i :| 0 < i < |c| - 1 && heap[c[i]].data == y;
      assert c'[if i <= k then i else i + 1] == c[i];
    }
    assert heap'[c'[k + 1]].data == x;
    forall y | y in Keys(heap', c') ensures y in Keys(heap, c) + {x} {
      var i :| 0 < i < |c'| - 1 && heap'[c'[i]].data == y;
      if i > k + 1 { assert heap[c[i - 1]].data == y; }
    }
  }

  /** Between neighbours that bracket it, a key is absent. */
  lemma Absent(heap: map<Ptr, Node>, c: seq<Ptr>, k: nat, x: nat)
    requires Chain(heap, c) && k < |c| - 1
    requires k == 0 || heap[c[k]].data < x
    requires k + 1 == |c| - 1 || x < heap[c[k + 1]].data
    ensures x !in Keys(heap, c)
  {
    forall i | 0 < i < |c| - 1 ensures heap[c[i]].data != x {
      assert i < k ==> heap[c[i]].data < heap[c[k]].data;
      assert i > k + 1 ==> heap[c[k + 1]].data < heap[c[i]].data;
    }
  }

  ghost predicate Deleted(c: seq<Ptr>, k: nat, c': seq<Ptr>) {
    && k < |c| - 2 && |c'| == |c| - 1
    && (forall i :: 0 <= i <= k ==> c'[i] == c[i])
    && (forall i :: k < i < |c'| ==> c'[i] == c[i + 1])
  }

  lemma UnlinkChain(heap: map<Ptr, Node>, heap': map<Ptr, Node>, c: seq<Ptr>, k: nat, c': seq<Ptr>)
    requires Chain(heap, c) && Deleted(c, k, c')
    requires heap' == heap[c[k] := heap[c[k]].(next := Some(c[k + 2]))]
    ensures Chain(heap', c') && c[k + 1] !in c'
  {
    forall i | 0 <= i < |c'| - 1 ensures heap'[c'[i]].next == Some(c'[i + 1]) {
      if i > k { assert c'[i] == c[i + 1] && c'[i + 1] == c[i + 2]; }
    }
    forall i, j | 0 <= i < j < |c'| ensures c'[i] != c'[j] {}
  }

  lemma UnlinkKeys(heap: map<Ptr, Node>, heap': map<Ptr, Node>, c: seq<Ptr>, k: nat, c': seq<Ptr>)
    requires Chain(heap, c) && Deleted(c, k, c') && Chain(heap', c')
    requires forall p :: p in heap ==> p in heap' && heap'[p].data == heap[p].data
    ensures Keys(heap', c') == Keys(heap, c) - {heap[c[k + 1]].data}
    ensures heap[c[k + 1]].data in Keys(heap, c)
  {
    var x := heap[c[k + 1]].data;
    forall y | y in Keys(heap, c) && y != x ensures y in Keys(heap', c') {
      var i :| 0 < i < |c| - 1 && heap[c[i]].data == y;
      assert c'[if i <= k then i else i - 1] == c[i];
    }
    forall y | y in Keys(heap', c') ensures y in Keys(heap, c) && y != x {
      var i :| 0 < i < |c'| - 1 && heap'[c'[i]].data == y;
      var j := if i <= k then i else i + 1;
      assert heap[c[j]].data == y;
      if j < k + 1 { assert heap[c[j]].data < heap[c[k + 1]].data; }
        else { assert heap[c[k + 1]].data < heap[c[j]].data; }
    }
  }

  lemma LinkBelow(heap: map<Ptr, Node>, heap': map<Ptr, Node>, c: seq<Ptr>, k: nat, node: Ptr, x: nat, c': seq<Ptr>,
                  p: Ptr, y: nat)
    requires Chain(heap, c) && Inserted(c, k, node, c') && Chain(heap', c')
    requires forall q :: q in heap ==> q in heap' && heap'[q].data == heap[q].data
    requires node in heap && heap[node].data == x && (c[k + 1] == TAIL || x < heap[c[k + 1]].data)
    requires p in c && p != c[k + 1] && p != node && AllBelow(heap, c, p, y)
    ensures AllBelow(heap', c', p, y)
  {
    forall i, j | 0 < i < j < |c'| && c'[j] == p ensures heap'[c'[i]].data < y {
      var j0 := if j <= k then j else j - 1;
      assert c[j0] == p;
      if i == k + 1 {
        assert heap[c[k + 1]].data < y;
      } else {
        var i0 := if i <= k then i else i - 1;
        assert c[i0] == c'[i] && heap[c[i0]].data < y;
      }
    }
  }

  lemma LinkFrames(heap: map<Ptr, Node>, heap': map<Ptr, Node>, c: seq<Ptr>, k: nat, node: Ptr, x: nat, c': seq<Ptr>,
                   held: seq<set<Ptr>>, priv: seq<set<Ptr>>, t: nat)
    requires Chain(heap, c) && Inserted(c, k, node, c') && Chain(heap', c')
    requires heap' == heap[c[k] := heap[c[k]].(next := Some(node))]
    requires node in heap && heap[node].data == x && (c[k + 1] == TAIL || x < heap[c[k + 1]].data)
    requires LocksOk(heap, held) && PrivateOk(heap, c, held, priv) && t < |held|
    requires c[k] in held[t] && c[k + 1] in held[t] && priv[t] == {node}
    ensures LocksOk(heap', held) && PrivateOk(heap', c', held, priv[t := {}])
    ensures forall u :: 0 <= u < |held| && u != t ==> Frame(heap, c, heap', c', held[u], priv[u])
  {
    MembersInserted(c, k, node, c');
    NextChanged(heap, heap', c, c', c[k], held, priv, t, {});
    forall u | 0 <= u < |held| && u != t ensures Frame(heap, c, heap', c', held[u], priv[u]) {
      Apart(heap, c, held, priv, t, u, c[k]);
      Apart(heap, c, held, priv, t, u, c[k + 1]);
      LinkFrame(heap, heap', c, k, node, x, c', held[u], priv[u]);
    }
  }

  lemma LinkFrame(heap: map<Ptr, Node>, heap': map<Ptr, Node>, c: seq<Ptr>, k: nat, node: Ptr, x: nat, c': seq<Ptr>,
                  h: set<Ptr>, own: set<Ptr>)
    requires Chain(heap, c) && Inserted(c, k, node, c') && Chain(heap', c')
    requires heap' == heap[c[k] := heap[c[k]].(next := Some(node))]
    requires node in heap && heap[node].data == x && (c[k + 1] == TAIL || x < heap[c[k + 1]].data)
    requires forall p :: p in h || p in own ==> p in heap && p != c[k] && p != c[k + 1] && p != node
    ensures Frame(heap, c, heap', c', h, own)
  {
    MembersInserted(c, k, node, c');
    forall p, y | p in h && p in c && AllBelow(heap, c, p, y) ensures AllBelow(heap', c', p, y) {
      LinkBelow(heap, heap', c, k, node, x, c', p, y);
    }
  }

  lemma MembersInserted(c: seq<Ptr>, k: nat, node: Ptr, c': seq<Ptr>)
    requires Inserted(c, k, node, c')
    ensures forall p :: p in c' <==> p in c || p == node
  {
    forall p | p in c ensures p in c' {
      var i := Position(c, p);
      assert c'[if i <= k then i else i + 1] == p;
    }
    forall p | p in c' ensures p in c || p == node {
      var i := Position(c', p);
    }
  }

  lemma UnlinkFrames(heap: map<Ptr, Node>, heap': map<Ptr, Node>, c: seq<Ptr>, k: nat, c': seq<Ptr>,
                     held: seq<set<Ptr>>, priv: seq<set<Ptr>>, t: nat)
    requires Chain(heap, c) && Deleted(c, k, c') && Chain(heap', c') && c[k + 1] !in c'
    requires heap' == heap[c[k] := heap[c[k]].(next := Some(c[k + 2]))]
    requires LocksOk(heap, held) && PrivateOk(heap, c, held, priv) && t < |held|
    requires c[k] in held[t] && c[k + 1] in held[t] && priv[t] == {}
    ensures LocksOk(heap', held) && PrivateOk(heap', c', held, priv[t := {c[k + 1]}])
    ensures forall u :: 0 <= u < |held| && u != t ==> Frame(heap, c, heap', c', held[u], priv[u])
  {
    MembersDeleted(c, k, c');
    NextChanged(heap, heap', c, c', c[k], held, priv, t, {c[k + 1]}) by {
      assert c[k + 1] in c;
    }
    forall u | 0 <= u < |held| && u != t ensures Frame(heap, c, heap', c', held[u], priv[u]) {
      Apart(heap, c, held, priv, t, u, c[k]);
      Apart(heap, c, held, priv, t, u, c[k + 1]);
      UnlinkFrame(heap, heap', c, k, c', held[u], priv[u]);
    }
  }

  /** What `t` holds, no other thread holds or owns. */
  lemma Apart(heap: map<Ptr, Node>, c: seq<Ptr>, held: seq<set<Ptr>>, priv: seq<set<Ptr>>, t: nat, u: nat, p: Ptr)
    requires LocksOk(heap, held) && PrivateOk(heap, c, held, priv) && t < |held| && u < |held| && u != t && p in held[t]
    ensures forall q :: q in held[u] || q in priv[u] ==> q in heap && q != p
  {
    assert heap[p].lock == Some(t);
    forall q | q in priv[u] ensures q in heap && q !in held[t] && q !in priv[t] {}
  }

  lemma UnlinkFrame(heap: map<Ptr, Node>, heap': map<Ptr, Node>, c: seq<Ptr>, k: nat, c': seq<Ptr>, h: set<Ptr>,
                    own: set<Ptr>)
    requires Chain(heap, c) && Deleted(c, k, c') && Chain(heap', c')
    requires heap' == heap[c[k] := heap[c[k]].(next := Some(c[k + 2]))]
    requires forall p :: p in h || p in own ==> p in heap && p != c[k] && p != c[k + 1]
    ensures Frame(heap, c, heap', c', h, own)
  {
    MembersDeleted(c, k, c');
    forall p, y | p in h && p in c && AllBelow(heap, c, p, y) ensures AllBelow(heap', c', p, y) {
      UnlinkBelow(heap, heap', c, k, c', p, y);
    }
  }

  lemma UnlinkBelow(heap: map<Ptr, Node>, heap': map<Ptr, Node>, c: seq<Ptr>, k: nat, c': seq<Ptr>, p: Ptr, y: nat)
    requires Chain(heap, c) && Deleted(c, k, c') && Chain(heap', c') && AllBelow(heap, c, p, y)
    requires forall q :: q in heap ==> q in heap' && heap'[q].data == heap[q].data
    ensures AllBelow(heap', c', p, y)
  {
    forall i, j | 0 < i < j < |c'| && c'[j] == p ensures heap'[c'[i]].data < y {
      assert c[if i <= k then i else i + 1] == c'[i] && c[if j <= k then j else j + 1] == c'[j];
    }
  }

  /** Writing one `next` field leaves every lock alone; `gone` becomes, or stops being, private to `t`. */
  lemma NextChanged(heap: map<Ptr, Node>, heap': map<Ptr, Node>, c: seq<Ptr>, c': seq<Ptr>, p: Ptr,
                    held: seq<set<Ptr>>, priv: seq<set<Ptr>>, t: nat, own: set<Ptr>)
    requires LocksOk(heap, held) && PrivateOk(heap, c, held, priv) && t < |held|
    requires p in heap && p in heap' && heap' == heap[p := heap[p].(next := heap'[p].next)]
    requires forall q :: q in c' ==> q in c || q in priv[t]
    requires forall q :: q in own ==> q in heap && q !in c' && q in held[t] && q in c
    ensures LocksOk(heap', held) && PrivateOk(heap', c', held, priv[t := own])
  {
  }

  lemma MembersDeleted(c: seq<Ptr>, k: nat, c': seq<Ptr>)
    requires Deleted(c, k, c')
    ensures forall p :: p in c' ==> p in c
    ensures forall p :: p in c && p != c[k + 1] ==> p in c'
  {
    forall p | p in c && p != c[k + 1] ensures p in c' {
      var i := Position(c, p);
      assert c'[if i <= k then i else i - 1] == p;
    }
  }

  lemma LinkHeap(heap: map<Ptr, Node>, heap': map<Ptr, Node>, c: seq<Ptr>, pred: Ptr, curr: Ptr, node: Ptr, x: nat,
                 held: seq<set<Ptr>>, priv: seq<set<Ptr>>, t: nat) returns (c': seq<Ptr>)
    requires Chain(heap, c) && Between(heap, c, pred, curr, x)
    requires curr == TAIL || (curr in heap && x < heap[curr].data)
    requires node in heap && node !in c && heap[node].data == x && heap[node].next == Some(curr)
    requires heap' == heap[pred := heap[pred].(next := Some(node))]
    requires LocksOk(heap, held) && PrivateOk(heap, c, held, priv) && t < |held|
    requires pred in held[t] && curr in held[t] && priv[t] == {node}
    ensures pred != curr && Chain(heap', c') && x !in Keys(heap, c) && Keys(heap', c') == Keys(heap, c) + {x}
    ensures LocksOk(heap', held) && PrivateOk(heap', c', held, priv[t := {}])
    ensures forall u :: 0 <= u < |held| && u != t ==> Frame(heap, c, heap', c', held[u], priv[u])
  {
    var k := Position(c, pred);
    c' := c[..k + 1] + [node] + c[k + 1..];
    LinkChain(heap, heap', c, k, node, x, c');
    LinkKeys(heap, heap', c, k, node, x, c');
    Absent(heap, c, k, x);
    LinkFrames(heap, heap', c, k, node, x, c', held, priv, t);
  }

  lemma UnlinkHeap(heap: map<Ptr, Node>, heap': map<Ptr, Node>, c: seq<Ptr>, pred: Ptr, curr: Ptr, succ: Ptr,
                   held: seq<set<Ptr>>, priv: seq<set<Ptr>>, t: nat) returns (c': seq<Ptr>)
    requires Chain(heap, c) && pred in c && pred != TAIL && heap[pred].next == Some(curr)
    requires At(heap, c, curr) && heap[curr].next == Some(succ)
    requires heap' == heap[pred := heap[pred].(next := Some(succ))]
    requires LocksOk(heap, held) && PrivateOk(heap, c, held, priv) && t < |held|
    requires pred in held[t] && curr in held[t] && priv[t] == {}
    ensures pred != curr && Chain(heap', c') && heap[curr].data in Keys(heap, c)
    ensures Keys(heap', c') == Keys(heap, c) - {heap[curr].data}
    ensures LocksOk(heap', held) && PrivateOk(heap', c', held, priv[t := {curr}]) && curr !in c'
    ensures forall u :: 0 <= u < |held| && u != t ==> Frame(heap, c, heap', c', held[u], priv[u])
  {
    var k := Position(c, pred);
    assert k < |c| - 2 && c[k + 1] == curr && c[k + 2] == succ;
    c' := c[..k + 1] + c[k + 2..];
    UnlinkChain(heap, heap', c, k, c');
    UnlinkKeys(heap, heap', c, k, c');
    UnlinkFrames(heap, heap', c, k, c', held, priv, t);
  }

  lemma LinkStep(s: State, c: seq<Ptr>, s': State, t: nat, op: Op, pred: Ptr, curr: Ptr, node: Ptr)
    returns (c': seq<Ptr>)
    requires Inv(s, c) && t < |s.threads| && s.threads[t] == In(op, Link(pred, curr, node))
    requires pred in s.heap && s'.heap == s.heap[pred := s.heap[pred].(next := Some(node))]
    requires s'.threads == s.threads[t := In(op, UnlockBoth(pred, curr, true))] && !s'.fault
    ensures Inv(s', c') && op.Insert? && op.x !in Keys(s.heap, c) && Keys(s'.heap, c') == Keys(s.heap, c) + {op.x}
  {
    var held, priv := HeldBy(s.threads), PrivateTo(s.threads);
    assert held[t] == {pred, curr} && priv[t] == {node};
    assert ThreadOk(s.heap, c, s.threads[t]);
    c' := LinkHeap(s.heap, s'.heap, c, pred, curr, node, op.x, held, priv, t);
    assert held[t := {pred, curr}] == held;
    Rebuild(s, c, s', c', t, In(op, UnlockBoth(pred, curr, true)));
  }

  lemma UnlinkStep(s: State, c: seq<Ptr>, s': State, t: nat, op: Op, pred: Ptr, curr: Ptr, succ: Ptr)
    returns (c': seq<Ptr>)
    requires Inv(s, c) && t < |s.threads| && s.threads[t] == In(op, Unlink(pred, curr, succ))
    requires pred in s.heap && s'.heap == s.heap[pred := s.heap[pred].(next := Some(succ))]
    requires s'.threads == s.threads[t := In(op, UnlockRemoved(pred, curr))] && !s'.fault
    ensures Inv(s', c') && op.Remove? && op.x in Keys(s.heap, c) && Keys(s'.heap, c') == Keys(s.heap, c) - {op.x}
  {
    var held, priv := HeldBy(s.threads), PrivateTo(s.threads);
    assert held[t] == {pred, curr} && priv[t] == {};
    assert ThreadOk(s.heap, c, s.threads[t]);
    c' := UnlinkHeap(s.heap, s'.heap, c, pred, curr, succ, held, priv, t);
    assert held[t := {pred, curr}] == held;
    Rebuild(s, c, s', c', t, In(op, UnlockRemoved(pred, curr)));
  }

  // ---------------------------------------------------------------- simulation

  /** The step from `s` to `s'` is matched by the atomic object taking the actions `xs`. */
  ghost predicate Matched(s: State, c: seq<Ptr>, s': State, c': seq<Ptr>, xs: seq<Action<Op, bool>>) {
    && Inv(s, c) && Inv(s', c')
    && Exec(SetApply, Abs(s, c), xs) == Some(Abs(s', c'))
    && s'.history == s.history + Visible(xs)
  }

  lemma StatusesUpdate(threads: seq<Thread>, t: nat, th: Thread)
    requires t < |threads|
    ensures Statuses(threads[t := th]) == Statuses(threads)[t := StatusOf(th)]
    ensures StatusOf(th) == StatusOf(threads[t]) ==> Statuses(threads[t := th]) == Statuses(threads)
  {
  }

  lemma MatchNone(s: State, c: seq<Ptr>, s': State, t: nat, th: Thread)
    requires Inv(s, c) && Inv(s', c) && t < |s.threads| && s'.threads == s.threads[t := th]
    requires StatusOf(th) == StatusOf(s.threads[t]) && Keys(s'.heap, c) == Keys(s.heap, c) && s'.history == s.history
    ensures Matched(s, c, s', c, [])
  {
    StatusesUpdate(s.threads, t, th);
  }

  lemma MatchOne(s: State, c: seq<Ptr>, s': State, c': seq<Ptr>, t: nat, th: Thread, x: Action<Op, bool>)
    requires Inv(s, c) && Inv(s', c') && t < |s.threads| && s'.threads == s.threads[t := th] && x.t == t
    requires Act(SetApply, Abs(s, c), x) == Some(Atomic(Keys(s'.heap, c'), Abs(s, c).status[t := StatusOf(th)]))
    requires s'.history == if x.Lin? then s.history else s.history + [x]
    ensures Matched(s, c, s', c', [x])
  {
    ExecOne(SetApply, Abs(s, c), x);
    StatusesUpdate(s.threads, t, th);
  }

  /** Taking effect: the operation's answer and new key set are those of the sequential set. */
  lemma MatchLin(s: State, c: seq<Ptr>, s': State, c': seq<Ptr>, t: nat, op: Op, pc: PC, res: bool)
    requires Inv(s, c) && Inv(s', c') && t < |s.threads| && s'.threads == s.threads[t := In(op, pc)]
    requires StatusOf(s.threads[t]) == Pending(op) && StatusOf(In(op, pc)) == Done(op, res)
    requires SetApply(Keys(s.heap, c), op) == (Keys(s'.heap, c'), res) && s'.history == s.history
    ensures Matched(s, c, s', c', [Lin(t)])
  {
    assert Abs(s, c).status[t] == Pending(op);
    MatchOne(s, c, s', c', t, In(op, pc), Lin(t));
  }

  lemma LockTaken(s: State, c: seq<Ptr>, s': State, t: nat, op: Op, pc: PC, p: Ptr, pc': PC)
    requires Inv(s, c) && t < |s.threads| && s.threads[t] == In(op, pc) && p in s.heap && s.heap[p].lock.None?
    requires s' == s.(heap := s.heap[p := s.heap[p].(lock := Some(t))], threads := s.threads[t := In(op, pc')])
    requires p in c && Held(In(op, pc')) == Held(In(op, pc)) + {p}
    requires Private(In(op, pc)) == Private(In(op, pc')) == {}
    requires ThreadOk(s.heap, c, In(op, pc')) && StatusOf(In(op, pc)) == StatusOf(In(op, pc'))
    ensures Matched(s, c, s', c, [])
  {
    assert LocksOk(s'.heap, HeldBy(s.threads)[t := Held(In(op, pc'))]) by {
      assert HeldBy(s.threads)[t] == Held(In(op, pc));
      LocksTake(s.heap, HeldBy(s.threads), t, p);
    }
    LockStep(s, c, s', t, In(op, pc'));
    MatchNone(s, c, s', t, In(op, pc'));
  }

  lemma ChainAllocated(heap: map<Ptr, Node>, c: seq<Ptr>, p: Ptr)
    requires Chain(heap, c) && p in c
    ensures p in heap
  {
  }

  lemma Stutter(s: State, c: seq<Ptr>)
    requires Inv(s, c)
    ensures Matched(s, c, s, c, [])
  {
  }

  /** Locking: the node about to be locked is on the chain, so it is allocated. */
  lemma LockMatch(s: State, c: seq<Ptr>, t: nat, op: Op, pc: PC, p: Ptr, pc': PC)
    requires Inv(s, c) && t < |s.threads| && s.threads[t] == In(op, pc)
    requires p in c && Held(In(op, pc')) == Held(In(op, pc)) + {p}
    requires Private(In(op, pc)) == Private(In(op, pc')) == {}
    requires ThreadOk(s.heap, c, In(op, pc')) && StatusOf(In(op, pc)) == StatusOf(In(op, pc'))
    ensures Matched(s, c, LockNode(s, t, p, pc'), c, [])
  {
    ChainAllocated(s.heap, c, p);
    if s.heap[p].lock.None? {
      LockTaken(s, c, LockNode(s, t, p, pc'), t, op, pc, p, pc');
    } else {
      Stutter(s, c);
    }
  }

  /** Unlocking: the node is allocated and its mutex is this thread's. */
  lemma UnlockMatch(s: State, c: seq<Ptr>, t: nat, op: Op, pc: PC, p: Ptr, pc': PC)
    requires Inv(s, c) && t < |s.threads| && s.threads[t] == In(op, pc)
    requires p in Held(In(op, pc)) && Held(In(op, pc')) == Held(In(op, pc)) - {p}
    requires Private(In(op, pc)) == Private(In(op, pc'))
    requires ThreadOk(s.heap, c, In(op, pc')) && StatusOf(In(op, pc)) == StatusOf(In(op, pc'))
    ensures Matched(s, c, UnlockNode(s, t, p, pc'), c, [])
  {
    var s' := UnlockNode(s, t, p, pc');
    assert HeldBy(s.threads)[t] == Held(In(op, pc));
    LocksGive(s.heap, HeldBy(s.threads), t, p);
    assert p in s.heap && s.heap[p].lock == Some(t);
    LockStep(s, c, s', t, In(op, pc'));
    MatchNone(s, c, s', t, In(op, pc'));
  }

  /** A read: nothing but the program point changes and the operation stays pending. */
  lemma ReadMatch(s: State, c: seq<Ptr>, t: nat, op: Op, pc: PC, pc': PC)
    requires Inv(s, c) && t < |s.threads| && s.threads[t] == In(op, pc)
    requires Held(In(op, pc')) == Held(In(op, pc)) && Private(In(op, pc')) == Private(In(op, pc))
    requires ThreadOk(s.heap, c, In(op, pc')) && StatusOf(In(op, pc)) == StatusOf(In(op, pc'))
    ensures Matched(s, c, Goto(s, t, pc'), c, [])
  {
    Move(s, c, Goto(s, t, pc'), t, In(op, pc'));
    MatchNone(s, c, Goto(s, t, pc'), t, In(op, pc'));
  }

  lemma HeldAllocated(s: State, c: seq<Ptr>, t: nat, p: Ptr)
    requires Inv(s, c) && t < |s.threads| && p in Held(s.threads[t])
    ensures p in s.heap && s.heap[p].lock == Some(t)
  {
    assert HeldBy(s.threads)[t] == Held(s.threads[t]);
  }

  /** At `contains`' comparison only `curr` is held; still, no key at or above `x` lies before it. */
  lemma ContainsAnswer(heap: map<Ptr, Node>, c: seq<Ptr>, curr: Ptr, x: nat)
    requires Chain(heap, c) && curr in c && curr != HEAD && AllBelow(heap, c, curr, x)
    ensures curr == TAIL || x < heap[curr].data ==> x !in Keys(heap, c)
    ensures curr != TAIL && x == heap[curr].data ==> x in Keys(heap, c)
  {
    var k := Position(c, curr);
    if curr == TAIL || x < heap[curr].data {
      forall i | 0 < i < |c| - 1 ensures heap[c[i]].data != x {
        assert i < k ==> heap[c[i]].data < x;
        assert k < i ==> heap[c[k]].data < heap[c[i]].data;
      }
    }
  }

  lemma UpdateAnswer(heap: map<Ptr, Node>, c: seq<Ptr>, pred: Ptr, curr: Ptr, x: nat)
    requires Chain(heap, c) && Between(heap, c, pred, curr, x)
    ensures pred != curr && curr in c && curr != HEAD
    ensures curr == TAIL || x < heap[curr].data ==> x !in Keys(heap, c)
    ensures curr != TAIL && x == heap[curr].data ==> x in Keys(heap, c)
  {
    var k := Position(c, pred);
    assert c[k + 1] == curr;
    if curr == TAIL || x < heap[curr].data {
      Absent(heap, c, k, x);
    }
  }

  lemma TestEffect(heap: map<Ptr, Node>, c: seq<Ptr>, op: Op, pred: Ptr, curr: Ptr)
    requires Chain(heap, c) && ThreadOk(heap, c, In(op, Test(pred, curr))) && curr in heap
    ensures var th := In(op, Decide(op, pred, curr, heap[curr].data));
      && ThreadOk(heap, c, th) && Held(th) == Held(In(op, Test(pred, curr))) && Private(th) == {}
      && (StatusOf(th) == Pending(op) || (StatusOf(th).Done?
         && SetApply(Keys(heap, c), op) == (Keys(heap, c), StatusOf(th).res)))
  {
    if op.Contains? {
      ContainsAnswer(heap, c, curr, op.x);
    } else {
      UpdateAnswer(heap, c, pred, curr, op.x);
      var keys := Keys(heap, c);
      assert op.x in keys ==> keys + {op.x} == keys;
      assert op.x !in keys ==> keys - {op.x} == keys;
    }
  }

  lemma TestMatch(s: State, c: seq<Ptr>, t: nat, op: Op, pred: Ptr, curr: Ptr) returns (xs: seq<Action<Op, bool>>)
    requires Inv(s, c) && t < |s.threads| && s.threads[t] == In(op, Test(pred, curr))
    ensures curr in s.heap
    ensures Matched(s, c, Goto(s, t, Decide(op, pred, curr, s.heap[curr].data)), c, xs)
  {
    assert ThreadOk(s.heap, c, s.threads[t]);
    HeldAllocated(s, c, t, curr);
    TestEffect(s.heap, c, op, pred, curr);
    var pc := Decide(op, pred, curr, s.heap[curr].data);
    var s' := Goto(s, t, pc);
    Move(s, c, s', t, In(op, pc));
    if StatusOf(In(op, pc)).Done? {
      xs := [Lin(t)];
      MatchLin(s, c, s', c, t, op, pc, StatusOf(In(op, pc)).res);
    } else {
      xs := [];
      MatchNone(s, c, s', t, In(op, pc));
    }
  }

  // ---------------------------------------------------------------- every step

  lemma CallMatch(s: State, c: seq<Ptr>, s': State, t: nat, op: Op)
    requires Inv(s, c) && t < |s.threads| && s.threads[t] == Out
    requires s' == s.(threads := s.threads[t := In(op, Start)], history := s.history + [Call(t, op)])
    ensures Matched(s, c, s', c, [Call(t, op)])
  {
    Move(s, c, s', t, In(op, Start));
    assert Abs(s, c).status[t] == Idle;
    MatchOne(s, c, s', c, t, In(op, Start), Call(t, op));
  }

  lemma ReturnMatch(s: State, c: seq<Ptr>, s': State, t: nat, op: Op, res: bool)
    requires Inv(s, c) && t < |s.threads| && s.threads[t] == In(op, Return(res))
    requires s' == s.(threads := s.threads[t := Out], history := s.history + [Ret(t, res)])
    ensures Matched(s, c, s', c, [Ret(t, res)])
  {
    Move(s, c, s', t, Out);
    assert Abs(s, c).status[t] == Done(op, res);
    MatchOne(s, c, s', c, t, Out, Ret(t, res));
  }

  /** The node after a crawling thread's position is on the chain. */
  lemma NextOnChain(heap: map<Ptr, Node>, c: seq<Ptr>, p: Ptr)
    requires Chain(heap, c) && p in c && p != TAIL
    ensures heap[p].next.Some? && heap[p].next.value in c && heap[p].next.value != p && heap[p].next.value != HEAD
  {
    var k := Position(c, p);
    assert heap[c[k]].next == Some(c[k + 1]);
  }

  /** After `Wait`, `contains` may drop `pred`: everything before `curr` is below `x`. */
  lemma BelowAfter(heap: map<Ptr, Node>, c: seq<Ptr>, pred: Ptr, curr: Ptr, x: nat)
    requires Chain(heap, c) && Between(heap, c, pred, curr, x)
    ensures AllBelow(heap, c, curr, x)
  {
    var k := Position(c, pred);
    assert heap[c[k]].next == Some(c[k + 1]);
    forall i, j | 0 < i < j < |c| && c[j] == curr ensures heap[c[i]].data < x {
      assert j == k + 1;
      assert i < k ==> heap[c[i]].data < heap[c[k]].data;
    }
  }

  lemma StepEnter(s: State, c: seq<Ptr>, ch: Choice)
    requires Inv(s, c) && ch.t < |s.threads| && s.threads[ch.t].In?
    requires s.threads[ch.t].pc.Start? || s.threads[ch.t].pc.Wait?
    ensures Matched(s, c, Step(s, ch), c, [])
  {
    var t := ch.t;
    var op, pc := s.threads[t].op, s.threads[t].pc;
    if pc.Start? {
      LockMatch(s, c, t, op, pc, HEAD, First);
    } else {
      assert ThreadOk(s.heap, c, s.threads[t]);
      NextOnChain(s.heap, c, pc.pred);
      LockMatch(s, c, t, op, pc, pc.curr, if op.Contains? then Drop(pc.pred, pc.curr) else Test(pc.pred, pc.curr));
    }
  }

  lemma StepRead(s: State, c: seq<Ptr>, ch: Choice)
    requires Inv(s, c) && ch.t < |s.threads| && s.threads[ch.t].In?
    requires s.threads[ch.t].pc.First? || s.threads[ch.t].pc.Advance?
    ensures Matched(s, c, Step(s, ch), c, [])
  {
    var t := ch.t;
    var op, pc := s.threads[t].op, s.threads[t].pc;
    assert ThreadOk(s.heap, c, s.threads[t]);
    var p := if pc.First? then HEAD else pc.curr;
    NextOnChain(s.heap, c, p);
    ReadMatch(s, c, t, op, pc, Wait(p, s.heap[p].next.value));
  }

  lemma StepLeave(s: State, c: seq<Ptr>, ch: Choice) returns (xs: seq<Action<Op, bool>>)
    requires Inv(s, c) && ch.t < |s.threads| && s.threads[ch.t].In?
    requires var pc := s.threads[ch.t].pc; pc.Drop? || pc.Test? || pc.Release?
    ensures Matched(s, c, Step(s, ch), c, xs)
  {
    var t := ch.t;
    var op, pc := s.threads[t].op, s.threads[t].pc;
    assert ThreadOk(s.heap, c, s.threads[t]);
    xs := [];
    match pc
    case Drop(pred, curr) =>
      NextOnChain(s.heap, c, pred);
      BelowAfter(s.heap, c, pred, curr, op.x);
      UnlockMatch(s, c, t, op, pc, pred, Test(pred, curr));
    case Test(pred, curr) => xs := TestMatch(s, c, t, op, pred, curr);
    case Release(pred, curr) =>
      NextOnChain(s.heap, c, pred);
      UnlockMatch(s, c, t, op, pc, pred, Advance(curr));
  }

  lemma AllocMatch(s: State, c: seq<Ptr>, s': State, t: nat, op: Op, pred: Ptr, curr: Ptr, addr: Ptr)
    requires Inv(s, c) && t < |s.threads| && s.threads[t] == In(op, Alloc(pred, curr)) && addr !in s.heap
    requires s' == Goto(s.(heap := s.heap[addr := Node(op.x, Some(curr), None)]), t, Link(pred, curr, addr))
    ensures Matched(s, c, s', c, [])
  {
    AllocStep(s, c, s', t, op, pred, curr, addr);
    MatchNone(s, c, s', t, In(op, Link(pred, curr, addr)));
  }

  lemma LinkMatch(s: State, c: seq<Ptr>, s': State, t: nat, op: Op, pred: Ptr, curr: Ptr, node: Ptr)
    returns (c': seq<Ptr>)
    requires Inv(s, c) && t < |s.threads| && s.threads[t] == In(op, Link(pred, curr, node)) && pred in s.heap
    requires s' == Goto(s.(heap := s.heap[pred := s.heap[pred].(next := Some(node))]), t, UnlockBoth(pred, curr, true))
    ensures Matched(s, c, s', c', [Lin(t)])
  {
    c' := LinkStep(s, c, s', t, op, pred, curr, node);
    MatchLin(s, c, s', c', t, op, UnlockBoth(pred, curr, true), true);
  }

  lemma UnlinkMatch(s: State, c: seq<Ptr>, s': State, t: nat, op: Op, pred: Ptr, curr: Ptr, succ: Ptr)
    returns (c': seq<Ptr>)
    requires Inv(s, c) && t < |s.threads| && s.threads[t] == In(op, Unlink(pred, curr, succ)) && pred in s.heap
    requires s' == Goto(s.(heap := s.heap[pred := s.heap[pred].(next := Some(succ))]), t, UnlockRemoved(pred, curr))
    ensures Matched(s, c, s', c', [Lin(t)])
  {
    c' := UnlinkStep(s, c, s', t, op, pred, curr, succ);
    MatchLin(s, c, s', c', t, op, UnlockRemoved(pred, curr), true);
  }

  lemma FreeMatch(s: State, c: seq<Ptr>, t: nat, op: Op, pred: Ptr, curr: Ptr)
    requires Inv(s, c) && t < |s.threads| && s.threads[t] == In(op, Free(pred, curr))
    ensures curr in s.heap && s.heap[curr].lock.None?
    ensures Matched(s, c, Goto(s.(heap := s.heap - {curr}), t, UnlockLast(pred, true)), c, [])
  {
    var s' := Goto(s.(heap := s.heap - {curr}), t, UnlockLast(pred, true));
    FreeStep(s, c, s', t, op, pred, curr);
    MatchNone(s, c, s', t, In(op, UnlockLast(pred, true)));
  }

  lemma StepUpdate(s: State, c: seq<Ptr>, ch: Choice) returns (c': seq<Ptr>, xs: seq<Action<Op, bool>>)
    requires Inv(s, c) && ch.t < |s.threads| && s.threads[ch.t].In?
    requires var pc := s.threads[ch.t].pc; pc.Alloc? || pc.Link? || pc.ReadNext? || pc.Unlink?
    ensures Matched(s, c, Step(s, ch), c', xs)
  {
    var t := ch.t;
    var op, pc := s.threads[t].op, s.threads[t].pc;
    var s' := Step(s, ch);
    c', xs := c, [];
    match pc
    case Alloc(pred, curr) =>
      if ch.addr in s.heap {
        MatchNone(s, c, s, t, s.threads[t]);
      } else {
        AllocMatch(s, c, s', t, op, pred, curr, ch.addr);
      }
    case Link(pred, curr, node) =>
      HeldAllocated(s, c, t, pred);
      c' := LinkMatch(s, c, s', t, op, pred, curr, node);
      xs := [Lin(t)];
    case ReadNext(pred, curr) =>
      assert ThreadOk(s.heap, c, s.threads[t]);
      NextOnChain(s.heap, c, curr);
      ReadMatch(s, c, t, op, pc, Unlink(pred, curr, s.heap[curr].next.value));
    case Unlink(pred, curr, succ) =>
      HeldAllocated(s, c, t, pred);
      c' := UnlinkMatch(s, c, s', t, op, pred, curr, succ);
      xs := [Lin(t)];
  }

  lemma StepFinish(s: State, c: seq<Ptr>, ch: Choice) returns (xs: seq<Action<Op, bool>>)
    requires Inv(s, c) && ch.t < |s.threads| && s.threads[ch.t].In?
    requires var pc := s.threads[ch.t].pc;
      pc.UnlockRemoved? || pc.Free? || pc.UnlockBoth? || pc.UnlockLast? || pc.Return?
    ensures Matched(s, c, Step(s, ch), c, xs)
  {
    var t := ch.t;
    var op, pc := s.threads[t].op, s.threads[t].pc;
    assert ThreadOk(s.heap, c, s.threads[t]);
    xs := [];
    match pc
    case UnlockRemoved(pred, curr) => UnlockMatch(s, c, t, op, pc, curr, Free(pred, curr));
    case Free(pred, curr) => FreeMatch(s, c, t, op, pred, curr);
    case UnlockBoth(pred, curr, res) => UnlockMatch(s, c, t, op, pc, pred, UnlockLast(curr, res));
    case UnlockLast(curr, res) => UnlockMatch(s, c, t, op, pc, curr, Return(res));
    case Return(res) =>
      xs := [Ret(t, res)];
      ReturnMatch(s, c, Step(s, ch), t, op, res);
  }

  lemma StepMatch(s: State, c: seq<Ptr>, ch: Choice) returns (c': seq<Ptr>, xs: seq<Action<Op, bool>>)
    requires Inv(s, c)
    ensures Matched(s, c, Step(s, ch), c', xs)
  {
    c', xs := c, [];
    if ch.t >= |s.threads| {
    } else if s.threads[ch.t].Out? {
      xs := [Call(ch.t, ch.op)];
      CallMatch(s, c, Step(s, ch), ch.t, ch.op);
    } else {
      var pc := s.threads[ch.t].pc;
      if pc.Start? || pc.Wait? {
        StepEnter(s, c, ch);
      } else if pc.First? || pc.Advance? {
        StepRead(s, c, ch);
      } else if pc.Drop? || pc.Test? || pc.Release? {
        xs := StepLeave(s, c, ch);
      } else if pc.Alloc? || pc.Link? || pc.ReadNext? || pc.Unlink? {
        c', xs := StepUpdate(s, c, ch);
      } else {
        xs := StepFinish(s, c, ch);
      }
    }
  }

  // ---------------------------------------------------------------- whole runs

  lemma InitInv(n: nat)
    ensures Inv(Init(n), [HEAD, TAIL]) && Abs(Init(n), [HEAD, TAIL]) == NewObject({}, n)
  {
    var s := Init(n);
    assert HeldBy(s.threads) == seq(n, i => {});
    assert PrivateTo(s.threads) == seq(n, i => {});
    assert Keys(s.heap, [HEAD, TAIL]) == {};
  }

  /** Every reachable state has a chain, and the run so far is one of the atomic set. */
  lemma {:induction false} RunMatch(n: nat, sched: seq<Choice>) returns (c: seq<Ptr>, xs: seq<Action<Op, bool>>)
    ensures var s := Run(n, sched);
      && Inv(s, c)
      && Exec(SetApply, NewObject({}, n), xs) == Some(Abs(s, c))
      && Visible(xs) == s.history
  {
    if sched == [] {
      InitInv(n);
      c, xs := [HEAD, TAIL], [];
    } else {
      var c0, xs0 := RunMatch(n, sched[..|sched| - 1]);
      var ys;
      c, ys := StepMatch(Run(n, sched[..|sched| - 1]), c0, sched[|sched| - 1]);
      ExecConcat(SetApply, NewObject({}, n), xs0, ys);
      xs := xs0 + ys;
    }
  }

  /** Linearizability: whatever the schedule, the calls and returns are those of an atomic set. */
  lemma ListLinearizable(n: nat, sched: seq<Choice>)
    ensures Linearizable(SetApply, {}, n, Run(n, sched).history)
  {
    var c, xs := RunMatch(n, sched);
  }

  /** No thread ever touches a node that is not allocated, unlocks a mutex it does not hold,
      or deletes a locked node. */
  lemma NoFault(n: nat, sched: seq<Choice>)
    ensures !Run(n, sched).fault
  {
    var c, xs := RunMatch(n, sched);
  }

  /** In every reachable state the list from head to tail is a finite, duplicate-free chain with
      strictly increasing interior keys. */
  lemma AlwaysSorted(n: nat, sched: seq<Choice>)
    ensures exists c :: Chain(Run(n, sched).heap, c)
  {
    var c, xs := RunMatch(n, sched);
  }

  /** In every reachable state, while `contains` holds nothing but `curr`, every key before `curr` is below `x`; so
      what it is about to answer is, at that moment, the answer of the whole list. */
  lemma ContainsWindow(n: nat, sched: seq<Choice>, t: nat)
    requires t < |Run(n, sched).threads| && Run(n, sched).threads[t].In?
    requires Run(n, sched).threads[t].op.Contains? && Run(n, sched).threads[t].pc.Test?
    ensures var s, x, curr := Run(n, sched), Run(n, sched).threads[t].op.x, Run(n, sched).threads[t].pc.curr;
      exists c :: Chain(s.heap, c) && curr in c && curr in s.heap && AllBelow(s.heap, c, curr, x)
        && (curr == TAIL || x < s.heap[curr].data ==> x !in Keys(s.heap, c))
        && (curr != TAIL && x == s.heap[curr].data ==> x in Keys(s.heap, c))
  {
    var s := Run(n, sched);
    var c, xs := RunMatch(n, sched);
    assert ThreadOk(s.heap, c, s.threads[t]);
    ChainAllocated(s.heap, c, s.threads[t].pc.curr);
    ContainsAnswer(s.heap, c, s.threads[t].pc.curr, s.threads[t].op.x);
  }

  /** No thread ever holds more than two mutexes. */
  lemma AtMostTwoLocks(n: nat, sched: seq<Choice>, t: nat) returns (a: Ptr, b: Ptr)
    requires t < |Run(n, sched).threads|
    ensures forall p :: p in Run(n, sched).heap && Run(n, sched).heap[p].lock == Some(t) ==> p == a || p == b
  {
    var s := Run(n, sched);
    var c, xs := RunMatch(n, sched);
    a, b := TwoHeld(s.threads[t]);
    forall p | p in s.heap && s.heap[p].lock == Some(t) ensures p == a || p == b {
      assert p in HeldBy(s.threads)[t];
    }
  }

  lemma TwoHeld(th: Thread) returns (a: Ptr, b: Ptr)
    ensures forall p :: p in Held(th) ==> p == a || p == b
  {
    a, b := HEAD, HEAD;
    if x :| x in Held(th) {
      a, b := x, x;
      if y :| y in Held(th) && y != x { b := y; }
    }
  }

  /** Thread `t` is inside an operation and some step of its changes the state. */
  ghost predicate CanMove(s: State, t: nat) {
    t < |s.threads| && s.threads[t].In? && exists ch: Choice :: ch.t == t && Step(s, ch) != s
  }

  /** The mutex a thread is about to lock, if any. */
  function WaitsFor(th: Thread): Option<Ptr> {
    if th.In? && th.pc.Start? then Some(HEAD) else if th.In? && th.pc.Wait? then Some(th.pc.curr) else None
  }

  lemma {:induction false} Bounded(used: set<Ptr>) returns (n: nat)
    ensures forall q :: q in used ==> q < n
  {
    if used == {} {
      n := 0;
    } else {
      var q :| q in used;
      var m := Bounded(used - {q});
      n := if m <= q then q + 1 else m;
      forall r | r in used ensures r < n {
        assert r == q || r in used - {q};
      }
    }
  }

  /** Only a taken mutex can stop a thread that is inside an operation. */
  lemma OnlyLocksBlock(s: State, c: seq<Ptr>, t: nat)
    requires Inv(s, c) && t < |s.threads| && s.threads[t].In?
    requires WaitsFor(s.threads[t]).Some? ==>
      WaitsFor(s.threads[t]).value in s.heap && s.heap[WaitsFor(s.threads[t]).value].lock.None?
    ensures CanMove(s, t)
  {
    var n := Bounded(s.heap.Keys);
    var ch := Choice(t, s.threads[t].op, n);
    assert ThreadOk(s.heap, c, s.threads[t]);
    assert Step(s, ch).threads[t] != s.threads[t] || Step(s, ch).fault;
  }

  /** The owner of the mutex at position `k` of the chain can move, or waits further towards the tail. */
  lemma {:induction false} OwnerMoves(s: State, c: seq<Ptr>, k: nat) returns (t: nat)
    requires Inv(s, c) && k < |c| && s.heap[c[k]].lock.Some?
    ensures CanMove(s, t)
    decreases |c| - k
  {
    t := s.heap[c[k]].lock.value;
    assert c[k] in HeldBy(s.threads)[t];
    assert ThreadOk(s.heap, c, s.threads[t]);
    if s.threads[t].pc.Wait? { NextOnChain(s.heap, c, s.threads[t].pc.pred); }
    if s.threads[t].pc.Wait? && s.heap[s.threads[t].pc.curr].lock.Some? {
      assert s.threads[t].pc.pred == c[k];
      assert s.threads[t].pc.curr == c[k + 1];
      t := OwnerMoves(s, c, k + 1);
    } else {
      OnlyLocksBlock(s, c, t);
    }
  }

  /** Deadlock freedom: while some operation is unfinished, some thread inside an operation can move. */
  lemma NoDeadlock(n: nat, sched: seq<Choice>, u: nat)
    requires u < |Run(n, sched).threads| && Run(n, sched).threads[u].In?
    ensures exists t :: CanMove(Run(n, sched), t)
  {
    var s := Run(n, sched);
    var c, xs := RunMatch(n, sched);
    assert ThreadOk(s.heap, c, s.threads[u]);
    if s.threads[u].pc.Wait? { NextOnChain(s.heap, c, s.threads[u].pc.pred); }
    var w := WaitsFor(s.threads[u]);
    if w.Some? && s.heap[w.value].lock.Some? {
      var t := OwnerMoves(s, c, Position(c, w.value));
    } else {
      OnlyLocksBlock(s, c, u);
    }
  }
}
