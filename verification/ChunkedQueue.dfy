/**
 The chunked FIFO queue of All_Summer2017/testProject/data_structures/FCQueue.h: one combining pass.

 Chunks live in a store keyed by address; `delete` takes an address out of the store, so every
 access below is proved to hit a live chunk, in bounds. A pass is given what its scans read from
 the slots: `scans[i]` is the list of `_req_ans` values of the i-th scan, in list order. A slot
 that is read again after a chunk boundary still holds its request, since its owner is waiting.
 */
module ChunkedQueue {
  import opened Options
  import opened Slots

  type Ptr = nat

  /** `values[0]` is the index of the first value not yet dequeued; a 0 ends the values. */
  datatype Chunk = Chunk(next: Option<Ptr>, values: seq<int>)

  type Store = map<Ptr, Chunk>

  // ---------------------------------------------------------------- the specification of a pass

  /** What is left of `q` after `k` dequeues. */
  function Dropped(q: seq<int>, k: nat): seq<int> { if k <= |q| then q[k..] else [] }

  /** The j-th observed value's slot afterwards: the k-th dequeue of the pass is answered from `q`, whatever is
      enqueued in between; an enqueue is acknowledged; anything else is left as it was. */
  function AnswerTo(q: seq<int>, xs: seq<int>, j: nat): int
    requires j < |xs|
  {
    if xs[j] > NULL_VALUE then NULL_VALUE
    else if xs[j] == DEQ_VALUE then
      var k := Deqs(xs[..j]);
      if k < |q| then -q[k] else NULL_VALUE
    else xs[j]
  }

  ghost predicate Answers(q: seq<int>, xs: seq<int>, answers: seq<int>) {
    |answers| == |xs| && forall j :: 0 <= j < |xs| ==> answers[j] == AnswerTo(q, xs, j)
  }

  /** Every scan made at least `threshold` changes; a change is a request served, or a chunk boundary crossed. */
  ghost predicate Enough(scans: seq<seq<int>>, changes: seq<nat>, threshold: nat) {
    && |changes| <= |scans|
    && (forall i :: 0 <= i < |changes| ==> changes[i] >= Requests(scans[i]))
    && (forall i :: 0 <= i < |changes| ==> changes[i] >= threshold)
  }

  /** `changes` lists the changes of the scans that were made: after a scan with fewer than `threshold` there is no
      other. */
  ghost predicate Repeated(scans: seq<seq<int>>, changes: seq<nat>, threshold: nat) {
    && |changes| <= |scans|
    && (forall i :: 0 <= i < |changes| ==> changes[i] >= Requests(scans[i]))
    && (|changes| < |scans| ==> |changes| > 0 && changes[|changes| - 1] < threshold)
    && (|changes| > 0 ==> Enough(scans, changes[..|changes| - 1], threshold))
  }

  lemma EnoughMore(scans: seq<seq<int>>, changes: seq<nat>, threshold: nat, n: nat)
    requires Enough(scans, changes, threshold) && |changes| < |scans| && n >= Requests(scans[|changes|])
    ensures n < threshold ==> Repeated(scans, changes + [n], threshold)
    ensures n >= threshold ==> Enough(scans, changes + [n], threshold)
  {
    assert (changes + [n])[..|changes|] == changes;
  }

  /** The scans so far, none of them the last, have read `xs`. */
  ghost predicate Trying(scans: seq<seq<int>>, changes: seq<nat>, threshold: nat, xs: seq<int>) {
    Enough(scans, changes, threshold) && xs == Flat(scans[..|changes|])
  }

  /** All scans have been made, and have read `xs`. */
  ghost predicate Tried(scans: seq<seq<int>>, changes: seq<nat>, threshold: nat, xs: seq<int>) {
    Repeated(scans, changes, threshold) && xs == Flat(scans[..|changes|])
  }

  lemma TriedMore(scans: seq<seq<int>>, changes: seq<nat>, threshold: nat, xs: seq<int>, n: nat)
    requires Trying(scans, changes, threshold, xs) && |changes| < |scans| && n >= Requests(scans[|changes|])
    ensures n < threshold ==> Tried(scans, changes + [n], threshold, xs + scans[|changes|])
    ensures n >= threshold ==> Trying(scans, changes + [n], threshold, xs + scans[|changes|])
  {
    var k := |changes|;
    assert scans[..k + 1][..k] == scans[..k];
    EnoughMore(scans, changes, threshold, n);
  }

  lemma TriedAll(scans: seq<seq<int>>, changes: seq<nat>, threshold: nat, xs: seq<int>)
    requires Trying(scans, changes, threshold, xs) && |changes| == |scans|
    ensures Tried(scans, changes, threshold, xs)
  {
  }

  lemma Taken(xs: seq<int>, slots: seq<int>, k: nat)
    requires k < |slots|
    ensures xs + slots[..k + 1] == xs + slots[..k] + [slots[k]]
    ensures Requests(slots[..k + 1]) == Requests(slots[..k]) + if IsRequest(slots[k]) then 1 else 0
  {
    assert slots[..k + 1] == slots[..k] + [slots[k]];
    Snoc(slots[..k], slots[k]);
  }

  lemma AnswersSnoc(q: seq<int>, xs: seq<int>, answers: seq<int>, x: int, a: int)
    requires Answers(q, xs, answers)
    requires a == if x > NULL_VALUE then NULL_VALUE else if x == DEQ_VALUE
      then (if Deqs(xs) < |q| then -q[Deqs(xs)] else NULL_VALUE) else x
    ensures Answers(q, xs + [x], answers + [a])
  {
    forall j | 0 <= j < |xs + [x]| ensures (answers + [a])[j] == AnswerTo(q, xs + [x], j) {
      assert (xs + [x])[..j] == if j < |xs| then xs[..j] else xs;
    }
  }

  /** The values that dequeues took, in the order they took them. */
  function Out(xs: seq<int>, answers: seq<int>): seq<int>
    requires |answers| == |xs|
  {
    if xs == [] then [] else
    var n := |xs| - 1;
    var rest := Out(xs[..n], answers[..n]);
    if xs[n] == DEQ_VALUE && answers[n] != NULL_VALUE then rest + [-answers[n]] else rest
  }

  lemma {:induction false} OutIs(q: seq<int>, xs: seq<int>, answers: seq<int>)
    requires Answers(q, xs, answers) && forall k :: 0 <= k < |q| ==> q[k] != 0
    ensures Out(xs, answers) == if Deqs(xs) <= |q| then q[..Deqs(xs)] else q
  {
    if xs != [] {
      var n := |xs| - 1;
      var ys, k := xs[..n], Deqs(xs[..n]);
      forall j | 0 <= j < n ensures answers[..n][j] == AnswerTo(q, ys, j) {
        assert answers[j] == AnswerTo(q, xs, j) && xs[..j] == ys[..j];
      }
      OutIs(q, ys, answers[..n]);
      assert answers[n] == AnswerTo(q, xs, n);
      if xs[n] == DEQ_VALUE && k < |q| { assert q[..k + 1] == q[..k] + [q[k]]; }
    }
  }

  /** First in, first out: what leaves in a pass, followed by what is left, is what was there followed by what came. */
  lemma PassIsFifo(q: seq<int>, xs: seq<int>, answers: seq<int>)
    requires Answers(q, xs, answers) && forall k :: 0 <= k < |q| ==> q[k] != 0
    ensures Out(xs, answers) + (Dropped(q, Deqs(xs)) + Enqs(xs)) == q + Enqs(xs)
  {
    OutIs(q, xs, answers);
    var out, rest, enq := Out(xs, answers), Dropped(q, Deqs(xs)), Enqs(xs);
    assert out + rest == q;
    assert out + (rest + enq) == (out + rest) + enq;
  }

  // ---------------------------------------------------------------- chunks

  /** From index `lo` the chunk holds `part`, then the terminator. */
  ghost predicate Holds(values: seq<int>, lo: nat, part: seq<int>) {
    && 0 < lo && lo + |part| < |values|
    && (forall k :: 0 <= k < |part| ==> part[k] > 0 && values[lo + k] == part[k])
    && values[lo + |part|] == 0
  }

  ghost predicate Linked(m: Store, cs: seq<Ptr>) {
    && |cs| > 0
    && (forall i, j :: 0 <= i < j < |cs| ==> cs[i] != cs[j])
    && (forall i :: 0 <= i < |cs| ==> cs[i] in m)
    && (forall i :: 0 <= i < |cs| - 1 ==> m[cs[i]].next == Some(cs[i + 1]))
    && m[cs[|cs| - 1]].next == None
  }

  /** The live chunks, oldest first, hold `ps`; reading of the oldest is at `d`. */
  ghost predicate Live(m: Store, cs: seq<Ptr>, ps: seq<seq<int>>, d: nat) {
    && Linked(m, cs) && |ps| == |cs|
    && Holds(m[cs[0]].values, d, ps[0])
    && (forall i :: 0 < i < |cs| ==> Holds(m[cs[i]].values, 1, ps[i]) && m[cs[i]].values[0] == 1)
  }

  ghost function Joined(ps: seq<seq<int>>): seq<int> {
    if ps == [] then [] else ps[0] + Joined(ps[1..])
  }

  lemma {:induction false} JoinedPositive(ps: seq<seq<int>>)
    requires forall i, k :: 0 <= i < |ps| && 0 <= k < |ps[i]| ==> ps[i][k] > 0
    ensures forall k :: 0 <= k < |Joined(ps)| ==> Joined(ps)[k] > 0
  {
    if ps != [] {
      JoinedPositive(ps[1..]);
    }
  }

  lemma JoinedPop(ps: seq<seq<int>>)
    requires ps != [] && ps[0] != []
    ensures Joined(ps) == [ps[0][0]] + Joined(ps[0 := ps[0][1..]])
  {
    assert ps[0 := ps[0][1..]][1..] == ps[1..];
    assert ps[0] == [ps[0][0]] + ps[0][1..];
  }

  lemma {:induction false} JoinedSnoc(ps: seq<seq<int>>, p: seq<int>)
    ensures Joined(ps + [p]) == Joined(ps) + p
  {
    if ps == [] {
      assert [p][1..] == [];
    } else {
      JoinedSnoc(ps[1..], p);
      assert (ps + [p])[1..] == ps[1..] + [p];
    }
  }

  /** The chunk being filled: `added` so far, and room for at least one value and the terminator. */
  ghost predicate Filling(m: Store, cs: seq<Ptr>, nn: Option<Ptr>, size: int, added: seq<int>) {
    && nn.Some? && nn.value in m && nn.value !in cs
    && var ch := m[nn.value];
    && |added| < size && ch.next == None && |ch.values| == size + 2 && ch.values[0] == 1
    && (forall k :: 0 <= k < |added| ==> added[k] > 0 && ch.values[1 + k] == added[k])
  }

  /** What `memcpy` puts into the larger chunk. */
  function Copied(values: seq<int>, more: seq<int>): (r: seq<int>)
    requires |values| <= |more|
    ensures |r| == |more| && forall k :: 0 <= k < |values| ==> r[k] == values[k]
  {
    values + more[|values|..]
  }

  lemma LiveFrame(m: Store, m': Store, cs: seq<Ptr>, ps: seq<seq<int>>, d: nat)
    requires Live(m, cs, ps, d) && forall p :: p in cs ==> p in m' && m'[p] == m[p]
    ensures Live(m', cs, ps, d)
  {
    forall i | 0 <= i < |cs| ensures cs[i] in m' && m'[cs[i]] == m[cs[i]] {
      assert cs[i] in cs;
    }
  }

  lemma LivePop(m: Store, cs: seq<Ptr>, ps: seq<seq<int>>, d: nat)
    requires Live(m, cs, ps, d) && ps[0] != []
    ensures m[cs[0]].values[d] == ps[0][0] > 0 && Live(m, cs, ps[0 := ps[0][1..]], d + 1)
  {
  }

  lemma LiveEnd(m: Store, cs: seq<Ptr>, ps: seq<seq<int>>, d: nat)
    requires Live(m, cs, ps, d)
    ensures d < |m[cs[0]].values| && (m[cs[0]].values[d] == 0 <==> ps[0] == [])
    ensures m[cs[0]].next.Some? <==> |cs| > 1
  {
    if |cs| > 1 { assert m[cs[0]].next == Some(cs[1]); }
    if ps[0] != [] { assert m[cs[0]].values[d + 0] == ps[0][0]; }
  }

  /** At the terminator of a chunk that is not the last, the next one takes over, whole. */
  lemma LiveCross(m: Store, m': Store, cs: seq<Ptr>, ps: seq<seq<int>>, d: nat)
    requires Live(m, cs, ps, d) && ps[0] == [] && |cs| > 1
    requires forall p :: p in cs && p != cs[0] ==> p in m' && m'[p] == m[p]
    ensures m[cs[0]].next == Some(cs[1]) && cs[1] in m' && |m'[cs[1]].values| > 0 && m'[cs[1]].values[0] == 1
    ensures Live(m', cs[1..], ps[1..], 1) && Joined(ps[1..]) == Joined(ps) && cs[0] !in cs[1..]
  {
    forall i | 1 <= i < |cs| ensures cs[i] in m' && m'[cs[i]] == m[cs[i]] {
      assert cs[i] in cs;
    }
  }

  /** Writing `values[0]` of the oldest chunk changes no value. */
  lemma LiveSaved(m: Store, m': Store, cs: seq<Ptr>, ps: seq<seq<int>>, d: nat)
    requires Live(m, cs, ps, d) && m' == m[cs[0] := m[cs[0]].(values := m[cs[0]].values[0 := d])]
    ensures Live(m', cs, ps, d)
  {
  }

  lemma LiveAppend(m: Store, m': Store, cs: seq<Ptr>, ps: seq<seq<int>>, d: nat, nn: Ptr, added: seq<int>)
    requires Live(m, cs, ps, d) && nn !in cs && nn in m' && m'[nn].next == None
    requires Holds(m'[nn].values, 1, added) && m'[nn].values[0] == 1
    requires forall p :: p in cs ==> p in m' && m'[p] == (if p == cs[|cs| - 1] then m[p].(next := Some(nn)) else m[p])
    ensures Live(m', cs + [nn], ps + [added], d)
  {
    var cs' := cs + [nn];
    forall i | 0 <= i < |cs|
      ensures cs[i] in m' && m'[cs[i]] == if i == |cs| - 1 then m[cs[i]].(next := Some(nn)) else m[cs[i]]
    {
      assert cs[i] in cs;
    }
  }

  // ---------------------------------------------------------------- the queue

  class FCQueue {
    const numRep: nat
    const repThreshold: nat
    var mem: Store
    var brk: Ptr                // addresses from here on have never been used
    var head: Ptr
    var tail: Ptr
    var nodeSize: int
    var newNode: Option<Ptr>
    ghost var chunks: seq<Ptr>
    ghost var parts: seq<seq<int>>

    /** Exactly the chunks of the list and the spare one are allocated: nothing dangles and nothing leaks. */
    ghost predicate Heap()
      reads this
    {
      && (forall p :: p in mem <==> p in chunks || newNode == Some(p))
      && (forall p :: p in mem ==> p < brk)
      && |chunks| > 0 && tail == chunks[0] && head == chunks[|chunks| - 1]
    }

    ghost predicate Valid()
      reads this
    {
      && Heap()
      && tail in mem && |mem[tail].values| > 0 && mem[tail].values[0] > 0
         && Live(mem, chunks, parts, mem[tail].values[0])
      && nodeSize == 5
      && (newNode.Some? ==>
          newNode.value !in chunks && mem[newNode.value].next == None && |mem[newNode.value].values| == nodeSize + 2)
    }

    ghost function Contents(): seq<int>
      reads this
    {
      Joined(parts)
    }

    /** In the middle of a pass: reading at `d`, `added` put into the new chunk. */
    ghost predicate Mid(d: nat, added: seq<int>)
      reads this
    {
      Heap() && Live(mem, chunks, parts, d) && Filling(mem, chunks, newNode, nodeSize, added)
    }

    constructor (numThreads: nat)
      ensures Valid() && Contents() == []
      ensures numRep == (if numThreads < 2 then numThreads else 2) && repThreshold == (10 * numThreads + 16) / 17
    {
      numRep := if numThreads < 2 then numThreads else 2;
      repThreshold := (10 * numThreads + 16) / 17;
      var garbage := new int[numThreads + 2];
      mem := map[0 := Chunk(None, garbage[..][0 := 1][1 := 0])];
      brk, head, tail := 1, 0, 0;
      nodeSize := 5;
      newNode := None;
      chunks, parts := [0], [[]];
    }

    /** `Node::get_new`: the values are whatever the memory held. */
    method GetNew(numValues: nat) returns (p: Ptr)
      requires forall q :: q in mem ==> q < brk
      modifies this`mem, this`brk
      ensures p == old(brk) && brk == p + 1 && p !in old(mem)
      ensures exists g: seq<int> :: |g| == numValues + 2 && mem == old(mem)[p := Chunk(None, g)]
    {
      var garbage := new int[numValues + 2];
      p := brk;
      brk := brk + 1;
      mem := mem[p := Chunk(None, garbage[..])];
    }

    /** Lines 93-102. */
    method Prepare() returns (d: nat)
      requires Valid()
      modifies this`mem, this`brk, this`newNode
      ensures Mid(d, []) && d == old(mem[tail].values[0])
    {
      d := mem[tail].values[0];
      if newNode.None? {
        var p := GetNew(nodeSize);
        newNode := Some(p);
      }
      var nn := newNode.value;
      mem := mem[nn := mem[nn].(values := mem[nn].values[0 := 1])];
      LiveFrame(old(mem), mem, chunks, parts, d);
    }

    /** Lines 125-143: a full chunk is replaced by a larger copy, and freed. */
    method Grow(ghost d: nat, ghost added: seq<int>)
      requires Heap() && Live(mem, chunks, parts, d) && nodeSize > 0 && |added| == nodeSize
      requires newNode.Some? && newNode.value in mem && newNode.value !in chunks
      requires |mem[newNode.value].values| == nodeSize + 2
      requires forall k :: 0 <= k < |added| ==> added[k] > 0 && mem[newNode.value].values[1 + k] == added[k]
      modifies this`mem, this`brk, this`newNode, this`nodeSize
      ensures Mid(d, added) && nodeSize == old(nodeSize) + 4
    {
      var nn := newNode.value;
      var nn2 := GetNew(nodeSize + 4);
      mem := mem[nn2 := mem[nn2].(values := Copied(mem[nn].values[..nodeSize + 2], mem[nn2].values))];
      mem := mem - {nn};
      newNode := Some(nn2);
      mem := mem[nn2 := mem[nn2].(values := mem[nn2].values[0 := 1])];
      nodeSize := nodeSize + 4;
      LiveFrame(old(mem), mem, chunks, parts, d);
    }

    /** Lines 118-143. */
    method Enqueue(value: int, enq: nat, numAdded: nat, ghost d: nat, ghost added: seq<int>)
      returns (enq': nat, numAdded': nat)
      requires value > NULL_VALUE && Mid(d, added) && numAdded == |added| && enq == 1 + numAdded
      modifies this`mem, this`brk, this`newNode, this`nodeSize
      ensures Mid(d, added + [value]) && numAdded' == numAdded + 1 && enq' == enq + 1
    {
      var nn := newNode.value;
      mem := mem[nn := mem[nn].(values := mem[nn].values[enq := value])];
      LiveFrame(old(mem), mem, chunks, parts, d);
      enq' := enq + 1;
      numAdded' := numAdded + 1;
      if numAdded' >= nodeSize {
        var size := nodeSize;
        Grow(d, added + [value]);
        enq' := 1 + size;
      }
    }

    /** Lines 155-160 and 176-178: the exhausted chunk is freed, the next one takes over. */
    method Cross(ghost deq: nat, ghost added: seq<int>) returns (deq': nat)
      requires Mid(deq, added) && parts[0] == [] && mem[tail].next.Some?
      modifies this`mem, this`tail, this`chunks, this`parts
      ensures Mid(deq', added) && Contents() == old(Contents()) && deq' == mem[tail].values[0]
      ensures chunks == old(chunks)[1..] && old(tail) !in mem && head != old(tail)
    {
      LiveEnd(mem, chunks, parts, deq);
      LiveCross(mem, mem - {tail}, chunks, parts, deq);
      var recycled := tail;
      tail := mem[tail].next.value;
      deq' := mem[tail].values[0];
      mem := mem - {recycled};
      CrossHeap(old(mem), chunks, newNode);
      chunks, parts := chunks[1..], parts[1..];
    }

    /** Lines 149-166: `None` when a chunk boundary was crossed and the slot must be looked at again. */
    method Dequeue(deq: nat, ghost added: seq<int>) returns (deq': nat, answer: Option<int>)
      requires Mid(deq, added)
      modifies this`mem, this`tail, this`chunks, this`parts
      ensures Mid(deq', added)
      ensures answer.None? ==> |chunks| == |old(chunks)| - 1 && Contents() == old(Contents())
      ensures answer.Some? ==> chunks == old(chunks) && Contents() == Dropped(old(Contents()), 1)
      ensures answer.Some? ==> answer.value == if old(Contents()) == [] then NULL_VALUE else -old(Contents())[0]
    {
      LiveEnd(mem, chunks, parts, deq);
      var curr := mem[tail].values[deq];
      if 0 != curr {
        answer := Some(-curr);
        deq' := deq + 1;
        LivePop(mem, chunks, parts, deq);
        JoinedPop(parts);
        parts := parts[0 := parts[0][1..]];
      } else if mem[tail].next.Some? {
        deq' := Cross(deq, added);
        answer := None;
      } else {
        assert parts[1..] == [];
        answer := Some(NULL_VALUE);
        deq' := deq;
      }
    }

    /** A pass that started on `q` has looked at the values `xs` and left `answers` in their slots. */
    ghost predicate InPass(q: seq<int>, xs: seq<int>, answers: seq<int>, deq: nat, enq: nat, numAdded: nat)
      reads this
    {
      && Mid(deq, Enqs(xs)) && numAdded == |Enqs(xs)| && enq == 1 + numAdded && (numAdded == 0 ==> nodeSize == 5)
      && Contents() == Dropped(q, Deqs(xs))
      && Answers(q, xs, answers)
    }

    /** Lines 112-167, one look at a slot that reads `x`; `done` is false when the scan stays at the slot. */
    method Serve(x: int, deq: nat, enq: nat, numAdded: nat, ghost q: seq<int>, ghost xs: seq<int>,
                 ghost answers: seq<int>)
      returns (deq': nat, enq': nat, numAdded': nat, done: bool, ans: int)
      requires InPass(q, xs, answers, deq, enq, numAdded)
      modifies this`mem, this`brk, this`newNode, this`nodeSize, this`tail, this`chunks, this`parts
      ensures done ==> InPass(q, xs + [x], answers + [ans], deq', enq', numAdded') && chunks == old(chunks)
      ensures !done ==> InPass(q, xs, answers, deq', enq', numAdded') && |chunks| == |old(chunks)| - 1 && x == DEQ_VALUE
    {
      deq', enq', numAdded', done, ans := deq, enq, numAdded, true, x;
      Snoc(xs, x);
      if x > NULL_VALUE {
        enq', numAdded' := Enqueue(x, enq, numAdded, deq, Enqs(xs));
        ans := NULL_VALUE;
        AnswersSnoc(q, xs, answers, x, ans);
      } else if x == DEQ_VALUE {
        var a;
        deq', a := Dequeue(deq, Enqs(xs));
        if a.None? {
          done := false;
        } else {
          ans := a.value;
          AnswersSnoc(q, xs, answers, x, ans);
        }
      } else {
        AnswersSnoc(q, xs, answers, x, ans);
      }
    }

    /** Lines 109-169: one scan of the slots. Staying at a slot uses up a chunk, so the scan ends. */
    method Scan(slots: seq<int>, deq: nat, enq: nat, numAdded: nat, ghost q: seq<int>, ghost xs: seq<int>,
                answers: seq<int>)
      returns (deq': nat, enq': nat, numAdded': nat, answers': seq<int>, numChanges: nat)
      requires InPass(q, xs, answers, deq, enq, numAdded)
      modifies this`mem, this`brk, this`newNode, this`nodeSize, this`tail, this`chunks, this`parts
      ensures InPass(q, xs + slots, answers', deq', enq', numAdded')
      ensures numChanges == Requests(slots) + |old(chunks)| - |chunks| && |chunks| <= |old(chunks)|
    {
      deq', enq', numAdded', answers', numChanges := deq, enq, numAdded, answers, 0;
      var k := 0;
      assert xs + slots[..0] == xs;
      while k < |slots|
        invariant 0 <= k <= |slots| && |chunks| <= |old(chunks)|
        invariant InPass(q, xs + slots[..k], answers', deq', enq', numAdded')
        invariant numChanges == Requests(slots[..k]) + |old(chunks)| - |chunks|
        decreases |slots| - k, |chunks|
      {
        var x := slots[k];
        var done, ans;
        deq', enq', numAdded', done, ans := Serve(x, deq', enq', numAdded', q, xs + slots[..k], answers');
        numChanges := numChanges + if IsRequest(x) then 1 else 0;
        if done {
          answers' := answers' + [ans];
          Taken(xs, slots, k);
          k := k + 1;
        }
      }
      assert slots[..k] == slots;
    }

    /** Lines 175-181: where the next pass will read. */
    method SaveRead(deq: nat, ghost added: seq<int>) returns (ghost d: nat)
      requires Mid(deq, added)
      modifies this`mem, this`tail, this`chunks, this`parts
      ensures Mid(d, added) && Contents() == old(Contents()) && d == mem[tail].values[0]
    {
      LiveEnd(mem, chunks, parts, deq);
      if 0 == mem[tail].values[deq] && mem[tail].next.Some? {
        d := Cross(deq, added);
      } else {
        d := deq;
        mem := mem[tail := mem[tail].(values := mem[tail].values[0 := deq])];
        LiveSaved(old(mem), mem, chunks, parts, deq);
      }
    }

    /** Lines 183-191: the filled chunk is closed and linked behind the last one. */
    method Publish(enq: nat, ghost d: nat, ghost added: seq<int>)
      requires Mid(d, added) && d == mem[tail].values[0] && enq == 1 + |added| && (added == [] ==> nodeSize == 5)
      modifies this`mem, this`head, this`newNode, this`nodeSize, this`chunks, this`parts
      ensures Valid() && Contents() == old(Contents()) + added
    {
      if enq != 1 {
        var nn := newNode.value;
        mem := mem[nn := mem[nn].(values := mem[nn].values[enq := 0])];
        mem := mem[head := mem[head].(next := Some(nn))];
        LiveAppend(old(mem), mem, chunks, parts, d, nn, added);
        JoinedSnoc(parts, added);
        head := nn;
        newNode := None;
        chunks, parts := chunks + [nn], parts + [added];
        nodeSize := 5;
      }
    }

    /** Lines 105-173. */
    method Tries(scans: seq<seq<int>>, deq: nat, ghost q: seq<int>)
      returns (deq': nat, enq: nat, numAdded: nat, ghost xs: seq<int>, answers: seq<int>, changes: seq<nat>)
      requires InPass(q, [], [], deq, 1, 0) && |scans| == numRep
      modifies this`mem, this`brk, this`newNode, this`nodeSize, this`tail, this`chunks, this`parts
      ensures Tried(scans, changes, repThreshold, xs) && InPass(q, xs, answers, deq', enq, numAdded)
    {
      deq', enq, numAdded, xs, answers, changes := deq, 1, 0, [], [], [];
      while |changes| < numRep
        invariant |changes| <= numRep && Trying(scans, changes, repThreshold, xs)
        invariant InPass(q, xs, answers, deq', enq, numAdded)
      {
        var numChanges;
        deq', enq, numAdded, answers, numChanges := Scan(scans[|changes|], deq', enq, numAdded, q, xs, answers);
        TriedMore(scans, changes, repThreshold, xs, numChanges);
        xs := xs + scans[|changes|];
        changes := changes + [numChanges];
        if numChanges < repThreshold {
          return;
        }
      }
      TriedAll(scans, changes, repThreshold, xs);
    }

    /** The pass. All served dequeues are answered, in order, from the queue as it was; then all served enqueues
        are in it, in order. A scan is repeated exactly while the last one made enough changes. */
    method FlatCombining(scans: seq<seq<int>>) returns (answers: seq<int>, changes: seq<nat>)
      requires Valid() && |scans| == numRep
      modifies this`mem, this`brk, this`newNode, this`nodeSize, this`head, this`tail, this`chunks, this`parts
      ensures Valid() && Repeated(scans, changes, repThreshold)
      ensures var xs := Flat(scans[..|changes|]);
        Answers(old(Contents()), xs, answers) && Contents() == Dropped(old(Contents()), Deqs(xs)) + Enqs(xs)
    {
      ghost var q := Contents();
      var deq := Prepare();
      var enq;
      ghost var xs;
      var numAdded;
      deq, enq, numAdded, xs, answers, changes := Tries(scans, deq, q);
      ghost var d := SaveRead(deq, Enqs(xs));
      Publish(enq, d, Enqs(xs));
    }

    lemma ContentsNonZero()
      requires Valid()
      ensures forall k :: 0 <= k < |Contents()| ==> Contents()[k] != 0
    {
      JoinedPositive(parts);
    }

    /** Over any number of passes the queue is first in, first out: `counts[i]` scans made up the i-th pass. */
    method Passes(passes: seq<seq<seq<int>>>) returns (counts: seq<nat>, answers: seq<int>)
      requires Valid() && forall i :: 0 <= i < |passes| ==> |passes[i]| == numRep
      modifies this`mem, this`brk, this`newNode, this`nodeSize, this`head, this`tail, this`chunks, this`parts
      ensures Valid() && Passed(passes, counts, answers, old(Contents()), Contents())
    {
      counts, answers := [], [];
      for i := 0 to |passes|
        invariant Valid() && Passed(passes[..i], counts, answers, old(Contents()), Contents())
      {
        ghost var q := Contents();
        ContentsNonZero();
        var more, changes := FlatCombining(passes[i]);
        PassedMore(passes, i, counts, answers, old(Contents()), q, |changes|, more, Contents());
        counts, answers := counts + [|changes|], answers + more;
      }
      assert passes[..|passes|] == passes;
    }
  }

  ghost predicate Scanned(passes: seq<seq<seq<int>>>, counts: seq<nat>) {
    |counts| == |passes| && forall i :: 0 <= i < |passes| ==> counts[i] <= |passes[i]|
  }

  /** Everything that the passes read, when the i-th made `counts[i]` scans. */
  ghost function Seen(passes: seq<seq<seq<int>>>, counts: seq<nat>): seq<int>
    requires Scanned(passes, counts)
  {
    if passes == [] then [] else
    var n := |passes| - 1;
    Seen(passes[..n], counts[..n]) + Flat(passes[n][..counts[n]])
  }

  lemma SeenMore(passes: seq<seq<seq<int>>>, i: nat, counts: seq<nat>, c: nat)
    requires i < |passes| && Scanned(passes[..i], counts) && c <= |passes[i]|
    ensures Scanned(passes[..i + 1], counts + [c])
    ensures Seen(passes[..i + 1], counts + [c]) == Seen(passes[..i], counts) + Flat(passes[i][..c])
  {
    assert passes[..i + 1][..i] == passes[..i] && (counts + [c])[..i] == counts;
  }

  lemma {:induction false} OutConcat(xs: seq<int>, a: seq<int>, ys: seq<int>, b: seq<int>)
    requires |a| == |xs| && |b| == |ys|
    ensures Out(xs + ys, a + b) == Out(xs, a) + Out(ys, b)
  {
    if ys == [] {
      assert xs + ys == xs && a + b == a;
    } else {
      var n := |ys| - 1;
      OutConcat(xs, a, ys[..n], b[..n]);
      assert (xs + ys)[..|xs| + n] == xs + ys[..n] && (a + b)[..|xs| + n] == a + b[..n];
    }
  }

  lemma Chained(taken: seq<int>, q: seq<int>, start: seq<int>, put: seq<int>, out: seq<int>, q': seq<int>,
                enq: seq<int>)
    requires taken + q == start + put && out + q' == q + enq
    ensures (taken + out) + q' == start + (put + enq)
  {
    assert (taken + out) + q' == taken + (out + q') == (taken + q) + enq;
  }

  /** The passes, of which the i-th made `counts[i]` scans, left `answers`: what came out, followed by what is there
      `now`, is what was there at the `start`, followed by what came in. */
  ghost predicate Passed(passes: seq<seq<seq<int>>>, counts: seq<nat>, answers: seq<int>, start: seq<int>,
                         now: seq<int>) {
    && Scanned(passes, counts) && |answers| == |Seen(passes, counts)|
    && Out(Seen(passes, counts), answers) + now == start + Enqs(Seen(passes, counts))
  }

  lemma PassedMore(passes: seq<seq<seq<int>>>, i: nat, counts: seq<nat>, answers: seq<int>, start: seq<int>,
                   q: seq<int>, c: nat, more: seq<int>, q': seq<int>)
    requires i < |passes| && Passed(passes[..i], counts, answers, start, q) && c <= |passes[i]|
    requires forall k :: 0 <= k < |q| ==> q[k] != 0
    requires var xs := Flat(passes[i][..c]); Answers(q, xs, more) && q' == Dropped(q, Deqs(xs)) + Enqs(xs)
    ensures Passed(passes[..i + 1], counts + [c], answers + more, start, q')
  {
    var seen, xs := Seen(passes[..i], counts), Flat(passes[i][..c]);
    PassIsFifo(q, xs, more);
    Chained(Out(seen, answers), q, start, Enqs(seen), Out(xs, more), q', Enqs(xs));
    OutConcat(seen, answers, xs, more);
    Concat(seen, xs);
    SeenMore(passes, i, counts, c);
  }

  lemma CrossHeap(m: Store, cs: seq<Ptr>, nn: Option<Ptr>)
    requires Linked(m, cs) && (forall p :: p in m <==> p in cs || nn == Some(p)) && nn.Some? && nn.value !in cs
    ensures forall p :: p in m - {cs[0]} <==> p in cs[1..] || nn == Some(p)
  {
    forall p ensures p in m - {cs[0]} <==> p in cs[1..] || nn == Some(p) {
      if p in cs {
        var i :| 0 <= i < |cs| && cs[i] == p;
        if i > 0 { assert cs[1..][i - 1] == p; }
      }
    }
  }
}
