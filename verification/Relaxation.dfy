/**
 The edge-relaxation kernel of All_Summer2017/l.c, repeated, on the graph of
 SMC_original/SW/HOST/app/host_only/sgraph_bellman_ford.c: distances are overwritten in place, in 64-bit
 unsigned arithmetic, and `NC` (all ones) means not connected.
 */
module Relaxation {
  import opened Options

  const WORD: int := 0x1_0000_0000_0000_0000
  const NC: int := WORD - 1

  /** Unsigned 64-bit addition. */
  function Plus(a: int, b: int): int { (a + b) % WORD }

  /** An unsigned 64-bit integer. */
  type Word = x: int | 0 <= x < WORD

  datatype Edge = Edge(to: nat, w: Word)

  /** `g[r]` lists the successors of node `r` with their weights; node 0 is the source. */
  type Graph = seq<seq<Edge>>

  /** Edges lead to nodes. */
  ghost predicate Wired(g: Graph) { forall r, c :: 0 <= r < |g| && 0 <= c < |g[r]| ==> g[r][c].to < |g| }

  // ---------------------------------------------------------------- walks

  /** A walk from the source: nothing, or a walk followed by the `c`-th edge of the node `u` it ends in. */
  datatype Walk = Here | Via(before: Walk, u: nat, c: nat)

  function Len(p: Walk): nat { if p.Here? then 0 else Len(p.before) + 1 }

  ghost predicate Real(g: Graph, p: Walk) {
    if p.Here? then |g| > 0
    else Real(g, p.before) && End(g, p.before) == p.u && p.u < |g| && p.c < |g[p.u]| && g[p.u][p.c].to < |g|
  }

  ghost function End(g: Graph, p: Walk): nat {
    if p.Here? then 0 else if p.u < |g| && p.c < |g[p.u]| then g[p.u][p.c].to else 0
  }

  ghost function Weight(g: Graph, p: Walk): nat {
    if p.Here? then 0 else Weight(g, p.before) + if p.u < |g| && p.c < |g[p.u]| then g[p.u][p.c].w else 0
  }

  /** A walk with fewer edges than there are nodes is lighter than `NC`, and one with as many is not heavier. */
  ghost predicate FitsWalk(g: Graph, p: Walk) {
    Real(g, p) && Len(p) <= |g| ==> Weight(g, p) <= NC && (Len(p) < |g| ==> Weight(g, p) < NC)
  }

  /** There is a source, edges lead to nodes, and walks are light enough. */
  ghost predicate Fits(g: Graph) { |g| > 0 && Wired(g) && forall p :: FitsWalk(g, p) }

  /** A walk to `v`. */
  ghost predicate To(g: Graph, p: Walk, v: nat) { Real(g, p) && End(g, p) == v }

  /** There is a walk to `v` of weight `x`. */
  ghost predicate HasWalk(g: Graph, v: nat, x: int) { exists p :: To(g, p, v) && Weight(g, p) == x }

  // ---------------------------------------------------------------- what the distances mean

  ghost predicate SoundAt(g: Graph, d: seq<int>, v: nat) { v < |d| && d[v] != NC ==> HasWalk(g, v, d[v]) }

  /** A distance is missing, or the weight of a walk. */
  ghost predicate Sound(g: Graph, d: seq<int>) { forall v :: SoundAt(g, d, v) }

  ghost predicate Covered(g: Graph, d: seq<int>, k: nat, p: Walk) {
    Real(g, p) && Len(p) <= k && End(g, p) < |d| ==> d[End(g, p)] <= Weight(g, p)
  }

  /** No walk of at most `k` edges is lighter than the distance of its end. */
  ghost predicate Covers(g: Graph, d: seq<int>, k: nat) { forall p :: Covered(g, d, k, p) }

  ghost function Known(d: seq<int>): nat {
    if d == [] then 0 else Known(d[..|d| - 1]) + if d[|d| - 1] != NC then 1 else 0
  }

  /** A walk to `v` with fewer than `k` edges, and no lighter than `x`. */
  ghost predicate Near(g: Graph, x: int, v: nat, k: nat, p: Walk) {
    Real(g, p) && End(g, p) == v && Len(p) < k && x <= Weight(g, p)
  }

  ghost predicate NearAt(g: Graph, d: seq<int>, k: nat, v: nat) {
    v < |d| && d[v] != NC ==> exists p :: Near(g, d[v], v, k, p)
  }

  ghost predicate AllNear(g: Graph, d: seq<int>, k: nat) { forall v :: NearAt(g, d, k, v) }

  /** Distances are machine words, and each known one is bounded by a walk with fewer edges than nodes are known. */
  ghost predicate Small(g: Graph, d: seq<int>) {
    (forall v :: 0 <= v < |d| ==> 0 <= d[v] <= NC) && AllNear(g, d, Known(d))
  }

  lemma {:induction false} KnownUpdate(d: seq<int>, v: nat, x: int)
    requires v < |d|
    ensures Known(d[v := x]) + (if d[v] != NC then 1 else 0) == Known(d) + if x != NC then 1 else 0
    decreases |d|
  {
    var n := |d| - 1;
    if v < n {
      KnownUpdate(d[..n], v, x);
      assert d[v := x][..n] == d[..n][v := x];
    } else {
      assert d[v := x][..n] == d[..n];
    }
  }

  lemma {:induction false} KnownBound(d: seq<int>)
    ensures Known(d) <= |d|
  {
    if d != [] {
      KnownBound(d[..|d| - 1]);
    }
  }

  /** Adding a weight to a known distance does not wrap. */
  lemma NoWrap(g: Graph, d: seq<int>, u: nat, c: nat)
    requires Fits(g) && |d| == |g| && Small(g, d) && u < |g| && c < |g[u]| && d[u] != NC
    ensures d[u] + g[u][c].w <= NC && Plus(d[u], g[u][c].w) == d[u] + g[u][c].w
  {
    KnownBound(d);
    assert NearAt(g, d, Known(d), u);
    var p :| Near(g, d[u], u, Known(d), p);
    var q := Via(p, u, c);
    assert FitsWalk(g, q);
  }

  // ---------------------------------------------------------------- one relaxation

  /** What an edge does to the distances. */
  function Relax(g: Graph, d: seq<int>, u: nat, c: nat): seq<int>
    requires u < |g| == |d| && c < |g[u]| && g[u][c].to < |g|
  {
    var e := g[u][c];
    if d[u] != NC && d[e.to] > Plus(d[u], e.w) then d[e.to := Plus(d[u], e.w)] else d
  }

  /** The place (r, c) of a scan: an edge, the end of a node's edges, or the end of the graph. */
  ghost predicate Place(g: Graph, r: nat, c: nat) { if r < |g| then c <= |g[r]| else r == |g| && c == 0 }

  /** The distances once the edges before (r, c) have been relaxed, one after the other in scan order. */
  ghost function Upto(g: Graph, d0: seq<int>, r: nat, c: nat): (d: seq<int>)
    requires Wired(g) && |d0| == |g| && Place(g, r, c)
    ensures |d| == |g|
  {
    if c > 0 then Relax(g, Upto(g, d0, r, c - 1), r, c - 1)
    else if r > 0 then Upto(g, d0, r - 1, |g[r - 1]|)
    else d0
  }

  /** When its turn comes, edge (r, c) lowers the distance of the node it leads to. */
  ghost predicate Lowers(g: Graph, d0: seq<int>, r: nat, c: nat)
    requires Wired(g) && |d0| == |g| && r < |g| && c < |g[r]|
  {
    Upto(g, d0, r, c + 1)[g[r][c].to] < Upto(g, d0, r, c)[g[r][c].to]
  }

  /** The sum of the weights of the edges before (r, c) that lower a distance. */
  ghost function Lowered(g: Graph, d0: seq<int>, r: nat, c: nat): nat
    requires Wired(g) && |d0| == |g| && Place(g, r, c)
  {
    if c > 0 then Lowered(g, d0, r, c - 1) + if Lowers(g, d0, r, c - 1) then g[r][c - 1].w else 0
    else if r > 0 then Lowered(g, d0, r - 1, |g[r - 1]|)
    else 0
  }

  ghost predicate Below(d: seq<int>, d0: seq<int>) { |d| == |d0| && forall v :: 0 <= v < |d| ==> d[v] <= d0[v] }

  /** A lowered distance is still bounded by a short walk; a newly known node allows for one more edge. */
  lemma LowerNear(g: Graph, d: seq<int>, u: nat, c: nat, k: nat, k': nat)
    requires Wired(g) && |d| == |g| && AllNear(g, d, k) && u < |g| && c < |g[u]| && d[u] != NC
    requires d[u] + g[u][c].w < d[g[u][c].to]
    requires k' == if d[g[u][c].to] == NC then k + 1 else k
    ensures AllNear(g, d[g[u][c].to := d[u] + g[u][c].w], k')
  {
    var v, x := g[u][c].to, d[u] + g[u][c].w;
    var d' := d[v := x];
    forall z: nat ensures NearAt(g, d', k', z) {
      assert NearAt(g, d, k, u) && NearAt(g, d, k, z);
      if z == v && d[v] == NC {
        var p :| Near(g, d[u], u, k, p);
        assert Near(g, d'[v], v, k', Via(p, u, c));
      } else if z < |d'| && d'[z] != NC {
        var p :| Near(g, d[z], z, k, p);
        assert Near(g, d'[z], z, k', p);
      }
    }
  }

  lemma LowerSmall(g: Graph, d: seq<int>, u: nat, c: nat, x: int)
    requires Wired(g) && |d| == |g| && Small(g, d) && u < |g| && c < |g[u]| && d[u] != NC
    requires x == d[u] + g[u][c].w < d[g[u][c].to]
    ensures Small(g, d[g[u][c].to := x])
  {
    KnownUpdate(d, g[u][c].to, x);
    LowerNear(g, d, u, c, Known(d), Known(d[g[u][c].to := x]));
  }

  lemma RelaxSmall(g: Graph, d: seq<int>, u: nat, c: nat)
    requires Fits(g) && |d| == |g| && Small(g, d) && u < |g| && c < |g[u]|
    ensures var d' := Relax(g, d, u, c);
      Small(g, d') && Below(d', d) && (d[u] != NC ==> d'[g[u][c].to] <= d[u] + g[u][c].w)
  {
    var e := g[u][c];
    if d[u] != NC {
      NoWrap(g, d, u, c);
      var x := d[u] + e.w;
      if d[e.to] > x {
        LowerSmall(g, d, u, c, x);
        assert Relax(g, d, u, c) == d[e.to := x];
      }
    }
  }

  lemma RelaxSound(g: Graph, d: seq<int>, u: nat, c: nat)
    requires Fits(g) && |d| == |g| && Small(g, d) && Sound(g, d) && u < |g| && c < |g[u]|
    ensures Sound(g, Relax(g, d, u, c))
  {
    var d' := Relax(g, d, u, c);
    if d[u] != NC {
      NoWrap(g, d, u, c);
      assert SoundAt(g, d, u);
      var p :| To(g, p, u) && Weight(g, p) == d[u];
      var q := Via(p, u, c);
      assert To(g, q, g[u][c].to) && Weight(g, q) == d[u] + g[u][c].w;
    }
    forall v ensures SoundAt(g, d', v) {
      assert SoundAt(g, d, v);
    }
  }

  // ---------------------------------------------------------------- one pass, in place

  /** If edge (u, k) comes before (r, c) in scan order, its end is no farther than the edge makes it from `d0`. */
  ghost predicate ScannedAt(g: Graph, d0: seq<int>, d: seq<int>, r: nat, c: nat, u: nat, k: nat)
    requires |d0| == |d| == |g|
  {
    u < |g| && k < |g[u]| && (u < r || (u == r && k < c)) && g[u][k].to < |d| && d0[u] != NC ==>
      d[g[u][k].to] <= d0[u] + g[u][k].w
  }

  /** The edges before (r, c) in scan order have been relaxed, starting from `d0`. */
  ghost predicate Scanned(g: Graph, d0: seq<int>, d: seq<int>, r: nat, c: nat)
    requires |d0| == |d| == |g|
  {
    Below(d, d0) && forall u, k :: ScannedAt(g, d0, d, r, c, u, k)
  }

  lemma ScanMore(g: Graph, d0: seq<int>, d: seq<int>, r: nat, c: nat)
    requires Fits(g) && |d0| == |d| == |g| && Small(g, d0) && Small(g, d) && Scanned(g, d0, d, r, c) && r < |g|
    requires c < |g[r]|
    ensures Scanned(g, d0, Relax(g, d, r, c), r, c + 1)
  {
    RelaxSmall(g, d, r, c);
    assert d0[r] != NC ==> d[r] <= d0[r] != NC && d[r] != NC;
    var d', c' := Relax(g, d, r, c), c + 1;
    forall u, k ensures ScannedAt(g, d0, d', r, c', u, k) {
      assert ScannedAt(g, d0, d, r, c, u, k);
    }
  }

  /** Everything a pass keeps while it is at (r, c). */
  ghost predicate Passing(g: Graph, d0: seq<int>, d: seq<int>, r: nat, c: nat)
  {
    && Fits(g) && |d0| == |d| == |g| && Small(g, d0) && Small(g, d) && Sound(g, d) && Scanned(g, d0, d, r, c)
  }

  lemma PassMore(g: Graph, d0: seq<int>, d: seq<int>, r: nat, c: nat)
    requires Passing(g, d0, d, r, c) && r < |g| && c < |g[r]|
    ensures Passing(g, d0, Relax(g, d, r, c), r, c + 1)
  {
    RelaxSmall(g, d, r, c);
    RelaxSound(g, d, r, c);
    ScanMore(g, d0, d, r, c);
  }

  lemma NextNode(g: Graph, d0: seq<int>, d: seq<int>, r: nat)
    requires r < |g| && Passing(g, d0, d, r, |g[r]|)
    ensures Passing(g, d0, d, r + 1, 0)
  {
    var r' := r + 1;
    forall u, k ensures ScannedAt(g, d0, d, r', 0, u, k) {
      assert ScannedAt(g, d0, d, r, |g[r]|, u, k);
    }
  }

  /** Lines 24-31: one edge. Its weight goes into the checksum if it lowers a distance. */
  method RelaxEdge(g: Graph, distance: array<int>, r: nat, c: nat, checksum: Word) returns (checksum': Word)
    requires r < |g| == distance.Length && c < |g[r]| && g[r][c].to < |g|
    modifies distance
    ensures distance[..] == Relax(g, old(distance[..]), r, c)
    ensures checksum' == (checksum + if distance[g[r][c].to] < old(distance[g[r][c].to]) then g[r][c].w else 0) % WORD
  {
    checksum' := checksum;
    var v, w := g[r][c].to, g[r][c].w;
    if distance[r] != NC && distance[v] > Plus(distance[r], w) {
      distance[v] := Plus(distance[r], w);
      checksum' := Plus(checksum', w);
    }
  }

  /** Distances and checksum of a pass that has come to (r, c). */
  ghost predicate Reached(g: Graph, d0: seq<int>, r: nat, c: nat, d: seq<int>, checksum: int)
    requires Wired(g) && |d0| == |g| && Place(g, r, c)
  {
    d == Upto(g, d0, r, c) && checksum == Lowered(g, d0, r, c) % WORD
  }

  lemma ReachedMore(g: Graph, d0: seq<int>, r: nat, c: nat, d: seq<int>, checksum: int, d': seq<int>, checksum': int)
    requires Wired(g) && |d0| == |d| == |g| && r < |g| && c < |g[r]| && Reached(g, d0, r, c, d, checksum)
    requires d' == Relax(g, d, r, c)
    requires checksum' == (checksum + if d'[g[r][c].to] < d[g[r][c].to] then g[r][c].w else 0) % WORD
    ensures Reached(g, d0, r, c + 1, d', checksum')
  {
    assert Upto(g, d0, r, c + 1) == Relax(g, Upto(g, d0, r, c), r, c);
    PlusWrapped(Lowered(g, d0, r, c), if Lowers(g, d0, r, c) then g[r][c].w else 0);
  }

  lemma PlusWrapped(a: nat, b: nat)
    ensures (a % WORD + b) % WORD == (a + b) % WORD
  {
    var q := a / WORD;
    assert a == q * WORD + a % WORD;
    assert (a + b) % WORD == (a % WORD + b + q * WORD) % WORD;
  }

  /** Lines 22-32: the edges of one node. */
  method RelaxNode(g: Graph, distance: array<int>, r: nat, checksum: Word, ghost d0: seq<int>) returns (checksum': Word)
    requires Wired(g) && r < |g| == distance.Length == |d0| && Reached(g, d0, r, 0, distance[..], checksum)
    modifies distance
    ensures Reached(g, d0, r + 1, 0, distance[..], checksum')
  {
    checksum' := checksum;
    for c := 0 to |g[r]|
      invariant Reached(g, d0, r, c, distance[..], checksum')
    {
      ghost var d, sum := distance[..], checksum';
      checksum' := RelaxEdge(g, distance, r, c, checksum');
      ReachedMore(g, d0, r, c, d, sum, distance[..], checksum');
    }
  }

  /** `execute_kernel`: relax every edge in scan order, in place, and add up the weights of those that lower a
      distance. */
  method Kernel(g: Graph, distance: array<int>) returns (checksum: Word)
    requires Wired(g) && distance.Length == |g|
    modifies distance
    ensures distance[..] == Upto(g, old(distance[..]), |g|, 0)
    ensures checksum == Lowered(g, old(distance[..]), |g|, 0) % WORD
  {
    ghost var d0 := distance[..];
    checksum := 0;
    for r := 0 to |g|
      invariant Reached(g, d0, r, 0, distance[..], checksum)
    {
      checksum := RelaxNode(g, distance, r, checksum, d0);
    }
  }

  /** The distances of a pass at (r, c), if they are as they should be. */
  ghost function Stage(g: Graph, d0: seq<int>, r: nat, c: nat): Option<seq<int>>
    requires Wired(g) && |d0| == |g| && Place(g, r, c)
  {
    var d := Upto(g, d0, r, c);
    if Passing(g, d0, d, r, c) then Some(d) else None
  }

  lemma EdgePassed(g: Graph, d0: seq<int>, d: seq<int>, r: nat, c: nat)
    requires Wired(g) && |d0| == |g| == |d| && r < |g| && c < |g[r]| && Stage(g, d0, r, c) == Some(d)
    ensures Stage(g, d0, r, c + 1) == Some(Relax(g, d, r, c))
  {
    assert Upto(g, d0, r, c + 1) == Relax(g, d, r, c);
    PassMore(g, d0, d, r, c);
  }

  lemma NodePassed(g: Graph, d0: seq<int>, d: seq<int>, r: nat)
    requires Wired(g) && |d0| == |g| && r < |g| && Stage(g, d0, r, |g[r]|) == Some(d)
    ensures Stage(g, d0, r + 1, 0) == Some(d)
  {
    assert Upto(g, d0, r + 1, 0) == Upto(g, d0, r, |g[r]|);
    NextNode(g, d0, d, r);
  }

  lemma {:induction false} EdgesPassed(g: Graph, d0: seq<int>, d: seq<int>, r: nat, c: nat) returns (d': seq<int>)
    requires Wired(g) && |d0| == |g| == |d| && r < |g| && c <= |g[r]| && Stage(g, d0, r, 0) == Some(d)
    ensures |d'| == |g| && Stage(g, d0, r, c) == Some(d')
    decreases c
  {
    d' := d;
    if c > 0 {
      var b := EdgesPassed(g, d0, d, r, c - 1);
      EdgePassed(g, d0, b, r, c - 1);
      d' := Relax(g, b, r, c - 1);
    }
  }

  /** A pass keeps the distances sound, at every point of it. */
  lemma {:induction false} Passed(g: Graph, d0: seq<int>, r: nat) returns (d: seq<int>)
    requires Fits(g) && |d0| == |g| && Small(g, d0) && Sound(g, d0) && r <= |g|
    ensures |d| == |g| && Stage(g, d0, r, 0) == Some(d)
    decreases r
  {
    if r == 0 {
      d := d0;
      NothingScanned(g, d0);
    } else {
      d := Passed(g, d0, r - 1);
      d := EdgesPassed(g, d0, d, r - 1, |g[r - 1]|);
      NodePassed(g, d0, d, r - 1);
    }
  }

  lemma NothingScanned(g: Graph, d0: seq<int>)
    requires Fits(g) && |d0| == |g| && Small(g, d0) && Sound(g, d0)
    ensures Passing(g, d0, d0, 0, 0)
  {
  }

  /** What a pass achieves: the distances are still weights of walks, and account for walks with one edge more. */
  lemma PassAdvances(g: Graph, d0: seq<int>, k: nat)
    requires Fits(g) && |d0| == |g| && Small(g, d0) && Sound(g, d0) && Covers(g, d0, k)
    ensures var d := Upto(g, d0, |g|, 0); Small(g, d) && Sound(g, d) && Below(d, d0) && Covers(g, d, k + 1)
  {
    var d := Passed(g, d0, |g|);
    PassCovers(g, d0, d, k);
  }

  /** A whole pass accounts for one more edge, although distances change while it runs. */
  lemma PassCovers(g: Graph, d0: seq<int>, d: seq<int>, k: nat)
    requires |d0| == |d| == |g| && Scanned(g, d0, d, |g|, 0) && Covers(g, d0, k)
    requires forall v :: 0 <= v < |d| ==> d[v] <= NC
    ensures Covers(g, d, k + 1)
  {
    var l := k + 1;
    forall p ensures Covered(g, d, l, p) {
      if p.Here? || Len(p) <= k {
        assert Covered(g, d0, k, p);
      } else {
        assert Covered(g, d0, k, p.before) && ScannedAt(g, d0, d, |g|, 0, p.u, p.c);
      }
    }
  }

  // ---------------------------------------------------------------- repeated passes

  function Start(n: nat): seq<int> { seq(n, i => if i == 0 then 0 else NC) }

  lemma {:induction false} StartKnown(n: nat)
    ensures Known(Start(n)) == if n == 0 then 0 else 1
  {
    if n > 0 {
      StartKnown(n - 1);
      assert Start(n)[..n - 1] == Start(n - 1);
    }
  }

  lemma StartOk(g: Graph)
    requires Fits(g)
    ensures var d := Start(|g|); Small(g, d) && Sound(g, d) && Covers(g, d, 0)
  {
    StartKnown(|g|);
    assert To(g, Here, 0) && Weight(g, Here) == 0;
    assert Near(g, Start(|g|)[0], 0, 1, Here);
  }

  /** The distances after `k` passes. */
  ghost function Rounds(g: Graph, k: nat): (d: seq<int>)
    requires Wired(g)
    ensures |d| == |g|
  {
    if k == 0 then Start(|g|) else Upto(g, Rounds(g, k - 1), |g|, 0)
  }

  /** After `k` passes every distance is the weight of a walk, and no walk of at most `k` edges is lighter. */
  lemma {:induction false} RoundsCover(g: Graph, k: nat)
    requires Fits(g)
    ensures Small(g, Rounds(g, k)) && Sound(g, Rounds(g, k)) && Covers(g, Rounds(g, k), k)
  {
    if k == 0 {
      StartOk(g);
    } else {
      RoundsCover(g, k - 1);
      PassAdvances(g, Rounds(g, k - 1), k - 1);
    }
  }

  /** `reset_graph_stats`, then `k` passes. */
  method Passes(g: Graph, k: nat) returns (distance: array<int>)
    requires Wired(g)
    ensures fresh(distance) && distance.Length == |g| && distance[..] == Rounds(g, k)
    ensures Fits(g) ==> Small(g, distance[..]) && Sound(g, distance[..]) && Covers(g, distance[..], k)
  {
    distance := new int[|g|](i => if i == 0 then 0 else NC);
    assert distance[..] == Start(|g|);
    for i := 0 to k
      invariant distance[..] == Rounds(g, i)
    {
      var checksum := Kernel(g, distance);
    }
    if Fits(g) {
      RoundsCover(g, k);
    }
  }

  // ---------------------------------------------------------------- short walks are enough

  ghost function Prefix(p: Walk, k: nat): Walk
    requires k <= Len(p)
  {
    if Len(p) == k then p else Prefix(p.before, k)
  }

  lemma {:induction false} PrefixReal(g: Graph, p: Walk, k: nat)
    requires Real(g, p) && k <= Len(p)
    ensures Real(g, Prefix(p, k)) && Len(Prefix(p, k)) == k && End(g, Prefix(p, k)) < |g|
    ensures Weight(g, Prefix(p, k)) <= Weight(g, p)
  {
    if k < Len(p) {
      PrefixReal(g, p.before, k);
    }
  }

  /** The walk without its edges number i + 1 to j. */
  ghost function Cut(p: Walk, i: nat, j: nat): Walk
    requires i < j <= Len(p)
  {
    if Len(p) == j then Prefix(p, i) else Via(Cut(p.before, i, j), p.u, p.c)
  }

  lemma {:induction false} CutReal(g: Graph, p: Walk, i: nat, j: nat)
    requires Real(g, p) && i < j <= Len(p) && End(g, Prefix(p, i)) == End(g, Prefix(p, j))
    ensures var q := Cut(p, i, j);
      Real(g, q) && End(g, q) == End(g, p) && Len(q) < Len(p) && Weight(g, q) <= Weight(g, p)
  {
    if Len(p) == j {
      PrefixReal(g, p, i);
    } else {
      CutReal(g, p.before, i, j);
    }
  }

  /** More stops than nodes: some node is visited twice. */
  lemma {:induction false} Pigeonhole(s: seq<nat>, n: nat) returns (i: nat, j: nat)
    requires |s| > n && forall k :: 0 <= k < |s| ==> s[k] < n
    ensures i < j < |s| && s[i] == s[j]
    decreases n
  {
    assert s[0] < n;
    if a, b :| 0 <= a < b < |s| && s[a] == s[b] == n - 1 {
      i, j := a, b;
    } else {
      var gap := 0;
      if k :| 0 <= k < |s| && s[k] == n - 1 { gap := k; }
      var rest := s[..gap] + s[gap + 1..];
      forall k | 0 <= k < |rest| ensures rest[k] < n - 1 {
        assert rest[k] == s[if k < gap then k else k + 1];
      }
      i, j := Pigeonhole(rest, n - 1);
      i, j := if i < gap then i else i + 1, if j < gap then j else j + 1;
    }
  }

  /** For every walk there is one with fewer edges than nodes, to the same end and no heavier. */
  lemma {:induction false} Shorten(g: Graph, p: Walk) returns (q: Walk)
    requires Real(g, p)
    ensures Real(g, q) && End(g, q) == End(g, p) && Len(q) < |g| && Weight(g, q) <= Weight(g, p)
    decreases Len(p)
  {
    PrefixReal(g, p, 0);
    if Len(p) < |g| {
      q := p;
    } else {
      var stops := seq(Len(p) + 1, k requires 0 <= k <= Len(p) => End(g, Prefix(p, k)));
      forall k | 0 <= k < |stops| ensures stops[k] < |g| { PrefixReal(g, p, k); }
      var i, j := Pigeonhole(stops, |g|);
      CutReal(g, p, i, j);
      q := Shorten(g, Cut(p, i, j));
    }
  }

  lemma {:induction false} WeightBound(g: Graph, top: nat, p: Walk)
    requires Real(g, p) && forall r, c :: 0 <= r < |g| && 0 <= c < |g[r]| ==> g[r][c].w <= top
    ensures Weight(g, p) <= Len(p) * top
  {
    if p.Via? {
      WeightBound(g, top, p.before);
      OneMore(Len(p.before), top);
    }
  }

  lemma Times(a: nat, b: nat, top: nat)
    requires a <= b
    ensures a * top <= b * top
  {
  }

  lemma OneMore(k: nat, top: nat)
    ensures (k + 1) * top == k * top + top
  {
  }

  /** Edges lead to nodes, and no weight is above `top`. */
  ghost predicate Light(g: Graph, top: Word) {
    forall r, c :: 0 <= r < |g| && 0 <= c < |g[r]| ==> g[r][c].to < |g| && g[r][c].w <= top
  }

  /** A bound on the weights that is enough. */
  lemma LightWeights(g: Graph, top: Word)
    requires |g| > 0 && |g| * top <= NC && Light(g, top)
    ensures Fits(g)
  {
    forall p ensures FitsWalk(g, p) {
      if Real(g, p) && Len(p) <= |g| {
        WeightBound(g, top, p);
        Times(Len(p), |g|, top);
        if Len(p) < |g| {
          Times(Len(p) + 1, |g|, top);
          OneMore(Len(p), top);
        }
      }
    }
  }

  /** `x` is the distance of `v`: missing exactly when no walk reaches `v`, and otherwise the least weight of a walk. */
  ghost predicate Distance(g: Graph, x: int, v: nat) {
    && (x == NC <==> !exists p :: To(g, p, v))
    && (forall p :: To(g, p, v) ==> x <= Weight(g, p))
    && (x != NC ==> HasWalk(g, v, x))
  }

  ghost predicate Shortest(g: Graph, d: seq<int>) {
    |d| == |g| && forall v :: 0 <= v < |d| ==> Distance(g, d[v], v)
  }

  lemma WalkCovered(g: Graph, d: seq<int>, p: Walk, v: nat)
    requires Fits(g) && |d| == |g| && Covers(g, d, |g| - 1) && To(g, p, v)
    ensures v < |g| && d[v] <= Weight(g, p) && d[v] < NC
  {
    var q := Shorten(g, p);
    PrefixReal(g, q, Len(q));
    assert FitsWalk(g, q) && Covered(g, d, |g| - 1, q);
  }

  lemma DistanceFound(g: Graph, d: seq<int>, v: nat)
    requires Fits(g) && |d| == |g| && Sound(g, d) && Covers(g, d, |g| - 1) && v < |g|
    ensures Distance(g, d[v], v)
  {
    forall p | To(g, p, v) ensures d[v] <= Weight(g, p) && d[v] < NC {
      WalkCovered(g, d, p, v);
    }
    assert SoundAt(g, d, v);
  }

  lemma DistancesFound(g: Graph, d: seq<int>)
    requires Fits(g) && |d| == |g| && Sound(g, d) && Covers(g, d, |g| - 1)
    ensures Shortest(g, d)
  {
    forall v | 0 <= v < |d| ensures Distance(g, d[v], v) {
      DistanceFound(g, d, v);
    }
  }

  /** After one pass fewer than there are nodes the distances are the shortest ones. */
  lemma ShortestPaths(g: Graph)
    requires Fits(g)
    ensures Shortest(g, Rounds(g, |g| - 1))
  {
    RoundsCover(g, |g| - 1);
    DistancesFound(g, Rounds(g, |g| - 1));
  }

  // ---------------------------------------------------------------- what the checksum says

  /** The weights of the edges before (r, c), added up. */
  ghost function Total(g: Graph, r: nat, c: nat): nat
    requires Place(g, r, c)
  {
    if c > 0 then Total(g, r, c - 1) + g[r][c - 1].w else if r > 0 then Total(g, r - 1, |g[r - 1]|) else 0
  }

  ghost predicate PositiveWeights(g: Graph) { forall r, c :: 0 <= r < |g| && 0 <= c < |g[r]| ==> g[r][c].w > 0 }

  /** A distance has been lowered, and none raised. */
  ghost predicate Lower(d: seq<int>, d0: seq<int>) { Below(d, d0) && exists v :: 0 <= v < |d| && d[v] < d0[v] }

  /** The sum is at most that of all weights, and positive exactly when a distance has been lowered. */
  ghost predicate Sums(d0: seq<int>, d: seq<int>, lowered: nat, total: nat) {
    lowered <= total && if lowered == 0 then d == d0 else Lower(d, d0)
  }

  lemma SumsMore(g: Graph, d0: seq<int>, d: seq<int>, r: nat, c: nat, lowered: nat, total: nat)
    requires Wired(g) && |d0| == |d| == |g| && r < |g| && c < |g[r]| && g[r][c].w > 0 && Sums(d0, d, lowered, total)
    ensures var d', v := Relax(g, d, r, c), g[r][c].to;
      Sums(d0, d', lowered + (if d'[v] < d[v] then g[r][c].w else 0), total + g[r][c].w)
  {
    var d', v := Relax(g, d, r, c), g[r][c].to;
    if d'[v] < d[v] {
      assert Below(d', d0) && d'[v] < d0[v];
    }
  }

  lemma {:induction false} LoweredSums(g: Graph, d0: seq<int>, r: nat, c: nat)
    requires Wired(g) && |d0| == |g| && Place(g, r, c) && PositiveWeights(g)
    ensures Sums(d0, Upto(g, d0, r, c), Lowered(g, d0, r, c), Total(g, r, c))
    decreases r, c
  {
    if c > 0 {
      LoweredSums(g, d0, r, c - 1);
      SumsMore(g, d0, Upto(g, d0, r, c - 1), r, c - 1, Lowered(g, d0, r, c - 1), Total(g, r, c - 1));
    } else if r > 0 {
      LoweredSums(g, d0, r - 1, |g[r - 1]|);
    }
  }

  lemma SumsZero(d0: seq<int>, d: seq<int>, lowered: nat, total: nat)
    requires Sums(d0, d, lowered, total) && total < WORD
    ensures lowered % WORD == 0 <==> d == d0
  {
    if lowered > 0 {
      var v :| 0 <= v < |d| && d[v] < d0[v];
    }
  }

  /** The checksum of a pass is 0 exactly when the pass changes nothing. */
  lemma ZeroChecksum(g: Graph, d0: seq<int>)
    requires Wired(g) && |d0| == |g| && PositiveWeights(g) && Total(g, |g|, 0) < WORD
    ensures Lowered(g, d0, |g|, 0) % WORD == 0 <==> Upto(g, d0, |g|, 0) == d0
  {
    LoweredSums(g, d0, |g|, 0);
    SumsZero(d0, Upto(g, d0, |g|, 0), Lowered(g, d0, |g|, 0), Total(g, |g|, 0));
  }

  lemma {:induction false} StaysCovers(g: Graph, d: seq<int>, k: nat)
    requires Fits(g) && |d| == |g| && Small(g, d) && Sound(g, d) && Covers(g, d, 0) && Upto(g, d, |g|, 0) == d
    ensures Covers(g, d, k)
  {
    if k > 0 {
      StaysCovers(g, d, k - 1);
      PassAdvances(g, d, k - 1);
    }
  }

  lemma ShortestStays(g: Graph, d: seq<int>)
    requires Fits(g) && |d| == |g| && Small(g, d) && Sound(g, d) && Covers(g, d, 0) && Shortest(g, d)
    ensures Upto(g, d, |g|, 0) == d
  {
    var d' := Upto(g, d, |g|, 0);
    PassAdvances(g, d, 0);
    forall v | 0 <= v < |g| ensures d'[v] == d[v] {
      assert Distance(g, d[v], v) && SoundAt(g, d', v);
      if d'[v] != NC {
        var p :| To(g, p, v) && Weight(g, p) == d'[v];
      }
    }
  }

  /** A checksum of 0 tells that the work is done: the distances are the shortest ones, and otherwise it is not 0. */
  lemma ZeroMeansDone(g: Graph, d: seq<int>)
    requires Fits(g) && PositiveWeights(g) && Total(g, |g|, 0) < WORD
    requires |d| == |g| && Small(g, d) && Sound(g, d) && Covers(g, d, 0)
    ensures Lowered(g, d, |g|, 0) % WORD == 0 <==> Shortest(g, d)
  {
    ZeroChecksum(g, d);
    if Upto(g, d, |g|, 0) == d {
      StaysCovers(g, d, |g| - 1);
      DistancesFound(g, d);
    }
    if Shortest(g, d) {
      ShortestStays(g, d);
    }
  }

  /** After any number of passes: the next one answers 0 exactly when the distances are the shortest ones. */
  lemma RoundsDone(g: Graph, k: nat)
    requires Fits(g) && PositiveWeights(g) && Total(g, |g|, 0) < WORD
    ensures Lowered(g, Rounds(g, k), |g|, 0) % WORD == 0 <==> Shortest(g, Rounds(g, k))
  {
    RoundsCover(g, k);
    forall p ensures Covered(g, Rounds(g, k), 0, p) { assert Covered(g, Rounds(g, k), k, p); }
    ZeroMeansDone(g, Rounds(g, k));
  }

  // ---------------------------------------------------------------- without the bound

  const HALF: nat := 0x8000_0000_0000_0000

  /** Two edges in a row whose weights add up to 2^64. */
  const HEAVY: Graph := [[Edge(1, HALF)], [Edge(2, HALF)], []]

  lemma HeavyWalk(p: Walk)
    requires Real(HEAVY, p)
    ensures Weight(HEAVY, p) == HALF * End(HEAVY, p) && Len(p) == End(HEAVY, p)
  {
    if p.Via? {
      HeavyWalk(p.before);
      assert p.u == 0 || p.u == 1;
    }
  }

  /** The sum wraps to 0: node 2 gets distance 0, which is not the weight of any walk to it. */
  lemma WrapsWithoutBound()
    ensures Wired(HEAVY) && Upto(HEAVY, Start(3), 3, 0)[2] == 0
    ensures forall p :: Real(HEAVY, p) && End(HEAVY, p) == 2 ==> Weight(HEAVY, p) == WORD
  {
    var d0 := Start(3);
    assert Upto(HEAVY, d0, 0, 0) == [0, NC, NC];
    assert Upto(HEAVY, d0, 0, 1) == [0, HALF, NC];
    assert Upto(HEAVY, d0, 1, 0) == [0, HALF, NC];
    assert Upto(HEAVY, d0, 1, 1) == [0, HALF, 0];
    assert Upto(HEAVY, d0, 2, 0) == [0, HALF, 0];
    forall p | Real(HEAVY, p) && End(HEAVY, p) == 2 ensures Weight(HEAVY, p) == WORD { HeavyWalk(p); }
  }

  // ---------------------------------------------------------------- exactly which weights are safe

  /** A line through all nodes, and an edge from its end back to node 1. */
  function Ring(n: nat, top: Word): Graph {
    seq(n, r requires 0 <= r < n => [Edge(if r + 1 < n then r + 1 else 1, top)])
  }

  lemma RingStep(n: nat, top: Word, p: Walk)
    requires n >= 2 && p.Via? && Real(Ring(n, top), p)
    ensures var g := Ring(n, top); Weight(g, p) == Weight(g, p.before) + top && End(g, p) <= End(g, p.before) + 1
  {
    assert Ring(n, top)[p.u] == [Edge(if p.u + 1 < n then p.u + 1 else 1, top)];
  }

  lemma {:induction false} RingWalk(n: nat, top: Word, p: Walk)
    requires n >= 2 && Real(Ring(n, top), p)
    ensures var g := Ring(n, top); Weight(g, p) == Len(p) * top && End(g, p) <= Len(p)
  {
    if p.Via? {
      RingStep(n, top, p);
      RingWalk(n, top, p.before);
      OneMore(Len(p.before), top);
    }
  }

  function Along(v: nat): Walk { if v == 0 then Here else Via(Along(v - 1), v - 1, 0) }

  lemma {:induction false} AlongRing(n: nat, top: Word, v: nat)
    requires v < n && n >= 2
    ensures To(Ring(n, top), Along(v), v)
  {
    if v > 0 {
      AlongRing(n, top, v - 1);
      assert Ring(n, top)[v - 1] == [Edge(v, top)];
    }
  }

  /** A distance of the ring cannot be less than so many times the weight, and is not missing. */
  lemma RingDistance(n: nat, top: Word, x: int, v: nat)
    requires n >= 2 && v < n && Distance(Ring(n, top), x, v)
    ensures x != NC && v * top <= x
  {
    var g := Ring(n, top);
    AlongRing(n, top, v);
    var p :| To(g, p, v) && Weight(g, p) == x;
    RingWalk(n, top, p);
    Times(v, Len(p), top);
  }

  /** The first `r` nodes of the ring have been scanned: the nodes up to number `r` are known. */
  function Line(n: nat, top: Word, r: nat): seq<int> { seq(n, v => if v <= r then v * top else NC) }

  lemma {:induction false} LinePassed(n: nat, top: Word, r: nat)
    requires n >= 2 && r < n && (n - 1) * top < NC
    ensures Wired(Ring(n, top)) && Upto(Ring(n, top), Start(n), r, 0) == Line(n, top, r)
  {
    var g := Ring(n, top);
    if r == 0 {
      assert Line(n, top, 0) == Start(n);
    } else {
      LinePassed(n, top, r - 1);
      assert g[r - 1] == [Edge(r, top)];
      var d := Line(n, top, r - 1);
      assert Upto(g, Start(n), r, 0) == Upto(g, Start(n), r - 1, 1);
      assert Upto(g, Start(n), r - 1, 1) == Relax(g, d, r - 1, 0);
      LineMore(n, top, r);
    }
  }

  lemma LineUpdate(n: nat, top: Word, r: nat)
    requires 0 < r < n
    ensures Line(n, top, r - 1)[r := r * top] == Line(n, top, r)
  {
  }

  lemma RelaxOnly(g: Graph, d: seq<int>, u: nat, e: Edge, x: int)
    requires u < |g| == |d| && g[u] == [e] && e.to < |g| && 0 <= d[u] && x == d[u] + e.w < NC && d[e.to] == NC
    ensures Relax(g, d, u, 0) == d[e.to := x]
  {
  }

  lemma LineMore(n: nat, top: Word, r: nat)
    requires n >= 2 && 0 < r < n && (n - 1) * top < NC
    ensures Ring(n, top)[r - 1] == [Edge(r, top)]
    ensures Relax(Ring(n, top), Line(n, top, r - 1), r - 1, 0) == Line(n, top, r)
  {
    Times(r, n - 1, top);
    OneMore(r - 1, top);
    LineUpdate(n, top, r);
    RelaxOnly(Ring(n, top), Line(n, top, r - 1), r - 1, Edge(r, top), r * top);
  }

  /** The last edge of the first pass wraps: node 1 gets less than the weight of any edge. */
  lemma RingWraps(n: nat, top: Word)
    requires n >= 2 && (n - 1) * top < NC < n * top
    ensures Wired(Ring(n, top)) && Rounds(Ring(n, top), 1)[1] < top
  {
    var g, d := Ring(n, top), Line(n, top, n - 1);
    LinePassed(n, top, n - 1);
    assert g[n - 1] == [Edge(1, top)];
    OneMore(n - 1, top);
    assert Rounds(g, 0) == Start(n);
    assert Upto(g, Start(n), n, 0) == Upto(g, Start(n), n - 1, 1);
    assert Upto(g, Start(n), n - 1, 1) == Relax(g, d, n - 1, 0);
    assert d[1] == top && d[n - 1] == (n - 1) * top;
    assert Plus(d[n - 1], top) == n * top - WORD;
  }

  /** Whatever wraps, a pass lowers distances only. */
  lemma {:induction false} UptoBelow(g: Graph, d0: seq<int>, r: nat, c: nat)
    requires Wired(g) && |d0| == |g| && Place(g, r, c)
    ensures Below(Upto(g, d0, r, c), d0)
    decreases r, c
  {
    if c > 0 {
      UptoBelow(g, d0, r, c - 1);
    } else if r > 0 {
      UptoBelow(g, d0, r - 1, |g[r - 1]|);
    }
  }

  lemma {:induction false} RoundsBelow(g: Graph, k: nat, l: nat)
    requires Wired(g) && k <= l
    ensures Below(Rounds(g, l), Rounds(g, k))
  {
    if k < l {
      RoundsBelow(g, k, l - 1);
      UptoBelow(g, Rounds(g, l - 1), |g|, 0);
    }
  }

  lemma {:induction false} RoundsWords(g: Graph, k: nat, v: nat)
    requires Wired(g) && v < |g|
    ensures Rounds(g, k)[v] <= NC
  {
    RoundsBelow(g, 0, k);
  }

  /** Weights just too heavy: the ring gets a wrong distance. */
  lemma RingFails(n: nat, top: Word)
    requires n > 0 && n * top > NC
    ensures Light(Ring(n, top), top) && Wired(Ring(n, top)) && !Shortest(Ring(n, top), Rounds(Ring(n, top), n - 1))
  {
    assert n >= 2;
    var g := Ring(n, top);
    var d := Rounds(g, n - 1);
    if Shortest(g, d) {
      if (n - 1) * top >= NC {
        RoundsWords(g, n - 1, n - 1);
        RingDistance(n, top, d[n - 1], n - 1);
      } else {
        RingWraps(n, top);
        RoundsBelow(g, 1, n - 1);
        RingDistance(n, top, d[1], 1);
      }
      assert false;
    }
  }

  /** For which numbers of nodes and which weights the distances of every graph are the shortest ones: as long as no sum
      of as many weights as there are nodes exceeds the largest word. */
  lemma ExactBound(n: nat, top: Word)
    requires n > 0
    ensures (forall g: Graph :: |g| == n && Light(g, top) ==> Wired(g) && Shortest(g, Rounds(g, n - 1))) <==>
      n * top <= NC
  {
    if n * top <= NC {
      forall g: Graph | |g| == n && Light(g, top) ensures Wired(g) && Shortest(g, Rounds(g, n - 1)) {
        LightWeights(g, top);
        ShortestPaths(g);
      }
    } else {
      RingFails(n, top);
    }
  }
}
