/** Linearizability of the elimination stack, and where each node is at any time. */
module EliminationStackProofs {
  import opened Linearizability
  import opened Options
  import opened EliminationStack

  // ---------------------------------------------------------------- interference

  /** Published nodes stay published and unchanged; no node's value changes. */
  ghost predicate Grows(nodes: seq<Node>, claims: seq<Claim>, nodes': seq<Node>, claims': seq<Claim>) {
    && |nodes| <= |nodes'|
    && (forall p :: 0 <= p < |nodes| ==> nodes'[p].value == nodes[p].value)
    && (forall p :: 0 <= p < |nodes| && Published(nodes, claims, p) ==>
          Published(nodes', claims', p) && nodes'[p].next == nodes[p].next)
  }

  lemma ThreadStable(nodes: seq<Node>, size: nat, claims: seq<Claim>, nodes': seq<Node>, claims': seq<Claim>,
                     th: Thread)
    requires Grows(nodes, claims, nodes', claims') && ThreadOk(nodes, size, claims, th)
    requires ClaimOf(th) != Nothing ==>
      ClaimOf(th).nd < |nodes| && nodes'[ClaimOf(th).nd].next == nodes[ClaimOf(th).nd].next
    ensures ThreadOk(nodes', size, claims', th)
  {
  }

  lemma ThreadsStable(nodes: seq<Node>, size: nat, claims: seq<Claim>, nodes': seq<Node>, claims': seq<Claim>,
                      threads: seq<Thread>, t: nat, th: Thread)
    requires Grows(nodes, claims, nodes', claims') && ThreadsOk(nodes, size, claims, threads) && t < |threads|
    requires claims == Claims(threads)
    requires forall u :: 0 <= u < |claims| && u != t && claims[u] != Nothing ==>
      claims[u].nd < |nodes| && nodes'[claims[u].nd].next == nodes[claims[u].nd].next
    requires ThreadOk(nodes', size, claims', th)
    ensures ThreadsOk(nodes', size, claims', threads[t := th])
  {
    var threads' := threads[t := th];
    forall u | 0 <= u < |threads'| ensures ThreadOk(nodes', size, claims', threads'[u]) {
      if u != t {
        assert claims[u] == ClaimOf(threads[u]);
        ThreadStable(nodes, size, claims, nodes', claims', threads[u]);
      }
    }
  }

  lemma Updates(threads: seq<Thread>, t: nat, th: Thread)
    requires t < |threads|
    ensures Claims(threads[t := th]) == Claims(threads)[t := ClaimOf(th)]
  {
  }

  /** The new state satisfies the invariant if its chain and places do and the others are undisturbed. */
  lemma Rebuild(s: State, c: seq<Ptr>, s': State, c': seq<Ptr>, t: nat, th: Thread)
    requires Inv(s, c) && t < |s.threads| && s'.threads == s.threads[t := th] && !s'.fault
    requires Chain(s'.nodes, s'.top, c') && |s'.slots| == |s.slots| && (|s.slots| > 0 ==> s'.hint < |s.slots|)
    requires Places(s'.nodes, s'.slots, c', Claims(s.threads)[t := ClaimOf(th)])
    requires Grows(s.nodes, Claims(s.threads), s'.nodes, Claims(s.threads)[t := ClaimOf(th)])
    requires forall u :: 0 <= u < |s.threads| && u != t && Claims(s.threads)[u] != Nothing ==>
      && Claims(s.threads)[u].nd < |s.nodes|
      && s'.nodes[Claims(s.threads)[u].nd].next == s.nodes[Claims(s.threads)[u].nd].next
    requires ThreadOk(s'.nodes, |s.slots|, Claims(s.threads)[t := ClaimOf(th)], th)
    ensures Inv(s', c')
  {
    Updates(s.threads, t, th);
    ThreadsStable(s.nodes, |s.slots|, Claims(s.threads), s'.nodes, Claims(s'.threads), s.threads, t, th);
  }

  // ---------------------------------------------------------------- places, step by step

  /** A claim may be dropped once its node is in no slot. */
  lemma PlacesKeep(nodes: seq<Node>, slots: seq<Option<Ptr>>, c: seq<Ptr>, claims: seq<Claim>, t: nat, cl: Claim)
    requires Places(nodes, slots, c, claims) && t < |claims|
    requires cl == claims[t] || (cl == Nothing && (claims[t].Offers? ==>
      claims[t].at < |slots| && slots[claims[t].at] != Some(claims[t].nd)))
    ensures Places(nodes, slots, c, claims[t := cl])
    ensures Grows(nodes, claims, nodes, claims[t := cl])
  {
    var claims' := claims[t := cl];
    forall i | 0 <= i < |slots| && slots[i].Some?
      ensures exists u :: 0 <= u < |claims'| && claims'[u] == Offers(slots[i].value, i)
    {
      var u :| 0 <= u < |claims| && claims[u] == Offers(slots[i].value, i);
      assert claims'[u] == claims[u];
    }
  }

  lemma PlacesNew(nodes: seq<Node>, slots: seq<Option<Ptr>>, c: seq<Ptr>, claims: seq<Claim>, t: nat, v: int)
    requires Places(nodes, slots, c, claims) && t < |claims| && claims[t] == Nothing
    requires forall i :: 0 <= i < |c| ==> c[i] < |nodes|
    ensures Places(nodes + [Node(v, None)], slots, c, claims[t := Holds(|nodes|)])
    ensures Grows(nodes, claims, nodes + [Node(v, None)], claims[t := Holds(|nodes|)])
  {
    var claims' := claims[t := Holds(|nodes|)];
    forall i | 0 <= i < |slots| && slots[i].Some?
      ensures exists u :: 0 <= u < |claims'| && claims'[u] == Offers(slots[i].value, i)
    {
      var u :| 0 <= u < |claims| && claims[u] == Offers(slots[i].value, i);
      assert claims'[u] == claims[u];
    }
  }

  lemma PlacesPut(nodes: seq<Node>, slots: seq<Option<Ptr>>, c: seq<Ptr>, claims: seq<Claim>, t: nat, at: nat)
    requires Places(nodes, slots, c, claims) && t < |claims| && claims[t].Holds? && at < |slots| && slots[at].None?
    ensures Places(nodes, slots[at := Some(claims[t].nd)], c, claims[t := Offers(claims[t].nd, at)])
    ensures Grows(nodes, claims, nodes, claims[t := Offers(claims[t].nd, at)])
  {
    var nd := claims[t].nd;
    var slots', claims' := slots[at := Some(nd)], claims[t := Offers(nd, at)];
    forall i | 0 <= i < |slots'| && slots'[i].Some?
      ensures exists u :: 0 <= u < |claims'| && claims'[u] == Offers(slots'[i].value, i)
    {
      if i == at {
        assert claims'[t] == Offers(nd, at);
      } else {
        var u :| 0 <= u < |claims| && claims[u] == Offers(slots[i].value, i);
        assert claims'[u] == claims[u];
      }
    }
  }

  /** Emptying a slot; the offering push may or may not be the one that does it. */
  lemma PlacesClear(nodes: seq<Node>, slots: seq<Option<Ptr>>, c: seq<Ptr>, claims: seq<Claim>, t: nat, at: nat,
                    cl: Claim)
    requires Places(nodes, slots, c, claims) && t < |claims| && at < |slots|
    requires cl == claims[t] || (claims[t].Offers? && claims[t].at == at && cl == Holds(claims[t].nd))
    ensures Places(nodes, slots[at := None], c, claims[t := cl])
    ensures Grows(nodes, claims, nodes, claims[t := cl])
  {
    var slots', claims' := slots[at := None], claims[t := cl];
    forall i | 0 <= i < |slots'| && slots'[i].Some?
      ensures exists u :: 0 <= u < |claims'| && claims'[u] == Offers(slots'[i].value, i)
    {
      var u :| 0 <= u < |claims| && claims[u] == Offers(slots[i].value, i);
      assert claims'[u] == claims[u];
    }
  }

  /** Writing `_next` of a node that is still private. */
  lemma PlacesWrite(nodes: seq<Node>, slots: seq<Option<Ptr>>, c: seq<Ptr>, claims: seq<Claim>, t: nat,
                    next: Option<Ptr>)
    requires Places(nodes, slots, c, claims) && t < |claims| && claims[t].Holds?
    ensures var nd := claims[t].nd;
      && nd < |nodes|
      && Places(nodes[nd := nodes[nd].(next := next)], slots, c, claims)
      && Grows(nodes, claims, nodes[nd := nodes[nd].(next := next)], claims)
  {
  }

  lemma PushChain(nodes: seq<Node>, top: Option<Ptr>, slots: seq<Option<Ptr>>, c: seq<Ptr>, claims: seq<Claim>, t: nat)
    requires Chain(nodes, top, c) && Places(nodes, slots, c, claims) && t < |claims| && claims[t].Holds?
    requires nodes[claims[t].nd].next == top
    ensures var nd := claims[t].nd;
      && Chain(nodes, Some(nd), [nd] + c)
      && Places(nodes, slots, [nd] + c, claims[t := Nothing])
      && Grows(nodes, claims, nodes, claims[t := Nothing])
      && Values(nodes, [nd] + c) == [nodes[nd].value] + Values(nodes, c)
  {
    PlacesKeep(nodes, slots, c, claims, t, Nothing);
    var nd := claims[t].nd;
    var c' := [nd] + c;
    forall i | 0 <= i < |c'| - 1 ensures nodes[c'[i]].next == Some(c'[i + 1]) {
      assert c'[i + 1] == c[i];
      if i > 0 { assert c'[i] == c[i - 1]; }
    }
  }

  lemma PopChain(nodes: seq<Node>, top: Option<Ptr>, slots: seq<Option<Ptr>>, c: seq<Ptr>, claims: seq<Claim>)
    requires Chain(nodes, top, c) && Places(nodes, slots, c, claims) && c != []
    ensures Chain(nodes, nodes[c[0]].next, c[1..]) && Places(nodes, slots, c[1..], claims)
    ensures Values(nodes, c) == [nodes[c[0]].value] + Values(nodes, c[1..])
  {
    var c' := c[1..];
    forall i | 0 <= i < |c'| - 1 ensures nodes[c'[i]].next == Some(c'[i + 1]) {
      assert c'[i] == c[i + 1] && c'[i + 1] == c[i + 2];
    }
    if |c| > 1 { assert nodes[c[0]].next == Some(c[0 + 1]); }
  }

  // ---------------------------------------------------------------- simulation

  ghost predicate Matched(s: State, c: seq<Ptr>, s': State, c': seq<Ptr>, xs: seq<Action<Op, Res>>) {
    && Inv(s, c) && Inv(s', c')
    && Exec(StackApply, Abs(s, c), xs) == Some(Abs(s', c'))
    && s'.history == s.history + Visible(xs)
  }

  /** Whether the push that offers `cl.nd` still has it in its slot is the same before and after. */
  predicate SameOffer(slots: seq<Option<Ptr>>, slots': seq<Option<Ptr>>, cl: Claim) {
    && |slots| == |slots'|
    && (cl.Offers? && cl.at < |slots| ==> (slots[cl.at] == Some(cl.nd) <==> slots'[cl.at] == Some(cl.nd)))
  }

  lemma StatusStable(nodes: seq<Node>, slots: seq<Option<Ptr>>, claims: seq<Claim>, nodes': seq<Node>,
                     slots': seq<Option<Ptr>>, th: Thread)
    requires |nodes| <= |nodes'| && forall p :: 0 <= p < |nodes| ==> nodes'[p].value == nodes[p].value
    requires SameOffer(slots, slots', ClaimOf(th)) && ThreadOk(nodes, |slots|, claims, th)
    ensures StatusOf(nodes', slots', th) == StatusOf(nodes, slots, th)
  {
  }

  /** Only the moving thread's status changes. */
  lemma StatusesStable(s: State, c: seq<Ptr>, s': State, t: nat, th: Thread)
    requires Inv(s, c) && t < |s.threads| && s'.threads == s.threads[t := th]
    requires |s.nodes| <= |s'.nodes| && forall p :: 0 <= p < |s.nodes| ==> s'.nodes[p].value == s.nodes[p].value
    requires forall u :: 0 <= u < |s.threads| && u != t ==> SameOffer(s.slots, s'.slots, Claims(s.threads)[u])
    ensures Statuses(s'.nodes, s'.slots, s'.threads) == Statuses(s.nodes, s.slots,
      s.threads)[t := StatusOf(s'.nodes, s'.slots, th)]
  {
    forall u | 0 <= u < |s.threads| && u != t
      ensures StatusOf(s'.nodes, s'.slots, s.threads[u]) == StatusOf(s.nodes, s.slots, s.threads[u])
    {
      assert Claims(s.threads)[u] == ClaimOf(s.threads[u]);
      StatusStable(s.nodes, s.slots, Claims(s.threads), s'.nodes, s'.slots, s.threads[u]);
    }
  }

  lemma MatchNone(s: State, c: seq<Ptr>, s': State, t: nat, th: Thread)
    requires Inv(s, c) && Inv(s', c) && t < |s.threads| && s'.threads == s.threads[t := th] && s'.history == s.history
    requires |s.nodes| <= |s'.nodes| && forall p :: 0 <= p < |s.nodes| ==> s'.nodes[p].value == s.nodes[p].value
    requires forall u :: 0 <= u < |s.threads| && u != t ==> SameOffer(s.slots, s'.slots, Claims(s.threads)[u])
    requires StatusOf(s'.nodes, s'.slots, th) == StatusOf(s.nodes, s.slots, s.threads[t])
    ensures Matched(s, c, s', c, [])
  {
    StatusesStable(s, c, s', t, th);
    assert Abs(s', c).status == Abs(s, c).status;
    assert Abs(s', c).obj == Abs(s, c).obj;
  }

  lemma MatchOne(s: State, c: seq<Ptr>, s': State, c': seq<Ptr>, t: nat, th: Thread, x: Action<Op, Res>)
    requires Inv(s, c) && Inv(s', c') && t < |s.threads| && s'.threads == s.threads[t := th] && x.t == t
    requires s'.nodes == s.nodes && s'.slots == s.slots
    requires Act(StackApply, Abs(s, c), x) == Some(Atomic(Values(s.nodes, c'),
      Abs(s, c).status[t := StatusOf(s.nodes, s.slots, th)]))
    requires s'.history == if x.Lin? then s.history else s.history + [x]
    ensures Matched(s, c, s', c', [x])
  {
    StatusesStable(s, c, s', t, th);
    ExecOne(StackApply, Abs(s, c), x);
  }

  /** Steps that touch neither nodes, nor top, nor slots. */
  lemma QuietMatch(s: State, c: seq<Ptr>, s': State, t: nat, op: Op, pc: PC, pc': PC)
    requires Inv(s, c) && t < |s.threads| && s.threads[t] == In(op, pc)
    requires s' == s.(threads := s.threads[t := In(op, pc')], hint := s'.hint)
    requires |s.slots| > 0 ==> s'.hint < |s.slots|
    requires ClaimOf(In(op, pc')) == ClaimOf(In(op, pc)) || (ClaimOf(In(op, pc')) == Nothing && pc.TakeBack?
      && pc.at < |s.slots| && s.slots[pc.at] != Some(pc.nd))
    requires ThreadOk(s.nodes, |s.slots|, Claims(s.threads), In(op, pc'))
    requires StatusOf(s.nodes, s.slots, In(op, pc)) == StatusOf(s.nodes, s.slots, In(op, pc'))
    ensures Matched(s, c, s', c, [])
  {
    var th := In(op, pc');
    assert Claims(s.threads)[t] == ClaimOf(In(op, pc));
    PlacesKeep(s.nodes, s.slots, c, Claims(s.threads), t, ClaimOf(th));
    ThreadStable(s.nodes, |s.slots|, Claims(s.threads), s.nodes, Claims(s.threads)[t := ClaimOf(th)], th);
    Rebuild(s, c, s', c, t, th);
    MatchNone(s, c, s', t, th);
  }

  lemma EndsMatch(s: State, c: seq<Ptr>, ch: Choice) returns (xs: seq<Action<Op, Res>>)
    requires Inv(s, c) && ch.t < |s.threads| && (s.threads[ch.t].Out? || s.threads[ch.t].pc.Return?)
    ensures Matched(s, c, Step(s, ch), c, xs)
  {
    var t, s' := ch.t, Step(s, ch);
    var th := s'.threads[t];
    assert Claims(s.threads)[t] == ClaimOf(s.threads[t]) == ClaimOf(th) == Nothing;
    assert Abs(s, c).status[t] == StatusOf(s.nodes, s.slots, s.threads[t]);
    PlacesKeep(s.nodes, s.slots, c, Claims(s.threads), t, Nothing);
    Rebuild(s, c, s', c, t, th);
    xs := [if s.threads[t].Out? then Call(t, ch.op) else Ret(t, s.threads[t].pc.res)];
    MatchOne(s, c, s', c, t, th, xs[0]);
  }

  lemma PushQuiet(s: State, c: seq<Ptr>, ch: Choice)
    requires Inv(s, c) && ch.t < |s.threads| && s.threads[ch.t].In?
    requires var pc := s.threads[ch.t].pc;
      || pc.ReadTop? || pc.ReadHint? || pc.ReadSlot? || pc.SetHint?
      || (pc.CasTop? && s.top != pc.curr)
      || (pc.PutSlot? && pc.at < |s.slots| && s.slots[pc.at].Some?)
      || (pc.TakeBack? && pc.at < |s.slots| && s.slots[pc.at] != Some(pc.nd))
    ensures Matched(s, c, Step(s, ch), c, [])
  {
    var t := ch.t;
    var op, pc := s.threads[t].op, s.threads[t].pc;
    assert ThreadOk(s.nodes, |s.slots|, Claims(s.threads), s.threads[t]);
    QuietMatch(s, c, Step(s, ch), t, op, pc, Step(s, ch).threads[t].pc);
  }

  lemma PopQuiet(s: State, c: seq<Ptr>, ch: Choice)
    requires Inv(s, c) && ch.t < |s.threads| && s.threads[ch.t].In?
    requires var pc := s.threads[ch.t].pc;
      || (pc.QReadTop? && s.top.Some?) || pc.QReadNext? || pc.QReadHint? || pc.QReadSlot? || pc.QReadValue?
      || (pc.QCasTop? && s.top != Some(pc.top))
      || (pc.QGrab? && pc.at < |s.slots| && s.slots[pc.at] != Some(pc.nd))
    ensures Matched(s, c, Step(s, ch), c, [])
  {
    var t := ch.t;
    var op, pc := s.threads[t].op, s.threads[t].pc;
    assert ThreadOk(s.nodes, |s.slots|, Claims(s.threads), s.threads[t]);
    if pc.QReadTop? { assert c[0] == s.top.value && Published(s.nodes, Claims(s.threads), c[0]); }
    QuietMatch(s, c, Step(s, ch), t, op, pc, Step(s, ch).threads[t].pc);
  }

  /** The private steps of a push: allocate, write `_next`, offer the node, take it back. */
  ghost predicate PrivateStep(s: State, s': State, t: nat, op: Op, pc: PC, pc': PC) {
    && t < |s.threads| && s.threads[t] == In(op, pc) && s'.threads == s.threads[t := In(op, pc')]
    && s'.top == s.top && s'.hint == s.hint && !s'.fault && s'.history == s.history
    && match pc
       case NewNode =>
         op.Push? && s'.slots == s.slots && s'.nodes == s.nodes + [Node(op.v, None)] && pc' == ReadTop(|s.nodes|)
       case SetNext(nd, curr) =>
         && s'.slots == s.slots && nd < |s.nodes| && s'.nodes == s.nodes[nd := s.nodes[nd].(next := curr)]
         && pc' == CasTop(nd, curr)
       case PutSlot(nd, _, at) =>
         && s'.nodes == s.nodes && at < |s.slots| && s.slots[at].None? && s'.slots == s.slots[at := Some(nd)]
         && pc' == SetHint(nd, at)
       case TakeBack(nd, at) =>
         && s'.nodes == s.nodes && at < |s.slots| && s.slots[at] == Some(nd) && s'.slots == s.slots[at := None]
         && pc' == ReadTop(nd)
       case _ => false
  }

  lemma PrivateInv(s: State, c: seq<Ptr>, s': State, t: nat, op: Op, pc: PC, pc': PC)
    requires Inv(s, c) && PrivateStep(s, s', t, op, pc, pc')
    ensures Inv(s', c)
  {
    var th, claims := In(op, pc'), Claims(s.threads);
    assert claims[t] == ClaimOf(In(op, pc));
    assert ThreadOk(s.nodes, |s.slots|, claims, s.threads[t]);
    match pc {
      case NewNode => PlacesNew(s.nodes, s.slots, c, claims, t, op.v);
      case SetNext(nd, curr) => PlacesWrite(s.nodes, s.slots, c, claims, t, curr);
        assert claims[t := ClaimOf(th)] == claims;
      case PutSlot(nd, _, at) => PlacesPut(s.nodes, s.slots, c, claims, t, at);
      case TakeBack(nd, at) => PlacesClear(s.nodes, s.slots, c, claims, t, at, Holds(nd));
    }
    PrivateChain(s.nodes, s.top, s.slots, c, claims, s'.nodes, t);
    Rebuild(s, c, s', c, t, th);
  }

  lemma PrivateMatch(s: State, c: seq<Ptr>, s': State, t: nat, op: Op, pc: PC, pc': PC)
    requires Inv(s, c) && PrivateStep(s, s', t, op, pc, pc')
    ensures Matched(s, c, s', c, [])
  {
    assert Claims(s.threads)[t] == ClaimOf(In(op, pc));
    assert ThreadOk(s.nodes, |s.slots|, Claims(s.threads), s.threads[t]);
    PrivateInv(s, c, s', t, op, pc, pc');
    MatchNone(s, c, s', t, In(op, pc'));
  }

  lemma PrivateChain(nodes: seq<Node>, top: Option<Ptr>, slots: seq<Option<Ptr>>, c: seq<Ptr>, claims: seq<Claim>,
                     nodes': seq<Node>, t: nat)
    requires Chain(nodes, top, c) && Places(nodes, slots, c, claims) && t < |claims|
    requires |nodes| <= |nodes'|
    requires forall p :: 0 <= p < |nodes| && !(claims[t].Holds? && claims[t].nd == p) ==> nodes'[p] == nodes[p]
    ensures Chain(nodes', top, c)
    ensures forall u :: 0 <= u < |claims| && u != t && claims[u] != Nothing ==>
      claims[u].nd < |nodes| && nodes'[claims[u].nd].next == nodes[claims[u].nd].next
  {
  }

  /** A push on top: its compare-and-set puts the node in front of the chain. */
  lemma PushMatch(s: State, c: seq<Ptr>, s': State, t: nat, op: Op, nd: Ptr)
    requires Inv(s, c) && t < |s.threads| && s.threads[t] == In(op, CasTop(nd, s.top))
    requires s' == s.(top := Some(nd), threads := s.threads[t := In(op, Return(Added))])
    ensures Matched(s, c, s', [nd] + c, [Lin(t)])
  {
    var claims := Claims(s.threads);
    assert claims[t] == Holds(nd);
    assert ThreadOk(s.nodes, |s.slots|, claims, s.threads[t]);
    PushChain(s.nodes, s.top, s.slots, c, claims, t);
    Rebuild(s, c, s', [nd] + c, t, In(op, Return(Added)));
    assert Abs(s, c).status[t] == Pending(op);
    MatchOne(s, c, s', [nd] + c, t, In(op, Return(Added)), Lin(t));
  }

  /** A pop that finds the stack empty takes effect when it reads a null top. */
  lemma EmptyMatch(s: State, c: seq<Ptr>, s': State, t: nat, op: Op, pc: PC, pc': PC)
    requires Inv(s, c) && t < |s.threads| && s.threads[t] == In(op, pc)
    requires pc.QReadTop? && s.top.None? && pc' == Return(Took(NULL_VALUE))
    requires s' == s.(threads := s.threads[t := In(op, pc')])
    ensures Matched(s, c, s', c, [Lin(t)])
  {
    var claims := Claims(s.threads);
    assert claims[t] == Nothing && claims[t := Nothing] == claims;
    assert ThreadOk(s.nodes, |s.slots|, claims, s.threads[t]);
    assert Abs(s, c).status[t] == Pending(op);
    PlacesKeep(s.nodes, s.slots, c, claims, t, Nothing);
    Rebuild(s, c, s', c, t, In(op, pc'));
    MatchOne(s, c, s', c, t, In(op, pc'), Lin(t));
  }

  /** Any other takes effect with the compare-and-set that moves the top down. */
  lemma TopMatch(s: State, c: seq<Ptr>, s': State, t: nat, op: Op, pc: PC, pc': PC)
    requires Inv(s, c) && t < |s.threads| && s.threads[t] == In(op, pc)
    requires pc.QCasTop? && s.top == Some(pc.top) && pc' == QReadValue(pc.top)
    requires s' == s.(top := pc.next, threads := s.threads[t := In(op, pc')])
    ensures c != [] && Matched(s, c, s', c[1..], [Lin(t)])
  {
    var claims := Claims(s.threads);
    assert claims[t] == Nothing && claims[t := Nothing] == claims;
    assert ThreadOk(s.nodes, |s.slots|, claims, s.threads[t]);
    assert Abs(s, c).status[t] == Pending(op);
    PopChain(s.nodes, s.top, s.slots, c, claims);
    PlacesKeep(s.nodes, s.slots, c[1..], claims, t, Nothing);
    Rebuild(s, c, s', c[1..], t, In(op, pc'));
    MatchOne(s, c, s', c[1..], t, In(op, pc'), Lin(t));
  }

  lemma PopMatch(s: State, c: seq<Ptr>, s': State, t: nat, op: Op, pc: PC, pc': PC) returns (c': seq<Ptr>)
    requires Inv(s, c) && t < |s.threads| && s.threads[t] == In(op, pc)
    requires
      || (pc.QReadTop? && s.top.None? && pc' == Return(Took(NULL_VALUE))
         && s' == s.(threads := s.threads[t := In(op, pc')]))
      || (pc.QCasTop? && s.top == Some(pc.top) && pc' == QReadValue(pc.top)
         && s' == s.(top := pc.next, threads := s.threads[t := In(op, pc')]))
    ensures Matched(s, c, s', c', [Lin(t)])
    ensures c' == if pc.QReadTop? then c else c[1..]
  {
    if pc.QReadTop? {
      c' := c;
      EmptyMatch(s, c, s', t, op, pc, pc');
    } else {
      TopMatch(s, c, s', t, op, pc, pc');
      c' := c[1..];
    }
  }

  /** Elimination: taking a node out of a slot is its push and this pop, one right after the other. */
  lemma GrabMatch(s: State, c: seq<Ptr>, s': State, t: nat, op: Op, i: nat, at: nat, nd: Ptr) returns (u: nat)
    requires Inv(s, c) && t < |s.threads| && s.threads[t] == In(op, QGrab(i, at, nd)) && at < |s.slots|
    requires s.slots[at] == Some(nd)
    requires s' == s.(slots := s.slots[at := None], threads := s.threads[t := In(op, QReadValue(nd))])
    ensures u < |s.threads| && Claims(s.threads)[u] == Offers(nd, at)
    ensures Matched(s, c, s', c, [Lin(u), Lin(t)])
  {
    var claims := Claims(s.threads);
    assert ThreadOk(s.nodes, |s.slots|, claims, s.threads[t]);
    u :| 0 <= u < |claims| && claims[u] == Offers(nd, at);
    assert ClaimOf(s.threads[u]) == Offers(nd, at) && ThreadOk(s.nodes, |s.slots|, claims, s.threads[u]);
    GrabInv(s, c, s', t, op, i, at, nd);
    GrabStatuses(s, c, s', t, u, op, at, nd);
    GrabExec(Abs(s, c), t, u, s.nodes[nd].value);
  }

  lemma GrabInv(s: State, c: seq<Ptr>, s': State, t: nat, op: Op, i: nat, at: nat, nd: Ptr)
    requires Inv(s, c) && t < |s.threads| && s.threads[t] == In(op, QGrab(i, at, nd)) && at < |s.slots|
    requires s.slots[at] == Some(nd)
    requires s' == s.(slots := s.slots[at := None], threads := s.threads[t := In(op, QReadValue(nd))])
    ensures Inv(s', c)
  {
    var claims := Claims(s.threads);
    assert claims[t] == Nothing && claims[t := Nothing] == claims;
    assert ThreadOk(s.nodes, |s.slots|, claims, s.threads[t]);
    PlacesClear(s.nodes, s.slots, c, claims, t, at, Nothing);
    Rebuild(s, c, s', c, t, In(op, QReadValue(nd)));
  }

  lemma GrabExec(a: Atomic<seq<int>, Op, Res>, t: nat, u: nat, v: int)
    requires t < |a.status| && u < |a.status| && t != u && a.status[t] == Pending(Pop)
    requires a.status[u] == Pending(Push(v))
    ensures Exec(StackApply, a, [Lin(u), Lin(t)]) == Some(a.(status :=
      a.status[u := Done(Push(v), Added)][t := Done(Pop, Took(v))]))
    ensures Visible<Op, Res>([Lin(u), Lin(t)]) == []
  {
    ExecOne(StackApply, a, Lin(u));
    var b := Act(StackApply, a, Lin(u)).value;
    ExecOne(StackApply, b, Lin(t));
    var first: seq<Action<Op, Res>> := [Lin(u)];
    ExecConcat(StackApply, a, first, [Lin(t)]);
    assert first + [Lin(t)] == [Lin(u), Lin(t)];
    assert ([v] + a.obj)[1..] == a.obj;
  }

  lemma GrabStatuses(s: State, c: seq<Ptr>, s': State, t: nat, u: nat, op: Op, at: nat, nd: Ptr)
    requires Inv(s, c) && t < |s.threads| && u < |s.threads| && t != u && at < |s.slots| && s.slots[at] == Some(nd)
    requires nd < |s.nodes|
    requires ClaimOf(s.threads[u]) == Offers(nd, at) && op.Pop?
    requires s' == s.(slots := s.slots[at := None], threads := s.threads[t := In(op, QReadValue(nd))])
    requires StatusOf(s.nodes, s.slots, s.threads[u]) == Pending(Push(s.nodes[nd].value))
    ensures Statuses(s'.nodes, s'.slots, s'.threads)
      == Statuses(s.nodes, s.slots, s.threads)[u := Done(Push(s.nodes[nd].value), Added)][t :=
        Done(Pop, Took(s.nodes[nd].value))]
  {
    var claims := Claims(s.threads);
    forall w | 0 <= w < |s.threads| && w != t && w != u
      ensures StatusOf(s'.nodes, s'.slots, s.threads[w]) == StatusOf(s.nodes, s.slots, s.threads[w])
    {
      assert claims[w] == ClaimOf(s.threads[w]) && claims[u] == ClaimOf(s.threads[u]);
      StatusStable(s.nodes, s.slots, claims, s'.nodes, s'.slots, s.threads[w]);
    }
  }

  // ---------------------------------------------------------------- every step

  /** What a step does to the chain: push in front, pop the front, or nothing. */
  function ChainAfter(s: State, c: seq<Ptr>, ch: Choice): seq<Ptr> {
    if ch.t >= |s.threads| || s.threads[ch.t].Out? then c else
    match s.threads[ch.t].pc
    case CasTop(nd, curr) => if s.top == curr then [nd] + c else c
    case QCasTop(top, _) => if s.top == Some(top) && c != [] then c[1..] else c
    case _ => c
  }

  lemma StepMatch(s: State, c: seq<Ptr>, ch: Choice) returns (xs: seq<Action<Op, Res>>)
    requires Inv(s, c)
    ensures Matched(s, c, Step(s, ch), ChainAfter(s, c, ch), xs)
  {
    xs := [];
    if ch.t >= |s.threads| {
    } else if s.threads[ch.t].Out? || s.threads[ch.t].pc.Return? {
      xs := EndsMatch(s, c, ch);
    } else {
      var t, s' := ch.t, Step(s, ch);
      var op, pc := s.threads[t].op, s.threads[t].pc;
      assert ThreadOk(s.nodes, |s.slots|, Claims(s.threads), s.threads[t]);
      if pc.NewNode? || pc.SetNext? || (pc.PutSlot? && s.slots[pc.at].None?)
        || (pc.TakeBack? && s.slots[pc.at] == Some(pc.nd)) {
        PrivateMatch(s, c, s', t, op, pc, s'.threads[t].pc);
      } else if pc.CasTop? && s.top == pc.curr {
        PushMatch(s, c, s', t, op, pc.nd);
        xs := [Lin(t)];
      } else if (pc.QReadTop? && s.top.None?) || (pc.QCasTop? && s.top == Some(pc.top)) {
        var c' := PopMatch(s, c, s', t, op, pc, s'.threads[t].pc);
        xs := [Lin(t)];
      } else if pc.QGrab? && s.slots[pc.at] == Some(pc.nd) {
        var u := GrabMatch(s, c, s', t, op, pc.i, pc.at, pc.nd);
        xs := [Lin(u), Lin(t)];
      } else if pc.ReadTop? || pc.ReadHint? || pc.ReadSlot? || pc.SetHint? || pc.CasTop? || pc.PutSlot?
        || pc.TakeBack? {
        PushQuiet(s, c, ch);
      } else {
        PopQuiet(s, c, ch);
      }
    }
  }

  // ---------------------------------------------------------------- whole runs

  lemma InitInv(n: nat, size: nat)
    ensures Inv(Init(n, size), []) && Abs(Init(n, size), []) == NewObject([], n)
  {
    var s := Init(n, size);
    assert Claims(s.threads) == seq(n, i => Nothing);
    assert Abs(s, []).obj == [];
  }

  lemma {:induction false} RunMatch(n: nat, size: nat, sched: seq<Choice>)
    returns (c: seq<Ptr>, xs: seq<Action<Op, Res>>)
    ensures var s := Run(n, size, sched);
      && Inv(s, c)
      && Exec(StackApply, NewObject([], n), xs) == Some(Abs(s, c))
      && Visible(xs) == s.history
  {
    if sched == [] {
      InitInv(n, size);
      c, xs := [], [];
    } else {
      var s, ch := Run(n, size, sched[..|sched| - 1]), sched[|sched| - 1];
      c, xs := RunMatch(n, size, sched[..|sched| - 1]);
      var ys := StepMatch(s, c, ch);
      ExecConcat(StackApply, NewObject([], n), xs, ys);
      c, xs := ChainAfter(s, c, ch), xs + ys;
    }
  }

  /** Linearizability: whatever the schedule, the calls and returns are those of an atomic stack. */
  lemma StackLinearizable(n: nat, size: nat, sched: seq<Choice>)
    ensures Linearizable(StackApply, [], n, Run(n, size, sched).history)
  {
    var c, xs := RunMatch(n, size, sched);
  }

  /** No access outside the elimination array or to a node that does not exist, whatever its size. */
  lemma StackNoFault(n: nat, size: nat, sched: seq<Choice>)
    ensures !Run(n, size, sched).fault
  {
    var c, xs := RunMatch(n, size, sched);
  }

  // ---------------------------------------------------------------- where a node is

  ghost predicate InSlot(s: State, p: Ptr, i: int) { 0 <= i < |s.slots| && s.slots[i] == Some(p) }

  ghost predicate HeldBy(s: State, p: Ptr, t: int) { 0 <= t < |s.threads| && ClaimOf(s.threads[t]) == Holds(p) }

  /** On the stack, on offer, or still with its push. */
  ghost predicate Live(s: State, c: seq<Ptr>, p: Ptr) {
    p in c || (exists i :: InSlot(s, p, i)) || (exists t :: HeldBy(s, p, t))
  }

  lemma SlotOwner(s: State, c: seq<Ptr>, p: Ptr, i: int) returns (t: nat)
    requires Inv(s, c) && InSlot(s, p, i)
    ensures t < |s.threads| && Claims(s.threads)[t] == Offers(p, i) && p !in c
  {
    t :| 0 <= t < |s.threads| && Claims(s.threads)[t] == Offers(s.slots[i].value, i);
  }

  lemma Holder(s: State, c: seq<Ptr>, p: Ptr, t: int)
    requires Inv(s, c) && HeldBy(s, p, t)
    ensures Claims(s.threads)[t] == Holds(p) && p !in c
  {
  }

  /** `p` is on the chain, in one slot or with one push, and never in two of these. */
  ghost predicate OnePlace(s: State, c: seq<Ptr>, p: Ptr) {
    && (forall i, j :: InSlot(s, p, i) && InSlot(s, p, j) ==> i == j)
    && (forall t, u :: HeldBy(s, p, t) && HeldBy(s, p, u) ==> t == u)
    && (forall i :: InSlot(s, p, i) ==> p !in c)
    && (forall t :: HeldBy(s, p, t) ==> p !in c)
    && (forall i, t :: InSlot(s, p, i) && HeldBy(s, p, t) ==> false)
  }

  lemma InvOnePlace(s: State, c: seq<Ptr>, p: Ptr)
    requires Inv(s, c)
    ensures OnePlace(s, c, p)
  {
    forall i, j | InSlot(s, p, i) && InSlot(s, p, j) ensures i == j {
      var t := SlotOwner(s, c, p, i);
      var u := SlotOwner(s, c, p, j);
      assert t == u;
    }
    forall t, u | HeldBy(s, p, t) && HeldBy(s, p, u) ensures t == u {
      Holder(s, c, p, t);
      Holder(s, c, p, u);
    }
    forall i | InSlot(s, p, i) ensures p !in c && forall t :: !HeldBy(s, p, t) {
      var u := SlotOwner(s, c, p, i);
      forall t ensures !HeldBy(s, p, t) {
        if 0 <= t < |s.threads| { assert Claims(s.threads)[t] == ClaimOf(s.threads[t]); }
      }
    }
    forall t | HeldBy(s, p, t) ensures p !in c { Holder(s, c, p, t); }
  }

  /** In every reachable state every node is in at most one place. */
  lemma NodeInOnePlace(n: nat, size: nat, sched: seq<Choice>)
    ensures var s := Run(n, size, sched);
      exists c :: Chain(s.nodes, s.top, c) && forall p :: OnePlace(s, c, p)
  {
    var s := Run(n, size, sched);
    var c, xs := RunMatch(n, size, sched);
    forall p: Ptr ensures OnePlace(s, c, p) { InvOnePlace(s, c, p); }
  }

  /** The chain is determined by `_top` and the `_next` fields. */
  lemma {:induction false} ChainUnique(nodes: seq<Node>, top: Option<Ptr>, c: seq<Ptr>, d: seq<Ptr>)
    requires Chain(nodes, top, c) && Chain(nodes, top, d)
    ensures c == d
    decreases |c|
  {
    if c != [] {
      ChainTail(nodes, top, c);
      ChainTail(nodes, top, d);
      ChainUnique(nodes, nodes[c[0]].next, c[1..], d[1..]);
    }
  }

  lemma ChainTail(nodes: seq<Node>, top: Option<Ptr>, c: seq<Ptr>)
    requires Chain(nodes, top, c) && c != []
    ensures Chain(nodes, nodes[c[0]].next, c[1..])
  {
    var d := c[1..];
    forall i | 0 <= i < |d| - 1 ensures nodes[d[i]].next == Some(d[i + 1]) {
      assert d[i] == c[i + 1] && d[i + 1] == c[i + 2];
    }
    if |c| > 1 { assert nodes[c[0]].next == Some(c[0 + 1]); }
  }

  lemma StaysGone(n: nat, size: nat, sched: seq<Choice>, ch: Choice, c: seq<Ptr>, c': seq<Ptr>, p: Ptr)
    requires var s := Run(n, size, sched); Chain(s.nodes, s.top, c) && p < |s.nodes| && !Live(s, c, p)
    requires var s' := Step(Run(n, size, sched), ch); Chain(s'.nodes, s'.top, c')
    ensures !Live(Step(Run(n, size, sched), ch), c', p)
  {
    var s := Run(n, size, sched);
    var d, xs := RunMatch(n, size, sched);
    ChainUnique(s.nodes, s.top, c, d);
    var ys := StepMatch(s, c, ch);
    ChainUnique(Step(s, ch).nodes, Step(s, ch).top, c', ChainAfter(s, c, ch));
    if ch.t < |s.threads| { StepGone(s, c, ch, p); }
  }

  lemma StepGone(s: State, c: seq<Ptr>, ch: Choice, p: Ptr)
    requires Inv(s, c) && ch.t < |s.threads| && p < |s.nodes| && !Live(s, c, p)
    ensures !Live(Step(s, ch), ChainAfter(s, c, ch), p)
  {
    var t, s' := ch.t, Step(s, ch);
    assert ThreadOk(s.nodes, |s.slots|, Claims(s.threads), s.threads[t]);
    assert !HeldBy(s, p, t);
    if s.threads[t].In? && s.threads[t].pc.TakeBack? { assert !InSlot(s, p, s.threads[t].pc.at); }
    forall i ensures !InSlot(s', p, i) { assert !InSlot(s, p, i); }
    forall u ensures !HeldBy(s', p, u) { assert !HeldBy(s, p, u); }
  }

  /** A pop that gets a node takes it from the stack or from a slot, and after that the node is gone. */
  lemma TakenAway(n: nat, size: nat, sched: seq<Choice>, ch: Choice, c: seq<Ptr>, c': seq<Ptr>, p: Ptr)
    requires var s, s' := Run(n, size, sched), Step(Run(n, size, sched), ch);
      && Chain(s.nodes, s.top, c) && Chain(s'.nodes, s'.top, c')
      && ch.t < |s.threads| && s'.threads[ch.t] != s.threads[ch.t] && s'.threads[ch.t].In?
         && s'.threads[ch.t].pc == QReadValue(p)
    ensures Live(Run(n, size, sched), c, p) && !Live(Step(Run(n, size, sched), ch), c', p)
  {
    var s, s' := Run(n, size, sched), Step(Run(n, size, sched), ch);
    var d, xs := RunMatch(n, size, sched);
    ChainUnique(s.nodes, s.top, c, d);
    var ys := StepMatch(s, c, ch);
    ChainUnique(s'.nodes, s'.top, c', ChainAfter(s, c, ch));
    StepTakes(s, c, ch, p);
  }

  lemma StepTakes(s: State, c: seq<Ptr>, ch: Choice, p: Ptr)
    requires Inv(s, c) && ch.t < |s.threads|
    requires var s' := Step(s, ch);
      s'.threads[ch.t] != s.threads[ch.t] && s'.threads[ch.t].In? && s'.threads[ch.t].pc == QReadValue(p)
    ensures Live(s, c, p) && !Live(Step(s, ch), ChainAfter(s, c, ch), p)
  {
    var t, s' := ch.t, Step(s, ch);
    InvOnePlace(s, c, p);
    var pc := s.threads[t].pc;
    assert ThreadOk(s.nodes, |s.slots|, Claims(s.threads), s.threads[t]);
    if pc.QGrab? {
      assert InSlot(s, p, pc.at);
    } else {
      assert pc.QCasTop? && c[0] == p;
    }
    forall i ensures !InSlot(s', p, i) { assert InSlot(s', p, i) ==> InSlot(s, p, i); }
    forall u ensures !HeldBy(s', p, u) { assert HeldBy(s', p, u) ==> HeldBy(s, p, u); }
  }

  lemma RunMore(n: nat, size: nat, sched: seq<Choice>, i: nat)
    requires i < |sched|
    ensures Run(n, size, sched[..i + 1]) == Step(Run(n, size, sched[..i]), sched[i])
  {
    assert sched[..i + 1][..i] == sched[..i];
  }

  /** Node `p` has been allocated, and has left the stack, the slots and its push. */
  ghost predicate Gone(s: State, p: Ptr) {
    p < |s.nodes| && exists c :: Chain(s.nodes, s.top, c) && !Live(s, c, p)
  }

  lemma GoneMore(n: nat, size: nat, sched: seq<Choice>, i: nat, p: Ptr)
    requires i < |sched| && Gone(Run(n, size, sched[..i]), p)
    ensures Gone(Run(n, size, sched[..i + 1]), p)
  {
    var s := Run(n, size, sched[..i]);
    var c :| Chain(s.nodes, s.top, c) && !Live(s, c, p);
    var c', xs := RunMatch(n, size, sched[..i + 1]);
    RunMore(n, size, sched, i);
    StaysGone(n, size, sched[..i], sched[i], c, c', p);
    GrowingNodes(s, sched[i]);
  }

  lemma {:induction false} GoneThrough(states: seq<State>, i: nat, j: nat, p: Ptr)
    requires i <= j < |states| && Gone(states[i], p)
    requires forall k :: 0 <= k < |states| - 1 && Gone(states[k], p) ==> Gone(states[k + 1], p)
    ensures Gone(states[j], p)
    decreases j
  {
    if i < j {
      GoneThrough(states, i, j - 1, p);
      assert Gone(states[j - 1 + 1], p);
    }
  }

  /** A node that has left the stack, the slots and its push never comes back, however the run goes on. */
  lemma GoneForGood(n: nat, size: nat, sched: seq<Choice>, i: nat, j: nat, p: Ptr)
    requires i <= j <= |sched| && Gone(Run(n, size, sched[..i]), p)
    ensures Gone(Run(n, size, sched[..j]), p)
  {
    var states := seq(|sched| + 1, k requires 0 <= k <= |sched| => Run(n, size, sched[..k]));
    forall k | 0 <= k < |states| - 1 && Gone(states[k], p) ensures Gone(states[k + 1], p) {
      GoneMore(n, size, sched, k, p);
    }
    GoneThrough(states, i, j, p);
  }

  /** The `i`-th step of the run is a pop getting hold of node `p`. */
  ghost predicate Takes(n: nat, size: nat, sched: seq<Choice>, i: nat, p: Ptr)
    requires i < |sched|
  {
    var s, s', t := Run(n, size, sched[..i]), Run(n, size, sched[..i + 1]), sched[i].t;
    && t < |s.threads| == |s'.threads| && s'.threads[t] != s.threads[t]
    && s'.threads[t].In? && s'.threads[t].pc == QReadValue(p)
  }

  lemma TakesGone(n: nat, size: nat, sched: seq<Choice>, i: nat, p: Ptr)
    requires i < |sched| && Takes(n, size, sched, i, p)
    ensures !Gone(Run(n, size, sched[..i]), p) && Gone(Run(n, size, sched[..i + 1]), p)
  {
    var s := Run(n, size, sched[..i]);
    var c, xs := RunMatch(n, size, sched[..i]);
    var c', xs' := RunMatch(n, size, sched[..i + 1]);
    RunMore(n, size, sched, i);
    TakenAway(n, size, sched[..i], sched[i], c, c', p);
    LiveExists(s, c, p);
    GrowingNodes(s, sched[i]);
    if d :| Chain(s.nodes, s.top, d) && !Live(s, d, p) {
      ChainUnique(s.nodes, s.top, c, d);
    }
  }

  /** Over a whole run no node, and so no pushed value, is popped twice. */
  lemma TakenOnce(n: nat, size: nat, sched: seq<Choice>, i: nat, j: nat, p: Ptr)
    requires i < j < |sched| && Takes(n, size, sched, i, p)
    ensures !Takes(n, size, sched, j, p)
  {
    TakesGone(n, size, sched, i, p);
    GoneForGood(n, size, sched, i + 1, j, p);
    if Takes(n, size, sched, j, p) {
      TakesGone(n, size, sched, j, p);
    }
  }

  lemma GrowingNodes(s: State, ch: Choice)
    ensures |s.nodes| <= |Step(s, ch).nodes|
  {
  }

  lemma LiveExists(s: State, c: seq<Ptr>, p: Ptr)
    requires Inv(s, c) && Live(s, c, p)
    ensures p < |s.nodes|
  {
    InvOnePlace(s, c, p);
  }
}
