/** The gossip log over a network that may reorder, duplicate and lose packets. */
module Gossip {
  import opened Common
  import opened Text
  import opened Rumors
  import opened Network

  /** A node: its log and what it handed over, and its own broadcasts, handled locally once
      each (`own`) or about to be (`pending`). */
  datatype Node = Node(state: State, pending: set<Rumor>, own: seq<Rumor>)

  /** The nodes, every rumor that was ever put in a packet, and the broadcasts in the order
      they were created. */
  datatype System = System(nodes: seq<Node>, wire: set<Rumor>, created: seq<Rumor>)

  function Init(n: nat): System {
    System(seq(n, _ => Node(State(EMPTY_LOG, []), {}, [])), {}, [])
  }

  datatype Action =
    | Broadcast(n: Peer, msg: Payload)            // createRumorsMsg and the first send
    | HandleOwn(n: Peer, rumor: Rumor)            // processRumorsMsgLocally
    | Receive(n: Peer, rumor: Rumor)              // one turn of processRumors, for a rumor of any packet
    | Resend(n: Peer, o: Peer, status: Status)    // the missing rumors of one origin, answering a status

  predicate Enabled(s: System, a: Action) {
    && a.n < |s.nodes|
    && match a
       case Broadcast(_, _) => true
       case HandleOwn(n, r) => r in s.nodes[n].pending
       case Receive(n, r) => r in s.wire
       case Resend(n, o, status) =>
         var log := s.nodes[n].state.log;
         o in Deficient(log, status) && Known(status, o) <= |LogOf(log, o)|
  }

  ghost function Apply(s: System, a: Action): System
    requires Enabled(s, a)
  {
    var node := s.nodes[a.n];
    match a
    case Broadcast(n, m) =>
      var r := NewRumor(node.state.log, n, m);
      System(s.nodes[n := node.(state := Do(node.state, Create(n, m)), pending := node.pending + {r})],
             s.wire + {r}, s.created + [r])
    case HandleOwn(n, r) =>
      s.(nodes := s.nodes[n := node.(pending := node.pending - {r}, own := node.own + [r])])
    case Receive(n, r) =>
      s.(nodes := s.nodes[n := node.(state := Do(node.state, Get(r)))])
    case Resend(n, o, status) =>
      s.(wire := s.wire + set r | r in LogOf(node.state.log, o)[Known(status, o)..])
  }

  ghost predicate Legal(s: System, run: seq<Action>)
    decreases |run|
  {
    run == [] || (Enabled(s, run[0]) && Legal(Apply(s, run[0]), run[1..]))
  }

  ghost function Exec(s: System, run: seq<Action>): System
    requires Legal(s, run)
    decreases |run|
  {
    if run == [] then s else Exec(Apply(s, run[0]), run[1..])
  }

  ghost predicate Reachable(s: System) {
    exists n: nat, run :: Legal(Init(n), run) && s == Exec(Init(n), run)
  }

  // ---------------------------------------------------------------- the loop is made of atomic turns

  lemma {:induction false} DoMore(s: State, ops: seq<Op>, more: seq<Op>)
    ensures DoAll(s, ops + more) == DoAll(DoAll(s, ops), more)
    decreases |ops|
  {
    if ops == [] {
      assert ops + more == more;
    } else {
      assert (ops + more)[1..] == ops[1..] + more;
      DoMore(Do(s, ops[0]), ops[1..], more);
    }
  }

  /** Although the lock is released in the middle of the loop, processRumors on a packet has
      the effect of lock-held sections one after the other: its own turns and those of
      others. */
  lemma {:induction false} ProcessIsTurns(s: State, processed: bool, rumors: seq<Rumor>, handlings: seq<Handling>)
    returns (ops: seq<Op>)
    requires |rumors| == |handlings|
    ensures Process(s, processed, rumors, handlings).state == DoAll(s, ops)
    ensures forall op :: op in ops ==>
      (op.Get? && op.rumor in rumors) || exists i :: 0 <= i < |handlings| && op in handlings[i].meanwhile
    decreases |rumors|
  {
    ops := [];
    if rumors != [] {
      if !IsNext(s.log, rumors[0]) {
        ops := ProcessIsTurns(s, processed, rumors[1..], handlings[1..]);
      } else {
        var first := [Get(rumors[0])] + handlings[0].meanwhile;
        var s1 := DoAll(Do(s, Get(rumors[0])), handlings[0].meanwhile);
        assert first[1..] == handlings[0].meanwhile;
        assert s1 == DoAll(s, first);
        if handlings[0].ok {
          ops := ProcessIsTurns(s1, true, rumors[1..], handlings[1..]);
        }
        DoMore(s, first, ops);
        forall op | op in ops
          ensures (op.Get? && op.rumor in rumors) || exists i :: 0 <= i < |handlings| && op in handlings[i].meanwhile
        {
          if !(op.Get? && op.rumor in rumors) {
            var i :| 0 <= i < |handlings[1..]| && op in handlings[1..][i].meanwhile;
            assert op in handlings[i + 1].meanwhile;
          }
        }
        ops := first + ops;
      }
    }
  }

  // ---------------------------------------------------------------- invariants

  /** The subsequence of the rumors of one origin. */
  ghost function From(s: seq<Rumor>, o: Peer): seq<Rumor> {
    if s == [] then []
    else From(s[..|s| - 1], o) + if s[|s| - 1].origin == o then [s[|s| - 1]] else []
  }

  lemma FromAppend(s: seq<Rumor>, r: Rumor, o: Peer)
    ensures From(s + [r], o) == if r.origin == o then From(s, o) + [r] else From(s, o)
  {
    assert (s + [r])[..|s|] == s;
  }

  lemma {:induction false} FromMember(s: seq<Rumor>, r: Rumor)
    ensures r in s <==> r in From(s, r.origin)
  {
    if s != [] {
      FromMember(s[..|s| - 1], r);
      assert s == s[..|s| - 1] + [s[|s| - 1]];
    }
  }

  /** What each node has broadcast: its log of itself. */
  ghost function Owns(s: System): seq<seq<Rumor>> {
    seq(|s.nodes|, n requires 0 <= n < |s.nodes| => LogOf(s.nodes[n].state.log, n))
  }

  /** r is what its origin broadcast under that sequence number. */
  ghost predicate Authentic(owns: seq<seq<Rumor>>, r: Rumor) {
    r.origin < |owns| && 1 <= r.sequence <= |owns[r.origin]| && owns[r.origin][r.sequence - 1] == r
  }

  /** The log of every origin is a prefix of the origin's own. */
  ghost predicate Follows(owns: seq<seq<Rumor>>, log: Log) {
    forall o :: o in log.rumors ==> o < |owns| && log.rumors[o] <= owns[o]
  }

  /** What a node was handed from others is exactly its log of them, in order. */
  ghost predicate HandedOK(n: Peer, st: State) {
    forall o: Peer :: From(st.handed, o) == if o == n then [] else LogOf(st.log, o)
  }

  /** A node's own broadcasts are handled at most once. */
  ghost predicate OwnOK(owns: seq<seq<Rumor>>, n: Peer, node: Node) {
    && (forall r :: r in node.pending ==> r.origin == n && Authentic(owns, r))
    && (forall r :: r in node.own ==> r.origin == n && Authentic(owns, r) && r !in node.pending)
    && Distinct(node.own)
  }

  ghost predicate NodeOK(owns: seq<seq<Rumor>>, n: Peer, node: Node) {
    && GapFree(node.state.log)
    && Follows(owns, node.state.log)
    && HandedOK(n, node.state)
    && OwnOK(owns, n, node)
  }

  ghost predicate CreatedOK(owns: seq<seq<Rumor>>, created: seq<Rumor>) {
    && (forall o: Peer :: From(created, o) == if o < |owns| then owns[o] else [])
    && Distinct(created)
  }

  ghost predicate Inv(s: System) {
    && (forall n :: 0 <= n < |s.nodes| ==> NodeOK(Owns(s), n, s.nodes[n]))
    && (forall r :: r in s.wire ==> Authentic(Owns(s), r))
    && CreatedOK(Owns(s), s.created)
  }

  // ---------------------------------------------------------------- preservation

  /** Own logs only grow, so what was authentic stays so. */
  ghost predicate Grows(owns: seq<seq<Rumor>>, more: seq<seq<Rumor>>) {
    |owns| == |more| && forall o :: 0 <= o < |owns| ==> owns[o] <= more[o]
  }

  lemma OthersKept(owns: seq<seq<Rumor>>, more: seq<seq<Rumor>>, n: Peer, node: Node)
    requires Grows(owns, more) && NodeOK(owns, n, node)
    ensures NodeOK(more, n, node)
  {
  }

  /** A new rumor is not in the log it extends. */
  lemma NotYetLogged(log: Log, r: Rumor)
    requires GapFree(log) && IsNext(log, r)
    ensures r !in LogOf(log, r.origin)
  {
    forall i | 0 <= i < |LogOf(log, r.origin)| ensures LogOf(log, r.origin)[i] != r {
      assert LogEntry(log.rumors[r.origin], r.origin, i);
    }
  }

  lemma NewRumorCreated(owns: seq<seq<Rumor>>, created: seq<Rumor>, r: Rumor)
    requires CreatedOK(owns, created) && r.origin < |owns| && r !in owns[r.origin]
    ensures CreatedOK(owns[r.origin := owns[r.origin] + [r]], created + [r])
  {
    var more := owns[r.origin := owns[r.origin] + [r]];
    forall o: Peer ensures From(created + [r], o) == if o < |owns| then more[o] else [] {
      FromAppend(created, r, o);
    }
    FromMember(created, r);
  }

  lemma BroadcastNode(owns: seq<seq<Rumor>>, n: Peer, node: Node, m: Payload)
    requires NodeOK(owns, n, node) && n < |owns| && owns[n] == LogOf(node.state.log, n)
    ensures var r, st := NewRumor(node.state.log, n, m), Do(node.state, Create(n, m));
      && r !in owns[n] && LogOf(st.log, n) == owns[n] + [r]
      && Authentic(owns[n := owns[n] + [r]], r)
      && NodeOK(owns[n := owns[n] + [r]], n, node.(state := st, pending := node.pending + {r}))
  {
    var r := NewRumor(node.state.log, n, m);
    AppendKeepsGapFree(node.state.log, r);
    NotYetLogged(node.state.log, r);
    OthersKept(owns, owns[n := owns[n] + [r]], n, node);
  }

  lemma FollowsMore(owns: seq<seq<Rumor>>, log: Log, r: Rumor)
    requires GapFree(log) && Follows(owns, log) && Authentic(owns, r) && IsNext(log, r)
    ensures Follows(owns, Append(log, r))
  {
  }

  lemma HandedMore(n: Peer, st: State, r: Rumor)
    requires HandedOK(n, st) && IsNext(st.log, r) && r.origin != n
    ensures HandedOK(n, Do(st, Get(r)))
  {
    forall o: Peer ensures From(st.handed + [r], o) == if o == n then [] else LogOf(Append(st.log, r), o) {
      FromAppend(st.handed, r, o);
    }
  }

  lemma NotOwn(owns: seq<seq<Rumor>>, n: Peer, log: Log, r: Rumor)
    requires GapFree(log) && n < |owns| && owns[n] == LogOf(log, n)
    requires Authentic(owns, r) && IsNext(log, r)
    ensures r.origin != n
  {
  }

  /** A rumor that is next in a log that follows the origin's continues to follow it; a node
      is never handed a rumor of its own. */
  lemma ReceiveNode(owns: seq<seq<Rumor>>, n: Peer, node: Node, r: Rumor)
    requires NodeOK(owns, n, node) && n < |owns| && owns[n] == LogOf(node.state.log, n)
    requires Authentic(owns, r) && IsNext(node.state.log, r)
    ensures r.origin != n
    ensures NodeOK(owns, n, node.(state := Do(node.state, Get(r))))
  {
    hide GapFree, Follows, HandedOK, Authentic;
    NotOwn(owns, n, node.state.log, r);
    AppendKeepsGapFree(node.state.log, r);
    FollowsMore(owns, node.state.log, r);
    HandedMore(n, node.state, r);
  }

  lemma HandleOwnNode(owns: seq<seq<Rumor>>, n: Peer, node: Node, r: Rumor)
    requires NodeOK(owns, n, node) && r in node.pending
    ensures NodeOK(owns, n, node.(pending := node.pending - {r}, own := node.own + [r]))
  {
  }

  lemma SliceAuthentic(owns: seq<seq<Rumor>>, log: Log, o: Peer, from: nat)
    requires GapFree(log) && Follows(owns, log) && from <= |LogOf(log, o)|
    ensures forall x :: x in LogOf(log, o)[from..] ==> Authentic(owns, x)
  {
    forall i | 0 <= i < |LogOf(log, o)| ensures Authentic(owns, LogOf(log, o)[i]) {
      assert LogEntry(log.rumors[o], o, i);
    }
  }

  /** The own logs after an action: only a broadcast extends one. */
  lemma OwnsAfter(s: System, a: Action)
    requires Inv(s) && Enabled(s, a)
    ensures var owns, n := Owns(s), a.n;
      Owns(Apply(s, a)) == if a.Broadcast? then owns[n := owns[n] + [NewRumor(s.nodes[n].state.log, n,
            a.msg)]] else owns
  {
    hide HandedOK, OwnOK, CreatedOK, GapFree, Follows;
    var owns, n, node, t := Owns(s), a.n, s.nodes[a.n], Apply(s, a);
    assert NodeOK(owns, n, node);
    assert owns[n] == LogOf(node.state.log, n);
    match a
    case Broadcast(_, m) => BroadcastNode(owns, n, node, m);
    case Receive(_, r) =>
      if IsNext(node.state.log, r) {
        ReceiveNode(owns, n, node, r);
        AppendKeepsGapFree(node.state.log, r);
      }
    case _ =>
  }

  lemma NodeAfter(s: System, a: Action)
    requires Inv(s) && Enabled(s, a)
    ensures NodeOK(Owns(Apply(s, a)), a.n, Apply(s, a).nodes[a.n])
  {
    var owns, n, node := Owns(s), a.n, s.nodes[a.n];
    OwnsAfter(s, a);
    assert NodeOK(owns, n, node);
    match a
    case Broadcast(_, m) => BroadcastNode(owns, n, node, m);
    case HandleOwn(_, r) => HandleOwnNode(owns, n, node, r);
    case Receive(_, r) => if IsNext(node.state.log, r) { ReceiveNode(owns, n, node, r); }
    case Resend(_, _, _) =>
  }

  lemma WireAfter(s: System, a: Action, x: Rumor)
    requires Inv(s) && Enabled(s, a) && x in Apply(s, a).wire
    ensures Authentic(Owns(Apply(s, a)), x)
  {
    hide HandedOK, OwnOK, CreatedOK, GapFree, Follows, Authentic, Owns;
    var owns, n, node := Owns(s), a.n, s.nodes[a.n];
    OwnsAfter(s, a);
    OwnsAre(s, n);
    assert NodeOK(owns, n, node);
    match a
    case Broadcast(_, m) =>
      BroadcastNode(owns, n, node, m);
      if x in s.wire {
        StaysAuthentic(owns, n, NewRumor(node.state.log, n, m), x);
      }
    case Resend(_, o, status) => SliceAuthentic(owns, node.state.log, o, Known(status, o));
    case _ =>
  }

  lemma OwnsAre(s: System, n: Peer)
    requires n < |s.nodes|
    ensures n < |Owns(s)| && Owns(s)[n] == LogOf(s.nodes[n].state.log, n)
  {
  }

  lemma StaysAuthentic(owns: seq<seq<Rumor>>, n: Peer, r: Rumor, x: Rumor)
    requires n < |owns| && Authentic(owns, x)
    ensures Authentic(owns[n := owns[n] + [r]], x)
  {
  }

  lemma StepKeeps(s: System, a: Action)
    requires Inv(s) && Enabled(s, a)
    ensures Inv(Apply(s, a))
  {
    var owns, t := Owns(s), Apply(s, a);
    OwnsAfter(s, a);
    forall k | 0 <= k < |t.nodes| ensures NodeOK(Owns(t), k, t.nodes[k]) {
      if k == a.n {
        NodeAfter(s, a);
      } else {
        OthersKept(owns, Owns(t), k, s.nodes[k]);
      }
    }
    forall x | x in t.wire ensures Authentic(Owns(t), x) {
      WireAfter(s, a, x);
    }
    if a.Broadcast? {
      assert NodeOK(owns, a.n, s.nodes[a.n]);
      BroadcastNode(owns, a.n, s.nodes[a.n], a.msg);
      NewRumorCreated(owns, s.created, NewRumor(s.nodes[a.n].state.log, a.n, a.msg));
    }
  }

  lemma InitInv(n: nat)
    ensures Inv(Init(n))
  {
    var s := Init(n);
    assert forall o :: 0 <= o < n ==> Owns(s)[o] == [];
  }

  lemma {:induction false} RunKeeps(s: System, run: seq<Action>)
    requires Inv(s) && Legal(s, run)
    ensures Inv(Exec(s, run))
    decreases |run|
  {
    if run != [] {
      StepKeeps(s, run[0]);
      RunKeeps(Apply(s, run[0]), run[1..]);
    }
  }

  lemma ReachableInv(s: System)
    requires Reachable(s)
    ensures Inv(s)
  {
    var n: nat, run :| Legal(Init(n), run) && s == Exec(Init(n), run);
    InitInv(n);
    RunKeeps(Init(n), run);
  }

  // ---------------------------------------------------------------- results

  /** In every run, whatever packets are reordered, duplicated or lost: every node's log of an
      origin is gap-free, as long as its sequence map says and a prefix of the origin's own
      log; and the rumors handed to handlers are exactly that log, each once and in order. */
  lemma PrefixConsistency(s: System, n: Peer, o: Peer)
    requires Reachable(s) && n < |s.nodes| && o < |s.nodes|
    ensures var st := s.nodes[n].state;
      && LogOf(st.log, o) <= LogOf(s.nodes[o].state.log, o)
      && |LogOf(st.log, o)| == Known(st.log.sequences, o)
      && (forall i :: 0 <= i < |LogOf(st.log, o)| ==> LogEntry(LogOf(st.log, o), o, i))
      && (n != o ==> From(st.handed, o) == LogOf(st.log, o))
      && From(st.handed, n) == []
  {
    ReachableInv(s);
    assert NodeOK(Owns(s), n, s.nodes[n]);
    assert NodeOK(Owns(s), o, s.nodes[o]);
  }

  /** What the layer above sees. */
  ghost function NetOf(s: System): Net<Payload> {
    Net(seq(|s.created|, k requires 0 <= k < |s.created| => (s.created[k].origin, s.created[k].msg)),
        seq(|s.nodes|, n requires 0 <= n < |s.nodes| => HandledBy(s, n)))
  }

  ghost function HandledBy(s: System, n: Peer): set<nat>
    requires n < |s.nodes|
  {
    set k | 0 <= k < |s.created| && (s.created[k] in s.nodes[n].state.handed || s.created[k] in s.nodes[n].own)
  }

  /** An authentic rumor was created, at exactly one place. */
  lemma CreatedAt(s: System, r: Rumor) returns (k: nat)
    requires Inv(s) && Authentic(Owns(s), r)
    ensures k < |s.created| && s.created[k] == r
  {
    FromMember(s.created, r);
    assert r in Owns(s)[r.origin];
    k :| k < |s.created| && s.created[k] == r;
  }

  lemma FirstHandled(s: System, t: System, n: Peer, k: nat)
    requires Distinct(s.created) && n < |s.nodes| == |t.nodes| && k < |s.created| && t.created == s.created
    requires forall m :: 0 <= m < |s.nodes| && m != n ==> t.nodes[m] == s.nodes[m]
    requires var r := s.created[k];
      && r !in s.nodes[n].state.handed && r !in s.nodes[n].own
      && forall x :: x in t.nodes[n].state.handed || x in t.nodes[n].own
                     <==> x in s.nodes[n].state.handed || x in s.nodes[n].own || x == r
    ensures Delivers(NetOf(s), NetOf(t), n, k)
  {
    assert HandledBy(t, n) == HandledBy(s, n) + {k};
    assert forall m :: 0 <= m < |s.nodes| && m != n ==> HandledBy(t, m) == HandledBy(s, m);
    assert NetOf(t).handled == NetOf(s).handled[n := HandledBy(s, n) + {k}];
  }

  lemma ReceiveDelivers(s: System, n: Peer, r: Rumor) returns (k: nat)
    requires Inv(s) && Enabled(s, Receive(n, r)) && IsNext(s.nodes[n].state.log, r)
    ensures Delivers(NetOf(s), NetOf(Apply(s, Receive(n, r))), n, k)
  {
    hide Follows, Authentic, GapFree;
    var node := s.nodes[n];
    assert NodeOK(Owns(s), n, node);
    assert Owns(s)[n] == LogOf(node.state.log, n);
    ReceiveNode(Owns(s), n, node, r);
    k := CreatedAt(s, r);
    NotYetLogged(node.state.log, r);
    FromMember(node.state.handed, r);
    FirstHandled(s, Apply(s, Receive(n, r)), n, k);
  }

  lemma HandleOwnDelivers(s: System, n: Peer, r: Rumor) returns (k: nat)
    requires Inv(s) && Enabled(s, HandleOwn(n, r))
    ensures Delivers(NetOf(s), NetOf(Apply(s, HandleOwn(n, r))), n, k)
  {
    var node := s.nodes[n];
    assert NodeOK(Owns(s), n, node);
    k := CreatedAt(s, r);
    FromMember(node.state.handed, r);
    FirstHandled(s, Apply(s, HandleOwn(n, r)), n, k);
  }

  lemma BroadcastPosts(s: System, n: Peer, m: Payload)
    requires Inv(s) && Enabled(s, Broadcast(n, m))
    ensures Posts(NetOf(s), NetOf(Apply(s, Broadcast(n, m))))
  {
    hide Inv;
    var t, r := Apply(s, Broadcast(n, m)), NewRumor(s.nodes[n].state.log, n, m);
    NewIsUnhandled(s, n, r);
    forall i | 0 <= i < |s.nodes| ensures HandledBy(t, i) == HandledBy(s, i) {
      assert t.nodes[i].state.handed == s.nodes[i].state.handed && t.nodes[i].own == s.nodes[i].own;
      assert t.created[|s.created|] == r;
    }
    assert NetOf(t).handled == NetOf(s).handled;
    assert NetOf(t).sent == NetOf(s).sent + [(r.origin, r.msg)];
    assert NetOf(t) == Net(NetOf(s).sent + [(r.origin, r.msg)], NetOf(s).handled);
  }

  lemma NewIsUnhandled(s: System, n: Peer, r: Rumor)
    requires Inv(s) && n < |s.nodes| && r == NewRumor(s.nodes[n].state.log, n, r.msg)
    ensures forall i :: 0 <= i < |s.nodes| ==> r !in s.nodes[i].state.handed && r !in s.nodes[i].own
  {
    var owns := Owns(s);
    assert NodeOK(owns, n, s.nodes[n]);
    NotYetLogged(s.nodes[n].state.log, r);
    forall i | 0 <= i < |s.nodes| ensures r !in s.nodes[i].state.handed && r !in s.nodes[i].own {
      assert NodeOK(owns, i, s.nodes[i]);
      FromMember(s.nodes[i].state.handed, r);
      assert LogOf(s.nodes[i].state.log, n) <= owns[n];
      assert !Authentic(owns, r);
    }
  }

  /** Every gossip step is a step of the network the Paxos layer runs on: a broadcast, a first
      delivery of a broadcast message, or nothing. */
  lemma GossipRefinesNetwork(s: System, a: Action)
    requires Reachable(s) && Enabled(s, a)
    ensures NetStep(NetOf(s), NetOf(Apply(s, a)))
  {
    hide Inv, Reachable, Delivers, Posts, LogOf;
    ReachableInv(s);
    match a
    case Broadcast(n, m) => BroadcastPosts(s, n, m);
    case HandleOwn(n, r) => var k := HandleOwnDelivers(s, n, r);
    case Receive(n, r) =>
      if IsNext(s.nodes[n].state.log, r) {
        var k := ReceiveDelivers(s, n, r);
      } else {
        assert Apply(s, a).nodes == s.nodes;
      }
    case Resend(_, _, _) =>
      assert forall n :: 0 <= n < |s.nodes| ==> HandledBy(Apply(s, a), n) == HandledBy(s, n);
      assert NetOf(Apply(s, a)).handled == NetOf(s).handled;
  }
}
