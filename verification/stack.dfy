/** The whole stack of a peer: a Paxos handler on top of a rumor log. What a handler wants to
    broadcast becomes a rumor in a later section, a rumor taken from a packet is handled in a
    later section, and packets are reordered, duplicated and lost. */
module Stack {
  import opened Common
  import opened Text
  import opened Rumors
  import opened PaxosSpec
  import G = Gossip
  import P = PaxosSystem
  import Agreement = PaxosAgreement
  import Chains = PaxosChains
  import Runs = PaxosRuns

  /** The peers' configuration, and how messages are marshalled. */
  datatype Config = Config(peers: P.Config, encode: Message -> Bytes, decode: Bytes -> Message)

  ghost predicate Good(c: Config) {
    P.GoodConfig(c.peers) && forall m: Message :: c.decode(c.encode(m)) == m
  }

  /** The rumor logs and packets; the Paxos nodes; the messages they produced, in order, of
      which `outbox` are not rumors yet and the others became rumors as `of` says; the rumors
      each node still has to handle, and the messages it has handled. */
  datatype System = System(gossip: G.System, nodes: seq<P.Node>, said: seq<P.Env>, of: map<Rumor, nat>,
                           outbox: seq<set<nat>>, inbox: seq<set<Rumor>>, done: seq<set<nat>>)

  function Init(c: Config): System {
    var n := |c.peers.ids|;
    System(G.Init(n), P.Init(c.peers).nodes, [], map[], seq(n, _ => {}), seq(n, _ => {}), seq(n, _ => {}))
  }

  datatype Action =
    | Tag(a: P.Action)           // a lock-held section of the goroutine that runs Tag
    | Handle(n: Peer, r: Rumor)  // the Paxos callback of a rumor
    | Publish(n: Peer, k: nat)   // createRumorsMsg for something a section wants to broadcast
    | Gossip(g: G.Action)        // receipt of a rumor, local handling, resends

  ghost function PaxosOf(s: System): P.Sys {
    P.Sys(s.nodes, s.said, s.done)
  }

  ghost predicate Sized(c: Config, s: System) {
    |s.nodes| == |s.gossip.nodes| == |s.outbox| == |s.inbox| == |s.done| == |c.peers.ids|
  }

  ghost predicate Enabled(c: Config, s: System, a: Action) {
    && Sized(c, s)
    && match a
       case Tag(a) => !a.Deliver? && P.Enabled(c.peers, PaxosOf(s), a)
       case Handle(n, r) => n < |s.nodes| && r in s.inbox[n] && !s.nodes[n].crashed
       case Publish(n, k) => n < |s.nodes| && k in s.outbox[n] && k < |s.said|
       case Gossip(g) => !g.Broadcast? && G.Enabled(s.gossip, g)
  }

  /** What a Paxos section leaves behind. */
  function Section(s: System, n: Peer, node: P.Node, out: Option<Message>): System
    requires n < |s.nodes| && n < |s.outbox|
  {
    s.(nodes := s.nodes[n := node], said := P.Post(s.said, n, out),
       outbox := if out.Some? then s.outbox[n := s.outbox[n] + {|s.said|}] else s.outbox)
  }

  /** The rumor a gossip action hands to a handler, if any. */
  ghost predicate HandsOver(s: G.System, g: G.Action, r: Rumor)
    requires G.Enabled(s, g)
  {
    match g
    case Receive(n, x) => r == x && IsNext(s.nodes[n].state.log, x)
    case HandleOwn(_, x) => r == x
    case _ => false
  }

  ghost function Apply(c: Config, s: System, a: Action): System
    requires c.peers.threshold >= 1 && Enabled(c, s, a)
  {
    match a
    case Tag(a) =>
      var e := P.EffectOf(c.peers, PaxosOf(s), a);
      Section(s, a.n, e.node, e.out)
    case Handle(n, r) =>
      var e := P.Receive(P.ConfOf(c.peers, n), n, s.nodes[n], c.decode(r.msg));
      Section(s, n, e.node, e.out).(inbox := s.inbox[n := s.inbox[n] - {r}],
                                    done := if r in s.of then s.done[n := s.done[n] + {s.of[r]}] else s.done)
    case Publish(n, k) =>
      var m := c.encode(s.said[k].msg);
      var r := NewRumor(s.gossip.nodes[n].state.log, n, m);
      s.(gossip := G.Apply(s.gossip, G.Broadcast(n, m)), of := s.of[r := k],
         outbox := s.outbox[n := s.outbox[n] - {k}])
    case Gossip(g) =>
      var mail := set r | r in GossipRumors(g) && HandsOver(s.gossip, g, r);
      s.(gossip := G.Apply(s.gossip, g), inbox := s.inbox[g.n := s.inbox[g.n] + mail])
  }

  function GossipRumors(g: G.Action): set<Rumor> {
    match g
    case Receive(_, r) => {r}
    case HandleOwn(_, r) => {r}
    case _ => {}
  }

  ghost predicate Legal(c: Config, s: System, run: seq<Action>)
    requires c.peers.threshold >= 1
    decreases |run|
  {
    run == [] || (Enabled(c, s, run[0]) && Legal(c, Apply(c, s, run[0]), run[1..]))
  }

  ghost function Exec(c: Config, s: System, run: seq<Action>): System
    requires c.peers.threshold >= 1 && Legal(c, s, run)
    decreases |run|
  {
    if run == [] then s else Exec(c, Apply(c, s, run[0]), run[1..])
  }

  // ---------------------------------------------------------------- invariants

  /** n's log has handed r to a handler. */
  ghost predicate Handed(g: G.System, n: Peer, r: Rumor)
    requires n < |g.nodes|
  {
    r in g.nodes[n].state.handed || r in g.nodes[n].own
  }

  /** Which rumor is which message. */
  ghost predicate NamesOK(c: Config, s: System) {
    && (forall r :: r in s.of <==> r in s.gossip.created)
    && (forall r :: r in s.of ==> s.of[r] < |s.said| && r.msg == c.encode(s.said[s.of[r]].msg))
    && (forall r, q :: r in s.of && q in s.of && s.of[r] == s.of[q] ==> r == q)
  }

  /** Message k of node n is no rumor yet. */
  ghost predicate Waits(s: System, n: Peer, k: nat) {
    k < |s.said| && s.said[k].origin == n && forall r :: r in s.of ==> s.of[r] != k
  }

  ghost predicate OutboxOK(s: System) {
    forall n, k :: 0 <= n < |s.outbox| && k in s.outbox[n] ==> Waits(s, n, k)
  }

  /** The message was handled: the rumor it became was handed over and no longer waits. */
  ghost predicate HandledAs(s: System, n: Peer, k: nat, r: Rumor)
    requires n < |s.gossip.nodes| && n < |s.inbox|
  {
    Handed(s.gossip, n, r) && r !in s.inbox[n] && r in s.of && s.of[r] == k
  }

  ghost predicate InboxOK(s: System, n: Peer)
    requires n < |s.gossip.nodes| && n < |s.inbox| && n < |s.done|
  {
    && (forall r :: r in s.inbox[n] ==> Handed(s.gossip, n, r))
    && (forall k :: k in s.done[n] ==> exists r :: HandledAs(s, n, k, r))
  }

  ghost predicate Inv(c: Config, s: System) {
    && Sized(c, s) && G.Inv(s.gossip)
    && NamesOK(c, s) && OutboxOK(s)
    && forall n :: 0 <= n < |s.inbox| ==> InboxOK(s, n)
  }

  /** Only what was broadcast is ever handed over. */
  lemma HandedIsCreated(g: G.System, n: Peer, r: Rumor)
    requires G.Inv(g) && n < |g.nodes| && Handed(g, n, r)
    ensures r in g.created
  {
    var owns, node := G.Owns(g), g.nodes[n];
    assert G.NodeOK(owns, n, node);
    if r in node.state.handed {
      G.FromMember(node.state.handed, r);
      assert r in LogOf(node.state.log, r.origin);
      assert LogOf(node.state.log, r.origin) <= owns[r.origin];
    } else {
      assert G.Authentic(owns, r);
    }
    assert r in owns[r.origin];
    G.FromMember(g.created, r);
  }

  /** A rumor is handed over only once. */
  lemma HandedOnce(g: G.System, a: G.Action, r: Rumor)
    requires G.Inv(g) && G.Enabled(g, a) && HandsOver(g, a, r)
    ensures !Handed(g, a.n, r)
  {
    var owns, n, node := G.Owns(g), a.n, g.nodes[a.n];
    assert G.NodeOK(owns, n, node);
    match a
    case HandleOwn(_, _) =>
      G.FromMember(node.state.handed, r);
    case Receive(_, _) =>
      G.ReceiveNode(owns, n, node, r);
      G.NotYetLogged(node.state.log, r);
      G.FromMember(node.state.handed, r);
    case _ =>
  }

  /** What is handed over after a gossip action. */
  lemma HandedAfter(g: G.System, a: G.Action, n: Peer, r: Rumor)
    requires G.Enabled(g, a) && n < |g.nodes|
    ensures n < |G.Apply(g, a).nodes|
    ensures Handed(G.Apply(g, a), n, r) <==> Handed(g, n, r) || (n == a.n && HandsOver(g, a, r))
  {
    hide Append, NewRumor, LogOf;
    if n != a.n {
      assert G.Apply(g, a).nodes[n] == g.nodes[n];
    }
  }

  lemma SameSize(g: G.System, a: G.Action)
    requires G.Enabled(g, a)
    ensures |G.Apply(g, a).nodes| == |g.nodes| && a.n < |g.nodes|
  {
  }

  lemma CreatedAfter(g: G.System, a: G.Action)
    requires G.Enabled(g, a)
    ensures G.Apply(g, a).created
            == if a.Broadcast? then g.created + [NewRumor(g.nodes[a.n].state.log, a.n, a.msg)] else g.created
  {
  }

  lemma NewIsNew(g: G.System, n: Peer, m: Payload)
    requires G.Inv(g) && n < |g.nodes|
    ensures NewRumor(g.nodes[n].state.log, n, m) !in g.created
  {
    var owns, r := G.Owns(g), NewRumor(g.nodes[n].state.log, n, m);
    assert G.NodeOK(owns, n, g.nodes[n]);
    G.NotYetLogged(g.nodes[n].state.log, r);
    G.FromMember(g.created, r);
  }

  // ---------------------------------------------------------------- every action

  lemma GossipKeeps(c: Config, s: System, g: G.Action)
    requires Good(c) && Inv(c, s) && Enabled(c, s, Gossip(g))
    ensures Inv(c, Apply(c, s, Gossip(g)))
  {
    hide G.Inv, HandsOver, Handed, G.Apply, G.Enabled;
    var t := Apply(c, s, Gossip(g));
    G.StepKeeps(s.gossip, g);
    CreatedAfter(s.gossip, g);
    SameSize(s.gossip, g);
    forall n | 0 <= n < |t.inbox| ensures InboxOK(t, n) {
      assert InboxOK(s, n);
      forall r | r in t.inbox[n] ensures Handed(t.gossip, n, r) {
        HandedAfter(s.gossip, g, n, r);
      }
      forall k | k in t.done[n] ensures exists r :: HandledAs(t, n, k, r) {
        var r :| HandledAs(s, n, k, r);
        HandedAfter(s.gossip, g, n, r);
        if n == g.n && HandsOver(s.gossip, g, r) {
          HandedOnce(s.gossip, g, r);
        }
        assert HandledAs(t, n, k, r);
      }
    }
    assert Sized(c, t);
    assert G.Inv(t.gossip);
    assert NamesOK(c, t);
    assert OutboxOK(t);
  }

  lemma PublishInbox(c: Config, s: System, n: Peer, k: nat, i: Peer)
    requires Good(c) && Inv(c, s) && Enabled(c, s, Publish(n, k)) && i < |s.inbox|
    ensures var t := Apply(c, s, Publish(n, k));
      i < |t.gossip.nodes| && i < |t.inbox| && i < |t.done| && InboxOK(t, i)
  {
    hide G.Inv, Handed, G.Apply, OutboxOK;
    var t := Apply(c, s, Publish(n, k));
    var g, r := G.Broadcast(n, c.encode(s.said[k].msg)), NewRumor(s.gossip.nodes[n].state.log, n,
        c.encode(s.said[k].msg));
    SameSize(s.gossip, g);
    NewIsNew(s.gossip, n, g.msg);
    assert InboxOK(s, i);
    forall q | q in t.inbox[i] ensures Handed(t.gossip, i, q) {
      HandedAfter(s.gossip, g, i, q);
    }
    forall j | j in t.done[i] ensures exists q :: HandledAs(t, i, j, q) {
      var q :| HandledAs(s, i, j, q);
      HandedAfter(s.gossip, g, i, q);
      assert HandledAs(t, i, j, q);
    }
  }

  lemma PublishNames(c: Config, s: System, n: Peer, k: nat)
    requires Good(c) && Inv(c, s) && Enabled(c, s, Publish(n, k))
    ensures NamesOK(c, Apply(c, s, Publish(n, k)))
    ensures forall r :: r in Apply(c, s, Publish(n, k)).of && r !in s.of ==> Apply(c, s, Publish(n, k)).of[r] == k
    ensures forall r :: r in s.of ==>
      r in Apply(c, s, Publish(n, k)).of && Apply(c, s, Publish(n, k)).of[r] == s.of[r]
  {
    hide G.Inv, G.Apply, InboxOK;
    var m := c.encode(s.said[k].msg);
    CreatedAfter(s.gossip, G.Broadcast(n, m));
    NewIsNew(s.gossip, n, m);
    assert Waits(s, n, k);
  }

  lemma PublishKeeps(c: Config, s: System, n: Peer, k: nat)
    requires Good(c) && Inv(c, s) && Enabled(c, s, Publish(n, k))
    ensures Inv(c, Apply(c, s, Publish(n, k)))
  {
    hide G.Inv, Handed, G.Apply, InboxOK, NamesOK;
    var t := Apply(c, s, Publish(n, k));
    var g := G.Broadcast(n, c.encode(s.said[k].msg));
    G.StepKeeps(s.gossip, g);
    SameSize(s.gossip, g);
    PublishNames(c, s, n, k);
    forall i | 0 <= i < |t.inbox| ensures InboxOK(t, i) {
      PublishInbox(c, s, n, k, i);
    }
    assert Sized(c, t);
    assert G.Inv(t.gossip);
    assert OutboxOK(t);
  }

  /** A Paxos section appends to what was said. */
  lemma SectionKeeps(c: Config, s: System, n: Peer, node: P.Node, out: Option<Message>)
    requires Inv(c, s) && n < |s.nodes|
    ensures Inv(c, Section(s, n, node, out))
  {
    hide G.Inv, Handed;
    var t := Section(s, n, node, out);
    forall i, k | 0 <= i < |t.outbox| && k in t.outbox[i] ensures Waits(t, i, k) {
      assert k in s.outbox[i] ==> Waits(s, i, k);
    }
    forall i | 0 <= i < |t.inbox| ensures InboxOK(t, i) {
      assert InboxOK(s, i);
      forall j | j in t.done[i] ensures exists q :: HandledAs(t, i, j, q) {
        var q :| HandledAs(s, i, j, q);
        assert HandledAs(t, i, j, q);
      }
    }
    assert Sized(c, t);
    assert G.Inv(t.gossip);
    assert NamesOK(c, t);
    assert OutboxOK(t);
  }

  /** Handling a rumor moves it from the inbox to what is done. */
  lemma DoneKeeps(c: Config, s: System, n: Peer, r: Rumor)
    requires Inv(c, s) && n < |s.nodes| && r in s.inbox[n]
    ensures r in s.of && s.of[r] < |s.said| && s.of[r] !in s.done[n]
    ensures Inv(c, s.(inbox := s.inbox[n := s.inbox[n] - {r}], done := s.done[n := s.done[n] + {s.of[r]}]))
  {
    hide G.Inv, Handed;
    assert InboxOK(s, n);
    HandedIsCreated(s.gossip, n, r);
    var k := s.of[r];
    var t := s.(inbox := s.inbox[n := s.inbox[n] - {r}], done := s.done[n := s.done[n] + {k}]);
    forall i | 0 <= i < |t.inbox| ensures InboxOK(t, i) {
      assert InboxOK(s, i);
      forall j | j in t.done[i] ensures exists q :: HandledAs(t, i, j, q) {
        if j in s.done[i] {
          var q :| HandledAs(s, i, j, q);
          assert HandledAs(t, i, j, q);
        } else {
          assert HandledAs(t, i, j, r);
        }
      }
    }
    assert Sized(c, t);
    assert G.Inv(t.gossip);
    assert NamesOK(c, t);
    assert OutboxOK(t);
  }

  // ---------------------------------------------------------------- projection

  /** The Paxos action an action of the stack amounts to, if any. */
  ghost function Projected(s: System, a: Action): Option<P.Action> {
    match a
    case Tag(a) => Some(a)
    case Handle(n, r) => if r in s.of then Some(P.Deliver(n, s.of[r])) else None
    case _ => None
  }

  lemma HandleIsDeliver(c: Config, s: System, n: Peer, r: Rumor)
    requires Good(c) && Inv(c, s) && Enabled(c, s, Handle(n, r))
    ensures r in s.of && P.Enabled(c.peers, PaxosOf(s), P.Deliver(n, s.of[r]))
    ensures PaxosOf(Apply(c, s, Handle(n, r))) == P.Apply(c.peers, PaxosOf(s), P.Deliver(n, s.of[r]))
    ensures Inv(c, Apply(c, s, Handle(n, r)))
  {
    hide G.Inv, Handed, P.Receive, InboxOK, OutboxOK, HandledAs;
    DoneKeeps(c, s, n, r);
    var k := s.of[r];
    assert c.decode(r.msg) == s.said[k].msg;
    var e := P.Receive(P.ConfOf(c.peers, n), n, s.nodes[n], s.said[k].msg);
    var s1 := s.(inbox := s.inbox[n := s.inbox[n] - {r}], done := s.done[n := s.done[n] + {k}]);
    SectionKeeps(c, s1, n, e.node, e.out);
    assert Apply(c, s, Handle(n, r)) == Section(s1, n, e.node, e.out);
  }

  lemma TagIsTag(c: Config, s: System, a: P.Action)
    requires Good(c) && Inv(c, s) && Enabled(c, s, Tag(a))
    ensures PaxosOf(Apply(c, s, Tag(a))) == P.Apply(c.peers, PaxosOf(s), a)
    ensures Inv(c, Apply(c, s, Tag(a)))
  {
    hide G.Inv, Handed, P.Receive, InboxOK, OutboxOK, HandledAs;
    var e := P.EffectOf(c.peers, PaxosOf(s), a);
    SectionKeeps(c, s, a.n, e.node, e.out);
  }

  /** Every action of the stack is an action of the Paxos system, or none. */
  lemma StepProjects(c: Config, s: System, a: Action)
    requires Good(c) && Inv(c, s) && Enabled(c, s, a)
    ensures Inv(c, Apply(c, s, a))
    ensures match Projected(s, a)
            case Some(b) => P.Enabled(c.peers, PaxosOf(s), b) && PaxosOf(Apply(c, s, a)) == P.Apply(c.peers,
                  PaxosOf(s), b)
            case None => PaxosOf(Apply(c, s, a)) == PaxosOf(s)
  {
    hide Inv, P.EffectOf, P.Apply, Handed, HandsOver, G.Apply;
    match a
    case Tag(b) => TagIsTag(c, s, b);
    case Handle(n, r) => HandleIsDeliver(c, s, n, r);
    case Publish(n, k) => PublishKeeps(c, s, n, k);
    case Gossip(g) => GossipKeeps(c, s, g);
  }

  lemma InitHolds(c: Config)
    ensures Inv(c, Init(c)) && PaxosOf(Init(c)) == P.Init(c.peers)
  {
    G.InitInv(|c.peers.ids|);
    assert PaxosOf(Init(c)).handled == P.Init(c.peers).handled;
    assert PaxosOf(Init(c)).nodes == P.Init(c.peers).nodes;
  }

  /** The Paxos actions of a run keep the discipline d, and `actual` asks that they are those of the
      program: own messages first, one value on the promise channel, fresh values. */
  ghost predicate Keeps(c: Config, d: Runs.Discipline, actual: bool, s: System, run: seq<Action>)
    requires c.peers.threshold >= 1 && Legal(c, s, run)
    decreases |run|
  {
    run == [] || (StepKeeps(c, d, actual, s, run[0]) && Keeps(c, d, actual, Apply(c, s, run[0]), run[1..]))
  }

  ghost predicate StepKeeps(c: Config, d: Runs.Discipline, actual: bool, s: System, a: Action)
    requires c.peers.threshold >= 1
  {
    var b := Projected(s, a);
    b.Some? && P.Enabled(c.peers, PaxosOf(s), b.value) ==>
      && Runs.Keeps(c.peers, d, PaxosOf(s), b.value)
      && (actual ==> Runs.Realistic(c.peers, PaxosOf(s), b.value))
  }

  /** Every run of the stack projects to a run of the Paxos system. */
  lemma {:induction false} RunProjects(c: Config, d: Runs.Discipline, actual: bool, s: System, run: seq<Action>)
    returns (steps: seq<P.Action>)
    requires Good(c) && Inv(c, s) && Legal(c, s, run)
    ensures P.Legal(c.peers, PaxosOf(s), steps)
    ensures P.Exec(c.peers, PaxosOf(s), steps) == PaxosOf(Exec(c, s, run))
    ensures Keeps(c, d, actual, s, run) ==> Runs.KeepsRun(c.peers, d, PaxosOf(s), steps)
    decreases |run|
  {
    hide Inv, P.Enabled, P.Apply, PaxosOf, Apply, Enabled, Projected, Runs.Keeps, Runs.Realistic;
    steps := [];
    if run != [] {
      StepProjects(c, s, run[0]);
      steps := RunProjects(c, d, actual, Apply(c, s, run[0]), run[1..]);
      var b := Projected(s, run[0]);
      if b.Some? {
        assert ([b.value] + steps)[1..] == steps;
        steps := [b.value] + steps;
      }
    }
  }

  // ---------------------------------------------------------------- results

  /** So what is proved of the Paxos system holds of the peers of every run of the stack. */
  lemma StackRefinesPaxos(c: Config, run: seq<Action>)
    requires Good(c) && Legal(c, Init(c), run)
    ensures P.Reachable(c.peers, PaxosOf(Exec(c, Init(c), run)))
  {
    InitHolds(c);
    var steps := RunProjects(c, Runs.TIDY, false, Init(c), run);
  }

  /** Chain agreement, down to packets: if no two values reach the accept threshold in a step,
      all chains agree. */
  lemma StackChainAgreement(c: Config, run: seq<Action>)
    requires Good(c) && Legal(c, Init(c), run)
    requires Chains.OneDecision(PaxosOf(Exec(c, Init(c), run)))
    ensures Chains.ChainsAgree(PaxosOf(Exec(c, Init(c), run)))
  {
    StackRefinesPaxos(c, run);
    Chains.ChainAgreement(c.peers, PaxosOf(Exec(c, Init(c), run)));
  }

  /** Agreement, down to packets: with unanimous thresholds the chains of every disciplined run
      agree. */
  lemma StackAgrees(c: Config, run: seq<Action>)
    requires Good(c) && Agreement.Unanimous(c.peers)
    requires Legal(c, Init(c), run) && Keeps(c, Runs.TIDY, false, Init(c), run)
    ensures Chains.ChainsAgree(PaxosOf(Exec(c, Init(c), run)))
  {
    InitHolds(c);
    var steps := RunProjects(c, Runs.TIDY, false, Init(c), run);
    Runs.TidyIsDisciplined(c.peers, P.Init(c.peers), steps);
    Chains.UnanimousChains(c.peers, steps);
  }
}
