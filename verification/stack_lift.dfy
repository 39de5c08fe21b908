/** The other direction of the projection: every run of the Paxos system in which each origin's
    messages are handled in order is one of peers over packets. So what fails in a run of the
    Paxos system fails on the network. */
module StackLift {
  import opened Common
  import opened Blockchain
  import opened Rumors
  import opened PaxosSpec
  import opened Stack
  import Fork = PaxosFork
  import Leftover = PaxosLeftover
  import Broken = PaxosBroken

  /** Message k is the rumor `named[k]`, which is in a packet. */
  ghost predicate Named(s: System, named: seq<Rumor>, k: nat)
    requires k < |named|
  {
    && k < |s.said| && named[k] in s.of && s.of[named[k]] == k
    && named[k].origin == s.said[k].origin && named[k] in s.gossip.wire
  }

  /** Node n has handled the rumors it was handed, and its own others are pending. */
  ghost predicate UpToDate(s: System, named: seq<Rumor>, n: Peer, k: nat)
    requires k < |named| && n < |s.gossip.nodes| && n < |s.done|
  {
    && (Handed(s.gossip, n, named[k]) ==> k in s.done[n])
    && (named[k].origin == n && k !in s.done[n] ==> named[k] in s.gossip.nodes[n].pending)
  }

  ghost predicate NamesInOrder(named: seq<Rumor>) {
    forall j, k :: 0 <= j < k < |named| && named[j].origin == named[k].origin ==> named[j].sequence < named[k].sequence
  }

  /** Between two actions of the Paxos system: nothing waits in an inbox, and at most the last
      message waits to be published. */
  ghost predicate Steady(c: Config, s: System, named: seq<Rumor>) {
    && Inv(c, s) && |named| <= |s.said| <= |named| + 1 && NamesInOrder(named)
    && (forall k :: 0 <= k < |named| ==> Named(s, named, k))
    && (forall r :: r in s.of ==> s.of[r] < |named|)
    && (forall n, k :: 0 <= n < |s.done| && 0 <= k < |named| ==> UpToDate(s, named, n, k))
    && (forall n :: 0 <= n < |s.inbox| ==> s.inbox[n] == {})
    && (|s.said| > |named| ==> s.said[|named|].origin < |s.outbox| && |named| in s.outbox[s.said[|named|].origin])
  }

  ghost predicate Published(c: Config, s: System, named: seq<Rumor>) {
    Steady(c, s, named) && |named| == |s.said|
  }

  lemma InitPublished(c: Config)
    ensures Published(c, Init(c), [])
  {
    InitHolds(c);
  }

  // ---------------------------------------------------------------- publishing

  /** The sequence number of a node's new rumor is above those of its others. */
  lemma NewIsLater(g: G.System, n: Peer, m: Payload, r: Rumor)
    requires G.Inv(g) && n < |g.nodes| && r in g.created && r.origin == n
    ensures r.sequence < NewRumor(g.nodes[n].state.log, n, m).sequence
  {
    var owns := G.Owns(g);
    assert G.NodeOK(owns, n, g.nodes[n]);
    G.FromMember(g.created, r);
    assert r in owns[n];
    var i :| 0 <= i < |owns[n]| && owns[n][i] == r;
    assert LogEntry(g.nodes[n].state.log.rumors[n], n, i);
  }

  lemma Publishes(c: Config, s: System, named: seq<Rumor>) returns (t: System, more: seq<Rumor>, a: Action)
    requires Good(c) && Steady(c, s, named) && |s.said| == |named| + 1
    ensures Enabled(c, s, a) && t == Apply(c, s, a) && Published(c, t, more) && PaxosOf(t) == PaxosOf(s)
    ensures Projected(s, a) == None
  {
    hide G.Inv, Handed, G.Apply;
    var k := |named|;
    var n := s.said[k].origin;
    a := Publish(n, k);
    assert Sized(c, s);
    t := Apply(c, s, a);
    StepProjects(c, s, a);
    var m := c.encode(s.said[k].msg);
    var g, r := G.Broadcast(n, m), NewRumor(s.gossip.nodes[n].state.log, n, m);
    more := named + [r];
    CreatedAfter(s.gossip, g);
    NewIsNew(s.gossip, n, m);
    PublishNames(c, s, named, n, m, t);
    forall i, j | 0 <= i < |t.done| && 0 <= j < |more| ensures UpToDate(t, more, i, j) {
      PublishUpToDate(c, s, named, n, m, t, i, j);
    }
  }

  lemma PublishNames(c: Config, s: System, named: seq<Rumor>, n: Peer, m: Payload, t: System)
    requires Steady(c, s, named) && |s.said| == |named| + 1 && n < |s.nodes|
    requires n == s.said[|named|].origin && |named| in s.outbox[n]
    requires var k, r := |named|, NewRumor(s.gossip.nodes[n].state.log, n, m);
      && t == s.(gossip := G.Apply(s.gossip, G.Broadcast(n, m)), of := s.of[r := k],
                 outbox := s.outbox[n := s.outbox[n] - {k}])
      && r !in s.gossip.created
    ensures var more := named + [NewRumor(s.gossip.nodes[n].state.log, n, m)];
      NamesInOrder(more) && forall k :: 0 <= k < |more| ==> Named(t, more, k)
  {
    hide G.Inv;
    var r := NewRumor(s.gossip.nodes[n].state.log, n, m);
    var more := named + [r];
    forall j | 0 <= j < |named| ensures named[j] in s.gossip.created && named[j] != r {
      assert Named(s, named, j);
    }
    forall k | 0 <= k < |more| ensures Named(t, more, k) {
      if k < |named| {
        assert Named(s, named, k);
      }
    }
    forall j, k | 0 <= j < k < |more| && more[j].origin == more[k].origin ensures more[j].sequence < more[k].sequence {
      if k == |named| {
        NewIsLater(s.gossip, n, m, more[j]);
      }
    }
  }

  lemma PublishUpToDate(c: Config, s: System, named: seq<Rumor>, n: Peer, m: Payload, t: System, i: Peer, j: nat)
    requires Steady(c, s, named) && |s.said| == |named| + 1 && n < |s.nodes| && i < |s.done| && j <= |named|
    requires var k, r := |named|, NewRumor(s.gossip.nodes[n].state.log, n, m);
      && t == s.(gossip := G.Apply(s.gossip, G.Broadcast(n, m)), of := s.of[r := k],
                 outbox := s.outbox[n := s.outbox[n] - {k}])
      && r !in s.gossip.created
    ensures i < |t.gossip.nodes| && i < |t.done|
    ensures UpToDate(t, named + [NewRumor(s.gossip.nodes[n].state.log, n, m)], i, j)
  {
    hide G.Inv, Handed;
    var g, r := G.Broadcast(n, m), NewRumor(s.gossip.nodes[n].state.log, n, m);
    var x := (named + [r])[j];
    HandedAfter(s.gossip, g, i, x);
    if j < |named| {
      assert UpToDate(s, named, i, j);
    } else {
      if Handed(s.gossip, i, r) {
        HandedIsCreated(s.gossip, i, r);
      }
    }
  }

  // ---------------------------------------------------------------- sections

  /** After a section the new message, if any, waits to be published. */
  lemma SectionSteady(c: Config, s: System, named: seq<Rumor>, n: Peer, node: P.Node, out: Option<Message>)
    requires Published(c, s, named) && n < |s.nodes|
    ensures Steady(c, Section(s, n, node, out), named)
  {
    hide G.Inv, Handed;
    var t := Section(s, n, node, out);
    SectionKeeps(c, s, n, node, out);
    forall k | 0 <= k < |named| ensures Named(t, named, k) {
      assert Named(s, named, k);
    }
    forall i, k | 0 <= i < |t.done| && 0 <= k < |named| ensures UpToDate(t, named, i, k) {
      assert UpToDate(s, named, i, k);
    }
  }

  // ---------------------------------------------------------------- deliveries

  /** What n lacks of a rumor's origin: the rumor is not yet in its log. */
  lemma NotLogged(c: Config, s: System, named: seq<Rumor>, n: Peer, k: nat)
    requires Published(c, s, named) && n < |s.nodes| && k < |named| && k !in s.done[n] && named[k].origin != n
    ensures var g, r := s.gossip, named[k]; var log := LogOf(g.nodes[n].state.log, r.origin);
      && r.origin < |g.nodes| == |G.Owns(g)| && log <= G.Owns(g)[r.origin]
      && |log| <= r.sequence - 1 < |G.Owns(g)[r.origin]|
  {
    hide NamesOK, OutboxOK, InboxOK, NamesInOrder, G.HandedOK, G.OwnOK, G.CreatedOK, Handed;
    var g, r := s.gossip, named[k];
    var owns, o := G.Owns(g), r.origin;
    var log := LogOf(g.nodes[n].state.log, o);
    assert Named(s, named, k) && UpToDate(s, named, n, k);
    assert G.NodeOK(owns, n, g.nodes[n]) && G.Authentic(owns, r);
    if r.sequence - 1 < |log| {
      assert log[r.sequence - 1] == r;
      LoggedIsHanded(g, n, r);
    }
  }

  /** Messages of another origin that come in order come as the next rumor of its log. */
  lemma InOrderIsNext(c: Config, s: System, named: seq<Rumor>, n: Peer, k: nat)
    requires Published(c, s, named) && n < |s.nodes| && k < |named| && k !in s.done[n] && named[k].origin != n
    requires forall j :: 0 <= j < k && s.said[j].origin == s.said[k].origin ==> j in s.done[n]
    ensures IsNext(s.gossip.nodes[n].state.log, named[k])
  {
    hide NamesOK, OutboxOK, InboxOK, NamesInOrder, G.Inv, G.Owns, UpToDate, Named;
    NotLogged(c, s, named, n, k);
    var log := LogOf(s.gossip.nodes[n].state.log, named[k].origin);
    if |log| < named[k].sequence - 1 {
      var j := MissingIsEarlier(c, s, named, n, k);
    }
    KnownIsLogged(c, s, named, n, named[k].origin);
  }

  lemma KnownIsLogged(c: Config, s: System, named: seq<Rumor>, n: Peer, o: Peer)
    requires Published(c, s, named) && n < |s.nodes| == |s.gossip.nodes|
    ensures var log := s.gossip.nodes[n].state.log; Known(log.sequences, o) == |LogOf(log, o)|
  {
    assert G.NodeOK(G.Owns(s.gossip), n, s.gossip.nodes[n]);
  }

  lemma LoggedIsHanded(g: G.System, n: Peer, r: Rumor)
    requires G.Inv(g) && n < |g.nodes| && r.origin != n && r in LogOf(g.nodes[n].state.log, r.origin)
    ensures Handed(g, n, r)
  {
    assert G.NodeOK(G.Owns(g), n, g.nodes[n]);
    G.FromMember(g.nodes[n].state.handed, r);
  }

  /** The first rumor a log lacks is a message that was not handled. */
  lemma MissingIsEarlier(c: Config, s: System, named: seq<Rumor>, n: Peer, k: nat) returns (j: nat)
    requires Published(c, s, named) && n < |s.nodes| && k < |named| && named[k].origin != n
    requires var g, r := s.gossip, named[k]; var log := LogOf(g.nodes[n].state.log, r.origin);
      && r.origin < |g.nodes| == |G.Owns(g)| && log <= G.Owns(g)[r.origin]
      && |log| < r.sequence - 1 < |G.Owns(g)[r.origin]|
    ensures j < k && s.said[j].origin == s.said[k].origin && j !in s.done[n]
  {
    hide G.Inv, G.Owns, OutboxOK, InboxOK, LogOf;
    var g, r := s.gossip, named[k];
    var log, own := LogOf(g.nodes[n].state.log, r.origin), G.Owns(g)[r.origin];
    var q := own[|log|];
    OwnEntry(g, r.origin, |log|);
    j := s.of[q];
    assert Named(s, named, j) && Named(s, named, k) && named[j] == q;
    if j in s.done[n] {
      DoneIsLogged(c, s, named, n, j);
      var i :| 0 <= i < |log| && log[i] == q;
      OwnEntry(g, r.origin, i);
    }
  }

  lemma DoneIsLogged(c: Config, s: System, named: seq<Rumor>, n: Peer, j: nat)
    requires Published(c, s, named) && n < |s.nodes| && j < |named| && j in s.done[n] && named[j].origin != n
    ensures named[j] in LogOf(s.gossip.nodes[n].state.log, named[j].origin)
  {
    hide OutboxOK, NamesInOrder, G.Owns, G.CreatedOK, G.Follows;
    var g, q := s.gossip, named[j];
    assert Named(s, named, j) && InboxOK(s, n);
    var x :| HandledAs(s, n, j, x);
    assert x == q;
    assert G.NodeOK(G.Owns(g), n, g.nodes[n]);
    G.FromMember(g.nodes[n].state.handed, q);
  }

  /** Entry i of an origin's own log has sequence number i + 1. */
  lemma OwnEntry(g: G.System, o: Peer, i: nat)
    requires G.Inv(g) && o < |g.nodes| && i < |G.Owns(g)[o]|
    ensures var r := G.Owns(g)[o][i]; r.origin == o && r.sequence == i + 1 && r in g.created
  {
    assert G.NodeOK(G.Owns(g), o, g.nodes[o]);
    assert LogEntry(g.nodes[o].state.log.rumors[o], o, i);
    G.FromMember(g.created, G.Owns(g)[o][i]);
  }

  /** How the log hands over message k: from a packet, or locally. */
  function HandOver(n: Peer, r: Rumor): G.Action {
    if r.origin == n then G.HandleOwn(n, r) else G.Receive(n, r)
  }

  ghost predicate MayDeliver(c: Config, s: System, n: Peer, k: nat) {
    P.Enabled(c.peers, PaxosOf(s), P.Deliver(n, k)) && Runs.InOriginOrder(PaxosOf(s), P.Deliver(n, k))
  }

  lemma HandOverEnabled(c: Config, s: System, named: seq<Rumor>, n: Peer, k: nat)
    requires Published(c, s, named) && MayDeliver(c, s, n, k)
    ensures k < |named| && n < |s.gossip.nodes|
    ensures G.Enabled(s.gossip, HandOver(n, named[k])) && HandsOver(s.gossip, HandOver(n, named[k]), named[k])
    ensures Enabled(c, s, Gossip(HandOver(n, named[k])))
  {
    hide G.Inv, NamesOK, OutboxOK, InboxOK, NamesInOrder;
    assert Named(s, named, k) && UpToDate(s, named, n, k);
    if named[k].origin != n {
      InOrderIsNext(c, s, named, n, k);
    }
  }

  /** The rumor is in the inbox, and nothing else has changed for the layer above. */
  lemma HandsItOver(c: Config, s: System, named: seq<Rumor>, n: Peer, k: nat) returns (t: System)
    requires Good(c) && Published(c, s, named) && MayDeliver(c, s, n, k)
    ensures k < |named|
    ensures Enabled(c, s, Gossip(HandOver(n, named[k]))) && t == Apply(c, s, Gossip(HandOver(n, named[k])))
    ensures PaxosOf(t) == PaxosOf(s) && Inv(c, t) && t.inbox == s.inbox[n := {named[k]}] && t.of == s.of
    ensures t.gossip.wire == s.gossip.wire && t.outbox == s.outbox
    ensures forall i, j :: 0 <= i < |t.done| && 0 <= j < |named| && (i != n || j != k) ==> UpToDate(t, named, i, j)
  {
    hide G.Inv, NamesOK, OutboxOK, InboxOK, NamesInOrder, Handed, HandsOver;
    HandOverEnabled(c, s, named, n, k);
    var r := named[k];
    var g := HandOver(n, r);
    t := Apply(c, s, Gossip(g));
    StepProjects(c, s, Gossip(g));
    assert GossipRumors(g) == {r};
    var mail := set q | q in GossipRumors(g) && HandsOver(s.gossip, g, q);
    assert mail == {r} && s.inbox[n] + mail == {r};
    assert t.inbox == s.inbox[n := s.inbox[n] + mail];
    SameWire(s.gossip, g);
    forall i, j | 0 <= i < |t.done| && 0 <= j < |named| && (i != n || j != k) ensures UpToDate(t, named, i, j) {
      assert UpToDate(s, named, i, j) && Named(s, named, j) && Named(s, named, k);
      OthersUpToDate(s.gossip, g, i, named[j], r);
    }
  }

  lemma SameWire(g: G.System, a: G.Action)
    requires G.Enabled(g, a) && (a.HandleOwn? || a.Receive?)
    ensures G.Apply(g, a).wire == g.wire
  {
  }

  lemma OthersUpToDate(g: G.System, a: G.Action, i: Peer, q: Rumor, r: Rumor)
    requires G.Enabled(g, a) && i < |g.nodes| && a == HandOver(a.n, r) && HandsOver(g, a, r) && (i != a.n || q != r)
    ensures i < |G.Apply(g, a).nodes| && (Handed(G.Apply(g, a), i, q) <==> Handed(g, i, q))
    ensures q in g.nodes[i].pending ==> q in G.Apply(g, a).nodes[i].pending
  {
    HandedAfter(g, a, i, q);
  }

  /** Handling it is the delivery. */
  lemma HandlesIt(c: Config, s: System, named: seq<Rumor>, n: Peer, k: nat, t: System) returns (u: System)
    requires Good(c) && Published(c, s, named) && k < |named| && MayDeliver(c, s, n, k)
    requires PaxosOf(t) == PaxosOf(s) && Inv(c, t) && t.inbox == s.inbox[n := {named[k]}] && t.of == s.of
    requires t.gossip.wire == s.gossip.wire && t.outbox == s.outbox
    requires forall i, j :: 0 <= i < |t.done| && 0 <= j < |named| && (i != n || j != k) ==> UpToDate(t, named, i, j)
    ensures Enabled(c, t, Handle(n, named[k])) && u == Apply(c, t, Handle(n, named[k]))
    ensures Projected(t, Handle(n, named[k])) == Some(P.Deliver(n, k))
    ensures Steady(c, u, named) && PaxosOf(u) == P.Apply(c.peers, PaxosOf(s), P.Deliver(n, k))
  {
    hide G.Inv, NamesOK, OutboxOK, InboxOK, NamesInOrder, Handed, P.EffectOf, P.Receive;
    var r := named[k];
    assert Named(s, named, k);
    u := Apply(c, t, Handle(n, r));
    StepProjects(c, t, Handle(n, r));
    HandleIsDeliver(c, t, n, r);
    var e := P.Receive(P.ConfOf(c.peers, n), n, t.nodes[n], c.decode(r.msg));
    var v := t.(inbox := t.inbox[n := t.inbox[n] - {r}], done := t.done[n := t.done[n] + {k}]);
    DoneKeeps(c, t, n, r);
    assert Published(c, v, named) by {
      forall i, j | 0 <= i < |v.done| && 0 <= j < |named| ensures UpToDate(v, named, i, j) {
        if i != n || j != k {
          assert UpToDate(t, named, i, j);
        }
      }
      forall j | 0 <= j < |named| ensures Named(v, named, j) {
        assert Named(s, named, j);
      }
    }
    SectionSteady(c, v, named, n, e.node, e.out);
    assert u == Section(v, n, e.node, e.out);
  }

  lemma TagSteady(c: Config, s: System, named: seq<Rumor>, a: P.Action) returns (u: System)
    requires Good(c) && Published(c, s, named) && P.Enabled(c.peers, PaxosOf(s), a) && !a.Deliver?
    ensures Enabled(c, s, Tag(a)) && u == Apply(c, s, Tag(a))
    ensures Steady(c, u, named) && PaxosOf(u) == P.Apply(c.peers, PaxosOf(s), a)
  {
    hide G.Inv, NamesOK, OutboxOK, InboxOK, NamesInOrder, Handed, P.EffectOf;
    assert Sized(c, s);
    u := Apply(c, s, Tag(a));
    TagIsTag(c, s, a);
    var e := P.EffectOf(c.peers, PaxosOf(s), a);
    SectionSteady(c, s, named, a.n, e.node, e.out);
  }

  // ---------------------------------------------------------------- runs

  lemma {:induction false} Joined(c: Config, d: Runs.Discipline, s: System, run: seq<Action>, more: seq<Action>)
    requires c.peers.threshold >= 1 && Legal(c, s, run) && Legal(c, Exec(c, s, run), more)
    requires Keeps(c, d, true, s, run) && Keeps(c, d, true, Exec(c, s, run), more)
    ensures Legal(c, s, run + more) && Keeps(c, d, true, s, run + more)
    ensures Exec(c, s, run + more) == Exec(c, Exec(c, s, run), more)
    decreases |run|
  {
    hide Enabled, Apply, StepKeeps;
    if run == [] {
      assert run + more == more;
    } else {
      assert (run + more)[1..] == run[1..] + more;
      Joined(c, d, Apply(c, s, run[0]), run[1..], more);
    }
  }

  lemma Single(c: Config, d: Runs.Discipline, s: System, a: Action)
    requires c.peers.threshold >= 1 && Enabled(c, s, a) && StepKeeps(c, d, true, s, a)
    ensures Legal(c, s, [a]) && Exec(c, s, [a]) == Apply(c, s, a) && Keeps(c, d, true, s, [a])
  {
    hide Enabled, Apply, StepKeeps;
    assert [a][1..] == [];
  }

  /** Up to the publication of what it wants to broadcast, an action of the Paxos system is one or
      two sections of the stack. */
  lemma Sections(c: Config, d: Runs.Discipline, s: System, named: seq<Rumor>, a: P.Action)
    returns (run: seq<Action>, t: System)
    requires Good(c) && Published(c, s, named) && P.Enabled(c.peers, PaxosOf(s), a)
    requires Runs.Realistic(c.peers, PaxosOf(s), a) && Runs.Keeps(c.peers, d, PaxosOf(s), a)
    ensures Legal(c, s, run) && Exec(c, s, run) == t && Keeps(c, d, true, s, run)
    ensures Steady(c, t, named) && PaxosOf(t) == P.Apply(c.peers, PaxosOf(s), a)
  {
    hide Published, Steady, Apply, P.Apply, Enabled, P.Enabled, Runs.Keeps, Runs.InOriginOrder, Runs.OwnFirst,
      Runs.ChannelHeld, Runs.FreshValue;
    if a.Deliver? {
      var s1 := HandsItOver(c, s, named, a.n, a.k);
      t := HandlesIt(c, s, named, a.n, a.k, s1);
      var g, h := Gossip(HandOver(a.n, named[a.k])), Handle(a.n, named[a.k]);
      Single(c, d, s, g);
      Single(c, d, s1, h);
      Joined(c, d, s, [g], [h]);
      run := [g] + [h];
    } else {
      t := TagSteady(c, s, named, a);
      Single(c, d, s, Tag(a));
      run := [Tag(a)];
    }
  }

  lemma LiftStep(c: Config, d: Runs.Discipline, s: System, named: seq<Rumor>, a: P.Action)
    returns (run: seq<Action>, t: System, more: seq<Rumor>)
    requires Good(c) && Published(c, s, named) && P.Enabled(c.peers, PaxosOf(s), a)
    requires Runs.Realistic(c.peers, PaxosOf(s), a) && Runs.Keeps(c.peers, d, PaxosOf(s), a)
    ensures Legal(c, s, run) && Exec(c, s, run) == t && Keeps(c, d, true, s, run)
    ensures Published(c, t, more) && PaxosOf(t) == P.Apply(c.peers, PaxosOf(s), a)
  {
    hide Apply, P.Apply, Enabled, P.Enabled, Runs.Keeps, Runs.Realistic, Inv, Named, UpToDate, NamesInOrder;
    run, t := Sections(c, d, s, named, a);
    more := named;
    if |t.said| > |named| {
      var u, b;
      u, more, b := Publishes(c, t, named);
      Single(c, d, t, b);
      Joined(c, d, s, run, [b]);
      run, t := run + [b], u;
    }
  }

  /** Every run in which the messages of each other origin are handled in order is one of the
      stack, and keeps its discipline. */
  lemma {:induction false} LiftRun(c: Config, d: Runs.Discipline, s: System, named: seq<Rumor>, steps: seq<P.Action>)
    returns (run: seq<Action>)
    requires Good(c) && Published(c, s, named)
    requires Runs.Proper(c.peers, d, PaxosOf(s), steps)
    ensures Legal(c, s, run) && Keeps(c, d, true, s, run)
    ensures PaxosOf(Exec(c, s, run)) == P.Exec(c.peers, PaxosOf(s), steps)
    decreases |steps|
  {
    hide Published, P.Enabled, P.Apply, Apply, Enabled, Runs.Keeps, Runs.Realistic, PaxosOf;
    run := [];
    if steps != [] {
      var first, t, more := LiftStep(c, d, s, named, steps[0]);
      var rest := LiftRun(c, d, t, more, steps[1..]);
      Joined(c, d, s, first, rest);
      run := first + rest;
    }
  }

  // ---------------------------------------------------------------- results

  /** A proper run of the Paxos system is one of the stack. */
  lemma StackRealises(c: Config, d: Runs.Discipline, steps: seq<P.Action>) returns (run: seq<Action>)
    requires Good(c) && Runs.Proper(c.peers, d, P.Init(c.peers), steps)
    ensures Legal(c, Init(c), run) && Keeps(c, d, true, Init(c), run)
    ensures PaxosOf(Exec(c, Init(c), run)) == P.Exec(c.peers, P.Init(c.peers), steps)
  {
    hide Published, Runs.Proper, P.GoodConfig;
    InitHolds(c);
    InitPublished(c);
    run := LiftRun(c, d, Init(c), [], steps);
  }

  /** All runs of the stack that keep the discipline d end with agreeing chains; `actual` asks only
      of those of the program. */
  ghost predicate AlwaysAgree(c: Config, d: Runs.Discipline, actual: bool)
    requires c.peers.threshold >= 1
  {
    forall run :: Legal(c, Init(c), run) && Keeps(c, d, actual, Init(c), run) ==>
      Chains.ChainsAgree(PaxosOf(Exec(c, Init(c), run)))
  }

  lemma DisagreeOnTheNetwork(c: Config, d: Runs.Discipline, actual: bool, steps: seq<P.Action>)
    requires Good(c) && Runs.Proper(c.peers, d, P.Init(c.peers), steps)
    requires !Chains.ChainsAgree(P.Exec(c.peers, P.Init(c.peers), steps))
    ensures !AlwaysAgree(c, d, actual)
  {
    hide Runs.Proper, Chains.ChainsAgree;
    var run := StackRealises(c, d, steps);
    AlsoKeeps(c, d, actual, Init(c), run);
  }

  lemma {:induction false} AlsoKeeps(c: Config, d: Runs.Discipline, actual: bool, s: System, run: seq<Action>)
    requires c.peers.threshold >= 1 && Legal(c, s, run) && Keeps(c, d, true, s, run)
    ensures Keeps(c, d, actual, s, run)
    decreases |run|
  {
    hide Enabled, Apply, P.Enabled, Runs.Keeps, Runs.Realistic;
    if run != [] {
      AlsoKeeps(c, d, actual, Apply(c, s, run[0]), run[1..]);
    }
  }

  /** Down to packets: with both kinds of discipline the peers always agree on their chains exactly
      when the threshold asks for all of them. */
  lemma StackAgreementExactly(c: Config, actual: bool)
    requires Good(c)
    ensures AlwaysAgree(c, Runs.TIDY, actual) <==> c.peers.threshold >= |c.peers.ids|
  {
    hide Chains.ChainsAgree, Keeps, Fork.Holding, Runs.Proper;
    if c.peers.threshold >= |c.peers.ids| {
      forall run | Legal(c, Init(c), run) && Keeps(c, Runs.TIDY, actual, Init(c), run)
        ensures Chains.ChainsAgree(PaxosOf(Exec(c, Init(c), run)))
      {
        InitHolds(c);
        var steps := RunProjects(c, Runs.TIDY, actual, Init(c), run);
        Runs.TidyIsDisciplined(c.peers, P.Init(c.peers), steps);
        Chains.UnanimousChains(c.peers, steps);
      }
    } else {
      var steps, m, n := Fork.FewerFork(c.peers, Runs.TIDY, Leftover.ONE, Leftover.TWO);
      ProperIsLegal(c.peers, Runs.TIDY, steps);
      Leftover.Disagree(P.Exec(c.peers, P.Init(c.peers), steps), m, n, Leftover.ONE, Leftover.TWO);
      DisagreeOnTheNetwork(c, Runs.TIDY, actual, steps);
    }
  }

  lemma ProperIsLegal(c: P.Config, d: Runs.Discipline, steps: seq<P.Action>)
    requires c.threshold >= 1 && Runs.Proper(c, d, P.Init(c), steps)
    ensures P.Legal(c, P.Init(c), steps)
  {
  }

  /** And with less discipline exactly when there are not two of them. */
  lemma StackNeedsDiscipline(c: Config, d: Runs.Discipline, actual: bool)
    requires Good(c) && c.peers.threshold <= |c.peers.ids| && d != Runs.TIDY
    ensures AlwaysAgree(c, d, actual) <==> |c.peers.ids| <= 1
  {
    hide Keeps, Runs.Proper, Chains.ChainsAgree;
    if |c.peers.ids| <= 1 {
      forall run | Legal(c, Init(c), run) && Keeps(c, d, actual, Init(c), run)
        ensures Chains.ChainsAgree(PaxosOf(Exec(c, Init(c), run)))
      {
        OnePeerAgrees(c, d, actual, run);
      }
    } else {
      var steps := Leftover.UndisciplinedFork(c.peers, d);
      DisagreeOnTheNetwork(c, d, actual, steps);
    }
  }

  lemma OnePeerAgrees(c: Config, d: Runs.Discipline, actual: bool, run: seq<Action>)
    requires Good(c) && |c.peers.ids| <= 1 && Legal(c, Init(c), run)
    ensures Chains.ChainsAgree(PaxosOf(Exec(c, Init(c), run)))
  {
    hide Chains.ChainsAgree, Keeps, Inv;
    InitHolds(c);
    var steps := RunProjects(c, d, actual, Init(c), run);
    Leftover.SizeStays(c.peers, P.Init(c.peers), steps);
    Leftover.OneChain(PaxosOf(Exec(c, Init(c), run)));
  }

  ghost predicate AlwaysLinked(c: Config, d: Runs.Discipline, actual: bool)
    requires c.peers.threshold >= 1
  {
    forall run :: Legal(c, Init(c), run) && Keeps(c, d, actual, Init(c), run) ==>
      Broken.AllLinked(PaxosOf(Exec(c, Init(c), run)))
  }

  /** Down to packets: the stored chains always link exactly when the threshold asks for all peers
      (given a hash that tells two first blocks apart). */
  lemma StackLinksExactly(c: Config, d: Runs.Discipline, actual: bool, v: PaxosValue, w: PaxosValue)
    requires Good(c) && v != NO_VALUE && w != NO_VALUE
    requires c.peers.hash(Preimage(0, v, ZERO_HASH)) != c.peers.hash(Preimage(0, w, ZERO_HASH))
    ensures AlwaysLinked(c, d, actual) <==> c.peers.threshold >= |c.peers.ids|
  {
    hide Keeps, Runs.Proper, Linked;
    if c.peers.threshold >= |c.peers.ids| {
      forall run | Legal(c, Init(c), run) && Keeps(c, d, actual, Init(c), run)
        ensures Broken.AllLinked(PaxosOf(Exec(c, Init(c), run)))
      {
        InitHolds(c);
        var steps := RunProjects(c, d, actual, Init(c), run);
        Broken.UnanimousLinks(c.peers, steps);
      }
    } else {
      var steps, n := Broken.FewerBreak(c.peers, d, v, w);
      ProperIsLegal(c.peers, d, steps);
      var run := StackRealises(c, d, steps);
      AlsoKeeps(c, d, actual, Init(c), run);
      assert !Broken.AllLinked(PaxosOf(Exec(c, Init(c), run)));
      assert !AlwaysLinked(c, d, actual);
    }
  }
}
