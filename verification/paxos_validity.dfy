/** Validity and acceptor discipline, over whole runs. */
module PaxosValidity {
  import opened Common
  import opened Text
  import opened Blockchain
  import opened PaxosSpec
  import opened PaxosSystem
  import opened PaxosInvariants
  import opened PaxosSteps
  import opened PaxosEvidence

  // ---------------------------------------------------------------- acceptor discipline

  /** Between an earlier message a and a later one b of one node in one step: a node promises
      each ballot at most once and in increasing order, never accepts below a ballot it has
      promised, and after an accept every promise reports an accepted value. */
  lemma AcceptorDiscipline(c: Config, s: Sys, a: nat, b: nat)
    requires GoodConfig(c) && Reachable(c, s)
    requires a < b < |s.sent| && s.sent[a].origin == s.sent[b].origin && s.sent[a].msg.step == s.sent[b].msg.step
    ensures var m, l := s.sent[a].msg, s.sent[b].msg;
      && (m.Promise? && l.Promise? ==> m.id < l.id)
      && (m.Promise? && l.Accept? ==> m.id <= l.id)
      && (m.Accept? && l.Promise? ==> m.id < l.id && l.acceptedValue.Some? && 0 < l.acceptedID < l.id)
      && !(m.TLC? && l.TLC?)
  {
    ReachableBase(c, s);
    assert InOrder(s.sent[a].msg, s.sent[b].msg);
    assert Backed(c, s.sent, s.sent[b].origin, s.sent[b].msg);
  }

  lemma NeverAbovePromise(c: Config, s: Sys, n: Peer)
    requires BaseInv(c, s) && n < |s.nodes|
    ensures s.nodes[n].h.acceptedID <= s.nodes[n].h.maxID
  {
    assert NodeOK(c, s.nodes[n], s.sent, n, s.handled[n]);
  }

  lemma StepOutline(c: Config, s: Sys, a: Action)
    requires c.threshold >= 1 && Enabled(c, s, a)
    ensures var h, r := s.nodes[a.n].h, Apply(c, s, a).nodes[a.n].h;
      && r.step >= h.step
      && (r.step == h.step ==> r.maxID >= h.maxID)
      && (r.step == h.step && h.acceptedValue != NO_VALUE ==>
           r.acceptedValue == h.acceptedValue && r.acceptedID == h.acceptedID)
  {
    if a.Deliver? {
      var m, conf, node := s.sent[a.k].msg, ConfOf(c, a.n), s.nodes[a.n];
      if m.Accept? {
        AcceptOutline(conf, node.h, m);
      } else if m.TLC? {
        TLCOutline(conf, node.h, m);
      } else if m.Promise? {
        QuietPromise(conf, a.n, node, m);
      }
    }
  }

  /** The accepted pair is written at most once in a step. */
  lemma AcceptedPairIsWrittenOnce(c: Config, s: Sys, a: Action)
    requires GoodConfig(c) && Reachable(c, s) && Enabled(c, s, a)
    ensures var h, r := s.nodes[a.n].h, Apply(c, s, a).nodes[a.n].h;
      && r.step >= h.step && r.acceptedID <= r.maxID
      && (r.step == h.step ==> r.maxID >= h.maxID)
      && (r.step == h.step && h.acceptedValue != NO_VALUE ==>
           r.acceptedValue == h.acceptedValue && r.acceptedID == h.acceptedID)
  {
    hide Reachable, AllBacked, Ordered, Past, ThreadOK, Ballot, Receive, NodeOK;
    ReachableBase(c, s);
    StepKeepsBase(c, s, a);
    NeverAbovePromise(c, Apply(c, s, a), a.n);
    StepOutline(c, s, a);
  }

  lemma QuietPromise(c: Conf, me: Peer, node: Node, m: Message)
    requires c.threshold >= 1 && m.Promise?
    ensures var r := Receive(c, me, node, m).node.h;
      r.step == node.h.step && r.maxID == node.h.maxID
      && r.acceptedID == node.h.acceptedID && r.acceptedValue == node.h.acceptedValue
      && r.proposedValue == node.h.proposedValue
  {
    if m.dest == me && !NilDereference(node.h, m) && CountsPromise(node.h, m) {
      var r := RespondToPromise(c, node.h, m).h;
      assert r == node.h.(promises := r.promises, bestID := r.bestID, bestValue := r.bestValue, phase := r.phase);
    }
  }

  /** A peer never starts two attempts on one ballot of one step, however often its Tag
      retries, restarts or is carried into a later step. */
  lemma AttemptsAreFresh(c: Config, s: Sys, a: nat, b: nat)
    requires GoodConfig(c) && Reachable(c, s)
    requires a < |s.sent| && b < |s.sent| && a != b && s.sent[a].msg.Prepare? && s.sent[b].msg.Prepare?
    ensures s.sent[a].msg.step != s.sent[b].msg.step || s.sent[a].msg.id != s.sent[b].msg.id
  {
    ReachableBase(c, s);
    var m, l := s.sent[a].msg, s.sent[b].msg;
    assert Backed(c, s.sent, s.sent[a].origin, m) && Backed(c, s.sent, s.sent[b].origin, l);
    if m.step == l.step && m.id == l.id {
      BallotsNeverCollide(c, s.sent[a].origin, s.sent[b].origin, m.id);
      assert false;
    }
  }

  /** No handler ever dereferences a nil accepted value. */
  lemma NoNilDereference(c: Config, s: Sys, n: Peer)
    requires GoodConfig(c) && Reachable(c, s) && n < |s.nodes|
    ensures !s.nodes[n].crashed
  {
    ReachableBase(c, s);
    assert NodeOK(c, s.nodes[n], s.sent, n, s.handled[n]);
  }

  // ---------------------------------------------------------------- validity

  ghost predicate Made(s: Sys, v: PaxosValue) {
    exists n :: 0 <= n < |s.nodes| && v in s.nodes[n].created
  }

  ghost predicate MadeOrNone(s: Sys, v: PaxosValue) {
    v == NO_VALUE || Made(s, v)
  }

  ghost predicate MessageValid(s: Sys, m: Message) {
    && (m.Propose? || m.Accept? ==> Made(s, m.value))
    && (m.Promise? && m.acceptedValue.Some? ==> Made(s, m.acceptedValue.value))
    && (m.TLC? ==> Made(s, m.block.value))
  }

  ghost predicate HandlerValid(s: Sys, h: Handler) {
    && MadeOrNone(s, h.bestValue) && MadeOrNone(s, h.acceptedValue) && MadeOrNone(s, h.proposedValue)
    && (forall t, b :: t in h.tlcs && b in h.tlcs[t] ==> Made(s, b.value))
  }

  ghost predicate NodeValid(s: Sys, node: Node) {
    && HandlerValid(s, node.h)
    && NO_VALUE !in node.created
    && (forall o :: o in node.offers ==> MadeOrNone(s, o.value))
    && (forall b :: b in node.chain ==> Made(s, b.value))
  }

  ghost predicate ValidInv(c: Config, s: Sys) {
    && BaseInv(c, s)
    && (forall k :: 0 <= k < |s.sent| ==> MessageValid(s, s.sent[k].msg))
    && (forall n :: 0 <= n < |s.nodes| ==> NodeValid(s, s.nodes[n]))
  }

  // ---- what one handler does, with `s` fixing what has been created

  lemma StoredValid(c: Conf, s: Sys, h: Handler, block: Block)
    requires c.threshold >= 1 && Made(s, block.value)
    requires forall t, b :: t in h.tlcs && b in h.tlcs[t] ==> Made(s, b.value)
    ensures forall b :: b in Stored(c, h, block) ==> Made(s, b.value)
  {
    var h2 := Commit(h, block);
    CatchUpExact(c, h2);
    forall b | b in Caught(c, h2) ensures Made(s, b.value) {
      var i :| 0 <= i < |Caught(c, h2)| && Caught(c, h2)[i] == b;
      assert CaughtAt(c, h2, Caught(c, h2), h2.step + i);
      assert b in h.tlcs[h2.step + i];
    }
  }

  lemma LeaveValid(c: Conf, s: Sys, node: Node, h1: Handler, block: Block, r: Node)
    requires c.threshold >= 1 && NodeValid(s, node) && Made(s, block.value)
    requires forall t, b :: t in h1.tlcs && b in h1.tlcs[t] ==> Made(s, b.value)
    requires r.h == Leave(c, h1, block) && r.chain == node.chain + Stored(c, h1, block)
    requires r.offers == node.offers && r.created == node.created
    ensures NodeValid(s, r)
  {
    LeaveRestarts(c, h1, block);
    StoredValid(c, s, h1, block);
  }

  lemma AcceptValid(c: Conf, s: Sys, me: Peer, node: Node, m: Message)
    requires c.threshold >= 1 && NodeValid(s, node) && MessageValid(s, m) && m.Accept?
    ensures var e := Receive(c, me, node, m);
      NodeValid(s, e.node) && (e.out.Some? ==> MessageValid(s, e.out.value))
  {
    if node.h.step == m.step && Decides(c, node.h, m) {
      var h1 := PaxosSpec.CountAccept(node.h, m.value);
      LeaveValid(c, s, node, h1, NextBlock(c, node.h, m.value), Receive(c, me, node, m).node);
    }
  }

  lemma TLCValid(c: Conf, s: Sys, me: Peer, node: Node, m: Message)
    requires c.threshold >= 1 && NodeValid(s, node) && MessageValid(s, m) && m.TLC?
    ensures var e := Receive(c, me, node, m);
      NodeValid(s, e.node) && (e.out.Some? ==> MessageValid(s, e.out.value))
  {
    var h1 := FileTLC(node.h, m);
    assert forall t, b :: t in h1.tlcs && b in h1.tlcs[t] ==> Made(s, b.value);
    if node.h.step <= m.step && Learns(c, node.h, m) {
      LeaveValid(c, s, node, h1, m.block, Receive(c, me, node, m).node);
    }
  }

  lemma AcceptorValid(c: Conf, s: Sys, me: Peer, node: Node, m: Message)
    requires c.threshold >= 1 && NodeValid(s, node) && MessageValid(s, m)
    requires m.Prepare? || m.Propose?
    ensures var e := Receive(c, me, node, m);
      NodeValid(s, e.node) && (e.out.Some? ==> MessageValid(s, e.out.value))
  {
  }

  lemma PromiseValid(c: Conf, s: Sys, me: Peer, node: Node, m: Message)
    requires c.threshold >= 1 && NodeValid(s, node) && MessageValid(s, m) && m.Promise?
    ensures NodeValid(s, Receive(c, me, node, m).node)
  {
    var r := Receive(c, me, node, m).node;
    if m.dest == me && !NilDereference(node.h, m) {
      QuietProposer(c, node.h, m);
      assert r.h.bestValue == node.h.bestValue || r.h.bestValue == m.acceptedValue.value;
    }
    QuietPromise(c, me, node, m);
  }

  // ---- every action

  lemma MadeGrows(c: Config, s: Sys, a: Action)
    requires c.threshold >= 1 && Enabled(c, s, a)
    ensures forall v :: Made(s, v) ==> Made(Apply(c, s, a), v)
  {
    assert s.nodes[a.n].created <= EffectOf(c, s, a).node.created;
    forall v | Made(s, v) ensures Made(Apply(c, s, a), v) {
      var n :| 0 <= n < |s.nodes| && v in s.nodes[n].created;
      assert v in Apply(c, s, a).nodes[n].created;
    }
  }

  lemma NodeStaysValid(s: Sys, s': Sys, node: Node)
    requires NodeValid(s, node) && forall v :: Made(s, v) ==> Made(s', v)
    ensures NodeValid(s', node)
  {
  }

  lemma ReceiveValid(c: Conf, s: Sys, me: Peer, node: Node, m: Message)
    requires c.threshold >= 1 && NodeValid(s, node) && MessageValid(s, m)
    ensures var e := Receive(c, me, node, m);
      NodeValid(s, e.node) && (e.out.Some? ==> MessageValid(s, e.out.value))
  {
    match m
    case Accept(_, _, _) => AcceptValid(c, s, me, node, m);
    case TLC(_, _) => TLCValid(c, s, me, node, m);
    case Promise(_, _, _, _, _) => PromiseValid(c, s, me, node, m);
    case _ => AcceptorValid(c, s, me, node, m);
  }

  lemma EffectValid(c: Config, s: Sys, a: Action)
    requires ValidInv(c, s) && Enabled(c, s, a)
    ensures var e, s' := EffectOf(c, s, a), Apply(c, s, a);
      NodeValid(s', e.node) && (e.out.Some? ==> MessageValid(s', e.out.value))
  {
    hide BaseInv, NodeOK, AllBacked, Ordered, GoodConfig;
    if a.Deliver? {
      DeliverValid(c, s, a);
    } else {
      TagValid(c, s, a);
    }
  }

  lemma DeliverValid(c: Config, s: Sys, a: Action)
    requires ValidInv(c, s) && Enabled(c, s, a) && a.Deliver?
    ensures var e, s' := EffectOf(c, s, a), Apply(c, s, a);
      NodeValid(s', e.node) && (e.out.Some? ==> MessageValid(s', e.out.value))
  {
    hide NodeOK, AllBacked, Ordered, Receive, Made;
    var n, node, s' := a.n, s.nodes[a.n], Apply(c, s, a);
    MadeGrows(c, s, a);
    NodeStaysValid(s, s', node);
    assert MessageValid(s, s.sent[a.k].msg);
    ReceiveValid(ConfOf(c, n), s', n, node, s.sent[a.k].msg);
  }

  lemma TagValid(c: Config, s: Sys, a: Action)
    requires ValidInv(c, s) && Enabled(c, s, a) && !a.Deliver?
    ensures var e, s' := EffectOf(c, s, a), Apply(c, s, a);
      NodeValid(s', e.node) && (e.out.Some? ==> MessageValid(s', e.out.value))
  {
    hide Receive, NodeOK, AllBacked, Ordered, Made, Apply;
    var n, node, s' := a.n, s.nodes[a.n], Apply(c, s, a);
    MadeGrows(c, s, a);
    NodeStaysValid(s, s', node);
    if a.Attempt? {
      AttemptMakes(c, s, a);
    } else if a.Suggest? {
      OffersAreValues(c, s, n);
    }
  }

  lemma AttemptMakes(c: Config, s: Sys, a: Action)
    requires c.threshold >= 1 && Enabled(c, s, a) && a.Attempt?
    ensures Made(Apply(c, s, a), a.value)
  {
    assert a.value in Apply(c, s, a).nodes[a.n].created;
  }

  lemma OffersAreValues(c: Config, s: Sys, n: Peer)
    requires BaseInv(c, s) && n < |s.nodes|
    ensures forall o :: o in s.nodes[n].offers ==> o.value != NO_VALUE
  {
    assert NodeOK(c, s.nodes[n], s.sent, n, s.handled[n]);
  }

  lemma StepKeepsValid(c: Config, s: Sys, a: Action)
    requires ValidInv(c, s) && Enabled(c, s, a)
    ensures ValidInv(c, Apply(c, s, a))
  {
    hide AllBacked, Ordered, NodeOK, Receive;
    StepKeepsBase(c, s, a);
    EffectValid(c, s, a);
    MadeGrows(c, s, a);
    var s' := Apply(c, s, a);
    forall m | 0 <= m < |s'.nodes| ensures NodeValid(s', s'.nodes[m]) {
      if m != a.n {
        NodeStaysValid(s, s', s.nodes[m]);
      }
    }
  }

  lemma {:induction false} RunKeepsValid(c: Config, s: Sys, run: seq<Action>)
    requires ValidInv(c, s) && Legal(c, s, run)
    ensures ValidInv(c, Exec(c, s, run))
    decreases |run|
  {
    if run != [] {
      StepKeepsValid(c, s, run[0]);
      RunKeepsValid(c, Apply(c, s, run[0]), run[1..]);
    }
  }

  lemma InitValid(c: Config)
    requires GoodConfig(c)
    ensures ValidInv(c, Init(c))
  {
  }

  lemma ReachableValid(c: Config, s: Sys)
    requires GoodConfig(c) && Reachable(c, s)
    ensures ValidInv(c, s)
  {
    var run :| Legal(c, Init(c), run) && s == Exec(c, Init(c), run);
    InitValid(c);
    RunKeepsValid(c, Init(c), run);
  }

  /** Validity: every value proposed, accepted, reported by a promise, carried by a TLC message
      or stored in a chain was created by some PaxosPhase1, none is the empty value, and a
      promise has an accepted value exactly when it has an accepted ID. */
  lemma Validity(c: Config, s: Sys)
    requires GoodConfig(c) && Reachable(c, s)
    ensures forall e :: e in s.sent && (e.msg.Propose? || e.msg.Accept?) ==> Made(s, e.msg.value)
    ensures forall e :: e in s.sent && e.msg.TLC? ==> Made(s, e.msg.block.value)
    ensures forall e :: e in s.sent && e.msg.Promise? ==>
      (e.msg.acceptedID > 0 <==> e.msg.acceptedValue.Some?)
      && (e.msg.acceptedValue.Some? ==> Made(s, e.msg.acceptedValue.value))
    ensures forall n, b :: 0 <= n < |s.nodes| && b in s.nodes[n].chain ==> Made(s, b.value)
    ensures !Made(s, NO_VALUE)
  {
    hide Ordered, NodeOK;
    ReachableValid(c, s);
    forall e | e in s.sent ensures MessageValid(s, e.msg) && Backed(c, s.sent, e.origin, e.msg) {
      var k :| 0 <= k < |s.sent| && s.sent[k] == e;
    }
  }
}
