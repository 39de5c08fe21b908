/** What every run keeps, whatever the scheduling: ballots, acceptor discipline, the
    history behind each message, and the freshness of every attempt. */
module PaxosInvariants {
  import opened Common
  import opened Text
  import opened Blockchain
  import opened PaxosSpec
  import opened PaxosSystem

  // ---------------------------------------------------------------- handlers in outline

  /** The two learner handlers either leave the ballot fields alone ... */
  ghost predicate KeepsBallots(h: Handler, r: Handler) {
    && r.step == h.step && (h.running ==> r.running)
    && r.maxID == h.maxID && r.acceptedID == h.acceptedID && r.acceptedValue == h.acceptedValue
    && r.bestID == h.bestID && r.bestValue == h.bestValue && r.promises == h.promises
    && r.phase == h.phase && r.paxosID == h.paxosID && r.proposedValue == h.proposedValue
  }

  /** ... or leave the step and clear them. */
  ghost predicate Restarted(c: Conf, h: Handler, r: Handler) {
    && r.step > h.step && !r.running
    && r.maxID == 0 && r.acceptedID == 0 && r.acceptedValue == NO_VALUE
    && r.bestID == 0 && r.bestValue == NO_VALUE && r.promises == 0
    && r.phase == Phase1 && r.paxosID == c.paxosID && r.proposedValue == NO_VALUE
    && r.acceptedValues == map[] && r.tlcs == map[]
  }

  lemma {:induction false} CatchUpFrame(c: Conf, h: Handler)
    requires c.threshold >= 1
    ensures var r := CatchUp(c, h); r == h.(step := r.step, blocks := r.blocks, names := r.names)
    decreases Ahead(h)
  {
    if |Filed(h.tlcs, h.step)| >= c.threshold {
      assert h.step in Ahead(h) && h.step !in Ahead(CatchUpOnce(c, h));
      CatchUpFrame(c, CatchUpOnce(c, h));
    }
  }

  lemma LeaveRestarts(c: Conf, h: Handler, block: Block)
    requires c.threshold >= 1
    ensures Restarted(c, h, Leave(c, h, block))
  {
    CatchUpFrame(c, Commit(h, block));
  }

  lemma AcceptOutline(c: Conf, h: Handler, m: Message)
    requires c.threshold >= 1 && m.Accept?
    ensures var r := RespondToAccept(c, h, m);
      if r.out.None? then KeepsBallots(h, r.h)
      else Restarted(c, h, r.h) && h.step == m.step && r.out.value.TLC? && r.out.value.step == h.step
  {
    if h.step == m.step && Decides(c, h, m) {
      LeaveRestarts(c, PaxosSpec.CountAccept(h, m.value), NextBlock(c, h, m.value));
    }
  }

  lemma TLCOutline(c: Conf, h: Handler, m: Message)
    requires c.threshold >= 1 && m.TLC?
    ensures var r := RespondToTLC(c, h, m);
      if r.out.None? then KeepsBallots(h, r.h)
      else Restarted(c, h, r.h) && h.step == m.step && r.out.value == m
  {
    if h.step <= m.step && Learns(c, h, m) {
      LeaveRestarts(c, FileTLC(h, m), m.block);
    }
  }

  // ---------------------------------------------------------------- ballots

  /** id can be reached from the PaxosID of n by nextID alone. */
  ghost predicate Ballot(c: Config, n: Peer, id: nat) {
    && n < |c.ids|
    && (id == c.ids[n] || (0 < c.totalPeers <= id && Ballot(c, n, id - c.totalPeers)))
  }

  /** A ballot is PaxosID + k * TotalPeers for some k. */
  lemma {:induction false} BallotForm(c: Config, n: Peer, id: nat) returns (k: nat)
    requires Ballot(c, n, id)
    ensures id == c.ids[n] + k * c.totalPeers
  {
    if id == c.ids[n] {
      k := 0;
    } else {
      k := BallotForm(c, n, id - c.totalPeers);
      k := k + 1;
    }
  }

  lemma NextBallot(c: Config, n: Peer, id: nat)
    requires GoodConfig(c) && Ballot(c, n, id)
    ensures Ballot(c, n, id + c.totalPeers)
  {
  }

  lemma {:induction false} BallotPositive(c: Config, n: Peer, id: nat)
    requires GoodConfig(c) && Ballot(c, n, id)
    ensures id >= c.ids[n] >= 1
  {
    if id != c.ids[n] {
      BallotPositive(c, n, id - c.totalPeers);
    }
  }

  /** Two peers never use the same ballot, through any mix of retries and resets. */
  lemma {:induction false} BallotsNeverCollide(c: Config, m: Peer, n: Peer, id: nat)
    requires GoodConfig(c) && Ballot(c, m, id) && Ballot(c, n, id)
    ensures m == n
    decreases id
  {
    if id != c.ids[m] && id != c.ids[n] {
      BallotsNeverCollide(c, m, n, id - c.totalPeers);
    } else if id != c.ids[m] {
      BallotPositive(c, m, id - c.totalPeers);
    } else if id != c.ids[n] {
      BallotPositive(c, n, id - c.totalPeers);
    }
  }

  // ---------------------------------------------------------------- messages

  /** What lies behind a message of origin o. */
  ghost predicate Backed(c: Config, sent: seq<Env>, o: Peer, m: Message) {
    match m
    case Prepare(s, i, src) => src == o && Ballot(c, o, i)
    case Promise(d, s, i, ai, av) =>
      && Env(d, Prepare(s, i, d)) in sent && ai < i
      && (av.None? <==> ai == 0)
      && (av.Some? ==> av.value != NO_VALUE && Env(o, Accept(s, ai, av.value)) in sent)
    case Propose(s, i, v) => Ballot(c, o, i) && v != NO_VALUE
    case Accept(s, i, v) => v != NO_VALUE && exists p :: Env(p, Propose(s, i, v)) in sent
    case TLC(s, b) => true
  }

  ghost predicate AllBacked(c: Config, sent: seq<Env>) {
    forall k :: 0 <= k < |sent| ==> sent[k].origin < |c.ids| && Backed(c, sent, sent[k].origin, sent[k].msg)
  }

  /** The acceptor discipline, between an earlier and a later message of one node. */
  ghost predicate InOrder(m: Message, l: Message) {
    m.step == l.step ==>
      && (m.Prepare? && l.Prepare? ==> m.id < l.id)
      && (m.Promise? && l.Promise? ==> m.id < l.id)
      && (m.Promise? && l.Accept? ==> m.id <= l.id)
      && (m.Accept? && l.Promise? ==> m.id < l.id && l.acceptedValue.Some?)
      && (m.Accept? && l.Accept? ==> m.id <= l.id)
      && !(m.TLC? && l.TLC?)
  }

  ghost predicate Ordered(sent: seq<Env>) {
    forall a, b :: 0 <= a < b < |sent| && sent[a].origin == sent[b].origin ==> InOrder(sent[a].msg, sent[b].msg)
  }

  // ---------------------------------------------------------------- nodes

  /** Where a node stands with respect to a message it sent. */
  ghost predicate Behind(h: Handler, m: Message) {
    match m
    case Prepare(s, i, _) => s <= h.step && (s == h.step ==> i <= h.paxosID && h.proposedValue != NO_VALUE)
    case Promise(_, s, i, _, _) => s <= h.step && (s == h.step ==> i <= h.maxID)
    case Propose(s, i, _) => s <= h.step
    case Accept(s, i, _) => s <= h.step && (s == h.step ==> i <= h.maxID && h.acceptedValue != NO_VALUE)
    case TLC(s, _) => s < h.step
  }

  ghost predicate Past(h: Handler, sent: seq<Env>, n: Peer) {
    forall k :: 0 <= k < |sent| && sent[k].origin == n ==> Behind(h, sent[k].msg)
  }

  ghost predicate AcceptorOK(h: Handler, sent: seq<Env>, n: Peer) {
    && (h.maxID > 0 ==> h.running)
    && h.acceptedID <= h.maxID
    && (h.acceptedID == 0 <==> h.acceptedValue == NO_VALUE)
    && (h.acceptedValue != NO_VALUE ==> Env(n, Accept(h.step, h.acceptedID, h.acceptedValue)) in sent)
  }

  /** The Tag goroutine: every prepare of this node but the awaited one has been handled
      by the node, a handled prepare of the current step left the instance running, and an
      attempt is only started on a ballot that this step has not seen. */
  ghost predicate ThreadOK(node: Node, sent: seq<Env>, n: Peer, mine: set<nat>) {
    && (forall k :: k in mine ==> k < |sent|)
    && (forall k :: 0 <= k < |sent| && sent[k].origin == n && sent[k].msg.Prepare? ==>
         k in mine || node.thread == Preparing(k))
    && (forall k :: k in mine && sent[k].origin == n && sent[k].msg.Prepare? && sent[k].msg.step == node.h.step ==>
         node.h.running)
    && (node.thread == Ready ==> Env(n, Prepare(node.h.step, node.h.paxosID, n)) !in sent)
  }

  ghost predicate NodeOK(c: Config, node: Node, sent: seq<Env>, n: Peer, mine: set<nat>) {
    && Ballot(c, n, node.h.paxosID)
    && AcceptorOK(node.h, sent, n)
    && Past(node.h, sent, n)
    && ThreadOK(node, sent, n, mine)
    && (node.h.bestID != 0 ==> node.h.bestValue != NO_VALUE)
    && (forall o :: o in node.offers ==> o.value != NO_VALUE)
    && !node.crashed
  }

  ghost predicate BaseInv(c: Config, s: Sys) {
    && GoodConfig(c)
    && |s.nodes| == |s.handled| == |c.ids|
    && AllBacked(c, s.sent)
    && Ordered(s.sent)
    && (forall n :: 0 <= n < |s.nodes| ==> NodeOK(c, s.nodes[n], s.sent, n, s.handled[n]))
  }
}
