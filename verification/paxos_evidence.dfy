/** Every committed step is backed by messages the node really received, and a node that
    learns a step from others is never ahead of them. */
module PaxosEvidence {
  import opened Common
  import opened Text
  import opened Blockchain
  import opened PaxosSpec
  import opened PaxosSystem
  import opened PaxosInvariants
  import opened PaxosSteps
  import opened PaxosAgreement

  // ---------------------------------------------------------------- catch-up is exact

  /** The block stored for step t is the one of its threshold-th TLC message. */
  ghost predicate CaughtAt(c: Conf, h: Handler, caught: seq<Block>, t: nat) {
    && h.step <= t < h.step + |caught|
    && 1 <= c.threshold <= |Filed(h.tlcs, t)|
    && caught[t - h.step] == Filed(h.tlcs, t)[c.threshold - 1]
  }

  /** catchUp passes exactly the steps that have threshold TLC messages, storing the block of
      the threshold-th one for each, and stops at the first that has fewer. */
  lemma {:induction false} CatchUpExact(c: Conf, h: Handler)
    requires c.threshold >= 1
    ensures CatchUp(c, h).step == h.step + |Caught(c, h)|
    ensures forall t :: h.step <= t < CatchUp(c, h).step ==> CaughtAt(c, h, Caught(c, h), t)
    ensures |Filed(h.tlcs, CatchUp(c, h).step)| < c.threshold
    decreases Ahead(h)
  {
    if |Filed(h.tlcs, h.step)| >= c.threshold {
      assert h.step in Ahead(h) && h.step !in Ahead(CatchUpOnce(c, h));
      var h1 := CatchUpOnce(c, h);
      CatchUpExact(c, h1);
      forall t | h.step <= t < CatchUp(c, h).step ensures CaughtAt(c, h, Caught(c, h), t) {
        if t > h.step {
          assert CaughtAt(c, h1, Caught(c, h1), t);
          assert Caught(c, h)[t - h.step] == Caught(c, h1)[t - h1.step];
        }
      }
    }
  }

  lemma StoreMore(h: Handler, chain: seq<Block>, block: Block)
    requires h.blocks == StoreOf(chain) && h.names == NamesOf(chain)
    ensures StoreBlock(h, block).blocks == StoreOf(chain + [block])
    ensures StoreBlock(h, block).names == NamesOf(chain + [block])
  {
    assert (chain + [block])[..|chain|] == chain;
  }

  lemma {:induction false} CatchUpStores(c: Conf, h: Handler, chain: seq<Block>)
    requires c.threshold >= 1
    requires h.blocks == StoreOf(chain) && h.names == NamesOf(chain)
    ensures CatchUp(c, h).blocks == StoreOf(chain + Caught(c, h))
    ensures CatchUp(c, h).names == NamesOf(chain + Caught(c, h))
    decreases Ahead(h)
  {
    if |Filed(h.tlcs, h.step)| >= c.threshold {
      assert h.step in Ahead(h) && h.step !in Ahead(CatchUpOnce(c, h));
      var b := Filed(h.tlcs, h.step)[c.threshold - 1];
      StoreMore(h, chain, b);
      CatchUpStores(c, CatchUpOnce(c, h), chain + [b]);
      assert chain + [b] + Caught(c, CatchUpOnce(c, h)) == chain + Caught(c, h);
    } else {
      assert chain + Caught(c, h) == chain;
    }
  }

  // ---------------------------------------------------------------- evidence

  /** Accept messages for a value, and TLC messages of others, that node n has handled. */
  ghost function Accepts(sent: seq<Env>, mine: set<nat>, step: nat, v: PaxosValue): set<nat> {
    set k | k in mine && k < |sent| && sent[k].msg.Accept? && sent[k].msg.step == step && sent[k].msg.value == v
  }

  ghost function TLCs(sent: seq<Env>, mine: set<nat>, n: Peer, step: nat): set<nat> {
    set k | k in mine && k < |sent| && sent[k].msg.TLC? && sent[k].msg.step == step && sent[k].origin != n
  }

  ghost predicate Received(sent: seq<Env>, mine: set<nat>, step: nat, b: Block) {
    exists k :: k in mine && 0 <= k < |sent| && sent[k].msg == TLC(step, b)
  }

  /** Why block b may stand at height `step` of the chain of n. */
  ghost predicate Justified(c: Config, sent: seq<Env>, mine: set<nat>, n: Peer, step: nat, b: Block) {
    || |Accepts(sent, mine, step, b.value)| >= c.threshold
    || (|TLCs(sent, mine, n, step)| >= c.threshold && Received(sent, mine, step, b))
  }

  /** Between two handlers: nothing is filed below the current step, no counter has reached
      the threshold, and no counter exceeds the messages handled. */
  ghost predicate CountersOK(c: Config, h: Handler, sent: seq<Env>, n: Peer, mine: set<nat>) {
    && (forall t :: t in h.tlcs ==> t >= h.step)
    && |Filed(h.tlcs, h.step)| < c.threshold
    && TlcsOK(h.tlcs, sent, n, mine)
    && (forall v :: v in h.acceptedValues ==>
         h.acceptedValues[v] < c.threshold && h.acceptedValues[v] <= |Accepts(sent, mine, h.step, v)|)
  }

  ghost predicate TlcsOK(tlcs: map<nat, seq<Block>>, sent: seq<Env>, n: Peer, mine: set<nat>) {
    && (forall t :: t in tlcs ==> |tlcs[t]| <= |TLCs(sent, mine, n, t)|)
    && (forall t, b :: t in tlcs && b in tlcs[t] ==> Received(sent, mine, t, b))
  }

  ghost predicate ChainOK(c: Config, node: Node, sent: seq<Env>, n: Peer, mine: set<nat>) {
    && |node.chain| == node.h.step
    && node.h.blocks == StoreOf(node.chain)
    && node.h.names == NamesOf(node.chain)
    && (forall t :: 0 <= t < |node.chain| ==> Justified(c, sent, mine, n, t, node.chain[t]))
    && (forall d :: d in node.decided ==> |Accepts(sent, mine, d.step, d.value)| >= c.threshold)
  }

  ghost predicate EvidenceOK(c: Config, node: Node, sent: seq<Env>, n: Peer, mine: set<nat>) {
    CountersOK(c, node.h, sent, n, mine) && ChainOK(c, node, sent, n, mine)
  }

  ghost predicate EvidenceInv(c: Config, s: Sys) {
    && BaseInv(c, s)
    && (forall n :: 0 <= n < |s.nodes| ==> EvidenceOK(c, s.nodes[n], s.sent, n, s.handled[n]))
  }

  // ---------------------------------------------------------------- evidence only grows

  lemma EvidenceGrows(sent: seq<Env>, sent': seq<Env>, mine: set<nat>, mine': set<nat>, n: Peer, step: nat,
                      v: PaxosValue)
    requires sent <= sent' && mine <= mine'
    ensures |Accepts(sent, mine, step, v)| <= |Accepts(sent', mine', step, v)|
    ensures |TLCs(sent, mine, n, step)| <= |TLCs(sent', mine', n, step)|
  {
    CountSubset(Accepts(sent, mine, step, v), Accepts(sent', mine', step, v));
    CountSubset(TLCs(sent, mine, n, step), TLCs(sent', mine', n, step));
  }

  lemma ReceivedGrows(sent: seq<Env>, sent': seq<Env>, mine: set<nat>, mine': set<nat>, step: nat, b: Block)
    requires sent <= sent' && mine <= mine' && Received(sent, mine, step, b)
    ensures Received(sent', mine', step, b)
  {
    var k :| k in mine && 0 <= k < |sent| && sent[k].msg == TLC(step, b);
    assert sent'[k] == sent[k];
  }

  lemma JustifiedGrows(c: Config, sent: seq<Env>, sent': seq<Env>, mine: set<nat>, mine': set<nat>, n: Peer,
                       step: nat, b: Block)
    requires sent <= sent' && mine <= mine' && Justified(c, sent, mine, n, step, b)
    ensures Justified(c, sent', mine', n, step, b)
  {
    EvidenceGrows(sent, sent', mine, mine', n, step, b.value);
    if |Accepts(sent, mine, step, b.value)| < c.threshold {
      ReceivedGrows(sent, sent', mine, mine', step, b);
    }
  }

  /** Growth of the network leaves the evidence of a node in place. */
  lemma CountersGrow(c: Config, h: Handler, sent: seq<Env>, sent': seq<Env>, n: Peer, mine: set<nat>, mine': set<nat>)
    requires CountersOK(c, h, sent, n, mine) && sent <= sent' && mine <= mine'
    ensures CountersOK(c, h, sent', n, mine')
  {
    forall t | t in h.tlcs ensures |h.tlcs[t]| <= |TLCs(sent', mine', n, t)| {
      EvidenceGrows(sent, sent', mine, mine', n, t, NO_VALUE);
    }
    forall t, b | t in h.tlcs && b in h.tlcs[t] ensures Received(sent', mine', t, b) {
      ReceivedGrows(sent, sent', mine, mine', t, b);
    }
    forall v | v in h.acceptedValues ensures h.acceptedValues[v] <= |Accepts(sent', mine', h.step, v)| {
      EvidenceGrows(sent, sent', mine, mine', n, h.step, v);
    }
  }

  lemma ChainGrows(c: Config, node: Node, sent: seq<Env>, sent': seq<Env>, n: Peer, mine: set<nat>, mine': set<nat>)
    requires ChainOK(c, node, sent, n, mine) && sent <= sent' && mine <= mine'
    ensures ChainOK(c, node, sent', n, mine')
  {
    forall t | 0 <= t < |node.chain| ensures Justified(c, sent', mine', n, t, node.chain[t]) {
      JustifiedGrows(c, sent, sent', mine, mine', n, t, node.chain[t]);
    }
    forall d | d in node.decided ensures |Accepts(sent', mine', d.step, d.value)| >= c.threshold {
      EvidenceGrows(sent, sent', mine, mine', n, d.step, d.value);
    }
  }

  // ---------------------------------------------------------------- one handler

  lemma AcceptCounted(c: Config, h: Handler, sent: seq<Env>, n: Peer, mine: set<nat>, k: nat)
    requires CountersOK(c, h, sent, n, mine)
    requires k < |sent| && k !in mine && sent[k].msg.Accept? && sent[k].msg.step == h.step
    ensures Count(h.acceptedValues, sent[k].msg.value) + 1 <= |Accepts(sent, mine + {k}, h.step, sent[k].msg.value)|
  {
    var v := sent[k].msg.value;
    assert Accepts(sent, mine + {k}, h.step, v) == Accepts(sent, mine, h.step, v) + {k};
  }

  lemma AcceptUndecided(c: Config, h: Handler, sent: seq<Env>, n: Peer, mine: set<nat>, k: nat)
    requires CountersOK(c, h, sent, n, mine) && n < |c.ids|
    requires k < |sent| && k !in mine && sent[k].msg.Accept? && sent[k].msg.step == h.step
    requires !Decides(ConfOf(c, n), h, sent[k].msg)
    ensures CountersOK(c, PaxosSpec.CountAccept(h, sent[k].msg.value), sent, n, mine + {k})
  {
    var v := sent[k].msg.value;
    AcceptCounted(c, h, sent, n, mine, k);
    CountersGrow(c, h, sent, sent, n, mine, mine + {k});
  }

  /** A filed TLC message comes from another peer: a node's own are for steps it has left. */
  lemma TLCFiled(c: Config, h: Handler, sent: seq<Env>, n: Peer, mine: set<nat>, k: nat)
    requires CountersOK(c, h, sent, n, mine) && Past(h, sent, n)
    requires k < |sent| && k !in mine && sent[k].msg.TLC? && h.step <= sent[k].msg.step
    ensures TlcsOK(FileTLC(h, sent[k].msg).tlcs, sent, n, mine + {k})
    ensures |Filed(h.tlcs, sent[k].msg.step)| + 1 <= |TLCs(sent, mine + {k}, n, sent[k].msg.step)|
    ensures Received(sent, mine + {k}, sent[k].msg.step, sent[k].msg.block)
  {
    var m := sent[k].msg;
    assert sent[k].origin == n ==> Behind(h, m);
    assert TLCs(sent, mine + {k}, n, m.step) == TLCs(sent, mine, n, m.step) + {k};
    CountersGrow(c, h, sent, sent, n, mine, mine + {k});
  }

  lemma TLCUndecided(c: Config, h: Handler, sent: seq<Env>, n: Peer, mine: set<nat>, k: nat)
    requires CountersOK(c, h, sent, n, mine) && Past(h, sent, n) && n < |c.ids|
    requires k < |sent| && k !in mine && sent[k].msg.TLC? && h.step <= sent[k].msg.step
    requires !Learns(ConfOf(c, n), h, sent[k].msg)
    ensures CountersOK(c, FileTLC(h, sent[k].msg), sent, n, mine + {k})
  {
    TLCFiled(c, h, sent, n, mine, k);
    CountersGrow(c, h, sent, sent, n, mine, mine + {k});
  }

  /** What a node stores on its way out of a step is what its stores then hold. */
  lemma LeaveStores(conf: Conf, h1: Handler, chain: seq<Block>, block: Block)
    requires conf.threshold >= 1
    requires h1.blocks == StoreOf(chain) && h1.names == NamesOf(chain) && |chain| == h1.step
    ensures var h, all := Leave(conf, h1, block), chain + Stored(conf, h1, block);
      && |all| == h.step && h.blocks == StoreOf(all) && h.names == NamesOf(all)
      && h.tlcs == map[] && h.acceptedValues == map[]
  {
    var h2 := Commit(h1, block);
    CatchUpFrame(conf, h2);
    CatchUpExact(conf, h2);
    StoreMore(h1, chain, block);
    CatchUpStores(conf, h2, chain + [block]);
    assert chain + [block] + Caught(conf, h2) == chain + Stored(conf, h1, block);
  }

  lemma StoredJustified(c: Config, conf: Conf, h1: Handler, sent: seq<Env>, n: Peer, mine: set<nat>, block: Block)
    requires conf.threshold == c.threshold >= 1
    requires TlcsOK(h1.tlcs, sent, n, mine)
    requires Justified(c, sent, mine, n, h1.step, block)
    ensures forall i :: 0 <= i < |Stored(conf, h1, block)| ==>
      Justified(c, sent, mine, n, h1.step + i, Stored(conf, h1, block)[i])
  {
    var h2 := Commit(h1, block);
    CatchUpExact(conf, h2);
    forall i | 0 <= i < |Stored(conf, h1, block)|
      ensures Justified(c, sent, mine, n, h1.step + i, Stored(conf, h1, block)[i])
    {
      if i > 0 {
        var t := h1.step + i;
        assert CaughtAt(conf, h2, Caught(conf, h2), t);
        assert t in h1.tlcs;
      }
    }
  }

  /** Leaving a step adds justified blocks to the chain and to the stores. */
  lemma LeaveJustified(c: Config, conf: Conf, node: Node, h1: Handler, sent: seq<Env>, n: Peer, mine: set<nat>,
                       block: Block, r: Node)
    requires conf.threshold == c.threshold >= 1
    requires ChainOK(c, node, sent, n, mine)
    requires h1.step == node.h.step && h1.blocks == node.h.blocks && h1.names == node.h.names
    requires TlcsOK(h1.tlcs, sent, n, mine)
    requires Justified(c, sent, mine, n, h1.step, block)
    requires r.h == Leave(conf, h1, block) && r.chain == node.chain + Stored(conf, h1, block)
    requires forall d :: d in r.decided ==> |Accepts(sent, mine, d.step, d.value)| >= c.threshold
    ensures EvidenceOK(c, r, sent, n, mine)
  {
    hide Leave, Stored, StoreOf, NamesOf, Justified;
    LeaveStores(conf, h1, node.chain, block);
    StoredJustified(c, conf, h1, sent, n, mine, block);
    forall t | 0 <= t < |r.chain| ensures Justified(c, sent, mine, n, t, r.chain[t]) {
      if t >= h1.step {
        var i := t - h1.step;
        assert Justified(c, sent, mine, n, h1.step + i, Stored(conf, h1, block)[i]);
      }
    }
  }

  // ---------------------------------------------------------------- every action

  /** A handler that writes neither counters nor stores. */
  lemma QuietEvidence(c: Config, node: Node, sent: seq<Env>, sent': seq<Env>, n: Peer, mine: set<nat>,
                      mine': set<nat>, r: Node)
    requires EvidenceOK(c, node, sent, n, mine) && sent <= sent' && mine <= mine'
    requires SameLearner(node.h, r.h) && r.chain == node.chain && r.decided == node.decided
    ensures EvidenceOK(c, r, sent', n, mine')
  {
    CountersGrow(c, node.h, sent, sent', n, mine, mine');
    ChainGrows(c, node, sent, sent', n, mine, mine');
  }

  lemma AcceptDecided(c: Config, node: Node, sent: seq<Env>, n: Peer, mine: set<nat>, k: nat)
    requires GoodConfig(c) && n < |c.ids| && EvidenceOK(c, node, sent, n, mine)
    requires k < |sent| && k !in mine && sent[k].msg.Accept? && node.h.step == sent[k].msg.step
    requires Decides(ConfOf(c, n), node.h, sent[k].msg)
    ensures EvidenceOK(c, Receive(ConfOf(c, n), n, node, sent[k].msg).node, sent, n, mine + {k})
  {
    hide Leave, Stored, StoreOf, NamesOf;
    var h, m, conf := node.h, sent[k].msg, ConfOf(c, n);
    AcceptCounted(c, h, sent, n, mine, k);
    ChainGrows(c, node, sent, sent, n, mine, mine + {k});
    CountersGrow(c, h, sent, sent, n, mine, mine + {k});
    LeaveJustified(c, conf, node, PaxosSpec.CountAccept(h, m.value), sent, n, mine + {k}, NextBlock(conf, h, m.value),
                   Receive(conf, n, node, m).node);
  }

  lemma AcceptEvidence(c: Config, node: Node, sent: seq<Env>, n: Peer, mine: set<nat>, k: nat)
    requires Local(c, node, sent, n, mine) && EvidenceOK(c, node, sent, n, mine)
    requires k < |sent| && k !in mine && sent[k].msg.Accept?
    ensures EvidenceOK(c, Receive(ConfOf(c, n), n, node, sent[k].msg).node, sent, n, mine + {k})
  {
    hide NodeOK, AllBacked, Justified, Leave, Stored;
    var h, m := node.h, sent[k].msg;
    if h.step != m.step {
      QuietEvidence(c, node, sent, sent, n, mine, mine + {k}, node);
    } else if Decides(ConfOf(c, n), h, m) {
      AcceptDecided(c, node, sent, n, mine, k);
    } else {
      ChainGrows(c, node, sent, sent, n, mine, mine + {k});
      AcceptUndecided(c, h, sent, n, mine, k);
    }
  }

  lemma TLCEvidence(c: Config, node: Node, sent: seq<Env>, n: Peer, mine: set<nat>, k: nat)
    requires Local(c, node, sent, n, mine) && EvidenceOK(c, node, sent, n, mine)
    requires k < |sent| && k !in mine && sent[k].msg.TLC?
    ensures EvidenceOK(c, Receive(ConfOf(c, n), n, node, sent[k].msg).node, sent, n, mine + {k})
  {
    var h, m, conf := node.h, sent[k].msg, ConfOf(c, n);
    ChainGrows(c, node, sent, sent, n, mine, mine + {k});
    if h.step > m.step {
      QuietEvidence(c, node, sent, sent, n, mine, mine + {k}, node);
    } else {
      TLCFiled(c, h, sent, n, mine, k);
      if Learns(conf, h, m) {
        LeaveJustified(c, conf, node, FileTLC(h, m), sent, n, mine + {k}, m.block, Receive(conf, n, node, m).node);
      } else {
        TLCUndecided(c, h, sent, n, mine, k);
      }
    }
  }

  /** Handlers of prepares, proposes and promises leave the learner's fields alone. */
  ghost predicate SameLearner(h: Handler, r: Handler) {
    && r.step == h.step && r.tlcs == h.tlcs && r.acceptedValues == h.acceptedValues
    && r.blocks == h.blocks && r.names == h.names
  }

  lemma QuietAcceptor(h: Handler, m: Message)
    ensures m.Prepare? ==> SameLearner(h, RespondToPrepare(h, m).h)
    ensures m.Propose? ==> SameLearner(h, RespondToPropose(h, m).h)
  {
  }

  lemma QuietProposer(c: Conf, h: Handler, m: Message)
    requires m.Promise? && !NilDereference(h, m)
    ensures SameLearner(h, RespondToPromise(c, h, m).h)
  {
  }

  lemma QuietReceive(c: Conf, me: Peer, node: Node, m: Message)
    requires c.threshold >= 1 && !m.Accept? && !m.TLC?
    ensures var r := Receive(c, me, node, m).node;
      SameLearner(node.h, r.h) && r.chain == node.chain && r.decided == node.decided
  {
    QuietAcceptor(node.h, m);
    if m.Promise? && !NilDereference(node.h, m) {
      QuietProposer(c, node.h, m);
    }
  }

  lemma EffectEvidence(c: Config, s: Sys, a: Action)
    requires EvidenceInv(c, s) && Enabled(c, s, a)
    ensures EvidenceOK(c, EffectOf(c, s, a).node, s.sent, a.n, Apply(c, s, a).handled[a.n])
  {
    var n, node, mine := a.n, s.nodes[a.n], s.handled[a.n];
    MineAfter(c, s, a);
    assert NodeOK(c, node, s.sent, n, mine);
    if a.Deliver? {
      var m := s.sent[a.k].msg;
      if m.Accept? {
        AcceptEvidence(c, node, s.sent, n, mine, a.k);
      } else if m.TLC? {
        TLCEvidence(c, node, s.sent, n, mine, a.k);
      } else {
        QuietReceive(ConfOf(c, n), n, node, m);
        QuietEvidence(c, node, s.sent, s.sent, n, mine, mine + {a.k}, EffectOf(c, s, a).node);
      }
    } else {
      QuietEvidence(c, node, s.sent, s.sent, n, mine, mine, EffectOf(c, s, a).node);
    }
  }

  lemma StepKeepsEvidence(c: Config, s: Sys, a: Action)
    requires EvidenceInv(c, s) && Enabled(c, s, a)
    ensures EvidenceInv(c, Apply(c, s, a))
  {
    var s' := Apply(c, s, a);
    StepKeepsBase(c, s, a);
    EffectEvidence(c, s, a);
    MineAfter(c, s, a);
    forall m | 0 <= m < |s'.nodes| ensures EvidenceOK(c, s'.nodes[m], s'.sent, m, s'.handled[m]) {
      var before := if m == a.n then s'.handled[m] else s.handled[m];
      QuietEvidence(c, s'.nodes[m], s.sent, s'.sent, m, before, s'.handled[m], s'.nodes[m]);
    }
  }

  lemma InitEvidence(c: Config)
    requires GoodConfig(c)
    ensures EvidenceInv(c, Init(c))
  {
  }

  lemma {:induction false} RunKeepsEvidence(c: Config, s: Sys, run: seq<Action>)
    requires EvidenceInv(c, s) && Legal(c, s, run)
    ensures EvidenceInv(c, Exec(c, s, run))
    decreases |run|
  {
    if run != [] {
      StepKeepsEvidence(c, s, run[0]);
      RunKeepsEvidence(c, Apply(c, s, run[0]), run[1..]);
    }
  }

  // ---------------------------------------------------------------- results

  /** n has handled a TLC message of p for this step. */
  ghost predicate HeardTLC(sent: seq<Env>, mine: set<nat>, p: Peer, step: nat) {
    exists k: nat :: k in mine && k < |sent| && sent[k].origin == p && sent[k].msg.TLC? && sent[k].msg.step == step
  }

  /** Other peers of which n has handled a TLC message for a step, all of them past it. */
  ghost predicate Vouchers(s: Sys, n: Peer, step: nat, peers: set<Peer>)
    requires n < |s.handled|
  {
    && n !in peers
    && (forall p :: p in peers ==> HeardTLC(s.sent, s.handled[n], p, step))
    && (forall p :: p in peers ==> p < |s.nodes| && s.nodes[p].h.step > step)
  }

  /** The peers whose TLC messages for a step n has handled are as many as the messages. */
  lemma TLCPeers(c: Config, s: Sys, n: Peer, step: nat) returns (peers: set<Peer>)
    requires BaseInv(c, s) && n < |s.nodes|
    ensures |peers| == |TLCs(s.sent, s.handled[n], n, step)| && Vouchers(s, n, step, peers)
  {
    var ks := TLCs(s.sent, s.handled[n], n, step);
    forall i, j | i in ks && j in ks && i != j ensures s.sent[i].origin != s.sent[j].origin {
      if i < j {
        assert !InOrder(s.sent[i].msg, s.sent[j].msg);
      } else {
        assert !InOrder(s.sent[j].msg, s.sent[i].msg);
      }
    }
    CountOrigins(s.sent, ks);
    peers := Origins(s.sent, ks);
    forall p | p in peers
      ensures HeardTLC(s.sent, s.handled[n], p, step) && p < |s.nodes| && s.nodes[p].h.step > step
    {
      var k :| k in ks && s.sent[k].origin == p;
      assert Backed(c, s.sent, p, s.sent[k].msg);
      assert NodeOK(c, s.nodes[p], s.sent, p, s.handled[p]);
      assert Behind(s.nodes[p].h, s.sent[k].msg);
    }
  }

  lemma ReachableEvidence(c: Config, s: Sys)
    requires GoodConfig(c) && Reachable(c, s)
    ensures EvidenceInv(c, s)
  {
    var run :| Legal(c, Init(c), run) && s == Exec(c, Init(c), run);
    InitEvidence(c);
    RunKeepsEvidence(c, Init(c), run);
  }

  /** n handled threshold accepts for the value it stored at `step`. */
  ghost predicate ByAccepts(c: Config, s: Sys, n: Peer, step: nat)
    requires n < |s.nodes| == |s.handled|
  {
    step < |s.nodes[n].chain| && |Accepts(s.sent, s.handled[n], step, s.nodes[n].chain[step].value)| >= c.threshold
  }

  /** Every step a node has committed is backed by threshold accepts for the stored value that
      it handled, or by TLC messages it handled from threshold distinct other peers, one of
      them with the stored block, and all these peers are past the step. */
  lemma CommitsAreJustified(c: Config, s: Sys, n: Peer, step: nat) returns (peers: set<Peer>)
    requires GoodConfig(c) && Reachable(c, s)
    requires n < |s.nodes| == |s.handled| && step < s.nodes[n].h.step
    ensures |s.nodes[n].chain| == s.nodes[n].h.step
    ensures ByAccepts(c, s, n, step)
            || (|peers| >= c.threshold && Received(s.sent, s.handled[n], step, s.nodes[n].chain[step]))
    ensures Vouchers(s, n, step, peers)
  {
    ReachableEvidence(c, s);
    peers := Justification(c, s, n, step);
  }

  lemma Justification(c: Config, s: Sys, n: Peer, step: nat) returns (peers: set<Peer>)
    requires EvidenceInv(c, s) && n < |s.nodes| && step < s.nodes[n].h.step
    ensures |s.nodes[n].chain| == s.nodes[n].h.step
    ensures ByAccepts(c, s, n, step)
            || (|peers| >= c.threshold && Received(s.sent, s.handled[n], step, s.nodes[n].chain[step]))
    ensures Vouchers(s, n, step, peers)
  {
    assert EvidenceOK(c, s.nodes[n], s.sent, n, s.handled[n]);
    assert Justified(c, s.sent, s.handled[n], n, step, s.nodes[n].chain[step]);
    peers := TLCPeers(c, s, n, step);
  }

  /** A node that leaves a step without threshold accepts does so only when at least threshold
      other peers have left it already. */
  lemma NeverAheadOfTheEvidence(c: Config, s: Sys, a: Action, step: nat) returns (peers: set<Peer>)
    requires GoodConfig(c) && Reachable(c, s) && Enabled(c, s, a)
    requires s.nodes[a.n].h.step <= step < Apply(c, s, a).nodes[a.n].h.step
    requires !ByAccepts(c, Apply(c, s, a), a.n, step)
    ensures |peers| >= c.threshold && Vouchers(Apply(c, s, a), a.n, step, peers)
    ensures forall p :: p in peers ==> s.nodes[p].h.step > step
  {
    ReachableEvidence(c, s);
    StepKeepsEvidence(c, s, a);
    peers := Justification(c, Apply(c, s, a), a.n, step);
  }

  /** Between two handlers nothing is filed below the current step and no counter has reached
      the threshold; the stores hold the node's chain and its last-writer fold of names. */
  lemma StoresHoldTheChain(c: Config, s: Sys, n: Peer)
    requires GoodConfig(c) && Reachable(c, s) && n < |s.nodes|
    ensures var h, chain := s.nodes[n].h, s.nodes[n].chain;
      && |chain| == h.step && h.blocks == StoreOf(chain) && h.names == NamesOf(chain)
      && (forall t :: t in h.tlcs ==> t >= h.step)
      && |Filed(h.tlcs, h.step)| < c.threshold
      && (forall v :: Count(h.acceptedValues, v) < c.threshold)
  {
    ReachableEvidence(c, s);
    assert EvidenceOK(c, s.nodes[n], s.sent, n, s.handled[n]);
  }
}
