/** With a threshold that asks for all peers nobody ever leaves a step by the TLC messages of
    others, so each peer builds all its blocks itself, and they link: in every run, disciplined or
    not, whether or not the peers agree. */
module PaxosLinks {
  import opened Common
  import opened Blockchain
  import opened PaxosSpec
  import opened PaxosSystem
  import opened PaxosInvariants
  import opened PaxosSteps
  import opened PaxosAgreement
  import opened PaxosEvidence

  /** A node has handled fewer TLC messages of a step than there are peers. */
  lemma FewTLCs(c: Config, s: Sys, n: Peer, step: nat)
    requires BaseInv(c, s) && n < |s.nodes| == |c.ids|
    ensures |TLCs(s.sent, s.handled[n], n, step)| < |c.ids|
  {
    var peers := TLCPeers(c, s, n, step);
    CountBelow(peers + {n}, |c.ids|);
  }

  ghost predicate BuildsItself(c: Config, s: Sys) {
    forall n :: 0 <= n < |s.nodes| ==> WellBuilt(c.hash, s.nodes[n].chain)
  }

  /** The block of a decision continues the chain of the node that builds it. */
  lemma OneBlockMore(c: Config, node: Node, sent: seq<Env>, n: Peer, mine: set<nat>, v: PaxosValue)
    requires n < |c.ids| && EvidenceOK(c, node, sent, n, mine) && WellBuilt(c.hash, node.chain)
    ensures WellBuilt(c.hash, node.chain + [NextBlock(ConfOf(c, n), node.h, v)])
  {
    var more := node.chain + [NextBlock(ConfOf(c, n), node.h, v)];
    LastHashOfStore(node.chain);
    forall i | 0 <= i < |more| ensures Built(c.hash, more, i) {
      assert PrevHash(more, i) == PrevHash(node.chain, i);
      assert i < |node.chain| ==> Built(c.hash, node.chain, i);
    }
  }

  /** An accept adds one block at most, built by the node. */
  lemma AcceptBuilds(c: Config, node: Node, sent: seq<Env>, n: Peer, mine: set<nat>, m: Message)
    requires GoodConfig(c) && c.threshold >= |c.ids| && n < |c.ids| && m.Accept?
    requires EvidenceOK(c, node, sent, n, mine) && WellBuilt(c.hash, node.chain)
    requires forall t: nat :: |TLCs(sent, mine, n, t)| < |c.ids|
    ensures WellBuilt(c.hash, Receive(ConfOf(c, n), n, node, m).node.chain)
  {
    hide Leave, CatchUp, Stored, WellBuilt, NextBlock;
    var conf, h := ConfOf(c, n), node.h;
    if h.step == m.step && Decides(conf, h, m) {
      NothingToCatch(c, node, sent, n, mine, m.value);
      OneBlockMore(c, node, sent, n, mine, m.value);
    }
  }

  lemma NothingToCatch(c: Config, node: Node, sent: seq<Env>, n: Peer, mine: set<nat>, v: PaxosValue)
    requires c.threshold >= |c.ids| && n < |c.ids| && EvidenceOK(c, node, sent, n, mine)
    requires forall t: nat :: |TLCs(sent, mine, n, t)| < |c.ids|
    ensures var conf := ConfOf(c, n);
      Stored(conf, PaxosSpec.CountAccept(node.h, v), NextBlock(conf, node.h, v)) == [NextBlock(conf, node.h, v)]
  {
    var conf, h := ConfOf(c, n), node.h;
    var h2 := Commit(PaxosSpec.CountAccept(h, v), NextBlock(conf, h, v));
    assert h2.step in h.tlcs ==> |h.tlcs[h2.step]| <= |TLCs(sent, mine, n, h2.step)|;
    assert Caught(conf, h2) == [];
  }

  /** A TLC message adds none. */
  lemma TLCBuilds(c: Config, node: Node, sent: seq<Env>, n: Peer, mine: set<nat>, k: nat)
    requires GoodConfig(c) && c.threshold >= |c.ids| && Local(c, node, sent, n, mine)
    requires EvidenceOK(c, node, sent, n, mine) && k < |sent| && k !in mine && sent[k].msg.TLC?
    requires forall t: nat :: |TLCs(sent, mine + {k}, n, t)| < |c.ids|
    ensures Receive(ConfOf(c, n), n, node, sent[k].msg).node.chain == node.chain
  {
    hide Leave, Stored, CatchUp;
    var m := sent[k].msg;
    if node.h.step <= m.step {
      TLCFiled(c, node.h, sent, n, mine, k);
      assert !Learns(ConfOf(c, n), node.h, m);
    }
  }

  lemma EffectBuilds(c: Config, s: Sys, a: Action)
    requires EvidenceInv(c, s) && c.threshold >= |c.ids| && Enabled(c, s, a)
    requires WellBuilt(c.hash, s.nodes[a.n].chain)
    ensures WellBuilt(c.hash, EffectOf(c, s, a).node.chain)
  {
    hide WellBuilt, EvidenceOK, NodeOK, AllBacked, Ordered, GoodConfig, Receive;
    var n, node, mine := a.n, s.nodes[a.n], s.handled[a.n];
    assert EvidenceOK(c, node, s.sent, n, mine) && NodeOK(c, node, s.sent, n, mine);
    if a.Deliver? {
      var m := s.sent[a.k].msg;
      if m.Accept? {
        forall t: nat ensures |TLCs(s.sent, mine, n, t)| < |c.ids| {
          FewTLCs(c, s, n, t);
        }
        AcceptBuilds(c, node, s.sent, n, mine, m);
      } else if m.TLC? {
        StepKeepsBase(c, s, a);
        MineAfter(c, s, a);
        forall t: nat ensures |TLCs(s.sent, mine + {a.k}, n, t)| < |c.ids| {
          FewTLCs(c, Apply(c, s, a), n, t);
          CountSubset(TLCs(s.sent, mine + {a.k}, n, t), TLCs(Apply(c, s, a).sent, mine + {a.k}, n, t));
        }
        TLCBuilds(c, node, s.sent, n, mine, a.k);
      } else {
        QuietReceive(ConfOf(c, n), n, node, m);
      }
    }
  }

  lemma StepBuilds(c: Config, s: Sys, a: Action)
    requires EvidenceInv(c, s) && c.threshold >= |c.ids| && Enabled(c, s, a) && BuildsItself(c, s)
    ensures BuildsItself(c, Apply(c, s, a))
  {
    hide WellBuilt, EvidenceInv, EffectOf;
    EffectBuilds(c, s, a);
  }

  lemma GoodThreshold(c: Config, s: Sys)
    requires EvidenceInv(c, s)
    ensures c.threshold >= 1
  {
  }

  lemma {:induction false} RunBuilds(c: Config, s: Sys, run: seq<Action>)
    requires EvidenceInv(c, s) && c.threshold >= |c.ids| && Legal(c, s, run) && BuildsItself(c, s)
    ensures BuildsItself(c, Exec(c, s, run))
    decreases |run|
  {
    hide EvidenceInv, BuildsItself, Apply, Enabled, GoodConfig;
    GoodThreshold(c, s);
    if run != [] {
      StepKeepsEvidence(c, s, run[0]);
      StepBuilds(c, s, run[0]);
      RunBuilds(c, Apply(c, s, run[0]), run[1..]);
    }
  }

  /** With a threshold that asks for all peers, every chain of every run was built by its node,
      block upon block. */
  lemma UnanimousBuilds(c: Config, s: Sys, n: Peer)
    requires GoodConfig(c) && c.threshold >= |c.ids| && Reachable(c, s) && n < |s.nodes|
    ensures WellBuilt(c.hash, s.nodes[n].chain) && Linked(s.nodes[n].chain)
  {
    hide EvidenceInv, WellBuilt, Linked;
    var run :| Legal(c, Init(c), run) && s == Exec(c, Init(c), run);
    InitEvidence(c);
    InitBuilds(c);
    RunBuilds(c, Init(c), run);
    BuiltIsSealedAndLinked(c.hash, s.nodes[n].chain);
  }

  lemma InitBuilds(c: Config)
    ensures BuildsItself(c, Init(c))
  {
  }
}
