/** Chain agreement: when at most one value is decided by accepts in each step, all nodes
    store the same blocks in the same order, however they left each step. */
module PaxosChains {
  import opened Common
  import opened Text
  import opened Blockchain
  import opened PaxosSpec
  import opened PaxosSystem
  import opened PaxosInvariants
  import opened PaxosSteps
  import opened PaxosAgreement
  import opened PaxosEvidence

  // ---------------------------------------------------------------- decisions

  ghost predicate IsDecided(s: Sys, step: nat, v: PaxosValue) {
    exists n :: 0 <= n < |s.nodes| && Decision(step, v) in s.nodes[n].decided
  }

  /** No two values reach the accept threshold in the same step, anywhere. */
  ghost predicate OneDecision(s: Sys) {
    forall step: nat, v, w :: IsDecided(s, step, v) && IsDecided(s, step, w) ==> v == w
  }

  lemma DecidedStep(c: Config, s: Sys, a: Action, step: nat, v: PaxosValue)
    requires c.threshold >= 1 && Enabled(c, s, a) && IsDecided(s, step, v)
    ensures IsDecided(Apply(c, s, a), step, v)
  {
    var n :| 0 <= n < |s.nodes| && Decision(step, v) in s.nodes[n].decided;
    assert s.nodes[a.n].decided <= EffectOf(c, s, a).node.decided;
    assert Decision(step, v) in Apply(c, s, a).nodes[n].decided;
  }

  lemma {:induction false} DecidedRun(c: Config, s: Sys, run: seq<Action>, step: nat, v: PaxosValue)
    requires c.threshold >= 1 && Legal(c, s, run) && IsDecided(s, step, v)
    ensures IsDecided(Exec(c, s, run), step, v)
    decreases |run|
  {
    if run != [] {
      DecidedStep(c, s, run[0], step, v);
      DecidedRun(c, Apply(c, s, run[0]), run[1..], step, v);
    }
  }

  // ---------------------------------------------------------------- the canonical chain

  ghost predicate FiledFrom(tlcs: map<nat, seq<Block>>, chain: seq<Block>) {
    forall t, b :: t in tlcs && b in tlcs[t] ==> t < |chain| && b == chain[t]
  }

  /** Every chain is a prefix of `chain`, every TLC message carries its block of that step,
      and every block was built on its predecessor from a decided value. */
  ghost predicate Canonical(c: Config, s: Sys, chain: seq<Block>) {
    && WellBuilt(c.hash, chain)
    && (forall t :: 0 <= t < |chain| ==> IsDecided(s, t, chain[t].value))
    && (forall n :: 0 <= n < |s.nodes| ==> s.nodes[n].chain <= chain && FiledFrom(s.nodes[n].h.tlcs, chain))
    && (forall k :: 0 <= k < |s.sent| && s.sent[k].msg.TLC? ==>
         s.sent[k].msg.step < |chain| && s.sent[k].msg.block == chain[s.sent[k].msg.step])
  }

  /** The block built by a node that decides is the canonical one, or the next one. */
  lemma BlockFits(c: Config, conf: Conf, h: Handler, mine: seq<Block>, chain: seq<Block>, v: PaxosValue)
    requires conf.hash == c.hash && WellBuilt(c.hash, chain)
    requires mine <= chain && |mine| == h.step && h.blocks == StoreOf(mine)
    requires h.step < |chain| ==> chain[h.step].value == v
    ensures h.step < |chain| ==> chain[h.step] == NextBlock(conf, h, v)
    ensures h.step == |chain| ==> WellBuilt(c.hash, chain + [NextBlock(conf, h, v)])
  {
    LastHashOfStore(mine);
    assert PrevHash(mine, |mine|) == PrevHash(chain, h.step);
    if h.step < |chain| {
      assert Built(c.hash, chain, h.step);
    } else {
      var more := chain + [NextBlock(conf, h, v)];
      forall i | 0 <= i < |more| ensures Built(c.hash, more, i) {
        assert PrevHash(more, i) == PrevHash(chain, i);
        assert i < |chain| ==> Built(c.hash, chain, i);
      }
    }
  }

  /** What a node stores on its way out of a step continues the canonical chain. */
  lemma StoredFits(conf: Conf, h: Handler, mine: seq<Block>, chain: seq<Block>, block: Block)
    requires conf.threshold >= 1
    requires mine <= chain && |mine| == h.step < |chain| && chain[h.step] == block
    requires FiledFrom(h.tlcs, chain)
    ensures mine + Stored(conf, h, block) <= chain
  {
    var h2 := Commit(h, block);
    var caught := Caught(conf, h2);
    CatchUpExact(conf, h2);
    forall i | 0 <= i < |caught| ensures h2.step + i < |chain| && caught[i] == chain[h2.step + i] {
      assert CaughtAt(conf, h2, caught, h2.step + i);
      assert Filed(h2.tlcs, h2.step + i)[conf.threshold - 1] in h.tlcs[h2.step + i];
    }
    if caught != [] {
      var t := h2.step + |caught| - 1;
      assert CaughtAt(conf, h2, caught, t);
      assert Filed(h2.tlcs, t)[conf.threshold - 1] in h.tlcs[t];
    }
  }

  /** What an action has to show of its node. */
  ghost predicate Follower(node: Node, out: Option<Message>, chain: seq<Block>) {
    && node.chain <= chain
    && FiledFrom(node.h.tlcs, chain)
    && (out.Some? && out.value.TLC? ==> out.value.step < |chain| && out.value.block == chain[out.value.step])
  }

  lemma DecideFollows(c: Config, node: Node, sent: seq<Env>, n: Peer, mine: set<nat>, m: Message, chain: seq<Block>)
    requires GoodConfig(c) && n < |c.ids| && EvidenceOK(c, node, sent, n, mine)
    requires m.Accept? && node.h.step == m.step && Decides(ConfOf(c, n), node.h, m)
    requires node.chain <= chain && FiledFrom(node.h.tlcs, chain)
    requires m.step < |chain| && chain[m.step] == NextBlock(ConfOf(c, n), node.h, m.value)
    ensures var e := Receive(ConfOf(c, n), n, node, m); Follower(e.node, e.out, chain)
  {
    var conf, h1 := ConfOf(c, n), PaxosSpec.CountAccept(node.h, m.value);
    var block := NextBlock(conf, node.h, m.value);
    StoredFits(conf, h1, node.chain, chain, block);
    LeaveRestarts(conf, h1, block);
  }

  lemma LearnFollows(c: Config, node: Node, sent: seq<Env>, n: Peer, mine: set<nat>, m: Message, chain: seq<Block>)
    requires GoodConfig(c) && n < |c.ids| && EvidenceOK(c, node, sent, n, mine)
    requires m.TLC? && node.h.step <= m.step
    requires node.chain <= chain && FiledFrom(node.h.tlcs, chain)
    requires m.step < |chain| && chain[m.step] == m.block
    ensures var e := Receive(ConfOf(c, n), n, node, m); Follower(e.node, e.out, chain)
  {
    var conf, h1 := ConfOf(c, n), FileTLC(node.h, m);
    assert FiledFrom(h1.tlcs, chain);
    if Learns(conf, node.h, m) {
      StoredFits(conf, h1, node.chain, chain, m.block);
      LeaveRestarts(conf, h1, m.block);
    }
  }

  // ---------------------------------------------------------------- every action

  lemma FiledGrows(tlcs: map<nat, seq<Block>>, chain: seq<Block>, chain': seq<Block>)
    requires FiledFrom(tlcs, chain) && chain <= chain'
    ensures FiledFrom(tlcs, chain')
  {
  }

  lemma QuietFollows(c: Config, s: Sys, a: Action, chain: seq<Block>)
    requires BaseInv(c, s) && Canonical(c, s, chain) && Enabled(c, s, a)
    requires a.Deliver? ==> !s.sent[a.k].msg.TLC? && !(s.sent[a.k].msg.Accept? && EffectOf(c, s, a).out.Some?)
    ensures var e := EffectOf(c, s, a); Follower(e.node, e.out, chain)
  {
    if a.Deliver? {
      var m, conf, node := s.sent[a.k].msg, ConfOf(c, a.n), s.nodes[a.n];
      if m.Accept? {
        AcceptKeepsFiles(conf, node.h, m);
      } else {
        QuietReceive(conf, a.n, node, m);
      }
    }
  }

  lemma AcceptKeepsFiles(c: Conf, h: Handler, m: Message)
    requires c.threshold >= 1 && m.Accept? && RespondToAccept(c, h, m).out.None?
    ensures RespondToAccept(c, h, m).h.tlcs == h.tlcs
  {
  }

  lemma NowDecided(c: Config, s: Sys, a: Action)
    requires c.threshold >= 1 && Enabled(c, s, a)
    requires a.Deliver? && s.sent[a.k].msg.Accept? && EffectOf(c, s, a).out.Some?
    ensures var m := s.sent[a.k].msg;
      && s.nodes[a.n].h.step == m.step && Decides(ConfOf(c, a.n), s.nodes[a.n].h, m)
      && IsDecided(Apply(c, s, a), m.step, m.value)
  {
    var m := s.sent[a.k].msg;
    assert Decision(m.step, m.value) in Apply(c, s, a).nodes[a.n].decided;
  }

  /** The value a node decides is the canonical one of the step, if there is one. */
  lemma DecisionFits(c: Config, s: Sys, a: Action, chain: seq<Block>)
    requires c.threshold >= 1 && Enabled(c, s, a) && OneDecision(Apply(c, s, a))
    requires forall t :: 0 <= t < |chain| ==> IsDecided(s, t, chain[t].value)
    requires a.Deliver? && s.sent[a.k].msg.Accept? && EffectOf(c, s, a).out.Some?
    ensures var m := s.sent[a.k].msg; m.step < |chain| ==> chain[m.step].value == m.value
  {
    var m := s.sent[a.k].msg;
    NowDecided(c, s, a);
    if m.step < |chain| {
      DecidedStep(c, s, a, m.step, chain[m.step].value);
    }
  }

  /** The canonical chain after a decision: longer by at most the block just built. */
  lemma DecisionExtends(c: Config, node: Node, sent: seq<Env>, n: Peer, mine: set<nat>, m: Message, chain: seq<Block>)
    returns (chain': seq<Block>)
    requires GoodConfig(c) && n < |c.ids| && EvidenceOK(c, node, sent, n, mine)
    requires m.Accept? && node.h.step == m.step && Decides(ConfOf(c, n), node.h, m)
    requires WellBuilt(c.hash, chain) && node.chain <= chain && FiledFrom(node.h.tlcs, chain)
    requires m.step < |chain| ==> chain[m.step].value == m.value
    ensures chain <= chain' && WellBuilt(c.hash, chain')
    ensures var e := Receive(ConfOf(c, n), n, node, m); Follower(e.node, e.out, chain')
    ensures chain' != chain ==> |chain'| == m.step + 1 == |chain| + 1 && chain'[m.step].value == m.value
  {
    var block := NextBlock(ConfOf(c, n), node.h, m.value);
    BlockFits(c, ConfOf(c, n), node.h, node.chain, chain, m.value);
    chain' := if m.step == |chain| then chain + [block] else chain;
    FiledGrows(node.h.tlcs, chain, chain');
    DecideFollows(c, node, sent, n, mine, m, chain');
  }

  lemma DecisionFollows(c: Config, s: Sys, a: Action, chain: seq<Block>) returns (chain': seq<Block>)
    requires EvidenceInv(c, s) && Canonical(c, s, chain) && Enabled(c, s, a)
    requires OneDecision(Apply(c, s, a))
    requires a.Deliver? && s.sent[a.k].msg.Accept? && EffectOf(c, s, a).out.Some?
    ensures chain <= chain' && WellBuilt(c.hash, chain')
    ensures var e := EffectOf(c, s, a); Follower(e.node, e.out, chain')
    ensures forall t :: |chain| <= t < |chain'| ==> IsDecided(Apply(c, s, a), t, chain'[t].value)
  {
    hide AllBacked, Ordered, NodeOK, EvidenceOK, Follower, OneDecision, IsDecided, FiledFrom;
    hide Decides, Receive, WellBuilt;
    DecisionFits(c, s, a, chain);
    NowDecided(c, s, a);
    chain' := DecisionExtends(c, s.nodes[a.n], s.sent, a.n, s.handled[a.n], s.sent[a.k].msg, chain);
  }

  lemma LessonFollows(c: Config, s: Sys, a: Action, chain: seq<Block>)
    requires EvidenceInv(c, s) && Canonical(c, s, chain) && Enabled(c, s, a)
    requires a.Deliver? && s.sent[a.k].msg.TLC?
    ensures var e := EffectOf(c, s, a); Follower(e.node, e.out, chain)
  {
    hide AllBacked, Ordered, NodeOK, EvidenceOK, FiledFrom, WellBuilt;
    var n, node, m := a.n, s.nodes[a.n], s.sent[a.k].msg;
    if node.h.step <= m.step {
      LearnFollows(c, node, s.sent, n, s.handled[n], m, chain);
    }
  }

  lemma EffectFollows(c: Config, s: Sys, a: Action, chain: seq<Block>) returns (chain': seq<Block>)
    requires EvidenceInv(c, s) && Canonical(c, s, chain) && Enabled(c, s, a)
    requires OneDecision(Apply(c, s, a))
    ensures chain <= chain' && WellBuilt(c.hash, chain')
    ensures var e := EffectOf(c, s, a); Follower(e.node, e.out, chain')
    ensures forall t :: |chain| <= t < |chain'| ==> IsDecided(Apply(c, s, a), t, chain'[t].value)
  {
    if a.Deliver? && s.sent[a.k].msg.Accept? && EffectOf(c, s, a).out.Some? {
      chain' := DecisionFollows(c, s, a, chain);
    } else {
      chain' := chain;
      if a.Deliver? && s.sent[a.k].msg.TLC? {
        LessonFollows(c, s, a, chain);
      } else {
        QuietFollows(c, s, a, chain);
      }
    }
  }

  lemma StepKeepsCanonical(c: Config, s: Sys, a: Action, chain: seq<Block>) returns (chain': seq<Block>)
    requires EvidenceInv(c, s) && Canonical(c, s, chain) && Enabled(c, s, a)
    requires OneDecision(Apply(c, s, a))
    ensures Canonical(c, Apply(c, s, a), chain')
  {
    hide AllBacked, Ordered, NodeOK, EvidenceOK, OneDecision, WellBuilt, IsDecided, FiledFrom, Receive;
    chain' := EffectFollows(c, s, a, chain);
    var s' := Apply(c, s, a);
    forall t | 0 <= t < |chain'| ensures IsDecided(s', t, chain'[t].value) {
      if t < |chain| {
        DecidedStep(c, s, a, t, chain[t].value);
      }
    }
    forall n | 0 <= n < |s'.nodes| ensures s'.nodes[n].chain <= chain' && FiledFrom(s'.nodes[n].h.tlcs, chain') {
      if n != a.n {
        FiledGrows(s.nodes[n].h.tlcs, chain, chain');
      }
    }
  }

  lemma OneDecisionBefore(c: Config, s: Sys, run: seq<Action>)
    requires c.threshold >= 1 && Legal(c, s, run) && OneDecision(Exec(c, s, run))
    ensures OneDecision(s)
  {
    forall step: nat, v, w | IsDecided(s, step, v) && IsDecided(s, step, w) ensures v == w {
      DecidedRun(c, s, run, step, v);
      DecidedRun(c, s, run, step, w);
    }
  }

  lemma {:induction false} RunKeepsCanonical(c: Config, s: Sys, run: seq<Action>, chain: seq<Block>)
    returns (chain': seq<Block>)
    requires EvidenceInv(c, s) && Canonical(c, s, chain) && Legal(c, s, run)
    requires OneDecision(Exec(c, s, run))
    ensures Canonical(c, Exec(c, s, run), chain')
    decreases |run|
  {
    chain' := chain;
    if run != [] {
      var s1 := Apply(c, s, run[0]);
      OneDecisionBefore(c, s1, run[1..]);
      StepKeepsEvidence(c, s, run[0]);
      chain' := StepKeepsCanonical(c, s, run[0], chain);
      chain' := RunKeepsCanonical(c, s1, run[1..], chain');
    }
  }

  // ---------------------------------------------------------------- chain agreement

  /** Any two nodes' chains are prefixes of one another. */
  ghost predicate ChainsAgree(s: Sys) {
    forall m, n :: 0 <= m < |s.nodes| && 0 <= n < |s.nodes| ==>
      s.nodes[m].chain <= s.nodes[n].chain || s.nodes[n].chain <= s.nodes[m].chain
  }

  /** Every TLC message of a step carries the same block. */
  ghost predicate TLCsAgree(s: Sys) {
    forall a, b :: a in s.sent && b in s.sent && a.msg.TLC? && b.msg.TLC? && a.msg.step == b.msg.step ==> a.msg == b.msg
  }

  lemma InitCanonical(c: Config)
    requires GoodConfig(c)
    ensures Canonical(c, Init(c), [])
  {
  }

  lemma CanonicalChain(c: Config, s: Sys) returns (chain: seq<Block>)
    requires GoodConfig(c) && Reachable(c, s) && OneDecision(s)
    ensures Canonical(c, s, chain)
  {
    var run :| Legal(c, Init(c), run) && s == Exec(c, Init(c), run);
    InitEvidence(c);
    InitCanonical(c);
    chain := RunKeepsCanonical(c, Init(c), run, []);
  }

  /** If at most one value per step is decided by accepts anywhere, then all chains agree and
      all TLC messages of a step carry the same block. */
  lemma ChainAgreement(c: Config, s: Sys)
    requires GoodConfig(c) && Reachable(c, s) && OneDecision(s)
    ensures ChainsAgree(s) && TLCsAgree(s)
  {
    var chain := CanonicalChain(c, s);
  }

  /** ... and a node at step k holds exactly the blocks 0..k-1, each built on its predecessor,
      with the hash of block k-1 under the reserved key; the store is the one `BlockchainGet`
      walks, and has k+1 keys when k > 0 and no hashes clash. */
  lemma NodeHoldsChain(c: Config, s: Sys, n: Peer)
    requires GoodConfig(c) && Reachable(c, s) && OneDecision(s) && n < |s.nodes|
    ensures var h, chain := s.nodes[n].h, s.nodes[n].chain;
      && WellBuilt(c.hash, chain) && |chain| == h.step
      && h.blocks == StoreOf(chain) && LastHash(h.blocks) == PrevHash(chain, h.step)
      && (NoClash(c.hash, chain) ==> |h.blocks| == if h.step == 0 then 0 else h.step + 1)
  {
    var whole := CanonicalChain(c, s);
    var chain := s.nodes[n].chain;
    StoresHoldTheChain(c, s, n);
    assert chain == whole[..|chain|];
    WellBuiltPrefix(c.hash, whole, |chain|);
    LastHashOfStore(chain);
    if NoClash(c.hash, chain) {
      TraceableWhenBuilt(c.hash, chain);
      StoreSize(chain);
    }
  }

  // ---------------------------------------------------------------- who guarantees one decision

  /** A decision rests on threshold accepts, so on at least one. */
  lemma DecisionWasAccepted(c: Config, s: Sys, step: nat, v: PaxosValue) returns (n: Peer, ks: set<nat>)
    requires EvidenceInv(c, s) && IsDecided(s, step, v)
    ensures n < |s.nodes| && ks == Accepts(s.sent, s.handled[n], step, v) && |ks| >= c.threshold
  {
    n :| 0 <= n < |s.nodes| && Decision(step, v) in s.nodes[n].decided;
    assert EvidenceOK(c, s.nodes[n], s.sent, n, s.handled[n]);
    ks := Accepts(s.sent, s.handled[n], step, v);
  }

  /** With unanimous thresholds no two values are decided in a step. */
  lemma UnanimousDecidesOnce(c: Config, run: seq<Action>)
    requires GoodConfig(c) && Unanimous(c)
    requires Legal(c, Init(c), run) && DisciplinedRun(c, Init(c), run)
    ensures OneDecision(Exec(c, Init(c), run))
  {
    var s := Exec(c, Init(c), run);
    ReachableEvidence(c, s);
    forall step: nat, v, w | IsDecided(s, step, v) && IsDecided(s, step, w) ensures v == w {
      var m, ks := DecisionWasAccepted(c, s, step, v);
      var n, ls := DecisionWasAccepted(c, s, step, w);
      var k :| k in ks;
      var l :| l in ls;
      UnanimousAgreement(c, run, s.sent[k], s.sent[l]);
    }
  }

  /** End to end with unanimous thresholds: all nodes build the same chain. */
  lemma UnanimousChains(c: Config, run: seq<Action>)
    requires GoodConfig(c) && Unanimous(c)
    requires Legal(c, Init(c), run) && DisciplinedRun(c, Init(c), run)
    ensures ChainsAgree(Exec(c, Init(c), run)) && TLCsAgree(Exec(c, Init(c), run))
  {
    UnanimousDecidesOnce(c, run);
    ChainAgreement(c, Exec(c, Init(c), run));
  }

  /** No acceptor sends more than one accept in this step. */
  ghost predicate SingleAccepts(sent: seq<Env>, step: nat) {
    forall a, b :: 0 <= a < b < |sent| && sent[a].origin == sent[b].origin ==>
      !(sent[a].msg.Accept? && sent[b].msg.Accept? && sent[a].msg.step == sent[b].msg.step == step)
  }

  ghost predicate Majority(c: Config) {
    2 * c.threshold > |c.ids|
  }

  lemma AcceptorsOf(c: Config, s: Sys, n: Peer, step: nat, v: PaxosValue)
    requires BaseInv(c, s) && SingleAccepts(s.sent, step) && n < |s.nodes|
    ensures var ks := Accepts(s.sent, s.handled[n], step, v);
      |Origins(s.sent, ks)| == |ks| && forall o :: o in Origins(s.sent, ks) ==> o < |c.ids|
  {
    var ks := Accepts(s.sent, s.handled[n], step, v);
    CountOrigins(s.sent, ks);
  }

  lemma QuorumsMeet(p: set<nat>, q: set<nat>, n: nat) returns (x: nat)
    requires (forall y :: y in p ==> y < n) && (forall y :: y in q ==> y < n)
    requires |p| + |q| > n
    ensures x in p && x in q
  {
    if p * q == {} {
      assert |p + q| == |p| + |q|;
      CountBelow(p + q, n);
      assert false;
    }
    x :| x in p * q;
  }

  /** Two quorums of acceptors of one step share a peer, who accepted once. */
  lemma SharedAcceptor(c: Config, s: Sys, step: nat, m: Peer, v: PaxosValue, n: Peer, w: PaxosValue)
    requires BaseInv(c, s) && Majority(c) && SingleAccepts(s.sent, step) && m < |s.nodes| && n < |s.nodes|
    requires |Accepts(s.sent, s.handled[m], step, v)| >= c.threshold
    requires |Accepts(s.sent, s.handled[n], step, w)| >= c.threshold
    ensures v == w
  {
    var ks, ls := Accepts(s.sent, s.handled[m], step, v), Accepts(s.sent, s.handled[n], step, w);
    AcceptorsOf(c, s, m, step, v);
    AcceptorsOf(c, s, n, step, w);
    var x := QuorumsMeet(Origins(s.sent, ks), Origins(s.sent, ls), |c.ids|);
    var k :| k in ks && s.sent[k].origin == x;
    var l :| l in ls && s.sent[l].origin == x;
    assert k == l;
  }

  /** Majority quorums intersect: in a step where no acceptor sends two accepts, the per-value
      counters count different acceptors and no two nodes decide differently. */
  lemma MajorityDecidesOnce(c: Config, s: Sys, step: nat, v: PaxosValue, w: PaxosValue)
    requires GoodConfig(c) && Majority(c) && Reachable(c, s) && SingleAccepts(s.sent, step)
    requires IsDecided(s, step, v) && IsDecided(s, step, w)
    ensures v == w
  {
    ReachableEvidence(c, s);
    var m, ks := DecisionWasAccepted(c, s, step, v);
    var n, ls := DecisionWasAccepted(c, s, step, w);
    SharedAcceptor(c, s, step, m, v, n, w);
  }

  lemma MajorityChains(c: Config, s: Sys)
    requires GoodConfig(c) && Majority(c) && Reachable(c, s)
    requires forall step: nat :: SingleAccepts(s.sent, step)
    ensures ChainsAgree(s) && TLCsAgree(s)
  {
    forall step: nat, v, w | IsDecided(s, step, v) && IsDecided(s, step, w) ensures v == w {
      MajorityDecidesOnce(c, s, step, v, w);
    }
    ChainAgreement(c, s);
  }
}
