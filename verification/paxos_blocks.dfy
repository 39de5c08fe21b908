/** Every stored block, in every run: its index and hash are right, it descends from blocks
    that were announced, and the page that walks the store works exactly when it links. */
module PaxosBlocks {
  import opened Common
  import opened Text
  import opened Blockchain
  import opened PaxosSpec
  import opened PaxosSystem
  import opened PaxosInvariants
  import opened PaxosSteps
  import opened PaxosEvidence

  /** Some node sent a TLC message with this block for this step. */
  ghost predicate Announced(sent: seq<Env>, step: nat, b: Block) {
    exists k :: 0 <= k < |sent| && sent[k].msg == TLC(step, b)
  }

  /** A block built at `step` points at the zero hash, or at an announced block of the step
      before. */
  ghost predicate Descends(sent: seq<Env>, step: nat, b: Block) {
    if step == 0 then b.prevHash == ZERO_HASH
    else exists d :: Announced(sent, step - 1, d) && b.prevHash == d.hash
  }

  ghost predicate BlockOK(c: Config, sent: seq<Env>, step: nat, b: Block) {
    Sealed(c.hash, b, step) && Descends(sent, step, b)
  }

  ghost predicate ChainAnnounced(sent: seq<Env>, chain: seq<Block>) {
    forall t :: 0 <= t < |chain| ==> Announced(sent, t, chain[t])
  }

  ghost predicate AnnouncementsOK(c: Config, sent: seq<Env>) {
    forall k :: 0 <= k < |sent| && sent[k].msg.TLC? ==> BlockOK(c, sent, sent[k].msg.step, sent[k].msg.block)
  }

  ghost predicate BlocksInv(c: Config, s: Sys) {
    && EvidenceInv(c, s)
    && AnnouncementsOK(c, s.sent)
    && (forall n :: 0 <= n < |s.nodes| ==> ChainAnnounced(s.sent, s.nodes[n].chain))
  }

  // ---------------------------------------------------------------- preservation

  lemma AnnouncedGrows(sent: seq<Env>, sent': seq<Env>)
    requires sent <= sent'
    ensures forall t: nat, b :: Announced(sent, t, b) ==> Announced(sent', t, b)
    ensures forall t: nat, b :: Descends(sent, t, b) ==> Descends(sent', t, b)
  {
    forall t: nat, b | Announced(sent, t, b) ensures Announced(sent', t, b) {
      var k :| 0 <= k < |sent| && sent[k].msg == TLC(t, b);
      assert sent'[k] == sent[k];
    }
  }

  /** The block a node builds. */
  lemma NextIsOK(c: Config, conf: Conf, node: Node, sent: seq<Env>, v: PaxosValue)
    requires conf.hash == c.hash && node.h.blocks == StoreOf(node.chain) && |node.chain| == node.h.step
    requires ChainAnnounced(sent, node.chain)
    ensures BlockOK(c, sent, node.h.step, NextBlock(conf, node.h, v))
  {
    LastHashOfStore(node.chain);
    if node.h.step > 0 {
      assert Announced(sent, node.h.step - 1, node.chain[node.h.step - 1]);
    }
  }

  /** What a node stores on its way out of a step. */
  lemma StoredAnnounced(conf: Conf, h: Handler, sent: seq<Env>, mine: set<nat>, chain: seq<Block>, block: Block)
    requires conf.threshold >= 1 && |chain| == h.step
    requires ChainAnnounced(sent, chain) && Announced(sent, h.step, block)
    requires forall t, b :: t in h.tlcs && b in h.tlcs[t] ==> Received(sent, mine, t, b)
    ensures ChainAnnounced(sent, chain + Stored(conf, h, block))
  {
    var h2 := Commit(h, block);
    var caught := Caught(conf, h2);
    CatchUpExact(conf, h2);
    var all := chain + Stored(conf, h, block);
    forall t | 0 <= t < |all| ensures Announced(sent, t, all[t]) {
      if t > h.step {
        assert CaughtAt(conf, h2, caught, t);
        assert all[t] == caught[t - h2.step];
        assert Filed(h2.tlcs, t)[conf.threshold - 1] in h.tlcs[t];
        var k :| k in mine && 0 <= k < |sent| && sent[k].msg == TLC(t, all[t]);
      }
    }
  }

  /** What one handler does to the chain, and the block it announces. */
  ghost predicate Announces(c: Config, sent: seq<Env>, n: Peer, e: Effect) {
    && ChainAnnounced(Post(sent, n, e.out), e.node.chain)
    && (e.out.Some? && e.out.value.TLC? ==> BlockOK(c, sent, e.out.value.step, e.out.value.block))
  }

  lemma DecideAnnounces(c: Config, node: Node, sent: seq<Env>, n: Peer, mine: set<nat>, m: Message)
    requires GoodConfig(c) && n < |c.ids| && EvidenceOK(c, node, sent, n, mine) && ChainAnnounced(sent, node.chain)
    requires m.Accept? && node.h.step == m.step && Decides(ConfOf(c, n), node.h, m)
    ensures Announces(c, sent, n, Receive(ConfOf(c, n), n, node, m))
  {
    hide Sealed, Descends, BlockOK;
    var conf, h1 := ConfOf(c, n), PaxosSpec.CountAccept(node.h, m.value);
    var block := NextBlock(conf, node.h, m.value);
    var sent' := sent + [Env(n, TLC(node.h.step, block))];
    NextIsOK(c, conf, node, sent, m.value);
    AnnouncedGrows(sent, sent');
    assert sent'[|sent|].msg == TLC(node.h.step, block);
    forall t, b | t in h1.tlcs && b in h1.tlcs[t] ensures Received(sent', mine, t, b) {
      ReceivedGrows(sent, sent', mine, mine, t, b);
    }
    StoredAnnounced(conf, h1, sent', mine, node.chain, block);
  }

  lemma LearnAnnounces(c: Config, node: Node, sent: seq<Env>, n: Peer, mine: set<nat>, k: nat)
    requires GoodConfig(c) && n < |c.ids| && EvidenceOK(c, node, sent, n, mine) && ChainAnnounced(sent, node.chain)
    requires k < |sent| && sent[k].msg.TLC? && BlockOK(c, sent, sent[k].msg.step, sent[k].msg.block)
    ensures Announces(c, sent, n, Receive(ConfOf(c, n), n, node, sent[k].msg))
  {
    hide Sealed, Descends, BlockOK;
    var conf, m := ConfOf(c, n), sent[k].msg;
    if node.h.step <= m.step && Learns(conf, node.h, m) {
      var h1 := FileTLC(node.h, m);
      var sent' := sent + [Env(n, m)];
      AnnouncedGrows(sent, sent');
      assert sent'[k].msg == TLC(m.step, m.block);
      forall t, b | t in h1.tlcs && b in h1.tlcs[t] ensures Received(sent', mine + {k}, t, b) {
        if t in node.h.tlcs && b in node.h.tlcs[t] {
          ReceivedGrows(sent, sent', mine, mine + {k}, t, b);
        } else {
          assert sent'[k].msg == TLC(t, b);
        }
      }
      StoredAnnounced(conf, h1, sent', mine + {k}, node.chain, m.block);
    }
  }

  lemma EffectAnnounces(c: Config, s: Sys, a: Action)
    requires BlocksInv(c, s) && Enabled(c, s, a)
    ensures Announces(c, s.sent, a.n, EffectOf(c, s, a))
  {
    hide EvidenceOK, AllBacked, Ordered, NodeOK, BlockOK, Announced, Decides;
    var n, node, e := a.n, s.nodes[a.n], EffectOf(c, s, a);
    AnnouncedGrows(s.sent, Post(s.sent, n, e.out));
    if a.Deliver? {
      var m := s.sent[a.k].msg;
      if m.TLC? {
        LearnAnnounces(c, node, s.sent, n, s.handled[n], a.k);
      } else if m.Accept? {
        if e.out.Some? {
          Deciding(ConfOf(c, n), n, node, m);
          DecideAnnounces(c, node, s.sent, n, s.handled[n], m);
        }
      } else {
        QuietReceive(ConfOf(c, n), n, node, m);
      }
    }
  }

  lemma Deciding(c: Conf, n: Peer, node: Node, m: Message)
    requires c.threshold >= 1 && m.Accept? && Receive(c, n, node, m).out.Some?
    ensures node.h.step == m.step && Decides(c, node.h, m)
  {
  }

  lemma StepKeepsBlocks(c: Config, s: Sys, a: Action)
    requires BlocksInv(c, s) && Enabled(c, s, a)
    ensures BlocksInv(c, Apply(c, s, a))
  {
    hide EvidenceOK, AllBacked, Ordered, NodeOK, Sealed, Announced, Descends, Receive;
    var s', e := Apply(c, s, a), EffectOf(c, s, a);
    StepKeepsEvidence(c, s, a);
    EffectAnnounces(c, s, a);
    AnnouncedGrows(s.sent, s'.sent);
    forall k | 0 <= k < |s'.sent| && s'.sent[k].msg.TLC?
      ensures BlockOK(c, s'.sent, s'.sent[k].msg.step, s'.sent[k].msg.block)
    {
      if k < |s.sent| {
        assert BlockOK(c, s.sent, s.sent[k].msg.step, s.sent[k].msg.block);
      }
    }
    forall n | 0 <= n < |s'.nodes| ensures ChainAnnounced(s'.sent, s'.nodes[n].chain) {
      if n != a.n {
        assert ChainAnnounced(s.sent, s.nodes[n].chain);
      }
    }
  }

  lemma {:induction false} RunKeepsBlocks(c: Config, s: Sys, run: seq<Action>)
    requires BlocksInv(c, s) && Legal(c, s, run)
    ensures BlocksInv(c, Exec(c, s, run))
    decreases |run|
  {
    hide BlocksInv;
    if run != [] {
      GoodThreshold(c, s);
      StepKeepsBlocks(c, s, run[0]);
      RunKeepsBlocks(c, Apply(c, s, run[0]), run[1..]);
    }
  }

  lemma GoodThreshold(c: Config, s: Sys)
    requires BlocksInv(c, s)
    ensures c.threshold >= 1
  {
  }

  lemma ReachableBlocks(c: Config, s: Sys)
    requires GoodConfig(c) && Reachable(c, s)
    ensures BlocksInv(c, s)
  {
    hide BlocksInv;
    var run :| Legal(c, Init(c), run) && s == Exec(c, Init(c), run);
    InitBlocks(c);
    RunKeepsBlocks(c, Init(c), run);
  }

  lemma InitBlocks(c: Config)
    requires GoodConfig(c)
    ensures BlocksInv(c, Init(c)) && c.threshold >= 1
  {
    hide EvidenceInv;
    InitEvidence(c);
  }

  // ---------------------------------------------------------------- results

  /** In every run, block t of every stored chain has index t and the hash of its own fields,
      and descends from an announced block of the step before. */
  lemma StoredBlocksAreSealed(c: Config, s: Sys, n: Peer)
    requires GoodConfig(c) && Reachable(c, s) && n < |s.nodes|
    ensures |s.nodes[n].chain| == s.nodes[n].h.step && s.nodes[n].h.blocks == StoreOf(s.nodes[n].chain)
    ensures AllSealed(c.hash, s.nodes[n].chain)
    ensures forall t :: 0 <= t < |s.nodes[n].chain| ==> Descends(s.sent, t, s.nodes[n].chain[t])
  {
    hide EvidenceInv, Reachable;
    ReachableBlocks(c, s);
    StoresHoldTheChain(c, s, n);
    var chain := s.nodes[n].chain;
    assert ChainAnnounced(s.sent, chain);
    forall t | 0 <= t < |chain| ensures BlockOK(c, s.sent, t, chain[t]) {
      AnnouncedIsOK(c, s.sent, t, chain[t]);
    }
  }

  lemma AnnouncedIsOK(c: Config, sent: seq<Env>, step: nat, b: Block)
    requires AnnouncementsOK(c, sent) && Announced(sent, step, b)
    ensures BlockOK(c, sent, step, b)
  {
    var k :| 0 <= k < |sent| && sent[k].msg == TLC(step, b);
  }

  /** What is asked of SHA-256 on the preimages of the blocks of the run: 32 bytes, never all
      zero, no collision. */
  ghost predicate RunHashes(hash: Bytes -> Bytes, sent: seq<Env>) {
    && (forall t: nat, b :: Announced(sent, t, b) ==> GoodHash(hash(Preimage(t, b.value, b.prevHash))))
    && (forall t: nat, b, u: nat, d :: Announced(sent, t, b) && Announced(sent, u, d) ==> NoCollision(hash, t, b, u, d))
  }

  ghost predicate NoCollision(hash: Bytes -> Bytes, t: nat, b: Block, u: nat, d: Block) {
    var p, q := Preimage(t, b.value, b.prevHash), Preimage(u, d.value, d.prevHash);
    hash(p) == hash(q) ==> p == q
  }

  lemma PointerIsProper(c: Config, sent: seq<Env>, t: nat, b: Block)
    requires AnnouncementsOK(c, sent) && RunHashes(c.hash, sent) && Announced(sent, t, b)
    ensures GoodHash(b.hash) && |b.prevHash| == 32 && AllBytes(b.prevHash) && (b.prevHash == ZERO_HASH <==> t == 0)
  {
    AnnouncedIsOK(c, sent, t, b);
    if t > 0 {
      var d :| Announced(sent, t - 1, d) && b.prevHash == d.hash;
      AnnouncedIsOK(c, sent, t - 1, d);
    }
  }

  /** Although nothing delimits the fields of a preimage, equal hashes mean equal pointers. */
  lemma SamePointer(c: Config, sent: seq<Env>, t: nat, b: Block, u: nat, d: Block)
    requires AnnouncementsOK(c, sent) && RunHashes(c.hash, sent)
    requires Announced(sent, t, b) && Announced(sent, u, d) && b.hash == d.hash
    ensures b.prevHash == d.prevHash && (t == 0 <==> u == 0)
  {
    hide Descends, AnnouncementsOK, Preimage;
    AnnouncedIsOK(c, sent, t, b);
    AnnouncedIsOK(c, sent, u, d);
    PointerIsProper(c, sent, t, b);
    PointerIsProper(c, sent, u, d);
    assert NoCollision(c.hash, t, b, u, d);
    PreimageEndsInPrevHash(t, b.value, b.prevHash, u, d.value, d.prevHash);
  }

  lemma Predecessor(c: Config, sent: seq<Env>, t: nat, b: Block) returns (d: Block)
    requires AnnouncementsOK(c, sent) && t > 0 && Announced(sent, t, b)
    ensures Announced(sent, t - 1, d) && b.prevHash == d.hash
  {
    AnnouncedIsOK(c, sent, t, b);
    d :| Announced(sent, t - 1, d) && b.prevHash == d.hash;
  }

  /** So a hash fixes the height of its block, across all blocks announced in a run. */
  lemma {:induction false} HashFixesHeight(c: Config, sent: seq<Env>, t: nat, b: Block, u: nat, d: Block)
    requires AnnouncementsOK(c, sent) && RunHashes(c.hash, sent)
    requires Announced(sent, t, b) && Announced(sent, u, d) && b.hash == d.hash
    ensures t == u
    decreases t
  {
    hide AnnouncementsOK, RunHashes, Announced;
    SamePointer(c, sent, t, b, u, d);
    if t > 0 {
      var b1 := Predecessor(c, sent, t, b);
      var d1 := Predecessor(c, sent, u, d);
      HashFixesHeight(c, sent, t - 1, b1, u - 1, d1);
    }
  }

  /** The stored chain of every node of every run is one `BlockchainGet` and
      `ValidateBlockchain` can be asked to walk, and its store has one key more than blocks. */
  lemma StoredChainIsTraceable(c: Config, s: Sys, n: Peer)
    requires GoodConfig(c) && Reachable(c, s) && n < |s.nodes| && RunHashes(c.hash, s.sent)
    ensures Traceable(s.nodes[n].chain) && s.nodes[n].h.blocks == StoreOf(s.nodes[n].chain)
    ensures |s.nodes[n].h.blocks| == if s.nodes[n].h.step == 0 then 0 else s.nodes[n].h.step + 1
  {
    ReachableBlocks(c, s);
    StoredBlocksAreSealed(c, s, n);
    var chain := s.nodes[n].chain;
    ChainIsTraceable(c, s.sent, chain);
    StoreSize(chain);
  }

  lemma ChainIsTraceable(c: Config, sent: seq<Env>, chain: seq<Block>)
    requires AnnouncementsOK(c, sent) && RunHashes(c.hash, sent) && ChainAnnounced(sent, chain)
    ensures Traceable(chain)
  {
    hide AnnouncementsOK, RunHashes;
    forall i | 0 <= i < |chain|
      ensures GoodHash(chain[i].hash) && |chain[i].prevHash| == 32 && AllBytes(chain[i].prevHash)
              && (chain[i].prevHash == ZERO_HASH <==> i == 0)
    {
      PointerIsProper(c, sent, i, chain[i]);
    }
    forall i, j | 0 <= i < |chain| && 0 <= j < |chain| && chain[i].hash == chain[j].hash ensures i == j {
      HashFixesHeight(c, sent, i, chain[i], j, chain[j]);
    }
    forall i, j | 0 <= i < |chain| && 0 <= j < |chain| && chain[i].hash == chain[j].prevHash ensures i + 1 == j {
      PointsBelow(c, sent, i, chain[i], j, chain[j]);
    }
  }

  lemma PointsBelow(c: Config, sent: seq<Env>, i: nat, b: Block, j: nat, d: Block)
    requires AnnouncementsOK(c, sent) && RunHashes(c.hash, sent)
    requires Announced(sent, i, b) && Announced(sent, j, d) && b.hash == d.prevHash
    ensures i + 1 == j
  {
    hide AnnouncementsOK, RunHashes, Announced;
    PointerIsProper(c, sent, i, b);
    PointerIsProper(c, sent, j, d);
    var e := Predecessor(c, sent, j, d);
    HashFixesHeight(c, sent, i, b, j - 1, e);
  }
}
