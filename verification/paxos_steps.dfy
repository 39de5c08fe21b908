/** Every action keeps the invariants of `PaxosInvariants`, so they hold in every run. */
module PaxosSteps {
  import opened Common
  import opened Text
  import opened Blockchain
  import opened PaxosSpec
  import opened PaxosSystem
  import opened PaxosInvariants

  ghost predicate Follows(sent: seq<Env>, n: Peer, m: Message) {
    forall k :: 0 <= k < |sent| && sent[k].origin == n ==> InOrder(sent[k].msg, m)
  }

  /** What an action at n has to show of its effect. */
  ghost predicate Sound(c: Config, sent: seq<Env>, n: Peer, e: Effect, mine: set<nat>) {
    && NodeOK(c, e.node, Post(sent, n, e.out), n, mine)
    && (e.out.Some? ==> Backed(c, Post(sent, n, e.out), n, e.out.value) && Follows(sent, n, e.out.value))
  }

  /** The state an action at n starts from. */
  ghost predicate Local(c: Config, node: Node, sent: seq<Env>, n: Peer, mine: set<nat>) {
    && GoodConfig(c) && n < |c.ids|
    && AllBacked(c, sent)
    && NodeOK(c, node, sent, n, mine)
  }

  // ---------------------------------------------------------------- the Tag goroutine

  lemma BeginSound(c: Config, node: Node, sent: seq<Env>, n: Peer, mine: set<nat>)
    requires Local(c, node, sent, n, mine) && node.thread.Resting? && !node.h.running
    ensures Sound(c, sent, n, Effect(node.(h := node.h.(running := true), thread := Ready), None), mine)
  {
  }

  lemma AttemptSound(c: Config, node: Node, sent: seq<Env>, n: Peer, mine: set<nat>, v: PaxosValue)
    requires Local(c, node, sent, n, mine) && node.thread.Ready? && v != NO_VALUE
    ensures var r := CreatePrepare(node.h, n, v);
      Sound(c, sent, n, Effect(node.(h := r.h, thread := Preparing(|sent|), created := node.created + {v}), r.out),
            mine)
  {
    var m := Prepare(node.h.step, node.h.paxosID, n);
    forall k | 0 <= k < |sent| && sent[k].origin == n ensures InOrder(sent[k].msg, m) {
      assert Behind(node.h, sent[k].msg);
      assert Backed(c, sent, n, sent[k].msg);
    }
  }

  lemma RetrySound(c: Config, node: Node, sent: seq<Env>, n: Peer, mine: set<nat>)
    requires Local(c, node, sent, n, mine)
    requires node.thread.Preparing? || node.thread.Proposing?
    requires node.thread.at in mine
    ensures Sound(c, sent, n, Effect(node.(h := NextID(ConfOf(c, n), node.h), thread := Ready), None), mine)
  {
    NextBallot(c, n, node.h.paxosID);
  }

  lemma SuggestSound(c: Config, node: Node, sent: seq<Env>, n: Peer, mine: set<nat>, v: PaxosValue)
    requires Local(c, node, sent, n, mine) && node.thread.Preparing? && node.thread.at in mine
    requires exists o :: o in node.offers && o.value == v
    ensures Sound(c, sent, n, Effect(node.(thread := Proposing(|sent|)), Some(CreatePropose(node.h, v))), mine)
  {
  }

  lemma FinishSound(c: Config, node: Node, sent: seq<Env>, n: Peer, mine: set<nat>)
    requires Local(c, node, sent, n, mine)
    requires node.thread.Ready? || node.thread.Proposing?
    ensures Sound(c, sent, n, Effect(node.(thread := Resting), None), mine)
  {
  }

  // ---------------------------------------------------------------- deliveries

  lemma PrepareSound(c: Config, node: Node, sent: seq<Env>, n: Peer, mine: set<nat>, k: nat)
    requires Local(c, node, sent, n, mine)
    requires k < |sent| && sent[k].msg.Prepare?
    ensures var r := RespondToPrepare(node.h, sent[k].msg);
      Sound(c, sent, n, Effect(node.(h := r.h), r.out), mine + {k})
  {
    var m, o := sent[k].msg, sent[k].origin;
    assert Backed(c, sent, o, m);
    BallotPositive(c, o, m.id);
    var r := RespondToPrepare(node.h, m);
    if r.out.Some? {
      assert sent[k] == Env(m.source, Prepare(m.step, m.id, m.source));
      forall j | 0 <= j < |sent| && sent[j].origin == n ensures InOrder(sent[j].msg, r.out.value) {
        assert Behind(node.h, sent[j].msg);
      }
    }
  }

  lemma ProposeSound(c: Config, node: Node, sent: seq<Env>, n: Peer, mine: set<nat>, k: nat)
    requires Local(c, node, sent, n, mine)
    requires k < |sent| && sent[k].msg.Propose?
    ensures var r := RespondToPropose(node.h, sent[k].msg);
      Sound(c, sent, n, Effect(node.(h := r.h), r.out), mine + {k})
  {
    var m, o := sent[k].msg, sent[k].origin;
    assert Backed(c, sent, o, m);
    BallotPositive(c, o, m.id);
    var r := RespondToPropose(node.h, m);
    if r.out.Some? {
      assert sent[k] == Env(o, Propose(m.step, m.id, m.value));
      forall j | 0 <= j < |sent| && sent[j].origin == n ensures InOrder(sent[j].msg, r.out.value) {
        assert Behind(node.h, sent[j].msg);
      }
    }
  }

  /** Counting a promise touches the proposer's tally only. */
  lemma PromiseOutline(c: Conf, h: Handler, m: Message)
    requires m.Promise? && !NilDereference(h, m)
    requires m.acceptedValue.Some? ==> m.acceptedValue.value != NO_VALUE
    requires h.bestID != 0 ==> h.bestValue != NO_VALUE
    requires CountsPromise(h, m) ==> h.proposedValue != NO_VALUE
    ensures var t := RespondToPromise(c, h, m);
      && t.h == h.(promises := t.h.promises, bestID := t.h.bestID, bestValue := t.h.bestValue, phase := t.h.phase)
      && (t.h.bestID != 0 ==> t.h.bestValue != NO_VALUE)
      && (t.offer.Some? ==> t.offer.value != NO_VALUE)
  {
    if !CountsPromise(h, m) {
      assert RespondToPromise(c, h, m) == Tally(h, None);
    } else {
      var better := m.acceptedID > h.bestID;
      BestIsValue(h, m);
      var h1 := h.(promises := h.promises + 1,
                   bestID := if better then m.id else h.bestID,
                   bestValue := if better then m.acceptedValue.value else h.bestValue);
      assert RespondToPromise(c, h, m).h == if h1.promises < c.threshold then h1 else h1.(phase := Phase2);
    }
  }

  lemma BestIsValue(h: Handler, m: Message)
    requires m.Promise? && !NilDereference(h, m) && CountsPromise(h, m)
    requires m.acceptedValue.Some? ==> m.acceptedValue.value != NO_VALUE
    requires h.bestID != 0 ==> h.bestValue != NO_VALUE
    ensures m.acceptedID > h.bestID ==> m.acceptedValue.Some? && m.acceptedValue.value != NO_VALUE
  {
  }

  lemma PromiseSound(c: Config, node: Node, sent: seq<Env>, n: Peer, mine: set<nat>, k: nat)
    requires Local(c, node, sent, n, mine)
    requires k < |sent| && sent[k].msg.Promise?
    ensures Sound(c, sent, n, Receive(ConfOf(c, n), n, node, sent[k].msg), mine + {k})
  {
    var m, o := sent[k].msg, sent[k].origin;
    assert Backed(c, sent, o, m);
    if m.dest == n {
      var j :| 0 <= j < |sent| && sent[j] == Env(n, Prepare(m.step, m.id, n));
      assert Behind(node.h, sent[j].msg);
      PromiseOutline(ConfOf(c, n), node.h, m);
      TallySound(c, node, sent, n, mine, k, Receive(ConfOf(c, n), n, node, m).node);
    }
  }

  lemma TallySound(c: Config, node: Node, sent: seq<Env>, n: Peer, mine: set<nat>, k: nat, r: Node)
    requires Local(c, node, sent, n, mine) && k < |sent| && !sent[k].msg.Prepare?
    requires r == node.(h := r.h, channel := r.channel, offers := r.offers)
    requires r.h == node.h.(promises := r.h.promises, bestID := r.h.bestID, bestValue := r.h.bestValue,
                            phase := r.h.phase)
    requires r.h.bestID != 0 ==> r.h.bestValue != NO_VALUE
    requires forall o :: o in r.offers ==> o.value != NO_VALUE
    ensures Sound(c, sent, n, Effect(r, None), mine + {k})
  {
    forall j | 0 <= j < |sent| && sent[j].origin == n ensures Behind(r.h, sent[j].msg) {
      assert Behind(node.h, sent[j].msg);
    }
  }

  /** A node that leaves its step forgets its ballots; what it sent stays behind it. */
  lemma RestartSound(c: Config, node: Node, sent: seq<Env>, n: Peer, mine: set<nat>, k: nat, r: Node, out: Message)
    requires Local(c, node, sent, n, mine) && k < |sent|
    requires Restarted(ConfOf(c, n), node.h, r.h)
    requires r == node.(h := r.h, channel := r.channel, decided := r.decided, chain := r.chain)
    requires out.TLC? && out.step == node.h.step
    ensures Sound(c, sent, n, Effect(r, Some(out)), mine + {k})
  {
    forall j | 0 <= j < |sent| && sent[j].origin == n
      ensures InOrder(sent[j].msg, out) && Behind(r.h, sent[j].msg)
    {
      assert Behind(node.h, sent[j].msg);
    }
  }

  lemma SameBallotsSound(c: Config, node: Node, sent: seq<Env>, n: Peer, mine: set<nat>, k: nat, r: Node)
    requires Local(c, node, sent, n, mine) && k < |sent|
    requires !sent[k].msg.Prepare?
    requires KeepsBallots(node.h, r.h)
    requires r == node.(h := r.h)
    ensures Sound(c, sent, n, Effect(r, None), mine + {k})
  {
    forall j | 0 <= j < |sent| && sent[j].origin == n ensures Behind(r.h, sent[j].msg) {
      assert Behind(node.h, sent[j].msg);
    }
  }

  lemma ReceiveSound(c: Config, node: Node, sent: seq<Env>, n: Peer, mine: set<nat>, k: nat)
    requires Local(c, node, sent, n, mine) && k < |sent|
    ensures Sound(c, sent, n, Receive(ConfOf(c, n), n, node, sent[k].msg), mine + {k})
  {
    var m, conf := sent[k].msg, ConfOf(c, n);
    match m
    case Prepare(_, _, _) => PrepareSound(c, node, sent, n, mine, k);
    case Promise(_, _, _, _, _) => PromiseSound(c, node, sent, n, mine, k);
    case Propose(_, _, _) => ProposeSound(c, node, sent, n, mine, k);
    case Accept(_, _, _) =>
      AcceptOutline(conf, node.h, m);
      var e := Receive(conf, n, node, m);
      if e.out.Some? {
        RestartSound(c, node, sent, n, mine, k, e.node, e.out.value);
      } else {
        SameBallotsSound(c, node, sent, n, mine, k, e.node);
      }
    case TLC(_, _) =>
      TLCOutline(conf, node.h, m);
      var e := Receive(conf, n, node, m);
      if e.out.Some? {
        RestartSound(c, node, sent, n, mine, k, e.node, e.out.value);
      } else {
        SameBallotsSound(c, node, sent, n, mine, k, e.node);
      }
  }

  // ---------------------------------------------------------------- the whole system

  lemma MineAfter(c: Config, s: Sys, a: Action)
    requires GoodConfig(c) && Enabled(c, s, a)
    ensures Apply(c, s, a).handled[a.n] == if a.Deliver? then s.handled[a.n] + {a.k} else s.handled[a.n]
    ensures forall m :: 0 <= m < |s.handled| && m != a.n ==> Apply(c, s, a).handled[m] == s.handled[m]
  {
  }

  lemma EffectSound(c: Config, s: Sys, a: Action)
    requires BaseInv(c, s) && Enabled(c, s, a)
    ensures Sound(c, s.sent, a.n, EffectOf(c, s, a), Apply(c, s, a).handled[a.n])
  {
    var node, mine := s.nodes[a.n], s.handled[a.n];
    assert NodeOK(c, node, s.sent, a.n, mine);
    MineAfter(c, s, a);
    match a
    case Begin(n) => BeginSound(c, node, s.sent, n, mine);
    case Attempt(n, v) => AttemptSound(c, node, s.sent, n, mine, v);
    case RetryPrepare(n) => RetrySound(c, node, s.sent, n, mine);
    case Suggest(n, v) => SuggestSound(c, node, s.sent, n, mine, v);
    case RetryPropose(n) => RetrySound(c, node, s.sent, n, mine);
    case Finish(n) => FinishSound(c, node, s.sent, n, mine);
    case Deliver(n, k) => ReceiveSound(c, node, s.sent, n, mine, k);
  }

  /** A message of n leaves the invariants of the other nodes alone. */
  lemma OthersKeep(c: Config, node: Node, sent: seq<Env>, m: Peer, mine: set<nat>, n: Peer, out: Option<Message>)
    requires NodeOK(c, node, sent, m, mine) && m != n
    ensures NodeOK(c, node, Post(sent, n, out), m, mine)
  {
    var sent' := Post(sent, n, out);
    forall k | 0 <= k < |sent'| && sent'[k].origin == m ensures k < |sent| && sent'[k] == sent[k] {
    }
  }

  lemma BackedGrows(c: Config, sent: seq<Env>, n: Peer, out: Option<Message>, o: Peer, m: Message)
    requires Backed(c, sent, o, m)
    ensures Backed(c, Post(sent, n, out), o, m)
  {
    if m.Accept? {
      var p :| Env(p, Propose(m.step, m.id, m.value)) in sent;
      assert Env(p, Propose(m.step, m.id, m.value)) in Post(sent, n, out);
    }
  }

  lemma HistoryKept(c: Config, sent: seq<Env>, n: Peer, out: Option<Message>)
    requires AllBacked(c, sent) && Ordered(sent) && n < |c.ids|
    requires out.Some? ==> Backed(c, Post(sent, n, out), n, out.value) && Follows(sent, n, out.value)
    ensures AllBacked(c, Post(sent, n, out)) && Ordered(Post(sent, n, out))
  {
    var sent' := Post(sent, n, out);
    forall k | 0 <= k < |sent'|
      ensures sent'[k].origin < |c.ids| && Backed(c, sent', sent'[k].origin, sent'[k].msg)
    {
      if k < |sent| {
        BackedGrows(c, sent, n, out, sent[k].origin, sent[k].msg);
      }
    }
  }

  lemma StepKeepsBase(c: Config, s: Sys, a: Action)
    requires BaseInv(c, s) && Enabled(c, s, a)
    ensures BaseInv(c, Apply(c, s, a))
  {
    var s', e := Apply(c, s, a), EffectOf(c, s, a);
    EffectSound(c, s, a);
    MineAfter(c, s, a);
    HistoryKept(c, s.sent, a.n, e.out);
    forall m | 0 <= m < |s'.nodes| ensures NodeOK(c, s'.nodes[m], s'.sent, m, s'.handled[m]) {
      if m != a.n {
        OthersKeep(c, s.nodes[m], s.sent, m, s.handled[m], a.n, e.out);
      }
    }
  }

  lemma InitBase(c: Config)
    requires GoodConfig(c)
    ensures BaseInv(c, Init(c))
  {
  }

  lemma {:induction false} RunKeepsBase(c: Config, s: Sys, run: seq<Action>)
    requires BaseInv(c, s) && Legal(c, s, run)
    ensures BaseInv(c, Exec(c, s, run))
    decreases |run|
  {
    if run != [] {
      StepKeepsBase(c, s, run[0]);
      RunKeepsBase(c, Apply(c, s, run[0]), run[1..]);
    }
  }

  lemma ReachableBase(c: Config, s: Sys)
    requires GoodConfig(c) && Reachable(c, s)
    ensures BaseInv(c, s)
  {
    var run :| Legal(c, Init(c), run) && s == Exec(c, Init(c), run);
    InitBase(c);
    RunKeepsBase(c, Init(c), run);
  }
}
