/** The peers of a run: every lock-held method is one atomic step, a broadcast message is
    put in the network when it is created, and each node handles each message at most once,
    in any order (`Stack` proves that a Paxos handler over a rumor log runs this way). One Tag runs at a
    time per node; timers and scheduling are the choice of the next action. */
module PaxosSystem {
  import opened Common
  import opened Text
  import opened Blockchain
  import opened PaxosSpec

  /** `ids[n]` is the PaxosID of node n. */
  datatype Config = Config(ids: seq<nat>, totalPeers: nat, threshold: nat, hash: Bytes -> Bytes)

  ghost predicate GoodConfig(c: Config) {
    && c.threshold >= 1
    && |c.ids| <= c.totalPeers
    && (forall n :: 0 <= n < |c.ids| ==> 1 <= c.ids[n] <= c.totalPeers)
    && (forall m, n :: 0 <= m < n < |c.ids| ==> c.ids[m] != c.ids[n])
  }

  function ConfOf(c: Config, n: Peer): Conf
    requires n < |c.ids|
  {
    Conf(c.ids[n], c.totalPeers, c.threshold, c.hash)
  }

  datatype Env = Env(origin: Peer, msg: Message)

  /** Where the goroutine that runs Tag stands. `Preparing(k)` and `Proposing(k)`: it has
      broadcast message k and waits for its channel or its ticker. */
  datatype Thread = Resting | Ready | Preparing(at: nat) | Proposing(at: nat)

  /** A value put on the promise channel, with the step and ballot of the attempt. */
  datatype Offer = Offer(step: nat, id: nat, value: PaxosValue)
  datatype Decision = Decision(step: nat, value: PaxosValue)

  /** A node: its handler, the goroutine that runs Tag, and the values that wait in the promise
      channel; with its history: what it ever offered, the values it created, the steps its
      accept counters decided, and the blocks it stored, oldest first. */
  datatype Node = Node(h: Handler, thread: Thread, channel: seq<PaxosValue>, offers: set<Offer>,
                       created: set<PaxosValue>, decided: set<Decision>, chain: seq<Block>, crashed: bool)

  datatype Sys = Sys(nodes: seq<Node>, sent: seq<Env>, handled: seq<set<nat>>)

  function NewNode(c: Config, n: Peer): Node
    requires n < |c.ids|
  {
    Node(NewHandler(ConfOf(c, n)), Resting, [], {}, {}, {}, [], false)
  }

  function Init(c: Config): Sys {
    Sys(seq(|c.ids|, n requires 0 <= n < |c.ids| => NewNode(c, n)), [], seq(|c.ids|, _ => {}))
  }

  datatype Action =
    | Begin(n: Peer)                      // Tag got the instance: initPaxosInstance returned idle
    | Attempt(n: Peer, value: PaxosValue) // createPrepareMessage and its broadcast
    | RetryPrepare(n: Peer)               // the ticker of phase 1: nextID
    | Suggest(n: Peer, value: PaxosValue) // a value read from a promise channel: createProposeMessage
    | RetryPropose(n: Peer)               // the ticker of phase 2: nextID, after getFinalValue found none
    | Finish(n: Peer)                     // Tag returns, or restarts
    | Deliver(n: Peer, k: nat)            // node n handles message k

  /** The state of a node after an action, and the message it broadcasts. */
  datatype Effect = Effect(node: Node, out: Option<Message>)

  /** The callbacks of the five message types. */
  ghost function Receive(c: Conf, me: Peer, node: Node, m: Message): Effect
    requires c.threshold >= 1
  {
    match m
    case Prepare(_, _, _) =>
      var r := RespondToPrepare(node.h, m);
      Effect(node.(h := r.h), r.out)
    case Promise(_, _, _, _, _) =>
      if m.dest != me then Effect(node, None)
      else if NilDereference(node.h, m) then Effect(node.(crashed := true), None)
      else
        var t := RespondToPromise(c, node.h, m);
        Effect(node.(h := t.h,
                     channel := if t.offer.Some? then node.channel + [t.offer.value] else node.channel,
                     offers := if t.offer.Some?
                               then node.offers + {Offer(node.h.step, node.h.paxosID, t.offer.value)}
                               else node.offers), None)
    case Propose(_, _, _) =>
      var r := RespondToPropose(node.h, m);
      Effect(node.(h := r.h), r.out)
    case Accept(_, _, _) =>
      var r := RespondToAccept(c, node.h, m);
      if r.out.None? then Effect(node.(h := r.h), None)
      else
        Effect(node.(h := r.h, channel := [],
                     decided := node.decided + {Decision(m.step, m.value)},
                     chain := node.chain + Stored(c, CountAccept(node.h, m.value), NextBlock(c, node.h, m.value))),
                           r.out)
    case TLC(_, _) =>
      var r := RespondToTLC(c, node.h, m);
      if r.out.None? then Effect(node.(h := r.h), None)
      else Effect(node.(h := r.h, channel := [], chain := node.chain + Stored(c, FileTLC(node.h, m), m.block)), r.out)
  }

  /** The broadcast of message `at` has returned: the node has handled it itself. */
  predicate Waited(s: Sys, n: Peer, at: nat)
    requires n < |s.handled|
  {
    at in s.handled[n]
  }

  predicate Enabled(c: Config, s: Sys, a: Action) {
    && a.n < |s.nodes| == |s.handled| == |c.ids|
    && var node := s.nodes[a.n];
    && !node.crashed
    && match a
       case Begin(n) => node.thread.Resting? && !node.h.running
       case Attempt(n, v) => node.thread.Ready? && v != NO_VALUE
       case RetryPrepare(n) => node.thread.Preparing? && Waited(s, n, node.thread.at)
       case Suggest(n, v) => && node.thread.Preparing? && Waited(s, n, node.thread.at)
                             && exists o :: o in node.offers && o.value == v
       case RetryPropose(n) => node.thread.Proposing? && Waited(s, n, node.thread.at)
       case Finish(n) => node.thread.Ready? || (node.thread.Proposing? && Waited(s, n, node.thread.at))
       case Deliver(n, k) => k < |s.sent| && k !in s.handled[n]
  }

  /** What an enabled action does to its node; `k` is the position its message will take. */
  ghost function EffectOf(c: Config, s: Sys, a: Action): Effect
    requires c.threshold >= 1 && Enabled(c, s, a)
  {
    var node, conf, k := s.nodes[a.n], ConfOf(c, a.n), |s.sent|;
    match a
    case Begin(n) => Effect(node.(h := node.h.(running := true), thread := Ready), None)
    case Attempt(n, v) =>
      var r := CreatePrepare(node.h, n, v);
      Effect(node.(h := r.h, thread := Preparing(k), created := node.created + {v}), r.out)
    case RetryPrepare(n) => Effect(node.(h := NextID(conf, node.h), thread := Ready), None)
    case Suggest(n, v) =>
      Effect(node.(thread := Proposing(k), channel := if node.channel == [] then [] else node.channel[1..]),
             Some(CreatePropose(node.h, v)))
    case RetryPropose(n) => Effect(node.(h := NextID(conf, node.h), thread := Ready), None)
    case Finish(n) => Effect(node.(thread := Resting), None)
    case Deliver(n, k) => Receive(conf, n, node, s.sent[k].msg)
  }

  function Post(sent: seq<Env>, n: Peer, out: Option<Message>): seq<Env> {
    if out.Some? then sent + [Env(n, out.value)] else sent
  }

  ghost function Apply(c: Config, s: Sys, a: Action): Sys
    requires c.threshold >= 1 && Enabled(c, s, a)
  {
    var e := EffectOf(c, s, a);
    Sys(s.nodes[a.n := e.node], Post(s.sent, a.n, e.out),
        if a.Deliver? then s.handled[a.n := s.handled[a.n] + {a.k}] else s.handled)
  }

  /** A run: every action is enabled where it is taken. */
  ghost predicate Legal(c: Config, s: Sys, run: seq<Action>)
    requires c.threshold >= 1
    decreases |run|
  {
    run == [] || (Enabled(c, s, run[0]) && Legal(c, Apply(c, s, run[0]), run[1..]))
  }

  ghost function Exec(c: Config, s: Sys, run: seq<Action>): Sys
    requires c.threshold >= 1 && Legal(c, s, run)
    decreases |run|
  {
    if run == [] then s else Exec(c, Apply(c, s, run[0]), run[1..])
  }

  ghost predicate Reachable(c: Config, s: Sys)
    requires c.threshold >= 1
  {
    exists run :: Legal(c, Init(c), run) && s == Exec(c, Init(c), run)
  }
}
