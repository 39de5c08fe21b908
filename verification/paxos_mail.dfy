/** Scripted runs, seen from those who take part: each has a node, and for every origin the
    messages it still has to handle. Moves of this picture are moves of proper runs. */
module PaxosMail {
  import opened Common
  import opened Blockchain
  import opened PaxosSpec
  import opened PaxosSystem
  import opened PaxosRuns

  /** Who takes part, in the order of their parts, and what discipline they keep. */
  datatype Cast = Cast(c: Config, who: seq<Peer>, d: Discipline)

  ghost predicate GoodCast(p: Cast) {
    && p.c.threshold >= 1 && GoodConfig(p.c) && Distinct(p.who)
    && forall r :: 0 <= r < |p.who| ==> p.who[r] < |p.c.ids|
  }

  // ---------------------------------------------------------------- queues

  /** The messages of q that are not in `done`, oldest first. */
  ghost function Queue(sent: seq<Env>, done: set<nat>, q: Peer): seq<Message> {
    if sent == [] then []
    else
      var k := |sent| - 1;
      Queue(sent[..k], done, q) + if sent[k].origin == q && k !in done then [sent[k].msg] else []
  }

  function Without<T>(s: seq<T>, i: nat): seq<T>
    requires i < |s|
  {
    if i == 0 then s[1..] else s[..i] + s[i + 1..]
  }

  lemma {:induction false} QueueElsewhere(sent: seq<Env>, done: set<nat>, k: nat, q: Peer)
    requires k < |sent| ==> sent[k].origin != q
    ensures Queue(sent, done + {k}, q) == Queue(sent, done, q)
    decreases |sent|
  {
    if sent != [] {
      QueueElsewhere(sent[..|sent| - 1], done, k, q);
    }
  }

  lemma {:induction false} InQueue(sent: seq<Env>, done: set<nat>, q: Peer, j: nat)
    requires j < |sent| && sent[j].origin == q && j !in done
    ensures sent[j].msg in Queue(sent, done, q)
    decreases |sent|
  {
    if j < |sent| - 1 {
      InQueue(sent[..|sent| - 1], done, q, j);
    }
  }

  /** The i-th message of a queue, and what handling it leaves. */
  lemma {:induction false} Find(sent: seq<Env>, done: set<nat>, q: Peer, i: nat) returns (k: nat)
    requires i < |Queue(sent, done, q)|
    ensures k < |sent| && sent[k] == Env(q, Queue(sent, done, q)[i]) && k !in done
    ensures Queue(sent, done + {k}, q) == Without(Queue(sent, done, q), i)
    ensures i == 0 ==> forall j :: 0 <= j < k && sent[j].origin == q ==> j in done
    decreases |sent|
  {
    var last := |sent| - 1;
    var front := Queue(sent[..last], done, q);
    if i < |front| {
      k := Find(sent[..last], done, q, i);
      assert Without(front, i) + Queue(sent, done, q)[|front|..] == Without(Queue(sent, done, q), i);
    } else {
      k := last;
      QueueElsewhere(sent[..last], done, k, q);
      forall j | i == 0 && 0 <= j < k && sent[j].origin == q ensures j in done {
        if j !in done {
          InQueue(sent[..last], done, q, j);
        }
      }
    }
  }

  // ---------------------------------------------------------------- the picture

  /** Of part r: its node (the position of its last broadcast left out), that broadcast, and
      what it has to handle of part q. */
  datatype World = World(node: nat -> Node, tag: nat -> Message, mail: (nat, nat) -> seq<Message>)

  function Unplaced(thread: Thread): Thread {
    match thread
    case Preparing(_) => Preparing(0)
    case Proposing(_) => Proposing(0)
    case _ => thread
  }

  function Face(node: Node): Node {
    node.(thread := Unplaced(node.thread))
  }

  ghost predicate Seated(p: Cast, x: World, s: Sys, r: nat)
    requires r < |p.who| && p.who[r] < |s.nodes| == |s.handled|
  {
    var n := p.who[r];
    var thread := s.nodes[n].thread;
    && x.node(r) == Face(s.nodes[n])
    && (Busy(thread) ==> thread.at < |s.sent| && s.sent[thread.at] == Env(n, x.tag(r)))
    && (forall k :: k in s.handled[n] ==> k < |s.sent|)
    && forall q :: 0 <= q < |p.who| ==> x.mail(r, q) == Queue(s.sent, s.handled[n], p.who[q])
  }

  ghost predicate Holds(p: Cast, x: World, s: Sys)
    requires GoodCast(p)
  {
    && |s.nodes| == |s.handled| == |p.c.ids|
    && (forall r :: 0 <= r < |p.who| ==> Seated(p, x, s, r))
    && forall n :: 0 <= n < |s.nodes| && n !in p.who ==> s.nodes[n].created == {}
  }

  /** A proper run leads there. */
  ghost predicate Reached(p: Cast, x: World)
    requires GoodCast(p)
  {
    exists s :: Visited(p.c, p.d, s) && Holds(p, x, s)
  }

  /** The same picture, part by part. */
  ghost predicate Same(p: Cast, x: World, y: World) {
    forall r :: 0 <= r < |p.who| ==>
      && y.node(r) == x.node(r) && y.tag(r) == x.tag(r)
      && forall q :: 0 <= q < |p.who| ==> y.mail(r, q) == x.mail(r, q)
  }

  lemma SameReached(p: Cast, x: World, y: World)
    requires GoodCast(p) && Reached(p, x) && Same(p, x, y)
    ensures Reached(p, y)
  {
    hide Visited, Queue, Face, GoodConfig;
    var s :| Visited(p.c, p.d, s) && Holds(p, x, s);
    forall r | 0 <= r < |p.who| ensures Seated(p, y, s, r) {
      assert Seated(p, x, s, r);
    }
    assert Holds(p, y, s);
  }

  function Post1(queue: seq<Message>, out: Option<Message>): seq<Message> {
    if out.Some? then queue + [out.value] else queue
  }

  /** Part r takes message i of part q from its queue. */
  function Taken(x: World, r: nat, q: nat, i: nat): World
    requires i < |x.mail(r, q)|
  {
    var rest := Without(x.mail(r, q), i);
    x.(mail := (k: nat, l: nat) => if k == r && l == q then rest else x.mail(k, l))
  }

  /** Part r changes its node and says `out`. */
  function Moved(x: World, r: nat, node: Node, tag: Message, out: Option<Message>): World {
    World((k: nat) => if k == r then node else x.node(k),
          (k: nat) => if k == r then tag else x.tag(k),
          (k: nat, l: nat) => if l == r then Post1(x.mail(k, l), out) else x.mail(k, l))
  }

  ghost predicate NodesAfter(p: Cast, s: Sys, s': Sys, r: nat, out: Option<Message>)
    requires r < |p.who|
  {
    var n := p.who[r];
    && n < |s.nodes| == |s'.nodes| == |s.handled| == |s'.handled|
    && s'.sent == Post(s.sent, n, out)
    && (forall m :: 0 <= m < |s.nodes| && m != n ==> s'.nodes[m] == s.nodes[m] && s'.handled[m] == s.handled[m])
  }

  lemma QueueAfter(sent: seq<Env>, done: set<nat>, q: Peer, n: Peer, out: Option<Message>)
    requires forall k :: k in done ==> k < |sent|
    ensures Queue(Post(sent, n, out), done, q)
            == if q == n then Post1(Queue(sent, done, q), out) else Queue(sent, done, q)
  {
    if out.Some? {
      assert (sent + [Env(n, out.value)])[..|sent|] == sent;
    }
  }

  /** Who did not move keeps its seat. */
  lemma StaysSeated(p: Cast, x: World, s: Sys, s': Sys, r: nat, node: Node, tag: Message, out: Option<Message>, k: nat)
    requires GoodCast(p) && r < |p.who| && k < |p.who| && k != r
    requires NodesAfter(p, s, s', r, out) && p.who[k] < |s.nodes| && Seated(p, x, s, k)
    ensures Seated(p, Moved(x, r, node, tag, out), s', k)
  {
    hide Queue, Face, GoodConfig;
    var n := p.who[k];
    assert n != p.who[r];
    assert s.sent <= s'.sent;
    forall q | 0 <= q < |p.who|
      ensures Moved(x, r, node, tag, out).mail(k, q) == Queue(s'.sent, s'.handled[n], p.who[q])
    {
      QueueAfter(s.sent, s.handled[n], p.who[q], p.who[r], out);
      assert p.who[q] == p.who[r] ==> q == r;
    }
  }

  lemma MovedHolds(p: Cast, x: World, s: Sys, s': Sys, r: nat, node: Node, tag: Message, out: Option<Message>)
    requires GoodCast(p) && Holds(p, x, s) && r < |p.who| && NodesAfter(p, s, s', r, out)
    requires Seated(p, Moved(x, r, node, tag, out), s', r)
    ensures Holds(p, Moved(x, r, node, tag, out), s')
  {
    hide Queue, Face, GoodConfig, Seated;
    forall k | 0 <= k < |p.who| ensures Seated(p, Moved(x, r, node, tag, out), s', k) {
      if k != r {
        assert Seated(p, x, s, k);
        StaysSeated(p, x, s, s', r, node, tag, out, k);
      }
    }
  }

  // ---------------------------------------------------------------- hearing

  /** Its own messages do not keep the part from the next packet. */
  ghost predicate Attentive(x: World, r: nat) {
    forall m :: m in x.mail(r, r) ==> (Busy(x.node(r).thread) && PartOf(x.tag(r), m)) || m.TLC?
  }

  ghost predicate CountsOwn(h: Handler, me: Peer, m: Message) {
    m.Promise? && m.dest == me && CountsPromise(h, m) ==> m.id == h.paxosID
  }

  /** Part r may handle message i of part q, and this is what it does. */
  ghost predicate Hearing(p: Cast, x: World, r: nat, q: nat, i: nat, e: Effect)
    requires GoodCast(p)
  {
    && r < |p.who| && q < |p.who| && i < |x.mail(r, q)|
    && (q != r ==> i == 0 && Attentive(x, r))
    && !x.node(r).crashed
    && Receive(ConfOf(p.c, p.who[r]), p.who[r], x.node(r), x.mail(r, q)[i]) == e
    && |e.node.channel| <= 1
    && (p.d.timely ==> CountsOwn(x.node(r).h, p.who[r], x.mail(r, q)[i]))
  }

  /** The callbacks do not look at the Tag goroutine. */
  lemma ReceiveFace(c: Conf, me: Peer, node: Node, m: Message)
    requires c.threshold >= 1
    ensures var e := Receive(c, me, node, m);
      Receive(c, me, Face(node), m) == Effect(Face(e.node), e.out) && e.node.thread == node.thread
  {
    hide RespondToPrepare, RespondToPropose, RespondToAccept, RespondToTLC, RespondToPromise, Stored;
  }

  lemma DeliverMay(p: Cast, x: World, s: Sys, r: nat, q: nat, i: nat, e: Effect, k: nat)
    requires GoodCast(p) && Holds(p, x, s) && Hearing(p, x, r, q, i, e)
    requires k < |s.sent| && s.sent[k] == Env(p.who[q], x.mail(r, q)[i]) && k !in s.handled[p.who[r]]
    requires i == 0 ==> forall j :: 0 <= j < k && s.sent[j].origin == p.who[q] ==> j in s.handled[p.who[r]]
    ensures var n := p.who[r];
      && Enabled(p.c, s, Deliver(n, k)) && Realistic(p.c, s, Deliver(n, k))
      && Keeps(p.c, p.d, s, Deliver(n, k))
      && e == Effect(Face(EffectOf(p.c, s, Deliver(n, k)).node), EffectOf(p.c, s, Deliver(n, k)).out)
      && EffectOf(p.c, s, Deliver(n, k)).node.thread == s.nodes[n].thread
  {
    hide Receive, Queue, GoodConfig;
    var n := p.who[r];
    assert Seated(p, x, s, r);
    ReceiveFace(ConfOf(p.c, n), n, s.nodes[n], s.sent[k].msg);
    assert p.who[q] == n ==> q == r;
    if q != r {
      forall j: nat | Pending(s, n, j) ensures OfTag(s, n, j) || s.sent[j].msg.TLC? {
        InQueue(s.sent, s.handled[n], n, j);
        assert s.sent[j].msg in x.mail(r, r);
      }
    }
  }

  /** Part r handles message i of what it still has from part q. */
  lemma Hear(p: Cast, x: World, r: nat, q: nat, i: nat, e: Effect)
    requires GoodCast(p) && Reached(p, x) && Hearing(p, x, r, q, i, e)
    ensures Reached(p, Moved(Taken(x, r, q, i), r, e.node, x.tag(r), e.out))
  {
    hide Receive, Queue, GoodConfig, Visited, Enabled, Realistic, Keeps, Face;
    var s :| Visited(p.c, p.d, s) && Holds(p, x, s);
    var n := p.who[r];
    assert Seated(p, x, s, r);
    var k := HearsWhich(p, x, s, r, q, i, e);
    var a := Deliver(n, k);
    DeliverMay(p, x, s, r, q, i, e, k);
    Onward(p.c, p.d, s, a);
    HeardHolds(p, x, s, r, q, i, e, k);
  }

  lemma HearsWhich(p: Cast, x: World, s: Sys, r: nat, q: nat, i: nat, e: Effect) returns (k: nat)
    requires GoodCast(p) && Holds(p, x, s) && Hearing(p, x, r, q, i, e)
    ensures k < |s.sent| && s.sent[k] == Env(p.who[q], x.mail(r, q)[i]) && k !in s.handled[p.who[r]]
    ensures i == 0 ==> forall j :: 0 <= j < k && s.sent[j].origin == p.who[q] ==> j in s.handled[p.who[r]]
    ensures Queue(s.sent, s.handled[p.who[r]] + {k}, p.who[q]) == Without(x.mail(r, q), i)
  {
    hide Receive, Queue, GoodConfig, Face;
    assert Seated(p, x, s, r);
    k := Find(s.sent, s.handled[p.who[r]], p.who[q], i);
  }

  lemma HeardHolds(p: Cast, x: World, s: Sys, r: nat, q: nat, i: nat, e: Effect, k: nat)
    requires GoodCast(p) && Holds(p, x, s) && Hearing(p, x, r, q, i, e)
    requires k < |s.sent| && s.sent[k] == Env(p.who[q], x.mail(r, q)[i])
    requires Queue(s.sent, s.handled[p.who[r]] + {k}, p.who[q]) == Without(x.mail(r, q), i)
    requires Enabled(p.c, s, Deliver(p.who[r], k))
    requires var n := p.who[r];
      && e == Effect(Face(EffectOf(p.c, s, Deliver(n, k)).node), EffectOf(p.c, s, Deliver(n, k)).out)
      && EffectOf(p.c, s, Deliver(n, k)).node.thread == s.nodes[n].thread
    ensures Holds(p, Moved(Taken(x, r, q, i), r, e.node, x.tag(r), e.out), Apply(p.c, s, Deliver(p.who[r], k)))
  {
    hide Receive, Queue, GoodConfig, EffectOf, Enabled;
    var n := p.who[r];
    var s' := Apply(p.c, s, Deliver(n, k));
    var x1 := Taken(x, r, q, i);
    var s1 := s.(handled := s.handled[n := s.handled[n] + {k}]);
    TakenHolds(p, x, s, r, q, i, k);
    var y := Moved(x1, r, e.node, x.tag(r), e.out);
    assert Seated(p, y, s', r) by {
      assert Seated(p, x1, s1, r);
      assert s.sent <= s'.sent;
      forall l | 0 <= l < |p.who| ensures y.mail(r, l) == Queue(s'.sent, s'.handled[n], p.who[l]) {
        QueueAfter(s.sent, s1.handled[n], p.who[l], n, e.out);
        assert p.who[l] == n ==> l == r;
      }
    }
    MovedHolds(p, x1, s1, s', r, e.node, x.tag(r), e.out);
  }

  lemma TakenHolds(p: Cast, x: World, s: Sys, r: nat, q: nat, i: nat, k: nat)
    requires GoodCast(p) && Holds(p, x, s) && r < |p.who| && q < |p.who| && i < |x.mail(r, q)|
    requires k < |s.sent| && s.sent[k].origin == p.who[q]
    requires Queue(s.sent, s.handled[p.who[r]] + {k}, p.who[q]) == Without(x.mail(r, q), i)
    ensures var n := p.who[r];
      Holds(p, Taken(x, r, q, i), s.(handled := s.handled[n := s.handled[n] + {k}]))
  {
    hide Queue, GoodConfig, Face;
    var n := p.who[r];
    var s1 := s.(handled := s.handled[n := s.handled[n] + {k}]);
    var y := Taken(x, r, q, i);
    forall l | 0 <= l < |p.who| ensures Seated(p, y, s1, l) {
      assert Seated(p, x, s, l);
      assert p.who[l] == n ==> l == r;
      if l == r {
        forall j | 0 <= j < |p.who| ensures y.mail(l, j) == Queue(s1.sent, s1.handled[n], p.who[j]) {
          assert p.who[j] == p.who[q] ==> j == q;
          if j != q {
            QueueElsewhere(s.sent, s.handled[n], k, p.who[j]);
          }
        }
      }
    }
  }

  // ---------------------------------------------------------------- acting

  /** What the Tag goroutine of part r may do, seen from its own node. */
  ghost predicate MayAct(p: Cast, x: World, r: nat, a: Action)
    requires GoodCast(p)
  {
    && r < |p.who| && a.n == p.who[r]
    && var node := x.node(r);
    && !node.crashed && x.mail(r, r) == []
    && match a
       case Begin(_) => node.thread.Resting? && !node.h.running
       case Attempt(_, v) => && node.thread.Ready? && v != NO_VALUE
                             && forall k :: 0 <= k < |p.who| ==> v !in x.node(k).created
       case RetryPrepare(_) => node.thread.Preparing?
       case Suggest(_, v) => && node.thread.Preparing? && node.channel == [v]
                             && (exists o :: o in node.offers && o.value == v)
                             && (p.d.offered ==> Offer(node.h.step, node.h.paxosID, v) in node.offers)
       case RetryPropose(_) => node.thread.Proposing?
       case Finish(_) => node.thread.Proposing?
       case Deliver(_, _) => false
  }

  ghost function Acting(c: Conf, from: Node, a: Action): Effect {
    match a
    case Begin(_) => Effect(from.(h := from.h.(running := true), thread := Ready), None)
    case Attempt(n, v) =>
      var r := CreatePrepare(from.h, n, v);
      Effect(from.(h := r.h, thread := Preparing(0), created := from.created + {v}), r.out)
    case RetryPrepare(n) => Effect(from.(h := NextID(c, from.h), thread := Ready), None)
    case Suggest(_, v) =>
      Effect(from.(thread := Proposing(0), channel := if from.channel == [] then [] else from.channel[1..]),
             Some(CreatePropose(from.h, v)))
    case RetryPropose(_) => Effect(from.(h := NextID(c, from.h), thread := Ready), None)
    case _ => Effect(from.(thread := Resting), None)
  }

  /** A part that has handled all its own has seen its last broadcast return. */
  lemma NothingPending(p: Cast, x: World, s: Sys, r: nat)
    requires GoodCast(p) && Holds(p, x, s) && r < |p.who| && x.mail(r, r) == []
    ensures var n := p.who[r]; forall j: nat :: !Pending(s, n, j)
    ensures var n := p.who[r]; Busy(s.nodes[n].thread) ==> Waited(s, n, s.nodes[n].thread.at)
  {
    hide Queue, GoodConfig, Face;
    var n := p.who[r];
    assert Seated(p, x, s, r);
    forall j: nat ensures !Pending(s, n, j) {
      if Pending(s, n, j) {
        InQueue(s.sent, s.handled[n], n, j);
      }
    }
    if Busy(s.nodes[n].thread) {
      assert !Pending(s, n, s.nodes[n].thread.at);
    }
  }

  lemma ActingIs(p: Cast, x: World, s: Sys, r: nat, a: Action)
    requires GoodCast(p) && Holds(p, x, s) && MayAct(p, x, r, a)
    ensures Enabled(p.c, s, a) && Realistic(p.c, s, a) && Keeps(p.c, p.d, s, a)
    ensures var e, f := Acting(ConfOf(p.c, p.who[r]), x.node(r), a), EffectOf(p.c, s, a);
      && f.out == e.out && Face(f.node) == e.node
      && (Busy(f.node.thread) ==> f.out.Some? && f.node.thread.at == |s.sent|)
  {
    hide Receive, Queue, GoodConfig;
    var n := p.who[r];
    assert Seated(p, x, s, r);
    NothingPending(p, x, s, r);
    if a.Attempt? {
      forall m | 0 <= m < |s.nodes| ensures a.value !in s.nodes[m].created {
        if m in p.who {
          var k :| 0 <= k < |p.who| && p.who[k] == m;
          assert Seated(p, x, s, k);
        }
      }
    }
  }

  /** Part r takes a step of its own. */
  lemma Act(p: Cast, x: World, r: nat, a: Action)
    requires GoodCast(p) && Reached(p, x) && MayAct(p, x, r, a)
    ensures var e := Acting(ConfOf(p.c, p.who[r]), x.node(r), a);
      Reached(p, Moved(x, r, e.node, if e.out.Some? then e.out.value else x.tag(r), e.out))
  {
    hide Queue, GoodConfig, Visited, Enabled, Realistic, Keeps, EffectOf, Acting;
    var s :| Visited(p.c, p.d, s) && Holds(p, x, s);
    ActingIs(p, x, s, r, a);
    Onward(p.c, p.d, s, a);
    ActedHolds(p, x, s, r, a);
  }

  lemma ActedHolds(p: Cast, x: World, s: Sys, r: nat, a: Action)
    requires GoodCast(p) && Holds(p, x, s) && MayAct(p, x, r, a) && Enabled(p.c, s, a)
    requires var e, f := Acting(ConfOf(p.c, p.who[r]), x.node(r), a), EffectOf(p.c, s, a);
      && f.out == e.out && Face(f.node) == e.node
      && (Busy(f.node.thread) ==> f.out.Some? && f.node.thread.at == |s.sent|)
    ensures var e := Acting(ConfOf(p.c, p.who[r]), x.node(r), a);
      Holds(p, Moved(x, r, e.node, if e.out.Some? then e.out.value else x.tag(r), e.out), Apply(p.c, s, a))
  {
    hide Queue, GoodConfig, Enabled, EffectOf, Acting;
    var e := Acting(ConfOf(p.c, p.who[r]), x.node(r), a);
    var n, s', tag := p.who[r], Apply(p.c, s, a), if e.out.Some? then e.out.value else x.tag(r);
    var y := Moved(x, r, e.node, tag, e.out);
    assert Seated(p, y, s', r) by {
      assert Seated(p, x, s, r);
      forall l | 0 <= l < |p.who| ensures y.mail(r, l) == Queue(s'.sent, s'.handled[n], p.who[l]) {
        QueueAfter(s.sent, s.handled[n], p.who[l], n, e.out);
        assert p.who[l] == n ==> l == r;
      }
    }
    MovedHolds(p, x, s, s', r, e.node, tag, e.out);
  }
}
