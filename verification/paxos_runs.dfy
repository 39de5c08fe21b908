/** Runs as the program has them. Packets are handled one at a time and `Broadcast` handles its
    own rumor before it returns, so a node has handled its own messages before the next packet,
    but for those of the broadcast its Tag goroutine is in the middle of. The messages of an
    origin are handled in order, the promise channel holds one value, and no value is created
    twice. */
module PaxosRuns {
  import opened Common
  import opened PaxosSpec
  import opened PaxosSystem
  import opened PaxosAgreement

  /** The gossip log hands over the messages of another origin in the order they were sent. */
  ghost predicate InOriginOrder(s: Sys, a: Action)
    requires a.n < |s.handled|
  {
    a.Deliver? && a.k < |s.sent| && s.sent[a.k].origin != a.n ==>
      forall j :: 0 <= j < a.k && s.sent[j].origin == s.sent[a.k].origin ==> j in s.handled[a.n]
  }

  /** What a broadcast brings with it: the message, and the answer of its own sender. */
  ghost predicate PartOf(broadcast: Message, m: Message) {
    m == broadcast
    || match broadcast
       case Prepare(step, id, _) => m.Promise? && m.step == step && m.id == id
       case Propose(step, id, _) => m.Accept? && m.step == step && m.id == id
       case _ => false
  }

  predicate Busy(thread: Thread) {
    thread.Preparing? || thread.Proposing?
  }

  /** Message j of node n belongs to the last broadcast of the node's Tag goroutine. */
  ghost predicate OfTag(s: Sys, n: Peer, j: nat)
    requires n < |s.nodes| && j < |s.sent|
  {
    var thread := s.nodes[n].thread;
    Busy(thread) && thread.at < |s.sent| && PartOf(s.sent[thread.at].msg, s.sent[j].msg)
  }

  /** Message j is n's own and n has not handled it. */
  ghost predicate Pending(s: Sys, n: Peer, j: nat)
    requires n < |s.handled|
  {
    j < |s.sent| && s.sent[j].origin == n && j !in s.handled[n]
  }

  /** Own messages first. The goroutine that handles packets has handled its own before the next
      packet, and the Tag goroutine its own before it goes on; a node's own TLC message changes
      nothing when it is handled, so it may wait. */
  ghost predicate OwnFirst(s: Sys, a: Action)
    requires a.n < |s.nodes| == |s.handled|
  {
    if !a.Deliver? then
      forall j: nat :: Pending(s, a.n, j) ==> !OfTag(s, a.n, j)
    else
      a.k < |s.sent| && s.sent[a.k].origin != a.n ==>
        forall j: nat :: Pending(s, a.n, j) ==> OfTag(s, a.n, j) || s.sent[j].msg.TLC?
  }

  /** The promise channel: a value is read from it, or from the channel of a step that was left,
      and no second one is put on it. */
  ghost predicate ChannelHeld(c: Config, s: Sys, a: Action)
    requires c.threshold >= 1 && Enabled(c, s, a)
  {
    var node := s.nodes[a.n];
    match a
    case Suggest(_, v) => node.channel == [v] || exists o :: o in node.offers && o.step < node.h.step && o.value == v
    case Deliver(_, _) => |EffectOf(c, s, a).node.channel| <= 1
    case _ => true
  }

  /** Each attempt makes a new value: its UniqID is unique. */
  ghost predicate FreshValue(s: Sys, a: Action) {
    a.Attempt? ==> forall n :: 0 <= n < |s.nodes| ==> a.value !in s.nodes[n].created
  }

  ghost predicate Realistic(c: Config, s: Sys, a: Action)
    requires c.threshold >= 1 && Enabled(c, s, a)
  {
    InOriginOrder(s, a) && OwnFirst(s, a) && ChannelHeld(c, s, a) && FreshValue(s, a)
  }

  ghost predicate RealisticRun(c: Config, s: Sys, run: seq<Action>)
    requires c.threshold >= 1 && Legal(c, s, run)
    decreases |run|
  {
    run == [] || (Realistic(c, s, run[0]) && RealisticRun(c, Apply(c, s, run[0]), run[1..]))
  }

  // ---------------------------------------------------------------- discipline

  /** What is asked of a run beyond what the handlers do: that a promise is counted only for the
      current ballot, and that a proposal carries what its own attempt was offered. */
  datatype Discipline = Discipline(timely: bool, offered: bool)

  const TIDY := Discipline(true, true)
  const FREE := Discipline(false, false)

  ghost predicate Timely(c: Config, s: Sys, a: Action)
    requires Enabled(c, s, a)
  {
    a.Deliver? ==>
      var m, h := s.sent[a.k].msg, s.nodes[a.n].h;
      m.Promise? && m.dest == a.n && CountsPromise(h, m) ==> m.id == h.paxosID
  }

  ghost predicate Offered(c: Config, s: Sys, a: Action)
    requires Enabled(c, s, a)
  {
    a.Suggest? ==>
      var h := s.nodes[a.n].h;
      Offer(h.step, h.paxosID, a.value) in s.nodes[a.n].offers
  }

  ghost predicate Keeps(c: Config, d: Discipline, s: Sys, a: Action)
    requires Enabled(c, s, a)
  {
    (d.timely ==> Timely(c, s, a)) && (d.offered ==> Offered(c, s, a))
  }

  ghost predicate KeepsRun(c: Config, d: Discipline, s: Sys, run: seq<Action>)
    requires c.threshold >= 1 && Legal(c, s, run)
    decreases |run|
  {
    run == [] || (Keeps(c, d, s, run[0]) && KeepsRun(c, d, Apply(c, s, run[0]), run[1..]))
  }

  /** Both together are what agreement with unanimous thresholds needs. */
  lemma {:induction false} TidyIsDisciplined(c: Config, s: Sys, run: seq<Action>)
    requires c.threshold >= 1 && Legal(c, s, run)
    ensures KeepsRun(c, TIDY, s, run) <==> DisciplinedRun(c, s, run)
    decreases |run|
  {
    if run != [] {
      TidyIsDisciplined(c, Apply(c, s, run[0]), run[1..]);
    }
  }

  // ---------------------------------------------------------------- proper runs

  /** A run of the program that keeps the discipline d. */
  ghost predicate Proper(c: Config, d: Discipline, s: Sys, run: seq<Action>)
    requires c.threshold >= 1
  {
    Legal(c, s, run) && RealisticRun(c, s, run) && KeepsRun(c, d, s, run)
  }

  /** A state that a proper run reaches. */
  ghost predicate Visited(c: Config, d: Discipline, s: Sys)
    requires c.threshold >= 1
  {
    exists run :: Proper(c, d, Init(c), run) && s == Exec(c, Init(c), run)
  }

  lemma InitVisited(c: Config, d: Discipline)
    requires c.threshold >= 1
    ensures Visited(c, d, Init(c))
  {
    assert Proper(c, d, Init(c), []);
  }

  lemma {:induction false} OneMore(c: Config, d: Discipline, s: Sys, run: seq<Action>, a: Action)
    requires c.threshold >= 1 && Proper(c, d, s, run)
    requires var t := Exec(c, s, run); Enabled(c, t, a) && Realistic(c, t, a) && Keeps(c, d, t, a)
    ensures Proper(c, d, s, run + [a])
    ensures Exec(c, s, run + [a]) == Apply(c, Exec(c, s, run), a)
    decreases |run|
  {
    hide Enabled, Realistic, Keeps, Apply;
    if run == [] {
      assert ([] + [a])[1..] == [];
      assert Proper(c, d, Apply(c, s, a), []);
    } else {
      assert (run + [a])[1..] == run[1..] + [a];
      OneMore(c, d, Apply(c, s, run[0]), run[1..], a);
    }
  }

  lemma Onward(c: Config, d: Discipline, s: Sys, a: Action)
    requires c.threshold >= 1 && Visited(c, d, s)
    requires Enabled(c, s, a) && Realistic(c, s, a) && Keeps(c, d, s, a)
    ensures Visited(c, d, Apply(c, s, a))
  {
    hide Enabled, Realistic, Keeps, Apply;
    var run :| Proper(c, d, Init(c), run) && s == Exec(c, Init(c), run);
    OneMore(c, d, Init(c), run, a);
  }

  lemma RunTo(c: Config, d: Discipline, s: Sys) returns (run: seq<Action>)
    requires c.threshold >= 1 && Visited(c, d, s)
    ensures Proper(c, d, Init(c), run) && s == Exec(c, Init(c), run)
  {
    run :| Proper(c, d, Init(c), run) && s == Exec(c, Init(c), run);
  }
}
