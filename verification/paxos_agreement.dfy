/** Agreement with unanimous thresholds: at most one value is ever accepted in a step. */
module PaxosAgreement {
  import opened Common
  import opened Text
  import opened Blockchain
  import opened PaxosSpec
  import opened PaxosSystem
  import opened PaxosInvariants
  import opened PaxosSteps

  // ---------------------------------------------------------------- hypotheses

  /** The threshold asks for every peer. */
  ghost predicate Unanimous(c: Config) {
    c.threshold >= |c.ids|
  }

  /** Two things the handlers do not check for themselves: a promise that is counted answers
      the current ballot, and a proposal carries the value its own attempt put on the
      promise channel. */
  ghost predicate Disciplined(c: Config, s: Sys, a: Action)
    requires Enabled(c, s, a)
  {
    var h := s.nodes[a.n].h;
    match a
    case Suggest(n, v) => Offer(h.step, h.paxosID, v) in s.nodes[n].offers
    case Deliver(n, k) =>
      var m := s.sent[k].msg;
      m.Promise? && m.dest == n && CountsPromise(h, m) ==> m.id == h.paxosID
    case _ => true
  }

  ghost predicate DisciplinedRun(c: Config, s: Sys, run: seq<Action>)
    requires c.threshold >= 1 && Legal(c, s, run)
    decreases |run|
  {
    run == [] || (Disciplined(c, s, run[0]) && DisciplinedRun(c, Apply(c, s, run[0]), run[1..]))
  }

  // ---------------------------------------------------------------- votes

  ghost predicate IsVote(m: Message, n: Peer, step: nat, id: nat) {
    m.Promise? && m.dest == n && m.step == step && m.id == id
  }

  /** The promises for ballot `id` of step `step` that node n has handled. */
  ghost function Votes(sent: seq<Env>, mine: set<nat>, n: Peer, step: nat, id: nat): set<nat> {
    set k | k in mine && k < |sent| && IsVote(sent[k].msg, n, step, id)
  }

  ghost function Origins(sent: seq<Env>, ks: set<nat>): set<Peer>
    requires forall k :: k in ks ==> k < |sent|
  {
    set k | k in ks :: sent[k].origin
  }

  /** Messages of pairwise different origins are as many as their origins. */
  lemma {:induction false} CountOrigins(sent: seq<Env>, ks: set<nat>)
    requires forall k :: k in ks ==> k < |sent|
    requires forall j, k :: j in ks && k in ks && j != k ==> sent[j].origin != sent[k].origin
    ensures |Origins(sent, ks)| == |ks|
    decreases ks
  {
    if ks != {} {
      var k :| k in ks;
      var rest := ks - {k};
      CountOrigins(sent, rest);
      assert ks == rest + {k};
      assert Origins(sent, ks) == Origins(sent, rest) + {sent[k].origin};
      assert sent[k].origin !in Origins(sent, rest);
    }
  }

  lemma {:induction false} CountBelow(s: set<nat>, n: nat)
    requires forall x :: x in s ==> x < n
    ensures |s| <= n
    decreases n
  {
    if n > 0 {
      var rest := s - {n - 1};
      CountBelow(rest, n - 1);
      assert s <= rest + {n - 1};
      CountSubset(s, rest + {n - 1});
    } else {
      assert s == {};
    }
  }

  lemma CountSubset(s: set<nat>, t: set<nat>)
    requires s <= t
    ensures |s| <= |t|
  {
    assert t == s + (t - s);
  }

  /** n values below n are all of them. */
  lemma Pigeonhole(s: set<nat>, n: nat, x: nat)
    requires forall y :: y in s ==> y < n
    requires |s| >= n && x < n
    ensures x in s
  {
    if x !in s {
      CountBelow(s + {x}, n);
    }
  }

  /** As many votes on one ballot as there are peers means that every peer voted. */
  lemma EveryPeerVoted(c: Config, sent: seq<Env>, mine: set<nat>, n: Peer, step: nat, id: nat, m: Peer) returns (k: nat)
    requires AllBacked(c, sent) && Ordered(sent)
    requires |Votes(sent, mine, n, step, id)| >= |c.ids| && m < |c.ids|
    ensures k in Votes(sent, mine, n, step, id) && sent[k].origin == m
  {
    var votes := Votes(sent, mine, n, step, id);
    forall i, j | i in votes && j in votes && i != j ensures sent[i].origin != sent[j].origin {
      if i < j {
        assert !InOrder(sent[i].msg, sent[j].msg);
      } else {
        assert !InOrder(sent[j].msg, sent[i].msg);
      }
    }
    CountOrigins(sent, votes);
    Pigeonhole(Origins(sent, votes), |c.ids|, m);
    k :| k in votes && sent[k].origin == m;
  }

  // ---------------------------------------------------------------- the proposer's invariant

  /** v was reported as accepted to n, in a promise for a ballot up to id. */
  ghost predicate Carried(sent: seq<Env>, n: Peer, step: nat, id: nat, v: PaxosValue) {
    exists o: Peer, j: nat, ai: nat :: Env(o, Promise(n, step, j, ai, Some(v))) in sent && j <= id
  }

  ghost predicate Promised(sent: seq<Env>, m: Peer, n: Peer, step: nat, id: nat) {
    exists ai: nat, av :: Env(m, Promise(n, step, id, ai, av)) in sent
  }

  /** Everyone promised the ballot, and the value is either one that was reported or free
      because nobody had accepted anything. */
  ghost predicate OfferOK(c: Config, sent: seq<Env>, n: Peer, o: Offer) {
    && (forall m :: 0 <= m < |c.ids| ==> Promised(sent, m, n, o.step, o.id))
    && (Carried(sent, n, o.step, o.id, o.value)
        || forall m :: 0 <= m < |c.ids| ==> Env(m, Promise(n, o.step, o.id, 0, None)) in sent)
  }

  ghost predicate OfferPast(h: Handler, o: Offer) {
    o.step < h.step || (o.step == h.step && (o.id < h.paxosID || (o.id == h.paxosID && h.phase == Phase2)))
  }

  ghost predicate TallyOK(h: Handler, sent: seq<Env>, n: Peer, mine: set<nat>) {
    var votes := Votes(sent, mine, n, h.step, h.paxosID);
    && h.promises <= |votes|
    && (h.bestID == 0 ==> forall k :: k in votes ==> sent[k].msg.acceptedID == 0)
  }

  ghost predicate ProposerOK(c: Config, node: Node, sent: seq<Env>, n: Peer, mine: set<nat>) {
    && (node.h.phase == Phase1 && Env(n, Prepare(node.h.step, node.h.paxosID, n)) in sent ==>
         TallyOK(node.h, sent, n, mine))
    && (node.h.bestID != 0 ==> Carried(sent, n, node.h.step, node.h.paxosID, node.h.bestValue))
    && OffersOK(c, node, sent, n)
  }

  /** At most one value is ever offered for one ballot of one step. */
  ghost predicate OffersOK(c: Config, node: Node, sent: seq<Env>, n: Peer) {
    && (forall o :: o in node.offers ==> OfferOK(c, sent, n, o) && OfferPast(node.h, o))
    && (forall o, p :: o in node.offers && p in node.offers && o.step == p.step && o.id == p.id ==> o == p)
  }

  ghost predicate ProposalsOffered(s: Sys) {
    forall k :: 0 <= k < |s.sent| && s.sent[k].msg.Propose? ==>
      && s.sent[k].origin < |s.nodes|
      && var m := s.sent[k].msg; Offer(m.step, m.id, m.value) in s.nodes[s.sent[k].origin].offers
  }

  ghost predicate UnanimousInv(c: Config, s: Sys) {
    && BaseInv(c, s) && Unanimous(c)
    && (forall n :: 0 <= n < |s.nodes| ==> ProposerOK(c, s.nodes[n], s.sent, n, s.handled[n]))
    && ProposalsOffered(s)
  }

  // ---------------------------------------------------------------- agreement in one state

  /** The induction over ballots: two values accepted in a step are equal. */
  lemma {:induction false} Agree(c: Config, s: Sys, step: nat, x: Peer, i: nat, v: PaxosValue, y: Peer, j: nat,
                                 w: PaxosValue)
    requires UnanimousInv(c, s)
    requires Env(x, Accept(step, i, v)) in s.sent && Env(y, Accept(step, j, w)) in s.sent
    requires i <= j
    ensures v == w
    decreases j
  {
    var p := Proposer(c, s, step, x, i, v);
    var q := Proposer(c, s, step, y, j, w);
    if i == j {
      BallotsNeverCollide(c, p, q, i);
    } else {
      var o, ai := EarlierAccept(c, s, step, x, i, v, q, j, w);
      if i <= ai {
        Agree(c, s, step, x, i, v, o, ai, w);
      } else {
        Agree(c, s, step, o, ai, w, x, i, v);
      }
    }
  }

  /** Once a value was accepted below ballot j, the value offered on j had been accepted
      below j as well. */
  lemma EarlierAccept(c: Config, s: Sys, step: nat, x: Peer, i: nat, v: PaxosValue, q: Peer, j: nat, w: PaxosValue)
    returns (o: Peer, ai: nat)
    requires BaseInv(c, s) && i < j && x < |c.ids|
    requires Env(x, Accept(step, i, v)) in s.sent
    requires OfferOK(c, s.sent, q, Offer(step, j, w))
    ensures ai < j && Env(o, Accept(step, ai, w)) in s.sent
  {
    NotBlank(c, s, step, x, i, v, q, j);
    assert Carried(s.sent, q, step, j, w);
    var l: nat;
    o, l, ai :| Env(o, Promise(q, step, l, ai, Some(w))) in s.sent && l <= j;
    assert Backed(c, s.sent, o, Promise(q, step, l, ai, Some(w)));
  }

  /** An accepted proposal was offered to its proposer, who owns the ballot. */
  lemma Proposer(c: Config, s: Sys, step: nat, x: Peer, i: nat, v: PaxosValue) returns (p: Peer)
    requires UnanimousInv(c, s)
    requires Env(x, Accept(step, i, v)) in s.sent
    ensures p < |s.nodes| && Ballot(c, p, i)
    ensures Offer(step, i, v) in s.nodes[p].offers
    ensures OfferOK(c, s.sent, p, Offer(step, i, v))
    ensures ProposerOK(c, s.nodes[p], s.sent, p, s.handled[p])
    ensures x < |c.ids|
  {
    assert Backed(c, s.sent, x, Accept(step, i, v));
    p :| Env(p, Propose(step, i, v)) in s.sent;
    assert Backed(c, s.sent, p, Propose(step, i, v));
  }

  /** A peer that accepted before promising a higher ballot said so in the promise. */
  lemma NotBlank(c: Config, s: Sys, step: nat, x: Peer, i: nat, v: PaxosValue, q: Peer, j: nat)
    requires BaseInv(c, s) && i < j
    requires Env(x, Accept(step, i, v)) in s.sent
    ensures Env(x, Promise(q, step, j, 0, None)) !in s.sent
  {
    var p := Promise(q, step, j, 0, None);
    assert !InOrder(p, Accept(step, i, v));
    assert !InOrder(Accept(step, i, v), p);
  }

  // ---------------------------------------------------------------- preservation

  lemma CarriedGrows(sent: seq<Env>, x: Peer, out: Option<Message>, n: Peer, step: nat, id: nat, id': nat,
                     v: PaxosValue)
    requires Carried(sent, n, step, id, v) && id <= id'
    ensures Carried(Post(sent, x, out), n, step, id', v)
  {
    var o: Peer, j: nat, ai: nat :| Env(o, Promise(n, step, j, ai, Some(v))) in sent && j <= id;
    assert Env(o, Promise(n, step, j, ai, Some(v))) in Post(sent, x, out);
  }

  lemma OfferGrows(c: Config, sent: seq<Env>, x: Peer, out: Option<Message>, n: Peer, o: Offer)
    requires OfferOK(c, sent, n, o)
    ensures OfferOK(c, Post(sent, x, out), n, o)
  {
    forall m | 0 <= m < |c.ids| ensures Promised(Post(sent, x, out), m, n, o.step, o.id) {
      assert Promised(sent, m, n, o.step, o.id);
      var ai: nat, av :| Env(m, Promise(n, o.step, o.id, ai, av)) in sent;
      assert Env(m, Promise(n, o.step, o.id, ai, av)) in Post(sent, x, out);
    }
    if Carried(sent, n, o.step, o.id, o.value) {
      CarriedGrows(sent, x, out, n, o.step, o.id, o.id, o.value);
    }
  }

  /** What a proposer offered stays sound when anyone broadcasts and its handler moves on. */
  lemma OffersKept(c: Config, node: Node, sent: seq<Env>, n: Peer, x: Peer, out: Option<Message>, h: Handler)
    requires forall o :: o in node.offers ==> OfferOK(c, sent, n, o) && OfferPast(node.h, o)
    requires h.step > node.h.step || (h.step == node.h.step && h.paxosID > node.h.paxosID)
             || (h.step == node.h.step && h.paxosID == node.h.paxosID && (node.h.phase == Phase2 ==> h.phase == Phase2))
    ensures forall o :: o in node.offers ==> OfferOK(c, Post(sent, x, out), n, o) && OfferPast(h, o)
  {
    forall o | o in node.offers ensures OfferOK(c, Post(sent, x, out), n, o) {
      OfferGrows(c, sent, x, out, n, o);
    }
  }

  lemma VotesAfter(sent: seq<Env>, mine: set<nat>, n: Peer, step: nat, id: nat, x: Peer, out: Option<Message>, k: nat)
    requires (forall j :: j in mine ==> j < |sent|) && k < |sent|
    ensures Votes(Post(sent, x, out), mine, n, step, id) == Votes(sent, mine, n, step, id)
    ensures Votes(Post(sent, x, out), mine + {k}, n, step, id)
            == Votes(sent, mine, n, step, id) + if IsVote(sent[k].msg, n, step, id) then {k} else {}
  {
  }

  ghost predicate IsPromiseTo(m: Message, n: Peer) {
    m.Promise? && m.dest == n
  }

  /** Anything that leaves the proposer's fields alone and handles no vote. */
  lemma QuietStep(c: Config, node: Node, sent: seq<Env>, n: Peer, mine: set<nat>, x: Peer, out: Option<Message>,
                  r: Node, mine': set<nat>)
    requires ProposerOK(c, node, sent, n, mine)
    requires r.offers == node.offers
    requires r.h.step == node.h.step && r.h.paxosID == node.h.paxosID && r.h.phase == node.h.phase
    requires r.h.promises == node.h.promises && r.h.bestID == node.h.bestID && r.h.bestValue == node.h.bestValue
    requires out.Some? && out.value.Prepare? ==> x != n
    requires forall j :: j in mine ==> j < |sent|
    requires mine' == mine || exists k: nat :: k < |sent| && mine' == mine + {k} && !IsPromiseTo(sent[k].msg, n)
    ensures ProposerOK(c, r, Post(sent, x, out), n, mine')
  {
    var sent' := Post(sent, x, out);
    OffersKept(c, node, sent, n, x, out, r.h);
    if node.h.bestID != 0 {
      CarriedGrows(sent, x, out, n, node.h.step, node.h.paxosID, node.h.paxosID, node.h.bestValue);
    }
    if |sent| > 0 {
      var k: nat :| k < |sent| && (mine' == mine || (mine' == mine + {k} && !IsPromiseTo(sent[k].msg, n)));
      VotesAfter(sent, mine, n, node.h.step, node.h.paxosID, x, out, k);
    } else {
      assert Votes(sent', mine', n, node.h.step, node.h.paxosID) == Votes(sent, mine, n, node.h.step, node.h.paxosID);
    }
  }

  /** A node without a prepare for its current ballot has nothing to tally. */
  lemma FreshBallot(c: Config, node: Node, sent: seq<Env>, n: Peer, mine: set<nat>, x: Peer, out: Option<Message>,
                    r: Node, mine': set<nat>)
    requires ProposerOK(c, node, sent, n, mine)
    requires r.offers == node.offers
    requires Env(n, Prepare(r.h.step, r.h.paxosID, n)) !in Post(sent, x, out)
    requires (r.h.step > node.h.step && r.h.bestID == 0) ||
      (&& r.h.step == node.h.step && r.h.paxosID > node.h.paxosID
       && r.h.bestID == node.h.bestID && r.h.bestValue == node.h.bestValue)
    ensures ProposerOK(c, r, Post(sent, x, out), n, mine')
  {
    OffersKept(c, node, sent, n, x, out, r.h);
    if r.h.bestID != 0 {
      CarriedGrows(sent, x, out, n, node.h.step, node.h.paxosID, r.h.paxosID, node.h.bestValue);
    }
  }

  lemma AttemptKeeps(c: Config, node: Node, sent: seq<Env>, n: Peer, mine: set<nat>, v: PaxosValue)
    requires Local(c, node, sent, n, mine) && node.thread.Ready?
    requires ProposerOK(c, node, sent, n, mine)
    ensures var r := CreatePrepare(node.h, n, v);
      ProposerOK(c, node.(h := r.h, thread := Preparing(|sent|), created := node.created + {v}), Post(sent, n, r.out),
                 n, mine)
  {
    var h, r := node.h, CreatePrepare(node.h, n, v);
    NoVotesYet(c, sent, n, mine, h.step, h.paxosID);
    forall o | o in node.offers ensures OfferOK(c, Post(sent, n, r.out), n, o) && OfferPast(r.h, o) {
      OfferGrows(c, sent, n, r.out, n, o);
      if o.step == h.step && o.id == h.paxosID {
        NoOfferYet(c, sent, n, o);
        assert false;
      }
    }
    if h.bestID != 0 {
      CarriedGrows(sent, n, r.out, n, h.step, h.paxosID, h.paxosID, h.bestValue);
    }
    assert Votes(Post(sent, n, r.out), mine, n, h.step, h.paxosID) == Votes(sent, mine, n, h.step, h.paxosID);
  }

  lemma NoVotesYet(c: Config, sent: seq<Env>, n: Peer, mine: set<nat>, step: nat, id: nat)
    requires AllBacked(c, sent) && Env(n, Prepare(step, id, n)) !in sent
    ensures Votes(sent, mine, n, step, id) == {}
  {
    forall k | 0 <= k < |sent| ensures !IsVote(sent[k].msg, n, step, id) {
      assert Backed(c, sent, sent[k].origin, sent[k].msg);
    }
  }

  lemma NoOfferYet(c: Config, sent: seq<Env>, n: Peer, o: Offer)
    requires AllBacked(c, sent) && n < |c.ids| && OfferOK(c, sent, n, o)
    ensures Env(n, Prepare(o.step, o.id, n)) in sent
  {
    assert Promised(sent, n, n, o.step, o.id);
    var ai: nat, av :| Env(n, Promise(n, o.step, o.id, ai, av)) in sent;
    assert Backed(c, sent, n, Promise(n, o.step, o.id, ai, av));
  }

  // ---------------------------------------------------------------- a counted promise

  /** The tally after one more promise for the current ballot. */
  lemma TallyGrows(c: Config, conf: Conf, h: Handler, sent: seq<Env>, n: Peer, mine: set<nat>, k: nat)
    requires k < |sent| && k !in mine && sent[k].msg.Promise? && sent[k].msg.dest == n
    requires CountsPromise(h, sent[k].msg) && sent[k].msg.id == h.paxosID
    requires Backed(c, sent, sent[k].origin, sent[k].msg)
    requires h.paxosID > 0
    requires TallyOK(h, sent, n, mine)
    requires !NilDereference(h, sent[k].msg)
    ensures TallyOK(RespondToPromise(conf, h, sent[k].msg).h, sent, n, mine + {k})
  {
    assert Votes(sent, mine + {k}, n, h.step, h.paxosID) == Votes(sent, mine, n, h.step, h.paxosID) + {k};
  }

  lemma BestIsCarried(c: Conf, h: Handler, sent: seq<Env>, n: Peer, k: nat)
    requires k < |sent| && sent[k].msg.Promise? && sent[k].msg.dest == n
    requires CountsPromise(h, sent[k].msg) && sent[k].msg.id == h.paxosID
    requires h.bestID != 0 ==> Carried(sent, n, h.step, h.paxosID, h.bestValue)
    requires !NilDereference(h, sent[k].msg)
    ensures var r := RespondToPromise(c, h, sent[k].msg).h;
      r.bestID != 0 ==> Carried(sent, n, r.step, r.paxosID, r.bestValue)
  {
    var m := sent[k].msg;
    if m.acceptedID > h.bestID {
      assert sent[k] == Env(sent[k].origin, Promise(n, m.step, m.id, m.acceptedID, Some(m.acceptedValue.value)));
    }
  }

  /** The value put on the promise channel is sound for the attempt. */
  lemma OfferMade(c: Config, h: Handler, sent: seq<Env>, n: Peer, mine: set<nat>)
    requires AllBacked(c, sent) && Ordered(sent) && Unanimous(c)
    requires TallyOK(h, sent, n, mine) && h.promises >= c.threshold
    requires h.bestID != 0 ==> Carried(sent, n, h.step, h.paxosID, h.bestValue)
    ensures OfferOK(c, sent, n, Offer(h.step, h.paxosID, if h.bestID != 0 then h.bestValue else h.proposedValue))
  {
    forall m | 0 <= m < |c.ids|
      ensures Promised(sent, m, n, h.step, h.paxosID)
      ensures h.bestID == 0 ==> Env(m, Promise(n, h.step, h.paxosID, 0, None)) in sent
    {
      var k := EveryPeerVoted(c, sent, mine, n, h.step, h.paxosID, m);
      assert Backed(c, sent, m, sent[k].msg);
      assert sent[k] == Env(m, Promise(n, h.step, h.paxosID, sent[k].msg.acceptedID, sent[k].msg.acceptedValue));
    }
  }

  ghost predicate Counted(c: Conf, h: Handler, t: Tally) {
    && t.h.step == h.step && t.h.paxosID == h.paxosID
    && (t.offer.None? ==> t.h.phase == h.phase)
    && (t.offer.Some? ==>
         && t.h.phase == Phase2 && t.h.promises >= c.threshold
         && t.offer.value == if t.h.bestID != 0 then t.h.bestValue else t.h.proposedValue)
  }

  lemma CountedOutline(c: Conf, h: Handler, m: Message)
    requires m.Promise? && CountsPromise(h, m) && !NilDereference(h, m)
    ensures Counted(c, h, RespondToPromise(c, h, m))
  {
  }

  lemma CountedOffers(c: Config, node: Node, sent: seq<Env>, n: Peer, mine: set<nat>, t: Tally, r: Node)
    requires n < |c.ids| && AllBacked(c, sent) && Ordered(sent) && Unanimous(c)
    requires OffersOK(c, node, sent, n) && node.h.phase == Phase1
    requires Counted(ConfOf(c, n), node.h, t) && TallyOK(t.h, sent, n, mine)
    requires t.h.bestID != 0 ==> Carried(sent, n, t.h.step, t.h.paxosID, t.h.bestValue)
    requires r.h == t.h
    requires r.offers == if t.offer.Some? then node.offers + {Offer(node.h.step, node.h.paxosID,
          t.offer.value)} else node.offers
    ensures ProposerOK(c, r, sent, n, mine)
  {
    OffersKept(c, node, sent, n, n, None, t.h);
    if t.offer.Some? {
      OfferMade(c, t.h, sent, n, mine);
    }
  }

  lemma CountedKeeps(c: Config, node: Node, sent: seq<Env>, n: Peer, mine: set<nat>, k: nat)
    requires Local(c, node, sent, n, mine) && Ordered(sent) && Unanimous(c)
    requires ProposerOK(c, node, sent, n, mine)
    requires k < |sent| && k !in mine && sent[k].msg.Promise? && sent[k].msg.dest == n
    requires CountsPromise(node.h, sent[k].msg) && sent[k].msg.id == node.h.paxosID
    ensures ProposerOK(c, Receive(ConfOf(c, n), n, node, sent[k].msg).node, sent, n, mine + {k})
  {
    var h, m, conf := node.h, sent[k].msg, ConfOf(c, n);
    assert Backed(c, sent, sent[k].origin, m);
    BallotPositive(c, n, h.paxosID);
    TallyGrows(c, conf, h, sent, n, mine, k);
    BestIsCarried(conf, h, sent, n, k);
    CountedOutline(conf, h, m);
    CountedOffers(c, node, sent, n, mine + {k}, RespondToPromise(conf, h, m), Receive(conf, n, node, m).node);
  }

  lemma IgnoredKeeps(c: Config, node: Node, sent: seq<Env>, n: Peer, mine: set<nat>, k: nat)
    requires ProposerOK(c, node, sent, n, mine)
    requires k < |sent| && sent[k].msg.Promise? && !CountsPromise(node.h, sent[k].msg)
    requires forall j :: j in mine ==> j < |sent|
    ensures ProposerOK(c, node, sent, n, mine + {k})
  {
    VotesAfter(sent, mine, n, node.h.step, node.h.paxosID, n, None, k);
  }

  /** Leaving a step: nothing has been prepared in the next one. */
  lemma LeaveKeeps(c: Config, node: Node, sent: seq<Env>, n: Peer, mine: set<nat>, out: Message, r: Node,
                   mine': set<nat>)
    requires Local(c, node, sent, n, mine) && ProposerOK(c, node, sent, n, mine)
    requires Restarted(ConfOf(c, n), node.h, r.h) && r.offers == node.offers && out.TLC?
    ensures ProposerOK(c, r, Post(sent, n, Some(out)), n, mine')
  {
    var p := Env(n, Prepare(r.h.step, r.h.paxosID, n));
    forall k | 0 <= k < |sent| ensures sent[k] != p {
      if sent[k].origin == n {
        assert Behind(node.h, sent[k].msg);
      }
    }
    FreshBallot(c, node, sent, n, mine, n, Some(out), r, mine');
  }

  lemma ReceiveKeeps(c: Config, node: Node, sent: seq<Env>, n: Peer, mine: set<nat>, k: nat)
    requires Local(c, node, sent, n, mine) && Ordered(sent) && Unanimous(c)
    requires ProposerOK(c, node, sent, n, mine)
    requires k < |sent| && k !in mine
    requires var m := sent[k].msg; m.Promise? && m.dest == n && CountsPromise(node.h, m) ==> m.id == node.h.paxosID
    ensures var e := Receive(ConfOf(c, n), n, node, sent[k].msg);
      ProposerOK(c, e.node, Post(sent, n, e.out), n, mine + {k})
  {
    var m, conf := sent[k].msg, ConfOf(c, n);
    var e := Receive(conf, n, node, m);
    if m.Promise? && m.dest == n {
      if CountsPromise(node.h, m) {
        CountedKeeps(c, node, sent, n, mine, k);
      } else {
        IgnoredKeeps(c, node, sent, n, mine, k);
      }
    } else {
      if m.Accept? {
        AcceptOutline(conf, node.h, m);
      } else if m.TLC? {
        TLCOutline(conf, node.h, m);
      }
      if (m.Accept? || m.TLC?) && e.out.Some? {
        LeaveKeeps(c, node, sent, n, mine, e.out.value, e.node, mine + {k});
      } else {
        QuietStep(c, node, sent, n, mine, n, e.out, e.node, mine + {k});
      }
    }
  }

  // ---------------------------------------------------------------- whole runs

  lemma EffectKeeps(c: Config, s: Sys, a: Action)
    requires UnanimousInv(c, s) && Enabled(c, s, a) && Disciplined(c, s, a)
    ensures var e := EffectOf(c, s, a);
      ProposerOK(c, e.node, Post(s.sent, a.n, e.out), a.n, Apply(c, s, a).handled[a.n])
  {
    var n, node, mine := a.n, s.nodes[a.n], s.handled[a.n];
    var e := EffectOf(c, s, a);
    assert NodeOK(c, node, s.sent, n, mine);
    MineAfter(c, s, a);
    match a
    case Attempt(_, v) => AttemptKeeps(c, node, s.sent, n, mine, v);
    case Deliver(_, k) => ReceiveKeeps(c, node, s.sent, n, mine, k);
    case RetryPrepare(_) =>
      RetrySound(c, node, s.sent, n, mine);
      FreshBallot(c, node, s.sent, n, mine, n, None, e.node, mine);
    case RetryPropose(_) =>
      RetrySound(c, node, s.sent, n, mine);
      FreshBallot(c, node, s.sent, n, mine, n, None, e.node, mine);
    case _ => QuietStep(c, node, s.sent, n, mine, n, e.out, e.node, mine);
  }

  lemma OffersOnlyGrow(c: Config, s: Sys, a: Action)
    requires c.threshold >= 1 && Enabled(c, s, a)
    ensures s.nodes[a.n].offers <= EffectOf(c, s, a).node.offers
    ensures EffectOf(c, s, a).out.Some? && EffectOf(c, s, a).out.value.Propose? ==> a.Suggest?
  {
    if a.Deliver? {
      var m, conf := s.sent[a.k].msg, ConfOf(c, a.n);
      if m.Accept? {
        AcceptOutline(conf, s.nodes[a.n].h, m);
      }
    }
  }

  lemma ProposalsStayOffered(c: Config, s: Sys, a: Action)
    requires |s.nodes| == |c.ids|
    requires c.threshold >= 1 && Enabled(c, s, a) && Disciplined(c, s, a) && ProposalsOffered(s)
    ensures ProposalsOffered(Apply(c, s, a))
  {
    OffersOnlyGrow(c, s, a);
  }

  lemma StepKeepsUnanimous(c: Config, s: Sys, a: Action)
    requires UnanimousInv(c, s) && Enabled(c, s, a) && Disciplined(c, s, a)
    ensures UnanimousInv(c, Apply(c, s, a))
  {
    var s', e := Apply(c, s, a), EffectOf(c, s, a);
    StepKeepsBase(c, s, a);
    EffectKeeps(c, s, a);
    ProposalsStayOffered(c, s, a);
    MineAfter(c, s, a);
    forall m | 0 <= m < |s'.nodes| ensures ProposerOK(c, s'.nodes[m], s'.sent, m, s'.handled[m]) {
      if m != a.n {
        assert NodeOK(c, s.nodes[m], s.sent, m, s.handled[m]);
        QuietStep(c, s.nodes[m], s.sent, m, s.handled[m], a.n, e.out, s.nodes[m], s.handled[m]);
      }
    }
  }

  lemma InitUnanimous(c: Config)
    requires GoodConfig(c) && Unanimous(c)
    ensures UnanimousInv(c, Init(c))
  {
    InitBase(c);
  }

  lemma {:induction false} RunKeepsUnanimous(c: Config, s: Sys, run: seq<Action>)
    requires UnanimousInv(c, s) && Legal(c, s, run) && DisciplinedRun(c, s, run)
    ensures UnanimousInv(c, Exec(c, s, run))
    decreases |run|
  {
    if run != [] {
      StepKeepsUnanimous(c, s, run[0]);
      RunKeepsUnanimous(c, Apply(c, s, run[0]), run[1..]);
    }
  }

  /** At most one value is accepted in a step: in every run of any number of competing,
      retrying proposers whose thresholds are unanimous and whose runs are disciplined, all
      accept messages of a step carry the same value. */
  lemma UnanimousAgreement(c: Config, run: seq<Action>, a: Env, b: Env)
    requires GoodConfig(c) && Unanimous(c)
    requires Legal(c, Init(c), run) && DisciplinedRun(c, Init(c), run)
    requires a in Exec(c, Init(c), run).sent && b in Exec(c, Init(c), run).sent
    requires a.msg.Accept? && b.msg.Accept? && a.msg.step == b.msg.step
    ensures a.msg.value == b.msg.value
  {
    hide BaseInv, OfferOK, ProposerOK, OffersOK, UnanimousInv;
    InitUnanimous(c);
    RunKeepsUnanimous(c, Init(c), run);
    var s, m, l := Exec(c, Init(c), run), a.msg, b.msg;
    assert a == Env(a.origin, Accept(m.step, m.id, m.value)) && b == Env(b.origin, Accept(l.step, l.id, l.value));
    if m.id <= l.id {
      Agree(c, s, m.step, a.origin, m.id, m.value, b.origin, l.id, l.value);
    } else {
      Agree(c, s, m.step, b.origin, l.id, l.value, a.origin, m.id, m.value);
    }
  }
}
