/** What the logs hold is what was broadcast, and every node can be brought up to date. */
module GossipDelivery {
  import opened Common
  import opened Rumors
  import opened Gossip

  // ---------------------------------------------------------------- what was broadcast

  /** The messages node o broadcasts in a run, in order. */
  ghost function Said(run: seq<Action>, o: Peer): seq<Payload> {
    if run == [] then []
    else (if run[0].Broadcast? && run[0].n == o then [run[0].msg] else []) + Said(run[1..], o)
  }

  ghost function Payloads(log: seq<Rumor>): seq<Payload> {
    seq(|log|, i requires 0 <= i < |log| => log[i].msg)
  }

  lemma OwnLogAfter(s: System, a: Action, o: Peer)
    requires Inv(s) && Enabled(s, a) && o < |s.nodes|
    ensures Inv(Apply(s, a)) && o < |Apply(s, a).nodes|
    ensures Payloads(LogOf(Apply(s, a).nodes[o].state.log, o))
            == Payloads(LogOf(s.nodes[o].state.log, o)) + if a.Broadcast? && a.n == o then [a.msg] else []
  {
    hide Inv, LogOf;
    OwnsAfter(s, a);
    OwnsAre(s, o);
    OwnsAre(Apply(s, a), o);
    StepKeeps(s, a);
  }

  lemma {:induction false} OwnLogGrows(s: System, run: seq<Action>, o: Peer)
    requires Inv(s) && Legal(s, run) && o < |s.nodes|
    ensures o < |Exec(s, run).nodes|
    ensures Payloads(LogOf(Exec(s, run).nodes[o].state.log, o))
            == Payloads(LogOf(s.nodes[o].state.log, o)) + Said(run, o)
    decreases |run|
  {
    hide Inv, LogOf, Apply, Enabled, Payloads;
    if run != [] {
      OwnLogAfter(s, run[0], o);
      OwnLogGrows(Apply(s, run[0]), run[1..], o);
    }
  }

  /** In every run a node's log of an origin holds the first messages this origin broadcast, in
      order, and the origin's own log holds all of them. */
  lemma LogsAreBroadcasts(size: nat, run: seq<Action>, n: Peer, o: Peer)
    requires Legal(Init(size), run) && n < size && o < size
    ensures var s := Exec(Init(size), run);
      && n < |s.nodes| && o < |s.nodes|
      && Payloads(LogOf(s.nodes[o].state.log, o)) == Said(run, o)
      && Payloads(LogOf(s.nodes[n].state.log, o)) <= Said(run, o)
  {
    hide Inv;
    InitInv(size);
    OwnLogGrows(Init(size), run, o);
    OwnLogGrows(Init(size), run, n);
    PrefixConsistency(Exec(Init(size), run), n, o);
  }

  // ---------------------------------------------------------------- catching up

  /** Node n receives the rest of a log of o, rumor by rumor. */
  ghost function Receipts(n: Peer, rest: seq<Rumor>): seq<Action> {
    seq(|rest|, i requires 0 <= i < |rest| => Receive(n, rest[i]))
  }

  lemma ReceivesNext(s: System, n: Peer, r: Rumor)
    requires Inv(s) && n < |s.nodes| && r in s.wire
    requires r.sequence == |LogOf(s.nodes[n].state.log, r.origin)| + 1
    ensures var t := Apply(s, Receive(n, r));
      && Inv(t) && t.wire == s.wire && |t.nodes| == |s.nodes|
      && LogOf(t.nodes[n].state.log, r.origin) == LogOf(s.nodes[n].state.log, r.origin) + [r]
  {
    StepKeeps(s, Receive(n, r));
    hide Inv, Follows, HandedOK, OwnOK, Authentic;
    var log := s.nodes[n].state.log;
    assert NodeOK(Owns(s), n, s.nodes[n]) by { NodeKept(s, n); }
    AppendKeepsGapFree(log, r);
  }

  lemma NodeKept(s: System, n: Peer)
    requires Inv(s) && n < |s.nodes|
    ensures NodeOK(Owns(s), n, s.nodes[n])
  {
  }

  /** The tail of a log of o that continues what a node has of it. */
  ghost predicate Continues(log: Log, o: Peer, rest: seq<Rumor>) {
    forall i :: 0 <= i < |rest| ==> rest[i].origin == o && rest[i].sequence == |LogOf(log, o)| + i + 1
  }

  lemma {:induction false} RestReceived(s: System, n: Peer, o: Peer, rest: seq<Rumor>)
    requires Inv(s) && n < |s.nodes| && (forall r :: r in rest ==> r in s.wire)
    requires Continues(s.nodes[n].state.log, o, rest)
    ensures Legal(s, Receipts(n, rest)) && n < |Exec(s, Receipts(n, rest)).nodes|
    ensures LogOf(Exec(s, Receipts(n, rest)).nodes[n].state.log, o) == LogOf(s.nodes[n].state.log, o) + rest
    decreases |rest|
  {
    hide Inv, LogOf, Apply;
    if rest != [] {
      assert Receipts(n, rest)[1..] == Receipts(n, rest[1..]);
      ReceivesNext(s, n, rest[0]);
      RestReceived(Apply(s, Receive(n, rest[0])), n, o, rest[1..]);
    }
  }

  lemma LogNumbers(log: Log, o: Peer)
    requires GapFree(log)
    ensures Known(log.sequences, o) == |LogOf(log, o)|
    ensures forall i :: 0 <= i < |LogOf(log, o)| ==> LogEntry(LogOf(log, o), o, i)
  {
  }

  lemma OnePrefix(owns: seq<seq<Rumor>>, a: Log, b: Log, o: Peer)
    requires Follows(owns, a) && Follows(owns, b) && |LogOf(b, o)| < |LogOf(a, o)|
    ensures o in a.rumors && LogOf(a, o) == LogOf(b, o) + LogOf(a, o)[|LogOf(b, o)|..]
  {
    if o in b.rumors {
      assert LogOf(b, o) <= owns[o] && LogOf(a, o) <= owns[o];
    }
  }

  lemma TailContinues(a: Log, b: Log, o: Peer, mine: nat)
    requires forall i :: 0 <= i < |LogOf(a, o)| ==> LogEntry(LogOf(a, o), o, i)
    requires mine == |LogOf(b, o)| < |LogOf(a, o)|
    ensures Continues(b, o, LogOf(a, o)[mine..])
  {
    var full := LogOf(a, o);
    forall i | 0 <= i < |full| - mine
      ensures full[mine..][i].origin == o && full[mine..][i].sequence == mine + i + 1
    {
      assert LogEntry(full, o, mine + i);
    }
  }

  /** What node n lacks of a log of node m is the tail that an answer of m to its status holds. */
  lemma AnswerContinues(s: System, m: Peer, n: Peer, o: Peer)
    requires Inv(s) && m < |s.nodes| && n < |s.nodes|
    requires |LogOf(s.nodes[n].state.log, o)| < |LogOf(s.nodes[m].state.log, o)|
    ensures var full, mine := LogOf(s.nodes[m].state.log, o), LogOf(s.nodes[n].state.log, o);
      && full == mine + full[|mine|..] && Continues(s.nodes[n].state.log, o, full[|mine|..])
      && Enabled(s, Resend(m, o, s.nodes[n].state.log.sequences))
      && Known(s.nodes[n].state.log.sequences, o) == |mine|
  {
    hide Inv, HandedOK, OwnOK, Authentic, GapFree, Follows, LogOf, Known, Owns, LogEntry, Continues;
    NodeKept(s, m);
    NodeKept(s, n);
    var a, b := s.nodes[m].state.log, s.nodes[n].state.log;
    LogNumbers(a, o);
    LogNumbers(b, o);
    OnePrefix(Owns(s), a, b, o);
    TailContinues(a, b, o, |LogOf(b, o)|);
  }

  /** From every reachable state, one answer to the status of n by any node m that knows more of an
      origin, and the receipt of its rumors, give n all that m has of this origin. */
  lemma CatchesUp(s: System, m: Peer, n: Peer, o: Peer)
    requires Reachable(s) && m < |s.nodes| && n < |s.nodes|
    requires |LogOf(s.nodes[n].state.log, o)| < |LogOf(s.nodes[m].state.log, o)|
    ensures var full, status := LogOf(s.nodes[m].state.log, o), s.nodes[n].state.log.sequences;
      var run := [Resend(m, o, status)] + Receipts(n, full[|LogOf(s.nodes[n].state.log, o)|..]);
      && Legal(s, run) && n < |Exec(s, run).nodes|
      && LogOf(Exec(s, run).nodes[n].state.log, o) == full
  {
    hide Inv, Reachable, LogOf, Receipts, Continues;
    ReachableInv(s);
    AnswerContinues(s, m, n, o);
    var full, mine := LogOf(s.nodes[m].state.log, o), LogOf(s.nodes[n].state.log, o);
    var answer := Resend(m, o, s.nodes[n].state.log.sequences);
    StepKeeps(s, answer);
    RestReceived(Apply(s, answer), n, o, full[|mine|..]);
    assert ([answer] + Receipts(n, full[|mine|..]))[1..] == Receipts(n, full[|mine|..]);
  }

  lemma OneStep(s: System, a: Action)
    requires Enabled(s, a)
    ensures Legal(s, [a]) && Exec(s, [a]) == Apply(s, a)
  {
    assert [a][1..] == [];
    assert Exec(s, [a]) == Exec(Apply(s, a), []);
  }

  /** A broadcast itself reaches every node that has all earlier messages of its origin. */
  lemma BroadcastArrives(s: System, n: Peer, m: Payload, i: Peer)
    requires Reachable(s) && n < |s.nodes| && i < |s.nodes| && i != n
    requires LogOf(s.nodes[i].state.log, n) == LogOf(s.nodes[n].state.log, n)
    ensures var r := NewRumor(s.nodes[n].state.log, n, m);
      var run := [Broadcast(n, m), Receive(i, r)];
      && Legal(s, run) && i < |Exec(s, run).nodes|
      && LogOf(Exec(s, run).nodes[i].state.log, n) == LogOf(s.nodes[n].state.log, n) + [r]
  {
    hide Inv, Reachable, LogOf;
    ReachableInv(s);
    var r, t := NewRumor(s.nodes[n].state.log, n, m), Apply(s, Broadcast(n, m));
    NodeKept(s, n);
    LogNumbers(s.nodes[n].state.log, n);
    StepKeeps(s, Broadcast(n, m));
    ReceivesNext(t, i, r);
    OneStep(t, Receive(i, r));
    assert [Broadcast(n, m), Receive(i, r)][1..] == [Receive(i, r)];
  }
}
