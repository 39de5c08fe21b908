/** The status / missing-rumors loop between two nodes. */
module AntiEntropy {
  import opened Common
  import opened Text
  import opened Rumors
  import Gossip

  /** Two logs that follow the same origins: for every origin one is a prefix of the other
      (`Gossip.PrefixConsistency`: both are prefixes of the origin's own log). */
  ghost predicate Compatible(a: Log, b: Log) {
    forall o: Peer :: LogOf(a, o) <= LogOf(b, o) || LogOf(b, o) <= LogOf(a, o)
  }

  ghost function Longer(x: seq<Rumor>, y: seq<Rumor>): seq<Rumor> {
    if |x| > |y| then x else y
  }

  /** The logs of any two nodes of a run follow the same origins. */
  lemma LogsAreCompatible(s: Gossip.System, m: Peer, n: Peer)
    requires Gossip.Reachable(s) && m < |s.nodes| && n < |s.nodes|
    ensures var a, b := s.nodes[m].state.log, s.nodes[n].state.log;
      GapFree(a) && GapFree(b) && Compatible(a, b)
  {
    Gossip.ReachableInv(s);
    var a, b, owns := s.nodes[m].state.log, s.nodes[n].state.log, Gossip.Owns(s);
    assert Gossip.NodeOK(owns, m, s.nodes[m]) && Gossip.NodeOK(owns, n, s.nodes[n]);
    forall o: Peer ensures LogOf(a, o) <= LogOf(b, o) || LogOf(b, o) <= LogOf(a, o) {
      if o < |owns| {
        assert LogOf(a, o) <= owns[o] && LogOf(b, o) <= owns[o];
      }
    }
  }

  // ---------------------------------------------------------------- logs only grow

  /** `after` is gap-free and continues every log of `before`. */
  ghost predicate Extends(before: Log, after: Log) {
    GapFree(after) && forall o: Peer :: LogOf(before, o) <= LogOf(after, o)
  }

  lemma DoExtends(s: State, op: Op)
    requires GapFree(s.log)
    ensures Extends(s.log, Do(s, op).log)
  {
    match op
    case Create(o, m) => AppendKeepsGapFree(s.log, NewRumor(s.log, o, m));
    case Get(r) => if IsNext(s.log, r) { AppendKeepsGapFree(s.log, r); }
  }

  lemma {:induction false} DoAllExtends(s: State, ops: seq<Op>)
    requires GapFree(s.log)
    ensures Extends(s.log, DoAll(s, ops).log)
    decreases |ops|
  {
    if ops != [] {
      DoExtends(s, ops[0]);
      DoAllExtends(Do(s, ops[0]), ops[1..]);
    }
  }

  lemma KnownIsLength(log: Log, o: Peer)
    requires GapFree(log)
    ensures Known(log.sequences, o) == |LogOf(log, o)|
  {
  }

  ghost predicate Succeed(handlings: seq<Handling>) {
    forall i :: 0 <= i < |handlings| ==> handlings[i].ok
  }

  /** Whatever else runs on the log while the lock is released: after the tail of a log that
      starts where the node's own ends, or before, the node has the whole of it. */
  lemma {:induction false} ProcessLearns(s: State, p: bool, full: seq<Rumor>, o: Peer, k: nat, handlings: seq<Handling>)
    requires GapFree(s.log) && k <= |full| && k <= |LogOf(s.log, o)|
    requires forall i :: 0 <= i < |full| ==> LogEntry(full, o, i)
    requires |handlings| == |full| - k && Succeed(handlings)
    ensures var out := Process(s, p, full[k..], handlings);
      !out.failed && Extends(s.log, out.state.log) && |LogOf(out.state.log, o)| >= |full|
    decreases |full| - k
  {
    if k < |full| {
      var r := full[k];
      assert LogEntry(full, o, k);
      KnownIsLength(s.log, o);
      assert full[k..][1..] == full[k + 1..];
      if IsNext(s.log, r) {
        var s1 := Do(s, Get(r));
        DoExtends(s, Get(r));
        AppendKeepsGapFree(s.log, r);
        DoAllExtends(s1, handlings[0].meanwhile);
        assert LogOf(s1.log, o) <= LogOf(DoAll(s1, handlings[0].meanwhile).log, o);
        ProcessLearns(DoAll(s1, handlings[0].meanwhile), true, full, o, k + 1, handlings[1..]);
      } else {
        ProcessLearns(s, p, full, o, k + 1, handlings[1..]);
      }
    }
  }

  /** A node that knows at least as much of every origin, and more of one, is deficient in
      fewer. */
  lemma FewerDeficient(a: Log, b: Log, after: Log, o: Peer)
    requires GapFree(a) && GapFree(b) && Extends(b, after)
    requires o in Deficient(a, b.sequences) && |LogOf(after, o)| >= |LogOf(a, o)|
    ensures Deficient(a, after.sequences) < Deficient(a, b.sequences)
  {
    forall q: Peer ensures Known(after.sequences, q) >= Known(b.sequences, q) {
      KnownIsLength(after, q);
      KnownIsLength(b, q);
      assert LogOf(b, q) <= LogOf(after, q);
    }
    KnownIsLength(a, o);
    KnownIsLength(after, o);
    assert o !in Deficient(a, after.sequences);
  }

  /** One answer to a status of B, fresh or stale: B learns all that A knows of one deficient
      origin, loses nothing, and lacks fewer origins than before. */
  lemma AnswerStep(a: Log, s: State, o: Peer, from: nat, handlings: seq<Handling>)
    requires GapFree(a) && GapFree(s.log)
    requires o in Deficient(a, s.log.sequences) && from <= Known(s.log.sequences, o)
    requires |handlings| == |LogOf(a, o)| - from && Succeed(handlings)
    ensures var out := Process(s, false, LogOf(a, o)[from..], handlings).state.log;
      && Extends(s.log, out) && |LogOf(out, o)| >= |LogOf(a, o)|
      && Deficient(a, out.sequences) < Deficient(a, s.log.sequences)
  {
    KnownIsLength(a, o);
    KnownIsLength(s.log, o);
    ProcessLearns(s, false, LogOf(a, o), o, from, handlings);
    FewerDeficient(a, s.log, Process(s, false, LogOf(a, o)[from..], handlings).state.log, o);
  }

  /** B holds of each origin at least what A holds. */
  ghost predicate Covers(a: Log, b: Log) {
    forall o: Peer :: |LogOf(b, o)| >= |LogOf(a, o)|
  }

  lemma NoneDeficient(a: Log, b: Log)
    requires GapFree(a) && GapFree(b) && Deficient(a, b.sequences) == {}
    ensures Covers(a, b)
    ensures Compatible(a, b) ==> forall o: Peer :: LogOf(a, o) <= LogOf(b, o)
  {
    forall o: Peer ensures |LogOf(b, o)| >= |LogOf(a, o)| {
      KnownIsLength(a, o);
      KnownIsLength(b, o);
      assert o !in Deficient(a, b.sequences);
    }
  }

  lemma ExtendsMore(a: Log, b: Log, c: Log)
    requires Extends(a, b) && Extends(b, c)
    ensures Extends(a, c)
  {
    forall o: Peer ensures LogOf(a, o) <= LogOf(c, o) {
      assert LogOf(a, o) <= LogOf(b, o) <= LogOf(c, o);
    }
  }

  // ---------------------------------------------------------------- the quiet exchange

  /** Handlers that run nothing else on the log and succeed. */
  function Quiet(n: nat): seq<Handling> {
    seq(n, _ => Handling([], true))
  }

  /** Then processing the tail of a log whose head is known appends exactly that tail. */
  lemma {:induction false} ProcessTail(s: State, p: bool, full: seq<Rumor>, o: Peer, k: nat)
    requires GapFree(s.log) && k <= |full| && LogOf(s.log, o) == full[..k]
    requires forall i :: 0 <= i < |full| ==> LogEntry(full, o, i)
    ensures var out := Process(s, p, full[k..], Quiet(|full| - k));
      && !out.failed
      && GapFree(out.state.log) && LogOf(out.state.log, o) == full
      && (forall q: Peer :: q != o ==> LogOf(out.state.log, q) == LogOf(s.log, q))
    decreases |full| - k
  {
    if k < |full| {
      var r := full[k];
      assert LogEntry(full, o, k);
      KnownIsLength(s.log, o);
      AppendKeepsGapFree(s.log, r);
      var s1 := Do(s, Get(r));
      assert full[..k] + [r] == full[..k + 1];
      assert full[k..][1..] == full[k + 1..];
      assert Quiet(|full| - k)[1..] == Quiet(|full| - (k + 1));
      assert DoAll(s1, []) == s1;
      ProcessTail(s1, true, full, o, k + 1);
    } else {
      assert full[..k] == full;
    }
  }

  /** One answer to a status: B learns all that A knows of one deficient origin. */
  lemma AnswerHelps(a: Log, s: State, o: Peer, missing: seq<Rumor>) returns (out: Log)
    requires GapFree(a) && GapFree(s.log) && Compatible(a, s.log)
    requires o in Deficient(a, s.log.sequences) && Known(s.log.sequences, o) <= |LogOf(a, o)|
    requires missing == LogOf(a, o)[Known(s.log.sequences, o)..]
    ensures out == Process(s, false, missing, Quiet(|missing|)).state.log
    ensures GapFree(out) && LogOf(out, o) == LogOf(a, o)
    ensures forall q: Peer :: q != o ==> LogOf(out, q) == LogOf(s.log, q)
  {
    KnownIsLength(a, o);
    KnownIsLength(s.log, o);
    assert LogOf(s.log, o) <= LogOf(a, o);
    ProcessTail(s, false, LogOf(a, o), o, |LogOf(s.log, o)|);
    out := Process(s, false, missing, Quiet(|missing|)).state.log;
  }

  /** B holds, of each origin, its old log or A's, whichever is longer. */
  ghost predicate Joined(a: Log, b: Log, after: Log) {
    forall o: Peer :: LogOf(after, o) == Longer(LogOf(a, o), LogOf(b, o))
  }

  /** Some origins have been brought up to A's log, the others not yet. */
  ghost predicate PartlyJoined(a: Log, b: Log, now: Log) {
    forall o: Peer :: LogOf(now, o) == LogOf(b, o) || LogOf(now, o) == Longer(LogOf(a, o), LogOf(b, o))
  }

  lemma NothingMissing(a: Log, b: Log, now: Log)
    requires GapFree(a) && GapFree(b) && GapFree(now) && PartlyJoined(a, b, now)
    requires Deficient(a, now.sequences) == {}
    ensures Joined(a, b, now)
  {
    forall o: Peer ensures LogOf(now, o) == Longer(LogOf(a, o), LogOf(b, o)) {
      KnownIsLength(a, o);
      KnownIsLength(now, o);
      assert o !in Deficient(a, now.sequences);
    }
  }

  lemma PartlyCompatible(a: Log, b: Log, now: Log)
    requires Compatible(a, b) && PartlyJoined(a, b, now)
    ensures Compatible(a, now)
  {
    forall o: Peer ensures LogOf(a, o) <= LogOf(now, o) || LogOf(now, o) <= LogOf(a, o) {
      assert LogOf(now, o) == LogOf(b, o) || LogOf(now, o) == Longer(LogOf(a, o), LogOf(b, o));
    }
  }

  lemma StillPartly(a: Log, b: Log, before: Log, now: Log, o: Peer)
    requires GapFree(a) && GapFree(before) && PartlyJoined(a, b, before) && o in Deficient(a, before.sequences)
    requires LogOf(now, o) == LogOf(a, o) && forall q: Peer :: q != o ==> LogOf(now, q) == LogOf(before, q)
    ensures PartlyJoined(a, b, now)
  {
    KnownIsLength(a, o);
    KnownIsLength(before, o);
  }

  lemma QuietAnswer(a: Log, b: Log, s: State, o: Peer)
    requires GapFree(a) && GapFree(s.log) && Compatible(a, b) && PartlyJoined(a, b, s.log)
    requires o in Deficient(a, s.log.sequences) && Known(s.log.sequences, o) <= |LogOf(a, o)|
    ensures var missing := LogOf(a, o)[Known(s.log.sequences, o)..];
      PartlyJoined(a, b, Process(s, false, missing, Quiet(|missing|)).state.log)
  {
    PartlyCompatible(a, b, s.log);
    var out := AnswerHelps(a, s, o, LogOf(a, o)[Known(s.log.sequences, o)..]);
    StillPartly(a, b, s.log, out, o);
  }

  lemma JoinCompatible(a: Log, b: Log, after: Log)
    requires Compatible(a, b) && Joined(a, b, after)
    ensures Compatible(after, a)
  {
    forall o: Peer ensures LogOf(after, o) <= LogOf(a, o) || LogOf(a, o) <= LogOf(after, o) {
      assert LogOf(after, o) == Longer(LogOf(a, o), LogOf(b, o));
    }
  }

  lemma SameLogs(a: Log, b: Log, a': Log, b': Log)
    requires GapFree(a') && GapFree(b') && Compatible(a, b)
    requires Joined(a, b, b') && Joined(b', a, a')
    ensures forall o: Peer :: LogOf(a', o) == LogOf(b', o) == Longer(LogOf(a, o), LogOf(b, o))
    ensures a'.sequences == b'.sequences && ProperStatus(b'.sequences)
  {
    forall o: Peer
      ensures LogOf(a', o) == LogOf(b', o)
      ensures o in a'.sequences <==> o in b'.sequences
      ensures o in a'.sequences ==> a'.sequences[o] == b'.sequences[o]
    {
      assert LogOf(b', o) == Longer(LogOf(a, o), LogOf(b, o));
      assert LogOf(a', o) == Longer(LogOf(b', o), LogOf(a, o));
      assert LogOf(a, o) <= LogOf(b, o) || LogOf(b, o) <= LogOf(a, o);
      KnownIsLength(a', o);
      KnownIsLength(b', o);
    }
  }

  // ---------------------------------------------------------------- the loop

  /** Nothing else runs on the log while the rumors are handled. */
  ghost predicate Undisturbed(handle: (nat, nat) -> Handling) {
    forall i: nat, j: nat :: handle(i, j).meanwhile == []
  }

  lemma PushBegins(a: Log, b: Log)
    requires GapFree(b)
    ensures Extends(b, b) && (Compatible(a, b) ==> PartlyJoined(a, b, b))
  {
  }

  lemma ExtendsIsGapFree(a: Log, b: Log)
    requires Extends(a, b)
    ensures GapFree(b)
  {
  }

  /** A keeps answering B's statuses with missing rumors, and B acknowledges each answer with
      its new status. `handle(i, j)` is the handling of the j-th rumor of the i-th answer: it
      succeeds, and anything may run on B's log meanwhile, B's own broadcasts included. The
      loop ends, with B's log at least A's for every origin; if nothing runs meanwhile, it is
      exactly the longer of the two. */
  method Push(a: RumorsHandler, b: RumorsHandler, handle: (nat, nat) -> Handling)
    requires a != b
    requires GapFree(a.View().log) && GapFree(b.View().log)
    requires forall i: nat, j: nat :: handle(i, j).ok
    modifies b
    ensures Extends(old(b.View()).log, b.View().log) && Covers(a.View().log, b.View().log)
    ensures Compatible(a.View().log, b.View().log) ==> forall o: Peer :: LogOf(a.View().log, o) <= LogOf(b.View().log,
          o)
    ensures Undisturbed(handle) && Compatible(a.View().log, old(b.View()).log) ==>
      Joined(a.View().log, old(b.View()).log, b.View().log)
  {
    hide Process, Compatible, Joined, PartlyJoined, Covers, LocalMissing, Extends;
    ghost var la, lb := a.View().log, b.View().log;
    PushBegins(la, lb);
    var i := 0;
    var status := b.GetSequenceMap();
    var missing := a.GetRemoteMissingRumors(status);
    while missing != []
      invariant a.View().log == la && Extends(lb, b.View().log) && GapFree(b.View().log)
      invariant status == b.View().log.sequences
      invariant Undisturbed(handle) && Compatible(la, lb) ==> PartlyJoined(la, lb, b.View().log)
      invariant missing == [] <==> Deficient(la, status) == {}
      invariant missing != [] ==>
        exists o :: o in Deficient(la, status) && missing == LogOf(la, o)[Known(status, o)..]
      decreases Deficient(la, b.View().log.sequences)
    {
      ghost var before := b.View().log;
      ghost var o :| o in Deficient(la, status) && missing == LogOf(la, o)[Known(status, o)..];
      var handlings := seq(|missing|, j requires 0 <= j < |missing| => handle(i, j));
      AnswerStep(la, b.View(), o, Known(status, o), handlings);
      if Undisturbed(handle) && Compatible(la, lb) {
        assert handlings == Quiet(|missing|);
        QuietAnswer(la, lb, b.View(), o);
      }
      var _, _ := b.ProcessRumors(missing, handlings);
      ExtendsMore(lb, before, b.View().log);
      ExtendsIsGapFree(before, b.View().log);
      i := i + 1;
      status := b.GetSequenceMap();
      missing := a.GetRemoteMissingRumors(status);
    }
    NoneDeficient(la, b.View().log);
    if Undisturbed(handle) && Compatible(la, lb) {
      NothingMissing(la, lb, b.View().log);
    }
  }

  /** One push each way: afterwards B covers the log A had, and A covers B's log. If nothing
      else runs meanwhile, both have the pointwise longest logs and equal sequence maps, which
      is what the status test recognises. */
  method Synchronise(a: RumorsHandler, b: RumorsHandler, handle: (nat, nat) -> Handling)
    requires a != b
    requires GapFree(a.View().log) && GapFree(b.View().log)
    requires forall i: nat, j: nat :: handle(i, j).ok
    modifies a, b
    ensures Covers(old(a.View()).log, b.View().log) && Covers(b.View().log, a.View().log)
    ensures Undisturbed(handle) && Compatible(old(a.View()).log, old(b.View()).log) ==>
      && (forall o: Peer :: LogOf(a.View().log, o) == LogOf(b.View().log, o)
                            == Longer(LogOf(old(a.View()).log, o), LogOf(old(b.View()).log, o)))
      && a.sequenceMap == b.sequenceMap
      && !LocalMissing(a.View().log, b.sequenceMap) && Deficient(a.View().log, b.sequenceMap) == {}
  {
    ghost var la, lb := a.View().log, b.View().log;
    Push(a, b, handle);
    ghost var lb' := b.View().log;
    Push(b, a, handle);
    if Undisturbed(handle) && Compatible(la, lb) {
      JoinCompatible(la, lb, lb');
      SameLogs(la, lb, a.View().log, lb');
      ExactSyncDetection(a.View().log, b.sequenceMap);
    }
  }
}
