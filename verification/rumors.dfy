/** The rumor log of a node: what each lock-held section of rumorsHandler computes. */
module Rumors {
  import opened Common
  import opened Text

  /** A marshalled transport.Message. */
  type Payload = Bytes

  datatype Rumor = Rumor(origin: Peer, sequence: nat, msg: Payload)

  type Status = map<Peer, nat>

  datatype Log = Log(sequences: Status, rumors: map<Peer, seq<Rumor>>)

  const EMPTY_LOG := Log(map[], map[])

  /** Go reads a missing entry as 0, or as the nil slice. */
  function Known(sequences: Status, o: Peer): nat {
    if o in sequences then sequences[o] else 0
  }

  function LogOf(log: Log, o: Peer): seq<Rumor> {
    if o in log.rumors then log.rumors[o] else []
  }

  function Append(log: Log, r: Rumor): Log {
    Log(log.sequences[r.origin := r.sequence], log.rumors[r.origin := LogOf(log, r.origin) + [r]])
  }

  /** createRumorsMsg. */
  function NewRumor(log: Log, origin: Peer, msg: Payload): Rumor {
    Rumor(origin, Known(log.sequences, origin) + 1, msg)
  }

  /** The test processRumors makes on each rumor, under the lock. */
  predicate IsNext(log: Log, r: Rumor) {
    r.sequence == Known(log.sequences, r.origin) + 1
  }

  /** What can happen to a log, one lock-held section at a time. */
  datatype Op = Create(origin: Peer, msg: Payload) | Get(rumor: Rumor)

  /** A log with the rumors its owner handed to a handler through processRumors, in order. */
  datatype State = State(log: Log, handed: seq<Rumor>)

  function Do(s: State, op: Op): State {
    match op
    case Create(o, m) => s.(log := Append(s.log, NewRumor(s.log, o, m)))
    case Get(r) => if IsNext(s.log, r) then State(Append(s.log, r), s.handed + [r]) else s
  }

  function DoAll(s: State, ops: seq<Op>): State
    decreases |ops|
  {
    if ops == [] then s else DoAll(Do(s, ops[0]), ops[1..])
  }

  /** The handler called for an admitted rumor: what other sections run while the lock is
      released for it, and whether it succeeds. */
  datatype Handling = Handling(meanwhile: seq<Op>, ok: bool)

  datatype Outcome = Outcome(state: State, processed: bool, failed: bool)

  /** processRumors from some point of a packet on, given the handlings of its rumors. */
  function Process(s: State, processed: bool, rumors: seq<Rumor>, handlings: seq<Handling>): Outcome
    requires |rumors| == |handlings|
    decreases |rumors|
  {
    if rumors == [] then Outcome(s, processed, false)
    else if !IsNext(s.log, rumors[0]) then Process(s, processed, rumors[1..], handlings[1..])
    else
      var s1 := DoAll(Do(s, Get(rumors[0])), handlings[0].meanwhile);
      if !handlings[0].ok then Outcome(s1, false, true)
      else Process(s1, true, rumors[1..], handlings[1..])
  }

  /** isLocalMissingRumors. */
  predicate LocalMissing(log: Log, status: Status) {
    exists o :: o in status && (o !in log.sequences || status[o] > log.sequences[o])
  }

  /** Origins whose rumors the remote node lacks. */
  function Deficient(log: Log, status: Status): set<Peer> {
    set o | o in log.rumors && Known(status, o) < Known(log.sequences, o)
  }

  // ---------------------------------------------------------------- well-formed logs

  ghost predicate LogEntry(rumors: seq<Rumor>, o: Peer, i: nat) {
    i < |rumors| && rumors[i].origin == o && rumors[i].sequence == i + 1
  }

  /** Gap-free: the log of each origin has as many rumors as its sequence number says, at
      least one, numbered 1, 2, 3, ... */
  ghost predicate GapFree(log: Log) {
    && log.sequences.Keys == log.rumors.Keys
    && (forall o :: o in log.sequences ==> |log.rumors[o]| == log.sequences[o] >= 1)
    && (forall o, i :: o in log.rumors && 0 <= i < |log.rumors[o]| ==> LogEntry(log.rumors[o], o, i))
  }

  lemma AppendKeepsGapFree(log: Log, r: Rumor)
    requires GapFree(log) && IsNext(log, r)
    ensures GapFree(Append(log, r))
    ensures LogOf(Append(log, r), r.origin) == LogOf(log, r.origin) + [r]
    ensures forall o :: o != r.origin ==> LogOf(Append(log, r), o) == LogOf(log, o)
  {
    var after := Append(log, r);
    forall o, i | o in after.rumors && 0 <= i < |after.rumors[o]| ensures LogEntry(after.rumors[o], o, i) {
      if o in log.rumors && i < |log.rumors[o]| {
        assert LogEntry(log.rumors[o], o, i);
      }
    }
  }

  /** A status of a gap-free log never mentions an origin with sequence 0. */
  ghost predicate ProperStatus(status: Status) {
    forall o :: o in status ==> status[o] >= 1
  }

  /** The two tests of the status callback together detect synchronisation exactly. */
  lemma ExactSyncDetection(log: Log, status: Status)
    requires GapFree(log) && ProperStatus(status)
    ensures !LocalMissing(log, status) && Deficient(log, status) == {} <==> log.sequences == status
  {
    if !LocalMissing(log, status) && Deficient(log, status) == {} {
      forall o ensures o in log.sequences <==> o in status {
        if o in log.sequences {
          assert o !in Deficient(log, status);
        }
      }
      forall o | o in status ensures log.sequences[o] == status[o] {
        assert o !in Deficient(log, status);
      }
    }
  }

  // ---------------------------------------------------------------- the handler

  /** Without failing handlers, and with nothing else run meanwhile, a packet hands over exactly the
      rumors that were next when their turn came, and reports whether there were any. */
  lemma {:induction false} ProcessReports(s: State, rumors: seq<Rumor>, handlings: seq<Handling>, processed: bool)
    requires |rumors| == |handlings| && forall i :: 0 <= i < |rumors| ==> handlings[i] == Handling([], true)
    ensures var out := Process(s, processed, rumors, handlings);
      && !out.failed && s.handed <= out.state.handed
      && (out.processed <==> processed || |out.state.handed| > |s.handed|)
    decreases |rumors|
  {
    if rumors != [] {
      ProcessReports(Do(s, Get(rumors[0])), rumors[1..], handlings[1..], processed || IsNext(s.log, rumors[0]));
    }
  }

  lemma {:induction false} SuccessfulPrefix(s: State, rumors: seq<Rumor>, handlings: seq<Handling>, i: nat,
                                            processed: bool)
    requires |rumors| == |handlings| && i <= |rumors| && forall j :: 0 <= j < i ==> handlings[j].ok
    ensures var mid := Process(s, processed, rumors[..i], handlings[..i]);
      && !mid.failed
      && Process(s, processed, rumors, handlings) == Process(mid.state, mid.processed, rumors[i..], handlings[i..])
    decreases i
  {
    if i > 0 {
      assert rumors[..i][1..] == rumors[1..][..i - 1] && handlings[..i][1..] == handlings[1..][..i - 1];
      assert rumors[1..][i - 1..] == rumors[i..] && handlings[1..][i - 1..] == handlings[i..];
      if !IsNext(s.log, rumors[0]) {
        SuccessfulPrefix(s, rumors[1..], handlings[1..], i - 1, processed);
      } else {
        var s1 := DoAll(Do(s, Get(rumors[0])), handlings[0].meanwhile);
        SuccessfulPrefix(s1, rumors[1..], handlings[1..], i - 1, true);
      }
    } else {
      assert rumors[0..] == rumors && handlings[0..] == handlings;
    }
  }

  /** The first rumor that is taken and whose handler fails ends the packet with an error. */
  lemma FailingHandlerEnds(s: State, rumors: seq<Rumor>, handlings: seq<Handling>, i: nat)
    requires |rumors| == |handlings| && i < |rumors| && forall j :: 0 <= j < i ==> handlings[j].ok
    requires !handlings[i].ok && IsNext(Process(s, false, rumors[..i], handlings[..i]).state.log, rumors[i])
    ensures var before := Process(s, false, rumors[..i], handlings[..i]).state;
      Process(s, false, rumors, handlings)
      == Outcome(DoAll(Do(before, Get(rumors[i])), handlings[i].meanwhile), false, true)
  {
    SuccessfulPrefix(s, rumors, handlings, i, false);
  }

  class RumorsHandler {
    var sequenceMap: Status
    var rumors: map<Peer, seq<Rumor>>
    // the rumors passed to processRumor so far
    ghost var handed: seq<Rumor>

    ghost function View(): State
      reads this
    {
      State(Log(sequenceMap, rumors), handed)
    }

    constructor ()
      ensures View() == State(EMPTY_LOG, [])
    {
      sequenceMap, rumors, handed := map[], map[], [];
    }

    method CreateRumorsMsg(origin: Peer, msg: Payload) returns (rumor: Rumor)
      modifies this
      ensures rumor == NewRumor(old(View()).log, origin, msg)
      ensures View() == Do(old(View()), Create(origin, msg))
    {
      var sequence := (if origin in sequenceMap then sequenceMap[origin] else 0) + 1;
      sequenceMap := sequenceMap[origin := sequence];
      rumor := Rumor(origin, sequence, msg);
      rumors := rumors[origin := (if origin in rumors then rumors[origin] else []) + [rumor]];
    }

    // the part of processRumors that runs under the lock for one rumor
    method Admit(m: Rumor) returns (next: bool)
      modifies this
      ensures next == IsNext(old(View()).log, m)
      ensures View() == Do(old(View()), Get(m))
    {
      var last := if m.origin in sequenceMap then sequenceMap[m.origin] else 0;
      next := m.sequence == last + 1;
      if next {
        sequenceMap := sequenceMap[m.origin := m.sequence];
        rumors := rumors[m.origin := (if m.origin in rumors then rumors[m.origin] else []) + [m]];
        handed := handed + [m];
      }
    }

    // whatever else runs on this handler while the lock is released
    method Meanwhile(ops: seq<Op>)
      modifies this
      ensures View() == DoAll(old(View()), ops)
    {
      for i := 0 to |ops|
        invariant DoAll(View(), ops[i..]) == DoAll(old(View()), ops)
      {
        match ops[i]
        case Create(o, m) =>
          var _ := CreateRumorsMsg(o, m);
        case Get(r) =>
          var _ := Admit(r);
      }
    }

    method ProcessRumors(packet: seq<Rumor>, handlings: seq<Handling>) returns (processed: bool, failed: bool)
      requires |packet| == |handlings|
      modifies this
      ensures Outcome(View(), processed, failed) == Process(old(View()), false, packet, handlings)
    {
      processed, failed := false, false;
      for i := 0 to |packet|
        invariant !failed
        invariant Process(View(), processed, packet[i..], handlings[i..]) == Process(old(View()), false, packet,
              handlings)
      {
        assert packet[i..][1..] == packet[i + 1..] && handlings[i..][1..] == handlings[i + 1..];
        var next := Admit(packet[i]);
        if next {
          processed := true;
          Meanwhile(handlings[i].meanwhile);
          if !handlings[i].ok {
            return false, true;
          }
        }
      }
    }

    method GetSequenceMap() returns (copy: Status)
      ensures copy == sequenceMap
    {
      copy := sequenceMap;
    }

    method IsLocalMissingRumors(status: Status) returns (missing: bool)
      ensures missing == LocalMissing(View().log, status)
    {
      var left := status.Keys;
      while left != {}
        invariant left <= status.Keys
        invariant forall o :: o in status && o !in left ==> o in sequenceMap && status[o] <= sequenceMap[o]
        decreases left
      {
        var o :| o in left;
        if o !in sequenceMap || status[o] > sequenceMap[o] {
          return true;
        }
        left := left - {o};
      }
      missing := false;
    }

    /** The rumors of some deficient origin, from the first one the remote node lacks; the
        order in which Go visits the map is free. */
    method GetRemoteMissingRumors(status: Status) returns (missing: seq<Rumor>)
      requires GapFree(View().log)
      ensures missing == [] <==> Deficient(View().log, status) == {}
      ensures missing != [] ==>
        exists o :: o in Deficient(View().log, status) && missing == LogOf(View().log, o)[Known(status, o)..]
    {
      var left := rumors.Keys;
      while left != {}
        invariant left <= rumors.Keys
        invariant Deficient(View().log, status) <= left
        decreases left
      {
        var o :| o in left;
        var known := if o in status then status[o] else 0;
        if known < sequenceMap[o] {
          assert o in Deficient(View().log, status);
          return rumors[o][known..];
        }
        left := left - {o};
      }
      missing := [];
    }
  }
}
