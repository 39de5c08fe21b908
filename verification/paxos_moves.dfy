/** The moves the scripted runs are made of: a few actions each, with their effect on the stage. */
module PaxosMoves {
  import opened Common
  import opened Blockchain
  import opened PaxosSpec
  import opened PaxosSystem
  import opened PaxosRuns
  import opened PaxosMail
  import opened PaxosStage

  /** Part r has said `ms`, and has handled them itself. */
  function Spread(st: Stage, r: nat, ms: seq<Message>): Stage {
    if r == 0 then st.(b := st.b.(ofA := st.b.ofA + ms), m := st.m.(ofA := st.m.ofA + ms))
    else if r == 1 then st.(a := st.a.(ofB := st.a.ofB + ms), m := st.m.(ofB := st.m.ofB + ms))
    else Stage(st.a.(ofM := st.a.ofM + ms), st.b.(ofM := st.b.ofM + ms), st.m.(ofM := st.m.ofM + ms))
  }

  // ---------------------------------------------------------------- the Tag goroutine

  ghost predicate Rests(st: Stage, r: nat) {
    !SeatOf(st, r).node.crashed && SeatOf(st, r).own == []
  }

  lemma Begins(p: Cast, st: Stage, r: nat) returns (st': Stage)
    requires Staged(p) && Stands(p, st) && r <= 1 && Rests(st, r)
    requires SeatOf(st, r).node.thread.Resting? && !SeatOf(st, r).node.h.running
    ensures Stands(p, st')
    ensures var seat := SeatOf(st, r);
      st' == Reseat(st, r, seat.(node := seat.node.(h := seat.node.h.(running := true), thread := Ready)))
  {
    hide Stands, GoodConfig, Distinct;
    st' := Acts(p, st, r, Begin(p.who[r]));
  }

  lemma Retries(p: Cast, st: Stage, r: nat) returns (st': Stage)
    requires Staged(p) && Stands(p, st) && r <= 1 && Rests(st, r) && Busy(SeatOf(st, r).node.thread)
    ensures Stands(p, st')
    ensures var seat := SeatOf(st, r);
      st' == Reseat(st, r, seat.(node := seat.node.(h := NextID(ConfOf(p.c, p.who[r]), seat.node.h), thread := Ready)))
  {
    hide Stands, GoodConfig, Distinct;
    if SeatOf(st, r).node.thread.Preparing? {
      st' := Acts(p, st, r, RetryPrepare(p.who[r]));
    } else {
      st' := Acts(p, st, r, RetryPropose(p.who[r]));
    }
  }

  lemma Finishes(p: Cast, st: Stage, r: nat) returns (st': Stage)
    requires Staged(p) && Stands(p, st) && r <= 1 && Rests(st, r) && SeatOf(st, r).node.thread.Proposing?
    ensures Stands(p, st')
    ensures st' == Reseat(st, r, SeatOf(st, r).(node := SeatOf(st, r).node.(thread := Resting)))
  {
    hide Stands, GoodConfig, Distinct;
    st' := Acts(p, st, r, Finish(p.who[r]));
  }

  ghost predicate New(st: Stage, v: PaxosValue) {
    v != NO_VALUE && v !in st.a.node.created && v !in st.b.node.created && v !in st.m.node.created
  }

  function PrepareOf(p: Cast, r: nat, h: Handler): Message
    requires r < |p.who|
  {
    Prepare(h.step, h.paxosID, p.who[r])
  }

  /** The promise a node makes for its own ballot. */
  function OwnPromise(p: Cast, r: nat, h: Handler): Message
    requires r < |p.who|
  {
    Promise(p.who[r], h.step, h.paxosID, h.acceptedID,
            if h.acceptedValue != NO_VALUE then Some(h.acceptedValue) else None)
  }

  /** A node that has promised its own ballot and not counted the promise. */
  function Prepared(node: Node, v: PaxosValue): Node {
    node.(h := node.h.(proposedValue := v, phase := Phase1, promises := 0, running := true, maxID := node.h.paxosID),
          thread := Preparing(0), created := node.created + {v})
  }

  lemma Attempts(p: Cast, st: Stage, r: nat, v: PaxosValue) returns (st': Stage)
    requires Staged(p) && Stands(p, st) && r <= 1 && Rests(st, r) && New(st, v) && SeatOf(st, r).node.thread.Ready?
    ensures Stands(p, st')
    ensures var seat := SeatOf(st, r);
      var h, m := seat.node.h, PrepareOf(p, r, seat.node.h);
      st' == Told(Reseat(st, r, seat.(tag := m, node := seat.node.(
                                          h := h.(proposedValue := v, phase := Phase1, promises := 0),
                                          thread := Preparing(0), created := seat.node.created + {v}))), r, Some(m))
  {
    hide Stands, GoodConfig, Distinct;
    st' := Acts(p, st, r, Attempt(p.who[r], v));
  }

  lemma PromisesIt(p: Cast, r: nat, from: Node, to: Node, m: Message, out: Message)
    requires GoodCast(p) && r < |p.who| && !from.crashed && |from.channel| <= 1
    requires m.Prepare? && m.step == from.h.step && m.id > from.h.maxID
    requires to == from.(h := from.h.(running := true, maxID := m.id))
    requires out == Promise(m.source, m.step, m.id, from.h.acceptedID,
                            if from.h.acceptedValue != NO_VALUE then Some(from.h.acceptedValue) else None)
    ensures Takes(p, r, m, from, to, Some(out))
  {
  }

  function ProposeOf(h: Handler, v: PaxosValue): Message {
    Propose(h.step, h.paxosID, v)
  }

  function AcceptOf(h: Handler, v: PaxosValue): Message {
    Accept(h.step, h.paxosID, v)
  }

  /** A node that has accepted its own proposal and not counted the accept. */
  function Proposed(node: Node, v: PaxosValue): Node {
    node.(h := if node.h.acceptedValue == NO_VALUE
               then node.h.(running := true, acceptedID := node.h.paxosID, acceptedValue := v)
               else node.h.(running := true),
          thread := Proposing(0), channel := [])
  }

  lemma Suggests(p: Cast, st: Stage, r: nat, v: PaxosValue) returns (st': Stage)
    requires Staged(p) && Stands(p, st) && r <= 1 && Rests(st, r)
    requires var node := SeatOf(st, r).node;
      && node.thread.Preparing? && node.channel == [v] && (exists o :: o in node.offers && o.value == v)
      && (p.d.offered ==> Offer(node.h.step, node.h.paxosID, v) in node.offers)
    ensures Stands(p, st')
    ensures var seat := SeatOf(st, r);
      var m := ProposeOf(seat.node.h, v);
      st' == Told(Reseat(st, r, seat.(tag := m, node := seat.node.(thread := Proposing(0), channel := []))), r, Some(m))
  {
    hide Stands, GoodConfig, Distinct;
    st' := Acts(p, st, r, Suggest(p.who[r], v));
  }

  /** A proposer proposes what it reads from its channel, and accepts it; its accept waits. */
  lemma Proposes(p: Cast, st: Stage, r: nat, v: PaxosValue) returns (st': Stage)
    requires Staged(p) && Stands(p, st) && r <= 1 && Rests(st, r)
    requires var node := SeatOf(st, r).node;
      && node.thread.Preparing? && node.channel == [v] && (exists o :: o in node.offers && o.value == v)
      && (p.d.offered ==> Offer(node.h.step, node.h.paxosID, v) in node.offers)
      && node.h.maxID == node.h.paxosID
    ensures Stands(p, st')
    ensures var seat := SeatOf(st, r); var prop, acc := ProposeOf(seat.node.h, v), AcceptOf(seat.node.h, v);
      st' == Spread(Reseat(st, r, seat.(node := Proposed(seat.node, v), tag := prop, own := [acc])), r, [prop, acc])
  {
    hide Stands, GoodConfig, Distinct;
    var node := SeatOf(st, r).node;
    st' := Suggests(p, st, r, v);
    AcceptsIt(p, r, SeatOf(st', r).node, Proposed(node, v), ProposeOf(node.h, v), AcceptOf(node.h, v));
    hide Takes;
    st' := Hears(p, st', r, r, 0, Proposed(node, v), Some(AcceptOf(node.h, v)));
  }

  lemma AcceptsIt(p: Cast, r: nat, from: Node, to: Node, m: Message, out: Message)
    requires GoodCast(p) && r < |p.who| && !from.crashed && |from.channel| <= 1
    requires m.Propose? && m.step == from.h.step && m.id == from.h.maxID && out == Accept(m.step, m.id, m.value)
    requires to == from.(h := if from.h.acceptedValue == NO_VALUE
                              then from.h.(running := true, acceptedID := m.id, acceptedValue := m.value)
                              else from.h.(running := true))
    ensures Takes(p, r, m, from, to, Some(out))
  {
  }

  /** A proposer handles the first of its own messages. */
  lemma HearsOwn(p: Cast, st: Stage, r: nat, node: Node, out: Option<Message>) returns (st': Stage)
    requires Staged(p) && Stands(p, st) && r <= 1
    requires SeatOf(st, r).own != [] && Takes(p, r, SeatOf(st, r).own[0], SeatOf(st, r).node, node, out)
    ensures Stands(p, st')
    ensures st' == Told(Reseat(st, r, SeatOf(st, r).(node := node, own := SeatOf(st, r).own[1..])), r, out)
  {
    hide Stands, GoodConfig, Distinct, Takes;
    st' := Hears(p, st, r, r, 0, node, out);
  }

  // ---------------------------------------------------------------- messages that change nothing

  /** The message does not matter to the node. */
  ghost predicate Stale(me: Peer, h: Handler, m: Message) {
    match m
    case Prepare(step, id, _) => step != h.step || id <= h.maxID
    case Promise(dest, step, _, _, _) => dest != me || step != h.step
    case Propose(step, id, _) => step != h.step || id != h.maxID
    case Accept(step, _, _) => step != h.step
    case TLC(step, _) => step < h.step
  }

  lemma StaleTakes(p: Cast, r: nat, m: Message, node: Node)
    requires GoodCast(p) && r < |p.who| && !node.crashed && |node.channel| <= 1 && Stale(p.who[r], node.h, m)
    ensures Takes(p, r, m, node, node, None)
  {
  }

  /** A proposer passes over the next message of the other one, or of its own. */
  lemma Ignores(p: Cast, st: Stage, r: nat, q: nat) returns (st': Stage)
    requires Staged(p) && Stands(p, st) && r <= 1 && q <= 1
    requires var seat := SeatOf(st, r);
      && Box(seat, r, q) != [] && (q != r ==> Free(seat)) && !seat.node.crashed && |seat.node.channel| <= 1
      && Stale(p.who[r], seat.node.h, Box(seat, r, q)[0])
    ensures Stands(p, st')
    ensures st' == Reseat(st, r, Opened(SeatOf(st, r), r, q, 0))
  {
    hide Stands, GoodConfig, Distinct, Takes;
    var seat := SeatOf(st, r);
    StaleTakes(p, r, Box(seat, r, q)[0], seat.node);
    st' := Hears(p, st, r, q, 0, seat.node, None);
  }

  /** A proposer passes over the next message of every member. */
  lemma IgnoresAll(p: Cast, st: Stage, r: nat) returns (st': Stage)
    requires Staged(p) && Stands(p, st) && r <= 1
    requires var seat := SeatOf(st, r);
      && seat.ofM != [] && Free(seat) && !seat.node.crashed && |seat.node.channel| <= 1
      && Stale(p.who[r], seat.node.h, seat.ofM[0])
    ensures Stands(p, st')
    ensures st' == Reseat(st, r, SeatOf(st, r).(ofM := SeatOf(st, r).ofM[1..]))
  {
    hide Stands, GoodConfig, Distinct, Takes;
    var seat := SeatOf(st, r);
    StaleTakes(p, r, seat.ofM[0], seat.node);
    st' := HearsAll(p, st, r, (i: nat) => seat.node, None);
  }

  ghost predicate StaleForAll(p: Cast, h: Handler, m: Message) {
    forall r :: 2 <= r < |p.who| ==> Stale(p.who[r], h, m)
  }

  lemma StaleEachTakes(p: Cast, m: Message, node: Node)
    requires GoodCast(p) && !node.crashed && |node.channel| <= 1 && StaleForAll(p, node.h, m)
    ensures EachTakes(p, m, node, node, None)
  {
    hide Takes, GoodConfig, Distinct;
    forall r | 2 <= r < |p.who| ensures Takes(p, r, m, Own(p, r, node), Own(p, r, node), None) {
      StaleTakes(p, r, m, Own(p, r, node));
    }
  }

  /** The members pass over the next message of a proposer, or of their own. */
  lemma AllIgnore(p: Cast, st: Stage, q: nat) returns (st': Stage)
    requires Staged(p) && Stands(p, st) && q <= 2 && (q != 2 ==> st.m.own == [])
    requires Box(st.m, 2, q) != [] && !st.m.node.crashed && |st.m.node.channel| <= 1
    requires StaleForAll(p, st.m.node.h, Box(st.m, 2, q)[0])
    ensures Stands(p, st')
    ensures st' == st.(m := Opened(st.m, 2, q, 0))
  {
    hide Stands, GoodConfig, Distinct, EachTakes, StaleForAll;
    StaleEachTakes(p, Box(st.m, 2, q)[0], st.m.node);
    st' := AllHear(p, st, q, 0, st.m.node, None);
  }

  /** The members pass over the next message of each other. */
  lemma AllIgnoreEachOther(p: Cast, st: Stage) returns (st': Stage)
    requires Staged(p) && Stands(p, st) && Members(p) > 0 && st.m.own == [] && st.m.ofM != []
    requires !st.m.node.crashed && |st.m.node.channel| <= 1 && StaleForAll(p, st.m.node.h, st.m.ofM[0])
    ensures Stands(p, st')
    ensures st' == st.(m := st.m.(ofM := st.m.ofM[1..]))
  {
    hide Stands, GoodConfig, Distinct, EachTakes, StaleForAll;
    StaleEachTakes(p, st.m.ofM[0], st.m.node);
    st' := AllShare(p, st, (i: nat) => st.m.node);
  }

  // ---------------------------------------------------------------- answers

  /** The members answer the next message of a proposer, and handle their answer. */
  lemma AllReply(p: Cast, st: Stage, q: nat, between: Node, out: Message, node: Node) returns (st': Stage)
    requires Staged(p) && Stands(p, st) && q <= 1 && st.m.own == [] && Box(st.m, 2, q) != []
    requires EachTakes(p, Box(st.m, 2, q)[0], st.m.node, between, Some(out)) && EachTakes(p, out, between, node, None)
    ensures Stands(p, st')
    ensures st' == Spread(st.(m := Opened(st.m, 2, q, 0).(node := node)), 2, [out])
  {
    hide Stands, GoodConfig, Distinct, EachTakes;
    st' := AllHear(p, st, q, 0, between, Some(out));
    st' := AllHear(p, st', 2, 0, node, None);
  }

  /** The members promise a proposer's ballot. */
  lemma AllPromise(p: Cast, st: Stage, q: nat, node: Node, out: Message) returns (st': Stage)
    requires Staged(p) && Stands(p, st) && q <= 1 && st.m.own == [] && Box(st.m, 2, q) != []
    requires !st.m.node.crashed && |st.m.node.channel| <= 1
    requires var m, h := Box(st.m, 2, q)[0], st.m.node.h;
      && m.Prepare? && m.step == h.step && m.id > h.maxID && m.source == p.who[q]
      && node == st.m.node.(h := h.(running := true, maxID := m.id))
      && out == Promise(m.source, m.step, m.id, h.acceptedID,
                        if h.acceptedValue != NO_VALUE then Some(h.acceptedValue) else None)
    ensures Stands(p, st')
    ensures st' == Spread(st.(m := Opened(st.m, 2, q, 0).(node := node)), 2, [out])
  {
    hide Stands, GoodConfig, Takes;
    var m := Box(st.m, 2, q)[0];
    assert EachTakes(p, m, st.m.node, node, Some(out)) by {
      forall r | 2 <= r < |p.who| ensures Takes(p, r, m, Own(p, r, st.m.node), Own(p, r, node), Some(out)) {
        PromisesIt(p, r, Own(p, r, st.m.node), Own(p, r, node), m, out);
      }
    }
    StaleEachTakes(p, out, node);
    st' := AllReply(p, st, q, node, out, node);
  }

  // ---------------------------------------------------------------- accepts below the threshold

  /** The node after i accepts of v that do not decide. */
  function CountedBy(node: Node, v: PaxosValue, i: nat): Node {
    if i == 0 then node
    else
      var counts := node.h.acceptedValues;
      node.(h := node.h.(running := true, acceptedValues := counts[v := Count(counts, v) + i]))
  }

  lemma CountTakes(p: Cast, r: nat, m: Message, from: Node, i: nat)
    requires GoodCast(p) && r < |p.who| && !from.crashed && |from.channel| <= 1
    requires m.Accept? && m.step == from.h.step && Count(from.h.acceptedValues, m.value) + i + 1 < p.c.threshold
    ensures Takes(p, r, m, CountedBy(from, m.value, i), CountedBy(from, m.value, i + 1), None)
  {
    hide Leave, Stored, GoodConfig, Distinct;
    var counts, v := from.h.acceptedValues, m.value;
    if i > 0 {
      var now: nat, next: nat := Count(counts, v) + i, Count(counts, v) + i + 1;
      var once: map<PaxosValue, nat> := counts[v := now];
      assert once[v := next] == counts[v := next];
    }
  }

  /** A proposer counts the accept of every member. */
  lemma CountsAll(p: Cast, st: Stage, r: nat) returns (st': Stage)
    requires Staged(p) && Stands(p, st) && r <= 1
    requires var seat := SeatOf(st, r);
      && seat.ofM != [] && Free(seat) && !seat.node.crashed && |seat.node.channel| <= 1
      && var m := seat.ofM[0];
         m.Accept? && m.step == seat.node.h.step
         && Count(seat.node.h.acceptedValues, m.value) + Members(p) < p.c.threshold
    ensures Stands(p, st')
    ensures var seat := SeatOf(st, r);
      st' == Reseat(st, r, seat.(node := CountedBy(seat.node, seat.ofM[0].value, Members(p)), ofM := seat.ofM[1..]))
  {
    hide Stands, GoodConfig, Distinct, Takes, CountedBy;
    var seat := SeatOf(st, r);
    var m := seat.ofM[0];
    forall i | 0 <= i < Members(p)
      ensures Takes(p, r, m, CountedBy(seat.node, m.value, i), CountedBy(seat.node, m.value, i + 1), None)
    {
      CountTakes(p, r, m, seat.node, i);
    }
    CountsNone(seat.node, m.value);
    st' := HearsAll(p, st, r, (i: nat) => CountedBy(seat.node, m.value, i), None);
  }

  /** A proposer counts its own accept. */
  lemma CountsItsOwn(p: Cast, st: Stage, r: nat) returns (st': Stage)
    requires Staged(p) && Stands(p, st) && r <= 1
    requires var seat := SeatOf(st, r);
      && seat.own != [] && !seat.node.crashed && |seat.node.channel| <= 1
      && var m := seat.own[0];
         m.Accept? && m.step == seat.node.h.step && Count(seat.node.h.acceptedValues, m.value) + 1 < p.c.threshold
    ensures Stands(p, st')
    ensures var seat := SeatOf(st, r);
      st' == Reseat(st, r, seat.(node := CountedBy(seat.node, seat.own[0].value, 1), own := seat.own[1..]))
  {
    hide Stands, GoodConfig, Distinct, Takes, CountedBy;
    var seat := SeatOf(st, r);
    CountTakes(p, r, seat.own[0], seat.node, 0);
    CountsNone(seat.node, seat.own[0].value);
    st' := HearsOwn(p, st, r, CountedBy(seat.node, seat.own[0].value, 1), None);
  }

  lemma CountsNone(node: Node, v: PaxosValue)
    ensures CountedBy(node, v, 0) == node
  {
  }

  /** A proposer counts the accepts of the members, and the last one decides. */
  lemma CountsToDecide(p: Cast, st: Stage, r: nat, node: Node, out: Message) returns (st': Stage)
    requires Staged(p) && Stands(p, st) && r <= 1 && Members(p) > 0
    requires var seat := SeatOf(st, r);
      && seat.ofM != [] && Free(seat) && !seat.node.crashed && |seat.node.channel| <= 1
      && var m := seat.ofM[0];
         m.Accept? && m.step == seat.node.h.step
         && Count(seat.node.h.acceptedValues, m.value) + Members(p) == p.c.threshold
         && Takes(p, r, m, CountedBy(seat.node, m.value, Members(p) - 1), node, Some(out))
    ensures Stands(p, st')
    ensures var seat := SeatOf(st, r);
      st' == Told(Reseat(st, r, seat.(node := node, ofM := seat.ofM[1..])), r, Some(out))
  {
    hide Stands, GoodConfig, Distinct, Takes, CountedBy;
    var seat, n := SeatOf(st, r), Members(p);
    var m := seat.ofM[0];
    var f := (i: nat) => if i < n then CountedBy(seat.node, m.value, i) else node;
    forall i | 0 <= i < n - 1 ensures Takes(p, r, m, f(i), f(i + 1), None) {
      CountTakes(p, r, m, seat.node, i);
    }
    CountsNone(seat.node, m.value);
    st' := HearsAll(p, st, r, f, Some(out));
  }

  lemma CountEachTakes(p: Cast, m: Message, from: Node, i: nat)
    requires GoodCast(p) && !from.crashed && |from.channel| <= 1
    requires m.Accept? && m.step == from.h.step && Count(from.h.acceptedValues, m.value) + i + 1 < p.c.threshold
    ensures EachTakes(p, m, CountedBy(from, m.value, i), CountedBy(from, m.value, i + 1), None)
  {
    hide Takes, GoodConfig, Distinct;
    forall r | 2 <= r < |p.who|
      ensures Takes(p, r, m, Own(p, r, CountedBy(from, m.value, i)), Own(p, r, CountedBy(from, m.value, i + 1)), None)
    {
      CountTakes(p, r, m, Own(p, r, from), i);
    }
  }

  /** The members count the accept of a proposer. */
  lemma AllCount(p: Cast, st: Stage, q: nat) returns (st': Stage)
    requires Staged(p) && Stands(p, st) && q <= 1 && st.m.own == [] && Box(st.m, 2, q) != []
    requires !st.m.node.crashed && |st.m.node.channel| <= 1
    requires var m, h := Box(st.m, 2, q)[0], st.m.node.h;
      m.Accept? && m.step == h.step && Count(h.acceptedValues, m.value) + 1 < p.c.threshold
    ensures Stands(p, st')
    ensures st' == st.(m := Opened(st.m, 2, q, 0).(node := CountedBy(st.m.node, Box(st.m, 2, q)[0].value, 1)))
  {
    hide Stands, GoodConfig, Distinct, EachTakes, CountedBy;
    var m := Box(st.m, 2, q)[0];
    CountEachTakes(p, m, st.m.node, 0);
    CountsNone(st.m.node, m.value);
    st' := AllHear(p, st, q, 0, CountedBy(st.m.node, m.value, 1), None);
  }

  /** The members count the accepts of each other. */
  lemma CountEachOther(p: Cast, st: Stage) returns (st': Stage)
    requires Staged(p) && Stands(p, st) && Members(p) > 0 && st.m.own == [] && st.m.ofM != []
    requires !st.m.node.crashed && |st.m.node.channel| <= 1
    requires var m := st.m.ofM[0];
      && m.Accept? && m.step == st.m.node.h.step
      && Count(st.m.node.h.acceptedValues, m.value) + Members(p) - 1 < p.c.threshold
    ensures Stands(p, st')
    ensures st' == st.(m := st.m.(node := CountedBy(st.m.node, st.m.ofM[0].value, Members(p) - 1),
                                  ofM := st.m.ofM[1..]))
  {
    hide Stands, GoodConfig, Distinct, EachTakes, CountedBy;
    var m := st.m.ofM[0];
    forall i | 0 <= i < Members(p) - 1
      ensures EachTakes(p, m, CountedBy(st.m.node, m.value, i), CountedBy(st.m.node, m.value, i + 1), None)
    {
      CountEachTakes(p, m, st.m.node, i);
    }
    CountsNone(st.m.node, m.value);
    st' := AllShare(p, st, (i: nat) => CountedBy(st.m.node, m.value, i));
  }

  /** The node after it accepts proposal m, before it counts its accept. */
  function Accepting(node: Node, m: Message): Node
    requires m.Propose?
  {
    node.(h := if node.h.acceptedValue == NO_VALUE
               then node.h.(running := true, acceptedID := m.id, acceptedValue := m.value)
               else node.h.(running := true))
  }

  /** The members accept a proposal, and count their accept. */
  lemma AllAccept(p: Cast, st: Stage, q: nat) returns (st': Stage)
    requires Staged(p) && Stands(p, st) && q <= 1 && st.m.own == [] && Box(st.m, 2, q) != []
    requires !st.m.node.crashed && |st.m.node.channel| <= 1
    requires var m, h := Box(st.m, 2, q)[0], st.m.node.h;
      m.Propose? && m.step == h.step && m.id == h.maxID && Count(h.acceptedValues, m.value) + 1 < p.c.threshold
    ensures Stands(p, st')
    ensures var m := Box(st.m, 2, q)[0];
      st' == Spread(st.(m := Opened(st.m, 2, q, 0).(node := CountedBy(Accepting(st.m.node, m), m.value, 1))), 2,
                    [Accept(m.step, m.id, m.value)])
  {
    hide Stands, GoodConfig, Takes, CountedBy;
    var m := Box(st.m, 2, q)[0];
    var out, between := Accept(m.step, m.id, m.value), Accepting(st.m.node, m);
    forall r | 2 <= r < |p.who| ensures Takes(p, r, m, Own(p, r, st.m.node), Own(p, r, between), Some(out)) {
      AcceptsIt(p, r, Own(p, r, st.m.node), Own(p, r, between), m, out);
    }
    CountEachTakes(p, out, between, 0);
    CountsNone(between, m.value);
    st' := AllReply(p, st, q, between, out, CountedBy(between, m.value, 1));
  }

  /** A proposer counts the accept of the other one. */
  lemma CountsOther(p: Cast, st: Stage, r: nat) returns (st': Stage)
    requires Staged(p) && Stands(p, st) && r <= 1
    requires var seat := SeatOf(st, r);
      && Box(seat, r, 1 - r) != [] && Free(seat) && !seat.node.crashed && |seat.node.channel| <= 1
      && var m := Box(seat, r, 1 - r)[0];
         m.Accept? && m.step == seat.node.h.step && Count(seat.node.h.acceptedValues, m.value) + 1 < p.c.threshold
    ensures Stands(p, st')
    ensures var seat := SeatOf(st, r);
      st' == Reseat(st, r, Opened(seat, r, 1 - r, 0).(node := CountedBy(seat.node, Box(seat, r, 1 - r)[0].value, 1)))
  {
    hide Stands, GoodConfig, Distinct, Takes, CountedBy;
    var seat := SeatOf(st, r);
    var m := Box(seat, r, 1 - r)[0];
    CountTakes(p, r, m, seat.node, 0);
    CountsNone(seat.node, m.value);
    st' := Hears(p, st, r, 1 - r, 0, CountedBy(seat.node, m.value, 1), None);
  }

  /** A proposer accepts the proposal of the other one, and counts its accept. */
  lemma AcceptsOther(p: Cast, st: Stage, r: nat) returns (st': Stage)
    requires Staged(p) && Stands(p, st) && r <= 1
    requires var seat := SeatOf(st, r);
      && Box(seat, r, 1 - r) != [] && seat.own == [] && !seat.node.crashed && |seat.node.channel| <= 1
      && var m, h := Box(seat, r, 1 - r)[0], seat.node.h;
         && m.Propose? && m.step == h.step && m.id == h.maxID && Count(h.acceptedValues, m.value) + 1 < p.c.threshold
    ensures Stands(p, st')
    ensures var seat := SeatOf(st, r); var m := Box(seat, r, 1 - r)[0];
      var node := CountedBy(Accepting(seat.node, m), m.value, 1);
      st' == Spread(Reseat(st, r, Opened(seat, r, 1 - r, 0).(node := node)), r, [Accept(m.step, m.id, m.value)])
  {
    hide Stands, GoodConfig, Distinct, Takes, CountedBy;
    var seat := SeatOf(st, r);
    var m := Box(seat, r, 1 - r)[0];
    var out, between := Accept(m.step, m.id, m.value), Accepting(seat.node, m);
    AcceptsIt(p, r, seat.node, between, m, out);
    st' := Hears(p, st, r, 1 - r, 0, between, Some(out));
    st' := CountsItsOwn(p, st', r);
  }

  // ---------------------------------------------------------------- promises below the threshold

  /** A proposer promises the ballot of the other one, and handles its promise. */
  lemma PromisesOther(p: Cast, st: Stage, r: nat, out: Message) returns (st': Stage)
    requires Staged(p) && Stands(p, st) && r <= 1
    requires var seat := SeatOf(st, r);
      && Box(seat, r, 1 - r) != [] && Free(seat) && !seat.node.crashed && |seat.node.channel| <= 1
      && var m, h := Box(seat, r, 1 - r)[0], seat.node.h;
         && m.Prepare? && m.step == h.step && m.id > h.maxID && m.source == p.who[1 - r]
         && out == Promise(m.source, m.step, m.id, h.acceptedID,
                           if h.acceptedValue != NO_VALUE then Some(h.acceptedValue) else None)
    ensures Stands(p, st')
    ensures var seat := SeatOf(st, r);
      var node := seat.node.(h := seat.node.h.(running := true, maxID := Box(seat, r, 1 - r)[0].id));
      st' == Spread(Reseat(st, r, Opened(seat, r, 1 - r, 0).(node := node)), r, [out])
  {
    hide Stands, GoodConfig, Takes;
    var seat := SeatOf(st, r);
    var m := Box(seat, r, 1 - r)[0];
    var node := seat.node.(h := seat.node.h.(running := true, maxID := m.id));
    PromisesIt(p, r, seat.node, node, m, out);
    StaleTakes(p, r, out, node);
    st' := Hears(p, st, r, 1 - r, 0, node, Some(out));
    st' := Hears(p, st', r, r, |seat.own|, node, None);
    assert Without(seat.own + [out], |seat.own|) == seat.own;
  }

  // ---------------------------------------------------------------- promises counted

  /** The proposer after i promises like m: the one that completes the threshold puts a value on
      the promise channel. */
  function TalliedBy(p: Cast, node: Node, m: Message, i: nat): Node
    requires m.Promise? && (m.acceptedID > node.h.bestID ==> m.acceptedValue.Some?)
  {
    if i == 0 then node
    else
      var h := node.h;
      var better := m.acceptedID > h.bestID;
      var h1 := h.(promises := h.promises + i, bestID := if better then m.id else h.bestID,
                   bestValue := if better then m.acceptedValue.value else h.bestValue);
      if h1.promises < p.c.threshold then node.(h := h1)
      else
        var offer := if h1.bestID != 0 then h1.bestValue else h1.proposedValue;
        node.(h := h1.(phase := Phase2), channel := node.channel + [offer],
                  offers := node.offers + {Offer(h.step, h.paxosID, offer)})
  }

  /** Promise m counts for part r. */
  ghost predicate Counts(p: Cast, r: nat, node: Node, m: Message)
    requires r < |p.who|
  {
    && !node.crashed && |node.channel| <= 1
    && m.Promise? && m.dest == p.who[r] && m.step == node.h.step && node.h.phase == Phase1
    && m.acceptedID <= m.id && (m.acceptedID > node.h.bestID ==> m.acceptedValue.Some?)
    && (p.d.timely ==> m.id == node.h.paxosID)
  }

  /** The promise channel has room for what i promises more may put on it. */
  ghost predicate Room(p: Cast, node: Node, i: nat) {
    node.h.promises + i < p.c.threshold || (node.h.promises + i == p.c.threshold && node.channel == [])
  }

  lemma TallyTakes(p: Cast, r: nat, m: Message, from: Node, i: nat)
    requires GoodCast(p) && r < |p.who| && Counts(p, r, from, m) && Room(p, from, i + 1)
    ensures Takes(p, r, m, TalliedBy(p, from, m, i), TalliedBy(p, from, m, i + 1), None)
  {
    hide GoodConfig, Distinct;
    if i == 0 {
      TallyOnce(p, r, m, from, TalliedBy(p, from, m, 1));
    } else {
      TallyOnce(p, r, m, TalliedBy(p, from, m, i), TalliedBy(p, from, m, i + 1));
    }
  }

  lemma TallyOnce(p: Cast, r: nat, m: Message, from: Node, to: Node)
    requires GoodCast(p) && r < |p.who| && Counts(p, r, from, m) && Room(p, from, 1) && to == TalliedBy(p, from, m, 1)
    ensures Takes(p, r, m, from, to, None)
  {
    hide GoodConfig, Distinct;
  }

  lemma TalliesNone(p: Cast, node: Node, m: Message)
    requires m.Promise? && (m.acceptedID > node.h.bestID ==> m.acceptedValue.Some?)
    ensures TalliedBy(p, node, m, 0) == node
  {
  }

  /** A proposer counts the promise of every member. */
  lemma TalliesAll(p: Cast, st: Stage, r: nat) returns (st': Stage)
    requires Staged(p) && Stands(p, st) && r <= 1
    requires var seat := SeatOf(st, r);
      && seat.ofM != [] && Free(seat) && var m := seat.ofM[0];
         && m.Promise? && (m.acceptedID > seat.node.h.bestID ==> m.acceptedValue.Some?)
         && (Members(p) > 0 ==> Counts(p, r, seat.node, m) && Room(p, seat.node, Members(p)))
    ensures Stands(p, st')
    ensures var seat := SeatOf(st, r);
      st' == Reseat(st, r, seat.(node := TalliedBy(p, seat.node, seat.ofM[0], Members(p)), ofM := seat.ofM[1..]))
  {
    hide Stands, GoodConfig, Distinct, Takes, TalliedBy;
    var seat := SeatOf(st, r);
    var m := seat.ofM[0];
    forall i | 0 <= i < Members(p)
      ensures Takes(p, r, m, TalliedBy(p, seat.node, m, i), TalliedBy(p, seat.node, m, i + 1), None)
    {
      TallyTakes(p, r, m, seat.node, i);
    }
    TalliesNone(p, seat.node, m);
    st' := HearsAll(p, st, r, (i: nat) => TalliedBy(p, seat.node, m, i), None);
  }

  /** A proposer counts the promise of the other one. */
  lemma TalliesOther(p: Cast, st: Stage, r: nat) returns (st': Stage)
    requires Staged(p) && Stands(p, st) && r <= 1
    requires var seat := SeatOf(st, r);
      && Box(seat, r, 1 - r) != [] && Free(seat) && Counts(p, r, seat.node, Box(seat, r, 1 - r)[0])
      && Room(p, seat.node, 1)
    ensures Stands(p, st')
    ensures var seat := SeatOf(st, r);
      st' == Reseat(st, r, Opened(seat, r, 1 - r, 0).(node := TalliedBy(p, seat.node, Box(seat, r, 1 - r)[0], 1)))
  {
    hide Stands, GoodConfig, Distinct, Takes, TalliedBy;
    var seat := SeatOf(st, r);
    var m := Box(seat, r, 1 - r)[0];
    TallyTakes(p, r, m, seat.node, 0);
    TalliesNone(p, seat.node, m);
    st' := Hears(p, st, r, 1 - r, 0, TalliedBy(p, seat.node, m, 1), None);
  }

  ghost predicate MayPrepare(p: Cast, node: Node) {
    var h := node.h;
    && node.thread.Ready? && h.maxID < h.paxosID && h.acceptedID <= h.paxosID && !node.crashed
    && |node.channel| <= 1 && (p.c.threshold > 1 || node.channel == [])
    && (h.acceptedID > h.bestID ==> h.acceptedValue != NO_VALUE)
  }

  lemma OwnPromiseCounts(p: Cast, r: nat, node: Node, v: PaxosValue)
    requires GoodCast(p) && r < |p.who| && MayPrepare(p, node)
    ensures var prom := OwnPromise(p, r, node.h);
      && (prom.acceptedID > node.h.bestID ==> prom.acceptedValue.Some?)
      && Takes(p, r, prom, Prepared(node, v), TalliedBy(p, Prepared(node, v), prom, 1), None)
  {
    hide GoodConfig, Distinct, Takes, TalliedBy;
    var prom := OwnPromise(p, r, node.h);
    TallyTakes(p, r, prom, Prepared(node, v), 0);
    TalliesNone(p, Prepared(node, v), prom);
  }

  /** A proposer prepares its ballot, promises it and counts its promise. */
  lemma Prepares(p: Cast, st: Stage, r: nat, v: PaxosValue) returns (st': Stage)
    requires Staged(p) && Stands(p, st) && r <= 1 && Rests(st, r) && New(st, v) && MayPrepare(p, SeatOf(st, r).node)
    ensures Stands(p, st')
    ensures var seat := SeatOf(st, r); var h := seat.node.h;
      var prep, prom := PrepareOf(p, r, h), OwnPromise(p, r, h);
      st' == Spread(Reseat(st, r, seat.(node := TalliedBy(p, Prepared(seat.node, v), prom, 1), tag := prep)), r,
                    [prep, prom])
  {
    hide Stands, GoodConfig, Distinct, Takes, TalliedBy;
    var node := SeatOf(st, r).node;
    var prep, prom := PrepareOf(p, r, node.h), OwnPromise(p, r, node.h);
    OwnPromiseCounts(p, r, node, v);
    st' := Attempts(p, st, r, v);
    PromisesIt(p, r, SeatOf(st', r).node, Prepared(node, v), prep, prom);
    st' := HearsOwn(p, st', r, Prepared(node, v), Some(prom));
    st' := HearsOwn(p, st', r, TalliedBy(p, Prepared(node, v), prom, 1), None);
  }

  // ---------------------------------------------------------------- clearing the queues

  ghost predicate AllStale(p: Cast, x: World) {
    forall r, q :: 0 <= r < |p.who| && 0 <= q < |p.who| ==> StaleQueue(p, x, r, q)
  }

  ghost predicate StaleQueue(p: Cast, x: World, r: nat, q: nat)
    requires r < |p.who|
  {
    && !x.node(r).crashed && |x.node(r).channel| <= 1
    && forall m :: m in x.mail(r, q) ==> Stale(p.who[r], x.node(r).h, m)
  }

  function Emptied(x: World, r: nat, q: nat): World {
    x.(mail := (k: nat, l: nat) => if k == r && l == q then [] else x.mail(k, l))
  }

  lemma {:induction false} Drain(p: Cast, x: World, r: nat, q: nat)
    requires GoodCast(p) && Reached(p, x) && r < |p.who| && q < |p.who| && StaleQueue(p, x, r, q)
    requires q != r ==> x.mail(r, r) == []
    ensures Reached(p, Emptied(x, r, q))
    decreases |x.mail(r, q)|
  {
    hide Reached, GoodConfig, Distinct, Takes, Receive;
    if x.mail(r, q) == [] {
      SameReached(p, x, Emptied(x, r, q));
    } else {
      var m, node := x.mail(r, q)[0], x.node(r);
      StaleTakes(p, r, m, node);
      LastTake(p, r, m, node, node, None);
      Hear(p, x, r, q, 0, Effect(node, None));
      var taken := Taken(x, r, q, 0);
      var y := Moved(taken, r, node, x.tag(r), None);
      assert forall k: nat, l: nat :: y.mail(k, l) == taken.mail(k, l);
      assert taken.mail(r, q) == x.mail(r, q)[1..];
      Drain(p, y, r, q);
      SameReached(p, Emptied(y, r, q), Emptied(x, r, q));
    }
  }

  /** Part r has nothing left to handle of the parts before `upto`, nor of its own. */
  function RowEmptied(x: World, r: nat, upto: nat): World {
    x.(mail := (k: nat, l: nat) => if k == r && (l < upto || l == r) then [] else x.mail(k, l))
  }

  lemma {:induction false} DrainRow(p: Cast, x: World, r: nat, upto: nat)
    requires GoodCast(p) && Reached(p, x) && r < |p.who| && upto <= |p.who|
    requires forall q :: 0 <= q < |p.who| ==> StaleQueue(p, x, r, q)
    ensures Reached(p, RowEmptied(x, r, upto))
    decreases upto
  {
    hide Reached, GoodConfig, Distinct, Stale;
    if upto == 0 {
      Drain(p, x, r, r);
      SameReached(p, Emptied(x, r, r), RowEmptied(x, r, 0));
    } else {
      DrainRow(p, x, r, upto - 1);
      var y := RowEmptied(x, r, upto - 1);
      assert StaleQueue(p, x, r, upto - 1);
      Drain(p, y, r, upto - 1);
      SameReached(p, Emptied(y, r, upto - 1), RowEmptied(x, r, upto));
    }
  }

  function RowsEmptied(x: World, upto: nat): World {
    x.(mail := (k: nat, l: nat) => if k < upto then [] else x.mail(k, l))
  }

  lemma {:induction false} DrainRows(p: Cast, x: World, upto: nat)
    requires GoodCast(p) && Reached(p, x) && upto <= |p.who| && AllStale(p, x)
    ensures Reached(p, RowsEmptied(x, upto))
    decreases upto
  {
    hide Reached, GoodConfig, Distinct, Stale;
    if upto == 0 {
      SameReached(p, x, RowsEmptied(x, 0));
    } else {
      DrainRows(p, x, upto - 1);
      var r, y := upto - 1, RowsEmptied(x, upto - 1);
      forall q | 0 <= q < |p.who| ensures StaleQueue(p, y, r, q) {
        assert StaleQueue(p, x, r, q);
      }
      DrainRow(p, y, r, |p.who|);
      SameReached(p, RowEmptied(y, r, |p.who|), RowsEmptied(x, upto));
    }
  }

  function Cleared(seat: Seat): Seat {
    seat.(own := [], ofA := [], ofB := [], ofM := [])
  }

  /** Once nothing that waits matters to anyone, everyone handles it. */
  lemma Clear(p: Cast, st: Stage) returns (st': Stage)
    requires Staged(p) && Stands(p, st) && AllStale(p, WorldOf(p, st))
    ensures Stands(p, st') && st' == Stage(Cleared(st.a), Cleared(st.b), Cleared(st.m))
  {
    hide Reached, GoodConfig, Distinct, AllStale;
    DrainRows(p, WorldOf(p, st), |p.who|);
    st' := Stage(Cleared(st.a), Cleared(st.b), Cleared(st.m));
    SameStands(p, RowsEmptied(WorldOf(p, st), |p.who|), st');
  }

  /** Without members, what is said of them does not matter. */
  lemma NobodyElse(p: Cast, st: Stage, st': Stage)
    requires Staged(p) && Stands(p, st) && Members(p) == 0
    requires st'.a == st.a.(ofM := st'.a.ofM, ofA := st'.a.ofA) && st'.b == st.b.(ofM := st'.b.ofM, ofB := st'.b.ofB)
    ensures Stands(p, st')
  {
    hide Reached, GoodConfig, Distinct;
    SameStands(p, WorldOf(p, st), st');
  }
}
