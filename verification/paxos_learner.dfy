/** What a node has counted and filed is exactly what it has handled since it entered its step, and
    this decides when it leaves the step and how far it then catches up. */
module PaxosLearner {
  import opened Common
  import opened Text
  import opened Blockchain
  import opened PaxosSpec
  import opened PaxosSystem
  import opened PaxosInvariants
  import opened PaxosEvidence

  // ---------------------------------------------------------------- what messages amount to

  /** The blocks of the TLC messages of step t, in order. */
  ghost function BlocksAt(msgs: seq<Message>, t: nat): seq<Block> {
    if msgs == [] then []
    else
      var m := msgs[|msgs| - 1];
      BlocksAt(msgs[..|msgs| - 1], t) + if m.TLC? && m.step == t then [m.block] else []
  }

  /** How many of them are accepts of v in step t. */
  ghost function AcceptsIn(msgs: seq<Message>, t: nat, v: PaxosValue): nat {
    if msgs == [] then 0
    else
      var m := msgs[|msgs| - 1];
      AcceptsIn(msgs[..|msgs| - 1], t, v) + if m.Accept? && m.step == t && m.value == v then 1 else 0
  }

  /** The steps in from..to have threshold TLC messages, and step `to` has not. */
  ghost predicate FullUpTo(c: Conf, msgs: seq<Message>, from: nat, to: nat) {
    && from <= to && (forall t :: from <= t < to ==> |BlocksAt(msgs, t)| >= c.threshold)
    && |BlocksAt(msgs, to)| < c.threshold
  }

  /** For each of these steps, the block of the threshold-th TLC message. */
  ghost function Blocks(c: Conf, msgs: seq<Message>, from: nat, to: nat): seq<Block>
    requires c.threshold >= 1 && from <= to
    requires forall t :: from <= t < to ==> |BlocksAt(msgs, t)| >= c.threshold
  {
    seq(to - from, i requires 0 <= i < to - from => BlocksAt(msgs, from + i)[c.threshold - 1])
  }

  lemma OneMore(heard: seq<Message>, m: Message, t: nat, v: PaxosValue)
    ensures BlocksAt(heard + [m], t) == BlocksAt(heard, t) + if m.TLC? && m.step == t then [m.block] else []
    ensures AcceptsIn(heard + [m], t, v)
            == AcceptsIn(heard, t, v) + if m.Accept? && m.step == t && m.value == v then 1 else 0
  {
    assert (heard + [m])[..|heard|] == heard;
  }

  // ---------------------------------------------------------------- leaving a step

  /** A node that leaves a step passes exactly the later steps that are full, too, and starts
      afresh in the first one that is not; its final value is that of the step it left. */
  lemma LeavesThus(c: Conf, h: Handler, block: Block, msgs: seq<Message>)
    requires c.threshold >= 1
    requires forall t: nat :: t > h.step ==> Filed(h.tlcs, t) == BlocksAt(msgs, t)
    ensures var r := Leave(c, h, block);
      && r == NewHandler(c).(step := r.step, finalValue := block.value, blocks := r.blocks, names := r.names)
      && h.step < r.step && FullUpTo(c, msgs, h.step + 1, r.step)
      && Stored(c, h, block) == [block] + Blocks(c, msgs, h.step + 1, r.step)
  {
    hide BlocksAt;
    var h2 := Commit(h, block);
    CatchUpFrame(c, h2);
    CatchUpExact(c, h2);
    var to := CatchUp(c, h2).step;
    forall t | h2.step <= t < to ensures |BlocksAt(msgs, t)| >= c.threshold {
      assert CaughtAt(c, h2, Caught(c, h2), t);
    }
    forall i | 0 <= i < to - h2.step ensures Caught(c, h2)[i] == Blocks(c, msgs, h2.step, to)[i] {
      assert CaughtAt(c, h2, Caught(c, h2), h2.step + i);
    }
    assert Caught(c, h2) == Blocks(c, msgs, h2.step, to);
  }

  /** The same from a step that is full, seen from its stores. */
  lemma LeavesFull(c: Conf, h: Handler, chain: seq<Block>, block: Block, msgs: seq<Message>)
    requires c.threshold >= 1 && h.blocks == StoreOf(chain) && h.names == NamesOf(chain) && |chain| == h.step
    requires forall t: nat :: Filed(h.tlcs, t) == BlocksAt(msgs, t)
    requires |BlocksAt(msgs, h.step)| == c.threshold && BlocksAt(msgs, h.step)[c.threshold - 1] == block
    ensures var r := Leave(c, h, block);
      && h.step < r.step && FullUpTo(c, msgs, h.step, r.step)
      && r.blocks == StoreOf(chain + Blocks(c, msgs, h.step, r.step))
      && r.names == NamesOf(chain + Blocks(c, msgs, h.step, r.step))
      && r.finalValue == block.value && r.tlcs == map[]
  {
    hide Leave, Stored, StoreOf, NamesOf, BlocksAt;
    LeavesThus(c, h, block, msgs);
    LeaveStores(c, h, chain, block);
    var to := Leave(c, h, block).step;
    assert Blocks(c, msgs, h.step, to) == [block] + Blocks(c, msgs, h.step + 1, to);
  }

  // ---------------------------------------------------------------- TLC messages alone

  ghost predicate LateTLCs(msgs: seq<Message>, step: nat) {
    forall i :: 0 <= i < |msgs| ==> msgs[i].TLC? && msgs[i].step >= step
  }

  /** The handler after it has handled these TLC messages, one after the other. */
  ghost function HearAll(c: Conf, h: Handler, msgs: seq<Message>): Handler
    requires c.threshold >= 1 && LateTLCs(msgs, 0)
  {
    if msgs == [] then h else RespondToTLC(c, HearAll(c, h, msgs[..|msgs| - 1]), msgs[|msgs| - 1]).h
  }

  ghost predicate Waits(h: Handler, r: Handler, msgs: seq<Message>) {
    && r.step == h.step && r.blocks == h.blocks && r.names == h.names
    && forall t: nat :: Filed(r.tlcs, t) == BlocksAt(msgs, t)
  }

  /** Below the threshold of its step it keeps all of them, those of later steps included. */
  lemma {:induction false} KeepsForLater(c: Conf, h: Handler, msgs: seq<Message>)
    requires c.threshold >= 1 && h.tlcs == map[]
    requires LateTLCs(msgs, h.step) && |BlocksAt(msgs, h.step)| < c.threshold
    ensures Waits(h, HearAll(c, h, msgs), msgs)
    decreases |msgs|
  {
    hide Leave, BlocksAt, Waits;
    if msgs == [] {
      NothingWaits(h);
    } else {
      var init, m := msgs[..|msgs| - 1], msgs[|msgs| - 1];
      assert msgs == init + [m];
      OneMore(init, m, h.step, NO_VALUE);
      KeepsForLater(c, h, init);
      KeepsOneMore(c, h, HearAll(c, h, init), init, m);
    }
  }

  lemma NothingWaits(h: Handler)
    requires h.tlcs == map[]
    ensures Waits(h, h, [])
  {
  }

  lemma KeepsOneMore(c: Conf, h: Handler, r: Handler, msgs: seq<Message>, m: Message)
    requires c.threshold >= 1 && Waits(h, r, msgs) && m.TLC? && m.step >= h.step
    requires |BlocksAt(msgs + [m], h.step)| < c.threshold
    ensures Waits(h, RespondToTLC(c, r, m).h, msgs + [m])
  {
    hide Leave, BlocksAt;
    OneMore(msgs, m, h.step, NO_VALUE);
    assert !Learns(c, r, m);
    forall t: nat ensures Filed(RespondToTLC(c, r, m).h.tlcs, t) == BlocksAt(msgs + [m], t) {
      OneMore(msgs, m, t, NO_VALUE);
    }
  }

  /** The message that completes the step. */
  lemma Completes(c: Conf, h: Handler, r: Handler, msgs: seq<Message>, m: Message)
    requires c.threshold >= 1 && Waits(h, r, msgs) && m.TLC? && m.step == h.step
    requires |BlocksAt(msgs + [m], h.step)| == c.threshold
    ensures Learns(c, r, m) && RespondToTLC(c, r, m) == Reply(Leave(c, FileTLC(r, m), m.block), Some(m))
    ensures forall t: nat :: Filed(FileTLC(r, m).tlcs, t) == BlocksAt(msgs + [m], t)
    ensures BlocksAt(msgs + [m], h.step)[c.threshold - 1] == m.block
  {
    hide Leave, BlocksAt;
    OneMore(msgs, m, h.step, NO_VALUE);
    forall t: nat ensures Filed(FileTLC(r, m).tlcs, t) == BlocksAt(msgs + [m], t) {
      OneMore(msgs, m, t, NO_VALUE);
    }
  }

  /** The TLC message that completes the step takes a node through that step and all later ones
      that the messages before it have filled, in whatever order they came. */
  lemma LateMessagesCatchUp(c: Conf, h: Handler, chain: seq<Block>, msgs: seq<Message>)
    requires c.threshold >= 1 && h.tlcs == map[]
    requires h.blocks == StoreOf(chain) && h.names == NamesOf(chain) && |chain| == h.step
    requires msgs != [] && LateTLCs(msgs, h.step) && msgs[|msgs| - 1].step == h.step
    requires |BlocksAt(msgs, h.step)| == c.threshold
    ensures var before, m := HearAll(c, h, msgs[..|msgs| - 1]), msgs[|msgs| - 1];
      before.step == h.step && RespondToTLC(c, before, m).out == Some(m)
    ensures var r := HearAll(c, h, msgs);
      && h.step < r.step && FullUpTo(c, msgs, h.step, r.step)
      && r.blocks == StoreOf(chain + Blocks(c, msgs, h.step, r.step))
      && r.names == NamesOf(chain + Blocks(c, msgs, h.step, r.step))
      && r.finalValue == msgs[|msgs| - 1].block.value && r.tlcs == map[]
  {
    hide Leave, StoreOf, NamesOf, BlocksAt, RespondToTLC, FileTLC, FullUpTo, Blocks, NewHandler;
    var init, m := msgs[..|msgs| - 1], msgs[|msgs| - 1];
    assert msgs == init + [m];
    OneMore(init, m, h.step, NO_VALUE);
    KeepsForLater(c, h, init);
    var before := HearAll(c, h, init);
    Completes(c, h, before, init, m);
    TLCFrame(before, m);
    LeavesFull(c, FileTLC(before, m), chain, m.block, msgs);
  }

  lemma TLCFrame(h: Handler, m: Message)
    requires m.TLC?
    ensures var r := FileTLC(h, m); r.step == h.step && r.blocks == h.blocks && r.names == h.names
  {
  }

  // ---------------------------------------------------------------- runs

  /** What node n has handled since it entered its step, after one more action. */
  ghost function HeardAfter(c: Config, s: Sys, n: Peer, heard: seq<Message>, a: Action): seq<Message>
    requires c.threshold >= 1 && Enabled(c, s, a)
  {
    if !a.Deliver? || a.n != n then heard
    else if EffectOf(c, s, a).node.h.step != s.nodes[n].h.step then []
    else heard + [s.sent[a.k].msg]
  }

  ghost function HeardFrom(c: Config, s: Sys, n: Peer, heard: seq<Message>, run: seq<Action>): seq<Message>
    requires c.threshold >= 1 && Legal(c, s, run)
    decreases |run|
  {
    if run == [] then heard
    else HeardFrom(c, Apply(c, s, run[0]), n, HeardAfter(c, s, n, heard, run[0]), run[1..])
  }

  /** The messages node n has handled since it entered its step, in order. */
  ghost function Heard(c: Config, n: Peer, run: seq<Action>): seq<Message>
    requires c.threshold >= 1 && Legal(c, Init(c), run)
  {
    HeardFrom(c, Init(c), n, [], run)
  }

  /** Every counter and every list is exact. */
  ghost predicate Exact(h: Handler, heard: seq<Message>) {
    && (forall t: nat :: Filed(h.tlcs, t) == if t >= h.step then BlocksAt(heard, t) else [])
    && (forall v :: Count(h.acceptedValues, v) == AcceptsIn(heard, h.step, v))
  }

  /** A handler that leaves counters and lists alone, on a message that is neither accept nor TLC
      message of its step or later. */
  lemma QuietExact(h: Handler, r: Handler, heard: seq<Message>, m: Message)
    requires Exact(h, heard) && SameLearner(h, r)
    requires (m.Accept? ==> m.step != h.step) && (m.TLC? ==> m.step < h.step)
    ensures Exact(r, heard + [m])
  {
    hide BlocksAt, AcceptsIn;
    forall t: nat ensures Filed(r.tlcs, t) == if t >= r.step then BlocksAt(heard + [m], t) else [] {
      OneMore(heard, m, t, NO_VALUE);
    }
    forall v ensures Count(r.acceptedValues, v) == AcceptsIn(heard + [m], r.step, v) {
      OneMore(heard, m, h.step, v);
    }
  }

  lemma AcceptExact(c: Conf, h: Handler, heard: seq<Message>, m: Message)
    requires c.threshold >= 1 && Exact(h, heard) && m.Accept?
    ensures var r := RespondToAccept(c, h, m);
      if r.out.None? then r.h.step == h.step && Exact(r.h, heard + [m]) else r.h.step > h.step && Exact(r.h, [])
  {
    hide BlocksAt, AcceptsIn, Leave;
    if h.step != m.step {
      QuietExact(h, h, heard, m);
    } else if Decides(c, h, m) {
      LeaveRestarts(c, PaxosSpec.CountAccept(h, m.value), NextBlock(c, h, m.value));
      NothingHeard(RespondToAccept(c, h, m).h);
    } else {
      var r := RespondToAccept(c, h, m).h;
      forall t: nat ensures Filed(r.tlcs, t) == if t >= r.step then BlocksAt(heard + [m], t) else [] {
        OneMore(heard, m, t, NO_VALUE);
      }
      forall v ensures Count(r.acceptedValues, v) == AcceptsIn(heard + [m], r.step, v) {
        OneMore(heard, m, h.step, v);
      }
    }
  }

  lemma NothingHeard(h: Handler)
    requires h.tlcs == map[] && h.acceptedValues == map[]
    ensures Exact(h, [])
  {
  }

  lemma TLCExact(c: Conf, h: Handler, heard: seq<Message>, m: Message)
    requires c.threshold >= 1 && Exact(h, heard) && m.TLC?
    ensures var r := RespondToTLC(c, h, m);
      if r.out.None? then r.h.step == h.step && Exact(r.h, heard + [m]) else r.h.step > h.step && Exact(r.h, [])
  {
    hide BlocksAt, AcceptsIn, Leave;
    if h.step > m.step {
      QuietExact(h, h, heard, m);
    } else if Learns(c, h, m) {
      LeaveRestarts(c, FileTLC(h, m), m.block);
      NothingHeard(RespondToTLC(c, h, m).h);
    } else {
      var r := RespondToTLC(c, h, m).h;
      forall t: nat ensures Filed(r.tlcs, t) == if t >= r.step then BlocksAt(heard + [m], t) else [] {
        OneMore(heard, m, t, NO_VALUE);
      }
      forall v ensures Count(r.acceptedValues, v) == AcceptsIn(heard + [m], r.step, v) {
        OneMore(heard, m, h.step, v);
      }
    }
  }

  lemma StepKeepsExact(c: Config, s: Sys, a: Action, n: Peer, heard: seq<Message>)
    requires c.threshold >= 1 && Enabled(c, s, a) && n < |s.nodes| && Exact(s.nodes[n].h, heard)
    ensures n < |Apply(c, s, a).nodes| && Exact(Apply(c, s, a).nodes[n].h, HeardAfter(c, s, n, heard, a))
  {
    hide Exact;
    if a.n == n {
      var conf, node, h := ConfOf(c, n), s.nodes[n], s.nodes[n].h;
      if a.Deliver? {
        var m := s.sent[a.k].msg;
        if m.Accept? {
          AcceptExact(conf, h, heard, m);
        } else if m.TLC? {
          TLCExact(conf, h, heard, m);
        } else {
          QuietReceive(conf, n, node, m);
          QuietExact(h, EffectOf(c, s, a).node.h, heard, m);
        }
      } else {
        SameExact(h, EffectOf(c, s, a).node.h, heard);
      }
    }
  }

  lemma SameExact(h: Handler, r: Handler, heard: seq<Message>)
    requires Exact(h, heard) && SameLearner(h, r)
    ensures Exact(r, heard)
  {
  }

  lemma {:induction false} RunKeepsExact(c: Config, s: Sys, n: Peer, heard: seq<Message>, run: seq<Action>)
    requires c.threshold >= 1 && Legal(c, s, run) && n < |s.nodes| && Exact(s.nodes[n].h, heard)
    ensures n < |Exec(c, s, run).nodes| && Exact(Exec(c, s, run).nodes[n].h, HeardFrom(c, s, n, heard, run))
    decreases |run|
  {
    hide Exact, Enabled, EffectOf, HeardAfter;
    if run != [] {
      StepKeepsExact(c, s, run[0], n, heard);
      RunKeepsExact(c, Apply(c, s, run[0]), n, HeardAfter(c, s, n, heard, run[0]), run[1..]);
    }
  }

  // ---------------------------------------------------------------- results

  /** In every run the accepts a node has counted for a value are those it handled for its step
      since it entered it, and the TLC messages it has filed for its step or a later one are those
      it handled for it since then, in order. */
  lemma CountersAreExact(c: Config, n: Peer, run: seq<Action>)
    requires c.threshold >= 1 && Legal(c, Init(c), run) && n < |c.ids|
    ensures n < |Exec(c, Init(c), run).nodes|
    ensures Exact(Exec(c, Init(c), run).nodes[n].h, Heard(c, n, run))
  {
    NothingHeard(Init(c).nodes[n].h);
    RunKeepsExact(c, Init(c), n, [], run);
  }

  /** The message completes step `step`: with it, the node has handled threshold accepts of one value
      or threshold TLC messages for that step. */
  ghost predicate Completed(c: Conf, heard: seq<Message>, m: Message, step: nat) {
    || (m.Accept? && m.step == step && AcceptsIn(heard, step, m.value) >= c.threshold)
    || (m.TLC? && m.step == step && |BlocksAt(heard, step)| >= c.threshold)
  }

  /** The block that is then stored for the step. */
  function Settled(c: Conf, h: Handler, m: Message): Block
    requires m.Accept? || m.TLC?
  {
    if m.Accept? then NextBlock(c, h, m.value) else m.block
  }

  /** What leaving a step by message m does to a node. */
  ghost predicate LeftBy(c: Conf, node: Node, r: Node, heard: seq<Message>, m: Message)
    requires c.threshold >= 1 && (m.Accept? || m.TLC?)
  {
    && r.h.step > node.h.step && FullUpTo(c, heard, node.h.step + 1, r.h.step)
    && r.chain == node.chain + ([Settled(c, node.h, m)] + Blocks(c, heard, node.h.step + 1, r.h.step))
    && r.h.finalValue == Settled(c, node.h, m).value
  }

  lemma AcceptLeaves(c: Conf, me: Peer, node: Node, heard: seq<Message>, m: Message)
    requires c.threshold >= 1 && Exact(node.h, heard) && m.Accept?
    ensures var r := Receive(c, me, node, m).node;
      if Completed(c, heard + [m], m, node.h.step) then LeftBy(c, node, r, heard + [m], m)
      else r.h.step == node.h.step && r.h.finalValue == node.h.finalValue && r.chain == node.chain
  {
    hide BlocksAt, AcceptsIn, Leave, Stored, Blocks, FullUpTo, NewHandler, NextBlock;
    OneMore(heard, m, node.h.step, m.value);
    if node.h.step == m.step && Decides(c, node.h, m) {
      forall t: nat | t > node.h.step ensures Filed(node.h.tlcs, t) == BlocksAt(heard + [m], t) {
        OneMore(heard, m, t, m.value);
      }
      ValueOfNext(c, node.h, m.value);
      LeavesThus(c, PaxosSpec.CountAccept(node.h, m.value), NextBlock(c, node.h, m.value), heard + [m]);
    }
  }

  lemma ValueOfNext(c: Conf, h: Handler, v: PaxosValue)
    ensures NextBlock(c, h, v).value == v
  {
  }

  lemma TLCLeaves(c: Conf, me: Peer, node: Node, heard: seq<Message>, m: Message)
    requires c.threshold >= 1 && Exact(node.h, heard) && m.TLC?
    ensures var r := Receive(c, me, node, m).node;
      if Completed(c, heard + [m], m, node.h.step) then LeftBy(c, node, r, heard + [m], m)
      else r.h.step == node.h.step && r.h.finalValue == node.h.finalValue && r.chain == node.chain
  {
    hide BlocksAt, AcceptsIn, Leave, Stored, Blocks, FullUpTo, NewHandler;
    OneMore(heard, m, node.h.step, NO_VALUE);
    if node.h.step == m.step && Learns(c, node.h, m) {
      forall t: nat | t > node.h.step ensures Filed(FileTLC(node.h, m).tlcs, t) == BlocksAt(heard + [m], t) {
        OneMore(heard, m, t, NO_VALUE);
      }
      LeavesThus(c, FileTLC(node.h, m), m.block, heard + [m]);
    }
  }

  lemma OthersLeaveNothing(c: Config, s: Sys, a: Action)
    requires c.threshold >= 1 && Enabled(c, s, a)
    requires a.Deliver? ==> !s.sent[a.k].msg.Accept? && !s.sent[a.k].msg.TLC?
    ensures var node, r := s.nodes[a.n], EffectOf(c, s, a).node;
      r.h.step == node.h.step && r.h.finalValue == node.h.finalValue && r.chain == node.chain
  {
  }

  /** A node leaves its step exactly with the message that completes it. It then stores the block
      of that step and those of the later steps it had filled meanwhile, stops in the first step
      it had not, and its final value is that of the step it left; nothing else changes the step,
      the chain or the final value. */
  lemma LeavesExactly(c: Config, run: seq<Action>, a: Action)
    requires c.threshold >= 1 && Legal(c, Init(c), run) && Enabled(c, Exec(c, Init(c), run), a)
    ensures var s := Exec(c, Init(c), run);
      var node, r, conf := s.nodes[a.n], Apply(c, s, a).nodes[a.n], ConfOf(c, a.n);
      if a.Deliver? && Completed(conf, Heard(c, a.n, run) + [s.sent[a.k].msg], s.sent[a.k].msg, node.h.step)
      then LeftBy(conf, node, r, Heard(c, a.n, run) + [s.sent[a.k].msg], s.sent[a.k].msg)
      else r.h.step == node.h.step && r.h.finalValue == node.h.finalValue && r.chain == node.chain
  {
    hide Exact, Completed, LeftBy, Receive;
    var s, n := Exec(c, Init(c), run), a.n;
    CountersAreExact(c, n, run);
    if a.Deliver? && s.sent[a.k].msg.Accept? {
      AcceptLeaves(ConfOf(c, n), n, s.nodes[n], Heard(c, n, run), s.sent[a.k].msg);
    } else if a.Deliver? && s.sent[a.k].msg.TLC? {
      TLCLeaves(ConfOf(c, n), n, s.nodes[n], Heard(c, n, run), s.sent[a.k].msg);
    } else {
      OthersLeaveNothing(c, s, a);
      OthersComplete(c, s, a, Heard(c, n, run));
    }
  }

  lemma OthersComplete(c: Config, s: Sys, a: Action, heard: seq<Message>)
    requires Enabled(c, s, a) && (a.Deliver? ==> !s.sent[a.k].msg.Accept? && !s.sent[a.k].msg.TLC?)
    ensures a.Deliver? ==> !Completed(ConfOf(c, a.n), heard + [s.sent[a.k].msg], s.sent[a.k].msg, s.nodes[a.n].h.step)
  {
  }

  /** In every reachable state a node's naming store binds exactly the names its blocks carry, each
      to the metahash of the last block that carries it. */
  lemma NamesResolve(c: Config, s: Sys, n: Peer, f: Bytes)
    requires GoodConfig(c) && Reachable(c, s) && n < |s.nodes|
    ensures var names, chain := s.nodes[n].h.names, s.nodes[n].chain;
      && (f in names <==> exists i :: 0 <= i < |chain| && chain[i].value.filename == f)
      && (forall i: nat :: LastBinding(chain, i, f) ==> f in names && names[f] == chain[i].value.metahash)
  {
    hide StoreOf, NamesOf, Reachable;
    StoresHoldTheChain(c, s, n);
    var chain := s.nodes[n].chain;
    BoundNames(chain, f);
    forall i: nat | LastBinding(chain, i, f)
      ensures f in NamesOf(chain) && NamesOf(chain)[f] == chain[i].value.metahash
    {
      NamesAreLastWrites(chain, i, f);
    }
  }
}
