/** A node's ballots, its votes and its answers are determined by what it has handled since it entered
    its step: nothing else is remembered, and nothing of it is forgotten. */
module PaxosHistory {
  import opened Common
  import opened Blockchain
  import opened PaxosSpec
  import opened PaxosSystem
  import opened PaxosInvariants
  import opened PaxosSteps
  import opened PaxosLearner

  // ---------------------------------------------------------------- the acceptor

  ghost predicate Prepares(m: Message, step: nat, id: nat) {
    m.Prepare? && m.step == step && m.id == id
  }

  /** `id` is the highest ballot of the prepares for this step, or 0 if there is none. */
  ghost predicate Highest(heard: seq<Message>, step: nat, id: nat) {
    && (id == 0 || exists i :: 0 <= i < |heard| && Prepares(heard[i], step, id))
    && (forall i, j: nat :: 0 <= i < |heard| && Prepares(heard[i], step, j) ==> j <= id)
  }

  /** A prepare above all prepares before it, and a proposal on the highest of them. */
  ghost predicate Promised(heard: seq<Message>, step: nat, m: Message) {
    && m.Prepare? && m.step == step && m.id > 0
    && forall i, j: nat :: 0 <= i < |heard| && Prepares(heard[i], step, j) ==> j < m.id
  }

  ghost predicate Voted(heard: seq<Message>, step: nat, m: Message) {
    m.Propose? && m.step == step && Highest(heard, step, m.id)
  }

  ghost predicate FirstVote(heard: seq<Message>, step: nat, i: nat) {
    && i < |heard| && Voted(heard[..i], step, heard[i])
    && forall j :: 0 <= j < i ==> !Voted(heard[..j], step, heard[j])
  }

  /** The pair that is reported: that of the first vote in this step, or none. */
  ghost predicate Reported(heard: seq<Message>, step: nat, id: nat, value: Option<PaxosValue>) {
    if value.None? then id == 0 && forall j :: 0 <= j < |heard| ==> !Voted(heard[..j], step, heard[j])
    else exists i: nat :: FirstVote(heard, step, i) && heard[i].id == id && heard[i].value == value.value
  }

  function Held(v: PaxosValue): Option<PaxosValue> {
    if v == NO_VALUE then None else Some(v)
  }

  ghost predicate Remembers(h: Handler, heard: seq<Message>) {
    Highest(heard, h.step, h.maxID) && Reported(heard, h.step, h.acceptedID, Held(h.acceptedValue))
  }

  /** The messages that take the instance: those of this step that are not dropped. */
  ghost predicate Takes(heard: seq<Message>, step: nat, m: Message) {
    || Promised(heard, step, m) || Voted(heard, step, m)
    || (m.Accept? && m.step == step) || (m.TLC? && m.step == step)
  }

  ghost predicate Busy(heard: seq<Message>, step: nat) {
    exists i :: 0 <= i < |heard| && Takes(heard[..i], step, heard[i])
  }

  // ---------------------------------------------------------------- one more message

  lemma HighestAfter(heard: seq<Message>, m: Message, step: nat, id: nat)
    requires Highest(heard, step, id)
    ensures Highest(heard + [m], step, if Promised(heard, step, m) then m.id else id)
    ensures Promised(heard, step, m) <==> m.Prepare? && m.step == step && m.id > id
    ensures Voted(heard, step, m) <==> m.Propose? && m.step == step && m.id == id
  {
    var all := heard + [m];
    assert all[|heard|] == m && forall i :: 0 <= i < |heard| ==> all[i] == heard[i];
  }

  lemma VotesAfter(heard: seq<Message>, m: Message, step: nat, id: nat, value: Option<PaxosValue>)
    requires Reported(heard, step, id, value)
    ensures value.Some? || !Voted(heard, step, m) ==> Reported(heard + [m], step, id, value)
    ensures value.None? && Voted(heard, step, m) ==> Reported(heard + [m], step, m.id, Some(m.value))
  {
    var all := heard + [m];
    forall i | 0 <= i <= |heard| ensures all[..i] == heard[..i] && all[i] == if i < |heard| then heard[i] else m {
    }
    assert heard[..|heard|] == heard;
    if value.Some? {
      var i: nat :| FirstVote(heard, step, i) && heard[i].id == id && heard[i].value == value.value;
      assert FirstVote(all, step, i);
    } else if Voted(heard, step, m) {
      assert FirstVote(all, step, |heard|);
    }
  }

  lemma BusyAfter(heard: seq<Message>, m: Message, step: nat)
    ensures Busy(heard + [m], step) <==> Busy(heard, step) || Takes(heard, step, m)
  {
    hide Takes;
    var all := heard + [m];
    forall i | 0 <= i <= |heard| ensures all[..i] == heard[..i] && all[i] == if i < |heard| then heard[i] else m {
    }
    assert heard[..|heard|] == heard;
    if Busy(heard, step) {
      var i :| 0 <= i < |heard| && Takes(heard[..i], step, heard[i]);
      assert Takes(all[..i], step, all[i]);
    }
    if Takes(heard, step, m) {
      assert Takes(all[..|heard|], step, all[|heard|]);
    }
  }

  lemma PrepareTold(h: Handler, heard: seq<Message>, m: Message)
    requires Remembers(h, heard) && m.Prepare?
    ensures var r := RespondToPrepare(h, m);
      && Remembers(r.h, heard + [m])
      && (r.h.running <==> h.running || Takes(heard, h.step, m))
      && if Promised(heard, h.step, m)
         then r.out == Some(Promise(m.source, h.step, m.id, h.acceptedID, Held(h.acceptedValue)))
         else r.out == None
  {
    hide Highest, Reported, Promised, Voted;
    HighestAfter(heard, m, h.step, h.maxID);
    VotesAfter(heard, m, h.step, h.acceptedID, Held(h.acceptedValue));
  }

  lemma ProposeTold(h: Handler, heard: seq<Message>, m: Message)
    requires Remembers(h, heard) && m.Propose? && m.value != NO_VALUE
    ensures var r := RespondToPropose(h, m);
      && Remembers(r.h, heard + [m])
      && (r.h.running <==> h.running || Takes(heard, h.step, m))
      && r.out == if Voted(heard, h.step, m) then Some(Accept(h.step, m.id, m.value)) else None
  {
    hide Highest, Reported, Promised, Voted;
    HighestAfter(heard, m, h.step, h.maxID);
    VotesAfter(heard, m, h.step, h.acceptedID, Held(h.acceptedValue));
  }

  // ---------------------------------------------------------------- the proposer

  /** What the goroutine that runs Tag has done since the node entered its step: whether it took the
      instance, the value of its last attempt, how often it called nextID; and the promises that
      were counted, those from index `since` on for the last attempt. */
  datatype Story = Story(took: bool, value: PaxosValue, retries: nat, counted: seq<Message>, since: nat)

  const BLANK := Story(false, NO_VALUE, 0, [], 0)

  /** A promise to this node in its step is counted until there are threshold of them. */
  ghost predicate Counts(c: Conf, me: Peer, story: Story, step: nat, m: Message) {
    m.Promise? && m.dest == me && m.step == step && |story.counted| - story.since < c.threshold
  }

  /** The story after one more message of the step. */
  ghost function Counted(c: Conf, me: Peer, story: Story, step: nat, m: Message): Story {
    if Counts(c, me, story, step, m) then story.(counted := story.counted + [m]) else story
  }

  /** A promise whose accepted pair is there or not. */
  ghost predicate Whole(m: Message) {
    m.Promise? && (m.acceptedID > 0 ==> m.id > 0 && m.acceptedValue.Some?)
  }

  ghost predicate AllWhole(counted: seq<Message>) {
    forall i :: 0 <= i < |counted| ==> Whole(counted[i])
  }

  /** The last counted promise that reports an accept above the ballot of the one kept before. */
  ghost function Best(counted: seq<Message>): (r: Option<Message>)
    requires AllWhole(counted)
    ensures r.Some? ==> Whole(r.value) && r.value.acceptedID > 0
  {
    if counted == [] then None
    else
      var m, best := counted[|counted| - 1], Best(counted[..|counted| - 1]);
      if m.acceptedID > BallotOf(best) then Some(m) else best
  }

  ghost function BallotOf(best: Option<Message>): nat
    requires best.Some? ==> best.value.Promise?
  {
    if best.Some? then best.value.id else 0
  }

  ghost function ValueOf(best: Option<Message>, otherwise: PaxosValue): PaxosValue
    requires best.Some? ==> best.value.Promise? && best.value.acceptedValue.Some?
  {
    if best.Some? then best.value.acceptedValue.value else otherwise
  }

  lemma BestAfter(counted: seq<Message>, m: Message)
    requires AllWhole(counted) && Whole(m)
    ensures AllWhole(counted + [m])
    ensures Best(counted + [m]) == if m.acceptedID > BallotOf(Best(counted)) then Some(m) else Best(counted)
  {
    assert (counted + [m])[..|counted|] == counted;
  }

  ghost function StoryAfter(c: Config, s: Sys, n: Peer, story: Story, a: Action): Story
    requires c.threshold >= 1 && Enabled(c, s, a)
  {
    if a.n != n then story
    else match a
      case Begin(_) => story.(took := true)
      case Attempt(_, v) => story.(value := v, since := |story.counted|)
      case RetryPrepare(_) => story.(retries := story.retries + 1)
      case RetryPropose(_) => story.(retries := story.retries + 1)
      case Suggest(_, _) => story
      case Finish(_) => story
      case Deliver(_, k) =>
        if EffectOf(c, s, a).node.h.step != s.nodes[n].h.step then BLANK
        else Counted(ConfOf(c, n), n, story, s.nodes[n].h.step, s.sent[k].msg)
  }

  ghost function StoryFrom(c: Config, s: Sys, n: Peer, story: Story, run: seq<Action>): Story
    requires c.threshold >= 1 && Legal(c, s, run)
    decreases |run|
  {
    if run == [] then story else StoryFrom(c, Apply(c, s, run[0]), n, StoryAfter(c, s, n, story, run[0]), run[1..])
  }

  ghost function StoryOf(c: Config, n: Peer, run: seq<Action>): Story
    requires c.threshold >= 1 && Legal(c, Init(c), run)
  {
    StoryFrom(c, Init(c), n, BLANK, run)
  }

  ghost predicate Proposes(c: Conf, h: Handler, story: Story) {
    && h.paxosID == c.paxosID + story.retries * c.totalPeers && h.proposedValue == story.value
    && story.since <= |story.counted| <= story.since + c.threshold
    && h.promises == |story.counted| - story.since
    && (h.phase == Phase2 <==> h.promises == c.threshold)
    && AllWhole(story.counted)
    && h.bestID == BallotOf(Best(story.counted)) && h.bestValue == ValueOf(Best(story.counted), NO_VALUE)
  }

  /** All of the handler but its counters and stores (`PaxosLearner.Exact` gives the counters). */
  ghost predicate Told(c: Conf, h: Handler, heard: seq<Message>, story: Story) {
    && Remembers(h, heard) && Proposes(c, h, story)
    && (h.running <==> story.took || Busy(heard, h.step))
  }

  ghost predicate SameAcceptor(h: Handler, r: Handler) {
    && r.step == h.step && r.running == h.running
    && r.maxID == h.maxID && r.acceptedID == h.acceptedID && r.acceptedValue == h.acceptedValue
  }

  lemma Countable(c: Conf, me: Peer, h: Handler, story: Story, m: Message)
    requires c.threshold >= 1 && Proposes(c, h, story) && Whole(m) && m.dest == me
    ensures Counts(c, me, story, h.step, m) <==> CountsPromise(h, m)
    ensures !NilDereference(h, m)
  {
    hide AllWhole, Best;
  }

  lemma CountedTold(c: Conf, h: Handler, story: Story, m: Message)
    requires c.threshold >= 1 && Proposes(c, h, story) && Whole(m) && CountsPromise(h, m) && !NilDereference(h, m)
    ensures var r, told := RespondToPromise(c, h, m), story.(counted := story.counted + [m]);
      && SameAcceptor(h, r.h) && Proposes(c, r.h, told)
      && r.offer == if |told.counted| - told.since == c.threshold
                    then Some(ValueOf(Best(told.counted), story.value)) else None
  {
    hide AllWhole, Best;
    BestAfter(story.counted, m);
  }

  /** What is offered is the best reported value, or the proposer's own if none is reported. */
  lemma PromiseTold(c: Conf, me: Peer, h: Handler, story: Story, m: Message)
    requires c.threshold >= 1 && Proposes(c, h, story) && Whole(m) && m.dest == me
    ensures !NilDereference(h, m)
    ensures var r, told := RespondToPromise(c, h, m), Counted(c, me, story, h.step, m);
      && SameAcceptor(h, r.h) && Proposes(c, r.h, told)
      && r.offer == if told != story && |told.counted| - told.since == c.threshold
                    then Some(ValueOf(Best(told.counted), story.value)) else None
  {
    hide AllWhole, Best, Counts, CountsPromise, NilDereference;
    Countable(c, me, h, story, m);
    if CountsPromise(h, m) {
      CountedTold(c, h, story, m);
    }
  }

  // ---------------------------------------------------------------- every action

  ghost predicate SameProposer(h: Handler, r: Handler) {
    && r.paxosID == h.paxosID && r.proposedValue == h.proposedValue && r.promises == h.promises
    && r.phase == h.phase && r.bestID == h.bestID && r.bestValue == h.bestValue
  }

  lemma QuietTold(h: Handler, r: Handler, heard: seq<Message>, m: Message)
    requires Remembers(h, heard) && !m.Prepare? && !m.Propose?
    requires r.step == h.step && r.maxID == h.maxID
    requires r.acceptedID == h.acceptedID && r.acceptedValue == h.acceptedValue
    ensures Remembers(r, heard + [m])
    ensures Takes(heard, h.step, m) <==> (m.Accept? || m.TLC?) && m.step == h.step
  {
    hide Highest, Reported, Promised, Voted;
    HighestAfter(heard, m, h.step, h.maxID);
    VotesAfter(heard, m, h.step, h.acceptedID, Held(h.acceptedValue));
  }

  lemma FreshTold(c: Conf, h: Handler, r: Handler)
    requires c.threshold >= 1 && Restarted(c, h, r)
    ensures Told(c, r, [], BLANK)
  {
  }

  /** Accepts and TLC messages either take the instance or leave the step. */
  lemma LearnerTold(c: Conf, me: Peer, node: Node, heard: seq<Message>, story: Story, m: Message)
    requires c.threshold >= 1 && Told(c, node.h, heard, story) && (m.Accept? || m.TLC?)
    ensures var r := Receive(c, me, node, m).node.h;
      if r.step == node.h.step then Told(c, r, heard + [m], story) else Told(c, r, [], BLANK)
  {
    hide Remembers, Proposes, Busy, Takes, Leave, Stored;
    var h, e := node.h, Receive(c, me, node, m);
    if m.Accept? {
      AcceptOutline(c, h, m);
    } else {
      TLCOutline(c, h, m);
    }
    if e.out.Some? {
      FreshTold(c, h, e.node.h);
    } else {
      QuietTold(h, e.node.h, heard, m);
      BusyAfter(heard, m, h.step);
      SameProposes(c, h, e.node.h, story);
    }
  }

  lemma SameProposes(c: Conf, h: Handler, r: Handler, story: Story)
    requires Proposes(c, h, story) && SameProposer(h, r)
    ensures Proposes(c, r, story)
  {
  }

  lemma AcceptorTold(c: Conf, me: Peer, node: Node, heard: seq<Message>, story: Story, m: Message)
    requires c.threshold >= 1 && Told(c, node.h, heard, story)
    requires m.Prepare? || (m.Propose? && m.value != NO_VALUE)
    ensures var r := Receive(c, me, node, m).node.h; r.step == node.h.step && Told(c, r, heard + [m], story)
  {
    hide Remembers, Proposes, Busy, Takes;
    if m.Prepare? {
      PrepareTold(node.h, heard, m);
    } else {
      ProposeTold(node.h, heard, m);
    }
    BusyAfter(heard, m, node.h.step);
    SameProposes(c, node.h, Receive(c, me, node, m).node.h, story);
  }

  lemma ProposerTold(c: Conf, me: Peer, node: Node, heard: seq<Message>, story: Story, m: Message)
    requires c.threshold >= 1 && Told(c, node.h, heard, story) && Whole(m)
    ensures var r := Receive(c, me, node, m).node.h;
      r.step == node.h.step && Told(c, r, heard + [m], Counted(c, me, story, node.h.step, m))
  {
    hide Remembers, Proposes, Busy, Takes, RespondToPromise;
    if m.dest == me {
      PromiseTold(c, me, node.h, story, m);
    } else {
      assert !Counts(c, me, story, node.h.step, m);
    }
    QuietTold(node.h, Receive(c, me, node, m).node.h, heard, m);
    BusyAfter(heard, m, node.h.step);
  }

  lemma WellSent(c: Config, s: Sys, k: nat)
    requires BaseInv(c, s) && k < |s.sent|
    ensures s.sent[k].msg.Propose? ==> s.sent[k].msg.value != NO_VALUE
    ensures s.sent[k].msg.Promise? ==> Whole(s.sent[k].msg)
  {
    hide Ordered, NodeOK, Ballot;
    assert Backed(c, s.sent, s.sent[k].origin, s.sent[k].msg);
  }

  lemma DeliveryTold(c: Config, s: Sys, k: nat, n: Peer, heard: seq<Message>, story: Story)
    requires BaseInv(c, s) && Enabled(c, s, Deliver(n, k)) && Told(ConfOf(c, n), s.nodes[n].h, heard, story)
    ensures var a := Deliver(n, k);
      Told(ConfOf(c, n), EffectOf(c, s, a).node.h, HeardAfter(c, s, n, heard, a), StoryAfter(c, s, n, story, a))
  {
    hide Told, Receive, AllBacked, Whole, Ordered, NodeOK;
    var conf, node, m := ConfOf(c, n), s.nodes[n], s.sent[k].msg;
    WellSent(c, s, k);
    if m.Accept? || m.TLC? {
      LearnerTold(conf, n, node, heard, story, m);
    } else if m.Promise? {
      ProposerTold(conf, n, node, heard, story, m);
    } else {
      AcceptorTold(conf, n, node, heard, story, m);
    }
  }

  lemma StepKeepsTold(c: Config, s: Sys, a: Action, n: Peer, heard: seq<Message>, story: Story)
    requires BaseInv(c, s) && Enabled(c, s, a) && n < |s.nodes| && Told(ConfOf(c, n), s.nodes[n].h, heard, story)
    ensures n < |Apply(c, s, a).nodes|
    ensures Told(ConfOf(c, n), Apply(c, s, a).nodes[n].h, HeardAfter(c, s, n, heard, a), StoryAfter(c, s, n, story, a))
  {
    hide Receive, AllBacked, Ordered, NodeOK, Best, Busy, Reported, Highest;
    if a.Deliver? && a.n == n {
      DeliveryTold(c, s, a.k, n, heard, story);
    }
  }

  lemma {:induction false} RunKeepsTold(c: Config, s: Sys, n: Peer, heard: seq<Message>, story: Story, run: seq<Action>)
    requires BaseInv(c, s) && Legal(c, s, run) && n < |s.nodes| && Told(ConfOf(c, n), s.nodes[n].h, heard, story)
    ensures n < |Exec(c, s, run).nodes| && BaseInv(c, Exec(c, s, run))
    ensures Told(ConfOf(c, n), Exec(c, s, run).nodes[n].h, HeardFrom(c, s, n, heard, run),
                 StoryFrom(c, s, n, story, run))
    decreases |run|
  {
    hide Told, Enabled, EffectOf, HeardAfter, StoryAfter, AllBacked, Ordered, NodeOK;
    if run != [] {
      StepKeepsTold(c, s, run[0], n, heard, story);
      StepKeepsBase(c, s, run[0]);
      RunKeepsTold(c, Apply(c, s, run[0]), n, HeardAfter(c, s, n, heard, run[0]),
                   StoryAfter(c, s, n, story, run[0]), run[1..]);
    }
  }

  // ---------------------------------------------------------------- results

  /** In every run a handler holds exactly this: the highest ballot of the prepares it handled in its
      step, the pair of its first vote there, the promises counted for its last attempt and the best
      of those counted in the step, its attempt's value, its ballot; and the instance is taken exactly if
      Tag took it or a message of the step was not dropped. */
  lemma StateIsHistory(c: Config, n: Peer, run: seq<Action>)
    requires GoodConfig(c) && Legal(c, Init(c), run) && n < |c.ids|
    ensures n < |Exec(c, Init(c), run).nodes| && BaseInv(c, Exec(c, Init(c), run))
    ensures Told(ConfOf(c, n), Exec(c, Init(c), run).nodes[n].h, Heard(c, n, run), StoryOf(c, n, run))
  {
    InitBase(c);
    RunKeepsTold(c, Init(c), n, [], BLANK, run);
  }

  /** The answer a message gets, told from what was handled before it. */
  ghost predicate Answered(c: Conf, h: Handler, heard: seq<Message>, m: Message, out: Option<Message>)
    requires c.threshold >= 1
  {
    match m
    case Prepare(_, _, _) =>
      if !Promised(heard, h.step, m) then out == None
      else
        && out.Some? && out.value.Promise? && Reported(heard, h.step, out.value.acceptedID, out.value.acceptedValue)
        && out.value.dest == m.source && out.value.step == m.step && out.value.id == m.id
    case Propose(_, _, _) =>
      out == if Voted(heard, h.step, m) then Some(Accept(m.step, m.id, m.value)) else None
    case Promise(_, _, _, _, _) => out == None
    case Accept(_, _, _) =>
      out == if Completed(c, heard + [m], m, h.step) then Some(TLC(m.step, NextBlock(c, h, m.value))) else None
    case TLC(_, _) =>
      out == if Completed(c, heard + [m], m, h.step) then Some(m) else None
  }

  lemma AnswersTold(c: Conf, me: Peer, node: Node, heard: seq<Message>, story: Story, m: Message)
    requires c.threshold >= 1 && Told(c, node.h, heard, story) && Exact(node.h, heard)
    requires m.Propose? ==> m.value != NO_VALUE
    ensures Answered(c, node.h, heard, m, Receive(c, me, node, m).out)
  {
    hide Proposes, Busy, Exact, Leave, Stored, Completed, Highest, Reported, Promised, Voted;
    match m
    case Prepare(_, _, _) => PrepareTold(node.h, heard, m);
    case Propose(_, _, _) => ProposeTold(node.h, heard, m);
    case Promise(_, _, _, _, _) =>
    case Accept(_, _, _) =>
      AcceptLeaves(c, me, node, heard, m);
      AcceptOutline(c, node.h, m);
    case TLC(_, _) =>
      TLCLeaves(c, me, node, heard, m);
      TLCOutline(c, node.h, m);
  }

  /** What an action of a node broadcasts. */
  ghost predicate Sends(c: Config, s: Sys, a: Action, heard: seq<Message>, story: Story, out: Option<Message>)
    requires c.threshold >= 1 && Enabled(c, s, a)
  {
    var h, id := s.nodes[a.n].h, c.ids[a.n] + story.retries * c.totalPeers;
    match a
    case Attempt(_, _) => out == Some(Prepare(h.step, id, a.n))
    case Suggest(_, v) => out == Some(Propose(h.step, id, v))
    case Deliver(_, k) => Answered(ConfOf(c, a.n), h, heard, s.sent[k].msg, out)
    case _ => out == None
  }

  lemma SendsTold(c: Config, s: Sys, a: Action, heard: seq<Message>, story: Story)
    requires BaseInv(c, s) && Enabled(c, s, a)
    requires Told(ConfOf(c, a.n), s.nodes[a.n].h, heard, story) && Exact(s.nodes[a.n].h, heard)
    ensures Sends(c, s, a, heard, story, EffectOf(c, s, a).out)
  {
    hide Receive, Exact, Answered, AllBacked, Ordered, NodeOK, Remembers, Busy, Best, AllWhole;
    if a.Deliver? {
      WellSent(c, s, a.k);
      AnswersTold(ConfOf(c, a.n), a.n, s.nodes[a.n], heard, story, s.sent[a.k].msg);
    }
  }

  /** Hence every message a node sends is determined by what it handled in its step ... */
  lemma AnswersExactly(c: Config, run: seq<Action>, a: Action)
    requires GoodConfig(c) && Legal(c, Init(c), run) && Enabled(c, Exec(c, Init(c), run), a)
    ensures var s := Exec(c, Init(c), run);
      Sends(c, s, a, Heard(c, a.n, run), StoryOf(c, a.n, run), EffectOf(c, s, a).out)
  {
    hide Told, Exact, Sends, AllBacked, Ordered, NodeOK, EffectOf;
    StateIsHistory(c, a.n, run);
    CountersAreExact(c, a.n, run);
    SendsTold(c, Exec(c, Init(c), run), a, Heard(c, a.n, run), StoryOf(c, a.n, run));
  }

  /** The value the promise channel gets with message m, if any: with the promise that is the
      threshold-th for the attempt, the best reported value or else the attempt's own. */
  ghost function OfferedWith(c: Conf, story: Story, told: Story): seq<PaxosValue>
    requires AllWhole(told.counted)
  {
    if told != story && |told.counted| - told.since == c.threshold
    then [ValueOf(Best(told.counted), told.value)] else []
  }

  lemma OffersTold(c: Conf, me: Peer, node: Node, story: Story, m: Message)
    requires c.threshold >= 1 && Proposes(c, node.h, story) && (m.Promise? ==> Whole(m))
    ensures var r, told := Receive(c, me, node, m).node, Counted(c, me, story, node.h.step, m);
      && AllWhole(told.counted)
      && r.channel == if r.h.step != node.h.step then [] else node.channel + OfferedWith(c, story, told)
  {
    hide Leave, Stored, RespondToPromise, Best, Whole;
    if m.Promise? && m.dest == me {
      PromiseTold(c, me, node.h, story, m);
    } else if m.Accept? {
      AcceptOutline(c, node.h, m);
    } else if m.TLC? {
      TLCOutline(c, node.h, m);
    }
  }

  /** ... and so is what waits in the promise channel: what is offered, less the value read first
      for each proposal; it is emptied with the step. */
  lemma OffersExactly(c: Config, run: seq<Action>, a: Action)
    requires GoodConfig(c) && Legal(c, Init(c), run) && Enabled(c, Exec(c, Init(c), run), a)
    ensures var s, conf, story := Exec(c, Init(c), run), ConfOf(c, a.n), StoryOf(c, a.n, run);
      var node, r := s.nodes[a.n], EffectOf(c, s, a).node;
      match a
      case Deliver(n, k) =>
        var told := Counted(conf, n, story, node.h.step, s.sent[k].msg);
        && AllWhole(told.counted)
        && r.channel == if r.h.step != node.h.step then [] else node.channel + OfferedWith(conf, story, told)
      case Suggest(_, _) => r.channel == if node.channel == [] then [] else node.channel[1..]
      case _ => r.channel == node.channel
  {
    hide Exact, AllBacked, Ordered, NodeOK, Remembers, Busy, Receive, Best, Whole;
    if a.Deliver? {
      var s := Exec(c, Init(c), run);
      StateIsHistory(c, a.n, run);
      WellSent(c, s, a.k);
      OffersTold(ConfOf(c, a.n), a.n, s.nodes[a.n], StoryOf(c, a.n, run), s.sent[a.k].msg);
    }
  }
}
