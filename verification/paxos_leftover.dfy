/** Exactly when the peers agree. Without all of the discipline they fork even when the threshold
    asks for all of them: a value stays on the promise channel, because promises of an earlier
    ballot are counted or because the ticker fires while the value waits to be read, and the next
    attempt proposes it without regard to what its own promises report. */
module PaxosLeftover {
  import opened Common
  import opened Blockchain
  import opened PaxosSpec
  import opened PaxosSystem
  import opened PaxosChains
  import opened PaxosRuns
  import opened PaxosStage
  import opened PaxosMoves
  import opened PaxosFork

  /** Everyone takes part, and not all of the discipline is asked for. */
  ghost predicate Full(p: Play) {
    Set(p) && p.cast.d != TIDY && p.cast.c.threshold == Members(p.cast) + 2
  }

  function Third(p: Play): nat {
    Retry(p) + p.cast.c.totalPeers
  }

  /** When promises must be in time, the ticker of proposer 0 fires after they are counted,
      otherwise before: the ballot it is on while it counts those of its first and of its second. */
  function Counting1(p: Play): nat {
    if p.cast.d.timely then Low(p) else Retry(p)
  }

  function Counting2(p: Play): nat {
    if p.cast.d.timely then Retry(p) else Third(p)
  }

  // ---------------------------------------------------------------- a value that is not read

  /** Proposer 0 with i promises of its first ballot. */
  function Late0(p: Play, i: nat): Node {
    var done := i >= p.cast.c.threshold;
    Undecided(First(Counting1(p), Low(p), 0, NO_VALUE).(proposedValue := p.v, promises := i,
                                                        phase := if done then Phase2 else Phase1),
              if p.cast.d.timely then Preparing(0) else Ready, if done then [p.v] else [],
              if done then {Offer(0, Counting1(p), p.v)} else {}, {p.v})
  }

  /** Proposer 0 prepares a ballot, and may give up waiting for it. */
  lemma FirstBallotWaits(p: Play) returns (st: Stage)
    requires Full(p)
    ensures Stands(p.cast, st)
    ensures st.a == Seat(Late0(p, 1), Prepare0(p), [], [], [], [])
    ensures st.b == Seat(Started1(p), QUIET, [], [Prepare0(p), Promise0(p)], [], [])
    ensures st.m == Opening(p.cast).m.(ofA := [Prepare0(p), Promise0(p)])
  {
    hide Stands, GoodConfig, Distinct;
    Facts(p);
    hide Set;
    AtTheOpening(p.cast);
    st := Opening(p.cast);
    st := Begins(p.cast, st, 0);
    st := Begins(p.cast, st, 1);
    st := Prepares(p.cast, st, 0, p.v);
    if !p.cast.d.timely {
      st := Retries(p.cast, st, 0);
    }
  }

  function Listening1(p: Play): Node {
    Undecided(First(High(p), Low(p), 0, NO_VALUE), Ready, [], {}, {})
  }

  /** The others promise it. */
  lemma FirstBallotPromisedByAll(p: Play) returns (st: Stage)
    requires Full(p)
    ensures Stands(p.cast, st)
    ensures st.a == Seat(Late0(p, 1), Prepare0(p), [], [], [Promise0(p)], [Promise0(p)])
    ensures st.b == Seat(Listening1(p), QUIET, [], [Promise0(p)], [], [Promise0(p)])
    ensures st.m == Seat(Member(Low(p), 0, NO_VALUE, map[]), QUIET, [], [Promise0(p)], [Promise0(p)], [Promise0(p)])
  {
    hide Stands, GoodConfig, Distinct;
    Facts(p);
    hide Set;
    st := FirstBallotWaits(p);
    st := AllPromise(p.cast, st, 0, Member(Low(p), 0, NO_VALUE, map[]), Promise0(p));
    st := PromisesOther(p.cast, st, 1, Promise0(p));
  }

  /** Proposer 0 when the promises are counted and the ticker has fired. */
  function Unread0(p: Play): Node {
    var node := Late0(p, p.cast.c.threshold);
    node.(h := node.h.(paxosID := Retry(p)), thread := Ready)
  }

  /** Proposer 0 counts the promises, and v stays on its channel. */
  lemma LeftOnTheChannel(p: Play) returns (st: Stage)
    requires Full(p)
    ensures Stands(p.cast, st)
    ensures st.a == Seat(Unread0(p), Prepare0(p), [], [], [], [])
    ensures st.b == Seat(Listening1(p), QUIET, [], [Promise0(p)], [], [Promise0(p)])
    ensures st.m == Seat(Member(Low(p), 0, NO_VALUE, map[]), QUIET, [], [Promise0(p)], [Promise0(p)], [Promise0(p)])
  {
    hide Stands, GoodConfig, Distinct;
    Facts(p);
    hide Set;
    st := FirstBallotPromisedByAll(p);
    st := TalliesAll(p.cast, st, 0);
    st := TalliesOther(p.cast, st, 0);
    if p.cast.d.timely {
      st := Retries(p.cast, st, 0);
    }
  }

  // ---------------------------------------------------------------- proposer 1 prepares

  /** Proposer 1 on its ballot, with i promises. */
  function Raised1(p: Play, i: nat): Node {
    var done := i >= p.cast.c.threshold;
    Undecided(First(High(p), High(p), 0, NO_VALUE).(proposedValue := p.w, promises := i,
                                                    phase := if done then Phase2 else Phase1),
              Preparing(0), if done then [p.w] else [], if done then {Offer(0, High(p), p.w)} else {}, {p.w})
  }

  /** Proposer 0 with the value left on its channel, after its promise to proposer 1. */
  function Waiting0(p: Play): Node {
    Unread0(p).(h := Unread0(p).h.(maxID := High(p)))
  }

  lemma SecondBallotPromisedByAll(p: Play) returns (st: Stage)
    requires Full(p)
    ensures Stands(p.cast, st)
    ensures st.a == Seat(Waiting0(p), Prepare0(p), [], [], [Promise1(p)], [Promise1(p)])
    ensures st.b == Seat(Raised1(p, 1), Prepare1(p), [], [Promise0(p), Promise1(p)], [], [Promise0(p), Promise1(p)])
    ensures st.m == Seat(Member(High(p), 0, NO_VALUE, map[]), QUIET, [], [Promise0(p), Promise1(p)], [Promise1(p)],
                         [Promise0(p), Promise1(p)])
  {
    hide Stands, GoodConfig, Distinct;
    Facts(p);
    hide Set;
    st := LeftOnTheChannel(p);
    st := Prepares(p.cast, st, 1, p.w);
    st := PromisesOther(p.cast, st, 0, Promise1(p));
    st := AllIgnore(p.cast, st, 1);
    st := AllPromise(p.cast, st, 1, Member(High(p), 0, NO_VALUE, map[]), Promise1(p));
  }

  lemma SecondBallotOffered(p: Play) returns (st: Stage)
    requires Full(p)
    ensures Stands(p.cast, st)
    ensures st.a == Seat(Waiting0(p), Prepare0(p), [], [], [Promise1(p)], [Promise1(p)])
    ensures st.b == Seat(Raised1(p, p.cast.c.threshold), Prepare1(p), [], [], [], [])
    ensures st.m == Seat(Member(High(p), 0, NO_VALUE, map[]), QUIET, [], [Promise0(p), Promise1(p)], [Promise1(p)],
                         [Promise0(p), Promise1(p)])
  {
    hide Stands, GoodConfig, Distinct;
    Facts(p);
    hide Set;
    st := SecondBallotPromisedByAll(p);
    st := IgnoresAll(p.cast, st, 1);
    st := TalliesAll(p.cast, st, 1);
    st := Ignores(p.cast, st, 1, 0);
    st := TalliesOther(p.cast, st, 1);
  }

  // ---------------------------------------------------------------- the leftover is proposed

  /** Proposer 0 promises its second ballot when it has accepted nothing. */
  function Blank2(p: Play): Message {
    Promise(A(p), 0, Retry(p), 0, None)
  }

  /** Proposer 0 has proposed and accepted the value left on its channel, and may have given up
      waiting for that, too; its counters. */
  function Stubborn0(p: Play, promises: nat, counts: map<PaxosValue, nat>): Node {
    Undecided(First(Counting2(p), Retry(p), Retry(p), p.v).(proposedValue := p.u, promises := promises,
                                                            acceptedValues := counts),
              if p.cast.d.timely then Proposing(0) else Ready, [], {Offer(0, Counting1(p), p.v)}, {p.v, p.u})
  }

  lemma LeftoverPrepared(p: Play) returns (st: Stage)
    requires Full(p)
    ensures Stands(p.cast, st)
    ensures st.a == Seat(Waiting0(p).(h := First(Retry(p), Retry(p), 0, NO_VALUE).(proposedValue := p.u, promises := 1),
                                      thread := Preparing(0), created := {p.v, p.u}),
                         Prepare2(p), [], [], [Promise1(p)], [Promise1(p)])
    ensures st.b == Seat(Raised1(p, p.cast.c.threshold), Prepare1(p), [], [Prepare2(p), Blank2(p)], [], [])
    ensures st.m == Seat(Member(High(p), 0, NO_VALUE, map[]), QUIET, [],
                         [Promise0(p), Promise1(p), Prepare2(p), Blank2(p)], [Promise1(p)],
                         [Promise0(p), Promise1(p)])
  {
    hide Stands, GoodConfig, Distinct;
    Facts(p);
    hide Set;
    st := SecondBallotOffered(p);
    st := Prepares(p.cast, st, 0, p.u);
  }

  lemma LeftoverProposed(p: Play) returns (st: Stage)
    requires Full(p)
    ensures Stands(p.cast, st)
    ensures st.a == Seat(Stubborn0(p, 1, map[p.v := 1]), Propose2(p), [], [], [Promise1(p)], [Promise1(p)])
    ensures st.b == Seat(Raised1(p, p.cast.c.threshold), Prepare1(p), [],
                         [Prepare2(p), Blank2(p), Propose2(p), Accept2(p)], [], [])
    ensures st.m == Seat(Member(High(p), 0, NO_VALUE, map[]), QUIET, [],
                         [Promise0(p), Promise1(p), Prepare2(p), Blank2(p), Propose2(p), Accept2(p)], [Promise1(p)],
                         [Promise0(p), Promise1(p)])
  {
    hide Stands, GoodConfig, Distinct;
    Facts(p);
    hide Set;
    st := LeftoverPrepared(p);
    assert Offer(0, Counting1(p), p.v) in st.a.node.offers;
    st := Proposes(p.cast, st, 0, p.v);
    st := CountsItsOwn(p.cast, st, 0);
    if !p.cast.d.timely {
      st := Retries(p.cast, st, 0);
    }
  }

  // ---------------------------------------------------------------- w is accepted by all others

  /** Proposer 1 has accepted w on its ballot; its promise and its counters. */
  function Firm1(p: Play, maxID: nat, counts: map<PaxosValue, nat>): Node {
    var node := Raised1(p, p.cast.c.threshold);
    node.(h := node.h.(maxID := maxID, acceptedID := High(p), acceptedValue := p.w, acceptedValues := counts),
          thread := Proposing(0), channel := [])
  }

  lemma OtherProposed(p: Play) returns (st: Stage)
    requires Full(p)
    ensures Stands(p.cast, st)
    ensures st.a == Seat(Stubborn0(p, 1, map[p.v := 1]), Propose2(p), [], [], [Promise1(p), Propose1(p), Accept1(p)],
                         [Promise1(p)])
    ensures st.b == Seat(Firm1(p, High(p), map[p.w := 1]), Propose1(p), [],
                         [Prepare2(p), Blank2(p), Propose2(p), Accept2(p)], [], [])
    ensures st.m == Seat(Member(High(p), 0, NO_VALUE, map[]), QUIET, [],
                         [Promise0(p), Promise1(p), Prepare2(p), Blank2(p), Propose2(p), Accept2(p)],
                         [Promise1(p), Propose1(p), Accept1(p)], [Promise0(p), Promise1(p)])
  {
    hide Stands, GoodConfig, Distinct;
    Facts(p);
    hide Set;
    st := LeftoverProposed(p);
    assert Offer(0, High(p), p.w) in st.b.node.offers;
    st := Proposes(p.cast, st, 1, p.w);
    st := CountsItsOwn(p.cast, st, 1);
  }

  lemma OtherAccepted(p: Play) returns (st: Stage)
    requires Full(p)
    ensures Stands(p.cast, st)
    ensures st.a == Seat(Stubborn0(p, 1, map[p.v := 1]), Propose2(p), [], [], [Promise1(p), Propose1(p), Accept1(p)],
                         [Promise1(p), Accept1(p)])
    ensures st.b == Seat(Firm1(p, High(p), map[p.w := 1]), Propose1(p), [],
                         [Prepare2(p), Blank2(p), Propose2(p), Accept2(p)], [], [Accept1(p)])
    ensures st.m == Seat(Member(High(p), High(p), p.w, map[p.w := 1]), QUIET, [],
                         [Promise0(p), Promise1(p), Prepare2(p), Blank2(p), Propose2(p), Accept2(p)], [Accept1(p)],
                         [Promise0(p), Promise1(p), Accept1(p)])
  {
    hide Stands, GoodConfig, Distinct, Stubborn0, Firm1;
    Facts(p);
    hide Set;
    st := OtherProposed(p);
    st := AllIgnore(p.cast, st, 1);
    st := AllAccept(p.cast, st, 1);
  }

  // ---------------------------------------------------------------- and reported late

  lemma OtherReports(p: Play) returns (st: Stage)
    requires Full(p)
    ensures Stands(p.cast, st)
    ensures st.a == Seat(Stubborn0(p, 1, map[p.v := 1]), Propose2(p), [], [],
                         [Promise1(p), Propose1(p), Accept1(p), Report2(p)], [Promise1(p), Accept1(p)])
    ensures st.b == Seat(Firm1(p, Retry(p), map[p.w := 1]), Propose1(p), [],
                         [Blank2(p), Propose2(p), Accept2(p)], [], [Accept1(p)])
    ensures st.m == Seat(Member(High(p), High(p), p.w, map[p.w := 1]), QUIET, [],
                         [Promise0(p), Promise1(p), Prepare2(p), Blank2(p), Propose2(p), Accept2(p)],
                         [Accept1(p), Report2(p)], [Promise0(p), Promise1(p), Accept1(p)])
  {
    hide Stands, GoodConfig, Distinct;
    Facts(p);
    hide Set;
    st := OtherAccepted(p);
    st := PromisesOther(p.cast, st, 1, Report2(p));
  }

  lemma AllReport(p: Play) returns (st: Stage)
    requires Full(p)
    ensures Stands(p.cast, st)
    ensures st.a == Seat(Stubborn0(p, 1, map[p.v := 1]), Propose2(p), [], [],
                         [Promise1(p), Propose1(p), Accept1(p), Report2(p)], [Promise1(p), Accept1(p), Report2(p)])
    ensures st.b == Seat(Firm1(p, Retry(p), map[p.w := 1]), Propose1(p), [],
                         [Blank2(p), Propose2(p), Accept2(p)], [], [Accept1(p), Report2(p)])
    ensures st.m == Seat(Member(Retry(p), High(p), p.w, map[p.w := 1]), QUIET, [],
                         [Blank2(p), Propose2(p), Accept2(p)], [Accept1(p), Report2(p)],
                         [Promise0(p), Promise1(p), Accept1(p), Report2(p)])
  {
    hide Stands, GoodConfig, Distinct;
    Facts(p);
    hide Set;
    st := OtherReports(p);
    st := AllIgnore(p.cast, st, 0);
    st := AllIgnore(p.cast, st, 0);
    st := AllPromise(p.cast, st, 0, Member(Retry(p), High(p), p.w, map[p.w := 1]), Report2(p));
  }

  /** i accepts of w besides its own of v. */
  function Both(p: Play, i: nat): map<PaxosValue, nat> {
    if i == 0 then map[p.v := 1] else map[p.v := 1, p.w := i]
  }

  /** Proposer 0 when the members' late promises have reported w. */
  function Told0(p: Play, accepts: nat): Node {
    var node := Stubborn0(p, Members(p.cast) + 1, Both(p, accepts));
    if Members(p.cast) == 0 then node else node.(h := node.h.(bestID := Retry(p), bestValue := p.w))
  }

  /** Proposer 0, on its second or third ballot by now, counts the promises of the second. */
  lemma MembersReported(p: Play) returns (st: Stage)
    requires Full(p)
    ensures Stands(p.cast, st)
    ensures st.a == Seat(Told0(p, Members(p.cast)), Propose2(p), [], [],
                         [Promise1(p), Propose1(p), Accept1(p), Report2(p)], [])
    ensures st.b == Seat(Firm1(p, Retry(p), map[p.w := 1]), Propose1(p), [],
                         [Blank2(p), Propose2(p), Accept2(p)], [], [Accept1(p), Report2(p)])
    ensures st.m == Seat(Member(Retry(p), High(p), p.w, map[p.w := 1]), QUIET, [],
                         [Blank2(p), Propose2(p), Accept2(p)], [Accept1(p), Report2(p)],
                         [Promise0(p), Promise1(p), Accept1(p), Report2(p)])
  {
    hide Stands, GoodConfig, Distinct;
    Facts(p);
    hide Set;
    st := AllReport(p);
    st := IgnoresAll(p.cast, st, 0);
    st := CountsAll(p.cast, st, 0);
    st := TalliesAll(p.cast, st, 0);
  }

  /** Proposer 0 with w left on its channel, and one accept of w fewer than the threshold. */
  function Leftover0(p: Play): Node {
    var node := Stubborn0(p, p.cast.c.threshold, Both(p, Members(p.cast) + 1));
    node.(h := node.h.(paxosID := Third(p), bestID := Retry(p), bestValue := p.w, phase := Phase2),
          thread := Ready, channel := [p.w], offers := {Offer(0, Counting1(p), p.v), Offer(0, Counting2(p), p.w)})
  }

  lemma TheAcceptIsNext(p: Play) returns (st: Stage)
    requires Full(p)
    ensures Stands(p.cast, st)
    ensures st.a == Seat(Told0(p, Members(p.cast)), Propose2(p), [], [], [Accept1(p), Report2(p)], [])
    ensures st.b == Seat(Firm1(p, Retry(p), map[p.w := 1]), Propose1(p), [],
                         [Blank2(p), Propose2(p), Accept2(p)], [], [Accept1(p), Report2(p)])
    ensures st.m == Seat(Member(Retry(p), High(p), p.w, map[p.w := 1]), QUIET, [],
                         [Blank2(p), Propose2(p), Accept2(p)], [Accept1(p), Report2(p)],
                         [Promise0(p), Promise1(p), Accept1(p), Report2(p)])
  {
    hide Stands, GoodConfig, Distinct, Firm1, Member, Both;
    Facts(p);
    hide Set;
    st := MembersReported(p);
    st := Ignores(p.cast, st, 0, 1);
    st := Ignores(p.cast, st, 0, 1);
  }

  lemma ToldOneMore(p: Play, i: nat)
    requires Set(p)
    ensures CountedBy(Told0(p, i), p.w, 1) == Told0(p, i + 1) && Count(Told0(p, i).h.acceptedValues, p.w) == i
    ensures var node := Told0(p, i); !node.crashed && |node.channel| <= 1 && node.h.step == 0
  {
    Facts(p);
    if i > 0 {
      assert Both(p, i)[p.w := i + 1] == Both(p, i + 1);
    }
  }

  lemma OneAcceptMore(p: Play) returns (st: Stage)
    requires Full(p)
    ensures Stands(p.cast, st)
    ensures st.a == Seat(Told0(p, Members(p.cast) + 1), Propose2(p), [], [], [Report2(p)], [])
    ensures st.b == Seat(Firm1(p, Retry(p), map[p.w := 1]), Propose1(p), [],
                         [Blank2(p), Propose2(p), Accept2(p)], [], [Accept1(p), Report2(p)])
    ensures st.m == Seat(Member(Retry(p), High(p), p.w, map[p.w := 1]), QUIET, [],
                         [Blank2(p), Propose2(p), Accept2(p)], [Accept1(p), Report2(p)],
                         [Promise0(p), Promise1(p), Accept1(p), Report2(p)])
  {
    hide Stands, GoodConfig, Distinct, Firm1, Member, Told0, CountedBy;
    Facts(p);
    hide Set;
    st := TheAcceptIsNext(p);
    ToldOneMore(p, Members(p.cast));
    st := CountsOther(p.cast, st, 0);
  }

  lemma LeftAgain(p: Play) returns (st: Stage)
    requires Full(p)
    ensures Stands(p.cast, st)
    ensures st.a == Seat(Leftover0(p), Propose2(p), [], [], [], [])
    ensures st.b == Seat(Firm1(p, Retry(p), map[p.w := 1]), Propose1(p), [],
                         [Blank2(p), Propose2(p), Accept2(p)], [], [Accept1(p), Report2(p)])
    ensures st.m == Seat(Member(Retry(p), High(p), p.w, map[p.w := 1]), QUIET, [],
                         [Blank2(p), Propose2(p), Accept2(p)], [Accept1(p), Report2(p)],
                         [Promise0(p), Promise1(p), Accept1(p), Report2(p)])
  {
    hide Stands, GoodConfig, Distinct, Firm1, Member;
    Facts(p);
    hide Set;
    st := OneAcceptMore(p);
    st := TalliesOther(p.cast, st, 0);
    if p.cast.d.timely {
      st := Retries(p.cast, st, 0);
    }
  }

  // ---------------------------------------------------------------- two decisions

  /** Proposer 1 and the members accept v on the second ballot. */
  lemma LeftoverAccepted(p: Play) returns (st: Stage)
    requires Full(p)
    ensures Stands(p.cast, st)
    ensures st.a == Seat(Leftover0(p), Propose2(p), [], [], [Accept2(p)], [Accept2(p)])
    ensures st.b == Seat(Firm1(p, Retry(p), map[p.w := 1, p.v := 1]), Propose1(p), [], [Accept2(p)], [],
                         [Accept1(p), Report2(p), Accept2(p)])
    ensures st.m.node.created == {}
  {
    hide Stands, GoodConfig, Distinct, Leftover0;
    Facts(p);
    hide Set;
    st := LeftAgain(p);
    st := Ignores(p.cast, st, 1, 0);
    st := AcceptsOther(p.cast, st, 1);
    st := AllIgnore(p.cast, st, 0);
    st := AllAccept(p.cast, st, 0);
  }

  /** Proposer 1 counts them, and the accept of proposer 0 decides v. */
  lemma LeftoverDecided(p: Play) returns (st: Stage)
    requires Full(p)
    ensures Stands(p.cast, st)
    ensures st.a.node == Leftover0(p) && st.a.own == [] && st.b.node.chain == [FirstBlock(p, p.v)]
    ensures p.x !in st.b.node.created && p.x !in st.m.node.created
  {
    hide Stands, GoodConfig, Distinct, Takes;
    Facts(p);
    hide Set;
    st := LeftoverAccepted(p);
    st := CountsAll(p.cast, st, 1);
    st := IgnoresAll(p.cast, st, 1);
    st := CountsAll(p.cast, st, 1);
    LeavesFirst(p, 1, st.b.node, Accept2(p));
    st := Hears(p.cast, st, 1, 0, 0, After(p, High(p), p.v, st.b.node), Some(TLC(0, FirstBlock(p, p.v))));
  }

  /** Proposer 0 proposes w, which was left on its channel, and its own accept decides it. */
  lemma BothLeftoversDecided(p: Play) returns (st: Stage)
    requires Full(p)
    ensures Stands(p.cast, st)
    ensures st.a.node.chain == [FirstBlock(p, p.w)] && st.b.node.chain == [FirstBlock(p, p.v)]
  {
    hide Stands, GoodConfig, Distinct, Takes;
    Facts(p);
    hide Set;
    st := LeftoverDecided(p);
    st := Prepares(p.cast, st, 0, p.x);
    assert Offer(0, Counting2(p), p.w) in st.a.node.offers;
    st := Proposes(p.cast, st, 0, p.w);
    LeavesFirst(p, 0, st.a.node, Accept(0, Third(p), p.w));
    st := HearsOwn(p.cast, st, 0, After(p, Low(p), p.w, st.a.node), Some(TLC(0, FirstBlock(p, p.w))));
  }

  // ---------------------------------------------------------------- exactly when

  /** With a threshold that asks for all of at least two peers, and less than all of the
      discipline, there is for any two values a proper run after which two peers hold them as their
      first blocks. */
  lemma UnanimousFork(c: Config, d: Discipline, v: PaxosValue, w: PaxosValue)
    returns (run: seq<Action>, m: Peer, n: Peer)
    requires GoodConfig(c) && c.threshold == |c.ids| >= 2 && d != TIDY && v != NO_VALUE && w != NO_VALUE && v != w
    ensures Proper(c, d, Init(c), run)
    ensures Holding(Exec(c, Init(c), run), m, v) && Holding(Exec(c, Init(c), run), n, w)
  {
    hide Visited, Proper, Stands, GoodConfig, Distinct;
    var p := SomePlay(c, |c.ids| - 2, d, v, w);
    m, n := B(p), A(p);
    Facts(p);
    var st := BothLeftoversDecided(p);
    var s := OnStage(p.cast, st);
    run := RunTo(c, d, s);
  }

  /** All runs of the program that keep the discipline d end with agreeing chains. */
  ghost predicate AlwaysAgree(c: Config, d: Discipline)
    requires c.threshold >= 1
  {
    forall run :: Proper(c, d, Init(c), run) ==> ChainsAgree(Exec(c, Init(c), run))
  }

  /** With both kinds of discipline the peers always agree on their chains exactly when the
      threshold asks for all of them. */
  lemma AgreementExactly(c: Config)
    requires GoodConfig(c)
    ensures AlwaysAgree(c, TIDY) <==> c.threshold >= |c.ids|
  {
    if c.threshold >= |c.ids| {
      forall run | Proper(c, TIDY, Init(c), run) ensures ChainsAgree(Exec(c, Init(c), run)) {
        TidyIsDisciplined(c, Init(c), run);
        UnanimousChains(c, run);
      }
    } else {
      var run, m, n := FewerFork(c, TIDY, ONE, TWO);
      Disagree(Exec(c, Init(c), run), m, n, ONE, TWO);
      assert !AlwaysAgree(c, TIDY);
    }
  }

  const ONE := PaxosValue("1", "", "")
  const TWO := PaxosValue("2", "", "")

  /** With none of it or only one kind of it, they always agree exactly when there are not two of
      them, whatever the threshold, up to the number of peers. */
  lemma AgreementNeedsDiscipline(c: Config, d: Discipline)
    requires GoodConfig(c) && c.threshold <= |c.ids| && d != TIDY
    ensures AlwaysAgree(c, d) <==> |c.ids| <= 1
  {
    hide Holding;
    if |c.ids| <= 1 {
      forall run | Proper(c, d, Init(c), run) ensures ChainsAgree(Exec(c, Init(c), run)) {
        SizeStays(c, Init(c), run);
        OneChain(Exec(c, Init(c), run));
      }
    } else {
      var run := UndisciplinedFork(c, d);
      assert !AlwaysAgree(c, d);
    }
  }

  lemma UndisciplinedFork(c: Config, d: Discipline) returns (run: seq<Action>)
    requires GoodConfig(c) && c.threshold <= |c.ids| && |c.ids| >= 2 && d != TIDY
    ensures Proper(c, d, Init(c), run) && !ChainsAgree(Exec(c, Init(c), run))
  {
    hide Holding;
    var m, n;
    if c.threshold < |c.ids| {
      run, m, n := FewerFork(c, d, ONE, TWO);
    } else {
      run, m, n := UnanimousFork(c, d, ONE, TWO);
    }
    Disagree(Exec(c, Init(c), run), m, n, ONE, TWO);
  }

  lemma Disagree(s: Sys, m: Peer, n: Peer, v: PaxosValue, w: PaxosValue)
    requires Holding(s, m, v) && Holding(s, n, w) && v != w
    ensures !ChainsAgree(s)
  {
    assert s.nodes[m].chain[0] != s.nodes[n].chain[0];
  }

  lemma OneChain(s: Sys)
    requires |s.nodes| <= 1
    ensures ChainsAgree(s)
  {
  }

  lemma {:induction false} SizeStays(c: Config, s: Sys, run: seq<Action>)
    requires c.threshold >= 1 && Legal(c, s, run)
    ensures |Exec(c, s, run).nodes| == |s.nodes|
    decreases |run|
  {
    if run != [] {
      SizeStays(c, Apply(c, s, run[0]), run[1..]);
    }
  }
}
