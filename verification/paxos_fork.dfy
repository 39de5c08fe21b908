/** With a threshold below the number of peers there is a proper and disciplined run after which
    two of them hold different first blocks: proposer 0 gets v accepted by itself alone, proposer 1
    gets w accepted by itself and the members, and proposer 0 proposes v again, because its own
    promise has set bestID to the new ballot. */
module PaxosFork {
  import opened Common
  import opened Blockchain
  import opened PaxosSpec
  import opened PaxosSystem
  import opened PaxosRuns
  import opened PaxosMail
  import opened PaxosStage
  import opened PaxosMoves

  // ---------------------------------------------------------------- the play

  /** The parts, and the values that are created. */
  datatype Play = Play(cast: Cast, v: PaxosValue, w: PaxosValue, u: PaxosValue, x: PaxosValue, z: PaxosValue)

  ghost predicate Set(p: Play) {
    && Staged(p.cast) && Low(p) < High(p)
    && Distinct([NO_VALUE, p.v, p.w, p.u, p.x, p.z])
  }

  function Low(p: Play): nat {
    IdOf(p.cast, 0)
  }

  function High(p: Play): nat {
    IdOf(p.cast, 1)
  }

  function Retry(p: Play): nat {
    Low(p) + p.cast.c.totalPeers
  }

  function A(p: Play): Peer {
    if |p.cast.who| > 0 then p.cast.who[0] else 0
  }

  function B(p: Play): Peer {
    if |p.cast.who| > 1 then p.cast.who[1] else 0
  }

  lemma Facts(p: Play)
    requires Set(p)
    ensures Staged(p.cast) && 1 <= Low(p) < High(p) < Retry(p) && A(p) != B(p)
    ensures forall r :: 2 <= r < |p.cast.who| ==> p.cast.who[r] != A(p) && p.cast.who[r] != B(p)
    ensures p.v != NO_VALUE && p.w != NO_VALUE && p.u != NO_VALUE && p.x != NO_VALUE && p.z != NO_VALUE
    ensures p.v != p.w && p.v != p.u && p.v != p.x && p.v != p.z && p.w != p.u && p.w != p.x && p.w != p.z
    ensures p.u != p.x && p.u != p.z && p.x != p.z
  {
    var all := [NO_VALUE, p.v, p.w, p.u, p.x, p.z];
    assert all[0] == NO_VALUE && all[1] == p.v && all[2] == p.w && all[3] == p.u && all[4] == p.x && all[5] == p.z;
  }

  /** A handler in the first step: its ballot, its promise, what it accepted. */
  function First(paxosID: nat, maxID: nat, acceptedID: nat, accepted: PaxosValue): Handler {
    Handler(true, 0, maxID, 0, acceptedID, 0, Phase1, paxosID, NO_VALUE, accepted, NO_VALUE, NO_VALUE,
            map[], map[], map[], map[])
  }

  /** A node that has left no step. */
  function Undecided(h: Handler, thread: Thread, channel: seq<PaxosValue>, offers: set<Offer>,
                     created: set<PaxosValue>): Node {
    Node(h, thread, channel, offers, created, {}, [], false)
  }

  /** A member in the first step, with the accepts it counted. */
  function Member(maxID: nat, acceptedID: nat, accepted: PaxosValue, counts: map<PaxosValue, nat>): Node {
    Undecided(First(0, maxID, acceptedID, accepted).(acceptedValues := counts), Resting, [], {}, {})
  }

  const QUIET := Prepare(0, 0, 0)

  /** The play needs one peer more than the threshold. */
  ghost predicate Short(p: Play) {
    Set(p) && p.cast.c.threshold == Members(p.cast) + 1
  }

  // ---------------------------------------------------------------- the first ballot

  /** Proposer 0 with the promises of itself and of i members. */
  function Promised0(p: Play, i: nat): Node {
    var done := i + 1 >= p.cast.c.threshold;
    Undecided(First(Low(p), Low(p), 0, NO_VALUE).(proposedValue := p.v, promises := i + 1,
                                                  phase := if done then Phase2 else Phase1),
              Preparing(0), if done then [p.v] else [], if done then {Offer(0, Low(p), p.v)} else {}, {p.v})
  }

  function Prepare0(p: Play): Message {
    Prepare(0, Low(p), A(p))
  }

  function Promise0(p: Play): Message {
    Promise(A(p), 0, Low(p), 0, None)
  }

  function Started1(p: Play): Node {
    Undecided(First(High(p), 0, 0, NO_VALUE), Ready, [], {}, {})
  }

  /** Both proposers start, and proposer 0 prepares its ballot. */
  lemma FirstBallotPrepared(p: Play) returns (st: Stage)
    requires Short(p)
    ensures Stands(p.cast, st)
    ensures st.a == Seat(Promised0(p, 0), Prepare0(p), [], [], [], [])
    ensures st.b == Seat(Started1(p), QUIET, [], [Prepare0(p), Promise0(p)], [], [])
    ensures st.m == Opening(p.cast).m.(ofA := [Prepare0(p), Promise0(p)])
  {
    hide Stands, GoodConfig, Distinct;
    Facts(p);
    hide Set;
    AtTheOpening(p.cast);
    st := Opening(p.cast);
    st := Begins(p.cast, st, 0);
    st := Begins(p.cast, st, 1);
    st := Prepares(p.cast, st, 0, p.v);
  }

  /** The members promise that ballot, and v goes on the promise channel. */
  lemma FirstBallotPromised(p: Play) returns (st: Stage)
    requires Short(p)
    ensures Stands(p.cast, st)
    ensures st.a == Seat(Promised0(p, Members(p.cast)), Prepare0(p), [], [], [], [])
    ensures st.b == Seat(Started1(p), QUIET, [], [Prepare0(p), Promise0(p)], [], [Promise0(p)])
    ensures st.m == Seat(Member(Low(p), 0, NO_VALUE, map[]), QUIET, [], [Promise0(p)], [], [Promise0(p)])
  {
    hide Stands, GoodConfig, Distinct;
    Facts(p);
    hide Set;
    st := FirstBallotPrepared(p);
    st := AllPromise(p.cast, st, 0, Started(p, st.m.node), Promise0(p));
    st := TalliesAll(p.cast, st, 0);
  }

  function Started(p: Play, node: Node): Node {
    node.(h := node.h.(running := true, maxID := Low(p)))
  }

  function Propose0(p: Play): Message {
    Propose(0, Low(p), p.v)
  }

  function Accept0(p: Play): Message {
    Accept(0, Low(p), p.v)
  }

  function Accepted0(p: Play): Node {
    Proposed(Promised0(p, Members(p.cast)), p.v)
  }

  /** It proposes v, and accepts it; its accept waits. */
  lemma FirstBallotProposed(p: Play) returns (st: Stage)
    requires Short(p)
    ensures Stands(p.cast, st)
    ensures st.a == Seat(Accepted0(p), Propose0(p), [Accept0(p)], [], [], [])
    ensures st.b == Seat(Started1(p), QUIET, [], [Prepare0(p), Promise0(p), Propose0(p), Accept0(p)], [], [Promise0(p)])
    ensures st.m == Seat(Member(Low(p), 0, NO_VALUE, map[]), QUIET, [], [Promise0(p), Propose0(p), Accept0(p)], [],
                         [Promise0(p)])
  {
    hide Stands, GoodConfig, Distinct;
    Facts(p);
    hide Set;
    st := FirstBallotPromised(p);
    assert Offer(0, Low(p), p.v) in st.a.node.offers;
    st := Proposes(p.cast, st, 0, p.v);
  }

  // ---------------------------------------------------------------- the second ballot

  /** Proposer 1 with the promises of itself and of i members. */
  function Promised1(p: Play, i: nat): Node {
    var done := i + 1 >= p.cast.c.threshold;
    Undecided(First(High(p), High(p), 0, NO_VALUE).(proposedValue := p.w, promises := i + 1,
                                                    phase := if done then Phase2 else Phase1),
              Preparing(0), if done then [p.w] else [], if done then {Offer(0, High(p), p.w)} else {}, {p.w})
  }

  function Prepare1(p: Play): Message {
    Prepare(0, High(p), B(p))
  }

  function Promise1(p: Play): Message {
    Promise(B(p), 0, High(p), 0, None)
  }

  function Propose1(p: Play): Message {
    Propose(0, High(p), p.w)
  }

  function Accept1(p: Play): Message {
    Accept(0, High(p), p.w)
  }

  function Accepted1(p: Play): Node {
    Proposed(Promised1(p, Members(p.cast)), p.w)
  }

  /** The members promise the ballot of proposer 1, too. */
  lemma SecondBallotPromised(p: Play, st: Stage) returns (st': Stage)
    requires Short(p) && Stands(p.cast, st) && p.w !in st.a.node.created
    requires st.b == Seat(Started1(p), QUIET, [], st.b.ofA, [], [Promise0(p)])
    requires st.m == Seat(Member(Low(p), 0, NO_VALUE, map[]), QUIET, [], st.m.ofA, [], [Promise0(p)])
    ensures Stands(p.cast, st')
    ensures st'.a == st.a.(ofB := st.a.ofB + [Prepare1(p), Promise1(p)], ofM := st.a.ofM + [Promise1(p)])
    ensures st'.b == Seat(Promised1(p, Members(p.cast)), Prepare1(p), [], st.b.ofA, [], [])
    ensures st'.m == Seat(Member(High(p), 0, NO_VALUE, map[]), QUIET, [], st.m.ofA, [Promise1(p)],
                          [Promise0(p), Promise1(p)])
  {
    hide Stands, GoodConfig, Distinct;
    Facts(p);
    hide Set;
    st' := Prepares(p.cast, st, 1, p.w);
    assert st'.b.node == Promised1(p, 0);
    st' := AllPromise(p.cast, st', 1, Member(High(p), 0, NO_VALUE, map[]), Promise1(p));
    st' := IgnoresAll(p.cast, st', 1);
    st' := TalliesAll(p.cast, st', 1);
  }

  /** And it proposes w. */
  lemma SecondBallotProposed(p: Play, st: Stage) returns (st': Stage)
    requires Short(p) && Stands(p.cast, st) && p.w !in st.a.node.created
    requires st.b == Seat(Started1(p), QUIET, [], st.b.ofA, [], [Promise0(p)])
    requires st.m == Seat(Member(Low(p), 0, NO_VALUE, map[]), QUIET, [], st.m.ofA, [], [Promise0(p)])
    ensures Stands(p.cast, st')
    ensures st'.a == st.a.(ofB := st.a.ofB + [Prepare1(p), Promise1(p)] + [Propose1(p), Accept1(p)],
                           ofM := st.a.ofM + [Promise1(p)])
    ensures st'.b == Seat(Accepted1(p), Propose1(p), [Accept1(p)], st.b.ofA, [], [])
    ensures st'.m == Seat(Member(High(p), 0, NO_VALUE, map[]), QUIET, [], st.m.ofA,
                          [Promise1(p), Propose1(p), Accept1(p)], [Promise0(p), Promise1(p)])
  {
    hide Stands, GoodConfig, Distinct;
    Facts(p);
    hide Set;
    st' := SecondBallotPromised(p, st);
    assert Offer(0, High(p), p.w) in st'.b.node.offers;
    st' := Proposes(p.cast, st', 1, p.w);
  }

  // ---------------------------------------------------------------- leaving the first step

  function FirstBlock(p: Play, v: PaxosValue): Block {
    BuildBlock(p.cast.c.hash, 0, v, ZERO_HASH)
  }

  /** A handler that has left the first step with value v. */
  function Second(p: Play, id: nat, v: PaxosValue): Handler {
    var block := FirstBlock(p, v);
    Handler(false, 1, 0, 0, 0, 0, Phase1, id, NO_VALUE, NO_VALUE, NO_VALUE, v, map[], map[],
            PutBlock(map[], block), PutName(map[], block))
  }

  /** A node that decided v in the first step and stored its block. */
  function After(p: Play, id: nat, v: PaxosValue, node: Node): Node {
    node.(h := Second(p, id, v), channel := [], decided := node.decided + {Decision(0, v)},
          chain := node.chain + [FirstBlock(p, v)])
  }

  /** The accept that completes the threshold takes a node of the first step there. */
  lemma LeavesFirst(p: Play, r: nat, node: Node, m: Message)
    requires Set(p) && r < |p.cast.who| && node.h.step == 0 && !node.crashed && m.Accept? && m.step == 0
    requires Count(node.h.acceptedValues, m.value) + 1 >= p.cast.c.threshold
    requires node.h.tlcs == map[] && node.h.blocks == map[] && node.h.names == map[]
    ensures Takes(p.cast, r, m, node, After(p, IdOf(p.cast, r), m.value, node), Some(TLC(0, FirstBlock(p, m.value))))
  {
    var c, v, block := ConfOf(p.cast.c, p.cast.who[r]), m.value, FirstBlock(p, m.value);
    var h1 := PaxosSpec.CountAccept(node.h, v);
    assert NextBlock(c, node.h, v) == block;
    assert CatchUp(c, Commit(h1, block)) == Commit(h1, block);
    assert Stored(c, h1, block) == [block];
  }

  /** The node has left the first step with v. */
  ghost predicate Holds1(p: Play, node: Node, id: nat, v: PaxosValue) {
    && node.h == Second(p, id, v) && node.chain == [FirstBlock(p, v)] && node.channel == [] && !node.crashed
    && p.x !in node.created && p.z !in node.created
  }

  lemma AfterHolds(p: Play, node: Node, id: nat, v: PaxosValue)
    requires node.chain == [] && !node.crashed && p.x !in node.created && p.z !in node.created
    ensures Holds1(p, After(p, id, v, node), id, v) && After(p, id, v, node).thread == node.thread
    ensures After(p, id, v, node).created == node.created
  {
  }

  /** All messages that wait belong to the first step. */
  ghost predicate Old(seat: Seat) {
    && OldOnly(seat.own) && OldOnly(seat.ofA) && OldOnly(seat.ofB) && OldOnly(seat.ofM)
  }

  ghost predicate OldOnly(ms: seq<Message>) {
    forall m :: m in ms ==> m.step == 0
  }

  /** The proposers have left the first step with different values. */
  ghost predicate Forked(p: Play, st: Stage) {
    && Holds1(p, st.a.node, Low(p), p.v) && st.a.node.thread.Proposing? && Old(st.a)
    && Holds1(p, st.b.node, High(p), p.w) && st.b.node.thread.Proposing? && Old(st.b)
    && (forall m :: m in st.a.own ==> PartOf(st.a.tag, m) || m.TLC?)
    && (forall m :: m in st.b.own ==> m.TLC?)
  }

  // ---------------------------------------------------------------- a threshold of one

  /** Alone, proposer 0 decides its own value. */
  lemma FirstDecidesAlone(p: Play) returns (st: Stage)
    requires Short(p) && Members(p.cast) == 0
    ensures Stands(p.cast, st)
    ensures Holds1(p, st.a.node, Low(p), p.v) && st.a.node.thread.Proposing? && p.w !in st.a.node.created
    ensures st.a == Seat(st.a.node, Propose0(p), [TLC(0, FirstBlock(p, p.v))], [], [], [])
    ensures st.b == Seat(Started1(p), QUIET, [], st.b.ofA, [], [Promise0(p)]) && OldOnly(st.b.ofA)
    ensures st.m == Seat(Member(Low(p), 0, NO_VALUE, map[]), QUIET, [], st.m.ofA, [], [Promise0(p)])
  {
    hide Stands, GoodConfig, Distinct, Takes, After, Holds1;
    Facts(p);
    hide Set;
    st := FirstBallotProposed(p);
    LeavesFirst(p, 0, st.a.node, Accept0(p));
    AfterHolds(p, st.a.node, Low(p), p.v);
    st := HearsOwn(p.cast, st, 0, After(p, Low(p), p.v, st.a.node), Some(TLC(0, FirstBlock(p, p.v))));
  }

  /** And so does proposer 1. */
  lemma EachDecides(p: Play) returns (st: Stage)
    requires Short(p) && Members(p.cast) == 0
    ensures Stands(p.cast, st) && Forked(p, st)
  {
    hide Stands, GoodConfig, Distinct, Takes, After, Holds1;
    Facts(p);
    hide Set;
    st := FirstDecidesAlone(p);
    st := SecondBallotProposed(p, st);
    LeavesFirst(p, 1, st.b.node, Accept1(p));
    AfterHolds(p, st.b.node, High(p), p.w);
    st := HearsOwn(p.cast, st, 1, After(p, High(p), p.w, st.b.node), Some(TLC(0, FirstBlock(p, p.w))));
  }

  // ---------------------------------------------------------------- the ballots of both are accepted

  /** Each proposer has proposed its value and counted its own accept. */
  lemma BothCountTheirOwn(p: Play) returns (st: Stage)
    requires Short(p) && Members(p.cast) > 0
    ensures Stands(p.cast, st)
    ensures st.a == Seat(CountedBy(Accepted0(p), p.v, 1), Propose0(p), [], [],
                         [Prepare1(p), Promise1(p), Propose1(p), Accept1(p)], [Promise1(p)])
    ensures st.b == Seat(CountedBy(Accepted1(p), p.w, 1), Propose1(p), [],
                         [Prepare0(p), Promise0(p), Propose0(p), Accept0(p)], [], [])
    ensures st.m == Seat(Member(High(p), 0, NO_VALUE, map[]), QUIET, [], [Promise0(p), Propose0(p), Accept0(p)],
                         [Promise1(p), Propose1(p), Accept1(p)], [Promise0(p), Promise1(p)])
  {
    hide Stands, GoodConfig, Distinct, Takes, CountedBy;
    Facts(p);
    hide Set;
    st := FirstBallotProposed(p);
    st := CountsItsOwn(p.cast, st, 0);
    assert p.w !in st.a.node.created by {
      CountedCreates(Accepted0(p), p.v, 1);
    }
    st := SecondBallotProposed(p, st);
    st := CountsItsOwn(p.cast, st, 1);
  }

  lemma CountedCreates(node: Node, v: PaxosValue, i: nat)
    ensures CountedBy(node, v, i).created == node.created
  {
  }

  /** The members have accepted w, too. */
  lemma BothAccepted(p: Play) returns (st: Stage)
    requires Short(p) && Members(p.cast) > 0
    ensures Stands(p.cast, st)
    ensures st.a == Seat(CountedBy(Accepted0(p), p.v, 1), Propose0(p), [], [],
                         [Prepare1(p), Promise1(p), Propose1(p), Accept1(p)], [Promise1(p), Accept1(p)])
    ensures st.b == Seat(CountedBy(Accepted1(p), p.w, 1), Propose1(p), [],
                         [Prepare0(p), Promise0(p), Propose0(p), Accept0(p)], [], [Accept1(p)])
    ensures st.m == Seat(Member(High(p), High(p), p.w, map[p.w := 1]), QUIET, [],
                         [Promise0(p), Propose0(p), Accept0(p)], [Accept1(p)],
                         [Promise0(p), Promise1(p), Accept1(p)])
  {
    hide Stands, GoodConfig, Distinct, Takes;
    Facts(p);
    hide Set;
    st := BothCountTheirOwn(p);
    st := AllIgnore(p.cast, st, 1);
    st := AllAccept(p.cast, st, 1);
  }

  // ---------------------------------------------------------------- the retry

  function Prepare2(p: Play): Message {
    Prepare(0, Retry(p), A(p))
  }

  function Promise2(p: Play): Message {
    Promise(A(p), 0, Retry(p), Low(p), Some(p.v))
  }

  /** What the members promise: it reports w, on a ballot below the new one. */
  function Report2(p: Play): Message {
    Promise(A(p), 0, Retry(p), High(p), Some(p.w))
  }

  /** Proposer 0 on its second ballot, with the promises of itself and of i members. Its own
      promise reports v, and has set bestID to the new ballot. */
  function Promised2(p: Play, i: nat, counts: map<PaxosValue, nat>): Node {
    var done := i + 1 >= p.cast.c.threshold;
    Undecided(First(Retry(p), Retry(p), Low(p), p.v).(
                proposedValue := p.u, promises := i + 1, phase := if done then Phase2 else Phase1,
                bestID := Retry(p), bestValue := p.v, acceptedValues := counts),
              Preparing(0), if done then [p.v] else [],
              if done then {Offer(0, Low(p), p.v), Offer(0, Retry(p), p.v)} else {Offer(0, Low(p), p.v)}, {p.v, p.u})
  }

  /** Proposer 0 prepares a second ballot. */
  lemma RetryPrepared(p: Play) returns (st: Stage)
    requires Short(p) && Members(p.cast) > 0
    ensures Stands(p.cast, st)
    ensures st.a == Seat(Promised2(p, 0, map[p.v := 1]), Prepare2(p), [], [],
                         [Prepare1(p), Promise1(p), Propose1(p), Accept1(p)], [Promise1(p), Accept1(p)])
    ensures st.b == Seat(CountedBy(Accepted1(p), p.w, 1), Propose1(p), [],
                         [Prepare0(p), Promise0(p), Propose0(p), Accept0(p), Prepare2(p), Promise2(p)], [],
                         [Accept1(p)])
    ensures st.m == Seat(Member(High(p), High(p), p.w, map[p.w := 1]), QUIET, [],
                         [Promise0(p), Propose0(p), Accept0(p), Prepare2(p), Promise2(p)], [Accept1(p)],
                         [Promise0(p), Promise1(p), Accept1(p)])
  {
    hide Stands, GoodConfig, Distinct, Takes;
    Facts(p);
    hide Set;
    st := BothAccepted(p);
    st := Retries(p.cast, st, 0);
    st := Prepares(p.cast, st, 0, p.u);
  }

  /** What the members have counted: a first accept of v, too. */
  function BothOnce(p: Play): map<PaxosValue, nat> {
    map[p.w := 1, p.v := 1]
  }

  /** The members pass over the first proposal, count its accept, and promise the new ballot. */
  lemma RetryReported(p: Play) returns (st: Stage)
    requires Short(p) && Members(p.cast) > 0
    ensures Stands(p.cast, st)
    ensures st.a == Seat(Promised2(p, 0, map[p.v := 1]), Prepare2(p), [], [],
                         [Prepare1(p), Promise1(p), Propose1(p), Accept1(p)], [Promise1(p), Accept1(p), Report2(p)])
    ensures st.b == Seat(CountedBy(Accepted1(p), p.w, 1), Propose1(p), [],
                         [Prepare0(p), Promise0(p), Propose0(p), Accept0(p), Prepare2(p), Promise2(p)], [],
                         [Accept1(p), Report2(p)])
    ensures st.m == Seat(Member(Retry(p), High(p), p.w, BothOnce(p)), QUIET, [], [Promise2(p)], [Accept1(p)],
                         [Promise0(p), Promise1(p), Accept1(p), Report2(p)])
  {
    hide Stands, GoodConfig, Distinct, Takes, EachTakes, Promised2, Accepted1;
    Facts(p);
    hide Set;
    st := RetryPrepared(p);
    st := AllIgnore(p.cast, st, 0);
    st := AllIgnore(p.cast, st, 0);
    st := AllCount(p.cast, st, 0);
    st := AllPromise(p.cast, st, 0, Member(Retry(p), High(p), p.w, BothOnce(p)), Report2(p));
  }

  /** Proposer 0's accepts: one of v, and one of w from each member, one too few. */
  function BothCounted(p: Play): map<PaxosValue, nat> {
    map[p.v := 1, p.w := Members(p.cast)]
  }

  /** Proposer 0 counts the accepts of w, and promises enough to propose v again. */
  lemma RetryPromised(p: Play) returns (st: Stage)
    requires Short(p) && Members(p.cast) > 0
    ensures Stands(p.cast, st)
    ensures st.a == Seat(Promised2(p, Members(p.cast), BothCounted(p)), Prepare2(p), [], [],
                         [Prepare1(p), Promise1(p), Propose1(p), Accept1(p)], [])
    ensures st.b == Seat(CountedBy(Accepted1(p), p.w, 1), Propose1(p), [],
                         [Prepare0(p), Promise0(p), Propose0(p), Accept0(p), Prepare2(p), Promise2(p)], [],
                         [Accept1(p), Report2(p)])
    ensures st.m == Seat(Member(Retry(p), High(p), p.w, BothOnce(p)), QUIET, [], [Promise2(p)], [Accept1(p)],
                         [Promise0(p), Promise1(p), Accept1(p), Report2(p)])
  {
    hide Stands, GoodConfig, Distinct, Takes, Accepted1, Member;
    Facts(p);
    hide Set;
    st := RetryReported(p);
    st := IgnoresAll(p.cast, st, 0);
    st := CountsAll(p.cast, st, 0);
    st := TalliesAll(p.cast, st, 0);
  }

  function Propose2(p: Play): Message {
    Propose(0, Retry(p), p.v)
  }

  function Accept2(p: Play): Message {
    Accept(0, Retry(p), p.v)
  }

  function Accepted2(p: Play): Node {
    Proposed(Promised2(p, Members(p.cast), BothCounted(p)), p.v)
  }

  /** It does, and accepts v once more; its accept waits. */
  lemma RetryProposed(p: Play) returns (st: Stage)
    requires Short(p) && Members(p.cast) > 0
    ensures Stands(p.cast, st)
    ensures st.a == Seat(Accepted2(p), Propose2(p), [Accept2(p)], [],
                         [Prepare1(p), Promise1(p), Propose1(p), Accept1(p)], [])
    ensures st.b == Seat(CountedBy(Accepted1(p), p.w, 1), Propose1(p), [],
                         [Prepare0(p), Promise0(p), Propose0(p), Accept0(p), Prepare2(p), Promise2(p)]
                         + [Propose2(p), Accept2(p)], [], [Accept1(p), Report2(p)])
    ensures st.m == Seat(Member(Retry(p), High(p), p.w, BothOnce(p)), QUIET, [],
                         [Promise2(p), Propose2(p), Accept2(p)], [Accept1(p)],
                         [Promise0(p), Promise1(p), Accept1(p), Report2(p)])
  {
    hide Stands, GoodConfig, Distinct, Takes;
    Facts(p);
    hide Set;
    st := RetryPromised(p);
    assert Offer(0, Retry(p), p.v) in st.a.node.offers;
    st := Proposes(p.cast, st, 0, p.v);
  }

  // ---------------------------------------------------------------- two decisions

  /** A member in the first step that has counted its own accept of w, and has the others' and
      that of proposer 1 before it. */
  ghost predicate Ahead1(p: Play, m: Seat) {
    && m.own == [] && Old(m) && !m.node.crashed && m.node.channel == [] && m.node.created == {} && m.node.chain == []
    && m.node.thread.Resting?
    && m.node.h.step == 0 && m.node.h.paxosID == 0 && m.node.h.maxID == Retry(p)
    && Count(m.node.h.acceptedValues, p.w) == 1
    && m.node.h.tlcs == map[] && m.node.h.blocks == map[] && m.node.h.names == map[]
    && m.ofB == [Accept1(p)] && |m.ofM| >= 3 && m.ofM[..3] == [Promise0(p), Promise1(p), Accept1(p)]
  }

  /** Proposer 1 and the members are about to decide w. */
  ghost predicate OthersWait(p: Play, b: Seat, m: Seat) {
    && b.node == CountedBy(Accepted1(p), p.w, 1) && b.own == [] && Old(b)
    && b.ofM != [] && b.ofM[0] == Accept1(p)
    && Ahead1(p, m)
  }

  /** Proposer 0 has decided v, and proposer 1 and the members are about to decide w. */
  ghost predicate HalfForked(p: Play, st: Stage) {
    && Holds1(p, st.a.node, Low(p), p.v) && st.a.node.thread.Proposing? && Old(st.a)
    && (forall m :: m in st.a.own ==> PartOf(st.a.tag, m) || m.TLC?)
    && OthersWait(p, st.b, st.m)
  }

  lemma RetryWaits(p: Play) returns (st: Stage)
    requires Short(p) && Members(p.cast) > 0
    ensures Stands(p.cast, st) && OthersWait(p, st.b, st.m)
    ensures st.a == Seat(Accepted2(p), Propose2(p), [Accept2(p)], [],
                         [Prepare1(p), Promise1(p), Propose1(p), Accept1(p)], [])
  {
    hide Stands, GoodConfig, Distinct, Accepted1, CountedBy;
    Facts(p);
    st := RetryProposed(p);
  }

  /** One message more from proposer 0 changes nothing for them. */
  lemma TheyStillWait(p: Play, b: Seat, m: Seat, more: Message)
    requires OthersWait(p, b, m) && more.step == 0
    ensures OthersWait(p, b.(ofA := b.ofA + [more]), m.(ofA := m.ofA + [more]))
  {
  }

  lemma Accepted2Is(p: Play)
    requires Set(p)
    ensures var node := Accepted2(p);
      && node.h.step == 0 && !node.crashed && node.channel == [] && node.chain == [] && node.thread == Proposing(0)
      && node.created == {p.v, p.u} && Count(node.h.acceptedValues, p.v) == 1
      && node.h.tlcs == map[] && node.h.blocks == map[] && node.h.names == map[]
  {
    Facts(p);
  }

  /** With one member, proposer 0 decides v when it counts its own second accept. */
  lemma DecidesByItsOwn(p: Play) returns (st: Stage)
    requires Short(p) && Members(p.cast) == 1
    ensures Stands(p.cast, st) && HalfForked(p, st)
  {
    hide Stands, GoodConfig, Distinct, Takes, After, Holds1, Accepted2, OthersWait;
    Facts(p);
    st := RetryWaits(p);
    Accepted2Is(p);
    LeavesFirst(p, 0, st.a.node, Accept2(p));
    AfterHolds(p, st.a.node, Low(p), p.v);
    var tlc := TLC(0, FirstBlock(p, p.v));
    TheyStillWait(p, st.b, st.m, tlc);
    st := HearsOwn(p.cast, st, 0, After(p, Low(p), p.v, st.a.node), Some(tlc));
  }

  /** With more than one member, they accept the second proposal of v, too. */
  lemma RetryAccepted(p: Play) returns (st: Stage)
    requires Short(p) && Members(p.cast) > 1
    ensures Stands(p.cast, st)
    ensures st.a == Seat(Accepted2(p), Propose2(p), [Accept2(p)], [],
                         [Prepare1(p), Promise1(p), Propose1(p), Accept1(p)], [Accept2(p)])
    ensures st.b == Seat(CountedBy(Accepted1(p), p.w, 1), Propose1(p), [],
                         [Prepare0(p), Promise0(p), Propose0(p), Accept0(p), Prepare2(p), Promise2(p)]
                         + [Propose2(p), Accept2(p)], [], [Accept1(p), Report2(p), Accept2(p)])
    ensures st.m == Seat(Member(Retry(p), High(p), p.w, map[p.w := 1, p.v := 2]), QUIET, [], [Accept2(p)], [Accept1(p)],
                         [Promise0(p), Promise1(p), Accept1(p), Report2(p), Accept2(p)])
  {
    hide Stands, GoodConfig, Distinct, Takes, Accepted1, Accepted2;
    Facts(p);
    hide Set;
    st := RetryProposed(p);
    st := AllIgnore(p.cast, st, 0);
    st := AllAccept(p.cast, st, 0);
  }

  lemma AcceptedWaits(p: Play) returns (st: Stage)
    requires Short(p) && Members(p.cast) > 1
    ensures Stands(p.cast, st) && OthersWait(p, st.b, st.m)
    ensures st.a == Seat(Accepted2(p), Propose2(p), [Accept2(p)], [],
                         [Prepare1(p), Promise1(p), Propose1(p), Accept1(p)], [Accept2(p)])
  {
    hide Stands, GoodConfig, Distinct, Accepted1, CountedBy;
    Facts(p);
    st := RetryAccepted(p);
  }

  /** With more, it decides by the accepts of all of them, before it counts its own. */
  lemma DecidesByTheirs(p: Play) returns (st: Stage)
    requires Short(p) && Members(p.cast) > 1
    ensures Stands(p.cast, st) && HalfForked(p, st)
  {
    hide Stands, GoodConfig, Distinct, Takes, After, Holds1, Accepted2, OthersWait;
    Facts(p);
    st := AcceptedWaits(p);
    Accepted2Is(p);
    var node := CountedBy(st.a.node, p.v, Members(p.cast) - 1);
    LeavesFirst(p, 0, node, Accept2(p));
    AfterHolds(p, node, Low(p), p.v);
    var tlc := TLC(0, FirstBlock(p, p.v));
    TheyStillWait(p, st.b, st.m, tlc);
    st := CountsToDecide(p.cast, st, 0, After(p, Low(p), p.v, node), tlc);
  }

  lemma Halfway(p: Play) returns (st: Stage)
    requires Short(p) && Members(p.cast) > 0
    ensures Stands(p.cast, st) && HalfForked(p, st)
  {
    hide Stands, HalfForked, GoodConfig, Distinct;
    if Members(p.cast) == 1 {
      st := DecidesByItsOwn(p);
    } else {
      st := DecidesByTheirs(p);
    }
  }

  /** Proposer 1 decides w. */
  lemma TheOtherDecides(p: Play) returns (st: Stage)
    requires Short(p) && Members(p.cast) > 0
    ensures Stands(p.cast, st) && Forked(p, st)
    ensures Ahead1(p, st.m.(ofB := [Accept1(p)])) && st.m.ofB == [Accept1(p), TLC(0, FirstBlock(p, p.w))]
  {
    hide Stands, GoodConfig, Distinct, Takes, After, Holds1;
    Facts(p);
    hide Set;
    st := Halfway(p);
    var node := CountedBy(st.b.node, p.w, Members(p.cast) - 1);
    LeavesFirst(p, 1, node, Accept1(p));
    AfterHolds(p, node, High(p), p.w);
    st := CountsToDecide(p.cast, st, 1, After(p, High(p), p.w, node), TLC(0, FirstBlock(p, p.w)));
  }

  // ---------------------------------------------------------------- exactly when

  /** Node n stores a block of v first. */
  ghost predicate Holding(s: Sys, n: Peer, v: PaxosValue) {
    n < |s.nodes| && |s.nodes[n].chain| >= 1 && s.nodes[n].chain[0].value == v
  }

  /** Whoever stands on the stage stands in a state that a proper run reaches. */
  lemma OnStage(p: Cast, st: Stage) returns (s: Sys)
    requires Staged(p) && Stands(p, st)
    ensures Visited(p.c, p.d, s) && |s.nodes| == |p.c.ids|
    ensures s.nodes[p.who[0]].chain == st.a.node.chain && s.nodes[p.who[1]].chain == st.b.node.chain
  {
    hide Visited;
    s :| Visited(p.c, p.d, s) && Holds(p, WorldOf(p, st), s);
    assert Seated(p, WorldOf(p, st), s, 0) && Seated(p, WorldOf(p, st), s, 1);
  }

  lemma TheyFork(p: Play) returns (s: Sys)
    requires Short(p)
    ensures Visited(p.cast.c, p.cast.d, s) && Holding(s, A(p), p.v) && Holding(s, B(p), p.w)
  {
    hide Stands, Visited, GoodConfig, Distinct;
    Facts(p);
    var st;
    if Members(p.cast) == 0 {
      st := EachDecides(p);
    } else {
      st := TheOtherDecides(p);
    }
    s := OnStage(p.cast, st);
  }

  /** Three values more. */
  lemma MoreValues(v: PaxosValue, w: PaxosValue) returns (u: PaxosValue, x: PaxosValue, z: PaxosValue)
    requires v != NO_VALUE && w != NO_VALUE && v != w
    ensures Distinct([NO_VALUE, v, w, u, x, z])
  {
    var n := |v.uniqID| + |w.uniqID| + 1;
    var id := seq(n, _ => '1');
    u, x, z := PaxosValue(id, "", ""), PaxosValue(id + "1", "", ""), PaxosValue(id + "11", "", "");
    assert |u.uniqID| == n && |x.uniqID| == n + 1 && |z.uniqID| == n + 2;
  }

  /** The peers 0 and 1, the one with the lower PaxosID first, and `members` others. */
  lemma SomePlay(c: Config, members: nat, d: Discipline, v: PaxosValue, w: PaxosValue) returns (p: Play)
    requires GoodConfig(c) && members + 2 <= |c.ids| && v != NO_VALUE && w != NO_VALUE && v != w
    ensures Set(p) && p.cast.c == c && p.cast.d == d && p.v == v && p.w == w && Members(p.cast) == members
  {
    var first: seq<Peer> := if c.ids[0] < c.ids[1] then [0, 1] else [1, 0];
    var others: seq<Peer> := seq(members, i => i + 2);
    var who := first + others;
    assert forall r :: 2 <= r < |who| ==> who[r] == others[r - 2] == r;
    var u, x, z := MoreValues(v, w);
    p := Play(Cast(c, who, d), v, w, u, x, z);
  }

  /** With a threshold below the number of peers there is, for any two values, a proper run with
      all the discipline asked for after which two peers hold them as their first blocks. */
  lemma FewerFork(c: Config, d: Discipline, v: PaxosValue, w: PaxosValue)
    returns (run: seq<Action>, m: Peer, n: Peer)
    requires GoodConfig(c) && c.threshold < |c.ids| && v != NO_VALUE && w != NO_VALUE && v != w
    ensures Proper(c, d, Init(c), run)
    ensures Holding(Exec(c, Init(c), run), m, v) && Holding(Exec(c, Init(c), run), n, w)
  {
    hide Visited, Holding, Proper;
    var p := SomePlay(c, c.threshold - 1, d, v, w);
    m, n := A(p), B(p);
    var s := TheyFork(p);
    run := RunTo(c, d, s);
  }
}
