/** What a fork does to a stored chain: a peer that left the first step on one branch learns
    the second step from the other, and its blocks no longer link. */
module PaxosBroken {
  import opened Common
  import opened Blockchain
  import opened PaxosSpec
  import opened PaxosSystem
  import opened PaxosLinks
  import opened PaxosRuns
  import opened PaxosStage
  import opened PaxosMoves
  import opened PaxosFork

  // ---------------------------------------------------------------- everyone leaves the first step

  lemma AllLeaveFirst(p: Play, node: Node, m: Message)
    requires Set(p) && node.h.step == 0 && node.h.paxosID == 0 && !node.crashed && m.Accept? && m.step == 0
    requires Count(node.h.acceptedValues, m.value) + 1 >= p.cast.c.threshold
    requires node.h.tlcs == map[] && node.h.blocks == map[] && node.h.names == map[]
    ensures EachTakes(p.cast, m, node, After(p, 0, m.value, node), Some(TLC(0, FirstBlock(p, m.value))))
  {
    hide Takes, GoodConfig, Distinct;
    forall r | 2 <= r < |p.cast.who|
      ensures Takes(p.cast, r, m, Own(p.cast, r, node), Own(p.cast, r, After(p, 0, m.value, node)),
                    Some(TLC(0, FirstBlock(p, m.value))))
    {
      LeavesFirst(p, r, Own(p.cast, r, node), m);
    }
  }

  /** The members decide w, as proposer 1 did. */
  lemma MembersFollow(p: Play) returns (st: Stage)
    requires Short(p) && Members(p.cast) > 0
    ensures Stands(p.cast, st) && Forked(p, st)
    ensures Holds1(p, st.m.node, 0, p.w) && st.m.node.thread.Resting? && Old(st.m)
  {
    hide Stands, GoodConfig, Distinct, EachTakes, After, Holds1;
    st := AcceptsShared(p);
    var node := st.m.node;
    AllLeaveFirst(p, node, Accept1(p));
    AfterHolds(p, node, 0, p.w);
    st := AllHear(p.cast, st, 1, 0, After(p, 0, p.w, node), Some(TLC(0, FirstBlock(p, p.w))));
  }

  lemma AcceptsShared(p: Play) returns (st: Stage)
    requires Short(p) && Members(p.cast) > 0
    ensures Stands(p.cast, st) && Forked(p, st)
    ensures st.m.own == [] && Old(st.m) && st.m.ofB == [Accept1(p), TLC(0, FirstBlock(p, p.w))]
    ensures var node := st.m.node;
      && !node.crashed && node.channel == [] && node.created == {} && node.chain == [] && node.thread.Resting?
      && node.h.step == 0 && node.h.paxosID == 0 && Count(node.h.acceptedValues, p.w) == Members(p.cast)
      && node.h.tlcs == map[] && node.h.blocks == map[] && node.h.names == map[]
  {
    hide Stands, GoodConfig, Distinct, Takes;
    Facts(p);
    hide Set;
    st := TheOtherDecides(p);
    st := AllIgnoreEachOther(p.cast, st);
    st := AllIgnoreEachOther(p.cast, st);
    st := CountEachOther(p.cast, st);
  }

  /** Everyone is in the second step and has nothing to handle: proposer 0 on the branch of v, the
      others on that of w. */
  ghost predicate Split(p: Play, st: Stage) {
    && Holds1(p, st.a.node, Low(p), p.v) && Holds1(p, st.b.node, High(p), p.w) && Holds1(p, st.m.node, 0, p.w)
    && st.a == Cleared(st.a) && st.b == Cleared(st.b) && st.m == Cleared(st.m)
    && st.a.node.thread.Resting? && st.b.node.thread.Resting? && st.m.node.thread.Resting?
  }

  lemma EveryoneLeft(p: Play) returns (st: Stage)
    requires Short(p)
    ensures Stands(p.cast, st) && Forked(p, st)
    ensures Holds1(p, st.m.node, 0, p.w) && st.m.node.thread.Resting? && Old(st.m)
  {
    hide Stands, GoodConfig, Distinct, Forked;
    if Members(p.cast) == 0 {
      var st0 := EachDecides(p);
      var node := After(p, 0, p.w, Member(0, 0, NO_VALUE, map[]));
      AfterHolds(p, Member(0, 0, NO_VALUE, map[]), 0, p.w);
      st := st0.(m := Seat(node, QUIET, [], [], [], []));
      NobodyElse(p.cast, st0, st);
      SameForked(p, st0, st);
    } else {
      st := MembersFollow(p);
    }
  }

  lemma SameForked(p: Play, st: Stage, st': Stage)
    requires Forked(p, st) && st'.a == st.a && st'.b == st.b
    ensures Forked(p, st')
  {
  }

  lemma OldIsStale(p: Play, st: Stage)
    requires Set(p) && Forked(p, st) && Holds1(p, st.m.node, 0, p.w) && Old(st.m)
    ensures AllStale(p.cast, WorldOf(p.cast, st))
  {
    hide GoodConfig, Distinct, FirstBlock;
    var x := WorldOf(p.cast, st);
    forall r, q | 0 <= r < |p.cast.who| && 0 <= q < |p.cast.who| ensures StaleQueue(p.cast, x, r, q) {
      assert OldOnly(x.mail(r, q)) && x.node(r).h.step == 1;
    }
  }

  lemma TheySplit(p: Play) returns (st: Stage)
    requires Short(p)
    ensures Stands(p.cast, st) && Split(p, st)
  {
    hide Stands, GoodConfig, Distinct, AllStale;
    Facts(p);
    st := EveryoneLeft(p);
    OldIsStale(p, st);
    st := Clear(p.cast, st);
    st := Finishes(p.cast, st, 0);
    st := Finishes(p.cast, st, 1);
  }

  // ---------------------------------------------------------------- two ballots in the second step

  function SecondBlock(p: Play): Block {
    BuildBlock(p.cast.c.hash, 1, p.x, FirstBlock(p, p.w).hash)
  }

  function PrepareB(p: Play): Message {
    Prepare(1, High(p), B(p))
  }

  function PromiseB(p: Play): Message {
    Promise(B(p), 1, High(p), 0, None)
  }

  function PrepareA(p: Play): Message {
    Prepare(1, Low(p), A(p))
  }

  function PromiseA(p: Play): Message {
    Promise(A(p), 1, Low(p), 0, None)
  }

  function ProposeA(p: Play): Message {
    Propose(1, Low(p), p.x)
  }

  function AcceptA(p: Play): Message {
    Accept(1, Low(p), p.x)
  }

  function Announced(p: Play): Message {
    TLC(1, SecondBlock(p))
  }

  /** A node of the second step that holds the block of `first`; its promise, and the accepts of x
      it counted. */
  ghost predicate InSecond(p: Play, node: Node, first: PaxosValue, maxID: nat, accepts: nat) {
    && node.h.step == 1 && node.h.maxID == maxID && Count(node.h.acceptedValues, p.x) == accepts
    && node.h.blocks == PutBlock(map[], FirstBlock(p, first)) && node.chain == [FirstBlock(p, first)]
    && node.h.tlcs == map[] && !node.crashed && |node.channel| <= 1
  }

  /** Proposer 0 with i promises of its ballot in the second step. */
  ghost predicate Proposing0(p: Play, node: Node, i: nat) {
    && InSecond(p, node, p.v, Low(p), 0) && node.thread.Preparing?
    && node.h.paxosID == Low(p) && node.h.acceptedID == 0 && node.h.acceptedValue == NO_VALUE
    && node.h.proposedValue == p.x && node.h.bestID == 0 && node.h.promises == i
    && (if i < p.cast.c.threshold then node.h.phase == Phase1 && node.channel == []
        else node.channel == [p.x] && Offer(1, Low(p), p.x) in node.offers)
  }

  /** Proposer 1 prepares the higher ballot. */
  lemma HigherPrepared(p: Play) returns (st: Stage)
    requires Short(p)
    ensures Stands(p.cast, st)
    ensures Holds1(p, st.a.node, Low(p), p.v) && st.a.node.thread.Resting?
    ensures st.a == Cleared(st.a).(ofB := [PrepareB(p), PromiseB(p)])
    ensures InSecond(p, st.b.node, p.w, High(p), 0) && p.x !in st.b.node.created && st.b == Cleared(st.b)
    ensures Holds1(p, st.m.node, 0, p.w) && st.m == Cleared(st.m).(ofB := [PrepareB(p), PromiseB(p)])
  {
    hide Stands, GoodConfig, Distinct, FirstBlock, PutBlock, PutName;
    Facts(p);
    hide Set;
    st := TheySplit(p);
    st := Begins(p.cast, st, 1);
    st := Prepares(p.cast, st, 1, p.z);
  }

  /** Proposer 0 does not know of it and prepares the lower one. */
  lemma BothPrepared(p: Play) returns (st: Stage)
    requires Short(p)
    ensures Stands(p.cast, st)
    ensures Proposing0(p, st.a.node, 1) && st.a == Cleared(st.a).(ofB := [PrepareB(p), PromiseB(p)])
    ensures InSecond(p, st.b.node, p.w, High(p), 0) && st.b == Cleared(st.b).(ofA := [PrepareA(p), PromiseA(p)])
    ensures Holds1(p, st.m.node, 0, p.w)
    ensures st.m == Cleared(st.m).(ofA := [PrepareA(p), PromiseA(p)], ofB := [PrepareB(p), PromiseB(p)])
  {
    hide Stands, GoodConfig, Distinct, FirstBlock, PutBlock, PutName;
    Facts(p);
    hide Set;
    st := HigherPrepared(p);
    st := Begins(p.cast, st, 0);
    st := Prepares(p.cast, st, 0, p.x);
  }

  /** The members promise the lower one. */
  lemma LowerPromised(p: Play) returns (st: Stage)
    requires Short(p)
    ensures Stands(p.cast, st)
    ensures Proposing0(p, st.a.node, p.cast.c.threshold) && st.a == Cleared(st.a).(ofB := [PrepareB(p), PromiseB(p)])
    ensures InSecond(p, st.b.node, p.w, High(p), 0)
    ensures st.b == Cleared(st.b).(ofA := [PrepareA(p), PromiseA(p)], ofM := [PromiseA(p)])
    ensures InSecond(p, st.m.node, p.w, Low(p), 0) && st.m.node.h.paxosID == 0
    ensures st.m == Cleared(st.m).(ofA := [PromiseA(p)], ofB := [PrepareB(p), PromiseB(p)], ofM := [PromiseA(p)])
  {
    hide Stands, GoodConfig, Distinct, FirstBlock, PutBlock, PutName;
    Facts(p);
    hide Set;
    st := BothPrepared(p);
    var node := st.m.node;
    st := AllPromise(p.cast, st, 0, node.(h := node.h.(running := true, maxID := Low(p))), PromiseA(p));
    st := TalliesAll(p.cast, st, 0);
  }

  /** Proposer 0 proposes x on its own branch; its accept waits until the end. */
  lemma LowerProposed(p: Play) returns (st: Stage)
    requires Short(p)
    ensures Stands(p.cast, st)
    ensures Waits0(p, st.a, 0) && st.a.ofB == [PrepareB(p), PromiseB(p)] && st.a.ofM == []
    ensures InSecond(p, st.b.node, p.w, High(p), 0) && st.b.own == [] && st.b.ofM == [PromiseA(p)]
    ensures st.b.ofA == [PrepareA(p), PromiseA(p), ProposeA(p), AcceptA(p)]
    ensures InSecond(p, st.m.node, p.w, Low(p), 0) && st.m.node.h.paxosID == 0
    ensures st.m.own == [] && st.m.ofA == [PromiseA(p), ProposeA(p), AcceptA(p)] && st.m.ofM == [PromiseA(p)]
  {
    hide Stands, GoodConfig, Distinct, FirstBlock, PutBlock, PutName;
    Facts(p);
    hide Set;
    st := LowerPromised(p);
    st := Proposes(p.cast, st, 0, p.x);
  }

  /** Proposer 0 while its Tag goroutine is in the middle of the broadcast of that proposal; the
      accepts of x it counted. */
  ghost predicate Waits0(p: Play, a: Seat, accepts: nat) {
    && InSecond(p, a.node, p.v, Low(p), accepts) && a.node.thread.Proposing? && a.tag == ProposeA(p)
    && a.own == [AcceptA(p)]
    && a.node.h.acceptedID == Low(p) && a.node.h.acceptedValue == p.x
  }

  // ---------------------------------------------------------------- x is decided on the other branch

  /** A node that decided x in the second step. */
  function AfterSecond(p: Play, id: nat, node: Node): Node {
    node.(h := Handler(false, 2, 0, 0, 0, 0, Phase1, id, NO_VALUE, NO_VALUE, NO_VALUE, p.x, map[], map[],
                       PutBlock(node.h.blocks, SecondBlock(p)), PutName(node.h.names, SecondBlock(p))),
          channel := [], decided := node.decided + {Decision(1, p.x)}, chain := node.chain + [SecondBlock(p)])
  }

  lemma LeavesSecond(p: Play, r: nat, node: Node, maxID: nat)
    requires Set(p) && r < |p.cast.who| && InSecond(p, node, p.w, maxID, p.cast.c.threshold - 1)
    ensures Takes(p.cast, r, AcceptA(p), node, AfterSecond(p, IdOf(p.cast, r), node), Some(Announced(p)))
  {
    var c, h1 := ConfOf(p.cast.c, p.cast.who[r]), PaxosSpec.CountAccept(node.h, p.x);
    assert NextBlock(c, node.h, p.x) == SecondBlock(p);
    assert CatchUp(c, Commit(h1, SecondBlock(p))) == Commit(h1, SecondBlock(p));
    assert Stored(c, h1, SecondBlock(p)) == [SecondBlock(p)];
  }

  lemma AllLeaveSecond(p: Play, node: Node, maxID: nat)
    requires Set(p) && InSecond(p, node, p.w, maxID, p.cast.c.threshold - 1) && node.h.paxosID == 0
    ensures EachTakes(p.cast, AcceptA(p), node, AfterSecond(p, 0, node), Some(Announced(p)))
  {
    hide Takes, GoodConfig, Distinct, FirstBlock, PutBlock, PutName;
    forall r | 2 <= r < |p.cast.who|
      ensures Takes(p.cast, r, AcceptA(p), Own(p.cast, r, node), Own(p.cast, r, AfterSecond(p, 0, node)),
                    Some(Announced(p)))
    {
      LeavesSecond(p, r, Own(p.cast, r, node), maxID);
    }
  }

  /** The members accept x, and count one another's accepts. */
  lemma MembersAcceptX(p: Play, st: Stage) returns (st': Stage)
    requires Short(p) && Members(p.cast) > 0 && Stands(p.cast, st)
    requires InSecond(p, st.m.node, p.w, Low(p), 0) && st.m.node.h.paxosID == 0
    requires st.m.own == [] && st.m.ofA == [PromiseA(p), ProposeA(p), AcceptA(p)] && st.m.ofM == [PromiseA(p)]
    ensures Stands(p.cast, st')
    ensures st'.a == st.a.(ofM := st.a.ofM + [AcceptA(p)]) && st'.b == st.b.(ofM := st.b.ofM + [AcceptA(p)])
    ensures InSecond(p, st'.m.node, p.w, Low(p), Members(p.cast)) && st'.m.node.h.paxosID == 0
    ensures st'.m.own == [] && st'.m.ofA == [AcceptA(p)]
  {
    hide Stands, GoodConfig, Distinct, EachTakes, FirstBlock, PutBlock, PutName, SecondBlock;
    Facts(p);
    hide Set;
    st' := AllIgnore(p.cast, st, 0);
    st' := AllAccept(p.cast, st', 0);
    st' := AllIgnoreEachOther(p.cast, st');
    st' := CountEachOther(p.cast, st');
  }

  /** The accept of proposer 0 decides it. */
  lemma MembersDecideX(p: Play, st: Stage) returns (st': Stage)
    requires Short(p) && Members(p.cast) > 0 && Stands(p.cast, st)
    requires InSecond(p, st.m.node, p.w, Low(p), 0) && st.m.node.h.paxosID == 0
    requires st.m.own == [] && st.m.ofA == [PromiseA(p), ProposeA(p), AcceptA(p)] && st.m.ofM == [PromiseA(p)]
    ensures Stands(p.cast, st')
    ensures st'.a == st.a.(ofM := st.a.ofM + [AcceptA(p), Announced(p)])
    ensures st'.b == st.b.(ofM := st.b.ofM + [AcceptA(p), Announced(p)])
  {
    hide Stands, GoodConfig, Distinct, EachTakes, InSecond, SecondBlock;
    Facts(p);
    st' := MembersAcceptX(p, st);
    AllLeaveSecond(p, st'.m.node, Low(p));
    st' := AllHear(p.cast, st', 0, 0, AfterSecond(p, 0, st'.m.node), Some(Announced(p)));
    assert [AcceptA(p)] + [Announced(p)] == [AcceptA(p), Announced(p)];
  }

  lemma XDecided(p: Play) returns (st: Stage)
    requires Short(p)
    ensures Stands(p.cast, st)
    ensures Waits0(p, st.a, 0) && st.a.ofB == [PrepareB(p), PromiseB(p)] && st.a.ofM == [AcceptA(p), Announced(p)]
    ensures InSecond(p, st.b.node, p.w, High(p), 0) && st.b.own == []
    ensures st.b.ofA == [PrepareA(p), PromiseA(p), ProposeA(p), AcceptA(p)]
    ensures st.b.ofM == [PromiseA(p), AcceptA(p), Announced(p)]
  {
    hide Stands, GoodConfig, Distinct, InSecond;
    Facts(p);
    var st0 := LowerProposed(p);
    if Members(p.cast) == 0 {
      var more := [AcceptA(p), Announced(p)];
      st := st0.(a := st0.a.(ofM := st0.a.ofM + more), b := st0.b.(ofM := st0.b.ofM + more));
      NobodyElse(p.cast, st0, st);
    } else {
      st := MembersDecideX(p, st0);
    }
  }

  /** Proposer 1, on its higher ballot, refuses the proposal and counts the accepts. */
  lemma XDecidedByAll(p: Play) returns (st: Stage)
    requires Short(p)
    ensures Stands(p.cast, st)
    ensures Waits0(p, st.a, 0) && st.a.ofB == [PrepareB(p), PromiseB(p), Announced(p)]
    ensures st.a.ofM == [AcceptA(p), Announced(p)]
  {
    hide Stands, GoodConfig, Distinct, Takes, FirstBlock, PutBlock, PutName, SecondBlock;
    Facts(p);
    st := XRefused(p);
    LeavesSecond(p, 1, st.b.node, High(p));
    st := Hears(p.cast, st, 1, 0, 0, AfterSecond(p, High(p), st.b.node), Some(Announced(p)));
  }

  lemma XRefused(p: Play) returns (st: Stage)
    requires Short(p)
    ensures Stands(p.cast, st)
    ensures Waits0(p, st.a, 0) && st.a.ofB == [PrepareB(p), PromiseB(p)] && st.a.ofM == [AcceptA(p), Announced(p)]
    ensures InSecond(p, st.b.node, p.w, High(p), Members(p.cast)) && st.b.own == [] && st.b.ofA == [AcceptA(p)]
  {
    hide Stands, GoodConfig, Distinct, FirstBlock, PutBlock, PutName, SecondBlock;
    Facts(p);
    hide Set;
    st := XDecided(p);
    st := IgnoresAll(p.cast, st, 1);
    st := CountsAll(p.cast, st, 1);
    st := Ignores(p.cast, st, 1, 0);
    st := Ignores(p.cast, st, 1, 0);
    st := Ignores(p.cast, st, 1, 0);
  }

  // ---------------------------------------------------------------- proposer 0 learns x

  function Copies(p: Play, i: nat): (r: seq<Block>)
    ensures |r| == i
  {
    seq(i, _ => SecondBlock(p))
  }

  /** Proposer 0 with i TLC messages of the second step filed. */
  function FiledBy(p: Play, node: Node, i: nat): Node {
    if i == 0 then node else node.(h := node.h.(running := true, tlcs := node.h.tlcs[1 := Copies(p, i)]))
  }

  lemma FilesOne(p: Play, node: Node, i: nat)
    requires Set(p) && InSecond(p, node, p.v, Low(p), Members(p.cast)) && i + 1 < p.cast.c.threshold
    ensures Takes(p.cast, 0, Announced(p), FiledBy(p, node, i), FiledBy(p, node, i + 1), None)
  {
    hide Leave, Stored, Distinct, GoodConfig, FirstBlock, SecondBlock;
    var h := FiledBy(p, node, i).h;
    assert Filed(h.tlcs, 1) == Copies(p, i);
    assert Copies(p, i) + [SecondBlock(p)] == Copies(p, i + 1);
    if i > 0 {
      assert node.h.tlcs[1 := Copies(p, i)][1 := Copies(p, i + 1)] == node.h.tlcs[1 := Copies(p, i + 1)];
    }
  }

  /** It files those of the members, one fewer than the threshold. */
  lemma MembersHeard(p: Play) returns (st: Stage)
    requires Short(p)
    ensures Stands(p.cast, st)
    ensures exists node :: InSecond(p, node, p.v, Low(p), Members(p.cast)) && node.thread.Proposing?
                           && node.h.acceptedID == Low(p) && node.h.acceptedValue == p.x
                           && st.a.node == FiledBy(p, node, Members(p.cast))
    ensures st.a.tag == ProposeA(p) && st.a.own == [AcceptA(p)]
    ensures st.a.ofB == [PrepareB(p), PromiseB(p), Announced(p)]
  {
    hide Stands, GoodConfig, Distinct, Takes, FirstBlock, SecondBlock, FiledBy;
    Facts(p);
    st := XDecidedByAll(p);
    st := CountsAll(p.cast, st, 0);
    var node, n := st.a.node, Members(p.cast);
    FiledNone(p, node);
    forall i | 0 <= i < n ensures Takes(p.cast, 0, Announced(p), FiledBy(p, node, i), FiledBy(p, node, i + 1), None) {
      FilesOne(p, node, i);
    }
    st := HearsAll(p.cast, st, 0, (i: nat) => FiledBy(p, node, i), None);
  }

  lemma FiledNone(p: Play, node: Node)
    ensures FiledBy(p, node, 0) == node
  {
  }

  /** Proposer 0 before the last TLC message: what it stores, and what it has filed. */
  ghost predicate AboutToLearn(p: Play, node: Node) {
    && node.h.step == 1 && node.chain == [FirstBlock(p, p.v)] && !node.crashed && |node.channel| <= 1
    && Filed(node.h.tlcs, 1) == Copies(p, Members(p.cast)) && forall t :: t in node.h.tlcs ==> t == 1
  }

  /** It promises the higher ballot, as its place in the stream of proposer 1 demands. */
  lemma HigherPromised(p: Play) returns (st: Stage)
    requires Short(p)
    ensures Stands(p.cast, st)
    ensures AboutToLearn(p, st.a.node) && Free(st.a) && st.a.ofB == [Announced(p)]
  {
    hide Stands, GoodConfig, Distinct, Takes, FirstBlock, SecondBlock;
    Facts(p);
    st := MembersHeard(p);
    st := PromisesOther(p.cast, st, 0, Promise(B(p), 1, High(p), Low(p), Some(p.x)));
    st := Ignores(p.cast, st, 0, 1);
  }

  lemma LearnsSecond(p: Play, node: Node) returns (to: Node)
    requires Set(p) && p.cast.c.threshold == Members(p.cast) + 1 && AboutToLearn(p, node)
    ensures Takes(p.cast, 0, Announced(p), node, to, Some(Announced(p)))
    ensures to.chain == [FirstBlock(p, p.v), SecondBlock(p)]
  {
    hide Distinct, FirstBlock, SecondBlock;
    var c := ConfOf(p.cast.c, p.cast.who[0]);
    to := Receive(c, p.cast.who[0], node, Announced(p)).node;
    var h1 := FileTLC(node.h, Announced(p));
    assert |Filed(node.h.tlcs, 1)| == Members(p.cast);
    assert Filed(h1.tlcs, 2) == [];
    assert Caught(c, Commit(h1, SecondBlock(p))) == [];
  }

  /** The last TLC message takes it out of the second step, with the block of the other branch. */
  lemma TheChainBreaks(p: Play) returns (st: Stage)
    requires Short(p)
    ensures Stands(p.cast, st) && st.a.node.chain == [FirstBlock(p, p.v), SecondBlock(p)]
  {
    hide Stands, GoodConfig, Distinct, Takes, AboutToLearn;
    Facts(p);
    st := HigherPromised(p);
    var to := LearnsSecond(p, st.a.node);
    st := Hears(p.cast, st, 0, 1, 0, to, Some(Announced(p)));
  }

  // ---------------------------------------------------------------- exactly when

  /** With a threshold below the number of peers there is a proper run, with all the discipline
      asked for, after which the chain a peer stores no longer links: its second block was built
      on another first block. */
  lemma FewerBreak(c: Config, d: Discipline, v: PaxosValue, w: PaxosValue) returns (run: seq<Action>, n: Peer)
    requires GoodConfig(c) && c.threshold < |c.ids| && v != NO_VALUE && w != NO_VALUE
    requires c.hash(Preimage(0, v, ZERO_HASH)) != c.hash(Preimage(0, w, ZERO_HASH))
    ensures Proper(c, d, Init(c), run)
    ensures var s := Exec(c, Init(c), run);
      n < |s.nodes| && |s.nodes[n].chain| == 2 && s.nodes[n].chain[0].value == v && !Linked(s.nodes[n].chain)
  {
    hide Visited, Proper, Stands, Distinct;
    var p := SomePlay(c, c.threshold - 1, d, v, w);
    Facts(p);
    n := A(p);
    var st := TheChainBreaks(p);
    var s := OnStage(p.cast, st);
    var chain := s.nodes[n].chain;
    assert chain[1].prevHash != PrevHash(chain, 1);
    run := RunTo(c, d, s);
  }

  /** At the end of all runs of the program that keep the discipline d all stored chains link. */
  ghost predicate AlwaysLinked(c: Config, d: Discipline)
    requires c.threshold >= 1
  {
    forall run :: Proper(c, d, Init(c), run) ==> AllLinked(Exec(c, Init(c), run))
  }

  ghost predicate AllLinked(s: Sys) {
    forall n :: 0 <= n < |s.nodes| ==> Linked(s.nodes[n].chain)
  }

  /** The stored chains always link, so that `BlockchainGet` never fails, exactly when the
      threshold asks for all peers, with or without discipline (given a hash that tells two first
      blocks apart). */
  lemma LinksExactly(c: Config, d: Discipline, v: PaxosValue, w: PaxosValue)
    requires GoodConfig(c) && v != NO_VALUE && w != NO_VALUE
    requires c.hash(Preimage(0, v, ZERO_HASH)) != c.hash(Preimage(0, w, ZERO_HASH))
    ensures AlwaysLinked(c, d) <==> c.threshold >= |c.ids|
  {
    if c.threshold >= |c.ids| {
      forall run | Proper(c, d, Init(c), run) ensures AllLinked(Exec(c, Init(c), run)) {
        UnanimousLinks(c, run);
      }
    } else {
      var run, n := FewerBreak(c, d, v, w);
      assert !AllLinked(Exec(c, Init(c), run));
      assert !AlwaysLinked(c, d);
    }
  }

  lemma UnanimousLinks(c: Config, run: seq<Action>)
    requires GoodConfig(c) && c.threshold >= |c.ids| && Legal(c, Init(c), run)
    ensures AllLinked(Exec(c, Init(c), run))
  {
    hide Linked, WellBuilt;
    var s := Exec(c, Init(c), run);
    assert Reachable(c, s);
    forall n | 0 <= n < |s.nodes| ensures Linked(s.nodes[n].chain) {
      UnanimousBuilds(c, s, n);
    }
  }
}
