/** The stage of the scripted runs: two proposers, and any number of other members who all do
    the same. A seat holds what one of them has to handle; the seat of the members stands for
    each of them, apart from its PaxosID. */
module PaxosStage {
  import opened Common
  import opened PaxosSpec
  import opened PaxosSystem
  import opened PaxosRuns
  import opened PaxosMail

  /** A node, its last broadcast, and its queues: its own messages, and those of the first
      proposer, of the second, and of each member. */
  datatype Seat = Seat(node: Node, tag: Message,
                       own: seq<Message>, ofA: seq<Message>, ofB: seq<Message>, ofM: seq<Message>)

  datatype Stage = Stage(a: Seat, b: Seat, m: Seat)

  ghost predicate Staged(p: Cast) {
    GoodCast(p) && |p.who| >= 2
  }

  function IdOf(p: Cast, r: nat): nat {
    if r < |p.who| && p.who[r] < |p.c.ids| then p.c.ids[p.who[r]] else 0
  }

  function Own(p: Cast, r: nat, node: Node): Node {
    node.(h := node.h.(paxosID := IdOf(p, r)))
  }

  function SeatOf(st: Stage, r: nat): Seat {
    if r == 0 then st.a else if r == 1 then st.b else st.m
  }

  function NodeOf(p: Cast, st: Stage, r: nat): Node {
    if r <= 1 then SeatOf(st, r).node else Own(p, r, st.m.node)
  }

  function Box(seat: Seat, r: nat, q: nat): seq<Message> {
    if q == r then seat.own else if q == 0 then seat.ofA else if q == 1 then seat.ofB else seat.ofM
  }

  function WorldOf(p: Cast, st: Stage): World {
    World((r: nat) => NodeOf(p, st, r), (r: nat) => SeatOf(st, r).tag,
          (r: nat, q: nat) => Box(SeatOf(st, r), r, q))
  }

  /** A proper run leads to this stage. */
  ghost predicate Stands(p: Cast, st: Stage)
    requires Staged(p)
  {
    Reached(p, WorldOf(p, st))
  }

  // ---------------------------------------------------------------- one message

  function Reseat(st: Stage, r: nat, seat: Seat): Stage {
    if r == 0 then st.(a := seat) else if r == 1 then st.(b := seat) else st.(m := seat)
  }

  function Opened(seat: Seat, r: nat, q: nat, i: nat): Seat
    requires i < |Box(seat, r, q)|
  {
    if q == r then seat.(own := Without(seat.own, i))
    else if q == 0 then seat.(ofA := Without(seat.ofA, i))
    else if q == 1 then seat.(ofB := Without(seat.ofB, i))
    else seat.(ofM := Without(seat.ofM, i))
  }

  /** Part r says `out`; the members all say it. */
  function Told(st: Stage, r: nat, out: Option<Message>): Stage {
    if r == 0 then
      Stage(st.a.(own := Post1(st.a.own, out)), st.b.(ofA := Post1(st.b.ofA, out)), st.m.(ofA := Post1(st.m.ofA, out)))
    else if r == 1 then
      Stage(st.a.(ofB := Post1(st.a.ofB, out)), st.b.(own := Post1(st.b.own, out)), st.m.(ofB := Post1(st.m.ofB, out)))
    else
      Stage(st.a.(ofM := Post1(st.a.ofM, out)), st.b.(ofM := Post1(st.b.ofM, out)),
            st.m.(own := Post1(st.m.own, out), ofM := Post1(st.m.ofM, out)))
  }

  /** Nothing but what belongs to its last broadcast keeps a proposer from the next packet. */
  ghost predicate Free(seat: Seat) {
    forall m :: m in seat.own ==> (Busy(seat.node.thread) && PartOf(seat.tag, m)) || m.TLC?
  }

  /** Message m takes the node of part r from one state to the next. */
  ghost predicate Takes(p: Cast, r: nat, m: Message, from: Node, to: Node, out: Option<Message>)
    requires GoodCast(p) && r < |p.who|
  {
    && !from.crashed && Receive(ConfOf(p.c, p.who[r]), p.who[r], from, m) == Effect(to, out)
    && to.thread == from.thread && |to.channel| <= 1
    && (p.d.timely ==> CountsOwn(from.h, p.who[r], m))
  }

  lemma SameStands(p: Cast, x: World, st: Stage)
    requires Staged(p) && Reached(p, x) && Same(p, x, WorldOf(p, st))
    ensures Stands(p, st)
  {
    SameReached(p, x, WorldOf(p, st));
  }

  /** A proposer handles a message of its own, or the next one of the other proposer. */
  lemma Hears(p: Cast, st: Stage, r: nat, q: nat, i: nat, node: Node, out: Option<Message>) returns (st': Stage)
    requires Staged(p) && Stands(p, st) && r <= 1 && q <= 1
    requires var seat := SeatOf(st, r);
      && i < |Box(seat, r, q)| && (q != r ==> i == 0 && Free(seat))
      && Takes(p, r, Box(seat, r, q)[i], seat.node, node, out)
    ensures Stands(p, st')
    ensures st' == Told(Reseat(st, r, Opened(SeatOf(st, r), r, q, i).(node := node)), r, out)
  {
    hide Receive, Reached, GoodConfig, Distinct;
    var x := WorldOf(p, st);
    Hear(p, x, r, q, i, Effect(node, out));
    AfterOne(p, st, r, q, i, node, out);
    st' := Told(Reseat(st, r, Opened(SeatOf(st, r), r, q, i).(node := node)), r, out);
    SameStands(p, Moved(Taken(x, r, q, i), r, node, x.tag(r), out), st');
  }

  lemma AfterOne(p: Cast, st: Stage, r: nat, q: nat, i: nat, node: Node, out: Option<Message>)
    requires Staged(p) && r <= 1 && q <= 1 && i < |Box(SeatOf(st, r), r, q)|
    ensures var x := WorldOf(p, st);
      var st' := Told(Reseat(st, r, Opened(SeatOf(st, r), r, q, i).(node := node)), r, out);
      Same(p, Moved(Taken(x, r, q, i), r, node, x.tag(r), out), WorldOf(p, st'))
  {
    hide GoodConfig, Distinct, Own, Post1;
  }

  /** A proposer takes a step of its own. */
  lemma Acts(p: Cast, st: Stage, r: nat, a: Action) returns (st': Stage)
    requires Staged(p) && Stands(p, st) && r <= 1 && MayAct(p, WorldOf(p, st), r, a)
    ensures Stands(p, st')
    ensures var e, seat := Acting(ConfOf(p.c, p.who[r]), SeatOf(st, r).node, a), SeatOf(st, r);
      st' == Told(Reseat(st, r, seat.(node := e.node, tag := if e.out.Some? then e.out.value else seat.tag)), r, e.out)
  {
    hide Acting, Reached, GoodConfig, Distinct, MayAct;
    var x, seat := WorldOf(p, st), SeatOf(st, r);
    var e := Acting(ConfOf(p.c, p.who[r]), seat.node, a);
    Act(p, x, r, a);
    var tag := if e.out.Some? then e.out.value else seat.tag;
    st' := Told(Reseat(st, r, seat.(node := e.node, tag := tag)), r, e.out);
    SameStands(p, Moved(x, r, e.node, tag, e.out), st');
  }

  // ---------------------------------------------------------------- one part, every member

  function Members(p: Cast): nat {
    if |p.who| < 2 then 0 else |p.who| - 2
  }

  /** How many members other than r come before part l. */
  function Turn(r: nat, l: nat): nat
    requires l >= 2
  {
    if 2 <= r < l then l - 3 else l - 2
  }

  /** Part r has handled the next message of each member before part `upto`. */
  function Drained(x: World, r: nat, upto: nat, node: Node, rest: seq<Message>): World {
    World((k: nat) => if k == r then node else x.node(k), x.tag,
          (k: nat, l: nat) => if k == r && 2 <= l < upto && l != r then rest else x.mail(k, l))
  }

  /** f(i) is the node of part r after i of the members' messages. */
  ghost predicate TakesEach(p: Cast, r: nat, m: Message, f: nat -> Node, n: nat)
    requires GoodCast(p) && r < |p.who|
  {
    forall i :: 0 <= i < n ==> Takes(p, r, m, f(i), f(i + 1), None)
  }

  ghost predicate AllSay(x: World, r: nat, queue: seq<Message>, upto: nat) {
    forall l :: 2 <= l < upto && l != r ==> x.mail(r, l) == queue
  }

  lemma AfterTheNext(p: Cast, x: World, r: nat, l: nat, from: Node, to: Node, queue: seq<Message>)
    requires r < |p.who| && 2 <= l < |p.who| && l != r && queue != [] && x.mail(r, l) == queue
    ensures var y := Drained(x, r, l, from, queue[1..]);
      Same(p, Moved(Taken(y, r, l, 0), r, to, y.tag(r), None), Drained(x, r, l + 1, to, queue[1..]))
  {
    var y := Drained(x, r, l, from, queue[1..]);
    var z, w := Moved(Taken(y, r, l, 0), r, to, y.tag(r), None), Drained(x, r, l + 1, to, queue[1..]);
    forall k: nat, q: nat ensures w.mail(k, q) == z.mail(k, q) {
      assert z.mail(k, q) == Taken(y, r, l, 0).mail(k, q);
    }
  }

  lemma {:induction false} HearsUpTo(p: Cast, x: World, r: nat, queue: seq<Message>, f: nat -> Node, upto: nat)
    requires GoodCast(p) && Reached(p, x) && r < |p.who| && 2 <= upto <= |p.who| && queue != []
    requires x.node(r) == f(0) && AllSay(x, r, queue, upto) && Attentive(x, r)
    requires TakesEach(p, r, queue[0], f, Turn(r, upto))
    ensures f(Turn(r, upto)).thread == f(0).thread
    ensures Reached(p, Drained(x, r, upto, f(Turn(r, upto)), queue[1..]))
    decreases upto
  {
    hide Receive, Reached, GoodConfig, Distinct;
    var rest := queue[1..];
    if upto == 2 {
      SameReached(p, x, Drained(x, r, upto, f(0), rest));
    } else {
      var l := upto - 1;
      HearsUpTo(p, x, r, queue, f, l);
      var i := Turn(r, l);
      var y := Drained(x, r, l, f(i), rest);
      var z := Drained(x, r, upto, f(Turn(r, upto)), rest);
      if l == r {
        SameReached(p, y, z);
      } else {
        assert Takes(p, r, queue[0], f(i), f(i + 1), None);
        Hear(p, y, r, l, 0, Effect(f(i + 1), None));
        AfterTheNext(p, x, r, l, f(i), f(i + 1), queue);
        SameReached(p, Moved(Taken(y, r, l, 0), r, f(i + 1), y.tag(r), None), z);
      }
    }
  }

  /** A proposer handles the next message of every member; the last one may make it speak. */
  lemma HearsAll(p: Cast, st: Stage, r: nat, f: nat -> Node, out: Option<Message>) returns (st': Stage)
    requires Staged(p) && Stands(p, st) && r <= 1 && (Members(p) > 0 || out.None?)
    requires var seat := SeatOf(st, r);
      && Free(seat) && seat.ofM != [] && seat.node == f(0)
      && (Members(p) > 0 ==> && TakesEach(p, r, seat.ofM[0], f, Members(p) - 1)
                             && Takes(p, r, seat.ofM[0], f(Members(p) - 1), f(Members(p)), out))
    ensures Stands(p, st')
    ensures var seat := SeatOf(st, r);
      st' == Told(Reseat(st, r, seat.(node := f(Members(p)), ofM := seat.ofM[1..])), r, out)
  {
    hide Receive, Reached, GoodConfig, Distinct, Takes;
    var x, seat, n := WorldOf(p, st), SeatOf(st, r), Members(p);
    st' := Told(Reseat(st, r, seat.(node := f(n), ofM := seat.ofM[1..])), r, out);
    if n == 0 {
      SameStands(p, x, st');
    } else {
      var l := |p.who| - 1;
      HearsUpTo(p, x, r, seat.ofM, f, l);
      LastTake(p, r, seat.ofM[0], f(n - 1), f(n), out);
      var y := Drained(x, r, l, f(n - 1), seat.ofM[1..]);
      Hear(p, y, r, l, 0, Effect(f(n), out));
      AfterTheLast(p, st, r, f(n - 1), f(n), out);
      SameStands(p, Moved(Taken(y, r, l, 0), r, f(n), x.tag(r), out), st');
    }
  }

  lemma AfterTheLast(p: Cast, st: Stage, r: nat, node: Node, last: Node, out: Option<Message>)
    requires Staged(p) && r <= 1 && Members(p) > 0 && SeatOf(st, r).ofM != []
    ensures var x, l, seat := WorldOf(p, st), |p.who| - 1, SeatOf(st, r);
      var st' := Told(Reseat(st, r, seat.(node := last, ofM := seat.ofM[1..])), r, out);
      Same(p, Moved(Taken(Drained(x, r, l, node, seat.ofM[1..]), r, l, 0), r, last, x.tag(r), out), WorldOf(p, st'))
  {
    hide GoodConfig, Distinct, Own;
  }

  lemma LastTake(p: Cast, r: nat, m: Message, from: Node, to: Node, out: Option<Message>)
    requires GoodCast(p) && r < |p.who| && Takes(p, r, m, from, to, out)
    ensures !from.crashed && Receive(ConfOf(p.c, p.who[r]), p.who[r], from, m) == Effect(to, out)
    ensures |to.channel| <= 1 && (p.d.timely ==> CountsOwn(from.h, p.who[r], m))
  {
  }

  // ---------------------------------------------------------------- every member, one message

  /** What each member does on message m. */
  ghost predicate EachTakes(p: Cast, m: Message, from: Node, to: Node, out: Option<Message>)
    requires GoodCast(p)
  {
    forall r :: 2 <= r < |p.who| ==> Takes(p, r, m, Own(p, r, from), Own(p, r, to), out)
  }

  /** Whose message a member handles when they all handle one of q: q = 2 is its own. */
  function Source(q: nat, r: nat): nat {
    if q == 2 then r else q
  }

  /** The members before part u have handled message i of q, and said `out`. */
  function Partway(p: Cast, x: World, q: nat, i: nat, node: Node, out: Option<Message>, u: nat): World {
    World((k: nat) => if 2 <= k < u then Own(p, k, node) else x.node(k), x.tag,
          (k: nat, l: nat) =>
            var queue := if 2 <= k < u && l == Source(q, k) && i < |x.mail(k, l)| then Without(x.mail(k, l), i)
                         else x.mail(k, l);
            if 2 <= l < u then Post1(queue, out) else queue)
  }

  lemma {:induction false} SomeHear(p: Cast, x: World, q: nat, i: nat, m: Message, from: Node, to: Node,
                                    out: Option<Message>, u: nat)
    requires Staged(p) && Reached(p, x) && q <= 2 && 2 <= u <= |p.who| && (q != 2 ==> i == 0)
    requires forall r :: 2 <= r < |p.who| ==>
      && x.node(r) == Own(p, r, from) && (q != 2 ==> x.mail(r, r) == [])
      && i < |x.mail(r, Source(q, r))| && x.mail(r, Source(q, r))[i] == m
    requires EachTakes(p, m, from, to, out)
    ensures Reached(p, Partway(p, x, q, i, to, out, u))
    decreases u
  {
    hide Receive, Reached, GoodConfig, Distinct, Own;
    if u == 2 {
      SameReached(p, x, Partway(p, x, q, i, to, out, u));
    } else {
      var r := u - 1;
      SomeHear(p, x, q, i, m, from, to, out, r);
      var y := Partway(p, x, q, i, to, out, r);
      assert Takes(p, r, m, Own(p, r, from), Own(p, r, to), out);
      Hear(p, y, r, Source(q, r), i, Effect(Own(p, r, to), out));
      SameReached(p, Moved(Taken(y, r, Source(q, r), i), r, Own(p, r, to), y.tag(r), out),
                  Partway(p, x, q, i, to, out, u));
    }
  }

  /** Every member handles the next message of proposer q, or for q = 2 its own message i. */
  lemma AllHear(p: Cast, st: Stage, q: nat, i: nat, node: Node, out: Option<Message>) returns (st': Stage)
    requires Staged(p) && Stands(p, st) && q <= 2 && (q != 2 ==> i == 0 && st.m.own == [])
    requires i < |Box(st.m, 2, q)| && EachTakes(p, Box(st.m, 2, q)[i], st.m.node, node, out)
    ensures Stands(p, st')
    ensures st' == Told(st.(m := Opened(st.m, 2, q, i).(node := node)), 2, out)
  {
    hide Receive, Reached, GoodConfig, Distinct, Own, EachTakes;
    var x := WorldOf(p, st);
    SomeHear(p, x, q, i, Box(st.m, 2, q)[i], st.m.node, node, out, |p.who|);
    st' := Told(st.(m := Opened(st.m, 2, q, i).(node := node)), 2, out);
    SameStands(p, Partway(p, x, q, i, node, out, |p.who|), st');
  }

  // ---------------------------------------------------------------- every member, every other member

  /** The members before part u have handled the next message of every other member. */
  function Shared(p: Cast, x: World, node: Node, rest: seq<Message>, u: nat): World {
    World((k: nat) => if 2 <= k < u then Own(p, k, node) else x.node(k), x.tag,
          (k: nat, l: nat) =>
            if 2 <= k < u && 2 <= l < |p.who| && l != k then rest else x.mail(k, l))
  }

  ghost predicate EachTakesEach(p: Cast, m: Message, f: nat -> Node, n: nat)
    requires GoodCast(p)
  {
    forall i :: 0 <= i < n ==> EachTakes(p, m, f(i), f(i + 1), None)
  }

  lemma {:induction false} SomeShare(p: Cast, x: World, queue: seq<Message>, f: nat -> Node, u: nat)
    requires Staged(p) && Reached(p, x) && 2 <= u <= |p.who| && Members(p) > 0 && queue != []
    requires forall r :: 2 <= r < |p.who| ==>
      x.node(r) == Own(p, r, f(0)) && x.mail(r, r) == [] && AllSay(x, r, queue, |p.who|)
    requires EachTakesEach(p, queue[0], f, Members(p) - 1)
    ensures Reached(p, Shared(p, x, f(Members(p) - 1), queue[1..], u))
    decreases u
  {
    hide Receive, Reached, GoodConfig, Distinct, Own, Takes;
    var n := Members(p) - 1;
    if u == 2 {
      SameReached(p, x, Shared(p, x, f(n), queue[1..], u));
    } else {
      var r := u - 1;
      SomeShare(p, x, queue, f, r);
      var y := Shared(p, x, f(n), queue[1..], r);
      var g := (i: nat) => Own(p, r, f(i));
      forall i | 0 <= i < n ensures Takes(p, r, queue[0], g(i), g(i + 1), None) {
        assert EachTakes(p, queue[0], f(i), f(i + 1), None);
      }
      HearsUpTo(p, y, r, queue, g, |p.who|);
      SameReached(p, Drained(y, r, |p.who|, g(n), queue[1..]), Shared(p, x, f(n), queue[1..], u));
    }
  }

  /** Every member handles the next message of every other member. */
  lemma AllShare(p: Cast, st: Stage, f: nat -> Node) returns (st': Stage)
    requires Staged(p) && Stands(p, st) && Members(p) > 0 && st.m.own == [] && st.m.ofM != [] && st.m.node == f(0)
    requires EachTakesEach(p, st.m.ofM[0], f, Members(p) - 1)
    ensures Stands(p, st')
    ensures st' == st.(m := st.m.(node := f(Members(p) - 1), ofM := st.m.ofM[1..]))
  {
    hide Receive, Reached, GoodConfig, Distinct, Own, EachTakesEach;
    var x, n := WorldOf(p, st), Members(p) - 1;
    SomeShare(p, x, st.m.ofM, f, |p.who|);
    st' := st.(m := st.m.(node := f(n), ofM := st.m.ofM[1..]));
    SameStands(p, Shared(p, x, f(n), st.m.ofM[1..], |p.who|), st');
  }

  // ---------------------------------------------------------------- the beginning

  /** A node that has done nothing yet. */
  function Idle(p: Cast, r: nat): Seat
    requires r < |p.who| && p.who[r] < |p.c.ids|
  {
    Seat(NewNode(p.c, p.who[r]), Prepare(0, 0, 0), [], [], [], [])
  }

  function Opening(p: Cast): Stage
    requires |p.who| >= 2 && p.who[0] < |p.c.ids| && p.who[1] < |p.c.ids|
  {
    Stage(Idle(p, 0), Idle(p, 1), Idle(p, 0).(node := Own(p, |p.who|, Idle(p, 0).node)))
  }

  lemma AtTheOpening(p: Cast)
    requires Staged(p)
    ensures Stands(p, Opening(p))
  {
    hide Visited, GoodConfig, Distinct;
    InitVisited(p.c, p.d);
    var x, s := WorldOf(p, Opening(p)), Init(p.c);
    forall r | 0 <= r < |p.who| ensures Seated(p, x, s, r) {
    }
    assert Holds(p, x, s);
  }
}
