/** One expanding-ring search: the requests it floods over the peers, the answers, and the
    loop that waits for the first of them. Requests, replies and ticks come in any order. */
module Flood {
  import opened Text
  import opened Common
  import opened Search

  /** peer.ExpandingRing, with what every request of the search carries. */
  datatype Config = Config(matcher: Matcher, pattern: Bytes, id: Bytes, origin: Peer,
                           initial: nat, factor: nat, retry: nat)

  // ---------------------------------------------------------------- the expanding ring

  /** The state of SearchFirst: `attempts` requests were sent out, the last with `budget`. */
  datatype Ring = Idle | Waiting(attempts: nat, budget: nat) | Done(name: Bytes)

  datatype Turn = Turn(ring: Ring, sent: seq<Request>)

  function Ask(c: Config, to: Routes, budget: nat): seq<Request> {
    Forwarded(to, c.id, budget, c.pattern, c.origin)
  }

  /** An attempt: a failed send ends the search with an error. */
  function Attempt(c: Config, attempts: nat, to: Routes, budget: nat): Turn {
    Turn(if Fails(to, budget) then Done("") else Waiting(attempts, budget), Ask(c, to, budget))
  }

  function Opening(c: Config, local: Bytes, to: Routes): Turn {
    if local != "" then Turn(Done(local), []) else Attempt(c, 1, to, c.initial)
  }

  function OnTick(c: Config, r: Ring, to: Routes): Turn
    requires r.Waiting?
  {
    if r.attempts >= c.retry then Turn(Done(""), [])
    else Attempt(c, r.attempts + 1, to, r.budget * c.factor)
  }

  function OnReply(r: Ring, responses: seq<FileInfo>): Ring {
    if r.Waiting? && Trigger(responses).Some? then Done(Trigger(responses).value) else r
  }

  /** What the waiting loop may see next. */
  datatype Event = Tick(to: Routes) | Reply(responses: seq<FileInfo>) | Closed

  function Follow(c: Config, t: Turn, events: seq<Event>): Turn {
    if events == [] then t
    else
      var before := Follow(c, t, events[..|events| - 1]);
      if !before.ring.Waiting? then before
      else match events[|events| - 1]
           case Tick(to) => var u := OnTick(c, before.ring, to); Turn(u.ring, before.sent + u.sent)
           case Reply(responses) => Turn(OnReply(before.ring, responses), before.sent)
           case Closed => Turn(Done(""), before.sent)
  }

  /** SearchFirst, given what its channel and its ticker deliver. */
  method SearchFirst(c: Config, shelf: Shelf, order: seq<Bytes>, to: Routes, events: seq<Event>)
    returns (ring: Ring, sent: seq<Request>)
    requires forall i :: 0 <= i < |order| ==> order[i] in shelf.names
    ensures Turn(ring, sent) == Follow(c, Opening(c, LocalSearch(c.matcher, c.pattern, shelf, order), to), events)
  {
    var local := LocalFullyKnowsFile(c.matcher, c.pattern, shelf, order);
    ghost var opening := Opening(c, local, to);
    if local != "" {
      ring, sent := Done(local), [];
      DoneStays(c, opening, events);
      return;
    }
    var trials, budget := 1, c.initial;
    var failed;
    sent, failed := SendSearchReq(to, c.id, budget, c.pattern, c.origin);
    ring := Done("");
    if failed {
      DoneStays(c, opening, events);
      return;
    }
    for i := 0 to |events|
      invariant ring == Done("") && Follow(c, opening, events[..i]) == Turn(Waiting(trials, budget), sent)
    {
      assert events[..i + 1][..i] == events[..i];
      match events[i] {
        case Reply(responses) =>
          var filename := CheckAvailability(responses);
          if filename.Some? {
            ring := Done(filename.value);
            FollowStops(c, opening, events, i + 1);
            return;
          }
        case Closed =>
          FollowStops(c, opening, events, i + 1);
          return;
        case Tick(routes) =>
          if trials >= c.retry {
            assert Follow(c, opening, events[..i + 1]) == Turn(Done(""), sent + []) == Turn(ring, sent);
            FollowStops(c, opening, events, i + 1);
            return;
          }
          budget := budget * c.factor;
          var more;
          more, failed := SendSearchReq(routes, c.id, budget, c.pattern, c.origin);
          sent := sent + more;
          if failed {
            FollowStops(c, opening, events, i + 1);
            return;
          }
          trials := trials + 1;
      }
    }
    assert events[..|events|] == events;
    ring := Waiting(trials, budget);
  }

  lemma {:induction false} DoneStays(c: Config, t: Turn, events: seq<Event>)
    requires !t.ring.Waiting?
    ensures Follow(c, t, events) == t
    decreases |events|
  {
    if events != [] {
      DoneStays(c, t, events[..|events| - 1]);
    }
  }

  lemma {:induction false} FollowStops(c: Config, t: Turn, events: seq<Event>, i: nat)
    requires i <= |events| && !Follow(c, t, events[..i]).ring.Waiting?
    ensures Follow(c, t, events) == Follow(c, t, events[..i])
    decreases |events|
  {
    if i == |events| {
      assert events[..i] == events;
    } else {
      assert events[..|events| - 1][..i] == events[..i];
      FollowStops(c, t, events[..|events| - 1], i);
    }
  }

  /** The budget of the k-th attempt, counting from 0, and the budgets of the first k. */
  function Budget(c: Config, k: nat): nat {
    if k == 0 then c.initial else Budget(c, k - 1) * c.factor
  }

  function BudgetSum(c: Config, k: nat): nat {
    if k == 0 then 0 else BudgetSum(c, k - 1) + Budget(c, k - 1)
  }

  function Attempts(c: Config): nat {
    if c.retry > 1 then c.retry else 1
  }

  function Power(b: nat, e: nat): nat {
    if e == 0 then 1 else b * Power(b, e - 1)
  }

  /** The k-th attempt has Initial * Factor^k. */
  lemma {:induction false} BudgetForm(c: Config, k: nat)
    ensures Budget(c, k) == c.initial * Power(c.factor, k)
    decreases k
  {
    if k > 0 {
      BudgetForm(c, k - 1);
      calc {
        c.initial * Power(c.factor, k - 1) * c.factor;
        c.initial * (Power(c.factor, k - 1) * c.factor);
        c.initial * (c.factor * Power(c.factor, k - 1));
      }
    }
  }

  lemma {:induction false} BudgetSumGrows(c: Config, j: nat, k: nat)
    requires j <= k
    ensures BudgetSum(c, j) <= BudgetSum(c, k)
    decreases k
  {
    if j < k {
      BudgetSumGrows(c, j, k - 1);
    }
  }

  // ---------------------------------------------------------------- how a search ends

  /** A name that is fully known locally is returned without asking anyone. */
  lemma LocalNameEnds(c: Config, local: Bytes, to: Routes, events: seq<Event>)
    requires local != ""
    ensures Follow(c, Opening(c, local, to), events) == Turn(Done(local), [])
  {
    DoneStays(c, Opening(c, local, to), events);
  }

  /** The first complete response to reach a waiting search ends it, with that response's name. */
  lemma AnswerEnds(c: Config, t: Turn, events: seq<Event>, i: nat, j: nat)
    requires i < |events| && Follow(c, t, events[..i]).ring.Waiting?
    requires events[i].Reply? && FirstComplete(events[i].responses, j)
    ensures Follow(c, t, events) == Turn(Done(events[i].responses[j].name), Follow(c, t, events[..i]).sent)
  {
    FirstCompleteWins(events[i].responses, j);
    assert events[..i + 1][..i] == events[..i];
    FollowStops(c, t, events, i + 1);
  }

  /** A closed channel ends it without a name. */
  lemma ClosedEnds(c: Config, t: Turn, events: seq<Event>, i: nat)
    requires i < |events| && Follow(c, t, events[..i]).ring.Waiting? && events[i].Closed?
    ensures Follow(c, t, events) == Turn(Done(""), Follow(c, t, events[..i]).sent)
  {
    assert events[..i + 1][..i] == events[..i];
    FollowStops(c, t, events, i + 1);
  }

  /** The routes at each tick. */
  function TickRoutes(events: seq<Event>): seq<Routes> {
    if events == [] then []
    else
      var e := events[|events| - 1];
      TickRoutes(events[..|events| - 1]) + if e.Tick? then [e.to] else []
  }

  /** The requests of the first k attempts, the i-th with Initial * Factor^i. */
  function Asks(c: Config, routes: seq<Routes>, k: nat): seq<Request>
    requires k <= |routes|
  {
    if k == 0 then [] else Asks(c, routes, k - 1) + Ask(c, routes[k - 1], Budget(c, k - 1))
  }

  lemma {:induction false} AsksOfPrefix(c: Config, routes: seq<Routes>, more: seq<Routes>, k: nat)
    requires k <= |routes|
    ensures Asks(c, routes + more, k) == Asks(c, routes, k)
    decreases k
  {
    if k > 0 {
      AsksOfPrefix(c, routes, more, k - 1);
    }
  }

  ghost predicate NoneComplete(responses: seq<FileInfo>) {
    forall j :: 0 <= j < |responses| ==> !Complete(responses[j])
  }

  /** Nothing but ticks and answers without a complete response. */
  ghost predicate Unanswered(events: seq<Event>) {
    forall i :: 0 <= i < |events| ==>
      events[i].Tick? || (events[i].Reply? && NoneComplete(events[i].responses))
  }

  ghost predicate NoneFails(c: Config, routes: seq<Routes>) {
    forall i :: 0 <= i < |routes| ==> !Fails(routes[i], Budget(c, i))
  }

  /** Where an unanswered search stands after k ticks. */
  function Patience(c: Config, routes: seq<Routes>): Turn
    requires routes != []
  {
    if |routes| <= Attempts(c) then Turn(Waiting(|routes|, Budget(c, |routes| - 1)), Asks(c, routes, |routes|))
    else Turn(Done(""), Asks(c, routes, Attempts(c)))
  }

  /** One tick more. */
  lemma TickMore(c: Config, routes: seq<Routes>, to: Routes)
    requires routes != [] && |routes| <= Attempts(c) && NoneFails(c, routes + [to])
    ensures var t, u := Patience(c, routes), OnTick(c, Patience(c, routes).ring, to);
      Patience(c, routes + [to]) == Turn(u.ring, t.sent + u.sent)
  {
    var k, more := |routes|, routes + [to];
    AsksOfPrefix(c, routes, [to], k);
    assert more[k] == to && !Fails(more[k], Budget(c, k));
    assert Budget(c, k) == Budget(c, k - 1) * c.factor;
    if k >= c.retry {
      assert Asks(c, routes, k) + [] == Asks(c, routes, k);
    }
  }

  lemma PatienceIsOver(c: Config, routes: seq<Routes>, to: Routes)
    requires |routes| > Attempts(c)
    ensures Patience(c, routes + [to]) == Patience(c, routes)
  {
    AsksOfPrefix(c, routes, [to], Attempts(c));
  }

  /** Without a complete answer, and with sends that do not fail, each tick makes one attempt more,
      until max(1, Retry) have been made; the next tick gives up. */
  lemma {:induction false} UnansweredGivesUp(c: Config, to: Routes, events: seq<Event>)
    requires Unanswered(events) && NoneFails(c, [to] + TickRoutes(events))
    ensures Follow(c, Opening(c, "", to), events) == Patience(c, [to] + TickRoutes(events))
    decreases |events|
  {
    hide Fails, Ask, OnTick;
    var opening := Opening(c, "", to);
    if events == [] {
      assert [to] + TickRoutes(events) == [to];
      OpeningIsPatience(c, to);
    } else {
      var init, e := events[..|events| - 1], events[|events| - 1];
      var routes := [to] + TickRoutes(init);
      assert [to] + TickRoutes(events) == if e.Tick? then routes + [e.to] else routes;
      assert forall i :: 0 <= i < |routes| ==> routes[i] == ([to] + TickRoutes(events))[i];
      UnansweredGivesUp(c, to, init);
      match e
      case Tick(next) =>
        if |routes| <= Attempts(c) {
          TickMore(c, routes, next);
        } else {
          PatienceIsOver(c, routes, next);
        }
      case Reply(responses) => TriggerPicks(responses);
      case Closed => assert false;
    }
  }

  lemma OpeningIsPatience(c: Config, to: Routes)
    requires NoneFails(c, [to])
    ensures Opening(c, "", to) == Patience(c, [to])
  {
    assert [to][0] == to && !Fails([to][0], Budget(c, 0));
    assert Asks(c, [to], 1) == [] + Ask(c, to, c.initial) == Ask(c, to, c.initial);
  }

  /** A send that fails ends the search without a name, after the requests before it. */
  lemma FailedSendEnds(c: Config, to: Routes, events: seq<Event>)
    requires Fails(to, c.initial)
    ensures Follow(c, Opening(c, "", to), events) == Turn(Done(""), Ask(c, to, c.initial))
  {
    DoneStays(c, Opening(c, "", to), events);
  }

  /** So does a later one. */
  lemma FailedTickEnds(c: Config, t: Turn, events: seq<Event>, i: nat)
    requires i < |events| && Follow(c, t, events[..i]).ring.Waiting? && events[i].Tick?
    requires var r := Follow(c, t, events[..i]).ring;
      r.attempts < c.retry && Fails(events[i].to, r.budget * c.factor)
    ensures var before := Follow(c, t, events[..i]);
      Follow(c, t, events) == Turn(Done(""), before.sent + Ask(c, events[i].to, before.ring.budget * c.factor))
  {
    assert events[..i + 1][..i] == events[..i];
    FollowStops(c, t, events, i + 1);
  }

  // ---------------------------------------------------------------- the flood

  /** A peer's stores as they were when it answered or searched itself. */
  datatype Lookup = Lookup(peer: Peer, shelf: Shelf)

  /** The peers' stores, the requests in the network, the answers, and the origin's search.
      `handled` counts the requests handled, `lookups` the moments stores were read. */
  datatype Sys = Sys(shelves: seq<Shelf>, inFlight: seq<Request>, answers: seq<seq<FileInfo>>, ring: Ring,
                     handled: nat, lookups: seq<Lookup>)

  datatype Action =
    | Start(order: seq<Bytes>, to: Routes)
    | Ticked(to: Routes)
    | Shut                                                            // its channel is closed
    | Answered(k: nat)                                                // the origin gets answer k
    | Handle(j: nat, order: seq<Bytes>, to: Routes)                   // request j reaches its destination
    | Lose(j: nat)
    | Change(n: Peer, shelf: Shelf)                                   // uploads, downloads, tags

  function Init(shelves: seq<Shelf>): Sys {
    Sys(shelves, [], [], Idle, 0, [])
  }

  ghost predicate Peers(s: Sys, to: Routes) {
    forall i :: 0 <= i < |to.neighbours| ==> to.neighbours[i] < |s.shelves|
  }

  /** No topology is assumed: a request is forwarded to any list of peers. */
  ghost predicate Enabled(c: Config, s: Sys, a: Action) {
    && c.origin < |s.shelves|
    && match a
       case Start(order, to) => s.ring.Idle? && Peers(s, to) && VisitOf(order, s.shelves[c.origin].names.Keys)
       case Ticked(to) => s.ring.Waiting? && Peers(s, to)
       case Answered(k) => k < |s.answers| && s.ring.Waiting?
       case Shut => s.ring.Waiting?
       case Handle(j, order, to) =>
         && j < |s.inFlight| && s.inFlight[j].dest < |s.shelves| && Peers(s, to)
         && VisitOf(order, s.shelves[s.inFlight[j].dest].names.Keys)
       case Lose(j) => j < |s.inFlight|
       case Change(n, shelf) => n < |s.shelves|
  }

  const MAX_UINT: nat := 0xFFFF_FFFF_FFFF_FFFF

  /** Budget - 1 on a Go uint. */
  function Decremented(budget: nat): nat {
    if budget == 0 then MAX_UINT else budget - 1
  }

  function Without(rs: seq<Request>, j: nat): seq<Request>
    requires j < |rs|
  {
    rs[..j] + rs[j + 1..]
  }

  ghost function Apply(c: Config, s: Sys, a: Action): Sys
    requires Enabled(c, s, a)
  {
    match a
    case Start(order, to) =>
      var shelf := s.shelves[c.origin];
      var t := Opening(c, LocalSearch(c.matcher, c.pattern, shelf, order), to);
      s.(ring := t.ring, inFlight := s.inFlight + t.sent, lookups := s.lookups + [Lookup(c.origin, shelf)])
    case Ticked(to) =>
      var t := OnTick(c, s.ring, to);
      s.(ring := t.ring, inFlight := s.inFlight + t.sent)
    case Answered(k) => s.(ring := OnReply(s.ring, s.answers[k]))
    case Shut => s.(ring := Done(""))
    case Handle(j, order, to) =>
      var r := s.inFlight[j];
      var shelf := s.shelves[r.dest];
      s.(inFlight := Without(s.inFlight, j) + Forwarded(to, r.id, Decremented(r.budget), r.pattern, r.origin),
         answers := s.answers + [Responses(c.matcher, r.pattern, shelf, order)],
         handled := s.handled + 1,
         lookups := s.lookups + [Lookup(r.dest, shelf)])
    case Lose(j) => s.(inFlight := Without(s.inFlight, j))
    case Change(n, shelf) => s.(shelves := s.shelves[n := shelf])
  }

  ghost predicate Legal(c: Config, s: Sys, run: seq<Action>)
    decreases |run|
  {
    run == [] || (Enabled(c, s, run[0]) && Legal(c, Apply(c, s, run[0]), run[1..]))
  }

  ghost function Exec(c: Config, s: Sys, run: seq<Action>): Sys
    requires Legal(c, s, run)
    decreases |run|
  {
    if run == [] then s else Exec(c, Apply(c, s, run[0]), run[1..])
  }

  // ---------------------------------------------------------------- the flood is bounded

  lemma TotalWithout(rs: seq<Request>, j: nat)
    requires j < |rs|
    ensures Total(Without(rs, j)) + rs[j].budget == Total(rs)
  {
    var front, back := rs[..j + 1], rs[j + 1..];
    assert rs == front + back && front[..j] == rs[..j];
    TotalAppend(front, back);
    TotalAppend(rs[..j], back);
  }

  /** What the search has put into the flood so far. */
  ghost function Issued(c: Config, r: Ring): nat {
    match r
    case Idle => 0
    case Waiting(attempts, _) => BudgetSum(c, attempts)
    case Done(_) => BudgetSum(c, Attempts(c))
  }

  ghost predicate RingOK(c: Config, r: Ring) {
    r.Waiting? ==> 1 <= r.attempts <= Attempts(c) && r.budget == Budget(c, r.attempts - 1)
  }

  ghost predicate RequestsOK(c: Config, s: Sys) {
    forall r :: r in s.inFlight ==> r.budget >= 1 && r.dest < |s.shelves| && r.pattern == c.pattern
  }

  /** Every answer was built from the stores some peer had. */
  ghost predicate Honest(c: Config, answer: seq<FileInfo>, l: Lookup) {
    exists order :: VisitOf(order, l.shelf.names.Keys) && answer == Responses(c.matcher, c.pattern, l.shelf, order)
  }

  ghost predicate Witnessed(c: Config, lookups: seq<Lookup>, answer: seq<FileInfo>) {
    exists i :: 0 <= i < |lookups| && Honest(c, answer, lookups[i])
  }

  ghost predicate AnswersOK(c: Config, s: Sys) {
    forall k :: 0 <= k < |s.answers| ==> Witnessed(c, s.lookups, s.answers[k])
  }

  /** The name matches, and some peer fully knew it when its stores were read. */
  ghost predicate Known(c: Config, lookups: seq<Lookup>, name: Bytes) {
    c.matcher(c.pattern, name) && exists i :: 0 <= i < |lookups| && FullyKnows(lookups[i].shelf, name)
  }

  ghost predicate NameOK(c: Config, s: Sys) {
    s.ring.Done? && s.ring.name != "" ==> Known(c, s.lookups, s.ring.name)
  }

  ghost predicate BudgetOK(c: Config, s: Sys) {
    && RingOK(c, s.ring)
    && RequestsOK(c, s)
    && s.handled + Total(s.inFlight) <= Issued(c, s.ring)
  }

  ghost predicate Inv(c: Config, s: Sys) {
    BudgetOK(c, s) && AnswersOK(c, s) && NameOK(c, s)
  }

  lemma AskOK(c: Config, s: Sys, to: Routes, budget: nat)
    requires Peers(s, to)
    ensures Total(Ask(c, to, budget)) <= budget
    ensures forall r :: r in Ask(c, to, budget) ==> r.budget >= 1 && r.dest < |s.shelves| && r.pattern == c.pattern
  {
    SentBudget(to, c.id, budget, c.pattern, c.origin);
  }

  lemma AttemptAdds(c: Config, s: Sys, to: Routes, budget: nat)
    requires RequestsOK(c, s) && Peers(s, to)
    ensures RequestsOK(c, s.(inFlight := s.inFlight + Ask(c, to, budget)))
    ensures Total(s.inFlight + Ask(c, to, budget)) <= Total(s.inFlight) + budget
  {
    hide Forwarded, Total;
    AskOK(c, s, to, budget);
    TotalAppend(s.inFlight, Ask(c, to, budget));
  }

  lemma StartKeepsBudget(c: Config, s: Sys, order: seq<Bytes>, to: Routes)
    requires BudgetOK(c, s) && Enabled(c, s, Start(order, to))
    ensures BudgetOK(c, Apply(c, s, Start(order, to)))
  {
    hide Ask, Fails, Total, RequestsOK;
    AttemptAdds(c, s, to, c.initial);
    assert s.inFlight + [] == s.inFlight;
    assert BudgetSum(c, 1) == c.initial + BudgetSum(c, 0);
    BudgetSumGrows(c, 1, Attempts(c));
    SameRequests(c, s, Apply(c, s, Start(order, to)));
  }

  lemma SameRequests(c: Config, s: Sys, t: Sys)
    requires |s.shelves| == |t.shelves|
    ensures RequestsOK(c, t) <==> RequestsOK(c, s.(inFlight := t.inFlight))
  {
  }

  lemma TickKeepsBudget(c: Config, s: Sys, to: Routes)
    requires BudgetOK(c, s) && Enabled(c, s, Ticked(to))
    ensures BudgetOK(c, Apply(c, s, Ticked(to)))
  {
    hide Ask, Fails, Total, RequestsOK;
    var r := s.ring;
    BudgetSumGrows(c, r.attempts, Attempts(c));
    if r.attempts < c.retry {
      AttemptAdds(c, s, to, r.budget * c.factor);
      BudgetSumGrows(c, r.attempts + 1, Attempts(c));
      assert BudgetSum(c, r.attempts + 1) == BudgetSum(c, r.attempts) + Budget(c, r.attempts);
    } else {
      assert s.inFlight + [] == s.inFlight;
    }
    SameRequests(c, s, Apply(c, s, Ticked(to)));
  }

  lemma HandleKeepsRequests(c: Config, s: Sys, a: Action)
    requires RequestsOK(c, s) && Enabled(c, s, a) && a.Handle?
    ensures RequestsOK(c, Apply(c, s, a))
    ensures var t := Apply(c, s, a); t.handled + Total(t.inFlight) <= s.handled + Total(s.inFlight)
  {
    var r := s.inFlight[a.j];
    var more := Forwarded(a.to, r.id, Decremented(r.budget), r.pattern, r.origin);
    assert r in s.inFlight;
    TotalWithout(s.inFlight, a.j);
    TotalAppend(Without(s.inFlight, a.j), more);
    SentBudget(a.to, r.id, Decremented(r.budget), r.pattern, r.origin);
  }

  /** Exactly one unit is used up, and the rest is forwarded, if there is a neighbour to forward to
      and no send fails. */
  lemma HandleConserves(c: Config, s: Sys, a: Action)
    requires RequestsOK(c, s) && Enabled(c, s, a) && a.Handle?
    requires a.to.neighbours != [] && !Fails(a.to, s.inFlight[a.j].budget - 1)
    ensures var t := Apply(c, s, a); t.handled + Total(t.inFlight) == s.handled + Total(s.inFlight)
  {
    var r := s.inFlight[a.j];
    var more := Forwarded(a.to, r.id, Decremented(r.budget), r.pattern, r.origin);
    assert r in s.inFlight;
    TotalWithout(s.inFlight, a.j);
    TotalAppend(Without(s.inFlight, a.j), more);
    SentBudget(a.to, r.id, Decremented(r.budget), r.pattern, r.origin);
  }

  lemma StepKeepsBudget(c: Config, s: Sys, a: Action)
    requires BudgetOK(c, s) && Enabled(c, s, a)
    ensures BudgetOK(c, Apply(c, s, a))
  {
    match a
    case Start(order, to) => StartKeepsBudget(c, s, order, to);
    case Ticked(to) => TickKeepsBudget(c, s, to);
    case Answered(k) => BudgetSumGrows(c, s.ring.attempts, Attempts(c));
    case Shut => BudgetSumGrows(c, s.ring.attempts, Attempts(c));
    case Handle(_, _, _) => HandleKeepsRequests(c, s, a);
    case Lose(j) => TotalWithout(s.inFlight, j);
    case Change(_, _) =>
  }

  lemma StillWitnessed(c: Config, lookups: seq<Lookup>, more: seq<Lookup>, answer: seq<FileInfo>)
    requires Witnessed(c, lookups, answer)
    ensures Witnessed(c, lookups + more, answer)
  {
    var i :| 0 <= i < |lookups| && Honest(c, answer, lookups[i]);
    assert Honest(c, answer, (lookups + more)[i]);
  }

  lemma StillKnown(c: Config, lookups: seq<Lookup>, more: seq<Lookup>, name: Bytes)
    requires Known(c, lookups, name)
    ensures Known(c, lookups + more, name)
  {
    var i :| 0 <= i < |lookups| && FullyKnows(lookups[i].shelf, name);
    assert FullyKnows((lookups + more)[i].shelf, name);
  }

  lemma StepKeepsAnswers(c: Config, s: Sys, a: Action)
    requires BudgetOK(c, s) && AnswersOK(c, s) && Enabled(c, s, a)
    ensures AnswersOK(c, Apply(c, s, a))
  {
    var t := Apply(c, s, a);
    if a.Handle? || a.Start? {
      var l := t.lookups[|s.lookups|];
      assert t.lookups == s.lookups + [l];
      forall k | 0 <= k < |t.answers| ensures Witnessed(c, t.lookups, t.answers[k]) {
        if k == |s.answers| {
          assert s.inFlight[a.j] in s.inFlight;
          assert Honest(c, t.answers[k], t.lookups[|s.lookups|]);
        } else {
          StillWitnessed(c, s.lookups, [l], s.answers[k]);
        }
      }
    } else {
      assert t.answers == s.answers && t.lookups == s.lookups;
    }
  }

  /** The name an honest answer makes the search return. */
  lemma AnswerKnown(c: Config, answer: seq<FileInfo>, l: Lookup)
    requires Honest(c, answer, l) && Trigger(answer).Some?
    ensures c.matcher(c.pattern, Trigger(answer).value) && FullyKnows(l.shelf, Trigger(answer).value)
  {
    var order :| VisitOf(order, l.shelf.names.Keys) && answer == Responses(c.matcher, c.pattern, l.shelf, order);
    AnswerIsSoundAndComplete(c.matcher, c.pattern, l.shelf, order);
  }

  lemma StepKeepsName(c: Config, s: Sys, a: Action)
    requires AnswersOK(c, s) && NameOK(c, s) && Enabled(c, s, a)
    ensures NameOK(c, Apply(c, s, a))
  {
    var t := Apply(c, s, a);
    match a
    case Start(order, to) =>
      LocalSearchSound(c.matcher, c.pattern, s.shelves[c.origin], order);
      assert t.lookups[|s.lookups|].shelf == s.shelves[c.origin];
    case Answered(k) =>
      assert Witnessed(c, s.lookups, s.answers[k]);
      var i :| 0 <= i < |s.lookups| && Honest(c, s.answers[k], s.lookups[i]);
      if Trigger(s.answers[k]).Some? {
        AnswerKnown(c, s.answers[k], s.lookups[i]);
      }
    case Handle(_, _, _) =>
      if s.ring.Done? && s.ring.name != "" {
        StillKnown(c, s.lookups, [t.lookups[|s.lookups|]], s.ring.name);
      }
    case _ =>
  }

  lemma StepKeeps(c: Config, s: Sys, a: Action)
    requires Inv(c, s) && Enabled(c, s, a)
    ensures Inv(c, Apply(c, s, a))
  {
    StepKeepsBudget(c, s, a);
    StepKeepsAnswers(c, s, a);
    StepKeepsName(c, s, a);
  }

  lemma {:induction false} RunKeeps(c: Config, s: Sys, run: seq<Action>)
    requires Inv(c, s) && Legal(c, s, run)
    ensures Inv(c, Exec(c, s, run))
    decreases |run|
  {
    if run != [] {
      StepKeeps(c, s, run[0]);
      RunKeeps(c, Apply(c, s, run[0]), run[1..]);
    }
  }

  /** On any topology, with any losses: the requests handled and the budgets in flight never
      exceed the sum of Initial * Factor^k over the attempts, so a search causes at most that
      many requests to be handled, and a request that is handled has a budget to take one
      from. */
  lemma FloodBound(c: Config, shelves: seq<Shelf>, run: seq<Action>)
    requires Legal(c, Init(shelves), run)
    ensures var s := Exec(c, Init(shelves), run);
      && s.handled + Total(s.inFlight) <= Issued(c, s.ring) <= BudgetSum(c, Attempts(c))
      && (forall r :: r in s.inFlight ==> r.budget >= 1 && Decremented(r.budget) == r.budget - 1)
  {
    RunKeeps(c, Init(shelves), run);
    var s := Exec(c, Init(shelves), run);
    BudgetSumGrows(c, 0, Attempts(c));
    if s.ring.Waiting? {
      BudgetSumGrows(c, s.ring.attempts, Attempts(c));
    }
  }

  /** Between two attempts the flood dies out: it takes at most as many deliveries and losses
      as there is budget in flight. */
  lemma {:induction false} FloodStops(c: Config, s: Sys, run: seq<Action>)
    requires RequestsOK(c, s) && Legal(c, s, run)
    requires forall i :: 0 <= i < |run| ==> run[i].Handle? || run[i].Lose?
    ensures |run| + Total(Exec(c, s, run).inFlight) <= Total(s.inFlight)
    decreases |run|
  {
    if run != [] {
      var a, t := run[0], Apply(c, s, run[0]);
      assert s.inFlight[a.j] in s.inFlight;
      if a.Handle? {
        HandleKeepsRequests(c, s, a);
      } else {
        TotalWithout(s.inFlight, a.j);
      }
      FloodStops(c, t, run[1..]);
    }
  }

  // ---------------------------------------------------------------- what the search returns

  /** At some moment of the run, peer p had these stores. */
  ghost predicate Happened(c: Config, s: Sys, run: seq<Action>, i: nat, l: Lookup)
    requires Legal(c, s, run) && i <= |run|
    decreases i
  {
    if i == 0 then l.peer < |s.shelves| && s.shelves[l.peer] == l.shelf
    else Happened(c, Apply(c, s, run[0]), run[1..], i - 1, l)
  }

  lemma {:induction false} LookupsHappened(c: Config, s: Sys, run: seq<Action>, l: Lookup) returns (i: nat)
    requires Legal(c, s, run) && l in Exec(c, s, run).lookups && l !in s.lookups
    ensures i <= |run| && Happened(c, s, run, i, l)
    decreases |run|
  {
    var t := Apply(c, s, run[0]);
    if l in t.lookups {
      i := 0;
    } else {
      i := LookupsHappened(c, t, run[1..], l);
      i := i + 1;
    }
  }

  /** Any non-empty name a search returns matches the pattern, and at some moment of the run
      one peer, the searching one or another, held the metafile and every chunk it names. */
  lemma SearchIsSound(c: Config, shelves: seq<Shelf>, run: seq<Action>) returns (i: nat, l: Lookup)
    requires Legal(c, Init(shelves), run)
    requires Exec(c, Init(shelves), run).ring.Done? && Exec(c, Init(shelves), run).ring.name != ""
    ensures var name := Exec(c, Init(shelves), run).ring.name;
      && i <= |run| && Happened(c, Init(shelves), run, i, l)
      && c.matcher(c.pattern, name) && FullyKnows(l.shelf, name)
  {
    RunKeeps(c, Init(shelves), run);
    var s := Exec(c, Init(shelves), run);
    assert Known(c, s.lookups, s.ring.name);
    var j :| 0 <= j < |s.lookups| && FullyKnows(s.lookups[j].shelf, s.ring.name);
    l := s.lookups[j];
    i := LookupsHappened(c, Init(shelves), run, l);
  }

  /** The other half: when a request reaches a peer that fully knows a matching name, and the answer
      reaches the search while it waits, the search ends with a name that this peer fully knew. */
  lemma KnownNameIsFound(c: Config, s: Sys, a: Action, between: seq<Action>, name: Bytes)
    requires RequestsOK(c, s) && Enabled(c, s, a) && a.Handle?
    requires Legal(c, Apply(c, s, a), between) && Exec(c, Apply(c, s, a), between).ring.Waiting?
    requires c.matcher(c.pattern, name) && FullyKnows(s.shelves[s.inFlight[a.j].dest], name)
    ensures var t, shelf := Exec(c, Apply(c, s, a), between), s.shelves[s.inFlight[a.j].dest];
      && Enabled(c, t, Answered(|s.answers|))
      && var r := Apply(c, t, Answered(|s.answers|)).ring;
         r.Done? && c.matcher(c.pattern, r.name) && FullyKnows(shelf, r.name)
  {
    var shelf, answer := s.shelves[s.inFlight[a.j].dest], Apply(c, s, a).answers[|s.answers|];
    assert s.inFlight[a.j] in s.inFlight;
    AnswersStay(c, Apply(c, s, a), between);
    AnswerIsSoundAndComplete(c.matcher, c.pattern, shelf, a.order);
    TriggerPicks(answer);
    var j := SomeFirst(answer);
    FirstCompleteWins(answer, j);
  }

  lemma {:induction false} AnswersStay(c: Config, s: Sys, run: seq<Action>)
    requires Legal(c, s, run)
    ensures s.answers <= Exec(c, s, run).answers && |Exec(c, s, run).shelves| == |s.shelves|
    decreases |run|
  {
    hide Opening, OnTick, OnReply, Forwarded, Responses;
    if run != [] {
      AnswersStay(c, Apply(c, s, run[0]), run[1..]);
    }
  }

  lemma SomeFirst(responses: seq<FileInfo>) returns (i: nat)
    requires Trigger(responses).Some?
    ensures FirstComplete(responses, i)
  {
    i := 0;
    while !Complete(responses[i])
      invariant i < |responses| && Trigger(responses) == Trigger(responses[i..])
      invariant forall l :: 0 <= l < i ==> !Complete(responses[l])
      decreases |responses| - i
    {
      assert responses[i..][1..] == responses[i + 1..];
      i := i + 1;
    }
  }
}
