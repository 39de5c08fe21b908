/** The budgeted search flood and the expanding ring. */
module Search {
  import opened Text
  import opened Common

  // ---------------------------------------------------------------- splitting a budget

  /** What round-robin hands to the i-th of n neighbours. */
  function Share(budget: nat, n: nat, i: nat): nat
    requires i < n
  {
    if budget <= i then 0 else if budget <= n then 1 else 1 + Share(budget - n, n, i)
  }

  /** The first loop of sendSearchReq. */
  method Distribute(n: nat, budget: nat) returns (distribution: seq<nat>)
    requires n > 0
    ensures |distribution| == n
    ensures forall i :: 0 <= i < n ==> distribution[i] == Share(budget, n, i)
  {
    distribution := seq(n, _ => 0);
    var budg := budget;
    while budg > 0
      invariant |distribution| == n
      invariant forall i :: 0 <= i < n ==> distribution[i] + Share(budg, n, i) == Share(budget, n, i)
    {
      ghost var round := budg;
      ghost var before := distribution;
      var i := 0;
      while i < n && budg > 0
        invariant 0 <= i <= n && i <= round && budg == round - i
        invariant |distribution| == n
        invariant forall j :: 0 <= j < i ==> distribution[j] == before[j] + 1
        invariant forall j :: i <= j < n ==> distribution[j] == before[j]
      {
        distribution := distribution[i := distribution[i] + 1];
        budg := budg - 1;
        i := i + 1;
      }
    }
  }

  lemma {:induction false} ShareOf(n: nat, q: nat, r: nat, i: nat)
    requires i < n && r < n
    ensures n * q + r >= 0
    ensures Share(n * q + r, n, i) == q + if i < r then 1 else 0
    decreases q
  {
    if q == 0 {
      assert n * q + r == r;
    } else {
      assert n * q + r == n * (q - 1) + r + n;
      assert n * (q - 1) >= 0;
      ShareOf(n, q - 1, r, i);
      if n * q + r == n {
        assert n * (q - 1) + r == 0;
      }
    }
  }

  /** Round-robin refines division: each neighbour gets budget / n, and the first
      budget mod n of them one more. */
  lemma ShareIsDivision(budget: nat, n: nat, i: nat)
    requires i < n
    ensures Share(budget, n, i) == budget / n + if i < budget % n then 1 else 0
  {
    assert budget == n * (budget / n) + budget % n;
    ShareOf(n, budget / n, budget % n, i);
  }

  function SumShares(budget: nat, n: nat, k: nat): nat
    requires k <= n
  {
    if k == 0 then 0 else SumShares(budget, n, k - 1) + Share(budget, n, k - 1)
  }

  lemma {:induction false} SumSmall(budget: nat, n: nat, k: nat)
    requires k <= n && budget <= n
    ensures SumShares(budget, n, k) == if budget <= k then budget else k
    decreases k
  {
    if k > 0 {
      SumSmall(budget, n, k - 1);
    }
  }

  lemma {:induction false} SumRound(budget: nat, n: nat, k: nat)
    requires k <= n < budget
    ensures SumShares(budget, n, k) == k + SumShares(budget - n, n, k)
    decreases k
  {
    if k > 0 {
      SumRound(budget, n, k - 1);
    }
  }

  /** No budget is lost or created by the split. */
  lemma {:induction false} SharesSum(budget: nat, n: nat)
    requires n > 0
    ensures SumShares(budget, n, n) == budget
    decreases budget
  {
    if budget <= n {
      SumSmall(budget, n, n);
    } else {
      SumRound(budget, n, n);
      SharesSum(budget - n, n);
    }
  }

  // ---------------------------------------------------------------- requests

  datatype Request = Request(dest: Peer, id: Bytes, origin: Peer, pattern: Bytes, budget: nat)

  /** The requests of the first k neighbours: those with a positive share get one. */
  function Requests(neighbours: seq<Peer>, k: nat, id: Bytes, budget: nat, pattern: Bytes, origin: Peer): seq<Request>
    requires k <= |neighbours|
  {
    if k == 0 then []
    else
      var share := Share(budget, |neighbours|, k - 1);
      Requests(neighbours, k - 1, id, budget, pattern, origin)
      + if share > 0 then [Request(neighbours[k - 1], id, origin, pattern, share)] else []
  }

  /** Neighbours, and the first of them the socket fails to send to, if any. */
  datatype Routes = Routes(neighbours: seq<Peer>, broken: nat)

  predicate Fails(to: Routes, budget: nat) {
    to.broken < |to.neighbours| && Share(budget, |to.neighbours|, to.broken) > 0
  }

  /** The requests that go out: all of them, or those before the failing send. */
  function Forwarded(to: Routes, id: Bytes, budget: nat, pattern: Bytes, origin: Peer): seq<Request> {
    Requests(to.neighbours, if Fails(to, budget) then to.broken else |to.neighbours|, id, budget, pattern, origin)
  }

  method SendSearchReq(to: Routes, id: Bytes, budget: nat, pattern: Bytes, origin: Peer)
    returns (sent: seq<Request>, failed: bool)
    ensures sent == Forwarded(to, id, budget, pattern, origin) && failed == Fails(to, budget)
    ensures |sent| == Min(to.broken, Min(|to.neighbours|, budget))
    ensures forall i :: 0 <= i < |sent| ==>
      sent[i] == Request(to.neighbours[i], id, origin, pattern, Part(budget, |to.neighbours|, i))
  {
    SentExactly(to, id, budget, pattern, origin);
    var neighbours := to.neighbours;
    sent, failed := [], false;
    if |neighbours| <= 0 {
      return;
    }
    var distribution := Distribute(|neighbours|, budget);
    for i := 0 to |neighbours|
      invariant sent == Requests(neighbours, i, id, budget, pattern, origin)
      invariant to.broken < i ==> !Fails(to, budget)
    {
      if distribution[i] > 0 {
        if i == to.broken {
          return sent, true;
        }
        sent := sent + [Request(neighbours[i], id, origin, pattern, distribution[i])];
      }
    }
  }

  function Total(rs: seq<Request>): nat {
    if rs == [] then 0 else Total(rs[..|rs| - 1]) + rs[|rs| - 1].budget
  }

  lemma {:induction false} TotalAppend(a: seq<Request>, b: seq<Request>)
    ensures Total(a + b) == Total(a) + Total(b)
    decreases |b|
  {
    if b == [] {
      assert a + b == a;
    } else {
      assert (a + b)[..|a + b| - 1] == a + b[..|b| - 1];
      TotalAppend(a, b[..|b| - 1]);
    }
  }

  lemma TotalOneMore(rs: seq<Request>, more: seq<Request>)
    requires |more| <= 1
    ensures Total(rs + more) == Total(rs) + if more == [] then 0 else more[0].budget
  {
    if more == [] {
      assert rs + more == rs;
    } else {
      assert (rs + more)[..|rs|] == rs;
    }
  }

  lemma {:induction false} TotalOfRequests(neighbours: seq<Peer>, k: nat, id: Bytes, budget: nat, pattern: Bytes,
                                           origin: Peer)
    requires k <= |neighbours|
    ensures Total(Requests(neighbours, k, id, budget, pattern, origin)) == SumShares(budget, |neighbours|, k)
    decreases k
  {
    hide Total, Share;
    if k > 0 {
      TotalOfRequests(neighbours, k - 1, id, budget, pattern, origin);
      var before := Requests(neighbours, k - 1, id, budget, pattern, origin);
      var share := Share(budget, |neighbours|, k - 1);
      TotalOneMore(before, if share > 0 then [Request(neighbours[k - 1], id, origin, pattern, share)] else []);
    } else {
      NoTotal();
    }
  }

  lemma NoTotal()
    ensures Total([]) == 0
  {
  }

  lemma {:induction false} FieldsOfRequests(neighbours: seq<Peer>, k: nat, id: Bytes, budget: nat, pattern: Bytes,
                                            origin: Peer)
    requires k <= |neighbours|
    ensures forall r :: r in Requests(neighbours, k, id, budget, pattern, origin) ==>
      r.budget >= 1 && r.id == id && r.pattern == pattern && r.origin == origin && r.dest in neighbours
    decreases k
  {
    hide Share;
    if k > 0 {
      FieldsOfRequests(neighbours, k - 1, id, budget, pattern, origin);
    }
  }

  lemma {:induction false} SumGrows(budget: nat, n: nat, j: nat, k: nat)
    requires j <= k <= n
    ensures SumShares(budget, n, j) <= SumShares(budget, n, k)
    decreases k
  {
    if j < k {
      SumGrows(budget, n, j, k - 1);
    }
  }

  /** What is sent out carries the whole budget if there is a neighbour and no send fails, and
      never more than the budget. */
  lemma SentBudget(to: Routes, id: Bytes, budget: nat, pattern: Bytes, origin: Peer)
    ensures Total(Forwarded(to, id, budget, pattern, origin)) <= budget
    ensures to.neighbours != [] && !Fails(to, budget) ==> Total(Forwarded(to, id, budget, pattern, origin)) == budget
    ensures forall r :: r in Forwarded(to, id, budget, pattern, origin) ==>
      r.budget >= 1 && r.id == id && r.pattern == pattern && r.origin == origin && r.dest in to.neighbours
  {
    var n := |to.neighbours|;
    var k := if Fails(to, budget) then to.broken else n;
    TotalOfRequests(to.neighbours, k, id, budget, pattern, origin);
    FieldsOfRequests(to.neighbours, k, id, budget, pattern, origin);
    if n > 0 {
      SharesSum(budget, n);
      SumGrows(budget, n, k, n);
    }
  }

  /** The i-th neighbour's part of the budget. */
  function Part(budget: nat, n: nat, i: nat): nat
    requires n > 0
  {
    budget / n + if i < budget % n then 1 else 0
  }

  /** Round-robin serves the first neighbours: those below the budget. */
  lemma PositiveParts(budget: nat, n: nat, i: nat)
    requires i < n
    ensures Share(budget, n, i) == Part(budget, n, i)
    ensures Part(budget, n, i) > 0 <==> i < budget
  {
    ShareIsDivision(budget, n, i);
    if budget < n {
      assert budget / n == 0 && budget % n == budget;
    } else {
      assert budget / n >= 1;
    }
  }

  function Min(a: nat, b: nat): nat {
    if a <= b then a else b
  }

  lemma {:induction false} RequestAt(neighbours: seq<Peer>, k: nat, id: Bytes, budget: nat, pattern: Bytes,
                                     origin: Peer)
    requires k <= |neighbours|
    ensures var sent := Requests(neighbours, k, id, budget, pattern, origin);
      && |sent| == Min(k, budget)
      && forall i :: 0 <= i < |sent| ==>
           sent[i] == Request(neighbours[i], id, origin, pattern, Part(budget, |neighbours|, i))
    decreases k
  {
    if k > 0 {
      RequestAt(neighbours, k - 1, id, budget, pattern, origin);
      PositiveParts(budget, |neighbours|, k - 1);
    }
  }

  /** What is sent, one by one: request i goes to neighbour i and carries its part of the budget.
      Neighbours are served in order, as long as there is budget, up to a failing send, which is
      reported exactly if the broken neighbour was to be served. */
  lemma SentExactly(to: Routes, id: Bytes, budget: nat, pattern: Bytes, origin: Peer)
    ensures var sent, n := Forwarded(to, id, budget, pattern, origin), |to.neighbours|;
      && |sent| == Min(to.broken, Min(n, budget))
      && (forall i :: 0 <= i < |sent| ==>
           sent[i] == Request(to.neighbours[i], id, origin, pattern, Part(budget, n, i)) && sent[i].budget > 0)
      && (Fails(to, budget) <==> to.broken < Min(n, budget))
  {
    var n := |to.neighbours|;
    if to.broken < n {
      PositiveParts(budget, n, to.broken);
    }
    RequestAt(to.neighbours, if Fails(to, budget) then to.broken else n, id, budget, pattern, origin);
    forall i | 0 <= i < Min(n, budget) ensures Part(budget, n, i) > 0 {
      PositiveParts(budget, n, i);
    }
  }

  // ---------------------------------------------------------------- answers

  /** regexp: does the pattern match the name? */
  type Matcher = (Bytes, Bytes) -> bool

  /** The naming and blob stores of a peer. */
  datatype Shelf = Shelf(names: map<Bytes, Bytes>, blobs: map<Bytes, Bytes>)

  datatype FileInfo = FileInfo(name: Bytes, metahash: Bytes, chunks: seq<Option<Bytes>>)

  /** The peer holds the metafile of the name and every chunk named in it. */
  predicate FullyKnows(s: Shelf, name: Bytes) {
    && name in s.names && s.names[name] in s.blobs
    && forall k :: k in Split(s.blobs[s.names[name]]) ==> k in s.blobs
  }

  /** The names a search request selects, in the order the naming store is visited. */
  predicate Selected(matcher: Matcher, pattern: Bytes, s: Shelf, name: Bytes) {
    name in s.names && matcher(pattern, name) && s.names[name] in s.blobs
  }

  function Chunks(s: Shelf, keys: seq<Bytes>): (r: seq<Option<Bytes>>)
    ensures |r| == |keys|
    ensures forall i :: 0 <= i < |keys| ==> r[i] == if keys[i] in s.blobs then Some(keys[i]) else None
  {
    seq(|keys|, i requires 0 <= i < |keys| => if keys[i] in s.blobs then Some(keys[i]) else None)
  }

  function InfoOf(s: Shelf, name: Bytes): FileInfo
    requires name in s.names && s.names[name] in s.blobs
  {
    FileInfo(name, s.names[name], Chunks(s, Split(s.blobs[s.names[name]])))
  }

  /** The responses built for a request, visiting the names in `order`. */
  function Responses(matcher: Matcher, pattern: Bytes, s: Shelf, order: seq<Bytes>): seq<FileInfo> {
    if order == [] then []
    else Responses(matcher, pattern, s, order[..|order| - 1])
         + if Selected(matcher, pattern, s, order[|order| - 1]) then [InfoOf(s, order[|order| - 1])] else []
  }

  /** ExecSearchRequestMessage collects the names, sendReplyMsg looks up their chunks. */
  method BuildReply(matcher: Matcher, pattern: Bytes, s: Shelf, order: seq<Bytes>) returns (responses: seq<FileInfo>)
    requires forall i :: 0 <= i < |order| ==> order[i] in s.names
    ensures responses == Responses(matcher, pattern, s, order)
  {
    responses := [];
    for i := 0 to |order|
      invariant responses == Responses(matcher, pattern, s, order[..i])
    {
      assert order[..i + 1][..i] == order[..i];
      var name := order[i];
      if matcher(pattern, name) && s.names[name] in s.blobs {
        var metafile := s.blobs[s.names[name]];
        var chunkList := Split(metafile);
        var chunks: seq<Option<Bytes>> := seq(|chunkList|, _ => None);
        for j := 0 to |chunkList|
          invariant |chunks| == |chunkList|
          invariant forall l :: 0 <= l < j ==> chunks[l] == if chunkList[l] in s.blobs then Some(chunkList[l]) else None
          invariant forall l :: j <= l < |chunkList| ==> chunks[l] == None
        {
          if chunkList[j] in s.blobs {
            chunks := chunks[j := Some(chunkList[j])];
          }
        }
        assert chunks == Chunks(s, chunkList);
        responses := responses + [FileInfo(name, s.names[name], chunks)];
      }
    }
    assert order[..|order|] == order;
  }

  predicate Complete(info: FileInfo) {
    forall i :: 0 <= i < |info.chunks| ==> info.chunks[i].Some?
  }

  /** The name checkAvailabilityAndTrigger sends to SearchFirst: that of the first response
      without a missing chunk. */
  function Trigger(responses: seq<FileInfo>): Option<Bytes> {
    if responses == [] then None
    else if Complete(responses[0]) then Some(responses[0].name)
    else Trigger(responses[1..])
  }

  method CheckAvailability(responses: seq<FileInfo>) returns (filename: Option<Bytes>)
    ensures filename == Trigger(responses)
  {
    filename := None;
    for i := 0 to |responses|
      invariant if filename.Some? then Trigger(responses) == filename else Trigger(responses) == Trigger(responses[i..])
    {
      var noMissingChunk := true;
      var chunks := responses[i].chunks;
      for j := 0 to |chunks|
        invariant noMissingChunk
        invariant forall l :: 0 <= l < j ==> chunks[l].Some?
      {
        if chunks[j].None? {
          noMissingChunk := false;
          break;
        }
      }
      assert noMissingChunk <==> Complete(responses[i]);
      assert responses[i..][1..] == responses[i + 1..];
      if noMissingChunk && filename.None? {
        filename := Some(responses[i].name);
      }
    }
  }

  /** Response i is the first complete one. */
  ghost predicate FirstComplete(responses: seq<FileInfo>, i: nat) {
    && i < |responses| && Complete(responses[i])
    && forall l :: 0 <= l < i ==> !Complete(responses[l])
  }

  /** The first complete response wins. */
  lemma {:induction false} FirstCompleteWins(responses: seq<FileInfo>, i: nat)
    requires FirstComplete(responses, i)
    ensures Trigger(responses) == Some(responses[i].name)
    decreases i
  {
    if i > 0 {
      assert !Complete(responses[0]);
      FirstCompleteWins(responses[1..], i - 1);
    }
  }

  lemma {:induction false} TriggerPicks(responses: seq<FileInfo>)
    ensures Trigger(responses).Some? ==>
      exists i :: 0 <= i < |responses| && Complete(responses[i]) && responses[i].name == Trigger(responses).value
    ensures Trigger(responses).None? ==> forall i :: 0 <= i < |responses| ==> !Complete(responses[i])
    decreases |responses|
  {
    if responses != [] && !Complete(responses[0]) {
      TriggerPicks(responses[1..]);
      if Trigger(responses).Some? {
        var rest := responses[1..];
        var i :| 0 <= i < |rest| && Complete(rest[i]) && rest[i].name == Trigger(responses).value;
        assert Complete(responses[i + 1]);
      } else {
        forall i | 0 <= i < |responses| ensures !Complete(responses[i]) {
          assert i > 0 ==> !Complete(responses[1..][i - 1]);
        }
      }
    }
  }

  lemma {:induction false} ResponsesAre(matcher: Matcher, pattern: Bytes, s: Shelf, order: seq<Bytes>, info: FileInfo)
    ensures info in Responses(matcher, pattern, s, order)
            <==> && info.name in order && info.name in s.names && s.names[info.name] in s.blobs
                 && matcher(pattern, info.name) && info == InfoOf(s, info.name)
    decreases |order|
  {
    if order != [] {
      ResponsesAre(matcher, pattern, s, order[..|order| - 1], info);
      assert order == order[..|order| - 1] + [order[|order| - 1]];
    }
  }

  /** The names an answer is about: those visited that the request selects, in that order. */
  function SelectedNames(matcher: Matcher, pattern: Bytes, s: Shelf, order: seq<Bytes>): seq<Bytes>
    decreases |order|
  {
    if order == [] then []
    else (if Selected(matcher, pattern, s, order[0]) then [order[0]] else [])
         + SelectedNames(matcher, pattern, s, order[1..])
  }

  lemma {:induction false} SelectedAppend(matcher: Matcher, pattern: Bytes, s: Shelf, order: seq<Bytes>, name: Bytes)
    ensures SelectedNames(matcher, pattern, s, order + [name])
            == SelectedNames(matcher, pattern, s, order) + if Selected(matcher, pattern, s, name) then [name] else []
    decreases |order|
  {
    if order == [] {
      assert [name][1..] == [] && order + [name] == [name];
    } else {
      assert (order + [name])[1..] == order[1..] + [name];
      SelectedAppend(matcher, pattern, s, order[1..], name);
    }
  }

  /** What an answer says of a name: the metahash it is bound to, and of each key of its metafile
      whether the chunk is held. */
  ghost predicate Describes(info: FileInfo, s: Shelf, name: Bytes)
    requires name in s.names && s.names[name] in s.blobs
  {
    var keys := Split(s.blobs[s.names[name]]);
    && info.name == name && info.metahash == s.names[name] && |info.chunks| == |keys|
    && forall i :: 0 <= i < |keys| ==> info.chunks[i] == if keys[i] in s.blobs then Some(keys[i]) else None
  }

  /** An answer describes the selected names, one by one, in the order they are visited. */
  lemma {:induction false} AnswerDescribes(matcher: Matcher, pattern: Bytes, s: Shelf, order: seq<Bytes>)
    ensures var rs, names := Responses(matcher, pattern, s, order), SelectedNames(matcher, pattern, s, order);
      && |rs| == |names|
      && forall i :: 0 <= i < |rs| ==> Selected(matcher, pattern, s, names[i]) && Describes(rs[i], s, names[i])
    decreases |order|
  {
    if order != [] {
      var init, last := order[..|order| - 1], order[|order| - 1];
      assert order == init + [last];
      SelectedAppend(matcher, pattern, s, init, last);
      AnswerDescribes(matcher, pattern, s, init);
    }
  }

  lemma CompleteMeansKnown(s: Shelf, name: Bytes)
    requires name in s.names && s.names[name] in s.blobs
    ensures Complete(InfoOf(s, name)) <==> FullyKnows(s, name)
  {
    var keys := Split(s.blobs[s.names[name]]);
    if Complete(InfoOf(s, name)) {
      forall k | k in keys ensures k in s.blobs {
        var i :| 0 <= i < |keys| && keys[i] == k;
        assert InfoOf(s, name).chunks[i].Some?;
      }
    }
  }

  /** An answer makes SearchFirst return a name only if the name matches and the answering
      peer held the metafile and every chunk; and it does so whenever such a name exists. */
  lemma AnswerIsSoundAndComplete(matcher: Matcher, pattern: Bytes, s: Shelf, order: seq<Bytes>)
    requires forall name :: name in s.names ==> name in order
    ensures var t := Trigger(Responses(matcher, pattern, s, order));
      && (t.Some? ==> matcher(pattern, t.value) && FullyKnows(s, t.value))
      && (t.None? ==> forall name :: !(matcher(pattern, name) && FullyKnows(s, name)))
  {
    var rs := Responses(matcher, pattern, s, order);
    TriggerPicks(rs);
    if Trigger(rs).Some? {
      var i :| 0 <= i < |rs| && Complete(rs[i]) && rs[i].name == Trigger(rs).value;
      ResponsesAre(matcher, pattern, s, order, rs[i]);
      CompleteMeansKnown(s, rs[i].name);
    } else {
      forall name ensures !(matcher(pattern, name) && FullyKnows(s, name)) {
        if matcher(pattern, name) && FullyKnows(s, name) {
          ResponsesAre(matcher, pattern, s, order, InfoOf(s, name));
          CompleteMeansKnown(s, name);
          assert false;
        }
      }
    }
  }

  // ---------------------------------------------------------------- local search

  /** localFullyKnowsFile, visiting the names in `order`. The visit stops at the first name
      that does not match the pattern. */
  function LocalSearch(matcher: Matcher, pattern: Bytes, s: Shelf, order: seq<Bytes>): Bytes
    decreases |order|
  {
    if order == [] || !matcher(pattern, order[0]) then ""
    else if FullyKnows(s, order[0]) then order[0]
    else LocalSearch(matcher, pattern, s, order[1..])
  }

  method LocalFullyKnowsFile(matcher: Matcher, pattern: Bytes, s: Shelf, order: seq<Bytes>) returns (file: Bytes)
    requires forall i :: 0 <= i < |order| ==> order[i] in s.names
    ensures file == LocalSearch(matcher, pattern, s, order)
  {
    file := "";
    for i := 0 to |order|
      invariant file == ""
      invariant LocalSearch(matcher, pattern, s, order) == LocalSearch(matcher, pattern, s, order[i..])
    {
      assert order[i..][1..] == order[i + 1..];
      var key := order[i];
      if !matcher(pattern, key) {
        return;
      }
      var val := s.names[key];
      if val in s.blobs {
        var chunkList := Split(s.blobs[val]);
        var entire := true;
        for j := 0 to |chunkList|
          invariant entire
          invariant forall l :: 0 <= l < j ==> chunkList[l] in s.blobs
        {
          if chunkList[j] !in s.blobs {
            entire := false;
            break;
          }
        }
        if entire {
          return key;
        }
      }
    }
  }

  lemma {:induction false} LocalSearchSound(matcher: Matcher, pattern: Bytes, s: Shelf, order: seq<Bytes>)
    ensures var name := LocalSearch(matcher, pattern, s, order);
      name != "" ==> matcher(pattern, name) && FullyKnows(s, name)
    decreases |order|
  {
    if order != [] {
      LocalSearchSound(matcher, pattern, s, order[1..]);
    }
  }

  /** The result is the first name that is fully known, if all names visited before it match. */
  lemma {:induction false} LocalSearchFinds(matcher: Matcher, pattern: Bytes, s: Shelf, order: seq<Bytes>, i: nat)
    requires i < |order| && FullyKnows(s, order[i])
    requires forall j :: 0 <= j <= i ==> matcher(pattern, order[j])
    requires forall j :: 0 <= j < i ==> !FullyKnows(s, order[j])
    ensures LocalSearch(matcher, pattern, s, order) == order[i]
    decreases i
  {
    if i > 0 {
      assert matcher(pattern, order[0]) && !FullyKnows(s, order[0]);
      LocalSearchFinds(matcher, pattern, s, order[1..], i - 1);
    }
  }

  /** An order in which Go may visit a set of names. */
  ghost predicate VisitOf(order: seq<Bytes>, names: set<Bytes>) {
    && (forall i :: 0 <= i < |order| ==> order[i] in names)
    && (forall x :: x in names ==> x in order)
    && (forall i, j :: 0 <= i < j < |order| ==> order[i] != order[j])
  }

  lemma {:induction false} SomeVisit(names: set<Bytes>) returns (order: seq<Bytes>)
    ensures VisitOf(order, names)
    decreases names
  {
    order := [];
    if names != {} {
      var x :| x in names;
      var rest := SomeVisit(names - {x});
      order := [x] + rest;
    }
  }

  lemma {:induction false} AllMatchFinds(matcher: Matcher, pattern: Bytes, s: Shelf, order: seq<Bytes>, name: Bytes)
    requires forall i :: 0 <= i < |order| ==> order[i] != "" && matcher(pattern, order[i])
    requires name in order && FullyKnows(s, name)
    ensures LocalSearch(matcher, pattern, s, order) != ""
    decreases |order|
  {
    if order[0] != name {
      AllMatchFinds(matcher, pattern, s, order[1..], name);
    }
  }

  /** When a matching name is fully known locally, the local search finds one in every visit
      order if and only if every stored name matches the pattern: any other name makes the
      search give up when it is visited first. */
  lemma LocalSearchDependsOnOrder(matcher: Matcher, pattern: Bytes, s: Shelf, name: Bytes)
    requires "" !in s.names && matcher(pattern, name) && FullyKnows(s, name)
    ensures (forall order :: VisitOf(order, s.names.Keys) ==> LocalSearch(matcher, pattern, s, order) != "")
            <==> (forall x :: x in s.names ==> matcher(pattern, x))
  {
    if forall x :: x in s.names ==> matcher(pattern, x) {
      forall order | VisitOf(order, s.names.Keys) ensures LocalSearch(matcher, pattern, s, order) != "" {
        AllMatchFinds(matcher, pattern, s, order, name);
      }
    } else {
      var x :| x in s.names && !matcher(pattern, x);
      var rest := SomeVisit(s.names.Keys - {x});
      assert VisitOf([x] + rest, s.names.Keys);
      assert LocalSearch(matcher, pattern, s, [x] + rest) == "";
    }
  }
}
