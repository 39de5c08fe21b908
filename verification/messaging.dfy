/** How a broadcast packet is offered to the neighbours until one of them acknowledges it. */
module Messaging {
  import opened Common

  /** The neighbours that still have to get the packet, in the order they will. */
  function Unsent(neighbours: seq<Peer>, marked: set<Peer>): seq<Peer> {
    if neighbours == [] then []
    else if neighbours[0] in marked then Unsent(neighbours[1..], marked)
    else [neighbours[0]] + Unsent(neighbours[1..], marked + {neighbours[0]})
  }

  /** Each neighbour that was not sent the packet is in the list exactly once. */
  lemma {:induction false} UnsentIsTheRest(neighbours: seq<Peer>, marked: set<Peer>)
    ensures forall x :: x in Unsent(neighbours, marked) <==> x in neighbours && x !in marked
    ensures Distinct(Unsent(neighbours, marked))
    decreases |neighbours|
  {
    if neighbours != [] {
      if neighbours[0] in marked {
        UnsentIsTheRest(neighbours[1..], marked);
      } else {
        UnsentIsTheRest(neighbours[1..], marked + {neighbours[0]});
        assert neighbours[0] !in Unsent(neighbours[1..], marked + {neighbours[0]});
      }
    }
  }

  lemma {:induction false} UnsentAfterOne(neighbours: seq<Peer>, marked: set<Peer>)
    requires Unsent(neighbours, marked) != []
    ensures var u := Unsent(neighbours, marked); Unsent(neighbours, marked + {u[0]}) == u[1..]
    decreases |neighbours|
  {
    if neighbours[0] in marked {
      UnsentAfterOne(neighbours[1..], marked);
    }
  }

  /** The map shared by the sends of one packet. */
  class SentTo {
    var marked: set<Peer>

    constructor (marked: set<Peer>)
      ensures this.marked == marked
    {
      this.marked := marked;
    }

    /** searchNeighbourAndSndPkt: `ok` is what the socket will answer. */
    method SearchNeighbourAndSend(neighbours: seq<Peer>, ok: bool) returns (target: Option<Peer>, stop: bool)
      modifies this
      ensures var u := Unsent(neighbours, old(marked));
        if u == [] then target == None && stop && marked == old(marked)
        else target == Some(u[0]) && stop == !ok && marked == old(marked) + {u[0]}
    {
      for i := 0 to |neighbours|
        invariant marked == old(marked)
        invariant Unsent(neighbours, marked) == Unsent(neighbours[i..], marked)
      {
        assert neighbours[i..][1..] == neighbours[i + 1..];
        if neighbours[i] !in marked {
          marked := marked + {neighbours[i]};
          return Some(neighbours[i]), !ok;
        }
      }
      return None, true;
    }

    /** waitAck: each poll of the channel finds the acknowledgement, or the timeout expired
        and the next neighbour is tried. Without a timeout (`resend` false) it only polls. */
    method WaitAck(neighbours: seq<Peer>, polls: seq<Poll>, resend: bool) returns (targets: seq<Peer>)
      modifies this
      ensures targets <= Unsent(neighbours, old(marked))
      ensures Unsent(neighbours, marked) == Unsent(neighbours, old(marked))[|targets|..]
      ensures !resend ==> targets == [] && marked == old(marked)
      ensures resend ==> |targets| == Min(Tries(polls), |Unsent(neighbours, old(marked))|)
    {
      ghost var all := Unsent(neighbours, marked);
      targets := [];
      for i := 0 to |polls|
        invariant targets <= all && |targets| == if resend then i else 0
        invariant Unsent(neighbours, marked) == all[|targets|..]
        invariant !resend ==> marked == old(marked)
        invariant resend ==> Tries(polls) == i + Tries(polls[i..])
      {
        assert polls[i..][1..] == polls[i + 1..];
        if polls[i].Acked? {
          return;
        }
        if !resend {
          continue;
        }
        if all[i..] != [] {
          UnsentAfterOne(neighbours, marked);
        }
        var target, stop := SearchNeighbourAndSend(neighbours, polls[i].ok);
        if target.Some? {
          targets := targets + [target.value];
        }
        if stop {
          return;
        }
      }
    }
  }

  datatype Poll = Acked | Timeout(ok: bool)

  function Min(a: nat, b: nat): nat {
    if a <= b then a else b
  }

  /** The sends these polls lead to while there is a neighbour: one for each timeout before the
      acknowledgement, up to a send that fails. */
  function Tries(polls: seq<Poll>): nat {
    if polls == [] || polls[0].Acked? then 0 else if !polls[0].ok then 1 else 1 + Tries(polls[1..])
  }

  /** With i timeouts and successful sends first: i sends if then the acknowledgement comes or the
      polls end, one more if the next send fails. */
  lemma {:induction false} TriesExactly(polls: seq<Poll>, i: nat)
    requires i <= |polls| && forall j :: 0 <= j < i ==> polls[j] == Timeout(true)
    ensures i == |polls| || polls[i].Acked? ==> Tries(polls) == i
    ensures i < |polls| && polls[i] == Timeout(false) ==> Tries(polls) == i + 1
    decreases i
  {
    if i > 0 {
      assert polls[0] == Timeout(true);
      TriesExactly(polls[1..], i - 1);
    }
  }
}
