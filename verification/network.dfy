/** The service the gossip log offers to the Paxos layer: what was broadcast, in order, and
    which messages each node has handled. A node handles each message at most once. */
module Network {
  datatype Net<M> = Net(sent: seq<(nat, M)>, handled: seq<set<nat>>)

  ghost predicate Posts<M(!new)>(a: Net<M>, b: Net<M>) {
    exists e :: b == Net(a.sent + [e], a.handled)
  }

  /** Node n handles message k for the first time. */
  ghost predicate Delivers<M>(a: Net<M>, b: Net<M>, n: nat, k: nat) {
    && n < |a.handled| && k < |a.sent| && k !in a.handled[n]
    && b == a.(handled := a.handled[n := a.handled[n] + {k}])
  }

  ghost predicate NetStep<M(!new)>(a: Net<M>, b: Net<M>) {
    b == a || Posts(a, b) || exists n: nat, k: nat :: Delivers(a, b, n, k)
  }
}
