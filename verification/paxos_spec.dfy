/** What each lock-held method of the Paxos handler computes, as a function of the
    handler's state. The class in `PaxosHandler` is proved against these functions and
    the whole-run results in the `Paxos...` modules are about them. */
module PaxosSpec {
  import opened Common
  import opened Text
  import opened Blockchain

  datatype Message =
    | Prepare(step: nat, id: nat, source: Peer)
      // a promise travels inside a private message whose only recipient is `dest`
    | Promise(dest: Peer, step: nat, id: nat, acceptedID: nat, acceptedValue: Option<PaxosValue>)
    | Propose(step: nat, id: nat, value: PaxosValue)
    | Accept(step: nat, id: nat, value: PaxosValue)
    | TLC(step: nat, block: Block)

  /** The part of peer.Configuration the handler reads; `threshold` is
      PaxosThreshold(TotalPeers) and `hash` is SHA-256. */
  datatype Conf = Conf(paxosID: nat, totalPeers: nat, threshold: nat, hash: Bytes -> Bytes)

  datatype Phase = Phase1 | Phase2

  /** The fields of paxosHandler that outlive a call, with the two stores it writes.
      `tlcs` maps a step to the blocks of the TLC messages filed under it. */
  datatype Handler = Handler(
    running: bool, step: nat, maxID: nat, bestID: nat, acceptedID: nat, promises: nat, phase: Phase, paxosID: nat,
    bestValue: PaxosValue, acceptedValue: PaxosValue, proposedValue: PaxosValue, finalValue: PaxosValue,
    acceptedValues: map<PaxosValue, nat>, tlcs: map<nat, seq<Block>>,
    blocks: BlockStore, names: NameStore)

  function NewHandler(c: Conf): Handler {
    Handler(false, 0, 0, 0, 0, 0, Phase1, c.paxosID, NO_VALUE, NO_VALUE, NO_VALUE, NO_VALUE, map[], map[], map[], map[])
  }

  /** Go reads a missing map entry as zero, or as the nil slice. */
  function Count(m: map<PaxosValue, nat>, v: PaxosValue): nat {
    if v in m then m[v] else 0
  }

  function Filed(m: map<nat, seq<Block>>, step: nat): seq<Block> {
    if step in m then m[step] else []
  }

  // ---------------------------------------------------------------- bookkeeping

  function ClearInstance(c: Conf, h: Handler): Handler {
    h.(running := false, maxID := 0, bestID := 0, acceptedID := 0, promises := 0, phase := Phase1, paxosID := c.paxosID,
       bestValue := NO_VALUE, acceptedValue := NO_VALUE, proposedValue := NO_VALUE,
       acceptedValues := map[], tlcs := map[])
  }

  function NextID(c: Conf, h: Handler): Handler {
    h.(paxosID := h.paxosID + c.totalPeers)
  }

  function StoreBlock(h: Handler, block: Block): Handler {
    h.(blocks := PutBlock(h.blocks, block), names := PutName(h.names, block))
  }

  /** Steps from h.step upwards that have a list in the map; the measure of catchUp. */
  ghost function Ahead(h: Handler): set<nat> {
    set s | s in h.tlcs && h.step <= s
  }

  /** One turn of catchUp's loop: the block of the threshold-th message is stored. */
  function CatchUpOnce(c: Conf, h: Handler): Handler
    requires 1 <= c.threshold <= |Filed(h.tlcs, h.step)|
  {
    StoreBlock(h, Filed(h.tlcs, h.step)[c.threshold - 1]).(step := h.step + 1)
  }

  function CatchUp(c: Conf, h: Handler): (r: Handler)
    requires c.threshold >= 1
    ensures r.step >= h.step
    decreases Ahead(h)
  {
    if |Filed(h.tlcs, h.step)| >= c.threshold then
      assert h.step in Ahead(h) && h.step !in Ahead(CatchUpOnce(c, h));
      CatchUp(c, CatchUpOnce(c, h))
    else h
  }

  /** The blocks catchUp stores, oldest first. */
  ghost function Caught(c: Conf, h: Handler): seq<Block>
    requires c.threshold >= 1
    decreases Ahead(h)
  {
    if |Filed(h.tlcs, h.step)| >= c.threshold then
      assert h.step in Ahead(h) && h.step !in Ahead(CatchUpOnce(c, h));
      [Filed(h.tlcs, h.step)[c.threshold - 1]] + Caught(c, CatchUpOnce(c, h))
    else []
  }

  // ---------------------------------------------------------------- proposer

  datatype Reply = Reply(h: Handler, out: Option<Message>)

  function CreatePrepare(h: Handler, source: Peer, value: PaxosValue): Reply {
    Reply(h.(proposedValue := value, phase := Phase1, promises := 0), Some(Prepare(h.step, h.paxosID, source)))
  }

  function CreatePropose(h: Handler, value: PaxosValue): Message {
    Propose(h.step, h.paxosID, value)
  }

  predicate CountsPromise(h: Handler, m: Message)
    requires m.Promise?
  {
    h.step == m.step && h.phase == Phase1
  }

  /** The dereference of a nil AcceptedValue. */
  predicate NilDereference(h: Handler, m: Message)
    requires m.Promise?
  {
    CountsPromise(h, m) && m.acceptedID > h.bestID && m.acceptedValue.None?
  }

  /** The handler after the promise, and the value put on the promise channel, if any. */
  datatype Tally = Tally(h: Handler, offer: Option<PaxosValue>)

  function RespondToPromise(c: Conf, h: Handler, m: Message): Tally
    requires m.Promise? && !NilDereference(h, m)
  {
    if !CountsPromise(h, m) then Tally(h, None)
    else
      var better := m.acceptedID > h.bestID;
      var h1 := h.(promises := h.promises + 1,
                   bestID := if better then m.id else h.bestID,
                   bestValue := if better then m.acceptedValue.value else h.bestValue);
      if h1.promises < c.threshold then Tally(h1, None)
      else Tally(h1.(phase := Phase2), Some(if h1.bestID != 0 then h1.bestValue else h1.proposedValue))
  }

  // ---------------------------------------------------------------- acceptor

  function RespondToPrepare(h: Handler, m: Message): Reply
    requires m.Prepare?
  {
    if h.step != m.step || m.id <= 0 || m.id <= h.maxID then Reply(h, None)
    else
      Reply(h.(running := true, maxID := m.id),
            Some(Promise(m.source, h.step, m.id, h.acceptedID,
                         if h.acceptedValue != NO_VALUE then Some(h.acceptedValue) else None)))
  }

  function RespondToPropose(h: Handler, m: Message): Reply
    requires m.Propose?
  {
    if h.step != m.step || m.id != h.maxID then Reply(h, None)
    else
      var h1 := if h.acceptedValue == NO_VALUE then h.(acceptedID := m.id, acceptedValue := m.value) else h;
      Reply(h1.(running := true), Some(Accept(h.step, m.id, m.value)))
  }

  // ---------------------------------------------------------------- learner

  predicate Decides(c: Conf, h: Handler, m: Message)
    requires m.Accept?
  {
    h.step == m.step && Count(h.acceptedValues, m.value) + 1 >= c.threshold
  }

  function NextBlock(c: Conf, h: Handler, value: PaxosValue): Block {
    BuildBlock(c.hash, h.step, value, LastHash(h.blocks))
  }

  function CountAccept(h: Handler, value: PaxosValue): Handler {
    h.(running := true, acceptedValues := h.acceptedValues[value := Count(h.acceptedValues, value) + 1])
  }

  function Commit(h: Handler, block: Block): Handler {
    StoreBlock(h, block).(finalValue := block.value, step := h.step + 1)
  }

  /** Leaving the current step with `block`: store it, catch up, clear the instance. */
  function Leave(c: Conf, h: Handler, block: Block): Handler
    requires c.threshold >= 1
  {
    ClearInstance(c, CatchUp(c, Commit(h, block)))
  }

  /** The blocks a node stores on its way out of a step. */
  ghost function Stored(c: Conf, h: Handler, block: Block): seq<Block>
    requires c.threshold >= 1
  {
    [block] + Caught(c, Commit(h, block))
  }

  function RespondToAccept(c: Conf, h: Handler, m: Message): Reply
    requires m.Accept? && c.threshold >= 1
  {
    if h.step != m.step then Reply(h, None)
    else
      var h1 := CountAccept(h, m.value);
      if !Decides(c, h, m) then Reply(h1, None)
      else Reply(Leave(c, h1, NextBlock(c, h, m.value)), Some(TLC(h.step, NextBlock(c, h, m.value))))
  }

  function FileTLC(h: Handler, m: Message): Handler
    requires m.TLC?
  {
    h.(running := h.running || m.step == h.step, tlcs := h.tlcs[m.step := Filed(h.tlcs, m.step) + [m.block]])
  }

  predicate Learns(c: Conf, h: Handler, m: Message)
    requires m.TLC?
  {
    m.step == h.step && |Filed(h.tlcs, m.step)| + 1 >= c.threshold
  }

  /** The message to broadcast again, when this one completed the step. */
  function RespondToTLC(c: Conf, h: Handler, m: Message): Reply
    requires m.TLC? && c.threshold >= 1
  {
    if h.step > m.step then Reply(h, None)
    else
      var h1 := FileTLC(h, m);
      if !Learns(c, h, m) then Reply(h1, None)
      else Reply(Leave(c, h1, m.block), Some(m))
  }
}
