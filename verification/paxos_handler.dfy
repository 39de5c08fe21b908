/** The Paxos handler of a node, updated in place by its lock-held methods. */
module PaxosHandler {
  import opened Common
  import opened Text
  import opened Blockchain
  import opened PaxosSpec

  /** A turn of catchUp leaves fewer steps ahead, and its result is that of the rest. */
  lemma CatchUpTurn(c: Conf, h: Handler)
    requires 1 <= c.threshold <= |Filed(h.tlcs, h.step)|
    ensures PaxosSpec.CatchUp(c, h) == PaxosSpec.CatchUp(c, CatchUpOnce(c, h))
    ensures Ahead(CatchUpOnce(c, h)) < Ahead(h)
  {
    assert h.step in Ahead(h) && h.step !in Ahead(CatchUpOnce(c, h));
  }

  lemma CatchUpEnds(c: Conf, h: Handler)
    requires c.threshold >= 1 && |Filed(h.tlcs, h.step)| < c.threshold
    ensures PaxosSpec.CatchUp(c, h) == h
  {
  }

  class PaxosNode {
    const conf: Conf
    var running: bool
    var step: nat
    var maxID: nat
    var bestID: nat
    var acceptedID: nat
    var promises: nat
    var currentPhase: Phase
    var paxosID: nat
    var nPeers: nat
    var threshold: nat
    var bestValue: PaxosValue
    var acceptedValue: PaxosValue
    var proposedValue: PaxosValue
    var finalValue: PaxosValue
    var acceptedValues: map<PaxosValue, nat>
    var tlcMap: map<nat, seq<Block>>
    // the values waiting in promiseChannel
    var promiseChannel: seq<PaxosValue>
    var blockchainStore: BlockStore
    var namingStore: NameStore

    /** The configuration is re-read at every clearInstance and never changes. */
    ghost predicate Valid()
      reads this
    {
      nPeers == conf.totalPeers && threshold == conf.threshold >= 1
    }

    ghost function State(): Handler
      reads this
    {
      Handler(running, step, maxID, bestID, acceptedID, promises, currentPhase, paxosID,
              bestValue, acceptedValue, proposedValue, finalValue,
              acceptedValues, tlcMap, blockchainStore, namingStore)
    }

    constructor (conf: Conf)
      requires conf.threshold >= 1
      ensures Valid() && this.conf == conf
      ensures State() == NewHandler(conf) && promiseChannel == []
    {
      this.conf := conf;
      running, step, maxID, bestID, acceptedID, promises := false, 0, 0, 0, 0, 0;
      currentPhase, paxosID, nPeers, threshold := Phase1, conf.paxosID, conf.totalPeers, conf.threshold;
      bestValue, acceptedValue, proposedValue, finalValue := NO_VALUE, NO_VALUE, NO_VALUE, NO_VALUE;
      acceptedValues, tlcMap, promiseChannel := map[], map[], [];
      blockchainStore, namingStore := map[], map[];
    }

    /** initPaxosInstance: true when an instance was already running. */
    method InitPaxosInstance() returns (busy: bool)
      modifies this`running
      ensures busy == old(running)
      ensures State() == old(State()).(running := true)
    {
      busy := running;
      running := true;
    }

    method ClearInstance()
      requires Valid()
      modifies this
      ensures Valid() && promiseChannel == []
      ensures State() == PaxosSpec.ClearInstance(conf, old(State()))
    {
      ClearAcceptor();
      ClearProposer();
      ReadConf();
    }

    // the resets of clearInstance, in three groups

    method ClearAcceptor()
      modifies this`running, this`maxID, this`acceptedID, this`acceptedValue, this`acceptedValues, this`tlcMap
      ensures !running && maxID == acceptedID == 0 && acceptedValue == NO_VALUE
      ensures acceptedValues == map[] && tlcMap == map[]
    {
      running, maxID, acceptedID, acceptedValue := false, 0, 0, NO_VALUE;
      acceptedValues, tlcMap := map[], map[];
    }

    method ClearProposer()
      modifies this`bestID, this`promises, this`currentPhase, this`bestValue, this`proposedValue, this`promiseChannel
      ensures promiseChannel == []
      ensures bestID == promises == 0 && currentPhase == Phase1
      ensures bestValue == proposedValue == NO_VALUE
    {
      bestID, promises, currentPhase := 0, 0, Phase1;
      bestValue, proposedValue, promiseChannel := NO_VALUE, NO_VALUE, [];
    }

    method ReadConf()
      requires conf.threshold >= 1
      modifies this`paxosID, this`nPeers, this`threshold
      ensures Valid() && State() == old(State()).(paxosID := conf.paxosID)
    {
      paxosID, nPeers, threshold := conf.paxosID, conf.totalPeers, conf.threshold;
    }

    method NextID()
      requires Valid()
      modifies this`paxosID
      ensures State() == PaxosSpec.NextID(conf, old(State()))
    {
      paxosID := paxosID + nPeers;
    }

    method CreatePrepareMessage(source: Peer, value: PaxosValue) returns (msg: Message)
      modifies this`proposedValue, this`currentPhase, this`promises
      ensures Reply(State(), Some(msg)) == CreatePrepare(old(State()), source, value)
    {
      msg := Prepare(step, paxosID, source);
      proposedValue, currentPhase, promises := value, Phase1, 0;
    }

    method CreateProposeMessage(value: PaxosValue) returns (msg: Message)
      ensures msg == CreatePropose(State(), value)
    {
      msg := Propose(step, paxosID, value);
    }

    method RespondToPrepareMsg(msg: Message) returns (promise: Option<Message>)
      requires msg.Prepare?
      modifies this`running, this`maxID
      ensures Reply(State(), promise) == RespondToPrepare(old(State()), msg)
    {
      if step != msg.step {
        return None;
      }
      if msg.id <= 0 || msg.id <= maxID {
        return None;
      }
      running, maxID := true, msg.id;
      var accepted := None;
      if acceptedValue != NO_VALUE {
        accepted := Some(acceptedValue);
      }
      promise := Some(Promise(msg.source, step, msg.id, acceptedID, accepted));
    }

    method RespondToProposeMsg(msg: Message) returns (accept: Option<Message>)
      requires msg.Propose?
      modifies this`running, this`acceptedID, this`acceptedValue
      ensures Reply(State(), accept) == RespondToPropose(old(State()), msg)
    {
      if step != msg.step {
        return None;
      }
      if msg.id != maxID {
        return None;
      }
      running := true;
      if acceptedValue == NO_VALUE {
        acceptedID, acceptedValue := msg.id, msg.value;
      }
      accept := Some(Accept(step, msg.id, msg.value));
    }

    method RespondToPromiseMsg(msg: Message)
      requires Valid() && msg.Promise? && !NilDereference(State(), msg)
      modifies this`promises, this`bestID, this`bestValue, this`currentPhase, this`promiseChannel
      ensures State() == RespondToPromise(conf, old(State()), msg).h
      ensures promiseChannel == match RespondToPromise(conf, old(State()), msg).offer
                                case Some(v) => old(promiseChannel) + [v]
                                case None => old(promiseChannel)
    {
      if step != msg.step {
        return;
      }
      if currentPhase != Phase1 {
        return;
      }
      CountPromiseMsg(msg);
      if promises >= threshold {
        currentPhase := Phase2;
        if bestID != 0 {
          promiseChannel := promiseChannel + [bestValue];
        } else {
          promiseChannel := promiseChannel + [proposedValue];
        }
      }
    }

    method RespondToAcceptMsg(msg: Message) returns (tlc: Option<Message>)
      requires Valid() && msg.Accept?
      modifies this
      ensures Valid() && Reply(State(), tlc) == RespondToAccept(conf, old(State()), msg)
      ensures promiseChannel == if tlc.Some? then [] else old(promiseChannel)
    {
      if step != msg.step {
        return None;
      }
      var count := CountAccept(msg.value);
      if count < threshold {
        return None;
      }
      var block := BuildBlock(msg.value);
      tlc := Some(TLC(step, block));
      LeaveStep(block);
    }

    method RespondToTLCMsg(msg: Message) returns (again: Option<Message>)
      requires Valid() && msg.TLC?
      modifies this
      ensures Valid() && Reply(State(), again) == RespondToTLC(conf, old(State()), msg)
      ensures promiseChannel == if again.Some? then [] else old(promiseChannel)
    {
      if step > msg.step {
        return None;
      }
      FileTLCMsg(msg);
      if msg.step == step {
        running := true;
        if |tlcMap[step]| >= threshold {
          LeaveStep(msg.block);
          return Some(msg);
        }
      }
      again := None;
    }

    // promises++, and the best value
    method CountPromiseMsg(msg: Message)
      requires msg.Promise? && (msg.acceptedID > bestID ==> msg.acceptedValue.Some?)
      modifies this`promises, this`bestID, this`bestValue
      ensures promises == old(promises) + 1
      ensures bestID == if msg.acceptedID > old(bestID) then msg.id else old(bestID)
      ensures bestValue == if msg.acceptedID > old(bestID) then msg.acceptedValue.value else old(bestValue)
    {
      promises := promises + 1;
      if msg.acceptedID > bestID {
        bestID := msg.id;
        bestValue := msg.acceptedValue.value;
      }
    }

    // acceptedValues[msg.Value]++
    method CountAccept(value: PaxosValue) returns (count: nat)
      modifies this`running, this`acceptedValues
      ensures State() == PaxosSpec.CountAccept(old(State()), value)
      ensures count == Count(old(acceptedValues), value) + 1
    {
      count := (if value in acceptedValues then acceptedValues[value] else 0) + 1;
      running := true;
      acceptedValues := acceptedValues[value := count];
    }

    // TLCMap[msg.Step] = append(TLCMap[msg.Step], msg)
    method FileTLCMsg(msg: Message)
      requires msg.TLC?
      modifies this`tlcMap
      ensures tlcMap == old(tlcMap)[msg.step := Filed(old(tlcMap), msg.step) + [msg.block]]
    {
      var filed := if msg.step in tlcMap then tlcMap[msg.step] else [];
      tlcMap := tlcMap[msg.step := filed + [msg.block]];
    }

    // the way out of a step that both handlers take
    method LeaveStep(block: Block)
      requires Valid()
      modifies this
      ensures Valid() && State() == Leave(conf, old(State()), block)
      ensures promiseChannel == []
    {
      StoreBlock(block);
      finalValue, step := block.value, step + 1;
      CatchUp();
      ClearInstance();
    }

    method BuildBlock(value: PaxosValue) returns (block: Block)
      modifies this`finalValue
      ensures State() == old(State()).(finalValue := value)
      ensures block == NextBlock(conf, old(State()), value)
    {
      finalValue := value;
      var lastBlock := LastHash(blockchainStore);
      var data := Itoa(step);
      data := data + value.uniqID;
      data := data + value.filename;
      data := data + value.metahash;
      data := data + lastBlock;
      block := Block(step, conf.hash(data), value, lastBlock);
    }

    method StoreBlock(block: Block)
      modifies this`blockchainStore, this`namingStore
      ensures State() == PaxosSpec.StoreBlock(old(State()), block)
    {
      blockchainStore := blockchainStore[Hex(block.hash) := Encoded(block)];
      blockchainStore := blockchainStore[LAST_BLOCK_KEY := Raw(block.hash)];
      namingStore := namingStore[block.value.filename := block.value.metahash];
    }

    method CatchUp()
      requires Valid()
      modifies this`step, this`blockchainStore, this`namingStore
      ensures State() == PaxosSpec.CatchUp(conf, old(State()))
    {
      hide PaxosSpec.CatchUp, Ahead;
      while step in tlcMap && |tlcMap[step]| >= threshold
        invariant PaxosSpec.CatchUp(conf, State()) == PaxosSpec.CatchUp(conf, old(State()))
        invariant Valid() && tlcMap == old(tlcMap)
        decreases Ahead(State())
      {
        ghost var before := State();
        CatchUpTurn(conf, before);
        StoreBlock(tlcMap[step][threshold - 1]);
        step := step + 1;
        assert State() == CatchUpOnce(conf, before);
      }
      CatchUpEnds(conf, State());
    }
  }
}
