/** The blocks written by `storeBlock`, the key/value store that holds them, and the
    backwards walk that reads them. */
module Blockchain {
  import opened Common
  import opened Text

  datatype PaxosValue = PaxosValue(uniqID: Bytes, filename: Bytes, metahash: Bytes)

  const NO_VALUE := PaxosValue("", "", "")

  datatype Block = Block(index: nat, hash: Bytes, value: PaxosValue, prevHash: Bytes)

  /** What the blockchain store maps a key to: a bare hash, or a marshalled block
      (marshalling is lossless, so the block itself stands for its bytes). */
  datatype Entry = Raw(bytes: Bytes) | Encoded(block: Block)

  type BlockStore = map<Bytes, Entry>
  type NameStore = map<Bytes, Bytes>

  function Repeat(c: Byte, n: nat): (s: Bytes)
    ensures |s| == n && forall i :: 0 <= i < n ==> s[i] == c
  {
    seq(n, _ => c)
  }

  /** make([]byte, 32) */
  const ZERO_HASH: Bytes := Repeat(0 as char, 32)

  /** storage.LastBlockKey: 64 zeros, which is also the hexadecimal form of `ZERO_HASH`. */
  const LAST_BLOCK_KEY: Bytes := Repeat('0', 64)

  /** The sentinel that ends the walk and the key of the last hash are the same string. */
  lemma LastBlockKeyIsZeroHash()
    ensures Hex(ZERO_HASH) == LAST_BLOCK_KEY
  {
    assert forall i :: 0 <= i < 64 ==> Hex(ZERO_HASH)[i] == HexDigit(ZERO_HASH, i);
  }

  // ---------------------------------------------------------------- writing

  /** The bytes buildBlock hashes: the fields carry no delimiter, the previous hash is last. */
  function Preimage(step: nat, value: PaxosValue, prevHash: Bytes): Bytes {
    Itoa(step) + value.uniqID + value.filename + value.metahash + prevHash
  }

  function LastHash(store: BlockStore): Bytes {
    if LAST_BLOCK_KEY in store && store[LAST_BLOCK_KEY].Raw? then store[LAST_BLOCK_KEY].bytes else ZERO_HASH
  }

  function BuildBlock(hash: Bytes -> Bytes, step: nat, value: PaxosValue, prevHash: Bytes): Block {
    Block(step, hash(Preimage(step, value, prevHash)), value, prevHash)
  }

  function PutBlock(store: BlockStore, block: Block): BlockStore {
    store[Hex(block.hash) := Encoded(block)][LAST_BLOCK_KEY := Raw(block.hash)]
  }

  function PutName(names: NameStore, block: Block): NameStore {
    names[block.value.filename := block.value.metahash]
  }

  /** The store after storing `chain`, oldest block first. */
  function StoreOf(chain: seq<Block>): BlockStore {
    if chain == [] then map[] else PutBlock(StoreOf(chain[..|chain| - 1]), chain[|chain| - 1])
  }

  /** The naming store is the last-writer fold of the chain. */
  function NamesOf(chain: seq<Block>): NameStore {
    if chain == [] then map[] else PutName(NamesOf(chain[..|chain| - 1]), chain[|chain| - 1])
  }

  /** Block i is the last one of the chain that binds name f. */
  ghost predicate LastBinding(chain: seq<Block>, i: nat, f: Bytes) {
    && i < |chain| && chain[i].value.filename == f
    && forall j :: i < j < |chain| ==> chain[j].value.filename != f
  }

  ghost predicate Binds(chain: seq<Block>, f: Bytes) {
    exists i :: 0 <= i < |chain| && chain[i].value.filename == f
  }

  /** The last block decides, or else the rest of the chain. */
  lemma BindsFromTheEnd(chain: seq<Block>, f: Bytes)
    requires chain != []
    ensures var n := |chain| - 1;
      Binds(chain, f) <==> chain[n].value.filename == f || Binds(chain[..n], f)
  {
    var n := |chain| - 1;
    if Binds(chain[..n], f) {
      var i :| 0 <= i < n && chain[..n][i].value.filename == f;
      assert chain[i].value.filename == f;
    }
    if Binds(chain, f) && chain[n].value.filename != f {
      var i :| 0 <= i < |chain| && chain[i].value.filename == f;
      assert chain[..n][i].value.filename == f;
    }
  }

  /** A name is bound exactly if some block carries it. */
  lemma {:induction false} BoundNames(chain: seq<Block>, f: Bytes)
    ensures f in NamesOf(chain) <==> Binds(chain, f)
    decreases |chain|
  {
    hide Binds;
    if chain == [] {
      NothingBinds(f);
    } else {
      BoundNames(chain[..|chain| - 1], f);
      BindsFromTheEnd(chain, f);
    }
  }

  lemma NothingBinds(f: Bytes)
    ensures !Binds([], f)
  {
  }

  /** And then it is bound to the metahash of the last block that does. */
  lemma {:induction false} NamesAreLastWrites(chain: seq<Block>, i: nat, f: Bytes)
    requires LastBinding(chain, i, f)
    ensures f in NamesOf(chain) && NamesOf(chain)[f] == chain[i].value.metahash
    decreases |chain|
  {
    var n := |chain| - 1;
    if i < n {
      NamesAreLastWrites(chain[..n], i, f);
    }
  }

  function PrevHash(chain: seq<Block>, i: nat): Bytes
    requires i <= |chain|
  {
    if i == 0 then ZERO_HASH else chain[i - 1].hash
  }

  lemma LastHashOfStore(chain: seq<Block>)
    ensures LastHash(StoreOf(chain)) == PrevHash(chain, |chain|)
  {
  }

  // ---------------------------------------------------------------- chains

  /** The index and the hash of a block at height i are right for its own fields: what
      ValidateBlockchain recomputes. */
  ghost predicate Sealed(hash: Bytes -> Bytes, b: Block, i: nat) {
    b.index == i && b.hash == hash(Preimage(i, b.value, b.prevHash))
  }

  ghost predicate AllSealed(hash: Bytes -> Bytes, chain: seq<Block>) {
    forall i :: 0 <= i < |chain| ==> Sealed(hash, chain[i], i)
  }

  /** Each block points at the one stored before it. */
  ghost predicate Linked(chain: seq<Block>) {
    forall i :: 0 <= i < |chain| ==> chain[i].prevHash == PrevHash(chain, i)
  }

  /** Block i was produced by buildBlock on top of its predecessor. */
  ghost predicate Built(hash: Bytes -> Bytes, chain: seq<Block>, i: nat)
    requires i < |chain|
  {
    chain[i] == BuildBlock(hash, i, chain[i].value, PrevHash(chain, i))
  }

  ghost predicate WellBuilt(hash: Bytes -> Bytes, chain: seq<Block>) {
    forall i :: 0 <= i < |chain| ==> Built(hash, chain, i)
  }

  /** A chain built block upon block is one of sealed blocks that link. */
  lemma BuiltIsSealedAndLinked(hash: Bytes -> Bytes, chain: seq<Block>)
    ensures WellBuilt(hash, chain) <==> AllSealed(hash, chain) && Linked(chain)
  {
    if WellBuilt(hash, chain) {
      forall i | 0 <= i < |chain| ensures Sealed(hash, chain[i], i) && chain[i].prevHash == PrevHash(chain, i) {
        assert Built(hash, chain, i);
      }
    }
    if AllSealed(hash, chain) && Linked(chain) {
      forall i | 0 <= i < |chain| ensures Built(hash, chain, i) {
        assert Sealed(hash, chain[i], i);
      }
    }
  }

  /** The bytes whose hash is the hash of block i. */
  ghost function Hashed(chain: seq<Block>, i: nat): Bytes
    requires i < |chain|
  {
    Preimage(i, chain[i].value, PrevHash(chain, i))
  }

  ghost predicate GoodHash(h: Bytes) {
    |h| == 32 && AllBytes(h) && h != ZERO_HASH
  }

  /** What is asked of SHA-256, and only on the preimages this chain hashes: 32 bytes,
      never all zero, no collision. */
  ghost predicate NoClash(hash: Bytes -> Bytes, chain: seq<Block>) {
    && (forall i :: 0 <= i < |chain| ==> GoodHash(hash(Hashed(chain, i))))
    && (forall i, j :: 0 <= i < |chain| && 0 <= j < |chain| && hash(Hashed(chain, i)) == hash(Hashed(chain, j)) ==>
         Hashed(chain, i) == Hashed(chain, j))
  }

  lemma BuiltHash(hash: Bytes -> Bytes, chain: seq<Block>, i: nat)
    requires WellBuilt(hash, chain) && i < |chain|
    ensures chain[i].hash == hash(Hashed(chain, i))
  {
    assert Built(hash, chain, i);
  }

  lemma BuiltLink(hash: Bytes -> Bytes, chain: seq<Block>, i: nat)
    requires WellBuilt(hash, chain) && i < |chain|
    ensures chain[i].index == i && chain[i].prevHash == PrevHash(chain, i)
    ensures NoClash(hash, chain) ==> GoodHash(chain[i].hash)
  {
    BuiltHash(hash, chain, i);
    assert Built(hash, chain, i);
  }

  /** Although nothing delimits the fields of a preimage, its last 32 bytes are the
      previous hash, so two blocks at different heights never share a hash. */
  lemma {:induction false} HashesDiffer(hash: Bytes -> Bytes, chain: seq<Block>, i: nat, j: nat)
    requires WellBuilt(hash, chain) && NoClash(hash, chain)
    requires i < j < |chain|
    ensures chain[i].hash != chain[j].hash
    decreases i
  {
    if chain[i].hash == chain[j].hash {
      BuiltHash(hash, chain, i);
      BuiltHash(hash, chain, j);
      assert Hashed(chain, i) == Hashed(chain, j);
      PrevHashLength(hash, chain, i);
      PrevHashLength(hash, chain, j);
      PreimageEndsInPrevHash(i, chain[i].value, PrevHash(chain, i), j, chain[j].value, PrevHash(chain, j));
      BuiltLink(hash, chain, j - 1);
      if i == 0 {
        assert false;
      } else {
        HashesDiffer(hash, chain, i - 1, j - 1);
      }
    }
  }

  lemma PreimageEndsInPrevHash(i: nat, v: PaxosValue, p: Bytes, j: nat, w: PaxosValue, q: Bytes)
    requires |p| == 32 && |q| == 32 && Preimage(i, v, p) == Preimage(j, w, q)
    ensures p == q
  {
    var a, b := Preimage(i, v, p), Preimage(j, w, q);
    assert p == a[|a| - 32..] && q == b[|b| - 32..];
  }

  /** The fields of a preimage, in the order buildBlock appends them. */
  lemma PreimageFields(step: nat, v: PaxosValue, p: Bytes)
    ensures var d, a := Preimage(step, v, p), |Itoa(step)|;
      var b, c, e := a + |v.uniqID|, a + |v.uniqID| + |v.filename|, a + |v.uniqID| + |v.filename| + |v.metahash|;
      && |d| == e + |p|
      && d[..a] == Itoa(step) && d[a..b] == v.uniqID && d[b..c] == v.filename && d[c..e] == v.metahash && d[e..] == p
  {
  }

  /** For fields of given lengths the preimage fixes all of them. */
  lemma PreimageFixesFields(i: nat, v: PaxosValue, p: Bytes, j: nat, w: PaxosValue, q: Bytes)
    requires |p| == |q| && Preimage(i, v, p) == Preimage(j, w, q)
    requires |v.uniqID| == |w.uniqID| && |v.filename| == |w.filename| && |v.metahash| == |w.metahash|
    ensures i == j && v == w && p == q
  {
    PreimageFields(i, v, p);
    PreimageFields(j, w, q);
    ItoaReads(i);
    ItoaReads(j);
  }

  lemma PrevHashLength(hash: Bytes -> Bytes, chain: seq<Block>, i: nat)
    requires WellBuilt(hash, chain) && NoClash(hash, chain) && i < |chain|
    ensures |PrevHash(chain, i)| == 32
  {
    if i > 0 {
      BuiltLink(hash, chain, i - 1);
    }
  }

  lemma WellBuiltPrefix(hash: Bytes -> Bytes, chain: seq<Block>, n: nat)
    requires n <= |chain| && WellBuilt(hash, chain)
    ensures WellBuilt(hash, chain[..n])
    ensures NoClash(hash, chain) ==> NoClash(hash, chain[..n])
  {
    forall i | 0 <= i < n
      ensures PrevHash(chain[..n], i) == PrevHash(chain, i)
      ensures Built(hash, chain[..n], i)
      ensures Hashed(chain[..n], i) == Hashed(chain, i)
    {
      assert Built(hash, chain, i);
    }
  }

  /** What the stored chain of a peer is like, whether or not its blocks link (proved of every
      reachable state in `PaxosBlocks`): hashes are proper and distinct, only block 0 points
      at the zero hash, and block j points at block i only if i is the height below. */
  ghost predicate Traceable(chain: seq<Block>) {
    && (forall i :: 0 <= i < |chain| ==> GoodHash(chain[i].hash))
    && (forall i :: 0 <= i < |chain| ==> |chain[i].prevHash| == 32 && AllBytes(chain[i].prevHash))
    && (forall i :: 0 <= i < |chain| ==> (chain[i].prevHash == ZERO_HASH <==> i == 0))
    && (forall i, j :: 0 <= i < |chain| && 0 <= j < |chain| && chain[i].hash == chain[j].hash ==> i == j)
    && (forall i, j :: 0 <= i < |chain| && 0 <= j < |chain| && chain[i].hash == chain[j].prevHash ==> i + 1 == j)
  }

  /** A chain built block upon block is sound if none of its hashes clash. */
  lemma TraceableWhenBuilt(hash: Bytes -> Bytes, chain: seq<Block>)
    requires WellBuilt(hash, chain) && NoClash(hash, chain)
    ensures Traceable(chain)
  {
    forall i, j | 0 <= i < |chain| && 0 <= j < |chain| && chain[i].hash == chain[j].hash ensures i == j {
      if i < j { HashesDiffer(hash, chain, i, j); }
      if j < i { HashesDiffer(hash, chain, j, i); }
    }
    forall j | 0 <= j < |chain|
      ensures GoodHash(chain[j].hash) && chain[j].prevHash == PrevHash(chain, j)
    {
      BuiltLink(hash, chain, j);
    }
  }

  /** No two blocks of a traceable chain share a key, and none has the reserved one. */
  lemma KeysDiffer(chain: seq<Block>, i: nat, j: nat)
    requires Traceable(chain) && i < |chain| && j < |chain|
    ensures Hex(chain[i].hash) != LAST_BLOCK_KEY
    ensures i != j ==> Hex(chain[i].hash) != Hex(chain[j].hash)
  {
    LastBlockKeyIsZeroHash();
    if Hex(chain[i].hash) == LAST_BLOCK_KEY {
      HexInjective(chain[i].hash, ZERO_HASH);
      assert false;
    }
    if i != j && Hex(chain[i].hash) == Hex(chain[j].hash) {
      HexInjective(chain[i].hash, chain[j].hash);
      assert false;
    }
  }

  lemma TraceablePrefix(chain: seq<Block>, n: nat)
    requires Traceable(chain) && n <= |chain|
    ensures Traceable(chain[..n])
  {
  }

  /** Every block of a traceable chain is still in the store, under its own key. */
  lemma {:induction false} BlockIsStored(chain: seq<Block>, i: nat)
    requires Traceable(chain) && i < |chain|
    ensures Hex(chain[i].hash) in StoreOf(chain) && StoreOf(chain)[Hex(chain[i].hash)] == Encoded(chain[i])
    decreases |chain|
  {
    hide Traceable;
    var n := |chain| - 1;
    KeysDiffer(chain, i, n);
    if i < n {
      TraceablePrefix(chain, n);
      BlockIsStored(chain[..n], i);
    }
  }

  ghost function HashKeys(chain: seq<Block>): set<Bytes> {
    if chain == [] then {} else HashKeys(chain[..|chain| - 1]) + {Hex(chain[|chain| - 1].hash)}
  }

  lemma {:induction false} FreshKey(chain: seq<Block>, key: Bytes)
    requires forall i :: 0 <= i < |chain| ==> Hex(chain[i].hash) != key
    ensures key !in HashKeys(chain)
  {
    if chain != [] {
      FreshKey(chain[..|chain| - 1], key);
    }
  }

  /** The keys of the store: the reserved one, and the hexadecimal form of each hash. */
  lemma {:induction false} StoreKeys(chain: seq<Block>)
    ensures StoreOf(chain).Keys == if chain == [] then {} else {LAST_BLOCK_KEY} + HashKeys(chain)
  {
    if chain != [] {
      StoreKeys(chain[..|chain| - 1]);
    }
  }

  /** The store of a traceable chain of k > 0 blocks holds k + 1 keys. */
  lemma {:induction false} StoreSize(chain: seq<Block>)
    requires Traceable(chain)
    ensures |StoreOf(chain)| == if chain == [] then 0 else |chain| + 1
  {
    hide Traceable;
    if chain != [] {
      var n := |chain| - 1;
      var before, key := chain[..n], Hex(chain[n].hash);
      TraceablePrefix(chain, n);
      StoreSize(before);
      KeysDiffer(chain, n, n);
      var store := StoreOf(before);
      forall i | 0 <= i < n ensures Hex(before[i].hash) != key {
        KeysDiffer(chain, i, n);
      }
      FreshKey(before, key);
      StoreKeys(before);
      assert key !in store;
      assert StoreOf(chain).Keys == store.Keys + {key} + {LAST_BLOCK_KEY};
    }
  }

  lemma {:induction false} KeyOfHash(chain: seq<Block>, key: Bytes) returns (i: nat)
    requires key in HashKeys(chain)
    ensures i < |chain| && Hex(chain[i].hash) == key
  {
    if key == Hex(chain[|chain| - 1].hash) {
      i := |chain| - 1;
    } else {
      i := KeyOfHash(chain[..|chain| - 1], key);
    }
  }

  // ---------------------------------------------------------------- reading

  datatype ViewBlock = ViewBlock(index: nat, hash: Bytes, valueID: Bytes, name: Bytes, metahash: Bytes, prevHash: Bytes)

  function View(b: Block): ViewBlock {
    ViewBlock(b.index, Hex(b.hash), b.value.uniqID, b.value.filename, b.value.metahash, Hex(b.prevHash))
  }

  /** hex.EncodeToString(store.Get(storage.LastBlockKey)); a missing key reads as no bytes. */
  function LastHashHex(store: BlockStore): Bytes {
    if LAST_BLOCK_KEY in store && store[LAST_BLOCK_KEY].Raw? then Hex(store[LAST_BLOCK_KEY].bytes) else ""
  }

  /** Reading and unmarshalling a block: None on an error. */
  function ReadBlock(store: BlockStore, key: Bytes): Option<Block> {
    if key in store && store[key].Encoded? then Some(store[key].block) else None
  }

  /** The hash the walk looks for when it has `left` blocks to go. */
  ghost function Sought(chain: seq<Block>, left: nat): Bytes
    requires left <= |chain|
  {
    if left < |chain| then chain[left].prevHash else PrevHash(chain, left)
  }

  ghost predicate LinkedAbove(chain: seq<Block>, left: nat) {
    forall i :: left < i < |chain| ==> chain[i].prevHash == PrevHash(chain, i)
  }

  /** The page shows these blocks, newest first. */
  ghost predicate Shows(page: seq<ViewBlock>, chain: seq<Block>) {
    |page| == |chain| && forall i :: 0 <= i < |chain| ==> page[i] == View(chain[|chain| - 1 - i])
  }

  lemma ShowsMore(page: seq<ViewBlock>, chain: seq<Block>, left: nat)
    requires 0 < left <= |chain| && Shows(page, chain[left..])
    ensures Shows(page + [View(chain[left - 1])], chain[left - 1..])
  {
  }

  lemma WalkStart(chain: seq<Block>)
    requires Traceable(chain)
    ensures LastHashHex(StoreOf(chain)) == if chain == [] then "" else Hex(Sought(chain, |chain|))
    ensures chain != [] ==> Hex(Sought(chain, |chain|)) != ""
  {
  }

  lemma WalkStartsLinked(chain: seq<Block>)
    ensures LinkedAbove(chain, |chain|) && Shows([], chain[|chain|..])
  {
  }

  /** The walk meets the zero sentinel exactly below block 0. */
  lemma WalkEnd(chain: seq<Block>, left: nat)
    requires Traceable(chain) && left <= |chain|
    ensures Hex(Sought(chain, left)) == Hex(ZERO_HASH) <==> left == 0
    ensures left == 0 && LinkedAbove(chain, left) ==> Linked(chain)
  {
    if left == |chain| && left > 0 {
      KeysDiffer(chain, left - 1, left - 1);
      LastBlockKeyIsZeroHash();
    }
    if left < |chain| && Hex(Sought(chain, left)) == Hex(ZERO_HASH) {
      HexInjective(Sought(chain, left), ZERO_HASH);
    }
  }

  /** Elsewhere it finds the next block if that is the one pointed at, and nothing if not. */
  lemma WalkStep(chain: seq<Block>, left: nat)
    requires Traceable(chain) && 0 < left <= |chain|
    ensures ReadBlock(StoreOf(chain), Hex(Sought(chain, left)))
            == if Sought(chain, left) == chain[left - 1].hash then Some(chain[left - 1]) else None
  {
    hide Traceable, StoreOf, Hex;
    var sought := Sought(chain, left);
    var key := Hex(sought);
    if sought == chain[left - 1].hash {
      BlockIsStored(chain, left - 1);
    } else if key in StoreOf(chain) {
      StoreKeys(chain);
      WalkEnd(chain, left);
      LastBlockKeyIsZeroHash();
      var i := KeyOfHash(chain, key);
      OnlyBelow(chain, left, i);
      assert false;
    }
  }

  lemma LinkStep(chain: seq<Block>, left: nat)
    requires 0 < left <= |chain|
    ensures Sought(chain, left) != chain[left - 1].hash ==> !Linked(chain)
    ensures Sought(chain, left) == chain[left - 1].hash && LinkedAbove(chain, left) ==> LinkedAbove(chain, left - 1)
  {
  }

  lemma OnlyBelow(chain: seq<Block>, left: nat, i: nat)
    requires Traceable(chain) && 0 < left <= |chain| && i < |chain| && Hex(chain[i].hash) == Hex(Sought(chain, left))
    ensures Sought(chain, left) == chain[left - 1].hash
  {
    HexInjective(chain[i].hash, Sought(chain, left));
  }

  /** blockchainGet on the store of any peer: the page, or None when a block cannot be read.
      There is a page exactly when every stored block links to the one before it, and then
      it shows the whole chain, newest block first. */
  method BlockchainGet(store: BlockStore, ghost chain: seq<Block>) returns (page: Option<seq<ViewBlock>>)
    requires Traceable(chain) && store == StoreOf(chain)
    ensures page.Some? <==> Linked(chain)
    ensures page.Some? ==> Shows(page.value, chain)
  {
    hide Traceable, StoreOf, LastHashHex, ReadBlock, Linked, LinkedAbove, Shows, Hex;
    var last := LastHashHex(store);
    var end := Hex(ZERO_HASH);
    if last == "" {
      last := end;
    }
    WalkStart(chain);
    var blocks := [];
    ghost var left := |chain|;
    WalkStartsLinked(chain);
    while last != end
      invariant 0 <= left <= |chain| && last == Hex(Sought(chain, left)) && LinkedAbove(chain, left)
      invariant Shows(blocks, chain[left..])
      decreases left
    {
      WalkEnd(chain, left);
      WalkStep(chain, left);
      LinkStep(chain, left);
      var block := ReadBlock(store, last);
      if block.None? {
        return None;
      }
      ShowsMore(blocks, chain, left);
      blocks := blocks + [View(block.value)];
      last := Hex(block.value.prevHash);
      left := left - 1;
    }
    WalkEnd(chain, left);
    assert chain[0..] == chain;
    page := Some(blocks);
  }

  /** What a page shows: newest first, the index, the value and the printed hashes of each block;
      heights count down to 0, each block links to the next one shown, and the oldest links to the
      zero sentinel. */
  lemma ViewLinks(hash: Bytes -> Bytes, chain: seq<Block>, page: seq<ViewBlock>)
    requires AllSealed(hash, chain) && Linked(chain) && Shows(page, chain)
    ensures |page| == |chain|
    ensures forall i :: 0 <= i < |page| ==>
      var b := chain[|chain| - 1 - i];
      && page[i].valueID == b.value.uniqID && page[i].name == b.value.filename && page[i].metahash == b.value.metahash
      && page[i].hash == Hex(b.hash) && page[i].prevHash == Hex(b.prevHash)
    ensures forall i :: 0 <= i < |page| ==> page[i].index == |page| - 1 - i
    ensures forall i :: 0 <= i < |page| - 1 ==> page[i].prevHash == page[i + 1].hash
    ensures page != [] ==> page[|page| - 1].prevHash == Hex(ZERO_HASH)
  {
  }

  /** ValidateBlockchain, which recomputes each hash on the way down and ends at index 0:
      sealed blocks pass exactly when there are some and they link. */
  method ValidateBlockchain(store: BlockStore, hash: Bytes -> Bytes, ghost chain: seq<Block>) returns (valid: bool)
    requires Traceable(chain) && AllSealed(hash, chain) && store == StoreOf(chain)
    ensures valid <==> chain != [] && Linked(chain)
  {
    hide Traceable, StoreOf, LastHashHex, ReadBlock, Linked, LinkedAbove, Shows, Hex;
    var last := LastHashHex(store);
    var end := Hex(ZERO_HASH);
    var index := 0;
    WalkStart(chain);
    if last == "" {
      // store.Get("") finds nothing to unmarshal
      return false;
    }
    ghost var left := |chain|;
    WalkStartsLinked(chain);
    while last != end
      invariant 0 <= left <= |chain| && last == Hex(Sought(chain, left)) && LinkedAbove(chain, left)
      invariant left < |chain| ==> index == left
      decreases left
    {
      WalkEnd(chain, left);
      WalkStep(chain, left);
      LinkStep(chain, left);
      var block := ReadBlock(store, last);
      if block.None? {
        return false;
      }
      assert Sealed(hash, chain[left - 1], left - 1);
      // the hasher is fed one field after the other
      var h := Itoa(block.value.index);
      h := h + block.value.value.uniqID;
      h := h + block.value.value.filename;
      h := h + block.value.value.metahash;
      h := h + block.value.prevHash;
      if hash(h) != block.value.hash {
        return false;
      }
      index := block.value.index;
      last := Hex(block.value.prevHash);
      left := left - 1;
    }
    WalkEnd(chain, left);
    valid := index == 0;
  }
}
