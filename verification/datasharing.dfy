/** Upload and Download over the blob stores of the peers. */
module DataSharing {
  import opened Text
  import opened Common
  import opened Storage

  type Hash = Bytes -> Bytes
  type Blobs = map<Bytes, Bytes>

  // ---------------------------------------------------------------- what an upload writes

  /** How the reads of the data end: a bare end of file, or an error. */
  datatype End = Eof | Failed

  function ChunkKey(hash: Hash, chunk: Bytes): Bytes {
    Hex(hash(chunk))
  }

  function ChunkKeys(hash: Hash, chunks: seq<Bytes>): seq<Bytes> {
    seq(|chunks|, i requires 0 <= i < |chunks| => ChunkKey(hash, chunks[i]))
  }

  /** The chunk hashes, one after the other: what the metahash is the hash of. */
  function HashList(hash: Hash, chunks: seq<Bytes>): Bytes {
    if chunks == [] then [] else HashList(hash, chunks[..|chunks| - 1]) + hash(chunks[|chunks| - 1])
  }

  function MetaKey(hash: Hash, chunks: seq<Bytes>): Bytes {
    Hex(hash(HashList(hash, chunks)))
  }

  function Metafile(hash: Hash, chunks: seq<Bytes>): Bytes
    requires chunks != []
  {
    Join(ChunkKeys(hash, chunks))
  }

  function Concat(chunks: seq<Bytes>): Bytes {
    if chunks == [] then [] else Concat(chunks[..|chunks| - 1]) + chunks[|chunks| - 1]
  }

  function PutChunks(hash: Hash, blobs: Blobs, chunks: seq<Bytes>): Blobs {
    if chunks == [] then blobs
    else
      var last := chunks[|chunks| - 1];
      PutChunks(hash, blobs, chunks[..|chunks| - 1])[ChunkKey(hash, last) := last]
  }

  /** Upload, reading `chunks` from the data and then `end`: the metahash, or None on a read
      error (the chunks read so far stay stored). An empty upload panics in Go. */
  method Upload(hash: Hash, store: Store, chunks: seq<Bytes>, end: End) returns (metahash: Option<Bytes>)
    requires end.Eof? ==> chunks != []
    modifies store
    ensures metahash == if end.Eof? then Some(MetaKey(hash, chunks)) else None
    ensures store.data == PutFile(hash, old(store.data), File(chunks, end))
  {
    var metafile, chunkList: Bytes := [], [];
    for i := 0 to |chunks|
      invariant store.data == PutChunks(hash, old(store.data), chunks[..i])
      invariant chunkList == HashList(hash, chunks[..i])
      invariant metafile == Lines(ChunkKeys(hash, chunks[..i]))
    {
      var chunk := chunks[i];
      var chunkSlice := hash(chunk);
      var chunkHexEncoded := Hex(chunkSlice);
      chunkList := chunkList + chunkSlice;
      store.Set(chunkHexEncoded, chunk);
      metafile := metafile + chunkHexEncoded + ['\n'];
      assert chunks[..i + 1][..i] == chunks[..i];
      assert ChunkKeys(hash, chunks[..i + 1])[..i] == ChunkKeys(hash, chunks[..i]);
    }
    assert chunks[..|chunks|] == chunks;
    if end.Failed? {
      return None;
    }
    metafile := metafile[..|metafile| - 1];
    var metahashHex := Hex(hash(chunkList));
    store.Set(metahashHex, metafile);
    metahash := Some(metahashHex);
  }

  // ---------------------------------------------------------------- download

  /** A request to a remote peer: it never answers (or is unknown), or it answers from a store
      with these blobs. */
  datatype Remote = Silent | Answers(blobs: Blobs)

  /** Reading a key: locally, else from the next remote peer, whose answer is kept. */
  datatype Fetched = Fetched(blobs: Blobs, value: Option<Bytes>, rest: seq<Remote>)

  function Fetch(blobs: Blobs, key: Bytes, remotes: seq<Remote>): Fetched {
    if key in blobs then Fetched(blobs, Some(blobs[key]), remotes)
    else if remotes == [] || remotes[0].Silent? then Fetched(blobs, None, remotes)
    else if key in remotes[0].blobs then
      Fetched(blobs[key := remotes[0].blobs[key]], Some(remotes[0].blobs[key]), remotes[1..])
    else Fetched(blobs, None, remotes)
  }

  method FetchInto(store: Store, key: Bytes, remotes: seq<Remote>) returns (value: Option<Bytes>, rest: seq<Remote>)
    modifies store
    ensures Fetched(store.data, value, rest) == Fetch(old(store.data), key, remotes)
  {
    value := store.Get(key);
    rest := remotes;
    if value.None? {
      // getDataFromRemotePeer, with the reply callback storing a non-nil value
      if remotes != [] && remotes[0].Answers? {
        var reply := Lookup(remotes[0].blobs, key);
        if reply.Some? {
          store.Set(key, reply.value);
          value := store.Get(key);
          rest := remotes[1..];
        }
      }
    }
  }

  datatype Downloaded = Downloaded(blobs: Blobs, data: Option<Bytes>)

  function FetchAll(blobs: Blobs, keys: seq<Bytes>, remotes: seq<Remote>, data: Bytes): Downloaded
    decreases |keys|
  {
    if keys == [] then Downloaded(blobs, Some(data))
    else
      var f := Fetch(blobs, keys[0], remotes);
      if f.value.None? then Downloaded(f.blobs, None)
      else FetchAll(f.blobs, keys[1..], f.rest, data + f.value.value)
  }

  function DownloadFrom(blobs: Blobs, metahash: Bytes, remotes: seq<Remote>): Downloaded {
    var f := Fetch(blobs, metahash, remotes);
    if f.value.None? then Downloaded(f.blobs, None)
    else FetchAll(f.blobs, Fields(f.value.value), f.rest, [])
  }

  /** Download: None on error. */
  method Download(store: Store, metahash: Bytes, remotes: seq<Remote>) returns (data: Option<Bytes>)
    modifies store
    ensures Downloaded(store.data, data) == DownloadFrom(old(store.data), metahash, remotes)
  {
    var metafile, rest := FetchInto(store, metahash, remotes);
    if metafile.None? {
      return None;
    }
    var keys := Fields(metafile.value);
    var sofar: Bytes := [];
    for i := 0 to |keys|
      invariant FetchAll(store.data, keys[i..], rest, sofar) == DownloadFrom(old(store.data), metahash, remotes)
    {
      assert keys[i..][1..] == keys[i + 1..];
      var chunk;
      chunk, rest := FetchInto(store, keys[i], rest);
      if chunk.None? {
        return None;
      }
      sofar := sofar + chunk.value;
    }
    data := Some(sofar);
  }

  // ---------------------------------------------------------------- keys

  /** A complete or interrupted upload. */
  datatype File = File(chunks: seq<Bytes>, end: End)

  /** Some write of this upload puts v under k. */
  ghost predicate Wrote(hash: Hash, f: File, k: Bytes, v: Bytes) {
    || (v in f.chunks && k == ChunkKey(hash, v))
    || (f.end.Eof? && f.chunks != [] && k == MetaKey(hash, f.chunks) && v == Metafile(hash, f.chunks))
  }

  ghost predicate Written(hash: Hash, files: set<File>, k: Bytes, v: Bytes) {
    exists f :: f in files && Wrote(hash, f, k, v)
  }

  /** What is ever hashed: chunks, and hash lists of complete uploads. */
  ghost predicate Hashed(hash: Hash, files: set<File>, p: Bytes) {
    exists f :: f in files && (p in f.chunks || (f.end.Eof? && p == HashList(hash, f.chunks)))
  }

  /** What is asked of SHA-256 on the preimages of the run: 32 bytes and no collision. */
  ghost predicate NoCollision(hash: Hash, files: set<File>) {
    && (forall p :: Hashed(hash, files, p) ==> |hash(p)| == 32 && AllBytes(hash(p)))
    && (forall p, q :: Hashed(hash, files, p) && Hashed(hash, files, q) && hash(p) == hash(q) ==> p == q)
  }

  /** No chunk is, byte for byte, the hash list of an uploaded file. */
  ghost predicate NoChunkIsHashList(hash: Hash, files: set<File>) {
    forall f, g, c :: f in files && g in files && c in f.chunks && g.end.Eof? && g.chunks != [] ==>
      c != HashList(hash, g.chunks)
  }

  /** No key is ever written with two values. */
  ghost predicate KeysAgree(hash: Hash, files: set<File>) {
    forall k, v, w :: Written(hash, files, k, v) && Written(hash, files, k, w) ==> v == w
  }

  lemma SameHash(hash: Hash, files: set<File>, p: Bytes, q: Bytes)
    requires NoCollision(hash, files) && Hashed(hash, files, p) && Hashed(hash, files, q)
    requires Hex(hash(p)) == Hex(hash(q))
    ensures p == q
  {
    HexInjective(hash(p), hash(q));
  }

  lemma ChunkHashed(hash: Hash, files: set<File>, f: File, c: Bytes)
    requires f in files && c in f.chunks
    ensures Hashed(hash, files, c)
  {
  }

  lemma ListHashed(hash: Hash, files: set<File>, f: File)
    requires f in files && f.end.Eof?
    ensures Hashed(hash, files, HashList(hash, f.chunks))
  {
  }

  /** Hashes have 32 bytes, so a hash list determines the hashes in it. */
  lemma {:induction false} HashListInjective(hash: Hash, a: seq<Bytes>, b: seq<Bytes>)
    requires (forall c :: c in a ==> |hash(c)| == 32) && (forall c :: c in b ==> |hash(c)| == 32)
    requires HashList(hash, a) == HashList(hash, b)
    ensures ChunkKeys(hash, a) == ChunkKeys(hash, b)
    decreases |a|
  {
    HashListLength(hash, a);
    HashListLength(hash, b);
    if a != [] {
      var i, j := a[..|a| - 1], b[..|b| - 1];
      var x, y := a[|a| - 1], b[|b| - 1];
      var l := HashList(hash, a);
      assert l[|l| - 32..] == hash(x) == hash(y);
      assert l[..|l| - 32] == HashList(hash, i) == HashList(hash, j);
      HashListInjective(hash, i, j);
      assert ChunkKeys(hash, a) == ChunkKeys(hash, i) + [ChunkKey(hash, x)];
      assert ChunkKeys(hash, b) == ChunkKeys(hash, j) + [ChunkKey(hash, y)];
    }
  }

  lemma {:induction false} HashListLength(hash: Hash, a: seq<Bytes>)
    requires forall c :: c in a ==> |hash(c)| == 32
    ensures |HashList(hash, a)| == 32 * |a|
  {
    if a != [] {
      HashListLength(hash, a[..|a| - 1]);
    }
  }

  /** Hash i of the list is that of chunk i. */
  lemma {:induction false} HashListAt(hash: Hash, a: seq<Bytes>, i: nat)
    requires (forall c :: c in a ==> |hash(c)| == 32) && i < |a|
    ensures |HashList(hash, a)| == 32 * |a| && HashList(hash, a)[32 * i..32 * i + 32] == hash(a[i])
    decreases |a|
  {
    HashListLength(hash, a);
    var init := a[..|a| - 1];
    HashListLength(hash, init);
    if i < |init| {
      HashListAt(hash, init, i);
      assert HashList(hash, a)[32 * i..32 * i + 32] == HashList(hash, init)[32 * i..32 * i + 32];
    }
  }

  /** Where a chunk begins in the data. */
  function Offset(chunks: seq<Bytes>, i: nat): nat
    requires i <= |chunks|
  {
    if i == 0 then 0 else Offset(chunks, i - 1) + |chunks[i - 1]|
  }

  lemma {:induction false} OffsetOfPrefix(chunks: seq<Bytes>, n: nat, i: nat)
    requires i <= n <= |chunks|
    ensures Offset(chunks[..n], i) == Offset(chunks, i)
    decreases i
  {
    if i > 0 {
      OffsetOfPrefix(chunks, n, i - 1);
    }
  }

  lemma {:induction false} ConcatLength(chunks: seq<Bytes>)
    ensures |Concat(chunks)| == Offset(chunks, |chunks|)
  {
    if chunks != [] {
      ConcatLength(chunks[..|chunks| - 1]);
      OffsetOfPrefix(chunks, |chunks| - 1, |chunks| - 1);
    }
  }

  /** The data has the chunks one after the other. */
  lemma {:induction false} ConcatAt(chunks: seq<Bytes>, i: nat)
    requires i < |chunks|
    ensures Offset(chunks, i) + |chunks[i]| <= |Concat(chunks)|
    ensures Concat(chunks)[Offset(chunks, i)..Offset(chunks, i) + |chunks[i]|] == chunks[i]
    decreases |chunks|
  {
    var n := |chunks| - 1;
    ConcatLength(chunks[..n]);
    OffsetOfPrefix(chunks, n, i);
    OffsetOfPrefix(chunks, n, n);
    if i < n {
      ConcatAt(chunks[..n], i);
    }
  }

  lemma {:induction false} LinesLength(keys: seq<Bytes>)
    requires forall i :: 0 <= i < |keys| ==> |keys[i]| == 64
    ensures |Lines(keys)| == 65 * |keys|
  {
    if keys != [] {
      LinesLength(keys[..|keys| - 1]);
    }
  }

  lemma ChunkHashLengths(hash: Hash, files: set<File>, f: File)
    requires NoCollision(hash, files) && f in files
    ensures forall c :: c in f.chunks ==> |hash(c)| == 32
  {
    forall c | c in f.chunks ensures |hash(c)| == 32 {
      ChunkHashed(hash, files, f, c);
    }
  }

  /** Two writes of one key: equal unless a chunk meets a metafile. */
  lemma WritesAgree(hash: Hash, files: set<File>, k: Bytes, f: File, v: Bytes, g: File, w: Bytes)
    requires NoCollision(hash, files) && NoChunkIsHashList(hash, files)
    requires f in files && g in files && Wrote(hash, f, k, v) && Wrote(hash, g, k, w)
    ensures v == w
  {
    if v in f.chunks && k == ChunkKey(hash, v) {
      ChunkHashed(hash, files, f, v);
      if w in g.chunks && k == ChunkKey(hash, w) {
        ChunkHashed(hash, files, g, w);
        SameHash(hash, files, v, w);
      } else {
        ListHashed(hash, files, g);
        SameHash(hash, files, v, HashList(hash, g.chunks));
      }
    } else {
      ListHashed(hash, files, f);
      if w in g.chunks && k == ChunkKey(hash, w) {
        ChunkHashed(hash, files, g, w);
        SameHash(hash, files, HashList(hash, f.chunks), w);
      } else {
        ListHashed(hash, files, g);
        SameHash(hash, files, HashList(hash, f.chunks), HashList(hash, g.chunks));
        ChunkHashLengths(hash, files, f);
        ChunkHashLengths(hash, files, g);
        HashListInjective(hash, f.chunks, g.chunks);
      }
    }
  }

  /** A metafile is never as long as the hash list it is stored under the hash of. */
  lemma MetafileIsNotHashList(hash: Hash, chunks: seq<Bytes>)
    requires chunks != [] && forall c :: c in chunks ==> |hash(c)| == 32
    ensures Metafile(hash, chunks) != HashList(hash, chunks)
  {
    HashListLength(hash, chunks);
    LinesLength(ChunkKeys(hash, chunks));
  }

  /** Without hash collisions keys agree exactly when no chunk equals the hash list of an
      uploaded file: such a chunk has the metahash of that file as its key. */
  lemma KeysAgreeExactly(hash: Hash, files: set<File>)
    requires NoCollision(hash, files)
    ensures KeysAgree(hash, files) <==> NoChunkIsHashList(hash, files)
  {
    if NoChunkIsHashList(hash, files) {
      forall k, v, w | Written(hash, files, k, v) && Written(hash, files, k, w) ensures v == w {
        var f :| f in files && Wrote(hash, f, k, v);
        var g :| g in files && Wrote(hash, g, k, w);
        WritesAgree(hash, files, k, f, v, g, w);
      }
    }
    if KeysAgree(hash, files) {
      forall f, g, c | f in files && g in files && c in f.chunks && g.end.Eof? && g.chunks != []
        ensures c != HashList(hash, g.chunks)
      {
        var k, m := MetaKey(hash, g.chunks), Metafile(hash, g.chunks);
        ChunkHashLengths(hash, files, g);
        MetafileIsNotHashList(hash, g.chunks);
        assert Wrote(hash, g, k, m) && Written(hash, files, k, m);
        if c == HashList(hash, g.chunks) {
          assert Wrote(hash, f, k, c);
          assert Written(hash, files, k, c);
          assert false;
        }
      }
    }
  }

  // ---------------------------------------------------------------- round trip

  /** Every blob was written by some upload of the run. */
  ghost predicate FromUploads(hash: Hash, files: set<File>, blobs: Blobs) {
    forall k :: k in blobs ==> Written(hash, files, k, blobs[k])
  }

  ghost predicate RemotesFromUploads(hash: Hash, files: set<File>, remotes: seq<Remote>) {
    forall i :: 0 <= i < |remotes| && remotes[i].Answers? ==> FromUploads(hash, files, remotes[i].blobs)
  }

  lemma FetchHonest(hash: Hash, files: set<File>, blobs: Blobs, key: Bytes, remotes: seq<Remote>)
    requires FromUploads(hash, files, blobs) && RemotesFromUploads(hash, files, remotes)
    ensures var f := Fetch(blobs, key, remotes);
      && FromUploads(hash, files, f.blobs) && RemotesFromUploads(hash, files, f.rest)
      && (f.value.Some? ==> Written(hash, files, key, f.value.value))
  {
  }

  lemma {:induction false} FetchAllHonest(hash: Hash, files: set<File>, f: File, i: nat, blobs: Blobs,
                                          remotes: seq<Remote>)
    requires KeysAgree(hash, files) && f in files && i <= |f.chunks|
    requires FromUploads(hash, files, blobs) && RemotesFromUploads(hash, files, remotes)
    ensures var d := FetchAll(blobs, ChunkKeys(hash, f.chunks)[i..], remotes, Concat(f.chunks[..i]));
      FromUploads(hash, files, d.blobs) && (d.data.Some? ==> d.data.value == Concat(f.chunks))
    decreases |f.chunks| - i
  {
    var keys := ChunkKeys(hash, f.chunks);
    if i == |f.chunks| {
      assert f.chunks[..i] == f.chunks;
    } else {
      var c := f.chunks[i];
      var g := Fetch(blobs, keys[i], remotes);
      FetchHonest(hash, files, blobs, keys[i], remotes);
      assert keys[i..][0] == keys[i] && keys[i..][1..] == keys[i + 1..];
      assert Wrote(hash, f, keys[i], c) && Written(hash, files, keys[i], c);
      assert g.value.Some? ==> g.value.value == c;
      assert f.chunks[..i + 1][..i] == f.chunks[..i];
      FetchAllHonest(hash, files, f, i + 1, g.blobs, g.rest);
    }
  }

  /** The metafile lists the chunk keys, and both splitters read them back. */
  lemma MetafileRoundTrip(hash: Hash, chunks: seq<Bytes>)
    requires chunks != [] && forall c :: c in chunks ==> |hash(c)| == 32
    ensures Fields(Metafile(hash, chunks)) == ChunkKeys(hash, chunks)
    ensures Split(Metafile(hash, chunks)) == ChunkKeys(hash, chunks)
  {
    var keys := ChunkKeys(hash, chunks);
    forall i | 0 <= i < |keys| ensures keys[i] != [] && NoSpace(keys[i]) {
      HexHasNoSpace(hash(chunks[i]));
    }
    SplittersInvertJoin(keys);
  }

  /** Every download of the metahash of a complete upload that succeeds returns the uploaded
      bytes, from any mix of local and fetched chunks, and only adds blobs of the run. */
  lemma DownloadReturnsTheUpload(hash: Hash, files: set<File>, f: File, blobs: Blobs, remotes: seq<Remote>)
    requires NoCollision(hash, files) && NoChunkIsHashList(hash, files)
    requires f in files && f.end.Eof? && f.chunks != []
    requires FromUploads(hash, files, blobs) && RemotesFromUploads(hash, files, remotes)
    ensures var d := DownloadFrom(blobs, MetaKey(hash, f.chunks), remotes);
      FromUploads(hash, files, d.blobs) && (d.data.Some? ==> d.data.value == Concat(f.chunks))
  {
    KeysAgreeExactly(hash, files);
    var key, m := MetaKey(hash, f.chunks), Metafile(hash, f.chunks);
    FetchHonest(hash, files, blobs, key, remotes);
    assert Wrote(hash, f, key, m) && Written(hash, files, key, m);
    ChunkHashLengths(hash, files, f);
    MetafileRoundTrip(hash, f.chunks);
    var g := Fetch(blobs, key, remotes);
    if g.value.Some? {
      FetchAllHonest(hash, files, f, 0, g.blobs, g.rest);
      assert ChunkKeys(hash, f.chunks)[0..] == ChunkKeys(hash, f.chunks) && f.chunks[..0] == [];
    }
  }

  /** What Upload leaves in its own store. */
  function PutFile(hash: Hash, blobs: Blobs, f: File): Blobs {
    var b := PutChunks(hash, blobs, f.chunks);
    if f.end.Eof? && f.chunks != [] then b[MetaKey(hash, f.chunks) := Metafile(hash, f.chunks)] else b
  }

  lemma {:induction false} PutChunksHas(hash: Hash, blobs: Blobs, chunks: seq<Bytes>)
    ensures blobs.Keys <= PutChunks(hash, blobs, chunks).Keys
    ensures forall c :: c in chunks ==> ChunkKey(hash, c) in PutChunks(hash, blobs, chunks)
    ensures forall k :: k in PutChunks(hash, blobs, chunks) ==>
      var v := PutChunks(hash, blobs, chunks)[k]; (k in blobs && v == blobs[k]) || (v in chunks && k == ChunkKey(hash,
            v))
    decreases |chunks|
  {
    if chunks != [] {
      var init, last := chunks[..|chunks| - 1], chunks[|chunks| - 1];
      PutChunksHas(hash, blobs, init);
      assert chunks == init + [last];
    }
  }

  /** An upload writes nothing but what it is said to write. */
  lemma UploadIsWrites(hash: Hash, files: set<File>, blobs: Blobs, f: File)
    requires FromUploads(hash, files, blobs) && f in files
    ensures FromUploads(hash, files, PutFile(hash, blobs, f))
  {
    PutChunksHas(hash, blobs, f.chunks);
    forall k | k in PutFile(hash, blobs, f) ensures Written(hash, files, k, PutFile(hash, blobs, f)[k]) {
      var v := PutFile(hash, blobs, f)[k];
      if !(k in blobs && v == blobs[k]) {
        assert Wrote(hash, f, k, v);
      }
    }
  }

  lemma {:induction false} FetchAllSucceeds(blobs: Blobs, keys: seq<Bytes>, remotes: seq<Remote>, data: Bytes)
    requires forall k :: k in keys ==> k in blobs
    ensures FetchAll(blobs, keys, remotes, data).data.Some?
    decreases |keys|
  {
    if keys != [] {
      assert keys[0] in blobs;
      FetchAllSucceeds(blobs, keys[1..], remotes, data + blobs[keys[0]]);
    }
  }

  /** Right after an upload, the same peer downloads the data without asking anyone. */
  lemma UploadThenDownload(hash: Hash, files: set<File>, f: File, blobs: Blobs)
    requires NoCollision(hash, files) && NoChunkIsHashList(hash, files)
    requires f in files && f.end.Eof? && f.chunks != []
    requires FromUploads(hash, files, blobs)
    ensures DownloadFrom(PutFile(hash, blobs, f), MetaKey(hash, f.chunks), []).data == Some(Concat(f.chunks))
  {
    var after, keys := PutFile(hash, blobs, f), ChunkKeys(hash, f.chunks);
    UploadIsWrites(hash, files, blobs, f);
    DownloadReturnsTheUpload(hash, files, f, after, []);
    PutChunksHas(hash, blobs, f.chunks);
    ChunkHashLengths(hash, files, f);
    MetafileRoundTrip(hash, f.chunks);
    forall k | k in keys ensures k in after {
      var i :| 0 <= i < |keys| && keys[i] == k;
      assert f.chunks[i] in f.chunks;
    }
    FetchAllSucceeds(after, keys, [], []);
  }

  /** The store keeps what it had. */
  ghost predicate Keeps(blobs: Blobs, more: Blobs) {
    forall k :: k in blobs ==> k in more && more[k] == blobs[k]
  }

  /** The keys an upload has, with that of its metafile if it is complete. */
  ghost function FileKeys(hash: Hash, f: File): set<Bytes> {
    (set k | k in ChunkKeys(hash, f.chunks)) + if f.end.Eof? && f.chunks != [] then {MetaKey(hash, f.chunks)} else {}
  }

  lemma ChunkKeyIn(hash: Hash, chunks: seq<Bytes>, c: Bytes)
    requires c in chunks
    ensures ChunkKey(hash, c) in ChunkKeys(hash, chunks)
  {
    var i :| 0 <= i < |chunks| && chunks[i] == c;
    assert ChunkKeys(hash, chunks)[i] == ChunkKey(hash, c);
  }

  lemma FileKeysAre(hash: Hash, blobs: Blobs, f: File)
    ensures PutFile(hash, blobs, f).Keys == blobs.Keys + FileKeys(hash, f)
  {
    PutChunksHas(hash, blobs, f.chunks);
    forall k ensures k in PutChunks(hash, blobs, f.chunks) <==> k in blobs || k in ChunkKeys(hash, f.chunks) {
      if k in PutChunks(hash, blobs, f.chunks) && k !in blobs {
        ChunkKeyIn(hash, f.chunks, PutChunks(hash, blobs, f.chunks)[k]);
      }
      if k in ChunkKeys(hash, f.chunks) {
        var i :| 0 <= i < |f.chunks| && ChunkKeys(hash, f.chunks)[i] == k;
        assert f.chunks[i] in f.chunks;
      }
    }
  }

  lemma WrittenBefore(hash: Hash, files: set<File>, blobs: Blobs, k: Bytes)
    requires FromUploads(hash, files, blobs) && k in blobs
    ensures Written(hash, files, k, blobs[k])
  {
  }

  lemma WrittenNow(hash: Hash, files: set<File>, f: File, k: Bytes, v: Bytes)
    requires f in files && Wrote(hash, f, k, v)
    ensures Written(hash, files, k, v)
  {
  }

  lemma HoldsWhatIsWritten(hash: Hash, files: set<File>, blobs: Blobs, k: Bytes, v: Bytes)
    requires KeysAgree(hash, files) && FromUploads(hash, files, blobs)
    requires k in blobs && Written(hash, files, k, v)
    ensures blobs[k] == v
  {
    hide Written;
  }

  /** An upload leaves each chunk it has read under its key, and if it is complete the metafile under
      the metahash; it stores nothing else, and what was stored before stays. */
  lemma UploadStores(hash: Hash, files: set<File>, blobs: Blobs, f: File)
    requires NoCollision(hash, files) && NoChunkIsHashList(hash, files)
    requires FromUploads(hash, files, blobs) && f in files
    ensures var after := PutFile(hash, blobs, f);
      && Keeps(blobs, after) && after.Keys == blobs.Keys + FileKeys(hash, f)
      && (forall c :: c in f.chunks ==> ChunkKey(hash, c) in after && after[ChunkKey(hash, c)] == c)
      && (f.end.Eof? && f.chunks != [] ==>
           MetaKey(hash, f.chunks) in after && after[MetaKey(hash, f.chunks)] == Metafile(hash, f.chunks))
  {
    hide PutFile, NoCollision, NoChunkIsHashList, KeysAgree, FromUploads, Written;
    var after := PutFile(hash, blobs, f);
    UploadIsWrites(hash, files, blobs, f);
    FileKeysAre(hash, blobs, f);
    KeysAgreeExactly(hash, files);
    forall k | k in blobs ensures k in after && after[k] == blobs[k] {
      WrittenBefore(hash, files, blobs, k);
      HoldsWhatIsWritten(hash, files, after, k, blobs[k]);
    }
    forall c | c in f.chunks ensures ChunkKey(hash, c) in after && after[ChunkKey(hash, c)] == c {
      ChunkKeyIn(hash, f.chunks, c);
      WrittenNow(hash, files, f, ChunkKey(hash, c), c);
      HoldsWhatIsWritten(hash, files, after, ChunkKey(hash, c), c);
    }
    if f.end.Eof? && f.chunks != [] {
      WrittenNow(hash, files, f, MetaKey(hash, f.chunks), Metafile(hash, f.chunks));
      HoldsWhatIsWritten(hash, files, after, MetaKey(hash, f.chunks), Metafile(hash, f.chunks));
    }
  }

  // ---------------------------------------------------------------- when a download succeeds

  /** The keys that have to be fetched, each once, in order. */
  ghost function Missing(known: set<Bytes>, keys: seq<Bytes>): seq<Bytes>
    decreases |keys|
  {
    if keys == [] then []
    else if keys[0] in known then Missing(known, keys[1..])
    else [keys[0]] + Missing(known + {keys[0]}, keys[1..])
  }

  /** The i-th remote peer that is asked answers, and holds the i-th missing key. */
  ghost predicate Served(missing: seq<Bytes>, remotes: seq<Remote>) {
    |missing| <= |remotes|
    && forall i :: 0 <= i < |missing| ==> remotes[i].Answers? && missing[i] in remotes[i].blobs
  }

  lemma ServedFirst(missing: seq<Bytes>, remotes: seq<Remote>)
    requires missing != []
    ensures Served(missing, remotes) <==>
      && remotes != [] && remotes[0].Answers? && missing[0] in remotes[0].blobs
      && Served(missing[1..], remotes[1..])
  {
    if remotes != [] && Served(missing[1..], remotes[1..]) && remotes[0].Answers? && missing[0] in remotes[0].blobs {
      forall i | 0 <= i < |missing| ensures remotes[i].Answers? && missing[i] in remotes[i].blobs {
        if i > 0 {
          assert remotes[1..][i - 1] == remotes[i] && missing[1..][i - 1] == missing[i];
        }
      }
    }
    if Served(missing, remotes) {
      assert forall i :: 0 <= i < |missing[1..]| ==> missing[1..][i] == missing[i + 1];
      assert forall i :: 0 <= i < |remotes[1..]| ==> remotes[1..][i] == remotes[i + 1];
    }
  }

  /** A read succeeds exactly if the key is held here or by the peer that is asked, and what a peer
      sent is kept. */
  lemma FetchExactly(blobs: Blobs, key: Bytes, remotes: seq<Remote>)
    ensures var f := Fetch(blobs, key, remotes);
      && Keeps(blobs, f.blobs)
      && (f.value.Some? <==> key in blobs || (remotes != [] && remotes[0].Answers? && key in remotes[0].blobs))
      && (f.value.Some? ==> key in f.blobs && f.value.value == f.blobs[key] && f.blobs.Keys == blobs.Keys + {key})
      && (f.value.None? ==> f.blobs == blobs)
      && f.rest == if f.value.Some? && key !in blobs then remotes[1..] else remotes
  {
  }

  /** Reading all keys succeeds exactly if the missing ones are served, and all of them are in the
      store afterwards. */
  lemma {:induction false} FetchAllExactly(blobs: Blobs, keys: seq<Bytes>, remotes: seq<Remote>, data: Bytes)
    ensures var d := FetchAll(blobs, keys, remotes, data);
      && Keeps(blobs, d.blobs)
      && (d.data.Some? <==> Served(Missing(blobs.Keys, keys), remotes))
      && (d.data.Some? ==> forall k :: k in keys ==> k in d.blobs)
    decreases |keys|
  {
    hide Served, Fetch;
    if keys == [] {
      NobodyAsked(remotes);
    } else {
      var f := Fetch(blobs, keys[0], remotes);
      FetchExactly(blobs, keys[0], remotes);
      if keys[0] !in blobs {
        var missing := Missing(blobs.Keys, keys);
        assert missing[1..] == Missing(blobs.Keys + {keys[0]}, keys[1..]);
        ServedFirst(missing, remotes);
      } else {
        assert f.blobs.Keys == blobs.Keys;
      }
      if f.value.Some? {
        FetchAllExactly(f.blobs, keys[1..], f.rest, data + f.value.value);
      }
    }
  }

  lemma NobodyAsked(remotes: seq<Remote>)
    ensures Served([], remotes)
  {
  }

  /** All keys of an upload: the metahash and the chunk keys. */
  function KeysOf(hash: Hash, f: File): seq<Bytes> {
    [MetaKey(hash, f.chunks)] + ChunkKeys(hash, f.chunks)
  }

  /** A download of an upload's metahash returns the uploaded bytes exactly if each key that is
      missing locally is held by the peer asked for it; otherwise it fails. */
  lemma DownloadExactly(hash: Hash, files: set<File>, f: File, blobs: Blobs, remotes: seq<Remote>)
    requires NoCollision(hash, files) && NoChunkIsHashList(hash, files)
    requires f in files && f.end.Eof? && f.chunks != []
    requires FromUploads(hash, files, blobs) && RemotesFromUploads(hash, files, remotes)
    ensures var d := DownloadFrom(blobs, MetaKey(hash, f.chunks), remotes);
      d.data == if Served(Missing(blobs.Keys, KeysOf(hash, f)), remotes) then Some(Concat(f.chunks)) else None
  {
    hide FromUploads, RemotesFromUploads, NoCollision, NoChunkIsHashList;
    DownloadReturnsTheUpload(hash, files, f, blobs, remotes);
    DownloadFetchesAll(hash, files, f, blobs, remotes);
    FetchAllExactly(blobs, KeysOf(hash, f), remotes, []);
  }

  /** A download reads the metafile and then the chunks, as if all keys were known before. */
  lemma DownloadFetchesAll(hash: Hash, files: set<File>, f: File, blobs: Blobs, remotes: seq<Remote>)
    requires NoCollision(hash, files) && NoChunkIsHashList(hash, files)
    requires f in files && f.end.Eof? && f.chunks != []
    requires FromUploads(hash, files, blobs) && RemotesFromUploads(hash, files, remotes)
    ensures var d := DownloadFrom(blobs, MetaKey(hash, f.chunks), remotes);
      var e := FetchAll(blobs, KeysOf(hash, f), remotes, []);
      d.blobs == e.blobs && (d.data.Some? <==> e.data.Some?)
  {
    hide FetchAll, Concat;
    var key, keys := MetaKey(hash, f.chunks), ChunkKeys(hash, f.chunks);
    assert KeysOf(hash, f)[0] == key && KeysOf(hash, f)[1..] == keys;
    var g := Fetch(blobs, key, remotes);
    if g.value.Some? {
      MetafileIsFetched(hash, files, f, blobs, remotes);
      SameKeysFetched(g.blobs, keys, g.rest, [], g.value.value);
    }
    FetchAllFirst(blobs, KeysOf(hash, f), remotes);
  }

  lemma FetchAllFirst(blobs: Blobs, keys: seq<Bytes>, remotes: seq<Remote>)
    requires keys != []
    ensures var g := Fetch(blobs, keys[0], remotes);
      FetchAll(blobs, keys, remotes, []) == if g.value.None? then Downloaded(g.blobs, None)
                                            else FetchAll(g.blobs, keys[1..], g.rest, g.value.value)
  {
    assert forall v: Bytes :: [] + v == v;
  }

  lemma MetafileIsFetched(hash: Hash, files: set<File>, f: File, blobs: Blobs, remotes: seq<Remote>)
    requires NoCollision(hash, files) && NoChunkIsHashList(hash, files)
    requires f in files && f.end.Eof? && f.chunks != []
    requires FromUploads(hash, files, blobs) && RemotesFromUploads(hash, files, remotes)
    ensures var g := Fetch(blobs, MetaKey(hash, f.chunks), remotes);
      g.value.Some? ==> g.value.value == Metafile(hash, f.chunks) && Fields(g.value.value) == ChunkKeys(hash, f.chunks)
  {
    KeysAgreeExactly(hash, files);
    var key, m := MetaKey(hash, f.chunks), Metafile(hash, f.chunks);
    FetchHonest(hash, files, blobs, key, remotes);
    assert Wrote(hash, f, key, m) && Written(hash, files, key, m);
    ChunkHashLengths(hash, files, f);
    MetafileRoundTrip(hash, f.chunks);
  }

  /** What is fetched does not depend on the data read so far. */
  lemma {:induction false} SameKeysFetched(blobs: Blobs, keys: seq<Bytes>, remotes: seq<Remote>, data: Bytes,
                                           other: Bytes)
    ensures var d, e := FetchAll(blobs, keys, remotes, data), FetchAll(blobs, keys, remotes, other);
      d.blobs == e.blobs && (d.data.Some? <==> e.data.Some?)
    decreases |keys|
  {
    if keys != [] {
      var f := Fetch(blobs, keys[0], remotes);
      if f.value.Some? {
        SameKeysFetched(f.blobs, keys[1..], f.rest, data + f.value.value, other + f.value.value);
      }
    }
  }

  /** After a download that succeeded, the metafile and every chunk are stored under their keys. */
  lemma DownloadKeepsTheFile(hash: Hash, files: set<File>, f: File, blobs: Blobs, remotes: seq<Remote>)
    requires NoCollision(hash, files) && NoChunkIsHashList(hash, files)
    requires f in files && f.end.Eof? && f.chunks != []
    requires FromUploads(hash, files, blobs) && RemotesFromUploads(hash, files, remotes)
    requires DownloadFrom(blobs, MetaKey(hash, f.chunks), remotes).data.Some?
    ensures var after, key := DownloadFrom(blobs, MetaKey(hash, f.chunks), remotes).blobs, MetaKey(hash, f.chunks);
      && Keeps(blobs, after)
      && key in after && after[key] == Metafile(hash, f.chunks)
      && (forall c :: c in f.chunks ==> ChunkKey(hash, c) in after && after[ChunkKey(hash, c)] == c)
  {
    hide NoCollision, NoChunkIsHashList, FetchAll, DownloadFrom;
    var key, d := MetaKey(hash, f.chunks), DownloadFrom(blobs, MetaKey(hash, f.chunks), remotes);
    DownloadFetchesAll(hash, files, f, blobs, remotes);
    FetchAllExactly(blobs, KeysOf(hash, f), remotes, []);
    DownloadReturnsTheUpload(hash, files, f, blobs, remotes);
    KeysAgreeExactly(hash, files);
    assert key == KeysOf(hash, f)[0] && key in d.blobs;
    assert Wrote(hash, f, key, Metafile(hash, f.chunks)) && Written(hash, files, key, Metafile(hash, f.chunks));
    forall c | c in f.chunks ensures ChunkKey(hash, c) in d.blobs && d.blobs[ChunkKey(hash, c)] == c {
      var i :| 0 <= i < |f.chunks| && f.chunks[i] == c;
      assert KeysOf(hash, f)[i + 1] == ChunkKey(hash, c);
      assert Wrote(hash, f, ChunkKey(hash, c), c) && Written(hash, files, ChunkKey(hash, c), c);
    }
  }

  /** So a second download asks nobody. */
  lemma SecondDownload(hash: Hash, files: set<File>, f: File, blobs: Blobs, remotes: seq<Remote>)
    requires NoCollision(hash, files) && NoChunkIsHashList(hash, files)
    requires f in files && f.end.Eof? && f.chunks != []
    requires FromUploads(hash, files, blobs) && RemotesFromUploads(hash, files, remotes)
    requires DownloadFrom(blobs, MetaKey(hash, f.chunks), remotes).data.Some?
    ensures var after := DownloadFrom(blobs, MetaKey(hash, f.chunks), remotes).blobs;
      DownloadFrom(after, MetaKey(hash, f.chunks), []).data == Some(Concat(f.chunks))
  {
    hide NoCollision, NoChunkIsHashList, DownloadFrom, FromUploads, RemotesFromUploads;
    var after := DownloadFrom(blobs, MetaKey(hash, f.chunks), remotes).blobs;
    DownloadKeepsTheFile(hash, files, f, blobs, remotes);
    DownloadReturnsTheUpload(hash, files, f, blobs, remotes);
    NoRemotes(hash, files);
    DownloadExactly(hash, files, f, after, []);
    NothingMissing(after.Keys, KeysOf(hash, f));
    NobodyAsked([]);
  }

  lemma NoRemotes(hash: Hash, files: set<File>)
    ensures RemotesFromUploads(hash, files, [])
  {
  }

  lemma {:induction false} NothingMissing(known: set<Bytes>, keys: seq<Bytes>)
    requires forall k :: k in keys ==> k in known
    ensures Missing(known, keys) == []
    decreases |keys|
  {
    if keys != [] {
      assert keys[0] in keys;
      NothingMissing(known, keys[1..]);
    }
  }

  /** Without any blobs, as many peers that hold the whole file as it has keys are enough. */
  lemma DownloadFromPeers(hash: Hash, files: set<File>, f: File, remotes: seq<Remote>)
    requires NoCollision(hash, files) && NoChunkIsHashList(hash, files)
    requires f in files && f.end.Eof? && f.chunks != []
    requires RemotesFromUploads(hash, files, remotes) && |remotes| >= |f.chunks| + 1
    requires forall i :: 0 <= i < |remotes| ==>
      remotes[i].Answers? && forall k :: k in KeysOf(hash, f) ==> k in remotes[i].blobs
    ensures DownloadFrom(map[], MetaKey(hash, f.chunks), remotes).data == Some(Concat(f.chunks))
  {
    hide NoCollision, NoChunkIsHashList, DownloadFrom, RemotesFromUploads;
    var nothing: Blobs := map[];
    assert nothing.Keys == {};
    MissingAmong({}, KeysOf(hash, f));
    var missing := Missing({}, KeysOf(hash, f));
    assert forall i :: 0 <= i < |missing| ==> missing[i] in missing;
    DownloadExactly(hash, files, f, map[], remotes);
  }

  lemma {:induction false} MissingAmong(known: set<Bytes>, keys: seq<Bytes>)
    ensures |Missing(known, keys)| <= |keys|
    ensures forall k :: k in Missing(known, keys) ==> k in keys
    decreases |keys|
  {
    if keys != [] {
      MissingAmong(if keys[0] in known then known else known + {keys[0]}, keys[1..]);
    }
  }

  // ---------------------------------------------------------------- the peers' stores

  /** The blob stores of the peers, the replies on their way, and the uploads begun. */
  datatype Peers = Peers(stores: seq<Blobs>, replies: set<(Bytes, Bytes)>, files: set<File>)

  datatype Action =
    | Begin(f: File)                      // an upload starts to read
    | Write(n: nat, k: Bytes, v: Bytes)   // one of the writes of an upload
    | Answer(n: nat, k: Bytes)            // ExecDataRequestMessage at n, for a key it has
    | Keep(n: nat, k: Bytes, v: Bytes)    // ExecDataReplyMessage at n

  ghost predicate Enabled(hash: Hash, s: Peers, a: Action) {
    match a
    case Begin(f) => true
    case Write(n, k, v) => n < |s.stores| && Written(hash, s.files, k, v)
    case Answer(n, k) => n < |s.stores| && k in s.stores[n]
    case Keep(n, k, v) => n < |s.stores| && (k, v) in s.replies
  }

  ghost function Apply(hash: Hash, s: Peers, a: Action): Peers
    requires Enabled(hash, s, a)
  {
    match a
    case Begin(f) => s.(files := s.files + {f})
    case Write(n, k, v) => s.(stores := s.stores[n := s.stores[n][k := v]])
    case Answer(n, k) => s.(replies := s.replies + {(k, s.stores[n][k])})
    case Keep(n, k, v) => s.(stores := s.stores[n := s.stores[n][k := v]])
  }

  ghost predicate Honest(hash: Hash, s: Peers) {
    && (forall n :: 0 <= n < |s.stores| ==> FromUploads(hash, s.files, s.stores[n]))
    && (forall r :: r in s.replies ==> Written(hash, s.files, r.0, r.1))
  }

  ghost predicate Legal(hash: Hash, s: Peers, run: seq<Action>)
    decreases |run|
  {
    run == [] || (Enabled(hash, s, run[0]) && Legal(hash, Apply(hash, s, run[0]), run[1..]))
  }

  ghost function Exec(hash: Hash, s: Peers, run: seq<Action>): Peers
    requires Legal(hash, s, run)
    decreases |run|
  {
    if run == [] then s else Exec(hash, Apply(hash, s, run[0]), run[1..])
  }

  lemma WrittenGrows(hash: Hash, files: set<File>, more: set<File>)
    requires files <= more
    ensures forall k, v :: Written(hash, files, k, v) ==> Written(hash, more, k, v)
  {
  }

  lemma StepKeepsHonest(hash: Hash, s: Peers, a: Action)
    requires Honest(hash, s) && Enabled(hash, s, a)
    ensures Honest(hash, Apply(hash, s, a))
  {
    if a.Begin? {
      WrittenGrows(hash, s.files, s.files + {a.f});
    }
  }

  lemma {:induction false} RunKeepsHonest(hash: Hash, s: Peers, run: seq<Action>)
    requires Honest(hash, s) && Legal(hash, s, run)
    ensures Honest(hash, Exec(hash, s, run))
    decreases |run|
  {
    if run != [] {
      StepKeepsHonest(hash, s, run[0]);
      RunKeepsHonest(hash, Apply(hash, s, run[0]), run[1..]);
    }
  }

  /** A request answered and its reply kept give a peer what the other one has. */
  lemma AnswerAndKeep(hash: Hash, s: Peers, m: nat, n: nat, k: Bytes)
    requires m < |s.stores| && n < |s.stores| && k in s.stores[m]
    ensures var t := Apply(hash, s, Answer(m, k)); var keep := Keep(n, k, s.stores[m][k]);
      && Enabled(hash, t, keep)
      && Apply(hash, t, keep).stores == s.stores[n := s.stores[n][k := s.stores[m][k]]]
  {
  }

  /** In every run from empty stores, all peers' stores agree on shared keys. */
  lemma StoresAgree(hash: Hash, peers: nat, run: seq<Action>, m: nat, n: nat, k: Bytes)
    requires Legal(hash, Peers(seq(peers, _ => map[]), {}, {}), run)
    requires var s := Exec(hash, Peers(seq(peers, _ => map[]), {}, {}), run);
      && NoCollision(hash, s.files) && NoChunkIsHashList(hash, s.files)
      && m < |s.stores| && n < |s.stores| && k in s.stores[m] && k in s.stores[n]
    ensures var s := Exec(hash, Peers(seq(peers, _ => map[]), {}, {}), run);
      s.stores[m][k] == s.stores[n][k] && FromUploads(hash, s.files, s.stores[m])
  {
    var s := Exec(hash, Peers(seq(peers, _ => map[]), {}, {}), run);
    RunKeepsHonest(hash, Peers(seq(peers, _ => map[]), {}, {}), run);
    KeysAgreeExactly(hash, s.files);
  }
}
