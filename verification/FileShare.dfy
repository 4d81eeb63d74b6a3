/** Files cut into chunks that are stored under their hash, and a metafile that lists them. */
module FileShare {
  import opened Common
  import opened Bytes
  import opened Chain

  /** What a store holds under a key; None is the nil slice, as the bytes of an empty buffer are. */
  type Blobs = map<Bytes, Option<Bytes>>

  /** What a peer in the catalog answers for a key, if there is one. */
  type Remote = Bytes -> Option<Bytes>

  const METAFILE_SEP: byte := 10

  function Get(store: Blobs, key: Bytes): Option<Bytes> {
    if key in store then store[key] else None
  }

  function Slice(b: Bytes): Option<Bytes> {
    if b == [] then None else Some(b)
  }

  function Chunks(data: Bytes, size: nat): seq<Bytes>
    requires size > 0
  {
    if data == [] then []
    else if |data| <= size then [data]
    else [data[..size]] + Chunks(data[size..], size)
  }

  function Concat(parts: seq<Bytes>): Bytes {
    if parts == [] then [] else parts[0] + Concat(parts[1..])
  }

  function Hashes(h: HashFn, chunks: seq<Bytes>): seq<Bytes> {
    seq(|chunks|, i requires 0 <= i < |chunks| => h(chunks[i]))
  }

  function Keys(h: HashFn, chunks: seq<Bytes>): (keys: seq<Bytes>)
    ensures |keys| == |chunks|
  {
    seq(|chunks|, i requires 0 <= i < |chunks| => Hex(h(chunks[i])))
  }

  /** The name of a file: the hash of its chunks' hashes. */
  function MetaKey(h: HashFn, chunks: seq<Bytes>): Bytes {
    Hex(h(Concat(Hashes(h, chunks))))
  }

  function StoreChunks(store: Blobs, h: HashFn, chunks: seq<Bytes>): Blobs {
    if chunks == [] then store
    else
      var last := chunks[|chunks| - 1];
      StoreChunks(store, h, chunks[..|chunks| - 1])[Hex(h(last)) := Some(last)]
  }

  function Uploaded(store: Blobs, h: HashFn, data: Bytes, size: nat): Blobs
    requires size > 0
  {
    var chunks := Chunks(data, size);
    StoreChunks(store, h, chunks)[MetaKey(h, chunks) := Slice(Join(Keys(h, chunks), METAFILE_SEP))]
  }

  function Fetch(store: Blobs, remote: Remote, key: Bytes): Option<Bytes> {
    if Get(store, key).Some? then Get(store, key) else remote(key)
  }

  function Gather(store: Blobs, remote: Remote, keys: seq<Bytes>): Option<Bytes> {
    if keys == [] then Some([])
    else
      var before := Gather(store, remote, keys[..|keys| - 1]);
      var last := Fetch(store, remote, keys[|keys| - 1]);
      if before.None? || last.None? then None else Some(before.value + last.value)
  }

  function Downloaded(store: Blobs, remote: Remote, key: Bytes): Option<Bytes> {
    var metafile := Fetch(store, remote, key);
    if metafile.None? then None else Gather(store, remote, Split(metafile.value, METAFILE_SEP))
  }

  // ----- the chunks

  /** The chunks make up the data; all but the last have the full size, and the last is not empty. */
  lemma {:induction false} ChunksMakeUp(data: Bytes, size: nat)
    requires size > 0
    ensures var chunks := Chunks(data, size);
            && Concat(chunks) == data && (chunks == [] <==> data == [])
            && (forall i :: 0 <= i < |chunks| - 1 ==> |chunks[i]| == size)
            && (forall i :: 0 <= i < |chunks| ==> 1 <= |chunks[i]| <= size)
  {
    if data != [] {
      if |data| <= size {
        assert Concat([data]) == data + Concat([]);
      } else {
        ChunksMakeUp(data[size..], size);
        assert data == data[..size] + data[size..];
      }
    }
  }

  lemma {:induction false} ConcatSnoc(parts: seq<Bytes>, last: Bytes)
    ensures Concat(parts + [last]) == Concat(parts) + last
  {
    if parts == [] {
      assert Concat([last]) == last + Concat([]);
      assert [] + [last] == [last];
    } else {
      assert (parts + [last])[1..] == parts[1..] + [last];
      ConcatSnoc(parts[1..], last);
    }
  }

  lemma {:induction false} JoinSnoc(keys: seq<Bytes>, last: Bytes, sep: byte)
    requires keys != []
    ensures Join(keys + [last], sep) == Join(keys, sep) + [sep] + last
  {
    if |keys| == 1 {
      assert (keys + [last])[1..] == [last];
    } else {
      assert (keys + [last])[1..] == keys[1..] + [last];
      JoinSnoc(keys[1..], last, sep);
    }
  }

  // ----- the round trip

  /** No two different inputs hashed for these chunks have one hash. */
  ghost predicate NoCollision(h: HashFn, chunks: seq<Bytes>) {
    && (forall i, j :: 0 <= i < |chunks| && 0 <= j < |chunks| && h(chunks[i]) == h(chunks[j]) ==>
          chunks[i] == chunks[j])
    && (forall i :: 0 <= i < |chunks| ==> h(chunks[i]) != h(Concat(Hashes(h, chunks))))
  }

  lemma {:induction false} StoredUnder(store: Blobs, h: HashFn, chunks: seq<Bytes>, i: nat)
    requires i < |chunks|
    requires forall j :: i <= j < |chunks| && h(chunks[i]) == h(chunks[j]) ==> chunks[i] == chunks[j]
    ensures Get(StoreChunks(store, h, chunks), Hex(h(chunks[i]))) == Some(chunks[i])
  {
    var last := |chunks| - 1;
    if i < last {
      StoredUnder(store, h, chunks[..last], i);
      if Hex(h(chunks[i])) == Hex(h(chunks[last])) {
        HexInjective(h(chunks[i]), h(chunks[last]));
      }
    }
  }

  lemma {:induction false} GatherFetches(store: Blobs, remote: Remote, keys: seq<Bytes>, parts: seq<Bytes>)
    requires |keys| == |parts| && forall i :: 0 <= i < |keys| ==> Get(store, keys[i]) == Some(parts[i])
    ensures Gather(store, remote, keys) == Some(Concat(parts))
  {
    if keys != [] {
      var last := |keys| - 1;
      GatherFetches(store, remote, keys[..last], parts[..last]);
      ConcatSnoc(parts[..last], parts[last]);
      assert parts == parts[..last] + [parts[last]];
    }
  }

  lemma {:induction false} KeysSplit(h: HashFn, chunks: seq<Bytes>)
    requires chunks != []
    ensures Split(Join(Keys(h, chunks), METAFILE_SEP), METAFILE_SEP) == Keys(h, chunks)
  {
    forall k | k in Keys(h, chunks)
      ensures METAFILE_SEP !in k
    {
      var i :| 0 <= i < |chunks| && k == Hex(h(chunks[i]));
    }
    SplitJoin(Keys(h, chunks), METAFILE_SEP);
  }

  lemma {:induction false} JoinNotEmpty(keys: seq<Bytes>, sep: byte)
    requires keys != [] && keys[0] != []
    ensures Join(keys, sep) != []
  {
  }

  /** Downloading what was uploaded gives the data back, whatever other peers hold. */
  lemma {:induction false} RoundTrip(store: Blobs, h: HashFn, data: Bytes, size: nat, remote: Remote)
    requires size > 0 && data != [] && NoCollision(h, Chunks(data, size)) && forall b :: h(b) != []
    ensures Downloaded(Uploaded(store, h, data, size), remote, MetaKey(h, Chunks(data, size))) == Some(data)
  {
    var chunks := Chunks(data, size);
    var keys := Keys(h, chunks);
    var after := Uploaded(store, h, data, size);
    ChunksMakeUp(data, size);
    KeysSplit(h, chunks);
    JoinNotEmpty(keys, METAFILE_SEP);
    forall i | 0 <= i < |chunks|
      ensures Get(after, keys[i]) == Some(chunks[i])
    {
      StoredUnder(store, h, chunks, i);
      if keys[i] == MetaKey(h, chunks) {
        HexInjective(h(chunks[i]), h(Concat(Hashes(h, chunks))));
      }
    }
    GatherFetches(after, remote, keys, chunks);
  }

  /** Where no other peer helps, the round trip works exactly for data that is not empty. */
  lemma {:induction false} RoundTripIff(store: Blobs, h: HashFn, data: Bytes, size: nat, remote: Remote)
    requires size > 0 && NoCollision(h, Chunks(data, size)) && forall b :: h(b) != []
    requires forall k :: remote(k) == None
    ensures var after := Uploaded(store, h, data, size);
            Downloaded(after, remote, MetaKey(h, Chunks(data, size))) == Some(data) <==> data != []
  {
    if data != [] {
      RoundTrip(store, h, data, size, remote);
    }
  }

  // ----- the loops

  /** What the loop has done once it is at bufPtr: these chunks are stored and listed. */
  ghost predicate Writing(h: HashFn, buf: Bytes, size: nat, before: Blobs, bufPtr: nat, done: seq<Bytes>,
                          store: Blobs, keyBuf: Bytes, valueBuf: Bytes)
    requires size > 0 && bufPtr <= |buf|
  {
    && Chunks(buf, size) == done + Chunks(buf[bufPtr..], size)
    && store == StoreChunks(before, h, done)
    && keyBuf == Concat(Hashes(h, done))
    && valueBuf == Join(Keys(h, done), METAFILE_SEP) + if done != [] && bufPtr < |buf| then [METAFILE_SEP] else []
  }

  lemma WritingNext(h: HashFn, buf: Bytes, size: nat, before: Blobs, bufPtr: nat, done: seq<Bytes>,
                    store: Blobs, keyBuf: Bytes, valueBuf: Bytes, cur: nat)
    requires size > 0 && bufPtr < |buf| && cur == if |buf| - bufPtr > size then size else |buf| - bufPtr
    requires Writing(h, buf, size, before, bufPtr, done, store, keyBuf, valueBuf)
    ensures var chunk := buf[bufPtr..bufPtr + cur];
            var value := valueBuf + Hex(h(chunk));
            Writing(h, buf, size, before, bufPtr + cur, done + [chunk], store[Hex(h(chunk)) := Some(chunk)],
                    keyBuf + h(chunk), if bufPtr + cur < |buf| then value + [METAFILE_SEP] else value)
  {
    hide Chunks, Concat, Join, Hex;
    var chunk := buf[bufPtr..bufPtr + cur];
    NextChunk(buf, bufPtr, size, done);
    Written(h, done, chunk);
  }

  lemma WritingBegins(h: HashFn, buf: Bytes, size: nat, before: Blobs)
    requires size > 0
    ensures Writing(h, buf, size, before, 0, [], before, [], [])
  {
    assert buf[0..] == buf;
    assert Hashes(h, []) == [] && Keys(h, []) == [];
  }

  lemma WritingDone(h: HashFn, buf: Bytes, size: nat, before: Blobs, done: seq<Bytes>, store: Blobs, keyBuf: Bytes,
        valueBuf: Bytes)
    requires size > 0 && Writing(h, buf, size, before, |buf|, done, store, keyBuf, valueBuf)
    ensures Hex(h(keyBuf)) == MetaKey(h, Chunks(buf, size))
    ensures store[Hex(h(keyBuf)) := Slice(valueBuf)] == Uploaded(before, h, buf, size)
  {
    assert buf[|buf|..] == [] && done + [] == done;
    assert valueBuf == Join(Keys(h, done), METAFILE_SEP);
  }

  class Sharer {
    const h: HashFn
    const chunkSize: nat
    var store: Blobs

    constructor (h: HashFn, chunkSize: nat)
      ensures this.h == h && this.chunkSize == chunkSize && store == map[]
    {
      this.h, this.chunkSize, store := h, chunkSize, map[];
    }

    method Upload(buf: Bytes) returns (metafileKey: Bytes)
      requires chunkSize > 0
      modifies this`store
      ensures store == Uploaded(old(store), h, buf, chunkSize)
      ensures metafileKey == MetaKey(h, Chunks(buf, chunkSize))
    {
      var dataLen, bufPtr, curSize := |buf|, 0, 0;
      var metafileKeyBuf, metafileValueBuf := [], [];
      ghost var before, done := store, [];
      WritingBegins(h, buf, chunkSize, store);
      while dataLen > 0
        invariant 0 <= dataLen && dataLen + bufPtr == |buf|
        invariant Writing(h, buf, chunkSize, before, bufPtr, done, store, metafileKeyBuf, metafileValueBuf)
      {
        if dataLen > chunkSize {
          dataLen := dataLen - chunkSize;
          curSize := chunkSize;
        } else {
          curSize := dataLen;
          dataLen := 0;
        }
        var chunk := buf[bufPtr..bufPtr + curSize];
        WritingNext(h, buf, chunkSize, before, bufPtr, done, store, metafileKeyBuf, metafileValueBuf, curSize);
        bufPtr := bufPtr + curSize;
        var hash := h(chunk);
        metafileKeyBuf := metafileKeyBuf + hash;
        metafileValueBuf := metafileValueBuf + Hex(hash);
        if dataLen > 0 {
          metafileValueBuf := metafileValueBuf + [METAFILE_SEP];
        }
        store := store[Hex(hash) := Some(chunk)];
        done := done + [chunk];
      }
      WritingDone(h, buf, chunkSize, before, done, store, metafileKeyBuf, metafileValueBuf);
      metafileKey := Hex(h(metafileKeyBuf));
      store := store[metafileKey := Slice(metafileValueBuf)];
    }

    method Download(metahash: Bytes, remote: Remote) returns (file: Option<Bytes>)
      ensures file == Downloaded(store, remote, metahash)
    {
      var metafile := Fetch(store, remote, metahash);
      if metafile.None? {
        return None;
      }
      var chunkKeys := Split(metafile.value, METAFILE_SEP);
      var bytes, i := [], 0;
      while i < |chunkKeys|
        invariant 0 <= i <= |chunkKeys|
        invariant Gather(store, remote, chunkKeys[..i]) == Some(bytes)
      {
        assert chunkKeys[..i + 1][..i] == chunkKeys[..i];
        var chunk := Fetch(store, remote, chunkKeys[i]);
        if chunk.None? {
          GatherFails(store, remote, chunkKeys, i);
          return None;
        }
        bytes := bytes + chunk.value;
        i := i + 1;
      }
      assert chunkKeys[..i] == chunkKeys;
      file := Some(bytes);
    }
  }

  lemma {:induction false} GatherFails(store: Blobs, remote: Remote, keys: seq<Bytes>, i: nat)
    requires i < |keys| && Fetch(store, remote, keys[i]).None?
    ensures Gather(store, remote, keys).None?
  {
    if i < |keys| - 1 {
      GatherFails(store, remote, keys[..|keys| - 1], i);
    }
  }

  /** The chunk the loop cuts off next. */
  lemma NextChunk(buf: Bytes, bufPtr: nat, size: nat, done: seq<Bytes>)
    requires size > 0 && bufPtr < |buf| && Chunks(buf, size) == done + Chunks(buf[bufPtr..], size)
    ensures var cur := if |buf| - bufPtr > size then size else |buf| - bufPtr;
            Chunks(buf, size) == done + [buf[bufPtr..bufPtr + cur]] + Chunks(buf[bufPtr + cur..], size)
  {
    var rest := buf[bufPtr..];
    var cur := if |rest| > size then size else |rest|;
    assert rest[..cur] == buf[bufPtr..bufPtr + cur] && rest[cur..] == buf[bufPtr + cur..];
    if |rest| <= size {
      assert rest[..cur] == rest && rest[cur..] == [];
    }
  }

  /** What one more chunk adds to the store's index. */
  lemma {:induction false} Written(h: HashFn, done: seq<Bytes>, chunk: Bytes)
    ensures Concat(Hashes(h, done + [chunk])) == Concat(Hashes(h, done)) + h(chunk)
    ensures Join(Keys(h, done + [chunk]), METAFILE_SEP) ==
            Join(Keys(h, done), METAFILE_SEP) + (if done != [] then [METAFILE_SEP] else []) + Hex(h(chunk))
    ensures (done + [chunk])[..|done|] == done
  {
    assert Hashes(h, done + [chunk]) == Hashes(h, done) + [h(chunk)];
    ConcatSnoc(Hashes(h, done), h(chunk));
    assert Keys(h, done + [chunk]) == Keys(h, done) + [Hex(h(chunk))];
    if done != [] {
      JoinSnoc(Keys(h, done), Hex(h(chunk)), METAFILE_SEP);
    }
  }
}
