/** Files that an applicant encrypts chunk by chunk, and that an HR peer puts together again. */
module SecureFile {
  import opened Common
  import opened Bytes
  import opened Chain
  import opened Padding
  import opened FileShare

  const BLOCK := 16

  /** Block chaining under a key and an initialization vector, over whole blocks. */
  datatype Cipher = Cipher(encrypt: (Bytes, Bytes, Bytes) -> Bytes, decrypt: (Bytes, Bytes, Bytes) -> Bytes)

  /** Both directions keep the length, and one undoes the other. */
  ghost predicate Sound(c: Cipher) {
    && (forall k, iv, p {:trigger c.encrypt(k, iv, p)} ::
          |c.encrypt(k, iv, p)| == |p|
                && (|iv| == BLOCK && |p| % BLOCK == 0 ==> c.decrypt(k, iv, c.encrypt(k, iv, p)) == p))
    && (forall k, iv, p {:trigger c.decrypt(k, iv, p)} :: |c.decrypt(k, iv, p)| == |p|)
  }

  /** The vector, then the padded text encrypted; padding that fails leaves nothing to encrypt. */
  function Encrypt(c: Cipher, key: Bytes, iv: Bytes, plaintext: Bytes): Bytes {
    var padded := Pad(plaintext, BLOCK);
    iv + c.encrypt(key, iv, if padded.Ok? then padded.value else [])
  }

  /** None where an index runs past the end or only a part of a block is left; unpadding that fails yields nothing. */
  function Decrypt(c: Cipher, key: Bytes, ciphertext: Bytes): Option<Bytes> {
    if |ciphertext| < BLOCK || (|ciphertext| - BLOCK) % BLOCK != 0 then None
    else
      var plain := Unpad(c.decrypt(key, ciphertext[..BLOCK], ciphertext[BLOCK..]), BLOCK);
      Some(if plain.Ok? then plain.value else [])
  }

  method AESEncrypt(c: Cipher, key: Bytes, iv: Bytes, plaintext: array<byte>) returns (ciphertext: array<byte>)
    requires Sound(c) && |iv| == BLOCK
    ensures fresh(ciphertext) && ciphertext[..] == Encrypt(c, key, iv, plaintext[..])
  {
    ghost var was := plaintext[..];
    var padded, _ := Pkcs7Pad(plaintext, BLOCK);
    var text := if padded == null then [] else padded[..];
    assert text == if Pad(was, BLOCK).Ok? then Pad(was, BLOCK).value else [];
    var blocks := c.encrypt(key, iv, text);
    ciphertext := new byte[BLOCK + |text|];
    forall i | 0 <= i < BLOCK {
      ciphertext[i] := iv[i];
    }
    forall i | BLOCK <= i < ciphertext.Length {
      ciphertext[i] := blocks[i - BLOCK];
    }
    assert ciphertext[..] == iv + blocks && plaintext[..] == was;
  }

  /** Decryption works in place on the ciphertext behind the vector. */
  method AESDecrypt(c: Cipher, key: Bytes, ciphertext: array<byte>) returns (plaintext: Option<Bytes>)
    requires Sound(c)
    modifies ciphertext
    ensures plaintext == Decrypt(c, key, old(ciphertext[..]))
  {
    if ciphertext.Length < BLOCK || (ciphertext.Length - BLOCK) % BLOCK != 0 {
      return None;
    }
    var blocks := c.decrypt(key, ciphertext[..BLOCK], ciphertext[BLOCK..]);
    assert ciphertext[..][..BLOCK] == ciphertext[..BLOCK] && ciphertext[..][BLOCK..] == ciphertext[BLOCK..];
    forall i | BLOCK <= i < ciphertext.Length {
      ciphertext[i] := blocks[i - BLOCK];
    }
    var body := new byte[|blocks|](i requires 0 <= i < |blocks| => blocks[i]);
    assert body[..] == blocks;
    var plain := Pkcs7Unpad(body, BLOCK);
    plaintext := Some(if plain.Ok? then plain.value else []);
  }

  /** Decrypting what was encrypted gives the text back, the empty one included. */
  lemma {:induction false} DecryptEncrypt(c: Cipher, key: Bytes, iv: Bytes, plaintext: Bytes)
    requires Sound(c) && |iv| == BLOCK
    ensures Decrypt(c, key, Encrypt(c, key, iv, plaintext)) == Some(plaintext)
  {
    var padded := Pad(plaintext, BLOCK);
    var text := if padded.Ok? then padded.value else [];
    if plaintext != [] {
      UnpadPad(plaintext, BLOCK);
      PadLength(plaintext, BLOCK);
    }
    var blocks := c.encrypt(key, iv, text);
    assert (iv + blocks)[..BLOCK] == iv && (iv + blocks)[BLOCK..] == blocks;
  }

  /** Decryption gives nothing at all exactly for a text without a whole vector or with part of a block behind it;
      otherwise it gives what the blocks unpad to, and the empty text for blocks that do not. */
  lemma {:induction false} DecryptOutcome(c: Cipher, key: Bytes, ciphertext: Bytes)
    requires Sound(c)
    ensures Decrypt(c, key, ciphertext).None? <==> |ciphertext| < BLOCK || |ciphertext| % BLOCK != 0
    ensures |ciphertext| >= BLOCK && |ciphertext| % BLOCK == 0 ==>
              var body := c.decrypt(key, ciphertext[..BLOCK], ciphertext[BLOCK..]);
              && (|ciphertext| == BLOCK || !EndsInCount(body) ==> Decrypt(c, key, ciphertext) == Some([]))
              && (|ciphertext| > BLOCK && EndsInCount(body) ==>
                    Decrypt(c, key, ciphertext) == Some(body[..|body| - body[|body| - 1]]))
  {
    if |ciphertext| >= BLOCK {
      assert (|ciphertext| - BLOCK) % BLOCK == |ciphertext| % BLOCK;
      var body := c.decrypt(key, ciphertext[..BLOCK], ciphertext[BLOCK..]);
      if body != [] && |ciphertext| % BLOCK == 0 {
        var n: nat := body[|body| - 1];
        if 0 < n <= |body| {
          EndsIn(body, n);
        }
      }
    }
  }

  // ----- upload and download

  /** The entry key in the encoded information on a file, and back; a text that does not decode has none. */
  datatype Codec = Codec(encode: Bytes -> Bytes, decode: Bytes -> Bytes)

  ghost predicate Decodes(codec: Codec) {
    forall k :: codec.decode(codec.encode(k)) == k
  }

  /** What an applicant has at hand: its hash, cipher, key, encoding, and the vectors it draws. */
  datatype Kit = Kit(h: HashFn, c: Cipher, key: Bytes, codec: Codec, ivs: nat -> Bytes, size: nat)

  ghost predicate Usable(kit: Kit) {
    Sound(kit.c) && Decodes(kit.codec) && kit.size > 0 && forall i :: |kit.ivs(i)| == BLOCK
  }

  datatype Message = Message(chunkKey: Bytes, chunk: Bytes)

  /** The i-th chunk encrypted. */
  function Encrypted(kit: Kit, chunks: seq<Bytes>): (es: seq<Bytes>)
    ensures |es| == |chunks|
  {
    seq(|chunks|, i requires 0 <= i < |chunks| => Encrypt(kit.c, kit.key, kit.ivs(i), chunks[i]))
  }

  function Named(h: HashFn, chunks: seq<Bytes>): seq<Message> {
    seq(|chunks|, i requires 0 <= i < |chunks| => Message(Hex(h(chunks[i])), chunks[i]))
  }

  /** All that an upload sends: the encrypted chunks, the information on the file, and its metafile. */
  function Sent(kit: Kit, data: Bytes): seq<Message>
    requires kit.size > 0
  {
    var es := Encrypted(kit, Chunks(data, kit.size));
    var info := InfoChunk(kit, es);
    Named(kit.h, es) + [Message(Hex(kit.h(info)), info)] + [Message(MetaKey(kit.h, es), MetaChunk(kit, es))]
  }

  function InfoChunk(kit: Kit, es: seq<Bytes>): Bytes {
    Encrypt(kit.c, kit.key, kit.ivs(|es| + 1), kit.codec.encode(MetaKey(kit.h, es)))
  }

  function MetaChunk(kit: Kit, es: seq<Bytes>): Bytes {
    Encrypt(kit.c, kit.key, kit.ivs(|es|), Join(Keys(kit.h, es), METAFILE_SEP))
  }

  /** What the upload returns: the name of the information on the file. */
  function FileID(kit: Kit, data: Bytes): Bytes
    requires kit.size > 0
  {
    Hex(kit.h(InfoChunk(kit, Encrypted(kit, Chunks(data, kit.size)))))
  }

  /** A chunk found somewhere and decrypted. */
  function FetchChunk(found: Remote, c: Cipher, key: Bytes, name: Bytes): Option<Bytes> {
    if found(name).None? then None else Decrypt(c, key, found(name).value)
  }

  function GatherChunks(found: Remote, c: Cipher, key: Bytes, names: seq<Bytes>): Option<Bytes> {
    if names == [] then Some([])
    else
      var before := GatherChunks(found, c, key, names[..|names| - 1]);
      var last := FetchChunk(found, c, key, names[|names| - 1]);
      if before.None? || last.None? then None else Some(before.value + last.value)
  }

  function Reconstructed(found: Remote, c: Cipher, codec: Codec, key: Bytes, id: Bytes): Option<Bytes> {
    var info := FetchChunk(found, c, key, id);
    if info.None? then None
    else
      var metafile := FetchChunk(found, c, key, codec.decode(info.value));
      if metafile.None? then None else GatherChunks(found, c, key, Split(metafile.value, METAFILE_SEP))
  }

  /** Every chunk that was sent is found under its name; so no two different ones share a name. */
  ghost predicate AllFound(found: Remote, sent: seq<Message>) {
    forall i :: 0 <= i < |sent| ==> found(sent[i].chunkKey) == Some(sent[i].chunk)
  }

  lemma {:induction false} GatherDecrypts(found: Remote, c: Cipher, key: Bytes, names: seq<Bytes>, parts: seq<Bytes>)
    requires |names| == |parts| && forall i :: 0 <= i < |names| ==>
          FetchChunk(found, c, key, names[i]) == Some(parts[i])
    ensures GatherChunks(found, c, key, names) == Some(Concat(parts))
  {
    if names != [] {
      var last := |names| - 1;
      GatherDecrypts(found, c, key, names[..last], parts[..last]);
      ConcatSnoc(parts[..last], parts[last]);
      assert parts == parts[..last] + [parts[last]];
    }
  }

  /** The chunks of the file, each found and decrypted. */
  lemma {:induction false} ChunksDecrypt(kit: Kit, data: Bytes, found: Remote)
    requires Usable(kit) && AllFound(found, Sent(kit, data))
    ensures var chunks := Chunks(data, kit.size);
            var es := Encrypted(kit, chunks);
            GatherChunks(found, kit.c, kit.key, Keys(kit.h, es)) == Some(data)
  {
    var chunks := Chunks(data, kit.size);
    var es := Encrypted(kit, chunks);
    var sent := Sent(kit, data);
    forall i | 0 <= i < |chunks|
      ensures FetchChunk(found, kit.c, kit.key, Keys(kit.h, es)[i]) == Some(chunks[i])
    {
      assert sent[i] == Message(Hex(kit.h(es[i])), es[i]);
      DecryptEncrypt(kit.c, kit.key, kit.ivs(i), chunks[i]);
    }
    GatherDecrypts(found, kit.c, kit.key, Keys(kit.h, es), chunks);
    ChunksMakeUp(data, kit.size);
  }

  /** The information chunk leads to the metafile. */
  lemma {:induction false} MetafileDecrypts(kit: Kit, data: Bytes, found: Remote)
    requires Usable(kit) && AllFound(found, Sent(kit, data))
    ensures var es := Encrypted(kit, Chunks(data, kit.size));
            && FetchChunk(found, kit.c, kit.key, FileID(kit, data)) == Some(kit.codec.encode(MetaKey(kit.h, es)))
            && FetchChunk(found, kit.c, kit.key, MetaKey(kit.h, es)) == Some(Join(Keys(kit.h, es), METAFILE_SEP))
  {
    var es := Encrypted(kit, Chunks(data, kit.size));
    var sent := Sent(kit, data);
    assert sent[|es|] == Message(FileID(kit, data), InfoChunk(kit, es));
    assert sent[|es| + 1] == Message(MetaKey(kit.h, es), MetaChunk(kit, es));
    DecryptEncrypt(kit.c, kit.key, kit.ivs(|es| + 1), kit.codec.encode(MetaKey(kit.h, es)));
    DecryptEncrypt(kit.c, kit.key, kit.ivs(|es|), Join(Keys(kit.h, es), METAFILE_SEP));
  }

  /** What goes out, and in what order: each chunk of the file, then the information, then the metafile. All but the
      last are named by their hash, the last by the hash of the chunks' hashes, and each is led by a vector drawn for
      it alone: the chunks by the first ones, the metafile by the next and the information by the one after. */
  lemma {:induction false} SentInOrder(kit: Kit, data: Bytes)
    requires Usable(kit)
    ensures var sent, n := Sent(kit, data), |Chunks(data, kit.size)|;
            && |sent| == n + 2
            && (forall i :: 0 <= i < n + 2 ==> |sent[i].chunk| >= BLOCK)
            && (forall i :: 0 <= i < n ==> sent[i].chunk[..BLOCK] == kit.ivs(i))
            && sent[n].chunk[..BLOCK] == kit.ivs(n + 1) && sent[n + 1].chunk[..BLOCK] == kit.ivs(n)
            && (forall i :: 0 <= i < n + 1 ==> sent[i].chunkKey == Hex(kit.h(sent[i].chunk)))
            && sent[n].chunkKey == FileID(kit, data)
            && exists es: seq<Bytes> ::
                 && |es| == n && (forall i :: 0 <= i < n ==> es[i] == sent[i].chunk)
                 && sent[n + 1].chunkKey == Hex(kit.h(Concat(Hashes(kit.h, es))))
  {
    hide Pad, Hex, Join, Concat, Chunks;
    var es := Encrypted(kit, Chunks(data, kit.size));
    var sent := Sent(kit, data);
    forall i | 0 <= i < |es|
      ensures sent[i] == Message(Hex(kit.h(es[i])), es[i]) && |es[i]| >= BLOCK && es[i][..BLOCK] == kit.ivs(i)
    {
      Led(kit.c, kit.key, kit.ivs(i), Chunks(data, kit.size)[i]);
    }
    Led(kit.c, kit.key, kit.ivs(|es| + 1), kit.codec.encode(MetaKey(kit.h, es)));
    Led(kit.c, kit.key, kit.ivs(|es|), Join(Keys(kit.h, es), METAFILE_SEP));
    assert sent[|es|].chunk == InfoChunk(kit, es) && sent[|es| + 1].chunk == MetaChunk(kit, es);
  }

  lemma Led(c: Cipher, key: Bytes, iv: Bytes, plaintext: Bytes)
    requires |iv| == BLOCK
    ensures |Encrypt(c, key, iv, plaintext)| >= BLOCK && Encrypt(c, key, iv, plaintext)[..BLOCK] == iv
  {
  }

  /** With the same key, and all that was sent found again in any store, the file comes back exactly when it
      is not empty, unless something is found under the empty name. */
  lemma {:induction false} SecureRoundTripIff(kit: Kit, data: Bytes, found: Remote)
    requires Usable(kit) && AllFound(found, Sent(kit, data))
    ensures data != [] ==> Reconstructed(found, kit.c, kit.codec, kit.key, FileID(kit, data)) == Some(data)
    ensures found([]) == None ==>
              (Reconstructed(found, kit.c, kit.codec, kit.key, FileID(kit, data)) == Some(data) <==> data != [])
  {
    var es := Encrypted(kit, Chunks(data, kit.size));
    MetafileDecrypts(kit, data, found);
    if data != [] {
      ChunksDecrypt(kit, data, found);
      ChunksMakeUp(data, kit.size);
      KeysSplit(kit.h, es);
    } else {
      EmptyMetafile(found, kit.c, kit.key);
    }
  }

  lemma EmptyMetafile(found: Remote, c: Cipher, key: Bytes)
    ensures Split([], METAFILE_SEP) == [[]]
    ensures found([]) == None ==> GatherChunks(found, c, key, [[]]) == None
  {
  }

  // ----- the loops

  class Applicant {
    const kit: Kit

    constructor (kit: Kit)
      ensures this.kit == kit
    {
      this.kit := kit;
    }

    /** The name of the file, and the chunk messages in the order they go out. */
    method Upload(buf: Bytes) returns (id: Bytes, sent: seq<Message>)
      requires kit.size > 0
      ensures id == FileID(kit, buf) && sent == Sent(kit, buf)
    {
      var dataLen, bufPtr, curSize := |buf|, 0, 0;
      var metafileKeyBuf, metafileValueBuf, done: seq<Bytes> := [], [], [];
      sent := [];
      UploadBegins(kit, buf);
      while dataLen > 0
        invariant 0 <= dataLen && dataLen + bufPtr == |buf|
        invariant Uploading(kit, buf, bufPtr, done, sent, metafileKeyBuf, metafileValueBuf)
      {
        if dataLen > kit.size {
          dataLen := dataLen - kit.size;
          curSize := kit.size;
        } else {
          curSize := dataLen;
          dataLen := 0;
        }
        var chunk := buf[bufPtr..bufPtr + curSize];
        UploadNext(kit, buf, bufPtr, done, sent, metafileKeyBuf, metafileValueBuf, curSize);
        bufPtr := bufPtr + curSize;
        var enChunk := Encrypt(kit.c, kit.key, kit.ivs(|done|), chunk);
        var hash := kit.h(enChunk);
        metafileKeyBuf := metafileKeyBuf + hash;
        metafileValueBuf := metafileValueBuf + Hex(hash);
        if dataLen > 0 {
          metafileValueBuf := metafileValueBuf + [METAFILE_SEP];
        }
        sent := sent + [Message(Hex(hash), enChunk)];
        done := done + [chunk];
      }
      UploadEnds(kit, buf, done, sent, metafileKeyBuf, metafileValueBuf);
      var metafileKey := Hex(kit.h(metafileKeyBuf));
      var enMeta := Encrypt(kit.c, kit.key, kit.ivs(|done|), metafileValueBuf);
      var enInfo := Encrypt(kit.c, kit.key, kit.ivs(|done| + 1), kit.codec.encode(metafileKey));
      id := Hex(kit.h(enInfo));
      sent := sent + [Message(id, enInfo)] + [Message(metafileKey, enMeta)];
    }
  }

  /** What the loop has done once it is at bufPtr: these chunks are encrypted, sent and listed. */
  ghost predicate Uploading(kit: Kit, buf: Bytes, bufPtr: nat, done: seq<Bytes>,
                            sent: seq<Message>, keyBuf: Bytes, valueBuf: Bytes)
    requires kit.size > 0 && bufPtr <= |buf|
  {
    var es := Encrypted(kit, done);
    && Chunks(buf, kit.size) == done + Chunks(buf[bufPtr..], kit.size)
    && sent == Named(kit.h, es)
    && keyBuf == Concat(Hashes(kit.h, es))
    && valueBuf == Join(Keys(kit.h, es), METAFILE_SEP) + if es != [] && bufPtr < |buf| then [METAFILE_SEP] else []
  }

  lemma UploadBegins(kit: Kit, buf: Bytes)
    requires kit.size > 0
    ensures Uploading(kit, buf, 0, [], [], [], [])
  {
    assert buf[0..] == buf;
    assert Encrypted(kit, []) == [] && Hashes(kit.h, []) == [] && Keys(kit.h, []) == [] && Named(kit.h, []) == [];
  }

  lemma UploadNext(kit: Kit, buf: Bytes, bufPtr: nat, done: seq<Bytes>,
                   sent: seq<Message>, keyBuf: Bytes, valueBuf: Bytes, cur: nat)
    requires kit.size > 0 && bufPtr < |buf| && cur == if |buf| - bufPtr > kit.size then kit.size else |buf| - bufPtr
    requires Uploading(kit, buf, bufPtr, done, sent, keyBuf, valueBuf)
    ensures var chunk := buf[bufPtr..bufPtr + cur];
            var e := Encrypt(kit.c, kit.key, kit.ivs(|done|), chunk);
            var value := valueBuf + Hex(kit.h(e));
            Uploading(kit, buf, bufPtr + cur, done + [chunk], sent + [Message(Hex(kit.h(e)), e)],
                      keyBuf + kit.h(e), if bufPtr + cur < |buf| then value + [METAFILE_SEP] else value)
  {
    hide Chunks, Concat, Join, Hex, Encrypt;
    var chunk := buf[bufPtr..bufPtr + cur];
    var es := Encrypted(kit, done);
    var e := Encrypt(kit.c, kit.key, kit.ivs(|done|), chunk);
    NextChunk(buf, bufPtr, kit.size, done);
    assert Encrypted(kit, done + [chunk]) == es + [e];
    assert Named(kit.h, es + [e]) == Named(kit.h, es) + [Message(Hex(kit.h(e)), e)];
    Written(kit.h, es, e);
  }

  lemma UploadEnds(kit: Kit, buf: Bytes, done: seq<Bytes>, sent: seq<Message>, keyBuf: Bytes, valueBuf: Bytes)
    requires kit.size > 0 && Uploading(kit, buf, |buf|, done, sent, keyBuf, valueBuf)
    ensures var metafileKey := Hex(kit.h(keyBuf));
            var enMeta := Encrypt(kit.c, kit.key, kit.ivs(|done|), valueBuf);
            var enInfo := Encrypt(kit.c, kit.key, kit.ivs(|done| + 1), kit.codec.encode(metafileKey));
            && Hex(kit.h(enInfo)) == FileID(kit, buf)
            && sent + [Message(Hex(kit.h(enInfo)), enInfo)] + [Message(metafileKey, enMeta)] == Sent(kit, buf)
  {
    hide Hex, Encrypt, Join, Concat;
    assert buf[|buf|..] == [] && done + [] == done;
    assert Chunks(buf[|buf|..], kit.size) == [];
    var es := Encrypted(kit, done);
    assert valueBuf == Join(Keys(kit.h, es), METAFILE_SEP);
    var info, meta := Message(FileID(kit, buf), InfoChunk(kit, es)), Message(MetaKey(kit.h, es), MetaChunk(kit, es));
    assert Sent(kit, buf) == Named(kit.h, es) + [info] + [meta];
  }

  class HR {
    const c: Cipher
    const codec: Codec

    constructor (c: Cipher, codec: Codec)
      ensures this.c == c && this.codec == codec
    {
      this.c, this.codec := c, codec;
    }

    method ReconstructFile(found: Remote, id: Bytes, decKey: Bytes) returns (file: Option<Bytes>)
      ensures file == Reconstructed(found, c, codec, decKey, id)
    {
      var infoChunk := FetchChunk(found, c, decKey, id);
      if infoChunk.None? {
        return None;
      }
      var metafile := FetchChunk(found, c, decKey, codec.decode(infoChunk.value));
      if metafile.None? {
        return None;
      }
      var chunkKeys := Split(metafile.value, METAFILE_SEP);
      var bytes, i := [], 0;
      while i < |chunkKeys|
        invariant 0 <= i <= |chunkKeys|
        invariant GatherChunks(found, c, decKey, chunkKeys[..i]) == Some(bytes)
      {
        assert chunkKeys[..i + 1][..i] == chunkKeys[..i];
        var chunk := FetchChunk(found, c, decKey, chunkKeys[i]);
        if chunk.None? {
          GatherChunksFails(found, c, decKey, chunkKeys, i);
          return None;
        }
        bytes := bytes + chunk.value;
        i := i + 1;
      }
      assert chunkKeys[..i] == chunkKeys;
      file := Some(bytes);
    }
  }

  lemma {:induction false} GatherChunksFails(found: Remote, c: Cipher, key: Bytes, names: seq<Bytes>, i: nat)
    requires i < |names| && FetchChunk(found, c, key, names[i]).None?
    ensures GatherChunks(found, c, key, names).None?
  {
    if i < |names| - 1 {
      GatherChunksFails(found, c, key, names[..|names| - 1], i);
    }
  }
}
