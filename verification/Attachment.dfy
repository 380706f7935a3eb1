// Sealing an attachment into chunks and opening it again (src/attachment-crypto.ts).

module Attachment {
  import opened Text
  import opened Records

  type Bytes = seq<Byte>

  const NONCE_LEN := 12
  const TAG_LEN := 16
  const KEY_LEN := 32
  const OBJECT_ID_LEN := 16
  const HEADER_LEN := 36
  const CHUNK_OVERHEAD := 32
  const FORMAT_VERSION: Byte := 1

  datatype CryptoError = BadKey | NotAnAttachment | BadGeometry | LengthMismatch | AuthFailed | OutOfRange

  /** The cipher and the digest, as the platform provides them. */
  datatype Crypto = Crypto(
    encrypt: (Bytes, Bytes, Bytes, Bytes) -> Bytes,
    decrypt: (Bytes, Bytes, Bytes, Bytes) -> Option<Bytes>,
    digest: Bytes -> Bytes
  )

  /** All that is asked of the cipher: opening undoes sealing, and a tag is sixteen bytes. */
  ghost predicate Lawful(crypto: Crypto)
  {
    && (forall key, nonce, aad, plain ::
          crypto.decrypt(key, nonce, aad, crypto.encrypt(key, nonce, aad, plain)) == Some(plain))
    && (forall key, nonce, aad, plain :: |crypto.encrypt(key, nonce, aad, plain)| == |plain| + TAG_LEN)
  }

  // ----- Big-endian fields -----

  /** `setUint32` and `setBigUint64`: the low bytes of the number, most significant first. */
  function BigEndian(width: nat, v: nat): (s: Bytes)
    ensures |s| == width
  {
    if width == 0 then [] else BigEndian(width - 1, v / 256) + [v % 256]
  }

  function Unsigned(s: Bytes): nat
  {
    if s == [] then 0 else 256 * Unsigned(s[..|s| - 1]) + s[|s| - 1]
  }

  function Pow256(width: nat): nat
  {
    if width == 0 then 1 else 256 * Pow256(width - 1)
  }

  lemma {:induction false} BigEndianReads(width: nat, v: nat)
    requires v < Pow256(width)
    ensures Unsigned(BigEndian(width, v)) == v
  {
    if width > 0 {
      BigEndianReads(width - 1, v / 256);
      assert BigEndian(width, v)[..width - 1] == BigEndian(width - 1, v / 256);
    }
  }

  // ----- Geometry -----

  function ChunkCount(size: nat, chunk: nat): nat
    requires chunk > 0
  {
    if size == 0 then 1 else (size + chunk - 1) / chunk
  }

  function SealedLen(size: nat, chunk: nat): nat
    requires chunk > 0
  {
    HEADER_LEN + ChunkCount(size, chunk) * CHUNK_OVERHEAD + size
  }

  /** The header's fixed-width fields hold the numbers. */
  predicate FitsHeader(size: nat, chunk: nat)
    requires chunk > 0
  {
    chunk < 0x1_0000_0000 && ChunkCount(size, chunk) < 0x1_0000_0000 && size < 0x1_0000_0000_0000_0000
  }

  function PartStart(index: nat, chunk: nat, size: nat): nat
  {
    if index * chunk < size then index * chunk else size
  }

  /** The plaintext of one chunk. */
  function Part(plain: Bytes, chunk: nat, index: nat): Bytes
  {
    var from, to := PartStart(index, chunk, |plain|), PartStart(index + 1, chunk, |plain|);
    if from <= to then plain[from..to] else []
  }

  lemma StartsAscend(index: nat, chunk: nat, size: nat)
    ensures PartStart(index, chunk, size) <= PartStart(index + 1, chunk, size) <= size
    ensures PartStart(index + 1, chunk, size) - PartStart(index, chunk, size) <= chunk
  {
  }

  /** The last chunk ends the plaintext. */
  lemma CountCovers(size: nat, chunk: nat)
    requires chunk > 0
    ensures PartStart(ChunkCount(size, chunk), chunk, size) == size
    ensures ChunkCount(size, chunk) > 0
  {
  }

  // ----- The wire format -----

  function Header(keyId: Byte, objectId: Bytes, chunk: nat, count: nat, size: nat): (h: Bytes)
    requires |objectId| == OBJECT_ID_LEN
    ensures |h| == HEADER_LEN
  {
    [0x50, 0x43, FORMAT_VERSION, keyId] + objectId + BigEndian(4, chunk) + BigEndian(4, count) + BigEndian(8, size)
  }

  function Aad(headerDigest: Bytes, index: nat, length: nat): Bytes
  {
    headerDigest + BigEndian(4, index) + BigEndian(4, length)
  }

  /** What one sealing draws at random. */
  datatype Draw = Draw(objectId: Bytes, nonces: seq<Bytes>)

  predicate Drawn(draw: Draw, count: nat)
  {
    |draw.objectId| == OBJECT_ID_LEN && |draw.nonces| == count && forall k :: 0 <= k < count ==>
      |draw.nonces[k]| == NONCE_LEN
  }

  function SealedChunk(crypto: Crypto, key: Bytes, headerDigest: Bytes, nonce: Bytes, index: nat, part: Bytes): Bytes
  {
    nonce + BigEndian(4, |part|) + crypto.encrypt(key, nonce, Aad(headerDigest, index, |part|), part)
  }

  function SealedChunks(crypto: Crypto, key: Bytes, headerDigest: Bytes, nonces: seq<Bytes>, plain: Bytes, chunk: nat,
                        n: nat): Bytes
    requires n <= |nonces|
  {
    if n == 0 then []
    else
      SealedChunks(crypto, key, headerDigest, nonces, plain, chunk, n - 1) +
      SealedChunk(crypto, key, headerDigest, nonces[n - 1], n - 1, Part(plain, chunk, n - 1))
  }

  function Sealed(crypto: Crypto, key: Bytes, keyId: Byte, draw: Draw, plain: Bytes, chunk: nat): Bytes
    requires chunk > 0 && Drawn(draw, ChunkCount(|plain|, chunk))
  {
    var count := ChunkCount(|plain|, chunk);
    var header := Header(keyId, draw.objectId, chunk, count, |plain|);
    header + SealedChunks(crypto, key, crypto.digest(header), draw.nonces, plain, chunk, count)
  }

  predicate LooksLikeAttachment(blob: Bytes)
  {
    |blob| >= HEADER_LEN && blob[0] == 0x50 && blob[1] == 0x43 && blob[2] == FORMAT_VERSION
  }

  /** Where opening stands after some chunks: the offset read to, and the plaintext so far. */
  datatype Opening = Opening(offset: nat, plain: Bytes)

  function Upto(blob: Bytes, from: nat, to: nat): Bytes
  {
    if from <= to && from <= |blob| then blob[from..if to < |blob| then to else |blob|] else []
  }

  function OpenOne(crypto: Crypto, key: Bytes, headerDigest: Bytes, blob: Bytes, size: nat, o: Opening, index: nat)
    : Result<Opening, CryptoError>
  {
    if o.offset + NONCE_LEN + 4 > |blob| then Err(OutOfRange)
    else
      var nonce := blob[o.offset..o.offset + NONCE_LEN];
      var length := Unsigned(blob[o.offset + NONCE_LEN..o.offset + NONCE_LEN + 4]);
      var body := Upto(blob, o.offset + NONCE_LEN + 4, o.offset + CHUNK_OVERHEAD + length);
      var clear := crypto.decrypt(key, nonce, Aad(headerDigest, index, length), body);
      if clear.None? then Err(AuthFailed)
      else if |o.plain| + |clear.value| > size then Err(OutOfRange)
      else Ok(Opening(o.offset + CHUNK_OVERHEAD + length, o.plain + clear.value))
  }

  function OpenChunks(crypto: Crypto, key: Bytes, headerDigest: Bytes, blob: Bytes, size: nat, n: nat): Result<Opening,
                      CryptoError>
  {
    if n == 0 then Ok(Opening(HEADER_LEN, []))
    else
      var before := OpenChunks(crypto, key, headerDigest, blob, size, n - 1);
      if before.Err? then before else OpenOne(crypto, key, headerDigest, blob, size, before.value, n - 1)
  }

  /** `decryptAttachment`. */
  function Opened(crypto: Crypto, key: Bytes, blob: Bytes): Result<Bytes, CryptoError>
  {
    if !LooksLikeAttachment(blob) then Err(NotAnAttachment)
    else
      var chunk, count, size := Unsigned(blob[20..24]), Unsigned(blob[24..28]), Unsigned(blob[28..36]);
      if chunk == 0 || count == 0 then Err(BadGeometry)
      else if |blob| != SealedLen(size, chunk) then Err(LengthMismatch)
      else
        var all := OpenChunks(crypto, key, crypto.digest(blob[..HEADER_LEN]), blob, size, count);
        if all.Err? then Err(all.error)
        else if |all.value.plain| != size then Err(LengthMismatch)
        else Ok(all.value.plain)
  }

  // ----- Opening undoes sealing -----

  lemma HeaderReads(keyId: Byte, objectId: Bytes, chunk: nat, count: nat, size: nat, rest: Bytes)
    requires |objectId| == OBJECT_ID_LEN
    requires chunk < 0x1_0000_0000 && count < 0x1_0000_0000 && size < 0x1_0000_0000_0000_0000
    ensures var blob := Header(keyId, objectId, chunk, count, size) + rest;
            && LooksLikeAttachment(blob) && blob[..HEADER_LEN] == Header(keyId, objectId, chunk, count, size)
            && Unsigned(blob[20..24]) == chunk && Unsigned(blob[24..28]) == count && Unsigned(blob[28..36]) == size
  {
    hide BigEndian, Unsigned;
    var blob := Header(keyId, objectId, chunk, count, size) + rest;
    assert blob[20..24] == BigEndian(4, chunk);
    assert blob[24..28] == BigEndian(4, count);
    assert blob[28..36] == BigEndian(8, size);
    Powers();
    BigEndianReads(4, chunk);
    BigEndianReads(4, count);
    BigEndianReads(8, size);
  }

  lemma Powers()
    ensures Pow256(4) == 0x1_0000_0000 && Pow256(8) == 0x1_0000_0000_0000_0000
  {
  }

  lemma {:induction false} ChunksLength(crypto: Crypto, key: Bytes, d: Bytes, nonces: seq<Bytes>, plain: Bytes,
                                        chunk: nat, n: nat)
    requires Lawful(crypto) && n <= |nonces| && forall k :: 0 <= k < |nonces| ==> |nonces[k]| == NONCE_LEN
    ensures |SealedChunks(crypto, key, d, nonces, plain, chunk, n)| == n * CHUNK_OVERHEAD + PartStart(n, chunk, |plain|)
  {
    hide SealedChunk, PartStart, Part;
    if n == 0 {
      StartOfNone(chunk, |plain|);
    } else {
      ChunksLength(crypto, key, d, nonces, plain, chunk, n - 1);
      ChunkFits(crypto, key, d, nonces[n - 1], plain, chunk, n - 1, n);
      StartsAscend(n - 1, chunk, |plain|);
    }
  }

  lemma {:induction false} ChunksPrefix(crypto: Crypto, key: Bytes, d: Bytes, nonces: seq<Bytes>, plain: Bytes,
                                        chunk: nat, n: nat, m: nat)
    requires n <= m <= |nonces|
    ensures exists tail ::
              SealedChunks(crypto, key, d, nonces, plain, chunk, m) ==
                SealedChunks(crypto, key, d, nonces, plain, chunk, n) + tail
    decreases m - n
  {
    hide SealedChunk, Part;
    var s := SealedChunks(crypto, key, d, nonces, plain, chunk, n);
    if n == m {
      assert s == s + [];
    } else {
      ChunksPrefix(crypto, key, d, nonces, plain, chunk, n, m - 1);
      var t := SealedChunks(crypto, key, d, nonces, plain, chunk, m - 1);
      var tail :| t == s + tail;
      var last := SealedChunk(crypto, key, d, nonces[m - 1], m - 1, Part(plain, chunk, m - 1));
      assert s + (tail + last) == (s + tail) + last;
    }
  }

  /** One chunk read back where it was written. */
  lemma OneChunkOpens(crypto: Crypto, key: Bytes, d: Bytes, before: Bytes, nonce: Bytes, part: Bytes, after: Bytes,
                      size: nat,
                      index: nat, plain: Bytes)
    requires Lawful(crypto) && |nonce| == NONCE_LEN && |part| < 0x1_0000_0000 && |plain| + |part| <= size
    ensures var blob := before + SealedChunk(crypto, key, d, nonce, index, part) + after;
            OpenOne(crypto, key, d, blob, size, Opening(|before|, plain), index) ==
              Ok(Opening(|before| + CHUNK_OVERHEAD + |part|, plain + part))
  {
    hide BigEndian, Unsigned, Aad;
    var aad := Aad(d, index, |part|);
    var body := crypto.encrypt(key, nonce, aad, part);
    var blob := before + SealedChunk(crypto, key, d, nonce, index, part) + after;
    var o := |before|;
    assert |body| == |part| + TAG_LEN;
    assert blob[o..o + NONCE_LEN] == nonce;
    assert blob[o + NONCE_LEN..o + NONCE_LEN + 4] == BigEndian(4, |part|);
    Powers();
    BigEndianReads(4, |part|);
    assert blob[o + NONCE_LEN + 4..o + CHUNK_OVERHEAD + |part|] == body;
    assert Upto(blob, o + NONCE_LEN + 4, o + CHUNK_OVERHEAD + |part|) == body;
  }

  lemma PartJoins(plain: Bytes, chunk: nat, n: nat)
    requires n > 0
    ensures plain[..PartStart(n - 1, chunk, |plain|)] + Part(plain, chunk, n - 1) ==
            plain[..PartStart(n, chunk, |plain|)]
    ensures |Part(plain, chunk, n - 1)| <= chunk
  {
  }

  lemma {:induction false} ChunksOpen(crypto: Crypto, key: Bytes, d: Bytes, header: Bytes, nonces: seq<Bytes>,
                                      plain: Bytes, chunk: nat, n: nat)
    requires Lawful(crypto) && |header| == HEADER_LEN && chunk < 0x1_0000_0000 && n <= |nonces|
    requires forall k :: 0 <= k < |nonces| ==> |nonces[k]| == NONCE_LEN
    ensures var blob := header + SealedChunks(crypto, key, d, nonces, plain, chunk, |nonces|);
            OpenChunks(crypto, key, d, blob, |plain|, n) ==
              Ok(Opening(HEADER_LEN + n * CHUNK_OVERHEAD + PartStart(n, chunk, |plain|),
                plain[..PartStart(n, chunk, |plain|)]))
  {
    hide Lawful, OpenOne, SealedChunk, Part, PartStart;
    var blob := header + SealedChunks(crypto, key, d, nonces, plain, chunk, |nonces|);
    if n == 0 {
      StartOfNone(chunk, |plain|);
    } else {
      ChunksOpen(crypto, key, d, header, nonces, plain, chunk, n - 1);
      ChunksLength(crypto, key, d, nonces, plain, chunk, n - 1);
      ChunksPrefix(crypto, key, d, nonces, plain, chunk, n, |nonces|);
      var upto := SealedChunks(crypto, key, d, nonces, plain, chunk, n);
      var tail :| SealedChunks(crypto, key, d, nonces, plain, chunk, |nonces|) == upto + tail;
      var part := Part(plain, chunk, n - 1);
      var before := header + SealedChunks(crypto, key, d, nonces, plain, chunk, n - 1);
      var one := SealedChunk(crypto, key, d, nonces[n - 1], n - 1, part);
      assert blob == before + one + tail;
      PartJoins(plain, chunk, n);
      StartsAscend(n - 1, chunk, |plain|);
      PartStartBound(n, chunk, |plain|);
      OneChunkOpens(crypto, key, d, before, nonces[n - 1], part, tail, |plain|, n - 1,
        plain[..PartStart(n - 1, chunk, |plain|)]);
    }
  }

  lemma StartOfNone(chunk: nat, size: nat)
    ensures PartStart(0, chunk, size) == 0
  {
  }

  lemma PartStartBound(n: nat, chunk: nat, size: nat)
    ensures PartStart(n, chunk, size) <= size
  {
  }

  /** The blob is as long as the server computed it would be. */
  lemma SealedLengthIsExact(crypto: Crypto, key: Bytes, keyId: Byte, draw: Draw, plain: Bytes, chunk: nat)
    requires Lawful(crypto) && chunk > 0 && Drawn(draw, ChunkCount(|plain|, chunk))
    ensures |Sealed(crypto, key, keyId, draw, plain, chunk)| == SealedLen(|plain|, chunk)
  {
    hide Header, SealedChunks, ChunkCount;
    var count := ChunkCount(|plain|, chunk);
    var header := Header(keyId, draw.objectId, chunk, count, |plain|);
    ChunksLength(crypto, key, crypto.digest(header), draw.nonces, plain, chunk, count);
    CountCovers(|plain|, chunk);
  }

  /** Opening a sealed attachment gives back the plaintext. */
  lemma OpeningUndoesSealing(crypto: Crypto, key: Bytes, keyId: Byte, draw: Draw, plain: Bytes, chunk: nat)
    requires Lawful(crypto) && chunk > 0 && FitsHeader(|plain|, chunk) && Drawn(draw, ChunkCount(|plain|, chunk))
    ensures Opened(crypto, key, Sealed(crypto, key, keyId, draw, plain, chunk)) == Ok(plain)
  {
    hide Header, SealedChunks, ChunkCount, OpenChunks, Lawful, Unsigned, PartStart, LooksLikeAttachment;
    var count := ChunkCount(|plain|, chunk);
    var header := Header(keyId, draw.objectId, chunk, count, |plain|);
    var d := crypto.digest(header);
    var rest := SealedChunks(crypto, key, d, draw.nonces, plain, chunk, count);
    HeaderReads(keyId, draw.objectId, chunk, count, |plain|, rest);
    SealedLengthIsExact(crypto, key, keyId, draw, plain, chunk);
    CountCovers(|plain|, chunk);
    ChunksOpen(crypto, key, d, header, draw.nonces, plain, chunk, count);
    assert plain[..|plain|] == plain;
  }

  /** Within one object no two chunks authenticate the same data. */
  lemma AadsDistinct(d: Bytes, i: nat, j: nat, m: nat, n: nat)
    requires i < 0x1_0000_0000 && j < 0x1_0000_0000
    ensures Aad(d, i, m) == Aad(d, j, n) ==> i == j
  {
    hide BigEndian;
    if Aad(d, i, m) == Aad(d, j, n) {
      assert Aad(d, i, m)[|d|..|d| + 4] == BigEndian(4, i);
      assert Aad(d, j, n)[|d|..|d| + 4] == BigEndian(4, j);
      Powers();
      BigEndianReads(4, i);
      BigEndianReads(4, j);
    }
  }

  // ----- The buffers -----

  /** `out.set(bytes, at)`. */
  method SetAt(out: array<Byte>, bytes: Bytes, at: nat)
    requires at + |bytes| <= out.Length
    modifies out
    ensures out[..] == old(out[..at]) + bytes + old(out[at + |bytes|..])
  {
    var k := 0;
    while k < |bytes|
      invariant 0 <= k <= |bytes|
      invariant forall j :: 0 <= j < k ==> out[at + j] == bytes[j]
      invariant forall j :: 0 <= j < at || at + |bytes| <= j < out.Length ==> out[j] == old(out[j])
    {
      out[at + k] := bytes[k];
      k := k + 1;
    }
  }

  method SealAttachment(crypto: Crypto, key: Bytes, keyId: Byte, draw: Draw, plain: Bytes, chunk: int)
    returns (r: Result<array<Byte>, CryptoError>)
    requires Lawful(crypto) && (chunk > 0 ==> Drawn(draw, ChunkCount(|plain|, chunk)))
    ensures r.Ok? <==> |key| == KEY_LEN && chunk > 0
    ensures r.Ok? ==> fresh(r.value) && r.value[..] == Sealed(crypto, key, keyId, draw, plain, chunk)
  {
    hide Lawful, ChunkCount, Part, PartStart, SealedChunk, Header;
    if |key| != KEY_LEN {
      return Err(BadKey);
    }
    if chunk <= 0 {
      return Err(BadGeometry);
    }
    var count := ChunkCount(|plain|, chunk);
    var header := Header(keyId, draw.objectId, chunk, count, |plain|);
    var d := crypto.digest(header);
    var out := new Byte[SealedLen(|plain|, chunk)](_ => 0);
    SetAt(out, header, 0);
    var off, index := HEADER_LEN, 0;
    StartOfNone(chunk, |plain|);
    CountCovers(|plain|, chunk);
    while index < count
      invariant 0 <= index <= count
      invariant off == HEADER_LEN + index * CHUNK_OVERHEAD + PartStart(index, chunk, |plain|)
      invariant off <= out.Length
      invariant out[..off] == header + SealedChunks(crypto, key, d, draw.nonces, plain, chunk, index)
    {
      var part := Part(plain, chunk, index);
      var one := SealedChunk(crypto, key, d, draw.nonces[index], index, part);
      ChunkFits(crypto, key, d, draw.nonces[index], plain, chunk, index, count);
      ghost var done := out[..off];
      SetAt(out, one, off);
      assert out[..off + |one|] == done + one;
      off, index := off + |one|, index + 1;
    }
    assert out[..off] == out[..];
    return Ok(out);
  }

  /** The next chunk fits in what is left of the buffer. */
  lemma ChunkFits(crypto: Crypto, key: Bytes, d: Bytes, nonce: Bytes, plain: Bytes, chunk: nat, index: nat, count: nat)
    requires Lawful(crypto) && |nonce| == NONCE_LEN && index < count
    ensures var one := SealedChunk(crypto, key, d, nonce, index, Part(plain, chunk, index));
            && |one| == CHUNK_OVERHEAD + PartStart(index + 1, chunk, |plain|) - PartStart(index, chunk, |plain|)
            && HEADER_LEN + (index + 1) * CHUNK_OVERHEAD + PartStart(index + 1, chunk, |plain|) <=
                 HEADER_LEN + count * CHUNK_OVERHEAD + |plain|
  {
  }

  method DecryptAttachment(crypto: Crypto, key: Bytes, blob: Bytes) returns (r: Result<array<Byte>, CryptoError>)
    ensures var clear := Opened(crypto, key, blob);
            && (r.Ok? <==> clear.Ok?)
            && (r.Ok? ==> fresh(r.value) && r.value[..] == clear.value)
            && (r.Err? ==> r.error == clear.error)
  {
    hide OpenOne, Unsigned, SealedLen, Aad;
    if !LooksLikeAttachment(blob) {
      return Err(NotAnAttachment);
    }
    var chunk, count, size := Unsigned(blob[20..24]), Unsigned(blob[24..28]), Unsigned(blob[28..36]);
    if chunk == 0 || count == 0 {
      return Err(BadGeometry);
    }
    if |blob| != SealedLen(size, chunk) {
      return Err(LengthMismatch);
    }
    var d := crypto.digest(blob[..HEADER_LEN]);
    var out := new Byte[size](_ => 0);
    var off: nat, written: nat, index: nat := HEADER_LEN, 0, 0;
    while index < count
      invariant 0 <= index <= count && written <= size
      invariant OpenChunks(crypto, key, d, blob, size, index) == Ok(Opening(off, out[..written]))
    {
      ghost var so := Opening(off, out[..written]);
      var next := OpenOne(crypto, key, d, blob, size, Opening(off, out[..written]), index);
      OpenFailureStays(crypto, key, d, blob, size, index + 1, count);
      if next.Err? {
        return Err(next.error);
      }
      OpenOneExtends(crypto, key, d, blob, size, Opening(off, out[..written]), index);
      var clear := next.value.plain[written..];
      ghost var done := out[..written];
      SetAt(out, clear, written);
      assert out[..written + |clear|] == done + clear;
      off, written, index := next.value.offset, written + |clear|, index + 1;
    }
    if written != size {
      return Err(LengthMismatch);
    }
    assert out[..written] == out[..];
    return Ok(out);
  }

  lemma OpenOneExtends(crypto: Crypto, key: Bytes, d: Bytes, blob: Bytes, size: nat, o: Opening, index: nat)
    ensures var next := OpenOne(crypto, key, d, blob, size, o, index);
            next.Ok? ==>
              |o.plain| <= |next.value.plain| <= size && next.value.plain == o.plain + next.value.plain[|o.plain|..]
  {
    hide Unsigned, Aad;
  }

  lemma {:induction false} OpenFailureStays(crypto: Crypto, key: Bytes, d: Bytes, blob: Bytes, size: nat, n: nat,
                                            m: nat)
    requires n <= m
    ensures OpenChunks(crypto, key, d, blob, size, n).Err? ==>
              OpenChunks(crypto, key, d, blob, size, m) == OpenChunks(crypto, key, d, blob, size, n)
    decreases m - n
  {
    hide OpenOne;
    if n < m {
      OpenFailureStays(crypto, key, d, blob, size, n, m - 1);
    }
  }
}
