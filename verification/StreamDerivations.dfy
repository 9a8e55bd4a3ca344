/** What keys, tags and headers of both streaming protocols depend on, with every label and length written out. */
module StreamDerivations {
  import opened Wrappers
  import opened Bytes
  import opened Crypto
  import opened Wire
  import V2 = StreamV2
  import V3 = StreamV3

  /** HKDF with this input key does not collide on the two infos. */
  predicate NoCollision(c: Primitives, key: bytes, info: bytes, info': bytes, length: nat) {
    c.expand(key, info, length) == c.expand(key, info', length) ==> info == info'
  }

  // ----- the stream key -----

  /** The info of a V3 stream key; `hash` is the digest of the KEM ciphertext. */
  function V3Info(hash: bytes, streamId: bytes, context: bytes): bytes {
    Ascii("citadel-env-v1") + Ascii("|aes|") + hash + Ascii("v3:") + streamId + Ascii("|") + context
  }

  function V2Info(hash: bytes, context: bytes): bytes {
    Ascii("citadel-env-v1") + Ascii("|aes|") + hash + context
  }

  lemma V3InfoInjective(h: bytes, id: bytes, context: bytes, h': bytes, id': bytes, context': bytes)
    requires |h| == |h'| && |id| == |id'| && V3Info(h, id, context) == V3Info(h', id', context')
    ensures h == h' && id == id' && context == context'
  {
    var prefix := Ascii("citadel-env-v1") + Ascii("|aes|");
    SplitConcat(prefix + h + Ascii("v3:") + id + Ascii("|"), context, prefix + h' + Ascii("v3:") + id' + Ascii("|"),
        context');
    SplitConcat(prefix + h + Ascii("v3:") + id, Ascii("|"), prefix + h' + Ascii("v3:") + id', Ascii("|"));
    SplitConcat(prefix + h + Ascii("v3:"), id, prefix + h' + Ascii("v3:"), id');
    SplitConcat(prefix + h, Ascii("v3:"), prefix + h', Ascii("v3:"));
    SplitConcat(prefix, h, prefix, h');
  }

  lemma V2InfoInjective(h: bytes, context: bytes, h': bytes, context': bytes)
    requires |h| == |h'| && V2Info(h, context) == V2Info(h', context')
    ensures h == h' && context == context'
  {
    var prefix := Ascii("citadel-env-v1") + Ascii("|aes|");
    SplitConcat(prefix + h, context, prefix + h', context');
    SplitConcat(prefix, h, prefix, h');
  }

  lemma V3KeyWrittenOut(c: Primitives, secret: bytes, kemCt: bytes, id: V3.StreamId, context: bytes)
    ensures V3.DeriveStreamKey(c, secret, kemCt, id, context) == c.expand(secret, V3Info(c.ctHash(kemCt), id,
            context), 32)
  {
    var hash := c.ctHash(kemCt);
    assert Ascii("citadel-env-v1") + Ascii("|aes|") + hash + (Ascii("v3:") + id + Ascii("|") + context)
        == V3Info(hash, id, context);
  }

  /**
   The V3 stream key is HKDF of the shared secret under that info; so, unless HKDF or the ciphertext digest collides
   on the two inputs, equal keys from one shared secret come from one KEM ciphertext, stream id and context.
   */
  lemma V3StreamKeyBinds(c: Primitives, secret: bytes, kemCt: bytes, id: V3.StreamId, context: bytes, kemCt': bytes,
                         id': V3.StreamId, context': bytes)
    requires |c.ctHash(kemCt)| == |c.ctHash(kemCt')| && (c.ctHash(kemCt) == c.ctHash(kemCt') ==> kemCt == kemCt')
    requires NoCollision(c, secret, V3Info(c.ctHash(kemCt), id, context), V3Info(c.ctHash(kemCt'), id', context'), 32)
    ensures V3.DeriveStreamKey(c, secret, kemCt, id, context) == c.expand(secret, V3Info(c.ctHash(kemCt), id,
            context), 32)
    ensures V3.DeriveStreamKey(c, secret, kemCt, id, context) == V3.DeriveStreamKey(c, secret, kemCt', id', context')
       <==> kemCt == kemCt' && id == id' && context == context'
  {
    V3KeyWrittenOut(c, secret, kemCt, id, context);
    V3KeyWrittenOut(c, secret, kemCt', id', context');
    hide V3Info, V3.DeriveStreamKey;
    if c.expand(secret, V3Info(c.ctHash(kemCt), id, context), 32)
       == c.expand(secret, V3Info(c.ctHash(kemCt'), id', context'), 32) {
      V3InfoInjective(c.ctHash(kemCt), id, context, c.ctHash(kemCt'), id', context');
    }
  }

  /** The V2 stream key likewise pins KEM ciphertext and context. */
  lemma V2StreamKeyBinds(c: Primitives, secret: bytes, kemCt: bytes, context: bytes, kemCt': bytes, context': bytes)
    requires |c.ctHash(kemCt)| == |c.ctHash(kemCt')| && (c.ctHash(kemCt) == c.ctHash(kemCt') ==> kemCt == kemCt')
    requires NoCollision(c, secret, V2Info(c.ctHash(kemCt), context), V2Info(c.ctHash(kemCt'), context'), 32)
    ensures DeriveKey(c, secret, c.ctHash(kemCt), context) == c.expand(secret, V2Info(c.ctHash(kemCt), context), 32)
    ensures DeriveKey(c, secret, c.ctHash(kemCt), context) == DeriveKey(c, secret, c.ctHash(kemCt'), context')
       <==> kemCt == kemCt' && context == context'
  {
    if V2Info(c.ctHash(kemCt), context) == V2Info(c.ctHash(kemCt'), context') {
      V2InfoInjective(c.ctHash(kemCt), context, c.ctHash(kemCt'), context');
    }
  }

  // ----- keys derived from the stream key -----

  /** The V2 chunk key is HKDF under label, four-byte index and flag, and so pins index and flag. */
  lemma V2ChunkKeyBinds(c: Primitives, streamKey: bytes, n: u32, f: bool, n': u32, f': bool)
    requires var prefix := Ascii("citadel-stream-chunk-v2|");
             NoCollision(c, streamKey, prefix + ToBE(4, n) + [if f then 0x01 else 0x00],
                         prefix + ToBE(4, n') + [if f' then 0x01 else 0x00], 32)
    ensures V2.DeriveChunkKey(c, streamKey, n, f)
         == c.expand(streamKey, Ascii("citadel-stream-chunk-v2|") + ToBE(4, n) + [if f then 0x01 else 0x00], 32)
    ensures V2.DeriveChunkKey(c, streamKey, n, f) == V2.DeriveChunkKey(c, streamKey, n', f') <==> n == n' && f == f'
  {
    var prefix := Ascii("citadel-stream-chunk-v2|");
    var flag, flag': bytes := [if f then 0x01 else 0x00], [if f' then 0x01 else 0x00];
    if prefix + ToBE(4, n) + flag == prefix + ToBE(4, n') + flag' {
      SplitConcat(prefix + ToBE(4, n), flag, prefix + ToBE(4, n'), flag');
      SplitConcat(prefix, ToBE(4, n), prefix, ToBE(4, n'));
      assert flag[0] == flag'[0];
      assert U32ToBE(n) == U32ToBE(n');
    }
  }

  /** The header key and the final key have labels of their own, which no nonce info equals. */
  lemma V3RolesAreApart(c: Primitives, streamKey: bytes, position: u64)
    ensures V3.DeriveHeaderKey(c, streamKey) == c.expand(streamKey, Ascii("citadel-v3-header-key"), 32)
    ensures V3.DeriveFinalKey(c, streamKey) == c.expand(streamKey, Ascii("citadel-v3-final-key"), 32)
    ensures V3.DeriveChunkNonce(c, streamKey, position)
         == c.expand(streamKey, Ascii("citadel-v3-nonce|") + ToBE(8, position), 12)
    ensures Ascii("citadel-v3-header-key") != Ascii("citadel-v3-final-key")
    ensures Ascii("citadel-v3-nonce|") + ToBE(8, position) !in {Ascii("citadel-v3-header-key"),
            Ascii("citadel-v3-final-key")}
  {
    assert |Ascii("citadel-v3-header-key")| == 21 && |Ascii("citadel-v3-final-key")| == 20;
    assert |Ascii("citadel-v3-nonce|") + ToBE(8, position)| == 25;
  }

  // ----- the V3 header -----

  /** The bytes of an honest header before its tag, at their offsets. */
  function HeaderFront(streamId: bytes, kemCt: bytes): bytes {
    [0x43, 0x54, 0x44, 0x4C, 0x03, 0x00, 0xA3, 0xB1] + streamId + [0x04, 0x60] + kemCt
  }

  /** The tag is the AEAD of nothing, under the header key and twelve zero bytes, with the whole front as AAD. */
  lemma HeaderWrittenOut(c: Primitives, secret: bytes, kemCt: bytes, id: V3.StreamId, context: bytes)
    requires V3.NewEncryptor(c, secret, kemCt, id, context).Ok?
    ensures var e := V3.NewEncryptor(c, secret, kemCt, id, context).value;
            && Ok(e.streamKey) == V3.DeriveStreamKey(c, secret, kemCt, id, context)
            && Ok(e.finalKey) == c.expand(e.streamKey, Ascii("citadel-v3-final-key"), 32)
            && e.streamId == id && e.nextSeq == 0 && !e.finalized
            && var headerKey := c.expand(e.streamKey, Ascii("citadel-v3-header-key"), 32);
               && headerKey.Ok?
               && var tag := c.seal(headerKey.value, [0, 0, 0, 0, 0, 0, 0, 0, 0, 0, 0, 0], [], HeaderFront(id, kemCt));
                  tag.Ok? && e.header == HeaderFront(id, kemCt) + tag.value
  {
    assert U16ToBE(1120) == [0x04, 0x60] by { BigEndian1120(); }
    assert V3.PreHeader(id, kemCt) == HeaderFront(id, kemCt);
    assert V3.ZERO_NONCE == [0, 0, 0, 0, 0, 0, 0, 0, 0, 0, 0, 0];
    hide V3.DeriveStreamKey, V3.PreHeader, HeaderFront;
  }

  lemma FrontSplits(fixed: bytes, id: bytes, size: bytes, kemCt: bytes)
    requires |fixed| == 8 && |size| == 2 && fixed + id + size + kemCt == HeaderFront(id, kemCt)
    ensures fixed == [0x43, 0x54, 0x44, 0x4C, 0x03, 0x00, 0xA3, 0xB1] && size == [0x04, 0x60]
  {
    var honest: bytes := [0x43, 0x54, 0x44, 0x4C, 0x03, 0x00, 0xA3, 0xB1];
    SplitConcat(fixed + id + size, kemCt, honest + id + [0x04, 0x60], kemCt);
    SplitConcat(fixed + id, size, honest + id, [0x04, 0x60]);
    SplitConcat(fixed, id, honest, id);
  }

  /** The fixed fields the recipient checks are exactly those of an honest front. */
  lemma FrontIsParsed(h: bytes)
    requires |h| >= 1162
    ensures h[..1146] == HeaderFront(h[8..24], h[26..1146]) <==>
              && h[..4] == V3.MAGIC && h[4] == V3.VERSION && h[5] == V3.FLAGS
              && h[6] == SUITE_KEM_HYBRID_X25519_MLKEM768 && h[7] == SUITE_AEAD_AES256GCM
              && U16FromBE(h[24..26]) == KEM_CIPHERTEXT_BYTES
  {
    var fixed: bytes := [0x43, 0x54, 0x44, 0x4C, 0x03, 0x00, 0xA3, 0xB1];
    BigEndian1120();
    ToFromBE(h[24..26]);
    assert h[..1146] == h[..8] + h[8..24] + h[24..26] + h[26..1146];
    assert h[..8] == h[..4] + [h[4], h[5], h[6], h[7]];
    if h[..1146] == HeaderFront(h[8..24], h[26..1146]) {
      FrontSplits(h[..8], h[8..24], h[24..26], h[26..1146]);
      SplitConcat(h[..4], [h[4], h[5], h[6], h[7]], fixed[..4], fixed[4..]);
      assert fixed[4..] == [0x03, 0x00, 0xA3, 0xB1];
    }
  }

  lemma FrontAndTag(h: bytes, front: bytes, tag: bytes)
    requires |h| >= 1162 && |front| == 1146
    ensures front + tag == h[..1162] <==> front == h[..1146] && tag == h[1146..1162]
  {
    assert h[..1162] == h[..1146] + h[1146..1162];
    if front + tag == h[..1162] {
      SplitConcat(front, tag, h[..1146], h[1146..1162]);
    }
  }

  /**
   The recipient accepts a header exactly when its first 1162 bytes are the header an honest sender builds from the
   stream id and KEM ciphertext they contain and the secret they decapsulate to.
   */
  lemma HeaderAcceptedExactly(c: Primitives, sk: bytes, h: bytes, context: bytes)
    ensures V3.ParseHeader(c, sk, h, context).Ok? <==>
              && |h| >= 1162
              && c.decapsulate(sk, h[26..1146]).Ok?
              && var built := V3.NewEncryptor(c, c.decapsulate(sk, h[26..1146]).value, h[26..1146], h[8..24], context);
                 built.Ok? && built.value.header == h[..1162]
  {
    if |h| >= 1162 && c.decapsulate(sk, h[26..1146]).Ok? {
      var secret, kemCt, id: V3.StreamId := c.decapsulate(sk, h[26..1146]).value, h[26..1146], h[8..24];
      FrontIsParsed(h);
      assert V3.PreHeader(id, kemCt) == HeaderFront(id, kemCt) by { BigEndian1120(); }
      hide V3.DeriveStreamKey, V3.DeriveHeaderKey, V3.DeriveFinalKey, V3.PreHeader, HeaderFront;
      var built := V3.NewEncryptor(c, secret, kemCt, id, context);
      if built.Ok? {
        FrontAndTag(h, HeaderFront(id, kemCt), built.value.header[1146..]);
      }
    }
  }
}
