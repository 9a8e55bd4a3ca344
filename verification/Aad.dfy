/** The canonical AAD and context encodings (citadel-envelope/src/aad.rs). */
module Aad {
  import opened Wrappers
  import opened Bytes

  type MsgId16 = s: bytes | |s| == 16 witness seq(16, _ => 0)

  const CONTEXT_PREFIX: bytes := Ascii("citadel|ctx|v1|")
  const AAD_PREFIX: bytes := Ascii("citadel|aad|v1")

  const SENDER_ID: byte := 0x01
  const RECIPIENT_ID: byte := 0x02
  const ROUTE: byte := 0x03
  const TIMESTAMP_UNIX_MS: byte := 0x04
  const SEQUENCE: byte := 0x05
  const MSG_ID_16: byte := 0x06

  /** A growable byte buffer that callees extend in place. */
  class ByteVec {
    var data: bytes

    constructor ()
      ensures data == []
    {
      data := [];
    }
  }

  // ----- type-length-value -----

  function Tlv(t: byte, v: bytes): (r: bytes)
    requires |v| <= U16_MAX
    ensures |r| == 3 + |v|
  {
    [t] + U16ToBE(|v|) + v
  }

  method PushTlv(out: ByteVec, t: byte, v: bytes) returns (ok: bool)
    modifies out
    ensures ok <==> |v| <= U16_MAX
    ensures out.data == if ok then old(out.data) + Tlv(t, v) else old(out.data)
  {
    if |v| > U16_MAX {
      return false;
    }
    out.data := out.data + [t];
    out.data := out.data + U16ToBE(|v|);
    out.data := out.data + v;
    assert out.data == old(out.data) + Tlv(t, v);
    return true;
  }

  /** A TLV can be read off the front of any buffer. */
  lemma TlvPrefix(t: byte, v: bytes, rest: bytes, v': bytes, rest': bytes)
    requires |v| <= U16_MAX && |v'| <= U16_MAX
    requires Tlv(t, v) + rest == Tlv(t, v') + rest'
    ensures v == v' && rest == rest'
  {
    assert Tlv(t, v) + rest == [t] + (U16ToBE(|v|) + (v + rest));
    assert Tlv(t, v') + rest' == [t] + (U16ToBE(|v'|) + (v' + rest'));
    SplitConcat([t], U16ToBE(|v|) + (v + rest), [t], U16ToBE(|v'|) + (v' + rest'));
    SplitConcat(U16ToBE(|v|), v + rest, U16ToBE(|v'|), v' + rest');
    SplitConcat(v, rest, v', rest');
  }

  // ----- AAD -----

  datatype AadFields = AadFields(
    sender: bytes,
    recipient: bytes,
    route: bytes,
    tsUnixMs: u64,
    seqNo: u64,
    msgId: MsgId16)
  {
    predicate Encodable() {
      |sender| <= U16_MAX && |recipient| <= U16_MAX && |route| <= U16_MAX
    }
  }

  function AadTail(f: AadFields): bytes {
    Tlv(TIMESTAMP_UNIX_MS, U64ToBE(f.tsUnixMs)) +
    (Tlv(SEQUENCE, U64ToBE(f.seqNo)) +
     (Tlv(MSG_ID_16, f.msgId) + []))
  }

  function AadBytes(f: AadFields): bytes
    requires f.Encodable()
  {
    AAD_PREFIX +
    (Tlv(SENDER_ID, f.sender) +
     (Tlv(RECIPIENT_ID, f.recipient) +
      (Tlv(ROUTE, f.route) + AadTail(f))))
  }

  lemma Assoc(a: bytes, b: bytes, c: bytes)
    ensures a + b + c == a + (b + c)
  {
  }

  /** Appending field by field gives the same bytes as nesting from the right. */
  lemma AadBytesFlat(f: AadFields)
    requires f.Encodable()
    ensures AadBytes(f)
         == AAD_PREFIX + Tlv(SENDER_ID, f.sender) + Tlv(RECIPIENT_ID, f.recipient) + Tlv(ROUTE, f.route)
            + Tlv(TIMESTAMP_UNIX_MS, U64ToBE(f.tsUnixMs)) + Tlv(SEQUENCE, U64ToBE(f.seqNo)) + Tlv(MSG_ID_16, f.msgId)
  {
    var s, r, t := Tlv(SENDER_ID, f.sender), Tlv(RECIPIENT_ID, f.recipient), Tlv(ROUTE, f.route);
    var a, b := Tlv(TIMESTAMP_UNIX_MS, U64ToBE(f.tsUnixMs)), Tlv(SEQUENCE, U64ToBE(f.seqNo));
    var c := Tlv(MSG_ID_16, f.msgId);
    Assoc(AAD_PREFIX, s, r + (t + AadTail(f)));
    Assoc(AAD_PREFIX + s, r, t + AadTail(f));
    Assoc(AAD_PREFIX + s + r, t, AadTail(f));
    assert c + [] == c;
    Assoc(AAD_PREFIX + s + r + t, a, b + c);
    Assoc(AAD_PREFIX + s + r + t + a, b, c);
  }

  method BuildAad(f: AadFields) returns (r: Result<bytes>)
    ensures r.Ok? <==> f.Encodable()
    ensures r.Ok? ==> r.value == AadBytes(f)
  {
    var out := new ByteVec();
    out.data := AAD_PREFIX;
    var ok := PushTlv(out, SENDER_ID, f.sender);
    if !ok { return Err; }
    ok := PushTlv(out, RECIPIENT_ID, f.recipient);
    if !ok { return Err; }
    ok := PushTlv(out, ROUTE, f.route);
    if !ok { return Err; }
    assert f.Encodable();
    assert out.data == AAD_PREFIX + Tlv(SENDER_ID, f.sender) + Tlv(RECIPIENT_ID, f.recipient) + Tlv(ROUTE, f.route);
    ok := PushTlv(out, TIMESTAMP_UNIX_MS, U64ToBE(f.tsUnixMs));
    ok := PushTlv(out, SEQUENCE, U64ToBE(f.seqNo));
    ok := PushTlv(out, MSG_ID_16, f.msgId);
    AadBytesFlat(f);
    return Ok(out.data);
  }

  lemma AadTailInjective(f: AadFields, g: AadFields)
    requires AadTail(f) == AadTail(g)
    ensures f.tsUnixMs == g.tsUnixMs && f.seqNo == g.seqNo && f.msgId == g.msgId
  {
    var restF := Tlv(SEQUENCE, U64ToBE(f.seqNo)) + (Tlv(MSG_ID_16, f.msgId) + []);
    var restG := Tlv(SEQUENCE, U64ToBE(g.seqNo)) + (Tlv(MSG_ID_16, g.msgId) + []);
    TlvPrefix(TIMESTAMP_UNIX_MS, U64ToBE(f.tsUnixMs), restF, U64ToBE(g.tsUnixMs), restG);
    TlvPrefix(SEQUENCE, U64ToBE(f.seqNo), Tlv(MSG_ID_16, f.msgId) + [],
              U64ToBE(g.seqNo), Tlv(MSG_ID_16, g.msgId) + []);
    TlvPrefix(MSG_ID_16, f.msgId, [], g.msgId, []);
  }

  /** Equal AAD bytes come from equal fields, all six of them. */
  lemma AadBytesInjective(f: AadFields, g: AadFields)
    requires f.Encodable() && g.Encodable()
    requires AadBytes(f) == AadBytes(g)
    ensures f == g
  {
    var routeF := Tlv(ROUTE, f.route) + AadTail(f);
    var routeG := Tlv(ROUTE, g.route) + AadTail(g);
    var recipientF := Tlv(RECIPIENT_ID, f.recipient) + routeF;
    var recipientG := Tlv(RECIPIENT_ID, g.recipient) + routeG;
    SplitConcat(AAD_PREFIX, Tlv(SENDER_ID, f.sender) + recipientF,
                AAD_PREFIX, Tlv(SENDER_ID, g.sender) + recipientG);
    TlvPrefix(SENDER_ID, f.sender, recipientF, g.sender, recipientG);
    TlvPrefix(RECIPIENT_ID, f.recipient, routeF, g.recipient, routeG);
    TlvPrefix(ROUTE, f.route, AadTail(f), g.route, AadTail(g));
    AadTailInjective(f, g);
  }

  /** The canonical AAD, field by field: a tag byte, the length in two bytes, the value. */
  lemma AadWrittenOut(f: AadFields)
    requires f.Encodable()
    ensures AadBytes(f)
         == Ascii("citadel|aad|v1")
            + ([0x01] + ToBE(2, |f.sender|) + f.sender)
            + ([0x02] + ToBE(2, |f.recipient|) + f.recipient)
            + ([0x03] + ToBE(2, |f.route|) + f.route)
            + ([0x04] + ToBE(2, 8) + ToBE(8, f.tsUnixMs))
            + ([0x05] + ToBE(2, 8) + ToBE(8, f.seqNo))
            + ([0x06] + ToBE(2, 16) + f.msgId)
  {
    AadBytesFlat(f);
    hide AadBytes;
  }

  // ----- context -----

  /** The first 65535 bytes of a field. */
  function Clip(s: bytes): (r: bytes)
    ensures |r| <= U16_MAX
    ensures r <= s && (|s| <= U16_MAX ==> r == s)
  {
    if |s| <= U16_MAX then s else s[..U16_MAX]
  }

  function ContextBytes(env: bytes, purpose: bytes): bytes {
    CONTEXT_PREFIX +
    (U16ToBE(|Clip(env)|) + (Clip(env) + (U16ToBE(|Clip(purpose)|) + Clip(purpose))))
  }

  lemma ContextBytesFlat(env: bytes, purpose: bytes)
    ensures ContextBytes(env, purpose)
         == CONTEXT_PREFIX + U16ToBE(|Clip(env)|) + Clip(env) + U16ToBE(|Clip(purpose)|) + Clip(purpose)
  {
    var e, p := Clip(env), Clip(purpose);
    var n, m := U16ToBE(|e|), U16ToBE(|p|);
    Assoc(CONTEXT_PREFIX, n, e + (m + p));
    Assoc(CONTEXT_PREFIX + n, e, m + p);
    Assoc(CONTEXT_PREFIX + n + e, m, p);
  }

  method BuildContext(env: bytes, purpose: bytes) returns (out: bytes)
    ensures out == ContextBytes(env, purpose)
  {
    hide CONTEXT_PREFIX, U16ToBE, ContextBytes;
    var envB := env[..if |env| <= U16_MAX then |env| else U16_MAX];
    var purposeB := purpose[..if |purpose| <= U16_MAX then |purpose| else U16_MAX];
    assert envB == Clip(env) && purposeB == Clip(purpose) by {
      assert envB <= env && purposeB <= purpose;
    }
    out := [];
    out := out + CONTEXT_PREFIX;
    out := out + U16ToBE(|envB|);
    out := out + envB;
    out := out + U16ToBE(|purposeB|);
    out := out + purposeB;
    ContextBytesFlat(env, purpose);
  }

  /** Two contexts collide exactly when both fields agree on their first 65535 bytes. */
  lemma ContextCollision(env: bytes, purpose: bytes, env': bytes, purpose': bytes)
    ensures ContextBytes(env, purpose) == ContextBytes(env', purpose')
       <==> Clip(env) == Clip(env') && Clip(purpose) == Clip(purpose')
  {
    if ContextBytes(env, purpose) == ContextBytes(env', purpose') {
      var e, e', p, p' := Clip(env), Clip(env'), Clip(purpose), Clip(purpose');
      var tail, tail' := U16ToBE(|p|) + p, U16ToBE(|p'|) + p';
      SplitConcat(CONTEXT_PREFIX, U16ToBE(|e|) + (e + tail), CONTEXT_PREFIX, U16ToBE(|e'|) + (e' + tail'));
      SplitConcat(U16ToBE(|e|), e + tail, U16ToBE(|e'|), e' + tail');
      SplitConcat(e, tail, e', tail');
      SplitConcat(U16ToBE(|p|), p, U16ToBE(|p'|), p');
    }
  }

  function Min(a: nat, b: nat): nat {
    if a <= b then a else b
  }

  /** The context, written out: each field cut to 65535 bytes, after its length in two bytes. */
  lemma ContextWrittenOut(env: bytes, purpose: bytes)
    ensures var e, p := env[..Min(|env|, 65535)], purpose[..Min(|purpose|, 65535)];
            ContextBytes(env, purpose) == Ascii("citadel|ctx|v1|") + ToBE(2, |e|) + e + ToBE(2, |p|) + p
  {
    ContextBytesFlat(env, purpose);
    assert env[..Min(|env|, 65535)] == Clip(env) && purpose[..Min(|purpose|, 65535)] == Clip(purpose);
    hide ContextBytes, Clip;
  }
}
