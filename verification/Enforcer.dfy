/** The capability registry of citadel-core/src/state_enforcer.rs. Clock readings and random nonces are inputs. */
module Enforcer {
  import opened Wrappers

  const CAPABILITY_TOKEN_TTL_NANOS: nat := 60_000_000_000
  const NANOS_PER_MS: nat := 1_000_000

  datatype CapabilityToken = CapabilityToken(nonce: nat, enforcerGeneration: nat)

  /** An operation with the parameters its authorization records. */
  datatype Operation =
    | Encrypt(recipient: Option<string>)
    | Decrypt
    | KeyRotation(newKeyId: string)
    | KeyAccess
    | Sign(payloadHash: seq<int>)
    | Verify

  datatype AuthorizedContext = AuthorizedContext(
    capability: CapabilityToken,
    operation: Operation,
    keyId: string,
    domainId: Option<string>,
    timestampMs: nat)

  datatype DenialReason = InvalidKey | InvalidKeyState | DomainViolation

  datatype AuthResult = Authorized(context: AuthorizedContext) | Denied(reason: DenialReason)

  /** A validation rejects the token, consumes it but finds the context too old, or accepts. */
  datatype Validation = TokenInvalid | ContextExpired | Valid

  datatype State = State(
    validKeys: set<string>,
    revokedKeys: set<string>,
    domainKeys: map<string, set<string>>,
    issuedTokens: map<nat, nat>,
    generation: nat,
    ttlMs: nat,
    clockSkewMs: nat)

  function Initial(generation: nat, ttlMs: nat, clockSkewMs: nat): State {
    State({}, {}, map[], map[], generation, ttlMs, clockSkewMs)
  }

  function SaturatingSub(a: nat, b: nat): nat {
    if a < b then 0 else a - b
  }

  // ----- keys -----

  function RegisterKey(s: State, keyId: string, domain: Option<string>): State {
    var s' := s.(validKeys := s.validKeys + {keyId});
    match domain
    case None => s'
    case Some(d) =>
      s'.(domainKeys := s.domainKeys[d := (if d in s.domainKeys then s.domainKeys[d] else {}) + {keyId}])
  }

  function RevokeKey(s: State, keyId: string): State {
    s.(revokedKeys := s.revokedKeys + {keyId},
       validKeys := s.validKeys - {keyId},
       domainKeys := map d | d in s.domainKeys :: s.domainKeys[d] - {keyId})
  }

  /** The denial for a key in a domain, if any; revocation is reported before absence. */
  function ValidateKey(s: State, keyId: string, domain: Option<string>): Option<DenialReason> {
    if keyId in s.revokedKeys then Some(InvalidKeyState)
    else if keyId !in s.validKeys then Some(InvalidKey)
    else
      match domain
      case None => None
      case Some(d) =>
        if d in s.domainKeys then
          if keyId !in s.domainKeys[d] then Some(DomainViolation) else None
        else Some(DomainViolation)
  }

  /** The extra check on a second key: the recipient must be live, a rotation target must not be. */
  function ValidateOther(s: State, op: Operation): Option<DenialReason> {
    match op
    case Encrypt(Some(recipient)) =>
      if recipient !in s.validKeys then Some(InvalidKey)
      else if recipient in s.revokedKeys then Some(InvalidKeyState)
      else None
    case KeyRotation(newKeyId) => if newKeyId in s.validKeys then Some(InvalidKey) else None
    case _ => None
  }

  // ----- tokens -----

  /** The entries less than 60 s old. */
  function Retain(tokens: map<nat, nat>, now: nat): map<nat, nat> {
    map n | n in tokens && SaturatingSub(now, tokens[n]) < CAPABILITY_TOKEN_TTL_NANOS :: tokens[n]
  }

  function GenerateToken(s: State, nonce: nat, now: nat): (State, CapabilityToken) {
    (s.(issuedTokens := Retain(s.issuedTokens[nonce := now], now)), CapabilityToken(nonce, s.generation))
  }

  function ValidateToken(s: State, token: CapabilityToken, now: nat): (State, bool) {
    if token.nonce == 0 then (s, false)
    else if token.enforcerGeneration != s.generation then (s, false)
    else
      var retained := Retain(s.issuedTokens, now);
      (s.(issuedTokens := retained - {token.nonce}), token.nonce in retained)
  }

  /** Every `authorize_*`: the nonce is drawn and registered at `now`, the context is stamped by a later reading. */
  function Authorize(s: State, op: Operation, keyId: string, domain: Option<string>, nonce: nat, now: nat,
                     stampNow: nat): (State, AuthResult) {
    match ValidateKey(s, keyId, domain)
    case Some(reason) => (s, Denied(reason))
    case None =>
      match ValidateOther(s, op)
      case Some(reason) => (s, Denied(reason))
      case None =>
        var (s', token) := GenerateToken(s, nonce, now);
        (s', Authorized(AuthorizedContext(token, op, keyId, domain, stampNow / NANOS_PER_MS)))
  }

  /** `AuthorizedContext::validate`: the registry reads the clock at `now`, the age test at `checkNow`. */
  function Validate(s: State, context: AuthorizedContext, now: nat, checkNow: nat): (State, Validation) {
    var (s', ok) := ValidateToken(s, context.capability, now);
    if !ok then (s', TokenInvalid)
    else if SaturatingSub(checkNow / NANOS_PER_MS, context.timestampMs) > s.ttlMs + s.clockSkewMs
    then (s', ContextExpired)
    else (s', Valid)
  }

  // ----- the object -----

  class StateEnforcer {
    var validKeys: set<string>
    var revokedKeys: set<string>
    var domainKeys: map<string, set<string>>
    var issuedTokens: map<nat, nat>
    const generation: nat
    const ttlMs: nat
    const clockSkewMs: nat

    function Abs(): State
      reads this
    {
      State(validKeys, revokedKeys, domainKeys, issuedTokens, generation, ttlMs, clockSkewMs)
    }

    constructor (generation: nat, ttlMs: nat, clockSkewMs: nat)
      ensures Abs() == Initial(generation, ttlMs, clockSkewMs)
    {
      validKeys, revokedKeys, domainKeys, issuedTokens := {}, {}, map[], map[];
      this.generation, this.ttlMs, this.clockSkewMs := generation, ttlMs, clockSkewMs;
    }

    method Register(keyId: string, domain: Option<string>)
      modifies this
      ensures Abs() == RegisterKey(old(Abs()), keyId, domain)
    {
      validKeys := validKeys + {keyId};
      if domain.Some? {
        if domain.value !in domainKeys {
          domainKeys := domainKeys[domain.value := {}];
        }
        domainKeys := domainKeys[domain.value := domainKeys[domain.value] + {keyId}];
      }
    }

    method Revoke(keyId: string)
      modifies this
      ensures Abs() == RevokeKey(old(Abs()), keyId)
    {
      revokedKeys := revokedKeys + {keyId};
      validKeys := validKeys - {keyId};
      var todo := domainKeys.Keys;
      while todo != {}
        invariant todo <= domainKeys.Keys == old(domainKeys.Keys)
        invariant forall d | d in domainKeys ::
                    domainKeys[d] == if d in todo then old(domainKeys)[d] else old(domainKeys)[d] - {keyId}
        invariant validKeys == old(validKeys) - {keyId} && revokedKeys == old(revokedKeys) + {keyId}
        invariant issuedTokens == old(issuedTokens)
        decreases todo
      {
        var d :| d in todo;
        domainKeys := domainKeys[d := domainKeys[d] - {keyId}];
        todo := todo - {d};
      }
    }

    method GenerateCapabilityToken(nonce: nat, now: nat) returns (token: CapabilityToken)
      modifies this`issuedTokens
      ensures (Abs(), token) == GenerateToken(old(Abs()), nonce, now)
    {
      issuedTokens := issuedTokens[nonce := now];
      issuedTokens := Retain(issuedTokens, now);
      return CapabilityToken(nonce, generation);
    }

    method ValidateCapability(token: CapabilityToken, now: nat) returns (ok: bool)
      modifies this`issuedTokens
      ensures (Abs(), ok) == ValidateToken(old(Abs()), token, now)
    {
      if token.nonce == 0 {
        return false;
      }
      if token.enforcerGeneration != generation {
        return false;
      }
      issuedTokens := Retain(issuedTokens, now);
      ok := token.nonce in issuedTokens;
      issuedTokens := issuedTokens - {token.nonce};
    }

    method AuthorizeEncrypt(sender: string, domain: Option<string>, recipient: Option<string>, nonce: nat, now: nat,
                            stampNow: nat)
      returns (r: AuthResult)
      modifies this`issuedTokens
      ensures (Abs(), r) == Authorize(old(Abs()), Encrypt(recipient), sender, domain, nonce, now, stampNow)
    {
      var denial := ValidateKey(Abs(), sender, domain);
      if denial.Some? {
        return Denied(denial.value);
      }
      if recipient.Some? {
        if recipient.value !in validKeys {
          return Denied(InvalidKey);
        }
        if recipient.value in revokedKeys {
          return Denied(InvalidKeyState);
        }
      }
      var token := GenerateCapabilityToken(nonce, now);
      return Authorized(AuthorizedContext(token, Encrypt(recipient), sender, domain, stampNow / NANOS_PER_MS));
    }

    method AuthorizeKeyRotation(oldKeyId: string, newKeyId: string, domain: Option<string>, nonce: nat, now: nat,
                                stampNow: nat)
      returns (r: AuthResult)
      modifies this`issuedTokens
      ensures (Abs(), r) == Authorize(old(Abs()), KeyRotation(newKeyId), oldKeyId, domain, nonce, now, stampNow)
    {
      var denial := ValidateKey(Abs(), oldKeyId, domain);
      if denial.Some? {
        return Denied(denial.value);
      }
      if newKeyId in validKeys {
        return Denied(InvalidKey);
      }
      var token := GenerateCapabilityToken(nonce, now);
      return Authorized(AuthorizedContext(token, KeyRotation(newKeyId), oldKeyId, domain, stampNow / NANOS_PER_MS));
    }

    /** The body that the next four authorizations share. */
    method AuthorizeSimple(op: Operation, keyId: string, domain: Option<string>, nonce: nat, now: nat, stampNow: nat)
      returns (r: AuthResult)
      requires !op.Encrypt? && !op.KeyRotation?
      modifies this`issuedTokens
      ensures (Abs(), r) == Authorize(old(Abs()), op, keyId, domain, nonce, now, stampNow)
    {
      var denial := ValidateKey(Abs(), keyId, domain);
      if denial.Some? {
        return Denied(denial.value);
      }
      var token := GenerateCapabilityToken(nonce, now);
      return Authorized(AuthorizedContext(token, op, keyId, domain, stampNow / NANOS_PER_MS));
    }

    method AuthorizeDecrypt(keyId: string, domain: Option<string>, nonce: nat, now: nat, stampNow: nat)
      returns (r: AuthResult)
      modifies this`issuedTokens
      ensures (Abs(), r) == Authorize(old(Abs()), Decrypt, keyId, domain, nonce, now, stampNow)
    {
      r := AuthorizeSimple(Decrypt, keyId, domain, nonce, now, stampNow);
    }

    method AuthorizeApiRequest(keyId: string, domain: Option<string>, nonce: nat, now: nat, stampNow: nat)
      returns (r: AuthResult)
      modifies this`issuedTokens
      ensures (Abs(), r) == Authorize(old(Abs()), KeyAccess, keyId, domain, nonce, now, stampNow)
    {
      r := AuthorizeSimple(KeyAccess, keyId, domain, nonce, now, stampNow);
    }

    /** `payloadHash` is the SHA-256 digest of the message. */
    method AuthorizeSign(keyId: string, domain: Option<string>, payloadHash: seq<int>, nonce: nat, now: nat,
        stampNow: nat)
      returns (r: AuthResult)
      modifies this`issuedTokens
      ensures (Abs(), r) == Authorize(old(Abs()), Sign(payloadHash), keyId, domain, nonce, now, stampNow)
    {
      r := AuthorizeSimple(Sign(payloadHash), keyId, domain, nonce, now, stampNow);
    }

    method AuthorizeVerify(keyId: string, domain: Option<string>, nonce: nat, now: nat, stampNow: nat)
      returns (r: AuthResult)
      modifies this`issuedTokens
      ensures (Abs(), r) == Authorize(old(Abs()), Verify, keyId, domain, nonce, now, stampNow)
    {
      r := AuthorizeSimple(Verify, keyId, domain, nonce, now, stampNow);
    }

    method ValidateContext(context: AuthorizedContext, now: nat, checkNow: nat) returns (r: Validation)
      modifies this`issuedTokens
      ensures (Abs(), r) == Validate(old(Abs()), context, now, checkNow)
    {
      var ok := ValidateCapability(context.capability, now);
      if !ok {
        return TokenInvalid;
      }
      var ageMs := SaturatingSub(checkNow / NANOS_PER_MS, context.timestampMs);
      if ageMs > ttlMs + clockSkewMs {
        return ContextExpired;
      }
      return Valid;
    }
  }
}
