/** Safety of the capability registry over whole runs of one enforcer. */
module EnforcerRuns {
  import opened Wrappers
  import opened Enforcer

  /** `at` is the clock reading of the registry; `stampAt` and `checkAt` are the second readings. */
  datatype Event =
    | Register(at: nat, keyId: string, domain: Option<string>)
    | Revoke(at: nat, keyId: string)
    | Issue(at: nat, op: Operation, keyId: string, domain: Option<string>, nonce: nat, stampAt: nat)
    | Check(at: nat, context: AuthorizedContext, checkAt: nat)

  function Step(s: State, e: Event): State {
    match e
    case Register(_, keyId, domain) => RegisterKey(s, keyId, domain)
    case Revoke(_, keyId) => RevokeKey(s, keyId)
    case Issue(at, op, keyId, domain, nonce, stampAt) => Authorize(s, op, keyId, domain, nonce, at, stampAt).0
    case Check(at, context, checkAt) => Validate(s, context, at, checkAt).0
  }

  function Run(s: State, es: seq<Event>): State {
    if es == [] then s else Step(Run(s, es[..|es| - 1]), es[|es| - 1])
  }

  /** What the authorization at position `i` of the run returned. */
  function IssueAt(s: State, es: seq<Event>, i: nat): AuthResult
    requires i < |es| && es[i].Issue?
  {
    Authorize(Run(s, es[..i]), es[i].op, es[i].keyId, es[i].domain, es[i].nonce, es[i].at, es[i].stampAt).1
  }

  /** What the validation at position `i` of the run returned. */
  function CheckAt(s: State, es: seq<Event>, i: nat): Validation
    requires i < |es| && es[i].Check?
  {
    Validate(Run(s, es[..i]), es[i].context, es[i].at, es[i].checkAt).1
  }

  /** Position `i` issued the nonce `n`. */
  predicate Issued(s: State, es: seq<Event>, i: nat, n: nat) {
    i < |es| && es[i].Issue? && es[i].nonce == n && IssueAt(s, es, i).Authorized?
  }

  /** Position `i` consumed a token with nonce `n`, whether or not the context then was too old. */
  predicate Consumed(s: State, es: seq<Event>, i: nat, n: nat) {
    i < |es| && es[i].Check? && es[i].context.capability.nonce == n && CheckAt(s, es, i) != TokenInvalid
  }

  predicate Monotone(es: seq<Event>) {
    forall i, j | 0 <= i <= j < |es| :: es[i].at <= es[j].at
  }

  predicate FreshNonces(es: seq<Event>) {
    forall i, j | 0 <= i < j < |es| && es[i].Issue? && es[j].Issue? :: es[i].nonce != es[j].nonce
  }

  /** Positions of a shorter run mean the same in a longer one. */
  lemma Prefix(s: State, es: seq<Event>, k: nat, i: nat)
    requires i < k <= |es|
    ensures es[..k][..i] == es[..i]
    ensures es[i].Issue? ==> IssueAt(s, es[..k], i) == IssueAt(s, es, i)
    ensures es[i].Check? ==> CheckAt(s, es[..k], i) == CheckAt(s, es, i)
    ensures forall n :: Issued(s, es[..k], i, n) <==> Issued(s, es, i, n)
    ensures forall n :: Consumed(s, es[..k], i, n) <==> Consumed(s, es, i, n)
  {
    assert es[..k][..i] == es[..i];
  }

  // ----- authorization is a function of the history -----

  predicate WasRegistered(es: seq<Event>, keyId: string) {
    exists i | 0 <= i < |es| :: es[i].Register? && es[i].keyId == keyId
  }

  predicate WasRegisteredIn(es: seq<Event>, keyId: string, domain: string) {
    exists i | 0 <= i < |es| :: es[i].Register? && es[i].keyId == keyId && es[i].domain == Some(domain)
  }

  predicate WasRevoked(es: seq<Event>, keyId: string) {
    exists i | 0 <= i < |es| :: es[i].Revoke? && es[i].keyId == keyId
  }

  /** Position `i` registered the key and nothing revoked it afterwards. */
  predicate StandingRegistration(es: seq<Event>, i: nat, keyId: string) {
    && i < |es| && es[i].Register? && es[i].keyId == keyId
    && forall j | i < j < |es| :: !(es[j].Revoke? && es[j].keyId == keyId)
  }

  predicate RegisteredSinceRevoked(es: seq<Event>, keyId: string) {
    exists i :: 0 <= i < |es| && StandingRegistration(es, i, keyId)
  }

  lemma HistoryGrows(es: seq<Event>, e: Event, keyId: string, domain: string)
    ensures WasRevoked(es + [e], keyId) <==> WasRevoked(es, keyId) || (e.Revoke? && e.keyId == keyId)
    ensures WasRegistered(es + [e], keyId) <==> WasRegistered(es, keyId) || (e.Register? && e.keyId == keyId)
    ensures WasRegisteredIn(es + [e], keyId, domain)
       <==> WasRegisteredIn(es, keyId, domain) || (e.Register? && e.keyId == keyId && e.domain == Some(domain))
  {
    var es' := es + [e];
    assert es'[|es|] == e;
    assert forall i | 0 <= i < |es| :: es'[i] == es[i];
  }

  lemma SinceRevokedGrows(es: seq<Event>, e: Event, keyId: string)
    ensures RegisteredSinceRevoked(es + [e], keyId)
       <==> (e.Register? && e.keyId == keyId) || (RegisteredSinceRevoked(es, keyId) && !(e.Revoke? && e.keyId == keyId))
  {
    var es' := es + [e];
    assert StandingRegistration(es', |es|, keyId) <==> e.Register? && e.keyId == keyId;
    forall i | 0 <= i < |es|
      ensures StandingRegistration(es', i, keyId)
         <==> StandingRegistration(es, i, keyId) && !(e.Revoke? && e.keyId == keyId)
    {
      assert es'[|es|] == e;
      assert forall j | 0 <= j < |es| :: es'[j] == es[j];
    }
  }

  /** Position `i` registered the key in the domain and nothing revoked it afterwards. */
  predicate StandingIn(es: seq<Event>, i: nat, keyId: string, domain: string) {
    StandingRegistration(es, i, keyId) && es[i].domain == Some(domain)
  }

  predicate RegisteredInSinceRevoked(es: seq<Event>, keyId: string, domain: string) {
    exists i :: 0 <= i < |es| && StandingIn(es, i, keyId, domain)
  }

  lemma InSinceRevokedGrows(es: seq<Event>, e: Event, keyId: string, domain: string)
    ensures RegisteredInSinceRevoked(es + [e], keyId, domain) <==>
              || (e.Register? && e.keyId == keyId && e.domain == Some(domain))
              || (RegisteredInSinceRevoked(es, keyId, domain) && !(e.Revoke? && e.keyId == keyId))
  {
    var es' := es + [e];
    assert es'[|es|] == e && forall j | 0 <= j < |es| :: es'[j] == es[j];
    assert StandingIn(es', |es|, keyId, domain) <==> e.Register? && e.keyId == keyId && e.domain == Some(domain);
    forall i | 0 <= i < |es|
      ensures StandingIn(es', i, keyId, domain) <==>
                StandingIn(es, i, keyId, domain) && !(e.Revoke? && e.keyId == keyId)
    {
    }
  }

  /** A key that was never revoked stands wherever it was registered. */
  lemma NeverRevoked(es: seq<Event>, keyId: string, domain: string)
    requires !WasRevoked(es, keyId)
    ensures RegisteredSinceRevoked(es, keyId) <==> WasRegistered(es, keyId)
    ensures RegisteredInSinceRevoked(es, keyId, domain) <==> WasRegisteredIn(es, keyId, domain)
  {
    forall i | 0 <= i < |es| && es[i].Register? && es[i].keyId == keyId ensures StandingRegistration(es, i, keyId) {
    }
    if WasRegisteredIn(es, keyId, domain) {
      var i :| 0 <= i < |es| && es[i].Register? && es[i].keyId == keyId && es[i].domain == Some(domain);
      assert StandingIn(es, i, keyId, domain);
    }
  }

  predicate InDomain(s: State, keyId: string, domain: string) {
    domain in s.domainKeys && keyId in s.domainKeys[domain]
  }

  /** What the key sets should hold after a history. */
  predicate KeysMatch(s: State, es: seq<Event>, keyId: string, domain: string) {
    && (keyId in s.revokedKeys <==> WasRevoked(es, keyId))
    && (keyId in s.validKeys <==> RegisteredSinceRevoked(es, keyId))
    && (InDomain(s, keyId, domain) <==> RegisteredInSinceRevoked(es, keyId, domain))
  }

  lemma KeysMatchStep(s: State, es: seq<Event>, e: Event, keyId: string, domain: string)
    requires KeysMatch(s, es, keyId, domain)
    ensures KeysMatch(Step(s, e), es + [e], keyId, domain)
  {
    HistoryGrows(es, e, keyId, domain);
    SinceRevokedGrows(es, e, keyId);
    InSinceRevokedGrows(es, e, keyId, domain);
    hide WasRevoked, WasRegistered, WasRegisteredIn, RegisteredSinceRevoked, RegisteredInSinceRevoked;
  }

  lemma {:induction false} KeysFollowHistory(s: State, es: seq<Event>, keyId: string, domain: string)
    requires s == Initial(s.generation, s.ttlMs, s.clockSkewMs)
    ensures KeysMatch(Run(s, es), es, keyId, domain)
  {
    if es != [] {
      var front, e := es[..|es| - 1], es[|es| - 1];
      assert es == front + [e];
      KeysFollowHistory(s, front, keyId, domain);
      KeysMatchStep(Run(s, front), front, e, keyId, domain);
    }
  }

  predicate MayUse(es: seq<Event>, keyId: string, domain: Option<string>) {
    && !WasRevoked(es, keyId)
    && WasRegistered(es, keyId)
    && (domain.Some? ==> WasRegisteredIn(es, keyId, domain.value))
  }

  predicate OtherKeyAllows(es: seq<Event>, op: Operation) {
    match op
    case Encrypt(Some(recipient)) => !WasRevoked(es, recipient) && WasRegistered(es, recipient)
    case KeyRotation(newKeyId) => !RegisteredSinceRevoked(es, newKeyId)
    case _ => true
  }

  /** A recipient that stands although it was once revoked is denied as revoked, any other second key as invalid. */
  function OtherKeyDenial(es: seq<Event>, op: Operation): DenialReason {
    match op
    case Encrypt(Some(recipient)) => if RegisteredSinceRevoked(es, recipient) then InvalidKeyState else InvalidKey
    case _ => InvalidKey
  }

  /**
   Authorization is decided by the history alone: in a domain it needs a registration there, without a domain any
   registration, and a revocation at any time before, even one followed by re-registration, denies it for ever. The
   denial says which of these failed.
   */
  lemma AuthorizedExactly(s: State, es: seq<Event>, op: Operation, keyId: string, domain: Option<string>, nonce: nat,
                          at: nat, stampAt: nat)
    requires s == Initial(s.generation, s.ttlMs, s.clockSkewMs)
    ensures var r := Authorize(Run(s, es), op, keyId, domain, nonce, at, stampAt).1;
            && (r.Authorized? <==> MayUse(es, keyId, domain) && OtherKeyAllows(es, op))
            && (WasRevoked(es, keyId) ==> r == Denied(InvalidKeyState))
            && (!WasRevoked(es, keyId) && !WasRegistered(es, keyId) ==> r == Denied(InvalidKey))
            && (!WasRevoked(es, keyId) && WasRegistered(es, keyId) && !MayUse(es, keyId, domain)
               ==> r == Denied(DomainViolation))
            && (MayUse(es, keyId, domain) && !OtherKeyAllows(es, op) ==> r == Denied(OtherKeyDenial(es, op)))
  {
    KeysFollowHistory(s, es, keyId, if domain.Some? then domain.value else "");
    if !WasRevoked(es, keyId) {
      NeverRevoked(es, keyId, if domain.Some? then domain.value else "");
    }
    match op {
      case Encrypt(Some(recipient)) =>
        KeysFollowHistory(s, es, recipient, "");
        if !WasRevoked(es, recipient) {
          NeverRevoked(es, recipient, "");
        }
      case KeyRotation(newKeyId) => KeysFollowHistory(s, es, newKeyId, "");
      case _ =>
    }
  }

  // ----- the life of one token -----

  lemma {:induction false} SettingsStay(s: State, es: seq<Event>)
    ensures var s' := Run(s, es);
            s'.generation == s.generation && s'.ttlMs == s.ttlMs && s'.clockSkewMs == s.clockSkewMs
  {
    if es != [] {
      SettingsStay(s, es[..|es| - 1]);
    }
  }

  /** Every live entry was issued by this run, at the recorded time. */
  lemma {:induction false} LiveWasIssued(s: State, es: seq<Event>, n: nat) returns (i: nat)
    requires s.issuedTokens == map[]
    requires n in Run(s, es).issuedTokens
    ensures Issued(s, es, i, n) && Run(s, es).issuedTokens[n] == es[i].at
  {
    var k := |es| - 1;
    if es[k].Issue? && es[k].nonce == n && IssueAt(s, es, k).Authorized? {
      i := k;
    } else {
      i := LiveWasIssued(s, es[..k], n);
      Prefix(s, es, k, i);
    }
  }

  /** Only an issued token is consumed: the nonce was issued earlier, by this enforcer, less than 60 s before. */
  lemma ConsumedWasIssued(s: State, es: seq<Event>, j: nat, n: nat)
    requires s.issuedTokens == map[]
    requires Consumed(s, es, j, n)
    ensures exists i | 0 <= i < j :: Issued(s, es, i, n)
              && SaturatingSub(es[j].at, es[i].at) < CAPABILITY_TOKEN_TTL_NANOS
    ensures es[j].context.capability.enforcerGeneration == s.generation && n != 0
  {
    SettingsStay(s, es[..j]);
    var i := LiveWasIssued(s, es[..j], n);
    Prefix(s, es, j, i);
  }

  /** A live entry has not been consumed since it was last issued. */
  lemma {:induction false} LiveIsUnconsumed(s: State, es: seq<Event>, n: nat, j: nat)
    requires s.issuedTokens == map[] && FreshNonces(es)
    requires n in Run(s, es).issuedTokens
    ensures !Consumed(s, es, j, n)
  {
    if Consumed(s, es, j, n) {
      var k := |es| - 1;
      if j < k {
        Prefix(s, es, k, j);
        if n in Run(s, es[..k]).issuedTokens {
          LiveIsUnconsumed(s, es[..k], n, j);
        } else {
          ConsumedWasIssued(s, es, j, n);
        }
      }
    }
  }

  /** No token is accepted twice, as long as nonces do not repeat. */
  lemma ConsumedOnce(s: State, es: seq<Event>, j: nat, k: nat, n: nat)
    requires s.issuedTokens == map[] && FreshNonces(es)
    requires j < k && Consumed(s, es, j, n)
    ensures !Consumed(s, es, k, n)
  {
    if Consumed(s, es, k, n) {
      Prefix(s, es, k, j);
      LiveIsUnconsumed(s, es[..k], n, j);
    }
  }

  lemma YoungSurvivesStep(s: State, e: Event, n: nat, now: nat)
    requires n in s.issuedTokens && e.at <= now && now - s.issuedTokens[n] < CAPABILITY_TOKEN_TTL_NANOS
    requires e.Issue? ==> e.nonce != n
    requires e.Check? && e.context.capability.nonce == n ==> Validate(s, e.context, e.at, e.checkAt).1 == TokenInvalid
    ensures n in Step(s, e).issuedTokens && Step(s, e).issuedTokens[n] == s.issuedTokens[n]
  {
    hide ValidateKey, ValidateOther;
  }

  /** A token that is young and unconsumed is still in the registry. */
  lemma {:induction false} YoungStaysLive(s: State, es: seq<Event>, i: nat, n: nat, now: nat)
    requires s.issuedTokens == map[] && FreshNonces(es) && Monotone(es)
    requires Issued(s, es, i, n)
    requires forall j | 0 <= j < |es| :: es[j].at <= now && !Consumed(s, es, j, n)
    requires now - es[i].at < CAPABILITY_TOKEN_TTL_NANOS
    ensures n in Run(s, es).issuedTokens && Run(s, es).issuedTokens[n] == es[i].at
  {
    var k := |es| - 1;
    if i < k {
      Prefix(s, es, k, i);
      forall j | 0 <= j < k ensures es[..k][j].at <= now && !Consumed(s, es[..k], j, n) {
        Prefix(s, es, k, j);
      }
      YoungStaysLive(s, es[..k], i, n, now);
      assert !Consumed(s, es, k, n);
      YoungSurvivesStep(Run(s, es[..k]), es[k], n, now);
    }
  }

  /**
   When exactly a context is accepted. With nonces that do not repeat and a non-decreasing clock, a validation of a
   context this run issued succeeds if and only if its token is under 60 s old, was not consumed before, its nonce is
   not the reserved 0, and its millisecond age is within ttl + skew.
   */
  lemma AcceptedExactly(s: State, es: seq<Event>, i: nat, k: nat)
    requires s.issuedTokens == map[] && FreshNonces(es) && Monotone(es)
    requires i < k < |es| && es[i].Issue? && es[k].Check?
    requires IssueAt(s, es, i) == Authorized(es[k].context)
    ensures CheckAt(s, es, k) == Valid <==>
              && es[i].nonce != 0
              && es[k].at - es[i].at < CAPABILITY_TOKEN_TTL_NANOS
              && (forall j | 0 <= j < k :: !Consumed(s, es, j, es[i].nonce))
              && SaturatingSub(es[k].checkAt / NANOS_PER_MS, es[i].stampAt / NANOS_PER_MS) <= s.ttlMs + s.clockSkewMs
  {
    var n := es[i].nonce;
    SettingsStay(s, es[..i]);
    SettingsStay(s, es[..k]);
    assert es[k].context.capability == CapabilityToken(n, s.generation);
    Prefix(s, es, k, i);
    if CheckAt(s, es, k) == Valid {
      var i' := LiveWasIssued(s, es[..k], n);
      assert i' == i;
      forall j | 0 <= j < k ensures !Consumed(s, es, j, n) {
        Prefix(s, es, k, j);
        LiveIsUnconsumed(s, es[..k], n, j);
      }
    } else if es[k].at - es[i].at < CAPABILITY_TOKEN_TTL_NANOS && forall j | 0 <= j < k :: !Consumed(s, es, j, n) {
      forall j | 0 <= j < k ensures es[..k][j].at <= es[k].at && !Consumed(s, es[..k], j, n) {
        Prefix(s, es, k, j);
      }
      YoungStaysLive(s, es[..k], i, n, es[k].at);
    }
  }

  /**
   Revocation is bounded in time. Once a key is revoked at time t, no context this run ever issued for it is accepted
   from t + 60 s on, whatever order clock readings are used in. If a token issued before was stamped up to `slack`
   later than t, the bound moves by that much. (Sooner, a context may still be accepted: validation does not look at
   revocations.)
   */
  lemma RevocationIsBounded(s: State, es: seq<Event>, i: nat, r: nat, k: nat, slack: nat)
    requires s == Initial(s.generation, s.ttlMs, s.clockSkewMs) && FreshNonces(es)
    requires i < k < |es| && es[i].Issue? && es[k].Check?
    requires IssueAt(s, es, i) == Authorized(es[k].context)
    requires r < k && es[r] == Revoke(es[r].at, es[k].context.keyId)
    requires i < r ==> es[i].at <= es[r].at + slack
    requires es[k].at >= es[r].at + slack + CAPABILITY_TOKEN_TTL_NANOS
    ensures CheckAt(s, es, k) == TokenInvalid
  {
    AuthorizedExactly(s, es[..i], es[i].op, es[i].keyId, es[i].domain, es[i].nonce, es[i].at, es[i].stampAt);
    if CheckAt(s, es, k) != TokenInvalid {
      SettingsStay(s, es[..i]);
      ConsumedWasIssued(s, es, k, es[i].nonce);
    }
  }

  /**
   Sooner than that it may be: here a context is accepted after its key was revoked, since validation ignores
   revocations.
   */
  lemma RevocationIsNotImmediate(s: State)
    requires s == Initial(s.generation, s.ttlMs, s.clockSkewMs)
    ensures var context := AuthorizedContext(CapabilityToken(7, s.generation), Decrypt, "k", None, 0);
            var es := [Register(0, "k", None), Issue(1, Decrypt, "k", None, 7, 1),
                       Revoke(2, "k"), Check(3, context, 3)];
            WasRevoked(es[..3], "k") && CheckAt(s, es, 3) == Valid
  {
    var context := AuthorizedContext(CapabilityToken(7, s.generation), Decrypt, "k", None, 0);
    var es := [Register(0, "k", None), Issue(1, Decrypt, "k", None, 7, 1), Revoke(2, "k"), Check(3, context, 3)];
    assert es[..0] == [] && es[..1] == [es[0]] && es[..2] == [es[0], es[1]] && es[..3] == [es[0], es[1], es[2]];
    assert es[..1][..0] == [] && es[..2][..1] == es[..1] && es[..3][..2] == es[..2];
    assert es[..3][2] == Revoke(2, "k");
    var s1 := RegisterKey(s, "k", None);
    assert Run(s, es[..1]) == s1;
    assert Run(s, es[..2]) == Authorize(s1, Decrypt, "k", None, 7, 1, 1).0;
    assert 7 in Run(s, es[..2]).issuedTokens;
  }

  /**
   After an issue, and after a validation that reads the clock, the registry holds no entry 60 s old by that reading.
   */
  lemma TableIsYoung(s: State, e: Event, n: nat)
    requires || (e.Issue? && Authorize(s, e.op, e.keyId, e.domain, e.nonce, e.at, e.stampAt).1.Authorized?)
             || (e.Check? && e.context.capability.nonce != 0 && e.context.capability.enforcerGeneration == s.generation)
    requires n in Step(s, e).issuedTokens
    ensures e.at < Step(s, e).issuedTokens[n] + 60_000_000_000
  {
    hide ValidateKey, ValidateOther;
  }

  // ----- the two lifetimes -----

  lemma FloorMonotone(a: nat, b: nat)
    requires a <= b
    ensures a / NANOS_PER_MS <= b / NANOS_PER_MS
  {
  }

  lemma FloorGap(a: nat, b: nat, ms: nat)
    requires b - a <= ms * NANOS_PER_MS
    ensures b / NANOS_PER_MS <= a / NANOS_PER_MS + ms
  {
    assert b <= a + ms * NANOS_PER_MS;
    assert (a + ms * NANOS_PER_MS) / NANOS_PER_MS == a / NANOS_PER_MS + ms;
    FloorMonotone(b, a + ms * NANOS_PER_MS);
  }

  /**
   Two lifetimes. With the registry and the age test reading the clock at most `gap` nanoseconds apart, the millisecond
   test can never reject a token the registry accepts when gap <= (ttl + skew - 60000) ms + 1 ns; with one reading, when
   ttl + skew >= 60000. The bound survives both roundings to milliseconds and the later stamp.
   */
  lemma AgeTestNeverRejects(s: State, issuedAt: nat, stampAt: nat, at: nat, checkAt: nat)
    requires issuedAt <= stampAt && issuedAt <= at <= checkAt
    requires at - issuedAt < CAPABILITY_TOKEN_TTL_NANOS
    requires checkAt - at <= (s.ttlMs + s.clockSkewMs - 60_000) * NANOS_PER_MS + (if at == checkAt then 0 else 1)
    ensures SaturatingSub(checkAt / NANOS_PER_MS, stampAt / NANOS_PER_MS) <= s.ttlMs + s.clockSkewMs
  {
    var bound := s.ttlMs + s.clockSkewMs;
    assert checkAt - issuedAt <= bound * NANOS_PER_MS;
    FloorGap(issuedAt, checkAt, bound);
    FloorMonotone(issuedAt, stampAt);
  }

  /**
   Over runs: no validation of a context this run issued is refused for its age alone, if the two readings of a
   validation are no further apart than ttl + skew leaves room for. With one reading per validation that is ttl + skew
   >= 60000.
   */
  lemma AgeTestIsRedundant(s: State, es: seq<Event>, i: nat, k: nat)
    requires s.issuedTokens == map[] && FreshNonces(es) && Monotone(es)
    requires i < k < |es| && es[i].Issue? && es[k].Check?
    requires IssueAt(s, es, i) == Authorized(es[k].context)
    requires es[i].stampAt >= es[i].at && es[k].checkAt >= es[k].at
    requires es[k].checkAt - es[k].at
          <= (s.ttlMs + s.clockSkewMs - 60_000) * NANOS_PER_MS + (if es[k].at == es[k].checkAt then 0 else 1)
    ensures CheckAt(s, es, k) != ContextExpired
  {
    if CheckAt(s, es, k) != TokenInvalid {
      SettingsStay(s, es[..i]);
      SettingsStay(s, es[..k]);
      var n := es[i].nonce;
      assert Consumed(s, es, k, n);
      ConsumedWasIssued(s, es, k, n);
      var i' :| 0 <= i' < k && Issued(s, es, i', n) && SaturatingSub(es[k].at, es[i'].at) < CAPABILITY_TOKEN_TTL_NANOS;
      assert i' == i;
      AgeTestNeverRejects(s, es[i].at, es[i].stampAt, es[k].at, es[k].checkAt);
    }
  }

  /** A run whose position `k` validates, with one clock reading, the context its position `i` issued. */
  ghost predicate OneReadingRun(s: State, es: seq<Event>, i: nat, k: nat) {
    && FreshNonces(es) && Monotone(es)
    && i < k < |es| && es[i].Issue? && es[k].Check?
    && IssueAt(s, es, i) == Authorized(es[k].context)
    && es[i].stampAt >= es[i].at && es[k].checkAt == es[k].at
  }

  /** A token issued on the last nanosecond of a millisecond and presented on its own last nanosecond. */
  function LateRun(s: State): seq<Event> {
    var issued := NANOS_PER_MS - 1;
    var last := issued + CAPABILITY_TOKEN_TTL_NANOS - 1;
    var context := AuthorizedContext(CapabilityToken(7, s.generation), Decrypt, "k", None, 0);
    [Register(0, "k", None), Issue(issued, Decrypt, "k", None, 7, issued), Check(last, context, last)]
  }

  lemma LateRunExpires(s: State)
    requires s == Initial(s.generation, s.ttlMs, s.clockSkewMs) && s.ttlMs + s.clockSkewMs < 60_000
    ensures OneReadingRun(s, LateRun(s), 1, 2) && CheckAt(s, LateRun(s), 2) == ContextExpired
  {
    var es := LateRun(s);
    assert (NANOS_PER_MS - 1) / NANOS_PER_MS == 0;
    assert (NANOS_PER_MS - 1 + CAPABILITY_TOKEN_TTL_NANOS - 1) / NANOS_PER_MS == 60_000;
    assert es[..0] == [] && es[..1] == [es[0]] && es[..2] == [es[0], es[1]];
    assert es[..1][..0] == [] && es[..2][..1] == es[..1];
    var s1 := RegisterKey(s, "k", None);
    assert Run(s, es[..1]) == s1;
    assert Run(s, es[..2]) == Authorize(s1, Decrypt, "k", None, 7, es[1].at, es[1].at).0;
    assert 7 in Run(s, es[..2]).issuedTokens && Run(s, es[..2]).issuedTokens[7] == es[1].at;
  }

  /** 60000 is exactly the least ttl + skew for which, over all runs, the age test never decides. */
  lemma SixtySecondsIsTight(s: State)
    requires s == Initial(s.generation, s.ttlMs, s.clockSkewMs)
    ensures s.ttlMs + s.clockSkewMs >= 60_000 <==>
              forall es, i, k | OneReadingRun(s, es, i, k) :: CheckAt(s, es, k) != ContextExpired
  {
    if s.ttlMs + s.clockSkewMs >= 60_000 {
      forall es, i, k | OneReadingRun(s, es, i, k) ensures CheckAt(s, es, k) != ContextExpired {
        AgeTestIsRedundant(s, es, i, k);
      }
    } else {
      var es := LateRun(s);
      LateRunExpires(s);
      assert OneReadingRun(s, es, 1, 2);
    }
  }

  // ----- conservation -----

  function IssuedCount(s: State, es: seq<Event>): nat {
    if es == [] then 0
    else
      var k := |es| - 1;
      IssuedCount(s, es[..k]) + if es[k].Issue? && IssueAt(s, es, k).Authorized? then 1 else 0
  }

  function ConsumedCount(s: State, es: seq<Event>): nat {
    if es == [] then 0
    else
      var k := |es| - 1;
      ConsumedCount(s, es[..k]) + if es[k].Check? && CheckAt(s, es, k) != TokenInvalid then 1 else 0
  }

  lemma {:induction false} SubmapCard(m: map<nat, nat>, m': map<nat, nat>)
    requires m.Keys <= m'.Keys
    ensures |m| <= |m'|
  {
    if m.Keys != {} {
      var n :| n in m;
      assert (m - {n}).Keys == m.Keys - {n} && (m' - {n}).Keys == m'.Keys - {n};
      SubmapCard(m - {n}, m' - {n});
    }
  }

  /** What one step adds to the tokens issued and to the tokens consumed. */
  function Issues(s: State, e: Event): nat {
    if e.Issue? && Authorize(s, e.op, e.keyId, e.domain, e.nonce, e.at, e.stampAt).1.Authorized? then 1 else 0
  }

  function Consumes(s: State, e: Event): nat {
    if e.Check? && Validate(s, e.context, e.at, e.checkAt).1 != TokenInvalid then 1 else 0
  }

  lemma RetainCard(m: map<nat, nat>, n: nat, now: nat)
    ensures |Retain(m, now)| <= |m|
    ensures |Retain(m[n := now], now)| <= |m| + 1
    ensures |Retain(m, now) - {n}| + (if n in Retain(m, now) then 1 else 0) <= |m|
  {
    SubmapCard(Retain(m, now), m);
    assert m[n := now].Keys == m.Keys + {n};
    SubmapCard(Retain(m[n := now], now), m[n := now]);
    assert (Retain(m, now) - {n}).Keys == Retain(m, now).Keys - {n};
  }

  lemma IssueTable(s: State, op: Operation, keyId: string, domain: Option<string>, nonce: nat, at: nat, stampAt: nat)
    ensures var (s', r) := Authorize(s, op, keyId, domain, nonce, at, stampAt);
            s'.issuedTokens == if r.Authorized? then Retain(s.issuedTokens[nonce := at], at) else s.issuedTokens
  {
    hide ValidateKey, ValidateOther, Retain;
  }

  lemma CheckTable(s: State, context: AuthorizedContext, at: nat, checkAt: nat)
    ensures var (s', r) := Validate(s, context, at, checkAt);
            var n := context.capability.nonce;
            && (s'.issuedTokens == Retain(s.issuedTokens, at) - {n} || (s' == s && r == TokenInvalid))
            && (r != TokenInvalid ==> n in Retain(s.issuedTokens, at))
  {
    hide Retain;
  }

  lemma ConservationStep(s: State, e: Event)
    ensures |Step(s, e).issuedTokens| + Consumes(s, e) <= |s.issuedTokens| + Issues(s, e)
  {
    hide Authorize, Validate, Retain;
    match e {
      case Issue(at, op, keyId, domain, nonce, stampAt) =>
        IssueTable(s, op, keyId, domain, nonce, at, stampAt);
        RetainCard(s.issuedTokens, nonce, at);
      case Check(at, context, checkAt) =>
        CheckTable(s, context, at, checkAt);
        RetainCard(s.issuedTokens, context.capability.nonce, at);
      case _ =>
    }
  }

  /** On every run, colliding nonces included, live entries and consumed tokens never exceed the tokens issued. */
  lemma {:induction false} Conservation(s: State, es: seq<Event>)
    requires s.issuedTokens == map[]
    ensures |Run(s, es).issuedTokens| + ConsumedCount(s, es) <= IssuedCount(s, es)
  {
    if es != [] {
      var k := |es| - 1;
      Conservation(s, es[..k]);
      ConservationStep(Run(s, es[..k]), es[k]);
      hide Step, Authorize, Validate;
    }
  }

  function IssuedNonces(s: State, es: seq<Event>): set<nat> {
    if es == [] then {}
    else
      var k := |es| - 1;
      IssuedNonces(s, es[..k]) + if es[k].Issue? && IssueAt(s, es, k).Authorized? then {es[k].nonce} else {}
  }

  function ConsumedNonces(s: State, es: seq<Event>): set<nat> {
    if es == [] then {}
    else
      var k := |es| - 1;
      ConsumedNonces(s, es[..k])
      + if es[k].Check? && CheckAt(s, es, k) != TokenInvalid then {es[k].context.capability.nonce} else {}
  }

  lemma {:induction false} IssuedNoncesMeaning(s: State, es: seq<Event>, n: nat)
    ensures n in IssuedNonces(s, es) <==> exists i :: 0 <= i < |es| && Issued(s, es, i, n)
  {
    if es != [] {
      var k := |es| - 1;
      IssuedNoncesMeaning(s, es[..k], n);
      forall i | 0 <= i < k ensures Issued(s, es[..k], i, n) <==> Issued(s, es, i, n) {
        Prefix(s, es, k, i);
      }
      assert Issued(s, es, k, n) <==> es[k].Issue? && IssueAt(s, es, k).Authorized? && es[k].nonce == n;
    }
  }

  lemma {:induction false} ConsumedNoncesMeaning(s: State, es: seq<Event>, n: nat)
    ensures n in ConsumedNonces(s, es) <==> exists i :: 0 <= i < |es| && Consumed(s, es, i, n)
  {
    if es != [] {
      var k := |es| - 1;
      ConsumedNoncesMeaning(s, es[..k], n);
      forall i | 0 <= i < k ensures Consumed(s, es[..k], i, n) <==> Consumed(s, es, i, n) {
        Prefix(s, es, k, i);
      }
      assert Consumed(s, es, k, n) <==>
        && es[k].Check? && CheckAt(s, es, k) != TokenInvalid
        && es[k].context.capability.nonce == n;
    }
  }

  /** With nonces that do not repeat, each issue and each consumption adds a nonce. */
  lemma {:induction false} CountsAreCardinalities(s: State, es: seq<Event>)
    requires s.issuedTokens == map[] && FreshNonces(es)
    ensures IssuedCount(s, es) == |IssuedNonces(s, es)|
    ensures ConsumedCount(s, es) == |ConsumedNonces(s, es)|
  {
    if es != [] {
      var k := |es| - 1;
      CountsAreCardinalities(s, es[..k]);
      if es[k].Issue? && es[k].nonce in IssuedNonces(s, es[..k]) {
        IssuedNoncesMeaning(s, es[..k], es[k].nonce);
      }
      if es[k].Check? && CheckAt(s, es, k) != TokenInvalid
         && es[k].context.capability.nonce in ConsumedNonces(s, es[..k]) {
        var n := es[k].context.capability.nonce;
        ConsumedNoncesMeaning(s, es[..k], n);
        var j :| 0 <= j < k && Consumed(s, es[..k], j, n);
        Prefix(s, es, k, j);
        ConsumedOnce(s, es, j, k, n);
        assert Consumed(s, es, k, n);
      }
    }
  }

  /** The issued nonces that are neither live nor consumed. */
  function Expired(s: State, es: seq<Event>): set<nat> {
    IssuedNonces(s, es) - ConsumedNonces(s, es) - Run(s, es).issuedTokens.Keys
  }

  lemma PartsAddUp(a: set<nat>, b: set<nat>, whole: set<nat>)
    requires a <= whole && b <= whole && a !! b
    ensures |a| + |b| + |whole - b - a| == |whole|
  {
    assert whole == a + b + (whole - b - a);
    assert |a + b| == |a| + |b|;
    assert |(a + b) + (whole - b - a)| == |a + b| + |whole - b - a|;
  }

  /** Live and consumed nonces were issued, and none is both. */
  lemma OneFate(s: State, es: seq<Event>, n: nat)
    requires s.issuedTokens == map[] && FreshNonces(es)
    ensures n in Run(s, es).issuedTokens ==> n in IssuedNonces(s, es) && n !in ConsumedNonces(s, es)
    ensures n in ConsumedNonces(s, es) ==> n in IssuedNonces(s, es)
  {
    IssuedNoncesMeaning(s, es, n);
    ConsumedNoncesMeaning(s, es, n);
    if n in Run(s, es).issuedTokens {
      var i := LiveWasIssued(s, es, n);
      forall j | 0 <= j < |es| ensures !Consumed(s, es, j, n) {
        LiveIsUnconsumed(s, es, n, j);
      }
    }
    if n in ConsumedNonces(s, es) {
      var j :| 0 <= j < |es| && Consumed(s, es, j, n);
      ConsumedWasIssued(s, es, j, n);
    }
  }

  lemma ExpiredIsOld(s: State, es: seq<Event>, i: nat, n: nat)
    requires s.issuedTokens == map[] && FreshNonces(es) && Monotone(es)
    requires Issued(s, es, i, n) && n in Expired(s, es)
    ensures es[|es| - 1].at - es[i].at >= CAPABILITY_TOKEN_TTL_NANOS
  {
    ConsumedNoncesMeaning(s, es, n);
    if es[|es| - 1].at - es[i].at < CAPABILITY_TOKEN_TTL_NANOS {
      YoungStaysLive(s, es, i, n, es[|es| - 1].at);
    }
  }

  /**
   With nonces that do not repeat and a non-decreasing clock the books balance: every token issued is live, consumed or
   expired, in exactly one way, and the expired ones are at least 60 s old.
   */
  lemma BooksBalance(s: State, es: seq<Event>)
    requires s.issuedTokens == map[] && FreshNonces(es) && Monotone(es)
    ensures |Run(s, es).issuedTokens| + ConsumedCount(s, es) + |Expired(s, es)| == IssuedCount(s, es)
    ensures forall i, n | 0 <= i < |es| && Issued(s, es, i, n) && n in Expired(s, es) ::
              es[|es| - 1].at - es[i].at >= CAPABILITY_TOKEN_TTL_NANOS
  {
    hide IssuedNonces, ConsumedNonces, IssuedCount, ConsumedCount, Run;
    var issued, consumed, live := IssuedNonces(s, es), ConsumedNonces(s, es), Run(s, es).issuedTokens.Keys;
    CountsAreCardinalities(s, es);
    forall n ensures (n in live ==> n in issued && n !in consumed) && (n in consumed ==> n in issued) {
      OneFate(s, es, n);
    }
    PartsAddUp(live, consumed, issued);
    forall i, n | 0 <= i < |es| && Issued(s, es, i, n) && n in Expired(s, es)
      ensures es[|es| - 1].at - es[i].at >= CAPABILITY_TOKEN_TTL_NANOS
    {
      ExpiredIsOld(s, es, i, n);
    }
  }

  // ----- purging lazily changes nothing -----

  predicate SimpleAccepts(s: State, simple: map<nat, nat>, token: CapabilityToken, now: nat) {
    && token.nonce != 0
    && token.enforcerGeneration == s.generation
    && token.nonce in simple
    && SaturatingSub(now, simple[token.nonce]) < CAPABILITY_TOKEN_TTL_NANOS
  }

  /** The registry that never purges: it compares ages only when a token is presented. */
  function SimpleStep(s: State, simple: map<nat, nat>, e: Event): map<nat, nat> {
    match e
    case Issue(at, op, keyId, domain, nonce, stampAt) =>
      if Authorize(s, op, keyId, domain, nonce, at, stampAt).1.Authorized? then simple[nonce := at] else simple
    case Check(at, context, _) =>
      if SimpleAccepts(s, simple, context.capability, at) then simple - {context.capability.nonce} else simple
    case _ => simple
  }

  function SimpleRun(s: State, es: seq<Event>): map<nat, nat> {
    if es == [] then map[]
    else SimpleStep(Run(s, es[..|es| - 1]), SimpleRun(s, es[..|es| - 1]), es[|es| - 1])
  }

  predicate ReadsClock(e: Event) {
    e.Issue? || e.Check?
  }

  /**
   No issue or validation uses a clock reading more than `slack` older than an earlier one; 0 is a non-decreasing
   clock.
   */
  predicate OrderedWithin(es: seq<Event>, slack: nat) {
    forall i, j | 0 <= i <= j < |es| && ReadsClock(es[i]) && ReadsClock(es[j]) :: es[i].at <= es[j].at + slack
  }

  /** The latest clock reading used. */
  function Peak(es: seq<Event>): nat {
    if es == [] then 0
    else
      var e, before := es[|es| - 1], Peak(es[..|es| - 1]);
      if ReadsClock(e) && e.at > before then e.at else before
  }

  lemma {:induction false} PeakIsUsed(es: seq<Event>, k: nat)
    requires k <= |es|
    ensures Peak(es[..k]) == 0 || exists i | 0 <= i < k :: ReadsClock(es[i]) && es[i].at == Peak(es[..k])
  {
    if k > 0 {
      PeakIsUsed(es, k - 1);
      assert es[..k][..k - 1] == es[..k - 1];
    }
  }

  lemma {:induction false} PeakIsRecent(es: seq<Event>, k: nat, slack: nat)
    requires OrderedWithin(es, slack) && k < |es| && ReadsClock(es[k])
    ensures Peak(es[..k]) <= es[k].at + slack
  {
    PeakIsUsed(es, k);
  }

  /** The lazy table lacks only entries that were too old by the latest reading used. */
  predicate LazyAgrees(table: map<nat, nat>, simple: map<nat, nat>, peak: nat) {
    && (forall n | n in table :: n in simple && table[n] == simple[n])
    && (forall n | n in simple && n !in table :: SaturatingSub(peak, simple[n]) >= CAPABILITY_TOKEN_TTL_NANOS)
  }

  lemma PurgeAgrees(table: map<nat, nat>, simple: map<nat, nat>, at: nat, peak: nat, peak': nat)
    requires LazyAgrees(table, simple, peak) && peak <= peak' && at <= peak'
    ensures LazyAgrees(table, simple, peak') && LazyAgrees(Retain(table, at), simple, peak')
  {
  }

  lemma IssueAgrees(table: map<nat, nat>, simple: map<nat, nat>, n: nat, at: nat, peak: nat, peak': nat)
    requires LazyAgrees(table, simple, peak) && peak <= peak' && at <= peak'
    ensures LazyAgrees(Retain(table[n := at], at), simple[n := at], peak')
  {
    assert LazyAgrees(table[n := at], simple[n := at], peak);
    PurgeAgrees(table[n := at], simple[n := at], at, peak, peak');
  }

  lemma CheckAgrees(s: State, simple: map<nat, nat>, context: AuthorizedContext, at: nat, checkAt: nat, peak: nat,
                    peak': nat)
    requires LazyAgrees(s.issuedTokens, simple, peak) && peak <= peak' && at <= peak'
    ensures LazyAgrees(Validate(s, context, at, checkAt).0.issuedTokens,
                       SimpleStep(s, simple, Check(at, context, checkAt)), peak')
  {
    PurgeAgrees(s.issuedTokens, simple, at, peak, peak');
  }

  lemma LazyStep(s: State, simple: map<nat, nat>, e: Event, peak: nat, peak': nat)
    requires LazyAgrees(s.issuedTokens, simple, peak)
    requires peak <= peak' && (ReadsClock(e) ==> e.at <= peak')
    ensures LazyAgrees(Step(s, e).issuedTokens, SimpleStep(s, simple, e), peak')
  {
    PurgeAgrees(s.issuedTokens, simple, 0, peak, peak');
    match e
    case Issue(at, op, keyId, domain, nonce, stampAt) =>
      IssueTable(s, op, keyId, domain, nonce, at, stampAt);
      IssueAgrees(s.issuedTokens, simple, nonce, at, peak, peak');
      hide Authorize, LazyAgrees, Retain;
    case Check(at, context, checkAt) =>
      CheckAgrees(s, simple, context, at, checkAt, peak, peak');
      hide Validate, LazyAgrees;
    case _ =>
      hide LazyAgrees;
  }

  lemma {:induction false} LazyTracksSimple(s: State, es: seq<Event>)
    requires s.issuedTokens == map[]
    ensures LazyAgrees(Run(s, es).issuedTokens, SimpleRun(s, es), Peak(es))
  {
    if es != [] {
      var k := |es| - 1;
      LazyTracksSimple(s, es[..k]);
      LazyStep(Run(s, es[..k]), SimpleRun(s, es[..k]), es[k], Peak(es[..k]), Peak(es));
    }
  }

  /** What the registry that never purges says at position `k`. */
  predicate SimpleAcceptsAt(s: State, es: seq<Event>, k: nat)
    requires k < |es| && es[k].Check?
  {
    SimpleAccepts(Run(s, es[..k]), SimpleRun(s, es[..k]), es[k].context.capability, es[k].at)
  }

  /** The age of the presented token in the registry that never purges. */
  function PresentedAge(s: State, es: seq<Event>, k: nat): nat
    requires k < |es| && es[k].Check?
  {
    var n, simple := es[k].context.capability.nonce, SimpleRun(s, es[..k]);
    if n in simple then SaturatingSub(es[k].at, simple[n]) else 0
  }

  /**
   Purging is nearly invisible on every run whose clock readings are at most `slack` late: the purging registry
   accepts only what the simple one accepts, and all of it that is younger than 60 s less `slack`.
   */
  lemma LazyPurgingIsBounded(s: State, es: seq<Event>, k: nat, slack: nat)
    requires s.issuedTokens == map[] && OrderedWithin(es, slack)
    requires k < |es| && es[k].Check?
    ensures CheckAt(s, es, k) != TokenInvalid ==> SimpleAcceptsAt(s, es, k)
    ensures SimpleAcceptsAt(s, es, k) && PresentedAge(s, es, k) + slack < CAPABILITY_TOKEN_TTL_NANOS
            ==> CheckAt(s, es, k) != TokenInvalid
  {
    LazyTracksSimple(s, es[..k]);
    PeakIsRecent(es, k, slack);
  }

  /** On a run with a non-decreasing clock the purging registry accepts exactly the tokens the simple one accepts. */
  lemma LazyPurgingIsInvisible(s: State, es: seq<Event>, k: nat)
    requires s.issuedTokens == map[] && OrderedWithin(es, 0)
    requires k < |es| && es[k].Check?
    ensures CheckAt(s, es, k) != TokenInvalid <==> SimpleAcceptsAt(s, es, k)
  {
    LazyPurgingIsBounded(s, es, k, 0);
  }

  /** Both registries say the same at position `k` of this run, if its clock readings are at most `slack` late. */
  predicate PurgingUnnoticed(s: State, es: seq<Event>, k: nat, slack: nat) {
    OrderedWithin(es, slack) && k < |es| && es[k].Check? ==>
      (CheckAt(s, es, k) != TokenInvalid <==> SimpleAcceptsAt(s, es, k))
  }

  /** A second issue purges the first token just before a validation that had read the clock a nanosecond earlier. */
  function LateReading(s: State): seq<Event> {
    var context := AuthorizedContext(CapabilityToken(7, s.generation), Decrypt, "k", None, 0);
    var ttl := CAPABILITY_TOKEN_TTL_NANOS;
    [Register(0, "k", None), Issue(0, Decrypt, "k", None, 7, 0), Issue(ttl, Decrypt, "k", None, 8, ttl),
     Check(ttl - 1, context, ttl - 1)]
  }

  lemma LateReadingIsPurged(s: State)
    requires s == Initial(s.generation, s.ttlMs, s.clockSkewMs)
    ensures OrderedWithin(LateReading(s), 1)
    ensures CheckAt(s, LateReading(s), 3) == TokenInvalid && SimpleAcceptsAt(s, LateReading(s), 3)
  {
    var es := LateReading(s);
    assert es[..0] == [] && es[..1] == [es[0]] && es[..2] == [es[0], es[1]] && es[..3] == [es[0], es[1], es[2]];
    assert es[..1][..0] == [] && es[..2][..1] == es[..1] && es[..3][..2] == es[..2];
    var s1 := RegisterKey(s, "k", None);
    assert Run(s, es[..1]) == s1;
    assert SimpleRun(s, es[..0]) == map[];
    assert SimpleRun(s, es[..1]) == SimpleStep(Run(s, es[..0]), map[], es[0]) == map[];
    var s2 := Authorize(s1, Decrypt, "k", None, 7, 0, 0).0;
    assert Run(s, es[..2]) == s2;
    assert SimpleRun(s, es[..2]) == SimpleStep(s1, map[], es[1]) == map[7 := 0];
    assert s2.validKeys == s1.validKeys && s2.revokedKeys == s1.revokedKeys;
    assert Run(s, es[..3]) == Authorize(s2, Decrypt, "k", None, 8, es[2].at, es[2].at).0;
    assert SimpleRun(s, es[..3]) == SimpleStep(s2, map[7 := 0], es[2]) == map[7 := 0][8 := es[2].at];
    assert 7 !in Run(s, es[..3]).issuedTokens;
    SettingsStay(s, es[..3]);
  }

  /** The exact condition: purging goes unnoticed in all those runs if and only if `slack` is 0. */
  lemma PurgingInvisibleExactly(s: State, slack: nat)
    requires s == Initial(s.generation, s.ttlMs, s.clockSkewMs)
    ensures slack == 0 <==> forall es: seq<Event>, k: nat :: PurgingUnnoticed(s, es, k, slack)
  {
    if slack == 0 {
      forall es: seq<Event>, k: nat ensures PurgingUnnoticed(s, es, k, slack) {
        if OrderedWithin(es, slack) && k < |es| && es[k].Check? {
          LazyPurgingIsInvisible(s, es, k);
        }
      }
    } else {
      LateReadingIsPurged(s);
      assert OrderedWithin(LateReading(s), slack);
      assert !PurgingUnnoticed(s, LateReading(s), 3, slack);
    }
  }

  // ----- instances -----

  /** The process-wide counter hands every enforcer its own generation, starting at 1. */
  function Generation(created: nat): nat {
    1 + created
  }

  /** A token issued by one enforcer is refused by every other, whose registry is left as it was. */
  lemma OnlyIssuerAccepts(created: nat, created': nat, s: State, s': State, es: seq<Event>, es': seq<Event>, i: nat,
                          at: nat, checkAt: nat)
    requires created != created'
    requires s == Initial(Generation(created), s.ttlMs, s.clockSkewMs)
    requires s' == Initial(Generation(created'), s'.ttlMs, s'.clockSkewMs)
    requires i < |es| && es[i].Issue? && IssueAt(s, es, i).Authorized?
    ensures Validate(Run(s', es'), IssueAt(s, es, i).context, at, checkAt) == (Run(s', es'), TokenInvalid)
  {
    SettingsStay(s, es[..i]);
    SettingsStay(s', es');
  }
}
