/** What a context issued by the registry records, and what it later permits (citadel-core/src/state_enforcer.rs). */
module EnforcerContexts {
  import opened Wrappers
  import opened Enforcer
  import opened EnforcerRuns

  // ----- the checks at the execution boundary -----

  predicate RequireEncryptFor(context: AuthorizedContext, keyId: string) {
    context.operation.Encrypt? && context.keyId == keyId
  }

  predicate RequireDecryptFor(context: AuthorizedContext, keyId: string) {
    context.operation.Decrypt? && context.keyId == keyId
  }

  predicate RequireSignFor(context: AuthorizedContext, keyId: string) {
    context.operation.Sign? && context.keyId == keyId
  }

  /** `messageHash` is the SHA-256 digest of the message about to be signed. */
  predicate RequireSignForPayload(context: AuthorizedContext, keyId: string, messageHash: seq<int>) {
    RequireSignFor(context, keyId) && context.operation.payloadHash == messageHash
  }

  // ----- what is recorded -----

  /**
   Whatever an authorization of any run returns records the request it answers: the operation with its recipient,
   second key or payload hash, the key, the domain, the drawn nonce with this enforcer's generation, and the
   millisecond of the stamp.
   */
  lemma ContextRecords(s: State, es: seq<Event>, i: nat)
    requires i < |es| && es[i].Issue? && IssueAt(s, es, i).Authorized?
    ensures var context := IssueAt(s, es, i).context;
            && context.operation == es[i].op && context.keyId == es[i].keyId && context.domainId == es[i].domain
            && context.capability.nonce == es[i].nonce && context.capability.enforcerGeneration == s.generation
            && context.timestampMs == es[i].stampAt / 1_000_000
  {
    SettingsStay(s, es[..i]);
    hide ValidateKey, ValidateOther;
  }

  // ----- what is permitted -----

  /** This run returned the context from some authorization. */
  predicate IssuedByRun(s: State, es: seq<Event>, context: AuthorizedContext) {
    exists i | 0 <= i < |es| && es[i].Issue? :: IssueAt(s, es, i) == Authorized(context)
  }

  /** Position `i` was asked for this operation on this key in this domain, and issued this nonce. */
  predicate AskedFor(s: State, es: seq<Event>, i: nat, n: nat, op: Operation, keyId: string, domain: Option<string>) {
    Issued(s, es, i, n) && es[i].op == op && es[i].keyId == keyId && es[i].domain == domain
  }

  /** A context whose token was consumed comes from exactly one earlier authorization, which its nonce identifies. */
  lemma ConsumedContextSource(s: State, es: seq<Event>, k: nat) returns (i: nat)
    requires s.issuedTokens == map[] && FreshNonces(es)
    requires k < |es| && es[k].Check? && CheckAt(s, es, k) != TokenInvalid && IssuedByRun(s, es, es[k].context)
    ensures i < k && es[i].Issue? && IssueAt(s, es, i) == Authorized(es[k].context)
    ensures forall j: nat :: Issued(s, es, j, es[k].context.capability.nonce) <==> j == i
  {
    var n := es[k].context.capability.nonce;
    assert Consumed(s, es, k, n);
    ConsumedWasIssued(s, es, k, n);
    var j :| 0 <= j < k && Issued(s, es, j, n);
    i :| 0 <= i < |es| && es[i].Issue? && IssueAt(s, es, i) == Authorized(es[k].context);
    ContextRecords(s, es, i);
    assert i == j;
  }

  /**
   From request to use. A validated context that this run issued stands for an operation on a key in a domain exactly
   when an earlier authorization of the run, the one that drew its nonce, was asked for that operation, its payload
   hash or second key included, on that key in that domain.
   */
  lemma ValidContextStandsFor(s: State, es: seq<Event>, k: nat, op: Operation, keyId: string, domain: Option<string>)
    requires s.issuedTokens == map[] && FreshNonces(es)
    requires k < |es| && es[k].Check? && CheckAt(s, es, k) == Valid && IssuedByRun(s, es, es[k].context)
    ensures var context := es[k].context;
            (context.operation == op && context.keyId == keyId && context.domainId == domain) <==>
              exists i | 0 <= i < k :: AskedFor(s, es, i, context.capability.nonce, op, keyId, domain)
  {
    var i := ConsumedContextSource(s, es, k);
    ContextRecords(s, es, i);
    var n := es[k].context.capability.nonce;
    assert AskedFor(s, es, i, n, op, keyId, domain) <==>
      && es[i].op == op && es[i].keyId == keyId && es[i].domain == domain;
  }

  /** The checks before encrypting, decrypting and signing accept it exactly when it was asked for on that key. */
  lemma ValidContextPermits(s: State, es: seq<Event>, k: nat, keyId: string, messageHash: seq<int>)
    requires s.issuedTokens == map[] && FreshNonces(es)
    requires k < |es| && es[k].Check? && CheckAt(s, es, k) == Valid && IssuedByRun(s, es, es[k].context)
    ensures var context := es[k].context;
            var n := context.capability.nonce;
            && (RequireEncryptFor(context, keyId) <==>
                  exists i, recipient, domain | 0 <= i < k :: AskedFor(s, es, i, n, Encrypt(recipient), keyId, domain))
            && (RequireDecryptFor(context, keyId) <==>
                  exists i, domain | 0 <= i < k :: AskedFor(s, es, i, n, Decrypt, keyId, domain))
            && (RequireSignForPayload(context, keyId, messageHash) <==>
                  exists i, domain | 0 <= i < k :: AskedFor(s, es, i, n, Sign(messageHash), keyId, domain))
  {
    var context := es[k].context;
    var n := context.capability.nonce;
    var i := ConsumedContextSource(s, es, k);
    ContextRecords(s, es, i);
    assert AskedFor(s, es, i, n, context.operation, context.keyId, context.domainId);
    if RequireEncryptFor(context, keyId) {
      assert AskedFor(s, es, i, n, Encrypt(context.operation.recipient), keyId, context.domainId);
    }
  }
}
