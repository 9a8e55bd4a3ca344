# Citadel: verified models of its five protocol state machines

The project models, in Dafny, the parts of Citadel where correctness depends on several functions keeping a state in
step, and proves what they keep over whole runs.

- **Streaming encryption** (`StreamV3.dfy`, `StreamV3Runs.dfy`, `StreamV3OneShot.dfy`; the older 32-bit protocol in
  `StreamV2.dfy`, `StreamV2Runs.dfy`; shared parts in `Chunks.dfy`, keys and header bytes in `StreamDerivations.dfy`).
  Encryptor and decryptor are classes with the source's fields. A world pairs one of each with an adversary who may
  submit any bytes at any time. AEAD, HKDF, HMAC, hash and KEM are uninterpreted functions (`Crypto.dfy`); what a
  theorem needs of them is one of its hypotheses. Unforgeability is asked only of the frames that are actually
  submitted: the AEAD opens such a frame only if the encryptor sealed it before.
- **Formats** (`Wire.dfy`, `Aad.dfy`, `Bytes.dfy`). Envelope and stream headers, canonical AAD and context.
- **Capability registry** (`Enforcer.dfy`, `EnforcerRuns.dfy`, `EnforcerContexts.dfy`). Keys, one-shot tokens and their
  two lifetimes. Every operation takes its clock readings and its random nonce as arguments; issue and validation are
  atomic, as under the source's mutex.
- **Rate limiter** (`TokenBucket.dfy`, `RateLimiter.dfy`, `LimiterExactly.dfy`, `LimiterDecisions.dfy`). Three tiers of
  token buckets and the cleanup that forgets idle ones. Each lock section is a step of its own, so checks and cleanups
  interleave freely, and a check may use a clock reading older than one already used, as in the source. Tokens and
  seconds are reals.
- **API keys** (`ApiKeys.dfy`, `ApiKeyRuns.dfy`, `ApiKeyDecisions.dfy`). Store, domain gate and control-plane rules.
  Authentication and handlers are separate steps, so a handler may act on a context whose key was revoked in between.
- **Audit chain** (`AuditChain.dfy`). Stamping under the lock, forwarding after it is dropped, the verifier loop.

Code that updates objects or loops is written as classes and methods, each proved equal to a function on values; the
theorems about whole runs are about those functions. `dafny verify dfyconfig.toml` checks everything.

## Where code and documentation part

The model follows the code.

- `citadel-envelope/src/stream.rs:197` speaks of more than 2^32-1 chunks. Indices start at 1 and the counter is
  incremented before a frame is released, so the limit is 2^32-2 chunks (`StreamV2.CounterDiscipline`,
  `StreamV2.LimitIsTight`).
- `citadel-envelope/src/stream_v3.rs:236-241` seals before it checks the counter. At position 2^64-1 a call seals, fails and
  stays there; a second call repeats the nonce, although neither ciphertext is released
  (`StreamV3Runs.NonceDiscipline`, `StreamV3Runs.ExhaustedCounterSealsAgain`).
- Revoking a key does not end contexts already issued for it, because validation never looks at `revoked_keys`. What holds
  is a 60 s bound (`EnforcerRuns.RevocationIsNotImmediate`, `EnforcerRuns.RevocationIsBounded`).
- The comments of `citadel-api/src/main.rs:1366-1372` call a caller without a domain list a global admin, and lines 774-810
  let such a caller through, but neither looks at its scopes. It is right exactly because of an invariant of the key store
  (`ApiKeys.GateTightExactly`, `ApiKeyRuns.RunIsSound`).
- Forgetting idle buckets is harmless only when the burst refills within 300 s, less the age of the oldest clock reading a
  check still uses; the limiter's constructor asks neither (`LimiterExactly.EvictionInvisibleExactly`).
- `check` reads the clock before it takes a lock and then stores that reading, so the time a bucket refills for can be counted
  twice. The advertised rate holds in all runs if and only if no reading is used late (`LimiterExactly.PlainBoundExactly`);
  otherwise it holds up to the time counted twice (`RateLimiter.WindowBounds`), and that bound is reached
  (`LimiterExactly.BackwardReadingsPassMore`).
- `generate_capability_token` and `validate_capability` also read the clock before they take the mutex. Purging can then
  drop a token that a late reading would still accept; it goes unnoticed in all runs if and only if no reading is used late
  (`EnforcerRuns.PurgingInvisibleExactly`).
- An anchor interval of 0 is accepted by `IntegrityChainSink::with_witness`; the second event then panics under the lock and
  every later one is lost. A positive interval never panics (`AuditChain.ChainUnderInterleavings`,
  `AuditChain.IntervalZeroPanics`).
- The last-admin guard keeps some active admin, not some global admin: a scoped admin counts as another admin
  (`citadel-api/src/main.rs:2813-2825`), so a global admin can remove the only global key, and once no such request is in flight none comes back
  (`ApiKeyRuns.GlobalAdminCanBeLost`, `ApiKeys.GlobalLostExactly`, `ApiKeyRuns.GlobalSurvivesExactly`,
  `ApiKeyRuns.LockoutIsPermanent`).
- A loaded key file may repeat an id. A recorded use goes to the first key with the id, so a scoped admin is confined if and
  only if the first key with its id is inside its domains (`ApiKeyRuns.SharedIdIsTouched`, `ApiKeyRuns.ConfinedExactly`).

## Model

| member | source | states |
|---|---|---|
| Bytes.FromToBE | citadel-envelope/src/stream_v3.rs:123-131 | big-endian encoding in n bytes loses nothing below 256^n; frames, nonces and AADs rest on it |
| Bytes.ToFromBE | citadel-envelope/src/stream_v3.rs:400-420 | a big-endian field has one spelling: re-encoding the parsed number gives the same bytes |
| Bytes.MostSignificantFirst | citadel-envelope/src/stream_v3.rs:123-131 | the first byte of a big-endian field is the most significant one |
| Aad.PushTlv | citadel-envelope/src/aad.rs:146-155 | appends tag, 16-bit length and value in place; refuses exactly values over 65535 bytes, leaving the buffer as it was |
| Aad.TlvPrefix | citadel-envelope/src/aad.rs:146-155 | from two buffers that are equal and start with a TLV of the same tag, the same value and the same rest are read |
| Aad.BuildAad | citadel-envelope/src/aad.rs:85-123 | errs exactly when sender, recipient or route exceeds 65535 bytes, otherwise gives the canonical bytes |
| Aad.AadBytesInjective | citadel-envelope/src/aad.rs:85-123 | equal AAD bytes come from equal sender, recipient, route, time, sequence and message id |
| Aad.AadWrittenOut | citadel-envelope/src/aad.rs:85-123 | the canonical AAD byte by byte: label, then six fields in order, each as tag, two-byte length and value |
| Aad.BuildContext | citadel-envelope/src/aad.rs:62-75 | both fields cut to 65535 bytes and length-prefixed; never fails |
| Aad.ContextWrittenOut | citadel-envelope/src/aad.rs:62-75 | the context byte by byte: label, then each field cut to 65535 bytes after its two-byte length |
| Aad.ContextCollision | citadel-envelope/src/aad.rs:62-75 | two contexts are equal if and only if both fields agree on their first 65535 bytes |
| Wire.LookupSuite | citadel-envelope/src/wire.rs:150-159 | the first row for the suite; none exactly when no row has it |
| Wire.MinKemCiphertextBytes | citadel-envelope/src/wire.rs:161-171 | the table loop returns a lower bound of all rows that some row attains (or the largest usize for an empty table) |
| Wire.ParamsOfSuite | citadel-envelope/src/wire.rs:129-159 | this build knows exactly the suites 0xA3 and 0xA4, with lengths 1120, 1216, 2432 and 1665, 1665, 112 |
| Wire.MinSupportedKemCiphertextBytes | citadel-envelope/src/wire.rs:161-178 | the length guard this build derives from its table is 1120 |
| Wire.EncodeWire | citadel-envelope/src/wire.rs:299-325 | prints an envelope exactly for a 1120-byte KEM ciphertext and an AEAD ciphertext of at least 16 bytes |
| Wire.WireWrittenOut | citadel-envelope/src/wire.rs:299-325 | an envelope byte by byte: 01 A3 B1 00 04 60, KEM ciphertext, nonce, AEAD ciphertext |
| Wire.RawAcceptsExactly | citadel-envelope/src/wire.rs:221-272 | the raw parser accepts any suite: version, flags, KEM length and total length alone decide, and it returns the slices at their offsets |
| Wire.DecodeEncodeWire | citadel-envelope/src/wire.rs:198-325 | parsing a printed envelope gives back every part |
| Wire.EncodeDecodeWire | citadel-envelope/src/wire.rs:221-286 | printing the parts of any accepted envelope gives back the same bytes |
| Wire.EncodeStreamHeader | citadel-envelope/src/wire.rs:361-376 | prints a 1126-byte header exactly for a 1120-byte KEM ciphertext |
| Wire.StreamHeaderWrittenOut | citadel-envelope/src/wire.rs:361-376 | a stream header byte by byte: 02 A3 B1 01 04 60, KEM ciphertext |
| Wire.DecodeEncodeStreamHeader | citadel-envelope/src/wire.rs:361-417 | a printed header parses back, whatever bytes follow it |
| Wire.EncodeDecodeStreamHeader | citadel-envelope/src/wire.rs:382-417 | an accepted buffer starts with the 1126 printed bytes of what was parsed; the tail is ignored |
| Wire.FormatsDisjoint | citadel-envelope/src/wire.rs:221-417 | no byte string is accepted both as an envelope and as a stream header |
| StreamV3.ChunkAadInjective | citadel-envelope/src/stream_v3.rs:134-143 | the chunk AAD determines stream id, position, final flag and user AAD |
| StreamV3.StreamV3Encryptor.New | citadel-envelope/src/stream_v3.rs:164-211 | the encryptor starts at position 0 with the keys and the tagged 1162-byte header derived from the KEM output; any failing primitive fails it |
| StreamV3.StreamV3Encryptor.EncryptChunk | citadel-envelope/src/stream_v3.rs:224-250 | refines the step function: seal, then advance the counter or fail with nothing changed |
| StreamV3.StreamV3Encryptor.FinalTag | citadel-envelope/src/stream_v3.rs:258-266 | the MAC of stream id and count, only after the final chunk |
| StreamV3.StreamV3Decryptor.FromHeader | citadel-envelope/src/stream_v3.rs:308-397 | refines the header parser: checks in order, keys derived, tag recomputed and compared, position 0 |
| StreamV3.StreamV3Decryptor.DecryptChunk | citadel-envelope/src/stream_v3.rs:400-435 | refines the step function: every refusal leaves the decryptor unchanged |
| StreamV3.StreamV3Decryptor.Finish | citadel-envelope/src/stream_v3.rs:443-460 | succeeds only after the final chunk and on the MAC of stream id and count |
| StreamV3.HeaderRoundTrip | citadel-envelope/src/stream_v3.rs:182-397 | the recipient of an honest header, with any bytes after it, starts on the sender's keys and stream id at position 0 |
| StreamDerivations.HeaderWrittenOut | citadel-envelope/src/stream_v3.rs:164-211 | the header byte by byte, and its tag: the AEAD of nothing under the header key and twelve zero bytes with all before it as AAD |
| StreamDerivations.HeaderAcceptedExactly | citadel-envelope/src/stream_v3.rs:308-397 | a header is accepted if and only if its first 1162 bytes are what an honest sender builds from the stream id and KEM ciphertext in them and the secret they decapsulate to |
| StreamDerivations.V3StreamKeyBinds | citadel-envelope/src/stream_v3.rs:87-102 | absent a collision, equal stream keys of one secret mean equal KEM ciphertext, stream id and context |
| StreamDerivations.V3RolesAreApart | citadel-envelope/src/stream_v3.rs:105-131 | header key, final key and nonces use HKDF infos that never coincide |
| StreamV3Runs.HeaderStartsRun | citadel-envelope/src/stream_v3.rs:182-397 | sender and recipient of an honest header are where the runs below start |
| StreamV3Runs.AcceptedIsNext | citadel-envelope/src/stream_v3.rs:400-435 | an accepted frame is the encryptor's next one byte for byte, with its plaintext, flag and AAD, and not the withheld sealing at 2^64-1 |
| StreamV3Runs.StreamIntegrity | citadel-envelope/src/stream_v3.rs:224-435 | for any interleaving of encryption and adversarial decryption calls the accepted chunks are an in-order prefix of the emitted ones, and done means all of them |
| StreamV3Runs.RejectedCallsErasable | citadel-envelope/src/stream_v3.rs:400-435 | dropping every rejected call from a run changes neither the final state nor any accepted result |
| StreamV3Runs.CounterDiscipline | citadel-envelope/src/stream_v3.rs:224-266 | emitted frames carry 0, 1, 2, ... in order, at most 2^64-1 of them; the final tag exists exactly when the last was final and covers that count |
| StreamV3Runs.NonceDiscipline | citadel-envelope/src/stream_v3.rs:230-241 | over every run no nonce is used for two sealings if and only if at most 2^64 sealings were made and HKDF gives the label followed by the eight-byte position different outputs for the positions used (IV uniqueness, section 8 of NIST SP 800-38D) |
| StreamV3Runs.SealingsWrittenOut | citadel-envelope/src/stream_v3.rs:123-143 | in every run sealing i is under the HKDF nonce of label and eight-byte position i, with the AAD of label, stream id, position, flag, bar and user AAD |
| StreamV3Runs.NoncesNeverRepeat | citadel-envelope/src/stream_v3.rs:123-131 | if HKDF does not collide on the infos used, no run of at most 2^64 sealings repeats a nonce |
| StreamV3Runs.ExhaustedCounterSealsAgain | citadel-envelope/src/stream_v3.rs:230-241 | two calls at position 2^64-1 both seal under one nonce, release nothing and change nothing |
| StreamV3Runs.FinalTagBindsCount | citadel-envelope/src/stream_v3.rs:443-451 | a recipient with the MAC key accepts the sender's final tag exactly when it is done, has the sender's count and is on the sender's stream, unless the MAC collides on the two messages stating stream and count |
| StreamV3OneShot.EncryptStreamV3 | citadel-envelope/src/stream_v3.rs:500-522 | the loop encrypts all chunks in order, marks the last final, and fails for an empty list or any failing call |
| StreamV3OneShot.DecryptStreamV3 | citadel-envelope/src/stream_v3.rs:530-557 | the loop decrypts all frames in order, demands the final flag on the last and only there, then the final tag |
| StreamV3OneShot.OneShotExactness | citadel-envelope/src/stream_v3.rs:530-557 | for an honest header decryption succeeds if and only if the frame list is exactly the emitted list of a finished stream under this AAD and the tag is the sender's; the result is then the whole plaintext |
| StreamV3OneShot.RoundTrip | citadel-envelope/src/stream_v3.rs:500-557 | whatever one-shot encryption returns, one-shot decryption turns back into the concatenated chunks |
| StreamV3OneShot.PrefixSucceedsExactly | citadel-envelope/src/stream_v3.rs:224-250 | k chunks get through if and only if k is at most 2^64-1 and the primitives serve each of the k calls |
| StreamV3OneShot.EncryptSucceedsExactly | citadel-envelope/src/stream_v3.rs:500-522 | one-shot encryption fails exactly for an empty list, more than 2^64-1 chunks, or a call a primitive fails |
| StreamV2.ChunkAadInjective | citadel-envelope/src/stream.rs:112-120 | the chunk AAD determines index, final flag and user AAD |
| StreamDerivations.V2StreamKeyBinds | citadel-envelope/src/kdf.rs:56-71 | absent a collision, equal V2 stream keys of one secret mean equal KEM ciphertext and context |
| StreamDerivations.V2ChunkKeyBinds | citadel-envelope/src/stream.rs:91-105 | absent a collision, equal chunk keys mean equal index and final flag |
| StreamV2.StreamEncryptor.New | citadel-envelope/src/stream.rs:145-165 | succeeds exactly when KEM, key derivation and header printing do; starts at index 1 |
| StreamV2.StreamEncryptor.EncryptChunk | citadel-envelope/src/stream.rs:181-210 | refines the step function, with the random nonce as input |
| StreamV2.StreamDecryptor.FromHeader | citadel-envelope/src/stream.rs:243-268 | refines the header parser: decode, decapsulate, derive, index 1 |
| StreamV2.HeaderRoundTrip | citadel-envelope/src/stream.rs:145-268 | the recipient of an honest header, with any bytes after it, starts on the sender's key at index 1 |
| StreamV2.StreamDecryptor.DecryptChunk | citadel-envelope/src/stream.rs:281-323 | refines the step function: every refusal leaves the decryptor unchanged |
| StreamV2.CounterDiscipline | citadel-envelope/src/stream.rs:181-210 | released frames carry 1, 2, 3, ... in order and never exceed 2^32-2; finalized exactly when the last was final |
| StreamV2Runs.SealingsWrittenOut | citadel-envelope/src/stream.rs:91-120 | in every run sealing i is under the HKDF key of label, four-byte index and flag, with the AAD of label, index, flag, bar and user AAD |
| StreamV2.LimitIsTight | citadel-envelope/src/stream.rs:197-201 | a run of calls that the primitives serve, none final but perhaps the last, releases a frame for each of the first 2^32-2 and none after |
| StreamV2.ChunkRoundTrip | citadel-envelope/src/stream.rs:181-323 | a released frame decrypts at its position to its plaintext and flag, and both sides advance together |
| StreamV2Runs.HeaderStartsRun | citadel-envelope/src/stream.rs:145-268 | sender and recipient of an honest header are where the runs below start |
| StreamV2Runs.AcceptedIsNext | citadel-envelope/src/stream.rs:281-323 | an accepted frame is the encryptor's next one byte for byte, through per-chunk keys and random nonces |
| StreamV2Runs.StreamIntegrity | citadel-envelope/src/stream.rs:181-323 | for any interleaving the accepted chunks are an in-order prefix of the emitted ones, and done means all of them |
| Enforcer.StateEnforcer.Register | citadel-core/src/state_enforcer.rs:460-465 | adds the key, and lists it in the domain if one is named; nothing else changes |
| Enforcer.StateEnforcer.Revoke | citadel-core/src/state_enforcer.rs:468-475 | the loop removes the key from the live keys and from every domain and marks it revoked |
| Enforcer.StateEnforcer.GenerateCapabilityToken | citadel-core/src/state_enforcer.rs:848-869 | registers the nonce at the given time and drops entries of 60 s and more |
| Enforcer.StateEnforcer.ValidateCapability | citadel-core/src/state_enforcer.rs:872-896 | refuses nonce 0 and foreign generations untouched; otherwise purges, then accepts and removes a live nonce |
| Enforcer.StateEnforcer.AuthorizeEncrypt | citadel-core/src/state_enforcer.rs:484-518 | checks sender, domain and recipient, then issues a token |
| Enforcer.StateEnforcer.AuthorizeKeyRotation | citadel-core/src/state_enforcer.rs:551-577 | checks the old key and that the new one is not live, then issues a token |
| Enforcer.StateEnforcer.AuthorizeSimple | citadel-core/src/state_enforcer.rs:526-672 | the body the next four authorizations share |
| Enforcer.StateEnforcer.AuthorizeDecrypt | citadel-core/src/state_enforcer.rs:526-543 | decides on the key and records a decryption |
| Enforcer.StateEnforcer.AuthorizeApiRequest | citadel-core/src/state_enforcer.rs:586-605 | decides on the key and records an access |
| Enforcer.StateEnforcer.AuthorizeSign | citadel-core/src/state_enforcer.rs:624-648 | decides on the key and records a signature with its payload hash |
| Enforcer.StateEnforcer.AuthorizeVerify | citadel-core/src/state_enforcer.rs:655-672 | decides on the key and records a verification |
| Enforcer.StateEnforcer.ValidateContext | citadel-core/src/state_enforcer.rs:194-216 | consumes the token first, then compares the millisecond age with ttl + skew |
| EnforcerRuns.KeysFollowHistory | citadel-core/src/state_enforcer.rs:460-475 | a key is revoked, live, or listed in a domain exactly when the history revoked it, registered it since its last revocation, or registered it there since its last revocation |
| EnforcerRuns.AuthorizedExactly | citadel-core/src/state_enforcer.rs:675-711 | authorization succeeds if and only if the history registered the key (in that domain, if one is given), never revoked it, and the second key, if any, qualifies; otherwise the denial is determined by which of these failed, the second key's failure included |
| EnforcerContexts.ContextRecords | citadel-core/src/state_enforcer.rs:484-672 | in every run an authorized context records the operation asked for with its second key or payload hash, the key, the domain, the drawn nonce with this enforcer's generation, and the millisecond of the stamp |
| EnforcerContexts.ValidContextStandsFor | citadel-core/src/state_enforcer.rs:194-216 | a validated context of the run stands for an operation on a key in a domain if and only if the one authorization that drew its nonce was asked for exactly that |
| EnforcerContexts.ValidContextPermits | citadel-core/src/state_enforcer.rs:220-316 | the checks before encrypting, decrypting and signing a message accept it if and only if that authorization asked for it, the message's hash included |
| EnforcerRuns.AcceptedExactly | citadel-core/src/state_enforcer.rs:872-896 | with fresh nonces and a non-decreasing clock a context is accepted if and only if its token is under 60 s old, unconsumed, not nonce 0, and its millisecond age is within ttl + skew |
| EnforcerRuns.ConsumedWasIssued | citadel-core/src/state_enforcer.rs:872-896 | only a nonce issued earlier by this enforcer, under 60 s before, is ever consumed |
| EnforcerRuns.ConsumedOnce | citadel-core/src/state_enforcer.rs:872-896 | no token is accepted twice |
| EnforcerRuns.RevocationIsBounded | citadel-core/src/state_enforcer.rs:468-475 | from 60 s after a revocation no context for the key that was ever issued is accepted, in whatever order clock readings are used; a token stamped up to slack after the revocation moves the bound by slack |
| EnforcerRuns.RevocationIsNotImmediate | citadel-core/src/state_enforcer.rs:194-216 | a concrete run in which a context is accepted after its key was revoked |
| EnforcerRuns.AgeTestIsRedundant | citadel-core/src/state_enforcer.rs:194-216 | over runs no validation of an issued context is refused for its age alone when its two clock readings are no further apart than ttl + skew - 60000 ms; with one reading, when ttl + skew is at least 60000 ms |
| EnforcerRuns.SixtySecondsIsTight | citadel-core/src/state_enforcer.rs:837-895 | 60000 ms is exactly the least ttl + skew for which, over all runs with one reading per validation, the age test never decides |
| EnforcerRuns.Conservation | citadel-core/src/state_enforcer.rs:848-896 | on every run, colliding nonces included, live entries plus consumed tokens never exceed tokens issued |
| EnforcerRuns.BooksBalance | citadel-core/src/state_enforcer.rs:848-896 | with fresh nonces every issued token is live, consumed or expired in exactly one way, and expired ones are at least 60 s old |
| EnforcerRuns.LazyPurgingIsInvisible | citadel-core/src/state_enforcer.rs:861-895 | on every run with a non-decreasing clock the purging registry accepts exactly what a registry that never purges and compares ages at validation accepts |
| EnforcerRuns.TableIsYoung | citadel-core/src/state_enforcer.rs:861-895 | after an issue or a validation that reads the clock no entry is 60 s old by that reading |
| EnforcerRuns.LazyPurgingIsBounded | citadel-core/src/state_enforcer.rs:861-895 | with readings at most slack late it accepts only what the other accepts, and all of it younger than 60 s less slack |
| EnforcerRuns.PurgingInvisibleExactly | citadel-core/src/state_enforcer.rs:854-893 | purging goes unnoticed in all runs whose readings are at most slack late if and only if slack is 0 |
| EnforcerRuns.OnlyIssuerAccepts | citadel-core/src/state_enforcer.rs:833-896 | an enforcer refuses the token of any other enforcer, whatever both have done, and keeps its table |
| TokenBucket.ChargeCovers | citadel-api/src/main.rs:388-441 | a tier that lacks only buckets that are full again, also by a clock `slack` behind, answers alike and keeps lacking only such buckets |
| TokenBucket.EvictCovers | citadel-api/src/main.rs:446-453 | forgetting idle buckets loses only such buckets, when the capacity refills within 300 s less `slack`, at whatever time |
| TokenBucket.EvictionVisible | citadel-api/src/main.rs:446-453 | otherwise an address that drains its burst and asks again, 300 s later but with a reading up to `age` old, gets all of it after a cleanup and not without one |
| TokenBucket.BatchPassesExactly | citadel-api/src/main.rs:393-407 | of n simultaneous checks all pass if and only if the refilled bucket holds n tokens |
| TokenBucket.TwoBatchesPassExactly | citadel-api/src/main.rs:393-407 | after n checks of a fresh key, m checks d seconds later all pass if and only if m is at most the capacity and at most what was left plus rate times d |
| TokenBucket.EvictExactly | citadel-api/src/main.rs:446-453 | the cleanup keeps exactly the buckets refilled less than 300 s ago, unchanged |
| TokenBucket.ChargeSpends | citadel-api/src/main.rs:393-407 | a check costs its key one token exactly when it passes, and no other key anything, in whatever order clock readings are used |
| TokenBucket.TwoPassesEach | citadel-api/src/main.rs:992 | requests that pass both of their checks use up two passes each |
| RateLimiter.Limiter.constructor | citadel-api/src/main.rs:362-378 | factors 5 and 50 for the rates, 5 and 10 for the bursts, a full global bucket |
| RateLimiter.Limiter.Check | citadel-api/src/main.rs:388-443 | charges address, key and global tier in turn; tiers passed before a refusal stay charged |
| RateLimiter.Limiter.Cleanup | citadel-api/src/main.rs:446-453 | keeps exactly the buckets used less than 300 s ago, in the address and the key tier |
| RateLimiter.NewLimitsFacts | citadel-api/src/main.rs:362-378 | burst and rps for an address, five times both for a key, 10 burst and 50 rps for all |
| LimiterDecisions.DecisionsExactly | citadel-api/src/main.rs:388-453 | in every run without late readings, under every interleaving, each tier lets a check through if and only if one more pass stays within its burst + rate * T from every earlier decision on |
| LimiterDecisions.AnswersExactly | citadel-api/src/main.rs:388-443 | under every schedule a check is answered yes if and only if its address tier, its key tier if it has a key, and the global tier each let it through on its one reading; a tier is charged at most once and only after the tiers before it passed |
| RateLimiter.UninterruptedCheck | citadel-api/src/main.rs:388-443 | the sequential check is one schedule of the concurrent lock sections |
| RateLimiter.EvictionInvisible | citadel-api/src/main.rs:388-453 | when (300 - slack) rps is at least the burst, runs with and without cleanup give every check the same answer under every interleaving whose checks use readings at most slack old |
| LimiterExactly.EvictionInvisibleExactly | citadel-api/src/main.rs:388-453 | for every slack, the cleanup goes unnoticed in every such run if and only if the burst is 0 or at most (300 - slack) rps; with slack 0, if 300 rps is at least the burst |
| RateLimiter.RunIsBounded | citadel-api/src/main.rs:388-453 | under every schedule the limiter keeps its buckets within range and every window bound |
| RateLimiter.WindowBounds | citadel-api/src/main.rs:362-443 | under every schedule, in any stretch of T seconds in which checks' readings went back by B in total, one address passes at most burst + rps (T + B) times, one key 5 times that, all callers together 10 burst + 50 rps (T + B); a late cleanup reading adds nothing to B |
| RateLimiter.OrderedWindowBound | citadel-api/src/main.rs:388-407 | when no check's reading went back under the address lock, at most burst + rps T |
| LimiterExactly.WindowBoundExactly | citadel-api/src/main.rs:388-453 | with cleanup running the bound for an address holds in every run if and only if the burst refills within 300 s |
| LimiterExactly.BackwardReadingsPassMore | citadel-api/src/main.rs:389-401 | for every rate, burst and slack some run with readings at most slack late and T = 0 passes exactly burst + rps (T + B) times, one more than the burst |
| LimiterExactly.PlainBoundExactly | citadel-api/src/main.rs:388-453 | the advertised burst + rps T holds in every run whose readings are at most slack late if and only if slack is 0 and, with cleanup running, the burst refills within 300 s |
| RateLimiter.AuthenticatedWindowBound | citadel-api/src/main.rs:1071 | since an authenticated request is checked twice, at most half the address bound get through |
| ApiKeys.DomainAccessExactly | citadel-api/src/main.rs:696-811 | given the caller invariant the gate on a target key opens exactly to a global admin or a caller that lists the key's domain, and names that domain |
| ApiKeys.GateNeedsInvariant | citadel-api/src/main.rs:774-810 | without the invariant a caller with neither domains nor the admin scope passes for every domain |
| ApiKeys.GateTightExactly | citadel-api/src/main.rs:696-811 | for a caller the gate is tight on every operation, target and hierarchy if and only if the caller invariant holds |
| ApiKeyDecisions.UntargetedOperations | citadel-api/src/main.rs:696-735 | a caller that is not a global admin may list, may never create a root or a domain, and may read keys without a domain |
| ApiKeyDecisions.RefusalStatuses | citadel-api/src/main.rs:736-808 | refusing to decrypt has one status whether the key's domain is unknown or not the caller's; other operations answer 400 and 403 |
| ApiKeys.ParsedScopes | citadel-api/src/main.rs:2691-2707 | an error exactly when some name is unknown; otherwise exactly the named scopes, each once |
| ApiKeys.ParseScopes | citadel-api/src/main.rs:2691-2707 | the loop computes that |
| ApiKeyDecisions.ScopesInOrder | citadel-api/src/main.rs:2691-2707 | the scopes are in the order in which the request first names them |
| ApiKeyDecisions.ScopeNames | citadel-api/src/main.rs:64-72 | the four scope names |
| ApiKeys.ApiKeyStore.Authenticate | citadel-api/src/main.rs:232-241 | finds the first active key with the hash, exactly when there is one |
| ApiKeys.ApiKeyStore.Add | citadel-api/src/main.rs:243-245 | appends the entry |
| ApiKeys.ApiKeyStore.Deactivate | citadel-api/src/main.rs:247-254 | clears `active` of the first key with the id and says whether there is one |
| ApiKeys.ApiKeyStore.Touch | citadel-api/src/main.rs:256-260 | sets the time of last use of the first key with the id |
| ApiKeys.ApiKeyStore.Create | citadel-api/src/main.rs:2682-2781 | validates, authorizes, applies the domain rules and appends; every refusal leaves the store unchanged |
| ApiKeyDecisions.CreateExactly | citadel-api/src/main.rs:2682-2781 | creation is granted if and only if the request is well formed, the caller may grant these scopes and domains, and the domain list is non-empty or absent for an admin key; the entry appended is given field by field |
| ApiKeys.ApiKeyStore.Revoke | citadel-api/src/main.rs:2783-2832 | finds, authorizes, guards the last admin and deactivates; every refusal leaves the store unchanged |
| ApiKeyDecisions.RevokeExactly | citadel-api/src/main.rs:2783-2832 | revocation is done if and only if the first key with the id is active, the caller may revoke it and it is not the last active admin; then that entry alone becomes inactive, and every refusal changes nothing |
| ApiKeyDecisions.UpdatesExactly | citadel-api/src/main.rs:247-260 | deactivating and recording a use change one field of the first key with the id and nothing else |
| ApiKeyDecisions.RevocationIsFinal | citadel-api/src/main.rs:2783-2832 | in every run after a revocation the entry stays inactive, and a secret no other active key has authenticates to nobody again |
| ApiKeys.BootstrapEstablishesInv | citadel-api/src/main.rs:3158-3211 | startup accepts exactly the stores without a non-admin key that has no domains |
| ApiKeyDecisions.BootstrapExactly | citadel-api/src/main.rs:3158-3211 | startup leaves the loaded store, or one active global admin key, or none |
| ApiKeys.CreateKeepsInv | citadel-api/src/main.rs:2682-2781 | creation keeps the invariant, adds at most one key, and never one with an empty domain list |
| ApiKeyDecisions.Utf8LengthExactly | citadel-api/src/main.rs:2687 | the name length counts bytes of UTF-8 |
| ApiKeys.RevokeKeepsInv | citadel-api/src/main.rs:2783-2832 | revocation keeps the invariant and never removes the last active admin |
| ApiKeys.GlobalLostExactly | citadel-api/src/main.rs:2813-2825 | a revocation removes the last active global admin if and only if a global admin names the only global key while some other admin is active |
| ApiKeys.ListingIsRevocable | citadel-api/src/main.rs:2639-2680 | in a store that satisfies the invariant, and for a global admin in any, a caller lists exactly the keys it is authorised to revoke, in store order |
| ApiKeys.ListingNeedsInvariant | citadel-api/src/main.rs:945-968 | without it a key can be hidden and yet revocable |
| ApiKeys.ListingExactly | citadel-api/src/main.rs:2639-2680 | in any store the listing is what the caller may revoke if and only if the caller is a global admin or the store satisfies the invariant |
| ApiKeyDecisions.ListedExactly | citadel-api/src/main.rs:2639-2680 | a listing shows all fields but the hash of exactly the keys inside the caller's domains, of all keys for a global admin |
| ApiKeyRuns.KeyRoutesNeedAdmin | citadel-api/src/main.rs:91-117 | every path that reaches key creation or revocation demands the admin scope |
| ApiKeyDecisions.OpensExactly | citadel-api/src/main.rs:84-117 | which scopes open which routes, all rows written out |
| ApiKeyDecisions.ArrivesExactly | citadel-api/src/main.rs:1078-1120 | a request gets a session if and only if the first active key with the hash has the admin scope or the route's scope, with that key's id, name, scopes and domains |
| ApiKeyDecisions.SessionsAreBacked | citadel-api/src/main.rs:1078-1120 | in every run every request in flight belongs to a key whose scopes open its route |
| ApiKeyRuns.RunIsSound | citadel-api/src/main.rs:2682-2832 | over every run the store invariant holds, every caller in flight satisfies the gate's assumption, and active admins never drop to none |
| ApiKeyRuns.RunKeepsDomains | citadel-api/src/main.rs:2727-2745 | over every run keys keep their domains and no key is added with an empty domain list |
| ApiKeyRuns.GlobalSurvivesExactly | citadel-api/src/main.rs:2783-2832 | a run keeps a global admin throughout if and only if no step of it is such a revocation |
| ApiKeyRuns.LockoutIsPermanent | citadel-api/src/main.rs:836-971 | once no global admin is active and none of their requests is in flight, no run brings one back |
| ApiKeyRuns.GlobalAdminCanBeLost | citadel-api/src/main.rs:2813-2825 | a run from a store startup accepts that ends without a global admin |
| ApiKeyRuns.GateIsTightInRuns | citadel-api/src/main.rs:774-810 | from any store startup accepts, only global admins and callers listing the domain ever pass the gate |
| ApiKeyRuns.ScopedAdminIsConfined | citadel-api/src/main.rs:836-971 | in every interleaving each step with a scoped admin's key, or a key created from it transitively, leaves keys not wholly inside its domains untouched and adds only keys inside its domains and its scopes other than Admin |
| ApiKeyRuns.ConfinementStarts | citadel-api/src/main.rs:836-971 | a sound store in which a key has a secret of its own and the first key with its id is inside the domains is where such a run may start |
| ApiKeyRuns.ConfinedExactly | citadel-api/src/main.rs:256-260 | from a sound store an active scoped admin key with a secret of its own confines every run if and only if the first key with its id is inside the domains |
| ApiKeyRuns.SharedIdIsTouched | citadel-api/src/main.rs:256-260 | with a repeated id a scoped admin's own requests are booked on a key outside its domains |
| ApiKeyRuns.CoalitionRunIsInside | citadel-api/src/main.rs:836-971 | the whole effect of a run of that admin and its descendants, first store to last, is inside its domains |
| AuditChain.VerifyChain | citadel-keystore/src/audit.rs:511-525 | the verifier loop accepts exactly the logs whose every event links to the one before it, from genesis |
| AuditChain.HeadPinsLog | citadel-keystore/src/audit.rs:385-421 | two verifying logs with one head are equal event by event and in length |
| AuditChain.SharedEventPinsPast | citadel-keystore/src/audit.rs:413-421 | two verifying logs that share an event have it at the same position and agree on everything before it |
| AuditChain.TamperUnnoticedExactly | citadel-keystore/src/audit.rs:566-605 | changing one event still verifies if and only if it is the last and keeps its link, and then the head changes |
| AuditChain.IntegrityChainSink.WithWitness | citadel-keystore/src/audit.rs:379-404 | starts at sequence 0 on the genesis hash, with nothing published |
| AuditChain.IntegrityChainSink.StampLocked | citadel-keystore/src/audit.rs:411-449 | stamps sequence and previous hash, advances both, publishes at positive multiples of the interval |
| AuditChain.IntegrityChainSink.Record | citadel-keystore/src/audit.rs:408-453 | an uninterrupted call stamps and then forwards the stamped event |
| AuditChain.ChainUnderInterleavings | citadel-keystore/src/audit.rs:407-453 | however stamping and forwarding interleave, forwarded plus in-flight events are exactly the chain; it holds the recorded events in lock order, all of them unless the interval is 0, numbered 0..n-1 and unbroken from genesis; anchors are exactly the positive multiples of the interval with that event's own hash; the sink panics exactly at a second event with interval 0 |
| AuditChain.IntervalZeroPanics | citadel-keystore/src/audit.rs:424 | with interval 0 the first event is stamped, the second poisons the sink, and later ones change nothing |
| AuditChain.SortedLogIsChain | citadel-keystore/src/audit.rs:451-452 | after any run with nothing in flight, sorting the log by sequence number recovers the chain, whatever the arrival order |
| AuditChain.ArrivalOrderMatters | citadel-keystore/src/audit.rs:451-452 | after any run, the log as it arrived verifies if and only if events arrived in the order they were stamped |
| AuditChain.AnchorPinsPrefix | citadel-keystore/src/audit.rs:424-430 | after any run, a verifying log whose head is a published anchor is the stamped chain up to the anchored event |

## Left out

- Cryptographic primitives and their backends: uninterpreted; the hypotheses on them are opening undoes sealing, submitted frames are not forged, the MAC does not collide on the two counts compared, and the events compared have no hash collision. Distinct chunk nonces are not assumed but part of the exact condition.
- StreamV3Runs.StreamIntegrity: one honest sender per stream key; the adversary sees and submits bytes but holds no keys.
- StreamV2.ChunkRoundTrip: stated per chunk, because the V2 source has no call that encrypts a whole stream.
- RateLimiter.WindowBounds: with time and tokens as reals; rounding of doubles is not modelled.
- ApiKeyRuns.ScopedAdminIsConfined: new key ids and secrets are assumed to be ones nobody has, and the admin's own secret to be held by no other loaded key.
- EnforcerRuns.AcceptedExactly: random nonces are inputs, assumed not to repeat, and clock readings are assumed to be in the order in which the registry's mutex is taken, although `generate_capability_token` and `validate_capability` read the clock before it. `EnforcerRuns.Conservation` needs neither.
- AuditChain.ChainUnderInterleavings: a published anchor is an attempt to publish; failure of the witness is ignored by the source as well. JSON serialisation failure and a restart of the process are not modelled, nor is lock poisoning other than by an interval of 0.
- Wrap-around of burst * 10, ttl + skew, the enforcer generation counter, the audit sequence and the 64-bit millisecond clock.
- `wire_v2`, `envelope_nonce`, the keystore, replay store, threat scoring and hierarchy resolution; the domain of a key is an arbitrary partial function.
- LimiterDecisions.DecisionsExactly: for runs whose readings are not used late; with late readings `RateLimiter.WindowBounds` still bounds what passes.
- ApiKeyDecisions.ArrivesExactly: the rate limiter, which runs before the scope test, is modelled apart; a request it refuses does not arrive.
- HTTP, JSON, file persistence and a failing `save`, logging, environment variables, response texts; refusals are told apart only as far as their status.
- The lifecycle test of the `require_*` checks (every context is issued as active), `require_operation`, and the string formatters for AAD and context.
- Constant-time comparison, zeroization and the quality of random numbers.
