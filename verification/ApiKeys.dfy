/** API keys and the decisions taken on them (citadel-api/src/main.rs). */
module ApiKeys {
  import opened Wrappers

  datatype Scope = Read | Encrypt | Manage | Admin

  datatype ApiKeyEntry = ApiKeyEntry(
    id: string,
    name: string,
    keyHash: string,
    scopes: seq<Scope>,
    createdAt: string,
    active: bool,
    lastUsed: Option<string>,
    allowedDomains: Option<seq<string>>)

  /** What a listing shows of a key: everything but its hash. */
  datatype ApiKeyInfo = ApiKeyInfo(
    id: string,
    name: string,
    scopes: seq<Scope>,
    createdAt: string,
    active: bool,
    lastUsed: Option<string>,
    allowedDomains: Option<seq<string>>)

  datatype AuthContext = AuthContext(keyId: string, keyName: string, scopes: seq<Scope>,
                                     allowedDomains: Option<seq<string>>)

  // ----- scopes and routes -----

  predicate HasScope(granted: seq<Scope>, required: Scope) {
    Admin in granted || required in granted
  }

  predicate StartsWith(s: string, prefix: string) {
    prefix <= s
  }

  predicate EndsWith(s: string, suffix: string) {
    |suffix| <= |s| && s[|s| - |suffix|..] == suffix
  }

  function RequiredScope(path: string, httpMethod: string): Option<Scope> {
    if path == "/" || path == "/health" then None
    else if path == "/api/auth/whoami" then Some(Read)
    else if StartsWith(path, "/api/auth/") then Some(Admin)
    else if EndsWith(path, "/encrypt") || path == "/api/decrypt" then Some(Encrypt)
    else if EndsWith(path, "/sign") || path == "/api/assertions/issue" then Some(Encrypt)
    else if path == "/api/verify" || EndsWith(path, "/verifying-key") || path == "/api/assertions/verify"
    then Some(Read)
    else if httpMethod == "POST" || httpMethod == "DELETE" then Some(Manage)
    else Some(Read)
  }

  predicate IsGlobalAdmin(auth: AuthContext) {
    auth.allowedDomains.None? && Admin in auth.scopes
  }

  // ----- domain gate -----

  datatype Operation =
    | ReadKey | ListKeys | EncryptOp | DecryptOp | CreateRoot | CreateDomain | CreateKek | CreateDek | CreateSigningKey
    | ActivateKey | RotateKey | RevokeKey | DestroyKey

  predicate NeedsTarget(op: Operation) {
    op !in {ListKeys, CreateRoot, CreateDomain}
  }

  datatype DomainAccess = Allowed(domain: Option<string>) | Refused(status: nat)

  /** `resolve` finds the domain of a cryptographic key, if it can. */
  function AuthorizeDomainAccess(auth: AuthContext, op: Operation, target: Option<string>,
                                 resolve: string -> Option<string>): DomainAccess {
    if IsGlobalAdmin(auth) then Allowed(None)
    else
      match op
      case ListKeys => Allowed(None)
      case CreateRoot => Refused(403)
      case CreateDomain => Refused(403)
      case _ =>
        if target.None? then Refused(500)
        else
          match resolve(target.value)
          case None => Refused(400)
          case Some(domain) =>
            if auth.allowedDomains.Some? && domain !in auth.allowedDomains.value
            then Refused(if op == DecryptOp then 400 else 403)
            else Allowed(Some(domain))
  }

  predicate CallerCanReadKey(auth: AuthContext, keyDomain: Option<string>) {
    match (keyDomain, auth.allowedDomains)
    case (None, _) => true
    case (Some(_), None) => true
    case (Some(kd), Some(allowed)) => kd in allowed
  }

  /** What the gates rely on: a caller without a domain list is an admin. */
  predicate CallerInv(auth: AuthContext) {
    auth.allowedDomains.None? ==> Admin in auth.scopes
  }

  predicate Lists(auth: AuthContext, domain: string) {
    auth.allowedDomains.Some? && domain in auth.allowedDomains.value
  }

  /**
   Who passes the gate on a target key: a global admin, or a caller that lists the key's domain, which is then the
   answer. This needs `CallerInv`, because the code lets a caller without a domain list fall through.
   */
  lemma DomainAccessExactly(auth: AuthContext, op: Operation, target: Option<string>, resolve: string -> Option<string>)
    requires CallerInv(auth) && NeedsTarget(op)
    ensures AuthorizeDomainAccess(auth, op, target, resolve).Allowed? <==>
              || IsGlobalAdmin(auth)
              || (target.Some? && resolve(target.value).Some? && Lists(auth, resolve(target.value).value))
    ensures AuthorizeDomainAccess(auth, op, target, resolve).Allowed? && !IsGlobalAdmin(auth) ==>
              AuthorizeDomainAccess(auth, op, target, resolve) == Allowed(resolve(target.value))
    ensures forall d :: CallerCanReadKey(auth, Some(d)) <==> IsGlobalAdmin(auth) || Lists(auth, d)
  {
  }

  /** Without the invariant the gate is open: a caller with neither domains nor the admin scope reaches every domain. */
  lemma GateNeedsInvariant(scopes: seq<Scope>, op: Operation, target: string, domain: string)
    requires Admin !in scopes && NeedsTarget(op)
    ensures AuthorizeDomainAccess(AuthContext("", "", scopes, None), op, Some(target), _ => Some(domain))
         == Allowed(Some(domain))
    ensures CallerCanReadKey(AuthContext("", "", scopes, None), Some(domain))
  {
  }

  /** On this target the gate opens exactly to a global admin or a caller that lists the target's domain. */
  predicate GateIsTight(auth: AuthContext, op: Operation, target: Option<string>, resolve: string -> Option<string>) {
    AuthorizeDomainAccess(auth, op, target, resolve).Allowed? <==>
      || IsGlobalAdmin(auth)
      || (target.Some? && resolve(target.value).Some? && Lists(auth, resolve(target.value).value))
  }

  /**
   The exact condition: the gate is tight for every operation, target and hierarchy if and only if `CallerInv` holds.
   */
  lemma GateTightExactly(auth: AuthContext)
    ensures CallerInv(auth) <==>
              forall op, target, resolve | NeedsTarget(op) :: GateIsTight(auth, op, target, resolve)
  {
    if CallerInv(auth) {
      forall op, target, resolve | NeedsTarget(op) ensures GateIsTight(auth, op, target, resolve) {
        DomainAccessExactly(auth, op, target, resolve);
      }
    } else {
      var everywhere: string -> Option<string> := _ => Some("");
      assert !GateIsTight(auth, ReadKey, Some(""), everywhere);
    }
  }

  // ----- control plane -----

  datatype ApiKeyAction =
    | CreateApiKey(scopes: seq<Scope>, allowedDomains: Option<seq<string>>)
    | ListApiKeys
    | RevokeApiKey(target: ApiKeyEntry)

  /** Rules 1 to 6 for admins that are not global. */
  predicate AuthorizeAdminAction(auth: AuthContext, action: ApiKeyAction) {
    if IsGlobalAdmin(auth) then true
    else
      match action
      case CreateApiKey(scopes, allowedDomains) =>
        if allowedDomains.None? then false
        else if Admin in scopes then false
        else if auth.allowedDomains.Some? && exists d | d in allowedDomains.value :: d !in auth.allowedDomains.value
        then false
        else if exists s | s in scopes :: s !in auth.scopes then false
        else true
      case ListApiKeys => true
      case RevokeApiKey(target) =>
        if target.allowedDomains.None? && Admin in target.scopes then false
        else if target.allowedDomains.Some? then
          auth.allowedDomains.Some? && forall d | d in target.allowedDomains.value :: d in auth.allowedDomains.value
        else true
  }

  // ----- store -----

  /** The position `find` stops at for an id, or the length. */
  function IndexOfId(keys: seq<ApiKeyEntry>, id: string): (i: nat)
    ensures i <= |keys|
    ensures i < |keys| ==> keys[i].id == id
    ensures forall j | 0 <= j < i :: keys[j].id != id
  {
    if keys == [] || keys[0].id == id then 0 else 1 + IndexOfId(keys[1..], id)
  }

  /** The position of the first active key with this hash, or the length. */
  function IndexOfCredential(keys: seq<ApiKeyEntry>, hash: string): (i: nat)
    ensures i <= |keys|
    ensures i < |keys| ==> keys[i].active && keys[i].keyHash == hash
    ensures forall j | 0 <= j < i :: !(keys[j].active && keys[j].keyHash == hash)
  {
    if keys == [] || (keys[0].active && keys[0].keyHash == hash) then 0 else 1 + IndexOfCredential(keys[1..], hash)
  }

  function Deactivated(keys: seq<ApiKeyEntry>, id: string): seq<ApiKeyEntry> {
    var i := IndexOfId(keys, id);
    if i == |keys| then keys else keys[i := keys[i].(active := false)]
  }

  function Touched(keys: seq<ApiKeyEntry>, id: string, now: string): seq<ApiKeyEntry> {
    var i := IndexOfId(keys, id);
    if i == |keys| then keys else keys[i := keys[i].(lastUsed := Some(now))]
  }

  function Info(e: ApiKeyEntry): ApiKeyInfo {
    ApiKeyInfo(e.id, e.name, e.scopes, e.createdAt, e.active, e.lastUsed, e.allowedDomains)
  }

  function Infos(keys: seq<ApiKeyEntry>): seq<ApiKeyInfo> {
    seq(|keys|, i requires 0 <= i < |keys| => Info(keys[i]))
  }

  predicate VisibleTo(adminDomains: seq<string>, info: ApiKeyInfo) {
    info.allowedDomains.Some? && forall d | d in info.allowedDomains.value :: d in adminDomains
  }

  function FilterVisible(adminDomains: seq<string>, infos: seq<ApiKeyInfo>): seq<ApiKeyInfo> {
    if infos == [] then []
    else (if VisibleTo(adminDomains, infos[0]) then [infos[0]] else []) + FilterVisible(adminDomains, infos[1..])
  }

  /** `list_api_keys`. */
  function Listing(auth: AuthContext, keys: seq<ApiKeyEntry>): seq<ApiKeyInfo> {
    if IsGlobalAdmin(auth) then Infos(keys)
    else if auth.allowedDomains.Some? then FilterVisible(auth.allowedDomains.value, Infos(keys))
    else []
  }

  // ----- creation -----

  datatype CreateRequest = CreateRequest(name: string, scopes: seq<string>, allowedDomains: Option<seq<string>>)

  function ScopeFromString(s: string): Option<Scope> {
    if s == "read" then Some(Read)
    else if s == "encrypt" then Some(Encrypt)
    else if s == "manage" then Some(Manage)
    else if s == "admin" then Some(Admin)
    else None
  }

  /** The scopes named, each once, in order of first appearance; an error if any name is unknown. */
  function ParsedScopes(names: seq<string>): (r: Result<seq<Scope>>)
    ensures r.Ok? <==> forall n | n in names :: ScopeFromString(n).Some?
    ensures r.Ok? ==> forall s :: s in r.value <==> exists n | n in names :: ScopeFromString(n) == Some(s)
    ensures r.Ok? ==> forall i, j | 0 <= i < j < |r.value| :: r.value[i] != r.value[j]
  {
    if names == [] then Ok([])
    else
      var front, last := names[..|names| - 1], names[|names| - 1];
      assert names == front + [last];
      var scopes :- ParsedScopes(front);
      match ScopeFromString(last)
      case None => Err
      case Some(s) => Ok(if s in scopes then scopes else scopes + [s])
  }

  method ParseScopes(names: seq<string>) returns (r: Result<seq<Scope>>)
    ensures r == ParsedScopes(names)
  {
    var scopes: seq<Scope> := [];
    var i := 0;
    while i < |names|
      invariant 0 <= i <= |names|
      invariant ParsedScopes(names[..i]) == Ok(scopes)
    {
      var scope := ScopeFromString(names[i]);
      assert names[..i + 1][..i] == names[..i];
      if scope.None? {
        assert names[i] in names;
        return Err;
      }
      if scope.value !in scopes {
        scopes := scopes + [scope.value];
      }
      i := i + 1;
    }
    assert names[..i] == names;
    return Ok(scopes);
  }

  datatype Reply = Done | BadRequest | Forbidden

  /** The domain rules of creation, applied after authorization. */
  predicate DomainsAcceptable(scopes: seq<Scope>, allowedDomains: Option<seq<string>>) {
    match (allowedDomains, Admin in scopes)
    case (Some(domains), true) => domains != []
    case (None, false) => false
    case (Some(domains), false) => domains != []
    case (None, true) => true
  }

  /** The length of a string in bytes of UTF-8. */
  function Utf8Length(s: string): (n: nat)
    ensures n >= |s|
  {
    if s == [] then 0
    else
      var c := s[0] as int;
      (if c < 0x80 then 1 else if c < 0x800 then 2 else if c < 0x1_0000 then 3 else 4) + Utf8Length(s[1..])
  }

  /** `create_api_key`; the id, the hash of the fresh secret and the date are inputs. */
  function CreateSpec(keys: seq<ApiKeyEntry>, auth: AuthContext, req: CreateRequest, keyId: string, keyHash: string,
                      now: string): (seq<ApiKeyEntry>, Reply) {
    if req.name == "" || Utf8Length(req.name) > 100 then (keys, BadRequest)
    else
      match ParsedScopes(req.scopes)
      case Err => (keys, BadRequest)
      case Ok(scopes) =>
        if scopes == [] then (keys, BadRequest)
        else if !AuthorizeAdminAction(auth, CreateApiKey(scopes, req.allowedDomains)) then (keys, Forbidden)
        else if !DomainsAcceptable(scopes, req.allowedDomains) then (keys, BadRequest)
        else (keys + [ApiKeyEntry(keyId, req.name, keyHash, scopes, now, true, None, req.allowedDomains)], Done)
  }

  predicate IsOtherAdmin(e: ApiKeyEntry, id: string) {
    e.id != id && e.active && Admin in e.scopes
  }

  /** `revoke_api_key`. */
  function RevokeSpec(keys: seq<ApiKeyEntry>, auth: AuthContext, id: string): (seq<ApiKeyEntry>, Reply) {
    var i := IndexOfId(keys, id);
    if i == |keys| then (keys, BadRequest)
    else if !AuthorizeAdminAction(auth, RevokeApiKey(keys[i])) then (keys, Forbidden)
    else if !keys[i].active then (keys, BadRequest)
    else if Admin in keys[i].scopes && !(exists e | e in keys :: IsOtherAdmin(e, id)) then (keys, BadRequest)
    else (Deactivated(keys, id), Done)
  }

  /** The context a credential authenticates to. */
  function SessionFor(keys: seq<ApiKeyEntry>, hash: string): Option<AuthContext> {
    var i := IndexOfCredential(keys, hash);
    if i == |keys| then None
    else Some(AuthContext(keys[i].id, keys[i].name, keys[i].scopes, keys[i].allowedDomains))
  }

  class ApiKeyStore {
    var keys: seq<ApiKeyEntry>

    constructor ()
      ensures keys == []
    {
      keys := [];
    }

    method Authenticate(hash: string) returns (r: Option<AuthContext>)
      ensures r.Some? <==> exists e | e in keys :: e.active && e.keyHash == hash
      ensures r == SessionFor(keys, hash)
    {
      var i := IndexOfCredential(keys, hash);
      if i == |keys| {
        return None;
      }
      return Some(AuthContext(keys[i].id, keys[i].name, keys[i].scopes, keys[i].allowedDomains));
    }

    method Add(entry: ApiKeyEntry)
      modifies this
      ensures keys == old(keys) + [entry]
    {
      keys := keys + [entry];
    }

    method Deactivate(id: string) returns (found: bool)
      modifies this
      ensures keys == Deactivated(old(keys), id)
      ensures found <==> exists e | e in old(keys) :: e.id == id
    {
      var i := IndexOfId(keys, id);
      if i == |keys| {
        return false;
      }
      keys := keys[i := keys[i].(active := false)];
      return true;
    }

    method Touch(id: string, now: string)
      modifies this
      ensures keys == Touched(old(keys), id, now)
    {
      var i := IndexOfId(keys, id);
      if i < |keys| {
        keys := keys[i := keys[i].(lastUsed := Some(now))];
      }
    }

    method Create(auth: AuthContext, req: CreateRequest, keyId: string, keyHash: string,
                  now: string) returns (reply: Reply)
      modifies this
      ensures (keys, reply) == CreateSpec(old(keys), auth, req, keyId, keyHash, now)
    {
      if req.name == "" || Utf8Length(req.name) > 100 {
        return BadRequest;
      }
      var scopes := ParseScopes(req.scopes);
      if scopes.Err? || scopes.value == [] {
        return BadRequest;
      }
      if !AuthorizeAdminAction(auth, CreateApiKey(scopes.value, req.allowedDomains)) {
        return Forbidden;
      }
      if !DomainsAcceptable(scopes.value, req.allowedDomains) {
        return BadRequest;
      }
      Add(ApiKeyEntry(keyId, req.name, keyHash, scopes.value, now, true, None, req.allowedDomains));
      return Done;
    }

    method Revoke(auth: AuthContext, id: string) returns (reply: Reply)
      modifies this
      ensures (keys, reply) == RevokeSpec(old(keys), auth, id)
    {
      var i := IndexOfId(keys, id);
      if i == |keys| {
        return BadRequest;
      }
      var target := keys[i];
      if !AuthorizeAdminAction(auth, RevokeApiKey(target)) {
        return Forbidden;
      }
      if !target.active {
        return BadRequest;
      }
      if Admin in target.scopes && !(exists e | e in keys :: IsOtherAdmin(e, id)) {
        return BadRequest;
      }
      var _ := Deactivate(id);
      return Done;
    }
  }

  // ----- store invariant -----

  predicate EntryInv(e: ApiKeyEntry) {
    e.allowedDomains.None? ==> Admin in e.scopes
  }

  /** No key that is not an admin is without domains. */
  predicate StoreInv(keys: seq<ApiKeyEntry>) {
    forall i | 0 <= i < |keys| :: EntryInv(keys[i])
  }

  predicate HasActiveAdmin(keys: seq<ApiKeyEntry>) {
    exists i | 0 <= i < |keys| :: keys[i].active && Admin in keys[i].scopes
  }

  /** `bootstrap_api_keys`: none when the process refuses to start on the loaded file. */
  function Bootstrap(loaded: seq<ApiKeyEntry>, bootstrapHash: Option<string>, now: string): Option<seq<ApiKeyEntry>> {
    if loaded != [] then
      if exists k | k in loaded :: k.allowedDomains.None? && Admin !in k.scopes then None else Some(loaded)
    else
      match bootstrapHash
      case None => Some([])
      case Some(hash) =>
        Some([ApiKeyEntry("ck_bootstrap", "bootstrap-admin", hash, [Admin], now, true, None, None)])
  }

  /** Startup accepts exactly the stores that satisfy the invariant. */
  lemma BootstrapEstablishesInv(loaded: seq<ApiKeyEntry>, bootstrapHash: Option<string>, now: string)
    ensures Bootstrap(loaded, bootstrapHash, now).Some? <==> StoreInv(loaded)
    ensures Bootstrap(loaded, bootstrapHash, now).Some? ==> StoreInv(Bootstrap(loaded, bootstrapHash, now).value)
  {
    if !StoreInv(loaded) {
      var i :| 0 <= i < |loaded| && !EntryInv(loaded[i]);
      assert loaded[i] in loaded;
    }
  }

  /** A created key is an admin or has domains, and its domain list is never empty. */
  lemma CreateKeepsInv(keys: seq<ApiKeyEntry>, auth: AuthContext, req: CreateRequest, keyId: string, keyHash: string,
                       now: string)
    requires StoreInv(keys)
    ensures var (keys', reply) := CreateSpec(keys, auth, req, keyId, keyHash, now);
            && StoreInv(keys') && (HasActiveAdmin(keys) ==> HasActiveAdmin(keys'))
            && keys <= keys' && |keys'| == |keys| + (if reply == Done then 1 else 0)
            && (reply == Done ==> keys'[|keys|].allowedDomains != Some([]) && keys'[|keys|].active)
  {
    if HasActiveAdmin(keys) {
      var i :| 0 <= i < |keys| && keys[i].active && Admin in keys[i].scopes;
      assert CreateSpec(keys, auth, req, keyId, keyHash, now).0[i] == keys[i];
    }
  }

  /**
   Revocation never removes the last active admin, changes one key's `active` field at most, and keeps the invariant.
   */
  lemma RevokeKeepsInv(keys: seq<ApiKeyEntry>, auth: AuthContext, id: string)
    requires StoreInv(keys)
    ensures var (keys', _) := RevokeSpec(keys, auth, id);
            && StoreInv(keys') && (HasActiveAdmin(keys) ==> HasActiveAdmin(keys'))
            && |keys'| == |keys|
  {
    var (keys', reply) := RevokeSpec(keys, auth, id);
    if reply == Done && HasActiveAdmin(keys) {
      var i := IndexOfId(keys, id);
      if Admin in keys[i].scopes {
        var e :| e in keys && IsOtherAdmin(e, id);
        var j :| 0 <= j < |keys| && keys[j] == e;
        assert keys'[j] == keys[j];
      } else {
        var j :| 0 <= j < |keys| && keys[j].active && Admin in keys[j].scopes;
        assert keys'[j] == keys[j];
      }
    }
  }

  // ----- the last global admin -----

  predicate IsGlobalKey(e: ApiKeyEntry) {
    e.active && e.allowedDomains.None? && Admin in e.scopes
  }

  predicate HasGlobalAdmin(keys: seq<ApiKeyEntry>) {
    exists i | 0 <= i < |keys| :: IsGlobalKey(keys[i])
  }

  predicate IsOnlyGlobalKey(keys: seq<ApiKeyEntry>, i: nat) {
    && i < |keys| && IsGlobalKey(keys[i])
    && forall j | 0 <= j < |keys| && IsGlobalKey(keys[j]) :: j == i
  }

  /**
   A global admin names the only active global key, and some other active admin, necessarily scoped, satisfies the
   guard.
   */
  predicate EndsGlobalAdmins(keys: seq<ApiKeyEntry>, auth: AuthContext, id: string) {
    && IsGlobalAdmin(auth)
    && IsOnlyGlobalKey(keys, IndexOfId(keys, id))
    && exists e | e in keys :: IsOtherAdmin(e, id)
  }

  /** The last-admin guard does not keep a global admin: this is exactly when a revocation removes the last one. */
  lemma GlobalLostExactly(keys: seq<ApiKeyEntry>, auth: AuthContext, id: string)
    requires HasGlobalAdmin(keys)
    ensures !HasGlobalAdmin(RevokeSpec(keys, auth, id).0) <==> EndsGlobalAdmins(keys, auth, id)
  {
    var (keys', _) := RevokeSpec(keys, auth, id);
    var i := IndexOfId(keys, id);
    assert forall j | 0 <= j < |keys| && j != i :: keys'[j] == keys[j];
    var g :| 0 <= g < |keys| && IsGlobalKey(keys[g]);
    if keys' == keys {
      assert IsGlobalKey(keys'[g]);
    } else if !IsOnlyGlobalKey(keys, i) {
      var j :| 0 <= j < |keys| && IsGlobalKey(keys[j]) && j != i;
      assert IsGlobalKey(keys'[j]);
    }
  }

  // ----- listing and revoking agree -----

  /** The keys a caller may revoke, as the control plane decides it. */
  function Revocable(auth: AuthContext, keys: seq<ApiKeyEntry>): seq<ApiKeyEntry> {
    if keys == [] then []
    else (if AuthorizeAdminAction(auth, RevokeApiKey(keys[0])) then [keys[0]] else []) + Revocable(auth, keys[1..])
  }

  lemma ListingStep(auth: AuthContext, keys: seq<ApiKeyEntry>)
    requires keys != [] && (IsGlobalAdmin(auth) || EntryInv(keys[0]))
    ensures Listing(auth, keys)
         == (if AuthorizeAdminAction(auth, RevokeApiKey(keys[0])) then [Info(keys[0])] else [])
            + Listing(auth, keys[1..])
  {
    assert Infos(keys) == [Info(keys[0])] + Infos(keys[1..]);
    assert Infos(keys)[1..] == Infos(keys[1..]);
  }

  /**
   In a store that satisfies the invariant, and a global admin in any store, a caller lists exactly the keys it is
   authorised to revoke, in store order.
   */
  lemma {:induction false} ListingIsRevocable(auth: AuthContext, keys: seq<ApiKeyEntry>)
    requires IsGlobalAdmin(auth) || StoreInv(keys)
    ensures Listing(auth, keys) == Infos(Revocable(auth, keys))
  {
    if keys != [] {
      ListingIsRevocable(auth, keys[1..]);
      ListingStep(auth, keys);
      hide Listing, AuthorizeAdminAction;
      if AuthorizeAdminAction(auth, RevokeApiKey(keys[0])) {
        assert Revocable(auth, keys) == [keys[0]] + Revocable(auth, keys[1..]);
        assert Infos(Revocable(auth, keys)) == [Info(keys[0])] + Infos(Revocable(auth, keys[1..]));
      } else {
        assert Revocable(auth, keys) == Revocable(auth, keys[1..]);
      }
    }
  }

  /** Without the invariant they differ: a key with neither domains nor the admin scope is hidden but revocable. */
  lemma ListingNeedsInvariant(auth: AuthContext, e: ApiKeyEntry)
    requires !IsGlobalAdmin(auth) && !EntryInv(e)
    ensures Listing(auth, [e]) == [] && Revocable(auth, [e]) == [e]
  {
    assert [e][1..] == [] && [Info(e)][1..] == [];
    assert Infos([e]) == [Info(e)];
    if auth.allowedDomains.Some? {
      var ds := auth.allowedDomains.value;
      assert FilterVisible(ds, [Info(e)]) == FilterVisible(ds, [Info(e)][1..]);
    }
  }

  /** The keys that are revocable without being listed. */
  function HiddenCount(auth: AuthContext, keys: seq<ApiKeyEntry>): nat {
    if keys == [] then 0
    else (if IsGlobalAdmin(auth) || EntryInv(keys[0]) then 0 else 1) + HiddenCount(auth, keys[1..])
  }

  lemma ListingSkips(auth: AuthContext, keys: seq<ApiKeyEntry>)
    requires keys != [] && !IsGlobalAdmin(auth) && !EntryInv(keys[0])
    ensures Listing(auth, keys) == Listing(auth, keys[1..])
    ensures AuthorizeAdminAction(auth, RevokeApiKey(keys[0]))
  {
    assert Infos(keys) == [Info(keys[0])] + Infos(keys[1..]);
    assert Infos(keys)[1..] == Infos(keys[1..]);
  }

  lemma {:induction false} ListingFallsShort(auth: AuthContext, keys: seq<ApiKeyEntry>)
    ensures |Listing(auth, keys)| + HiddenCount(auth, keys) == |Revocable(auth, keys)|
    ensures HiddenCount(auth, keys) == 0 <==> IsGlobalAdmin(auth) || StoreInv(keys)
  {
    if keys != [] {
      ListingFallsShort(auth, keys[1..]);
      if IsGlobalAdmin(auth) || EntryInv(keys[0]) {
        ListingStep(auth, keys);
      } else {
        ListingSkips(auth, keys);
      }
      hide Listing, AuthorizeAdminAction;
      assert StoreInv(keys) <==> EntryInv(keys[0]) && StoreInv(keys[1..]);
    }
  }

  /**
   The exact condition: what a caller lists is what it may revoke if and only if it is global or the store is sound.
   */
  lemma ListingExactly(auth: AuthContext, keys: seq<ApiKeyEntry>)
    ensures Listing(auth, keys) == Infos(Revocable(auth, keys)) <==> IsGlobalAdmin(auth) || StoreInv(keys)
  {
    ListingFallsShort(auth, keys);
    if IsGlobalAdmin(auth) || StoreInv(keys) {
      ListingIsRevocable(auth, keys);
    }
  }
}
