/**
 The decisions of citadel-api/src/main.rs on keys and callers, each written out in full, and what they mean for runs.
 */
module ApiKeyDecisions {
  import opened Wrappers
  import opened ApiKeys
  import opened ApiKeyRuns

  // ----- who gets a session -----

  predicate UnderAuth(path: string) {
    |path| >= 10 && path == "/api/auth/" + path[10..]
  }

  /** The path ends in one of the four names, as in `p + "/sign"`. */
  predicate Ends(path: string, suffix: string) {
    |path| >= |suffix| && path == path[..|path| - |suffix|] + suffix
  }

  predicate EncryptRoute(path: string) {
    && !UnderAuth(path)
    && (Ends(path, "/encrypt") || path == "/api/decrypt" || Ends(path, "/sign") || path == "/api/assertions/issue")
  }

  predicate VerifyRoute(path: string) {
    path == "/api/verify" || Ends(path, "/verifying-key") || path == "/api/assertions/verify"
  }

  /** Reading, whoami and verification. */
  predicate ReadRoute(path: string, httpMethod: string) {
    || path == "/api/auth/whoami"
    || (!UnderAuth(path) && !EncryptRoute(path) && (VerifyRoute(path) || (httpMethod != "POST"
        && httpMethod != "DELETE")))
  }

  predicate ManageRoute(path: string, httpMethod: string) {
    !UnderAuth(path) && !EncryptRoute(path) && !VerifyRoute(path) && (httpMethod == "POST" || httpMethod == "DELETE")
  }

  /** These scopes open this route; the routes under /api/auth/ but whoami open to administrators alone. */
  predicate Opens(scopes: seq<Scope>, path: string, httpMethod: string) {
    && path != "/" && path != "/health"
    && (|| Admin in scopes
        || (Encrypt in scopes && EncryptRoute(path))
        || (Read in scopes && ReadRoute(path, httpMethod))
        || (Manage in scopes && ManageRoute(path, httpMethod)))
  }

  lemma EndsMeans(path: string, suffix: string)
    ensures Ends(path, suffix) <==> EndsWith(path, suffix)
  {
    if EndsWith(path, suffix) {
      assert path == path[..|path| - |suffix|] + path[|path| - |suffix|..];
    }
    if Ends(path, suffix) {
      var front := path[..|path| - |suffix|];
      assert (front + suffix)[|front|..] == suffix;
    }
  }

  lemma UnderAuthMeans(path: string)
    ensures UnderAuth(path) <==> StartsWith(path, "/api/auth/")
  {
    if StartsWith(path, "/api/auth/") {
      assert path == path[..10] + path[10..];
    }
    if UnderAuth(path) {
      assert path[..10] == "/api/auth/";
    }
  }

  lemma WhoamiIsUnderAuth()
    ensures UnderAuth("/api/auth/whoami")
  {
    assert "/api/auth/whoami"[10..] == "whoami";
    assert "/api/auth/" + "whoami" == "/api/auth/whoami";
  }

  lemma OpensExactly(scopes: seq<Scope>, path: string, httpMethod: string)
    ensures Opens(scopes, path, httpMethod) <==>
              var required := RequiredScope(path, httpMethod); required.Some? && HasScope(scopes, required.value)
  {
    UnderAuthMeans(path);
    EndsMeans(path, "/encrypt");
    EndsMeans(path, "/sign");
    EndsMeans(path, "/verifying-key");
    WhoamiIsUnderAuth();
    hide UnderAuth, Ends, StartsWith, EndsWith;
  }

  /** The session of this key on this route; `member` is history. */
  function SessionOf(e: ApiKeyEntry, path: string, httpMethod: string, member: bool): Session {
    Session(AuthContext(e.id, e.name, e.scopes, e.allowedDomains), path, httpMethod, member)
  }

  /** `e` is the first active key with the hash. */
  predicate FirstActive(keys: seq<ApiKeyEntry>, hash: string, i: nat) {
    && i < |keys| && keys[i].active && keys[i].keyHash == hash
    && forall j | 0 <= j < i :: !(keys[j].active && keys[j].keyHash == hash)
  }

  /**
   The authentication layer, exactly. A request gets a session if and only if an active key has the hash and the first
   such key has the admin scope or the scope of the route; the session then carries that key's id, name, scopes and
   domains. The two public paths never get one.
   */
  lemma ArrivesExactly(w: World, hash: string, path: string, httpMethod: string)
    ensures ArriveStep(w, hash, path, httpMethod) != w <==>
              exists i: nat :: FirstActive(w.keys, hash, i) && Opens(w.keys[i].scopes, path, httpMethod)
    ensures forall i: nat | FirstActive(w.keys, hash, i) && Opens(w.keys[i].scopes, path, httpMethod) ::
              ArriveStep(w, hash, path, httpMethod)
              == w.(sessions := w.sessions + [SessionOf(w.keys[i], path, httpMethod, hash in w.coalition)])
  {
    var k := IndexOfCredential(w.keys, hash);
    forall i: nat ensures FirstActive(w.keys, hash, i) <==> i == k < |w.keys| {
    }
    if k < |w.keys| {
      OpensExactly(w.keys[k].scopes, path, httpMethod);
    }
    hide RequiredScope, HasScope, Opens;
    assert ArriveStep(w, hash, path, httpMethod).sessions == w.sessions ==> ArriveStep(w, hash, path, httpMethod) == w;
  }

  /** The session belongs to a key of the store whose scopes open its route. */
  predicate Backed(keys: seq<ApiKeyEntry>, t: Session) {
    && Opens(t.auth.scopes, t.path, t.httpMethod)
    && exists i | 0 <= i < |keys| :: t == SessionOf(keys[i], t.path, t.httpMethod, t.member)
  }

  predicate AllBacked(w: World) {
    forall i | 0 <= i < |w.sessions| :: Backed(w.keys, w.sessions[i])
  }

  /** No step changes a key's id, name, scopes or domains. */
  lemma IdentityStays(w: World, e: Event)
    ensures |w.keys| <= |Step(w, e).keys|
    ensures forall i | 0 <= i < |w.keys| ::
              var k, k' := w.keys[i], Step(w, e).keys[i];
              k'.id == k.id && k'.name == k.name && k'.scopes == k.scopes && k'.allowedDomains == k.allowedDomains
              && k'.keyHash == k.keyHash
  {
  }

  lemma StepKeepsBacked(w: World, e: Event)
    requires AllBacked(w)
    ensures AllBacked(Step(w, e))
  {
    var w' := Step(w, e);
    IdentityStays(w, e);
    if e.Arrive? {
      ArrivesExactly(w, e.hash, e.path, e.httpMethod);
      if w' != w {
        var i: nat :| FirstActive(w.keys, e.hash, i) && Opens(w.keys[i].scopes, e.path, e.httpMethod);
        assert w'.sessions[|w.sessions|] == SessionOf(w.keys[i], e.path, e.httpMethod, e.hash in w.coalition);
      }
    }
    hide Opens;
    forall i | 0 <= i < |w'.sessions| ensures Backed(w'.keys, w'.sessions[i]) {
      if i < |w.sessions| {
        assert w'.sessions[i] == w.sessions[i] && Backed(w.keys, w.sessions[i]);
        var t := w.sessions[i];
        var k :| 0 <= k < |w.keys| && t == SessionOf(w.keys[k], t.path, t.httpMethod, t.member);
        assert t == SessionOf(w'.keys[k], t.path, t.httpMethod, t.member);
      }
    }
  }

  /** Every request in flight, in every run, belongs to a key whose scopes open its route. */
  lemma {:induction false} SessionsAreBacked(w: World, es: seq<Event>)
    requires AllBacked(w)
    ensures AllBacked(Run(w, es))
    decreases |es|
  {
    if es != [] {
      StepKeepsBacked(w, es[0]);
      hide Step, AllBacked;
      SessionsAreBacked(Step(w, es[0]), es[1..]);
    }
  }

  // ----- the domain gate beside its target rows -----

  /** A caller that is not a global admin may always list, and may never create a root or a domain. */
  lemma UntargetedOperations(auth: AuthContext, target: Option<string>, resolve: string -> Option<string>)
    ensures AuthorizeDomainAccess(auth, ListKeys, target, resolve) == Allowed(None)
    ensures forall op | op == CreateRoot || op == CreateDomain ::
              AuthorizeDomainAccess(auth, op, target, resolve)
              == if auth.allowedDomains.None? && Admin in auth.scopes then Allowed(None) else Refused(403)
    ensures CallerCanReadKey(auth, None) && AuthorizeAdminAction(auth, ListApiKeys)
  {
  }

  /**
   Refusing to decrypt looks the same whether the key has no domain or one the caller lacks; other operations differ.
   */
  lemma RefusalStatuses(auth: AuthContext, op: Operation, key: string, resolve: string -> Option<string>)
    requires NeedsTarget(op)
    ensures var r := AuthorizeDomainAccess(auth, op, Some(key), resolve);
            r.Refused? ==> r.status == if op == DecryptOp || resolve(key).None? then 400 else 403
    ensures var r := AuthorizeDomainAccess(auth, op, None, resolve);
            r == if auth.allowedDomains.None? && Admin in auth.scopes then Allowed(None) else Refused(500)
  {
  }

  // ----- listing -----

  /** The caller is shown the key, as everything but its hash. */
  predicate Shows(auth: AuthContext, e: ApiKeyEntry, info: ApiKeyInfo) {
    && info == ApiKeyInfo(e.id, e.name, e.scopes, e.createdAt, e.active, e.lastUsed, e.allowedDomains)
    && (|| (auth.allowedDomains.None? && Admin in auth.scopes)
        || (&& auth.allowedDomains.Some? && e.allowedDomains.Some?
            && forall d | d in e.allowedDomains.value :: d in auth.allowedDomains.value))
  }

  lemma {:induction false} FilteredExactly(domains: seq<string>, infos: seq<ApiKeyInfo>, info: ApiKeyInfo)
    ensures info in FilterVisible(domains, infos) <==> info in infos && VisibleTo(domains, info)
  {
    if infos != [] {
      FilteredExactly(domains, infos[1..], info);
    }
  }

  /** A listing holds exactly what the caller is shown: all keys for a global admin, else those inside its domains. */
  lemma ListedExactly(auth: AuthContext, keys: seq<ApiKeyEntry>, info: ApiKeyInfo)
    ensures info in Listing(auth, keys) <==> exists i | 0 <= i < |keys| :: Shows(auth, keys[i], info)
  {
    if !IsGlobalAdmin(auth) && auth.allowedDomains.Some? {
      FilteredExactly(auth.allowedDomains.value, Infos(keys), info);
    }
    forall i | 0 <= i < |keys| ensures Infos(keys)[i] == Info(keys[i]) {
    }
    if exists i | 0 <= i < |keys| :: Shows(auth, keys[i], info) {
      var i :| 0 <= i < |keys| && Shows(auth, keys[i], info);
      assert Infos(keys)[i] == info;
    }
    if info in Listing(auth, keys) {
      assert info in Infos(keys);
      var i :| 0 <= i < |keys| && Infos(keys)[i] == info;
      assert Shows(auth, keys[i], info);
    }
  }

  // ----- creating -----

  /** The scope a request names. */
  lemma ScopeNames(name: string)
    ensures ScopeFromString(name) == Some(Read) <==> name == "read"
    ensures ScopeFromString(name) == Some(Encrypt) <==> name == "encrypt"
    ensures ScopeFromString(name) == Some(Manage) <==> name == "manage"
    ensures ScopeFromString(name) == Some(Admin) <==> name == "admin"
  {
  }

  function NameOf(s: Scope): string {
    match s
    case Read => "read"
    case Encrypt => "encrypt"
    case Manage => "manage"
    case Admin => "admin"
  }

  /** A global admin, or a caller that stays inside its own domains and scopes and does not pass on the admin scope. */
  predicate MayGrant(auth: AuthContext, names: seq<string>, domains: Option<seq<string>>) {
    || (auth.allowedDomains.None? && Admin in auth.scopes)
    || (&& domains.Some? && "admin" !in names
        && (auth.allowedDomains.Some? ==> forall d | d in domains.value :: d in auth.allowedDomains.value)
        && forall s | NameOf(s) in names :: s in auth.scopes)
  }

  predicate WellFormed(req: CreateRequest) {
    && req.name != "" && Utf8Length(req.name) <= 100
    && req.scopes != [] && (forall n | n in req.scopes :: n in ["read", "encrypt", "manage", "admin"])
  }

  lemma NamesOfParsed(names: seq<string>)
    ensures ParsedScopes(names).Ok? <==> forall n | n in names :: n in ["read", "encrypt", "manage", "admin"]
    ensures ParsedScopes(names).Ok? ==> forall s :: s in ParsedScopes(names).value <==> NameOf(s) in names
    ensures ParsedScopes(names).Ok? ==> (ParsedScopes(names).value == [] <==> names == [])
  {
    forall n ensures ScopeFromString(n).Some? <==> n in ["read", "encrypt", "manage", "admin"] {
    }
    forall n, s ensures ScopeFromString(n) == Some(s) <==> n == NameOf(s) {
      ScopeNames(n);
    }
    if ParsedScopes(names).Ok? {
      if names != [] {
        assert names[0] in names;
        assert ScopeFromString(names[0]).value in ParsedScopes(names).value;
      }
    }
  }

  /** `s` is named before any mention of `s'`. */
  predicate NamedBefore(names: seq<string>, s: Scope, s': Scope) {
    exists p | 0 <= p < |names| :: names[p] == NameOf(s) && forall q | 0 <= q <= p :: names[q] != NameOf(s')
  }

  lemma StillBefore(front: seq<string>, names: seq<string>, s: Scope, s': Scope)
    requires front <= names && NamedBefore(front, s, s')
    ensures NamedBefore(names, s, s')
  {
    var p :| 0 <= p < |front| && front[p] == NameOf(s) && forall q | 0 <= q <= p :: front[q] != NameOf(s');
    assert names[p] == front[p] && forall q | 0 <= q <= p :: names[q] == front[q];
  }

  lemma NewComesLast(front: seq<string>, names: seq<string>, s: Scope, s': Scope)
    requires front <= names && NameOf(s) in front && NameOf(s') !in front
    ensures NamedBefore(names, s, s')
  {
    var p :| 0 <= p < |front| && front[p] == NameOf(s);
    assert names[p] == front[p] && forall q | 0 <= q <= p :: names[q] == front[q] && front[q] in front;
  }

  /** The scopes are in the order in which the request first names them. */
  lemma {:induction false} ScopesInOrder(names: seq<string>, i: nat, j: nat)
    requires ParsedScopes(names).Ok? && i < j < |ParsedScopes(names).value|
    ensures NamedBefore(names, ParsedScopes(names).value[i], ParsedScopes(names).value[j])
  {
    var front := names[..|names| - 1];
    var before, scopes := ParsedScopes(front).value, ParsedScopes(names).value;
    assert before <= scopes && |scopes| <= |before| + 1;
    NamesOfParsed(front);
    hide NamedBefore, ScopeFromString, NameOf;
    if j < |before| {
      ScopesInOrder(front, i, j);
      StillBefore(front, names, scopes[i], scopes[j]);
    } else {
      assert scopes[i] == before[i] && scopes[j] !in before;
      NewComesLast(front, names, scopes[i], scopes[j]);
    }
  }

  lemma MayGrantExactly(auth: AuthContext, names: seq<string>, scopes: seq<Scope>, domains: Option<seq<string>>)
    requires forall s :: s in scopes <==> NameOf(s) in names
    ensures AuthorizeAdminAction(auth, CreateApiKey(scopes, domains)) <==> MayGrant(auth, names, domains)
  {
    assert Admin in scopes <==> "admin" in names by { assert NameOf(Admin) == "admin"; }
  }

  /**
   Creation, exactly. It is granted if and only if the request is well formed, the caller may grant it, and the domain
   list is non-empty, or absent for an admin key. The store then gains one entry at the end with the given id, hash
   and date, the requested name and domains, active, never used, and each requested scope once.
   */
  lemma CreateExactly(keys: seq<ApiKeyEntry>, auth: AuthContext, req: CreateRequest, keyId: string, keyHash: string,
      now: string)
    ensures var (keys', reply) := CreateSpec(keys, auth, req, keyId, keyHash, now);
            && (reply == Done <==>
                  && WellFormed(req) && MayGrant(auth, req.scopes, req.allowedDomains)
                  && (if req.allowedDomains.Some? then req.allowedDomains.value != [] else "admin" in req.scopes))
            && (reply == Forbidden <==> WellFormed(req) && !MayGrant(auth, req.scopes, req.allowedDomains))
            && (reply != Done ==> keys' == keys)
            && (reply == Done ==>
                  && |keys'| == |keys| + 1 && keys'[..|keys|] == keys
                  && var e := keys'[|keys|];
                     && e.id == keyId && e.name == req.name && e.keyHash == keyHash && e.createdAt == now && e.active
                     && e.lastUsed == None && e.allowedDomains == req.allowedDomains
                     && (forall s :: s in e.scopes <==> NameOf(s) in req.scopes)
                     && (forall i, j | 0 <= i < j < |e.scopes| :: e.scopes[i] != e.scopes[j]))
  {
    NamesOfParsed(req.scopes);
    if WellFormed(req) {
      MayGrantExactly(auth, req.scopes, ParsedScopes(req.scopes).value, req.allowedDomains);
    }
    hide ParsedScopes, MayGrant, AuthorizeAdminAction;
  }

  // ----- revoking -----

  /**
   A global admin, or a caller whose domains include all of the key's; a key without domains must not be an admin's.
   */
  predicate MayRevoke(auth: AuthContext, e: ApiKeyEntry) {
    || (auth.allowedDomains.None? && Admin in auth.scopes)
    || (if e.allowedDomains.None? then Admin !in e.scopes
        else auth.allowedDomains.Some? && forall d | d in e.allowedDomains.value :: d in auth.allowedDomains.value)
  }

  /**
   Revocation, exactly. It is done if and only if some key has the id and the first one is active, the caller may
   revoke it, and, for an admin key, another key is an active admin. Then that entry alone becomes inactive, keeping
   all its other fields; every refusal leaves the store as it was.
   */
  lemma RevokeExactly(keys: seq<ApiKeyEntry>, auth: AuthContext, id: string)
    ensures var (keys', reply) := RevokeSpec(keys, auth, id);
            var i := IndexOfId(keys, id);
            && (reply == Done <==>
                  && i < |keys| && MayRevoke(auth, keys[i]) && keys[i].active
                  && (Admin in keys[i].scopes ==>
                        exists e | e in keys :: e.id != id && e.active && Admin in e.scopes))
            && (reply == Forbidden <==> i < |keys| && !MayRevoke(auth, keys[i]))
            && (reply != Done ==> keys' == keys)
            && (reply == Done ==>
                  && |keys'| == |keys| && (forall j | 0 <= j < |keys| && j != i :: keys'[j] == keys[j])
                  && var e := keys[i];
                     keys'[i] == ApiKeyEntry(e.id, e.name, e.keyHash, e.scopes, e.createdAt, false, e.lastUsed,
                         e.allowedDomains))
  {
    forall e ensures IsOtherAdmin(e, id) <==> e.id != id && e.active && Admin in e.scopes {
    }
  }

  /** Recording a use sets the date of the first key with the id and nothing else; deactivating clears its `active`. */
  lemma UpdatesExactly(keys: seq<ApiKeyEntry>, id: string, now: string, j: nat)
    requires j < |keys|
    ensures |Touched(keys, id, now)| == |Deactivated(keys, id)| == |keys|
    ensures Touched(keys, id, now)[j] == if j == IndexOfId(keys, id) then keys[j].(lastUsed := Some(now)) else keys[j]
    ensures Deactivated(keys, id)[j] == if j == IndexOfId(keys, id) then keys[j].(active := false) else keys[j]
  {
  }

  /** Some key has this hash, and none that has it is active. */
  predicate Dead(keys: seq<ApiKeyEntry>, hash: string) {
    && hash in Hashes(keys)
    && forall i | 0 <= i < |keys| && keys[i].keyHash == hash :: !keys[i].active
  }

  /** No step makes an inactive key active again. */
  lemma InactiveStays(w: World, e: Event)
    ensures |w.keys| <= |Step(w, e).keys|
    ensures forall i | 0 <= i < |w.keys| && !w.keys[i].active :: !Step(w, e).keys[i].active
  {
  }

  lemma StepKeepsDead(w: World, e: Event, hash: string)
    requires Dead(w.keys, hash) && Fresh(w, e)
    ensures Dead(Step(w, e).keys, hash)
  {
    IdentityStays(w, e);
    InactiveStays(w, e);
    var keys' := Step(w, e).keys;
    var i :| 0 <= i < |w.keys| && w.keys[i].keyHash == hash;
    assert keys'[i].keyHash == hash;
    if e.Create? {
      assert forall j | |w.keys| <= j < |keys'| :: keys'[j].keyHash == e.keyHash;
    }
    assert e.Create? || |keys'| == |w.keys|;
  }

  lemma {:induction false} DeadStaysDead(w: World, es: seq<Event>, hash: string)
    requires Dead(w.keys, hash) && FreshRun(w, es)
    ensures SessionFor(Run(w, es).keys, hash) == None
    decreases |es|
  {
    if es != [] {
      StepKeepsDead(w, es[0], hash);
      DeadStaysDead(Step(w, es[0]), es[1..], hash);
    }
  }

  lemma {:induction false} RevokedStaysInactive(w: World, es: seq<Event>, i: nat)
    requires i < |w.keys| && !w.keys[i].active
    ensures i < |Run(w, es).keys| && !Run(w, es).keys[i].active
    decreases |es|
  {
    if es != [] {
      InactiveStays(w, es[0]);
      hide Step;
      RevokedStaysInactive(Step(w, es[0]), es[1..], i);
    }
  }

  /** No other active key has the hash of this one. */
  predicate SoleActive(keys: seq<ApiKeyEntry>, i: nat)
    requires i < |keys|
  {
    forall j | 0 <= j < |keys| && j != i && keys[j].keyHash == keys[i].keyHash :: !keys[j].active
  }

  /**
   Revocation over runs. After a revocation that answered `Done`, in whatever the system does from then on, the entry
   stays inactive; and if no other active key has its hash, and new keys get secrets of their own, that secret
   authenticates to nobody ever again.
   */
  lemma RevocationIsFinal(w: World, session: nat, es: seq<Event>)
    requires session < |w.sessions| && RoutesToRevoke(w.sessions[session])
    requires var s := w.sessions[session]; RevokeSpec(w.keys, s.auth, s.path[|KEY_PREFIX|..]).1 == Done
    ensures var i := IndexOfId(w.keys, w.sessions[session].path[|KEY_PREFIX|..]);
            var w' := Step(w, Revoke(session));
            && i < |Run(w', es).keys| && !Run(w', es).keys[i].active
            && (SoleActive(w.keys, i) && FreshRun(w', es) ==> SessionFor(Run(w', es).keys, w.keys[i].keyHash) == None)
  {
    var s := w.sessions[session];
    var id := s.path[|KEY_PREFIX|..];
    var i := IndexOfId(w.keys, id);
    var w' := Step(w, Revoke(session));
    RevokeExactly(w.keys, s.auth, id);
    assert w'.keys[i].keyHash == w.keys[i].keyHash;
    RevokedStaysInactive(w', es, i);
    if SoleActive(w.keys, i) && FreshRun(w', es) {
      assert w'.keys[i].keyHash in Hashes(w'.keys);
      DeadStaysDead(w', es, w.keys[i].keyHash);
    }
  }

  // ----- startup -----

  /** What startup leaves: the loaded store, or one active global admin key for the configured secret, or nothing. */
  lemma BootstrapExactly(loaded: seq<ApiKeyEntry>, bootstrapHash: Option<string>, now: string)
    ensures loaded != [] ==>
              Bootstrap(loaded, bootstrapHash, now)
              == if forall i | 0 <= i < |loaded| :: loaded[i].allowedDomains.Some? || Admin in loaded[i].scopes
                 then Some(loaded) else None
    ensures loaded == [] && bootstrapHash.None? ==> Bootstrap(loaded, bootstrapHash, now) == Some([])
    ensures loaded == [] && bootstrapHash.Some? ==>
              Bootstrap(loaded, bootstrapHash, now)
              == Some([ApiKeyEntry("ck_bootstrap", "bootstrap-admin", bootstrapHash.value, [Admin], now, true, None,
                 None)])
  {
    BootstrapEstablishesInv(loaded, bootstrapHash, now);
  }

  // ----- names -----

  function CountFrom(s: string, first: int): nat {
    if s == [] then 0 else (if s[0] as int >= first then 1 else 0) + CountFrom(s[1..], first)
  }

  /** A character takes one byte of UTF-8, and one more from U+0080, from U+0800 and from U+10000 on. */
  lemma {:induction false} Utf8LengthExactly(s: string)
    ensures Utf8Length(s) == |s| + CountFrom(s, 0x80) + CountFrom(s, 0x800) + CountFrom(s, 0x1_0000)
  {
    if s != [] {
      Utf8LengthExactly(s[1..]);
    }
  }
}
