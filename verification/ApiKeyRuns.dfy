/** What holds of the API-key store over whole runs of requests, and what one scoped admin can reach. */
module ApiKeyRuns {
  import opened Wrappers
  import opened ApiKeys

  /** A request past the authentication layer; `member` is history: its credential belonged to the coalition. */
  datatype Session = Session(auth: AuthContext, path: string, httpMethod: string, member: bool)

  /** `coalition` is history: the credentials of one scoped admin and of every key created with them, transitively. */
  datatype World = World(keys: seq<ApiKeyEntry>, sessions: seq<Session>, coalition: set<string>)

  const KEYS_PATH: string := "/api/auth/keys"
  const KEY_PREFIX: string := "/api/auth/keys/"

  /** The handlers run later than authentication, on the context it left, in any order. */
  datatype Event =
    | Arrive(hash: string, path: string, httpMethod: string)
    | Create(session: nat, req: CreateRequest, keyId: string, keyHash: string, now: string)
    | Revoke(session: nat)
    | Touch(session: nat, now: string)

  function ArriveStep(w: World, hash: string, path: string, httpMethod: string): World {
    var required := RequiredScope(path, httpMethod);
    var auth := SessionFor(w.keys, hash);
    if required.Some? && auth.Some? && HasScope(auth.value.scopes, required.value)
    then w.(sessions := w.sessions + [Session(auth.value, path, httpMethod, hash in w.coalition)])
    else w
  }

  predicate RoutesToCreate(s: Session) {
    s.path == KEYS_PATH && s.httpMethod == "POST"
  }

  predicate RoutesToRevoke(s: Session) {
    StartsWith(s.path, KEY_PREFIX) && s.httpMethod == "DELETE"
  }

  function Step(w: World, e: Event): World {
    match e
    case Arrive(hash, path, httpMethod) => ArriveStep(w, hash, path, httpMethod)
    case Create(i, req, keyId, keyHash, now) =>
      if i < |w.sessions| && RoutesToCreate(w.sessions[i]) then
        var s := w.sessions[i];
        var (keys, reply) := CreateSpec(w.keys, s.auth, req, keyId, keyHash, now);
        w.(keys := keys, coalition := if reply == Done && s.member then w.coalition + {keyHash} else w.coalition)
      else w
    case Revoke(i) =>
      if i < |w.sessions| && RoutesToRevoke(w.sessions[i]) then
        w.(keys := RevokeSpec(w.keys, w.sessions[i].auth, w.sessions[i].path[|KEY_PREFIX|..]).0)
      else w
    case Touch(i, now) =>
      if i < |w.sessions| then w.(keys := Touched(w.keys, w.sessions[i].auth.keyId, now)) else w
  }

  function Run(w: World, es: seq<Event>): World
    decreases |es|
  {
    if es == [] then w else Run(Step(w, es[0]), es[1..])
  }

  // ----- the store invariant over runs -----

  /** Every caller without domains is an admin, and the key routes are only reached with the admin scope. */
  predicate SessionInv(s: Session) {
    && CallerInv(s.auth)
    && (RoutesToCreate(s) || RoutesToRevoke(s) ==> Admin in s.auth.scopes)
  }

  ghost predicate Sound(w: World) {
    && StoreInv(w.keys)
    && forall i | 0 <= i < |w.sessions| :: SessionInv(w.sessions[i])
  }

  lemma KeyRoutesNeedAdmin(s: Session)
    requires RoutesToCreate(s) || RoutesToRevoke(s)
    ensures RequiredScope(s.path, s.httpMethod) == Some(Admin)
  {
    if RoutesToRevoke(s) {
      assert s.path[|"/api/auth/"|] == 'k';
      assert "/api/auth/whoami"[|"/api/auth/"|] == 'w';
      assert StartsWith(s.path, "/api/auth/") by {
        assert KEY_PREFIX[..|"/api/auth/"|] == "/api/auth/";
      }
    }
  }

  lemma ArrivalIsSound(w: World, hash: string, path: string, httpMethod: string)
    requires Sound(w)
    ensures Sound(ArriveStep(w, hash, path, httpMethod))
  {
    var w' := ArriveStep(w, hash, path, httpMethod);
    if w' != w {
      var s := w'.sessions[|w.sessions|];
      var i := IndexOfCredential(w.keys, hash);
      assert EntryInv(w.keys[i]);
      if RoutesToCreate(s) || RoutesToRevoke(s) {
        KeyRoutesNeedAdmin(s);
      }
      assert SessionInv(s);
    }
  }

  lemma TouchKeepsInv(keys: seq<ApiKeyEntry>, id: string, now: string)
    requires StoreInv(keys)
    ensures StoreInv(Touched(keys, id, now))
    ensures HasActiveAdmin(keys) ==> HasActiveAdmin(Touched(keys, id, now))
  {
    var keys' := Touched(keys, id, now);
    assert forall i | 0 <= i < |keys| :: keys'[i] == keys[i].(lastUsed := keys'[i].lastUsed);
  }

  lemma StepIsSound(w: World, e: Event)
    requires Sound(w)
    ensures Sound(Step(w, e)) && (HasActiveAdmin(w.keys) ==> HasActiveAdmin(Step(w, e).keys))
  {
    match e
    case Arrive(hash, path, httpMethod) => ArrivalIsSound(w, hash, path, httpMethod);
    case Create(i, req, keyId, keyHash, now) =>
      if i < |w.sessions| {
        CreateKeepsInv(w.keys, w.sessions[i].auth, req, keyId, keyHash, now);
      }
    case Revoke(i) =>
      if i < |w.sessions| && RoutesToRevoke(w.sessions[i]) {
        RevokeKeepsInv(w.keys, w.sessions[i].auth, w.sessions[i].path[|KEY_PREFIX|..]);
      }
    case Touch(i, now) =>
      if i < |w.sessions| {
        TouchKeepsInv(w.keys, w.sessions[i].auth.keyId, now);
      }
  }

  /**
   From any store startup accepts, every reachable store has no non-admin key without domains, every caller in flight
   satisfies what the domain gate relies on, and active admins never drop from one or more to none.
   */
  lemma {:induction false} RunIsSound(w: World, es: seq<Event>)
    requires Sound(w)
    ensures Sound(Run(w, es)) && (HasActiveAdmin(w.keys) ==> HasActiveAdmin(Run(w, es).keys))
    decreases |es|
  {
    if es != [] {
      StepIsSound(w, es[0]);
      RunIsSound(Step(w, es[0]), es[1..]);
    }
  }

  /** Keys never disappear or change domains, and new ones never have an empty domain list. */
  predicate DomainsKept(before: seq<ApiKeyEntry>, after: seq<ApiKeyEntry>) {
    && |before| <= |after|
    && (forall i | 0 <= i < |before| :: after[i].allowedDomains == before[i].allowedDomains)
    && (forall i | |before| <= i < |after| :: after[i].allowedDomains != Some([]))
  }

  lemma StepKeepsDomains(w: World, e: Event)
    ensures DomainsKept(w.keys, Step(w, e).keys)
  {
  }

  lemma {:induction false} RunKeepsDomains(w: World, es: seq<Event>)
    ensures DomainsKept(w.keys, Run(w, es).keys)
    decreases |es|
  {
    if es != [] {
      StepKeepsDomains(w, es[0]);
      hide Step;
      RunKeepsDomains(Step(w, es[0]), es[1..]);
    }
  }

  /**
   So in every run the gate on a target key lets through only global admins and callers that list the key's domain.
   */
  lemma GateIsTightInRuns(loaded: seq<ApiKeyEntry>, bootstrapHash: Option<string>, now: string, coalition: set<string>,
                          es: seq<Event>,
                          i: nat, op: Operation, target: string, resolve: string -> Option<string>)
    requires Bootstrap(loaded, bootstrapHash, now).Some? && NeedsTarget(op)
    requires var w := Run(World(Bootstrap(loaded, bootstrapHash, now).value, [], coalition), es);
             && i < |w.sessions| && AuthorizeDomainAccess(w.sessions[i].auth, op, Some(target), resolve).Allowed?
    ensures var auth := Run(World(Bootstrap(loaded, bootstrapHash, now).value, [], coalition), es).sessions[i].auth;
            IsGlobalAdmin(auth) || (resolve(target).Some? && Lists(auth, resolve(target).value))
  {
    BootstrapEstablishesInv(loaded, bootstrapHash, now);
    var start := World(Bootstrap(loaded, bootstrapHash, now).value, [], coalition);
    RunIsSound(start, es);
    var w := Run(start, es);
    assert SessionInv(w.sessions[i]);
    DomainAccessExactly(w.sessions[i].auth, op, Some(target), resolve);
  }

  // ----- the last global admin over runs -----

  /** The step is a request to revoke the only active global key, by a global admin, while a scoped admin is active. */
  predicate EndsGlobal(w: World, e: Event) {
    && e.Revoke? && e.session < |w.sessions| && RoutesToRevoke(w.sessions[e.session])
    && EndsGlobalAdmins(w.keys, w.sessions[e.session].auth, w.sessions[e.session].path[|KEY_PREFIX|..])
  }

  lemma StepLosesGlobalExactly(w: World, e: Event)
    requires HasGlobalAdmin(w.keys)
    ensures !HasGlobalAdmin(Step(w, e).keys) <==> EndsGlobal(w, e)
  {
    if e.Revoke? && e.session < |w.sessions| && RoutesToRevoke(w.sessions[e.session]) {
      GlobalLostExactly(w.keys, w.sessions[e.session].auth, w.sessions[e.session].path[|KEY_PREFIX|..]);
    } else {
      var g :| 0 <= g < |w.keys| && IsGlobalKey(w.keys[g]);
      assert IsGlobalKey(Step(w, e).keys[g]);
    }
  }

  predicate GlobalThroughout(w: World, es: seq<Event>)
    decreases |es|
  {
    HasGlobalAdmin(w.keys) && (es != [] ==> GlobalThroughout(Step(w, es[0]), es[1..]))
  }

  predicate NeverEndsGlobal(w: World, es: seq<Event>)
    decreases |es|
  {
    es != [] ==> !EndsGlobal(w, es[0]) && NeverEndsGlobal(Step(w, es[0]), es[1..])
  }

  /** A run keeps some active global admin throughout if and only if no step of it revokes the only one in that way. */
  lemma {:induction false} GlobalSurvivesExactly(w: World, es: seq<Event>)
    requires HasGlobalAdmin(w.keys)
    ensures GlobalThroughout(w, es) <==> NeverEndsGlobal(w, es)
    decreases |es|
  {
    if es != [] {
      StepLosesGlobalExactly(w, es[0]);
      if HasGlobalAdmin(Step(w, es[0]).keys) {
        GlobalSurvivesExactly(Step(w, es[0]), es[1..]);
      }
    }
  }

  predicate NoGlobalInFlight(w: World) {
    forall i | 0 <= i < |w.sessions| :: !IsGlobalAdmin(w.sessions[i].auth)
  }

  lemma LockoutStep(w: World, e: Event)
    requires !HasGlobalAdmin(w.keys) && NoGlobalInFlight(w)
    ensures !HasGlobalAdmin(Step(w, e).keys) && NoGlobalInFlight(Step(w, e))
  {
    var w' := Step(w, e);
    forall i | 0 <= i < |w'.keys| ensures !IsGlobalKey(w'.keys[i]) {
      assert i < |w.keys| ==> !IsGlobalKey(w.keys[i]);
    }
  }

  /** Once no global admin is active and none of their requests is in flight, no run ever brings one back. */
  lemma {:induction false} LockoutIsPermanent(w: World, es: seq<Event>)
    requires !HasGlobalAdmin(w.keys) && NoGlobalInFlight(w)
    ensures !HasGlobalAdmin(Run(w, es).keys)
    decreases |es|
  {
    if es != [] {
      LockoutStep(w, es[0]);
      LockoutIsPermanent(Step(w, es[0]), es[1..]);
    }
  }

  function AdminKey(id: string, hash: string, allowedDomains: Option<seq<string>>): ApiKeyEntry {
    ApiKeyEntry(id, id, hash, [Admin], "", true, None, allowedDomains)
  }

  /**
   It happens: on a store startup accepts, the global admin deletes its own key, and the scoped admin satisfies the
   guard.
   */
  lemma GlobalAdminCanBeLost()
    ensures var loaded := [AdminKey("g", "hg", None), AdminKey("s", "hs", Some(["d"]))];
            var run := [Arrive("hg", "/api/auth/keys/g", "DELETE"), Revoke(0)];
            && Bootstrap(loaded, None, "") == Some(loaded) && HasGlobalAdmin(loaded)
            && !HasGlobalAdmin(Run(World(loaded, [], {}), run).keys)
  {
    var g, s := AdminKey("g", "hg", None), AdminKey("s", "hs", Some(["d"]));
    var loaded := [g, s];
    var path := "/api/auth/keys/g";
    var w := World(loaded, [], {});
    assert IsGlobalKey(loaded[0]) && loaded[0].id == "g";
    assert IndexOfCredential(loaded, "hg") == 0;
    var session := Session(AuthContext("g", "g", [Admin], None), path, "DELETE", false);
    assert path[|KEY_PREFIX|..] == "g" && path[..|KEY_PREFIX|] == KEY_PREFIX;
    KeyRoutesNeedAdmin(session);
    var w1 := Step(w, Arrive("hg", path, "DELETE"));
    assert w1 == World(loaded, [session], {});
    assert IndexOfId(loaded, "g") == 0;
    assert IsOtherAdmin(s, "g") && s in loaded;
    StepLosesGlobalExactly(w1, Revoke(0));
    var run := [Arrive("hg", path, "DELETE"), Revoke(0)];
    assert run[1..] == [Revoke(0)] && run[1..][1..] == [];
  }

  // ----- confinement of a scoped admin -----

  predicate Within(domains: Option<seq<string>>, d: set<string>) {
    domains.Some? && forall x | x in domains.value :: x in d
  }

  predicate ScopesWithin(scopes: seq<Scope>, s: set<Scope>) {
    forall x | x in scopes :: x in s
  }

  /** Uses are recorded on, and revocations find, the first key with an id; that one is inside the domains. */
  predicate IdConfined(keys: seq<ApiKeyEntry>, id: string, d: set<string>) {
    var i := IndexOfId(keys, id);
    i < |keys| ==> Within(keys[i].allowedDomains, d)
  }

  predicate KeyConfined(e: ApiKeyEntry, d: set<string>, s: set<Scope>, coalition: set<string>) {
    e.keyHash in coalition ==> Within(e.allowedDomains, d) && ScopesWithin(e.scopes, s)
  }

  predicate IdsConfined(keys: seq<ApiKeyEntry>, d: set<string>, coalition: set<string>) {
    forall i | 0 <= i < |keys| && keys[i].keyHash in coalition :: IdConfined(keys, keys[i].id, d)
  }

  predicate SessionConfined(t: Session, keys: seq<ApiKeyEntry>, d: set<string>, s: set<Scope>) {
    t.member ==>
      && Within(t.auth.allowedDomains, d) && ScopesWithin(t.auth.scopes, s)
      && IdConfined(keys, t.auth.keyId, d)
  }

  function Ids(keys: seq<ApiKeyEntry>): set<string> {
    set i | 0 <= i < |keys| :: keys[i].id
  }

  /** Every credential and every request of the coalition stays within the domains and the scopes. */
  ghost predicate Confined(w: World, d: set<string>, s: set<Scope>) {
    && Sound(w) && IdsConfined(w.keys, d, w.coalition)
    && (forall i | 0 <= i < |w.keys| :: KeyConfined(w.keys[i], d, s, w.coalition))
    && (forall i | 0 <= i < |w.sessions| :: SessionConfined(w.sessions[i], w.keys, d, s))
    && (forall i | 0 <= i < |w.sessions| :: w.sessions[i].auth.keyId in Ids(w.keys))
  }

  function Hashes(keys: seq<ApiKeyEntry>): set<string> {
    set i | 0 <= i < |keys| :: keys[i].keyHash
  }

  /** A new key gets an id and a secret nobody has. */
  predicate Fresh(w: World, e: Event) {
    e.Create? ==> e.keyId !in Ids(w.keys) && e.keyHash !in Hashes(w.keys) && e.keyHash !in w.coalition
  }

  predicate FreshRun(w: World, es: seq<Event>)
    decreases |es|
  {
    es != [] ==> Fresh(w, es[0]) && FreshRun(Step(w, es[0]), es[1..])
  }

  predicate ByMember(w: World, e: Event) {
    match e
    case Arrive(hash, _, _) => hash in w.coalition
    case Create(i, _, _, _, _) => i < |w.sessions| && w.sessions[i].member
    case Revoke(i) => i < |w.sessions| && w.sessions[i].member
    case Touch(i, _) => i < |w.sessions| && w.sessions[i].member
  }

  /**
   Old keys outside the domains are untouched; new keys are inside them, with some domain and without the admin scope.
   */
  predicate OnlyInside(before: seq<ApiKeyEntry>, after: seq<ApiKeyEntry>, d: set<string>, s: set<Scope>) {
    && |before| <= |after|
    && (forall i | 0 <= i < |before| :: Within(before[i].allowedDomains, d) || after[i] == before[i])
    && (forall i | 0 <= i < |before| :: after[i].allowedDomains == before[i].allowedDomains)
    && (forall i | |before| <= i < |after| ::
          Within(after[i].allowedDomains, d) && after[i].allowedDomains != Some([])
          && ScopesWithin(after[i].scopes, s - {Admin}))
  }

  /** Two stores that differ only in what `active` and `last_used` say. */
  predicate SameKeys(keys: seq<ApiKeyEntry>, keys': seq<ApiKeyEntry>) {
    && |keys| == |keys'|
    && forall i | 0 <= i < |keys| ::
         keys'[i] == keys[i].(active := keys'[i].active, lastUsed := keys'[i].lastUsed)
  }

  lemma SameKeysSameIndex(keys: seq<ApiKeyEntry>, keys': seq<ApiKeyEntry>, id: string)
    requires SameKeys(keys, keys')
    ensures IndexOfId(keys', id) == IndexOfId(keys, id)
  {
    var i, j := IndexOfId(keys, id), IndexOfId(keys', id);
    assert i < |keys| ==> keys'[i].id == id;
    assert j < |keys| ==> keys[j].id == id;
  }

  lemma SameKeysSameId(keys: seq<ApiKeyEntry>, keys': seq<ApiKeyEntry>, id: string, d: set<string>)
    requires SameKeys(keys, keys')
    ensures IdConfined(keys', id, d) <==> IdConfined(keys, id, d)
  {
    SameKeysSameIndex(keys, keys', id);
  }

  lemma SameKeysKeepConfined(w: World, keys': seq<ApiKeyEntry>, d: set<string>, s: set<Scope>)
    requires Confined(w, d, s) && SameKeys(w.keys, keys') && StoreInv(keys')
    ensures Confined(w.(keys := keys'), d, s)
  {
    assert forall i | 0 <= i < |keys'| :: keys'[i].id == w.keys[i].id && keys'[i].keyHash == w.keys[i].keyHash
                                          && keys'[i].scopes == w.keys[i].scopes
                                          && keys'[i].allowedDomains == w.keys[i].allowedDomains;
    forall id | id in Ids(w.keys) ensures id in Ids(keys') {
      var i :| 0 <= i < |w.keys| && w.keys[i].id == id;
      assert keys'[i].id == id;
    }
    forall i | 0 <= i < |keys'| ensures KeyConfined(keys'[i], d, s, w.coalition) {
      assert KeyConfined(w.keys[i], d, s, w.coalition);
    }
    forall i | 0 <= i < |keys'| && keys'[i].keyHash in w.coalition ensures IdConfined(keys', keys'[i].id, d) {
      SameKeysSameId(w.keys, keys', w.keys[i].id, d);
    }
    forall i | 0 <= i < |w.sessions| ensures SessionConfined(w.sessions[i], keys', d, s) {
      assert SessionConfined(w.sessions[i], w.keys, d, s);
      SameKeysSameId(w.keys, keys', w.sessions[i].auth.keyId, d);
    }
  }

  lemma ArriveKeepsConfined(w: World, hash: string, path: string, httpMethod: string, d: set<string>, s: set<Scope>)
    requires Confined(w, d, s)
    ensures Confined(ArriveStep(w, hash, path, httpMethod), d, s)
  {
    ArrivalIsSound(w, hash, path, httpMethod);
    var w' := ArriveStep(w, hash, path, httpMethod);
    if w' != w {
      var k := IndexOfCredential(w.keys, hash);
      assert KeyConfined(w.keys[k], d, s, w.coalition);
      assert SessionConfined(w'.sessions[|w.sessions|], w.keys, d, s);
    }
  }

  /** What a scoped admin's creation adds. */
  lemma CreatedIsInside(keys: seq<ApiKeyEntry>, auth: AuthContext, req: CreateRequest, keyId: string, keyHash: string,
                        now: string,
                        d: set<string>, s: set<Scope>)
    requires Within(auth.allowedDomains, d) && ScopesWithin(auth.scopes, s)
    ensures var (keys', reply) := CreateSpec(keys, auth, req, keyId, keyHash, now);
            OnlyInside(keys, keys', d, s)
  {
  }

  lemma OldIdStays(keys: seq<ApiKeyEntry>, keys': seq<ApiKeyEntry>, id: string)
    requires keys <= keys' && id in Ids(keys)
    ensures IndexOfId(keys', id) == IndexOfId(keys, id) < |keys|
  {
    assert forall i | 0 <= i < |keys| :: keys'[i] == keys[i];
    var i, j := IndexOfId(keys, id), IndexOfId(keys', id);
    assert i < |keys| && keys'[i].id == id;
    assert j <= i && keys[j].id == id;
  }

  lemma GrownKeepsConfined(w: World, keys': seq<ApiKeyEntry>, coalition': set<string>, d: set<string>, s: set<Scope>)
    requires Confined(w, d, s) && StoreInv(keys')
    requires w.keys <= keys' && |keys'| <= |w.keys| + 1
    requires |keys'| > |w.keys| ==>
               var e := keys'[|w.keys|];
               && e.id !in Ids(w.keys) && e.keyHash !in Hashes(w.keys) && e.keyHash !in w.coalition
               && (coalition' == w.coalition
                   || (coalition' == w.coalition + {e.keyHash} && Within(e.allowedDomains, d)
                       && ScopesWithin(e.scopes, s)))
    requires |keys'| == |w.keys| ==> coalition' == w.coalition
    ensures Confined(w.(keys := keys', coalition := coalition'), d, s)
  {
    assert forall i | 0 <= i < |w.keys| :: keys'[i] == w.keys[i] && w.keys[i].id in Ids(w.keys);
    forall i | 0 <= i < |keys'| && keys'[i].keyHash in coalition' ensures IdConfined(keys', keys'[i].id, d) {
      if i < |w.keys| {
        assert w.keys[i].id in Ids(w.keys) && w.keys[i].keyHash in Hashes(w.keys);
        OldIdStays(w.keys, keys', w.keys[i].id);
      } else {
        assert IndexOfId(keys', keys'[i].id) == i;
      }
    }
    forall i | 0 <= i < |keys'| ensures KeyConfined(keys'[i], d, s, coalition') {
      if i < |w.keys| {
        assert KeyConfined(w.keys[i], d, s, w.coalition) && w.keys[i].keyHash in Hashes(w.keys);
      }
    }
    forall i | 0 <= i < |w.sessions| ensures SessionConfined(w.sessions[i], keys', d, s) {
      assert SessionConfined(w.sessions[i], w.keys, d, s) && w.sessions[i].auth.keyId in Ids(w.keys);
      OldIdStays(w.keys, keys', w.sessions[i].auth.keyId);
    }
    forall id | id in Ids(w.keys) ensures id in Ids(keys') {
      var i :| 0 <= i < |w.keys| && w.keys[i].id == id;
      assert keys'[i].id == id;
    }
  }

  lemma CreateKeepsConfined(w: World, e: Event, d: set<string>, s: set<Scope>)
    requires Confined(w, d, s) && e.Create? && Fresh(w, e)
    ensures Confined(Step(w, e), d, s)
  {
    StepIsSound(w, e);
    var w' := Step(w, e);
    if w' != w {
      var t := w.sessions[e.session];
      CreateKeepsInv(w.keys, t.auth, e.req, e.keyId, e.keyHash, e.now);
      if t.member {
        assert SessionConfined(t, w.keys, d, s);
        CreatedIsInside(w.keys, t.auth, e.req, e.keyId, e.keyHash, e.now, d, s);
      }
      GrownKeepsConfined(w, w'.keys, w'.coalition, d, s);
    }
  }

  lemma RevokeTouchSameKeys(w: World, e: Event)
    requires e.Revoke? || e.Touch?
    ensures SameKeys(w.keys, Step(w, e).keys) && Step(w, e) == w.(keys := Step(w, e).keys)
  {
  }

  lemma StepKeepsConfined(w: World, e: Event, d: set<string>, s: set<Scope>)
    requires Confined(w, d, s) && Fresh(w, e)
    ensures Confined(Step(w, e), d, s)
  {
    StepIsSound(w, e);
    hide SameKeys, StoreInv, RevokeSpec, CreateSpec;
    match e
    case Arrive(hash, path, httpMethod) => ArriveKeepsConfined(w, hash, path, httpMethod, d, s);
    case Create(_, _, _, _, _) => CreateKeepsConfined(w, e, d, s);
    case Revoke(_) =>
      RevokeTouchSameKeys(w, e);
      SameKeysKeepConfined(w, Step(w, e).keys, d, s);
    case Touch(_, _) =>
      RevokeTouchSameKeys(w, e);
      SameKeysKeepConfined(w, Step(w, e).keys, d, s);
  }

  lemma RevokedIsInside(keys: seq<ApiKeyEntry>, auth: AuthContext, id: string, d: set<string>, s: set<Scope>)
    requires StoreInv(keys) && Within(auth.allowedDomains, d)
    ensures OnlyInside(keys, RevokeSpec(keys, auth, id).0, d, s)
  {
    var i := IndexOfId(keys, id);
    if i < |keys| {
      assert EntryInv(keys[i]);
    }
  }

  /** One step by a member of the coalition stays inside its domains. */
  lemma MemberStepIsInside(w: World, e: Event, d: set<string>, s: set<Scope>)
    requires Confined(w, d, s) && Fresh(w, e) && ByMember(w, e)
    ensures OnlyInside(w.keys, Step(w, e).keys, d, s)
  {
    match e
    case Arrive(_, _, _) =>
    case Create(i, req, keyId, keyHash, now) =>
      assert SessionConfined(w.sessions[i], w.keys, d, s);
      CreatedIsInside(w.keys, w.sessions[i].auth, req, keyId, keyHash, now, d, s);
    case Revoke(i) =>
      var t := w.sessions[i];
      assert SessionConfined(t, w.keys, d, s);
      if RoutesToRevoke(t) {
        RevokedIsInside(w.keys, t.auth, t.path[|KEY_PREFIX|..], d, s);
      }
    case Touch(i, _) =>
      assert SessionConfined(w.sessions[i], w.keys, d, s);
  }

  /** Every step of the run that a member takes stays inside. */
  predicate MembersStayInside(w: World, es: seq<Event>, d: set<string>, s: set<Scope>)
    decreases |es|
  {
    es != [] ==>
      && (ByMember(w, es[0]) ==> OnlyInside(w.keys, Step(w, es[0]).keys, d, s))
      && MembersStayInside(Step(w, es[0]), es[1..], d, s)
  }

  /**
   Scoped-admin confinement over runs. Start with one key, or several, inside the domains D with scopes S. Whatever
   everyone does, in every interleaving, each step taken with those keys or with any key created by them,
   transitively, leaves all keys not wholly inside D exactly as they were, and adds only keys with a non-empty domain
   list inside D and scopes in S other than Admin; and the coalition never obtains a key outside these bounds.
   */
  lemma {:induction false} ScopedAdminIsConfined(w: World, es: seq<Event>, d: set<string>, s: set<Scope>)
    requires Confined(w, d, s) && FreshRun(w, es)
    ensures MembersStayInside(w, es, d, s) && Confined(Run(w, es), d, s)
    decreases |es|
  {
    if es != [] {
      StepKeepsConfined(w, es[0], d, s);
      if ByMember(w, es[0]) {
        MemberStepIsInside(w, es[0], d, s);
      }
      ScopedAdminIsConfined(Step(w, es[0]), es[1..], d, s);
    }
  }

  predicate AllByMembers(w: World, es: seq<Event>)
    decreases |es|
  {
    es != [] ==> ByMember(w, es[0]) && AllByMembers(Step(w, es[0]), es[1..])
  }

  lemma OnlyInsideTransitive(a: seq<ApiKeyEntry>, b: seq<ApiKeyEntry>, c: seq<ApiKeyEntry>, d: set<string>,
                             s: set<Scope>)
    requires OnlyInside(a, b, d, s) && OnlyInside(b, c, d, s)
    requires forall i | |a| <= i < |b| :: ScopesWithin(c[i].scopes, s - {Admin})
    ensures OnlyInside(a, c, d, s)
  {
  }

  lemma ScopesStay(w: World, e: Event)
    ensures |w.keys| <= |Step(w, e).keys|
    ensures forall i | 0 <= i < |w.keys| :: Step(w, e).keys[i].scopes == w.keys[i].scopes
  {
  }

  /** Nobody else has the secret of this key. */
  predicate OnlyHolder(keys: seq<ApiKeyEntry>, k: nat)
    requires k < |keys|
  {
    forall i | 0 <= i < |keys| && keys[i].keyHash == keys[k].keyHash :: i == k
  }

  /** A store with one key's credential is where such a run may start. */
  lemma ConfinementStarts(keys: seq<ApiKeyEntry>, k: nat, d: set<string>, s: set<Scope>)
    requires StoreInv(keys) && k < |keys| && OnlyHolder(keys, k)
    requires Within(keys[k].allowedDomains, d) && ScopesWithin(keys[k].scopes, s) && IdConfined(keys, keys[k].id, d)
    ensures Confined(World(keys, [], {keys[k].keyHash}), d, s)
  {
  }

  const WHOAMI: string := "/api/auth/whoami"

  /** One request with the credential, and the record of its use at a date other than `not`. */
  function UseOnce(hash: string, not: Option<string>): seq<Event> {
    [Arrive(hash, WHOAMI, "GET"), Touch(0, if not == Some("a") then "b" else "a")]
  }

  /** Using the key once changes the first key with its id, which may be another one. */
  lemma UseTouchesFirst(keys: seq<ApiKeyEntry>, k: nat, d: set<string>, s: set<Scope>)
    requires k < |keys| && OnlyHolder(keys, k) && keys[k].active && Admin in keys[k].scopes
    requires !IdConfined(keys, keys[k].id, d)
    ensures var run := UseOnce(keys[k].keyHash, keys[IndexOfId(keys, keys[k].id)].lastUsed);
            var w := World(keys, [], {keys[k].keyHash});
            FreshRun(w, run) && !MembersStayInside(w, run, d, s)
  {
    var e := keys[k];
    var i := IndexOfId(keys, e.id);
    var run := UseOnce(e.keyHash, keys[i].lastUsed);
    var w := World(keys, [], {e.keyHash});
    assert IndexOfCredential(keys, e.keyHash) == k;
    var session := Session(AuthContext(e.id, e.name, e.scopes, e.allowedDomains), WHOAMI, "GET", true);
    var w1 := Step(w, run[0]);
    assert RequiredScope(WHOAMI, "GET") == Some(Read);
    assert w1 == w.(sessions := [session]);
    assert run[1..] == [run[1]];
    assert Step(w1, run[1]).keys[i] != keys[i];
    assert !OnlyInside(w1.keys, Step(w1, run[1]).keys, d, s);
    assert ByMember(w1, run[1]);
    hide Step, OnlyInside;
    assert !MembersStayInside(w1, [run[1]], d, s);
    assert FreshRun(Step(w1, run[1]), []) && FreshRun(w1, [run[1]]);
  }

  /**
   The exact condition. A loaded store may repeat an id. From a sound store, the key of a scoped admin inside the
   domains and scopes, with a secret of its own, confines every run if and only if the first key with its id is inside
   the domains too; otherwise its own requests are booked on a key outside them.
   */
  lemma ConfinedExactly(keys: seq<ApiKeyEntry>, k: nat, d: set<string>, s: set<Scope>)
    requires StoreInv(keys) && k < |keys| && OnlyHolder(keys, k) && keys[k].active && Admin in keys[k].scopes
    requires Within(keys[k].allowedDomains, d) && ScopesWithin(keys[k].scopes, s)
    ensures Within(keys[IndexOfId(keys, keys[k].id)].allowedDomains, d) <==>
              forall es | FreshRun(World(keys, [], {keys[k].keyHash}), es) ::
                MembersStayInside(World(keys, [], {keys[k].keyHash}), es, d, s)
  {
    var w := World(keys, [], {keys[k].keyHash});
    assert IndexOfId(keys, keys[k].id) <= k;
    if IdConfined(keys, keys[k].id, d) {
      ConfinementStarts(keys, k, d, s);
      forall es | FreshRun(w, es) ensures MembersStayInside(w, es, d, s) {
        ScopedAdminIsConfined(w, es, d, s);
      }
    } else {
      UseTouchesFirst(keys, k, d, s);
    }
  }

  /**
   A loaded store may repeat an id, and then a scoped admin's own requests are booked on a key outside its domains.
   */
  lemma SharedIdIsTouched(now: string)
    ensures var loaded := [AdminKey("x", "hb", Some(["b"])), AdminKey("x", "ha", Some(["a"]))];
            var w := World(loaded, [], {"ha"});
            var run := [Arrive("ha", "/api/auth/whoami", "GET"), Touch(0, now)];
            && Bootstrap(loaded, None, "") == Some(loaded)
            && AllByMembers(w, run) && !OnlyInside(loaded, Run(w, run).keys, {"a"}, {Admin})
  {
    var loaded := [AdminKey("x", "hb", Some(["b"])), AdminKey("x", "ha", Some(["a"]))];
    var w := World(loaded, [], {"ha"});
    var run := [Arrive("ha", "/api/auth/whoami", "GET"), Touch(0, now)];
    assert IndexOfCredential(loaded[1..], "ha") == 0;
    assert IndexOfCredential(loaded, "ha") == 1;
    var session := Session(AuthContext("x", "x", [Admin], Some(["a"])), "/api/auth/whoami", "GET", true);
    assert RequiredScope("/api/auth/whoami", "GET") == Some(Read);
    var w1 := Step(w, run[0]);
    assert w1 == World(loaded, [session], {"ha"});
    assert run[1..] == [Touch(0, now)] && run[1..][1..] == [];
    var keys := Step(w1, run[1]).keys;
    assert keys[0].lastUsed == Some(now);
    assert Run(Step(w1, run[1]), []) == Step(w1, run[1]);
    assert Run(w1, run[1..]) == Step(w1, run[1]);
    assert Run(w, run) == Step(w1, run[1]);
    assert "b" in ["b"] && !Within(Some(["b"]), {"a"});
  }

  /** In a run of the coalition alone the whole effect on the store, first to last, is inside its domains. */
  lemma {:induction false} CoalitionRunIsInside(w: World, es: seq<Event>, d: set<string>, s: set<Scope>)
    requires Confined(w, d, s) && FreshRun(w, es) && AllByMembers(w, es)
    ensures OnlyInside(w.keys, Run(w, es).keys, d, s)
    ensures forall i | 0 <= i < |w.keys| :: Run(w, es).keys[i].scopes == w.keys[i].scopes
    decreases |es|
  {
    if es != [] {
      StepKeepsConfined(w, es[0], d, s);
      MemberStepIsInside(w, es[0], d, s);
      ScopesStay(w, es[0]);
      hide Confined, ByMember, Step;
      var w' := Step(w, es[0]);
      CoalitionRunIsInside(w', es[1..], d, s);
      OnlyInsideTransitive(w.keys, w'.keys, Run(w, es).keys, d, s);
    }
  }
}
