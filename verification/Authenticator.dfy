/** API-key authentication: role ordering, tool patterns and access verdicts, over the cache and
    over the bare store. Pattern matching is a parameter. */
module Authentication {
  import opened AuthStore
  import opened AuthCache
  import opened CachedAuthStore

  /** `roleOrder` lists role names as configured; `allowedTools` and `credentials` are per role. */
  datatype Config = Config(roleOrder: seq<string>, allowedTools: map<string, seq<string>>,
                           credentials: map<string, map<string, string>>)

  type Matcher = (string, string) -> bool

  datatype AuthResult =
    | Unauthorized
    | RolesUnavailable
    | Authenticated(name: string, keyLabel: string, roles: seq<string>, tools: seq<string>)

  /** The members of `order` that are in `roles`, in the order of `order`. */
  function Ordered(order: seq<string>, roles: seq<string>): seq<string> {
    if order == [] then []
    else
      var r := order[|order| - 1];
      Ordered(order[..|order| - 1], roles) + (if r in roles then [r] else [])
  }

  function PatternsOf(cfg: Config, role: string): seq<string> {
    if role in cfg.allowedTools then cfg.allowedTools[role] else []
  }

  function Union(cfg: Config, roles: seq<string>): seq<string> {
    if roles == [] then [] else Union(cfg, roles[..|roles| - 1]) + PatternsOf(cfg, roles[|roles| - 1])
  }

  ghost predicate CanAccess(tools: seq<string>, tool: string, matches: Matcher) {
    exists p :: p in tools && matches(p, tool)
  }

  /** What authentication makes of the two answers it gets from its store. */
  function Grant(cfg: Config, lookup: Answer, roles: Answer): AuthResult {
    if !lookup.Found? then Unauthorized
    else if !roles.RoleList? then RolesUnavailable
    else
      var ordered := Ordered(cfg.roleOrder, roles.roles);
      Authenticated(lookup.name, lookup.keyLabel, ordered, Union(cfg, ordered))
  }

  function AuthBare(cfg: Config, t: Tables, h: KeyHash): AuthResult {
    var lookup := Apply(t, LookupByKey(h), NoFault).answer;
    Grant(cfg, lookup, if lookup.Found? then Apply(t, RolesForCaller(lookup.name), NoFault).answer else Done)
  }

  /** Over the cache, with the clock read once per store call. */
  function AuthCached(cfg: Config, c: Cache, t: Tables, ttl: int, h: KeyHash, now: int, now': int, f: Fault, f': Fault): (AuthResult, Cache) {
    var o := CachedApply(c, t, now, ttl, LookupByKey(h), f);
    if o.answer.Found? then
      var o' := CachedApply(o.cache, t, now', ttl, RolesForCaller(o.answer.name), f');
      (Grant(cfg, o.answer, o'.answer), o'.cache)
    else
      (Unauthorized, o.cache)
  }

  // ---------------------------------------------------------------------------------------------

  lemma {:induction false} OrderedMembers(order: seq<string>, roles: seq<string>, r: string)
    ensures r in Ordered(order, roles) <==> r in order && r in roles
  {
    if order != [] {
      OrderedMembers(order[..|order| - 1], roles, r);
      assert order == order[..|order| - 1] + [order[|order| - 1]];
    }
  }

  /** `at` lists the positions of the assigned roles in the configuration, first to last, and `r` the
      roles found there. */
  ghost predicate Positions(order: seq<string>, roles: seq<string>, at: seq<nat>, r: seq<string>) {
    && |at| == |r|
    && (forall k :: 0 <= k < |at| ==> at[k] < |order| && order[at[k]] == r[k])
    && (forall k, l :: 0 <= k < l < |at| ==> at[k] < at[l])
    && (forall i: nat :: i < |order| && order[i] in roles ==> i in at)
  }

  lemma PositionsStep(order: seq<string>, roles: seq<string>, last: string, at: seq<nat>, r: seq<string>)
    requires Positions(order, roles, at, r)
    ensures last in roles ==> Positions(order + [last], roles, at + [|order|], r + [last])
    ensures last !in roles ==> Positions(order + [last], roles, at, r)
  {
    assert forall i: nat :: i in at + [|order|] <==> i in at || i == |order|;
  }

  /** The ordered roles are all assigned roles the configuration lists, in its order. */
  lemma {:induction false} OrderedPositions(order: seq<string>, roles: seq<string>) returns (at: seq<nat>)
    ensures Positions(order, roles, at, Ordered(order, roles))
  {
    at := [];
    if order != [] {
      var n := |order| - 1;
      at := OrderedPositions(order[..n], roles);
      PositionsStep(order[..n], roles, order[n], at, Ordered(order[..n], roles));
      assert order == order[..n] + [order[n]];
      if order[n] in roles {
        at := at + [n];
      }
    }
  }

  lemma {:induction false} UnionMembers(cfg: Config, roles: seq<string>, p: string)
    ensures p in Union(cfg, roles) <==> exists r :: r in roles && p in PatternsOf(cfg, r)
  {
    if roles != [] {
      var front, last := roles[..|roles| - 1], roles[|roles| - 1];
      UnionMembers(cfg, front, p);
      assert roles == front + [last];
      if p in PatternsOf(cfg, last) {
        assert last in roles;
      }
    }
  }

  /** A tool is allowed iff some assigned role that the configuration lists has a matching pattern. */
  lemma VerdictExact(cfg: Config, t: Tables, h: KeyHash, tool: string, matches: Matcher)
    requires h in t.keys
    ensures AuthBare(cfg, t, h).Authenticated?
    ensures CanAccess(AuthBare(cfg, t, h).tools, tool, matches) <==>
            exists r, p :: r in RolesOf(t, t.keys[h].owner) && r in cfg.roleOrder && p in PatternsOf(cfg, r) && matches(p, tool)
  {
    var roles := RolesOf(t, t.keys[h].owner);
    var ordered := Ordered(cfg.roleOrder, roles);
    forall p ensures p in Union(cfg, ordered) <==> exists r :: r in ordered && p in PatternsOf(cfg, r) {
      UnionMembers(cfg, ordered, p);
    }
    forall r ensures r in ordered <==> r in cfg.roleOrder && r in roles {
      OrderedMembers(cfg.roleOrder, roles, r);
    }
  }

  /** Over the store: an unknown key is refused; a known one gets its owner and label, the owner's roles
      that are configured, in configuration order, and the patterns of those. */
  lemma GrantExact(cfg: Config, t: Tables, h: KeyHash) returns (at: seq<nat>)
    ensures h !in t.keys ==> AuthBare(cfg, t, h) == Unauthorized
    ensures h in t.keys ==>
              var r := AuthBare(cfg, t, h);
              && r.Authenticated? && r.name == t.keys[h].owner && r.keyLabel == t.keys[h].keyLabel
              && Positions(cfg.roleOrder, RolesOf(t, t.keys[h].owner), at, r.roles)
              && forall p :: p in r.tools <==> exists role :: role in r.roles && role in cfg.allowedTools && p in cfg.allowedTools[role]
  {
    at := [];
    if h in t.keys {
      at := OrderedPositions(cfg.roleOrder, RolesOf(t, t.keys[h].owner));
      var roles := Ordered(cfg.roleOrder, RolesOf(t, t.keys[h].owner));
      forall p ensures p in Union(cfg, roles) <==> exists role :: role in roles && p in PatternsOf(cfg, role) {
        UnionMembers(cfg, roles, p);
      }
    }
  }

  /** Over the cache, which refusal is given when the database fails: none of its failures matters to a
      hit; a lookup that fails is unauthorized; role rows that cannot be read are unavailable. */
  lemma RefusalExact(cfg: Config, c: Cache, t: Tables, ttl: int, h: KeyHash, now: int, now': int, f: Fault, f': Fault)
    ensures var known := Hit(c, now, LookupByKey(h)) || (h in t.keys && f != FailAt(0));
            var (r, c') := AuthCached(cfg, c, t, ttl, h, now, now', f, f');
            && (r == Unauthorized <==> !known)
            && (known ==>
                  var name := if Hit(c, now, LookupByKey(h)) then c.keys[h].name else t.keys[h].owner;
                  r == RolesUnavailable <==> !Hit(c, now', RolesForCaller(name)) && f' == FailAt(0))
  {
  }

  /** While the live entries agree with the tables, the cache is invisible to authentication, and they
      still agree afterwards. */
  lemma AuthStepAgrees(cfg: Config, c: Cache, t: Tables, ttl: int, h: KeyHash, now: int, now': int)
    requires LiveCoherent(c, t, now) && Indexed(c) && now <= now'
    ensures AuthCached(cfg, c, t, ttl, h, now, now', NoFault, NoFault).0 == AuthBare(cfg, t, h)
    ensures var c' := AuthCached(cfg, c, t, ttl, h, now, now', NoFault, NoFault).1; LiveCoherent(c', t, now') && Indexed(c')
  {
    ReadsAgreeExact(c, t, now, ttl);
    ReadKeepsLive(c, t, now, ttl, LookupByKey(h), NoFault);
    CachedApplyKeepsIndex(c, t, now, ttl, LookupByKey(h), NoFault);
    var o := CachedApply(c, t, now, ttl, LookupByKey(h), NoFault);
    assert o.answer == Apply(t, LookupByKey(h), NoFault).answer;
    LiveLater(o.cache, t, now, now');
    if o.answer.Found? {
      var op := RolesForCaller(o.answer.name);
      ReadsAgreeExact(o.cache, t, now', ttl);
      assert CachedApply(o.cache, t, now', ttl, op, NoFault).answer == Apply(t, op, NoFault).answer;
      ReadKeepsLive(o.cache, t, now', ttl, op, NoFault);
      CachedApplyKeepsIndex(o.cache, t, now', ttl, op, NoFault);
    }
  }

  /** After any history of calls, ticks and flushes on one instance without a stale fault, authenticating
      through the cache gives the name, label, ordered roles and patterns that authenticating against
      the store the same history produced would give. */
  lemma AuthenticationAgrees(cfg: Config, start: Instance, ttl: int, es: seq<Event>, h: KeyHash, now': int)
    requires Sound(start) && NoStaleFault(start, ttl, es) && now' >= RunCached(start, ttl, es).now
    ensures var s := RunCached(start, ttl, es);
            AuthCached(cfg, s.cache, s.tables, ttl, h, s.now, now', NoFault, NoFault).0 == AuthBare(cfg, RunBare(start.tables, es), h)
  {
    RunStaysSound(start, ttl, es);
    var s := RunCached(start, ttl, es);
    AuthStepAgrees(cfg, s.cache, s.tables, ttl, h, s.now, now');
  }

  method CanAccessTool(caller: Caller, tool: string, matches: Matcher) returns (yes: bool)
    ensures yes <==> CanAccess(caller.allowedTools, tool, matches)
  {
    for i := 0 to |caller.allowedTools|
      invariant forall j :: 0 <= j < i ==> !matches(caller.allowedTools[j], tool)
    {
      if matches(caller.allowedTools[i], tool) {
        assert caller.allowedTools[i] in caller.allowedTools;
        return true;
      }
    }
    return false;
  }

  class Authenticator {
    const store: CachedStore
    const cfg: Config

    constructor (store: CachedStore, cfg: Config)
      ensures this.store == store && this.cfg == cfg
    {
      this.store, this.cfg := store, cfg;
    }

    method OrderByConfig(roles: seq<string>) returns (ordered: seq<string>)
      ensures ordered == Ordered(cfg.roleOrder, roles)
    {
      var roleSet := {};
      for i := 0 to |roles|
        invariant roleSet == set r | r in roles[..i]
      {
        assert roles[..i + 1] == roles[..i] + [roles[i]];
        roleSet := roleSet + {roles[i]};
      }
      assert roles[..|roles|] == roles;
      ordered := [];
      for i := 0 to |cfg.roleOrder|
        invariant ordered == Ordered(cfg.roleOrder[..i], roles)
      {
        assert cfg.roleOrder[..i + 1][..i] == cfg.roleOrder[..i];
        if cfg.roleOrder[i] in roleSet {
          ordered := ordered + [cfg.roleOrder[i]];
        }
      }
      assert cfg.roleOrder[..|cfg.roleOrder|] == cfg.roleOrder;
    }

    method UnionAllowedTools(roles: seq<string>) returns (tools: seq<string>)
      ensures tools == Union(cfg, roles)
    {
      tools := [];
      for i := 0 to |roles|
        invariant tools == Union(cfg, roles[..i])
      {
        assert roles[..i + 1][..i] == roles[..i];
        if roles[i] in cfg.allowedTools {
          tools := tools + cfg.allowedTools[roles[i]];
        }
      }
      assert roles[..|roles|] == roles;
    }

    /** The first role with a credential for the upstream wins. */
    method UpstreamToken(roles: seq<string>, upstream: string) returns (ok: bool, token: string)
      ensures ok <==> exists i :: 0 <= i < |roles| && roles[i] in cfg.credentials && upstream in cfg.credentials[roles[i]]
      ensures ok ==> exists i :: 0 <= i < |roles| && roles[i] in cfg.credentials && upstream in cfg.credentials[roles[i]]
                                && token == cfg.credentials[roles[i]][upstream]
                                && forall j :: 0 <= j < i ==> !(roles[j] in cfg.credentials && upstream in cfg.credentials[roles[j]])
    {
      for i := 0 to |roles|
        invariant forall j :: 0 <= j < i ==> !(roles[j] in cfg.credentials && upstream in cfg.credentials[roles[j]])
      {
        if roles[i] in cfg.credentials && upstream in cfg.credentials[roles[i]] {
          return true, cfg.credentials[roles[i]][upstream];
        }
      }
      return false, "";
    }

    /** Overwrites the roles and patterns of the caller object it got, which later hits share. Result,
        object and the store's view are what `AuthCached` says, whatever earlier requests wrote into
        the object; no other cached caller object changes; where the live entries agree with the store, that is what the bare store grants
        (`AuthStepAgrees`). */
    method Authenticate(hash: KeyHash, now: int, now': int, f: Fault, f': Fault) returns (result: AuthResult, caller: Caller?)
      modifies store, set h | h in store.byKeyHash :: store.byKeyHash[h].caller
      ensures store.inner.View() == old(store.inner.View())
      ensures (result, store.View()) == AuthCached(cfg, old(store.View()), old(store.inner.View()), store.ttl, hash, now, now', f, f')
      ensures result.Authenticated? <==> caller != null
      ensures result.Authenticated? ==> result == Authenticated(caller.name, result.keyLabel, caller.roles, caller.allowedTools)
      ensures result.Authenticated? ==> hash in store.byKeyHash && store.byKeyHash[hash].caller == caller
      ensures result.Authenticated? ==>
                if Hit(old(store.View()), now, LookupByKey(hash)) then caller == old(store.byKeyHash)[hash].caller else fresh(caller)
      ensures forall h :: h in store.byKeyHash ==> fresh(store.byKeyHash[h].caller) || (h in old(store.byKeyHash) && store.byKeyHash[h].caller == old(store.byKeyHash)[h].caller)
      ensures forall h :: h in old(store.byKeyHash) && old(store.byKeyHash)[h].caller != caller ==>
                var other := old(store.byKeyHash)[h].caller;
                other.roles == old(store.byKeyHash[h].caller.roles) && other.allowedTools == old(store.byKeyHash[h].caller.allowedTools)
    {
      var found := store.LookupByKey(hash, now, f);
      if found.KeyFailed? {
        return Unauthorized, null;
      }
      var roles := store.RolesForCaller(found.caller.name, now', f');
      if !roles.RoleList? {
        return RolesUnavailable, null;
      }
      caller := found.caller;
      ghost var after := store.View();
      Equip(caller, roles.roles);
      assert store.View() == after;
      result := Authenticated(caller.name, found.keyLabel, caller.roles, caller.allowedTools);
    }

    /** What authentication writes into the caller object. */
    method Equip(caller: Caller, roles: seq<string>)
      modifies caller
      ensures caller.roles == Ordered(cfg.roleOrder, roles) && caller.allowedTools == Union(cfg, caller.roles)
    {
      var ordered := OrderByConfig(roles);
      caller.roles := ordered;
      var tools := UnionAllowedTools(caller.roles);
      caller.allowedTools := tools;
    }
  }

  /** The tables of the scenario below: one caller with one key. */
  function OneCaller(name: string, h: KeyHash, roles: seq<string>): Tables {
    Tables(map[name := roles], map[h := KeyRow(0, name, "")], 1)
  }

  /** Its cache without role lists. */
  function OneKey(name: string, h: KeyHash, ttl: int): Cache {
    Cache(map[h := KeyEntry(name, "", ttl)], map[name := {h}], map[])
  }

  lemma OnlyRole(role: string, roles: seq<string>)
    ensures Ordered([role], roles) == if role in roles then [role] else []
  {
    assert [role][..0] == [];
  }

  lemma FirstGrant(cfg: Config, name: string, role: string, h: KeyHash, ttl: nat)
    requires cfg.roleOrder == [role]
    ensures var (result, c) := AuthCached(cfg, NO_ENTRIES, OneCaller(name, h, []), ttl, h, 0, 0, NoFault, NoFault);
            result.Authenticated? && result.roles == [] && EvictRoles(c, name) == OneKey(name, h, ttl)
  {
    var t, c := OneCaller(name, h, []), OneKey(name, h, ttl);
    assert {} + {h} == {h} && FillKey(NO_ENTRIES, h, name, "", ttl) == c;
    assert CachedApply(NO_ENTRIES, t, 0, ttl, LookupByKey(h), NoFault) == CachedOutcome(c, t, Found(name, ""));
    assert CachedApply(c, t, 0, ttl, RolesForCaller(name), NoFault) == CachedOutcome(FillRoles(c, name, [], ttl), t, RoleList([]));
    OnlyRole(role, []);
    assert EvictRoles(FillRoles(c, name, [], ttl), name) == c;
  }

  lemma SecondGrant(cfg: Config, name: string, role: string, h: KeyHash, ttl: nat)
    requires cfg.roleOrder == [role]
    ensures var result := AuthCached(cfg, OneKey(name, h, ttl), OneCaller(name, h, [role]), ttl, h, 0, 0, NoFault, NoFault).0;
            result.Authenticated? && result.roles == [role]
    ensures Hit(OneKey(name, h, ttl), 0, LookupByKey(h))
  {
    var t, c := OneCaller(name, h, [role]), OneKey(name, h, ttl);
    assert CachedApply(c, t, 0, ttl, LookupByKey(h), NoFault) == CachedOutcome(c, t, Found(name, ""));
    assert CachedApply(c, t, 0, ttl, RolesForCaller(name), NoFault).answer == RoleList([role]);
    OnlyRole(role, [role]);
  }

  /** A store with one caller and its key, without roles. */
  method OneCallerStore(name: string, h: KeyHash, ttl: nat) returns (store: CachedStore)
    ensures fresh(store) && fresh(store.inner) && store.ttl == ttl
    ensures store.inner.View() == OneCaller(name, h, []) && store.View() == NO_ENTRIES && store.byKeyHash == map[]
  {
    var inner := new SQLiteStore();
    store := new CachedStore(inner, ttl);
    var added := store.AddCaller(name, NoFault);
    var keyed := store.AddKey(name, h, "", NoFault);
  }

  /** What the sharing means: a request that was granted nothing holds the role assigned later as soon
      as another request authenticates with the same key. */
  method LaterRequestRewritesEarlier(cfg: Config, name: string, role: string, h: KeyHash, ttl: nat) returns (granted: seq<string>, held: seq<string>)
    requires cfg.roleOrder == [role]
    ensures granted == [] && held == [role]
  {
    var store := OneCallerStore(name, h, ttl);
    var auth := new Authenticator(store, cfg);
    FirstGrant(cfg, name, role, h, ttl);
    var first, caller := auth.Authenticate(h, 0, 0, NoFault, NoFault);
    granted := caller.roles;
    var done := store.AssignRole(name, role, NoFault);
    assert store.inner.View() == OneCaller(name, h, [role]) by {
      assert WithRole([], role) == [role];
      assert map[name := []][name := [role]] == map[name := [role]];
    }
    SecondGrant(cfg, name, role, h, ttl);
    var second, other := auth.Authenticate(h, 0, 0, NoFault, NoFault);
    held := caller.roles;
  }
}
