/** The in-memory cache in front of the store, as a value: what each operation does to it, the
    reverse-index invariant, and the proof that a single gateway instance answers every history
    of calls as the bare store would. */
module AuthCache {
  import opened AuthStore

  datatype KeyEntry = KeyEntry(name: string, keyLabel: string, expiresAt: int)
  datatype RoleEntry = RoleEntry(roles: seq<string>, expiresAt: int)

  /** `index` maps a caller name to the hashes cached for it at some time. */
  datatype Cache = Cache(keys: map<KeyHash, KeyEntry>, index: map<string, set<KeyHash>>, roles: map<string, RoleEntry>)

  const NO_ENTRIES := Cache(map[], map[], map[])

  predicate Live(now: int, expiresAt: int) {
    now <= expiresAt
  }

  function IndexOf(c: Cache, name: string): set<KeyHash> {
    if name in c.index then c.index[name] else {}
  }

  function FillKey(c: Cache, h: KeyHash, name: string, keyLabel: string, expiresAt: int): Cache {
    c.(keys := c.keys[h := KeyEntry(name, keyLabel, expiresAt)],
       index := c.index[name := IndexOf(c, name) + {h}])
  }

  function FillRoles(c: Cache, name: string, roles: seq<string>, expiresAt: int): Cache {
    c.(roles := c.roles[name := RoleEntry(roles, expiresAt)])
  }

  function EvictKeys(c: Cache, name: string): Cache {
    c.(keys := c.keys - IndexOf(c, name), index := c.index - {name})
  }

  function EvictRoles(c: Cache, name: string): Cache {
    c.(roles := c.roles - {name})
  }

  /** The local eviction that follows a successful write. */
  function EvictAfter(c: Cache, op: Op): Cache {
    match op
    case DeleteCaller(name) => EvictRoles(EvictKeys(c, name), name)
    case DeleteKey(name, _) => EvictKeys(c, name)
    case RevokeKey(name, _) => EvictKeys(c, name)
    case AssignRole(name, _) => EvictRoles(c, name)
    case UnassignRole(name, _) => EvictRoles(c, name)
    case EnsureCaller(name, _) => EvictRoles(c, name)
    case _ => c
  }

  /** What other instances are told after a successful write. */
  datatype Notice = Notice(kind: string, name: string)

  const KEYS := "keys"
  const ROLES := "roles"
  const FLUSH := "flush"

  function Notices(op: Op): seq<Notice> {
    match op
    case DeleteCaller(name) => [Notice(KEYS, name), Notice(ROLES, name)]
    case DeleteKey(name, _) => [Notice(KEYS, name)]
    case RevokeKey(name, _) => [Notice(KEYS, name)]
    case AssignRole(name, _) => [Notice(ROLES, name)]
    case UnassignRole(name, _) => [Notice(ROLES, name)]
    case EnsureCaller(name, _) => [Notice(ROLES, name)]
    case _ => []
  }

  datatype CachedOutcome = CachedOutcome(cache: Cache, tables: Tables, answer: Answer)

  /** One call on the cached store. */
  function CachedApply(c: Cache, t: Tables, now: int, ttl: int, op: Op, f: Fault): CachedOutcome {
    var o := Apply(t, op, f);
    match op
    case LookupByKey(h) =>
      if h in c.keys && Live(now, c.keys[h].expiresAt) then
        CachedOutcome(c, t, Found(c.keys[h].name, c.keys[h].keyLabel))
      else if o.answer.Found? then
        CachedOutcome(FillKey(c, h, o.answer.name, o.answer.keyLabel, now + ttl), t, o.answer)
      else
        CachedOutcome(c, t, o.answer)
    case RolesForCaller(name) =>
      if name in c.roles && Live(now, c.roles[name].expiresAt) then
        CachedOutcome(c, t, RoleList(c.roles[name].roles))
      else if o.answer.RoleList? then
        CachedOutcome(FillRoles(c, name, o.answer.roles, now + ttl), t, o.answer)
      else
        CachedOutcome(c, t, o.answer)
    case _ =>
      CachedOutcome(if o.answer.Done? then EvictAfter(c, op) else c, o.tables, o.answer)
  }

  predicate DropsKeys(op: Op) {
    op.DeleteCaller? || op.DeleteKey? || op.RevokeKey?
  }

  predicate ChangesRoles(op: Op) {
    op.DeleteCaller? || op.AssignRole? || op.UnassignRole? || op.EnsureCaller?
  }

  /** Exactly what a successful write evicts: after a write that can drop keys, the hashes indexed under
      its caller; after one that can change roles, the caller's list; nothing else, and nothing changes. */
  lemma EvictAfterExact(c: Cache, op: Op, h: KeyHash, n: string)
    ensures var c' := EvictAfter(c, op);
            && (h in c'.keys <==> h in c.keys && !(DropsKeys(op) && op.name in c.index && h in c.index[op.name]))
            && (h in c'.keys ==> c'.keys[h] == c.keys[h])
            && (n in c'.roles <==> n in c.roles && !(ChangesRoles(op) && n == op.name))
            && (n in c'.roles ==> c'.roles[n] == c.roles[n])
            && (n in c'.index <==> n in c.index && !(DropsKeys(op) && n == op.name))
            && (n in c'.index ==> c'.index[n] == c.index[n])
  {
  }

  /** And what it announces: keys, then roles, of its own caller; nothing after any other call. */
  lemma NoticesExact(op: Op)
    ensures Notices(op) == (if DropsKeys(op) then [Notice("keys", op.name)] else []) + (if ChangesRoles(op) then [Notice("roles", op.name)] else [])
  {
  }

  /** The cached reads. */
  predicate IsLookup(op: Op) {
    op.LookupByKey? || op.RolesForCaller?
  }

  predicate Succeeded(op: Op, a: Answer) {
    (op.LookupByKey? && a.Found?) || (op.RolesForCaller? && a.RoleList?)
  }

  /** The insertion that ends a lookup. */
  function Fill(c: Cache, op: Op, a: Answer, expiresAt: int): Cache
    requires Succeeded(op, a)
  {
    match op
    case LookupByKey(h) => FillKey(c, h, a.name, a.keyLabel, expiresAt)
    case RolesForCaller(name) => FillRoles(c, name, a.roles, expiresAt)
  }

  /** The cache answers this read by itself. */
  predicate Hit(c: Cache, now: int, op: Op) {
    match op
    case LookupByKey(h) => h in c.keys && Live(now, c.keys[h].expiresAt)
    case RolesForCaller(name) => name in c.roles && Live(now, c.roles[name].expiresAt)
    case _ => false
  }

  /** A read in full: a hit answers by itself and leaves the cache alone, whatever the database does; a miss
      answers what the database does, and only a success is entered, with its expiry and under its caller. */
  lemma CachedReadExact(c: Cache, t: Tables, now: int, ttl: int, op: Op, f: Fault)
    requires IsRead(op)
    ensures var o, a := CachedApply(c, t, now, ttl, op, f), Apply(t, op, f).answer;
            && o.tables == t
            && (Hit(c, now, op) ==> o.cache == c)
            && (Hit(c, now, op) && op.LookupByKey? ==> o.answer == Found(c.keys[op.hash].name, c.keys[op.hash].keyLabel))
            && (Hit(c, now, op) && op.RolesForCaller? ==> o.answer == RoleList(c.roles[op.name].roles))
            && (!Hit(c, now, op) ==> o.answer == a)
            && (!Hit(c, now, op) && a.Found? ==>
                  && o.cache.keys == c.keys[op.hash := KeyEntry(a.name, a.keyLabel, now + ttl)] && o.cache.roles == c.roles
                  && o.cache.index == c.index[a.name := (if a.name in c.index then c.index[a.name] else {}) + {op.hash}])
            && (!Hit(c, now, op) && a.RoleList? ==>
                  o.cache.roles == c.roles[op.name := RoleEntry(a.roles, now + ttl)] && o.cache.keys == c.keys && o.cache.index == c.index)
            && (!Hit(c, now, op) && !a.Found? && !a.RoleList? ==> o.cache == c)
  {
  }

  /** What was fetched at `now` is served until now + ttl, whatever has become of the database, and
      fetched again after that. */
  lemma ServedUntilExpiry(c: Cache, t: Tables, now: int, ttl: int, op: Op, f: Fault, t': Tables, now': int, f': Fault)
    requires !Hit(c, now, op)
    requires var a := Apply(t, op, f).answer; a.Found? || a.RoleList?
    ensures var o := CachedApply(c, t, now, ttl, op, f);
            var o' := CachedApply(o.cache, t', now', ttl, op, f');
            && o.answer == Apply(t, op, f).answer
            && o'.answer == (if now' <= now + ttl then o.answer else Apply(t', op, f').answer)
            && (now' <= now + ttl ==> o'.cache == o.cache)
  {
  }

  // ---------------------------------------------------------------------------------------------
  // The reverse index
  // ---------------------------------------------------------------------------------------------

  /** Each cached hash is listed under its own entry's caller; leftovers are allowed. */
  ghost predicate Indexed(c: Cache) {
    forall h :: h in c.keys ==> h in IndexOf(c, c.keys[h].name)
  }

  lemma FillKeyKeepsIndex(c: Cache, h: KeyHash, name: string, keyLabel: string, expiresAt: int)
    requires Indexed(c)
    ensures Indexed(FillKey(c, h, name, keyLabel, expiresAt))
  {
    var c' := FillKey(c, h, name, keyLabel, expiresAt);
    forall g | g in c'.keys ensures g in IndexOf(c', c'.keys[g].name) {
      if g != h {
        assert c'.keys[g] == c.keys[g];
      }
    }
  }

  /** Evicting a caller removes every entry of that caller and keeps the index right for the rest. */
  lemma EvictKeysRemovesAll(c: Cache, name: string)
    requires Indexed(c)
    ensures Indexed(EvictKeys(c, name))
    ensures forall h :: h in EvictKeys(c, name).keys ==> h in c.keys && c.keys[h].name != name && EvictKeys(c, name).keys[h] == c.keys[h]
  {
    var c' := EvictKeys(c, name);
    forall h | h in c'.keys ensures c.keys[h].name != name && h in IndexOf(c', c'.keys[h].name) {
      assert h in IndexOf(c, c.keys[h].name);
    }
  }

  lemma CachedApplyKeepsIndex(c: Cache, t: Tables, now: int, ttl: int, op: Op, f: Fault)
    requires Indexed(c)
    ensures Indexed(CachedApply(c, t, now, ttl, op, f).cache)
  {
    match op
    case LookupByKey(h) =>
      var a := Apply(t, op, f).answer;
      if a.Found? {
        FillKeyKeepsIndex(c, h, a.name, a.keyLabel, now + ttl);
      }
    case DeleteCaller(name) => EvictKeysRemovesAll(c, name);
    case DeleteKey(name, _) => EvictKeysRemovesAll(c, name);
    case RevokeKey(name, _) => EvictKeysRemovesAll(c, name);
    case _ =>
  }

  // ---------------------------------------------------------------------------------------------
  // Coherence of the cache with the tables
  // ---------------------------------------------------------------------------------------------

  predicate KeyAgrees(e: KeyEntry, t: Tables, h: KeyHash) {
    h in t.keys && t.keys[h].owner == e.name && t.keys[h].keyLabel == e.keyLabel
  }

  ghost predicate KeysCoherent(c: Cache, t: Tables) {
    forall h :: h in c.keys ==> KeyAgrees(c.keys[h], t, h)
  }

  ghost predicate RolesCoherent(c: Cache, t: Tables) {
    forall n :: n in c.roles ==> c.roles[n].roles == RolesOf(t, n)
  }

  /** Every entry, expired or not, agrees with the tables. */
  ghost predicate Coherent(c: Cache, t: Tables) {
    KeysCoherent(c, t) && RolesCoherent(c, t)
  }

  /** On a coherent cache, an insertion keeps it coherent iff the tables give the inserted answer. */
  lemma FillExact(c: Cache, t: Tables, op: Op, a: Answer, expiresAt: int)
    requires Coherent(c, t) && Succeeded(op, a)
    ensures Coherent(Fill(c, op, a, expiresAt), t) <==> Apply(t, op, NoFault).answer == a
  {
    var c' := Fill(c, op, a, expiresAt);
    match op
    case LookupByKey(h) =>
      assert c'.keys[h] == KeyEntry(a.name, a.keyLabel, expiresAt);
      assert forall g :: g in c'.keys && g != h ==> c'.keys[g] == c.keys[g];
    case RolesForCaller(name) =>
      assert c'.roles[name] == RoleEntry(a.roles, expiresAt);
      assert forall n :: n in c'.roles && n != name ==> c'.roles[n] == c.roles[n];
  }

  /** The failures that leave a wrong entry behind: the write reports an error, so nothing is
      evicted, although rows behind a cached entry have already changed. Readable off the call,
      the failing statement, the tables and the cache before the call. */
  ghost predicate StaleFault(c: Cache, t: Tables, op: Op, f: Fault) {
    match op
    case DeleteCaller(name) =>
      && f == FailAt(1) && name in t.callers
      && ((exists h :: h in c.keys && c.keys[h].name == name) || (name in c.roles && RolesOf(t, name) != []))
    case DeleteKey(name, id) =>
      f == FailAt(1) && exists h :: h in c.keys && h in KeysWithId(t, name, id)
    case RevokeKey(name, keyLabel) =>
      f == FailAt(1) && exists h :: h in c.keys && h in KeysWithLabel(t, name, keyLabel)
    case UnassignRole(name, role) =>
      f == FailAt(2) && role in RolesOf(t, name) && name in c.roles
    case EnsureCaller(name, defaults) =>
      name !in t.callers && name in c.roles && f.FailAt? && 3 <= f.statement < |defaults| + 2
    case _ => false
  }

  lemma {:induction false} WithRolesNonEmpty(more: seq<string>)
    requires more != []
    ensures WithRoles([], more) != []
  {
    if |more| > 1 {
      WithRolesNonEmpty(more[..|more| - 1]);
    }
  }

  /** Under an unchanged cache only dropped rows and changed roles of the named caller matter. */
  lemma CoherentAfterWrite(c: Cache, t: Tables, op: Op, f: Fault)
    requires Coherent(c, t) && !IsRead(op)
    ensures var t' := Apply(t, op, f).tables;
            Coherent(c, t') <==>
              && (forall h :: h in c.keys ==> h in t'.keys)
              && (op.name in c.roles ==> RolesOf(t', op.name) == RolesOf(t, op.name))
  {
    WriteFrame(t, op, f);
    var t' := Apply(t, op, f).tables;
    if Coherent(c, t') {
      assert forall h :: h in c.keys ==> KeyAgrees(c.keys[h], t', h);
    }
    assert forall h :: h in c.keys ==> KeyAgrees(c.keys[h], t, h);
  }

  /** What a failed unassignment leaves: other rows as they were, and the caller's list changed only
      when the row count was lost after a row was hit. */
  lemma FailedUnassignRoles(t: Tables, name: string, role: string, f: Fault)
    requires !Apply(t, UnassignRole(name, role), f).answer.Done?
    ensures Apply(t, UnassignRole(name, role), f).tables.keys == t.keys
    ensures var t' := Apply(t, UnassignRole(name, role), f).tables;
            RolesOf(t', name) == RolesOf(t, name) <==> !(f == FailAt(2) && role in RolesOf(t, name))
  {
    WithoutRoleSpec(RolesOf(t, name), role);
  }

  lemma FailedUnassignExact(c: Cache, t: Tables, name: string, role: string, f: Fault)
    requires Coherent(c, t) && !Apply(t, UnassignRole(name, role), f).answer.Done?
    ensures Coherent(c, Apply(t, UnassignRole(name, role), f).tables) <==> !StaleFault(c, t, UnassignRole(name, role), f)
  {
    CoherentAfterWrite(c, t, UnassignRole(name, role), f);
    FailedUnassignRoles(t, name, role, f);
    assert forall h :: h in c.keys ==> KeyAgrees(c.keys[h], t, h);
  }

  lemma FailedEnsureExact(c: Cache, t: Tables, name: string, defaults: seq<string>, f: Fault)
    requires Coherent(c, t) && !Apply(t, EnsureCaller(name, defaults), f).answer.Done?
    ensures Coherent(c, Apply(t, EnsureCaller(name, defaults), f).tables) <==> !StaleFault(c, t, EnsureCaller(name, defaults), f)
  {
    CoherentAfterWrite(c, t, EnsureCaller(name, defaults), f);
    if f.FailAt? && 3 <= f.statement < |defaults| + 2 {
      WithRolesNonEmpty(defaults[..f.statement - 2]);
    }
  }

  /** A write that fails: the cache is untouched, so coherence is lost exactly when the tables
      changed under a cached entry. */
  lemma FailedWriteExact(c: Cache, t: Tables, op: Op, f: Fault)
    requires Coherent(c, t) && !IsRead(op) && !Apply(t, op, f).answer.Done?
    ensures Coherent(c, Apply(t, op, f).tables) <==> !StaleFault(c, t, op, f)
  {
    if op.UnassignRole? {
      FailedUnassignExact(c, t, op.name, op.role, f);
    } else if op.EnsureCaller? {
      FailedEnsureExact(c, t, op.name, op.defaults, f);
    } else {
      CoherentAfterWrite(c, t, op, f);
      assert forall h :: h in c.keys ==> KeyAgrees(c.keys[h], t, h);
    }
  }

  lemma DoneWriteKeepsKeys(c: Cache, t: Tables, op: Op, f: Fault)
    requires KeysCoherent(c, t) && Indexed(c) && Apply(t, op, f).answer.Done?
    ensures KeysCoherent(EvictAfter(c, op), Apply(t, op, f).tables)
  {
    WriteFrame(t, op, f);
    if op.DeleteCaller? || op.DeleteKey? || op.RevokeKey? {
      EvictKeysRemovesAll(c, op.name);
    }
  }

  /** A write that succeeds evicts everything it touched. */
  lemma DoneWriteKeepsCoherence(c: Cache, t: Tables, op: Op, f: Fault)
    requires Coherent(c, t) && Indexed(c) && Apply(t, op, f).answer.Done?
    ensures Coherent(EvictAfter(c, op), Apply(t, op, f).tables)
  {
    DoneWriteKeepsKeys(c, t, op, f);
    WriteFrame(t, op, f);
  }

  lemma ReadKeepsCoherence(c: Cache, t: Tables, now: int, ttl: int, op: Op, f: Fault)
    requires Coherent(c, t) && IsRead(op)
    ensures Coherent(CachedApply(c, t, now, ttl, op, f).cache, t)
    ensures CachedApply(c, t, now, ttl, op, f).tables == t
  {
  }

  /** One call keeps all entries in agreement, expired ones included, exactly when it is not a stale
      fault. */
  lemma StepCoherenceExact(c: Cache, t: Tables, now: int, ttl: int, op: Op, f: Fault)
    requires Coherent(c, t) && Indexed(c)
    ensures var o := CachedApply(c, t, now, ttl, op, f);
            Coherent(o.cache, o.tables) <==> !StaleFault(c, t, op, f)
  {
    if IsRead(op) {
      ReadKeepsCoherence(c, t, now, ttl, op, f);
    } else if Apply(t, op, f).answer.Done? {
      DoneWriteKeepsCoherence(c, t, op, f);
    } else {
      FailedWriteExact(c, t, op, f);
    }
  }

  // ---------------------------------------------------------------------------------------------
  // What reads can see of it
  // ---------------------------------------------------------------------------------------------

  /** The part of the cache that answers reads at `now`. */
  function LiveOnly(c: Cache, now: int): Cache {
    c.(keys := map h | h in c.keys && Live(now, c.keys[h].expiresAt) :: c.keys[h],
       roles := map n | n in c.roles && Live(now, c.roles[n].expiresAt) :: c.roles[n])
  }

  ghost predicate LiveCoherent(c: Cache, t: Tables, now: int) {
    Coherent(LiveOnly(c, now), t)
  }

  /** Every read that reaches a working database answers as the database does. */
  ghost predicate ReadsAgree(c: Cache, t: Tables, now: int, ttl: int) {
    forall op :: IsRead(op) ==> CachedApply(c, t, now, ttl, op, NoFault).answer == Apply(t, op, NoFault).answer
  }

  /** Reads agree exactly when the live entries do. */
  lemma ReadsAgreeExact(c: Cache, t: Tables, now: int, ttl: int)
    ensures ReadsAgree(c, t, now, ttl) <==> LiveCoherent(c, t, now)
  {
    var live := LiveOnly(c, now);
    if ReadsAgree(c, t, now, ttl) {
      forall h | h in live.keys ensures KeyAgrees(live.keys[h], t, h) {
        assert CachedApply(c, t, now, ttl, LookupByKey(h), NoFault).answer == Apply(t, LookupByKey(h), NoFault).answer;
      }
      forall n | n in live.roles ensures live.roles[n].roles == RolesOf(t, n) {
        assert CachedApply(c, t, now, ttl, RolesForCaller(n), NoFault).answer == Apply(t, RolesForCaller(n), NoFault).answer;
      }
    } else {
      var op :| IsRead(op) && CachedApply(c, t, now, ttl, op, NoFault).answer != Apply(t, op, NoFault).answer;
      assert op.LookupByKey? ==> op.hash in live.keys && !KeyAgrees(live.keys[op.hash], t, op.hash);
      assert op.RolesForCaller? ==> op.name in live.roles;
    }
  }

  lemma LiveLater(c: Cache, t: Tables, now: int, now': int)
    requires LiveCoherent(c, t, now) && now <= now'
    ensures LiveCoherent(c, t, now')
  {
    var live, live' := LiveOnly(c, now), LiveOnly(c, now');
    assert forall h :: h in live'.keys ==> h in live.keys && live'.keys[h] == live.keys[h];
    assert forall n :: n in live'.roles ==> n in live.roles && live'.roles[n] == live.roles[n];
  }

  /** Eviction does not look at expiry. */
  lemma LiveEvict(c: Cache, op: Op, now: int)
    ensures LiveOnly(EvictAfter(c, op), now) == EvictAfter(LiveOnly(c, now), op)
  {
  }

  lemma ReadKeepsLive(c: Cache, t: Tables, now: int, ttl: int, op: Op, f: Fault)
    requires LiveCoherent(c, t, now) && IsRead(op)
    ensures LiveCoherent(CachedApply(c, t, now, ttl, op, f).cache, t, now)
    ensures CachedApply(c, t, now, ttl, op, f).tables == t
  {
    var live, live' := LiveOnly(c, now), LiveOnly(CachedApply(c, t, now, ttl, op, f).cache, now);
    forall h | h in live'.keys ensures KeyAgrees(live'.keys[h], t, h) {
      assert op != LookupByKey(h) ==> h in live.keys && live'.keys[h] == live.keys[h];
    }
    forall n | n in live'.roles ensures live'.roles[n].roles == RolesOf(t, n) {
      assert op != RolesForCaller(n) ==> n in live.roles && live'.roles[n] == live.roles[n];
    }
  }

  /** From a cache whose live entries agree, one call leaves every later read in agreement exactly when
      it is not a stale fault of the live entries. */
  lemma StepReadsExact(c: Cache, t: Tables, now: int, ttl: int, op: Op, f: Fault)
    requires LiveCoherent(c, t, now) && Indexed(c)
    ensures var o := CachedApply(c, t, now, ttl, op, f);
            LiveCoherent(o.cache, o.tables, now) <==> !StaleFault(LiveOnly(c, now), t, op, f)
  {
    var live := LiveOnly(c, now);
    if IsRead(op) {
      ReadKeepsLive(c, t, now, ttl, op, f);
    } else if Apply(t, op, f).answer.Done? {
      assert Indexed(live);
      DoneWriteKeepsCoherence(live, t, op, f);
      LiveEvict(c, op, now);
    } else {
      FailedWriteExact(live, t, op, f);
    }
  }

  // ---------------------------------------------------------------------------------------------
  // Whole histories on one instance
  // ---------------------------------------------------------------------------------------------

  datatype Event =
    | Tick(elapsed: nat)
    | Call(op: Op, f: Fault)
    | Flush

  datatype Instance = Instance(cache: Cache, tables: Tables, now: int)

  function StepCached(s: Instance, ttl: int, e: Event): (Instance, Answer) {
    match e
    case Tick(elapsed) => (s.(now := s.now + elapsed), Done)
    case Flush => (s.(cache := NO_ENTRIES), Done)
    case Call(op, f) =>
      var o := CachedApply(s.cache, s.tables, s.now, ttl, op, f);
      (Instance(o.cache, o.tables, s.now), o.answer)
  }

  function StepBare(t: Tables, e: Event): (Tables, Answer) {
    match e
    case Call(op, f) => var o := Apply(t, op, f); (o.tables, o.answer)
    case _ => (t, Done)
  }

  function CachedAnswers(s: Instance, ttl: int, es: seq<Event>): (r: seq<Answer>)
    ensures |r| == |es|
    decreases |es|
  {
    if es == [] then []
    else
      var (s', a) := StepCached(s, ttl, es[0]);
      [a] + CachedAnswers(s', ttl, es[1..])
  }

  function BareAnswers(t: Tables, es: seq<Event>): (r: seq<Answer>)
    ensures |r| == |es|
    decreases |es|
  {
    if es == [] then []
    else
      var (t', a) := StepBare(t, es[0]);
      [a] + BareAnswers(t', es[1..])
  }

  /** The state after a history. */
  function RunCached(s: Instance, ttl: int, es: seq<Event>): Instance
    decreases |es|
  {
    if es == [] then s else RunCached(StepCached(s, ttl, es[0]).0, ttl, es[1..])
  }

  function RunBare(t: Tables, es: seq<Event>): Tables
    decreases |es|
  {
    if es == [] then t else RunBare(StepBare(t, es[0]).0, es[1..])
  }

  /** No call of the history is a stale fault of the entries live at the time. In particular this holds
      when every failed write leaves the tables as they were. */
  ghost predicate NoStaleFault(s: Instance, ttl: int, es: seq<Event>)
    decreases |es|
  {
    es != [] ==>
      && (es[0].Call? ==> !StaleFault(LiveOnly(s.cache, s.now), s.tables, es[0].op, es[0].f))
      && NoStaleFault(StepCached(s, ttl, es[0]).0, ttl, es[1..])
  }

  /** The same event with a read that does not fail. */
  function HealRead(e: Event): Event {
    if e.Call? && IsRead(e.op) then e.(f := NoFault) else e
  }

  function HealReads(es: seq<Event>): (r: seq<Event>)
    ensures |r| == |es|
  {
    if es == [] then [] else [HealRead(es[0])] + HealReads(es[1..])
  }

  ghost predicate Sound(s: Instance) {
    LiveCoherent(s.cache, s.tables, s.now) && Indexed(s.cache)
  }

  /** The tables never depend on the cache. */
  lemma StepTables(s: Instance, ttl: int, e: Event)
    ensures StepCached(s, ttl, e).0.tables == StepBare(s.tables, e).0 == StepBare(s.tables, HealRead(e)).0
  {
  }

  lemma StepSoundExact(s: Instance, ttl: int, e: Event)
    requires Sound(s)
    ensures Sound(StepCached(s, ttl, e).0) <==> !(e.Call? && StaleFault(LiveOnly(s.cache, s.now), s.tables, e.op, e.f))
    ensures Indexed(StepCached(s, ttl, e).0.cache)
  {
    match e
    case Tick(elapsed) => LiveLater(s.cache, s.tables, s.now, s.now + elapsed);
    case Flush =>
    case Call(op, f) =>
      StepReadsExact(s.cache, s.tables, s.now, ttl, op, f);
      CachedApplyKeepsIndex(s.cache, s.tables, s.now, ttl, op, f);
  }

  lemma StepAnswers(s: Instance, ttl: int, e: Event)
    requires Sound(s)
    ensures StepCached(s, ttl, e).1 == StepBare(s.tables, e).1 || StepCached(s, ttl, e).1 == StepBare(s.tables, HealRead(e)).1
  {
    if e.Call? && IsRead(e.op) {
      var live := LiveOnly(s.cache, s.now);
      assert e.op.LookupByKey? && e.op.hash in live.keys ==> KeyAgrees(live.keys[e.op.hash], s.tables, e.op.hash);
      assert e.op.RolesForCaller? && e.op.name in live.roles ==> live.roles[e.op.name].roles == RolesOf(s.tables, e.op.name);
    }
  }

  /** Each answer is the one or the other. */
  ghost predicate Agree(a: seq<Answer>, b: seq<Answer>, b': seq<Answer>) {
    |a| == |b| == |b'| && forall i :: 0 <= i < |a| ==> a[i] == b[i] || a[i] == b'[i]
  }

  lemma AgreeCons(x: Answer, y: Answer, y': Answer, a: seq<Answer>, b: seq<Answer>, b': seq<Answer>)
    requires Agree(a, b, b') && (x == y || x == y')
    ensures Agree([x] + a, [y] + b, [y'] + b')
  {
  }

  /** A sound state stays sound, and its tables are those of the bare store. */
  lemma {:induction false} RunStaysSound(s: Instance, ttl: int, es: seq<Event>)
    requires Sound(s) && NoStaleFault(s, ttl, es)
    ensures Sound(RunCached(s, ttl, es))
    ensures RunCached(s, ttl, es).tables == RunBare(s.tables, es)
    ensures RunCached(s, ttl, es).now >= s.now
    decreases |es|
  {
    if es != [] {
      StepSoundExact(s, ttl, es[0]);
      StepTables(s, ttl, es[0]);
      RunStaysSound(StepCached(s, ttl, es[0]).0, ttl, es[1..]);
    }
  }

  /** Sequential refinement. The cached store answers every history as the bare store does; a read
      whose database access would fail is answered either by that failure or, from the cache, by
      what the database would have said. Where reads do not fail the two bare runs coincide. */
  lemma {:induction false} CachedRefinesBare(s: Instance, ttl: int, es: seq<Event>)
    requires Sound(s) && NoStaleFault(s, ttl, es)
    ensures Agree(CachedAnswers(s, ttl, es), BareAnswers(s.tables, es), BareAnswers(s.tables, HealReads(es)))
    decreases |es|
  {
    if es != [] {
      var e, rest := es[0], es[1..];
      StepSoundExact(s, ttl, e);
      StepAnswers(s, ttl, e);
      StepTables(s, ttl, e);
      var (s', a) := StepCached(s, ttl, e);
      CachedRefinesBare(s', ttl, rest);
      assert HealReads(es)[0] == HealRead(e) && HealReads(es)[1..] == HealReads(rest);
      AgreeCons(a, StepBare(s.tables, e).1, StepBare(s.tables, HealRead(e)).1,
                CachedAnswers(s', ttl, rest), BareAnswers(s'.tables, rest), BareAnswers(s'.tables, HealReads(rest)));
    }
  }

  /** At every point of the history, before and after each event, every read would answer as the tables
      do. */
  ghost predicate ReadsAgreeThroughout(s: Instance, ttl: int, es: seq<Event>)
    decreases |es|
  {
    && ReadsAgree(s.cache, s.tables, s.now, ttl)
    && (es != [] ==> ReadsAgreeThroughout(StepCached(s, ttl, es[0]).0, ttl, es[1..]))
  }

  lemma {:induction false} ReadsAgreeThroughoutExact(s: Instance, ttl: int, es: seq<Event>)
    requires Sound(s)
    ensures ReadsAgreeThroughout(s, ttl, es) <==> NoStaleFault(s, ttl, es)
    decreases |es|
  {
    ReadsAgreeExact(s.cache, s.tables, s.now, ttl);
    if es != [] {
      var s' := StepCached(s, ttl, es[0]).0;
      StepSoundExact(s, ttl, es[0]);
      if Sound(s') {
        ReadsAgreeThroughoutExact(s', ttl, es[1..]);
      } else {
        ReadsAgreeExact(s'.cache, s'.tables, s'.now, ttl);
      }
    }
  }

  /** The exact condition of the refinement: over a history every answer agrees with the bare store's,
      and so would every read at any point of it, if and only if no call was a stale fault of the
      entries live at the time. */
  lemma RefinementExact(s: Instance, ttl: int, es: seq<Event>)
    requires Sound(s)
    ensures var agree := Agree(CachedAnswers(s, ttl, es), BareAnswers(s.tables, es), BareAnswers(s.tables, HealReads(es)));
            agree && ReadsAgreeThroughout(s, ttl, es) <==> NoStaleFault(s, ttl, es)
  {
    ReadsAgreeThroughoutExact(s, ttl, es);
    if NoStaleFault(s, ttl, es) {
      CachedRefinesBare(s, ttl, es);
    }
  }

  lemma {:induction false} NothingToHeal(es: seq<Event>)
    requires forall i :: 0 <= i < |es| && es[i].Call? && IsRead(es[i].op) ==> es[i].f == NoFault
    ensures HealReads(es) == es
  {
    if es != [] {
      NothingToHeal(es[1..]);
    }
  }

  /** In particular, while reads reach the database the answers are the same, one by one. */
  lemma CachedEqualsBare(s: Instance, ttl: int, es: seq<Event>)
    requires Sound(s) && NoStaleFault(s, ttl, es)
    requires forall i :: 0 <= i < |es| && es[i].Call? && IsRead(es[i].op) ==> es[i].f == NoFault
    ensures CachedAnswers(s, ttl, es) == BareAnswers(s.tables, es)
  {
    CachedRefinesBare(s, ttl, es);
    NothingToHeal(es);
  }

  /** The reverse index holds in every reachable state, stale faults included. */
  lemma {:induction false} IndexedAlways(s: Instance, ttl: int, es: seq<Event>)
    requires Indexed(s.cache)
    ensures Indexed(RunCached(s, ttl, es).cache)
    decreases |es|
  {
    if es != [] {
      if es[0].Call? {
        CachedApplyKeepsIndex(s.cache, s.tables, s.now, ttl, es[0].op, es[0].f);
      }
      IndexedAlways(StepCached(s, ttl, es[0]).0, ttl, es[1..]);
    }
  }

  /** Without the condition the refinement is false: provisioning a caller fails on its second
      default role, the first one stays, and the empty role list cached earlier is still served. */
  lemma PartialProvisioningIsServedStale(ttl: nat, name: string, r0: string, r1: string)
    ensures var es := [Call(RolesForCaller(name), NoFault),
                       Call(EnsureCaller(name, [r0, r1]), FailAt(3)),
                       Call(RolesForCaller(name), NoFault)];
            var s := Instance(NO_ENTRIES, EMPTY, 0);
            && CachedAnswers(s, ttl, es)[2] == RoleList([])
            && BareAnswers(s.tables, es)[2] == RoleList([r0])
            && !NoStaleFault(s, ttl, es)
  {
    var e0 := Call(RolesForCaller(name), NoFault);
    var e1 := Call(EnsureCaller(name, [r0, r1]), FailAt(3));
    var es := [e0, e1, e0];
    var s := Instance(NO_ENTRIES, EMPTY, 0);
    var c1 := FillRoles(NO_ENTRIES, name, [], ttl);
    assert StepCached(s, ttl, e0).0 == Instance(c1, EMPTY, 0);
    assert [r0, r1][..1] == [r0] && WithRoles([], [r0][..0]) == [];
    var t2 := SetRoles(EMPTY, name, [r0]);
    assert WithRoles([], [r0]) == [r0];
    assert StepCached(Instance(c1, EMPTY, 0), ttl, e1).0 == Instance(c1, t2, 0);
    assert es[1..] == [e1, e0] && es[1..][1..] == [e0];
    assert CachedAnswers(Instance(c1, t2, 0), ttl, [e0])[0] == RoleList([]);
    assert BareAnswers(t2, [e0])[0] == RoleList([r0]);
    assert StaleFault(LiveOnly(c1, 0), EMPTY, e1.op, e1.f);
  }
}
