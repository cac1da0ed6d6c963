/** Bounded staleness under full interleaving. A lookup is split into its clock read, cache read,
    database read and cache insertion; between these steps anything may happen: other lookups,
    writes by any instance, evictions and flushes of any cache at any time, or no eviction at all
    when a notification is lost. */
module Staleness {
  import opened AuthStore
  import opened AuthCache

  datatype Version = Version(since: int, tables: Tables)

  datatype Phase = Started | Missed | Fetched(answer: Answer) | Returned(answer: Answer)

  /** A lookup on instance i that read the clock at t. */
  datatype Lookup = Lookup(i: nat, op: Op, t: int, phase: Phase)

  /** `history` lists every state the database has had, with the instant it began. */
  datatype World = World(clock: int, history: seq<Version>, caches: seq<Cache>, lookups: map<nat, Lookup>)

  datatype Step =
    | Advance(elapsed: nat)
    | Write(op: Op, f: Fault)
    | EvictKeysOn(i: nat, name: string)
    | EvictRolesOn(i: nat, name: string)
    | FlushOn(i: nat)
    | Begin(id: nat, i: nat, op: Op)
    | ReadCache(id: nat)
    | ReadStore(id: nat, f: Fault)
    | Insert(id: nat)

  function Current(w: World): Tables
    requires w.history != []
  {
    w.history[|w.history| - 1].tables
  }

  /** What the cache answers at time t, if anything. */
  function CacheHit(c: Cache, op: Op, t: int): Phase
    requires IsLookup(op)
  {
    match op
    case LookupByKey(h) =>
      if h in c.keys && Live(t, c.keys[h].expiresAt) then Returned(Found(c.keys[h].name, c.keys[h].keyLabel)) else Missed
    case RolesForCaller(name) =>
      if name in c.roles && Live(t, c.roles[name].expiresAt) then Returned(RoleList(c.roles[name].roles)) else Missed
  }

  predicate At(w: World, id: nat, phase: Phase) {
    id in w.lookups && w.lookups[id].phase == phase
  }

  predicate Enabled(w: World, a: Step) {
    w.history != [] &&
    match a
    case Advance(_) => true
    case Write(op, _) => !IsRead(op)
    case EvictKeysOn(i, _) => i < |w.caches|
    case EvictRolesOn(i, _) => i < |w.caches|
    case FlushOn(i) => i < |w.caches|
    case Begin(id, i, op) => id !in w.lookups && i < |w.caches| && IsLookup(op)
    case ReadCache(id) => At(w, id, Started) && w.lookups[id].i < |w.caches| && IsLookup(w.lookups[id].op)
    case ReadStore(id, _) => At(w, id, Missed)
    case Insert(id) =>
      && id in w.lookups && w.lookups[id].phase.Fetched? && w.lookups[id].i < |w.caches|
      && Succeeded(w.lookups[id].op, w.lookups[id].phase.answer)
  }

  function SetPhase(w: World, id: nat, phase: Phase): World
    requires id in w.lookups
  {
    w.(lookups := w.lookups[id := w.lookups[id].(phase := phase)])
  }

  function SetCache(w: World, i: nat, c: Cache): World
    requires i < |w.caches|
  {
    w.(caches := w.caches[i := c])
  }

  function Next(w: World, ttl: int, a: Step): (w': World)
    requires Enabled(w, a)
    ensures |w'.caches| == |w.caches| && |w'.history| >= |w.history|
  {
    match a
    case Advance(elapsed) => w.(clock := w.clock + elapsed)
    case Write(op, f) => w.(history := w.history + [Version(w.clock, Apply(Current(w), op, f).tables)])
    case EvictKeysOn(i, name) => SetCache(w, i, EvictKeys(w.caches[i], name))
    case EvictRolesOn(i, name) => SetCache(w, i, EvictRoles(w.caches[i], name))
    case FlushOn(i) => SetCache(w, i, NO_ENTRIES)
    case Begin(id, i, op) => w.(lookups := w.lookups[id := Lookup(i, op, w.clock, Started)])
    case ReadCache(id) =>
      var l := w.lookups[id];
      SetPhase(w, id, CacheHit(w.caches[l.i], l.op, l.t))
    case ReadStore(id, f) =>
      var l := w.lookups[id];
      var answer := Apply(Current(w), l.op, f).answer;
      SetPhase(w, id, if Succeeded(l.op, answer) then Fetched(answer) else Returned(answer))
    case Insert(id) =>
      var l := w.lookups[id];
      var w' := SetCache(w, l.i, Fill(w.caches[l.i], l.op, l.phase.answer, l.t + ttl));
      SetPhase(w', id, Returned(l.phase.answer))
  }

  ghost predicate IsRun(w: World, ttl: int, steps: seq<Step>)
    decreases |steps|
  {
    steps != [] ==> Enabled(w, steps[0]) && IsRun(Next(w, ttl, steps[0]), ttl, steps[1..])
  }

  function Run(w: World, ttl: int, steps: seq<Step>): (w': World)
    requires IsRun(w, ttl, steps)
    ensures |w'.caches| == |w.caches| && |w'.history| >= |w.history|
    decreases |steps|
  {
    if steps == [] then w else Run(Next(w, ttl, steps[0]), ttl, steps[1..])
  }

  // ---------------------------------------------------------------------------------------------

  /** The last instant at which version k was the database. */
  function EndOf(w: World, k: nat): int
    requires k < |w.history|
  {
    if k + 1 < |w.history| then w.history[k + 1].since else w.clock
  }

  predicate Gives(w: World, k: nat, op: Op, a: Answer)
    requires k < |w.history|
  {
    Apply(w.history[k].tables, op, NoFault).answer == a
  }

  /** The database really held this answer at some instant no earlier than `from`. */
  ghost predicate HeldSince(w: World, from: int, op: Op, a: Answer) {
    exists k :: 0 <= k < |w.history| && Gives(w, k, op, a) && from <= EndOf(w, k)
  }

  /** A negative ttl disables the cache, so the bound is never tighter than the clock read. */
  function Slack(ttl: int): nat {
    if ttl > 0 then ttl else 0
  }

  ghost predicate KeyFresh(w: World, ttl: int, h: KeyHash, e: KeyEntry) {
    HeldSince(w, e.expiresAt - ttl, LookupByKey(h), Found(e.name, e.keyLabel))
  }

  ghost predicate RolesFresh(w: World, ttl: int, n: string, e: RoleEntry) {
    HeldSince(w, e.expiresAt - ttl, RolesForCaller(n), RoleList(e.roles))
  }

  ghost predicate CacheFresh(w: World, ttl: int, c: Cache) {
    && (forall h :: h in c.keys ==> KeyFresh(w, ttl, h, c.keys[h]))
    && (forall n :: n in c.roles ==> RolesFresh(w, ttl, n, c.roles[n]))
  }

  ghost predicate LookupFresh(w: World, ttl: int, l: Lookup) {
    && IsLookup(l.op) && l.t <= w.clock
    && (l.phase.Fetched? ==> Succeeded(l.op, l.phase.answer) && HeldSince(w, l.t, l.op, l.phase.answer))
    && (l.phase.Returned? && Succeeded(l.op, l.phase.answer) ==> HeldSince(w, l.t - Slack(ttl), l.op, l.phase.answer))
  }

  ghost predicate Inv(w: World, ttl: int) {
    && w.history != []
    && (forall i :: 0 <= i < |w.caches| ==> CacheFresh(w, ttl, w.caches[i]))
    && (forall id :: id in w.lookups ==> LookupFresh(w, ttl, w.lookups[id]))
  }

  /** Time has passed and versions may have been added. */
  ghost predicate Later(w: World, w': World) {
    && w.history != [] && w.history <= w'.history && w.clock <= w'.clock
    && (forall k :: 0 <= k < |w.history| ==> EndOf(w, k) <= EndOf(w', k))
  }

  lemma HeldLater(w: World, w': World, from: int, op: Op, a: Answer)
    requires Later(w, w') && HeldSince(w, from, op, a)
    ensures HeldSince(w', from, op, a)
  {
    var k :| 0 <= k < |w.history| && Gives(w, k, op, a) && from <= EndOf(w, k);
    assert Gives(w', k, op, a) && EndOf(w, k) <= EndOf(w', k);
  }

  lemma CacheFreshLater(w: World, w': World, ttl: int, c: Cache)
    requires Later(w, w') && CacheFresh(w, ttl, c)
    ensures CacheFresh(w', ttl, c)
  {
    forall h | h in c.keys ensures KeyFresh(w', ttl, h, c.keys[h]) {
      assert KeyFresh(w, ttl, h, c.keys[h]);
      HeldLater(w, w', c.keys[h].expiresAt - ttl, LookupByKey(h), Found(c.keys[h].name, c.keys[h].keyLabel));
    }
    forall n | n in c.roles ensures RolesFresh(w', ttl, n, c.roles[n]) {
      assert RolesFresh(w, ttl, n, c.roles[n]);
      HeldLater(w, w', c.roles[n].expiresAt - ttl, RolesForCaller(n), RoleList(c.roles[n].roles));
    }
  }

  lemma LookupFreshLater(w: World, w': World, ttl: int, l: Lookup)
    requires Later(w, w') && LookupFresh(w, ttl, l)
    ensures LookupFresh(w', ttl, l)
  {
    if l.phase.Fetched? {
      HeldLater(w, w', l.t, l.op, l.phase.answer);
    } else if l.phase.Returned? && Succeeded(l.op, l.phase.answer) {
      HeldLater(w, w', l.t - Slack(ttl), l.op, l.phase.answer);
    }
  }

  /** A successful database read returns what the database holds now. */
  lemma ReadIsCurrent(w: World, op: Op, f: Fault, from: int)
    requires w.history != [] && IsLookup(op) && Succeeded(op, Apply(Current(w), op, f).answer) && from <= w.clock
    ensures HeldSince(w, from, op, Apply(Current(w), op, f).answer)
  {
    assert Gives(w, |w.history| - 1, op, Apply(Current(w), op, f).answer);
  }

  /** The lookup a step moves stays fresh. */
  lemma MovedLookupFresh(w: World, ttl: int, a: Step)
    requires Inv(w, ttl) && Enabled(w, a) && (a.ReadCache? || a.ReadStore? || a.Insert?)
    ensures LookupFresh(w, ttl, Next(w, ttl, a).lookups[a.id])
  {
    var l := w.lookups[a.id];
    assert LookupFresh(w, ttl, l);
    match a
    case ReadCache(id) =>
      var c := w.caches[l.i];
      assert CacheFresh(w, ttl, c);
      var phase := CacheHit(c, l.op, l.t);
      if phase.Returned? {
        var from := if l.op.LookupByKey? then c.keys[l.op.hash].expiresAt - ttl else c.roles[l.op.name].expiresAt - ttl;
        assert l.op.LookupByKey? ==> KeyFresh(w, ttl, l.op.hash, c.keys[l.op.hash]);
        assert l.op.RolesForCaller? ==> RolesFresh(w, ttl, l.op.name, c.roles[l.op.name]);
        assert HeldSince(w, from, l.op, phase.answer);
        var k :| 0 <= k < |w.history| && Gives(w, k, l.op, phase.answer) && from <= EndOf(w, k);
        assert HeldSince(w, l.t - Slack(ttl), l.op, phase.answer);
      }
    case ReadStore(id, f) =>
      if Succeeded(l.op, Apply(Current(w), l.op, f).answer) {
        ReadIsCurrent(w, l.op, f, l.t);
      }
    case Insert(id) =>
      var k :| 0 <= k < |w.history| && Gives(w, k, l.op, l.phase.answer) && l.t <= EndOf(w, k);
      assert HeldSince(w, l.t - Slack(ttl), l.op, l.phase.answer);
  }

  lemma FillKeyFresh(w: World, ttl: int, c: Cache, h: KeyHash, name: string, keyLabel: string, t: int)
    requires CacheFresh(w, ttl, c) && HeldSince(w, t, LookupByKey(h), Found(name, keyLabel))
    ensures CacheFresh(w, ttl, FillKey(c, h, name, keyLabel, t + ttl))
  {
    assert KeyFresh(w, ttl, h, KeyEntry(name, keyLabel, t + ttl));
  }

  lemma FillRolesFresh(w: World, ttl: int, c: Cache, n: string, roles: seq<string>, t: int)
    requires CacheFresh(w, ttl, c) && HeldSince(w, t, RolesForCaller(n), RoleList(roles))
    ensures CacheFresh(w, ttl, FillRoles(c, n, roles, t + ttl))
  {
    assert RolesFresh(w, ttl, n, RoleEntry(roles, t + ttl));
  }

  lemma FillKeepsFresh(w: World, ttl: int, c: Cache, op: Op, a: Answer, t: int)
    requires CacheFresh(w, ttl, c) && Succeeded(op, a) && HeldSince(w, t, op, a)
    ensures CacheFresh(w, ttl, Fill(c, op, a, t + ttl))
  {
    match op
    case LookupByKey(h) => FillKeyFresh(w, ttl, c, h, a.name, a.keyLabel, t);
    case RolesForCaller(n) => FillRolesFresh(w, ttl, c, n, a.roles, t);
  }

  lemma EvictKeepsFresh(w: World, ttl: int, c: Cache, name: string)
    requires CacheFresh(w, ttl, c)
    ensures CacheFresh(w, ttl, EvictKeys(c, name)) && CacheFresh(w, ttl, EvictRoles(c, name))
  {
  }

  lemma InsertCachesFresh(w: World, ttl: int, id: nat, i: nat)
    requires Enabled(w, Insert(id)) && i < |w.caches| && CacheFresh(w, ttl, w.caches[i]) && LookupFresh(w, ttl, w.lookups[id])
    ensures CacheFresh(w, ttl, Next(w, ttl, Insert(id)).caches[i])
  {
    var l := w.lookups[id];
    if i == l.i {
      FillKeepsFresh(w, ttl, w.caches[i], l.op, l.phase.answer, l.t);
    }
  }

  /** The caches a step leaves are fresh. */
  lemma CachesFresh(w: World, ttl: int, a: Step, i: nat)
    requires Enabled(w, a) && i < |w.caches| && CacheFresh(w, ttl, w.caches[i])
    requires a.Insert? ==> LookupFresh(w, ttl, w.lookups[a.id])
    ensures CacheFresh(w, ttl, Next(w, ttl, a).caches[i])
  {
    if a.Insert? {
      InsertCachesFresh(w, ttl, a.id, i);
    } else if a.EvictKeysOn? || a.EvictRolesOn? {
      EvictKeepsFresh(w, ttl, w.caches[i], a.name);
    }
  }

  lemma StepKeepsInv(w: World, ttl: int, a: Step)
    requires Inv(w, ttl) && Enabled(w, a)
    ensures Inv(Next(w, ttl, a), ttl)
  {
    var w' := Next(w, ttl, a);
    assert Later(w, w');
    forall i | 0 <= i < |w'.caches| ensures CacheFresh(w', ttl, w'.caches[i]) {
      CachesFresh(w, ttl, a, i);
      CacheFreshLater(w, w', ttl, w'.caches[i]);
    }
    forall id | id in w'.lookups ensures LookupFresh(w', ttl, w'.lookups[id]) {
      if (a.ReadCache? || a.ReadStore? || a.Insert?) && id == a.id {
        MovedLookupFresh(w, ttl, a);
      }
      LookupFreshLater(w, w', ttl, w'.lookups[id]);
    }
  }

  lemma {:induction false} RunKeepsInv(w: World, ttl: int, steps: seq<Step>)
    requires Inv(w, ttl) && IsRun(w, ttl, steps)
    ensures Inv(Run(w, ttl, steps), ttl)
    decreases |steps|
  {
    if steps != [] {
      StepKeepsInv(w, ttl, steps[0]);
      RunKeepsInv(Next(w, ttl, steps[0]), ttl, steps[1..]);
    }
  }

  function Fresh(clock: int, t: Tables, n: nat): World {
    World(clock, [Version(clock, t)], seq(n, _ => NO_ENTRIES), map[])
  }

  /** In every interleaving, a successful lookup that read the clock at t returns what the database
      held at some instant no earlier than t - ttl (than t, for a negative ttl). */
  lemma BoundedStaleness(clock: int, t: Tables, n: nat, ttl: int, steps: seq<Step>, id: nat)
    requires IsRun(Fresh(clock, t, n), ttl, steps)
    requires id in Run(Fresh(clock, t, n), ttl, steps).lookups
    ensures var w := Run(Fresh(clock, t, n), ttl, steps);
            var l := w.lookups[id];
            l.phase.Returned? && Succeeded(l.op, l.phase.answer) ==> HeldSince(w, l.t - Slack(ttl), l.op, l.phase.answer)
  {
    RunKeepsInv(Fresh(clock, t, n), ttl, steps);
  }

  /** A lookup with nothing between its steps is one call on the cached store. */
  lemma UninterruptedIsCachedApply(w: World, ttl: int, id: nat, i: nat, op: Op, f: Fault)
    requires Enabled(w, Begin(id, i, op))
    ensures var o := CachedApply(w.caches[i], Current(w), w.clock, ttl, op, f);
            var w1 := Next(w, ttl, Begin(id, i, op));
            && Enabled(w1, ReadCache(id)) && var w2 := Next(w1, ttl, ReadCache(id));
            if w2.lookups[id].phase.Returned? then o == CachedOutcome(w2.caches[i], Current(w2), w2.lookups[id].phase.answer)
            else
              && Enabled(w2, ReadStore(id, f)) && var w3 := Next(w2, ttl, ReadStore(id, f));
              if w3.lookups[id].phase.Returned? then o == CachedOutcome(w3.caches[i], Current(w3), w3.lookups[id].phase.answer)
              else
                && Enabled(w3, Insert(id)) && var w4 := Next(w3, ttl, Insert(id));
                w4.lookups[id].phase.Returned? && o == CachedOutcome(w4.caches[i], Current(w4), w4.lookups[id].phase.answer)
  {
  }

  lemma StepKeepsIndexed(w: World, ttl: int, a: Step, i: nat)
    requires Enabled(w, a) && i < |w.caches| && Indexed(w.caches[i])
    ensures Indexed(Next(w, ttl, a).caches[i])
  {
    var c := w.caches[i];
    match a
    case Insert(id) =>
      var l := w.lookups[id];
      if l.op.LookupByKey? {
        FillKeyKeepsIndex(c, l.op.hash, l.phase.answer.name, l.phase.answer.keyLabel, l.t + ttl);
      }
    case EvictKeysOn(_, name) => EvictKeysRemovesAll(c, name);
    case _ =>
  }

  /** The reverse index holds in every interleaving, also after lost notifications let a hash move
      between callers and leave an entry behind in the index of the former. */
  lemma {:induction false} IndexedInEveryInterleaving(w: World, ttl: int, steps: seq<Step>)
    requires IsRun(w, ttl, steps) && forall i :: 0 <= i < |w.caches| ==> Indexed(w.caches[i])
    ensures forall i :: 0 <= i < |w.caches| ==> Indexed(Run(w, ttl, steps).caches[i])
    decreases |steps|
  {
    if steps != [] {
      var w' := Next(w, ttl, steps[0]);
      forall i | 0 <= i < |w'.caches| ensures Indexed(w'.caches[i]) {
        StepKeepsIndexed(w, ttl, steps[0], i);
      }
      IndexedInEveryInterleaving(w', ttl, steps[1..]);
    }
  }

  lemma RunCons(w: World, ttl: int, a: Step, w': World, rest: seq<Step>)
    requires Enabled(w, a) && Next(w, ttl, a) == w' && IsRun(w', ttl, rest)
    ensures IsRun(w, ttl, [a] + rest) && Run(w, ttl, [a] + rest) == Run(w', ttl, rest)
  {
    assert ([a] + rest)[1..] == rest;
  }

  /** The world of the race below, with its one lookup in a given phase. */
  function Race(h: KeyHash, history: seq<Version>, c: Cache, phase: Phase): World {
    World(0, history, [c], map[0 := Lookup(0, LookupByKey(h), 0, phase)])
  }

  lemma RaceBefore(h: KeyHash, name: string, keyLabel: string, ttl: nat, t: Tables, rest: seq<Step>)
    requires t == Tables(map[name := []], map[h := KeyRow(0, name, keyLabel)], 1)
    requires IsRun(Race(h, [Version(0, t)], NO_ENTRIES, Fetched(Found(name, keyLabel))), ttl, rest)
    ensures var steps := [Begin(0, 0, LookupByKey(h))] + ([ReadCache(0)] + ([ReadStore(0, NoFault)] + rest));
            && IsRun(Fresh(0, t, 1), ttl, steps)
            && Run(Fresh(0, t, 1), ttl, steps) == Run(Race(h, [Version(0, t)], NO_ENTRIES, Fetched(Found(name, keyLabel))), ttl, rest)
  {
    var v := [Version(0, t)];
    var w0, w1, w2 := Fresh(0, t, 1), Race(h, v, NO_ENTRIES, Started), Race(h, v, NO_ENTRIES, Missed);
    RunCons(w2, ttl, ReadStore(0, NoFault), Race(h, v, NO_ENTRIES, Fetched(Found(name, keyLabel))), rest);
    RunCons(w1, ttl, ReadCache(0), w2, [ReadStore(0, NoFault)] + rest);
    RunCons(w0, ttl, Begin(0, 0, LookupByKey(h)), w1, [ReadCache(0)] + ([ReadStore(0, NoFault)] + rest));
  }

  lemma RaceAfter(h: KeyHash, name: string, keyLabel: string, ttl: nat, t: Tables)
    requires t == Tables(map[name := []], map[h := KeyRow(0, name, keyLabel)], 1)
    ensures var w := Race(h, [Version(0, t)], NO_ENTRIES, Fetched(Found(name, keyLabel)));
            var steps := [Write(RevokeKey(name, keyLabel), NoFault)] + ([EvictKeysOn(0, name)] + ([Insert(0)] + []));
            && IsRun(w, ttl, steps)
            && var w' := Run(w, ttl, steps);
               h !in Current(w').keys && h in w'.caches[0].keys && Live(w'.clock, w'.caches[0].keys[h].expiresAt)
  {
    var found := Found(name, keyLabel);
    var revoke := RevokeKey(name, keyLabel);
    var t' := Apply(t, revoke, NoFault).tables;
    assert h in KeysWithLabel(t, name, keyLabel) && h !in t'.keys;
    var w3 := Race(h, [Version(0, t)], NO_ENTRIES, Fetched(found));
    var w4 := Race(h, [Version(0, t), Version(0, t')], NO_ENTRIES, Fetched(found));
    var c := FillKey(NO_ENTRIES, h, name, keyLabel, ttl);
    var w6 := Race(h, [Version(0, t), Version(0, t')], c, Returned(found));
    RunCons(w4, ttl, Insert(0), w6, []);
    assert EvictKeys(NO_ENTRIES, name) == NO_ENTRIES;
    RunCons(w4, ttl, EvictKeysOn(0, name), w4, [Insert(0)] + []);
    RunCons(w3, ttl, Write(revoke, NoFault), w4, [EvictKeysOn(0, name)] + ([Insert(0)] + []));
  }

  /** Agreement does not survive this interleaving: a fill that races a revocation leaves an entry for
      a revoked key behind the eviction meant to remove it. */
  lemma RacingFillOutlivesEviction(h: KeyHash, name: string, keyLabel: string, ttl: nat)
    ensures var t := Tables(map[name := []], map[h := KeyRow(0, name, keyLabel)], 1);
            var steps := [Begin(0, 0, LookupByKey(h)), ReadCache(0), ReadStore(0, NoFault),
                          Write(RevokeKey(name, keyLabel), NoFault), EvictKeysOn(0, name), Insert(0)];
            && IsRun(Fresh(0, t, 1), ttl, steps)
            && var w := Run(Fresh(0, t, 1), ttl, steps);
               h !in Current(w).keys && h in w.caches[0].keys && Live(w.clock, w.caches[0].keys[h].expiresAt)
  {
    var t := Tables(map[name := []], map[h := KeyRow(0, name, keyLabel)], 1);
    var rest := [Write(RevokeKey(name, keyLabel), NoFault)] + ([EvictKeysOn(0, name)] + ([Insert(0)] + []));
    RaceAfter(h, name, keyLabel, ttl, t);
    RaceBefore(h, name, keyLabel, ttl, t, rest);
    assert [Begin(0, 0, LookupByKey(h))] + ([ReadCache(0)] + ([ReadStore(0, NoFault)] + rest)) ==
           [Begin(0, 0, LookupByKey(h)), ReadCache(0), ReadStore(0, NoFault),
            Write(RevokeKey(name, keyLabel), NoFault), EvictKeysOn(0, name), Insert(0)];
  }

  /** Exactly when the last step of a lookup goes wrong: on a coherent cache, inserting what was fetched
      keeps it coherent iff the database still gives that answer. */
  lemma InsertCoherentExact(w: World, ttl: int, id: nat)
    requires Enabled(w, Insert(id)) && Coherent(w.caches[w.lookups[id].i], Current(w))
    ensures var l := w.lookups[id];
            var w' := Next(w, ttl, Insert(id));
            Coherent(w'.caches[l.i], Current(w')) <==> Apply(Current(w), l.op, NoFault).answer == l.phase.answer
  {
    var l := w.lookups[id];
    FillExact(w.caches[l.i], Current(w), l.op, l.phase.answer, l.t + ttl);
  }
}
