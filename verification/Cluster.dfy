/** A cluster of instances that share one database and exchange messages delivered in any order. Nothing
    is lost; every statement may fail. */
module Clusters {
  import opened AuthStore
  import opened AuthCache
  import opened ColonSeparated
  import opened Invalidation

  /** What a lookup on instance i has read from the database and not yet inserted. */
  datatype Fetched = Fetched(i: nat, op: Op, answer: Answer)

  /** The provisioning of a new caller that has inserted its row and has these default roles to go. */
  datatype Provisioning = Provisioning(name: string, rest: seq<string>)

  /** `outbox` holds payloads whose sending goroutine has not run yet, `inbox[i]` those sent and not
      yet handled by instance i. */
  datatype Cluster = Cluster(tables: Tables, caches: seq<Cache>, outbox: multiset<string>, inbox: seq<multiset<string>>,
                             fetched: map<nat, Fetched>, provisioning: map<nat, Provisioning>)

  /** A lookup is one step, or a fetch and an insertion with anything between. A write commits in one
      step, except that provisioning commits its statements one by one and announces at the end; local
      eviction, the sending of notices and their handling by each instance are separate steps. */
  datatype Step =
    | Read(i: nat, op: Op, f: Fault, now: int, ttl: int)
    | Fetch(id: nat, i: nat, op: Op)
    | Insert(id: nat, expiresAt: int)
    | Write(op: Op, f: Fault)
    | EnsureBegin(id: nat, name: string, defaults: seq<string>, lostCount: bool)
    | EnsureRole(id: nat)
    | EnsureFail(id: nat)
    | EnsureEnd(id: nat)
    | Evict(i: nat, op: Op)
    | FlushInstance(i: nat)
    | Send(payload: string)
    | Deliver(i: nat, payload: string)

  predicate Enabled(s: Cluster, a: Step) {
    |s.inbox| == |s.caches| &&
    match a
    case Read(i, op, _, _, _) => i < |s.caches| && IsRead(op)
    case Fetch(id, i, op) => id !in s.fetched && i < |s.caches| && IsLookup(op) && Succeeded(op, Apply(s.tables, op, NoFault).answer)
    case Insert(id, _) => id in s.fetched && s.fetched[id].i < |s.caches| && Succeeded(s.fetched[id].op, s.fetched[id].answer)
    case Write(op, f) => !IsRead(op) && !op.EnsureCaller?
    case EnsureBegin(id, _, _, _) => id !in s.provisioning
    case EnsureRole(id) => id in s.provisioning && s.provisioning[id].rest != []
    case EnsureFail(id) => id in s.provisioning && s.provisioning[id].rest != []
    case EnsureEnd(id) => id in s.provisioning && s.provisioning[id].rest == []
    case Evict(i, _) => i < |s.caches|
    case FlushInstance(i) => i < |s.caches|
    case Send(payload) => payload in s.outbox
    case Deliver(i, payload) => i < |s.caches| && payload in s.inbox[i]
  }

  function Broadcast(inbox: seq<multiset<string>>, payload: string): seq<multiset<string>> {
    seq(|inbox|, i requires 0 <= i < |inbox| => inbox[i] + multiset{payload})
  }

  function Next(s: Cluster, a: Step): (s': Cluster)
    requires Enabled(s, a)
    ensures |s'.caches| == |s.caches| && |s'.inbox| == |s.inbox|
  {
    match a
    case Read(i, op, f, now, ttl) =>
      s.(caches := s.caches[i := CachedApply(s.caches[i], s.tables, now, ttl, op, f).cache])
    case Fetch(id, i, op) =>
      s.(fetched := s.fetched[id := Fetched(i, op, Apply(s.tables, op, NoFault).answer)])
    case Insert(id, expiresAt) =>
      var l := s.fetched[id];
      s.(caches := s.caches[l.i := Fill(s.caches[l.i], l.op, l.answer, expiresAt)], fetched := s.fetched - {id})
    case Write(op, f) =>
      var o := Apply(s.tables, op, f);
      s.(tables := o.tables, outbox := if o.answer.Done? then s.outbox + Payloads(Notices(op)) else s.outbox)
    case EnsureBegin(id, name, defaults, lostCount) =>
      var t := if name in s.tables.callers then s.tables else SetRoles(s.tables, name, []);
      if name in s.tables.callers || lostCount then s.(tables := t, outbox := s.outbox + multiset{Encode(ROLES, name)})
      else s.(tables := t, provisioning := s.provisioning[id := Provisioning(name, defaults)])
    case EnsureRole(id) =>
      // a caller deleted in the meantime has no row to refer to: SQLite's OR IGNORE passes over that,
      // with Postgres the statement fails, which is EnsureFail
      var e := s.provisioning[id];
      s.(tables := if e.name in s.tables.callers then SetRoles(s.tables, e.name, WithRole(s.tables.callers[e.name], e.rest[0])) else s.tables,
         provisioning := s.provisioning[id := Provisioning(e.name, e.rest[1..])])
    case EnsureFail(id) => s.(provisioning := s.provisioning - {id})
    case EnsureEnd(id) =>
      s.(outbox := s.outbox + multiset{Encode(ROLES, s.provisioning[id].name)}, provisioning := s.provisioning - {id})
    case Evict(i, op) =>
      s.(caches := s.caches[i := EvictAfter(s.caches[i], op)])
    case FlushInstance(i) =>
      s.(caches := s.caches[i := NO_ENTRIES], outbox := s.outbox + multiset{Encode(FLUSH, "")})
    case Send(payload) =>
      s.(outbox := s.outbox - multiset{payload}, inbox := Broadcast(s.inbox, payload))
    case Deliver(i, payload) =>
      s.(caches := s.caches[i := Handle(s.caches[i], payload)], inbox := s.inbox[i := s.inbox[i] - multiset{payload}])
  }

  ghost predicate IsRun(s: Cluster, steps: seq<Step>)
    decreases |steps|
  {
    steps != [] ==> Enabled(s, steps[0]) && IsRun(Next(s, steps[0]), steps[1..])
  }

  function Run(s: Cluster, steps: seq<Step>): (s': Cluster)
    requires IsRun(s, steps)
    ensures |s'.caches| == |s.caches| && |s'.inbox| == |s.inbox|
    decreases |steps|
  {
    if steps == [] then s else Run(Next(s, steps[0]), steps[1..])
  }

  /** A provisioning under way will announce this when it is done. */
  ghost predicate Due(s: Cluster, payload: string) {
    exists id :: id in s.provisioning && Encode(ROLES, s.provisioning[id].name) == payload
  }

  ghost predicate Pending(s: Cluster, i: nat, payload: string)
    requires i < |s.inbox|
  {
    payload in s.outbox || payload in s.inbox[i] || Due(s, payload)
  }

  ghost predicate KeysCovered(s: Cluster, i: nat)
    requires i < |s.inbox| == |s.caches|
  {
    var c := s.caches[i];
    forall h :: h in c.keys ==> KeyAgrees(c.keys[h], s.tables, h) || Pending(s, i, Encode(KEYS, c.keys[h].name))
  }

  ghost predicate RolesCovered(s: Cluster, i: nat)
    requires i < |s.inbox| == |s.caches|
  {
    var c := s.caches[i];
    forall n :: n in c.roles ==> c.roles[n].roles == RolesOf(s.tables, n) || Pending(s, i, Encode(ROLES, n))
  }

  /** The entries of instance i that may be wrong are those a pending message will evict. */
  ghost predicate Covered(s: Cluster, i: nat)
    requires i < |s.inbox| == |s.caches|
  {
    Indexed(s.caches[i]) && KeysCovered(s, i) && RolesCovered(s, i)
  }

  ghost predicate Inv(s: Cluster) {
    |s.inbox| == |s.caches| && forall i :: 0 <= i < |s.caches| ==> Covered(s, i)
  }

  // ---------------------------------------------------------------------------------------------

  lemma {:induction false} NoticeIsPayload(ns: seq<Notice>, n: Notice)
    requires n in ns
    ensures Encode(n.kind, n.name) in Payloads(ns)
  {
    if ns[0] != n {
      NoticeIsPayload(ns[1..], n);
    }
  }

  /** Whatever a successful write invalidates, it announces. */
  lemma WriteAnnounces(t: Tables, op: Op, f: Fault)
    requires !IsRead(op) && Apply(t, op, f).answer.Done?
    ensures forall h, e :: KeyAgrees(e, t, h) && !KeyAgrees(e, Apply(t, op, f).tables, h)
              ==> Encode(KEYS, e.name) in Payloads(Notices(op))
    ensures forall n :: RolesOf(t, n) != RolesOf(Apply(t, op, f).tables, n) ==> Encode(ROLES, n) in Payloads(Notices(op))
  {
    var t' := Apply(t, op, f).tables;
    WriteFrame(t, op, f);
    forall h, e | KeyAgrees(e, t, h) && !KeyAgrees(e, t', h) ensures Encode(KEYS, e.name) in Payloads(Notices(op)) {
      assert e.name == op.name && h !in t'.keys;
      assert op.DeleteCaller? || op.DeleteKey? || op.RevokeKey?;
      NoticeIsPayload(Notices(op), Notice(KEYS, op.name));
    }
    forall n | RolesOf(t, n) != RolesOf(t', n) ensures Encode(ROLES, n) in Payloads(Notices(op)) {
      assert n == op.name;
      assert op.DeleteCaller? || op.AssignRole? || op.UnassignRole? || op.EnsureCaller?;
      NoticeIsPayload(Notices(op), Notice(ROLES, op.name));
    }
  }

  /** Nothing has been taken from what instance i waits for. */
  ghost predicate Waits(s: Cluster, s': Cluster, i: nat)
    requires i < |s.inbox| && i < |s'.inbox|
  {
    forall p :: Pending(s, i, p) ==> Pending(s', i, p)
  }

  lemma WriteWaits(s: Cluster, op: Op, f: Fault, i: nat)
    requires Enabled(s, Write(op, f)) && i < |s.inbox|
    ensures Waits(s, Next(s, Write(op, f)), i)
    ensures !Apply(s.tables, op, f).answer.Done? ==> Waits(Next(s, Write(op, f)), s, i)
  {
    var s' := Next(s, Write(op, f));
    assert forall p :: Due(s', p) <==> Due(s, p);
  }

  lemma DoneWriteKeepsCovered(s: Cluster, op: Op, f: Fault, i: nat)
    requires Enabled(s, Write(op, f)) && i < |s.inbox| && Covered(s, i) && Apply(s.tables, op, f).answer.Done?
    ensures Covered(Next(s, Write(op, f)), i)
  {
    WriteAnnounces(s.tables, op, f);
    WriteWaits(s, op, f, i);
  }

  // ---------------------------------------------------------------------------------------------
  // Writes that fail half-way
  // ---------------------------------------------------------------------------------------------

  /** The entries of instance i that no message is going to evict. */
  ghost function Uncovered(s: Cluster, i: nat): Cache
    requires i < |s.inbox| == |s.caches|
  {
    var c := s.caches[i];
    c.(keys := map h | h in c.keys && !Pending(s, i, Encode(KEYS, c.keys[h].name)) :: c.keys[h],
       roles := map n | n in c.roles && !Pending(s, i, Encode(ROLES, n)) :: c.roles[n])
  }

  lemma CoveredIsCoherent(s: Cluster, i: nat)
    requires i < |s.inbox| == |s.caches|
    ensures KeysCovered(s, i) && RolesCovered(s, i) <==> Coherent(Uncovered(s, i), s.tables)
  {
    var c, u := s.caches[i], Uncovered(s, i);
    if Coherent(u, s.tables) {
      forall h | h in c.keys ensures KeyAgrees(c.keys[h], s.tables, h) || Pending(s, i, Encode(KEYS, c.keys[h].name)) {
        assert h in u.keys ==> KeyAgrees(u.keys[h], s.tables, h);
      }
      forall n | n in c.roles ensures c.roles[n].roles == RolesOf(s.tables, n) || Pending(s, i, Encode(ROLES, n)) {
        assert n in u.roles ==> u.roles[n].roles == RolesOf(s.tables, n);
      }
    }
  }

  lemma UncoveredSame(s: Cluster, s': Cluster, i: nat)
    requires i < |s.inbox| == |s.caches| && i < |s'.inbox| == |s'.caches| && s'.caches[i] == s.caches[i]
    requires Waits(s, s', i) && Waits(s', s, i)
    ensures Uncovered(s', i) == Uncovered(s, i)
  {
    var c := s.caches[i];
    assert forall h :: h in c.keys ==> (Pending(s', i, Encode(KEYS, c.keys[h].name)) <==> Pending(s, i, Encode(KEYS, c.keys[h].name)));
    assert forall n :: n in c.roles ==> (Pending(s', i, Encode(ROLES, n)) <==> Pending(s, i, Encode(ROLES, n)));
  }

  /** A failed write announces nothing: it keeps an instance covered exactly when it is not a stale fault of
      the entries no message is going to evict. */
  lemma FailedWriteCoveredExact(s: Cluster, op: Op, f: Fault, i: nat)
    requires Enabled(s, Write(op, f)) && i < |s.inbox| && Covered(s, i) && !Apply(s.tables, op, f).answer.Done?
    ensures Covered(Next(s, Write(op, f)), i) <==> !StaleFault(Uncovered(s, i), s.tables, op, f)
  {
    var s', u := Next(s, Write(op, f)), Uncovered(s, i);
    WriteWaits(s, op, f, i);
    UncoveredSame(s, s', i);
    FailedCoveredExact(s, s', i, op, f, u);
  }

  lemma FailedCoveredExact(s: Cluster, s': Cluster, i: nat, op: Op, f: Fault, u: Cache)
    requires i < |s.inbox| == |s.caches| && i < |s'.inbox| == |s'.caches| && s'.caches[i] == s.caches[i]
    requires Covered(s, i) && u == Uncovered(s, i) == Uncovered(s', i)
    requires !IsRead(op) && !Apply(s.tables, op, f).answer.Done? && s'.tables == Apply(s.tables, op, f).tables
    ensures Covered(s', i) <==> !StaleFault(u, s.tables, op, f)
  {
    CoveredIsCoherent(s, i);
    CoveredIsCoherent(s', i);
    FailedWriteExact(u, s.tables, op, f);
  }

  /** The write announces what it did, or did nothing that matters to any instance. */
  ghost predicate WriteHarmless(s: Cluster, op: Op, f: Fault)
    requires |s.inbox| == |s.caches|
  {
    Apply(s.tables, op, f).answer.Done? || forall i :: 0 <= i < |s.caches| ==> !StaleFault(Uncovered(s, i), s.tables, op, f)
  }

  lemma WriteKeepsInvExact(s: Cluster, op: Op, f: Fault)
    requires Inv(s) && Enabled(s, Write(op, f))
    ensures Inv(Next(s, Write(op, f))) <==> WriteHarmless(s, op, f)
  {
    var s' := Next(s, Write(op, f));
    forall i | 0 <= i < |s.caches|
      ensures Covered(s', i) <==> Apply(s.tables, op, f).answer.Done? || !StaleFault(Uncovered(s, i), s.tables, op, f)
    {
      assert Covered(s, i);
      if Apply(s.tables, op, f).answer.Done? {
        DoneWriteKeepsCovered(s, op, f, i);
      } else {
        FailedWriteCoveredExact(s, op, f, i);
      }
    }
  }

  // ---------------------------------------------------------------------------------------------
  // Provisioning, statement by statement
  // ---------------------------------------------------------------------------------------------

  predicate IsEnsure(a: Step) {
    a.EnsureBegin? || a.EnsureRole? || a.EnsureEnd?
  }

  /** The statements of one provisioning, with nothing in between. */
  function Provisioned(s: Cluster, id: nat): Cluster
    requires |s.inbox| == |s.caches| && id in s.provisioning
    decreases |s.provisioning[id].rest|
  {
    if s.provisioning[id].rest == [] then s else Provisioned(Next(s, EnsureRole(id)), id)
  }

  lemma {:induction false} FirstRoleFirst(roles: seq<string>, first: string, rest: seq<string>)
    ensures WithRoles(roles, [first] + rest) == WithRoles(WithRole(roles, first), rest)
    decreases |rest|
  {
    var all := [first] + rest;
    if rest == [] {
      assert all[..|all| - 1] == [] && WithRoles(roles, []) == roles;
    } else {
      var n := |rest| - 1;
      FirstRoleFirst(roles, first, rest[..n]);
      assert all[..|all| - 1] == [first] + rest[..n];
    }
  }

  lemma {:induction false} ProvisionedTables(s: Cluster, id: nat)
    requires |s.inbox| == |s.caches| && id in s.provisioning && s.provisioning[id].name in s.tables.callers
    ensures var e := s.provisioning[id];
            Provisioned(s, id).tables == SetRoles(s.tables, e.name, WithRoles(s.tables.callers[e.name], e.rest))
    decreases |s.provisioning[id].rest|
  {
    var e := s.provisioning[id];
    if e.rest == [] {
      assert s.tables.callers[e.name := s.tables.callers[e.name]] == s.tables.callers;
    } else {
      var s' := Next(s, EnsureRole(id));
      ProvisionedTables(s', id);
      FirstRoleFirst(s.tables.callers[e.name], e.rest[0], e.rest[1..]);
      assert [e.rest[0]] + e.rest[1..] == e.rest;
    }
  }

  /** They do to the tables what the one call does. */
  lemma ProvisionedIsEnsureCaller(s: Cluster, id: nat, name: string, defaults: seq<string>)
    requires Enabled(s, EnsureBegin(id, name, defaults, false)) && name !in s.tables.callers
    ensures var s' := Next(s, EnsureBegin(id, name, defaults, false));
            Provisioned(s', id).tables == Apply(s.tables, EnsureCaller(name, defaults), NoFault).tables
  {
    ProvisionedTables(Next(s, EnsureBegin(id, name, defaults, false)), id);
  }

  /** No statement takes an announcement back. */
  lemma EnsureWaits(s: Cluster, a: Step, i: nat)
    requires Enabled(s, a) && IsEnsure(a) && i < |s.inbox|
    ensures Waits(s, Next(s, a), i)
  {
    var s' := Next(s, a);
    forall p | Pending(s, i, p) ensures Pending(s', i, p) {
      if Due(s, p) {
        var id :| id in s.provisioning && Encode(ROLES, s.provisioning[id].name) == p;
        if id in s'.provisioning {
          assert s'.provisioning[id].name == s.provisioning[id].name;
        }
      }
    }
  }

  /** The caller's row alone changes no role list, and each role comes with an announcement to follow. */
  lemma EnsureKeepsCovered(s: Cluster, a: Step, i: nat)
    requires Enabled(s, a) && IsEnsure(a) && i < |s.inbox| && Covered(s, i)
    ensures Covered(Next(s, a), i)
  {
    var s' := Next(s, a);
    EnsureWaits(s, a, i);
    assert s'.caches == s.caches && s'.tables.keys == s.tables.keys;
    assert forall h, e :: KeyAgrees(e, s'.tables, h) <==> KeyAgrees(e, s.tables, h);
    forall n | n in s.caches[i].roles ensures s.caches[i].roles[n].roles == RolesOf(s'.tables, n) || Pending(s', i, Encode(ROLES, n)) {
      if RolesOf(s'.tables, n) != RolesOf(s.tables, n) {
        assert a.EnsureRole? && n == s'.provisioning[a.id].name;
      }
    }
  }

  /** Giving up half-way is harmless to an instance if it has no outdated list of that caller, or another
      message will evict it. */
  ghost predicate FailureHarmless(s: Cluster, id: nat, i: nat)
    requires Enabled(s, EnsureFail(id)) && i < |s.inbox|
  {
    var name := s.provisioning[id].name;
    name in s.caches[i].roles ==>
      s.caches[i].roles[name].roles == RolesOf(s.tables, name) || Pending(Next(s, EnsureFail(id)), i, Encode(ROLES, name))
  }

  lemma EnsureFailExact(s: Cluster, id: nat, i: nat)
    requires Enabled(s, EnsureFail(id)) && i < |s.inbox| && Covered(s, i)
    ensures Covered(Next(s, EnsureFail(id)), i) <==> FailureHarmless(s, id, i)
  {
    var s', name := Next(s, EnsureFail(id)), s.provisioning[id].name;
    forall p | Pending(s, i, p) && p != Encode(ROLES, name) ensures Pending(s', i, p) {
      if Due(s, p) {
        var id' :| id' in s.provisioning && Encode(ROLES, s.provisioning[id'].name) == p;
        assert id' in s'.provisioning;
      }
    }
    forall n | n != name ensures Encode(ROLES, n) != Encode(ROLES, name) {
      SplitInvertsEncode(ROLES, n);
      SplitInvertsEncode(ROLES, name);
    }
    forall n ensures Encode(KEYS, n) != Encode(ROLES, name) {
      assert Encode(KEYS, n)[0] == 'k' && Encode(ROLES, name)[0] == 'r';
    }
  }

  lemma EnsureFailKeepsInvExact(s: Cluster, id: nat)
    requires Inv(s) && Enabled(s, EnsureFail(id))
    ensures Inv(Next(s, EnsureFail(id))) <==> forall i :: 0 <= i < |s.caches| ==> FailureHarmless(s, id, i)
  {
    var s' := Next(s, EnsureFail(id));
    forall i | 0 <= i < |s.caches| ensures Covered(s', i) <==> FailureHarmless(s, id, i) {
      assert Covered(s, i);
      EnsureFailExact(s, id, i);
    }
  }

  // ---------------------------------------------------------------------------------------------

  lemma ReadKeepsCovered(s: Cluster, a: Step)
    requires Inv(s) && a.Read? && Enabled(s, a)
    ensures Covered(Next(s, a), a.i)
  {
    assert Covered(s, a.i);
    CachedApplyKeepsIndex(s.caches[a.i], s.tables, a.now, a.ttl, a.op, a.f);
  }

  /** Evictions only remove entries, so they can be taken at any time. */
  lemma EvictKeepsCovered(s: Cluster, i: nat, op: Op)
    requires Inv(s) && i < |s.caches|
    ensures Covered(Next(s, Evict(i, op)), i)
  {
    assert Covered(s, i);
    if op.DeleteCaller? || op.DeleteKey? || op.RevokeKey? {
      EvictKeysRemovesAll(s.caches[i], op.name);
    }
  }

  /** Handling a message removes exactly the entries it was pending for. */
  lemma DeliverKeepsCovered(s: Cluster, i: nat, payload: string)
    requires Inv(s) && Enabled(s, Deliver(i, payload))
    ensures Covered(Next(s, Deliver(i, payload)), i)
  {
    var c, c' := s.caches[i], Handle(s.caches[i], payload);
    var s' := Next(s, Deliver(i, payload));
    assert Covered(s, i);
    assert forall p :: Due(s', p) <==> Due(s, p);
    assert forall p :: Pending(s, i, p) && p != payload ==> Pending(s', i, p);
    forall h | h in c'.keys ensures KeyAgrees(c'.keys[h], s.tables, h) || Pending(s', i, Encode(KEYS, c'.keys[h].name)) {
      if Encode(KEYS, c'.keys[h].name) == payload {
        HandleEncoded(c, c'.keys[h].name);
        EvictKeysRemovesAll(c, c'.keys[h].name);
      }
    }
    forall n | n in c'.roles ensures c'.roles[n].roles == RolesOf(s.tables, n) || Pending(s', i, Encode(ROLES, n)) {
      if Encode(ROLES, n) == payload {
        HandleEncoded(c, n);
      }
    }
    if SplitOnce(payload).Parts? {
      EvictKeysRemovesAll(c, SplitOnce(payload).name);
    }
  }

  lemma SendKeepsInv(s: Cluster, payload: string)
    requires Inv(s) && Enabled(s, Send(payload))
    ensures Inv(Next(s, Send(payload)))
  {
    var s' := Next(s, Send(payload));
    forall i | 0 <= i < |s'.caches| ensures Covered(s', i) {
      assert Covered(s, i);
      StillWaits(s, s', i);
    }
  }

  /** Only the messages an untouched instance waits for matter to it. */
  lemma CoveredFrame(s: Cluster, s': Cluster, i: nat)
    requires i < |s.inbox| == |s.caches| == |s'.caches| == |s'.inbox|
    requires Covered(s, i) && s'.tables == s.tables && s'.caches[i] == s.caches[i]
    requires Waits(s, s', i)
    ensures Covered(s', i)
  {
  }

  /** A step that leaves provisioning alone and only adds to what an instance is sent. */
  lemma StillWaits(s: Cluster, s': Cluster, i: nat)
    requires i < |s.inbox| && i < |s'.inbox| && s'.provisioning == s.provisioning
    requires forall p :: p in s.outbox ==> p in s'.outbox || p in s'.inbox[i]
    requires forall p :: p in s.inbox[i] ==> p in s'.inbox[i]
    ensures Waits(s, s', i)
  {
    assert forall p :: Due(s', p) <==> Due(s, p);
  }

  // ---------------------------------------------------------------------------------------------
  // Insertions that come late
  // ---------------------------------------------------------------------------------------------

  /** The payload that evicts what this lookup would insert. */
  function NoticeOf(l: Fetched): string
    requires Succeeded(l.op, l.answer)
  {
    if l.op.LookupByKey? then Encode(KEYS, l.answer.name) else Encode(ROLES, l.op.name)
  }

  predicate Current(s: Cluster, l: Fetched) {
    Apply(s.tables, l.op, NoFault).answer == l.answer
  }

  /** What was fetched still holds, or the message that will evict it is still to come. */
  ghost predicate Timely(s: Cluster, l: Fetched) {
    && l.i < |s.inbox| && Succeeded(l.op, l.answer)
    && (Current(s, l) || Pending(s, l.i, NoticeOf(l)))
  }

  lemma InsertWaits(s: Cluster, id: nat, expiresAt: int, i: nat)
    requires Enabled(s, Insert(id, expiresAt)) && i < |s.inbox|
    ensures Waits(s, Next(s, Insert(id, expiresAt)), i) && Waits(Next(s, Insert(id, expiresAt)), s, i)
  {
    StillWaits(s, Next(s, Insert(id, expiresAt)), i);
    StillWaits(Next(s, Insert(id, expiresAt)), s, i);
  }

  lemma InsertKeyExact(s: Cluster, id: nat, expiresAt: int)
    requires Enabled(s, Insert(id, expiresAt)) && KeysCovered(s, s.fetched[id].i) && s.fetched[id].op.LookupByKey?
    ensures KeysCovered(Next(s, Insert(id, expiresAt)), s.fetched[id].i) <==> Timely(s, s.fetched[id])
  {
    var l, s' := s.fetched[id], Next(s, Insert(id, expiresAt));
    var c, c', h := s.caches[l.i], s'.caches[l.i], l.op.hash;
    InsertWaits(s, id, expiresAt, l.i);
    assert c'.keys[h] == KeyEntry(l.answer.name, l.answer.keyLabel, expiresAt);
    assert forall g :: g in c'.keys && g != h ==> c'.keys[g] == c.keys[g];
  }

  lemma InsertRolesExact(s: Cluster, id: nat, expiresAt: int)
    requires Enabled(s, Insert(id, expiresAt)) && RolesCovered(s, s.fetched[id].i) && s.fetched[id].op.RolesForCaller?
    ensures RolesCovered(Next(s, Insert(id, expiresAt)), s.fetched[id].i) <==> Timely(s, s.fetched[id])
  {
    var l, s' := s.fetched[id], Next(s, Insert(id, expiresAt));
    var c, c', name := s.caches[l.i], s'.caches[l.i], l.op.name;
    InsertWaits(s, id, expiresAt, l.i);
    assert c'.roles[name] == RoleEntry(l.answer.roles, expiresAt);
    assert forall n :: n in c'.roles && n != name ==> c'.roles[n] == c.roles[n];
  }

  /** What an insertion of the one kind does to entries of the other: nothing. */
  lemma InsertFrame(s: Cluster, id: nat, expiresAt: int)
    requires Enabled(s, Insert(id, expiresAt)) && Covered(s, s.fetched[id].i)
    ensures var l, s' := s.fetched[id], Next(s, Insert(id, expiresAt));
            && Indexed(s'.caches[l.i])
            && (l.op.LookupByKey? ==> RolesCovered(s', l.i))
            && (l.op.RolesForCaller? ==> KeysCovered(s', l.i))
  {
    var l, s' := s.fetched[id], Next(s, Insert(id, expiresAt));
    if l.op.LookupByKey? {
      FillKeyKeepsIndex(s.caches[l.i], l.op.hash, l.answer.name, l.answer.keyLabel, expiresAt);
    }
    InsertWaits(s, id, expiresAt, l.i);
  }

  /** Exactly when a late insertion is harmless. */
  lemma InsertCoveredExact(s: Cluster, id: nat, expiresAt: int)
    requires Enabled(s, Insert(id, expiresAt)) && Covered(s, s.fetched[id].i)
    ensures Covered(Next(s, Insert(id, expiresAt)), s.fetched[id].i) <==> Timely(s, s.fetched[id])
  {
    InsertFrame(s, id, expiresAt);
    if s.fetched[id].op.LookupByKey? {
      InsertKeyExact(s, id, expiresAt);
    } else {
      InsertRolesExact(s, id, expiresAt);
    }
  }

  lemma InsertKeepsInvExact(s: Cluster, id: nat, expiresAt: int)
    requires Inv(s) && Enabled(s, Insert(id, expiresAt))
    ensures Inv(Next(s, Insert(id, expiresAt))) <==> Timely(s, s.fetched[id])
  {
    var s', i := Next(s, Insert(id, expiresAt)), s.fetched[id].i;
    assert Covered(s, i);
    InsertCoveredExact(s, id, expiresAt);
    forall j | 0 <= j < |s'.caches| && j != i ensures Covered(s', j) {
      InsertWaits(s, id, expiresAt, j);
      CoveredFrame(s, s', j);
    }
  }

  lemma LocalKeepsInv(s: Cluster, a: Step)
    requires Inv(s) && Enabled(s, a) && (a.Read? || a.Evict? || a.Deliver? || a.FlushInstance?)
    ensures Inv(Next(s, a))
  {
    var s' := Next(s, a);
    forall j | 0 <= j < |s'.caches| ensures Covered(s', j) {
      if j != a.i {
        StillWaits(s, s', j);
        CoveredFrame(s, s', j);
      } else {
        match a
        case Read(_, _, _, _, _) => ReadKeepsCovered(s, a);
        case Evict(i, op) => EvictKeepsCovered(s, i, op);
        case Deliver(i, payload) => DeliverKeepsCovered(s, i, payload);
        case FlushInstance(_) =>
      }
    }
  }

  /** What can go wrong: an insertion that comes late, and a write that fails half-way. */
  ghost predicate Harmless(s: Cluster, a: Step)
    requires Enabled(s, a)
  {
    match a
    case Insert(id, _) => Timely(s, s.fetched[id])
    case Write(op, f) => WriteHarmless(s, op, f)
    case EnsureFail(id) => forall i :: 0 <= i < |s.caches| ==> FailureHarmless(s, id, i)
    case _ => true
  }

  lemma SilentKeepsInv(s: Cluster, a: Step)
    requires Inv(s) && Enabled(s, a) && (a.Fetch? || IsEnsure(a))
    ensures Inv(Next(s, a))
  {
    var s' := Next(s, a);
    forall j | 0 <= j < |s'.caches| ensures Covered(s', j) {
      assert Covered(s, j);
      if a.Fetch? {
        StillWaits(s, s', j);
        CoveredFrame(s, s', j);
      } else {
        EnsureKeepsCovered(s, a, j);
      }
    }
  }

  /** A step keeps every wrong entry covered by a message to come exactly when it is harmless. */
  lemma StepKeepsInvExact(s: Cluster, a: Step)
    requires Inv(s) && Enabled(s, a)
    ensures Inv(Next(s, a)) <==> Harmless(s, a)
  {
    match a
    case Write(op, f) => WriteKeepsInvExact(s, op, f);
    case Send(payload) => SendKeepsInv(s, payload);
    case Insert(id, expiresAt) => InsertKeepsInvExact(s, id, expiresAt);
    case EnsureFail(id) => EnsureFailKeepsInvExact(s, id);
    case Fetch(_, _, _) => SilentKeepsInv(s, a);
    case EnsureBegin(_, _, _, _) => SilentKeepsInv(s, a);
    case EnsureRole(_) => SilentKeepsInv(s, a);
    case EnsureEnd(_) => SilentKeepsInv(s, a);
    case _ => LocalKeepsInv(s, a);
  }

  /** Every step of the run is harmless. */
  ghost predicate HarmlessRun(s: Cluster, steps: seq<Step>)
    requires IsRun(s, steps)
    decreases |steps|
  {
    steps != [] ==> Harmless(s, steps[0]) && HarmlessRun(Next(s, steps[0]), steps[1..])
  }

  /** Every state of the run has its wrong entries covered. */
  ghost predicate InvThroughout(s: Cluster, steps: seq<Step>)
    requires IsRun(s, steps)
    decreases |steps|
  {
    Inv(s) && (steps != [] ==> InvThroughout(Next(s, steps[0]), steps[1..]))
  }

  /** Over every run: at all times every cached entry that disagrees with the database has its message to
      come, if and only if every step was harmless. */
  lemma {:induction false} RunCoveredExact(s: Cluster, steps: seq<Step>)
    requires Inv(s) && IsRun(s, steps)
    ensures InvThroughout(s, steps) <==> HarmlessRun(s, steps)
    decreases |steps|
  {
    if steps != [] {
      StepKeepsInvExact(s, steps[0]);
      if Inv(Next(s, steps[0])) {
        RunCoveredExact(Next(s, steps[0]), steps[1..]);
      }
    }
  }

  lemma {:induction false} RunKeepsInv(s: Cluster, steps: seq<Step>)
    requires IsRun(s, steps) && InvThroughout(s, steps)
    ensures Inv(Run(s, steps))
    decreases |steps|
  {
    if steps != [] {
      RunKeepsInv(Next(s, steps[0]), steps[1..]);
    }
  }

  /** A lookup in one step, and no statement that fails; provisioning is still statement by statement. */
  predicate Plain(a: Step) {
    !a.Insert? && !a.EnsureFail? && (a.Write? ==> a.f == NoFault)
  }

  /** Such steps are always harmless. */
  lemma {:induction false} PlainRunsAreHarmless(s: Cluster, steps: seq<Step>)
    requires IsRun(s, steps) && forall k :: 0 <= k < |steps| ==> Plain(steps[k])
    ensures HarmlessRun(s, steps)
    decreases |steps|
  {
    if steps != [] {
      assert Plain(steps[0]);
      PlainRunsAreHarmless(Next(s, steps[0]), steps[1..]);
    }
  }

  // ---------------------------------------------------------------------------------------------
  // How an insertion becomes late
  // ---------------------------------------------------------------------------------------------

  /** This step leaves a lookup with an outdated answer and no message to evict it: by handling the last
      such message, by giving up a provisioning that would have sent it, or by changing rows half-way. */
  ghost predicate Overtakes(s: Cluster, a: Step, l: Fetched)
    requires Enabled(s, a)
  {
    && l.i < |s.inbox| && Succeeded(l.op, l.answer)
    && !Pending(Next(s, a), l.i, NoticeOf(l))
    && match a
       case Deliver(i, payload) => i == l.i && payload == NoticeOf(l) && !Current(s, l)
       case EnsureFail(id) => Encode(ROLES, s.provisioning[id].name) == NoticeOf(l) && !Current(s, l)
       case Write(op, f) =>
         !Apply(s.tables, op, f).answer.Done? && Current(s, l) && StaleFault(Fill(NO_ENTRIES, l.op, l.answer, 0), s.tables, op, f)
       case _ => false
  }

  /** A successful write that outdates what was fetched announces it. */
  lemma DoneWriteKeepsTimely(s: Cluster, op: Op, f: Fault, l: Fetched)
    requires Enabled(s, Write(op, f)) && Timely(s, l) && Apply(s.tables, op, f).answer.Done?
    ensures Timely(Next(s, Write(op, f)), l)
  {
    var s' := Next(s, Write(op, f));
    WriteWaits(s, op, f, l.i);
    if Current(s, l) && !Current(s', l) {
      WriteAnnounces(s.tables, op, f);
      if l.op.LookupByKey? {
        var e := KeyEntry(l.answer.name, l.answer.keyLabel, 0);
        assert KeyAgrees(e, s.tables, l.op.hash) && !KeyAgrees(e, s'.tables, l.op.hash);
        assert Encode(KEYS, e.name) in Payloads(Notices(op));
      } else {
        assert RolesOf(s.tables, l.op.name) != RolesOf(s'.tables, l.op.name);
      }
    }
  }

  /** Provisioning announces each role it has added, later. */
  lemma EnsureKeepsTimely(s: Cluster, a: Step, l: Fetched)
    requires Enabled(s, a) && IsEnsure(a) && Timely(s, l)
    ensures Timely(Next(s, a), l)
  {
    var s' := Next(s, a);
    EnsureWaits(s, a, l.i);
    assert s'.tables.keys == s.tables.keys;
    if Current(s, l) && !Current(s', l) {
      assert l.op.RolesForCaller? && RolesOf(s'.tables, l.op.name) != RolesOf(s.tables, l.op.name);
      assert a.EnsureRole? && l.op.name == s'.provisioning[a.id].name;
    }
  }

  lemma EnsureFailWaits(s: Cluster, id: nat, i: nat, p: string)
    requires Enabled(s, EnsureFail(id)) && i < |s.inbox| && Pending(s, i, p) && p != Encode(ROLES, s.provisioning[id].name)
    ensures Pending(Next(s, EnsureFail(id)), i, p)
  {
    if Due(s, p) {
      var id' :| id' in s.provisioning && Encode(ROLES, s.provisioning[id'].name) == p;
      assert id' in Next(s, EnsureFail(id)).provisioning;
    }
  }

  lemma WriteTimelyExact(s: Cluster, op: Op, f: Fault, l: Fetched)
    requires Enabled(s, Write(op, f)) && Timely(s, l)
    ensures Timely(Next(s, Write(op, f)), l) <==> !Overtakes(s, Write(op, f), l)
  {
    WriteWaits(s, op, f, l.i);
    if Apply(s.tables, op, f).answer.Done? {
      DoneWriteKeepsTimely(s, op, f, l);
    } else if Current(s, l) {
      FailedWriteOutdates(s.tables, op, f, l);
    }
  }

  /** A write that fails half-way outdates what was fetched exactly when it would be a stale fault for a
      cache holding just that. */
  lemma FailedWriteOutdates(t: Tables, op: Op, f: Fault, l: Fetched)
    requires !IsRead(op) && !Apply(t, op, f).answer.Done? && Succeeded(l.op, l.answer) && Apply(t, l.op, NoFault).answer == l.answer
    ensures Apply(Apply(t, op, f).tables, l.op, NoFault).answer == l.answer <==> !StaleFault(Fill(NO_ENTRIES, l.op, l.answer, 0), t, op, f)
  {
    var c, t' := Fill(NO_ENTRIES, l.op, l.answer, 0), Apply(t, op, f).tables;
    FillExact(NO_ENTRIES, t, l.op, l.answer, 0);
    FillExact(NO_ENTRIES, t', l.op, l.answer, 0);
    FailedWriteExact(c, t, op, f);
  }

  lemma EnsureFailTimelyExact(s: Cluster, id: nat, l: Fetched)
    requires Enabled(s, EnsureFail(id)) && Timely(s, l)
    ensures Timely(Next(s, EnsureFail(id)), l) <==> !Overtakes(s, EnsureFail(id), l)
  {
    if Pending(s, l.i, NoticeOf(l)) && NoticeOf(l) != Encode(ROLES, s.provisioning[id].name) {
      EnsureFailWaits(s, id, l.i, NoticeOf(l));
    }
  }

  lemma DeliverTimelyExact(s: Cluster, i: nat, payload: string, l: Fetched)
    requires Enabled(s, Deliver(i, payload)) && Timely(s, l)
    ensures Timely(Next(s, Deliver(i, payload)), l) <==> !Overtakes(s, Deliver(i, payload), l)
  {
    var s' := Next(s, Deliver(i, payload));
    assert forall p :: Due(s', p) <==> Due(s, p);
    assert Pending(s, l.i, NoticeOf(l)) && (i != l.i || payload != NoticeOf(l)) ==> Pending(s', l.i, NoticeOf(l));
  }

  /** Steps that change neither rows nor provisioning and take no message away. */
  predicate IsQuiet(a: Step) {
    a.Read? || a.Fetch? || a.Insert? || a.Evict? || a.FlushInstance? || a.Send?
  }

  lemma QuietKeepsTimely(s: Cluster, a: Step, l: Fetched)
    requires Enabled(s, a) && IsQuiet(a) && Timely(s, l)
    ensures Timely(Next(s, a), l)
  {
    StillWaits(s, Next(s, a), l.i);
  }

  /** Exactly these steps make a fetched answer untimely. */
  lemma StepTimelyExact(s: Cluster, a: Step, l: Fetched)
    requires Enabled(s, a) && Timely(s, l)
    ensures Timely(Next(s, a), l) <==> !Overtakes(s, a, l)
  {
    if IsQuiet(a) {
      QuietKeepsTimely(s, a, l);
    } else if IsEnsure(a) {
      EnsureKeepsTimely(s, a, l);
    } else {
      match a
      case Write(op, f) => WriteTimelyExact(s, op, f, l);
      case EnsureFail(id) => EnsureFailTimelyExact(s, id, l);
      case Deliver(i, payload) => DeliverTimelyExact(s, i, payload, l);
    }
  }

  ghost predicate AllTimely(s: Cluster) {
    forall id :: id in s.fetched ==> Timely(s, s.fetched[id])
  }

  ghost predicate NoOvertaking(s: Cluster, steps: seq<Step>)
    requires IsRun(s, steps)
    decreases |steps|
  {
    steps != [] ==>
      && (forall id :: id in s.fetched ==> !Overtakes(s, steps[0], s.fetched[id]))
      && NoOvertaking(Next(s, steps[0]), steps[1..])
  }

  lemma StepKeepsTimely(s: Cluster, a: Step)
    requires Enabled(s, a) && AllTimely(s) && forall id :: id in s.fetched ==> !Overtakes(s, a, s.fetched[id])
    ensures AllTimely(Next(s, a))
  {
    var s' := Next(s, a);
    forall id | id in s'.fetched ensures Timely(s', s'.fetched[id]) {
      if id in s.fetched {
        assert s'.fetched[id] == s.fetched[id];
        StepTimelyExact(s, a, s.fetched[id]);
      }
    }
  }

  /** The insertions of the run are timely. */
  ghost predicate TimelyInserts(s: Cluster, steps: seq<Step>)
    requires IsRun(s, steps)
    decreases |steps|
  {
    steps != [] ==>
      && (steps[0].Insert? ==> Timely(s, s.fetched[steps[0].id]))
      && TimelyInserts(Next(s, steps[0]), steps[1..])
  }

  /** An insertion is late only if its lookup was overtaken after the fetch; without that, all insertions
      of a run are timely. */
  lemma {:induction false} NoOvertakingIsTimely(s: Cluster, steps: seq<Step>)
    requires IsRun(s, steps) && AllTimely(s) && NoOvertaking(s, steps)
    ensures TimelyInserts(s, steps)
    decreases |steps|
  {
    if steps != [] {
      StepKeepsTimely(s, steps[0]);
      NoOvertakingIsTimely(Next(s, steps[0]), steps[1..]);
    }
  }

  // ---------------------------------------------------------------------------------------------

  /** n instances with empty caches and nothing in flight. */
  function Fresh(t: Tables, n: nat): Cluster {
    Cluster(t, seq(n, _ => NO_ENTRIES), multiset{}, seq(n, _ => multiset{}), map[], map[])
  }

  /** No provisioning is under way and no message for instance i is to come. */
  predicate Drained(s: Cluster, i: nat) {
    i < |s.inbox| && s.outbox == multiset{} && s.inbox[i] == multiset{} && s.provisioning == map[]
  }

  /** Instances that start empty agree with the database whenever the queues have drained, if every step
      was harmless. */
  lemma DrainedClusterAgrees(t: Tables, n: nat, steps: seq<Step>, i: nat)
    requires i < n && IsRun(Fresh(t, n), steps) && HarmlessRun(Fresh(t, n), steps) && Drained(Run(Fresh(t, n), steps), i)
    ensures Coherent(Run(Fresh(t, n), steps).caches[i], Run(Fresh(t, n), steps).tables)
  {
    RunCoveredExact(Fresh(t, n), steps);
    RunKeepsInv(Fresh(t, n), steps);
    var s := Run(Fresh(t, n), steps);
    assert Covered(s, i);
    assert forall p :: !Pending(s, i, p);
  }

  /** In particular when lookups are one step and no statement fails. */
  lemma DrainedPlainClusterAgrees(t: Tables, n: nat, steps: seq<Step>, i: nat)
    requires i < n && IsRun(Fresh(t, n), steps) && (forall k :: 0 <= k < |steps| ==> Plain(steps[k])) && Drained(Run(Fresh(t, n), steps), i)
    ensures Coherent(Run(Fresh(t, n), steps).caches[i], Run(Fresh(t, n), steps).tables)
  {
    PlainRunsAreHarmless(Fresh(t, n), steps);
    DrainedClusterAgrees(t, n, steps, i);
  }

  /** The state of the scenario below: one instance, one provisioning with these roles to go. */
  function Half(name: string, roles: seq<string>, cached: map<string, RoleEntry>, rest: seq<string>): Cluster {
    Cluster(Tables(map[name := roles], map[], 0), [Cache(map[], map[], cached)], multiset{}, [multiset{}], map[], map[0 := Provisioning(name, rest)])
  }

  lemma HalfBegins(name: string, r0: string, r1: string)
    ensures Next(Fresh(EMPTY, 1), EnsureBegin(0, name, [r0, r1], false)) == Half(name, [], map[], [r0, r1])
  {
    assert EMPTY.callers[name := []] == map[name := []];
  }

  lemma HalfReads(name: string, r0: string, r1: string)
    ensures Next(Half(name, [], map[], [r0, r1]), Read(0, RolesForCaller(name), NoFault, 0, 1)) == Half(name, [], map[name := RoleEntry([], 1)], [r0, r1])
  {
    assert map[][name := RoleEntry([], 1)] == map[name := RoleEntry([], 1)];
  }

  lemma HalfGrows(name: string, r0: string, r1: string, cached: map<string, RoleEntry>)
    ensures Next(Half(name, [], cached, [r0, r1]), EnsureRole(0)) == Half(name, [r0], cached, [r1])
  {
    assert WithRole([], r0) == [r0] && [r0, r1][1..] == [r1];
    assert map[name := []][name := [r0]] == map[name := [r0]];
  }

  /** When provisioning gives up half-way the list read in between stays, with nothing to come: a caller
      with one role in the database and none in the cache. */
  lemma HalfProvisionedStaysStale(name: string, r0: string, r1: string)
    ensures var s0 := Fresh(EMPTY, 1);
            && Enabled(s0, EnsureBegin(0, name, [r0, r1], false)) && var s1 := Next(s0, EnsureBegin(0, name, [r0, r1], false));
            && Enabled(s1, Read(0, RolesForCaller(name), NoFault, 0, 1)) && var s2 := Next(s1, Read(0, RolesForCaller(name), NoFault, 0, 1));
            && Enabled(s2, EnsureRole(0)) && var s3 := Next(s2, EnsureRole(0));
            && Enabled(s3, EnsureFail(0)) && !Harmless(s3, EnsureFail(0)) && var s4 := Next(s3, EnsureFail(0));
            Drained(s4, 0) && RolesOf(s4.tables, name) == [r0] && name in s4.caches[0].roles && s4.caches[0].roles[name].roles == []
  {
    var cached := map[name := RoleEntry([], 1)];
    HalfBegins(name, r0, r1);
    HalfReads(name, r0, r1);
    HalfGrows(name, r0, r1, cached);
    var s3 := Half(name, [r0], cached, [r1]);
    var s4 := Next(s3, EnsureFail(0));
    assert s4.provisioning == map[] && !Pending(s4, 0, Encode(ROLES, name));
    assert !FailureHarmless(s3, 0, 0);
  }
}
