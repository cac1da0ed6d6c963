/** The caller/key/role database behind the gateway: three tables with unique caller names,
    unique key hashes and cascading deletes.

    Every statement sent to the database may fail. A call takes the number of its failing
    statement, so that errors raised after part of the work is done are part of the model. */
module AuthStore {

  /** A SHA-256 digest, read as a number. */
  type KeyHash = nat

  datatype KeyRow = KeyRow(id: nat, owner: string, keyLabel: string)

  /** `callers` maps a caller name to its role rows in table order; an absent name is an absent caller. */
  datatype Tables = Tables(callers: map<string, seq<string>>, keys: map<KeyHash, KeyRow>, nextKeyId: nat)

  datatype Error = NotFound | Duplicate | Internal

  datatype Fault = NoFault | FailAt(statement: nat)

  datatype Op =
    | AddCaller(name: string)
    | DeleteCaller(name: string)
    | AddKey(name: string, hash: KeyHash, keyLabel: string)
    | DeleteKey(name: string, id: nat)
    | RevokeKey(name: string, keyLabel: string)
    | AssignRole(name: string, role: string)
    | UnassignRole(name: string, role: string)
    | EnsureCaller(name: string, defaults: seq<string>)
    | CallerExists(name: string)
    | LookupByKey(hash: KeyHash)
    | RolesForCaller(name: string)

  datatype Answer =
    | Done
    | Failed(error: Error)
    | Found(name: string, keyLabel: string)
    | RoleList(roles: seq<string>)
    | Exists(yes: bool)

  datatype Outcome = Outcome(tables: Tables, answer: Answer)

  const EMPTY := Tables(map[], map[], 0)

  predicate IsRead(op: Op) {
    op.LookupByKey? || op.RolesForCaller? || op.CallerExists?
  }

  function RolesOf(t: Tables, name: string): seq<string> {
    if name in t.callers then t.callers[name] else []
  }

  /** INSERT OR IGNORE of one role row. */
  function WithRole(roles: seq<string>, role: string): seq<string> {
    if role in roles then roles else roles + [role]
  }

  /** INSERT OR IGNORE of several role rows, first to last. */
  function WithRoles(roles: seq<string>, more: seq<string>): seq<string> {
    if more == [] then roles else WithRole(WithRoles(roles, more[..|more| - 1]), more[|more| - 1])
  }

  function WithoutRole(roles: seq<string>, role: string): seq<string> {
    if roles == [] then []
    else if roles[0] == role then WithoutRole(roles[1..], role)
    else [roles[0]] + WithoutRole(roles[1..], role)
  }

  function SetRoles(t: Tables, name: string, roles: seq<string>): Tables {
    t.(callers := t.callers[name := roles])
  }

  function DropKeys(t: Tables, doomed: set<KeyHash>): Tables {
    t.(keys := t.keys - doomed)
  }

  function KeysWithId(t: Tables, name: string, id: nat): set<KeyHash> {
    set h | h in t.keys && t.keys[h].owner == name && t.keys[h].id == id
  }

  function KeysWithLabel(t: Tables, name: string, keyLabel: string): set<KeyHash> {
    set h | h in t.keys && t.keys[h].owner == name && t.keys[h].keyLabel == keyLabel
  }

  function KeysOf(t: Tables, name: string): set<KeyHash> {
    set h | h in t.keys && t.keys[h].owner == name
  }

  /** ON DELETE CASCADE; a DELETE that matches no caller touches nothing. */
  function Cascade(t: Tables, name: string): Tables {
    if name in t.callers then DropKeys(t, KeysOf(t, name)).(callers := t.callers - {name}) else t
  }

  /** A DELETE followed by a look at the number of affected rows: statement `first` is the DELETE
      and the next one the row count, whose failure comes after the rows are gone. */
  function DeleteThenCount(t: Tables, t': Tables, hit: bool, f: Fault, first: nat): Outcome {
    if f == FailAt(first) then Outcome(t, Failed(Internal))
    else if f == FailAt(first + 1) then Outcome(t', Failed(Internal))
    else if !hit then Outcome(t', Failed(NotFound))
    else Outcome(t', Done)
  }

  /** What one call does to the tables and answers. */
  function Apply(t: Tables, op: Op, f: Fault): Outcome {
    match op
    case AddCaller(name) =>
      if f == FailAt(0) then Outcome(t, Failed(Internal))
      else if name in t.callers then Outcome(t, Failed(Duplicate))
      else Outcome(SetRoles(t, name, []), Done)
    case DeleteCaller(name) =>
      DeleteThenCount(t, Cascade(t, name), name in t.callers, f, 0)
    case AddKey(name, hash, keyLabel) =>
      if f == FailAt(0) || name !in t.callers then Outcome(t, Failed(NotFound))
      else if f == FailAt(1) || hash in t.keys then Outcome(t, Failed(Internal))
      else Outcome(t.(keys := t.keys[hash := KeyRow(t.nextKeyId, name, keyLabel)], nextKeyId := t.nextKeyId + 1), Done)
    case DeleteKey(name, id) =>
      var doomed := KeysWithId(t, name, id);
      DeleteThenCount(t, DropKeys(t, doomed), doomed != {}, f, 0)
    case RevokeKey(name, keyLabel) =>
      var doomed := KeysWithLabel(t, name, keyLabel);
      DeleteThenCount(t, DropKeys(t, doomed), doomed != {}, f, 0)
    case AssignRole(name, role) =>
      if f == FailAt(0) || name !in t.callers then Outcome(t, Failed(NotFound))
      else if f == FailAt(1) then Outcome(t, Failed(Internal))
      else Outcome(SetRoles(t, name, WithRole(t.callers[name], role)), Done)
    case UnassignRole(name, role) =>
      if f == FailAt(0) || name !in t.callers then Outcome(t, Failed(NotFound))
      else DeleteThenCount(t, SetRoles(t, name, WithoutRole(t.callers[name], role)), role in t.callers[name], f, 1)
    case EnsureCaller(name, defaults) =>
      if f == FailAt(0) then Outcome(t, Failed(Internal))
      else if name in t.callers then Outcome(t, Done)
      else if f == FailAt(1) then
        // a lost row count reads as zero, that is, as a caller that was there before
        Outcome(SetRoles(t, name, []), Done)
      else if f.FailAt? && f.statement < |defaults| + 2 then
        // the caller row and the first defaults stay behind
        Outcome(SetRoles(t, name, WithRoles([], defaults[..f.statement - 2])), Failed(Internal))
      else Outcome(SetRoles(t, name, WithRoles([], defaults)), Done)
    case CallerExists(name) =>
      if f == FailAt(0) then Outcome(t, Failed(Internal)) else Outcome(t, Exists(name in t.callers))
    case LookupByKey(hash) =>
      if f == FailAt(0) || hash !in t.keys then Outcome(t, Failed(NotFound))
      else Outcome(t, Found(t.keys[hash].owner, t.keys[hash].keyLabel))
    case RolesForCaller(name) =>
      if f == FailAt(0) then Outcome(t, Failed(Internal)) else Outcome(t, RoleList(RolesOf(t, name)))
  }

  // ---------------------------------------------------------------------------------------------
  // What the schema guarantees, whatever fails
  // ---------------------------------------------------------------------------------------------

  ghost predicate Distinct(s: seq<string>) {
    forall i, j :: 0 <= i < j < |s| ==> s[i] != s[j]
  }

  /** Foreign keys resolve, key ids are unique and below the counter, role rows are unique. */
  ghost predicate Schema(t: Tables) {
    KeySchema(t) && RoleSchema(t)
  }

  ghost predicate KeySchema(t: Tables) {
    && (forall h :: h in t.keys ==> t.keys[h].owner in t.callers && t.keys[h].id < t.nextKeyId)
    && (forall h, g :: h in t.keys && g in t.keys && h != g ==> t.keys[h].id != t.keys[g].id)
  }

  ghost predicate RoleSchema(t: Tables) {
    forall n :: n in t.callers ==> Distinct(t.callers[n])
  }

  lemma {:induction false} WithRolesDistinct(roles: seq<string>, more: seq<string>)
    requires Distinct(roles)
    ensures Distinct(WithRoles(roles, more))
    ensures forall r :: r in WithRoles(roles, more) <==> r in roles || r in more
  {
    if more != [] {
      var front, last := more[..|more| - 1], more[|more| - 1];
      WithRolesDistinct(roles, front);
      assert more == front + [last];
    }
  }

  lemma {:induction false} WithoutRoleSpec(roles: seq<string>, role: string)
    ensures forall r :: r in WithoutRole(roles, role) <==> r in roles && r != role
    ensures role !in roles ==> WithoutRole(roles, role) == roles
    ensures Distinct(roles) ==> Distinct(WithoutRole(roles, role))
  {
    if roles != [] {
      WithoutRoleSpec(roles[1..], role);
      assert Distinct(roles) ==> Distinct(roles[1..]);
      assert forall r :: r in roles <==> r == roles[0] || r in roles[1..];
      if Distinct(roles) {
        assert roles[0] !in roles[1..];
        assert roles[0] !in WithoutRole(roles[1..], role);
      }
    }
  }

  /** Only AddKey adds rows or moves the id counter. */
  lemma OnlyAddKeyAddsRows(t: Tables, op: Op, f: Fault)
    requires !op.AddKey?
    ensures Apply(t, op, f).tables.nextKeyId == t.nextKeyId
    ensures forall h :: h in Apply(t, op, f).tables.keys ==> h in t.keys && Apply(t, op, f).tables.keys[h] == t.keys[h]
    ensures forall h :: h in Apply(t, op, f).tables.keys && t.keys[h].owner in t.callers
              ==> t.keys[h].owner in Apply(t, op, f).tables.callers
  {
  }

  lemma ApplyKeepsKeySchema(t: Tables, op: Op, f: Fault)
    requires KeySchema(t)
    ensures KeySchema(Apply(t, op, f).tables)
  {
    if op.AddKey? {
      assert Apply(t, op, f).tables.callers == t.callers;
    } else {
      OnlyAddKeyAddsRows(t, op, f);
    }
  }

  lemma ApplyKeepsRoleSchema(t: Tables, op: Op, f: Fault)
    requires RoleSchema(t)
    ensures RoleSchema(Apply(t, op, f).tables)
  {
    match op
    case EnsureCaller(name, defaults) =>
      WithRolesDistinct([], defaults);
      if f.FailAt? && 2 <= f.statement < |defaults| + 2 {
        WithRolesDistinct([], defaults[..f.statement - 2]);
      }
    case UnassignRole(name, role) =>
      WithoutRoleSpec(RolesOf(t, name), role);
    case _ =>
  }

  /** Every call keeps the schema, also one that fails half-way. */
  lemma ApplyKeepsSchema(t: Tables, op: Op, f: Fault)
    requires Schema(t)
    ensures Schema(Apply(t, op, f).tables)
  {
    ApplyKeepsKeySchema(t, op, f);
    ApplyKeepsRoleSchema(t, op, f);
  }

  /** A key row never changes owner or keyLabel, and only the named caller's rows can come or go; only
      the named caller can come or go, and only its roles can change. */
  lemma WriteFrame(t: Tables, op: Op, f: Fault)
    requires !IsRead(op)
    ensures forall h :: h in t.keys && h in Apply(t, op, f).tables.keys ==> Apply(t, op, f).tables.keys[h] == t.keys[h]
    ensures forall h :: h in t.keys && t.keys[h].owner != op.name ==> h in Apply(t, op, f).tables.keys
    ensures forall h :: h in Apply(t, op, f).tables.keys && h !in t.keys ==> Apply(t, op, f).tables.keys[h].owner == op.name
    ensures forall n :: n != op.name ==> RolesOf(Apply(t, op, f).tables, n) == RolesOf(t, n)
    ensures forall n :: n != op.name ==> (n in Apply(t, op, f).tables.callers <==> n in t.callers)
  {
  }

  /** A deleted caller is gone with all its keys and roles, and everyone else's stay. */
  lemma DeleteCallerCascades(t: Tables, name: string, f: Fault)
    requires Apply(t, DeleteCaller(name), f).answer == Done
    ensures var t' := Apply(t, DeleteCaller(name), f).tables;
            && name in t.callers
            && t'.callers.Keys == t.callers.Keys - {name}
            && RolesOf(t', name) == []
            && t'.keys.Keys == t.keys.Keys - KeysOf(t, name)
            && KeysOf(t', name) == {}
  {
    WriteFrame(t, DeleteCaller(name), f);
  }

  // ---------------------------------------------------------------------------------------------
  // Exactly when each call gives which answer
  // ---------------------------------------------------------------------------------------------

  /** Reads answer what the rows say, unless their one statement fails. */
  lemma ReadAnswers(t: Tables, h: KeyHash, name: string, f: Fault)
    ensures Apply(t, LookupByKey(h), f).answer ==
            if h in t.keys && f != FailAt(0) then Found(t.keys[h].owner, t.keys[h].keyLabel) else Failed(NotFound)
    ensures f == FailAt(0) ==> Apply(t, RolesForCaller(name), f).answer == Failed(Internal)
    ensures f != FailAt(0) ==> Apply(t, RolesForCaller(name), f).answer == RoleList(if name in t.callers then t.callers[name] else [])
    ensures f == FailAt(0) ==> Apply(t, CallerExists(name), f).answer == Failed(Internal)
    ensures f != FailAt(0) ==> Apply(t, CallerExists(name), f).answer == Exists(name in t.callers)
    ensures forall op :: IsRead(op) ==> Apply(t, op, f).tables == t
  {
  }

  /** The rows a write needs to find, and must not find, to succeed. */
  ghost predicate Finds(t: Tables, op: Op) {
    match op
    case AddCaller(name) => name !in t.callers
    case DeleteCaller(name) => name in t.callers
    case AddKey(name, hash, _) => name in t.callers && hash !in t.keys
    case DeleteKey(name, id) => exists h :: h in t.keys && t.keys[h].owner == name && t.keys[h].id == id
    case RevokeKey(name, keyLabel) => exists h :: h in t.keys && t.keys[h].owner == name && t.keys[h].keyLabel == keyLabel
    case AssignRole(name, _) => name in t.callers
    case UnassignRole(name, role) => name in t.callers && role in t.callers[name]
    case EnsureCaller(_, _) => true
    case _ => false
  }

  /** The failing statement is one whose error the call reports. */
  ghost predicate Breaks(t: Tables, op: Op, f: Fault) {
    f.FailAt? &&
    match op
    case AddCaller(_) => f.statement == 0
    case DeleteCaller(_) => f.statement <= 1
    case AddKey(_, _, _) => f.statement <= 1
    case DeleteKey(_, _) => f.statement <= 1
    case RevokeKey(_, _) => f.statement <= 1
    case AssignRole(_, _) => f.statement <= 1
    case UnassignRole(_, _) => f.statement <= 2
    // the row count is ignored, and an existing caller gets no role statements
    case EnsureCaller(name, defaults) => f.statement == 0 || (name !in t.callers && 2 <= f.statement < |defaults| + 2)
    case _ => false
  }

  lemma KeyRowsFound(t: Tables, name: string, id: nat, keyLabel: string)
    ensures KeysWithId(t, name, id) != {} <==> exists h :: h in t.keys && t.keys[h].owner == name && t.keys[h].id == id
    ensures KeysWithLabel(t, name, keyLabel) != {} <==> exists h :: h in t.keys && t.keys[h].owner == name && t.keys[h].keyLabel == keyLabel
  {
    if h :| h in t.keys && t.keys[h].owner == name && t.keys[h].id == id {
      assert h in KeysWithId(t, name, id);
    }
    if h :| h in t.keys && t.keys[h].owner == name && t.keys[h].keyLabel == keyLabel {
      assert h in KeysWithLabel(t, name, keyLabel);
    }
  }

  /** A write succeeds exactly when it finds its rows and none of its statements fails. */
  lemma WriteSucceedsExact(t: Tables, op: Op, f: Fault)
    requires !IsRead(op)
    ensures Apply(t, op, f).answer == Done <==> Finds(t, op) && !Breaks(t, op, f)
  {
    match op
    case DeleteKey(name, id) => KeyRowsFound(t, name, id, "");
    case RevokeKey(name, keyLabel) => KeyRowsFound(t, name, 0, keyLabel);
    case _ =>
  }

  /** The error it gives otherwise: a caller that cannot be looked up reads as not found, also when the
      lookup itself fails; a taken name is a duplicate; rows to delete that are not there are not found;
      everything else is internal. */
  lemma WriteErrorExact(t: Tables, op: Op, f: Fault)
    requires !IsRead(op) && Apply(t, op, f).answer != Done
    ensures Apply(t, op, f).answer ==
            match op
            case AddCaller(_) => Failed(if f == FailAt(0) then Internal else Duplicate)
            case AddKey(name, _, _) => Failed(if f == FailAt(0) || name !in t.callers then NotFound else Internal)
            case AssignRole(name, _) => Failed(if f == FailAt(0) || name !in t.callers then NotFound else Internal)
            case UnassignRole(name, _) =>
              Failed(if f == FailAt(0) || name !in t.callers then NotFound else if f == FailAt(1) || f == FailAt(2) then Internal else NotFound)
            case EnsureCaller(_, _) => Failed(Internal)
            case _ => Failed(if Breaks(t, op, f) then Internal else NotFound)
  {
    WriteSucceedsExact(t, op, f);
  }

  /** The failure comes after the rows have been changed. */
  ghost predicate HalfWay(t: Tables, op: Op, f: Fault) {
    match op
    case DeleteCaller(_) => f == FailAt(1)
    case DeleteKey(_, _) => f == FailAt(1)
    case RevokeKey(_, _) => f == FailAt(1)
    case UnassignRole(_, _) => f == FailAt(2)
    case EnsureCaller(name, defaults) => name !in t.callers && f.FailAt? && 2 <= f.statement < |defaults| + 2
    case _ => false
  }

  lemma {:induction false} NothingWithout(t: Tables, name: string, role: string)
    requires name in t.callers && role !in t.callers[name]
    ensures SetRoles(t, name, WithoutRole(t.callers[name], role)) == t
  {
    WithoutRoleSpec(t.callers[name], role);
  }

  /** What a write leaves that does not succeed: the tables as they were; or, half-way, for a deletion
      the tables it leaves when it succeeds, and for a provisioning the caller with the defaults before
      the one that failed. */
  lemma FailedWriteTables(t: Tables, op: Op, f: Fault)
    requires !IsRead(op) && Apply(t, op, f).answer != Done
    ensures !HalfWay(t, op, f) ==> Apply(t, op, f).tables == t
    ensures HalfWay(t, op, f) && !op.EnsureCaller? ==> Apply(t, op, f).tables == Apply(t, op, NoFault).tables
    ensures HalfWay(t, op, f) && op.EnsureCaller? ==>
              var t' := Apply(t, op, f).tables;
              && t'.keys == t.keys && t'.callers.Keys == t.callers.Keys + {op.name} && t'.callers - {op.name} == t.callers - {op.name}
              && forall r :: r in t'.callers[op.name] <==> r in op.defaults[..f.statement - 2]
  {
    match op
    case DeleteKey(name, id) =>
      KeyRowsFound(t, name, id, "");
      assert t.keys - {} == t.keys;
    case RevokeKey(name, keyLabel) =>
      KeyRowsFound(t, name, 0, keyLabel);
      assert t.keys - {} == t.keys;
    case UnassignRole(name, role) =>
      if name in t.callers && role !in t.callers[name] {
        NothingWithout(t, name, role);
      }
    case EnsureCaller(name, defaults) =>
      if HalfWay(t, op, f) {
        WithRolesDistinct([], defaults[..f.statement - 2]);
      }
    case _ =>
  }

  // ---------------------------------------------------------------------------------------------
  // What a successful write promises later reads
  // ---------------------------------------------------------------------------------------------

  function Looked(t: Tables, h: KeyHash): Answer {
    Apply(t, LookupByKey(h), NoFault).answer
  }

  function RoleSet(t: Tables, name: string): set<string> {
    set r | r in RolesOf(t, name)
  }

  /** Nothing else has changed: a key write leaves all callers and their roles alone; any other write
      leaves all callers but the named one alone, and all keys unless it deletes that caller. Surviving
      key rows keep their ids, and only a new key uses one up. */
  ghost predicate NoMore(t: Tables, t': Tables, op: Op) {
    && !IsRead(op)
    && (forall h :: h in t.keys && h in t'.keys ==> t'.keys[h] == t.keys[h])
    && (if op.AddKey? then op.hash in t'.keys && t'.keys[op.hash].id == t.nextKeyId && t'.nextKeyId == t.nextKeyId + 1
        else t'.nextKeyId == t.nextKeyId)
    && (if op.AddKey? || op.DeleteKey? || op.RevokeKey? then t'.callers == t.callers
        else
          && t'.callers - {op.name} == t.callers - {op.name}
          && (!op.DeleteCaller? ==> t'.keys == t.keys))
  }

  /** What the write is for, in terms of what LookupByKey, RolesForCaller and CallerExists answer before
      and after, and no more. */
  ghost predicate Promised(t: Tables, t': Tables, op: Op) {
    NoMore(t, t', op) && Purpose(t, t', op)
  }

  ghost predicate Purpose(t: Tables, t': Tables, op: Op) {
    match op
    case AddCaller(name) => name !in t.callers && name in t'.callers && RolesOf(t', name) == []
    case DeleteCaller(name) =>
      && name !in t'.callers
      && forall h :: Looked(t', h) == if h in t.keys && t.keys[h].owner == name then Failed(NotFound) else Looked(t, h)
    case AddKey(name, hash, keyLabel) =>
      && !Looked(t, hash).Found?
      && forall h :: Looked(t', h) == if h == hash then Found(name, keyLabel) else Looked(t, h)
    case DeleteKey(name, id) =>
      exists g :: g in t.keys && t.keys[g].owner == name && t.keys[g].id == id
                  && forall h :: Looked(t', h) == if h == g then Failed(NotFound) else Looked(t, h)
    case RevokeKey(name, keyLabel) =>
      && (exists g :: Looked(t, g) == Found(name, keyLabel))
      && forall h :: Looked(t', h) == if Looked(t, h) == Found(name, keyLabel) then Failed(NotFound) else Looked(t, h)
    case AssignRole(name, role) => name in t.callers && RoleSet(t', name) == RoleSet(t, name) + {role}
    case UnassignRole(name, role) =>
      role in RolesOf(t, name) && RoleSet(t', name) == RoleSet(t, name) - {role}
    case EnsureCaller(name, defaults) =>
      && name in t'.callers
      && if name in t.callers then t' == t else RoleSet(t', name) == set r | r in defaults
    case _ => false
  }

  lemma DropKeysLooks(t: Tables, doomed: set<KeyHash>, h: KeyHash)
    ensures Looked(DropKeys(t, doomed), h) == if h in doomed then Failed(NotFound) else Looked(t, h)
  {
  }

  lemma DoneDeleteKeyPromise(t: Tables, name: string, id: nat, f: Fault)
    requires KeySchema(t) && Apply(t, DeleteKey(name, id), f).answer.Done?
    ensures Promised(t, Apply(t, DeleteKey(name, id), f).tables, DeleteKey(name, id))
  {
    var g :| g in KeysWithId(t, name, id);
    assert KeysWithId(t, name, id) == {g};
    forall h ensures Looked(Apply(t, DeleteKey(name, id), f).tables, h) == if h == g then Failed(NotFound) else Looked(t, h) {
      DropKeysLooks(t, {g}, h);
    }
  }

  lemma DoneRevokeKeyPromise(t: Tables, name: string, keyLabel: string, f: Fault)
    requires Apply(t, RevokeKey(name, keyLabel), f).answer.Done?
    ensures Promised(t, Apply(t, RevokeKey(name, keyLabel), f).tables, RevokeKey(name, keyLabel))
  {
    var doomed := KeysWithLabel(t, name, keyLabel);
    var g :| g in doomed;
    assert Looked(t, g) == Found(name, keyLabel);
    forall h ensures Looked(DropKeys(t, doomed), h) == if Looked(t, h) == Found(name, keyLabel) then Failed(NotFound) else Looked(t, h) {
      DropKeysLooks(t, doomed, h);
    }
  }

  lemma DoneUnassignPromise(t: Tables, name: string, role: string, f: Fault)
    requires Apply(t, UnassignRole(name, role), f).answer.Done?
    ensures Promised(t, Apply(t, UnassignRole(name, role), f).tables, UnassignRole(name, role))
  {
    WithoutRoleSpec(RolesOf(t, name), role);
  }

  lemma DoneCallerPromise(t: Tables, op: Op, f: Fault)
    requires Apply(t, op, f).answer.Done? && (op.AddCaller? || op.DeleteCaller? || op.AssignRole?)
    ensures Promised(t, Apply(t, op, f).tables, op)
  {
  }

  /** The one failure a call swallows: the row count of a new caller, which is then taken for an old
      one and stays without its default roles. */
  predicate LostCount(t: Tables, op: Op, f: Fault) {
    op.EnsureCaller? && op.name !in t.callers && op.defaults != [] && f == FailAt(1)
  }

  lemma DoneEnsurePromise(t: Tables, name: string, defaults: seq<string>, f: Fault)
    requires Apply(t, EnsureCaller(name, defaults), f).answer.Done?
    ensures var op := EnsureCaller(name, defaults);
            Promised(t, Apply(t, op, f).tables, op) <==> !LostCount(t, op, f)
  {
    WithRolesDistinct([], defaults);
    if LostCount(t, EnsureCaller(name, defaults), f) {
      var wanted := set r | r in defaults;
      assert defaults[0] in wanted && RoleSet(SetRoles(t, name, []), name) == {} != wanted;
    }
  }

  /** A successful write does what it promises, as seen by later reads, and no more, exactly when it is
      not the provisioning of a new caller whose row count is lost. */
  lemma DoneWritePromiseExact(t: Tables, op: Op, f: Fault)
    requires Schema(t) && Apply(t, op, f).answer.Done?
    ensures Promised(t, Apply(t, op, f).tables, op) <==> !LostCount(t, op, f)
  {
    match op
    case EnsureCaller(name, defaults) => DoneEnsurePromise(t, name, defaults, f);
    case UnassignRole(name, role) => DoneUnassignPromise(t, name, role, f);
    case DeleteKey(name, id) => DoneDeleteKeyPromise(t, name, id, f);
    case RevokeKey(name, keyLabel) => DoneRevokeKeyPromise(t, name, keyLabel, f);
    case AddKey(_, _, _) =>
    case _ => DoneCallerPromise(t, op, f);
  }

  /** And provisioning again does not mend it: the caller exists by then. */
  lemma LostCountLeavesNoRoles(name: string, role: string)
    ensures var ensure := EnsureCaller(name, [role]);
            var first := Apply(EMPTY, ensure, FailAt(1));
            var second := Apply(first.tables, ensure, NoFault);
            && LostCount(EMPTY, ensure, FailAt(1))
            && first.answer == second.answer == Done
            && Apply(second.tables, CallerExists(name), NoFault).answer == Exists(true)
            && Apply(second.tables, RolesForCaller(name), NoFault).answer == RoleList([])
  {
  }

  /** A caller as handed to request handlers. One object may be shared by several requests, and
      authentication overwrites its roles and patterns. */
  class Caller {
    const name: string
    var roles: seq<string>
    var allowedTools: seq<string>

    constructor (name: string)
      ensures this.name == name && roles == [] && allowedTools == []
    {
      this.name := name;
      roles, allowedTools := [], [];
    }
  }

  datatype KeyLookup = KeyFound(caller: Caller, keyLabel: string) | KeyFailed(error: Error)

  function KeyAnswer(k: KeyLookup): Answer {
    match k
    case KeyFound(caller, keyLabel) => Found(caller.name, keyLabel)
    case KeyFailed(error) => Failed(error)
  }

  class SQLiteStore {
    var callers: map<string, seq<string>>
    var keys: map<KeyHash, KeyRow>
    var nextKeyId: nat

    ghost function View(): Tables
      reads this
    {
      Tables(callers, keys, nextKeyId)
    }

    constructor ()
      ensures View() == EMPTY
    {
      callers, keys, nextKeyId := map[], map[], 0;
    }

    method LookupByKey(hash: KeyHash, f: Fault) returns (result: KeyLookup)
      ensures KeyAnswer(result) == Apply(View(), Op.LookupByKey(hash), f).answer
      ensures result.KeyFound? ==> fresh(result.caller)
    {
      if f == FailAt(0) || hash !in keys {
        return KeyFailed(NotFound);
      }
      var caller := new Caller(keys[hash].owner);
      result := KeyFound(caller, keys[hash].keyLabel);
    }

    method RolesForCaller(name: string, f: Fault) returns (answer: Answer)
      ensures answer == Apply(View(), Op.RolesForCaller(name), f).answer
    {
      if f == FailAt(0) {
        return Failed(Internal);
      }
      answer := RoleList(if name in callers then callers[name] else []);
    }

    method CallerExists(name: string, f: Fault) returns (answer: Answer)
      ensures answer == Apply(View(), Op.CallerExists(name), f).answer
    {
      answer := if f == FailAt(0) then Failed(Internal) else Exists(name in callers);
    }

    method AddCaller(name: string, f: Fault) returns (answer: Answer)
      modifies this
      ensures Outcome(View(), answer) == Apply(old(View()), Op.AddCaller(name), f)
    {
      if f == FailAt(0) {
        return Failed(Internal);
      }
      if name in callers {
        return Failed(Duplicate);
      }
      callers := callers[name := []];
      return Done;
    }

    method AddKey(name: string, hash: KeyHash, keyLabel: string, f: Fault) returns (answer: Answer)
      modifies this
      ensures Outcome(View(), answer) == Apply(old(View()), Op.AddKey(name, hash, keyLabel), f)
    {
      if f == FailAt(0) || name !in callers {
        return Failed(NotFound);
      }
      if f == FailAt(1) || hash in keys {
        return Failed(Internal);
      }
      keys := keys[hash := KeyRow(nextKeyId, name, keyLabel)];
      nextKeyId := nextKeyId + 1;
      return Done;
    }

    method AssignRole(name: string, role: string, f: Fault) returns (answer: Answer)
      modifies this
      ensures Outcome(View(), answer) == Apply(old(View()), Op.AssignRole(name, role), f)
    {
      if f == FailAt(0) || name !in callers {
        return Failed(NotFound);
      }
      if f == FailAt(1) {
        return Failed(Internal);
      }
      callers := callers[name := WithRole(callers[name], role)];
      return Done;
    }

    method UnassignRole(name: string, role: string, f: Fault) returns (answer: Answer)
      modifies this
      ensures Outcome(View(), answer) == Apply(old(View()), Op.UnassignRole(name, role), f)
    {
      if f == FailAt(0) || name !in callers {
        return Failed(NotFound);
      }
      if f == FailAt(1) {
        return Failed(Internal);
      }
      var rowsHit := role in callers[name];
      callers := callers[name := WithoutRole(callers[name], role)];
      if f == FailAt(2) {
        return Failed(Internal);
      }
      answer := if rowsHit then Done else Failed(NotFound);
    }

    method DeleteCaller(name: string, f: Fault) returns (answer: Answer)
      modifies this
      ensures Outcome(View(), answer) == Apply(old(View()), Op.DeleteCaller(name), f)
    {
      if f == FailAt(0) {
        return Failed(Internal);
      }
      var rowsHit := name in callers;
      if rowsHit {
        var doomed := set h | h in keys && keys[h].owner == name;
        callers, keys := callers - {name}, keys - doomed;
      }
      if f == FailAt(1) {
        return Failed(Internal);
      }
      answer := if rowsHit then Done else Failed(NotFound);
    }

    method DeleteKey(name: string, id: nat, f: Fault) returns (answer: Answer)
      modifies this
      ensures Outcome(View(), answer) == Apply(old(View()), Op.DeleteKey(name, id), f)
    {
      if f == FailAt(0) {
        return Failed(Internal);
      }
      var doomed := set h | h in keys && keys[h].owner == name && keys[h].id == id;
      keys := keys - doomed;
      if f == FailAt(1) {
        return Failed(Internal);
      }
      answer := if doomed != {} then Done else Failed(NotFound);
    }

    method RevokeKey(name: string, keyLabel: string, f: Fault) returns (answer: Answer)
      modifies this
      ensures Outcome(View(), answer) == Apply(old(View()), Op.RevokeKey(name, keyLabel), f)
    {
      if f == FailAt(0) {
        return Failed(Internal);
      }
      var doomed := set h | h in keys && keys[h].owner == name && keys[h].keyLabel == keyLabel;
      keys := keys - doomed;
      if f == FailAt(1) {
        return Failed(Internal);
      }
      answer := if doomed != {} then Done else Failed(NotFound);
    }

    /** Not a transaction: each default role is its own INSERT. An error of the row count is ignored. */
    method EnsureCaller(name: string, defaults: seq<string>, f: Fault) returns (answer: Answer)
      modifies this
      ensures Outcome(View(), answer) == Apply(old(View()), Op.EnsureCaller(name, defaults), f)
    {
      if f == FailAt(0) {
        return Failed(Internal);
      }
      var inserted := name !in callers;
      if inserted {
        callers := callers[name := []];
      }
      var rowsHit := inserted && f != FailAt(1);
      if !rowsHit {
        return Done;
      }
      var i := 0;
      while i < |defaults|
        invariant 0 <= i <= |defaults|
        invariant f.FailAt? ==> f.statement > i + 1
        invariant View() == SetRoles(old(View()), name, WithRoles([], defaults[..i]))
      {
        if f == FailAt(i + 2) {
          return Failed(Internal);
        }
        assert defaults[..i + 1][..i] == defaults[..i];
        callers := callers[name := WithRole(callers[name], defaults[i])];
        i := i + 1;
      }
      assert defaults[..i] == defaults;
      return Done;
    }
  }
}
