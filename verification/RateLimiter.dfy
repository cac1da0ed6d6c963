/** The three-level rate limiter over Redis. Every level is one run of the sliding-window script on
    its own key; the first level that refuses stops the call. */
module RateLimiting {
  import opened SlidingWindows
  import opened ColonSeparated

  /** `window` is in seconds. */
  datatype RateLimit = RateLimit(count: int, window: nat, rate: real)

  datatype OptionalLimit = Unlimited | Limited(limit: RateLimit)

  /** One level to check: its key and the limit that applies. */
  datatype Check = Check(level: string, key: string, limit: RateLimit)

  datatype Snapshot = Snapshot(limit: int, remaining: nat, window: nat)

  datatype Denial = NotDenied | Denied(level: string)

  datatype Progress = Progress(denial: Denial, snapshots: seq<Snapshot>)

  type Db = map<string, Key>
  type Logs = map<string, seq<nat>>

  /** How Redis serves one level: the script runs and answers, does not run, or runs and its reply is
      lost, for instance to the deadline of the call. */
  datatype Service = Answers | Unreachable | ReplyLost

  /** The surroundings of one call: its clock reading and the text Lua prints for it; for each level, the
      random draw, how Redis serves it, and the server's clock at the time. */
  datatype Env = Env(now: nat, stamp: string, draws: map<string, string>, redis: map<string, Service>, at: map<string, nat>)

  function Get(db: Db, key: string): Key {
    if key in db then db[key] else NO_KEY
  }

  function LogOf(logs: Logs, key: string): seq<nat> {
    if key in logs then logs[key] else []
  }

  /** The set member this level would add. */
  function Member(env: Env, level: string): string {
    Encode(env.stamp, if level in env.draws then env.draws[level] else "")
  }

  function ServiceOf(env: Env, level: string): Service {
    if level in env.redis then env.redis[level] else Answers
  }

  function ServerTime(env: Env, level: string): nat {
    if level in env.at then env.at[level] else env.now
  }

  function RunScript(db: Db, c: Check, env: Env): Reply {
    Script(Get(db, c.key), c.limit.count, Micros(c.limit), env.now, ServerTime(env, c.level), Member(env, c.level))
  }

  function Micros(limit: RateLimit): nat {
    limit.window * SECOND
  }

  function Remaining(limit: int, count: int): nat {
    if limit - count < 0 then 0 else limit - count
  }

  function Note(p: Progress, c: Check, allowed: bool, count: int): Progress {
    Progress(if allowed then p.denial else Denied(c.level), p.snapshots + [Snapshot(c.limit.count, Remaining(c.limit.count, count), c.limit.window)])
  }

  /** One level against Redis; an error denies, whether or not the script ran. */
  function CheckOnce(db: Db, p: Progress, c: Check, env: Env): (Db, Progress) {
    var r := RunScript(db, c, env);
    match ServiceOf(env, c.level)
    case Unreachable => (db, Note(p, c, false, c.limit.count))
    case ReplyLost => (db[c.key := r.key], Note(p, c, false, c.limit.count))
    case Answers => (db[c.key := r.key], Note(p, c, r.allowed, r.count))
  }

  /** All levels in order, up to the first denial. */
  function CheckAll(db: Db, p: Progress, cs: seq<Check>, env: Env): (Db, Progress)
    decreases |cs|
  {
    if cs == [] || p.denial.Denied? then (db, p)
    else
      var (db', p') := CheckOnce(db, p, cs[0], env);
      CheckAll(db', p', cs[1..], env)
  }

  /** The same over logs that keep every admission. */
  function IdealOnce(logs: Logs, p: Progress, c: Check, env: Env): (Logs, Progress) {
    var r := Ideal(LogOf(logs, c.key), c.limit.count, Micros(c.limit), env.now);
    match ServiceOf(env, c.level)
    case Unreachable => (logs, Note(p, c, false, c.limit.count))
    case ReplyLost => (logs[c.key := r.log], Note(p, c, false, c.limit.count))
    case Answers => (logs[c.key := r.log], Note(p, c, r.allowed, r.count))
  }

  function IdealAll(logs: Logs, p: Progress, cs: seq<Check>, env: Env): (Logs, Progress)
    decreases |cs|
  {
    if cs == [] || p.denial.Denied? then (logs, p)
    else
      var (logs', p') := IdealOnce(logs, p, cs[0], env);
      IdealAll(logs', p', cs[1..], env)
  }

  const NOTHING := Progress(NotDenied, [])

  // ---------------------------------------------------------------------------------------------
  // The verdict of one call
  // ---------------------------------------------------------------------------------------------

  ghost predicate Room(logs: Logs, c: Check, env: Env) {
    CountAfter(LogOf(logs, c.key), env.now - Micros(c.limit)) < c.limit.count
  }

  /** Redis answers and the window of this level has room. */
  ghost predicate Passes(logs: Logs, c: Check, env: Env) {
    ServiceOf(env, c.level) == Answers && Room(logs, c, env)
  }

  /** The script runs and admits, whether or not the call learns of it. */
  ghost predicate Charged(logs: Logs, c: Check, env: Env) {
    ServiceOf(env, c.level) != Unreachable && Room(logs, c, env)
  }

  ghost predicate DistinctKeys(cs: seq<Check>) {
    forall i, j :: 0 <= i < j < |cs| ==> cs[i].key != cs[j].key
  }

  ghost predicate Charges(cs: seq<Check>, key: string) {
    exists i :: 0 <= i < |cs| && cs[i].key == key
  }

  lemma {:induction false} OtherKeysUntouched(logs: Logs, p: Progress, cs: seq<Check>, env: Env, key: string)
    requires !Charges(cs, key)
    ensures LogOf(IdealAll(logs, p, cs, env).0, key) == LogOf(logs, key)
    decreases |cs|
  {
    if cs != [] && p.denial.NotDenied? {
      assert cs[0].key != key;
      var (logs', p') := IdealOnce(logs, p, cs[0], env);
      assert forall i :: 0 <= i < |cs[1..]| ==> cs[1..][i] == cs[i + 1];
      OtherKeysUntouched(logs', p', cs[1..], env, key);
    }
  }

  /** The first n levels pass and the next one, if any, does not. */
  ghost predicate FirstRefusal(logs: Logs, cs: seq<Check>, env: Env, n: nat) {
    && n <= |cs|
    && (forall i :: 0 <= i < n ==> Passes(logs, cs[i], env))
    && (n < |cs| ==> !Passes(logs, cs[n], env))
  }

  lemma RefusalAfterFirst(logs: Logs, p: Progress, cs: seq<Check>, env: Env, n: nat)
    requires DistinctKeys(cs) && FirstRefusal(logs, cs, env, n) && n > 0
    ensures FirstRefusal(IdealOnce(logs, p, cs[0], env).0, cs[1..], env, n - 1)
    ensures forall i :: 1 <= i < |cs| ==> LogOf(IdealOnce(logs, p, cs[0], env).0, cs[i].key) == LogOf(logs, cs[i].key)
  {
    var logs' := IdealOnce(logs, p, cs[0], env).0;
    forall i | 1 <= i < |cs| ensures LogOf(logs', cs[i].key) == LogOf(logs, cs[i].key) {
      assert cs[0].key != cs[i].key;
    }
    forall i | 0 <= i < |cs[1..]| ensures Passes(logs', cs[1..][i], env) <==> Passes(logs, cs[i + 1], env) {
    }
  }

  /** Read off the logs before the call: it is refused at the first level that does not pass, and not
      refused if all pass. */
  lemma {:induction false} VerdictExact(logs: Logs, p: Progress, cs: seq<Check>, env: Env, n: nat)
    requires DistinctKeys(cs) && p.denial.NotDenied? && FirstRefusal(logs, cs, env, n)
    ensures IdealAll(logs, p, cs, env).1.denial == if n < |cs| then Denied(cs[n].level) else NotDenied
    decreases |cs|
  {
    if n > 0 {
      RefusalAfterFirst(logs, p, cs, env, n);
      FirstPasses(logs, p, cs, env);
      var (logs', p') := IdealOnce(logs, p, cs[0], env);
      VerdictExact(logs', p', cs[1..], env, n - 1);
    } else if cs != [] {
      assert IdealOnce(logs, p, cs[0], env).1.denial == Denied(cs[0].level);
    }
  }

  /** One level charges its key if the script admits and nothing otherwise. */
  lemma ChargeOnce(logs: Logs, p: Progress, c: Check, env: Env, key: string)
    ensures LogOf(IdealOnce(logs, p, c, env).0, key) == LogOf(logs, key) + (if key == c.key && Charged(logs, c, env) then [env.now] else [])
    ensures p.denial.NotDenied? ==> (IdealOnce(logs, p, c, env).1.denial.NotDenied? <==> Passes(logs, c, env))
  {
  }

  /** After a level that passes, the rest of the levels decide. */
  lemma FirstPasses(logs: Logs, p: Progress, cs: seq<Check>, env: Env)
    requires DistinctKeys(cs) && cs != [] && p.denial.NotDenied? && Passes(logs, cs[0], env)
    ensures DistinctKeys(cs[1..])
    ensures var (logs', p') := IdealOnce(logs, p, cs[0], env);
            p'.denial.NotDenied? && IdealAll(logs, p, cs, env) == IdealAll(logs', p', cs[1..], env)
  {
    ChargeOnce(logs, p, cs[0], env, cs[0].key);
  }

  lemma ChargeHead(logs: Logs, p: Progress, cs: seq<Check>, env: Env)
    requires DistinctKeys(cs) && p.denial.NotDenied? && cs != []
    ensures LogOf(IdealAll(logs, p, cs, env).0, cs[0].key) == LogOf(logs, cs[0].key) + (if Charged(logs, cs[0], env) then [env.now] else [])
  {
    var (logs', p') := IdealOnce(logs, p, cs[0], env);
    ChargeOnce(logs, p, cs[0], env, cs[0].key);
    assert !Charges(cs[1..], cs[0].key);
    OtherKeysUntouched(logs', p', cs[1..], env, cs[0].key);
  }

  /** A level that refuses is the last; it is charged only if its reply was lost. */
  lemma RefusalIsLast(logs: Logs, p: Progress, cs: seq<Check>, env: Env, key: string)
    requires p.denial.NotDenied? && cs != [] && !Passes(logs, cs[0], env)
    ensures LogOf(IdealAll(logs, p, cs, env).0, key) ==
            LogOf(logs, key) + (if key == cs[0].key && Charged(logs, cs[0], env) then [env.now] else [])
  {
    var (logs', p') := IdealOnce(logs, p, cs[0], env);
    ChargeOnce(logs, p, cs[0], env, key);
    assert IdealAll(logs', p', cs[1..], env) == (logs', p');
  }

  /** All levels before i pass. */
  ghost predicate Comes(logs: Logs, cs: seq<Check>, env: Env, i: nat)
    requires i <= |cs|
  {
    forall j :: 0 <= j < i ==> Passes(logs, cs[j], env)
  }

  lemma ComesStep(logs: Logs, p: Progress, cs: seq<Check>, env: Env, i: nat)
    requires DistinctKeys(cs) && 0 < i < |cs|
    ensures var logs' := IdealOnce(logs, p, cs[0], env).0;
            && DistinctKeys(cs[1..]) && cs[1..][i - 1] == cs[i]
            && LogOf(logs', cs[i].key) == LogOf(logs, cs[i].key)
            && (Comes(logs, cs, env, i) <==> Passes(logs, cs[0], env) && Comes(logs', cs[1..], env, i - 1))
  {
    var logs', rest := IdealOnce(logs, p, cs[0], env).0, cs[1..];
    forall j | 0 <= j < |rest| ensures rest[j] == cs[j + 1] && (Passes(logs', rest[j], env) <==> Passes(logs, cs[j + 1], env)) {
      assert cs[0].key != cs[j + 1].key;
    }
    assert cs[0].key != cs[i].key;
    if Passes(logs, cs[0], env) && Comes(logs', rest, env, i - 1) {
      forall j | 0 <= j < i ensures Passes(logs, cs[j], env) {
        assert j > 0 ==> rest[j - 1] == cs[j];
      }
    }
  }

  /** What a call adds to the log of level i. */
  ghost predicate ChargesAt(logs: Logs, p: Progress, cs: seq<Check>, env: Env, i: nat)
    requires i < |cs|
  {
    var charged := Comes(logs, cs, env, i) && Charged(logs, cs[i], env);
    LogOf(IdealAll(logs, p, cs, env).0, cs[i].key) == LogOf(logs, cs[i].key) + (if charged then [env.now] else [])
  }

  lemma ChargesFirst(logs: Logs, p: Progress, cs: seq<Check>, env: Env)
    requires DistinctKeys(cs) && p.denial.NotDenied? && cs != []
    ensures ChargesAt(logs, p, cs, env, 0)
  {
    ChargeHead(logs, p, cs, env);
  }

  lemma ChargesNone(logs: Logs, p: Progress, cs: seq<Check>, env: Env, i: nat)
    requires DistinctKeys(cs) && p.denial.NotDenied? && 0 < i < |cs| && !Passes(logs, cs[0], env)
    ensures ChargesAt(logs, p, cs, env, i)
  {
    RefusalIsLast(logs, p, cs, env, cs[i].key);
    assert cs[0].key != cs[i].key;
    assert !Comes(logs, cs, env, i);
  }

  lemma ChargesLater(logs: Logs, p: Progress, cs: seq<Check>, env: Env, i: nat)
    requires DistinctKeys(cs) && p.denial.NotDenied? && 0 < i < |cs| && Passes(logs, cs[0], env)
    requires var (logs', p') := IdealOnce(logs, p, cs[0], env); ChargesAt(logs', p', cs[1..], env, i - 1)
    ensures ChargesAt(logs, p, cs, env, i)
  {
    ComesStep(logs, p, cs, env, i);
    FirstPasses(logs, p, cs, env);
  }

  /** Level i is charged one admission iff all levels before it pass and its own script admits; that
      includes a refusing level whose reply was lost. */
  lemma {:induction false} ChargesExact(logs: Logs, p: Progress, cs: seq<Check>, env: Env, i: nat)
    requires DistinctKeys(cs) && p.denial.NotDenied? && i < |cs|
    ensures ChargesAt(logs, p, cs, env, i)
    decreases |cs|
  {
    if i == 0 {
      ChargesFirst(logs, p, cs, env);
    } else if !Passes(logs, cs[0], env) {
      ChargesNone(logs, p, cs, env, i);
    } else {
      FirstPasses(logs, p, cs, env);
      var o := IdealOnce(logs, p, cs[0], env);
      ChargesExact(o.0, o.1, cs[1..], env, i - 1);
      ChargesLater(logs, p, cs, env, i);
    }
  }

  // ---------------------------------------------------------------------------------------------
  // The call itself
  // ---------------------------------------------------------------------------------------------

  /** Every level that reaches Redis would get the reply of its log. */
  ghost predicate SameReplies(db: Db, logs: Logs, cs: seq<Check>, env: Env) {
    forall i :: 0 <= i < |cs| && ServiceOf(env, cs[i].level) != Unreachable ==>
      SameReply(RunScript(db, cs[i], env), Ideal(LogOf(logs, cs[i].key), cs[i].limit.count, Micros(cs[i].limit), env.now))
  }

  /** Checking a level leaves the replies of the other levels alone. */
  lemma RestSameReplies(db: Db, logs: Logs, p: Progress, cs: seq<Check>, env: Env)
    requires DistinctKeys(cs) && cs != [] && SameReplies(db, logs, cs, env)
    ensures DistinctKeys(cs[1..])
    ensures SameReplies(CheckOnce(db, p, cs[0], env).0, IdealOnce(logs, p, cs[0], env).0, cs[1..], env)
    ensures CheckOnce(db, p, cs[0], env).1 == IdealOnce(logs, p, cs[0], env).1
  {
    var db', logs', rest := CheckOnce(db, p, cs[0], env).0, IdealOnce(logs, p, cs[0], env).0, cs[1..];
    forall i | 0 <= i < |rest|
      ensures rest[i] == cs[i + 1] && Get(db', rest[i].key) == Get(db, rest[i].key) && LogOf(logs', rest[i].key) == LogOf(logs, rest[i].key)
    {
      assert cs[0].key != cs[i + 1].key;
    }
  }

  /** Then a call has the verdict and the counts of the logs. */
  lemma {:induction false} CheckAllIsIdealAll(db: Db, logs: Logs, p: Progress, cs: seq<Check>, env: Env)
    requires DistinctKeys(cs) && SameReplies(db, logs, cs, env)
    ensures CheckAll(db, p, cs, env).1 == IdealAll(logs, p, cs, env).1
    decreases |cs|
  {
    if cs != [] && p.denial.NotDenied? {
      RestSameReplies(db, logs, p, cs, env);
      var (db', p') := CheckOnce(db, p, cs[0], env);
      CheckAllIsIdealAll(db', IdealOnce(logs, p, cs[0], env).0, p', cs[1..], env);
    }
  }

  /** A call on Redis is refused at the first level that does not pass by its log, and not refused if all
      pass. */
  lemma CallVerdictExact(db: Db, logs: Logs, cs: seq<Check>, env: Env, n: nat)
    requires DistinctKeys(cs) && SameReplies(db, logs, cs, env) && FirstRefusal(logs, cs, env, n)
    ensures CheckAll(db, NOTHING, cs, env).1.denial == if n < |cs| then Denied(cs[n].level) else NotDenied
  {
    CheckAllIsIdealAll(db, logs, NOTHING, cs, env);
    VerdictExact(logs, NOTHING, cs, env, n);
  }

  // ---------------------------------------------------------------------------------------------
  // What the headers say
  // ---------------------------------------------------------------------------------------------

  /** A level reports its limit and how many more admissions its window takes after this call. */
  lemma SnapshotExact(logs: Logs, p: Progress, c: Check, env: Env)
    requires ServiceOf(env, c.level) == Answers && Micros(c.limit) > 0
    ensures var (logs', p') := IdealOnce(logs, p, c, env);
            var used := CountAfter(LogOf(logs', c.key), env.now - Micros(c.limit));
            && |p'.snapshots| == |p.snapshots| + 1
            && var s := p'.snapshots[|p.snapshots|];
               s.limit == c.limit.count && s.window == c.limit.window
               && s.remaining == (if used < c.limit.count then c.limit.count - used else 0)
  {
    CountAppend(LogOf(logs, c.key), env.now, env.now - Micros(c.limit), env.now);
  }

  /** One level in full: the script gets the limit's count, its window in microseconds and the two clocks;
      an error denies with nothing remaining, whether or not the script ran. */
  lemma CheckOnceExact(db: Db, p: Progress, c: Check, env: Env, key: string)
    ensures var member := env.stamp + ":" + if c.level in env.draws then env.draws[c.level] else "";
            var r := Script(Get(db, c.key), c.limit.count, c.limit.window * 1_000_000, env.now, ServerTime(env, c.level), member);
            var (db', p') := CheckOnce(db, p, c, env);
            var service := ServiceOf(env, c.level);
            && Get(db', key) == (if key == c.key && service != Unreachable then r.key else Get(db, key))
            && p'.denial == (if service == Answers && r.allowed then p.denial else Denied(c.level))
            && p'.snapshots == p.snapshots + [p'.snapshots[|p.snapshots|]]
            && var s := p'.snapshots[|p.snapshots|];
               s.limit == c.limit.count && s.window == c.limit.window
               && s.remaining == (if service == Answers && r.count < c.limit.count then c.limit.count - r.count else 0)
  {
  }

  ghost predicate SomeZero(ss: seq<Snapshot>) {
    exists i :: 0 <= i < |ss| && ss[i].remaining == 0
  }

  /** A refusing level reports nothing remaining. */
  lemma {:induction false} DenialLeavesZero(db: Db, p: Progress, cs: seq<Check>, env: Env)
    requires p.denial.Denied? ==> SomeZero(p.snapshots)
    ensures var p' := CheckAll(db, p, cs, env).1; p'.denial.Denied? ==> SomeZero(p'.snapshots)
    decreases |cs|
  {
    if cs != [] && p.denial.NotDenied? {
      var (db', p') := CheckOnce(db, p, cs[0], env);
      if p'.denial.Denied? {
        assert p'.snapshots[|p.snapshots|].remaining == 0;
      }
      DenialLeavesZero(db', p', cs[1..], env);
    }
  }

  lemma {:induction false} SnapshotPerCheck(db: Db, p: Progress, cs: seq<Check>, env: Env)
    ensures |CheckAll(db, p, cs, env).1.snapshots| >= |p.snapshots|
    ensures p.denial.NotDenied? && cs != [] ==> |CheckAll(db, p, cs, env).1.snapshots| > |p.snapshots|
    decreases |cs|
  {
    if cs != [] && p.denial.NotDenied? {
      var (db', p') := CheckOnce(db, p, cs[0], env);
      SnapshotPerCheck(db', p', cs[1..], env);
    }
  }

  lemma {:induction false} CheckAllConcat(db: Db, p: Progress, cs: seq<Check>, ds: seq<Check>, env: Env)
    ensures CheckAll(db, p, cs + ds, env) == var (db', p') := CheckAll(db, p, cs, env); CheckAll(db', p', ds, env)
    decreases |cs|
  {
    if cs == [] {
      assert cs + ds == ds;
    } else if p.denial.NotDenied? {
      var (db', p') := CheckOnce(db, p, cs[0], env);
      assert (cs + ds)[1..] == cs[1..] + ds;
      CheckAllConcat(db', p', cs[1..], ds, env);
    }
  }

  /** The earliest snapshot among those with least remaining. */
  ghost predicate MostRestrictive(ss: seq<Snapshot>, best: Snapshot) {
    exists i :: && 0 <= i < |ss| && ss[i] == best
                && (forall j :: 0 <= j < |ss| ==> best.remaining <= ss[j].remaining)
                && (forall j :: 0 <= j < i ==> best.remaining < ss[j].remaining)
  }

  method PickMostRestrictive(ss: seq<Snapshot>) returns (best: Snapshot)
    requires ss != []
    ensures MostRestrictive(ss, best)
  {
    best := ss[0];
    ghost var at := 0;
    for k := 1 to |ss|
      invariant 0 <= at < k && ss[at] == best
      invariant forall j :: 0 <= j < k ==> best.remaining <= ss[j].remaining
      invariant forall j :: 0 <= j < at ==> best.remaining < ss[j].remaining
    {
      if ss[k].remaining < best.remaining {
        best := ss[k];
        at := k;
      }
    }
  }

  // ---------------------------------------------------------------------------------------------
  // Which limits apply
  // ---------------------------------------------------------------------------------------------

  /** The most permissive limit among the roles, earliest on ties; the default without any. */
  ghost predicate Effective(table: map<string, RateLimit>, roles: seq<string>, default: OptionalLimit, r: OptionalLimit) {
    if exists i :: 0 <= i < |roles| && roles[i] in table
    then exists i :: && 0 <= i < |roles| && roles[i] in table && r == Limited(table[roles[i]])
                     && (forall j :: 0 <= j < |roles| && roles[j] in table ==> table[roles[j]].rate <= table[roles[i]].rate)
                     && (forall j :: 0 <= j < i && roles[j] in table ==> table[roles[j]].rate < table[roles[i]].rate)
    else r == default
  }

  function BestOf(table: map<string, RateLimit>, roles: seq<string>): OptionalLimit {
    if roles == [] then Unlimited
    else
      var best, role := BestOf(table, roles[..|roles| - 1]), roles[|roles| - 1];
      if role in table && (best.Unlimited? || table[role].rate > best.limit.rate) then Limited(table[role]) else best
  }

  function EffectiveOf(table: map<string, RateLimit>, roles: seq<string>, default: OptionalLimit): OptionalLimit {
    var best := BestOf(table, roles);
    if best.Limited? then best else default
  }

  /** The best of the first roles, spelled out; `at` is where it comes from. */
  ghost predicate BestAt(table: map<string, RateLimit>, roles: seq<string>, best: OptionalLimit, at: int) {
    if best.Unlimited? then forall j :: 0 <= j < |roles| ==> roles[j] !in table
    else
      && 0 <= at < |roles| && roles[at] in table && best.limit == table[roles[at]]
      && (forall j :: 0 <= j < |roles| && roles[j] in table ==> table[roles[j]].rate <= best.limit.rate)
      && (forall j :: 0 <= j < at && roles[j] in table ==> table[roles[j]].rate < best.limit.rate)
  }

  lemma {:induction false} BestOfExact(table: map<string, RateLimit>, roles: seq<string>) returns (at: int)
    ensures BestAt(table, roles, BestOf(table, roles), at)
  {
    at := 0;
    if roles != [] {
      var n := |roles| - 1;
      var front := roles[..n];
      at := BestOfExact(table, front);
      assert forall j :: 0 <= j < n ==> front[j] == roles[j];
      var best := BestOf(table, front);
      if roles[n] in table && (best.Unlimited? || table[roles[n]].rate > best.limit.rate) {
        at := n;
      }
    }
  }

  lemma EffectiveOfExact(table: map<string, RateLimit>, roles: seq<string>, default: OptionalLimit)
    ensures Effective(table, roles, default, EffectiveOf(table, roles, default))
  {
    var at := BestOfExact(table, roles);
  }

  method EffectiveLimit(table: map<string, RateLimit>, roles: seq<string>, default: OptionalLimit) returns (r: OptionalLimit)
    ensures r == EffectiveOf(table, roles, default)
    ensures Effective(table, roles, default, r)
  {
    var best := Unlimited;
    for k := 0 to |roles|
      invariant best == BestOf(table, roles[..k])
    {
      assert roles[..k + 1][..k] == roles[..k];
      if roles[k] in table && (best.Unlimited? || table[roles[k]].rate > best.limit.rate) {
        best := Limited(table[roles[k]]);
      }
    }
    assert roles[..|roles|] == roles;
    EffectiveOfExact(table, roles, default);
    if best.Limited? {
      return best;
    }
    return default;
  }

  datatype RateLimitResult =
    | NoLimits
    | Limits(denial: Denial, limit: int, remaining: nat, window: nat, retryAfter: int)

  const NANOS := 1_000_000_000

  /** Suggested wait in nanoseconds: the window over the limit, at least a second, on denials only. */
  function RetryAfter(denial: Denial, best: Snapshot): int {
    if denial.Denied? && best.limit > 0 then
      var d := best.window * NANOS / best.limit;
      if d < NANOS then NANOS else d
    else 0
  }

  /** The wait suggested on a denial is the window divided by the limit, in whole nanoseconds, but at least a
      second; otherwise there is none. */
  lemma RetryAfterExact(denial: Denial, best: Snapshot)
    ensures denial.NotDenied? || best.limit <= 0 ==> RetryAfter(denial, best) == 0
    ensures denial.Denied? && best.limit > 0 ==>
              var r, whole := RetryAfter(denial, best), best.window * 1_000_000_000;
              if whole < best.limit * 1_000_000_000 then r == 1_000_000_000 else r * best.limit <= whole < (r + 1) * best.limit
  {
    if denial.Denied? && best.limit > 0 {
      var whole := best.window * NANOS;
      var d := whole / best.limit;
      assert whole == d * best.limit + whole % best.limit;
      if whole < best.limit * NANOS {
        if d >= NANOS {
          Grows(NANOS, d, best.limit);
          assert false;
        }
      } else if d < NANOS {
        Grows(d + 1, NANOS, best.limit);
        assert false;
      }
    }
  }

  lemma Grows(a: int, b: int, c: int)
    requires a <= b && c >= 0
    ensures a * c <= b * c
  {
  }

  class RedisRateLimiter {
    var db: Db
    const keyPrefix: string
    const defaultCaller: OptionalLimit
    const defaultTool: OptionalLimit
    const defaultUpstream: OptionalLimit
    const roleCaller: map<string, RateLimit>
    const roleTool: map<string, RateLimit>
    const upstreamLimits: map<string, RateLimit>

    constructor (keyPrefix: string, defaultCaller: OptionalLimit, defaultTool: OptionalLimit, defaultUpstream: OptionalLimit,
                 roleCaller: map<string, RateLimit>, roleTool: map<string, RateLimit>, upstreamLimits: map<string, RateLimit>)
      ensures db == map[] && this.keyPrefix == keyPrefix
      ensures this.defaultCaller == defaultCaller && this.defaultTool == defaultTool && this.defaultUpstream == defaultUpstream
      ensures this.roleCaller == roleCaller && this.roleTool == roleTool && this.upstreamLimits == upstreamLimits
    {
      db := map[];
      this.keyPrefix := keyPrefix;
      this.defaultCaller, this.defaultTool, this.defaultUpstream := defaultCaller, defaultTool, defaultUpstream;
      this.roleCaller, this.roleTool, this.upstreamLimits := roleCaller, roleTool, upstreamLimits;
    }

    function CallerKey(caller: string): string {
      keyPrefix + "rl:caller:" + caller
    }

    function ToolKey(caller: string, tool: string): string {
      keyPrefix + "rl:tool:" + Encode(caller, tool)
    }

    function UpstreamKey(upstream: string): string {
      keyPrefix + "rl:upstream:" + upstream
    }

    function UpstreamLimit(upstream: string): OptionalLimit {
      if upstream in upstreamLimits then Limited(upstreamLimits[upstream]) else defaultUpstream
    }

    function CallerChecks(caller: string, roles: seq<string>): seq<Check> {
      var limit := EffectiveOf(roleCaller, roles, defaultCaller);
      if caller != "" && limit.Limited? then [Check("caller", CallerKey(caller), limit.limit)] else []
    }

    function ToolChecks(caller: string, tool: string, roles: seq<string>): seq<Check> {
      var limit := EffectiveOf(roleTool, roles, defaultTool);
      if caller != "" && tool != "" && limit.Limited? then [Check("tool", ToolKey(caller, tool), limit.limit)] else []
    }

    function UpstreamChecks(upstream: string): seq<Check> {
      var limit := UpstreamLimit(upstream);
      if upstream != "" && limit.Limited? then [Check("upstream", UpstreamKey(upstream), limit.limit)] else []
    }

    /** The levels that apply, in the order they are checked. */
    function Checks(caller: string, tool: string, upstream: string, roles: seq<string>): seq<Check> {
      CallerChecks(caller, roles) + ToolChecks(caller, tool, roles) + UpstreamChecks(upstream)
    }

    /** Which levels a call is checked at, in order, each with its key and limit: the caller's if it has a
        name and a limit applies, the caller's for the tool if both have names, the upstream's if it has
        one; a role's limit or the default, an upstream's own limit or the default. */
    lemma ChecksExact(caller: string, tool: string, upstream: string, roles: seq<string>) returns (c: OptionalLimit, t: OptionalLimit)
      ensures Effective(roleCaller, roles, defaultCaller, c) && Effective(roleTool, roles, defaultTool, t)
      ensures var u := if upstream in upstreamLimits then Limited(upstreamLimits[upstream]) else defaultUpstream;
              Checks(caller, tool, upstream, roles) ==
                (if caller != "" && c.Limited? then [Check("caller", keyPrefix + "rl:caller:" + caller, c.limit)] else []) +
                (if caller != "" && tool != "" && t.Limited? then [Check("tool", keyPrefix + "rl:tool:" + caller + ":" + tool, t.limit)] else []) +
                (if upstream != "" && u.Limited? then [Check("upstream", keyPrefix + "rl:upstream:" + upstream, u.limit)] else [])
    {
      c, t := EffectiveOf(roleCaller, roles, defaultCaller), EffectiveOf(roleTool, roles, defaultTool);
      EffectiveOfExact(roleCaller, roles, defaultCaller);
      EffectiveOfExact(roleTool, roles, defaultTool);
      assert keyPrefix + "rl:tool:" + Encode(caller, tool) == keyPrefix + "rl:tool:" + caller + ":" + tool;
    }

    /** The levels of one call never share a key. */
    lemma ChecksDistinct(caller: string, tool: string, upstream: string, roles: seq<string>)
      ensures DistinctKeys(Checks(caller, tool, upstream, roles))
    {
      var k, t, u := CallerKey(caller), ToolKey(caller, tool), UpstreamKey(upstream);
      assert k[|keyPrefix| + 3] == 'c' && t[|keyPrefix| + 3] == 't' && u[|keyPrefix| + 3] == 'u';
    }

    /** What `Allow` decides, by the logs: its levels never share a key. */
    lemma AllowVerdictExact(logs: Logs, caller: string, tool: string, upstream: string, roles: seq<string>, env: Env, n: nat)
      requires var cs := Checks(caller, tool, upstream, roles); SameReplies(db, logs, cs, env) && FirstRefusal(logs, cs, env, n)
      ensures var cs := Checks(caller, tool, upstream, roles);
              CheckAll(db, NOTHING, cs, env).1.denial == if n < |cs| then Denied(cs[n].level) else NotDenied
    {
      ChecksDistinct(caller, tool, upstream, roles);
      CallVerdictExact(db, logs, Checks(caller, tool, upstream, roles), env, n);
    }

    lemma ToolKeyCancels(caller: string, tool: string, caller': string, tool': string)
      ensures ToolKey(caller, tool) == ToolKey(caller', tool') <==> Encode(caller, tool) == Encode(caller', tool')
    {
      var p := keyPrefix + "rl:tool:";
      assert ToolKey(caller, tool)[|p|..] == Encode(caller, tool) && ToolKey(caller', tool')[|p|..] == Encode(caller', tool');
    }

    /** Two callers can share a tool key exactly when they are the same or one name is the other up to
        one of its colons. */
    lemma ToolKeysSharedExact(caller: string, caller': string)
      ensures (exists tool, tool' :: tool != "" && tool' != "" && ToolKey(caller, tool) == ToolKey(caller', tool')) <==> Nested(caller, caller')
    {
      MeetExact(caller, caller');
      forall tool, tool' ensures ToolKey(caller, tool) == ToolKey(caller', tool') <==> Encode(caller, tool) == Encode(caller', tool') {
        ToolKeyCancels(caller, tool, caller', tool');
      }
    }

    /** So different callers without a colon never do, and one of them never with itself for two tools;
        with a colon two callers can. */
    lemma ToolKeysIsolate(caller: string, tool: string, caller': string, tool': string)
      ensures ':' !in caller && ':' !in caller' ==> (ToolKey(caller, tool) == ToolKey(caller', tool') <==> caller == caller' && tool == tool')
      ensures ToolKey("a", "b:c") == ToolKey("a:b", "c")
    {
      ToolKeyCancels(caller, tool, caller', tool');
      assert Encode("a", "b:c") == Encode("a:b", "c");
      if ':' !in caller && ':' !in caller' && ToolKey(caller, tool) == ToolKey(caller', tool') {
        EncodeInjective(caller, tool, caller', tool');
      }
    }

    method CheckLimit(c: Check, env: Env, p: Progress) returns (p': Progress)
      modifies this
      ensures (db, p') == CheckOnce(old(db), p, c, env)
    {
      var service := ServiceOf(env, c.level);
      var allowed, count := false, c.limit.count;
      if service != Unreachable {
        var r := Script(Get(db, c.key), c.limit.count, Micros(c.limit), env.now, ServerTime(env, c.level), Member(env, c.level));
        db := db[c.key := r.key];
        if service == Answers {
          allowed, count := r.allowed, r.count;
        }
      }
      p' := Note(p, c, allowed, count);
    }

    /** The three blocks, each skipped once a level has refused. */
    method RunLevels(caller: string, tool: string, upstream: string, roles: seq<string>, env: Env) returns (p: Progress)
      modifies this
      ensures (db, p) == CheckAll(old(db), NOTHING, Checks(caller, tool, upstream, roles), env)
    {
      p := NOTHING;
      if caller != "" {
        var limit := EffectiveLimit(roleCaller, roles, defaultCaller);
        if limit.Limited? {
          p := CheckLimit(Check("caller", CallerKey(caller), limit.limit), env, p);
        }
      }
      assert (db, p) == CheckAll(old(db), NOTHING, CallerChecks(caller, roles), env);
      ghost var db1, p1 := db, p;
      if p.denial.NotDenied? && caller != "" && tool != "" {
        var limit := EffectiveLimit(roleTool, roles, defaultTool);
        if limit.Limited? {
          p := CheckLimit(Check("tool", ToolKey(caller, tool), limit.limit), env, p);
        }
      }
      assert (db, p) == CheckAll(db1, p1, ToolChecks(caller, tool, roles), env);
      ghost var db2, p2 := db, p;
      if p.denial.NotDenied? && upstream != "" {
        var limit := UpstreamLimit(upstream);
        if limit.Limited? {
          p := CheckLimit(Check("upstream", UpstreamKey(upstream), limit.limit), env, p);
        }
      }
      assert (db, p) == CheckAll(db2, p2, UpstreamChecks(upstream), env);
      CheckAllConcat(old(db), NOTHING, CallerChecks(caller, roles), ToolChecks(caller, tool, roles), env);
      CheckAllConcat(old(db), NOTHING, CallerChecks(caller, roles) + ToolChecks(caller, tool, roles), UpstreamChecks(upstream), env);
    }

    /** The checks run in order up to the first denial; the result reports the most restrictive level
        checked, which on a denial has nothing remaining. */
    method Allow(caller: string, tool: string, upstream: string, roles: seq<string>, env: Env) returns (result: RateLimitResult)
      modifies this
      ensures var cs := Checks(caller, tool, upstream, roles);
              var (db', p) := CheckAll(old(db), NOTHING, cs, env);
              && db == db'
              && (result.NoLimits? <==> cs == [])
              && (result.Limits? ==>
                    && result.denial == p.denial
                    && var best := Snapshot(result.limit, result.remaining, result.window);
                       MostRestrictive(p.snapshots, best) && result.retryAfter == RetryAfter(p.denial, best))
      ensures result.Limits? && result.denial.Denied? ==> result.remaining == 0
      ensures result.Limits? && result.denial.Denied? && result.limit > 0 ==> result.retryAfter >= NANOS
    {
      ghost var cs := Checks(caller, tool, upstream, roles);
      DenialLeavesZero(db, NOTHING, cs, env);
      SnapshotPerCheck(db, NOTHING, cs, env);
      var p := RunLevels(caller, tool, upstream, roles, env);
      if p.snapshots == [] {
        return NoLimits;
      }
      var best := PickMostRestrictive(p.snapshots);
      result := Limits(p.denial, best.limit, best.remaining, best.window, RetryAfter(p.denial, best));
    }
  }
}
