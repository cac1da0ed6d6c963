/** Many calls on one Redis. Each run of the script is a step of its own, so the levels of overlapping
    calls interleave; callers' clocks may differ from the server's and from each other. */
module LimiterRuns {
  import opened SlidingWindows
  import opened RateLimiting
  import opened ColonSeparated

  /** A call under way: what it has noted so far and the levels it has yet to check. */
  datatype Running = Running(p: Progress, rest: seq<Check>, env: Env)

  /** `logs` keeps every admission of a key and `lost` those its set no longer holds; `last` is the latest
      caller's time used with a key and `horizon` the latest start of a window trimmed to; `clock` is the
      server's time of the last run. */
  datatype World = World(db: Db, logs: Logs, lost: Logs, last: map<string, nat>, horizon: map<string, int>, clock: nat,
                         calls: map<nat, Running>)

  datatype Step = Arrive(id: nat, checks: seq<Check>, env: Env) | Level(id: nat)

  const EMPTY := World(map[], map[], map[], map[], map[], 0, map[])

  predicate Enabled(w: World, a: Step) {
    match a
    case Arrive(id, _, _) => id !in w.calls
    case Level(id) => id in w.calls && w.calls[id].rest != [] && w.calls[id].p.denial.NotDenied?
  }

  function LastOf(w: World, key: string): nat {
    if key in w.last then w.last[key] else 0
  }

  function HorizonOf(w: World, key: string): int {
    if key in w.horizon then w.horizon[key] else -1
  }

  function CheckOf(w: World, a: Step): Check
    requires Enabled(w, a) && a.Level?
  {
    w.calls[a.id].rest[0]
  }

  function EnvOf(w: World, a: Step): Env
    requires Enabled(w, a) && a.Level?
  {
    w.calls[a.id].env
  }

  /** The step runs the script. */
  predicate Runs(w: World, a: Step) {
    Enabled(w, a) && a.Level? && ServiceOf(EnvOf(w, a), CheckOf(w, a).level) != Unreachable
  }

  function AtOf(w: World, a: Step): nat
    requires Runs(w, a)
  {
    ServerTime(EnvOf(w, a), CheckOf(w, a).level)
  }

  function ReplyOf(w: World, a: Step): Reply
    requires Runs(w, a)
  {
    RunScript(w.db, CheckOf(w, a), EnvOf(w, a))
  }

  function IdealOf(w: World, a: Step): LogReply
    requires Runs(w, a)
  {
    var c := CheckOf(w, a);
    Ideal(LogOf(w.logs, c.key), c.limit.count, Micros(c.limit), EnvOf(w, a).now)
  }

  ghost function LostOf(w: World, a: Step): seq<nat>
    requires Runs(w, a)
  {
    var c, env := CheckOf(w, a), EnvOf(w, a);
    LostAfter(Get(w.db, c.key), LogOf(w.lost, c.key), c.limit.count, Micros(c.limit), env.now, AtOf(w, a), Member(env, c.level))
  }

  /** Where the memory of the key begins for this run. */
  function ForgottenOf(w: World, a: Step): int
    requires Runs(w, a)
  {
    var c := CheckOf(w, a);
    Forgotten(Get(w.db, c.key), HorizonOf(w, c.key), EnvOf(w, a).now, AtOf(w, a))
  }

  /** The next level of a call. */
  ghost function AfterLevel(w: World, a: Step): World
    requires Enabled(w, a) && a.Level?
  {
    var r, c, env := w.calls[a.id], CheckOf(w, a), EnvOf(w, a);
    var (db, p) := CheckOnce(w.db, r.p, c, env);
    var calls := w.calls[a.id := Running(p, r.rest[1..], env)];
    if Runs(w, a) then
      World(db, w.logs[c.key := AfterReply(LogOf(w.logs, c.key), ReplyOf(w, a).allowed, env.now)], w.lost[c.key := LostOf(w, a)],
            w.last[c.key := if LastOf(w, c.key) < env.now then env.now else LastOf(w, c.key)],
            w.horizon[c.key := Max(ForgottenOf(w, a), env.now - Micros(c.limit))], AtOf(w, a), calls)
    else
      w.(db := db, calls := calls)
  }

  ghost function Next(w: World, a: Step): World
    requires Enabled(w, a)
  {
    match a
    case Arrive(id, checks, env) => w.(calls := w.calls[id := Running(NOTHING, checks, env)])
    case Level(_) => AfterLevel(w, a)
  }

  ghost predicate IsRun(w: World, steps: seq<Step>)
    decreases |steps|
  {
    steps != [] ==> Enabled(w, steps[0]) && IsRun(Next(w, steps[0]), steps[1..])
  }

  ghost function Run(w: World, steps: seq<Step>): World
    requires IsRun(w, steps)
    decreases |steps|
  {
    if steps == [] then w else Run(Next(w, steps[0]), steps[1..])
  }

  // ---------------------------------------------------------------------------------------------
  // What may be said of every step of a run
  // ---------------------------------------------------------------------------------------------

  /** The least window and the largest count used with a key. */
  datatype Plan = Plan(window: nat, bound: nat)

  type Plans = string -> Plan

  /** How far callers' clocks may be behind the server's and ahead of it. */
  datatype Skew = Skew(late: nat, early: nat)

  datatype Claim =
    | InOrder(plans: Plans, skew: Skew)
    | AnyOrder(plans: Plans, skew: Skew)
    | OneWindow(plans: Plans)
    | Sorted(skew: Skew)
    | AddsNew
    | NewStamp
    | AnswersAsLog
    | NothingMissed
    | WithinHorizon

  predicate Planned(plans: Plans, c: Check) {
    Micros(c.limit) >= plans(c.key).window > 0 && c.limit.count <= plans(c.key).bound
  }

  ghost predicate Holds(claim: Claim, w: World, a: Step) {
    match claim
    // the calls on each key come in the order of their times, clocks within the extra second
    case InOrder(plans, skew) =>
      Runs(w, a) ==>
        && Planned(plans, CheckOf(w, a)) && LastOf(w, CheckOf(w, a).key) <= EnvOf(w, a).now
        && Near(EnvOf(w, a).now, AtOf(w, a), skew.late, skew.early) && skew.late + skew.early <= SECOND
    // they come in any order, the server's clock does not go back
    case AnyOrder(plans, skew) =>
      Runs(w, a) ==>
        && Planned(plans, CheckOf(w, a)) && w.clock <= AtOf(w, a)
        && Near(EnvOf(w, a).now, AtOf(w, a), skew.late, skew.early)
    // each key is used with one window only
    case OneWindow(plans) => Runs(w, a) ==> Micros(CheckOf(w, a).limit) == plans(CheckOf(w, a).key).window
    // the calls on each key come in the order of their times, with any windows and limits
    case Sorted(skew) =>
      Runs(w, a) ==>
        && Micros(CheckOf(w, a).limit) > 0 && LastOf(w, CheckOf(w, a).key) <= EnvOf(w, a).now
        && Near(EnvOf(w, a).now, AtOf(w, a), skew.late, skew.early) && skew.late + skew.early <= SECOND
    // a member that is added is new to its set
    case AddsNew =>
      Runs(w, a) && ReplyOf(w, a).allowed ==>
        var c, env := CheckOf(w, a), EnvOf(w, a);
        NewMember(Get(w.db, c.key), Micros(c.limit), env.now, AtOf(w, a), Member(env, c.level))
    // no two calls print their time alike, and none checks a key twice
    case NewStamp =>
      a.Arrive? ==> ':' !in a.env.stamp && a.env.stamp !in Stamps(w) && DistinctKeys(a.checks)
    // the script replies as the log would
    case AnswersAsLog =>
      Runs(w, a) ==> SameReply(ReplyOf(w, a), IdealOf(w, a))
    // no admission of the window has been trimmed, expired with its key or overwritten
    case NothingMissed =>
      Runs(w, a) ==>
        var c, now := CheckOf(w, a), EnvOf(w, a).now;
        MissesNothing(Get(w.db, c.key), LogOf(w.lost, c.key), Micros(c.limit), now, AtOf(w, a))
    // no admission of the window lies at or before the start of a window already trimmed to, and none
    // went with an expired key
    case WithinHorizon =>
      Runs(w, a) ==>
        var c, now := CheckOf(w, a), EnvOf(w, a).now;
        CountIn(LogOf(w.logs, c.key), now - Micros(c.limit), ForgottenOf(w, a)) == 0
  }

  ghost predicate Throughout(claim: Claim, w: World, steps: seq<Step>)
    requires IsRun(w, steps)
    decreases |steps|
  {
    steps != [] ==> Holds(claim, w, steps[0]) && Throughout(claim, Next(w, steps[0]), steps[1..])
  }

  function Stamps(w: World): set<string> {
    set id | id in w.calls :: w.calls[id].env.stamp
  }

  // ---------------------------------------------------------------------------------------------
  // Exactly when the limiter answers as one that keeps every admission
  // ---------------------------------------------------------------------------------------------

  ghost predicate Tracked(w: World) {
    forall key :: Tracks(Get(w.db, key), LogOf(w.logs, key), LogOf(w.lost, key))
  }

  lemma RunExact(db: Db, log: seq<nat>, lost: seq<nat>, c: Check, env: Env)
    requires Tracks(Get(db, c.key), log, lost)
    ensures var s := Ideal(log, c.limit.count, Micros(c.limit), env.now);
            SameReply(RunScript(db, c, env), s) <==> MissesNothing(Get(db, c.key), lost, Micros(c.limit), env.now, ServerTime(env, c.level))
  {
    AnswerExact(Get(db, c.key), log, lost, c.limit.count, Micros(c.limit), env.now, ServerTime(env, c.level), Member(env, c.level));
  }

  lemma StepExact(w: World, a: Step)
    requires Tracked(w) && Enabled(w, a)
    ensures Holds(AnswersAsLog, w, a) <==> Holds(NothingMissed, w, a)
  {
    if Runs(w, a) {
      var c := CheckOf(w, a);
      assert Tracks(Get(w.db, c.key), LogOf(w.logs, c.key), LogOf(w.lost, c.key));
      RunExact(w.db, LogOf(w.logs, c.key), LogOf(w.lost, c.key), c, EnvOf(w, a));
    }
  }

  lemma StepTracksKey(w: World, a: Step, key: string)
    requires Tracks(Get(w.db, key), LogOf(w.logs, key), LogOf(w.lost, key)) && Enabled(w, a)
    ensures Tracks(Get(Next(w, a).db, key), LogOf(Next(w, a).logs, key), LogOf(Next(w, a).lost, key))
  {
    OtherKeys(w, a, key);
    if Runs(w, a) && key == CheckOf(w, a).key {
      var c, env := CheckOf(w, a), EnvOf(w, a);
      TracksStep(Get(w.db, key), LogOf(w.logs, key), LogOf(w.lost, key), c.limit.count, Micros(c.limit), env.now, AtOf(w, a), Member(env, c.level));
    }
  }

  lemma StepKeepsTracked(w: World, a: Step)
    requires Tracked(w) && Enabled(w, a)
    ensures Tracked(Next(w, a))
  {
    forall key ensures Tracks(Get(Next(w, a).db, key), LogOf(Next(w, a).logs, key), LogOf(Next(w, a).lost, key)) {
      assert Tracks(Get(w.db, key), LogOf(w.logs, key), LogOf(w.lost, key));
      StepTracksKey(w, a, key);
    }
  }

  /** A step touches one key. */
  lemma OtherKeys(w: World, a: Step, key: string)
    requires Enabled(w, a)
    ensures var w' := Next(w, a);
            if Runs(w, a) && key == CheckOf(w, a).key then
              && Get(w'.db, key) == ReplyOf(w, a).key
              && LogOf(w'.logs, key) == AfterReply(LogOf(w.logs, key), ReplyOf(w, a).allowed, EnvOf(w, a).now)
              && LogOf(w'.lost, key) == LostOf(w, a)
              && HorizonOf(w', key) == Max(ForgottenOf(w, a), EnvOf(w, a).now - Micros(CheckOf(w, a).limit))
              && LastOf(w', key) == if LastOf(w, key) < EnvOf(w, a).now then EnvOf(w, a).now else LastOf(w, key)
            else
              && Get(w'.db, key) == Get(w.db, key) && LogOf(w'.logs, key) == LogOf(w.logs, key)
              && LogOf(w'.lost, key) == LogOf(w.lost, key) && LastOf(w', key) == LastOf(w, key) && HorizonOf(w', key) == HorizonOf(w, key)
  {
  }

  lemma {:induction false} TrackedExact(w: World, steps: seq<Step>)
    requires Tracked(w) && IsRun(w, steps)
    ensures Throughout(AnswersAsLog, w, steps) <==> Throughout(NothingMissed, w, steps)
    decreases |steps|
  {
    if steps != [] {
      StepExact(w, steps[0]);
      StepKeepsTracked(w, steps[0]);
      TrackedExact(Next(w, steps[0]), steps[1..]);
    }
  }

  /** For any limits, windows, times, clocks and members, in every interleaving from an empty database: all
      replies are those of a limiter that keeps every admission if and only if no run of the script has
      lost an admission of its window, to a trim by an earlier run, to expiry or to an overwritten member. */
  lemma RepliesExact(steps: seq<Step>)
    requires IsRun(EMPTY, steps)
    ensures Throughout(AnswersAsLog, EMPTY, steps) <==> Throughout(NothingMissed, EMPTY, steps)
  {
    forall key ensures Tracks(Get(EMPTY.db, key), LogOf(EMPTY.logs, key), LogOf(EMPTY.lost, key)) {
      assert forall x: int :: Trim(map[], x) == map[];
    }
    TrackedExact(EMPTY, steps);
  }

  ghost predicate KeyRemembered(w: World, early: nat, key: string) {
    Remembers(Get(w.db, key), LogOf(w.logs, key), HorizonOf(w, key), LastOf(w, key), early)
  }

  ghost predicate Remembered(w: World, early: nat) {
    forall key :: KeyRemembered(w, early, key)
  }

  lemma StepRemembersKey(w: World, skew: Skew, a: Step, key: string)
    requires KeyRemembered(w, skew.early, key) && Enabled(w, a) && Holds(Sorted(skew), w, a) && Holds(AddsNew, w, a)
    ensures KeyRemembered(Next(w, a), skew.early, key)
  {
    OtherKeys(w, a, key);
    if Runs(w, a) && key == CheckOf(w, a).key {
      var c, env := CheckOf(w, a), EnvOf(w, a);
      HorizonMoves(Get(w.db, key), LogOf(w.logs, key), HorizonOf(w, key), LastOf(w, key), skew.late, skew.early, c.limit.count, Micros(c.limit),
                   env.now, AtOf(w, a), Member(env, c.level));
    }
  }

  lemma StepHorizonExact(w: World, skew: Skew, a: Step)
    requires Remembered(w, skew.early) && Enabled(w, a) && Holds(Sorted(skew), w, a)
    ensures Holds(AnswersAsLog, w, a) <==> Holds(WithinHorizon, w, a)
  {
    if Runs(w, a) {
      var c, env := CheckOf(w, a), EnvOf(w, a);
      assert KeyRemembered(w, skew.early, c.key);
      HorizonAnswerExact(Get(w.db, c.key), LogOf(w.logs, c.key), HorizonOf(w, c.key), LastOf(w, c.key), skew.late, skew.early,
                         c.limit.count, Micros(c.limit), env.now, AtOf(w, a), Member(env, c.level));
    }
  }

  lemma {:induction false} RememberedExact(w: World, skew: Skew, steps: seq<Step>)
    requires Remembered(w, skew.early) && IsRun(w, steps) && Throughout(Sorted(skew), w, steps) && Throughout(AddsNew, w, steps)
    ensures Throughout(AnswersAsLog, w, steps) <==> Throughout(WithinHorizon, w, steps)
    decreases |steps|
  {
    if steps != [] {
      StepHorizonExact(w, skew, steps[0]);
      forall key ensures KeyRemembered(Next(w, steps[0]), skew.early, key) {
        assert KeyRemembered(w, skew.early, key);
        StepRemembersKey(w, skew, steps[0], key);
      }
      RememberedExact(Next(w, steps[0]), skew, steps[1..]);
    }
  }

  /** The same by the times of the calls alone, when those on each key come in the order of their times and
      add new members, with any windows and limits: all replies are the log's if and only if no call's
      window reaches an admission at or before the start of a window already trimmed to, or one that went
      with an expired key. */
  lemma HorizonExact(skew: Skew, steps: seq<Step>)
    requires IsRun(EMPTY, steps) && Throughout(Sorted(skew), EMPTY, steps) && Throughout(AddsNew, EMPTY, steps)
    ensures Throughout(AnswersAsLog, EMPTY, steps) <==> Throughout(WithinHorizon, EMPTY, steps)
  {
    forall key ensures KeyRemembered(EMPTY, skew.early, key) {
      assert forall x: int :: Trim(map[], x) == map[];
    }
    RememberedExact(EMPTY, skew, steps);
  }

  // ---------------------------------------------------------------------------------------------
  // The limiter that keeps every admission
  // ---------------------------------------------------------------------------------------------

  datatype IdealWorld = IdealWorld(logs: Logs, calls: map<nat, Running>)

  function IdealNext(w: IdealWorld, a: Step): IdealWorld {
    match a
    case Arrive(id, checks, env) => w.(calls := w.calls[id := Running(NOTHING, checks, env)])
    case Level(id) =>
      if id !in w.calls || w.calls[id].rest == [] then w
      else
        var r := w.calls[id];
        var (logs, p) := IdealOnce(w.logs, r.p, r.rest[0], r.env);
        IdealWorld(logs, w.calls[id := Running(p, r.rest[1..], r.env)])
  }

  function IdealRun(w: IdealWorld, steps: seq<Step>): IdealWorld
    decreases |steps|
  {
    if steps == [] then w else IdealRun(IdealNext(w, steps[0]), steps[1..])
  }

  function View(w: World): IdealWorld {
    IdealWorld(w.logs, w.calls)
  }

  lemma StepIsIdeal(w: World, a: Step)
    requires Enabled(w, a) && Holds(AnswersAsLog, w, a)
    ensures View(Next(w, a)) == IdealNext(View(w), a)
  {
  }

  /** Where all replies are the log's, the whole run is the ideal one: every call has the same verdicts and
      remaining counts, and the same is admitted. */
  lemma {:induction false} RunIsIdeal(w: World, steps: seq<Step>)
    requires IsRun(w, steps) && Throughout(AnswersAsLog, w, steps)
    ensures View(Run(w, steps)) == IdealRun(View(w), steps)
    decreases |steps|
  {
    if steps != [] {
      StepIsIdeal(w, steps[0]);
      RunIsIdeal(Next(w, steps[0]), steps[1..]);
    }
  }

  /** One call with nothing in between is what `CheckAll` says. */
  ghost function Finish(w: World, id: nat): World
    requires id in w.calls
    decreases if id in w.calls then |w.calls[id].rest| else 0
  {
    if Enabled(w, Level(id)) then Finish(Next(w, Level(id)), id) else w
  }

  lemma {:induction false} FinishIsCheckAll(w: World, id: nat)
    requires id in w.calls
    ensures var r := w.calls[id];
            var w', o := Finish(w, id), CheckAll(w.db, r.p, r.rest, r.env);
            w'.db == o.0 && id in w'.calls && w'.calls[id].p == o.1
    decreases |w.calls[id].rest|
  {
    if Enabled(w, Level(id)) {
      FinishIsCheckAll(Next(w, Level(id)), id);
    }
  }

  /** The next level of a call, when its replies are those of the logs. */
  lemma LevelIsIdeal(w: World, id: nat)
    requires Enabled(w, Level(id)) && DistinctKeys(w.calls[id].rest) && SameReplies(w.db, w.logs, w.calls[id].rest, w.calls[id].env)
    ensures var r, w' := w.calls[id], Next(w, Level(id));
            && w'.logs == IdealOnce(w.logs, r.p, r.rest[0], r.env).0
            && w'.calls[id] == Running(IdealOnce(w.logs, r.p, r.rest[0], r.env).1, r.rest[1..], r.env)
            && DistinctKeys(r.rest[1..]) && SameReplies(w'.db, w'.logs, r.rest[1..], r.env)
  {
    var r := w.calls[id];
    assert Holds(AnswersAsLog, w, Level(id));
    StepIsIdeal(w, Level(id));
    RestSameReplies(w.db, w.logs, r.p, r.rest, r.env);
  }

  /** So a call with nothing in between has the verdict, the counts and the charges of the logs. */
  lemma {:induction false} FinishIsIdealAll(w: World, id: nat)
    requires id in w.calls && DistinctKeys(w.calls[id].rest) && SameReplies(w.db, w.logs, w.calls[id].rest, w.calls[id].env)
    ensures var r := w.calls[id];
            var w', o := Finish(w, id), IdealAll(w.logs, r.p, r.rest, r.env);
            w'.logs == o.0 && id in w'.calls && w'.calls[id].p == o.1
    decreases |w.calls[id].rest|
  {
    if Enabled(w, Level(id)) {
      LevelIsIdeal(w, id);
      FinishIsIdealAll(Next(w, Level(id)), id);
    }
  }

  /** Of a call about to start: level i is charged one admission iff all levels before it pass and its own
      script admits, by the logs. */
  lemma CallChargesExact(w: World, id: nat, i: nat)
    requires id in w.calls && w.calls[id].p == NOTHING && i < |w.calls[id].rest|
    requires DistinctKeys(w.calls[id].rest) && SameReplies(w.db, w.logs, w.calls[id].rest, w.calls[id].env)
    ensures var cs, env := w.calls[id].rest, w.calls[id].env;
            var charged := Comes(w.logs, cs, env, i) && Charged(w.logs, cs[i], env);
            LogOf(Finish(w, id).logs, cs[i].key) == LogOf(w.logs, cs[i].key) + (if charged then [env.now] else [])
  {
    FinishIsIdealAll(w, id);
    ChargesExact(w.logs, NOTHING, w.calls[id].rest, w.calls[id].env, i);
  }

  /** The replies of a call are those of the logs exactly when none of its levels misses an admission. */
  lemma SameRepliesExact(w: World, cs: seq<Check>, env: Env)
    requires Tracked(w)
    ensures SameReplies(w.db, w.logs, cs, env) <==>
              forall i :: 0 <= i < |cs| && ServiceOf(env, cs[i].level) != Unreachable ==>
                MissesNothing(Get(w.db, cs[i].key), LogOf(w.lost, cs[i].key), Micros(cs[i].limit), env.now, ServerTime(env, cs[i].level))
  {
    forall i | 0 <= i < |cs|
      ensures SameReply(RunScript(w.db, cs[i], env), Ideal(LogOf(w.logs, cs[i].key), cs[i].limit.count, Micros(cs[i].limit), env.now)) <==>
              MissesNothing(Get(w.db, cs[i].key), LogOf(w.lost, cs[i].key), Micros(cs[i].limit), env.now, ServerTime(env, cs[i].level))
    {
      assert Tracks(Get(w.db, cs[i].key), LogOf(w.logs, cs[i].key), LogOf(w.lost, cs[i].key));
      RunExact(w.db, LogOf(w.logs, cs[i].key), LogOf(w.lost, cs[i].key), cs[i], env);
    }
  }

  // ---------------------------------------------------------------------------------------------
  // Calls that come in the order of their times, key by key
  // ---------------------------------------------------------------------------------------------

  ghost predicate KeyFaithful(w: World, plan: Plan, early: nat, key: string) {
    && Represents(Get(w.db, key), LogOf(w.logs, key), plan.window, LastOf(w, key), early)
    && Bounded(LogOf(w.logs, key), plan.window, plan.bound)
  }

  ghost predicate Faithful(w: World, plans: Plans, early: nat) {
    forall key :: KeyFaithful(w, plans(key), early, key)
  }

  lemma StepKeepsKeyFaithful(w: World, plans: Plans, skew: Skew, a: Step, key: string)
    requires KeyFaithful(w, plans(key), skew.early, key)
    requires Enabled(w, a) && Holds(InOrder(plans, skew), w, a) && Holds(AddsNew, w, a)
    ensures KeyFaithful(Next(w, a), plans(key), skew.early, key)
  {
    OtherKeys(w, a, key);
    if Runs(w, a) && key == CheckOf(w, a).key {
      var c, env, plan := CheckOf(w, a), EnvOf(w, a), plans(key);
      LeastWindowIsKept(Get(w.db, key), LogOf(w.logs, key), c.limit.count, plan.bound, plan.window, Micros(c.limit), skew.late, skew.early,
                        LastOf(w, key), env.now, AtOf(w, a), Member(env, c.level));
    }
  }

  lemma StepKeepsFaithful(w: World, plans: Plans, skew: Skew, a: Step)
    requires Faithful(w, plans, skew.early) && Enabled(w, a) && Holds(InOrder(plans, skew), w, a) && Holds(AddsNew, w, a)
    ensures Faithful(Next(w, a), plans, skew.early)
  {
    forall key ensures KeyFaithful(Next(w, a), plans(key), skew.early, key) {
      assert KeyFaithful(w, plans(key), skew.early, key);
      StepKeepsKeyFaithful(w, plans, skew, a, key);
    }
  }

  lemma StepAnswersAsLog(w: World, plans: Plans, skew: Skew, a: Step)
    requires Faithful(w, plans, skew.early) && Enabled(w, a) && Holds(InOrder(plans, skew), w, a) && Holds(OneWindow(plans), w, a)
    ensures Holds(AnswersAsLog, w, a)
  {
    if Runs(w, a) {
      var c, env := CheckOf(w, a), EnvOf(w, a);
      assert KeyFaithful(w, plans(c.key), skew.early, c.key);
      ScriptIsIdeal(Get(w.db, c.key), LogOf(w.logs, c.key), c.limit.count, Micros(c.limit), skew.late, skew.early,
                    LastOf(w, c.key), env.now, AtOf(w, a), Member(env, c.level));
    }
  }

  lemma EmptyIsFaithful(plans: Plans, early: nat)
    ensures Faithful(EMPTY, plans, early)
  {
    forall k ensures KeyFaithful(EMPTY, plans(k), early, k) {
      assert forall x: int :: Trim(map[], x) == map[];
    }
  }

  lemma {:induction false} FaithfulThroughout(w: World, plans: Plans, skew: Skew, steps: seq<Step>)
    requires Faithful(w, plans, skew.early) && IsRun(w, steps)
    requires Throughout(InOrder(plans, skew), w, steps) && Throughout(AddsNew, w, steps)
    ensures Faithful(Run(w, steps), plans, skew.early)
    ensures Throughout(OneWindow(plans), w, steps) ==> Throughout(AnswersAsLog, w, steps)
    decreases |steps|
  {
    if steps != [] {
      StepKeepsFaithful(w, plans, skew, steps[0]);
      FaithfulThroughout(Next(w, steps[0]), plans, skew, steps[1..]);
      if Throughout(OneWindow(plans), w, steps) {
        StepAnswersAsLog(w, plans, skew, steps[0]);
      }
    }
  }

  /** In every interleaving from an empty database in which the calls on each key come in the order of their
      times: no half-open window of a key's least length holds more admissions than its largest limit. */
  lemma SlidingWindowBound(plans: Plans, skew: Skew, steps: seq<Step>, key: string, lo: int, hi: int)
    requires IsRun(EMPTY, steps) && Throughout(InOrder(plans, skew), EMPTY, steps) && Throughout(AddsNew, EMPTY, steps)
    requires hi - lo <= plans(key).window
    ensures CountIn(LogOf(Run(EMPTY, steps).logs, key), lo, hi) <= plans(key).bound
  {
    EmptyIsFaithful(plans, skew.early);
    FaithfulThroughout(EMPTY, plans, skew, steps);
    assert KeyFaithful(Run(EMPTY, steps), plans(key), skew.early, key);
  }

  /** With one window per key trimming and expiry are invisible: the run is that of the limiter that keeps
      every admission. */
  lemma LimiterIsIdeal(plans: Plans, skew: Skew, steps: seq<Step>)
    requires IsRun(EMPTY, steps) && Throughout(InOrder(plans, skew), EMPTY, steps) && Throughout(AddsNew, EMPTY, steps)
    requires Throughout(OneWindow(plans), EMPTY, steps)
    ensures View(Run(EMPTY, steps)) == IdealRun(View(EMPTY), steps)
  {
    EmptyIsFaithful(plans, skew.early);
    FaithfulThroughout(EMPTY, plans, skew, steps);
    RunIsIdeal(EMPTY, steps);
  }

  // ---------------------------------------------------------------------------------------------
  // Calls that come in any order
  // ---------------------------------------------------------------------------------------------

  ghost predicate KeyLagFaithful(w: World, plan: Plan, skew: Skew, key: string) {
    && Represents(Get(w.db, key), LogOf(w.logs, key), plan.window, w.clock + skew.early, skew.early)
    && Bounded(LogOf(w.logs, key), plan.window - skew.late - skew.early, plan.bound)
  }

  ghost predicate LagFaithful(w: World, plans: Plans, skew: Skew) {
    forall key :: KeyLagFaithful(w, plans(key), skew, key)
  }

  lemma RunKeepsKeyLagFaithful(w: World, plan: Plan, skew: Skew, a: Step)
    requires Runs(w, a) && KeyLagFaithful(w, plan, skew, CheckOf(w, a).key) && Holds(AddsNew, w, a)
    requires Micros(CheckOf(w, a).limit) >= plan.window > 0 && CheckOf(w, a).limit.count <= plan.bound
    requires w.clock <= AtOf(w, a) && Near(EnvOf(w, a).now, AtOf(w, a), skew.late, skew.early)
    ensures KeyLagFaithful(Next(w, a), plan, skew, CheckOf(w, a).key)
  {
    var c, env := CheckOf(w, a), EnvOf(w, a);
    OtherKeys(w, a, c.key);
    LaggingWindowIsKept(Get(w.db, c.key), LogOf(w.logs, c.key), c.limit.count, plan.bound, plan.window, Micros(c.limit), skew.late, skew.early,
                        w.clock, env.now, AtOf(w, a), Member(env, c.level));
  }

  lemma StepKeepsKeyLagFaithful(w: World, plans: Plans, skew: Skew, a: Step, key: string)
    requires KeyLagFaithful(w, plans(key), skew, key)
    requires Enabled(w, a) && Holds(AnyOrder(plans, skew), w, a) && Holds(AddsNew, w, a)
    ensures KeyLagFaithful(Next(w, a), plans(key), skew, key)
  {
    if Runs(w, a) && key == CheckOf(w, a).key {
      RunKeepsKeyLagFaithful(w, plans(key), skew, a);
    } else {
      OtherKeys(w, a, key);
      Older(Get(w.db, key), LogOf(w.logs, key), plans(key).window, w.clock + skew.early, Next(w, a).clock + skew.early, skew.early);
    }
  }

  lemma StepKeepsLagFaithful(w: World, plans: Plans, skew: Skew, a: Step)
    requires LagFaithful(w, plans, skew) && Enabled(w, a) && Holds(AnyOrder(plans, skew), w, a) && Holds(AddsNew, w, a)
    ensures LagFaithful(Next(w, a), plans, skew)
  {
    forall key ensures KeyLagFaithful(Next(w, a), plans(key), skew, key) {
      assert KeyLagFaithful(w, plans(key), skew, key);
      StepKeepsKeyLagFaithful(w, plans, skew, a, key);
    }
  }

  lemma {:induction false} LagFaithfulThroughout(w: World, plans: Plans, skew: Skew, steps: seq<Step>)
    requires LagFaithful(w, plans, skew) && IsRun(w, steps)
    requires Throughout(AnyOrder(plans, skew), w, steps) && Throughout(AddsNew, w, steps)
    ensures LagFaithful(Run(w, steps), plans, skew)
    decreases |steps|
  {
    if steps != [] {
      StepKeepsLagFaithful(w, plans, skew, steps[0]);
      LagFaithfulThroughout(Next(w, steps[0]), plans, skew, steps[1..]);
    }
  }

  /** In every interleaving, in whatever order the calls come: if callers' clocks are at most `late` behind
      the server's and `early` ahead, windows shorter than a key's least by as much keep the limit. */
  lemma LaggingBound(plans: Plans, skew: Skew, steps: seq<Step>, key: string, lo: int, hi: int)
    requires IsRun(EMPTY, steps) && Throughout(AnyOrder(plans, skew), EMPTY, steps) && Throughout(AddsNew, EMPTY, steps)
    requires hi - lo <= plans(key).window - skew.late - skew.early
    ensures CountIn(LogOf(Run(EMPTY, steps).logs, key), lo, hi) <= plans(key).bound
  {
    forall k ensures KeyLagFaithful(EMPTY, plans(k), skew, k) {
      assert forall x: int :: Trim(map[], x) == map[];
    }
    LagFaithfulThroughout(EMPTY, plans, skew, steps);
    assert KeyLagFaithful(Run(EMPTY, steps), plans(key), skew, key);
  }

  // ---------------------------------------------------------------------------------------------
  // When members are new
  // ---------------------------------------------------------------------------------------------

  /** The stamp a member begins with, if it has one. */
  predicate StampedBy(member: string, stamp: string) {
    SplitOnce(member).Parts? && SplitOnce(member).kind == stamp
  }

  /** No two calls have the same stamp, and none checks a key twice. */
  ghost predicate DistinctStamps(w: World) {
    && (forall id :: id in w.calls ==> ':' !in w.calls[id].env.stamp && DistinctKeys(w.calls[id].rest))
    && (forall id, id' :: id in w.calls && id' in w.calls && id != id' ==> w.calls[id].env.stamp != w.calls[id'].env.stamp)
  }

  /** Every member carries the stamp of a call. */
  ghost predicate MembersStamped(w: World) {
    forall key, m :: m in Get(w.db, key).members ==> SplitOnce(m).Parts? && SplitOnce(m).kind in Stamps(w)
  }

  ghost predicate Unused(w: World, id: nat, key: string)
    requires id in w.calls
  {
    forall m :: m in Get(w.db, key).members ==> !StampedBy(m, w.calls[id].env.stamp)
  }

  /** No call has a member yet in a key it will check. */
  ghost predicate StampsUnused(w: World) {
    forall id, i :: id in w.calls && 0 <= i < |w.calls[id].rest| ==> Unused(w, id, w.calls[id].rest[i].key)
  }

  ghost predicate Stamped(w: World) {
    DistinctStamps(w) && MembersStamped(w) && StampsUnused(w)
  }

  lemma MemberStamp(env: Env, level: string)
    requires ':' !in env.stamp
    ensures StampedBy(Member(env, level), env.stamp)
  {
    SplitInvertsEncode(env.stamp, if level in env.draws then env.draws[level] else "");
  }

  lemma StampedAddsNew(w: World, a: Step)
    requires Stamped(w) && Enabled(w, a)
    ensures Holds(AddsNew, w, a)
  {
    if Runs(w, a) {
      var c, env := CheckOf(w, a), EnvOf(w, a);
      MemberStamp(env, c.level);
      assert Unused(w, a.id, w.calls[a.id].rest[0].key);
    }
  }

  /** A step adds to its key no member but its own. */
  lemma MembersGrow(w: World, a: Step, key: string, m: string)
    requires Enabled(w, a) && m in Get(Next(w, a).db, key).members
    ensures m in Get(w.db, key).members || (Runs(w, a) && key == CheckOf(w, a).key && m == Member(EnvOf(w, a), CheckOf(w, a).level))
  {
    OtherKeys(w, a, key);
  }

  lemma StampsGrow(w: World, w': World)
    requires forall id :: id in w.calls ==> id in w'.calls && w'.calls[id].env == w.calls[id].env
    ensures Stamps(w) <= Stamps(w')
  {
    forall s | s in Stamps(w) ensures s in Stamps(w') {
      var id :| id in w.calls && w.calls[id].env.stamp == s;
      assert w'.calls[id].env.stamp == s;
    }
  }

  lemma ArriveKeepsStamped(w: World, a: Step)
    requires Stamped(w) && Enabled(w, a) && a.Arrive? && Holds(NewStamp, w, a)
    ensures Stamped(Next(w, a))
  {
    var w' := Next(w, a);
    StampsGrow(w, w');
    assert forall id :: id in w.calls ==> w'.calls[id] == w.calls[id] && w.calls[id].env.stamp in Stamps(w);
    forall id, i | id in w'.calls && 0 <= i < |w'.calls[id].rest| ensures Unused(w', id, w'.calls[id].rest[i].key) {
      if id == a.id {
        assert forall m :: m in Get(w.db, a.checks[i].key).members ==> SplitOnce(m).kind in Stamps(w);
      } else {
        assert Unused(w, id, w.calls[id].rest[i].key);
      }
    }
  }

  /** What a level changes in the calls. */
  lemma LevelCalls(w: World, a: Step)
    requires Enabled(w, a) && a.Level?
    ensures var w' := Next(w, a);
            && w'.calls.Keys == w.calls.Keys
            && (forall id :: id in w.calls ==> w'.calls[id].env == w.calls[id].env)
            && (forall id :: id in w.calls && id != a.id ==> w'.calls[id] == w.calls[id])
            && w'.calls[a.id].rest == w.calls[a.id].rest[1..]
  {
  }

  lemma LevelKeepsDistinct(w: World, a: Step)
    requires DistinctStamps(w) && Enabled(w, a) && a.Level?
    ensures DistinctStamps(Next(w, a))
  {
    LevelCalls(w, a);
    var rest := w.calls[a.id].rest;
    assert forall i :: 0 <= i < |rest| - 1 ==> rest[1..][i] == rest[i + 1];
  }

  lemma LevelKeepsMembers(w: World, a: Step)
    requires DistinctStamps(w) && MembersStamped(w) && Enabled(w, a) && a.Level?
    ensures MembersStamped(Next(w, a))
  {
    var w', env := Next(w, a), EnvOf(w, a);
    LevelCalls(w, a);
    StampsGrow(w, w');
    MemberStamp(env, CheckOf(w, a).level);
    assert env.stamp in Stamps(w);
    forall key, m | m in Get(w'.db, key).members ensures SplitOnce(m).Parts? && SplitOnce(m).kind in Stamps(w') {
      MembersGrow(w, a, key, m);
    }
  }

  lemma LevelKeepsUnused(w: World, a: Step, id: nat, key: string)
    requires DistinctStamps(w) && Enabled(w, a) && a.Level? && id in w.calls && id in Next(w, a).calls
    requires Unused(w, id, key) && (id == a.id ==> key != CheckOf(w, a).key)
    ensures Unused(Next(w, a), id, key)
  {
    var w', env := Next(w, a), EnvOf(w, a);
    LevelCalls(w, a);
    MemberStamp(env, CheckOf(w, a).level);
    forall m | m in Get(w'.db, key).members ensures !StampedBy(m, w'.calls[id].env.stamp) {
      MembersGrow(w, a, key, m);
    }
  }

  lemma LevelKeepsStamped(w: World, a: Step)
    requires Stamped(w) && Enabled(w, a) && a.Level?
    ensures Stamped(Next(w, a))
  {
    var w' := Next(w, a);
    LevelCalls(w, a);
    LevelKeepsDistinct(w, a);
    LevelKeepsMembers(w, a);
    forall id, i | id in w'.calls && 0 <= i < |w'.calls[id].rest| ensures Unused(w', id, w'.calls[id].rest[i].key) {
      var rest := w.calls[id].rest;
      var n := if id == a.id then i + 1 else i;
      assert w'.calls[id].rest[i] == rest[n] && Unused(w, id, rest[n].key);
      LevelKeepsUnused(w, a, id, rest[n].key);
    }
  }

  /** Members are new whenever no two calls print their time alike, whatever the random draws are. */
  lemma {:induction false} NewStampsAreNew(w: World, steps: seq<Step>)
    requires Stamped(w) && IsRun(w, steps) && Throughout(NewStamp, w, steps)
    ensures Throughout(AddsNew, w, steps)
    decreases |steps|
  {
    if steps != [] {
      StampedAddsNew(w, steps[0]);
      if steps[0].Arrive? {
        ArriveKeepsStamped(w, steps[0]);
      } else {
        LevelKeepsStamped(w, steps[0]);
      }
      NewStampsAreNew(Next(w, steps[0]), steps[1..]);
    }
  }

  /** From an empty database, by the printed times alone: with calls on each key in the order of their
      times the limit is kept. */
  lemma StampedWindowBound(plans: Plans, skew: Skew, steps: seq<Step>, key: string, lo: int, hi: int)
    requires IsRun(EMPTY, steps) && Throughout(InOrder(plans, skew), EMPTY, steps) && Throughout(NewStamp, EMPTY, steps)
    requires hi - lo <= plans(key).window
    ensures CountIn(LogOf(Run(EMPTY, steps).logs, key), lo, hi) <= plans(key).bound
  {
    NewStampsAreNew(EMPTY, steps);
    SlidingWindowBound(plans, skew, steps, key, lo, hi);
  }
}
