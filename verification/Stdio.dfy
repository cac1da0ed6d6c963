/** The restart machine of the stdio transport. A request holds the mutex except while it sleeps
    before a restart; whether processes start, live and answer is a parameter. Durations are seconds. */
module StdioRestarts {
  import opened Powers

  const MAX_BACKOFF := 60

  /** `child` tells that the command in hand is a child that was started and neither killed nor reaped;
      `starts` counts the children ever started, `ended` those killed or reaped. */
  datatype Transport = Transport(started: bool, closed: bool, restartCount: nat, maxRestarts: nat, backoff: nat,
                                 permanentFail: bool, child: bool, starts: nat, ended: nat)

  datatype Ping = Answered | Refused | TimedOut

  /** What the operating system and the child do during one locked region. */
  datatype Io = Io(alive: bool, startOk: bool, ping: Ping, writeOk: bool, readOk: bool)

  datatype Result = Replied | Sent | Failed

  /** Where a locked region ends: the request returns, or goes to sleep before restarting; `resend` tells
      the restart after a failed write from the one after a failed read. */
  datatype Exit = Return(result: Result) | Sleep(resend: bool, seconds: nat)

  function NewTransport(maxRestarts: nat): Transport {
    Transport(false, false, 0, maxRestarts, 0, false, false, 0, 0)
  }

  /** A new command replaces the one in hand, whatever has become of its child; it may fail to start. */
  function AfterStart(t: Transport, ok: bool): Transport {
    if ok then t.(started := true, child := true, starts := t.starts + 1) else t.(child := false)
  }

  /** The child in hand, if any, is killed or reaped. */
  function AfterKill(t: Transport): Transport {
    t.(started := false, child := false, ended := t.ended + if t.child then 1 else 0)
  }

  predicate Alive(t: Transport, io: Io) {
    t.started && t.child && io.alive
  }

  /** Whether the child runs afterwards. */
  function AfterEnsure(t: Transport, io: Io): (Transport, bool) {
    if t.permanentFail then (t, false)
    else if Alive(t, io) then (t, true)
    else (AfterStart(if t.started then AfterKill(t) else t, io.startOk), io.startOk)
  }

  function Doubled(backoff: nat): nat {
    if backoff == 0 then 1 else if backoff * 2 > MAX_BACKOFF then MAX_BACKOFF else backoff * 2
  }

  /** A restart up to the point where the mutex is released. */
  function AfterBeginRestart(t: Transport, resend: bool): (Transport, Exit) {
    var t' := AfterKill(t).(restartCount := t.restartCount + 1);
    if t'.restartCount > t.maxRestarts then (t'.(permanentFail := true), Return(Failed))
    else (t'.(backoff := Doubled(t.backoff)), Sleep(resend, Doubled(t.backoff)))
  }

  /** The rest of the restart, with the mutex taken again. It does not look whether another request has
      started a child in the meantime. */
  function AfterEndRestart(t: Transport, io: Io): (Transport, bool) {
    if t.closed then (t, false)
    else
      var t' := AfterStart(t, io.startOk);
      if !io.startOk then (t', false)
      else
        match io.ping
        case Answered => (t', true)
        case Refused => (t', false)
        case TimedOut => (AfterKill(t'), false)
  }

  function AfterReply(t: Transport): Transport {
    t.(restartCount := 0, backoff := 0)
  }

  /** From a written request on: notifications are done, others wait for a reply. */
  function AfterWrite(t: Transport, notification: bool, readOk: bool): (Transport, Exit) {
    if notification then (t, Return(Sent))
    else if readOk then (AfterReply(t), Return(Replied))
    else AfterBeginRestart(t, false)
  }

  /** The first locked region of a request. */
  function Begin(t: Transport, notification: bool, io: Io): (Transport, Exit) {
    if t.closed then (t, Return(Failed))
    else
      var (t', ok) := AfterEnsure(t, io);
      if !ok then (t', Return(Failed))
      else if !io.writeOk then AfterBeginRestart(t', true)
      else AfterWrite(t', notification, io.readOk)
  }

  /** The locked region after a sleep. */
  function Wake(t: Transport, resend: bool, notification: bool, io: Io): (Transport, Exit) {
    var (t', ok) := AfterEndRestart(t, io);
    if !ok || !io.writeOk then (t', Return(Failed))
    else if resend then AfterWrite(t', notification, io.readOk)
    else if io.readOk then (AfterReply(t'), Return(Replied))
    else (t', Return(Failed))
  }

  function AfterClose(t: Transport): Transport {
    if t.closed then t else if t.started then AfterKill(t.(closed := true)) else t.(closed := true)
  }

  // ---------------------------------------------------------------------------------------------
  // The object
  // ---------------------------------------------------------------------------------------------

  class StdioTransport {
    var started: bool
    var closed: bool
    var restartCount: nat
    const maxRestarts: nat
    var backoff: nat
    var permanentFail: bool
    var child: bool
    var starts: nat
    var ended: nat

    ghost function View(): Transport
      reads this
    {
      Transport(started, closed, restartCount, maxRestarts, backoff, permanentFail, child, starts, ended)
    }

    constructor (maxRestarts: nat)
      ensures View() == NewTransport(maxRestarts)
    {
      this.maxRestarts := maxRestarts;
      started, closed, restartCount, backoff, permanentFail := false, false, 0, 0, false;
      child, starts, ended := false, 0, 0;
    }

    method StartChild(ok: bool)
      modifies this`started, this`child, this`starts
      ensures View() == AfterStart(old(View()), ok)
    {
      child := ok;
      if ok {
        started, starts := true, starts + 1;
      }
    }

    method KillChild()
      modifies this`started, this`child, this`ended
      ensures View() == AfterKill(old(View()))
    {
      if child {
        ended := ended + 1;
      }
      started, child := false, false;
    }

    method EnsureRunning(io: Io) returns (ok: bool)
      modifies this
      ensures (View(), ok) == AfterEnsure(old(View()), io)
    {
      if permanentFail {
        return false;
      }
      if started && child && io.alive {
        return true;
      }
      if started {
        KillChild();
      }
      StartChild(io.startOk);
      return io.startOk;
    }

    method BeginRestart(resend: bool) returns (e: Exit)
      modifies this
      ensures (View(), e) == AfterBeginRestart(old(View()), resend)
    {
      KillChild();
      restartCount := restartCount + 1;
      if restartCount > maxRestarts {
        permanentFail := true;
        return Return(Failed);
      }
      if backoff == 0 {
        backoff := 1;
      } else {
        backoff := backoff * 2;
        if backoff > MAX_BACKOFF {
          backoff := MAX_BACKOFF;
        }
      }
      return Sleep(resend, backoff);
    }

    method EndRestart(io: Io) returns (ok: bool)
      modifies this
      ensures (View(), ok) == AfterEndRestart(old(View()), io)
    {
      if closed {
        return false;
      }
      StartChild(io.startOk);
      if !io.startOk {
        return false;
      }
      match io.ping
      case Answered => return true;
      case Refused => return false;
      case TimedOut =>
        KillChild();
        return false;
    }

    method ResetBackoff()
      modifies this`restartCount, this`backoff
      ensures View() == AfterReply(old(View()))
    {
      restartCount, backoff := 0, 0;
    }

    method Close()
      modifies this
      ensures View() == AfterClose(old(View()))
    {
      if closed {
        return;
      }
      closed := true;
      if started {
        KillChild();
      }
    }

    /** A request that no other call interrupts while it sleeps: its regions follow each other. */
    method RoundTrip(notification: bool, io: Io, io': Io, io'': Io) returns (result: Result, slept: nat)
      modifies this
      ensures (View(), result, slept) == Uninterrupted(old(View()), notification, io, io', io'')
    {
      slept := 0;
      if closed {
        return Failed, 0;
      }
      var ok := EnsureRunning(io);
      if !ok {
        return Failed, 0;
      }
      var readOk := io.readOk;
      if !io.writeOk {
        var e := BeginRestart(true);
        if e.Return? {
          return Failed, 0;
        }
        slept := e.seconds;
        ok := EndRestart(io');
        if !ok || !io'.writeOk {
          return Failed, slept;
        }
        readOk := io'.readOk;
      }
      if notification {
        return Sent, slept;
      }
      if !readOk {
        var e := BeginRestart(false);
        if e.Return? {
          return Failed, slept;
        }
        slept := slept + e.seconds;
        ok := EndRestart(io'');
        if !ok || !io''.writeOk || !io''.readOk {
          return Failed, slept;
        }
      }
      ResetBackoff();
      return Replied, slept;
    }
  }

  /** The end of an uninterrupted request that left a region with exit e and has slept so far. */
  function Finish(t: Transport, e: Exit, sofar: nat, notification: bool, io: Io): (Transport, Result, nat) {
    if e.Return? then (t, e.result, sofar)
    else
      var (t', e') := Wake(t, false, notification, io);
      (t', if e'.Return? then e'.result else Failed, sofar + e.seconds)
  }

  function Continue(t: Transport, e: Exit, notification: bool, io: Io, io': Io): (Transport, Result, nat) {
    if e.Sleep? && e.resend then
      var (t', e') := Wake(t, true, notification, io);
      Finish(t', e', e.seconds, notification, io')
    else Finish(t, e, 0, notification, io')
  }

  /** The regions of one request run back to back: at most two sleeps. */
  function Uninterrupted(t: Transport, notification: bool, io: Io, io': Io, io'': Io): (Transport, Result, nat) {
    var (t', e) := Begin(t, notification, io);
    Continue(t', e, notification, io', io'')
  }

  // ---------------------------------------------------------------------------------------------
  // When a request is answered
  // ---------------------------------------------------------------------------------------------

  /** A request gets as far as writing: the transport is open and not given up, and its child lives or starts. */
  predicate Serves(t: Transport, io: Io) {
    !t.closed && !t.permanentFail && ((t.started && t.child && io.alive) || io.startOk)
  }

  /** A restarted child answers its ping and takes the request. */
  predicate Takes(io: Io) {
    io.startOk && io.ping == Answered && io.writeOk
  }

  /** The budget allows this many more restarts. */
  predicate Allows(t: Transport, n: nat) {
    t.restartCount + n <= t.maxRestarts
  }

  /** A notification is sent iff it can be written, at once or to the child restarted after that failed. */
  predicate GetsSent(t: Transport, io: Io, io': Io) {
    Serves(t, io) && (io.writeOk || (Allows(t, 1) && Takes(io')))
  }

  /** Any other request is answered iff it can be written and its reply read; after the first failure of either
      it gets one restart, and after a failed write one more if then the read fails. */
  predicate GetsReply(t: Transport, io: Io, io': Io, io'': Io) {
    Serves(t, io) &&
    if io.writeOk then io.readOk || (Allows(t, 1) && Takes(io'') && io''.readOk)
    else Allows(t, 1) && Takes(io') && (io'.readOk || (Allows(t, 2) && Takes(io'') && io''.readOk))
  }

  /** The request needs a first restart, and after it a second. */
  predicate NeedsFirst(t: Transport, notification: bool, io: Io) {
    Serves(t, io) && (!io.writeOk || (!notification && !io.readOk))
  }

  predicate NeedsSecond(t: Transport, notification: bool, io: Io, io': Io) {
    NeedsFirst(t, notification, io) && !io.writeOk && Allows(t, 1) && Takes(io') && !notification && !io'.readOk
  }

  /** A region ends in a restart that the budget allows, or gives up. */
  ghost predicate Restarts(t: Transport, t': Transport, e: Exit, resend: bool) {
    if Allows(t, 1) then
      && e.Sleep? && e.resend == resend && t'.restartCount == t.restartCount + 1
      && t'.maxRestarts == t.maxRestarts && t'.permanentFail == t.permanentFail && t'.closed == t.closed
    else e == Return(Failed) && t'.permanentFail
  }

  ghost predicate Ends(t: Transport, t': Transport, e: Exit, result: Result) {
    e == Return(result) && t'.permanentFail == t.permanentFail && (result == Replied ==> t'.restartCount == 0 && t'.backoff == 0)
  }

  lemma BeginExact(t: Transport, notification: bool, io: Io)
    ensures var (t', e) := Begin(t, notification, io);
            && (!Serves(t, io) ==> Ends(t, t', e, Failed))
            && (NeedsFirst(t, notification, io) ==> Restarts(t, t', e, !io.writeOk))
            && (Serves(t, io) && !NeedsFirst(t, notification, io) ==> Ends(t, t', e, if notification then Sent else Replied))
  {
  }

  lemma WakeExact(t: Transport, resend: bool, notification: bool, io: Io)
    requires !t.closed
    ensures var (t', e) := Wake(t, resend, notification, io);
            && (!Takes(io) ==> Ends(t, t', e, Failed))
            && (Takes(io) && resend && notification ==> Ends(t, t', e, Sent))
            && (Takes(io) && !(resend && notification) && io.readOk ==> Ends(t, t', e, Replied))
            && (Takes(io) && resend && !notification && !io.readOk ==> Restarts(t, t', e, false))
            && (Takes(io) && !resend && !io.readOk ==> Ends(t, t', e, Failed))
  {
  }

  /** What an uninterrupted request comes to, exactly; an answer clears count and backoff. The transport gives
      up exactly when a request needs a restart the budget does not allow. */
  lemma ResultExact(t: Transport, notification: bool, io: Io, io': Io, io'': Io)
    ensures var (t', result, _) := Uninterrupted(t, notification, io, io', io'');
            && (result == Sent <==> notification && GetsSent(t, io, io'))
            && (result == Replied <==> !notification && GetsReply(t, io, io', io''))
            && (result == Replied ==> t'.restartCount == 0 && t'.backoff == 0)
            && (t'.permanentFail <==>
                  || t.permanentFail
                  || (NeedsFirst(t, notification, io) && !Allows(t, 1))
                  || (NeedsSecond(t, notification, io, io') && !Allows(t, 2)))
  {
    var (t1, e1) := Begin(t, notification, io);
    BeginExact(t, notification, io);
    if e1.Sleep? {
      if e1.resend {
        WakeExact(t1, true, notification, io');
        var (t2, e2) := Wake(t1, true, notification, io');
        if e2.Sleep? {
          WakeExact(t2, false, notification, io'');
        }
      } else {
        WakeExact(t1, false, notification, io'');
      }
    }
  }

  /** The second half of a restart, field by field: nothing on a closed transport; otherwise the command in
      hand is the new one, whose child runs unless it did not start or its ping timed out. */
  lemma EndRestartExact(t: Transport, io: Io)
    ensures var (t', ok) := AfterEndRestart(t, io);
            && (ok <==> !t.closed && io.startOk && io.ping == Answered)
            && (t.closed ==> t' == t)
            && (!t.closed ==>
                  && t'.starts == t.starts + (if io.startOk then 1 else 0)
                  && t'.ended == t.ended + (if io.startOk && io.ping == TimedOut then 1 else 0)
                  && (t'.child <==> io.startOk && io.ping != TimedOut)
                  && (t'.started <==> if io.startOk then io.ping != TimedOut else t.started)
                  && t'.restartCount == t.restartCount && t'.backoff == t.backoff && t'.permanentFail == t.permanentFail)
  {
  }

  // ---------------------------------------------------------------------------------------------
  // Interleaved requests
  // ---------------------------------------------------------------------------------------------

  datatype Sleeper = Sleeper(resend: bool, notification: bool)

  datatype World = World(t: Transport, sleepers: map<nat, Sleeper>)

  datatype Step =
    | Enter(id: nat, notification: bool, io: Io)
    | Awake(id: nat, io: Io)
    | Shut

  predicate Enabled(w: World, a: Step) {
    match a
    case Enter(id, _, _) => id !in w.sleepers
    case Awake(id, _) => id in w.sleepers
    case Shut => true
  }

  function Next(w: World, a: Step): World
    requires Enabled(w, a)
  {
    match a
    case Enter(id, notification, io) =>
      var (t, e) := Begin(w.t, notification, io);
      World(t, if e.Sleep? then w.sleepers[id := Sleeper(e.resend, notification)] else w.sleepers)
    case Awake(id, io) =>
      var s := w.sleepers[id];
      var (t, e) := Wake(w.t, s.resend, s.notification, io);
      World(t, if e.Sleep? then w.sleepers[id := Sleeper(e.resend, s.notification)] else w.sleepers - {id})
    case Shut => w.(t := AfterClose(w.t))
  }

  ghost predicate IsRun(w: World, steps: seq<Step>)
    decreases |steps|
  {
    steps != [] ==> Enabled(w, steps[0]) && IsRun(Next(w, steps[0]), steps[1..])
  }

  function Run(w: World, steps: seq<Step>): World
    requires IsRun(w, steps)
    decreases |steps|
  {
    if steps == [] then w else Run(Next(w, steps[0]), steps[1..])
  }

  /** The sleep before restart n: 1, 2, 4, ... seconds, at most a minute. */
  function Backoff(n: nat): nat {
    if n == 0 then 0 else if Pow2(n - 1) > MAX_BACKOFF then MAX_BACKOFF else Pow2(n - 1)
  }

  function Min(a: nat, b: nat): nat {
    if a < b then a else b
  }

  /** Restart count, backoff and permanent failure fit together; a child in hand is marked as started,
      and a closed transport has none in hand. */
  ghost predicate BackoffInv(t: Transport) {
    && t.backoff == Backoff(Min(t.restartCount, t.maxRestarts))
    && (t.restartCount > t.maxRestarts ==> t.permanentFail)
    && (t.child ==> t.started)
    && (t.closed ==> !t.started)
  }

  lemma DoublingIsPower(n: nat)
    ensures Doubled(Backoff(n)) == Backoff(n + 1)
  {
  }

  /** The invariant after a locked region, with the budget it had before. */
  ghost predicate Kept(t: Transport, maxRestarts: nat) {
    BackoffInv(t) && t.maxRestarts == maxRestarts
  }

  lemma BeginRestartKeepsInv(t: Transport, resend: bool)
    requires BackoffInv(t)
    ensures Kept(AfterBeginRestart(t, resend).0, t.maxRestarts)
  {
    DoublingIsPower(t.restartCount);
  }

  lemma AfterWriteKeepsInv(t: Transport, notification: bool, readOk: bool)
    requires BackoffInv(t)
    ensures Kept(AfterWrite(t, notification, readOk).0, t.maxRestarts)
  {
    BeginRestartKeepsInv(t, false);
  }

  lemma BeginKeepsInv(t: Transport, notification: bool, io: Io)
    requires BackoffInv(t)
    ensures Kept(Begin(t, notification, io).0, t.maxRestarts)
  {
    if !t.closed {
      var t' := AfterEnsure(t, io).0;
      assert Kept(t', t.maxRestarts);
      BeginRestartKeepsInv(t', true);
      AfterWriteKeepsInv(t', notification, io.readOk);
    }
  }

  lemma WakeKeepsInv(t: Transport, resend: bool, notification: bool, io: Io)
    requires BackoffInv(t)
    ensures Kept(Wake(t, resend, notification, io).0, t.maxRestarts)
  {
    var t' := AfterEndRestart(t, io).0;
    assert Kept(t', t.maxRestarts);
    AfterWriteKeepsInv(t', notification, io.readOk);
  }

  lemma StepKeepsInv(w: World, a: Step)
    requires BackoffInv(w.t) && Enabled(w, a)
    ensures Kept(Next(w, a).t, w.t.maxRestarts)
  {
    match a
    case Enter(_, notification, io) => BeginKeepsInv(w.t, notification, io);
    case Awake(id, io) => WakeKeepsInv(w.t, w.sleepers[id].resend, w.sleepers[id].notification, io);
    case Shut =>
  }

  lemma {:induction false} RunKeepsInv(w: World, steps: seq<Step>)
    requires BackoffInv(w.t) && IsRun(w, steps)
    ensures Kept(Run(w, steps).t, w.t.maxRestarts)
    decreases |steps|
  {
    if steps != [] {
      StepKeepsInv(w, steps[0]);
      RunKeepsInv(Next(w, steps[0]), steps[1..]);
    }
  }

  /** In every interleaving, restart count n within the budget means a backoff of min(2^(n-1), 60). */
  lemma BackoffIsCappedPower(maxRestarts: nat, steps: seq<Step>)
    requires IsRun(World(NewTransport(maxRestarts), map[]), steps)
    ensures var t := Run(World(NewTransport(maxRestarts), map[]), steps).t;
            && (1 <= t.restartCount <= maxRestarts ==> t.backoff == Min(Pow2(t.restartCount - 1), 60))
            && (t.restartCount == 0 ==> t.backoff == 0)
            && (t.restartCount > maxRestarts ==> t.permanentFail)
  {
    var w := World(NewTransport(maxRestarts), map[]);
    RunKeepsInv(w, steps);
  }

  lemma BeginStarts(t: Transport, notification: bool, io: Io)
    ensures var started := !t.closed && !t.permanentFail && !Alive(t, io) && io.startOk;
            Begin(t, notification, io).0.starts == t.starts + if started then 1 else 0
  {
    var t' := AfterEnsure(t, io).0;
    assert AfterBeginRestart(t', true).0.starts == t'.starts;
  }

  lemma WakeStarts(t: Transport, resend: bool, notification: bool, io: Io)
    ensures Wake(t, resend, notification, io).0.starts == t.starts + if !t.closed && io.startOk then 1 else 0
  {
  }

  /** A step starts a child exactly when a request enters an open transport that is not given up and
      has no live child, or a sleeper wakes on an open transport, and the start works. */
  lemma StartsExactly(w: World, a: Step)
    requires Enabled(w, a)
    ensures Next(w, a).t.starts == w.t.starts + (if StartsChild(w, a) then 1 else 0)
  {
    match a
    case Enter(_, notification, io) => BeginStarts(w.t, notification, io);
    case Awake(id, io) => WakeStarts(w.t, w.sleepers[id].resend, w.sleepers[id].notification, io);
    case Shut =>
  }

  ghost predicate StartsChild(w: World, a: Step) {
    match a
    case Enter(_, _, io) => !w.t.closed && !w.t.permanentFail && !Alive(w.t, io) && io.startOk
    case Awake(_, io) => !w.t.closed && io.startOk
    case Shut => false
  }

  /** No child is started after Close, in any interleaving. */
  lemma {:induction false} ClosedStartsNothing(w: World, steps: seq<Step>)
    requires w.t.closed && IsRun(w, steps)
    ensures Run(w, steps).t.closed && Run(w, steps).t.starts == w.t.starts
    decreases |steps|
  {
    if steps != [] {
      StartsExactly(w, steps[0]);
      ClosedStartsNothing(Next(w, steps[0]), steps[1..]);
    }
  }

  /** Once the transport has given up and nobody sleeps, no child is started again in any interleaving. */
  lemma {:induction false} GivenUpStartsNothing(w: World, steps: seq<Step>)
    requires w.t.permanentFail && w.sleepers == map[] && IsRun(w, steps)
    ensures Run(w, steps).t.permanentFail && Run(w, steps).t.starts == w.t.starts && Run(w, steps).sleepers == map[]
    decreases |steps|
  {
    if steps != [] {
      StartsExactly(w, steps[0]);
      assert Next(w, steps[0]).sleepers == map[];
      GivenUpStartsNothing(Next(w, steps[0]), steps[1..]);
    }
  }

  /** Exactly when a transport that has given up can still start a child: it is open and some request
      sleeps. A woken sleeper does not look at the flag. */
  lemma GivenUpExact(w: World)
    requires w.t.permanentFail
    ensures (exists steps :: IsRun(w, steps) && Run(w, steps).t.starts > w.t.starts) <==> !w.t.closed && w.sleepers != map[]
  {
    if !w.t.closed && w.sleepers != map[] {
      var id :| id in w.sleepers;
      var wake := Awake(id, Io(true, true, Answered, true, true));
      StartsExactly(w, wake);
      var w' := Next(w, wake);
      var steps := [wake];
      assert steps[1..] == [] && IsRun(w', []) && Run(w', []) == w';
      assert IsRun(w, steps) && Run(w, steps).t.starts > w.t.starts;
    } else {
      forall steps | IsRun(w, steps) ensures Run(w, steps).t.starts == w.t.starts {
        if w.t.closed {
          ClosedStartsNothing(w, steps);
        } else {
          GivenUpStartsNothing(w, steps);
        }
      }
    }
  }

  /** Such a state is reachable: with a budget of one, the first request sleeps, a second one
      exhausts the budget, and the first then wakes, starts a child and clears the count. */
  lemma SleeperOutlivesGivingUp()
    ensures var bad := Io(true, true, Answered, false, false);
            var good := Io(true, true, Answered, true, true);
            var w0 := World(NewTransport(1), map[]);
            && Enabled(w0, Enter(0, false, bad)) && var w1 := Next(w0, Enter(0, false, bad));
            && Enabled(w1, Enter(1, false, bad)) && var w2 := Next(w1, Enter(1, false, bad));
            && w2.t.permanentFail
            && Enabled(w2, Awake(0, good)) && var w3 := Next(w2, Awake(0, good));
            w3.t.starts == w2.t.starts + 1 && w3.t.started && w3.t.restartCount == 0 && w3.t.permanentFail
  {
  }

  // ---------------------------------------------------------------------------------------------
  // Children left behind
  // ---------------------------------------------------------------------------------------------

  /** Children started and neither killed nor reaped. */
  function Running(t: Transport): int {
    t.starts - t.ended
  }

  /** A woken sleeper replaces a child that another request has started meanwhile; its own start may
      work or fail. */
  predicate Overwrites(w: World, a: Step) {
    a.Awake? && !w.t.closed && w.t.child
  }

  /** How often that happens in a run. */
  function Overwritten(w: World, steps: seq<Step>): nat
    requires IsRun(w, steps)
    decreases |steps|
  {
    if steps == [] then 0
    else (if Overwrites(w, steps[0]) then 1 else 0) + Overwritten(Next(w, steps[0]), steps[1..])
  }

  /** Children that run without being in hand. */
  function Orphans(t: Transport): int {
    Running(t) - if t.child then 1 else 0
  }

  lemma BeginOrphans(t: Transport, notification: bool, io: Io)
    requires t.child ==> t.started
    ensures Orphans(Begin(t, notification, io).0) == Orphans(t)
  {
  }

  lemma WakeOrphans(t: Transport, resend: bool, notification: bool, io: Io)
    ensures Orphans(Wake(t, resend, notification, io).0) == Orphans(t) + if t.child && !t.closed then 1 else 0
  {
  }

  lemma StepOrphans(w: World, a: Step)
    requires BackoffInv(w.t) && Enabled(w, a)
    ensures Orphans(Next(w, a).t) == Orphans(w.t) + if Overwrites(w, a) then 1 else 0
  {
    match a
    case Enter(_, notification, io) => BeginOrphans(w.t, notification, io);
    case Awake(id, io) => WakeOrphans(w.t, w.sleepers[id].resend, w.sleepers[id].notification, io);
    case Shut =>
  }

  /** In every interleaving, the children running besides the one in hand are exactly those a woken
      sleeper replaced: nothing ever kills them. */
  lemma {:induction false} OrphansExact(w: World, steps: seq<Step>)
    requires BackoffInv(w.t) && IsRun(w, steps)
    ensures Orphans(Run(w, steps).t) == Orphans(w.t) + Overwritten(w, steps)
    decreases |steps|
  {
    if steps != [] {
      StepKeepsInv(w, steps[0]);
      StepOrphans(w, steps[0]);
      OrphansExact(Next(w, steps[0]), steps[1..]);
    }
  }

  /** So Close leaves no child running iff no sleeper ever woke to a child started by someone else. */
  lemma CloseLeavesExact(maxRestarts: nat, steps: seq<Step>)
    requires IsRun(World(NewTransport(maxRestarts), map[]), steps)
    ensures var w := World(NewTransport(maxRestarts), map[]);
            var t := Next(Run(w, steps), Shut).t;
            t.closed && !t.started && (Running(t) == 0 <==> Overwritten(w, steps) == 0)
  {
    var w := World(NewTransport(maxRestarts), map[]);
    RunKeepsInv(w, steps);
    OrphansExact(w, steps);
  }

  /** And one can: the first request sleeps, a second one starts a child and is answered, and the first
      then wakes and replaces that child, which Close no longer reaches. */
  lemma ChildSurvivesClose()
    ensures var bad := Io(true, true, Answered, false, false);
            var good := Io(true, true, Answered, true, true);
            var w0 := World(NewTransport(10), map[]);
            && Enabled(w0, Enter(0, false, bad)) && var w1 := Next(w0, Enter(0, false, bad));
            && Enabled(w1, Enter(1, false, good)) && var w2 := Next(w1, Enter(1, false, good));
            && Enabled(w2, Awake(0, good)) && Overwrites(w2, Awake(0, good)) && var w3 := Next(w2, Awake(0, good));
            w3.t.starts == 3 && Running(w3.t) == 2 && Running(Next(w3, Shut).t) == 1
  {
  }

  // ---------------------------------------------------------------------------------------------
  // Requests one after another
  // ---------------------------------------------------------------------------------------------

  datatype Request = Request(notification: bool, io: Io, io': Io, io'': Io)

  /** For each request, the time slept since the last reply by the time it returns, its own sleeps
      included; the count starts anew after a reply. */
  function SleptBy(t: Transport, slept: nat, rs: seq<Request>): seq<nat>
    decreases |rs|
  {
    if rs == [] then []
    else
      var (t', result, more) := Uninterrupted(t, rs[0].notification, rs[0].io, rs[0].io', rs[0].io'');
      [slept + more] + SleptBy(t', if result == Replied then 0 else slept + more, rs[1..])
  }

  /** The transport after a sequence of requests. */
  function Sequential(t: Transport, rs: seq<Request>): Transport
    decreases |rs|
  {
    if rs == [] then t
    else Sequential(Uninterrupted(t, rs[0].notification, rs[0].io, rs[0].io', rs[0].io'').0, rs[1..])
  }

  /** The sleep the first n restarts cost together. */
  function Budget(n: nat): nat {
    if n == 0 then 0 else Budget(n - 1) + Backoff(n)
  }

  /** What has been slept since the last reply is what the restarts counted since then cost. */
  ghost predicate SleptInv(t: Transport, slept: nat) {
    BackoffInv(t) && slept == Budget(Min(t.restartCount, t.maxRestarts))
  }

  lemma BeginRestartSleeps(t: Transport, resend: bool, slept: nat)
    requires SleptInv(t, slept)
    ensures var (t', e) := AfterBeginRestart(t, resend); SleptInv(t', slept + if e.Sleep? then e.seconds else 0)
  {
    DoublingIsPower(t.restartCount);
  }

  lemma {:induction false} BudgetMonotone(a: nat, b: nat)
    requires a <= b
    ensures Budget(a) <= Budget(b)
  {
    if a < b {
      BudgetMonotone(a, b - 1);
    }
  }

  function Seconds(e: Exit): nat {
    if e.Sleep? then e.seconds else 0
  }

  /** A region keeps the account of sleeps, or replies and clears it; either way it is within budget. */
  ghost predicate Accounted(t: Transport, e: Exit, slept: nat, maxRestarts: nat) {
    && t.maxRestarts == maxRestarts
    && SleptInv(t, if e == Return(Replied) then 0 else slept + Seconds(e))
    && slept + Seconds(e) <= Budget(maxRestarts)
  }

  lemma SleptWithinBudget(t: Transport, slept: nat)
    requires SleptInv(t, slept)
    ensures slept <= Budget(t.maxRestarts)
  {
    BudgetMonotone(Min(t.restartCount, t.maxRestarts), t.maxRestarts);
  }

  lemma BeginRestartAccounted(t: Transport, resend: bool, slept: nat)
    requires SleptInv(t, slept)
    ensures var (t', e) := AfterBeginRestart(t, resend); Accounted(t', e, slept, t.maxRestarts)
  {
    BeginRestartSleeps(t, resend, slept);
    var (t', e) := AfterBeginRestart(t, resend);
    SleptWithinBudget(t', slept + Seconds(e));
  }

  lemma BeginAccounted(t: Transport, notification: bool, io: Io, slept: nat)
    requires SleptInv(t, slept)
    ensures var (t', e) := Begin(t, notification, io); Accounted(t', e, slept, t.maxRestarts)
  {
    SleptWithinBudget(t, slept);
    if !t.closed {
      var (t1, ok) := AfterEnsure(t, io);
      BeginRestartAccounted(t1, true, slept);
      BeginRestartAccounted(t1, false, slept);
    }
  }

  lemma WakeAccounted(t: Transport, resend: bool, notification: bool, io: Io, slept: nat)
    requires SleptInv(t, slept)
    ensures var (t', e) := Wake(t, resend, notification, io); Accounted(t', e, slept, t.maxRestarts)
    ensures !resend ==> Wake(t, resend, notification, io).1.Return?
  {
    SleptWithinBudget(t, slept);
    var (t1, ok) := AfterEndRestart(t, io);
    BeginRestartAccounted(t1, false, slept);
  }

  /** The account of a whole request that slept `more`. */
  ghost predicate Closes(u: (Transport, Result, nat), slept: nat, maxRestarts: nat) {
    && u.0.maxRestarts == maxRestarts
    && SleptInv(u.0, if u.1 == Replied then 0 else slept + u.2)
    && slept + u.2 <= Budget(maxRestarts)
  }

  lemma FinishAccounted(t: Transport, e: Exit, sofar: nat, notification: bool, io: Io, slept: nat)
    requires Accounted(t, e, slept + sofar, t.maxRestarts)
    ensures Closes(Finish(t, e, sofar, notification, io), slept, t.maxRestarts)
  {
    if e.Sleep? {
      WakeAccounted(t, false, notification, io, slept + sofar + e.seconds);
    }
  }

  lemma ContinueAccounted(t: Transport, e: Exit, notification: bool, io: Io, io': Io, slept: nat)
    requires Accounted(t, e, slept, t.maxRestarts)
    ensures Closes(Continue(t, e, notification, io, io'), slept, t.maxRestarts)
  {
    if e.Sleep? && e.resend {
      WakeAccounted(t, true, notification, io, slept + e.seconds);
      var (t', e') := Wake(t, true, notification, io);
      FinishAccounted(t', e', e.seconds, notification, io', slept);
    } else {
      FinishAccounted(t, e, 0, notification, io', slept);
    }
  }

  lemma UninterruptedAccounted(t: Transport, r: Request, slept: nat)
    requires SleptInv(t, slept)
    ensures Closes(Uninterrupted(t, r.notification, r.io, r.io', r.io''), slept, t.maxRestarts)
  {
    BeginAccounted(t, r.notification, r.io, slept);
    var (t', e) := Begin(t, r.notification, r.io);
    ContinueAccounted(t', e, r.notification, r.io', r.io'', slept);
  }

  lemma {:induction false} SleepsWithinBudget(t: Transport, slept: nat, rs: seq<Request>, i: nat)
    requires SleptInv(t, slept) && i < |SleptBy(t, slept, rs)|
    ensures SleptBy(t, slept, rs)[i] <= Budget(t.maxRestarts)
    decreases |rs|
  {
    var u := Uninterrupted(t, rs[0].notification, rs[0].io, rs[0].io', rs[0].io'');
    UninterruptedAccounted(t, rs[0], slept);
    if i > 0 {
      SleepsWithinBudget(u.0, if u.1 == Replied then 0 else slept + u.2, rs[1..], i - 1);
    }
  }

  /** For requests one after another, the time slept between two replies never exceeds the cost of the
      whole restart budget. */
  lemma SleepBudget(maxRestarts: nat, rs: seq<Request>, i: nat)
    requires i < |SleptBy(NewTransport(maxRestarts), 0, rs)|
    ensures SleptBy(NewTransport(maxRestarts), 0, rs)[i] <= Budget(maxRestarts)
  {
    SleepsWithinBudget(NewTransport(maxRestarts), 0, rs, i);
  }

  /** With the built-in budget of ten restarts: five minutes and three seconds. */
  lemma TenRestartsCost()
    ensures Budget(10) == 303
  {
    assert Pow2(3) == 8 && Pow2(6) == 64 && Pow2(9) == 512;
    assert Budget(3) == 7 && Budget(6) == 63;
  }

  /** For requests one after another, giving up is final: nothing is started or changed any more. */
  lemma {:induction false} GivenUpIsFinal(t: Transport, rs: seq<Request>)
    requires t.permanentFail
    ensures Sequential(t, rs) == t
    decreases |rs|
  {
    if rs != [] {
      GivenUpIsFinal(t, rs[1..]);
    }
  }

  lemma BeginSleepsWithoutChild(t: Transport, notification: bool, io: Io)
    ensures Begin(t, notification, io).1.Sleep? ==> !Begin(t, notification, io).0.child
  {
  }

  lemma WakeSleepsWithoutChild(t: Transport, resend: bool, notification: bool, io: Io)
    ensures Wake(t, resend, notification, io).1.Sleep? ==> !Wake(t, resend, notification, io).0.child
  {
  }

  lemma UninterruptedOrphans(t: Transport, r: Request)
    requires BackoffInv(t)
    ensures var t' := Uninterrupted(t, r.notification, r.io, r.io', r.io'').0; BackoffInv(t') && Orphans(t') == Orphans(t)
  {
    var (t1, e1) := Begin(t, r.notification, r.io);
    BeginKeepsInv(t, r.notification, r.io);
    BeginOrphans(t, r.notification, r.io);
    BeginSleepsWithoutChild(t, r.notification, r.io);
    if e1.Sleep? && e1.resend {
      var (t2, e2) := Wake(t1, true, r.notification, r.io');
      WakeKeepsInv(t1, true, r.notification, r.io');
      WakeOrphans(t1, true, r.notification, r.io');
      WakeSleepsWithoutChild(t1, true, r.notification, r.io');
      WakeKeepsInv(t2, false, r.notification, r.io'');
      WakeOrphans(t2, false, r.notification, r.io'');
    } else {
      WakeKeepsInv(t1, false, r.notification, r.io'');
      WakeOrphans(t1, false, r.notification, r.io'');
    }
  }

  lemma {:induction false} SequentialOrphans(t: Transport, rs: seq<Request>)
    requires BackoffInv(t)
    ensures BackoffInv(Sequential(t, rs)) && Orphans(Sequential(t, rs)) == Orphans(t)
    decreases |rs|
  {
    if rs != [] {
      UninterruptedOrphans(t, rs[0]);
      SequentialOrphans(Uninterrupted(t, rs[0].notification, rs[0].io, rs[0].io', rs[0].io'').0, rs[1..]);
    }
  }

  /** For requests one after another, Close leaves no child running. */
  lemma SequentialCloseLeavesNone(maxRestarts: nat, rs: seq<Request>)
    ensures Running(AfterClose(Sequential(NewTransport(maxRestarts), rs))) == 0
  {
    SequentialOrphans(NewTransport(maxRestarts), rs);
  }
}
