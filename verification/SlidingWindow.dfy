/** The sliding-window script: a sorted set per key, trimmed on every call and dropped when it
    expires, against a log that keeps every admission forever. Times are microseconds. */
module SlidingWindows {

  /** A sorted set maps each member to its score. An absent key is an empty set. */
  datatype Key = Key(members: map<string, nat>, expiresAt: nat)

  const NO_KEY := Key(map[], 0)
  const SECOND := 1_000_000

  /** The EXPIRE argument: the window in whole seconds, rounded up, plus one. */
  function Lifetime(window: nat): nat {
    ((window + SECOND - 1) / SECOND + 1) * SECOND
  }

  /** What ZREMRANGEBYSCORE 0 .. upTo leaves. */
  function Trim(members: map<string, nat>, upTo: int): map<string, nat> {
    map m | m in members && members[m] > upTo :: members[m]
  }

  /** The members at server time `at`. */
  function Present(k: Key, at: nat): map<string, nat> {
    if at >= k.expiresAt then map[] else k.members
  }

  datatype Reply = Reply(key: Key, allowed: bool, count: nat)

  /** What is left after trimming to the window that ends at `now`. */
  function Found(k: Key, window: nat, now: nat, at: nat): map<string, nat> {
    Trim(Present(k, at), now - window)
  }

  /** One run of the script. `now` is the caller's clock, which scores and trims; `at` is the server's,
      by which keys expire. */
  function Script(k: Key, limit: int, window: nat, now: nat, at: nat, member: string): Reply {
    var found := Found(k, window, now, at);
    if |found| < limit then Reply(Key(found[member := now], at + Lifetime(window)), true, |found| + 1)
    else Reply(k.(members := found), false, |found|)
  }

  /** A lifetime is the least whole number of seconds that covers the window, and one more. */
  lemma LifetimeExact(window: nat)
    ensures Lifetime(window) % SECOND == 0 && window + SECOND <= Lifetime(window) < window + 2 * SECOND
  {
  }

  /** What one run does to the set and its expiry, member by member: those of an expired key and those with a
      score up to the start of the window go; an admission adds its own and sets the expiry, by the
      server's clock; a denial leaves the expiry alone. */
  lemma ScriptExact(k: Key, limit: int, window: nat, now: nat, at: nat, member: string, m: string)
    ensures var r := Script(k, limit, window, now, at, member);
            var survives := m in k.members && at < k.expiresAt && k.members[m] > now - window;
            && (m in r.key.members <==> survives || (r.allowed && m == member))
            && (m in r.key.members ==> r.key.members[m] == if r.allowed && m == member then now else k.members[m])
            && r.key.expiresAt == (if r.allowed then at + Lifetime(window) else k.expiresAt)
            && (r.allowed <==> r.count - 1 < limit && r.count == |Found(k, window, now, at)| + 1)
            && (!r.allowed ==> r.count >= limit && r.count == |Found(k, window, now, at)|)
  {
  }

  // ---------------------------------------------------------------------------------------------
  // The log
  // ---------------------------------------------------------------------------------------------

  /** Admissions later than x. */
  function CountAfter(log: seq<nat>, x: int): nat {
    if log == [] then 0 else CountAfter(log[..|log| - 1], x) + (if log[|log| - 1] > x then 1 else 0)
  }

  /** Admissions in the half-open window (lo, hi]. */
  function CountIn(log: seq<nat>, lo: int, hi: int): nat {
    if log == [] then 0 else CountIn(log[..|log| - 1], lo, hi) + (if lo < log[|log| - 1] <= hi then 1 else 0)
  }

  datatype LogReply = LogReply(log: seq<nat>, allowed: bool, count: nat)

  /** The limiter that never forgets. */
  function Ideal(log: seq<nat>, limit: int, window: nat, now: nat): LogReply {
    var count := CountAfter(log, now - window);
    if count < limit then LogReply(log + [now], true, count + 1) else LogReply(log, false, count)
  }

  /** No half-open window of the given length holds more than `limit` admissions. */
  ghost predicate Bounded(log: seq<nat>, length: int, limit: nat) {
    forall lo: int, hi: int :: hi - lo <= length ==> CountIn(log, lo, hi) <= limit
  }

  lemma CountAppend(log: seq<nat>, t: nat, x: int, hi: int)
    ensures CountAfter(log + [t], x) == CountAfter(log, x) + (if t > x then 1 else 0)
    ensures CountIn(log + [t], x, hi) == CountIn(log, x, hi) + (if x < t <= hi then 1 else 0)
  {
    assert (log + [t])[..|log|] == log;
  }

  lemma {:induction false} CountMonotone(log: seq<nat>, lo: int, hi: int, x: int)
    requires x <= lo
    ensures CountIn(log, lo, hi) <= CountAfter(log, lo) <= CountAfter(log, x)
  {
    if log != [] {
      CountMonotone(log[..|log| - 1], lo, hi, x);
    }
  }

  lemma {:induction false} CountNone(log: seq<nat>, x: int)
    requires forall i :: 0 <= i < |log| ==> log[i] <= x
    ensures CountAfter(log, x) == 0
  {
    if log != [] {
      CountNone(log[..|log| - 1], x);
    }
  }

  /** An admission made with room in the window it ends keeps every window of that length within the
      bound, in whatever order admissions come. */
  lemma AdmissionKeepsBound(log: seq<nat>, length: int, bound: nat, now: nat)
    requires Bounded(log, length, bound) && CountAfter(log, now - length) < bound
    ensures Bounded(log + [now], length, bound)
  {
    forall lo: int, hi: int | hi - lo <= length ensures CountIn(log + [now], lo, hi) <= bound {
      CountAppend(log, now, lo, hi);
      if lo < now <= hi {
        CountMonotone(log, lo, hi, now - length);
      }
    }
  }

  // ---------------------------------------------------------------------------------------------
  // The script against the log
  // ---------------------------------------------------------------------------------------------

  /** The set knows all admissions that a window of this length ending at `edge` or later can hold; no
      admission is later than `edge`, and callers' clocks are at most `early` ahead of the server's. */
  ghost predicate Represents(k: Key, log: seq<nat>, window: nat, edge: int, early: nat) {
    && (forall i :: 0 <= i < |log| ==> log[i] <= edge && log[i] + Lifetime(window) <= k.expiresAt + early)
    && (forall x: int :: x >= edge - window ==> |Trim(k.members, x)| == CountAfter(log, x))
  }

  lemma Older(k: Key, log: seq<nat>, window: nat, edge: int, edge': int, early: nat)
    requires Represents(k, log, window, edge, early) && edge <= edge'
    ensures Represents(k, log, window, edge', early)
  {
  }

  lemma TrimTwice(members: map<string, nat>, lo: int, x: int)
    requires lo <= x
    ensures Trim(Trim(members, lo), x) == Trim(members, x)
    ensures |Trim(members, x)| <= |Trim(members, lo)|
  {
    SubMap(Trim(members, x), Trim(members, lo));
  }

  lemma SubMap(small: map<string, nat>, big: map<string, nat>)
    requires small.Keys <= big.Keys
    ensures |small| <= |big|
  {
    var rest := big - small.Keys;
    assert big.Keys == small.Keys + rest.Keys;
    assert |small.Keys| <= |big.Keys|;
  }

  lemma TrimInsert(members: map<string, nat>, member: string, now: nat, x: int)
    requires member !in members
    ensures |Trim(members[member := now], x)| == |Trim(members, x)| + (if now > x then 1 else 0)
  {
    if now > x {
      assert Trim(members[member := now], x) == Trim(members, x)[member := now];
    } else {
      assert Trim(members[member := now], x) == Trim(members, x);
    }
  }

  /** The extra second. */
  lemma LifetimeLong(least: nat, window: nat)
    requires least <= window
    ensures least + SECOND <= Lifetime(least) <= Lifetime(window)
  {
  }

  /** What is left after trimming to a window that ends at `edge'` is exactly its admissions, whether or
      not the key has expired in the meantime. */
  lemma TrimmedIsWindow(k: Key, log: seq<nat>, window: nat, edge: int, edge': int, early: nat, at: nat, x: int)
    requires Represents(k, log, window, edge, early) && edge <= edge'
    requires at + early <= edge' - window + Lifetime(window) && x >= edge' - window
    ensures |Trim(Present(k, at), x)| == CountAfter(log, x)
  {
    if at >= k.expiresAt {
      CountNone(log, x);
      assert Trim(Present(k, at), x) == map[];
    }
  }

  /** The member a call would add is new to the trimmed set. */
  predicate NewMember(k: Key, window: nat, now: nat, at: nat, member: string) {
    member !in Found(k, window, now, at)
  }

  /** The log of what the script itself admits. */
  function AfterReply(log: seq<nat>, allowed: bool, now: nat): seq<nat> {
    if allowed then log + [now] else log
  }

  /** One run keeps the set in step with the log, for windows up to the one it trims to. */
  lemma ScriptKeeps(k: Key, log: seq<nat>, limit: int, least: nat, window: nat, early: nat, edge: int, edge': int,
                    now: nat, at: nat, member: string)
    requires Represents(k, log, least, edge, early) && least <= window
    requires edge <= edge' && now <= edge' <= at + early <= edge' - least + Lifetime(least)
    requires Script(k, limit, window, now, at, member).allowed ==> NewMember(k, window, now, at, member)
    ensures var r := Script(k, limit, window, now, at, member);
            Represents(r.key, AfterReply(log, r.allowed, now), least, edge', early)
  {
    var r, found := Script(k, limit, window, now, at, member), Found(k, window, now, at);
    var log' := AfterReply(log, r.allowed, now);
    LifetimeLong(least, window);
    forall x: int | x >= edge' - least ensures |Trim(r.key.members, x)| == CountAfter(log', x) {
      TrimTwice(Present(k, at), now - window, x);
      TrimmedIsWindow(k, log, least, edge, edge', early, at, x);
      if r.allowed {
        TrimInsert(found, member, now, x);
        CountAppend(log, now, x, now);
      }
    }
  }

  /** Overwriting a member's score makes the set forget an admission. */
  lemma CollisionForgets(k: Key, log: seq<nat>, window: nat, now: nat, at: nat, member: string)
    requires |Found(k, window, now, at)| == CountAfter(log, now - window) && window > 0 && !NewMember(k, window, now, at, member)
    ensures |Trim(Found(k, window, now, at)[member := now], now - window)| < CountAfter(log + [now], now - window)
  {
    var members := Found(k, window, now, at);
    assert Trim(members[member := now], now - window) == members[member := now];
    assert members[member := now].Keys == members.Keys;
    CountAppend(log, now, now - window, now);
  }

  /** A caller's clock is at most `late` behind the server's and at most `early` ahead. */
  predicate Near(now: nat, at: nat, late: nat, early: nat) {
    at <= now + late && now <= at + early
  }

  /** If the calls on a key come in the order of their times, and clocks differ by no more than the extra
      second of the expiry, the script answers as the log does; and after the call it still represents
      the log exactly when the member it added, if any, was new. */
  lemma ScriptIsIdeal(k: Key, log: seq<nat>, limit: int, window: nat, late: nat, early: nat, last: nat, now: nat, at: nat, member: string)
    requires Represents(k, log, window, last, early) && last <= now && window > 0
    requires Near(now, at, late, early) && late + early <= SECOND
    ensures var r, s := Script(k, limit, window, now, at, member), Ideal(log, limit, window, now);
            && r.allowed == s.allowed && r.count == s.count
            && (Represents(r.key, s.log, window, now, early) <==> (r.allowed ==> NewMember(k, window, now, at, member)))
  {
    LifetimeLong(window, window);
    TrimmedIsWindow(k, log, window, last, now, early, at, now - window);
    var r := Script(k, limit, window, now, at, member);
    if r.allowed && !NewMember(k, window, now, at, member) {
      CollisionForgets(k, log, window, now, at, member);
    } else {
      ScriptKeeps(k, log, limit, window, window, early, last, now, now, at, member);
    }
  }

  /** A key whose calls come in the order of their times remembers enough for the least window used with
      it, and no window of that length exceeds the largest limit. */
  lemma LeastWindowIsKept(k: Key, log: seq<nat>, limit: int, bound: nat, least: nat, window: nat, late: nat, early: nat,
                          last: nat, now: nat, at: nat, member: string)
    requires Represents(k, log, least, last, early) && last <= now && 0 < least <= window
    requires Near(now, at, late, early) && late + early <= SECOND
    requires Bounded(log, least, bound) && limit <= bound
    requires Script(k, limit, window, now, at, member).allowed ==> NewMember(k, window, now, at, member)
    ensures var r := Script(k, limit, window, now, at, member);
            var log' := AfterReply(log, r.allowed, now);
            Represents(r.key, log', least, now, early) && Bounded(log', least, bound)
  {
    LifetimeLong(least, window);
    ScriptKeeps(k, log, limit, least, window, early, last, now, now, at, member);
    if Script(k, limit, window, now, at, member).allowed {
      TrimTwice(Present(k, at), now - window, now - least);
      TrimmedIsWindow(k, log, least, last, now, early, at, now - least);
      AdmissionKeepsBound(log, least, bound, now);
    }
  }

  /** In whatever order the calls come: with clocks up to `late` behind the server's and `early` ahead, the
      limit is kept for windows shorter by as much. */
  lemma LaggingWindowIsKept(k: Key, log: seq<nat>, limit: int, bound: nat, least: nat, window: nat, late: nat, early: nat,
                            before: nat, now: nat, at: nat, member: string)
    requires Represents(k, log, least, before + early, early) && before <= at && 0 < least <= window
    requires Near(now, at, late, early)
    requires Bounded(log, least - late - early, bound) && limit <= bound
    requires Script(k, limit, window, now, at, member).allowed ==> NewMember(k, window, now, at, member)
    ensures var r := Script(k, limit, window, now, at, member);
            var log' := AfterReply(log, r.allowed, now);
            Represents(r.key, log', least, at + early, early) && Bounded(log', least - late - early, bound)
  {
    var length := least - late - early;
    LifetimeLong(least, window);
    ScriptKeeps(k, log, limit, least, window, early, before + early, at + early, now, at, member);
    if Script(k, limit, window, now, at, member).allowed {
      TrimTwice(Present(k, at), now - window, now - length);
      TrimmedIsWindow(k, log, least, before + early, at + early, early, at, now - length);
      AdmissionKeepsBound(log, length, bound, now);
    }
  }

  // ---------------------------------------------------------------------------------------------
  // What a key has lost
  // ---------------------------------------------------------------------------------------------

  /** The scores of some members, in any order. */
  ghost function Scores(members: map<string, nat>): seq<nat>
    decreases |members|
  {
    if members == map[] then []
    else
      var m :| m in members;
      Scores(members - {m}) + [members[m]]
  }

  lemma {:induction false} ScoresCount(members: map<string, nat>, x: int)
    ensures CountAfter(Scores(members), x) == |Trim(members, x)|
    decreases |members|
  {
    if members == map[] {
      assert Trim(members, x) == map[];
    } else {
      var m :| m in members && Scores(members) == Scores(members - {m}) + [members[m]];
      var rest := members - {m};
      ScoresCount(rest, x);
      CountAppend(Scores(rest), members[m], x, 0);
      assert rest[m := members[m]] == members;
      TrimInsert(rest, m, members[m], x);
    }
  }

  /** `lost` holds the admissions that are no longer in the set. */
  ghost predicate Tracks(k: Key, log: seq<nat>, lost: seq<nat>) {
    forall x: int :: |Trim(k.members, x)| + CountAfter(lost, x) == CountAfter(log, x)
  }

  /** With those a call finds gone: expired with the key, or trimmed. */
  ghost function LostBefore(k: Key, lost: seq<nat>, window: nat, now: nat, at: nat): seq<nat> {
    lost + Scores(k.members - Found(k, window, now, at).Keys)
  }

  /** And with the one whose member it overwrites. */
  ghost function LostAfter(k: Key, lost: seq<nat>, limit: int, window: nat, now: nat, at: nat, member: string): seq<nat> {
    var found, gone := Found(k, window, now, at), LostBefore(k, lost, window, now, at);
    if |found| < limit && member in found then gone + [found[member]] else gone
  }

  lemma {:induction false} CountConcat(a: seq<nat>, b: seq<nat>, x: int)
    ensures CountAfter(a + b, x) == CountAfter(a, x) + CountAfter(b, x)
  {
    if b == [] {
      assert a + b == a;
    } else {
      var n := |b| - 1;
      CountConcat(a, b[..n], x);
      assert (a + b)[..|a + b| - 1] == a + b[..n];
    }
  }

  lemma TrimParts(members: map<string, nat>, part: map<string, nat>, x: int)
    requires part.Keys <= members.Keys && forall m :: m in part ==> part[m] == members[m]
    ensures |Trim(members, x)| == |Trim(part, x)| + |Trim(members - part.Keys, x)|
  {
    var a, b := Trim(part, x), Trim(members - part.Keys, x);
    assert Trim(members, x).Keys == a.Keys + b.Keys;
    assert a.Keys !! b.Keys;
  }

  /** What a call finds, together with what is lost, is the log. */
  lemma FoundTracks(k: Key, log: seq<nat>, lost: seq<nat>, window: nat, now: nat, at: nat, x: int)
    requires Tracks(k, log, lost)
    ensures |Trim(Found(k, window, now, at), x)| + CountAfter(LostBefore(k, lost, window, now, at), x) == CountAfter(log, x)
  {
    var found := Found(k, window, now, at);
    TrimParts(k.members, found, x);
    ScoresCount(k.members - found.Keys, x);
    CountConcat(lost, Scores(k.members - found.Keys), x);
  }

  predicate SameReply(r: Reply, s: LogReply) {
    r.allowed == s.allowed && r.count == s.count
  }

  /** No admission of the call's window has been lost. */
  ghost predicate MissesNothing(k: Key, lost: seq<nat>, window: nat, now: nat, at: nat) {
    CountAfter(LostBefore(k, lost, window, now, at), now - window) == 0
  }

  lemma SameReplyExact(k: Key, log: seq<nat>, limit: int, window: nat, now: nat, at: nat, member: string)
    ensures SameReply(Script(k, limit, window, now, at, member), Ideal(log, limit, window, now)) <==>
            |Found(k, window, now, at)| == CountAfter(log, now - window)
  {
  }

  lemma FoundLost(k: Key, log: seq<nat>, lost: seq<nat>, window: nat, now: nat, at: nat)
    requires Tracks(k, log, lost)
    ensures |Found(k, window, now, at)| == CountAfter(log, now - window) <==> MissesNothing(k, lost, window, now, at)
  {
    FoundTracks(k, log, lost, window, now, at, now - window);
    TrimTwice(Present(k, at), now - window, now - window);
  }

  /** For any windows, times, clocks and members: a call answers as the log does exactly when no admission
      of its window has been lost. */
  lemma AnswerExact(k: Key, log: seq<nat>, lost: seq<nat>, limit: int, window: nat, now: nat, at: nat, member: string)
    requires Tracks(k, log, lost)
    ensures SameReply(Script(k, limit, window, now, at, member), Ideal(log, limit, window, now)) <==> MissesNothing(k, lost, window, now, at)
  {
    SameReplyExact(k, log, limit, window, now, at, member);
    FoundLost(k, log, lost, window, now, at);
  }

  lemma TracksStep(k: Key, log: seq<nat>, lost: seq<nat>, limit: int, window: nat, now: nat, at: nat, member: string)
    requires Tracks(k, log, lost)
    ensures var r := Script(k, limit, window, now, at, member);
            Tracks(r.key, AfterReply(log, r.allowed, now), LostAfter(k, lost, limit, window, now, at, member))
  {
    var r, found := Script(k, limit, window, now, at, member), Found(k, window, now, at);
    var gone, lost' := LostBefore(k, lost, window, now, at), LostAfter(k, lost, limit, window, now, at, member);
    forall x: int ensures |Trim(r.key.members, x)| + CountAfter(lost', x) == CountAfter(AfterReply(log, r.allowed, now), x) {
      FoundTracks(k, log, lost, window, now, at, x);
      if r.allowed {
        CountAppend(log, now, x, 0);
        if member in found {
          Overwrite(found, member, now, x);
          CountAppend(gone, found[member], x, 0);
        } else {
          TrimInsert(found, member, now, x);
        }
      }
    }
  }

  lemma Overwrite(members: map<string, nat>, member: string, now: nat, x: int)
    requires member in members
    ensures |Trim(members[member := now], x)| + (if members[member] > x then 1 else 0) == |Trim(members, x)| + (if now > x then 1 else 0)
  {
    var rest := members - {member};
    TrimInsert(rest, member, now, x);
    TrimInsert(rest, member, members[member], x);
    assert rest[member := now] == members[member := now] && rest[member := members[member]] == members;
  }

  // ---------------------------------------------------------------------------------------------
  // What has been lost, by the times of the calls
  // ---------------------------------------------------------------------------------------------

  /** For calls in the order of their times: the set holds exactly the admissions after the horizon, the
      latest start of a window any of them has trimmed to. */
  ghost predicate Remembers(k: Key, log: seq<nat>, horizon: int, last: nat, early: nat) {
    && horizon < last
    && (forall i :: 0 <= i < |log| ==> log[i] <= last && log[i] + SECOND < k.expiresAt + early)
    && (forall m :: m in k.members ==> k.members[m] > horizon)
    && (forall x: int :: x >= horizon ==> |Trim(k.members, x)| == CountAfter(log, x))
  }

  /** Where memory begins for a call: with an expired key all earlier admissions are gone. */
  function Forgotten(k: Key, horizon: int, now: nat, at: nat): int {
    if at >= k.expiresAt then now - 1 else horizon
  }

  function Max(a: int, b: int): int {
    if a < b then b else a
  }

  lemma {:induction false} CountSplit(log: seq<nat>, lo: int, mid: int)
    ensures lo <= mid ==> CountAfter(log, lo) == CountIn(log, lo, mid) + CountAfter(log, mid)
    ensures lo >= mid ==> CountIn(log, lo, mid) == 0
  {
    if log != [] {
      CountSplit(log[..|log| - 1], lo, mid);
    }
  }

  lemma PresentRemembers(k: Key, log: seq<nat>, horizon: int, last: nat, late: nat, early: nat, now: nat, at: nat)
    requires Remembers(k, log, horizon, last, early) && last <= now && Near(now, at, late, early) && late + early <= SECOND
    ensures var h := Forgotten(k, horizon, now, at);
            && h < now
            && (forall m :: m in Present(k, at) ==> Present(k, at)[m] > h)
            && (forall x: int :: x >= h ==> |Trim(Present(k, at), x)| == CountAfter(log, x))
  {
    if at >= k.expiresAt {
      forall x: int | x >= now - 1 ensures |Trim(Present(k, at), x)| == CountAfter(log, x) {
        CountNone(log, x);
        assert Trim(Present(k, at), x) == map[];
      }
    }
  }

  /** A call answers as the log does exactly when no admission of its window lies at or before the
      horizon. */
  lemma HorizonAnswerExact(k: Key, log: seq<nat>, horizon: int, last: nat, late: nat, early: nat, limit: int, window: nat,
                           now: nat, at: nat, member: string)
    requires Remembers(k, log, horizon, last, early) && last <= now && Near(now, at, late, early) && late + early <= SECOND
    ensures var r, s := Script(k, limit, window, now, at, member), Ideal(log, limit, window, now);
            SameReply(r, s) <==> CountIn(log, now - window, Forgotten(k, horizon, now, at)) == 0
  {
    var h := Forgotten(k, horizon, now, at);
    PresentRemembers(k, log, horizon, last, late, early, now, at);
    CountSplit(log, now - window, h);
    if now - window < h {
      assert Found(k, window, now, at) == Present(k, at) == Trim(Present(k, at), h);
    }
  }

  /** The horizon moves with every call to the start of its window, if that is later. */
  lemma HorizonMoves(k: Key, log: seq<nat>, horizon: int, last: nat, late: nat, early: nat, limit: int, window: nat,
                     now: nat, at: nat, member: string)
    requires Remembers(k, log, horizon, last, early) && last <= now && Near(now, at, late, early) && late + early <= SECOND && window > 0
    requires Script(k, limit, window, now, at, member).allowed ==> NewMember(k, window, now, at, member)
    ensures var r := Script(k, limit, window, now, at, member);
            Remembers(r.key, AfterReply(log, r.allowed, now), Max(Forgotten(k, horizon, now, at), now - window), now, early)
  {
    var r, h := Script(k, limit, window, now, at, member), Max(Forgotten(k, horizon, now, at), now - window);
    var found, log' := Found(k, window, now, at), AfterReply(log, r.allowed, now);
    PresentRemembers(k, log, horizon, last, late, early, now, at);
    LifetimeLong(window, window);
    forall x: int | x >= h ensures |Trim(r.key.members, x)| == CountAfter(log', x) {
      TrimTwice(Present(k, at), now - window, x);
      if r.allowed {
        TrimInsert(found, member, now, x);
        CountAppend(log, now, x, now);
      }
    }
  }

  // ---------------------------------------------------------------------------------------------
  // Witnesses
  // ---------------------------------------------------------------------------------------------

  /** A call that finds these members and has room. */
  lemma ScriptAdmits(k: Key, found: map<string, nat>, limit: int, window: nat, now: nat, at: nat, member: string)
    requires found == Found(k, window, now, at) && |found| < limit
    ensures Script(k, limit, window, now, at, member) == Reply(Key(found[member := now], at + Lifetime(window)), true, |found| + 1)
  {
  }

  /** A key whose members are all inside, or all outside, the window of a call. */
  lemma Finds(members: map<string, nat>, expiresAt: nat, window: nat, now: nat, at: nat)
    requires at < expiresAt
    ensures (forall m :: m in members ==> members[m] > now - window) ==> Found(Key(members, expiresAt), window, now, at) == members
    ensures (forall m :: m in members ==> members[m] <= now - window) ==> Found(Key(members, expiresAt), window, now, at) == map[]
  {
  }

  lemma CountPair(log: seq<nat>, t: nat, lo: int, hi: int)
    requires lo < t <= hi
    ensures CountIn(log + [t, t], lo, hi) == CountIn(log, lo, hi) + 2
  {
    CountAppend(log, t, lo, hi);
    CountAppend(log + [t], t, lo, hi);
    assert log + [t, t] == log + [t] + [t];
  }

  /** Adding a member again changes nothing but the answer. */
  lemma SameMemberAdmits(now: nat, member: string)
    ensures var k := Key(map[member := now], now + Lifetime(SECOND));
            var r := Script(k, 2, SECOND, now, now, member);
            r.allowed && r.key == k
  {
    var one := map[member := now];
    LifetimeLong(SECOND, SECOND);
    Finds(one, now + Lifetime(SECOND), SECOND, now, now);
    ScriptAdmits(Key(one, now + Lifetime(SECOND)), one, 2, SECOND, now, now, member);
    assert one[member := now] == one;
  }

  /** With one member for three admissions in one instant, a limit of two lets all three through. */
  lemma CollidingMembersExceedTheLimit(now: nat, member: string)
    ensures var r1 := Script(NO_KEY, 2, SECOND, now, now, member);
            var r2 := Script(r1.key, 2, SECOND, now, now, member);
            var r3 := Script(r2.key, 2, SECOND, now, now, member);
            r1.allowed && r2.allowed && r3.allowed && CountIn([now, now, now], now - SECOND, now) == 3
  {
    ScriptAdmits(NO_KEY, map[], 2, SECOND, now, now, member);
    SameMemberAdmits(now, member);
    CountPair([], now, now - SECOND, now);
    CountAppend([now, now], now, now - SECOND, now);
    assert [] + [now, now] == [now, now] && [now, now] + [now] == [now, now, now];
  }

  const LONG := 10 * SECOND

  /** Two admissions under a limit of two in ten seconds. */
  lemma TwoAdmitted(now: nat)
    ensures var r1 := Script(NO_KEY, 2, LONG, now, now, "a");
            var r2 := Script(r1.key, 2, LONG, now, now, "b");
            r1.allowed && r2.allowed && r2.key == Key(map["a" := now, "b" := now], now + Lifetime(LONG))
  {
    var one := map["a" := now];
    LifetimeLong(LONG, LONG);
    ScriptAdmits(NO_KEY, map[], 2, LONG, now, now, "a");
    Finds(one, now + Lifetime(LONG), LONG, now, now);
    ScriptAdmits(Key(one, now + Lifetime(LONG)), one, 2, LONG, now, now, "b");
    assert one["b" := now] == map["a" := now, "b" := now];
  }

  /** Then one that no longer finds them, and one more under the first limit, by a clock that may lag. */
  lemma TwoMore(now: nat, limit: int, window: nat, later: nat, late: nat)
    requires 0 < window <= later - now && limit > 0 && later < now + Lifetime(LONG) && later - LONG < late <= later
    ensures var r3 := Script(Key(map["a" := now, "b" := now], now + Lifetime(LONG)), limit, window, later, later, "c");
            r3.allowed && Script(r3.key, 2, LONG, late, later, "d").allowed
  {
    var two, k := map["a" := now, "b" := now], map["c" := later];
    LifetimeLong(window, window);
    Finds(two, now + Lifetime(LONG), window, later, later);
    ScriptAdmits(Key(two, now + Lifetime(LONG)), map[], limit, window, later, later, "c");
    Finds(k, later + Lifetime(window), LONG, late, later);
    ScriptAdmits(Key(k, later + Lifetime(window)), k, 2, LONG, late, later, "d");
  }

  /** Larger windows are not kept: the call with the small window trims what the large one still has to
      count, and four admissions get into ten seconds although no limit is above two. */
  lemma SmallerWindowForgets(now: nat)
    ensures var later := now + 2 * SECOND;
            var r1 := Script(NO_KEY, 2, LONG, now, now, "a");
            var r2 := Script(r1.key, 2, LONG, now, now, "b");
            var r3 := Script(r2.key, 1, SECOND, later, later, "c");
            var r4 := Script(r3.key, 2, LONG, later, later, "d");
            r1.allowed && r2.allowed && r3.allowed && r4.allowed && CountIn([now, now, later, later], later - LONG, later) == 4
  {
    var later := now + 2 * SECOND;
    LifetimeLong(LONG, LONG);
    TwoAdmitted(now);
    TwoMore(now, 1, SECOND, later, later);
    CountPair([], now, later - LONG, later);
    CountPair([now, now], later, later - LONG, later);
    assert [] + [now, now] == [now, now] && [now, now] + [later, later] == [now, now, later, later];
  }

  /** Nor is the whole window kept when clocks disagree: a call ten seconds later trims two admissions,
      and one whose clock is six seconds behind is then admitted into a window that already holds two. */
  lemma LateClockExceedsTheLimit(now: nat)
    ensures var later, late := now + LONG, now + 4 * SECOND;
            var r1 := Script(NO_KEY, 2, LONG, now, now, "a");
            var r2 := Script(r1.key, 2, LONG, now, now, "b");
            var r3 := Script(r2.key, 2, LONG, later, later, "c");
            var r4 := Script(r3.key, 2, LONG, late, later, "d");
            r1.allowed && r2.allowed && r3.allowed && r4.allowed && CountIn([now, now, later, late], now - 1, now - 1 + LONG) == 3
  {
    var later, late := now + LONG, now + 4 * SECOND;
    LifetimeLong(LONG, LONG);
    TwoAdmitted(now);
    TwoMore(now, 2, LONG, later, late);
    var lo, hi := now - 1, now - 1 + LONG;
    CountPair([], now, lo, hi);
    CountAppend([now, now], later, lo, hi);
    CountAppend([now, now, later], late, lo, hi);
    assert [] + [now, now] == [now, now] && [now, now] + [later] == [now, now, later] && [now, now, later] + [late] == [now, now, later, late];
  }
}
