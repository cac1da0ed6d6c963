/** The proxy: which tools a caller is shown, and what happens to a call. Access, connection state,
    rate limiting and token lookup are parameters; request parameters are a map of JSON fields. */
module Proxying {
  import opened Routing
  import opened RouteTables

  type Access = string -> bool

  datatype Caller = Anonymous | Named(name: string, access: Access)

  /** Whether an upstream is connected for the caller, and if not, through which provider to connect. */
  datatype Connection = Connection(connected: bool, provider: string)

  datatype Checker = NoChecker | Checker(status: string -> Connection, connectURL: string -> string)

  // ---------------------------------------------------------------------------------------------
  // Listing
  // ---------------------------------------------------------------------------------------------

  predicate MayAccess(caller: Caller, tool: string) {
    caller.Anonymous? || caller.access(tool)
  }

  predicate IsConnected(caller: Caller, checker: Checker, upstream: string) {
    caller.Anonymous? || checker.NoChecker? || upstream == "" || checker.status(upstream).connected
  }

  function Accessible(caller: Caller, l: seq<Listed>): seq<Listed> {
    if l == [] then []
    else Accessible(caller, l[..|l| - 1]) + (if MayAccess(caller, l[|l| - 1].name) then [l[|l| - 1]] else [])
  }

  function Connected(caller: Caller, checker: Checker, l: seq<Listed>): seq<Listed> {
    if l == [] then []
    else Connected(caller, checker, l[..|l| - 1]) + (if IsConnected(caller, checker, l[|l| - 1].upstream) then [l[|l| - 1]] else [])
  }

  /** The tools shown, in the order of the merged list. */
  function Shown(caller: Caller, checker: Checker, l: seq<Listed>): seq<Listed> {
    Connected(caller, checker, Accessible(caller, l))
  }

  /** Providers the caller would have to connect for some tool of the list. */
  ghost predicate Needs(caller: Caller, checker: Checker, l: seq<Listed>, provider: string) {
    && checker.Checker? && provider != ""
    && exists t :: t in l && !IsConnected(caller, checker, t.upstream) && checker.status(t.upstream).provider == provider
  }

  lemma {:induction false} AccessibleMembers(caller: Caller, l: seq<Listed>, t: Listed)
    ensures t in Accessible(caller, l) <==> t in l && MayAccess(caller, t.name)
  {
    if l != [] {
      AccessibleMembers(caller, l[..|l| - 1], t);
      assert l == l[..|l| - 1] + [l[|l| - 1]];
    }
  }

  lemma {:induction false} ConnectedMembers(caller: Caller, checker: Checker, l: seq<Listed>, t: Listed)
    ensures t in Connected(caller, checker, l) <==> t in l && IsConnected(caller, checker, t.upstream)
  {
    if l != [] {
      ConnectedMembers(caller, checker, l[..|l| - 1], t);
      assert l == l[..|l| - 1] + [l[|l| - 1]];
    }
  }

  /** A tool of the list is shown iff the caller is anonymous, or may access it and its upstream needs no
      connection or has one. */
  lemma ShownMembers(caller: Caller, checker: Checker, l: seq<Listed>, t: Listed)
    ensures t in Shown(caller, checker, l) <==>
              && t in l
              && (caller.Named? ==>
                    && caller.access(t.name)
                    && (checker.NoChecker? || t.upstream == "" || checker.status(t.upstream).connected))
  {
    ConnectedMembers(caller, checker, Accessible(caller, l), t);
    AccessibleMembers(caller, l, t);
  }

  lemma {:induction false} AccessibleConcat(caller: Caller, l: seq<Listed>, m: seq<Listed>)
    ensures Accessible(caller, l + m) == Accessible(caller, l) + Accessible(caller, m)
  {
    if m == [] {
      assert l + m == l;
    } else {
      var n := |m| - 1;
      AccessibleConcat(caller, l, m[..n]);
      assert (l + m)[..|l + m| - 1] == l + m[..n];
    }
  }

  lemma {:induction false} ConnectedConcat(caller: Caller, checker: Checker, l: seq<Listed>, m: seq<Listed>)
    ensures Connected(caller, checker, l + m) == Connected(caller, checker, l) + Connected(caller, checker, m)
  {
    if m == [] {
      assert l + m == l;
    } else {
      var n := |m| - 1;
      ConnectedConcat(caller, checker, l, m[..n]);
      assert (l + m)[..|l + m| - 1] == l + m[..n];
    }
  }

  /** Filtering keeps the order: what a longer list shows is what its parts show, one after the other. */
  lemma ShownConcat(caller: Caller, checker: Checker, l: seq<Listed>, m: seq<Listed>)
    ensures Shown(caller, checker, l + m) == Shown(caller, checker, l) + Shown(caller, checker, m)
  {
    AccessibleConcat(caller, l, m);
    ConnectedConcat(caller, checker, Accessible(caller, l), Accessible(caller, m));
  }

  lemma {:induction false} AllAccessible(caller: Caller, l: seq<Listed>)
    requires caller.Anonymous?
    ensures Accessible(caller, l) == l
  {
    if l != [] {
      var front, last := l[..|l| - 1], l[|l| - 1];
      AllAccessible(caller, front);
      assert l == front + [last];
    }
  }

  lemma {:induction false} AllConnected(caller: Caller, checker: Checker, l: seq<Listed>)
    requires caller.Anonymous? || checker.NoChecker?
    ensures Connected(caller, checker, l) == l
  {
    if l != [] {
      var front, last := l[..|l| - 1], l[|l| - 1];
      AllConnected(caller, checker, front);
      assert l == front + [last];
    }
  }

  // ---------------------------------------------------------------------------------------------
  // Calling
  // ---------------------------------------------------------------------------------------------

  datatype Json = JString(s: string) | JOther(raw: string)

  datatype Params = Malformed | Fields(fields: map<string, Json>)

  datatype Limit = WithinLimits | Exceeded(level: string)

  datatype Decision =
    | InvalidParams
    | AccessDenied
    | UnknownName
    | RateLimited(level: string)
    | TokenError
    | Forward(upstream: nat, fields: map<string, Json>)

  /** The tool a request names, or "". */
  function NameParam(p: Params): string {
    if p.Fields? && "name" in p.fields && p.fields["name"].JString? then p.fields["name"].s else ""
  }

  function RewriteName(fields: map<string, Json>, original: string): map<string, Json> {
    fields["name" := JString(original)]
  }

  /** What becomes of a call. */
  function Decide(entries: map<string, Route<nat>>, caller: Caller, p: Params, limit: Limit, tokenOk: bool): Decision {
    var name := NameParam(p);
    if name == "" then InvalidParams
    else if !MayAccess(caller, name) then AccessDenied
    else if name !in entries then UnknownName
    else if limit.Exceeded? then RateLimited(limit.level)
    else if !tokenOk then TokenError
    else
      var route := entries[name];
      Forward(route.upstream, if route.originalName == name then p.fields else RewriteName(p.fields, route.originalName))
  }

  /** The request names a tool. */
  ghost predicate Names(p: Params, name: string) {
    p.Fields? && "name" in p.fields && p.fields["name"] == JString(name)
  }

  /** What becomes of a call, exactly: without a name it is invalid; then access, the route, the rate limit
      and the token are looked at in this order, and the first that fails decides; only if none does is
      the call forwarded, to the route's upstream, with the name that upstream knows and all else as is. */
  lemma DecideExact(entries: map<string, Route<nat>>, caller: Caller, p: Params, limit: Limit, tokenOk: bool, name: string)
    requires Names(p, name) && name != ""
    ensures var d := Decide(entries, caller, p, limit, tokenOk);
            var allowed, routed := caller.Anonymous? || caller.access(name), name in entries;
            && (d == AccessDenied <==> !allowed)
            && (d == UnknownName <==> allowed && !routed)
            && (forall level :: d == RateLimited(level) <==> allowed && routed && limit == Exceeded(level))
            && (d == TokenError <==> allowed && routed && limit == WithinLimits && !tokenOk)
            && (d.Forward? <==> allowed && routed && limit == WithinLimits && tokenOk)
            && (d.Forward? ==> d.upstream == entries[name].upstream && d.fields == p.fields["name" := JString(entries[name].originalName)])
            && d != InvalidParams
  {
    if Decide(entries, caller, p, limit, tokenOk).Forward? && entries[name].originalName == name {
      assert p.fields["name" := JString(name)] == p.fields;
    }
  }

  lemma NamelessIsInvalid(entries: map<string, Route<nat>>, caller: Caller, p: Params, limit: Limit, tokenOk: bool)
    ensures Decide(entries, caller, p, limit, tokenOk) == InvalidParams <==> !exists name :: Names(p, name) && name != ""
  {
    if p.Fields? && "name" in p.fields && p.fields["name"].JString? {
      assert Names(p, p.fields["name"].s);
    }
  }

  /** Which providers a named caller still has to connect: those of listed tools whose upstream needs a
      connection and has none. */
  lemma NeedsExact(caller: Caller, checker: Checker, l: seq<Listed>, provider: string)
    requires caller.Named?
    ensures Needs(caller, checker, l, provider) <==>
              && checker.Checker? && provider != ""
              && exists t :: t in l && t.upstream != "" && !checker.status(t.upstream).connected && checker.status(t.upstream).provider == provider
  {
  }

  class Handler {
    const router: RouteTable

    constructor (router: RouteTable)
      ensures this.router == router
    {
      this.router := router;
    }

    /** The shown tools in list order, and the providers still to be connected with their URLs. */
    method FilteredToolsWithPending(caller: Caller, checker: Checker) returns (tools: seq<Listed>, pending: map<string, string>)
      requires Consistent(router.View())
      ensures tools == Shown(caller, checker, ListOf(Views(router.objects, router.upstreams)))
      ensures forall provider :: provider in pending <==>
                caller.Named? && Needs(caller, checker, Accessible(caller, ListOf(Views(router.objects, router.upstreams))), provider)
      ensures checker.Checker? ==> forall provider :: provider in pending ==> pending[provider] == checker.connectURL(provider)
    {
      tools := router.ListTools();
      pending := map[];
      if caller.Anonymous? {
        AllAccessible(caller, tools);
        AllConnected(caller, checker, tools);
        return;
      }
      tools := FilterAccessible(caller, tools);
      if checker.Checker? {
        tools, pending := FilterConnected(caller, checker, tools);
      } else {
        AllConnected(caller, checker, tools);
      }
    }

    method HandleToolsCall(caller: Caller, p: Params, limit: Limit, tokenOk: bool) returns (d: Decision)
      ensures d == Decide(router.entries, caller, p, limit, tokenOk)
    {
      var name := NameParam(p);
      if name == "" {
        return InvalidParams;
      }
      if caller.Named? && !caller.access(name) {
        return AccessDenied;
      }
      var r := router.Resolve(name);
      if r.UnknownTool? {
        return UnknownName;
      }
      if limit.Exceeded? {
        return RateLimited(limit.level);
      }
      if !tokenOk {
        return TokenError;
      }
      var fields := p.fields;
      if r.route.originalName != name {
        fields := RewriteName(fields, r.route.originalName);
      }
      return Forward(r.route.upstream, fields);
    }
  }

  method FilterAccessible(caller: Caller, l: seq<Listed>) returns (r: seq<Listed>)
    requires caller.Named?
    ensures r == Accessible(caller, l)
  {
    r := [];
    for i := 0 to |l|
      invariant r == Accessible(caller, l[..i])
    {
      assert l[..i + 1][..i] == l[..i];
      if caller.access(l[i].name) {
        r := r + [l[i]];
      }
    }
    assert l[..|l|] == l;
  }

  method FilterConnected(caller: Caller, checker: Checker, l: seq<Listed>) returns (r: seq<Listed>, pending: map<string, string>)
    requires caller.Named? && checker.Checker?
    ensures r == Connected(caller, checker, l)
    ensures forall provider :: provider in pending <==> Needs(caller, checker, l, provider)
    ensures forall provider :: provider in pending ==> pending[provider] == checker.connectURL(provider)
  {
    r, pending := [], map[];
    for i := 0 to |l|
      invariant r == Connected(caller, checker, l[..i])
      invariant forall provider :: provider in pending <==> Needs(caller, checker, l[..i], provider)
      invariant forall provider :: provider in pending ==> pending[provider] == checker.connectURL(provider)
    {
      assert l[..i + 1][..i] == l[..i] && l[..i + 1] == l[..i] + [l[i]];
      NeedsStep(caller, checker, l[..i], l[i]);
      if l[i].upstream == "" {
        r := r + [l[i]];
        continue;
      }
      var status := checker.status(l[i].upstream);
      if status.connected {
        r := r + [l[i]];
      } else if status.provider != "" && status.provider !in pending {
        pending := pending[status.provider := checker.connectURL(status.provider)];
      }
    }
    assert l[..|l|] == l;
  }

  lemma NeedsStep(caller: Caller, checker: Checker, l: seq<Listed>, t: Listed)
    requires checker.Checker?
    ensures forall provider :: Needs(caller, checker, l + [t], provider) <==>
              || Needs(caller, checker, l, provider)
              || (provider != "" && !IsConnected(caller, checker, t.upstream) && checker.status(t.upstream).provider == provider)
  {
    forall provider
      ensures Needs(caller, checker, l + [t], provider) <==>
                || Needs(caller, checker, l, provider)
                || (provider != "" && !IsConnected(caller, checker, t.upstream) && checker.status(t.upstream).provider == provider)
    {
      if Needs(caller, checker, l, provider) {
        var x :| x in l && !IsConnected(caller, checker, x.upstream) && checker.status(x.upstream).provider == provider;
        assert x in l + [t];
      }
      if provider != "" && !IsConnected(caller, checker, t.upstream) && checker.status(t.upstream).provider == provider {
        assert t in l + [t];
      }
    }
  }

  // ---------------------------------------------------------------------------------------------
  // List and call agree
  // ---------------------------------------------------------------------------------------------

  /** A shown tool passes the access check and resolves; a call of it that is within limits is forwarded
      iff its name is not empty, and then to the upstream named in the tool's annotation, under the
      exact name that upstream advertised, with all other fields as they were. */
  lemma ShownToolIsCallable(us: seq<Ups<nat>>, caller: Caller, checker: Checker, t: Listed, p: Params) returns (i: int, j: int)
    requires t in Shown(caller, checker, ListOf(us)) && NameParam(p) == t.name
    ensures Owner(us, i, j, t.name) && us[i].name == t.upstream
    ensures var d := Decide(Build(us).entries, caller, p, WithinLimits, true);
            && (d.Forward? <==> t.name != "")
            && (d.Forward? ==>
                  && d.upstream == us[i].ref
                  && d.fields.Keys == p.fields.Keys
                  && d.fields["name"] == JString(us[i].tools[j].name)
                  && forall k :: k in p.fields && k != "name" ==> d.fields[k] == p.fields[k])
  {
    ShownMembers(caller, checker, ListOf(us), t);
    ListAgreesWithIndex(us);
    assert t.name in Build(us).entries && Build(us).entries[t.name].tool == t;
    i, j := RoutedToOwner(us, t.name);
  }

  /** A tool whose listed name is empty is shown to an anonymous caller and callable by no one. */
  lemma NamelessIsListed(us: seq<Ups<nat>>, i: int, j: int, caller: Caller, p: Params, limit: Limit, tokenOk: bool) returns (t: Listed)
    requires Produces(us, i, j, "") && NameParam(p) == ""
    ensures t in Shown(Anonymous, NoChecker, ListOf(us)) && t.name == "" && "" in Build(us).entries
    ensures Decide(Build(us).entries, caller, p, limit, tokenOk) == InvalidParams
  {
    EveryNameRouted(us, i, j, "");
    ListAgreesWithIndex(us);
    var l := ListOf(us);
    var k :| 0 <= k < |l| && l[k].name == "";
    t := l[k];
    ShownMembers(Anonymous, NoChecker, l, t);
  }

  /** One upstream without a prefix and one tool without a name are enough. */
  lemma NamelessToolIsShown() returns (t: Listed)
    ensures var us := [Ups(0, "u", "", [Tool("", "", "")])];
            var call := Fields(map["name" := JString("")]);
            && t in Shown(Anonymous, NoChecker, ListOf(us)) && NameParam(call) == t.name
            && Decide(Build(us).entries, Anonymous, call, WithinLimits, true) == InvalidParams
  {
    var us := [Ups(0, "u", "", [Tool("", "", "")])];
    assert Produces(us, 0, 0, "");
    t := NamelessIsListed(us, 0, 0, Anonymous, Fields(map["name" := JString("")]), WithinLimits, true);
  }

  /** Conversely, a call is forwarded only if its name is that of a listed tool the caller may access;
      the list shows it unless its upstream is not connected. */
  lemma CallableToolIsListed(us: seq<Ups<nat>>, caller: Caller, checker: Checker, p: Params, limit: Limit, tokenOk: bool) returns (t: Listed)
    requires Decide(Build(us).entries, caller, p, limit, tokenOk).Forward?
    ensures t in ListOf(us) && t.name == NameParam(p) && MayAccess(caller, t.name)
    ensures t in Shown(caller, checker, ListOf(us)) <==> IsConnected(caller, checker, t.upstream)
  {
    ListAgreesWithIndex(us);
    var l := ListOf(us);
    var k :| 0 <= k < |l| && l[k].name == NameParam(p);
    t := l[k];
    ShownMembers(caller, checker, l, t);
  }
}
