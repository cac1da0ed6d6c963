/** The route table: tool names of all upstreams, prefixed and merged, with an index from each name
    to the upstream that owns it. The first upstream, and within it the first tool, wins a name. */
module Routing {

  datatype Tool = Tool(name: string, description: string, inputSchema: string)

  datatype Original = Unprefixed | Original(name: string)

  /** A tool as listed to callers: prefixed, and annotated with its upstream and original name. */
  datatype Listed = Listed(name: string, description: string, inputSchema: string, upstream: string, original: Original)

  /** An upstream: its identity, and what the table knows about it. */
  datatype Ups<U> = Ups(ref: U, name: string, prefix: string, tools: seq<Tool>)

  datatype Route<U> = Route(tool: Listed, upstream: U, originalName: string)

  function ApplyPrefix(prefix: string, name: string): string {
    if prefix == "" then name else prefix + "__" + name
  }

  function NameIn<U>(u: Ups<U>, tool: Tool): string {
    ApplyPrefix(u.prefix, tool.name)
  }

  function Annotate<U>(u: Ups<U>, tool: Tool): Listed {
    Listed(NameIn(u, tool), tool.description, tool.inputSchema, u.name, if u.prefix == "" then Unprefixed else Original(tool.name))
  }

  function RouteTo<U>(u: Ups<U>, tool: Tool): Route<U> {
    Route(Annotate(u, tool), u.ref, tool.name)
  }

  /** The index, and the tools each upstream contributes to the merged list. */
  datatype Table<U> = Table(entries: map<string, Route<U>>, listings: seq<seq<Listed>>)

  /** The first tools of one upstream, on top of what earlier upstreams own. */
  function AddTools<U>(entries: map<string, Route<U>>, u: Ups<U>, tools: seq<Tool>): (map<string, Route<U>>, seq<Listed>) {
    if tools == [] then (entries, [])
    else
      var (e, l) := AddTools(entries, u, tools[..|tools| - 1]);
      var tool := tools[|tools| - 1];
      if NameIn(u, tool) in e then (e, l) else (e[NameIn(u, tool) := RouteTo(u, tool)], l + [Annotate(u, tool)])
  }

  /** The table of a list of upstreams. */
  function Build<U>(us: seq<Ups<U>>): (t: Table<U>)
    ensures |t.listings| == |us|
  {
    if us == [] then Table(map[], [])
    else
      var t, u := Build(us[..|us| - 1]), us[|us| - 1];
      var (e, l) := AddTools(t.entries, u, u.tools);
      Table(e, t.listings + [l])
  }

  function Flatten(listings: seq<seq<Listed>>): seq<Listed> {
    if listings == [] then [] else Flatten(listings[..|listings| - 1]) + listings[|listings| - 1]
  }

  function ListOf<U>(us: seq<Ups<U>>): seq<Listed> {
    Flatten(Build(us).listings)
  }

  // ---------------------------------------------------------------------------------------------
  // Index and list agree
  // ---------------------------------------------------------------------------------------------

  /** Tool j of upstream i has this name. */
  ghost predicate Produces<U>(us: seq<Ups<U>>, i: int, j: int, name: string) {
    0 <= i < |us| && 0 <= j < |us[i].tools| && NameIn(us[i], us[i].tools[j]) == name
  }

  /** It is the earliest upstream and then the earliest tool with this name. */
  ghost predicate Owner<U>(us: seq<Ups<U>>, i: int, j: int, name: string) {
    && Produces(us, i, j, name)
    && forall i', j' :: Produces(us, i', j', name) ==> i < i' || (i == i' && j <= j')
  }

  ghost predicate NamesDistinct(l: seq<Listed>) {
    forall i, j :: 0 <= i < j < |l| ==> l[i].name != l[j].name
  }

  /** The listing names exactly the entries outside `before`, once each and as routed. */
  ghost predicate Lists<U>(l: seq<Listed>, entries: map<string, Route<U>>, before: map<string, Route<U>>) {
    && NamesDistinct(l)
    && (forall i :: 0 <= i < |l| ==> l[i].name in entries && l[i].name !in before && entries[l[i].name].tool == l[i])
    && (forall k :: k in entries && k !in before ==> exists i :: 0 <= i < |l| && l[i].name == k)
  }

  /** The first tool of `tools` with this name. */
  ghost predicate FirstTool<U>(u: Ups<U>, tools: seq<Tool>, j: int, name: string) {
    0 <= j < |tools| && NameIn(u, tools[j]) == name && forall j' :: 0 <= j' < j ==> NameIn(u, tools[j']) != name
  }

  lemma ListOneMore<U>(l: seq<Listed>, e: map<string, Route<U>>, before: map<string, Route<U>>, r: Route<U>)
    requires Lists(l, e, before) && r.tool.name !in e && r.tool.name !in before
    ensures Lists(l + [r.tool], e[r.tool.name := r], before)
  {
    var l' := l + [r.tool];
    forall k | k in e[r.tool.name := r] && k !in before ensures exists i :: 0 <= i < |l'| && l'[i].name == k {
      if k in e {
        var i :| 0 <= i < |l| && l[i].name == k;
        assert l'[i].name == k;
      } else {
        assert l'[|l|].name == k;
      }
    }
  }

  lemma {:induction false} AddToolsLists<U>(entries: map<string, Route<U>>, u: Ups<U>, tools: seq<Tool>)
    ensures var (e, l) := AddTools(entries, u, tools); Lists(l, e, entries)
  {
    if tools != [] {
      var n := |tools| - 1;
      AddToolsLists(entries, u, tools[..n]);
      AddToolsKeeps(entries, u, tools[..n]);
      var (e, l) := AddTools(entries, u, tools[..n]);
      if NameIn(u, tools[n]) !in e {
        ListOneMore(l, e, entries, RouteTo(u, tools[n]));
      }
    }
  }

  lemma {:induction false} AddToolsKeeps<U>(entries: map<string, Route<U>>, u: Ups<U>, tools: seq<Tool>)
    ensures var e := AddTools(entries, u, tools).0;
            && (forall k :: k in entries ==> k in e && e[k] == entries[k])
            && (forall j :: 0 <= j < |tools| ==> NameIn(u, tools[j]) in e)
  {
    if tools != [] {
      AddToolsKeeps(entries, u, tools[..|tools| - 1]);
    }
  }

  lemma {:induction false} AddToolsOwner<U>(entries: map<string, Route<U>>, u: Ups<U>, tools: seq<Tool>, name: string) returns (j: int)
    requires name in AddTools(entries, u, tools).0 && name !in entries
    ensures FirstTool(u, tools, j, name) && AddTools(entries, u, tools).0[name] == RouteTo(u, tools[j])
  {
    var n := |tools| - 1;
    var front := tools[..n];
    if name in AddTools(entries, u, front).0 {
      j := AddToolsOwner(entries, u, front, name);
    } else {
      AddToolsKeeps(entries, u, front);
      assert forall j' :: 0 <= j' < n ==> front[j'] == tools[j'];
      j := n;
    }
  }

  /** Every name any upstream offers is routed. */
  lemma {:induction false} EveryNameRouted<U>(us: seq<Ups<U>>, i: int, j: int, name: string)
    requires Produces(us, i, j, name)
    ensures name in Build(us).entries
  {
    var n := |us| - 1;
    AddToolsKeeps(Build(us[..n]).entries, us[n], us[n].tools);
    if i < n {
      assert Produces(us[..n], i, j, name);
      EveryNameRouted(us[..n], i, j, name);
    }
  }

  /** A routed name goes to its owner, under the name that upstream advertises. */
  lemma {:induction false} RoutedToOwner<U>(us: seq<Ups<U>>, name: string) returns (i: int, j: int)
    requires name in Build(us).entries
    ensures Owner(us, i, j, name) && Build(us).entries[name] == RouteTo(us[i], us[i].tools[j])
  {
    var n := |us| - 1;
    var front, u := us[..n], us[n];
    var e := Build(front).entries;
    AddToolsKeeps(e, u, u.tools);
    if name in e {
      i, j := RoutedToOwner(front, name);
      forall i', j' | Produces(us, i', j', name) ensures i < i' || (i == i' && j <= j') {
        if i' < n {
          assert Produces(front, i', j', name);
        }
      }
    } else {
      j := AddToolsOwner(e, u, u.tools, name);
      i := n;
      forall i', j' | Produces(us, i', j', name) ensures i < i' || (i == i' && j <= j') {
        if i' < n {
          assert Produces(front, i', j', name);
          EveryNameRouted(front, i', j', name);
        }
      }
    }
  }

  /** The merged list has no duplicate names, its names are exactly the indexed ones, and each tool is
      listed as it is routed. */
  lemma {:induction false} ListAgreesWithIndex<U>(us: seq<Ups<U>>)
    ensures Lists(ListOf(us), Build(us).entries, map[])
  {
    if us != [] {
      var n := |us| - 1;
      var front, u := us[..n], us[n];
      ListAgreesWithIndex(front);
      var e, e' := Build(front).entries, Build(us).entries;
      var l, last := ListOf(front), AddTools(e, u, u.tools).1;
      AddToolsLists(e, u, u.tools);
      AddToolsKeeps(e, u, u.tools);
      assert Build(us).listings[..n] == Build(front).listings;
      assert ListOf(us) == l + last;
      JoinLists(l, last, e, e');
    }
  }

  lemma JoinLists<U>(l: seq<Listed>, last: seq<Listed>, e: map<string, Route<U>>, e': map<string, Route<U>>)
    requires Lists(l, e, map[]) && Lists(last, e', e)
    requires forall k :: k in e ==> k in e' && e'[k] == e[k]
    ensures Lists(l + last, e', map[])
  {
    forall k | k in e' ensures exists i :: 0 <= i < |l + last| && (l + last)[i].name == k {
      if k in e {
        var i :| 0 <= i < |l| && l[i].name == k;
        assert (l + last)[i].name == k;
      } else {
        var i :| 0 <= i < |last| && last[i].name == k;
        assert (l + last)[|l| + i].name == k;
      }
    }
  }

  /** The name a tool is listed under. */
  lemma NameExact<U>(u: Ups<U>, tool: Tool)
    ensures u.prefix == "" ==> NameIn(u, tool) == tool.name
    ensures u.prefix != "" ==> NameIn(u, tool) == u.prefix + "__" + tool.name
  {
  }

  /** A name resolves iff it has an owner; its route leads there, under the owner's own name for the tool, from
      which the prefix gives the name back, and shows the tool as the owner describes it. */
  lemma RouteExact<U>(us: seq<Ups<U>>, name: string)
    ensures name in Build(us).entries <==> exists i, j :: Owner(us, i, j, name)
    ensures forall i, j :: Owner(us, i, j, name) ==>
              var u, tool, route := us[i], us[i].tools[j], Build(us).entries[name];
              && route.upstream == u.ref && route.originalName == tool.name
              && name == (if u.prefix == "" then tool.name else u.prefix + "__" + tool.name)
              && route.tool == Listed(name, tool.description, tool.inputSchema, u.name, if u.prefix == "" then Unprefixed else Original(tool.name))
  {
    if name in Build(us).entries {
      var i, j := RoutedToOwner(us, name);
    }
    forall i, j | Owner(us, i, j, name) ensures name in Build(us).entries && Build(us).entries[name] == RouteTo(us[i], us[i].tools[j]) {
      EveryNameRouted(us, i, j, name);
      var i', j' := RoutedToOwner(us, name);
    }
  }

  lemma {:induction false} AddToolsInOrder<U>(entries: map<string, Route<U>>, u: Ups<U>, tools: seq<Tool>, a: nat, b: nat, j: int, j': int)
    requires a < b < |AddTools(entries, u, tools).1|
    requires FirstTool(u, tools, j, AddTools(entries, u, tools).1[a].name) && FirstTool(u, tools, j', AddTools(entries, u, tools).1[b].name)
    ensures j < j'
  {
    var n := |tools| - 1;
    var front := tools[..n];
    var (e, l) := AddTools(entries, u, front);
    AddToolsLists(entries, u, front);
    AddToolsKeeps(entries, u, front);
    assert forall k :: 0 <= k < n ==> front[k] == tools[k];
    var ja := AddToolsOwner(entries, u, front, l[a].name);
    assert j == ja;
    if b < |l| {
      var jb := AddToolsOwner(entries, u, front, l[b].name);
      assert j' == jb;
      AddToolsInOrder(entries, u, front, a, b, j, j');
    } else {
      assert forall k :: 0 <= k < n ==> NameIn(u, tools[k]) in e;
    }
  }

  /** Who owns a name in a longer list of upstreams. */
  lemma OwnerInFront<U>(us: seq<Ups<U>>, i: int, j: int, name: string)
    requires us != [] && Owner(us, i, j, name)
    ensures var n := |us| - 1;
            && (name in Build(us[..n]).entries ==> i < n && Owner(us[..n], i, j, name))
            && (name !in Build(us[..n]).entries ==> i == n && FirstTool(us[n], us[n].tools, j, name))
  {
    var n := |us| - 1;
    var front := us[..n];
    assert forall i', j' :: Produces(front, i', j', name) ==> Produces(us, i', j', name);
    if name in Build(front).entries {
      var i', j' := RoutedToOwner(front, name);
      assert Produces(us, i', j', name);
    } else {
      if i < n {
        assert Produces(front, i, j, name);
        EveryNameRouted(front, i, j, name);
      }
      forall j' | 0 <= j' < j ensures NameIn(us[n], us[n].tools[j']) != name {
        assert Produces(us, n, j', name) ==> j <= j';
      }
    }
  }

  lemma ListSplits<U>(us: seq<Ups<U>>)
    requires us != []
    ensures var n := |us| - 1;
            ListOf(us) == ListOf(us[..n]) + AddTools(Build(us[..n]).entries, us[n], us[n].tools).1
  {
    var n := |us| - 1;
    assert Build(us).listings[..n] == Build(us[..n]).listings;
  }

  /** The list of the first upstreams comes first and has the names they route. */
  lemma ListedWhere<U>(us: seq<Ups<U>>, k: nat)
    requires us != [] && k < |ListOf(us)|
    ensures var n := |us| - 1;
            k < |ListOf(us[..n])| <==> ListOf(us)[k].name in Build(us[..n]).entries
  {
    var n := |us| - 1;
    ListSplits(us);
    ListAgreesWithIndex(us[..n]);
    AddToolsLists(Build(us[..n]).entries, us[n], us[n].tools);
  }

  lemma ListEntryInOrder<U>(us: seq<Ups<U>>, k: nat, l: nat, j: int, j': int)
    requires us != [] && |ListOf(us[..|us| - 1])| <= k < l < |ListOf(us)|
    requires var u := us[|us| - 1]; FirstTool(u, u.tools, j, ListOf(us)[k].name) && FirstTool(u, u.tools, j', ListOf(us)[l].name)
    ensures j < j'
  {
    var n := |us| - 1;
    var m := |ListOf(us[..n])|;
    ListSplits(us);
    AddToolsInOrder(Build(us[..n]).entries, us[n], us[n].tools, k - m, l - m, j, j');
  }

  /** The merged list is in the order of the upstreams, and within one in the order of its tools. */
  lemma {:induction false} ListInOrder<U>(us: seq<Ups<U>>, k: nat, l: nat, i: int, j: int, i': int, j': int)
    requires k < l < |ListOf(us)| && Owner(us, i, j, ListOf(us)[k].name) && Owner(us, i', j', ListOf(us)[l].name)
    ensures i < i' || (i == i' && j < j')
  {
    var n := |us| - 1;
    var front := us[..n];
    ListedWhere(us, k);
    ListedWhere(us, l);
    OwnerInFront(us, i, j, ListOf(us)[k].name);
    OwnerInFront(us, i', j', ListOf(us)[l].name);
    if l < |ListOf(front)| {
      ListSplits(us);
      assert ListOf(front)[k] == ListOf(us)[k] && ListOf(front)[l] == ListOf(us)[l];
      ListInOrder(front, k, l, i, j, i', j');
    } else if k >= |ListOf(front)| {
      ListEntryInOrder(us, k, l, j, j');
    }
  }

  /** An upstream without tools changes nothing but the number of listings. */
  lemma AppendEmpty<U>(us: seq<Ups<U>>, u: Ups<U>)
    requires u.tools == []
    ensures Build(us + [u]) == Table(Build(us).entries, Build(us).listings + [[]])
  {
    assert (us + [u])[..|us|] == us;
  }

  /** Adding one more tool of an upstream. */
  lemma AddToolsStep<U>(entries: map<string, Route<U>>, u: Ups<U>, tools: seq<Tool>, j: nat)
    requires j < |tools|
    ensures var (e, l) := AddTools(entries, u, tools[..j]);
            var tool := tools[j];
            AddTools(entries, u, tools[..j + 1]) ==
              if NameIn(u, tool) in e then (e, l) else (e[NameIn(u, tool) := RouteTo(u, tool)], l + [Annotate(u, tool)])
  {
    assert tools[..j + 1][..j] == tools[..j];
  }

  /** Adding one more upstream to a table. */
  lemma BuildStep<U>(us: seq<Ups<U>>, i: nat)
    requires i < |us|
    ensures var t := Build(us[..i]);
            var (e, l) := AddTools(t.entries, us[i], us[i].tools);
            Build(us[..i + 1]) == Table(e, t.listings + [l])
  {
    assert us[..i + 1][..i] == us[..i];
  }

  datatype Resolution<U> = UnknownTool | Resolved(route: Route<U>)

  function Lookup<U>(entries: map<string, Route<U>>, name: string): Resolution<U> {
    if name in entries then Resolved(entries[name]) else UnknownTool
  }
}
