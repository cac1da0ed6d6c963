/** The route table as an object, and refreshes that discover outside its lock and commit inside it.
    Upstream objects are named by ids: a refresh may still hold one that has been removed. */
module RouteTables {
  import opened Routing

  datatype Record = Record(name: string, prefix: string, tools: seq<Tool>, prefixedTools: seq<Listed>, stale: bool)

  type Objects = map<nat, Record>

  /** `upstreams` is the current list; `objects` holds every upstream object ever made. */
  datatype RouteState = RouteState(entries: map<string, Route<nat>>, upstreams: seq<nat>, objects: Objects)

  datatype Discovery = Discovered(id: nat, tools: seq<Tool>) | Undiscovered(id: nat)

  const EMPTY := RouteState(map[], [], map[])

  ghost predicate Known(objects: Objects, ids: seq<nat>) {
    forall i :: 0 <= i < |ids| ==> ids[i] in objects
  }

  function ViewOf(objects: Objects, id: nat): Ups<nat>
    requires id in objects
  {
    Ups(id, objects[id].name, objects[id].prefix, objects[id].tools)
  }

  function Views(objects: Objects, ids: seq<nat>): (us: seq<Ups<nat>>)
    requires Known(objects, ids)
    ensures |us| == |ids| && forall i :: 0 <= i < |ids| ==> us[i] == ViewOf(objects, ids[i])
  {
    seq(|ids|, i requires 0 <= i < |ids| => ViewOf(objects, ids[i]))
  }

  function SetListing(objects: Objects, id: nat, l: seq<Listed>): Objects
    requires id in objects
  {
    objects[id := objects[id].(prefixedTools := l)]
  }

  /** The objects with the listings of a table, in list order. */
  function SetListings(objects: Objects, ids: seq<nat>, ls: seq<seq<Listed>>): (r: Objects)
    requires |ids| == |ls| && Known(objects, ids)
    ensures r.Keys == objects.Keys
    ensures forall id :: id in objects ==> r[id] == objects[id].(prefixedTools := r[id].prefixedTools)
  {
    if ids == [] then objects
    else
      var n := |ids| - 1;
      SetListing(SetListings(objects, ids[..n], ls[..n]), ids[n], ls[n])
  }

  function Rebuild(s: RouteState): RouteState
    requires Known(s.objects, s.upstreams)
  {
    var t := Build(Views(s.objects, s.upstreams));
    RouteState(t.entries, s.upstreams, SetListings(s.objects, s.upstreams, t.listings))
  }

  function ApplyOne(objects: Objects, d: Discovery): (r: Objects)
    requires d.id in objects
    ensures r.Keys == objects.Keys
  {
    match d
    case Discovered(id, tools) => objects[id := objects[id].(tools := tools, stale := false)]
    case Undiscovered(id) => objects[id := objects[id].(stale := true)]
  }

  ghost predicate AllKnown(objects: Objects, ds: seq<Discovery>) {
    forall i :: 0 <= i < |ds| ==> ds[i].id in objects
  }

  function ApplyAll(objects: Objects, ds: seq<Discovery>): (r: Objects)
    requires AllKnown(objects, ds)
    ensures r.Keys == objects.Keys
  {
    if ds == [] then objects else ApplyOne(ApplyAll(objects, ds[..|ds| - 1]), ds[|ds| - 1])
  }

  /** The locked part of a refresh of all upstreams. */
  function CommitAll(s: RouteState, ds: seq<Discovery>): RouteState
    requires Known(s.objects, s.upstreams) && AllKnown(s.objects, ds)
  {
    Rebuild(s.(objects := ApplyAll(s.objects, ds)))
  }

  /** The locked part of a refresh of one upstream: a failed discovery rebuilds nothing. */
  function CommitOne(s: RouteState, d: Discovery): RouteState
    requires Known(s.objects, s.upstreams) && d.id in s.objects
  {
    var s' := s.(objects := ApplyOne(s.objects, d));
    if d.Discovered? then Rebuild(s') else s'
  }

  /** The locked part of adding an upstream: no tools yet, and no rebuild. */
  function Add(s: RouteState, id: nat, name: string): RouteState {
    s.(upstreams := s.upstreams + [id], objects := s.objects[id := Record(name, name, [], [], false)])
  }

  function WithoutName(objects: Objects, ids: seq<nat>, name: string): (r: seq<nat>)
    requires Known(objects, ids)
    ensures forall id :: id in r ==> id in ids
    ensures Known(objects, r)
  {
    if ids == [] then []
    else if objects[ids[0]].name == name then ids[1..]
    else [ids[0]] + WithoutName(objects, ids[1..], name)
  }

  function Remove(s: RouteState, name: string): RouteState
    requires Known(s.objects, s.upstreams)
  {
    Rebuild(s.(upstreams := WithoutName(s.objects, s.upstreams, name)))
  }

  // ---------------------------------------------------------------------------------------------
  // Consistency
  // ---------------------------------------------------------------------------------------------

  ghost predicate DistinctIds(ids: seq<nat>) {
    forall i, j :: 0 <= i < j < |ids| ==> ids[i] != ids[j]
  }

  ghost predicate Shows(objects: Objects, ids: seq<nat>, ls: seq<seq<Listed>>) {
    |ls| == |ids| && Known(objects, ids) && forall i :: 0 <= i < |ids| ==> objects[ids[i]].prefixedTools == ls[i]
  }

  /** The table is the rebuild of the current upstream list. */
  ghost predicate Consistent(s: RouteState) {
    && DistinctIds(s.upstreams) && Known(s.objects, s.upstreams)
    && s.entries == Build(Views(s.objects, s.upstreams)).entries
    && Shows(s.objects, s.upstreams, Build(Views(s.objects, s.upstreams)).listings)
  }

  lemma {:induction false} SetListingsShows(objects: Objects, ids: seq<nat>, ls: seq<seq<Listed>>)
    requires |ids| == |ls| && Known(objects, ids) && DistinctIds(ids)
    ensures Shows(SetListings(objects, ids, ls), ids, ls)
  {
    if ids != [] {
      var n := |ids| - 1;
      SetListingsShows(objects, ids[..n], ls[..n]);
      var front := SetListings(objects, ids[..n], ls[..n]);
      forall i | 0 <= i < n ensures front[ids[i]].prefixedTools == ls[i] {
        assert ids[..n][i] == ids[i];
      }
    }
  }

  lemma RebuildIsConsistent(s: RouteState)
    requires Known(s.objects, s.upstreams) && DistinctIds(s.upstreams)
    ensures Consistent(Rebuild(s))
    ensures Views(Rebuild(s).objects, s.upstreams) == Views(s.objects, s.upstreams)
  {
    var t := Build(Views(s.objects, s.upstreams));
    SetListingsShows(s.objects, s.upstreams, t.listings);
    assert Views(Rebuild(s).objects, s.upstreams) == Views(s.objects, s.upstreams);
  }

  lemma {:induction false} WithoutNameDistinct(objects: Objects, ids: seq<nat>, name: string)
    requires Known(objects, ids) && DistinctIds(ids)
    ensures DistinctIds(WithoutName(objects, ids, name))
  {
    if ids != [] {
      var rest := ids[1..];
      assert forall i :: 0 <= i < |rest| ==> rest[i] == ids[i + 1];
      WithoutNameDistinct(objects, rest, name);
      assert ids[0] !in rest;
    }
  }

  /** Adding an upstream without tools leaves the table its own rebuild, although nothing is rebuilt. */
  lemma AddIsConsistent(s: RouteState, id: nat, name: string)
    requires Consistent(s) && id !in s.objects
    ensures Consistent(Add(s, id, name))
  {
    var s' := Add(s, id, name);
    var us := Views(s.objects, s.upstreams);
    assert Views(s'.objects, s'.upstreams) == us + [Ups(id, name, name, [])];
    AppendEmpty(us, Ups(id, name, name, []));
  }

  lemma {:induction false} ListingsOfShown(objects: Objects, ids: seq<nat>, ls: seq<seq<Listed>>, i: nat)
    requires Shows(objects, ids, ls) && i < |ids|
    ensures Flatten(ls[..i + 1]) == Flatten(ls[..i]) + objects[ids[i]].prefixedTools
  {
    assert ls[..i + 1][..i] == ls[..i];
  }

  // ---------------------------------------------------------------------------------------------
  // What a commit installs
  // ---------------------------------------------------------------------------------------------

  /** Result k is the last for this upstream. */
  ghost predicate LastResult(ds: seq<Discovery>, id: nat, k: int) {
    0 <= k < |ds| && ds[k].id == id && forall l :: k < l < |ds| ==> ds[l].id != id
  }

  /** Result k is the last that discovered tools for this upstream. */
  ghost predicate LastDiscovery(ds: seq<Discovery>, id: nat, k: int) {
    0 <= k < |ds| && ds[k].id == id && ds[k].Discovered? && forall l :: k < l < |ds| ==> !(ds[l].id == id && ds[l].Discovered?)
  }

  ghost predicate ToolsInstalled(before: seq<Tool>, after: seq<Tool>, ds: seq<Discovery>, id: nat) {
    && (forall k :: LastDiscovery(ds, id, k) ==> after == ds[k].tools)
    && ((forall k :: 0 <= k < |ds| ==> !(ds[k].id == id && ds[k].Discovered?)) ==> after == before)
  }

  ghost predicate StaleInstalled(before: bool, after: bool, ds: seq<Discovery>, id: nat) {
    && (forall k :: LastResult(ds, id, k) ==> after == ds[k].Undiscovered?)
    && ((forall k :: 0 <= k < |ds| ==> ds[k].id != id) ==> after == before)
  }

  /** An upstream gets the tools of its last discovery and is stale iff its last result was a failure; without
      any it keeps them; its name and prefix never change. */
  ghost predicate Installed(before: Record, after: Record, ds: seq<Discovery>, id: nat) {
    && after.name == before.name && after.prefix == before.prefix
    && ToolsInstalled(before.tools, after.tools, ds, id) && StaleInstalled(before.stale, after.stale, ds, id)
  }

  lemma ToolsInstalledStep(before: seq<Tool>, mid: seq<Tool>, front: seq<Discovery>, d: Discovery, id: nat)
    requires ToolsInstalled(before, mid, front, id)
    ensures ToolsInstalled(before, if d.id == id && d.Discovered? then d.tools else mid, front + [d], id)
  {
    var ds := front + [d];
    if d.id == id && d.Discovered? {
      assert ds[|front|] == d;
    } else {
      forall k | LastDiscovery(ds, id, k) ensures LastDiscovery(front, id, k) {
        assert k < |front| && forall l :: k < l < |front| ==> front[l] == ds[l];
      }
      assert forall k :: 0 <= k < |front| ==> front[k] == ds[k];
    }
  }

  lemma StaleInstalledStep(before: bool, mid: bool, front: seq<Discovery>, d: Discovery, id: nat)
    requires StaleInstalled(before, mid, front, id)
    ensures StaleInstalled(before, if d.id == id then d.Undiscovered? else mid, front + [d], id)
  {
    var ds := front + [d];
    if d.id == id {
      assert ds[|front|] == d;
    } else {
      forall k | LastResult(ds, id, k) ensures LastResult(front, id, k) {
        assert k < |front| && forall l :: k < l < |front| ==> front[l] == ds[l];
      }
      assert forall k :: 0 <= k < |front| ==> front[k] == ds[k];
    }
  }

  /** One result: discovered tools replace the old ones and clear the mark, a failure sets it. */
  lemma ApplyOneExact(objects: Objects, d: Discovery, id: nat)
    requires d.id in objects && id in objects
    ensures var before, after := objects[id], ApplyOne(objects, d)[id];
            && after.name == before.name && after.prefix == before.prefix && after.prefixedTools == before.prefixedTools
            && after.tools == (if d.id == id && d.Discovered? then d.tools else before.tools)
            && after.stale == (if d.id == id then d.Undiscovered? else before.stale)
  {
  }

  lemma {:induction false} ApplyAllExact(objects: Objects, ds: seq<Discovery>, id: nat)
    requires AllKnown(objects, ds) && id in objects
    ensures Installed(objects[id], ApplyAll(objects, ds)[id], ds, id)
  {
    if ds != [] {
      var n := |ds| - 1;
      var front := ds[..n];
      ApplyAllExact(objects, front, id);
      var before, mid := objects[id], ApplyAll(objects, front)[id];
      ApplyOneExact(ApplyAll(objects, front), ds[n], id);
      ToolsInstalledStep(before.tools, mid.tools, front, ds[n], id);
      StaleInstalledStep(before.stale, mid.stale, front, ds[n], id);
      assert ds == front + [ds[n]];
    }
  }

  /** A refresh installs what it discovered, upstream by upstream, and leaves the list of upstreams alone. */
  lemma CommitAllExact(s: RouteState, ds: seq<Discovery>, id: nat)
    requires Known(s.objects, s.upstreams) && AllKnown(s.objects, ds) && id in s.objects
    ensures var s' := CommitAll(s, ds);
            s'.upstreams == s.upstreams && s'.objects.Keys == s.objects.Keys && Installed(s.objects[id], s'.objects[id], ds, id)
  {
    ApplyAllExact(s.objects, ds, id);
  }

  lemma CommitOneExact(s: RouteState, d: Discovery, id: nat)
    requires Known(s.objects, s.upstreams) && d.id in s.objects && id in s.objects
    ensures var s' := CommitOne(s, d);
            s'.upstreams == s.upstreams && s'.objects.Keys == s.objects.Keys && Installed(s.objects[id], s'.objects[id], [d], id)
  {
    ApplyAllExact(s.objects, [d], id);
    assert [d][..0] == [] && ApplyAll(s.objects, [d]) == ApplyOne(s.objects, d);
  }

  /** After a refresh, a tool whose name no earlier upstream and no earlier tool produces resolves to the
      upstream that offers it, under that upstream's own name for it. */
  lemma CommittedToolResolves(s: RouteState, ds: seq<Discovery>, i: nat, j: nat)
    requires Known(s.objects, s.upstreams) && DistinctIds(s.upstreams) && AllKnown(s.objects, ds)
    requires i < |s.upstreams| && j < |CommitAll(s, ds).objects[s.upstreams[i]].tools|
    ensures var s' := CommitAll(s, ds);
            var u := s'.objects[s.upstreams[i]];
            var name := if u.prefix == "" then u.tools[j].name else u.prefix + "__" + u.tools[j].name;
            Owner(Views(s'.objects, s'.upstreams), i, j, name) ==>
              name in s'.entries && s'.entries[name].upstream == s.upstreams[i] && s'.entries[name].originalName == u.tools[j].name
  {
    var s' := CommitAll(s, ds);
    var u := s'.objects[s.upstreams[i]];
    RebuildIsConsistent(s.(objects := ApplyAll(s.objects, ds)));
    NameExact(Views(s'.objects, s'.upstreams)[i], u.tools[j]);
    RouteExact(Views(s'.objects, s'.upstreams), if u.prefix == "" then u.tools[j].name else u.prefix + "__" + u.tools[j].name);
  }

  /** And so after a refresh of one upstream that discovered tools. */
  lemma CommittedUpstreamResolves(s: RouteState, d: Discovery, i: nat, j: nat)
    requires Known(s.objects, s.upstreams) && DistinctIds(s.upstreams) && d.Discovered? && d.id in s.objects
    requires i < |s.upstreams| && s.upstreams[i] == d.id && j < |d.tools|
    ensures var s' := CommitOne(s, d);
            var prefix := s.objects[d.id].prefix;
            var name := if prefix == "" then d.tools[j].name else prefix + "__" + d.tools[j].name;
            Owner(Views(s'.objects, s'.upstreams), i, j, name) ==>
              name in s'.entries && s'.entries[name].upstream == d.id && s'.entries[name].originalName == d.tools[j].name
  {
    assert [d][..0] == [] && ApplyAll(s.objects, [d]) == ApplyOne(s.objects, d);
    assert CommitAll(s, [d]) == CommitOne(s, d);
    CommitOneExact(s, d, d.id);
    assert LastDiscovery([d], d.id, 0);
    CommittedToolResolves(s, [d], i, j);
  }

  /** A new upstream comes last, prefixed by its own name and without tools; every other one stays as it is. */
  lemma AddExact(s: RouteState, id: nat, name: string, other: nat)
    requires id !in s.objects
    ensures var s' := Add(s, id, name);
            && s'.upstreams == s.upstreams + [id] && s'.entries == s.entries
            && s'.objects.Keys == s.objects.Keys + {id}
            && s'.objects[id].name == s'.objects[id].prefix == name && s'.objects[id].tools == [] && !s'.objects[id].stale
            && (other in s.objects ==> s'.objects[other] == s.objects[other])
  {
  }

  // ---------------------------------------------------------------------------------------------
  // The object
  // ---------------------------------------------------------------------------------------------

  class RouteTable {
    var entries: map<string, Route<nat>>
    var upstreams: seq<nat>
    var objects: Objects

    ghost function View(): RouteState
      reads this
    {
      RouteState(entries, upstreams, objects)
    }

    constructor ()
      ensures View() == EMPTY
    {
      entries, upstreams, objects := map[], [], map[];
    }

    method Resolve(name: string) returns (r: Resolution<nat>)
      ensures name in entries ==> r == Resolved(entries[name])
      ensures name !in entries ==> r == UnknownTool
    {
      r := if name in entries then Resolved(entries[name]) else UnknownTool;
    }

    method ListTools() returns (tools: seq<Listed>)
      requires Consistent(View())
      ensures tools == ListOf(Views(objects, upstreams))
    {
      tools := [];
      ghost var listings := Build(Views(objects, upstreams)).listings;
      for i := 0 to |upstreams|
        invariant tools == Flatten(listings[..i])
      {
        ListingsOfShown(objects, upstreams, listings, i);
        tools := tools + objects[upstreams[i]].prefixedTools;
      }
      assert listings[..|upstreams|] == listings;
    }

    /** The tools of one upstream join the entries and its own listing, one by one. */
    method AddToolsOf(id: nat)
      requires id in objects
      modifies this`entries, this`objects
      ensures var (e, l) := AddTools(old(entries), ViewOf(old(objects), id), old(objects)[id].tools);
              entries == e && objects == SetListing(old(objects), id, l)
    {
      var u := objects[id];
      ghost var view := ViewOf(objects, id);
      ghost var l: seq<Listed> := [];
      objects := objects[id := u.(prefixedTools := [])];
      for j := 0 to |u.tools|
        invariant (entries, l) == AddTools(old(entries), view, u.tools[..j])
        invariant objects == SetListing(old(objects), id, l)
      {
        AddToolsStep(old(entries), view, u.tools, j);
        var tool := u.tools[j];
        var name := ApplyPrefix(u.prefix, tool.name);
        var listed := Listed(name, tool.description, tool.inputSchema, u.name, if u.prefix == "" then Unprefixed else Original(tool.name));
        assert listed == Annotate(view, tool);
        if name !in entries {
          entries := entries[name := Route(listed, id, tool.name)];
          objects := objects[id := objects[id].(prefixedTools := objects[id].prefixedTools + [listed])];
          l := l + [listed];
        }
      }
      assert u.tools[..|u.tools|] == u.tools;
    }

    method RebuildEntriesLocked()
      requires Known(objects, upstreams)
      modifies this`entries, this`objects
      ensures View() == Rebuild(old(View()))
    {
      entries := map[];
      ghost var views := Views(objects, upstreams);
      for i := 0 to |upstreams|
        invariant entries == Build(views[..i]).entries
        invariant objects == SetListings(old(objects), upstreams[..i], Build(views[..i]).listings)
      {
        BuildStep(views, i);
        assert upstreams[..i + 1][..i] == upstreams[..i];
        assert upstreams[i] in old(objects);
        assert ViewOf(objects, upstreams[i]) == views[i];
        AddToolsOf(upstreams[i]);
      }
      assert views[..|upstreams|] == views && upstreams[..|upstreams|] == upstreams;
    }

    /** `id` is the new object. */
    method AddUpstreamLocked(id: nat, name: string)
      modifies this
      ensures View() == Add(old(View()), id, name)
    {
      upstreams := upstreams + [id];
      objects := objects[id := Record(name, name, [], [], false)];
    }

    method RemoveUpstream(name: string)
      requires Known(objects, upstreams)
      modifies this
      ensures View() == Remove(old(View()), name)
    {
      var i := 0;
      while i < |upstreams| && objects[upstreams[i]].name != name
        invariant 0 <= i <= |upstreams|
        invariant forall j :: 0 <= j < i ==> objects[upstreams[j]].name != name
      {
        i := i + 1;
      }
      WithoutNameAt(objects, upstreams, name, i);
      if i < |upstreams| {
        upstreams := upstreams[..i] + upstreams[i + 1..];
      }
      RebuildEntriesLocked();
    }

    method CommitRefresh(results: seq<Discovery>)
      requires Known(objects, upstreams) && AllKnown(objects, results)
      modifies this
      ensures View() == CommitAll(old(View()), results)
    {
      for k := 0 to |results|
        invariant entries == old(entries) && upstreams == old(upstreams)
        invariant objects == ApplyAll(old(objects), results[..k])
      {
        assert results[..k + 1][..k] == results[..k];
        var u := objects[results[k].id];
        match results[k]
        case Undiscovered(id) => objects := objects[id := u.(stale := true)];
        case Discovered(id, tools) => objects := objects[id := u.(tools := tools, stale := false)];
      }
      assert results[..|results|] == results;
      RebuildEntriesLocked();
    }

    method CommitUpstream(result: Discovery)
      requires Known(objects, upstreams) && result.id in objects
      modifies this
      ensures View() == CommitOne(old(View()), result)
    {
      var u := objects[result.id];
      match result
      case Undiscovered(id) =>
        objects := objects[id := u.(stale := true)];
      case Discovered(id, tools) =>
        objects := objects[id := u.(tools := tools, stale := false)];
        RebuildEntriesLocked();
    }
  }

  lemma {:induction false} WithoutNameAt(objects: Objects, ids: seq<nat>, name: string, i: nat)
    requires Known(objects, ids) && i <= |ids|
    requires (forall j :: 0 <= j < i ==> objects[ids[j]].name != name) && (i < |ids| ==> objects[ids[i]].name == name)
    ensures WithoutName(objects, ids, name) == if i < |ids| then ids[..i] + ids[i + 1..] else ids
  {
    if i > 0 {
      var rest := ids[1..];
      assert forall j :: 0 <= j < |rest| ==> rest[j] == ids[j + 1];
      WithoutNameAt(objects, rest, name, i - 1);
      if i < |ids| {
        assert [ids[0]] + rest[..i - 1] == ids[..i];
        assert rest[i..] == ids[i + 1..];
      }
    }
  }

  // ---------------------------------------------------------------------------------------------
  // Interleaved refreshes
  // ---------------------------------------------------------------------------------------------

  /** Refreshes under way: the upstreams each one is discovering. */
  datatype World = World(table: RouteState, refreshes: map<nat, seq<nat>>, singles: map<nat, nat>)

  datatype Step =
    | AddUpstream(id: nat, name: string)
    | RemoveNamed(name: string)
    | BeginAll(r: nat)
    | EndAll(r: nat, results: seq<Discovery>)
    | BeginOne(r: nat, i: nat)
    | EndOne(r: nat, result: Discovery)

  predicate Enabled(w: World, a: Step) {
    match a
    case AddUpstream(id, _) => id !in w.table.objects
    case RemoveNamed(_) => true
    case BeginAll(r) => r !in w.refreshes
    case EndAll(r, results) =>
      r in w.refreshes && |results| == |w.refreshes[r]| && forall i :: 0 <= i < |results| ==> results[i].id == w.refreshes[r][i]
    case BeginOne(r, i) => r !in w.singles && i < |w.table.upstreams|
    case EndOne(r, result) => r in w.singles && result.id == w.singles[r]
  }

  ghost predicate Inv(w: World) {
    && Consistent(w.table)
    && (forall r :: r in w.refreshes ==> Known(w.table.objects, w.refreshes[r]))
    && (forall r :: r in w.singles ==> w.singles[r] in w.table.objects)
  }

  function Next(w: World, a: Step): World
    requires Inv(w) && Enabled(w, a)
  {
    match a
    case AddUpstream(id, name) => w.(table := Add(w.table, id, name))
    case RemoveNamed(name) => w.(table := Remove(w.table, name))
    case BeginAll(r) => w.(refreshes := w.refreshes[r := w.table.upstreams])
    case EndAll(r, results) => w.(table := CommitAll(w.table, results), refreshes := w.refreshes - {r})
    case BeginOne(r, i) => w.(singles := w.singles[r := w.table.upstreams[i]])
    case EndOne(r, result) => w.(table := CommitOne(w.table, result), singles := w.singles - {r})
  }

  /** A failed discovery marks its upstream stale and changes no tool. */
  lemma StaleOnly(s: RouteState, d: Discovery)
    requires Consistent(s) && d.Undiscovered? && d.id in s.objects
    ensures Consistent(s.(objects := ApplyOne(s.objects, d)))
  {
    assert Views(ApplyOne(s.objects, d), s.upstreams) == Views(s.objects, s.upstreams);
  }

  lemma StepKeepsInv(w: World, a: Step)
    requires Inv(w) && Enabled(w, a)
    ensures Inv(Next(w, a))
    ensures w.table.objects.Keys <= Next(w, a).table.objects.Keys
    ensures forall id :: id in Next(w, a).table.upstreams ==> id in w.table.upstreams || id !in w.table.objects
  {
    var s := w.table;
    match a
    case AddUpstream(id, name) => AddIsConsistent(s, id, name);
    case RemoveNamed(name) =>
      WithoutNameDistinct(s.objects, s.upstreams, name);
      RebuildIsConsistent(s.(upstreams := WithoutName(s.objects, s.upstreams, name)));
    case EndAll(r, results) => RebuildIsConsistent(s.(objects := ApplyAll(s.objects, results)));
    case EndOne(r, result) =>
      if result.Discovered? {
        RebuildIsConsistent(s.(objects := ApplyOne(s.objects, result)));
      } else {
        StaleOnly(s, result);
      }
    case _ =>
  }

  ghost predicate IsRun(w: World, steps: seq<Step>)
    requires Inv(w)
    decreases |steps|
  {
    steps != [] ==> Enabled(w, steps[0]) && (StepKeepsInv(w, steps[0]); IsRun(Next(w, steps[0]), steps[1..]))
  }

  ghost function Run(w: World, steps: seq<Step>): (w': World)
    requires Inv(w) && IsRun(w, steps)
    ensures Inv(w')
    decreases |steps|
  {
    if steps == [] then w else StepKeepsInv(w, steps[0]); Run(Next(w, steps[0]), steps[1..])
  }

  /** Every route of a consistent table leads to a current upstream. */
  lemma RoutesAreCurrent(s: RouteState, name: string)
    requires Consistent(s) && name in s.entries
    ensures s.entries[name].upstream in s.upstreams
  {
    var us := Views(s.objects, s.upstreams);
    var i, j := RoutedToOwner(us, name);
    assert us[i] == ViewOf(s.objects, s.upstreams[i]);
  }

  lemma {:induction false} GoneStaysGone(w: World, steps: seq<Step>, id: nat)
    requires Inv(w) && IsRun(w, steps) && id in w.table.objects && id !in w.table.upstreams
    ensures id in Run(w, steps).table.objects && id !in Run(w, steps).table.upstreams
    decreases |steps|
  {
    if steps != [] {
      StepKeepsInv(w, steps[0]);
      GoneStaysGone(Next(w, steps[0]), steps[1..], id);
    }
  }

  lemma RemoveKeepsObjects(s: RouteState, name: string)
    requires Known(s.objects, s.upstreams)
    ensures Remove(s, name).upstreams == WithoutName(s.objects, s.upstreams, name) && Remove(s, name).objects.Keys == s.objects.Keys
  {
  }

  /** Removal takes out the first upstream of that name and no other. */
  lemma RemovalTakesFirst(s: RouteState, name: string, i: nat)
    requires Consistent(s) && i < |s.upstreams| && s.objects[s.upstreams[i]].name == name
    requires forall j :: 0 <= j < i ==> s.objects[s.upstreams[j]].name != name
    ensures Remove(s, name).upstreams == s.upstreams[..i] + s.upstreams[i + 1..]
    ensures s.upstreams[i] in Remove(s, name).objects && s.upstreams[i] !in Remove(s, name).upstreams
  {
    RemoveKeepsObjects(s, name);
    WithoutNameAt(s.objects, s.upstreams, name, i);
    WithoutOne(s.upstreams, i);
  }

  lemma WithoutOne(ids: seq<nat>, i: nat)
    requires DistinctIds(ids) && i < |ids|
    ensures ids[i] !in ids[..i] + ids[i + 1..]
  {
  }

  /** An unknown name removes nothing, and no removal touches what an upstream offers. */
  lemma RemovalKeepsTools(s: RouteState, name: string, id: nat)
    requires Consistent(s) && id in s.objects
    ensures var s' := Remove(s, name);
            && s'.objects.Keys == s.objects.Keys && s'.objects[id].tools == s.objects[id].tools && s'.objects[id].stale == s.objects[id].stale
            && ((forall j :: 0 <= j < |s.upstreams| ==> s.objects[s.upstreams[j]].name != name) ==> s'.upstreams == s.upstreams && s'.entries == s.entries)
  {
    if forall j :: 0 <= j < |s.upstreams| ==> s.objects[s.upstreams[j]].name != name {
      WithoutNameAt(s.objects, s.upstreams, name, |s.upstreams|);
    }
  }

  /** A removed upstream is never routed to again, whichever refreshes commit later, those that were
      discovering it at the time included. */
  lemma {:induction false} RemovedIsNeverRouted(w: World, name: string, i: nat, steps: seq<Step>, tool: string)
    requires Inv(w) && IsRun(w, [RemoveNamed(name)] + steps)
    requires i < |w.table.upstreams| && w.table.objects[w.table.upstreams[i]].name == name
    requires forall j :: 0 <= j < i ==> w.table.objects[w.table.upstreams[j]].name != name
    ensures var s := Run(w, [RemoveNamed(name)] + steps).table;
            tool in s.entries ==> s.entries[tool].upstream != w.table.upstreams[i]
  {
    RemovalTakesFirst(w.table, name, i);
    assert ([RemoveNamed(name)] + steps)[1..] == steps;
    StepKeepsInv(w, RemoveNamed(name));
    var w' := Next(w, RemoveNamed(name));
    GoneStaysGone(w', steps, w.table.upstreams[i]);
    if tool in Run(w', steps).table.entries {
      RoutesAreCurrent(Run(w', steps).table, tool);
    }
  }

  /** After any interleaving, from any table that is a rebuild, the table is the rebuild of the current
      list: entries, and what each upstream shows. */
  lemma TableIsRebuild(w: World, steps: seq<Step>)
    requires Inv(w) && IsRun(w, steps)
    ensures var s := Run(w, steps).table;
            && Known(s.objects, s.upstreams)
            && s.entries == Rebuild(s).entries
            && Shows(s.objects, s.upstreams, Build(Views(s.objects, s.upstreams)).listings)
            && Lists(ListOf(Views(s.objects, s.upstreams)), s.entries, map[])
  {
    var s := Run(w, steps).table;
    ListAgreesWithIndex(Views(s.objects, s.upstreams));
  }

  /** A new table: the configured upstreams, without tools, in a first refresh. */
  lemma NewIsConsistent(upstreams: seq<nat>, objects: Objects, results: seq<Discovery>)
    requires DistinctIds(upstreams) && Known(objects, upstreams) && AllKnown(objects, results)
    ensures Inv(World(CommitAll(RouteState(map[], upstreams, objects), results), map[], map[]))
  {
    RebuildIsConsistent(RouteState(map[], upstreams, ApplyAll(objects, results)));
  }

  lemma {:induction false} AllFailedKeepsTools(objects: Objects, ds: seq<Discovery>, ids: seq<nat>)
    requires AllKnown(objects, ds) && Known(objects, ids) && forall i :: 0 <= i < |ds| ==> ds[i].Undiscovered?
    ensures Known(ApplyAll(objects, ds), ids) && Views(ApplyAll(objects, ds), ids) == Views(objects, ids)
  {
    if ds != [] {
      AllFailedKeepsTools(objects, ds[..|ds| - 1], ids);
    }
  }

  /** A refresh whose discoveries all fail changes no answer: not what a name resolves to, and not the
      list of tools. */
  lemma FailedRefreshChangesNothing(s: RouteState, ds: seq<Discovery>, name: string)
    requires Consistent(s) && AllKnown(s.objects, ds) && forall i :: 0 <= i < |ds| ==> ds[i].Undiscovered?
    ensures var s' := CommitAll(s, ds);
            && Lookup(s'.entries, name) == Lookup(s.entries, name)
            && Consistent(s') && ListOf(Views(s'.objects, s'.upstreams)) == ListOf(Views(s.objects, s.upstreams))
  {
    AllFailedKeepsTools(s.objects, ds, s.upstreams);
    RebuildIsConsistent(s.(objects := ApplyAll(s.objects, ds)));
  }

  /** Nor does one of a single upstream. */
  lemma FailedUpstreamChangesNothing(s: RouteState, d: Discovery)
    requires Consistent(s) && d.Undiscovered? && d.id in s.objects
    ensures var s' := CommitOne(s, d);
            && s'.entries == s.entries
            && Consistent(s') && ListOf(Views(s'.objects, s'.upstreams)) == ListOf(Views(s.objects, s.upstreams))
  {
    StaleOnly(s, d);
    assert Views(ApplyOne(s.objects, d), s.upstreams) == Views(s.objects, s.upstreams);
  }
}
