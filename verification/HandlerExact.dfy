/** Exactly when every resolved handler is complete, in whatever order names are resolved and factories list
    their children (`ag/ag_log/agslog/slog_wrap_config.go`, `ag/ag_log/agslog/slog_handler.go`). */
module HandlerExact {
  import opened Options
  import opened HandlerResolution
  import opened HandlerReach
  import opened HandlerComplete

  // ----- The order of children -----

  predicate SameKind(k: Kind, l: Kind) {
    if k.AnyOf? then l.AnyOf? && multiset(k.children) == multiset(l.children) else k == l
  }

  /** The same factories, with their children in any order. */
  predicate SameUpToOrder(fs: seq<Factory>, gs: seq<Factory>) {
    |fs| == |gs| && forall i :: 0 <= i < |fs| ==> fs[i].name == gs[i].name && SameKind(fs[i].kind, gs[i].kind)
  }

  lemma SameSymmetric(fs: seq<Factory>, gs: seq<Factory>)
    requires SameUpToOrder(fs, gs)
    ensures SameUpToOrder(gs, fs)
  {}

  lemma SameFirst(fs: seq<Factory>, gs: seq<Factory>, name: string)
    requires SameUpToOrder(fs, gs)
    ensures First(fs, name) == First(gs, name)
  {
    var i, j := First(fs, name), First(gs, name);
    hide First, SameKind;
    assert i < |fs| ==> fs[i].name == gs[i].name;
    assert j < |gs| ==> fs[j].name == gs[j].name;
  }

  lemma SameShadowed(fs: seq<Factory>, gs: seq<Factory>, handlers: set<string>)
    requires SameUpToOrder(fs, gs)
    ensures Shadowed(fs, handlers) == Shadowed(gs, handlers)
  {
    hide SameKind;
  }

  lemma SameElement(a: seq<string>, b: seq<string>, x: string) returns (k: nat)
    requires multiset(a) == multiset(b) && x in a
    ensures k < |b| && b[k] == x
  {
    assert x in multiset(a);
    assert x in b;
    k :| 0 <= k < |b| && b[k] == x;
  }

  lemma {:induction false} SameReach(fs: seq<Factory>, gs: seq<Factory>, g: Goal, avoid: set<nat>, name: string, n: nat)
    requires SameUpToOrder(fs, gs) && ReachIn(fs, g, avoid, name, n)
    ensures ReachIn(gs, g, avoid, name, n)
    decreases n, 0
  {
    hide SameKind;
    SameFirst(fs, gs, name);
    if name !in g.names {
      ReachStep(fs, g, avoid, name, n);
      var i := First(fs, name);
      assert SameKind(fs[i].kind, gs[i].kind);
      SameLeads(fs, gs, g, avoid, fs[i].kind, gs[i].kind, n - 1);
    }
  }

  lemma {:induction false} SameLeads(fs: seq<Factory>, gs: seq<Factory>, g: Goal, avoid: set<nat>, k: Kind, l: Kind, n: nat)
    requires SameUpToOrder(fs, gs) && SameKind(k, l) && LeadsIn(fs, g, avoid, k, n)
    ensures LeadsIn(gs, g, avoid, l, n)
    decreases n, 1
  {
    hide ReachIn, SameUpToOrder;
    match k
    case AnyOf(children) =>
      var c :| 0 <= c < |children| && ReachIn(fs, g, avoid, children[c], n);
      SameReach(fs, gs, g, avoid, children[c], n);
      var d := SameElement(children, l.children, children[c]);
    case Only(child) => SameReach(fs, gs, g, avoid, child, n);
    case Maker(_) =>
  }

  lemma SameLeadsPast(fs: seq<Factory>, gs: seq<Factory>, g: Goal, avoid: set<nat>, i: nat)
    requires SameUpToOrder(fs, gs) && i < |fs|
    ensures LeadsPast(fs, g, avoid, fs[i].kind) <==> LeadsPast(gs, g, avoid, gs[i].kind)
  {
    SameSymmetric(fs, gs);
    hide LeadsIn;
    assert SameKind(fs[i].kind, gs[i].kind) && SameKind(gs[i].kind, fs[i].kind);
    if LeadsPast(fs, g, avoid, fs[i].kind) {
      var n: nat :| LeadsIn(fs, g, avoid, fs[i].kind, n);
      SameLeads(fs, gs, g, avoid, fs[i].kind, gs[i].kind, n);
    }
    if LeadsPast(gs, g, avoid, gs[i].kind) {
      var n: nat :| LeadsIn(gs, g, avoid, gs[i].kind, n);
      SameLeads(gs, fs, g, avoid, gs[i].kind, fs[i].kind, n);
    }
  }

  lemma SameRefers(fs: seq<Factory>, gs: seq<Factory>, i: nat, j: nat)
    requires SameUpToOrder(fs, gs) && Refers(fs, i, j)
    ensures Refers(gs, i, j)
  {
    assert SameKind(fs[i].kind, gs[i].kind);
    var k :| 0 <= k < |Children(fs[i].kind)| && First(fs, Children(fs[i].kind)[k]) == j;
    var c := Children(fs[i].kind)[k];
    SameFirst(fs, gs, c);
    hide First;
    if fs[i].kind.AnyOf? {
      var d := SameElement(fs[i].kind.children, gs[i].kind.children, c);
      assert First(gs, Children(gs[i].kind)[d]) == j;
    } else {
      assert First(gs, Children(gs[i].kind)[k]) == j;
    }
  }

  lemma SamePath(fs: seq<Factory>, gs: seq<Factory>, avoid: set<nat>, path: seq<nat>)
    requires SameUpToOrder(fs, gs) && IsPath(fs, avoid, path)
    ensures IsPath(gs, avoid, path)
  {
    hide Refers, First, SameKind;
    forall k | 0 <= k < |path| ensures IsNode(gs, avoid, path[k]) {
      assert IsNode(fs, avoid, path[k]);
      SameFirst(fs, gs, fs[path[k]].name);
    }
    forall k | 0 < k < |path| ensures Refers(gs, path[k - 1], path[k]) {
      SameRefers(fs, gs, path[k - 1], path[k]);
    }
  }

  lemma SameBlocks(fs: seq<Factory>, gs: seq<Factory>, handlers: set<string>, leaf: string, path: seq<nat>, y: nat)
    requires SameUpToOrder(fs, gs) && Blocks(fs, handlers, leaf, path, y)
    ensures Blocks(gs, handlers, leaf, path, y)
  {
    SameShadowed(fs, gs, handlers);
    var avoid := Shadowed(fs, handlers);
    SamePath(fs, gs, avoid, path + [y]);
    SameLeadsPast(fs, gs, Goal({leaf}, false), avoid, y);
    SameLeadsPast(fs, gs, Goal({leaf}, false), avoid + Elements(path), y);
    SameLeadsPast(fs, gs, Goal(handlers, true), avoid + Elements(path), y);
    hide SameUpToOrder, IsPath, LeadsPast;
  }

  // ----- An order in which the path is walked -----

  /** The child is put first. */
  function Without(s: seq<string>, x: string): (r: seq<string>)
    ensures x in s ==> multiset(s) == multiset([x] + r)
  {
    if s == [] then []
    else if s[0] == x then
      assert s == [x] + s[1..];
      s[1..]
    else
      assert s == [s[0]] + s[1..];
      [s[0]] + Without(s[1..], x)
  }

  function Front(kind: Kind, x: string): (r: Kind)
    ensures SameKind(kind, r)
    ensures x in Children(kind) && (kind.Only? ==> kind.child == x) ==> Children(r) != [] && Children(r)[0] == x
  {
    if kind.AnyOf? && x in kind.children then AnyOf([x] + Without(kind.children, x)) else kind
  }

  function NextOn(path: seq<nat>, i: nat): Option<nat> {
    if |path| < 2 then None else if path[0] == i then Some(path[1]) else NextOn(path[1..], i)
  }

  lemma {:induction false} NextOnAt(path: seq<nat>, k: nat)
    requires k + 1 < |path| && forall i, j :: 0 <= i < j < |path| ==> path[i] != path[j]
    ensures NextOn(path, path[k]) == Some(path[k + 1])
    decreases k
  {
    if k > 0 {
      var rest := path[1..];
      assert forall i :: 0 <= i < |rest| ==> rest[i] == path[i + 1];
      NextOnAt(rest, k - 1);
    }
  }

  /** Each factory of the path lists the next one first. */
  function Walked(fs: seq<Factory>, path: seq<nat>): (gs: seq<Factory>)
    ensures SameUpToOrder(fs, gs)
  {
    seq(|fs|, i requires 0 <= i < |fs| =>
      var next := NextOn(path, i);
      if next.Some? && next.value < |fs| then fs[i].(kind := Front(fs[i].kind, fs[next.value].name)) else fs[i])
  }

  lemma WalkedLeads(fs: seq<Factory>, avoid: set<nat>, path: seq<nat>, k: nat)
    requires IsPath(fs, avoid, path) && k + 1 < |path|
    ensures path[k] < |fs| && path[k + 1] < |fs|
    ensures var gs := Walked(fs, path);
      Children(gs[path[k]].kind) != [] && Children(gs[path[k]].kind)[0] == gs[path[k + 1]].name
  {
    assert IsNode(fs, avoid, path[k]) && IsNode(fs, avoid, path[k + 1]) && Refers(fs, path[k + 1 - 1], path[k + 1]);
    NextOnAt(path, k);
    var i, j := path[k], path[k + 1];
    var c :| 0 <= c < |Children(fs[i].kind)| && First(fs, Children(fs[i].kind)[c]) == j;
    assert Children(fs[i].kind)[c] == fs[j].name;
    hide NextOn, Front, First;
    var gs := Walked(fs, path);
    assert gs[i].kind == Front(fs[i].kind, fs[j].name);
    assert fs[i].kind.Only? ==> fs[i].kind.child == fs[j].name;
  }

  // ----- The path is walked -----

  /** On the way down the path, before anything was resolved. */
  function OnTheWay(handlers: set<string>, path: seq<nat>, k: nat): State
    requires k <= |path|
  {
    Initial(handlers).(locks := Elements(path[..k]))
  }

  predicate Caches(s: State, name: string, h: Handler) {
    name in s.caches && s.caches[name] == h
  }

  lemma GrowsCaches(s: State, s': State, name: string, h: Handler)
    requires Grows(s, s') && Caches(s, name, h)
    ensures Caches(s', name, h)
  {}

  lemma LocksOnTheWay(handlers: set<string>, path: seq<nat>, k: nat)
    requires k < |path| && forall i, j :: 0 <= i < j < |path| ==> path[i] != path[j]
    ensures var s := OnTheWay(handlers, path, k);
      && path[k] !in s.locks && s.locks + {path[k]} == Elements(path[..k + 1])
      && s.(locks := s.locks + {path[k]}) == OnTheWay(handlers, path, k + 1) && s.instances == map[]
  {
    assert path[..k + 1] == path[..k] + [path[k]];
    assert forall i :: 0 <= i < k ==> path[i] != path[k];
  }

  lemma NodeIs(gs: seq<Factory>, handlers: set<string>, i: nat)
    requires IsNode(gs, Shadowed(gs, handlers), i)
    ensures i < |gs| && First(gs, gs[i].name) == i && gs[i].name !in Initial(handlers).caches
  {
    hide First;
  }

  /** A node of the path is not resolved, locked or built when it is come to. */
  lemma NodeIsNew(gs: seq<Factory>, handlers: set<string>, path: seq<nat>, k: nat)
    requires IsPath(gs, Shadowed(gs, handlers), path) && k < |path|
    ensures var s := OnTheWay(handlers, path, k);
      && path[k] < |gs| && First(gs, gs[path[k]].name) == path[k] && gs[path[k]].name !in s.caches
      && path[k] !in s.locks && path[k] !in s.instances
      && s.(locks := s.locks + {path[k]}) == OnTheWay(handlers, path, k + 1)
  {
    hide First, Refers, IsNode, Elements;
    LocksOnTheWay(handlers, path, k);
    NodeIs(gs, handlers, path[k]);
  }

  lemma BuiltByFirstChild(gs: seq<Factory>, s: State, f: Factory, name: string, h: Handler)
    requires Children(f.kind) != [] && Caches(Resolve(gs, s, Children(f.kind)[0]).0, name, h)
    ensures Caches(Build(gs, s, f).0, name, h)
  {
    hide Resolve, ResolveAll, Caches;
    match f.kind
    case AnyOf(children) =>
      AllStep(gs, s, children);
      var s1 := Resolve(gs, s, children[0]).0;
      AllGrow(gs, s1, children[1..]);
      GrowsCaches(s1, ResolveAll(gs, s1, children[1..]).0, name, h);
    case Only(child) =>
    case Maker(_) =>
  }

  lemma ResolvedByBuild(gs: seq<Factory>, s: State, x: string, name: string, h: Handler)
    requires x !in s.caches && First(gs, x) < |gs| && First(gs, x) !in s.locks && First(gs, x) !in s.instances && x != name
    requires Caches(Build(gs, s.(locks := s.locks + {First(gs, x)}), gs[First(gs, x)]).0, name, h)
    ensures Caches(Resolve(gs, s, x).0, name, h)
  {
    ResolveStep(gs, s, x);
    GetStep(gs, s, First(gs, x));
    hide Resolve, GetHandler, Build, First;
  }

  lemma {:induction false} WalkCaches(gs: seq<Factory>, handlers: set<string>, path: seq<nat>, k: nat, h: Handler)
    requires IsPath(gs, Shadowed(gs, handlers), path) && k < |path|
    requires forall j :: 0 <= j < |path| ==> path[j] < |gs|
    requires forall j :: 0 <= j < |path| - 1 ==> StartsWith(gs, path, j)
    requires Resolve(gs, OnTheWay(handlers, path, |path| - 1), gs[path[|path| - 1]].name).1 == Some(h)
    ensures Caches(Resolve(gs, OnTheWay(handlers, path, k), gs[path[k]].name).0, gs[path[|path| - 1]].name, h)
    decreases |path| - k
  {
    hide *;
    var s, x, y := OnTheWay(handlers, path, k), gs[path[k]].name, gs[path[|path| - 1]].name;
    if k + 1 == |path| {
      ResolvedIsCached(gs, s, x, h);
    } else {
      NodeIsNew(gs, handlers, path, k);
      WalkCaches(gs, handlers, path, k + 1, h);
      StartsWithMeans(gs, path, k);
      BuiltByFirstChild(gs, OnTheWay(handlers, path, k + 1), gs[path[k]], y, h);
      OtherName(gs, handlers, path, k);
      ResolvedByBuild(gs, s, x, y, h);
    }
  }

  /** The first child is the next factory of the path. */
  predicate StartsWith(gs: seq<Factory>, path: seq<nat>, j: nat)
    requires j + 1 < |path| && path[j] < |gs| && path[j + 1] < |gs|
  {
    Children(gs[path[j]].kind) != [] && Children(gs[path[j]].kind)[0] == gs[path[j + 1]].name
  }

  lemma StartsWithMeans(gs: seq<Factory>, path: seq<nat>, j: nat)
    requires j + 1 < |path| && path[j] < |gs| && path[j + 1] < |gs| && StartsWith(gs, path, j)
    ensures Children(gs[path[j]].kind) != [] && Children(gs[path[j]].kind)[0] == gs[path[j + 1]].name
  {}

  lemma OtherName(gs: seq<Factory>, handlers: set<string>, path: seq<nat>, k: nat)
    requires IsPath(gs, Shadowed(gs, handlers), path) && k + 1 < |path|
    ensures path[k] < |gs| && path[|path| - 1] < |gs| && gs[path[k]].name != gs[path[|path| - 1]].name
  {
    assert IsNode(gs, Shadowed(gs, handlers), path[k]) && IsNode(gs, Shadowed(gs, handlers), path[|path| - 1]);
    hide First, Refers;
  }

  lemma ResolvedIsCached(gs: seq<Factory>, s: State, x: string, h: Handler)
    requires Resolve(gs, s, x).1 == Some(h)
    ensures Caches(Resolve(gs, s, x).0, x, h)
  {
    ResolveStep(gs, s, x);
    hide Resolve, GetHandler, First;
  }

  // ----- At the end of the path -----

  /** What the blocked factory's name is resolved to there: a handler, but without the target. */
  lemma CutAtTheEnd(gs: seq<Factory>, handlers: set<string>, leaf: string, path: seq<nat>, y: nat)
    requires leaf in handlers && Blocks(gs, handlers, leaf, path, y)
    ensures var r := Resolve(gs, OnTheWay(handlers, path + [y], |path|), gs[y].name).1;
      r.Some? && !Mentions(r.value, leaf)
    ensures ReachesPast(gs, Goal({leaf}, false), Shadowed(gs, handlers), gs[y].name)
  {
    var s := OnTheWay(handlers, path + [y], |path|);
    var z := Shadowed(gs, handlers);
    var avoid := z + Elements(path);
    assert (path + [y])[..|path|] == path;
    assert IsNode(gs, z, (path + [y])[|path|]);
    NotOnPath(path, y);
    hide LeadsIn, Mentions, Resolve, IsPath;
    ReachesByLead(gs, Goal({leaf}, false), z, gs[y].name);
    ReachesByLead(gs, Goal(handlers, true), avoid, gs[y].name);
    var n: nat :| ReachIn(gs, Goal(handlers, true), avoid, gs[y].name, n);
    FewerToAvoid(gs, Goal(handlers, true), Goal(handlers, true), avoid, s.locks, gs[y].name, n);
    ReachedResolves(gs, Goal(handlers, true), s, gs[y].name, n);
    CutHasNotTarget(gs, handlers, leaf, path, y);
  }

  lemma NotOnPath(path: seq<nat>, y: nat)
    requires forall j, k :: 0 <= j < k < |path + [y]| ==> (path + [y])[j] != (path + [y])[k]
    ensures y !in Elements(path)
  {
    var whole := path + [y];
    assert forall j :: 0 <= j < |path| ==> whole[j] == path[j] && whole[j] != whole[|path|];
  }

  lemma CutHasNotTarget(gs: seq<Factory>, handlers: set<string>, leaf: string, path: seq<nat>, y: nat)
    requires leaf in handlers && Blocks(gs, handlers, leaf, path, y)
    ensures var r := Resolve(gs, OnTheWay(handlers, path + [y], |path|), gs[y].name).1;
      r.Some? ==> !Mentions(r.value, leaf)
  {
    var s := OnTheWay(handlers, path + [y], |path|);
    var z := Shadowed(gs, handlers);
    var avoid := z + Elements(path);
    var g, p := Goal({leaf}, false), (h: Handler) => Mentions(h, leaf);
    assert (path + [y])[..|path|] == path;
    assert IsNode(gs, z, (path + [y])[|path|]);
    PathIsFactories(gs, z, path + [y]);
    assert Elements(path) <= Elements(path + [y]);
    RegisteredReach(gs, g, avoid);
    assert FromParts(p, false);
    assert Explained(gs, g, avoid, p, s) && Closed(gs, avoid, s);
    hide Resolve, IsPath, FromParts, Explained, Closed, LeadsIn;
    ResolveIsExplained(gs, g, avoid, p, s, gs[y].name);
    OnlyByLead(gs, g, avoid, y);
  }

  lemma OnlyByLead(gs: seq<Factory>, g: Goal, avoid: set<nat>, y: nat)
    requires y < |gs| && First(gs, gs[y].name) == y && gs[y].name !in g.names && !LeadsPast(gs, g, avoid, gs[y].kind)
    ensures !ReachesPast(gs, g, avoid, gs[y].name)
  {
    forall n: nat ensures !ReachIn(gs, g, avoid, gs[y].name, n) {
      hide First;
    }
  }

  // ----- Main result -----

  /** After these resolutions the name resolves to a handler that contains the registered handler if and only if
      the references lead there. */
  ghost predicate CompleteAfter(fs: seq<Factory>, handlers: set<string>, before: seq<string>, name: string, leaf: string) {
    var h := Resolve(fs, ResolveAll(fs, Initial(handlers), before).0, name).1;
    h.Some? && Mentions(h.value, leaf) <==> ReachesPast(fs, Goal({leaf}, false), Shadowed(fs, handlers), name)
  }

  ghost predicate AlwaysComplete(fs: seq<Factory>, handlers: set<string>) {
    forall before, name, leaf :: leaf in handlers ==> CompleteAfter(fs, handlers, before, name, leaf)
  }

  /** Where a factory is blocked, there is an order in which its handler is cut: the path is entered at its
      beginning and walked to the factory, which is resolved there and cached. */
  lemma BlockedIsCut(fs: seq<Factory>, handlers: set<string>, leaf: string, path: seq<nat>, y: nat) returns (gs: seq<Factory>)
    requires leaf in handlers && Blocks(fs, handlers, leaf, path, y)
    ensures SameUpToOrder(fs, gs) && path != [] && path[0] < |gs| && y < |gs|
    ensures !CompleteAfter(gs, handlers, [gs[path[0]].name], gs[y].name, leaf)
  {
    var whole := path + [y];
    gs := Walked(fs, whole);
    SameBlocks(fs, gs, handlers, leaf, path, y);
    SameShadowed(fs, gs, handlers);
    PathIsBounded(gs, Shadowed(gs, handlers), whole);
    forall j | 0 <= j < |whole| - 1 ensures StartsWith(gs, whole, j) {
      WalkedLeads(fs, Shadowed(fs, handlers), whole, j);
    }
    assert IsPath(gs, Shadowed(gs, handlers), whole) && path != [];
    hide Walked, Blocks, IsPath, StartsWith, Resolve, ResolveAll, Mentions, ReachesPast, First;
    CutAtTheEnd(gs, handlers, leaf, path, y);
    assert whole[|whole| - 1] == y && whole[0] == path[0];
    var h := Resolve(gs, OnTheWay(handlers, whole, |path|), gs[y].name).1.value;
    WalkCaches(gs, handlers, whole, 0, h);
    AtTheBeginning(handlers, whole);
    var x, s := gs[path[0]].name, Initial(handlers);
    AllStep(gs, s, [x]);
    AllStep(gs, Resolve(gs, s, x).0, []);
    assert [x][1..] == [];
    ResolveStep(gs, Resolve(gs, s, x).0, gs[y].name);
  }

  lemma PathIsBounded(fs: seq<Factory>, avoid: set<nat>, path: seq<nat>)
    requires IsPath(fs, avoid, path)
    ensures forall j :: 0 <= j < |path| ==> path[j] < |fs|
  {
    hide First, Refers;
    forall j | 0 <= j < |path| ensures path[j] < |fs| {
      assert IsNode(fs, avoid, path[j]);
    }
  }

  lemma AtTheBeginning(handlers: set<string>, path: seq<nat>)
    ensures OnTheWay(handlers, path, 0) == Initial(handlers)
  {
    assert path[..0] == [] && Elements([]) == {};
  }

  /** In whatever order factories list their children and names are resolved, every name resolves to a handler
      that contains just the registered handlers its references lead to, if and only if no path of
      references blocks a factory at its end: every such factory that has a way around the path to some
      handler has one to each handler that it has a way to at all. */
  lemma CompletenessIsExact(fs: seq<Factory>, handlers: set<string>)
    ensures (forall gs :: SameUpToOrder(fs, gs) ==> AlwaysComplete(gs, handlers))
       <==> (forall leaf, path, y :: leaf in handlers ==> !Blocks(fs, handlers, leaf, path, y))
  {
    hide Blocks, CompleteAfter, SameUpToOrder;
    if leaf, path, y :| leaf in handlers && Blocks(fs, handlers, leaf, path, y) {
      var gs := BlockedIsCut(fs, handlers, leaf, path, y);
      assert !AlwaysComplete(gs, handlers);
    } else {
      forall gs | SameUpToOrder(fs, gs) ensures AlwaysComplete(gs, handlers) {
        UnblockedIsAlwaysComplete(fs, gs, handlers);
      }
    }
  }

  lemma UnblockedIsAlwaysComplete(fs: seq<Factory>, gs: seq<Factory>, handlers: set<string>)
    requires SameUpToOrder(fs, gs) && forall leaf, path, y :: leaf in handlers ==> !Blocks(fs, handlers, leaf, path, y)
    ensures AlwaysComplete(gs, handlers)
  {
    var zone := Below(|gs|);
    AllInZone(gs, handlers);
    SameSymmetric(fs, gs);
    hide SameUpToOrder, Blocks, Resolve, ResolveAll, Mentions, ReachesPast, IsClosed, InZone;
    forall before, name, leaf | leaf in handlers ensures CompleteAfter(gs, handlers, before, name, leaf) {
      forall path, y | y in zone ensures !Blocks(gs, handlers, leaf, path, y) {
        if Blocks(gs, handlers, leaf, path, y) {
          SameBlocks(gs, fs, handlers, leaf, path, y);
          assert false;
        }
      }
      UnblockedIsComplete(gs, handlers, zone, before, name, leaf);
    }
  }

  lemma AllInZone(gs: seq<Factory>, handlers: set<string>)
    ensures IsClosed(gs, handlers, Below(|gs|)) && forall name :: InZone(gs, handlers, Below(|gs|), name)
  {
    hide First;
  }
}
