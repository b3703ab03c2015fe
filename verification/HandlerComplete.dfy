/** When a resolved handler contains every handler its references lead to
    (`ag/ag_log/agslog/slog_wrap_config.go`, `ag/ag_log/agslog/slog_handler.go`). */
module HandlerComplete {
  import opened Options
  import opened HandlerResolution
  import opened HandlerReach

  // ----- Ways to a goal -----

  lemma {:induction false} FewerToAvoid(fs: seq<Factory>, g: Goal, g': Goal, avoid: set<nat>, avoid': set<nat>, name: string, n: nat)
    requires avoid' <= avoid && g.names <= g'.names && (g.makers ==> g'.makers) && ReachIn(fs, g, avoid, name, n)
    ensures ReachIn(fs, g', avoid', name, n)
    decreases n, 0
  {
    if name !in g.names {
      ReachStep(fs, g, avoid, name, n);
      FewerToAvoidLeads(fs, g, g', avoid, avoid', fs[First(fs, name)].kind, n - 1);
    }
  }

  lemma {:induction false} FewerToAvoidLeads(fs: seq<Factory>, g: Goal, g': Goal, avoid: set<nat>, avoid': set<nat>, kind: Kind, n: nat)
    requires avoid' <= avoid && g.names <= g'.names && (g.makers ==> g'.makers) && LeadsIn(fs, g, avoid, kind, n)
    ensures LeadsIn(fs, g', avoid', kind, n)
    decreases n, 1
  {
    hide ReachIn;
    match kind
    case AnyOf(children) =>
      var k :| 0 <= k < |children| && ReachIn(fs, g, avoid, children[k], n);
      FewerToAvoid(fs, g, g', avoid, avoid', children[k], n);
    case Only(child) =>
      FewerToAvoid(fs, g, g', avoid, avoid', child, n);
    case Maker(_) =>
  }

  lemma ReachesFewer(fs: seq<Factory>, g: Goal, g': Goal, avoid: set<nat>, avoid': set<nat>, name: string)
    requires avoid' <= avoid && g.names <= g'.names && (g.makers ==> g'.makers) && ReachesPast(fs, g, avoid, name)
    ensures ReachesPast(fs, g', avoid', name)
  {
    hide ReachIn;
    var n: nat :| ReachIn(fs, g, avoid, name, n);
    FewerToAvoid(fs, g, g', avoid, avoid', name, n);
  }

  lemma LeadsFewer(fs: seq<Factory>, g: Goal, g': Goal, avoid: set<nat>, avoid': set<nat>, kind: Kind)
    requires avoid' <= avoid && g.names <= g'.names && (g.makers ==> g'.makers) && LeadsPast(fs, g, avoid, kind)
    ensures LeadsPast(fs, g', avoid', kind)
  {
    hide LeadsIn;
    var n: nat :| LeadsIn(fs, g, avoid, kind, n);
    FewerToAvoidLeads(fs, g, g', avoid, avoid', kind, n);
  }

  // ----- What is found stands on what was built -----

  /** The factories that have not built their handler. */
  function Unbuilt(fs: seq<Factory>, s: State): (r: set<nat>)
    ensures forall i: nat :: i in r <==> i < |fs| && i !in s.instances
  {
    set i: nat | i < |fs| && i !in s.instances
  }

  /** What is cached or built has a way to the goal through factories that have built; a factory being built has
      not. */
  ghost predicate Founded(fs: seq<Factory>, any: Goal, s: State) {
    && (forall name :: name in s.caches ==> ReachesPast(fs, any, Unbuilt(fs, s), name))
    && (forall i :: i in s.instances ==> i < |fs| && LeadsPast(fs, any, Unbuilt(fs, s), fs[i].kind))
    && s.locks !! s.instances.Keys
  }

  lemma FoundedStays(fs: seq<Factory>, any: Goal, s: State, s': State)
    requires forall i :: i in s.instances ==> i in s'.instances
    ensures Unbuilt(fs, s') <= Unbuilt(fs, s)
    ensures forall name :: ReachesPast(fs, any, Unbuilt(fs, s), name) ==> ReachesPast(fs, any, Unbuilt(fs, s'), name)
    ensures forall kind :: LeadsPast(fs, any, Unbuilt(fs, s), kind) ==> LeadsPast(fs, any, Unbuilt(fs, s'), kind)
  {
    hide ReachesPast, LeadsPast;
    forall name | ReachesPast(fs, any, Unbuilt(fs, s), name) ensures ReachesPast(fs, any, Unbuilt(fs, s'), name) {
      ReachesFewer(fs, any, any, Unbuilt(fs, s), Unbuilt(fs, s'), name);
    }
    forall kind | LeadsPast(fs, any, Unbuilt(fs, s), kind) ensures LeadsPast(fs, any, Unbuilt(fs, s'), kind) {
      LeadsFewer(fs, any, any, Unbuilt(fs, s), Unbuilt(fs, s'), kind);
    }
  }

  lemma {:induction false} ResolveIsFounded(fs: seq<Factory>, any: Goal, s: State, name: string)
    requires any.makers && Founded(fs, any, s)
    ensures var (s', h) := Resolve(fs, s, name);
      Founded(fs, any, s') && (h.Some? ==> ReachesPast(fs, any, Unbuilt(fs, s'), name))
    decreases |Unlocked(fs, s.locks)|, 2
  {
    hide GetHandler, ReachesPast, LeadsPast;
    ResolveStep(fs, s, name);
    var i := First(fs, name);
    if name !in s.caches && i < |fs| {
      GetIsFounded(fs, any, s, i);
      var (s', h) := GetHandler(fs, s, i);
      if h.Some? {
        ReachesByLead(fs, any, Unbuilt(fs, s'), name);
        FoundedStays(fs, any, s', Resolve(fs, s, name).0);
      }
    }
  }

  lemma {:induction false} GetIsFounded(fs: seq<Factory>, any: Goal, s: State, i: nat)
    requires any.makers && Founded(fs, any, s) && i < |fs|
    ensures var (s', h) := GetHandler(fs, s, i);
      Founded(fs, any, s') && (h.Some? ==> i in s'.instances && LeadsPast(fs, any, Unbuilt(fs, s'), fs[i].kind))
    decreases |Unlocked(fs, s.locks)|, 1
  {
    hide *;
    GetStep(fs, s, i);
    if i in s.locks {
    } else if i in s.instances {
      FoundedInstance(fs, any, s, i);
    } else {
      var s1 := s.(locks := s.locks + {i});
      LockIsFounded(fs, any, s, i);
      BuildIsFounded(fs, any, s1, fs[i]);
      var (s2, h) := Build(fs, s1, fs[i]);
      LocksStay(fs, s, i);
      UnlockIsFounded(fs, any, s2, i, h);
    }
  }

  lemma LocksStay(fs: seq<Factory>, s: State, i: nat)
    requires i < |fs|
    ensures Build(fs, s.(locks := s.locks + {i}), fs[i]).0.locks == s.locks + {i}
  {
    hide Build;
  }

  lemma FoundedInstance(fs: seq<Factory>, any: Goal, s: State, i: nat)
    requires Founded(fs, any, s) && i in s.instances
    ensures i < |fs| && LeadsPast(fs, any, Unbuilt(fs, s), fs[i].kind)
  {
    hide LeadsPast, ReachesPast;
  }

  lemma LockIsFounded(fs: seq<Factory>, any: Goal, s: State, i: nat)
    requires Founded(fs, any, s) && i < |fs| && i !in s.instances
    ensures Founded(fs, any, s.(locks := s.locks + {i}))
  {
    FoundedStays(fs, any, s, s.(locks := s.locks + {i}));
    hide LeadsPast, ReachesPast, Unbuilt;
  }

  lemma UnlockIsFounded(fs: seq<Factory>, any: Goal, s: State, i: nat, h: Option<Handler>)
    requires Founded(fs, any, s) && i < |fs| && i in s.locks
    requires h.Some? ==> LeadsPast(fs, any, Unbuilt(fs, s), fs[i].kind)
    ensures var s1 := s.(locks := s.locks - {i});
      var s2 := if h.None? then s1 else s1.(instances := s1.instances[i := h.value]);
      Founded(fs, any, s2) && (h.Some? ==> i in s2.instances && LeadsPast(fs, any, Unbuilt(fs, s2), fs[i].kind))
  {
    var s1 := s.(locks := s.locks - {i});
    var s2 := if h.None? then s1 else s1.(instances := s1.instances[i := h.value]);
    FoundedStays(fs, any, s, s2);
    hide LeadsPast, ReachesPast, Unbuilt;
  }

  lemma {:induction false} BuildIsFounded(fs: seq<Factory>, any: Goal, s: State, f: Factory)
    requires any.makers && Founded(fs, any, s)
    ensures var (s', h) := Build(fs, s, f);
      Founded(fs, any, s') && (h.Some? ==> LeadsPast(fs, any, Unbuilt(fs, s'), f.kind))
    decreases |Unlocked(fs, s.locks)|, 4
  {
    hide Founded, Resolve, ResolveAll, ReachesPast, Unbuilt;
    match f.kind
    case AnyOf(children) =>
      AllAreFounded(fs, any, s, children);
      var (s', subs) := ResolveAll(fs, s, children);
      if subs != [] {
        var k :| 0 <= k < |children| && ReachesPast(fs, any, Unbuilt(fs, s'), children[k]);
        LeadsByChild(fs, any, Unbuilt(fs, s'), children, k);
      }
    case Only(child) =>
      ResolveIsFounded(fs, any, s, child);
      var (s', h) := Resolve(fs, s, child);
      if h.Some? {
        LeadsByOnly(fs, any, Unbuilt(fs, s'), child);
      }
    case Maker(works) =>
      if works {
        assert LeadsIn(fs, any, Unbuilt(fs, s), f.kind, 0);
      }
  }

  lemma {:induction false} AllAreFounded(fs: seq<Factory>, any: Goal, s: State, names: seq<string>)
    requires any.makers && Founded(fs, any, s)
    ensures var (s', subs) := ResolveAll(fs, s, names);
      Founded(fs, any, s') &&
      (subs != [] ==> exists k :: 0 <= k < |names| && ReachesPast(fs, any, Unbuilt(fs, s'), names[k]))
    decreases |Unlocked(fs, s.locks)|, 3, |names|
  {
    hide Founded, Resolve, ReachesPast, Unbuilt;
    if names != [] {
      ResolveIsFounded(fs, any, s, names[0]);
      var (s1, h) := Resolve(fs, s, names[0]);
      AllAreFounded(fs, any, s1, names[1..]);
      AllGrow(fs, s1, names[1..]);
      var (s2, subs) := ResolveAll(fs, s1, names[1..]);
      FoundedStays(fs, any, s1, s2);
      if h.Some? {
        assert ReachesPast(fs, any, Unbuilt(fs, s2), names[0]);
      } else if subs != [] {
        var k :| 0 <= k < |names[1..]| && ReachesPast(fs, any, Unbuilt(fs, s2), names[1..][k]);
        assert names[k + 1] == names[1..][k];
      }
    }
  }

  // ----- References in a row -----

  function Children(kind: Kind): seq<string> {
    match kind
    case AnyOf(children) => children
    case Only(child) => [child]
    case Maker(_) => []
  }

  /** Factory `i` refers to factory `j`. */
  predicate Refers(fs: seq<Factory>, i: nat, j: nat) {
    i < |fs| && exists k :: 0 <= k < |Children(fs[i].kind)| && First(fs, Children(fs[i].kind)[k]) == j
  }

  function Elements(path: seq<nat>): set<nat> {
    set i | i in path
  }

  predicate IsNode(fs: seq<Factory>, avoid: set<nat>, i: nat) {
    i < |fs| && i !in avoid && First(fs, fs[i].name) == i
  }

  /** Different factories, each of which refers to the next. */
  ghost predicate IsPath(fs: seq<Factory>, avoid: set<nat>, path: seq<nat>) {
    && (forall k :: 0 <= k < |path| ==> IsNode(fs, avoid, path[k]))
    && (forall j, k :: 0 <= j < k < |path| ==> path[j] != path[k])
    && (forall k :: 0 < k < |path| ==> Refers(fs, path[k - 1], path[k]))
  }

  /** Factory `y` refers, some way, to the registered handler `leaf`; but when it is reached along `path`, all
      those ways lead back to the path, while some way to another handler does not. */
  ghost predicate Blocks(fs: seq<Factory>, handlers: set<string>, leaf: string, path: seq<nat>, y: nat) {
    var avoid := Shadowed(fs, handlers);
    && path != [] && y < |fs| && IsPath(fs, avoid, path + [y])
    && LeadsPast(fs, Goal({leaf}, false), avoid, fs[y].kind)
    && !LeadsPast(fs, Goal({leaf}, false), avoid + Elements(path), fs[y].kind)
    && LeadsPast(fs, Goal(handlers, true), avoid + Elements(path), fs[y].kind)
  }

  // ----- A name whose references are nowhere blocked -----

  /** The factories of `zone` refer to registered handlers and to factories of it. */
  predicate IsClosed(fs: seq<Factory>, handlers: set<string>, zone: set<nat>) {
    forall i :: i in zone && i < |fs| ==> forall k :: 0 <= k < |Children(fs[i].kind)| ==>
      InZone(fs, handlers, zone, Children(fs[i].kind)[k])
  }

  predicate InZone(fs: seq<Factory>, handlers: set<string>, zone: set<nat>, name: string) {
    name in handlers || First(fs, name) == |fs| || First(fs, name) in zone
  }

  ghost predicate Unblocked(fs: seq<Factory>, handlers: set<string>, leaf: string, zone: set<nat>) {
    forall path, y :: y in zone ==> !Blocks(fs, handlers, leaf, path, y)
  }

  /** What the proof is about: the factories, the registered handlers, one of them, and a zone in which no
      factory is blocked from it. */
  datatype Setting = Setting(fs: seq<Factory>, handlers: set<string>, leaf: string, zone: set<nat>) {
    function Target(): Goal {
      Goal({leaf}, false)
    }

    function Any(): Goal {
      Goal(handlers, true)
    }

    function Avoid(): set<nat> {
      Shadowed(fs, handlers)
    }

    ghost predicate Valid() {
      leaf in handlers && IsClosed(fs, handlers, zone) && Unblocked(fs, handlers, leaf, zone)
    }
  }

  /** What is cached or built in the zone mentions the handler if its references lead there. */
  ghost predicate Full(t: Setting, s: State) {
    && (forall name :: name in t.handlers ==> name in s.caches)
    && (forall name :: name in s.caches ==> FullOf(t, name, Some(s.caches[name])))
    && (forall i :: i in s.instances ==> i < |t.fs| && FullOfFactory(t, i, Some(s.instances[i])))
    && (forall i :: i in s.instances ==> i !in t.Avoid())
    && Founded(t.fs, t.Any(), s)
  }

  /** The locked factories are those of the path along which the resolution has come. */
  ghost predicate Along(t: Setting, s: State, path: seq<nat>) {
    IsPath(t.fs, t.Avoid(), path) && s.locks == Elements(path)
  }

  predicate CanFollow(fs: seq<Factory>, path: seq<nat>, i: nat) {
    path == [] || Refers(fs, path[|path| - 1], i)
  }

  predicate MayCall(fs: seq<Factory>, path: seq<nat>, name: string) {
    First(fs, name) < |fs| ==> CanFollow(fs, path, First(fs, name))
  }

  ghost predicate FullOf(t: Setting, name: string, h: Option<Handler>) {
    h.Some? && InZone(t.fs, t.handlers, t.zone, name) && ReachesPast(t.fs, t.Target(), t.Avoid(), name) ==>
      Mentions(h.value, t.leaf)
  }

  ghost predicate FullOfFactory(t: Setting, i: nat, h: Option<Handler>)
    requires i < |t.fs|
  {
    h.Some? && i in t.zone && LeadsPast(t.fs, t.Target(), t.Avoid(), t.fs[i].kind) ==> Mentions(h.value, t.leaf)
  }

  lemma {:induction false} ResolveIsFull(t: Setting, s: State, path: seq<nat>, name: string)
    requires t.Valid() && Full(t, s) && Along(t, s, path) && MayCall(t.fs, path, name)
    ensures Full(t, Resolve(t.fs, s, name).0) && FullOf(t, name, Resolve(t.fs, s, name).1)
    decreases |Unlocked(t.fs, s.locks)|, 2
  {
    hide *;
    ResolveStep(t.fs, s, name);
    FullMeans(t, s);
    AnyMakes(t);
    ResolveIsFounded(t.fs, t.Any(), s, name);
    if name in s.caches {
      FullCached(t, s, name);
    } else {
      var i := First(t.fs, name);
      UncachedIsNode(t, s, name);
      if i < |t.fs| {
        MayCallMeans(t.fs, path, name);
        GetIsFull(t, s, path, i);
        var (s', h) := GetHandler(t.fs, s, i);
        CachingIsFull(t, s', name, h);
      } else {
        NothingIsFull(t, name);
      }
    }
  }

  lemma AnyMakes(t: Setting)
    ensures t.Any().makers
  {}

  lemma FullMeans(t: Setting, s: State)
    requires Full(t, s)
    ensures Founded(t.fs, t.Any(), s)
  {
    hide Founded, ReachesPast, LeadsPast, Mentions;
  }

  lemma FullCached(t: Setting, s: State, name: string)
    requires Full(t, s) && name in s.caches
    ensures FullOf(t, name, Some(s.caches[name]))
  {
    hide Founded, ReachesPast, LeadsPast, Mentions;
  }

  lemma NothingIsFull(t: Setting, name: string)
    ensures FullOf(t, name, None)
  {}

  lemma MayCallMeans(fs: seq<Factory>, path: seq<nat>, name: string)
    requires MayCall(fs, path, name) && First(fs, name) < |fs|
    ensures CanFollow(fs, path, First(fs, name))
  {}

  lemma UncachedIsNode(t: Setting, s: State, name: string)
    requires Full(t, s) && name !in s.caches
    ensures name !in t.handlers
    ensures First(t.fs, name) < |t.fs| ==> IsNode(t.fs, t.Avoid(), First(t.fs, name))
    ensures First(t.fs, name) <= |t.fs|
  {
    hide Founded, ReachesPast, LeadsPast, Mentions;
  }

  /** The handler of a factory is that of its name. */
  lemma CachingIsFull(t: Setting, s: State, name: string, h: Option<Handler>)
    requires t.Valid() && Full(t, s) && name !in t.handlers && First(t.fs, name) < |t.fs|
    requires FullOfFactory(t, First(t.fs, name), h)
    requires Founded(t.fs, t.Any(), if h.None? then s else s.(caches := s.caches[name := h.value]))
    ensures Full(t, if h.None? then s else s.(caches := s.caches[name := h.value]))
    ensures FullOf(t, name, h)
  {
    assert ReachesPast(t.fs, t.Target(), t.Avoid(), name) ==>
      LeadsPast(t.fs, t.Target(), t.Avoid(), t.fs[First(t.fs, name)].kind) by {
      if ReachesPast(t.fs, t.Target(), t.Avoid(), name) {
        var n: nat :| ReachIn(t.fs, t.Target(), t.Avoid(), name, n);
        ReachStep(t.fs, t.Target(), t.Avoid(), name, n);
      }
    }
    hide Founded, ReachesPast, LeadsPast, Mentions, Unblocked, IsClosed, First;
  }

  lemma {:induction false} GetIsFull(t: Setting, s: State, path: seq<nat>, i: nat)
    requires t.Valid() && Full(t, s) && Along(t, s, path) && IsNode(t.fs, t.Avoid(), i) && CanFollow(t.fs, path, i)
    ensures i < |t.fs| && Full(t, GetHandler(t.fs, s, i).0) && FullOfFactory(t, i, GetHandler(t.fs, s, i).1)
    decreases |Unlocked(t.fs, s.locks)|, 1
  {
    hide *;
    NodeIsFactory(t.fs, t.Avoid(), i);
    GetStep(t.fs, s, i);
    if i in s.locks {
      NoneIsFull(t, i);
    } else if i in s.instances {
      FullInstance(t, s, i);
    } else {
      LockIsFull(t, s, path, i);
      var s1 := s.(locks := s.locks + {i});
      BuildIsFull(t, s1, path, i);
      var (s2, h) := Build(t.fs, s1, t.fs[i]);
      LocksStay(t.fs, s, i);
      FullMeans(t, s2);
      FullMeans(t, s1);
      AnyMakes(t);
      BuildIsFounded(t.fs, t.Any(), s1, t.fs[i]);
      UnlockIsFounded(t.fs, t.Any(), s2, i, h);
      UnlockIsFull(t, s2, i, h);
    }
  }

  lemma NodeIsFactory(fs: seq<Factory>, avoid: set<nat>, i: nat)
    requires IsNode(fs, avoid, i)
    ensures i < |fs| && i !in avoid
  {}

  lemma NoneIsFull(t: Setting, i: nat)
    requires i < |t.fs|
    ensures FullOfFactory(t, i, None)
  {}

  lemma FullInstance(t: Setting, s: State, i: nat)
    requires Full(t, s) && i in s.instances && i < |t.fs|
    ensures FullOfFactory(t, i, Some(s.instances[i]))
  {
    hide Founded, ReachesPast, LeadsPast, Mentions;
  }

  lemma LockIsFull(t: Setting, s: State, path: seq<nat>, i: nat)
    requires Full(t, s) && Along(t, s, path) && IsNode(t.fs, t.Avoid(), i) && CanFollow(t.fs, path, i)
    requires i !in s.locks && i !in s.instances
    ensures Full(t, s.(locks := s.locks + {i})) && Along(t, s.(locks := s.locks + {i}), path + [i])
  {
    LockIsFounded(t.fs, t.Any(), s, i);
    assert Elements(path + [i]) == Elements(path) + {i};
    hide Founded, ReachesPast, LeadsPast, Mentions, Refers;
  }

  lemma UnlockIsFull(t: Setting, s: State, i: nat, h: Option<Handler>)
    requires Full(t, s) && i < |t.fs| && i !in t.Avoid() && FullOfFactory(t, i, h)
    requires var s1 := s.(locks := s.locks - {i});
      Founded(t.fs, t.Any(), if h.None? then s1 else s1.(instances := s1.instances[i := h.value]))
    ensures var s1 := s.(locks := s.locks - {i});
      Full(t, if h.None? then s1 else s1.(instances := s1.instances[i := h.value]))
  {
    hide Founded, ReachesPast, LeadsPast, Mentions;
  }

  /** What a factory being built has resolved does not stand on the locked ones. */
  lemma LeadsAnyway(t: Setting, s: State, kind: Kind)
    requires Full(t, s) && LeadsPast(t.fs, t.Any(), Unbuilt(t.fs, s), kind)
    requires forall i :: i in s.locks ==> i < |t.fs|
    ensures LeadsPast(t.fs, t.Any(), t.Avoid() + s.locks, kind)
  {
    LeadsFewer(t.fs, t.Any(), t.Any(), Unbuilt(t.fs, s), t.Avoid() + s.locks, kind) by {
      hide ReachesPast, LeadsPast, Mentions;
    }
  }

  /** A factory that has resolved something could not be blocked, so one of its children leads on. */
  lemma LeadsOn(t: Setting, s: State, path: seq<nat>, i: nat)
    requires t.Valid() && Full(t, s) && Along(t, s, path + [i]) && i in t.zone && i < |t.fs|
    requires LeadsPast(t.fs, t.Any(), Unbuilt(t.fs, s), t.fs[i].kind)
    requires LeadsPast(t.fs, t.Target(), t.Avoid(), t.fs[i].kind)
    ensures LeadsPast(t.fs, t.Target(), t.Avoid() + s.locks, t.fs[i].kind)
  {
    var kind := t.fs[i].kind;
    assert Elements(path + [i]) == Elements(path) + {i};
    PathIsFactories(t.fs, t.Avoid(), path + [i]);
    LeadsAnyway(t, s, kind);
    hide ReachIn, LeadsIn, Full;
    LeadsFewer(t.fs, t.Any(), t.Any(), t.Avoid() + s.locks, t.Avoid() + Elements(path), kind);
    if path == [] {
      assert t.Avoid() + Elements(path) == t.Avoid();
    } else {
      assert !Blocks(t.fs, t.handlers, t.leaf, path, i);
    }
    var n: nat :| LeadsIn(t.fs, t.Target(), t.Avoid() + Elements(path), kind, n);
    var m := LeadsPastItself(t.fs, t.Target(), t.Avoid() + Elements(path), i, n);
    assert t.Avoid() + Elements(path) + {i} == t.Avoid() + s.locks;
  }

  lemma PathIsFactories(fs: seq<Factory>, avoid: set<nat>, path: seq<nat>)
    requires IsPath(fs, avoid, path)
    ensures forall i :: i in Elements(path) ==> i < |fs|
  {
    hide Refers;
  }

  lemma {:induction false} BuildIsFull(t: Setting, s: State, path: seq<nat>, i: nat)
    requires t.Valid() && Full(t, s) && Along(t, s, path + [i]) && i < |t.fs|
    ensures Full(t, Build(t.fs, s, t.fs[i]).0) && FullOfFactory(t, i, Build(t.fs, s, t.fs[i]).1)
    decreases |Unlocked(t.fs, s.locks)|, 4
  {
    hide *;
    FullMeans(t, s);
    AnyMakes(t);
    BuildIsFounded(t.fs, t.Any(), s, t.fs[i]);
    var (s', h) := Build(t.fs, s, t.fs[i]);
    match t.fs[i].kind
    case AnyOf(children) =>
      ChildrenMayBeCalled(t, path, i);
      BuildStep(t.fs, s, t.fs[i]);
      AllAreFull(t, s, path + [i], children);
      AlongStays(t, s, s', path + [i]);
      CombinedIsFull(t, s', path, i, children, ResolveAll(t.fs, s, children).1);
    case Only(child) =>
      ChildrenMayBeCalled(t, path, i);
      BuildOnlyStep(t.fs, s, t.fs[i]);
      ResolveIsFull(t, s, path + [i], child);
      WrappedIsFull(t, i, Resolve(t.fs, s, child).1);
    case Maker(works) =>
      BuildMakerStep(t.fs, s, t.fs[i]);
      MadeIsFull(t, i, h);
  }

  lemma BuildOnlyStep(fs: seq<Factory>, s: State, f: Factory)
    requires f.kind.Only?
    ensures Build(fs, s, f) ==
      var (s', h) := Resolve(fs, s, f.kind.child);
      (s', if h.None? then None else Some(Wrapped(h.value)))
  {
    hide Resolve;
  }

  lemma BuildMakerStep(fs: seq<Factory>, s: State, f: Factory)
    requires f.kind.Maker?
    ensures Build(fs, s, f).0 == s
  {}

  lemma ChildrenMayBeCalled(t: Setting, path: seq<nat>, i: nat)
    requires i < |t.fs|
    ensures forall k :: 0 <= k < |Children(t.fs[i].kind)| ==> MayCall(t.fs, path + [i], Children(t.fs[i].kind)[k])
    ensures t.fs[i].kind.AnyOf? ==> Children(t.fs[i].kind) == t.fs[i].kind.children
    ensures t.fs[i].kind.Only? ==> MayCall(t.fs, path + [i], t.fs[i].kind.child)
  {
    forall k | 0 <= k < |Children(t.fs[i].kind)| ensures MayCall(t.fs, path + [i], Children(t.fs[i].kind)[k]) {
      assert Refers(t.fs, i, First(t.fs, Children(t.fs[i].kind)[k]));
    }
    if t.fs[i].kind.Only? {
      assert Children(t.fs[i].kind)[0] == t.fs[i].kind.child;
    }
  }

  lemma CombinedIsFull(t: Setting, s: State, path: seq<nat>, i: nat, children: seq<string>, subs: seq<Handler>)
    requires t.Valid() && Full(t, s) && Along(t, s, path + [i]) && i < |t.fs| && t.fs[i].kind == AnyOf(children)
    requires subs != [] ==> LeadsPast(t.fs, t.Any(), Unbuilt(t.fs, s), t.fs[i].kind)
    requires forall k :: 0 <= k < |children| ==> Mentioned(t, s.locks, children[k], subs)
    ensures FullOfFactory(t, i, if subs == [] then None else Some(Combined(subs)))
  {
    if subs != [] && i in t.zone && LeadsPast(t.fs, t.Target(), t.Avoid(), t.fs[i].kind) {
      LeadsOn(t, s, path, i);
      hide ReachIn, LeadsPast, ReachesPast, Full, Along, Unblocked, Mentions;
      LeadsToChild(t.fs, t.Target(), t.Avoid() + s.locks, children);
      var k :| 0 <= k < |children| && ReachesPast(t.fs, t.Target(), t.Avoid() + s.locks, children[k]);
      assert Mentioned(t, s.locks, children[k], subs);
      assert InZone(t.fs, t.handlers, t.zone, Children(t.fs[i].kind)[k]);
      var m :| 0 <= m < |subs| && Mentions(subs[m], t.leaf);
      MentionsByPart(subs, m, t.leaf);
    }
  }

  lemma MentionsByPart(subs: seq<Handler>, m: nat, leaf: string)
    requires m < |subs| && Mentions(subs[m], leaf)
    ensures Mentions(Combined(subs), leaf)
  {}

  lemma LeadsToChild(fs: seq<Factory>, g: Goal, avoid: set<nat>, children: seq<string>)
    requires LeadsPast(fs, g, avoid, AnyOf(children))
    ensures exists k :: 0 <= k < |children| && ReachesPast(fs, g, avoid, children[k])
  {
    var n: nat :| LeadsIn(fs, g, avoid, AnyOf(children), n);
    var k :| 0 <= k < |children| && ReachIn(fs, g, avoid, children[k], n);
    assert ReachesPast(fs, g, avoid, children[k]);
  }

  lemma WrappedIsFull(t: Setting, i: nat, h: Option<Handler>)
    requires t.Valid() && i < |t.fs| && t.fs[i].kind.Only? && FullOf(t, t.fs[i].kind.child, h)
    ensures FullOfFactory(t, i, if h.None? then None else Some(Wrapped(h.value)))
  {
    hide Unblocked, ReachIn;
    if h.Some? && i in t.zone && LeadsPast(t.fs, t.Target(), t.Avoid(), t.fs[i].kind) {
      var child := t.fs[i].kind.child;
      var n: nat :| LeadsIn(t.fs, t.Target(), t.Avoid(), t.fs[i].kind, n);
      assert ReachIn(t.fs, t.Target(), t.Avoid(), child, n);
      assert Children(t.fs[i].kind)[0] == child;
      assert InZone(t.fs, t.handlers, t.zone, Children(t.fs[i].kind)[0]);
    }
  }

  lemma MadeIsFull(t: Setting, i: nat, h: Option<Handler>)
    requires i < |t.fs| && t.fs[i].kind.Maker?
    ensures FullOfFactory(t, i, h)
  {}

  /** If the references from the name lead on past the locks, one of the handlers has the target. */
  ghost predicate Mentioned(t: Setting, locks: set<nat>, name: string, subs: seq<Handler>) {
    InZone(t.fs, t.handlers, t.zone, name) && ReachesPast(t.fs, t.Target(), t.Avoid() + locks, name) ==>
      exists m :: 0 <= m < |subs| && Mentions(subs[m], t.leaf)
  }

  lemma {:induction false} AllAreFull(t: Setting, s: State, path: seq<nat>, names: seq<string>)
    requires t.Valid() && Full(t, s) && Along(t, s, path)
    requires forall k :: 0 <= k < |names| ==> MayCall(t.fs, path, names[k])
    ensures Full(t, ResolveAll(t.fs, s, names).0)
    ensures forall k :: 0 <= k < |names| ==> Mentioned(t, s.locks, names[k], ResolveAll(t.fs, s, names).1)
    decreases |Unlocked(t.fs, s.locks)|, 3, |names|
  {
    hide *;
    AllStep(t.fs, s, names);
    if names != [] {
      ResolveIsFull(t, s, path, names[0]);
      var (s1, h) := Resolve(t.fs, s, names[0]);
      AlongStays(t, s, s1, path);
      AllAreFull(t, s1, path, names[1..]);
      var subs := ResolveAll(t.fs, s1, names[1..]).1;
      FirstIsMentioned(t, s, names[0]);
      forall k | 0 <= k < |names|
        ensures Mentioned(t, s.locks, names[k], (if h.Some? then [h.value] else []) + subs)
      {
        if k == 0 {
          MentionedBefore(t, s.locks, names[0], if h.Some? then [h.value] else [], subs);
        } else {
          assert names[k] == names[1..][k - 1];
          MentionedBehind(t, s.locks, names[k], if h.Some? then [h.value] else [], subs);
        }
      }
    }
  }

  lemma AlongStays(t: Setting, s: State, s': State, path: seq<nat>)
    requires Along(t, s, path) && s'.locks == s.locks
    ensures Along(t, s', path)
  {
    hide IsPath;
  }

  lemma MentionedBefore(t: Setting, locks: set<nat>, name: string, before: seq<Handler>, subs: seq<Handler>)
    requires Mentioned(t, locks, name, before)
    ensures Mentioned(t, locks, name, before + subs)
  {
    hide ReachesPast, Mentions, InZone;
    if m :| 0 <= m < |before| && Mentions(before[m], t.leaf) {
      assert (before + subs)[m] == before[m];
    }
  }

  lemma MentionedBehind(t: Setting, locks: set<nat>, name: string, before: seq<Handler>, subs: seq<Handler>)
    requires Mentioned(t, locks, name, subs)
    ensures Mentioned(t, locks, name, before + subs)
  {
    hide ReachesPast, Mentions, InZone;
    if m :| 0 <= m < |subs| && Mentions(subs[m], t.leaf) {
      assert (before + subs)[|before| + m] == subs[m];
    }
  }

  lemma FirstIsMentioned(t: Setting, s: State, name: string)
    requires t.Valid() && Full(t, s) && FullOf(t, name, Resolve(t.fs, s, name).1)
    ensures var h := Resolve(t.fs, s, name).1;
      Mentioned(t, s.locks, name, if h.Some? then [h.value] else [])
  {
    hide Resolve, ReachIn, Mentions, Founded, Unblocked, IsClosed, InZone;
    if ReachesPast(t.fs, t.Target(), t.Avoid() + s.locks, name) {
      var n: nat :| ReachIn(t.fs, t.Target(), t.Avoid() + s.locks, name, n);
      FewerToAvoid(t.fs, t.Target(), t.Any(), t.Avoid() + s.locks, s.locks, name, n);
      ReachedResolves(t.fs, t.Any(), s, name, n);
      FewerToAvoid(t.fs, t.Target(), t.Target(), t.Avoid() + s.locks, t.Avoid(), name, n);
      var h := Resolve(t.fs, s, name).1;
      assert [h.value][0] == h.value;
    }
  }

  // ----- Results -----

  /** References do not lead past the name of a registered handler. */
  lemma RegisteredIsAsked(t: Setting, name: string)
    requires name in t.handlers && name != t.leaf
    ensures !ReachesPast(t.fs, t.Target(), t.Avoid(), name)
  {
    forall n: nat ensures !ReachIn(t.fs, t.Target(), t.Avoid(), name, n) {
      assert First(t.fs, name) < |t.fs| ==> First(t.fs, name) in t.Avoid();
    }
  }

  lemma InitialIsFull(t: Setting)
    requires t.Valid()
    ensures Full(t, Initial(t.handlers)) && Along(t, Initial(t.handlers), [])
  {
    var s := Initial(t.handlers);
    RegisteredReach(t.fs, t.Any(), Unbuilt(t.fs, s));
    assert Elements([]) == {};
    hide Unblocked, IsClosed;
    forall name | name in s.caches ensures FullOf(t, name, Some(s.caches[name])) {
      if name != t.leaf {
        RegisteredIsAsked(t, name);
      }
    }
  }

  lemma FoundMeansReached(t: Setting, name: string, h: Option<Handler>)
    requires Mentioned(t, {}, name, if h.Some? then [h.value] else []) && InZone(t.fs, t.handlers, t.zone, name)
    requires ReachesPast(t.fs, t.Target(), t.Avoid(), name)
    ensures h.Some? && Mentions(h.value, t.leaf)
  {
    hide ReachesPast, Mentions, InZone;
    assert t.Avoid() + {} == t.Avoid();
  }

  /** Whatever was resolved before, a name in a zone where no factory is blocked from a registered handler is
      resolved to a handler that contains it if and only if the references from the name lead there. */
  lemma UnblockedIsComplete(fs: seq<Factory>, handlers: set<string>, zone: set<nat>, before: seq<string>, name: string, leaf: string)
    requires leaf in handlers && IsClosed(fs, handlers, zone) && InZone(fs, handlers, zone, name)
    requires Unblocked(fs, handlers, leaf, zone)
    ensures var h := Resolve(fs, ResolveAll(fs, Initial(handlers), before).0, name).1;
      h.Some? && Mentions(h.value, leaf) <==> ReachesPast(fs, Goal({leaf}, false), Shadowed(fs, handlers), name)
  {
    var t := Setting(fs, handlers, leaf, zone);
    assert t.Valid();
    hide Resolve, ResolveAll, ReachesPast, Mentions, Full, Along, Unblocked, IsClosed, InZone, Founded, FullOf, Mentioned;
    InitialIsFull(t);
    TopMayCall(fs);
    AllAreFull(t, Initial(handlers), [], before);
    var s := ResolveAll(fs, Initial(handlers), before).0;
    AlongStays(t, Initial(handlers), s, []);
    ResolveIsFull(t, s, [], name);
    FirstIsMentioned(t, s, name);
    if ReachesPast(fs, Goal({leaf}, false), Shadowed(fs, handlers), name) {
      FoundMeansReached(t, name, Resolve(fs, s, name).1);
    }
    ResolvedHandlersAreReferredTo(fs, handlers, before, name, leaf);
  }

  lemma TopMayCall(fs: seq<Factory>)
    ensures forall name :: MayCall(fs, [], name)
  {}

  /** Within the zone references lead down a rank, so they make no cycle. */
  ghost predicate Descends(fs: seq<Factory>, handlers: set<string>, zone: set<nat>, rank: nat -> nat) {
    forall i, j: nat :: i in zone && Refers(fs, i, j) && j < |fs| && j !in Shadowed(fs, handlers) ==> rank(j) < rank(i)
  }

  /** No way down from below a rank comes by factories that are not below it. */
  lemma {:induction false} WaysLeadDown(fs: seq<Factory>, handlers: set<string>, leaf: string, zone: set<nat>, rank: nat -> nat,
                                        path: set<nat>, top: nat, name: string, n: nat)
    requires leaf in handlers && IsClosed(fs, handlers, zone) && Descends(fs, handlers, zone, rank)
    requires forall i :: i in path && i in zone ==> rank(i) >= top
    requires First(fs, name) < |fs| && First(fs, name) !in Shadowed(fs, handlers) ==> First(fs, name) in zone && rank(First(fs, name)) < top
    requires ReachIn(fs, Goal({leaf}, false), Shadowed(fs, handlers), name, n)
    ensures ReachIn(fs, Goal({leaf}, false), Shadowed(fs, handlers) + path, name, n)
    decreases n, 0
  {
    hide IsClosed, Descends, LeadsIn, Refers;
    if name != leaf {
      ReachStep(fs, Goal({leaf}, false), Shadowed(fs, handlers), name, n);
      LeadsDown(fs, handlers, leaf, zone, rank, path, top, First(fs, name), n - 1);
    }
  }

  lemma {:induction false} LeadsDown(fs: seq<Factory>, handlers: set<string>, leaf: string, zone: set<nat>, rank: nat -> nat,
                                     path: set<nat>, top: nat, i: nat, n: nat)
    requires leaf in handlers && IsClosed(fs, handlers, zone) && Descends(fs, handlers, zone, rank)
    requires forall i :: i in path && i in zone ==> rank(i) >= top
    requires i < |fs| && i in zone && rank(i) <= top
    requires LeadsIn(fs, Goal({leaf}, false), Shadowed(fs, handlers), fs[i].kind, n)
    ensures LeadsIn(fs, Goal({leaf}, false), Shadowed(fs, handlers) + path, fs[i].kind, n)
    decreases n, 1
  {
    hide ReachIn;
    match fs[i].kind
    case AnyOf(children) =>
      var k :| 0 <= k < |children| && ReachIn(fs, Goal({leaf}, false), Shadowed(fs, handlers), children[k], n);
      ChildIsBelow(fs, handlers, zone, rank, i, k);
      WaysLeadDown(fs, handlers, leaf, zone, rank, path, top, children[k], n);
    case Only(child) =>
      ChildIsBelow(fs, handlers, zone, rank, i, 0);
      WaysLeadDown(fs, handlers, leaf, zone, rank, path, top, child, n);
    case Maker(_) =>
  }

  lemma ChildIsBelow(fs: seq<Factory>, handlers: set<string>, zone: set<nat>, rank: nat -> nat, i: nat, k: nat)
    requires IsClosed(fs, handlers, zone) && Descends(fs, handlers, zone, rank)
    requires i < |fs| && i in zone && k < |Children(fs[i].kind)|
    ensures var j := First(fs, Children(fs[i].kind)[k]);
      j < |fs| && j !in Shadowed(fs, handlers) ==> j in zone && rank(j) < rank(i)
  {
    assert Refers(fs, i, First(fs, Children(fs[i].kind)[k]));
    assert InZone(fs, handlers, zone, Children(fs[i].kind)[k]);
  }

  /** Along a path the zone is not left, and the rank falls. */
  lemma {:induction false} RankFalls(fs: seq<Factory>, handlers: set<string>, zone: set<nat>, rank: nat -> nat, path: seq<nat>, j: nat, k: nat)
    requires IsClosed(fs, handlers, zone) && Descends(fs, handlers, zone, rank)
    requires IsPath(fs, Shadowed(fs, handlers), path) && j < k < |path| && path[j] in zone
    ensures path[k] in zone && rank(path[k]) < rank(path[j])
    decreases k
  {
    if j + 1 < k {
      RankFalls(fs, handlers, zone, rank, path, j, k - 1);
    }
    assert Refers(fs, path[k - 1], path[k]) && IsNode(fs, Shadowed(fs, handlers), path[k]);
    var i := path[k - 1];
    var c :| 0 <= c < |Children(fs[i].kind)| && First(fs, Children(fs[i].kind)[c]) == path[k];
    ChildIsBelow(fs, handlers, zone, rank, i, c);
  }

  lemma NoCyclesNoBlocks(fs: seq<Factory>, handlers: set<string>, leaf: string, zone: set<nat>, rank: nat -> nat)
    requires leaf in handlers && IsClosed(fs, handlers, zone) && Descends(fs, handlers, zone, rank)
    ensures Unblocked(fs, handlers, leaf, zone)
  {
    forall path, y | y in zone ensures !Blocks(fs, handlers, leaf, path, y) {
      if Blocks(fs, handlers, leaf, path, y) {
        var whole := path + [y];
        forall i | i in Elements(path) && i in zone ensures rank(i) >= rank(y) {
          var j :| 0 <= j < |path| && path[j] == i;
          assert whole[j] == i && whole[|path|] == y;
          RankFalls(fs, handlers, zone, rank, whole, j, |path|);
        }
        hide IsPath, IsClosed, Descends, LeadsIn, Refers;
        var n: nat :| LeadsIn(fs, Goal({leaf}, false), Shadowed(fs, handlers), fs[y].kind, n);
        LeadsDown(fs, handlers, leaf, zone, rank, Elements(path), rank(y), y, n);
        assert false;
      }
    }
  }

  /** In particular, where no cycle can be reached every handler is complete. */
  lemma WithoutCyclesAllIsComplete(fs: seq<Factory>, handlers: set<string>, zone: set<nat>, rank: nat -> nat,
                                   before: seq<string>, name: string, leaf: string)
    requires leaf in handlers && IsClosed(fs, handlers, zone) && InZone(fs, handlers, zone, name)
    requires Descends(fs, handlers, zone, rank)
    ensures var h := Resolve(fs, ResolveAll(fs, Initial(handlers), before).0, name).1;
      h.Some? && Mentions(h.value, leaf) <==> ReachesPast(fs, Goal({leaf}, false), Shadowed(fs, handlers), name)
  {
    hide *;
    NoCyclesNoBlocks(fs, handlers, leaf, zone, rank);
    UnblockedIsComplete(fs, handlers, zone, before, name, leaf);
  }
}
