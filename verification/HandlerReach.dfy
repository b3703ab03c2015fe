/** A name resolves exactly when its references lead to a handler. */
module HandlerReach {
  import opened Options
  import opened HandlerResolution

  /** What references are to lead to: one of these names, or a factory that makes its handler itself. */
  datatype Goal = Goal(names: set<string>, makers: bool)

  /** The references from `name` lead to the goal in at most `n` factories, none of them to be avoided. */
  predicate ReachIn(fs: seq<Factory>, g: Goal, avoid: set<nat>, name: string, n: nat)
    decreases n, 0
  {
    name in g.names ||
    (n > 0 && First(fs, name) < |fs| && First(fs, name) !in avoid && LeadsIn(fs, g, avoid, fs[First(fs, name)].kind, n - 1))
  }

  predicate LeadsIn(fs: seq<Factory>, g: Goal, avoid: set<nat>, kind: Kind, n: nat)
    decreases n, 1
  {
    match kind
    case AnyOf(children) => exists k :: 0 <= k < |children| && ReachIn(fs, g, avoid, children[k], n)
    case Only(child) => ReachIn(fs, g, avoid, child, n)
    case Maker(works) => g.makers && works
  }

  /** The references from `name`, cycles among them or not, lead to the goal, past the factories to avoid. */
  ghost predicate ReachesPast(fs: seq<Factory>, g: Goal, avoid: set<nat>, name: string) {
    exists n: nat :: ReachIn(fs, g, avoid, name, n)
  }

  ghost predicate LeadsPast(fs: seq<Factory>, g: Goal, avoid: set<nat>, kind: Kind) {
    exists n: nat :: LeadsIn(fs, g, avoid, kind, n)
  }

  ghost predicate Reaches(fs: seq<Factory>, g: Goal, name: string) {
    ReachesPast(fs, g, {}, name)
  }

  lemma ReachesByLead(fs: seq<Factory>, g: Goal, avoid: set<nat>, name: string)
    requires First(fs, name) < |fs| && First(fs, name) !in avoid && LeadsPast(fs, g, avoid, fs[First(fs, name)].kind)
    ensures ReachesPast(fs, g, avoid, name)
  {
    var n: nat :| LeadsIn(fs, g, avoid, fs[First(fs, name)].kind, n);
    assert ReachIn(fs, g, avoid, name, n + 1);
  }

  lemma LeadsByChild(fs: seq<Factory>, g: Goal, avoid: set<nat>, children: seq<string>, k: nat)
    requires k < |children| && ReachesPast(fs, g, avoid, children[k])
    ensures LeadsPast(fs, g, avoid, AnyOf(children))
  {
    var n: nat :| ReachIn(fs, g, avoid, children[k], n);
    assert LeadsIn(fs, g, avoid, AnyOf(children), n);
  }

  lemma LeadsByOnly(fs: seq<Factory>, g: Goal, avoid: set<nat>, child: string)
    requires ReachesPast(fs, g, avoid, child)
    ensures LeadsPast(fs, g, avoid, Only(child))
  {
    var n: nat :| ReachIn(fs, g, avoid, child, n);
    assert LeadsIn(fs, g, avoid, Only(child), n);
  }

  // ----- What resolves leads to the goal -----

  /** A property of handlers that comes from the parts. */
  ghost predicate FromParts(p: Handler -> bool, makers: bool) {
    && (forall subs {:trigger p(Combined(subs))} :: p(Combined(subs)) && subs != [] ==> exists k :: 0 <= k < |subs| && p(subs[k]))
    && (forall h {:trigger p(Wrapped(h))} :: p(Wrapped(h)) ==> p(h))
    && (forall name {:trigger p(Made(name))} :: p(Made(name)) ==> makers)
  }

  /** Every handler in the state that has the property belongs to a name that leads to the goal. */
  ghost predicate Explained(fs: seq<Factory>, g: Goal, avoid: set<nat>, p: Handler -> bool, s: State) {
    && (forall name :: name in s.caches && p(s.caches[name]) ==> ReachesPast(fs, g, avoid, name))
    && (forall i :: i in s.instances && p(s.instances[i]) ==> i < |fs| && LeadsPast(fs, g, avoid, fs[i].kind))
  }

  /** The factories to avoid cannot be entered: they are locked, or their names have a handler. */
  predicate Closed(fs: seq<Factory>, avoid: set<nat>, s: State) {
    forall i :: i in avoid ==> i < |fs| && (i in s.locks || fs[i].name in s.caches)
  }

  lemma ClosedStays(fs: seq<Factory>, avoid: set<nat>, s: State, s': State)
    requires Closed(fs, avoid, s) && Grows(s, s') && s.locks <= s'.locks
    ensures Closed(fs, avoid, s')
  {}

  lemma {:induction false} ResolveIsExplained(fs: seq<Factory>, g: Goal, avoid: set<nat>, p: Handler -> bool, s: State, name: string)
    requires FromParts(p, g.makers) && Explained(fs, g, avoid, p, s) && Closed(fs, avoid, s)
    ensures var (s', h) := Resolve(fs, s, name);
      Explained(fs, g, avoid, p, s') && (h.Some? && p(h.value) ==> ReachesPast(fs, g, avoid, name))
    decreases |Unlocked(fs, s.locks)|, 2
  {
    hide FromParts, GetHandler, ReachesPast, LeadsPast;
    var i := First(fs, name);
    if name !in s.caches && i < |fs| {
      GetIsExplained(fs, g, avoid, p, s, i);
      var (s', h) := GetHandler(fs, s, i);
      if h.Some? && p(h.value) {
        GetStep(fs, s, i);
        ReachesByLead(fs, g, avoid, name);
      }
    }
  }

  lemma {:induction false} GetIsExplained(fs: seq<Factory>, g: Goal, avoid: set<nat>, p: Handler -> bool, s: State, i: nat)
    requires FromParts(p, g.makers) && Explained(fs, g, avoid, p, s) && Closed(fs, avoid, s) && i < |fs|
    ensures var (s', h) := GetHandler(fs, s, i);
      Explained(fs, g, avoid, p, s') && (h.Some? && p(h.value) ==> LeadsPast(fs, g, avoid, fs[i].kind))
    decreases |Unlocked(fs, s.locks)|, 1
  {
    hide FromParts, Build, ReachesPast, LeadsPast;
    if i !in s.locks && i !in s.instances {
      assert Unlocked(fs, s.locks + {i}) == Unlocked(fs, s.locks) - {i};
      BuildIsExplained(fs, g, avoid, p, s.(locks := s.locks + {i}), fs[i]);
    }
  }

  lemma {:induction false} BuildIsExplained(fs: seq<Factory>, g: Goal, avoid: set<nat>, p: Handler -> bool, s: State, f: Factory)
    requires FromParts(p, g.makers) && Explained(fs, g, avoid, p, s) && Closed(fs, avoid, s)
    ensures var (s', h) := Build(fs, s, f);
      Explained(fs, g, avoid, p, s') && (h.Some? && p(h.value) ==> LeadsPast(fs, g, avoid, f.kind))
    decreases |Unlocked(fs, s.locks)|, 4
  {
    hide Explained, Resolve, ResolveAll, ReachesPast;
    match f.kind
    case AnyOf(children) =>
      AllAreExplained(fs, g, avoid, p, s, children);
      var (s', subs) := ResolveAll(fs, s, children);
      if subs != [] && p(Combined(subs)) {
        var k :| 0 <= k < |subs| && p(subs[k]);
        ChildIsExplained(fs, g, avoid, p, s, children, k);
      }
    case Only(child) =>
      ResolveIsExplained(fs, g, avoid, p, s, child);
      var (s', h) := Resolve(fs, s, child);
      if h.Some? && p(Wrapped(h.value)) {
        LeadsByOnly(fs, g, avoid, child);
      }
    case Maker(works) =>
      if works && p(Made(f.name)) {
        assert LeadsIn(fs, g, avoid, f.kind, 0);
      }
  }

  lemma {:induction false} AllAreExplained(fs: seq<Factory>, g: Goal, avoid: set<nat>, p: Handler -> bool, s: State, names: seq<string>)
    requires FromParts(p, g.makers) && Explained(fs, g, avoid, p, s) && Closed(fs, avoid, s)
    ensures Explained(fs, g, avoid, p, ResolveAll(fs, s, names).0)
    decreases |Unlocked(fs, s.locks)|, 3, |names|, 0
  {
    hide FromParts, Explained, Resolve;
    if names != [] {
      ResolveIsExplained(fs, g, avoid, p, s, names[0]);
      ResolveGrows(fs, s, names[0]);
      ClosedStays(fs, avoid, s, Resolve(fs, s, names[0]).0);
      AllAreExplained(fs, g, avoid, p, Resolve(fs, s, names[0]).0, names[1..]);
    }
  }

  lemma {:induction false} ChildIsExplained(fs: seq<Factory>, g: Goal, avoid: set<nat>, p: Handler -> bool, s: State, names: seq<string>, k: nat)
    requires FromParts(p, g.makers) && Explained(fs, g, avoid, p, s) && Closed(fs, avoid, s)
    requires k < |ResolveAll(fs, s, names).1| && p(ResolveAll(fs, s, names).1[k])
    ensures LeadsPast(fs, g, avoid, AnyOf(names))
    ensures exists m :: 0 <= m < |names| && ReachesPast(fs, g, avoid, names[m])
    decreases |Unlocked(fs, s.locks)|, 3, |names|, 1
  {
    hide FromParts, Explained, Resolve, ReachesPast, LeadsPast;
    assert names != [];
    ResolveIsExplained(fs, g, avoid, p, s, names[0]);
    var (s', h) := Resolve(fs, s, names[0]);
    var n := if h.Some? then 1 else 0;
    if k < n {
      LeadsByChild(fs, g, avoid, names, 0);
    } else {
      ResolveGrows(fs, s, names[0]);
      ClosedStays(fs, avoid, s, s');
      ChildIsExplained(fs, g, avoid, p, s', names[1..], k - n);
      var m :| 0 <= m < |names[1..]| && ReachesPast(fs, g, avoid, names[1..][m]);
      assert names[m + 1] == names[1..][m];
      LeadsByChild(fs, g, avoid, names, m + 1);
    }
  }

  // ----- What leads to the goal resolves -----

  /** A way to the goal goes past factory `i`, or leads through it: then `i` itself is closer to the goal. */
  lemma {:induction false} PastOrThrough(fs: seq<Factory>, g: Goal, avoid: set<nat>, i: nat, name: string, n: nat)
    requires i < |fs| && ReachIn(fs, g, avoid, name, n)
    ensures ReachIn(fs, g, avoid + {i}, name, n)
         || exists k: nat :: k < n && LeadsIn(fs, g, avoid, fs[i].kind, k)
    decreases n
  {
    var j := First(fs, name);
    if name !in g.names && j == i {
      assert LeadsIn(fs, g, avoid, fs[i].kind, n - 1);
    } else if name !in g.names {
      match fs[j].kind
      case AnyOf(children) =>
        var c :| 0 <= c < |children| && ReachIn(fs, g, avoid, children[c], n - 1);
        PastOrThrough(fs, g, avoid, i, children[c], n - 1);
      case Only(child) =>
        PastOrThrough(fs, g, avoid, i, child, n - 1);
      case Maker(_) =>
    }
  }

  /** A factory that leads to the goal does so without coming back to itself. */
  lemma {:induction false} LeadsPastItself(fs: seq<Factory>, g: Goal, avoid: set<nat>, i: nat, n: nat) returns (m: nat)
    requires i < |fs| && LeadsIn(fs, g, avoid, fs[i].kind, n)
    ensures LeadsIn(fs, g, avoid + {i}, fs[i].kind, m)
    decreases n
  {
    match fs[i].kind
    case AnyOf(children) =>
      var c :| 0 <= c < |children| && ReachIn(fs, g, avoid, children[c], n);
      PastOrThrough(fs, g, avoid, i, children[c], n);
      if ReachIn(fs, g, avoid + {i}, children[c], n) {
        m := n;
      } else {
        var k: nat :| k < n && LeadsIn(fs, g, avoid, fs[i].kind, k);
        m := LeadsPastItself(fs, g, avoid, i, k);
      }
    case Only(child) =>
      PastOrThrough(fs, g, avoid, i, child, n);
      if ReachIn(fs, g, avoid + {i}, child, n) {
        m := n;
      } else {
        var k: nat :| k < n && LeadsIn(fs, g, avoid, fs[i].kind, k);
        m := LeadsPastItself(fs, g, avoid, i, k);
      }
    case Maker(_) =>
      m := 0;
  }

  /** Handlers found stay: resolving only adds to the caches and the instances. */
  predicate Grows(s: State, s': State) {
    && (forall name :: name in s.caches ==> name in s'.caches && s'.caches[name] == s.caches[name])
    && (forall i :: i in s.instances ==> i in s'.instances && s'.instances[i] == s.instances[i])
  }

  lemma {:induction false} ResolveGrows(fs: seq<Factory>, s: State, name: string)
    ensures Grows(s, Resolve(fs, s, name).0)
    decreases |Unlocked(fs, s.locks)|, 2
  {
    hide GetHandler;
    var i := First(fs, name);
    if name !in s.caches && i < |fs| {
      GetGrows(fs, s, i);
    }
  }

  lemma {:induction false} GetGrows(fs: seq<Factory>, s: State, i: nat)
    requires i < |fs|
    ensures Grows(s, GetHandler(fs, s, i).0)
    decreases |Unlocked(fs, s.locks)|, 1
  {
    hide Build;
    if i !in s.locks && i !in s.instances {
      assert Unlocked(fs, s.locks + {i}) == Unlocked(fs, s.locks) - {i};
      BuildGrows(fs, s.(locks := s.locks + {i}), fs[i]);
    }
  }

  lemma {:induction false} BuildGrows(fs: seq<Factory>, s: State, f: Factory)
    ensures Grows(s, Build(fs, s, f).0)
    decreases |Unlocked(fs, s.locks)|, 4
  {
    hide Resolve, ResolveAll;
    match f.kind
    case AnyOf(children) => AllGrow(fs, s, children);
    case Only(child) => ResolveGrows(fs, s, child);
    case Maker(_) =>
  }

  lemma {:induction false} AllGrow(fs: seq<Factory>, s: State, names: seq<string>)
    ensures Grows(s, ResolveAll(fs, s, names).0)
    decreases |Unlocked(fs, s.locks)|, 3, |names|
  {
    hide Resolve;
    if names != [] {
      ResolveGrows(fs, s, names[0]);
      AllGrow(fs, Resolve(fs, s, names[0]).0, names[1..]);
    }
  }

  /** The goal of every resolution: a name with a handler, or a factory that makes its own. */
  predicate Has(g: Goal, s: State) {
    g.makers && forall name :: name in g.names ==> name in s.caches
  }

  /** A way to the goal that avoids the locked factories is found. */
  lemma {:induction false} ReachedResolves(fs: seq<Factory>, g: Goal, s: State, name: string, n: nat)
    requires Has(g, s) && ReachIn(fs, g, s.locks, name, n)
    ensures Resolve(fs, s, name).1.Some?
    decreases |Unlocked(fs, s.locks)|, 2
  {
    hide LeadsIn, GetHandler;
    if name !in s.caches {
      ReachStep(fs, g, s.locks, name, n);
      LedGets(fs, g, s, First(fs, name), n - 1);
    }
  }

  lemma ReachStep(fs: seq<Factory>, g: Goal, avoid: set<nat>, name: string, n: nat)
    requires ReachIn(fs, g, avoid, name, n) && name !in g.names
    ensures n > 0 && First(fs, name) < |fs| && First(fs, name) !in avoid
    ensures LeadsIn(fs, g, avoid, fs[First(fs, name)].kind, n - 1)
  {}

  lemma {:induction false} LedGets(fs: seq<Factory>, g: Goal, s: State, i: nat, n: nat)
    requires Has(g, s) && i < |fs| && i !in s.locks && LeadsIn(fs, g, s.locks, fs[i].kind, n)
    ensures GetHandler(fs, s, i).1.Some?
    decreases |Unlocked(fs, s.locks)|, 1
  {
    hide LeadsIn, Build;
    if i !in s.instances {
      var m := LeadsPastItself(fs, g, s.locks, i, n);
      assert Unlocked(fs, s.locks + {i}) == Unlocked(fs, s.locks) - {i};
      LedBuilds(fs, g, s.(locks := s.locks + {i}), fs[i], m);
    }
  }

  lemma {:induction false} LedBuilds(fs: seq<Factory>, g: Goal, s: State, f: Factory, n: nat)
    requires Has(g, s) && LeadsIn(fs, g, s.locks, f.kind, n)
    ensures Build(fs, s, f).1.Some?
    decreases |Unlocked(fs, s.locks)|, 4
  {
    hide Resolve, ResolveAll, ReachIn;
    match f.kind
    case AnyOf(children) =>
      LeadsMeans(fs, g, s.locks, f.kind, n);
      var k :| 0 <= k < |children| && ReachIn(fs, g, s.locks, children[k], n);
      OneOfAllResolves(fs, g, s, children, k, n);
    case Only(child) =>
      LeadsMeans(fs, g, s.locks, f.kind, n);
      ReachedResolves(fs, g, s, child, n);
    case Maker(_) =>
  }

  lemma LeadsMeans(fs: seq<Factory>, g: Goal, avoid: set<nat>, kind: Kind, n: nat)
    requires LeadsIn(fs, g, avoid, kind, n)
    ensures kind.AnyOf? ==> exists k :: 0 <= k < |kind.children| && ReachIn(fs, g, avoid, kind.children[k], n)
    ensures kind.Only? ==> ReachIn(fs, g, avoid, kind.child, n)
  {}

  lemma {:induction false} OneOfAllResolves(fs: seq<Factory>, g: Goal, s: State, names: seq<string>, k: nat, n: nat)
    requires Has(g, s) && k < |names| && ReachIn(fs, g, s.locks, names[k], n)
    ensures ResolveAll(fs, s, names).1 != []
    decreases |Unlocked(fs, s.locks)|, 3, |names|
  {
    hide Resolve, ReachIn;
    if k == 0 {
      ReachedResolves(fs, g, s, names[0], n);
    } else {
      ResolveGrows(fs, s, names[0]);
      OneOfAllResolves(fs, g, Resolve(fs, s, names[0]).0, names[1..], k - 1, n);
    }
  }

  // ----- Main results -----

  function Initial(handlers: set<string>): State {
    State(map name | name in handlers :: Registered(name), map[], {})
  }

  /** Whatever was resolved before, a name resolves if and only if its references lead to a registered
      handler or to a factory that makes one; cycles among the references do not matter, although what is
      found under locks is cached. Every lock is released. */
  lemma ResolvesExactlyWhatReaches(fs: seq<Factory>, handlers: set<string>, before: seq<string>, name: string)
    ensures var s := ResolveAll(fs, Initial(handlers), before).0;
      && (Resolve(fs, s, name).1.Some? <==> Reaches(fs, Goal(handlers, true), name))
      && Resolve(fs, s, name).0.locks == {}
  {
    var g, p := Goal(handlers, true), (h: Handler) => true;
    var s0 := Initial(handlers);
    var s := ResolveAll(fs, s0, before).0;
    RegisteredReach(fs, g, {});
    assert FromParts(p, true) by {
      forall subs: seq<Handler> | subs != [] ensures exists k :: 0 <= k < |subs| && p(subs[k]) {
        assert p(subs[0]);
      }
    }
    assert Explained(fs, g, {}, p, s0);
    hide Resolve, ResolveAll;
    AllAreExplained(fs, g, {}, p, s0, before);
    ResolveIsExplained(fs, g, {}, p, s, name);
    AllGrow(fs, s0, before);
    if Reaches(fs, g, name) {
      var n: nat :| ReachIn(fs, g, {}, name, n);
      ReachedResolves(fs, g, s, name, n);
    }
  }

  lemma RegisteredReach(fs: seq<Factory>, g: Goal, avoid: set<nat>)
    ensures forall name :: name in g.names ==> ReachesPast(fs, g, avoid, name)
  {
    forall name | name in g.names ensures ReachesPast(fs, g, avoid, name) {
      assert ReachIn(fs, g, avoid, name, 0);
    }
  }

  /** The registered handler `leaf` is part of `h`. */
  predicate Mentions(h: Handler, leaf: string) {
    match h
    case Registered(name) => name == leaf
    case Combined(subs) => exists k :: 0 <= k < |subs| && Mentions(subs[k], leaf)
    case Wrapped(sub) => Mentions(sub, leaf)
    case Made(_) => false
  }

  /** The factories whose names have registered handlers: they are never asked. */
  function Shadowed(fs: seq<Factory>, handlers: set<string>): (r: set<nat>)
    ensures forall i: nat :: i in r <==> i < |fs| && fs[i].name in handlers
  {
    set i: nat | i < |fs| && fs[i].name in handlers
  }

  /** A resolved handler writes only to handlers that its name's references lead to. */
  lemma ResolvedHandlersAreReferredTo(fs: seq<Factory>, handlers: set<string>, before: seq<string>, name: string, leaf: string)
    ensures var h := Resolve(fs, ResolveAll(fs, Initial(handlers), before).0, name).1;
      h.Some? && Mentions(h.value, leaf) ==> ReachesPast(fs, Goal({leaf}, false), Shadowed(fs, handlers), name)
  {
    var g, avoid, p := Goal({leaf}, false), Shadowed(fs, handlers), (h: Handler) => Mentions(h, leaf);
    var s0 := Initial(handlers);
    RegisteredReach(fs, g, avoid);
    assert FromParts(p, false);
    assert Explained(fs, g, avoid, p, s0) && Closed(fs, avoid, s0);
    hide Resolve, ResolveAll, ReachesPast;
    AllAreExplained(fs, g, avoid, p, s0, before);
    AllGrow(fs, s0, before);
    ClosedStays(fs, avoid, s0, ResolveAll(fs, s0, before).0);
    ResolveIsExplained(fs, g, avoid, p, ResolveAll(fs, s0, before).0, name);
  }

  // ----- Cycles -----

  lemma ResolveStep(fs: seq<Factory>, s: State, name: string)
    ensures Resolve(fs, s, name) ==
      if name in s.caches then (s, Some(s.caches[name]))
      else
        var i := First(fs, name);
        if i == |fs| then (s, None)
        else
          var (s', h) := GetHandler(fs, s, i);
          if h.None? then (s', None) else (s'.(caches := s'.caches[name := h.value]), h)
  {
    hide GetHandler;
  }

  /** Taking a free lock leaves fewer to take. */
  lemma GetStep(fs: seq<Factory>, s: State, i: nat)
    requires i < |fs|
    ensures i !in s.locks ==> |Unlocked(fs, s.locks + {i})| < |Unlocked(fs, s.locks)|
    ensures GetHandler(fs, s, i) ==
      if i in s.locks then (s, None)
      else if i in s.instances then (s, Some(s.instances[i]))
      else
        var (s', h) := Build(fs, s.(locks := s.locks + {i}), fs[i]);
        var s'' := s'.(locks := s'.locks - {i});
        if h.None? then (s'', None) else (s''.(instances := s''.instances[i := h.value]), h)
  {
    assert Unlocked(fs, s.locks + {i}) == Unlocked(fs, s.locks) - {i};
    hide Build;
  }

  /** A child that is being built, and one that is cached. */
  lemma CutChildren(fs: seq<Factory>, s: State, x: string, l: string)
    requires x !in s.caches && First(fs, x) in s.locks && First(fs, x) < |fs| && l in s.caches
    ensures ResolveAll(fs, s, [x, l]) == (s, [s.caches[l]])
  {
    hide GetHandler, First, Resolve, ResolveAll;
    ResolveStep(fs, s, x);
    ResolveStep(fs, s, l);
    GetStep(fs, s, First(fs, x));
    AllStep(fs, s, [x, l]);
    AllStep(fs, s, [l]);
    AllStep(fs, s, []);
    assert [x, l][1..] == [l] && [l][1..] == [];
    assert [] + ([s.caches[l]] + []) == [s.caches[l]];
  }

  lemma AllStep(fs: seq<Factory>, s: State, names: seq<string>)
    ensures ResolveAll(fs, s, names) ==
      if names == [] then (s, [])
      else
        var (s1, h) := Resolve(fs, s, names[0]);
        var (s2, subs) := ResolveAll(fs, s1, names[1..]);
        (s2, (if h.Some? then [h.value] else []) + subs)
  {
    hide Resolve;
  }

  lemma BuildStep(fs: seq<Factory>, s: State, f: Factory)
    requires f.kind.AnyOf?
    ensures Build(fs, s, f) ==
      var (s', subs) := ResolveAll(fs, s, f.kind.children);
      (s', if subs == [] then None else Some(Combined(subs)))
  {
    hide ResolveAll;
  }

  /** What a name resolves to whose first child is being built: the second child only; and that is cached. */
  lemma CutResolve(fs: seq<Factory>, s: State, y: string, x: string, l: string)
    requires y !in s.caches && First(fs, y) < |fs| && First(fs, y) !in s.locks && First(fs, y) !in s.instances
    requires fs[First(fs, y)].kind == AnyOf([x, l])
    requires x !in s.caches && First(fs, x) in s.locks && First(fs, x) < |fs| && l in s.caches
    ensures var h := Combined([s.caches[l]]);
      Resolve(fs, s, y) == (s.(caches := s.caches[y := h], instances := s.instances[First(fs, y) := h]), Some(h))
  {
    hide Resolve, GetHandler, Build, ResolveAll, First, Unlocked;
    var i := First(fs, y);
    var s' := s.(locks := s.locks + {i});
    ResolveStep(fs, s, y);
    GetStep(fs, s, i);
    BuildStep(fs, s', fs[i]);
    CutChildren(fs, s', x, l);
    assert i !in s.locks ==> s'.locks - {i} == s.locks;
  }

  /** Two names that refer to each other, and to a handler each. */
  function Pair(a: string, b: string, c: string, d: string): seq<Factory> {
    [Factory(a, AnyOf([b, c])), Factory(b, AnyOf([a, d]))]
  }

  /** Where a cycle is entered decides where it is cut, and the cut handler is the one that is cached: `b`
      resolved first writes to `c` and `d`; resolved after `a` it writes to `d` only, though its references
      lead to `c`. */
  lemma CyclesAreCutWhereEntered(a: string, b: string, c: string, d: string)
    requires a != b && a != c && a != d && b != c && b != d && c != d
    ensures var (fs, s) := (Pair(a, b, c, d), Initial({c, d}));
      && Reaches(fs, Goal({c}, false), b)
      && Resolve(fs, s, b).1 == Some(Combined([Combined([Registered(c)]), Registered(d)]))
      && Resolve(fs, Resolve(fs, s, a).0, b).1 == Some(Combined([Registered(d)]))
  {
    var fs, s := Pair(a, b, c, d), Initial({c, d});
    assert First(fs, a) == 0;
    assert fs[1..][0].name == b && First(fs[1..], b) == 0 && First(fs, b) == 1;
    PairReaches(a, b, c, d);
    hide Resolve, GetHandler, Build, ResolveAll, First, Reaches, Unlocked;
    OtherFirst(fs, s, 1, b, a, d, c);
    OtherFirst(fs, s, 0, a, b, c, d);
    ResolveStep(fs, Resolve(fs, s, a).0, b);
  }

  lemma PairReaches(a: string, b: string, c: string, d: string)
    requires a != b && a != c && b != c
    ensures Reaches(Pair(a, b, c, d), Goal({c}, false), b)
  {
    var fs, g := Pair(a, b, c, d), Goal({c}, false);
    assert First(fs, a) == 0;
    assert fs[1..][0].name == b && First(fs[1..], b) == 0 && First(fs, b) == 1;
    assert ReachIn(fs, g, {}, [b, c][1], 0);
    assert LeadsIn(fs, g, {}, fs[0].kind, 0);
    assert ReachIn(fs, g, {}, [a, d][0], 1);
    assert LeadsIn(fs, g, {}, fs[1].kind, 1);
    assert ReachIn(fs, g, {}, b, 2);
  }

  /** Resolving `x`, whose children are `y` and `l`, where `y` refers back to `x` and to `m`. */
  lemma OtherFirst(fs: seq<Factory>, s: State, i: nat, x: string, y: string, l: string, m: string)
    requires i < |fs| && First(fs, x) == i && First(fs, y) < |fs| && First(fs, y) != i
    requires fs[i].kind == AnyOf([y, l]) && fs[First(fs, y)].kind == AnyOf([x, m])
    requires x !in s.caches && y !in s.caches && l in s.caches && m in s.caches && x != y && l != y
    requires s.locks == {} && s.instances == map[]
    ensures var h := Combined([s.caches[m]]);
      && Resolve(fs, s, x).1 == Some(Combined([h, s.caches[l]]))
      && y in Resolve(fs, s, x).0.caches && Resolve(fs, s, x).0.caches[y] == h
  {
    hide Resolve, GetHandler, Build, ResolveAll, First, Unlocked;
    var h := Combined([s.caches[m]]);
    var s' := s.(locks := s.locks + {i});
    ResolveStep(fs, s, x);
    GetStep(fs, s, i);
    BuildStep(fs, s', fs[i]);
    CutResolve(fs, s', y, x, m);
    AllStep(fs, s', [y, l]);
    var s1 := Resolve(fs, s', y).0;
    assert [y, l][1..] == [l] && [l][1..] == [];
    AllStep(fs, s1, [l]);
    ResolveStep(fs, s1, l);
    AllStep(fs, s1, []);
    assert [h] + ([s.caches[l]] + []) == [h, s.caches[l]];
  }
}
