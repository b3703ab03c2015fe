/** What the resolved handlers are made of. */
module HandlerShape {
  import opened Options
  import opened HandlerResolution
  import opened HandlerReach

  /** The handlers of some of these names, in their order. */
  predicate Picks(caches: map<string, Handler>, subs: seq<Handler>, names: seq<string>) {
    if names == [] then subs == []
    else
      || Picks(caches, subs, names[1..])
      || (subs != [] && names[0] in caches && caches[names[0]] == subs[0] && Picks(caches, subs[1..], names[1..]))
  }

  /** The handler is of the factory's kind: it combines handlers of its children, of one at least and in their order,
      wraps the handler of its child, or is the factory's own. */
  predicate Shaped(caches: map<string, Handler>, h: Handler, f: Factory) {
    match f.kind
    case AnyOf(children) => h.Combined? && h.subs != [] && Picks(caches, h.subs, children)
    case Only(child) => h.Wrapped? && child in caches && caches[child] == h.sub
    case Maker(works) => works && h == Made(f.name)
  }

  /** A registered name has its handler; every other name that has one has that of its first factory. */
  predicate OfItsFactory(fs: seq<Factory>, handlers: set<string>, s: State, name: string)
    requires name in s.caches
  {
    if name in handlers then s.caches[name] == Registered(name)
    else First(fs, name) in s.instances && s.instances[First(fs, name)] == s.caches[name]
  }

  ghost predicate Consistent(fs: seq<Factory>, handlers: set<string>, s: State) {
    && (forall name :: name in handlers ==> name in s.caches)
    && (forall name :: name in s.caches ==> OfItsFactory(fs, handlers, s, name))
    && (forall i :: i in s.instances ==> i < |fs| && Shaped(s.caches, s.instances[i], fs[i]))
    && s.locks !! s.instances.Keys
  }

  lemma {:induction false} PicksMore(caches: map<string, Handler>, caches': map<string, Handler>, subs: seq<Handler>, names: seq<string>)
    requires Picks(caches, subs, names)
    requires forall name :: name in caches ==> name in caches' && caches'[name] == caches[name]
    ensures Picks(caches', subs, names)
    decreases names
  {
    if names != [] {
      if Picks(caches, subs, names[1..]) {
        PicksMore(caches, caches', subs, names[1..]);
      } else {
        PicksMore(caches, caches', subs[1..], names[1..]);
      }
    }
  }

  lemma ShapedMore(caches: map<string, Handler>, caches': map<string, Handler>, h: Handler, f: Factory)
    requires Shaped(caches, h, f)
    requires forall name :: name in caches ==> name in caches' && caches'[name] == caches[name]
    ensures Shaped(caches', h, f)
  {
    if f.kind.AnyOf? {
      PicksMore(caches, caches', h.subs, f.kind.children);
    }
    hide Picks;
  }

  lemma LockingKeepsConsistent(fs: seq<Factory>, handlers: set<string>, s: State, locks: set<nat>)
    requires Consistent(fs, handlers, s) && locks !! s.instances.Keys
    ensures Consistent(fs, handlers, s.(locks := locks))
  {
    hide Shaped;
  }

  lemma NotBuilt(fs: seq<Factory>, handlers: set<string>, s: State, i: nat)
    requires Consistent(fs, handlers, s) && i !in s.instances
    ensures s.locks + {i} !! s.instances.Keys
  {
    hide Shaped, OfItsFactory;
  }

  lemma BuiltIsUnlocked(fs: seq<Factory>, handlers: set<string>, s: State, i: nat)
    requires Consistent(fs, handlers, s) && i in s.locks
    ensures i !in s.instances && s.locks - {i} !! s.instances.Keys
  {
    hide Shaped, OfItsFactory;
  }

  lemma CachingKeepsConsistent(fs: seq<Factory>, handlers: set<string>, s: State, name: string, h: Handler)
    requires Consistent(fs, handlers, s) && name !in s.caches && First(fs, name) in s.instances
    requires s.instances[First(fs, name)] == h
    ensures Consistent(fs, handlers, s.(caches := s.caches[name := h]))
  {
    hide Shaped;
    forall i | i in s.instances ensures Shaped(s.caches[name := h], s.instances[i], fs[i]) {
      ShapedMore(s.caches, s.caches[name := h], s.instances[i], fs[i]);
    }
  }

  lemma BuildingKeepsConsistent(fs: seq<Factory>, handlers: set<string>, s: State, i: nat, h: Handler)
    requires Consistent(fs, handlers, s) && i < |fs| && i !in s.instances && i !in s.locks && Shaped(s.caches, h, fs[i])
    ensures Consistent(fs, handlers, s.(instances := s.instances[i := h]))
  {
    hide Shaped;
  }

  lemma {:induction false} ResolveIsConsistent(fs: seq<Factory>, handlers: set<string>, s: State, name: string)
    requires Consistent(fs, handlers, s)
    ensures var (s', h) := Resolve(fs, s, name);
      Consistent(fs, handlers, s') && (h.Some? ==> name in s'.caches && s'.caches[name] == h.value)
    decreases |Unlocked(fs, s.locks)|, 2
  {
    hide GetHandler, Consistent;
    var i := First(fs, name);
    if name !in s.caches && i < |fs| {
      GetIsConsistent(fs, handlers, s, i);
      var (s', h) := GetHandler(fs, s, i);
      if h.Some? {
        if name in s'.caches {
          CachedThere(fs, handlers, s, s', name);
        } else {
          CachingKeepsConsistent(fs, handlers, s', name, h.value);
        }
      }
    }
  }

  /** A name that was cached in the meantime has the handler of its factory. */
  lemma CachedThere(fs: seq<Factory>, handlers: set<string>, s: State, s': State, name: string)
    requires Consistent(fs, handlers, s) && name !in s.caches && Consistent(fs, handlers, s') && name in s'.caches
    ensures First(fs, name) in s'.instances && s'.instances[First(fs, name)] == s'.caches[name]
    ensures s'.(caches := s'.caches[name := s'.caches[name]]) == s'
  {
    hide Shaped;
    assert OfItsFactory(fs, handlers, s', name);
  }

  lemma {:induction false} GetIsConsistent(fs: seq<Factory>, handlers: set<string>, s: State, i: nat)
    requires Consistent(fs, handlers, s) && i < |fs|
    ensures var (s', h) := GetHandler(fs, s, i);
      Consistent(fs, handlers, s') && (h.Some? ==> i in s'.instances && s'.instances[i] == h.value)
    decreases |Unlocked(fs, s.locks)|, 1
  {
    hide Build, Consistent, Shaped;
    if i !in s.locks && i !in s.instances {
      assert Unlocked(fs, s.locks + {i}) == Unlocked(fs, s.locks) - {i};
      NotBuilt(fs, handlers, s, i);
      LockingKeepsConsistent(fs, handlers, s, s.locks + {i});
      BuildIsConsistent(fs, handlers, s.(locks := s.locks + {i}), fs[i]);
      var (s', h) := Build(fs, s.(locks := s.locks + {i}), fs[i]);
      BuiltIsUnlocked(fs, handlers, s', i);
      LockingKeepsConsistent(fs, handlers, s', s'.locks - {i});
      if h.Some? {
        BuildingKeepsConsistent(fs, handlers, s'.(locks := s'.locks - {i}), i, h.value);
      }
    }
  }

  lemma {:induction false} BuildIsConsistent(fs: seq<Factory>, handlers: set<string>, s: State, f: Factory)
    requires Consistent(fs, handlers, s)
    ensures var (s', h) := Build(fs, s, f);
      Consistent(fs, handlers, s') && (h.Some? ==> Shaped(s'.caches, h.value, f))
    decreases |Unlocked(fs, s.locks)|, 4
  {
    hide Resolve, ResolveAll, Consistent, Picks;
    match f.kind
    case AnyOf(children) => AllAreConsistent(fs, handlers, s, children);
    case Only(child) => ResolveIsConsistent(fs, handlers, s, child);
    case Maker(_) =>
  }

  lemma {:induction false} AllAreConsistent(fs: seq<Factory>, handlers: set<string>, s: State, names: seq<string>)
    requires Consistent(fs, handlers, s)
    ensures var (s', subs) := ResolveAll(fs, s, names);
      Consistent(fs, handlers, s') && Picks(s'.caches, subs, names)
    decreases |Unlocked(fs, s.locks)|, 3, |names|
  {
    hide Resolve, Consistent;
    if names != [] {
      ResolveIsConsistent(fs, handlers, s, names[0]);
      var (s1, h) := Resolve(fs, s, names[0]);
      AllAreConsistent(fs, handlers, s1, names[1..]);
      AllGrow(fs, s1, names[1..]);
      var (s2, subs) := ResolveAll(fs, s1, names[1..]);
      if h.Some? {
        assert ([h.value] + subs)[1..] == subs;
      } else {
        assert [] + subs == subs;
      }
    }
  }

  // ----- Main results -----

  /** After any resolutions, in any order: every registered name has its handler, every other name that was resolved has
      that of its first factory, and every factory's handler is made as configured, from handlers that its
      children have. */
  lemma HandlersAreAsConfigured(fs: seq<Factory>, handlers: set<string>, before: seq<string>, name: string)
    ensures var s := ResolveAll(fs, Initial(handlers), before).0;
      var (s', h) := Resolve(fs, s, name);
      && Consistent(fs, handlers, s')
      && (name in handlers ==> h == Some(Registered(name)))
      && (name !in handlers && h.Some? ==>
            First(fs, name) < |fs| && Shaped(s'.caches, h.value, fs[First(fs, name)]))
  {
    AllAreConsistent(fs, handlers, Initial(handlers), before);
    AllGrow(fs, Initial(handlers), before);
    var s := ResolveAll(fs, Initial(handlers), before).0;
    ResolveIsConsistent(fs, handlers, s, name);
    hide ResolveAll, GetHandler, Shaped;
    var (s', h) := Resolve(fs, s, name);
    if h.Some? {
      assert OfItsFactory(fs, handlers, s', name);
    }
  }

  /** A handler that was resolved is resolved again, whatever is resolved in between. */
  lemma ResolvedForGood(fs: seq<Factory>, handlers: set<string>, s: State, name: string, between: seq<string>)
    requires Consistent(fs, handlers, s) && Resolve(fs, s, name).1.Some?
    ensures Resolve(fs, ResolveAll(fs, Resolve(fs, s, name).0, between).0, name).1 == Resolve(fs, s, name).1
  {
    ResolveIsConsistent(fs, handlers, s, name);
    AllGrow(fs, Resolve(fs, s, name).0, between);
    hide ResolveAll, GetHandler, Consistent;
  }
}
