/** The builder of the source, with its caches, factories and locks. */
module HandlerBuilder {
  import opened Options
  import opened HandlerResolution
  import opened HandlerReach

  class HandlerFactory {
    const name: string
    const kind: Kind
    var instance: Option<Handler>
    var locked: bool

    constructor (name: string, kind: Kind)
      ensures this.name == name && this.kind == kind && instance == None && !locked
    {
      this.name, this.kind, instance, locked := name, kind, None, false;
    }

    method TryLock() returns (ok: bool)
      modifies this`locked
      ensures ok == !old(locked) && locked
    {
      ok := !locked;
      locked := true;
    }

    method Unlock()
      modifies this`locked
      ensures !locked
    {
      locked := false;
    }
  }

  class Builder {
    var handlersCaches: map<string, Handler>
    const factories: seq<HandlerFactory>   // all added before the first handler is resolved

    ghost predicate Valid() {
      forall i, j :: 0 <= i < j < |factories| ==> factories[i] != factories[j]
    }

    /** The factories as they were configured. */
    ghost function Config(): (fs: seq<Factory>)
      ensures |fs| == |factories|
    {
      seq(|factories|, i requires 0 <= i < |factories| => Factory(factories[i].name, factories[i].kind))
    }

    ghost function Instances(): map<nat, Handler>
      reads factories
    {
      map i: nat | i in Below(|factories|) && factories[i].instance.Some? :: factories[i].instance.value
    }

    ghost function Locks(): set<nat>
      reads factories
    {
      set i: nat | i in Below(|factories|) && factories[i].locked
    }

    ghost function Current(): State
      reads this, factories
    {
      State(handlersCaches, Instances(), Locks())
    }

    constructor (factories: seq<HandlerFactory>)
      requires forall i, j :: 0 <= i < j < |factories| ==> factories[i] != factories[j]
      ensures Valid() && this.factories == factories && handlersCaches == map[]
    {
      this.factories, handlersCaches := factories, map[];
    }

    /** Registers a handler under its name, unless the name is taken. */
    method AddHandler(name: string) returns (ok: bool)
      requires Valid()
      modifies this`handlersCaches
      ensures Valid() && ok == (name !in old(handlersCaches))
      ensures handlersCaches == if ok then old(handlersCaches)[name := Registered(name)] else old(handlersCaches)
    {
      if name in handlersCaches {
        return false;
      }
      handlersCaches := handlersCaches[name := Registered(name)];
      return true;
    }

    lemma ConfigAt(i: nat)
      requires i < |factories|
      ensures Config()[i] == Factory(factories[i].name, factories[i].kind)
    {}

    method ResolveHandler(hname: string) returns (r: Option<Handler>)
      requires Valid()
      modifies this`handlersCaches, factories
      ensures Valid()
      ensures (Current(), r) == Resolve(Config(), old(Current()), hname)
      decreases |Unlocked(Config(), Locks())|, 2
    {
      hide HandlerResolution.Resolve, HandlerResolution.GetHandler, First, Config, Instances, Locks, Unlocked;
      ghost var fs, s := Config(), Current();
      ResolveStep(fs, s, hname);
      if hname in handlersCaches {
        return Some(handlersCaches[hname]);
      }
      var i := 0;
      while i < |factories|
        invariant 0 <= i <= |factories| && Current() == s
        invariant forall j :: 0 <= j < i ==> fs[j].name != hname
      {
        if factories[i].name == hname {
          ConfigAt(i);
          FirstIs(fs, hname, i);
          r := GetHandler(i);
          if r.None? {
            return;
          }
          handlersCaches := handlersCaches[hname := r.value];
          return;
        }
        ConfigAt(i);
        i := i + 1;
      }
      NoneIs(fs, hname);
      return None;
    }

    method TryLock(i: nat) returns (ok: bool)
      requires Valid() && i < |factories|
      modifies factories[i]
      ensures ok == (i !in old(Current().locks))
      ensures Current() == old(Current()).(locks := old(Current().locks) + {i})
    {
      ghost var before := Locks();
      ok := factories[i].TryLock();
      assert Locks() == before + {i};
      assert Instances() == old(Instances());
    }

    method Unlock(i: nat)
      requires Valid() && i < |factories|
      modifies factories[i]
      ensures Current() == old(Current()).(locks := old(Current().locks) - {i})
    {
      ghost var before := Locks();
      factories[i].Unlock();
      assert Locks() == before - {i};
      assert Instances() == old(Instances());
    }

    method InstanceOf(i: nat) returns (r: Option<Handler>)
      requires i < |factories|
      ensures r == if i in Current().instances then Some(Current().instances[i]) else None
    {
      return factories[i].instance;
    }

    method SetInstance(i: nat, h: Handler)
      requires Valid() && i < |factories|
      modifies factories[i]
      ensures Current() == old(Current()).(instances := old(Current().instances)[i := h])
    {
      ghost var before := Instances();
      factories[i].instance := Some(h);
      assert Instances() == before[i := h];
      assert Locks() == old(Locks());
    }

    method GetHandler(i: nat) returns (r: Option<Handler>)
      requires Valid() && i < |factories|
      modifies this`handlersCaches, factories
      ensures Valid()
      ensures (Current(), r) == HandlerResolution.GetHandler(Config(), old(Current()), i)
      decreases |Unlocked(Config(), Locks())|, 1
    {
      hide HandlerResolution.GetHandler, HandlerResolution.Build, Config, Instances, Locks, Unlocked, Valid;
      ghost var fs, s := Config(), Current();
      GetStep(fs, s, i);
      var ok := TryLock(i);
      if !ok {
        assert s.locks + {i} == s.locks;
        return None;
      }
      r := InstanceOf(i);
      if r.Some? {
        Unlock(i);
        assert s.locks + {i} - {i} == s.locks;
        return;
      }
      r := Build(i);
      Unlock(i);
      if r.Some? {
        SetInstance(i, r.value);
      }
    }

    method Build(i: nat) returns (r: Option<Handler>)
      requires Valid() && i < |factories|
      modifies this`handlersCaches, factories
      ensures Valid()
      ensures (Current(), r) == HandlerResolution.Build(Config(), old(Current()), Config()[i])
      decreases |Unlocked(Config(), Locks())|, 4
    {
      match factories[i].kind {
        case AnyOf(children) =>
          var subs := ResolveChildren(children);
          return if subs == [] then None else Some(Combined(subs));
        case Only(child) =>
          var h := ResolveHandler(child);
          return if h.None? then None else Some(Wrapped(h.value));
        case Maker(works) =>
          return if works then Some(Made(factories[i].name)) else None;
      }
    }

    method ResolveChildren(names: seq<string>) returns (subs: seq<Handler>)
      requires Valid()
      modifies this`handlersCaches, factories
      ensures Valid()
      ensures (Current(), subs) == ResolveAll(Config(), old(Current()), names)
      decreases |Unlocked(Config(), Locks())|, 3
    {
      hide HandlerResolution.Resolve, Config, Instances, Locks, Unlocked, Valid;
      ghost var fs, s := Config(), Current();
      subs := [];
      assert names[0..] == names;
      assert forall more: seq<Handler> :: [] + more == more;
      var i := 0;
      while i < |names|
        invariant 0 <= i <= |names| && Locks() == s.locks
        invariant ResolveAll(fs, s, names) ==
          (ResolveAll(fs, Current(), names[i..]).0, subs + ResolveAll(fs, Current(), names[i..]).1)
      {
        ghost var before := Current();
        var sub := ResolveHandler(names[i]);
        assert names[i..][1..] == names[i + 1..];
        Regroup(subs, sub, ResolveAll(fs, Current(), names[i + 1..]).1);
        if sub.Some? {
          subs := subs + [sub.value];
        }
        i := i + 1;
      }
      assert subs + [] == subs;
    }
  }

  lemma Regroup(subs: seq<Handler>, h: Option<Handler>, more: seq<Handler>)
    ensures subs + ((if h.Some? then [h.value] else []) + more) == (if h.Some? then subs + [h.value] else subs) + more
  {}

  lemma FirstIs(fs: seq<Factory>, name: string, i: nat)
    requires i < |fs| && fs[i].name == name && forall j :: 0 <= j < i ==> fs[j].name != name
    ensures First(fs, name) == i
  {}

  lemma NoneIs(fs: seq<Factory>, name: string)
    requires forall j :: 0 <= j < |fs| ==> fs[j].name != name
    ensures First(fs, name) == |fs|
  {}
}
