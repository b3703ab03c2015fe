/** Log handlers resolved by name from factories that refer to each other
    (`ag/ag_log/agslog/slog_wrap_config.go`, `ag/ag_log/agslog/slog_handler.go`,
    `ag/ag_log/fanout/slog_fanout.go`, `ag/ag_log/failover/slog_failover.go`,
    `ag/ag_log/async/ag_async.go`). */
module HandlerResolution {
  import opened Options

  /** How a factory makes its handler: from those of its children that can be had (fanout, failover), from
      its one child (async), by itself, or not at all. */
  datatype Kind = AnyOf(children: seq<string>) | Only(child: string) | Maker(works: bool)

  datatype Factory = Factory(name: string, kind: Kind)

  datatype Handler = Registered(name: string) | Combined(subs: seq<Handler>) | Wrapped(sub: Handler) | Made(name: string)

  /** The handlers by name, those built by each factory, and the factories whose lock is held. */
  datatype State = State(caches: map<string, Handler>, instances: map<nat, Handler>, locks: set<nat>)

  /** The first factory of a name, or the number of factories. */
  function First(fs: seq<Factory>, name: string): (i: nat)
    ensures i <= |fs| && (i < |fs| ==> fs[i].name == name)
    ensures forall j :: 0 <= j < i ==> fs[j].name != name
  {
    if fs == [] then 0 else if fs[0].name == name then 0
    else
      var i := First(fs[1..], name);
      assert forall j :: 0 < j < i + 1 ==> fs[j] == fs[1..][j - 1];
      i + 1
  }

  function Below(n: nat): (r: set<nat>)
    ensures forall i: nat :: i in r <==> i < n
  {
    if n == 0 then {} else Below(n - 1) + {n - 1}
  }

  /** The factories whose lock is free: each nested call takes one. */
  function Unlocked(fs: seq<Factory>, locks: set<nat>): set<nat> {
    Below(|fs|) - locks
  }

  function Resolve(fs: seq<Factory>, s: State, name: string): (r: (State, Option<Handler>))
    ensures r.0.locks == s.locks
    decreases |Unlocked(fs, s.locks)|, 2
  {
    if name in s.caches then (s, Some(s.caches[name]))
    else
      var i := First(fs, name);
      if i == |fs| then (s, None)
      else
        var (s', h) := GetHandler(fs, s, i);
        if h.None? then (s', None) else (s'.(caches := s'.caches[name := h.value]), h)
  }

  /** A factory builds once. Its lock marks it while it does; a call that comes back to it fails. */
  function GetHandler(fs: seq<Factory>, s: State, i: nat): (r: (State, Option<Handler>))
    requires i < |fs|
    ensures r.0.locks == s.locks
    decreases |Unlocked(fs, s.locks)|, 1
  {
    if i in s.locks then (s, None)
    else if i in s.instances then (s, Some(s.instances[i]))
    else
      assert Unlocked(fs, s.locks + {i}) == Unlocked(fs, s.locks) - {i};
      var (s', h) := Build(fs, s.(locks := s.locks + {i}), fs[i]);
      assert s'.locks - {i} == s.locks;
      var s'' := s'.(locks := s'.locks - {i});
      if h.None? then (s'', None) else (s''.(instances := s''.instances[i := h.value]), h)
  }

  function Build(fs: seq<Factory>, s: State, f: Factory): (r: (State, Option<Handler>))
    ensures r.0.locks == s.locks
    decreases |Unlocked(fs, s.locks)|, 4
  {
    match f.kind
    case AnyOf(children) =>
      var (s', subs) := ResolveAll(fs, s, children);
      (s', if subs == [] then None else Some(Combined(subs)))
    case Only(child) =>
      var (s', h) := Resolve(fs, s, child);
      (s', if h.None? then None else Some(Wrapped(h.value)))
    case Maker(works) => (s, if works then Some(Made(f.name)) else None)
  }

  /** The children that can be had, one after the other. */
  function ResolveAll(fs: seq<Factory>, s: State, names: seq<string>): (r: (State, seq<Handler>))
    ensures r.0.locks == s.locks
    decreases |Unlocked(fs, s.locks)|, 3, |names|
  {
    if names == [] then (s, [])
    else
      var (s1, h) := Resolve(fs, s, names[0]);
      var (s2, subs) := ResolveAll(fs, s1, names[1..]);
      (s2, (if h.Some? then [h.value] else []) + subs)
  }
}
