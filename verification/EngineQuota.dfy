/** Exactly when the quota of the engine is safe (`contribute/agonet/event_loop.go`). */
module EngineQuota {
  import opened Engine
  import opened EngineSafety
  import opened EngineResults

  // ----- Extending runs -----

  ghost predicate Reachable(cfg: Config, s: State) {
    exists run, steps :: IsRun(cfg, run, steps) && run[|run| - 1] == s
  }

  lemma ReachInit(cfg: Config, s: State)
    requires Init(s)
    ensures Reachable(cfg, s)
  {
    assert IsRun(cfg, [s], []) && [s][0] == s;
  }

  lemma ReachStep(cfg: Config, s: State, step: Step)
    requires Reachable(cfg, s) && Enabled(cfg, s, step)
    ensures Reachable(cfg, Apply(cfg, s, step))
  {
    var run, steps :| IsRun(cfg, run, steps) && run[|run| - 1] == s;
    hide Enabled, Apply, Init;
    var s' := Apply(cfg, s, step);
    var run', steps' := run + [s'], steps + [step];
    forall i | 0 <= i < |steps'|
      ensures Enabled(cfg, run'[i], steps'[i]) && run'[i + 1] == Apply(cfg, run'[i], steps'[i])
    {
      if i < |steps| {
        assert run'[i] == run[i] && run'[i + 1] == run[i + 1] && steps'[i] == steps[i];
      }
    }
    assert IsRun(cfg, run', steps') && run'[|run'| - 1] == s';
  }

  // ----- Filling the quota -----

  /** Connections up to `quota` belong to the first loop, those behind to one loop each, and the last again
      to the first. */
  function OwnerOf(quota: nat, loops: nat, c: nat): nat
    requires loops > 0
  {
    if c < quota || c - quota + 1 >= loops then 0 else c - quota + 1
  }

  const FRESH_LOOP := Loop({}, 0, [], Running, Select)

  function FreshConnOf(owner: nat): Conn {
    Conn(owner, false, Idle, false, false, 0, 0, false, false, false, [])
  }

  /** `m` connections are admitted by the first loop, and `j` of the other loops have one over the quota that
      they have not given back yet; the connections from `m + j` on have not arrived. */
  ghost predicate Filled(cfg: Config, s: State, m: nat, j: nat) {
    && cfg.maxConn > 0 && j < |s.loops| && m + j <= |s.conns| && !s.cancelled && s.total == m + j
    && (forall c :: m + j <= c < |s.conns| ==> s.conns[c] == FreshConnOf(OwnerOf(cfg.maxConn, |s.loops|, c)))
    && s.loops[0].queue == [] && s.loops[0].mode.Running? && s.loops[0].place.Select?
    && (forall c: nat :: c in s.loops[0].connections ==> c < m)
    && (forall l :: j < l < |s.loops| ==> s.loops[l] == FRESH_LOOP)
    && Sum(s.loops, Admitted) == m
  }

  function Begun(cfg: Config, loops: nat, conns: nat): State
    requires loops > 0 && cfg.maxConn > 0
  {
    State(seq(loops, _ => FRESH_LOOP), seq(conns, c requires c >= 0 => FreshConnOf(OwnerOf(cfg.maxConn, loops, c))), 0, false)
  }

  lemma BegunIsFilled(cfg: Config, loops: nat, conns: nat)
    requires loops > 0 && cfg.maxConn > 0
    ensures Init(Begun(cfg, loops, conns)) && Filled(cfg, Begun(cfg, loops, conns), 0, 0)
  {
    SumOfFresh(Begun(cfg, loops, conns).loops, Admitted);
  }

  /** A connection arrives at its loop, which takes it in hand. */
  lemma Arrives(cfg: Config, s: State, c: nat, l: nat) returns (s': State)
    requires Reachable(cfg, s) && c < |s.conns| && l < |s.loops| && cfg.capacity > 0 && !s.cancelled
    requires s.conns[c] == FreshConnOf(l)
    requires s.loops[l].queue == [] && s.loops[l].mode.Running? && s.loops[l].place.Select?
    ensures Reachable(cfg, s')
    ensures |s'.loops| == |s.loops| && |s'.conns| == |s.conns| && s'.total == s.total && !s'.cancelled
    ensures forall k :: 0 <= k < |s.loops| && k != l ==> s'.loops[k] == s.loops[k]
    ensures forall k :: 0 <= k < |s.conns| && k != c ==> s'.conns[k] == s.conns[k]
    ensures s'.loops[l] == s.loops[l].(place := Entering(c))
    ensures !s'.conns[c].dialled
    ensures Sum(s'.loops, Admitted) == Sum(s.loops, Admitted)
  {
    hide Reachable, Sum;
    ReachStep(cfg, s, Accept(c));
    var s1 := Apply(cfg, s, Accept(c));
    assert s1.loops[l].queue == [OpenEvent(c)];
    ReachStep(cfg, s1, Run(l, Go));
    s' := Apply(cfg, s1, Run(l, Go));
    assert [OpenEvent(c)][1..] == [];
    assert s'.loops == s.loops[l := s.loops[l].(place := Entering(c))];
    SumUpdate(s.loops, l, s'.loops[l], Admitted);
  }

  /** What a step of loop `l` other than taking an event comes to. */
  lemma Runs(cfg: Config, s: State, l: nat, choice: Choice) returns (s': State)
    requires Reachable(cfg, s) && l < |s.loops| && LoopEnabled(s.loops[l], s.cancelled, choice) && !s.cancelled
    requires !s.loops[l].place.Exiting?
    ensures Reachable(cfg, s')
    ensures var (lp, e) := LoopNext(cfg, s.loops[l], s.total, s.cancelled, choice);
      && s'.loops == s.loops[l := lp] && s'.total == TotalAfter(s.total, e) && !s'.cancelled
      && |s'.conns| == |s.conns|
      && (forall k :: 0 <= k < |s.conns| && (e.Nothing? || k != e.c) ==> s'.conns[k] == s.conns[k])
      && (forall k :: 0 <= k < |s.conns| ==> s'.conns[k].dialled == s.conns[k].dialled)
      && Sum(s'.loops, Admitted) == Sum(s.loops, Admitted) - Admitted(s.loops[l]) + Admitted(lp)
  {
    hide Reachable, Sum, LoopNext, LoopEnabled;
    ReachStep(cfg, s, Run(l, choice));
    s' := Apply(cfg, s, Run(l, choice));
    SumUpdate(s.loops, l, LoopNext(cfg, s.loops[l], s.total, s.cancelled, choice).0, Admitted);
  }

  /** As long as there is room, the first loop admits one more. */
  lemma AdmitsOne(cfg: Config, s: State, m: nat) returns (s': State)
    requires Reachable(cfg, s) && Filled(cfg, s, m, 0) && m < |s.conns| && m < cfg.maxConn <= MAX_INT32 && cfg.capacity > 0
    ensures Reachable(cfg, s') && Filled(cfg, s', m + 1, 0) && |s'.loops| == |s.loops| && |s'.conns| == |s.conns|
  {
    hide Reachable, Sum;
    var s1 := Arrives(cfg, s, m, 0);
    var s2 := Runs(cfg, s1, 0, Go);
    var s3 := Runs(cfg, s2, 0, Go);
    var s4 := Runs(cfg, s3, 0, Calls(Fine));
    s' := Runs(cfg, s4, 0, Go);
  }

  lemma {:induction false} AdmitsAll(cfg: Config, s: State, m: nat) returns (s': State)
    requires Reachable(cfg, s) && Filled(cfg, s, m, 0) && cfg.capacity > 0
    requires m <= cfg.maxConn <= |s.conns| && cfg.maxConn <= MAX_INT32
    ensures Reachable(cfg, s') && Filled(cfg, s', cfg.maxConn, 0) && |s'.loops| == |s.loops| && |s'.conns| == |s.conns|
    decreases cfg.maxConn - m
  {
    hide *;
    if m == cfg.maxConn {
      s' := s;
    } else {
      var s1 := AdmitsOne(cfg, s, m);
      s' := AdmitsAll(cfg, s1, m + 1);
    }
  }

  /** With the quota full, a loop that takes one more holds the counter one too high for a while. */
  lemma OvershootsOne(cfg: Config, s: State, j: nat) returns (s': State)
    requires Reachable(cfg, s) && cfg.maxConn > 0 && Filled(cfg, s, cfg.maxConn, j) && cfg.capacity > 0
    requires cfg.maxConn + j < |s.conns| && j + 1 < |s.loops| && cfg.maxConn + j < MAX_INT32
    ensures Reachable(cfg, s') && Filled(cfg, s', cfg.maxConn, j + 1) && |s'.loops| == |s.loops| && |s'.conns| == |s.conns|
  {
    hide Reachable, Sum;
    var s1 := Arrives(cfg, s, cfg.maxConn + j, j + 1);
    s' := Runs(cfg, s1, j + 1, Go);
  }

  lemma {:induction false} OvershootsAll(cfg: Config, s: State, j: nat, k: nat) returns (s': State)
    requires Reachable(cfg, s) && cfg.maxConn > 0 && Filled(cfg, s, cfg.maxConn, j) && cfg.capacity > 0
    requires j <= k < |s.loops| && cfg.maxConn + k <= |s.conns| && cfg.maxConn + k <= MAX_INT32
    ensures Reachable(cfg, s') && Filled(cfg, s', cfg.maxConn, k) && |s'.loops| == |s.loops| && |s'.conns| == |s.conns|
    decreases k - j
  {
    hide *;
    if j == k {
      s' := s;
    } else {
      var s1 := OvershootsOne(cfg, s, j);
      s' := OvershootsAll(cfg, s1, j + 1, k);
    }
  }

  /** At the end of the range the next one makes the counter wrap, and is let in. */
  lemma WrapsAndAdmits(cfg: Config, s: State, k: nat) returns (s': State)
    requires Reachable(cfg, s) && cfg.maxConn > 0 && Filled(cfg, s, cfg.maxConn, k) && cfg.capacity > 0
    requires cfg.maxConn + k == MAX_INT32 && cfg.maxConn + k < |s.conns| && k < |s.loops|
    ensures Reachable(cfg, s') && |s'.loops| == |s.loops| && Sum(s'.loops, Admitted) == cfg.maxConn + 1
  {
    hide Reachable, Sum;
    var l := OwnerOf(cfg.maxConn, |s.loops|, MAX_INT32);
    var s1 := Arrives(cfg, s, MAX_INT32, l);
    s' := Runs(cfg, s1, l, Go);
  }

  // ----- Main result -----

  /** The admitted connections keep within the limit in every run with that many loops. */
  ghost predicate QuotaHolds(cfg: Config, loops: nat) {
    forall s :: Reachable(cfg, s) && |s.loops| == loops ==> Sum(s.loops, Admitted) <= cfg.maxConn
  }

  /** Where the limit leaves too little room, some run admits one connection more. */
  lemma SomeRunAdmitsTooMany(cfg: Config, loops: nat) returns (s: State)
    requires 0 < cfg.maxConn <= MAX_INT32 < cfg.maxConn + loops && cfg.capacity > 0
    ensures Reachable(cfg, s) && |s.loops| == loops && Sum(s.loops, Admitted) == cfg.maxConn + 1
  {
    hide *;
    var k := MAX_INT32 - cfg.maxConn;
    var s0 := Begun(cfg, loops, MAX_INT32 + 1);
    BegunSizes(cfg, loops, MAX_INT32 + 1);
    BegunIsFilled(cfg, loops, MAX_INT32 + 1);
    ReachInit(cfg, s0);
    var s1 := AdmitsAll(cfg, s0, 0);
    var s2 := OvershootsAll(cfg, s1, 0, k);
    s := WrapsAndAdmits(cfg, s2, k);
  }

  lemma BegunSizes(cfg: Config, loops: nat, conns: nat)
    requires loops > 0 && cfg.maxConn > 0
    ensures |Begun(cfg, loops, conns).loops| == loops && |Begun(cfg, loops, conns).conns| == conns
  {}

  /** A positive limit is kept in every run, however the loops interleave, if and only if it leaves room for
      one connection per loop below the end of the 32-bit range. Otherwise enough refused connections
      that are not rolled back yet take the counter to the end; the next one makes it wrap, and is let in. */
  lemma QuotaIsExact(cfg: Config, loops: nat)
    requires 0 < cfg.maxConn <= MAX_INT32 && cfg.capacity > 0 && loops > 0
    ensures QuotaHolds(cfg, loops) <==> QuotaApplies(cfg, loops)
  {
    if QuotaApplies(cfg, loops) {
      forall s | Reachable(cfg, s) && |s.loops| == loops ensures Sum(s.loops, Admitted) <= cfg.maxConn {
        var run, steps :| IsRun(cfg, run, steps) && run[|run| - 1] == s;
        QuotaIsSafe(cfg, run, steps, |run| - 1);
      }
    } else {
      var s := SomeRunAdmitsTooMany(cfg, loops);
    }
  }
}
