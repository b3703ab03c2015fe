/** Why a connection is told what it is told, and when it leaves the map
    (`contribute/agonet/event_loop.go`, `contribute/agonet/client.go`). */
module EngineNotices {
  import opened Engine
  import opened EngineSafety
  import opened EngineResults

  // ----- What decides -----

  /** The loop is about to go on at this place. */
  predicate RunsAt(s: State, step: Step, place: Place) {
    step.Run? && step.l < |s.loops| && s.loops[step.l].place == place
  }

  /** The loop takes the connection from its queue in reject mode. */
  predicate Rejects(s: State, step: Step, c: nat) {
    && RunsAt(s, step, Select) && s.loops[step.l].mode.Rejecting? && step.choice.Go?
    && s.loops[step.l].queue != [] && s.loops[step.l].queue[0] == OpenEvent(c)
  }

  /** The quota is asked for the connection while a limit is set and the counter has reached it. (At the end of
      the 32-bit range the counter wraps, and the connection is let in.) */
  predicate Refuses(cfg: Config, s: State, step: Step, c: nat) {
    RunsAt(s, step, Entering(c)) && cfg.maxConn > 0 && cfg.maxConn <= s.total < MAX_INT32
  }

  /** OnOpen of the connection panics. */
  predicate PanicsIn(s: State, step: Step, c: nat) {
    RunsAt(s, step, Calling(c)) && step.choice == Calls(Panics)
  }

  ghost predicate WasRejected(run: seq<State>, steps: seq<Step>, i: nat, c: nat)
    requires i <= |run| && i <= |steps|
  {
    exists k :: 0 <= k < i && Rejects(run[k], steps[k], c)
  }

  ghost predicate WasRefused(cfg: Config, run: seq<State>, steps: seq<Step>, i: nat, c: nat)
    requires i <= |run| && i <= |steps|
  {
    exists k :: 0 <= k < i && Refuses(cfg, run[k], steps[k], c)
  }

  ghost predicate HasPanicked(run: seq<State>, steps: seq<Step>, i: nat, c: nat)
    requires i <= |run| && i <= |steps|
  {
    exists k :: 0 <= k < i && PanicsIn(run[k], steps[k], c)
  }

  // ----- One step -----

  /** The connection is told that the engine shuts down, or is about to be. */
  predicate ShutOut(lp: Loop, conn: Conn, c: nat) {
    (lp.place.Notifying? && lp.place.c == c && lp.place.n == EngineShutdown) || EngineShutdown in conn.notices
  }

  predicate Is32Bit(n: int) {
    -MAX_INT32 - 1 <= n <= MAX_INT32
  }

  lemma WrapIs32Bit(n: int)
    ensures Is32Bit(Wrap32(n))
    ensures Is32Bit(n) ==> Wrap32(n) == n
    ensures n == MAX_INT32 + 1 ==> Wrap32(n) < 0
  {}

  /** What a step does to a connection and the loop that owns it. */
  ghost predicate OwnerStep(cfg: Config, s: State, step: Step, c: nat, s': State)
    requires Enabled(cfg, s, step) && c < |s.conns|
  {
    var l := s.conns[c].owner;
    && l < |s.loops| == |s'.loops| && |s'.conns| == |s.conns|
    && s'.conns[c].owner == l && s'.conns[c].dialled == s.conns[c].dialled
    && (s.cancelled ==> s'.cancelled)
    && if step.Run? && step.l == l then
         var (lp, e) := LoopNext(cfg, s.loops[l], s.total, s.cancelled, step.choice);
         s'.loops[l] == lp && s'.conns[c] == Touch(s.conns[c], c, e)
       else
         && s'.loops[l] == s.loops[l].(queue := s'.loops[l].queue)
         && s'.conns[c] == s.conns[c].(stage := s'.conns[c].stage, posted := s'.conns[c].posted)
  }

  lemma RunOfOwner(cfg: Config, s: State, l: nat, choice: Choice, c: nat)
    requires Invariant(cfg, s) && Enabled(cfg, s, Run(l, choice)) && c < |s.conns| && s.conns[c].owner < |s.loops|
    ensures OwnerStep(cfg, s, Run(l, choice), c, Apply(cfg, s, Run(l, choice)))
  {
    EffectIsOwn(cfg, s, l, choice);
    TouchKeepsOwner(s.conns[c], c, LoopNext(cfg, s.loops[l], s.total, s.cancelled, choice).1);
    hide Invariant, LoopNext, LoopEnabled, Touch;
  }

  lemma OtherStepOfOwner(cfg: Config, s: State, step: Step, c: nat)
    requires Enabled(cfg, s, step) && !step.Run? && c < |s.conns| && s.conns[c].owner < |s.loops|
    requires step.DialPost? || step.Accept? ==> s.conns[step.c].owner < |s.loops|
    ensures OwnerStep(cfg, s, step, c, Apply(cfg, s, step))
  {}

  lemma StepOfOwner(cfg: Config, s: State, step: Step, c: nat)
    requires Invariant(cfg, s) && Enabled(cfg, s, step) && c < |s.conns|
    ensures OwnerStep(cfg, s, step, c, Apply(cfg, s, step))
    ensures var l := s.conns[c].owner; ConnOk(cfg, s.loops[l], s.conns[c], c) && LoopOk(cfg, s.loops[l], s.cancelled)
  {
    var l := s.conns[c].owner;
    assert ConnOk(cfg, s.loops[l], s.conns[c], c) && LoopOk(cfg, s.loops[l], s.cancelled);
    hide Invariant, Apply, ConnOk, LoopOk, OwnerStep;
    if step.Run? {
      RunOfOwner(cfg, s, step.l, step.choice, c);
    } else {
      OtherStepOfOwner(cfg, s, step, c);
    }
  }

  lemma LoopRejects(cfg: Config, lp: Loop, conn: Conn, c: nat, total: int, cancelled: bool, choice: Choice)
    requires ConnOk(cfg, lp, conn, c) && LoopEnabled(lp, cancelled, choice) && conn.dialled
    ensures var (lp', e) := LoopNext(cfg, lp, total, cancelled, choice);
      ShutOut(lp', Touch(conn, c, e), c) <==>
        || ShutOut(lp, conn, c)
        || (lp.place.Select? && lp.mode.Rejecting? && choice.Go? && lp.queue != [] && lp.queue[0] == OpenEvent(c))
  {
    hide Wrap32, Occurs, QuotaOk;
  }

  lemma LoopRefuses(cfg: Config, lp: Loop, conn: Conn, c: nat, total: int, cancelled: bool, choice: Choice)
    requires ConnOk(cfg, lp, conn, c) && LoopEnabled(lp, cancelled, choice) && Is32Bit(total)
    ensures var (lp', e) := LoopNext(cfg, lp, total, cancelled, choice);
      Touch(conn, c, e).refused <==>
        conn.refused || (lp.place == Entering(c) && cfg.maxConn > 0 && cfg.maxConn <= total < MAX_INT32)
  {
    WrapIs32Bit(total + 1);
    hide Wrap32, Occurs, QuotaOk;
  }

  lemma LoopPanics(cfg: Config, lp: Loop, conn: Conn, c: nat, total: int, cancelled: bool, choice: Choice)
    requires LoopEnabled(lp, cancelled, choice)
    ensures var (lp', e) := LoopNext(cfg, lp, total, cancelled, choice);
      Touch(conn, c, e).panicked <==> conn.panicked || (lp.place == Calling(c) && choice == Calls(Panics))
  {
    hide Wrap32;
  }

  /** A refused connection is not registered, and one that is not registered calls no OnOpen. */
  predicate Apart(conn: Conn) {
    (conn.refused ==> !conn.registered) && (conn.panicked ==> conn.registered)
  }

  lemma LoopKeepsApart(cfg: Config, lp: Loop, conn: Conn, c: nat, total: int, cancelled: bool, choice: Choice)
    requires ConnOk(cfg, lp, conn, c) && LoopEnabled(lp, cancelled, choice) && Apart(conn)
    ensures Apart(Touch(conn, c, LoopNext(cfg, lp, total, cancelled, choice).1))
  {
    hide Wrap32, Occurs, QuotaOk;
  }

  // ----- Whole runs -----

  /** What a connection's history says about the run so far. */
  ghost predicate Explained(cfg: Config, run: seq<State>, steps: seq<Step>, i: nat, c: nat)
    requires i < |run| && i <= |steps|
  {
    var s := run[i];
    && c < |s.conns| && s.conns[c].owner < |s.loops| && Is32Bit(s.total)
    && (s.conns[c].dialled ==> (ShutOut(s.loops[s.conns[c].owner], s.conns[c], c) <==> WasRejected(run, steps, i, c)))
    && (s.conns[c].refused <==> WasRefused(cfg, run, steps, i, c))
    && (s.conns[c].panicked <==> HasPanicked(run, steps, i, c))
    && Apart(s.conns[c])
    && (WasRejected(run, steps, i, c) ==> s.cancelled)
  }

  lemma OneMore(cfg: Config, run: seq<State>, steps: seq<Step>, i: nat, c: nat)
    requires i < |run| && i < |steps|
    ensures i + 1 <= |run| ==>
      && (WasRejected(run, steps, i + 1, c) <==> WasRejected(run, steps, i, c) || Rejects(run[i], steps[i], c))
      && (WasRefused(cfg, run, steps, i + 1, c) <==> WasRefused(cfg, run, steps, i, c) || Refuses(cfg, run[i], steps[i], c))
      && (HasPanicked(run, steps, i + 1, c) <==> HasPanicked(run, steps, i, c) || PanicsIn(run[i], steps[i], c))
  {
    hide Rejects, Refuses, PanicsIn;
  }

  /** A step that decides about a connection is one of its own loop. */
  lemma DecidedByOwner(cfg: Config, s: State, step: Step, c: nat)
    requires Invariant(cfg, s) && c < |s.conns|
    requires Rejects(s, step, c) || Refuses(cfg, s, step, c) || PanicsIn(s, step, c)
    ensures step.l == s.conns[c].owner
  {
    assert OwnOnly(s, step.l);
    assert Mentions(s.loops[step.l], c);
  }

  lemma StepExplains(cfg: Config, s: State, step: Step, c: nat)
    requires Invariant(cfg, s) && Enabled(cfg, s, step) && c < |s.conns| && Is32Bit(s.total) && Apart(s.conns[c])
    ensures var s', l := Apply(cfg, s, step), s.conns[c].owner;
      && l < |s.loops| == |s'.loops| && |s'.conns| == |s.conns| && s'.conns[c].owner == l
      && s'.conns[c].dialled == s.conns[c].dialled
      && (s.conns[c].dialled ==>
            (ShutOut(s'.loops[l], s'.conns[c], c) <==> ShutOut(s.loops[l], s.conns[c], c) || Rejects(s, step, c)))
      && (s'.conns[c].refused <==> s.conns[c].refused || Refuses(cfg, s, step, c))
      && (s'.conns[c].panicked <==> s.conns[c].panicked || PanicsIn(s, step, c))
      && Apart(s'.conns[c])
      && (s.cancelled ==> s'.cancelled) && (Rejects(s, step, c) ==> s.cancelled)
  {
    StepOfOwner(cfg, s, step, c);
    var l, conn := s.conns[c].owner, s.conns[c];
    if Rejects(s, step, c) || Refuses(cfg, s, step, c) || PanicsIn(s, step, c) {
      DecidedByOwner(cfg, s, step, c);
    }
    assert LoopOk(cfg, s.loops[l], s.cancelled);
    if step.Run? && step.l == l {
      hide Invariant, LoopNext, LoopEnabled, Touch, Apply, ConnOk, ShutOut;
      assert LoopEnabled(s.loops[l], s.cancelled, step.choice);
      if conn.dialled {
        LoopRejects(cfg, s.loops[l], conn, c, s.total, s.cancelled, step.choice);
      }
      LoopRefuses(cfg, s.loops[l], conn, c, s.total, s.cancelled, step.choice);
      LoopPanics(cfg, s.loops[l], conn, c, s.total, s.cancelled, step.choice);
      LoopKeepsApart(cfg, s.loops[l], conn, c, s.total, s.cancelled, step.choice);
    } else {
      hide Invariant, LoopNext, Touch, Apply, ConnOk;
    }
  }

  lemma TotalStays32Bit(cfg: Config, s: State, step: Step)
    requires Is32Bit(s.total) && Enabled(cfg, s, step)
    ensures Is32Bit(Apply(cfg, s, step).total)
  {
    WrapIs32Bit(s.total + 1);
    WrapIs32Bit(s.total - 1);
    hide Wrap32, LoopNext, LoopEnabled;
  }

  lemma {:induction false} RunExplains(cfg: Config, run: seq<State>, steps: seq<Step>, i: nat, c: nat)
    requires IsRun(cfg, run, steps) && i < |run| && c < |run[i].conns|
    ensures Explained(cfg, run, steps, i, c)
    ensures |run[0].conns| == |run[i].conns|
  {
    RunInvariant(cfg, run, steps, i);
    if i == 0 {
      assert FreshConn(run[0], c);
      hide Invariant;
    } else {
      var s, step := run[i - 1], steps[i - 1];
      assert Enabled(cfg, s, step) && run[i] == Apply(cfg, s, step);
      RunInvariant(cfg, run, steps, i - 1);
      ConnsStay(cfg, s, step);
      RunExplains(cfg, run, steps, i - 1, c);
      hide IsRun, Invariant, Enabled, Apply, Rejects, Refuses, PanicsIn, ShutOut, WasRejected, WasRefused, HasPanicked;
      StepExplains(cfg, s, step, c);
      TotalStays32Bit(cfg, s, step);
      OneMore(cfg, run, steps, i - 1, c);
    }
  }

  lemma ConnsStay(cfg: Config, s: State, step: Step)
    requires Enabled(cfg, s, step)
    ensures |Apply(cfg, s, step).conns| == |s.conns|
  {
    if step.Run? {
      TouchAllKeepsOwners(s.conns, LoopNext(cfg, s.loops[step.l], s.total, s.cancelled, step.choice).1);
    }
    hide LoopNext, LoopEnabled, TouchAll;
  }

  /** What a dialled connection is told has just one cause. EngineShutdown: its loop took it in reject mode, which is
      after the engine was cancelled. MaxConnRejected: a limit was set and the counter had reached it.
      OnOpenPanicked: its OnOpen panicked. In every other case it is told that it is open. */
  lemma NoticeHasItsCause(cfg: Config, run: seq<State>, steps: seq<Step>, i: nat, c: nat)
    requires IsRun(cfg, run, steps) && i < |run| && c < |run[i].conns|
    requires run[i].conns[c].dialled && run[i].conns[c].notices != []
    ensures var notice := run[i].conns[c].notices[0];
      && (notice == EngineShutdown <==> WasRejected(run, steps, i, c))
      && (notice == MaxConnRejected <==> WasRefused(cfg, run, steps, i, c))
      && (notice == OnOpenPanicked <==> HasPanicked(run, steps, i, c))
    ensures WasRejected(run, steps, i, c) ==> run[i].cancelled
  {
    RunInvariant(cfg, run, steps, i);
    RunExplains(cfg, run, steps, i, c);
    var s := run[i];
    assert ConnOk(cfg, s.loops[s.conns[c].owner], s.conns[c], c);
    hide IsRun, WasRejected, WasRefused, HasPanicked, LoopsOk, QuotaSums, Occurs, QuotaOk;
  }

  /** Without a limit, and as long as the engine is not cancelled, no connection that is dialled is turned away. */
  lemma WithoutLimitAllAreOpened(cfg: Config, run: seq<State>, steps: seq<Step>, i: nat, c: nat)
    requires IsRun(cfg, run, steps) && i < |run| && c < |run[i].conns| && cfg.maxConn <= 0 && !run[i].cancelled
    requires run[i].conns[c].dialled && run[i].conns[c].notices != []
    ensures run[i].conns[c].notices[0].Opened? || run[i].conns[c].notices[0].OnOpenPanicked?
  {
    NoticeHasItsCause(cfg, run, steps, i, c);
    assert !WasRefused(cfg, run, steps, i, c);
    hide IsRun, WasRejected, HasPanicked;
  }

  // ----- Leaving the map -----

  /** The handler of a connection asks for its close, or panics. */
  predicate AsksForClose(s: State, step: Step, c: nat) {
    && (RunsAt(s, step, Calling(c)) || RunsAt(s, step, Serving(c)))
    && (step.choice == Calls(WantsClose) || step.choice == Calls(Panics))
  }

  /** The connection is out of the map, or its close has just begun; and it is not about to come in again. */
  predicate OnItsWayOut(lp: Loop, conn: Conn, c: nat) {
    && (c in lp.connections ==> lp.place.Closing? && lp.place.c == c)
    && conn.registered
  }

  lemma LoopLetsOut(cfg: Config, lp: Loop, conn: Conn, c: nat, total: int, cancelled: bool, choice: Choice)
    requires ConnOk(cfg, lp, conn, c) && LoopEnabled(lp, cancelled, choice)
    requires OnItsWayOut(lp, conn, c) || (c in lp.connections && (lp.place == Calling(c) || lp.place == Serving(c))
                                          && (choice == Calls(WantsClose) || choice == Calls(Panics)))
    ensures var (lp', e) := LoopNext(cfg, lp, total, cancelled, choice);
      OnItsWayOut(lp', Touch(conn, c, e), c)
  {
    hide Wrap32, Occurs;
  }

  /** A connection that is served is in the map. */
  predicate ServesItsOwn(lp: Loop) {
    lp.place.Serving? ==> lp.place.c in lp.connections
  }

  lemma LoopServesItsOwn(cfg: Config, lp: Loop, total: int, cancelled: bool, choice: Choice)
    requires LoopEnabled(lp, cancelled, choice)
    ensures ServesItsOwn(LoopNext(cfg, lp, total, cancelled, choice).0)
  {
    hide Wrap32;
  }

  lemma {:induction false} RunServesItsOwn(cfg: Config, run: seq<State>, steps: seq<Step>, i: nat, l: nat)
    requires IsRun(cfg, run, steps) && i < |run| && l < |run[i].loops|
    ensures ServesItsOwn(run[i].loops[l])
  {
    if i > 0 {
      var s, step := run[i - 1], steps[i - 1];
      assert Enabled(cfg, s, step) && run[i] == Apply(cfg, s, step);
      if l < |s.loops| {
        RunServesItsOwn(cfg, run, steps, i - 1, l);
      }
      hide IsRun, LoopNext, LoopEnabled;
      if step.Run? {
        LoopServesItsOwn(cfg, s.loops[step.l], s.total, s.cancelled, step.choice);
      }
    }
  }

  lemma StepLetsOut(cfg: Config, s: State, step: Step, c: nat)
    requires Invariant(cfg, s) && Enabled(cfg, s, step) && c < |s.conns| && s.conns[c].owner < |s.loops|
    requires ServesItsOwn(s.loops[s.conns[c].owner])
    requires OnItsWayOut(s.loops[s.conns[c].owner], s.conns[c], c) || AsksForClose(s, step, c)
    ensures var s', l := Apply(cfg, s, step), s.conns[c].owner;
      && c < |s'.conns| && s'.conns[c].owner == l < |s'.loops| && OnItsWayOut(s'.loops[l], s'.conns[c], c)
  {
    StepOfOwner(cfg, s, step, c);
    var l := s.conns[c].owner;
    if AsksForClose(s, step, c) {
      assert OwnOnly(s, step.l);
      assert Mentions(s.loops[step.l], c);
      assert s.loops[l].place.Calling? ==> c in s.loops[l].connections;
    }
    if step.Run? && step.l == l {
      hide Invariant, LoopNext, LoopEnabled, Touch, Apply, ConnOk;
      assert LoopEnabled(s.loops[l], s.cancelled, step.choice);
      LoopLetsOut(cfg, s.loops[l], s.conns[c], c, s.total, s.cancelled, step.choice);
    } else {
      hide Invariant, LoopNext, Touch, Apply, ConnOk;
    }
  }

  /** A connection whose handler asked for its close, or panicked, is out of the map as soon as the loop has gone
      beyond the beginning of the close, and never comes in again; in particular once the event is done with. */
  lemma {:induction false} ClosedWhenAsked(cfg: Config, run: seq<State>, steps: seq<Step>, k: nat, i: nat, c: nat)
    requires IsRun(cfg, run, steps) && k < i < |run| && c < |run[k].conns| && AsksForClose(run[k], steps[k], c)
    ensures c < |run[i].conns| && run[i].conns[c].owner < |run[i].loops|
    ensures OnItsWayOut(run[i].loops[run[i].conns[c].owner], run[i].conns[c], c)
    decreases i
  {
    hide *;
    RunHasSteps(cfg, run, steps);
    StepOfRun(cfg, run, steps, i - 1);
    if i - 1 > k {
      ClosedWhenAsked(cfg, run, steps, k, i - 1, c);
    } else {
      OwnerExists(cfg, run[k], c);
    }
    RunServesItsOwn(cfg, run, steps, i - 1, run[i - 1].conns[c].owner);
    StepLetsOut(cfg, run[i - 1], steps[i - 1], c);
  }

  lemma StepOfRun(cfg: Config, run: seq<State>, steps: seq<Step>, i: nat)
    requires IsRun(cfg, run, steps) && i < |steps|
    ensures i + 1 < |run| && Invariant(cfg, run[i]) && Enabled(cfg, run[i], steps[i]) && run[i + 1] == Apply(cfg, run[i], steps[i])
  {
    RunInvariant(cfg, run, steps, i);
    hide Invariant, Enabled, Apply;
  }

  lemma OwnerExists(cfg: Config, s: State, c: nat)
    requires Invariant(cfg, s) && c < |s.conns|
    ensures s.conns[c].owner < |s.loops|
  {
    hide ConnOk;
  }

  // ----- What Dial returns -----

  predicate ReturnsNotice(s: State, c: nat)
    requires c < |s.conns|
  {
    s.conns[c].stage.Returned? ==>
      || (s.conns[c].notices != [] && s.conns[c].stage.n == s.conns[c].notices[0])
      || (s.conns[c].stage.n == EngineShutdown && s.cancelled)
  }

  lemma StepReturnsNotice(cfg: Config, s: State, step: Step, c: nat)
    requires Enabled(cfg, s, step) && c < |s.conns| == |Apply(cfg, s, step).conns| && ReturnsNotice(s, c)
    ensures ReturnsNotice(Apply(cfg, s, step), c)
  {
    hide LoopNext, LoopEnabled, Touch;
    if step.Run? {
      hide ReturnsNotice;
      RunReturnsNotice(cfg, s, step.l, step.choice, c);
    }
  }

  lemma RunReturnsNotice(cfg: Config, s: State, l: nat, choice: Choice, c: nat)
    requires l < |s.loops| && LoopEnabled(s.loops[l], s.cancelled, choice)
    requires c < |s.conns| == |RunLoop(cfg, s, l, choice).conns| && ReturnsNotice(s, c)
    ensures ReturnsNotice(RunLoop(cfg, s, l, choice), c)
  {
    hide LoopNext, LoopEnabled, Touch;
    TouchGrows(s.conns[c], c, LoopNext(cfg, s.loops[l], s.total, s.cancelled, choice).1);
  }

  lemma TouchGrows(conn: Conn, c: nat, e: Effect)
    ensures Touch(conn, c, e).stage == conn.stage && conn.notices <= Touch(conn, c, e).notices
  {}

  /** A Dial returns what its connection was told, or that the engine shuts down, once it does. */
  lemma {:induction false} DialReturnsItsNotice(cfg: Config, run: seq<State>, steps: seq<Step>, i: nat, c: nat)
    requires IsRun(cfg, run, steps) && i < |run| && c < |run[i].conns|
    ensures ReturnsNotice(run[i], c)
  {
    if i == 0 {
      assert FreshConn(run[0], c);
    } else {
      StepOfRun(cfg, run, steps, i - 1);
      ConnsStay(cfg, run[i - 1], steps[i - 1]);
      DialReturnsItsNotice(cfg, run, steps, i - 1, c);
      hide *;
      StepReturnsNotice(cfg, run[i - 1], steps[i - 1], c);
    }
  }

  /** A connection that Dial has given up before its event was posted. */
  predicate GivenUp(s: State, c: nat) {
    c < |s.conns| && s.conns[c].stage == Returned(EngineShutdown) && !s.conns[c].posted
  }

  lemma StaysGivenUp(cfg: Config, s: State, step: Step, c: nat)
    requires Enabled(cfg, s, step) && GivenUp(s, c) && |Apply(cfg, s, step).conns| == |s.conns|
    ensures GivenUp(Apply(cfg, s, step), c)
  {
    hide LoopNext, LoopEnabled, Touch;
    if step.Run? {
      TouchKeepsPosted(s.conns[c], c, LoopNext(cfg, s.loops[step.l], s.total, s.cancelled, step.choice).1);
    }
  }

  lemma TouchKeepsPosted(conn: Conn, c: nat, e: Effect)
    ensures Touch(conn, c, e).stage == conn.stage && Touch(conn, c, e).posted == conn.posted
  {}

  lemma ChecksForShutdown(cfg: Config, s: State, c: nat)
    requires Invariant(cfg, s) && Enabled(cfg, s, DialCheck(c)) && s.cancelled
    ensures GivenUp(Apply(cfg, s, DialCheck(c)), c)
  {
    ConnStageAgrees(cfg, s);
    hide Invariant;
  }

  /** A Dial that begins after the cancellation returns that the engine shuts down, and its connection never reaches
      a loop. */
  lemma {:induction false} NoDialAfterShutdown(cfg: Config, run: seq<State>, steps: seq<Step>, k: nat, n: nat, c: nat)
    requires IsRun(cfg, run, steps) && k < n < |run| && k < |steps| && steps[k] == DialCheck(c) && run[k].cancelled
    ensures GivenUp(run[n], c)
    decreases n
  {
    hide *;
    RunHasSteps(cfg, run, steps);
    StepOfRun(cfg, run, steps, n - 1);
    if n - 1 == k {
      ChecksForShutdown(cfg, run[k], c);
    } else {
      NoDialAfterShutdown(cfg, run, steps, k, n - 1, c);
      ConnsStay(cfg, run[n - 1], steps[n - 1]);
      StaysGivenUp(cfg, run[n - 1], steps[n - 1], c);
    }
  }

  // ----- A demand for shutdown -----

  /** A handler, or an event, of a running loop demands shutdown. (What OnClose demands counts unless the close was
      for a panic of OnOpen.) */
  predicate Demands(s: State, step: Step, l: nat) {
    && step.Run? && step.l == l < |s.loops| && s.loops[l].mode.Running?
    && match s.loops[l].place
       case Select => step.choice.Go? && s.loops[l].queue != [] && s.loops[l].queue[0].Demand?
       case Calling(_) => step.choice == Calls(WantsShutdown)
       case Serving(_) => step.choice == Calls(WantsShutdown)
       case CallingOnClose(_, after) => step.choice == Calls(WantsShutdown) && after != ToNotice(true)
       case _ => false
  }

  /** The loop is about to leave, which cancels the engine. */
  predicate IsLeaving(lp: Loop) {
    lp.place.Exiting? || (lp.place.Notifying? && lp.place.shutdown)
  }

  lemma LoopLeaves(cfg: Config, lp: Loop, total: int, choice: Choice)
    requires LoopEnabled(lp, false, choice) && LoopOk(cfg, lp, false)
    requires IsLeaving(lp) || (match lp.place
                               case Select => choice.Go? && lp.queue[0].Demand?
                               case Calling(_) => choice == Calls(WantsShutdown)
                               case Serving(_) => choice == Calls(WantsShutdown)
                               case CallingOnClose(_, after) => choice == Calls(WantsShutdown) && after != ToNotice(true)
                               case _ => false)
    ensures lp.place.Exiting? || IsLeaving(LoopNext(cfg, lp, total, false, choice).0)
  {
    hide Wrap32;
  }

  lemma StepLeaves(cfg: Config, s: State, step: Step, l: nat)
    requires Invariant(cfg, s) && Enabled(cfg, s, step) && l < |s.loops|
    requires s.cancelled || IsLeaving(s.loops[l]) || Demands(s, step, l)
    ensures l < |Apply(cfg, s, step).loops|
    ensures Apply(cfg, s, step).cancelled || IsLeaving(Apply(cfg, s, step).loops[l])
  {
    assert LoopOk(cfg, s.loops[l], s.cancelled);
    if step.Run? {
      if !s.cancelled && step.l == l {
        LoopLeaves(cfg, s.loops[l], s.total, step.choice);
      }
      hide LoopNext, LoopEnabled, Invariant, LoopOk;
    } else {
      hide Invariant, LoopOk;
    }
  }

  /** After a demand for shutdown the loop leaves and cancels the engine: as long as the engine is not cancelled, the
      loop does nothing but that. */
  lemma {:induction false} DemandCancels(cfg: Config, run: seq<State>, steps: seq<Step>, k: nat, i: nat, l: nat)
    requires IsRun(cfg, run, steps) && k < i < |run| && Demands(run[k], steps[k], l)
    ensures l < |run[i].loops| && (run[i].cancelled || IsLeaving(run[i].loops[l]))
    decreases i
  {
    hide IsRun, Invariant, Enabled, Apply, IsLeaving;
    RunHasSteps(cfg, run, steps);
    StepOfRun(cfg, run, steps, i - 1);
    if i - 1 > k {
      DemandCancels(cfg, run, steps, k, i - 1, l);
    }
    StepLeaves(cfg, run[i - 1], steps[i - 1], l);
  }

  // ----- Only a demand stops the engine -----

  ghost predicate Asked(run: seq<State>, steps: seq<Step>, n: nat)
    requires n <= |run| && n <= |steps|
  {
    exists k :: 0 <= k < n && (steps[k].Cancel? || (steps[k].Run? && Demands(run[k], steps[k], steps[k].l)))
  }

  /** What is leaving without a cancellation was demanded to. */
  ghost predicate LeavesOnDemand(run: seq<State>, steps: seq<Step>, n: nat)
    requires n < |run| && n <= |steps|
  {
    && (run[n].cancelled ==> Asked(run, steps, n))
    && forall l :: 0 <= l < |run[n].loops| && IsLeaving(run[n].loops[l]) && !run[n].cancelled ==> Asked(run, steps, n)
  }

  lemma LeavesForDemand(cfg: Config, lp: Loop, total: int, choice: Choice)
    requires LoopEnabled(lp, false, choice) && LoopOk(cfg, lp, false)
    requires IsLeaving(LoopNext(cfg, lp, total, false, choice).0)
    ensures IsLeaving(lp)
      || match lp.place
         case Select => choice.Go? && lp.queue != [] && lp.queue[0].Demand?
         case Calling(_) => choice == Calls(WantsShutdown)
         case Serving(_) => choice == Calls(WantsShutdown)
         case CallingOnClose(_, after) => choice == Calls(WantsShutdown) && after != ToNotice(true)
         case _ => false
  {
    hide Wrap32;
  }

  lemma StepLeavesForDemand(cfg: Config, s: State, step: Step, l: nat)
    requires Invariant(cfg, s) && Enabled(cfg, s, step) && l < |Apply(cfg, s, step).loops| == |s.loops|
    requires IsLeaving(Apply(cfg, s, step).loops[l]) && !Apply(cfg, s, step).cancelled && !s.cancelled
    ensures IsLeaving(s.loops[l]) || (step.Run? && step.l == l && Demands(s, step, l))
  {
    assert LoopOk(cfg, s.loops[l], s.cancelled);
    if step.Run? {
      if step.l == l {
        LeavesForDemand(cfg, s.loops[l], s.total, step.choice);
      }
      hide LoopNext, LoopEnabled, Invariant;
    } else {
      hide Invariant, LoopOk;
    }
  }

  lemma AskedStays(run: seq<State>, steps: seq<Step>, n: nat)
    requires 0 < n <= |run| && n <= |steps|
    ensures Asked(run, steps, n - 1) ==> Asked(run, steps, n)
    ensures steps[n - 1].Cancel? || (steps[n - 1].Run? && Demands(run[n - 1], steps[n - 1], steps[n - 1].l)) ==>
      Asked(run, steps, n)
  {
    hide Demands;
    if Asked(run, steps, n - 1) {
      var k :| 0 <= k < n - 1 && (steps[k].Cancel? || (steps[k].Run? && Demands(run[k], steps[k], steps[k].l)));
    }
  }

  lemma CancelsInStep(cfg: Config, s: State, step: Step)
    requires Enabled(cfg, s, step) && Apply(cfg, s, step).cancelled && !s.cancelled
    ensures step.Cancel? || (step.Run? && step.l < |s.loops| && IsLeaving(s.loops[step.l]))
  {
    hide LoopNext, LoopEnabled;
  }

  lemma LoopsStay(cfg: Config, s: State, step: Step)
    requires Enabled(cfg, s, step)
    ensures |Apply(cfg, s, step).loops| == |s.loops| && (s.cancelled ==> Apply(cfg, s, step).cancelled)
  {
    hide LoopNext, LoopEnabled, TouchAll;
  }

  lemma NothingLeavesAtFirst(s: State)
    requires Init(s)
    ensures !s.cancelled && forall l :: 0 <= l < |s.loops| ==> !IsLeaving(s.loops[l])
  {}

  lemma {:induction false} RunLeavesOnDemand(cfg: Config, run: seq<State>, steps: seq<Step>, n: nat)
    requires IsRun(cfg, run, steps) && n < |run| && n <= |steps|
    ensures LeavesOnDemand(run, steps, n)
  {
    hide Invariant, Enabled, Apply, Asked, IsLeaving, Init, Demands;
    if n == 0 {
      NothingLeavesAtFirst(run[0]);
    } else {
      RunLeavesOnDemand(cfg, run, steps, n - 1);
      StepOfRun(cfg, run, steps, n - 1);
      var s, step := run[n - 1], steps[n - 1];
      LoopsStay(cfg, s, step);
      AskedStays(run, steps, n);
      if run[n].cancelled && !s.cancelled {
        CancelsInStep(cfg, s, step);
      }
      forall l | 0 <= l < |run[n].loops| && IsLeaving(run[n].loops[l]) && !run[n].cancelled ensures Asked(run, steps, n) {
        StepLeavesForDemand(cfg, s, step, l);
      }
    }
  }

  /** The engine is cancelled only if somebody asked for it, or a handler or an event demanded it; in particular no
      connection that is refused, and no panic, stops a loop. */
  lemma CancelledOnlyOnDemand(cfg: Config, run: seq<State>, steps: seq<Step>, n: nat)
    requires IsRun(cfg, run, steps) && n < |run| && n <= |steps| && run[n].cancelled
    ensures Asked(run, steps, n)
  {
    hide IsRun, Asked;
    RunLeavesOnDemand(cfg, run, steps, n);
  }
}
