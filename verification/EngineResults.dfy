/** What holds in every run of the engine (`contribute/agonet/event_loop.go`, `contribute/agonet/client.go`). */
module EngineResults {
  import opened Engine
  import opened EngineSafety

  predicate AllStopped(s: State) {
    forall l :: 0 <= l < |s.loops| ==> s.loops[l].place.Stopped?
  }

  // ----- The quota -----

  /** Whatever way the loops interleave, the connections admitted never exceed the limit; the shared counter
      is ahead of them by what is being rolled back, at most one per loop, so that it does not leave the
      32-bit range; each loop's own counter is the size of its map; and once all loops have stopped the
      counter is back at zero. */
  lemma QuotaIsSafe(cfg: Config, run: seq<State>, steps: seq<Step>, i: nat)
    requires IsRun(cfg, run, steps) && i < |run| && QuotaApplies(cfg, |run[i].loops|)
    ensures var s := run[i];
      && 0 <= Sum(s.loops, Admitted) <= cfg.maxConn
      && 0 <= s.total - Sum(s.loops, Admitted) <= |s.loops|
      && s.total <= MAX_INT32
      && (forall l :: 0 <= l < |s.loops| ==> s.loops[l].connCount == |s.loops[l].connections|)
      && (AllStopped(s) ==> s.total == 0)
  {
    RunInvariant(cfg, run, steps, i);
    var s := run[i];
    hide IsRun, Sum, OwnOnly, ConnOk;
    AdmittedIsNatural(s.loops);
    SumBounds(s.loops, Overshoot, 1);
    if AllStopped(s) {
      forall l | 0 <= l < |s.loops| ensures Admitted(s.loops[l]) == 0 {
        assert LoopOk(cfg, s.loops[l], s.cancelled);
      }
      SumOfFresh(s.loops, Admitted);
      SumOfFresh(s.loops, Overshoot);
    }
  }

  /** The quota is taken at most once for a connection, given back at most once, and held just as long as
      the connection is in its loop's hands. */
  lemma EachAdmissionIsUndoneOnce(cfg: Config, run: seq<State>, steps: seq<Step>, i: nat, c: nat)
    requires IsRun(cfg, run, steps) && i < |run| && c < |run[i].conns| && cfg.maxConn > 0
    ensures var conn := run[i].conns[c];
      && conn.owner < |run[i].loops|
      && conn.downs <= conn.ups <= 1
      && (conn.ups > conn.downs <==> Holds(run[i].loops[conn.owner], c))
      && (AllStopped(run[i]) ==> conn.ups == conn.downs)
  {
    RunInvariant(cfg, run, steps, i);
    hide IsRun, OwnOnly, QuotaSums, Occurs;
    var s := run[i];
    assert ConnOk(cfg, s.loops[s.conns[c].owner], s.conns[c], c);
    assert LoopOk(cfg, s.loops[s.conns[c].owner], s.cancelled);
  }

  // ----- Notification -----

  /** The callback of a connection runs at most once, and has run once its loop has taken the connection
      from the queue and goes on to the next event. It tells success exactly when the connection was
      admitted and its OnOpen did not panic. */
  lemma CallbackRunsOnce(cfg: Config, run: seq<State>, steps: seq<Step>, i: nat, c: nat)
    requires IsRun(cfg, run, steps) && i < |run| && c < |run[i].conns| && run[i].conns[c].dialled
    ensures var conn := run[i].conns[c];
      && conn.owner < |run[i].loops|
      && |conn.notices| <= 1
      && (conn.taken && run[i].loops[conn.owner].place.Select? ==> |conn.notices| == 1)
      && (conn.notices != [] ==>
            && conn.taken
            && (conn.notices[0].Opened? <==> conn.registered && !conn.panicked)
            && (conn.notices[0].OnOpenPanicked? <==> conn.panicked)
            && (conn.notices[0].MaxConnRejected? ==> conn.refused))
  {
    RunInvariant(cfg, run, steps, i);
    hide IsRun, LoopsOk, QuotaSums, Occurs;
    var s := run[i];
    assert ConnOk(cfg, s.loops[s.conns[c].owner], s.conns[c], c);
  }

  /** A waiting Dial has been told, or its loop still has the connection in hand or in the queue it takes
      events from, or the engine's context is cancelled, which ends the wait. */
  lemma WaitingDialIsServed(cfg: Config, run: seq<State>, steps: seq<Step>, i: nat, c: nat)
    requires IsRun(cfg, run, steps) && i < |run| && c < |run[i].conns|
    requires run[i].conns[c].dialled && run[i].conns[c].stage.Waiting?
    ensures run[i].conns[c].owner < |run[i].loops|
    ensures var s, lp := run[i], run[i].loops[run[i].conns[c].owner];
      || Enabled(cfg, s, DialCancelled(c))
      || Enabled(cfg, s, DialWoken(c))
      || OwesNotice(lp, c)
      || (OpenEvent(c) in lp.queue && !lp.place.ClosingAll? && !lp.place.Stopped?)
  {
    RunInvariant(cfg, run, steps, i);
    hide IsRun, OwnOnly, QuotaSums;
    var s := run[i];
    assert ConnOk(cfg, s.loops[s.conns[c].owner], s.conns[c], c);
    assert LoopOk(cfg, s.loops[s.conns[c].owner], s.cancelled);
  }

  // ----- The wait is bounded -----

  /** How many events the loop takes until it opens the connection. */
  function Ahead(queue: seq<Event>, c: nat): nat {
    if queue == [] then 0
    else if queue[0] == OpenEvent(c) then 1
    else 1 + Ahead(queue[1..], c)
  }

  lemma {:induction false} AheadIsBounded(queue: seq<Event>, c: nat)
    ensures Ahead(queue, c) <= |queue|
  {
    if queue != [] {
      AheadIsBounded(queue[1..], c);
    }
  }

  lemma {:induction false} AppendStaysBehind(queue: seq<Event>, e: Event, c: nat)
    requires OpenEvent(c) in queue
    ensures Ahead(queue + [e], c) == Ahead(queue, c)
  {
    if queue[0] != OpenEvent(c) {
      assert (queue + [e])[1..] == queue[1..] + [e];
      AppendStaysBehind(queue[1..], e, c);
    }
  }

  /** The steps a loop needs at most until it is done with the event in hand. */
  function Rank(lp: Loop): nat
    ensures Rank(lp) <= 9
  {
    match lp.place
    case Entering(_) => 9
    case Registering(_) => 8
    case Calling(_) => 7
    case Serving(_) => 7
    case Closing(c, _) => if c in lp.connections then 6 else 3
    case Decrementing(_, _) => 5
    case CallingOnClose(_, _) => 4
    case RollingBack(_) => 3
    case Notifying(_, _, _) => 2
    case Checking => 1
    case Exiting => 1
    case _ => 0
  }

  function Patience(lp: Loop, conn: Conn, c: nat): nat {
    Rank(lp) + if conn.taken then 0 else 10 * Ahead(lp.queue, c)
  }

  /** Every step of its loop brings a waiting connection closer to its notice. */
  lemma LoopMakesWay(cfg: Config, lp: Loop, conn: Conn, c: nat, total: int, choice: Choice)
    requires ConnOk(cfg, lp, conn, c) && LoopOk(cfg, lp, false) && LoopEnabled(lp, false, choice)
    requires conn.dialled && conn.posted && conn.notices == []
    ensures var (lp', e) := LoopNext(cfg, lp, total, false, choice);
      || lp.place.Exiting?
      || Touch(conn, c, e).notices != []
      || Patience(lp', Touch(conn, c, e), c) < Patience(lp, conn, c)
  {
    hide Wrap32, Ahead;
    if lp.place.Select? {
      TakingMakesWay(lp, conn, c);
    }
  }

  lemma TakingMakesWay(lp: Loop, conn: Conn, c: nat)
    requires lp.place.Select? && lp.mode.Running? && lp.queue != []
    ensures var (lp', e) := TakeEvent(lp); Patience(lp', Touch(conn, c, e), c) < Patience(lp, conn, c) || conn.taken
    ensures PostOk(lp, conn, c) && conn.posted && conn.dialled && NoticeOk(lp, conn, c) && conn.notices == [] ==> !conn.taken
  {}

  ghost predicate Waits(s: State, c: nat) {
    && c < |s.conns| && s.conns[c].dialled && s.conns[c].stage.Waiting? && s.conns[c].notices == [] && !s.cancelled
  }

  function PatienceIn(s: State, c: nat): nat {
    if c < |s.conns| && s.conns[c].owner < |s.loops| then Patience(s.loops[s.conns[c].owner], s.conns[c], c) else 0
  }

  lemma PatienceIsBounded(cfg: Config, run: seq<State>, steps: seq<Step>, i: nat, c: nat)
    requires IsRun(cfg, run, steps) && i < |run| && c < |run[i].conns|
    ensures run[i].conns[c].owner < |run[i].loops| && PatienceIn(run[i], c) <= 10 * cfg.capacity + 9
  {
    RunInvariant(cfg, run, steps, i);
    hide IsRun, OwnOnly, QuotaSums, ConnOk, Rank, LeavesInOrder;
    var lp := run[i].loops[run[i].conns[c].owner];
    assert LoopOk(cfg, lp, run[i].cancelled);
    AheadIsBounded(lp.queue, c);
  }

  /** No step makes a waiting connection wait longer; a step of its own loop makes it wait less. */
  lemma StepMakesWay(cfg: Config, s: State, step: Step, c: nat)
    requires Invariant(cfg, s) && Enabled(cfg, s, step) && Waits(s, c) && Waits(Apply(cfg, s, step), c)
    ensures var s' := Apply(cfg, s, step);
      && s.conns[c].owner < |s.loops| == |s'.loops| && s'.conns[c].owner == s.conns[c].owner
      && PatienceIn(s', c) <= PatienceIn(s, c) - (if step.Run? && step.l == s.conns[c].owner then 1 else 0)
  {
    var l := s.conns[c].owner;
    assert ConnOk(cfg, s.loops[l], s.conns[c], c) && LoopOk(cfg, s.loops[l], s.cancelled);
    hide Invariant;
    match step
    case Run(k, choice) =>
      hide ConnOk, LoopOk, LoopNext, LoopEnabled, Patience;
      TouchKeepsOwner(s.conns[c], c, LoopNext(cfg, s.loops[k], s.total, s.cancelled, choice).1);
      assert PostOk(s.loops[l], s.conns[c], c) by { ConnOkParts(cfg, s.loops[l], s.conns[c], c); }
      if k == l {
        LoopMakesWay(cfg, s.loops[l], s.conns[c], c, s.total, choice);
      } else {
        EffectIsOwn(cfg, s, k, choice);
      }
    case Post(k, e) => EnqueueMakesWay(cfg, s, k, e, c);
    case DialPost(d) => EnqueueMakesWay(cfg, s, s.conns[d].owner, OpenEvent(d), c);
    case Accept(d) => EnqueueMakesWay(cfg, s, s.conns[d].owner, OpenEvent(d), c);
    case _ =>
  }

  lemma ConnOkParts(cfg: Config, lp: Loop, conn: Conn, c: nat)
    requires ConnOk(cfg, lp, conn, c)
    ensures PostOk(lp, conn, c) && QuotaOk(cfg, lp, conn, c) && NoticeOk(lp, conn, c)
  {}

  lemma EnqueueMakesWay(cfg: Config, s: State, l: nat, e: Event, c: nat)
    requires Waits(s, c) && l < |s.loops| && s.conns[c].owner < |s.loops|
    requires ConnOk(cfg, s.loops[s.conns[c].owner], s.conns[c], c)
    ensures PatienceIn(Enqueue(s, l, e), c) == PatienceIn(s, c)
  {
    if !s.conns[c].taken {
      AppendStaysBehind(s.loops[s.conns[c].owner].queue, e, c);
    }
  }

  function OwnSteps(steps: seq<Step>, l: nat): nat {
    if steps == [] then 0
    else OwnSteps(steps[..|steps| - 1], l) + if steps[|steps| - 1].Run? && steps[|steps| - 1].l == l then 1 else 0
  }

  lemma OwnStepsOfMore(steps: seq<Step>, i: nat, j: nat, l: nat)
    requires i < j <= |steps|
    ensures OwnSteps(steps[i..j], l)
         == OwnSteps(steps[i..j - 1], l) + if steps[j - 1].Run? && steps[j - 1].l == l then 1 else 0
  {
    assert steps[i..j][..j - 1 - i] == steps[i..j - 1];
  }

  lemma NoOwnSteps(steps: seq<Step>, i: nat, l: nat)
    requires i <= |steps|
    ensures OwnSteps(steps[i..i], l) == 0
  {}

  ghost predicate WaitsOn(s: State, c: nat, l: nat) {
    Waits(s, c) && s.conns[c].owner == l < |s.loops|
  }

  lemma WaitStep(cfg: Config, run: seq<State>, steps: seq<Step>, i: nat, c: nat, l: nat)
    requires IsRun(cfg, run, steps) && i + 1 < |run| == |steps| + 1 && WaitsOn(run[i], c, l) && Waits(run[i + 1], c)
    ensures WaitsOn(run[i], c, l) && WaitsOn(run[i + 1], c, l)
    ensures (if steps[i].Run? && steps[i].l == l then 1 else 0) + PatienceIn(run[i + 1], c) <= PatienceIn(run[i], c)
  {
    RunInvariant(cfg, run, steps, i);
    assert Enabled(cfg, run[i], steps[i]) && run[i + 1] == Apply(cfg, run[i], steps[i]);
    hide IsRun, Invariant, Enabled, Apply, Patience;
    StepMakesWay(cfg, run[i], steps[i], c);
  }

  lemma {:induction false} WaitShrinks(cfg: Config, run: seq<State>, steps: seq<Step>, i: nat, j: nat, c: nat, l: nat)
    requires IsRun(cfg, run, steps) && i <= j < |run| && WaitsOn(run[i], c, l)
    requires forall k :: i <= k <= j ==> Waits(run[k], c)
    ensures WaitsOn(run[j], c, l)
    ensures OwnSteps(steps[i..j], l) + PatienceIn(run[j], c) <= PatienceIn(run[i], c)
    decreases j
  {
    hide *;
    RunHasSteps(cfg, run, steps);
    if i == j {
      NoOwnSteps(steps, i, l);
    } else {
      WaitShrinks(cfg, run, steps, i, j - 1, c, l);
      OwnStepsOfMore(steps, i, j, l);
      WaitStep(cfg, run, steps, j - 1, c, l);
    }
  }

  /** Between posting and notice the loop of a waiting Dial takes boundedly many steps: a full queue of
      events and the one in hand, ten steps each. */
  lemma DialWaitsBoundedly(cfg: Config, run: seq<State>, steps: seq<Step>, i: nat, j: nat, c: nat)
    requires IsRun(cfg, run, steps) && i <= j < |run| && c < |run[i].conns|
    requires forall k :: i <= k <= j ==> Waits(run[k], c)
    ensures OwnSteps(steps[i..j], run[i].conns[c].owner) <= 10 * cfg.capacity + 9
  {
    hide IsRun, OwnSteps, PatienceIn;
    PatienceIsBounded(cfg, run, steps, i, c);
    RunHasSteps(cfg, run, steps);
    WaitShrinks(cfg, run, steps, i, j, c, run[i].conns[c].owner);
  }

  lemma RunHasSteps(cfg: Config, run: seq<State>, steps: seq<Step>)
    requires IsRun(cfg, run, steps)
    ensures |run| == |steps| + 1
  {}

  /** The loop of a waiting Dial always has a step to take, so the wait ends. */
  lemma LoopOfWaitingDialCanMove(cfg: Config, run: seq<State>, steps: seq<Step>, i: nat, c: nat) returns (choice: Choice)
    requires IsRun(cfg, run, steps) && i < |run| && Waits(run[i], c)
    ensures Enabled(cfg, run[i], Run(run[i].conns[c].owner, choice))
  {
    RunInvariant(cfg, run, steps, i);
    hide IsRun, OwnOnly, QuotaSums;
    var s := run[i];
    var lp := s.loops[s.conns[c].owner];
    assert ConnOk(cfg, lp, s.conns[c], c);
    assert LoopOk(cfg, lp, s.cancelled);
    choice := if lp.place.Calling? || lp.place.CallingOnClose? || lp.place.Serving? then Calls(Fine) else Go;
  }
}
