/** The event loops always get on, and shutdown comes to its end (`contribute/agonet/event_loop.go`). */
module EngineProgress {
  import opened Engine
  import opened EngineSafety
  import opened EngineResults

  // ----- Modes -----

  /** A loop drains only once it sees the cancellation, rejects only once its deadline has passed, and looks at the
      deadline between any two events that it drains. */
  lemma ModesFollow(cfg: Config, lp: Loop, total: int, cancelled: bool, choice: Choice)
    requires LoopEnabled(lp, cancelled, choice)
    ensures var lp' := LoopNext(cfg, lp, total, cancelled, choice).0;
      && lp'.mode == (if lp.place.Select? && choice.SeeCancel? then Draining
                      else if lp.place.Checking? && choice.Expire? then Rejecting
                      else if lp.place.Checking? then Draining else lp.mode)
      && (lp.place.Select? && choice.SeeCancel? ==> cancelled && lp.mode.Running?)
      && (lp'.mode.Draining? && lp'.place.Select? ==> lp.place.Checking? || (lp.place.Select? && choice.SeeCancel?))
      && (lp'.place.Checking? ==> lp'.mode.Draining?)
  {
    hide Wrap32;
  }

  ghost predicate ChecksInDrain(s: State) {
    forall l :: 0 <= l < |s.loops| && s.loops[l].place.Checking? ==> s.loops[l].mode.Draining?
  }

  lemma {:induction false} OnlyDrainsCheck(cfg: Config, run: seq<State>, steps: seq<Step>, n: nat)
    requires IsRun(cfg, run, steps) && n < |run|
    ensures ChecksInDrain(run[n])
  {
    if n > 0 {
      OnlyDrainsCheck(cfg, run, steps, n - 1);
      var s, step := run[n - 1], steps[n - 1];
      assert Enabled(cfg, s, step) && run[n] == Apply(cfg, s, step);
      hide IsRun, LoopNext, LoopEnabled, TouchAll;
      if step.Run? {
        ModesFollow(cfg, s.loops[step.l], s.total, s.cancelled, step.choice);
      }
    }
  }

  /** In every run: the mode of a loop goes from running over draining to rejecting, and the deadline is looked at
      between any two events of the drain. */
  lemma DeadlineIsLookedAt(cfg: Config, run: seq<State>, steps: seq<Step>, n: nat, l: nat)
    requires IsRun(cfg, run, steps) && n < |steps| && l < |run[n].loops|
    requires steps[n].Run? && steps[n].l == l
    ensures l < |run[n + 1].loops|
    ensures var lp, lp', choice := run[n].loops[l], run[n + 1].loops[l], steps[n].choice;
      && (lp'.mode == lp.mode
          || (lp.mode.Running? && lp'.mode.Draining? && lp.place.Select? && choice.SeeCancel? && run[n].cancelled)
          || (lp.mode.Draining? && lp'.mode.Rejecting? && lp.place.Checking? && choice.Expire?))
      && (lp.place.Checking? && choice.Expire? ==> lp'.mode.Rejecting?)
      && (lp.place.Select? && choice.SeeCancel? ==> lp'.mode.Draining?)
      && (lp'.mode.Draining? && lp'.place.Select? ==> lp.place.Checking? || lp.mode.Running?)
  {
    OnlyDrainsCheck(cfg, run, steps, n);
    assert Enabled(cfg, run[n], steps[n]) && run[n + 1] == Apply(cfg, run[n], steps[n]);
    hide IsRun, LoopNext, LoopEnabled, TouchAll;
    ModesFollow(cfg, run[n].loops[l], run[n].total, run[n].cancelled, steps[n].choice);
  }

  // ----- What becomes of an event -----

  /** The loop has gone back to its next event: over the deadline when it drains. */
  predicate GoesBack(lp: Loop) {
    if lp.mode.Draining? then lp.place.Checking? else lp.place.Select?
  }

  /** A loop takes its events in order. A connection to open is opened, or told of the shutdown if the loop rejects; a
      packet, a Wake or a read error is served exactly if the loop does not reject and still has the
      connection, and is dropped otherwise; and a running loop leaves on a demand. */
  lemma EventsAreHandled(cfg: Config, run: seq<State>, steps: seq<Step>, n: nat, l: nat)
    requires IsRun(cfg, run, steps) && n < |steps| && l < |run[n].loops| && steps[n] == Run(l, Go)
    requires run[n].loops[l].place.Select? && run[n].loops[l].queue != []
    ensures l < |run[n + 1].loops|
    ensures var lp, lp' := run[n].loops[l], run[n + 1].loops[l];
      && lp'.queue == lp.queue[1..] && lp'.mode == lp.mode && lp'.connections == lp.connections
      && match lp.queue[0]
         case OpenEvent(c) =>
           if lp.mode.Rejecting? then lp'.place.Notifying? && lp'.place.c == c && lp'.place.n == EngineShutdown
           else lp'.place == Entering(c)
         case ConnEvent(c) =>
           if c in lp.connections && !lp.mode.Rejecting? then lp'.place == Serving(c) else GoesBack(lp')
         case Demand => if lp.mode.Running? then lp'.place.Exiting? else GoesBack(lp')
  {
    assert Enabled(cfg, run[n], steps[n]) && run[n + 1] == Apply(cfg, run[n], steps[n]);
    hide IsRun, TouchAll;
  }

  /** A handler that has run without asking for anything leaves the connection as it is, and the loop goes back. */
  lemma ServedIsKept(cfg: Config, run: seq<State>, steps: seq<Step>, n: nat, l: nat)
    requires IsRun(cfg, run, steps) && n < |steps| && l < |run[n].loops| && steps[n] == Run(l, Calls(Fine))
    requires run[n].loops[l].place.Serving?
    ensures l < |run[n + 1].loops|
    ensures GoesBack(run[n + 1].loops[l]) && run[n + 1].loops[l].connections == run[n].loops[l].connections
  {
    assert Enabled(cfg, run[n], steps[n]) && run[n + 1] == Apply(cfg, run[n], steps[n]);
    hide IsRun, TouchAll;
  }

  // ----- A loop never spins -----

  function ModeRank(m: Mode): nat {
    match m
    case Running => 2
    case Draining => 1
    case Rejecting => 0
  }

  function PlaceRank(lp: Loop): nat {
    match lp.place
    case Entering(_) => 23
    case Registering(_) => 22
    case Decrementing(_, _) => 11
    case CallingOnClose(_, _) => 10
    case Calling(_) => 9
    case Serving(_) => 9
    case Closing(c, after) => if after.ToClosingAll? && c in lp.connections then 0 else 8
    case RollingBack(_) => 6
    case Notifying(_, _, _) => 5
    case Checking => 4
    case Select => 3
    case Exiting => 2
    case ClosingAll => 1
    case Stopped => 0
  }

  /** How many steps a loop can take at most before it needs a new event. */
  function StepsLeft(lp: Loop): nat {
    60 * |lp.queue| + 12 * |lp.connections| + PlaceRank(lp) + ModeRank(lp.mode)
  }

  lemma OneMoreElement(s: set<nat>, c: nat)
    ensures |s + {c}| <= |s| + 1
    ensures c in s ==> |s - {c}| == |s| - 1
  {
    if c in s {
      assert s + {c} == s;
    } else {
      assert |s + {c}| == |s| + 1;
    }
  }

  ghost predicate GetsOn(cfg: Config, lp: Loop, total: int, cancelled: bool, choice: Choice)
    requires LoopEnabled(lp, cancelled, choice)
  {
    StepsLeft(LoopNext(cfg, lp, total, cancelled, choice).0) < StepsLeft(lp)
  }

  lemma SelectGetsOn(cfg: Config, lp: Loop, total: int, cancelled: bool, choice: Choice)
    requires LoopEnabled(lp, cancelled, choice) && lp.place.Select?
    ensures GetsOn(cfg, lp, total, cancelled, choice)
  {
    if lp.queue != [] {
      assert |lp.queue[1..]| == |lp.queue| - 1;
    }
  }

  lemma OpeningGetsOn(cfg: Config, lp: Loop, total: int, cancelled: bool, choice: Choice)
    requires LoopEnabled(lp, cancelled, choice)
    requires lp.place.Entering? || lp.place.RollingBack? || lp.place.Registering? || lp.place.Calling?
    ensures GetsOn(cfg, lp, total, cancelled, choice)
  {
    hide Wrap32;
    OneMoreElement(lp.connections, lp.place.c);
  }

  lemma ClosingGetsOn(cfg: Config, lp: Loop, total: int, cancelled: bool, choice: Choice)
    requires LoopEnabled(lp, cancelled, choice)
    requires lp.place.Closing? || lp.place.Decrementing? || lp.place.CallingOnClose?
    ensures GetsOn(cfg, lp, total, cancelled, choice)
  {
    OneMoreElement(lp.connections, lp.place.c);
  }

  lemma OtherGetsOn(cfg: Config, lp: Loop, total: int, cancelled: bool, choice: Choice)
    requires LoopEnabled(lp, cancelled, choice) && (lp.place.Checking? ==> lp.mode.Draining?)
    requires lp.place.Notifying? || lp.place.Serving? || lp.place.Checking? || lp.place.Exiting? || lp.place.ClosingAll?
    ensures GetsOn(cfg, lp, total, cancelled, choice)
  {}

  lemma LoopGetsOn(cfg: Config, lp: Loop, total: int, cancelled: bool, choice: Choice)
    requires LoopEnabled(lp, cancelled, choice) && (lp.place.Checking? ==> lp.mode.Draining?)
    ensures GetsOn(cfg, lp, total, cancelled, choice)
  {
    hide GetsOn;
    match lp.place
    case Select => SelectGetsOn(cfg, lp, total, cancelled, choice);
    case Entering(_) => OpeningGetsOn(cfg, lp, total, cancelled, choice);
    case RollingBack(_) => OpeningGetsOn(cfg, lp, total, cancelled, choice);
    case Registering(_) => OpeningGetsOn(cfg, lp, total, cancelled, choice);
    case Calling(_) => OpeningGetsOn(cfg, lp, total, cancelled, choice);
    case Closing(_, _) => ClosingGetsOn(cfg, lp, total, cancelled, choice);
    case Decrementing(_, _) => ClosingGetsOn(cfg, lp, total, cancelled, choice);
    case CallingOnClose(_, _) => ClosingGetsOn(cfg, lp, total, cancelled, choice);
    case _ => OtherGetsOn(cfg, lp, total, cancelled, choice);
  }

  /** The events posted to a loop. */
  ghost function PostedTo(run: seq<State>, steps: seq<Step>, n: nat, l: nat): nat
    requires n < |run| && n <= |steps|
  {
    if n == 0 then 0
    else PostedTo(run, steps, n - 1, l) + if PostsTo(run[n - 1], steps[n - 1], l) then 1 else 0
  }

  predicate PostsTo(s: State, step: Step, l: nat) {
    match step
    case Post(k, _) => k == l
    case DialPost(c) => c < |s.conns| && s.conns[c].owner == l
    case Accept(c) => c < |s.conns| && s.conns[c].owner == l
    case _ => false
  }

  lemma StepGetsOn(cfg: Config, s: State, step: Step, l: nat)
    requires Enabled(cfg, s, step) && ChecksInDrain(s) && l < |s.loops|
    ensures l < |Apply(cfg, s, step).loops|
    ensures StepsLeft(Apply(cfg, s, step).loops[l]) + (if step.Run? && step.l == l then 1 else 0)
         <= StepsLeft(s.loops[l]) + (if PostsTo(s, step, l) then 60 else 0)
  {
    hide LoopNext, LoopEnabled, TouchAll, ModeRank;
    if step.Run? && step.l == l {
      hide StepsLeft;
      LoopGetsOn(cfg, s.loops[l], s.total, s.cancelled, step.choice);
    }
  }

  /** No loop spins: in every run it takes at most as many steps as the events posted to it call for. */
  lemma {:induction false} LoopStepsAreBounded(cfg: Config, run: seq<State>, steps: seq<Step>, n: nat, l: nat)
    requires IsRun(cfg, run, steps) && n < |run| && l < |run[0].loops|
    ensures l < |run[n].loops|
    ensures OwnSteps(steps[0..n], l) + StepsLeft(run[n].loops[l]) <= 5 + 60 * PostedTo(run, steps, n, l)
  {
    if n == 0 {
      NoOwnSteps(steps, 0, l);
    } else {
      LoopStepsAreBounded(cfg, run, steps, n - 1, l);
      OnlyDrainsCheck(cfg, run, steps, n - 1);
      var s, step := run[n - 1], steps[n - 1];
      assert Enabled(cfg, s, step) && run[n] == Apply(cfg, s, step);
      hide IsRun, Apply, Enabled, StepsLeft, PostsTo, ChecksInDrain;
      OwnStepsOfMore(steps, 0, n, l);
      StepGetsOn(cfg, s, step, l);
    }
  }

  /** A loop that waits for events: only it has no step to take, or one that has stopped. */
  predicate Idles(lp: Loop, cancelled: bool) {
    lp.place.Stopped? || (lp.place.Select? && lp.mode.Running? && lp.queue == [] && !cancelled)
  }

  /** Every other loop can take a step; when it looks at its deadline, that may have passed or not. So once the
      engine is cancelled and no more events come, every loop stops, with its map empty. */
  lemma LoopCanGoOn(cfg: Config, run: seq<State>, steps: seq<Step>, n: nat, l: nat) returns (choice: Choice)
    requires IsRun(cfg, run, steps) && n < |run| && l < |run[n].loops| && !Idles(run[n].loops[l], run[n].cancelled)
    ensures Enabled(cfg, run[n], Run(l, choice))
    ensures run[n].loops[l].place.Checking? ==> Enabled(cfg, run[n], Run(l, Go)) && Enabled(cfg, run[n], Run(l, Expire))
    ensures run[n].loops[l].place.Select? && run[n].loops[l].mode.Running? && run[n].cancelled ==>
      Enabled(cfg, run[n], Run(l, SeeCancel))
  {
    hide IsRun;
    var lp := run[n].loops[l];
    if lp.place.Calling? || lp.place.CallingOnClose? || lp.place.Serving? {
      choice := Calls(Fine);
    } else if lp.place.ClosingAll? && lp.connections != {} {
      var c :| c in lp.connections;
      choice := Pick(c);
    } else if lp.place.Select? && lp.mode.Running? && lp.queue == [] {
      choice := SeeCancel;
    } else {
      choice := Go;
    }
  }

  lemma StoppedIsEmpty(cfg: Config, run: seq<State>, steps: seq<Step>, n: nat, l: nat)
    requires IsRun(cfg, run, steps) && n < |run| && l < |run[n].loops| && run[n].loops[l].place.Stopped?
    ensures run[n].cancelled && run[n].loops[l].connections == {}
  {
    RunInvariant(cfg, run, steps, n);
    hide IsRun, ConnsOk, QuotaSums, OwnOnly;
    assert LoopOk(cfg, run[n].loops[l], run[n].cancelled);
  }
}
