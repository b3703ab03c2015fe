/** The bounded queue of log tasks between submitters and workers, a step for every access to the queue, a
    counter or the task pool (`ag/ag_log/async/async_worker_group.go`). */
module TaskQueue {

  datatype Strategy = DropNew | BlockWait | DropOld | Unknown

  datatype Config = Config(strategy: Strategy, capacity: nat)

  /** Where a submitter is in Submit. */
  datatype Submitter =
    | Resting
    | Holding(task: nat)                  // Submit is called
    | Full(task: nat)                     // drop_old: the queue was full
    | Evicting(task: nat, oldest: nat)    // drop_old: the oldest is taken out, not yet counted
    | Evicted(task: nat, oldest: nat)     // counted, not yet in the pool
    | Retrying(task: nat)
    | Counting                            // the task is in the queue, not yet counted as queued
    | Dropping(task: nat)
    | Returning(task: nat)                // counted as dropped, not yet in the pool
    | Leaving

  datatype Worker =
    | Waiting
    | Handling(task: nat)
    | Releasing(task: nat)                // counted, not yet in the pool
    | Stopped

  datatype State = State(
    queue: seq<nat>,
    pool: set<nat>,
    made: set<nat>,     // every task there has been
    submitters: seq<Submitter>,
    workers: seq<Worker>,
    queued: nat,
    processed: nat,
    errors: nat,
    dropped: nat,
    started: nat,       // Submit calls begun
    completed: nat,     // and returned
    lost: nat,          // tasks that went nowhere
    evicted: nat)       // tasks taken out of the queue for newer ones

  datatype Step =
    | Begin(i: nat, task: nat)      // a task from the pool, or a new one
    | Go(i: nat)
    | Take(w: nat)
    | Finish(w: nat, ok: bool)
    | Release(w: nat)
    | Quit(w: nat)

  function One(b: bool): nat {
    if b then 1 else 0
  }

  /** How often a submitter has the task in hand. */
  function HoldsTask(sub: Submitter, t: nat): nat {
    match sub
    case Holding(x) => One(x == t)
    case Full(x) => One(x == t)
    case Evicting(x, o) => One(x == t) + One(o == t)
    case Evicted(x, o) => One(x == t) + One(o == t)
    case Retrying(x) => One(x == t)
    case Dropping(x) => One(x == t)
    case Returning(x) => One(x == t)
    case _ => 0
  }

  function WorksOn(w: Worker, t: nat): nat {
    match w
    case Handling(x) => One(x == t)
    case Releasing(x) => One(x == t)
    case _ => 0
  }

  function InHands(subs: seq<Submitter>, t: nat): nat {
    if subs == [] then 0 else HoldsTask(subs[0], t) + InHands(subs[1..], t)
  }

  function InWork(ws: seq<Worker>, t: nat): nat {
    if ws == [] then 0 else WorksOn(ws[0], t) + InWork(ws[1..], t)
  }

  function InQueue(queue: seq<nat>, t: nat): nat {
    if queue == [] then 0 else One(queue[0] == t) + InQueue(queue[1..], t)
  }

  /** In how many places a task is in use. */
  function Uses(s: State, t: nat): nat {
    InHands(s.submitters, t) + InWork(s.workers, t) + InQueue(s.queue, t)
  }

  predicate Enabled(cfg: Config, s: State, step: Step) {
    match step
    case Begin(i, task) => i < |s.submitters| && s.submitters[i].Resting? && (task in s.pool || task !in s.made)
    case Go(i) => i < |s.submitters| && !s.submitters[i].Resting?
      && (s.submitters[i].Holding? && cfg.strategy.BlockWait? ==> |s.queue| < cfg.capacity)
    case Take(w) => w < |s.workers| && s.workers[w].Waiting? && s.queue != []
    case Finish(w, _) => w < |s.workers| && s.workers[w].Handling?
    case Release(w) => w < |s.workers| && s.workers[w].Releasing?
    case Quit(w) => w < |s.workers| && s.workers[w].Waiting?
  }

  function SetSub(s: State, i: nat, sub: Submitter): State
    requires i < |s.submitters|
  {
    s.(submitters := s.submitters[i := sub])
  }

  function Send(s: State, i: nat, task: nat): State
    requires i < |s.submitters|
  {
    SetSub(s.(queue := s.queue + [task]), i, Counting)
  }

  function Advance(cfg: Config, s: State, i: nat): State
    requires i < |s.submitters|
  {
    match s.submitters[i]
    case Resting => s
    case Holding(t) =>
      if cfg.strategy.Unknown? then SetSub(s.(lost := s.lost + 1), i, Leaving)
      else if |s.queue| < cfg.capacity then Send(s, i, t)
      else if cfg.strategy.DropNew? then SetSub(s, i, Dropping(t))
      else if cfg.strategy.DropOld? then SetSub(s, i, Full(t))
      else s
    case Full(t) =>
      if s.queue == [] then SetSub(s, i, Dropping(t))
      else SetSub(s.(queue := s.queue[1..], evicted := s.evicted + 1), i, Evicting(t, s.queue[0]))
    case Evicting(t, o) => SetSub(s.(dropped := s.dropped + 1), i, Evicted(t, o))
    case Evicted(t, o) => SetSub(s.(pool := s.pool + {o}), i, Retrying(t))
    case Retrying(t) => if |s.queue| < cfg.capacity then Send(s, i, t) else SetSub(s, i, Dropping(t))
    case Counting => SetSub(s.(queued := s.queued + 1), i, Leaving)
    case Dropping(t) => SetSub(s.(dropped := s.dropped + 1), i, Returning(t))
    case Returning(t) => SetSub(s.(pool := s.pool + {t}), i, Leaving)
    case Leaving => SetSub(s.(completed := s.completed + 1), i, Resting)
  }

  function Apply(cfg: Config, s: State, step: Step): State
    requires Enabled(cfg, s, step)
  {
    match step
    case Begin(i, task) => SetSub(s.(pool := s.pool - {task}, made := s.made + {task}, started := s.started + 1), i, Holding(task))
    case Go(i) => Advance(cfg, s, i)
    case Take(w) => s.(workers := s.workers[w := Handling(s.queue[0])], queue := s.queue[1..])
    case Finish(w, ok) =>
      var s' := s.(workers := s.workers[w := Releasing(s.workers[w].task)]);
      if ok then s'.(processed := s.processed + 1) else s'.(errors := s.errors + 1)
    case Release(w) => s.(pool := s.pool + {s.workers[w].task}, workers := s.workers[w := Waiting])
    case Quit(w) => s.(workers := s.workers[w := Stopped])
  }

  ghost predicate Init(s: State) {
    && s.queue == [] && s.pool == s.made == {} && s.queued == s.processed == s.errors == s.dropped == 0
    && s.started == s.completed == s.lost == s.evicted == 0
    && (forall i :: 0 <= i < |s.submitters| ==> s.submitters[i].Resting?)
    && (forall w :: 0 <= w < |s.workers| ==> s.workers[w].Waiting?)
  }

  ghost predicate IsRun(cfg: Config, run: seq<State>, steps: seq<Step>) {
    && |run| == |steps| + 1 && Init(run[0])
    && forall i :: 0 <= i < |steps| ==> Enabled(cfg, run[i], steps[i]) && run[i + 1] == Apply(cfg, run[i], steps[i])
  }

  // ----- No task in two places -----

  /** No task is in two places, the pool among them; a new one is in none. */
  ghost predicate Single(s: State) {
    forall t: nat :: InOnePlace(s, t)
  }

  ghost predicate InOnePlace(s: State, t: nat) {
    Uses(s, t) + One(t in s.pool) <= One(t in s.made)
  }

  lemma {:induction false} HandsUpdate(subs: seq<Submitter>, i: nat, sub: Submitter, t: nat)
    requires i < |subs|
    ensures InHands(subs[i := sub], t) == InHands(subs, t) - HoldsTask(subs[i], t) + HoldsTask(sub, t)
  {
    hide HoldsTask;
    if i == 0 {
      assert subs[0 := sub][1..] == subs[1..];
    } else {
      assert subs[i := sub][1..] == subs[1..][i - 1 := sub];
      HandsUpdate(subs[1..], i - 1, sub, t);
    }
  }

  lemma {:induction false} WorkUpdate(ws: seq<Worker>, i: nat, w: Worker, t: nat)
    requires i < |ws|
    ensures InWork(ws[i := w], t) == InWork(ws, t) - WorksOn(ws[i], t) + WorksOn(w, t)
  {
    hide WorksOn;
    if i == 0 {
      assert ws[0 := w][1..] == ws[1..];
    } else {
      assert ws[i := w][1..] == ws[1..][i - 1 := w];
      WorkUpdate(ws[1..], i - 1, w, t);
    }
  }

  lemma {:induction false} QueueAppend(queue: seq<nat>, x: nat, t: nat)
    ensures InQueue(queue + [x], t) == InQueue(queue, t) + One(x == t)
  {
    hide One;
    if queue == [] {
      assert queue + [x] == [x];
    } else {
      assert (queue + [x])[1..] == queue[1..] + [x];
      QueueAppend(queue[1..], x, t);
    }
  }

  /** The task a step puts into the pool. */
  function GivesBack(s: State, step: Step, t: nat): nat {
    match step
    case Go(i) =>
      if i >= |s.submitters| then 0
      else
        (match s.submitters[i]
         case Evicted(_, o) => One(o == t)
         case Returning(x) => One(x == t)
         case _ => 0)
    case Release(w) => if w < |s.workers| && s.workers[w].Releasing? then One(s.workers[w].task == t) else 0
    case _ => 0
  }

  /** The task a step forgets. */
  function Loses(cfg: Config, s: State, step: Step, t: nat): nat {
    if step.Go? && step.i < |s.submitters| && s.submitters[step.i].Holding? && cfg.strategy.Unknown?
    then One(s.submitters[step.i].task == t) else 0
  }

  lemma SubmitterMovesTasks(cfg: Config, s: State, i: nat, t: nat)
    requires Enabled(cfg, s, Go(i))
    ensures Uses(Apply(cfg, s, Go(i)), t) + GivesBack(s, Go(i), t) + Loses(cfg, s, Go(i), t) == Uses(s, t)
  {
    hide InHands, InWork, One;
    var s' := Apply(cfg, s, Go(i));
    HandsUpdate(s.submitters, i, s'.submitters[i], t);
    if s.submitters[i].Holding? || s.submitters[i].Retrying? {
      QueueAppend(s.queue, s.submitters[i].task, t);
    }
  }

  /** A step moves tasks between their places: the uses of each task change only by what comes in, goes back
      to the pool, or is lost. */
  lemma StepMovesTasks(cfg: Config, s: State, step: Step, t: nat)
    requires Enabled(cfg, s, step)
    ensures Uses(Apply(cfg, s, step), t) + GivesBack(s, step, t) + Loses(cfg, s, step, t)
         == Uses(s, t) + if step.Begin? then One(step.task == t) else 0
    ensures GivesBack(s, step, t) == 1 ==> !step.Begin?
  {
    hide InHands, InWork, One, Advance;
    var s' := Apply(cfg, s, step);
    match step
    case Begin(i, task) => HandsUpdate(s.submitters, i, s'.submitters[i], t);
    case Go(i) => SubmitterMovesTasks(cfg, s, i, t);
    case Take(w) => WorkUpdate(s.workers, w, s'.workers[w], t);
    case Finish(w, _) => WorkUpdate(s.workers, w, s'.workers[w], t);
    case Release(w) => WorkUpdate(s.workers, w, s'.workers[w], t);
    case Quit(w) => WorkUpdate(s.workers, w, s'.workers[w], t);
  }

  lemma PoolChanges(cfg: Config, s: State, step: Step, t: nat)
    requires Enabled(cfg, s, step)
    ensures t in Apply(cfg, s, step).made <==> t in s.made || (step.Begin? && step.task == t)
    ensures step.Begin? && step.task == t ==> t in s.pool || t !in s.made
    ensures t in Apply(cfg, s, step).pool <==> (t in s.pool && !(step.Begin? && step.task == t)) || GivesBack(s, step, t) == 1
  {}

  lemma StepKeepsSingle(cfg: Config, s: State, step: Step)
    requires Single(s) && Enabled(cfg, s, step)
    ensures Single(Apply(cfg, s, step))
    ensures forall t: nat :: GivesBack(s, step, t) == 1 ==> t !in s.pool
  {
    hide Uses, Apply, GivesBack, Loses;
    forall t: nat ensures InOnePlace(Apply(cfg, s, step), t) {
      StepMovesTasks(cfg, s, step, t);
      PoolChanges(cfg, s, step, t);
      assert InOnePlace(s, t);
    }
    forall t: nat | GivesBack(s, step, t) == 1 ensures t !in s.pool {
      assert InOnePlace(s, t);
      StepMovesTasks(cfg, s, step, t);
    }
  }

  // ----- Conservation -----

  /** The tasks of a submitter that no counter has seen yet. */
  function Uncounted(sub: Submitter): nat {
    match sub
    case Holding(_) => 1
    case Full(_) => 1
    case Evicting(_, _) => 2
    case Evicted(_, _) => 1
    case Retrying(_) => 1
    case Dropping(_) => 1
    case _ => 0
  }

  function UncountedIn(subs: seq<Submitter>): nat {
    if subs == [] then 0 else Uncounted(subs[0]) + UncountedIn(subs[1..])
  }

  function Busy(subs: seq<Submitter>): nat {
    if subs == [] then 0 else One(!subs[0].Resting?) + Busy(subs[1..])
  }

  function Handled(ws: seq<Worker>): nat {
    if ws == [] then 0 else One(ws[0].Handling?) + Handled(ws[1..])
  }

  /** Tasks that are in the queue but not yet counted as queued. */
  function CountingIn(subs: seq<Submitter>): nat {
    if subs == [] then 0 else One(subs[0].Counting?) + CountingIn(subs[1..])
  }

  /** Tasks taken out of the queue but not yet counted as dropped. */
  function EvictingIn(subs: seq<Submitter>): nat {
    if subs == [] then 0 else One(subs[0].Evicting?) + EvictingIn(subs[1..])
  }

  lemma {:induction false} SubsUpdate(subs: seq<Submitter>, i: nat, sub: Submitter)
    requires i < |subs|
    ensures UncountedIn(subs[i := sub]) == UncountedIn(subs) - Uncounted(subs[i]) + Uncounted(sub)
    ensures Busy(subs[i := sub]) == Busy(subs) - One(!subs[i].Resting?) + One(!sub.Resting?)
    ensures CountingIn(subs[i := sub]) == CountingIn(subs) - One(subs[i].Counting?) + One(sub.Counting?)
    ensures EvictingIn(subs[i := sub]) == EvictingIn(subs) - One(subs[i].Evicting?) + One(sub.Evicting?)
  {
    hide Uncounted;
    if i == 0 {
      assert subs[0 := sub][1..] == subs[1..];
    } else {
      assert subs[i := sub][1..] == subs[1..][i - 1 := sub];
      SubsUpdate(subs[1..], i - 1, sub);
    }
  }

  lemma {:induction false} HandledUpdate(ws: seq<Worker>, i: nat, w: Worker)
    requires i < |ws|
    ensures Handled(ws[i := w]) == Handled(ws) - One(ws[i].Handling?) + One(w.Handling?)
  {
    if i == 0 {
      assert ws[0 := w][1..] == ws[1..];
    } else {
      assert ws[i := w][1..] == ws[1..][i - 1 := w];
      HandledUpdate(ws[1..], i - 1, w);
    }
  }

  /** Every task submitted is counted once, or is still to be counted where it is. */
  predicate Conserved(cfg: Config, s: State) {
    && s.started == s.processed + s.errors + s.dropped + s.lost + |s.queue| + Handled(s.workers) + UncountedIn(s.submitters)
    && s.started == s.completed + Busy(s.submitters)
    && |s.queue| <= cfg.capacity
    && (!cfg.strategy.Unknown? ==> s.lost == 0)
    && s.queued + CountingIn(s.submitters) == s.processed + s.errors + |s.queue| + Handled(s.workers) + s.evicted
    && s.evicted <= s.dropped + EvictingIn(s.submitters)
    && (!cfg.strategy.DropOld? ==> s.evicted == 0)
    && (cfg.strategy.BlockWait? ==> s.dropped == 0)
    && (forall i :: 0 <= i < |s.submitters| ==> FitsStrategy(cfg, s.submitters[i]))
  }

  /** Only drop_old takes tasks out of the queue, and block_wait drops none. */
  predicate FitsStrategy(cfg: Config, sub: Submitter) {
    && (sub.Full? || sub.Evicting? || sub.Evicted? || sub.Retrying? ==> cfg.strategy.DropOld?)
    && (sub.Dropping? || sub.Returning? ==> !cfg.strategy.BlockWait?)
  }

  lemma SubmitterKeepsConserved(cfg: Config, s: State, i: nat)
    requires Conserved(cfg, s) && Enabled(cfg, s, Go(i))
    ensures Conserved(cfg, Apply(cfg, s, Go(i)))
  {
    hide UncountedIn, Busy, Handled, CountingIn, EvictingIn;
    SubsUpdate(s.submitters, i, Apply(cfg, s, Go(i)).submitters[i]);
  }

  lemma StepKeepsConserved(cfg: Config, s: State, step: Step)
    requires Conserved(cfg, s) && Enabled(cfg, s, step)
    ensures Conserved(cfg, Apply(cfg, s, step))
  {
    hide UncountedIn, Busy, Handled, CountingIn, EvictingIn, Advance;
    var s' := Apply(cfg, s, step);
    match step
    case Begin(i, task) => SubsUpdate(s.submitters, i, s'.submitters[i]);
    case Go(i) => SubmitterKeepsConserved(cfg, s, i);
    case Take(w) => HandledUpdate(s.workers, w, s'.workers[w]);
    case Finish(w, _) => HandledUpdate(s.workers, w, s'.workers[w]);
    case Release(w) => HandledUpdate(s.workers, w, s'.workers[w]);
    case Quit(w) => HandledUpdate(s.workers, w, s'.workers[w]);
  }

  lemma {:induction false} NothingAtRest(subs: seq<Submitter>, ws: seq<Worker>, t: nat)
    requires forall i :: 0 <= i < |subs| ==> subs[i].Resting?
    requires forall w :: 0 <= w < |ws| ==> ws[w].Waiting? || ws[w].Stopped?
    ensures UncountedIn(subs) == 0 && Busy(subs) == 0 && CountingIn(subs) == 0 && EvictingIn(subs) == 0 && Handled(ws) == 0 && InHands(subs, t) == 0 && InWork(ws, t) == 0
    decreases |subs| + |ws|
  {
    if subs != [] {
      NothingAtRest(subs[1..], ws, t);
    } else if ws != [] {
      NothingAtRest(subs, ws[1..], t);
    }
  }

  lemma {:induction false} RunInvariant(cfg: Config, run: seq<State>, steps: seq<Step>, n: nat)
    requires IsRun(cfg, run, steps) && n < |run|
    ensures Single(run[n]) && Conserved(cfg, run[n])
  {
    hide Apply, Enabled;
    if n == 0 {
      forall t: nat ensures InOnePlace(run[0], t) {
        NothingAtRest(run[0].submitters, run[0].workers, t);
      }
      NothingAtRest(run[0].submitters, run[0].workers, 0);
    } else {
      RunInvariant(cfg, run, steps, n - 1);
      hide Single, Conserved;
      StepKeepsSingle(cfg, run[n - 1], steps[n - 1]);
      StepKeepsConserved(cfg, run[n - 1], steps[n - 1]);
    }
  }

  // ----- Main results -----

  /** However submitters and workers interleave, at any time: the queue keeps within its capacity; the calls
      returned and those under way are the tasks counted as processed, failed or dropped, those queued or
      being handled, and those that submitters still have to count; only an unknown strategy loses tasks.
      The tasks counted as queued, or about to be, are those in the queue, handled, and taken out for
      newer ones, which only drop_old does; those are counted as dropped or about to be. */
  lemma TasksAreConserved(cfg: Config, run: seq<State>, steps: seq<Step>, n: nat)
    requires IsRun(cfg, run, steps) && n < |run|
    ensures var s := run[n];
      && |s.queue| <= cfg.capacity
      && s.completed + Busy(s.submitters)
         == s.processed + s.errors + s.dropped + s.lost + |s.queue| + Handled(s.workers) + UncountedIn(s.submitters)
      && (!cfg.strategy.Unknown? ==> s.lost == 0)
      && s.queued + CountingIn(s.submitters) == s.processed + s.errors + |s.queue| + Handled(s.workers) + s.evicted
      && s.evicted <= s.dropped + EvictingIn(s.submitters)
      && (!cfg.strategy.DropOld? ==> s.evicted == 0)
      && (cfg.strategy.BlockWait? ==> s.dropped == 0)
  {
    RunInvariant(cfg, run, steps, n);
    hide IsRun, Single;
  }

  /** When no submitter is in the middle of a call, the calls returned are those processed, failed or dropped
      and those still queued or being handled. */
  lemma RestingTasksAreConserved(cfg: Config, run: seq<State>, steps: seq<Step>, n: nat)
    requires IsRun(cfg, run, steps) && n < |run| && !cfg.strategy.Unknown?
    requires forall i :: 0 <= i < |run[n].submitters| ==> run[n].submitters[i].Resting?
    ensures var s := run[n];
      && s.completed == s.processed + s.errors + s.dropped + |s.queue| + Handled(s.workers)
      && s.queued == s.processed + s.errors + |s.queue| + Handled(s.workers) + s.evicted
      && s.evicted <= s.dropped
  {
    hide IsRun;
    TasksAreConserved(cfg, run, steps, n);
    NothingAtRest(run[n].submitters, [], 0);
  }

  /** No task is in two places; none is put into the pool that is there already, and the task a submitter
      gets from the pool, or anew, is in use nowhere else. */
  lemma NoTaskIsReturnedTwice(cfg: Config, run: seq<State>, steps: seq<Step>, n: nat, t: nat)
    requires IsRun(cfg, run, steps) && n < |steps|
    ensures Uses(run[n], t) <= 1 && (t in run[n].pool ==> Uses(run[n], t) == 0)
    ensures GivesBack(run[n], steps[n], t) == 1 ==> t !in run[n].pool
    ensures steps[n].Begin? && steps[n].task == t ==> Uses(run[n], t) == 0
  {
    RunInvariant(cfg, run, steps, n);
    assert Enabled(cfg, run[n], steps[n]);
    hide IsRun, Enabled, Uses, GivesBack, Conserved;
    StepKeepsSingle(cfg, run[n], steps[n]);
    PoolChanges(cfg, run[n], steps[n], t);
    assert InOnePlace(run[n], t);
  }

  // ----- What each strategy does -----

  /** The submitter goes on for up to `n` steps, with nobody in between, as long as it can. */
  function Alone(cfg: Config, s: State, i: nat, n: nat): State
    decreases n
  {
    if n == 0 || !Enabled(cfg, s, Go(i)) then s else Alone(cfg, Apply(cfg, s, Go(i)), i, n - 1)
  }

  function Rested(s: State, i: nat): State
    requires i < |s.submitters|
  {
    s.(submitters := s.submitters[i := Resting], completed := s.completed + 1)
  }

  /** What a Submit that is not disturbed comes to. */
  predicate Submitted(cfg: Config, s: State, i: nat, task: nat, s': State)
    requires i < |s.submitters|
  {
    if cfg.strategy.Unknown? then s' == Rested(s, i).(lost := s.lost + 1)
    else if |s.queue| < cfg.capacity then s' == Rested(s, i).(queue := s.queue + [task], queued := s.queued + 1)
    else if cfg.strategy.BlockWait? then s' == s
    else if cfg.strategy.DropNew? || s.queue == [] then
      s' == Rested(s, i).(dropped := s.dropped + 1, pool := s.pool + {task})
    else
      s' == Rested(s, i).(queue := s.queue[1..] + [task], queued := s.queued + 1,
                          dropped := s.dropped + 1, evicted := s.evicted + 1, pool := s.pool + {s.queue[0]})
  }

  lemma SetTwice(subs: seq<Submitter>, i: nat, a: Submitter, b: Submitter)
    requires i < |subs|
    ensures subs[i := a][i := b] == subs[i := b]
  {}

  lemma AloneStep(cfg: Config, s: State, i: nat, n: nat)
    requires n > 0 && Enabled(cfg, s, Go(i))
    ensures Alone(cfg, s, i, n) == Alone(cfg, Advance(cfg, s, i), i, n - 1)
  {
    hide Advance, Enabled;
  }

  lemma AloneAtRest(cfg: Config, s: State, i: nat, n: nat)
    requires i < |s.submitters| && s.submitters[i].Resting?
    ensures Alone(cfg, s, i, n) == s
  {}

  lemma FromLeaving(cfg: Config, s: State, i: nat, n: nat)
    requires i < |s.submitters| && s.submitters[i].Leaving? && n >= 1
    ensures Alone(cfg, s, i, n) == Rested(s, i)
  {
    hide Alone;
    AloneStep(cfg, s, i, n);
    AloneAtRest(cfg, Advance(cfg, s, i), i, n - 1);
  }

  lemma FromCounting(cfg: Config, s: State, i: nat, n: nat)
    requires i < |s.submitters| && s.submitters[i].Counting? && n >= 2
    ensures Alone(cfg, s, i, n) == Rested(s, i).(queued := s.queued + 1)
  {
    hide Alone;
    AloneStep(cfg, s, i, n);
    FromLeaving(cfg, Advance(cfg, s, i), i, n - 1);
    SetTwice(s.submitters, i, Leaving, Resting);
  }

  lemma FromDropping(cfg: Config, s: State, i: nat, n: nat)
    requires i < |s.submitters| && s.submitters[i].Dropping? && n >= 3
    ensures Alone(cfg, s, i, n) ==
      Rested(s, i).(dropped := s.dropped + 1, pool := s.pool + {s.submitters[i].task})
  {
    hide Alone;
    AloneStep(cfg, s, i, n);
    var s1 := Advance(cfg, s, i);
    AloneStep(cfg, s1, i, n - 1);
    FromLeaving(cfg, Advance(cfg, s1, i), i, n - 2);
    SetTwice(s.submitters, i, s1.submitters[i], Leaving);
    SetTwice(s.submitters, i, Leaving, Resting);
  }

  lemma FromRetrying(cfg: Config, s: State, i: nat, n: nat)
    requires i < |s.submitters| && s.submitters[i].Retrying? && n >= 4
    ensures Alone(cfg, s, i, n) ==
      if |s.queue| < cfg.capacity
      then Rested(s, i).(queue := s.queue + [s.submitters[i].task], queued := s.queued + 1)
      else Rested(s, i).(dropped := s.dropped + 1, pool := s.pool + {s.submitters[i].task})
  {
    hide Alone;
    AloneStep(cfg, s, i, n);
    var s1 := Advance(cfg, s, i);
    SetTwice(s.submitters, i, s1.submitters[i], Resting);
    if |s.queue| < cfg.capacity {
      FromCounting(cfg, s1, i, n - 1);
    } else {
      FromDropping(cfg, s1, i, n - 1);
    }
  }

  /** With an oldest task to make room. */
  lemma FromFull(cfg: Config, s: State, i: nat, n: nat)
    requires i < |s.submitters| && s.submitters[i].Full? && n >= 7 && s.queue != [] && |s.queue| <= cfg.capacity
    ensures Alone(cfg, s, i, n) ==
      Rested(s, i).(queue := s.queue[1..] + [s.submitters[i].task], queued := s.queued + 1,
                    dropped := s.dropped + 1, evicted := s.evicted + 1, pool := s.pool + {s.queue[0]})
  {
    hide Alone;
    AloneStep(cfg, s, i, n);
    var s1 := Advance(cfg, s, i);
    AloneStep(cfg, s1, i, n - 1);
    var s2 := Advance(cfg, s1, i);
    AloneStep(cfg, s2, i, n - 2);
    var s3 := Advance(cfg, s2, i);
    FromRetrying(cfg, s3, i, n - 3);
    SetTwice(s.submitters, i, s1.submitters[i], s2.submitters[i]);
    SetTwice(s.submitters, i, s2.submitters[i], s3.submitters[i]);
    SetTwice(s.submitters, i, s3.submitters[i], Resting);
  }

  /** With room the task is queued. Without, drop_new gives it back, drop_old gives back the oldest one and queues
      it, each counting one task as dropped, and block_wait waits. */
  lemma StrategyDecides(cfg: Config, s: State, i: nat, task: nat)
    requires i < |s.submitters| && s.submitters[i] == Holding(task) && |s.queue| <= cfg.capacity
    ensures Submitted(cfg, s, i, task, Alone(cfg, s, i, 8))
  {
    hide Alone;
    if cfg.strategy.BlockWait? && |s.queue| >= cfg.capacity {
      Waits(cfg, s, i);
    } else {
      AloneStep(cfg, s, i, 8);
      var s1 := Advance(cfg, s, i);
      SetTwice(s.submitters, i, s1.submitters[i], Resting);
      match s1.submitters[i]
      case Leaving => FromLeaving(cfg, s1, i, 7);
      case Counting => FromCounting(cfg, s1, i, 7);
      case Dropping(_) => FromDropping(cfg, s1, i, 7);
      case Full(_) =>
        if s1.queue == [] {
          FromEmpty(cfg, s1, i);
        } else {
          FromFull(cfg, s1, i, 7);
        }
    }
  }

  lemma Waits(cfg: Config, s: State, i: nat)
    requires !Enabled(cfg, s, Go(i))
    ensures Alone(cfg, s, i, 8) == s
  {}

  lemma FromEmpty(cfg: Config, s: State, i: nat)
    requires i < |s.submitters| && s.submitters[i].Full? && s.queue == []
    ensures Alone(cfg, s, i, 7) == Rested(s, i).(dropped := s.dropped + 1, pool := s.pool + {s.submitters[i].task})
  {
    hide Alone;
    AloneStep(cfg, s, i, 7);
    FromDropping(cfg, Advance(cfg, s, i), i, 6);
    SetTwice(s.submitters, i, Dropping(s.submitters[i].task), Resting);
  }

  /** How often a worker was done with a task so far, with success or with an error. */
  function Finished(steps: seq<Step>, n: nat, ok: bool): nat
    requires n <= |steps|
  {
    if n == 0 then 0 else Finished(steps, n - 1, ok) + One(steps[n - 1].Finish? && steps[n - 1].ok == ok)
  }

  /** Successes are counted as processed, and failures as errors. */
  lemma {:induction false} OutcomesAreCounted(cfg: Config, run: seq<State>, steps: seq<Step>, n: nat)
    requires IsRun(cfg, run, steps) && n < |run|
    ensures run[n].processed == Finished(steps, n, true) && run[n].errors == Finished(steps, n, false)
  {
    if n > 0 {
      OutcomesAreCounted(cfg, run, steps, n - 1);
      assert Enabled(cfg, run[n - 1], steps[n - 1]) && run[n] == Apply(cfg, run[n - 1], steps[n - 1]);
    }
  }

  // ----- First in, first out -----

  /** What a step puts into the queue: the task of a submitter that looks at it while there is room. */
  function PutBy(cfg: Config, s: State, step: Step): seq<nat> {
    if step.Go? && step.i < |s.submitters| && |s.queue| < cfg.capacity
       && ((s.submitters[step.i].Holding? && !cfg.strategy.Unknown?) || s.submitters[step.i].Retrying?)
    then [s.submitters[step.i].task] else []
  }

  /** What a worker has in hand after it took a task, and a submitter after it took the oldest one out. */
  function TakenBy(s: State, step: Step, s': State): seq<nat> {
    if step.Take? && step.w < |s'.workers| && s'.workers[step.w].Handling? then [s'.workers[step.w].task]
    else if step.Go? && step.i < |s.submitters| && s.submitters[step.i].Full?
            && step.i < |s'.submitters| && s'.submitters[step.i].Evicting? then [s'.submitters[step.i].oldest]
    else []
  }

  ghost function AllPut(cfg: Config, run: seq<State>, steps: seq<Step>, n: nat): seq<nat>
    requires n < |run| && n <= |steps|
  {
    if n == 0 then [] else AllPut(cfg, run, steps, n - 1) + PutBy(cfg, run[n - 1], steps[n - 1])
  }

  ghost function AllTaken(run: seq<State>, steps: seq<Step>, n: nat): seq<nat>
    requires n < |run| && n <= |steps|
  {
    if n == 0 then [] else AllTaken(run, steps, n - 1) + TakenBy(run[n - 1], steps[n - 1], run[n])
  }

  lemma StepIsFifo(cfg: Config, s: State, step: Step)
    requires Enabled(cfg, s, step)
    ensures s.queue + PutBy(cfg, s, step) == TakenBy(s, step, Apply(cfg, s, step)) + Apply(cfg, s, step).queue
  {
    var s' := Apply(cfg, s, step);
    if step.Take? || TakenBy(s, step, s') != [] {
      assert s.queue == [s.queue[0]] + s.queue[1..] && PutBy(cfg, s, step) == [];
      assert s.queue + [] == s.queue;
    } else {
      assert s.queue + [] == s.queue;
      assert s'.queue == s.queue + PutBy(cfg, s, step);
      assert [] + s'.queue == s'.queue;
    }
  }

  lemma Shifted(a: seq<nat>, q: seq<nat>, p: seq<nat>, b: seq<nat>, r: seq<nat>)
    requires q + p == b + r
    ensures (a + q) + p == (a + b) + r
  {
    assert (a + q) + p == a + (q + p);
    assert (a + b) + r == a + (b + r);
  }

  /** Tasks leave the queue in the order in which they were put into it, to workers and for newer ones alike. */
  lemma {:induction false} TasksLeaveInOrder(cfg: Config, run: seq<State>, steps: seq<Step>, n: nat)
    requires IsRun(cfg, run, steps) && n < |run|
    ensures AllPut(cfg, run, steps, n) == AllTaken(run, steps, n) + run[n].queue
  {
    if n > 0 {
      TasksLeaveInOrder(cfg, run, steps, n - 1);
      assert Enabled(cfg, run[n - 1], steps[n - 1]) && run[n] == Apply(cfg, run[n - 1], steps[n - 1]);
      hide PutBy, TakenBy, Apply, Enabled;
      StepIsFifo(cfg, run[n - 1], steps[n - 1]);
      Shifted(AllTaken(run, steps, n - 1), run[n - 1].queue, PutBy(cfg, run[n - 1], steps[n - 1]),
              TakenBy(run[n - 1], steps[n - 1], run[n]), run[n].queue);
    }
  }

  // ----- Nobody is stuck -----

  /** As long as a Submit is under way or a task is queued, and a worker has not stopped, somebody can go on: a
      submitter that waits for room has a worker that makes it. */
  lemma SomebodyGoesOn(cfg: Config, s: State, w: nat) returns (step: Step)
    requires w < |s.workers| && !s.workers[w].Stopped? && cfg.capacity > 0
    requires s.queue != [] || exists i :: 0 <= i < |s.submitters| && !s.submitters[i].Resting?
    ensures Enabled(cfg, s, step) && (step.Go? || step.Take? || step.Finish? || step.Release?)
  {
    match s.workers[w]
    case Handling(_) => step := Finish(w, true);
    case Releasing(_) => step := Release(w);
    case Waiting =>
      if s.queue != [] {
        step := Take(w);
      } else {
        var i :| 0 <= i < |s.submitters| && !s.submitters[i].Resting?;
        step := Go(i);
      }
  }

  /** A Submit can begin whenever the submitter rests: with any task of the pool, or a new one. */
  lemma SubmitCanBegin(cfg: Config, s: State, i: nat, unused: nat)
    requires i < |s.submitters| && s.submitters[i].Resting? && forall t :: t in s.made ==> t < unused
    ensures Enabled(cfg, s, Begin(i, unused)) && forall t :: t in s.pool ==> Enabled(cfg, s, Begin(i, t))
  {}

  // ----- An unknown strategy -----

  function HoldingIn(subs: seq<Submitter>): nat {
    if subs == [] then 0 else One(subs[0].Holding?) + HoldingIn(subs[1..])
  }

  lemma {:induction false} HoldingUpdate(subs: seq<Submitter>, i: nat, sub: Submitter)
    requires i < |subs|
    ensures HoldingIn(subs[i := sub]) == HoldingIn(subs) - One(subs[i].Holding?) + One(sub.Holding?)
  {
    if i == 0 {
      assert subs[0 := sub][1..] == subs[1..];
    } else {
      assert subs[i := sub][1..] == subs[1..][i - 1 := sub];
      HoldingUpdate(subs[1..], i - 1, sub);
    }
  }

  lemma {:induction false} NoneHolds(subs: seq<Submitter>)
    requires forall i :: 0 <= i < |subs| ==> subs[i].Resting?
    ensures HoldingIn(subs) == 0
  {
    if subs != [] {
      NoneHolds(subs[1..]);
    }
  }

  predicate AllLost(s: State) {
    && s.started == s.lost + HoldingIn(s.submitters)
    && s.queue == [] && s.pool == {} && s.queued == s.processed == s.errors == s.dropped == 0
    && (forall i :: 0 <= i < |s.submitters| ==>
          s.submitters[i].Resting? || s.submitters[i].Holding? || s.submitters[i].Leaving?)
    && (forall w :: 0 <= w < |s.workers| ==> s.workers[w].Waiting? || s.workers[w].Stopped?)
  }

  lemma StepKeepsAllLost(cfg: Config, s: State, step: Step)
    requires cfg.strategy.Unknown? && AllLost(s) && Enabled(cfg, s, step)
    ensures AllLost(Apply(cfg, s, step))
  {
    hide HoldingIn, Uses;
    if step.Begin? || step.Go? {
      HoldingUpdate(s.submitters, step.i, Apply(cfg, s, step).submitters[step.i]);
    }
  }

  /** Under a strategy other than the three, every task is lost as soon as Submit looks at the strategy: it is
      never queued, handled, counted or returned to the pool, and no Submit call fails. */
  lemma {:induction false} UnknownStrategyLosesAllTasks(cfg: Config, run: seq<State>, steps: seq<Step>, n: nat)
    requires cfg.strategy.Unknown? && IsRun(cfg, run, steps) && n < |run|
    ensures AllLost(run[n])
    decreases n
  {
    hide Apply, Enabled;
    if n == 0 {
      NoneHolds(run[0].submitters);
    } else {
      UnknownStrategyLosesAllTasks(cfg, run, steps, n - 1);
      hide AllLost;
      StepKeepsAllLost(cfg, run[n - 1], steps[n - 1]);
    }
  }
}
