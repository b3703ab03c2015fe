/** Concurrent read-through with a single flight per key (`ag/ag_cache/typed.go`), a step for every access
    to the engine, to the loader and to the flight group. */
module ReadThrough {
  import opened Options

  type Key = string
  type Value = int
  type Data = string

  /** The serializer. */
  datatype Config = Config(marshal: Value -> Option<Data>, unmarshal: Data -> Option<Value>)

  datatype Error = CacheMiss | Backend | Decode | Encode | Other(code: int)

  datatype Result = Ok(value: Value) | Err(error: Error)

  /** Where a caller of GetOrElse is; a leader runs the flight the others wait for. */
  datatype Caller =
    | Reading(key: Key)
    | Entering(key: Key)
    | Waiting(key: Key)
    | Checking(key: Key)
    | Loading(key: Key)
    | Storing(key: Key, value: Value)
    | Landing(key: Key, result: Result)
    | Done(key: Key, result: Result)

  datatype LoaderOutcome = Loaded(value: Value) | LoaderFailed(error: Error)

  datatype LoaderCall = LoaderCall(caller: nat, key: Key, outcome: LoaderOutcome)

  /** The engine's entries, the leader of each flight, the callers, and two records: who got an error other
      than a miss from the engine's Get, and every call of a loader. */
  datatype State = State(
    store: map<Key, Data>,
    flights: map<Key, nat>,
    callers: map<nat, Caller>,
    faulted: set<nat>,
    loads: seq<LoaderCall>)

  datatype SetOutcome = Stored | NotStored | SetPanics

  datatype Step =
    | Call(i: nat, key: Key)
    | Read(i: nat, fault: bool)                  // the first look
    | Enter(i: nat)                              // joins the flight of the key, or leads a new one
    | Check(i: nat, fault: bool)                 // the leader looks again
    | Load(i: nat, outcome: LoaderOutcome)
    | Store(i: nat, written: SetOutcome)
    | Land(i: nat)                               // the flight ends
    | Change(key: Key, data: Option<Data>)       // another writer, a deletion or an eviction

  predicate IsLeader(c: Caller) {
    c.Checking? || c.Loading? || c.Storing? || c.Landing?
  }

  predicate Enabled(s: State, step: Step) {
    match step
    case Call(i, _) => i !in s.callers
    case Read(i, _) => i in s.callers && s.callers[i].Reading?
    case Enter(i) => i in s.callers && s.callers[i].Entering?
    case Check(i, _) => i in s.callers && s.callers[i].Checking?
    case Load(i, _) => i in s.callers && s.callers[i].Loading?
    case Store(i, _) => i in s.callers && s.callers[i].Storing?
    case Land(i) => i in s.callers && s.callers[i].Landing?
    case Change(_, _) => true
  }

  function Decoded(cfg: Config, data: Data): Result {
    match cfg.unmarshal(data)
    case None => Err(Decode)
    case Some(v) => Ok(v)
  }

  function Move(s: State, i: nat, c: Caller): State {
    s.(callers := s.callers[i := c])
  }

  /** The flight ends: the leader and everybody who waits get the same result. */
  function Landed(s: State, i: nat, key: Key, r: Result): State {
    s.(flights := s.flights - {key},
       callers := map j | j in s.callers ::
         if j == i || s.callers[j] == Waiting(key) then Done(key, r) else s.callers[j])
  }

  function Apply(cfg: Config, s: State, step: Step): State
    requires Enabled(s, step)
  {
    match step
    case Call(i, key) => Move(s, i, Reading(key))
    case Read(i, fault) =>
      var key := s.callers[i].key;
      if fault then Move(s.(faulted := s.faulted + {i}), i, Done(key, Err(Backend)))
      else if key in s.store then Move(s, i, Done(key, Decoded(cfg, s.store[key])))
      else Move(s, i, Entering(key))
    case Enter(i) =>
      var key := s.callers[i].key;
      if key in s.flights then Move(s, i, Waiting(key))
      else Move(s.(flights := s.flights[key := i]), i, Checking(key))
    case Check(i, fault) =>
      var key := s.callers[i].key;
      if fault then Move(s.(faulted := s.faulted + {i}), i, Landing(key, Err(Backend)))
      else if key in s.store then Move(s, i, Landing(key, Decoded(cfg, s.store[key])))
      else Move(s, i, Loading(key))
    case Load(i, outcome) =>
      var key := s.callers[i].key;
      var s' := s.(loads := s.loads + [LoaderCall(i, key, outcome)]);
      (match outcome
       case Loaded(v) => Move(s', i, Storing(key, v))
       case LoaderFailed(e) => Move(s', i, Landing(key, Err(e))))
    case Store(i, outcome) =>
      var (key, v) := (s.callers[i].key, s.callers[i].value);
      (match cfg.marshal(v)
       case None => Move(s, i, Landing(key, Err(Encode)))
       case Some(data) =>
         match outcome
         case Stored => Move(s.(store := s.store[key := data]), i, Landing(key, Ok(v)))
         case NotStored => Move(s, i, Landing(key, Ok(v)))
         case SetPanics => Move(s, i, Landing(key, Err(Backend))))
    case Land(i) => Landed(s, i, s.callers[i].key, s.callers[i].result)
    case Change(key, data) =>
      s.(store := if data.None? then s.store - {key} else s.store[key := data.value])
  }

  ghost predicate Init(s: State) {
    s.flights == map[] && s.callers == map[] && s.faulted == {} && s.loads == []
  }

  ghost predicate IsRun(cfg: Config, run: seq<State>, steps: seq<Step>) {
    && |run| == |steps| + 1 && Init(run[0])
    && forall i :: 0 <= i < |steps| ==> Enabled(run[i], steps[i]) && run[i + 1] == Apply(cfg, run[i], steps[i])
  }

  // ----- One flight per key -----

  /** How a caller stands to the flight of its key: a leader is registered for it, and who waits has one to
      wait for. */
  predicate InFlight(s: State, i: nat) {
    i in s.callers ==>
      && (IsLeader(s.callers[i]) ==> s.callers[i].key in s.flights && s.flights[s.callers[i].key] == i)
      && (s.callers[i].Waiting? ==> s.callers[i].key in s.flights)
  }

  predicate HasLeader(s: State, key: Key) {
    key in s.flights ==>
      && s.flights[key] in s.callers
      && IsLeader(s.callers[s.flights[key]]) && s.callers[s.flights[key]].key == key
  }

  /** The caller has its result, or is about to share it. */
  predicate HasResult(c: Caller) {
    c.Landing? || c.Done?
  }

  /** A caller that saw the engine fail has that for its result, and is not among those who called a loader. */
  predicate FaultIsFinal(s: State, i: nat) {
    i in s.faulted ==>
      && i in s.callers && HasResult(s.callers[i]) && s.callers[i].result == Err(Backend)
      && forall k :: 0 <= k < |s.loads| ==> s.loads[k].caller != i
  }

  /** A caller calls the loader at most once, for its own key, and as a leader. */
  predicate LoadIsOwn(s: State, k: nat)
    requires k < |s.loads|
  {
    var call := s.loads[k];
    && call.caller in s.callers && s.callers[call.caller].key == call.key
    && (match s.callers[call.caller]
        case Storing(_, v) => call.outcome == Loaded(v)
        case Landing(_, _) => true
        case Done(_, _) => true
        case _ => false)
  }

  /** A loader of the key failed with this error. */
  predicate Failed(loads: seq<LoaderCall>, key: Key, e: Error) {
    exists k :: 0 <= k < |loads| && loads[k].key == key && loads[k].outcome == LoaderFailed(e)
  }

  lemma FailedOfMore(loads: seq<LoaderCall>, call: LoaderCall, key: Key, e: Error)
    ensures Failed(loads, key, e) ==> Failed(loads + [call], key, e)
    ensures call.key == key && call.outcome == LoaderFailed(e) ==> Failed(loads + [call], key, e)
  {
    if Failed(loads, key, e) {
      var k :| 0 <= k < |loads| && loads[k].key == key && loads[k].outcome == LoaderFailed(e);
      assert (loads + [call])[k] == loads[k];
    }
    assert (loads + [call])[|loads|] == call;
  }

  /** Errors have a cause: only a loader brings a miss or an error of its own. */
  predicate ErrorHasCause(s: State, i: nat) {
    i in s.callers && HasResult(s.callers[i]) && s.callers[i].result.Err? ==>
      var e := s.callers[i].result.error;
      e.Backend? || e.Decode? || e.Encode?
      || Failed(s.loads, s.callers[i].key, e)
  }

  ghost predicate Sound(s: State) {
    && (forall i :: InFlight(s, i))
    && (forall key :: HasLeader(s, key))
    && (forall i :: FaultIsFinal(s, i))
    && (forall k :: 0 <= k < |s.loads| ==> LoadIsOwn(s, k))
    && (forall i :: ErrorHasCause(s, i))
    && (forall k, m :: 0 <= k < m < |s.loads| ==> s.loads[k].caller != s.loads[m].caller)
  }

  lemma StepKeepsFlights(cfg: Config, s: State, step: Step)
    requires Sound(s) && Enabled(s, step)
    ensures forall i :: InFlight(Apply(cfg, s, step), i)
  {
    hide FaultIsFinal, LoadIsOwn, ErrorHasCause, Decoded;
    var s' := Apply(cfg, s, step);
    forall i ensures InFlight(s', i) {
      assert InFlight(s, i);
      if !step.Change? {
        assert InFlight(s, step.i);
      }
    }
  }

  lemma StepKeepsLeaders(cfg: Config, s: State, step: Step)
    requires Sound(s) && Enabled(s, step)
    ensures forall key :: HasLeader(Apply(cfg, s, step), key)
  {
    hide FaultIsFinal, LoadIsOwn, ErrorHasCause, Decoded;
    var s' := Apply(cfg, s, step);
    forall key ensures HasLeader(s', key) {
      assert HasLeader(s, key);
      if !step.Change? {
        assert InFlight(s, step.i);
      }
    }
  }

  lemma StepKeepsFaults(cfg: Config, s: State, step: Step)
    requires Sound(s) && Enabled(s, step)
    ensures forall i :: FaultIsFinal(Apply(cfg, s, step), i)
  {
    hide InFlight, HasLeader, ErrorHasCause, Decoded;
    var s' := Apply(cfg, s, step);
    forall i ensures FaultIsFinal(s', i) {
      assert FaultIsFinal(s, i);
      if i in s'.faulted {
        forall k | 0 <= k < |s'.loads| ensures s'.loads[k].caller != i {
          assert k < |s.loads| ==> LoadIsOwn(s, k);
        }
      }
    }
  }

  lemma StepKeepsLoads(cfg: Config, s: State, step: Step)
    requires Sound(s) && Enabled(s, step)
    ensures forall k :: 0 <= k < |Apply(cfg, s, step).loads| ==> LoadIsOwn(Apply(cfg, s, step), k)
  {
    hide InFlight, HasLeader, FaultIsFinal, ErrorHasCause, Decoded;
    var s' := Apply(cfg, s, step);
    forall k | 0 <= k < |s'.loads| ensures LoadIsOwn(s', k) {
      assert k < |s.loads| ==> LoadIsOwn(s, k);
    }
  }

  lemma StepKeepsLoadersApart(cfg: Config, s: State, step: Step)
    requires Sound(s) && Enabled(s, step)
    ensures var s' := Apply(cfg, s, step);
      forall k, m :: 0 <= k < m < |s'.loads| ==> s'.loads[k].caller != s'.loads[m].caller
  {
    hide InFlight, HasLeader, FaultIsFinal, ErrorHasCause, Decoded, Landed;
    var s' := Apply(cfg, s, step);
    LandedKeepsLoads();
    forall k, m | 0 <= k < m < |s'.loads| ensures s'.loads[k].caller != s'.loads[m].caller {
      assert LoadIsOwn(s, k);
    }
  }

  lemma LandedKeepsLoads()
    ensures forall s, i, key, r :: Landed(s, i, key, r).loads == s.loads
  {}

  lemma ErrorKeepsCause(cfg: Config, s: State, step: Step, i: nat)
    requires ErrorHasCause(s, i) && Enabled(s, step) && (step.Change? || ErrorHasCause(s, step.i))
    ensures ErrorHasCause(Apply(cfg, s, step), i)
  {
    hide Failed;
    var s' := Apply(cfg, s, step);
    if step.Load? && i in s'.callers && HasResult(s'.callers[i]) && s'.callers[i].result.Err? {
      FailedOfMore(s.loads, LoaderCall(step.i, s.callers[step.i].key, step.outcome), s'.callers[i].key,
                   s'.callers[i].result.error);
    }
  }

  lemma StepKeepsErrors(cfg: Config, s: State, step: Step)
    requires Sound(s) && Enabled(s, step)
    ensures forall i :: ErrorHasCause(Apply(cfg, s, step), i)
  {
    hide Apply, Enabled, InFlight, HasLeader, FaultIsFinal, LoadIsOwn, ErrorHasCause;
    assert step.Change? || ErrorHasCause(s, step.i);
    forall i ensures ErrorHasCause(Apply(cfg, s, step), i) {
      ErrorKeepsCause(cfg, s, step, i);
    }
  }

  lemma {:induction false} RunIsSound(cfg: Config, run: seq<State>, steps: seq<Step>, n: nat)
    requires IsRun(cfg, run, steps) && n < |run|
    ensures Sound(run[n])
  {
    if n > 0 {
      RunIsSound(cfg, run, steps, n - 1);
      var s, step := run[n - 1], steps[n - 1];
      assert Enabled(s, step) && run[n] == Apply(cfg, s, step);
      hide IsRun, Apply, InFlight, HasLeader, FaultIsFinal, LoadIsOwn, ErrorHasCause;
      StepKeepsFlights(cfg, s, step);
      StepKeepsFaults(cfg, s, step);
      StepKeepsLeaders(cfg, s, step);
      StepKeepsLoads(cfg, s, step);
      StepKeepsLoadersApart(cfg, s, step);
      StepKeepsErrors(cfg, s, step);
    }
  }

  predicate Leads(s: State, i: nat) {
    i in s.callers && IsLeader(s.callers[i])
  }

  /** In every run: a key has at most one leader at a time; whoever waits waits for one, so that nobody is
      left behind; no caller calls a loader twice; a caller that met an engine error other than a miss
      never calls one; and a miss is returned only if a loader returned it. */
  lemma FlightsAreSound(cfg: Config, run: seq<State>, steps: seq<Step>, n: nat)
    requires IsRun(cfg, run, steps) && n < |run|
    ensures var s := run[n];
      && (forall i, j :: Leads(s, i) && Leads(s, j) && s.callers[i].key == s.callers[j].key ==> i == j)
      && (forall i :: i in s.callers && s.callers[i].Waiting? ==>
            exists j :: Leads(s, j) && s.callers[j].key == s.callers[i].key)
      && (forall k, m :: 0 <= k < m < |s.loads| ==> s.loads[k].caller != s.loads[m].caller)
      && (forall k :: 0 <= k < |s.loads| ==> s.loads[k].caller !in s.faulted)
      && (forall i :: i in s.callers && s.callers[i].Done? && s.callers[i].result == Err(CacheMiss) ==>
            Failed(s.loads, s.callers[i].key, CacheMiss))
  {
    RunIsSound(cfg, run, steps, n);
    var s := run[n];
    hide IsRun;
    forall i, j | Leads(s, i) && Leads(s, j) && s.callers[i].key == s.callers[j].key ensures i == j {
      assert InFlight(s, i) && InFlight(s, j);
    }
    forall i | i in s.callers && s.callers[i].Waiting?
      ensures exists j :: Leads(s, j) && s.callers[j].key == s.callers[i].key
    {
      assert InFlight(s, i) && HasLeader(s, s.callers[i].key);
      assert Leads(s, s.flights[s.callers[i].key]);
    }
    forall k | 0 <= k < |s.loads| ensures s.loads[k].caller !in s.faulted {
      assert FaultIsFinal(s, s.loads[k].caller);
    }
    forall i | i in s.callers && s.callers[i].Done? && s.callers[i].result == Err(CacheMiss)
      ensures Failed(s.loads, s.callers[i].key, CacheMiss)
    {
      assert ErrorHasCause(s, i);
    }
  }

  // ----- Where a result comes from -----

  /** What a step decides for its caller: a failing engine, a hit, a failing loader, or the end of the write. */
  function Verdict(cfg: Config, s: State, step: Step): Option<Result>
    requires Enabled(s, step)
  {
    match step
    case Read(i, fault) => Seen(cfg, s, s.callers[i].key, fault)
    case Check(i, fault) => Seen(cfg, s, s.callers[i].key, fault)
    case Load(_, LoaderFailed(e)) => Some(Err(e))
    case Store(i, written) =>
      if cfg.marshal(s.callers[i].value).None? then Some(Err(Encode))
      else if written.SetPanics? then Some(Err(Backend))
      else Some(Ok(s.callers[i].value))
    case _ => None
  }

  /** A look at the engine. */
  function Seen(cfg: Config, s: State, key: Key, fault: bool): Option<Result> {
    if fault then Some(Err(Backend))
    else if key !in s.store then None
    else if cfg.unmarshal(s.store[key]).None? then Some(Err(Decode))
    else Some(Ok(cfg.unmarshal(s.store[key]).value))
  }

  /** The step decided this result for a caller of the key. */
  predicate Decides(cfg: Config, s: State, step: Step, key: Key, r: Result) {
    && Enabled(s, step) && Verdict(cfg, s, step) == Some(r)
    && step.i in s.callers && s.callers[step.i].key == key
  }

  lemma StepDecides(cfg: Config, s: State, step: Step)
    requires Sound(s) && Enabled(s, step) && Verdict(cfg, s, step).Some?
    ensures var s', i := Apply(cfg, s, step), step.i;
      && i in s'.callers && HasResult(s'.callers[i]) && s'.callers[i].result == Verdict(cfg, s, step).value
  {
    hide Sound;
  }

  lemma ResultStays(cfg: Config, s: State, step: Step, i: nat)
    requires Sound(s) && Enabled(s, step) && i in s.callers && HasResult(s.callers[i])
    ensures var s' := Apply(cfg, s, step);
      i in s'.callers && HasResult(s'.callers[i]) && s'.callers[i].result == s.callers[i].result
  {
    assert InFlight(s, i);
    assert !step.Change? ==> InFlight(s, step.i);
    hide Sound, Decoded;
  }

  /** What is decided for a caller is what it returns: an engine that fails at the first look or the second, in
      particular, ends the call, and so does a hit. */
  lemma {:induction false} DecisionIsKept(cfg: Config, run: seq<State>, steps: seq<Step>, k: nat, n: nat)
    requires IsRun(cfg, run, steps) && k < n < |run| && Enabled(run[k], steps[k]) && Verdict(cfg, run[k], steps[k]).Some?
    ensures var i := steps[k].i;
      && i in run[n].callers && HasResult(run[n].callers[i])
      && run[n].callers[i].result == Verdict(cfg, run[k], steps[k]).value
    decreases n
  {
    RunIsSound(cfg, run, steps, n - 1);
    assert Enabled(run[n - 1], steps[n - 1]) && run[n] == Apply(cfg, run[n - 1], steps[n - 1]);
    hide Sound, Apply, Verdict;
    if n - 1 == k {
      StepDecides(cfg, run[k], steps[k]);
    } else {
      DecisionIsKept(cfg, run, steps, k, n - 1);
      ResultStays(cfg, run[n - 1], steps[n - 1], steps[k].i);
    }
  }

  ghost predicate WasDecided(cfg: Config, run: seq<State>, steps: seq<Step>, n: nat, key: Key, r: Result)
    requires n <= |run| && n <= |steps|
  {
    exists k :: 0 <= k < n && Decides(cfg, run[k], steps[k], key, r)
  }

  /** A caller that has a result has it from a step of its own, or from the one whose flight it waited for. */
  lemma NewResult(cfg: Config, s: State, step: Step, i: nat)
    requires Sound(s) && Enabled(s, step) && i in Apply(cfg, s, step).callers && HasResult(Apply(cfg, s, step).callers[i])
    ensures var c := Apply(cfg, s, step).callers[i];
      || Decides(cfg, s, step, c.key, c.result)
      || (i in s.callers && HasResult(s.callers[i]) && s.callers[i].key == c.key && s.callers[i].result == c.result)
      || (step.Land? && s.callers[step.i].key == c.key && s.callers[step.i].result == c.result)
  {
    hide Sound;
  }

  /** Every result was decided at some step for a caller of the same key. */
  lemma {:induction false} ResultIsDecided(cfg: Config, run: seq<State>, steps: seq<Step>, n: nat, i: nat)
    requires IsRun(cfg, run, steps) && n < |run| && i in run[n].callers && HasResult(run[n].callers[i])
    ensures WasDecided(cfg, run, steps, n, run[n].callers[i].key, run[n].callers[i].result)
    decreases n
  {
    if n > 0 {
      RunIsSound(cfg, run, steps, n - 1);
      var s, step := run[n - 1], steps[n - 1];
      assert Enabled(s, step) && run[n] == Apply(cfg, s, step);
      NewResult(cfg, s, step, i);
      hide Sound, Apply, Decides;
      var c := run[n].callers[i];
      if i in s.callers && HasResult(s.callers[i]) && s.callers[i].key == c.key && s.callers[i].result == c.result {
        ResultIsDecided(cfg, run, steps, n - 1, i);
      } else if !Decides(cfg, s, step, c.key, c.result) {
        ResultIsDecided(cfg, run, steps, n - 1, step.i);
      }
    }
  }

  /** When a flight ends, everybody who waits for it has the result of its leader. */
  lemma LandingIsShared(cfg: Config, run: seq<State>, steps: seq<Step>, n: nat, i: nat)
    requires IsRun(cfg, run, steps) && n < |steps| && steps[n].Land? && i in run[n].callers
    requires steps[n].i in run[n].callers && run[n].callers[steps[n].i].Landing?
    requires i == steps[n].i || run[n].callers[i] == Waiting(run[n].callers[steps[n].i].key)
    ensures i in run[n + 1].callers
    ensures run[n + 1].callers[i] == Done(run[n].callers[steps[n].i].key, run[n].callers[steps[n].i].result)
    ensures run[n].callers[steps[n].i].key !in run[n + 1].flights
  {
    assert Enabled(run[n], steps[n]) && run[n + 1] == Apply(cfg, run[n], steps[n]);
  }

  /** Entries change only by a write that succeeds, of what was loaded, and by others. */
  lemma EntriesChangeOnlyByWrites(cfg: Config, run: seq<State>, steps: seq<Step>, n: nat, key: Key)
    requires IsRun(cfg, run, steps) && n < |steps|
    ensures var s, s', step := run[n], run[n + 1], steps[n];
      match step
      case Change(k, data) =>
        if k == key && data.None? then key !in s'.store
        else if k == key then key in s'.store && s'.store[key] == data.value
        else (key in s'.store <==> key in s.store) && (key in s.store ==> s'.store[key] == s.store[key])
      case Store(i, Stored) =>
        if i in s.callers && s.callers[i] == Storing(key, s.callers[i].value) && cfg.marshal(s.callers[i].value).Some?
        then key in s'.store && s'.store[key] == cfg.marshal(s.callers[i].value).value
        else (key in s'.store <==> key in s.store) && (key in s.store ==> s'.store[key] == s.store[key])
      case _ => s'.store == s.store
  {
    assert Enabled(run[n], steps[n]) && run[n + 1] == Apply(cfg, run[n], steps[n]);
  }

  // ----- One successful load per key -----

  /** Every value can be written and read back. */
  ghost predicate RoundTrips(cfg: Config) {
    forall v :: cfg.marshal(v).Some? && cfg.unmarshal(cfg.marshal(v).value) == Some(v)
  }

  /** Nobody else touches the entry, and what is written stays. */
  predicate Calm(step: Step, key: Key) {
    && (step.Change? ==> step.key != key)
    && (step.Store? ==> step.written.Stored?)
  }

  /** The values loaded for a key. */
  function Wins(loads: seq<LoaderCall>, key: Key): seq<Value> {
    if loads == [] then []
    else
      var last := loads[|loads| - 1];
      Wins(loads[..|loads| - 1], key) + if last.key == key && last.outcome.Loaded? then [last.outcome.value] else []
  }

  lemma WinsOfMore(loads: seq<LoaderCall>, call: LoaderCall, key: Key)
    ensures Wins(loads + [call], key) ==
      Wins(loads, key) + if call.key == key && call.outcome.Loaded? then [call.outcome.value] else []
  {
    assert (loads + [call])[..|loads|] == loads;
  }

  /** The value loaded is in the engine, or its leader is about to put it there. */
  ghost predicate Settled(cfg: Config, s: State, key: Key) {
    var wins := Wins(s.loads, key);
    && |wins| <= 1
    && (wins == [] ==> key !in s.store)
    && (wins != [] ==>
          || (key in s.store && Some(s.store[key]) == cfg.marshal(wins[0]))
          || (key !in s.store && key in s.flights && s.flights[key] in s.callers
              && s.callers[s.flights[key]] == Storing(key, wins[0])))
  }

  predicate CallerSettled(s: State, key: Key, i: nat) {
    i in s.callers && s.callers[i].key == key ==>
      match s.callers[i]
      case Loading(_) => Wins(s.loads, key) == []
      case Storing(_, v) => Wins(s.loads, key) == [v]
      case Landing(_, Ok(v)) => Wins(s.loads, key) == [v]
      case Landing(_, Err(e)) => e.Backend? || Failed(s.loads, key, e)
      case Done(_, Ok(v)) => Wins(s.loads, key) == [v]
      case Done(_, Err(e)) => e.Backend? || Failed(s.loads, key, e)
      case _ => true
  }

  ghost predicate OneLoad(cfg: Config, s: State, key: Key) {
    Settled(cfg, s, key) && forall i :: CallerSettled(s, key, i)
  }

  lemma StepKeepsSettled(cfg: Config, s: State, step: Step, key: Key)
    requires RoundTrips(cfg) && Sound(s) && OneLoad(cfg, s, key) && Enabled(s, step) && Calm(step, key)
    ensures Settled(cfg, Apply(cfg, s, step), key)
  {
    hide Wins, HasLeader, FaultIsFinal, LoadIsOwn, ErrorHasCause;
    if step.Load? {
      WinsOfMore(s.loads, LoaderCall(step.i, s.callers[step.i].key, step.outcome), key);
    }
    if !step.Change? {
      assert InFlight(s, step.i) && CallerSettled(s, key, step.i);
    }
  }

  lemma RoundTrip(cfg: Config, v: Value)
    requires RoundTrips(cfg)
    ensures cfg.marshal(v).Some? && Decoded(cfg, cfg.marshal(v).value) == Ok(v)
  {}

  lemma CallerStaysSettled(cfg: Config, s: State, step: Step, key: Key, i: nat)
    requires Settled(cfg, s, key) && Enabled(s, step) && Calm(step, key) && CallerSettled(s, key, i) && InFlight(s, i)
    requires step.Change? || (CallerSettled(s, key, step.i) && InFlight(s, step.i))
    requires step.Store? ==> cfg.marshal(s.callers[step.i].value).Some?
    requires Wins(s.loads, key) != [] ==>
      Wins(s.loads, key) == [Wins(s.loads, key)[0]] && cfg.marshal(Wins(s.loads, key)[0]).Some?
      && Decoded(cfg, cfg.marshal(Wins(s.loads, key)[0]).value) == Ok(Wins(s.loads, key)[0])
    ensures CallerSettled(Apply(cfg, s, step), key, i)
  {
    hide Wins, Failed, Decoded;
    if step.Load? {
      var call := LoaderCall(step.i, s.callers[step.i].key, step.outcome);
      WinsOfMore(s.loads, call, key);
      if i in s.callers && HasResult(s.callers[i]) && s.callers[i].result.Err? {
        FailedOfMore(s.loads, call, key, s.callers[i].result.error);
      }
      if step.outcome.LoaderFailed? {
        FailedOfMore(s.loads, call, key, step.outcome.error);
      }
    }
  }

  lemma StepKeepsCallersSettled(cfg: Config, s: State, step: Step, key: Key)
    requires RoundTrips(cfg) && Sound(s) && OneLoad(cfg, s, key) && Enabled(s, step) && Calm(step, key)
    ensures forall i :: CallerSettled(Apply(cfg, s, step), key, i)
  {
    hide Wins, HasLeader, FaultIsFinal, LoadIsOwn, ErrorHasCause, Failed, Apply, RoundTrips, CallerSettled, InFlight, Decoded;
    if Wins(s.loads, key) != [] {
      RoundTrip(cfg, Wins(s.loads, key)[0]);
    }
    if step.Store? {
      RoundTrip(cfg, s.callers[step.i].value);
    }
    forall i ensures CallerSettled(Apply(cfg, s, step), key, i) {
      CallerStaysSettled(cfg, s, step, key, i);
    }
  }

  lemma {:induction false} RunLoadsOnce(cfg: Config, run: seq<State>, steps: seq<Step>, n: nat, key: Key)
    requires IsRun(cfg, run, steps) && n < |run| && RoundTrips(cfg)
    requires key !in run[0].store && forall k :: 0 <= k < |steps| ==> Calm(steps[k], key)
    ensures OneLoad(cfg, run[n], key)
  {
    if n > 0 {
      RunLoadsOnce(cfg, run, steps, n - 1, key);
      RunIsSound(cfg, run, steps, n - 1);
      assert Enabled(run[n - 1], steps[n - 1]) && run[n] == Apply(cfg, run[n - 1], steps[n - 1]);
      hide Sound, Apply, Settled, CallerSettled, RoundTrips, Wins;
      StepKeepsSettled(cfg, run[n - 1], steps[n - 1], key);
      StepKeepsCallersSettled(cfg, run[n - 1], steps[n - 1], key);
    }
  }

  /** A finished call has the value loaded, the engine's fault, or the error of a loader. */
  predicate ReturnsWhatWasLoaded(s: State, key: Key, i: nat) {
    i in s.callers && s.callers[i].Done? && s.callers[i].key == key ==>
      match s.callers[i].result
      case Ok(v) => Wins(s.loads, key) == [v]
      case Err(e) => e.Backend? || Failed(s.loads, key, e)
  }

  /** However the callers interleave: for a key that is not cached at first, whose entry nobody else
      touches, and with a serializer that brings values back, a loader succeeds at most once. Every call
      that returns a value returns that one; any other returns the engine's fault or a loader's error. */
  lemma LoaderSucceedsAtMostOnce(cfg: Config, run: seq<State>, steps: seq<Step>, n: nat, key: Key)
    requires IsRun(cfg, run, steps) && n < |run| && RoundTrips(cfg)
    requires key !in run[0].store && forall k :: 0 <= k < |steps| ==> Calm(steps[k], key)
    ensures |Wins(run[n].loads, key)| <= 1
    ensures forall i :: ReturnsWhatWasLoaded(run[n], key, i)
  {
    hide IsRun, Wins, Failed;
    RunLoadsOnce(cfg, run, steps, n, key);
    forall i ensures ReturnsWhatWasLoaded(run[n], key, i) {
      assert CallerSettled(run[n], key, i);
    }
  }

  // ----- Any run: a load for every loss -----

  /** The step removes an entry of the key, or a value loaded for it is not written. */
  predicate Loses(cfg: Config, s: State, step: Step, key: Key)
    requires Enabled(s, step)
  {
    match step
    case Change(k, data) => k == key && key in s.store && data.None?
    case Store(i, written) =>
      s.callers[i].key == key && (cfg.marshal(s.callers[i].value).None? || !written.Stored?)
    case _ => false
  }

  ghost function Losses(cfg: Config, run: seq<State>, steps: seq<Step>, n: nat, key: Key): nat
    requires IsRun(cfg, run, steps) && n < |run|
  {
    if n == 0 then 0
    else Losses(cfg, run, steps, n - 1, key) + if Loses(cfg, run[n - 1], steps[n - 1], key) then 1 else 0
  }

  /** The key has an entry, or its leader is about to write one. */
  predicate Present(s: State, key: Key) {
    key in s.store || (key in s.flights && s.flights[key] in s.callers && s.callers[s.flights[key]].Storing?)
  }

  /** A key with an entry to begin with has been loaded as often as it was lost, one that had none once more;
      an entry that is missing has been lost or not been loaded. */
  predicate Balanced(s: State, key: Key, start: nat, losses: nat) {
    && |Wins(s.loads, key)| + start <= losses + (if Present(s, key) then 1 else 0)
    && (key in s.flights && s.flights[key] in s.callers && s.callers[s.flights[key]].Loading? ==>
          |Wins(s.loads, key)| + start <= losses)
  }

  lemma StepKeepsBalance(cfg: Config, s: State, step: Step, key: Key, start: nat, losses: nat)
    requires Sound(s) && Enabled(s, step) && Balanced(s, key, start, losses)
    ensures Balanced(Apply(cfg, s, step), key, start, losses + if Loses(cfg, s, step, key) then 1 else 0)
  {
    hide Wins, FaultIsFinal, LoadIsOwn, ErrorHasCause, Decoded;
    assert HasLeader(s, key);
    if step.Load? {
      WinsOfMore(s.loads, LoaderCall(step.i, s.callers[step.i].key, step.outcome), key);
    }
    if !step.Change? {
      assert InFlight(s, step.i);
    }
  }

  lemma {:induction false} RunIsBalanced(cfg: Config, run: seq<State>, steps: seq<Step>, n: nat, key: Key)
    requires IsRun(cfg, run, steps) && n < |run|
    ensures Balanced(run[n], key, if key in run[0].store then 1 else 0, Losses(cfg, run, steps, n, key))
  {
    if n > 0 {
      RunIsBalanced(cfg, run, steps, n - 1, key);
      RunIsSound(cfg, run, steps, n - 1);
      assert Enabled(run[n - 1], steps[n - 1]) && run[n] == Apply(cfg, run[n - 1], steps[n - 1]);
      hide Sound, Apply, Balanced, Loses;
      StepKeepsBalance(cfg, run[n - 1], steps[n - 1], key, if key in run[0].store then 1 else 0,
                       Losses(cfg, run, steps, n - 1, key));
    }
  }

  /** In any run, with any serializer and whoever else changes the entry: a loader of a key succeeds at most
      once for each time an entry is removed or a loaded value is not written, and once more when the key
      had no entry to begin with. */
  lemma LoadsAreBoundedByLosses(cfg: Config, run: seq<State>, steps: seq<Step>, n: nat, key: Key)
    requires IsRun(cfg, run, steps) && n < |run|
    ensures |Wins(run[n].loads, key)| <=
      Losses(cfg, run, steps, n, key) + if key in run[0].store then 0 else 1
  {
    hide IsRun, Wins, Losses;
    RunIsBalanced(cfg, run, steps, n, key);
  }

  // ----- A cached key -----

  ghost predicate StaysCached(cfg: Config, s: State, key: Key, data: Data) {
    && key in s.store && s.store[key] == data
    && (forall k :: 0 <= k < |s.loads| ==> s.loads[k].key != key)
    && (forall i :: CachedCaller(cfg, s, key, data, i))
  }

  predicate CachedCaller(cfg: Config, s: State, key: Key, data: Data, i: nat) {
    i in s.callers && s.callers[i].key == key ==>
      match s.callers[i]
      case Reading(_) => true
      case Done(_, r) => r == Decoded(cfg, data) || r == Err(Backend)
      case _ => false
  }

  lemma StepStaysCached(cfg: Config, s: State, step: Step, key: Key, data: Data)
    requires StaysCached(cfg, s, key, data) && Enabled(s, step) && Calm(step, key)
    ensures StaysCached(cfg, Apply(cfg, s, step), key, data)
  {
    hide Decoded;
    var s' := Apply(cfg, s, step);
    assert step.Change? || CachedCaller(cfg, s, key, data, step.i);
    forall k | 0 <= k < |s'.loads| ensures s'.loads[k].key != key {
      assert step.Load? ==> CachedCaller(cfg, s, key, data, step.i);
    }
    forall i ensures CachedCaller(cfg, s', key, data, i) {
      assert CachedCaller(cfg, s, key, data, i);
    }
  }

  /** A key that is cached and left alone is never loaded: every call returns its value, or the engine's
      fault. */
  lemma {:induction false} CachedKeyIsNotLoaded(cfg: Config, run: seq<State>, steps: seq<Step>, n: nat, key: Key, data: Data)
    requires IsRun(cfg, run, steps) && n < |run|
    requires key in run[0].store && run[0].store[key] == data && forall k :: 0 <= k < |steps| ==> Calm(steps[k], key)
    ensures StaysCached(cfg, run[n], key, data)
  {
    hide Apply, Enabled;
    if n > 0 {
      CachedKeyIsNotLoaded(cfg, run, steps, n - 1, key, data);
      StepStaysCached(cfg, run[n - 1], steps[n - 1], key, data);
    }
  }
}
