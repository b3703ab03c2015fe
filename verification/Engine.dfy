/** The event loops of an engine and the dialling clients as one state machine, a step for every access to
    what they share (`contribute/agonet/event_loop.go`, `contribute/agonet/client.go`,
    `contribute/agonet/agonet.go`). */
module Engine {

  const MAX_INT32 := 0x7fff_ffff
  const EVENT_LOOPS_MAX := 256

  /** What a 32-bit counter holds after an addition. */
  function Wrap32(x: int): int {
    (x + MAX_INT32 + 1) % 0x1_0000_0000 - MAX_INT32 - 1
  }

  function DetermineEventLoops(multicore: bool, cpus: nat, configured: int): (loops: int)
    requires cpus > 0
    ensures 1 <= loops <= EVENT_LOOPS_MAX
    ensures 1 <= configured <= EVENT_LOOPS_MAX ==> loops == configured
    ensures configured > EVENT_LOOPS_MAX ==> loops == EVENT_LOOPS_MAX
    ensures configured <= 0 && !multicore ==> loops == 1
    ensures configured <= 0 && multicore ==> loops <= cpus && (cpus <= EVENT_LOOPS_MAX ==> loops == cpus)
    ensures configured <= 0 && multicore && cpus > EVENT_LOOPS_MAX ==> loops == EVENT_LOOPS_MAX
  {
    var loops := if configured > 0 then configured else if multicore then cpus else 1;
    if loops > EVENT_LOOPS_MAX then EVENT_LOOPS_MAX else loops
  }

  datatype Config = Config(maxConn: int, capacity: nat)

  // ----- The state -----

  datatype Event =
    | OpenEvent(c: nat)   // a connection to open
    | ConnEvent(c: nat)   // a packet, a Wake or a read error of a connection
    | Demand              // an event that asks for shutdown

  /** How a handler of the user returns. */
  datatype Outcome = Fine | WantsClose | WantsShutdown | Panics

  /** What an opening connection's callback is told. */
  datatype Notice = Opened | MaxConnRejected | OnOpenPanicked | EngineShutdown

  /** Where a close returns to. */
  datatype After = ToLoop | ToNotice(panicked: bool) | ToClosingAll

  /** Where a loop is in its code. */
  datatype Place =
    | Select
    | Entering(c: nat)                       // in open, before the quota is taken
    | RollingBack(c: nat)                    // over the quota, not yet given back
    | Registering(c: nat)                    // admitted, not yet registered
    | Calling(c: nat)                        // OnOpen runs
    | Notifying(c: nat, n: Notice, shutdown: bool)
    | Serving(c: nat)                        // a packet, a Wake or a read error
    | Closing(c: nat, after: After)          // close is entered
    | Decrementing(c: nat, after: After)     // unregistered, the quota not yet given back
    | CallingOnClose(c: nat, after: After)
    | Checking                               // drain looks at its deadline
    | Exiting                                // run returns, shutdown is still to be signalled
    | ClosingAll
    | Stopped

  datatype Mode = Running | Draining | Rejecting

  datatype Loop = Loop(
    connections: set<nat>,
    connCount: int,
    queue: seq<Event>,
    mode: Mode,
    place: Place)

  /** How far the client, or the acceptor, has got with a connection. */
  datatype Stage = Idle | Sending | Waiting | Returned(n: Notice)

  /** A connection with its history: what its loop did for it. */
  datatype Conn = Conn(
    owner: nat,
    dialled: bool,
    stage: Stage,
    posted: bool,          // its OpenEvent was put in the queue
    taken: bool,           // and taken from it
    ups: nat,              // how often the quota was incremented for it
    downs: nat,            // and decremented
    refused: bool,
    registered: bool,
    panicked: bool,
    notices: seq<Notice>)

  datatype State = State(loops: seq<Loop>, conns: seq<Conn>, total: int, cancelled: bool)

  // ----- Steps -----

  datatype Choice = Go | SeeCancel | Expire | Pick(c: nat) | Calls(outcome: Outcome)

  datatype Step =
    | DialCheck(c: nat)
    | DialPost(c: nat)
    | DialGiveUp(c: nat)
    | DialWoken(c: nat)
    | DialCancelled(c: nat)
    | Accept(c: nat)
    | Post(l: nat, e: Event)
    | Cancel
    | Run(l: nat, choice: Choice)

  /** What a step of a loop does to one connection and to the quota. */
  datatype Effect =
    | Nothing
    | Take(c: nat)
    | Up(c: nat, refused: bool)
    | Down(c: nat)
    | Register(c: nat)
    | Panic(c: nat)
    | Notify(c: nat, n: Notice)

  function Touch(conn: Conn, c: nat, e: Effect): Conn {
    if e.Nothing? || e.c != c then conn
    else match e
      case Take(_) => conn.(taken := true)
      case Up(_, refused) => conn.(ups := conn.ups + 1, refused := refused)
      case Down(_) => conn.(downs := conn.downs + 1)
      case Register(_) => conn.(registered := true)
      case Panic(_) => conn.(panicked := true)
      case Notify(_, n) => if conn.dialled then conn.(notices := conn.notices + [n]) else conn
  }

  predicate LoopEnabled(lp: Loop, cancelled: bool, choice: Choice) {
    match lp.place
    case Select => if lp.mode.Running? then (choice.Go? && lp.queue != []) || (choice.SeeCancel? && cancelled)
                   else choice.Go?
    case Calling(_) => choice.Calls?
    case CallingOnClose(_, _) => choice.Calls?
    case Serving(_) => choice.Calls?
    case Checking => choice.Go? || choice.Expire?
    case ClosingAll => if lp.connections == {} then choice.Go? else choice.Pick? && choice.c in lp.connections
    case Stopped => false
    case _ => choice.Go?
  }

  /** An event is done with: run leaves on a demand for shutdown, drain goes on to its deadline. */
  function Return(lp: Loop, shutdown: bool): Loop {
    if lp.mode.Running? then lp.(place := if shutdown then Exiting else Select)
    else if lp.mode.Draining? then lp.(place := Checking)
    else lp.(place := Select)
  }

  function AfterClose(lp: Loop, c: nat, after: After, shutdown: bool): Loop {
    match after
    case ToLoop => Return(lp, shutdown)
    case ToNotice(panicked) =>
      lp.(place := Notifying(c, if panicked then OnOpenPanicked else Opened, shutdown && !panicked))
    case ToClosingAll => lp.(place := ClosingAll)
  }

  /** A loop takes the next event. */
  function TakeEvent(lp: Loop): (Loop, Effect)
    requires lp.queue != []
  {
    var rest := lp.(queue := lp.queue[1..]);
    match lp.queue[0]
    case OpenEvent(c) =>
      (rest.(place := if lp.mode.Rejecting? then Notifying(c, EngineShutdown, false) else Entering(c)), Take(c))
    case ConnEvent(c) =>
      (if lp.mode.Rejecting? then rest
       else if c in lp.connections then rest.(place := Serving(c))
       else Return(rest, false), Nothing)
    case Demand => (Return(rest, true), Nothing)
  }

  function LoopNext(cfg: Config, lp: Loop, total: int, cancelled: bool, choice: Choice): (Loop, Effect)
    requires LoopEnabled(lp, cancelled, choice)
  {
    match lp.place
    case Select =>
      if choice.SeeCancel? then (lp.(mode := Draining), Nothing)
      else if lp.queue == [] then (lp.(place := Exiting), Nothing)
      else TakeEvent(lp)
    case Entering(c) =>
      if cfg.maxConn <= 0 then (lp.(place := Registering(c)), Nothing)
      else if Wrap32(total + 1) > cfg.maxConn then (lp.(place := RollingBack(c)), Up(c, true))
      else (lp.(place := Registering(c)), Up(c, false))
    case RollingBack(c) => (lp.(place := Notifying(c, MaxConnRejected, false)), Down(c))
    case Registering(c) =>
      (lp.(connections := lp.connections + {c}, connCount := lp.connCount + 1, place := Calling(c)), Register(c))
    case Calling(c) =>
      if choice.outcome.Panics? then (lp.(place := Closing(c, ToNotice(true))), Panic(c))
      else if choice.outcome.WantsClose? then (lp.(place := Closing(c, ToNotice(false))), Nothing)
      else (lp.(place := Notifying(c, Opened, choice.outcome.WantsShutdown?)), Nothing)
    case Notifying(c, n, shutdown) => (Return(lp, shutdown), Notify(c, n))
    case Serving(c) =>
      if choice.outcome.WantsClose? || choice.outcome.Panics? then (lp.(place := Closing(c, ToLoop)), Nothing)
      else (Return(lp, choice.outcome.WantsShutdown?), Nothing)
    case Closing(c, after) =>
      if c in lp.connections
      then (lp.(connections := lp.connections - {c}, connCount := lp.connCount - 1, place := Decrementing(c, after)), Nothing)
      else (AfterClose(lp, c, after, false), Nothing)
    case Decrementing(c, after) => (lp.(place := CallingOnClose(c, after)), Down(c))
    case CallingOnClose(c, after) =>
      if choice.outcome.WantsClose? then (lp.(place := Closing(c, after)), Nothing)
      else (AfterClose(lp, c, after, choice.outcome.WantsShutdown?), Nothing)
    case Checking => (lp.(place := Select, mode := if choice.Expire? then Rejecting else Draining), Nothing)
    case Exiting => (lp.(place := ClosingAll), Nothing)
    case ClosingAll =>
      (lp.(place := if choice.Go? then Stopped else Closing(choice.c, ToClosingAll)), Nothing)
  }

  function TotalAfter(total: int, e: Effect): int {
    if e.Up? then Wrap32(total + 1) else if e.Down? then Wrap32(total - 1) else total
  }

  predicate HasRoom(cfg: Config, s: State, l: nat) {
    l < |s.loops| && |s.loops[l].queue| < cfg.capacity
  }

  predicate Enabled(cfg: Config, s: State, step: Step) {
    match step
    case DialCheck(c) => c < |s.conns| && s.conns[c].dialled && s.conns[c].stage.Idle?
    case DialPost(c) => c < |s.conns| && s.conns[c].stage.Sending? && HasRoom(cfg, s, s.conns[c].owner)
    case DialGiveUp(c) => c < |s.conns| && s.conns[c].stage.Sending? && s.cancelled
    case DialWoken(c) => c < |s.conns| && s.conns[c].dialled && s.conns[c].stage.Waiting? && s.conns[c].notices != []
    case DialCancelled(c) => c < |s.conns| && s.conns[c].dialled && s.conns[c].stage.Waiting? && s.cancelled
    case Accept(c) => c < |s.conns| && !s.conns[c].dialled && s.conns[c].stage.Idle? && HasRoom(cfg, s, s.conns[c].owner)
    case Post(l, e) => HasRoom(cfg, s, l) && !e.OpenEvent?
    case Cancel => true
    case Run(l, choice) => l < |s.loops| && LoopEnabled(s.loops[l], s.cancelled, choice)
  }

  function Enqueue(s: State, l: nat, e: Event): State
    requires l < |s.loops|
  {
    s.(loops := s.loops[l := s.loops[l].(queue := s.loops[l].queue + [e])])
  }

  /** The client, or the acceptor, puts the connection in the queue of its loop. */
  function PostConn(s: State, c: nat): State
    requires c < |s.conns| && s.conns[c].owner < |s.loops|
  {
    Enqueue(s, s.conns[c].owner, OpenEvent(c))
      .(conns := s.conns[c := s.conns[c].(stage := Waiting, posted := true)])
  }

  function SetStage(s: State, c: nat, stage: Stage): State
    requires c < |s.conns|
  {
    s.(conns := s.conns[c := s.conns[c].(stage := stage)])
  }

  function TouchAll(conns: seq<Conn>, e: Effect): seq<Conn> {
    if e.Nothing? || e.c >= |conns| then conns else conns[e.c := Touch(conns[e.c], e.c, e)]
  }

  function RunLoop(cfg: Config, s: State, l: nat, choice: Choice): State
    requires l < |s.loops| && LoopEnabled(s.loops[l], s.cancelled, choice)
  {
    var (lp, e) := LoopNext(cfg, s.loops[l], s.total, s.cancelled, choice);
    State(s.loops[l := lp], TouchAll(s.conns, e), TotalAfter(s.total, e), s.cancelled || s.loops[l].place.Exiting?)
  }

  function Apply(cfg: Config, s: State, step: Step): State
    requires Enabled(cfg, s, step)
  {
    match step
    case DialCheck(c) => SetStage(s, c, if s.cancelled then Returned(EngineShutdown) else Sending)
    case DialPost(c) => PostConn(s, c)
    case DialGiveUp(c) => SetStage(s, c, Returned(EngineShutdown))
    case DialWoken(c) => SetStage(s, c, Returned(s.conns[c].notices[0]))
    case DialCancelled(c) => SetStage(s, c, Returned(EngineShutdown))
    case Accept(c) => PostConn(s, c)
    case Post(l, e) => Enqueue(s, l, e)
    case Cancel => s.(cancelled := true)
    case Run(l, choice) => RunLoop(cfg, s, l, choice)
  }

  ghost predicate Init(s: State) {
    && s.total == 0 && !s.cancelled
    && (forall l :: 0 <= l < |s.loops| ==> s.loops[l] == Loop({}, 0, [], Running, Select))
    && (forall c :: 0 <= c < |s.conns| ==> FreshConn(s, c))
  }

  ghost predicate FreshConn(s: State, c: nat)
    requires c < |s.conns|
  {
    s.conns[c].owner < |s.loops|
    && s.conns[c] == Conn(s.conns[c].owner, s.conns[c].dialled, Idle, false, false, 0, 0, false, false, false, [])
  }

  ghost predicate IsRun(cfg: Config, run: seq<State>, steps: seq<Step>) {
    && |run| == |steps| + 1 && Init(run[0])
    && forall i :: 0 <= i < |steps| ==> Enabled(cfg, run[i], steps[i]) && run[i + 1] == Apply(cfg, run[i], steps[i])
  }
}
